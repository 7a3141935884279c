/** The ideal AEAD and the STREAM framing of an encrypted backup: how a plaintext is cut into sealed
    frames, what the reader accepts, and why the two agree (internal/backup/crypto.go). */
module Framing {
  import opened Bytes

  const TAG_BYTES: nat := 16
  const NONCE_BYTES: nat := 12
  const PREFIX_BYTES: nat := 3
  const MIN_CHUNK: nat := 4096
  const MAX_CHUNK: nat := 0x80_0000
  const TWO_TO_64: nat := 0x1_0000_0000_0000_0000

  type Prefix = p: seq<byte> | |p| == PREFIX_BYTES witness [0, 0, 0]
  type ChunkSize = c: nat | MIN_CHUNK <= c <= MAX_CHUNK witness MIN_CHUNK
  type Payload = p: seq<byte> | |p| < TWO_TO_64

  // ----- nonces

  function ChunkNonce(prefix: Prefix, index: nat, final: bool): (nonce: seq<byte>)
    ensures |nonce| == NONCE_BYTES
  {
    prefix + BigEndian(index, 8) + [if final then 1 else 0]
  }

  /** The counter field holds 64 bits, so two nonces of one archive coincide exactly when the frame
      numbers agree modulo 2^64 and the final markers agree. */
  lemma ChunkNonceCollides(prefix: Prefix, i: nat, f: bool, j: nat, g: bool)
    ensures ChunkNonce(prefix, i, f) == ChunkNonce(prefix, j, g) <==> i % TWO_TO_64 == j % TWO_TO_64 && f == g
  {
    var a, b := ChunkNonce(prefix, i, f), ChunkNonce(prefix, j, g);
    assert a[3..11] == BigEndian(i, 8) && b[3..11] == BigEndian(j, 8);
    assert a[..3] == prefix == b[..3];
    BigEndianDecodes(i, 8);
    BigEndianDecodes(j, 8);
    Power256Of8();
    if i % TWO_TO_64 == j % TWO_TO_64 {
      BigEndianTruncates(i, j, 8);
    }
    if a == b {
      assert a[11] == b[11];
    }
  }

  lemma MarkerByte(prefix: Prefix, i: nat, f: bool)
    ensures ChunkNonce(prefix, i, f)[NONCE_BYTES - 1] == 1 <==> f
  {
    hide BigEndian;
  }

  lemma Power256Of8()
    ensures Power256(8) == TWO_TO_64
  {
    assert Power256(2) == 0x1_0000;
    assert Power256(4) == 256 * (256 * Power256(2));
    assert Power256(6) == 256 * (256 * Power256(4));
    assert Power256(8) == 256 * (256 * Power256(6));
  }

  lemma {:induction false} BigEndianTruncates(i: nat, j: nat, width: nat)
    requires i % Power256(width) == j % Power256(width)
    ensures BigEndian(i, width) == BigEndian(j, width)
  {
    if width > 0 {
      var p := Power256(width - 1);
      SplitMod(i, p);
      SplitMod(j, p);
      BigEndianTruncates(i / 256, j / 256, width - 1);
    }
  }

  // ----- cutting a plaintext into frames

  /** Frames are filled lazily, so a plaintext that ends on a boundary has a full last frame; the only
      empty frame is the single one of the empty plaintext. */
  function Split(plain: seq<byte>, chunk: ChunkSize): (pieces: seq<seq<byte>>)
    ensures 0 < |pieces| <= |plain| + 1
    decreases |plain|
  {
    if |plain| <= chunk then [plain] else [plain[..chunk]] + Split(plain[chunk..], chunk)
  }

  /** Splitting loses nothing, and all frames but the last are exactly full. */
  lemma {:induction false} SplitShape(plain: seq<byte>, chunk: ChunkSize)
    ensures Flatten(Split(plain, chunk)) == plain
    ensures var s := Split(plain, chunk);
            && (forall i :: 0 <= i < |s| - 1 ==> |s[i]| == chunk)
            && |s[|s| - 1]| <= chunk
            && (plain != [] ==> |s[|s| - 1]| > 0)
    decreases |plain|
  {
    if |plain| <= chunk {
      assert Flatten([plain]) == plain + Flatten<byte>([]);
    } else {
      SplitShape(plain[chunk..], chunk);
      var head, tail := plain[..chunk], Split(plain[chunk..], chunk);
      assert Split(plain, chunk) == [head] + tail;
      hide Split, Flatten;
      FlattenHead([head] + tail);
      assert ([head] + tail)[1..] == tail;
    }
  }

  /** The number of frames is max(1, ceil(n / chunk)). */
  lemma {:induction false} FrameCount(plain: seq<byte>, chunk: ChunkSize)
    ensures |Split(plain, chunk)| == if plain == [] then 1 else (|plain| + chunk - 1) / chunk
    decreases |plain|
  {
    if |plain| > chunk {
      var x := |plain| - 1;
      FrameCount(plain[chunk..], chunk);
      DivModUnique(x + chunk, chunk, x / chunk + 1, x % chunk);
    } else if plain != [] {
      DivModUnique(|plain| + chunk - 1, chunk, 1, |plain| - 1);
    }
  }

  /** What a plaintext costs when it is sealed. */
  function SealedLength(plain: seq<byte>, chunk: ChunkSize): nat {
    |plain| + TAG_BYTES * |Split(plain, chunk)|
  }

  lemma {:induction false} LongerCostsMore(a: seq<byte>, b: seq<byte>, chunk: ChunkSize)
    requires |a| <= |b|
    ensures |Split(a, chunk)| <= |Split(b, chunk)| && SealedLength(a, chunk) <= SealedLength(b, chunk)
    decreases |a|
  {
    if |a| > chunk {
      LongerCostsMore(a[chunk..], b[chunk..], chunk);
    }
  }

  /** A list of full pieces followed by a last piece that is empty only when it is alone is the one
      way to cut its concatenation: how the bytes arrived cannot show. */
  lemma {:induction false} SplitUnique(pieces: seq<seq<byte>>, last: seq<byte>, chunk: ChunkSize)
    requires forall i :: 0 <= i < |pieces| ==> |pieces[i]| == chunk
    requires |last| <= chunk && (pieces != [] ==> last != [])
    ensures Split(Flatten(pieces) + last, chunk) == pieces + [last]
  {
    if pieces != [] {
      var rest := pieces[1..];
      SplitUnique(rest, last, chunk);
      var plain := Flatten(pieces) + last;
      assert plain == pieces[0] + (Flatten(rest) + last);
      assert plain[..chunk] == pieces[0] && plain[chunk..] == Flatten(rest) + last;
      assert |Flatten(rest) + last| > 0;
      assert pieces + [last] == [pieces[0]] + (rest + [last]);
    } else {
      assert Flatten(pieces) + last == last;
    }
  }

  // ----- archives and the ideal AEAD

  /** What one export put under one header. The header bytes fix the nonce prefix and chunk size. */
  datatype Archive = Archive(prefix: Prefix, chunk: ChunkSize, plain: Payload)

  datatype Aead = Aead(seal: (seq<byte>, seq<byte>, seq<byte>) -> seq<byte>,
                       open: (seq<byte>, seq<byte>, seq<byte>) -> Option<seq<byte>>)

  /** Some honest export sealed this plaintext under this nonce and associated data. */
  ghost predicate Logged(archives: map<seq<byte>, Archive>, nonce: seq<byte>, ad: seq<byte>, plain: seq<byte>)
  {
    ad in archives && exists i: nat :: LoggedAt(archives[ad], i, nonce, plain)
  }

  ghost predicate LoggedAt(archive: Archive, i: nat, nonce: seq<byte>, plain: seq<byte>)
  {
    var s := Split(archive.plain, archive.chunk);
    i < |s| && plain == s[i] && nonce == ChunkNonce(archive.prefix, i, i == |s| - 1)
  }

  /** An ideal AEAD relative to the archives sealed so far, keyed by their associated data (so no two
      archives share a header): it opens exactly the logged frames. */
  ghost predicate Ideal(aead: Aead, archives: map<seq<byte>, Archive>) {
    && (forall n, ad, p :: |aead.seal(n, ad, p)| == |p| + TAG_BYTES)
    && (forall n, ad, c :: aead.open(n, ad, c).Some? ==>
          Logged(archives, n, ad, aead.open(n, ad, c).value) && aead.seal(n, ad, aead.open(n, ad, c).value) == c)
    && (forall n, ad, p :: Logged(archives, n, ad, p) ==> aead.open(n, ad, aead.seal(n, ad, p)) == Some(p))
  }

  function Frame(aead: Aead, ad: seq<byte>, prefix: Prefix, pieces: seq<seq<byte>>, i: nat): seq<byte>
    requires i < |pieces|
  {
    aead.seal(ChunkNonce(prefix, i, i == |pieces| - 1), ad, pieces[i])
  }

  function FramesFrom(aead: Aead, ad: seq<byte>, prefix: Prefix, pieces: seq<seq<byte>>, i: nat): seq<byte>
    requires i <= |pieces|
    decreases |pieces| - i
  {
    if i == |pieces| then [] else Frame(aead, ad, prefix, pieces, i) + FramesFrom(aead, ad, prefix, pieces, i + 1)
  }

  /** The body of a finished archive. */
  function Body(aead: Aead, ad: seq<byte>, archive: Archive): seq<byte>
  {
    FramesFrom(aead, ad, archive.prefix, Split(archive.plain, archive.chunk), 0)
  }

  /** Every frame costs one tag. */
  lemma {:induction false} FramesLength(aead: Aead, ad: seq<byte>, prefix: Prefix, pieces: seq<seq<byte>>, i: nat)
    requires i <= |pieces|
    requires forall n, a, p :: |aead.seal(n, a, p)| == |p| + TAG_BYTES
    ensures |FramesFrom(aead, ad, prefix, pieces, i)| == |Flatten(pieces[i..])| + TAG_BYTES * (|pieces| - i)
    decreases |pieces| - i
  {
    if i < |pieces| {
      FramesLength(aead, ad, prefix, pieces, i + 1);
      assert pieces[i..][1..] == pieces[i + 1..];
    }
  }

  // ----- the reader

  datatype Outcome = Opened | NoFinalFrame | TruncatedFrame | NotAuthentic | TooLarge

  /** What the reader decided, what it had written by then, and how many frames that was. */
  datatype OpenResult = OpenResult(outcome: Outcome, plain: seq<byte>, frames: nat)

  function Min(a: int, b: int): int { if a < b then a else b }

  /** The decision on one frame that was read, given what opening it yields and what comes after. */
  function Decide(frame: seq<byte>, plain: Option<seq<byte>>, final: bool, room: int, rest: OpenResult): OpenResult {
    if |frame| < TAG_BYTES then OpenResult(TruncatedFrame, [], 0)
    else if plain.None? then OpenResult(NotAuthentic, [], 0)
    else if |plain.value| > room then OpenResult(TooLarge, [], 0)
    else if final then OpenResult(Opened, plain.value, 1)
    else OpenResult(rest.outcome, plain.value + rest.plain, rest.frames + 1)
  }

  /** The four ways a frame can be decided. */
  lemma DecideAll(frame: seq<byte>, plain: Option<seq<byte>>, final: bool, room: int, rest: OpenResult)
    ensures |frame| < TAG_BYTES ==> Decide(frame, plain, final, room, rest) == OpenResult(TruncatedFrame, [], 0)
    ensures |frame| >= TAG_BYTES && plain.None? ==>
            Decide(frame, plain, final, room, rest) == OpenResult(NotAuthentic, [], 0)
    ensures |frame| >= TAG_BYTES && plain.Some? && |plain.value| > room ==>
            Decide(frame, plain, final, room, rest) == OpenResult(TooLarge, [], 0)
    ensures |frame| >= TAG_BYTES && plain.Some? && |plain.value| <= room ==>
              (Decide(frame, plain, final, room, rest)
               == if final then OpenResult(Opened, plain.value, 1)
                   else OpenResult(rest.outcome, plain.value + rest.plain, rest.frames + 1))
  {
  }

  function RoomAfter(room: int, plain: Option<seq<byte>>): int {
    if plain.Some? then room - |plain.value| else room
  }

  /** The reader's decisions on a body from frame `index` on, with `room` bytes of output left. A
      frame is final when nothing follows it in the input. */
  function OpenFrames(aead: Aead, prefix: Prefix, ad: seq<byte>, chunk: ChunkSize, body: seq<byte>, index: nat,
      room: int): OpenResult
    decreases |body|
  {
    if body == [] then OpenResult(NoFinalFrame, [], 0)
    else
      var count := Min(|body|, chunk + TAG_BYTES);
      var final := |body| <= chunk + TAG_BYTES;
      var plain := aead.open(ChunkNonce(prefix, index, final), ad, body[..count]);
      var rest := OpenFrames(aead, prefix, ad, chunk, body[count..], index + 1, RoomAfter(room, plain));
      Decide(body[..count], plain, final, room, rest)
  }

  /** The nonce of a logged frame tells its number and whether it is the last. */
  lemma NonceTellsTheFrame(archive: Archive, i: nat, final: bool, j: nat, plain: seq<byte>)
    requires i < |Split(archive.plain, archive.chunk)|
    requires LoggedAt(archive, j, ChunkNonce(archive.prefix, i, final), plain)
    ensures i == j && final == (i == |Split(archive.plain, archive.chunk)| - 1)
  {
    hide ChunkNonce;
    ChunkNonceCollides(archive.prefix, i, final, j, j == |Split(archive.plain, archive.chunk)| - 1);
  }

  lemma IdealOpens(aead: Aead, archives: map<seq<byte>, Archive>, n: seq<byte>, ad: seq<byte>, c: seq<byte>)
    requires Ideal(aead, archives) && aead.open(n, ad, c).Some?
    ensures ad in archives && aead.seal(n, ad, aead.open(n, ad, c).value) == c
    ensures exists j: nat :: LoggedAt(archives[ad], j, n, aead.open(n, ad, c).value)
  {
  }

  /** A frame that opens under number `i` of a known header is that header's sealed frame `i`, and the
      reader's idea of "final" was right. */
  lemma OpenedFrameIsSealed(aead: Aead, archives: map<seq<byte>, Archive>, ad: seq<byte>, i: nat, final: bool,
      c: seq<byte>)
    requires Ideal(aead, archives) && ad in archives
    requires i < |Split(archives[ad].plain, archives[ad].chunk)|
    requires aead.open(ChunkNonce(archives[ad].prefix, i, final), ad, c).Some?
    ensures var ar := archives[ad];
            var s := Split(ar.plain, ar.chunk);
            && final == (i == |s| - 1)
            && c == Frame(aead, ad, ar.prefix, s, i)
            && aead.open(ChunkNonce(ar.prefix, i, final), ad, c).value == s[i]
  {
    hide Ideal;
    var ar := archives[ad];
    var nonce := ChunkNonce(ar.prefix, i, final);
    IdealOpens(aead, archives, nonce, ad, c);
    var plain := aead.open(nonce, ad, c).value;
    var j: nat :| LoggedAt(ar, j, nonce, plain);
    NonceTellsTheFrame(ar, i, final, j, plain);
  }

  lemma FlattenSlice(s: seq<seq<byte>>, i: nat, k: nat)
    requires i + k <= |s|
    ensures Flatten(s[i..i + k]) == if k == 0 then [] else s[i] + Flatten(s[i + 1..i + k])
  {
    if k > 0 {
      assert s[i..i + k][1..] == s[i + 1..i + k];
    }
  }

  /** From frame `i` on, the reader accepts only the remaining sealed frames, and whatever it wrote
      before a refusal is a run of whole frames. */
  lemma {:induction false} AcceptsOnlySealed(aead: Aead, archives: map<seq<byte>, Archive>, ad: seq<byte>,
      body: seq<byte>, i: nat, room: int)
    requires Ideal(aead, archives) && ad in archives
    requires i < |Split(archives[ad].plain, archives[ad].chunk)|
    ensures var ar := archives[ad];
            var s := Split(ar.plain, ar.chunk);
            var r := OpenFrames(aead, ar.prefix, ad, ar.chunk, body, i, room);
            && i + r.frames <= |s| && r.plain == Flatten(s[i..i + r.frames])
            && (r.outcome == Opened ==>
                  i + r.frames == |s| && body == FramesFrom(aead, ad, ar.prefix, s, i) && |r.plain| <= room)
    decreases |body|
  {
    hide Ideal, ChunkNonce, Split, Flatten, OpenFrames, FramesFrom, Frame, Decide;
    var ar := archives[ad];
    var s := Split(ar.plain, ar.chunk);
    FlattenSlice(s, i, 0);
    if body == [] {
      NothingLeft(aead, ar.prefix, ad, ar.chunk, i, room);
      return;
    }
    var count := Min(|body|, ar.chunk + TAG_BYTES);
    var final := |body| <= ar.chunk + TAG_BYTES;
    var frame, after := body[..count], body[count..];
    var plain := aead.open(ChunkNonce(ar.prefix, i, final), ad, frame);
    NextDecision(aead, ar.prefix, ad, ar.chunk, body, i, room, frame);
    DecideAll(frame, plain, final, room,
        OpenFrames(aead, ar.prefix, ad, ar.chunk, after, i + 1, RoomAfter(room, plain)));
    if plain.Some? && |frame| >= TAG_BYTES && |plain.value| <= room {
      OpenedFrameIsSealed(aead, archives, ad, i, final, frame);
      FramesFromStep(aead, ad, ar.prefix, s, i);
      if final {
        FlattenSlice(s, i, 1);
        FlattenSlice(s, i + 1, 0);
      } else {
        AcceptsOnlySealed(aead, archives, ad, after, i + 1, room - |plain.value|);
        var r := OpenFrames(aead, ar.prefix, ad, ar.chunk, after, i + 1, RoomAfter(room, plain));
        FlattenSlice(s, i, 1 + r.frames);
        assert body == frame + after;
      }
    }
  }

  lemma FramesFromStep(aead: Aead, ad: seq<byte>, prefix: Prefix, pieces: seq<seq<byte>>, i: nat)
    requires i < |pieces|
    ensures FramesFrom(aead, ad, prefix, pieces, i)
            == Frame(aead, ad, prefix, pieces, i) + FramesFrom(aead, ad, prefix, pieces, i + 1)
    ensures i + 1 == |pieces| ==> FramesFrom(aead, ad, prefix, pieces, i) == Frame(aead, ad, prefix, pieces, i)
  {
  }

  lemma NothingLeft(aead: Aead, prefix: Prefix, ad: seq<byte>, chunk: ChunkSize, index: nat, room: int)
    ensures OpenFrames(aead, prefix, ad, chunk, [], index, room) == OpenResult(NoFinalFrame, [], 0)
  {
  }

  /** One turn of the reader's loop. */
  lemma NextDecision(aead: Aead, prefix: Prefix, ad: seq<byte>, chunk: ChunkSize, body: seq<byte>, index: nat,
      room: int, frame: seq<byte>)
    requires body != [] && frame == body[..Min(|body|, chunk + TAG_BYTES)]
    ensures OpenFrames(aead, prefix, ad, chunk, body, index, room)
         == (var final := |body| <= chunk + TAG_BYTES;
             var plain := aead.open(ChunkNonce(prefix, index, final), ad, frame);
             Decide(frame, plain, final, room,
                 OpenFrames(aead, prefix, ad, chunk, body[|frame|..], index + 1, RoomAfter(room, plain))))
  {
    hide ChunkNonce, Decide;
  }

  lemma IdealOpensSealed(aead: Aead, archives: map<seq<byte>, Archive>, n: seq<byte>, ad: seq<byte>, i: nat,
      plain: seq<byte>)
    requires Ideal(aead, archives) && ad in archives && LoggedAt(archives[ad], i, n, plain)
    ensures aead.open(n, ad, aead.seal(n, ad, plain)) == Some(plain) && |aead.seal(n, ad, plain)| == |plain| + TAG_BYTES
  {
    assert Logged(archives, n, ad, plain);
  }

  /** The reader accepts the remaining sealed frames whenever their plaintext fits. */
  lemma {:induction false} AcceptsSealed(aead: Aead, archives: map<seq<byte>, Archive>, ad: seq<byte>, i: nat,
      room: int)
    requires Ideal(aead, archives) && ad in archives
    requires i < |Split(archives[ad].plain, archives[ad].chunk)|
    requires |Flatten(Split(archives[ad].plain, archives[ad].chunk)[i..])| <= room
    ensures var ar := archives[ad];
            var s := Split(ar.plain, ar.chunk);
            OpenFrames(aead, ar.prefix, ad, ar.chunk, FramesFrom(aead, ad, ar.prefix, s, i), i, room).outcome == Opened
    decreases |Split(archives[ad].plain, archives[ad].chunk)| - i
  {
    hide Ideal, ChunkNonce, Split, Flatten, OpenFrames, FramesFrom;
    var ar := archives[ad];
    var s := Split(ar.plain, ar.chunk);
    SplitShape(ar.plain, ar.chunk);
    var body := FramesFrom(aead, ad, ar.prefix, s, i);
    var frame := Frame(aead, ad, ar.prefix, s, i);
    var rest := FramesFrom(aead, ad, ar.prefix, s, i + 1);
    var nonce := ChunkNonce(ar.prefix, i, i == |s| - 1);
    IdealOpensSealed(aead, archives, nonce, ad, i, s[i]);
    FlattenSlice(s, i, |s| - i);
    assert s[i..|s|] == s[i..] && s[i + 1..|s|] == s[i + 1..];
    FramesFromStep(aead, ad, ar.prefix, s, i);
    assert body[..|frame|] == frame && body[|frame|..] == rest;
    NextDecision(aead, ar.prefix, ad, ar.chunk, body, i, room, body[..Min(|body|, ar.chunk + TAG_BYTES)]);
    if i < |s| - 1 {
      FramesFromStep(aead, ad, ar.prefix, s, i + 1);
      IdealTag(aead, archives, ChunkNonce(ar.prefix, i + 1, i + 1 == |s| - 1), ad, s[i + 1]);
      AcceptsSealed(aead, archives, ad, i + 1, room - |s[i]|);
    }
  }

  lemma IdealTag(aead: Aead, archives: map<seq<byte>, Archive>, n: seq<byte>, ad: seq<byte>, plain: seq<byte>)
    requires Ideal(aead, archives)
    ensures |aead.seal(n, ad, plain)| == |plain| + TAG_BYTES
  {
  }

  function OpenBody(aead: Aead, prefix: Prefix, ad: seq<byte>, chunk: ChunkSize, body: seq<byte>, max: int): OpenResult
  {
    OpenFrames(aead, prefix, ad, chunk, body, 0, max)
  }

  /** Whole-stream authenticity and the round trip in one statement: under a known header the reader
      accepts a body exactly when it is, byte for byte, the body sealed under that header and its
      plaintext fits; then it yields that plaintext, and otherwise it has written a whole-frame
      prefix of it. Under any other header it accepts and writes nothing. */
  lemma OpensExactlyTheSealedBody(aead: Aead, archives: map<seq<byte>, Archive>, prefix: Prefix, ad: seq<byte>,
      chunk: ChunkSize, body: seq<byte>, max: int)
    requires Ideal(aead, archives)
    requires ad in archives ==> prefix == archives[ad].prefix && chunk == archives[ad].chunk
    ensures var r := OpenBody(aead, prefix, ad, chunk, body, max);
            && (r.outcome == Opened <==>
                  ad in archives && body == Body(aead, ad, archives[ad]) && |archives[ad].plain| <= max)
            && (r.outcome == Opened ==> r.plain == archives[ad].plain)
            && (ad in archives ==> var s := Split(archives[ad].plain, chunk);
                  r.frames <= |s| && r.plain == Flatten(s[..r.frames]))
            && (ad !in archives ==> r.plain == [])
  {
    if ad in archives {
      var ar := archives[ad];
      var s := Split(ar.plain, chunk);
      var r := OpenBody(aead, prefix, ad, chunk, body, max);
      SplitShape(ar.plain, chunk);
      AcceptsOnlySealed(aead, archives, ad, body, 0, max);
      assert s[0..r.frames] == s[..r.frames];
      assert s[..|s|] == s && s[0..] == s;
      if |ar.plain| <= max {
        AcceptsSealed(aead, archives, ad, 0, max);
      }
    }
  }

  /** No proper prefix of a sealed body is accepted, wherever it is cut, and neither is any extension. */
  lemma TruncationIsRejected(aead: Aead, archives: map<seq<byte>, Archive>, ad: seq<byte>, body: seq<byte>, max: int)
    requires Ideal(aead, archives) && ad in archives
    requires body < Body(aead, ad, archives[ad]) || Body(aead, ad, archives[ad]) < body
    ensures OpenBody(aead, archives[ad].prefix, ad, archives[ad].chunk, body, max).outcome != Opened
  {
    OpensExactlyTheSealedBody(aead, archives, archives[ad].prefix, ad, archives[ad].chunk, body, max);
  }

  /** A finished body is its plaintext plus one tag a frame. */
  lemma BodyLength(aead: Aead, ad: seq<byte>, archive: Archive)
    requires forall n, a, p :: |aead.seal(n, a, p)| == |p| + TAG_BYTES
    ensures |Body(aead, ad, archive)| == |archive.plain| + TAG_BYTES * |Split(archive.plain, archive.chunk)|
  {
    var s := Split(archive.plain, archive.chunk);
    SplitShape(archive.plain, archive.chunk);
    FramesLength(aead, ad, archive.prefix, s, 0);
    assert s[0..] == s;
  }

  /** The nonce of frame `i` of a finished archive. */
  function FrameNonce(archive: Archive, i: nat): seq<byte>
    requires i < |Split(archive.plain, archive.chunk)|
  {
    ChunkNonce(archive.prefix, i, i == |Split(archive.plain, archive.chunk)| - 1)
  }

  function SealedFrame(aead: Aead, ad: seq<byte>, archive: Archive, i: nat): seq<byte>
    requires i < |Split(archive.plain, archive.chunk)|
  {
    aead.seal(FrameNonce(archive, i), ad, Split(archive.plain, archive.chunk)[i])
  }

  function SealedFrames(aead: Aead, ad: seq<byte>, archive: Archive): seq<seq<byte>> {
    var s := Split(archive.plain, archive.chunk);
    seq(|s|, i requires 0 <= i < |s| => SealedFrame(aead, ad, archive, i))
  }

  /** The body of a finished archive consists of its pieces, each sealed under the nonce of its frame; no
      two frames share a nonce, and the final marker sits on the last frame and nowhere else. */
  lemma NoncesNeverRepeat(aead: Aead, ad: seq<byte>, archive: Archive)
    ensures Body(aead, ad, archive) == Flatten(SealedFrames(aead, ad, archive))
    ensures var count := |Split(archive.plain, archive.chunk)|;
            && (forall i, j :: 0 <= i < j < count ==> FrameNonce(archive, i) != FrameNonce(archive, j))
            && (forall i :: 0 <= i < count ==> (FrameNonce(archive, i)[NONCE_BYTES - 1] == 1 <==> i == count - 1))
  {
    var s := Split(archive.plain, archive.chunk);
    FramesAreSealed(aead, ad, archive, 0);
    assert SealedFrames(aead, ad, archive)[0..] == SealedFrames(aead, ad, archive);
    hide ChunkNonce, Split, Body, Flatten;
    forall i | 0 <= i < |s|
      ensures FrameNonce(archive, i)[NONCE_BYTES - 1] == 1 <==> i == |s| - 1
    {
      MarkerByte(archive.prefix, i, i == |s| - 1);
    }
    forall i, j | 0 <= i < j < |s|
      ensures FrameNonce(archive, i) != FrameNonce(archive, j)
    {
      ChunkNonceCollides(archive.prefix, i, i == |s| - 1, j, j == |s| - 1);
    }
  }

  lemma {:induction false} FramesAreSealed(aead: Aead, ad: seq<byte>, archive: Archive, i: nat)
    requires i <= |Split(archive.plain, archive.chunk)|
    ensures FramesFrom(aead, ad, archive.prefix, Split(archive.plain, archive.chunk), i)
         == Flatten(SealedFrames(aead, ad, archive)[i..])
    decreases |Split(archive.plain, archive.chunk)| - i
  {
    hide Split, ChunkNonce;
    var frames := SealedFrames(aead, ad, archive);
    if i < |frames| {
      FramesAreSealed(aead, ad, archive, i + 1);
      assert frames[i..][1..] == frames[i + 1..];
    }
  }

  // ----- the writer's view of the same frames

  /** Frames sealed before the end of the plaintext was known. */
  function OpenEnded(aead: Aead, ad: seq<byte>, prefix: Prefix, pieces: seq<seq<byte>>): seq<byte> {
    if pieces == [] then []
    else
      var n := |pieces| - 1;
      OpenEnded(aead, ad, prefix, pieces[..n]) + aead.seal(ChunkNonce(prefix, n, false), ad, pieces[n])
  }

  lemma {:induction false} OpenEndedLength(aead: Aead, ad: seq<byte>, prefix: Prefix, pieces: seq<seq<byte>>)
    requires forall n, a, p :: |aead.seal(n, a, p)| == |p| + TAG_BYTES
    ensures |OpenEnded(aead, ad, prefix, pieces)| == |Flatten(pieces)| + TAG_BYTES * |pieces|
  {
    if pieces != [] {
      var n := |pieces| - 1;
      OpenEndedLength(aead, ad, prefix, pieces[..n]);
      FlattenSnoc(pieces[..n], pieces[n]);
      assert pieces == pieces[..n] + [pieces[n]];
    }
  }

  lemma {:induction false} FinishFrom(aead: Aead, ad: seq<byte>, prefix: Prefix, pieces: seq<seq<byte>>, k: nat)
    requires k < |pieces|
    ensures FramesFrom(aead, ad, prefix, pieces, 0)
            == OpenEnded(aead, ad, prefix, pieces[..k]) + FramesFrom(aead, ad, prefix, pieces, k)
  {
    if k > 0 {
      FinishFrom(aead, ad, prefix, pieces, k - 1);
      assert pieces[..k][..k - 1] == pieces[..k - 1];
    }
  }

  /** Closing the stream appends the one frame that carries the final marker. */
  lemma Finish(aead: Aead, ad: seq<byte>, prefix: Prefix, pieces: seq<seq<byte>>, last: seq<byte>)
    ensures FramesFrom(aead, ad, prefix, pieces + [last], 0)
         == OpenEnded(aead, ad, prefix, pieces) + aead.seal(ChunkNonce(prefix, |pieces|, true), ad, last)
  {
    var all := pieces + [last];
    FinishFrom(aead, ad, prefix, all, |pieces|);
    assert all[..|pieces|] == pieces;
    assert FramesFrom(aead, ad, prefix, all, |pieces| + 1) == [];
  }
}
