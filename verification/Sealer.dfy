/** The streaming sealer and opener of encrypted backups, in place and frame by frame
    (internal/backup/crypto.go), proved against the framing they implement. */
module Sealer {
  import opened Bytes
  import opened Framing
  import opened Streams

  // ----- the use of the key

  /** One call of the AEAD's seal: which nonce, which plaintext. */
  datatype SealCall = SealCall(index: nat, final: bool, plain: seq<byte>)

  function CallNonce(prefix: Prefix, call: SealCall): seq<byte> {
    ChunkNonce(prefix, call.index, call.final)
  }

  /** No two seal calls share a nonce without sharing the plaintext. */
  ghost predicate NonceBindsPlaintext(prefix: Prefix, calls: seq<SealCall>) {
    forall i, j :: 0 <= i < |calls| && 0 <= j < |calls| && CallNonce(prefix, calls[i]) == CallNonce(prefix, calls[j])
      ==> calls[i].plain == calls[j].plain
  }

  /** The use of the key by one attempt at a frame; a cancelled attempt does not get that far. */
  function Attempts(fault: Fault, call: SealCall): seq<SealCall> {
    if fault.Cancelled? then [] else [call]
  }

  /** A frame number used for one plaintext and again for a longer one: one nonce, two plaintexts. */
  lemma LongerFrameReusesTheNonce(prefix: Prefix, index: nat, final: bool, plain: seq<byte>, more: seq<byte>)
    requires more != []
    ensures !NonceBindsPlaintext(prefix, [SealCall(index, final, plain), SealCall(index, final, plain + more)])
  {
    var calls := [SealCall(index, final, plain), SealCall(index, final, plain + more)];
    assert CallNonce(prefix, calls[0]) == CallNonce(prefix, calls[1]) && |calls[0].plain| != |calls[1].plain|;
  }

  /** Every call sealed a frame already written out, or is a failed attempt at the frame in the buffer,
      which can only exist while that frame is `offered` (full, or being closed). */
  ghost predicate Explained(calls: seq<SealCall>, pieces: seq<seq<byte>>, buffer: seq<byte>, offered: bool) {
    forall k :: 0 <= k < |calls| ==>
      if calls[k].index < |pieces| then calls[k].plain == pieces[calls[k].index]
      else offered && calls[k].index == |pieces| && calls[k].plain == buffer
  }

  /** As long as the frame number fits the counter field of the nonce, explained calls keep to it. */
  lemma ExplainedBinds(prefix: Prefix, calls: seq<SealCall>, pieces: seq<seq<byte>>, buffer: seq<byte>, offered: bool)
    requires Explained(calls, pieces, buffer, offered) && |pieces| < TWO_TO_64
    ensures NonceBindsPlaintext(prefix, calls)
  {
    hide ChunkNonce;
    forall i, j | 0 <= i < |calls| && 0 <= j < |calls| && CallNonce(prefix, calls[i]) == CallNonce(prefix, calls[j])
      ensures calls[i].plain == calls[j].plain
    {
      ChunkNonceCollides(prefix, calls[i].index, calls[i].final, calls[j].index, calls[j].final);
    }
  }

  lemma AttemptStaysExplained(calls: seq<SealCall>, pieces: seq<seq<byte>>, buffer: seq<byte>, call: SealCall)
    requires call.index == |pieces| && call.plain == buffer
    ensures Explained(calls, pieces, buffer, true) ==> Explained(calls + [call], pieces, buffer, true)
  {
  }

  lemma FlushStaysExplained(calls: seq<SealCall>, pieces: seq<seq<byte>>, buffer: seq<byte>)
    requires Explained(calls, pieces, buffer, true)
    ensures Explained(calls, pieces + [buffer], [], false)
  {
  }

  lemma OfferStaysExplained(calls: seq<SealCall>, pieces: seq<seq<byte>>, before: seq<byte>, after: seq<byte>,
      offered: bool)
    requires Explained(calls, pieces, before, false)
    ensures Explained(calls, pieces, after, offered)
  {
  }

  // ----- sealing

  class ChunkSealer {
    const aead: Aead
    const out: Writer
    const prefix: Prefix
    const associated: seq<byte>
    const plain: array<byte>
    var filled: nat
    var index: nat
    var remaining: int
    var closed: bool

    ghost const chunk: ChunkSize
    ghost const base: seq<byte>       // what `out` held before the body
    ghost const budget: nat
    ghost var accepted: seq<byte>     // every plaintext byte taken in
    ghost var pieces: seq<seq<byte>>  // the plaintexts of the frames written out
    ghost var intact: bool            // no write to `out` has failed
    ghost var calls: seq<SealCall>    // every use of the key
    ghost var closing: bool           // Close has been attempted
    ghost var late: bool              // plaintext arrived after a failed Close

    ghost predicate Core()
      reads this, plain, out
    {
      && plain.Length == chunk && filled <= plain.Length
      && index == |pieces|
      && (forall n, a, p :: |aead.seal(n, a, p)| == |p| + TAG_BYTES)
      && remaining >= 0 && remaining + |Flatten(pieces)| + TAG_BYTES * |pieces| == budget
      && (intact ==> out.content == base + Written())
      && (!late ==> Explained(calls, pieces, plain[..filled], Offered()))
      && (!closed ==> accepted == Flatten(pieces) + plain[..filled])
      && (!closed ==> forall i :: 0 <= i < |pieces| ==> |pieces[i]| == chunk)
    }

    /** Before the end a frame waits until it is known not to be the last. */
    ghost predicate Valid()
      reads this, plain, out
    {
      && Core()
      && if closed then closing && pieces == Split(accepted, chunk) else filled == 0 ==> pieces == []
    }

    ghost predicate Offered()
      reads this, plain
    {
      !closed && (closing || filled == plain.Length)
    }

    ghost function Written(): seq<byte>
      reads this
    {
      if closed then FramesFrom(aead, associated, prefix, pieces, 0) else OpenEnded(aead, associated, prefix, pieces)
    }

    constructor (out: Writer, aead: Aead, prefix: Prefix, associated: seq<byte>, chunkSize: ChunkSize, budget: nat)
      requires forall n, a, p :: |aead.seal(n, a, p)| == |p| + TAG_BYTES
      ensures Valid() && fresh(plain) && this.out == out && this.aead == aead && this.prefix == prefix
      ensures this.associated == associated && chunk == chunkSize && this.budget == budget && base == out.content
      ensures accepted == [] && intact && !closed && !closing && !late && calls == []
    {
      this.out, this.aead, this.prefix, this.associated := out, aead, prefix, associated;
      this.plain := new byte[chunkSize];
      this.filled, this.index, this.remaining, this.closed := 0, 0, budget, false;
      this.chunk, this.base, this.budget := chunkSize, out.content, budget;
      this.accepted, this.pieces, this.intact, this.calls, this.closing, this.late := [], [], true, [], false, false;
    }

    /** Seal the buffer as one frame. A failure leaves the sealer where it was. */
    method Flush(final: bool) returns (fault: Fault)
      requires Valid() && !closed && (final ==> closing) && (!final ==> filled == plain.Length && (closing ==> late))
      modifies this`filled, this`index, this`remaining, this`closed, this`pieces, this`intact, this`calls, out
      ensures Core()
      ensures fault in {Nil, Cancelled, SizeLimit, WriteFailed}
      ensures fault != Nil ==> !closed && filled == old(filled) && remaining == old(remaining) && pieces == old(pieces)
      ensures fault == SizeLimit ==> filled + TAG_BYTES > remaining
      ensures fault == Nil ==> filled == 0 && pieces == old(pieces) + [old(plain[..filled])] && closed == final
      ensures fault == Nil && final ==> Valid()
      ensures intact == (old(intact) && fault != WriteFailed)
      ensures calls == old(calls) + Attempts(fault, SealCall(old(index), final, old(plain[..filled])))
      ensures fault != Nil ==> index == old(index)
    {
      hide Split, FramesFrom, OpenEnded, ChunkNonce, Flatten, Explained;
      var cancelled: bool := *;
      if cancelled {
        return Cancelled;
      }
      ghost var piece := plain[..filled];
      var frame := aead.seal(ChunkNonce(prefix, index, final), associated, plain[..filled]);
      AttemptStaysExplained(calls, pieces, piece, SealCall(index, final, piece));
      calls := calls + [SealCall(index, final, piece)];
      if |frame| > remaining {
        return SizeLimit;
      }
      var n, ok := out.Write(frame);
      if !ok {
        intact := false;
        return WriteFailed;
      }
      assert frame[..n] == frame;
      Advance(frame, final);
      return Nil;
    }

    /** Account for a frame that has been written out. */
    method Advance(frame: seq<byte>, final: bool)
      requires plain.Length == chunk && filled <= plain.Length && index == |pieces| && !closed
      requires Sealing() && (final ==> closing) && (!final ==> filled == plain.Length && (closing ==> late))
      requires |frame| == filled + TAG_BYTES <= remaining
      requires remaining + |Flatten(pieces)| + TAG_BYTES * |pieces| == budget
      requires frame == aead.seal(ChunkNonce(prefix, index, final), associated, plain[..filled])
      requires intact ==> out.content == base + OpenEnded(aead, associated, prefix, pieces) + frame
      modifies this`filled, this`index, this`remaining, this`closed, this`pieces
      ensures Core() && (final ==> Valid())
      ensures filled == 0 && pieces == old(pieces) + [old(plain[..filled])] && closed == final
    {
      hide Split, FramesFrom, OpenEnded, ChunkNonce, Flatten, Explained;
      ghost var piece := plain[..filled];
      FlushLemmas(piece, final);
      pieces := pieces + [piece];
      remaining := remaining - |frame|;
      filled := 0;
      index := index + 1;
      closed := final;
    }

    /** What a frame about to go out must fit to. */
    ghost predicate Sealing()
      requires filled <= plain.Length
      reads this, plain
    {
      && (forall n, a, p :: |aead.seal(n, a, p)| == |p| + TAG_BYTES)
      && (!late ==> Explained(calls, pieces, plain[..filled], true))
      && accepted == Flatten(pieces) + plain[..filled]
      && (forall i :: 0 <= i < |pieces| ==> |pieces[i]| == chunk)
      && (pieces != [] ==> filled > 0)
    }

    lemma FlushLemmas(piece: seq<byte>, final: bool)
      requires |piece| <= chunk && (pieces != [] ==> piece != [])
      requires forall i :: 0 <= i < |pieces| ==> |pieces[i]| == chunk
      ensures Flatten(pieces + [piece]) == Flatten(pieces) + piece
      ensures FramesFrom(aead, associated, prefix, pieces + [piece], 0)
           == OpenEnded(aead, associated, prefix, pieces)
               + aead.seal(ChunkNonce(prefix, |pieces|, true), associated, piece)
      ensures OpenEnded(aead, associated, prefix, pieces + [piece])
           == OpenEnded(aead, associated, prefix, pieces)
               + aead.seal(ChunkNonce(prefix, |pieces|, false), associated, piece)
      ensures Split(Flatten(pieces) + piece, chunk) == pieces + [piece]
      ensures Explained(calls, pieces, piece, true) ==> Explained(calls, pieces + [piece], [], false)
    {
      assert (pieces + [piece])[..|pieces|] == pieces;
      FlattenSnoc(pieces, piece);
      Finish(aead, associated, prefix, pieces, piece);
      SplitUnique(pieces, piece, chunk);
      if Explained(calls, pieces, piece, true) {
        FlushStaysExplained(calls, pieces, piece);
      }
    }

    /** What has been accepted does not fit the budget once it is sealed. */
    ghost predicate TooLong()
      reads this
    {
      SealedLength(accepted, chunk) > budget
    }

    lemma BufferTooLong()
      requires Core() && !closed && (filled == 0 ==> pieces == []) && filled + TAG_BYTES > remaining
      ensures TooLong()
    {
      SplitUnique(pieces, plain[..filled], chunk);
    }

    /** Take in plaintext. Exactly the first `consumed` bytes were taken, whatever happened. */
    method Write(content: seq<byte>) returns (consumed: nat, fault: Fault)
      requires Valid()
      modifies this`filled, this`index, this`remaining, this`closed, this`accepted, this`pieces, this`intact,
          this`calls, this`late, plain, out
      ensures Valid() && closed == old(closed)
      ensures consumed <= |content| && accepted == old(accepted) + content[..consumed]
      ensures fault == AfterFinal <==> old(closed)
      ensures fault == Nil ==> consumed == |content|
      ensures fault == SizeLimit ==> TooLong()
      ensures fault in {Nil, SizeLimit, WriteFailed, Cancelled, AfterFinal}
      ensures intact == (old(intact) && fault != WriteFailed)
      ensures late == (old(late) || (closing && !closed && content != []))
      ensures old(calls) <= calls
      ensures (!closed && old(filled) + |content| <= plain.Length ==>
                 fault == Nil && filled == old(filled) + |content| && index == old(index) && calls == old(calls))
    {
      hide Split, FramesFrom, OpenEnded, ChunkNonce, Flatten, Explained, ChunkSealer.Valid, ChunkSealer.TooLong;
      if closed {
        return 0, AfterFinal;
      }
      consumed := 0;
      NoteLate(closing && content != []);
      var rest := content;
      while rest != []
        invariant consumed <= |content| && rest == content[consumed..]
        invariant Valid() && !closed && accepted == old(accepted) + content[..consumed]
        invariant intact == old(intact) && old(calls) <= calls
        invariant late == (old(late) || (closing && content != []))
        invariant (old(filled) + |content| <= plain.Length ==>
                     filled == old(filled) + consumed && index == old(index) && calls == old(calls))
        decreases |rest|
      {
        var n;
        n, fault := TakeSome(rest);
        if fault != Nil {
          return consumed, fault;
        }
        TakenTogether(content, consumed, n);
        consumed := consumed + n;
        rest := rest[n..];
      }
      return consumed, Nil;
    }

    ghost method NoteLate(now: bool)
      requires Valid()
      modifies this`late
      ensures Valid() && late == (old(late) || now)
    {
      late := late || now;
    }

    /** One turn of Write's loop: make room if there is none, then copy what fits. */
    method TakeSome(rest: seq<byte>) returns (n: nat, fault: Fault)
      requires Valid() && !closed && rest != [] && (closing ==> late)
      modifies this`filled, this`index, this`remaining, this`closed, this`accepted, this`pieces, this`intact,
          this`calls, plain, out
      ensures Valid() && !closed && n <= |rest| && accepted == old(accepted) + rest[..n]
      ensures if fault == Nil then n > 0 else n == 0
      ensures fault in {Nil, SizeLimit, WriteFailed, Cancelled}
      ensures fault == SizeLimit ==> TooLong()
      ensures intact == (old(intact) && fault != WriteFailed)
      ensures old(calls) <= calls
      ensures (old(filled) < plain.Length ==>
                 fault == Nil && n == Min(plain.Length - old(filled), |rest|) && filled == old(filled) + n
                 && index == old(index) && calls == old(calls))
    {
      hide Split, FramesFrom, OpenEnded, ChunkNonce, Flatten, Explained;
      if filled == plain.Length {
        fault := Flush(false);
        if fault == SizeLimit {
          BufferTooLong();
        }
        if fault != Nil {
          return 0, fault;
        }
      }
      n := Min(plain.Length - filled, |rest|);
      Append(rest[..n]);
      return n, Nil;
    }

    method Append(bytes: seq<byte>)
      requires Core() && !closed && bytes != [] && |bytes| <= plain.Length - filled
      requires filled > 0 ==> Valid()
      requires closing ==> late
      modifies this`filled, this`accepted, plain
      ensures Valid() && accepted == old(accepted) + bytes && filled == old(filled) + |bytes|
    {
      hide Split, FramesFrom, OpenEnded, ChunkNonce, Flatten, Explained;
      forall k | 0 <= k < |bytes| {
        plain[filled + k] := bytes[k];
      }
      ghost var before := old(plain[..filled]);
      filled := filled + |bytes|;
      accepted := accepted + bytes;
      assert plain[..filled] == before + bytes;
      if !late {
        OfferStaysExplained(calls, pieces, before, plain[..filled], Offered());
      }
    }

    /** Seal what remains under the final marker. Closing a closed sealer does nothing. */
    method Close() returns (fault: Fault)
      requires Valid()
      modifies this`filled, this`index, this`remaining, this`closed, this`pieces, this`intact, this`calls, this`closing,
          out
      ensures Valid() && accepted == old(accepted) && closing
      ensures fault == Nil <==> closed
      ensures fault in {Nil, SizeLimit, WriteFailed, Cancelled}
      ensures fault == SizeLimit ==> TooLong()
      ensures old(closed) ==> out.content == old(out.content) && calls == old(calls)
      ensures !old(closed) ==> calls == old(calls) + Attempts(fault, SealCall(old(index), true, old(plain[..filled])))
      ensures fault != Nil ==> filled == old(filled) && index == old(index) && pieces == old(pieces)
      ensures intact == (old(intact) && fault != WriteFailed)
      ensures old(calls) <= calls
    {
      if closed {
        return Nil;
      }
      closing := true;
      fault := Flush(true);
      if fault == SizeLimit {
        BufferTooLong();
      }
    }

    /** Before the first frame the buffer holds everything accepted. */
    lemma NothingWrittenYet()
      requires Valid() && !closed && index == 0
      ensures plain[..filled] == accepted
    {
      assert pieces == [];
    }

    /** What the sealer guarantees at any time about its frames, its budget and its nonces. */
    lemma Guarantees()
      requires Valid()
      ensures index * TAG_BYTES <= budget && 0 <= remaining <= budget
      ensures intact ==> out.content == base + Written() && remaining + |Written()| == budget
      ensures intact && closed ==> out.content == base + FramesFrom(aead, associated, prefix, Split(accepted, chunk), 0)
      ensures closed ==> SealedLength(accepted, chunk) + remaining == budget
      ensures !late && budget < TWO_TO_64 ==> NonceBindsPlaintext(prefix, calls)
    {
      WrittenLength();
      SplitShape(accepted, chunk);
      if !late && budget < TWO_TO_64 {
        ExplainedBinds(prefix, calls, pieces, plain[..filled], Offered());
      }
    }

    lemma WrittenLength()
      requires Valid()
      ensures |Written()| == |Flatten(pieces)| + TAG_BYTES * |pieces|
    {
      if closed {
        FramesLength(aead, associated, prefix, pieces, 0);
        assert pieces[0..] == pieces;
      } else {
        OpenEndedLength(aead, associated, prefix, pieces);
      }
    }
  }

  /** Why nothing may be written after a failed Close: here it fails for want of room, and the sealer then
      uses the nonce of the final frame for a second plaintext. */
  method WriteAfterFailedClose(out: Writer, aead: Aead, prefix: Prefix, associated: seq<byte>, first: byte,
      second: byte)
    returns (interrupted: bool, ghost calls: seq<SealCall>)
    requires forall n, a, p :: |aead.seal(n, a, p)| == |p| + TAG_BYTES
    modifies out
    ensures !interrupted ==> calls == [SealCall(0, true, [first]), SealCall(0, true, [first] + [second])]
    ensures !interrupted ==> !NonceBindsPlaintext(prefix, calls)
  {
    hide Split, FramesFrom, OpenEnded, ChunkNonce, Flatten, Explained, NonceBindsPlaintext;
    var sealer := new ChunkSealer(out, aead, prefix, associated, MIN_CHUNK, TAG_BYTES);
    var n, fault := sealer.Write([first]);
    assert sealer.accepted == [first];
    sealer.NothingWrittenYet();
    fault := sealer.Close();
    sealer.Guarantees();
    assert !sealer.closed;
    interrupted := fault == Cancelled;
    n, fault := sealer.Write([second]);
    assert sealer.accepted == [first] + [second];
    sealer.NothingWrittenYet();
    fault := sealer.Close();
    interrupted := interrupted || fault == Cancelled;
    calls := sealer.calls;
    LongerFrameReusesTheNonce(prefix, 0, true, [first], [second]);
  }

  lemma TakenTogether(content: seq<byte>, consumed: nat, n: nat)
    requires consumed + n <= |content|
    ensures content[..consumed] + content[consumed..][..n] == content[..consumed + n]
    ensures content[consumed..][n..] == content[consumed + n..]
  {
  }

  // ----- opening

  /** How a run of the opener ended: with a decision about the archive, or on a fault around it. */
  datatype Verdict = BadChunkSize | Decided(outcome: Outcome) | Faulted(fault: Fault)

  /** Decrypt a framed body, one frame in memory at a time. The decisions are those of OpenBody; a
      fault interrupts them, and then what was written is still a prefix of what would have been. */
  method OpenChunkStream(source: Reader, destination: Writer, aead: Aead, prefix: Prefix, associated: seq<byte>,
      chunkSize: nat, max: int)
    returns (total: nat, verdict: Verdict, ghost written: seq<byte>)
    requires source.Valid()
    modifies source, destination
    ensures source.Valid()
    ensures verdict.BadChunkSize? <==> !(MIN_CHUNK <= chunkSize <= MAX_CHUNK)
    ensures destination.content == old(destination.content) + written && total <= |written|
    ensures verdict.BadChunkSize? ==> written == []
    ensures MIN_CHUNK <= chunkSize <= MAX_CHUNK ==>
              var r := OpenBody(aead, prefix, associated, chunkSize, old(source.Rest()), max);
              && written <= r.plain
              && (verdict.Decided? ==> verdict.outcome == r.outcome && written == r.plain && total == |r.plain|)
  {
    hide ChunkNonce, OpenFrames;
    if chunkSize < MIN_CHUNK || chunkSize > MAX_CHUNK {
      return 0, BadChunkSize, [];
    }
    var chunk: ChunkSize := chunkSize;
    var index := 0;
    total := 0;
    ghost var all := OpenBody(aead, prefix, associated, chunk, source.Rest(), max);
    written := [];
    ghost var rest := OpenFrames(aead, prefix, associated, chunk, source.Rest(), 0, max);
    while true
      invariant source.Valid() && total == |written|
      invariant destination.content == old(destination.content) + written
      invariant rest == OpenFrames(aead, prefix, associated, chunk, source.Rest(), index, max - total)
      invariant all.outcome == rest.outcome && all.plain == written + rest.plain
      decreases |source.Rest()|
    {
      var end, count;
      ghost var stored;
      end, count, stored := OpenFrame(source, destination, aead, prefix, associated, chunk, index, max - total);
      total := total + count;
      written := written + stored;
      if end.Some? {
        return total, end.value, written;
      }
      index := index + 1;
      rest := OpenFrames(aead, prefix, associated, chunk, source.Rest(), index, max - total);
    }
  }

  /** One frame: read it, open it, and write out its plaintext of `count` bytes if it goes through. */
  method OpenFrame(source: Reader, destination: Writer, aead: Aead, prefix: Prefix, associated: seq<byte>,
      chunk: ChunkSize, index: nat, room: int)
    returns (end: Option<Verdict>, count: nat, ghost stored: seq<byte>)
    requires source.Valid()
    modifies source, destination
    ensures source.Valid() && destination.content == old(destination.content) + stored && count <= |stored|
    ensures var r := OpenFrames(aead, prefix, associated, chunk, old(source.Rest()), index, room);
            match end
            case None =>
              var rest := OpenFrames(aead, prefix, associated, chunk, source.Rest(), index + 1, room - count);
              && |source.Rest()| < |old(source.Rest())| && count == |stored|
              && r.outcome == rest.outcome && r.plain == stored + rest.plain
            case Some(verdict) =>
              && !verdict.BadChunkSize?
              && stored <= r.plain
              && (verdict.Decided? ==> verdict.outcome == r.outcome && stored == r.plain && count == |stored|)
  {
    hide ChunkNonce, OpenFrames, Decide;
    count, stored := 0, [];
    var cancelled: bool := *;
    if cancelled {
      return Some(Faulted(Cancelled)), 0, [];
    }
    ghost var body := source.Rest();
    var frame, final, broken := NextFrame(source, chunk);
    if broken {
      return Some(Faulted(ReadFailed)), 0, [];
    }
    if frame == [] {
      NothingLeft(aead, prefix, associated, chunk, index, room);
      return Some(Decided(NoFinalFrame)), 0, [];
    }
    var plain := aead.open(ChunkNonce(prefix, index, final), associated, frame);
    ghost var after := OpenFrames(aead, prefix, associated, chunk, source.Rest(), index + 1, RoomAfter(room, plain));
    NextDecision(aead, prefix, associated, chunk, body, index, room, frame);
    DecideAll(frame, plain, final, room, after);
    if |frame| < TAG_BYTES {
      return Some(Decided(TruncatedFrame)), 0, [];
    }
    if plain.None? {
      return Some(Decided(NotAuthentic)), 0, [];
    }
    if |plain.value| > room {
      return Some(Decided(TooLarge)), 0, [];
    }
    var ok;
    stored, ok := WritePlain(destination, plain.value);
    if !ok {
      return Some(Faulted(WriteFailed)), 0, stored;
    }
    count := |plain.value|;
    end := if final then Some(Decided(Opened)) else None;
  }

  /** Write out the plaintext of a frame, if there is any. */
  method WritePlain(destination: Writer, plain: seq<byte>) returns (ghost stored: seq<byte>, ok: bool)
    modifies destination
    ensures stored <= plain && destination.content == old(destination.content) + stored
    ensures ok ==> stored == plain
  {
    stored, ok := [], true;
    if plain != [] {
      var n;
      n, ok := destination.Write(plain);
      stored := plain[..n];
    }
  }

  /** Read one frame and peek behind it: the frame is final when nothing follows. */
  method NextFrame(source: Reader, chunk: ChunkSize) returns (frame: seq<byte>, final: bool, broken: bool)
    requires source.Valid()
    modifies source
    ensures source.Valid()
    ensures !broken ==>
              var body := old(source.Rest());
              && frame == body[..Min(|body|, chunk + TAG_BYTES)] && source.Rest() == body[|frame|..]
              && final == (|body| <= chunk + TAG_BYTES)
  {
    frame, broken := source.ReadFull(chunk + TAG_BYTES);
    final := |frame| < chunk + TAG_BYTES;
    if !broken && !final {
      final, broken := source.AtEnd();
    }
  }
}
