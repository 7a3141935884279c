/** Export end to end: the counting writer, the sealed stream around it, and the agreement of its limits
    with the checks of restore (internal/backup/export.go, crypto.go, decode.go). */
module Export {
  import opened Bytes
  import opened Framing
  import opened Streams
  import opened Sealer
  import opened Envelope

  /** How writing the payload may fail. */
  predicate Expected(fault: Fault) {
    !fault.AfterFinal? && !fault.Rejected?
  }

  /** Stops the export as soon as the payload would exceed its budget. */
  class CountingWriter {
    const inner: ChunkSealer
    var remaining: int

    constructor (inner: ChunkSealer, budget: int)
      ensures this.inner == inner && remaining == budget
    {
      this.inner, this.remaining := inner, budget;
    }

    method Write(content: seq<byte>) returns (n: nat, fault: Fault)
      requires inner.Valid() && !inner.closed && !inner.closing
      modifies this, inner, inner.plain, inner.out
      ensures inner.Valid() && !inner.closed && !inner.closing && inner.late == old(inner.late)
      ensures n <= |content| && inner.accepted == old(inner.accepted) + content[..n]
      ensures remaining == old(remaining) - n && (old(remaining) >= 0 ==> remaining >= 0)
      ensures fault == Nil ==> n == |content|
      ensures |content| > old(remaining) ==> fault == SizeLimit && n == 0
      ensures fault == SizeLimit ==> |content| > old(remaining) || inner.TooLong()
      ensures Expected(fault)
      ensures inner.intact == (old(inner.intact) && fault != WriteFailed)
    {
      if |content| > remaining {
        return 0, SizeLimit;
      }
      n, fault := inner.Write(content);
      remaining := remaining - n;
    }
  }

  // ----- the payload

  /** What the archive writer puts out: bytes of its own (entry headers, the directory), and members copied
      from a source. `expected` is the content the manifest declares by size and digest. */
  datatype Part =
    | Own(bytes: seq<byte>)
    | Member(data: seq<byte>, expected: seq<byte>, max: int)

  function PartBytes(part: Part): seq<byte> {
    if part.Own? then part.bytes else part.data
  }

  /** The whole payload, if every source is read to its end. */
  function PayloadOf(parts: seq<Part>): seq<byte> {
    if parts == [] then [] else PayloadOf(parts[..|parts| - 1]) + PartBytes(parts[|parts| - 1])
  }

  predicate Declared(part: Part) {
    part.Member? ==> part.data == part.expected && |part.data| <= part.max
  }

  predicate TooLarge(part: Part) {
    part.Member? && |part.data| > part.max
  }

  /** One part, copied through the bounded copy where it has a source. */
  method Produce(part: Part) returns (bytes: seq<byte>, fault: Fault)
    ensures bytes <= PartBytes(part)
    ensures fault == Nil ==> bytes == PartBytes(part) && Declared(part)
    ensures fault == SizeLimit ==> TooLarge(part)
    ensures Expected(fault)
  {
    match part
    case Own(own) =>
      var cancelled: bool := *;
      return if cancelled then [] else own, if cancelled then Cancelled else Nil;
    case Member(data, expected, max) =>
      var stalls: nat := *;
      var source := new Reader(data, stalls);
      var entry := new Writer();
      var size;
      ghost var trouble;
      size, fault, trouble := WriteContext(entry, source, max);
      assert data[..|data|] == data;
      if fault == Nil && entry.content != expected {
        fault := Changed;
      }
      bytes := entry.content;
  }

  /** Hand on bytes in pieces of any size; without `all`, some may stay behind in the buffer. */
  method Drain(counter: CountingWriter, pending: seq<byte>, all: bool) returns (left: seq<byte>, fault: Fault)
    requires counter.inner.Valid() && !counter.inner.closed && !counter.inner.closing && counter.remaining >= 0
    modifies counter, counter.inner, counter.inner.plain, counter.inner.out
    ensures counter.inner.Valid() && !counter.inner.closed && !counter.inner.closing
    ensures counter.inner.late == old(counter.inner.late)
    ensures counter.remaining + |counter.inner.accepted| == old(counter.remaining) + |old(counter.inner.accepted)|
    ensures counter.remaining >= 0 && |counter.inner.accepted| <= |old(counter.inner.accepted)| + |pending|
    ensures fault == Nil ==> counter.inner.accepted + left == old(counter.inner.accepted) + pending
    ensures fault == Nil ==> counter.inner.intact == old(counter.inner.intact) && (all ==> left == [])
    ensures (fault == SizeLimit ==>
               || |old(counter.inner.accepted)| + |pending| > old(counter.remaining) + |old(counter.inner.accepted)|
               || counter.inner.TooLong())
    ensures Expected(fault)
  {
    hide ChunkSealer.Valid, ChunkSealer.TooLong;
    left, fault := pending, Nil;
    while left != [] && fault == Nil
      invariant counter.inner.Valid() && !counter.inner.closed && !counter.inner.closing
      invariant counter.inner.late == old(counter.inner.late)
      invariant counter.remaining + |counter.inner.accepted| == old(counter.remaining) + |old(counter.inner.accepted)|
      invariant counter.remaining >= 0 && |counter.inner.accepted| + |left| <= |old(counter.inner.accepted)| + |pending|
      invariant fault == Nil ==> counter.inner.accepted + left == old(counter.inner.accepted) + pending
      invariant fault == Nil ==> counter.inner.intact == old(counter.inner.intact)
      invariant (fault == SizeLimit ==>
                   || |old(counter.inner.accepted)| + |pending| > old(counter.remaining) + |old(counter.inner.accepted)|
                   || counter.inner.TooLong())
      invariant Expected(fault)
      decreases |left|
    {
      var stop: bool := *;
      if stop && !all {
        return;
      }
      var n: nat :| 0 < n <= |left|;
      ghost var before := counter.inner.accepted;
      var m;
      m, fault := counter.Write(left[..n]);
      assert fault == Nil ==> left[..n][..m] == left[..n];
      assert left == left[..n] + left[n..];
      Associative(before, left[..n], left[n..]);
      left := left[n..];
    }
  }

  /** What holds of the export at any time: the sealer is usable, and what it took in is within the limit. */
  ghost predicate Running(counter: CountingWriter, limit: int, late: bool)
    reads counter, counter.inner, counter.inner.plain, counter.inner.out
  {
    && counter.inner.Valid() && !counter.inner.closed && !counter.inner.closing && counter.inner.late == late
    && counter.remaining >= 0 && counter.remaining + |counter.inner.accepted| == limit
  }

  /** The first `i` parts have been put, and all but `pending` of them has been handed on. */
  ghost predicate Underway(counter: CountingWriter, limit: int, late: bool, pending: seq<byte>, parts: seq<Part>,
      i: nat)
    requires i <= |parts|
    reads counter, counter.inner, counter.inner.plain, counter.inner.out
  {
    && Running(counter, limit, late) && counter.inner.intact
    && counter.inner.accepted + pending == PayloadOf(parts[..i])
    && forall k :: 0 <= k < i ==> Declared(parts[k])
  }

  /** Put one part behind what waits in the buffer, and hand on some of it. */
  method WritePart(counter: CountingWriter, pending: seq<byte>, parts: seq<Part>, i: nat, ghost limit: int)
    returns (left: seq<byte>, fault: Fault)
    requires i < |parts| && Underway(counter, limit, counter.inner.late, pending, parts, i)
    modifies counter, counter.inner, counter.inner.plain, counter.inner.out
    ensures Running(counter, limit, old(counter.inner.late))
    ensures fault == Nil ==> Underway(counter, limit, old(counter.inner.late), left, parts, i + 1)
    ensures fault == SizeLimit ==> TooMuch(parts, limit, counter.inner.budget, counter.inner.chunk)
    ensures Expected(fault)
  {
    hide PayloadOf, ChunkSealer.Valid, ChunkSealer.TooLong, Declared, TooMuch;
    var bytes;
    bytes, fault := Produce(parts[i]);
    left := pending + bytes;
    if fault == SizeLimit {
      LargePartIsTooMuch(parts, i, limit, counter.inner.budget, counter.inner.chunk);
    }
    if fault == Nil {
      PayloadSnoc(parts, i);
      ghost var before := counter.inner.accepted;
      Associative(before, pending, bytes);
      left, fault := Drain(counter, left, false);
      if fault == SizeLimit {
        SoFarIsTooMuch(parts, i + 1, before, pending + bytes, counter, limit);
      }
    }
  }

  /** The payload producer: members and the archive writer's own bytes go through its buffer to the counting
      writer, in pieces of any size. After a failure it still closes the archive writer, which may put out
      more, and then reports the first failure. */
  method WritePayload(counter: CountingWriter, parts: seq<Part>) returns (fault: Fault)
    requires Running(counter, counter.remaining, counter.inner.late) && counter.inner.intact
    modifies counter, counter.inner, counter.inner.plain, counter.inner.out
    ensures Running(counter, old(counter.remaining), old(counter.inner.late))
    ensures fault == Nil ==> counter.inner.accepted == PayloadOf(parts) && counter.inner.intact
    ensures fault == Nil ==> forall i :: 0 <= i < |parts| ==> Declared(parts[i])
    ensures fault == SizeLimit ==> TooMuch(parts, old(counter.remaining), counter.inner.budget, counter.inner.chunk)
    ensures Expected(fault)
  {
    NothingPutYet(counter, parts);
    hide Running, Underway, PayloadOf, Declared, TooMuch;
    var pending: seq<byte> := [];
    var i := 0;
    while i < |parts|
      invariant i <= |parts| && counter.inner.late == old(counter.inner.late)
      invariant Underway(counter, old(counter.remaining), old(counter.inner.late), pending, parts, i)
    {
      pending, fault := WritePart(counter, pending, parts, i, old(counter.remaining));
      if fault != Nil {
        GiveUp(counter, old(counter.remaining));
        return;
      }
      KeepsLate(counter, old(counter.remaining), old(counter.inner.late));
      i := i + 1;
    }
    fault := CloseWriter(counter, pending, parts, old(counter.remaining));
  }

  lemma NothingPutYet(counter: CountingWriter, parts: seq<Part>)
    requires Running(counter, counter.remaining, counter.inner.late) && counter.inner.intact
    ensures Underway(counter, counter.remaining, counter.inner.late, [], parts, 0)
  {
    assert PayloadOf(parts[..0]) == [] && counter.inner.accepted == [];
  }

  lemma KeepsLate(counter: CountingWriter, limit: int, late: bool)
    requires Running(counter, limit, late)
    ensures counter.inner.late == late
  {
  }

  /** Close the archive writer after a failure. */
  method GiveUp(counter: CountingWriter, ghost limit: int)
    requires Running(counter, limit, counter.inner.late)
    modifies counter, counter.inner, counter.inner.plain, counter.inner.out
    ensures Running(counter, limit, old(counter.inner.late))
  {
    hide ChunkSealer.Valid, ChunkSealer.TooLong;
    var more: seq<byte> := *;
    var _, _ := Drain(counter, more, true);
  }

  /** Hand on all that waits when everything has been put. */
  method CloseWriter(counter: CountingWriter, pending: seq<byte>, parts: seq<Part>, ghost limit: int)
      returns (fault: Fault)
    requires Underway(counter, limit, counter.inner.late, pending, parts, |parts|)
    modifies counter, counter.inner, counter.inner.plain, counter.inner.out
    ensures Running(counter, limit, old(counter.inner.late))
    ensures fault == Nil ==> counter.inner.accepted == PayloadOf(parts) && counter.inner.intact
    ensures fault == Nil ==> forall i :: 0 <= i < |parts| ==> Declared(parts[i])
    ensures fault == SizeLimit ==> TooMuch(parts, limit, counter.inner.budget, counter.inner.chunk)
    ensures Expected(fault)
  {
    hide PayloadOf, ChunkSealer.Valid, ChunkSealer.TooLong, TooMuch, Declared;
    ghost var before := counter.inner.accepted;
    assert parts[..|parts|] == parts;
    var left;
    left, fault := Drain(counter, pending, true);
    if fault == SizeLimit {
      SoFarIsTooMuch(parts, |parts|, before, pending, counter, limit);
    }
  }

  /** A payload that breaks one of the two limits. */
  ghost predicate Refused(plainLimit: int, sealedLimit: int, chunk: ChunkSize, payload: seq<byte>) {
    |payload| > plainLimit || SealedLength(payload, chunk) > sealedLimit
  }

  /** Why an export may be refused for its size: a member exceeds its own limit, or the payload one of both. */
  ghost predicate TooMuch(parts: seq<Part>, plainLimit: int, sealedLimit: int, chunk: ChunkSize) {
    || (exists i :: 0 <= i < |parts| && TooLarge(parts[i]))
    || Refused(plainLimit, sealedLimit, chunk, PayloadOf(parts))
  }

  lemma LargePartIsTooMuch(parts: seq<Part>, i: nat, plainLimit: int, sealedLimit: int, chunk: ChunkSize)
    requires i < |parts| && TooLarge(parts[i])
    ensures TooMuch(parts, plainLimit, sealedLimit, chunk)
  {
  }

  lemma PayloadSnoc(parts: seq<Part>, i: nat)
    requires i < |parts|
    ensures PayloadOf(parts[..i + 1]) == PayloadOf(parts[..i]) + PartBytes(parts[i])
  {
    assert parts[..i + 1][..i] == parts[..i];
  }

  lemma {:induction false} PayloadGrows(parts: seq<Part>, i: nat)
    requires i <= |parts|
    ensures |PayloadOf(parts[..i])| <= |PayloadOf(parts)|
    decreases |parts| - i
  {
    if i < |parts| {
      PayloadSnoc(parts, i);
      PayloadGrows(parts, i + 1);
    } else {
      assert parts[..i] == parts;
    }
  }

  /** When what was produced so far is too much, so is the whole payload. */
  lemma SoFarIsTooMuch(parts: seq<Part>, i: nat, before: seq<byte>, waiting: seq<byte>, counter: CountingWriter,
      limit: int)
    requires i <= |parts| && before + waiting == PayloadOf(parts[..i])
    requires |before| + |waiting| > limit
            || (counter.inner.TooLong() && |counter.inner.accepted| <= |before| + |waiting|)
    ensures TooMuch(parts, limit, counter.inner.budget, counter.inner.chunk)
  {
    PayloadGrows(parts, i);
    assert |before + waiting| == |before| + |waiting|;
    if |before| + |waiting| <= limit {
      LongerCostsMore(counter.inner.accepted, PayloadOf(parts), counter.inner.chunk);
    }
  }

  /** Export's header for a given salt and nonce. */
  function ExportHeader(n: int, r: int, p: int, salt: seq<byte>, nonce: seq<byte>): Header {
    Header(FORMAT, VERSION_CHUNKED, CIPHER, KDF, n, r, p, Some(salt), Some(nonce), 0, 0, FRAMING_STREAM, EXPORT_CHUNK)
  }

  function Associated(codec: Codec, header: Header): seq<byte> {
    MAGIC + codec.encode(header)
  }

  /** What a finished export holds. */
  function Exported(nonce: seq<byte>, plain: Payload): Archive
    requires |nonce| == NONCE_BYTES
  {
    Archive(nonce[..PREFIX_BYTES], EXPORT_CHUNK, plain)
  }

  function ExportedFile(codec: Codec, aead: Aead, header: Header, archive: Archive): seq<byte> {
    ArchiveFile(codec.encode(header), Body(aead, Associated(codec, header), archive))
  }

  /** Write a complete archive. Success means the output grew by exactly the archive of the payload,
      within both limits; in every case each nonce was used for one plaintext only. */
  method EncryptPayloadStream(out: Writer, codec: Codec, aead: Aead, n: int, r: int, p: int, salt: seq<byte>,
      nonce: seq<byte>, limits: Limits, parts: seq<Part>)
    returns (fault: Fault, ghost calls: seq<SealCall>)
    requires limits.Valid() && |nonce| == NONCE_BYTES
    requires forall n, a, p :: |aead.seal(n, a, p)| == |p| + TAG_BYTES
    modifies out
    ensures fault == Nil ==> KdfOk(n, r, p, |salt|) && forall i :: 0 <= i < |parts| ==> Declared(parts[i])
    ensures fault == Nil ==>
              var header := ExportHeader(n, r, p, salt, nonce);
              var plain := PayloadOf(parts);
              && |codec.encode(header)| <= MAX_HEADER_BYTES
              && |plain| <= limits.maxPlaintextBytes
              && var file := ExportedFile(codec, aead, header, Exported(nonce, plain));
              && out.content == old(out.content) + file && |file| <= limits.maxArchiveBytes
    ensures NonceBindsPlaintext(nonce[..PREFIX_BYTES], calls)
    ensures fault == Rejected <==> !KdfOk(n, r, p, |salt|)
    ensures fault == SizeLimit ==>
              var header := ExportHeader(n, r, p, salt, nonce);
              var plain := PayloadOf(parts);
              || |codec.encode(header)| > MAX_HEADER_BYTES
              || (exists i :: 0 <= i < |parts| && TooLarge(parts[i]))
              || |plain| > limits.maxPlaintextBytes
              || 12 + |codec.encode(header)| + SealedLength(plain, EXPORT_CHUNK) > limits.maxArchiveBytes
  {
    hide Split, FramesFrom, OpenEnded, Flatten, ChunkNonce, Explained, BigEndian, PowerOfTwo;
    calls := [];
    if !KdfOk(n, r, p, |salt|) {
      return Rejected, calls;
    }
    var header := ExportHeader(n, r, p, salt, nonce);
    var headerBytes := codec.encode(header);
    if |headerBytes| > MAX_HEADER_BYTES {
      return SizeLimit, calls;
    }
    var prefix := |MAGIC| + 4 + |headerBytes|;
    if prefix >= limits.maxArchiveBytes {
      return SizeLimit, calls;
    }
    var prologue := WritePrologue(out, headerBytes);
    if !prologue {
      return WriteFailed, calls;
    }
    fault, calls := SealPayload(out, aead, nonce[..PREFIX_BYTES], Associated(codec, header),
        limits.maxArchiveBytes - prefix, limits.maxPlaintextBytes, parts);
    if fault == Nil {
      ExportedFileLength(codec, aead, header, Exported(nonce, PayloadOf(parts)));
      var cancelled: bool := *;
      if cancelled {
        fault := Cancelled;
      }
    }
  }

  /** The body of an archive: the payload through the counting writer and the sealer. */
  method SealPayload(out: Writer, aead: Aead, prefix: Prefix, associated: seq<byte>, budget: nat, max: nat,
      parts: seq<Part>)
    returns (fault: Fault, ghost calls: seq<SealCall>)
    requires forall n, a, p :: |aead.seal(n, a, p)| == |p| + TAG_BYTES
    requires budget < TWO_TO_64
    modifies out
    ensures fault == Nil ==> forall i :: 0 <= i < |parts| ==> Declared(parts[i])
    ensures fault == Nil ==>
              var plain := PayloadOf(parts);
              && |plain| <= max && SealedLength(plain, EXPORT_CHUNK) <= budget
              && out.content == old(out.content) + FramesFrom(aead, associated, prefix, Split(plain, EXPORT_CHUNK), 0)
    ensures fault == SizeLimit ==> TooMuch(parts, max, budget, EXPORT_CHUNK)
    ensures Expected(fault)
    ensures NonceBindsPlaintext(prefix, calls)
  {
    hide FramesFrom, OpenEnded, Flatten, ChunkNonce, Explained, Split;
    var sealer := new ChunkSealer(out, aead, prefix, associated, EXPORT_CHUNK, budget);
    var counter := new CountingWriter(sealer, max);
    fault := WritePayload(counter, parts);
    if fault == Nil {
      fault := sealer.Close();
    }
    sealer.Guarantees();
    calls := sealer.calls;
  }

  method WritePrologue(out: Writer, headerBytes: seq<byte>) returns (ok: bool)
    modifies out
    ensures ok ==> out.content == old(out.content) + (MAGIC + BigEndian(|headerBytes|, 4) + headerBytes)
  {
    var start := [MAGIC, BigEndian(|headerBytes|, 4), headerBytes];
    var n;
    n, ok := out.Write(start[0]);
    if ok {
      assert start[0][..n] == start[0];
      n, ok := out.Write(start[1]);
    }
    if ok {
      assert start[1][..n] == start[1];
      n, ok := out.Write(start[2]);
    }
    assert ok ==> start[2][..n] == start[2];
  }

  /** An archive that export finished under some limits passes every check restore makes under the same
      limits, and gives back its payload. */
  lemma RestoreAcceptsExports(codec: Codec, aead: Aead, archives: map<seq<byte>, Archive>, n: int, r: int, p: int,
      salt: seq<byte>, nonce: seq<byte>, plain: Payload, limits: Limits)
    requires codec.Faithful() && limits.Valid() && |nonce| == NONCE_BYTES && KdfOk(n, r, p, |salt|)
    requires var header := ExportHeader(n, r, p, salt, nonce);
             && |codec.encode(header)| <= MAX_HEADER_BYTES && |plain| <= limits.maxPlaintextBytes
             && |ExportedFile(codec, aead, header, Exported(nonce, plain))| <= limits.maxArchiveBytes
             && Ideal(aead, archives)
             && Associated(codec, header) in archives && archives[Associated(codec, header)] == Exported(nonce, plain)
    ensures var header := ExportHeader(n, r, p, salt, nonce);
            var d := DecodeArchive(codec, aead, ExportedFile(codec, aead, header, Exported(nonce, plain)), limits);
            d.Streamed? && d.result.outcome == Opened && d.result.plain == plain
  {
    hide Ideal, Split, OpenFrames, FramesFrom, ChunkNonce;
    var header := ExportHeader(n, r, p, salt, nonce);
    var archive := Exported(nonce, plain);
    var ad := Associated(codec, header);
    var body := Body(aead, ad, archive);
    ReadsWhatWasWritten(codec, header, body);
    IdealBodyLength(aead, archives, ad, archive);
    OpensExactlyTheSealedBody(aead, archives, archive.prefix, ad, archive.chunk, body, limits.maxPlaintextBytes);
  }

  lemma IdealBodyLength(aead: Aead, archives: map<seq<byte>, Archive>, ad: seq<byte>, archive: Archive)
    requires Ideal(aead, archives)
    ensures |Body(aead, ad, archive)| == |archive.plain| + TAG_BYTES * |Split(archive.plain, archive.chunk)|
  {
    BodyLength(aead, ad, archive);
  }

  /** A finished file is 12 bytes, the header, the payload, and one tag for each frame. */
  lemma ExportedFileLength(codec: Codec, aead: Aead, header: Header, archive: Archive)
    requires forall n, a, p :: |aead.seal(n, a, p)| == |p| + TAG_BYTES
    ensures |ExportedFile(codec, aead, header, archive)|
         == 12 + |codec.encode(header)| + SealedLength(archive.plain, archive.chunk)
    ensures SealedLength(archive.plain, archive.chunk)
         == |archive.plain| + TAG_BYTES * (if archive.plain == [] then 1
             else (|archive.plain| + archive.chunk - 1) / archive.chunk)
  {
    BodyLength(aead, Associated(codec, header), archive);
    FrameCount(archive.plain, archive.chunk);
  }
}
