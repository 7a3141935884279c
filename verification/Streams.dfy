/** The readers and writers the backup code talks to, and the bounded copy between them
    (internal/backup/fsio.go). Failures, short reads and short writes are chosen freely. */
module Streams {
  import opened Bytes

  /** Errors of the stream layer; Nil is success. */
  datatype Fault = Nil | Cancelled | SizeLimit | ReadFailed | WriteFailed | ShortWrite | AfterFinal | Rejected | Changed

  datatype ReadStatus = More | End | Broken

  /** An input with a position. `stalls` bounds how often it may return nothing without ending. */
  class Reader {
    const data: seq<byte>
    var pos: nat
    var stalls: nat

    ghost predicate Valid()
      reads this
    {
      pos <= |data|
    }

    ghost function Rest(): seq<byte>
      requires Valid()
      reads this
    {
      data[pos..]
    }

    constructor (data: seq<byte>, stalls: nat)
      ensures Valid() && Rest() == data && this.data == data
    {
      this.data := data;
      this.pos := 0;
      this.stalls := stalls;
    }

    /** One read of at most `limit` bytes, which may also report an end or a failure. */
    method Read(limit: nat) returns (bytes: seq<byte>, status: ReadStatus)
      requires Valid()
      modifies this
      ensures Valid() && |bytes| <= limit && old(Rest()) == bytes + Rest()
      ensures status == End ==> Rest() == []
      ensures stalls <= old(stalls)
      ensures status == More && bytes == [] ==> stalls < old(stalls)
    {
      var n: nat :| n <= limit && n <= |data| - pos;
      bytes := data[pos..pos + n];
      ghost var rest := Rest();
      pos := pos + n;
      assert rest == bytes + Rest();
      status := *;
      if status == End && pos < |data| {
        status := Broken;
      }
      if status == More && n == 0 {
        if stalls > 0 {
          stalls := stalls - 1;
        } else {
          status := if pos == |data| then End else Broken;
        }
      }
    }

    /** Fill a buffer of `limit` bytes, or everything that is left when that is less. */
    method ReadFull(limit: nat) returns (bytes: seq<byte>, broken: bool)
      requires Valid()
      modifies this
      ensures Valid() && stalls == old(stalls)
      ensures !broken ==> |bytes| == (if limit <= |old(Rest())| then limit else |old(Rest())|)
      ensures !broken ==> old(Rest()) == bytes + Rest()
    {
      ghost var rest := Rest();
      bytes := if limit <= |data| - pos then data[pos..pos + limit] else data[pos..];
      pos := pos + |bytes|;
      assert rest == bytes + Rest();
      broken := *;
    }

    /** Look whether anything follows. */
    method AtEnd() returns (end: bool, broken: bool)
      requires Valid()
      ensures !broken ==> end == (Rest() == [])
    {
      end := pos == |data|;
      broken := *;
    }
  }

  /** An output. A failed write may have stored any prefix of what it was given. */
  class Writer {
    var content: seq<byte>

    constructor ()
      ensures content == []
    {
      content := [];
    }

    method Write(bytes: seq<byte>) returns (n: nat, ok: bool)
      modifies this
      ensures n <= |bytes| && content == old(content) + bytes[..n]
      ensures ok ==> n == |bytes|
    {
      n, ok := WriteSome(bytes);
      ok := ok && n == |bytes|;
    }

    /** A writer that may store less than it was given and still report no error. */
    method WriteSome(bytes: seq<byte>) returns (n: nat, ok: bool)
      modifies this
      ensures n <= |bytes| && content == old(content) + bytes[..n]
    {
      n :| n <= |bytes|;
      ok := *;
      content := content + bytes[..n];
    }
  }

  const COPY_BUFFER_BYTES: nat := 32768

  /** Offer what is left of a buffer until all of it has been taken; `trouble` is a failed or an empty write. */
  method WriteBuffer(dst: Writer, buffer: seq<byte>) returns (written: nat, fault: Fault, ghost trouble: bool)
    modifies dst
    ensures written <= |buffer| && dst.content == old(dst.content) + buffer[..written]
    ensures if fault == Nil then written == |buffer| else fault == WriteFailed || fault == ShortWrite
    ensures fault == Nil <==> !trouble
  {
    written, trouble := 0, false;
    while written < |buffer|
      invariant written <= |buffer| && dst.content == old(dst.content) + buffer[..written] && !trouble
    {
      var count, ok := dst.WriteSome(buffer[written..]);
      assert buffer[..written] + buffer[written..][..count] == buffer[..written + count];
      written := written + count;
      trouble := !ok || count == 0;
      if !ok {
        return written, WriteFailed, trouble;
      }
      if count == 0 {
        return written, ShortWrite, trouble;
      }
    }
    fault := Nil;
  }

  lemma CopyStep(input: seq<byte>, start: nat, buffer: seq<byte>, rest: seq<byte>, written: nat)
    requires start <= |input| && input[start..] == buffer + rest && written <= |buffer|
    ensures start + |buffer| <= |input| && input[..start] + buffer[..written] == input[..start + written]
    ensures written == |buffer| ==> input[start + written..] == rest
  {
    assert input == input[..start] + (buffer + rest);
    assert buffer == input[start..start + |buffer|];
  }

  /** The bounded copy. Whatever happens, what arrived is the first `total` bytes of the input and at
      most `max` of them; success means all of the input arrived, and the size limit is reported only
      for an input that is longer than the limit. Without `trouble`, which is a cancellation, a broken read
      or a failed write, it succeeds if and only if the input fits. */
  method WriteContext(dst: Writer, src: Reader, max: int) returns (total: nat, fault: Fault, ghost trouble: bool)
    requires src.Valid()
    modifies dst, src
    ensures src.Valid()
    ensures total <= |old(src.Rest())| && dst.content == old(dst.content) + old(src.Rest())[..total]
    ensures 0 <= max ==> total <= max
    ensures fault == Nil ==> total == |old(src.Rest())|
    ensures fault == SizeLimit ==> |old(src.Rest())| > max
    ensures max < 0 ==> fault == SizeLimit && total == 0
    ensures !fault.AfterFinal? && !fault.Rejected?
    ensures !trouble ==> (fault == Nil <==> |old(src.Rest())| <= max)
  {
    total, fault, trouble := 0, Nil, false;
    if max < 0 {
      return 0, SizeLimit, false;
    }
    ghost var input := src.Rest();
    while true
      invariant src.Valid() && total <= max && total <= |input| && !trouble
      invariant input[total..] == src.Rest()
      invariant dst.content == old(dst.content) + input[..total]
      decreases |src.Rest()|, src.stalls
    {
      var cancelled: bool := *;
      trouble := cancelled;
      if cancelled {
        return total, Cancelled, trouble;
      }
      ghost var start := total;
      var buffer, status := src.Read(COPY_BUFFER_BYTES);
      if buffer != [] {
        if total > max - |buffer| {
          CopyStep(input, start, buffer, src.Rest(), 0);
          return total, SizeLimit, trouble;
        }
        var written;
        written, fault, trouble := WriteBuffer(dst, buffer);
        CopyStep(input, start, buffer, src.Rest(), written);
        total := total + written;
        if fault != Nil {
          return;
        }
      }
      trouble := status == Broken;
      if status == End {
        return total, Nil, trouble;
      }
      if status == Broken {
        return total, ReadFailed, trouble;
      }
    }
  }
}
