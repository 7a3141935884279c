/** The whole archive file: prologue, header and framed body, what restore accepts, and why restore
    accepts what export finished under the same limits (internal/backup/crypto.go, decode.go, export.go). */
module Envelope {
  import opened Bytes
  import opened Framing

  const MAGIC: seq<byte> := [0x59, 0x55, 0x52, 0x49, 0x42, 0x4b, 0x50, 0x31]
  const MAX_HEADER_BYTES: nat := 65536
  const EXPORT_CHUNK: ChunkSize := 0x10_0000
  const VERSION_SEALED: int := 1
  const VERSION_CHUNKED: int := 2
  const FORMAT := "yuri-encrypted-backup"
  const CIPHER := "AES-256-GCM"
  const KDF := "scrypt"
  const FRAMING_STREAM := "stream-aes-256-gcm"

  const HARD_MAX_BYTES: int := 0x4000_0000

  /** The limits that bound an archive; export and restore use the same record. */
  datatype Limits = Limits(maxArchiveBytes: int, maxPlaintextBytes: int, maxBlobs: int, maxPathBytes: int) {
    predicate Valid() {
      && 1 <= maxArchiveBytes <= HARD_MAX_BYTES
      && 1 <= maxPlaintextBytes <= HARD_MAX_BYTES
      && 1 <= maxBlobs <= 16384
      && 1 <= maxPathBytes <= 16384
      && maxPlaintextBytes <= maxArchiveBytes
    }
  }

  /** The decoded header; `salt` and `nonce` are None when their base64 does not decode. */
  datatype Header = Header(format: string, version: int, cipher: string, kdf: string, n: int, r: int, p: int,
                           salt: Option<seq<byte>>, nonce: Option<seq<byte>>,
                           plaintextSize: int, ciphertextSize: int, framing: string, chunkSize: int)

  /** JSON encoding of headers, kept abstract: decoding undoes encoding, and nothing else is assumed. */
  datatype Codec = Codec(encode: Header -> seq<byte>, decode: seq<byte> -> Option<Header>) {
    ghost predicate Faithful() {
      forall h :: decode(encode(h)) == Some(h) && encode(h) != []
    }
  }

  // ----- key derivation parameters

  predicate PowerOfTwo(n: nat) {
    n > 0 && (n == 1 || (n % 2 == 0 && PowerOfTwo(n / 2)))
  }

  /** The scrypt bounds both sides check. Only export accepts an empty salt, because it then makes one. */
  predicate KdfOk(n: int, r: int, p: int, saltBytes: int) {
    && 16384 <= n <= 1048576 && PowerOfTwo(n)
    && 1 <= r <= 32 && 1 <= p <= 16
    && n <= 0x1000_0000 / (128 * r)
    && n <= 0x1000_0000 / (r * p)
    && 16 <= saltBytes <= 64
  }

  // ----- the file

  function ArchiveFile(headerBytes: seq<byte>, body: seq<byte>): seq<byte> {
    MAGIC + BigEndian(|headerBytes|, 4) + headerBytes + body
  }

  /** The cleartext prologue of a file: its header, the exact header bytes, and the body behind them. */
  function ReadEnvelopeHeader(codec: Codec, file: seq<byte>): Option<(Header, seq<byte>, seq<byte>)> {
    if |file| < 12 || file[..8] != MAGIC then None
    else
      var size := FromBigEndian(file[8..12]);
      if size == 0 || size > MAX_HEADER_BYTES || |file| < 12 + size then None
      else
        match codec.decode(file[12..12 + size])
        case None => None
        case Some(header) => Some((header, file[12..12 + size], file[12 + size..]))
  }

  datatype Framed = SealedBody | ChunkedBody | BadFraming | BadSize

  /** The per-version rules. Version 1 and version 2 shapes exclude each other. */
  function ValidateEnvelopeFraming(h: Header, bodySize: int, limits: Limits): Framed {
    if h.version == VERSION_SEALED then
      if h.framing != "" || h.chunkSize != 0 then BadFraming
      else if h.plaintextSize < 0 || h.plaintextSize > limits.maxPlaintextBytes || h.ciphertextSize < 0
              || h.ciphertextSize != h.plaintextSize + TAG_BYTES
                    || h.ciphertextSize > limits.maxArchiveBytes then BadSize
      else if bodySize != h.ciphertextSize then BadFraming
      else SealedBody
    else if h.version == VERSION_CHUNKED then
      if h.framing != FRAMING_STREAM then BadFraming
      else if h.chunkSize < MIN_CHUNK || h.chunkSize > MAX_CHUNK then BadFraming
      else if h.plaintextSize != 0 || h.ciphertextSize != 0 then BadFraming
      else ChunkedBody
    else BadFraming
  }

  datatype Decoded = BadEnvelope | TooBig | Sealed(h: Header) | Streamed(result: OpenResult)

  /** decodeArchive up to the decrypted payload. */
  function DecodeArchive(codec: Codec, aead: Aead, file: seq<byte>, limits: Limits): Decoded {
    if |file| > limits.maxArchiveBytes then TooBig
    else
      match ReadEnvelopeHeader(codec, file)
      case None => BadEnvelope
      case Some((h, headerBytes, body)) =>
        if h.format != FORMAT || h.cipher != CIPHER || h.kdf != KDF then BadEnvelope
        else if h.version != VERSION_SEALED && h.version != VERSION_CHUNKED then BadEnvelope
        else if h.salt.None? || !KdfOk(h.n, h.r, h.p, |h.salt.value|) then BadEnvelope
        else if h.nonce.None? || |h.nonce.value| != NONCE_BYTES then BadEnvelope
        else if |body| < TAG_BYTES then BadEnvelope
        else
          match ValidateEnvelopeFraming(h, |body|, limits)
          case SealedBody => Sealed(h)
          case BadFraming => BadEnvelope
          case BadSize => TooBig
          case ChunkedBody => Streamed(OpenBody(aead, h.nonce.value[..PREFIX_BYTES], MAGIC + headerBytes, h.chunkSize,
              body, limits.maxPlaintextBytes))
  }

  lemma Within(n: int, d: int, a: int)
    requires d > 0 && n <= a / d
    ensures n * d <= a
  {
    var q := a / d;
    assert n * d <= q * d;
  }

  /** A file that gets as far as decryption is within the archive limit, and so is the cost of deriving its
      key: at most 256 MiB of memory, and a salt that is not short. Everything else is refused before. */
  lemma OnlyBoundedFilesAreOpened(codec: Codec, aead: Aead, file: seq<byte>, limits: Limits)
    requires DecodeArchive(codec, aead, file, limits).Streamed? || DecodeArchive(codec, aead, file, limits).Sealed?
    ensures |file| <= limits.maxArchiveBytes && file[..8] == MAGIC
    ensures var h := ReadEnvelopeHeader(codec, file).value.0;
            && 128 * h.n * h.r <= 0x1000_0000 && h.n * h.r * h.p <= 0x1000_0000 && PowerOfTwo(h.n) && h.n >= 16384
            && h.salt.Some? && 16 <= |h.salt.value| <= 64
            && h.nonce.Some? && |h.nonce.value| == NONCE_BYTES
  {
    hide ValidateEnvelopeFraming, OpenBody, PowerOfTwo;
    var h := ReadEnvelopeHeader(codec, file).value.0;
    Within(h.n, 128 * h.r, 0x1000_0000);
    Within(h.n, h.r * h.p, 0x1000_0000);
  }

  /** Each archive was sealed with the prefix and chunk size its own header declares. */
  ghost predicate HeadersAgree(codec: Codec, archives: map<seq<byte>, Archive>) {
    forall ad :: ad in archives ==> HeaderAgrees(codec, ad, archives[ad])
  }

  ghost predicate HeaderAgrees(codec: Codec, ad: seq<byte>, archive: Archive) {
    && MAGIC <= ad
    && var h := codec.decode(ad[8..]);
    && h.Some? && h.value.nonce.Some? && |h.value.nonce.value| == NONCE_BYTES
    && archive.prefix == h.value.nonce.value[..PREFIX_BYTES] && archive.chunk == h.value.chunkSize
  }

  /** Authenticity of the whole file: if restore gets a payload out of a framed file, the file is byte
      for byte one that export wrote, and the payload is what that export put in. A refusal leaves at
      most a whole-frame prefix of that payload behind. */
  lemma RestoredFilesAreExportedFiles(codec: Codec, aead: Aead, archives: map<seq<byte>, Archive>, file: seq<byte>,
      limits: Limits)
    requires Ideal(aead, archives) && HeadersAgree(codec, archives)
    requires DecodeArchive(codec, aead, file, limits).Streamed?
    ensures var r := DecodeArchive(codec, aead, file, limits).result;
            var headerBytes := ReadEnvelopeHeader(codec, file).value.1;
            var ad := MAGIC + headerBytes;
            && (r.outcome == Opened <==>
                  ad in archives && file == ArchiveFile(headerBytes, Body(aead, ad, archives[ad]))
                  && |archives[ad].plain| <= limits.maxPlaintextBytes)
            && (r.outcome == Opened ==> r.plain == archives[ad].plain)
            && (ad in archives ==> var s := Split(archives[ad].plain, archives[ad].chunk);
                  r.frames <= |s| && r.plain == Flatten(s[..r.frames]))
            && (ad !in archives ==> r.plain == [])
  {
    var (h, headerBytes, body) := ReadEnvelopeHeader(codec, file).value;
    var ad := MAGIC + headerBytes;
    assert ad[8..] == headerBytes;
    FileParts(codec, file);
    if ad in archives {
      assert HeaderAgrees(codec, ad, archives[ad]);
      FileInjective(headerBytes, body, Body(aead, ad, archives[ad]));
    }
    OpensExactlyTheSealedBody(aead, archives, h.nonce.value[..PREFIX_BYTES], ad, h.chunkSize, body,
        limits.maxPlaintextBytes);
  }

  lemma FileParts(codec: Codec, file: seq<byte>)
    requires ReadEnvelopeHeader(codec, file).Some?
    ensures var (h, headerBytes, body) := ReadEnvelopeHeader(codec, file).value;
            file == ArchiveFile(headerBytes, body)
  {
    var (h, headerBytes, body) := ReadEnvelopeHeader(codec, file).value;
    BigEndianEncodes(file[8..12]);
    assert file == file[..8] + file[8..12] + file[12..12 + |headerBytes|] + file[12 + |headerBytes|..];
  }

  lemma FileInjective(headerBytes: seq<byte>, a: seq<byte>, b: seq<byte>)
    ensures ArchiveFile(headerBytes, a) == ArchiveFile(headerBytes, b) <==> a == b
  {
    var k := 12 + |headerBytes|;
    assert ArchiveFile(headerBytes, a)[k..] == a && ArchiveFile(headerBytes, b)[k..] == b;
  }

  /** Reading back the prologue that export writes. */
  lemma ReadsWhatWasWritten(codec: Codec, header: Header, body: seq<byte>)
    requires codec.Faithful() && |codec.encode(header)| <= MAX_HEADER_BYTES
    ensures ReadEnvelopeHeader(codec, ArchiveFile(codec.encode(header), body))
            == Some((header, codec.encode(header), body))
  {
    var hb := codec.encode(header);
    var file := ArchiveFile(hb, body);
    assert file[..8] == MAGIC && file[8..12] == BigEndian(|hb|, 4);
    assert file[12..12 + |hb|] == hb && file[12 + |hb|..] == body;
    BigEndianDecodes(|hb|, 4);
    assert Power256(2) == 65536 && Power256(4) == 256 * (256 * Power256(2));
  }
}
