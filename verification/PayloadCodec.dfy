/** How a value becomes the bytes of a wrapped payload, and back. */
module PayloadCodec {
  import opened Common
  import opened RelayMessages
  import opened Text

  /** The libraries behind the relay: gob, JSON, protobuf, the compressors, AES-GCM and
      the two key decoders.  `protoTarget` tells whether the receiver's type is a message. */
  datatype Codecs<!V> = Codecs(
    gobEncode: V -> Option<Bytes>,
    gobDecode: Bytes -> Option<V>,
    jsonDecode: Bytes -> Option<V>,
    protoTarget: bool,
    protoDecode: (string, Bytes) -> Option<V>,
    compress: (int, Bytes) -> Option<Bytes>,
    decompress: (int, Bytes) -> Option<Bytes>,
    hexDecode: Bytes -> Option<Bytes>,
    base64Decode: Bytes -> Option<Bytes>,
    seal: (Bytes, Bytes, Bytes) -> Bytes,
    unseal: (Bytes, Bytes, Bytes) -> Option<Bytes>)

  const NONCE_SIZE: nat := 12
  const AES_GCM: int := 1

  predicate AesKeyLength(n: nat) { n == 16 || n == 24 || n == 32 }

  /** The libraries undo themselves. */
  ghost predicate Lawful<V(!new)>(c: Codecs<V>) {
    && (forall v: V :: c.gobEncode(v).Some? ==> c.gobDecode(c.gobEncode(v).value) == Some(v))
    && (forall a: int, d: Bytes ::
          c.compress(a, d).Some? ==> c.decompress(a, c.compress(a, d).value) == Some(d))
    && (forall k: Bytes, n: Bytes, d: Bytes ::
          AesKeyLength(|k|) && |n| == NONCE_SIZE ==> c.unseal(k, n, c.seal(k, n, d)) == Some(d))
  }

  predicate Encrypts(sec: Option<SecurityOptions>) {
    sec.Some? && sec.value.enabled && sec.value.suite == AES_GCM
  }

  /** `validateEncryptionRequirement`: a key exactly when AES-GCM is on. */
  function KeyProblem(sec: Option<SecurityOptions>, key: Bytes): Option<string> {
    if Encrypts(sec) && key == [] then Some("encryption enabled but encryption key is empty")
    else if key == [] then None
    else if !Encrypts(sec) then Some("encryption key provided but AES-GCM is not enabled")
    else None
  }

  function KnownCompressor(algorithm: int): bool { 1 <= algorithm <= 5 }

  function CompressData<V>(c: Codecs<V>, data: Bytes, algorithm: int): Option<Bytes> {
    if KnownCompressor(algorithm) then c.compress(algorithm, data) else Some(data)
  }

  function DecompressData<V>(c: Codecs<V>, data: Bytes, algorithm: int): Option<Bytes> {
    if KnownCompressor(algorithm) then c.decompress(algorithm, data) else Some(data)
  }

  /** The sender also takes hexadecimal and base64 spellings of a key. */
  function NormalizeAESKey<V>(c: Codecs<V>, key: Bytes): Option<Bytes> {
    if AesKeyLength(|key|) then Some(key)
    else
      var h, b := c.hexDecode(key), c.base64Decode(key);
      if h.Some? && AesKeyLength(|h.value|) then h
      else if b.Some? && AesKeyLength(|b.value|) then b
      else None
  }

  function EncryptData<V>(c: Codecs<V>, data: Bytes, sec: Option<SecurityOptions>, key: Bytes, nonce: Bytes)
    : Option<Bytes>
  {
    if !Encrypts(sec) then Some(data)
    else
      var k := NormalizeAESKey(c, key);
      if k.None? then None else Some(nonce + c.seal(k.value, nonce, data))
  }

  /** The receiver uses the key's raw bytes only. */
  function DecryptData<V>(c: Codecs<V>, data: Bytes, sec: Option<SecurityOptions>, key: Bytes): Option<Bytes> {
    if !Encrypts(sec) then Some(data)
    else if !AesKeyLength(|key|) then None
    else if |data| < NONCE_SIZE then None
    else c.unseal(key, data[..NONCE_SIZE], data[NONCE_SIZE..])
  }

  /** The wrapping relay's settings; `nonce` is the random part of one encryption. */
  datatype Edge = Edge(perf: Option<PerformanceOptions>, sec: Option<SecurityOptions>, key: Bytes)

  const CONTENT_TYPE := "application/octet-stream"

  /** The metadata of a stream's Open, and of a wrapped payload before it is stripped. */
  function StandardMetadata(perf: Option<PerformanceOptions>, sec: Option<SecurityOptions>, traceId: string): Metadata {
    Metadata([("source", "go")], CONTENT_TYPE, perf, sec, traceId, 0)
  }

  function WrapPayload<V>(c: Codecs<V>, v: V, e: Edge, nonce: Bytes, id: string, now: int)
    : Result<WrappedPayload, string>
  {
    var perf := if e.perf.Some? then e.perf.value else PerformanceOptions(false, 0);
    var problem := KeyProblem(e.sec, e.key);
    if problem.Some? then Err(problem.value)
    else
      match c.gobEncode(v)
      case None => Err("gob encode failed")
      case Some(plain) =>
        match (if perf.useCompression then CompressData(c, plain, perf.algorithm) else Some(plain))
        case None => Err("compression failed")
        case Some(packed) =>
          match EncryptData(c, packed, e.sec, e.key, nonce)
          case None => Err("encryption failed")
          case Some(bytes) =>
            Ok(WrappedPayload(id, now, bytes, Some(StandardMetadata(Some(perf), e.sec, "")), None, 0,
                              EncodingUnspecified, "", ""))
  }

  predicate IsJson(contentType: string) {
    var s := Lower(Trim(contentType));
    s == "application/json" || HasSuffix(s, "+json")
  }

  predicate SpaceByte(b: Byte) { b == 32 || 9 <= b <= 13 }

  /** The first byte that is not white space opens an object or an array. */
  predicate LooksLikeJson(b: Bytes) {
    b != [] && (if SpaceByte(b[0]) then LooksLikeJson(b[1..]) else b[0] == 0x7b || b[0] == 0x5b)
  }

  function OrError<V>(r: Option<V>, error: string): Result<V, string> {
    if r.Some? then Ok(r.value) else Err(error)
  }

  /** The choice of decoder once the bytes are plain. */
  function DecodePlain<V>(c: Codecs<V>, wp: WrappedPayload, contentType: string, plain: Bytes): Result<V, string> {
    if IsJson(contentType) && !c.protoTarget then OrError(c.jsonDecode(plain), "unwrap: json decode failed")
    else
      var enc := if wp.encoding != EncodingUnspecified then wp.encoding
                 else if c.protoTarget then Proto else Gob;
      match enc
      case Gob =>
        var r := c.gobDecode(plain);
        if r.Some? then Ok(r.value)
        else if !c.protoTarget && LooksLikeJson(plain) && c.jsonDecode(plain).Some? then Ok(c.jsonDecode(plain).value)
        else Err("unwrap: gob decode failed")
      case Proto => OrError(c.protoDecode(wp.payloadType, plain), "unwrap: proto decode failed")
      case _ => Err("unwrap: unsupported payload_encoding")
  }

  function UnwrapPayload<V>(c: Codecs<V>, wp: WrappedPayload, key: Bytes): Result<V, string> {
    var sec := if wp.metadata.Some? then wp.metadata.value.security else None;
    var perf := if wp.metadata.Some? then wp.metadata.value.performance else None;
    var contentType := if wp.metadata.Some? then wp.metadata.value.contentType else "";
    if key != [] && !Encrypts(sec) then Err("unwrap: encryption required")
    else
      match DecryptData(c, wp.payload, sec, key)
      case None => Err("unwrap: decryption failed")
      case Some(packed) =>
        match (if perf.Some? && perf.value.useCompression then DecompressData(c, packed, perf.value.algorithm)
               else Some(packed))
        case None => Err("unwrap: decompression failed")
        case Some(plain) => DecodePlain(c, wp, contentType, plain)
  }

  lemma OctetStreamIsNotJson()
    ensures !IsJson(CONTENT_TYPE)
  {
    var s := Lower(CONTENT_TYPE);
    assert Trim(CONTENT_TYPE) == CONTENT_TYPE;
    assert s[|s| - 5..][4] == 'm';
  }

  lemma EncryptionUndone<V(!new)>(c: Codecs<V>, data: Bytes, sec: Option<SecurityOptions>, key: Bytes, nonce: Bytes)
    requires Lawful(c) && |nonce| == NONCE_SIZE && EncryptData(c, data, sec, key, nonce).Some?
    ensures DecryptData(c, EncryptData(c, data, sec, key, nonce).value, sec, key)
            == if Encrypts(sec) && !AesKeyLength(|key|) then None else Some(data)
  {
    if Encrypts(sec) && AesKeyLength(|key|) {
      var sealed := c.seal(key, nonce, data);
      assert (nonce + sealed)[..NONCE_SIZE] == nonce && (nonce + sealed)[NONCE_SIZE..] == sealed;
    }
  }

  /** The payload as a receiver sees it: the metadata of the wrapper replaced by the stream's. */
  function AsReceived(wp: WrappedPayload, e: Edge, traceId: string, seqNo: Uint64): WrappedPayload {
    wp.(metadata := Some(StandardMetadata(e.perf, e.sec, traceId)), seqNo := seqNo)
  }

  /**
   Round trip of one value, and exactly when it fails: under encryption, the
   receiver recovers the value if and only if the key's raw length is an AES key
   length.  A key the sender had to decode from hexadecimal or base64 never works.
   */
  lemma UnwrapUndoesWrap<V(!new)>(
    c: Codecs<V>, v: V, e: Edge, nonce: Bytes, id: string, now: int, traceId: string, seqNo: Uint64)
    requires Lawful(c) && !c.protoTarget && |nonce| == NONCE_SIZE
    requires WrapPayload(c, v, e, nonce, id, now).Ok?
    ensures var r := UnwrapPayload(c, AsReceived(WrapPayload(c, v, e, nonce, id, now).value, e, traceId, seqNo), e.key);
            if Encrypts(e.sec) && !AesKeyLength(|e.key|) then r.Err? else r == Ok(v)
  {
    OctetStreamIsNotJson();
    var perf := if e.perf.Some? then e.perf.value else PerformanceOptions(false, 0);
    var plain := c.gobEncode(v).value;
    var packed := (if perf.useCompression then CompressData(c, plain, perf.algorithm) else Some(plain)).value;
    EncryptionUndone(c, packed, e.sec, e.key, nonce);
  }
}
