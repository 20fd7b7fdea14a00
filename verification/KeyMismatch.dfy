/** Keys that the wrapping relay accepts and the receiver cannot use, and libraries with which that happens. */
module KeyMismatch {
  import opened Common
  import opened RelayMessages
  import opened AckLoop
  import opened PayloadCodec
  import opened RelayHops

  /** AES-GCM under a key that only its decoded spelling makes usable for the sender. */
  predicate SpelledKey<V>(c: Codecs<V>, e: Edge) {
    && Encrypts(e.sec) && e.key != [] && !AesKeyLength(|e.key|)
    && (|| (c.hexDecode(e.key).Some? && AesKeyLength(|c.hexDecode(e.key).value|))
        || (c.base64Decode(e.key).Some? && AesKeyLength(|c.base64Decode(e.key).value|)))
  }

  /** AES-GCM, suite number 1, is switched on. */
  predicate AesGcmOn(sec: Option<SecurityOptions>) { sec.Some? && sec.value.enabled && sec.value.suite == 1 }

  predicate AesLength(n: nat) { n in {16, 24, 32} }

  /** The value can be encoded and, if one of the five compressors is asked for, compressed. */
  predicate Packs<V>(c: Codecs<V>, e: Edge, v: V) {
    && c.gobEncode(v).Some?
    && (e.perf.Some? && e.perf.value.useCompression && 1 <= e.perf.value.algorithm <= 5 ==>
          c.compress(e.perf.value.algorithm, c.gobEncode(v).value).Some?)
  }

  /** The key fits the security options: some AES key length, as it is or decoded, under AES-GCM,
      and no key at all otherwise. */
  predicate KeyFits<V>(c: Codecs<V>, e: Edge) {
    if AesGcmOn(e.sec) then
      && e.key != []
      && (|| AesLength(|e.key|)
          || (c.hexDecode(e.key).Some? && AesLength(|c.hexDecode(e.key).value|))
          || (c.base64Decode(e.key).Some? && AesLength(|c.base64Decode(e.key).value|)))
    else e.key == []
  }

  /** Which submissions are accepted, with and without encryption. */
  lemma {:induction false} AcceptedIff<V>(c: Codecs<V>, e: Edge, x: Submission<V>)
    requires |x.nonce| == 12
    ensures Wraps(c, e, x) <==> Packs(c, e, x.value) && KeyFits(c, e)
  {
    var perf := if e.perf.Some? then e.perf.value else PerformanceOptions(false, 0);
    if KeyProblem(e.sec, e.key).None? && Packs(c, e, x.value) {
      var plain := c.gobEncode(x.value).value;
      var packed := if perf.useCompression then CompressData(c, plain, perf.algorithm).value else plain;
      assert EncryptData(c, packed, e.sec, e.key, x.nonce).Some? <==> !AesGcmOn(e.sec) || KeyFits(c, e);
    }
  }

  /** Of the accepted submissions, the ones the receiver cannot use are those under a spelled key. */
  lemma {:induction false} AcceptedButUnusable<V>(c: Codecs<V>, e: Edge, x: Submission<V>)
    requires |x.nonce| == 12 && Packs(c, e, x.value)
    ensures Wraps(c, e, x) && !UsableKey(e) <==> SpelledKey(c, e)
  {
    AcceptedIff(c, e, x);
  }

  /** Under such a key every submission is wrapped and sent, and nothing is delivered. */
  lemma {:induction false} SpelledKeyDeliversNothing<V(!new)>(
    c: Codecs<V>, e: Edge, xs: seq<Submission<V>>, streamId: string, traceId: string,
    quic: bool, grpcWeb: bool, sendOk: nat -> bool)
    requires Lawful(c) && !c.protoTarget && SpelledKey(c, e) && forall k: nat :: sendOk(k)
    requires forall x :: x in xs ==> |x.nonce| == NONCE_SIZE && Packs(c, e, x.value)
    ensures forall x :: x in xs ==> Wraps(c, e, x)
    ensures var s := EdgeStream(c, e, streamId, traceId, xs);
            |s.payloads| == |xs| && RelayHops.Delivered(quic, UnwrapConfig(c, e.key, grpcWeb, sendOk), s) == []
  {
    forall x | x in xs
      ensures Wraps(c, e, x)
    {
      AcceptedButUnusable(c, e, x);
    }
    EdgeOks(c, e, streamId, traceId, xs, UnwrapConfig(c, e.key, grpcWeb, sendOk));
    var s := EdgeStream(c, e, streamId, traceId, xs);
    DeliveredIsOks(quic, UnwrapConfig(c, e.key, grpcWeb, sendOk), s);
  }

  /**
   End to end for every edge, encrypted or not.  If the key fits the security options, every value
   that packs is accepted, and what comes out behind any number of hops is all of them, in order,
   unless AES-GCM is on under a key whose raw length is not 16, 24 or 32: then nothing does.  If
   the key does not fit, no submission is accepted at all.
   */
  lemma {:induction false} EveryEdge<V(!new)>(
    c: Codecs<V>, e: Edge, streamId: string, traceId: string, xs: seq<Submission<V>>,
    hops: seq<Hop>, quic: bool, grpcWeb: bool, sendOk: nat -> bool)
    requires Lawful(c) && !c.protoTarget && (forall h :: h in hops ==> Working(h)) && forall k: nat :: sendOk(k)
    requires forall x :: x in xs ==> |x.nonce| == 12 && Packs(c, e, x.value)
    ensures forall x :: x in xs ==> (Wraps(c, e, x) <==> KeyFits(c, e))
    ensures KeyFits(c, e) ==>
              RelayHops.Delivered(quic, UnwrapConfig(c, e.key, grpcWeb, sendOk),
                                  Through(hops, EdgeStream(c, e, streamId, traceId, xs)))
              == if AesGcmOn(e.sec) && !AesLength(|e.key|) then [] else Values(xs)
  {
    forall x | x in xs
      ensures Wraps(c, e, x) <==> KeyFits(c, e)
    {
      AcceptedIff(c, e, x);
    }
    if KeyFits(c, e) {
      EndToEnd(c, e, streamId, traceId, xs, hops, quic, grpcWeb, sendOk);
    }
  }

  // ---------- libraries that keep the laws ----------

  /** A hexadecimal digit, as `hex.DecodeString` reads it. */
  function HexDigit(b: Byte): (r: Option<nat>)
    ensures r.Some? ==> r.value < 16
  {
    if 48 <= b <= 57 then Some(b - 48)
    else if 97 <= b <= 102 then Some(b - 87)
    else if 65 <= b <= 70 then Some(b - 55)
    else None
  }

  function HexDecode(key: Bytes): (r: Option<Bytes>)
    ensures r.Some? ==> |key| == 2 * |r.value|
    ensures |key| % 2 == 0 && (forall i :: 0 <= i < |key| ==> HexDigit(key[i]).Some?) ==> r.Some?
  {
    if key == [] then Some([])
    else if |key| == 1 || HexDigit(key[0]).None? || HexDigit(key[1]).None? then None
    else
      var rest := HexDecode(key[2..]);
      if rest.None? then None
      else Some([16 * HexDigit(key[0]).value + HexDigit(key[1]).value] + rest.value)
  }

  /** Byte strings as values, and libraries that leave the bytes as they are. */
  const TRANSPARENT: Codecs<Bytes> := Codecs(
    (v: Bytes) => Some(v), (b: Bytes) => Some(b), (b: Bytes) => None,
    false, (t: string, b: Bytes) => None,
    (a: int, b: Bytes) => Some(b), (a: int, b: Bytes) => Some(b),
    (k: Bytes) => HexDecode(k), (k: Bytes) => None,
    (k: Bytes, n: Bytes, b: Bytes) => b, (k: Bytes, n: Bytes, b: Bytes) => Some(b))

  lemma {:induction false} TransparentIsLawful()
    ensures Lawful(TRANSPARENT) && !TRANSPARENT.protoTarget
  {
  }

  /** Every key of 48 or 64 hexadecimal digits is one the sender accepts and the receiver cannot use. */
  lemma {:induction false} LongHexKeysAreSpelled(sec: SecurityOptions, key: Bytes)
    requires Encrypts(Some(sec)) && (|key| == 48 || |key| == 64)
    requires forall i :: 0 <= i < |key| ==> HexDigit(key[i]).Some?
    ensures SpelledKey(TRANSPARENT, Edge(None, Some(sec), key))
  {
    assert TRANSPARENT.hexDecode(key) == HexDecode(key);
  }
}
