/** What a wrapped payload looks like on the wire, and how a receiver picks its decoder. */
module PayloadFormat {
  import opened Common
  import opened RelayMessages
  import opened Text
  import opened TextLaws
  import opened PayloadCodec
  import opened RelayHops
  import opened KeyMismatch

  // ---------- on the wire ----------

  /** One of the five compressors is asked for. */
  predicate Compresses(perf: Option<PerformanceOptions>) {
    perf.Some? && perf.value.useCompression && 1 <= perf.value.algorithm <= 5
  }

  /** The AES key behind a key text: itself, or its hexadecimal or base64 reading, whichever first
      has an AES length. */
  function KeyBehind<V>(c: Codecs<V>, key: Bytes): Bytes {
    if AesLength(|key|) then key
    else if c.hexDecode(key).Some? && AesLength(|c.hexDecode(key).value|) then c.hexDecode(key).value
    else if c.base64Decode(key).Some? then c.base64Decode(key).value
    else []
  }

  /** The gob encoding, compressed if asked for. */
  function Packed<V>(c: Codecs<V>, e: Edge, v: V): Option<Bytes> {
    var plain := c.gobEncode(v);
    if plain.None? then None
    else if Compresses(e.perf) then c.compress(e.perf.value.algorithm, plain.value)
    else plain
  }

  /**
   What travels for an accepted submission: the packed value, in clear without AES-GCM, and with it
   as the nonce followed by the value sealed under the AES key; number and ID as submitted, no
   metadata, and no encoding announced.
   */
  lemma {:induction false} WireFormat<V>(c: Codecs<V>, e: Edge, x: Submission<V>)
    requires Wraps(c, e, x)
    ensures Packed(c, e, x.value).Some?
    ensures var packed := Packed(c, e, x.value).value;
            var bytes := if AesGcmOn(e.sec) then x.nonce + c.seal(KeyBehind(c, e.key), x.nonce, packed) else packed;
            Submitted(c, e, x) == WrappedPayload(x.id, x.now, bytes, None, None, x.seqNo, EncodingUnspecified, "", "")
  {
    AcceptedIff(c, e, x);
  }

  // ---------- the plain bytes at the receiver ----------

  function SecurityOf(wp: WrappedPayload): Option<SecurityOptions> {
    if wp.metadata.Some? then wp.metadata.value.security else None
  }

  function CompressionOf(wp: WrappedPayload): Option<PerformanceOptions> {
    if wp.metadata.Some? then wp.metadata.value.performance else None
  }

  function ContentTypeOf(wp: WrappedPayload): string {
    if wp.metadata.Some? then wp.metadata.value.contentType else ""
  }

  /** What opens under the raw key: everything in clear if AES-GCM is off and no key is set; the
      sealed part behind a 12-byte nonce if it is on and the key has an AES length. */
  function Opened<V>(c: Codecs<V>, wp: WrappedPayload, key: Bytes): Option<Bytes> {
    if AesGcmOn(SecurityOf(wp)) then
      if AesLength(|key|) && |wp.payload| >= 12 then c.unseal(key, wp.payload[..12], wp.payload[12..]) else None
    else if key == [] then Some(wp.payload)
    else None
  }

  function PlainBytes<V>(c: Codecs<V>, wp: WrappedPayload, key: Bytes): Option<Bytes> {
    var packed := Opened(c, wp, key);
    if packed.Some? && Compresses(CompressionOf(wp)) then
      c.decompress(CompressionOf(wp).value.algorithm, packed.value)
    else packed
  }

  // ---------- which decoder ----------

  /** The media type is `application/json` or one with the suffix `+json`. */
  predicate JsonType(core: string) {
    || Spells(core, "application/json")
    || (|core| >= 5 && Spells(core[|core| - 5..], "+json"))
  }

  /** `core` is the content type without the blanks around it. */
  ghost predicate CoreOf(contentType: string, core: string) {
    && (exists before: string, behind: string ::
          AllBlank(before) && AllBlank(behind) && contentType == before + core + behind)
    && (core != "" ==> !Blank(core[0]) && !Blank(core[|core| - 1]))
  }

  lemma {:induction false} JsonTypeMeaning(contentType: string) returns (core: string)
    ensures CoreOf(contentType, core) && (IsJson(contentType) <==> JsonType(core))
  {
    core := Trim(contentType);
    var before, behind := TrimMeaning(contentType);
    LowerSpells(core, "application/json");
    if |core| >= 5 {
      LowerSpells(core[|core| - 5..], "+json");
      assert Lower(core)[|core| - 5..] == Lower(core[|core| - 5..]);
    }
  }

  /** The first byte that is no white space is a brace or a bracket that opens. */
  ghost predicate OpensJson(b: Bytes) {
    exists k :: 0 <= k < |b| && b[k] in {123, 91} && forall i :: 0 <= i < k ==> b[i] == 32 || 9 <= b[i] <= 13
  }

  lemma {:induction false} LooksLikeJsonMeaning(b: Bytes)
    ensures LooksLikeJson(b) <==> OpensJson(b)
  {
    if b != [] {
      LooksLikeJsonMeaning(b[1..]);
      if SpaceByte(b[0]) {
        SpaceInFront(b);
      } else if LooksLikeJson(b) {
        assert b[0] in {123, 91};
      }
    }
  }

  lemma {:induction false} SpaceInFront(b: Bytes)
    requires b != [] && (b[0] == 32 || 9 <= b[0] <= 13)
    ensures OpensJson(b) <==> OpensJson(b[1..])
  {
    if OpensJson(b) {
      var k :| 0 <= k < |b| && b[k] in {123, 91} && forall i :: 0 <= i < k ==> b[i] == 32 || 9 <= b[i] <= 13;
      assert b[1..][k - 1] == b[k];
    }
    if OpensJson(b[1..]) {
      var c := b[1..];
      var k :| 0 <= k < |c| && c[k] in {123, 91} && forall i :: 0 <= i < k ==> c[i] == 32 || 9 <= c[i] <= 13;
      assert b[k + 1] == c[k] && forall i :: 0 <= i < k + 1 ==> b[i] == 32 || 9 <= b[i] <= 13 by {
        assert forall i :: 1 <= i < k + 1 ==> b[i] == c[i - 1];
      }
    }
  }

  /** What the receiver's decoders make of the plain bytes. */
  ghost predicate DecodesTo<V>(c: Codecs<V>, wp: WrappedPayload, core: string, plain: Bytes, r: Option<V>) {
    if JsonType(core) && !c.protoTarget then r == c.jsonDecode(plain)
    else if wp.encoding == Proto || (wp.encoding == EncodingUnspecified && c.protoTarget) then
      r == c.protoDecode(wp.payloadType, plain)
    else if wp.encoding == Gob || wp.encoding == EncodingUnspecified then
      if c.gobDecode(plain).Some? then r == c.gobDecode(plain)
      else r == if !c.protoTarget && OpensJson(plain) then c.jsonDecode(plain) else None
    else r == None
  }

  function ValueOf<V>(r: Result<V, string>): Option<V> { if r.Ok? then Some(r.value) else None }

  lemma {:induction false} PlainFirst<V>(c: Codecs<V>, wp: WrappedPayload, key: Bytes)
    ensures var plain := PlainBytes(c, wp, key);
            ValueOf(UnwrapPayload(c, wp, key))
            == if plain.None? then None else ValueOf(DecodePlain(c, wp, ContentTypeOf(wp), plain.value))
  {
    assert Encrypts(SecurityOf(wp)) == AesGcmOn(SecurityOf(wp));
  }

  lemma {:induction false} DecoderOfPlain<V>(c: Codecs<V>, wp: WrappedPayload, core: string, plain: Bytes)
    requires IsJson(ContentTypeOf(wp)) <==> JsonType(core)
    ensures DecodesTo(c, wp, core, plain, ValueOf(DecodePlain(c, wp, ContentTypeOf(wp), plain)))
  {
    LooksLikeJsonMeaning(plain);
  }

  /**
   A payload yields a value exactly if its bytes can be opened and unpacked and the decoder in
   charge accepts them: JSON by content type, in any case and with blanks around it, for a
   target that is no message; otherwise the announced encoding, or by default protobuf for a
   message and gob for anything else; and where gob fails, JSON if the bytes look like it.
   */
  lemma {:induction false} DecoderChosen<V>(c: Codecs<V>, wp: WrappedPayload, key: Bytes) returns (core: string)
    ensures CoreOf(ContentTypeOf(wp), core)
    ensures var r, plain := ValueOf(UnwrapPayload(c, wp, key)), PlainBytes(c, wp, key);
            if plain.None? then r == None else DecodesTo(c, wp, core, plain.value, r)
  {
    core := JsonTypeMeaning(ContentTypeOf(wp));
    PlainFirst(c, wp, key);
    if PlainBytes(c, wp, key).Some? {
      DecoderOfPlain(c, wp, core, PlainBytes(c, wp, key).value);
    }
  }
}
