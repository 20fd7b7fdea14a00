/** A byte stream as `io.Writer` and `io.Reader` present it, and fixed-width integers on it. */
module ByteStreams {
  import opened Common

  /** `io.ReadFull`: end of file only when nothing at all could be read. */
  datatype Taken = Took(bytes: Bytes, rest: Bytes) | Eof | UnexpectedEof

  function ReadFull(b: Bytes, n: nat): Taken {
    if n <= |b| then Took(b[..n], b[n..]) else if b == [] then Eof else UnexpectedEof
  }

  lemma ReadFullExtends(b: Bytes, x: Bytes, n: nat)
    requires n <= |b|
    ensures ReadFull(b + x, n) == Took(b[..n], b[n..] + x)
  {
    assert (b + x)[..n] == b[..n] && (b + x)[n..] == b[n..] + x;
  }

  function LE32(x: Uint32): (b: Bytes)
    ensures |b| == 4
  {
    [x % 256, x / 256 % 256, x / 65536 % 256, x / 16777216]
  }

  function FromLE32(b: Bytes): Uint32
    requires |b| == 4
  {
    b[0] as int + 256 * b[1] as int + 65536 * b[2] as int + 16777216 * b[3] as int
  }

  function BE32(x: Uint32): (b: Bytes)
    ensures |b| == 4
  {
    [x / 16777216, x / 65536 % 256, x / 256 % 256, x % 256]
  }

  function FromBE32(b: Bytes): Uint32
    requires |b| == 4
  {
    16777216 * b[0] as int + 65536 * b[1] as int + 256 * b[2] as int + b[3] as int
  }

  lemma FixedWidthRoundTrip(x: Uint32)
    ensures FromLE32(LE32(x)) == x && FromBE32(BE32(x)) == x
  {
    assert x == x % 256 + 256 * (x / 256);
    assert x / 256 == x / 256 % 256 + 256 * (x / 65536);
    assert x / 65536 == x / 65536 % 256 + 256 * (x / 16777216);
  }

  class ByteStream {
    var bytes: Bytes

    constructor (bytes: Bytes)
      ensures this.bytes == bytes
    {
      this.bytes := bytes;
    }

    method Write(b: Bytes)
      modifies this
      ensures bytes == old(bytes) + b
    {
      bytes := bytes + b;
    }

    /** A failed read uses up whatever was there. */
    method Read(n: nat) returns (r: Taken)
      modifies this
      ensures r == ReadFull(old(bytes), n)
      ensures bytes == if r.Took? then r.rest else []
    {
      if n <= |bytes| {
        r := Took(bytes[..n], bytes[n..]);
        bytes := bytes[n..];
      } else {
        r := if bytes == [] then Eof else UnexpectedEof;
        bytes := [];
      }
    }
  }
}

/** QUIC framing: a 4-byte big-endian length, then the payload. */
module Framing {
  import opened Common
  import opened ByteStreams

  datatype FrameError = EndOfFile | Truncated | ZeroLength | TooLarge

  datatype FrameRead = Frame(payload: Bytes, rest: Bytes) | Failed(error: FrameError)

  function Encoded(payload: Bytes): Bytes {
    BE32(|payload| % TWO32) + payload
  }

  function ReadError(t: Taken): FrameError
    requires !t.Took?
  {
    if t.Eof? then EndOfFile else Truncated
  }

  function ReadFrame(b: Bytes, maxBytes: int): (r: FrameRead)
    ensures r.Frame? ==> |r.rest| + 4 < |b|
  {
    var header := ReadFull(b, 4);
    if !header.Took? then Failed(ReadError(header))
    else
      var length := FromBE32(header.bytes);
      if length == 0 then Failed(ZeroLength)
      else if maxBytes > 0 && length > maxBytes then Failed(TooLarge)
      else
        var body := ReadFull(header.rest, length);
        if !body.Took? then Failed(ReadError(body)) else Frame(body.bytes, body.rest)
  }

  method WriteFrame(w: ByteStream, payload: Bytes) returns (ok: bool)
    modifies w
    ensures ok == (payload != [])
    ensures w.bytes == old(w.bytes) + if ok then Encoded(payload) else []
  {
    if |payload| == 0 {
      return false;
    }
    w.Write(BE32(|payload| % TWO32));
    w.Write(payload);
    ok := true;
  }

  method ReadFrameFrom(r: ByteStream, maxBytes: int) returns (f: FrameRead)
    modifies r
    ensures f == ReadFrame(old(r.bytes), maxBytes)
    ensures f.Frame? ==> r.bytes == f.rest
    ensures f == Failed(TooLarge) || f == Failed(ZeroLength) ==> |old(r.bytes)| >= 4 && r.bytes == old(r.bytes)[4..]
    ensures f == Failed(EndOfFile) || f == Failed(Truncated) ==> r.bytes == []
  {
    var header := r.Read(4);
    if !header.Took? {
      return Failed(ReadError(header));
    }
    var length := FromBE32(header.bytes);
    if length == 0 {
      return Failed(ZeroLength);
    }
    if maxBytes > 0 && length > maxBytes {
      return Failed(TooLarge);
    }
    var body := r.Read(length);
    if !body.Took? {
      return Failed(ReadError(body));
    }
    f := Frame(body.bytes, body.rest);
  }

  /** Payloads the reader's limit and the length field allow. */
  predicate Fits(payload: Bytes, maxBytes: int) {
    0 < |payload| < TWO32 && (maxBytes <= 0 || |payload| <= maxBytes)
  }

  function Stream(payloads: seq<Bytes>): Bytes {
    if payloads == [] then [] else Encoded(payloads[0]) + Stream(payloads[1..])
  }

  /** Reading frames until the first error. */
  function ReadAll(b: Bytes, maxBytes: int): (seq<Bytes>, FrameError)
    decreases |b|
  {
    match ReadFrame(b, maxBytes)
    case Failed(error) => ([], error)
    case Frame(payload, rest) =>
      var (more, error) := ReadAll(rest, maxBytes);
      ([payload] + more, error)
  }

  /** A frame that is all there reads back, leaving what follows, if and only if it fits. */
  lemma ReadsBack(payload: Bytes, rest: Bytes, maxBytes: int)
    ensures ReadFrame(Encoded(payload) + rest, maxBytes) == Frame(payload, rest) <==> Fits(payload, maxBytes)
  {
    var b, length := Encoded(payload) + rest, |payload| % TWO32;
    FixedWidthRoundTrip(length);
    assert b[..4] == BE32(length) && b[4..] == payload + rest;
    BodyReads(b, maxBytes, length);
    if Fits(payload, maxBytes) {
      assert (payload + rest)[..|payload|] == payload && (payload + rest)[|payload|..] == rest;
    }
  }

  /** What the announced length makes of the bytes behind it. */
  lemma {:induction false} BodyReads(b: Bytes, maxBytes: int, length: nat)
    requires 4 + length <= |b| && FromBE32(b[..4]) == length
    ensures ReadFrame(b, maxBytes)
            == if length == 0 then Failed(ZeroLength)
               else if maxBytes > 0 && length > maxBytes then Failed(TooLarge)
               else Frame(b[4..][..length], b[4..][length..])
  {
  }

  /** A cut frame fails: as a clean end of file before the header or right after it, as truncated elsewhere. */
  lemma CutFrameFails(payload: Bytes, maxBytes: int, k: nat)
    requires Fits(payload, maxBytes) && k < |Encoded(payload)|
    ensures ReadFrame(Encoded(payload)[..k], maxBytes) == Failed(if k == 0 || k == 4 then EndOfFile else Truncated)
  {
    if 4 <= k {
      CutBodyFails(payload, maxBytes, Encoded(payload)[..k]);
    }
  }

  lemma {:induction false} CutBodyFails(payload: Bytes, maxBytes: int, b: Bytes)
    requires Fits(payload, maxBytes) && 4 <= |b| < |Encoded(payload)| && b == Encoded(payload)[..|b|]
    ensures ReadFrame(b, maxBytes) == Failed(if |b| == 4 then EndOfFile else Truncated)
  {
    HeaderOf(payload);
    var e := Encoded(payload);
    assert b[..4] == e[..4];
    ShortBodyFails(b, maxBytes, |payload|);
  }

  lemma {:induction false} HeaderOf(payload: Bytes)
    requires |payload| < TWO32
    ensures FromBE32(Encoded(payload)[..4]) == |payload|
  {
    assert Encoded(payload)[..4] == BE32(|payload|);
    FixedWidthRoundTrip(|payload|);
  }

  /** Fewer bytes than the header announces. */
  lemma {:induction false} ShortBodyFails(b: Bytes, maxBytes: int, length: nat)
    requires 4 <= |b| < 4 + length && FromBE32(b[..4]) == length && (maxBytes <= 0 || length <= maxBytes)
    ensures ReadFrame(b, maxBytes) == Failed(if |b| == 4 then EndOfFile else Truncated)
  {
    assert |b[4..]| == |b| - 4;
  }

  /** An over-limit length is refused whatever follows it, before any of the body is read. */
  lemma OverLimitRefused(length: Uint32, rest: Bytes, maxBytes: int)
    requires 0 < maxBytes < length
    ensures ReadFrame(BE32(length) + rest, maxBytes) == Failed(TooLarge)
  {
    FixedWidthRoundTrip(length);
    assert (BE32(length) + rest)[..4] == BE32(length);
  }

  /** Reading all of `b` yields `frames` and then `error`.  The quantifier has one instance; it
      only keeps `ReadAll` folded in proofs that do not look inside. */
  ghost predicate Reads(b: Bytes, maxBytes: int, frames: seq<Bytes>, error: FrameError) {
    forall m :: m == maxBytes ==> ReadAll(b, m) == (frames, error)
  }

  lemma {:induction false} ReadsFrame(payload: Bytes, rest: Bytes, maxBytes: int, more: seq<Bytes>, error: FrameError)
    requires Fits(payload, maxBytes) && Reads(rest, maxBytes, more, error)
    ensures Reads(Encoded(payload) + rest, maxBytes, [payload] + more, error)
  {
    ReadsBack(payload, rest, maxBytes);
    assert ReadAll(rest, maxBytes) == (more, error);
  }

  function CutError(cut: nat): FrameError { if cut == 0 || cut == 4 then EndOfFile else Truncated }

  lemma {:induction false} ReadsCut(payload: Bytes, maxBytes: int, k: nat)
    requires Fits(payload, maxBytes) && k < |Encoded(payload)|
    ensures Reads(Encoded(payload)[..k], maxBytes, [], CutError(k))
  {
    CutFrameFails(payload, maxBytes, k);
  }

  lemma {:induction false} StreamCons(payload: Bytes, payloads: seq<Bytes>)
    ensures Stream([payload] + payloads) == Encoded(payload) + Stream(payloads)
  {
    assert ([payload] + payloads)[1..] == payloads;
  }

  /** How many payloads lie wholly within the first `k` bytes, and what reading those bytes gives. */
  lemma {:induction false} PrefixFrames(payloads: seq<Bytes>, maxBytes: int, k: nat) returns (n: nat)
    requires (forall i :: 0 <= i < |payloads| ==> Fits(payloads[i], maxBytes)) && k <= |Stream(payloads)|
    ensures n <= |payloads| && |Stream(payloads[..n])| <= k
    ensures n < |payloads| ==> k < |Stream(payloads[..n])| + |Encoded(payloads[n])|
    ensures Reads(Stream(payloads)[..k], maxBytes, payloads[..n], CutError(k - |Stream(payloads[..n])|))
    decreases |payloads|, 0
  {
    if payloads == [] {
      n := 0;
      assert Stream(payloads)[..k] == [] && ReadAll([], maxBytes) == ([], EndOfFile);
    } else {
      var p, rest := payloads[0], payloads[1..];
      assert payloads == [p] + rest;
      StreamCons(p, rest);
      if k < |Encoded(p)| {
        n := 0;
        assert Stream(payloads)[..k] == Encoded(p)[..k];
        ReadsCut(p, maxBytes, k);
      } else {
        n := PrefixBehind(p, rest, maxBytes, k);
      }
    }
  }

  /** The first frame is complete: read it, and the others from the bytes behind it. */
  lemma {:induction false} PrefixBehind(p: Bytes, rest: seq<Bytes>, maxBytes: int, k: nat) returns (n: nat)
    requires Fits(p, maxBytes) && (forall i :: 0 <= i < |rest| ==> Fits(rest[i], maxBytes))
    requires |Encoded(p)| <= k <= |Stream([p] + rest)|
    ensures var payloads := [p] + rest;
            && 0 < n <= |payloads| && |Stream(payloads[..n])| <= k
            && (n < |payloads| ==> k < |Stream(payloads[..n])| + |Encoded(payloads[n])|)
            && Reads(Stream(payloads)[..k], maxBytes, payloads[..n], CutError(k - |Stream(payloads[..n])|))
    decreases |rest|, 1
  {
    var size, tail := |Encoded(p)|, Stream(rest);
    StreamCons(p, rest);
    var m := PrefixFrames(rest, maxBytes, k - size);
    n := m + 1;
    StreamCons(p, rest[..m]);
    assert ([p] + rest)[..n] == [p] + rest[..m];
    assert Stream([p] + rest)[..k] == Encoded(p) + tail[..k - size];
    ReadsFrame(p, tail[..k - size], maxBytes, rest[..m], CutError(k - size - |Stream(rest[..m])|));
  }

  /**
   Any prefix of a stream of written frames reads as exactly the frames that lie wholly
   inside it, in order, and then an error: a clean end of file if and only if the cut is
   at a frame boundary or directly after a header.
   */
  lemma {:induction false} PrefixReads(payloads: seq<Bytes>, maxBytes: int, k: nat) returns (n: nat)
    requires (forall i :: 0 <= i < |payloads| ==> Fits(payloads[i], maxBytes)) && k <= |Stream(payloads)|
    ensures n <= |payloads| && |Stream(payloads[..n])| <= k
    ensures n < |payloads| ==> k < |Stream(payloads[..n])| + |Encoded(payloads[n])|
    ensures var cut := k - |Stream(payloads[..n])|;
            ReadAll(Stream(payloads)[..k], maxBytes)
            == (payloads[..n], if cut == 0 || cut == 4 then EndOfFile else Truncated)
  {
    n := PrefixFrames(payloads, maxBytes, k);
  }
}
