/** The wave binary codec: little-endian fields on a stream. */
module WaveCodec {
  import opened Common
  import opened ByteStreams

  /** An IEEE-754 double, as its 8 bytes. */
  type Float64 = b: Bytes | |b| == 8 witness [0, 0, 0, 0, 0, 0, 0, 0]

  /** A complex sample (real, imaginary) or a peak (frequency, value). */
  datatype Pair = Pair(first: Float64, second: Float64)

  datatype Wave = Wave(
    id: int,
    dominantFreq: Float64,
    totalEnergy: Float64,
    compressionRatio: Float64,
    mse: Float64,
    snr: Float64,
    original: seq<Pair>,
    hex: Bytes,
    peaks: seq<Pair>)

  /** `int32(x)` as its 32 bits. */
  function Bits32(x: int): Uint32 { x % TWO32 }

  /** The bits of an `int32` read as a number. */
  function Signed32(x: Uint32): int { if x < 0x8000_0000 then x else x - TWO32 }

  function EncodePairs(ps: seq<Pair>): Bytes {
    if ps == [] then []
    else EncodePairs(ps[..|ps| - 1]) + ps[|ps| - 1].first + ps[|ps| - 1].second
  }

  function EncodeHead(w: Wave): Bytes {
    LE32(Bits32(w.id)) + w.dominantFreq + w.totalEnergy + w.compressionRatio + w.mse + w.snr
  }

  function EncodePairList(ps: seq<Pair>): Bytes {
    LE32(Bits32(|ps|)) + EncodePairs(ps)
  }

  function EncodeText(t: Bytes): Bytes {
    LE32(Bits32(|t|)) + t
  }

  function EncodeWave(w: Wave): Bytes {
    EncodeHead(w) + EncodePairList(w.original) + EncodeText(w.hex) + EncodePairList(w.peaks)
  }

  method Encode(out: ByteStream, w: Wave)
    modifies out
    ensures out.bytes == old(out.bytes) + EncodeWave(w)
  {
    WriteHead(out, w);
    WritePairList(out, w.original);
    WriteText(out, w.hex);
    WritePairList(out, w.peaks);
  }

  /** The fixed-size fields. */
  method WriteHead(out: ByteStream, w: Wave)
    modifies out
    ensures out.bytes == old(out.bytes) + EncodeHead(w)
  {
    out.Write(LE32(Bits32(w.id)));
    out.Write(w.dominantFreq);
    out.Write(w.totalEnergy);
    out.Write(w.compressionRatio);
    out.Write(w.mse);
    out.Write(w.snr);
  }

  method WriteText(out: ByteStream, t: Bytes)
    modifies out
    ensures out.bytes == old(out.bytes) + EncodeText(t)
  {
    out.Write(LE32(Bits32(|t|)));
    out.Write(t);
  }

  method WritePairList(out: ByteStream, ps: seq<Pair>)
    modifies out
    ensures out.bytes == old(out.bytes) + EncodePairList(ps)
  {
    out.Write(LE32(Bits32(|ps|)));
    WritePairs(out, ps);
  }

  method WritePairs(out: ByteStream, ps: seq<Pair>)
    modifies out
    ensures out.bytes == old(out.bytes) + EncodePairs(ps)
  {
    for i := 0 to |ps|
      invariant out.bytes == old(out.bytes) + EncodePairs(ps[..i])
    {
      out.Write(ps[i].first);
      out.Write(ps[i].second);
      assert ps[..i + 1][..i] == ps[..i];
    }
    assert ps[..|ps|] == ps;
  }

  /** A decoding step: a value and the unread rest, an error, or Go's panic on `make` with a negative length. */
  datatype Parsed<+T> = Got(value: T, rest: Bytes) | Error | Panic

  function ReadFloat(b: Bytes): Parsed<Float64> {
    var t := ReadFull(b, 8);
    if t.Took? then Got(t.bytes, t.rest) else Error
  }

  function ReadInt32(b: Bytes): Parsed<int> {
    var t := ReadFull(b, 4);
    if t.Took? then Got(Signed32(FromLE32(t.bytes)), t.rest) else Error
  }

  function ReadPair(b: Bytes): Parsed<Pair> {
    var f := ReadFloat(b);
    if !f.Got? then Error
    else
      var g := ReadFloat(f.rest);
      if g.Got? then Got(Pair(f.value, g.value), g.rest) else Error
  }

  function ReadPairs(b: Bytes, n: nat): Parsed<seq<Pair>>
    decreases n
  {
    if n == 0 then Got([], b)
    else
      var p := ReadPair(b);
      if !p.Got? then Error
      else
        var ps := ReadPairs(p.rest, n - 1);
        if ps.Got? then Got([p.value] + ps.value, ps.rest) else Error
  }

  /** A length, the `make` that panics on a negative one, and that many pairs. */
  function ReadPairList(b: Bytes): Parsed<seq<Pair>> {
    var n := ReadInt32(b);
    if !n.Got? then Error else if n.value < 0 then Panic else ReadPairs(n.rest, n.value)
  }

  function ReadText(b: Bytes): Parsed<Bytes> {
    var n := ReadInt32(b);
    if !n.Got? then Error
    else if n.value < 0 then Panic
    else
      var t := ReadFull(n.rest, n.value);
      if t.Took? then Got(t.bytes, t.rest) else Error
  }

  datatype Head = Head(
    id: int,
    dominantFreq: Float64,
    totalEnergy: Float64,
    compressionRatio: Float64,
    mse: Float64,
    snr: Float64)

  function ReadHead(b: Bytes): Parsed<Head> {
    var id := ReadInt32(b);
    if !id.Got? then Error
    else
      var f := ReadFloat(id.rest);
      if !f.Got? then Error
      else
        var e := ReadFloat(f.rest);
        if !e.Got? then Error
        else
          var c := ReadFloat(e.rest);
          if !c.Got? then Error
          else
            var m := ReadFloat(c.rest);
            if !m.Got? then Error
            else
              var s := ReadFloat(m.rest);
              if !s.Got? then Error
              else Got(Head(id.value, f.value, e.value, c.value, m.value, s.value), s.rest)
  }

  function Assemble(h: Head, original: seq<Pair>, hex: Bytes, peaks: seq<Pair>): Wave {
    Wave(h.id, h.dominantFreq, h.totalEnergy, h.compressionRatio, h.mse, h.snr, original, hex, peaks)
  }

  function DecodeWave(b: Bytes): Parsed<Wave> {
    var h := ReadHead(b);
    if !h.Got? then Error
    else
      var o := ReadPairList(h.rest);
      if o.Panic? then Panic else if o.Error? then Error
      else
        var x := ReadText(o.rest);
        if x.Panic? then Panic else if x.Error? then Error
        else
          var p := ReadPairList(x.rest);
          if p.Panic? then Panic else if p.Error? then Error
          else Got(Assemble(h.value, o.value, x.value, p.value), p.rest)
  }

  function Prepended(ps: seq<Pair>, r: Parsed<seq<Pair>>): Parsed<seq<Pair>> {
    if r.Got? then Got(ps + r.value, r.rest) else r
  }

  /** The decoder's loop over `n` pairs. */
  method ReadPairsLoop(input: ByteStream, n: nat) returns (r: Parsed<seq<Pair>>)
    modifies input
    ensures r == ReadPairs(old(input.bytes), n)
    ensures r.Got? ==> input.bytes == r.rest
  {
    var ps: seq<Pair> := [];
    ghost var all := ReadPairs(input.bytes, n);
    assert all.Got? ==> [] + all.value == all.value;
    for i := 0 to n
      invariant all == Prepended(ps, ReadPairs(input.bytes, n - i))
    {
      assert n - i > 0;
      var f := input.Read(8);
      if !f.Took? {
        return Error;
      }
      var g := input.Read(8);
      if !g.Took? {
        return Error;
      }
      ghost var left := ReadPairs(input.bytes, n - i - 1);
      assert left.Got? ==> ps + ([Pair(f.bytes, g.bytes)] + left.value) == ps + [Pair(f.bytes, g.bytes)] + left.value;
      ps := ps + [Pair(f.bytes, g.bytes)];
    }
    assert all == Got(ps + [], input.bytes) && ps + [] == ps;
    r := Got(ps, input.bytes);
  }

  method ReadInt(input: ByteStream) returns (r: Parsed<int>)
    modifies input
    ensures r == ReadInt32(old(input.bytes))
    ensures r.Got? ==> input.bytes == r.rest
  {
    var t := input.Read(4);
    r := if t.Took? then Got(Signed32(FromLE32(t.bytes)), t.rest) else Error;
  }

  /** The fixed-size fields. */
  method DecodeHead(input: ByteStream) returns (r: Parsed<Head>)
    modifies input
    ensures r == ReadHead(old(input.bytes))
    ensures r.Got? ==> input.bytes == r.rest
  {
    var id := ReadInt(input);
    if !id.Got? { return Error; }
    var f := input.Read(8);
    if !f.Took? { return Error; }
    var e := input.Read(8);
    if !e.Took? { return Error; }
    var c := input.Read(8);
    if !c.Took? { return Error; }
    var m := input.Read(8);
    if !m.Took? { return Error; }
    var s := input.Read(8);
    if !s.Took? { return Error; }
    r := Got(Head(id.value, f.bytes, e.bytes, c.bytes, m.bytes, s.bytes), s.rest);
  }

  method Decode(input: ByteStream) returns (r: Parsed<Wave>)
    modifies input
    ensures r == DecodeWave(old(input.bytes))
    ensures r.Got? ==> input.bytes == r.rest
  {
    var h := DecodeHead(input);
    if !h.Got? { return Error; }
    var waveLen := ReadInt(input);
    if !waveLen.Got? { return Error; }
    if waveLen.value < 0 { return Panic; }
    var original := ReadPairsLoop(input, waveLen.value);
    if !original.Got? { return Error; }
    var hexLen := ReadInt(input);
    if !hexLen.Got? { return Error; }
    if hexLen.value < 0 { return Panic; }
    var hex := input.Read(hexLen.value);
    if !hex.Took? { return Error; }
    var peaksLen := ReadInt(input);
    if !peaksLen.Got? { return Error; }
    if peaksLen.value < 0 { return Panic; }
    var peaks := ReadPairsLoop(input, peaksLen.value);
    if !peaks.Got? { return Error; }
    r := Got(Assemble(h.value, original.value, hex.bytes, peaks.value), input.bytes);
  }

  // ---------- reading back ----------

  lemma Int32RoundTrip(x: int, rest: Bytes)
    ensures ReadInt32(LE32(Bits32(x)) + rest) == Got(Signed32(Bits32(x)), rest)
    ensures -0x8000_0000 <= x < 0x8000_0000 <==> Signed32(Bits32(x)) == x
  {
    FixedWidthRoundTrip(Bits32(x));
    ReadFullExtends(LE32(Bits32(x)), rest, 4);
    assert LE32(Bits32(x))[..4] == LE32(Bits32(x)) && LE32(Bits32(x))[4..] + rest == rest;
  }

  lemma FloatRoundTrip(f: Float64, rest: Bytes)
    ensures ReadFloat(f + rest) == Got(f, rest)
  {
    assert (f + rest)[..8] == f && (f + rest)[8..] == rest;
  }

  lemma {:induction false} EncodePairsFront(ps: seq<Pair>)
    requires ps != []
    ensures EncodePairs(ps) == ps[0].first + ps[0].second + EncodePairs(ps[1..])
    decreases |ps|
  {
    if |ps| == 1 {
      assert ps[..0] == [] && ps[1..] == [];
    } else {
      var front := ps[..|ps| - 1];
      EncodePairsFront(front);
      var last := ps[|ps| - 1];
      var middle := EncodePairs(front[1..]);
      assert front[1..] == ps[1..][..|ps| - 2] && ps[1..][|ps| - 2] == last;
      assert EncodePairs(ps[1..]) == middle + last.first + last.second;
      assert EncodePairs(ps) == ps[0].first + ps[0].second + middle + last.first + last.second;
    }
  }

  lemma {:induction false} PairRoundTrip(p: Pair, rest: Bytes)
    ensures ReadPair(p.first + p.second + rest) == Got(p, rest)
  {
    assert p.first + p.second + rest == p.first + (p.second + rest);
    FloatRoundTrip(p.first, p.second + rest);
    FloatRoundTrip(p.second, rest);
  }

  lemma ReadPairsCons(b: Bytes, n: nat, p: Pair, tail: Bytes, ps: seq<Pair>, rest: Bytes)
    requires ReadPair(b) == Got(p, tail) && ReadPairs(tail, n) == Got(ps, rest)
    ensures ReadPairs(b, n + 1) == Got([p] + ps, rest)
  {
  }

  lemma {:induction false} PairsRoundTrip(ps: seq<Pair>, rest: Bytes)
    ensures ReadPairs(EncodePairs(ps) + rest, |ps|) == Got(ps, rest)
    decreases |ps|
  {
    if ps == [] {
      assert EncodePairs(ps) + rest == rest;
    } else {
      var p, more := ps[0], ps[1..];
      var body := EncodePairs(more);
      EncodePairsFront(ps);
      assert EncodePairs(ps) + rest == p.first + p.second + (body + rest);
      PairRoundTrip(p, body + rest);
      PairsRoundTrip(more, rest);
      ReadPairsCons(EncodePairs(ps) + rest, |more|, p, body + rest, more, rest);
      assert [p] + more == ps;
    }
  }

  lemma {:induction false} PairListRoundTrip(ps: seq<Pair>, rest: Bytes)
    requires |ps| < 0x8000_0000
    ensures ReadPairList(EncodePairList(ps) + rest) == Got(ps, rest)
  {
    var length, body := LE32(Bits32(|ps|)), EncodePairs(ps);
    assert EncodePairList(ps) + rest == length + (body + rest);
    Int32RoundTrip(|ps|, body + rest);
    PairsRoundTrip(ps, rest);
  }

  lemma {:induction false} TextRoundTrip(t: Bytes, rest: Bytes)
    requires |t| < 0x8000_0000
    ensures ReadText(EncodeText(t) + rest) == Got(t, rest)
  {
    assert EncodeText(t) + rest == LE32(Bits32(|t|)) + (t + rest);
    Int32RoundTrip(|t|, t + rest);
    assert (t + rest)[..|t|] == t && (t + rest)[|t|..] == rest;
  }

  lemma {:induction false} HeadRoundTrip(w: Wave, rest: Bytes)
    ensures ReadHead(EncodeHead(w) + rest)
            == Got(Head(Signed32(Bits32(w.id)), w.dominantFreq, w.totalEnergy, w.compressionRatio, w.mse, w.snr), rest)
  {
    var r5 := w.snr + rest;
    var r4 := w.mse + r5;
    var r3 := w.compressionRatio + r4;
    var r2 := w.totalEnergy + r3;
    var r1 := w.dominantFreq + r2;
    assert EncodeHead(w) + rest == LE32(Bits32(w.id)) + r1;
    Int32RoundTrip(w.id, r1);
    FloatRoundTrip(w.dominantFreq, r2);
    FloatRoundTrip(w.totalEnergy, r3);
    FloatRoundTrip(w.compressionRatio, r4);
    FloatRoundTrip(w.mse, r5);
    FloatRoundTrip(w.snr, rest);
  }

  /** Lengths that an `int32` can carry. */
  predicate Encodable(w: Wave) {
    |w.original| < 0x8000_0000 && |w.hex| < 0x8000_0000 && |w.peaks| < 0x8000_0000
  }

  /** The wave as it comes back: the ID passed through an `int32`. */
  function Narrowed(w: Wave): Wave { w.(id := Signed32(Bits32(w.id))) }

  /** Decoding an encoding returns the wave and leaves exactly what follows it. The ID
      survives if and only if it is in `int32` range. */
  lemma {:induction false} RoundTrip(w: Wave, rest: Bytes)
    requires Encodable(w)
    ensures DecodeWave(EncodeWave(w) + rest) == Got(Narrowed(w), rest)
    ensures Narrowed(w) == w <==> -0x8000_0000 <= w.id < 0x8000_0000
  {
    var r3 := EncodePairList(w.peaks) + rest;
    var r2 := EncodeText(w.hex) + r3;
    var r1 := EncodePairList(w.original) + r2;
    assert EncodeWave(w) + rest == EncodeHead(w) + r1;
    HeadRoundTrip(w, r1);
    PairListRoundTrip(w.original, r2);
    TextRoundTrip(w.hex, r3);
    PairListRoundTrip(w.peaks, rest);
    Int32RoundTrip(w.id, []);
  }

  /** Waves whose ID and lengths are all in `int32` range. */
  predicate InRange(w: Wave) { Encodable(w) && -0x8000_0000 <= w.id < 0x8000_0000 }

  lemma {:induction false} PairsLength(b: Bytes, n: nat)
    ensures ReadPairs(b, n).Got? ==> |ReadPairs(b, n).value| == n
    decreases n
  {
    if n > 0 && ReadPair(b).Got? {
      PairsLength(ReadPair(b).rest, n - 1);
    }
  }

  lemma {:induction false} PairListLength(b: Bytes)
    ensures ReadPairList(b).Got? ==> |ReadPairList(b).value| < 0x8000_0000
  {
    var n := ReadInt32(b);
    if n.Got? && n.value >= 0 {
      PairsLength(n.rest, n.value);
    }
  }

  /** Whatever the decoder accepts is in range. */
  lemma {:induction false} DecodedInRange(b: Bytes)
    ensures DecodeWave(b).Got? ==> InRange(DecodeWave(b).value)
  {
    var h := ReadHead(b);
    if h.Got? {
      PairListLength(h.rest);
      var o := ReadPairList(h.rest);
      if o.Got? && ReadText(o.rest).Got? {
        PairListLength(ReadText(o.rest).rest);
      }
    }
  }

  /** A wave comes back as itself if and only if its ID and its lengths are in range. */
  lemma {:induction false} RoundTripsIffInRange(w: Wave, rest: Bytes)
    ensures DecodeWave(EncodeWave(w) + rest) == Got(w, rest) <==> InRange(w)
  {
    if InRange(w) {
      RoundTrip(w, rest);
    }
    DecodedInRange(EncodeWave(w) + rest);
  }

  function EncodeMany(ws: seq<Wave>): Bytes {
    if ws == [] then [] else EncodeWave(ws[0]) + EncodeMany(ws[1..])
  }

  function DecodeMany(b: Bytes, n: nat): Parsed<seq<Wave>>
    decreases n
  {
    if n == 0 then Got([], b)
    else
      var w := DecodeWave(b);
      if w.Panic? then Panic else if w.Error? then Error
      else
        var ws := DecodeMany(w.rest, n - 1);
        if ws.Panic? then Panic else if ws.Error? then Error else Got([w.value] + ws.value, ws.rest)
  }

  /** The whole input is the list of waves.  The quantifier has one instance; it only keeps
      `DecodeMany` folded in proofs that do not look inside. */
  ghost predicate DecodesTo(b: Bytes, ws: seq<Wave>) {
    forall n :: n == |ws| ==> DecodeMany(b, n) == Got(ws, [])
  }

  lemma {:induction false} DecodesToStep(b: Bytes, w: Wave, rest: Bytes, ws: seq<Wave>)
    requires DecodeWave(b) == Got(w, rest) && DecodesTo(rest, ws)
    ensures DecodesTo(b, [w] + ws)
  {
    assert DecodeMany(rest, |ws|) == Got(ws, []);
    assert DecodeMany(b, |ws| + 1) == Got([w] + ws, []);
  }

  /** One more encoding in front. */
  lemma {:induction false} DecodesToCons(w: Wave, b: Bytes, ws: seq<Wave>)
    requires InRange(w) && DecodesTo(b, ws)
    ensures DecodesTo(EncodeWave(w) + b, [w] + ws)
  {
    RoundTrip(w, b);
    DecodesToStep(EncodeWave(w) + b, w, b, ws);
  }

  lemma {:induction false} EncodeManyCons(w: Wave, ws: seq<Wave>)
    ensures EncodeMany([w] + ws) == EncodeWave(w) + EncodeMany(ws)
  {
    assert ([w] + ws)[1..] == ws;
  }

  lemma {:induction false} ListStep(w: Wave, ws: seq<Wave>)
    requires InRange(w) && DecodesTo(EncodeMany(ws), ws)
    ensures DecodesTo(EncodeMany([w] + ws), [w] + ws)
  {
    DecodesToCons(w, EncodeMany(ws), ws);
    EncodeManyCons(w, ws);
  }

  lemma {:induction false} ListDecodes(ws: seq<Wave>)
    requires forall i :: 0 <= i < |ws| ==> InRange(ws[i])
    ensures DecodesTo(EncodeMany(ws), ws)
    decreases |ws|
  {
    if ws == [] {
      assert DecodeMany([], 0) == Got([], []);
    } else {
      ListDecodes(ws[1..]);
      ListStep(ws[0], ws[1..]);
      assert [ws[0]] + ws[1..] == ws;
    }
  }

  /** Any list of waves, encoded back to back, decodes to itself and uses every byte. */
  lemma {:induction false} ListRoundTrip(ws: seq<Wave>)
    requires forall i :: 0 <= i < |ws| ==> InRange(ws[i])
    ensures DecodeMany(EncodeMany(ws), |ws|) == Got(ws, [])
  {
    ListDecodes(ws);
  }

  // ---------- when decoding panics ----------

  /** The length field at an offset, if all of it is there. */
  function LengthAt(b: Bytes, offset: nat): Option<int> {
    if offset + 4 <= |b| then Some(Signed32(FromLE32(b[offset..offset + 4]))) else None
  }

  /** A length field is there and negative. */
  predicate NegativeAt(b: Bytes, offset: nat) {
    LengthAt(b, offset).Some? && LengthAt(b, offset).value < 0
  }

  predicate PresentAt(b: Bytes, offset: nat) {
    LengthAt(b, offset).Some? && LengthAt(b, offset).value >= 0
  }

  const HEAD_SIZE: nat := 44

  function SecondLength(b: Bytes): nat
    requires PresentAt(b, HEAD_SIZE)
  {
    HEAD_SIZE + 4 + 16 * LengthAt(b, HEAD_SIZE).value
  }

  function ThirdLength(b: Bytes): nat
    requires PresentAt(b, HEAD_SIZE) && PresentAt(b, SecondLength(b))
  {
    SecondLength(b) + 4 + LengthAt(b, SecondLength(b)).value
  }

  lemma {:induction false} HeadSize(b: Bytes)
    ensures ReadHead(b).Got? <==> HEAD_SIZE <= |b|
    ensures ReadHead(b).Got? ==> ReadHead(b).rest == b[HEAD_SIZE..]
  {
    if 4 <= |b| {
      FloatsSize(b[4..]);
      assert HEAD_SIZE <= |b| ==> b[4..][40..] == b[HEAD_SIZE..];
    }
  }

  /** Five floats in a row. */
  lemma {:induction false} FloatsSize(b: Bytes)
    ensures 40 <= |b| <==> 8 <= |b| && 8 <= |b[8..]| && 8 <= |b[8..][8..]|
                           && 8 <= |b[8..][8..][8..]| && 8 <= |b[8..][8..][8..][8..]|
    ensures 40 <= |b| ==> b[8..][8..][8..][8..][8..] == b[40..]
  {
  }

  lemma {:induction false} PairsSize(b: Bytes, n: nat)
    ensures ReadPairs(b, n).Got? <==> 16 * n <= |b|
    ensures ReadPairs(b, n).Got? ==> ReadPairs(b, n).rest == b[16 * n..]
    ensures !ReadPairs(b, n).Panic?
    decreases n
  {
    if n > 0 && 16 <= |b| {
      assert b[8..][8..] == b[16..];
      PairsSize(b[16..], n - 1);
      assert 16 * n <= |b| ==> b[16..][16 * (n - 1)..] == b[16 * n..];
    }
  }

  lemma {:induction false} LengthShift(b: Bytes, offset: nat)
    requires offset <= |b|
    ensures ReadInt32(b[offset..]).Got? <==> LengthAt(b, offset).Some?
    ensures LengthAt(b, offset).Some? ==>
              ReadInt32(b[offset..]) == Got(LengthAt(b, offset).value, b[offset + 4..])
  {
    if offset + 4 <= |b| {
      assert b[offset..][..4] == b[offset..offset + 4] && b[offset..][4..] == b[offset + 4..];
    }
  }

  lemma {:induction false} PairListAt(b: Bytes, offset: nat)
    requires offset <= |b|
    ensures ReadPairList(b[offset..]).Panic? <==> NegativeAt(b, offset)
    ensures ReadPairList(b[offset..]).Got? <==>
              PresentAt(b, offset) && offset + 4 + 16 * LengthAt(b, offset).value <= |b|
    ensures ReadPairList(b[offset..]).Got? ==>
              ReadPairList(b[offset..]).rest == b[offset + 4 + 16 * LengthAt(b, offset).value..]
  {
    LengthShift(b, offset);
    if PresentAt(b, offset) {
      var n := LengthAt(b, offset).value;
      PairsSize(b[offset + 4..], n);
      assert 16 * n <= |b[offset + 4..]| ==> b[offset + 4..][16 * n..] == b[offset + 4 + 16 * n..];
    }
  }

  lemma {:induction false} TextAt(b: Bytes, offset: nat)
    requires offset <= |b|
    ensures ReadText(b[offset..]).Panic? <==> NegativeAt(b, offset)
    ensures ReadText(b[offset..]).Got? <==> PresentAt(b, offset) && offset + 4 + LengthAt(b, offset).value <= |b|
    ensures ReadText(b[offset..]).Got? ==> ReadText(b[offset..]).rest == b[offset + 4 + LengthAt(b, offset).value..]
  {
    LengthShift(b, offset);
    if PresentAt(b, offset) {
      var n := LengthAt(b, offset).value;
      assert n <= |b[offset + 4..]| ==> b[offset + 4..][n..] == b[offset + 4 + n..];
    }
  }

  /** One of the three length fields, at the offset the earlier ones give it, is there and negative. */
  predicate HasNegativeLength(b: Bytes) {
    || NegativeAt(b, HEAD_SIZE)
    || (PresentAt(b, HEAD_SIZE)
        && (|| NegativeAt(b, SecondLength(b))
            || (PresentAt(b, SecondLength(b)) && NegativeAt(b, ThirdLength(b)))))
  }

  /** Where `DecodeWave` panics, reader by reader. */
  lemma {:induction false} PanicSteps(b: Bytes)
    ensures var h := ReadHead(b);
            DecodeWave(b).Panic? <==>
              h.Got? && (var o := ReadPairList(h.rest);
                         o.Panic? || (o.Got? && (var x := ReadText(o.rest);
                                                 x.Panic? || (x.Got? && ReadPairList(x.rest).Panic?))))
  {
  }

  lemma {:induction false} PanicsAfterPairs(b: Bytes)
    requires PresentAt(b, HEAD_SIZE) && SecondLength(b) <= |b|
    ensures var second := SecondLength(b);
            var x := ReadText(b[second..]);
            (x.Panic? || (x.Got? && ReadPairList(x.rest).Panic?))
            <==> NegativeAt(b, second) || (PresentAt(b, second) && NegativeAt(b, ThirdLength(b)))
  {
    TextAt(b, SecondLength(b));
    if PresentAt(b, SecondLength(b)) && ThirdLength(b) <= |b| {
      PairListAt(b, ThirdLength(b));
    }
  }

  lemma {:induction false} PanicsAfterHead(b: Bytes)
    requires HEAD_SIZE <= |b|
    ensures var o := ReadPairList(b[HEAD_SIZE..]);
            (o.Panic? || (o.Got? && (var x := ReadText(o.rest);
                                     x.Panic? || (x.Got? && ReadPairList(x.rest).Panic?))))
            <==> HasNegativeLength(b)
  {
    PairListAt(b, HEAD_SIZE);
    if PresentAt(b, HEAD_SIZE) && SecondLength(b) <= |b| {
      PanicsAfterPairs(b);
    }
  }

  /** Decoding panics if and only if the input has a negative length field where one is read. */
  lemma {:induction false} PanicsIffNegativeLength(b: Bytes)
    ensures DecodeWave(b).Panic? <==> HasNegativeLength(b)
  {
    PanicSteps(b);
    HeadSize(b);
    if HEAD_SIZE <= |b| {
      PanicsAfterHead(b);
    }
  }

  /** Any 44 bytes followed by four bytes of ones, the length -1, make the decoder panic. */
  lemma {:induction false} MinusOnePanics(head: Bytes, rest: Bytes)
    requires |head| == HEAD_SIZE
    ensures DecodeWave(head + [255, 255, 255, 255] + rest).Panic?
  {
    var b := head + [255, 255, 255, 255] + rest;
    assert b[HEAD_SIZE..HEAD_SIZE + 4] == [255, 255, 255, 255];
    PanicsIffNegativeLength(b);
  }

  // ---------- no encoding is a prefix of another ----------

  lemma IntExtends(b: Bytes, x: Bytes)
    requires ReadInt32(b).Got?
    ensures ReadInt32(b + x) == Got(ReadInt32(b).value, ReadInt32(b).rest + x)
  {
    ReadFullExtends(b, x, 4);
  }

  lemma FloatExtends(b: Bytes, x: Bytes)
    requires ReadFloat(b).Got?
    ensures ReadFloat(b + x) == Got(ReadFloat(b).value, ReadFloat(b).rest + x)
  {
    ReadFullExtends(b, x, 8);
  }

  lemma {:induction false} PairsExtend(b: Bytes, x: Bytes, n: nat)
    requires ReadPairs(b, n).Got?
    ensures ReadPairs(b + x, n) == Got(ReadPairs(b, n).value, ReadPairs(b, n).rest + x)
    decreases n
  {
    if n > 0 {
      FloatExtends(b, x);
      FloatExtends(ReadFloat(b).rest, x);
      PairsExtend(ReadPair(b).rest, x, n - 1);
    }
  }

  lemma {:induction false} PairListExtends(b: Bytes, x: Bytes)
    requires !ReadPairList(b).Error?
    ensures ReadPairList(b).Panic? ==> ReadPairList(b + x).Panic?
    ensures ReadPairList(b).Got? ==> ReadPairList(b + x) == Got(ReadPairList(b).value, ReadPairList(b).rest + x)
  {
    IntExtends(b, x);
    var n := ReadInt32(b);
    if n.value >= 0 {
      PairsExtend(n.rest, x, n.value);
    }
  }

  lemma {:induction false} TextExtends(b: Bytes, x: Bytes)
    requires !ReadText(b).Error?
    ensures ReadText(b).Panic? ==> ReadText(b + x).Panic?
    ensures ReadText(b).Got? ==> ReadText(b + x) == Got(ReadText(b).value, ReadText(b).rest + x)
  {
    IntExtends(b, x);
    var n := ReadInt32(b);
    if n.value >= 0 {
      ReadFullExtends(n.rest, x, n.value);
    }
  }

  lemma {:induction false} HeadExtends(b: Bytes, x: Bytes)
    requires ReadHead(b).Got?
    ensures ReadHead(b + x) == Got(ReadHead(b).value, ReadHead(b).rest + x)
  {
    IntExtends(b, x);
    var b1 := ReadInt32(b).rest;
    FloatExtends(b1, x);
    var b2 := ReadFloat(b1).rest;
    FloatExtends(b2, x);
    var b3 := ReadFloat(b2).rest;
    FloatExtends(b3, x);
    var b4 := ReadFloat(b3).rest;
    FloatExtends(b4, x);
    FloatExtends(ReadFloat(b4).rest, x);
  }

  /** More input never changes a decoding that did not run out of bytes. */
  lemma {:induction false} DecodeExtends(b: Bytes, x: Bytes)
    requires !DecodeWave(b).Error?
    ensures DecodeWave(b).Panic? ==> DecodeWave(b + x).Panic?
    ensures DecodeWave(b).Got? ==> DecodeWave(b + x) == Got(DecodeWave(b).value, DecodeWave(b).rest + x)
  {
    HeadExtends(b, x);
    var b1 := ReadHead(b).rest;
    PairListExtends(b1, x);
    if ReadPairList(b1).Got? {
      var b2 := ReadPairList(b1).rest;
      TextExtends(b2, x);
      if ReadText(b2).Got? {
        PairListExtends(ReadText(b2).rest, x);
      }
    }
  }

  /** Input that decodes to its last byte has no prefix that decodes or panics. */
  lemma {:induction false} CutInputFails(b: Bytes, k: nat)
    requires DecodeWave(b).Got? && DecodeWave(b).rest == [] && k < |b|
    ensures DecodeWave(b[..k]) == Error
  {
    var front, back := b[..k], b[k..];
    assert front + back == b;
    if !DecodeWave(front).Error? {
      DecodeExtends(front, back);
      assert false;
    }
  }

  /** A strict prefix of an encoding does not decode: it is an error, not a panic and not another wave. */
  lemma {:induction false} StrictPrefixFails(w: Wave, k: nat)
    requires Encodable(w) && k < |EncodeWave(w)|
    ensures DecodeWave(EncodeWave(w)[..k]) == Error
  {
    RoundTrip(w, []);
    assert EncodeWave(w) + [] == EncodeWave(w);
    CutInputFails(EncodeWave(w), k);
  }
}
