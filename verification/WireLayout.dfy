/** Where the bytes lie: the order within a number, and the fields of an encoded wave. */
module WireLayout {
  import opened Common
  import opened ByteStreams
  import opened WaveCodec

  // ---------- the order of bytes ----------

  /** The digits of a number to base 256. */
  lemma {:induction false} Digits(x: Uint32)
    ensures x == 16777216 * (x / 16777216) + x % 16777216
    ensures x % 16777216 == 65536 * (x / 65536 % 256) + x % 65536
    ensures x % 65536 == 256 * (x / 256 % 256) + x % 256
  {
    assert x / 65536 == 256 * (x / 16777216) + x / 65536 % 256;
    assert x / 256 == 256 * (x / 65536) + x / 256 % 256;
  }

  /** Big-endian bytes order numbers like words in a dictionary: the smaller number has the smaller
      byte where the two first differ.  No other assignment of four bytes to numbers does. */
  lemma {:induction false} BigEndianOrders(x: Uint32, y: Uint32) returns (k: nat)
    requires x < y
    ensures k < 4 && BE32(x)[..k] == BE32(y)[..k] && BE32(x)[k] < BE32(y)[k]
  {
    Digits(x);
    Digits(y);
    if x / 16777216 != y / 16777216 {
      k := 0;
    } else if x / 65536 % 256 != y / 65536 % 256 {
      k := 1;
    } else if x / 256 % 256 != y / 256 % 256 {
      k := 2;
    } else {
      k := 3;
    }
  }

  /** Little-endian bytes are the big-endian ones from the other end. */
  lemma {:induction false} LittleEndianReverses(x: Uint32, i: nat)
    requires i < 4
    ensures LE32(x)[i] == BE32(x)[3 - i]
  {
  }

  // ---------- the fields of a wave ----------

  /** The field lies at that offset. */
  ghost predicate At(b: Bytes, offset: nat, field: Bytes) {
    offset + |field| <= |b| && b[offset..offset + |field|] == field
  }

  lemma {:induction false} AtFront(b: Bytes, x: Bytes, offset: nat, field: Bytes)
    requires At(b, offset, field)
    ensures At(b + x, offset, field)
  {
    assert (b + x)[offset..offset + |field|] == b[offset..offset + |field|];
  }

  lemma {:induction false} AtBack(x: Bytes, b: Bytes, offset: nat, field: Bytes)
    requires At(b, offset, field)
    ensures At(x + b, |x| + offset, field)
  {
    assert (x + b)[|x| + offset..|x| + offset + |field|] == b[offset..offset + |field|];
  }

  lemma {:induction false} PairAt(ps: seq<Pair>, i: nat)
    requires i < |ps|
    ensures At(EncodePairs(ps), 16 * i, ps[i].first) && At(EncodePairs(ps), 16 * i + 8, ps[i].second)
    decreases |ps|
  {
    var front, last := ps[..|ps| - 1], ps[|ps| - 1];
    PairsSpan(front);
    var e := EncodePairs(front);
    assert EncodePairs(ps) == e + last.first + last.second;
    if i < |front| {
      PairAt(front, i);
      AtFront(e, last.first, 16 * i, ps[i].first);
      AtFront(e, last.first, 16 * i + 8, ps[i].second);
      AtFront(e + last.first, last.second, 16 * i, ps[i].first);
      AtFront(e + last.first, last.second, 16 * i + 8, ps[i].second);
    }
  }

  lemma {:induction false} PairsSpan(ps: seq<Pair>)
    ensures |EncodePairs(ps)| == 16 * |ps|
  {
    if ps != [] {
      PairsSpan(ps[..|ps| - 1]);
    }
  }

  /** The six fields of fixed size. */
  lemma {:induction false} HeadLayout(w: Wave)
    ensures var b := EncodeHead(w);
            && |b| == 44
            && At(b, 0, LE32(w.id % TWO32)) && At(b, 4, w.dominantFreq) && At(b, 12, w.totalEnergy)
            && At(b, 20, w.compressionRatio) && At(b, 28, w.mse) && At(b, 36, w.snr)
  {
  }

  /** A list lies behind its length, pair by pair. */
  ghost predicate ListAt(b: Bytes, offset: nat, ps: seq<Pair>) {
    && At(b, offset, LE32(|ps| % TWO32))
    && forall i :: 0 <= i < |ps| ==>
         At(b, offset + 4 + 16 * i, ps[i].first) && At(b, offset + 4 + 16 * i + 8, ps[i].second)
  }

  lemma {:induction false} ListLayout(ps: seq<Pair>)
    ensures ListAt(EncodePairList(ps), 0, ps) && |EncodePairList(ps)| == 4 + 16 * |ps|
  {
    var b, length := EncodePairList(ps), LE32(|ps| % TWO32);
    PairsSpan(ps);
    assert b[0..4] == length;
    forall i | 0 <= i < |ps|
      ensures At(b, 4 + 16 * i, ps[i].first) && At(b, 4 + 16 * i + 8, ps[i].second)
    {
      PairAt(ps, i);
      AtBack(length, EncodePairs(ps), 16 * i, ps[i].first);
      AtBack(length, EncodePairs(ps), 16 * i + 8, ps[i].second);
    }
  }

  lemma {:induction false} ListWithin(x: Bytes, b: Bytes, y: Bytes, ps: seq<Pair>)
    requires ListAt(b, 0, ps)
    ensures ListAt(x + b + y, |x|, ps)
  {
    AtBack(x, b, 0, LE32(|ps| % TWO32));
    AtFront(x + b, y, |x|, LE32(|ps| % TWO32));
    forall i | 0 <= i < |ps|
      ensures At(x + b + y, |x| + 4 + 16 * i, ps[i].first) && At(x + b + y, |x| + 4 + 16 * i + 8, ps[i].second)
    {
      PairWithin(x, b, y, 4 + 16 * i, ps[i].first);
      PairWithin(x, b, y, 4 + 16 * i + 8, ps[i].second);
    }
  }

  lemma {:induction false} PairWithin(x: Bytes, b: Bytes, y: Bytes, offset: nat, field: Bytes)
    requires At(b, offset, field)
    ensures At(x + b + y, |x| + offset, field)
  {
    AtBack(x, b, offset, field);
    AtFront(x + b, y, |x| + offset, field);
  }

  /**
   An encoded wave, byte by byte: six fields in the first 44 bytes, then the samples, the text and
   the peaks, each behind its own length, and nothing else.
   */
  lemma {:induction false} Layout(w: Wave)
    ensures var b, samples, text := EncodeWave(w), 48 + 16 * |w.original|, |w.hex|;
            && |b| == samples + 4 + text + 4 + 16 * |w.peaks|
            && At(b, 0, LE32(w.id % TWO32)) && At(b, 4, w.dominantFreq) && At(b, 12, w.totalEnergy)
            && At(b, 20, w.compressionRatio) && At(b, 28, w.mse) && At(b, 36, w.snr)
            && ListAt(b, 44, w.original)
            && At(b, samples, LE32(text % TWO32)) && At(b, samples + 4, w.hex)
            && ListAt(b, samples + 4 + text, w.peaks)
  {
    var h, o, t, p := EncodeHead(w), EncodePairList(w.original), EncodeText(w.hex), EncodePairList(w.peaks);
    Regroup(h, o, t, p);
    Spans(w);
    HeadFields(w, h, o + t + p);
    ListLayout(w.original);
    ListWithin(h, o, t + p, w.original);
    TextWithin(h + o, w.hex, p);
    ListLayout(w.peaks);
    ListWithin(h + o + t, p, [], w.peaks);
  }

  lemma {:induction false} Regroup(h: Bytes, o: Bytes, t: Bytes, p: Bytes)
    ensures h + o + t + p == h + (o + t + p) == h + o + (t + p) == h + o + t + p + []
  {
  }

  lemma {:induction false} Spans(w: Wave)
    ensures |EncodeHead(w)| == 44 && |EncodeText(w.hex)| == 4 + |w.hex|
    ensures |EncodePairList(w.original)| == 4 + 16 * |w.original| && |EncodePairList(w.peaks)| == 4 + 16 * |w.peaks|
  {
    PairsSpan(w.original);
    PairsSpan(w.peaks);
  }

  lemma {:induction false} TextWithin(x: Bytes, text: Bytes, y: Bytes)
    ensures At(x + EncodeText(text) + y, |x|, LE32(|text| % TWO32))
    ensures At(x + EncodeText(text) + y, |x| + 4, text)
  {
    PairWithin(x, EncodeText(text), y, 0, LE32(|text| % TWO32));
    PairWithin(x, EncodeText(text), y, 4, text);
  }

  lemma {:induction false} HeadFields(w: Wave, h: Bytes, x: Bytes)
    requires h == EncodeHead(w)
    ensures At(h + x, 0, LE32(w.id % TWO32)) && At(h + x, 4, w.dominantFreq) && At(h + x, 12, w.totalEnergy)
    ensures At(h + x, 20, w.compressionRatio) && At(h + x, 28, w.mse) && At(h + x, 36, w.snr)
  {
    HeadLayout(w);
    AtFront(h, x, 0, LE32(w.id % TWO32));
    AtFront(h, x, 4, w.dominantFreq);
    AtFront(h, x, 12, w.totalEnergy);
    AtFront(h, x, 20, w.compressionRatio);
    AtFront(h, x, 28, w.mse);
    AtFront(h, x, 36, w.snr);
  }
}
