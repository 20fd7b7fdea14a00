/** The Haar wavelet step over exact reals, and the lossy pipeline that thresholds its coefficients. */
module Haar {

  datatype Complex = Complex(re: real, im: real)

  /** Go's panics are outcomes: an odd length runs off the slice, an empty one has no maximum. */
  datatype Outcome =
    | Processed(coeffs: seq<real>, transformed: seq<Complex>)
    | Panicked

  /** `math.Sqrt2`, exactly. */
  predicate Root2(s: real) { s > 0.0 && s * s == 2.0 }

  function Abs(x: real): real { if x < 0.0 then -x else x }

  predicate Even(xs: seq<real>) { |xs| == 2 * (|xs| / 2) }

  // ---------- the transform and its inverse ----------

  function SumAt(d: seq<real>, s: real, j: nat): real
    requires Even(d) && s > 0.0 && j < |d| / 2
  {
    (d[2 * j] + d[2 * j + 1]) / s
  }

  function DifferenceAt(d: seq<real>, s: real, j: nat): real
    requires Even(d) && s > 0.0 && j < |d| / 2
  {
    (d[2 * j] - d[2 * j + 1]) / s
  }

  function Transformed(d: seq<real>, s: real): (c: seq<real>)
    requires Even(d) && s > 0.0
    ensures |c| == |d|
  {
    var h := |d| / 2;
    seq(h, j requires 0 <= j < h => SumAt(d, s, j)) + seq(h, j requires 0 <= j < h => DifferenceAt(d, s, j))
  }

  lemma TransformedAt(d: seq<real>, s: real, j: nat)
    requires Even(d) && s > 0.0 && j < |d| / 2
    ensures Transformed(d, s)[j] == (d[2 * j] + d[2 * j + 1]) / s
    ensures Transformed(d, s)[|d| / 2 + j] == (d[2 * j] - d[2 * j + 1]) / s
  {
  }

  /** One output of the inverse: the odd element out of an odd length stays zero. */
  function InverseAt(c: seq<real>, s: real, k: nat): real
    requires s > 0.0 && k < |c|
  {
    var h, j := |c| / 2, k / 2;
    if j == h then 0.0 else if k == 2 * j then (c[j] + c[h + j]) / s else (c[j] - c[h + j]) / s
  }

  lemma InverseAtPair(c: seq<real>, s: real, j: nat)
    requires s > 0.0 && j < |c| / 2
    ensures InverseAt(c, s, 2 * j) == (c[j] + c[|c| / 2 + j]) / s
    ensures InverseAt(c, s, 2 * j + 1) == (c[j] - c[|c| / 2 + j]) / s
  {
  }

  function Inverse(c: seq<real>, s: real): (d: seq<real>)
    requires s > 0.0
    ensures |d| == |c|
  {
    seq(|c|, k requires 0 <= k < |c| => InverseAt(c, s, k))
  }

  method Transform(data: array<real>, s: real) returns (ok: bool, coeffs: array<real>)
    requires s > 0.0
    ensures fresh(coeffs)
    ensures ok <==> Even(data[..])
    ensures ok ==> coeffs[..] == Transformed(data[..], s)
  {
    var n := data.Length;
    coeffs := new real[n];
    var i := 0;
    ghost var d, j := data[..], 0;
    while i < n
      invariant i == 2 * j && i <= n
      invariant Even(d) ==> forall k :: 0 <= k < j ==> coeffs[k] == SumAt(d, s, k)
      invariant Even(d) ==> forall k :: n / 2 <= k < n / 2 + j ==> coeffs[k] == DifferenceAt(d, s, k - n / 2)
    {
      if i + 1 >= n {
        return false, coeffs;
      }
      coeffs[i / 2] := (data[i] + data[i + 1]) / s;
      coeffs[n / 2 + i / 2] := (data[i] - data[i + 1]) / s;
      i := i + 2;
      j := j + 1;
    }
    ok := true;
    assert coeffs[..] == Transformed(d, s);
  }

  method InverseTransform(coeffs: array<real>, s: real) returns (data: array<real>)
    requires s > 0.0
    ensures fresh(data)
    ensures data[..] == Inverse(coeffs[..], s)
  {
    var n := coeffs.Length;
    data := new real[n](_ => 0.0);
    ghost var c := coeffs[..];
    for i := 0 to n / 2
      invariant forall k :: 0 <= k < 2 * i ==> data[k] == InverseAt(c, s, k)
      invariant forall k :: 2 * i <= k < n ==> data[k] == 0.0
    {
      data[2 * i] := (coeffs[i] + coeffs[n / 2 + i]) / s;
      data[2 * i + 1] := (coeffs[i] - coeffs[n / 2 + i]) / s;
      InverseAtPair(c, s, i);
    }
    assert forall k :: 2 * (n / 2) <= k < n ==> InverseAt(c, s, k) == 0.0;
  }

  lemma PairInverse(a: real, b: real, s: real)
    requires Root2(s)
    ensures ((a + b) / s + (a - b) / s) / s == a && ((a + b) / s - (a - b) / s) / s == b
  {
    var p, q := (a + b) / s, (a - b) / s;
    assert p * s == a + b && q * s == a - b;
    assert (p + q) * s == 2.0 * a == a * s * s;
    assert (p - q) * s == 2.0 * b == b * s * s;
    Cancel(p + q, a * s, s);
    Cancel(p - q, b * s, s);
  }

  lemma Cancel(x: real, y: real, s: real)
    requires s > 0.0 && x * s == y * s
    ensures x == y
  {
    assert (x - y) * s == 0.0;
  }

  /** The inverse undoes the transform on every even length. */
  lemma {:induction false} InverseUndoesTransform(d: seq<real>, s: real)
    requires Even(d) && Root2(s)
    ensures Inverse(Transformed(d, s), s) == d
  {
    var c := Transformed(d, s);
    forall k | 0 <= k < |d| ensures Inverse(c, s)[k] == d[k] {
      var j := k / 2;
      TransformedAt(d, s, j);
      PairInverse(d[2 * j], d[2 * j + 1], s);
      assert k == 2 * j || k == 2 * j + 1;
    }
  }

  lemma InversePair(c: seq<real>, s: real, j: nat)
    requires Even(c) && s > 0.0 && j < |c| / 2
    ensures Inverse(c, s)[2 * j] == (c[j] + c[|c| / 2 + j]) / s
    ensures Inverse(c, s)[2 * j + 1] == (c[j] - c[|c| / 2 + j]) / s
  {
  }

  lemma {:induction false} TransformUndoesInverseAt(c: seq<real>, s: real, j: nat)
    requires Even(c) && Root2(s) && j < |c| / 2
    ensures Transformed(Inverse(c, s), s)[j] == c[j]
    ensures Transformed(Inverse(c, s), s)[|c| / 2 + j] == c[|c| / 2 + j]
  {
    InversePair(c, s, j);
    TransformedAt(Inverse(c, s), s, j);
    PairInverse(c[j], c[|c| / 2 + j], s);
  }

  /** And the transform undoes the inverse: nothing is lost either way. */
  lemma {:induction false} TransformUndoesInverse(c: seq<real>, s: real)
    requires Even(c) && Root2(s)
    ensures Transformed(Inverse(c, s), s) == c
  {
    var back, h := Transformed(Inverse(c, s), s), |c| / 2;
    forall k | 0 <= k < |c| ensures back[k] == c[k] {
      TransformUndoesInverseAt(c, s, if k < h then k else k - h);
    }
  }

  // ---------- energy ----------

  function Energy(xs: seq<real>): (e: real)
    ensures e >= 0.0
  {
    if xs == [] then 0.0 else Energy(xs[..|xs| - 1]) + Square(xs[|xs| - 1])
  }

  function Square(x: real): (r: real)
    ensures r >= 0.0
  {
    x * x
  }

  lemma PairEnergy(a: real, b: real, s: real)
    requires Root2(s)
    ensures Square((a + b) / s) + Square((a - b) / s) == Square(a) + Square(b)
  {
    var p, q := (a + b) / s, (a - b) / s;
    assert p * s == a + b && q * s == a - b;
    assert p * p * (s * s) == (p * s) * (p * s);
    assert q * q * (s * s) == (q * s) * (q * s);
    assert (a + b) * (a + b) + (a - b) * (a - b) == 2.0 * (a * a + b * b);
  }

  lemma EnergySnoc(xs: seq<real>, i: nat)
    requires i < |xs|
    ensures Energy(xs[..i + 1]) == Energy(xs[..i]) + Square(xs[i])
  {
    assert xs[..i + 1][..i] == xs[..i];
  }

  lemma {:induction false} EnergySplit(xs: seq<real>, ys: seq<real>)
    ensures Energy(xs + ys) == Energy(xs) + Energy(ys)
    decreases |ys|
  {
    if ys == [] {
      assert xs + ys == xs;
    } else {
      var front := ys[..|ys| - 1];
      EnergySplit(xs, front);
      assert (xs + ys)[..|xs + ys| - 1] == xs + front;
    }
  }

  /** The pair of outputs `j` carries the energy of its two coefficients. */
  predicate PairKept(d: seq<real>, lo: seq<real>, hi: seq<real>, j: nat)
    requires |d| == 2 * |lo| && |lo| == |hi|
  {
    j < |lo| ==> Square(d[2 * j]) + Square(d[2 * j + 1]) == Square(lo[j]) + Square(hi[j])
  }

  lemma {:induction false} PrefixEnergy(d: seq<real>, lo: seq<real>, hi: seq<real>, j: nat)
    requires |d| == 2 * |lo| && |lo| == |hi| && j <= |lo|
    requires forall i: nat :: PairKept(d, lo, hi, i)
    ensures Energy(d[..2 * j]) == Energy(lo[..j]) + Energy(hi[..j])
    decreases j
  {
    if j > 0 {
      var i := j - 1;
      PrefixEnergy(d, lo, hi, i);
      EnergySnoc(d, 2 * i);
      EnergySnoc(d, 2 * i + 1);
      EnergySnoc(lo, i);
      EnergySnoc(hi, i);
      assert PairKept(d, lo, hi, i);
    }
  }

  /** The inverse is an isometry. */
  lemma {:induction false} InverseKeepsEnergy(c: seq<real>, s: real)
    requires Even(c) && Root2(s)
    ensures Energy(Inverse(c, s)) == Energy(c)
  {
    var h, d := |c| / 2, Inverse(c, s);
    var lo, hi := c[..h], c[h..];
    forall i: nat ensures PairKept(d, lo, hi, i) {
      if i < h {
        InversePair(c, s, i);
        PairEnergy(c[i], c[h + i], s);
      }
    }
    PrefixEnergy(d, lo, hi, h);
    EnergySplit(lo, hi);
    assert d[..2 * h] == d && lo[..h] == lo && hi[..h] == hi && lo + hi == c;
  }

  lemma {:induction false} TransformKeepsEnergy(d: seq<real>, s: real)
    requires Even(d) && Root2(s)
    ensures Energy(Transformed(d, s)) == Energy(d)
  {
    InverseUndoesTransform(d, s);
    InverseKeepsEnergy(Transformed(d, s), s);
  }

  // ---------- thresholding ----------

  function Largest(xs: seq<real>): (m: real)
    requires xs != []
    ensures m in xs && forall x :: x in xs ==> x <= m
  {
    if |xs| == 1 then xs[0]
    else
      var m := Largest(xs[1..]);
      assert forall x :: x in xs ==> x == xs[0] || x in xs[1..];
      if xs[0] > m then xs[0] else m
  }

  function Smallest(xs: seq<real>): (m: real)
    requires xs != []
    ensures m in xs && forall x :: x in xs ==> m <= x
  {
    if |xs| == 1 then xs[0]
    else
      var m := Smallest(xs[1..]);
      assert forall x :: x in xs ==> x == xs[0] || x in xs[1..];
      if xs[0] < m then xs[0] else m
  }

  /** The larger magnitude of the two extremes. */
  function Peak(c: seq<real>): (p: real)
    requires c != []
    ensures p >= 0.0
  {
    var hi, lo := Largest(c), Smallest(c);
    if Abs(hi) >= Abs(lo) then Abs(hi) else Abs(lo)
  }

  /** It is the largest magnitude of all, and one of the coefficients has it. */
  lemma PeakAt(c: seq<real>) returns (i: nat)
    requires c != []
    ensures i < |c| && Abs(c[i]) == Peak(c)
    ensures forall x :: x in c ==> Abs(x) <= Peak(c)
  {
    var hi, lo := Largest(c), Smallest(c);
    i :| i < |c| && c[i] == if Abs(hi) >= Abs(lo) then hi else lo;
  }

  function Threshold(c: seq<real>): (t: real)
    requires c != []
    ensures t >= 0.0
  {
    0.005 * Peak(c)
  }

  function Kept(x: real, t: real): real { if Abs(x) < t then 0.0 else x }

  function Thresholded(c: seq<real>, t: real): (r: seq<real>)
    ensures |r| == |c|
  {
    seq(|c|, i requires 0 <= i < |c| => Kept(c[i], t))
  }

  method ApplyThreshold(coeffs: array<real>, threshold: real)
    modifies coeffs
    ensures coeffs[..] == Thresholded(old(coeffs[..]), threshold)
  {
    for i := 0 to coeffs.Length
      invariant forall k :: 0 <= k < i ==> coeffs[k] == Kept(old(coeffs[k]), threshold)
      invariant forall k :: i <= k < coeffs.Length ==> coeffs[k] == old(coeffs[k])
    {
      if Abs(coeffs[i]) < threshold {
        coeffs[i] := 0.0;
      }
    }
  }

  function Reals(wave: seq<Complex>): (d: seq<real>)
    ensures |d| == |wave|
  {
    seq(|wave|, i requires 0 <= i < |wave| => wave[i].re)
  }

  function Coefficients(d: seq<real>, s: real): (c: seq<real>)
    requires d != [] && Even(d) && s > 0.0
    ensures |c| == |d|
  {
    var c := Transformed(d, s);
    Thresholded(c, Threshold(c))
  }

  /** The pipeline, with the lossless packing of the coefficients taken as the identity. */
  method ProcessWave(wave: seq<Complex>, s: real) returns (r: Outcome)
    requires s > 0.0
    ensures r.Processed? <==> wave != [] && Even(Reals(wave))
    ensures r.Processed? ==> r.coeffs == Coefficients(Reals(wave), s)
                             && Reals(r.transformed) == Inverse(r.coeffs, s)
                             && forall i :: 0 <= i < |r.transformed| ==> r.transformed[i].im == 0.0
  {
    var waveReal := new real[|wave|];
    for i := 0 to |wave|
      invariant forall k :: 0 <= k < i ==> waveReal[k] == wave[k].re
    {
      waveReal[i] := wave[i].re;
    }
    assert waveReal[..] == Reals(wave);
    var ok, coeffs := Transform(waveReal, s);
    if !ok || coeffs.Length == 0 {
      return Panicked;
    }
    ApplyThreshold(coeffs, Threshold(coeffs[..]));
    var back := InverseTransform(coeffs, s);
    var transformed := seq(back.Length, i requires 0 <= i < back.Length reads back => Complex(back[i], 0.0));
    assert Reals(transformed) == back[..];
    r := Processed(coeffs[..], transformed);
  }

  /**
   What the pipeline keeps.  With `peak` the largest magnitude among the transform's coefficients,
   one smaller than 0.005 of it becomes zero and every other one stays as it is.
   */
  lemma {:induction false} CoefficientKept(d: seq<real>, s: real, peak: real, i: nat)
    requires d != [] && Even(d) && s > 0.0 && i < |d|
    requires var c := Transformed(d, s);
             (exists j :: 0 <= j < |c| && Abs(c[j]) == peak) && forall j :: 0 <= j < |c| ==> Abs(c[j]) <= peak
    ensures var x := Transformed(d, s)[i];
            Coefficients(d, s)[i] == if (if x < 0.0 then -x else x) < 0.005 * peak then 0.0 else x
  {
    var c := Transformed(d, s);
    var j := PeakAt(c);
    assert c[j] in c && Abs(c[j]) <= peak;
    var k :| 0 <= k < |c| && Abs(c[k]) == peak;
    assert c[k] in c;
  }

  /** The energy of the coefficients below a threshold. */
  function EnergyBelow(c: seq<real>, t: real): real {
    if c == [] then 0.0
    else
      var x := c[|c| - 1];
      EnergyBelow(c[..|c| - 1], t) + if -t < x < t then x * x else 0.0
  }

  /** Thresholding removes exactly the energy of the coefficients below the threshold. */
  lemma {:induction false} RemovedIsBelow(c: seq<real>, t: real)
    ensures Energy(Minus(c, Thresholded(c, t))) == EnergyBelow(c, t)
    decreases |c|
  {
    if c != [] {
      var front, x := c[..|c| - 1], c[|c| - 1];
      RemovedIsBelow(front, t);
      var gone := Minus(c, Thresholded(c, t));
      assert gone[..|c| - 1] == Minus(front, Thresholded(front, t));
      assert gone[|c| - 1] == if Abs(x) < t then x else 0.0;
    }
  }

  // ---------- the error of a reconstruction ----------

  function Minus(xs: seq<real>, ys: seq<real>): (zs: seq<real>)
    requires |xs| == |ys|
    ensures |zs| == |xs|
  {
    seq(|xs|, i requires 0 <= i < |xs| => xs[i] - ys[i])
  }

  lemma DivMinus(x: real, y: real, s: real)
    requires s > 0.0
    ensures x / s - y / s == (x - y) / s
  {
    assert x / s * s == x && y / s * s == y;
    Cancel(x / s - y / s, (x - y) / s, s);
  }

  /** The inverse is linear. */
  lemma {:induction false} InverseOfMinus(b: seq<real>, c: seq<real>, s: real)
    requires |b| == |c| && s > 0.0
    ensures Minus(Inverse(b, s), Inverse(c, s)) == Inverse(Minus(b, c), s)
  {
    var h := |b| / 2;
    forall k | 0 <= k < |b| ensures InverseAt(b, s, k) - InverseAt(c, s, k) == InverseAt(Minus(b, c), s, k) {
      var j := k / 2;
      if j < h {
        DivMinus(b[j] + b[h + j], c[j] + c[h + j], s);
        DivMinus(b[j] - b[h + j], c[j] - c[h + j], s);
      }
    }
  }

  /** How many coefficients the threshold zeroes. */
  function Dropped(c: seq<real>, t: real): (n: nat)
    ensures n <= |c|
  {
    if c == [] then 0 else Dropped(c[..|c| - 1], t) + if Abs(c[|c| - 1]) < t then 1 else 0
  }

  lemma SquareMonotone(x: real, t: real)
    requires Abs(x) <= t
    ensures Square(x) <= Square(t)
  {
    assert Abs(x) * Abs(x) <= t * t;
  }

  /** The product of `n` and `q`, as a sum. */
  function Times(n: nat, q: real): real {
    if n == 0 then 0.0 else Times(n - 1, q) + q
  }

  lemma {:induction false} TimesIsProduct(n: nat, q: real)
    ensures Times(n, q) == n as real * q
  {
    if n > 0 {
      TimesIsProduct(n - 1, q);
      assert n as real * q == (n - 1) as real * q + q;
    }
  }

  lemma {:induction false} TimesMonotone(m: nat, n: nat, p: real, q: real)
    requires m <= n && 0.0 <= p <= q
    ensures 0.0 <= Times(m, p) <= Times(n, q)
  {
    if n > 0 {
      TimesMonotone(if m == n then m - 1 else m, n - 1, p, q);
    }
  }

  /** What thresholding takes away, at most `q` a dropped coefficient. */
  lemma {:induction false} DroppedEnergy(c: seq<real>, t: real, q: real)
    requires q >= 0.0 && forall i :: 0 <= i < |c| && Abs(c[i]) < t ==> Square(c[i]) <= q
    ensures Energy(Minus(c, Thresholded(c, t))) <= Times(Dropped(c, t), q)
    decreases |c|
  {
    if c != [] {
      var front, x := c[..|c| - 1], c[|c| - 1];
      DroppedEnergy(front, t, q);
      var gone := Minus(c, Thresholded(c, t));
      assert gone[..|c| - 1] == Minus(front, Thresholded(front, t));
      assert gone[|c| - 1] == if Abs(x) < t then x else 0.0;
    }
  }

  lemma {:induction false} KeptNotDropped(c: seq<real>, t: real, i: nat)
    requires i < |c| && Abs(c[i]) >= t
    ensures Dropped(c, t) < |c|
    decreases |c|
  {
    if i < |c| - 1 {
      KeptNotDropped(c[..|c| - 1], t, i);
    }
  }

  lemma {:induction false} TermInEnergy(xs: seq<real>, i: nat)
    requires i < |xs|
    ensures Square(xs[i]) <= Energy(xs)
    decreases |xs|
  {
    if i < |xs| - 1 {
      TermInEnergy(xs[..|xs| - 1], i);
    }
  }

  /** The reconstruction the pipeline ends with. */
  function Reconstructed(d: seq<real>, s: real): (r: seq<real>)
    requires d != [] && Even(d) && s > 0.0
    ensures |r| == |d|
  {
    Inverse(Coefficients(d, s), s)
  }

  /** For any threshold, the squared reconstruction error is exactly the energy that thresholding removed. */
  lemma {:induction false} ErrorIsDroppedEnergy(d: seq<real>, s: real, t: real)
    requires Even(d) && Root2(s)
    ensures var c := Transformed(d, s);
            Energy(Minus(d, Inverse(Thresholded(c, t), s))) == Energy(Minus(c, Thresholded(c, t)))
  {
    var c := Transformed(d, s);
    var k := Thresholded(c, t);
    InverseUndoesTransform(d, s);
    InverseOfMinus(c, k, s);
    InverseKeepsEnergy(Minus(c, k), s);
  }

  /** So the squared error is exactly the energy of the coefficients below the threshold. */
  lemma {:induction false} ErrorIsEnergyBelow(d: seq<real>, s: real, t: real)
    requires Even(d) && Root2(s)
    ensures Energy(Minus(d, Inverse(Thresholded(Transformed(d, s), t), s))) == EnergyBelow(Transformed(d, s), t)
  {
    ErrorIsDroppedEnergy(d, s, t);
    RemovedIsBelow(Transformed(d, s), t);
  }

  lemma {:induction false} RemovedTimes(c: seq<real>, t: real, i: nat)
    requires t >= 0.0 && i < |c| && Abs(c[i]) >= t
    ensures Energy(Minus(c, Thresholded(c, t))) <= Times(Dropped(c, t), Square(t))
    ensures Dropped(c, t) <= |c| - 1
  {
    forall i | 0 <= i < |c| && Abs(c[i]) < t ensures Square(c[i]) <= Square(t) {
      SquareMonotone(c[i], t);
    }
    DroppedEnergy(c, t, Square(t));
    KeptNotDropped(c, t, i);
  }

  lemma {:induction false} ThresholdParts(d: seq<real>, s: real, t: real, i: nat) returns (m: nat)
    requires Even(d) && Root2(s) && t >= 0.0 && i < |d| && Abs(Transformed(d, s)[i]) >= t
    ensures m == Dropped(Transformed(d, s), t) <= |d| - 1
    ensures Energy(Minus(d, Inverse(Thresholded(Transformed(d, s), t), s))) <= Times(m, Square(t))
  {
    m := Dropped(Transformed(d, s), t);
    ErrorIsDroppedEnergy(d, s, t);
    RemovedTimes(Transformed(d, s), t, i);
  }

  /** Thresholding removes at most the threshold squared for each dropped coefficient, and
      keeps at least one coefficient if one reaches the threshold. */
  lemma {:induction false} RemovedBound(c: seq<real>, t: real, i: nat)
    requires t >= 0.0 && i < |c| && Abs(c[i]) >= t
    ensures Energy(Minus(c, Thresholded(c, t))) <= Dropped(c, t) as real * Square(t)
    ensures Dropped(c, t) <= |c| - 1
  {
    RemovedTimes(c, t, i);
    TimesIsProduct(Dropped(c, t), Square(t));
  }

  lemma {:induction false} AsProducts(d: seq<real>, r: seq<real>, m: nat, t: real)
    requires d != [] && |r| == |d| && m <= |d| - 1 && Energy(Minus(d, r)) <= Times(m, Square(t))
    ensures Energy(Minus(d, r)) <= m as real * Square(t)
    ensures Energy(Minus(d, r)) <= (|d| - 1) as real * Square(t)
  {
    ProductBound(Energy(Minus(d, r)), m, Square(t), m, Square(t));
    ProductBound(Energy(Minus(d, r)), m, Square(t), |d| - 1, Square(t));
  }

  /**
   For any threshold that some coefficient reaches, the squared reconstruction error is at
   most the threshold squared for each of the `m` dropped coefficients.
   */
  lemma {:induction false} ThresholdError(d: seq<real>, s: real, t: real, i: nat) returns (m: nat)
    requires Even(d) && Root2(s) && t >= 0.0 && i < |d| && Abs(Transformed(d, s)[i]) >= t
    ensures m == Dropped(Transformed(d, s), t) <= |d| - 1
    ensures Energy(Minus(d, Inverse(Thresholded(Transformed(d, s), t), s))) <= m as real * Square(t)
  {
    m := ThresholdParts(d, s, t, i);
    AsProducts(d, Inverse(Thresholded(Transformed(d, s), t), s), m, t);
  }

  lemma {:induction false} ThresholdReached(c: seq<real>) returns (i: nat)
    requires c != []
    ensures i < |c| && Abs(c[i]) >= Threshold(c)
  {
    i := PeakAt(c);
  }

  lemma {:induction false} ReconstructionParts(d: seq<real>, s: real) returns (t: real, m: nat)
    requires d != [] && Even(d) && Root2(s)
    ensures t == Threshold(Transformed(d, s)) && m == Dropped(Transformed(d, s), t) <= |d| - 1
    ensures Energy(Minus(d, Reconstructed(d, s))) <= Times(m, Square(t))
  {
    t := Threshold(Transformed(d, s));
    var i := ThresholdReached(Transformed(d, s));
    m := ThresholdParts(d, s, t, i);
  }

  /**
   The pipeline's squared error is at most its threshold `t` squared for each of the `m`
   dropped coefficients.  The largest coefficient is never dropped, so that is at most
   n - 1 times the threshold squared.
   */
  lemma {:induction false} ReconstructionError(d: seq<real>, s: real) returns (t: real, m: nat)
    requires d != [] && Even(d) && Root2(s)
    ensures t == Threshold(Transformed(d, s)) && m == Dropped(Transformed(d, s), t) <= |d| - 1
    ensures Energy(Minus(d, Reconstructed(d, s))) <= m as real * Square(t)
    ensures Energy(Minus(d, Reconstructed(d, s))) <= (|d| - 1) as real * Square(t)
  {
    t, m := ReconstructionParts(d, s);
    AsProducts(d, Reconstructed(d, s), m, t);
  }

  lemma {:induction false} ThresholdInEnergy(c: seq<real>)
    requires c != []
    ensures Square(Threshold(c)) <= 0.000025 * Energy(c)
  {
    var i := PeakAt(c);
    TermInEnergy(c, i);
    SquareOfPart(c[i]);
  }

  lemma SquareOfPart(x: real)
    ensures Square(0.005 * Abs(x)) == 0.000025 * Square(x)
  {
  }

  lemma {:induction false} ThresholdInSignal(d: seq<real>, s: real)
    requires d != [] && Even(d) && Root2(s)
    ensures Square(Threshold(Transformed(d, s))) <= 0.000025 * Energy(d)
  {
    ThresholdInEnergy(Transformed(d, s));
    TransformKeepsEnergy(d, s);
  }

  lemma {:induction false} ErrorParts(d: seq<real>, s: real) returns (m: nat, p: real)
    requires d != [] && Even(d) && Root2(s)
    ensures Energy(Minus(d, Reconstructed(d, s))) <= Times(m, p)
    ensures m <= |d| - 1 && 0.0 <= p <= 0.000025 * Energy(d)
  {
    var t;
    t, m := ReconstructionParts(d, s);
    p := Square(t);
    ThresholdInSignal(d, s);
  }

  lemma {:induction false} ProductBound(error: real, m: nat, p: real, n: nat, q: real)
    requires error <= Times(m, p) && m <= n && 0.0 <= p <= q
    ensures error <= n as real * q
  {
    TimesMonotone(m, n, p, q);
    TimesIsProduct(n, q);
  }

  lemma {:induction false} ErrorFromParts(d: seq<real>, r: seq<real>, m: nat, p: real)
    requires d != [] && |r| == |d| && Energy(Minus(d, r)) <= Times(m, p)
    requires m <= |d| - 1 && 0.0 <= p <= 0.000025 * Energy(d)
    ensures Energy(Minus(d, r)) <= (|d| - 1) as real * (0.000025 * Energy(d))
  {
    ProductBound(Energy(Minus(d, r)), m, p, |d| - 1, 0.000025 * Energy(d));
  }

  /** So the error is at most (n - 1) / 40000 of the signal's own energy. */
  lemma {:induction false} RelativeError(d: seq<real>, s: real)
    requires d != [] && Even(d) && Root2(s)
    ensures Energy(Minus(d, Reconstructed(d, s))) <= (|d| - 1) as real * (0.000025 * Energy(d))
  {
    var m, p := ErrorParts(d, s);
    ErrorFromParts(d, Reconstructed(d, s), m, p);
  }
}
