/** The multi-level Haar wavelet transform of the micro-edge signal processor. */
module HaarWavelet {
  import opened RealMath

  /** `math.sqrt(2)`, exactly. */
  predicate IsRootTwo(s: real) {
    s * s == 2.0
  }

  // ---- One level ----

  /** The low-pass output of a pair of samples. */
  function Low(a: real, b: real, s: real): real
    requires s != 0.0
  {
    (a + b) / s
  }

  /** The high-pass output of a pair of samples. */
  function High(a: real, b: real, s: real): real
    requires s != 0.0
  {
    (a - b) / s
  }

  function Approximation(x: seq<real>, s: real): (r: seq<real>)
    requires s != 0.0
    ensures |r| == |x| / 2
    ensures forall i {:trigger r[i]} :: 0 <= i < |r| ==> r[i] == Low(x[2 * i], x[2 * i + 1], s)
  {
    seq(|x| / 2, i requires 0 <= i < |x| / 2 => Low(x[2 * i], x[2 * i + 1], s))
  }

  function Detail(x: seq<real>, s: real): (r: seq<real>)
    requires s != 0.0
    ensures |r| == |x| / 2
    ensures forall i {:trigger r[i]} :: 0 <= i < |r| ==> r[i] == High(x[2 * i], x[2 * i + 1], s)
  {
    seq(|x| / 2, i requires 0 <= i < |x| / 2 => High(x[2 * i], x[2 * i + 1], s))
  }

  // ---- All levels ----

  /** Detail coefficients level by level, then the final approximation. */
  function Transform(x: seq<real>, levels: int, s: real): (c: seq<seq<real>>)
    requires s != 0.0
    ensures |c| >= 1
    decreases |x|
  {
    if levels <= 0 || |x| < 2 then [x]
    else [Detail(x, s)] + Transform(Approximation(x, s), levels - 1, s)
  }

  /** One pass of the outer loop: all pairs of the current approximation. */
  method SplitLevel(approx: seq<real>, s: real) returns (newApprox: seq<real>, detail: seq<real>)
    requires s != 0.0
    ensures newApprox == Approximation(approx, s) && detail == Detail(approx, s)
  {
    hide Approximation, Detail, Low, High;
    newApprox, detail := [], [];
    for i := 0 to |approx| / 2
      invariant newApprox == Approximation(approx, s)[..i]
      invariant detail == Detail(approx, s)[..i]
    {
      var a, b := approx[2 * i], approx[2 * i + 1];
      newApprox := newApprox + [Low(a, b, s)];
      detail := detail + [High(a, b, s)];
    }
  }

  /** `haar_dwt` */
  method HaarDwt(signal: seq<real>, levels: int, s: real) returns (coefficients: seq<seq<real>>)
    requires IsRootTwo(s)
    ensures coefficients == Transform(signal, levels, s)
  {
    assert s != 0.0;
    hide Approximation, Detail, IsRootTwo;
    coefficients := [];
    var approx := signal;
    var level := 0;
    while level < levels
      invariant coefficients + Transform(approx, levels - level, s) == Transform(signal, levels, s)
    {
      if |approx| < 2 {
        break;
      }
      var newApprox, detail := SplitLevel(approx, s);
      ghost var rest := Transform(newApprox, levels - level - 1, s);
      assert (coefficients + [detail]) + rest == coefficients + ([detail] + rest);
      coefficients := coefficients + [detail];
      approx := newApprox;
      level := level + 1;
    }
    coefficients := coefficients + [approx];
  }

  // ---- Energy ----

  function TotalEnergy(c: seq<seq<real>>): real {
    if c == [] then 0.0 else SumSquares(c[0]) + TotalEnergy(c[1..])
  }

  /** The squares of the samples that fall off the end at levels of odd length. */
  function DroppedEnergy(x: seq<real>, levels: int, s: real): real
    requires s != 0.0
    decreases |x|
  {
    if levels <= 0 || |x| < 2 then 0.0
    else
      var here := if |x| % 2 == 1 then Square(x[|x| - 1]) else 0.0;
      here + DroppedEnergy(Approximation(x, s), levels - 1, s)
  }

  lemma PairEnergy(a: real, b: real, s: real)
    requires IsRootTwo(s)
    ensures Square(Low(a, b, s)) + Square(High(a, b, s)) == Square(a) + Square(b)
  {
    SquareOfQuotient(a + b, s);
    SquareOfQuotient(a - b, s);
  }

  lemma SquareOfQuotient(a: real, s: real)
    requires IsRootTwo(s)
    ensures (a / s) * (a / s) == a * a / 2.0
  {
    var q := a / s;
    assert a == q * s;
    assert a * a == (q * q) * (s * s);
  }

  lemma {:induction false} LevelEnergy(x: seq<real>, s: real)
    requires s != 0.0 && IsRootTwo(s)
    ensures SumSquares(x) == SumSquares(Approximation(x, s)) + SumSquares(Detail(x, s))
                       + (if |x| % 2 == 1 then Square(x[|x| - 1]) else 0.0)
  {
    SumSquaresCons(0.0, []);
    hide SumSquares, Approximation, Detail, Square, Low, High, IsRootTwo;
    if |x| >= 2 {
      var t := x[2..];
      var a, d := Low(x[0], x[1], s), High(x[0], x[1], s);
      LevelEnergy(t, s);
      PairEnergy(x[0], x[1], s);
      assert Approximation(x, s) == [a] + Approximation(t, s);
      assert Detail(x, s) == [d] + Detail(t, s);
      assert x == [x[0]] + ([x[1]] + t);
      SumSquaresCons(a, Approximation(t, s));
      SumSquaresCons(d, Detail(t, s));
      SumSquaresCons(x[0], [x[1]] + t);
      SumSquaresCons(x[1], t);
    } else if |x| == 1 {
      assert x == [x[0]] + [];
      SumSquaresCons(x[0], []);
    }
  }

  /** No level creates or loses energy except for the samples dropped at odd lengths. */
  lemma {:induction false} EnergyConserved(x: seq<real>, levels: int, s: real)
    requires IsRootTwo(s)
    ensures TotalEnergy(Transform(x, levels, s)) == SumSquares(x) - DroppedEnergy(x, levels, s)
    decreases |x|
  {
    if levels <= 0 || |x| < 2 {
      assert TotalEnergy([x]) == SumSquares(x) + TotalEnergy([]);
    } else {
      var rest := Transform(Approximation(x, s), levels - 1, s);
      LevelEnergy(x, s);
      EnergyConserved(Approximation(x, s), levels - 1, s);
      assert ([Detail(x, s)] + rest)[1..] == rest;
    }
  }

  // ---- Reconstruction ----

  /** Undo one level: each pair (a, d) gives back two samples. */
  function Merge(a: seq<real>, d: seq<real>, s: real): (x: seq<real>)
    requires s != 0.0
  {
    if a == [] || d == [] then []
    else [Low(a[0], d[0], s), High(a[0], d[0], s)] + Merge(a[1..], d[1..], s)
  }

  function Inverse(c: seq<seq<real>>, s: real): (x: seq<real>)
    requires s != 0.0 && |c| >= 1
  {
    if |c| == 1 then c[0] else Merge(Inverse(c[1..], s), c[0], s)
  }

  /** How many leading samples survive the levels. */
  function Kept(n: nat, levels: int): (k: nat)
    ensures k <= n
    decreases n
  {
    if levels <= 0 || n < 2 then n else 2 * Kept(n / 2, levels - 1)
  }

  lemma PairRestored(a: real, b: real, s: real)
    requires IsRootTwo(s)
    ensures Low(Low(a, b, s), High(a, b, s), s) == a
    ensures High(Low(a, b, s), High(a, b, s), s) == b
  {
    var p, q := (a + b) / s, (a - b) / s;
    assert p * s == a + b && q * s == a - b;
    QuotientBySquare(p + q, a, s);
    QuotientBySquare(p - q, b, s);
  }

  lemma QuotientBySquare(p: real, a: real, s: real)
    requires IsRootTwo(s) && p * s == 2.0 * a
    ensures p / s == a
  {
    var q := p / s;
    assert p == q * s;
    assert p * s == q * (s * s);
  }

  /** Merging the first k approximations with the details restores the first 2k samples. */
  lemma {:induction false} MergeRestores(x: seq<real>, k: nat, s: real)
    requires IsRootTwo(s) && k <= |x| / 2
    ensures Merge(Approximation(x, s)[..k], Detail(x, s), s) == x[..2 * k]
  {
    hide Approximation, Detail, Low, High;
    if k > 0 {
      var a, d := Approximation(x, s), Detail(x, s);
      MergeRestores(x[2..], k - 1, s);
      assert a[..k][1..] == Approximation(x[2..], s)[..k - 1];
      assert d[1..] == Detail(x[2..], s);
      PairRestored(x[0], x[1], s);
      assert x[..2 * k] == [x[0], x[1]] + x[2..][..2 * (k - 1)];
    }
  }

  lemma {:induction false} InverseIsPrefix(x: seq<real>, levels: int, s: real)
    requires IsRootTwo(s)
    ensures Inverse(Transform(x, levels, s), s) == x[..Kept(|x|, levels)]
    decreases |x|
  {
    hide Approximation, Detail, Low, High, Merge;
    if levels > 0 && |x| >= 2 {
      var a := Approximation(x, s);
      var rest := Transform(a, levels - 1, s);
      InverseIsPrefix(a, levels - 1, s);
      MergeRestores(x, Kept(|a|, levels - 1), s);
      assert Transform(x, levels, s)[1..] == rest;
    }
  }

  function PowerOfTwo(k: nat): (p: nat)
    ensures p >= 1
  {
    if k == 0 then 1 else 2 * PowerOfTwo(k - 1)
  }

  lemma {:induction false} KeptAll(x: seq<real>, levels: int, s: real)
    requires s != 0.0
    ensures Kept(|x|, levels) == |x| <==> |x| % PowerOfTwo(|Transform(x, levels, s)| - 1) == 0
    decreases |x|
  {
    hide Approximation, Detail, Low, High;
    if levels > 0 && |x| >= 2 {
      var a := Approximation(x, s);
      var p := PowerOfTwo(|Transform(a, levels - 1, s)| - 1);
      KeptAll(a, levels - 1, s);
      DoubledDivisor(|x|, p);
    }
  }

  lemma DoubledDivisor(n: nat, p: nat)
    requires p >= 1
    ensures n % (2 * p) == 0 <==> n % 2 == 0 && (n / 2) % p == 0
  {
    if n % (2 * p) == 0 {
      var q := n / (2 * p);
      assert n == 2 * (p * q);
      assert n / 2 == p * q;
      MultipleHasNoRemainder(p, q);
    }
    if n % 2 == 0 && (n / 2) % p == 0 {
      var q := (n / 2) / p;
      assert n == (2 * p) * q;
      MultipleHasNoRemainder(2 * p, q);
    }
  }

  lemma MultipleHasNoRemainder(p: nat, q: nat)
    requires p >= 1
    ensures (p * q) % p == 0
  {
    var r, t := (p * q) % p, (p * q) / p;
    assert r == p * (q - t);
    if q - t >= 1 {
      ProductAtLeast(p, q - t);
    } else if q - t <= -1 {
      ProductAtLeast(p, t - q);
    }
  }

  lemma ProductAtLeast(p: nat, k: int)
    requires p >= 1 && k >= 1
    ensures p * k >= p
  {
  }

  /** The inverse transform returns the signal exactly when its length divides by 2 once for every level computed. */
  lemma ReconstructionExact(x: seq<real>, levels: int, s: real)
    requires IsRootTwo(s)
    ensures var c := Transform(x, levels, s);
            Inverse(c, s) == x <==> |x| % PowerOfTwo(|c| - 1) == 0
  {
    InverseIsPrefix(x, levels, s);
    KeptAll(x, levels, s);
    if Kept(|x|, levels) == |x| {
      assert x[..|x|] == x;
    }
  }

  // ---- Which levels there are, and what they hold ----

  function Power(s: real, l: nat): (p: real) {
    if l == 0 then 1.0 else Times(s, Power(s, l - 1))
  }

  lemma HalfOfQuotient(n: nat, p: nat)
    requires p >= 1
    ensures n / p / 2 == n / (2 * p)
  {
    var q := n / p / 2;
    assert n / p == 2 * q || n / p == 2 * q + 1;
    var r := n - (2 * p) * q;
    assert r == n % p + p * (n / p - 2 * q);
    assert 0 <= r < 2 * p;
    QuotientIs(n, 2 * p, q, r);
  }

  lemma QuotientIs(n: nat, p: nat, q: int, r: int)
    requires p >= 1 && n == p * q + r && 0 <= r < p
    ensures n / p == q
  {
    var d := n / p - q;
    assert p * d == r - n % p;
    if d >= 1 {
      ProductAtLeast(p, d);
    } else if d <= -1 {
      ProductAtLeast(p, -d);
    }
  }

  /**
   * The number of levels is the greatest that is requested and whose blocks still fit into the signal:
   * no level at all, or 2^level samples.
   */
  lemma {:induction false} LevelCount(x: seq<real>, levels: int, s: real, l: nat)
    requires s != 0.0
    ensures l < |Transform(x, levels, s)| <==> l == 0 || (l <= levels && PowerOfTwo(l) <= |x|)
    decreases |x|
  {
    hide Approximation, Detail;
    if l > 0 {
      assert PowerOfTwo(l) == 2 * PowerOfTwo(l - 1);
      if levels > 0 && |x| >= 2 {
        LevelCount(Approximation(x, s), levels - 1, s, l - 1);
        assert PowerOfTwo(0) == 1;
      }
    }
  }

  /** The sum of n samples from an index on. */
  function BlockSum(x: seq<real>, from: nat, n: nat): real
    requires from + n <= |x|
  {
    if n == 0 then 0.0 else BlockSum(x, from, n - 1) + x[from + n - 1]
  }

  lemma {:induction false} BlockJoin(x: seq<real>, from: nat, m: nat, n: nat)
    requires from + m + n <= |x|
    ensures BlockSum(x, from, m) + BlockSum(x, from + m, n) == BlockSum(x, from, m + n)
  {
    if n > 0 {
      BlockJoin(x, from, m, n - 1);
    }
  }

  /** Entry i sums a block of 2^l samples, over s^l. */
  ghost predicate IsBlockSums(a: seq<real>, x: seq<real>, l: nat, s: real) {
    var p := PowerOfTwo(l);
    && |a| == |x| / p
    && forall i :: 0 <= i < |a| ==> IsBlockSum(a[i], x, i, p, Power(s, l))
  }

  ghost predicate IsBlockSum(v: real, x: seq<real>, i: nat, p: nat, scale: real) {
    (i + 1) * p <= |x| && Times(v, scale) == BlockSum(x, i * p, p)
  }

  /** Entry i is the first half of a block of 2^l samples less its second half, over s^l. */
  ghost predicate IsBlockDifferences(d: seq<real>, x: seq<real>, l: nat, s: real)
    requires l >= 1
  {
    var h := PowerOfTwo(l - 1);
    && |d| == |x| / (2 * h)
    && forall i :: 0 <= i < |d| ==> IsBlockDifference(d[i], x, i, h, Power(s, l))
  }

  ghost predicate IsBlockDifference(v: real, x: seq<real>, i: nat, h: nat, scale: real) {
    && (i + 1) * (2 * h) <= |x|
    && Times(v, scale) == BlockSum(x, i * (2 * h), h) - BlockSum(x, i * (2 * h) + h, h)
  }

  lemma PairOfBlocks(a: real, b: real, x: seq<real>, i: nat, p: nat, scale: real, s: real)
    requires s != 0.0 && IsBlockSum(a, x, 2 * i, p, scale) && IsBlockSum(b, x, 2 * i + 1, p, scale)
    ensures IsBlockSum(Low(a, b, s), x, i, 2 * p, Times(s, scale))
    ensures IsBlockDifference(High(a, b, s), x, i, p, Times(s, scale))
  {
    assert (2 * i + 1) * p == i * (2 * p) + p && (2 * i) * p == i * (2 * p);
    assert (2 * i + 1 + 1) * p == (i + 1) * (2 * p) == i * (2 * p) + p + p;
    BlockJoin(x, i * (2 * p), p, p);
    Unscale(a + b, s, scale);
    Unscale(a - b, s, scale);
    SumTimes(a, b, scale);
  }

  lemma Unscale(v: real, s: real, scale: real)
    requires s != 0.0
    ensures Times(v / s, Times(s, scale)) == Times(v, scale)
  {
    var q := v / s;
    assert q * s == v;
    assert q * (s * scale) == (q * s) * scale;
  }

  lemma SumTimes(a: real, b: real, scale: real)
    ensures Times(a + b, scale) == Times(a, scale) + Times(b, scale)
    ensures Times(a - b, scale) == Times(a, scale) - Times(b, scale)
  {
  }

  lemma NextLevel(a: seq<real>, x: seq<real>, l: nat, s: real)
    requires s != 0.0 && IsBlockSums(a, x, l, s)
    ensures IsBlockSums(Approximation(a, s), x, l + 1, s)
    ensures IsBlockDifferences(Detail(a, s), x, l + 1, s)
  {
    hide IsBlockSum, IsBlockDifference, Low, High, Times;
    var p := PowerOfTwo(l);
    HalfOfQuotient(|x|, p);
    assert PowerOfTwo(l + 1) == 2 * p && Power(s, l + 1) == Times(s, Power(s, l));
    forall i | 0 <= i < |a| / 2
      ensures IsBlockSum(Approximation(a, s)[i], x, i, 2 * p, Power(s, l + 1))
      ensures IsBlockDifference(Detail(a, s)[i], x, i, p, Power(s, l + 1))
    {
      assert IsBlockSum(a[2 * i], x, 2 * i, p, Power(s, l)) && IsBlockSum(a[2 * i + 1], x, 2 * i + 1, p, Power(s, l));
      PairOfBlocks(a[2 * i], a[2 * i + 1], x, i, p, Power(s, l), s);
    }
  }

  lemma {:induction false} LevelsFrom(a: seq<real>, x: seq<real>, m: nat, levels: int, s: real)
    requires s != 0.0 && IsBlockSums(a, x, m, s)
    ensures var c := Transform(a, levels, s);
            && (forall l :: 0 <= l < |c| - 1 ==> IsBlockDifferences(c[l], x, m + l + 1, s))
            && IsBlockSums(c[|c| - 1], x, m + |c| - 1, s)
    decreases |a|
  {
    hide IsBlockSums, IsBlockDifferences, Approximation, Detail;
    if levels > 0 && |a| >= 2 {
      var rest := Transform(Approximation(a, s), levels - 1, s);
      NextLevel(a, x, m, s);
      LevelsFrom(Approximation(a, s), x, m + 1, levels - 1, s);
      var c := Transform(a, levels, s);
      assert c == [Detail(a, s)] + rest;
      forall l | 0 <= l < |c| - 1 ensures IsBlockDifferences(c[l], x, m + l + 1, s) {
        if l > 0 {
          assert c[l] == rest[l - 1];
        }
      }
      assert c[|c| - 1] == rest[|rest| - 1];
    }
  }

  /**
   * In terms of the samples: the l-th detail level has one entry for every whole block of 2^l samples, the first half of the
   * block less the second; the approximation has one for every block of the last level, its sum. Both are over s^l.
   */
  lemma CoefficientsAre(x: seq<real>, levels: int, s: real)
    requires IsRootTwo(s)
    ensures var c := Transform(x, levels, s);
            && (forall l :: 0 <= l < |c| - 1 ==> IsBlockDifferences(c[l], x, l + 1, s))
            && IsBlockSums(c[|c| - 1], x, |c| - 1, s)
  {
    hide IsBlockSums, IsBlockDifferences;
    SamplesAreBlocks(x, s);
    LevelsFrom(x, x, 0, levels, s);
    var c := Transform(x, levels, s);
    forall l | 0 <= l < |c| - 1 ensures IsBlockDifferences(c[l], x, l + 1, s) {
      assert IsBlockDifferences(c[l], x, 0 + l + 1, s);
    }
  }

  lemma SamplesAreBlocks(x: seq<real>, s: real)
    ensures IsBlockSums(x, x, 0, s)
  {
    forall i | 0 <= i < |x| ensures IsBlockSum(x[i], x, i, 1, Power(s, 0)) {
      assert BlockSum(x, i, 1) == BlockSum(x, i, 0) + x[i];
    }
  }

  // ---- Mean energy per level ----

  function MeanEnergy(level: seq<real>): real {
    if level == [] then 0.0 else SumSquares(level) / |level| as real
  }

  /** `wavelet_energy`: the mean of the squares at every level. */
  function WaveletEnergy(c: seq<seq<real>>): (e: seq<real>) {
    seq(|c|, i requires 0 <= i < |c| => MeanEnergy(c[i]))
  }

  /** Sum of the level energies, each weighted with its number of coefficients. */
  function WeightedSum(e: seq<real>, c: seq<seq<real>>): real
    requires |e| == |c|
  {
    if e == [] then 0.0 else e[0] * |c[0]| as real + WeightedSum(e[1..], c[1..])
  }

  lemma {:induction false} WeightedLevelEnergy(c: seq<seq<real>>)
    ensures WeightedSum(WaveletEnergy(c), c) == TotalEnergy(c)
  {
    if c != [] {
      WeightedLevelEnergy(c[1..]);
      assert WaveletEnergy(c)[1..] == WaveletEnergy(c[1..]);
      var n := |c[0]| as real;
      assert MeanEnergy(c[0]) * n == SumSquares(c[0]) by {
        if n > 0.0 {
          assert SumSquares(c[0]) / n * n == SumSquares(c[0]);
        }
      }
    }
  }

  /** The reported level energies account for the whole signal up to the dropped samples. */
  lemma WaveletEnergyConserved(x: seq<real>, levels: int, s: real)
    requires IsRootTwo(s)
    ensures var c := Transform(x, levels, s);
            WeightedSum(WaveletEnergy(c), c) == SumSquares(x) - DroppedEnergy(x, levels, s)
  {
    WeightedLevelEnergy(Transform(x, levels, s));
    EnergyConserved(x, levels, s);
  }
}
