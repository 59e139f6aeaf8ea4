/** Three ways the edge node computes a variance: two passes, Welford's running form, and a sliding window. */
module SampleStatistics {
  import opened Collections
  import opened RealMath
  import opened SampleRing

  function Sum(x: seq<real>): real {
    if x == [] then 0.0 else Sum(x[..|x| - 1]) + x[|x| - 1]
  }

  /** `sum((v - mean) ** 2 for v in x)` */
  function SquaredDeviations(x: seq<real>, mean: real): (r: real)
    ensures r >= 0.0
  {
    if x == [] then 0.0
    else
      SquareNonNegative(x[|x| - 1] - mean);
      SquaredDeviations(x[..|x| - 1], mean) + Square(x[|x| - 1] - mean)
  }

  function Mean(x: seq<real>): real
    requires x != []
  {
    Sum(x) / |x| as real
  }

  /** The two-pass variance of `FeatureExtractor.extract`. */
  function TwoPassVariance(x: seq<real>): (v: real)
    ensures v >= 0.0
  {
    if |x| > 1 then
      QuotientNonNegative(SquaredDeviations(x, Mean(x)), |x| as real);
      SquaredDeviations(x, Mean(x)) / |x| as real
    else 0.0
  }

  lemma QuotientNonNegative(a: real, b: real)
    requires a >= 0.0 && b > 0.0
    ensures a / b >= 0.0
  {
  }

  // ---- Deviations from any centre ----

  lemma {:induction false} SumSquaresLast(x: seq<real>, v: real)
    ensures SumSquares(x + [v]) == SumSquares(x) + Square(v)
  {
    hide Square;
    if x == [] {
      SumSquaresCons(v, []);
      assert [] + [v] == [v] + [];
    } else {
      SumSquaresLast(x[1..], v);
      assert x + [v] == [x[0]] + (x[1..] + [v]) && x == [x[0]] + x[1..];
      SumSquaresCons(x[0], x[1..] + [v]);
      SumSquaresCons(x[0], x[1..]);
    }
  }

  /** sum (v - m)^2 = sum v^2 - 2 m sum v + n m^2 */
  lemma {:induction false} DeviationsExpand(x: seq<real>, m: real)
    ensures SquaredDeviations(x, m) == SumSquares(x) - 2.0 * Times(m, Sum(x)) + Times(|x| as real, Square(m))
  {
    if x != [] {
      var front, last := x[..|x| - 1], x[|x| - 1];
      DeviationsExpand(front, m);
      SumSquaresLast(front, last);
      assert x == front + [last];
      ExpandOne(m, last, Sum(front), |front| as real);
    }
  }

  lemma ExpandOne(m: real, v: real, s: real, n: real)
    ensures Square(v - m) == Square(v) - 2.0 * Times(m, v) + Square(m)
    ensures Times(m, s + v) == Times(m, s) + Times(m, v)
    ensures Times(n + 1.0, Square(m)) == Times(n, Square(m)) + Square(m)
    ensures Times(m, 0.0) == 0.0 && Times(0.0, Square(m)) == 0.0
  {
  }

  /** About the mean the cross terms collapse. */
  lemma DeviationsAboutMean(x: seq<real>, m: real)
    requires Times(|x| as real, m) == Sum(x)
    ensures SquaredDeviations(x, m) == SumSquares(x) - Times(m, Sum(x))
  {
    DeviationsExpand(x, m);
    MeanSquare(|x| as real, m, Sum(x));
  }

  lemma MeanSquare(n: real, m: real, s: real)
    requires Times(n, m) == s
    ensures Times(n, Square(m)) == Times(m, s)
  {
    assert n * (m * m) == m * (n * m);
  }

  // ---- Welford's recurrence ----

  /** Mean and squared deviations after any stream of samples, as Welford's recurrence leaves them. */
  ghost predicate RunningMoments(x: seq<real>, mean: real, m2: real) {
    Times(|x| as real, mean) == Sum(x) && m2 == SquaredDeviations(x, mean)
  }

  /** One step of Welford's recurrence, in the order the code performs it. */
  lemma WelfordStep(x: seq<real>, v: real, mean: real, m2: real, delta: real, mean': real, delta2: real, m2': real)
    requires RunningMoments(x, mean, m2)
    requires delta == v - mean && mean' == mean + delta / (|x| as real + 1.0)
    requires delta2 == v - mean' && m2' == m2 + Times(delta, delta2)
    ensures RunningMoments(x + [v], mean', m2')
  {
    var y, n, s := x + [v], |x| as real, Sum(x);
    assert y[..|x|] == x;
    SumSquaresLast(x, v);
    assert |y| as real == n + 1.0 && Sum(y) == s + v && SumSquares(y) == SumSquares(x) + Square(v);
    DeviationsAboutMean(x, mean);
    NewMean(n, mean, v, delta, mean', s);
    DeviationsAboutMean(y, mean');
    hide Times, Sum, SquaredDeviations, SumSquares, Square;
    WelfordIdentity(n, s, mean, v, mean', delta, delta2);
  }

  lemma NewMean(n: real, mean: real, v: real, delta: real, mean': real, s: real)
    requires n >= 0.0 && Times(n, mean) == s && delta == v - mean && mean' == mean + delta / (n + 1.0)
    ensures Times(n + 1.0, mean') == s + v
  {
    var q := delta / (n + 1.0);
    assert q * (n + 1.0) == delta;
    assert (n + 1.0) * (mean + q) == n * mean + mean + q * (n + 1.0);
  }

  lemma WelfordIdentity(n: real, s: real, mean: real, v: real, mean': real, delta: real, delta2: real)
    requires Times(n, mean) == s && Times(n + 1.0, mean') == s + v && delta == v - mean && delta2 == v - mean'
    ensures Times(delta, delta2) - Times(mean, s) == Square(v) - Times(mean', s + v)
  {
    var p, k := mean, mean';
    CrossProduct(n + 1.0, p, k, s + v);
    assert (n + 1.0) * p == s + p;
    assert (v - p) * (v - k) == v * v - v * k - p * v + p * k;
    assert p * (s + v) == p * s + p * v;
    assert k * (s + p) == k * s + k * p;
    assert k * (s + v) == k * s + k * v;
  }

  lemma CrossProduct(m: real, p: real, k: real, t: real)
    requires Times(m, k) == t
    ensures p * t == k * (m * p)
  {
    assert p * (m * k) == k * (m * p);
  }

  lemma NoMoments()
    ensures RunningMoments([], 0.0, 0.0)
  {
  }

  // ---- All three agree ----

  /** Welford's variance, the sum/sum-of-squares variance and the two-pass variance are one number. */
  lemma VariancesAgree(x: seq<real>, mean: real, m2: real)
    requires |x| > 1 && RunningMoments(x, mean, m2)
    ensures m2 / |x| as real == TwoPassVariance(x)
    ensures SumSquares(x) / |x| as real - Square(Sum(x) / |x| as real) == TwoPassVariance(x)
  {
    var n, s, q := |x| as real, Sum(x), SumSquares(x);
    hide Sum, SquaredDeviations, SumSquares;
    MeanIsQuotient(n, mean, s);
    DeviationsAboutMean(x, mean);
    MeanSquare(n, mean, s);
    SplitQuotient(q, Times(mean, s), n, Square(mean));
  }

  lemma MeanIsQuotient(n: real, mean: real, s: real)
    requires n > 0.0 && Times(n, mean) == s
    ensures s / n == mean
  {
  }

  lemma SplitQuotient(q: real, t: real, n: real, w: real)
    requires n > 0.0 && Times(n, w) == t
    ensures (q - t) / n == q / n - w
  {
    var a := q / n;
    assert a * n == q;
    assert (a - w) * n == q - t;
  }

  /** Reading the samples backwards, as the analysis window does, changes no sum. */
  lemma {:induction false} ReversalInvariant(x: seq<real>, m: real)
    ensures Sum(Reversed(x)) == Sum(x) && SquaredDeviations(Reversed(x), m) == SquaredDeviations(x, m)
  {
    if x != [] {
      var t := x[1..];
      ReversalInvariant(t, m);
      assert Reversed(x) == Reversed(t) + [x[0]];
      assert (Reversed(t) + [x[0]])[..|t|] == Reversed(t);
      SumsFromFront(x, m);
    }
  }

  lemma {:induction false} SumsFromFront(x: seq<real>, m: real)
    requires x != []
    ensures Sum(x) == x[0] + Sum(x[1..])
    ensures SquaredDeviations(x, m) == Square(x[0] - m) + SquaredDeviations(x[1..], m)
  {
    if |x| > 1 {
      var front := x[..|x| - 1];
      SumsFromFront(front, m);
      assert x[1..][..|x| - 2] == front[1..];
    }
  }

  lemma WindowVariance(x: seq<real>)
    ensures TwoPassVariance(Reversed(x)) == TwoPassVariance(x)
  {
    ReversalInvariant(x, if x == [] then 0.0 else Mean(x));
  }

  // ---- The running statistics of one sensor ----

  function Least(x: seq<real>): Option<real> {
    if x == [] then None
    else
      var rest, last := Least(x[..|x| - 1]), x[|x| - 1];
      if rest == None || last < rest.value then Some(last) else rest
  }

  function Greatest(x: seq<real>): Option<real> {
    if x == [] then None
    else
      var rest, last := Greatest(x[..|x| - 1]), x[|x| - 1];
      if rest == None || rest.value < last then Some(last) else rest
  }

  lemma ExtremesStep(x: seq<real>, v: real)
    ensures Least(x + [v]) == if Least(x) == None || v < Least(x).value then Some(v) else Least(x)
    ensures Greatest(x + [v]) == if Greatest(x) == None || Greatest(x).value < v then Some(v) else Greatest(x)
  {
    assert (x + [v])[..|x|] == x;
  }

  lemma {:induction false} LeastGreatestBound(x: seq<real>)
    requires x != []
    ensures Least(x).Some? && Least(x).value in x && forall v :: v in x ==> Least(x).value <= v
    ensures Greatest(x).Some? && Greatest(x).value in x && forall v :: v in x ==> v <= Greatest(x).value
  {
    var front, last := x[..|x| - 1], x[|x| - 1];
    assert x == front + [last];
    if front != [] {
      LeastGreatestBound(front);
    }
  }

  /** `SensorChannel`: a ring of samples and Welford's moments since the last reset. */
  class SensorChannel {
    const ring: RingBuffer
    const windowSamples: int
    var n: nat
    var mean: real
    var m2: real
    var min: Option<real>  // None stands for +inf
    var max: Option<real>  // None stands for -inf
    ghost var samples: seq<real>  // ingested since the last reset

    constructor (capacity: nat, windowSamples: int)
      requires capacity >= 1
      ensures Valid() && samples == [] && ring.history == [] && fresh(ring) && fresh(ring.buf)
    {
      ring := new RingBuffer(capacity);
      this.windowSamples := windowSamples;
      n, mean, m2, min, max, samples := 0, 0.0, 0.0, None, None, [];
      new;
      NoMoments();
    }

    ghost predicate Valid()
      reads this, ring, ring.buf
    {
      && ring.Valid()
      && n == |samples| && RunningMoments(samples, mean, m2)
      && min == Least(samples) && max == Greatest(samples)
    }

    /** The statistics half of `ingest`. */
    method Absorb(value: real)
      requires Valid()
      modifies this
      ensures Valid() && samples == old(samples) + [value]
    {
      hide RunningMoments, Least, Greatest;
      ghost var x, mean0, m20 := samples, mean, m2;
      n := n + 1;
      var delta := value - mean;
      mean := mean + delta / n as real;
      var delta2 := value - mean;
      m2 := m2 + delta * delta2;
      min := if min == None || value < min.value then Some(value) else min;
      max := if max == None || max.value < value then Some(value) else max;
      samples := samples + [value];
      WelfordStep(x, value, mean0, m20, delta, mean, delta2, m2);
      ExtremesStep(x, value);
    }

    /** `ingest` */
    method Ingest(value: real)
      requires Valid()
      modifies this, ring, ring.buf
      ensures Valid() && samples == old(samples) + [value] && ring.history == old(ring.history) + [value]
    {
      ring.Push(value);
      Absorb(value);
    }

    /** `ingest_batch`: the same samples, the same statistics and the same ring as one `ingest` per value. */
    method IngestBatch(values: seq<real>)
      requires Valid()
      modifies this, ring, ring.buf
      ensures Valid() && samples == old(samples) + values && ring.history == old(ring.history) + values
    {
      ring.PushBatch(values);
      for i := 0 to |values|
        invariant Valid() && samples == old(samples) + values[..i] && ring.history == old(ring.history) + values
      {
        Absorb(values[i]);
        assert values[..i + 1] == values[..i] + [values[i]];
      }
      assert values[..|values|] == values;
    }

    /** `variance`: the two-pass variance of everything since the reset. */
    function Variance(): (v: real)
      requires Valid()
      reads this, ring, ring.buf
      ensures v == TwoPassVariance(samples) >= 0.0
    {
      if n > 1 then
        VariancesAgree(samples, mean, m2);
        m2 / n as real
      else 0.0
    }

    /** `reset_stats` */
    method ResetStats()
      requires Valid()
      modifies this
      ensures Valid() && samples == [] && ring.history == old(ring.history)
    {
      n, mean, m2, min, max, samples := 0, 0.0, 0.0, None, None, [];
      NoMoments();
    }
  }

  // ---- The sliding window ----

  lemma SumsSlide(w: seq<real>, v: real)
    ensures Sum(w + [v]) == Sum(w) + v && SumSquares(w + [v]) == SumSquares(w) + Square(v)
    ensures w != [] ==> Sum(w[1..]) == Sum(w) - w[0] && SumSquares(w[1..]) == SumSquares(w) - Square(w[0])
  {
    hide Square;
    assert (w + [v])[..|w|] == w;
    SumSquaresLast(w, v);
    if w != [] {
      assert w == [w[0]] + w[1..];
      SumSquaresCons(w[0], w[1..]);
      SumsFromFront(w, 0.0);
    }
  }

  /** `SlidingWindowStats`: sums kept up to date as values enter and leave. */
  class SlidingWindowStats {
    const capacity: nat
    var window: seq<real>
    var sum: real
    var sumSq: real
    ghost var history: seq<real>

    constructor (capacity: nat)
      requires capacity >= 1
      ensures Valid() && history == [] && this.capacity == capacity
    {
      this.capacity := capacity;
      window, sum, sumSq, history := [], 0.0, 0.0, [];
    }

    ghost predicate Valid()
      reads this
    {
      capacity >= 1 && window == LastN(history, capacity) && sum == Sum(window) && sumSq == SumSquares(window)
    }

    /** `push` */
    method Push(value: real)
      requires Valid()
      modifies this
      ensures Valid() && history == old(history) + [value]
    {
      hide Sum, SumSquares;
      ghost var w := window;
      SumsSlide(w, value);
      if |window| >= capacity {
        var evicted := window[0];
        SumsSlide(w[1..], value);
        sum := sum - evicted;
        sumSq := sumSq - evicted * evicted;
        window := window[1..];
      }
      window := window + [value];
      sum := sum + value;
      sumSq := sumSq + value * value;
      history := history + [value];
    }

    /** `push_batch` */
    method PushBatch(values: seq<real>)
      requires Valid()
      modifies this
      ensures Valid() && history == old(history) + values
    {
      for i := 0 to |values|
        invariant Valid() && history == old(history) + values[..i]
      {
        Push(values[i]);
        assert values[..i + 1] == values[..i] + [values[i]];
      }
      assert values[..|values|] == values;
    }

    /** `variance`: the two-pass variance of the last `capacity` values, hence never negative. */
    function Variance(): (v: real)
      requires Valid()
      reads this
      ensures v == TwoPassVariance(LastN(history, capacity)) >= 0.0
    {
      if |window| < 2 then 0.0
      else
        var n := |window| as real;
        WindowMoments(window);
        sumSq / n - Square(sum / n)
    }
  }

  lemma WindowMoments(x: seq<real>)
    requires |x| > 1
    ensures SumSquares(x) / |x| as real - Square(Sum(x) / |x| as real) == TwoPassVariance(x)
  {
    var m := Mean(x);
    assert Times(|x| as real, m) == Sum(x);
    VariancesAgree(x, m, SquaredDeviations(x, m));
  }
}
