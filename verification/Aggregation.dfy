/** Weighted averaging of station updates, and what averaging cannot make worse. */
module Aggregation {
  import opened Collections
  import opened RealMath

  type Vector = seq<real>

  datatype StationUpdate = StationUpdate(stationId: string, gradients: Vector, sampleCount: nat)

  // ---- Vectors ----

  function Zero(n: nat): (v: Vector)
    ensures |v| == n && forall i :: 0 <= i < n ==> v[i] == 0.0
  {
    seq(n, _ => 0.0)
  }

  function Scaled(v: Vector, s: real): (r: Vector)
    ensures |r| == |v| && forall i :: 0 <= i < |v| ==> r[i] == Times(v[i], s)
  {
    seq(|v|, i requires 0 <= i < |v| => Times(v[i], s))
  }

  /** The vector as the aggregator reads it: cut to length n, missing entries counting as zero. */
  function Fit(g: Vector, n: nat): (v: Vector)
    ensures |v| == n && forall i :: 0 <= i < n ==> v[i] == if i < |g| then g[i] else 0.0
  {
    seq(n, i requires 0 <= i < n => if i < |g| then g[i] else 0.0)
  }

  /** One more weighted update on top of a running sum of the same length. */
  function AddWeighted(a: Vector, g: Vector, w: real): (r: Vector)
    requires |a| == |g|
    ensures |r| == |a| && forall i :: 0 <= i < |a| ==> r[i] == a[i] + g[i] * w
  {
    seq(|a|, i requires 0 <= i < |a| => a[i] + g[i] * w)
  }

  /** The value at fraction t on the way from p to q. */
  function Mix(p: real, q: real, t: real): real {
    (1.0 - t) * p + t * q
  }

  /** The point at fraction t on the way from a to b. */
  function Blend(a: Vector, b: Vector, t: real): (r: Vector)
    requires |a| == |b|
    ensures |r| == |a| && forall i :: 0 <= i < |a| ==> r[i] == Mix(a[i], b[i], t)
  {
    seq(|a|, i requires 0 <= i < |a| => Mix(a[i], b[i], t))
  }

  // ---- The aggregate ----

  function TotalSamples(updates: seq<StationUpdate>): (n: nat) {
    if updates == [] then 0
    else TotalSamples(updates[..|updates| - 1]) + updates[|updates| - 1].sampleCount
  }

  /** The divisor of the weights: the sample total, or the number of updates when nobody had samples. */
  function Divisor(updates: seq<StationUpdate>): (d: nat)
    ensures updates != [] ==> d >= 1
  {
    if TotalSamples(updates) == 0 then |updates| else TotalSamples(updates)
  }

  function Weight(u: StationUpdate, divisor: nat): (w: real)
    requires divisor >= 1
    ensures w >= 0.0
  {
    u.sampleCount as real / divisor as real
  }

  /** Sum of the first k updates, weighted, each read at length n. */
  function WeightedSum(updates: seq<StationUpdate>, k: nat, n: nat, divisor: nat): (v: Vector)
    requires k <= |updates| && divisor >= 1
    ensures |v| == n
  {
    if k == 0 then Zero(n)
    else AddWeighted(WeightedSum(updates, k - 1, n, divisor), Fit(updates[k - 1].gradients, n), Weight(updates[k - 1], divisor))
  }

  /** FEDAVG; FEDPROX additionally damps the average by 1 - mu. */
  function Aggregate(updates: seq<StationUpdate>, damping: real): (v: Vector)
    requires updates != []
    ensures |v| == |updates[0].gradients|
  {
    Scaled(WeightedSum(updates, |updates|, |updates[0].gradients|, Divisor(updates)), 1.0 - damping)
  }

  /** `aggregated[i] += gradients[i] * weight` over the common length. */
  method Accumulate(aggregated: array<real>, gradients: Vector, weight: real)
    modifies aggregated
    ensures aggregated[..] == AddWeighted(old(aggregated[..]), Fit(gradients, aggregated.Length), weight)
  {
    ghost var before := aggregated[..];
    ghost var g := Fit(gradients, aggregated.Length);
    ghost var after := AddWeighted(before, g, weight);
    var m := if aggregated.Length < |gradients| then aggregated.Length else |gradients|;
    for i := 0 to m
      invariant forall l :: 0 <= l < i ==> aggregated[l] == after[l]
      invariant forall l :: i <= l < aggregated.Length ==> aggregated[l] == before[l]
    {
      assert g[i] == gradients[i];
      aggregated[i] := aggregated[i] + gradients[i] * weight;
    }
    forall l | m <= l < aggregated.Length ensures after[l] == before[l] {
      assert g[l] == 0.0;
    }
    assert aggregated[..] == after;
  }

  /** `aggregated[i] *= factor` */
  method Damp(aggregated: array<real>, factor: real)
    modifies aggregated
    ensures aggregated[..] == Scaled(old(aggregated[..]), factor)
  {
    ghost var before := aggregated[..];
    ghost var after := Scaled(before, factor);
    for i := 0 to aggregated.Length
      invariant forall l :: 0 <= l < i ==> aggregated[l] == after[l]
      invariant forall l :: i <= l < aggregated.Length ==> aggregated[l] == before[l]
    {
      aggregated[i] := aggregated[i] * factor;
    }
    assert aggregated[..] == after;
  }

  /** The loops of `_aggregate`. */
  method ComputeAggregate(updates: seq<StationUpdate>, fedProx: bool, mu: real) returns (aggregated: array<real>)
    requires updates != []
    ensures fresh(aggregated) && aggregated[..] == Aggregate(updates, if fedProx then mu else 0.0)
  {
    hide Weight, AddWeighted, Scaled, Fit;
    var totalSamples := 0;
    for i := 0 to |updates|
      invariant totalSamples == TotalSamples(updates[..i])
    {
      assert updates[..i + 1][..i] == updates[..i];
      totalSamples := totalSamples + updates[i].sampleCount;
    }
    assert updates[..|updates|] == updates;
    if totalSamples == 0 {
      totalSamples := |updates|;
    }
    var vecLen := |updates[0].gradients|;
    aggregated := new real[vecLen](_ => 0.0);
    for k := 0 to |updates|
      invariant aggregated[..] == WeightedSum(updates, k, vecLen, totalSamples)
    {
      Accumulate(aggregated, updates[k].gradients, Weight(updates[k], totalSamples));
    }
    if fedProx {
      Damp(aggregated, 1.0 - mu);
    } else {
      assert aggregated[..] == Scaled(aggregated[..], 1.0 - 0.0);
    }
  }

  // ---- The aggregate is the mean of all updates ----

  /** What an update says about entry i; nothing beyond its end. */
  function At(u: StationUpdate, i: nat): real {
    if i < |u.gradients| then u.gradients[i] else 0.0
  }

  /** The sum over all updates of sample count times the distance of entry i from z. */
  function Residual(updates: seq<StationUpdate>, i: nat, z: real): real {
    if updates == [] then 0.0
    else
      var u := updates[|updates| - 1];
      Residual(updates[..|updates| - 1], i, z) + Times(u.sampleCount as real, At(u, i) - z)
  }

  lemma {:induction false} ResidualIsMoment(updates: seq<StationUpdate>, i: nat, z: real)
    ensures Residual(updates, i, z) == Residual(updates, i, 0.0) - Times(TotalSamples(updates) as real, z)
  {
    if updates != [] {
      ResidualIsMoment(updates[..|updates| - 1], i, z);
    }
  }

  lemma {:induction false} SumIsMoment(updates: seq<StationUpdate>, k: nat, n: nat, divisor: nat, i: nat)
    requires k <= |updates| && divisor >= 1 && i < n
    ensures Times(WeightedSum(updates, k, n, divisor)[i], divisor as real) == Residual(updates[..k], i, 0.0)
  {
    hide Fit;
    if k > 0 {
      SumIsMoment(updates, k - 1, n, divisor, i);
      assert updates[..k][..k - 1] == updates[..k - 1];
      var u := updates[k - 1];
      WeightUndone(WeightedSum(updates, k - 1, n, divisor)[i], At(u, i), u.sampleCount as real, divisor as real);
    }
  }

  lemma WeightUndone(a: real, g: real, m: real, d: real)
    requires d > 0.0
    ensures Times(a + g * (m / d), d) == Times(a, d) + Times(m, g)
  {
    var w := m / d;
    assert w * d == m;
    assert (a + g * w) * d == a * d + g * (w * d);
  }

  /**
   * Without damping and with samples, the aggregate balances the updates at every entry: weighted with their sample
   * counts, the distances of all updates from it add up to nothing. It is the only vector that does.
   */
  lemma AggregateBalances(updates: seq<StationUpdate>, i: nat, z: real)
    requires updates != [] && TotalSamples(updates) > 0 && i < |updates[0].gradients|
    ensures Residual(updates, i, z) == 0.0 <==> Aggregate(updates, 0.0)[i] == z
  {
    hide Residual, WeightedSum;
    var n, d := |updates[0].gradients|, Divisor(updates);
    SumIsMoment(updates, |updates|, n, d, i);
    assert updates[..|updates|] == updates;
    ResidualIsMoment(updates, i, z);
    var a := Aggregate(updates, 0.0)[i];
    assert a == WeightedSum(updates, |updates|, n, d)[i];
    if a != z {
      ScaledApart(a, z, d as real);
    }
  }

  lemma ScaledApart(a: real, z: real, d: real)
    requires a != z && d > 0.0
    ensures Times(a, d) != Times(d, z)
  {
    if a > z {
      StrictProduct(a - z, d);
    } else {
      StrictProduct(z - a, d);
    }
    assert (a - z) * d == a * d - d * z;
  }

  /** FEDPROX scales the undamped aggregate by 1 - mu. */
  lemma DampingScales(updates: seq<StationUpdate>, mu: real, i: nat)
    requires updates != [] && i < |updates[0].gradients|
    ensures Aggregate(updates, mu)[i] == (1.0 - mu) * Aggregate(updates, 0.0)[i]
  {
    hide WeightedSum;
  }

  /** Same length, same sample total, same weighted sums: same aggregate. */
  lemma AggregateDetermined(u: seq<StationUpdate>, v: seq<StationUpdate>, mu: real)
    requires u != [] && v != [] && |u[0].gradients| == |v[0].gradients| && TotalSamples(u) == TotalSamples(v)
    requires forall i :: 0 <= i < |u[0].gradients| ==> Residual(u, i, 0.0) == Residual(v, i, 0.0)
    ensures Aggregate(u, mu) == Aggregate(v, mu)
  {
    hide Residual, Aggregate, TotalSamples;
    var n := |u[0].gradients|;
    if TotalSamples(u) == 0 {
      NoSamplesAggregateZero(u, mu);
      NoSamplesAggregateZero(v, mu);
    } else {
      forall i | 0 <= i < n ensures Aggregate(u, mu)[i] == Aggregate(v, mu)[i] {
        var z := Aggregate(u, 0.0)[i];
        AggregateBalances(u, i, z);
        ResidualIsMoment(u, i, z);
        ResidualIsMoment(v, i, z);
        AggregateBalances(v, i, z);
        DampingScales(u, mu, i);
        DampingScales(v, mu, i);
      }
      assert |Aggregate(u, mu)| == n && |Aggregate(v, mu)| == n;
    }
  }

  lemma {:induction false} ResidualConcat(u: seq<StationUpdate>, v: seq<StationUpdate>, i: nat)
    ensures Residual(u + v, i, 0.0) == Residual(u, i, 0.0) + Residual(v, i, 0.0)
    ensures TotalSamples(u + v) == TotalSamples(u) + TotalSamples(v)
  {
    if v == [] {
      assert u + v == u;
    } else {
      var front := v[..|v| - 1];
      ResidualConcat(u, front, i);
      assert (u + v)[..|u + v| - 1] == u + front;
    }
  }

  lemma SingleResidual(u: StationUpdate, i: nat)
    ensures Residual([u], i, 0.0) == Times(u.sampleCount as real, At(u, i)) && TotalSamples([u]) == u.sampleCount
  {
    assert [u][..0] == [];
  }

  lemma ResidualWithout(v: seq<StationUpdate>, k: nat, i: nat)
    requires k < |v|
    ensures Residual(v, i, 0.0) == Residual(Without(v, k), i, 0.0) + Residual([v[k]], i, 0.0)
    ensures TotalSamples(v) == TotalSamples(Without(v, k)) + TotalSamples([v[k]])
  {
    hide Residual, TotalSamples;
    assert v == (v[..k] + [v[k]]) + v[k + 1..];
    ResidualConcat(v[..k] + [v[k]], v[k + 1..], i);
    ResidualConcat(v[..k], [v[k]], i);
    ResidualConcat(v[..k], v[k + 1..], i);
  }

  lemma {:induction false} ResidualPermuted(u: seq<StationUpdate>, v: seq<StationUpdate>, i: nat)
    requires multiset(u) == multiset(v)
    ensures Residual(u, i, 0.0) == Residual(v, i, 0.0) && TotalSamples(u) == TotalSamples(v)
    decreases |u|
  {
    hide Residual, TotalSamples, Without;
    if u == [] {
      assert |multiset(v)| == 0;
      assert v == [];
    } else {
      var n := |u| - 1;
      var k := FindMember(v, u[n]);
      WithoutMembers(u, n);
      WithoutMembers(v, k);
      ResidualPermuted(Without(u, n), Without(v, k), i);
      ResidualWithout(u, n, i);
      ResidualWithout(v, k, i);
    }
  }

  lemma FindMember(v: seq<StationUpdate>, x: StationUpdate) returns (k: nat)
    requires x in multiset(v)
    ensures k < |v| && v[k] == x
  {
    k :| 0 <= k < |v| && v[k] == x;
  }

  /** Only the first update has a place of its own, for its length: the order of the others does not matter. */
  lemma OrderDoesNotMatter(u: seq<StationUpdate>, v: seq<StationUpdate>, mu: real)
    requires u != [] && v != [] && |u[0].gradients| == |v[0].gradients| && multiset(u) == multiset(v)
    ensures Aggregate(u, mu) == Aggregate(v, mu)
  {
    hide Residual, Aggregate, TotalSamples;
    forall i | 0 <= i < |u[0].gradients| ensures Residual(u, i, 0.0) == Residual(v, i, 0.0) {
      ResidualPermuted(u, v, i);
    }
    ResidualPermuted(u, v, 0);
    AggregateDetermined(u, v, mu);
  }

  /** Two stations that send the same gradients count as one with the samples of both. */
  lemma SameGradientsMerge(before: seq<StationUpdate>, a: StationUpdate, b: StationUpdate, after: seq<StationUpdate>, mu: real)
    requires a.gradients == b.gradients
    ensures var merged := StationUpdate(a.stationId, a.gradients, a.sampleCount + b.sampleCount);
            Aggregate(before + [a, b] + after, mu) == Aggregate(before + [merged] + after, mu)
  {
    var merged := StationUpdate(a.stationId, a.gradients, a.sampleCount + b.sampleCount);
    var u, v := before + [a, b] + after, before + [merged] + after;
    hide Residual, Aggregate, TotalSamples;
    forall i: nat ensures Residual(u, i, 0.0) == Residual(v, i, 0.0) && TotalSamples(u) == TotalSamples(v) {
      PairResidual(a, b, i);
      Between(before, [a, b], after, i);
      Between(before, [merged], after, i);
    }
    assert Residual(u, 0, 0.0) == Residual(v, 0, 0.0);
    assert |u[0].gradients| == |v[0].gradients|;
    AggregateDetermined(u, v, mu);
  }

  lemma PairResidual(a: StationUpdate, b: StationUpdate, i: nat)
    requires a.gradients == b.gradients
    ensures var merged := StationUpdate(a.stationId, a.gradients, a.sampleCount + b.sampleCount);
            && Residual([a, b], i, 0.0) == Residual([merged], i, 0.0)
            && TotalSamples([a, b]) == TotalSamples([merged])
  {
    hide Residual, TotalSamples;
    assert [a, b] == [a] + [b];
    ResidualConcat([a], [b], i);
    SingleResidual(a, i);
    SingleResidual(b, i);
    SingleResidual(StationUpdate(a.stationId, a.gradients, a.sampleCount + b.sampleCount), i);
  }

  lemma Between(before: seq<StationUpdate>, mid: seq<StationUpdate>, after: seq<StationUpdate>, i: nat)
    ensures Residual(before + mid + after, i, 0.0)
         == Residual(before, i, 0.0) + Residual(mid, i, 0.0) + Residual(after, i, 0.0)
    ensures TotalSamples(before + mid + after) == TotalSamples(before) + TotalSamples(mid) + TotalSamples(after)
  {
    hide Residual, TotalSamples;
    ResidualConcat(before + mid, after, i);
    ResidualConcat(before, mid, i);
  }

  // ---- Averages stay inside convex sets ----

  /** A set of vectors of length n that contains every segment between its members. */
  ghost predicate IsConvex(c: Vector -> bool, n: nat) {
    forall a, b, t :: |a| == n && |b| == n && c(a) && c(b) && 0.0 <= t <= 1.0 ==> c(Blend(a, b, t))
  }

  function WeightSum(updates: seq<StationUpdate>, k: nat, divisor: nat): (w: real)
    requires k <= |updates| && divisor >= 1
    ensures w >= 0.0
  {
    if k == 0 then 0.0 else WeightSum(updates, k - 1, divisor) + Weight(updates[k - 1], divisor)
  }

  /** The partial sum is the partial weight times a member of the set. */
  lemma {:induction false} PartialAverage(updates: seq<StationUpdate>, k: nat, n: nat, divisor: nat,
                                          c: Vector -> bool) returns (a: Vector)
    requires k <= |updates| && divisor >= 1 && IsConvex(c, n)
    requires forall u :: u in updates ==> c(Fit(u.gradients, n))
    ensures |a| == n
    ensures WeightedSum(updates, k, n, divisor) == Scaled(a, WeightSum(updates, k, divisor))
    ensures WeightSum(updates, k, divisor) > 0.0 ==> c(a)
  {
    hide Weight, Fit, AddWeighted, Scaled, Blend, Zero;
    if k == 0 {
      a := Zero(n);
      assert Scaled(a, 0.0) == Zero(n);
    } else {
      var g := Fit(updates[k - 1].gradients, n);
      var w, W := Weight(updates[k - 1], divisor), WeightSum(updates, k - 1, divisor);
      var b := PartialAverage(updates, k - 1, n, divisor, c);
      if W + w == 0.0 {
        a := b;
        NoWeight(b, g);
      } else if W == 0.0 {
        a := g;
        assert updates[k - 1] in updates;
        FirstWeight(b, g, w);
      } else {
        var t := w / (W + w);
        FractionInUnit(W, w);
        a := Blend(b, g, t);
        assert updates[k - 1] in updates;
        BlendIsAverage(b, g, W, w);
      }
    }
  }

  lemma NoWeight(b: Vector, g: Vector)
    requires |b| == |g|
    ensures AddWeighted(Scaled(b, 0.0), g, 0.0) == Scaled(b, 0.0)
  {
  }

  lemma FirstWeight(b: Vector, g: Vector, w: real)
    requires |b| == |g|
    ensures AddWeighted(Scaled(b, 0.0), g, w) == Scaled(g, w)
  {
  }

  lemma FractionInUnit(W: real, w: real)
    requires W >= 0.0 && w >= 0.0 && W + w > 0.0
    ensures 0.0 <= w / (W + w) <= 1.0
    ensures w / (W + w) * (W + w) == w && (1.0 - w / (W + w)) * (W + w) == W
  {
    var t := w / (W + w);
    assert t * (W + w) == w;
    Distribute(W + w, 1.0, -t);
    if t > 1.0 {
      StrictProduct(t - 1.0, W + w);
    } else if t < 0.0 {
      StrictProduct(-t, W + w);
    }
  }

  lemma BlendIsAverage(b: Vector, g: Vector, W: real, w: real)
    requires |b| == |g| && W >= 0.0 && w >= 0.0 && W + w > 0.0
    ensures AddWeighted(Scaled(b, W), g, w) == Scaled(Blend(b, g, w / (W + w)), W + w)
  {
    hide AddWeighted, Scaled, Blend;
    FractionInUnit(W, w);
    var t := w / (W + w);
    var mix := Blend(b, g, t);
    forall i | 0 <= i < |b|
      ensures AddWeighted(Scaled(b, W), g, w)[i] == Scaled(mix, W + w)[i]
    {
      Redistribute(mix[i], b[i], g[i], 1.0 - t, t, W + w);
    }
  }

  lemma Redistribute(z: real, x: real, y: real, s: real, t: real, m: real)
    requires z == s * x + t * y
    ensures z * m == x * (s * m) + y * (t * m)
  {
  }

  /** The weights add up to one, or to zero when no station had samples. */
  lemma TotalWeight(updates: seq<StationUpdate>)
    requires updates != []
    ensures WeightSum(updates, |updates|, Divisor(updates)) == if TotalSamples(updates) == 0 then 0.0 else 1.0
  {
    hide WeightSum, TotalSamples;
    WeightSumIsShare(updates, |updates|, Divisor(updates));
    assert updates[..|updates|] == updates;
    Share(TotalSamples(updates) as real, Divisor(updates) as real);
  }

  lemma Share(s: real, d: real)
    requires d > 0.0
    ensures s == 0.0 ==> s / d == 0.0
    ensures s == d ==> s / d == 1.0
  {
  }

  lemma {:induction false} WeightSumIsShare(updates: seq<StationUpdate>, k: nat, divisor: nat)
    requires k <= |updates| && divisor >= 1
    ensures WeightSum(updates, k, divisor) == TotalSamples(updates[..k]) as real / divisor as real
  {
    if k > 0 {
      WeightSumIsShare(updates, k - 1, divisor);
      assert updates[..k][..k - 1] == updates[..k - 1];
      assert updates[..k][k - 1] == updates[k - 1];
    }
  }

  /**
   * A convex set that holds every update (as read at the aggregate's length) holds the aggregate too;
   * the zero vector must belong to it when damping is in force or nobody had samples.
   */
  lemma AggregateStaysConvex(updates: seq<StationUpdate>, mu: real, c: Vector -> bool)
    requires updates != [] && 0.0 <= mu <= 1.0
    requires IsConvex(c, |updates[0].gradients|)
    requires forall u :: u in updates ==> c(Fit(u.gradients, |updates[0].gradients|))
    requires mu > 0.0 || TotalSamples(updates) == 0 ==> c(Zero(|updates[0].gradients|))
    ensures c(Aggregate(updates, mu))
  {
    hide Scaled, WeightedSum, Blend, Zero, Fit, Divisor;
    var n, d := |updates[0].gradients|, Divisor(updates);
    var a := PartialAverage(updates, |updates|, n, d, c);
    TotalWeight(updates);
    if TotalSamples(updates) == 0 {
      assert Aggregate(updates, mu) == Zero(n);
    } else if mu == 0.0 {
      assert Aggregate(updates, mu) == a;
    } else {
      DampedIsBlend(a, mu);
    }
  }

  lemma DampedIsBlend(a: Vector, mu: real)
    ensures Scaled(Scaled(a, 1.0), 1.0 - mu) == Blend(a, Zero(|a|), mu)
  {
    hide Scaled, Blend, Zero;
    var d, z := Scaled(Scaled(a, 1.0), 1.0 - mu), Blend(a, Zero(|a|), mu);
    forall i | 0 <= i < |a| ensures d[i] == z[i] {
      assert Scaled(a, 1.0)[i] == a[i] && Zero(|a|)[i] == 0.0;
    }
  }

  // ---- Squared norms ----

  lemma {:induction false} BlendNorm(a: Vector, b: Vector, t: real)
    requires |a| == |b| && 0.0 <= t <= 1.0
    ensures SumSquares(Blend(a, b, t)) <= Mix(SumSquares(a), SumSquares(b), t)
  {
    hide Blend, SumSquares, Mix, Square;
    SumSquaresCons(0.0, []);
    if a == [] {
      assert Blend(a, b, t) == [];
      MixSame(0.0, t);
    } else {
      var x, y := a[1..], b[1..];
      BlendNorm(x, y, t);
      BlendCons(a[0], b[0], x, y, t);
      assert a == [a[0]] + x && b == [b[0]] + y;
      SumSquaresCons(a[0], x);
      SumSquaresCons(b[0], y);
      SumSquaresCons(Mix(a[0], b[0], t), Blend(x, y, t));
      SquareConvex(a[0], b[0], t);
      MixSum(Square(a[0]), Square(b[0]), SumSquares(x), SumSquares(y), t);
    }
  }

  lemma BlendCons(p: real, q: real, x: Vector, y: Vector, t: real)
    requires |x| == |y|
    ensures Blend([p] + x, [q] + y, t) == [Mix(p, q, t)] + Blend(x, y, t)
  {
    hide Mix;
  }

  lemma MixSum(p: real, q: real, x: real, y: real, t: real)
    ensures Mix(p, q, t) + Mix(x, y, t) == Mix(p + x, q + y, t)
  {
  }

  lemma MixSame(m: real, t: real)
    ensures Mix(m, m, t) == m
  {
  }

  lemma MixMonotone(p: real, q: real, m: real, t: real)
    requires p <= m && q <= m && 0.0 <= t <= 1.0
    ensures Mix(p, q, t) <= m
  {
    var s := 1.0 - t;
    ProductNonNegative(s, m - p);
    ProductNonNegative(t, m - q);
    assert s * (m - p) + t * (m - q) == m - Mix(p, q, t);
  }

  lemma Distribute(s: real, x: real, y: real)
    ensures s * (x + y) == s * x + s * y
  {
  }

  lemma SquareConvex(x: real, y: real, t: real)
    requires 0.0 <= t <= 1.0
    ensures Square(Mix(x, y, t)) <= Mix(Square(x), Square(y), t)
  {
    var s := 1.0 - t;
    SquareNonNegative(x - y);
    ProductNonNegative(s, t);
    ProductNonNegative(s * t, (x - y) * (x - y));
    SquareConvexIdentity(x, y, s, t);
  }

  lemma SquareConvexIdentity(x: real, y: real, s: real, t: real)
    requires s + t == 1.0
    ensures s * (x * x) + t * (y * y) - (s * x + t * y) * (s * x + t * y) == (s * t) * ((x - y) * (x - y))
  {
    var p, q, r := x * x, x * y, y * y;
    assert (s * x + t * y) * (s * x + t * y) == (s * s) * p + 2.0 * ((s * t) * q) + (t * t) * r;
    assert (x - y) * (x - y) == p - 2.0 * q + r;
    assert s * p - (s * s) * p == (s * t) * p by { assert s * p == (s + t) * (s * p); }
    assert t * r - (t * t) * r == (s * t) * r by { assert t * r == (s + t) * (t * r); }
  }

  lemma {:induction false} FitNorm(g: Vector, n: nat)
    ensures SumSquares(Fit(g, n)) <= SumSquares(g)
  {
    hide Fit;
    if n > 0 {
      if g == [] {
        FitNorm([], n - 1);
        assert Fit(g, n)[1..] == Fit([], n - 1);
      } else {
        FitNorm(g[1..], n - 1);
        assert Fit(g, n)[1..] == Fit(g[1..], n - 1);
      }
    } else {
      assert Fit(g, n) == [];
    }
  }

  lemma {:induction false} ZeroNorm(n: nat)
    ensures SumSquares(Zero(n)) == 0.0
  {
    hide Zero;
    if n > 0 {
      ZeroNorm(n - 1);
      assert Zero(n)[1..] == Zero(n - 1);
    }
  }

  function Ball(m: real): Vector -> bool {
    v => SumSquares(v) <= m
  }

  lemma BallIsConvex(m: real, n: nat)
    ensures IsConvex(Ball(m), n)
  {
    hide Blend, SumSquares, Mix;
    forall a: Vector, b: Vector, t | |a| == n && |b| == n && Ball(m)(a) && Ball(m)(b) && 0.0 <= t <= 1.0
      ensures Ball(m)(Blend(a, b, t))
    {
      BlendNorm(a, b, t);
      MixMonotone(SumSquares(a), SumSquares(b), m, t);
    }
  }

  /** The aggregate is never longer than the longest stored update, ragged vectors and empty samples included. */
  lemma AggregateNorm(updates: seq<StationUpdate>, mu: real, m: real)
    requires updates != [] && 0.0 <= mu <= 1.0
    requires forall u :: u in updates ==> SumSquares(u.gradients) <= m
    ensures SumSquares(Aggregate(updates, mu)) <= m
  {
    hide SumSquares, Aggregate, Zero, Fit;
    var n := |updates[0].gradients|;
    BallIsConvex(m, n);
    ZeroNorm(n);
    assert updates[0] in updates;
    forall u | u in updates ensures Ball(m)(Fit(u.gradients, n)) {
      FitNorm(u.gradients, n);
    }
    assert SumSquares(updates[0].gradients) >= 0.0;
    AggregateStaysConvex(updates, mu, Ball(m));
  }

  // ---- Losses ----

  /** Losses whose sublevel sets are convex; every convex loss is one. */
  ghost predicate IsQuasiConvex(loss: Vector -> real, n: nat) {
    forall a, b, t :: |a| == n && |b| == n && 0.0 <= t <= 1.0 ==>
      loss(Blend(a, b, t)) <= if loss(a) <= loss(b) then loss(b) else loss(a)
  }

  /** `worst` bounds the loss at every update as the aggregator reads it. */
  ghost predicate BoundsAll(updates: seq<StationUpdate>, loss: Vector -> real, worst: real) {
    && updates != []
    && IsQuasiConvex(loss, |updates[0].gradients|)
    && forall u :: u in updates ==> loss(Fit(u.gradients, |updates[0].gradients|)) <= worst
  }

  /** Under FEDAVG with samples, no quasi-convex loss is larger at the aggregate than at the worst update. */
  lemma GlobalNotWorseThanWorstLocal(updates: seq<StationUpdate>, loss: Vector -> real, worst: real)
    requires BoundsAll(updates, loss, worst) && TotalSamples(updates) > 0
    ensures loss(Aggregate(updates, 0.0)) <= worst
  {
    hide Aggregate, Blend, Fit;
    var c: Vector -> bool := v => loss(v) <= worst;
    AggregateStaysConvex(updates, 0.0, c);
  }

  /** When no station had samples the aggregate is the zero vector, whatever the stations sent. */
  lemma NoSamplesAggregateZero(updates: seq<StationUpdate>, mu: real)
    requires updates != [] && TotalSamples(updates) == 0
    ensures Aggregate(updates, mu) == Zero(|updates[0].gradients|)
  {
    var n := |updates[0].gradients|;
    var c: Vector -> bool := v => true;
    var a := PartialAverage(updates, |updates|, n, Divisor(updates), c);
    TotalWeight(updates);
  }

  /** The damping never makes the aggregate worse than the worst update, for updates that have samples or have none. */
  ghost predicate NeverWorse(mu: real, sampled: bool) {
    forall updates, loss, worst :: BoundsAll(updates, loss, worst) && (TotalSamples(updates) > 0 <==> sampled)
      ==> loss(Aggregate(updates, mu)) <= worst
  }

  /**
   * Over all updates with samples and all quasi-convex losses the bound holds for no damping but zero, neither
   * positive nor negative; over updates without samples it holds for no damping at all.
   */
  lemma NeverWorseExactly(mu: real)
    ensures NeverWorse(mu, true) <==> mu == 0.0
    ensures !NeverWorse(mu, false)
  {
    hide BoundsAll, Aggregate, TotalSamples, Slope;
    if mu == 0.0 {
      NoDampingNeverWorse();
    } else {
      var c := if mu > 0.0 then -1.0 else 1.0;
      OneStation(mu, 1, c);
    }
    OneStation(mu, 0, -1.0);
  }

  lemma NoDampingNeverWorse()
    ensures NeverWorse(0.0, true)
  {
    hide IsQuasiConvex, Aggregate, TotalSamples, Fit;
    forall updates: seq<StationUpdate>, loss: Vector -> real, worst: real
      | BoundsAll(updates, loss, worst) && TotalSamples(updates) > 0
      ensures loss(Aggregate(updates, 0.0)) <= worst
    {
      GlobalNotWorseThanWorstLocal(updates, loss, worst);
    }
  }

  function Slope(c: real): Vector -> real {
    v => if v == [] then 0.0 else Times(v[0], c)
  }

  lemma SlopeQuasiConvex(c: real)
    ensures IsQuasiConvex(Slope(c), 1)
  {
    hide Mix;
    forall a: Vector, b: Vector, t | |a| == 1 && |b| == 1 && 0.0 <= t <= 1.0
      ensures Slope(c)(Blend(a, b, t)) <= if Slope(c)(a) <= Slope(c)(b) then Slope(c)(b) else Slope(c)(a)
    {
      var m := if Slope(c)(a) <= Slope(c)(b) then Slope(c)(b) else Slope(c)(a);
      MixMonotone(Times(a[0], c), Times(b[0], c), m, t);
      MixTimes(a[0], b[0], t, c);
    }
  }

  lemma MixTimes(p: real, q: real, t: real, c: real)
    ensures Times(Mix(p, q, t), c) == Mix(Times(p, c), Times(q, c), t)
  {
    var s := 1.0 - t;
    assert (s * p + t * q) * c == s * (p * c) + t * (q * c);
  }

  /** One station that sends [1]: the aggregate is [1 - mu] if it has a sample, and [0] if it has none. */
  lemma OneStation(mu: real, samples: nat, c: real)
    requires samples <= 1
    ensures var updates := [StationUpdate("S", [1.0], samples)];
            && BoundsAll(updates, Slope(c), c)
            && TotalSamples(updates) == samples
            && Slope(c)(Aggregate(updates, mu)) == if samples == 0 then 0.0 else Times(1.0 - mu, c)
  {
    hide IsQuasiConvex;
    var u := StationUpdate("S", [1.0], samples);
    SlopeQuasiConvex(c);
    assert Fit([1.0], 1) == [1.0];
    assert TotalSamples([u]) == TotalSamples([]) + samples by { assert [u][..0] == []; }
    if samples == 0 {
      NoSamplesAggregateZero([u], mu);
    } else {
      assert Weight(u, 1) == 1.0;
      assert WeightedSum([u], 1, 1, 1) == AddWeighted(WeightedSum([u], 0, 1, 1), Fit([1.0], 1), 1.0);
      assert WeightedSum([u], 1, 1, 1) == [1.0];
    }
  }
}
