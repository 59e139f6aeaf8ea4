/** The Hilbert envelope used for bearing-defect detection. */
module Envelope {
  import opened Collections
  import opened RealMath
  import opened ComplexNumbers
  import opened Fourier
  import opened FourierInversion

  // ---- Reversing the frequency axis ----

  /** Index k goes to index (n - k) mod n. */
  function Mirrored(x: seq<Complex>): (r: seq<Complex>)
    ensures |r| == |x|
    ensures forall k :: 0 <= k < |x| ==> r[k] == x[if k == 0 then 0 else |x| - k]
  {
    seq(|x|, k requires 0 <= k < |x| => x[if k == 0 then 0 else |x| - k])
  }

  lemma {:induction false} PolyReversed(t: seq<Complex>, z: Complex, u: Complex)
    requires Mul(z, u) == ONE
    ensures Mul(u, Poly(Reversed(t), u)) == Mul(Pow(u, |t|), Poly(t, z))
  {
    hide Mul, Add, Poly, Pow, Reversed;
    if t == [] {
      EmptyPoly(u);
      EmptyPoly(z);
      MulUnits(u);
      MulUnits(Pow(u, 0));
    } else {
      var a, s := t[0], t[1..];
      PolyReversed(s, z, u);
      assert t == [a] + s;
      assert Reversed(t) == Reversed(s) + [a];
      PolyConcat(Reversed(s), [a], u);
      PolyCons(a, s, z);
      SingletonPoly(a, u);
      PowAdd(u, 1, |s|);
      PowSmall(u);
      ReversalStep(u, z, Pow(u, |s|), a, Poly(Reversed(s), u), Poly(s, z));
    }
  }

  lemma SingletonPoly(a: Complex, z: Complex)
    ensures Poly([a], z) == a
  {
    hide Mul;
    MulUnits(z);
  }

  lemma ReversalStep(u: Complex, z: Complex, p: Complex, a: Complex, r: Complex, f: Complex)
    requires Mul(z, u) == ONE && Mul(u, r) == Mul(p, f)
    ensures Mul(u, Add(r, Mul(p, a))) == Mul(Mul(u, p), Add(a, Mul(z, f)))
  {
    hide Mul;
    var q := Mul(u, p);
    MulAdd(u, r, Mul(p, a));
    MulAssoc(u, p, a);
    MulAdd(q, a, Mul(z, f));
    MulSwap(u, p, z, f);
    MulComm(u, z);
    MulUnits(Mul(p, f));
  }

  lemma PolyMirrored(b: seq<Complex>, z: Complex, u: Complex)
    requires Mul(z, u) == ONE && b != [] && Pow(u, |b|) == ONE
    ensures Poly(b, z) == Poly(Mirrored(b), u)
  {
    hide Mul, Add, Poly, Pow, Mirrored, Reversed;
    var a, t := b[0], b[1..];
    assert b == [a] + t;
    assert Mirrored(b) == [a] + Reversed(t);
    PolyCons(a, t, z);
    PolyCons(a, Reversed(t), u);
    PolyReversed(t, z, u);
    PowAdd(u, 1, |t|);
    PowSmall(u);
    // u^(n-1) is the inverse of u, that is z
    var p := Pow(u, |t|);
    MulUnits(p);
    MulUnits(z);
    MulAssoc(z, u, p);
  }

  // ---- Real signals have mirror-symmetric spectra ----

  predicate IsReal(x: seq<Complex>) {
    forall i :: 0 <= i < |x| ==> x[i].im == 0.0
  }

  /** The value at frequency -k is the conjugate of the value at frequency k. */
  predicate IsSymmetric(X: seq<Complex>) {
    Mirrored(ConjAll(X)) == X
  }

  lemma RealSpectrumSymmetric(x: seq<Complex>, root: nat -> Complex)
    requires IsRootFamily(root) && IsPowerOfTwo(|x|) && IsReal(x)
    ensures IsSymmetric(Dft(x, root(|x|)))
  {
    hide Mul, DftAt, Dft, Pow, Poly, Mirrored, ConjAll, Conj, IsRootFamily;
    var n := |x|;
    var X := Dft(x, root(n));
    forall k | 0 <= k < n ensures Mirrored(ConjAll(X))[k] == X[k] {
      RealOutputSymmetric(x, root, k);
    }
  }

  lemma RealOutputSymmetric(x: seq<Complex>, root: nat -> Complex, k: nat)
    requires IsRootFamily(root) && IsPowerOfTwo(|x|) && IsReal(x) && k < |x|
    ensures Conj(DftAt(x, root(|x|), if k == 0 then 0 else |x| - k)) == DftAt(x, root(|x|), k)
  {
    hide Mul, DftAt, Pow, Poly, IsRootFamily;
    var w, j := root(|x|), if k == 0 then 0 else |x| - k;
    assert ConjAll(x) == x;
    DftAtIsPoly(x, w, j);
    DftAtIsPoly(x, w, k);
    PolyConj(x, Pow(w, j));
    ConjPow(w, j);
    ConjugatePower(root, |x|, k);
  }

  /** The conjugate of w^(n-k) is w^k. */
  lemma ConjugatePower(root: nat -> Complex, n: nat, k: nat)
    requires IsRootFamily(root) && IsPowerOfTwo(n) && k < n
    ensures Pow(Conj(root(n)), if k == 0 then 0 else n - k) == Pow(root(n), k)
  {
    hide Mul, Pow;
    var w, u := root(n), Conj(root(n));
    PowSmall(w);
    PowSmall(u);
    if k > 0 {
      var j := n - k;
      UnitModulus(root, n);
      PowInverse(w, u, j);
      HalfTurn(root, n);
      PowAdd(w, k, j);
      MulAssoc(Pow(w, k), Pow(w, j), Pow(u, j));
      MulUnits(Pow(w, k));
      MulUnits(Pow(u, j));
    }
  }

  // ---- The analytic signal ----

  /** Negative frequencies zeroed, positive ones doubled, DC and Nyquist kept. */
  function OneSided(X: seq<Complex>): (H: seq<Complex>)
    ensures |H| == |X|
    ensures forall k :: 0 <= k < |X| ==>
      H[k] == if k > |X| / 2 then ZERO else if 1 <= k < |X| / 2 then Scale(2.0, X[k]) else X[k]
  {
    seq(|X|, k requires 0 <= k < |X| =>
      if k > |X| / 2 then ZERO else if 1 <= k < |X| / 2 then Scale(2.0, X[k]) else X[k])
  }

  /** The inverse transform of the one-sided spectrum. */
  function Analytic(x: seq<Complex>, w: Complex): (a: seq<Complex>)
    requires x != []
    ensures |a| == |x|
  {
    ScaleAll(1.0 / |x| as real, Dft(OneSided(Dft(x, w)), Conj(w)))
  }

  /** Half a one-sided spectrum, mirrored and added to itself, is the whole spectrum. */
  lemma OneSidedSymmetrised(X: seq<Complex>)
    requires IsPowerOfTwo(|X|) && IsSymmetric(X)
    ensures AddAll(OneSided(X), Mirrored(ConjAll(OneSided(X)))) == ScaleAll(2.0, X)
  {
    hide Add, Scale, Conj, OneSided, Mirrored, ConjAll, AddAll, ScaleAll, IsSymmetric;
    var n, H := |X|, OneSided(X);
    assert n == 1 || n % 2 == 0;
    hide IsPowerOfTwo;
    forall k | 0 <= k < n
      ensures Add(H[k], Conj(H[if k == 0 then 0 else n - k])) == Scale(2.0, X[k])
    {
      var j := if k == 0 then 0 else n - k;
      SymmetricAt(X, k);
      MirrorPair(X[k], X[j]);
    }
  }

  lemma SymmetricAt(X: seq<Complex>, k: nat)
    requires IsSymmetric(X) && k < |X|
    ensures X[k] == Conj(X[if k == 0 then 0 else |X| - k])
  {
    hide Conj, Mirrored, ConjAll;
    assert X[k] == Mirrored(ConjAll(X))[k];
  }

  lemma MirrorPair(a: Complex, b: Complex)
    requires a == Conj(b)
    ensures Add(a, Conj(b)) == Scale(2.0, a)
    ensures Add(Scale(2.0, a), Conj(ZERO)) == Scale(2.0, a)
    ensures Add(ZERO, Conj(Scale(2.0, b))) == Scale(2.0, a)
  {
    hide Mul, Conj;
    ConjReal(ZERO);
    ConjScale(2.0, b);
    MulUnits(Scale(2.0, a));
  }

  /** The real part of the analytic signal is the signal itself. */
  lemma AnalyticRealPart(x: seq<Complex>, root: nat -> Complex, m: nat)
    requires IsRootFamily(root) && IsPowerOfTwo(|x|) && IsReal(x) && m < |x|
    ensures Analytic(x, root(|x|))[m].re == x[m].re
  {
    hide Mul, DftAt, Dft, Pow, Poly, Mirrored, OneSided, ConjAll, AddAll, ScaleAll, IsRootFamily;
    var n := |x|;
    var w := root(n);
    var u := Conj(w);
    var X := Dft(x, w);
    var H := OneSided(X);
    var z, v := Pow(w, m), Pow(u, m);
    var a := DftAt(H, u, m);
    DftAtIsPoly(H, u, m);
    PolyConj(H, v);
    ConjPow(u, m);
    ConjConj(w);
    assert Conj(a) == Poly(ConjAll(H), z);
    UnitModulus(root, n);
    PowInverse(w, u, m);
    ConjugateRootsAreRoots(root);
    FullTurns(ConjugateRoots(root), n, m);
    PolyMirrored(ConjAll(H), z, v);
    PolyAdd(H, Mirrored(ConjAll(H)), v);
    RealSpectrumSymmetric(x, root);
    OneSidedSymmetrised(X);
    PolyScale(2.0, X, v);
    DftAtIsPoly(X, u, m);
    Inversion(x, root, m);
    assert Add(a, Conj(a)) == Scale(2.0, Scale(n as real, x[m]));
    HalvedRealPart(n as real, a, x[m]);
  }

  lemma HalvedRealPart(n: real, a: Complex, b: Complex)
    requires n > 0.0 && Add(a, Conj(a)) == Scale(2.0, Scale(n, b))
    ensures Scale(1.0 / n, a).re == b.re
  {
    assert a.re == n * b.re;
    assert 1.0 / n * n == 1.0;
    assert 1.0 / n * (n * b.re) == (1.0 / n * n) * b.re;
  }

  /** The analytic signal has no negative frequencies: transforming it gives the one-sided spectrum back. */
  lemma AnalyticSpectrum(x: seq<Complex>, root: nat -> Complex)
    requires IsRootFamily(root) && IsPowerOfTwo(|x|)
    ensures Dft(Analytic(x, root(|x|)), root(|x|)) == OneSided(Dft(x, root(|x|)))
  {
    hide Mul, DftAt, Dft, Pow, Poly, OneSided, ScaleAll, Conj, Scale;
    var n, w := |x|, root(|x|);
    var H := OneSided(Dft(x, w));
    var y := Dft(H, Conj(w));
    forall k | 0 <= k < n
      ensures DftAt(Analytic(x, w), w, k) == H[k]
    {
      ConjugateRootsAreRoots(root);
      ConjConj(w);
      Inversion(H, ConjugateRoots(root), k);
      DftAtIsPoly(y, w, k);
      DftAtIsPoly(Analytic(x, w), w, k);
      PolyScale(1.0 / n as real, y, Pow(w, k));
      ScaleBack(n as real, H[k]);
    }
  }

  /** `hilbert_envelope`: magnitude of the analytic signal, never below the signal's own magnitude. */
  method HilbertEnvelope(signal: seq<real>, root: nat -> Complex, sqrt: real -> real) returns (envelope: seq<real>, ghost p: nat)
    requires IsRootFamily(root) && IsSquareRoot(sqrt)
    ensures IsPowerOfTwo(p) && p >= |signal| && forall q: nat :: IsPowerOfTwo(q) && q >= |signal| ==> p <= q
    ensures |envelope| == |signal|
    ensures forall i :: 0 <= i < |signal| ==>
      envelope[i] == sqrt(NormSq(Analytic(Padded(signal, p), root(p))[i]))
    ensures forall i :: 0 <= i < |signal| ==> envelope[i] >= Abs(signal[i])
  {
    hide Mul, DftAt, Dft, OneSided, ConjAll, ScaleAll, Conj, Scale, Pow, NormSq;
    var n := |signal|;
    var padded := PaddedLength(n);
    p := padded;
    var zeros := seq(padded - n, _ => 0.0);
    var spectrum := Fft(signal + zeros, root);
    ghost var x := Padded(signal, p);
    assert |spectrum| == p;
    assert Padded(signal + zeros, p) == x;
    ghost var X := Dft(x, root(p));

    var half := padded / 2;
    for i := half + 1 to padded
      invariant |spectrum| == p
      invariant forall k :: 0 <= k < p ==> spectrum[k] == if half < k < i then ZERO else X[k]
    {
      spectrum := spectrum[i := ZERO];
    }
    var i := 1;
    while i < half
      invariant 1 <= i && (half == 0 || i <= half)
      invariant |spectrum| == p
      invariant forall k :: 0 <= k < p ==>
        spectrum[k] == if half < k then ZERO else if 1 <= k < i && k < half then Scale(2.0, X[k]) else X[k]
    {
      spectrum := spectrum[i := Scale(2.0, spectrum[i])];
      i := i + 1;
    }
    assert spectrum == OneSided(X);

    var conjSpectrum := ConjAll(spectrum);
    var analytic := FftRecursive(conjSpectrum, root);
    ConjugateTrick(spectrum, root(p));
    analytic := ScaleAll(1.0 / padded as real, ConjAll(analytic));
    assert analytic == Analytic(x, root(p));

    envelope := [];
    for i := 0 to n
      invariant |envelope| == i
      invariant forall k :: 0 <= k < i ==>
        envelope[k] == sqrt(NormSq(analytic[k])) && envelope[k] >= Abs(signal[k])
    {
      envelope := envelope + [sqrt(NormSq(analytic[i]))];
      AnalyticRealPart(x, root, i);
      MagnitudeBound(analytic[i], sqrt);
    }
  }

  lemma MagnitudeBound(a: Complex, sqrt: real -> real)
    requires IsSquareRoot(sqrt)
    ensures sqrt(NormSq(a)) >= Abs(a.re)
  {
    SquareNonNegative(a.re);
    SquareNonNegative(a.im);
    SquareReflectsOrder(Abs(a.re), sqrt(NormSq(a)));
  }
}
