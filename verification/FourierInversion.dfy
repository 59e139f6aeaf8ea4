/** The conjugate trick inverts the transform, proved by splitting outputs by parity. */
module FourierInversion {
  import opened ComplexNumbers
  import opened Fourier

  function ConjAll(x: seq<Complex>): (r: seq<Complex>)
    ensures |r| == |x| && forall i :: 0 <= i < |x| ==> r[i] == Conj(x[i])
  {
    seq(|x|, i requires 0 <= i < |x| => Conj(x[i]))
  }

  function ScaleAll(s: real, x: seq<Complex>): (r: seq<Complex>)
    ensures |r| == |x| && forall i :: 0 <= i < |x| ==> r[i] == Scale(s, x[i])
  {
    seq(|x|, i requires 0 <= i < |x| => Scale(s, x[i]))
  }

  function AddAll(a: seq<Complex>, b: seq<Complex>): (r: seq<Complex>)
    requires |a| == |b|
    ensures |r| == |a| && forall i :: 0 <= i < |a| ==> r[i] == Add(a[i], b[i])
  {
    seq(|a|, i requires 0 <= i < |a| => Add(a[i], b[i]))
  }

  function SubAll(a: seq<Complex>, b: seq<Complex>): (r: seq<Complex>)
    requires |a| == |b|
    ensures |r| == |a| && forall i :: 0 <= i < |a| ==> r[i] == Sub(a[i], b[i])
  {
    seq(|a|, i requires 0 <= i < |a| => Sub(a[i], b[i]))
  }

  /** x[j] * w^(s + j) */
  function Twisted(x: seq<Complex>, w: Complex, s: nat): (r: seq<Complex>)
    ensures |r| == |x| && forall j :: 0 <= j < |x| ==> r[j] == Mul(x[j], Pow(w, s + j))
  {
    seq(|x|, j requires 0 <= j < |x| => Mul(x[j], Pow(w, s + j)))
  }

  // ---- Linearity ----

  lemma {:induction false} PolyAdd(a: seq<Complex>, b: seq<Complex>, z: Complex)
    requires |a| == |b|
    ensures Poly(AddAll(a, b), z) == Add(Poly(a, z), Poly(b, z))
  {
    hide Mul, AddAll;
    if a != [] {
      PolyAdd(a[1..], b[1..], z);
      assert AddAll(a, b)[1..] == AddAll(a[1..], b[1..]);
      MulAdd(z, Poly(a[1..], z), Poly(b[1..], z));
    }
  }

  lemma {:induction false} PolySub(a: seq<Complex>, b: seq<Complex>, z: Complex)
    requires |a| == |b|
    ensures Poly(SubAll(a, b), z) == Sub(Poly(a, z), Poly(b, z))
  {
    hide Mul, SubAll;
    if a != [] {
      PolySub(a[1..], b[1..], z);
      assert SubAll(a, b)[1..] == SubAll(a[1..], b[1..]);
      MulSub(z, Poly(a[1..], z), Poly(b[1..], z));
    }
  }

  lemma {:induction false} PolyScale(s: real, a: seq<Complex>, z: Complex)
    ensures Poly(ScaleAll(s, a), z) == Scale(s, Poly(a, z))
  {
    hide Mul, ScaleAll;
    if a != [] {
      PolyScale(s, a[1..], z);
      assert ScaleAll(s, a)[1..] == ScaleAll(s, a[1..]);
      MulScale(s, z, Poly(a[1..], z));
    }
  }

  lemma {:induction false} PolyConj(a: seq<Complex>, z: Complex)
    ensures Conj(Poly(a, z)) == Poly(ConjAll(a), Conj(z))
  {
    hide Mul, ConjAll;
    if a != [] {
      PolyConj(a[1..], z);
      assert ConjAll(a)[1..] == ConjAll(a[1..]);
      ConjMul(z, Poly(a[1..], z));
    }
  }

  lemma {:induction false} PolyTwisted(x: seq<Complex>, w: Complex, s: nat, y: Complex)
    ensures Poly(Twisted(x, w, s), y) == Mul(Pow(w, s), Poly(x, Mul(w, y)))
  {
    hide Mul, Twisted, Poly;
    if x == [] {
      EmptyPoly(y);
      EmptyPoly(Mul(w, y));
      MulUnits(Pow(w, s));
    } else {
      var t := x[1..];
      PolyTwisted(t, w, s + 1, y);
      assert Twisted(x, w, s) == [Mul(x[0], Pow(w, s))] + Twisted(t, w, s + 1);
      assert x == [x[0]] + t;
      PolyCons(Mul(x[0], Pow(w, s)), Twisted(t, w, s + 1), y);
      PolyCons(x[0], t, Mul(w, y));
      TwistStep(Pow(w, s), w, y, x[0], Poly(t, Mul(w, y)));
    }
  }

  lemma TwistStep(p: Complex, w: Complex, y: Complex, a: Complex, r: Complex)
    ensures Add(Mul(a, p), Mul(y, Mul(Mul(w, p), r))) == Mul(p, Add(a, Mul(Mul(w, y), r)))
  {
    hide Mul;
    MulAdd(p, a, Mul(Mul(w, y), r));
    MulComm(a, p);
    MulAssoc(y, Mul(w, p), r);
    MulAssoc(y, w, p);
    MulComm(y, w);
    MulComm(Mul(w, y), p);
    MulAssoc(p, Mul(w, y), r);
  }

  // ---- Outputs split by parity are half-length transforms ----

  function FoldSum(x: seq<Complex>): (r: seq<Complex>)
    requires |x| % 2 == 0
    ensures |r| == |x| / 2
  {
    AddAll(x[..|x| / 2], x[|x| / 2..])
  }

  function FoldDifference(x: seq<Complex>): (r: seq<Complex>)
    requires |x| % 2 == 0
    ensures |r| == |x| / 2
  {
    SubAll(x[..|x| / 2], x[|x| / 2..])
  }

  /** Where z^h is 1 the two halves add up; where it is -1 they subtract. */
  lemma PolyFolded(lo: seq<Complex>, hi: seq<Complex>, z: Complex)
    requires |lo| == |hi|
    ensures Pow(z, |lo|) == ONE ==> Poly(lo + hi, z) == Poly(AddAll(lo, hi), z)
    ensures Pow(z, |lo|) == MINUS_ONE ==> Poly(lo + hi, z) == Poly(SubAll(lo, hi), z)
  {
    hide Mul, Pow, Poly, AddAll, SubAll;
    PolyConcat(lo, hi, z);
    MulUnits(Poly(hi, z));
    PolyAdd(lo, hi, z);
    PolySub(lo, hi, z);
  }

  lemma EvenOutput(x: seq<Complex>, root: nat -> Complex, k: nat)
    requires IsRootFamily(root) && IsPowerOfTwo(|x|) && |x| >= 2
    ensures DftAt(x, root(|x|), 2 * k) == DftAt(FoldSum(x), root(|x| / 2), k)
  {
    hide Mul, Add, Sub, Pow, Poly, DftAt, AddAll, IsRootFamily;
    var h := |x| / 2;
    var w := root(|x|);
    RootSquare(root, |x|);
    PowSquare(w, k);
    FullTurns(root, h, k);
    assert x == x[..h] + x[h..];
    PolyFolded(x[..h], x[h..], Pow(w, 2 * k));
    DftAtIsPoly(x, w, 2 * k);
    DftAtIsPoly(FoldSum(x), root(h), k);
  }

  lemma {:induction false} FullTurns(root: nat -> Complex, n: nat, k: nat)
    requires IsRootFamily(root) && IsPowerOfTwo(n)
    ensures Pow(Pow(root(n), k), n) == ONE
  {
    hide Mul, Pow;
    PowPow(root(n), k, n);
    PowPow(root(n), n, k);
    if n == 1 {
      PowSmall(ONE);
    } else {
      HalfTurn(root, n);
    }
    PowOne(k);
    assert k * n == n * k;
  }

  /** At an odd output the exponent's half turn contributes a factor -1. */
  lemma OddPower(root: nat -> Complex, n: nat, k: nat)
    requires IsRootFamily(root) && IsPowerOfTwo(n) && n >= 2
    ensures Pow(root(n), 2 * k + 1) == Mul(root(n), Pow(root(n / 2), k))
    ensures Pow(Pow(root(n), 2 * k + 1), n / 2) == MINUS_ONE
  {
    hide Mul, Pow, IsRootFamily;
    var w, h := root(n), n / 2;
    var y := Pow(root(h), k);
    RootSquare(root, n);
    PowSquare(w, k);
    PowAdd(w, 1, 2 * k);
    PowSmall(w);
    PowMulBase(w, y, h);
    HalfTurn(root, n);
    FullTurns(root, h, k);
    MulUnits(MINUS_ONE);
  }

  lemma OddOutput(x: seq<Complex>, root: nat -> Complex, k: nat)
    requires IsRootFamily(root) && IsPowerOfTwo(|x|) && |x| >= 2
    ensures DftAt(x, root(|x|), 2 * k + 1)
         == DftAt(Twisted(FoldDifference(x), root(|x|), 0), root(|x| / 2), k)
  {
    hide Mul, Add, Sub, Pow, Poly, DftAt, SubAll, Twisted, IsRootFamily;
    var h := |x| / 2;
    var w, d, y := root(|x|), FoldDifference(x), Pow(root(h), k);
    var z := Pow(w, 2 * k + 1);
    OddPower(root, |x|, k);
    assert x == x[..h] + x[h..];
    PolyFolded(x[..h], x[h..], z);
    PolyTwisted(d, w, 0, y);
    PowSmall(w);
    MulUnits(Poly(d, z));
    DftAtIsPoly(x, w, 2 * k + 1);
    DftAtIsPoly(Twisted(d, w, 0), root(h), k);
  }

  lemma OutputsByParity(x: seq<Complex>, root: nat -> Complex)
    requires IsRootFamily(root) && IsPowerOfTwo(|x|) && |x| >= 2
    ensures Evens(Dft(x, root(|x|))) == Dft(FoldSum(x), root(|x| / 2))
    ensures Odds(Dft(x, root(|x|))) == Dft(Twisted(FoldDifference(x), root(|x|), 0), root(|x| / 2))
  {
    hide DftAt, Dft, Mul, Pow, Twisted, AddAll, SubAll, Evens, Odds, IsRootFamily, FoldSum, FoldDifference;
    var n, h := |x|, |x| / 2;
    var X := Dft(x, root(n));
    var S := Dft(FoldSum(x), root(h));
    var D := Dft(Twisted(FoldDifference(x), root(n), 0), root(h));
    assert n == 2 * h;
    forall k | 0 <= k < h ensures Evens(X)[k] == S[k] && Odds(X)[k] == D[k] {
      EvenOutput(x, root, k);
      OddOutput(x, root, k);
      assert Evens(X)[k] == X[2 * k] == DftAt(x, root(n), 2 * k);
      assert Odds(X)[k] == X[2 * k + 1] == DftAt(x, root(n), 2 * k + 1);
    }
    assert |Evens(X)| == |S| && |Odds(X)| == |D|;
  }

  // ---- Inversion ----

  function ConjugateRoots(root: nat -> Complex): nat -> Complex {
    (n: nat) => Conj(root(n))
  }

  lemma ConjugateRootsAreRoots(root: nat -> Complex)
    requires IsRootFamily(root)
    ensures IsRootFamily(ConjugateRoots(root))
  {
    hide Mul, Conj;
    ConjReal(ONE);
    ConjReal(MINUS_ONE);
    forall p: nat | IsPowerOfTwo(p)
      ensures Mul(Conj(root(2 * p)), Conj(root(2 * p))) == Conj(root(p))
    {
      ConjMul(root(2 * p), root(2 * p));
    }
  }

  /** Transforming with the conjugate roots undoes the transform up to the factor n. */
  lemma {:induction false} Inversion(x: seq<Complex>, root: nat -> Complex, m: nat)
    requires IsRootFamily(root) && IsPowerOfTwo(|x|) && m < |x|
    ensures DftAt(Dft(x, root(|x|)), Conj(root(|x|)), m) == Scale(|x| as real, x[m])
    decreases |x|
  {
    hide Mul, Add, Sub, Scale, Conj, DftAt, Dft, Twisted, AddAll, SubAll, Evens, Odds, Pow;
    var n, h := |x|, |x| / 2;
    var w, X := root(n), Dft(x, root(n));
    if n == 1 {
      SingletonDft(x, w);
      SingletonDft(x, Conj(w));
      assert DftAt(x, Conj(w), 0) == Dft(x, Conj(w))[0];
      ScaleByOne(x[0]);
    } else {
      var k := if m < h then m else m - h;
      var d := FoldDifference(x);
      var q := Twisted(d, w, 0);
      OutputsByParity(x, root);
      Inversion(FoldSum(x), root, k);
      Inversion(q, root, k);
      ConjugateRootsAreRoots(root);
      Butterfly(X, ConjugateRoots(root), k);
      Untwist(root, n, k, h as real, d[k]);
      Unfold(h as real, x[k], x[k + h]);
    }
  }

  lemma Unfold(s: real, a: Complex, b: Complex)
    ensures Add(Scale(s, Add(a, b)), Scale(s, Sub(a, b))) == Scale(2.0 * s, a)
    ensures Sub(Scale(s, Add(a, b)), Scale(s, Sub(a, b))) == Scale(2.0 * s, b)
  {
  }

  lemma ScaleByOne(a: Complex)
    ensures Scale(1.0, a) == a
  {
  }

  lemma Untwist(root: nat -> Complex, n: nat, k: nat, s: real, a: Complex)
    requires IsRootFamily(root) && IsPowerOfTwo(n)
    ensures Mul(Pow(Conj(root(n)), k), Scale(s, Mul(a, Pow(root(n), k)))) == Scale(s, a)
  {
    hide Mul;
    var w := root(n);
    var p, c := Pow(w, k), Pow(Conj(w), k);
    UnitModulus(root, n);
    PowInverse(w, Conj(w), k);
    MulScale(s, c, Mul(a, p));
    MulComm(c, Mul(a, p));
    MulAssoc(a, p, c);
    MulUnits(a);
  }

  /** `conj(fft(conj(X)))` is the transform with conjugate roots. */
  lemma ConjugateTrick(X: seq<Complex>, w: Complex)
    ensures ConjAll(Dft(ConjAll(X), w)) == Dft(X, Conj(w))
  {
    hide Mul, DftAt, Dft, ConjAll, Conj;
    forall k | 0 <= k < |X|
      ensures Conj(DftAt(ConjAll(X), w, k)) == DftAt(X, Conj(w), k)
    {
      DftAtIsPoly(ConjAll(X), w, k);
      DftAtIsPoly(X, Conj(w), k);
      PolyConj(ConjAll(X), Pow(w, k));
      ConjPow(w, k);
      assert ConjAll(ConjAll(X)) == X by { ConjTwice(X); }
    }
  }

  lemma ConjTwice(x: seq<Complex>)
    ensures ConjAll(ConjAll(x)) == x
  {
  }

  /** conj(fft(conj(fft(x)))) / n == x for every x of power-of-two length. */
  lemma InverseTransform(x: seq<Complex>, root: nat -> Complex)
    requires IsRootFamily(root) && IsPowerOfTwo(|x|)
    ensures var w, n := root(|x|), |x| as real;
            ScaleAll(1.0 / n, ConjAll(Dft(ConjAll(Dft(x, w)), w))) == x
  {
    hide Mul, Scale, Conj, DftAt, Dft, ConjAll, ScaleAll;
    var w, n := root(|x|), |x| as real;
    var X := Dft(x, w);
    ConjugateTrick(X, w);
    forall m | 0 <= m < |x|
      ensures Scale(1.0 / n, Dft(X, Conj(w))[m]) == x[m]
    {
      Inversion(x, root, m);
      ScaleBack(n, x[m]);
    }
  }

  lemma ScaleBack(n: real, a: Complex)
    requires n > 0.0
    ensures Scale(1.0 / n, Scale(n, a)) == a
  {
    assert 1.0 / n * n == 1.0;
    assert 1.0 / n * (n * a.re) == (1.0 / n * n) * a.re;
    assert 1.0 / n * (n * a.im) == (1.0 / n * n) * a.im;
  }
}
