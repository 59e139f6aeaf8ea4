/** The radix-2 fast Fourier transform of the micro-edge signal processor and the sum it stands for. */
module Fourier {
  import opened ComplexNumbers

  predicate IsPowerOfTwo(n: int) {
    n == 1 || (n >= 2 && n % 2 == 0 && IsPowerOfTwo(n / 2))
  }

  /** What the transform needs of the twiddle factors `root(n) = exp(-2 pi i / n)`. */
  ghost predicate IsRootFamily(root: nat -> Complex) {
    && root(1) == ONE
    && root(2) == MINUS_ONE
    && forall p: nat {:trigger IsPowerOfTwo(p)} :: IsPowerOfTwo(p) ==> Mul(root(2 * p), root(2 * p)) == root(p)
  }

  // ---- The discrete Fourier transform as it is defined ----

  /** The first `n` terms of the sum of x[j] * w^(j k). */
  function DftPartialSum(x: seq<Complex>, w: Complex, k: nat, n: nat): Complex
    requires n <= |x|
  {
    if n == 0 then ZERO
    else Add(DftPartialSum(x, w, k, n - 1), Mul(x[n - 1], Pow(w, (n - 1) * k)))
  }

  function DftAt(x: seq<Complex>, w: Complex, k: nat): Complex {
    DftPartialSum(x, w, k, |x|)
  }

  function Dft(x: seq<Complex>, w: Complex): (X: seq<Complex>)
    ensures |X| == |x|
    ensures forall k :: 0 <= k < |x| ==> X[k] == DftAt(x, w, k)
  {
    seq(|x|, k requires 0 <= k < |x| => DftAt(x, w, k))
  }

  // ---- Polynomials: the same transform in Horner form ----

  function Poly(x: seq<Complex>, z: Complex): Complex {
    if x == [] then ZERO else Add(x[0], Mul(z, Poly(x[1..], z)))
  }

  lemma EmptyPoly(z: Complex)
    ensures Poly([], z) == ZERO
  {
  }

  lemma PolyCons(a: Complex, t: seq<Complex>, z: Complex)
    ensures Poly([a] + t, z) == Add(a, Mul(z, Poly(t, z)))
  {
    hide Mul;
    assert ([a] + t)[1..] == t;
  }

  lemma {:induction false} PolyConcat(a: seq<Complex>, b: seq<Complex>, z: Complex)
    ensures Poly(a + b, z) == Add(Poly(a, z), Mul(Pow(z, |a|), Poly(b, z)))
  {
    hide Mul, Poly;
    if a == [] {
      assert a + b == b;
      EmptyPoly(z);
      MulUnits(Poly(b, z));
    } else {
      PolyConcat(a[1..], b, z);
      assert a == [a[0]] + a[1..] && a + b == [a[0]] + (a[1..] + b);
      PolyCons(a[0], a[1..] + b, z);
      PolyCons(a[0], a[1..], z);
      MulAdd(z, Poly(a[1..], z), Mul(Pow(z, |a| - 1), Poly(b, z)));
      MulAssoc(z, Pow(z, |a| - 1), Poly(b, z));
    }
  }

  lemma {:induction false} PartialSumIsPoly(x: seq<Complex>, w: Complex, k: nat, n: nat)
    requires n <= |x|
    ensures DftPartialSum(x, w, k, n) == Poly(x[..n], Pow(w, k))
  {
    hide Mul;
    if n > 0 {
      var z := Pow(w, k);
      PartialSumIsPoly(x, w, k, n - 1);
      assert x[..n] == x[..n - 1] + [x[n - 1]];
      PolyConcat(x[..n - 1], [x[n - 1]], z);
      MulUnits(z);
      PowPow(w, n - 1, k);
      MulComm(x[n - 1], Pow(z, n - 1));
      assert Poly([x[n - 1]], z) == x[n - 1];
    }
  }

  lemma DftAtIsPoly(x: seq<Complex>, w: Complex, k: nat)
    ensures DftAt(x, w, k) == Poly(x, Pow(w, k))
  {
    PartialSumIsPoly(x, w, k, |x|);
    assert x[..|x|] == x;
  }

  // ---- Splitting by parity ----

  /** `x[0::2]` */
  function Evens<T>(x: seq<T>): (r: seq<T>)
    ensures |r| == (|x| + 1) / 2
    ensures forall i :: 0 <= i < |r| ==> r[i] == x[2 * i]
  {
    seq((|x| + 1) / 2, i requires 0 <= i < (|x| + 1) / 2 => x[2 * i])
  }

  /** `x[1::2]` */
  function Odds<T>(x: seq<T>): (r: seq<T>)
    ensures |r| == |x| / 2
    ensures forall i :: 0 <= i < |r| ==> r[i] == x[2 * i + 1]
  {
    seq(|x| / 2, i requires 0 <= i < |x| / 2 => x[2 * i + 1])
  }

  lemma ParityCons<T>(x: seq<T>)
    requires |x| >= 2
    ensures Evens(x) == [x[0]] + Evens(x[2..])
    ensures Odds(x) == [x[1]] + Odds(x[2..])
  {
  }

  lemma {:induction false} PolySplit(x: seq<Complex>, z: Complex)
    requires |x| % 2 == 0
    ensures Poly(x, z) == Add(Poly(Evens(x), Mul(z, z)), Mul(z, Poly(Odds(x), Mul(z, z))))
  {
    hide Mul, Add, Poly, Evens, Odds;
    if x == [] {
      EmptyPoly(z);
      EmptyPoly(Mul(z, z));
      MulUnits(ZERO);
      MulUnits(z);
    } else {
      var t, zz := x[2..], Mul(z, z);
      var e, o := Poly(Evens(t), zz), Poly(Odds(t), zz);
      PolySplit(t, z);
      assert x == [x[0]] + ([x[1]] + t);
      PolyCons(x[0], [x[1]] + t, z);
      PolyCons(x[1], t, z);
      ParityCons(x);
      PolyCons(x[0], Evens(t), zz);
      PolyCons(x[1], Odds(t), zz);
      RegroupByParity(z, x[0], x[1], e, o);
    }
  }

  lemma RegroupByParity(z: Complex, a: Complex, b: Complex, e: Complex, o: Complex)
    ensures Add(a, Mul(z, Add(b, Mul(z, Add(e, Mul(z, o))))))
         == Add(Add(a, Mul(Mul(z, z), e)), Mul(z, Add(b, Mul(Mul(z, z), o))))
  {
    hide Mul;
    var s, zz := Add(e, Mul(z, o)), Mul(z, z);
    MulAdd(z, b, Mul(z, s));
    MulAssoc(z, z, s);
    MulAdd(zz, e, Mul(z, o));
    MulAdd(z, b, Mul(zz, o));
    MulAssoc(zz, z, o);
    MulAssoc(z, zz, o);
    MulComm(zz, z);
  }

  // ---- Roots of unity ----

  lemma PowSquare(z: Complex, k: nat)
    ensures Pow(Mul(z, z), k) == Mul(Pow(z, k), Pow(z, k)) == Pow(z, 2 * k)
  {
    hide Mul;
    PowMulBase(z, z, k);
    PowAdd(z, k, k);
  }

  lemma RootSquare(root: nat -> Complex, n: nat)
    requires IsRootFamily(root) && IsPowerOfTwo(n) && n >= 2
    ensures IsPowerOfTwo(n / 2) && Mul(root(n), root(n)) == root(n / 2)
  {
    hide Mul;
    var h := n / 2;
    assert n == 2 * h;
    assert Mul(root(2 * h), root(2 * h)) == root(h);
  }

  lemma {:induction false} HalfTurn(root: nat -> Complex, n: nat)
    requires IsRootFamily(root) && IsPowerOfTwo(n) && n >= 2
    ensures Pow(root(n), n / 2) == MINUS_ONE && Pow(root(n), n) == ONE
  {
    hide Mul;
    if n == 2 {
      assert Pow(root(2), 1) == Mul(root(2), Pow(root(2), 0));
      MulUnits(root(2));
    } else {
      HalfTurn(root, n / 2);
      RootSquare(root, n);
      PowSquare(root(n), n / 4);
    }
    PowAdd(root(n), n / 2, n / 2);
    MulUnits(MINUS_ONE);
  }

  /** Halfway round the circle flips the sign of a power. */
  lemma OppositePower(root: nat -> Complex, n: nat, k: nat)
    requires IsRootFamily(root) && IsPowerOfTwo(n) && n >= 2
    ensures Pow(root(n), k + n / 2) == Sub(ZERO, Pow(root(n), k))
    ensures Pow(root(n), k + n) == Pow(root(n), k)
  {
    hide Mul;
    HalfTurn(root, n);
    PowAdd(root(n), k, n / 2);
    PowAdd(root(n), k, n);
    MulUnits(Pow(root(n), k));
  }

  lemma {:induction false} UnitModulus(root: nat -> Complex, n: nat)
    requires IsRootFamily(root) && IsPowerOfTwo(n)
    ensures Mul(root(n), Conj(root(n))) == ONE
  {
    hide Mul, NormSq, Conj;
    if n == 1 {
      ConjReal(ONE);
      MulUnits(ONE);
    } else {
      UnitModulus(root, n / 2);
      RootSquare(root, n);
      UnitNorm(root(n / 2));
      NormSqMul(root(n), root(n));
      UnitNorm(root(n));
      UnitSquare(NormSq(root(n)));
    }
  }

  lemma UnitNorm(z: Complex)
    ensures NormSq(z) >= 0.0
    ensures Mul(z, Conj(z)) == ONE <==> NormSq(z) == 1.0
  {
    hide Mul, Conj;
    MulConj(z);
    assert z.re * z.re >= 0.0 && z.im * z.im >= 0.0;
  }

  lemma UnitSquare(r: real)
    requires r >= 0.0 && r * r == 1.0
    ensures r == 1.0
  {
    if r != 1.0 {
      assert (r - 1.0) * (r + 1.0) == 0.0;
      ZeroProduct(r - 1.0, r + 1.0);
    }
  }

  lemma ZeroProduct(a: real, b: real)
    requires a * b == 0.0
    ensures a == 0.0 || b == 0.0
  {
  }

  // ---- The fast transform ----

  /** One butterfly: the two outputs `k` and `k + n/2` from the two half-length transforms. */
  lemma Butterfly(x: seq<Complex>, root: nat -> Complex, k: nat)
    requires IsRootFamily(root) && IsPowerOfTwo(|x|) && |x| >= 2
    ensures var h := |x| / 2;
            var e := DftAt(Evens(x), root(h), k);
            var t := Mul(Pow(root(|x|), k), DftAt(Odds(x), root(h), k));
            DftAt(x, root(|x|), k) == Add(e, t) && DftAt(x, root(|x|), k + h) == Sub(e, t)
  {
    hide Mul, Poly, DftAt, Pow, Evens, Odds, IsRootFamily, Add;
    var n, h := |x|, |x| / 2;
    var w := root(n);
    var z, y := Pow(w, k), Pow(w, k + h);
    RootSquare(root, n);
    PowSquare(w, k);
    PolySplit(x, z);
    PolySplit(x, y);
    OppositePower(root, n, k);
    NegatedProducts(z, Poly(Odds(x), Pow(root(h), k)));
    AddNegative(Poly(Evens(x), Pow(root(h), k)), Mul(z, Poly(Odds(x), Pow(root(h), k))));
    DftAtIsPoly(x, w, k);
    DftAtIsPoly(x, w, k + h);
    DftAtIsPoly(Evens(x), root(h), k);
    DftAtIsPoly(Odds(x), root(h), k);
  }

  lemma AddNegative(a: Complex, b: Complex)
    ensures Add(a, Sub(ZERO, b)) == Sub(a, b)
  {
  }

  lemma NegatedProducts(z: Complex, a: Complex)
    ensures Mul(Sub(ZERO, z), Sub(ZERO, z)) == Mul(z, z)
    ensures Mul(Sub(ZERO, z), a) == Sub(ZERO, Mul(z, a))
  {
  }

  /** `_fft_recursive`: on every power-of-two length the fast transform is the defining sum. */
  method FftRecursive(x: seq<Complex>, root: nat -> Complex) returns (spectrum: seq<Complex>)
    requires IsRootFamily(root) && IsPowerOfTwo(|x|)
    ensures spectrum == Dft(x, root(|x|))
    decreases |x|
  {
    hide Mul, Add, Sub, Pow, Dft, DftAt, Evens, Odds, IsRootFamily;
    var n := |x|;
    if n <= 1 {
      SingletonDft(x, root(n));
      return x;
    }
    if n == 2 {
      spectrum := [Add(x[0], x[1]), Sub(x[0], x[1])];
      PairDft(x, root);
      return;
    }
    var even := FftRecursive(Evens(x), root);
    var odd := FftRecursive(Odds(x), root);
    var half := n / 2;
    ghost var w, X := root(n), Dft(x, root(n));
    var result := new Complex[n](_ => ZERO);
    for k := 0 to half
      invariant forall j {:trigger result[j]} :: 0 <= j < k || half <= j < half + k ==> result[j] == X[j]
    {
      var t := Mul(Pow(root(n), k), odd[k]);
      Butterfly(x, root, k);
      result[k] := Add(even[k], t);
      result[k + half] := Sub(even[k], t);
    }
    spectrum := result[..];
  }

  lemma SingletonDft(x: seq<Complex>, w: Complex)
    requires |x| == 1
    ensures Dft(x, w) == x
  {
    hide Mul;
    MulUnits(x[0]);
    assert DftAt(x, w, 0) == Add(DftPartialSum(x, w, 0, 0), Mul(x[0], Pow(w, 0)));
  }

  lemma PairDft(x: seq<Complex>, root: nat -> Complex)
    requires IsRootFamily(root) && |x| == 2
    ensures Dft(x, root(2)) == [Add(x[0], x[1]), Sub(x[0], x[1])]
  {
    hide Mul, DftAt;
    Butterfly(x, root, 0);
    SingletonDft(Evens(x), root(1));
    SingletonDft(Odds(x), root(1));
    assert Evens(x) == [x[0]] && Odds(x) == [x[1]];
    assert DftAt(Evens(x), root(1), 0) == Dft(Evens(x), root(1))[0];
    assert DftAt(Odds(x), root(1), 0) == Dft(Odds(x), root(1))[0];
    MulUnits(x[1]);
  }

  /** Padding length: the least power of two that is at least `n` (and at least one). */
  method PaddedLength(n: nat) returns (p: nat)
    ensures IsPowerOfTwo(p) && p >= n
    ensures forall q: nat :: IsPowerOfTwo(q) && q >= n ==> p <= q
  {
    p := 1;
    while p < n
      invariant IsPowerOfTwo(p) && (p == 1 || p / 2 < n)
      decreases n - p
    {
      p := 2 * p;
    }
    forall q: nat | IsPowerOfTwo(q) && q < p ensures q < n {
      PowersDouble(q, p);
    }
  }

  lemma {:induction false} PowersDouble(q: nat, p: nat)
    requires IsPowerOfTwo(q) && IsPowerOfTwo(p) && q < p
    ensures 2 * q <= p
  {
    if q > 1 {
      PowersDouble(q / 2, p / 2);
    }
  }

  function ToComplex(signal: seq<real>): (x: seq<Complex>) {
    seq(|signal|, i requires 0 <= i < |signal| => Complex(signal[i], 0.0))
  }

  function Padded(signal: seq<real>, p: nat): (x: seq<Complex>)
    requires |signal| <= p
  {
    ToComplex(signal) + seq(p - |signal|, _ => ZERO)
  }

  /** `fft`: zero-pad to the least sufficient power of two, then transform. */
  method Fft(signal: seq<real>, root: nat -> Complex) returns (spectrum: seq<Complex>)
    requires IsRootFamily(root)
    ensures IsPowerOfTwo(|spectrum|) && |spectrum| >= |signal|
    ensures forall q: nat :: IsPowerOfTwo(q) && q >= |signal| ==> |spectrum| <= q
    ensures spectrum == Dft(Padded(signal, |spectrum|), root(|spectrum|))
  {
    var p := PaddedLength(|signal|);
    spectrum := FftRecursive(Padded(signal, p), root);
  }
}
