/** Exact complex arithmetic: pairs of reals, standing for Python's `complex` without rounding. */
module ComplexNumbers {

  datatype Complex = Complex(re: real, im: real)

  const ZERO := Complex(0.0, 0.0)
  const ONE := Complex(1.0, 0.0)
  const MINUS_ONE := Complex(-1.0, 0.0)

  function Add(a: Complex, b: Complex): Complex {
    Complex(a.re + b.re, a.im + b.im)
  }

  function Sub(a: Complex, b: Complex): Complex {
    Complex(a.re - b.re, a.im - b.im)
  }

  function Mul(a: Complex, b: Complex): Complex {
    Complex(a.re * b.re - a.im * b.im, a.re * b.im + a.im * b.re)
  }

  function Scale(r: real, a: Complex): Complex {
    Complex(r * a.re, r * a.im)
  }

  function Conj(a: Complex): Complex {
    Complex(a.re, -a.im)
  }

  /** Squared magnitude. */
  function NormSq(a: Complex): real {
    a.re * a.re + a.im * a.im
  }

  function Pow(z: Complex, k: nat): Complex {
    if k == 0 then ONE else Mul(z, Pow(z, k - 1))
  }

  // Ring laws. Proofs elsewhere hide `Mul` and use these, which keeps products of reals away from the solver.

  lemma MulAssoc(a: Complex, b: Complex, c: Complex)
    ensures Mul(Mul(a, b), c) == Mul(a, Mul(b, c))
  {
  }

  lemma MulComm(a: Complex, b: Complex)
    ensures Mul(a, b) == Mul(b, a)
  {
  }

  lemma MulAdd(a: Complex, b: Complex, c: Complex)
    ensures Mul(a, Add(b, c)) == Add(Mul(a, b), Mul(a, c))
  {
  }

  lemma MulSub(a: Complex, b: Complex, c: Complex)
    ensures Mul(a, Sub(b, c)) == Sub(Mul(a, b), Mul(a, c))
  {
  }

  lemma MulUnits(a: Complex)
    ensures Add(ZERO, a) == a == Add(a, ZERO)
    ensures Mul(ONE, a) == a == Mul(a, ONE)
    ensures Mul(ZERO, a) == ZERO == Mul(a, ZERO)
    ensures Mul(MINUS_ONE, a) == Sub(ZERO, a) == Mul(a, MINUS_ONE)
  {
  }

  lemma MulScale(r: real, a: Complex, b: Complex)
    ensures Mul(a, Scale(r, b)) == Scale(r, Mul(a, b))
  {
  }

  lemma ConjMul(a: Complex, b: Complex)
    ensures Conj(Mul(a, b)) == Mul(Conj(a), Conj(b))
  {
  }

  /** Real numbers are their own conjugates. */
  lemma ConjReal(a: Complex)
    requires a.im == 0.0
    ensures Conj(a) == a
  {
  }

  lemma ConjConj(a: Complex)
    ensures Conj(Conj(a)) == a
  {
  }

  lemma ConjScale(r: real, a: Complex)
    ensures Conj(Scale(r, a)) == Scale(r, Conj(a))
  {
  }

  lemma MulConj(a: Complex)
    ensures Mul(a, Conj(a)) == Complex(NormSq(a), 0.0)
  {
  }

  lemma NormSqMul(a: Complex, b: Complex)
    ensures NormSq(Mul(a, b)) == NormSq(a) * NormSq(b)
  {
  }

  /** (ab)(cd) = (ac)(bd) */
  lemma MulSwap(a: Complex, b: Complex, c: Complex, d: Complex)
    ensures Mul(Mul(a, b), Mul(c, d)) == Mul(Mul(a, c), Mul(b, d))
  {
    hide Mul;
    MulAssoc(a, b, Mul(c, d));
    MulAssoc(b, c, d);
    MulComm(b, c);
    MulAssoc(c, b, d);
    MulAssoc(a, c, Mul(b, d));
  }

  lemma PowSmall(z: Complex)
    ensures Pow(z, 0) == ONE && Pow(z, 1) == z
  {
    hide Mul;
    MulUnits(z);
    assert Pow(z, 1) == Mul(z, Pow(z, 0));
  }

  lemma {:induction false} PowAdd(z: Complex, j: nat, k: nat)
    ensures Pow(z, j + k) == Mul(Pow(z, j), Pow(z, k))
  {
    hide Mul;
    MulUnits(Pow(z, k));
    if j > 0 {
      PowAdd(z, j - 1, k);
      MulAssoc(z, Pow(z, j - 1), Pow(z, k));
    }
  }

  lemma {:induction false} PowMulBase(a: Complex, b: Complex, k: nat)
    ensures Pow(Mul(a, b), k) == Mul(Pow(a, k), Pow(b, k))
  {
    hide Mul;
    MulUnits(ONE);
    if k > 0 {
      PowMulBase(a, b, k - 1);
      MulSwap(a, b, Pow(a, k - 1), Pow(b, k - 1));
    }
  }

  lemma {:induction false} PowPow(z: Complex, j: nat, k: nat)
    ensures Pow(Pow(z, k), j) == Pow(z, j * k)
  {
    hide Mul;
    if j > 0 {
      PowPow(z, j - 1, k);
      PowAdd(z, k, (j - 1) * k);
      assert k + (j - 1) * k == j * k;
    }
  }

  lemma {:induction false} PowOne(k: nat)
    ensures Pow(ONE, k) == ONE
  {
    hide Mul;
    MulUnits(ONE);
    if k > 0 {
      PowOne(k - 1);
    }
  }

  lemma {:induction false} ConjPow(z: Complex, k: nat)
    ensures Conj(Pow(z, k)) == Pow(Conj(z), k)
  {
    hide Mul;
    if k > 0 {
      ConjPow(z, k - 1);
      ConjMul(z, Pow(z, k - 1));
    }
  }

  /** Two numbers whose product is one stay inverse to each other in every power. */
  lemma PowInverse(z: Complex, u: Complex, k: nat)
    requires Mul(z, u) == ONE
    ensures Mul(Pow(z, k), Pow(u, k)) == ONE
  {
    hide Mul;
    PowMulBase(z, u, k);
    PowOne(k);
  }
}
