/** Facts about real numbers shared by the kernels. */
module RealMath {

  /** An exact square root, standing for `math.sqrt`. */
  ghost predicate IsSquareRoot(sqrt: real -> real) {
    forall v: real :: v >= 0.0 ==> sqrt(v) >= 0.0 && sqrt(v) * sqrt(v) == v
  }

  function Abs(v: real): (r: real)
    ensures r >= 0.0 && r * r == v * v
  {
    if v >= 0.0 then v else -v
  }

  lemma SquareNonNegative(v: real)
    ensures v * v >= 0.0
  {
  }

  lemma ProductNonNegative(a: real, b: real)
    requires a >= 0.0 && b >= 0.0
    ensures a * b >= 0.0
  {
  }

  lemma ProductMonotone(a: real, b: real, c: real)
    requires a <= b && c >= 0.0
    ensures a * c <= b * c
  {
  }

  /** Squaring reflects the order of non-negative numbers. */
  lemma SquareReflectsOrder(a: real, b: real)
    requires a >= 0.0 && b >= 0.0 && a * a <= b * b
    ensures a <= b
  {
    if a > b {
      StrictSquare(a, b);
    }
  }

  lemma StrictProduct(a: real, b: real)
    requires a > 0.0 && b > 0.0
    ensures a * b > 0.0
  {
  }

  lemma StrictSquare(a: real, b: real)
    requires a > b >= 0.0
    ensures a * a > b * b
  {
    StrictProduct(a - b, a + b);
    assert (a - b) * (a + b) == a * a - b * b;
  }

  /** A product behind a name, so that proofs can treat it as one quantity. */
  function Times(x: real, s: real): real {
    x * s
  }

  lemma TimesMonotone(a: real, b: real, c: real)
    requires a <= b && c >= 0.0
    ensures Times(a, c) <= Times(b, c) && Times(c, a) <= Times(c, b)
  {
    ProductMonotone(a, b, c);
  }

  lemma TimesOne(a: real)
    ensures Times(a, 1.0) == a && Times(0.0, a) == 0.0 == Times(a, 0.0)
  {
  }

  function Square(v: real): real {
    v * v
  }

  /** `sum(v * v for v in x)` */
  function SumSquares(x: seq<real>): (r: real)
    ensures r >= 0.0
  {
    SquareNonNegative(if x == [] then 0.0 else x[0]);
    if x == [] then 0.0 else Square(x[0]) + SumSquares(x[1..])
  }

  lemma SumSquaresCons(v: real, t: seq<real>)
    ensures SumSquares([]) == 0.0
    ensures SumSquares([v] + t) == Square(v) + SumSquares(t)
  {
    assert ([v] + t)[1..] == t;
  }
}
