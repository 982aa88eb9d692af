/** The floating-point operations of the IGRF code, as parameters.
    Sums, differences and scaling by a literal constant are taken as exact
    real arithmetic; the product of two computed doubles, the division by a
    computed double and every library call (square root, trigonometry,
    powers) are these functions, and the few identities the proofs need are
    stated as laws a caller may assume of them. */
module FloatMath {
  /** Math.Sqrt, Math.Cos, Math.Sin, Math.Atan2, Math.Pow, and the
      division `x / y` and product `x * y` of two computed doubles. */
  datatype FloatOps = FloatOps(
    sqrt: real -> real,
    cos: real -> real,
    sin: real -> real,
    atan2: (real, real) -> real,
    pow: (real, real) -> real,
    div: (real, real) -> real,
    mul: (real, real) -> real)

  function Sqrt(ops: FloatOps, x: real): real { ops.sqrt(x) }
  function Cos(ops: FloatOps, x: real): real { ops.cos(x) }
  function Sin(ops: FloatOps, x: real): real { ops.sin(x) }
  function Atan2(ops: FloatOps, y: real, x: real): real { ops.atan2(y, x) }
  function Pow(ops: FloatOps, x: real, y: real): real { ops.pow(x, y) }
  function Div(ops: FloatOps, x: real, y: real): real { ops.div(x, y) }
  function Mul(ops: FloatOps, x: real, y: real): real { ops.mul(x, y) }

  /** The square root of a non-negative number is non-negative and squares
      back to it. */
  ghost predicate SqrtLaw(ops: FloatOps)
  {
    forall x :: x >= 0.0 ==> ops.sqrt(x) >= 0.0 && ops.sqrt(x) * ops.sqrt(x) == x
  }

  /** Division by a non-zero value is the exact quotient. */
  ghost predicate DivLaw(ops: FloatOps)
  {
    forall x, y :: y != 0.0 ==> ops.div(x, y) == x / y
  }

  /** Multiplication is the exact product. */
  ghost predicate MulLaw(ops: FloatOps)
  {
    forall x, y :: ops.mul(x, y) == x * y
  }

  /** The weaker laws that IEEE doubles also keep for finite values: a
      product with a zero factor is zero, zero divided by a non-zero value is
      zero, and a positive number has a positive root. */
  ghost predicate ZeroLaws(ops: FloatOps)
  {
    && (forall x :: ops.mul(0.0, x) == 0.0)
    && (forall x :: ops.mul(x, 0.0) == 0.0)
    && (forall y :: y != 0.0 ==> ops.div(0.0, y) == 0.0)
    && (forall x :: x > 0.0 ==> ops.sqrt(x) > 0.0)
  }

  /** An identity IEEE doubles keep exactly: negating the dividend
      negates the quotient. */
  ghost predicate SignLaw(ops: FloatOps)
  {
    forall x, y, z :: x + z == 0.0 ==> ops.div(z, y) == -ops.div(x, y)
  }

  /** Math.PI. */
  const Pi: real := 3.141592653589793

  function DegreesToRadians(degrees: real): real
  {
    degrees * Pi / 180.0
  }

  function RadiansToDegrees(radians: real): (d: real)
    ensures DegreesToRadians(d) == radians
  {
    radians * 180.0 / Pi
  }

  /** Under the law, the root of a square is the number itself. */
  lemma SqrtOfSquare(ops: FloatOps, a: real)
    requires SqrtLaw(ops) && a >= 0.0
    ensures ops.sqrt(a * a) == a
  {
    var x := ops.sqrt(a * a);
    SquaresOrdered(x, a);
    SquaresOrdered(a, x);
  }

  /** Of two non-negative numbers, the one with the smaller square is the
      smaller. */
  lemma SquaresOrdered(h: real, f: real)
    requires h >= 0.0 && f >= 0.0 && h * h <= f * f
    ensures h <= f
  {
    if f < h {
      MulPositive(h - f, h + f);
    }
  }

  lemma MulPositive(p: real, q: real)
    requires p > 0.0 && q > 0.0
    ensures p * q > 0.0
  {
  }

  /** Under the law, a positive number has a positive root. */
  lemma SqrtPositive(ops: FloatOps, x: real)
    requires SqrtLaw(ops) && x > 0.0
    ensures ops.sqrt(x) > 0.0
  {
  }
}
