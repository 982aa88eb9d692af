/** What the recurrences of LegendrePoly compute when the floating-point
    operations are exact: the classical Schmidt semi-normalised functions of
    low degree, and the vanishing patterns at the equator and the poles. */
module IgrfLegendreFacts {
  import opened FloatMath
  import opened IgrfLegendre

  /** Square root, division and product all exact. */
  ghost predicate Exact(ops: FloatOps)
  {
    SqrtLaw(ops) && DivLaw(ops) && MulLaw(ops)
  }

  lemma ExactKeepsZeroLaws(ops: FloatOps)
    requires Exact(ops)
    ensures ZeroLaws(ops)
  {
    forall x: real | x > 0.0
      ensures ops.sqrt(x) > 0.0
    {
      SqrtPositive(ops, x);
    }
  }

  lemma RootOfSquare(ops: FloatOps, k: nat, q: nat)
    requires SqrtLaw(ops) && q == k * k
    ensures Root(ops, q) == k as real
  {
    var x := k as real;
    assert q as real == x * x;
    SqrtOfSquare(ops, x);
    assert Root(ops, q) == ops.sqrt(x * x);
  }

  /** Degree one: P(1,0) = cos θ and P(1,1) = sin θ. */
  lemma DegreeOne(ops: FloatOps, c: real, s: real)
    requires Exact(ops)
    ensures P(ops, c, s, 1, 0) == c && P(ops, c, s, 1, 1) == s
  {
    RootOfSquare(ops, 1, 1);
  }

  /** Degree two: P(2,0) = (3 cos² θ - 1)/2, P(2,1) = √3 cos θ sin θ and
      P(2,2) = (√3/2) sin² θ. */
  lemma DegreeTwo(ops: FloatOps, c: real, s: real)
    requires Exact(ops)
    ensures P(ops, c, s, 2, 0) == (3.0 * c * c - 1.0) / 2.0
    ensures P(ops, c, s, 2, 1) == Sqrt(ops, 3.0) * c * s
    ensures P(ops, c, s, 2, 2) == Sqrt(ops, 3.0) * s * s / 2.0
  {
    DegreeOne(ops, c, s);
    RootOfSquare(ops, 1, 1);
    RootOfSquare(ops, 2, 4);
    assert Square(2) == 4;
    assert P(ops, c, s, 2, 0) == Div(ops, Mul(ops, Mul(ops, 3.0, c), c) - Mul(ops, Root(ops, 1), 1.0), Root(ops, 4));
    assert Mul(ops, Mul(ops, 3.0, c), c) == 3.0 * c * c;
    assert Mul(ops, Root(ops, 1), 1.0) == 1.0;
    assert P(ops, c, s, 2, 0) == Div(ops, 3.0 * c * c - 1.0, 2.0);
  }

  /** A column step whose two entries above are zero gives zero, and so
      does one at the equator whose entry two above is zero. */
  lemma ColumnOfZeros(ops: FloatOps, c: real, n: nat, m: nat, above: real, twoAbove: real)
    requires ZeroLaws(ops) && m < n && (c == 0.0 || above == 0.0) && twoAbove == 0.0
    ensures Column(ops, c, n, m, above, twoAbove) == 0.0
  {
    SquareMono(m, n);
    var rd := Root(ops, Square(n) - Square(m));
    assert rd > 0.0;
    var rde := Root(ops, Square(n) - Square(m) - (n + n - 1));
    var e := (n + n - 1) as real;
    assert Mul(ops, Mul(ops, e, c), above) == 0.0;
    assert Mul(ops, rde, twoAbove) == 0.0;
    assert Column(ops, c, n, m, above, twoAbove) == Div(ops, 0.0, rd);
  }

  /** At the equator (cos θ = 0) every function whose degree and order
      differ by an odd number is zero. */
  lemma {:induction false} EquatorOddVanish(ops: FloatOps, c: real, s: real, n: nat, m: nat)
    requires ZeroLaws(ops) && c == 0.0 && m <= n && (n - m) % 2 == 1
    ensures P(ops, c, s, n, m) == 0.0
    decreases n
  {
    forall k: nat | m <= k < n && (k - m) % 2 == 1
      ensures P(ops, c, s, k, m) == 0.0
    {
      EquatorOddVanish(ops, c, s, k, m);
    }
    EquatorStepVanish(ops, c, s, n, m);
  }

  /** One step of the equator induction, from the lower odd degrees. */
  lemma EquatorStepVanish(ops: FloatOps, c: real, s: real, n: nat, m: nat)
    requires ZeroLaws(ops) && c == 0.0 && m <= n && (n - m) % 2 == 1
    requires forall k: nat :: m <= k < n && (k - m) % 2 == 1 ==> P(ops, c, s, k, m) == 0.0
    ensures P(ops, c, s, n, m) == 0.0
  {
    if n > m + 1 {
      assert (n - 2 - m) % 2 == 1;
      ColumnOfZeros(ops, c, n, m, P(ops, c, s, n - 1, m), P(ops, c, s, n - 2, m));
    }
  }

  /** At the poles (sin θ = 0) every function of order m >= 1 is zero:
      only the zonal terms survive. */
  lemma {:induction false} PolesNonZonalVanish(ops: FloatOps, c: real, s: real, n: nat, m: nat)
    requires ZeroLaws(ops) && s == 0.0 && 1 <= m <= n
    ensures P(ops, c, s, n, m) == 0.0
    decreases n
  {
    forall k: nat, j: nat | 1 <= j <= k < n
      ensures P(ops, c, s, k, j) == 0.0
    {
      PolesNonZonalVanish(ops, c, s, k, j);
    }
    PolesStepVanish(ops, c, s, n, m);
  }

  /** One step of the poles induction, from the lower degrees. */
  lemma PolesStepVanish(ops: FloatOps, c: real, s: real, n: nat, m: nat)
    requires ZeroLaws(ops) && s == 0.0 && 1 <= m <= n
    requires forall k: nat, j: nat :: 1 <= j <= k < n ==> P(ops, c, s, k, j) == 0.0
    ensures P(ops, c, s, n, m) == 0.0
  {
    if n == m {
      if n > 1 {
        assert Root(ops, n + n) > 0.0;
      }
    } else if n > m + 1 {
      ColumnOfZeros(ops, c, n, m, P(ops, c, s, n - 1, m), P(ops, c, s, n - 2, m));
    }
  }
}
