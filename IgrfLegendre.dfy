/** LegendrePoly: the Schmidt semi-normalised associated Legendre functions
    and their colatitude derivatives, in one (nmax+1) x (nmax+2) table.
    The lower triangle Pnm[n,m] (m <= n) holds P(n,m); the strictly upper
    part Pnm[m,n+1] holds the derivative term of degree n and order m. */
module IgrfLegendre {
  import opened FloatMath

  /** cos θ and sin θ = sqrt(1 - cos² θ) of a colatitude in degrees. */
  function Costh(ops: FloatOps, theta: real): real
  {
    Cos(ops, DegreesToRadians(theta))
  }

  function Sinth(ops: FloatOps, theta: real): real
  {
    Sqrt(ops, 1.0 - Mul(ops, Costh(ops, theta), Costh(ops, theta)))
  }

  /** `rootn[k]`, the square root of k. */
  function Root(ops: FloatOps, k: int): real
  {
    Sqrt(ops, k as real)
  }

  // ---------------------------------------------------------------------
  // The single steps of the two passes, as functions of the entries they
  // read.

  /** P(m+1,m) from P(m,m), with r = sqrt(2m+1). */
  function SubDiagonal(ops: FloatOps, c: real, r: real, pmm: real): real
  {
    Mul(ops, c, Mul(ops, r, pmm))
  }

  /** P(m+1,m+1) from P(m,m), with r = sqrt(2m+1) and r2 = sqrt(2m+2). */
  function Sectoral(ops: FloatOps, s: real, r: real, r2: real, pmm: real): real
  {
    Div(ops, Mul(ops, s, Mul(ops, r, pmm)), r2)
  }

  /** P(n,m) from P(n-1,m) and P(n-2,m), with e = 2n - 1 and the square
      roots of d - e and d, d = n² - m². */
  function Recurrence(ops: FloatOps, c: real, e: int, above: real, twoAbove: real, rde: real, rd: real): real
  {
    Div(ops, Mul(ops, Mul(ops, e as real, c), above) - Mul(ops, rde, twoAbove), rd)
  }

  /** n², as the sum of the first n odd numbers. */
  function Square(n: nat): nat
  {
    if n == 0 then 0 else Square(n - 1) + n + n - 1
  }

  lemma {:induction false} SquareIsProduct(n: nat)
    ensures Square(n) == n * n
  {
    if n > 0 {
      SquareIsProduct(n - 1);
    }
  }

  /** The column step of degree n and order m. */
  function Column(ops: FloatOps, c: real, n: nat, m: nat, above: real, twoAbove: real): real
  {
    Recurrence(ops, c, n + n - 1, above, twoAbove, Root(ops, Square(n) - Square(m) - (n + n - 1)), Root(ops, Square(n) - Square(m)))
  }

  /** The derivative terms of degree n >= 2, stored at Pnm[m, n+1]. */
  function ZonalDerivative(ops: FloatOps, n: nat, pn1: real): real
  {
    -Mul(ops, Sqrt(ops, ((n * n + n) as real) / 2.0), pn1)
  }

  function FirstOrderDerivative(ops: FloatOps, n: nat, pn0: real, pn2: real): real
  {
    (Mul(ops, Sqrt(ops, (2 * (n * n + n)) as real), pn0) - Mul(ops, Sqrt(ops, (n * n + n - 2) as real), pn2)) / 2.0
  }

  function InnerDerivative(ops: FloatOps, n: nat, m: nat, lower: real, upper: real): real
  {
    0.5 * (Mul(ops, Sqrt(ops, ((n + m) * (n - m + 1)) as real), lower) - Mul(ops, Sqrt(ops, ((n + m + 1) * (n - m)) as real), upper))
  }

  function SectoralDerivative(ops: FloatOps, n: nat, pnn1: real): real
  {
    Mul(ops, Sqrt(ops, (2 * n) as real), pnn1) / 2.0
  }

  // ---------------------------------------------------------------------
  // The functions the table holds.

  /** P(0,0) = 1, P(1,1) = sin θ, and every other entry from the steps
      above: the sectoral P(m,m) from P(m-1,m-1), the first sub-diagonal
      from the diagonal, and the rest of each column from the two entries
      above. */
  function P(ops: FloatOps, c: real, s: real, n: nat, m: nat): real
    requires m <= n
    decreases n
  {
    if n == 0 then 1.0
    else if n == 1 && m == 1 then s
    else if n == m then Sectoral(ops, s, Root(ops, m + m - 1), Root(ops, m + m), P(ops, c, s, m - 1, m - 1))
    else if n == m + 1 then SubDiagonal(ops, c, Root(ops, m + m + 1), P(ops, c, s, m, m))
    else Column(ops, c, n, m, P(ops, c, s, n - 1, m), P(ops, c, s, n - 2, m))
  }

  /** Row n of the lower triangle, P(n,0) .. P(n,n). */
  function Row(ops: FloatOps, c: real, s: real, n: nat): (row: seq<real>)
    ensures |row| == n + 1
  {
    seq(n + 1, i requires 0 <= i <= n => P(ops, c, s, n, i))
  }

  /** The derivative term of order m computed from row n >= 2 of the lower
      triangle. */
  function Derivative(ops: FloatOps, n: nat, m: nat, row: seq<real>): real
    requires 2 <= n && m <= n && |row| == n + 1
  {
    if m == 0 then ZonalDerivative(ops, n, row[1])
    else if m == 1 then FirstOrderDerivative(ops, n, row[0], row[2])
    else if m < n then InnerDerivative(ops, n, m, row[m - 1], row[m + 1])
    else SectoralDerivative(ops, n, row[n - 1])
  }

  /** The derivative term of degree n and order m: for degree 1 the two
      entries -P(1,1) and P(1,0), otherwise the steps above. */
  function Dp(ops: FloatOps, c: real, s: real, m: nat, n: nat): real
    requires 1 <= n && m <= n
  {
    if n == 1 then (if m == 0 then -P(ops, c, s, 1, 1) else P(ops, c, s, 1, 0))
    else Derivative(ops, n, m, Row(ops, c, s, n))
  }

  // ---------------------------------------------------------------------
  // The table.

  /** The lower triangle of a table obeys the first pass's steps. */
  ghost predicate LowerSteps(Pnm: array2<real>, nmax: nat, ops: FloatOps, c: real, s: real)
    reads Pnm
  {
    && nmax >= 1 && Pnm.Length0 == nmax + 1 && Pnm.Length1 == nmax + 2
    && Pnm[0, 0] == 1.0 && Pnm[1, 1] == s
    && (forall m :: 0 <= m < nmax ==> Pnm[m + 1, m] == SubDiagonal(ops, c, Root(ops, m + m + 1), Pnm[m, m]))
    && (forall i, m {:trigger Pnm[i, i], Pnm[m, m]} :: 1 <= m < nmax && i == m + 1 ==>
          Pnm[i, i] == Sectoral(ops, s, Root(ops, m + m + 1), Root(ops, m + m + 2), Pnm[m, m]))
    && (forall n, m :: 0 <= m && m + 2 <= n <= nmax ==> Pnm[n, m] == Column(ops, c, n, m, Pnm[n - 1, m], Pnm[n - 2, m]))
  }

  /** A table obeying the steps holds P: the steps determine the lower
      triangle. */
  lemma {:induction false} LowerStepsGiveP(Pnm: array2<real>, nmax: nat, ops: FloatOps, c: real, s: real, n: nat, m: nat)
    requires LowerSteps(Pnm, nmax, ops, c, s) && m <= n <= nmax
    ensures Pnm[n, m] == P(ops, c, s, n, m)
    decreases n, 1
  {
    if n == 0 || (n == 1 && m == 1) {
    } else if n == m {
      SectoralEntry(Pnm, nmax, ops, c, s, m);
    } else if n == m + 1 {
      SubDiagonalEntry(Pnm, nmax, ops, c, s, m);
    } else {
      ColumnEntry(Pnm, nmax, ops, c, s, n, m);
    }
  }

  lemma {:induction false} SectoralEntry(Pnm: array2<real>, nmax: nat, ops: FloatOps, c: real, s: real, m: nat)
    requires LowerSteps(Pnm, nmax, ops, c, s) && 2 <= m <= nmax
    ensures Pnm[m, m] == P(ops, c, s, m, m)
    decreases m, 0
  {
    var k := m - 1;
    LowerStepsGiveP(Pnm, nmax, ops, c, s, k, k);
    assert Pnm[k + 1, k + 1] == Sectoral(ops, s, Root(ops, k + k + 1), Root(ops, k + k + 2), Pnm[k, k]);
  }

  lemma {:induction false} SubDiagonalEntry(Pnm: array2<real>, nmax: nat, ops: FloatOps, c: real, s: real, m: nat)
    requires LowerSteps(Pnm, nmax, ops, c, s) && m + 1 <= nmax
    ensures Pnm[m + 1, m] == P(ops, c, s, m + 1, m)
    decreases m + 1, 0
  {
    LowerStepsGiveP(Pnm, nmax, ops, c, s, m, m);
  }

  lemma {:induction false} ColumnEntry(Pnm: array2<real>, nmax: nat, ops: FloatOps, c: real, s: real, n: nat, m: nat)
    requires LowerSteps(Pnm, nmax, ops, c, s) && m + 2 <= n <= nmax
    ensures Pnm[n, m] == P(ops, c, s, n, m)
    decreases n, 0
  {
    LowerStepsGiveP(Pnm, nmax, ops, c, s, n - 1, m);
    LowerStepsGiveP(Pnm, nmax, ops, c, s, n - 2, m);
  }

  /** `Enumerable.Range(0, count).Select(Math.Sqrt)`. */
  method Roots(count: nat, ops: FloatOps) returns (rootn: array<real>)
    ensures fresh(rootn) && rootn.Length == count
    ensures forall k :: 0 <= k < count ==> rootn[k] == Root(ops, k)
  {
    rootn := new real[count];
    for k := 0 to count
      invariant forall k' :: 0 <= k' < k ==> rootn[k'] == Root(ops, k')
    {
      rootn[k] := Root(ops, k);
    }
  }

  /** Square grows with its argument, at least as fast as the argument. */
  lemma {:induction false} SquareMono(a: nat, b: nat)
    requires a <= b
    ensures Square(a) + (b - a) <= Square(b)
    decreases b - a
  {
    if a < b {
      SquareMono(a, b - 1);
    }
  }

  /** The rootn indices of a column step, d = n² - m² and d - e, lie in
      the table. */
  lemma ColumnIndices(n: nat, m: nat, nmax: nat)
    requires m + 2 <= n <= nmax
    ensures n * n - m * m == Square(n) - Square(m)
    ensures 0 <= Square(n) - Square(m) - (n + n - 1) && Square(n) - Square(m) < 2 * Square(nmax) + 1
  {
    SquareIsProduct(n);
    SquareIsProduct(m);
    SquareMono(m, n - 1);
    SquareMono(n, nmax);
  }

  /** The rootn indices of a diagonal step, 2m+1 and 2m+2, lie in the
      table. */
  lemma DiagonalIndices(m: nat, nmax: nat)
    requires m < nmax
    ensures m + m + 2 < 2 * Square(nmax) + 1
  {
    SquareMono(1, nmax);
  }

  /** The inner loop of the first pass: column m below its first
      sub-diagonal. */
  method FillColumn(Pnm: array2<real>, rootn: array<real>, nmax: nat, m: nat, ops: FloatOps, c: real)
    requires Pnm.Length0 == nmax + 1 && Pnm.Length1 == nmax + 2 && rootn.Length == 2 * Square(nmax) + 1
    requires m < nmax
    requires forall k :: 0 <= k < rootn.Length ==> rootn[k] == Root(ops, k)
    modifies Pnm
    ensures forall n :: m + 2 <= n <= nmax ==> Pnm[n, m] == Column(ops, c, n, m, Pnm[n - 1, m], Pnm[n - 2, m])
    ensures forall i, j :: 0 <= i < Pnm.Length0 && 0 <= j < Pnm.Length1 && (j != m || i < m + 2) ==>
              Pnm[i, j] == old(Pnm[i, j])
  {
    for n := m + 2 to nmax + 1
      invariant forall n' :: m + 2 <= n' < n ==> Pnm[n', m] == Column(ops, c, n', m, Pnm[n' - 1, m], Pnm[n' - 2, m])
      invariant forall i, j :: 0 <= i < Pnm.Length0 && 0 <= j < Pnm.Length1 && (j != m || i < m + 2) ==>
                  Pnm[i, j] == old(Pnm[i, j])
    {
      var d := n * n - m * m;
      var e := n + n - 1;
      ColumnIndices(n, m, nmax);
      var above, twoAbove, rde, rd := Pnm[n - 1, m], Pnm[n - 2, m], rootn[d - e], rootn[d];
      assert rde == Root(ops, Square(n) - Square(m) - (n + n - 1)) && rd == Root(ops, Square(n) - Square(m));
      var v := Div(ops, Mul(ops, Mul(ops, e as real, c), above) - Mul(ops, rde, twoAbove), rd);
      assert v == Column(ops, c, n, m, above, twoAbove);
      Pnm[n, m] := v;
    }
  }

  /** The second pass for degree n >= 2: the derivative terms of column
      n+1, from row n of the lower triangle. */
  method FillDerivatives(Pnm: array2<real>, nmax: nat, n: nat, ops: FloatOps, ghost row: seq<real>)
    requires Pnm.Length0 == nmax + 1 && Pnm.Length1 == nmax + 2
    requires 2 <= n <= nmax && |row| == n + 1
    requires forall m :: 0 <= m <= n ==> Pnm[n, m] == row[m]
    modifies Pnm
    ensures forall m :: 0 <= m <= n ==> Pnm[m, n + 1] == Derivative(ops, n, m, row)
    ensures forall i, j :: 0 <= i < Pnm.Length0 && 0 <= j < Pnm.Length1 && (j != n + 1 || i > n) ==>
              Pnm[i, j] == old(Pnm[i, j])
  {
    Pnm[0, n + 1] := -Mul(ops, Sqrt(ops, ((n * n + n) as real) / 2.0), Pnm[n, 1]);
    Pnm[1, n + 1] := (Mul(ops, Sqrt(ops, (2 * (n * n + n)) as real), Pnm[n, 0]) - Mul(ops, Sqrt(ops, (n * n + n - 2) as real), Pnm[n, 2])) / 2.0;
    for m := 2 to n
      invariant forall m' :: 0 <= m' < m ==> Pnm[m', n + 1] == Derivative(ops, n, m', row)
      invariant forall i, j :: 0 <= i < Pnm.Length0 && 0 <= j < Pnm.Length1 && (j != n + 1 || i > n) ==>
                  Pnm[i, j] == old(Pnm[i, j])
    {
      Pnm[m, n + 1] := 0.5 * (Mul(ops, Sqrt(ops, ((n + m) * (n - m + 1)) as real), Pnm[n, m - 1])
                        - Mul(ops, Sqrt(ops, ((n + m + 1) * (n - m)) as real), Pnm[n, m + 1]));
    }
    Pnm[n, n + 1] := Mul(ops, Sqrt(ops, (2 * n) as real), Pnm[n, n - 1]) / 2.0;
  }

  /** The first pass's steps from the diagonal entry P(m,m): the entry
      below it and, for m > 0, the next diagonal entry. */
  method FillDiagonal(Pnm: array2<real>, rootn: array<real>, nmax: nat, m: nat, ops: FloatOps, c: real, s: real)
    requires Pnm.Length0 == nmax + 1 && Pnm.Length1 == nmax + 2 && rootn.Length == 2 * Square(nmax) + 1
    requires m < nmax
    requires forall k :: 0 <= k < rootn.Length ==> rootn[k] == Root(ops, k)
    modifies Pnm
    ensures Pnm[m + 1, m] == SubDiagonal(ops, c, Root(ops, m + m + 1), Pnm[m, m])
    ensures m > 0 ==> Pnm[m + 1, m + 1] == Sectoral(ops, s, Root(ops, m + m + 1), Root(ops, m + m + 2), Pnm[m, m])
    ensures forall i, j :: 0 <= i < Pnm.Length0 && 0 <= j < Pnm.Length1 && (i != m + 1 || (j != m && (m == 0 || j != m + 1))) ==>
              Pnm[i, j] == old(Pnm[i, j])
  {
    DiagonalIndices(m, nmax);
    var pmm, r, r2 := Pnm[m, m], rootn[m + m + 1], rootn[m + m + 2];
    var pnmTmp := Mul(ops, r, pmm);
    Pnm[m + 1, m] := Mul(ops, c, pnmTmp);
    if m > 0 {
      Pnm[m + 1, m + 1] := Div(ops, Mul(ops, s, pnmTmp), r2);
    }
  }

  /** The first pass: the lower triangle, column by column. */
  method FirstPass(Pnm: array2<real>, rootn: array<real>, nmax: nat, ops: FloatOps, c: real, s: real)
    requires nmax >= 1 && Pnm.Length0 == nmax + 1 && Pnm.Length1 == nmax + 2
    requires Pnm[0, 0] == 1.0 && Pnm[1, 1] == s
    requires rootn.Length == 2 * Square(nmax) + 1
    requires forall k :: 0 <= k < rootn.Length ==> rootn[k] == Root(ops, k)
    modifies Pnm
    ensures LowerSteps(Pnm, nmax, ops, c, s)
  {
    for m := 0 to nmax
      invariant Pnm[0, 0] == 1.0 && Pnm[1, 1] == s
      invariant forall m' :: 0 <= m' < m ==> Pnm[m' + 1, m'] == SubDiagonal(ops, c, Root(ops, m' + m' + 1), Pnm[m', m'])
      invariant forall i, m' {:trigger Pnm[i, i], Pnm[m', m']} :: 1 <= m' < m && i == m' + 1 ==>
                  Pnm[i, i] == Sectoral(ops, s, Root(ops, m' + m' + 1), Root(ops, m' + m' + 2), Pnm[m', m'])
      invariant forall n, m' :: 0 <= m' < m && m' + 2 <= n <= nmax ==>
                  Pnm[n, m'] == Column(ops, c, n, m', Pnm[n - 1, m'], Pnm[n - 2, m'])
    {
      FillOrder(Pnm, rootn, nmax, m, ops, c, s);
    }
  }

  /** One iteration of the first pass: the entries of order m below the
      diagonal and, for m > 0, the next diagonal entry. Nothing else
      changes. */
  method FillOrder(Pnm: array2<real>, rootn: array<real>, nmax: nat, m: nat, ops: FloatOps, c: real, s: real)
    requires Pnm.Length0 == nmax + 1 && Pnm.Length1 == nmax + 2 && rootn.Length == 2 * Square(nmax) + 1
    requires m < nmax
    requires forall k :: 0 <= k < rootn.Length ==> rootn[k] == Root(ops, k)
    modifies Pnm
    ensures Pnm[m + 1, m] == SubDiagonal(ops, c, Root(ops, m + m + 1), Pnm[m, m])
    ensures m > 0 ==> Pnm[m + 1, m + 1] == Sectoral(ops, s, Root(ops, m + m + 1), Root(ops, m + m + 2), Pnm[m, m])
    ensures forall n :: m + 2 <= n <= nmax ==> Pnm[n, m] == Column(ops, c, n, m, Pnm[n - 1, m], Pnm[n - 2, m])
    ensures forall i, j :: 0 <= i < Pnm.Length0 && 0 <= j < Pnm.Length1 && (j != m || i <= m) && (m == 0 || i != m + 1 || j != m + 1) ==>
              Pnm[i, j] == old(Pnm[i, j])
  {
    FillDiagonal(Pnm, rootn, nmax, m, ops, c, s);
    FillColumn(Pnm, rootn, nmax, m, ops, c);
  }

  /** The whole table for one colatitude. Every index the two passes write
      or read, in Pnm and in rootn, is in range for nmax >= 1, and the
      table holds P and the derivative terms. */
  method LegendrePoly(nmax: nat, theta: real, ops: FloatOps) returns (Pnm: array2<real>)
    requires nmax >= 1
    ensures fresh(Pnm) && Pnm.Length0 == nmax + 1 && Pnm.Length1 == nmax + 2
    ensures forall n, m :: 0 <= m <= n <= nmax ==>
              Pnm[n, m] == P(ops, Costh(ops, theta), Sinth(ops, theta), n, m)
    ensures forall m, n :: 0 <= m <= n && 1 <= n <= nmax ==>
              Pnm[m, n + 1] == Dp(ops, Costh(ops, theta), Sinth(ops, theta), m, n)
  {
    var c := Costh(ops, theta);
    var s := Sinth(ops, theta);
    Pnm := LowerTriangle(nmax, ops, c, s);
    ghost var rows := seq(nmax + 1, n requires 0 <= n <= nmax => Row(ops, c, s, n));
    SecondPass(Pnm, nmax, ops, rows);
    forall m, n | 0 <= m <= n && 1 <= n <= nmax
      ensures Pnm[m, n + 1] == Dp(ops, c, s, m, n)
    {
      if n == 1 {
        assert rows[1] == Row(ops, c, s, 1);
      } else {
        assert rows[n] == Row(ops, c, s, n);
      }
    }
  }

  /** A zero table of the size LegendrePoly returns, with the first pass
      done: its lower triangle holds P. */
  method LowerTriangle(nmax: nat, ops: FloatOps, c: real, s: real) returns (Pnm: array2<real>)
    requires nmax >= 1
    ensures fresh(Pnm) && Pnm.Length0 == nmax + 1 && Pnm.Length1 == nmax + 2
    ensures forall n, m :: 0 <= m <= n <= nmax ==> Pnm[n, m] == P(ops, c, s, n, m)
  {
    Pnm := new real[nmax + 1, nmax + 2]((i, j) => 0.0);
    Pnm[0, 0] := 1.0;
    Pnm[1, 1] := s;
    var rootn := Roots(2 * nmax * nmax + 1, ops);
    SquareIsProduct(nmax);
    FirstPass(Pnm, rootn, nmax, ops, c, s);
    forall n, m | 0 <= m <= n <= nmax
      ensures Pnm[n, m] == P(ops, c, s, n, m)
    {
      LowerStepsGiveP(Pnm, nmax, ops, c, s, n, m);
    }
  }

  /** The second pass: the derivative terms above the diagonal, from the
      rows of the lower triangle, which it leaves as they are. */
  method SecondPass(Pnm: array2<real>, nmax: nat, ops: FloatOps, ghost rows: seq<seq<real>>)
    requires nmax >= 1 && Pnm.Length0 == nmax + 1 && Pnm.Length1 == nmax + 2
    requires |rows| == nmax + 1 && forall n :: 0 <= n <= nmax ==> |rows[n]| == n + 1
    requires forall n, m :: 0 <= m <= n <= nmax ==> Pnm[n, m] == rows[n][m]
    modifies Pnm
    ensures forall n, m :: 0 <= m <= n <= nmax ==> Pnm[n, m] == rows[n][m]
    ensures Pnm[0, 2] == -rows[1][1] && Pnm[1, 2] == rows[1][0]
    ensures forall m, n :: 0 <= m <= n && 2 <= n <= nmax ==> Pnm[m, n + 1] == Derivative(ops, n, m, rows[n])
  {
    Pnm[0, 2] := -Pnm[1, 1];
    Pnm[1, 2] := Pnm[1, 0];
    for n := 2 to nmax + 1
      invariant forall n', m :: 0 <= m <= n' <= nmax ==> Pnm[n', m] == rows[n'][m]
      invariant Pnm[0, 2] == -rows[1][1] && Pnm[1, 2] == rows[1][0]
      invariant forall m, n' :: 0 <= m <= n' && 2 <= n' < n ==> Pnm[m, n' + 1] == Derivative(ops, n', m, rows[n'])
    {
      FillDerivatives(Pnm, nmax, n, ops, rows[n]);
    }
  }
}
