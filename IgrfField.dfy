/** SynthValues at one point: the radial, colatitude and longitude components
    of the field, summed over the Gauss coefficients of the resolved degree
    range in the order the coefficient vector stores them. */
module IgrfField {
  import opened Wrappers
  import opened FloatMath
  import opened IgrfLegendre
  import opened IgrfSynth

  /** B_radius, B_theta and B_phi at the point. */
  datatype Field = Field(radial: real, theta: real, phi: real)

  const Zero := Field(0.0, 0.0, 0.0)

  function Plus(a: Field, b: Field): Field
  {
    Field(a.radial + b.radial, a.theta + b.theta, a.phi + b.phi)
  }

  /** Earth's mean radius in km: the radius is scaled by it. */
  const EarthRadius: real := 6371.2

  /** `cmp[m]` and `smp[m]`: cos(m φ) and sin(m φ), φ in radians. */
  function CosM(ops: FloatOps, m: nat, phi: real): real
  {
    Cos(ops, Mul(ops, m as real, phi))
  }

  function SinM(ops: FloatOps, m: nat, phi: real): real
  {
    Sin(ops, Mul(ops, m as real, phi))
  }

  /** `div_Pnm`, which stands for P(n,m)/sin θ in the longitude component:
      at the poles, where sin θ is zero, the derivative term is used
      instead (negated at θ = 180) and nothing is divided. */
  function PoleQuotient(ops: FloatOps, theta: real, pnm: real, dp: real, sinth: real): (q: real)
    ensures theta == 0.0 ==> q == dp
    ensures theta == 180.0 ==> q == -dp
    ensures theta != 0.0 && theta != 180.0 ==> q == Div(ops, pnm, sinth)
  {
    var d := if theta == 0.0 then dp else Div(ops, pnm, sinth);
    if theta == 180.0 then -dp else d
  }

  /** Degree n reads the 2n + 1 coefficients `span` from g(n,0) on: the
      order m >= 1 reads g(n,m) at 2m - 1 and h(n,m) just after it. */
  function G(span: seq<real>, m: nat): real
    requires 2 * m < |span|
  {
    if m == 0 then span[0] else span[2 * m - 1]
  }

  /** h(n,m), and 0 for the order 0, which has none. */
  function H(span: seq<real>, m: nat): real
    requires 2 * m < |span|
  {
    if m == 0 then 0.0 else span[2 * m]
  }

  /** The contribution of degree n and order m from the values the source
      reads: p = P(n,m), dp = dP(m,n), the coefficients g and h, cos(m φ),
      sin(m φ) and sin θ, with rn = r^-(n+2). The order 0 uses g alone and
      adds nothing to the longitude component. */
  function Contribution(ops: FloatOps, theta: real, n: nat, m: nat, rn: real,
                        p: real, dp: real, g: real, h: real, cm: real, sm: real, sinth: real): Field
  {
    if m == 0 then
      Field(Mul(ops, Mul(ops, Mul(ops, (n + 1) as real, p), rn), g),
            Mul(ops, Mul(ops, -dp, rn), g),
            0.0)
    else
      var gh := Mul(ops, g, cm) + Mul(ops, h, sm);
      var divP := PoleQuotient(ops, theta, p, dp, sinth);
      Field(Mul(ops, Mul(ops, Mul(ops, (n + 1) as real, p), rn), gh),
            Mul(ops, Mul(ops, -dp, rn), gh),
            Mul(ops, Mul(ops, Mul(ops, m as real, divP), rn), Mul(ops, g, sm) - Mul(ops, h, cm)))
  }

  /** What degree n reads from the tables set up before the sums: row n of
      the Legendre table, the derivative terms that LegendrePoly stores in
      column n + 1, cos(m φ) and sin(m φ) for m = 0 .. n, and sin θ. */
  datatype Tables = Tables(p: seq<real>, dp: seq<real>, cm: seq<real>, sm: seq<real>, sinth: real)
  {
    predicate Fits(n: nat)
    {
      |p| == n + 1 && |dp| == n + 1 && |cm| == n + 1 && |sm| == n + 1
    }
  }

  function DerivativeColumn(ops: FloatOps, c: real, s: real, n: nat): (col: seq<real>)
    requires 1 <= n
    ensures |col| == n + 1
  {
    seq(n + 1, m requires 0 <= m <= n => Dp(ops, c, s, m, n))
  }

  function CosRow(ops: FloatOps, phi: real, n: nat): (row: seq<real>)
    ensures |row| == n + 1
  {
    seq(n + 1, m requires 0 <= m => CosM(ops, m, phi))
  }

  function SinRow(ops: FloatOps, phi: real, n: nat): (row: seq<real>)
    ensures |row| == n + 1
  {
    seq(n + 1, m requires 0 <= m => SinM(ops, m, phi))
  }

  /** The tables of degree n at colatitude θ (degrees) and longitude φ
      (radians). */
  function DegreeTables(ops: FloatOps, theta: real, phi: real, n: nat): (t: Tables)
    requires 1 <= n
    ensures t.Fits(n)
  {
    var c, s := Costh(ops, theta), Sinth(ops, theta);
    Tables(Row(ops, c, s, n), DerivativeColumn(ops, c, s, n), CosRow(ops, phi, n), SinRow(ops, phi, n), s)
  }

  /** Tables for the degrees 1 .. n: degree k reads entry k - 1. */
  predicate FitsDegrees(tabs: seq<Tables>, n: nat)
  {
    n <= |tabs| && forall i :: 0 <= i < n ==> tabs[i].Fits(i + 1)
  }

  lemma FitsAt(tabs: seq<Tables>, n: nat, k: nat)
    requires FitsDegrees(tabs, n) && 1 <= k <= n
    ensures tabs[k - 1].Fits(k)
  {
    var i := k - 1;
    assert tabs[i].Fits(i + 1);
  }

  /** The tables of the degrees 1 .. nmax at one point. */
  function PointTables(ops: FloatOps, theta: real, phi: real, nmax: nat): (tabs: seq<Tables>)
    ensures FitsDegrees(tabs, nmax)
  {
    seq(nmax, i requires 0 <= i < nmax => DegreeTables(ops, theta, phi, i + 1))
  }

  /** The term of degree n and order m. */
  function Term(ops: FloatOps, span: seq<real>, theta: real, n: nat, m: nat, rn: real, t: Tables): Field
    requires m <= n && t.Fits(n) && |span| == 2 * n + 1
  {
    Contribution(ops, theta, n, m, rn, t.p[m], t.dp[m], G(span, m), H(span, m), t.cm[m], t.sm[m], t.sinth)
  }

  /** The position of g(n,0) in the coefficient vector, counted degree by
      degree: degree 1 starts at 0 and degree n takes 2n + 1 positions. */
  function DegreeStart(n: nat): nat
  {
    if n <= 1 then 0 else DegreeStart(n - 1) + 2 * (n - 1) + 1
  }

  /** Counted degree by degree, the start of degree n is n² - 1, the slot of
      g(n,0). */
  lemma {:induction false} DegreeStartIsSquare(n: nat)
    requires 1 <= n
    ensures DegreeStart(n) == n * n - 1 == SlotIndex(Slot(n, 0, false))
  {
    if n > 1 {
      DegreeStartIsSquare(n - 1);
      assert n * n == (n - 1) * (n - 1) + 2 * (n - 1) + 1;
    }
  }

  lemma {:induction false} DegreeStartMono(a: nat, b: nat)
    requires a <= b
    ensures DegreeStart(a) <= DegreeStart(b)
    decreases b - a
  {
    if a < b {
      DegreeStartMono(a + 1, b);
    }
  }

  /** A vector of degree NmaxCoeffs or more holds every degree up to it. */
  lemma DegreesFit(len: nat, n: nat)
    requires n <= NmaxCoeffs(len)
    ensures forall k :: 0 <= k <= n + 1 ==> DegreeStart(k) <= len
  {
    CoefficientsCover(len, n);
    DegreeStartIsSquare(n + 1);
    forall k | 0 <= k <= n + 1
      ensures DegreeStart(k) <= len
    {
      DegreeStartMono(k, n + 1);
    }
  }

  /** From the start of degree n, the term of order m reads exactly the
      slots of g(n,m) and h(n,m) in the coefficient order of the model
      file. */
  lemma DegreeReadsItsSlots(n: nat, m: nat)
    requires 1 <= n && m <= n
    ensures DegreeStart(n) + (if m == 0 then 0 else 2 * m - 1) == SlotIndex(Slot(n, m, false))
    ensures 1 <= m ==> DegreeStart(n) + 2 * m == SlotIndex(Slot(n, m, true))
  {
    DegreeStartIsSquare(n);
  }

  /** `r_n` at degree n: r^-(nmin+2), then divided by r once per degree. */
  function RadialFactor(ops: FloatOps, r: real, nmin: nat, n: nat): real
    requires nmin <= n
    decreases n
  {
    if n == nmin then Pow(ops, r, (-(nmin + 2)) as real)
    else Div(ops, RadialFactor(ops, r, nmin, n - 1), r)
  }

  /** The coefficients and the tables reach far enough for the degrees
      nmin .. n. */
  predicate Covers(coeffs: seq<real>, tabs: seq<Tables>, nmin: nat, n: nat)
  {
    1 <= nmin <= n + 1 && DegreeStart(n + 1) <= |coeffs| && FitsDegrees(tabs, n)
  }

  /** The 2n + 1 coefficients of degree n. */
  function DegreeSpan(coeffs: seq<real>, n: nat): (span: seq<real>)
    requires 1 <= n && DegreeStart(n + 1) <= |coeffs|
    ensures |span| == 2 * n + 1
  {
    coeffs[DegreeStart(n)..DegreeStart(n + 1)]
  }

  /** The terms of the orders 0 .. n of degree n, in order. */
  function DegreeTerms(ops: FloatOps, span: seq<real>, theta: real, n: nat, rn: real, t: Tables): (row: seq<Field>)
    requires t.Fits(n) && |span| == 2 * n + 1
    ensures |row| == n + 1
  {
    seq(n + 1, m requires 0 <= m <= n => Term(ops, span, theta, n, m, rn, t))
  }

  /** The row of terms of degree k, read from its own coefficients with its
      own radial factor and tables. */
  function DegreeRow(ops: FloatOps, coeffs: seq<real>, theta: real, tabs: seq<Tables>, r: real, nmin: nat, n: nat, k: nat): (row: seq<Field>)
    requires Covers(coeffs, tabs, nmin, n) && nmin <= k <= n
    ensures |row| == k + 1
  {
    CoversUpTo(coeffs, tabs, nmin, k, n);
    DegreeTerms(ops, DegreeSpan(coeffs, k), theta, k, RadialFactor(ops, r, nmin, k), tabs[k - 1])
  }

  /** The rows of terms of the degrees nmin .. n, in order. */
  function TermRows(ops: FloatOps, coeffs: seq<real>, theta: real, tabs: seq<Tables>, r: real, nmin: nat, n: nat): (rows: seq<seq<Field>>)
    requires Covers(coeffs, tabs, nmin, n)
    ensures |rows| == n + 1 - nmin
  {
    seq(n + 1 - nmin, i requires 0 <= i < n + 1 - nmin => DegreeRow(ops, coeffs, theta, tabs, r, nmin, n, nmin + i))
  }

  /** A position of the walk: entry m of row i, or the end, past the last
      row. */
  predicate WalkPosition(rows: seq<seq<Field>>, i: nat, m: nat)
  {
    i <= |rows| && (if i == |rows| then m == 0 else m <= |rows[i]|)
  }

  /** The running sums when the walk reaches entry m of row i: every
      entry of the rows before i, then the entries 0 .. m - 1 of row i,
      added one at a time in that order. */
  function Walk(rows: seq<seq<Field>>, i: nat, m: nat): Field
    requires WalkPosition(rows, i, m)
    decreases i, m
  {
    if m > 0 then Plus(Walk(rows, i, m - 1), rows[i][m - 1])
    else if i == 0 then Zero
    else Walk(rows, i - 1, |rows[i - 1]|)
  }

  /** The degrees nmin .. n, in order, each read from its start on, with
      the tables `tabs`. */
  function SynthField(ops: FloatOps, coeffs: seq<real>, theta: real, tabs: seq<Tables>, r: real, nmin: nat, n: nat): Field
    requires Covers(coeffs, tabs, nmin, n)
  {
    var rows := TermRows(ops, coeffs, theta, tabs, r, nmin, n);
    Walk(rows, |rows|, 0)
  }

  /** The components and, in order, the console warnings printed. */
  datatype Synthesis = Synthesis(field: Field, warnings: seq<string>)

  function OptionToSeq(o: Option<string>): seq<string>
  {
    if o.Some? then [o.value] else []
  }

  /** The single-point call: the colatitude check, then the degree rules,
      then the sums over the resolved degrees. */
  function SynthOutcome(coeffs: seq<real>, radiusInput: real, theta: real, phi: real,
                        nmaxArg: Option<int>, nminArg: Option<int>, ops: FloatOps): (r: Result<Synthesis>)
    ensures r.Success? <==> InBounds(theta) && ResolveDegrees(|coeffs|, nmaxArg, nminArg).Success?
    ensures !InBounds(theta) ==> r == Failure(ArgumentException(ColatitudeMessage))
    ensures InBounds(theta) && ResolveDegrees(|coeffs|, nmaxArg, nminArg).Failure? ==>
              r == Failure(ResolveDegrees(|coeffs|, nmaxArg, nminArg).error)
    ensures r.Success? ==>
              var d := ResolveDegrees(|coeffs|, nmaxArg, nminArg).value.degrees;
              && DegreeStart(d.nmax + 1) <= |coeffs|
              && r.value.field == SynthField(ops, coeffs, theta, PointTables(ops, theta, DegreesToRadians(phi), d.nmax),
                                             radiusInput / EarthRadius, d.nmin, d.nmax)
    ensures r.Success? ==>
              r.value.warnings == (if theta == 0.0 || theta == 180.0 then [PolesWarning] else [])
                                  + OptionToSeq(ResolveDegrees(|coeffs|, nmaxArg, nminArg).value.warning)
  {
    SinglePointChecksAgree(theta);
    var check := ColatitudeCheck([theta]);
    if check.Failure? then Failure(check.error)
    else
      var resolved := ResolveDegrees(|coeffs|, nmaxArg, nminArg);
      if resolved.Failure? then Failure(resolved.error)
      else
        var d := resolved.value.degrees;
        var w := resolved.value.warning;
        DegreesFit(|coeffs|, d.nmax);
        Success(Synthesis(SynthField(ops, coeffs, theta, PointTables(ops, theta, DegreesToRadians(phi), d.nmax),
                                     radiusInput / EarthRadius, d.nmin, d.nmax),
                          OptionToSeq(check.value) + OptionToSeq(w)))
  }

  // ---------------------------------------------------------------------
  // Properties of the sums.

  /** A term whose coefficients are zero contributes nothing, whatever the
      Legendre and trigonometric values, as long as a zero factor gives a
      zero product. */
  lemma ContributionOfZeroCoefficients(ops: FloatOps, theta: real, n: nat, m: nat, rn: real,
                                       p: real, dp: real, cm: real, sm: real, sinth: real)
    requires ZeroLaws(ops)
    ensures Contribution(ops, theta, n, m, rn, p, dp, 0.0, 0.0, cm, sm, sinth) == Zero
  {
    assert Mul(ops, 0.0, cm) == 0.0 && Mul(ops, 0.0, sm) == 0.0;
  }

  /** A term read from zero coefficients is zero. */
  lemma TermOfZeros(ops: FloatOps, span: seq<real>, theta: real, n: nat, m: nat, rn: real, t: Tables)
    requires ZeroLaws(ops) && m <= n && t.Fits(n) && |span| == 2 * n + 1
    requires forall j :: 0 <= j < |span| ==> span[j] == 0.0
    ensures Term(ops, span, theta, n, m, rn, t) == Zero
  {
    assert G(span, m) == 0.0 && H(span, m) == 0.0;
    ContributionOfZeroCoefficients(ops, theta, n, m, rn, t.p[m], t.dp[m], t.cm[m], t.sm[m], t.sinth);
  }

  /** The coefficients of a degree read from a zero vector are zero. */
  lemma SpanOfZeros(coeffs: seq<real>, n: nat)
    requires 1 <= n && DegreeStart(n + 1) <= |coeffs|
    requires forall j :: 0 <= j < |coeffs| ==> coeffs[j] == 0.0
    ensures forall j :: 0 <= j < |DegreeSpan(coeffs, n)| ==> DegreeSpan(coeffs, n)[j] == 0.0
  {
    var span := DegreeSpan(coeffs, n);
    assert forall j :: 0 <= j < |span| ==> span[j] == coeffs[DegreeStart(n) + j];
  }

  /** With zero coefficients every term of every degree is zero. */
  lemma TermRowsOfZeros(ops: FloatOps, coeffs: seq<real>, theta: real, tabs: seq<Tables>, r: real, nmin: nat, n: nat)
    requires ZeroLaws(ops) && Covers(coeffs, tabs, nmin, n)
    requires forall j :: 0 <= j < |coeffs| ==> coeffs[j] == 0.0
    ensures var rows := TermRows(ops, coeffs, theta, tabs, r, nmin, n);
            forall i, m :: 0 <= i < |rows| && 0 <= m < |rows[i]| ==> rows[i][m] == Zero
  {
    var rows := TermRows(ops, coeffs, theta, tabs, r, nmin, n);
    forall i, m | 0 <= i < |rows| && 0 <= m < |rows[i]|
      ensures rows[i][m] == Zero
    {
      var k := nmin + i;
      assert rows[i] == DegreeRow(ops, coeffs, theta, tabs, r, nmin, n, k);
      CoversUpTo(coeffs, tabs, nmin, k, n);
      SpanOfZeros(coeffs, k);
      TermOfZeros(ops, DegreeSpan(coeffs, k), theta, k, m, RadialFactor(ops, r, nmin, k), tabs[k - 1]);
    }
  }

  /** A walk over zero terms stays at zero. */
  lemma {:induction false} WalkOfZeros(rows: seq<seq<Field>>, i: nat, m: nat)
    requires WalkPosition(rows, i, m)
    requires forall i', m' :: 0 <= i' < |rows| && 0 <= m' < |rows[i']| ==> rows[i'][m'] == Zero
    ensures Walk(rows, i, m) == Zero
    decreases i, m
  {
    if m > 0 {
      WalkOfZeros(rows, i, m - 1);
    } else if i > 0 {
      WalkOfZeros(rows, i - 1, |rows[i - 1]|);
    }
  }

  /** A model whose coefficients are all zero has no field at any point. */
  lemma ZeroCoefficientsGiveZeroField(ops: FloatOps, coeffs: seq<real>, theta: real, tabs: seq<Tables>,
                                      r: real, nmin: nat, n: nat)
    requires ZeroLaws(ops) && Covers(coeffs, tabs, nmin, n)
    requires forall j :: 0 <= j < |coeffs| ==> coeffs[j] == 0.0
    ensures SynthField(ops, coeffs, theta, tabs, r, nmin, n) == Zero
  {
    var rows := TermRows(ops, coeffs, theta, tabs, r, nmin, n);
    TermRowsOfZeros(ops, coeffs, theta, tabs, r, nmin, n);
    WalkOfZeros(rows, |rows|, 0);
  }

  /** The terms of the degrees nmin .. n read only the coefficients from
      the start of degree nmin to the end of degree n. */
  lemma TermRowsReadOnlyItsDegrees(ops: FloatOps, c1: seq<real>, c2: seq<real>, theta: real,
                                   tabs: seq<Tables>, r: real, nmin: nat, n: nat)
    requires Covers(c1, tabs, nmin, n) && Covers(c2, tabs, nmin, n)
    requires forall j :: DegreeStart(nmin) <= j < DegreeStart(n + 1) ==> c1[j] == c2[j]
    ensures TermRows(ops, c1, theta, tabs, r, nmin, n) == TermRows(ops, c2, theta, tabs, r, nmin, n)
  {
    var rows1, rows2 := TermRows(ops, c1, theta, tabs, r, nmin, n), TermRows(ops, c2, theta, tabs, r, nmin, n);
    forall i | 0 <= i < |rows1|
      ensures rows1[i] == rows2[i]
    {
      var k := nmin + i;
      CoversUpTo(c1, tabs, nmin, k, n);
      CoversUpTo(c2, tabs, nmin, k, n);
      DegreeStartMono(nmin, k);
      DegreeStartMono(k + 1, n + 1);
      assert DegreeSpan(c1, k) == DegreeSpan(c2, k);
      assert rows1[i] == DegreeRow(ops, c1, theta, tabs, r, nmin, n, k);
      assert rows2[i] == DegreeRow(ops, c2, theta, tabs, r, nmin, n, k);
    }
  }

  /** The sums read only the coefficients of the degrees nmin .. n, the
      positions nmin² - 1 .. (n+1)² - 2 (DegreeStartIsSquare): two vectors
      that agree there give the same field, whatever else they hold. */
  lemma SynthFieldReadsOnlyItsDegrees(ops: FloatOps, c1: seq<real>, c2: seq<real>, theta: real,
                                      tabs: seq<Tables>, r: real, nmin: nat, n: nat)
    requires Covers(c1, tabs, nmin, n) && Covers(c2, tabs, nmin, n)
    requires forall j :: DegreeStart(nmin) <= j < DegreeStart(n + 1) ==> c1[j] == c2[j]
    ensures SynthField(ops, c1, theta, tabs, r, nmin, n) == SynthField(ops, c2, theta, tabs, r, nmin, n)
  {
    TermRowsReadOnlyItsDegrees(ops, c1, c2, theta, tabs, r, nmin, n);
  }

  // ---------------------------------------------------------------------
  // The computation.

  /** The `cmp` and `smp` tables for the one longitude. */
  method Harmonics(nmax: nat, phi: real, ops: FloatOps) returns (cmp: array<real>, smp: array<real>)
    ensures fresh(cmp) && fresh(smp) && cmp.Length == nmax + 1 && smp.Length == nmax + 1
    ensures forall m :: 0 <= m <= nmax ==> cmp[m] == CosM(ops, m, phi) && smp[m] == SinM(ops, m, phi)
  {
    cmp := new real[nmax + 1];
    smp := new real[nmax + 1];
    for m := 0 to nmax + 1
      invariant forall m' :: 0 <= m' < m ==> cmp[m'] == CosM(ops, m', phi) && smp[m'] == SinM(ops, m', phi)
    {
      cmp[m] := Cos(ops, Mul(ops, m as real, phi));
      smp[m] := Sin(ops, Mul(ops, m as real, phi));
    }
  }

  /** The entries of the tables read at degree k and order m hold entry
      k - 1 of `tabs`. */
  ghost predicate DegreeTablesAt(pnm: array2<real>, cmp: array<real>, smp: array<real>, tabs: seq<Tables>, k: nat, m: nat)
    requires 1 <= k <= |tabs| && m <= k < pnm.Length0 && k + 1 < pnm.Length1 && k < cmp.Length && k < smp.Length
    requires tabs[k - 1].Fits(k)
    reads pnm, cmp, smp
  {
    TablesAt(pnm, cmp, smp, tabs[k - 1], k, m)
  }

  /** The entries of the tables read at degree n and order m hold `t`. */
  ghost predicate TablesAt(pnm: array2<real>, cmp: array<real>, smp: array<real>, t: Tables, n: nat, m: nat)
    requires m <= n < pnm.Length0 && n + 1 < pnm.Length1 && n < cmp.Length && n < smp.Length && t.Fits(n)
    reads pnm, cmp, smp
  {
    pnm[n, m] == t.p[m] && pnm[m, n + 1] == t.dp[m] && cmp[m] == t.cm[m] && smp[m] == t.sm[m]
  }

  /** The shapes LegendrePoly and Harmonics give their tables for nmax. */
  predicate Shaped(pnm: array2<real>, cmp: array<real>, smp: array<real>, nmax: nat)
  {
    pnm.Length0 == nmax + 1 && pnm.Length1 == nmax + 2 && cmp.Length == nmax + 1 && smp.Length == nmax + 1
  }

  /** The tables hold entry k - 1 of `tabs` at every degree k, and
      `sinth` is the sin θ of every entry. */
  ghost predicate HoldsDegrees(pnm: array2<real>, cmp: array<real>, smp: array<real>, nmax: nat, tabs: seq<Tables>, sinth: real)
    reads pnm, cmp, smp
  {
    && Shaped(pnm, cmp, smp, nmax) && FitsDegrees(tabs, nmax)
    && (forall k :: 0 <= k < nmax ==> tabs[k].sinth == sinth)
    && forall k, m :: 1 <= k <= nmax && 0 <= m <= k ==> DegreeTablesAt(pnm, cmp, smp, tabs, k, m)
  }

  /** The tables of one degree, taken out of those of all degrees. */
  lemma TablesOfDegree(pnm: array2<real>, cmp: array<real>, smp: array<real>, tabs: seq<Tables>, nmax: nat, n: nat,
                       t: Tables, sinth: real)
    requires 1 <= n <= nmax && HoldsDegrees(pnm, cmp, smp, nmax, tabs, sinth) && t == tabs[n - 1]
    ensures t.Fits(n) && sinth == t.sinth && forall m :: 0 <= m <= n ==> TablesAt(pnm, cmp, smp, t, n, m)
  {
    FitsAt(tabs, nmax, n);
    forall m | 0 <= m <= n
      ensures TablesAt(pnm, cmp, smp, t, n, m)
    {
      assert DegreeTablesAt(pnm, cmp, smp, tabs, n, m);
    }
  }

  /** The tables LegendrePoly and Harmonics fill hold, for every degree,
      the values that degree reads. */
  lemma TablesHoldDegrees(pnm: array2<real>, cmp: array<real>, smp: array<real>,
                          ops: FloatOps, theta: real, phi: real, nmax: nat)
    requires Shaped(pnm, cmp, smp, nmax)
    requires forall n, m :: 0 <= m <= n <= nmax ==> pnm[n, m] == P(ops, Costh(ops, theta), Sinth(ops, theta), n, m)
    requires forall m, n :: 0 <= m <= n && 1 <= n <= nmax ==> pnm[m, n + 1] == Dp(ops, Costh(ops, theta), Sinth(ops, theta), m, n)
    requires forall m :: 0 <= m <= nmax ==> cmp[m] == CosM(ops, m, phi) && smp[m] == SinM(ops, m, phi)
    ensures HoldsDegrees(pnm, cmp, smp, nmax, PointTables(ops, theta, phi, nmax), Sinth(ops, theta))
  {
    forall n, m | 1 <= n <= nmax && 0 <= m <= n
      ensures DegreeTablesAt(pnm, cmp, smp, PointTables(ops, theta, phi, nmax), n, m)
    {
      TablesHoldAt(pnm, cmp, smp, ops, theta, phi, nmax, n, m);
    }
  }

  /** One entry of the tables: row n of `pnm` holds P(n,m), column n + 1
      holds dP(m,n), and `cmp`, `smp` hold cos(m φ) and sin(m φ). */
  lemma TablesHoldAt(pnm: array2<real>, cmp: array<real>, smp: array<real>,
                     ops: FloatOps, theta: real, phi: real, nmax: nat, n: nat, m: nat)
    requires Shaped(pnm, cmp, smp, nmax) && 1 <= n <= nmax && m <= n
    requires pnm[n, m] == P(ops, Costh(ops, theta), Sinth(ops, theta), n, m)
    requires pnm[m, n + 1] == Dp(ops, Costh(ops, theta), Sinth(ops, theta), m, n)
    requires cmp[m] == CosM(ops, m, phi) && smp[m] == SinM(ops, m, phi)
    ensures DegreeTablesAt(pnm, cmp, smp, PointTables(ops, theta, phi, nmax), n, m)
  {
    assert PointTables(ops, theta, phi, nmax)[n - 1] == DegreeTables(ops, theta, phi, n);
    var c, s := Costh(ops, theta), Sinth(ops, theta);
    assert Row(ops, c, s, n)[m] == P(ops, c, s, n, m);
    assert DerivativeColumn(ops, c, s, n)[m] == Dp(ops, c, s, m, n);
    assert CosRow(ops, phi, n)[m] == CosM(ops, m, phi);
    assert SinRow(ops, phi, n)[m] == SinM(ops, m, phi);
  }

  /** Order m of degree n is ready to be added: the tables hold `t` there
      and entry m of `row` is the term of that order. */
  ghost predicate OrderReady(pnm: array2<real>, cmp: array<real>, smp: array<real>, t: Tables, row: seq<Field>,
                             ops: FloatOps, span: seq<real>, theta: real, n: nat, rn: real, m: nat)
    requires m <= n < pnm.Length0 && n + 1 < pnm.Length1 && n < cmp.Length && n < smp.Length && t.Fits(n)
    requires |span| == 2 * n + 1
    reads pnm, cmp, smp
  {
    TablesAt(pnm, cmp, smp, t, n, m) && m < |row| && row[m] == Term(ops, span, theta, n, m, rn, t)
  }

  /** The rows of the walk are the rows of terms of the degrees nmin .. nmax. */
  ghost predicate RowsHold(rows: seq<seq<Field>>, ops: FloatOps, coeffs: seq<real>, theta: real, tabs: seq<Tables>,
                           r: real, nmin: nat, nmax: nat)
    requires Covers(coeffs, tabs, nmin, nmax)
  {
    && |rows| == nmax + 1 - nmin
    && forall k {:trigger DegreeRow(ops, coeffs, theta, tabs, r, nmin, nmax, k)} :: nmin <= k <= nmax ==>
         rows[k - nmin] == DegreeRow(ops, coeffs, theta, tabs, r, nmin, nmax, k)
  }

  /** The rows of terms, with their sum. */
  lemma PointRows(ops: FloatOps, coeffs: seq<real>, theta: real, tabs: seq<Tables>, r: real, nmin: nat, nmax: nat)
    returns (rows: seq<seq<Field>>)
    requires Covers(coeffs, tabs, nmin, nmax)
    ensures RowsHold(rows, ops, coeffs, theta, tabs, r, nmin, nmax)
    ensures Walk(rows, |rows|, 0) == SynthField(ops, coeffs, theta, tabs, r, nmin, nmax)
  {
    rows := TermRows(ops, coeffs, theta, tabs, r, nmin, nmax);
  }

  /** Every order of degree n is ready once the tables hold every degree. */
  lemma DegreeReady(pnm: array2<real>, cmp: array<real>, smp: array<real>, rows: seq<seq<Field>>,
                    ops: FloatOps, coeffs: seq<real>, theta: real, tabs: seq<Tables>, sinth: real, r: real,
                    nmin: nat, nmax: nat, n: nat, rn: real, t: Tables, row: seq<Field>)
    requires 1 <= nmin <= n <= nmax && Covers(coeffs, tabs, nmin, nmax) && RowsHold(rows, ops, coeffs, theta, tabs, r, nmin, nmax)
    requires row == rows[n - nmin]
    requires HoldsDegrees(pnm, cmp, smp, nmax, tabs, sinth) && t == tabs[n - 1] && rn == RadialFactor(ops, r, nmin, n)
    ensures Covers(coeffs, tabs, nmin, n) && t.Fits(n) && t.sinth == sinth && |row| == n + 1
    ensures forall m :: 0 <= m <= n ==>
              OrderReady(pnm, cmp, smp, t, row, ops, DegreeSpan(coeffs, n), theta, n, rn, m)
  {
    CoversUpTo(coeffs, tabs, nmin, n, nmax);
    TablesOfDegree(pnm, cmp, smp, tabs, nmax, n, t, sinth);
    assert rows[n - nmin] == DegreeRow(ops, coeffs, theta, tabs, r, nmin, nmax, n);
  }

  /** Adds the term of degree n and order m, reading g (and for m >= 1, h)
      at `num`: entry m of the row of terms of the degree. */
  method AddOrder(pnm: array2<real>, cmp: array<real>, smp: array<real>, coeffs: seq<real>,
                  theta: real, sinth: real, ops: FloatOps, nmax: nat, n: nat, m: nat,
                  num: int, rn: real, acc: Field, ghost row: seq<Field>, ghost t: Tables)
    returns (field: Field)
    requires 1 <= n <= nmax && m <= n && DegreeStart(n + 1) <= |coeffs| && t.Fits(n)
    requires Shaped(pnm, cmp, smp, nmax) && sinth == t.sinth
    requires OrderReady(pnm, cmp, smp, t, row, ops, DegreeSpan(coeffs, n), theta, n, rn, m)
    requires num == DegreeStart(n) + (if m == 0 then 0 else 2 * m - 1)
    ensures field == Plus(acc, row[m])
  {
    ghost var span := DegreeSpan(coeffs, n);
    assert DegreeStart(n + 1) == DegreeStart(n) + 2 * n + 1;
    var g := coeffs[num];
    var h := 0.0;
    if m > 0 {
      h := coeffs[num + 1];
    }
    assert g == G(span, m) && h == H(span, m);
    field := Plus(acc, Contribution(ops, theta, n, m, rn, pnm[n, m], pnm[m, n + 1], g, h, cmp[m], smp[m], sinth));
  }

  /** Adds the orders 0 .. n of degree n, row i of the walk, to the sums,
      reading the 2n + 1 coefficients of the degree from `num0` on, and
      returns the position after them. */
  method SumOrders(pnm: array2<real>, cmp: array<real>, smp: array<real>, coeffs: seq<real>,
                   theta: real, sinth: real, ops: FloatOps, nmax: nat, n: nat,
                   num0: nat, rn: real, field0: Field, ghost rows: seq<seq<Field>>, ghost i: nat, ghost t: Tables)
    returns (field: Field, num: int)
    requires 1 <= n <= nmax && DegreeStart(n + 1) <= |coeffs| && Shaped(pnm, cmp, smp, nmax)
    requires t.Fits(n) && sinth == t.sinth && num0 == DegreeStart(n) && i < |rows| && |rows[i]| == n + 1
    requires forall m :: 0 <= m <= n ==> OrderReady(pnm, cmp, smp, t, rows[i], ops, DegreeSpan(coeffs, n), theta, n, rn, m)
    requires field0 == Walk(rows, i, 0)
    ensures field == Walk(rows, i, n + 1)
    ensures num == num0 + 2 * n + 1
  {
    num := num0;
    field := AddOrder(pnm, cmp, smp, coeffs, theta, sinth, ops, nmax, n, 0, num, rn, field0, rows[i], t);
    num := num + 1;
    for m := 1 to n + 1
      invariant num == num0 + 2 * m - 1
      invariant field == Walk(rows, i, m)
    {
      field := AddOrder(pnm, cmp, smp, coeffs, theta, sinth, ops, nmax, n, m, num, rn, field, rows[i], t);
      num := num + 2;
    }
  }

  /** Adds degree n, with the tables of that degree, to the sums of the
      degrees nmin .. n - 1, and moves the radial factor on to the next
      degree. */
  method AddDegree(pnm: array2<real>, cmp: array<real>, smp: array<real>, coeffs: seq<real>,
                   theta: real, sinth: real, radius: real, ops: FloatOps, nmin: nat, nmax: nat, n: nat,
                   num0: nat, rn: real, field0: Field, ghost tabs: seq<Tables>, ghost rows: seq<seq<Field>>)
    returns (field: Field, num: int, rnNext: real)
    requires 1 <= nmin <= n <= nmax && num0 == DegreeStart(n) && Covers(coeffs, tabs, nmin, nmax)
    requires HoldsDegrees(pnm, cmp, smp, nmax, tabs, sinth) && rn == RadialFactor(ops, radius, nmin, n)
    requires RowsHold(rows, ops, coeffs, theta, tabs, radius, nmin, nmax)
    requires field0 == Walk(rows, n - nmin, 0)
    ensures field == Walk(rows, n + 1 - nmin, 0)
    ensures num == DegreeStart(n + 1) && rnNext == RadialFactor(ops, radius, nmin, n + 1)
  {
    ghost var t := tabs[n - 1];
    DegreeReady(pnm, cmp, smp, rows, ops, coeffs, theta, tabs, sinth, radius, nmin, nmax, n, rn, t, rows[n - nmin]);
    field, num := SumOrders(pnm, cmp, smp, coeffs, theta, sinth, ops, nmax, n, num0, rn, field0, rows, n - nmin, t);
    rnNext := Div(ops, rn, radius);
  }

  /** The position of the first coefficient of degree n, as the walk
      computes it: n² - 1. */
  method FirstSlotOfDegree(n: nat) returns (num: nat)
    requires 1 <= n
    ensures num == DegreeStart(n)
  {
    num := n * n - 1;
    DegreeStartIsSquare(n);
  }

  /** The coefficients reach the degrees nmin .. n when they reach nmax. */
  lemma CoversUpTo(coeffs: seq<real>, tabs: seq<Tables>, nmin: nat, n: nat, nmax: nat)
    requires 1 <= nmin <= n + 1 && n <= nmax && DegreeStart(nmax + 1) <= |coeffs| && FitsDegrees(tabs, nmax)
    ensures Covers(coeffs, tabs, nmin, n)
  {
    DegreeStartMono(n + 1, nmax + 1);
  }

  /** The double loop of SynthValues over the rows of terms: the degrees
      nmin .. nmax in order, each over its orders 0 .. n. */
  method SumRows(pnm: array2<real>, cmp: array<real>, smp: array<real>, coeffs: seq<real>,
                 theta: real, sinth: real, radius: real, nmin: nat, nmax: nat, ops: FloatOps,
                 ghost tabs: seq<Tables>, ghost rows: seq<seq<Field>>)
    returns (field: Field)
    requires 1 <= nmin <= nmax && Covers(coeffs, tabs, nmin, nmax)
    requires HoldsDegrees(pnm, cmp, smp, nmax, tabs, sinth) && RowsHold(rows, ops, coeffs, theta, tabs, radius, nmin, nmax)
    ensures field == Walk(rows, |rows|, 0)
  {
    var rn := Pow(ops, radius, (-(nmin + 2)) as real);
    field := Zero;
    var num := FirstSlotOfDegree(nmin);
    for n := nmin to nmax + 1
      invariant num == DegreeStart(n) && rn == RadialFactor(ops, radius, nmin, n)
      invariant field == Walk(rows, n - nmin, 0)
    {
      field, num, rn := AddDegree(pnm, cmp, smp, coeffs, theta, sinth, radius, ops, nmin, nmax, n, num, rn, field, tabs, rows);
    }
  }

  /** The sums of SynthValues at one point are the field of its degrees. */
  method SumDegrees(pnm: array2<real>, cmp: array<real>, smp: array<real>, coeffs: seq<real>,
                    theta: real, sinth: real, radius: real, nmin: nat, nmax: nat, ops: FloatOps, ghost tabs: seq<Tables>)
    returns (field: Field)
    requires 1 <= nmin <= nmax && DegreeStart(nmax + 1) <= |coeffs|
    requires HoldsDegrees(pnm, cmp, smp, nmax, tabs, sinth)
    ensures field == SynthField(ops, coeffs, theta, tabs, radius, nmin, nmax)
  {
    ghost var rows := PointRows(ops, coeffs, theta, tabs, radius, nmin, nmax);
    field := SumRows(pnm, cmp, smp, coeffs, theta, sinth, radius, nmin, nmax, ops, tabs, rows);
  }

  /** `SynthValues` for one point (the arrays of one element are single
      values here). */
  method SynthValues(coeffs: seq<real>, radiusInput: real, theta: real, phi: real,
                     nmaxArg: Option<int>, nminArg: Option<int>, ops: FloatOps)
    returns (r: Result<Synthesis>)
    ensures r == SynthOutcome(coeffs, radiusInput, theta, phi, nmaxArg, nminArg, ops)
  {
    var radius := radiusInput / EarthRadius;
    SinglePointChecksAgree(theta);
    var check := ColatitudeCheck([theta]);
    if check.Failure? {
      return Failure(check.error);
    }
    var resolved := ResolveDegrees(|coeffs|, nmaxArg, nminArg);
    if resolved.Failure? {
      return Failure(resolved.error);
    }
    var nmin, nmax := resolved.value.degrees.nmin, resolved.value.degrees.nmax;
    DegreesFit(|coeffs|, nmax);
    var pnm := LegendrePoly(nmax, theta, ops);
    var sinth := pnm[1, 1];
    var phiRad := DegreesToRadians(phi);
    var cmp, smp := Harmonics(nmax, phiRad, ops);
    TablesHoldDegrees(pnm, cmp, smp, ops, theta, phiRad, nmax);
    ghost var tabs := PointTables(ops, theta, phiRad, nmax);
    var field := SumDegrees(pnm, cmp, smp, coeffs, theta, sinth, radius, nmin, nmax, ops, tabs);
    return Success(Synthesis(field, OptionToSeq(check.value) + OptionToSeq(resolved.value.warning)));
  }
}
