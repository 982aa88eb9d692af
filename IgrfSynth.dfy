/** The argument rules of SynthValues and the order in which it walks the
    Gauss coefficients g(n,m), h(n,m). */
module IgrfSynth {
  import opened Wrappers

  /** The integer square root. `(int)Math.Sqrt(k)` computes it for every
      k below 2^52, where the double square root is exact enough. */
  function ISqrt(k: nat): (r: nat)
    ensures r * r <= k < (r + 1) * (r + 1)
  {
    if k == 0 then 0
    else
      var s := ISqrt(k - 1);
      assert (s + 1) * (s + 1) < (s + 2) * (s + 2);
      if (s + 1) * (s + 1) <= k then s + 1 else s
  }

  lemma SquareMono(a: nat, b: nat)
    requires a <= b
    ensures a * a <= b * b
  {
    assert a * a <= a * b;
  }

  /** ISqrt is the only value with its defining bounds. */
  lemma ISqrtUnique(k: nat, r: nat)
    requires r * r <= k < (r + 1) * (r + 1)
    ensures ISqrt(k) == r
  {
    var s := ISqrt(k);
    if s < r {
      SquareMono(s + 1, r);
    } else if r < s {
      SquareMono(r + 1, s);
    }
  }

  /** The largest degree a coefficient vector of length `len` supports. */
  function NmaxCoeffs(len: nat): int
  {
    ISqrt(len + 1) - 1
  }

  /** A full model of degree k holds k² + 2k coefficients, and the vector
      length gives back exactly k. */
  lemma NmaxOfFullModel(k: nat)
    ensures NmaxCoeffs(k * k + 2 * k) == k
  {
    ISqrtUnique(k * k + 2 * k + 1, k + 1);
  }

  /** Any degree up to NmaxCoeffs(len) has all its coefficients: the
      degrees 1..nmax use the first (nmax+1)² - 1 slots. */
  lemma CoefficientsCover(len: nat, nmax: nat)
    requires nmax <= NmaxCoeffs(len)
    ensures (nmax + 1) * (nmax + 1) - 1 <= len
  {
    SquareMono(nmax + 1, ISqrt(len + 1));
  }

  /** One more degree than NmaxCoeffs(len) has too few coefficients. */
  lemma NmaxCoeffsIsLargest(len: nat)
    ensures len < (NmaxCoeffs(len) + 2) * (NmaxCoeffs(len) + 2) - 1
  {
  }

  // ---------------------------------------------------------------------
  // Decimal formatting for the messages.

  function DigitChar(d: int): char
    requires 0 <= d < 10
  {
    "0123456789"[d]
  }

  function NatToString(k: nat): (s: string)
    ensures |s| > 0 && forall i :: 0 <= i < |s| ==> '0' <= s[i] <= '9'
    decreases k
  {
    if k < 10 then [DigitChar(k)] else NatToString(k / 10) + [DigitChar(k % 10)]
  }

  /** An int as C#'s string interpolation prints it. */
  function IntToString(i: int): (s: string)
    ensures |s| > 0 && (s[0] == '-' <==> i < 0)
  {
    if i < 0 then "-" + NatToString(-i) else NatToString(i)
  }

  // ---------------------------------------------------------------------
  // Degree arguments.

  datatype Degrees = Degrees(nmin: int, nmax: int)

  /** The resolved degree range and the console warning it printed, if any. */
  datatype Resolved = Resolved(degrees: Degrees, warning: Option<string>)

  const PositiveNminMessage := "Only positive nmin allowed."
  const PositiveNmaxMessage := "Only positive nmax allowed."

  function ClampWarning(nmax: int, nmin: int, nmaxCoeffs: int): string
  {
    "Supplied nmax = " + IntToString(nmax) + " and nmin = " + IntToString(nmin)
    + " is incompatible with number of model coefficients. Using nmax = " + IntToString(nmaxCoeffs) + " instead."
  }

  function NothingToComputeMessage(nmax: int, nmin: int): string
  {
    "Nothing to compute: nmax < nmin (" + IntToString(nmax) + " < " + IntToString(nmin) + ")."
  }

  function Default(o: Option<int>, d: int): int
  {
    if o.Some? then o.value else d
  }

  /** nmin defaults to 1 and nmax to the largest supported degree; both must
      be positive; a too-large nmax is clamped with a warning; an empty range
      is an error. */
  function ResolveDegrees(len: nat, nmaxArg: Option<int>, nminArg: Option<int>): (r: Result<Resolved>)
    ensures var nmin := Default(nminArg, 1);
      var nmax := Default(nmaxArg, NmaxCoeffs(len));
      var clamped := if nmax > NmaxCoeffs(len) then NmaxCoeffs(len) else nmax;
      && (nmin <= 0 ==> r == Failure(ArgumentException(PositiveNminMessage)))
      && (nmin > 0 && nmax <= 0 ==> r == Failure(ArgumentException(PositiveNmaxMessage)))
      && (nmin > 0 && nmax > 0 && clamped < nmin ==> r == Failure(ArgumentException(NothingToComputeMessage(clamped, nmin))))
      && (r.Success? <==> 0 < nmin <= clamped && nmax > 0)
      && (r.Success? ==> r.value.degrees == Degrees(nmin, clamped)
                         && (r.value.warning.Some? <==> nmax > NmaxCoeffs(len)))
    ensures r.Success? ==> 1 <= r.value.degrees.nmin <= r.value.degrees.nmax <= NmaxCoeffs(len)
  {
    var nmin := Default(nminArg, 1);
    if nmin <= 0 then Failure(ArgumentException(PositiveNminMessage))
    else
      var nmaxCoeffs := NmaxCoeffs(len);
      var nmax := Default(nmaxArg, nmaxCoeffs);
      if nmax <= 0 then Failure(ArgumentException(PositiveNmaxMessage))
      else
        var warning := if nmax > nmaxCoeffs then Some(ClampWarning(nmax, nmin, nmaxCoeffs)) else None;
        var nmax' := if nmax > nmaxCoeffs then nmaxCoeffs else nmax;
        if nmax' < nmin then Failure(ArgumentException(NothingToComputeMessage(nmax', nmin)))
        else Success(Resolved(Degrees(nmin, nmax'), warning))
  }

  /** A coefficient vector too short for degree 1 (fewer than three
      values) leaves nothing to compute, whatever the arguments. */
  lemma ShortVectorFails(len: nat, nmaxArg: Option<int>, nminArg: Option<int>)
    requires len < 3
    ensures ResolveDegrees(len, nmaxArg, nminArg).Failure?
  {
    assert ISqrt(len + 1) == 1 by { ISqrtUnique(len + 1, 1); }
  }

  /** With the defaults, a full model of degree k >= 1 is synthesised over
      all its degrees, without a warning. */
  lemma DefaultsUseWholeModel(k: nat)
    requires k >= 1
    ensures ResolveDegrees(k * k + 2 * k, None, None) == Success(Resolved(Degrees(1, k), None))
  {
    NmaxOfFullModel(k);
  }

  // ---------------------------------------------------------------------
  // Colatitude bounds.

  function MinOf(s: seq<real>): (r: real)
    requires |s| > 0
    ensures (forall i :: 0 <= i < |s| ==> r <= s[i]) && exists i :: 0 <= i < |s| && s[i] == r
  {
    if |s| == 1 then s[0]
    else
      var rest := MinOf(s[1..]);
      assert forall i :: 1 <= i < |s| ==> s[1..][i - 1] == s[i];
      if s[0] <= rest then s[0] else rest
  }

  function MaxOf(s: seq<real>): (r: real)
    requires |s| > 0
    ensures (forall i :: 0 <= i < |s| ==> s[i] <= r) && exists i :: 0 <= i < |s| && s[i] == r
  {
    if |s| == 1 then s[0]
    else
      var rest := MaxOf(s[1..]);
      assert forall i :: 1 <= i < |s| ==> s[1..][i - 1] == s[i];
      if s[0] >= rest then s[0] else rest
  }

  const PolesWarning := "The geographic poles are included."
  const ColatitudeMessage := "Colatitude outside bounds [0, 180]."
  /** `Enumerable.Min` of an empty array. */
  const NoElements := InvalidOperationException("Sequence contains no elements")

  /** The colatitude check as written: it looks only at the smallest and
      the largest colatitude, and lets any set through that merely touches
      a pole. */
  function ColatitudeCheckAsWritten(theta: seq<real>): (r: Result<Option<string>>)
    ensures |theta| == 0 ==> r == Failure(NoElements)
    ensures r.Success? <==>
      && |theta| > 0
      && (|| (forall i :: 0 <= i < |theta| ==> 0.0 < theta[i] < 180.0)
          || ((forall i :: 0 <= i < |theta| ==> 0.0 <= theta[i]) && 0.0 in theta)
          || ((forall i :: 0 <= i < |theta| ==> theta[i] <= 180.0) && 180.0 in theta))
    ensures r.Success? ==> (r.value.Some? <==> 0.0 in theta || 180.0 in theta)
  {
    if |theta| == 0 then Failure(NoElements)
    else if MinOf(theta) <= 0.0 || MaxOf(theta) >= 180.0 then
      if MinOf(theta) == 0.0 || MaxOf(theta) == 180.0 then Success(Some(PolesWarning))
      else Failure(ArgumentException(ColatitudeMessage))
    else Success(None)
  }

  predicate InBounds(t: real)
  {
    0.0 <= t <= 180.0
  }

  /** The check as the message describes it: any colatitude outside
      [0, 180] is an error; a pole is only a warning. */
  function ColatitudeCheck(theta: seq<real>): (r: Result<Option<string>>)
    ensures r.Success? <==> |theta| > 0 && forall i :: 0 <= i < |theta| ==> InBounds(theta[i])
    ensures r.Success? ==> (r.value.Some? <==> exists i :: 0 <= i < |theta| && (theta[i] == 0.0 || theta[i] == 180.0))
  {
    if |theta| == 0 then Failure(NoElements)
    else if MinOf(theta) < 0.0 || MaxOf(theta) > 180.0 then Failure(ArgumentException(ColatitudeMessage))
    else if MinOf(theta) == 0.0 || MaxOf(theta) == 180.0 then Success(Some(PolesWarning))
    else Success(None)
  }

  /** The check as written accepts the colatitudes 0 and 200, which the
      intended check rejects. */
  lemma AsWrittenAcceptsOutOfBounds()
    ensures ColatitudeCheckAsWritten([0.0, 200.0]) == Success(Some(PolesWarning))
    ensures ColatitudeCheck([0.0, 200.0]) == Failure(ArgumentException(ColatitudeMessage))
  {
    assert MinOf([0.0, 200.0]) == 0.0;
    assert MaxOf([0.0, 200.0]) == 200.0;
  }

  /** The two checks differ only there: the check as written never rejects
      what the intended one accepts, and on colatitudes inside the bounds,
      in particular on every single-point call, the two agree. */
  lemma AsWrittenOnlyMoreLenient(theta: seq<real>)
    ensures ColatitudeCheck(theta).Success? ==> ColatitudeCheckAsWritten(theta) == ColatitudeCheck(theta)
    ensures ColatitudeCheckAsWritten(theta).Failure? ==> ColatitudeCheckAsWritten(theta) == ColatitudeCheck(theta)
  {
  }

  lemma SinglePointChecksAgree(t: real)
    ensures ColatitudeCheckAsWritten([t]) == ColatitudeCheck([t])
    ensures ColatitudeCheck([t]).Success? <==> InBounds(t)
    ensures InBounds(t) ==> ColatitudeCheck([t]).value == (if t == 0.0 || t == 180.0 then Some(PolesWarning) else None)
  {
  }

  // ---------------------------------------------------------------------
  // The coefficient walk.

  /** A coefficient slot: g(n,m) (cosine part) or h(n,m) (sine part). */
  datatype Slot = Slot(n: nat, m: nat, sine: bool)
  {
    predicate Valid()
    {
      1 <= n && m <= n && (sine ==> m >= 1)
    }
  }

  /** Where SynthValues reads a slot: `num` is n² - 1 at the start of
      degree n, g(n,0) takes one place and each order m >= 1 takes two,
      g(n,m) then h(n,m). */
  function SlotIndex(s: Slot): (k: int)
    requires s.Valid()
    ensures s.n * s.n - 1 <= k < (s.n + 1) * (s.n + 1) - 1
  {
    if s.m == 0 then s.n * s.n - 1
    else if s.sine then s.n * s.n + 2 * s.m - 1
    else s.n * s.n + 2 * s.m - 2
  }

  /** The slot stored at position k. */
  function SlotOf(k: nat): (s: Slot)
    ensures s.Valid() && SlotIndex(s) == k
  {
    var n := ISqrt(k + 1);
    var rest := k + 1 - n * n;
    if rest == 0 then Slot(n, 0, false)
    else if rest % 2 == 1 then Slot(n, (rest + 1) / 2, false)
    else Slot(n, rest / 2, true)
  }

  /** Each slot has its own position: the walk visits every slot once. */
  lemma SlotOfIndex(s: Slot)
    requires s.Valid()
    ensures SlotOf(SlotIndex(s)) == s
  {
    var k := SlotIndex(s);
    ISqrtUnique(k + 1, s.n);
  }

  lemma SlotIndexInjective(a: Slot, b: Slot)
    requires a.Valid() && b.Valid() && SlotIndex(a) == SlotIndex(b)
    ensures a == b
  {
    SlotOfIndex(a);
    SlotOfIndex(b);
  }

  /** The degrees nmin..nmax occupy exactly the positions
      nmin² - 1 .. (nmax+1)² - 2. */
  lemma WalkRange(nmin: nat, nmax: nat, k: nat)
    requires 1 <= nmin <= nmax
    ensures nmin * nmin - 1 <= k < (nmax + 1) * (nmax + 1) - 1 <==> nmin <= SlotOf(k).n <= nmax
  {
    var n := SlotOf(k).n;
    if nmin * nmin - 1 <= k && n < nmin {
      SquareMono(n + 1, nmin);
    }
    if k < (nmax + 1) * (nmax + 1) - 1 && n > nmax {
      SquareMono(nmax + 1, n);
    }
    if nmin <= n && k < nmin * nmin - 1 {
      SquareMono(nmin, n);
    }
    if n <= nmax && k >= (nmax + 1) * (nmax + 1) - 1 {
      SquareMono(n + 1, nmax + 1);
    }
  }

  /** Every slot of a resolved degree range lies inside the vector. */
  lemma ResolvedSlotsInBounds(len: nat, d: Degrees, s: Slot)
    requires 1 <= d.nmin <= d.nmax <= NmaxCoeffs(len)
    requires s.Valid() && d.nmin <= s.n <= d.nmax
    ensures 0 <= SlotIndex(s) < len
  {
    CoefficientsCover(len, d.nmax);
    SquareMono(s.n + 1, d.nmax + 1);
  }
}
