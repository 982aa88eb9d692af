/** GetGeomagneticData: the field of the IGRF model at a place and a date,
    with its secular variation, from three single-point evaluations of the
    spherical-harmonic sums; and the straight-line conversions Xyz2Dhif and
    Xyz2DhifSv from north, east and vertical components to declination,
    horizontal intensity, inclination and total intensity. */
module IgrfGeomagnetic {
  import opened Wrappers
  import opened Numerics
  import opened Calendar
  import opened FloatMath
  import opened IgrfShc
  import opened IgrfSynth
  import opened IgrfField
  import D = IgrfGeomagneticData

  // ---------------------------------------------------------------------
  // The date.

  /** The date as a fractional year: the year plus the days elapsed
      before the day, over the days of that year. */
  function FractionalYear(date: DateOnly): (y: real)
    requires date.Valid()
    ensures date.year as real <= y < date.year as real + 1.0
    ensures y == date.year as real <==> date.month == 1 && date.day == 1
  {
    var elapsed := (DayOfYear(date) - 1) as real;
    if IsLeapYear(date.year) then date.year as real + elapsed / 366.0
    else date.year as real + elapsed / 365.0
  }

  /** `epoch * 5` with `epoch = (int)((year - 1900) / 5)`: the cast
      truncates toward zero. */
  function EpochStart(year: real): (e: int)
    ensures e % 5 == 0
    ensures year >= 1900.0 ==> 1900.0 + e as real <= year < 1900.0 + e as real + 5.0
    ensures 1895.0 < year < 1900.0 ==> e == 0
  {
    Truncate((year - 1900.0) / 5.0) * 5
  }

  /** For a date of 1900 or later, the five-year period of the secular
      variation starts at or before its year and ends after it. */
  lemma EpochBracketsDate(date: DateOnly)
    requires date.Valid() && date.year >= 1900
    ensures var e := EpochStart(FractionalYear(date));
      1900 + e <= date.year < 1900 + e + 5
  {
  }

  // ---------------------------------------------------------------------
  // The conversions.

  /** Declination and inclination in degrees, horizontal and total
      intensity. */
  datatype Dhif = Dhif(d: real, h: real, i: real, f: real)

  function Xyz2Dhif(ops: FloatOps, x: real, y: real, z: real): Dhif
  {
    var hsq := Mul(ops, x, x) + Mul(ops, y, y);
    var hoz := Sqrt(ops, hsq);
    var eff := Sqrt(ops, hsq + Mul(ops, z, z));
    var dec := Atan2(ops, y, x);
    var inc := Atan2(ops, z, hoz);
    Dhif(RadiansToDegrees(dec), hoz, RadiansToDegrees(inc), eff)
  }

  lemma SquareNonNegative(x: real)
    ensures x * x >= 0.0
  {
    if x < 0.0 {
      MulPositive(-x, -x);
    } else if x > 0.0 {
      MulPositive(x, x);
    }
  }

  /** With exact products and roots, H² = x² + y² and F² = H² + z², so
      0 <= H <= F. */
  lemma DhifIntensities(ops: FloatOps, x: real, y: real, z: real)
    requires SqrtLaw(ops) && MulLaw(ops)
    ensures var r := Xyz2Dhif(ops, x, y, z);
      && r.h * r.h == x * x + y * y
      && r.f * r.f == r.h * r.h + z * z
      && 0.0 <= r.h <= r.f
  {
    var r := Xyz2Dhif(ops, x, y, z);
    SquareNonNegative(x);
    SquareNonNegative(y);
    SquareNonNegative(z);
    var hsq := x * x + y * y;
    assert r.h == ops.sqrt(hsq) && r.f == ops.sqrt(hsq + z * z);
    RootsOrdered(ops, hsq, z * z);
  }

  /** √a <= √(a + b) for non-negative a and b. */
  lemma RootsOrdered(ops: FloatOps, a: real, b: real)
    requires SqrtLaw(ops) && a >= 0.0 && b >= 0.0
    ensures ops.sqrt(a) <= ops.sqrt(a + b)
  {
    SquaresOrdered(ops.sqrt(a), ops.sqrt(a + b));
  }

  /** Every value Xyz2DhifSv computes, including the two rates it
      computes with the other sign and does not return. */
  datatype SvTerms = SvTerms(h2: real, h: real, f2: real, hdot: real, fdot: real,
                             dtest: real, itest: real, ddot: real, idot: real)

  function Xyz2DhifSvTerms(ops: FloatOps, x: real, y: real, z: real, xdot: real, ydot: real, zdot: real): SvTerms
  {
    var h2 := Mul(ops, x, x) + Mul(ops, y, y);
    var h := Sqrt(ops, h2);
    var f2 := h2 + Mul(ops, z, z);
    var hdot := Div(ops, Mul(ops, x, xdot) + Mul(ops, y, ydot), h);
    var fdot := Div(ops, Mul(ops, x, xdot) + Mul(ops, y, ydot) + Mul(ops, z, zdot), Sqrt(ops, f2));
    var dtest := RadiansToDegrees(Div(ops, Mul(ops, xdot, y) - Mul(ops, ydot, x), h2));
    var itest := RadiansToDegrees(Div(ops, Mul(ops, hdot, z) - Mul(ops, h, zdot), f2));
    var ddot := RadiansToDegrees(Div(ops, Mul(ops, ydot, x) - Mul(ops, xdot, y), h2)) * 60.0;
    var idot := RadiansToDegrees(Div(ops, Mul(ops, h, zdot) - Mul(ops, hdot, z), f2)) * 60.0;
    SvTerms(h2, h, f2, hdot, fdot, dtest, itest, ddot, idot)
  }

  /** The rates of declination and inclination (arc-minutes per year),
      of horizontal and of total intensity. */
  function Xyz2DhifSv(ops: FloatOps, x: real, y: real, z: real, xdot: real, ydot: real, zdot: real): Dhif
  {
    var t := Xyz2DhifSvTerms(ops, x, y, z, xdot, ydot, zdot);
    Dhif(t.ddot, t.hdot, t.idot, t.fdot)
  }

  /** The returned rates of declination and inclination are -60 times the
      unused `dtest` and `itest`: the same quotients with the opposite
      sign, in arc-minutes instead of degrees. */
  lemma RatesOpposeTests(ops: FloatOps, x: real, y: real, z: real, xdot: real, ydot: real, zdot: real)
    requires SignLaw(ops)
    ensures var t := Xyz2DhifSvTerms(ops, x, y, z, xdot, ydot, zdot);
      var r := Xyz2DhifSv(ops, x, y, z, xdot, ydot, zdot);
      r.d == -60.0 * t.dtest && r.i == -60.0 * t.itest
  {
    var t := Xyz2DhifSvTerms(ops, x, y, z, xdot, ydot, zdot);
    var u := Mul(ops, xdot, y) - Mul(ops, ydot, x);
    assert ops.div(Mul(ops, ydot, x) - Mul(ops, xdot, y), t.h2) == -ops.div(u, t.h2);
    var v := Mul(ops, t.hdot, z) - Mul(ops, t.h, zdot);
    assert ops.div(Mul(ops, t.h, zdot) - Mul(ops, t.hdot, z), t.f2) == -ops.div(v, t.f2);
  }

  /** With exact products, roots and quotients and a non-zero horizontal
      field, the horizontal rate is the derivative of H = √(x² + y²):
      H · dH = x · dx + y · dy. */
  lemma HorizontalRate(ops: FloatOps, x: real, y: real, z: real, xdot: real, ydot: real, zdot: real)
    requires SqrtLaw(ops) && MulLaw(ops) && DivLaw(ops) && x * x + y * y != 0.0
    ensures var t := Xyz2DhifSvTerms(ops, x, y, z, xdot, ydot, zdot);
      t.h * t.h == x * x + y * y && t.h > 0.0 && t.h * t.hdot == x * xdot + y * ydot
  {
    var t := Xyz2DhifSvTerms(ops, x, y, z, xdot, ydot, zdot);
    SquareNonNegative(x);
    SquareNonNegative(y);
    assert t.h2 == x * x + y * y;
    RootNonZero(t.h, t.h2);
    TimesQuotient(Mul(ops, x, xdot) + Mul(ops, y, ydot), t.h);
  }

  /** A non-negative number whose square is not zero is positive. */
  lemma RootNonZero(h: real, s: real)
    requires h >= 0.0 && s != 0.0 && h * h == s
    ensures h > 0.0
  {
    if h == 0.0 {
      assert false;
    }
  }

  lemma TimesQuotient(a: real, b: real)
    requires b != 0.0
    ensures b * (a / b) == a
  {
  }

  // ---------------------------------------------------------------------
  // The components.

  /** North, east and vertical components. */
  datatype Xyz = Xyz(x: real, y: real, z: real)

  /** X = -B_theta, Y = B_phi, Z = -B_radius in the geocentric frame. */
  function Components(f: Field): Xyz
  {
    Xyz(-f.theta, f.phi, -f.radial)
  }

  /** The rotation of X and Z by the angle between the geocentric and the
      geodetic vertical (cos `cd`, sin `sd`); Y is unchanged. */
  function Rotate(ops: FloatOps, v: Xyz, sd: real, cd: real): (w: Xyz)
    ensures w.y == v.y
    ensures MulLaw(ops) ==> w.x == v.x * cd + v.z * sd && w.z == v.z * cd - v.x * sd
  {
    Xyz(Mul(ops, v.x, cd) + Mul(ops, v.z, sd), v.y, Mul(ops, v.z, cd) - Mul(ops, v.x, sd))
  }

  /** With exact products and cd² + sd² = 1 the rotation keeps the length
      of (X, Z), and rotating back by -sd restores the components. */
  lemma RotationIsRigid(ops: FloatOps, v: Xyz, sd: real, cd: real)
    requires MulLaw(ops) && cd * cd + sd * sd == 1.0
    ensures var w := Rotate(ops, v, sd, cd);
      w.x * w.x + w.z * w.z == v.x * v.x + v.z * v.z && w.y == v.y
    ensures Rotate(ops, Rotate(ops, v, sd, cd), -sd, cd) == v
  {
    var w := Rotate(ops, v, sd, cd);
    var x, z := v.x, v.z;
    assert w.x == x * cd + z * sd && w.z == z * cd - x * sd;
    calc {
      w.x * w.x + w.z * w.z;
      (x * cd + z * sd) * (x * cd + z * sd) + (z * cd - x * sd) * (z * cd - x * sd);
      x * x * (cd * cd + sd * sd) + z * z * (cd * cd + sd * sd);
      x * x + z * z;
    }
    var u := Rotate(ops, w, -sd, cd);
    assert u.x == w.x * cd - w.z * sd;
    calc {
      u.x;
      (x * cd + z * sd) * cd - (z * cd - x * sd) * sd;
      x * (cd * cd + sd * sd);
      x;
    }
    assert u.z == w.z * cd + w.x * sd;
    calc {
      u.z;
      (z * cd - x * sd) * cd + (x * cd + z * sd) * sd;
      z * (cd * cd + sd * sd);
      z;
    }
  }

  /** A zero field has zero components when a zero factor gives a zero
      product. */
  lemma ZeroFieldHasZeroComponents(ops: FloatOps, sd: real, cd: real)
    requires forall x :: ops.mul(0.0, x) == 0.0
    ensures Rotate(ops, Components(Zero), sd, cd) == Xyz(0.0, 0.0, 0.0)
  {
  }

  // ---------------------------------------------------------------------
  // The evaluation.

  /** What GgToGeo returns: the geocentric radius and colatitude, and the
      sine and cosine of the angle between the geodetic and the geocentric
      vertical. */
  datatype Geocentric = Geocentric(radius: real, theta: real, sd: real, cd: real)

  /** The values of every coefficient at the model's times: row i of the
      coefficient table, the data of the interpolator of coefficient i. */
  function CoefficientSeries(coeffs: array2<real>): (series: seq<seq<real>>)
    reads coeffs
    ensures |series| == coeffs.Length0
    ensures forall i :: 0 <= i < coeffs.Length0 ==> |series[i]| == coeffs.Length1
  {
    seq(coeffs.Length0, i requires 0 <= i < coeffs.Length0 reads coeffs =>
      seq(coeffs.Length1, j requires 0 <= j < coeffs.Length1 reads coeffs => coeffs[i, j]))
  }

  /** Every coefficient interpolated at time t. */
  function Interpolated(interpolate: (seq<real>, seq<real>, real) -> real, time: seq<real>,
                        series: seq<seq<real>>, t: real): (v: seq<real>)
    ensures |v| == |series|
  {
    seq(|series|, i requires 0 <= i < |series| => interpolate(time, series[i], t))
  }

  /** Every coefficient's change over the year from `start`. */
  function YearlyChange(interpolate: (seq<real>, seq<real>, real) -> real, time: seq<real>,
                        series: seq<seq<real>>, start: int): (v: seq<real>)
    ensures |v| == |series|
  {
    seq(|series|, i requires 0 <= i < |series| =>
      interpolate(time, series[i], (start + 1) as real) - interpolate(time, series[i], start as real))
  }

  /** Rotated components, and the intensities and angles (or their rates)
      computed from them. */
  datatype Reading = Reading(b: Xyz, dhif: Dhif)

  /** The main field: the rotated components at the date and Xyz2Dhif. */
  function MainReading(ops: FloatOps, geo: Geocentric, main: Field): Reading
  {
    var b := Rotate(ops, Components(main), geo.sd, geo.cd);
    Reading(b, Xyz2Dhif(ops, b.x, b.y, b.z))
  }

  /** The secular variation: the rotated components of the yearly change,
      and Xyz2DhifSv relative to the field `m` at the start of the period. */
  function SvReading(ops: FloatOps, geo: Geocentric, sv: Field, m: Field): Reading
  {
    var db := Rotate(ops, Components(sv), geo.sd, geo.cd);
    var bm := Rotate(ops, Components(m), geo.sd, geo.cd);
    Reading(db, Xyz2DhifSv(ops, bm.x, bm.y, bm.z, db.x, db.y, db.z))
  }

  /** The record: the query echoed, the main field and its secular
      variation. */
  function Record(lat: real, lon: real, altitudeInMeters: real, date: DateOnly,
                  main: Reading, sv: Reading): D.IgrfGeomagneticData
  {
    D.IgrfGeomagneticData(
      altitudeInMeters := altitudeInMeters, date := date,
      declination := main.dhif.d, eastComponent := main.b.y, horizontalIntensity := main.dhif.h,
      inclination := main.dhif.i, latitude := lat, longitude := lon, northComponent := main.b.x,
      secularVariationDeclination := sv.dhif.d, secularVariationEast := sv.b.y,
      secularVariationHorizontalIntensity := sv.dhif.h, secularVariationInclination := sv.dhif.i,
      secularVariationNorth := sv.b.x, secularVariationTotalIntensity := sv.dhif.f,
      secularVariationVertical := sv.b.z, totalIntensity := main.dhif.f, verticalComponent := main.b.z)
  }

  /** What Xyz2Dhif keeps for every input: H² = X² + Y², F² = H² + Z² and
      0 <= H <= F (ExactIntensities: so it does with exact arithmetic). */
  ghost predicate IntensityLaws(ops: FloatOps)
  {
    forall x, y, z :: var r := Xyz2Dhif(ops, x, y, z);
      r.h * r.h == x * x + y * y && r.f * r.f == r.h * r.h + z * z && 0.0 <= r.h <= r.f
  }

  lemma ExactIntensities(ops: FloatOps)
    requires SqrtLaw(ops) && MulLaw(ops)
    ensures IntensityLaws(ops)
  {
    forall x, y, z
      ensures var r := Xyz2Dhif(ops, x, y, z);
        r.h * r.h == x * x + y * y && r.f * r.f == r.h * r.h + z * z && 0.0 <= r.h <= r.f
    {
      DhifIntensities(ops, x, y, z);
    }
  }

  /** The rotation keeps the length of (X, Z) and leaves Y alone for every
      vector (ExactRotationKeepsLength: so it does with exact arithmetic and
      cd² + sd² = 1). */
  ghost predicate KeepsLength(ops: FloatOps, sd: real, cd: real)
  {
    forall v :: var w := Rotate(ops, v, sd, cd);
      w.x * w.x + w.z * w.z == v.x * v.x + v.z * v.z && w.y == v.y
  }

  lemma ExactRotationKeepsLength(ops: FloatOps, sd: real, cd: real)
    requires MulLaw(ops) && cd * cd + sd * sd == 1.0
    ensures KeepsLength(ops, sd, cd)
  {
    forall v
      ensures var w := Rotate(ops, v, sd, cd);
        w.x * w.x + w.z * w.z == v.x * v.x + v.z * v.z && w.y == v.y
    {
      RotationIsRigid(ops, v, sd, cd);
    }
  }

  /** The intensities of the main field: H² = X² + Y², F² = H² + Z²,
      0 <= H <= F, and F² is the squared length of the synthesized field. */
  lemma MainReadingIntensities(ops: FloatOps, geo: Geocentric, main: Field)
    requires IntensityLaws(ops) && KeepsLength(ops, geo.sd, geo.cd)
    ensures var r := MainReading(ops, geo, main);
      && r.dhif.h * r.dhif.h == r.b.x * r.b.x + r.b.y * r.b.y
      && r.dhif.f * r.dhif.f == r.dhif.h * r.dhif.h + r.b.z * r.b.z
      && 0.0 <= r.dhif.h <= r.dhif.f
      && r.dhif.f * r.dhif.f == main.radial * main.radial + main.theta * main.theta + main.phi * main.phi
  {
    var v := Components(main);
    var w := Rotate(ops, v, geo.sd, geo.cd);
    var f := Xyz2Dhif(ops, w.x, w.y, w.z);
    ComponentsLength(main);
    LengthChain(f.f * f.f, f.h * f.h, w.x * w.x, w.y * w.y, w.z * w.z, v.x * v.x, v.y * v.y, v.z * v.z,
                main.radial * main.radial + main.theta * main.theta + main.phi * main.phi);
  }

  /** The bookkeeping of MainReadingIntensities, over the squares. */
  lemma LengthChain(ff: real, hh: real, xx: real, yy: real, zz: real, vxx: real, vyy: real, vzz: real, bb: real)
    requires hh == xx + yy && ff == hh + zz && xx + zz == vxx + vzz && yy == vyy && vxx + vzz + vyy == bb
    ensures ff == bb
  {
  }

  /** X² + Z² + Y² is the squared length of the field. */
  lemma ComponentsLength(b: Field)
    ensures var v := Components(b);
      v.x * v.x + v.z * v.z + v.y * v.y == b.radial * b.radial + b.theta * b.theta + b.phi * b.phi
  {
    assert (-b.theta) * (-b.theta) == b.theta * b.theta;
    assert (-b.radial) * (-b.radial) == b.radial * b.radial;
  }

  /** A yearly change of zero gives no secular variation of the
      components. */
  lemma NoChangeNoSecularVariation(ops: FloatOps, geo: Geocentric)
    requires forall x :: ops.mul(0.0, x) == 0.0
    ensures forall m :: SvReading(ops, geo, Zero, m).b == Xyz(0.0, 0.0, 0.0)
  {
    ZeroFieldHasZeroComponents(ops, geo.sd, geo.cd);
  }

  /** The evaluation for a loaded model: the coefficients at the date, the
      yearly change over the five-year period holding it and the
      coefficients at the start of that period, each summed at the
      geocentric point with the degree limit of the model. */
  function GeomagneticOutcome(time: seq<real>, series: seq<seq<real>>, parameters: map<string, ParamValue>,
                              lat: real, lon: real, altitudeInMeters: real, date: DateOnly, ops: FloatOps,
                              ggToGeo: (real, real) -> Geocentric,
                              interpolate: (seq<real>, seq<real>, real) -> real): (r: Result<D.IgrfGeomagneticData>)
    requires date.Valid()
    ensures var geo := ggToGeo(altitudeInMeters / 1000.0, 90.0 - lat);
      var nmax := IntParameter(parameters, "nmax");
      r.Success? <==> nmax.Success? && InBounds(geo.theta) && ResolveDegrees(|series|, Some(nmax.value), None).Success?
    ensures IntParameter(parameters, "nmax").Failure? ==> r == Failure(IntParameter(parameters, "nmax").error)
    ensures r.Success? ==>
      && r.value.date == date && r.value.latitude == lat && r.value.longitude == lon
      && r.value.altitudeInMeters == altitudeInMeters
  {
    var year := FractionalYear(date);
    var geo := ggToGeo(altitudeInMeters / 1000.0, 90.0 - lat);
    var nmax := IntParameter(parameters, "nmax");
    if nmax.Failure? then Failure(nmax.error)
    else
      var main := SynthOutcome(Interpolated(interpolate, time, series, year), geo.radius, geo.theta, lon, Some(nmax.value), None, ops);
      if main.Failure? then Failure(main.error)
      else
        Success(Record(lat, lon, altitudeInMeters, date,
                       MainReading(ops, geo, main.value.field),
                       SecularOutcome(time, series, geo, lon, nmax.value, year, ops, interpolate)))
  }

  /** The single-point call succeeds at the point with `len` coefficients
      and the degree limit `nmax`. */
  predicate Evaluable(geo: Geocentric, len: nat, nmax: int)
  {
    InBounds(geo.theta) && ResolveDegrees(len, Some(nmax), None).Success?
  }

  /** The secular variation over the five-year period holding `year`: the
      sums of the yearly change and of the coefficients at the start of the
      period. Both calls pass the colatitude and the degree limit of the
      main call with as many coefficients, so they succeed as it did. */
  function SecularOutcome(time: seq<real>, series: seq<seq<real>>, geo: Geocentric, lon: real, nmax: int, year: real,
                          ops: FloatOps, interpolate: (seq<real>, seq<real>, real) -> real): Reading
    requires Evaluable(geo, |series|, nmax)
  {
    var start := 1900 + EpochStart(year);
    var sv := SynthOutcome(YearlyChange(interpolate, time, series, start), geo.radius, geo.theta, lon, Some(nmax), None, ops);
    var m := SynthOutcome(Interpolated(interpolate, time, series, start as real), geo.radius, geo.theta, lon, Some(nmax), None, ops);
    SvReading(ops, geo, sv.value.field, m.value.field)
  }

  /** Coefficients that do not change over the year from the start of the
      five-year period give no secular variation of the components. */
  lemma ConstantCoefficientsHaveNoSecularVariation(time: seq<real>, series: seq<seq<real>>, geo: Geocentric, lon: real,
                                                   nmax: int, year: real, ops: FloatOps,
                                                   interpolate: (seq<real>, seq<real>, real) -> real)
    requires ZeroLaws(ops) && Evaluable(geo, |series|, nmax)
    requires var start := 1900 + EpochStart(year);
      forall i :: 0 <= i < |series| ==>
        interpolate(time, series[i], (start + 1) as real) == interpolate(time, series[i], start as real)
    ensures SecularOutcome(time, series, geo, lon, nmax, year, ops, interpolate).b == Xyz(0.0, 0.0, 0.0)
  {
    NoChangeNoSecularVariation(ops, geo);
    var start := 1900 + EpochStart(year);
    SteadyCoefficientsDoNotChange(time, series, start, interpolate);
    ZeroCoefficientsGiveNoField(YearlyChange(interpolate, time, series, start), geo, lon, nmax, ops);
  }

  lemma SteadyCoefficientsDoNotChange(time: seq<real>, series: seq<seq<real>>, start: int,
                                      interpolate: (seq<real>, seq<real>, real) -> real)
    requires forall i :: 0 <= i < |series| ==>
      interpolate(time, series[i], (start + 1) as real) == interpolate(time, series[i], start as real)
    ensures forall j :: 0 <= j < |series| ==> YearlyChange(interpolate, time, series, start)[j] == 0.0
  {
  }

  /** The single-point sums of coefficients that are all zero. */
  lemma ZeroCoefficientsGiveNoField(coeffs: seq<real>, geo: Geocentric, lon: real, nmax: int, ops: FloatOps)
    requires ZeroLaws(ops) && Evaluable(geo, |coeffs|, nmax)
    requires forall j :: 0 <= j < |coeffs| ==> coeffs[j] == 0.0
    ensures SynthOutcome(coeffs, geo.radius, geo.theta, lon, Some(nmax), None, ops).value.field == Zero
  {
    var d := ResolveDegrees(|coeffs|, Some(nmax), None).value.degrees;
    var tabs := PointTables(ops, geo.theta, DegreesToRadians(lon), d.nmax);
    DegreesFit(|coeffs|, d.nmax);
    ZeroCoefficientsGiveZeroField(ops, coeffs, geo.theta, tabs, geo.radius / EarthRadius, d.nmin, d.nmax);
  }

  // ---------------------------------------------------------------------
  // The method.

  /** The loop that reads the coefficient table row by row: each row is
      the data of one coefficient's interpolator. */
  method ReadSeries(coeffs: array2<real>) returns (series: seq<seq<real>>)
    ensures series == CoefficientSeries(coeffs)
  {
    series := [];
    for i := 0 to coeffs.Length0
      invariant |series| == i
      invariant forall i' :: 0 <= i' < i ==> series[i'] == CoefficientSeries(coeffs)[i']
    {
      var column := new real[coeffs.Length1];
      for j := 0 to coeffs.Length1
        invariant forall j' :: 0 <= j' < j ==> column[j'] == coeffs[i, j']
      {
        column[j] := coeffs[i, j];
      }
      assert column[..] == CoefficientSeries(coeffs)[i];
      series := series + [column[..]];
    }
  }

  /** Every coefficient interpolated at time t, into a fresh array. */
  method InterpolateAt(interpolate: (seq<real>, seq<real>, real) -> real, time: seq<real>,
                       series: seq<seq<real>>, t: real) returns (v: array<real>)
    ensures fresh(v) && v[..] == Interpolated(interpolate, time, series, t)
  {
    v := new real[|series|];
    for i := 0 to |series|
      invariant forall i' :: 0 <= i' < i ==> v[i'] == interpolate(time, series[i'], t)
    {
      v[i] := interpolate(time, series[i], t);
    }
  }

  /** Every coefficient's change over the year from `start`, into a fresh
      array. */
  method YearlyChangeAt(interpolate: (seq<real>, seq<real>, real) -> real, time: seq<real>,
                        series: seq<seq<real>>, start: int) returns (v: array<real>)
    ensures fresh(v) && v[..] == YearlyChange(interpolate, time, series, start)
  {
    v := new real[|series|];
    for i := 0 to |series|
      invariant forall i' :: 0 <= i' < i ==>
        v[i'] == interpolate(time, series[i'], (start + 1) as real) - interpolate(time, series[i'], start as real)
    {
      v[i] := interpolate(time, series[i], (start + 1) as real) - interpolate(time, series[i], start as real);
    }
  }

  /** The body of `GetGeomagneticData` after the model is loaded: the
      geocentric point, the interpolated coefficients, the three sums and the
      rotation of X and Z in place. */
  method Evaluate(igrf: ShcModel, lat: real, lon: real, altitudeInMeters: real, date: DateOnly, ops: FloatOps,
                  ggToGeo: (real, real) -> Geocentric,
                  interpolate: (seq<real>, seq<real>, real) -> real) returns (r: Result<D.IgrfGeomagneticData>)
    requires date.Valid()
    ensures r == GeomagneticOutcome(igrf.time, CoefficientSeries(igrf.coeffs), igrf.parameters,
                                    lat, lon, altitudeInMeters, date, ops, ggToGeo, interpolate)
  {
    var year := FractionalYear(date);
    var geo := ggToGeo(altitudeInMeters / 1000.0, 90.0 - lat);
    var series := ReadSeries(igrf.coeffs);
    var coeffs := InterpolateAt(interpolate, igrf.time, series, year);
    var nmax := IntParameter(igrf.parameters, "nmax");
    if nmax.Failure? {
      return Failure(nmax.error);
    }
    var main := SynthValues(coeffs[..], geo.radius, geo.theta, lon, Some(nmax.value), None, ops);
    if main.Failure? {
      return Failure(main.error);
    }
    var b := RotateInPlace(ops, Components(main.value.field), geo.sd, geo.cd);
    var sums := Xyz2Dhif(ops, b.x, b.y, b.z);
    var secular := SecularVariation(igrf.time, series, geo, lon, nmax.value, year, ops, interpolate);
    r := Success(Record(lat, lon, altitudeInMeters, date, Reading(b, sums), secular));
  }

  /** The secular-variation part of `GetGeomagneticData`: the yearly
      change, the coefficients at the start of the period, their sums and
      the rotation of both. */
  method SecularVariation(time: seq<real>, series: seq<seq<real>>, geo: Geocentric, lon: real, nmax: int, year: real,
                          ops: FloatOps, interpolate: (seq<real>, seq<real>, real) -> real) returns (reading: Reading)
    requires Evaluable(geo, |series|, nmax)
    ensures reading == SecularOutcome(time, series, geo, lon, nmax, year, ops, interpolate)
  {
    var start := 1900 + EpochStart(year);
    var coeffsSv := YearlyChangeAt(interpolate, time, series, start);
    var sv := SynthValues(coeffsSv[..], geo.radius, geo.theta, lon, Some(nmax), None, ops);
    var coeffsM := InterpolateAt(interpolate, time, series, start as real);
    var m := SynthValues(coeffsM[..], geo.radius, geo.theta, lon, Some(nmax), None, ops);
    var db := RotateInPlace(ops, Components(sv.value.field), geo.sd, geo.cd);
    var bm := RotateInPlace(ops, Components(m.value.field), geo.sd, geo.cd);
    reading := Reading(db, Xyz2DhifSv(ops, bm.x, bm.y, bm.z, db.x, db.y, db.z));
  }

  /** The rotation as the source writes it, through a temporary. */
  method RotateInPlace(ops: FloatOps, v: Xyz, sd: real, cd: real) returns (w: Xyz)
    ensures w == Rotate(ops, v, sd, cd)
  {
    var x, z := v.x, v.z;
    var t := x;
    x := Mul(ops, x, cd) + Mul(ops, z, sd);
    z := Mul(ops, z, cd) - Mul(ops, t, sd);
    w := Xyz(x, v.y, z);
  }

  /** The loaded matrix, read row by row, is the reshape of the data. */
  lemma ModelSeriesIsReshape(m: ShcModel, dataList: seq<real>, n: int)
    requires IsInt32(n) && n >= 0 && ReshapeError(|Skip(dataList, n)|, n).None?
    requires ReshapedFrom(m, dataList, n)
    ensures CoefficientSeries(m.coeffs) == ReshapedSeries(Skip(dataList, n), n)
  {
    var coeffsData := Skip(dataList, n);
    var series := CoefficientSeries(m.coeffs);
    var reshaped := ReshapedSeries(coeffsData, n);
    if n > Int32Max - 2 {
      WrappedWidthHasNoRows(|coeffsData|, n);
    } else {
      ReshapeDropsOnlyPartialRow(|coeffsData|, n);
    }
    assert |series| == |reshaped|;
    forall i | 0 <= i < |series| ensures series[i] == reshaped[i] {
      assert |series[i]| == |reshaped[i]|;
      forall j | 0 <= j < n ensures series[i][j] == reshaped[i][j] {
        assert series[i][j] == m.coeffs[i, j];
      }
    }
  }

  /** What `GetGeomagneticData` returns: the exception of the model
      choice, of the scan or of the reshape, or the evaluation of the
      reshaped model. */
  function GeomagneticDataOutcome(lat: real, lon: real, altitudeInMeters: real, date: DateOnly, model: int,
                                  igrf13Text: string, igrf14Text: string, parse: string -> Option<real>, ops: FloatOps,
                                  ggToGeo: (real, real) -> Geocentric,
                                  interpolate: (seq<real>, seq<real>, real) -> real): (r: Result<D.IgrfGeomagneticData>)
    requires date.Valid()
    ensures model != Igrf13Model && model != Igrf14Model ==> r == Failure(ArgumentOutOfRangeException)
    ensures model == Igrf13Model || model == Igrf14Model ==>
              var scan := InternalScan(if model == Igrf13Model then igrf13Text else igrf14Text, parse);
              scan.Failure? ==> r == Failure(scan.error)
    ensures r.Success? ==>
              && r.value.date == date && r.value.latitude == lat && r.value.longitude == lon
              && r.value.altitudeInMeters == altitudeInMeters
  {
    if model != Igrf13Model && model != Igrf14Model then Failure(ArgumentOutOfRangeException)
    else
      var text := if model == Igrf13Model then igrf13Text else igrf14Text;
      match InternalScan(text, parse)
      case Failure(e) => Failure(e)
      case Success(scan) =>
        ScanGroupsValues(TextLines(text), parse, Scan(true, DefaultName, [], []), true);
        ParametersInt32(scan.values);
        var parameters := Parameters(scan.values);
        match IntParameter(parameters, "N")
        case Failure(e) => Failure(e)
        case Success(n) =>
          match ReshapeError(|Skip(scan.dataList, n)|, n)
          case Some(e) => Failure(e)
          case None =>
            GeomagneticOutcome(Take(scan.dataList, n), ReshapedSeries(Skip(scan.dataList, n), n), parameters,
                               lat, lon, altitudeInMeters, date, ops, ggToGeo, interpolate)
  }

  /** `GetGeomagneticData`: loads the chosen embedded model (its texts and
      the number parser are parameters) and evaluates it. */
  method GetGeomagneticData(lat: real, lon: real, altitudeInMeters: real, date: DateOnly, model: int,
                            igrf13Text: string, igrf14Text: string, parse: string -> Option<real>, ops: FloatOps,
                            ggToGeo: (real, real) -> Geocentric,
                            interpolate: (seq<real>, seq<real>, real) -> real) returns (r: Result<D.IgrfGeomagneticData>)
    requires date.Valid()
    ensures model != Igrf13Model && model != Igrf14Model ==> r == Failure(ArgumentOutOfRangeException)
    ensures model == Igrf13Model || model == Igrf14Model ==>
              var scan := InternalScan(if model == Igrf13Model then igrf13Text else igrf14Text, parse);
              scan.Failure? ==> r == Failure(scan.error)
    ensures r == GeomagneticDataOutcome(lat, lon, altitudeInMeters, date, model, igrf13Text, igrf14Text, parse,
                                        ops, ggToGeo, interpolate)
  {
    var igrf := LoadInternalShcModel(model, igrf13Text, igrf14Text, parse);
    if igrf.Failure? {
      return Failure(igrf.error);
    }
    var scan := InternalScan(if model == Igrf13Model then igrf13Text else igrf14Text, parse).value;
    var n := IntParameter(Parameters(scan.values), "N").value;
    ModelSeriesIsReshape(igrf.value, scan.dataList, n);
    r := Evaluate(igrf.value, lat, lon, altitudeInMeters, date, ops, ggToGeo, interpolate);
  }
}
