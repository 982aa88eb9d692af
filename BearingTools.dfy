/** Compass-bearing helpers: normalising a bearing into [0, 360) and turning
    a magnetic bearing into a true one by adding the declination. */
module BearingTools {
  import opened Numerics
  import opened IgrfGeomagneticData

  /** The C# `%` on doubles: the remainder of the division truncated toward
      zero, so it has the sign of the dividend. */
  function Remainder360(x: real): (r: real)
    ensures -360.0 < r < 360.0
    ensures x >= 0.0 ==> r >= 0.0
    ensures x < 0.0 ==> r <= 0.0
  {
    x - 360.0 * (Truncate(x / 360.0) as real)
  }

  /** The bearing brought into [0, 360). */
  function NormalizeBearing(bearing: real): (r: real)
    ensures 0.0 <= r < 360.0
  {
    var r := Remainder360(bearing);
    if r < 0.0 then r + 360.0 else r
  }

  /** The normalised bearing lies in [0, 360) and differs from the input by
      a whole number of turns. */
  lemma NormalizeBearingRange(bearing: real)
    ensures 0.0 <= NormalizeBearing(bearing) < 360.0
    ensures IsWholeTurns(NormalizeBearing(bearing) - bearing)
  {
    var t := Truncate(bearing / 360.0);
    var k := if Remainder360(bearing) < 0.0 then 1 - t else -t;
    assert NormalizeBearing(bearing) - bearing == 360.0 * (k as real);
    TurnsOf(k);
  }

  /** k turns are whole turns. */
  lemma TurnsOf(k: int)
    ensures IsWholeTurns(360.0 * (k as real))
  {
    assert 360.0 * (k as real) / 360.0 == k as real;
  }

  /** `x` is an integer multiple of 360. */
  predicate IsWholeTurns(x: real)
  {
    (x / 360.0).Floor as real == x / 360.0
  }

  /** The normalised bearing is the only value in [0, 360) that differs from
      the input by whole turns. */
  lemma NormalizeBearingUnique(bearing: real, x: real)
    requires 0.0 <= x < 360.0 && IsWholeTurns(x - bearing)
    ensures x == NormalizeBearing(bearing)
  {
    NormalizeBearingRange(bearing);
    var n := NormalizeBearing(bearing);
    var k1 := ((x - bearing) / 360.0).Floor;
    var k2 := ((n - bearing) / 360.0).Floor;
    assert x - n == 360.0 * ((k1 - k2) as real);
    assert -360.0 < x - n < 360.0;
    assert k1 - k2 == 0;
  }

  /** Bearings already in [0, 360) are returned unchanged. */
  lemma NormalizeBearingFixesRange(bearing: real)
    requires 0.0 <= bearing < 360.0
    ensures NormalizeBearing(bearing) == bearing
  {
    assert IsWholeTurns(bearing - bearing);
    NormalizeBearingUnique(bearing, bearing);
  }

  /** Normalising twice is the same as normalising once. */
  lemma NormalizeBearingIdempotent(bearing: real)
    ensures NormalizeBearing(NormalizeBearing(bearing)) == NormalizeBearing(bearing)
  {
    NormalizeBearingRange(bearing);
    NormalizeBearingFixesRange(NormalizeBearing(bearing));
  }

  /** Adds the declination to the normalised magnetic bearing, giving a
      normalised true bearing. */
  function ApplyDeclination(magneticBearing: real, declination: real): (r: real)
    ensures 0.0 <= r < 360.0
    ensures IsWholeTurns(r - (magneticBearing + declination))
  {
    var m := NormalizeBearing(magneticBearing);
    NormalizeBearingRange(magneticBearing);
    NormalizeBearingRange(m + declination);
    var r := NormalizeBearing(m + declination);
    WholeTurnsAdd(r - (m + declination), m - magneticBearing);
    r
  }

  lemma WholeTurnsAdd(x: real, y: real)
    requires IsWholeTurns(x) && IsWholeTurns(y)
    ensures IsWholeTurns(x + y)
  {
    var a := (x / 360.0).Floor;
    var b := (y / 360.0).Floor;
    assert x == 360.0 * (a as real) && y == 360.0 * (b as real);
    assert x + y == 360.0 * ((a + b) as real);
    TurnsOf(a + b);
  }

  /** The overload taking a geomagnetic result uses its declination. */
  function ApplyDeclinationFromData(magneticBearing: real, magneticData: IgrfGeomagneticData): (r: real)
    ensures r == ApplyDeclination(magneticBearing, magneticData.declination)
    ensures 0.0 <= r < 360.0
  {
    NormalizeBearing(NormalizeBearing(magneticBearing) + magneticData.declination)
  }
}
