/** The C# numeric conversions and operators the modelled code relies on,
    written out over unbounded integers and exact reals. */
module Numerics {
  import opened Wrappers

  const Int32Min: int := -0x8000_0000
  const Int32Max: int := 0x7FFF_FFFF

  predicate IsInt32(x: int)
  {
    Int32Min <= x <= Int32Max
  }

  /** Two's-complement wrap-around of 32-bit `int` arithmetic. */
  function Wrap32(x: int): (w: int)
    ensures IsInt32(w)
    ensures (w - x) % 0x1_0000_0000 == 0
    ensures IsInt32(x) ==> w == x
    ensures Int32Max < x <= Int32Max + 0x1_0000_0000 ==> w == x - 0x1_0000_0000
  {
    var m := (x - Int32Min) % 0x1_0000_0000;
    m + Int32Min
  }

  /** The conversion of a double to an integer that rounds toward zero
      (the `(int)` cast and `Math.Truncate`). */
  function Truncate(x: real): (t: int)
    ensures (t as real) <= x < (t as real) + 1.0 || (t as real) - 1.0 < x <= (t as real)
    ensures x >= 0.0 ==> 0 <= t && (t as real) <= x
    ensures x < 0.0 ==> t <= 0 && x <= (t as real)
  {
    if x >= 0.0 then x.Floor else -((-x).Floor)
  }

  /** C#'s integer `/`: the quotient truncated toward zero. */
  function TruncDiv(a: int, b: int): (q: int)
    requires b != 0
    ensures a >= 0 && b > 0 ==> q == a / b
    ensures a >= 0 && b < 0 ==> q <= 0
  {
    if (a >= 0) == (b > 0) then (if a >= 0 then a / b else (-a) / (-b))
    else -(if a >= 0 then a / (-b) else (-a) / b)
  }

  /** Rounding to the nearest integer, ties to the even one. */
  function RoundHalfEven(x: real): (r: int)
    ensures x - 0.5 <= r as real <= x + 0.5
    ensures (r as real - x == 0.5 || x - r as real == 0.5) ==> r % 2 == 0
  {
    var f := x.Floor;
    var frac := x - f as real;
    if frac > 0.5 || (frac == 0.5 && f % 2 != 0) then f + 1 else f
  }

  /** `Convert.ToInt32(double)`: rounds half to even, and throws
      OverflowException when the value lies outside the 32-bit range. */
  function ToInt32(x: real): (r: Result<int>)
    ensures r.Success? <==> -2147483648.5 <= x < 2147483647.5
    ensures r.Success? ==> IsInt32(r.value) && x - 0.5 <= r.value as real <= x + 0.5
    ensures r.Success? && (r.value as real - x == 0.5 || x - r.value as real == 0.5) ==> r.value % 2 == 0
  {
    if -2147483648.5 <= x < 2147483647.5 then Success(RoundHalfEven(x)) else Failure(OverflowException)
  }

  lemma ToInt32Examples()
    ensures ToInt32(2.5) == Success(2) && ToInt32(3.5) == Success(4) && ToInt32(-2.5) == Success(-2)
    ensures ToInt32(13.0) == Success(13) && ToInt32(2147483648.0).Failure?
  {
    assert (2.5).Floor == 2;
    assert (3.5).Floor == 3;
    assert (-2.5).Floor == -3;
  }
}
