/** The calendar facts of .NET's DateOnly and DateTime.IsLeapYear that the
    geomagnetic model uses: the proleptic Gregorian leap-year rule and the
    day of the year. */
module Calendar {

  /** DateTime.IsLeapYear: divisible by 4, except centuries not divisible by 400. */
  predicate IsLeapYear(year: int): (leap: bool)
    ensures leap ==> year % 4 == 0
    ensures year % 400 == 0 ==> leap
    ensures year % 100 == 0 && year % 400 != 0 ==> !leap
    ensures year % 4 == 0 && year % 100 != 0 ==> leap
  {
    CenturyFacts(year);
    year % 4 == 0 && (year % 100 != 0 || year % 400 == 0)
  }

  /** A multiple of 400 is a multiple of 100, and a multiple of 100 one of 4. */
  lemma CenturyFacts(year: int)
    ensures year % 400 == 0 ==> year % 100 == 0
    ensures year % 100 == 0 ==> year % 4 == 0
  {
    if year % 400 == 0 {
      var k := year / 400;
      assert year == 100 * (4 * k);
    }
    if year % 100 == 0 {
      var k := year / 100;
      assert year == 4 * (25 * k);
    }
  }

  /** The rule at the years the geomagnetic models span and at the two
      kinds of century. */
  lemma LeapYearExamples()
    ensures IsLeapYear(2024) && IsLeapYear(2000) && IsLeapYear(1904)
    ensures !IsLeapYear(2023) && !IsLeapYear(1900) && !IsLeapYear(2100)
  {
  }

  function DaysInYear(year: int): (d: int)
    ensures d == 365 || d == 366
    ensures d == 366 <==> IsLeapYear(year)
  {
    if IsLeapYear(year) then 366 else 365
  }

  /** DateTime.DaysInMonth. */
  function DaysInMonth(year: int, month: int): (d: int)
    requires 1 <= month <= 12
    ensures 28 <= d <= 31
  {
    if month == 2 then (if IsLeapYear(year) then 29 else 28)
    else if month == 4 || month == 6 || month == 9 || month == 11 then 30
    else 31
  }

  /** A DateOnly value: year 1..9999 and a day that exists in its month. */
  datatype DateOnly = DateOnly(year: int, month: int, day: int)
  {
    predicate Valid()
    {
      1 <= year <= 9999 && 1 <= month <= 12 && 1 <= day <= DaysInMonth(year, month)
    }
  }

  /** Days in the months before `month`. */
  function DaysBeforeMonth(year: int, month: int): (d: int)
    requires 1 <= month <= 12
    decreases month
  {
    if month == 1 then 0 else DaysBeforeMonth(year, month - 1) + DaysInMonth(year, month - 1)
  }

  lemma {:induction false} DaysBeforeMonthBounds(year: int, month: int)
    requires 1 <= month <= 12
    ensures DaysBeforeMonth(year, month) + DaysInMonth(year, month) <= DaysInYear(year)
    ensures DaysBeforeMonth(year, month) >= 0
    decreases 12 - month
  {
    if month < 12 {
      DaysBeforeMonthBounds(year, month + 1);
    }
  }

  /** DateOnly.DayOfYear: 1 on 1 January, up to 365 or 366 on 31 December. */
  function DayOfYear(date: DateOnly): (d: int)
    requires date.Valid()
    ensures 1 <= d <= DaysInYear(date.year)
    ensures d == 1 <==> date.month == 1 && date.day == 1
  {
    DaysBeforeMonthBounds(date.year, date.month);
    DaysBeforeMonthPositive(date.year, date.month);
    DaysBeforeMonth(date.year, date.month) + date.day
  }

  lemma {:induction false} DaysBeforeMonthPositive(year: int, month: int)
    requires 1 <= month <= 12
    ensures month > 1 ==> DaysBeforeMonth(year, month) >= 28
  {
    if month > 2 {
      DaysBeforeMonthPositive(year, month - 1);
    }
  }
}
