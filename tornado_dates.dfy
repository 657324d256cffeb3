/** The date helpers of the tornado-trend handler: `dayOfYearFromParts`, which measures a
    date from day 0 of its year with `Date.UTC`, and `isoFromDayOfYear`, which goes back
    from a day of the year to an ISO 8601 `YYYY-MM-DD` string. Both read a year from 0
    through 99 as 1900 through 1999, as `Date.UTC` does. */
module TornadoDates {
  import opened Calendar

  /** `dayOfYearFromParts(year, month, day)`: whole days from `Date.UTC(year, 0, 0)` to
      `Date.UTC(year, month - 1, day)`; both are whole days, so the floor is exact. */
  function DayOfYearFromParts(year: int, month: int, day: int): int {
    DateUtc(year, month - 1, day) - DateUtc(year, 0, 0)
  }

  /** `isoFromDayOfYear(year, dayOfYear)`: January 1 of the year with its day of month set
      to `dayOfYear` (which rolls over into later months), as `toISOString().slice(0, 10)`. */
  function IsoFromDayOfYear(year: int, dayOfYear: int): string {
    IsoDate(FromDayNumber(DateUtc(year, 0, dayOfYear)))
  }

  /** Day `k` of January counts from the day before January 1. */
  lemma {:induction false} JanuaryDay(year: int, k: int)
    ensures DateUtc(year, 0, k) == DaysBeforeYear(FullYear(year)) + k - 1
  {
  }

  /** For a valid date the day of the year is its ordinal in the year. */
  lemma {:induction false} DayOfYearOfValid(year: int, month: int, day: int)
    requires Valid(Date(FullYear(year), month, day))
    ensures DayOfYearFromParts(year, month, day) == DayOfYear(Date(FullYear(year), month, day))
  {
    UtcDayOfValid(Date(FullYear(year), month, day));
    JanuaryDay(year, 0);
  }

  /** January 1 is day 1 and December 31 is day 365, or 366 in a leap year. */
  lemma {:induction false} FirstAndLastDay(year: int)
    ensures DayOfYearFromParts(year, 1, 1) == 1
    ensures DayOfYearFromParts(year, 12, 31) == DaysInYear(FullYear(year))
  {
    var y := FullYear(year);
    DayOfYearOfValid(year, 1, 1);
    DayOfYearOfValid(year, 12, 31);
    DaysBeforeMonthStep(y, 12);
  }

  /** `isoFromDayOfYear` inverts `dayOfYearFromParts` on every valid date. */
  lemma {:induction false} IsoFromDayOfYearInverts(year: int, month: int, day: int)
    requires Valid(Date(FullYear(year), month, day))
    ensures IsoFromDayOfYear(year, DayOfYearFromParts(year, month, day)) == IsoDate(Date(FullYear(year), month, day))
  {
    DateOfDayOfYear(year, month, day);
  }

  lemma {:induction false} DateOfDayOfYear(year: int, month: int, day: int)
    requires Valid(Date(FullYear(year), month, day))
    ensures FromDayNumber(DateUtc(year, 0, DayOfYearFromParts(year, month, day))) == Date(FullYear(year), month, day)
  {
    var d := Date(FullYear(year), month, day);
    var k := DayOfYearFromParts(year, month, day);
    DayOfYearOfValid(year, month, day);
    JanuaryDay(year, k);
    var n := DateUtc(year, 0, k);
    assert n == DayNumber(d);
    FromDayNumberOfDate(d);
  }

  /** Day 60 of a leap year is February 29. */
  lemma {:induction false} LeapDaySixty(year: int)
    requires IsLeapYear(FullYear(year))
    ensures IsoFromDayOfYear(year, 60) == IsoDate(Date(FullYear(year), 2, 29))
  {
    DayOfYearOfValid(year, 2, 29);
    assert DayOfYearFromParts(year, 2, 29) == 60;
    DateOfDayOfYear(year, 2, 29);
  }
}
