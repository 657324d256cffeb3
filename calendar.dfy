/** The proleptic Gregorian calendar as JavaScript's `Date` sees it in UTC: day numbers
    counted from 1970-01-01, `Date.UTC`'s normalisation of an out-of-range month or day,
    calendar dates rebuilt from day numbers, ordinal days, and the two date renderings
    the handlers use. */
module Calendar {
  import opened Text

  datatype Date = Date(year: int, month: int, day: int)

  predicate IsLeapYear(y: int) {
    y % 4 == 0 && (y % 100 != 0 || y % 400 == 0)
  }

  function DaysInYear(y: int): int {
    if IsLeapYear(y) then 366 else 365
  }

  function DaysInMonth(y: int, m: int): int
    requires 1 <= m <= 12
  {
    if m == 2 then (if IsLeapYear(y) then 29 else 28)
    else if m == 4 || m == 6 || m == 9 || m == 11 then 30
    else 31
  }

  predicate Valid(d: Date) {
    1 <= d.month <= 12 && 1 <= d.day <= DaysInMonth(d.year, d.month)
  }

  /** Days of year `y` before the first of month `m`; `m == 13` stands for the next January. */
  function DaysBeforeMonth(y: int, m: int): int
    requires 1 <= m <= 13
  {
    [0, 31, 59, 90, 120, 151, 181, 212, 243, 273, 304, 334, 365][m - 1]
      + (if IsLeapYear(y) && m > 2 then 1 else 0)
  }

  lemma {:induction false} DaysBeforeMonthStep(y: int, m: int)
    requires 1 <= m <= 12
    ensures DaysBeforeMonth(y, m + 1) == DaysBeforeMonth(y, m) + DaysInMonth(y, m)
    ensures DaysBeforeMonth(y, 13) == DaysInYear(y)
  {
  }

  /** Leap years before year `y`, counted from a fixed origin (floor division). */
  function LeapsBefore(y: int): int {
    (y - 1) / 4 - (y - 1) / 100 + (y - 1) / 400
  }

  /** Days from 1970-01-01 to the first of January of year `y`. */
  function DaysBeforeYear(y: int): int {
    365 * (y - 1970) + LeapsBefore(y) - LeapsBefore(1970)
  }

  lemma {:induction false} DivStep(y: int, k: int)
    requires k > 0
    ensures y / k - (y - 1) / k == if y % k == 0 then 1 else 0
  {
    var q := (y - 1) / k;
    var r := (y - 1) % k;
    assert y - 1 == q * k + r && 0 <= r < k;
    if r == k - 1 {
      assert y == (q + 1) * k;
      DivUnique(y, k, q + 1, 0);
    } else {
      assert y == q * k + (r + 1);
      DivUnique(y, k, q, r + 1);
    }
  }

  lemma {:induction false} DivUnique(y: int, k: int, q: int, r: int)
    requires k > 0 && 0 <= r < k && y == q * k + r
    ensures y / k == q && y % k == r
  {
    var q' := y / k;
    var r' := y % k;
    assert y == q' * k + r';
    assert q' < q ==> q' * k <= (q - 1) * k;
    assert q' > q ==> q' * k >= (q + 1) * k;
  }

  lemma {:induction false} MultipleOf400(y: int)
    ensures y % 400 == 0 ==> y % 100 == 0
    ensures y % 100 == 0 ==> y % 4 == 0
  {
    if y % 400 == 0 {
      DivUnique(y, 100, 4 * (y / 400), 0);
    }
    if y % 100 == 0 {
      DivUnique(y, 4, 25 * (y / 100), 0);
    }
  }

  /** Each year contributes exactly its own length. */
  lemma {:induction false} DaysBeforeYearStep(y: int)
    ensures DaysBeforeYear(y + 1) == DaysBeforeYear(y) + DaysInYear(y)
  {
    DivStep(y, 4);
    DivStep(y, 100);
    DivStep(y, 400);
    MultipleOf400(y);
  }

  lemma {:induction false} DaysBeforeYearMonotone(a: int, b: int)
    requires a < b
    ensures DaysBeforeYear(a) + DaysInYear(a) <= DaysBeforeYear(b)
    decreases b - a
  {
    DaysBeforeYearStep(a);
    if a + 1 < b {
      DaysBeforeYearMonotone(a + 1, b);
    }
  }

  /** Days from 1970-01-01 to a date whose month is in range (the day may overflow). */
  function DayNumber(d: Date): int
    requires 1 <= d.month <= 12
  {
    DaysBeforeYear(d.year) + DaysBeforeMonth(d.year, d.month) + d.day - 1
  }

  /** `Date.UTC(y, monthIndex, day)` divided by the milliseconds of a day: a month index
      outside 0..11 moves into neighbouring years, a day outside the month moves into
      neighbouring months (ECMAScript MakeDay). */
  function UtcDay(y: int, monthIndex: int, day: int): int {
    var ym := y + monthIndex / 12;
    var mn := monthIndex % 12;
    DaysBeforeYear(ym) + DaysBeforeMonth(ym, mn + 1) + day - 1
  }

  /** For an in-range date `Date.UTC` is the day number. */
  lemma {:induction false} UtcDayOfValid(d: Date)
    requires 1 <= d.month <= 12
    ensures UtcDay(d.year, d.month - 1, d.day) == DayNumber(d)
  {
    DivUnique(d.month - 1, 12, 0, d.month - 1);
  }

  /** Position of a valid date in its year, 1 for the first of January. */
  function DayOfYear(d: Date): (n: int)
    requires Valid(d)
    ensures 1 <= n <= DaysInYear(d.year)
    ensures n == DayNumber(d) - DaysBeforeYear(d.year) + 1
  {
    DaysBeforeMonthStep(d.year, d.month);
    MonthsIncrease(d.year, d.month + 1, 13);
    DaysBeforeMonth(d.year, d.month) + d.day
  }

  lemma {:induction false} MonthsIncrease(y: int, a: int, b: int)
    requires 1 <= a <= b <= 13
    ensures DaysBeforeMonth(y, a) <= DaysBeforeMonth(y, b)
  {
  }

  /** The month of year `y` holding its `k`-th day, searching from month `m`. */
  function MonthFrom(y: int, k: int, m: int): (r: int)
    requires 1 <= m <= 12
    requires DaysBeforeMonth(y, m) < k <= DaysInYear(y)
    ensures m <= r <= 12
    ensures DaysBeforeMonth(y, r) < k <= DaysBeforeMonth(y, r) + DaysInMonth(y, r)
    decreases 12 - m
  {
    DaysBeforeMonthStep(y, m);
    if k <= DaysBeforeMonth(y, m + 1) then m else MonthFrom(y, k, m + 1)
  }

  /** The `k`-th day of year `y` for any `k`: day 0 is the last day of the year before,
      day `DaysInYear(y) + 1` the first of the year after. */
  function DateFromOrdinal(y: int, k: int): (r: Date)
    ensures Valid(r)
    ensures DayNumber(r) == DaysBeforeYear(y) + k - 1
    ensures 1 <= k <= DaysInYear(y) ==> r.year == y
    decreases if k < 1 then 1 - k else 0, if k < 1 then 0 else k
  {
    if k < 1 then
      DaysBeforeYearStep(y - 1);
      DateFromOrdinal(y - 1, k + DaysInYear(y - 1))
    else if k > DaysInYear(y) then
      DaysBeforeYearStep(y);
      DateFromOrdinal(y + 1, k - DaysInYear(y))
    else
      DaysBeforeMonthStep(y, 12);
      var m := MonthFrom(y, k, 1);
      Date(y, m, k - DaysBeforeMonth(y, m))
  }

  /** The calendar date of a day number. */
  function FromDayNumber(n: int): (d: Date)
    ensures Valid(d) && DayNumber(d) == n
  {
    DateFromOrdinal(1970, n + 1)
  }

  /** Strictly earlier in (year, month, day) order. */
  predicate Before(a: Date, b: Date) {
    a.year < b.year
    || (a.year == b.year && a.month < b.month)
    || (a.year == b.year && a.month == b.month && a.day < b.day)
  }

  /** Calendar order and day-number order agree on valid dates. */
  lemma {:induction false} BeforeIsEarlierDay(a: Date, b: Date)
    requires Valid(a) && Valid(b)
    ensures Before(a, b) <==> DayNumber(a) < DayNumber(b)
  {
    if Before(a, b) {
      BeforeImpliesEarlier(a, b);
    } else if a != b {
      assert Before(b, a);
      BeforeImpliesEarlier(b, a);
    }
  }

  lemma {:induction false} BeforeImpliesEarlier(a: Date, b: Date)
    requires Valid(a) && Valid(b) && Before(a, b)
    ensures DayNumber(a) < DayNumber(b)
  {
    var na := DayOfYear(a);
    var nb := DayOfYear(b);
    if a.year < b.year {
      DaysBeforeYearMonotone(a.year, b.year);
    } else if a.month < b.month {
      DaysBeforeMonthStep(a.year, a.month);
      MonthsIncrease(a.year, a.month + 1, b.month);
    }
  }

  /** Two valid dates with the same day number are the same date. */
  lemma {:induction false} DayNumberInjective(a: Date, b: Date)
    requires Valid(a) && Valid(b) && DayNumber(a) == DayNumber(b)
    ensures a == b
  {
    BeforeIsEarlierDay(a, b);
    BeforeIsEarlierDay(b, a);
  }

  /** Rebuilding a valid date from its day number gives the date back. */
  lemma {:induction false} FromDayNumberOfDate(d: Date)
    requires Valid(d)
    ensures FromDayNumber(DayNumber(d)) == d
  {
    DayNumberInjective(FromDayNumber(DayNumber(d)), d);
  }

  /** `d` moved by `n` days, across month and year ends. */
  function AddDays(d: Date, n: int): (r: Date)
    requires 1 <= d.month <= 12
    ensures Valid(r) && DayNumber(r) == DayNumber(d) + n
  {
    FromDayNumber(DayNumber(d) + n)
  }

  lemma {:induction false} AddDaysCompose(d: Date, a: int, b: int)
    requires Valid(d)
    ensures AddDays(AddDays(d, a), b) == AddDays(d, a + b)
  {
    DayNumberInjective(AddDays(AddDays(d, a), b), AddDays(d, a + b));
  }

  lemma {:induction false} AddDaysZero(d: Date)
    requires Valid(d)
    ensures AddDays(d, 0) == d
  {
    DayNumberInjective(AddDays(d, 0), d);
  }

  /** The day after a valid date is the next day of its month, else the first of the next
      month, else the first of January of the next year. */
  lemma {:induction false} NextDay(d: Date)
    requires Valid(d)
    ensures AddDays(d, 1) ==
      if d.day < DaysInMonth(d.year, d.month) then Date(d.year, d.month, d.day + 1)
      else if d.month < 12 then Date(d.year, d.month + 1, 1)
      else Date(d.year + 1, 1, 1)
  {
    var e := if d.day < DaysInMonth(d.year, d.month) then Date(d.year, d.month, d.day + 1)
      else if d.month < 12 then Date(d.year, d.month + 1, 1)
      else Date(d.year + 1, 1, 1);
    DaysBeforeMonthStep(d.year, d.month);
    DaysBeforeYearStep(d.year);
    DayNumberInjective(AddDays(d, 1), e);
  }

  /** `String(n).padStart(2, "0")`. */
  function Pad2(n: nat): string {
    PadStart(NatToString(n), 2, '0')
  }

  /** `${getUTCFullYear()}-${pad(month)}-${pad(day)}`: the year is not padded. */
  function FormatIsoDate(d: Date): string
    requires d.month >= 1 && d.day >= 1
  {
    IntToString(d.year) + "-" + Pad2(d.month) + "-" + Pad2(d.day)
  }

  /** `toISOString()`'s year: four digits for years 0 through 9999, otherwise a sign and
      six digits. */
  function IsoYear(y: int): (s: string)
    ensures |s| >= 4
  {
    if 0 <= y <= 9999 then PadStart(NatToString(y), 4, '0')
    else (if y < 0 then "-" else "+") + PadStart(NatToString(if y < 0 then -y else y), 6, '0')
  }

  /** `toISOString().slice(0, 10)` of midnight UTC on `d`. */
  function IsoDate(d: Date): (s: string)
    requires d.month >= 1 && d.day >= 1
    ensures |s| == 10
  {
    var full := IsoYear(d.year) + "-" + Pad2(d.month) + "-" + Pad2(d.day) + "T00:00:00.000Z";
    full[..10]
  }

  lemma {:induction false} Pad2Length(n: nat)
    requires n < 100
    ensures |Pad2(n)| == 2
  {
    NatToStringLength(n, 2);
  }

  lemma {:induction false} YearPadLength(y: nat)
    requires y <= 9999
    ensures |PadStart(NatToString(y), 4, '0')| == 4
    ensures 1000 <= y ==> PadStart(NatToString(y), 4, '0') == IntToString(y)
  {
    NatToStringLength(y, 4);
    if 1000 <= y {
      NatToStringAtLeast(y, 4);
    }
  }

  /** For a four-digit year the ISO date is the padded year, month and day, which for
      years from 1000 on is also what `formatIsoDate` writes. */
  lemma {:induction false} IsoDateOfFourDigitYear(d: Date)
    requires Valid(d) && 0 <= d.year <= 9999
    ensures IsoDate(d) == PadStart(NatToString(d.year), 4, '0') + "-" + Pad2(d.month) + "-" + Pad2(d.day)
    ensures 1000 <= d.year ==> IsoDate(d) == FormatIsoDate(d)
  {
    YearPadLength(d.year);
    Pad2Length(d.month);
    Pad2Length(d.day);
    var y := PadStart(NatToString(d.year), 4, '0');
    var head := y + "-" + Pad2(d.month) + "-" + Pad2(d.day);
    assert |head| == 10;
    assert (head + "T00:00:00.000Z")[..10] == head;
  }

  /** `Date.UTC` reads a year from 0 through 99 as 1900 through 1999 (MakeFullYear). */
  function FullYear(y: int): int {
    if 0 <= y <= 99 then 1900 + y else y
  }

  /** `Date.UTC(y, monthIndex, day)` divided by the milliseconds of a day. */
  function DateUtc(y: int, monthIndex: int, day: int): int {
    UtcDay(FullYear(y), monthIndex, day)
  }
}
