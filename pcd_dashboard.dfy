/** The property-casualty dashboard endpoint: calendar-window returns over a daily price
    series, the deepest fall from a running peak, the aggregates over the companies, and
    the split of the symbols into companies, benchmarks and errors. */
module PcdDashboard {
  import opened Wrappers
  import opened Text
  import opened Seqs
  import opened Calendar

  const MsPerDay := 86400000

  // ---------------------------------------------------------------------------------
  // UTC dates of instants

  /** The UTC calendar date of an instant, in milliseconds since 1970-01-01T00:00Z. */
  function UtcDate(t: int): Date {
    FromDayNumber(t / MsPerDay)
  }

  /** `shiftDateByMonthsUTC`: the first of the month `months` earlier, then its day set to
      the original day, clamped to that month's length; the time of day is dropped. */
  function ShiftMonths(t: int, months: int): int {
    ShiftMonthsDay(UtcDate(t), months) * MsPerDay
  }

  /** The day number `shiftDateByMonthsUTC` lands on from the date `d`. */
  function ShiftMonthsDay(d: Date, months: int): int {
    ClampedDay(TargetMonth(d, months), d.day)
  }

  /** `new Date(Date.UTC(year, month - months, 1))`. */
  function TargetMonth(d: Date, months: int): Date {
    FromDayNumber(DateUtc(d.year, d.month - 1 - months, 1))
  }

  /** `target.setUTCDate(Math.min(day, daysInMonth))`, with the month's length read off
      day 0 of the month after. */
  function ClampedDay(target: Date, day: int): int {
    var daysInMonth := FromDayNumber(DateUtc(target.year, target.month, 0)).day;
    UtcDay(target.year, target.month - 1, Min(day, daysInMonth))
  }

  /** `shiftDateByDaysUTC`. */
  function ShiftDays(t: int, days: int): int {
    t - days * MsPerDay
  }

  /** `startOfUTCYear`. */
  function StartOfYear(t: int): int {
    DateUtc(UtcDate(t).year, 0, 1) * MsPerDay
  }

  function Min(a: int, b: int): int {
    if a <= b then a else b
  }

  /** The month `months` before the month of `d`, as (year, month 1..12). */
  function MonthsBack(d: Date, months: int): (int, int) {
    var k := d.year * 12 + (d.month - 1) - months;
    (k / 12, k % 12 + 1)
  }

  /** The same day `months` months before `d`, clamped to the length of that month. */
  function ShiftedDate(d: Date, months: int): Date {
    var (y, m) := MonthsBack(d, months);
    Date(y, m, Min(d.day, DaysInMonth(y, m)))
  }

  lemma {:induction false} MidnightOf(n: int)
    ensures (n * MsPerDay) / MsPerDay == n && (n * MsPerDay) % MsPerDay == 0
  {
    DivUnique(n * MsPerDay, MsPerDay, n, 0);
  }

  /** Day `0` of the month after `m` is the last day of `m`. */
  lemma {:induction false} LastDayOfMonth(y: int, m: int)
    requires 1 <= m <= 12 && y >= 100
    ensures FromDayNumber(DateUtc(y, m, 0)).day == DaysInMonth(y, m)
  {
    DaysBeforeMonthStep(y, m);
    if m == 12 {
      DivUnique(12, 12, 1, 0);
      DaysBeforeYearStep(y);
    } else {
      DivUnique(m, 12, 0, m);
    }
    assert UtcDay(y, m, 0) == DayNumber(Date(y, m, DaysInMonth(y, m)));
    FromDayNumberOfDate(Date(y, m, DaysInMonth(y, m)));
  }

  /** `Date.UTC(year, monthIndex - months, 1)` is the first of the month `months` back. */
  lemma {:induction false} FirstOfMonthBack(d: Date, months: int)
    requires Valid(d) && d.year >= 100
    ensures TargetMonth(d, months) == Date(MonthsBack(d, months).0, MonthsBack(d, months).1, 1)
  {
    var first := Date(MonthsBack(d, months).0, MonthsBack(d, months).1, 1);
    var n := DateUtc(d.year, d.month - 1 - months, 1);
    FirstOfMonthDay(d, months);
    FromDayNumberOfDate(first);
    assert TargetMonth(d, months) == FromDayNumber(n);
  }

  /** The day number `Date.UTC(year, monthIndex - months, 1)` gives is that of the first
      of the month `months` back. */
  lemma {:induction false} FirstOfMonthDay(d: Date, months: int)
    requires Valid(d) && d.year >= 100
    ensures 1 <= MonthsBack(d, months).1 <= 12
    ensures DateUtc(d.year, d.month - 1 - months, 1) == DayNumber(Date(MonthsBack(d, months).0, MonthsBack(d, months).1, 1))
  {
    var mi := d.month - 1 - months;
    var k := d.year * 12 + mi;
    var y := MonthsBack(d, months).0;
    var m := MonthsBack(d, months).1;
    assert y == k / 12 && m - 1 == k % 12;
    assert DateUtc(d.year, mi, 1) == UtcDay(d.year, mi, 1);
    SameMonthIndex(d.year, mi);
    assert UtcDay(d.year, mi, 1) == UtcDay(y, m - 1, 1);
    UtcDayOfValid(Date(y, m, 1));
  }

  /** `Date.UTC` reads a month index outside 0..11 as the month that many months from
      January of the year: the first of that month is the first of `MonthsBack`'s. */
  lemma {:induction false} SameMonthIndex(year: int, mi: int)
    ensures var k := year * 12 + mi;
      UtcDay(year, mi, 1) == UtcDay(k / 12, k % 12, 1)
  {
    var k := year * 12 + mi;
    MonthIndexParts(year, mi);
    assert k / 12 + (k % 12) / 12 == year + mi / 12 && (k % 12) % 12 == mi % 12;
  }

  /** The year and month `Date.UTC` reads off a month index, written two ways. */
  lemma {:induction false} MonthIndexParts(year: int, mi: int)
    ensures var k := year * 12 + mi;
      k / 12 + (k % 12) / 12 == year + mi / 12 && (k % 12) % 12 == mi % 12
  {
    var k := year * 12 + mi;
    DivUnique(k, 12, year + mi / 12, mi % 12);
    DivUnique(k % 12, 12, 0, k % 12);
  }


  /** An in-range day of a month survives `Date.UTC` and the way back. */
  lemma {:induction false} DayOfMonth(y: int, m: int, c: int)
    requires 1 <= m <= 12 && 1 <= c <= DaysInMonth(y, m)
    ensures FromDayNumber(UtcDay(y, m - 1, c)) == Date(y, m, c)
  {
    UtcDayOfValid(Date(y, m, c));
    FromDayNumberOfDate(Date(y, m, c));
  }

  /** From the first of a month, the original day clamped to that month's length. */
  lemma {:induction false} ClampedDayFrom(first: Date, day: int)
    requires 1 <= first.month <= 12 && first.day == 1 && first.year >= 100 && day >= 1
    ensures ClampedDay(first, day) == DayNumber(Date(first.year, first.month, Min(day, DaysInMonth(first.year, first.month))))
  {
    LastDayOfMonth(first.year, first.month);
    UtcDayOfValid(Date(first.year, first.month, Min(day, DaysInMonth(first.year, first.month))));
  }

  lemma {:induction false} ShiftMonthsDayMeaning(d: Date, months: int)
    requires Valid(d) && d.year >= 100 && MonthsBack(d, months).0 >= 100
    ensures ShiftMonthsDay(d, months) == DayNumber(ShiftedDate(d, months))
  {
    var first := Date(MonthsBack(d, months).0, MonthsBack(d, months).1, 1);
    FirstOfMonthBack(d, months);
    ClampedDayFrom(first, d.day);
  }

  lemma {:induction false} ShiftedDateValid(d: Date, months: int)
    requires Valid(d)
    ensures Valid(ShiftedDate(d, months))
  {
  }

  /** Shifting by months lands at midnight on the clamped day of the month `months`
      earlier, borrowing from the year as needed (for years from 100 on, where
      `Date.UTC` reads the year as given). */
  lemma {:induction false} ShiftMonthsMeaning(t: int, months: int)
    requires UtcDate(t).year >= 100 && MonthsBack(UtcDate(t), months).0 >= 100
    ensures ShiftMonths(t, months) % MsPerDay == 0
    ensures UtcDate(ShiftMonths(t, months)) == ShiftedDate(UtcDate(t), months)
  {
    ShiftMonthsDayMeaning(UtcDate(t), months);
    ShiftedDateValid(UtcDate(t), months);
    FromDayNumberOfDate(ShiftedDate(UtcDate(t), months));
    MidnightOf(ShiftMonthsDay(UtcDate(t), months));
  }

  /** Shifting by days moves the date by that many days and keeps the time of day. */
  lemma {:induction false} ShiftDaysMeaning(t: int, days: int)
    ensures ShiftDays(t, days) % MsPerDay == t % MsPerDay
    ensures UtcDate(ShiftDays(t, days)) == AddDays(UtcDate(t), -days)
  {
    var q := t / MsPerDay;
    var r := t % MsPerDay;
    DivUnique(t - days * MsPerDay, MsPerDay, q - days, r);
  }

  /** The start of the year is midnight on the first of January of the instant's year,
      no later than the instant. */
  lemma {:induction false} StartOfYearMeaning(t: int)
    requires UtcDate(t).year >= 100
    ensures StartOfYear(t) % MsPerDay == 0 && StartOfYear(t) <= t
    ensures UtcDate(StartOfYear(t)) == Date(UtcDate(t).year, 1, 1)
  {
    var d := UtcDate(t);
    var jan := Date(d.year, 1, 1);
    var n := DayNumber(jan);
    StartOfYearDay(t);
    FromDayNumberOfDate(jan);
    MidnightOf(n);
    JanuaryFirstNoLater(d);
    MidnightNoLater(n, t);
  }

  /** `Date.UTC(year, 0, 1)` is the day number of the first of January. */
  lemma {:induction false} StartOfYearDay(t: int)
    requires UtcDate(t).year >= 100
    ensures StartOfYear(t) == DayNumber(Date(UtcDate(t).year, 1, 1)) * MsPerDay
  {
    var jan := Date(UtcDate(t).year, 1, 1);
    UtcDayOfValid(jan);
    assert DateUtc(jan.year, 0, 1) == DayNumber(jan);
  }

  /** The first of January is no later than any day of its year. */
  lemma {:induction false} JanuaryFirstNoLater(d: Date)
    requires Valid(d)
    ensures DayNumber(Date(d.year, 1, 1)) <= DayNumber(d)
  {
    assert DaysBeforeMonth(d.year, d.month) >= 0;
  }

  /** Midnight of a day no later than the day of `t` is no later than `t`. */
  lemma {:induction false} MidnightNoLater(n: int, t: int)
    requires n <= t / MsPerDay
    ensures n * MsPerDay <= t
  {
    var q := t / MsPerDay;
    assert t == q * MsPerDay + t % MsPerDay;
    assert n * MsPerDay <= q * MsPerDay;
  }

  /** Thirty-one March less one month is the last day of February, and January less one
      month is December of the year before. */
  lemma {:induction false} ShiftedDateExamples()
    ensures ShiftedDate(Date(2024, 3, 31), 1) == Date(2024, 2, 29)
    ensures ShiftedDate(Date(2023, 3, 31), 1) == Date(2023, 2, 28)
    ensures ShiftedDate(Date(2024, 1, 15), 1) == Date(2023, 12, 15)
    ensures ShiftedDate(Date(2025, 6, 10), 24) == Date(2023, 6, 10)
  {
    DivUnique(2024 * 12 + 1, 12, 2024, 1);
    DivUnique(2023 * 12 + 1, 12, 2023, 1);
    DivUnique(2024 * 12 - 1, 12, 2023, 11);
    DivUnique(2023 * 12 + 5, 12, 2023, 5);
  }

  // ---------------------------------------------------------------------------------
  // Price to book

  /** `normalizePriceToBook`: a missing or non-finite value is null; a value strictly
      between 40 and 1000 is read as a percentage and divided by 100. */
  function NormalizePriceToBook(value: Option<real>): (r: Option<real>)
    ensures r.None? <==> value.None?
    ensures r.Some? && 40.0 < value.value < 1000.0 ==> r.value * 100.0 == value.value && 0.4 < r.value < 10.0
    ensures r.Some? && !(40.0 < value.value < 1000.0) ==> r.value == value.value
  {
    match value
    case None => None
    case Some(v) => if 40.0 < v < 1000.0 then Some(v / 100.0) else Some(v)
  }

  /** Normalising twice changes nothing more unless the first pass left a value
      between 40 and 1000, which needs an input between 4000 and 100000. */
  lemma {:induction false} NormalizePriceToBookTwice(value: Option<real>)
    requires value.None? || !(4000.0 < value.value < 100000.0)
    ensures NormalizePriceToBook(NormalizePriceToBook(value)) == NormalizePriceToBook(value)
  {
  }

  // ---------------------------------------------------------------------------------
  // Return windows

  /** A `RETURN_DEFINITIONS` entry; 0 and false stand for an absent field. */
  datatype Definition = Definition(days: int, months: int, yearStart: bool)

  const ReturnDefinitions: seq<(string, Definition)> := [
    ("1d", Definition(1, 0, false)),
    ("1w", Definition(7, 0, false)),
    ("1m", Definition(0, 1, false)),
    ("3m", Definition(0, 3, false)),
    ("6m", Definition(0, 6, false)),
    ("ytd", Definition(0, 0, true)),
    ("12m", Definition(0, 12, false)),
    ("24m", Definition(0, 24, false))
  ]

  /** `getTargetDate`: the start of the year first, then months, then days. */
  function TargetDate(latest: int, definition: Option<Definition>): (r: Option<int>)
    ensures r.None? <==> definition.None? || (!definition.value.yearStart && definition.value.months == 0 && definition.value.days == 0)
    ensures definition.Some? && definition.value.yearStart ==> r == Some(StartOfYear(latest))
    ensures definition.Some? && !definition.value.yearStart && definition.value.months != 0 ==>
      r == Some(ShiftMonths(latest, definition.value.months))
    ensures definition.Some? && !definition.value.yearStart && definition.value.months == 0 && definition.value.days != 0 ==>
      r == Some(ShiftDays(latest, definition.value.days))
  {
    match definition
    case None => None
    case Some(def) =>
      if def.yearStart then Some(StartOfYear(latest))
      else if def.months != 0 then Some(ShiftMonths(latest, def.months))
      else if def.days != 0 then Some(ShiftDays(latest, def.days))
      else None
  }

  /** A point of a price series: its instant and its (adjusted) close, if any. */
  datatype Point = Point(dateObj: int, adjClose: Option<real>)

  /** The highest index whose point is on or before `target`. */
  function LastOnOrBefore(series: seq<Point>, target: int): (k: Option<nat>)
    ensures k.Some? ==> k.value < |series| && series[k.value].dateObj <= target
    ensures k.Some? ==> forall j :: k.value < j < |series| ==> series[j].dateObj > target
    ensures k.None? ==> forall j :: 0 <= j < |series| ==> series[j].dateObj > target
  {
    if series == [] then None
    else if series[|series| - 1].dateObj <= target then Some(|series| - 1)
    else LastOnOrBefore(series[..|series| - 1], target)
  }

  /** `findPointOnOrBefore`, scanning from the end; the index of the point found. */
  method FindPointOnOrBefore(series: seq<Point>, target: int) returns (k: Option<nat>)
    ensures k == LastOnOrBefore(series, target)
  {
    var i := |series| - 1;
    while i >= 0
      invariant -1 <= i < |series|
      invariant LastOnOrBefore(series, target) == LastOnOrBefore(series[..i + 1], target)
    {
      if series[i].dateObj <= target {
        return Some(i);
      }
      assert series[..i + 1][..i] == series[..i];
      i := i - 1;
    }
    return None;
  }

  /** `computeCalendarReturn`: the return over the window `definition` describes, which
      starts at `getTargetDate` of the latest point's instant. */
  function CalendarReturn(series: seq<Point>, definition: Option<Definition>): Option<real> {
    if series == [] then None
    else ReturnSince(series, TargetDate(series[|series| - 1].dateObj, definition))
  }

  /** The return from the last point on or before `target` to the latest point: the
      latest close over the start close, less one. The start point must be an earlier
      point than the latest one, and both closes must be present, the start's non-zero. */
  function ReturnSince(series: seq<Point>, target: Option<int>): Option<real> {
    if |series| < 2 || series[|series| - 1].adjClose.None? || target.None? then None
    else
      match LastOnOrBefore(series, target.value)
      case None => None
      case Some(k) =>
        if k == |series| - 1 || series[k].adjClose.None? || series[k].adjClose.value == 0.0 then None
        else Some(series[|series| - 1].adjClose.value / series[k].adjClose.value - 1.0)
  }

  /** The conditions under which there is a return since `target`. */
  predicate HasReturn(series: seq<Point>, target: Option<int>) {
    && |series| >= 2
    && series[|series| - 1].adjClose.Some?
    && target.Some?
    && LastOnOrBefore(series, target.value).Some?
    && LastOnOrBefore(series, target.value).value < |series| - 1
    && series[LastOnOrBefore(series, target.value).value].adjClose.Some?
    && series[LastOnOrBefore(series, target.value).value].adjClose.value != 0.0
  }

  /** There is a return exactly when the series has two points, the latest has a close,
      the window has a start, some earlier point is on or before it, and that point's
      close is non-zero; the return then grows the start close into the latest one. */
  lemma {:induction false} ReturnSinceMeaning(series: seq<Point>, target: Option<int>)
    ensures ReturnSince(series, target).Some? <==> HasReturn(series, target)
    ensures HasReturn(series, target) ==>
      (1.0 + ReturnSince(series, target).value) * series[LastOnOrBefore(series, target.value).value].adjClose.value
      == series[|series| - 1].adjClose.value
  {
    if HasReturn(series, target) {
      var a := series[|series| - 1].adjClose.value;
      var b := series[LastOnOrBefore(series, target.value).value].adjClose.value;
      assert (1.0 + (a / b - 1.0)) * b == a;
    }
  }

  /** A flat series has a zero return over every window it covers. */
  lemma {:induction false} FlatSeriesReturnsZero(series: seq<Point>, target: Option<int>, v: real)
    requires forall i :: 0 <= i < |series| ==> series[i].adjClose == Some(v)
    ensures ReturnSince(series, target).Some? ==> ReturnSince(series, target).value == 0.0
  {
    if ReturnSince(series, target).Some? {
      assert v != 0.0;
      assert v / v == 1.0;
    }
  }

  // ---------------------------------------------------------------------------------
  // Maximum drawdown

  function MaxReal(a: real, b: real): real {
    if a >= b then a else b
  }

  /** The loop's state: the running peak and the deepest fall seen. */
  datatype Drawdown = Drawdown(peak: real, deepest: real)

  /** One value seen by `computeMaxDrawdown`'s loop: a null is skipped; otherwise the
      peak rises to it, and its fall from the peak replaces the deepest if deeper. */
  function DrawdownStep(s: Drawdown, value: Option<real>): Drawdown {
    match value
    case None => s
    case Some(v) =>
      var peak := MaxReal(s.peak, v);
      if peak > 0.0 && v / peak - 1.0 < s.deepest then Drawdown(peak, v / peak - 1.0)
      else Drawdown(peak, s.deepest)
  }

  function DrawdownRun(values: seq<Option<real>>, init: Drawdown): Drawdown {
    if values == [] then init
    else DrawdownStep(DrawdownRun(values[..|values| - 1], init), values[|values| - 1])
  }

  /** `let peak = values[0]`: a null first value reads as 0 in `Math.max`. */
  function InitialDrawdown(values: seq<Option<real>>): Drawdown
    requires values != []
  {
    Drawdown(if values[0].Some? then values[0].value else 0.0, 0.0)
  }

  function MaxDrawdown(values: seq<Option<real>>): Option<real> {
    if values == [] then None
    else Some(DrawdownRun(values, InitialDrawdown(values)).deepest)
  }

  /** `computeMaxDrawdown`. */
  method ComputeMaxDrawdown(values: seq<Option<real>>) returns (r: Option<real>)
    ensures r == MaxDrawdown(values)
  {
    if |values| == 0 {
      return None;
    }
    var init := InitialDrawdown(values);
    var peak := init.peak;
    var maxDD := 0.0;
    for i := 0 to |values|
      invariant Drawdown(peak, maxDD) == DrawdownRun(values[..i], init)
    {
      assert values[..i + 1][..i] == values[..i];
      if values[i].None? {
        continue;
      }
      var value := values[i].value;
      peak := MaxReal(peak, value);
      if peak > 0.0 {
        var drawdown := value / peak - 1.0;
        if drawdown < maxDD {
          maxDD := drawdown;
        }
      }
    }
    assert values[..|values|] == values;
    return Some(maxDD);
  }

  /** The deepest fall only deepens along the series. */
  lemma {:induction false} DeepestMonotone(values: seq<Option<real>>, init: Drawdown, j: nat)
    requires j <= |values|
    ensures DrawdownRun(values, init).deepest <= DrawdownRun(values[..j], init).deepest
    decreases |values|
  {
    if j < |values| {
      var front := values[..|values| - 1];
      assert front[..j] == values[..j];
      DeepestMonotone(front, init, j);
    } else {
      assert values[..j] == values;
    }
  }

  /** The drawdown is never positive. */
  lemma {:induction false} MaxDrawdownNonPositive(values: seq<Option<real>>)
    requires values != []
    ensures MaxDrawdown(values).Some? && MaxDrawdown(values).value <= 0.0
  {
    DeepestMonotone(values, InitialDrawdown(values), 0);
  }

  /** The peak after the value at `j`. */
  function PeakAt(values: seq<Option<real>>, j: nat): real
    requires j < |values|
  {
    DrawdownRun(values[..j + 1], InitialDrawdown(values)).peak
  }

  /** The drawdown is at least as deep as the fall of every value from its running peak. */
  lemma {:induction false} MaxDrawdownIsDeepest(values: seq<Option<real>>, j: nat)
    requires j < |values| && values[j].Some? && PeakAt(values, j) > 0.0
    ensures MaxDrawdown(values).value <= values[j].value / PeakAt(values, j) - 1.0
  {
    var init := InitialDrawdown(values);
    DeepestMonotone(values, init, j + 1);
    assert values[..j + 1][..j] == values[..j];
  }

  /** A fall from the running peak that some value reaches. */
  predicate FallAt(values: seq<Option<real>>, j: nat, fall: real) {
    j < |values| && values[j].Some? && PeakAt(values, j) > 0.0 && fall == values[j].value / PeakAt(values, j) - 1.0
  }

  /** The drawdown is attained: it is 0 or the fall of some value from its running peak.
      With `MaxDrawdownIsDeepest`, it is the deepest such fall. */
  lemma MaxDrawdownAttained(values: seq<Option<real>>)
    requires values != []
    ensures MaxDrawdown(values).value == 0.0 || exists j :: FallAt(values, j, MaxDrawdown(values).value)
  {
    DeepestAttained(values, |values|);
    assert values[..|values|] == values;
  }

  /** The same for the loop's state after the first `n` values. */
  lemma {:induction false} DeepestAttained(values: seq<Option<real>>, n: nat)
    requires values != [] && n <= |values|
    ensures var deepest := DrawdownRun(values[..n], InitialDrawdown(values)).deepest;
      deepest == 0.0 || exists j :: FallAt(values, j, deepest)
  {
    var init := InitialDrawdown(values);
    if n > 0 {
      DeepestAttained(values, n - 1);
      assert values[..n][..n - 1] == values[..n - 1];
      var before := DrawdownRun(values[..n - 1], init);
      var after := DrawdownRun(values[..n], init);
      assert after == DrawdownStep(before, values[n - 1]);
      if after.deepest != before.deepest {
        assert PeakAt(values, n - 1) == after.peak;
        assert FallAt(values, n - 1, after.deepest);
      }
    }
  }

  /** The running peak is at least every value seen so far. */
  lemma {:induction false} PeakIsRunningMax(values: seq<Option<real>>, init: Drawdown)
    ensures DrawdownRun(values, init).peak >= init.peak
    ensures forall i :: 0 <= i < |values| && values[i].Some? ==> DrawdownRun(values, init).peak >= values[i].value
  {
    if values != [] {
      var front := values[..|values| - 1];
      PeakIsRunningMax(front, init);
      assert forall i :: 0 <= i < |front| ==> front[i] == values[i];
    }
  }

  /** Present values that never fall. */
  predicate NonDecreasing(values: seq<Option<real>>) {
    forall i, j :: 0 <= i < j < |values| && values[i].Some? && values[j].Some? ==> values[i].value <= values[j].value
  }

  predicate AllPositive(values: seq<Option<real>>) {
    forall i :: 0 <= i < |values| && values[i].Some? ==> values[i].value > 0.0
  }

  /** The running peak is the starting peak or one of the values seen. */
  lemma {:induction false} PeakIsSeen(values: seq<Option<real>>, init: Drawdown)
    ensures DrawdownRun(values, init).peak == init.peak
         || exists i :: 0 <= i < |values| && values[i] == Some(DrawdownRun(values, init).peak)
  {
    if values != [] {
      var front := values[..|values| - 1];
      PeakIsSeen(front, init);
      var p := DrawdownRun(front, init).peak;
      if p != init.peak && DrawdownRun(values, init).peak == p {
        var i :| 0 <= i < |front| && front[i] == Some(p);
        assert values[i] == front[i];
      }
    }
  }

  /** Without a fall the deepest fall stays zero. */
  lemma {:induction false} RisingRun(values: seq<Option<real>>, init: Drawdown)
    requires NonDecreasing(values) && AllPositive(values)
    requires init.deepest == 0.0
    requires forall i :: 0 <= i < |values| && values[i].Some? ==> init.peak <= values[i].value
    ensures DrawdownRun(values, init).deepest == 0.0
  {
    if values != [] {
      var front := values[..|values| - 1];
      RisingFront(values, init);
      RisingRun(front, init);
      var s := DrawdownRun(front, init);
      var last := values[|values| - 1];
      if last.Some? {
        var v := last.value;
        PeakIsSeen(front, init);
        if s.peak != init.peak {
          var i :| 0 <= i < |front| && front[i] == Some(s.peak);
          assert values[i].value <= v;
        }
        RisingStep(s, v);
      }
    }
  }

  /** What `RisingRun` asks of a series holds of the series without its last value. */
  lemma {:induction false} RisingFront(values: seq<Option<real>>, init: Drawdown)
    requires values != [] && NonDecreasing(values) && AllPositive(values)
    requires forall i :: 0 <= i < |values| && values[i].Some? ==> init.peak <= values[i].value
    ensures var front := values[..|values| - 1];
      && NonDecreasing(front) && AllPositive(front)
      && forall i :: 0 <= i < |front| && front[i].Some? ==> init.peak <= front[i].value
  {
    var front := values[..|values| - 1];
    assert forall i :: 0 <= i < |front| ==> front[i] == values[i];
  }

  /** A value at or above the peak, with no fall so far, leaves no fall. */
  lemma {:induction false} RisingStep(s: Drawdown, v: real)
    requires s.deepest == 0.0 && s.peak <= v && v > 0.0
    ensures DrawdownStep(s, Some(v)).deepest == 0.0
  {
    assert MaxReal(s.peak, v) == v;
    assert v / v == 1.0;
  }

  /** A series of positive prices that never falls has no drawdown. */
  lemma {:induction false} NonDecreasingNoDrawdown(values: seq<Option<real>>)
    requires values != [] && NonDecreasing(values) && AllPositive(values)
    ensures MaxDrawdown(values) == Some(0.0)
  {
    RisingRun(values, InitialDrawdown(values));
  }

  // ---------------------------------------------------------------------------------
  // Aggregates

  datatype Company = Company(
    ticker: string,
    name: string,
    marketCap: Option<real>,
    beta: Option<real>,
    return1d: Option<real>,
    aboveMa200: Option<bool>)

  datatype Aggregates = Aggregates(
    coverage: nat,
    totalMarketCap: real,
    avgBeta: Option<real>,
    advancers: nat,
    decliners: nat,
    breadth1d: Option<real>,
    above200Count: nat,
    above200Ratio: Option<real>)

  /** `company.returns?.["1d"] || 0`. */
  function OneDay(c: Company): real {
    if c.return1d.Some? then c.return1d.value else 0.0
  }

  predicate Advancing(c: Company) {
    OneDay(c) > 0.0
  }

  predicate Declining(c: Company) {
    OneDay(c) < 0.0
  }

  /** `above_ma200 === true`. */
  predicate IsAboveMa200(c: Company) {
    c.aboveMa200 == Some(true)
  }

  /** The finite values among `xs` (`filter(Number.isFinite)`), in order. */
  function Finite(xs: seq<Option<real>>): seq<real> {
    if xs == [] then []
    else Finite(xs[..|xs| - 1]) + (if xs[|xs| - 1].Some? then [xs[|xs| - 1].value] else [])
  }

  function MarketCaps(cs: seq<Company>): seq<Option<real>> {
    seq(|cs|, i requires 0 <= i < |cs| => cs[i].marketCap)
  }

  function Betas(cs: seq<Company>): seq<Option<real>> {
    seq(|cs|, i requires 0 <= i < |cs| => cs[i].beta)
  }

  /** `count / coverage`, or null when there is no company. */
  function Ratio(count: nat, coverage: nat): Option<real> {
    if coverage == 0 then None else Some(count as real / coverage as real)
  }

  /** `computeAggregates`. */
  function ComputeAggregates(cs: seq<Company>): Aggregates {
    var betas := Finite(Betas(cs));
    var advancers := Count(cs, Advancing);
    var above := Count(cs, IsAboveMa200);
    Aggregates(
      |cs|,
      SumReal(Finite(MarketCaps(cs))),
      if |betas| == 0 then None else Some(SumReal(betas) / |betas| as real),
      advancers,
      Count(cs, Declining),
      Ratio(advancers, |cs|),
      above,
      Ratio(above, |cs|))
  }

  /** No company both advances and declines, so together they are at most the coverage;
      both ratios are absent exactly when there is no company and lie in [0, 1]
      otherwise; the average beta is absent exactly when no beta is finite. */
  lemma {:induction false} AggregatesMeaning(cs: seq<Company>)
    ensures ComputeAggregates(cs).coverage == |cs|
    ensures ComputeAggregates(cs).advancers + ComputeAggregates(cs).decliners <= |cs|
    ensures ComputeAggregates(cs).above200Count <= |cs|
    ensures ComputeAggregates(cs).breadth1d.None? <==> |cs| == 0
    ensures ComputeAggregates(cs).above200Ratio.None? <==> |cs| == 0
    ensures ComputeAggregates(cs).breadth1d.Some? ==> 0.0 <= ComputeAggregates(cs).breadth1d.value <= 1.0
    ensures ComputeAggregates(cs).above200Ratio.Some? ==> 0.0 <= ComputeAggregates(cs).above200Ratio.value <= 1.0
    ensures ComputeAggregates(cs).avgBeta.None? <==> forall i :: 0 <= i < |cs| ==> cs[i].beta.None?
  {
    CountDisjoint(cs, Advancing, Declining);
    RatioAtMostOne(Count(cs, Advancing), |cs|);
    RatioAtMostOne(Count(cs, IsAboveMa200), |cs|);
    FiniteEmpty(Betas(cs));
    assert forall i :: 0 <= i < |cs| ==> Betas(cs)[i] == cs[i].beta;
  }

  lemma {:induction false} RatioAtMostOne(count: nat, coverage: nat)
    requires count <= coverage
    ensures Ratio(count, coverage).Some? ==> 0.0 <= Ratio(count, coverage).value <= 1.0
  {
    if coverage > 0 {
      var c := coverage as real;
      assert count as real <= c;
      assert (count as real / c) * c == count as real;
    }
  }

  lemma {:induction false} FiniteEmpty(xs: seq<Option<real>>)
    ensures Finite(xs) == [] <==> forall i :: 0 <= i < |xs| ==> xs[i].None?
  {
    if xs != [] {
      var front := xs[..|xs| - 1];
      FiniteEmpty(front);
      assert forall i :: 0 <= i < |front| ==> front[i] == xs[i];
    }
  }

  /** A company counts towards `above200Count` only when its flag is exactly `true`. */
  lemma {:induction false} AboveMa200CountsTrueOnly(cs: seq<Company>, c: Company)
    requires c.aboveMa200 != Some(true)
    ensures ComputeAggregates(cs + [c]).above200Count == ComputeAggregates(cs).above200Count
  {
    CountConcat(cs, [c], IsAboveMa200);
    assert Count([c], IsAboveMa200) == 0;
  }

  // ---------------------------------------------------------------------------------
  // The handler

  datatype PricePoint = PricePoint(date: string, adjClose: real, close: real)

  /** What `fetchTickerData` gives for a symbol. */
  datatype TickerData = TickerData(metadata: Company, priceSeries: seq<PricePoint>, lastDate: string)

  datatype Benchmark = Benchmark(ticker: string, name: string)

  datatype ErrorEntry = ErrorEntry(ticker: string, message: string)

  /** What the batch loop has gathered: `results`, `benchmarks`, `errors`, `prices` and
      `prices._lastDate` ("" while unset). */
  datatype Gathered = Gathered(
    results: seq<Company>,
    benchmarks: seq<Benchmark>,
    errors: seq<ErrorEntry>,
    prices: map<string, seq<PricePoint>>,
    lastDate: string)

  /** One settled fetch added to what is gathered. */
  function Gather(g: Gathered, ticker: string, outcome: Result<TickerData, string>,
                  benchmarkSymbols: seq<string>): Gathered {
    match outcome
    case Ok(data) =>
      var g' := if ticker in benchmarkSymbols
        then g.(benchmarks := g.benchmarks + [Benchmark(data.metadata.ticker, data.metadata.name)])
        else g.(results := g.results + [data.metadata]);
      g'.(prices := g'.prices[ticker := data.priceSeries],
          lastDate := if g'.lastDate == "" || !LexLe(data.lastDate, g'.lastDate) then data.lastDate else g'.lastDate)
    case Err(message) =>
      g.(errors := g.errors + [ErrorEntry(ticker, if message == "" then "Unknown error" else message)])
  }

  const Empty := Gathered([], [], [], map[], "")

  function GatherAll(symbols: seq<string>, fetch: string -> Result<TickerData, string>,
                     benchmarkSymbols: seq<string>): Gathered {
    if symbols == [] then Empty
    else Gather(GatherAll(symbols[..|symbols| - 1], fetch, benchmarkSymbols), symbols[|symbols| - 1],
                fetch(symbols[|symbols| - 1]), benchmarkSymbols)
  }

  /** The batch loop: symbols four at a time, each batch's outcomes in symbol order. */
  method GatherInBatches(symbols: seq<string>, fetch: string -> Result<TickerData, string>,
                         benchmarkSymbols: seq<string>) returns (g: Gathered)
    ensures g == GatherAll(symbols, fetch, benchmarkSymbols)
  {
    g := Empty;
    var i := 0;
    while i < |symbols|
      invariant 0 <= i <= |symbols|
      invariant g == GatherAll(symbols[..i], fetch, benchmarkSymbols)
      decreases |symbols| - i
    {
      var chunk := symbols[i..Min(i + 4, |symbols|)];
      for j := 0 to |chunk|
        invariant g == GatherAll(symbols[..i + j], fetch, benchmarkSymbols)
      {
        assert symbols[..i + j + 1][..i + j] == symbols[..i + j];
        g := Gather(g, chunk[j], fetch(chunk[j]), benchmarkSymbols);
      }
      i := i + |chunk|;
    }
    assert symbols[..|symbols|] == symbols;
  }

  predicate Failed(fetch: string -> Result<TickerData, string>, s: string) {
    fetch(s).Err?
  }

  /** Every symbol lands in exactly one of the three lists: the errors are the failed
      symbols, the benchmarks the fetched benchmark symbols, the results the others. */
  lemma {:induction false} GatherPartition(symbols: seq<string>, fetch: string -> Result<TickerData, string>,
                                           benchmarkSymbols: seq<string>)
    ensures |GatherAll(symbols, fetch, benchmarkSymbols).errors| == Count(symbols, s => fetch(s).Err?)
    ensures |GatherAll(symbols, fetch, benchmarkSymbols).benchmarks| == Count(symbols, s => fetch(s).Ok? && s in benchmarkSymbols)
    ensures |GatherAll(symbols, fetch, benchmarkSymbols).results| == Count(symbols, s => fetch(s).Ok? && s !in benchmarkSymbols)
    ensures |GatherAll(symbols, fetch, benchmarkSymbols).results| + |GatherAll(symbols, fetch, benchmarkSymbols).benchmarks|
          + |GatherAll(symbols, fetch, benchmarkSymbols).errors| == |symbols|
  {
    if symbols != [] {
      var front := symbols[..|symbols| - 1];
      var s := symbols[|symbols| - 1];
      GatherPartition(front, fetch, benchmarkSymbols);
      assert symbols == front + [s];
      CountConcat(front, [s], s => fetch(s).Err?);
      CountConcat(front, [s], s => fetch(s).Ok? && s in benchmarkSymbols);
      CountConcat(front, [s], s => fetch(s).Ok? && s !in benchmarkSymbols);
    }
  }

  /** The last trade date is the greatest last date of the fetched symbols (ISO dates
      compare as text), or unset when none was fetched with a date. */
  lemma {:induction false} LastDateIsGreatest(symbols: seq<string>, fetch: string -> Result<TickerData, string>,
                                              benchmarkSymbols: seq<string>)
    ensures forall i :: 0 <= i < |symbols| && fetch(symbols[i]).Ok? && fetch(symbols[i]).value.lastDate != "" ==>
      GatherAll(symbols, fetch, benchmarkSymbols).lastDate != ""
      && LexLe(fetch(symbols[i]).value.lastDate, GatherAll(symbols, fetch, benchmarkSymbols).lastDate)
    ensures GatherAll(symbols, fetch, benchmarkSymbols).lastDate == ""
      || exists i :: 0 <= i < |symbols| && fetch(symbols[i]).Ok?
           && fetch(symbols[i]).value.lastDate == GatherAll(symbols, fetch, benchmarkSymbols).lastDate
  {
    if symbols != [] {
      var front := symbols[..|symbols| - 1];
      var s := symbols[|symbols| - 1];
      LastDateIsGreatest(front, fetch, benchmarkSymbols);
      assert forall i :: 0 <= i < |front| ==> front[i] == symbols[i];
      var before := GatherAll(front, fetch, benchmarkSymbols).lastDate;
      var after := GatherAll(symbols, fetch, benchmarkSymbols).lastDate;
      if fetch(s).Ok? {
        var d := fetch(s).value.lastDate;
        LexLeTotal(d, before);
        forall i | 0 <= i < |front| && fetch(front[i]).Ok? && fetch(front[i]).value.lastDate != ""
          ensures LexLe(fetch(front[i]).value.lastDate, after)
        {
          if after != before {
            LexLeTransitive(fetch(front[i]).value.lastDate, before, d);
          }
        }
        LexLeReflexive(d);
        if after != before {
          assert fetch(symbols[|symbols| - 1]).value.lastDate == after;
        }
      }
    }
  }

  datatype Response = Response(
    status: int,
    lastTradeDate: Option<string>,
    companies: seq<Company>,
    prices: map<string, seq<PricePoint>>,
    benchmarks: seq<Benchmark>,
    aggregates: Aggregates,
    errors: seq<ErrorEntry>)

  /** `a.ticker.localeCompare(b.ticker) <= 0`. */
  predicate TickerLe(a: Company, b: Company) {
    LexLe(a.ticker, b.ticker)
  }

  lemma {:induction false} TickerLeIsPreorder()
    ensures TotalPreorder(TickerLe)
  {
    forall a: Company, b: Company
      ensures TickerLe(a, b) || TickerLe(b, a)
    {
      LexLeTotal(a.ticker, b.ticker);
    }
    forall a: Company, b: Company, c: Company | TickerLe(a, b) && TickerLe(b, c)
      ensures TickerLe(a, c)
    {
      LexLeTransitive(a.ticker, b.ticker, c.ticker);
    }
  }

  /** The handler after the fetches: companies sorted by ticker, the aggregates over them,
      and 502 only when something failed and no company was fetched. */
  function Respond(g: Gathered): Response {
    TickerLeIsPreorder();
    var companies := SortBy(g.results, TickerLe);
    Response(
      if |g.errors| > 0 && |companies| == 0 then 502 else 200,
      if g.lastDate == "" then None else Some(g.lastDate),
      companies,
      g.prices,
      g.benchmarks,
      ComputeAggregates(companies),
      g.errors)
  }

  /** The handler: every configured ticker, then the benchmark symbols, fetched in
      batches, then the response. */
  method Handle(tickers: seq<string>, benchmarkSymbols: seq<string>,
                fetch: string -> Result<TickerData, string>) returns (r: Response)
    ensures r == Respond(GatherAll(tickers + benchmarkSymbols, fetch, benchmarkSymbols))
  {
    var g := GatherInBatches(tickers + benchmarkSymbols, fetch, benchmarkSymbols);
    r := Respond(g);
  }

  /** The status is 502 exactly when some symbol failed and no company symbol was
      fetched; the companies are the fetched company symbols' data sorted by ticker. */
  lemma {:induction false} HandlerMeaning(symbols: seq<string>, fetch: string -> Result<TickerData, string>,
                       benchmarkSymbols: seq<string>)
    ensures Respond(GatherAll(symbols, fetch, benchmarkSymbols)).status in {200, 502}
    ensures Respond(GatherAll(symbols, fetch, benchmarkSymbols)).status == 502 <==>
      Count(symbols, s => fetch(s).Err?) > 0 && Count(symbols, s => fetch(s).Ok? && s !in benchmarkSymbols) == 0
    ensures Sorted(Respond(GatherAll(symbols, fetch, benchmarkSymbols)).companies, TickerLe)
    ensures multiset(Respond(GatherAll(symbols, fetch, benchmarkSymbols)).companies)
         == multiset(GatherAll(symbols, fetch, benchmarkSymbols).results)
  {
    var g := GatherAll(symbols, fetch, benchmarkSymbols);
    GatherPartition(symbols, fetch, benchmarkSymbols);
    TickerLeIsPreorder();
    var companies := SortBy(g.results, TickerLe);
    assert |companies| == |multiset(companies)| == |multiset(g.results)| == |g.results|;
  }
}
