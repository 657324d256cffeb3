/** `parseTornadoYear`, the reader of one year of the Storm Prediction Center's tornado
    database: a header row names the columns, each later row is one tornado, and the rows
    become a per-day series with running totals. */
module TornadoYear {
  import opened Wrappers
  import opened Text
  import opened Seqs
  import opened CsvLine
  import opened TornadoDates

  /** One kept row. */
  datatype Entry = Entry(year: int, month: int, day: int, dayOfYear: int, injuries: int, fatalities: int)

  /** Reports, injuries and fatalities added up over some rows. */
  datatype Totals = Totals(count: int, injuries: int, fatalities: int)

  /** One day of a cumulative series; the injury and fatality figures are absent in a
      series built from daily report files. */
  datatype Point = Point(dayOfYear: int, date: string, cumulative: int, daily: int,
                         injuries: Option<int>, fatalities: Option<int>)

  /** A year's series and totals; `year` is absent when the caller gave no year and no
      row was kept. */
  datatype YearData = YearData(year: Option<int>, series: seq<Point>, totalReports: int,
                               injuries: Option<int>, fatalities: Option<int>,
                               firstReportDate: Option<string>, lastReportDate: Option<string>)

  /** Where the columns are: the header's width, the required year, month and day
      columns, and the optional injury and fatality columns. */
  datatype Columns = Columns(width: nat, yr: nat, mo: nat, dy: nat, inj: Option<nat>, fat: Option<nat>)

  predicate ColumnsFit(c: Columns) {
    && c.yr < c.width && c.mo < c.width && c.dy < c.width
    && (c.inj.Some? ==> c.inj.value < c.width)
    && (c.fat.Some? ==> c.fat.value < c.width)
  }

  /** `expectedYear` as a condition: absent and 0 are both false. */
  predicate Truthy(expectedYear: Option<int>) {
    expectedYear.Some? && expectedYear.value != 0
  }

  /** `parseInteger(value)`: the integer `parseInt` reads, 0 for an empty field or one
      that does not start with a number. */
  function ParseInteger(value: string): int {
    if value == [] then 0 else ParseInt(value).GetOr(0)
  }

  /** `parseInteger` reads back any integer `String` writes. */
  lemma {:induction false} ParseIntegerReadsBack(i: int)
    ensures ParseInteger(IntToString(i)) == i
  {
    ParseIntOfIntToString(i, []);
    assert IntToString(i) + [] == IntToString(i);
  }

  /** `indexByName.get(name)`: each header field is stored under its lower-cased name, a
      later field overwriting an earlier one, so the last field with that name. The
      names looked up are ASCII without `k`, and no other character lower-cases into one
      of them. */
  function ColumnIndex(header: seq<string>, name: string): (r: Option<nat>)
    ensures r.Some? ==> r.value < |header| && ToLowerAscii(header[r.value]) == name
    ensures r.Some? ==> forall k :: r.value < k < |header| ==> ToLowerAscii(header[k]) != name
    ensures r.None? <==> forall k :: 0 <= k < |header| ==> ToLowerAscii(header[k]) != name
  {
    if header == [] then None
    else if ToLowerAscii(header[|header| - 1]) == name then Some(|header| - 1)
    else ColumnIndex(header[..|header| - 1], name)
  }

  /** The required columns, among "yr", "mo" and "dy", that the header lacks. */
  function Missing(header: seq<string>): seq<string> {
    (if ColumnIndex(header, "yr").None? then ["yr"] else [])
    + (if ColumnIndex(header, "mo").None? then ["mo"] else [])
    + (if ColumnIndex(header, "dy").None? then ["dy"] else [])
  }

  /** The column lookup, or the missing required columns. */
  function LocateColumns(header: seq<string>): (r: Result<Columns, seq<string>>)
    ensures r.Err? <==> Missing(header) != []
    ensures r.Err? ==> r.error == Missing(header)
    ensures r.Ok? ==> ColumnsFit(r.value) && r.value.width == |header|
  {
    var yr := ColumnIndex(header, "yr");
    var mo := ColumnIndex(header, "mo");
    var dy := ColumnIndex(header, "dy");
    if yr.None? || mo.None? || dy.None? then Err(Missing(header))
    else Ok(Columns(|header|, yr.value, mo.value, dy.value,
                    ColumnIndex(header, "inj"), ColumnIndex(header, "fat")))
  }

  /** The fields `splitCsvLine` gives for a row. */
  function Fields(line: string): seq<string> {
    TrimAll(RawFields(line, false))
  }

  /** The entry a row's fields give. A row is kept exactly when it is as wide as the
      header, its year, month and day read as integers, and its year is the expected one
      when there is one. */
  function RowEntry(parts: seq<string>, c: Columns, expectedYear: Option<int>): (r: Option<Entry>)
    requires ColumnsFit(c)
    ensures r.Some? <==>
      && |parts| >= c.width
      && ParseInt(parts[c.yr]).Some? && ParseInt(parts[c.mo]).Some? && ParseInt(parts[c.dy]).Some?
      && (Truthy(expectedYear) ==> ParseInt(parts[c.yr]).value == expectedYear.value)
    ensures r.Some? ==>
      && r.value.year == ParseInt(parts[c.yr]).value
      && r.value.month == ParseInt(parts[c.mo]).value
      && r.value.day == ParseInt(parts[c.dy]).value
      && r.value.injuries == (if c.inj.Some? then ParseInteger(parts[c.inj.value]) else 0)
      && r.value.fatalities == (if c.fat.Some? then ParseInteger(parts[c.fat.value]) else 0)
      && r.value.dayOfYear == DayOfYearFromParts(r.value.year, r.value.month, r.value.day)
      && (Truthy(expectedYear) ==> r.value.year == expectedYear.value)
  {
    if |parts| < c.width then None
    else
      var year := ParseInt(parts[c.yr]);
      var month := ParseInt(parts[c.mo]);
      var day := ParseInt(parts[c.dy]);
      if year.None? || month.None? || day.None? then None
      else if Truthy(expectedYear) && year.value != expectedYear.value then None
      else Some(Entry(year.value, month.value, day.value,
                      DayOfYearFromParts(year.value, month.value, day.value),
                      if c.inj.Some? then ParseInteger(parts[c.inj.value]) else 0,
                      if c.fat.Some? then ParseInteger(parts[c.fat.value]) else 0))
  }

  function OptionSeq<T>(o: Option<T>): seq<T> {
    if o.Some? then [o.value] else []
  }

  /** The entries of the rows, in row order. */
  function Entries(rows: seq<string>, c: Columns, expectedYear: Option<int>): seq<Entry>
    requires ColumnsFit(c)
  {
    if rows == [] then []
    else Entries(rows[..|rows| - 1], c, expectedYear) + OptionSeq(RowEntry(Fields(rows[|rows| - 1]), c, expectedYear))
  }

  /** With an expected year every kept entry is from that year. */
  lemma {:induction false} EntriesOfExpectedYear(rows: seq<string>, c: Columns, expectedYear: Option<int>)
    requires ColumnsFit(c) && Truthy(expectedYear)
    ensures forall k :: 0 <= k < |Entries(rows, c, expectedYear)| ==> Entries(rows, c, expectedYear)[k].year == expectedYear.value
  {
    if rows != [] {
      EntriesOfExpectedYear(rows[..|rows| - 1], c, expectedYear);
    }
  }

  lemma {:induction false} EntriesStep(lines: seq<string>, i: nat, c: Columns, expectedYear: Option<int>)
    requires 1 <= i < |lines| && ColumnsFit(c)
    ensures Entries(lines[1..i + 1], c, expectedYear)
         == Entries(lines[1..i], c, expectedYear) + OptionSeq(RowEntry(Fields(lines[i]), c, expectedYear))
  {
    assert lines[1..i + 1][..i - 1] == lines[1..i];
  }

  /** The row loop of `parseTornadoYear`, from the line after the header. */
  method CollectEntries(lines: seq<string>, c: Columns, expectedYear: Option<int>) returns (entries: seq<Entry>)
    requires |lines| >= 1 && ColumnsFit(c)
    ensures entries == Entries(lines[1..], c, expectedYear)
  {
    entries := [];
    var i := 1;
    while i < |lines|
      invariant 1 <= i <= |lines|
      invariant entries == Entries(lines[1..i], c, expectedYear)
      decreases |lines| - i
    {
      entries := CollectRow(entries, lines, i, c, expectedYear);
      i := i + 1;
    }
    assert lines[1..i] == lines[1..];
  }

  /** One turn of the row loop: row `i` split into fields and its entry, if kept, added. */
  method CollectRow(entries: seq<Entry>, lines: seq<string>, i: nat, c: Columns, expectedYear: Option<int>)
    returns (next: seq<Entry>)
    requires 1 <= i < |lines| && ColumnsFit(c)
    requires entries == Entries(lines[1..i], c, expectedYear)
    ensures next == Entries(lines[1..i + 1], c, expectedYear)
  {
    var parts := SplitCsvLine(lines[i]);
    EntriesStep(lines, i, c, expectedYear);
    var kept := ReadRow(parts, c, expectedYear);
    next := entries;
    if kept.Some? {
      next := next + [kept.value];
    }
  }

  /** The body of the row loop: the entry of one row, if the row is kept. */
  method ReadRow(parts: seq<string>, c: Columns, expectedYear: Option<int>) returns (kept: Option<Entry>)
    requires ColumnsFit(c)
    ensures kept == RowEntry(parts, c, expectedYear)
  {
    kept := None;
    if |parts| >= c.width {
      var year := ParseInt(parts[c.yr]);
      var month := ParseInt(parts[c.mo]);
      var day := ParseInt(parts[c.dy]);
      if year.Some? && month.Some? && day.Some? && !(Truthy(expectedYear) && year.value != expectedYear.value) {
        var dayKey := DayOfYearFromParts(year.value, month.value, day.value);
        var injuries := if c.inj.Some? then ParseInteger(parts[c.inj.value]) else 0;
        var fatalities := if c.fat.Some? then ParseInteger(parts[c.fat.value]) else 0;
        kept := Some(Entry(year.value, month.value, day.value, dayKey, injuries, fatalities));
      }
    }
  }

  /** The three figures the per-day map adds up. */
  datatype Measure = Reports | Injuries | Fatalities

  /** What one entry adds to measure `m`. */
  function Weight(e: Entry, m: Measure): int {
    match m
    case Reports => 1
    case Injuries => e.injuries
    case Fatalities => e.fatalities
  }

  /** Measure `m` added up over the entries whose day of the year is in `lo + 1 .. hi`. */
  function Sum(es: seq<Entry>, lo: int, hi: int, m: Measure): int {
    if es == [] then 0
    else (if lo < es[0].dayOfYear <= hi then Weight(es[0], m) else 0) + Sum(es[1..], lo, hi, m)
  }

  /** Measure `m` added up over all the entries; the report count is their number. */
  function Total(es: seq<Entry>, m: Measure): (t: int)
    ensures m == Reports ==> t == |es|
  {
    if es == [] then 0 else Weight(es[0], m) + Total(es[1..], m)
  }

  /** The per-day record of `parseTornadoYear` for the days in `lo + 1 .. hi`. */
  function Tally(es: seq<Entry>, lo: int, hi: int): Totals {
    Totals(Sum(es, lo, hi, Reports), Sum(es, lo, hi, Injuries), Sum(es, lo, hi, Fatalities))
  }

  /** The reports, injuries and fatalities of day `d`. */
  function DayTally(es: seq<Entry>, d: int): Totals {
    Tally(es, d - 1, d)
  }

  lemma {:induction false} SumConcat(a: seq<Entry>, b: seq<Entry>, lo: int, hi: int, m: Measure)
    ensures Sum(a + b, lo, hi, m) == Sum(a, lo, hi, m) + Sum(b, lo, hi, m)
  {
    if a != [] {
      assert (a + b)[1..] == a[1..] + b;
      SumConcat(a[1..], b, lo, hi, m);
    } else {
      assert a + b == b;
    }
  }

  /** Adjacent ranges of days add up. */
  lemma {:induction false} SumSplit(es: seq<Entry>, a: int, b: int, c: int, m: Measure)
    requires a <= b <= c
    ensures Sum(es, a, c, m) == Sum(es, a, b, m) + Sum(es, b, c, m)
  {
    if es != [] {
      SumSplit(es[1..], a, b, c, m);
    }
  }

  /** A range holding no entry's day adds up to 0. */
  lemma {:induction false} SumNone(es: seq<Entry>, lo: int, hi: int, m: Measure)
    requires forall k :: 0 <= k < |es| ==> !(lo < es[k].dayOfYear <= hi)
    ensures Sum(es, lo, hi, m) == 0
  {
    if es != [] {
      assert forall k :: 0 <= k < |es[1..]| ==> es[1..][k] == es[k + 1];
      SumNone(es[1..], lo, hi, m);
    }
  }

  /** A range holding every entry's day adds up to the total. */
  lemma {:induction false} SumCovers(es: seq<Entry>, lo: int, hi: int, m: Measure)
    requires forall k :: 0 <= k < |es| ==> lo < es[k].dayOfYear <= hi
    ensures Sum(es, lo, hi, m) == Total(es, m)
  {
    if es != [] {
      assert forall k :: 0 <= k < |es[1..]| ==> es[1..][k] == es[k + 1];
      SumCovers(es[1..], lo, hi, m);
    }
  }

  /** `(a, b) => a.dayOfYear - b.dayOfYear` as an ordering. */
  predicate ByDay(a: Entry, b: Entry) {
    a.dayOfYear <= b.dayOfYear
  }

  /** `(a, b) => a - b` as an ordering. */
  predicate IntLe(a: int, b: int) {
    a <= b
  }

  lemma {:induction false} ByDayOrders()
    ensures TotalPreorder(ByDay) && TotalPreorder(IntLe)
  {
  }

  /** Sorting the entries by day changes no sum. */
  lemma {:induction false} SumSorted(es: seq<Entry>, lo: int, hi: int, m: Measure)
    ensures Sum(SortBy(es, ByDay), lo, hi, m) == Sum(es, lo, hi, m)
    ensures Total(SortBy(es, ByDay), m) == Total(es, m)
  {
    ByDayOrders();
    if es != [] {
      var t := SortBy(es[1..], ByDay);
      SumSorted(es[1..], lo, hi, m);
      SumInsert(es[0], t, lo, hi, m);
      TotalInsert(es[0], t, m);
      assert ([es[0]] + t)[1..] == t;
      assert ([es[0]] + es[1..]) == es;
    }
  }

  lemma {:induction false} SumInsert(x: Entry, s: seq<Entry>, lo: int, hi: int, m: Measure)
    ensures Sum(Insert(x, s, ByDay), lo, hi, m) == Sum([x] + s, lo, hi, m)
  {
    if s != [] && !ByDay(x, s[0]) {
      var tail := Insert(x, s[1..], ByDay);
      SumInsert(x, s[1..], lo, hi, m);
      assert Insert(x, s, ByDay) == [s[0]] + tail;
      assert ([s[0]] + tail)[1..] == tail;
      assert ([x] + s)[1..] == s;
      assert ([x] + s[1..])[1..] == s[1..];
    }
  }

  lemma {:induction false} TotalInsert(x: Entry, s: seq<Entry>, m: Measure)
    ensures Total(Insert(x, s, ByDay), m) == Total([x] + s, m)
  {
    if s != [] && !ByDay(x, s[0]) {
      var tail := Insert(x, s[1..], ByDay);
      TotalInsert(x, s[1..], m);
      assert Insert(x, s, ByDay) == [s[0]] + tail;
      assert ([s[0]] + tail)[1..] == tail;
      assert ([x] + s)[1..] == s;
      assert ([x] + s[1..])[1..] == s[1..];
    }
  }

  /** The days of the entries, in entry order. */
  function Days(es: seq<Entry>): (ds: seq<int>)
    ensures |ds| == |es| && forall k :: 0 <= k < |es| ==> ds[k] == es[k].dayOfYear
  {
    seq(|es|, k requires 0 <= k < |es| => es[k].dayOfYear)
  }

  /** Entries in ascending day order. */
  predicate DaySorted(es: seq<Entry>) {
    forall i, j :: 0 <= i < j < |es| ==> es[i].dayOfYear <= es[j].dayOfYear
  }

  predicate StrictlyIncreasing(ds: seq<int>) {
    forall i, j :: 0 <= i < j < |ds| ==> ds[i] < ds[j]
  }

  /** `daily` holds the totals of each day among the first `n` entries, and no other day. */
  ghost predicate Grouped(es: seq<Entry>, n: nat, daily: map<int, Totals>)
    requires n <= |es|
  {
    && (forall d :: d in daily <==> d in Days(es[..n]))
    && (forall d :: d in daily ==> daily[d] == DayTally(es[..n], d))
  }

  /** The per-day loop of `parseTornadoYear` over the entries sorted by day: a map from
      each day to its totals, whose keys, in insertion order, are the distinct days. */
  method GroupByDay(es: seq<Entry>) returns (daily: map<int, Totals>, keys: seq<int>)
    requires DaySorted(es)
    ensures forall d :: d in daily <==> d in Days(es)
    ensures forall d :: d in daily ==> daily[d] == DayTally(es, d)
    ensures (forall d :: d in keys <==> d in daily) && StrictlyIncreasing(keys)
  {
    daily := map[];
    keys := [];
    var i := 0;
    while i < |es|
      invariant 0 <= i <= |es|
      invariant Grouped(es, i, daily)
      invariant (forall d :: d in keys <==> d in daily) && StrictlyIncreasing(keys)
      invariant i > 0 ==> keys != [] && keys[|keys| - 1] == es[i - 1].dayOfYear
      invariant i == 0 ==> keys == []
      decreases |es| - i
    {
      var entry := es[i];
      var day := entry.dayOfYear;
      KeysStep(es, i, keys, daily);
      GroupStep(es, i, daily);
      ghost var ready := if day in daily then daily else daily[day := Totals(0, 0, 0)];
      if day !in daily {
        daily := daily[day := Totals(0, 0, 0)];
        keys := keys + [day];
      }
      assert daily == ready;
      var current := daily[day];
      daily := daily[day := Totals(current.count + 1, current.injuries + entry.injuries,
                                   current.fatalities + entry.fatalities)];
      i := i + 1;
    }
    assert es[..i] == es;
  }

  /** Appending a new day to the keys keeps them increasing: the entries come in day
      order, so a day not seen yet is later than the last one seen. */
  lemma {:induction false} KeysStep(es: seq<Entry>, i: nat, keys: seq<int>, daily: map<int, Totals>)
    requires DaySorted(es) && i < |es| && Grouped(es, i, daily)
    requires (forall d :: d in keys <==> d in daily) && StrictlyIncreasing(keys)
    requires i > 0 ==> keys != [] && keys[|keys| - 1] == es[i - 1].dayOfYear
    requires i == 0 ==> keys == []
    ensures es[i].dayOfYear !in daily ==> StrictlyIncreasing(keys + [es[i].dayOfYear])
    ensures es[i].dayOfYear in daily ==> i > 0 && keys[|keys| - 1] == es[i].dayOfYear
  {
    var x := es[i].dayOfYear;
    if x in daily {
      var k :| 0 <= k < i && Days(es[..i])[k] == x;
      assert es[k].dayOfYear == x;
    } else if i > 0 {
      assert x != keys[|keys| - 1] by {
        assert es[i - 1].dayOfYear == Days(es[..i])[i - 1];
      }
      assert es[i - 1].dayOfYear <= x;
      var next := keys + [x];
      forall a, b | 0 <= a < b < |next|
        ensures next[a] < next[b]
      {
        if b == |keys| && a < |keys| - 1 {
          assert keys[a] < keys[|keys| - 1];
        }
      }
    }
  }

  lemma {:induction false} DaysStep(es: seq<Entry>, i: nat)
    requires i < |es|
    ensures Days(es[..i + 1]) == Days(es[..i]) + [es[i].dayOfYear]
  {
    assert es[..i + 1] == es[..i] + [es[i]];
  }

  /** What entry `i` adds to the per-day totals: its day's record, created at zero when
      the day is new, gains one report and the entry's injuries and fatalities. */
  lemma {:induction false} GroupStep(es: seq<Entry>, i: nat, daily: map<int, Totals>)
    requires i < |es| && Grouped(es, i, daily)
    ensures var x := es[i];
      var ready := if x.dayOfYear in daily then daily else daily[x.dayOfYear := Totals(0, 0, 0)];
      var current := ready[x.dayOfYear];
      Grouped(es, i + 1, ready[x.dayOfYear := Totals(current.count + 1, current.injuries + x.injuries, current.fatalities + x.fatalities)])
  {
    DaysStep(es, i);
    var x := es[i];
    assert es[..i + 1] == es[..i] + [x];
    assert [x][1..] == [];
    forall d | d != x.dayOfYear
      ensures DayTally(es[..i + 1], d) == DayTally(es[..i], d)
    {
      SumConcat(es[..i], [x], d - 1, d, Reports);
      SumConcat(es[..i], [x], d - 1, d, Injuries);
      SumConcat(es[..i], [x], d - 1, d, Fatalities);
    }
    var d := x.dayOfYear;
    SumConcat(es[..i], [x], d - 1, d, Reports);
    SumConcat(es[..i], [x], d - 1, d, Injuries);
    SumConcat(es[..i], [x], d - 1, d, Fatalities);
    if d !in daily {
      SumNone(es[..i], d - 1, d, Reports);
      SumNone(es[..i], d - 1, d, Injuries);
      SumNone(es[..i], d - 1, d, Fatalities);
    }
  }

  /** The days of a series, in series order. */
  function PointDays(ps: seq<Point>): (ds: seq<int>)
    ensures |ds| == |ps| && forall k :: 0 <= k < |ps| ==> ds[k] == ps[k].dayOfYear
  {
    seq(|ps|, k requires 0 <= k < |ps| => ps[k].dayOfYear)
  }

  /** Every entry's day is among `days`. */
  predicate Covered(es: seq<Entry>, days: seq<int>) {
    forall k :: 0 <= k < |es| ==> es[k].dayOfYear in days
  }

  /** Measure `m` over the entries from the first of `days` through `days[i - 1]`. */
  function Running(es: seq<Entry>, days: seq<int>, i: nat, m: Measure): int
    requires i <= |days|
  {
    if i == 0 then 0 else Sum(es, days[0] - 1, days[i - 1], m)
  }

  /** The figures of point `k` of the series for `days`: the day, the reports from the
      first day through this one, and the day's own reports, injuries and fatalities. */
  ghost predicate PointFigures(p: Point, es: seq<Entry>, days: seq<int>, k: nat)
    requires k < |days|
  {
    var d := days[k];
    && p.dayOfYear == d
    && p.cumulative == Sum(es, days[0] - 1, d, Reports)
    && p.daily == Sum(es, d - 1, d, Reports)
    && p.injuries == Some(Sum(es, d - 1, d, Injuries))
    && p.fatalities == Some(Sum(es, d - 1, d, Fatalities))
  }

  /** With the entries' days all among the increasing `days`, the running figure grows by
      exactly the figure of the next day: no entry falls between two listed days. */
  lemma {:induction false} RunningStep(es: seq<Entry>, days: seq<int>, i: nat, m: Measure)
    requires StrictlyIncreasing(days) && Covered(es, days) && i < |days|
    ensures Running(es, days, i + 1, m) == Running(es, days, i, m) + Sum(es, days[i] - 1, days[i], m)
  {
    if i > 0 {
      var a, b := days[i - 1], days[i];
      assert days[0] <= a;
      SumSplit(es, days[0] - 1, a, b, m);
      SumSplit(es, a, b - 1, b, m);
      forall k | 0 <= k < |es|
        ensures !(a < es[k].dayOfYear <= b - 1)
      {
        var j :| 0 <= j < |days| && days[j] == es[k].dayOfYear;
        assert j < i ==> days[j] <= a;
      }
      SumNone(es, a, b - 1, m);
    }
  }

  /** Over all the listed days the running figure is the total. */
  lemma {:induction false} RunningAll(es: seq<Entry>, days: seq<int>, m: Measure)
    requires StrictlyIncreasing(days) && Covered(es, days) && es != []
    ensures days != [] && Running(es, days, |days|, m) == Total(es, m)
  {
    assert es[0].dayOfYear in days;
    var last := days[|days| - 1];
    forall k | 0 <= k < |es|
      ensures days[0] - 1 < es[k].dayOfYear <= last
    {
      var j :| 0 <= j < |days| && days[j] == es[k].dayOfYear;
      assert 0 < j ==> days[0] < days[j];
      assert j < |days| - 1 ==> days[j] < last;
    }
    SumCovers(es, days[0] - 1, last, m);
  }

  /** Measure `m` of a day's record. */
  function Figure(t: Totals, m: Measure): int {
    match m
    case Reports => t.count
    case Injuries => t.injuries
    case Fatalities => t.fatalities
  }

  /** Measure `m` of the records of the first `n` of `days`, added up. */
  function Prefix(daily: map<int, Totals>, days: seq<int>, n: nat, m: Measure): int
    requires n <= |days| && forall k :: 0 <= k < |days| ==> days[k] in daily
  {
    if n == 0 then 0 else Prefix(daily, days, n - 1, m) + Figure(daily[days[n - 1]], m)
  }

  /** Point `k` of the series over `days`: the day, its date, the reports of the first
      `k + 1` days and the day's own record. */
  function PointAt(dateOf: int -> string, days: seq<int>, daily: map<int, Totals>, k: nat): Point
    requires k < |days| && forall k :: 0 <= k < |days| ==> days[k] in daily
  {
    var t := daily[days[k]];
    Point(days[k], dateOf(days[k]), Prefix(daily, days, k + 1, Reports), t.count, Some(t.injuries), Some(t.fatalities))
  }

  /** The series loop of `parseTornadoYear`: point `k` is day `days[k]`, dated by
      `dateOf`, with the reports of the first `k + 1` days and the day's own record; the
      loop ends with the reports, injuries and fatalities of all the days added up. */
  method BuildSeries(dateOf: int -> string, days: seq<int>, daily: map<int, Totals>)
    returns (series: seq<Point>, cumulative: int, totalInjuries: int, totalFatalities: int)
    requires forall k :: 0 <= k < |days| ==> days[k] in daily
    ensures |series| == |days|
    ensures forall k :: 0 <= k < |days| ==> series[k] == PointAt(dateOf, days, daily, k)
    ensures cumulative == Prefix(daily, days, |days|, Reports)
    ensures totalInjuries == Prefix(daily, days, |days|, Injuries)
    ensures totalFatalities == Prefix(daily, days, |days|, Fatalities)
  {
    series := [];
    cumulative, totalInjuries, totalFatalities := 0, 0, 0;
    var i := 0;
    while i < |days|
      invariant 0 <= i <= |days| && |series| == i
      invariant forall k :: 0 <= k < i ==> series[k] == PointAt(dateOf, days, daily, k)
      invariant cumulative == Prefix(daily, days, i, Reports)
      invariant totalInjuries == Prefix(daily, days, i, Injuries)
      invariant totalFatalities == Prefix(daily, days, i, Fatalities)
      decreases |days| - i
    {
      var day := days[i];
      var t := daily[day];
      cumulative := cumulative + t.count;
      totalInjuries := totalInjuries + t.injuries;
      totalFatalities := totalFatalities + t.fatalities;
      series := series + [Point(day, dateOf(day), cumulative, t.count, Some(t.injuries), Some(t.fatalities))];
      i := i + 1;
    }
  }

  /** Over days whose records are the entries' per-day totals, the running figure of the
      records is the running figure of the entries. */
  lemma {:induction false} PrefixRunning(es: seq<Entry>, days: seq<int>, daily: map<int, Totals>, n: nat, m: Measure)
    requires StrictlyIncreasing(days) && Covered(es, days) && n <= |days|
    requires forall k :: 0 <= k < |days| ==> days[k] in daily && daily[days[k]] == DayTally(es, days[k])
    ensures Prefix(daily, days, n, m) == Running(es, days, n, m)
  {
    if n > 0 {
      PrefixRunning(es, days, daily, n - 1, m);
      RunningStep(es, days, n - 1, m);
    }
  }

  lemma {:induction false} SortedByDay(es: seq<Entry>)
    requires Sorted(es, ByDay)
    ensures DaySorted(es)
  {
    assert forall i, j :: 0 <= i < j < |es| ==> ByDay(es[i], es[j]);
  }

  lemma {:induction false} IncreasingSorted(ds: seq<int>)
    requires StrictlyIncreasing(ds)
    ensures Sorted(ds, IntLe)
  {
    assert forall i, j :: 0 <= i < j < |ds| ==> IntLe(ds[i], ds[j]);
  }

  /** Sequences with the same elements have the same days. */
  lemma {:induction false} SameDays(a: seq<Entry>, b: seq<Entry>)
    requires multiset(a) == multiset(b)
    ensures forall d :: d in Days(a) <==> d in Days(b)
  {
    forall d | d in Days(a)
      ensures d in Days(b)
    {
      var k :| 0 <= k < |a| && Days(a)[k] == d;
      assert a[k] in multiset(b);
      var j :| 0 <= j < |b| && b[j] == a[k];
      assert Days(b)[j] == d;
    }
    forall d | d in Days(b)
      ensures d in Days(a)
    {
      var k :| 0 <= k < |b| && Days(b)[k] == d;
      assert b[k] in multiset(a);
      var j :| 0 <= j < |a| && a[j] == b[k];
      assert Days(a)[j] == d;
    }
  }

  /** Two lists of entries with the same sums over every range and the same totals. */
  ghost predicate SameSums(a: seq<Entry>, b: seq<Entry>) {
    && (forall lo, hi, m :: Sum(a, lo, hi, m) == Sum(b, lo, hi, m))
    && (forall m :: Total(a, m) == Total(b, m))
  }

  /** Sorting by day keeps every sum. */
  lemma {:induction false} SortedSameSums(es: seq<Entry>, sorted: seq<Entry>)
    requires TotalPreorder(ByDay) && sorted == SortBy(es, ByDay)
    ensures SameSums(sorted, es)
  {
    forall lo, hi, m
      ensures Sum(sorted, lo, hi, m) == Sum(es, lo, hi, m)
    {
      SumSorted(es, lo, hi, m);
    }
    forall m
      ensures Total(sorted, m) == Total(es, m)
    {
      SumSorted(es, 0, 0, m);
    }
  }

  /** The year a non-empty result carries: the expected year, or else the year of the
      first entry once the entries are sorted by day. */
  function SeriesYear(es: seq<Entry>, expectedYear: Option<int>): int
    requires es != []
  {
    if Truthy(expectedYear) then expectedYear.value
    else
      ByDayOrders();
      var sorted := SortBy(es, ByDay);
      assert |sorted| == |multiset(sorted)| == |es|;
      sorted[0].year
  }

  /** The figures of a non-empty result: one point per distinct day of the entries in
      ascending day order, each with its day's figures and the running number of reports,
      and totals that count every entry. */
  ghost predicate Tallies(data: YearData, es: seq<Entry>)
  {
    var series := data.series;
    var days := PointDays(series);
    && series != []
    && StrictlyIncreasing(days)
    && (forall d :: d in days <==> d in Days(es))
    && (forall k :: 0 <= k < |series| ==> PointFigures(series[k], es, days, k))
    && (forall k :: 0 < k < |series| ==> series[k].cumulative == series[k - 1].cumulative + series[k].daily)
    && series[0].cumulative == series[0].daily
    && data.totalReports == |es| == series[|series| - 1].cumulative
    && data.injuries == Some(Total(es, Injuries))
    && data.fatalities == Some(Total(es, Fatalities))
  }

  /** The dates of a result: each point, and the first and last report, dated in `year`
      (no date for a day 0, which `parseTornadoYear` treats as missing). */
  ghost predicate Dated(data: YearData, year: int)
    requires data.series != []
  {
    var series := data.series;
    var first := series[0].dayOfYear;
    var last := series[|series| - 1].dayOfYear;
    && data.year == Some(year)
    && (forall k :: 0 <= k < |series| ==> series[k].date == IsoFromDayOfYear(year, series[k].dayOfYear))
    && data.firstReportDate == (if first != 0 then Some(IsoFromDayOfYear(year, first)) else None)
    && data.lastReportDate == (if last != 0 then Some(IsoFromDayOfYear(year, last)) else None)
  }

  /** What `parseTornadoYear` returns for a non-empty list of kept entries. */
  ghost predicate Summarizes(data: YearData, es: seq<Entry>, expectedYear: Option<int>)
    requires es != []
  {
    Tallies(data, es) && Dated(data, SeriesYear(es, expectedYear))
  }

  /** A point built from the per-day totals of the sorted entries carries the figures of
      the entries themselves. */
  lemma {:induction false} PointTally(p: Point, entries: seq<Entry>, sorted: seq<Entry>, days: seq<int>, daily: map<int, Totals>,
                   dateOf: int -> string, k: nat)
    requires SameSums(sorted, entries) && StrictlyIncreasing(days) && Covered(sorted, days) && k < |days|
    requires forall j :: 0 <= j < |days| ==> days[j] in daily && daily[days[j]] == DayTally(sorted, days[j])
    requires p == PointAt(dateOf, days, daily, k)
    ensures PointFigures(p, entries, days, k)
  {
    PrefixRunning(sorted, days, daily, k + 1, Reports);
    assert PointFigures(p, sorted, days, k);
  }

  /** Adding up the per-day totals of all the days gives the total of the entries. */
  lemma {:induction false} TotalTally(entries: seq<Entry>, sorted: seq<Entry>, days: seq<int>, daily: map<int, Totals>, m: Measure)
    requires SameSums(sorted, entries) && sorted != [] && StrictlyIncreasing(days) && Covered(sorted, days)
    requires forall j :: 0 <= j < |days| ==> days[j] in daily && daily[days[j]] == DayTally(sorted, days[j])
    ensures Prefix(daily, days, |days|, m) == Total(entries, m)
  {
    PrefixRunning(sorted, days, daily, |days|, m);
    RunningAll(sorted, days, m);
  }

  /** The series built from the per-day totals of the sorted entries tallies the
      entries themselves. */
  lemma {:induction false} Conclude(data: YearData, entries: seq<Entry>, sorted: seq<Entry>, days: seq<int>, daily: map<int, Totals>,
                 dateOf: int -> string)
    requires SameSums(sorted, entries) && sorted != []
    requires StrictlyIncreasing(days) && Covered(sorted, days) && days != []
    requires forall d :: d in days <==> d in Days(entries)
    requires forall k :: 0 <= k < |days| ==> days[k] in daily && daily[days[k]] == DayTally(sorted, days[k])
    requires |data.series| == |days|
    requires forall k :: 0 <= k < |days| ==> data.series[k] == PointAt(dateOf, days, daily, k)
    requires data.totalReports == Prefix(daily, days, |days|, Reports)
    requires data.injuries == Some(Prefix(daily, days, |days|, Injuries))
    requires data.fatalities == Some(Prefix(daily, days, |days|, Fatalities))
    ensures Tallies(data, entries)
  {
    ConcludePoints(data.series, entries, sorted, days, daily, dateOf);
    TotalTally(entries, sorted, days, daily, Reports);
    TotalTally(entries, sorted, days, daily, Injuries);
    TotalTally(entries, sorted, days, daily, Fatalities);
    assert data.series[|days| - 1].cumulative == Prefix(daily, days, |days|, Reports);
  }

  /** The points built from the per-day totals carry the figures of the entries and add
      up day by day. */
  lemma {:induction false} ConcludePoints(series: seq<Point>, entries: seq<Entry>, sorted: seq<Entry>, days: seq<int>,
                       daily: map<int, Totals>, dateOf: int -> string)
    requires SameSums(sorted, entries) && StrictlyIncreasing(days) && Covered(sorted, days) && days != []
    requires forall k :: 0 <= k < |days| ==> days[k] in daily && daily[days[k]] == DayTally(sorted, days[k])
    requires |series| == |days|
    requires forall k :: 0 <= k < |days| ==> series[k] == PointAt(dateOf, days, daily, k)
    ensures PointDays(series) == days
    ensures forall k :: 0 <= k < |series| ==> PointFigures(series[k], entries, days, k)
    ensures forall k :: 0 < k < |series| ==> series[k].cumulative == series[k - 1].cumulative + series[k].daily
    ensures series[0].cumulative == series[0].daily
  {
    assert PointDays(series) == days;
    forall k | 0 <= k < |series|
      ensures PointFigures(series[k], entries, days, k)
    {
      PointTally(series[k], entries, sorted, days, daily, dateOf, k);
    }
  }

  /** A series whose points are dated by `dateOf`, the ISO date in `year`, is dated. */
  lemma {:induction false} DatedSeries(data: YearData, year: int, dateOf: int -> string, days: seq<int>, daily: map<int, Totals>)
    requires days != [] && forall k :: 0 <= k < |days| ==> days[k] in daily
    requires forall d :: dateOf(d) == IsoFromDayOfYear(year, d)
    requires |data.series| == |days| && forall k :: 0 <= k < |days| ==> data.series[k] == PointAt(dateOf, days, daily, k)
    requires data.year == Some(year)
    requires data.firstReportDate == (if days[0] != 0 then Some(IsoFromDayOfYear(year, days[0])) else None)
    requires data.lastReportDate == (if days[|days| - 1] != 0 then Some(IsoFromDayOfYear(year, days[|days| - 1])) else None)
    ensures data.series != [] && Dated(data, year)
  {
  }

  /** The grouping step of `parseTornadoYear`: the entries sorted by day, their per-day
      totals, and the days that have entries in ascending order. */
  method Arrange(entries: seq<Entry>) returns (sorted: seq<Entry>, daily: map<int, Totals>, days: seq<int>)
    requires entries != []
    ensures TotalPreorder(ByDay) && sorted == SortBy(entries, ByDay) && sorted != []
    ensures SameSums(sorted, entries)
    ensures StrictlyIncreasing(days) && Covered(sorted, days) && days != []
    ensures forall d :: d in days <==> d in Days(entries)
    ensures forall k :: 0 <= k < |days| ==> days[k] in daily && daily[days[k]] == DayTally(sorted, days[k])
  {
    ByDayOrders();
    sorted := SortBy(entries, ByDay);
    assert |sorted| == |multiset(sorted)| == |entries|;
    SortedByDay(sorted);
    var keys;
    daily, keys := GroupByDay(sorted);
    IncreasingSorted(keys);
    SortSorted(keys, IntLe);
    days := SortBy(keys, IntLe);
    assert Covered(sorted, days) by {
      assert forall k :: 0 <= k < |sorted| ==> Days(sorted)[k] == sorted[k].dayOfYear;
    }
    SameDays(sorted, entries);
    SortedSameSums(entries, sorted);
    assert forall d :: d in days <==> d in Days(entries) by {
      assert forall d :: d in days <==> d in keys;
    }
  }

  /** The part of `parseTornadoYear` after the row loop, for at least one kept entry:
      sort by day, group by day, sort the days, build the series. */
  method Summarize(entries: seq<Entry>, expectedYear: Option<int>) returns (data: YearData)
    requires entries != []
    ensures Summarizes(data, entries, expectedYear)
  {
    var sorted, daily, days := Arrange(entries);
    var seriesYear := if Truthy(expectedYear) then expectedYear.value else sorted[0].year;
    var dateOf := d => IsoFromDayOfYear(seriesYear, d);
    var series, cumulative, injuries, fatalities := BuildSeries(dateOf, days, daily);
    var firstDay := days[0];
    var lastDay := days[|days| - 1];
    data := YearData(Some(seriesYear), series, cumulative, Some(injuries), Some(fatalities),
                     if firstDay != 0 then Some(IsoFromDayOfYear(seriesYear, firstDay)) else None,
                     if lastDay != 0 then Some(IsoFromDayOfYear(seriesYear, lastDay)) else None);
    Conclude(data, entries, sorted, days, daily, dateOf);
    DatedSeries(data, seriesYear, dateOf, days, daily);
  }

  /** Measure `m` as a point carries it: its day's reports, injuries or fatalities. */
  function PointFigure(p: Point, m: Measure): int {
    match m
    case Reports => p.daily
    case Injuries => p.injuries.GetOr(0)
    case Fatalities => p.fatalities.GetOr(0)
  }

  /** Measure `m` of the first `n` points added up. */
  function PointsSum(series: seq<Point>, n: nat, m: Measure): int
    requires n <= |series|
  {
    if n == 0 then 0 else PointsSum(series, n - 1, m) + PointFigure(series[n - 1], m)
  }

  lemma {:induction false} TalliesCovered(data: YearData, es: seq<Entry>)
    requires Tallies(data, es)
    ensures StrictlyIncreasing(PointDays(data.series)) && Covered(es, PointDays(data.series))
  {
    assert forall k :: 0 <= k < |es| ==> Days(es)[k] == es[k].dayOfYear;
  }

  lemma {:induction false} PointsSumRunning(data: YearData, es: seq<Entry>, n: nat, m: Measure)
    requires Tallies(data, es) && n <= |data.series|
    ensures PointsSum(data.series, n, m) == Running(es, PointDays(data.series), n, m)
  {
    TalliesCovered(data, es);
    FiguresSumRunning(data.series, es, PointDays(data.series), n, m);
  }

  /** Points carrying the figures of the entries add up to the running figures. */
  lemma {:induction false} FiguresSumRunning(series: seq<Point>, es: seq<Entry>, days: seq<int>, n: nat, m: Measure)
    requires |series| == |days| && n <= |days| && StrictlyIncreasing(days) && Covered(es, days)
    requires forall k :: 0 <= k < |series| ==> PointFigures(series[k], es, days, k)
    ensures PointsSum(series, n, m) == Running(es, days, n, m)
  {
    if n > 0 {
      FiguresSumRunning(series, es, days, n - 1, m);
      RunningStep(es, days, n - 1, m);
      assert PointFigures(series[n - 1], es, days, n - 1);
    }
  }

  /** The totals of a result are its per-day figures added up. */
  lemma {:induction false} TotalsArePerDaySums(data: YearData, es: seq<Entry>)
    requires es != [] && Tallies(data, es)
    ensures data.totalReports == PointsSum(data.series, |data.series|, Reports)
    ensures data.injuries == Some(PointsSum(data.series, |data.series|, Injuries))
    ensures data.fatalities == Some(PointsSum(data.series, |data.series|, Fatalities))
  {
    var days := PointDays(data.series);
    TalliesCovered(data, es);
    PointsSumRunning(data, es, |data.series|, Reports);
    PointsSumRunning(data, es, |data.series|, Injuries);
    PointsSumRunning(data, es, |data.series|, Fatalities);
    RunningAll(es, days, Reports);
    RunningAll(es, days, Injuries);
    RunningAll(es, days, Fatalities);
  }

  /** A line `filter((line) => line && line.trim())` keeps. */
  predicate NotBlank(line: string) {
    Trim(line) != []
  }

  /** The non-blank lines of the text, in order. */
  function Lines(text: string): (lines: seq<string>)
    ensures forall k :: 0 <= k < |lines| ==> !IsBlank(lines[k])
  {
    Filter(SplitLines(text), NotBlank)
  }

  /** The result `parseTornadoYear` gives for the entries its rows keep. */
  ghost predicate YearOf(data: YearData, entries: seq<Entry>, expectedYear: Option<int>) {
    if entries == [] then data == YearData(expectedYear, [], 0, Some(0), Some(0), None, None)
    else Summarizes(data, entries, expectedYear)
  }

  /** `parseTornadoYear(csvText, expectedYear)`: `Ok(None)` for a text with no non-blank
      line, `Err` with the missing required columns when the header lacks one, and
      otherwise the series of the rows after the header that are kept. */
  method ParseTornadoYear(text: string, expectedYear: Option<int>) returns (r: Result<Option<YearData>, seq<string>>)
    ensures Lines(text) == [] <==> r == Ok(None)
    ensures Lines(text) != [] ==>
      var header := Fields(Lines(text)[0]);
      && (r.Err? <==> Missing(header) != [])
      && (r.Err? ==> r.error == Missing(header))
      && (r.Ok? ==> r.value.Some? && LocateColumns(header).Ok?
                    && YearOf(r.value.value, Entries(Lines(text)[1..], LocateColumns(header).value, expectedYear), expectedYear))
  {
    var lines := Lines(text);
    if lines == [] {
      return Ok(None);
    }
    var header := SplitCsvLine(lines[0]);
    var located := LocateColumns(header);
    if located.Err? {
      return Err(located.error);
    }
    var entries := CollectEntries(lines, located.value, expectedYear);
    if entries == [] {
      return Ok(Some(YearData(expectedYear, [], 0, Some(0), Some(0), None, None)));
    }
    var data := Summarize(entries, expectedYear);
    return Ok(Some(data));
  }
}
