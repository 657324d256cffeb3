/** `buildCurrentYearSeriesFromDaily`, the current-year fallback of the tornado-trend
    handler: while the year's database file is not yet published, the year's series is
    built from the daily report files, one request per day, and kept in a cache keyed by
    year so that a later request fetches only the days after the last one cached. */
module TornadoCache {
  import opened Wrappers
  import opened Seqs
  import opened Http
  import opened Calendar
  import opened TornadoDates
  import opened TornadoYear
  import opened SpcFormat
  import opened TornadoDaily

  /** What the cache holds for a year: the day its `lastDate` text names, as a day
      number, and the series built so far. */
  datatype CacheEntry = CacheEntry(lastDay: int, data: YearData)

  /** `Date.UTC(year, 0, 1)` as a day number. */
  function YearStart(year: int): int {
    DateUtc(year, 0, 1)
  }

  /** The last day to fetch, as a day number: today in the current year, December 31 in
      any other. */
  function TargetEnd(year: int, today: Date): int {
    if year == today.year then DateUtc(today.year, today.month - 1, today.day)
    else DateUtc(year, 11, 31)
  }

  /** The days from `first` through `last`; none when `first` is later. */
  function DaysFrom(first: int, last: int): (ds: seq<int>)
    ensures |ds| == if first <= last then last - first + 1 else 0
    ensures forall k :: 0 <= k < |ds| ==> ds[k] == first + k
  {
    var n := if first <= last then last - first + 1 else 0;
    seq(n, k requires 0 <= k < n => first + k)
  }

  /** As calendar dates, the days run from `first` to `last`, each the day after the
      one before. */
  lemma {:induction false} DaysFromRun(first: int, last: int)
    requires first <= last
    ensures var ds := DaysFrom(first, last);
      && ds != [] && ds[0] == first && ds[|ds| - 1] == last
      && forall k :: 0 <= k < |ds| - 1 ==> FromDayNumber(ds[k + 1]) == AddDays(FromDayNumber(ds[k]), 1)
  {
    var ds := DaysFrom(first, last);
    forall k | 0 <= k < |ds| - 1
      ensures FromDayNumber(ds[k + 1]) == AddDays(FromDayNumber(ds[k]), 1)
    {
      DayNumberInjective(FromDayNumber(ds[k + 1]), AddDays(FromDayNumber(ds[k]), 1));
    }
  }

  /** The `catch` around each daily fetch: a failure with status 404 counts as 0. */
  function Recover(outcome: Result<nat, Failure>): (r: Result<nat, Failure>)
    ensures r.Err? <==> outcome.Err? && outcome.error.status != Some(404)
    ensures r.Ok? && outcome.Ok? ==> r == outcome
  {
    if outcome.Err? && outcome.error.status == Some(404) then Ok(0) else outcome
  }

  /** The daily counts of the days, in day order, or the failure of the first day whose
      fetch fails with a status other than 404. */
  function FetchAll(days: seq<int>, fetch: int -> Result<nat, Failure>): (r: Result<seq<nat>, Failure>)
    ensures r.Ok? <==> forall k :: 0 <= k < |days| ==> Recover(fetch(days[k])).Ok?
    ensures r.Ok? ==> |r.value| == |days| && forall k :: 0 <= k < |days| ==> r.value[k] == Recover(fetch(days[k])).value
  {
    if days == [] then Ok([])
    else
      var front := FetchAll(days[..|days| - 1], fetch);
      var last := Recover(fetch(days[|days| - 1]));
      assert forall k :: 0 <= k < |days| - 1 ==> days[..|days| - 1][k] == days[k];
      if front.Err? then front
      else if last.Err? then Err(last.error)
      else Ok(front.value + [last.value])
  }

  /** A failing fetch reports the failure of the earliest failing day. */
  lemma {:induction false} FetchAllFirstFailure(days: seq<int>, fetch: int -> Result<nat, Failure>, i: nat)
    requires i < |days| && Recover(fetch(days[i])).Err?
    requires forall k :: 0 <= k < i ==> Recover(fetch(days[k])).Ok?
    ensures FetchAll(days, fetch) == Err(Recover(fetch(days[i])).error)
  {
    var front := days[..|days| - 1];
    if i < |days| - 1 {
      assert front[i] == days[i];
      assert forall k :: 0 <= k < i ==> front[k] == days[k];
      FetchAllFirstFailure(front, fetch, i);
    } else {
      assert forall k :: 0 <= k < |front| ==> front[k] == days[k];
    }
  }

  /** With the real daily fetch the 404 branch never applies. */
  lemma {:induction false} RecoverDailyFetch(day: int, respond: string -> Option<Reply>)
    ensures Recover(FetchDailyCount(FromDayNumber(day), respond)) == FetchDailyCount(FromDayNumber(day), respond)
  {
    FetchNeverFailsWith404(ReportCandidates(FromDayNumber(day)), respond);
  }

  /** The cumulative count a series ends with, 0 for no series. */
  function Carry(series: seq<Point>): int {
    if series == [] then 0 else series[|series| - 1].cumulative
  }

  /** The day of the year and the `YYYY-MM-DD` date a point carries. */
  datatype Stamp = Stamp(dayOfYear: int, date: string)

  /** The stamp of a fetched day: `dayOfYearFromParts` and `formatIsoDate` of the day's
      UTC calendar date. */
  function StampOf(day: int): Stamp {
    var date := FromDayNumber(day);
    Stamp(DayOfYearFromParts(date.year, date.month, date.day), FormatIsoDate(date))
  }

  /** The running count of the first `n` fetched days. */
  function Cum(counts: seq<nat>, n: nat): int
    requires n <= |counts|
  {
    if n == 0 then 0 else Cum(counts, n - 1) + counts[n - 1]
  }

  /** The points of the fetched days, stamped by `stamp`: each day's count, and the count
      carried in plus the counts of the days through this one. */
  function Points(carry: int, days: seq<int>, counts: seq<nat>, stamp: int -> Stamp): (ps: seq<Point>)
    requires |counts| == |days|
    ensures |ps| == |days|
  {
    seq(|days|, k requires 0 <= k < |days| =>
      Point(stamp(days[k]).dayOfYear, stamp(days[k]).date, carry + Cum(counts, k + 1), counts[k], None, None))
  }

  /** Each new point adds its day's count to the cumulative count of the point before,
      the first one to the count carried in. */
  lemma {:induction false} PointsAccumulate(carry: int, days: seq<int>, counts: seq<nat>, stamp: int -> Stamp, k: nat)
    requires |counts| == |days| && k < |days|
    ensures var ps := Points(carry, days, counts, stamp);
      && ps[k].daily == counts[k]
      && ps[k].cumulative == (if k == 0 then carry else ps[k - 1].cumulative) + ps[k].daily
  {
    var ps := Points(carry, days, counts, stamp);
    assert ps[k].cumulative == carry + Cum(counts, k + 1);
    if k > 0 {
      assert ps[k - 1].cumulative == carry + Cum(counts, k);
    }
  }

  /** The running count of all the days is their sum. */
  lemma {:induction false} CumIsSum(counts: seq<nat>, n: nat)
    requires n <= |counts|
    ensures Cum(counts, n) == SumInt(counts[..n])
  {
    if n > 0 {
      CumIsSum(counts, n - 1);
      SumIntStep(counts, n - 1);
    }
  }

  /** Extending a series carries its cumulative count forward by the new counts. */
  lemma {:induction false} CarryForward(base: seq<Point>, days: seq<int>, counts: seq<nat>, stamp: int -> Stamp)
    requires |counts| == |days|
    ensures Carry(base + Points(Carry(base), days, counts, stamp)) == Carry(base) + SumInt(counts)
  {
    CumIsSum(counts, |counts|);
    assert counts[..|counts|] == counts;
    if days == [] {
      assert base + Points(Carry(base), days, counts, stamp) == base;
    }
  }

  /** The result for a year's series: no injury or fatality figures, and the first and
      last dates of the series. */
  function SeriesData(year: int, series: seq<Point>): (data: YearData)
    ensures data.totalReports == Carry(series)
  {
    YearData(Some(year), series, Carry(series), None, None,
             if series != [] then Some(series[0].date) else None,
             if series != [] then Some(series[|series| - 1].date) else None)
  }

  /** The loop that lists the days to fetch, from `first` through `last`. */
  method DaysToFetch(first: int, last: int) returns (days: seq<int>)
    ensures days == DaysFrom(first, last)
  {
    days := [];
    var day := first;
    while day <= last
      invariant day == first + |days|
      invariant first <= last + 1 ==> day <= last + 1
      invariant first > last ==> days == []
      invariant forall k :: 0 <= k < |days| ==> days[k] == first + k
      decreases last - day
    {
      days := days + [day];
      day := day + 1;
    }
  }

  /** The sequential form of the concurrent fetch of every day: every day is requested,
      and the outcome is `FetchAll`. */
  method FetchCounts(days: seq<int>, fetch: int -> Result<nat, Failure>) returns (r: Result<seq<nat>, Failure>)
    ensures r == FetchAll(days, fetch)
  {
    var counts: seq<nat> := [];
    var failure: Option<Failure> := None;
    var i := 0;
    while i < |days|
      invariant 0 <= i <= |days|
      invariant FetchAll(days[..i], fetch) == if failure.Some? then Err(failure.value) else Ok(counts)
      decreases |days| - i
    {
      assert days[..i + 1][..i] == days[..i];
      var outcome := fetch(days[i]);
      if outcome.Err? && outcome.error.status == Some(404) {
        outcome := Ok(0);
      }
      if failure.None? {
        match outcome
        case Err(f) => failure := Some(f);
        case Ok(c) => counts := counts + [c];
      }
      i := i + 1;
    }
    assert days[..i] == days;
    r := if failure.Some? then Err(failure.value) else Ok(counts);
  }

  /** The `forEach` that appends one point per fetched day. */
  method AppendPoints(series: seq<Point>, cumulative: int, days: seq<int>, counts: seq<nat>, stamp: int -> Stamp)
    returns (extended: seq<Point>, total: int)
    requires |counts| == |days|
    ensures extended == series + Points(cumulative, days, counts, stamp)
    ensures total == cumulative + Cum(counts, |counts|)
  {
    extended := series;
    total := cumulative;
    var i := 0;
    while i < |days|
      invariant 0 <= i <= |days|
      invariant |extended| == |series| + i
      invariant extended[..|series|] == series
      invariant forall k :: 0 <= k < i ==> extended[|series| + k] == Points(cumulative, days, counts, stamp)[k]
      invariant total == cumulative + Cum(counts, i)
      decreases |days| - i
    {
      var s := stamp(days[i]);
      total := total + counts[i];
      extended := extended + [Point(s.dayOfYear, s.date, total, counts[i], None, None)];
      i := i + 1;
    }
  }

  /** The tail of the build once every day is fetched: the points appended to the
      series, and the result assembled from the extended series and the running count. */
  method ExtendSeries(year: int, series: seq<Point>, cumulative: int, days: seq<int>, counts: seq<nat>,
                      stamp: int -> Stamp)
    returns (data: YearData)
    requires |counts| == |days| && cumulative == Carry(series)
    ensures data == SeriesData(year, series + Points(cumulative, days, counts, stamp))
  {
    var extended, total := AppendPoints(series, cumulative, days, counts, stamp);
    CarryForward(series, days, counts, stamp);
    CumIsSum(counts, |counts|);
    assert counts[..|counts|] == counts;
    data := YearData(Some(year), extended, total, None, None,
                     if extended != [] then Some(extended[0].date) else None,
                     if extended != [] then Some(extended[|extended| - 1].date) else None);
  }

  /** What a build that fetches `days` returns: the failure of the first day that fails,
      or the result for `base` extended by the points of the fetched days. */
  function Rebuilt(year: int, base: seq<Point>, days: seq<int>, fetch: int -> Result<nat, Failure>): Result<YearData, Failure> {
    match FetchAll(days, fetch)
    case Err(f) => Err(f)
    case Ok(counts) => Ok(SeriesData(year, base + Points(Carry(base), days, counts, StampOf)))
  }

  /** A successful build keeps the cached series as its prefix, adds one point per
      fetched day carrying that day's count, and totals the carried count plus the counts
      of the fetched days. */
  lemma {:induction false} RebuiltExtends(year: int, base: seq<Point>, days: seq<int>, fetch: int -> Result<nat, Failure>)
    requires Rebuilt(year, base, days, fetch).Ok?
    ensures var data := Rebuilt(year, base, days, fetch).value;
      var counts := FetchAll(days, fetch).value;
      && |data.series| == |base| + |days|
      && data.series[..|base|] == base
      && data.totalReports == Carry(base) + SumInt(counts)
      && forall k :: 0 <= k < |days| ==> data.series[|base| + k].daily == Recover(fetch(days[k])).value
  {
    var counts := FetchAll(days, fetch).value;
    var ps := Points(Carry(base), days, counts, StampOf);
    var series := base + ps;
    CarryForward(base, days, counts, StampOf);
    assert series[..|base|] == base;
    forall k | 0 <= k < |days|
      ensures series[|base| + k].daily == Recover(fetch(days[k])).value
    {
      assert series[|base| + k] == ps[k];
      PointsAccumulate(Carry(base), days, counts, StampOf, k);
    }
  }

  /** Fetching the days and extending the series, the part of a build after the cache
      lookup. */
  method FetchAndExtend(year: int, series: seq<Point>, cumulative: int, days: seq<int>,
                        fetch: int -> Result<nat, Failure>)
    returns (r: Result<YearData, Failure>)
    requires cumulative == Carry(series)
    ensures r == Rebuilt(year, series, days, fetch)
  {
    var fetched := FetchCounts(days, fetch);
    if fetched.Err? {
      return Err(fetched.error);
    }
    var data := ExtendSeries(year, series, cumulative, days, fetched.value, StampOf);
    r := Ok(data);
  }

  /** The cache shared by the handler's invocations, keyed by year; `requested` records
      the days whose report files have been requested, in order. */
  class YearCache {
    var entries: map<int, CacheEntry>
    ghost var requested: seq<int>

    constructor()
      ensures entries == map[] && requested == []
    {
      entries := map[];
      requested := [];
    }

    /** The cache has the year through day `end` or later. */
    predicate Hit(year: int, end: int)
      reads this
    {
      year in entries && entries[year].lastDay >= end
    }

    /** The cached series a build extends, empty when the year is not cached. */
    function BaseSeries(year: int): seq<Point>
      reads this
    {
      if year in entries then entries[year].data.series else []
    }

    /** The first day a build fetches: the day after the cached last date, or January 1. */
    function FetchStart(year: int): int
      reads this
    {
      if year in entries then entries[year].lastDay + 1 else YearStart(year)
    }

    /** What a build of `year` gives from the cache as it stands: the cached data on a hit,
        otherwise the cached series extended by the days from `FetchStart` through the
        target end. */
    function Built(year: int, today: Date, fetch: int -> Result<nat, Failure>): Result<YearData, Failure>
      reads this
    {
      var end := TargetEnd(year, today);
      if Hit(year, end) then Ok(entries[year].data)
      else Rebuilt(year, BaseSeries(year), DaysFrom(FetchStart(year), end), fetch)
    }

    /** `buildCurrentYearSeriesFromDaily(year, todayUtc)` with the daily fetch abstracted
        as `fetch`, from day numbers to counts or failures. On a cache hit the cached data
        is returned and nothing is requested. Otherwise the days from `FetchStart` through
        the target end are requested; if one fails the failure is returned and the cache is
        left as it was, else their points are appended to the cached series with the count
        carried forward and the cache records the target end as its last date. */
    method BuildCurrentYearSeries(year: int, today: Date, fetch: int -> Result<nat, Failure>)
      returns (r: Result<YearData, Failure>)
      modifies this
      ensures r == old(Built(year, today, fetch))
      ensures var end := TargetEnd(year, today);
        if old(Hit(year, end)) then
          r == Ok(old(entries)[year].data) && entries == old(entries) && requested == old(requested)
        else
          var days := DaysFrom(old(FetchStart(year)), end);
          && requested == old(requested) + days
          && r == Rebuilt(year, old(BaseSeries(year)), days, fetch)
          && entries == if r.Ok? then old(entries)[year := CacheEntry(end, r.value)] else old(entries)
    {
      var end := TargetEnd(year, today);
      var series: seq<Point> := [];
      var cumulative := 0;
      var first := YearStart(year);
      if year in entries {
        var cached := entries[year];
        if cached.data.series != [] {
          series := cached.data.series;
          cumulative := series[|series| - 1].cumulative;
        }
        var cachedDay := cached.lastDay;
        if cachedDay >= end {
          return Ok(cached.data);
        }
        first := cachedDay + 1;
      }
      r := Extend(year, end, first, series, cumulative, fetch);
    }

    /** A cache miss: the days from `first` through `end` requested and fetched, and the
        extended series stored when every fetch succeeds. */
    method Extend(year: int, end: int, first: int, series: seq<Point>, cumulative: int,
                  fetch: int -> Result<nat, Failure>)
      returns (r: Result<YearData, Failure>)
      modifies this
      requires first == FetchStart(year) && series == BaseSeries(year) && cumulative == Carry(series)
      ensures var days := DaysFrom(old(FetchStart(year)), end);
        && requested == old(requested) + days
        && r == Rebuilt(year, old(BaseSeries(year)), days, fetch)
        && entries == if r.Ok? then old(entries)[year := CacheEntry(end, r.value)] else old(entries)
    {
      var days := DaysToFetch(first, end);
      requested := requested + days;
      r := FetchAndExtend(year, series, cumulative, days, fetch);
      if r.Ok? {
        entries := entries[year := CacheEntry(end, r.value)];
      }
    }
  }
}
