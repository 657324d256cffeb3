/** The tornado-trend handler around the yearly parser and the current-year cache: the
    requested span of years, the yearly datasets gathered over it, the current-year
    fallback, and the summary statistics of the years that are neither the current year
    nor the one it is compared with. */
module TornadoTrends {
  import opened Wrappers
  import opened Seqs
  import opened Text
  import opened Http
  import opened Calendar
  import opened TornadoYear
  import opened TornadoCache

  const DefaultStartYear := 2000
  const MaxRequestSpan := 40

  /** How far apart two years are. */
  function Distance(a: int, b: int): nat {
    if a <= b then b - a else a - b
  }

  /** The year `k` steps from the start of the run from `startYear` to `endYear`:
      `getYearRange` steps forward when the start is not after the end, else backward. */
  function Step(startYear: int, endYear: int, k: int): int {
    if startYear <= endYear then startYear + k else startYear - k
  }

  /** The run of years from `startYear` to `endYear`, both included, one step at a time
      in whichever direction leads there. */
  function Run(startYear: int, endYear: int): (range: seq<int>)
    ensures |range| == Distance(startYear, endYear) + 1
    ensures range[0] == startYear && range[|range| - 1] == endYear
  {
    var n := Distance(startYear, endYear) + 1;
    seq(n, k requires 0 <= k < n => Step(startYear, endYear, k))
  }

  /** The years of a run are exactly those between its two ends, each one step from the
      one before. */
  lemma {:induction false} RunMembers(startYear: int, endYear: int)
    ensures var range := Run(startYear, endYear);
      && (forall y :: y in range <==> (startYear <= y <= endYear || endYear <= y <= startYear))
      && (forall k :: 0 < k < |range| ==> range[k] == if startYear <= endYear then range[k - 1] + 1 else range[k - 1] - 1)
  {
    var range := Run(startYear, endYear);
    forall y | startYear <= y <= endYear || endYear <= y <= startYear
      ensures y in range
    {
      assert range[Distance(startYear, y)] == y;
    }
  }

  /** `getYearRange(startYear, endYear)`. */
  method YearRange(startYear: int, endYear: int) returns (range: seq<int>)
    ensures range == Run(startYear, endYear)
  {
    range := [];
    var direction := if startYear <= endYear then 1 else -1;
    var year := startYear;
    while if direction > 0 then year <= endYear else year >= endYear
      invariant direction == (if startYear <= endYear then 1 else -1)
      invariant year == Step(startYear, endYear, |range|)
      invariant |range| <= Distance(startYear, endYear) + 1
      invariant forall k :: 0 <= k < |range| ==> range[k] == Step(startYear, endYear, k)
      decreases if direction > 0 then endYear - year else year - endYear
    {
      range := range + [year];
      year := year + direction;
    }
  }

  /** What `computeEnsembleStats` reports: the mean, largest and smallest yearly total of
      the years it keeps, absent when it keeps none, and how many it keeps. */
  datatype Ensemble = Ensemble(averageTotal: Option<real>, maxTotal: Option<int>, minTotal: Option<int>, count: nat)

  /** A year the statistics keep: neither the current year nor the comparison year (an
      absent comparison year excludes a series whose year is absent). */
  predicate Historical(item: YearData, currentYear: int, comparisonYear: Option<int>) {
    item.year != Some(currentYear) && item.year != comparisonYear
  }

  function TotalsOf(items: seq<YearData>): (totals: seq<int>)
    ensures |totals| == |items|
    ensures forall k :: 0 <= k < |items| ==> totals[k] == items[k].totalReports
  {
    seq(|items|, k requires 0 <= k < |items| => items[k].totalReports)
  }

  function MaxOf(s: seq<int>): (m: int)
    requires s != []
    ensures m in s && forall k :: 0 <= k < |s| ==> s[k] <= m
  {
    if |s| == 1 then s[0]
    else
      var rest := MaxOf(s[..|s| - 1]);
      assert forall k :: 0 <= k < |s| - 1 ==> s[..|s| - 1][k] == s[k];
      if rest < s[|s| - 1] then s[|s| - 1] else rest
  }

  function MinOf(s: seq<int>): (m: int)
    requires s != []
    ensures m in s && forall k :: 0 <= k < |s| ==> m <= s[k]
  {
    if |s| == 1 then s[0]
    else
      var rest := MinOf(s[..|s| - 1]);
      assert forall k :: 0 <= k < |s| - 1 ==> s[..|s| - 1][k] == s[k];
      if s[|s| - 1] < rest then s[|s| - 1] else rest
  }

  /** The series the statistics keep, in order. */
  function Kept(years: seq<YearData>, currentYear: int, comparisonYear: Option<int>): (kept: seq<YearData>)
    ensures |kept| <= |years|
    ensures forall i :: 0 <= i < |kept| ==> kept[i] in years && Historical(kept[i], currentYear, comparisonYear)
  {
    if years == [] then []
    else (if Historical(years[0], currentYear, comparisonYear) then [years[0]] else []) + Kept(years[1..], currentYear, comparisonYear)
  }

  /** Every series of a year the statistics keep is kept. */
  lemma {:induction false} KeptHas(years: seq<YearData>, currentYear: int, comparisonYear: Option<int>, k: nat) returns (m: nat)
    requires k < |years| && Historical(years[k], currentYear, comparisonYear)
    ensures m < |Kept(years, currentYear, comparisonYear)| && Kept(years, currentYear, comparisonYear)[m] == years[k]
  {
    if k == 0 {
      m := 0;
    } else {
      var m' := KeptHas(years[1..], currentYear, comparisonYear, k - 1);
      m := m' + (if Historical(years[0], currentYear, comparisonYear) then 1 else 0);
    }
  }

  /** `computeEnsembleStats(yearlySeries, currentYear, comparisonYear)`. */
  function EnsembleStats(years: seq<YearData>, currentYear: int, comparisonYear: Option<int>): (e: Ensemble)
    ensures e.count == |Kept(years, currentYear, comparisonYear)|
    ensures e.count == 0 <==> e.averageTotal.None?
    ensures e.count == 0 <==> e.maxTotal.None?
    ensures e.count == 0 <==> e.minTotal.None?
  {
    var totals := TotalsOf(Kept(years, currentYear, comparisonYear));
    if totals == [] then Ensemble(None, None, None, 0)
    else Ensemble(Some(SumInt(totals) as real / |totals| as real), Some(MaxOf(totals)), Some(MinOf(totals)), |totals|)
  }

  /** The largest and smallest totals are those of kept years, bound the total of every
      kept year, and the mean lies between them. */
  lemma {:induction false} EnsembleBounds(years: seq<YearData>, currentYear: int, comparisonYear: Option<int>)
    requires EnsembleStats(years, currentYear, comparisonYear).count > 0
    ensures var e := EnsembleStats(years, currentYear, comparisonYear);
      && (exists k :: 0 <= k < |years| && Historical(years[k], currentYear, comparisonYear) && years[k].totalReports == e.maxTotal.value)
      && (exists k :: 0 <= k < |years| && Historical(years[k], currentYear, comparisonYear) && years[k].totalReports == e.minTotal.value)
      && (forall k :: 0 <= k < |years| && Historical(years[k], currentYear, comparisonYear) ==>
            e.minTotal.value <= years[k].totalReports <= e.maxTotal.value)
      && e.minTotal.value as real <= e.averageTotal.value <= e.maxTotal.value as real
  {
    var kept := Kept(years, currentYear, comparisonYear);
    var totals := TotalsOf(kept);
    var hi := MaxOf(totals);
    var lo := MinOf(totals);
    var i :| 0 <= i < |totals| && totals[i] == hi;
    assert kept[i] in years;
    var j :| 0 <= j < |totals| && totals[j] == lo;
    assert kept[j] in years;
    forall k | 0 <= k < |years| && Historical(years[k], currentYear, comparisonYear)
      ensures lo <= years[k].totalReports <= hi
    {
      var m := KeptHas(years, currentYear, comparisonYear, k);
      assert totals[m] == years[k].totalReports;
    }
    SumBetween(totals, lo, hi);
    MeanBetween(SumInt(totals), |totals|, lo, hi);
  }

  /** A sum of `n` values between `lo` and `hi` lies between `n * lo` and `n * hi`. */
  lemma {:induction false} SumBetween(s: seq<int>, lo: int, hi: int)
    requires forall k :: 0 <= k < |s| ==> lo <= s[k] <= hi
    ensures |s| * lo <= SumInt(s) <= |s| * hi
  {
    if s != [] {
      var front := s[..|s| - 1];
      assert forall k :: 0 <= k < |front| ==> front[k] == s[k];
      SumBetween(front, lo, hi);
      assert |s| * lo == |front| * lo + lo;
      assert |s| * hi == |front| * hi + hi;
    }
  }

  lemma {:induction false} MeanBetween(sum: int, n: nat, lo: int, hi: int)
    requires n > 0 && n * lo <= sum <= n * hi
    ensures lo as real <= sum as real / n as real <= hi as real
  {
    assert (n * lo) as real == n as real * lo as real;
    assert (n * hi) as real == n as real * hi as real;
  }

  /** A series whose year is the current year or the comparison year never moves the
      statistics. */
  lemma {:induction false} EnsembleIgnores(years: seq<YearData>, item: YearData, currentYear: int, comparisonYear: Option<int>)
    requires !Historical(item, currentYear, comparisonYear)
    ensures EnsembleStats(years + [item], currentYear, comparisonYear) == EnsembleStats(years, currentYear, comparisonYear)
    ensures EnsembleStats([item] + years, currentYear, comparisonYear) == EnsembleStats(years, currentYear, comparisonYear)
  {
    KeptAppendDropped(years, item, currentYear, comparisonYear);
    assert ([item] + years)[1..] == years;
    assert Kept([item] + years, currentYear, comparisonYear) == Kept(years, currentYear, comparisonYear);
  }

  lemma {:induction false} KeptAppendDropped(years: seq<YearData>, item: YearData, currentYear: int, comparisonYear: Option<int>)
    requires !Historical(item, currentYear, comparisonYear)
    ensures Kept(years + [item], currentYear, comparisonYear) == Kept(years, currentYear, comparisonYear)
  {
    if years == [] {
      assert [item][1..] == [];
    } else {
      assert (years + [item])[1..] == years[1..] + [item];
      KeptAppendDropped(years[1..], item, currentYear, comparisonYear);
    }
  }

  /** `computeLatestPoint(series)`. */
  function LatestPoint(series: seq<Point>): (p: Option<Point>)
    ensures p.None? <==> series == []
  {
    if series == [] then None else Some(series[|series| - 1])
  }

  /** The latest point of a series built from the daily files carries the series' total. */
  lemma {:induction false} LatestPointOfDailySeries(year: int, series: seq<Point>)
    requires series != []
    ensures LatestPoint(series).value.cumulative == SeriesData(year, series).totalReports
  {
  }

  /** The latest point of a year parsed from the database carries the year's total, the
      number of kept rows. */
  lemma {:induction false} LatestPointOfYear(data: YearData, entries: seq<Entry>)
    requires Tallies(data, entries)
    ensures LatestPoint(data.series).Some?
    ensures LatestPoint(data.series).value.cumulative == data.totalReports == |entries|
  {
  }

  /** The span of years a request asks for. */
  datatype Span = Span(startYear: int, endYear: int)

  /** A query parameter read with `Number.parseInt(value, 10)`; an absent parameter reads
      as NaN. */
  function ParamInt(param: Option<string>): Option<int> {
    match param
    case None => None
    case Some(text) => ParseInt(text)
  }

  /** The years a request asks for: the end year is the requested current year, else the
      year of today; the start year is the requested one raised to 2000, else 2000; a span
      wider than 40 years is refused with status 400. */
  function ResolveSpan(currentYearParam: Option<string>, startYearParam: Option<string>, todayYear: int): (r: Result<Span, Failure>)
    ensures r.Err? ==> r.error == Failure(Some(400))
    ensures var endYear := ParamInt(currentYearParam).GetOr(todayYear);
      var startYear := if ParamInt(startYearParam).Some? && ParamInt(startYearParam).value > DefaultStartYear
                       then ParamInt(startYearParam).value else DefaultStartYear;
      r.Err? <==> endYear - startYear > MaxRequestSpan
    ensures r.Ok? ==> r.value.startYear >= DefaultStartYear && r.value.endYear - r.value.startYear <= MaxRequestSpan
    ensures r.Ok? ==> r.value.endYear == ParamInt(currentYearParam).GetOr(todayYear)
    ensures r.Ok? && ParamInt(startYearParam).Some? && ParamInt(startYearParam).value >= DefaultStartYear
      ==> r.value.startYear == ParamInt(startYearParam).value
    ensures r.Ok? && (ParamInt(startYearParam).None? || ParamInt(startYearParam).value < DefaultStartYear)
      ==> r.value.startYear == DefaultStartYear
  {
    var endYear := match ParamInt(currentYearParam) case Some(y) => y case None => todayYear;
    var startYear := match ParamInt(startYearParam)
      case Some(y) => if y > DefaultStartYear then y else DefaultStartYear
      case None => DefaultStartYear;
    if endYear - startYear > MaxRequestSpan then Err(Failure(Some(400))) else Ok(Span(startYear, endYear))
  }

  /** A year the response lists as missing: its status (404 when the dataset is not yet
      published) and whether it was the "not yet available" case. */
  datatype MissingYear = MissingYear(year: int, status: int, notYetAvailable: bool)

  /** A year's dataset is used when it was read and has at least one day. */
  predicate Usable(outcome: Result<Option<YearData>, Failure>) {
    outcome.Ok? && outcome.value.Some? && outcome.value.value.series != []
  }

  /** The entry for a failed fetch: a 404 is "not yet available", any other failure keeps
      its status or 500. */
  function Missing(year: int, f: Failure): (m: MissingYear)
    ensures m.notYetAvailable <==> f.status == Some(404)
    ensures m.status == ErrorStatus(f) && m.year == year
  {
    if f.status == Some(404) then MissingYear(year, 404, true) else MissingYear(year, ErrorStatus(f), false)
  }

  /** The datasets gathered over the years, in the order of the years. */
  function Gathered(range: seq<int>, fetchYear: int -> Result<Option<YearData>, Failure>): (found: seq<YearData>)
    ensures forall k :: 0 <= k < |found| ==> found[k].series != []
  {
    if range == [] then []
    else
      var front := Gathered(range[..|range| - 1], fetchYear);
      var outcome := fetchYear(range[|range| - 1]);
      if Usable(outcome) then front + [outcome.value.value] else front
  }

  /** The failed years, in the order of the years. */
  function Failed(range: seq<int>, fetchYear: int -> Result<Option<YearData>, Failure>): (missing: seq<MissingYear>)
    ensures forall k :: 0 <= k < |missing| ==> missing[k].year in range
  {
    if range == [] then []
    else
      var front := Failed(range[..|range| - 1], fetchYear);
      var year := range[|range| - 1];
      assert forall y :: y in range[..|range| - 1] ==> y in range;
      match fetchYear(year)
      case Err(f) => front + [Missing(year, f)]
      case Ok(_) => front
  }

  /** The years that were read but hold no day (or no header row). */
  function Quiet(range: seq<int>, fetchYear: int -> Result<Option<YearData>, Failure>): nat {
    if range == [] then 0
    else
      var outcome := fetchYear(range[|range| - 1]);
      Quiet(range[..|range| - 1], fetchYear) + (if outcome.Ok? && !Usable(outcome) then 1 else 0)
  }

  /** Every year lands in exactly one place: the datasets, the missing years, or neither
      when it was read but empty. */
  lemma {:induction false} GatheredPartition(range: seq<int>, fetchYear: int -> Result<Option<YearData>, Failure>)
    ensures |Gathered(range, fetchYear)| + |Failed(range, fetchYear)| + Quiet(range, fetchYear) == |range|
  {
    if range != [] {
      GatheredPartition(range[..|range| - 1], fetchYear);
    }
  }

  /** The loop over the years: each year's dataset is fetched; a usable one is kept, a
      failure is recorded. */
  method GatherYears(range: seq<int>, fetchYear: int -> Result<Option<YearData>, Failure>)
    returns (found: seq<YearData>, missing: seq<MissingYear>)
    ensures found == Gathered(range, fetchYear) && missing == Failed(range, fetchYear)
  {
    found, missing := [], [];
    var i := 0;
    while i < |range|
      invariant 0 <= i <= |range|
      invariant found == Gathered(range[..i], fetchYear) && missing == Failed(range[..i], fetchYear)
      decreases |range| - i
    {
      assert range[..i + 1][..i] == range[..i];
      var year := range[i];
      match fetchYear(year) {
        case Ok(data) =>
          if data.Some? && data.value.series != [] {
            found := found + [data.value];
          }
        case Err(f) =>
          missing := missing + [Missing(year, f)];
      }
      i := i + 1;
    }
    assert range[..i] == range;
  }

  /** `(a, b) => a.year - b.year`: an absent year counts as 0. */
  predicate ByYear(a: YearData, b: YearData) {
    a.year.GetOr(0) <= b.year.GetOr(0)
  }

  lemma {:induction false} ByYearOrders()
    ensures TotalPreorder(ByYear)
  {
  }

  /** `items.find(item => item.year === year)`. */
  function FindYear(items: seq<YearData>, year: Option<int>): (r: Option<YearData>)
    ensures r.None? <==> forall k :: 0 <= k < |items| ==> items[k].year != year
    ensures r.Some? ==> exists k :: 0 <= k < |items| && items[k] == r.value && items[k].year == year &&
                                    forall j :: 0 <= j < k ==> items[j].year != year
  {
    if items == [] then None
    else if items[0].year == year then Some(items[0])
    else
      var r := FindYear(items[1..], year);
      assert forall k :: 1 <= k < |items| ==> items[1..][k - 1] == items[k];
      r
  }

  /** `currentSeries`: the first dataset of the current year, or else the first of the
      greatest year, the last one listed. */
  function CurrentDataset(years: seq<YearData>, currentYear: int): (d: YearData)
    requires years != []
    ensures d in years
    ensures FindYear(years, Some(currentYear)).Some? ==> d == FindYear(years, Some(currentYear)).value
    ensures FindYear(years, Some(currentYear)).None? ==> FindYear(years, years[|years| - 1].year) == Some(d)
  {
    match FindYear(years, Some(currentYear))
    case Some(d) => d
    case None =>
      var greatest := FindYear(years, years[|years| - 1].year);
      assert greatest.Some? by {
        assert years[|years| - 1].year == years[|years| - 1].year;
      }
      greatest.value
  }

  /** What the handler answers. */
  datatype Response =
    | Refused(status: int)
    | NoneAvailable(startYear: int, endYear: int, missingYears: seq<MissingYear>)
    | Trends(startYear: int, currentYear: int, comparisonYear: Option<int>, currentLatestPoint: Option<Point>,
             ensembleStats: Ensemble, years: seq<YearData>, missingYears: seq<MissingYear>)

  /** Whether the current-year fallback is tried: the span ends in today's year and no
      dataset of that year was read. */
  predicate NeedsFallback(found: seq<YearData>, endYear: int, today: Date) {
    (forall k :: 0 <= k < |found| ==> found[k].year != Some(endYear)) && endYear == today.year
  }

  /** The answer built from the datasets `found` and the failures `missing`: the 404 exactly
      when there is no dataset; otherwise the years are the datasets sorted by year, the
      comparison year is last year exactly when it was read, the statistics are over the
      other years, and the latest point is that of the current year's dataset, or else of
      the greatest year's. */
  predicate AnswerFor(response: Response, startYear: int, endYear: int, found: seq<YearData>, missing: seq<MissingYear>) {
    && (response.Trends? || response.NoneAvailable?)
    && (found == [] <==> response.NoneAvailable?)
    && (response.NoneAvailable? ==> response == NoneAvailable(startYear, endYear, missing))
    && (response.Trends? ==>
      && multiset(response.years) == multiset(found)
      && Sorted(response.years, ByYear)
      && (forall k :: 0 <= k < |response.years| ==> response.years[k].series != [])
      && response.startYear == startYear && response.currentYear == endYear
      && response.missingYears == missing
      && (response.comparisonYear.Some? <==> exists k :: 0 <= k < |found| && found[k].year == Some(endYear - 1))
      && (response.comparisonYear.Some? ==> response.comparisonYear.value == endYear - 1)
      && response.ensembleStats == EnsembleStats(response.years, endYear, response.comparisonYear)
      && response.currentLatestPoint.Some?
      && response.currentLatestPoint == LatestPoint(CurrentDataset(response.years, endYear).series))
  }

  /** The answer once the datasets are gathered, the fallback included. */
  method Summarize(startYear: int, endYear: int, found: seq<YearData>, missing: seq<MissingYear>)
    returns (response: Response)
    requires forall k :: 0 <= k < |found| ==> found[k].series != []
    ensures AnswerFor(response, startYear, endYear, found, missing)
  {
    if found == [] {
      return NoneAvailable(startYear, endYear, missing);
    }
    ByYearOrders();
    var years := SortBy(found, ByYear);
    var comparisonYear: Option<int> := None;
    if exists k :: 0 <= k < |years| && years[k].year == Some(endYear - 1) {
      comparisonYear := Some(endYear - 1);
    }
    SameYears(found, years, Some(endYear - 1));
    SameYears(found, years, Some(endYear));
    var current := CurrentDataset(years, endYear);
    var latest := LatestPoint(current.series);
    var ensemble := EnsembleStats(years, endYear, comparisonYear);
    response := Trends(startYear, endYear, comparisonYear, latest, ensemble, years, missing);
  }

  /** A permutation holds a dataset of a year exactly when the original does; every
      dataset of the permutation has a day. */
  lemma {:induction false} SameYears(found: seq<YearData>, years: seq<YearData>, year: Option<int>)
    requires multiset(years) == multiset(found)
    requires forall k :: 0 <= k < |found| ==> found[k].series != []
    ensures (exists k :: 0 <= k < |years| && years[k].year == year) <==> (exists k :: 0 <= k < |found| && found[k].year == year)
    ensures forall k :: 0 <= k < |years| ==> years[k].series != []
  {
    forall k | 0 <= k < |years|
      ensures years[k] in found
    {
      assert years[k] in multiset(found);
    }
    forall k | 0 <= k < |found|
      ensures found[k] in years
    {
      assert found[k] in multiset(years);
    }
  }

  /** The datasets and failures once the current-year fallback's build is known: a build
      with a day is added, a failed one listed as a missing year with its status. */
  function WithBuilt(found: seq<YearData>, missing: seq<MissingYear>, year: int, built: Result<YearData, Failure>)
    : (r: (seq<YearData>, seq<MissingYear>))
    ensures r.0 == found || (built.Ok? && built.value.series != [] && r.0 == found + [built.value])
    ensures r.1 == missing || (built.Err? && r.1 == missing + [MissingYear(year, ErrorStatus(built.error), false)])
    ensures built.Ok? ==> r.1 == missing
    ensures built.Err? ==> r.0 == found
  {
    match built
    case Ok(data) => (if data.series != [] then found + [data] else found, missing)
    case Err(f) => (found, missing + [MissingYear(year, ErrorStatus(f), false)])
  }

  /** The current-year fallback: the series built from the daily files, or taken from the
      cache, is added when it has a day, and a failure is listed as a missing year. */
  method AddCurrentYear(cache: YearCache, year: int, today: Date, fetchDay: int -> Result<nat, Failure>,
                        found: seq<YearData>, missing: seq<MissingYear>)
    returns (found': seq<YearData>, missing': seq<MissingYear>)
    modifies cache
    ensures (found', missing') == WithBuilt(found, missing, year, old(cache.Built(year, today, fetchDay)))
    ensures old(cache.Built(year, today, fetchDay)).Err? ==> cache.entries == old(cache.entries)
  {
    found', missing' := found, missing;
    var built := cache.BuildCurrentYearSeries(year, today, fetchDay);
    match built {
      case Ok(data) =>
        if data.series != [] {
          found' := found + [data];
        }
      case Err(f) =>
        missing' := missing + [MissingYear(year, ErrorStatus(f), false)];
    }
  }

  /** The datasets and failures the answer is built from: those of the years of the span,
      and the fallback's outcome when it is tried. */
  function Collected(span: Span, today: Date, fetchYear: int -> Result<Option<YearData>, Failure>,
                     built: Result<YearData, Failure>): (seq<YearData>, seq<MissingYear>)
  {
    var range := Run(span.startYear, span.endYear);
    var found := Gathered(range, fetchYear);
    var missing := Failed(range, fetchYear);
    if NeedsFallback(found, span.endYear, today) then WithBuilt(found, missing, span.endYear, built)
    else (found, missing)
  }

  /** The handler once the span is known: the years of the span are fetched, the cache
      is consulted only for the fallback, with nothing to show the answer is the 404, and
      otherwise the years are every dataset collected, in year order, with every failure
      listed as a missing year. */
  method RespondForSpan(cache: YearCache, span: Span, today: Date,
                        fetchYear: int -> Result<Option<YearData>, Failure>, fetchDay: int -> Result<nat, Failure>)
    returns (response: Response)
    modifies cache
    ensures var found := Gathered(Run(span.startYear, span.endYear), fetchYear);
      !NeedsFallback(found, span.endYear, today) ==>
        cache.entries == old(cache.entries) && cache.requested == old(cache.requested)
    ensures var collected := Collected(span, today, fetchYear, old(cache.Built(span.endYear, today, fetchDay)));
      AnswerFor(response, span.startYear, span.endYear, collected.0, collected.1)
  {
    var range := YearRange(span.startYear, span.endYear);
    var found, missing := GatherYears(range, fetchYear);
    ghost var built := cache.Built(span.endYear, today, fetchDay);
    if (forall k :: 0 <= k < |found| ==> found[k].year != Some(span.endYear)) && span.endYear == today.year {
      found, missing := AddCurrentYear(cache, span.endYear, today, fetchDay, found, missing);
    }
    assert (found, missing) == Collected(span, today, fetchYear, built);
    response := Summarize(span.startYear, span.endYear, found, missing);
  }

  /** The handler, from its query parameters on: `fetchYear` stands for
      `fetchTornadoYear`, `fetchDay` for the daily fetch of the cache, `today` for the
      UTC date of the request. A refused span is answered with its status before anything
      is fetched. */
  method Respond(cache: YearCache, currentYearParam: Option<string>, startYearParam: Option<string>, today: Date,
                 fetchYear: int -> Result<Option<YearData>, Failure>, fetchDay: int -> Result<nat, Failure>)
    returns (response: Response)
    modifies cache
    ensures ResolveSpan(currentYearParam, startYearParam, today.year).Err? ==>
      response == Refused(400) && cache.entries == old(cache.entries) && cache.requested == old(cache.requested)
    ensures ResolveSpan(currentYearParam, startYearParam, today.year).Ok? ==>
      var span := ResolveSpan(currentYearParam, startYearParam, today.year).value;
      var collected := Collected(span, today, fetchYear, old(cache.Built(span.endYear, today, fetchDay)));
      AnswerFor(response, span.startYear, span.endYear, collected.0, collected.1)
  {
    var span := ResolveSpan(currentYearParam, startYearParam, today.year);
    if span.Err? {
      return Refused(ErrorStatus(span.error));
    }
    response := RespondForSpan(cache, span.value, today, fetchYear, fetchDay);
  }
}
