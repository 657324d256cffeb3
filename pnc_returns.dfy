/** The return table of the P&C insurance dashboard: for each period name
    the return from a reference close to the last close, where the
    reference is a fixed number of trading days back or the first close of
    the current year. */
module PncReturns {
  import opened Wrappers
  import PropertyCasualtyMetrics

  /** `calculate_returns`: no reference position or a negative one, and a
      missing or zero reference close, give `None`; otherwise the relative
      change from the reference close to `current`. */
  function CalculateReturns(series: seq<Option<real>>, idx: Option<int>, current: real): (r: Option<real>)
    requires idx.Some? ==> idx.value < |series|
    ensures r.Some? <==>
      idx.Some? && idx.value >= 0 && series[idx.value].Some? && series[idx.value].value != 0.0
    ensures r.Some? ==> (1.0 + r.value) * series[idx.value].value == current
  {
    if idx.None? || idx.value < 0 then None
    else
      var prior := series[idx.value];
      if prior.None? || prior.value == 0.0 then None
      else
        var x := current / prior.value - 1.0;
        assert (1.0 + x) * prior.value == current;
        Some(x)
  }

  /** A row of the history once rows without a close are dropped: the year
      of its date and its close. */
  datatype Bar = Bar(year: int, close: real)

  /** The close column. */
  function Closes(bars: seq<Bar>): (r: seq<Option<real>>)
    ensures |r| == |bars|
    ensures forall i :: 0 <= i < |bars| ==> r[i] == Some(bars[i].close)
  {
    seq(|bars|, i requires 0 <= i < |bars| => Some(bars[i].close))
  }

  /** `mask.idxmax()` over `date >= Jan 1 of year`: the first bar dated in
      `year` or later. */
  function FirstFromYear(bars: seq<Bar>, year: int): (r: Option<nat>)
    ensures r.None? <==> forall i :: 0 <= i < |bars| ==> bars[i].year < year
    ensures r.Some? ==> r.value < |bars| && bars[r.value].year >= year
    ensures r.Some? ==> forall j :: 0 <= j < r.value ==> bars[j].year < year
  {
    if bars == [] then None
    else if bars[0].year >= year then Some(0)
    else
      match FirstFromYear(bars[1..], year)
      case None => None
      case Some(i) => Some(i + 1)
  }

  /** A period name and its lookback in trading days; the YTD period has
      none. */
  datatype Period = Period(name: string, lookback: Option<nat>)

  const Ytd := "YTD"

  /** The reference position of a fixed-lookback period: `len - 1 -
      lookback`, which is negative when there are too few closes. */
  function LookbackIndex(bars: seq<Bar>, lookback: Option<nat>): (r: Option<int>)
    ensures r.Some? ==> r.value < |bars|
  {
    if lookback.None? then None else Some(|bars| - 1 - lookback.value)
  }

  /** The return of one period, given the current year (from the clock). */
  function PeriodReturn(p: Period, bars: seq<Bar>, currentYear: int): Option<real>
    requires |bars| > 0
  {
    var last := bars[|bars| - 1].close;
    if p.name == Ytd then
      match FirstFromYear(bars, currentYear)
      case None => None
      case Some(i) => CalculateReturns(Closes(bars), Some(i), last)
    else CalculateReturns(Closes(bars), LookbackIndex(bars, p.lookback), last)
  }

  /** A fixed lookback of `L` days has no return with `L` or fewer closes
      or a zero close `L` days back, and otherwise compounds that close
      into the last one. */
  lemma {:induction false} LookbackReturn(name: string, lookback: nat, bars: seq<Bar>, currentYear: int)
    requires |bars| > 0 && name != Ytd
    ensures var r := PeriodReturn(Period(name, Some(lookback)), bars, currentYear);
      && (r.None? <==> |bars| <= lookback || bars[|bars| - 1 - lookback].close == 0.0)
      && (r.Some? ==> (1.0 + r.value) * bars[|bars| - 1 - lookback].close == bars[|bars| - 1].close)
  {
  }

  /** The YTD return has no value when no bar is dated in the current year
      or later, or when the first such close is 0; otherwise it compounds
      that close into the last one. */
  lemma {:induction false} YtdReturn(lookback: Option<nat>, bars: seq<Bar>, currentYear: int)
    requires |bars| > 0
    ensures var r := PeriodReturn(Period(Ytd, lookback), bars, currentYear);
      var first := FirstFromYear(bars, currentYear);
      && (r.None? <==> first.None? || bars[first.value].close == 0.0)
      && (r.Some? ==> (1.0 + r.value) * bars[first.value].close == bars[|bars| - 1].close)
  {
    var first := FirstFromYear(bars, currentYear);
    if first.Some? {
      assert Closes(bars)[first.value] == Some(bars[first.value].close);
    }
  }

  /** The loop over `PERIODS`: one entry per name, holding the return of
      the last period with that name. */
  method ReturnsByPeriod(periods: seq<Period>, bars: seq<Bar>, currentYear: int)
    returns (table: map<string, Option<real>>)
    requires |bars| > 0
    ensures table.Keys == set p | p in periods :: p.name
    ensures forall i :: 0 <= i < |periods| && LastWithName(periods, i) ==>
      table[periods[i].name] == PeriodReturn(periods[i], bars, currentYear)
  {
    table := map[];
    for k := 0 to |periods|
      invariant table.Keys == set p | p in periods[..k] :: p.name
      invariant forall i :: 0 <= i < k && LastWithName(periods[..k], i) ==>
        table[periods[i].name] == PeriodReturn(periods[i], bars, currentYear)
    {
      table := Record(table, periods, k, bars, currentYear);
    }
    assert periods[..|periods|] == periods;
  }

  /** No later period reuses the name of period `i`. */
  predicate LastWithName(periods: seq<Period>, i: nat)
    requires i < |periods|
  {
    forall j :: i < j < |periods| ==> periods[j].name != periods[i].name
  }

  /** One step of the loop: period `k`'s return stored under its name. */
  method Record(table: map<string, Option<real>>, periods: seq<Period>, k: nat, bars: seq<Bar>, currentYear: int)
    returns (next: map<string, Option<real>>)
    requires |bars| > 0 && k < |periods|
    requires table.Keys == set p | p in periods[..k] :: p.name
    requires forall i :: 0 <= i < k && LastWithName(periods[..k], i) ==>
      table[periods[i].name] == PeriodReturn(periods[i], bars, currentYear)
    ensures next.Keys == set p | p in periods[..k + 1] :: p.name
    ensures forall i :: 0 <= i < k + 1 && LastWithName(periods[..k + 1], i) ==>
      next[periods[i].name] == PeriodReturn(periods[i], bars, currentYear)
  {
    var p := periods[k];
    next := table[p.name := PeriodReturn(p, bars, currentYear)];
    assert periods[..k + 1] == periods[..k] + [p];
    forall i | 0 <= i < k + 1 && LastWithName(periods[..k + 1], i)
      ensures next[periods[i].name] == PeriodReturn(periods[i], bars, currentYear)
    {
      if i < k {
        assert periods[..k + 1][k] == p;
        assert periods[i].name != p.name;
        assert LastWithName(periods[..k], i) by {
          forall j | i < j < k ensures periods[..k][j].name != periods[..k][i].name {
            assert periods[..k + 1][j] == periods[..k][j];
            assert periods[..k + 1][i] == periods[..k][i];
          }
        }
      }
    }
  }

  // ---------------------------------------------------------------------------
  // Agreement with the property and casualty dashboard

  /** The same closes seen as a series with nothing missing. */
  function Observations(bars: seq<Bar>): (r: seq<PropertyCasualtyMetrics.Observation>)
    ensures |r| == |bars|
  {
    if bars == [] then []
    else Observations(bars[..|bars| - 1])
         + [PropertyCasualtyMetrics.Observation(bars[|bars| - 1].year, Some(bars[|bars| - 1].close))]
  }

  lemma {:induction false} NothingDropped(bars: seq<Bar>)
    ensures |PropertyCasualtyMetrics.Present(Observations(bars))| == |bars|
    ensures forall i :: 0 <= i < |bars| ==>
      PropertyCasualtyMetrics.Present(Observations(bars))[i] == PropertyCasualtyMetrics.Quote(bars[i].year, bars[i].close)
  {
    if bars != [] {
      var front := bars[..|bars| - 1];
      NothingDropped(front);
      assert Observations(bars)[..|bars| - 1] == Observations(front);
    }
  }

  /** Both dashboards compute a fixed-lookback return from the close the
      same number of trading days back; they differ only on a zero
      reference close, which the P&C insurance dashboard reports as missing
      and the property and casualty dashboard as a non-finite float. */
  lemma {:induction false} LookbackAgrees(name: string, lookback: nat, bars: seq<Bar>, currentYear: int)
    requires |bars| > 0 && name != Ytd
    ensures var r := PeriodReturn(Period(name, Some(lookback)), bars, currentYear);
      var q := PropertyCasualtyMetrics.PeriodReturn(Observations(bars), lookback);
      && (r.Some? ==> q == Some(PropertyCasualtyMetrics.Finite(r.value)))
      && (q.Some? && q.value.Finite? ==> r == Some(q.value.value))
      && (q.Some? && q.value.NonFinite? <==> |bars| > lookback && bars[|bars| - 1 - lookback].close == 0.0)
  {
    LookbackValue(name, lookback, bars, currentYear);
    ReferenceValue(lookback, bars);
  }

  /** The fixed-lookback return, written out. */
  lemma {:induction false} LookbackValue(name: string, lookback: nat, bars: seq<Bar>, currentYear: int)
    requires |bars| > 0 && name != Ytd
    ensures PeriodReturn(Period(name, Some(lookback)), bars, currentYear) ==
      if |bars| <= lookback || bars[|bars| - 1 - lookback].close == 0.0 then None
      else Some(bars[|bars| - 1].close / bars[|bars| - 1 - lookback].close - 1.0)
  {
    if |bars| > lookback {
      assert Closes(bars)[|bars| - 1 - lookback] == Some(bars[|bars| - 1 - lookback].close);
    }
  }

  /** The property and casualty dashboard's return over the same closes, written out. */
  lemma {:induction false} ReferenceValue(lookback: nat, bars: seq<Bar>)
    requires |bars| > 0
    ensures PropertyCasualtyMetrics.PeriodReturn(Observations(bars), lookback) ==
      if |bars| <= lookback then None
      else Some(PropertyCasualtyMetrics.Change(bars[|bars| - 1].close, bars[|bars| - 1 - lookback].close))
  {
    NothingDropped(bars);
  }

  predicate YearsInOrder(bars: seq<Bar>) {
    forall i, j :: 0 <= i <= j < |bars| ==> bars[i].year <= bars[j].year
  }

  /** When the history is in date order and its last bar lies in the
      current year, both dashboards take the year's first close as the
      YTD reference and agree on the return. */
  lemma {:induction false} YtdAgrees(lookback: Option<nat>, bars: seq<Bar>, currentYear: int)
    requires |bars| > 0 && YearsInOrder(bars) && bars[|bars| - 1].year == currentYear
    ensures PeriodReturn(Period(Ytd, lookback), bars, currentYear)
         == PropertyCasualtyMetrics.YtdReturn(Observations(bars))
  {
    NothingDropped(bars);
    var p := PropertyCasualtyMetrics.Present(Observations(bars));
    assert p[|p| - 1].year == currentYear;
    var i := FirstFromYear(bars, currentYear).value;
    var k := PropertyCasualtyMetrics.FirstOfYear(p, currentYear).value;
    assert p[k].year == bars[k].year;
    assert i == k;
    assert Closes(bars)[i] == Some(bars[i].close);
  }
}
