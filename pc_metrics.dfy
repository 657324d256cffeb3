/** The per-ticker metrics of the property and casualty dashboard: returns
    over a number of trading days and since the start of the year, the
    maximum drawdown, the first usable quote field, the dividend yield as a
    fraction and the distance from the 52-week extremes. A price series is a
    sequence of observations, each possibly missing; every metric first
    drops the missing ones. */
module PropertyCasualtyMetrics {
  import opened Wrappers

  /** A float64 result: a real number, or what a division by zero gives
      (an infinity or NaN). */
  datatype Float = Finite(value: real) | NonFinite

  /** `last / reference - 1`, the relative change from `reference` to
      `last`. */
  function Change(last: real, reference: real): (r: Float)
    ensures r.Finite? <==> reference != 0.0
    ensures r.Finite? ==> (1.0 + r.value) * reference == last
  {
    if reference == 0.0 then NonFinite else Finite(last / reference - 1.0)
  }

  /** A change between two positive prices is finite, above -1, and has the
      sign of the price move. */
  lemma {:induction false} ChangeOfPositive(last: real, reference: real)
    requires last > 0.0 && reference > 0.0
    ensures Change(last, reference).Finite?
    ensures Change(last, reference).value > -1.0
    ensures Change(last, reference).value > 0.0 <==> last > reference
    ensures Change(last, reference).value == 0.0 <==> last == reference
  {
    var x := Change(last, reference).value;
    assert (1.0 + x) * reference == last;
  }

  // ---------------------------------------------------------------------------
  // Series and dropna

  /** One row of a price series: the year of its date and its value. */
  datatype Observation = Observation(year: int, value: Option<real>)

  /** A row that survived `dropna`. */
  datatype Quote = Quote(year: int, value: real)

  /** `series.dropna()`: the present values, in order. */
  function Present(s: seq<Observation>): (r: seq<Quote>)
    ensures |r| <= |s|
  {
    if s == [] then []
    else
      var last := s[|s| - 1];
      Present(s[..|s| - 1]) + (if last.value.Some? then [Quote(last.year, last.value.value)] else [])
  }

  lemma {:induction false} PresentConcat(a: seq<Observation>, b: seq<Observation>)
    ensures Present(a + b) == Present(a) + Present(b)
    decreases |b|
  {
    if b != [] {
      var n := |b| - 1;
      assert (a + b)[..|a + b| - 1] == a + b[..n];
      PresentConcat(a, b[..n]);
    } else {
      assert a + b == a;
    }
  }

  /** A missing observation inserted anywhere changes nothing downstream. */
  lemma {:induction false} PresentMissing(o: Observation)
    requires o.value.None?
    ensures Present([o]) == []
  {
    assert [o][..0] == [];
  }

  lemma {:induction false} MissingIgnored(s: seq<Observation>, k: nat, year: int)
    requires k <= |s|
    ensures Present(s[..k] + [Observation(year, None)] + s[k..]) == Present(s)
  {
    var a, m, b := s[..k], [Observation(year, None)], s[k..];
    PresentMissing(Observation(year, None));
    PresentConcat(a, m);
    assert Present(a) + [] == Present(a);
    PresentConcat(a + m, b);
    PresentConcat(a, b);
    assert a + b == s;
  }

  // ---------------------------------------------------------------------------
  // compute_period_return

  /** The return over the last `periods` present values: `None` when there
      are not more than `periods` of them. */
  function PeriodReturn(s: seq<Observation>, periods: nat): Option<Float> {
    var p := Present(s);
    if |p| <= periods then None
    else Some(Change(p[|p| - 1].value, p[|p| - 1 - periods].value))
  }

  /** Only the present values count: the return is available exactly when
      more than `periods` of them exist, and it then compounds the value
      `periods` positions before the last into the last; missing
      observations change nothing. */
  lemma {:induction false} PeriodReturnMeaning(s: seq<Observation>, periods: nat, k: nat, year: int)
    requires k <= |s|
    ensures PeriodReturn(s, periods).None? <==> |Present(s)| <= periods
    ensures PeriodReturn(s, periods).Some? && PeriodReturn(s, periods).value.Finite? ==>
      (1.0 + PeriodReturn(s, periods).value.value) * Present(s)[|Present(s)| - 1 - periods].value
        == Present(s)[|Present(s)| - 1].value
    ensures PeriodReturn(s[..k] + [Observation(year, None)] + s[k..], periods) == PeriodReturn(s, periods)
  {
    MissingIgnored(s, k, year);
  }

  /** Over positive prices the period return is finite, above -1, and
      positive exactly when the last price is above the one `periods`
      positions earlier. */
  lemma {:induction false} PeriodReturnOfPositive(s: seq<Observation>, periods: nat)
    requires forall q :: q in Present(s) ==> q.value > 0.0
    requires |Present(s)| > periods
    ensures PeriodReturn(s, periods).Some? && PeriodReturn(s, periods).value.Finite?
    ensures PeriodReturn(s, periods).value.value > -1.0
    ensures PeriodReturn(s, periods).value.value > 0.0 <==>
      Present(s)[|Present(s)| - 1].value > Present(s)[|Present(s)| - 1 - periods].value
  {
    var p := Present(s);
    assert p[|p| - 1] in p && p[|p| - 1 - periods] in p;
    ChangeOfPositive(p[|p| - 1].value, p[|p| - 1 - periods].value);
  }

  // ---------------------------------------------------------------------------
  // compute_ytd_return

  /** The position of the first quote dated in `year`. */
  function FirstOfYear(p: seq<Quote>, year: int): (r: Option<nat>)
    ensures r.None? <==> forall i :: 0 <= i < |p| ==> p[i].year != year
    ensures r.Some? ==> r.value < |p| && p[r.value].year == year
    ensures r.Some? ==> forall j :: 0 <= j < r.value ==> p[j].year != year
  {
    if p == [] then None
    else if p[0].year == year then Some(0)
    else
      match FirstOfYear(p[1..], year)
      case None => None
      case Some(i) => Some(i + 1)
  }

  /** The return since the first present value in the year of the last
      present value: `None` for an empty series and for a reference of 0. */
  function YtdReturn(s: seq<Observation>): Option<real> {
    var p := Present(s);
    if p == [] then None
    else
      match FirstOfYear(p, p[|p| - 1].year)
      case None => None
      case Some(i) =>
        if p[i].value == 0.0 then None else Some(p[|p| - 1].value / p[i].value - 1.0)
  }

  /** The reference always exists (the last value lies in its own year), so
      the result is missing only for an empty series or a zero reference;
      otherwise it compounds the first value of that year into the last. */
  lemma {:induction false} YtdReturnMeaning(s: seq<Observation>)
    ensures var p := Present(s);
      p != [] ==> FirstOfYear(p, p[|p| - 1].year).Some?
    ensures var p := Present(s);
      YtdReturn(s).None? <==> p == [] || p[FirstOfYear(p, p[|p| - 1].year).value].value == 0.0
    ensures var p := Present(s);
      YtdReturn(s).Some? ==>
        (1.0 + YtdReturn(s).value) * p[FirstOfYear(p, p[|p| - 1].year).value].value == p[|p| - 1].value
  {
    var p := Present(s);
    if p != [] {
      assert p[|p| - 1].year == p[|p| - 1].year;
      var i := FirstOfYear(p, p[|p| - 1].year).value;
      if p[i].value != 0.0 {
        var x := p[|p| - 1].value / p[i].value - 1.0;
        assert (1.0 + x) * p[i].value == p[|p| - 1].value;
      }
    }
  }

  // ---------------------------------------------------------------------------
  // max_drawdown

  /** The values of a cleaned series. */
  function Prices(s: seq<Observation>): (r: seq<real>)
    ensures |r| == |Present(s)|
    ensures forall i :: 0 <= i < |r| ==> r[i] == Present(s)[i].value
  {
    var p := Present(s);
    seq(|p|, i requires 0 <= i < |p| => p[i].value)
  }

  /** The largest value: `cummax` at the last position. */
  function Peak(v: seq<real>): (r: real)
    requires |v| > 0
    ensures forall i :: 0 <= i < |v| ==> v[i] <= r
    ensures exists i :: 0 <= i < |v| && v[i] == r
  {
    if |v| == 1 then v[0]
    else
      var m := Peak(v[..|v| - 1]);
      assert forall i :: 0 <= i < |v| - 1 ==> v[..|v| - 1][i] == v[i];
      if v[|v| - 1] > m then v[|v| - 1] else m
  }

  /** `series / series.cummax() - 1`, position by position. */
  function Drawdowns(v: seq<real>): (r: seq<Float>)
    ensures |r| == |v|
  {
    if v == [] then []
    else Drawdowns(v[..|v| - 1]) + [Change(v[|v| - 1], Peak(v))]
  }

  lemma {:induction false} DrawdownAt(v: seq<real>, k: nat)
    requires k < |v|
    ensures Drawdowns(v)[k] == Change(v[k], Peak(v[..k + 1]))
  {
    if k < |v| - 1 {
      DrawdownAt(v[..|v| - 1], k);
      assert v[..|v| - 1][..k + 1] == v[..k + 1];
    } else {
      assert v[..k + 1] == v;
    }
  }

  /** The smallest drawdown; a non-finite one makes the minimum
      non-finite. */
  function Lowest(fs: seq<Float>): (r: Float)
    requires |fs| > 0
    ensures r.NonFinite? <==> exists i :: 0 <= i < |fs| && fs[i].NonFinite?
    ensures r.Finite? ==> forall i :: 0 <= i < |fs| ==> fs[i].Finite? && r.value <= fs[i].value
    ensures r.Finite? ==> exists i :: 0 <= i < |fs| && fs[i] == r
  {
    if |fs| == 1 then fs[0]
    else
      var front := fs[..|fs| - 1];
      var last := fs[|fs| - 1];
      var m := Lowest(front);
      assert forall i :: 0 <= i < |front| ==> front[i] == fs[i];
      if m.NonFinite? || last.NonFinite? then NonFinite
      else if last.value < m.value then last
      else m
  }

  /** The maximum drawdown of a cleaned series: `None` when it is empty. */
  function Drawdown(v: seq<real>): Option<Float> {
    if v == [] then None else Some(Lowest(Drawdowns(v)))
  }

  function MaxDrawdown(s: seq<Observation>): Option<Float> {
    Drawdown(Prices(s))
  }

  predicate Positive(v: seq<real>) {
    forall i :: 0 <= i < |v| ==> v[i] > 0.0
  }

  predicate NonDecreasing(v: seq<real>) {
    forall i, j :: 0 <= i <= j < |v| ==> v[i] <= v[j]
  }

  /** Over positive prices every drawdown is finite, in (-1, 0]. */
  lemma {:induction false} DrawdownStepBounds(v: seq<real>, k: nat)
    requires Positive(v) && k < |v|
    ensures Drawdowns(v)[k].Finite?
    ensures -1.0 < Drawdowns(v)[k].value <= 0.0
    ensures Drawdowns(v)[k].value == 0.0 <==> forall j :: 0 <= j <= k ==> v[j] <= v[k]
  {
    DrawdownAt(v, k);
    var pk := Peak(v[..k + 1]);
    assert v[..k + 1][k] == v[k];
    var i :| 0 <= i < k + 1 && v[..k + 1][i] == pk;
    assert v[i] == pk;
    ChangeOfPositive(v[k], pk);
    if forall j :: 0 <= j <= k ==> v[j] <= v[k] {
      assert pk <= v[k];
    } else {
      var j :| 0 <= j <= k && v[j] > v[k];
      assert v[..k + 1][j] == v[j];
    }
  }

  /** The maximum drawdown of positive prices is finite, in (-1, 0], and it
      is 0 exactly when the prices never fall. */
  lemma {:induction false} DrawdownBounds(v: seq<real>)
    requires Positive(v) && v != []
    ensures Drawdown(v).Some? && Drawdown(v).value.Finite?
    ensures -1.0 < Drawdown(v).value.value <= 0.0
    ensures Drawdown(v).value.value == 0.0 <==> NonDecreasing(v)
  {
    var ds := Drawdowns(v);
    forall k | 0 <= k < |v|
      ensures ds[k].Finite? && -1.0 < ds[k].value <= 0.0
      ensures ds[k].value == 0.0 <==> forall j :: 0 <= j <= k ==> v[j] <= v[k]
    {
      DrawdownStepBounds(v, k);
    }
    var d := Lowest(ds);
    assert !(exists i :: 0 <= i < |ds| && ds[i].NonFinite?);
    var m :| 0 <= m < |ds| && ds[m] == d;
    if d.value == 0.0 {
      forall i, j | 0 <= i <= j < |v|
        ensures v[i] <= v[j]
      {
        assert d.value <= ds[j].value;
      }
    }
    if NonDecreasing(v) {
      assert ds[m].value == 0.0;
    }
  }

  // ---------------------------------------------------------------------------
  // fi_get

  /** A quote field that is present and not `None`. */
  predicate Available(info: map<string, Option<real>>, key: string) {
    key in info && info[key].Some?
  }

  /** The value of the first key, in the given order, that is available. */
  function FieldOf(info: map<string, Option<real>>, keys: seq<string>): (r: Option<real>)
    ensures r.None? <==> forall i :: 0 <= i < |keys| ==> !Available(info, keys[i])
    ensures r.Some? ==>
      exists i :: 0 <= i < |keys| && Available(info, keys[i]) && info[keys[i]].value == r.value
        && forall j :: 0 <= j < i ==> !Available(info, keys[j])
  {
    if keys == [] then None
    else if Available(info, keys[0]) then Some(info[keys[0]].value)
    else
      var r := FieldOf(info, keys[1..]);
      assert forall i :: 0 <= i < |keys| - 1 ==> keys[1..][i] == keys[i + 1];
      if r.Some? then
        var i :| 0 <= i < |keys| - 1 && Available(info, keys[1..][i]) && info[keys[1..][i]].value == r.value
          && forall j :: 0 <= j < i ==> !Available(info, keys[1..][j]);
        assert forall j :: 0 <= j < i + 1 ==> !Available(info, keys[j]) by {
          forall j | 0 <= j < i + 1 ensures !Available(info, keys[j]) {
            if j > 0 {
              assert keys[j] == keys[1..][j - 1];
            }
          }
        }
        r
      else
        r
  }

  // ---------------------------------------------------------------------------
  // normalize_dividend_yield

  /** A yield above 1 is a percentage and is divided by 100; others are
      already fractions. */
  function NormalizeDividendYield(value: Option<real>): (r: Option<real>)
    ensures r.None? <==> value.None?
    ensures r.Some? && value.value > 1.0 ==> r.value * 100.0 == value.value
    ensures r.Some? && value.value <= 1.0 ==> r.value == value.value
  {
    match value
    case None => None
    case Some(v) => if v > 1.0 then Some(v / 100.0) else Some(v)
  }

  /** Any yield from 0 to 100 comes out as a fraction from 0 to 1, and
      normalizing it again changes nothing. */
  lemma {:induction false} DividendYieldIsFraction(v: real)
    requires 0.0 <= v <= 100.0
    ensures 0.0 <= NormalizeDividendYield(Some(v)).value <= 1.0
    ensures NormalizeDividendYield(NormalizeDividendYield(Some(v))) == NormalizeDividendYield(Some(v))
  {
    var r := NormalizeDividendYield(Some(v)).value;
    if v > 1.0 {
      assert r * 100.0 == v;
    }
  }

  // ---------------------------------------------------------------------------
  // year_high_pct and year_low_pct

  /** `None if not extreme else last / extreme - 1`: a missing or zero
      extreme gives `None`. */
  function ExtremePct(last: real, extreme: Option<real>): (r: Option<real>)
    ensures r.None? <==> extreme.None? || extreme.value == 0.0
    ensures r.Some? ==> (1.0 + r.value) * extreme.value == last
  {
    if extreme.None? || extreme.value == 0.0 then None
    else
      var x := last / extreme.value - 1.0;
      assert (1.0 + x) * extreme.value == last;
      Some(x)
  }

  /** A positive price at or below a positive 52-week high is a fraction
      below it, and one at or above a positive low lies above it. */
  lemma {:induction false} ExtremePctSigns(last: real, high: real, low: real)
    requires 0.0 < last <= high && 0.0 < low <= last
    ensures -1.0 < ExtremePct(last, Some(high)).value <= 0.0
    ensures ExtremePct(last, Some(low)).value >= 0.0
  {
    var h := ExtremePct(last, Some(high)).value;
    var l := ExtremePct(last, Some(low)).value;
    assert (1.0 + h) * high == last;
    assert (1.0 + l) * low == last;
  }
}
