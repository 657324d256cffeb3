/** The insurer buyback endpoint: per-ticker valuation metrics (book and tangible book per
    share, return on equity, the implied buyback return and its payback periods, the
    required-return bucket and the red zone) and the batch handler around them. Every
    numeric input is an `Option<real>`: `None` stands for whatever `safeNumber` turns
    into `null` (absent, `null`, or not a finite number). */
module InsurerBuybacks {
  import opened Wrappers
  import opened Text
  import opened Seqs

  // ---------------------------------------------------------------------------------
  // Ticker keys and required returns

  predicate IsAsciiAlphanumeric(c: char) {
    'A' <= c <= 'Z' || 'a' <= c <= 'z' || '0' <= c <= '9'
  }

  /** `normalizeTickerKey`: every character outside `[A-Za-z0-9]` becomes `_`. */
  function NormalizeTickerKey(ticker: string): (key: string)
    ensures |key| == |ticker|
    ensures forall i :: 0 <= i < |key| ==> IsAsciiAlphanumeric(key[i]) || key[i] == '_'
    ensures forall i :: 0 <= i < |key| && IsAsciiAlphanumeric(ticker[i]) ==> key[i] == ticker[i]
    ensures forall i :: 0 <= i < |key| && !IsAsciiAlphanumeric(ticker[i]) ==> key[i] == '_'
  {
    if ticker == [] then []
    else [if IsAsciiAlphanumeric(ticker[0]) then ticker[0] else '_'] + NormalizeTickerKey(ticker[1..])
  }

  /** A key is its own normal form. */
  lemma {:induction false} NormalizeTickerKeyIdempotent(ticker: string)
    ensures NormalizeTickerKey(NormalizeTickerKey(ticker)) == NormalizeTickerKey(ticker)
  {
    var k := NormalizeTickerKey(ticker);
    var kk := NormalizeTickerKey(k);
    assert forall i :: 0 <= i < |kk| ==> kk[i] == k[i];
  }

  lemma {:induction false} NormalizeTickerKeyExample()
    ensures NormalizeTickerKey("BRK-B") == "BRK_B"
    ensures NormalizeTickerKey("FFH.TO") == "FFH_TO"
  {
    assert NormalizeTickerKey("BRK-B")[3] == '_';
    assert NormalizeTickerKey("FFH.TO")[3] == '_';
  }

  /** A `REQUIRED_RETURN_BUCKETS` entry, or the "Custom" and "Base" stand-ins. */
  datatype Bucket = Bucket(title: string, requiredReturn: real)

  const BaseRequiredReturn := 0.12

  /** `computeRequiredReturn`: the bucket of the ticker's key, else a custom bucket for a
      given fallback, else the base 12%. */
  function ComputeRequiredReturn(ticker: string, fallback: Option<real>, buckets: map<string, Bucket>): (b: Bucket)
    ensures NormalizeTickerKey(ticker) in buckets ==> b == buckets[NormalizeTickerKey(ticker)]
    ensures NormalizeTickerKey(ticker) !in buckets && fallback.Some? ==> b == Bucket("Custom", fallback.value)
    ensures NormalizeTickerKey(ticker) !in buckets && fallback.None? ==> b == Bucket("Base", BaseRequiredReturn)
  {
    var key := NormalizeTickerKey(ticker);
    if key in buckets then buckets[key]
    else if fallback.Some? then Bucket("Custom", fallback.value)
    else Bucket("Base", BaseRequiredReturn)
  }

  /** Tickers spelled with different punctuation share a bucket. */
  lemma {:induction false} SameKeySameBucket(a: string, b: string, fallback: Option<real>, buckets: map<string, Bucket>)
    requires NormalizeTickerKey(a) == NormalizeTickerKey(b)
    ensures ComputeRequiredReturn(a, fallback, buckets) == ComputeRequiredReturn(b, fallback, buckets)
  {
  }

  /** With positive buckets and fallback, the required return is positive. */
  lemma {:induction false} RequiredReturnPositive(ticker: string, fallback: Option<real>, buckets: map<string, Bucket>)
    requires forall k :: k in buckets ==> buckets[k].requiredReturn > 0.0
    requires fallback.Some? ==> fallback.value > 0.0
    ensures ComputeRequiredReturn(ticker, fallback, buckets).requiredReturn > 0.0
  {
  }

  /** "BRK-B" finds the bucket filed under "BRK_B". */
  lemma {:induction false} BerkshireBucket()
    ensures ComputeRequiredReturn("BRK-B", None, map["BRK_B" := Bucket("7-10%", 0.085)]) == Bucket("7-10%", 0.085)
    ensures ComputeRequiredReturn("BRK-B", None, map[]) == Bucket("Base", 0.12)
  {
    NormalizeTickerKeyExample();
  }

  // ---------------------------------------------------------------------------------
  // Return on equity

  /** The first present value of a `??` chain or of a first-match loop. */
  function FirstPresent(xs: seq<Option<real>>): (r: Option<real>)
    ensures r.None? <==> forall i :: 0 <= i < |xs| ==> xs[i].None?
    ensures r.Some? ==> r in xs
  {
    if xs == [] then None
    else if xs[0].Some? then xs[0]
    else FirstPresent(xs[1..])
  }

  /** A present value preceded only by missing ones is the one chosen. */
  lemma {:induction false} FirstPresentIsFirst(xs: seq<Option<real>>, i: nat)
    requires i < |xs| && xs[i].Some? && forall j :: 0 <= j < i ==> xs[j].None?
    ensures FirstPresent(xs) == xs[i]
  {
    if i > 0 {
      FirstPresentIsFirst(xs[1..], i - 1);
    }
  }

  /** A present, non-zero number: what `x && ...` lets through. */
  predicate Truthy(x: Option<real>) {
    x.Some? && x.value != 0.0
  }

  /** The `summary` fields the metrics read. */
  datatype Summary = Summary(
    regularMarketPrice: Option<real>,
    postMarketPrice: Option<real>,
    preMarketPrice: Option<real>,
    priceSharesOutstanding: Option<real>,
    keyStatsSharesOutstanding: Option<real>,
    detailSharesOutstanding: Option<real>,
    keyStatsBookValue: Option<real>,
    priceBookValue: Option<real>,
    keyStatsTangibleBookPerShare: Option<real>,
    financialReturnOnEquity: Option<real>,
    keyStatsReturnOnEquity: Option<real>,
    keyStatsRoe: Option<real>,
    netIncome: Option<real>,
    statementEquity: Option<real>)

  /** The optional `derived` argument of `computeROE`. */
  datatype Derived = Derived(earnings: Option<real>, equityAverage: Option<real>)

  function RoeFields(s: Summary): seq<Option<real>> {
    [s.financialReturnOnEquity, s.keyStatsReturnOnEquity, s.keyStatsRoe]
  }

  /** `computeROE`: the first reported return on equity; else net income over the latest
      statement equity; else derived earnings over average equity; else null. */
  function ComputeRoe(s: Summary, derived: Option<Derived>): Option<real> {
    var reported := FirstPresent(RoeFields(s));
    if reported.Some? then reported
    else if s.netIncome.Some? && Truthy(s.statementEquity) then Some(s.netIncome.value / s.statementEquity.value)
    else if derived.Some? && Truthy(derived.value.earnings) && Truthy(derived.value.equityAverage) then
      Some(derived.value.earnings.value / derived.value.equityAverage.value)
    else None
  }

  /** A reported return on equity wins over everything computed from statements. */
  lemma {:induction false} ReportedRoeWins(s: Summary, t: Summary, derived: Option<Derived>, other: Option<Derived>)
    requires RoeFields(s) == RoeFields(t) && FirstPresent(RoeFields(s)).Some?
    ensures ComputeRoe(s, derived) == ComputeRoe(t, other) == FirstPresent(RoeFields(s))
  {
  }

  /** There is no return on equity exactly when nothing is reported, the statements do not
      give one, and neither does `derived`; a computed one is a ratio that gives back its
      numerator. */
  lemma {:induction false} RoeFallbacks(s: Summary, derived: Option<Derived>)
    ensures ComputeRoe(s, derived).None? <==>
      && (forall i :: 0 <= i < 3 ==> RoeFields(s)[i].None?)
      && (s.netIncome.None? || !Truthy(s.statementEquity))
      && (derived.None? || !Truthy(derived.value.earnings) || !Truthy(derived.value.equityAverage))
    ensures FirstPresent(RoeFields(s)).None? && s.netIncome.Some? && Truthy(s.statementEquity) ==>
      ComputeRoe(s, derived).value * s.statementEquity.value == s.netIncome.value
  {
  }

  // ---------------------------------------------------------------------------------
  // Balance-sheet fundamentals

  /** One entry of the annual balance-sheet time series. */
  datatype BalanceEntry = BalanceEntry(
    date: string,
    entryType: Option<string>,
    ordinarySharesNumber: Option<real>,
    shareIssued: Option<real>,
    treasurySharesNumber: Option<real>,
    stockholdersEquity: Option<real>,
    commonStockEquity: Option<real>,
    tangibleBookValue: Option<real>,
    netTangibleAssets: Option<real>,
    goodwill: Option<real>,
    otherIntangibleAssets: Option<real>)

  /** The entries `computeFromFundamentals` keeps: present, dated, and of type
      BALANCE_SHEET, ALL or none. */
  predicate Kept(e: Option<BalanceEntry>) {
    && e.Some?
    && e.value.date != ""
    && (e.value.entryType == Some("BALANCE_SHEET") || e.value.entryType == Some("ALL") || e.value.entryType.None?)
  }

  function KeptEntries(series: seq<Option<BalanceEntry>>): (r: seq<BalanceEntry>)
    ensures forall e :: e in r <==> Some(e) in series && Kept(Some(e))
  {
    if series == [] then []
    else
      var front := KeptEntries(series[..|series| - 1]);
      var last := series[|series| - 1];
      assert series == series[..|series| - 1] + [last];
      front + (if Kept(last) then [last.value] else [])
  }

  /** `new Date(a.date) - new Date(b.date)` as an order; the date reading is a parameter. */
  function ByDate(parseDate: string -> int): (BalanceEntry, BalanceEntry) -> bool {
    (a: BalanceEntry, b: BalanceEntry) => parseDate(a.date) <= parseDate(b.date)
  }

  lemma {:induction false} ByDateIsPreorder(parseDate: string -> int)
    ensures TotalPreorder(ByDate(parseDate))
  {
  }

  /** The last kept entry once sorted by date. */
  function LatestEntry(series: seq<Option<BalanceEntry>>, parseDate: string -> int): Option<BalanceEntry> {
    ByDateIsPreorder(parseDate);
    var sorted := SortBy(KeptEntries(series), ByDate(parseDate));
    if sorted == [] then None else Some(sorted[|sorted| - 1])
  }

  /** The latest entry is a kept entry of the series dated no earlier than any other kept
      entry; there is none exactly when no entry is kept. */
  lemma {:induction false} LatestEntryMeaning(series: seq<Option<BalanceEntry>>, parseDate: string -> int)
    ensures LatestEntry(series, parseDate).None? <==> forall i :: 0 <= i < |series| ==> !Kept(series[i])
    ensures LatestEntry(series, parseDate).Some? ==>
      && Some(LatestEntry(series, parseDate).value) in series
      && Kept(Some(LatestEntry(series, parseDate).value))
      && forall i :: 0 <= i < |series| && Kept(series[i]) ==>
           parseDate(series[i].value.date) <= parseDate(LatestEntry(series, parseDate).value.date)
  {
    ByDateIsPreorder(parseDate);
    var kept := KeptEntries(series);
    if kept != [] {
      SortLastIsGreatest(kept, ByDate(parseDate));
      var e := SortBy(kept, ByDate(parseDate))[|kept| - 1];
      forall k | 0 <= k < |kept|
        ensures parseDate(kept[k].date) <= parseDate(e.date)
      {
        assert ByDate(parseDate)(kept[k], e);
      }
      KeptDominated(series, parseDate, e);
    } else {
      NoneKept(series);
    }
  }

  /** An entry dated no earlier than every kept entry is dated no earlier than every kept
      entry of the series. */
  lemma {:induction false} KeptDominated(series: seq<Option<BalanceEntry>>, parseDate: string -> int, e: BalanceEntry)
    requires forall k :: 0 <= k < |KeptEntries(series)| ==> parseDate(KeptEntries(series)[k].date) <= parseDate(e.date)
    ensures forall i :: 0 <= i < |series| && Kept(series[i]) ==> parseDate(series[i].value.date) <= parseDate(e.date)
  {
    var kept := KeptEntries(series);
    forall i | 0 <= i < |series| && Kept(series[i])
      ensures parseDate(series[i].value.date) <= parseDate(e.date)
    {
      var x := series[i].value;
      assert series[i] in series;
      assert x in kept;
      var k :| 0 <= k < |kept| && kept[k] == x;
    }
  }

  /** No kept entry at all means no entry of the series is kept. */
  lemma {:induction false} NoneKept(series: seq<Option<BalanceEntry>>)
    requires KeptEntries(series) == []
    ensures forall i :: 0 <= i < |series| ==> !Kept(series[i])
  {
    forall i | 0 <= i < |series| ensures !Kept(series[i]) {
      assert series[i] in series;
    }
  }

  /** What `computeFromFundamentals` returns when some entry is kept. */
  datatype Fundamentals = Fundamentals(
    bookValuePerShare: Option<real>,
    tangibleBookPerShare: Option<real>,
    goodwillRatio: Option<real>,
    shares: Option<real>,
    stockholdersEquity: Option<real>,
    totalIntangibles: Option<real>,
    goodwillValue: Option<real>,
    otherIntangiblesValue: Option<real>)

  /** `total / shares` when the total is present and the share count truthy. */
  function PerShare(total: Option<real>, shares: Option<real>): (r: Option<real>)
    ensures r.Some? <==> total.Some? && Truthy(shares)
    ensures r.Some? ==> r.value * shares.value == total.value
  {
    if total.Some? && Truthy(shares) then Some(total.value / shares.value) else None
  }

  /** Goodwill plus other intangibles, a missing part read as 0, null when both are. */
  function TotalIntangibles(goodwill: Option<real>, other: Option<real>): Option<real> {
    if goodwill.None? && other.None? then None
    else Some(goodwill.GetOr(0.0) + other.GetOr(0.0))
  }

  function FundamentalsOf(e: BalanceEntry): Fundamentals {
    var shares := FirstPresent([e.ordinarySharesNumber, e.shareIssued, e.treasurySharesNumber]);
    var equity := FirstPresent([e.stockholdersEquity, e.commonStockEquity]);
    var tangible := FirstPresent([e.tangibleBookValue, e.netTangibleAssets]);
    var intangibles := TotalIntangibles(e.goodwill, e.otherIntangibleAssets);
    Fundamentals(
      PerShare(equity, shares),
      PerShare(tangible, shares),
      if equity.Some? && intangibles.Some? && equity.value != 0.0 then Some(intangibles.value / equity.value) else None,
      shares,
      equity,
      intangibles,
      e.goodwill,
      e.otherIntangibleAssets)
  }

  /** `computeFromFundamentals`: `None` stands for the empty object. */
  function ComputeFromFundamentals(series: seq<Option<BalanceEntry>>, parseDate: string -> int): Option<Fundamentals> {
    match LatestEntry(series, parseDate)
    case None => None
    case Some(e) => Some(FundamentalsOf(e))
  }

  /** Intangibles are null only when both parts are; a single part stands alone; the
      goodwill ratio is null when equity is absent or zero or there are no intangibles,
      and otherwise scales equity back to the intangibles. */
  lemma {:induction false} IntangiblesMeaning(e: BalanceEntry)
    ensures FundamentalsOf(e).totalIntangibles.None? <==> e.goodwill.None? && e.otherIntangibleAssets.None?
    ensures e.goodwill.Some? && e.otherIntangibleAssets.None? ==> FundamentalsOf(e).totalIntangibles == e.goodwill
    ensures e.goodwill.None? && e.otherIntangibleAssets.Some? ==> FundamentalsOf(e).totalIntangibles == e.otherIntangibleAssets
    ensures FundamentalsOf(e).goodwillRatio.Some? <==>
      Truthy(FundamentalsOf(e).stockholdersEquity) && FundamentalsOf(e).totalIntangibles.Some?
    ensures FundamentalsOf(e).goodwillRatio.Some? ==>
      FundamentalsOf(e).goodwillRatio.value * FundamentalsOf(e).stockholdersEquity.value == FundamentalsOf(e).totalIntangibles.value
  {
  }

  /** Per-share values need a share count: with every share field missing or the first
      present one zero, both are null. */
  lemma {:induction false} PerShareNeedsShares(e: BalanceEntry)
    requires !Truthy(FirstPresent([e.ordinarySharesNumber, e.shareIssued, e.treasurySharesNumber]))
    ensures FundamentalsOf(e).bookValuePerShare.None? && FundamentalsOf(e).tangibleBookPerShare.None?
  {
  }

  // ---------------------------------------------------------------------------------
  // Valuation

  /** `price / perShare` when the price is present and the per-share value truthy. */
  function PriceRatio(price: Option<real>, perShare: Option<real>): (r: Option<real>)
    ensures r.Some? <==> price.Some? && Truthy(perShare)
    ensures r.Some? ==> r.value * perShare.value == price.value
  {
    if price.Some? && Truthy(perShare) then Some(price.value / perShare.value) else None
  }

  /** The buyback return: return on equity spread over the price-to-tangible-book
      multiple when that multiple is positive, else the return on equity itself. */
  function ImpliedReturn(ptbv: Option<real>, roe: Option<real>): (r: Option<real>)
    ensures r.None? <==> roe.None?
    ensures ptbv.Some? && ptbv.value > 0.0 && roe.Some? ==> r.value * ptbv.value == roe.value
    ensures !(ptbv.Some? && ptbv.value > 0.0) ==> r == roe
  {
    if Truthy(ptbv) && ptbv.value > 0.0 && roe.Some? then Some(roe.value / ptbv.value) else roe
  }

  /** The rule of 72 on the implied return in percent, when that is positive. */
  function Rule72PaybackYears(implied: Option<real>): (r: Option<real>)
    ensures r.Some? <==> implied.Some? && implied.value > 0.0
    ensures r.Some? ==> r.value * (implied.value * 100.0) == 72.0 && r.value > 0.0
  {
    if implied.Some? && implied.value * 100.0 > 0.0 then Some(72.0 / (implied.value * 100.0)) else None
  }

  /** Years for the return on equity to earn back the premium over tangible book: 0
      without a premium, null when the return is not positive. */
  function PremiumPaybackYears(ptbv: Option<real>, roe: Option<real>): (r: Option<real>)
    ensures r.Some? <==> ptbv.Some? && (ptbv.value <= 1.0 || (roe.Some? && roe.value > 0.0))
    ensures r.Some? ==> r.value >= 0.0
    ensures r.Some? && ptbv.value <= 1.0 ==> r.value == 0.0
    ensures r.Some? && ptbv.value > 1.0 ==> r.value * roe.value == ptbv.value - 1.0
  {
    if ptbv.Some? && roe.Some? && ptbv.value > 1.0 && roe.value > 0.0 then Some((ptbv.value - 1.0) / roe.value)
    else if ptbv.Some? && ptbv.value <= 1.0 then Some(0.0)
    else None
  }

  /** The price-to-tangible-book multiple at which the implied return meets the required
      return. */
  function RedZoneThreshold(roe: Option<real>, requiredReturn: real): (r: Option<real>)
    ensures r.Some? <==> roe.Some? && requiredReturn > 0.0
    ensures r.Some? ==> r.value * requiredReturn == roe.value
  {
    if roe.Some? && requiredReturn > 0.0 then Some(roe.value / requiredReturn) else None
  }

  /** How far the multiple sits above (positive) or below (negative) the threshold. */
  function RedZoneDelta(threshold: Option<real>, ptbv: Option<real>): (r: Option<real>)
    ensures r.Some? <==> Truthy(threshold) && ptbv.Some?
    ensures r.Some? ==> (1.0 + r.value) * threshold.value == ptbv.value
  {
    if threshold.Some? && ptbv.Some? && threshold.value != 0.0 then Some(ptbv.value / threshold.value - 1.0) else None
  }

  /** Trading above the threshold is exactly an implied return below the required one. */
  lemma {:induction false} RedZoneMeansShortfall(roe: real, ptbv: real, requiredReturn: real)
    requires roe > 0.0 && ptbv > 0.0 && requiredReturn > 0.0
    ensures RedZoneDelta(RedZoneThreshold(Some(roe), requiredReturn), Some(ptbv)).value > 0.0
        <==> ImpliedReturn(Some(ptbv), Some(roe)).value < requiredReturn
  {
    var t := roe / requiredReturn;
    DivCompare(roe, requiredReturn, ptbv);
    assert t > 0.0;
    DivCompare(ptbv, t, 1.0);
    DivCompare(roe, ptbv, requiredReturn);
  }

  /** Comparing a quotient is comparing its numerator with the scaled bound. */
  lemma {:induction false} DivCompare(a: real, b: real, c: real)
    requires b > 0.0
    ensures a / b < c <==> a < c * b
    ensures a / b > c <==> a > c * b
  {
    var q := a / b;
    assert q * b == a;
    assert (c - q) * b == c * b - a;
    if q < c {
      assert (c - q) * b > 0.0;
    }
    if q > c {
      assert (q - c) * b > 0.0;
    }
    if a < c * b {
      assert (c - q) * b > 0.0;
    }
    if a > c * b {
      assert (q - c) * b > 0.0;
    }
  }

  /** Return on equity 12% at 1.5 times tangible book: an 8% buyback return, nine years
      by the rule of 72, and about four years to earn back the premium. */
  lemma {:induction false} ValuationExample()
    ensures ImpliedReturn(Some(1.5), Some(0.12)) == Some(0.08)
    ensures Rule72PaybackYears(Some(0.08)) == Some(9.0)
    ensures PremiumPaybackYears(Some(1.5), Some(0.12)) == Some(0.5 / 0.12)
  {
  }

  /** The metrics of one ticker. */
  datatype Metrics = Metrics(
    ticker: string,
    price: Option<real>,
    sharesOutstanding: Option<real>,
    bookValuePerShare: Option<real>,
    tangibleBookValuePerShare: Option<real>,
    priceToBook: Option<real>,
    priceToTangibleBook: Option<real>,
    returnOnEquity: Option<real>,
    impliedBuybackReturn: Option<real>,
    rule72PaybackYears: Option<real>,
    premiumPaybackYears: Option<real>,
    goodwillRatio: Option<real>,
    requiredReturnLabel: string,
    requiredReturn: real,
    redZoneThresholdPtbv: Option<real>,
    redZoneDelta: Option<real>)

  /** Book value per share: from the fundamentals, else as reported, else statement
      equity over the shares outstanding. */
  function BookValuePerShare(fundamentals: Option<Fundamentals>, s: Summary, sharesOutstanding: Option<real>): Option<real> {
    FirstPresent([
      if fundamentals.Some? then fundamentals.value.bookValuePerShare else None,
      s.keyStatsBookValue,
      s.priceBookValue,
      PerShare(s.statementEquity, sharesOutstanding)])
  }

  /** Tangible book per share: from the fundamentals, else as reported, else the book
      value per share. */
  function TangibleBookPerShare(fundamentals: Option<Fundamentals>, s: Summary, bookValue: Option<real>): Option<real> {
    FirstPresent([
      if fundamentals.Some? then fundamentals.value.tangibleBookPerShare else None,
      s.keyStatsTangibleBookPerShare,
      bookValue])
  }

  /** Without a tangible figure the tangible book per share is the book value per share. */
  lemma {:induction false} TangibleFallsBackToBook(fundamentals: Option<Fundamentals>, s: Summary, bookValue: Option<real>)
    requires fundamentals.None? || fundamentals.value.tangibleBookPerShare.None?
    requires s.keyStatsTangibleBookPerShare.None?
    ensures TangibleBookPerShare(fundamentals, s, bookValue) == bookValue
  {
    if bookValue.Some? {
      FirstPresentIsFirst([if fundamentals.Some? then fundamentals.value.tangibleBookPerShare else None,
                           s.keyStatsTangibleBookPerShare, bookValue], 2);
    }
  }

  /** The metrics block of `fetchTickerData` over its two fetched inputs. */
  function TickerMetrics(ticker: string, s: Summary, series: seq<Option<BalanceEntry>>,
                         parseDate: string -> int, buckets: map<string, Bucket>): Metrics {
    var price := FirstPresent([s.regularMarketPrice, s.postMarketPrice, s.preMarketPrice]);
    var shares := FirstPresent([s.priceSharesOutstanding, s.keyStatsSharesOutstanding, s.detailSharesOutstanding]);
    var fundamentals := ComputeFromFundamentals(series, parseDate);
    var bookValue := BookValuePerShare(fundamentals, s, shares);
    var tangible := TangibleBookPerShare(fundamentals, s, bookValue);
    var roe := ComputeRoe(s, None);
    var ptbv := PriceRatio(price, tangible);
    var implied := ImpliedReturn(ptbv, roe);
    var bucket := ComputeRequiredReturn(ticker, None, buckets);
    var threshold := RedZoneThreshold(roe, bucket.requiredReturn);
    Metrics(
      ticker, price, shares, bookValue, tangible,
      PriceRatio(price, bookValue),
      ptbv,
      roe,
      implied,
      Rule72PaybackYears(implied),
      PremiumPaybackYears(ptbv, roe),
      if fundamentals.Some? then fundamentals.value.goodwillRatio else None,
      bucket.title,
      bucket.requiredReturn,
      threshold,
      RedZoneDelta(threshold, ptbv))
  }

  /** How a metrics record is assembled from a ticker's summary, its latest fundamentals
      and its required-return bucket: the price and the share count are the first present
      of their fields; book value per share comes from the fundamentals, the reported
      figures or the statements; tangible book from the fundamentals, the key statistics or
      else the book value; every ratio and return is computed from those. */
  predicate Assembled(m: Metrics, ticker: string, s: Summary, fundamentals: Option<Fundamentals>, bucket: Bucket) {
    AssembledFigures(m, ticker, s, fundamentals) && AssembledReturns(m, fundamentals, bucket)
  }

  /** The figures read from the fetched data, and the multiples of the price. */
  predicate AssembledFigures(m: Metrics, ticker: string, s: Summary, fundamentals: Option<Fundamentals>) {
    AssembledInputs(m, ticker, s, fundamentals) && AssembledMultiples(m)
  }

  /** The multiples of the price over the book and tangible book values per share. */
  predicate AssembledMultiples(m: Metrics) {
    && m.priceToBook == PriceRatio(m.price, m.bookValuePerShare)
    && m.priceToTangibleBook == PriceRatio(m.price, m.tangibleBookValuePerShare)
  }

  /** The figures read from the fetched data. */
  predicate AssembledInputs(m: Metrics, ticker: string, s: Summary, fundamentals: Option<Fundamentals>) {
    && m.ticker == ticker
    && m.price == FirstPresent([s.regularMarketPrice, s.postMarketPrice, s.preMarketPrice])
    && m.sharesOutstanding == FirstPresent([s.priceSharesOutstanding, s.keyStatsSharesOutstanding, s.detailSharesOutstanding])
    && m.bookValuePerShare == BookValuePerShare(fundamentals, s, m.sharesOutstanding)
    && m.tangibleBookValuePerShare == TangibleBookPerShare(fundamentals, s, m.bookValuePerShare)
    && m.returnOnEquity == ComputeRoe(s, None)
  }

  /** The returns and the red zone computed from the multiples and the return on equity. */
  predicate AssembledReturns(m: Metrics, fundamentals: Option<Fundamentals>, bucket: Bucket) {
    && m.impliedBuybackReturn == ImpliedReturn(m.priceToTangibleBook, m.returnOnEquity)
    && m.rule72PaybackYears == Rule72PaybackYears(m.impliedBuybackReturn)
    && m.premiumPaybackYears == PremiumPaybackYears(m.priceToTangibleBook, m.returnOnEquity)
    && m.goodwillRatio == (if fundamentals.Some? then fundamentals.value.goodwillRatio else None)
    && m.requiredReturnLabel == bucket.title && m.requiredReturn == bucket.requiredReturn
    && m.redZoneThresholdPtbv == RedZoneThreshold(m.returnOnEquity, m.requiredReturn)
    && m.redZoneDelta == RedZoneDelta(m.redZoneThresholdPtbv, m.priceToTangibleBook)
  }

  /** The metrics block assembles the record from the latest fundamentals entry and the
      ticker's bucket. */
  lemma {:induction false} TickerMetricsMeaning(ticker: string, s: Summary, series: seq<Option<BalanceEntry>>,
                                                parseDate: string -> int, buckets: map<string, Bucket>)
    ensures Assembled(TickerMetrics(ticker, s, series, parseDate, buckets), ticker, s,
                      ComputeFromFundamentals(series, parseDate), ComputeRequiredReturn(ticker, None, buckets))
  {
  }

  /** In an assembled record each multiple times its per-share value is the price. */
  lemma {:induction false} MultiplesReadBack(m: Metrics)
    requires AssembledMultiples(m)
    ensures m.priceToBook.Some? ==> m.priceToBook.value * m.bookValuePerShare.value == m.price.value
    ensures m.priceToTangibleBook.Some? ==> m.priceToTangibleBook.value * m.tangibleBookValuePerShare.value == m.price.value
  {
    ReadBack(m.price, m.bookValuePerShare);
    ReadBack(m.price, m.tangibleBookValuePerShare);
  }

  lemma ReadBack(price: Option<real>, perShare: Option<real>)
    ensures PriceRatio(price, perShare).Some? ==> PriceRatio(price, perShare).value * perShare.value == price.value
  {
  }

  /** Without a tangible figure in the fundamentals or the key statistics, the tangible
      multiple is the book multiple. */
  lemma {:induction false} TangibleMultipleIsBook(m: Metrics, ticker: string, s: Summary, fundamentals: Option<Fundamentals>)
    requires AssembledFigures(m, ticker, s, fundamentals)
    requires fundamentals.None? || fundamentals.value.tangibleBookPerShare.None?
    requires s.keyStatsTangibleBookPerShare.None?
    ensures m.tangibleBookValuePerShare == m.bookValuePerShare && m.priceToTangibleBook == m.priceToBook
  {
    TangibleFallsBackToBook(fundamentals, s, m.bookValuePerShare);
  }

  /** In an assembled record the buyback return exists exactly with a return on equity,
      and for positive figures the ticker is in the red zone exactly when its buyback
      return falls short of its required return. */
  lemma {:induction false} RedZoneOfMetrics(m: Metrics, fundamentals: Option<Fundamentals>, bucket: Bucket)
    requires AssembledReturns(m, fundamentals, bucket)
    ensures m.impliedBuybackReturn.None? <==> m.returnOnEquity.None?
    ensures m.returnOnEquity.Some? && m.returnOnEquity.value > 0.0 && m.priceToTangibleBook.Some? &&
            m.priceToTangibleBook.value > 0.0 && m.requiredReturn > 0.0 ==>
      (m.redZoneDelta.value > 0.0 <==> m.impliedBuybackReturn.value < m.requiredReturn)
  {
    if m.returnOnEquity.Some? && m.returnOnEquity.value > 0.0 && m.priceToTangibleBook.Some? &&
       m.priceToTangibleBook.value > 0.0 && m.requiredReturn > 0.0 {
      RedZoneMeansShortfall(m.returnOnEquity.value, m.priceToTangibleBook.value, m.requiredReturn);
    }
  }

  // ---------------------------------------------------------------------------------
  // The handler

  /** What the two fetches of `fetchTickerData` bring back for a ticker. */
  datatype Fetched = Fetched(summary: Summary, fundamentals: seq<Option<BalanceEntry>>)

  datatype ErrorEntry = ErrorEntry(ticker: string, message: string)

  /** The tickers asked for: the `tickers` parameter split on commas, trimmed, without
      empty parts, or every configured ticker when the parameter is absent or empty;
      duplicates dropped, first occurrence kept. */
  function RequestedTickers(param: Option<string>, configured: seq<string>): seq<string> {
    Dedup(if param.Some? && param.value != "" then SplitTrimNonEmpty(param.value) else configured)
  }

  lemma {:induction false} RequestedTickersMeaning(param: Option<string>, configured: seq<string>)
    ensures NoDuplicates(RequestedTickers(param, configured))
    ensures param.Some? && param.value != "" ==>
      forall t :: t in RequestedTickers(param, configured) <==> t in SplitTrimNonEmpty(param.value)
    ensures !(param.Some? && param.value != "") ==>
      forall t :: t in RequestedTickers(param, configured) <==> t in configured
  {
    DedupMembers(if param.Some? && param.value != "" then SplitTrimNonEmpty(param.value) else configured);
  }

  /** The batch loop's `results` and `errors`. */
  datatype Gathered = Gathered(results: seq<Metrics>, errors: seq<ErrorEntry>)

  /** The configuration the metrics read: the date reading and the bucket table. */
  datatype Config = Config(parseDate: string -> int, buckets: map<string, Bucket>)

  /** The metrics of a fetched ticker under the configuration. */
  function Evaluate(config: Config): (string, Fetched) -> Metrics {
    (ticker: string, f: Fetched) => TickerMetrics(ticker, f.summary, f.fundamentals, config.parseDate, config.buckets)
  }

  /** The outcome of one ticker recorded: its metrics (computed by `metrics`), or its
      error with the default message when it has none. */
  function Gather(g: Gathered, ticker: string, outcome: Result<Fetched, string>, metrics: (string, Fetched) -> Metrics): Gathered {
    match outcome
    case Ok(f) => g.(results := g.results + [metrics(ticker, f)])
    case Err(message) =>
      g.(errors := g.errors + [ErrorEntry(ticker, if message == "" then "Unknown error fetching data" else message)])
  }

  function GatherAll(tickers: seq<string>, fetch: string -> Result<Fetched, string>, metrics: (string, Fetched) -> Metrics): Gathered {
    if tickers == [] then Gathered([], [])
    else Gather(GatherAll(tickers[..|tickers| - 1], fetch, metrics), tickers[|tickers| - 1],
                fetch(tickers[|tickers| - 1]), metrics)
  }

  /** The record of a fetched ticker: the metrics assembled from its summary, the latest
      entry of its fundamentals series and its bucket. */
  predicate MetricsOf(m: Metrics, ticker: string, f: Fetched, config: Config) {
    Assembled(m, ticker, f.summary, ComputeFromFundamentals(f.fundamentals, config.parseDate),
              ComputeRequiredReturn(ticker, None, config.buckets))
  }

  /** A fetched ticker adds one result, its record, after those gathered so far, and no
      error. */
  lemma {:induction false} GatherRecordsMetrics(g: Gathered, ticker: string, f: Fetched, config: Config)
    ensures var next := Gather(g, ticker, Ok(f), Evaluate(config));
      && next.errors == g.errors
      && |next.results| == |g.results| + 1
      && next.results[..|g.results|] == g.results
      && MetricsOf(next.results[|g.results|], ticker, f, config)
  {
    var next := Gather(g, ticker, Ok(f), Evaluate(config));
    TickerMetricsMeaning(ticker, f.summary, f.fundamentals, config.parseDate, config.buckets);
    assert next.results[|g.results|] == TickerMetrics(ticker, f.summary, f.fundamentals, config.parseDate, config.buckets);
  }

  /** `m` is the record of one of `tickers` whose fetch succeeded. */
  predicate FromFetched(m: Metrics, tickers: seq<string>, fetch: string -> Result<Fetched, string>, config: Config) {
    exists k :: 0 <= k < |tickers| && fetch(tickers[k]).Ok? && MetricsOf(m, tickers[k], fetch(tickers[k]).value, config)
  }

  /** Every result gathered is the record of a requested ticker whose fetch succeeded. */
  lemma {:induction false} ResultsAssembled(tickers: seq<string>, fetch: string -> Result<Fetched, string>, config: Config)
    ensures forall i :: 0 <= i < |GatherAll(tickers, fetch, Evaluate(config)).results| ==>
      FromFetched(GatherAll(tickers, fetch, Evaluate(config)).results[i], tickers, fetch, config)
  {
    if tickers != [] {
      var front := tickers[..|tickers| - 1];
      var t := tickers[|tickers| - 1];
      var g := GatherAll(front, fetch, Evaluate(config));
      var results := GatherAll(tickers, fetch, Evaluate(config)).results;
      ResultsAssembled(front, fetch, config);
      forall i | 0 <= i < |results|
        ensures FromFetched(results[i], tickers, fetch, config)
      {
        if i < |g.results| {
          assert FromFetched(g.results[i], front, fetch, config);
          var k :| 0 <= k < |front| && fetch(front[k]).Ok? && MetricsOf(g.results[i], front[k], fetch(front[k]).value, config);
          assert results[i] == g.results[i];
          assert tickers[k] == front[k];
        } else {
          GatherRecordsMetrics(g, t, fetch(t).value, config);
          assert tickers[|tickers| - 1] == t;
        }
      }
    }
  }

  function Min(a: int, b: int): int {
    if a <= b then a else b
  }

  /** The batch loop: three tickers at a time, each batch's outcomes in ticker order. */
  method GatherInBatches(tickers: seq<string>, fetch: string -> Result<Fetched, string>, metrics: (string, Fetched) -> Metrics)
    returns (g: Gathered)
    ensures g == GatherAll(tickers, fetch, metrics)
  {
    g := Gathered([], []);
    var i := 0;
    while i < |tickers|
      invariant 0 <= i <= |tickers|
      invariant g == GatherAll(tickers[..i], fetch, metrics)
      decreases |tickers| - i
    {
      var end := Min(i + 3, |tickers|);
      g := GatherBatch(g, tickers, i, end, fetch, metrics);
      i := end;
    }
    assert tickers[..|tickers|] == tickers;
  }

  /** One batch, `tickers[start..end]`, its outcomes recorded in ticker order. */
  method GatherBatch(g: Gathered, tickers: seq<string>, start: nat, end: nat,
                     fetch: string -> Result<Fetched, string>, metrics: (string, Fetched) -> Metrics)
    returns (next: Gathered)
    requires start <= end <= |tickers|
    requires g == GatherAll(tickers[..start], fetch, metrics)
    ensures next == GatherAll(tickers[..end], fetch, metrics)
  {
    next := g;
    var batch := tickers[start..end];
    for j := 0 to |batch|
      invariant next == GatherAll(tickers[..start + j], fetch, metrics)
    {
      assert batch[j] == tickers[start + j];
      GatherStep(tickers, start + j, fetch, metrics);
      next := Gather(next, batch[j], fetch(batch[j]), metrics);
    }
  }

  lemma {:induction false} GatherStep(tickers: seq<string>, k: nat, fetch: string -> Result<Fetched, string>, metrics: (string, Fetched) -> Metrics)
    requires k < |tickers|
    ensures GatherAll(tickers[..k + 1], fetch, metrics)
         == Gather(GatherAll(tickers[..k], fetch, metrics), tickers[k], fetch(tickers[k]), metrics)
  {
    assert tickers[..k + 1][..k] == tickers[..k];
  }

  /** Every ticker lands in exactly one of the two lists, in ticker order. */
  lemma {:induction false} GatherPartition(tickers: seq<string>, fetch: string -> Result<Fetched, string>, metrics: (string, Fetched) -> Metrics)
    ensures |GatherAll(tickers, fetch, metrics).results| == Count(tickers, t => fetch(t).Ok?)
    ensures |GatherAll(tickers, fetch, metrics).errors| == Count(tickers, t => fetch(t).Err?)
    ensures |GatherAll(tickers, fetch, metrics).results| + |GatherAll(tickers, fetch, metrics).errors| == |tickers|
  {
    if tickers != [] {
      var front := tickers[..|tickers| - 1];
      var t := tickers[|tickers| - 1];
      GatherPartition(front, fetch, metrics);
      GatherSizes(GatherAll(front, fetch, metrics), t, fetch(t), metrics);
      assert tickers == front + [t];
      CountConcat(front, [t], t => fetch(t).Ok?);
      CountConcat(front, [t], t => fetch(t).Err?);
    }
  }

  /** Gathering one outcome adds one result or one error. */
  lemma {:induction false} GatherSizes(g: Gathered, ticker: string, outcome: Result<Fetched, string>, metrics: (string, Fetched) -> Metrics)
    ensures |Gather(g, ticker, outcome, metrics).results| == |g.results| + (if outcome.Ok? then 1 else 0)
    ensures |Gather(g, ticker, outcome, metrics).errors| == |g.errors| + (if outcome.Err? then 1 else 0)
  {
  }

  datatype Response = Response(status: int, tickers: seq<Metrics>, errors: seq<ErrorEntry>)

  function Respond(g: Gathered): Response {
    Response(if |g.errors| > 0 && |g.results| == 0 then 502 else 200, g.results, g.errors)
  }

  method Handle(param: Option<string>, configured: seq<string>,
                fetch: string -> Result<Fetched, string>, config: Config) returns (r: Response)
    ensures r == Respond(GatherAll(RequestedTickers(param, configured), fetch, Evaluate(config)))
  {
    var tickers := RequestedTickers(param, configured);
    var g := GatherInBatches(tickers, fetch, Evaluate(config));
    r := Respond(g);
  }

  /** The status is 502 exactly when some requested ticker failed and none succeeded. */
  lemma {:induction false} HandlerStatus(param: Option<string>, configured: seq<string>,
                      fetch: string -> Result<Fetched, string>, config: Config)
    ensures Respond(GatherAll(RequestedTickers(param, configured), fetch, Evaluate(config))).status in {200, 502}
    ensures Respond(GatherAll(RequestedTickers(param, configured), fetch, Evaluate(config))).status == 502 <==>
      Count(RequestedTickers(param, configured), t => fetch(t).Err?) > 0
      && Count(RequestedTickers(param, configured), t => fetch(t).Ok?) == 0
  {
    GatherPartition(RequestedTickers(param, configured), fetch, Evaluate(config));
  }
}
