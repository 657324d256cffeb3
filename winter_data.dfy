/** The winter-storm data endpoint: two validated dates, the grid of
    locations fetched in batches of ten, each location either a result or an
    error, and a status decided by the dates and by whether any location
    succeeded. The network, the clock and the unit conversion are
    parameters. */
module WinterStormData {
  import opened Wrappers
  import opened Seqs
  import opened Text

  // ---------------------------------------------------------------------------
  // validateDateParam

  /** `/^\d{4}-\d{2}-\d{2}$/`: four digits, a dash, two digits, a dash, two
      digits, and nothing else. */
  predicate IsDateShape(s: string) {
    && |s| == 10
    && AllDigits(s[..4]) && s[4] == '-'
    && AllDigits(s[5..7]) && s[7] == '-'
    && AllDigits(s[8..])
  }

  /** A query parameter is kept when it is present, non-empty, has the date
      shape and names a date (`parses`, the `Date` constructor's verdict). */
  function ValidateDateParam(value: Option<string>, parses: string -> bool): (r: Option<string>)
    ensures r.Some? <==> value.Some? && value.value != "" && IsDateShape(value.value) && parses(value.value)
    ensures r.Some? ==> r.value == value.value
  {
    match value
    case None => None
    case Some(v) =>
      if v == "" then None
      else if !IsDateShape(v) then None
      else if !parses(v) then None
      else Some(v)
  }

  // ---------------------------------------------------------------------------
  // Date strings compare chronologically

  function Year(s: string): nat
    requires IsDateShape(s)
  {
    DigitsValue(s[..4])
  }

  function Month(s: string): nat
    requires IsDateShape(s)
  {
    DigitsValue(s[5..7])
  }

  function Day(s: string): nat
    requires IsDateShape(s)
  {
    DigitsValue(s[8..])
  }

  /** Comparing `x + y` with `x' + y'` where `x` and `x'` have the same length
      compares `x` with `x'` first and `y` with `y'` on a tie. */
  lemma {:induction false} LexLeConcat(x: string, y: string, x': string, y': string)
    requires |x| == |x'|
    ensures LexLe(x + y, x' + y') <==> (x != x' && LexLe(x, x')) || (x == x' && LexLe(y, y'))
  {
    if x != [] {
      assert (x + y)[0] == x[0] && (x' + y')[0] == x'[0];
      assert (x + y)[1..] == x[1..] + y && (x' + y')[1..] == x'[1..] + y';
      LexLeConcat(x[1..], y, x'[1..], y');
      if x[0] == x'[0] {
        assert x == [x[0]] + x[1..] && x' == [x'[0]] + x'[1..];
      }
    } else {
      assert x + y == y && x' + y' == y';
    }
  }

  /** Two single characters compare by code point. */
  lemma {:induction false} LexLeChar(c: char, d: char)
    ensures LexLe([c], [d]) <==> c <= d
  {
    assert [c][1..] == [] && [d][1..] == [];
  }

  /** Digit strings of equal length compare as the numbers they spell. */
  lemma {:induction false} LexLeDigits(a: string, b: string)
    requires |a| == |b| && AllDigits(a) && AllDigits(b)
    ensures LexLe(a, b) <==> DigitsValue(a) <= DigitsValue(b)
    ensures a == b <==> DigitsValue(a) == DigitsValue(b)
    decreases |a|
  {
    if a != [] {
      var n := |a| - 1;
      var a', b' := a[..n], b[..n];
      assert AllDigits(a') && AllDigits(b');
      LexLeDigits(a', b');
      assert a == a' + [a[n]] && b == b' + [b[n]];
      LexLeConcat(a', [a[n]], b', [b[n]]);
      LexLeChar(a[n], b[n]);
      var da, db := a[n] as int - '0' as int, b[n] as int - '0' as int;
      assert DigitsValue(a) == DigitsValue(a') * 10 + da;
      assert DigitsValue(b) == DigitsValue(b') * 10 + db;
      if DigitsValue(a') < DigitsValue(b') {
        assert DigitsValue(a') * 10 + 10 <= DigitsValue(b') * 10;
      } else if DigitsValue(b') < DigitsValue(a') {
        assert DigitsValue(b') * 10 + 10 <= DigitsValue(a') * 10;
      }
    } else {
      assert LexLe(a, b);
    }
  }

  /** A date string splits into its fields and the dashes between them. */
  lemma {:induction false} DateParts(s: string)
    requires IsDateShape(s)
    ensures s == s[..4] + ([s[4]] + (s[5..7] + ([s[7]] + s[8..])))
  {
  }

  /** For date-shaped strings, JavaScript's string order is the order of the
      dates: year first, then month, then day. */
  lemma {:induction false} DateOrderIsChronological(a: string, b: string)
    requires IsDateShape(a) && IsDateShape(b)
    ensures LexLe(a, b) <==>
      Year(a) < Year(b)
      || (Year(a) == Year(b) && (Month(a) < Month(b) || (Month(a) == Month(b) && Day(a) <= Day(b))))
  {
    DateParts(a);
    DateParts(b);
    LexLeDigits(a[..4], b[..4]);
    LexLeDigits(a[5..7], b[5..7]);
    LexLeDigits(a[8..], b[8..]);
    var ra := [a[4]] + (a[5..7] + ([a[7]] + a[8..]));
    var rb := [b[4]] + (b[5..7] + ([b[7]] + b[8..]));
    LexLeConcat(a[..4], ra, b[..4], rb);
    LexLeConcat([a[4]], a[5..7] + ([a[7]] + a[8..]), [b[4]], b[5..7] + ([b[7]] + b[8..]));
    LexLeConcat(a[5..7], [a[7]] + a[8..], b[5..7], [b[7]] + b[8..]);
    LexLeConcat([a[7]], a[8..], [b[7]], b[8..]);
  }

  // ---------------------------------------------------------------------------
  // fetchLocationData: the snowfall series

  /** The snowfall series in inches: a missing reading is 0, a present one
      is converted by `toInches`; a missing array gives an empty series. */
  function SnowfallSeries(snowfall: Option<seq<Option<real>>>, toInches: real -> real): (r: seq<real>)
    ensures snowfall.None? ==> r == []
    ensures snowfall.Some? ==> |r| == |snowfall.value|
  {
    match snowfall
    case None => []
    case Some(readings) => InchesOf(readings, toInches)
  }

  function InchesOf(readings: seq<Option<real>>, toInches: real -> real): (r: seq<real>)
    ensures |r| == |readings|
  {
    if readings == [] then []
    else InchesOf(readings[..|readings| - 1], toInches)
         + [match readings[|readings| - 1] case Some(v) => toInches(v) case None => 0.0]
  }

  /** Reading `k` becomes 0 when it is missing and its conversion otherwise. */
  lemma {:induction false} InchesOfAt(readings: seq<Option<real>>, toInches: real -> real, k: nat)
    requires k < |readings|
    ensures InchesOf(readings, toInches)[k] == if readings[k].None? then 0.0 else toInches(readings[k].value)
  {
    if k < |readings| - 1 {
      InchesOfAt(readings[..|readings| - 1], toInches, k);
    }
  }

  datatype GridLocation = GridLocation(name: string, state: string, lat: real, lon: real)

  /** The parts of an archive reply the endpoint keeps. */
  datatype Reply = Reply(
    latitude: real,
    longitude: real,
    time: seq<string>,
    temperature: seq<Option<real>>,
    snowfall: Option<seq<Option<real>>>)

  datatype Hourly = Hourly(time: seq<string>, temperature: seq<Option<real>>, snowfall: seq<real>)

  datatype LocationData = LocationData(name: string, state: string, lat: real, lon: real, hourly: Hourly)

  function LocationOf(loc: GridLocation, reply: Reply, toInches: real -> real): LocationData {
    LocationData(loc.name, loc.state, reply.latitude, reply.longitude,
                 Hourly(reply.time, reply.temperature, SnowfallSeries(reply.snowfall, toInches)))
  }

  // ---------------------------------------------------------------------------
  // fetchAllLocations

  const BATCH_SIZE := 10

  /** The outcomes so far: fulfilled locations and rejection messages. */
  datatype Collected = Collected(results: seq<LocationData>, errors: seq<string>)

  /** One settled fetch: a fulfilled one adds a result, a rejected one its
      message. */
  function Settle(c: Collected, loc: GridLocation, outcome: Result<Reply, string>, toInches: real -> real): Collected {
    match outcome
    case Ok(reply) => c.(results := c.results + [LocationOf(loc, reply, toInches)])
    case Err(message) => c.(errors := c.errors + [message])
  }

  /** The outcomes of the grid, settled in grid order. */
  function CollectAll(grid: seq<GridLocation>, fetch: GridLocation -> Result<Reply, string>, toInches: real -> real): Collected {
    if grid == [] then Collected([], [])
    else
      var last := grid[|grid| - 1];
      Settle(CollectAll(grid[..|grid| - 1], fetch, toInches), last, fetch(last), toInches)
  }

  lemma {:induction false} CollectStep(grid: seq<GridLocation>, k: nat, fetch: GridLocation -> Result<Reply, string>, toInches: real -> real)
    requires k < |grid|
    ensures CollectAll(grid[..k + 1], fetch, toInches)
         == Settle(CollectAll(grid[..k], fetch, toInches), grid[k], fetch(grid[k]), toInches)
  {
    assert grid[..k + 1][..k] == grid[..k];
  }

  function Min(a: int, b: int): int {
    if a <= b then a else b
  }

  /** The batch loop: `BATCH_SIZE` locations at a time, each batch's
      outcomes in grid order. */
  method FetchAllLocations(grid: seq<GridLocation>, fetch: GridLocation -> Result<Reply, string>, toInches: real -> real)
    returns (c: Collected)
    ensures c == CollectAll(grid, fetch, toInches)
  {
    c := Collected([], []);
    var i := 0;
    while i < |grid|
      invariant 0 <= i <= |grid|
      invariant c == CollectAll(grid[..i], fetch, toInches)
      decreases |grid| - i
    {
      var batch := grid[i..Min(i + BATCH_SIZE, |grid|)];
      for j := 0 to |batch|
        invariant c == CollectAll(grid[..i + j], fetch, toInches)
      {
        CollectStep(grid, i + j, fetch, toInches);
        c := Settle(c, batch[j], fetch(batch[j]), toInches);
      }
      i := i + BATCH_SIZE;
      if i > |grid| {
        i := |grid|;
      }
    }
    assert grid[..|grid|] == grid;
  }

  predicate Fulfilled(fetch: GridLocation -> Result<Reply, string>, loc: GridLocation) {
    fetch(loc).Ok?
  }

  /** The located data of the fulfilled ones among `locs`, in order. */
  function ResultsOf(locs: seq<GridLocation>, fetch: GridLocation -> Result<Reply, string>, toInches: real -> real): seq<LocationData> {
    if locs == [] then []
    else
      var last := locs[|locs| - 1];
      ResultsOf(locs[..|locs| - 1], fetch, toInches)
      + match fetch(last) case Ok(reply) => [LocationOf(last, reply, toInches)] case Err(_) => []
  }

  /** The results are the fulfilled grid locations, in grid order. */
  lemma {:induction false} CollectResults(grid: seq<GridLocation>, fetch: GridLocation -> Result<Reply, string>, toInches: real -> real)
    ensures CollectAll(grid, fetch, toInches).results == ResultsOf(Filter(grid, l => Fulfilled(fetch, l)), fetch, toInches)
  {
    if grid != [] {
      var front := grid[..|grid| - 1];
      var last := grid[|grid| - 1];
      CollectResults(front, fetch, toInches);
      assert grid == front + [last];
      FilterConcat(front, [last], l => Fulfilled(fetch, l));
      var kept := Filter(grid, l => Fulfilled(fetch, l));
      if Fulfilled(fetch, last) {
        assert kept == Filter(front, l => Fulfilled(fetch, l)) + [last];
        assert kept[..|kept| - 1] == Filter(front, l => Fulfilled(fetch, l));
      } else {
        assert kept == Filter(front, l => Fulfilled(fetch, l));
      }
    }
  }

  /** Each grid location lands in exactly one list: as many results as
      fulfilled locations and as many errors as rejected ones. */
  lemma {:induction false} CollectPartition(grid: seq<GridLocation>, fetch: GridLocation -> Result<Reply, string>, toInches: real -> real)
    ensures |CollectAll(grid, fetch, toInches).results| == Count(grid, l => Fulfilled(fetch, l))
    ensures |CollectAll(grid, fetch, toInches).errors| == Count(grid, l => !Fulfilled(fetch, l))
    ensures |CollectAll(grid, fetch, toInches).results| + |CollectAll(grid, fetch, toInches).errors| == |grid|
  {
    if grid != [] {
      var front := grid[..|grid| - 1];
      var last := grid[|grid| - 1];
      CollectPartition(front, fetch, toInches);
      assert grid == front + [last];
      CountConcat(front, [last], l => !Fulfilled(fetch, l));
      CountConcat(front, [last], l => Fulfilled(fetch, l));
      assert Count([last], l => Fulfilled(fetch, l)) == if Fulfilled(fetch, last) then 1 else 0;
      assert Count([last], l => !Fulfilled(fetch, l)) == if Fulfilled(fetch, last) then 0 else 1;
    }
  }

  // ---------------------------------------------------------------------------
  // The handler's decisions

  /** The query: each date parameter is `None` when absent. */
  datatype Event = Event(httpMethod: string, startDate: Option<string>, endDate: Option<string>)

  datatype Body =
    | NoContent
    | Failure(error: string, details: seq<string>)
    | Data(startDate: string, endDate: string, apiUsed: string, locationCount: nat, failedCount: nat,
           locations: seq<LocationData>)

  datatype Response = Response(statusCode: int, body: Body)

  /** The external facts the handler consults: whether `new Date` accepts a
      string, whether the end date is within the last week, the grid, the
      outcome of each location's request and the inch conversion. */
  datatype Environment = Environment(
    parses: string -> bool,
    recent: bool,
    grid: seq<GridLocation>,
    fetch: GridLocation -> Result<Reply, string>,
    toInches: real -> real)

  const NoDataMessage := "Failed to retrieve weather data for any location."
  const MissingDatesMessage := "start_date and end_date query parameters are required (YYYY-MM-DD format)."
  const DateOrderMessage := "start_date must be before end_date."

  /** The response once both dates are valid and in order. */
  function Served(startDate: string, endDate: string, env: Environment, c: Collected): Response {
    if |c.results| == 0 then
      Response(502, Failure(NoDataMessage, c.errors[..Min(5, |c.errors|)]))
    else
      Response(200, Data(startDate, endDate, if env.recent then "forecast" else "archive",
                         |c.results|, |c.errors|, c.results))
  }

  /** The answer to a GET: the dates first, then the fetch. */
  function Dated(startDate: Option<string>, endDate: Option<string>, env: Environment): Response {
    if startDate.None? || endDate.None? then
      Response(400, Failure(MissingDatesMessage, []))
    else if !LexLe(startDate.value, endDate.value) then
      Response(400, Failure(DateOrderMessage, []))
    else
      Served(startDate.value, endDate.value, env, CollectAll(env.grid, env.fetch, env.toInches))
  }

  /** What the handler answers. */
  function Respond(event: Event, env: Environment): Response {
    if event.httpMethod == "OPTIONS" then Response(204, NoContent)
    else if event.httpMethod != "GET" then Response(405, Failure("Method not allowed", []))
    else Dated(ValidateDateParam(event.startDate, env.parses), ValidateDateParam(event.endDate, env.parses), env)
  }

  method Handler(event: Event, env: Environment) returns (r: Response)
    ensures r == Respond(event, env)
  {
    if event.httpMethod == "OPTIONS" {
      return Response(204, NoContent);
    }
    if event.httpMethod != "GET" {
      return Response(405, Failure("Method not allowed", []));
    }
    var startDate := ValidateDateParam(event.startDate, env.parses);
    var endDate := ValidateDateParam(event.endDate, env.parses);
    if startDate.None? || endDate.None? || !LexLe(startDate.value, endDate.value) {
      // a rejected date: the answer does not depend on the fetch
      return Dated(startDate, endDate, env);
    }
    var c := FetchAllLocations(env.grid, env.fetch, env.toInches);
    r := Served(startDate.value, endDate.value, env, c);
  }

  /** A GET with two valid dates in chronological order is served: 502 when
      no location succeeded, otherwise 200 with as many locations as
      succeeded and as many failures as were rejected, which together are
      the whole grid. */
  lemma {:induction false} ServedOutcome(startDate: string, endDate: string, env: Environment)
    ensures var r := Served(startDate, endDate, env, CollectAll(env.grid, env.fetch, env.toInches));
      && (r.statusCode == 502 <==> Count(env.grid, l => Fulfilled(env.fetch, l)) == 0)
      && (r.statusCode == 502 || r.statusCode == 200)
      && (r.statusCode == 200 ==>
            r.body.locationCount == Count(env.grid, l => Fulfilled(env.fetch, l))
            && r.body.failedCount == Count(env.grid, l => !Fulfilled(env.fetch, l))
            && r.body.locationCount + r.body.failedCount == |env.grid|)
  {
    CollectPartition(env.grid, env.fetch, env.toInches);
  }

  /** The dates decide the 400s: a missing or malformed date, or a start
      after the end; both dates valid and in order always reach the fetch. */
  lemma {:induction false} DateDecisions(event: Event, env: Environment)
    requires event.httpMethod == "GET"
    ensures Respond(event, env).statusCode == 400 <==>
      ValidateDateParam(event.startDate, env.parses).None?
      || ValidateDateParam(event.endDate, env.parses).None?
      || !LexLe(event.startDate.value, event.endDate.value)
    ensures Respond(event, env).statusCode != 400 ==>
      IsDateShape(event.startDate.value) && IsDateShape(event.endDate.value)
      && LexLe(event.startDate.value, event.endDate.value)
  {
    var startDate := ValidateDateParam(event.startDate, env.parses);
    var endDate := ValidateDateParam(event.endDate, env.parses);
    assert event.httpMethod != "OPTIONS" by {
      assert "GET"[0] != "OPTIONS"[0];
    }
    assert Respond(event, env) == Dated(startDate, endDate, env);
    if startDate.Some? && endDate.Some? && LexLe(startDate.value, endDate.value) {
      var r := Served(startDate.value, endDate.value, env, CollectAll(env.grid, env.fetch, env.toInches));
      assert r.statusCode != 400;
    }
  }
}
