/** The winter-storm comparison endpoint: hourly temperature and snowfall for a
    list of locations, folded into fixed-width time steps per location and then
    laid side by side, one event step per time step. */
module WinterStormCompare {
  import opened Wrappers
  import opened Seqs
  import Calendar

  function Min(a: int, b: int): int {
    if a <= b then a else b
  }

  // ---------------------------------------------------------------------------
  // chunkArray

  /** `a` cut into consecutive slices of `size` elements; the last slice
      holds what is left. */
  function Chunks<T>(a: seq<T>, size: int): seq<seq<T>>
    requires size >= 1
    decreases |a|
  {
    if a == [] then []
    else if |a| <= size then [a]
    else [a[..size]] + Chunks(a[size..], size)
  }

  /** The slices put back together are `a`. */
  lemma {:induction false} ChunksFlatten<T>(a: seq<T>, size: int)
    requires size >= 1
    ensures Flatten(Chunks(a, size)) == a
    decreases |a|
  {
    if |a| > size {
      ChunksFlatten(a[size..], size);
      assert a[..size] + a[size..] == a;
    }
  }

  /** All slices but the last are full, and none is empty. */
  lemma {:induction false} ChunksSizes<T>(a: seq<T>, size: int)
    requires size >= 1
    ensures forall j :: 0 <= j < |Chunks(a, size)| - 1 ==> |Chunks(a, size)[j]| == size
    ensures forall j :: 0 <= j < |Chunks(a, size)| ==> 0 < |Chunks(a, size)[j]| <= size
    decreases |a|
  {
    if |a| > size {
      ChunksSizes(a[size..], size);
    }
  }

  /** There are ceil(|a| / size) slices. */
  lemma {:induction false} ChunksCount<T>(a: seq<T>, size: int)
    requires size >= 1
    ensures |Chunks(a, size)| == (|a| + size - 1) / size
    decreases |a|
  {
    if a == [] {
      Calendar.DivUnique(size - 1, size, 0, size - 1);
    } else if |a| <= size {
      Calendar.DivUnique(|a| + size - 1, size, 1, |a| - 1);
    } else {
      ChunksCount(a[size..], size);
      var m := |a| - 1;
      var q, r := m / size, m % size;
      assert m + size == (q + 1) * size + r;
      Calendar.DivUnique(m + size, size, q + 1, r);
    }
  }

  /** The slices from position `i` on start with the slice at `i`. */
  lemma {:induction false} ChunksFrom<T>(a: seq<T>, size: int, i: nat)
    requires size >= 1 && i < |a|
    ensures Chunks(a[i..], size) == [a[i..Min(i + size, |a|)]] + Chunks(a[Min(i + size, |a|)..], size)
  {
    if |a| - i > size {
      assert a[i..][..size] == a[i..i + size];
      assert a[i..][size..] == a[i + size..];
    } else {
      assert a[i..] == a[i..|a|];
      assert a[|a|..] == [];
    }
  }

  /** `chunkArray`: slices of `size` elements, taken from the front. */
  method ChunkArray<T>(a: seq<T>, size: int) returns (chunks: seq<seq<T>>)
    requires size >= 1
    ensures chunks == Chunks(a, size)
  {
    chunks := [];
    var i := 0;
    while i < |a|
      invariant 0 <= i <= |a|
      invariant Chunks(a, size) == chunks + Chunks(a[i..], size)
      decreases |a| - i
    {
      ChunksFrom(a, size, i);
      chunks := chunks + [a[i..Min(i + size, |a|)]];
      i := Min(i + size, |a|);
    }
    assert a[|a|..] == [];
  }

  // ---------------------------------------------------------------------------
  // aggregateLocationData

  /** The hourly series of one location. A missing timestamp is the empty
      string, a missing reading is `None`; the reading arrays may be shorter
      than `time`, and a reading past their end is missing too. */
  datatype HourlyData = HourlyData(time: seq<string>, temp: seq<Option<real>>, snow: seq<Option<real>>)

  datatype Step = Step(time: string, avgTempC: Option<real>, snowfallStep: real, snowfallCumulative: real)

  datatype Aggregates = Aggregates(
    steps: seq<Step>,
    totalSnowfallMm: real,
    belowFreezingHours: nat,
    avgTempC: Option<real>)

  /** `xs[i]`, or `default` past the end: reading past the end of an array
      gives `undefined`, which the handler treats like a missing reading. */
  function At<T>(xs: seq<T>, i: nat, default: T): T {
    if i < |xs| then xs[i] else default
  }

  /** The temperature readings of samples `lo` up to `hi`. */
  function TempsIn(data: HourlyData, lo: nat, hi: nat): (ts: seq<Option<real>>)
    requires lo <= hi
    ensures |ts| == hi - lo
    decreases hi
  {
    if hi == lo then [] else TempsIn(data, lo, hi - 1) + [At(data.temp, hi - 1, None)]
  }

  /** The snowfall readings of samples `lo` up to `hi`, a missing reading
      counted as 0. */
  function SnowIn(data: HourlyData, lo: nat, hi: nat): (ss: seq<real>)
    requires lo <= hi
    ensures |ss| == hi - lo
    decreases hi
  {
    if hi == lo then [] else SnowIn(data, lo, hi - 1) + [At(data.snow, hi - 1, None).GetOr(0.0)]
  }

  /** Sum and number of the temperatures present in `ts`. */
  function TempStats(ts: seq<Option<real>>): (stats: (real, nat))
    ensures stats.1 <= |ts|
  {
    if ts == [] then (0.0, 0)
    else
      var prev := TempStats(ts[..|ts| - 1]);
      var t := ts[|ts| - 1];
      if t.Some? then (prev.0 + t.value, prev.1 + 1) else prev
  }

  /** The average of the present temperatures, `None` when there are none. */
  function Mean(stats: (real, nat)): Option<real> {
    if stats.1 == 0 then None else Some(stats.0 / stats.1 as real)
  }

  /** The first timestamp that is set among positions `lo` up to `hi`, or the
      empty string when none is. */
  function FirstTimeIn(ts: seq<string>, lo: nat, hi: nat): string
    requires lo <= hi <= |ts|
  {
    if hi == lo then ""
    else
      var prev := FirstTimeIn(ts, lo, hi - 1);
      if prev == "" then ts[hi - 1] else prev
  }

  predicate IsBelowFreezing(t: Option<real>) {
    t.Some? && t.value < 0.0
  }

  /** How many readings of `ts` are temperatures below 0. */
  function BelowFreezing(ts: seq<Option<real>>): (k: nat)
    ensures k <= |ts|
  {
    if ts == [] then 0
    else BelowFreezing(ts[..|ts| - 1]) + if IsBelowFreezing(ts[|ts| - 1]) then 1 else 0
  }

  /** ceil(n / interval). */
  function NumSteps(n: nat, interval: int): nat
    requires interval >= 1
  {
    (n + interval - 1) / interval
  }

  /** The step of the bucket that starts at sample `lo`: it covers `interval`
      samples, cut at the end of the series. */
  function StepAt(data: HourlyData, interval: int, lo: nat): Step
    requires interval >= 1 && lo < |data.time|
  {
    var hi := Min(lo + interval, |data.time|);
    Step(FirstTimeIn(data.time, lo, hi),
         Mean(TempStats(TempsIn(data, lo, hi))),
         SumReal(SnowIn(data, lo, hi)),
         SumReal(SnowIn(data, 0, hi)))
  }

  /** The steps of the buckets that start at `lo`, `lo + interval`, ... before
      the end of the series. */
  function StepsFrom(data: HourlyData, interval: int, lo: nat): seq<Step>
    requires interval >= 1
    decreases |data.time| - lo
  {
    if lo >= |data.time| then [] else [StepAt(data, interval, lo)] + StepsFrom(data, interval, lo + interval)
  }

  /** `steps` are the steps of the buckets before `lo`. */
  predicate StepsBefore(data: HourlyData, interval: int, steps: seq<Step>, lo: nat)
    requires interval >= 1
  {
    StepsFrom(data, interval, 0) == steps + StepsFrom(data, interval, lo)
  }

  /** What the aggregation of one location means: a step per bucket, the
      snowfall summed over all samples, the temperatures below freezing
      counted and the present temperatures averaged. */
  function Aggregate(data: HourlyData, interval: int): (r: Aggregates)
    requires interval >= 1
    ensures r.belowFreezingHours <= |data.time|
  {
    var temps := TempsIn(data, 0, |data.time|);
    Aggregates(
      StepsFrom(data, interval, 0),
      SumReal(SnowIn(data, 0, |data.time|)),
      BelowFreezing(temps),
      Mean(TempStats(temps)))
  }

  /** The readings of adjacent ranges concatenate. */
  lemma {:induction false} SnowInSplit(data: HourlyData, lo: nat, mid: nat, hi: nat)
    requires lo <= mid <= hi
    ensures SnowIn(data, lo, hi) == SnowIn(data, lo, mid) + SnowIn(data, mid, hi)
    decreases hi
  {
    if hi > mid {
      SnowInSplit(data, lo, mid, hi - 1);
    }
  }

  /** Whether `d` divides `m`, by repeated subtraction. */
  predicate DivisibleBy(m: nat, d: nat)
    requires d >= 1
    decreases m
  {
    if m < d then m == 0 else DivisibleBy(m - d, d)
  }

  /** `DivisibleBy` is the remainder test `m % d == 0` of the source. */
  lemma {:induction false} DivisibleByMeaning(m: nat, d: nat)
    requires d >= 1
    ensures DivisibleBy(m, d) <==> m % d == 0
    decreases m
  {
    if m < d {
      Calendar.DivUnique(m, d, 0, m);
    } else {
      DivisibleByMeaning(m - d, d);
      Calendar.DivUnique(m, d, (m - d) / d + 1, (m - d) % d);
    }
  }

  /** A step is emitted exactly where the bucket starting at `lo` ends, and
      the next bucket starts on a multiple of `interval` again. */
  lemma {:induction false} EmitBounds(n: nat, interval: nat, lo: nat, i: nat)
    requires interval >= 1 && DivisibleBy(lo, interval)
    requires lo <= i < n && i - lo < interval
    requires DivisibleBy(i + 1, interval) || i == n - 1
    ensures Min(lo + interval, n) == i + 1
    ensures i + 1 < n ==> DivisibleBy(i + 1, interval)
  {
    DivisibleByMeaning(lo, interval);
    DivisibleByMeaning(i + 1, interval);
    DivisibleByMeaning(lo + interval, interval);
    var q := lo / interval;
    assert lo == q * interval;
    if i + 1 - lo < interval {
      Calendar.DivUnique(i + 1, interval, q, i + 1 - lo);
    }
    assert lo + interval == (q + 1) * interval;
    Calendar.DivUnique(lo + interval, interval, q + 1, 0);
  }

  /** Without an emission the bucket stays shorter than `interval`. */
  lemma {:induction false} NoEmitBounds(interval: nat, lo: nat, i: nat)
    requires interval >= 1 && DivisibleBy(lo, interval)
    requires lo <= i && i - lo < interval
    requires !DivisibleBy(i + 1, interval)
    ensures i + 1 - lo < interval
  {
    DivisibleByMeaning(lo, interval);
    DivisibleByMeaning(lo + interval, interval);
    var q := lo / interval;
    assert lo + interval == (q + 1) * interval;
    Calendar.DivUnique(lo + interval, interval, q + 1, 0);
  }

  /** The open bucket holds the readings of samples `lo` up to `hi`. */
  predicate Buffered(data: HourlyData, lo: nat, hi: nat, stepTime: string,
                     stepTemp: seq<Option<real>>, stepSnow: seq<real>)
    requires lo <= hi <= |data.time|
  {
    && stepTime == FirstTimeIn(data.time, lo, hi)
    && stepTemp == TempsIn(data, lo, hi)
    && stepSnow == SnowIn(data, lo, hi)
  }

  /** Buffers the readings of sample `i` into the open bucket. */
  method BufferSample(data: HourlyData, ghost lo: nat, i: nat, stepTime: string,
                      stepTemp: seq<Option<real>>, stepSnow: seq<real>)
    returns (newTime: string, newTemp: seq<Option<real>>, newSnow: seq<real>)
    requires lo <= i < |data.time|
    requires Buffered(data, lo, i, stepTime, stepTemp, stepSnow)
    ensures Buffered(data, lo, i + 1, newTime, newTemp, newSnow)
  {
    newTemp := stepTemp + [At(data.temp, i, None)];
    newSnow := stepSnow + [At(data.snow, i, None).GetOr(0.0)];
    newTime := if stepTime == "" then data.time[i] else stepTime;
  }

  /** The whole-series totals cover the temperatures of the samples before `i`. */
  predicate Counted(data: HourlyData, i: nat, tempSum: real, tempCount: nat, belowFreezingHours: nat) {
    && tempSum == TempStats(TempsIn(data, 0, i)).0
    && tempCount == TempStats(TempsIn(data, 0, i)).1
    && belowFreezingHours == BelowFreezing(TempsIn(data, 0, i))
  }

  /** Counts reading `i` into the whole-series temperature totals. */
  method CountTemperature(data: HourlyData, i: nat, tempValue: Option<real>,
                          tempSum: real, tempCount: nat, belowFreezingHours: nat)
    returns (newSum: real, newCount: nat, newBelow: nat)
    requires tempValue == At(data.temp, i, None)
    requires Counted(data, i, tempSum, tempCount, belowFreezingHours)
    ensures Counted(data, i + 1, newSum, newCount, newBelow)
  {
    assert TempsIn(data, 0, i + 1)[..i] == TempsIn(data, 0, i);
    newSum, newCount, newBelow := tempSum, tempCount, belowFreezingHours;
    if tempValue.Some? {
      newSum := newSum + tempValue.value;
      newCount := newCount + 1;
      if tempValue.value < 0.0 {
        newBelow := newBelow + 1;
      }
    }
  }

  /** The steps and the snowfall total cover the buckets before `start`,
      and the open bucket starts at `start`, at most one interval before
      sample `i`. */
  predicate ClosedBefore(data: HourlyData, interval: int, start: nat, i: nat, steps: seq<Step>, cumulativeSnow: real)
    requires interval >= 1
  {
    && start <= i <= |data.time| && i - start < interval
    && (start < |data.time| ==> DivisibleBy(start, interval))
    && StepsBefore(data, interval, steps, start)
    && cumulativeSnow == SumReal(SnowIn(data, 0, start))
  }

  /** The snowfall of a bucket extends the running total from the bucket's
      start to its end. */
  lemma {:induction false} BucketSnowfall(data: HourlyData, lo: nat, hi: nat, cumulativeSnow: real, stepSnow: seq<real>)
    requires lo <= hi
    requires cumulativeSnow == SumReal(SnowIn(data, 0, lo)) && stepSnow == SnowIn(data, lo, hi)
    ensures cumulativeSnow + SumReal(stepSnow) == SumReal(SnowIn(data, 0, hi))
  {
    SnowInSplit(data, 0, lo, hi);
    SumRealConcat(SnowIn(data, 0, lo), SnowIn(data, lo, hi));
  }

  /** The buffered readings of the bucket that starts at `lo` reduce to its
      step. */
  lemma {:induction false} BucketStep(data: HourlyData, interval: nat, lo: nat, hi: nat, stepTime: string,
                   stepTemp: seq<Option<real>>, stepSnow: seq<real>)
    requires interval >= 1 && lo < hi == Min(lo + interval, |data.time|)
    requires Buffered(data, lo, hi, stepTime, stepTemp, stepSnow)
    ensures StepAt(data, interval, lo)
         == Step(stepTime, Mean(TempStats(stepTemp)), SumReal(stepSnow), SumReal(SnowIn(data, 0, hi)))
  {
  }

  /** Closing the bucket that starts at `lo` moves one step from the steps
      still to come to the steps already made. */
  lemma {:induction false} StepsBeforeNext(data: HourlyData, interval: nat, steps: seq<Step>, step: Step, lo: nat, hi: nat)
    requires interval >= 1 && lo < hi == Min(lo + interval, |data.time|)
    requires StepsBefore(data, interval, steps, lo) && step == StepAt(data, interval, lo)
    ensures StepsBefore(data, interval, steps + [step], hi)
  {
    assert StepsFrom(data, interval, lo + interval) == StepsFrom(data, interval, hi);
    assert steps + StepsFrom(data, interval, lo) == steps + [step] + StepsFrom(data, interval, hi);
  }

  /** Closing the bucket that starts at `lo` appends its step to the steps
      before it. */
  lemma {:induction false} FlushedSteps(data: HourlyData, interval: nat, lo: nat, hi: nat, steps: seq<Step>,
                     stepTime: string, stepTemp: seq<Option<real>>, stepSnow: seq<real>, cumulativeSnow: real)
    requires interval >= 1 && lo < hi == Min(lo + interval, |data.time|)
    requires StepsBefore(data, interval, steps, lo)
    requires Buffered(data, lo, hi, stepTime, stepTemp, stepSnow)
    requires cumulativeSnow + SumReal(stepSnow) == SumReal(SnowIn(data, 0, hi))
    ensures StepsBefore(data, interval,
                        steps + [Step(stepTime, Mean(TempStats(stepTemp)), SumReal(stepSnow), cumulativeSnow + SumReal(stepSnow))],
                        hi)
  {
    BucketStep(data, interval, lo, hi, stepTime, stepTemp, stepSnow);
    StepsBeforeNext(data, interval, steps, Step(stepTime, Mean(TempStats(stepTemp)), SumReal(stepSnow), cumulativeSnow + SumReal(stepSnow)), lo, hi);
  }

  /** Closing the open bucket after sample `i` appends its step and moves the
      start of the open bucket to `i + 1`. */
  lemma {:induction false} FlushedState(data: HourlyData, interval: nat, lo: nat, i: nat, steps: seq<Step>,
                     stepTime: string, stepTemp: seq<Option<real>>, stepSnow: seq<real>, cumulativeSnow: real)
    requires interval >= 1 && i < |data.time|
    requires DivisibleBy(i + 1, interval) || i == |data.time| - 1
    requires ClosedBefore(data, interval, lo, i, steps, cumulativeSnow)
    requires Buffered(data, lo, i + 1, stepTime, stepTemp, stepSnow)
    ensures ClosedBefore(data, interval, i + 1, i + 1,
                         steps + [Step(stepTime, Mean(TempStats(stepTemp)), SumReal(stepSnow), cumulativeSnow + SumReal(stepSnow))],
                         cumulativeSnow + SumReal(stepSnow))
  {
    EmitBounds(|data.time|, interval, lo, i);
    BucketSnowfall(data, lo, i + 1, cumulativeSnow, stepSnow);
    FlushedSteps(data, interval, lo, i + 1, steps, stepTime, stepTemp, stepSnow, cumulativeSnow);
  }

  /** Closes the bucket that starts at `lo` after sample `i`: its buffered
      readings are reduced to a step appended to `steps`, and its snowfall is
      added to the running total. */
  method FlushBucket(data: HourlyData, interval: nat, ghost lo: nat, i: nat, steps: seq<Step>,
                     stepTime: string, stepTemp: seq<Option<real>>, stepSnow: seq<real>, cumulativeSnow: real)
    returns (newSteps: seq<Step>, newCumulativeSnow: real)
    requires interval >= 1 && i < |data.time|
    requires DivisibleBy(i + 1, interval) || i == |data.time| - 1
    requires ClosedBefore(data, interval, lo, i, steps, cumulativeSnow)
    requires Buffered(data, lo, i + 1, stepTime, stepTemp, stepSnow)
    ensures ClosedBefore(data, interval, i + 1, i + 1, newSteps, newCumulativeSnow)
  {
    FlushedState(data, interval, lo, i, steps, stepTime, stepTemp, stepSnow, cumulativeSnow);
    newSteps := steps + [Step(stepTime, Mean(TempStats(stepTemp)), SumReal(stepSnow), cumulativeSnow + SumReal(stepSnow))];
    newCumulativeSnow := cumulativeSnow + SumReal(stepSnow);
  }

  /** A sample that does not end its bucket leaves the closed steps as they are. */
  lemma {:induction false} KeepBucket(data: HourlyData, interval: nat, start: nat, i: nat, steps: seq<Step>, cumulativeSnow: real)
    requires interval >= 1 && i < |data.time| - 1 && !DivisibleBy(i + 1, interval)
    requires ClosedBefore(data, interval, start, i, steps, cumulativeSnow)
    ensures ClosedBefore(data, interval, start, i + 1, steps, cumulativeSnow)
  {
    NoEmitBounds(interval, start, i);
  }

  /** After sample `i` is buffered: the open bucket is closed when `i + 1`
      is a multiple of the interval or `i` is the last sample, and an empty
      one is opened. */
  method CloseBucketIfDue(data: HourlyData, interval: nat, ghost start: nat, i: nat, steps: seq<Step>, cumulativeSnow: real,
                          stepTime: string, stepTemp: seq<Option<real>>, stepSnow: seq<real>)
    returns (newSteps: seq<Step>, newCumulativeSnow: real, newTime: string, newTemp: seq<Option<real>>,
             newSnow: seq<real>, ghost newStart: nat)
    requires interval >= 1 && i < |data.time|
    requires ClosedBefore(data, interval, start, i, steps, cumulativeSnow)
    requires Buffered(data, start, i + 1, stepTime, stepTemp, stepSnow)
    ensures ClosedBefore(data, interval, newStart, i + 1, newSteps, newCumulativeSnow)
    ensures Buffered(data, newStart, i + 1, newTime, newTemp, newSnow)
    ensures i + 1 == |data.time| ==> newStart == i + 1
  {
    if DivisibleBy(i + 1, interval) || i == |data.time| - 1 {
      newSteps, newCumulativeSnow := FlushBucket(data, interval, start, i, steps, stepTime, stepTemp, stepSnow, cumulativeSnow);
      newTime, newTemp, newSnow := "", [], [];
      newStart := i + 1;
    } else {
      KeepBucket(data, interval, start, i, steps, cumulativeSnow);
      newSteps, newCumulativeSnow, newTime, newTemp, newSnow := steps, cumulativeSnow, stepTime, stepTemp, stepSnow;
      newStart := start;
    }
  }

  /** The single pass over the samples: readings are buffered until the bucket
      is full or the series ends, then the buffered bucket becomes a step. */
  method AggregateLocationData(data: HourlyData, interval: nat) returns (r: Aggregates)
    requires interval >= 1
    ensures r == Aggregate(data, interval)
  {
    var steps: seq<Step> := [];
    var cumulativeSnow := 0.0;
    var stepTemp: seq<Option<real>> := [];
    var stepSnow: seq<real> := [];
    var stepTime := "";
    var belowFreezingHours: nat := 0;
    var tempSum := 0.0;
    var tempCount: nat := 0;
    ghost var start: nat := 0;
    for i: nat := 0 to |data.time|
      invariant ClosedBefore(data, interval, start, i, steps, cumulativeSnow)
      invariant i == |data.time| ==> start == i
      invariant Buffered(data, start, i, stepTime, stepTemp, stepSnow)
      invariant Counted(data, i, tempSum, tempCount, belowFreezingHours)
    {
      var tempValue := At(data.temp, i, None);
      stepTime, stepTemp, stepSnow := BufferSample(data, start, i, stepTime, stepTemp, stepSnow);
      tempSum, tempCount, belowFreezingHours := CountTemperature(data, i, tempValue, tempSum, tempCount, belowFreezingHours);
      steps, cumulativeSnow, stepTime, stepTemp, stepSnow, start :=
        CloseBucketIfDue(data, interval, start, i, steps, cumulativeSnow, stepTime, stepTemp, stepSnow);
    }
    r := Aggregates(steps, cumulativeSnow, belowFreezingHours, Mean((tempSum, tempCount)));
  }

  // ---------------------------------------------------------------------------
  // What the aggregation promises

  /** The number of buckets that start at `lo`, `lo + interval`, ... before `n`. */
  function BucketCount(n: nat, interval: nat, lo: nat): nat
    requires interval >= 1
    decreases n - lo
  {
    if lo >= n then 0 else 1 + BucketCount(n, interval, lo + interval)
  }

  /** One step per bucket. */
  lemma {:induction false} StepsFromLength(data: HourlyData, interval: nat, lo: nat)
    requires interval >= 1
    ensures |StepsFrom(data, interval, lo)| == BucketCount(|data.time|, interval, lo)
    decreases |data.time| - lo
  {
    if lo < |data.time| {
      StepsFromLength(data, interval, lo + interval);
    }
  }

  /** There are ceil((n - lo) / interval) buckets from `lo` on. */
  lemma {:induction false} BucketCountIsCeiling(n: nat, interval: nat, lo: nat)
    requires interval >= 1 && lo <= n
    ensures BucketCount(n, interval, lo) == NumSteps(n - lo, interval)
    decreases n - lo
  {
    if lo == n {
      Calendar.DivUnique(interval - 1, interval, 0, interval - 1);
    } else if lo + interval >= n {
      Calendar.DivUnique(n - lo + interval - 1, interval, 1, n - lo - 1);
    } else {
      BucketCountIsCeiling(n, interval, lo + interval);
      var m := n - lo - 1;
      var q, r := m / interval, m % interval;
      assert m + interval == (q + 1) * interval + r;
      Calendar.DivUnique(m + interval, interval, q + 1, r);
    }
  }

  /** The series yields ceil(|time| / interval) steps. */
  lemma {:induction false} StepCount(data: HourlyData, interval: nat)
    requires interval >= 1
    ensures |Aggregate(data, interval).steps| == NumSteps(|data.time|, interval)
  {
    StepsFromLength(data, interval, 0);
    BucketCountIsCeiling(|data.time|, interval, 0);
  }

  /** Each step's cumulative snowfall is the cumulative snowfall before it,
      starting at `base`, plus the step's own snowfall. */
  predicate RunningTotal(steps: seq<Step>, base: real)
    decreases |steps|
  {
    steps == []
    || (steps[0].snowfallCumulative == base + steps[0].snowfallStep
        && RunningTotal(steps[1..], steps[0].snowfallCumulative))
  }

  /** A step's cumulative snowfall is the snowfall before its bucket plus the
      bucket's own, which is the snowfall up to the bucket's end. */
  lemma {:induction false} StepCumulative(data: HourlyData, interval: nat, lo: nat)
    requires interval >= 1 && lo < |data.time|
    ensures StepAt(data, interval, lo).snowfallCumulative
         == SumReal(SnowIn(data, 0, lo)) + StepAt(data, interval, lo).snowfallStep
  {
    BucketSnowfall(data, lo, Min(lo + interval, |data.time|), SumReal(SnowIn(data, 0, lo)),
                   SnowIn(data, lo, Min(lo + interval, |data.time|)));
  }

  lemma {:induction false} StepsFromRunningTotal(data: HourlyData, interval: nat, lo: nat)
    requires interval >= 1 && lo <= |data.time|
    ensures RunningTotal(StepsFrom(data, interval, lo), SumReal(SnowIn(data, 0, lo)))
    decreases |data.time| - lo
  {
    if lo < |data.time| {
      StepCumulative(data, interval, lo);
      if lo + interval <= |data.time| {
        StepsFromRunningTotal(data, interval, lo + interval);
      }
      assert StepsFrom(data, interval, lo)[1..] == StepsFrom(data, interval, lo + interval);
    }
  }

  /** The cumulative snowfall runs from 0 through the steps. */
  lemma {:induction false} CumulativeIsRunningTotal(data: HourlyData, interval: nat)
    requires interval >= 1
    ensures RunningTotal(Aggregate(data, interval).steps, 0.0)
  {
    StepsFromRunningTotal(data, interval, 0);
  }

  lemma {:induction false} LastStepCumulative(data: HourlyData, interval: nat, lo: nat)
    requires interval >= 1 && lo < |data.time|
    ensures StepsFrom(data, interval, lo) != []
    ensures StepsFrom(data, interval, lo)[|StepsFrom(data, interval, lo)| - 1].snowfallCumulative
         == SumReal(SnowIn(data, 0, |data.time|))
    decreases |data.time| - lo
  {
    var steps := StepsFrom(data, interval, lo);
    var rest := StepsFrom(data, interval, lo + interval);
    assert steps == [StepAt(data, interval, lo)] + rest;
    if lo + interval < |data.time| {
      LastStepCumulative(data, interval, lo + interval);
      assert steps[|steps| - 1] == rest[|rest| - 1];
    }
  }

  /** The last step's cumulative snowfall is the series total. */
  lemma {:induction false} LastCumulativeIsTotal(data: HourlyData, interval: nat)
    requires interval >= 1 && |data.time| > 0
    ensures Aggregate(data, interval).steps != []
    ensures Aggregate(data, interval).steps[|Aggregate(data, interval).steps| - 1].snowfallCumulative
         == Aggregate(data, interval).totalSnowfallMm
  {
    LastStepCumulative(data, interval, 0);
  }

  /** Only a present temperature can be below freezing. */
  lemma {:induction false} BelowFreezingAtMostPresent(ts: seq<Option<real>>)
    ensures BelowFreezing(ts) <= TempStats(ts).1
  {
    if ts != [] {
      BelowFreezingAtMostPresent(ts[..|ts| - 1]);
    }
  }

  /** The average is missing exactly when no reading is present. */
  lemma {:induction false} MeanMissing(ts: seq<Option<real>>)
    ensures Mean(TempStats(ts)).None? <==> forall k :: 0 <= k < |ts| ==> ts[k].None?
  {
    if ts != [] {
      var front := ts[..|ts| - 1];
      MeanMissing(front);
      assert forall k :: 0 <= k < |front| ==> front[k] == ts[k];
    }
  }

  /** Reading `k` of the range is the reading of sample `lo + k`. */
  lemma {:induction false} TempsInAt(data: HourlyData, lo: nat, hi: nat, k: nat)
    requires lo <= hi && k < hi - lo
    ensures TempsIn(data, lo, hi)[k] == At(data.temp, lo + k, None)
    decreases hi
  {
    if k < hi - 1 - lo {
      TempsInAt(data, lo, hi - 1, k);
    }
  }

  /** The series figures: the freezing hours never exceed the present
      readings, and the average is missing exactly when every reading is. */
  lemma {:induction false} TemperatureTotals(data: HourlyData, interval: nat)
    requires interval >= 1
    ensures Aggregate(data, interval).belowFreezingHours <= TempStats(TempsIn(data, 0, |data.time|)).1
    ensures Aggregate(data, interval).avgTempC.None?
        <==> forall k :: 0 <= k < |data.time| ==> At(data.temp, k, None).None?
  {
    var ts := TempsIn(data, 0, |data.time|);
    BelowFreezingAtMostPresent(ts);
    MeanMissing(ts);
    forall k | 0 <= k < |data.time|
      ensures ts[k] == At(data.temp, k, None)
    {
      TempsInAt(data, 0, |data.time|, k);
    }
  }

  /** A range without any timestamp has the empty time. */
  lemma {:induction false} FirstTimeInEmpty(ts: seq<string>, lo: nat, hi: nat)
    requires lo <= hi <= |ts|
    ensures FirstTimeIn(ts, lo, hi) == "" <==> forall k :: lo <= k < hi ==> ts[k] == ""
    decreases hi
  {
    if hi > lo {
      FirstTimeInEmpty(ts, lo, hi - 1);
    }
  }

  /** A step is stamped with the first timestamp its bucket has. */
  lemma {:induction false} FirstTimeInIsFirst(ts: seq<string>, lo: nat, hi: nat, k: nat)
    requires lo <= k < hi <= |ts| && ts[k] != ""
    requires forall m :: lo <= m < k ==> ts[m] == ""
    ensures FirstTimeIn(ts, lo, hi) == ts[k]
    decreases hi
  {
    if hi - 1 > k {
      FirstTimeInIsFirst(ts, lo, hi - 1, k);
    } else {
      FirstTimeInEmpty(ts, lo, k);
    }
  }

  // ---------------------------------------------------------------------------
  // buildEventSteps

  datatype Location = Location(id: string, name: string, lat: real, lon: real)

  /** One location of the response: its identity and its aggregates. */
  datatype LocationSummary = LocationSummary(
    id: string,
    name: string,
    lat: real,
    lon: real,
    totalSnowfallMm: real,
    belowFreezingHours: nat,
    avgTempC: Option<real>,
    steps: seq<Step>)

  /** One time step across all locations: the per-location columns, `None`
      where a location has no such step, and their averages over all
      locations, a missing value counting as 0. */
  datatype EventStep = EventStep(
    time: string,
    tempC: seq<Option<real>>,
    snowfallCumulative: seq<Option<real>>,
    avgTempC: real,
    avgSnowfallCumulative: real)

  /** The average temperature of step `i` of a location, `None` when the
      location has no step `i`. */
  function TempCell(loc: LocationSummary, i: nat): Option<real> {
    if i < |loc.steps| then loc.steps[i].avgTempC else None
  }

  /** The cumulative snowfall of step `i` of a location, `None` when the
      location has no step `i`. */
  function SnowCell(loc: LocationSummary, i: nat): Option<real> {
    if i < |loc.steps| then Some(loc.steps[i].snowfallCumulative) else None
  }

  function TempColumn(locs: seq<LocationSummary>, i: nat): (col: seq<Option<real>>)
    ensures |col| == |locs|
  {
    if locs == [] then [] else TempColumn(locs[..|locs| - 1], i) + [TempCell(locs[|locs| - 1], i)]
  }

  function SnowColumn(locs: seq<LocationSummary>, i: nat): (col: seq<Option<real>>)
    ensures |col| == |locs|
  {
    if locs == [] then [] else SnowColumn(locs[..|locs| - 1], i) + [SnowCell(locs[|locs| - 1], i)]
  }

  /** The values of a column, a missing one as 0 (`value ?? 0`). */
  function OrZero(xs: seq<Option<real>>): (ys: seq<real>)
    ensures |ys| == |xs|
  {
    if xs == [] then [] else OrZero(xs[..|xs| - 1]) + [xs[|xs| - 1].GetOr(0.0)]
  }

  /** Event step `i`, timed by the first location. */
  function EventStepAt(locs: seq<LocationSummary>, i: nat): EventStep
    requires |locs| > 0 && i < |locs[0].steps|
  {
    EventStep(
      locs[0].steps[i].time,
      TempColumn(locs, i),
      SnowColumn(locs, i),
      SumReal(OrZero(TempColumn(locs, i))) / |locs| as real,
      SumReal(OrZero(SnowColumn(locs, i))) / |locs| as real)
  }

  function EventStepsUpTo(locs: seq<LocationSummary>, k: nat): (steps: seq<EventStep>)
    requires |locs| > 0 && k <= |locs[0].steps|
    ensures |steps| == k
  {
    if k == 0 then [] else EventStepsUpTo(locs, k - 1) + [EventStepAt(locs, k - 1)]
  }

  /** What the event steps mean: one per step of the first location. */
  function EventSteps(locs: seq<LocationSummary>): seq<EventStep> {
    if |locs| == 0 then [] else EventStepsUpTo(locs, |locs[0].steps|)
  }

  lemma {:induction false} ColumnsStep(locs: seq<LocationSummary>, k: nat, i: nat)
    requires k < |locs|
    ensures TempColumn(locs[..k + 1], i) == TempColumn(locs[..k], i) + [TempCell(locs[k], i)]
    ensures SnowColumn(locs[..k + 1], i) == SnowColumn(locs[..k], i) + [SnowCell(locs[k], i)]
  {
    assert locs[..k + 1][..k] == locs[..k];
  }

  lemma {:induction false} OrZeroSum(xs: seq<Option<real>>, x: Option<real>)
    ensures SumReal(OrZero(xs + [x])) == SumReal(OrZero(xs)) + x.GetOr(0.0)
  {
    assert (xs + [x])[..|xs|] == xs;
    assert OrZero(xs + [x]) == OrZero(xs) + [x.GetOr(0.0)];
    SumRealConcat(OrZero(xs), [x.GetOr(0.0)]);
  }

  /** The columns and sums of step `i` cover the first `k` locations. */
  predicate ColumnsSoFar(locs: seq<LocationSummary>, k: nat, i: nat, tempC: seq<Option<real>>,
                         snowfallCumulative: seq<Option<real>>, avgTempSum: real, avgSnowSum: real)
    requires k <= |locs|
  {
    && tempC == TempColumn(locs[..k], i)
    && snowfallCumulative == SnowColumn(locs[..k], i)
    && avgTempSum == SumReal(OrZero(tempC))
    && avgSnowSum == SumReal(OrZero(snowfallCumulative))
  }

  /** Adds step `i` of location `k` to the columns, `null` when it has none. */
  method AddLocation(locs: seq<LocationSummary>, k: nat, i: nat, tempC: seq<Option<real>>,
                     snowfallCumulative: seq<Option<real>>, avgTempSum: real, avgSnowSum: real)
    returns (newTempC: seq<Option<real>>, newSnowfallCumulative: seq<Option<real>>, newTempSum: real, newSnowSum: real)
    requires k < |locs| && ColumnsSoFar(locs, k, i, tempC, snowfallCumulative, avgTempSum, avgSnowSum)
    ensures ColumnsSoFar(locs, k + 1, i, newTempC, newSnowfallCumulative, newTempSum, newSnowSum)
  {
    ColumnsStep(locs, k, i);
    OrZeroSum(tempC, TempCell(locs[k], i));
    OrZeroSum(snowfallCumulative, SnowCell(locs[k], i));
    if i < |locs[k].steps| {
      var s := locs[k].steps[i];
      newTempC := tempC + [s.avgTempC];
      newSnowfallCumulative := snowfallCumulative + [Some(s.snowfallCumulative)];
      newTempSum := avgTempSum + s.avgTempC.GetOr(0.0);
      newSnowSum := avgSnowSum + s.snowfallCumulative;
    } else {
      newTempC := tempC + [None];
      newSnowfallCumulative := snowfallCumulative + [None];
      newTempSum, newSnowSum := avgTempSum, avgSnowSum;
    }
  }

  /** Gathers step `i` of every location into one event step. */
  method BuildEventStep(locs: seq<LocationSummary>, i: nat) returns (step: EventStep)
    requires |locs| > 0 && i < |locs[0].steps|
    ensures step == EventStepAt(locs, i)
  {
    var time := locs[0].steps[i].time;
    var tempC: seq<Option<real>> := [];
    var snowfallCumulative: seq<Option<real>> := [];
    var avgTempSum := 0.0;
    var avgSnowSum := 0.0;
    for k := 0 to |locs|
      invariant ColumnsSoFar(locs, k, i, tempC, snowfallCumulative, avgTempSum, avgSnowSum)
    {
      tempC, snowfallCumulative, avgTempSum, avgSnowSum :=
        AddLocation(locs, k, i, tempC, snowfallCumulative, avgTempSum, avgSnowSum);
    }
    assert locs[..|locs|] == locs;
    step := EventStep(time, tempC, snowfallCumulative, avgTempSum / |locs| as real, avgSnowSum / |locs| as real);
  }

  /** One event step per step of the first location; none without locations. */
  method BuildEventSteps(locs: seq<LocationSummary>) returns (steps: seq<EventStep>)
    ensures steps == EventSteps(locs)
  {
    if |locs| == 0 {
      return [];
    }
    var stepsCount := |locs[0].steps|;
    steps := [];
    for i := 0 to stepsCount
      invariant steps == EventStepsUpTo(locs, i)
    {
      var step := BuildEventStep(locs, i);
      steps := steps + [step];
    }
  }

  lemma {:induction false} ColumnsAt(locs: seq<LocationSummary>, i: nat, k: nat)
    requires k < |locs|
    ensures TempColumn(locs, i)[k] == TempCell(locs[k], i)
    ensures SnowColumn(locs, i)[k] == SnowCell(locs[k], i)
  {
    if k < |locs| - 1 {
      ColumnsAt(locs[..|locs| - 1], i, k);
    }
  }

  lemma {:induction false} EventStepsUpToAt(locs: seq<LocationSummary>, m: nat, j: nat)
    requires |locs| > 0 && j < m <= |locs[0].steps|
    ensures EventStepsUpTo(locs, m)[j] == EventStepAt(locs, j)
  {
    if j < m - 1 {
      EventStepsUpToAt(locs, m - 1, j);
    }
  }

  /** The event steps lay the locations' steps side by side: one per step
      of the first location, stamped with its time, with one cell per
      location that is that location's value or `None` when it has fewer
      steps. */
  lemma {:induction false} EventStepsMeaning(locs: seq<LocationSummary>, j: nat, k: nat)
    requires k < |locs| && j < |locs[0].steps|
    ensures |EventSteps(locs)| == |locs[0].steps|
    ensures EventSteps(locs)[j].time == locs[0].steps[j].time
    ensures |EventSteps(locs)[j].tempC| == |EventSteps(locs)[j].snowfallCumulative| == |locs|
    ensures EventSteps(locs)[j].tempC[k] == (if j < |locs[k].steps| then locs[k].steps[j].avgTempC else None)
    ensures EventSteps(locs)[j].snowfallCumulative[k]
         == (if j < |locs[k].steps| then Some(locs[k].steps[j].snowfallCumulative) else None)
  {
    EventStepsUpToAt(locs, |locs[0].steps|, j);
    ColumnsAt(locs, j, k);
  }

  // ---------------------------------------------------------------------------
  // fetchLocationData and the handler

  /** What the archive answers for one location: whether the reply was
      `ok`, and the hourly series when the reply has `hourly.time`. */
  datatype Upstream = Upstream(ok: bool, hourly: Option<HourlyData>)

  datatype Fetched = Fetched(location: Location, data: HourlyData)

  /** A failed reply or a reply without an hourly series is an error naming
      the location. */
  function FetchLocationData(location: Location, reply: Upstream): (r: Result<Fetched, string>)
    ensures r.Ok? <==> reply.ok && reply.hourly.Some?
    ensures r.Ok? ==> r.value == Fetched(location, reply.hourly.value)
    ensures r.Err? ==> r.error != ""
  {
    if !reply.ok then Err("Open-Meteo request failed for " + location.name + ".")
    else if reply.hourly.None? then Err("No hourly data returned for " + location.name + ".")
    else Ok(Fetched(location, reply.hourly.value))
  }

  /** Adds one location's outcome to the outcome of the locations before it:
      the first failure stays the outcome. */
  function Absorb(acc: Result<seq<Fetched>, string>, outcome: Result<Fetched, string>): Result<seq<Fetched>, string> {
    match acc
    case Err(e) => Err(e)
    case Ok(prev) =>
      match outcome
      case Err(e) => Err(e)
      case Ok(f) => Ok(prev + [f])
  }

  /** The locations fetched in order; the first failure ends the request. */
  function FetchAll(locations: seq<Location>, fetch: Location -> Upstream): Result<seq<Fetched>, string> {
    if locations == [] then Ok([])
    else
      var last := locations[|locations| - 1];
      Absorb(FetchAll(locations[..|locations| - 1], fetch), FetchLocationData(last, fetch(last)))
  }

  lemma {:induction false} FetchAllStep(locations: seq<Location>, k: nat, fetch: Location -> Upstream)
    requires k < |locations|
    ensures FetchAll(locations[..k + 1], fetch)
         == Absorb(FetchAll(locations[..k], fetch), FetchLocationData(locations[k], fetch(locations[k])))
  {
    assert locations[..k + 1][..k] == locations[..k];
  }

  /** An error among the first `k` locations is the error of every longer
      prefix. */
  lemma {:induction false} FetchAllErrorStays(locations: seq<Location>, k: nat, m: nat, fetch: Location -> Upstream)
    requires k <= m <= |locations| && FetchAll(locations[..k], fetch).Err?
    ensures FetchAll(locations[..m], fetch) == FetchAll(locations[..k], fetch)
    decreases m - k
  {
    if k < m {
      FetchAllStep(locations, k, fetch);
      FetchAllErrorStays(locations, k + 1, m, fetch);
    }
  }

  /** The fetch succeeds exactly when every location's does, and then holds
      each location's series in order. */
  lemma {:induction false} FetchAllMeaning(locations: seq<Location>, fetch: Location -> Upstream)
    ensures FetchAll(locations, fetch).Ok?
        <==> forall k :: 0 <= k < |locations| ==> FetchLocationData(locations[k], fetch(locations[k])).Ok?
    ensures FetchAll(locations, fetch).Ok? ==>
              |FetchAll(locations, fetch).value| == |locations|
              && forall k :: 0 <= k < |locations| ==>
                   FetchAll(locations, fetch).value[k] == Fetched(locations[k], fetch(locations[k]).hourly.value)
  {
    if locations != [] {
      var front := locations[..|locations| - 1];
      FetchAllMeaning(front, fetch);
      assert forall k :: 0 <= k < |front| ==> front[k] == locations[k];
    }
  }

  lemma {:induction false} FetchedNext(locations: seq<Location>, fetch: Location -> Upstream, done: nat,
                    batch: seq<Location>, j: nat, gathered: seq<Fetched>)
    requires j < |batch| && done + |batch| <= |locations| && locations[done..done + |batch|] == batch
    requires FetchAll(locations[..done + j], fetch) == Ok(gathered)
    ensures FetchAll(locations[..done + j + 1], fetch) == Absorb(Ok(gathered), FetchLocationData(batch[j], fetch(batch[j])))
  {
    assert locations[done + j] == batch[j];
    FetchAllStep(locations, done + j, fetch);
  }

  lemma {:induction false} FetchFailed(locations: seq<Location>, fetch: Location -> Upstream, done: nat,
                    batch: seq<Location>, j: nat, gathered: seq<Fetched>)
    requires j < |batch| && done + |batch| <= |locations| && locations[done..done + |batch|] == batch
    requires FetchAll(locations[..done + j], fetch) == Ok(gathered)
    requires FetchLocationData(batch[j], fetch(batch[j])).Err?
    ensures FetchAll(locations[..done + |batch|], fetch) == Err(FetchLocationData(batch[j], fetch(batch[j])).error)
  {
    FetchedNext(locations, fetch, done, batch, j, gathered);
    FetchAllErrorStays(locations, done + j + 1, done + |batch|, fetch);
  }

  /** One batch: its locations fetched in order, stopping at the first
      failure. */
  method FetchBatch(locations: seq<Location>, fetch: Location -> Upstream, ghost done: nat,
                    batch: seq<Location>, results: seq<Fetched>)
    returns (r: Result<seq<Fetched>, string>)
    requires done + |batch| <= |locations| && locations[done..done + |batch|] == batch
    requires FetchAll(locations[..done], fetch) == Ok(results)
    ensures r == FetchAll(locations[..done + |batch|], fetch)
  {
    var gathered := results;
    for j := 0 to |batch|
      invariant FetchAll(locations[..done + j], fetch) == Ok(gathered)
    {
      var outcome := FetchLocationData(batch[j], fetch(batch[j]));
      if outcome.Err? {
        FetchFailed(locations, fetch, done, batch, j, gathered);
        return Err(outcome.error);
      }
      FetchedNext(locations, fetch, done, batch, j, gathered);
      gathered := gathered + [outcome.value];
    }
    r := Ok(gathered);
  }

  /** The first `b` batches hold the first `done` locations. */
  predicate BatchesDone(locations: seq<Location>, batches: seq<seq<Location>>, b: nat, done: nat)
    requires b <= |batches|
  {
    locations == Flatten(batches[..b]) + Flatten(batches[b..]) && done == |Flatten(batches[..b])|
  }

  lemma {:induction false} NextBatch(locations: seq<Location>, batches: seq<seq<Location>>, b: nat, done: nat)
    requires b < |batches| && BatchesDone(locations, batches, b, done)
    ensures done + |batches[b]| <= |locations| && locations[done..done + |batches[b]|] == batches[b]
    ensures BatchesDone(locations, batches, b + 1, done + |batches[b]|)
  {
    FlattenStep(batches, b);
    assert locations == Flatten(batches[..b]) + batches[b] + Flatten(batches[b + 1..]);
  }

  lemma {:induction false} NoBatchesDone(locations: seq<Location>, batches: seq<seq<Location>>)
    requires batches == Chunks(locations, 5)
    ensures BatchesDone(locations, batches, 0, 0)
  {
    ChunksFlatten(locations, 5);
    assert batches[..0] == [] && batches[0..] == batches;
  }

  /** A failed batch is the outcome of the whole request. */
  lemma {:induction false} BatchFailed(locations: seq<Location>, fetch: Location -> Upstream, m: nat)
    requires m <= |locations| && FetchAll(locations[..m], fetch).Err?
    ensures FetchAll(locations, fetch) == FetchAll(locations[..m], fetch)
  {
    FetchAllErrorStays(locations, m, |locations|, fetch);
    assert locations[..|locations|] == locations;
  }

  lemma {:induction false} AllBatchesDone(locations: seq<Location>, batches: seq<seq<Location>>, done: nat)
    requires BatchesDone(locations, batches, |batches|, done)
    ensures locations[..done] == locations
  {
    assert batches[|batches|..] == [];
    assert batches[..|batches|] == batches;
  }

  /** The batch loop: five locations at a time, each batch's outcomes in
      location order. */
  method FetchInBatches(locations: seq<Location>, fetch: Location -> Upstream) returns (r: Result<seq<Fetched>, string>)
    ensures r == FetchAll(locations, fetch)
  {
    var batches := ChunkArray(locations, 5);
    NoBatchesDone(locations, batches);
    var results: seq<Fetched> := [];
    ghost var done: nat := 0;
    for b := 0 to |batches|
      invariant BatchesDone(locations, batches, b, done)
      invariant FetchAll(locations[..done], fetch) == Ok(results)
    {
      NextBatch(locations, batches, b, done);
      var outcome := FetchBatch(locations, fetch, done, batches[b], results);
      if outcome.Err? {
        BatchFailed(locations, fetch, done + |batches[b]|);
        return outcome;
      }
      results := outcome.value;
      done := done + |batches[b]|;
    }
    AllBatchesDone(locations, batches, done);
    r := Ok(results);
  }

  /** A location's summary: its identity and its aggregates. */
  function SummaryOf(f: Fetched, a: Aggregates): LocationSummary {
    LocationSummary(f.location.id, f.location.name, f.location.lat, f.location.lon,
                    a.totalSnowfallMm, a.belowFreezingHours, a.avgTempC, a.steps)
  }

  /** The summaries of the fetched locations, in order. */
  function Summaries(results: seq<Fetched>, interval: nat): (summaries: seq<LocationSummary>)
    requires interval >= 1
    ensures |summaries| == |results|
  {
    if results == [] then []
    else
      var last := results[|results| - 1];
      Summaries(results[..|results| - 1], interval) + [SummaryOf(last, Aggregate(last.data, interval))]
  }

  lemma {:induction false} SummariesStep(results: seq<Fetched>, k: nat, interval: nat)
    requires interval >= 1 && k < |results|
    ensures Summaries(results[..k + 1], interval)
         == Summaries(results[..k], interval) + [SummaryOf(results[k], Aggregate(results[k].data, interval))]
  {
    assert results[..k + 1][..k] == results[..k];
  }

  /** Summary `k` belongs to location `k` and holds its aggregates. */
  lemma {:induction false} SummariesAt(results: seq<Fetched>, interval: nat, k: nat)
    requires interval >= 1 && k < |results|
    ensures Summaries(results, interval)[k] == SummaryOf(results[k], Aggregate(results[k].data, interval))
  {
    if k < |results| - 1 {
      SummariesAt(results[..|results| - 1], interval, k);
    }
  }

  method SummarizeAll(results: seq<Fetched>, interval: nat) returns (summaries: seq<LocationSummary>)
    requires interval >= 1
    ensures summaries == Summaries(results, interval)
  {
    summaries := [];
    for k := 0 to |results|
      invariant summaries == Summaries(results[..k], interval)
    {
      SummariesStep(results, k, interval);
      var aggregates := AggregateLocationData(results[k].data, interval);
      summaries := summaries + [SummaryOf(results[k], aggregates)];
    }
    assert results[..|results|] == results;
  }

  /** The request body. `start` and `end` are "" when absent or empty;
      `intervalHours` is `None` when absent; `locations` is `None` when it
      is not an array, an absent list being the empty one. */
  datatype Payload = Payload(start: string, end: string, intervalHours: Option<int>, locations: Option<seq<Location>>)

  /** The request: its method, and its body as JSON, `None` when the body
      does not parse. */
  datatype Event = Event(httpMethod: string, payload: Option<Payload>)

  datatype Body =
    | Text(message: string)
    | Report(start: string, end: string, steps: seq<EventStep>, locationSummaries: seq<LocationSummary>)

  datatype Response = Response(statusCode: int, body: Body)

  /** `Math.max(1, Number(intervalHours))`, 6 hours when absent. */
  function Interval(intervalHours: Option<int>): (interval: nat)
    ensures interval >= 1 && interval >= intervalHours.GetOr(6)
    ensures interval == 1 || interval == intervalHours.GetOr(6)
  {
    var h := intervalHours.GetOr(6);
    if h >= 1 then h else 1
  }

  /** The request is usable: dates given and a non-empty location list. */
  predicate Complete(p: Payload) {
    p.start != "" && p.end != "" && p.locations.Some? && |p.locations.value| > 0
  }

  /** What the handler answers. */
  function Respond(event: Event, fetch: Location -> Upstream): Response {
    if event.httpMethod != "POST" then Response(405, Text("Method Not Allowed"))
    else if event.payload.None? then Response(400, Text("Invalid JSON payload."))
    else
      var p := event.payload.value;
      if !Complete(p) then Response(400, Text("Missing start/end dates or location list."))
      else
        match FetchAll(p.locations.value, fetch)
        case Err(e) => Response(500, Text(if e == "" then "Failed to fetch weather data." else e))
        case Ok(results) =>
          var summaries := Summaries(results, Interval(p.intervalHours));
          Response(200, Report(p.start, p.end, EventSteps(summaries), summaries))
  }

  method Handler(event: Event, fetch: Location -> Upstream) returns (r: Response)
    ensures r == Respond(event, fetch)
  {
    if event.httpMethod != "POST" {
      return Response(405, Text("Method Not Allowed"));
    }
    if event.payload.None? {
      return Response(400, Text("Invalid JSON payload."));
    }
    var payload := event.payload.value;
    if payload.start == "" || payload.end == "" || payload.locations.None? || |payload.locations.value| == 0 {
      return Response(400, Text("Missing start/end dates or location list."));
    }
    var interval := Interval(payload.intervalHours);
    var fetched := FetchInBatches(payload.locations.value, fetch);
    if fetched.Err? {
      return Response(500, Text(if fetched.error == "" then "Failed to fetch weather data." else fetched.error));
    }
    var locationSummaries := SummarizeAll(fetched.value, interval);
    var steps := BuildEventSteps(locationSummaries);
    r := Response(200, Report(payload.start, payload.end, steps, locationSummaries));
  }

  /** The handler answers 405 for a method other than POST, 400 for a body
      that is not JSON or lacks dates or locations, 500 when a location
      cannot be fetched (with that location's message), and otherwise 200
      with one summary per requested location, in request order. */
  lemma {:induction false} HandlerOutcome(event: Event, fetch: Location -> Upstream)
    ensures Respond(event, fetch).statusCode in {200, 400, 405, 500}
    ensures Respond(event, fetch).statusCode == 405 <==> event.httpMethod != "POST"
    ensures Respond(event, fetch).statusCode == 400
        <==> event.httpMethod == "POST" && (event.payload.None? || !Complete(event.payload.value))
    ensures Respond(event, fetch).statusCode == 200
        <==> event.httpMethod == "POST" && event.payload.Some? && Complete(event.payload.value)
             && forall k :: 0 <= k < |event.payload.value.locations.value| ==>
                  FetchLocationData(event.payload.value.locations.value[k], fetch(event.payload.value.locations.value[k])).Ok?
    ensures Respond(event, fetch).statusCode == 500 ==> Respond(event, fetch).body.message != ""
    ensures Respond(event, fetch).statusCode == 200 ==>
              |Respond(event, fetch).body.locationSummaries| == |event.payload.value.locations.value|
  {
    if event.httpMethod == "POST" && event.payload.Some? && Complete(event.payload.value) {
      FetchAllMeaning(event.payload.value.locations.value, fetch);
      FetchAllErrorNamed(event.payload.value.locations.value, fetch);
    }
  }

  /** A fetch error carries a message. */
  lemma {:induction false} FetchAllErrorNamed(locations: seq<Location>, fetch: Location -> Upstream)
    ensures FetchAll(locations, fetch).Err? ==> FetchAll(locations, fetch).error != ""
  {
    if locations != [] {
      FetchAllErrorNamed(locations[..|locations| - 1], fetch);
    }
  }

  /** On success, summary `k` is location `k` with the aggregates of its
      series. */
  lemma {:induction false} SummaryOfLocation(event: Event, fetch: Location -> Upstream, k: nat)
    requires event.payload.Some? && event.payload.value.locations.Some?
    requires k < |event.payload.value.locations.value|
    requires Respond(event, fetch).statusCode == 200
    ensures Respond(event, fetch).body.Report?
    ensures k < |Respond(event, fetch).body.locationSummaries|
    ensures fetch(event.payload.value.locations.value[k]).hourly.Some?
    ensures var loc := event.payload.value.locations.value[k];
            var a := Aggregate(fetch(loc).hourly.value, Interval(event.payload.value.intervalHours));
            Respond(event, fetch).body.locationSummaries[k]
              == LocationSummary(loc.id, loc.name, loc.lat, loc.lon, a.totalSnowfallMm, a.belowFreezingHours, a.avgTempC, a.steps)
  {
    var p := event.payload.value;
    FetchAllMeaning(p.locations.value, fetch);
    SummariesAt(FetchAll(p.locations.value, fetch).value, Interval(p.intervalHours), k);
  }
}
