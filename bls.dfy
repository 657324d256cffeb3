/** The Bureau of Labor Statistics proxy (netlify/functions/bls-proxy.js): it collects
    the requested series ids, asks the BLS time-series API for them (either the latest
    observations, or the year range split into chunks the API accepts), merges the chunks
    into one series per id with one observation per year and period, and sorts each
    series newest first. The API itself is the parameter `fetch`. */
module Bls {
  import opened Wrappers
  import opened Text
  import opened Seqs
  import opened Http

  const DefaultStartYear := 2000
  const RequestSucceeded := "REQUEST_SUCCEEDED"

  function Min(a: int, b: int): int {
    if a <= b then a else b
  }

  function Max(a: int, b: int): int {
    if a >= b then a else b
  }

  // ---------------------------------------------------------------------------------
  // Series ids from the query string

  /** The `seriesId` values the query string offers: the multi-valued parameter when it
      is an array, otherwise the single value when it is non-empty. */
  function RequestedValues(multi: Option<seq<string>>, single: Option<string>): seq<string> {
    match multi
    case Some(values) => values
    case None => if single.Some? && single.value != "" then [single.value] else []
  }

  /** Every value split on commas, trimmed, empty parts dropped, in order. */
  function Parts(values: seq<string>): seq<string> {
    if values == [] then []
    else Parts(values[..|values| - 1]) + SplitTrimNonEmpty(values[|values| - 1])
  }

  /** The ids in the order a `Set` receives them, each once. */
  function SeriesIds(multi: Option<seq<string>>, single: Option<string>): seq<string> {
    Dedup(Parts(RequestedValues(multi, single)))
  }

  /** A part is produced exactly when it comes out of one of the values. */
  lemma {:induction false} PartsMembers(values: seq<string>, x: string)
    ensures x in Parts(values) <==> exists k :: 0 <= k < |values| && x in SplitTrimNonEmpty(values[k])
  {
    if values != [] {
      var front := values[..|values| - 1];
      PartsMembers(front, x);
      if x in Parts(values) && x !in Parts(front) {
        assert x in SplitTrimNonEmpty(values[|values| - 1]);
      }
      if exists k :: 0 <= k < |values| && x in SplitTrimNonEmpty(values[k]) {
        var k :| 0 <= k < |values| && x in SplitTrimNonEmpty(values[k]);
        if k < |values| - 1 {
          assert values[k] == front[k];
        }
      }
    }
  }

  /** The parsed ids are the non-empty, comma-free parts of the requested values, each
      once, and every such part is among them. */
  lemma {:induction false} SeriesIdsMeaning(multi: Option<seq<string>>, single: Option<string>, x: string)
    ensures var values := RequestedValues(multi, single);
      && NoDuplicates(SeriesIds(multi, single))
      && (x in SeriesIds(multi, single) <==> exists k :: 0 <= k < |values| && x in SplitTrimNonEmpty(values[k]))
      && (x in SeriesIds(multi, single) ==> x != "" && ',' !in x)
  {
    var values := RequestedValues(multi, single);
    PartsMembers(values, x);
    DedupMembers(Parts(values));
    if x in SeriesIds(multi, single) {
      var k :| 0 <= k < |values| && x in SplitTrimNonEmpty(values[k]);
      PartIsWellFormed(values[k], x);
    }
  }

  lemma {:induction false} PartIsWellFormed(value: string, x: string)
    requires x in SplitTrimNonEmpty(value)
    ensures x != "" && ',' !in x
  {
    var ps := SplitTrimNonEmpty(value);
    var m :| 0 <= m < |ps| && ps[m] == x;
  }

  /** The `Set` the handler fills part by part. */
  method ParseSeriesIds(multi: Option<seq<string>>, single: Option<string>) returns (ids: seq<string>)
    ensures ids == SeriesIds(multi, single)
  {
    var values := RequestedValues(multi, single);
    ids := [];
    var i := 0;
    while i < |values|
      invariant 0 <= i <= |values|
      invariant ids == Dedup(Parts(values[..i]))
    {
      PartsStep(values, i);
      ids := AddAll(ids, SplitTrimNonEmpty(values[i]), Parts(values[..i]));
      i := i + 1;
    }
    PartsWhole(values, i);
  }

  lemma {:induction false} PartsWhole(values: seq<string>, i: int)
    requires i == |values|
    ensures Parts(values[..i]) == Parts(values)
  {
    assert values[..i] == values;
  }

  lemma {:induction false} PartsStep(values: seq<string>, i: nat)
    requires i < |values|
    ensures Parts(values[..i + 1]) == Parts(values[..i]) + SplitTrimNonEmpty(values[i])
  {
    assert values[..i + 1][..i] == values[..i];
  }

  /** Adding elements one by one to an insertion-ordered set. */
  method AddAll<T(==)>(ids: seq<T>, parts: seq<T>, ghost before: seq<T>) returns (ids': seq<T>)
    requires ids == Dedup(before)
    ensures ids' == Dedup(before + parts)
  {
    ids' := ids;
    var j := 0;
    assert before + parts[..0] == before;
    while j < |parts|
      invariant 0 <= j <= |parts|
      invariant ids' == Dedup(before + parts[..j])
    {
      DedupAppend(before + parts[..j], parts[j]);
      assert before + parts[..j + 1] == (before + parts[..j]) + [parts[j]];
      if parts[j] !in ids' {
        ids' := ids' + [parts[j]];
      }
      j := j + 1;
    }
    assert parts[..j] == parts;
  }

  // ---------------------------------------------------------------------------------
  // Observations and their merge

  /** One observation: its year, its period (`M01`, `Q1`, ... ; "" when absent) and the
      rest of its fields, carried unchanged. */
  datatype Item = Item(year: int, period: string, fields: map<string, string>)

  /** A series as the API returns it: its id, its other fields and its observations. */
  datatype Series = Series(seriesID: string, fields: map<string, string>, data: seq<Item>)

  /** What an observation is recognised by: its year and period. The source joins them
      into the text `${year}-${period}`, which determines both (`KeyTextDetermines`). */
  function Key(item: Item): (int, string) {
    (item.year, item.period)
  }

  function KeyText(item: Item): string {
    IntToString(item.year) + "-" + item.period
  }

  lemma {:induction false} KeyTextShape(item: Item)
    ensures |IntToString(item.year)| >= 1
    ensures |KeyText(item)| == |IntToString(item.year)| + 1 + |item.period|
    ensures KeyText(item)[..|IntToString(item.year)|] == IntToString(item.year)
    ensures KeyText(item)[|IntToString(item.year)|] == '-'
    ensures KeyText(item)[|IntToString(item.year)| + 1..] == item.period
    ensures forall k :: 1 <= k < |IntToString(item.year)| ==> IsDigit(KeyText(item)[k])
  {
    var s := IntToString(item.year);
    var u := KeyText(item);
    assert u == s + ("-" + item.period);
    assert u[..|s|] == s;
    assert u[|s| + 1..] == item.period;
    if item.year < 0 {
      var d := NatToString(-item.year);
      assert s == "-" + d;
      forall k | 1 <= k < |s|
        ensures IsDigit(u[k])
      {
        assert u[k] == s[k] == d[k - 1];
      }
    } else {
      forall k | 1 <= k < |s|
        ensures IsDigit(u[k])
      {
        assert u[k] == s[k];
      }
    }
  }

  /** The text key and the pair key tell the same observations apart. */
  lemma {:induction false} KeyTextDetermines(a: Item, b: Item)
    ensures KeyText(a) == KeyText(b) <==> Key(a) == Key(b)
  {
    if KeyText(a) == KeyText(b) {
      var u := KeyText(a);
      var sa, sb := IntToString(a.year), IntToString(b.year);
      KeyTextShape(a);
      KeyTextShape(b);
      DashEndsDigits(u, |sa|, |sb|);
      DashEndsDigits(u, |sb|, |sa|);
      assert sa == u[..|sa|] == sb;
      ParseIntOfIntToString(a.year, []);
      ParseIntOfIntToString(b.year, []);
      assert sa + [] == sa;
    }
  }

  /** A dash at position `n` ends any run of digits that starts at position 1. */
  lemma {:induction false} DashEndsDigits(u: string, n: nat, m: nat)
    requires 1 <= n < |u| && u[n] == '-'
    requires m <= |u| && forall k :: 1 <= k < m ==> IsDigit(u[k])
    ensures m <= n
  {
  }

  function KeySet(items: seq<Item>): set<(int, string)> {
    set x | x in items :: Key(x)
  }

  /** The observations in order, each dropped when one with the same key came before. */
  function FirstByKey(items: seq<Item>): seq<Item> {
    if items == [] then []
    else
      var kept := FirstByKey(items[..|items| - 1]);
      var last := items[|items| - 1];
      if Key(last) in KeySet(kept) then kept else kept + [last]
  }

  /** No observation before `items[i]` has its key. */
  predicate FirstOfKey(items: seq<Item>, i: int)
    requires 0 <= i < |items|
  {
    forall j :: 0 <= j < i ==> Key(items[j]) != Key(items[i])
  }

  /** The merge keeps every key. */
  lemma {:induction false} FirstByKeyKeys(items: seq<Item>)
    ensures KeySet(FirstByKey(items)) == KeySet(items)
  {
    if items != [] {
      var front := items[..|items| - 1];
      FirstByKeyKeys(front);
      assert items == front + [items[|items| - 1]];
      assert forall x :: x in items <==> x in front || x == items[|items| - 1];
      assert KeySet(items) == KeySet(front) + {Key(items[|items| - 1])};
    }
  }

  /** No two observations share a key. */
  predicate UniqueKeys(items: seq<Item>) {
    forall i, j :: 0 <= i < j < |items| ==> Key(items[i]) != Key(items[j])
  }

  /** At most one observation per key survives the merge. */
  lemma {:induction false} FirstByKeyUnique(items: seq<Item>)
    ensures UniqueKeys(FirstByKey(items))
  {
    if items != [] {
      var kept := FirstByKey(items[..|items| - 1]);
      var last := items[|items| - 1];
      FirstByKeyUnique(items[..|items| - 1]);
      assert FirstByKey(items) == if Key(last) in KeySet(kept) then kept else kept + [last];
      if Key(last) !in KeySet(kept) {
        var r := kept + [last];
        forall i, j | 0 <= i < j < |r|
          ensures Key(r[i]) != Key(r[j])
        {
          assert r[i] == kept[i];
          if j < |kept| {
            assert r[j] == kept[j];
            assert Key(kept[i]) != Key(kept[j]);
          } else {
            assert r[j] == last;
            assert kept[i] in kept;
            assert Key(kept[i]) in KeySet(kept);
            assert Key(kept[i]) != Key(last);
          }
        }
      }
    }
  }

  /** The surviving observations are exactly the first ones seen with each key. */
  lemma {:induction false} FirstByKeyWins(items: seq<Item>, x: Item)
    ensures x in FirstByKey(items) <==> exists i :: 0 <= i < |items| && items[i] == x && FirstOfKey(items, i)
  {
    if items != [] {
      var n := |items| - 1;
      var front := items[..n];
      var kept := FirstByKey(front);
      FirstByKeyWins(front, x);
      FirstByKeyKeys(front);
      assert forall i :: 0 <= i < n ==> front[i] == items[i];
      if x in FirstByKey(items) {
        if x !in kept {
          assert x == items[n] && Key(x) !in KeySet(front);
          assert FirstOfKey(items, n) by {
            forall j | 0 <= j < n
              ensures Key(items[j]) != Key(items[n])
            {
              assert items[j] == front[j];
            }
          }
        } else {
          var i :| 0 <= i < n && front[i] == x && FirstOfKey(front, i);
          assert FirstOfKey(items, i);
        }
      }
      if exists i :: 0 <= i < |items| && items[i] == x && FirstOfKey(items, i) {
        var i :| 0 <= i < |items| && items[i] == x && FirstOfKey(items, i);
        if i < n {
          assert FirstOfKey(front, i);
        } else {
          forall y | y in front
            ensures Key(y) != Key(x)
          {
            var j :| 0 <= j < n && front[j] == y;
            assert Key(items[j]) != Key(items[n]);
          }
          assert Key(x) !in KeySet(front);
        }
      }
    }
  }

  /** The ids of the series in order. */
  function Ids(all: seq<Series>): (ids: seq<string>)
    ensures |ids| == |all|
  {
    if all == [] then [] else Ids(all[..|all| - 1]) + [all[|all| - 1].seriesID]
  }

  /** All observations of series `id`, in the order the chunks delivered them. */
  function DataOf(all: seq<Series>, id: string): seq<Item> {
    if all == [] then []
    else
      var last := all[|all| - 1];
      DataOf(all[..|all| - 1], id) + (if last.seriesID == id then last.data else [])
  }

  /** The fields of the first series with id `id` (none when there is none). */
  function FirstFields(all: seq<Series>, id: string): map<string, string> {
    if all == [] then map[]
    else
      var front := all[..|all| - 1];
      var last := all[|all| - 1];
      if last.seriesID == id && id !in Ids(front) then last.fields else FirstFields(front, id)
  }

  /** The metadata of a merged series comes from the first series that carried its id. */
  lemma {:induction false} FirstFieldsIsFirst(all: seq<Series>, id: string)
    requires id in Ids(all)
    ensures FirstFields(all, id) == all[FirstIndex(Ids(all), id)].fields
  {
    var front := all[..|all| - 1];
    var ids := Ids(all);
    assert Ids(front) == ids[..|all| - 1];
    if id in Ids(front) {
      FirstFieldsIsFirst(front, id);
      FirstIndexPrefix(ids, id);
    } else {
      FirstIndexLast(ids);
    }
  }

  /** The merged series for `id`: first-seen metadata, observations merged by key. */
  function MergedOf(all: seq<Series>, id: string): Series {
    Series(id, FirstFields(all, id), FirstByKey(DataOf(all, id)))
  }

  /** The merge of everything fetched: one series per id, in order of first appearance. */
  function Merged(all: seq<Series>): (ms: seq<Series>)
    ensures |ms| == |Dedup(Ids(all))|
  {
    var ids := Dedup(Ids(all));
    seq(|ids|, k requires 0 <= k < |ids| => MergedOf(all, ids[k]))
  }

  /** The state of the merge: the `Map` of merged series and the order its keys went in. */
  ghost predicate Holds(order: seq<string>, byId: map<string, Series>, all: seq<Series>) {
    && order == Dedup(Ids(all))
    && (forall id :: id in byId <==> id in order)
    && (forall id :: id in byId ==> byId[id] == MergedOf(all, id))
  }

  lemma {:induction false} IdsAppend(all: seq<Series>, s: Series)
    ensures Ids(all + [s]) == Ids(all) + [s.seriesID]
    ensures (all + [s])[..|all|] == all
  {
    assert (all + [s])[..|all|] == all;
  }

  lemma {:induction false} DataOfAbsent(all: seq<Series>, id: string)
    requires id !in Ids(all)
    ensures DataOf(all, id) == []
    decreases |all|
  {
    if all != [] {
      var front := all[..|all| - 1];
      assert Ids(front) == Ids(all)[..|all| - 1];
      DataOfAbsent(front, id);
    }
  }

  /** One more series changes the merged series of its own id only. */
  lemma {:induction false} MergedOfAppend(all: seq<Series>, s: Series, id: string)
    ensures id != s.seriesID ==> MergedOf(all + [s], id) == MergedOf(all, id)
    ensures id == s.seriesID ==> DataOf(all + [s], id) == DataOf(all, id) + s.data
    ensures id == s.seriesID && id !in Ids(all) ==> FirstFields(all + [s], id) == s.fields
    ensures id == s.seriesID && id in Ids(all) ==> FirstFields(all + [s], id) == FirstFields(all, id)
  {
    IdsAppend(all, s);
    assert DataOf(all + [s], id) == DataOf(all, id) + (if s.seriesID == id then s.data else []);
    assert DataOf(all, id) + [] == DataOf(all, id);
  }

  /** Merging one series: create its entry with the series' fields on first sight, then
      append each observation whose key the entry does not hold yet. */
  method MergeSeries(order: seq<string>, byId: map<string, Series>, s: Series, ghost all: seq<Series>)
    returns (order': seq<string>, byId': map<string, Series>)
    requires Holds(order, byId, all)
    ensures Holds(order', byId', all + [s])
  {
    var id := s.seriesID;
    IdsAppend(all, s);
    DedupAppend(Ids(all), id);
    MergedOfAppend(all, s, id);
    DedupMembers(Ids(all));
    order', byId' := order, byId;
    if id !in byId' {
      DataOfAbsent(all, id);
      byId' := byId'[id := Series(id, s.fields, [])];
      order' := order' + [id];
    }
    var target := byId'[id];
    var data := MergeItems(target.data, s.data, DataOf(all, id));
    byId' := byId'[id := target.(data := data)];
    forall other | other in byId'
      ensures byId'[other] == MergedOf(all + [s], other)
    {
      MergedOfAppend(all, s, other);
    }
  }

  /** `target.data.push(item)` for each observation whose key is not among the
      `existingKeys` yet. */
  method MergeItems(data: seq<Item>, items: seq<Item>, ghost before: seq<Item>) returns (data': seq<Item>)
    requires data == FirstByKey(before)
    ensures data' == FirstByKey(before + items)
  {
    data' := data;
    var keys := set x | x in data :: Key(x);
    var j := 0;
    assert before + items[..0] == before;
    while j < |items|
      invariant 0 <= j <= |items|
      invariant data' == FirstByKey(before + items[..j])
      invariant keys == KeySet(data')
    {
      var item := items[j];
      assert (before + items[..j + 1])[..|before| + j] == before + items[..j];
      if Key(item) !in keys {
        KeySetAppend(data', item);
        keys := keys + {Key(item)};
        data' := data' + [item];
      }
      j := j + 1;
    }
    MergeItemsDone(before, items, j);
  }

  lemma {:induction false} KeySetAppend(items: seq<Item>, item: Item)
    ensures KeySet(items + [item]) == KeySet(items) + {Key(item)}
  {
    assert forall x :: x in items + [item] <==> x in items || x == item;
  }

  lemma {:induction false} MergeItemsDone(before: seq<Item>, items: seq<Item>, j: int)
    requires j == |items|
    ensures FirstByKey(before + items[..j]) == FirstByKey(before + items)
  {
    assert items[..j] == items;
  }

  lemma {:induction false} WholeChunk(all: seq<Series>, chunk: seq<Series>, j: int)
    requires j == |chunk|
    ensures all + chunk[..j] == all + chunk
  {
    assert chunk[..j] == chunk;
  }

  /** Merging every series of one chunk's reply, in order. */
  method MergeChunk(order: seq<string>, byId: map<string, Series>, chunk: seq<Series>, ghost all: seq<Series>)
    returns (order': seq<string>, byId': map<string, Series>)
    requires Holds(order, byId, all)
    ensures Holds(order', byId', all + chunk)
  {
    order', byId' := order, byId;
    var j := 0;
    assert all + chunk[..0] == all;
    while j < |chunk|
      invariant 0 <= j <= |chunk|
      invariant Holds(order', byId', all + chunk[..j])
    {
      assert all + chunk[..j + 1] == (all + chunk[..j]) + [chunk[j]];
      order', byId' := MergeSeries(order', byId', chunk[j], all + chunk[..j]);
      j := j + 1;
    }
    WholeChunk(all, chunk, j);
  }

  // ---------------------------------------------------------------------------------
  // Sorting

  /** The comparator of the final sort, as "`a` may stand before `b`": the later year
      first, and within a year the greater period first. */
  predicate Newer(a: Item, b: Item) {
    a.year > b.year || (a.year == b.year && LexLe(b.period, a.period))
  }

  lemma {:induction false} NewerIsPreorder()
    ensures TotalPreorder(Newer)
  {
    forall a: Item, b: Item
      ensures Newer(a, b) || Newer(b, a)
    {
      LexLeTotal(a.period, b.period);
    }
    forall a: Item, b: Item, c: Item | Newer(a, b) && Newer(b, c)
      ensures Newer(a, c)
    {
      if a.year == b.year && b.year == c.year {
        LexLeTransitive(c.period, b.period, a.period);
      }
    }
  }

  /** A series with its observations sorted newest first. */
  function SortedSeries(s: Series): Series {
    NewerIsPreorder();
    s.(data := SortBy(s.data, Newer))
  }

  /** Sorting keeps the id, the fields and the observations, and orders them newest
      first. */
  lemma {:induction false} SortedSeriesSorts(s: Series)
    ensures var r := SortedSeries(s);
      && r.seriesID == s.seriesID && r.fields == s.fields
      && Sorted(r.data, Newer) && multiset(r.data) == multiset(s.data)
  {
    NewerIsPreorder();
  }

  /** Each merged series sorted, in the same order. */
  function Finished(ms: seq<Series>): (rs: seq<Series>)
    ensures |rs| == |ms|
  {
    seq(|ms|, k requires 0 <= k < |ms| => SortedSeries(ms[k]))
  }

  /** Reading the merged series out of the `Map` in insertion order, sorting each. */
  method Collect(order: seq<string>, byId: map<string, Series>) returns (rs: seq<Series>)
    requires forall id :: id in order ==> id in byId
    ensures |rs| == |order|
    ensures forall m :: 0 <= m < |order| ==> rs[m] == SortedSeries(byId[order[m]])
  {
    rs := [];
    var k := 0;
    while k < |order|
      invariant 0 <= k <= |order|
      invariant |rs| == k
      invariant forall m :: 0 <= m < k ==> rs[m] == SortedSeries(byId[order[m]])
    {
      var series := byId[order[k]];
      rs := rs + [SortedSeries(series)];
      k := k + 1;
    }
  }

  /** `Array.from(combined.values())` with each series sorted. */
  method Finish(order: seq<string>, byId: map<string, Series>, ghost all: seq<Series>) returns (rs: seq<Series>)
    requires Holds(order, byId, all)
    ensures rs == Finished(Merged(all))
  {
    rs := Collect(order, byId);
    CollectDone(rs, order, byId, all);
  }

  /** What `Collect` reads out of a merge state is the sorted merge. */
  lemma {:induction false} CollectDone(rs: seq<Series>, order: seq<string>, byId: map<string, Series>, all: seq<Series>)
    requires Holds(order, byId, all) && |rs| == |order|
    requires forall m :: 0 <= m < |order| ==> rs[m] == SortedSeries(byId[order[m]])
    ensures rs == Finished(Merged(all))
  {
    forall m | 0 <= m < |order|
      ensures rs[m] == Finished(Merged(all))[m]
    {
      assert order[m] in order;
    }
  }

  // ---------------------------------------------------------------------------------
  // The API

  /** What the handler posts to the API. */
  datatype Payload =
    | LatestPayload(seriesIds: seq<string>, latest: int, registrationKey: Option<string>)
    | YearsPayload(seriesIds: seq<string>, startYear: int, endYear: int, registrationKey: Option<string>)

  /** A parsed API reply: its status, its series (`Results.series`, none when absent),
      `responseTime` and `message`. */
  datatype BlsReply = BlsReply(status: string, series: seq<Series>, responseTime: Option<int>, message: seq<string>)

  /** `fetchFromBls` after the request: a reply that is not JSON (None) is an error without
      a status, a reply whose status is not `REQUEST_SUCCEEDED` an error with status 502. */
  function Check(reply: Option<BlsReply>): (r: Result<BlsReply, Failure>)
    ensures r.Ok? <==> reply.Some? && reply.value.status == RequestSucceeded
    ensures r.Ok? ==> r.value == reply.value
    ensures r.Err? && reply.Some? ==> ErrorStatus(r.error) == 502
    ensures r.Err? && reply.None? ==> ErrorStatus(r.error) == 500
  {
    match reply
    case None => Err(Failure(None))
    case Some(json) => if json.status != RequestSucceeded then Err(Failure(Some(502))) else Ok(json)
  }

  /** The year chunks `[s, min(s + span - 1, last)]` for s = first, first + span, ... up
      to `last`. */
  function Chunks(first: int, last: int, span: int): seq<(int, int)>
    requires span >= 1
    decreases if first <= last then last - first + 1 else 0
  {
    if first > last then []
    else [(first, Min(first + span - 1, last))] + Chunks(first + span, last, span)
  }

  /** The chunks start at `first`, end at `last`, each spans 1 to `span` years, each
      starts the year after the previous one ends, and they are pairwise disjoint; there
      are none when `first > last`. */
  lemma {:induction false} ChunksTile(first: int, last: int, span: int)
    requires span >= 1
    ensures var cs := Chunks(first, last, span);
      && (cs == [] <==> first > last)
      && (cs != [] ==> cs[0].0 == first && cs[|cs| - 1].1 == last)
      && (forall k :: 0 <= k < |cs| ==> first <= cs[k].0 <= cs[k].1 <= last && cs[k].1 - cs[k].0 < span)
      && (forall k :: 0 <= k < |cs| - 1 ==> cs[k + 1].0 == cs[k].1 + 1)
      && (forall k, m :: 0 <= k < m < |cs| ==> cs[k].1 < cs[m].0)
    decreases if first <= last then last - first + 1 else 0
  {
    if first <= last {
      ChunksTile(first + span, last, span);
    }
  }

  /** Every year of `[first, last]` lies in a chunk. */
  lemma {:induction false} ChunkOf(first: int, last: int, span: int, y: int) returns (k: nat)
    requires span >= 1 && first <= y <= last
    ensures k < |Chunks(first, last, span)|
    ensures Chunks(first, last, span)[k].0 <= y <= Chunks(first, last, span)[k].1
    decreases last - first
  {
    if y <= Min(first + span - 1, last) {
      k := 0;
    } else {
      var j := ChunkOf(first + span, last, span, y);
      k := j + 1;
    }
  }

  /** Fetching the chunks in order, stopping at the first failure. */
  function FetchChunks(ids: seq<string>, key: Option<string>, cs: seq<(int, int)>, fetch: Payload -> Option<BlsReply>)
    : Result<seq<seq<Series>>, Failure>
  {
    if cs == [] then Ok([])
    else
      match FetchChunks(ids, key, cs[..|cs| - 1], fetch)
      case Err(f) => Err(f)
      case Ok(lists) =>
        var c := cs[|cs| - 1];
        match Check(fetch(YearsPayload(ids, c.0, c.1, key)))
        case Err(f) => Err(f)
        case Ok(reply) => Ok(lists + [reply.series])
  }

  /** Taking the next chunk off the chunks still to fetch. */
  lemma {:induction false} ChunksStep(first: int, last: int, span: int, done: seq<(int, int)>, start: int)
    requires span >= 1 && start <= last
    requires Chunks(first, last, span) == done + Chunks(start, last, span)
    ensures Chunks(first, last, span) == (done + [(start, Min(start + span - 1, last))]) + Chunks(start + span, last, span)
  {
    var next := (start, Min(start + span - 1, last));
    var rest := Chunks(start + span, last, span);
    assert Chunks(start, last, span) == [next] + rest;
    assert done + ([next] + rest) == (done + [next]) + rest;
  }

  /** Fetching one more chunk after the chunks fetched so far. */
  lemma {:induction false} FetchChunksStep(ids: seq<string>, key: Option<string>, done: seq<(int, int)>, lists: seq<seq<Series>>,
                                           c: (int, int), fetch: Payload -> Option<BlsReply>)
    requires FetchChunks(ids, key, done, fetch) == Ok(lists)
    ensures FetchChunks(ids, key, done + [c], fetch) ==
      match Check(fetch(YearsPayload(ids, c.0, c.1, key)))
      case Err(f) => Err(f)
      case Ok(reply) => Ok(lists + [reply.series])
  {
    assert (done + [c])[..|done|] == done;
  }

  /** Once a chunk fails, the later chunks change nothing. */
  lemma {:induction false} FetchChunksStops(ids: seq<string>, key: Option<string>, a: seq<(int, int)>, b: seq<(int, int)>,
                                            fetch: Payload -> Option<BlsReply>)
    requires FetchChunks(ids, key, a, fetch).Err?
    ensures FetchChunks(ids, key, a + b, fetch) == FetchChunks(ids, key, a, fetch)
  {
    if b == [] {
      assert a + b == a;
    } else {
      FetchChunksStops(ids, key, a, b[..|b| - 1], fetch);
      assert (a + b)[..|a + b| - 1] == a + b[..|b| - 1];
    }
  }

  /** The outcome of the year-range path: the fetched chunks merged and sorted. Bounds
      that are `NaN` (None) make the loop run zero times. */
  function YearsOutcome(ids: seq<string>, key: Option<string>, first: Option<int>, last: Option<int>, span: int,
                        fetch: Payload -> Option<BlsReply>): Result<seq<Series>, Failure>
    requires span >= 1
  {
    if first.None? || last.None? then Ok([])
    else
      match FetchChunks(ids, key, Chunks(first.value, last.value, span), fetch)
      case Err(f) => Err(f)
      case Ok(lists) => Ok(Finished(Merged(Flatten(lists))))
  }

  /** A start year after the end year asks nothing and yields no series. */
  lemma {:induction false} NoYearsNoSeries(ids: seq<string>, key: Option<string>, first: int, last: int, span: int,
                        fetch: Payload -> Option<BlsReply>)
    requires span >= 1 && first > last
    ensures YearsOutcome(ids, key, Some(first), Some(last), span, fetch) == Ok([])
  {
    ChunksTile(first, last, span);
    assert Dedup(Ids([])) == [];
  }

  /** The chunk loop: fetch each chunk and merge its series as it arrives. */
  method FetchYears(ids: seq<string>, key: Option<string>, first: int, last: int, span: int,
                    fetch: Payload -> Option<BlsReply>)
    returns (r: Result<seq<Series>, Failure>)
    requires span >= 1
    ensures r == YearsOutcome(ids, key, Some(first), Some(last), span, fetch)
  {
    var order: seq<string> := [];
    var byId: map<string, Series> := map[];
    ghost var done: seq<(int, int)> := [];
    ghost var lists: seq<seq<Series>> := [];
    assert Holds(order, byId, Flatten(lists)) by {
      assert Dedup(Ids([])) == [];
    }
    var chunkStart := first;
    while chunkStart <= last
      invariant Chunks(first, last, span) == done + Chunks(chunkStart, last, span)
      invariant FetchChunks(ids, key, done, fetch) == Ok(lists)
      invariant Holds(order, byId, Flatten(lists))
      decreases last - chunkStart
    {
      var chunkEnd := Min(chunkStart + span - 1, last);
      var rest := Chunks(chunkStart + span, last, span);
      ChunksStep(first, last, span, done, chunkStart);
      FetchChunksStep(ids, key, done, lists, (chunkStart, chunkEnd), fetch);
      var reply := Check(fetch(YearsPayload(ids, chunkStart, chunkEnd, key)));
      if reply.Err? {
        FetchChunksStops(ids, key, done + [(chunkStart, chunkEnd)], rest, fetch);
        return Err(reply.error);
      }
      var chunkSeries := reply.value.series;
      order, byId := MergeChunk(order, byId, chunkSeries, Flatten(lists));
      FlattenAppend(lists, chunkSeries);
      done := done + [(chunkStart, chunkEnd)];
      lists := lists + [chunkSeries];
      chunkStart := chunkStart + span;
    }
    assert done == Chunks(first, last, span);
    var merged := Finish(order, byId, Flatten(lists));
    r := Ok(merged);
  }

  /** The merged series come one per id, in order of first appearance. */
  lemma {:induction false} MergedOrder(all: seq<Series>, k: nat)
    requires k < |Merged(all)|
    ensures NoDuplicates(Dedup(Ids(all)))
    ensures Dedup(Ids(all))[k] in Ids(all)
    ensures Merged(all)[k] == MergedOf(all, Dedup(Ids(all))[k])
  {
    DedupMembers(Ids(all));
    assert Dedup(Ids(all))[k] in Dedup(Ids(all));
  }

  /** A merged series has one observation per key, the first one fetched, and the
      metadata of the first series with its id. */
  lemma {:induction false} MergedOfMeaning(all: seq<Series>, id: string, x: Item)
    requires id in Ids(all)
    ensures MergedOf(all, id).fields == all[FirstIndex(Ids(all), id)].fields
    ensures UniqueKeys(MergedOf(all, id).data)
    ensures x in MergedOf(all, id).data <==>
      exists i :: 0 <= i < |DataOf(all, id)| && DataOf(all, id)[i] == x && FirstOfKey(DataOf(all, id), i)
  {
    FirstFieldsIsFirst(all, id);
    FirstByKeyUnique(DataOf(all, id));
    FirstByKeyWins(DataOf(all, id), x);
    assert MergedOf(all, id).data == FirstByKey(DataOf(all, id));
  }

  /** Sorting a series with distinct keys keeps them distinct and keeps its observations. */
  lemma {:induction false} SortedKeepsKeys(m: Series, x: Item)
    requires UniqueKeys(m.data)
    ensures var out := SortedSeries(m);
      && UniqueKeys(out.data)
      && (x in out.data <==> x in m.data)
  {
    var out := SortedSeries(m);
    SortedSeriesSorts(m);
    assert x in out.data <==> x in m.data by {
      assert x in multiset(out.data) <==> x in multiset(m.data);
    }
    forall i, j | 0 <= i < j < |out.data|
      ensures Key(out.data[i]) != Key(out.data[j])
    {
      UniqueKeysPermuted(m.data, out.data, i, j);
    }
  }

  /** What the year-range path serves: each series is the merged series of its id,
      sorted newest first, keeping its observations. */
  lemma {:induction false} YearsOutcomeMeaning(all: seq<Series>, k: nat, x: Item)
    requires k < |Merged(all)|
    ensures Finished(Merged(all))[k].seriesID == Dedup(Ids(all))[k]
    ensures Finished(Merged(all))[k].fields == MergedOf(all, Dedup(Ids(all))[k]).fields
    ensures Sorted(Finished(Merged(all))[k].data, Newer)
    ensures UniqueKeys(Finished(Merged(all))[k].data)
    ensures x in Finished(Merged(all))[k].data <==> x in MergedOf(all, Dedup(Ids(all))[k]).data
  {
    var m := Merged(all)[k];
    assert Finished(Merged(all))[k] == SortedSeries(m);
    MergedOrder(all, k);
    MergedOfMeaning(all, Dedup(Ids(all))[k], x);
    SortedSeriesSorts(m);
    SortedKeepsKeys(m, x);
  }

  /** Reordering keeps keys apart. */
  lemma {:induction false} UniqueKeysPermuted(a: seq<Item>, b: seq<Item>, i: int, j: int)
    requires multiset(a) == multiset(b) && 0 <= i < j < |b|
    requires UniqueKeys(a)
    ensures Key(b[i]) != Key(b[j])
  {
    assert b[i] in multiset(a) && b[j] in multiset(a);
    var p :| 0 <= p < |a| && a[p] == b[i];
    var q :| 0 <= q < |a| && a[q] == b[j];
    OneCopyOfKey(a, p);
    TwoCopies(b, i, j);
    assert p != q;
    if p < q {
      assert Key(a[p]) != Key(a[q]);
    } else {
      assert Key(a[q]) != Key(a[p]);
    }
  }

  lemma {:induction false} OneCopyOfKey(a: seq<Item>, p: int)
    requires 0 <= p < |a|
    requires UniqueKeys(a)
    ensures multiset(a)[a[p]] == 1
  {
    assert a == a[..p] + [a[p]] + a[p + 1..];
    assert a[p] !in a[..p] by {
      forall t | 0 <= t < p
        ensures a[..p][t] != a[p]
      {
        assert Key(a[t]) != Key(a[p]);
      }
    }
    var tail := a[p + 1..];
    assert a[p] !in tail by {
      forall t | 0 <= t < |tail|
        ensures tail[t] != a[p]
      {
        assert tail[t] == a[p + 1 + t];
        assert Key(a[p]) != Key(a[p + 1 + t]);
      }
    }
  }

  // ---------------------------------------------------------------------------------
  // The handler

  /** A request value as JavaScript sees it: absent, a string (from the query string or
      the JSON body) or a JSON number. */
  datatype Value = Missing | Str(text: string) | Num(number: int)

  predicate Truthy(v: Value) {
    match v
    case Missing => false
    case Str(s) => s != ""
    case Num(n) => n != 0
  }

  /** `Number(v)`, None standing for `NaN`; the reading of numeric text is `number`. */
  function NumberOf(v: Value, number: string -> Option<int>): Option<int> {
    match v
    case Missing => None
    case Str(s) => number(s)
    case Num(n) => Some(n)
  }

  function QueryValue(o: Option<string>): Value {
    match o
    case None => Missing
    case Some(s) => Str(s)
  }

  /** The incoming request: method, body ("" when absent) and query-string parameters;
      `multiSeriesId` is present when the multi-valued `seriesId` is an array. */
  datatype Request = Request(httpMethod: string, body: string, multiSeriesId: Option<seq<string>>,
                             seriesId: Option<string>, startYear: Option<string>, endYear: Option<string>,
                             latest: Option<string>)

  /** A parsed JSON body: `seriesId` when it is an array, and the other fields. */
  datatype Posted = Posted(seriesId: Option<seq<string>>, startYear: Value, endYear: Value, latest: Value)

  datatype Inputs = Inputs(seriesIds: seq<string>, startYear: Value, endYear: Value, latest: Value)

  /** A non-empty POST body is read as JSON (None when it does not parse, which throws);
      otherwise the query string is read. */
  function InputsOf(req: Request, parseBody: string -> Option<Posted>): (r: Result<Inputs, Failure>)
    ensures r.Err? ==> r.error == Failure(None) && req.httpMethod == "POST" && req.body != ""
  {
    if req.httpMethod == "POST" && req.body != "" then
      match parseBody(req.body)
      case None => Err(Failure(None))
      case Some(p) => Ok(Inputs(p.seriesId.GetOr([]), p.startYear, p.endYear, p.latest))
    else
      Ok(Inputs(SeriesIds(req.multiSeriesId, req.seriesId), QueryValue(req.startYear),
                QueryValue(req.endYear), QueryValue(req.latest)))
  }

  /** What is asked of the API: the latest `n` observations, or a year range whose bounds
      may be `NaN` (None). */
  datatype Plan = LatestOnly(latest: int) | YearSpan(first: Option<int>, last: Option<int>)

  /** A truthy `latest` asks for `max(1, latest)` observations (a `NaN` count leaves no
      bounds at all); otherwise the range runs from `startYear` or 2000 to `endYear` or the
      current year. */
  function PlanOf(inputs: Inputs, currentYear: int, number: string -> Option<int>): (plan: Plan)
    ensures plan.LatestOnly? <==> Truthy(inputs.latest) && NumberOf(inputs.latest, number).Some?
    ensures plan.LatestOnly? ==> plan.latest == Max(1, NumberOf(inputs.latest, number).value)
    ensures plan.LatestOnly? ==> plan.latest >= 1 && plan.latest >= NumberOf(inputs.latest, number).value
    ensures Truthy(inputs.latest) && NumberOf(inputs.latest, number).None? ==> plan == YearSpan(None, None)
    ensures !Truthy(inputs.latest) && !Truthy(inputs.startYear) ==> plan.first == Some(DefaultStartYear)
    ensures !Truthy(inputs.latest) && !Truthy(inputs.endYear) ==> plan.last == Some(currentYear)
    ensures !Truthy(inputs.latest) && Truthy(inputs.startYear) ==> plan.first == NumberOf(inputs.startYear, number)
    ensures !Truthy(inputs.latest) && Truthy(inputs.endYear) ==> plan.last == NumberOf(inputs.endYear, number)
  {
    if Truthy(inputs.latest) then
      match NumberOf(inputs.latest, number)
      case Some(n) => LatestOnly(Max(1, n))
      case None => YearSpan(None, None)
    else
      YearSpan(if Truthy(inputs.startYear) then NumberOf(inputs.startYear, number) else Some(DefaultStartYear),
               if Truthy(inputs.endYear) then NumberOf(inputs.endYear, number) else Some(currentYear))
  }

  /** The handler's answers. */
  datatype Response =
    | Preflight
    | MethodNotAllowed
    | MissingSeriesId
    | Failed(status: int)
    | Served(series: seq<Series>, responseTime: Option<int>, message: seq<string>)

  function StatusOf(r: Response): int {
    match r
    case Preflight => 204
    case MethodNotAllowed => 405
    case MissingSeriesId => 400
    case Failed(status) => status
    case Served(_, _, _) => 200
  }

  /** `BLS_API_KEY` when it is set and non-empty. */
  function RegistrationKey(apiKey: Option<string>): Option<string> {
    if apiKey.Some? && apiKey.value != "" then apiKey else None
  }

  /** The answer once the inputs are read. */
  function Answer(inputs: Inputs, currentYear: int, apiKey: Option<string>, span: int,
                  number: string -> Option<int>, fetch: Payload -> Option<BlsReply>): Response
    requires span >= 1
  {
    var ids := inputs.seriesIds;
    var key := RegistrationKey(apiKey);
    if ids == [] then MissingSeriesId
    else
      match PlanOf(inputs, currentYear, number)
      case LatestOnly(n) =>
        (match Check(fetch(LatestPayload(ids, n, key)))
         case Err(f) => Failed(ErrorStatus(f))
         case Ok(json) => Served(json.series, json.responseTime, json.message))
      case YearSpan(first, last) =>
        (match YearsOutcome(ids, key, first, last, span, fetch)
         case Err(f) => Failed(ErrorStatus(f))
         case Ok(series) => Served(series, None, []))
  }

  /** The handler: preflight, method check, inputs, then the answer. */
  function Handler(req: Request, currentYear: int, apiKey: Option<string>, span: int,
                   number: string -> Option<int>, parseBody: string -> Option<Posted>,
                   fetch: Payload -> Option<BlsReply>): Response
    requires span >= 1
  {
    if req.httpMethod == "OPTIONS" then Preflight
    else if req.httpMethod != "GET" && req.httpMethod != "POST" then MethodNotAllowed
    else
      match InputsOf(req, parseBody)
      case Err(f) => Failed(ErrorStatus(f))
      case Ok(inputs) => Answer(inputs, currentYear, apiKey, span, number, fetch)
  }

  /** Once the inputs are read the handler answers 400 exactly when there is no series
      id, and a failure is a 500 or a 502. */
  lemma {:induction false} AnswerStatus(inputs: Inputs, currentYear: int, apiKey: Option<string>, span: int,
                     number: string -> Option<int>, fetch: Payload -> Option<BlsReply>)
    requires span >= 1
    ensures Answer(inputs, currentYear, apiKey, span, number, fetch) == MissingSeriesId <==> inputs.seriesIds == []
    ensures Answer(inputs, currentYear, apiKey, span, number, fetch).Failed? ==>
      Answer(inputs, currentYear, apiKey, span, number, fetch).status in {500, 502}
    ensures StatusOf(Answer(inputs, currentYear, apiKey, span, number, fetch)) in {200, 400, 500, 502}
  {
    if inputs.seriesIds != [] {
      match PlanOf(inputs, currentYear, number)
      case LatestOnly(n) =>
      case YearSpan(first, last) =>
        if first.Some? && last.Some? {
          YearsFailureStatus(inputs.seriesIds, RegistrationKey(apiKey), Chunks(first.value, last.value, span), fetch);
        }
    }
  }

  /** The handler answers 204, 405, 400, 200, 500 or 502; 204 exactly for a preflight;
      400 exactly when a GET or POST request names no series id; a failure is a 500 (no
      usable reply) or a 502 (the API reported a failed status). */
  lemma {:induction false} HandlerStatus(req: Request, currentYear: int, apiKey: Option<string>, span: int,
                      number: string -> Option<int>, parseBody: string -> Option<Posted>,
                      fetch: Payload -> Option<BlsReply>)
    requires span >= 1
    ensures StatusOf(Handler(req, currentYear, apiKey, span, number, parseBody, fetch)) in {200, 204, 400, 405, 500, 502}
    ensures Handler(req, currentYear, apiKey, span, number, parseBody, fetch) == Preflight <==> req.httpMethod == "OPTIONS"
    ensures Handler(req, currentYear, apiKey, span, number, parseBody, fetch) == MissingSeriesId <==>
      && (req.httpMethod == "GET" || req.httpMethod == "POST")
      && InputsOf(req, parseBody).Ok? && InputsOf(req, parseBody).value.seriesIds == []
    ensures Handler(req, currentYear, apiKey, span, number, parseBody, fetch).Failed? ==>
      Handler(req, currentYear, apiKey, span, number, parseBody, fetch).status in {500, 502}
  {
    if (req.httpMethod == "GET" || req.httpMethod == "POST") && InputsOf(req, parseBody).Ok? {
      AnswerStatus(InputsOf(req, parseBody).value, currentYear, apiKey, span, number, fetch);
    }
  }

  /** A failed chunk fetch fails as `Check` does. */
  lemma {:induction false} YearsFailureStatus(ids: seq<string>, key: Option<string>, cs: seq<(int, int)>,
                                              fetch: Payload -> Option<BlsReply>)
    ensures FetchChunks(ids, key, cs, fetch).Err? ==> ErrorStatus(FetchChunks(ids, key, cs, fetch).error) in {500, 502}
  {
    if cs != [] {
      YearsFailureStatus(ids, key, cs[..|cs| - 1], fetch);
    }
  }

  /** The handler as the source runs it: the query string through the `Set`, the chunk
      loop through `FetchYears`. */
  method Handle(req: Request, currentYear: int, apiKey: Option<string>, span: int,
                number: string -> Option<int>, parseBody: string -> Option<Posted>,
                fetch: Payload -> Option<BlsReply>)
    returns (resp: Response)
    requires span >= 1
    ensures resp == Handler(req, currentYear, apiKey, span, number, parseBody, fetch)
  {
    if req.httpMethod == "OPTIONS" {
      return Preflight;
    }
    if req.httpMethod != "GET" && req.httpMethod != "POST" {
      return MethodNotAllowed;
    }
    var inputs: Inputs;
    if req.httpMethod == "POST" && req.body != "" {
      var posted := parseBody(req.body);
      if posted.None? {
        return Failed(ErrorStatus(Failure(None)));
      }
      inputs := Inputs(posted.value.seriesId.GetOr([]), posted.value.startYear, posted.value.endYear, posted.value.latest);
    } else {
      var ids := ParseSeriesIds(req.multiSeriesId, req.seriesId);
      inputs := Inputs(ids, QueryValue(req.startYear), QueryValue(req.endYear), QueryValue(req.latest));
    }
    if inputs.seriesIds == [] {
      return MissingSeriesId;
    }
    var key := RegistrationKey(apiKey);
    var plan := PlanOf(inputs, currentYear, number);
    if plan.LatestOnly? {
      var json := Check(fetch(LatestPayload(inputs.seriesIds, plan.latest, key)));
      if json.Err? {
        return Failed(ErrorStatus(json.error));
      }
      return Served(json.value.series, json.value.responseTime, json.value.message);
    }
    var outcome: Result<seq<Series>, Failure> := Ok([]);
    if plan.first.Some? && plan.last.Some? {
      outcome := FetchYears(inputs.seriesIds, key, plan.first.value, plan.last.value, span, fetch);
    }
    if outcome.Err? {
      return Failed(ErrorStatus(outcome.error));
    }
    resp := Served(outcome.value, None, []);
  }
}
