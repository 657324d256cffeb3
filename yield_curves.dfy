/** The Treasury side of the yield-curve endpoint: the yearly daily-yield-curve CSV files
    read and merged into one entry per calendar date, the maturities they cover, and the
    handler's choice of range and of status. */
module YieldCurves {
  import opened Wrappers
  import opened Text
  import opened Seqs

  const DefaultRangeDays := 540
  const MaxRangeDays := 1095
  const MsPerDay := 86400000

  // ---------------------------------------------------------------------------------
  // parseNumber

  /** `text.replace(/,/g, "")`. */
  function WithoutCommas(s: string): (r: string)
    ensures forall c :: c in r <==> c in s && c != ','
  {
    if s == [] then []
    else
      assert s == [s[0]] + s[1..];
      (if s[0] == ',' then [] else [s[0]]) + WithoutCommas(s[1..])
  }

  lemma {:induction false} WithoutCommasConcat(a: string, b: string)
    ensures WithoutCommas(a + b) == WithoutCommas(a) + WithoutCommas(b)
  {
    if a != [] {
      assert (a + b)[1..] == a[1..] + b;
      WithoutCommasConcat(a[1..], b);
    } else {
      assert a + b == b;
    }
  }

  lemma {:induction false} WithoutCommasOfDigits(s: string)
    requires AllDigits(s)
    ensures WithoutCommas(s) == s
  {
    if s != [] {
      WithoutCommasOfDigits(s[1..]);
      assert [s[0]] + s[1..] == s;
    }
  }

  /** `parseNumber`: no number for a missing cell, for a blank one or for "N/A";
      otherwise the trimmed text without its commas, read by `parseFloat`, which stands
      for `Number.parseFloat` followed by the finiteness test. */
  function ParseNumber(cell: Option<string>, parseFloat: string -> Option<real>): (r: Option<real>)
    ensures cell.None? || Trim(cell.value) == [] || Trim(cell.value) == "N/A" ==> r.None?
    ensures r.Some? ==> r == parseFloat(WithoutCommas(Trim(cell.value)))
    ensures cell.Some? && Trim(cell.value) != [] && Trim(cell.value) != "N/A" ==> r == parseFloat(WithoutCommas(Trim(cell.value)))
  {
    match cell
    case None => None
    case Some(text) =>
      var cleaned := Trim(text);
      if cleaned == [] || cleaned == "N/A" then None
      else parseFloat(WithoutCommas(cleaned))
  }

  /** A figure written with a thousands separator reads as its digits without it. */
  lemma {:induction false} ThousandsSeparatorDropped(a: string, b: string, parseFloat: string -> Option<real>)
    requires a != [] && AllDigits(a) && AllDigits(b)
    ensures ParseNumber(Some(a + "," + b), parseFloat) == parseFloat(a + b)
  {
    var t := a + "," + b;
    assert t[0] == a[0] && t[0] != 'N';
    assert t[|t| - 1] == if b == [] then ',' else b[|b| - 1];
    TrimNoSpaceEnds(t);
    SeparatorRemoved(a, b);
  }

  lemma {:induction false} SeparatorRemoved(a: string, b: string)
    requires AllDigits(a) && AllDigits(b)
    ensures WithoutCommas(a + "," + b) == a + b
  {
    WithoutCommasConcat(a + ",", b);
    WithoutCommasConcat(a, ",");
    WithoutCommasOfDigits(a);
    WithoutCommasOfDigits(b);
    assert WithoutCommas(",") == [];
  }

  // ---------------------------------------------------------------------------------
  // parseCsv

  datatype Csv = Csv(header: seq<string>, rows: seq<seq<string>>)

  /** `text.trim().split(/\r?\n/).filter(Boolean)`. */
  function NonEmptyLines(text: string): (lines: seq<string>)
    ensures forall i :: 0 <= i < |lines| ==> lines[i] != []
  {
    Filter(SplitLines(Trim(text)), (l: string) => l != [])
  }

  /** `.replace(/^"|"$/g, "")`: one leading and one trailing double quote removed. */
  function Unquote(p: string): string {
    var a := if p != [] && p[0] == '"' then p[1..] else p;
    if a != [] && a[|a| - 1] == '"' then a[..|a| - 1] else a
  }

  function HeaderField(p: string): string {
    Unquote(Trim(p))
  }

  /** `parseCsv`: the first non-empty line split on commas into trimmed, unquoted column
      names; every later non-empty line split on every comma, untouched. */
  function ParseCsv(text: string): (csv: Csv)
    ensures csv.header == [] <==> NonEmptyLines(text) == []
    ensures csv.header == [] ==> csv.rows == []
  {
    var lines := NonEmptyLines(text);
    if lines == [] then Csv([], [])
    else
      var names := Split(lines[0], ',');
      Csv(seq(|names|, i requires 0 <= i < |names| => HeaderField(names[i])),
          seq(|lines| - 1, i requires 0 <= i < |lines| - 1 => Split(lines[i + 1], ',')))
  }

  /** The header is empty exactly when the text is blank. */
  lemma {:induction false} BlankCsv(text: string)
    ensures ParseCsv(text).header == [] <==> IsBlank(text)
  {
    var t := Trim(text);
    var keep := (l: string) => l != [];
    if t == [] {
      assert Split(t, '\n') == [[]];
      assert SplitLines(t) == [[]];
      assert Filter(SplitLines(t), keep) == [];
    } else {
      var parts := Split(t, '\n');
      var rest := Split(t[1..], '\n');
      assert parts == [[t[0]] + rest[0]] + rest[1..];
      var first := SplitLines(t)[0];
      assert first != [] by {
        assert parts[0][0] == t[0] && !IsSpace(t[0]);
      }
      FilterExactly(SplitLines(t), keep, first);
    }
  }

  /** Each row joined back with commas is the line it came from, and there is one row
      per non-empty line after the header. */
  lemma {:induction false} RowsAreLines(text: string)
    ensures ParseCsv(text).header != [] ==> |ParseCsv(text).rows| == |NonEmptyLines(text)| - 1
    ensures forall i :: 0 <= i < |ParseCsv(text).rows| ==>
      Join(ParseCsv(text).rows[i], ",") == NonEmptyLines(text)[i + 1]
  {
    var lines := NonEmptyLines(text);
    var rows := ParseCsv(text).rows;
    forall i | 0 <= i < |rows|
      ensures Join(rows[i], ",") == lines[i + 1]
    {
      assert rows[i] == Split(lines[i + 1], ',');
      JoinSplit(lines[i + 1], ',');
    }
  }

  /** A column name written in double quotes reads back as the name. */
  lemma {:induction false} HeaderFieldQuoted(name: string)
    ensures HeaderField("\"" + name + "\"") == name
  {
    var q := "\"" + name + "\"";
    assert TrimStart(q) == q;
    assert TrimEnd(q) == q;
    assert q[1..][..|q| - 2] == name;
  }

  // ---------------------------------------------------------------------------------
  // The layout of one file

  datatype Maturity = Maturity(column: string, key: string, title: string)

  /** `/date/i.test(column)`: the name contains "date" in any mix of case. */
  predicate MentionsDate(column: string) {
    |column| >= 4 && (ToLowerAscii(column[..4]) == "date" || MentionsDate(column[1..]))
  }

  /** `header.findIndex((column) => /date/i.test(column))`. */
  function DateIndex(header: seq<string>): (r: Option<nat>)
    ensures r.Some? ==> r.value < |header| && MentionsDate(header[r.value])
    ensures r.Some? ==> forall j :: 0 <= j < r.value ==> !MentionsDate(header[j])
    ensures r.None? ==> forall j :: 0 <= j < |header| ==> !MentionsDate(header[j])
  {
    if header == [] then None
    else if MentionsDate(header[0]) then Some(0)
    else
      match DateIndex(header[1..])
      case None => None
      case Some(k) => Some(k + 1)
  }

  /** `MATURITY_MAP.filter((entry) => header.includes(entry.column))`. */
  function Available(table: seq<Maturity>, header: seq<string>): seq<Maturity> {
    Filter(table, (m: Maturity) => m.column in header)
  }

  /** `header.indexOf(name)`. */
  function IndexOf(header: seq<string>, name: string): int {
    if name in header then FirstIndex(header, name) else -1
  }

  function KeysOf(avail: seq<Maturity>): set<string> {
    if avail == [] then {} else KeysOf(avail[..|avail| - 1]) + {avail[|avail| - 1].key}
  }

  lemma {:induction false} KeysOfMeaning(avail: seq<Maturity>, k: string)
    ensures k in KeysOf(avail) <==> exists m :: m in avail && m.key == k
  {
    if avail != [] {
      var front := avail[..|avail| - 1];
      KeysOfMeaning(front, k);
      assert avail == front + [avail[|avail| - 1]];
    }
  }

  /** `columnIndices`: each available key mapped to its column, set in table order. */
  function Indices(avail: seq<Maturity>, header: seq<string>): (m: map<string, int>)
    ensures m.Keys == KeysOf(avail)
  {
    if avail == [] then map[]
    else
      var last := avail[|avail| - 1];
      Indices(avail[..|avail| - 1], header)[last.key := IndexOf(header, last.column)]
  }

  datatype Layout = Layout(dateIndex: nat, available: seq<Maturity>, indices: map<string, int>)

  /** How a file is read, or None when it is skipped: no header, no date column, or no
      column of the maturity table. */
  function LayoutOf(header: seq<string>, table: seq<Maturity>): Option<Layout> {
    if header == [] then None
    else
      match DateIndex(header)
      case None => None
      case Some(d) =>
        var avail := Available(table, header);
        if avail == [] then None else Some(Layout(d, avail, Indices(avail, header)))
  }

  // ---------------------------------------------------------------------------------
  // Rows

  /** What the reading depends on besides the files: the maturity table and the pieces of
      `Date` and `Number` behaviour the model takes as given. `parseDate` is `new Date(text)`
      as an instant in milliseconds (None when invalid), `isoDay` is
      `toISOString().slice(0, 10)` of an instant. */
  datatype Env = Env(
    table: seq<Maturity>,
    parseDate: string -> Option<int>,
    isoDay: int -> string,
    parseFloat: string -> Option<real>)

  /** `columns[i]`, undefined outside the row. */
  function Cell(columns: seq<string>, i: int): Option<string> {
    if 0 <= i < |columns| then Some(columns[i]) else None
  }

  function Lookup(indices: map<string, int>, key: string): int {
    if key in indices then indices[key] else -1
  }

  /** The value a row gives one maturity. */
  function CellValue(indices: map<string, int>, key: string, columns: seq<string>,
                     parseFloat: string -> Option<real>): Option<real> {
    var columnIndex := Lookup(indices, key);
    if columnIndex == -1 then None else ParseNumber(Cell(columns, columnIndex), parseFloat)
  }

  /** The values a row writes: one per available maturity, in table order. */
  function RowValues(avail: seq<Maturity>, indices: map<string, int>, columns: seq<string>,
                     parseFloat: string -> Option<real>): (values: map<string, Option<real>>)
    ensures values.Keys == KeysOf(avail)
  {
    if avail == [] then map[]
    else
      var key := avail[|avail| - 1].key;
      RowValues(avail[..|avail| - 1], indices, columns, parseFloat)[key := CellValue(indices, key, columns, parseFloat)]
  }

  /** The ISO day of a row that is kept: its date cell is present and non-empty, reads as a
      valid date, and is not before the cutoff. */
  function RowDate(columns: seq<string>, dateIndex: nat, cutoff: int, env: Env): Option<string> {
    match Cell(columns, dateIndex)
    case None => None
    case Some(raw) =>
      if raw == [] then None
      else
        match env.parseDate(raw)
        case None => None
        case Some(t) => if t < cutoff then None else Some(env.isoDay(t))
  }

  /** One kept row: the day it is for and the values it writes. */
  datatype Update = Update(date: string, values: map<string, Option<real>>)

  /** The update of one row: none when the row is not kept. */
  function RowUpdate(columns: seq<string>, layout: Layout, cutoff: int, env: Env): seq<Update> {
    match RowDate(columns, layout.dateIndex, cutoff, env)
    case None => []
    case Some(d) => [Update(d, RowValues(layout.available, layout.indices, columns, env.parseFloat))]
  }

  function RowUpdates(rows: seq<seq<string>>, layout: Layout, cutoff: int, env: Env): seq<Update> {
    if rows == [] then []
    else RowUpdates(rows[..|rows| - 1], layout, cutoff, env) + RowUpdate(rows[|rows| - 1], layout, cutoff, env)
  }

  /** The updates of one file, in row order; none for a skipped file. */
  function CsvUpdates(text: string, cutoff: int, env: Env): seq<Update> {
    var csv := ParseCsv(text);
    match LayoutOf(csv.header, env.table)
    case None => []
    case Some(layout) => RowUpdates(csv.rows, layout, cutoff, env)
  }

  /** The maturity keys a file records as found (even when none of its rows is kept). */
  function CsvKeys(text: string, env: Env): set<string> {
    match LayoutOf(ParseCsv(text).header, env.table)
    case None => {}
    case Some(layout) => KeysOf(layout.available)
  }

  function Updates(texts: seq<string>, cutoff: int, env: Env): seq<Update> {
    if texts == [] then []
    else Updates(texts[..|texts| - 1], cutoff, env) + CsvUpdates(texts[|texts| - 1], cutoff, env)
  }

  function FoundKeys(texts: seq<string>, env: Env): set<string> {
    UnionOf(texts, (text: string) => CsvKeys(text, env))
  }

  // ---------------------------------------------------------------------------------
  // Merging by date

  function DatesOf(us: seq<Update>): (ds: seq<string>)
    ensures |ds| == |us| && forall i :: 0 <= i < |us| ==> ds[i] == us[i].date
  {
    if us == [] then [] else DatesOf(us[..|us| - 1]) + [us[|us| - 1].date]
  }

  /** `seriesByDate` after the updates, in order: an update adds its values to the entry
      for its day, overwriting the maturities it covers. */
  function Merge(us: seq<Update>): map<string, map<string, Option<real>>> {
    if us == [] then map[]
    else
      var m := Merge(us[..|us| - 1]);
      var u := us[|us| - 1];
      m[u.date := (if u.date in m then m[u.date] else map[]) + u.values]
  }

  /** The days merged are the days of the updates. */
  lemma {:induction false} MergeDomain(us: seq<Update>)
    ensures forall d :: d in Merge(us) <==> d in DatesOf(us)
  {
    if us != [] {
      MergeDomain(us[..|us| - 1]);
      assert DatesOf(us) == DatesOf(us[..|us| - 1]) + [us[|us| - 1].date];
    }
  }

  /** Update `i` is the last one that writes maturity `k` for day `d`. */
  predicate LastWrite(us: seq<Update>, i: int, d: string, k: string) {
    && 0 <= i < |us| && us[i].date == d && k in us[i].values
    && forall j :: i < j < |us| && us[j].date == d ==> k !in us[j].values
  }

  /** Later wins: the merged value of a maturity on a day is the one its last write gave. */
  lemma {:induction false} MergeLaterWins(us: seq<Update>, i: int, d: string, k: string)
    requires LastWrite(us, i, d, k)
    ensures d in Merge(us) && k in Merge(us)[d] && Merge(us)[d][k] == us[i].values[k]
  {
    var front := us[..|us| - 1];
    if i < |us| - 1 {
      assert LastWrite(front, i, d, k) by {
        assert forall j :: 0 <= j < |front| ==> front[j] == us[j];
      }
      MergeLaterWins(front, i, d, k);
    }
  }

  /** Nothing is merged that no update wrote. */
  lemma {:induction false} MergeWritten(us: seq<Update>, d: string, k: string)
    requires d in Merge(us) && k in Merge(us)[d]
    ensures exists i :: LastWrite(us, i, d, k)
  {
    var n := |us| - 1;
    var front := us[..n];
    var u := us[n];
    if u.date == d && k in u.values {
      assert LastWrite(us, n, d, k);
    } else {
      assert d in Merge(front) && k in Merge(front)[d];
      MergeWritten(front, d, k);
      var i :| LastWrite(front, i, d, k);
      assert LastWrite(us, i, d, k) by {
        assert forall j :: 0 <= j < n ==> front[j] == us[j];
      }
    }
  }

  /** One more update, as the loop performs it. */
  lemma {:induction false} MergeStep(xs: seq<Update>, u: Update)
    ensures Merge(xs + [u]) == Merge(xs)[u.date := (if u.date in Merge(xs) then Merge(xs)[u.date] else map[]) + u.values]
    ensures Dedup(DatesOf(xs + [u]))
         == if u.date in Merge(xs) then Dedup(DatesOf(xs)) else Dedup(DatesOf(xs)) + [u.date]
  {
    assert (xs + [u])[..|xs|] == xs;
    assert DatesOf(xs + [u]) == DatesOf(xs) + [u.date];
    DedupAppend(DatesOf(xs), u.date);
    MergeDomain(xs);
    DedupMembers(DatesOf(xs));
  }

  // ---------------------------------------------------------------------------------
  // The series

  datatype Entry = Entry(date: string, values: map<string, Option<real>>)

  /** `Array.from(seriesByDate.values())`: one entry per day, in first-seen order. */
  function Entries(us: seq<Update>): seq<Entry> {
    var ds := Dedup(DatesOf(us));
    MergeDomain(us);
    DedupMembers(DatesOf(us));
    seq(|ds|, i requires 0 <= i < |ds| => Entry(ds[i], Merge(us)[ds[i]]))
  }

  /** `a.date.localeCompare(b.date) <= 0`. */
  predicate DateLe(a: Entry, b: Entry) {
    LexLe(a.date, b.date)
  }

  lemma {:induction false} DateLeIsPreorder()
    ensures TotalPreorder(DateLe)
  {
    forall a: Entry, b: Entry
      ensures DateLe(a, b) || DateLe(b, a)
    {
      LexLeTotal(a.date, b.date);
    }
    forall a: Entry, b: Entry, c: Entry | DateLe(a, b) && DateLe(b, c)
      ensures DateLe(a, c)
    {
      LexLeTransitive(a.date, b.date, c.date);
    }
  }

  function SeriesOf(us: seq<Update>): seq<Entry> {
    DateLeIsPreorder();
    SortBy(Entries(us), DateLe)
  }

  /** The series holds one entry per merged day, with that day's merged values, in
      strictly ascending order of day. */
  lemma {:induction false} SeriesMeaning(us: seq<Update>)
    ensures forall i, j :: 0 <= i < j < |SeriesOf(us)| ==>
      LexLe(SeriesOf(us)[i].date, SeriesOf(us)[j].date) && SeriesOf(us)[i].date != SeriesOf(us)[j].date
    ensures forall e :: e in SeriesOf(us) <==> e.date in Merge(us) && e.values == Merge(us)[e.date]
  {
    var m := Merge(us);
    var es := Entries(us);
    EntriesMeaning(us);
    DateLeIsPreorder();
    var r := SortBy(es, DateLe);
    PermutationNoDuplicates(es, r);
    forall e: Entry
      ensures e in r <==> e in es
    {
      assert e in r <==> e in multiset(r);
      assert e in es <==> e in multiset(es);
    }
    forall i, j | 0 <= i < j < |r|
      ensures r[i].date != r[j].date
    {
      assert r[i] in es && r[j] in es;
    }
  }

  /** Before sorting: one entry per merged day, with its merged values. */
  lemma {:induction false} EntriesMeaning(us: seq<Update>)
    ensures NoDuplicates(Entries(us))
    ensures forall e :: e in Entries(us) <==> e.date in Merge(us) && e.values == Merge(us)[e.date]
  {
    var ds := Dedup(DatesOf(us));
    var m := Merge(us);
    var es := Entries(us);
    MergeDomain(us);
    DedupMembers(DatesOf(us));
    forall i, j | 0 <= i < j < |es|
      ensures es[i] != es[j]
    {
      assert es[i].date == ds[i] && es[j].date == ds[j];
    }
    forall e: Entry | e.date in m && e.values == m[e.date]
      ensures e in es
    {
      var i :| 0 <= i < |ds| && ds[i] == e.date;
      assert es[i] == e;
    }
  }

  datatype Treasury = Treasury(maturities: seq<Maturity>, series: seq<Entry>)

  /** `parseTreasuryData`: nothing (an error) for no files or when no row is kept;
      otherwise the maturities found, in table order, and the series by day. */
  function TreasuryOf(texts: seq<string>, cutoff: int, env: Env): Option<Treasury> {
    if texts == [] then None
    else
      var us := Updates(texts, cutoff, env);
      if Merge(us) == map[] then None
      else
        var found := FoundKeys(texts, env);
        Some(Treasury(Filter(env.table, (m: Maturity) => m.key in found), SeriesOf(us)))
  }

  // ---------------------------------------------------------------------------------
  // The reading loop

  /** `existing.values[key] = value` for each available maturity. */
  method SetValues(existing: map<string, Option<real>>, avail: seq<Maturity>, indices: map<string, int>,
                   columns: seq<string>, parseFloat: string -> Option<real>)
    returns (values: map<string, Option<real>>)
    ensures values == existing + RowValues(avail, indices, columns, parseFloat)
  {
    values := existing;
    for k := 0 to |avail|
      invariant values == existing + RowValues(avail[..k], indices, columns, parseFloat)
    {
      var key := avail[k].key;
      var columnIndex := Lookup(indices, key);
      var value := if columnIndex == -1 then None else ParseNumber(Cell(columns, columnIndex), parseFloat);
      values := values[key := value];
      assert avail[..k + 1][..k] == avail[..k];
      UnionUpdate(existing, RowValues(avail[..k], indices, columns, parseFloat), key, value);
    }
    assert avail[..|avail|] == avail;
  }

  lemma {:induction false} UnionUpdate<K, V>(a: map<K, V>, b: map<K, V>, k: K, v: V)
    ensures (a + b)[k := v] == a + b[k := v]
  {
  }

  /** The kept rows of one file added to the merged days. */
  method ReadRows(rows: seq<seq<string>>, layout: Layout, cutoff: int, env: Env,
                  byDate: map<string, map<string, Option<real>>>, order: seq<string>, ghost us: seq<Update>)
    returns (byDate': map<string, map<string, Option<real>>>, order': seq<string>)
    requires byDate == Merge(us) && order == Dedup(DatesOf(us))
    ensures byDate' == Merge(us + RowUpdates(rows, layout, cutoff, env))
    ensures order' == Dedup(DatesOf(us + RowUpdates(rows, layout, cutoff, env)))
  {
    byDate', order' := byDate, order;
    ghost var xs := us;
    assert us + [] == us;
    for j := 0 to |rows|
      invariant xs == us + RowUpdates(rows[..j], layout, cutoff, env)
      invariant byDate' == Merge(xs) && order' == Dedup(DatesOf(xs))
    {
      RowUpdatesStep(us, rows, j, layout, cutoff, env);
      byDate', order' := AddRow(rows[j], layout, cutoff, env, byDate', order', xs);
      xs := xs + RowUpdate(rows[j], layout, cutoff, env);
    }
    assert rows[..|rows|] == rows;
  }

  /** One row added to the merged days, when it is kept. */
  method AddRow(columns: seq<string>, layout: Layout, cutoff: int, env: Env,
                byDate: map<string, map<string, Option<real>>>, order: seq<string>, ghost xs: seq<Update>)
    returns (byDate': map<string, map<string, Option<real>>>, order': seq<string>)
    requires byDate == Merge(xs) && order == Dedup(DatesOf(xs))
    ensures byDate' == Merge(xs + RowUpdate(columns, layout, cutoff, env))
    ensures order' == Dedup(DatesOf(xs + RowUpdate(columns, layout, cutoff, env)))
  {
    byDate', order' := byDate, order;
    var date := RowDate(columns, layout.dateIndex, cutoff, env);
    if date.Some? {
      var existing := if date.value in byDate' then byDate'[date.value] else map[];
      existing := SetValues(existing, layout.available, layout.indices, columns, env.parseFloat);
      ghost var u := Update(date.value, RowValues(layout.available, layout.indices, columns, env.parseFloat));
      assert RowUpdate(columns, layout, cutoff, env) == [u];
      MergeStep(xs, u);
      if date.value !in byDate' {
        order' := order' + [date.value];
      }
      byDate' := byDate'[date.value := existing];
    } else {
      assert RowUpdate(columns, layout, cutoff, env) == [];
      assert xs + [] == xs;
    }
  }

  lemma {:induction false} RowUpdatesStep(us: seq<Update>, rows: seq<seq<string>>, j: nat, layout: Layout, cutoff: int, env: Env)
    requires j < |rows|
    ensures us + RowUpdates(rows[..j + 1], layout, cutoff, env)
         == us + RowUpdates(rows[..j], layout, cutoff, env) + RowUpdate(rows[j], layout, cutoff, env)
  {
    assert rows[..j + 1][..j] == rows[..j];
  }

  /** `maturitiesFound` and `columnIndices` filled in for the available maturities. */
  method RecordColumns(avail: seq<Maturity>, header: seq<string>, found: set<string>)
    returns (indices: map<string, int>, found': set<string>)
    ensures indices == Indices(avail, header)
    ensures found' == found + KeysOf(avail)
  {
    indices, found' := map[], found;
    for j := 0 to |avail|
      invariant indices == Indices(avail[..j], header)
      invariant found' == found + KeysOf(avail[..j])
    {
      assert avail[..j + 1][..j] == avail[..j];
      found' := found' + {avail[j].key};
      indices := indices[avail[j].key := IndexOf(header, avail[j].column)];
    }
    assert avail[..|avail|] == avail;
  }

  /** One file read into the merged days and the maturities found. */
  method ReadCsv(text: string, cutoff: int, env: Env, byDate: map<string, map<string, Option<real>>>,
                 order: seq<string>, found: set<string>, ghost us: seq<Update>)
    returns (byDate': map<string, map<string, Option<real>>>, order': seq<string>, found': set<string>)
    requires byDate == Merge(us) && order == Dedup(DatesOf(us))
    ensures byDate' == Merge(us + CsvUpdates(text, cutoff, env))
    ensures order' == Dedup(DatesOf(us + CsvUpdates(text, cutoff, env)))
    ensures found' == found + CsvKeys(text, env)
  {
    byDate', order', found' := byDate, order, found;
    assert us + [] == us;
    var csv := ParseCsv(text);
    if csv.header == [] {
      return;
    }
    var dateIndex := DateIndex(csv.header);
    if dateIndex.None? {
      return;
    }
    var avail := Available(env.table, csv.header);
    if avail == [] {
      return;
    }
    var indices;
    indices, found' := RecordColumns(avail, csv.header, found);
    var layout := Layout(dateIndex.value, avail, indices);
    assert LayoutOf(csv.header, env.table) == Some(layout);
    byDate', order' := ReadRows(csv.rows, layout, cutoff, env, byDate, order, us);
  }

  method ParseTreasuryData(texts: seq<string>, cutoff: int, env: Env) returns (r: Option<Treasury>)
    ensures r == TreasuryOf(texts, cutoff, env)
  {
    if texts == [] {
      return None;
    }
    var byDate: map<string, map<string, Option<real>>> := map[];
    var order: seq<string> := [];
    var found: set<string> := {};
    ghost var us: seq<Update> := [];
    for i := 0 to |texts|
      invariant us == Updates(texts[..i], cutoff, env)
      invariant byDate == Merge(us) && order == Dedup(DatesOf(us))
      invariant found == FoundKeys(texts[..i], env)
    {
      assert texts[..i + 1][..i] == texts[..i];
      byDate, order, found := ReadCsv(texts[i], cutoff, env, byDate, order, found, us);
      us := us + CsvUpdates(texts[i], cutoff, env);
    }
    assert texts[..|texts|] == texts;
    if byDate == map[] {
      return None;
    }
    r := Finish(byDate, order, found, env, Updates(texts, cutoff, env));
  }

  /** The maturities found in table order and the entries sorted by day. */
  method Finish(byDate: map<string, map<string, Option<real>>>, order: seq<string>, found: set<string>,
                env: Env, ghost us: seq<Update>) returns (r: Option<Treasury>)
    requires byDate == Merge(us) && order == Dedup(DatesOf(us))
    ensures r == Some(Treasury(Filter(env.table, (m: Maturity) => m.key in found), SeriesOf(us)))
  {
    MergeDomain(us);
    DedupMembers(DatesOf(us));
    var maturities := Filter(env.table, (m: Maturity) => m.key in found);
    var entries := seq(|order|, k requires 0 <= k < |order| => Entry(order[k], byDate[order[k]]));
    assert entries == Entries(us);
    DateLeIsPreorder();
    var series := SortBy(entries, DateLe);
    r := Some(Treasury(maturities, series));
  }

  // ---------------------------------------------------------------------------------
  // What the reading promises

  /** The parse fails exactly when there is no file or no row is kept. */
  lemma {:induction false} TreasuryFails(texts: seq<string>, cutoff: int, env: Env)
    ensures TreasuryOf(texts, cutoff, env).None? <==> texts == [] || Updates(texts, cutoff, env) == []
  {
    var us := Updates(texts, cutoff, env);
    MergeDomain(us);
    if us != [] {
      assert DatesOf(us)[0] in Merge(us);
    }
  }

  /** A day that is merged was the ISO day of some instant on or after the cutoff. */
  ghost predicate Recent(cutoff: int, env: Env, d: string) {
    exists t :: cutoff <= t && env.isoDay(t) == d
  }

  lemma {:induction false} RowUpdatesRecent(rows: seq<seq<string>>, layout: Layout, cutoff: int, env: Env)
    ensures forall u :: u in RowUpdates(rows, layout, cutoff, env) ==> Recent(cutoff, env, u.date)
  {
    if rows != [] {
      var columns := rows[|rows| - 1];
      RowUpdatesRecent(rows[..|rows| - 1], layout, cutoff, env);
      match RowDate(columns, layout.dateIndex, cutoff, env)
      case None =>
      case Some(d) =>
        var raw := Cell(columns, layout.dateIndex).value;
        assert cutoff <= env.parseDate(raw).value && env.isoDay(env.parseDate(raw).value) == d;
    }
  }

  /** Every day in the series comes from a row dated on or after the cutoff. */
  lemma {:induction false} UpdatesRecent(texts: seq<string>, cutoff: int, env: Env)
    ensures forall u :: u in Updates(texts, cutoff, env) ==> Recent(cutoff, env, u.date)
  {
    if texts != [] {
      UpdatesRecent(texts[..|texts| - 1], cutoff, env);
      var csv := ParseCsv(texts[|texts| - 1]);
      match LayoutOf(csv.header, env.table)
      case None =>
      case Some(layout) => RowUpdatesRecent(csv.rows, layout, cutoff, env);
    }
  }

  /** A file without a header, a date column or a maturity column changes nothing. */
  lemma {:induction false} SkippedCsv(texts: seq<string>, text: string, cutoff: int, env: Env)
    requires LayoutOf(ParseCsv(text).header, env.table).None?
    ensures TreasuryOf(texts + [text], cutoff, env) == TreasuryOf(texts, cutoff, env)
  {
    var all := texts + [text];
    assert all[..|all| - 1] == texts;
    assert Updates(all, cutoff, env) == Updates(texts, cutoff, env);
    assert FoundKeys(all, env) == FoundKeys(texts, env);
    if texts == [] {
      assert Updates(all, cutoff, env) == [];
      assert Merge([]) == map[];
    }
  }

  /** A file is read when it has a header, a date column and a maturity column. */
  predicate Usable(text: string, env: Env) {
    LayoutOf(ParseCsv(text).header, env.table).Some?
  }

  lemma {:induction false} CsvKeysMeaning(text: string, env: Env, k: string)
    ensures k in CsvKeys(text, env) <==>
      Usable(text, env) && exists m :: m in env.table && m.column in ParseCsv(text).header && m.key == k
  {
    var header := ParseCsv(text).header;
    var p := (m: Maturity) => m.column in header;
    if Usable(text, env) {
      var avail := Available(env.table, header);
      KeysOfMeaning(avail, k);
      forall m
        ensures m in avail <==> m in env.table && m.column in header
      {
        FilterExactly(env.table, p, m);
      }
    }
  }

  /** The maturities reported are the table's entries whose key some readable file has a
      column for, in table order. */
  lemma {:induction false} MaturitiesMeaning(texts: seq<string>, cutoff: int, env: Env, m: Maturity)
    requires TreasuryOf(texts, cutoff, env).Some?
    ensures m in TreasuryOf(texts, cutoff, env).value.maturities <==>
      m in env.table && exists i :: 0 <= i < |texts| && m.key in CsvKeys(texts[i], env)
  {
    var found := FoundKeys(texts, env);
    var keys := (text: string) => CsvKeys(text, env);
    FilterExactly(env.table, (x: Maturity) => x.key in found, m);
    UnionOfMeaning(texts, keys, m.key);
    assert forall i :: 0 <= i < |texts| ==> keys(texts[i]) == CsvKeys(texts[i], env);
  }

  // ---------------------------------------------------------------------------------
  // The handler

  function Min(a: int, b: int): int {
    if a <= b then a else b
  }

  /** `Number.parseInt(range, 10)` used when positive, capped at 1095; 540 otherwise. */
  function RangeDays(range: Option<string>): (days: int)
    ensures 1 <= days <= MaxRangeDays
  {
    var n := if range.Some? then ParseInt(range.value) else None;
    if n.Some? && n.value > 0 then Min(n.value, MaxRangeDays) else DefaultRangeDays
  }

  /** A range written as a number is honoured up to the cap; a non-positive one gives the
      default. */
  lemma {:induction false} RangeOfNumber(v: int)
    ensures RangeDays(Some(IntToString(v))) == if v <= 0 then DefaultRangeDays else Min(v, MaxRangeDays)
  {
    ParseIntOfIntToString(v, []);
    assert IntToString(v) + [] == IntToString(v);
  }

  /** `cutoff.setUTCDate(cutoff.getUTCDate() - rangeDays)`: UTC days are all the same length. */
  function Cutoff(now: int, rangeDays: int): int {
    now - rangeDays * MsPerDay
  }

  datatype Response =
    | Preflight
    | MethodNotAllowed
    | Served(rangeDays: int, treasury: Treasury)
    | Failed

  function StatusOf(r: Response): int {
    match r
    case Preflight => 204
    case MethodNotAllowed => 405
    case Served(_, _) => 200
    case Failed => 502
  }

  /** The handler. `treasuryFiles(days)` stands for the yearly Treasury downloads for a
      range of `days` days (None when one fails) and `fredOk(days)` for the FRED downloads
      all succeeding; `now` is the clock. */
  function Handler(httpMethod: string, range: Option<string>, now: int, env: Env,
                   treasuryFiles: int -> Option<seq<string>>, fredOk: int -> bool): Response
  {
    if httpMethod == "OPTIONS" then Preflight
    else if httpMethod != "GET" then MethodNotAllowed
    else
      var days := RangeDays(range);
      match treasuryFiles(days)
      case None => Failed
      case Some(texts) =>
        if !fredOk(days) then Failed
        else
          match TreasuryOf(texts, Cutoff(now, days), env)
          case None => Failed
          case Some(t) => Served(days, t)
  }

  /** The status is one of four; 200 exactly when a GET's downloads succeed and some row
      is kept, and then the range is within bounds and the series is not empty. */
  lemma {:induction false} HandlerOutcome(httpMethod: string, range: Option<string>, now: int, env: Env,
                       treasuryFiles: int -> Option<seq<string>>, fredOk: int -> bool)
    ensures StatusOf(Handler(httpMethod, range, now, env, treasuryFiles, fredOk)) in {200, 204, 405, 502}
    ensures StatusOf(Handler(httpMethod, range, now, env, treasuryFiles, fredOk)) == 200 <==>
      && httpMethod == "GET"
      && treasuryFiles(RangeDays(range)).Some?
      && fredOk(RangeDays(range))
      && TreasuryOf(treasuryFiles(RangeDays(range)).value, Cutoff(now, RangeDays(range)), env).Some?
    ensures Handler(httpMethod, range, now, env, treasuryFiles, fredOk).Served? ==>
      && 1 <= Handler(httpMethod, range, now, env, treasuryFiles, fredOk).rangeDays <= MaxRangeDays
      && Handler(httpMethod, range, now, env, treasuryFiles, fredOk).treasury.series != []
  {
    var h := Handler(httpMethod, range, now, env, treasuryFiles, fredOk);
    var days := RangeDays(range);
    if httpMethod == "OPTIONS" {
      assert h == Preflight;
    } else if httpMethod != "GET" {
      assert h == MethodNotAllowed;
    } else if treasuryFiles(days).None? || !fredOk(days) {
      assert h == Failed;
    } else {
      var texts := treasuryFiles(days).value;
      var cutoff := Cutoff(now, days);
      match TreasuryOf(texts, cutoff, env)
      case Some(t) =>
        assert h == Served(days, t);
        TreasuryNotEmpty(texts, cutoff, env);
      case None =>
        assert h == Failed;
    }
  }

  /** A successful parse has a non-empty series. */
  lemma {:induction false} TreasuryNotEmpty(texts: seq<string>, cutoff: int, env: Env)
    requires TreasuryOf(texts, cutoff, env).Some?
    ensures TreasuryOf(texts, cutoff, env).value.series != []
  {
    TreasuryFails(texts, cutoff, env);
    SeriesNotEmpty(Updates(texts, cutoff, env));
  }

  /** A kept row makes a non-empty series. */
  lemma {:induction false} SeriesNotEmpty(us: seq<Update>)
    requires us != []
    ensures SeriesOf(us) != []
  {
    SeriesMeaning(us);
    MergeDomain(us);
    var d := DatesOf(us)[0];
    assert Entry(d, Merge(us)[d]) in SeriesOf(us);
  }
}
