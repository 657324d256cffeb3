/** The storm-report handler: one day's Storm Prediction Center report file, read section
    by section into tornado, wind and hail reports, the reports without coordinates set
    aside for the map, and the previous day tried when today's file is not yet out. */
module StormReports {
  import opened Wrappers
  import opened Text
  import opened Seqs
  import opened Calendar
  import opened Http
  import opened CsvLine
  import opened SpcFormat

  /** The decimal digits of `s`, in order: `String(value).replace(/\D/g, "")`. */
  function DigitsOf(s: string): (ds: string)
    ensures AllDigits(ds) && |ds| <= |s|
    ensures ds == [] <==> forall k :: 0 <= k < |s| ==> !IsDigit(s[k])
  {
    if s == [] then []
    else
      var rest := DigitsOf(s[1..]);
      assert forall k :: 1 <= k < |s| ==> s[1..][k - 1] == s[k];
      (if IsDigit(s[0]) then [s[0]] else []) + rest
  }

  /** `parseTimeToDisplay(value)`: the digits left-padded with zeros to four, shown as
      `HH:MM` from the first four; absent when there is no digit. */
  function TimeToDisplay(value: string): (r: Option<string>)
    ensures r.None? <==> DigitsOf(value) == []
    ensures r.Some? ==> |r.value| == 5 && r.value[2] == ':' && AllDigits(r.value[..2]) && AllDigits(r.value[3..])
    ensures r.Some? && |DigitsOf(value)| >= 4 ==> r.value[..2] + r.value[3..] == DigitsOf(value)[..4]
  {
    if value == [] then None
    else
      var digits := DigitsOf(value);
      if digits == [] then None
      else
        var padded := PadStart(digits, 4, '0');
        PaddedDigits(digits, 4);
        ClockHalves(padded[..4]);
        Some(padded[..2] + ":" + padded[2..4])
  }

  /** Digit strings concatenate into a digit string. */
  lemma {:induction false} AllDigitsConcat(a: string, b: string)
    requires AllDigits(a) && AllDigits(b)
    ensures AllDigits(a + b)
  {
    forall k | 0 <= k < |a + b|
      ensures IsDigit((a + b)[k])
    {
      if k >= |a| {
        assert (a + b)[k] == b[k - |a|];
      }
    }
  }

  /** The value of two digit strings written one after the other: the first is shifted
      left by the length of the second. */
  lemma {:induction false} DigitsValueConcat(a: string, b: string)
    requires AllDigits(a) && AllDigits(b)
    ensures AllDigits(a + b)
    ensures DigitsValue(a + b) == DigitsValue(a) * Pow10(|b|) + DigitsValue(b)
  {
    AllDigitsConcat(a, b);
    if b != [] {
      var c := b[..|b| - 1];
      var d := b[|b| - 1] as int - '0' as int;
      assert (a + b)[..|a + b| - 1] == a + c;
      assert (a + b)[|a + b| - 1] == b[|b| - 1];
      DigitsValueConcat(a, c);
      assert DigitsValue(a + b) == DigitsValue(a + c) * 10 + d;
      assert DigitsValue(b) == DigitsValue(c) * 10 + d;
      assert Pow10(|b|) == 10 * Pow10(|c|);
      ShiftDigit(DigitsValue(a), Pow10(|c|), DigitsValue(c), d);
    } else {
      assert a + b == a;
    }
  }

  /** Appending a digit to a shifted number. */
  lemma ShiftDigit(x: int, p: int, y: int, d: int)
    ensures (x * p + y) * 10 + d == x * (10 * p) + (y * 10 + d)
  {
  }

  lemma {:induction false} ZerosValue(n: nat)
    ensures AllDigits(Repeat('0', n)) && DigitsValue(Repeat('0', n)) == 0
  {
    if n > 0 {
      assert Repeat('0', n)[..n - 1] == Repeat('0', n - 1);
      ZerosValue(n - 1);
    }
  }

  /** Padding digits with zeros gives digits. */
  lemma {:induction false} PaddedDigits(digits: string, width: nat)
    requires AllDigits(digits)
    ensures AllDigits(PadStart(digits, width, '0'))
  {
    if |digits| < width {
      var zeros := Repeat('0', width - |digits|);
      assert PadStart(digits, width, '0') == zeros + digits;
      AllDigitsConcat(zeros, digits);
    }
  }

  /** The two halves of `HH:MM` come from the two halves of the padded digits. */
  lemma {:induction false} ClockHalves(p: string)
    requires |p| == 4
    ensures var shown := p[..2] + ":" + p[2..4];
      shown[..2] == p[..2] && shown[3..] == p[2..]
  {
    var shown := p[..2] + ":" + p[2..4];
    assert shown == [p[0], p[1], ':', p[2], p[3]];
    assert p[..2] == [p[0], p[1]];
    assert p[2..] == [p[2], p[3]];
  }

  /** Padding digits with leading zeros keeps their value. */
  lemma {:induction false} PaddedValue(digits: string)
    requires AllDigits(digits) && |digits| <= 4
    ensures AllDigits(PadStart(digits, 4, '0'))
    ensures DigitsValue(PadStart(digits, 4, '0')) == DigitsValue(digits)
  {
    var padded := PadStart(digits, 4, '0');
    if |digits| < 4 {
      var zeros := Repeat('0', 4 - |digits|);
      assert padded == zeros + digits;
      ZerosValue(4 - |digits|);
      DigitsValueConcat(zeros, digits);
    }
  }

  /** Four digits read as hundreds and the last two. */
  lemma {:induction false} FourDigitsValue(p: string)
    requires AllDigits(p) && |p| == 4
    ensures DigitsValue(p[..2]) * 100 + DigitsValue(p[2..]) == DigitsValue(p)
  {
    assert p[..2] + p[2..] == p;
    DigitsValueConcat(p[..2], p[2..]);
    assert Pow10(2) == 100;
  }

  /** For at most four digits, the hours and minutes shown read back as the time written:
      `hours * 100 + minutes` is the value of the digits. */
  lemma {:induction false} TimeReadsBack(value: string)
    requires 1 <= |DigitsOf(value)| <= 4
    ensures var shown := TimeToDisplay(value).value;
      DigitsValue(shown[..2]) * 100 + DigitsValue(shown[3..]) == DigitsValue(DigitsOf(value))
  {
    var padded := PadStart(DigitsOf(value), 4, '0');
    PaddedValue(DigitsOf(value));
    FourDigitsValue(padded);
    var shown := TimeToDisplay(value).value;
    assert shown == padded[..2] + ":" + padded[2..4];
    ClockHalves(padded);
  }

  datatype Kind = Tornado | Wind | Hail

  /** The kind's part of a report id. */
  function Tag(kind: Kind): string {
    match kind
    case Tornado => "tor"
    case Wind => "wind"
    case Hail => "hail"
  }

  /** `toStormReportsId(date, index, type)`. */
  function ReportId(isoDate: string, kind: Kind, index: nat): string {
    isoDate + "-" + Tag(kind) + "-" + NatToString(index)
  }

  /** One report. `scale` is the raw F-scale field of a tornado (absent for the other
      kinds); `magnitude` is the F-scale rating, the wind speed in mph or the hail size in
      inches. */
  datatype Report = Report(id: string, kind: Kind, time: Option<string>, rawTime: Option<string>,
                           scale: Option<string>, magnitude: Option<real>,
                           location: Option<string>, county: Option<string>, state: Option<string>,
                           latitude: Option<real>, longitude: Option<real>, comments: Option<string>)

  datatype Reports = Reports(tornado: seq<Report>, wind: seq<Report>, hail: seq<Report>)

  function Of(reports: Reports, kind: Kind): seq<Report> {
    match kind
    case Tornado => reports.tornado
    case Wind => reports.wind
    case Hail => reports.hail
  }

  function With(reports: Reports, kind: Kind, list: seq<Report>): (r: Reports)
    ensures Of(r, kind) == list
    ensures forall other :: other != kind ==> Of(r, other) == Of(reports, other)
  {
    match kind
    case Tornado => reports.(tornado := list)
    case Wind => reports.(wind := list)
    case Hail => reports.(hail := list)
  }

  /** The numeric readers, left abstract: `Number.parseFloat` giving a finite number, and
      `extractNumeric`'s first decimal number in a field. */
  datatype Readers = Readers(parseFloat: string -> Option<real>, extractNumber: string -> Option<real>)

  /** `safeParseFloat(value)`: absent for an empty field. */
  function SafeParseFloat(readers: Readers, value: string): Option<real> {
    if value == [] then None else readers.parseFloat(value)
  }

  /** `extractNumeric(value)`: absent for an empty field. */
  function ExtractNumeric(readers: Readers, value: string): Option<real> {
    if value == [] then None else readers.extractNumber(value)
  }

  /** `value || null` for a text field. */
  function OrNull(value: string): (r: Option<string>)
    ensures r.None? <==> value == []
  {
    if value == [] then None else Some(value)
  }

  /** The columns after the seventh joined with ", " and trimmed; absent when there are
      none or the joined text is blank. */
  function Comments(parts: seq<string>): (r: Option<string>)
    ensures parts == [] ==> r.None?
    ensures r.Some? ==> r.value == Trim(Join(parts, ", ")) && r.value != []
  {
    if parts == [] then None
    else
      var joined := Trim(Join(parts, ", "));
      if joined == [] then None else Some(joined)
  }

  /** The report a row of at least seven columns makes: the `index`-th of its kind. */
  function MakeReport(readers: Readers, kind: Kind, columns: seq<string>, isoDate: string, index: nat): (r: Report)
    requires |columns| >= 7
    ensures r.id == ReportId(isoDate, kind, index) && r.kind == kind
    ensures r.latitude == SafeParseFloat(readers, columns[5]) && r.longitude == SafeParseFloat(readers, columns[6])
    ensures r.comments == Comments(columns[7..])
  {
    var magnitude := match kind
      case Tornado => ExtractNumeric(readers, columns[1])
      case Wind => ExtractNumeric(readers, columns[1])
      case Hail =>
        match ExtractNumeric(readers, columns[1])
        case Some(size) => Some(size / 100.0)
        case None => None;
    Report(ReportId(isoDate, kind, index), kind, TimeToDisplay(columns[0]), OrNull(columns[0]),
           if kind == Tornado then OrNull(columns[1]) else None, magnitude,
           OrNull(columns[2]), OrNull(columns[3]), OrNull(columns[4]),
           SafeParseFloat(readers, columns[5]), SafeParseFloat(readers, columns[6]), Comments(columns[7..]))
  }

  /** The section a header line opens; the tornado pattern is tried first, then wind,
      then hail. */
  function HeaderKind(line: string): Option<Kind> {
    if IsTornadoHeader(line) then Some(Tornado)
    else if IsWindHeader(line) then Some(Wind)
    else if IsHailHeader(line) then Some(Hail)
    else None
  }

  /** `splitCsvLine(line)` as a function. */
  function Columns(line: string): seq<string> {
    TrimAll(RawFields(line, false))
  }

  /** Where the scan stands: the section being read, if any, and the reports so far. */
  datatype Scan = Scan(section: Option<Kind>, reports: Reports)

  const Start := Scan(None, Reports([], [], []))

  /** One line of the scan: a blank line is skipped, a header switches the section, a
      line before any header is skipped, a row of fewer than seven columns is skipped, and
      any other row adds the next report of the current section. */
  function Step(readers: Readers, isoDate: string, scan: Scan, rawLine: string): (next: Scan)
    ensures Trim(rawLine) == [] ==> next == scan
    ensures Trim(rawLine) != [] && HeaderKind(Trim(rawLine)).Some? ==>
      next == scan.(section := HeaderKind(Trim(rawLine)))
    ensures HeaderKind(Trim(rawLine)).None? ==> next.section == scan.section
    ensures next.reports != scan.reports ==>
      scan.section.Some? && |Columns(Trim(rawLine))| >= 7 && next == AddRow(readers, isoDate, scan, Columns(Trim(rawLine)))
  {
    var line := Trim(rawLine);
    if line == [] then scan
    else match HeaderKind(line)
      case Some(kind) => scan.(section := Some(kind))
      case None =>
        if scan.section.None? then scan
        else
          var columns := Columns(line);
          if |columns| < 7 then scan
          else AddRow(readers, isoDate, scan, columns)
  }

  /** A row added to the current section as its next report. */
  function AddRow(readers: Readers, isoDate: string, scan: Scan, columns: seq<string>): (next: Scan)
    requires scan.section.Some? && |columns| >= 7
    ensures next.section == scan.section
    ensures var kind := scan.section.value;
      && Of(next.reports, kind) == Of(scan.reports, kind) + [MakeReport(readers, kind, columns, isoDate, |Of(scan.reports, kind)|)]
      && forall other :: other != kind ==> Of(next.reports, other) == Of(scan.reports, other)
  {
    var kind := scan.section.value;
    var list := Of(scan.reports, kind);
    scan.(reports := With(scan.reports, kind, list + [MakeReport(readers, kind, columns, isoDate, |list|)]))
  }

  /** The scan over `lines` from `scan`. */
  function ScanFrom(readers: Readers, isoDate: string, scan: Scan, lines: seq<string>): Scan {
    if lines == [] then scan
    else Step(readers, isoDate, ScanFrom(readers, isoDate, scan, lines[..|lines| - 1]), lines[|lines| - 1])
  }

  /** `parseStormReports(csvText, isoDate)`. */
  method ParseStormReports(readers: Readers, text: string, isoDate: string) returns (reports: Reports)
    ensures reports == ScanFrom(readers, isoDate, Start, SplitLines(text)).reports
  {
    var lines := SplitLines(text);
    var section: Option<Kind> := None;
    reports := Reports([], [], []);
    var i := 0;
    while i < |lines|
      invariant 0 <= i <= |lines|
      invariant Scan(section, reports) == ScanFrom(readers, isoDate, Start, lines[..i])
      decreases |lines| - i
    {
      assert lines[..i + 1][..i] == lines[..i];
      section, reports := ScanLine(readers, isoDate, section, reports, lines[i]);
      i := i + 1;
    }
    assert lines[..i] == lines;
  }

  /** The body of the loop over the lines. */
  method ScanLine(readers: Readers, isoDate: string, section: Option<Kind>, reports: Reports, rawLine: string)
    returns (section': Option<Kind>, reports': Reports)
    ensures Scan(section', reports') == Step(readers, isoDate, Scan(section, reports), rawLine)
  {
    section', reports' := section, reports;
    var line := Trim(rawLine);
    if line == [] {
      return;
    }
    var header := HeaderKind(line);
    if header.Some? {
      section' := header;
      return;
    }
    if section.None? {
      return;
    }
    var columns := SplitCsvLine(line);
    if |columns| < 7 {
      return;
    }
    reports' := AddRow(readers, isoDate, Scan(section, reports), columns).reports;
    RowAdded(readers, isoDate, Scan(section, reports), rawLine);
  }

  /** A row of at least seven columns inside a section is added to it. */
  lemma {:induction false} RowAdded(readers: Readers, isoDate: string, scan: Scan, rawLine: string)
    requires Trim(rawLine) != [] && HeaderKind(Trim(rawLine)).None?
    requires scan.section.Some? && |Columns(Trim(rawLine))| >= 7
    ensures Step(readers, isoDate, scan, rawLine) == AddRow(readers, isoDate, scan, Columns(Trim(rawLine)))
  {
  }

  /** Scanning `a` then `b` is scanning `a + b`. */
  lemma {:induction false} ScanAppend(readers: Readers, isoDate: string, scan: Scan, a: seq<string>, b: seq<string>)
    ensures ScanFrom(readers, isoDate, scan, a + b) == ScanFrom(readers, isoDate, ScanFrom(readers, isoDate, scan, a), b)
  {
    if b == [] {
      assert a + b == a;
    } else {
      var front := b[..|b| - 1];
      assert (a + b)[..|a + b| - 1] == a + front;
      ScanAppend(readers, isoDate, scan, a, front);
    }
  }

  /** A line that is no section header once trimmed. */
  predicate NotHeader(line: string) {
    HeaderKind(Trim(line)).None?
  }

  /** Lines before the first section header add nothing: with no header among them the
      scan is still at its start. */
  lemma {:induction false} NoHeaderNoReports(readers: Readers, isoDate: string, lines: seq<string>)
    requires forall k :: 0 <= k < |lines| ==> NotHeader(lines[k])
    ensures ScanFrom(readers, isoDate, Start, lines) == Start
  {
    NoHeaderPrefix(readers, isoDate, lines, |lines|);
    assert lines[..|lines|] == lines;
  }

  /** The same for every prefix of `lines`. */
  lemma {:induction false} NoHeaderPrefix(readers: Readers, isoDate: string, lines: seq<string>, n: nat)
    requires n <= |lines|
    requires forall k :: 0 <= k < |lines| ==> NotHeader(lines[k])
    ensures ScanFrom(readers, isoDate, Start, lines[..n]) == Start
  {
    if n > 0 {
      NoHeaderPrefix(readers, isoDate, lines, n - 1);
      assert lines[..n][..n - 1] == lines[..n - 1];
      OutsideSectionSkipped(readers, isoDate, Start, lines[n - 1]);
    }
  }

  /** Outside any section a line that is no header leaves the scan as it is. */
  lemma {:induction false} OutsideSectionSkipped(readers: Readers, isoDate: string, scan: Scan, line: string)
    requires scan.section.None? && NotHeader(line)
    ensures Step(readers, isoDate, scan, line) == scan
  {
  }

  /** So a preamble without headers can be dropped. */
  lemma {:induction false} PreambleIgnored(readers: Readers, isoDate: string, preamble: seq<string>, lines: seq<string>)
    requires forall k :: 0 <= k < |preamble| ==> NotHeader(preamble[k])
    ensures ScanFrom(readers, isoDate, Start, preamble + lines) == ScanFrom(readers, isoDate, Start, lines)
  {
    ScanAppend(readers, isoDate, Start, preamble, lines);
    NoHeaderNoReports(readers, isoDate, preamble);
  }

  /** Within each section the reports are numbered 0, 1, 2, ... in input order, and each
      list holds only reports of its kind. */
  predicate Numbered(reports: Reports, isoDate: string) {
    forall kind, k :: 0 <= k < |Of(reports, kind)| ==>
      Of(reports, kind)[k].id == ReportId(isoDate, kind, k) && Of(reports, kind)[k].kind == kind
  }

  lemma {:induction false} ScanNumbered(readers: Readers, isoDate: string, lines: seq<string>)
    ensures Numbered(ScanFrom(readers, isoDate, Start, lines).reports, isoDate)
  {
    if lines != [] {
      ScanNumbered(readers, isoDate, lines[..|lines| - 1]);
      StepNumbered(readers, isoDate, ScanFrom(readers, isoDate, Start, lines[..|lines| - 1]), lines[|lines| - 1]);
    }
  }

  lemma {:induction false} StepNumbered(readers: Readers, isoDate: string, scan: Scan, line: string)
    requires Numbered(scan.reports, isoDate)
    ensures Numbered(Step(readers, isoDate, scan, line).reports, isoDate)
  {
    var next := Step(readers, isoDate, scan, line);
    if next.reports != scan.reports {
      var kind := scan.section.value;
      var list := Of(scan.reports, kind);
      forall other, k | 0 <= k < |Of(next.reports, other)|
        ensures Of(next.reports, other)[k].id == ReportId(isoDate, other, k) && Of(next.reports, other)[k].kind == other
      {
        if other == kind && k == |list| {
          assert Of(next.reports, other)[k] == MakeReport(readers, kind, Columns(Trim(line)), isoDate, |list|);
        } else {
          assert Of(next.reports, other)[k] == Of(scan.reports, other)[k];
        }
      }
    }
  }

  /** A scanned line only ever adds at the end of one list: each list of the earlier
      scan is a prefix of the later one, and at most one report is added. */
  lemma {:induction false} StepGrows(readers: Readers, isoDate: string, scan: Scan, line: string)
    ensures var next := Step(readers, isoDate, scan, line);
      && (forall kind :: Of(scan.reports, kind) <= Of(next.reports, kind))
      && Size(next.reports) <= Size(scan.reports) + 1
      && (Size(next.reports) == Size(scan.reports) + 1 ==>
            scan.section.Some? && |Of(next.reports, scan.section.value)| == |Of(scan.reports, scan.section.value)| + 1)
  {
  }

  /** `buildSummary(reports)`: the number of reports of each kind. */
  datatype Summary = Summary(tornadoes: nat, wind: nat, hail: nat)

  function BuildSummary(reports: Reports): Summary {
    Summary(|reports.tornado|, |reports.wind|, |reports.hail|)
  }

  function Size(reports: Reports): nat {
    |reports.tornado| + |reports.wind| + |reports.hail|
  }

  /** A scan adds at most one report per line. */
  lemma {:induction false} ScanSize(readers: Readers, isoDate: string, lines: seq<string>)
    ensures Size(ScanFrom(readers, isoDate, Start, lines).reports) <= |lines|
  {
    if lines != [] {
      var front := lines[..|lines| - 1];
      ScanSize(readers, isoDate, front);
      StepGrows(readers, isoDate, ScanFrom(readers, isoDate, Start, front), lines[|lines| - 1]);
    }
  }

  /** A report the map can show. */
  predicate HasCoordinates(r: Report) {
    r.latitude.Some? && r.longitude.Some?
  }

  /** `sanitizeReports(reports)`. */
  function Sanitize(reports: Reports): Reports {
    Reports(Filter(reports.tornado, HasCoordinates), Filter(reports.wind, HasCoordinates), Filter(reports.hail, HasCoordinates))
  }

  /** Sanitizing keeps exactly the reports with both coordinates, so the mapped counts
      never exceed the totals. */
  lemma {:induction false} SanitizeKeeps(reports: Reports)
    ensures forall kind, r :: r in Of(Sanitize(reports), kind) <==> r in Of(reports, kind) && HasCoordinates(r)
    ensures var mapped := BuildSummary(Sanitize(reports)); var totals := BuildSummary(reports);
      mapped.tornadoes <= totals.tornadoes && mapped.wind <= totals.wind && mapped.hail <= totals.hail
  {
    forall kind, r
      ensures r in Of(Sanitize(reports), kind) <==> r in Of(reports, kind) && HasCoordinates(r)
    {
      SanitizeOf(reports, kind);
      FilterExactly(Of(reports, kind), HasCoordinates, r);
    }
  }

  /** Each kind's sanitized list is that kind's list filtered. */
  lemma {:induction false} SanitizeOf(reports: Reports, kind: Kind)
    ensures Of(Sanitize(reports), kind) == Filter(Of(reports, kind), HasCoordinates)
  {
  }

  /** Sanitizing again changes nothing. */
  lemma {:induction false} SanitizeIdempotent(reports: Reports)
    ensures Sanitize(Sanitize(reports)) == Sanitize(reports)
  {
    FilterTwice(reports.tornado, HasCoordinates);
    FilterTwice(reports.wind, HasCoordinates);
    FilterTwice(reports.hail, HasCoordinates);
  }

  /** A report file found: its text and its name. */
  datatype Found = Found(text: string, name: string)

  /** The date whose file was found, with the file. */
  datatype Hit = Hit(date: Date, found: Found)

  /** A reply that sends the search on to the next name: a successful blank reply or a 404. */
  predicate PassedOver(reply: Option<Reply>) {
    reply.Some? && (if IsOk(reply.value) then Trim(reply.value.body) == [] else reply.value.status == 404)
  }

  /** What a reply that is not passed over decides for `name`: a failed request is an
      error without a status, a successful reply is the file, any other status an error
      carrying it. */
  function Verdict(name: string, reply: Option<Reply>): (r: Result<Option<Found>, Failure>)
    requires !PassedOver(reply)
    ensures r.Ok? <==> reply.Some? && IsOk(reply.value)
    ensures r.Ok? ==> r.value == Some(Found(reply.value.body, name)) && Trim(reply.value.body) != []
    ensures r.Err? ==> r.error.status == (if reply.None? then None else Some(reply.value.status))
    ensures r.Err? ==> r.error.status != Some(404)
  {
    match reply
    case None => Err(Failure(None))
    case Some(reply) => if IsOk(reply) then Ok(Some(Found(reply.body, name))) else Err(Failure(Some(reply.status)))
  }

  /** `fetchReportCsvForDate` over the candidate names, with the network abstracted as
      `respond` (`None` when the request itself fails): a successful reply with some
      non-blank text is used, a successful blank reply or a 404 moves on to the next name,
      any other status is an error carrying it; absent when every name is passed over. */
  function FetchReport(names: seq<string>, respond: string -> Option<Reply>): (r: Result<Option<Found>, Failure>)
    ensures r.Ok? && r.value.Some? ==> r.value.value.name in names && Trim(r.value.value.text) != []
    ensures r.Err? ==> r.error.status != Some(404)
  {
    if names == [] then Ok(None)
    else match respond(names[0])
      case None => Err(Failure(None))
      case Some(reply) =>
        if IsOk(reply) then
          if Trim(reply.body) != [] then Ok(Some(Found(reply.body, names[0])))
          else FetchReport(names[1..], respond)
        else if reply.status != 404 then Err(Failure(Some(reply.status)))
        else FetchReport(names[1..], respond)
  }

  /** The names are tried in order: the first name not passed over decides the outcome. */
  lemma {:induction false} FetchReportDecidedAt(names: seq<string>, k: nat, respond: string -> Option<Reply>)
    requires k < |names| && !PassedOver(respond(names[k]))
    requires forall j :: 0 <= j < k ==> PassedOver(respond(names[j]))
    ensures FetchReport(names, respond) == Verdict(names[k], respond(names[k]))
  {
    if k > 0 {
      assert PassedOver(respond(names[0]));
      assert names[1..][k - 1] == names[k];
      assert forall j :: 0 <= j < k - 1 ==> names[1..][j] == names[j + 1];
      FetchReportDecidedAt(names[1..], k - 1, respond);
    }
  }

  /** With every name passed over there is no file. */
  lemma {:induction false} FetchReportAllPassed(names: seq<string>, respond: string -> Option<Reply>)
    requires forall k :: 0 <= k < |names| ==> PassedOver(respond(names[k]))
    ensures FetchReport(names, respond) == Ok(None)
  {
    if names != [] {
      assert PassedOver(respond(names[0]));
      assert forall k :: 0 <= k < |names| - 1 ==> names[1..][k] == names[k + 1];
      FetchReportAllPassed(names[1..], respond);
    }
  }

  /** The dates tried: the target, then the day before when the target is today. */
  function Tries(target: Date, today: Date): (tries: seq<Date>)
    requires Valid(target)
    ensures |tries| == if target == today then 2 else 1
    ensures tries[0] == target
    ensures target == today ==> tries[1] == AddDays(target, -1)
    ensures forall k :: 0 <= k < |tries| ==> Valid(tries[k])
  {
    if target == today then [target, AddDays(target, -1)] else [target]
  }

  /** `fetchReportCsvForDate(date)`: the search over the day's candidate names, the
      filtered file first. */
  function Lookup(respond: string -> Option<Reply>): Date -> Result<Option<Found>, Failure> {
    d => FetchReport(ReportCandidates(d), respond)
  }

  /** A lookup's outcome, a file found tagged with its date. */
  function Tagged(d: Date, r: Result<Option<Found>, Failure>): (t: Result<Option<Hit>, Failure>)
    ensures t.Err? <==> r.Err?
    ensures t.Err? ==> t.error == r.error
    ensures t == Ok(None) <==> r == Ok(None)
    ensures t.Ok? && t.value.Some? ==> t.value.value == Hit(d, r.value.value)
  {
    match r
    case Err(f) => Err(f)
    case Ok(None) => Ok(None)
    case Ok(Some(found)) => Ok(Some(Hit(d, found)))
  }

  /** The first of the dates whose file is found, with the file; a failure ends the search. */
  function FirstFound(tries: seq<Date>, look: Date -> Result<Option<Found>, Failure>): (r: Result<Option<Hit>, Failure>)
    requires forall k :: 0 <= k < |tries| ==> Valid(tries[k])
    ensures r.Ok? && r.value.Some? ==> r.value.value.date in tries && Valid(r.value.value.date)
  {
    if tries == [] then Ok(None)
    else if look(tries[0]) == Ok(None) then FirstFound(tries[1..], look)
    else Tagged(tries[0], look(tries[0]))
  }

  /** The dates are tried in order: the first date whose lookup finds a file or fails
      decides the outcome. */
  lemma {:induction false} FirstFoundDecidedAt(tries: seq<Date>, k: nat, look: Date -> Result<Option<Found>, Failure>)
    requires forall j :: 0 <= j < |tries| ==> Valid(tries[j])
    requires k < |tries| && look(tries[k]) != Ok(None)
    requires forall j :: 0 <= j < k ==> look(tries[j]) == Ok(None)
    ensures FirstFound(tries, look) == Tagged(tries[k], look(tries[k]))
  {
    if k > 0 {
      var rest := tries[1..];
      assert look(tries[0]) == Ok(None);
      assert rest[k - 1] == tries[k];
      assert forall j :: 0 <= j < k - 1 ==> rest[j] == tries[j + 1];
      FirstFoundDecidedAt(rest, k - 1, look);
    }
  }

  /** When no date has a file, none is found. */
  lemma {:induction false} FirstFoundNone(tries: seq<Date>, look: Date -> Result<Option<Found>, Failure>)
    requires forall j :: 0 <= j < |tries| ==> Valid(tries[j])
    requires forall k :: 0 <= k < |tries| ==> look(tries[k]) == Ok(None)
    ensures FirstFound(tries, look) == Ok(None)
  {
    if tries != [] {
      assert look(tries[0]) == Ok(None);
      assert forall k :: 0 <= k < |tries| - 1 ==> tries[1..][k] == tries[k + 1];
      FirstFoundNone(tries[1..], look);
    }
  }

  /** The date a request names: its `date` parameter when there is a non-empty one (a
      parameter that is not a date is refused with 400), else today. */
  function TargetDate(dateParam: Option<string>, parseDate: string -> Option<Date>, today: Date): (r: Result<Date, Failure>)
    requires Valid(today)
    requires forall text :: parseDate(text).Some? ==> Valid(parseDate(text).value)
    ensures r.Err? ==> r.error == Failure(Some(400))
    ensures r.Ok? ==> Valid(r.value)
    ensures dateParam.None? || dateParam.value == [] ==> r == Ok(today)
    ensures dateParam.Some? && dateParam.value != [] ==>
      (r.Ok? <==> parseDate(dateParam.value).Some?) && (r.Ok? ==> r.value == parseDate(dateParam.value).value)
  {
    match dateParam
    case Some(text) =>
      if text == [] then Ok(today)
      else
        (match parseDate(text)
         case Some(d) => Ok(d)
         case None => Err(Failure(Some(400))))
    case None => Ok(today)
  }

  datatype Response =
    | Failed(status: int)
    | NotFound(requestedDate: string)
    | Served(date: string, summary: Summary, mappedCounts: Summary, reports: Reports, source: string, requestedDate: string)

  /** The answer serving `parsed`: the reports with coordinates, with the counts of all
      reports and of those served. */
  function ServeReports(isoDate: string, parsed: Reports, source: string, requestedDate: string): Response {
    Served(isoDate, BuildSummary(parsed), BuildSummary(Sanitize(parsed)), Sanitize(parsed), source, requestedDate)
  }

  /** A served answer holds exactly the reports with coordinates; the totals count all
      reports read and the mapped counts those served, which never exceed the totals. */
  lemma ServedMeaning(isoDate: string, parsed: Reports, source: string, requestedDate: string)
    ensures var response := ServeReports(isoDate, parsed, source, requestedDate);
      && response.Served? && response.date == isoDate && response.source == source && response.requestedDate == requestedDate
      && response.summary == BuildSummary(parsed)
      && (forall kind, r :: r in Of(response.reports, kind) <==> r in Of(parsed, kind) && HasCoordinates(r))
      && response.mappedCounts == BuildSummary(response.reports)
      && response.mappedCounts.tornadoes <= response.summary.tornadoes
      && response.mappedCounts.wind <= response.summary.wind
      && response.mappedCounts.hail <= response.summary.hail
  {
    SanitizeKeeps(parsed);
  }

  /** The answer for a file found: its reports read under the date it was filed for. */
  function ServedFile(readers: Readers, hit: Hit, target: Date): Response
    requires Valid(hit.date) && Valid(target)
  {
    var isoDate := FormatIsoDate(hit.date);
    ServeReports(isoDate, ScanFrom(readers, isoDate, Start, SplitLines(hit.found.text)).reports, hit.found.name, FormatIsoDate(target))
  }

  /** The answer for the outcome of the search for a file. */
  function Outcome(readers: Readers, found: Result<Option<Hit>, Failure>, target: Date): (response: Response)
    requires Valid(target)
    requires found.Ok? && found.value.Some? ==> Valid(found.value.value.date)
    ensures found.Err? ==> response == Failed(ErrorStatus(found.error))
    ensures found == Ok(None) ==> response == NotFound(FormatIsoDate(target))
    ensures found.Ok? && found.value.Some? ==> response == ServedFile(readers, found.value.value, target)
  {
    match found
    case Err(f) => Failed(ErrorStatus(f))
    case Ok(None) => NotFound(FormatIsoDate(target))
    case Ok(Some(hit)) => ServedFile(readers, hit, target)
  }

  /** The handler's answer, from its query parameters on: `parseDate` stands for
      `new Date(text)` truncated to the UTC date, `today` for the UTC date of the request. */
  function Answer(readers: Readers, dateParam: Option<string>, parseDate: string -> Option<Date>, today: Date,
                  respond: string -> Option<Reply>): Response
    requires Valid(today)
    requires forall text :: parseDate(text).Some? ==> Valid(parseDate(text).value)
  {
    match TargetDate(dateParam, parseDate, today)
    case Err(f) => Failed(ErrorStatus(f))
    case Ok(target) => Outcome(readers, FirstFound(Tries(target, today), Lookup(respond)), target)
  }

  /** A refused date parameter is answered 400. */
  lemma AnswerRefused(readers: Readers, dateParam: Option<string>, parseDate: string -> Option<Date>, today: Date,
                      respond: string -> Option<Reply>)
    requires Valid(today)
    requires forall text :: parseDate(text).Some? ==> Valid(parseDate(text).value)
    requires TargetDate(dateParam, parseDate, today).Err?
    ensures Answer(readers, dateParam, parseDate, today, respond) == Failed(400)
  {
  }

  /** The order of preference among the dates tried: when the target's lookup finds a
      file or fails, that decides; only when no file of the target is there, and the
      target is today, does the day before decide, and otherwise nothing is found. */
  lemma TriesPreferTarget(target: Date, today: Date, look: Date -> Result<Option<Found>, Failure>)
    requires Valid(target)
    ensures look(target) != Ok(None) ==> FirstFound(Tries(target, today), look) == Tagged(target, look(target))
    ensures look(target) == Ok(None) && target == today ==>
      var before := AddDays(target, -1);
      FirstFound(Tries(target, today), look) == Tagged(before, look(before))
    ensures look(target) == Ok(None) && target != today ==> FirstFound(Tries(target, today), look) == Ok(None)
  {
    var tries := Tries(target, today);
    if look(target) != Ok(None) {
      FirstFoundDecidedAt(tries, 0, look);
    } else if target == today {
      if look(tries[1]) != Ok(None) {
        FirstFoundDecidedAt(tries, 1, look);
      } else {
        FirstFoundNone(tries, look);
      }
    } else {
      FirstFoundNone(tries, look);
    }
  }

  /** So the handler serves the target's file whenever it is there, answers a failed
      lookup of the target with its status, and turns to the day before only when no file
      of the target is there and the target is today. */
  lemma AnswerPrefersTarget(readers: Readers, dateParam: Option<string>, parseDate: string -> Option<Date>,
                            today: Date, respond: string -> Option<Reply>, target: Date)
    requires Valid(today)
    requires forall text :: parseDate(text).Some? ==> Valid(parseDate(text).value)
    requires TargetDate(dateParam, parseDate, today) == Ok(target)
    ensures var look := Lookup(respond);
      look(target) != Ok(None) ==>
        Answer(readers, dateParam, parseDate, today, respond) == Outcome(readers, Tagged(target, look(target)), target)
    ensures var look := Lookup(respond);
      look(target) == Ok(None) && target == today ==>
        var before := AddDays(target, -1);
        Answer(readers, dateParam, parseDate, today, respond) == Outcome(readers, Tagged(before, look(before)), target)
    ensures var look := Lookup(respond);
      look(target) == Ok(None) && target != today ==>
        Answer(readers, dateParam, parseDate, today, respond) == NotFound(FormatIsoDate(target))
  {
    var look := Lookup(respond);
    TriesPreferTarget(target, today, look);
    assert Answer(readers, dateParam, parseDate, today, respond) == Outcome(readers, FirstFound(Tries(target, today), look), target);
  }

  /** The handler, from its query parameters on: a failed fetch is answered with its status
      (500 when it carries none). */
  method Respond(readers: Readers, dateParam: Option<string>, parseDate: string -> Option<Date>, today: Date,
                 respond: string -> Option<Reply>)
    returns (response: Response)
    requires Valid(today)
    requires forall text :: parseDate(text).Some? ==> Valid(parseDate(text).value)
    ensures response == Answer(readers, dateParam, parseDate, today, respond)
  {
    var resolved := TargetDate(dateParam, parseDate, today);
    if resolved.Err? {
      return Failed(ErrorStatus(resolved.error));
    }
    var target := resolved.value;
    var found := FindReport(Tries(target, today), Lookup(respond));
    if found.Err? {
      return Failed(ErrorStatus(found.error));
    }
    if found.value.None? {
      return NotFound(FormatIsoDate(target));
    }
    response := Serve(readers, found.value.value, target);
  }

  /** The answer for a file found, reading the file with the line loop. */
  method Serve(readers: Readers, hit: Hit, target: Date) returns (response: Response)
    requires Valid(hit.date) && Valid(target)
    ensures response == ServedFile(readers, hit, target)
  {
    var isoDate := FormatIsoDate(hit.date);
    var parsed := ParseStormReports(readers, hit.found.text, isoDate);
    var shown := Sanitize(parsed);
    response := Served(isoDate, BuildSummary(parsed), BuildSummary(shown), shown, hit.found.name, FormatIsoDate(target));
    assert response == ServeReports(isoDate, parsed, hit.found.name, FormatIsoDate(target));
  }

  /** The loop over the dates tried: the first date whose file is found, stopping at the
      first failure. */
  method FindReport(tries: seq<Date>, look: Date -> Result<Option<Found>, Failure>)
    returns (result: Result<Option<Hit>, Failure>)
    requires forall k :: 0 <= k < |tries| ==> Valid(tries[k])
    ensures result == FirstFound(tries, look)
  {
    var i := 0;
    while i < |tries|
      invariant 0 <= i <= |tries|
      invariant FirstFound(tries, look) == FirstFound(tries[i..], look)
      decreases |tries| - i
    {
      var fetched := look(tries[i]);
      if fetched != Ok(None) {
        return Tagged(tries[i], fetched);
      }
      assert tries[i..][1..] == tries[i + 1..];
      i := i + 1;
    }
    assert tries[i..] == [];
    return Ok(None);
  }
}
