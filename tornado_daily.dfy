/** The daily tornado count of the tornado-trend handler: `parseDailyTornadoCount`, a scan
    over the lines of one day's report file, and `fetchDailyTornadoCount`, which tries the
    day's two report files in order. */
module TornadoDaily {
  import opened Wrappers
  import opened Text
  import opened Calendar
  import opened Http
  import opened SpcFormat

  /** How the scan treats one trimmed line. */
  datatype Kind = Blank | TornadoHeader | StopHeader | Data

  /** A wind or hail header closes the tornado section; a line that is not blank and not
      a header is a report line. */
  function Classify(line: string): (k: Kind)
    ensures k == Blank <==> line == []
    ensures k == TornadoHeader <==> line != [] && IsTornadoHeader(line)
    ensures k == StopHeader <==> line != [] && !IsTornadoHeader(line) && (IsWindHeader(line) || IsHailHeader(line))
  {
    if line == [] then Blank
    else if IsTornadoHeader(line) then TornadoHeader
    else if IsWindHeader(line) || IsHailHeader(line) then StopHeader
    else Data
  }

  /** The kinds of the lines of a report file, split on line feeds with an optional
      carriage return and trimmed. */
  function Kinds(text: string): seq<Kind> {
    KindsOf(SplitLines(text))
  }

  function KindsOf(lines: seq<string>): (ks: seq<Kind>)
    ensures |ks| == |lines|
    ensures forall k {:trigger Classify(Trim(lines[k]))} :: 0 <= k < |lines| ==> ks[k] == Classify(Trim(lines[k]))
  {
    seq(|lines|, k requires 0 <= k < |lines| => Classify(Trim(lines[k])))
  }

  /** The first line of kind `kind` at or after `from`, or `|ks|` when there is none. */
  function FirstOf(ks: seq<Kind>, kind: Kind, from: nat): (t: nat)
    ensures t <= |ks| && (from <= |ks| ==> from <= t)
    ensures t < |ks| ==> ks[t] == kind
    ensures forall k :: from <= k < t ==> ks[k] != kind
    decreases |ks| - from
  {
    if from >= |ks| then |ks|
    else if ks[from] == kind then from
    else FirstOf(ks, kind, from + 1)
  }

  function CountData(ks: seq<Kind>): (n: nat)
    ensures n <= |ks|
  {
    if ks == [] then 0
    else CountData(ks[..|ks| - 1]) + (if ks[|ks| - 1] == Data then 1 else 0)
  }

  /** The count the scan must produce, stated on positions: the report lines strictly
      between the first tornado header and the first wind or hail header after it (or the
      end of the file); 0 when there is no tornado header. */
  function ExpectedCount(ks: seq<Kind>): nat {
    var t := FirstOf(ks, TornadoHeader, 0);
    if t == |ks| then 0 else CountData(ks[t + 1..FirstOf(ks, StopHeader, t + 1)])
  }

  /** `parseDailyTornadoCount(csvText)`. */
  method ParseDailyTornadoCount(text: string) returns (count: nat)
    ensures count == ExpectedCount(Kinds(text))
  {
    if text == [] {
      assert Kinds(text) == [Blank];
      return 0;
    }
    var lines := SplitLines(text);
    count := CountSection(lines, KindsOf(lines));
  }

  /** The scan of `parseDailyTornadoCount` over the lines of the file. */
  method CountSection(lines: seq<string>, ghost ks: seq<Kind>) returns (count: nat)
    requires |ks| == |lines|
    requires forall k {:trigger Classify(Trim(lines[k]))} :: 0 <= k < |lines| ==> ks[k] == Classify(Trim(lines[k]))
    ensures count == ExpectedCount(ks)
  {
    var inSection := false;
    count := 0;
    var i := 0;
    ghost var t := FirstOf(ks, TornadoHeader, 0);
    while i < |lines|
      invariant 0 <= i <= |lines| && |ks| == |lines|
      invariant t == FirstOf(ks, TornadoHeader, 0)
      invariant !inSection ==> count == 0 && i <= t
      invariant inSection ==> t < i && i <= FirstOf(ks, StopHeader, t + 1) && count == CountData(ks[t + 1..i])
      decreases |lines| - i
    {
      var kind := ClassifyLine(lines, i, ks);
      if inSection {
        assert ks[t + 1..i + 1] == ks[t + 1..i] + [ks[i]];
      }
      match kind {
        case Blank =>
        case TornadoHeader =>
          if !inSection {
            assert ks[i + 1..i + 1] == [];
          }
          inSection := true;
        case StopHeader =>
          if inSection {
            break;
          }
        case Data =>
          if inSection {
            count := count + 1;
          }
      }
      i := i + 1;
    }
  }

  /** The tests the scan applies to line `i`: trim it, then blank, tornado header, wind or
      hail header, report line. */
  method ClassifyLine(lines: seq<string>, i: nat, ghost ks: seq<Kind>) returns (kind: Kind)
    requires i < |lines| && |ks| == |lines|
    requires forall k {:trigger Classify(Trim(lines[k]))} :: 0 <= k < |lines| ==> ks[k] == Classify(Trim(lines[k]))
    ensures kind == ks[i]
  {
    var line := Trim(lines[i]);
    if line == [] {
      kind := Blank;
    } else if IsTornadoHeader(line) {
      kind := TornadoHeader;
    } else if IsWindHeader(line) || IsHailHeader(line) {
      kind := StopHeader;
    } else {
      kind := Data;
    }
    assert kind == Classify(line);
  }

  /** Every header line is recognised as one kind: the three header patterns exclude
      one another and none matches a blank line. */
  lemma {:induction false} ClassifyHeaders(line: string)
    ensures IsTornadoHeader(line) ==> Classify(line) == TornadoHeader
    ensures IsWindHeader(line) || IsHailHeader(line) ==> Classify(line) == StopHeader
  {
    HeadersDistinct(line);
    if IsTornadoHeader(line) {
      HeaderNotBlank(line, "f_scale");
    }
    if IsWindHeader(line) {
      HeaderNotBlank(line, "speed");
    }
    if IsHailHeader(line) {
      HeaderNotBlank(line, "size");
    }
  }

  /** Wind and hail headers ahead of the first tornado header are skipped: putting one in
      front of the file does not change the count. */
  lemma {:induction false} StopBeforeTornadoIgnored(ks: seq<Kind>)
    ensures ExpectedCount([StopHeader] + ks) == ExpectedCount(ks)
  {
    var all := [StopHeader] + ks;
    FirstOfShift(ks, TornadoHeader, 0);
    var t := FirstOf(ks, TornadoHeader, 0);
    if t < |ks| {
      FirstOfShift(ks, StopHeader, t + 1);
      var e := FirstOf(ks, StopHeader, t + 1);
      assert all[t + 2..e + 1] == ks[t + 1..e];
    }
  }

  lemma {:induction false} FirstOfShift(ks: seq<Kind>, kind: Kind, k: nat)
    requires k <= |ks|
    ensures FirstOf([StopHeader] + ks, kind, k + 1) == FirstOf(ks, kind, k) + 1
    ensures k == 0 && kind != StopHeader ==> FirstOf([StopHeader] + ks, kind, 0) == FirstOf(ks, kind, 0) + 1
    decreases |ks| - k
  {
    var all := [StopHeader] + ks;
    if k < |ks| {
      assert all[k + 1] == ks[k];
      FirstOfShift(ks, kind, k + 1);
    }
  }

  /** `fetchDailyTornadoCount(date)` over the candidate file names, with the network
      abstracted as `respond` (`None` when the request itself fails): the first successful
      reply is counted, a 404 moves on to the next name, any other status is an error
      carrying that status, and 0 when every name is missing. */
  function FetchCandidates(names: seq<string>, respond: string -> Option<Reply>): Result<nat, Failure> {
    if names == [] then Ok(0)
    else match respond(names[0])
      case None => Err(Failure(None))
      case Some(reply) =>
        if IsOk(reply) then Ok(ExpectedCount(Kinds(reply.body)))
        else if reply.status != 404 then Err(Failure(Some(reply.status)))
        else FetchCandidates(names[1..], respond)
  }

  function FetchDailyCount(d: Date, respond: string -> Option<Reply>): Result<nat, Failure> {
    FetchCandidates(ReportCandidates(d), respond)
  }

  /** The daily fetch never fails with status 404, so the caller's "404 counts as 0"
      branch never applies; and a day whose two files are both missing counts 0. */
  lemma {:induction false} FetchNeverFailsWith404(names: seq<string>, respond: string -> Option<Reply>)
    ensures FetchCandidates(names, respond) != Err(Failure(Some(404)))
    ensures (forall k :: 0 <= k < |names| ==> respond(names[k]).Some? && respond(names[k]).value.status == 404)
      ==> FetchCandidates(names, respond) == Ok(0)
  {
    if names != [] {
      FetchNeverFailsWith404(names[1..], respond);
      assert forall k :: 1 <= k < |names| ==> names[1..][k - 1] == names[k];
    }
  }
}
