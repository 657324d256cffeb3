/** `splitCsvLine`, the quote-aware field splitter shared by the tornado and storm-report
    handlers: a comma separates fields only outside double quotes, a doubled quote inside
    quotes stands for one quote character, and every field is trimmed. Lines are split
    before this runs, so a quoted field never spans lines. */
module CsvLine {
  import opened Text

  /** Puts `c` in front of the first field. */
  function Prepend(c: char, fs: seq<string>): seq<string>
    requires |fs| >= 1
  {
    [[c] + fs[0]] + fs[1..]
  }

  /** The untrimmed fields of `s` read with the quote state `inQuotes`; the first field
      is the continuation of the field being read. */
  function RawFields(s: string, inQuotes: bool): (fs: seq<string>)
    ensures |fs| >= 1
  {
    if s == [] then [[]]
    else if s[0] == '"' then
      if inQuotes && |s| >= 2 && s[1] == '"' then Prepend('"', RawFields(s[2..], inQuotes))
      else RawFields(s[1..], !inQuotes)
    else if s[0] == ',' && !inQuotes then [[]] + RawFields(s[1..], inQuotes)
    else Prepend(s[0], RawFields(s[1..], inQuotes))
  }

  function TrimAll(fs: seq<string>): (ts: seq<string>)
    ensures |ts| == |fs| && forall k :: 0 <= k < |fs| ==> ts[k] == Trim(fs[k])
  {
    seq(|fs|, k requires 0 <= k < |fs| => Trim(fs[k]))
  }

  /** The fields already pushed, then the field being built continued by the first
      field still to come, then the remaining ones. */
  function Glue(done: seq<string>, current: string, rest: seq<string>): seq<string>
    requires |rest| >= 1
  {
    done + [current + rest[0]] + rest[1..]
  }

  /** `splitCsvLine(line)`: a single left-to-right scan carrying the field being built
      and whether the scan is inside quotes. */
  method SplitCsvLine(line: string) returns (fields: seq<string>)
    ensures fields == TrimAll(RawFields(line, false))
  {
    var result: seq<string> := [];
    var current: string := [];
    var inQuotes := false;
    var i := 0;
    assert line[0..] == line;
    assert Glue([], [], RawFields(line, false)) == RawFields(line, false) by {
      var fs := RawFields(line, false);
      assert [] + fs[0] == fs[0];
      assert [fs[0]] + fs[1..] == fs;
    }
    while i < |line|
      invariant 0 <= i <= |line|
      invariant Glue(result, current, RawFields(line[i..], inQuotes)) == RawFields(line, false)
      decreases |line| - i
    {
      var c := line[i];
      if c == '"' {
        if inQuotes && i + 1 < |line| && line[i + 1] == '"' {
          StepEscapedQuote(line, i);
          GluePrepend(result, current, '"', RawFields(line[i + 2..], inQuotes));
          current := current + ['"'];
          i := i + 2;
        } else {
          StepQuote(line, i, inQuotes);
          inQuotes := !inQuotes;
          i := i + 1;
        }
      } else if c == ',' && !inQuotes {
        StepSeparator(line, i);
        GlueSeparator(result, current, RawFields(line[i + 1..], inQuotes));
        result := result + [current];
        current := [];
        i := i + 1;
      } else {
        StepChar(line, i, inQuotes);
        GluePrepend(result, current, c, RawFields(line[i + 1..], inQuotes));
        current := current + [c];
        i := i + 1;
      }
    }
    assert line[i..] == [];
    GlueEnd(result, current);
    fields := TrimAll(result + [current]);
  }

  lemma {:induction false} GlueEnd(done: seq<string>, current: string)
    ensures Glue(done, current, [[]]) == done + [current]
  {
    assert current + [] == current;
    var end: seq<string> := [[]];
    assert end[1..] == [];
  }

  lemma {:induction false} StepEscapedQuote(line: string, i: nat)
    requires i + 1 < |line| && line[i] == '"' && line[i + 1] == '"'
    ensures RawFields(line[i..], true) == Prepend('"', RawFields(line[i + 2..], true))
  {
    assert line[i..][2..] == line[i + 2..];
  }

  lemma {:induction false} StepQuote(line: string, i: nat, inQuotes: bool)
    requires i < |line| && line[i] == '"'
    requires !(inQuotes && i + 1 < |line| && line[i + 1] == '"')
    ensures RawFields(line[i..], inQuotes) == RawFields(line[i + 1..], !inQuotes)
  {
    assert line[i..][1..] == line[i + 1..];
  }

  lemma {:induction false} StepSeparator(line: string, i: nat)
    requires i < |line| && line[i] == ','
    ensures RawFields(line[i..], false) == [[]] + RawFields(line[i + 1..], false)
  {
    assert line[i..][1..] == line[i + 1..];
  }

  lemma {:induction false} StepChar(line: string, i: nat, inQuotes: bool)
    requires i < |line| && line[i] != '"' && !(line[i] == ',' && !inQuotes)
    ensures RawFields(line[i..], inQuotes) == Prepend(line[i], RawFields(line[i + 1..], inQuotes))
  {
    assert line[i..][1..] == line[i + 1..];
  }

  lemma {:induction false} GluePrepend(done: seq<string>, current: string, c: char, rest: seq<string>)
    requires |rest| >= 1
    ensures Glue(done, current, Prepend(c, rest)) == Glue(done, current + [c], rest)
  {
    assert current + ([c] + rest[0]) == (current + [c]) + rest[0];
    assert Prepend(c, rest)[1..] == rest[1..];
  }

  lemma {:induction false} GlueSeparator(done: seq<string>, current: string, rest: seq<string>)
    requires |rest| >= 1
    ensures Glue(done, current, [[]] + rest) == Glue(done + [current], [], rest)
  {
    assert current + [] == current;
    assert ([[]] + rest)[1..] == rest;
    assert [] + rest[0] == rest[0];
    assert [rest[0]] + rest[1..] == rest;
  }

  /** Commas that separate fields: those outside quotes. */
  function SeparatorCount(s: string, inQuotes: bool): nat {
    if s == [] then 0
    else if s[0] == '"' then
      if inQuotes && |s| >= 2 && s[1] == '"' then SeparatorCount(s[2..], inQuotes)
      else SeparatorCount(s[1..], !inQuotes)
    else (if s[0] == ',' && !inQuotes then 1 else 0) + SeparatorCount(s[1..], inQuotes)
  }

  /** There is exactly one more field than there are commas outside quotes. */
  lemma {:induction false} FieldCount(s: string, inQuotes: bool)
    ensures |RawFields(s, inQuotes)| == SeparatorCount(s, inQuotes) + 1
  {
    if s != [] {
      if s[0] == '"' {
        if inQuotes && |s| >= 2 && s[1] == '"' {
          FieldCount(s[2..], inQuotes);
        } else {
          FieldCount(s[1..], !inQuotes);
        }
      } else {
        FieldCount(s[1..], inQuotes);
      }
    }
  }

  /** A line without quote characters splits exactly like `line.split(",")`. */
  lemma {:induction false} UnquotedIsPlainSplit(s: string)
    requires '"' !in s
    ensures RawFields(s, false) == Split(s, ',')
  {
    if s != [] {
      UnquotedIsPlainSplit(s[1..]);
    }
  }

  /** The RFC 4180 quoted form of a field: each `"` doubled, the whole wrapped in quotes. */
  function Escape(f: string): string {
    if f == [] then [] else EscapedChar(f[0]) + Escape(f[1..])
  }

  function Quote(f: string): string {
    "\"" + Escape(f) + "\""
  }

  /** A record written as quoted fields joined by commas. */
  function EncodeRecord(fields: seq<string>): string
    requires |fields| >= 1
  {
    if |fields| == 1 then Quote(fields[0]) else Quote(fields[0]) + "," + EncodeRecord(fields[1..])
  }

  /** Inside quotes, an escaped field reads back as itself. */
  lemma {:induction false} EscapeReadsBack(f: string, rest: string)
    requires rest == [] || rest[0] != '"'
    ensures RawFields(Escape(f) + "\"" + rest, true) == Glue([], f, RawFields(rest, false))
  {
    if f == [] {
      var fs := RawFields(rest, false);
      var tail := Escape(f) + "\"" + rest;
      assert tail == "\"" + rest;
      assert tail[1..] == rest;
      assert [] + fs[0] == fs[0];
      assert [fs[0]] + fs[1..] == fs;
    } else {
      var more := Escape(f[1..]) + "\"" + rest;
      EscapeReadsBack(f[1..], rest);
      EscapeHead(f);
      assert Escape(f) + "\"" + rest == EscapedChar(f[0]) + more;
      ReadEscapedChar(f, more, RawFields(rest, false));
    }
  }

  function EscapedChar(c: char): string {
    if c == '"' then "\"\"" else [c]
  }

  lemma {:induction false} ReadEscapedChar(f: string, more: string, fs: seq<string>)
    requires f != [] && |fs| >= 1
    requires RawFields(more, true) == Glue([], f[1..], fs)
    ensures RawFields(EscapedChar(f[0]) + more, true) == Glue([], f, fs)
  {
    EscapedHead(f[0], more);
    PrependGlue(f[0], f[1..], fs);
    assert [f[0]] + f[1..] == f;
  }

  lemma {:induction false} EscapeHead(f: string)
    requires f != []
    ensures Escape(f) == EscapedChar(f[0]) + Escape(f[1..])
  {
  }

  lemma {:induction false} PrependGlue(c: char, t: string, fs: seq<string>)
    requires |fs| >= 1
    ensures Prepend(c, Glue([], t, fs)) == Glue([], [c] + t, fs)
  {
    assert [c] + (t + fs[0]) == ([c] + t) + fs[0];
  }

  lemma {:induction false} EscapedHead(c: char, more: string)
    ensures RawFields(EscapedChar(c) + more, true) == Prepend(c, RawFields(more, true))
  {
    var s := EscapedChar(c) + more;
    if c == '"' {
      assert s[2..] == more;
    } else {
      assert s[1..] == more;
    }
  }

  /** Reading a quoted field followed by a comma or the end of the line. */
  lemma {:induction false} QuotedFieldReadsBack(f: string, rest: string)
    requires rest == [] || rest[0] != '"'
    ensures RawFields(Quote(f) + rest, false) == Glue([], f, RawFields(rest, false))
  {
    var s := Quote(f) + rest;
    assert s == "\"" + (Escape(f) + "\"" + rest);
    assert s[1..] == Escape(f) + "\"" + rest;
    EscapeReadsBack(f, rest);
  }

  /** Splitting a record of quoted fields gives back the fields, as long as the trim does
      not change them: quoting protects commas and quotes, but not outer white space. */
  lemma {:induction false} EncodeRecordRoundTrip(fields: seq<string>)
    requires |fields| >= 1
    requires forall k :: 0 <= k < |fields| ==> Trim(fields[k]) == fields[k]
    ensures TrimAll(RawFields(EncodeRecord(fields), false)) == fields
  {
    RawEncodeRecord(fields);
  }

  lemma {:induction false} RawEncodeRecord(fields: seq<string>)
    requires |fields| >= 1
    ensures RawFields(EncodeRecord(fields), false) == fields
  {
    if |fields| == 1 {
      QuotedFieldReadsBack(fields[0], []);
      assert Quote(fields[0]) + [] == Quote(fields[0]);
      assert fields[0] + [] == fields[0];
      assert [fields[0]] == fields;
    } else {
      var tail := EncodeRecord(fields[1..]);
      RawEncodeRecord(fields[1..]);
      QuotedFieldReadsBack(fields[0], "," + tail);
      assert EncodeRecord(fields) == Quote(fields[0]) + ("," + tail);
      assert ("," + tail)[1..] == tail;
      var g := RawFields("," + tail, false);
      assert g == [[]] + fields[1..];
      assert g[0] == [] && g[1..] == fields[1..];
      assert fields[0] + [] == fields[0];
      assert fields == [fields[0]] + fields[1..];
    }
  }
}
