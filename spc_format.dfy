/** Text formats of the Storm Prediction Center's daily report files, shared by the
    tornado-trend and storm-report handlers: the section header lines and the
    `YYMMDD` file names. */
module SpcFormat {
  import opened Text
  import opened Calendar

  /** "time", optional white space and a comma at the start of `line`. */
  predicate HasHeaderPrefix(line: string) {
    StartsWithIgnoreCase(line, "time") && AfterTime(line) != [] && AfterTime(line)[0] == ','
  }

  function AfterTime(line: string): string
    requires |line| >= 4
  {
    TrimStart(line[4..])
  }

  /** What follows the comma and the white space after it. */
  function HeaderWord(line: string): string
    requires HasHeaderPrefix(line)
  {
    TrimStart(AfterTime(line)[1..])
  }

  /** `/^Time\s*,\s*<word>/i`: "time", optional white space, a comma, optional white
      space, then `word`, all compared without regard to ASCII case. */
  predicate IsSectionHeader(line: string, word: string) {
    HasHeaderPrefix(line) && StartsWithIgnoreCase(HeaderWord(line), word)
  }

  predicate IsTornadoHeader(line: string) { IsSectionHeader(line, "f_scale") }
  predicate IsWindHeader(line: string) { IsSectionHeader(line, "speed") }
  predicate IsHailHeader(line: string) { IsSectionHeader(line, "size") }

  /** A header line is never blank. */
  lemma {:induction false} HeaderNotBlank(line: string, word: string)
    requires IsSectionHeader(line, word)
    ensures Trim(line) != []
  {
    TimeNotBlank(line);
  }

  lemma {:induction false} TimeNotBlank(line: string)
    requires StartsWithIgnoreCase(line, "time")
    ensures !IsBlank(line)
  {
    assert ToLowerAscii(line[..4])[0] == LowerAscii(line[0]);
    assert LowerAscii(line[0]) == 't';
    assert !IsSpace(line[0]);
  }

  /** No text starts with two words that differ at position `k` under case folding. */
  lemma {:induction false} PrefixClash(w: string, a: string, b: string, k: nat)
    requires k < |a| && k < |b| && a[k] != b[k]
    ensures !(StartsWithIgnoreCase(w, a) && StartsWithIgnoreCase(w, b))
  {
    assert StartsWithIgnoreCase(w, a) ==> w[..|a|][k] == w[k] && a[k] == LowerAscii(w[k]);
    assert StartsWithIgnoreCase(w, b) ==> w[..|b|][k] == w[k] && b[k] == LowerAscii(w[k]);
  }

  /** The three headers are told apart by their second word. */
  lemma {:induction false} HeadersDistinct(line: string)
    ensures !(IsTornadoHeader(line) && IsWindHeader(line))
    ensures !(IsTornadoHeader(line) && IsHailHeader(line))
    ensures !(IsWindHeader(line) && IsHailHeader(line))
  {
    if HasHeaderPrefix(line) {
      var w := HeaderWord(line);
      PrefixClash(w, "f_scale", "speed", 0);
      PrefixClash(w, "f_scale", "size", 0);
      PrefixClash(w, "speed", "size", 1);
    }
  }

  /** Truncating remainder, JavaScript's `%`. */
  function JsRem(a: int, b: int): (r: int)
    requires b > 0
    ensures a >= 0 ==> 0 <= r < b && r == a % b
    ensures a < 0 ==> -b < r <= 0
  {
    if a >= 0 then a % b else -((-a) % b)
  }

  /** `pad(value)`: `String(value).padStart(2, "0")`. */
  function Pad(value: int): string {
    PadStart(IntToString(value), 2, '0')
  }

  /** The `YYMMDD` stem of a day's report files. */
  function ReportBase(d: Date): string {
    Pad(JsRem(d.year, 100)) + Pad(d.month) + Pad(d.day)
  }

  /** The report files tried for a day: the filtered file first, then the raw one. */
  function ReportCandidates(d: Date): (names: seq<string>)
    ensures |names| == 2
    ensures names[0] == ReportBase(d) + "_rpts_filtered.csv"
    ensures names[1] == ReportBase(d) + "_rpts.csv"
  {
    [ReportBase(d) + "_rpts_filtered.csv", ReportBase(d) + "_rpts.csv"]
  }

  /** Two digits that read back as `n`. */
  lemma {:induction false} PadTwoDigits(n: int)
    requires 0 <= n < 100
    ensures |Pad(n)| == 2 && AllDigits(Pad(n)) && DigitsValue(Pad(n)) == n
  {
    NatToStringValue(n);
    NatToStringLength(n, 2);
    if n < 10 {
      var d := NatToString(n);
      assert |d| == 1;
      assert Pad(n) == ['0'] + d;
      assert Pad(n)[..1] == ['0'];
      assert DigitsValue(['0']) == 0;
    }
  }

  lemma {:induction false} PadLength(n: int)
    requires 0 <= n < 100
    ensures |Pad(n)| == 2
  {
    NatToStringLength(n, 2);
  }

  lemma {:induction false} Slices(x: string, y: string, z: string)
    requires |x| == 2 && |y| == 2 && |z| == 2
    ensures |x + y + z| == 6
    ensures (x + y + z)[..2] == x && (x + y + z)[2..4] == y && (x + y + z)[4..] == z
  {
  }

  lemma {:induction false} ReportBaseOfCalendarYear(d: Date)
    requires d.year >= 0
    ensures ReportBase(d) == Pad(d.year % 100) + Pad(d.month) + Pad(d.day)
  {
  }

  /** For a valid date of a year from 0 on, the stem is the year within its century, the
      month and the day, two digits each (each reads back by `PadTwoDigits`). */
  lemma {:induction false} ReportBaseParts(d: Date)
    requires Valid(d) && d.year >= 0
    ensures var b := ReportBase(d);
      && |b| == 6
      && b[..2] == Pad(d.year % 100) && b[2..4] == Pad(d.month) && b[4..] == Pad(d.day)
  {
    assert d.day < 100;
    PadLength(d.year % 100);
    PadLength(d.month);
    PadLength(d.day);
    ReportBaseOfCalendarYear(d);
    Slices(Pad(d.year % 100), Pad(d.month), Pad(d.day));
  }
}
