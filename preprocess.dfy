/**
 * The line parser (monitor/preprocess.py): one raw log line of one container
 * becomes a `LogEvent`. The strict line shape
 *   optional whitespace, TIMESTAMP, whitespace, [LEVEL], whitespace, rest
 * is recognised by a hand-written greedy scanner (`MatchLine`) that is proved
 * to agree with a declarative description of the regular expression
 * (`LineShape`). Lines that do not have the shape fall back to level INFO.
 */
module Preprocess {
  import opened Common
  import opened Text

  /** A UTC instant as its calendar fields; `ValidInstant` says which are real. */
  datatype Instant = Instant(year: nat, month: nat, day: nat, hour: nat, minute: nat, second: nat, microsecond: nat)

  datatype LogEvent = LogEvent(container: string, timestamp: Instant, level: string, message: string, raw: string)

  /** What `datetime.fromisoformat` raises on a timestamp of the right shape whose fields are out of range. */
  datatype ParseError = InvalidDateTime(ts: string)

  /** The alternatives of the level group, in the order the expression lists them. */
  const LEVEL_TOKENS: seq<string> := ["INFO", "WARN", "ERROR", "DEBUG", "TRACE"]

  // ---------------------------------------------------------------------------
  // The timestamp group: \d{4}-\d{2}-\d{2}T\d{2}:\d{2}:\d{2}(?:\.\d+)?Z

  predicate DigitAt(s: string, i: int)
  {
    0 <= i < |s| && IsDigit(s[i])
  }

  /** `YYYY-MM-DDTHH:MM:SS` at position `a` of `s`. */
  predicate BaseTsAt(s: string, a: nat)
  {
    && a + 19 <= |s|
    && DigitAt(s, a) && DigitAt(s, a + 1) && DigitAt(s, a + 2) && DigitAt(s, a + 3) && s[a + 4] == '-'
    && DigitAt(s, a + 5) && DigitAt(s, a + 6) && s[a + 7] == '-'
    && DigitAt(s, a + 8) && DigitAt(s, a + 9) && s[a + 10] == 'T'
    && DigitAt(s, a + 11) && DigitAt(s, a + 12) && s[a + 13] == ':'
    && DigitAt(s, a + 14) && DigitAt(s, a + 15) && s[a + 16] == ':'
    && DigitAt(s, a + 17) && DigitAt(s, a + 18)
  }

  /** The whole timestamp group: the base, an optional `.digits` fraction and a literal `Z`. */
  predicate TsShape(ts: string)
  {
    && |ts| >= 20 && BaseTsAt(ts, 0) && ts[|ts| - 1] == 'Z'
    && (|ts| == 20 || (ts[19] == '.' && |ts| >= 22 && forall k :: 20 <= k < |ts| - 1 ==> IsDigit(ts[k])))
  }

  // ---------------------------------------------------------------------------
  // The greedy scanner

  /** The end of the maximal run of whitespace that starts at `i` (what a greedy `\s*` consumes). */
  function SkipSpace(s: string, i: nat): (j: nat)
    requires i <= |s|
    ensures i <= j <= |s| && AllSpace(s[i..j]) && (j == |s| || !IsSpace(s[j]))
    decreases |s| - i
  {
    if i < |s| && IsSpace(s[i]) then SkipSpace(s, i + 1) else i
  }

  /** The end of the maximal run of digits that starts at `i` (what a greedy `\d+` consumes). */
  function SkipDigits(s: string, i: nat): (j: nat)
    requires i <= |s|
    ensures i <= j <= |s| && AllDigits(s[i..j]) && (j == |s| || !IsDigit(s[j]))
    decreases |s| - i
  {
    if i < |s| && IsDigit(s[i]) then SkipDigits(s, i + 1) else i
  }

  /** The position of the first line feed at or after `i`, or `|s|` (where `.*` stops). */
  function FirstNewline(s: string, i: nat): (n: nat)
    requires i <= |s|
    ensures i <= n <= |s| && NoNewline(s[i..n]) && (n == |s| || s[n] == '\n')
    decreases |s| - i
  {
    if i < |s| && s[i] != '\n' then FirstNewline(s, i + 1) else i
  }

  /** The end of the timestamp group that starts at `a`, if one does. */
  function ScanTs(s: string, a: nat): (r: Option<nat>)
    requires a <= |s|
    ensures r.Some? ==> a < r.value <= |s| && TsShape(s[a..r.value])
  {
    if BaseTsAt(s, a) then
      if a + 19 < |s| && s[a + 19] == 'Z' then
        Some(a + 20)
      else if a + 20 < |s| && s[a + 19] == '.' && IsDigit(s[a + 20]) then
        var e := SkipDigits(s, a + 20);
        if e < |s| && s[e] == 'Z' then
          assert forall k :: a + 20 <= k < e ==> IsDigit(s[k]) by { assert AllDigits(s[a + 20..e]); }
          Some(e + 1)
        else None
      else None
    else None
  }

  predicate BracketedAt(s: string, c: nat, tok: string)
  {
    c + |tok| + 2 <= |s| && s[c..c + |tok| + 2] == "[" + tok + "]"
  }

  /** The level group `\[(INFO|WARN|ERROR|DEBUG|TRACE)\]` at position `c`. */
  function ScanLevel(s: string, c: nat): (r: Option<string>)
    ensures r.Some? ==> r.value in LEVEL_TOKENS && BracketedAt(s, c, r.value)
  {
    if BracketedAt(s, c, "INFO") then Some("INFO")
    else if BracketedAt(s, c, "WARN") then Some("WARN")
    else if BracketedAt(s, c, "ERROR") then Some("ERROR")
    else if BracketedAt(s, c, "DEBUG") then Some("DEBUG")
    else if BracketedAt(s, c, "TRACE") then Some("TRACE")
    else None
  }

  /**
   * Where the pieces of a matching line start and end: leading whitespace
   * s[..a], the timestamp s[a..b], whitespace s[b..c], the bracketed level
   * s[c..d], whitespace s[d..e], the `rest` group s[e..n] and the trailing
   * whitespace s[n..].
   */
  datatype LineMatch = LineMatch(a: nat, b: nat, c: nat, d: nat, e: nat, n: nat, level: string)

  /**
   * The declarative reading of `^\s*TS\s+\[LVL\]\s+(?P<rest>.*)\s*$`, where `.`
   * is any character but a line feed: `m` cuts `s` into pieces of those kinds.
   */
  predicate LineShape(s: string, m: LineMatch)
  {
    && m.a <= m.b <= m.c <= m.d <= m.e <= m.n <= |s|
    && AllSpace(s[..m.a])
    && TsShape(s[m.a..m.b])
    && m.b < m.c && AllSpace(s[m.b..m.c])
    && m.level in LEVEL_TOKENS && m.d == m.c + |m.level| + 2 && BracketedAt(s, m.c, m.level)
    && m.d < m.e && AllSpace(s[m.d..m.e])
    && NoNewline(s[m.e..m.n])
    && AllSpace(s[m.n..])
  }

  /**
   * `_LINE_RE.match(s)`: the greedy scan. Whatever it accepts has the line
   * shape; `MatchLineComplete` shows it accepts every line that has it.
   */
  function MatchLine(s: string): (r: Option<LineMatch>)
    ensures r.Some? ==> LineShape(s, r.value)
  {
    var a := SkipSpace(s, 0);
    match ScanTs(s, a)
    case None => None
    case Some(b) =>
      var c := SkipSpace(s, b);
      if c == b then None
      else
        match ScanLevel(s, c)
        case None => None
        case Some(lvl) => MatchRest(s, a, b, c, lvl)
  }

  /** The scan up to the level group decides where `MatchRest` starts. */
  lemma MatchLineHead(s: string, a: nat, b: nat, c: nat, lvl: string)
    requires SkipSpace(s, 0) == a && a <= |s| && ScanTs(s, a) == Some(b) && b <= |s|
    requires SkipSpace(s, b) == c && c != b && ScanLevel(s, c) == Some(lvl)
    ensures c + |lvl| + 2 <= |s| && MatchLine(s) == MatchRest(s, a, b, c, lvl)
  {
  }

  /** The scan after the level group: `\s+`, then `rest` up to the first line feed, then whitespace only. */
  function MatchRest(s: string, a: nat, b: nat, c: nat, lvl: string): Option<LineMatch>
    requires c + |lvl| + 2 <= |s|
  {
    var d := c + |lvl| + 2;
    var e := SkipSpace(s, d);
    if e == d then None
    else
      var n := FirstNewline(s, e);
      if AllSpace(s[n..]) then Some(LineMatch(a, b, c, d, e, n, lvl)) else None
  }

  function TsGroup(s: string, m: LineMatch): string
    requires m.a <= m.b <= |s|
  {
    s[m.a..m.b]
  }

  function RestGroup(s: string, m: LineMatch): string
    requires m.e <= m.n <= |s|
  {
    s[m.e..m.n]
  }

  lemma SkipSpaceLands(s: string, i: nat, j: nat)
    requires i <= j <= |s| && AllSpace(s[i..j]) && (j == |s| || !IsSpace(s[j]))
    ensures SkipSpace(s, i) == j
    decreases j - i
  {
    if i < j {
      assert s[i + 1..j] == s[i..j][1..];
      SkipSpaceLands(s, i + 1, j);
    }
  }

  lemma SkipSpacePasses(s: string, i: nat, j: nat)
    requires i <= j <= |s| && AllSpace(s[i..j])
    ensures SkipSpace(s, i) >= j
    decreases j - i
  {
    if i < j {
      assert s[i + 1..j] == s[i..j][1..];
      SkipSpacePasses(s, i + 1, j);
    }
  }

  lemma FirstNewlineLands(s: string, i: nat, n: nat)
    requires i <= n <= |s| && NoNewline(s[i..n]) && (n == |s| || s[n] == '\n')
    ensures FirstNewline(s, i) == n
    decreases n - i
  {
    if i < n {
      assert s[i + 1..n] == s[i..n][1..];
      FirstNewlineLands(s, i + 1, n);
    }
  }

  lemma SkipDigitsLands(s: string, i: nat, j: nat)
    requires i <= j <= |s| && AllDigits(s[i..j]) && (j == |s| || !IsDigit(s[j]))
    ensures SkipDigits(s, i) == j
    decreases j - i
  {
    if i < j {
      assert s[i + 1..j] == s[i..j][1..];
      SkipDigitsLands(s, i + 1, j);
    }
  }

  lemma ScanTsComplete(s: string, a: nat, b: nat)
    requires a <= b <= |s| && TsShape(s[a..b])
    ensures ScanTs(s, a) == Some(b)
  {
    var ts := s[a..b];
    assert BaseTsAt(s, a);
    if |ts| > 20 {
      assert AllDigits(s[a + 20..b - 1]) by {
        forall k | a + 20 <= k < b - 1 ensures IsDigit(s[k]) { assert s[k] == ts[k - a]; }
      }
      SkipDigitsLands(s, a + 20, b - 1);
    }
  }

  lemma ScanLevelComplete(s: string, c: nat, lvl: string)
    requires lvl in LEVEL_TOKENS && BracketedAt(s, c, lvl)
    ensures ScanLevel(s, c) == Some(lvl)
  {
    // the five tokens differ in their first letter, which sits at c + 1
    assert s[c + 1] == s[c..c + |lvl| + 2][1] == lvl[0];
  }

  lemma TailComplete(s: string, d: nat, e: nat, n: nat)
    requires d <= e <= n <= |s| && AllSpace(s[d..e]) && NoNewline(s[e..n]) && AllSpace(s[n..])
    ensures var e' := SkipSpace(s, d); e <= e' && AllSpace(s[FirstNewline(s, e')..])
  {
    SkipSpacePasses(s, d, e);
    var e' := SkipSpace(s, d);
    var n' := FirstNewline(s, e');
    assert s[n'..] == s[n..][n' - n..];
  }

  /** The tail of a line of the shape is accepted, with `rest` starting no earlier than the given cut. */
  lemma MatchRestComplete(s: string, m: LineMatch)
    requires m.d == m.c + |m.level| + 2 && m.d < m.e <= m.n <= |s|
    requires AllSpace(s[m.d..m.e]) && NoNewline(s[m.e..m.n]) && AllSpace(s[m.n..])
    ensures var r := MatchRest(s, m.a, m.b, m.c, m.level);
      r.Some? && r.value.a == m.a && r.value.b == m.b && r.value.c == m.c && r.value.d == m.d
      && r.value.level == m.level && m.e <= r.value.e
  {
    TailComplete(s, m.d, m.e, m.n);
    assert IsSpace(s[m.d]) by { assert s[m.d] == s[m.d..m.e][0]; }
  }

  /**
   * Every line of the shape is accepted, with the same timestamp and level
   * groups; the scanner's `rest` starts no earlier than the given cut because
   * the `\s+` before it is greedy.
   */
  lemma MatchLineComplete(s: string, m: LineMatch)
    requires LineShape(s, m)
    ensures MatchLine(s).Some?
    ensures var k := MatchLine(s).value;
      k.a == m.a && k.b == m.b && k.c == m.c && k.d == m.d && k.level == m.level && m.e <= k.e
    ensures MatchLine(s) == MatchRest(s, m.a, m.b, m.c, m.level)
  {
    assert IsDigit(s[m.a]) by { assert s[m.a] == s[m.a..m.b][0]; }
    SkipSpaceLands(s, 0, m.a);
    ScanTsComplete(s, m.a, m.b);
    assert s[m.c] == '[' by { assert s[m.c] == s[m.c..m.c + |m.level| + 2][0]; }
    SkipSpaceLands(s, m.b, m.c);
    ScanLevelComplete(s, m.c, m.level);
    MatchLineHead(s, m.a, m.b, m.c, m.level);
    MatchRestComplete(s, m);
  }

  // ---------------------------------------------------------------------------
  // _parse_iso_z: field extraction and the range check of datetime

  function DigitsValue(s: string): nat
    requires AllDigits(s)
  {
    if s == [] then 0 else DigitsValue(s[..|s| - 1]) * 10 + (s[|s| - 1] as int - '0' as int)
  }

  function Pow10(k: nat): (p: nat)
    ensures p >= 1
  {
    if k == 0 then 1 else 10 * Pow10(k - 1)
  }

  /** Microseconds from the fraction digits: the first six, padded with zeros on the right (truncation, no rounding). */
  function Microseconds(frac: string): nat
    requires AllDigits(frac)
  {
    var k := if |frac| >= 6 then 6 else |frac|;
    assert AllDigits(frac[..k]);
    DigitsValue(frac[..k]) * Pow10(6 - k)
  }

  function DigitVal(c: char): nat
    requires IsDigit(c)
  {
    c as int - '0' as int
  }

  /** The two-digit number at position `i` of `ts`. */
  function Num2(ts: string, i: nat): nat
    requires DigitAt(ts, i) && DigitAt(ts, i + 1)
  {
    10 * DigitVal(ts[i]) + DigitVal(ts[i + 1])
  }

  /** The calendar fields the timestamp text spells out, before any range check. */
  function TsFields(ts: string): Instant
    requires TsShape(ts)
  {
    Instant(100 * Num2(ts, 0) + Num2(ts, 2), Num2(ts, 5), Num2(ts, 8),
            Num2(ts, 11), Num2(ts, 14), Num2(ts, 17),
            if |ts| == 20 then 0 else Microseconds(ts[20..|ts| - 1]))
  }

  predicate IsLeapYear(y: nat)
  {
    y % 4 == 0 && (y % 100 != 0 || y % 400 == 0)
  }

  function DaysInMonth(y: nat, m: nat): nat
  {
    if m == 2 then (if IsLeapYear(y) then 29 else 28)
    else if m == 4 || m == 6 || m == 9 || m == 11 then 30
    else 31
  }

  /** The ranges `datetime` accepts for each field. */
  predicate ValidInstant(t: Instant)
  {
    && 1 <= t.year <= 9999
    && 1 <= t.month <= 12
    && 1 <= t.day <= DaysInMonth(t.year, t.month)
    && t.hour < 24 && t.minute < 60 && t.second < 60
    && t.microsecond < 1000000
  }

  /** `_parse_iso_z`: None where `fromisoformat` raises. */
  function ParseIsoZ(ts: string): (r: Option<Instant>)
    requires TsShape(ts)
    ensures r.Some? ==> ValidInstant(r.value)
  {
    var t := TsFields(ts);
    if ValidInstant(t) then Some(t) else None
  }

  // ---------------------------------------------------------------------------
  // parse_log_line

  /**
   * `parse_log_line(container, line)`, with the clock reading that the
   * fallback path takes from `datetime.now` passed in as `now`.
   */
  function ParseLogLine(container: string, line: string, now: Instant): (r: Result<LogEvent, ParseError>)
    // an event keeps the container and the line without its trailing line feeds
    ensures r.Ok? ==> r.value.container == container && r.value.raw == TrimNewlines(line)
    ensures r.Ok? ==> r.value.level in LEVEL_TOKENS
    // a line of the strict shape: the level and the stripped rest group, and the written time
    ensures MatchLine(TrimNewlines(line)).Some? ==>
      var raw := TrimNewlines(line);
      var m := MatchLine(raw).value;
      && (r.Err? <==> !ValidInstant(TsFields(TsGroup(raw, m))))
      && (r.Ok? ==> r.value.level == m.level && r.value.message == Strip(RestGroup(raw, m))
                    && r.value.timestamp == TsFields(TsGroup(raw, m)))
    // any other line: level INFO, the whole stripped line, and the time of processing
    ensures MatchLine(TrimNewlines(line)).None? ==>
      r.Ok? && r.value.level == "INFO" && r.value.message == Strip(TrimNewlines(line)) && r.value.timestamp == now
  {
    var raw := TrimNewlines(line);
    match MatchLine(raw)
    case Some(m) =>
      (match ParseIsoZ(raw[m.a..m.b])
       case None => Err(InvalidDateTime(raw[m.a..m.b]))
       case Some(ts) => Ok(LogEvent(container, ts, m.level, Strip(raw[m.e..m.n]), raw)))
    case None =>
      Ok(LogEvent(container, now, "INFO", Strip(raw), raw))
  }

  // ---------------------------------------------------------------------------
  // Lines in the producers' format

  /** `f"{ts} [{level}] {msg}"`, the shape the log producers write. */
  function FormatLine(ts: string, level: string, msg: string): string
  {
    ts + " " + Bracketed(level) + " " + msg
  }

  /** `[tok]`. */
  function Bracketed(tok: string): string
  {
    "[" + tok + "]"
  }

  /** Where the groups of a line in the producers' format are. */
  function FormatCuts(ts: string, level: string, msg: string): LineMatch
  {
    var d := |ts| + |level| + 3;
    LineMatch(0, |ts|, |ts| + 1, d, d + 1, d + 1 + |msg|, level)
  }

  /** Each of five concatenated strings can be sliced back out of the concatenation. */
  lemma ConcatPieces(p: string, q: string, r: string, t: string, u: string)
    ensures var s := p + q + r + t + u; var i, j, k, l := |p|, |p| + |q|, |p| + |q| + |r|, |p| + |q| + |r| + |t|;
      && |s| == l + |u|
      && s[..i] == p && s[i..j] == q && s[j..k] == r && s[k..l] == t && s[l..] == u
  {
    var s4 := p + q + r + t;
    var s3 := p + q + r;
    var s2 := p + q;
    var s := s4 + u;
    assert s[..|s4|] == s4 && s[|s4|..] == u;
    assert s4[..|s3|] == s3 && s4[|s3|..] == t;
    assert s3[..|s2|] == s2 && s3[|s2|..] == r;
    assert s2[..|p|] == p && s2[|p|..] == q;
  }

  lemma FormatLinePieces(ts: string, level: string, msg: string)
    ensures var line := FormatLine(ts, level, msg); var m := FormatCuts(ts, level, msg);
      && |line| == m.n
      && line[..m.b] == ts && line[m.b..m.c] == " " && line[m.c..m.d] == Bracketed(level)
      && line[m.d..m.e] == " " && line[m.e..] == msg
  {
    ConcatPieces(ts, " ", Bracketed(level), " ", msg);
  }

  lemma FormatLineShape(ts: string, level: string, msg: string)
    requires TsShape(ts) && level in LEVEL_TOKENS && NoNewline(msg)
    ensures LineShape(FormatLine(ts, level, msg), FormatCuts(ts, level, msg))
  {
    var line := FormatLine(ts, level, msg);
    var m := FormatCuts(ts, level, msg);
    FormatLinePieces(ts, level, msg);
    assert line[m.a..m.b] == ts;
    assert line[m.e..m.n] == msg;
    assert line[m.n..] == [];
    assert line[..m.a] == [];
  }

  lemma FormatLineMatch(ts: string, level: string, msg: string)
    requires TsShape(ts) && level in LEVEL_TOKENS
    requires NoNewline(msg) && (msg == [] || !IsSpace(msg[0]))
    ensures MatchLine(FormatLine(ts, level, msg)) == Some(FormatCuts(ts, level, msg))
  {
    var line := FormatLine(ts, level, msg);
    var m := FormatCuts(ts, level, msg);
    FormatLineShape(ts, level, msg);
    FormatLineTail(ts, level, msg);
    MatchLineExact(line, m);
  }

  /** A line of the shape whose cuts after the level are where the greedy scan puts them is matched with exactly those cuts. */
  lemma MatchLineExact(s: string, m: LineMatch)
    requires LineShape(s, m) && SkipSpace(s, m.d) == m.e && FirstNewline(s, m.e) == m.n
    ensures MatchLine(s) == Some(m)
  {
    MatchLineComplete(s, m);
    MatchRestExact(s, m);
  }

  lemma MatchRestExact(s: string, m: LineMatch)
    requires m.d == m.c + |m.level| + 2 && m.d < m.e <= |s| && m.n <= |s|
    requires SkipSpace(s, m.d) == m.e && FirstNewline(s, m.e) == m.n && AllSpace(s[m.n..])
    ensures MatchRest(s, m.a, m.b, m.c, m.level) == Some(m)
  {
    assert LineMatch(m.a, m.b, m.c, m.d, m.e, m.n, m.level) == m;
  }

  /** In a formatted line the space after the level is the whole `\s+`, and `rest` runs to the end. */
  lemma FormatLineTail(ts: string, level: string, msg: string)
    requires NoNewline(msg) && (msg == [] || !IsSpace(msg[0]))
    ensures var line := FormatLine(ts, level, msg); var m := FormatCuts(ts, level, msg);
      m.d <= m.e <= |line| && SkipSpace(line, m.d) == m.e && FirstNewline(line, m.e) == |line|
  {
    var line := FormatLine(ts, level, msg);
    var m := FormatCuts(ts, level, msg);
    FormatLinePieces(ts, level, msg);
    assert line[m.d] == ' ' by { assert line[m.d] == line[m.d..m.e][0]; }
    if msg != [] {
      assert line[m.e] == msg[0];
    }
    SkipSpaceLands(line, m.d, m.e);
    forall k | m.e <= k < |line| ensures line[k] != '\n' {
      assert line[k] == line[m.e..][k - m.e];
    }
    FirstNewlineLands(line, m.e, |line|);
  }

  /**
   * Parsing a line written in the producers' format gives back the level, the
   * message and the time it was written with, or the date/time error when
   * those fields are out of range.
   */
  lemma ParseFormatLine(container: string, ts: string, level: string, msg: string, now: Instant)
    requires TsShape(ts) && level in LEVEL_TOKENS
    requires NoNewline(msg) && (msg == [] || (!IsSpace(msg[0]) && !IsSpace(msg[|msg| - 1])))
    ensures var line := FormatLine(ts, level, msg);
      ParseLogLine(container, line, now)
        == if ValidInstant(TsFields(ts)) then Ok(LogEvent(container, TsFields(ts), level, msg, line))
           else Err(InvalidDateTime(ts))
  {
    var line := FormatLine(ts, level, msg);
    var m := FormatCuts(ts, level, msg);
    FormatLineEndsClean(ts, level, msg);
    FormatLineMatch(ts, level, msg);
    FormatLinePieces(ts, level, msg);
    StripUnchanged(msg);
    assert TsGroup(line, m) == ts && RestGroup(line, m) == msg;
  }

  /** A formatted line does not end in a line feed, so `rstrip("\n")` leaves it as it is. */
  lemma FormatLineEndsClean(ts: string, level: string, msg: string)
    requires NoNewline(msg)
    ensures TrimNewlines(FormatLine(ts, level, msg)) == FormatLine(ts, level, msg)
  {
    var line := FormatLine(ts, level, msg);
    var m := FormatCuts(ts, level, msg);
    FormatLinePieces(ts, level, msg);
    if msg == [] {
      assert line[|line| - 1] == line[m.d..m.e][0];
    } else {
      assert line[|line| - 1] == line[m.e..][|msg| - 1];
    }
  }

  /** The example from the source's comment: an ERROR line of the bug service. */
  lemma ParseDocExample(now: Instant)
    ensures var line := FormatLine("2026-02-01T12:34:56Z", "ERROR", "bug_service: something");
      ParseLogLine("bug_service", line, now)
        == Ok(LogEvent("bug_service", Instant(2026, 2, 1, 12, 34, 56, 0), "ERROR", "bug_service: something", line))
  {
    var ts := "2026-02-01T12:34:56Z";
    var msg := "bug_service: something";
    DocTimestamp(ts);
    assert NoNewline(msg) && !IsSpace(msg[0]) && !IsSpace(msg[|msg| - 1]);
    assert "ERROR" in LEVEL_TOKENS by {
      assert LEVEL_TOKENS[2] == "ERROR";
    }
    ParseFormatLine("bug_service", ts, "ERROR", msg, now);
  }

  lemma DocTimestamp(ts: string)
    requires ts == "2026-02-01T12:34:56Z"
    ensures TsShape(ts) && TsFields(ts) == Instant(2026, 2, 1, 12, 34, 56, 0) && ValidInstant(TsFields(ts))
  {
  }
}
