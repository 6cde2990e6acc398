/**
 * The rule engine (monitor/rules.py): eight fixed threshold rules, tried in a
 * fixed order against the features of one window, each contributing at most
 * one hit. `RuleHits` is the decision table as a filter over the rule order;
 * `ApplyRules` is the source's chain of conditional appends, proved to build
 * exactly that list.
 */
module Rules {
  import opened Common
  import opened Text
  import opened Preprocess
  import opened Features

  /** `LOW/MED/HIGH`; no rule emits LOW. */
  datatype Severity = LOW | MED | HIGH

  /** The issue types, one per rule. */
  datatype Issue =
    | CrashLoopOrMisconfig
    | ServiceErrors
    | SuspiciousCommand
    | EncodedPayloadActivity
    | ReverseShellIndicator
    | BruteforceAttempts
    | PortScanActivity
    | DependencyDownOrNetwork

  /** The `issue_type` string each rule reports. */
  function IssueName(i: Issue): string
  {
    match i
    case CrashLoopOrMisconfig => "crash_loop_or_misconfig"
    case ServiceErrors => "service_errors"
    case SuspiciousCommand => "suspicious_command"
    case EncodedPayloadActivity => "encoded_payload_activity"
    case ReverseShellIndicator => "reverse_shell_indicator"
    case BruteforceAttempts => "bruteforce_attempts"
    case PortScanActivity => "port_scan_activity"
    case DependencyDownOrNetwork => "dependency_down_or_network"
  }

  /** The fixed reason texts. */
  datatype Note = CurlExecution | Base64Decoding | ReverseShellSeen | PortScanSeen | RefusedOrTimeout

  function NoteText(n: Note): string
  {
    match n
    case CurlExecution => "curl execution pattern observed"
    case Base64Decoding => "base64 decode pattern observed"
    case ReverseShellSeen => "reverse shell indicator observed"
    case PortScanSeen => "port scan indicators observed"
    case RefusedOrTimeout => "connection refused / timeout indicators"
  }

  /** The reason of a hit: the values a formatted reason is made from, or one of the fixed texts. */
  datatype Reason =
    | RepeatErrorTotal(repeatRatio: real, error: nat, total: nat)
    | Errors(n: nat)
    | FailedPasswordHits(n: nat)
    | Fixed(note: Note)

  datatype RuleHit = RuleHit(issueType: Issue, severity: Severity, reason: Reason)

  /** The number of rules. */
  const RULE_COUNT: nat := 8

  /** The rule tried in position `k`. */
  function IssueAt(k: nat): (i: Issue)
    requires k < RULE_COUNT
    ensures Rank(i) == k
  {
    if k == 0 then CrashLoopOrMisconfig
    else if k == 1 then ServiceErrors
    else if k == 2 then SuspiciousCommand
    else if k == 3 then EncodedPayloadActivity
    else if k == 4 then ReverseShellIndicator
    else if k == 5 then BruteforceAttempts
    else if k == 6 then PortScanActivity
    else DependencyDownOrNetwork
  }

  /** The position in which rule `i` is tried. */
  function Rank(i: Issue): (r: nat)
    ensures r < RULE_COUNT
  {
    match i
    case CrashLoopOrMisconfig => 0
    case ServiceErrors => 1
    case SuspiciousCommand => 2
    case EncodedPayloadActivity => 3
    case ReverseShellIndicator => 4
    case BruteforceAttempts => 5
    case PortScanActivity => 6
    case DependencyDownOrNetwork => 7
  }

  /** `max(pattern failed_password, keyword "failed password")`, missing keys read as 0. */
  function FailedPasswordMax(f: WindowFeatures): (n: nat)
    ensures n >= GetCount(f.patternHits, "failed_password") && n >= GetCount(f.keywordHits, "failed password")
    ensures n == GetCount(f.patternHits, "failed_password") || n == GetCount(f.keywordHits, "failed password")
  {
    var p := GetCount(f.patternHits, "failed_password");
    var k := GetCount(f.keywordHits, "failed password");
    if p >= k then p else k
  }

  /** When the rule for `i` fires on `f`. */
  predicate Fires(i: Issue, f: WindowFeatures)
  {
    match i
    case CrashLoopOrMisconfig => f.total >= 5 && f.error >= 2 && f.repeatRatio >= 0.6
    case ServiceErrors => f.error >= 3
    case SuspiciousCommand => GetCount(f.patternHits, "curl_pipe_bash") > 0 || GetCount(f.keywordHits, "curl") > 0
    case EncodedPayloadActivity => GetCount(f.patternHits, "base64_decode") > 0 || GetCount(f.keywordHits, "base64") > 0
    case ReverseShellIndicator => GetCount(f.patternHits, "reverse_shell") > 0 || GetCount(f.keywordHits, "reverse shell") > 0
    case BruteforceAttempts => GetCount(f.patternHits, "failed_password") >= 2 || GetCount(f.keywordHits, "failed password") >= 2
    case PortScanActivity => GetCount(f.patternHits, "port_scan") > 0 || GetCount(f.keywordHits, "portscan") > 0
    case DependencyDownOrNetwork => GetCount(f.keywordHits, "refused") > 0 || GetCount(f.keywordHits, "timeout") > 0
  }

  function SeverityOf(i: Issue): Severity
  {
    match i
    case ServiceErrors => MED
    case PortScanActivity => MED
    case DependencyDownOrNetwork => MED
    case _ => HIGH
  }

  function ReasonFor(i: Issue, f: WindowFeatures): Reason
  {
    match i
    case CrashLoopOrMisconfig => RepeatErrorTotal(f.repeatRatio, f.error, f.total)
    case ServiceErrors => Errors(f.error)
    case SuspiciousCommand => Fixed(CurlExecution)
    case EncodedPayloadActivity => Fixed(Base64Decoding)
    case ReverseShellIndicator => Fixed(ReverseShellSeen)
    case BruteforceAttempts => FailedPasswordHits(FailedPasswordMax(f))
    case PortScanActivity => Fixed(PortScanSeen)
    case DependencyDownOrNetwork => Fixed(RefusedOrTimeout)
  }

  /** The hit rule `i` emits when it fires. */
  function HitFor(i: Issue, f: WindowFeatures): RuleHit
  {
    RuleHit(i, SeverityOf(i), ReasonFor(i, f))
  }

  /** The hit list of rule `i` alone: its hit if it fires, nothing otherwise. */
  function Emit(i: Issue, f: WindowFeatures): seq<RuleHit>
  {
    if Fires(i, f) then [HitFor(i, f)] else []
  }

  /** The hits of the first `k` rules that fire on `f`, in rule order. */
  function HitsUpTo(k: nat, f: WindowFeatures): (hits: seq<RuleHit>)
    requires k <= RULE_COUNT
    ensures |hits| <= k
  {
    if k == 0 then [] else HitsUpTo(k - 1, f) + Emit(IssueAt(k - 1), f)
  }

  /** What `apply_rules` returns. */
  function RuleHits(f: WindowFeatures): seq<RuleHit>
  {
    HitsUpTo(RULE_COUNT, f)
  }

  predicate Reports(hits: seq<RuleHit>, i: Issue)
  {
    exists k :: 0 <= k < |hits| && hits[k].issueType == i
  }

  predicate HitsRanked(hits: seq<RuleHit>)
  {
    forall a, b :: 0 <= a < b < |hits| ==> Rank(hits[a].issueType) < Rank(hits[b].issueType)
  }

  // ---------------------------------------------------------------------------
  // Properties of the table

  /** Every hit among the first `k` rules comes from one of them that fires, and is that rule's hit. */
  lemma {:induction false} HitsUpToSound(k: nat, f: WindowFeatures)
    requires k <= RULE_COUNT
    ensures forall h :: h in HitsUpTo(k, f) ==> Rank(h.issueType) < k && Fires(h.issueType, f) && h == HitFor(h.issueType, f)
  {
    if k > 0 {
      HitsUpToSound(k - 1, f);
    }
  }

  /** Every one of the first `k` rules that fires has a hit. */
  lemma {:induction false} HitsUpToComplete(k: nat, f: WindowFeatures, i: Issue)
    requires k <= RULE_COUNT && Rank(i) < k && Fires(i, f)
    ensures Reports(HitsUpTo(k, f), i)
  {
    var hits := HitsUpTo(k, f);
    if Rank(i) == k - 1 {
      RankDetermines(i, IssueAt(k - 1));
      assert hits[|hits| - 1].issueType == i;
    } else {
      HitsUpToComplete(k - 1, f, i);
      var rest := HitsUpTo(k - 1, f);
      var t :| 0 <= t < |rest| && rest[t].issueType == i;
      assert hits[t] == rest[t];
    }
  }

  /** The hits of the first `k` rules are in increasing rule order. */
  lemma {:induction false} HitsUpToRanked(k: nat, f: WindowFeatures)
    requires k <= RULE_COUNT
    ensures HitsRanked(HitsUpTo(k, f))
  {
    if k > 0 {
      var rest := HitsUpTo(k - 1, f);
      HitsUpToRanked(k - 1, f);
      HitsUpToSound(k - 1, f);
      var hits := HitsUpTo(k, f);
      forall a, b | 0 <= a < b < |hits| ensures Rank(hits[a].issueType) < Rank(hits[b].issueType) {
        assert hits[a] == rest[a];
        if b < |rest| {
          assert hits[b] == rest[b];
        } else {
          assert rest[a] in rest;
        }
      }
    }
  }

  /** Rules are told apart by their rank. */
  lemma RankDetermines(i: Issue, j: Issue)
    requires Rank(i) == Rank(j)
    ensures i == j
  {
  }

  /** `apply_rules` lists its hits in the fixed rule order, no rule twice, so at most eight of them. */
  lemma RuleHitsOrdered(f: WindowFeatures)
    ensures HitsRanked(RuleHits(f))
    ensures forall a, b :: 0 <= a < b < |RuleHits(f)| ==> RuleHits(f)[a].issueType != RuleHits(f)[b].issueType
    ensures |RuleHits(f)| <= 8
  {
    HitsUpToRanked(RULE_COUNT, f);
  }

  /** A rule is reported exactly when its condition holds, and its hit carries the rule's severity and reason. */
  lemma RuleHitsFire(f: WindowFeatures)
    ensures forall i :: Reports(RuleHits(f), i) <==> Fires(i, f)
    ensures forall h :: h in RuleHits(f) ==> h.severity == SeverityOf(h.issueType) && h.reason == ReasonFor(h.issueType, f)
  {
    var hits := RuleHits(f);
    HitsUpToSound(RULE_COUNT, f);
    forall i | Fires(i, f) ensures Reports(hits, i) {
      HitsUpToComplete(RULE_COUNT, f, i);
    }
    forall i | Reports(hits, i) ensures Fires(i, f) {
      var k :| 0 <= k < |hits| && hits[k].issueType == i;
      assert hits[k] in hits;
    }
  }

  /** The decision table rule by rule: each rule's condition, with missing keys read as 0. */
  lemma RuleConditions(f: WindowFeatures)
    ensures Reports(RuleHits(f), CrashLoopOrMisconfig) <==> f.total >= 5 && f.error >= 2 && f.repeatRatio >= 0.6
    ensures Reports(RuleHits(f), ServiceErrors) <==> f.error >= 3
    ensures Reports(RuleHits(f), SuspiciousCommand) <==>
      GetCount(f.patternHits, "curl_pipe_bash") > 0 || GetCount(f.keywordHits, "curl") > 0
    ensures Reports(RuleHits(f), EncodedPayloadActivity) <==>
      GetCount(f.patternHits, "base64_decode") > 0 || GetCount(f.keywordHits, "base64") > 0
    ensures Reports(RuleHits(f), ReverseShellIndicator) <==>
      GetCount(f.patternHits, "reverse_shell") > 0 || GetCount(f.keywordHits, "reverse shell") > 0
    ensures Reports(RuleHits(f), BruteforceAttempts) <==> FailedPasswordMax(f) >= 2
    ensures Reports(RuleHits(f), PortScanActivity) <==>
      GetCount(f.patternHits, "port_scan") > 0 || GetCount(f.keywordHits, "portscan") > 0
    ensures Reports(RuleHits(f), DependencyDownOrNetwork) <==>
      GetCount(f.keywordHits, "refused") > 0 || GetCount(f.keywordHits, "timeout") > 0
  {
    RuleHitsFire(f);
    assert Fires(CrashLoopOrMisconfig, f) <==> f.total >= 5 && f.error >= 2 && f.repeatRatio >= 0.6;
    assert Fires(BruteforceAttempts, f) <==> FailedPasswordMax(f) >= 2;
  }

  /** The severities: HIGH for crash loops and the security rules, MED otherwise, never LOW. */
  lemma Severities(f: WindowFeatures)
    ensures forall h :: h in RuleHits(f) ==> h.severity != LOW
    ensures forall h :: h in RuleHits(f) ==>
      (h.severity == MED <==> h.issueType in {ServiceErrors, PortScanActivity, DependencyDownOrNetwork})
  {
    RuleHitsFire(f);
  }

  /** A window with no errors, no keyword and no pattern hits raises nothing. */
  lemma QuietFeatures(f: WindowFeatures)
    requires f.error == 0
    requires forall k :: k in f.keywordHits ==> f.keywordHits[k] == 0
    requires forall name :: name in f.patternHits ==> f.patternHits[name] == 0
    ensures RuleHits(f) == []
  {
    RuleHitsFire(f);
    if RuleHits(f) != [] {
      assert Reports(RuleHits(f), RuleHits(f)[0].issueType);
    }
  }

  /**
   * The crash-loop rule on a window of events: at least five events, at least
   * two errors, and at most two distinct messages for every five events
   * (a repeat ratio of at least 0.6, computed exactly).
   */
  lemma CrashLoopOnWindow(container: string, events: seq<LogEvent>)
    ensures Reports(RuleHits(FeaturesOf(container, events)), CrashLoopOrMisconfig) <==>
      |events| >= 5 && LevelCount(events, "ERROR") >= 2 && 5 * DistinctCount(events) <= 2 * |events|
  {
    var f := FeaturesOf(container, events);
    RuleConditions(f);
    if |events| > 0 {
      var d := DistinctCount(events) as real;
      var t := |events| as real;
      RepeatThreshold(d, t);
    }
  }

  /** `1 - d/t >= 0.6` exactly when `5d <= 2t`, for `t > 0`. */
  lemma RepeatThreshold(d: real, t: real)
    requires t > 0.0
    ensures 1.0 - d / t >= 0.6 <==> 5.0 * d <= 2.0 * t
  {
    var q := d / t;
    assert q * t == d;
    if 1.0 - q >= 0.6 {
      assert q <= 0.4;
      assert q * t <= 0.4 * t;
    } else {
      assert q > 0.4;
      assert q * t > 0.4 * t;
    }
  }

  lemma KeywordEntry(events: seq<LogEvent>, k: string)
    requires k in KEYWORDS
    ensures GetCount(KeywordHits(events), k) == KeywordCount(events, k)
  {
  }

  lemma PatternEntry(events: seq<LogEvent>, name: string)
    requires name in PATTERNS
    ensures GetCount(PatternHits(events), name) == PatternCount(events, name)
  {
  }

  /** A single event that mentions an indicator keyword, or that its pattern matches, raises that indicator's rule. */
  lemma IndicatorEvent(container: string, events: seq<LogEvent>, a: nat)
    requires a < |events|
    ensures var m := events[a].message;
      var hits := RuleHits(FeaturesOf(container, events));
      && (KeywordIn(m, "curl") || PatternMatches("curl_pipe_bash", m) ==> Reports(hits, SuspiciousCommand))
      && (KeywordIn(m, "base64") || PatternMatches("base64_decode", m) ==> Reports(hits, EncodedPayloadActivity))
      && (KeywordIn(m, "reverse shell") || PatternMatches("reverse_shell", m) ==> Reports(hits, ReverseShellIndicator))
      && (KeywordIn(m, "portscan") || PatternMatches("port_scan", m) ==> Reports(hits, PortScanActivity))
      && (KeywordIn(m, "refused") || KeywordIn(m, "timeout") ==> Reports(hits, DependencyDownOrNetwork))
  {
    var m := events[a].message;
    RuleConditions(FeaturesOf(container, events));
    if KeywordIn(m, "curl") {
      KeywordEntry(events, "curl");
      KeywordCountAtLeast(events, "curl", a, a);
    }
    if KeywordIn(m, "base64") {
      KeywordEntry(events, "base64");
      KeywordCountAtLeast(events, "base64", a, a);
    }
    if KeywordIn(m, "reverse shell") {
      KeywordEntry(events, "reverse shell");
      KeywordCountAtLeast(events, "reverse shell", a, a);
    }
    if KeywordIn(m, "portscan") {
      KeywordEntry(events, "portscan");
      KeywordCountAtLeast(events, "portscan", a, a);
    }
    if KeywordIn(m, "refused") {
      KeywordEntry(events, "refused");
      KeywordCountAtLeast(events, "refused", a, a);
    }
    if KeywordIn(m, "timeout") {
      KeywordEntry(events, "timeout");
      KeywordCountAtLeast(events, "timeout", a, a);
    }
    if PatternMatches("curl_pipe_bash", m) {
      PatternEntry(events, "curl_pipe_bash");
      PatternCountAtLeast(events, "curl_pipe_bash", a, a);
    }
    if PatternMatches("base64_decode", m) {
      PatternEntry(events, "base64_decode");
      PatternCountAtLeast(events, "base64_decode", a, a);
    }
    if PatternMatches("reverse_shell", m) {
      PatternEntry(events, "reverse_shell");
      PatternCountAtLeast(events, "reverse_shell", a, a);
    }
    if PatternMatches("port_scan", m) {
      PatternEntry(events, "port_scan");
      PatternCountAtLeast(events, "port_scan", a, a);
    }
  }

  /** Two events that mention "failed password" (or that the failed_password pattern matches) raise bruteforce_attempts. */
  lemma BruteforceEvents(container: string, events: seq<LogEvent>, a: nat, b: nat)
    requires a < b < |events|
    requires || (KeywordIn(events[a].message, "failed password") && KeywordIn(events[b].message, "failed password"))
             || (PatternMatches("failed_password", events[a].message) && PatternMatches("failed_password", events[b].message))
    ensures Reports(RuleHits(FeaturesOf(container, events)), BruteforceAttempts)
  {
    RuleConditions(FeaturesOf(container, events));
    if KeywordIn(events[a].message, "failed password") && KeywordIn(events[b].message, "failed password") {
      KeywordEntry(events, "failed password");
      KeywordCountAtLeast(events, "failed password", a, b);
    } else {
      PatternEntry(events, "failed_password");
      PatternCountAtLeast(events, "failed_password", a, b);
    }
  }

  /** An empty window raises nothing (the flush never evaluates one, but the rules allow it). */
  lemma EmptyWindowNoHits(container: string)
    ensures RuleHits(FeaturesOf(container, [])) == []
  {
    QuietFeatures(FeaturesOf(container, []));
  }

  // ---------------------------------------------------------------------------
  // Example windows

  function EventOf(container: string, level: string, message: string): LogEvent
  {
    LogEvent(container, Instant(2026, 2, 1, 12, 0, 0, 0), level, message, message)
  }

  /** `curl <url> | bash`, for any one-line, non-empty url, is found by both the `curl` keyword and the curl_pipe_bash pattern. */
  lemma CurlLineMatches(url: string)
    requires url != [] && NoNewline(url)
    ensures var msg := "curl " + url + " | bash";
      KeywordIn(msg, "curl") && PatternMatches("curl_pipe_bash", msg)
  {
    var msg := "curl " + url + " | bash";
    var n := |url|;
    assert msg[..5] == "curl ";
    assert msg[5..5 + n + 1] == url + " ";
    assert msg[5 + n + 1..] == "| bash";
    assert LitAt(msg, 0, "curl") by {
      forall k | 0 <= k < 4 ensures Lower(msg[k]) == "curl"[k] {
        assert msg[k] == msg[..5][k];
      }
    }
    assert LitAt(msg, n + 8, "bash") by {
      forall k | 0 <= k < 4 ensures Lower(msg[n + 8 + k]) == "bash"[k] {
        assert msg[n + 8 + k] == msg[5 + n + 1..][k + 2];
      }
    }
    assert AllSpace(msg[4..5]) by {
      assert msg[4] == msg[..5][4];
    }
    assert AllSpace(msg[n + 7..n + 8]) by {
      assert msg[n + 7] == msg[5 + n + 1..][1];
    }
    assert msg[n + 6] == '|' by {
      assert msg[n + 6] == msg[5 + n + 1..][0];
    }
    assert CurlPipeBashAt(msg, 0, 5, n + 6, n + 8);
    assert OccursAt(LowerStr(msg), "curl", 0) by {
      assert LowerStr(msg)[0..4] == "curl";
    }
    ContainsIff(LowerStr(msg), "curl");
  }

  /** One event `curl http://x/payload.sh | bash`: one curl_pipe_bash hit, one curl keyword hit, and suspicious_command HIGH. */
  lemma CurlPipeBashScenario(container: string)
    ensures var events := [EventOf(container, "INFO", "curl " + "http://x/payload.sh" + " | bash")];
      var f := FeaturesOf(container, events);
      && GetCount(f.patternHits, "curl_pipe_bash") == 1 && GetCount(f.keywordHits, "curl") == 1
      && Reports(RuleHits(f), SuspiciousCommand) && SeverityOf(SuspiciousCommand) == HIGH
  {
    var url := "http://x/payload.sh";
    var events := [EventOf(container, "INFO", "curl " + url + " | bash")];
    CurlLineMatches(url);
    assert events[..0] == [];
    assert KeywordCount(events, "curl") == 1;
    assert PatternCount(events, "curl_pipe_bash") == 1;
    KeywordEntry(events, "curl");
    PatternEntry(events, "curl_pipe_bash");
    IndicatorEvent(container, events, 0);
  }

  /** Two events mentioning `Failed password` raise bruteforce_attempts HIGH. */
  lemma FailedPasswordScenario(container: string)
    ensures var msg := "Failed password for root";
      var f := FeaturesOf(container, [EventOf(container, "WARN", msg), EventOf(container, "WARN", msg)]);
      Reports(RuleHits(f), BruteforceAttempts) && SeverityOf(BruteforceAttempts) == HIGH
  {
    var msg := "Failed password for root";
    assert OccursAt(LowerStr(msg), "failed password", 0) by {
      assert LowerStr(msg)[0..15] == "failed password";
    }
    ContainsIff(LowerStr(msg), "failed password");
    BruteforceEvents(container, [EventOf(container, "WARN", msg), EventOf(container, "WARN", msg)], 0, 1);
  }

  /** A window of five events, two of them errors, three sharing the message `x` and two with the unique messages `y` and `z`. */
  function ThreeRepeatsWindow(container: string, x: string, y: string, z: string): seq<LogEvent>
  {
    [EventOf(container, "ERROR", x)] + [EventOf(container, "ERROR", x)] + [EventOf(container, "INFO", x)]
      + [EventOf(container, "INFO", y)] + [EventOf(container, "INFO", z)]
  }

  lemma ThreeRepeatsMessages(container: string, x: string, y: string, z: string)
    requires Bare(x) && Bare(y) && Bare(z)
    ensures MessageList(ThreeRepeatsWindow(container, x, y, z)) == [x, x, x, y, z]
  {
    var ex, ey, ez := EventOf(container, "ERROR", x), EventOf(container, "INFO", y), EventOf(container, "INFO", z);
    var ex' := EventOf(container, "INFO", x);
    var s1 := [ex];
    var s2 := s1 + [ex];
    var s3 := s2 + [ex'];
    var s4 := s3 + [ey];
    assert MessageList(s1) == [x] by {
      assert [] + [ex] == s1;
      AppendBare([], ex);
    }
    assert MessageList(s2) == [x, x] by {
      AppendBare(s1, ex);
    }
    assert MessageList(s3) == [x, x, x] by {
      AppendBare(s2, ex');
    }
    assert MessageList(s4) == [x, x, x, y] by {
      AppendBare(s3, ey);
    }
    AppendBare(s4, ez);
  }

  lemma ThreeRepeatsErrors(container: string, x: string, y: string, z: string)
    ensures LevelCount(ThreeRepeatsWindow(container, x, y, z), "ERROR") == 2
  {
    var ex, ey, ez := EventOf(container, "ERROR", x), EventOf(container, "INFO", y), EventOf(container, "INFO", z);
    var ex' := EventOf(container, "INFO", x);
    var s1 := [ex];
    var s2 := s1 + [ex];
    var s3 := s2 + [ex'];
    var s4 := s3 + [ey];
    NormalizeParsedLevel("ERROR");
    NormalizeParsedLevel("INFO");
    assert LevelCount(s1, "ERROR") == 1 by {
      assert [] + [ex] == s1;
      LevelCountAppend([], ex, "ERROR");
    }
    assert LevelCount(s2, "ERROR") == 2 by {
      LevelCountAppend(s1, ex, "ERROR");
    }
    assert LevelCount(s3, "ERROR") == 2 by {
      LevelCountAppend(s2, ex', "ERROR");
    }
    assert LevelCount(s4, "ERROR") == 2 by {
      LevelCountAppend(s3, ey, "ERROR");
    }
    LevelCountAppend(s4, ez, "ERROR");
  }

  /**
   * Three events sharing one message and two unique ones: three distinct
   * messages out of five is a repeat ratio of 0.4, so the crash-loop rule does
   * not fire, errors or not.
   */
  lemma ThreeRepeatsScenario(container: string, x: string, y: string, z: string)
    requires Bare(x) && Bare(y) && Bare(z)
    requires x != y && y != z && x != z
    ensures LevelCount(ThreeRepeatsWindow(container, x, y, z), "ERROR") == 2
    ensures var f := FeaturesOf(container, ThreeRepeatsWindow(container, x, y, z));
      f.repeatRatio == 0.4 && !Reports(RuleHits(f), CrashLoopOrMisconfig)
  {
    var events := ThreeRepeatsWindow(container, x, y, z);
    ThreeRepeatsDistinct(container, x, y, z);
    assert RepeatRatio(events) == 0.4 by {
      assert UniqRatio(events) == 3.0 / 5.0;
    }
    ThreeRepeatsErrors(container, x, y, z);
    CrashLoopOnWindow(container, events);
  }

  lemma ThreeRepeatsDistinct(container: string, x: string, y: string, z: string)
    requires Bare(x) && Bare(y) && Bare(z)
    requires x != y && y != z && x != z
    ensures |ThreeRepeatsWindow(container, x, y, z)| == 5
    ensures DistinctCount(ThreeRepeatsWindow(container, x, y, z)) == 3
  {
    var ms := MessageList(ThreeRepeatsWindow(container, x, y, z));
    ThreeRepeatsMessages(container, x, y, z);
    assert ElementSet(ms) == {x, y, z} by {
      assert ms[0] == x && ms[3] == y && ms[4] == z;
    }
    assert |{x, y, z}| == 3;
  }

  // ---------------------------------------------------------------------------
  // apply_rules

  /** `if fires: hits.append(h)` for rule `k`: the hits of the first `k + 1` rules. */
  method AppendRule(hits: seq<RuleHit>, ghost k: nat, ghost f: WindowFeatures, fires: bool, h: RuleHit) returns (hits': seq<RuleHit>)
    requires k < RULE_COUNT && hits == HitsUpTo(k, f)
    requires fires == Fires(IssueAt(k), f) && (fires ==> h == HitFor(IssueAt(k), f))
    ensures hits' == HitsUpTo(k + 1, f)
  {
    if fires {
      hits' := hits + [h];
    } else {
      hits' := hits;
    }
  }

  /** The source's chain of conditional appends. */
  method ApplyRules(feat: WindowFeatures) returns (hits: seq<RuleHit>)
    ensures hits == RuleHits(feat)
  {
    hits := [];
    hits := AppendRule(hits, 0, feat, feat.total >= 5 && feat.error >= 2 && feat.repeatRatio >= 0.6, RuleHit(CrashLoopOrMisconfig, HIGH, RepeatErrorTotal(feat.repeatRatio, feat.error, feat.total)));
    hits := AppendRule(hits, 1, feat, feat.error >= 3, RuleHit(ServiceErrors, MED, Errors(feat.error)));
    hits := AppendRule(hits, 2, feat, GetCount(feat.patternHits, "curl_pipe_bash") > 0 || GetCount(feat.keywordHits, "curl") > 0, RuleHit(SuspiciousCommand, HIGH, Fixed(CurlExecution)));
    hits := AppendRule(hits, 3, feat, GetCount(feat.patternHits, "base64_decode") > 0 || GetCount(feat.keywordHits, "base64") > 0, RuleHit(EncodedPayloadActivity, HIGH, Fixed(Base64Decoding)));
    hits := AppendRule(hits, 4, feat, GetCount(feat.patternHits, "reverse_shell") > 0 || GetCount(feat.keywordHits, "reverse shell") > 0, RuleHit(ReverseShellIndicator, HIGH, Fixed(ReverseShellSeen)));
    var pw, kw := GetCount(feat.patternHits, "failed_password"), GetCount(feat.keywordHits, "failed password");
    hits := AppendRule(hits, 5, feat, pw >= 2 || kw >= 2, RuleHit(BruteforceAttempts, HIGH, FailedPasswordHits(if pw >= kw then pw else kw)));
    hits := AppendRule(hits, 6, feat, GetCount(feat.patternHits, "port_scan") > 0 || GetCount(feat.keywordHits, "portscan") > 0, RuleHit(PortScanActivity, MED, Fixed(PortScanSeen)));
    hits := AppendRule(hits, 7, feat, GetCount(feat.keywordHits, "refused") > 0 || GetCount(feat.keywordHits, "timeout") > 0, RuleHit(DependencyDownOrNetwork, MED, Fixed(RefusedOrTimeout)));
  }
}
