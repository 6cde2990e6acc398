/**
 * The monitor's window buffers (monitor/run_monitor.py): one buffer of parsed
 * events per container, appended to as lines arrive, and one flush cycle that
 * summarises every non-empty buffer and clears it. The two clocks the source
 * reads (the wall time given to the parser and the flush timer) are inputs,
 * and the flush returns its report entries instead of printing them.
 */
module RunMonitor {
  import opened Common
  import opened Preprocess
  import opened Features
  import opened Rules

  /** Seconds between two flushes. */
  const WINDOW_SECONDS: real := 10.0

  /** The last part of a container's report: its `RULE` lines, or `RULE none` when nothing fired. */
  datatype Verdict = RuleNone | RuleLines(hits: seq<RuleHit>)

  /** What one flush reports for one container: the features, the non-zero evidence and the verdict. */
  datatype ReportEntry = ReportEntry(
    container: string,
    features: WindowFeatures,
    keywordEvidence: map<string, nat>,
    patternEvidence: map<string, nat>,
    verdict: Verdict)

  /** `{k: v for k, v in m.items() if v > 0}`. */
  function NonZero(m: map<string, nat>): map<string, nat>
  {
    map k | k in m && m[k] > 0 :: m[k]
  }

  function VerdictOf(hits: seq<RuleHit>): Verdict
  {
    if hits == [] then RuleNone else RuleLines(hits)
  }

  /** The report entry for a container whose buffer holds `events`. */
  function EntryFor(container: string, events: seq<LogEvent>): ReportEntry
  {
    var f := FeaturesOf(container, events);
    ReportEntry(container, f, NonZero(f.keywordHits), NonZero(f.patternHits), VerdictOf(RuleHits(f)))
  }

  /** The entries one flush reports, visiting the containers in `order` and skipping empty buffers. */
  function FlushReport(order: seq<string>, buffers: map<string, seq<LogEvent>>): (report: seq<ReportEntry>)
    requires forall c :: c in order ==> c in buffers
    ensures |report| <= |order|
  {
    if order == [] then []
    else
      var c := order[|order| - 1];
      FlushReport(order[..|order| - 1], buffers) + EntryIf(c, buffers[c])
  }

  function EntryIf(c: string, events: seq<LogEvent>): seq<ReportEntry>
  {
    if events == [] then [] else [EntryFor(c, events)]
  }

  /** Every buffer emptied, every container kept. */
  function Cleared(buffers: map<string, seq<LogEvent>>): (r: map<string, seq<LogEvent>>)
  {
    map c | c in buffers :: []
  }

  predicate Distinct(order: seq<string>)
  {
    forall i, j :: 0 <= i < j < |order| ==> order[i] != order[j]
  }

  lemma NonEmptyStep(order: seq<string>, i: nat, buffers: map<string, seq<LogEvent>>)
    requires i < |order| && forall c :: c in order ==> c in buffers
    ensures NonEmpty(order[..i + 1], buffers) ==
      NonEmpty(order[..i], buffers) + (if buffers[order[i]] == [] then [] else [order[i]])
  {
    assert order[..i + 1][..i] == order[..i];
  }

  /** The body of the flush loop for one non-empty buffer: features, hits, evidence and verdict. */
  method Summarise(container: string, events: seq<LogEvent>) returns (entry: ReportEntry)
    ensures entry == EntryFor(container, events)
  {
    var feat := ComputeFeatures(container, events);
    var hits := ApplyRules(feat);
    var verdict := if hits == [] then RuleNone else RuleLines(hits);
    entry := ReportEntry(container, feat, NonZero(feat.keywordHits), NonZero(feat.patternHits), verdict);
  }

  /** `report` holds one entry per container of `cs`, in that order, each summarising that container's buffer. */
  ghost predicate Summarises(cs: seq<string>, buffers: map<string, seq<LogEvent>>, report: seq<ReportEntry>)
    requires forall c :: c in cs ==> c in buffers
  {
    |report| == |cs| && forall j :: 0 <= j < |report| ==> report[j] == EntryFor(cs[j], buffers[cs[j]])
  }

  /** The state of the flush loop after visiting `order[..i]`. */
  ghost predicate FlushedUpTo(order: seq<string>, buffers: map<string, seq<LogEvent>>, i: nat, report: seq<ReportEntry>, after: map<string, seq<LogEvent>>)
    requires forall c :: c in buffers <==> c in order
  {
    && i <= |order|
    && Summarises(NonEmpty(order[..i], buffers), buffers, report)
    && (forall c :: c in after <==> c in buffers)
    && (forall j :: 0 <= j < i ==> after[order[j]] == [])
    && (forall j :: i <= j < |order| ==> after[order[j]] == buffers[order[j]])
  }

  /** One iteration of the flush loop, for the container `order[i]`. */
  method FlushOne(order: seq<string>, buffers: map<string, seq<LogEvent>>, i: nat, report: seq<ReportEntry>, after: map<string, seq<LogEvent>>)
    returns (report': seq<ReportEntry>, after': map<string, seq<LogEvent>>)
    requires Distinct(order) && forall c :: c in buffers <==> c in order
    requires i < |order| && FlushedUpTo(order, buffers, i, report, after)
    ensures FlushedUpTo(order, buffers, i + 1, report', after')
  {
    var c := order[i];
    var evts := after[c];
    after' := if evts == [] then after else after[c := []];
    forall j | 0 <= j < |order| && j != i
      ensures after'[order[j]] == after[order[j]]
    {
      assert order[j] != c;
    }
    var cs := NonEmpty(order[..i], buffers);
    NonEmptyStep(order, i, buffers);
    report' := report;
    if evts != [] {
      var entry := Summarise(c, evts);
      report' := report + [entry];
      SummarisesAppend(cs, c, buffers, report, entry);
    }
  }

  lemma SummarisesAppend(cs: seq<string>, c: string, buffers: map<string, seq<LogEvent>>, report: seq<ReportEntry>, entry: ReportEntry)
    requires c in buffers && forall c :: c in cs ==> c in buffers
    requires Summarises(cs, buffers, report) && entry == EntryFor(c, buffers[c])
    ensures Summarises(cs + [c], buffers, report + [entry])
  {
    forall j | 0 <= j < |report| + 1
      ensures (report + [entry])[j] == EntryFor((cs + [c])[j], buffers[(cs + [c])[j]])
    {
      if j < |report| {
        assert (report + [entry])[j] == report[j] && (cs + [c])[j] == cs[j];
      }
    }
  }

  /**
   * The flush loop: visit the containers in order, skip an empty buffer, and
   * for a non-empty one report its entry and clear it. Returns the report and
   * the buffers as the loop leaves them.
   */
  method Flush(order: seq<string>, buffers: map<string, seq<LogEvent>>) returns (report: seq<ReportEntry>, after: map<string, seq<LogEvent>>)
    requires Distinct(order) && forall c :: c in buffers <==> c in order
    ensures report == FlushReport(order, buffers)
    ensures after == Cleared(buffers)
  {
    report := [];
    after := buffers;
    var i := 0;
    while i < |order|
      invariant FlushedUpTo(order, buffers, i, report, after)
    {
      report, after := FlushOne(order, buffers, i, report, after);
      i := i + 1;
    }
    FlushedAll(order, buffers, report, after);
  }

  /** Once every container has been visited, the report is the whole flush report and every buffer is empty. */
  lemma FlushedAll(order: seq<string>, buffers: map<string, seq<LogEvent>>, report: seq<ReportEntry>, after: map<string, seq<LogEvent>>)
    requires forall c :: c in buffers <==> c in order
    requires FlushedUpTo(order, buffers, |order|, report, after)
    ensures report == FlushReport(order, buffers) && after == Cleared(buffers)
  {
    assert order[..|order|] == order;
    FlushReportEntries(order, buffers);
    ClearedAll(order, buffers, after);
  }

  lemma ClearedAll(order: seq<string>, buffers: map<string, seq<LogEvent>>, after: map<string, seq<LogEvent>>)
    requires forall c :: c in buffers <==> c in order
    requires forall c :: c in after <==> c in buffers
    requires forall j :: 0 <= j < |order| ==> after[order[j]] == []
    ensures after == Cleared(buffers)
  {
    forall c | c in after
      ensures after[c] == []
    {
      var j :| 0 <= j < |order| && order[j] == c;
    }
  }

  // ---------------------------------------------------------------------------
  // What a flush reports

  /** The containers of `order` whose buffers are non-empty, in order: those a flush reports on. */
  function NonEmpty(order: seq<string>, buffers: map<string, seq<LogEvent>>): (cs: seq<string>)
    requires forall c :: c in order ==> c in buffers
    ensures |cs| <= |order| && forall c :: c in cs ==> c in order
  {
    if order == [] then []
    else
      var c := order[|order| - 1];
      NonEmpty(order[..|order| - 1], buffers) + (if buffers[c] == [] then [] else [c])
  }

  /**
   * The report has one entry per non-empty buffer, in container order, and
   * each entry summarises exactly the events buffered for its container.
   */
  lemma {:induction false} FlushReportEntries(order: seq<string>, buffers: map<string, seq<LogEvent>>)
    requires forall c :: c in order ==> c in buffers
    ensures var report, cs := FlushReport(order, buffers), NonEmpty(order, buffers);
      |report| == |cs| && forall j :: 0 <= j < |report| ==> report[j] == EntryFor(cs[j], buffers[cs[j]])
  {
    if order != [] {
      var init := order[..|order| - 1];
      var c := order[|order| - 1];
      FlushReportEntries(init, buffers);
      var report, cs := FlushReport(init, buffers), NonEmpty(init, buffers);
      if buffers[c] != [] {
        var report', cs' := FlushReport(order, buffers), NonEmpty(order, buffers);
        assert report' == report + [EntryFor(c, buffers[c])];
        assert cs' == cs + [c];
        forall j | 0 <= j < |report'|
          ensures report'[j] == EntryFor(cs'[j], buffers[cs'[j]])
        {
          if j < |report| {
            assert report'[j] == report[j] && cs'[j] == cs[j];
          }
        }
      }
    }
  }

  /** `a` comes before `b` in `order`. */
  predicate Precedes(order: seq<string>, a: string, b: string)
  {
    exists p, q :: 0 <= p < q < |order| && order[p] == a && order[q] == b
  }

  /** The non-empty containers keep the order of `order`: the insertion order `dict.items()` visits. */
  lemma {:induction false} NonEmptyInOrder(order: seq<string>, buffers: map<string, seq<LogEvent>>)
    requires forall c :: c in order ==> c in buffers
    ensures var cs := NonEmpty(order, buffers);
      forall i, j :: 0 <= i < j < |cs| ==> Precedes(order, cs[i], cs[j])
  {
    if order != [] {
      var init, c := order[..|order| - 1], order[|order| - 1];
      NonEmptyInOrder(init, buffers);
      assert var cs := NonEmpty(init, buffers); forall i, j :: 0 <= i < j < |cs| ==> Precedes(init, cs[i], cs[j]);
      var cs0, cs := NonEmpty(init, buffers), NonEmpty(order, buffers);
      assert forall i, j :: 0 <= i < j < |cs0| ==> Precedes(init, cs0[i], cs0[j]);
      assert cs == cs0 + (if buffers[c] == [] then [] else [c]);
      forall i, j | 0 <= i < j < |cs|
        ensures Precedes(order, cs[i], cs[j])
      {
        if j < |cs0| {
          var p, q :| 0 <= p < q < |init| && init[p] == cs0[i] && init[q] == cs0[j];
          assert order[p] == cs[i] && order[q] == cs[j];
        } else {
          assert cs[i] == cs0[i] && cs0[i] in cs0;
          var p :| 0 <= p < |init| && init[p] == cs0[i];
          assert order[p] == cs[i] && order[|order| - 1] == cs[j];
        }
      }
    }
  }

  /** One flush names every container at most once, and in the order the containers first logged a line. */
  lemma FlushReportOrder(order: seq<string>, buffers: map<string, seq<LogEvent>>)
    requires forall c :: c in order ==> c in buffers
    requires Distinct(order)
    ensures var report := FlushReport(order, buffers);
      forall i, j :: 0 <= i < j < |report| ==>
        report[i].container != report[j].container && Precedes(order, report[i].container, report[j].container)
  {
    var report, cs := FlushReport(order, buffers), NonEmpty(order, buffers);
    FlushReportEntries(order, buffers);
    NonEmptyDistinct(order, buffers);
    NonEmptyInOrder(order, buffers);
    forall j | 0 <= j < |report|
      ensures report[j].container == cs[j]
    {
      assert report[j] == EntryFor(cs[j], buffers[cs[j]]);
    }
  }

  /** A container is reported exactly when it is in `order` and its buffer is not empty. */
  lemma {:induction false} NonEmptyMembers(order: seq<string>, buffers: map<string, seq<LogEvent>>)
    requires forall c :: c in order ==> c in buffers
    ensures forall c :: c in NonEmpty(order, buffers) <==> c in order && buffers[c] != []
  {
    if order != [] {
      var init := order[..|order| - 1];
      NonEmptyMembers(init, buffers);
      assert order == init + [order[|order| - 1]];
    }
  }

  /** No container is reported twice in one flush. */
  lemma {:induction false} NonEmptyDistinct(order: seq<string>, buffers: map<string, seq<LogEvent>>)
    requires forall c :: c in order ==> c in buffers
    requires Distinct(order)
    ensures Distinct(NonEmpty(order, buffers))
  {
    if order != [] {
      var init := order[..|order| - 1];
      var c := order[|order| - 1];
      NonEmptyDistinct(init, buffers);
      NonEmptyMembers(init, buffers);
      assert c !in init;
    }
  }

  /** A flush over buffers that are all empty reports nothing. */
  lemma {:induction false} EmptyBuffersNoReport(order: seq<string>, buffers: map<string, seq<LogEvent>>)
    requires forall c :: c in order ==> c in buffers && buffers[c] == []
    ensures FlushReport(order, buffers) == []
  {
    if order != [] {
      EmptyBuffersNoReport(order[..|order| - 1], buffers);
    }
  }

  /** A flush that follows a flush, with no line in between, reports nothing. */
  lemma FlushAfterFlush(order: seq<string>, buffers: map<string, seq<LogEvent>>)
    requires forall c :: c in buffers <==> c in order
    ensures FlushReport(order, Cleared(buffers)) == []
  {
    EmptyBuffersNoReport(order, Cleared(buffers));
  }

  /**
   * One report entry: the features of exactly the buffered events, evidence
   * holding exactly the keywords and patterns with a positive count (with
   * those counts), and `RULE none` exactly when no rule fired.
   */
  lemma EntryContents(container: string, events: seq<LogEvent>)
    ensures var e := EntryFor(container, events);
      && e.container == container && e.features == FeaturesOf(container, events)
      && (forall k :: k in e.keywordEvidence <==> k in KEYWORDS && KeywordCount(events, k) > 0)
      && (forall k :: k in e.keywordEvidence ==> e.keywordEvidence[k] == KeywordCount(events, k))
      && (forall name :: name in e.patternEvidence <==> name in PATTERNS && PatternCount(events, name) > 0)
      && (forall name :: name in e.patternEvidence ==> e.patternEvidence[name] == PatternCount(events, name))
      && (e.verdict == RuleNone <==> RuleHits(e.features) == [])
      && (e.verdict.RuleLines? ==> e.verdict.hits == RuleHits(e.features))
  {
  }

  /**
   * `order'` and `buffers'` are `order` and `buffers` after appending `e` to
   * the buffer of `container`: a new container goes last in the order and
   * gets a buffer of its own, and every other buffer is unchanged.
   */
  ghost predicate Appended(order: seq<string>, buffers: map<string, seq<LogEvent>>, container: string, e: LogEvent,
                           order': seq<string>, buffers': map<string, seq<LogEvent>>)
  {
    && order' == (if container in buffers then order else order + [container])
    && container in buffers'
    && buffers'[container] == (if container in buffers then buffers[container] else []) + [e]
    && forall c :: c in buffers' && c != container ==> c in buffers && buffers'[c] == buffers[c]
  }

  /**
   * The per-container buffers, in the order their containers first appeared
   * (the order in which a dictionary yields its keys), and the time of the last flush.
   */
  class Monitor {
    var order: seq<string>
    var buffers: map<string, seq<LogEvent>>
    var lastFlush: real

    /** Each container appears once in `order`, and exactly the containers in `order` have a buffer. */
    ghost predicate Valid()
      reads this
    {
      Distinct(order) && forall c :: c in buffers <==> c in order
    }

    /** No buffers yet; the flush timer starts at `start`. */
    constructor(start: real)
      ensures Valid() && order == [] && buffers == map[] && lastFlush == start
    {
      order := [];
      buffers := map[];
      lastFlush := start;
    }

    /**
     * `on_line`: parse the line and append the event to the end of its
     * container's buffer. A line the parser rejects changes nothing.
     */
    method OnLine(container: string, rawLine: string, now: Instant) returns (result: Result<LogEvent, ParseError>)
      requires Valid()
      modifies this
      ensures Valid()
      ensures result == ParseLogLine(container, rawLine, now)
      ensures lastFlush == old(lastFlush)
      ensures result.Err? ==> order == old(order) && buffers == old(buffers)
      ensures result.Ok? ==> Appended(old(order), old(buffers), container, result.value, order, buffers)
    {
      result := ParseLogLine(container, rawLine, now);
      if result.Ok? {
        Append(container, result.value);
      }
    }

    /**
     * `buffers[container].append(ev)`: the event goes to the end of its
     * container's buffer, which is created (and the container put last in
     * `order`) on its first event.
     */
    method Append(container: string, e: LogEvent)
      requires Valid()
      modifies this
      ensures Valid()
      ensures lastFlush == old(lastFlush)
      ensures Appended(old(order), old(buffers), container, e, order, buffers)
    {
      if container in buffers {
        buffers := buffers[container := buffers[container] + [e]];
      } else {
        order := order + [container];
        buffers := buffers[container := [e]];
      }
    }

    /**
     * One pass of the polling loop at time `now`: when a whole window has
     * passed since the last flush, flush. The flush reports every non-empty
     * buffer in container order, leaves every buffer empty and every container
     * in place, and restarts the window at `now`; otherwise nothing changes.
     */
    method Tick(now: real) returns (flushed: bool, report: seq<ReportEntry>)
      requires Valid()
      modifies this
      ensures Valid()
      ensures flushed <==> now - old(lastFlush) >= WINDOW_SECONDS
      ensures !flushed ==> report == [] && order == old(order) && buffers == old(buffers) && lastFlush == old(lastFlush)
      ensures flushed ==>
        && lastFlush == now && order == old(order) && buffers == Cleared(old(buffers))
        && report == FlushReport(old(order), old(buffers))
    {
      report := [];
      flushed := now - lastFlush >= WINDOW_SECONDS;
      if flushed {
        lastFlush := now;
        report, buffers := Flush(order, buffers);
      }
    }
  }
}
