/** What the coordinator knows while a run executes: recorded results, scans for pending children, the summary. */
module RuntimeStates {
  import opened Text
  import opened Contracts
  import opened Collections
  import opened ResultStore
  import opened Planner

  datatype Tally = Tally(terminal: map<int, AttemptResult>, attemptCount: nat, platformMismatches: nat,
    nonTerminalFailures: nat)

  const NEW_TALLY: Tally := Tally(map[], 0, 0, 0)

  /** `recordExistingTerminal` */
  function RecordExisting(t: Tally, child: int, doc: AttemptResult): Tally {
    if child in t.terminal then t
    else t.(terminal := t.terminal[child := if doc.status.NoStatus? then doc.(status := SkippedTerminalExists)
      else doc])
  }

  predicate Counted(r: AttemptResult) { r.attemptID != "" }

  predicate Mismatch(r: AttemptResult) { Counted(r) && r.status.PlatformMismatch? }

  predicate NonTerminalFailure(r: AttemptResult) { Counted(r) && r.status.Failed? && !r.terminal }

  /** One result of `recordResults`. */
  function RecordOne(t: Tally, r: AttemptResult): Tally {
    var known := r.childID in t.terminal && r.status.SkippedTerminalExists?;
    Tally(
      if Counted(r) && r.terminal && !known then t.terminal[r.childID := r] else t.terminal,
      t.attemptCount + (if Counted(r) then 1 else 0),
      t.platformMismatches + (if Mismatch(r) then 1 else 0),
      t.nonTerminalFailures + (if NonTerminalFailure(r) then 1 else 0))
  }

  function RecordAll(t: Tally, results: seq<AttemptResult>): Tally {
    if results == [] then t else RecordOne(RecordAll(t, results[..|results| - 1]), results[|results| - 1])
  }

  predicate Reports(r: AttemptResult, child: int) { Counted(r) && r.terminal && r.childID == child }

  /** The last report of a real outcome for the child. */
  ghost predicate LastOutcome(results: seq<AttemptResult>, child: int, i: nat) {
    && i < |results| && Reports(results[i], child) && !results[i].status.SkippedTerminalExists?
    && forall j :: i < j < |results| && Reports(results[j], child) ==> results[j].status.SkippedTerminalExists?
  }

  ghost predicate OnlySkipped(results: seq<AttemptResult>, child: int) {
    forall j :: 0 <= j < |results| && Reports(results[j], child) ==> results[j].status.SkippedTerminalExists?
  }

  ghost predicate FirstReport(results: seq<AttemptResult>, child: int, i: nat) {
    i < |results| && Reports(results[i], child) && forall j :: 0 <= j < i ==> !Reports(results[j], child)
  }

  /** What the state knows of a child after recording results: the last real outcome reported, or, when only skips
      were, what it knew before, or else the first skip. A skip never replaces anything. */
  ghost predicate Known(before: Tally, results: seq<AttemptResult>, after: Tally, child: int) {
    && (child in after.terminal <==> child in before.terminal || exists r :: r in results && Reports(r, child))
    && (child in after.terminal ==>
          || (exists i: nat :: LastOutcome(results, child, i) && after.terminal[child] == results[i])
          || (OnlySkipped(results, child) && child in before.terminal &&
            after.terminal[child] == before.terminal[child])
          || (OnlySkipped(results, child) && child !in before.terminal && exists i: nat ::
            FirstReport(results, child, i) && after.terminal[child] == results[i]))
  }

  lemma {:induction false} RecordedOutcome(t: Tally, results: seq<AttemptResult>, child: int)
    ensures Known(t, results, RecordAll(t, results), child)
  {
    if results != [] {
      var n := |results| - 1;
      var init, r := results[..n], results[n];
      RecordedOutcome(t, init, child);
      assert results == init + [r];
      KnownStep(t, init, RecordAll(t, init), r, child);
    }
  }

  lemma KnownStep(t: Tally, init: seq<AttemptResult>, mid: Tally, r: AttemptResult, child: int)
    requires Known(t, init, mid, child)
    ensures Known(t, init + [r], RecordOne(mid, r), child)
  {
    var results, after := init + [r], RecordOne(mid, r);
    assert results[|init|] == r;
    assert forall q :: q in results <==> q in init || q == r;
    assert forall j :: 0 <= j < |init| ==> results[j] == init[j];
    if Reports(r, child) && !r.status.SkippedTerminalExists? {
      assert LastOutcome(results, child, |init|);
    } else if child in mid.terminal {
      assert after.terminal[child] == mid.terminal[child];
      if i: nat :| LastOutcome(init, child, i) && mid.terminal[child] == init[i] {
        assert LastOutcome(results, child, i);
      } else if child in t.terminal {
      } else {
        var i: nat :| FirstReport(init, child, i) && mid.terminal[child] == init[i];
        assert FirstReport(results, child, i);
      }
    } else if Reports(r, child) {
      assert forall j :: 0 <= j < |init| ==> init[j] in init;
      assert FirstReport(results, child, |init|);
    }
  }

  function Positions(results: seq<AttemptResult>, p: AttemptResult -> bool): set<nat> {
    set i: nat | i < |results| && p(results[i])
  }

  /** The counters count results, every one of them once. */
  lemma {:induction false} RecordedCounts(t: Tally, results: seq<AttemptResult>)
    ensures
      var after := RecordAll(t, results);
      && after.attemptCount == t.attemptCount + |Positions(results, Counted)|
      && after.platformMismatches == t.platformMismatches + |Positions(results, Mismatch)|
      && after.nonTerminalFailures == t.nonTerminalFailures + |Positions(results, NonTerminalFailure)|
    ensures Positions(results, Counted) == set i: nat | i < |results| && results[i].attemptID != ""
    ensures Positions(results, Mismatch) ==
      set i: nat | i < |results| && results[i].attemptID != "" && results[i].status.PlatformMismatch?
    ensures Positions(results, NonTerminalFailure) ==
      set i: nat | i < |results| && results[i].attemptID != "" && results[i].status.Failed? && !results[i].terminal
  {
    if results != [] {
      var n := |results| - 1;
      RecordedCounts(t, results[..n]);
      PositionsStep(results, Counted);
      PositionsStep(results, Mismatch);
      PositionsStep(results, NonTerminalFailure);
    }
  }

  lemma PositionsStep(results: seq<AttemptResult>, p: AttemptResult -> bool)
    requires results != []
    ensures
      var n := |results| - 1;
      |Positions(results, p)| == |Positions(results[..n], p)| + if p(results[n]) then 1 else 0
  {
    var n := |results| - 1;
    assert Positions(results, p) == Positions(results[..n], p) + if p(results[n]) then {n} else {};
  }

  // --- One scan for pending children

  datatype ScanReply = AllKnown | SomePending | ScanFailed

  /** `leaseHasPendingChildren` over the children lo .. hi-1. */
  function Scan(t: Tally, lo: int, hi: int, reader: int -> ReadReply): (Tally, ScanReply)
    decreases hi - lo
  {
    if lo >= hi then (t, AllKnown)
    else if lo in t.terminal then Scan(t, lo + 1, hi, reader)
    else
      match reader(lo)
      case ReadError => (t, ScanFailed)
      case Present(doc) => Scan(RecordExisting(t, lo, doc), lo + 1, hi, reader)
      case Absent => var (t', r) := Scan(t, lo + 1, hi, reader); (t', Seen(r, true))
  }

  function Seen(r: ScanReply, pending: bool): ScanReply { if r.AllKnown? && pending then SomePending else r }

  /** Nothing is forgotten, and what is new was read. */
  ghost predicate Learned(t: Tally, t': Tally, lo: int, hi: int, reader: int -> ReadReply) {
    && t' == t.(terminal := t'.terminal)
    && (forall c :: c in t.terminal ==> c in t'.terminal && t'.terminal[c] == t.terminal[c])
    && (forall c :: c in t'.terminal && c !in t.terminal ==>
      lo <= c < hi && reader(c).Present? && t'.terminal[c] == RecordExisting(t, c, reader(c).doc).terminal[c])
  }

  lemma LearnedFirst(t: Tally, lo: int, hi: int, reader: int -> ReadReply, t': Tally)
    requires lo < hi && lo !in t.terminal && reader(lo).Present?
    requires Learned(RecordExisting(t, lo, reader(lo).doc), t', lo + 1, hi, reader)
    ensures Learned(t, t', lo, hi, reader) && lo in t'.terminal
  {
    assert lo in RecordExisting(t, lo, reader(lo).doc).terminal;
  }

  lemma {:induction false} ScanLearns(t: Tally, lo: int, hi: int, reader: int -> ReadReply)
    ensures Learned(t, Scan(t, lo, hi, reader).0, lo, hi, reader)
    decreases hi - lo
  {
    if lo < hi {
      if lo in t.terminal || reader(lo).Absent? {
        ScanLearns(t, lo + 1, hi, reader);
      } else if reader(lo).Present? {
        ScanLearns(RecordExisting(t, lo, reader(lo).doc), lo + 1, hi, reader);
        LearnedFirst(t, lo, hi, reader, Scan(RecordExisting(t, lo, reader(lo).doc), lo + 1, hi, reader).0);
      }
    }
  }

  /** What a reply of the scan means for the children lo .. hi-1. */
  ghost predicate Replies(t: Tally, t': Tally, r: ScanReply, lo: int, hi: int, reader: int -> ReadReply) {
    && (r.AllKnown? <==> forall c :: lo <= c < hi ==> c in t'.terminal)
    && (r.SomePending? ==> exists c :: lo <= c < hi && c !in t'.terminal && reader(c).Absent?)
    && (r.ScanFailed? <==> exists c :: lo <= c < hi && c !in t.terminal && reader(c).ReadError?)
  }

  lemma KnownFirst(t: Tally, t': Tally, r: ScanReply, lo: int, hi: int, reader: int -> ReadReply)
    requires lo < hi && lo in t.terminal && lo in t'.terminal && Replies(t, t', r, lo + 1, hi, reader)
    ensures Replies(t, t', r, lo, hi, reader)
  {
  }

  lemma FoundFirst(t: Tally, t': Tally, r: ScanReply, lo: int, hi: int, reader: int -> ReadReply)
    requires lo < hi && lo !in t.terminal && lo in t'.terminal && reader(lo).Present?
    requires Replies(RecordExisting(t, lo, reader(lo).doc), t', r, lo + 1, hi, reader)
    ensures Replies(t, t', r, lo, hi, reader)
  {
    var after := RecordExisting(t, lo, reader(lo).doc);
    assert forall c :: c in after.terminal <==> c in t.terminal || c == lo;
  }

  lemma AbsentFirst(t: Tally, t': Tally, r: ScanReply, lo: int, hi: int, reader: int -> ReadReply)
    requires lo < hi && lo !in t.terminal && lo !in t'.terminal && reader(lo).Absent?
    requires Replies(t, t', r, lo + 1, hi, reader)
    ensures Replies(t, t', Seen(r, true), lo, hi, reader)
  {
  }

  /** A scan ends knowing every child, or finds one whose document is absent, or fails on a read. */
  lemma {:induction false} ScanMeaning(t: Tally, lo: int, hi: int, reader: int -> ReadReply)
    ensures
      var (t', r) := Scan(t, lo, hi, reader);
      Learned(t, t', lo, hi, reader) && Replies(t, t', r, lo, hi, reader)
    decreases hi - lo
  {
    ScanLearns(t, lo, hi, reader);
    if lo < hi {
      var (t', r) := Scan(t, lo, hi, reader);
      if lo in t.terminal {
        ScanMeaning(t, lo + 1, hi, reader);
        KnownFirst(t, t', r, lo, hi, reader);
      } else {
        match reader(lo)
        case ReadError =>
        case Absent =>
          ScanMeaning(t, lo + 1, hi, reader);
          AbsentFirst(t, t', Scan(t, lo + 1, hi, reader).1, lo, hi, reader);
        case Present(doc) =>
          ScanMeaning(RecordExisting(t, lo, doc), lo + 1, hi, reader);
          FoundFirst(t, t', r, lo, hi, reader);
      }
    }
  }

  // --- The summary

  datatype RuntimeSummary = RuntimeSummary(
      runID: string, succeeded: bool, childCount: int, shardCount: int, assignedChildren: int, assignedShards: int,
      attemptCount: nat, completedChildren: nat, succeededChildren: nat, failedChildren: nat, skippedChildren: nat,
      platformMismatches: nat, nonTerminalFailures: nat, leaseErrors: nat)

  /** The children among `within` whose known outcome has the given status. */
  function Among(terminal: map<int, AttemptResult>, within: set<int>, status: AttemptStatus): set<int> {
    set c | c in within && c in terminal && terminal[c].status == status
  }

  lemma AmongStep(terminal: map<int, AttemptResult>, within: set<int>, child: int, status: AttemptStatus)
    requires child in terminal && child !in within
    ensures |Among(terminal, within + {child}, status)| ==
            |Among(terminal, within, status)| + if terminal[child].status == status then 1 else 0
  {
    assert Among(terminal, within + {child}, status) ==
           Among(terminal, within, status) + if terminal[child].status == status then {child} else {};
  }

  ghost predicate CountedAmong(terminal: map<int, AttemptResult>, within: set<int>, succeeded: nat, failed: nat,
      skipped: nat) {
    && succeeded == |Among(terminal, within, Succeeded)|
    && failed == |Among(terminal, within, Failed)|
    && skipped == |Among(terminal, within, SkippedTerminalExists)|
  }

  lemma CountOneMore(terminal: map<int, AttemptResult>, within: set<int>, child: int, succeeded: nat, failed: nat,
      skipped: nat)
    requires child in terminal && child !in within && CountedAmong(terminal, within, succeeded, failed, skipped)
    ensures
      var status := terminal[child].status;
      CountedAmong(terminal, within + {child}, succeeded + (if status.Succeeded? then 1 else 0),
        failed + (if status.Failed? then 1 else 0),
        skipped + (if status.SkippedTerminalExists? then 1 else 0))
  {
    AmongStep(terminal, within, child, Succeeded);
    AmongStep(terminal, within, child, Failed);
    AmongStep(terminal, within, child, SkippedTerminalExists);
  }

  lemma Inhabited(s: set<int>)
    requires s != {}
    ensures exists c :: c in s
  {
    assert (forall c :: c !in s) ==> s == {};
  }

  ghost predicate Summarizes(run: BundleRun, plan: Plan, t: Tally, leaseErrors: nat, error: bool, s: RuntimeSummary) {
    && s.runID == run.runID && s.childCount == run.children.count
    && s.shardCount == plan.summary.shardCount && s.assignedChildren == plan.summary.assignedChildren &&
      s.assignedShards == plan.summary.assignedShards
    && s.completedChildren == |t.terminal.Keys|
    && s.succeededChildren == |Among(t.terminal, t.terminal.Keys, Succeeded)|
    && s.failedChildren == |Among(t.terminal, t.terminal.Keys, Failed)|
    && s.skippedChildren == |Among(t.terminal, t.terminal.Keys, SkippedTerminalExists)|
    && s.attemptCount == t.attemptCount && s.platformMismatches == t.platformMismatches
    && s.nonTerminalFailures == t.nonTerminalFailures
    && s.leaseErrors == leaseErrors
    && (s.succeeded <==>
          !error && s.completedChildren == s.childCount && s.failedChildren == 0 && s.platformMismatches == 0)
  }

  class RuntimeState {
    var terminal: map<int, AttemptResult>
    var attemptCount: nat
    var platformMismatches: nat
    var nonTerminalFailures: nat
    var leaseErrors: nat

    function Now(): Tally
      reads this
    {
      Tally(terminal, attemptCount, platformMismatches, nonTerminalFailures)
    }

    constructor ()
      ensures Now() == NEW_TALLY && leaseErrors == 0
    {
      terminal, attemptCount, platformMismatches, nonTerminalFailures, leaseErrors := map[], 0, 0, 0, 0;
    }

    method RecordExistingTerminal(child: int, doc: AttemptResult)
      modifies `terminal
      ensures Now() == RecordExisting(old(Now()), child, doc)
    {
      if child in terminal {
        return;
      }
      var result := doc;
      if result.status.NoStatus? {
        result := result.(status := SkippedTerminalExists);
      }
      terminal := terminal[child := result];
    }

    method RecordResults(results: seq<AttemptResult>)
      modifies `terminal, `attemptCount, `platformMismatches, `nonTerminalFailures
      ensures Now() == RecordAll(old(Now()), results)
    {
      for i := 0 to |results|
        invariant Now() == RecordAll(old(Now()), results[..i])
      {
        assert results[..i + 1][..i] == results[..i];
        var result := results[i];
        if result.attemptID == "" {
          continue;
        }
        attemptCount := attemptCount + 1;
        if result.status.PlatformMismatch? { platformMismatches := platformMismatches + 1; }
        if result.status.Failed? && !result.terminal { nonTerminalFailures := nonTerminalFailures + 1; }
        if !result.terminal || (result.childID in terminal && result.status.SkippedTerminalExists?) {
          continue;
        }
        terminal := terminal[result.childID := result];
      }
      assert results[..|results|] == results;
    }

    method Summary(run: BundleRun, plan: Plan, error: bool) returns (s: RuntimeSummary)
      ensures Summarizes(run, plan, Now(), leaseErrors, error, s)
    {
      var succeeded: nat, failed: nat, skipped: nat := 0, 0, 0;
      var rest := terminal.Keys;
      ghost var done: set<int> := {};
      while rest != {}
        invariant done + rest == terminal.Keys
        invariant forall c :: c in done ==> c !in rest
        invariant CountedAmong(terminal, done, succeeded, failed, skipped)
        decreases |rest|
      {
        Inhabited(rest);
        var child :| child in rest;
        CountOneMore(terminal, done, child, succeeded, failed, skipped);
        match terminal[child].status {
          case Succeeded => succeeded := succeeded + 1;
          case Failed => failed := failed + 1;
          case SkippedTerminalExists => skipped := skipped + 1;
          case _ =>
        }
        rest, done := rest - {child}, done + {child};
      }
      assert done == terminal.Keys;
      var bad := error || |terminal| != run.children.count || failed > 0 || platformMismatches > 0;
      s := RuntimeSummary(
        run.runID, !bad, run.children.count, plan.summary.shardCount, plan.summary.assignedChildren,
          plan.summary.assignedShards,
        attemptCount, |terminal|, succeeded, failed, skipped, platformMismatches, nonTerminalFailures, leaseErrors);
    }

    method LeaseHasPendingChildren(lease: ShardLease, reader: int -> ReadReply) returns (reply: ScanReply)
      modifies `terminal
      ensures (Now(), reply) == Scan(old(Now()), lease.childStart, lease.Range().End(), reader)
    {
      var pending := false;
      var end := lease.Range().End();
      var child: int := lease.childStart;
      while child < end
        invariant
          var whole, rest := Scan(old(Now()), lease.childStart, end, reader), Scan(Now(), child, end, reader);
          whole == (rest.0, Seen(rest.1, pending))
        invariant attemptCount == old(attemptCount) && platformMismatches == old(platformMismatches)
        invariant nonTerminalFailures == old(nonTerminalFailures)
        decreases end - child
      {
        if child !in terminal {
          match reader(child) {
            case ReadError => return ScanFailed;
            case Present(doc) => RecordExistingTerminal(child, doc);
            case Absent => pending := true;
          }
        }
        child := child + 1;
      }
      return if pending then SomePending else AllKnown;
    }
  }
}
