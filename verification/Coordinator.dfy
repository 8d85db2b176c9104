/** A whole run: admission, planning, the retry loop and the report. */
module Coordinator {
  import opened Text
  import opened Contracts
  import opened Collections
  import opened ResultStore
  import opened Planner
  import opened RuntimeStates
  import opened RetryLoop

  datatype RunError =
    | RunRejected
    | InspectionFailed
    | MetadataMismatch
    | NotPlanned(why: PlanError)
    | LeaseFailed(cause: LeaseError)

  datatype RuntimeReport = RuntimeReport(plan: Option<Plan>, summary: Option<RuntimeSummary>)

  /** The loop of a planned run. */
  function LeaseRunOf(lease: ShardLease, executors: set<string>, env: Env): LeaseRun {
    if lease.agentID in executors then Lease(lease, env, NEW_TALLY, 1)
      else LeaseRun(NEW_TALLY, Some(ExecutorMissing), [])
  }

  ghost predicate RunOutcome(
      run: BundleRun, agents: seq<AgentStatus>, executors: set<string>, inspection: Option<BundleInspection>, env: Env,
      report: RuntimeReport, error: Option<RunError>) {
    var admitted := run.Valid() && inspection.Some? && inspection.value.Valid(run);
    match report.summary
    case Some(s) =>
      && admitted && report.plan.Some? && report.plan.value.lease.Some? && Planned(run, agents, report.plan.value, None)
      && var done := LeaseRunOf(report.plan.value.lease.value, executors, env);
         && Summarizes(run, report.plan.value, done.tally, if done.error.Some? then 1 else 0, done.error.Some?, s)
         && error == (if done.error.Some? then Some(LeaseFailed(done.error.value)) else None)
    case None =>
      match error
      case None => false
      case Some(RunRejected) => !run.Valid()
      case Some(InspectionFailed) => run.Valid() && inspection.None?
      case Some(MetadataMismatch) => run.Valid() && inspection.Some? && !inspection.value.Valid(run)
      case Some(NotPlanned(why)) => admitted && report.plan.Some? && Planned(run, agents, report.plan.value, Some(why))
      case Some(LeaseFailed(_)) => false
  }

  class Coordinator {
    const agents: seq<AgentStatus>
    const executors: set<string>

    constructor (agents: seq<AgentStatus>, executors: set<string>)
      ensures this.agents == agents && this.executors == executors
    {
      this.agents, this.executors := agents, executors;
    }

    /** `inspection` is what the bundle inspector answers, if it answers. */
    method Run(run: BundleRun, inspection: Option<BundleInspection>, env: Env)
        returns (report: RuntimeReport, error: Option<RunError>)
      ensures RunOutcome(run, agents, executors, inspection, env, report, error)
    {
      if !run.Valid() {
        return RuntimeReport(None, None), Some(RunRejected);
      }
      if inspection.None? {
        return RuntimeReport(None, None), Some(InspectionFailed);
      }
      if !inspection.value.Valid(run) {
        return RuntimeReport(None, None), Some(MetadataMismatch);
      }
      var plan, refused := BuildSingleAgentSequentialPlan(run, agents);
      if refused.Some? {
        return RuntimeReport(Some(plan), None), Some(NotPlanned(refused.value));
      }
      var state := new RuntimeState();
      var failed, calls := RunLease(plan.lease.value, executors, env, state);
      if failed.Some? { state.leaseErrors := state.leaseErrors + 1; }
      var s := state.Summary(run, plan, failed.Some?);
      report := RuntimeReport(Some(plan), Some(s));
      error := if failed.Some? then Some(LeaseFailed(failed.value)) else None;
    }
  }

  /** Which of the outcomes a run has: refused before planning for the first of its contract, the inspection and the
      bundle's metadata that fails, then by the planner; else there is a summary, and an error exactly if the loop over
      the lease ended with one. */
  lemma RunOutcomeIff(run: BundleRun, agents: seq<AgentStatus>, executors: set<string>,
      inspection: Option<BundleInspection>, env: Env, report: RuntimeReport, error: Option<RunError>)
    requires RunOutcome(run, agents, executors, inspection, env, report, error)
    ensures error == Some(RunRejected) <==> !run.Valid()
    ensures error == Some(InspectionFailed) <==> run.Valid() && inspection.None?
    ensures error == Some(MetadataMismatch) <==>
      && run.Valid() && inspection.Some?
      && (inspection.value.digest != run.bundle.digest || inspection.value.childCount < run.children.End() ||
          (inspection.value.hostClass.id != "" && inspection.value.hostClass != run.hostClass))
    ensures error.Some? && (error.value.RunRejected? || error.value.InspectionFailed? || error.value.MetadataMismatch?)
      ==> report.summary.None?
    ensures report.summary.Some? ==>
      var lease := report.plan.value.lease.value;
      && (error == Some(LeaseFailed(ExecutorMissing)) <==> lease.agentID !in executors)
      && (lease.agentID in executors ==>
            && (error.None? <==> Lease(lease, env, NEW_TALLY, 1).error.None?)
            && (error.Some? ==>
                  error.value.LeaseFailed? && Lease(lease, env, NEW_TALLY, 1).error == Some(error.value.cause)))
  {
    if report.summary.Some? { NotMissing(report.plan.value.lease.value, env, NEW_TALLY, 1); }
  }

  lemma {:induction false} NotMissing(lease: ShardLease, env: Env, t: Tally, attempt: nat)
    ensures Lease(lease, env, t, attempt).error != Some(ExecutorMissing)
    decreases lease.attemptBudget - attempt
  {
    var r := RoundOf(lease, env, t, attempt);
    if Ending(lease, env, t, attempt, r).None? { NotMissing(lease, env, r.after, attempt + 1); }
  }

  /** What executors and stores owe the coordinator: a terminal result or document is about a child of the run
      and has one of the statuses a child can end with; only a mismatch report may differ. */
  ghost predicate HonestReports(run: BundleRun, env: Env) {
    forall n: nat, i: nat :: i < |env.replies(n).results| ==> HonestReport(run, env.replies(n).results[i])
  }

  predicate HonestReport(run: BundleRun, r: AttemptResult) {
    Counted(r) && r.terminal ==> run.children.Contains(r.childID) && (Ends(r.status) || r.status.PlatformMismatch?)
  }

  predicate Ends(status: AttemptStatus) { status.Succeeded? || status.Failed? || status.SkippedTerminalExists? }

  ghost predicate HonestReads(run: BundleRun, env: Env) {
    forall scan: nat, c :: run.children.Contains(c) && env.reader(scan, c).Present? ==>
      Ends(env.reader(scan, c).doc.status) || env.reader(scan, c).doc.status.NoStatus?
  }

  lemma {:induction false} InAllResults(env: Env, from: nat, count: nat, k: nat, i: nat) returns (j: nat)
    requires from <= k < from + count && i < |env.replies(k).results|
    ensures j < |AllResults(env, from, count)| && AllResults(env, from, count)[j] == env.replies(k).results[i]
    decreases count
  {
    if k == from {
      j := i;
    } else {
      var rest := InAllResults(env, from + 1, count - 1, k, i);
      j := |env.replies(from).results| + rest;
    }
  }

  /** With no mismatch counted, every reported terminal result has one of the three statuses. */
  lemma ReportedEnds(run: BundleRun, lease: ShardLease, env: Env, child: int, v: AttemptResult)
    requires HonestReports(run, env)
    requires
      var done := Lease(lease, env, NEW_TALLY, 1);
      done.tally.platformMismatches == 0 && WasReported(env, 1, |done.calls|, child, v)
    ensures run.children.Contains(child) && Ends(v.status)
  {
    var done := Lease(lease, env, NEW_TALLY, 1);
    LeaseCounts(lease, env, NEW_TALLY, 1);
    var k: nat :| 1 <= k < 1 + |done.calls| && v in env.replies(k).results && Reports(v, child);
    var i: nat :| i < |env.replies(k).results| && env.replies(k).results[i] == v;
    assert HonestReport(run, env.replies(k).results[i]);
    var j := InAllResults(env, 1, |done.calls|, k, i);
    var mismatches := Positions(AllResults(env, 1, |done.calls|), Mismatch);
    assert v.status.PlatformMismatch? ==> j in mismatches;
  }

  /** The children known at the end of a run are children of the run, and each ended in one of three ways. */
  lemma KnownChildren(run: BundleRun, lease: ShardLease, env: Env, child: int)
    requires HonestReports(run, env) && HonestReads(run, env) && lease.Range() == run.children
    requires Lease(lease, env, NEW_TALLY, 1).tally.platformMismatches == 0
    requires child in Lease(lease, env, NEW_TALLY, 1).tally.terminal
    ensures run.children.Contains(child) && Ends(Lease(lease, env, NEW_TALLY, 1).tally.terminal[child].status)
  {
    var done := Lease(lease, env, NEW_TALLY, 1);
    LeaseExplained(lease, env, NEW_TALLY, 1);
    var v := done.tally.terminal[child];
    if WasReported(env, 1, |done.calls|, child, v) {
      ReportedEnds(run, lease, env, child, v);
    } else {
      assert InLease(lease, child) && WasRead(env, child, v);
    }
  }

  /** A report that says "succeeded" accounts for every child of the run exactly once: the known children are
      the whole range, and completed = succeeded + failed + skipped = the child count, with no failure. */
  lemma SucceededReport(run: BundleRun, agents: seq<AgentStatus>, executors: set<string>,
      inspection: Option<BundleInspection>,
      env: Env, report: RuntimeReport, error: Option<RunError>)
    requires RunOutcome(run, agents, executors, inspection, env, report, error) && report.summary.Some?
    requires report.summary.value.succeeded
    requires HonestReports(run, env) && HonestReads(run, env)
    ensures
      var s, lease := report.summary.value, report.plan.value.lease.value;
      && error.None?
      && s.completedChildren == s.succeededChildren + s.failedChildren + s.skippedChildren == run.children.count
      && s.failedChildren == 0
      && (forall c :: c in Lease(lease, env, NEW_TALLY, 1).tally.terminal <==> run.children.Contains(c))
  {
    var lease := report.plan.value.lease.value;
    var done := Lease(lease, env, NEW_TALLY, 1);
    assert lease.Range() == run.children;
    var known := done.tally.terminal.Keys;
    forall c | c in known
      ensures c in Range(run.children.start, run.children.End()) && Ends(done.tally.terminal[c].status)
    {
      KnownChildren(run, lease, env, c);
    }
    ThreeEnds(done.tally.terminal);
    WholeRange(run.children, known);
  }

  lemma ThreeEnds(terminal: map<int, AttemptResult>)
    requires forall c :: c in terminal ==> Ends(terminal[c].status)
    ensures |terminal.Keys| ==
      |Among(terminal, terminal.Keys, Succeeded)| + |Among(terminal, terminal.Keys, Failed)| +
      |Among(terminal, terminal.Keys, SkippedTerminalExists)|
  {
    var a, b, c := Among(terminal, terminal.Keys, Succeeded), Among(terminal, terminal.Keys, Failed),
      Among(terminal, terminal.Keys, SkippedTerminalExists);
    forall k | k in terminal ensures k in a + b + c { assert Ends(terminal[k].status); }
    assert terminal.Keys == a + b + c;
  }

  /** A range with as many known children as it says it has is wholly known. */
  lemma WholeRange(r: ChildRange, known: set<int>)
    requires r.Valid() && known <= Range(r.start, r.End()) && |known| == r.count
    ensures known == Range(r.start, r.End())
  {
    RangeHoldsItsChildren(r);
    RangeSize(r.start, r.End());
    SubsetSize(known, Range(r.start, r.End()));
    var missing := Range(r.start, r.End()) - known;
    assert Range(r.start, r.End()) == known + missing;
  }
}
