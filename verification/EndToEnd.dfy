/** The coordinator's report against the store that it and its agents share. */
module EndToEnd {
  import opened Text
  import opened Contracts
  import opened ResultLayout
  import opened ResultStore
  import opened Attempts
  import opened CommitProtocol
  import opened Races
  import opened Planner
  import opened RuntimeStates
  import opened RetryLoop
  import opened Coordinator
  import opened ShardReplies
  import ShardPool

  /** A document the coordinator read was in the store at some point of the run. */
  ghost predicate ReadFrom(trace: seq<State>, c: int, reply: ReadReply)
    requires trace != []
  {
    exists k: nat :: k < |trace| && ReadTerminal(trace[k].docs, trace[0].run, c, NoFault) == reply
  }

  /** At this point of the run the attempt has returned the result. */
  ghost predicate ReturnedAt(trace: seq<State>, k: nat, o: nat, r: AttemptResult) {
    k < |trace| && o in trace[k].ops && trace[k].ops[o].Returned? && trace[k].ops[o].reply.result == r
  }

  /** A result an executor reported is what some attempt returned. */
  ghost predicate ReturnedBy(trace: seq<State>, r: AttemptResult) {
    exists k: nat, o: nat :: ReturnedAt(trace, k, o, r)
  }

  /** And that attempt's own commit call had not failed. */
  ghost predicate ReturnedCleanly(trace: seq<State>, r: AttemptResult) {
    exists k: nat, o: nat :: ReturnedAt(trace, k, o, r) && trace[k].ops[o].reply.err != Some(CommitFailed)
  }

  /** What the coordinator finds in the store was there. */
  ghost predicate ReadsTheStore(trace: seq<State>, env: Env)
    requires trace != []
  {
    forall scan: nat, c :: trace[0].run.children.Contains(c) && env.reader(scan, c).Present? ==>
      ReadFrom(trace, c, env.reader(scan, c))
  }

  /** The coordinator and the agents work on one store. */
  ghost predicate OneStore(trace: seq<State>, env: Env)
    requires trace != []
  {
    && ReadsTheStore(trace, env)
    && (forall n: nat, i: nat :: i < |env.replies(n).results| && Counted(env.replies(n).results[i]) ==>
      ReturnedBy(trace, env.replies(n).results[i]))
  }

  function Last(trace: seq<State>): State
    requires trace != []
  {
    trace[|trace| - 1]
  }

  /** No terminal result that was reported came with a failed commit call. Other attempts' calls may have failed. */
  ghost predicate CleanReports(trace: seq<State>, env: Env) {
    forall n: nat, i: nat :: i < |env.replies(n).results| ==> CleanReport(trace, env.replies(n).results[i])
  }

  ghost predicate CleanReport(trace: seq<State>, r: AttemptResult) {
    Counted(r) && r.terminal ==> ReturnedCleanly(trace, r)
  }

  function StoredDoc(s: State, c: int): Option<AttemptResult> {
    if c >= 0 && TerminalURI(s.run, c) in s.docs then Some(s.docs[TerminalURI(s.run, c)]) else None
  }

  /** What is known of a child has a committed document behind it, which it equals, but for the time of the commit
      call, unless it is a skip or a reported failure. */
  ghost predicate Backed(s: State, c: int, v: AttemptResult) {
    && StoredDoc(s, c).Some? && CommittedDoc(s.run, c, StoredDoc(s, c).value)
    && Ends(v.status)
    && (v.status.Succeeded? ==> SameButCommitTime(StoredDoc(s, c).value, v))
  }

  lemma LaterKeeps(trace: seq<State>, k: nat, c: int, v: AttemptResult)
    requires Execution(trace) && k < |trace| && Backed(trace[k], c, v)
    ensures Backed(Last(trace), c, v)
  {
    GrowsToLast(trace, k);
    GrowingKeeps(trace[k], Last(trace), c, v);
  }

  lemma GrowsToLast(trace: seq<State>, k: nat)
    requires Execution(trace) && k < |trace|
    ensures Grows(trace[k], Last(trace))
  {
    NothingIsOverwritten(trace, k, |trace| - 1);
  }

  lemma GrowingKeeps(s: State, t: State, c: int, v: AttemptResult)
    requires Grows(s, t) && Backed(s, c, v)
    ensures Backed(t, c, v)
  {
    assert StoredDoc(t, c) == StoredDoc(s, c);
  }

  lemma ReadIsBacked(trace: seq<State>, c: int, reply: ReadReply)
    requires Execution(trace) && reply.Present? && ReadFrom(trace, c, reply)
    ensures Backed(Last(trace), c, reply.doc)
  {
    var k: nat :| k < |trace| && ReadTerminal(trace[k].docs, trace[0].run, c, NoFault) == reply;
    InvAlways(trace, k);
    assert DocInv(trace[k], c);
    LaterKeeps(trace, k, c, reply.doc);
  }

  lemma ReportIsBacked(trace: seq<State>, r: AttemptResult)
    requires Execution(trace) && ReturnedCleanly(trace, r) && r.terminal
    ensures trace[0].run.children.Contains(r.childID) && Backed(Last(trace), r.childID, r)
  {
    var k: nat, o: nat :| ReturnedAt(trace, k, o, r) && trace[k].ops[o].reply.err != Some(CommitFailed);
    ReturnIsBacked(trace, k, o, r);
    LaterKeeps(trace, k, r.childID, r);
  }

  lemma ReturnIsBacked(trace: seq<State>, k: nat, o: nat, r: AttemptResult)
    requires Execution(trace) && ReturnedAt(trace, k, o, r) && r.terminal
    requires trace[k].ops[o].reply.err != Some(CommitFailed)
    ensures trace[0].run.children.Contains(r.childID) && Backed(trace[k], r.childID, r)
  {
    InvAlways(trace, k);
    ReturnedTerminalIsStored(trace, k, o);
  }

  lemma SharedStoreIsHonest(trace: seq<State>, env: Env)
    requires Execution(trace) && OneStore(trace, env) && CleanReports(trace, env)
    ensures HonestReports(trace[0].run, env) && HonestReads(trace[0].run, env)
  {
    forall n: nat, i: nat | i < |env.replies(n).results| ensures HonestReport(trace[0].run, env.replies(n).results[i]) {
      var r := env.replies(n).results[i];
      assert CleanReport(trace, r);
      if Counted(r) && r.terminal { ReportIsBacked(trace, r); }
    }
    forall scan: nat, c | trace[0].run.children.Contains(c) && env.reader(scan, c).Present?
      ensures Ends(env.reader(scan, c).doc.status)
    {
      ReadIsBacked(trace, c, env.reader(scan, c));
    }
  }

  lemma KnownIsBacked(trace: seq<State>, env: Env, lease: ShardLease, c: int)
    requires Execution(trace) && OneStore(trace, env) && CleanReports(trace, env)
    requires lease.Range() == trace[0].run.children && c in Lease(lease, env, NEW_TALLY, 1).tally.terminal
    ensures Backed(Last(trace), c, Lease(lease, env, NEW_TALLY, 1).tally.terminal[c])
  {
    var done := Lease(lease, env, NEW_TALLY, 1);
    var v := done.tally.terminal[c];
    LeaseExplained(lease, env, NEW_TALLY, 1);
    if WasReported(env, 1, |done.calls|, c, v) {
      var k: nat :| 1 <= k < 1 + |done.calls| && v in env.replies(k).results && Reports(v, c);
      var i: nat :| i < |env.replies(k).results| && env.replies(k).results[i] == v;
      assert CleanReport(trace, env.replies(k).results[i]);
      ReportIsBacked(trace, v);
    } else {
      var scan: nat, doc :| env.reader(scan, c) == Present(doc) &&
        v == (if doc.status.NoStatus? then doc.(status := SkippedTerminalExists) else doc);
      ReadIsBacked(trace, c, env.reader(scan, c));
    }
  }

  /** If the coordinator and its agents share the store and no reported terminal result came with a failed commit
      call, a report that says "succeeded" means that every child of the run has a terminal document in the store,
      and the outcome the coordinator counted as a success is that document but for the time of the commit call. */
  lemma SucceededMeansStored(trace: seq<State>, agents: seq<AgentStatus>, executors: set<string>,
      inspection: Option<BundleInspection>, env: Env, report: RuntimeReport, error: Option<RunError>)
    requires Execution(trace) && OneStore(trace, env) && CleanReports(trace, env)
    requires RunOutcome(trace[0].run, agents, executors, inspection, env, report, error)
    requires report.summary.Some? && report.summary.value.succeeded
    ensures
      var run, s, known := trace[0].run, report.summary.value,
        Lease(report.plan.value.lease.value, env, NEW_TALLY, 1).tally.terminal;
      && (forall c :: run.children.Contains(c) ==> c in known && Backed(Last(trace), c, known[c]))
      && s.completedChildren == s.succeededChildren + s.skippedChildren == run.children.count
  {
    var run, lease := trace[0].run, report.plan.value.lease.value;
    SharedStoreIsHonest(trace, env);
    SucceededReport(run, agents, executors, inspection, env, report, error);
    var known := Lease(lease, env, NEW_TALLY, 1).tally.terminal;
    forall c | run.children.Contains(c)
      ensures Backed(Last(trace), c, known[c])
    {
      KnownIsBacked(trace, env, lease, c);
    }
  }

  /** When, besides, no child was skipped, every stored document is a success. With a skip it need not be: see
      `SkipHidesFailure`. */
  lemma SucceededWithoutSkips(trace: seq<State>, agents: seq<AgentStatus>, executors: set<string>,
      inspection: Option<BundleInspection>, env: Env, report: RuntimeReport, error: Option<RunError>)
    requires Execution(trace) && OneStore(trace, env) && CleanReports(trace, env)
    requires RunOutcome(trace[0].run, agents, executors, inspection, env, report, error)
    requires report.summary.Some? && report.summary.value.succeeded && report.summary.value.skippedChildren == 0
    ensures forall c :: trace[0].run.children.Contains(c) ==>
      StoredDoc(Last(trace), c).Some? && StoredDoc(Last(trace), c).value.status.Succeeded?
  {
    SucceededMeansStored(trace, agents, executors, inspection, env, report, error);
    var known := Lease(report.plan.value.lease.value, env, NEW_TALLY, 1).tally.terminal;
    forall c | trace[0].run.children.Contains(c) ensures StoredDoc(Last(trace), c).value.status.Succeeded? {
      assert Backed(Last(trace), c, known[c]);
      assert c !in Among(known, known.Keys, Failed) && c !in Among(known, known.Keys, SkippedTerminalExists);
    }
  }

  // --- The coordinator's calls as runs of RunShard over the same store

  /** The reply to attempt n comes from attempts in this store. */
  ghost predicate CallsAnswered(s: State, lease: ShardLease, env: Env) {
    forall n: nat :: Answers(s, lease, n, env.replies(n))
  }

  /** The agent itself replied without an error, or no attempt of the call came back from a failed commit call. */
  ghost predicate CleanCall(s: State, shard: ShardRun, reply: ShardReply) {
    (shard.pool.phase.Joined? && reply == LocalReply(s, shard) && !reply.failed) || NoFailedCommit(s, shard)
  }

  ghost predicate NoFailedCommit(s: State, shard: ShardRun) {
    forall c :: c in shard.attempts && RanAttempt(s, shard, c, shard.attempts[c]) ==>
      s.ops[shard.attempts[c]].reply.err != Some(CommitFailed)
  }

  ghost predicate AnsweredCleanly(s: State, lease: ShardLease, n: nat, reply: ShardReply) {
    reply == REFUSED || exists shard :: ReplyOf(s, shard, lease, n, reply) && CleanCall(s, shard, reply)
  }

  ghost predicate CallsAnsweredCleanly(s: State, lease: ShardLease, env: Env) {
    forall n: nat :: AnsweredCleanly(s, lease, n, env.replies(n))
  }

  lemma CallsShareTheStore(trace: seq<State>, env: Env, lease: ShardLease)
    requires trace != [] && ReadsTheStore(trace, env) && CallsAnswered(Last(trace), lease, env)
    ensures OneStore(trace, env)
  {
    forall n: nat, i: nat | i < |env.replies(n).results| && Counted(env.replies(n).results[i])
      ensures ReturnedBy(trace, env.replies(n).results[i])
    {
      assert Answers(Last(trace), lease, n, env.replies(n));
      var o := CountedComesFromAttempt(Last(trace), lease, n, env.replies(n), i);
      assert ReturnedAt(trace, |trace| - 1, o, env.replies(n).results[i]);
    }
  }

  lemma CleanCallsAreAnswered(s: State, lease: ShardLease, env: Env)
    requires CallsAnsweredCleanly(s, lease, env)
    ensures CallsAnswered(s, lease, env)
  {
    forall n: nat ensures Answers(s, lease, n, env.replies(n)) {
      assert AnsweredCleanly(s, lease, n, env.replies(n));
    }
  }

  lemma CleanCallIsClean(trace: seq<State>, lease: ShardLease, n: nat, reply: ShardReply, i: nat)
    requires Execution(trace) && AnsweredCleanly(Last(trace), lease, n, reply) && i < |reply.results|
    ensures CleanReport(trace, reply.results[i])
  {
    if Counted(reply.results[i]) {
      LastInv(trace);
      var o := CleanResult(Last(trace), lease, n, reply, i);
      CleanAtLast(trace, o, reply.results[i]);
    }
  }

  lemma LastInv(trace: seq<State>)
    requires Execution(trace)
    ensures Inv(Last(trace)) && Last(trace).run == trace[0].run
  {
    InvAlways(trace, |trace| - 1);
  }

  lemma CleanResult(s: State, lease: ShardLease, n: nat, reply: ShardReply, i: nat) returns (o: nat)
    requires Inv(s) && AnsweredCleanly(s, lease, n, reply) && i < |reply.results| && Counted(reply.results[i])
    ensures FromAttempt(s, lease, n, i, o, reply.results[i]) && s.ops[o].reply.err != Some(CommitFailed)
  {
    var shard :| ReplyOf(s, shard, lease, n, reply) && CleanCall(s, shard, reply);
    o := CleanAttempt(s, shard, lease, n, reply, i);
  }

  lemma CleanAtLast(trace: seq<State>, o: nat, r: AttemptResult)
    requires trace != [] && ReturnedAt(trace, |trace| - 1, o, r) && Last(trace).ops[o].reply.err != Some(CommitFailed)
    ensures ReturnedCleanly(trace, r)
  {
  }

  lemma CleanAttempt(s: State, shard: ShardRun, lease: ShardLease, n: nat, reply: ShardReply, i: nat) returns (o: nat)
    requires Inv(s) && ReplyOf(s, shard, lease, n, reply) && CleanCall(s, shard, reply)
    requires i < |reply.results| && Counted(reply.results[i])
    ensures FromAttempt(s, lease, n, i, o, reply.results[i]) && s.ops[o].reply.err != Some(CommitFailed)
  {
    ResultOrigin(s, shard, i);
    o := shard.attempts[lease.childStart + i];
    if !NoFailedCommit(s, shard) { LocalWithoutError(s, shard, i); }
  }

  /** The coordinator, its agents' workers and the racing attempts together: if every call of the coordinator was
      answered by a run of RunShard over the store that it reads, and each answer either came without an error from
      the agent itself or holds no attempt whose commit call failed, then a report that says "succeeded" means that
      every child of the run has a terminal document in the store, which a counted success equals but for the time
      of the commit call. */
  lemma SucceededOverShards(trace: seq<State>, agents: seq<AgentStatus>, executors: set<string>,
      inspection: Option<BundleInspection>, env: Env, report: RuntimeReport, error: Option<RunError>)
    requires Execution(trace) && ReadsTheStore(trace, env)
    requires RunOutcome(trace[0].run, agents, executors, inspection, env, report, error)
    requires report.summary.Some? && report.summary.value.succeeded
    requires CallsAnsweredCleanly(Last(trace), report.plan.value.lease.value, env)
    ensures
      var run, s, known := trace[0].run, report.summary.value,
        Lease(report.plan.value.lease.value, env, NEW_TALLY, 1).tally.terminal;
      && (forall c :: run.children.Contains(c) ==> c in known && Backed(Last(trace), c, known[c]))
      && s.completedChildren == s.succeededChildren + s.skippedChildren == run.children.count
  {
    var lease := report.plan.value.lease.value;
    CleanCallsAreAnswered(Last(trace), lease, env);
    CallsShareTheStore(trace, env, lease);
    forall n: nat, i: nat | i < |env.replies(n).results| ensures CleanReport(trace, env.replies(n).results[i]) {
      assert AnsweredCleanly(Last(trace), lease, n, env.replies(n));
      CleanCallIsClean(trace, lease, n, env.replies(n), i);
    }
    SucceededMeansStored(trace, agents, executors, inspection, env, report, error);
  }

  // --- Neither hypothesis can be dropped: two concrete runs

  /** Every read finds nothing, and the first call reports the one result. */
  function OneReport(r: AttemptResult): Env {
    Env(_ => false, (_, _) => Absent, n => if n == 1 then ShardReply([r], false) else REFUSED)
  }

  predicate Decisive(r: AttemptResult) {
    Counted(r) && r.terminal && r.childID == 0 && (r.status.Succeeded? || r.status.SkippedTerminalExists?)
  }

  lemma OneReportRun(lease: ShardLease, r: AttemptResult)
    requires lease.childStart == 0 && lease.childCount == 1 && lease.attemptBudget >= 1 && Decisive(r)
    ensures
      var done := Lease(lease, OneReport(r), NEW_TALLY, 1);
      done.error.None? && done.tally.terminal == map[0 := r] && done.tally.platformMismatches == 0
  {
    var env := OneReport(r);
    assert lease.Range().End() == 1;
    var round := RoundOf(lease, env, NEW_TALLY, 1);
    assert Scan(NEW_TALLY, 1, 1, env.ReadsOf(2)) == (NEW_TALLY, AllKnown);
    assert round.before == NEW_TALLY && round.pending == SomePending;
    assert [r][..0] == [];
    assert RecordAll(NEW_TALLY, []) == NEW_TALLY;
    assert round.recorded == RecordOne(NEW_TALLY, r);
    assert 0 in round.recorded.terminal;
    assert Scan(round.recorded, 1, 1, env.ReadsOf(3)) == (round.recorded, AllKnown);
    assert round.after == round.recorded && round.left == AllKnown;
    assert env.replies(1).results == [r] && !HasPlatformMismatch([r]);
    assert Ending(lease, env, NEW_TALLY, 1, round) == Some(LeaseRun(round.after, None, [CallOf(round, 1)]));
  }

  const AGENT: AgentStatus := AgentStatus("ag1", "cell", 1, HOST, 1, 1, [], Pressure(Normal, Normal), true)

  const INSPECTION: BundleInspection := BundleInspection(DIGEST, 1, HOST)

  const PLAN: Plan := Plan(PlanSummary("run", true, 1, 1, 1, 1, 1, 1, 1, 1), Some(FullLease(RUN, "ag1")))

  lemma AgentValid()
    ensures AGENT.Valid() && RUN.children.End() == 1 && Qualifies(RUN, AGENT)
  {
    RunValid();
    AgentIDs();
    assert ValidID("cell");
  }

  lemma OnlyAgent(run: BundleRun, agent: AgentStatus)
    requires Qualifies(run, agent) && !Less(agent.agentID, agent.agentID)
    ensures Chosen(run, [agent], agent)
  {
  }

  lemma AgentIsChosen()
    ensures RUN.Valid() && INSPECTION.Valid(RUN) && Planned(RUN, [AGENT], PLAN, None)
  {
    RunValid();
    AgentIDs();
    AgentValid();
    LessIrreflexive("ag1");
    OnlyAgent(RUN, AGENT);
  }

  /** The report of the run in which the agent's one call reports r. */
  ghost function ReportOf(r: AttemptResult): RuntimeReport {
    var t := Lease(FullLease(RUN, "ag1"), OneReport(r), NEW_TALLY, 1).tally;
    RuntimeReport(Some(PLAN), Some(RuntimeSummary(
      "run", true, 1, 1, 1, 1, t.attemptCount, |t.terminal.Keys|, |Among(t.terminal, t.terminal.Keys, Succeeded)|,
      |Among(t.terminal, t.terminal.Keys, Failed)|, |Among(t.terminal, t.terminal.Keys, SkippedTerminalExists)|,
      t.platformMismatches, t.nonTerminalFailures, 0)))
  }

  lemma OneReportSucceeds(r: AttemptResult)
    requires Decisive(r)
    ensures RunOutcome(RUN, [AGENT], {"ag1"}, Some(INSPECTION), OneReport(r), ReportOf(r), None)
    ensures ReportOf(r).summary.value.skippedChildren == if r.status.SkippedTerminalExists? then 1 else 0
  {
    AgentIsChosen();
    OneReportRun(FullLease(RUN, "ag1"), r);
    var known := map[0 := r];
    assert known.Keys == {0};
    assert Among(known, {0}, Failed) == {};
    assert Among(known, {0}, SkippedTerminalExists) == if r.status.SkippedTerminalExists? then {0} else {};
  }

  /** What the coordinator read, an absence too, is what the store held at some point. */
  ghost predicate EveryReadFrom(trace: seq<State>, env: Env)
    requires trace != []
  {
    forall scan: nat, c :: trace[0].run.children.Contains(c) ==> ReadFrom(trace, c, env.reader(scan, c))
  }

  lemma OneReportFrom(trace: seq<State>, k: nat, o: nat, r: AttemptResult)
    requires trace != [] && trace[0] == Fresh(RUN) && ReturnedAt(trace, k, o, r)
    ensures OneStore(trace, OneReport(r)) && EveryReadFrom(trace, OneReport(r))
    ensures trace[k].ops[o].reply.err != Some(CommitFailed) ==> CleanReports(trace, OneReport(r))
  {
    RunValid();
    forall scan: nat, c | RUN.children.Contains(c) ensures ReadFrom(trace, c, OneReport(r).reader(scan, c)) {
      assert ReadTerminal(trace[0].docs, RUN, c, NoFault) == Absent;
    }
    assert ReturnedBy(trace, r);
  }

  /** The one worker of the call is handed the one child, stores its result, and the call returns. */
  ghost function OnlyPool(r: AttemptResult): ShardPool.Pool {
    ShardPool.Pool(0, 1, 1, 1, map[], [Some(r)], ShardPool.Joined(false), map[0 := 0], map[0 := r])
  }

  lemma OnlySchedule(r: AttemptResult)
    ensures Scheduled(ShardPool.Shape(0, 1, 1, 1), OnlyPool(r))
  {
    var start := ShardPool.Start(ShardPool.Shape(0, 1, 1, 1));
    var e1, e2, e3, e4 := ShardPool.Hand(0), ShardPool.Finish(0, r), ShardPool.Close, ShardPool.Join;
    var p1 := start.(next := 1, busy := map[0 := 0], handed := map[0 := 0]);
    var p2 := p1.(busy := map[], results := [Some(r)], done := map[0 := r]);
    PoolOnward(start, [], start, e1, p1);
    PoolOnward(start, [] + [e1], p1, e2, p2);
    PoolOnward(start, [] + [e1] + [e2], p2, e3, p2.(phase := ShardPool.Closed(false)));
    PoolOnward(start, [] + [e1] + [e2] + [e3], p2.(phase := ShardPool.Closed(false)), e4, OnlyPool(r));
  }

  lemma PoolOnward(start: ShardPool.Pool, events: seq<ShardPool.Event>, p: ShardPool.Pool, e: ShardPool.Event,
      q: ShardPool.Pool)
    requires ShardPool.RunAll(start, events) == Some(p) && ShardPool.Enabled(p, e) && ShardPool.Step(p, e) == q
    ensures ShardPool.RunAll(start, events + [e]) == Some(q)
  {
    assert (events + [e])[..|events|] == events;
  }

  /** Over HTTP the attempt's result arrives without its error. */
  lemma OneReportAnswered(s: State, o: nat, r: AttemptResult)
    requires s.run == RUN && RUN.Valid() && o in s.ops && s.ops[o].Returned? && s.ops[o].req == RequestOf("ag1")
    requires s.ops[o].reply.result == r && r.Valid(RUN) && Counted(r)
    ensures CallsAnswered(s, FullLease(RUN, "ag1"), OneReport(r))
    ensures s.ops[o].reply.err != Some(CommitFailed) ==> CallsAnsweredCleanly(s, FullLease(RUN, "ag1"), OneReport(r))
  {
    var shard := ShardRun(FullLease(RUN, "ag1"), 1, OnlyPool(r), map[0 := o]);
    OnlyShard(s, o, r);
    assert Results(shard.pool) == [r];
    OneArrives(RUN, r, CallFails(s, shard));
    assert ReplyOf(s, shard, FullLease(RUN, "ag1"), 1, ShardReply([r], false));
    assert s.ops[o].reply.err != Some(CommitFailed) ==> CleanCall(s, shard, ShardReply([r], false));
  }

  lemma AnsweredAtLast(trace: seq<State>, o: nat, r: AttemptResult)
    requires Execution(trace) && trace[0] == Fresh(RUN) && ReturnedAt(trace, |trace| - 1, o, r) && Counted(r)
    requires Last(trace).ops[o].req == RequestOf("ag1") && Last(trace).ops[o].reply.err != Some(ReturnError.ReadFailed)
    ensures CallsAnswered(Last(trace), FullLease(RUN, "ag1"), OneReport(r))
    ensures Last(trace).ops[o].reply.err != Some(CommitFailed) ==>
      CallsAnsweredCleanly(Last(trace), FullLease(RUN, "ag1"), OneReport(r))
  {
    RunValid();
    ReturnedValid(trace, o);
    OneReportAnswered(Last(trace), o, r);
  }

  lemma ReturnedValid(trace: seq<State>, o: nat)
    requires Execution(trace) && o in Last(trace).ops && Last(trace).ops[o].Returned?
    requires Last(trace).ops[o].reply.err != Some(ReturnError.ReadFailed)
    ensures Last(trace).run == trace[0].run && Last(trace).ops[o].reply.result.Valid(trace[0].run)
  {
    LastInv(trace);
    assert OpInv(Last(trace), o);
  }

  lemma OnlyShard(s: State, o: nat, r: AttemptResult)
    requires s.run == RUN && RUN.Valid() && o in s.ops && s.ops[o].Returned? && s.ops[o].req == RequestOf("ag1")
    requires s.ops[o].reply.result == r
    ensures Finished(s, ShardRun(FullLease(RUN, "ag1"), 1, OnlyPool(r), map[0 := o]))
  {
    AgentIDs();
    FullLeaseValid(RUN, "ag1");
    OnlySchedule(r);
    assert RUN.children.End() == 1;
  }

  lemma OneArrives(run: BundleRun, r: AttemptResult, failed: bool)
    requires r.Valid(run) && Counted(r)
    ensures RemoteReply(run, ShardReply([r], failed)) == ShardReply([r], false)
  {
    assert Counted([r][0]);
  }

  /** Without clean reports: an agent's commit call fails before it writes, the agent returns the result still marked
      terminal, its HTTP server drops the error, and the report says "succeeded", no error having reached the
      coordinator, over a store that holds no terminal document. */
  lemma ErroredCommitReportsSuccess() returns (trace: seq<State>, env: Env, report: RuntimeReport)
    ensures Execution(trace) && trace[0] == Fresh(RUN) && OneStore(trace, env) && EveryReadFrom(trace, env)
    ensures RunOutcome(RUN, [AGENT], {"ag1"}, Some(INSPECTION), env, report, None)
    ensures report.summary.Some? && report.summary.value.succeeded && RUN.children.Contains(0)
    ensures StoredDoc(Last(trace), 0).None?
    ensures CallsAnswered(Last(trace), FullLease(RUN, "ag1"), env) && !env.replies(1).failed
  {
    var r;
    trace, r := FailedCommit();
    env, report := OneReport(r), ReportOf(r);
    OneReportFrom(trace, |trace| - 1, 0, r);
    AnsweredAtLast(trace, 0, r);
    OneReportSucceeds(r);
  }

  lemma FailedCommit() returns (trace: seq<State>, r: AttemptResult)
    ensures Execution(trace) && trace[0] == Fresh(RUN) && ReturnedAt(trace, |trace| - 1, 0, r)
    ensures Decisive(r) && r.status.Succeeded? && StoredDoc(Last(trace), 0).None?
    ensures Last(trace).ops[0].req == RequestOf("ag1") && Last(trace).ops[0].reply.err == Some(CommitFailed)
  {
    AgentIDs();
    var offered := ExitOffers("ag1", 0);
    OfferIsDecisive("ag1", offered);
    r := Timed(offered, COMMIT_TIME);
    ReachableIsClosed(Fresh(RUN));
    CommitFails(Reachable(Fresh(RUN)), RUN, RequestOf("ag1"), GuestExits(0), offered, COMMIT_TIME);
    RunValid();
    trace := ExecutionTo(RUN, Unstored(RUN, RequestOf("ag1"), r));
  }

  lemma OfferIsDecisive(agentID: string, r: AttemptResult)
    requires Offers(RUN, RequestOf(agentID), GuestExits(0), r) && r.status.Succeeded?
    ensures Decisive(Timed(r, COMMIT_TIME)) && Timed(r, COMMIT_TIME).status.Succeeded?
  {
    OfferedDoc(RUN, RequestOf(agentID), GuestExits(0), r);
  }

  /** With skips: another agent has committed a failure after the coordinator's scan, the agent finds it and skips,
      and the report says "succeeded" although no commit call failed and the stored document is a failure. */
  lemma SkipHidesFailure() returns (trace: seq<State>, env: Env, report: RuntimeReport)
    ensures Execution(trace) && trace[0] == Fresh(RUN) && OneStore(trace, env) && EveryReadFrom(trace, env)
    ensures CleanReports(trace, env) && CallsAnsweredCleanly(Last(trace), FullLease(RUN, "ag1"), env)
    ensures RunOutcome(RUN, [AGENT], {"ag1"}, Some(INSPECTION), env, report, None)
    ensures report.summary.Some? && report.summary.value.succeeded && report.summary.value.skippedChildren == 1
    ensures StoredDoc(Last(trace), 0).Some? && StoredDoc(Last(trace), 0).value.status.Failed?
  {
    var skip;
    trace, skip := FoundFailure();
    env, report := OneReport(skip), ReportOf(skip);
    OneReportFrom(trace, |trace| - 1, 1, skip);
    AnsweredAtLast(trace, 1, skip);
    OneReportSucceeds(skip);
  }

  lemma FoundFailure() returns (trace: seq<State>, skip: AttemptResult)
    ensures Execution(trace) && trace[0] == Fresh(RUN) && ReturnedAt(trace, |trace| - 1, 1, skip)
    ensures Last(trace).ops[1].req == RequestOf("ag1") && Last(trace).ops[1].reply.err.None?
    ensures Decisive(skip) && skip.status.SkippedTerminalExists?
    ensures StoredDoc(Last(trace), 0).Some? && StoredDoc(Last(trace), 0).value.status.Failed?
  {
    AgentIDs();
    var failure := ExitOffers("ag2", 1);
    RequestAdmissible("ag1");
    var w, first, second := GuestExits(1), RequestOf("ag2"), RequestOf("ag1");
    OfferedDoc(RUN, first, w, failure);
    skip := SkipResult(second, w, failure);
    SkipIsDecisive(second, w, failure);
    ReachableIsClosed(Fresh(RUN));
    CommitThenSkip(Reachable(Fresh(RUN)), RUN, first, second, w, failure, COMMIT_TIME);
    RunValid();
    FailureStays(first, failure, Timed(failure, COMMIT_TIME), second, skip);
    trace := ExecutionTo(RUN, SkippedState(RUN, first, failure, Timed(failure, COMMIT_TIME), second, skip));
  }

  lemma FailureStays(first: ChildRequest, failure: AttemptResult, record: AttemptResult, second: ChildRequest,
      skip: AttemptResult)
    requires first.child == second.child == 0 && second.attempt >= 0
    ensures
      var s := SkippedState(RUN, first, failure, record, second, skip);
      && StoredDoc(s, 0) == Some(failure)
      && 1 in s.ops && s.ops[1] == Returned(second, ChildReply(skip, None), Skipped)
  {
    NotBothURIs(RUN, second);
  }

  lemma SkipIsDecisive(req: ChildRequest, w: World, failure: AttemptResult)
    requires req.Valid() && req.IDsFit() && w.Honest() && req.child == 0 && failure.Valid(req.run) && failure.terminal
    ensures Decisive(SkipResult(req, w, failure))
  {
    RecordsValid(req, w, failure);
  }
}
