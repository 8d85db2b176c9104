/** The coordinator's retry loop over one lease. */
module RetryLoop {
  import opened Text
  import opened Contracts
  import opened Collections
  import opened ResultStore
  import opened RuntimeStates

  datatype ShardReply = ShardReply(results: seq<AttemptResult>, failed: bool)

  /** What the loop meets: whether it is cancelled before an attempt, what each read returns, and what the
      executor answers. Attempt n scans for pending children as scan 2n and again as scan 2n + 1. */
  datatype Env = Env(cancelled: nat -> bool, reader: (nat, int) -> ReadReply, replies: nat -> ShardReply) {
    function ReadsOf(scan: nat): int -> ReadReply { c => reader(scan, c) }
  }

  datatype LeaseError = ExecutorMissing | Cancelled | ReadFailed | PlatformMismatched | ExecutorFailed | LeaseIncomplete

  /** A call of the executor, and the children known when it was made. */
  datatype Call = Call(attempt: nat, known: set<int>)

  datatype LeaseRun = LeaseRun(tally: Tally, error: Option<LeaseError>, calls: seq<Call>)

  predicate HasPlatformMismatch(results: seq<AttemptResult>) {
    exists i :: 0 <= i < |results| && results[i].status.PlatformMismatch?
  }

  /** One attempt: a scan, the call and what is recorded of it, and a scan. */
  datatype Round = Round(before: Tally, pending: ScanReply, recorded: Tally, after: Tally, left: ScanReply)

  function RoundOf(lease: ShardLease, env: Env, t: Tally, attempt: nat): Round {
    var lo, hi := lease.childStart, lease.Range().End();
    var (before, pending) := Scan(t, lo, hi, env.ReadsOf(2 * attempt));
    var recorded := RecordAll(before, env.replies(attempt).results);
    var (after, left) := Scan(recorded, lo, hi, env.ReadsOf(2 * attempt + 1));
    Round(before, pending, recorded, after, left)
  }

  function CallOf(r: Round, attempt: nat): Call { Call(attempt, r.before.terminal.Keys) }

  /** How the loop ends with this attempt, if it does. */
  function Ending(lease: ShardLease, env: Env, t: Tally, attempt: nat, r: Round): Option<LeaseRun> {
    if attempt > lease.attemptBudget then Some(LeaseRun(t, None, []))
    else if env.cancelled(attempt) then Some(LeaseRun(t, Some(Cancelled), []))
    else if r.pending.ScanFailed? then Some(LeaseRun(r.before, Some(ReadFailed), []))
    else if r.pending.AllKnown? then Some(LeaseRun(r.before, None, []))
    else if HasPlatformMismatch(env.replies(attempt).results)
      then Some(LeaseRun(r.recorded, Some(PlatformMismatched), [CallOf(r, attempt)]))
    else if r.left.ScanFailed? then Some(LeaseRun(r.after, Some(ReadFailed), [CallOf(r, attempt)]))
    else if r.left.AllKnown? then Some(LeaseRun(r.after, None, [CallOf(r, attempt)]))
    else if attempt == lease.attemptBudget then
      Some(LeaseRun(r.after, Some(if env.replies(attempt).failed then ExecutorFailed else LeaseIncomplete),
        [CallOf(r, attempt)]))
    else None
  }

  /** The loop from the given attempt on. */
  function Lease(lease: ShardLease, env: Env, t: Tally, attempt: nat): LeaseRun
    decreases lease.attemptBudget - attempt
  {
    var r := RoundOf(lease, env, t, attempt);
    match Ending(lease, env, t, attempt, r)
    case Some(run) => run
    case None => Then([CallOf(r, attempt)], Lease(lease, env, r.after, attempt + 1))
  }

  function Then(calls: seq<Call>, run: LeaseRun): LeaseRun { run.(calls := calls + run.calls) }

  lemma LeaseUnfolds(lease: ShardLease, env: Env, t: Tally, attempt: nat, calls: seq<Call>)
    ensures
      var r := RoundOf(lease, env, t, attempt);
      match Ending(lease, env, t, attempt, r)
      case Some(run) => Then(calls, Lease(lease, env, t, attempt)) == Then(calls, run)
      case None => Then(calls, Lease(lease, env, t, attempt)) == Then(calls + [CallOf(r, attempt)],
        Lease(lease, env, r.after, attempt + 1))
  {
    var r := RoundOf(lease, env, t, attempt);
    if Ending(lease, env, t, attempt, r).None? {
      var rest := Lease(lease, env, r.after, attempt + 1);
      assert calls + ([CallOf(r, attempt)] + rest.calls) == (calls + [CallOf(r, attempt)]) + rest.calls;
    }
  }

  /** `runLease` for an agent that has an executor, as a loop over the state. */
  method RunLease(lease: ShardLease, executors: set<string>, env: Env, state: RuntimeState)
      returns (error: Option<LeaseError>, calls: seq<Call>)
    modifies state
    ensures state.leaseErrors == old(state.leaseErrors)
    ensures lease.agentID !in executors ==>
      error == Some(ExecutorMissing) && calls == [] && state.Now() == old(state.Now())
    ensures lease.agentID in executors ==> LeaseRun(state.Now(), error, calls) == Lease(lease, env, old(state.Now()), 1)
  {
    calls := [];
    if lease.agentID !in executors {
      return Some(ExecutorMissing), [];
    }
    var attempt: nat := 1;
    while attempt <= lease.attemptBudget
      invariant Lease(lease, env, old(state.Now()), 1) == Then(calls, Lease(lease, env, state.Now(), attempt))
      invariant state.leaseErrors == old(state.leaseErrors)
      decreases lease.attemptBudget - attempt
    {
      ghost var r := RoundOf(lease, env, state.Now(), attempt);
      ghost var ending := Ending(lease, env, state.Now(), attempt, r);
      LeaseUnfolds(lease, env, state.Now(), attempt, calls);
      if env.cancelled(attempt) {
        return Some(Cancelled), calls;
      }
      var pending := state.LeaseHasPendingChildren(lease, env.ReadsOf(2 * attempt));
      if pending.ScanFailed? {
        return Some(ReadFailed), calls;
      }
      if pending.AllKnown? {
        return None, calls;
      }
      var reply := env.replies(attempt);
      calls := calls + [Call(attempt, state.terminal.Keys)];
      state.RecordResults(reply.results);
      if HasPlatformMismatch(reply.results) {
        return Some(PlatformMismatched), calls;
      }
      var left := state.LeaseHasPendingChildren(lease, env.ReadsOf(2 * attempt + 1));
      if left.ScanFailed? {
        return Some(ReadFailed), calls;
      }
      if left.AllKnown? {
        return None, calls;
      }
      if attempt == lease.attemptBudget {
        return Some(if reply.failed then ExecutorFailed else LeaseIncomplete), calls;
      }
      attempt := attempt + 1;
    }
    return None, calls;
  }

  // --- What every run of the loop keeps

  predicate InLease(lease: ShardLease, child: int) { lease.Range().Contains(child) }

  ghost predicate AllKnownIn(lease: ShardLease, t: Tally) { forall c :: InLease(lease, c) ==> c in t.terminal }

  /** The executor is called for an attempt only while some leased child is unknown and has no document. */
  ghost predicate Needed(lease: ShardLease, env: Env, call: Call) {
    exists c :: InLease(lease, c) && c !in call.known && env.reader(2 * call.attempt, c).Absent?
  }

  /** What the two scans around a call establish. */
  lemma RoundMeaning(lease: ShardLease, env: Env, t: Tally, attempt: nat)
    ensures
      var r := RoundOf(lease, env, t, attempt);
      && Learned(t, r.before, lease.childStart, lease.Range().End(), env.ReadsOf(2 * attempt))
      && Learned(r.recorded, r.after, lease.childStart, lease.Range().End(), env.ReadsOf(2 * attempt + 1))
      && (r.pending.AllKnown? <==> AllKnownIn(lease, r.before))
      && (r.left.AllKnown? <==> AllKnownIn(lease, r.after))
      && (r.pending.SomePending? ==> Needed(lease, env, CallOf(r, attempt)))
  {
    var lo, hi := lease.childStart, lease.Range().End();
    var r := RoundOf(lease, env, t, attempt);
    ScanMeaning(t, lo, hi, env.ReadsOf(2 * attempt));
    ScanMeaning(r.recorded, lo, hi, env.ReadsOf(2 * attempt + 1));
    if r.pending.SomePending? {
      var c :| lo <= c < hi && c !in r.before.terminal && env.ReadsOf(2 * attempt)(c).Absent?;
      assert InLease(lease, c) && env.reader(2 * attempt, c).Absent?;
    }
  }

  ghost predicate OrderlyCalls(lease: ShardLease, env: Env, calls: seq<Call>, attempt: nat) {
    && (forall i: nat :: i < |calls| ==>
      calls[i].attempt == attempt + i <= lease.attemptBudget && Needed(lease, env, calls[i]))
    && (forall i: nat :: i + 1 < |calls| ==> !HasPlatformMismatch(env.replies(calls[i].attempt).results))
  }

  predicate LastMismatches(env: Env, calls: seq<Call>) {
    calls != [] && HasPlatformMismatch(env.replies(calls[|calls| - 1].attempt).results)
  }

  lemma EndingCalls(lease: ShardLease, env: Env, t: Tally, attempt: nat, r: Round)
    requires Ending(lease, env, t, attempt, r).Some?
    requires (r.pending.SomePending? ==> Needed(lease, env, CallOf(r, attempt)))
    ensures
      var run := Ending(lease, env, t, attempt, r).value;
      && OrderlyCalls(lease, env, run.calls, attempt)
      && (run.error == Some(PlatformMismatched) <==> LastMismatches(env, run.calls))
  {
  }

  /** The executor gets the attempts in order, within the budget, each only while something is pending and none
      after a platform mismatch. */
  lemma {:induction false} LeaseCalls(lease: ShardLease, env: Env, t: Tally, attempt: nat)
    ensures
      var run := Lease(lease, env, t, attempt);
      && OrderlyCalls(lease, env, run.calls, attempt)
      && (run.error == Some(PlatformMismatched) <==> LastMismatches(env, run.calls))
    decreases lease.attemptBudget - attempt
  {
    var r := RoundOf(lease, env, t, attempt);
    RoundMeaning(lease, env, t, attempt);
    if Ending(lease, env, t, attempt, r).Some? {
      EndingCalls(lease, env, t, attempt, r);
    } else {
      LeaseCalls(lease, env, r.after, attempt + 1);
      EndlessCalls(lease, env, t, attempt, r, Lease(lease, env, r.after, attempt + 1));
    }
  }

  lemma EndlessCalls(lease: ShardLease, env: Env, t: Tally, attempt: nat, r: Round, rest: LeaseRun)
    requires Ending(lease, env, t, attempt, r).None?
    requires (r.pending.SomePending? ==> Needed(lease, env, CallOf(r, attempt)))
    requires OrderlyCalls(lease, env, rest.calls, attempt + 1)
    requires (rest.error == Some(PlatformMismatched) <==> LastMismatches(env, rest.calls))
    ensures
      var run := Then([CallOf(r, attempt)], rest);
      && OrderlyCalls(lease, env, run.calls, attempt)
      && (run.error == Some(PlatformMismatched) <==> LastMismatches(env, run.calls))
  {
    CallsStep(lease, env, CallOf(r, attempt), rest.calls);
  }

  lemma CallsStep(lease: ShardLease, env: Env, call: Call, rest: seq<Call>)
    requires Needed(lease, env, call) && call.attempt <= lease.attemptBudget
    requires !HasPlatformMismatch(env.replies(call.attempt).results)
    requires OrderlyCalls(lease, env, rest, call.attempt + 1)
    ensures OrderlyCalls(lease, env, [call] + rest, call.attempt)
    ensures LastMismatches(env, [call] + rest) <==> LastMismatches(env, rest)
  {
    var calls := [call] + rest;
    forall i: nat | i < |calls|
      ensures calls[i].attempt == call.attempt + i <= lease.attemptBudget && Needed(lease, env, calls[i])
    {
      if i > 0 { assert calls[i] == rest[i - 1]; }
    }
    forall i: nat | i + 1 < |calls| ensures !HasPlatformMismatch(env.replies(calls[i].attempt).results) {
      if i > 0 { assert calls[i] == rest[i - 1]; }
    }
  }

  /** A loop with at least one attempt ends without error only when every leased child is known, and gives up
      for lack of attempts only when one is not. */
  lemma {:induction false} LeaseOutcome(lease: ShardLease, env: Env, t: Tally, attempt: nat)
    requires attempt <= lease.attemptBudget
    ensures
      var run := Lease(lease, env, t, attempt);
      && (run.error.None? ==> AllKnownIn(lease, run.tally))
      && (run.error == Some(LeaseIncomplete) || run.error == Some(ExecutorFailed) ==>
            !AllKnownIn(lease, run.tally) && |run.calls| == lease.attemptBudget - attempt + 1)
    decreases lease.attemptBudget - attempt
  {
    var r := RoundOf(lease, env, t, attempt);
    RoundMeaning(lease, env, t, attempt);
    if Ending(lease, env, t, attempt, r).None? {
      LeaseOutcome(lease, env, r.after, attempt + 1);
    }
  }

  // --- Which attempt the loop ends with, and why

  /** What is known when attempt n begins, if every attempt from the given one on is followed by another. */
  ghost function TallyAt(lease: ShardLease, env: Env, t: Tally, attempt: nat, n: nat): Tally
    requires attempt <= n
    decreases n - attempt
  {
    if n == attempt then t else TallyAt(lease, env, RoundOf(lease, env, t, attempt).after, attempt + 1, n)
  }

  ghost function RoundAt(lease: ShardLease, env: Env, t: Tally, attempt: nat, n: nat): Round
    requires attempt <= n
  {
    RoundOf(lease, env, TallyAt(lease, env, t, attempt, n), n)
  }

  /** The executor is asked: the call is not cancelled, and every read succeeds and leaves a child to run. */
  ghost predicate Asks(env: Env, n: nat, r: Round) { !env.cancelled(n) && r.pending.SomePending? }

  /** And the answer calls for another attempt: no mismatch, and every read succeeds and leaves a child to run. */
  ghost predicate AsksAgain(env: Env, n: nat, r: Round) {
    Asks(env, n, r) && !HasPlatformMismatch(env.replies(n).results) && r.left.SomePending?
  }

  ghost predicate GoesOn(lease: ShardLease, env: Env, t: Tally, attempt: nat, n: nat)
    requires attempt <= n
  {
    AsksAgain(env, n, RoundAt(lease, env, t, attempt, n))
  }

  /** The loop ends with attempt n in this way. */
  ghost predicate EndsWith(lease: ShardLease, env: Env, n: nat, r: Round, error: Option<LeaseError>) {
    var mismatch := HasPlatformMismatch(env.replies(n).results);
    && (error == Some(Cancelled) <==> env.cancelled(n))
    && (error == Some(ReadFailed) <==>
          !env.cancelled(n) && (r.pending.ScanFailed? || (Asks(env, n, r) && !mismatch && r.left.ScanFailed?)))
    && (error == Some(PlatformMismatched) <==> Asks(env, n, r) && mismatch)
    && (error.None? <==>
          !env.cancelled(n) && (r.pending.AllKnown? || (Asks(env, n, r) && !mismatch && r.left.AllKnown?)))
    && (error == Some(ExecutorFailed) <==> AsksAgain(env, n, r) && env.replies(n).failed)
    && (error == Some(LeaseIncomplete) <==> AsksAgain(env, n, r) && !env.replies(n).failed)
    && (AsksAgain(env, n, r) ==> n == lease.attemptBudget)
  }

  /** The loop goes on while there is an attempt left and each calls for another: a call that fails is retried like
      any other. It ends with the first attempt that does not, or with the last of the budget, in the way which that
      attempt calls for, after one call for each attempt that asked. */
  lemma {:induction false} LeaseEnds(lease: ShardLease, env: Env, t: Tally, attempt: nat) returns (n: nat)
    requires attempt <= lease.attemptBudget
    ensures attempt <= n <= lease.attemptBudget
    ensures forall m: nat :: attempt <= m < n ==> GoesOn(lease, env, t, attempt, m)
    ensures EndsWith(lease, env, n, RoundAt(lease, env, t, attempt, n), Lease(lease, env, t, attempt).error)
    ensures |Lease(lease, env, t, attempt).calls| ==
      n - attempt + if Asks(env, n, RoundAt(lease, env, t, attempt, n)) then 1 else 0
    decreases lease.attemptBudget - attempt
  {
    var r := RoundOf(lease, env, t, attempt);
    if Ending(lease, env, t, attempt, r).Some? {
      n := attempt;
    } else {
      n := LeaseEnds(lease, env, r.after, attempt + 1);
      forall m: nat | attempt <= m < n ensures GoesOn(lease, env, t, attempt, m) {
        if m > attempt { assert GoesOn(lease, env, r.after, attempt + 1, m); }
      }
    }
  }

  /** Two runs of attempts that each call for another cannot end differently. */
  lemma LeaseEndsAt(lease: ShardLease, env: Env, t: Tally, attempt: nat, n: nat)
    requires attempt <= n <= lease.attemptBudget
    requires forall m: nat :: attempt <= m < n ==> GoesOn(lease, env, t, attempt, m)
    requires n == lease.attemptBudget || !GoesOn(lease, env, t, attempt, n)
    ensures EndsWith(lease, env, n, RoundAt(lease, env, t, attempt, n), Lease(lease, env, t, attempt).error)
    ensures |Lease(lease, env, t, attempt).calls| ==
      n - attempt + if Asks(env, n, RoundAt(lease, env, t, attempt, n)) then 1 else 0
  {
    var k := LeaseEnds(lease, env, t, attempt);
    assert k < n ==> GoesOn(lease, env, t, attempt, k);
  }

  /** Every earlier attempt calls for another, and before this one the loop is cancelled. */
  ghost predicate StopsAt(lease: ShardLease, env: Env, t: Tally, attempt: nat, n: nat) {
    env.cancelled(n) && forall m: nat :: attempt <= m < n ==> GoesOn(lease, env, t, attempt, m)
  }

  /** It ends as cancelled exactly when it gets to an attempt of the budget before which it was cancelled, and from a
      cancelled attempt on no call is made. */
  lemma CancelledIff(lease: ShardLease, env: Env, t: Tally, attempt: nat)
    requires attempt <= lease.attemptBudget
    ensures Lease(lease, env, t, attempt).error == Some(Cancelled) <==>
      exists n: nat :: attempt <= n <= lease.attemptBudget && StopsAt(lease, env, t, attempt, n)
    ensures forall n: nat :: attempt <= n <= lease.attemptBudget && env.cancelled(n) ==>
      |Lease(lease, env, t, attempt).calls| <= n - attempt
  {
    var n := LeaseEnds(lease, env, t, attempt);
    forall k: nat | attempt <= k <= lease.attemptBudget && env.cancelled(k)
      ensures |Lease(lease, env, t, attempt).calls| <= k - attempt
    {
      assert k < n ==> GoesOn(lease, env, t, attempt, k);
    }
    if k: nat :| attempt <= k <= lease.attemptBudget && StopsAt(lease, env, t, attempt, k) {
      LeaseEndsAt(lease, env, t, attempt, k);
    }
    assert env.cancelled(n) ==> StopsAt(lease, env, t, attempt, n);
  }

  /** Attempt n is not cancelled, reports no mismatch, and leaves some leased child unknown. */
  ghost predicate Inconclusive(lease: ShardLease, env: Env, t: Tally, attempt: nat, n: nat)
    requires attempt <= n
  {
    && !env.cancelled(n) && !HasPlatformMismatch(env.replies(n).results)
    && !AllKnownIn(lease, RoundAt(lease, env, t, attempt, n).after)
  }

  /** When no read fails and every attempt of the budget is inconclusive, the executor gets them all, whatever errors
      its calls return. */
  lemma WholeBudgetIsUsed(lease: ShardLease, env: Env, t: Tally, attempt: nat)
    requires attempt <= lease.attemptBudget && forall scan: nat, c :: !env.reader(scan, c).ReadError?
    requires forall n: nat :: attempt <= n <= lease.attemptBudget ==> Inconclusive(lease, env, t, attempt, n)
    ensures |Lease(lease, env, t, attempt).calls| == lease.attemptBudget - attempt + 1
    ensures Lease(lease, env, t, attempt).error ==
      Some(if env.replies(lease.attemptBudget).failed then ExecutorFailed else LeaseIncomplete)
  {
    forall n: nat | attempt <= n <= lease.attemptBudget ensures GoesOn(lease, env, t, attempt, n) {
      assert Inconclusive(lease, env, t, attempt, n);
      StillAsks(lease, env, TallyAt(lease, env, t, attempt, n), n);
    }
    assert GoesOn(lease, env, t, attempt, lease.attemptBudget);
    LeaseEndsAt(lease, env, t, attempt, lease.attemptBudget);
  }

  lemma StillAsks(lease: ShardLease, env: Env, t: Tally, n: nat)
    requires !env.cancelled(n) && !HasPlatformMismatch(env.replies(n).results)
    requires forall scan: nat, c :: !env.reader(scan, c).ReadError?
    requires !AllKnownIn(lease, RoundOf(lease, env, t, n).after)
    ensures AsksAgain(env, n, RoundOf(lease, env, t, n))
  {
    RoundMeaning(lease, env, t, n);
    ScanMeaning(t, lease.childStart, lease.Range().End(), env.ReadsOf(2 * n));
    ScanMeaning(RoundOf(lease, env, t, n).recorded, lease.childStart, lease.Range().End(), env.ReadsOf(2 * n + 1));
    var r := RoundOf(lease, env, t, n);
    RecordExplained(lease, env, r.before, n);
    assert forall c :: c in r.before.terminal ==> c in r.after.terminal;
  }

  // --- Where every known outcome comes from

  ghost predicate WasRead(env: Env, child: int, v: AttemptResult) {
    exists scan: nat, doc :: env.reader(scan, child) == Present(doc) &&
      v == (if doc.status.NoStatus? then doc.(status := SkippedTerminalExists) else doc)
  }

  ghost predicate WasReported(env: Env, from: nat, count: nat, child: int, v: AttemptResult) {
    exists k: nat :: from <= k < from + count && v in env.replies(k).results && Reports(v, child)
  }

  /** What the loop knew of a child it still knows, unless a real outcome was reported for it since; and what it
      has learned it read for a leased child or was told. */
  ghost predicate Explained(lease: ShardLease, env: Env, t: Tally, t': Tally, from: nat, count: nat) {
    && (forall c :: c in t.terminal ==> c in t'.terminal)
    && (forall c :: c in t.terminal && t'.terminal[c] != t.terminal[c] ==>
          WasReported(env, from, count, c, t'.terminal[c]) && !t'.terminal[c].status.SkippedTerminalExists?)
    && (forall c :: c in t'.terminal && c !in t.terminal ==>
          (InLease(lease, c) && WasRead(env, c, t'.terminal[c])) || WasReported(env, from, count, c, t'.terminal[c]))
  }

  lemma ScanExplained(lease: ShardLease, env: Env, t: Tally, t': Tally, scan: nat, from: nat)
    requires Learned(t, t', lease.childStart, lease.Range().End(), env.ReadsOf(scan))
    ensures Explained(lease, env, t, t', from, 0)
  {
    forall c | c in t'.terminal && c !in t.terminal ensures InLease(lease, c) && WasRead(env, c, t'.terminal[c]) {
      assert env.ReadsOf(scan)(c) == env.reader(scan, c);
      assert env.reader(scan, c) == Present(env.reader(scan, c).doc);
    }
  }

  lemma RecordExplained(lease: ShardLease, env: Env, t: Tally, attempt: nat)
    ensures Explained(lease, env, t, RecordAll(t, env.replies(attempt).results), attempt, 1)
  {
    var results := env.replies(attempt).results;
    var after := RecordAll(t, results);
    forall c | c in after.terminal
      ensures (c in t.terminal && after.terminal[c] == t.terminal[c]) ||
        (WasReported(env, attempt, 1, c, after.terminal[c]) &&
          (c in t.terminal ==> !after.terminal[c].status.SkippedTerminalExists?))
    {
      RecordedOutcome(t, results, c);
      if i: nat :| LastOutcome(results, c, i) && after.terminal[c] == results[i] {
        assert results[i] in env.replies(attempt).results;
      } else if c !in t.terminal {
        var i: nat :| FirstReport(results, c, i) && after.terminal[c] == results[i];
        assert results[i] in env.replies(attempt).results;
      }
    }
    forall c | c in t.terminal ensures c in after.terminal { RecordedOutcome(t, results, c); }
  }

  lemma ExplainedThen(lease: ShardLease, env: Env, t: Tally, u: Tally, v: Tally, from: nat, m: nat, n: nat)
    requires Explained(lease, env, t, u, from, m) && Explained(lease, env, u, v, from + m, n)
    ensures Explained(lease, env, t, v, from, m + n)
  {
    forall c, r | WasReported(env, from, m, c, r) || WasReported(env, from + m, n, c, r)
      ensures WasReported(env, from, m + n, c, r)
    {
      if WasReported(env, from, m, c, r) {
        var k: nat :| from <= k < from + m && r in env.replies(k).results && Reports(r, c);
      } else {
        var k: nat :| from + m <= k < from + m + n && r in env.replies(k).results && Reports(r, c);
      }
    }
  }

  lemma RoundExplained(lease: ShardLease, env: Env, t: Tally, attempt: nat)
    ensures
      var r := RoundOf(lease, env, t, attempt);
      Explained(lease, env, t, r.before, attempt, 0) && Explained(lease, env, t, r.recorded, attempt, 1) &&
        Explained(lease, env, t, r.after, attempt, 1)
  {
    var r := RoundOf(lease, env, t, attempt);
    RoundMeaning(lease, env, t, attempt);
    ScanExplained(lease, env, t, r.before, 2 * attempt, attempt);
    RecordExplained(lease, env, r.before, attempt);
    ExplainedThen(lease, env, t, r.before, r.recorded, attempt, 0, 1);
    ScanExplained(lease, env, r.recorded, r.after, 2 * attempt + 1, attempt + 1);
    ExplainedThen(lease, env, t, r.recorded, r.after, attempt, 1, 0);
  }

  lemma EndingExplained(lease: ShardLease, env: Env, t: Tally, attempt: nat, r: Round)
    requires Explained(lease, env, t, r.before, attempt, 0) && Explained(lease, env, t, r.recorded, attempt, 1)
    requires Explained(lease, env, t, r.after, attempt, 1)
    requires Ending(lease, env, t, attempt, r).Some?
    ensures var run := Ending(lease, env, t, attempt, r).value; Explained(lease, env, t, run.tally, attempt,
      |run.calls|)
  {
    var run := Ending(lease, env, t, attempt, r).value;
    NothingLearned(lease, env, t, attempt);
    assert
      || (run.tally == t && |run.calls| == 0) || (run.tally == r.before && |run.calls| == 0)
      || (run.tally == r.recorded && |run.calls| == 1) || (run.tally == r.after && |run.calls| == 1);
  }

  lemma NothingLearned(lease: ShardLease, env: Env, t: Tally, attempt: nat)
    ensures Explained(lease, env, t, t, attempt, 0)
  {
  }

  /** Every entry of the state a loop ends with is one it started with, a document read for a leased child, or a
      terminal result reported by one of its calls. */
  lemma {:induction false} LeaseExplained(lease: ShardLease, env: Env, t: Tally, attempt: nat)
    ensures Explained(lease, env, t, Lease(lease, env, t, attempt).tally, attempt,
      |Lease(lease, env, t, attempt).calls|)
    decreases lease.attemptBudget - attempt
  {
    var r := RoundOf(lease, env, t, attempt);
    RoundExplained(lease, env, t, attempt);
    if Ending(lease, env, t, attempt, r).Some? {
      EndingExplained(lease, env, t, attempt, r);
    } else {
      LeaseExplained(lease, env, r.after, attempt + 1);
      var rest := Lease(lease, env, r.after, attempt + 1);
      ExplainedThen(lease, env, t, r.after, rest.tally, attempt, 1, |rest.calls|);
    }
  }

  // --- The counters over a whole loop

  function AllResults(env: Env, from: nat, count: nat): seq<AttemptResult>
    decreases count
  {
    if count == 0 then [] else env.replies(from).results + AllResults(env, from + 1, count - 1)
  }

  ghost predicate CountsOf(t: Tally, t': Tally, results: seq<AttemptResult>) {
    && t'.attemptCount == t.attemptCount + |Positions(results, Counted)|
    && t'.platformMismatches == t.platformMismatches + |Positions(results, Mismatch)|
    && t'.nonTerminalFailures == t.nonTerminalFailures + |Positions(results, NonTerminalFailure)|
  }

  lemma {:induction false} PositionsConcat(a: seq<AttemptResult>, b: seq<AttemptResult>, p: AttemptResult -> bool)
    ensures |Positions(a + b, p)| == |Positions(a, p)| + |Positions(b, p)|
  {
    if b == [] {
      assert a + b == a && Positions(b, p) == {};
    } else {
      var n := |b| - 1;
      assert (a + b)[..|a + b| - 1] == a + b[..n];
      PositionsConcat(a, b[..n], p);
      PositionsStep(a + b, p);
      PositionsStep(b, p);
    }
  }

  lemma CountsThen(t: Tally, u: Tally, v: Tally, a: seq<AttemptResult>, b: seq<AttemptResult>)
    requires CountsOf(t, u, a) && CountsOf(u, v, b)
    ensures CountsOf(t, v, a + b)
  {
    PositionsConcat(a, b, Counted);
    PositionsConcat(a, b, Mismatch);
    PositionsConcat(a, b, NonTerminalFailure);
  }

  lemma {:induction false} LeaseCounts(lease: ShardLease, env: Env, t: Tally, attempt: nat)
    ensures CountsOf(t, Lease(lease, env, t, attempt).tally,
      AllResults(env, attempt, |Lease(lease, env, t, attempt).calls|))
    decreases lease.attemptBudget - attempt
  {
    var r := RoundOf(lease, env, t, attempt);
    RoundCounts(lease, env, t, attempt);
    if Ending(lease, env, t, attempt, r).None? {
      LeaseCounts(lease, env, r.after, attempt + 1);
      var rest := Lease(lease, env, r.after, attempt + 1);
      CountsThen(t, r.after, rest.tally, env.replies(attempt).results, AllResults(env, attempt + 1, |rest.calls|));
    }
  }

  lemma RoundCounts(lease: ShardLease, env: Env, t: Tally, attempt: nat)
    ensures
      var r := RoundOf(lease, env, t, attempt);
      var results := AllResults(env, attempt, 1);
      && results == env.replies(attempt).results
      && CountsOf(t, t, AllResults(env, attempt, 0)) && CountsOf(t, r.before, AllResults(env, attempt, 0))
      && CountsOf(t, r.recorded, results) && CountsOf(t, r.after, results)
  {
    RoundMeaning(lease, env, t, attempt);
    RecordedCounts(RoundOf(lease, env, t, attempt).before, env.replies(attempt).results);
    assert AllResults(env, attempt + 1, 0) == [];
    assert Positions([], Counted) == {} && Positions([], Mismatch) == {} && Positions([], NonTerminalFailure) == {};
  }

  /** A terminal result that a call reported is known from then on. */
  lemma {:induction false} ReportedIsKnown(lease: ShardLease, env: Env, t: Tally, attempt: nat, k: nat,
      r: AttemptResult)
    requires attempt <= k < attempt + |Lease(lease, env, t, attempt).calls|
    requires r in env.replies(k).results && Reports(r, r.childID)
    ensures r.childID in Lease(lease, env, t, attempt).tally.terminal
    decreases lease.attemptBudget - attempt
  {
    var round := RoundOf(lease, env, t, attempt);
    if k == attempt { RoundReported(lease, env, t, attempt, r); }
    match Ending(lease, env, t, attempt, round)
    case Some(_) => assert k == attempt;
    case None =>
      if k > attempt {
        ReportedIsKnown(lease, env, round.after, attempt + 1, k, r);
      } else {
        LeaseExplained(lease, env, round.after, attempt + 1);
      }
  }

  lemma RoundReported(lease: ShardLease, env: Env, t: Tally, attempt: nat, r: AttemptResult)
    requires r in env.replies(attempt).results && Reports(r, r.childID)
    ensures
      var round := RoundOf(lease, env, t, attempt);
      r.childID in round.recorded.terminal && r.childID in round.after.terminal
  {
    RoundMeaning(lease, env, t, attempt);
    RecordedOutcome(RoundOf(lease, env, t, attempt).before, env.replies(attempt).results, r.childID);
  }
}
