/** What a call of RunShard reports of the attempts that it ran, on the agent itself and over HTTP. */
module ShardReplies {
  import opened Text
  import opened Contracts
  import opened ResultLayout
  import opened ResultStore
  import opened Attempts
  import opened CommitProtocol
  import opened RuntimeStates
  import opened RetryLoop
  import ShardPool

  /** An index of the results that nothing was stored at, and the result of a request refused before its attempt. */
  const NO_RESULT: AttemptResult :=
    AttemptResult("", "", 0, "", "", "", NoStatus, 0, 0, Timings(0.0, 0.0, 0.0, 0.0, 0.0, 0.0), false, "", None, None)

  /** A call that has returned: its workers, and for each child they finished the attempt that it was, unless the
      request was refused. */
  datatype ShardRun = ShardRun(lease: ShardLease, attempt: nat, pool: ShardPool.Pool, attempts: map<int, nat>)

  ghost predicate Scheduled(shape: ShardPool.Shape, pool: ShardPool.Pool) {
    pool.phase.Joined? && exists events :: ShardPool.RunAll(ShardPool.Start(shape), events) == Some(pool)
  }

  ghost predicate RanAttempt(s: State, shard: ShardRun, child: int, o: nat) {
    o in s.ops && s.ops[o].Returned? && s.ops[o].req.lease == shard.lease && s.ops[o].req.child == child &&
    s.ops[o].req.attempt == shard.attempt
  }

  /** What the child's worker stored is what its attempt returned. */
  ghost predicate Delivered(s: State, shard: ShardRun, child: int)
    requires child in shard.pool.done
  {
    if child in shard.attempts
      then RanAttempt(s, shard, child, shard.attempts[child]) &&
        shard.pool.done[child] == s.ops[shard.attempts[child]].reply.result
      else shard.pool.done[child] == NO_RESULT
  }

  ghost predicate Finished(s: State, shard: ShardRun) {
    shard.lease.Valid(s.run) && Scheduled(ShardPool.ShapeOf(s.run, shard.lease), shard.pool) &&
    forall c :: c in shard.pool.done ==> Delivered(s, shard, c)
  }

  function Stored(result: Option<AttemptResult>): AttemptResult { if result.Some? then result.value else NO_RESULT }

  function Results(pool: ShardPool.Pool): (results: seq<AttemptResult>)
    ensures |results| == |pool.results| && forall i: nat :: i < |results| ==> results[i] == Stored(pool.results[i])
  {
    seq(|pool.results|, i requires 0 <= i < |pool.results| => Stored(pool.results[i]))
  }

  ghost predicate Errs(s: State, shard: ShardRun, child: int) {
    child !in shard.attempts ||
      (RanAttempt(s, shard, child, shard.attempts[child]) && s.ops[shard.attempts[child]].reply.err.Some?)
  }

  ghost predicate CallFails(s: State, shard: ShardRun)
    requires shard.pool.phase.Joined?
  {
    shard.pool.phase.cancelled || exists c :: c in shard.pool.done && Errs(s, shard, c)
  }

  ghost function LocalReply(s: State, shard: ShardRun): ShardReply
    requires shard.pool.phase.Joined?
  {
    ShardReply(Results(shard.pool), CallFails(s, shard))
  }

  const REFUSED: ShardReply := ShardReply([], true)

  ghost predicate AllValid(run: BundleRun, results: seq<AttemptResult>) {
    forall i: nat :: i < |results| ==> results[i].Valid(run)
  }

  predicate SomeCounted(results: seq<AttemptResult>) { exists i: nat :: i < |results| && Counted(results[i]) }

  /** The agent's server drops the error of a call that has results, and its client refuses the whole answer when
      one result does not validate. */
  ghost function RemoteReply(run: BundleRun, local: ShardReply): ShardReply {
    if (local.failed && !SomeCounted(local.results)) || !AllValid(run, local.results) then REFUSED
    else ShardReply(local.results, false)
  }

  /** The reply to attempt n of the lease: a refusal, or that of some call, on the agent or over HTTP. */
  ghost predicate Answers(s: State, lease: ShardLease, n: nat, reply: ShardReply) {
    reply == REFUSED || exists shard :: ReplyOf(s, shard, lease, n, reply)
  }

  ghost predicate ReplyOf(s: State, shard: ShardRun, lease: ShardLease, n: nat, reply: ShardReply) {
    Finished(s, shard) && shard.lease == lease && shard.attempt == n &&
    (reply == LocalReply(s, shard) || reply == RemoteReply(s.run, LocalReply(s, shard)))
  }

  // --- Where each result comes from

  /** The i-th result is what the attempt of the i-th child returned. */
  ghost predicate FromAttempt(s: State, lease: ShardLease, n: nat, i: nat, o: nat, r: AttemptResult) {
    && o in s.ops && s.ops[o].Returned? && s.ops[o].req.lease == lease && s.ops[o].req.child == lease.childStart + i
    && s.ops[o].req.attempt == n && s.ops[o].reply.result == r
  }

  lemma PoolResult(shape: ShardPool.Shape, pool: ShardPool.Pool, i: nat)
    requires shape.Valid() && Scheduled(shape, pool) && i < |pool.results|
    ensures pool.start == shape.start && |pool.results| == shape.count
    ensures pool.results[i] == if pool.start + i in pool.done then Some(pool.done[pool.start + i]) else None
    ensures forall c :: c in pool.done ==> shape.start <= c < shape.start + shape.count
    ensures !pool.phase.cancelled && shape.start + i < shape.end ==> shape.start + i in pool.done
  {
    var events :| ShardPool.RunAll(ShardPool.Start(shape), events) == Some(pool);
    ShardPool.RunAllInv(shape, events);
    assert ShardPool.ResultOk(pool, i);
    if !pool.phase.cancelled && shape.start + i < shape.end { assert ShardPool.HandedOk(pool, shape.start + i); }
  }

  lemma ResultOrigin(s: State, shard: ShardRun, i: nat)
    requires Finished(s, shard) && i < |shard.pool.results|
    ensures
      var c, r := shard.lease.childStart + i, Results(shard.pool)[i];
      && (c in shard.pool.done && c in shard.attempts ==> FromAttempt(s, shard.lease, shard.attempt, i,
        shard.attempts[c], r))
      && (c !in shard.pool.done || c !in shard.attempts ==> r == NO_RESULT)
  {
    ShardPool.ShapeOfLease(s.run, shard.lease);
    PoolResult(ShardPool.ShapeOf(s.run, shard.lease), shard.pool, i);
    var c := shard.lease.childStart + i;
    if c in shard.pool.done { assert Delivered(s, shard, c); }
  }

  /** Every counted result of a call's reply, at index i, is what an attempt of the i-th child under the call's
      attempt number has returned. */
  lemma CountedComesFromAttempt(s: State, lease: ShardLease, n: nat, reply: ShardReply, i: nat) returns (o: nat)
    requires Answers(s, lease, n, reply) && i < |reply.results| && Counted(reply.results[i])
    ensures FromAttempt(s, lease, n, i, o, reply.results[i])
  {
    var shard :| ReplyOf(s, shard, lease, n, reply);
    ResultOrigin(s, shard, i);
    o := shard.attempts[lease.childStart + i];
  }

  lemma AttemptNames(s: State, lease: ShardLease, n: nat, i: nat, o: nat, r: AttemptResult)
    requires Inv(s) && FromAttempt(s, lease, n, i, o, r)
    ensures lease.childStart + i >= 0 && r.childID == lease.childStart + i
    ensures r.attemptID == FormatAttemptID(s.run.runID, lease.childStart + i, n)
  {
    assert OpInv(s, o);
  }

  /** No attempt is counted twice: counted results at different places, of one call or of two, have different
      attempt ids, and each is about the child of its place. */
  lemma CountedOnce(s: State, lease: ShardLease, n: nat, i: nat, m: nat, j: nat, a: ShardReply, b: ShardReply)
    requires Inv(s) && Answers(s, lease, n, a) && Answers(s, lease, m, b)
    requires i < |a.results| && j < |b.results| && Counted(a.results[i]) && Counted(b.results[j])
    ensures a.results[i].childID == lease.childStart + i
    ensures a.results[i].attemptID == b.results[j].attemptID <==> n == m && i == j
  {
    var o := CountedComesFromAttempt(s, lease, n, a, i);
    var p := CountedComesFromAttempt(s, lease, m, b, j);
    NamesDiffer(s, lease, n, i, o, a.results[i], m, j, p, b.results[j]);
  }

  lemma NamesDiffer(s: State, lease: ShardLease, n: nat, i: nat, o: nat, r: AttemptResult,
      m: nat, j: nat, p: nat, q: AttemptResult)
    requires Inv(s) && FromAttempt(s, lease, n, i, o, r) && FromAttempt(s, lease, m, j, p, q)
    ensures r.childID == lease.childStart + i
    ensures r.attemptID == q.attemptID <==> n == m && i == j
  {
    AttemptNames(s, lease, n, i, o, r);
    AttemptNames(s, lease, m, j, p, q);
    if r.attemptID == q.attemptID {
      AttemptIDUnique(s.run.runID, lease.childStart + i, n, s.run.runID, lease.childStart + j, m);
    }
  }

  // --- Over HTTP

  /** The child was attempted, and the attempt could read the store. */
  ghost predicate Attempted(s: State, shard: ShardRun, child: int) {
    child in shard.pool.done && child in shard.attempts && RanAttempt(s, shard, child, shard.attempts[child]) &&
    s.ops[shard.attempts[child]].reply.err != Some(ReturnError.ReadFailed)
  }

  lemma ValidIffAttempted(s: State, shard: ShardRun, i: nat)
    requires Inv(s) && Finished(s, shard) && i < |shard.pool.results|
    ensures Results(shard.pool)[i].Valid(s.run) <==> Attempted(s, shard, shard.lease.childStart + i)
    ensures Attempted(s, shard, shard.lease.childStart + i) ==> Counted(Results(shard.pool)[i])
  {
    var c := shard.lease.childStart + i;
    ResultOrigin(s, shard, i);
    if c in shard.pool.done && c in shard.attempts {
      AttemptNames(s, shard.lease, shard.attempt, i, shard.attempts[c], Results(shard.pool)[i]);
      assert OpInv(s, shard.attempts[c]);
    }
  }

  /** Over HTTP the results of a call arrive exactly when every child of the lease was attempted and none of its
      attempts failed to read the store. They then arrive without the call's error; otherwise none arrives. */
  lemma RemoteDeliversIff(s: State, shard: ShardRun)
    requires Inv(s) && Finished(s, shard)
    ensures
      var local := LocalReply(s, shard);
      RemoteReply(s.run, local) ==
        if AllAttempted(s, shard) then ShardReply(local.results, false) else REFUSED
  {
    AllValidIff(s, shard);
    if AllAttempted(s, shard) { FirstCounted(s, shard); }
  }

  lemma FirstCounted(s: State, shard: ShardRun)
    requires Inv(s) && Finished(s, shard) && AllAttempted(s, shard)
    ensures SomeCounted(Results(shard.pool))
  {
    PoolSize(s.run, shard);
    assert Attempted(s, shard, shard.lease.childStart);
    ValidIffAttempted(s, shard, 0);
    assert Counted(Results(shard.pool)[0]);
  }

  lemma AllValidIff(s: State, shard: ShardRun)
    requires Inv(s) && Finished(s, shard)
    ensures AllValid(s.run, Results(shard.pool)) <==> AllAttempted(s, shard)
  {
    if AllValid(s.run, Results(shard.pool)) { ValidMeansAttempted(s, shard); }
    if AllAttempted(s, shard) { AttemptedMeansValid(s, shard); }
  }

  lemma ValidMeansAttempted(s: State, shard: ShardRun)
    requires Inv(s) && Finished(s, shard) && AllValid(s.run, Results(shard.pool))
    ensures AllAttempted(s, shard)
  {
    var start := shard.lease.childStart;
    PoolSize(s.run, shard);
    forall c | start <= c < start + shard.lease.childCount ensures Attempted(s, shard, c) {
      assert Results(shard.pool)[c - start].Valid(s.run);
      ValidIffAttempted(s, shard, c - start);
    }
  }

  lemma AttemptedMeansValid(s: State, shard: ShardRun)
    requires Inv(s) && Finished(s, shard) && AllAttempted(s, shard)
    ensures AllValid(s.run, Results(shard.pool))
  {
    PoolSize(s.run, shard);
    forall i: nat | i < |Results(shard.pool)| ensures Results(shard.pool)[i].Valid(s.run) {
      assert Attempted(s, shard, shard.lease.childStart + i);
      ValidIffAttempted(s, shard, i);
    }
  }

  ghost predicate AllAttempted(s: State, shard: ShardRun) {
    forall c :: shard.lease.childStart <= c < shard.lease.childStart + shard.lease.childCount ==>
      Attempted(s, shard, c)
  }

  lemma PoolSize(run: BundleRun, shard: ShardRun)
    requires shard.lease.Valid(run) && Scheduled(ShardPool.ShapeOf(run, shard.lease), shard.pool)
    ensures |shard.pool.results| == shard.lease.childCount >= 1
  {
    var shape := ShardPool.ShapeOf(run, shard.lease);
    ShardPool.ShapeOfLease(run, shard.lease);
    var events :| ShardPool.RunAll(ShardPool.Start(shape), events) == Some(shard.pool);
    ShardPool.RunAllInv(shape, events);
  }

  /** A call on the agent itself is without error exactly when every child of the lease was attempted, by an attempt
      that returned no error. */
  lemma LocalFailsIff(s: State, shard: ShardRun)
    requires Inv(s) && Finished(s, shard)
    ensures !LocalReply(s, shard).failed <==>
      forall c :: shard.lease.Range().Contains(c) ==> c in shard.pool.done && !Errs(s, shard, c)
  {
    var shape, range := ShardPool.ShapeOf(s.run, shard.lease), shard.lease.Range();
    ShardPool.ShapeOfLease(s.run, shard.lease);
    PoolDone(shape, shard.pool);
    if !LocalReply(s, shard).failed {
      forall c | range.Contains(c) ensures c in shard.pool.done && !Errs(s, shard, c) { assert c in shard.pool.done; }
    }
  }

  /** Children outside the lease are never run, a cancelled call has left one out, another none. */
  lemma PoolDone(shape: ShardPool.Shape, pool: ShardPool.Pool)
    requires shape.Valid() && Scheduled(shape, pool)
    ensures forall c :: c in pool.done ==> shape.start <= c < shape.end
    ensures !pool.phase.cancelled <==> forall c :: shape.start <= c < shape.end ==> c in pool.done
  {
    var events :| ShardPool.RunAll(ShardPool.Start(shape), events) == Some(pool);
    ShardPool.RunAllInv(shape, events);
    CancelledLeaves(shape, events);
    if pool.phase.cancelled {
      assert pool.next !in pool.handed && shape.start <= pool.next < shape.end;
    } else {
      forall c | shape.start <= c < shape.end ensures c in pool.done { assert ShardPool.HandedOk(pool, c); }
    }
  }

  lemma {:induction false} CancelledLeaves(shape: ShardPool.Shape, events: seq<ShardPool.Event>)
    requires shape.Valid() && ShardPool.RunAll(ShardPool.Start(shape), events).Some?
    ensures
      var p := ShardPool.RunAll(ShardPool.Start(shape), events).value;
      p.phase == ShardPool.Closed(true) || p.phase == ShardPool.Joined(true) ==> p.next < p.end
  {
    if events != [] { CancelledLeaves(shape, events[..|events| - 1]); }
  }

  ghost predicate FromCleanAttempt(s: State, shard: ShardRun, i: nat, r: AttemptResult) {
    var c := shard.lease.childStart + i;
    && c in shard.attempts
    && FromAttempt(s, shard.lease, shard.attempt, i, shard.attempts[c], r)
    && s.ops[shard.attempts[c]].reply.err.None?
  }

  /** A reply of the agent itself without an error: every child of the lease is in it, with an attempt that
      returned no error. */
  lemma LocalWithoutError(s: State, shard: ShardRun, i: nat)
    requires Inv(s) && Finished(s, shard) && !LocalReply(s, shard).failed
    requires i < |shard.pool.results|
    ensures shard.lease.Range().Contains(shard.lease.childStart + i) ==> Counted(Results(shard.pool)[i])
    ensures Counted(Results(shard.pool)[i]) ==> FromCleanAttempt(s, shard, i, Results(shard.pool)[i])
  {
    var c := shard.lease.childStart + i;
    ShardPool.ShapeOfLease(s.run, shard.lease);
    PoolResult(ShardPool.ShapeOf(s.run, shard.lease), shard.pool, i);
    ResultOrigin(s, shard, i);
    if c in shard.pool.done {
      assert !Errs(s, shard, c) && Delivered(s, shard, c);
      AttemptNames(s, shard.lease, shard.attempt, i, shard.attempts[c], Results(shard.pool)[i]);
    }
  }
}
