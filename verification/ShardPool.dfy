/** RunShard's workers: one goroutine hands children out in order over an unbuffered channel, a fixed number
    of goroutines run them, and the call returns once every worker has stopped. */
module ShardPool {
  import opened Text
  import opened Contracts
  import opened Collections

  datatype Phase = Dispatching | Closed(cancelled: bool) | Joined(cancelled: bool)

  /** `busy` holds the child each working goroutine runs. `handed` and `done` record, for the proofs, which
      worker received a child and what its attempt returned; no step reads them. */
  datatype Pool = Pool(
      start: int, end: int, workers: nat, next: int, busy: map<nat, int>, results: seq<Option<AttemptResult>>,
      phase: Phase, handed: map<int, nat>, done: map<int, AttemptResult>)

  datatype Event = Hand(worker: nat) | Finish(worker: nat, result: AttemptResult) | Cancel | Close | Join

  /** `fleet.RequiredInFlightSlots` */
  function RequiredInFlightSlots(childCount: int, maxInFlight: int): int {
    if childCount <= maxInFlight then childCount else maxInFlight
  }

  function ShardSlotDemand(run: BundleRun, lease: ShardLease): int {
    RequiredInFlightSlots(lease.childCount, run.policy.maxInFlightPerAgent)
  }

  /** The numbers of a lease that its execution uses. */
  datatype Shape = Shape(start: int, end: int, count: nat, workers: nat) {
    predicate Valid() { 1 <= workers <= count && end - start <= count }
  }

  function ShapeOf(run: BundleRun, lease: ShardLease): (s: Shape)
    requires lease.Valid(run)
  {
    Shape(lease.childStart, lease.Range().End(), lease.childCount, ShardSlotDemand(run, lease))
  }

  lemma ShapeOfLease(run: BundleRun, lease: ShardLease)
    requires lease.Valid(run)
    ensures ShapeOf(run, lease).Valid()
    ensures
      var shape := ShapeOf(run, lease);
      && shape.start == lease.childStart && shape.count == lease.childCount
      && shape.workers <= lease.childCount && shape.workers <= run.policy.maxInFlightPerAgent
      && (shape.workers == lease.childCount || shape.workers == run.policy.maxInFlightPerAgent)
    ensures lease.childStart + lease.childCount <= MAX_INT64 ==>
      ShapeOf(run, lease).end == lease.childStart + lease.childCount
  {
    RangeHoldsItsChildren(lease.Range());
  }

  function Start(s: Shape): Pool {
    Pool(s.start, s.end, s.workers, s.start, map[], seq(s.count, _ => None), Dispatching, map[], map[])
  }

  predicate Enabled(p: Pool, e: Event) {
    match e
    case Hand(w) => p.phase.Dispatching? && p.next < p.end && w < p.workers && w !in p.busy
    case Finish(w, _) => w in p.busy && 0 <= p.busy[w] - p.start < |p.results|
    case Cancel => p.phase.Dispatching? && p.next < p.end
    case Close => p.phase.Dispatching? && p.next >= p.end
    case Join => p.phase.Closed? && p.busy == map[]
  }

  function Step(p: Pool, e: Event): Pool
    requires Enabled(p, e)
  {
    match e
    case Hand(w) => p.(next := p.next + 1, busy := p.busy[w := p.next], handed := p.handed[p.next := w])
    case Finish(w, r) =>
      p.(busy := p.busy - {w}, results := p.results[p.busy[w] - p.start := Some(r)], done := p.done[p.busy[w] := r])
    case Cancel => p.(phase := Closed(true))
    case Close => p.(phase := Closed(false))
    case Join => p.(phase := Joined(p.phase.cancelled))
  }

  predicate BusyOk(p: Pool, w: nat)
    requires w in p.busy
  {
    w < p.workers && p.busy[w] in p.handed && p.handed[p.busy[w]] == w && p.busy[w] !in p.done
  }

  predicate HandedOk(p: Pool, c: int)
    requires c in p.handed
  {
    c in p.done || (p.handed[c] in p.busy && p.busy[p.handed[c]] == c)
  }

  predicate ResultOk(p: Pool, i: nat)
    requires i < |p.results|
  {
    p.results[i] == if p.start + i in p.done then Some(p.done[p.start + i]) else None
  }

  ghost predicate Inv(p: Pool) {
    && p.start <= p.next
    && (p.next > p.start ==> p.next <= p.end)
    && p.end - p.start <= |p.results|
    && (forall c :: c in p.handed <==> p.start <= c < p.next)
    && p.done.Keys <= p.handed.Keys
    && (forall w :: w in p.busy ==> BusyOk(p, w))
    && (forall c :: c in p.handed ==> HandedOk(p, c))
    && (forall i: nat :: i < |p.results| ==> ResultOk(p, i))
    && (p.phase == Closed(false) || p.phase == Joined(false) ==> p.next >= p.end)
    && (p.phase.Joined? ==> p.busy == map[])
  }

  /** One step keeps the invariant, never hands a child out twice and never replaces a recorded result. */
  lemma StepInv(p: Pool, e: Event)
    requires Inv(p) && Enabled(p, e)
    ensures Inv(Step(p, e))
    ensures forall c :: c in p.handed ==> c in Step(p, e).handed && Step(p, e).handed[c] == p.handed[c]
    ensures forall c :: c in p.done ==> c in Step(p, e).done && Step(p, e).done[c] == p.done[c]
  {
    match e
    case Hand(w) => HandInv(p, w);
    case Finish(w, r) => FinishInv(p, w, r);
    case Cancel => SameWork(p, Step(p, e));
    case Close => SameWork(p, Step(p, e));
    case Join => SameWork(p, Step(p, e));
  }

  lemma SameWork(p: Pool, q: Pool)
    requires Inv(p) && q == p.(phase := q.phase)
    ensures forall w :: w in q.busy ==> BusyOk(q, w)
    ensures forall c :: c in q.handed ==> HandedOk(q, c)
    ensures forall i: nat :: i < |q.results| ==> ResultOk(q, i)
  {
    forall w | w in q.busy ensures BusyOk(q, w) { assert BusyOk(p, w); }
    forall c | c in q.handed ensures HandedOk(q, c) { assert HandedOk(p, c); }
    forall i: nat | i < |q.results| ensures ResultOk(q, i) { assert ResultOk(p, i); }
  }

  lemma HandInv(p: Pool, w: nat)
    requires Inv(p) && Enabled(p, Hand(w))
    ensures Inv(Step(p, Hand(w)))
  {
    var q := Step(p, Hand(w));
    forall v | v in q.busy ensures BusyOk(q, v) { if v != w { assert BusyOk(p, v); } }
    forall c | c in q.handed ensures HandedOk(q, c) { if c != p.next { assert HandedOk(p, c); } }
    forall i: nat | i < |q.results| ensures ResultOk(q, i) { assert ResultOk(p, i); }
  }

  lemma FinishInv(p: Pool, w: nat, r: AttemptResult)
    requires Inv(p) && Enabled(p, Finish(w, r))
    ensures Inv(Step(p, Finish(w, r)))
    ensures p.busy[w] !in p.done
  {
    var q := Step(p, Finish(w, r));
    assert BusyOk(p, w);
    forall v | v in q.busy ensures BusyOk(q, v) { assert BusyOk(p, v); }
    forall c | c in q.handed ensures HandedOk(q, c) { assert HandedOk(p, c); }
    forall i: nat | i < |q.results| ensures ResultOk(q, i) { assert ResultOk(p, i); }
  }

  function RunAll(p: Pool, events: seq<Event>): Option<Pool> {
    if events == [] then Some(p)
    else
      var before := RunAll(p, events[..|events| - 1]);
      if before.Some? && Enabled(before.value, events[|events| - 1])
        then Some(Step(before.value, events[|events| - 1])) else None
  }

  lemma {:induction false} RunAllInv(s: Shape, events: seq<Event>)
    requires s.Valid()
    ensures
      var p := RunAll(Start(s), events);
      p.Some? ==>
        Inv(p.value) && p.value.start == s.start && p.value.end == s.end && p.value.workers == s.workers &&
          |p.value.results| == s.count
  {
    if events != [] {
      var n := |events| - 1;
      RunAllInv(s, events[..n]);
      var before := RunAll(Start(s), events[..n]);
      if before.Some? && Enabled(before.value, events[n]) {
        StepInv(before.value, events[n]);
      }
    }
  }

  /** Every working goroutine of a reachable pool can store its result: the index is within the slice. */
  lemma WorkersCanFinish(s: Shape, events: seq<Event>, w: nat, r: AttemptResult)
    requires s.Valid() && RunAll(Start(s), events).Some? && w in RunAll(Start(s), events).value.busy
    ensures Enabled(RunAll(Start(s), events).value, Finish(w, r))
  {
    RunAllInv(s, events);
    assert BusyOk(RunAll(Start(s), events).value, w);
  }

  /** How many steps are left at most. */
  function StepsLeft(p: Pool): nat {
    2 * (if p.next < p.end then p.end - p.next else 0) + |p.busy| +
    (if p.phase.Dispatching? then 2 else if p.phase.Closed? then 1 else 0)
  }

  /** No call hangs. Until it has returned, a worker that runs can finish; a child that is left can be handed to any
      idle worker, however many run; and when nothing is left to run or to wait for, the call goes on to its return.
      Every step leaves fewer. */
  lemma NeverStuck(s: Shape, events: seq<Event>, r: AttemptResult)
    requires s.Valid() && RunAll(Start(s), events).Some? && !RunAll(Start(s), events).value.phase.Joined?
    ensures
      var p := RunAll(Start(s), events).value;
      && (forall w: nat :: w < s.workers && w !in p.busy && p.phase.Dispatching? && p.next < p.end ==>
            Enabled(p, Hand(w)))
      && (forall w :: w in p.busy ==> Enabled(p, Finish(w, r)))
      && (p.busy == map[] ==> Enabled(p, Hand(0)) || Enabled(p, Close) || Enabled(p, Join))
  {
    RunAllInv(s, events);
    var p := RunAll(Start(s), events).value;
    forall w | w in p.busy ensures Enabled(p, Finish(w, r)) { WorkersCanFinish(s, events, w, r); }
  }

  lemma FewerLeft(p: Pool, e: Event)
    requires Enabled(p, e)
    ensures StepsLeft(Step(p, e)) < StepsLeft(p)
  {
    match e
    case Hand(w) => assert p.busy[w := p.next].Keys == p.busy.Keys + {w}; SizeOf(p.busy); SizeOf(p.busy[w := p.next]);
    case Finish(w, _) => assert (p.busy - {w}).Keys == p.busy.Keys - {w}; SizeOf(p.busy); SizeOf(p.busy - {w});
    case _ =>
  }

  lemma SizeOf(m: map<nat, int>)
    ensures |m| == |m.Keys|
  {
  }

  lemma BusyBound(p: Pool)
    requires Inv(p)
    ensures |p.busy| <= p.workers
  {
    RangeSize(0, p.workers);
    forall w | w in p.busy ensures (w as int) in Range(0, p.workers) { assert BusyOk(p, w); }
    InjectionSize(p.busy.Keys, Range(0, p.workers), map w: nat | w in p.busy :: w as int);
  }

  /** Under every schedule: at most min(childCount, maxInFlightPerAgent) children run at once, no two workers run
      the same one; the children handed out are a prefix of the lease; a finished child's result is at its own
      index and every other index is empty. */
  lemma ScheduleSafety(s: Shape, events: seq<Event>)
    requires s.Valid() && RunAll(Start(s), events).Some?
    ensures
      var p := RunAll(Start(s), events).value;
      && |p.busy| <= s.workers
      && (forall v, w :: v in p.busy && w in p.busy && p.busy[v] == p.busy[w] ==> v == w)
      && (forall c :: c in p.handed <==> s.start <= c < p.next)
      && |p.results| == s.count
      && forall i: nat :: i < s.count ==> ResultOk(p, i)
  {
    RunAllInv(s, events);
    var p := RunAll(Start(s), events).value;
    BusyBound(p);
    forall v, w | v in p.busy && w in p.busy && p.busy[v] == p.busy[w] ensures v == w {
      assert BusyOk(p, v) && BusyOk(p, w);
    }
  }

  /** When the call returns, no worker runs, so no guest outlives the reservation released after it. Undisturbed,
      every child of the lease has its result; cancelled, exactly a prefix of the lease does. */
  lemma ReturnedResults(s: Shape, events: seq<Event>)
    requires s.Valid() && RunAll(Start(s), events).Some? && RunAll(Start(s), events).value.phase.Joined?
    ensures
      var p := RunAll(Start(s), events).value;
      && p.busy == map[]
      && |p.results| == s.count
      && (!p.phase.cancelled ==> p.next >= s.end)
      && forall i: nat :: s.start + i < s.end ==> ReturnedAt(p, i)
  {
    RunAllInv(s, events);
    var p := RunAll(Start(s), events).value;
    forall i: nat | s.start + i < s.end ensures ReturnedAt(p, i) {
      assert ResultOk(p, i);
      if s.start + i < p.next { assert HandedOk(p, s.start + i); }
    }
  }

  /** The i-th result is the one its child's attempt returned, if that child was handed out, and empty if not. */
  predicate ReturnedAt(p: Pool, i: nat) {
    i < |p.results| &&
    if p.start + i < p.next then p.start + i in p.done && p.results[i] == Some(p.done[p.start + i])
      else p.results[i].None?
  }
}
