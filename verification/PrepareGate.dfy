/** The per-run gate of prepare and release operations: a reference-counted mutex, built from a channel holding
    one token, that is deleted with its last reference and whose waiters may be cancelled. */
module PrepareGate {
  import opened Text

  /** `tokens` is the number of buffered channel elements; the channel has capacity one. */
  datatype Gate = Gate(tokens: nat, refs: int)

  /** The gate after an operation has found it, or created it with its token in place. */
  function Opened(found: Option<Gate>): Gate {
    match found
    case None => Gate(1, 1)
    case Some(g) => g.(refs := g.refs + 1)
  }

  function Left(g: Gate): Gate { g.(refs := g.refs - 1) }

  // --- The runner's methods

  class PrepareOperation {
    var tokens: nat
    var refs: int

    constructor ()
      ensures View() == Gate(1, 0)
    {
      tokens := 1;
      refs := 0;
    }

    function View(): Gate
      reads this
    {
      Gate(tokens, refs)
    }

    /** One branch of the `select`; the other is cancellation. */
    method TryReceive() returns (ok: bool)
      modifies this
      ensures ok <==> old(tokens) > 0
      ensures View() == if ok then Gate(old(tokens) - 1, old(refs)) else old(View())
    {
      ok := tokens > 0;
      if ok {
        tokens := tokens - 1;
      }
    }

    /** A send on the full channel would block: it reports false and changes nothing. */
    method TrySend() returns (ok: bool)
      modifies this
      ensures ok <==> old(tokens) == 0
      ensures View() == if ok then Gate(1, old(refs)) else old(View())
    {
      ok := tokens == 0;
      if ok {
        tokens := 1;
      }
    }
  }

  class PrepareOps {
    var gates: map<string, PrepareOperation>

    constructor ()
      ensures gates == map[]
    {
      gates := map[];
    }

    /** The locked section at the start of `lockPrepareOperation`. */
    method Enter(runID: string) returns (gate: PrepareOperation)
      modifies this, if runID in gates then {gates[runID]} else {}
      ensures gates == old(gates)[runID := gate]
      ensures runID in old(gates) ==> gate == old(gates)[runID] && gate.View() == Opened(Some(old(gates[runID].View())))
      ensures runID !in old(gates) ==> fresh(gate) && gate.View() == Opened(None)
    {
      if runID in gates {
        gate := gates[runID];
      } else {
        gate := new PrepareOperation();
        gates := gates[runID := gate];
      }
      gate.refs := gate.refs + 1;
      assert gates == old(gates)[runID := gate];
    }

    method ReleasePrepareOperationRef(runID: string, gate: PrepareOperation)
      modifies this, gate
      ensures gate.View() == Left(old(gate.View()))
      ensures gates == if gate.refs == 0 && runID in old(gates) && old(gates)[runID] == gate then old(gates) - {runID}
        else old(gates)
    {
      gate.refs := gate.refs - 1;
      if gate.refs == 0 && runID in gates && gates[runID] == gate {
        gates := gates - {runID};
      }
    }
  }

  // --- Every interleaving of operations on the gates

  datatype Op =
    | Waiting(run: string, gate: nat)
    | Holding(run: string, gate: nat)
    | Leaving(run: string, gate: nat)  // cancelled, or the token is back; the reference is still held

  /** Gates live at addresses: a deleted gate's successor is a new object. */
  datatype State = State(gates: map<string, nat>, cells: map<nat, Gate>, ops: map<nat, Op>)

  datatype Event = Arrive(run: string, address: nat) | Receive | Abandon | Unlock | Leave

  predicate Init(s: State) { s.gates == map[] && s.ops == map[] }

  predicate Enabled(s: State, o: nat, e: Event) {
    match e
    case Arrive(run, address) => o !in s.ops &&
      (if run in s.gates then s.gates[run] in s.cells else address !in s.cells)
    case Receive => o in s.ops && s.ops[o].Waiting? && s.ops[o].gate in s.cells && s.cells[s.ops[o].gate].tokens > 0
    case Abandon => o in s.ops && s.ops[o].Waiting?
    case Unlock => o in s.ops && s.ops[o].Holding? && s.ops[o].gate in s.cells && s.cells[s.ops[o].gate].tokens == 0
    case Leave => o in s.ops && s.ops[o].Leaving? && s.ops[o].gate in s.cells
  }

  function Step(s: State, o: nat, e: Event): State
    requires Enabled(s, o, e)
  {
    match e
    case Arrive(run, address) =>
      var g := if run in s.gates then s.gates[run] else address;
      State(s.gates[run := g], s.cells[g := Opened(if run in s.gates then Some(s.cells[g]) else None)],
        s.ops[o := Waiting(run, g)])
    case Receive =>
      var op := s.ops[o];
      s.(cells := s.cells[op.gate := s.cells[op.gate].(tokens := s.cells[op.gate].tokens - 1)],
        ops := s.ops[o := Holding(op.run, op.gate)])
    case Abandon => s.(ops := s.ops[o := Leaving(s.ops[o].run, s.ops[o].gate)])
    case Unlock =>
      var op := s.ops[o];
      s.(cells := s.cells[op.gate := s.cells[op.gate].(tokens := 1)], ops := s.ops[o := Leaving(op.run, op.gate)])
    case Leave =>
      var op := s.ops[o];
      var g := Left(s.cells[op.gate]);
      State(if g.refs == 0 && op.run in s.gates && s.gates[op.run] == op.gate then s.gates - {op.run} else s.gates,
            s.cells[op.gate := g], s.ops - {o})
  }

  function OpsOn(s: State, g: nat): set<nat> { set o | o in s.ops && s.ops[o].gate == g }

  function Holders(s: State, g: nat): set<nat> { set o | o in s.ops && s.ops[o].Holding? && s.ops[o].gate == g }

  predicate OpOk(s: State, o: nat)
    requires o in s.ops
  {
    s.ops[o].run in s.gates && s.gates[s.ops[o].run] == s.ops[o].gate
  }

  predicate GateOk(s: State, run: string)
    requires run in s.gates
  {
    var g := s.gates[run];
    g in s.cells && s.cells[g].refs == |OpsOn(s, g)| && s.cells[g].refs > 0 && s.cells[g].tokens + |Holders(s, g)| == 1
  }

  predicate Inv(s: State) {
    && (forall o :: o in s.ops ==> OpOk(s, o))
    && (forall run :: run in s.gates ==> GateOk(s, run))
    && (forall q, r :: q in s.gates && r in s.gates && s.gates[q] == s.gates[r] ==> q == r)
  }

  lemma OthersStay(s: State, o: nat, e: Event)
    requires Enabled(s, o, e)
    ensures forall p :: p != o ==> (p in Step(s, o, e).ops <==> p in s.ops)
    ensures forall p :: p != o && p in s.ops ==> Step(s, o, e).ops[p] == s.ops[p]
  {
  }

  /** The sets change by the stepping operation only. */
  lemma SetsStep(s: State, t: State, o: nat, g: nat)
    requires forall p :: p != o ==> (p in t.ops <==> p in s.ops)
    requires forall p :: p != o && p in s.ops ==> t.ops[p] == s.ops[p]
    ensures OpsOn(t, g) == if o in t.ops && t.ops[o].gate == g then OpsOn(s, g) + {o} else OpsOn(s, g) - {o}
    ensures Holders(t, g) == if o in t.ops && t.ops[o].Holding? && t.ops[o].gate == g then Holders(s, g) + {o}
      else Holders(s, g) - {o}
  {
  }

  /** A run other than the stepping operation's keeps its gate as it was. */
  lemma OtherGate(s: State, o: nat, e: Event, run: string)
    requires Inv(s) && Enabled(s, o, e) && run in s.gates
    requires if e.Arrive? then run != e.run else run != s.ops[o].run
    ensures run in Step(s, o, e).gates && GateOk(Step(s, o, e), run)
    ensures o in s.ops ==> s.ops[o].gate != s.gates[run]
  {
    var t, g := Step(s, o, e), s.gates[run];
    assert GateOk(s, run);
    if o in s.ops { assert OpOk(s, o); }
    assert o in t.ops ==> t.ops[o].gate != g;
    OtherGateCell(s, o, e, run);
    OthersStay(s, o, e);
    SetsStep(s, t, o, g);
    assert OpsOn(t, g) == OpsOn(s, g) && Holders(t, g) == Holders(s, g);
    SameGate(s, t, run);
  }

  lemma SameGate(s: State, t: State, run: string)
    requires run in s.gates && GateOk(s, run) && run in t.gates && t.gates[run] == s.gates[run]
    requires s.gates[run] in t.cells && t.cells[s.gates[run]] == s.cells[s.gates[run]]
    requires OpsOn(t, s.gates[run]) == OpsOn(s, s.gates[run]) && Holders(t, s.gates[run]) == Holders(s, s.gates[run])
    ensures GateOk(t, run)
  {
  }

  lemma OtherGateCell(s: State, o: nat, e: Event, run: string)
    requires Enabled(s, o, e) && run in s.gates && s.gates[run] in s.cells
    requires if e.Arrive? then run != e.run && (e.run in s.gates ==> s.gates[e.run] != s.gates[run])
             else run != s.ops[o].run && s.ops[o].gate != s.gates[run]
    ensures
      var t := Step(s, o, e);
      run in t.gates && t.gates[run] == s.gates[run] && s.gates[run] in t.cells &&
        t.cells[s.gates[run]] == s.cells[s.gates[run]]
  {
  }

  lemma ArriveGate(s: State, o: nat, run: string, address: nat)
    requires Inv(s) && Enabled(s, o, Arrive(run, address))
    ensures GateOk(Step(s, o, Arrive(run, address)), run)
  {
    var t := Step(s, o, Arrive(run, address));
    OthersStay(s, o, Arrive(run, address));
    SetsStep(s, t, o, t.gates[run]);
    if run in s.gates {
      assert GateOk(s, run);
    } else {
      forall p | p in s.ops ensures s.ops[p].gate != address { assert OpOk(s, p) && GateOk(s, s.ops[p].run); }
      assert OpsOn(s, address) == {} && Holders(s, address) == {};
    }
    assert Holders(t, t.gates[run]) == Holders(s, t.gates[run]);
  }

  lemma OwnGate(s: State, o: nat, e: Event)
    requires Inv(s) && Enabled(s, o, e) && !e.Arrive? && s.ops[o].run in Step(s, o, e).gates
    ensures GateOk(Step(s, o, e), s.ops[o].run)
  {
    var t, g := Step(s, o, e), s.ops[o].gate;
    assert OpOk(s, o) && GateOk(s, s.ops[o].run);
    OwnSets(s, o, e);
    assert t.gates[s.ops[o].run] == g;
    OwnCell(s, o, e);
  }

  /** What the operation's step does to the sets of its gate. */
  lemma OwnSets(s: State, o: nat, e: Event)
    requires Enabled(s, o, e) && !e.Arrive?
    ensures
      var t, g := Step(s, o, e), s.ops[o].gate;
      && |OpsOn(t, g)| == |OpsOn(s, g)| - (if e.Leave? then 1 else 0)
      && |Holders(t, g)| == |Holders(s, g)| + (if e.Receive? then 1 else if e.Unlock? then -1 else 0)
  {
    var t, g := Step(s, o, e), s.ops[o].gate;
    OthersStay(s, o, e);
    SetsStep(s, t, o, g);
    var ops, holders := OpsOn(s, g), Holders(s, g);
    assert o in ops && (o in holders <==> e.Unlock?);
    match e
    case Receive => assert ops + {o} == ops;
    case Abandon => assert ops + {o} == ops && holders - {o} == holders;
    case Unlock => assert ops + {o} == ops;
    case Leave => assert holders - {o} == holders;
  }

  lemma OwnCell(s: State, o: nat, e: Event)
    requires Enabled(s, o, e) && !e.Arrive? && s.ops[o].gate in s.cells && s.cells[s.ops[o].gate].tokens <= 1
    requires s.ops[o].run in s.gates && s.gates[s.ops[o].run] == s.ops[o].gate && s.ops[o].run in Step(s, o, e).gates
    ensures
      var t, g := Step(s, o, e), s.ops[o].gate;
      && g in t.cells && t.gates[s.ops[o].run] == g
      && t.cells[g].refs == s.cells[g].refs - (if e.Leave? then 1 else 0)
      && t.cells[g].tokens == s.cells[g].tokens + (if e.Receive? then -1 else if e.Unlock? then 1 else 0)
      && (e.Leave? ==> t.cells[g].refs != 0)
  {
  }

  lemma GateStep(s: State, o: nat, e: Event, run: string)
    requires Inv(s) && Enabled(s, o, e) && run in Step(s, o, e).gates
    ensures GateOk(Step(s, o, e), run)
  {
    if e.Arrive? && run == e.run {
      ArriveGate(s, o, run, e.address);
    } else if !e.Arrive? && run == s.ops[o].run {
      OwnGate(s, o, e);
    } else {
      OtherGate(s, o, e, run);
    }
  }

  /** A gate leaves the map only when no other operation refers to it. */
  lemma OpStep(s: State, o: nat, e: Event, p: nat)
    requires Inv(s) && Enabled(s, o, e) && p in Step(s, o, e).ops
    ensures OpOk(Step(s, o, e), p)
  {
    if p in s.ops { assert OpOk(s, p) && GateOk(s, s.ops[p].run); }
    if o in s.ops { assert OpOk(s, o); }
    if e.Leave? && s.ops[o].gate == s.ops[p].gate {
      var all := OpsOn(s, s.ops[o].gate);
      assert o in all && p in all - {o};
      assert |all| == |all - {o}| + 1;
    }
  }

  lemma StepInv(s: State, o: nat, e: Event)
    requires Inv(s) && Enabled(s, o, e)
    ensures Inv(Step(s, o, e))
  {
    var t := Step(s, o, e);
    forall p | p in t.ops ensures OpOk(t, p) { OpStep(s, o, e, p); }
    forall run | run in t.gates ensures GateOk(t, run) { GateStep(s, o, e, run); }
    GatesStayApart(s, o, e);
  }

  lemma GatesStayApart(s: State, o: nat, e: Event)
    requires Inv(s) && Enabled(s, o, e)
    ensures var t := Step(s, o, e); forall q, r :: q in t.gates && r in t.gates && t.gates[q] == t.gates[r] ==> q == r
  {
    assert forall run :: run in s.gates ==> GateOk(s, run);
  }

  function RunAll(s: State, schedule: seq<(nat, Event)>): Option<State> {
    if schedule == [] then Some(s)
    else
      var before, last := RunAll(s, schedule[..|schedule| - 1]), schedule[|schedule| - 1];
      if before.Some? && Enabled(before.value, last.0, last.1) then Some(Step(before.value, last.0, last.1)) else None
  }

  lemma {:induction false} InvAlways(s: State, schedule: seq<(nat, Event)>)
    requires Init(s)
    ensures RunAll(s, schedule).Some? ==> Inv(RunAll(s, schedule).value)
  {
    if schedule != [] {
      var n := |schedule| - 1;
      InvAlways(s, schedule[..n]);
      var before := RunAll(s, schedule[..n]);
      if before.Some? && Enabled(before.value, schedule[n].0, schedule[n].1) {
        StepInv(before.value, schedule[n].0, schedule[n].1);
      }
    }
  }

  lemma AtMostOne(s: set<nat>, a: nat, b: nat)
    requires |s| <= 1 && a in s && b in s
    ensures a == b
  {
    assert |s - {a}| == 0;
  }

  /** In every interleaving, cancellations included, at most one operation holds the gate of a run id, although
      gates are deleted and created anew. */
  lemma MutualExclusion(s: State, schedule: seq<(nat, Event)>, p: nat, q: nat)
    requires Init(s) && RunAll(s, schedule).Some?
    requires p in RunAll(s, schedule).value.ops && q in RunAll(s, schedule).value.ops
    requires RunAll(s, schedule).value.ops[p].Holding? && RunAll(s, schedule).value.ops[q].Holding?
    requires RunAll(s, schedule).value.ops[p].run == RunAll(s, schedule).value.ops[q].run
    ensures p == q
  {
    InvAlways(s, schedule);
    var t := RunAll(s, schedule).value;
    assert OpOk(t, p) && OpOk(t, q) && GateOk(t, t.ops[p].run);
    AtMostOne(Holders(t, t.ops[p].gate), p, q);
  }

  /** The token and the holder are one; the references are the operations in flight; a gate is in the map exactly
      while some operation is in flight on its run. */
  lemma GateAccounts(s: State, schedule: seq<(nat, Event)>, run: string)
    requires Init(s) && RunAll(s, schedule).Some?
    ensures
      var t := RunAll(s, schedule).value;
      && (run in t.gates <==> exists o :: o in t.ops && t.ops[o].run == run)
      && (run in t.gates ==>
            var g := t.gates[run];
            g in t.cells && t.cells[g].tokens + |Holders(t, g)| == 1 && t.cells[g].refs == |OpsOn(t, g)| &&
            forall o :: o in t.ops ==> (o in OpsOn(t, g) <==> t.ops[o].run == run))
      && (t.ops == map[] ==> t.gates == map[])
  {
    InvAlways(s, schedule);
    var t := RunAll(s, schedule).value;
    forall r | r in t.gates ensures exists o :: o in t.ops && t.ops[o].run == r {
      assert GateOk(t, r);
      var o :| o in OpsOn(t, t.gates[r]);
      assert OpOk(t, o);
    }
    forall o | o in t.ops ensures OpOk(t, o) {}
    if run in t.gates { assert GateOk(t, run); }
  }

  /** Unlocking never blocks, and no wake-up is lost: a waiter can receive whenever nobody holds its gate. */
  lemma NeverStuck(s: State, schedule: seq<(nat, Event)>, o: nat)
    requires Init(s) && RunAll(s, schedule).Some? && o in RunAll(s, schedule).value.ops
    ensures
      var t := RunAll(s, schedule).value;
      && (t.ops[o].Holding? ==> Enabled(t, o, Unlock))
      && (t.ops[o].Leaving? ==> Enabled(t, o, Leave))
      && (t.ops[o].Waiting? ==> (Enabled(t, o, Receive) <==> Holders(t, t.ops[o].gate) == {}))
  {
    InvAlways(s, schedule);
    var t := RunAll(s, schedule).value;
    assert OpOk(t, o) && GateOk(t, t.ops[o].run);
    if t.ops[o].Holding? { assert o in Holders(t, t.ops[o].gate); }
  }
}
