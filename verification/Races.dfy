/** Concrete executions of the commit protocol: one run of one child, attempted by two agents. */
module Races {
  import opened Text
  import opened Contracts
  import opened ResultLayout
  import opened ResultStore
  import opened Machine
  import opened Output
  import opened Attempts
  import opened CommitProtocol
  import opened Planner

  // --- Reachability

  ghost function Fresh(run: BundleRun): State { State(run, map[], map[], map[]) }

  /** The state with one operation changed. */
  function With(s: State, o: nat, op: Op): State { s.(ops := s.ops[o := op]) }

  lemma WithTwice(s: State, o: nat, a: Op, b: Op)
    ensures With(With(s, o, a), o, b) == With(s, o, b)
  {
    assert s.ops[o := a][o := b] == s.ops[o := b];
  }

  /** No step leads out of the set. */
  ghost predicate Closed(reach: iset<State>) {
    forall t, o: nat, e :: t in reach && Enabled(t, o, e) ==> Step(t, o, e) in reach
  }

  type ClosedSet = reach: iset<State> | Closed(reach) ghost witness iset{}

  ghost predicate Leads(s: State, t: State) { exists trace :: Path(trace, s, t) }

  ghost function Reachable(s: State): iset<State> { iset t | Leads(s, t) }

  lemma ReachableIsClosed(s: State)
    ensures s in Reachable(s) && Closed(Reachable(s))
  {
    assert Path([s], s, s);
    forall t, o: nat, e | t in Reachable(s) && Enabled(t, o, e) ensures Step(t, o, e) in Reachable(s) {
      var trace :| Path(trace, s, t);
      assert Next(t, Step(t, o, e));
      PathOnward(trace, s, t, Step(t, o, e));
    }
  }

  lemma PathOnward(trace: seq<State>, s: State, t: State, u: State)
    requires Path(trace, s, t) && Next(t, u)
    ensures Path(trace + [u], s, u)
  {
    var longer := trace + [u];
    assert forall i: nat :: i < |trace| ==> longer[i] == trace[i];
    forall i: nat | i + 1 < |longer| ensures StepAt(longer, i) {
      if i + 1 < |trace| { assert StepAt(trace, i); }
    }
  }

  /** What is reached from a fresh store is the end of an execution. */
  lemma ExecutionTo(run: BundleRun, t: State) returns (trace: seq<State>)
    requires run.Valid() && t in Reachable(Fresh(run))
    ensures Execution(trace) && trace[0] == Fresh(run) && trace[|trace| - 1] == t
  {
    trace :| Path(trace, Fresh(run), t);
  }

  // --- Steps, from what the store answers

  lemma Arrives(reach: ClosedSet, t: State, o: nat, req: ChildRequest)
    requires t in reach && o !in t.ops && Admissible(t.run, req)
    ensures With(t, o, Reading(req)) in reach
  {
    assert Enabled(t, o, Arrive(req));
  }

  lemma Reads(reach: ClosedSet, t: State, o: nat, req: ChildRequest, w: World, op: Op)
    requires t in reach && o in t.ops && t.ops[o] == Reading(req) && w.Honest()
    requires op == ReadStep(t.docs, req, w, NoFault)
    ensures With(t, o, op) in reach
  {
    assert Enabled(t, o, Read(w, NoFault));
  }

  lemma Executes(reach: ClosedSet, t: State, o: nat, req: ChildRequest, w: World, r: AttemptResult)
    requires t in reach && o in t.ops && t.ops[o] == Executing(req) && w.Honest()
    requires Decide(req, w) == CommitThenRecord(r)
    ensures With(t, o, Committing(req, r)) in reach
  {
    assert Enabled(t, o, Execute(w));
  }

  lemma Commits(reach: ClosedSet, t: State, o: nat, req: ChildRequest, r: AttemptResult, fault: Fault, ms: real,
      docs: Docs, reply: WriteReply, u: State)
    requires t in reach && o in t.ops && t.ops[o] == Committing(req, r) && ms >= 0.0
    requires CommitTerminal(t.docs, t.run, r, fault) == (docs, reply)
    requires u == With(State(t.run, docs, t.ops, if reply.Created? then t.winner[req.child := o] else t.winner), o,
      CommitStep(req, Timed(r, ms), reply))
    ensures u in reach
  {
    assert Enabled(t, o, Commit(fault, ms));
  }

  lemma Writes(reach: ClosedSet, t: State, o: nat, op: Op, docs: Docs, reply: WriteReply, u: State)
    requires t in reach && o in t.ops && t.ops[o] == op && op.Writing?
    requires WriteAttempt(t.docs, t.run, op.result, NoFault) == (docs, reply)
    requires u == With(t.(docs := docs), o, Returned(op.req, AfterWrite(op.result, op.otherwise, reply), op.origin))
    ensures u in reach
  {
    assert Enabled(t, o, Write(NoFault));
  }

  lemma Committable(docs: Docs, run: BundleRun, r: AttemptResult)
    requires r.Valid(run) && r.terminal && r.childID >= 0 && r.resultURI == TerminalURI(run, r.childID)
    ensures CommitTerminal(docs, run, r, FaultBefore) == (docs, StoreError)
    ensures
      var uri := TerminalURI(run, r.childID);
      CommitTerminal(docs, run, r, NoFault) == if uri in docs then (docs, Exists) else (docs[uri := r], Created)
  {
  }

  lemma Writable(docs: Docs, run: BundleRun, req: ChildRequest, r: AttemptResult)
    requires r.Valid(run) && r.childID == req.child >= 0 && req.attempt >= 0
    requires r.attemptID == FormatAttemptID(run.runID, req.child, req.attempt)
    ensures
      var uri := OwnAttemptURI(run, req);
      WriteAttempt(docs, run, r, NoFault) == if uri in docs then (docs, Exists) else (docs[uri := r], Created)
  {
  }

  lemma Findable(run: BundleRun, req: ChildRequest, w: World, r: AttemptResult)
    requires r.Valid(run) && r.terminal && Admissible(run, req) && r.childID == req.child
    ensures ReadStep(map[TerminalURI(run, req.child) := r], req, w, NoFault) == Writing(req, SkipResult(req, w, r),
      Skipped, None)
  {
  }

  lemma NothingToFind(run: BundleRun, req: ChildRequest, w: World)
    requires run.Valid() && Admissible(run, req)
    ensures ReadStep(map[], req, w, NoFault) == Executing(req)
  {
  }

  lemma NotBothURIs(run: BundleRun, req: ChildRequest)
    requires req.child >= 0 && req.attempt >= 0
    ensures OwnAttemptURI(run, req) != TerminalURI(run, req.child)
  {
    AttemptIsNotTerminal(run, req.child, FormatAttemptID(run.runID, req.child, req.attempt), req.child);
  }

  // --- Attempts with a document to commit

  /** An attempt that meets this world has the document r to commit. */
  ghost predicate Offers(run: BundleRun, req: ChildRequest, w: World, r: AttemptResult) {
    run.Valid() && Admissible(run, req) && w.Honest() && Decide(req, w) == CommitThenRecord(r)
  }

  lemma OfferedDoc(run: BundleRun, req: ChildRequest, w: World, r: AttemptResult)
    requires Offers(run, req, w, r)
    ensures r.Valid(run) && r.terminal && r.childID == req.child >= 0 && r.resultURI == TerminalURI(run, req.child)
    ensures req.attempt >= 0 && r.attemptID == FormatAttemptID(run.runID, req.child, req.attempt)
    ensures r.status.Succeeded? || r.status.Failed?
  {
    DecisionShape(req, w);
  }

  /** An attempt while nothing is stored, up to its commit call. */
  lemma Offer(reach: ClosedSet, t: State, o: nat, req: ChildRequest, w: World, r: AttemptResult)
    requires t in reach && t.docs == map[] && o !in t.ops && Offers(t.run, req, w, r)
    ensures With(t, o, Committing(req, r)) in reach
  {
    Arrives(reach, t, o, req);
    NothingToFind(t.run, req, w);
    Reads(reach, With(t, o, Reading(req)), o, req, w, Executing(req));
    WithTwice(t, o, Reading(req), Executing(req));
    Executes(reach, With(t, o, Executing(req)), o, req, w, r);
    WithTwice(t, o, Executing(req), Committing(req, r));
  }

  ghost function Offered(run: BundleRun, req: ChildRequest, r: AttemptResult): State {
    State(run, map[], map[0 := Committing(req, r)], map[])
  }

  ghost function Unstored(run: BundleRun, req: ChildRequest, r: AttemptResult): State {
    State(run, map[], map[0 := Returned(req, ChildReply(r, Some(CommitFailed)), Unwritten)], map[])
  }

  /** The stored document is the offered one, the attempt's record has the commit call timed. */
  ghost function WonState(run: BundleRun, req: ChildRequest, r: AttemptResult, record: AttemptResult): State
    requires req.child >= 0
  {
    State(run, map[TerminalURI(run, req.child) := r], map[0 := Writing(req, record, Won, None)], map[req.child := 0])
  }

  lemma FirstOffer(reach: ClosedSet, run: BundleRun, req: ChildRequest, w: World, r: AttemptResult)
    requires Fresh(run) in reach && Offers(run, req, w, r)
    ensures Offered(run, req, r) in reach
  {
    Offer(reach, Fresh(run), 0, req, w, r);
    assert Offered(run, req, r).ops == Fresh(run).ops[0 := Committing(req, r)];
  }

  lemma AnswersFirst(reach: ClosedSet, run: BundleRun, req: ChildRequest, r: AttemptResult, fault: Fault,
      ms: real, docs: Docs, reply: WriteReply)
    requires Offered(run, req, r) in reach && CommitTerminal(map[], run, r, fault) == (docs, reply) && ms >= 0.0
    ensures State(run, docs, map[0 := CommitStep(req, Timed(r, ms), reply)], if reply.Created? then map[req.child := 0]
      else map[]) in reach
  {
    var op := CommitStep(req, Timed(r, ms), reply);
    assert map[0 := Committing(req, r)][0 := op] == map[0 := op];
    Commits(reach, Offered(run, req, r), 0, req, r, fault, ms, docs, reply,
            State(run, docs, map[0 := op], if reply.Created? then map[req.child := 0] else map[]));
  }

  /** The commit call of an attempt fails before it writes. */
  lemma CommitFails(reach: ClosedSet, run: BundleRun, req: ChildRequest, w: World, r: AttemptResult, ms: real)
    requires Fresh(run) in reach && Offers(run, req, w, r) && ms >= 0.0
    ensures Unstored(run, req, Timed(r, ms)) in reach
  {
    FirstOffer(reach, run, req, w, r);
    OfferedDoc(run, req, w, r);
    Committable(map[], run, r);
    AnswersFirst(reach, run, req, r, FaultBefore, ms, map[], StoreError);
  }

  /** An attempt commits. */
  lemma CommitWins(reach: ClosedSet, run: BundleRun, req: ChildRequest, w: World, r: AttemptResult, ms: real)
    requires Fresh(run) in reach && Offers(run, req, w, r) && ms >= 0.0
    ensures WonState(run, req, r, Timed(r, ms)) in reach
  {
    FirstOffer(reach, run, req, w, r);
    OfferedDoc(run, req, w, r);
    Committable(map[], run, r);
    AnswersFirst(reach, run, req, r, NoFault, ms, map[TerminalURI(run, req.child) := r], Created);
  }

  ghost function SkippedState(run: BundleRun, first: ChildRequest, r: AttemptResult, record: AttemptResult,
      second: ChildRequest, skip: AttemptResult): State
    requires first.child >= 0
  {
    State(run, map[TerminalURI(run, first.child) := r, OwnAttemptURI(run, second) := skip],
      map[0 := Writing(first, record, Won, None), 1 := Returned(second, ChildReply(skip, None), Skipped)],
        map[first.child := 0])
  }

  /** An attempt commits; another then finds its document, skips, and records that. */
  lemma CommitThenSkip(reach: ClosedSet, run: BundleRun, first: ChildRequest, second: ChildRequest, w: World,
      r: AttemptResult, ms: real)
    requires Fresh(run) in reach && Offers(run, first, w, r) && Admissible(run, second) && ms >= 0.0
    requires second.child == first.child
    ensures SkippedState(run, first, r, Timed(r, ms), second, SkipResult(second, w, r)) in reach
  {
    CommitWins(reach, run, first, w, r, ms);
    OfferedDoc(run, first, w, r);
    SkipAnswers(run, second, w, r);
    SkipAfter(reach, run, first, second, w, r, Timed(r, ms), SkipResult(second, w, r));
  }

  lemma SkipAfter(reach: ClosedSet, run: BundleRun, first: ChildRequest, second: ChildRequest, w: World,
      r: AttemptResult, record: AttemptResult, skip: AttemptResult)
    requires first.child >= 0 && WonState(run, first, r, record) in reach && Admissible(run, second) && w.Honest()
    requires skip == SkipResult(second, w, r)
    requires ReadStep(map[TerminalURI(run, first.child) := r], second, w, NoFault) ==
      Writing(second, skip, Skipped, None)
    requires WriteAttempt(map[TerminalURI(run, first.child) := r], run, skip, NoFault) ==
      (map[TerminalURI(run, first.child) := r, OwnAttemptURI(run, second) := skip], Created)
    ensures SkippedState(run, first, r, record, second, skip) in reach
  {
    var s, docs := WonState(run, first, r, record), SkippedState(run, first, r, record, second, skip).docs;
    SkipSteps(reach, s, second, w, r, skip, docs);
    assert With(s.(docs := docs), 1, Returned(second, ChildReply(skip, None), Skipped)).ops ==
           SkippedState(run, first, r, record, second, skip).ops;
  }

  lemma SkipAnswers(run: BundleRun, req: ChildRequest, w: World, r: AttemptResult)
    requires Admissible(run, req) && w.Honest() && r.Valid(run) && r.terminal && r.childID == req.child
    ensures
      var docs, skip := map[TerminalURI(run, req.child) := r], SkipResult(req, w, r);
      && ReadStep(docs, req, w, NoFault) == Writing(req, skip, Skipped, None)
      && WriteAttempt(docs, run, skip, NoFault) ==
        (map[TerminalURI(run, req.child) := r, OwnAttemptURI(run, req) := skip], Created)
  {
    Findable(run, req, w, r);
    RecordsValid(req, w, r);
    Writable(map[TerminalURI(run, req.child) := r], run, req, SkipResult(req, w, r));
    NotBothURIs(run, req);
  }

  lemma SkipSteps(reach: ClosedSet, s: State, req: ChildRequest, w: World, r: AttemptResult, skip: AttemptResult,
      docs: Docs)
    requires s in reach && 1 !in s.ops && Admissible(s.run, req) && w.Honest()
    requires skip == SkipResult(req, w, r)
    requires ReadStep(s.docs, req, w, NoFault) == Writing(req, skip, Skipped, None)
    requires WriteAttempt(s.docs, s.run, skip, NoFault) == (docs, Created)
    ensures With(s.(docs := docs), 1, Returned(req, ChildReply(skip, None), Skipped)) in reach
  {
    var op := Writing(req, skip, Skipped, None);
    var done := Returned(req, ChildReply(skip, None), Skipped);
    Arrives(reach, s, 1, req);
    Reads(reach, With(s, 1, Reading(req)), 1, req, w, op);
    WithTwice(s, 1, Reading(req), op);
    WithTwice(s.(docs := docs), 1, op, done);
    Writes(reach, With(s, 1, op), 1, op, docs, Created, With(s.(docs := docs), 1, done));
  }

  ghost function Raced(run: BundleRun, docs: Docs, zero: Op, one: Op, winner: map<int, nat>): State {
    State(run, docs, map[0 := zero, 1 := one], winner)
  }

  lemma RacedWith(run: BundleRun, docs: Docs, zero: Op, one: Op, winner: map<int, nat>, op: Op)
    ensures With(Raced(run, docs, zero, one, winner), 0, op) == Raced(run, docs, op, one, winner)
    ensures With(Raced(run, docs, zero, one, winner), 1, op) == Raced(run, docs, zero, op, winner)
  {
    assert map[0 := zero, 1 := one][0 := op] == map[0 := op, 1 := one];
    assert map[0 := zero, 1 := one][1 := op] == map[0 := zero, 1 := op];
  }

  lemma BothOffer(reach: ClosedSet, run: BundleRun, first: ChildRequest, second: ChildRequest, w: World,
      r: AttemptResult, r2: AttemptResult)
    requires Fresh(run) in reach && Offers(run, first, w, r) && Offers(run, second, w, r2)
    ensures Raced(run, map[], Committing(first, r), Committing(second, r2), map[]) in reach
  {
    FirstOffer(reach, run, first, w, r);
    Offer(reach, Offered(run, first, r), 1, second, w, r2);
    assert Offered(run, first, r).ops[1 := Committing(second, r2)] ==
           map[0 := Committing(first, r), 1 := Committing(second, r2)];
  }

  /** Two attempts offer a document for one child. The first one's is stored, the second's finds it there, and with
      one attempt number, too, the loser's record finds the winner's in its place. */
  lemma CommitRace(reach: ClosedSet, run: BundleRun, first: ChildRequest, second: ChildRequest, w: World,
      r: AttemptResult, r2: AttemptResult, ms: real)
      returns (t: State)
    requires Fresh(run) in reach && Offers(run, first, w, r) && Offers(run, second, w, r2) && ms >= 0.0
    requires second.child == first.child && second.attempt == first.attempt
    ensures t in reach
    ensures 1 in t.ops
    ensures
      t.ops[1] == Returned(second, ChildReply(LostResult(Timed(r2, ms)), Some(AttemptNotWritten(Exists))), Lost)
    ensures t.run == run && OwnAttemptURI(run, second) in t.docs && t.docs[OwnAttemptURI(run, second)] == Timed(r, ms)
  {
    var docs := map[TerminalURI(run, first.child) := r];
    var record, lost := Timed(r, ms), LostResult(Timed(r2, ms));
    BothOffer(reach, run, first, second, w, r, r2);
    OfferedDoc(run, first, w, r);
    OfferedDoc(run, second, w, r2);
    CommitAnswers(run, first.child, r, r2);
    RecordAnswers(run, first, second, docs, r, r2, ms);
    t := RaceSteps(reach, run, first, second, r, r2, ms, docs, docs[OwnAttemptURI(run, second) := record]);
  }

  lemma CommitAnswers(run: BundleRun, child: nat, r: AttemptResult, r2: AttemptResult)
    requires child == r.childID == r2.childID && r.Valid(run) && r.terminal && r2.Valid(run) && r2.terminal
    requires r.resultURI == r2.resultURI == TerminalURI(run, child)
    ensures
      var docs := map[TerminalURI(run, child) := r];
      && CommitTerminal(map[], run, r, NoFault) == (docs, Created)
      && CommitTerminal(docs, run, r2, NoFault) == (docs, Exists)
  {
    Committable(map[], run, r);
    Committable(map[TerminalURI(run, child) := r], run, r2);
  }

  lemma RecordAnswers(run: BundleRun, first: ChildRequest, second: ChildRequest, docs: Docs, r: AttemptResult,
      r2: AttemptResult, ms: real)
    requires first.child == second.child == r.childID == r2.childID >= 0 && first.attempt == second.attempt >= 0
    requires r.Valid(run) && r2.Valid(run) && ms >= 0.0 && docs == map[TerminalURI(run, first.child) := r]
    requires r.attemptID == r2.attemptID == FormatAttemptID(run.runID, first.child, first.attempt)
    ensures
      var docs2 := docs[OwnAttemptURI(run, second) := Timed(r, ms)];
      && WriteAttempt(docs, run, Timed(r, ms), NoFault) == (docs2, Created)
      && WriteAttempt(docs2, run, LostResult(Timed(r2, ms)), NoFault) == (docs2, Exists)
  {
    TimedValid(run, r, ms);
    TimedValid(run, r2, ms);
    LostResultValid(run, Timed(r2, ms));
    NotBothURIs(run, second);
    Writable(docs, run, first, Timed(r, ms));
    Writable(docs[OwnAttemptURI(run, second) := Timed(r, ms)], run, second, LostResult(Timed(r2, ms)));
  }

  lemma RaceSteps(reach: ClosedSet, run: BundleRun, first: ChildRequest, second: ChildRequest, r: AttemptResult,
      r2: AttemptResult, ms: real, docs: Docs, docs2: Docs) returns (t: State)
    requires Raced(run, map[], Committing(first, r), Committing(second, r2), map[]) in reach && ms >= 0.0
    requires CommitTerminal(map[], run, r, NoFault) == (docs, Created)
    requires CommitTerminal(docs, run, r2, NoFault) == (docs, Exists)
    requires WriteAttempt(docs, run, Timed(r, ms), NoFault) == (docs2, Created)
    requires WriteAttempt(docs2, run, LostResult(Timed(r2, ms)), NoFault) == (docs2, Exists)
    ensures t in reach && t.run == run && t.docs == docs2
    ensures 1 in t.ops
    ensures
      t.ops[1] == Returned(second, ChildReply(LostResult(Timed(r2, ms)), Some(AttemptNotWritten(Exists))), Lost)
  {
    var won := Writing(first, Timed(r, ms), Won, None);
    var lost := Writing(second, LostResult(Timed(r2, ms)), Lost, Some(TerminalExists));
    FirstWins(reach, run, first, r, ms, docs, Committing(second, r2));
    SecondLoses(reach, run, docs, won, second, r2, ms, map[first.child := 0]);
    t := RaceWrites(reach, run, won, lost, docs, docs2, map[first.child := 0]);
  }

  lemma FirstWins(reach: ClosedSet, run: BundleRun, first: ChildRequest, r: AttemptResult, ms: real, docs: Docs,
      other: Op)
    requires Raced(run, map[], Committing(first, r), other, map[]) in reach && ms >= 0.0
    requires CommitTerminal(map[], run, r, NoFault) == (docs, Created)
    ensures Raced(run, docs, Writing(first, Timed(r, ms), Won, None), other, map[first.child := 0]) in reach
  {
    var s, won := Raced(run, map[], Committing(first, r), other, map[]), Writing(first, Timed(r, ms), Won, None);
    FirstWith(run, docs, Committing(first, r), other, first.child, won);
    Commits(reach, s, 0, first, r, NoFault, ms, docs, Created, Raced(run, docs, won, other, map[first.child := 0]));
  }

  lemma FirstWith(run: BundleRun, docs: Docs, zero: Op, one: Op, child: int, op: Op)
    ensures
      var s := Raced(run, map[], zero, one, map[]);
      With(State(s.run, docs, s.ops, s.winner[child := 0]), 0, op) == Raced(run, docs, op, one, map[child := 0])
  {
    RacedWith(run, docs, zero, one, map[child := 0], op);
  }

  lemma SecondLoses(reach: ClosedSet, run: BundleRun, docs: Docs, other: Op, second: ChildRequest,
      r2: AttemptResult, ms: real, winner: map<int, nat>)
    requires Raced(run, docs, other, Committing(second, r2), winner) in reach && ms >= 0.0
    requires CommitTerminal(docs, run, r2, NoFault) == (docs, Exists)
    ensures Raced(run, docs, other, Writing(second, LostResult(Timed(r2, ms)), Lost, Some(TerminalExists)), winner)
      in reach
  {
    var lost := Writing(second, LostResult(Timed(r2, ms)), Lost, Some(TerminalExists));
    RacedWith(run, docs, other, Committing(second, r2), winner, lost);
    Commits(reach, Raced(run, docs, other, Committing(second, r2), winner), 1, second, r2, NoFault, ms, docs, Exists,
            Raced(run, docs, other, lost, winner));
  }

  lemma RaceWrites(reach: ClosedSet, run: BundleRun, won: Op, lost: Op, docs: Docs, docs2: Docs,
      winner: map<int, nat>)
      returns (t: State)
    requires Raced(run, docs, won, lost, winner) in reach && won.Writing? && lost.Writing?
    requires WriteAttempt(docs, run, won.result, NoFault) == (docs2, Created)
    requires WriteAttempt(docs2, run, lost.result, NoFault) == (docs2, Exists)
    ensures t in reach && t.run == run && t.docs == docs2
    ensures 1 in t.ops && t.ops[1] == Returned(lost.req, AfterWrite(lost.result, lost.otherwise, Exists), lost.origin)
  {
    var done := Returned(won.req, AfterWrite(won.result, won.otherwise, Created), won.origin);
    var refused := Returned(lost.req, AfterWrite(lost.result, lost.otherwise, Exists), lost.origin);
    t := Raced(run, docs2, done, refused, winner);
    RacedWith(run, docs2, won, lost, winner, done);
    Writes(reach, Raced(run, docs, won, lost, winner), 0, won, docs2, Created, Raced(run, docs2, done, lost, winner));
    RacedWith(run, docs2, done, lost, winner, refused);
    Writes(reach, Raced(run, docs2, done, lost, winner), 1, lost, docs2, Exists, t);
  }

  // --- One run, two agents

  function Zeros(n: nat): (s: string)
    ensures |s| == n && forall i :: 0 <= i < n ==> s[i] == '0'
  {
    if n == 0 then "" else "0" + Zeros(n - 1)
  }

  const DIGEST: string := "sha256:" + Zeros(64)

  const HOST: HostClass := HostClass("host", "v0", "aarch64", "kvm", "cpu", "device")

  const RUN: BundleRun :=
    BundleRun("run", Bundle("uri", DIGEST), ChildRange(0, 1), [], HOST, Policy(1, 1, false, true), "s3://b/p/")

  /** A second agent holds a lease of its own on the same child. */
  function RequestOf(agentID: string): ChildRequest { ChildRequest(RUN, FullLease(RUN, agentID), 0, 1, true) }

  const COMMIT_TIME: real := 1.0

  /** A guest that ends with the given exit code. */
  function GuestExits(code: int): World {
    var completion := RunEvent(true, "completion", "completed", Some(code), 0, None, false, None, None);
    World(1, 1, Timings(0.0, 0.0, 0.0, 0.0, 0.0, 0.0), COMMIT_TIME, None, Pulled(""), None,
      ClientReply([completion], None))
  }

  lemma RunValid()
    ensures RUN.Valid()
  {
    assert ValidID("run") && ValidID("host");
    assert ValidDigest(DIGEST);
    var rest := TrimPrefix("s3://b/p/", "s3://");
    assert rest == "b/p/";
    assert rest[1..] == "/p/" && Index("/p/", '/') == Some(0);
    assert Index(rest, '/') == Some(1);
    assert HasSuffix("s3://b/p/", "/");
  }

  lemma RequestAdmissible(agentID: string)
    requires ValidID(agentID)
    ensures Admissible(RUN, RequestOf(agentID))
  {
    RunValid();
    FullLeaseValid(RUN, agentID);
    AttemptIDValid(RUN.runID, 0, 1);
    PadLength(1, 0);
    PadLength(2, 1);
  }

  lemma ExitIsHonest(code: int)
    ensures GuestExits(code).Honest() && GuestExits(code).Readable()
    ensures GuestExits(code).Last().outcome == "completed" && GuestExits(code).Last().exitCode == Some(code)
  {
    var events := GuestExits(code).reply.events;
    assert events[0] in events;
    assert StreamOf(events[0]).NoStream?;
  }

  /** Such a guest offers a document: a success for exit 0, a failure otherwise. */
  lemma ExitOffers(agentID: string, code: int) returns (r: AttemptResult)
    requires ValidID(agentID)
    ensures Offers(RUN, RequestOf(agentID), GuestExits(code), r)
    ensures r.status == if code == 0 then Succeeded else Failed
  {
    RunValid();
    RequestAdmissible(agentID);
    ExitIsHonest(code);
    r := ExitDecides(RequestOf(agentID), GuestExits(code), code);
  }

  lemma ExitDecides(req: ChildRequest, w: World, code: int) returns (r: AttemptResult)
    requires w.ReachedGuest(req) && w.Readable() && w.Last().outcome == "completed"
    requires w.Last().exitCode == Some(code) && w.reply.err.None?
    ensures Decide(req, w) == CommitThenRecord(r) && r.status == if code == 0 then Succeeded else Failed
  {
    CommitsIff(req, w);
    SucceededIff(req, w);
    DecideFields(req, w);
    r := Decide(req, w).result;
  }

  lemma AgentIDs()
    ensures ValidID("ag1") && ValidID("ag2")
  {
  }

  /** The record of a lost race can be refused: the winner's record, under the same child and attempt number, is
      already there. */
  lemma LoserRefused() returns (trace: seq<State>, t: State)
    ensures Execution(trace) && trace[0] == Fresh(RUN) && trace[|trace| - 1] == t
    ensures 1 in t.ops && t.ops[1].Returned? && t.ops[1].origin.Lost?
    ensures t.ops[1].reply.err == Some(AttemptNotWritten(Exists))
    ensures OwnAttemptURI(RUN, t.ops[1].req) in t.docs && t.docs[OwnAttemptURI(RUN, t.ops[1].req)].status.Succeeded?
  {
    AgentIDs();
    var r := ExitOffers("ag1", 0);
    var r2 := ExitOffers("ag2", 0);
    ReachableIsClosed(Fresh(RUN));
    t := CommitRace(Reachable(Fresh(RUN)), RUN, RequestOf("ag1"), RequestOf("ag2"), GuestExits(0), r, r2,
      COMMIT_TIME);
    RunValid();
    trace := ExecutionTo(RUN, t);
  }
}
