/** Any number of agents attempting the children of one run over a shared create-only store. Every store
    call and every execution is one step; steps of different attempts interleave freely. */
module CommitProtocol {
  import opened Text
  import opened Contracts
  import opened ResultLayout
  import opened ResultStore
  import opened Attempts

  /** How an attempt came by the record it is writing; `Unwritten` when it returns without reaching that write. */
  datatype Origin = Skipped | NotOffered | Won | Lost | Unwritten

  datatype Op =
    | Reading(req: ChildRequest)
    | Executing(req: ChildRequest)
    | Committing(req: ChildRequest, result: AttemptResult)
    | Writing(req: ChildRequest, result: AttemptResult, origin: Origin, otherwise: Option<ReturnError>)
    | Returned(req: ChildRequest, reply: ChildReply, origin: Origin)

  /** `winner` records which attempt created a child's terminal document; no step reads it. */
  datatype State = State(run: BundleRun, docs: Docs, ops: map<nat, Op>, winner: map<int, nat>)

  datatype Event =
    | Arrive(req: ChildRequest)
    | Read(w: World, readFault: Fault)
    | Execute(w: World)
    | Commit(commitFault: Fault, commitTime: real)
    | Write(writeFault: Fault)

  ghost predicate Admissible(run: BundleRun, req: ChildRequest) { req.run == run && req.Valid() && req.IDsFit() }

  /** The store holds at most valid terminal documents where terminal documents belong, each about its child. */
  ghost predicate Init(s: State) {
    s.run.Valid() && s.ops == map[] && s.winner == map[] &&
    forall c: nat :: TerminalURI(s.run, c) in s.docs ==> CommittedDoc(s.run, c, s.docs[TerminalURI(s.run, c)])
  }

  ghost predicate CommittedDoc(run: BundleRun, child: nat, doc: AttemptResult) {
    doc.Valid(run) && doc.terminal && doc.childID == child && (doc.status.Succeeded? || doc.status.Failed?)
  }

  ghost predicate Enabled(s: State, o: nat, e: Event) {
    match e
    case Arrive(req) => o !in s.ops && Admissible(s.run, req)
    case Read(w, _) => o in s.ops && s.ops[o].Reading? && w.Honest()
    case Execute(w) => o in s.ops && s.ops[o].Executing? && w.Honest()
    case Commit(_, time) => o in s.ops && s.ops[o].Committing? && time >= 0.0
    case Write(_) => o in s.ops && s.ops[o].Writing?
  }

  function ReadStep(docs: Docs, req: ChildRequest, w: World, fault: Fault): Op {
    match ReadTerminal(docs, req.run, req.child, fault)
    case ReadError => Returned(req, ChildReply(StartResult(req, w), Some(ReadFailed)), Unwritten)
    case Present(existing) => Writing(req, SkipResult(req, w, existing), Skipped, None)
    case Absent => Executing(req)
  }

  function ExecuteStep(req: ChildRequest, w: World): Op {
    match Decide(req, w)
    case GiveUp(r) => Writing(req, r, NotOffered, Some(AttemptFailed))
    case RecordOnly(r) => Writing(req, r, NotOffered, None)
    case CommitThenRecord(r) => Committing(req, r)
  }

  /** `result` is the record as it was offered, with its commit call timed. */
  function CommitStep(req: ChildRequest, result: AttemptResult, reply: WriteReply): Op {
    match reply
    case StoreError => Returned(req, ChildReply(result, Some(CommitFailed)), Unwritten)
    case Exists => Writing(req, LostResult(result), Lost, Some(TerminalExists))
    case Created => Writing(req, result, Won, None)
  }

  function Step(s: State, o: nat, e: Event): State
    requires Enabled(s, o, e)
  {
    match e
    case Arrive(req) => s.(ops := s.ops[o := Reading(req)])
    case Read(w, fault) => s.(ops := s.ops[o := ReadStep(s.docs, s.ops[o].req, w, fault)])
    case Execute(w) => s.(ops := s.ops[o := ExecuteStep(s.ops[o].req, w)])
    case Commit(fault, time) =>
      var op := s.ops[o];
      var (docs, reply) := CommitTerminal(s.docs, s.run, op.result, fault);
      s.(docs := docs, ops := s.ops[o := CommitStep(op.req, Timed(op.result, time), reply)],
         winner := if reply.Created? then s.winner[op.req.child := o] else s.winner)
    case Write(fault) =>
      var op := s.ops[o];
      var (docs, reply) := WriteAttempt(s.docs, s.run, op.result, fault);
      s.(docs := docs, ops := s.ops[o := Returned(op.req, AfterWrite(op.result, op.otherwise, reply), op.origin)])
  }

  ghost predicate Next(s: State, s': State) { exists o: nat, e :: Enabled(s, o, e) && s' == Step(s, o, e) }

  ghost predicate StepAt(trace: seq<State>, i: nat) { i + 1 < |trace| && Next(trace[i], trace[i + 1]) }

  ghost predicate Execution(trace: seq<State>) {
    trace != [] && Init(trace[0]) && forall i: nat :: i + 1 < |trace| ==> StepAt(trace, i)
  }

  // --- Invariant

  ghost predicate TerminalStored(s: State, child: int) { child >= 0 && TerminalURI(s.run, child) in s.docs }

  function OwnAttemptURI(run: BundleRun, req: ChildRequest): string {
    if req.child < 0 || req.attempt < 0 then ""
      else AttemptURI(run, req.child, FormatAttemptID(run.runID, req.child, req.attempt))
  }

  ghost predicate OfAttempt(run: BundleRun, req: ChildRequest, r: AttemptResult)
    requires req.child >= 0 && req.attempt >= 0
  {
    r.childID == req.child && r.attemptID == FormatAttemptID(run.runID, req.child, req.attempt)
  }

  /** What holds of one attempt at every point of every run. */
  ghost predicate OpInv(s: State, o: nat)
    requires o in s.ops
  {
    Admissible(s.run, s.ops[o].req) &&
    match s.ops[o]
    case Reading(_) => true
    case Executing(_) => true
    case Committing(req, r) => OfAttempt(s.run, req, r) && CommittedDoc(s.run, req.child, r) &&
      r.resultURI == TerminalURI(s.run, req.child)
    case Writing(req, r, origin, otherwise) =>
      && OfAttempt(s.run, req, r)
      && r.Valid(s.run)
      && !origin.Unwritten?
      && RecordInv(s, o, req, r, origin)
      && (origin.Lost? <==> otherwise == Some(TerminalExists))
      && (otherwise.Some? ==> otherwise.value.TerminalExists? || otherwise.value.AttemptFailed?)
    case Returned(req, reply, origin) => ReturnInv(s, o, req, reply, origin)
  }

  ghost predicate ReturnInv(s: State, o: nat, req: ChildRequest, reply: ChildReply, origin: Origin)
    requires req.child >= 0 && req.attempt >= 0
  {
    && OfAttempt(s.run, req, reply.result)
    && (reply.result.Valid(s.run) <==> reply.err != Some(ReadFailed))
    && RecordInv(s, o, req, reply.result, origin)
    && (origin.Unwritten? ==> reply.err == Some(ReadFailed) || reply.err == Some(CommitFailed))
    && (reply.err == Some(ReadFailed) ==> !reply.result.terminal)
    && (reply.err == Some(TerminalExists) ==>
          origin.Lost? && OwnAttemptURI(s.run, req) in s.docs && s.docs[OwnAttemptURI(s.run, req)] == reply.result)
  }

  ghost predicate RecordInv(s: State, o: nat, req: ChildRequest, r: AttemptResult, origin: Origin)
    requires req.child >= 0
  {
    match origin
    case Skipped => r.terminal && r.status.SkippedTerminalExists? && TerminalStored(s, req.child)
    case NotOffered => !r.terminal
    case Won =>
      && r.terminal
      && TerminalStored(s, req.child)
      && SameButCommitTime(s.docs[TerminalURI(s.run, req.child)], r)
      && req.child in s.winner
      && s.winner[req.child] == o
    case Lost =>
      && LostRecord(r)
      && TerminalStored(s, req.child)
      && (req.child in s.winner ==> s.winner[req.child] != o)
    case Unwritten => true
  }

  ghost predicate LostRecord(r: AttemptResult) {
    !r.terminal && r.status.Failed? && r.error.Some? && r.error.value.code == "result.terminal_exists"
  }

  /** A winner has left the committing state as the winner. */
  ghost predicate WinnerInv(s: State, c: int)
    requires c in s.winner
  {
    c >= 0 && TerminalStored(s, c) && s.winner[c] in s.ops &&
    match s.ops[s.winner[c]]
    case Writing(req, _, origin, _) => origin.Won? && req.child == c
    case Returned(req, _, origin) => origin.Won? && req.child == c
    case _ => false
  }

  ghost predicate DocInv(s: State, c: nat) {
    TerminalStored(s, c) ==> CommittedDoc(s.run, c, s.docs[TerminalURI(s.run, c)])
  }

  ghost predicate Inv(s: State) {
    && s.run.Valid()
    && (forall o :: o in s.ops ==> OpInv(s, o))
    && (forall c :: c in s.winner ==> WinnerInv(s, c))
    && (forall c: nat :: DocInv(s, c))
  }

  // --- Preservation

  /** Documents and winners only grow. */
  ghost predicate Grows(s: State, s': State) {
    && s'.run == s.run
    && (forall u :: u in s.docs ==> u in s'.docs && s'.docs[u] == s.docs[u])
    && (forall c :: c in s.winner ==> c in s'.winner && s'.winner[c] == s.winner[c])
  }

  lemma OthersKeepInv(s: State, s': State, o: nat, p: nat)
    requires Inv(s) && Grows(s, s') && p in s.ops && p != o && p in s'.ops && s'.ops[p] == s.ops[p]
    requires forall c :: c in s'.winner && c !in s.winner ==> s'.winner[c] == o
    ensures OpInv(s', p)
  {
    assert OpInv(s, p);
  }

  lemma ReadKeepsOp(s: State, s': State, o: nat, w: World, fault: Fault)
    requires Inv(s) && Enabled(s, o, Read(w, fault)) && s' == Step(s, o, Read(w, fault))
    ensures OpInv(s', o)
  {
    var req := s.ops[o].req;
    assert OpInv(s, o);
    match ReadTerminal(s.docs, req.run, req.child, fault)
    case ReadError => StartIsNoRecord(req, w);
    case Present(existing) =>
      SkipIsRecord(req, w, existing);
    case Absent =>
  }

  lemma StartIsNoRecord(req: ChildRequest, w: World)
    requires req.IDsFit()
    ensures OfAttempt(req.run, req, StartResult(req, w)) && !StartResult(req, w).Valid(req.run)
    ensures !StartResult(req, w).terminal
  {
  }

  lemma SkipIsRecord(req: ChildRequest, w: World, existing: AttemptResult)
    requires req.Valid() && req.IDsFit() && w.Honest() && existing.Valid(req.run) && existing.terminal
    ensures
      var r := SkipResult(req, w, existing);
      OfAttempt(req.run, req, r) && r.Valid(req.run) && r.terminal && r.status.SkippedTerminalExists?
  {
    RecordsValid(req, w, existing);
  }

  lemma ExecuteKeepsOp(s: State, s': State, o: nat, w: World)
    requires Inv(s) && Enabled(s, o, Execute(w)) && s' == Step(s, o, Execute(w))
    ensures OpInv(s', o)
  {
    var req := s.ops[o].req;
    assert OpInv(s, o);
    DecisionShape(req, w);
  }

  /** What a decision promises the protocol. */
  lemma DecisionShape(req: ChildRequest, w: World)
    requires req.Valid() && req.IDsFit() && w.Honest()
    ensures
      var r := Decide(req, w).result;
      && r.Valid(req.run)
      && OfAttempt(req.run, req, r)
      && (Decide(req, w).CommitThenRecord? <==> r.terminal)
      && (r.terminal ==> r.resultURI == TerminalURI(req.run, req.child) && CommittedDoc(req.run, req.child, r))
  {
    DecideRecordValid(req, w);
    DecideFields(req, w);
    CommitsIff(req, w);
  }

  lemma CommitKeepsOp(s: State, s': State, o: nat, fault: Fault, time: real)
    requires Inv(s) && Enabled(s, o, Commit(fault, time)) && s' == Step(s, o, Commit(fault, time))
    ensures OpInv(s', o)
  {
    var op := s.ops[o];
    assert OpInv(s, o);
    var (docs, reply) := CommitTerminal(s.docs, s.run, op.result, fault);
    TimedValid(s.run, op.result, time);
    match reply
    case StoreError =>
    case Created =>
    case Exists =>
      LostResultValid(s.run, Timed(op.result, time));
      assert op.req.child in s.winner ==> WinnerInv(s, op.req.child);
  }

  lemma WriteKeepsOp(s: State, s': State, o: nat, fault: Fault)
    requires Inv(s) && Enabled(s, o, Write(fault)) && s' == Step(s, o, Write(fault))
    ensures OpInv(s', o)
  {
    assert OpInv(s, o);
    var op := s.ops[o];
    var (docs, reply) := WriteAttempt(s.docs, s.run, op.result, fault);
    var returned := Returned(op.req, AfterWrite(op.result, op.otherwise, reply), op.origin);
    WriteReturns(s, s.(docs := docs, ops := s.ops[o := returned]), o, op, reply);
  }

  lemma WriteReturns(s: State, s': State, o: nat, op: Op, reply: WriteReply)
    requires o in s.ops && s.ops[o] == op && op.Writing? && OpInv(s, o)
    requires s' == s.(docs := s'.docs,
                      ops := s.ops[o := Returned(op.req, AfterWrite(op.result, op.otherwise, reply), op.origin)])
    requires forall u :: u in s.docs ==> u in s'.docs && s'.docs[u] == s.docs[u]
    requires reply.Created? ==> AttemptURI(s.run, op.result.childID, op.result.attemptID) in s'.docs
    requires reply.Created? ==> s'.docs[AttemptURI(s.run, op.result.childID, op.result.attemptID)] == op.result
    requires op.result.childID >= 0
    ensures OpInv(s', o)
  {
    RecordStays(s, s', o, op.req, op.result, op.origin);
  }

  lemma RecordStays(s: State, s': State, o: nat, req: ChildRequest, r: AttemptResult, origin: Origin)
    requires req.child >= 0 && RecordInv(s, o, req, r, origin) && Grows(s, s') && s'.winner == s.winner
    ensures RecordInv(s', o, req, r, origin)
  {
  }

  lemma StepGrows(s: State, o: nat, e: Event)
    requires Inv(s) && Enabled(s, o, e)
    ensures Grows(s, Step(s, o, e))
    ensures forall c :: c in Step(s, o, e).winner && c !in s.winner ==> Step(s, o, e).winner[c] == o
  {
    match e
    case Arrive(_) =>
    case Read(_, _) =>
    case Execute(_) =>
    case Write(_) =>
    case Commit(fault, time) => CommitGrows(s, o, fault, time);
  }

  lemma CommitGrows(s: State, o: nat, fault: Fault, time: real)
    requires Inv(s) && Enabled(s, o, Commit(fault, time))
    ensures Grows(s, Step(s, o, Commit(fault, time)))
    ensures forall c :: c in Step(s, o, Commit(fault, time)).winner && c !in s.winner ==>
      c == s.ops[o].req.child && Step(s, o, Commit(fault, time)).winner[c] == o
  {
    assert OpInv(s, o);
    var op := s.ops[o];
    assert op.req.child in s.winner ==> WinnerInv(s, op.req.child);
    var (docs, reply) := CommitTerminal(s.docs, s.run, op.result, fault);
    CommitAnswered(s, o, op.req.child, CommitStep(op.req, Timed(op.result, time), reply), docs, reply);
  }

  lemma CommitAnswered(s: State, o: nat, child: int, op: Op, docs: Docs, reply: WriteReply)
    requires child >= 0 && forall u :: u in s.docs ==> u in docs && docs[u] == s.docs[u]
    requires reply.Created? ==> TerminalURI(s.run, child) !in s.docs
    requires child in s.winner ==> TerminalURI(s.run, child) in s.docs
    ensures
      var s' := State(s.run, docs, s.ops[o := op], if reply.Created? then s.winner[child := o] else s.winner);
      Grows(s, s') && forall c :: c in s'.winner && c !in s.winner ==> c == child && s'.winner[c] == o
  {
  }

  lemma StepKeepsOps(s: State, o: nat, e: Event)
    requires Inv(s) && Enabled(s, o, e)
    ensures forall p :: p in Step(s, o, e).ops ==> OpInv(Step(s, o, e), p)
  {
    var s' := Step(s, o, e);
    StepGrows(s, o, e);
    forall p | p in s'.ops
      ensures OpInv(s', p)
    {
      if p != o {
        assert s'.ops[p] == s.ops[p];
        OthersKeepInv(s, s', o, p);
      } else {
        OwnKeepsInv(s, s', o, e);
      }
    }
  }

  lemma OwnKeepsInv(s: State, s': State, o: nat, e: Event)
    requires Inv(s) && Enabled(s, o, e) && s' == Step(s, o, e)
    ensures o in s'.ops && OpInv(s', o)
  {
    match e
    case Arrive(_) =>
    case Read(w, fault) => ReadKeepsOp(s, s', o, w, fault);
    case Execute(w) => ExecuteKeepsOp(s, s', o, w);
    case Commit(fault, time) => CommitKeepsOp(s, s', o, fault, time);
    case Write(fault) => WriteKeepsOp(s, s', o, fault);
  }

  lemma StepKeepsWinner(s: State, o: nat, e: Event, c: int)
    requires Inv(s) && Enabled(s, o, e) && c in Step(s, o, e).winner
    ensures WinnerInv(Step(s, o, e), c)
  {
    if c in s.winner {
      WinnerStays(s, Step(s, o, e), o, e, c);
    } else {
      assert e.Commit? && c == s.ops[o].req.child;
      CommitKeepsOp(s, Step(s, o, e), o, e.commitFault, e.commitTime);
    }
  }

  lemma WinnerStays(s: State, s': State, o: nat, e: Event, c: int)
    requires Inv(s) && Enabled(s, o, e) && s' == Step(s, o, e) && c in s.winner && c in s'.winner
    ensures WinnerInv(s', c)
  {
    StepGrows(s, o, e);
    assert WinnerInv(s, c);
    var w := s.winner[c];
    if w == o {
      assert s.ops[o].Writing? && e.Write?;
    } else {
      assert s'.ops[w] == s.ops[w];
    }
  }

  lemma StepKeepsDoc(s: State, o: nat, e: Event, c: nat)
    requires Inv(s) && Enabled(s, o, e)
    ensures DocInv(Step(s, o, e), c)
  {
    assert DocInv(s, c);
    match e
    case Arrive(_) =>
    case Read(_, _) =>
    case Execute(_) =>
    case Commit(fault, time) => CommitKeepsDoc(s, o, fault, time, c);
    case Write(fault) => WriteKeepsDoc(s, o, fault, c);
  }

  lemma CommitKeepsDoc(s: State, o: nat, fault: Fault, time: real, c: nat)
    requires Inv(s) && DocInv(s, c) && Enabled(s, o, Commit(fault, time))
    ensures DocInv(Step(s, o, Commit(fault, time)), c)
  {
    assert OpInv(s, o);
    var child := s.ops[o].req.child;
    if TerminalURI(s.run, c) == TerminalURI(s.run, child) {
      TerminalURIUnique(s.run, c, child);
    }
  }

  lemma WriteKeepsDoc(s: State, o: nat, fault: Fault, c: nat)
    requires Inv(s) && DocInv(s, c) && Enabled(s, o, Write(fault))
    ensures DocInv(Step(s, o, Write(fault)), c)
  {
    assert OpInv(s, o);
    var r := s.ops[o].result;
    AttemptIsNotTerminal(s.run, r.childID, r.attemptID, c);
  }

  lemma StepKeepsInv(s: State, o: nat, e: Event)
    requires Inv(s) && Enabled(s, o, e)
    ensures Inv(Step(s, o, e))
  {
    var s' := Step(s, o, e);
    StepKeepsOps(s, o, e);
    forall c | c in s'.winner ensures WinnerInv(s', c) { StepKeepsWinner(s, o, e, c); }
    forall c: nat ensures DocInv(s', c) { StepKeepsDoc(s, o, e, c); }
  }

  lemma NextStep(s: State, s': State)
    requires Inv(s) && Next(s, s')
    ensures Inv(s') && Grows(s, s')
  {
    var o: nat, e :| Enabled(s, o, e) && s' == Step(s, o, e);
    StepKeepsInv(s, o, e);
    StepGrows(s, o, e);
  }

  lemma GrowsTransitive(s: State, t: State, u: State)
    requires Grows(s, t) && Grows(t, u)
    ensures Grows(s, u)
  {
  }

  lemma InitInv(s: State)
    requires Init(s)
    ensures Inv(s)
  {
    forall c: nat ensures DocInv(s, c) {}
  }

  lemma {:induction false} InvAlways(trace: seq<State>, i: nat)
    requires Execution(trace) && i < |trace|
    ensures Inv(trace[i]) && trace[i].run == trace[0].run
  {
    if i == 0 {
      InitInv(trace[0]);
    } else {
      InvAlways(trace, i - 1);
      assert StepAt(trace, i - 1);
      NextStep(trace[i - 1], trace[i]);
    }
  }

  // --- What every run of the protocol guarantees

  lemma StepOfTraceGrows(trace: seq<State>, k: nat)
    requires Execution(trace) && k + 1 < |trace|
    ensures Grows(trace[k], trace[k + 1])
  {
    InvAlways(trace, k);
    assert StepAt(trace, k);
    NextStep(trace[k], trace[k + 1]);
  }

  /** No document is ever changed or withdrawn, and a child's winner, once decided, stays. */
  lemma {:induction false} NothingIsOverwritten(trace: seq<State>, i: nat, j: nat)
    requires Execution(trace) && i <= j < |trace|
    ensures Grows(trace[i], trace[j])
  {
    if i < j {
      NothingIsOverwritten(trace, i, j - 1);
      StepOfTraceGrows(trace, j - 1);
      GrowsTransitive(trace[i], trace[j - 1], trace[j]);
    }
  }

  /** At most one attempt ever creates the terminal document of a child: an attempt that holds the winning
      record holds the stored document, but for the time of the commit call, and no two attempts do. */
  lemma AtMostOneWinner(trace: seq<State>, i: nat, p: nat, q: nat)
    requires Execution(trace) && i < |trace| && p in trace[i].ops && q in trace[i].ops
    requires trace[i].ops[p].Returned? && trace[i].ops[p].origin.Won? && trace[i].ops[q].Returned?
    requires trace[i].ops[q].origin.Won?
    requires trace[i].ops[p].req.child == trace[i].ops[q].req.child
    ensures p == q
    ensures TerminalStored(trace[i], trace[i].ops[p].req.child)
    ensures SameButCommitTime(
      trace[i].docs[TerminalURI(trace[i].run, trace[i].ops[p].req.child)], trace[i].ops[p].reply.result)
  {
    InvAlways(trace, i);
    assert OpInv(trace[i], p) && OpInv(trace[i], q);
  }

  /** An attempt whose own commit call has not failed returns a terminal result exactly when it found a terminal
      document or its own document won; and an attempt that offered a document but lost returns the non-terminal
      `result.terminal_exists` record. What other attempts' commit calls returned does not matter. */
  lemma TerminalExactlyForWinners(trace: seq<State>, i: nat, o: nat)
    requires Execution(trace) && i < |trace| && o in trace[i].ops
    requires trace[i].ops[o].Returned? && trace[i].ops[o].reply.err != Some(CommitFailed)
    ensures
      var s, op := trace[i], trace[i].ops[o];
      && (op.reply.result.terminal <==> op.origin.Skipped? || op.origin.Won?)
      && (op.origin.Won? <==> op.req.child in s.winner && s.winner[op.req.child] == o)
      && (op.origin.Lost? ==> LostRecord(op.reply.result))
      && (op.reply.err == Some(TerminalExists) ==>
            && OwnAttemptURI(s.run, op.req) in s.docs
            && s.docs[OwnAttemptURI(s.run, op.req)] == op.reply.result
            && LostRecord(op.reply.result))
  {
    InvAlways(trace, i);
    var s := trace[i];
    assert OpInv(s, o);
    var c := s.ops[o].req.child;
    if c in s.winner { assert WinnerInv(s, c); }
  }

  /** Every terminal result that an attempt returns, unless its own commit call failed, stands for a stored
      terminal document of a success or a guest failure. */
  lemma ReturnedTerminalIsStored(trace: seq<State>, i: nat, o: nat)
    requires Execution(trace) && i < |trace| && o in trace[i].ops
    requires trace[i].ops[o].Returned? && trace[i].ops[o].reply.err != Some(CommitFailed)
    requires trace[i].ops[o].reply.result.terminal
    ensures
      var s, r := trace[i], trace[i].ops[o].reply.result;
      && r.childID >= 0
      && TerminalStored(s, r.childID)
      && CommittedDoc(s.run, r.childID, s.docs[TerminalURI(s.run, r.childID)])
      && (r.status.Succeeded? ==> SameButCommitTime(s.docs[TerminalURI(s.run, r.childID)], r))
      && s.run.children.Contains(r.childID)
      && (r.status.Succeeded? || r.status.Failed? || r.status.SkippedTerminalExists?)
  {
    InvAlways(trace, i);
    var s := trace[i];
    assert OpInv(s, o);
    assert DocInv(s, s.ops[o].req.child);
  }

  /** A commit call leaves its attempt returned with a terminal result and nothing stored exactly when it fails
      before writing and no other attempt has committed the child. */
  lemma CommitUnstoredIff(s: State, o: nat, fault: Fault, time: real)
    requires Inv(s) && o in s.ops && s.ops[o].Committing? && time >= 0.0
    ensures
      var s', c := Step(s, o, Commit(fault, time)), s.ops[o].req.child;
      (s'.ops[o].Returned? && s'.ops[o].reply.result.terminal && !TerminalStored(s', c))
        <==> fault.FaultBefore? && !TerminalStored(s, c)
  {
    assert OpInv(s, o);
    var op := s.ops[o];
    CommitIsCreateOnly(s.docs, s.run, op.result, fault);
    var (docs, reply) := CreateOnly(s.docs, TerminalURI(s.run, op.req.child), op.result, fault);
    var t := Step(s, o, Commit(fault, time));
    assert t.docs == docs && t.ops[o] == CommitStep(op.req, Timed(op.result, time), reply);
  }

  /** The winner's own record is the stored document exactly when the commit call took the time that the offered
      record already said, which is that of the read before it. */
  lemma WinnerEqualsDocumentIff(s: State, o: nat, time: real)
    requires Inv(s) && o in s.ops && s.ops[o].Committing? && time >= 0.0 && !TerminalStored(s, s.ops[o].req.child)
    ensures
      var s', op := Step(s, o, Commit(NoFault, time)), s.ops[o];
      && s'.ops[o].Writing? && s'.ops[o].origin.Won? && TerminalStored(s', op.req.child)
      && SameButCommitTime(s'.docs[TerminalURI(s.run, op.req.child)], s'.ops[o].result)
      && (s'.docs[TerminalURI(s.run, op.req.child)] == s'.ops[o].result <==> time == op.result.timings.resultCommit)
  {
    assert OpInv(s, o);
    var op := s.ops[o];
    CommitIsCreateOnly(s.docs, s.run, op.result, NoFault);
    var (docs, reply) := CreateOnly(s.docs, TerminalURI(s.run, op.req.child), op.result, NoFault);
    var t := Step(s, o, Commit(NoFault, time));
    assert t.docs == docs && t.ops[o] == CommitStep(op.req, Timed(op.result, time), reply);
  }

  lemma CommitIsCreateOnly(docs: Docs, run: BundleRun, r: AttemptResult, fault: Fault)
    requires r.childID >= 0 && r.Valid(run) && r.terminal && r.resultURI == TerminalURI(run, r.childID)
    ensures CommitTerminal(docs, run, r, fault) == CreateOnly(docs, TerminalURI(run, r.childID), r, fault)
  {
  }

  /** A loser's record reaches the store exactly when no earlier attempt with its child and attempt number has
      written one: attempt ids do not name the agent. */
  lemma LoserRecordedIff(s: State, o: nat)
    requires Inv(s) && o in s.ops && s.ops[o].Writing? && s.ops[o].origin.Lost?
    ensures
      var s', op := Step(s, o, Write(NoFault)), s.ops[o];
      && (s'.ops[o].reply.err == Some(TerminalExists) <==> OwnAttemptURI(s.run, op.req) !in s.docs)
      && (s'.ops[o].reply.err == Some(TerminalExists) <==>
        s'.docs == s.docs[OwnAttemptURI(s.run, op.req) := op.result] != s.docs)
  {
    assert OpInv(s, o);
  }

  // --- One attempt that nothing interrupts

  /** What is left to do for an operation, as the uninterrupted attempt would do it. */
  function Rest(run: BundleRun, docs: Docs, op: Op, w: World, f: Faults): (Docs, ChildReply) {
    match op
    case Reading(req) => Attempt(docs, req, w, f)
    case Executing(req) => Executed(docs, run, Decide(req, w), w.commitTime, f)
    case Committing(_, r) => Committed(docs, run, r, w.commitTime, f)
    case Writing(_, r, _, otherwise) => Recorded(docs, run, r, otherwise, f)
    case Returned(_, reply, _) => (docs, reply)
  }

  /** The next step of an operation that has not returned. */
  function NextEvent(op: Op, w: World, f: Faults): Event
    requires !op.Returned?
  {
    match op
    case Reading(_) => Read(w, f.read)
    case Executing(_) => Execute(w)
    case Committing(_, _) => Commit(f.commit, w.commitTime)
    case Writing(_, _, _, _) => Write(f.write)
  }

  function Remaining(op: Op): nat {
    match op
    case Reading(_) => 4
    case Executing(_) => 3
    case Committing(_, _) => 2
    case Writing(_, _, _, _) => 1
    case Returned(_, _, _) => 0
  }

  /** Each step does the next part of the attempt and leaves the rest. */
  lemma StepOfRest(s: State, o: nat, w: World, f: Faults)
    requires o in s.ops && s.ops[o].req.run == s.run && !s.ops[o].Returned? && w.Honest()
    ensures
      var e := NextEvent(s.ops[o], w, f);
      Enabled(s, o, e) &&
      var t := Step(s, o, e);
      && o in t.ops && t.run == s.run && t.ops[o].req == s.ops[o].req && Remaining(t.ops[o]) < Remaining(s.ops[o])
      && Rest(t.run, t.docs, t.ops[o], w, f) == Rest(s.run, s.docs, s.ops[o], w, f)
  {
    match s.ops[o]
    case Reading(req) => RestOfRead(s.docs, req, w, f);
    case Executing(req) => RestOfExecute(s.run, s.docs, req, w, f);
    case Committing(req, r) => RestOfCommit(s.run, s.docs, req, r, w, f);
    case Writing(_, _, _, _) =>
  }

  lemma RestOfRead(docs: Docs, req: ChildRequest, w: World, f: Faults)
    ensures
      var op := ReadStep(docs, req, w, f.read);
      op.req == req && Rest(req.run, docs, op, w, f) == Attempt(docs, req, w, f) && Remaining(op) < 4
  {
  }

  lemma RestOfExecute(run: BundleRun, docs: Docs, req: ChildRequest, w: World, f: Faults)
    ensures
      var op := ExecuteStep(req, w);
      op.req == req && Rest(run, docs, op, w, f) == Executed(docs, run, Decide(req, w), w.commitTime, f) &&
      Remaining(op) < 3
  {
  }

  lemma RestOfCommit(run: BundleRun, docs: Docs, req: ChildRequest, r: AttemptResult, w: World, f: Faults)
    ensures
      var (after, reply) := CommitTerminal(docs, run, r, f.commit);
      var op := CommitStep(req, Timed(r, w.commitTime), reply);
      op.req == req && Rest(run, after, op, w, f) == Committed(docs, run, r, w.commitTime, f) && Remaining(op) < 2
  {
  }

  ghost predicate Path(trace: seq<State>, s: State, t: State) {
    trace != [] && trace[0] == s && trace[|trace| - 1] == t && forall i: nat :: i + 1 < |trace| ==> StepAt(trace, i)
  }

  lemma {:induction false} RunRest(s: State, o: nat, w: World, f: Faults) returns (t: State, trace: seq<State>)
    requires o in s.ops && s.ops[o].req.run == s.run && w.Honest()
    ensures Path(trace, s, t) && o in t.ops && t.ops[o].Returned?
    ensures (t.docs, t.ops[o].reply) == Rest(s.run, s.docs, s.ops[o], w, f)
    decreases Remaining(s.ops[o])
  {
    if s.ops[o].Returned? {
      t, trace := s, [s];
    } else {
      StepOfRest(s, o, w, f);
      var e := NextEvent(s.ops[o], w, f);
      t, trace := RunRest(Step(s, o, e), o, w, f);
      trace := Earlier(s, o, e, trace, t);
    }
  }

  /** The atomic attempt is a run of the protocol: its steps taken in a row do to the store, and return, what
      `RunChild` does and returns. */
  lemma AttemptIsARun(s: State, o: nat, req: ChildRequest, w: World, f: Faults) returns (t: State, trace: seq<State>)
    requires o !in s.ops && Admissible(s.run, req) && w.Honest()
    ensures Path(trace, s, t) && o in t.ops && t.ops[o].Returned?
    ensures (t.docs, t.ops[o].reply) == Attempt(s.docs, req, w, f)
  {
    assert Enabled(s, o, Arrive(req));
    t, trace := RunRest(Step(s, o, Arrive(req)), o, w, f);
    trace := Earlier(s, o, Arrive(req), trace, t);
  }

  lemma Earlier(s: State, o: nat, e: Event, trace: seq<State>, t: State) returns (longer: seq<State>)
    requires Enabled(s, o, e) && Path(trace, Step(s, o, e), t)
    ensures Path(longer, s, t)
  {
    longer := [s] + trace;
    forall i: nat | i + 1 < |longer| ensures StepAt(longer, i) {
      if i > 0 { assert StepAt(trace, i - 1); } else { assert Next(s, Step(s, o, e)); }
    }
  }
}
