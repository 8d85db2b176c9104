/** One child attempt on an agent: from the terminal check, through execution, to the records it leaves. */
module Attempts {
  import opened Text
  import opened Contracts
  import opened ResultLayout
  import opened ResultStore
  import opened Machine
  import opened Output

  datatype ChildRequest = ChildRequest(run: BundleRun, lease: ShardLease, child: int, attempt: int,
    localChildren: bool) {
    /** `validateRunChildRequest` on a configured runner. */
    predicate Valid() {
      lease.Valid(run) && lease.Range().Contains(child) && 1 <= attempt <= lease.attemptBudget
    }

    predicate IDsFit() { child >= 0 && attempt >= 0 && ValidID(FormatAttemptID(run.runID, child, attempt)) }
  }

  /** A failed step on the agent's own file system. */
  datatype LocalFault = LocalFault(code: string, message: string)

  datatype PullReply = Pulled(digest: string) | PullFailed(cause: Cause)

  /** What the attempt meets outside the agent, in the order it meets it. */
  datatype World = World(
      startedAt: Time, finishedAt: Time, timings: Timings, commitTime: real,
      directory: Option<LocalFault>, pull: PullReply, generation: Option<LocalFault>, reply: ClientReply) {
    /** A monotone clock, non-negative durations, error values that say something and decoded events. */
    predicate Honest() {
      0 < startedAt <= finishedAt && timings.Valid() && commitTime >= 0.0 &&
      (directory.Some? ==> directory.value.code != "" && directory.value.message != "") &&
      (generation.Some? ==> generation.value.code != "" && generation.value.message != "") &&
      (pull.PullFailed? ==> HasMessage(pull.cause) && WellClassified(pull.cause)) &&
      Decoded(reply)
    }

    /** No step before the guest ran has failed. */
    predicate ReachedGuest(req: ChildRequest) {
      directory.None? && ((req.localChildren && req.attempt == 1) || pull == Pulled(req.run.bundle.digest)) &&
      generation.None?
    }

    /** The stream can be folded into a record: it ends in its sole completion event and its payloads decode. */
    predicate Readable() {
      EndsInSoleTerminal(reply.events) && OutputOf(reply.events).Folded?
    }

    function Last(): RunEvent
      requires EndsInSoleTerminal(reply.events)
    {
      reply.events[|reply.events| - 1]
    }
  }

  predicate UsesLocal(req: ChildRequest) { req.localChildren && req.attempt == 1 }

  function StartResult(req: ChildRequest, w: World): AttemptResult {
    AttemptResult(
      req.run.runID, req.run.bundle.digest, req.child,
      if req.child >= 0 && req.attempt >= 0 then FormatAttemptID(req.run.runID, req.child, req.attempt) else "",
      req.lease.agentID, req.lease.shardID, Failed, w.startedAt, w.startedAt, w.timings, false, "", None, None)
  }

  function ChildTerminalURI(req: ChildRequest): string {
    if req.child >= 0 then TerminalURI(req.run, req.child) else ""
  }

  /** The record of an attempt that found a terminal document and did not run. */
  function SkipResult(req: ChildRequest, w: World, existing: AttemptResult): AttemptResult {
    StartResult(req, w).(
      status := SkippedTerminalExists, finishedAt := w.finishedAt, terminal := true,
      resultURI := if existing.resultURI == "" then ChildTerminalURI(req) else existing.resultURI)
  }

  /** `failAttemptWithCause`, always called with terminal = false. */
  function FailResult(base: AttemptResult, w: World, status: AttemptStatus, error: AttemptError): AttemptResult {
    base.(status := status, terminal := false, finishedAt := w.finishedAt, error := Some(error))
  }

  function FailStatus(cause: Cause): AttemptStatus {
    if cause.MachineCause? && cause.body.IsPlatformMismatch() then PlatformMismatch else Failed
  }

  /** What the attempt does once it has executed. */
  datatype Decision =
    | GiveUp(result: AttemptResult)          // record the failure and return its cause
    | CommitThenRecord(result: AttemptResult)
    | RecordOnly(result: AttemptResult)

  function ExitMessage(code: Option<int>): string {
    var n := if code.Some? then code.value else 0;
    "guest exited with code " + if n < 0 then "-" + Itoa(-n) else Itoa(n)
  }

  /** The decision an executed attempt calls for. */
  function Decide(req: ChildRequest, w: World): Decision {
    DecideFrom(StartResult(req, w), ChildTerminalURI(req), req, w, TerminalOf(w.reply.events), OutputOf(w.reply.events))
  }

  function DecideFrom(base: AttemptResult, uri: string, req: ChildRequest, w: World, terminal: TerminalReply,
      output: OutputReply): Decision {
    match EarlyFailure(req, w, terminal, output)
    case Some(failure) => GiveUp(FailResult(base, w, failure.status, failure.error))
    case None => GuestDecision(base.(output := output.output, finishedAt := w.finishedAt), uri, terminal.event,
      w.reply.err)
  }

  datatype Failure = Failure(status: AttemptStatus, error: AttemptError)

  function FailureOf(cause: Cause): Failure { Failure(FailStatus(cause), AttemptErrorOf(cause)) }

  /** The first thing that goes wrong before the guest's outcome can be read, if anything does. */
  function EarlyFailure(req: ChildRequest, w: World, terminal: TerminalReply, output: OutputReply): (f: Option<Failure>)
    ensures f.None? ==> terminal.Sole? && output.Folded?
  {
    if w.directory.Some? then Some(Failure(Failed, LocalError(w.directory.value)))
    else if !UsesLocal(req) && w.pull.PullFailed? then Some(FailureOf(w.pull.cause))
    else if !UsesLocal(req) && w.pull.digest != req.run.bundle.digest then Some(Failure(Failed, WrongDigest()))
    else if w.generation.Some? then Some(Failure(Failed, LocalError(w.generation.value)))
    else if terminal.Rejected? then Some(FailureOf(if w.reply.err.Some? then w.reply.err.value else NoTerminal()))
    else if output.BadPayload? then Some(FailureOf(BadData()))
    else None
  }

  function WrongDigest(): (e: AttemptError)
    ensures e.Valid()
  {
    AttemptError("object.invalid", DIGEST_MESSAGE, "", "", false)
  }

  function NoTerminal(): (c: Cause)
    ensures HasMessage(c) && WellClassified(c)
  {
    PlainCause(InvalidOutput, "missing terminal event")
  }

  function BadData(): (c: Cause)
    ensures HasMessage(c) && WellClassified(c)
  {
    PlainCause(InvalidOutput, "invalid data_base64")
  }

  function LocalError(fault: LocalFault): AttemptError { AttemptError(fault.code, fault.message, "", "", false) }

  /** The decision on a readable event stream, from its completion event and the client's error. */
  function GuestDecision(guest: AttemptResult, uri: string, last: RunEvent, err: Option<Cause>): Decision {
    if last.outcome == "completed" then
      if last.exitCode != Some(0) then
        CommitThenRecord(guest.(terminal := true, resultURI := uri, error := Some(ExitError(last.exitCode))))
      else if err.None? then CommitThenRecord(guest.(status := Succeeded, terminal := true, resultURI := uri))
      else RecordOnly(guest.(error := Some(AttemptErrorOf(err.value))))
    else if last.outcome == "failed" || last.outcome == "canceled" then
      if last.error.Some? then
        RecordOnly(guest.(status := if last.error.value.IsPlatformMismatch() then PlatformMismatch else Failed,
                          error := Some(AttemptErrorOf(MachineCause(last.error.value, "")))))
      else RecordOnly(if err.Some? then guest.(error := Some(AttemptErrorOf(err.value))) else guest)
    else GiveUp(guest.(error := Some(UnsupportedOutcome(last.outcome))))
  }

  function ExitError(code: Option<int>): (e: AttemptError)
    ensures e.Valid()
  {
    AttemptError("runtime.execution_failed", ExitMessage(code), "", "", false)
  }

  function UnsupportedOutcome(outcome: string): (e: AttemptError)
    ensures e.Valid()
  {
    AttemptError("runtime.invalid_terminal_event", "unsupported outcome " + outcome, "", "", false)
  }

  const DIGEST_MESSAGE := "digest mismatch"

  /** The record of an attempt whose terminal document lost to another. */
  function LostResult(result: AttemptResult): AttemptResult {
    result.(status := Failed, terminal := false, resultURI := "",
            error := Some(AttemptError("result.terminal_exists", "already exists", "", "", false)))
  }

  datatype ReturnError = ReadFailed | AttemptFailed | CommitFailed | TerminalExists | AttemptNotWritten(why: WriteReply)

  datatype ChildReply = ChildReply(result: AttemptResult, err: Option<ReturnError>)

  /** The returned error after the attempt document has been written, or not. */
  function AfterWrite(result: AttemptResult, otherwise: Option<ReturnError>, write: WriteReply): ChildReply {
    ChildReply(result, if write.Created? then otherwise else Some(AttemptNotWritten(write)))
  }

  datatype Faults = Faults(read: Fault, commit: Fault, write: Fault)

  /** An undisturbed attempt, as one function of the store it starts on. */
  function Attempt(docs: Docs, req: ChildRequest, w: World, f: Faults): (Docs, ChildReply) {
    match ReadTerminal(docs, req.run, req.child, f.read)
    case ReadError => (docs, ChildReply(StartResult(req, w), Some(ReadFailed)))
    case Present(existing) => Recorded(docs, req.run, SkipResult(req, w, existing), None, f)
    case Absent => Executed(docs, req.run, Decide(req, w), w.commitTime, f)
  }

  function Executed(docs: Docs, run: BundleRun, d: Decision, commitTime: real, f: Faults): (Docs, ChildReply) {
    match d
    case GiveUp(r) => Recorded(docs, run, r, Some(AttemptFailed), f)
    case RecordOnly(r) => Recorded(docs, run, r, None, f)
    case CommitThenRecord(r) => Committed(docs, run, r, commitTime, f)
  }

  function Committed(
      docs: Docs, run: BundleRun, r: AttemptResult, commitTime: real, f: Faults): (Docs, ChildReply) {
    var (docs', commit) := CommitTerminal(docs, run, r, f.commit);
    var timed := Timed(r, commitTime);
    match commit
    case StoreError => (docs', ChildReply(timed, Some(CommitFailed)))
    case Exists => Recorded(docs', run, LostResult(timed), Some(TerminalExists), f)
    case Created => Recorded(docs', run, timed, None, f)
  }

  /** The commit call is timed after it has stored the record: the record that is returned and written as the
      attempt's own is not quite the one stored. */
  function Timed(r: AttemptResult, commitTime: real): AttemptResult {
    r.(timings := r.timings.(resultCommit := commitTime))
  }

  /** Equal in everything but the time of the commit call. */
  predicate SameButCommitTime(a: AttemptResult, b: AttemptResult) { a == Timed(b, a.timings.resultCommit) }

  function Recorded(
      docs: Docs, run: BundleRun, r: AttemptResult, otherwise: Option<ReturnError>, f: Faults): (Docs, ChildReply) {
    var (docs', write) := WriteAttempt(docs, run, r, f.write);
    (docs', AfterWrite(r, otherwise, write))
  }

  /** The part of `runChild` between the terminal check and the commit. */
  method ExecuteChild(req: ChildRequest, w: World, start: AttemptResult) returns (d: Decision)
    requires start.status.Failed? && !start.terminal && start.resultURI == "" && start.error.None?
    ensures d == DecideFrom(start, ChildTerminalURI(req), req, w, TerminalOf(w.reply.events), OutputOf(w.reply.events))
  {
    var result := start;
    if w.directory.Some? {
      return GiveUp(FailResult(result, w, Failed, LocalError(w.directory.value)));
    }
    if !UsesLocal(req) {
      if w.pull.PullFailed? {
        return GiveUp(FailResult(result, w, FailStatus(w.pull.cause), AttemptErrorOf(w.pull.cause)));
      }
      if w.pull.digest != req.run.bundle.digest {
        return GiveUp(FailResult(result, w, Failed, WrongDigest()));
      }
    }
    if w.generation.Some? {
      return GiveUp(FailResult(result, w, Failed, LocalError(w.generation.value)));
    }

    var terminal := TerminalEvent(w.reply.events);
    if terminal.Rejected? {
      var cause := if w.reply.err.Some? then w.reply.err.value else NoTerminal();
      return GiveUp(FailResult(result, w, FailStatus(cause), AttemptErrorOf(cause)));
    }
    var output := AttemptOutputFromEvents(w.reply.events);
    if output.BadPayload? {
      var cause := BadData();
      return GiveUp(FailResult(result, w, FailStatus(cause), AttemptErrorOf(cause)));
    }
    result := result.(output := output.output);

    var last := terminal.event;
    var commitTerminal := false;
    if last.outcome == "completed" {
      result := result.(terminal := true, resultURI := ChildTerminalURI(req));
      commitTerminal := true;
      if last.exitCode == Some(0) {
        result := result.(status := Succeeded);
      } else {
        result := result.(status := Failed, error := Some(ExitError(last.exitCode)));
      }
    } else if last.outcome == "failed" || last.outcome == "canceled" {
      result := result.(status := Failed);
      if last.error.Some? {
        result := result.(error := Some(AttemptErrorOf(MachineCause(last.error.value, ""))));
        if last.error.value.IsPlatformMismatch() {
          result := result.(status := PlatformMismatch);
        }
      }
    } else {
      return GiveUp(FailResult(result, w, Failed, UnsupportedOutcome(last.outcome)));
    }
    if w.reply.err.Some? && result.error.None? {
      result := result.(status := Failed, terminal := false, resultURI := "",
        error := Some(AttemptErrorOf(w.reply.err.value)));
      commitTerminal := false;
    }
    result := result.(finishedAt := w.finishedAt);
    d := if commitTerminal then CommitThenRecord(result) else RecordOnly(result);
  }

  // --- What the documents of an attempt say

  /** Who attempted what, when it began, and the timings but for the commit call's. */
  ghost predicate NamesAttempt(req: ChildRequest, w: World, r: AttemptResult) {
    && r.runID == req.run.runID && r.bundleDigest == req.run.bundle.digest && r.childID == req.child
    && r.agentID == req.lease.agentID && r.shardID == req.lease.shardID
    && (req.child >= 0 && req.attempt >= 0 ==> r.attemptID == FormatAttemptID(req.run.runID, req.child, req.attempt))
    && r.startedAt == w.startedAt && r.timings == w.timings.(resultCommit := r.timings.resultCommit)
  }

  predicate Says(error: Option<AttemptError>, code: string, message: string) {
    error == Some(AttemptError(code, message, "", "", false))
  }

  /** The recorded error is that of the first step that failed, else what the guest's end calls for. */
  ghost predicate Blames(req: ChildRequest, w: World, error: Option<AttemptError>) {
    var pulls := !req.localChildren || req.attempt != 1;
    && (w.directory.Some? ==> Says(error, w.directory.value.code, w.directory.value.message))
    && (w.directory.None? ==>
          && (pulls && w.pull.PullFailed? ==> error == Some(AttemptErrorOf(w.pull.cause)))
          && (pulls && w.pull.Pulled? && w.pull.digest != req.run.bundle.digest ==>
                error.Some? && error.value.code == "object.invalid")
          && (w.generation.Some? && (pulls ==> w.pull == Pulled(req.run.bundle.digest)) ==>
                Says(error, w.generation.value.code, w.generation.value.message)))
    && (w.ReachedGuest(req) ==> BlamesGuest(w.reply.events, w.reply.err, error))
  }

  ghost predicate BlamesGuest(events: seq<RunEvent>, err: Option<Cause>, error: Option<AttemptError>) {
    if !EndsInSoleTerminal(events) then
      error.Some? && if err.Some? then error == Some(AttemptErrorOf(err.value))
        else error.value.code == "runtime.invalid_output"
    else if exists e :: e in events && Damaged(e) then error.Some? && error.value.code == "runtime.invalid_output"
    else
      var last := events[|events| - 1];
      if last.outcome == "completed" && last.exitCode != Some(0) then
        Says(error, "runtime.execution_failed", ExitMessage(last.exitCode))
      else if last.outcome == "completed" || last.outcome == "failed" || last.outcome == "canceled" then
        var machine := if last.outcome == "completed" then None else last.error;
        error == if machine.Some? then Some(AttemptErrorOf(MachineCause(machine.value, "")))
          else if err.Some? then Some(AttemptErrorOf(err.value)) else None
      else error.Some? && error.value.code == "runtime.invalid_terminal_event"
  }

  /** The output of a guest whose events could be read. */
  ghost predicate HoldsOutput(req: ChildRequest, w: World, output: Option<AttemptOutput>) {
    if w.ReachedGuest(req) && EndsInSoleTerminal(w.reply.events) && !(exists e :: e in w.reply.events && Damaged(e))
      then Tells(w.reply.events, output) else output.None?
  }

  lemma GuestBlame(guest: AttemptResult, uri: string, events: seq<RunEvent>, err: Option<Cause>)
    requires EndsInSoleTerminal(events) && !(exists e :: e in events && Damaged(e)) && guest.error.None?
    ensures
      var r := GuestDecision(guest, uri, events[|events| - 1], err).result;
      BlamesGuest(events, err, r.error) && r.output == guest.output && r.finishedAt == guest.finishedAt
      && r.startedAt == guest.startedAt && r.timings == guest.timings
  {
  }

  /** Every decided record names its attempt, ends when the attempt did, blames the right step and holds what the
      guest wrote. */
  lemma DecisionSays(req: ChildRequest, w: World)
    ensures
      var r := Decide(req, w).result;
      && NamesAttempt(req, w, r) && r.finishedAt == w.finishedAt
      && Blames(req, w, r.error) && HoldsOutput(req, w, r.output)
  {
    var base, uri := StartResult(req, w), ChildTerminalURI(req);
    var terminal, output := TerminalOf(w.reply.events), OutputOf(w.reply.events);
    OutputMeaning(w.reply.events);
    DecideKeepsIdentity(base, uri, req, w, terminal, output);
    match EarlyFailure(req, w, terminal, output)
    case Some(failure) => EarlyBlame(req, w, failure);
    case None =>
      NothingEarly(req, w);
      GuestBlame(base.(output := output.output, finishedAt := w.finishedAt), uri, w.reply.events, w.reply.err);
  }

  /** The failure of an attempt that could not read a guest's end. */
  lemma EarlyBlame(req: ChildRequest, w: World, failure: Failure)
    requires EarlyFailure(req, w, TerminalOf(w.reply.events), OutputOf(w.reply.events)) == Some(failure)
    ensures Blames(req, w, Some(failure.error)) && HoldsOutput(req, w, None)
  {
    OutputMeaning(w.reply.events);
  }

  /** Otherwise the guest was reached and its end can be read. */
  lemma NothingEarly(req: ChildRequest, w: World)
    requires EarlyFailure(req, w, TerminalOf(w.reply.events), OutputOf(w.reply.events)).None?
    ensures w.ReachedGuest(req) && EndsInSoleTerminal(w.reply.events)
    ensures !(exists e :: e in w.reply.events && Damaged(e))
  {
    OutputMeaning(w.reply.events);
  }

  /** The guest ran, its events can be read and end with a completed one. */
  predicate Completes(req: ChildRequest, w: World) {
    w.ReachedGuest(req) && w.Readable() && w.Last().outcome == "completed"
  }

  /** SporeVM rejects the host in the pull, in a call without a readable completion, or in a failed completion. */
  predicate ReportsMismatch(req: ChildRequest, w: World) {
    || (w.directory.None? && (!req.localChildren || req.attempt != 1) && w.pull.PullFailed? &&
      w.pull.cause.MachineCause? && RejectsHost(w.pull.cause.body))
    || (w.ReachedGuest(req) && !EndsInSoleTerminal(w.reply.events) && w.reply.err.Some? &&
      w.reply.err.value.MachineCause? && RejectsHost(w.reply.err.value.body))
    || (w.ReachedGuest(req) && w.Readable() && (w.Last().outcome == "failed" || w.Last().outcome == "canceled")
        && w.Last().error.Some? && RejectsHost(w.Last().error.value))
  }

  predicate RejectsHost(body: MachineErrorBody) {
    body.code == "host.unsupported" || (body.code == "object.invalid" && body.source == "PlatformMismatch")
  }

  /** A success is decided exactly when the guest ran, its sole completion event is last, it reports exit 0
      and the client reported no error. */
  lemma SucceededIff(req: ChildRequest, w: World)
    ensures Decide(req, w).result.status.Succeeded? <==>
            Completes(req, w) && w.Last().exitCode == Some(0) && w.reply.err.None?
    ensures Decide(req, w).result.status.Succeeded? ==> Decide(req, w).CommitThenRecord?
  {
    SucceededFrom(StartResult(req, w), ChildTerminalURI(req), req, w, TerminalOf(w.reply.events),
      OutputOf(w.reply.events));
  }

  /** A terminal document is offered exactly for a completed guest, except that a client error withdraws an
      exit-0 completion; after a non-zero exit a client error withdraws nothing. */
  lemma CommitsIff(req: ChildRequest, w: World)
    ensures Decide(req, w).CommitThenRecord? <==>
            Completes(req, w) && (w.Last().exitCode == Some(0) ==> w.reply.err.None?)
    ensures Decide(req, w).CommitThenRecord? <==> Decide(req, w).result.terminal
  {
    CommitsFrom(StartResult(req, w), ChildTerminalURI(req), req, w, TerminalOf(w.reply.events),
      OutputOf(w.reply.events));
  }

  /** A platform mismatch, which stops the coordinator's retries, is recorded exactly when SporeVM said so: in the
      error of the pull, of a client call without a readable completion, or of a failed or canceled completion. */
  lemma PlatformMismatchIff(req: ChildRequest, w: World)
    ensures Decide(req, w).result.status.PlatformMismatch? <==> ReportsMismatch(req, w)
  {
    MismatchFrom(StartResult(req, w), ChildTerminalURI(req), req, w, TerminalOf(w.reply.events),
      OutputOf(w.reply.events));
  }

  lemma SucceededFrom(base: AttemptResult, uri: string, req: ChildRequest, w: World, terminal: TerminalReply,
      output: OutputReply)
    requires base.status.Failed?
    ensures
      var d := DecideFrom(base, uri, req, w, terminal, output);
      && (d.result.status.Succeeded? <==>
            w.ReachedGuest(req) && terminal.Sole? && output.Folded? &&
            terminal.event.outcome == "completed" && terminal.event.exitCode == Some(0) && w.reply.err.None?)
      && (d.result.status.Succeeded? ==> d.CommitThenRecord?)
  {
  }

  lemma CommitsFrom(base: AttemptResult, uri: string, req: ChildRequest, w: World, terminal: TerminalReply,
      output: OutputReply)
    requires !base.terminal
    ensures
      var d := DecideFrom(base, uri, req, w, terminal, output);
      && (d.CommitThenRecord? <==>
            w.ReachedGuest(req) && terminal.Sole? && output.Folded? && terminal.event.outcome == "completed" &&
            (terminal.event.exitCode == Some(0) ==> w.reply.err.None?))
      && (d.CommitThenRecord? <==> d.result.terminal)
  {
  }

  predicate Mismatches(cause: Cause) { cause.MachineCause? && cause.body.IsPlatformMismatch() }

  lemma MismatchFrom(base: AttemptResult, uri: string, req: ChildRequest, w: World, terminal: TerminalReply,
      output: OutputReply)
    requires base.status.Failed?
    ensures
      var guest := terminal.Sole? && output.Folded? &&
        (terminal.event.outcome == "failed" || terminal.event.outcome == "canceled")
        && terminal.event.error.Some? && terminal.event.error.value.IsPlatformMismatch();
      DecideFrom(base, uri, req, w, terminal, output).result.status.PlatformMismatch? <==>
      || (w.directory.None? && !UsesLocal(req) && w.pull.PullFailed? && Mismatches(w.pull.cause))
      || (w.ReachedGuest(req) && terminal.Rejected? && w.reply.err.Some? && Mismatches(w.reply.err.value))
      || (w.ReachedGuest(req) && guest)
  {
    assert !Mismatches(NoTerminal()) && !Mismatches(BadData());
  }

  predicate SameIdentity(a: AttemptResult, b: AttemptResult) {
    a.runID == b.runID && a.bundleDigest == b.bundleDigest && a.childID == b.childID && a.attemptID == b.attemptID &&
    a.agentID == b.agentID && a.shardID == b.shardID
  }

  lemma StartBelongs(req: ChildRequest, w: World)
    requires req.Valid() && req.IDsFit()
    ensures StartResult(req, w).BelongsTo(req.run)
  {
  }

  lemma GuestKeepsIdentity(guest: AttemptResult, uri: string, last: RunEvent, err: Option<Cause>)
    ensures SameIdentity(GuestDecision(guest, uri, last, err).result, guest)
  {
  }

  lemma DecideKeepsIdentity(base: AttemptResult, uri: string, req: ChildRequest, w: World, terminal: TerminalReply,
      output: OutputReply)
    ensures SameIdentity(DecideFrom(base, uri, req, w, terminal, output).result, base)
  {
    if EarlyFailure(req, w, terminal, output).None? {
      GuestKeepsIdentity(base.(output := output.output, finishedAt := w.finishedAt), uri, terminal.event, w.reply.err);
    }
  }

  /** A record that lacks nothing but its outcome. */
  predicate Unfinished(r: AttemptResult) {
    0 < r.startedAt <= r.finishedAt && r.timings.Valid() && (r.output.Some? ==> r.output.value.Valid()) &&
    !r.terminal && r.status.Failed? && r.error.None? && r.resultURI == ""
  }

  lemma FailedWellFormed(r: AttemptResult, status: AttemptStatus, error: AttemptError)
    requires Unfinished(r) && (status.Failed? || status.PlatformMismatch?) && error.Valid()
    ensures r.(status := status, error := Some(error)).WellFormed()
  {
  }

  lemma OfferedWellFormed(r: AttemptResult, uri: string, error: AttemptError)
    requires Unfinished(r) && ValidS3JSON(uri) && uri != "" && error.Valid()
    ensures r.(terminal := true, resultURI := uri, error := Some(error)).WellFormed()
    ensures r.(status := Succeeded, terminal := true, resultURI := uri).WellFormed()
  {
  }

  lemma GuestWellFormed(guest: AttemptResult, uri: string, last: RunEvent, err: Option<Cause>)
    requires Unfinished(guest) && last.Valid() && last.Terminal() && ValidS3JSON(uri) && uri != ""
    requires err.Some? ==> HasMessage(err.value) && WellClassified(err.value)
    ensures GuestDecision(guest, uri, last, err).result.WellFormed()
  {
    OfferedWellFormed(guest, uri, ExitError(last.exitCode));
    FailedWellFormed(guest, Failed, UnsupportedOutcome(last.outcome));
    if err.Some? {
      AttemptErrorValid(err.value);
      FailedWellFormed(guest, Failed, AttemptErrorOf(err.value));
    }
    if last.error.Some? {
      var cause := MachineCause(last.error.value, "");
      AttemptErrorValid(cause);
      FailedWellFormed(guest, FailStatus(cause), AttemptErrorOf(cause));
    }
  }

  lemma EarlyFailureValid(req: ChildRequest, w: World, terminal: TerminalReply, output: OutputReply)
    requires EarlyFailure(req, w, terminal, output).Some?
    requires w.directory.Some? ==> LocalError(w.directory.value).Valid()
    requires w.generation.Some? ==> LocalError(w.generation.value).Valid()
    requires w.pull.PullFailed? ==> HasMessage(w.pull.cause) && WellClassified(w.pull.cause)
    requires w.reply.err.Some? ==> HasMessage(w.reply.err.value) && WellClassified(w.reply.err.value)
    ensures
      var f := EarlyFailure(req, w, terminal, output).value;
      f.error.Valid() && (f.status.Failed? || f.status.PlatformMismatch?)
  {
    if w.pull.PullFailed? { AttemptErrorValid(w.pull.cause); }
    if w.reply.err.Some? { AttemptErrorValid(w.reply.err.value); }
    AttemptErrorValid(NoTerminal());
    AttemptErrorValid(BadData());
  }

  lemma DecideWellFormed(base: AttemptResult, uri: string, req: ChildRequest, w: World, terminal: TerminalReply,
      output: OutputReply)
    requires 0 < w.startedAt <= w.finishedAt && w.timings.Valid()
    requires w.directory.Some? ==> LocalError(w.directory.value).Valid()
    requires w.generation.Some? ==> LocalError(w.generation.value).Valid()
    requires w.pull.PullFailed? ==> HasMessage(w.pull.cause) && WellClassified(w.pull.cause)
    requires w.reply.err.Some? ==> HasMessage(w.reply.err.value) && WellClassified(w.reply.err.value)
    requires terminal.Sole? ==> terminal.event.Valid() && terminal.event.Terminal()
    requires output.Folded? && output.output.Some? ==> output.output.value.Valid()
    requires ValidS3JSON(uri) && uri != ""
    requires base.startedAt == w.startedAt && base.output.None? && Unfinished(base.(finishedAt := w.finishedAt))
    ensures DecideFrom(base, uri, req, w, terminal, output).result.WellFormed()
  {
    match EarlyFailure(req, w, terminal, output)
    case Some(f) =>
      EarlyFailureValid(req, w, terminal, output);
      FailedWellFormed(base.(finishedAt := w.finishedAt), f.status, f.error);
    case None =>
      GuestWellFormed(base.(output := output.output, finishedAt := w.finishedAt), uri, terminal.event, w.reply.err);
  }

  lemma DecideFields(req: ChildRequest, w: World)
    ensures SameIdentity(Decide(req, w).result, StartResult(req, w))
    ensures Decide(req, w).result.terminal ==>
              Decide(req, w).result.resultURI == ChildTerminalURI(req) &&
              (Decide(req, w).result.status.Succeeded? || Decide(req, w).result.status.Failed?)
  {
    DecideKeepsIdentity(StartResult(req, w), ChildTerminalURI(req), req, w, TerminalOf(w.reply.events),
      OutputOf(w.reply.events));
    TerminalDecision(StartResult(req, w), ChildTerminalURI(req), req, w, TerminalOf(w.reply.events),
      OutputOf(w.reply.events));
  }

  lemma TerminalDecision(base: AttemptResult, uri: string, req: ChildRequest, w: World, terminal: TerminalReply,
      output: OutputReply)
    requires base.status.Failed? && !base.terminal
    ensures
      var d := DecideFrom(base, uri, req, w, terminal, output);
      d.result.terminal <==> d.CommitThenRecord?
    ensures
      var d := DecideFrom(base, uri, req, w, terminal, output);
      d.result.terminal ==> d.result.resultURI == uri && (d.result.status.Succeeded? || d.result.status.Failed?)
  {
  }

  lemma DecideRecordValid(req: ChildRequest, w: World)
    requires req.Valid() && req.IDsFit() && w.Honest()
    ensures Decide(req, w).result.Valid(req.run)
  {
    StartBelongs(req, w);
    TerminalURIValid(req.run, req.child);
    var terminal, output := TerminalOf(w.reply.events), OutputOf(w.reply.events);
    assert terminal.Sole? ==> terminal.event in w.reply.events;
    DecideKeepsIdentity(StartResult(req, w), ChildTerminalURI(req), req, w, terminal, output);
    DecideWellFormed(StartResult(req, w), ChildTerminalURI(req), req, w, terminal, output);
  }

  lemma LostResultValid(run: BundleRun, r: AttemptResult)
    requires r.Valid(run)
    ensures LostResult(r).Valid(run) && SameIdentity(LostResult(r), r)
  {
  }

  lemma TimedValid(run: BundleRun, r: AttemptResult, commitTime: real)
    requires r.Valid(run) && commitTime >= 0.0
    ensures Timed(r, commitTime).Valid(run) && SameIdentity(Timed(r, commitTime), r)
  {
  }

  /** Every record an honest attempt can write passes the contract's check: the skip record, each decision's
      record and the record of a lost race. */
  lemma RecordsValid(req: ChildRequest, w: World, existing: AttemptResult)
    requires req.Valid() && req.IDsFit() && w.Honest()
    requires existing.Valid(req.run) && existing.terminal
    ensures SkipResult(req, w, existing).Valid(req.run)
    ensures Decide(req, w).result.Valid(req.run)
    ensures Timed(Decide(req, w).result, w.commitTime).Valid(req.run)
    ensures LostResult(Timed(Decide(req, w).result, w.commitTime)).Valid(req.run)
  {
    StartBelongs(req, w);
    DecideRecordValid(req, w);
    TimedValid(req.run, Decide(req, w).result, w.commitTime);
    LostResultValid(req.run, Timed(Decide(req, w).result, w.commitTime));
  }

  // --- What an attempt leaves behind

  /** The status of a decided record. */
  ghost predicate Judges(req: ChildRequest, w: World, status: AttemptStatus) {
    && (status.Succeeded? <==> Completes(req, w) && w.Last().exitCode == Some(0) && w.reply.err.None?)
    && (status.PlatformMismatch? <==> ReportsMismatch(req, w))
    && (status.Succeeded? || status.PlatformMismatch? || status.Failed?)
  }

  ghost predicate LostRace(r: AttemptResult) {
    r.status.Failed? && !r.terminal && r.resultURI == "" && r.error.Some? &&
    r.error.value.code == "result.terminal_exists"
  }

  /** What a new document, or a returned result, says of an attempt that started on this store. */
  ghost predicate Documents(docs: Docs, req: ChildRequest, w: World, read: Fault, r: AttemptResult) {
    NamesAttempt(req, w, r) &&
    match ReadTerminal(docs, req.run, req.child, read)
    case ReadError => r.status.Failed? && !r.terminal && r.output.None? && r.error.None? && r.finishedAt == w.startedAt
    case Present(existing) =>
      && r.status.SkippedTerminalExists? && r.terminal && r.output.None? && r.error.None?
      && r.finishedAt == w.finishedAt
      && r.resultURI == if existing.resultURI == "" then ChildTerminalURI(req) else existing.resultURI
    case Absent =>
      && r.finishedAt == w.finishedAt && HoldsOutput(req, w, r.output)
      && (LostRace(r) || (Judges(req, w, r.status) && Blames(req, w, r.error)))
  }

  /** All documents that are new. */
  ghost predicate DocumentsAdded(docs: Docs, after: Docs, req: ChildRequest, w: World, read: Fault) {
    forall u :: u in after && u !in docs ==> Documents(docs, req, w, read, after[u])
  }

  lemma DecisionJudges(req: ChildRequest, w: World)
    ensures Judges(req, w, Decide(req, w).result.status)
  {
    SucceededIff(req, w);
    PlatformMismatchIff(req, w);
    StatusFrom(StartResult(req, w), ChildTerminalURI(req), req, w, TerminalOf(w.reply.events),
      OutputOf(w.reply.events));
  }

  lemma StatusFrom(base: AttemptResult, uri: string, req: ChildRequest, w: World, terminal: TerminalReply,
      output: OutputReply)
    requires base.status.Failed?
    ensures
      var status := DecideFrom(base, uri, req, w, terminal, output).result.status;
      status.Succeeded? || status.PlatformMismatch? || status.Failed?
  {
  }

  ghost predicate AddsOnly(docs: Docs, after: Docs, a: AttemptResult, b: AttemptResult) {
    forall u :: u in after && u !in docs ==> after[u] == a || after[u] == b
  }

  lemma RecordedAdds(docs: Docs, run: BundleRun, r: AttemptResult, otherwise: Option<ReturnError>, f: Faults)
    ensures
      var (after, reply) := Recorded(docs, run, r, otherwise, f);
      AddsOnly(docs, after, r, r) && reply.result == r
  {
  }

  lemma CommitAdds(docs: Docs, run: BundleRun, r: AttemptResult, fault: Fault)
    ensures AddsOnly(docs, CommitTerminal(docs, run, r, fault).0, r, r)
  {
  }

  lemma AddedThen(docs: Docs, mid: Docs, after: Docs, a: AttemptResult, b: AttemptResult)
    requires AddsOnly(docs, mid, a, a) && AddsOnly(mid, after, b, b)
    requires forall u :: u in mid && u in after ==> mid[u] == after[u]
    ensures AddsOnly(docs, after, a, b)
  {
  }

  /** The new documents of an attempt are the terminal document it offered and its own record. */
  lemma NewDocuments(docs: Docs, run: BundleRun, d: Decision, commitTime: real, f: Faults)
    ensures
      var (after, reply) := Executed(docs, run, d, commitTime, f);
      && AddsOnly(docs, after, d.result, reply.result)
      && (reply.result == d.result || reply.result == Timed(d.result, commitTime) ||
        reply.result == LostResult(Timed(d.result, commitTime)))
  {
    match d
    case GiveUp(r) => RecordedAdds(docs, run, r, Some(AttemptFailed), f);
    case RecordOnly(r) => RecordedAdds(docs, run, r, None, f);
    case CommitThenRecord(r) =>
      var (mid, commit) := CommitTerminal(docs, run, r, f.commit);
      CommitAdds(docs, run, r, f.commit);
      var (after, reply) := Committed(docs, run, r, commitTime, f);
      if commit.Exists? {
        RecordedAdds(mid, run, LostResult(Timed(r, commitTime)), Some(TerminalExists), f);
      } else if commit.Created? {
        RecordedAdds(mid, run, Timed(r, commitTime), None, f);
      }
      AddedThen(docs, mid, after, r, reply.result);
  }

  /** Every document that an attempt adds to the store, and the result it returns, says who attempted what and when,
      how it ended and why, and holds the output of the guest. */
  lemma AttemptDocuments(docs: Docs, req: ChildRequest, w: World, f: Faults)
    ensures
      var (after, reply) := Attempt(docs, req, w, f);
      DocumentsAdded(docs, after, req, w, f.read) && Documents(docs, req, w, f.read, reply.result)
  {
    var (after, reply) := Attempt(docs, req, w, f);
    match ReadTerminal(docs, req.run, req.child, f.read)
    case ReadError =>
    case Present(existing) =>
      SkipDocuments(docs, req, w, f.read, existing);
      RecordedAdds(docs, req.run, SkipResult(req, w, existing), None, f);
      AddedDocuments(docs, after, req, w, f.read, reply.result, reply.result);
    case Absent =>
      DecisionDocuments(docs, req, w, f.read);
      NewDocuments(docs, req.run, Decide(req, w), w.commitTime, f);
      AddedDocuments(docs, after, req, w, f.read, Decide(req, w).result, reply.result);
  }

  lemma AddedDocuments(docs: Docs, after: Docs, req: ChildRequest, w: World, read: Fault, a: AttemptResult,
      b: AttemptResult)
    requires AddsOnly(docs, after, a, b) && Documents(docs, req, w, read, a) && Documents(docs, req, w, read, b)
    ensures DocumentsAdded(docs, after, req, w, read)
  {
  }

  lemma SkipDocuments(docs: Docs, req: ChildRequest, w: World, read: Fault, existing: AttemptResult)
    requires ReadTerminal(docs, req.run, req.child, read) == Present(existing)
    ensures Documents(docs, req, w, read, SkipResult(req, w, existing))
  {
  }

  lemma DecisionDocuments(docs: Docs, req: ChildRequest, w: World, read: Fault)
    requires ReadTerminal(docs, req.run, req.child, read).Absent?
    ensures
      var r := Decide(req, w).result;
      && Documents(docs, req, w, read, r) && Documents(docs, req, w, read, Timed(r, w.commitTime))
      && Documents(docs, req, w, read, LostResult(Timed(r, w.commitTime)))
  {
    DecisionSays(req, w);
    DecisionJudges(req, w);
    OnlyTimed(docs, req, w, read, Decide(req, w).result);
  }

  lemma OnlyTimed(docs: Docs, req: ChildRequest, w: World, read: Fault, r: AttemptResult)
    requires ReadTerminal(docs, req.run, req.child, read).Absent?
    requires NamesAttempt(req, w, r) && r.finishedAt == w.finishedAt && HoldsOutput(req, w, r.output)
    requires Judges(req, w, r.status) && Blames(req, w, r.error)
    ensures Documents(docs, req, w, read, r) && Documents(docs, req, w, read, Timed(r, w.commitTime))
    ensures Documents(docs, req, w, read, LostResult(Timed(r, w.commitTime)))
  {
    var timed := Timed(r, w.commitTime);
    assert NamesAttempt(req, w, timed) && NamesAttempt(req, w, LostResult(timed));
    assert LostRace(LostResult(timed));
  }

  /** The guest ended in a way that the attempt can record without giving up. */
  predicate Supported(req: ChildRequest, w: World) {
    w.ReachedGuest(req) && w.Readable() &&
    (w.Last().outcome == "completed" || w.Last().outcome == "failed" || w.Last().outcome == "canceled")
  }

  /** A terminal document is offered. */
  predicate OffersDocument(req: ChildRequest, w: World) {
    Completes(req, w) && (w.Last().exitCode == Some(0) ==> w.reply.err.None?)
  }

  lemma DecisionKind(req: ChildRequest, w: World)
    ensures Decide(req, w).GiveUp? <==> !Supported(req, w)
    ensures Decide(req, w).CommitThenRecord? <==> OffersDocument(req, w)
  {
    CommitsIff(req, w);
    KindFrom(StartResult(req, w), ChildTerminalURI(req), req, w, TerminalOf(w.reply.events),
      OutputOf(w.reply.events));
  }

  lemma KindFrom(base: AttemptResult, uri: string, req: ChildRequest, w: World, terminal: TerminalReply,
      output: OutputReply)
    ensures DecideFrom(base, uri, req, w, terminal, output).GiveUp? <==>
      !(w.ReachedGuest(req) && terminal.Sole? && output.Folded? && (terminal.event.outcome == "completed" ||
        terminal.event.outcome == "failed" || terminal.event.outcome == "canceled"))
  {
  }

  /** An honest attempt that nothing interrupts returns without error exactly when the store could be read, the guest
      ended in a supported way unless a terminal document was there, an offered document was stored, and the
      attempt's record was, for which its place must be free. A guest that failed is no error. */
  lemma ErrorFreeIff(docs: Docs, req: ChildRequest, w: World, f: Faults)
    requires req.Valid() && req.IDsFit() && w.Honest()
    ensures
      var own := AttemptURI(req.run, req.child, FormatAttemptID(req.run.runID, req.child, req.attempt));
      var found := ReadTerminal(docs, req.run, req.child, f.read);
      Attempt(docs, req, w, f).1.err.None? <==>
        && !found.ReadError? && f.write.NoFault? && own !in docs
        && (found.Absent? ==> Supported(req, w) && (OffersDocument(req, w) ==> f.commit.NoFault?))
  {
    match ReadTerminal(docs, req.run, req.child, f.read)
    case ReadError =>
    case Present(existing) =>
      RecordsValid(req, w, existing);
      OwnRecord(docs, req, SkipResult(req, w, existing), f.write);
    case Absent => ExecutedErrorFree(docs, req, w, f);
  }

  lemma OwnRecord(docs: Docs, req: ChildRequest, r: AttemptResult, fault: Fault)
    requires r.Valid(req.run) && r.childID == req.child >= 0 && req.attempt >= 0
    requires r.attemptID == FormatAttemptID(req.run.runID, req.child, req.attempt)
    ensures WriteAttempt(docs, req.run, r, fault).1.Created? <==>
      fault.NoFault? && AttemptURI(req.run, req.child, r.attemptID) !in docs
  {
  }

  lemma ExecutedErrorFree(docs: Docs, req: ChildRequest, w: World, f: Faults)
    requires req.Valid() && req.IDsFit() && w.Honest() && ReadTerminal(docs, req.run, req.child, f.read).Absent?
    ensures
      var own := AttemptURI(req.run, req.child, FormatAttemptID(req.run.runID, req.child, req.attempt));
      Executed(docs, req.run, Decide(req, w), w.commitTime, f).1.err.None? <==>
        f.write.NoFault? && own !in docs && Supported(req, w) && (OffersDocument(req, w) ==> f.commit.NoFault?)
  {
    var r := Decide(req, w).result;
    DecideRecordValid(req, w);
    DecideFields(req, w);
    DecisionKind(req, w);
    CommitsIff(req, w);
    match Decide(req, w)
    case GiveUp(_) =>
    case RecordOnly(_) => OwnRecord(docs, req, r, f.write);
    case CommitThenRecord(_) => CommittedErrorFree(docs, req, r, w.commitTime, f);
  }

  lemma CommittedErrorFree(docs: Docs, req: ChildRequest, r: AttemptResult, commitTime: real, f: Faults)
    requires r.Valid(req.run) && r.terminal && r.childID == req.child >= 0 && req.attempt >= 0 && commitTime >= 0.0
    requires r.attemptID == FormatAttemptID(req.run.runID, req.child, req.attempt)
    requires r.resultURI == TerminalURI(req.run, req.child) && TerminalURI(req.run, req.child) !in docs
    ensures Committed(docs, req.run, r, commitTime, f).1.err.None? <==>
      f.commit.NoFault? && f.write.NoFault? && AttemptURI(req.run, req.child, r.attemptID) !in docs
  {
    TimedValid(req.run, r, commitTime);
    AttemptIsNotTerminal(req.run, req.child, r.attemptID, req.child);
    FreeCommit(docs, req.run, r, f.commit);
    OwnRecord(docs[TerminalURI(req.run, req.child) := r], req, Timed(r, commitTime), f.write);
  }

  lemma FreeCommit(docs: Docs, run: BundleRun, r: AttemptResult, fault: Fault)
    requires r.Valid(run) && r.terminal && r.childID >= 0 && r.resultURI == TerminalURI(run, r.childID)
    requires TerminalURI(run, r.childID) !in docs
    ensures
      var (after, reply) := CommitTerminal(docs, run, r, fault);
      if fault.NoFault? then after == docs[TerminalURI(run, r.childID) := r] && reply.Created? else reply.StoreError?
  {
  }

  /** `runChild`: one result value changed in place along the branches. */
  method RunChild(req: ChildRequest, w: World, f: Faults, store: Store) returns (reply: ChildReply)
    requires req.Valid()
    modifies store
    ensures (store.docs, reply) == Attempt(old(store.docs), req, w, f)
    ensures DocumentsAdded(old(store.docs), store.docs, req, w, f.read)
    ensures Documents(old(store.docs), req, w, f.read, reply.result)
  {
    AttemptDocuments(store.docs, req, w, f);
    var result := StartResult(req, w);
    var existing := store.TerminalResult(req.run, req.child, f.read);
    if existing.ReadError? {
      return ChildReply(result, Some(ReadFailed));
    }
    if existing.Present? && !req.run.policy.rerunCommittedChildren {
      result := result.(status := SkippedTerminalExists, finishedAt := w.finishedAt, terminal := true);
      result := result.(resultURI := existing.doc.resultURI);
      if result.resultURI == "" {
        result := result.(resultURI := ChildTerminalURI(req));
      }
      var wrote := store.WriteAttemptResult(req.run, result, f.write);
      return AfterWrite(result, None, wrote);
    }

    var decision := ExecuteChild(req, w, result);
    result := decision.result;
    if decision.GiveUp? {
      var wrote := store.WriteAttemptResult(req.run, result, f.write);
      return AfterWrite(result, Some(AttemptFailed), wrote);
    }
    if decision.CommitThenRecord? {
      reply := CommitChild(req.run, result, w.commitTime, f, store);
      return;
    }
    var wrote := store.WriteAttemptResult(req.run, result, f.write);
    return AfterWrite(result, None, wrote);
  }

  /** The end of `runChild` for a result that is offered as the terminal document. */
  method CommitChild(run: BundleRun, offered: AttemptResult, commitTime: real, f: Faults, store: Store)
      returns (reply: ChildReply)
    modifies store
    ensures (store.docs, reply) == Committed(old(store.docs), run, offered, commitTime, f)
  {
    var result := offered;
    var committed := store.CommitTerminalResult(run, result, f.commit);
    result := result.(timings := result.timings.(resultCommit := commitTime));
    if committed.StoreError? {
      return ChildReply(result, Some(CommitFailed));
    }
    if committed.Exists? {
      result := LostResult(result);
      var wrote := store.WriteAttemptResult(run, result, f.write);
      return AfterWrite(result, Some(TerminalExists), wrote);
    }
    var wrote := store.WriteAttemptResult(run, result, f.write);
    return AfterWrite(result, None, wrote);
  }

  /** The id bound is needed: past 128 characters no record of the attempt can be written at all. */
  lemma LongIDsRefuseEveryRecord(req: ChildRequest, w: World, docs: Docs, fault: Fault)
    requires req.Valid()
    ensures !req.IDsFit() ==> WriteAttempt(docs, req.run, Decide(req, w).result, fault) == (docs, StoreError)
    ensures !req.IDsFit() ==> CommitTerminal(docs, req.run, Decide(req, w).result, fault) == (docs, StoreError)
  {
    DecideKeepsIdentity(StartResult(req, w), ChildTerminalURI(req), req, w, TerminalOf(w.reply.events),
      OutputOf(w.reply.events));
  }
}
