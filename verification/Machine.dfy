/** The SporeVM machine contract: run events, machine errors, and what a finished command's event
    stream tells its caller. */
module Machine {
  import opened Text
  import opened Contracts

  datatype MachineErrorBody = MachineErrorBody(
      code: string, message: string, retry: string, retryable: bool, scope: string, exitCode: int, source: string) {
    predicate Valid() { code != "" && scope != "" && ValidRetry(retry, retryable) }

    predicate IsPlatformMismatch() {
      code == "host.unsupported" || (code == "object.invalid" && source == "PlatformMismatch")
    }
  }

  /** Go error values as far as attempt records tell them apart. */
  datatype Cause =
    | MachineCause(body: MachineErrorBody, stderr: string)
    | PlainCause(kind: PlainKind, message: string)

  datatype PlainKind = Canceled | DeadlineExceeded | InvalidOutput | Unclassified

  /** `(*MachineError).Error` */
  function MachineMessage(body: MachineErrorBody, stderr: string): (m: string)
    ensures m != ""
  {
    var message := if body.message != "" then body.message else if stderr != "" then stderr else "spore command failed";
    if body.code == "" then message
    else if body.source == "" then body.code + ": " + message
    else body.code + ": " + message + " (source=\"" + body.source + "\")"
  }

  predicate HasMessage(cause: Cause) { cause.PlainCause? ==> cause.message != "" }

  predicate WellClassified(cause: Cause) { cause.MachineCause? ==> cause.body.Valid() }

  function AttemptErrorOf(cause: Cause): AttemptError {
    match cause
    case MachineCause(body, stderr) =>
      AttemptError(if body.code == "" then "spore.error" else body.code,
                   if body.message == "" then MachineMessage(body, stderr) else body.message,
                   body.scope, body.retry, body.retryable)
    case PlainCause(kind, message) =>
      var code := match kind
        case Canceled => "agent.canceled"
        case DeadlineExceeded => "agent.deadline_exceeded"
        case InvalidOutput => "runtime.invalid_output"
        case Unclassified => "agent.error";
      AttemptError(code, message, "", "", false)
  }

  /** A cause yields an error the contract accepts exactly when a plain error has a message and a machine body's
      classification is wholly absent, or has a scope and a consistent retry. */
  lemma AttemptErrorValidIff(cause: Cause)
    ensures AttemptErrorOf(cause).Valid() <==>
      match cause
      case PlainCause(_, message) => message != ""
      case MachineCause(body, _) =>
        || (body.scope == "" && body.retry == "" && !body.retryable)
        || (body.scope != "" && ValidRetry(body.retry, body.retryable))
  {
  }

  /** What an error record says: a machine error keeps SporeVM's code, message, scope and retry, with stand-ins for a
      missing code or message, the latter never empty; any other error keeps its message under a code for its kind. */
  lemma AttemptErrorMeaning(cause: Cause)
    ensures
      var e := AttemptErrorOf(cause);
      match cause
      case MachineCause(body, stderr) =>
        && e.scope == body.scope && e.retry == body.retry && e.retryable == body.retryable
        && e.code == (if body.code != "" then body.code else "spore.error")
        && (body.message != "" ==> e.message == body.message)
        && (body.message == "" && body.code == "" ==>
              e.message == if stderr != "" then stderr else "spore command failed")
        && (body.message == "" && body.code != "" ==> e.message != "" && HasPrefix(e.message, body.code))
      case PlainCause(kind, message) =>
        && e.message == message && e.scope == "" && e.retry == "" && !e.retryable
        && (e.code == "agent.canceled" <==> kind.Canceled?)
        && (e.code == "agent.deadline_exceeded" <==> kind.DeadlineExceeded?)
        && (e.code == "runtime.invalid_output" <==> kind.InvalidOutput?)
        && (e.code == "agent.error" <==> kind.Unclassified?)
  {
  }

  /** A validated machine body and a non-empty message are such causes. */
  lemma AttemptErrorValid(cause: Cause)
    requires HasMessage(cause) && WellClassified(cause)
    ensures AttemptErrorOf(cause).Valid()
  {
    AttemptErrorValidIff(cause);
  }

  /** `data` is the decoded `data_base64`, None when it is not base64; `framed` says schema, version and
      command are as required. */
  datatype RunEvent = RunEvent(
      framed: bool, event: string, outcome: string, exitCode: Option<int>, byteCount: int, data: Option<seq<Byte>>,
      captured: bool, execResponseMS: Option<nat>, error: Option<MachineErrorBody>) {
    predicate Terminal() { event == "completion" }

    predicate Valid() {
      framed && event != "" &&
      if !Terminal() then outcome == "" && error.None?
      else
        exitCode.Some? &&
        ((outcome == "completed" && error.None?) ||
         ((outcome == "failed" || outcome == "canceled") && error.Some? && error.value.Valid() &&
          error.value.exitCode == exitCode.value))
    }
  }

  datatype StreamError = NoTerminalEvent | MultipleTerminals | ContinuesAfterCompletion

  datatype TerminalReply = Sole(event: RunEvent) | Rejected(why: StreamError)

  predicate EndsInSoleTerminal(events: seq<RunEvent>) {
    events != [] && events[|events| - 1].Terminal() && forall i :: 0 <= i < |events| - 1 ==> !events[i].Terminal()
  }

  /** What `TerminalEvent` says of a stream. */
  function TerminalOf(events: seq<RunEvent>): TerminalReply {
    if EndsInSoleTerminal(events) then Sole(events[|events| - 1])
    else if exists i :: 0 <= i < |events| && events[i].Terminal() then Rejected(ContinuesAfterCompletion)
    else Rejected(NoTerminalEvent)
  }

  /** The loop that finds the completion event. Its `MultipleTerminals` branch is dead: a first terminal
      event with anything after it is already refused. */
  method TerminalEvent(events: seq<RunEvent>) returns (r: TerminalReply)
    ensures r == TerminalOf(events)
    ensures r != Rejected(MultipleTerminals)
  {
    var terminal: Option<RunEvent> := None;
    for i := 0 to |events|
      invariant terminal.None? ==> forall j :: 0 <= j < i ==> !events[j].Terminal()
      invariant terminal.Some? ==> i == |events| && EndsInSoleTerminal(events) && terminal.value == events[|events| - 1]
    {
      if events[i].Terminal() {
        if terminal.Some? {
          assert false;
        }
        terminal := Some(events[i]);
        if i != |events| - 1 {
          return Rejected(ContinuesAfterCompletion);
        }
      }
    }
    if terminal.None? {
      return Rejected(NoTerminalEvent);
    }
    return Sole(terminal.value);
  }

  /** How the `spore` process ended. */
  datatype ProcessExit = Exited0 | ExitStatus(code: int) | ProcessError(cause: Cause)

  function ExitFailure(exit: ProcessExit): Cause {
    match exit
    case ProcessError(cause) => cause
    case _ => PlainCause(Unclassified, "exit status")
  }

  function InvalidMachineOutput(message: string): Cause {
    PlainCause(InvalidOutput, "invalid sporevm machine output: " + message)
  }

  /** `validateRunEventExitStatus` */
  function ExitStatusError(exit: ProcessExit, terminal: RunEvent): Option<Cause> {
    if !terminal.Terminal() || terminal.exitCode.None?
      then Some(InvalidMachineOutput("terminal event is not a completion"))
    else
      match exit
      case Exited0 => if terminal.exitCode.value == 0 then None
        else Some(InvalidMachineOutput("exited 0 but completion differs"))
      case ExitStatus(code) => if code == terminal.exitCode.value then None
        else Some(InvalidMachineOutput("exit status does not match completion"))
      case ProcessError(cause) => Some(cause)
  }

  datatype ClientReply = ClientReply(events: seq<RunEvent>, err: Option<Cause>)

  /** `decodeRunEventsAfterCommand`; `decoded` is None when the output does not decode. */
  function AfterCommand(decoded: Option<seq<RunEvent>>, exit: ProcessExit, stderr: string,
      guestExitIsError: bool): ClientReply {
    if decoded.None? || !forall e :: e in decoded.value ==> e.Valid() then
      ClientReply([], Some(if exit.Exited0? then InvalidMachineOutput("decode run event") else ExitFailure(exit)))
    else
      match TerminalOf(decoded.value)
      case Rejected(_) =>
        ClientReply([], Some(if exit.Exited0? then InvalidMachineOutput("missing terminal event")
          else ExitFailure(exit)))
      case Sole(terminal) =>
        assert terminal in decoded.value;
        var statusErr := ExitStatusError(exit, terminal);
        if statusErr.Some? then ClientReply(decoded.value, statusErr)
        else if terminal.outcome == "failed" || terminal.outcome == "canceled" then
          ClientReply(decoded.value, Some(MachineCause(terminal.error.value, stderr)))
        else if guestExitIsError && terminal.exitCode.value != 0 then
          ClientReply(decoded.value, Some(PlainCause(Unclassified, "guest exited")))
        else ClientReply(decoded.value, None)
  }

  /** What every reply of the command client guarantees, whatever the process printed and however it ended. */
  predicate Decoded(reply: ClientReply) {
    && (forall e :: e in reply.events ==> e.Valid())
    && (reply.events != [] ==> EndsInSoleTerminal(reply.events))
    && (reply.events == [] ==> reply.err.Some?)
    && (reply.err.None? ==> reply.events[|reply.events| - 1].outcome == "completed")
    && (reply.err.Some? ==> HasMessage(reply.err.value) && WellClassified(reply.err.value))
  }

  /** The stream is valid and its sole completion event is last. */
  ghost predicate Ended(decoded: Option<seq<RunEvent>>) {
    decoded.Some? && (forall e :: e in decoded.value ==> e.Valid()) && decoded.value != [] &&
    forall i :: 0 <= i < |decoded.value| ==>
      (decoded.value[i].event == "completion" <==> i == |decoded.value| - 1)
  }

  /** The process ended with the exit code that the stream reports. */
  ghost predicate Confirms(exit: ProcessExit, code: int) {
    (exit.Exited0? && code == 0) || exit == ExitStatus(code)
  }

  /** A reply has the whole stream exactly when the stream is well-formed, and none of it otherwise. It is without
      error exactly when that stream ends in a completed event whose exit code the process confirms, and which is 0 if
      guest exits count as errors; SporeVM's own error is passed on exactly when a confirmed event reports a failed or
      canceled run, and a failure to run the process always. */
  lemma AfterCommandIff(decoded: Option<seq<RunEvent>>, exit: ProcessExit, stderr: string, guestExitIsError: bool)
    ensures
      var reply := AfterCommand(decoded, exit, stderr, guestExitIsError);
      if !Ended(decoded) then
        && reply.events == [] && reply.err.Some?
        && (exit.ProcessError? ==> reply.err == Some(exit.cause))
        && (exit.Exited0? ==> reply.err.value.PlainCause? && reply.err.value.kind.InvalidOutput?)
      else
        var last := decoded.value[|decoded.value| - 1];
        && reply.events == decoded.value && last.exitCode.Some?
        && (reply.err.None? <==>
              && last.outcome == "completed" && Confirms(exit, last.exitCode.value)
              && (guestExitIsError ==> last.exitCode.value == 0))
        && (exit.ProcessError? ==> reply.err == Some(exit.cause))
        && (Confirms(exit, last.exitCode.value) && last.outcome != "completed" ==>
              last.error.Some? && reply.err == Some(MachineCause(last.error.value, stderr)))
        && (!exit.ProcessError? && !Confirms(exit, last.exitCode.value) ==>
              reply.err.Some? && reply.err.value.PlainCause? && reply.err.value.kind.InvalidOutput?)
  {
    if decoded.Some? && decoded.value != [] {
      var last := decoded.value[|decoded.value| - 1];
      assert last in decoded.value;
      assert Ended(decoded) <==>
        (forall e :: e in decoded.value ==> e.Valid()) && EndsInSoleTerminal(decoded.value);
    }
  }

  lemma AfterCommandDecoded(decoded: Option<seq<RunEvent>>, exit: ProcessExit, stderr: string, guestExitIsError: bool)
    requires exit.ProcessError? ==> HasMessage(exit.cause) && WellClassified(exit.cause)
    ensures Decoded(AfterCommand(decoded, exit, stderr, guestExitIsError))
    ensures AfterCommand(decoded, exit, stderr, guestExitIsError).err.None? ==>
              var last := decoded.value[|decoded.value| - 1];
              last.exitCode.Some? && exit == (if last.exitCode.value == 0 && exit.Exited0? then Exited0
                else ExitStatus(last.exitCode.value))
  {
    if decoded.Some? && EndsInSoleTerminal(decoded.value) {
      assert decoded.value[|decoded.value| - 1] in decoded.value;
    }
  }
}
