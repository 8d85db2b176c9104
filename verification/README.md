# Verification model of the SporeVM fleet agent and coordinator

The node agent of this repository admits work to a fixed number of execution slots, restores guests from saved
spores, keeps a cache of boot templates, prepares and releases the saved spores of a run, and records what each
child attempt came to in a create-only result store. The coordinator chooses an agent, hands it a lease over the
whole run, retries until every child has a terminal result, and reports a summary. This project models that
concurrent and crash-safe state and proves what holds in every interleaving, after every crash and for every
answer of SporeVM, the file system, the store and the agents.

How the modules fit together:

- `Text`, `Contracts`, `ResultLayout`, `Collections`: strings and numbers as Go formats and orders them, the
  contract documents with their checks, the layout of result URIs, sizes of finite sets.
- `Slots`, `Lifecycle`, `ShardPool`: the slot counter, the sandbox table, and the transition system in which
  Run, CreateSandbox, RemoveSandbox, RunChild and RunShard share both. Each mutex-protected block and each return
  of a client call is one step, and so is each start and stop of a named VM inside SporeVM. A restore that reports an
  error may have left a VM behind, and a removal that reports one may have stopped its VM.
- `PrepareGate`: the reference-counted, deletable mutex of each run id, with cancellation.
- `CleanupLedger`, `CleanupCrash`: the ledger format and its first construction, and preparing and releasing a run
  one file step at a time, with a crash possible after every step.
- `Templates`, `TemplateCache`, `TemplateLeases`: one reconcile pass as a specification and as the two loops that
  compute it, and every run of ensures, lease releases, passes, leftover builds and restarts.
- `CacheGC`: the pending flag of the cache collection.
- `Machine`, `Output`, `Attempts`, `ResultStore`, `CommitProtocol`, `Races`: what a decoded event stream guarantees,
  the folded output, one child attempt, the store, any number of attempts racing over it, and concrete races.
- `Planner`, `RuntimeStates`, `RetryLoop`, `Coordinator`, `Percentile`: admission, the retry loop and the summary.
- `ShardReplies`, `EndToEnd`: what a call of RunShard reports of the attempts behind it, on the agent and over HTTP,
  and the coordinator's report against the store that it and its agents share.

Objects whose methods update fields are classes (`SlotLimiter`, `Reservation`, `SandboxTable`, `Sandboxes`,
`PrepareOps`, `PreparedRoot`, `Cache`, `Flag`, `Store`, `RuntimeState`). Their methods are proved against functions on
values, and the transition systems step by those same functions; `PreparedRoot.ReleasePreparedRun` is proved to leave
a state that the transition system of `CleanupCrash` reaches. What those functions mean is stated beside them once
more, in terms of the fields that the source reads.

Clients, clocks, the file system and the network appear as parameters: an outcome, an answer or a fault that the
lemmas quantify over. `GoInt` and `Wrap64` are Go's 64-bit `int`; a child range's end wraps as it does in Go.

## What the code does not guarantee

Each of these is a lemma with its exact condition or a concrete run.

- A run id of 118 to 128 characters is accepted by every check, but the shard id built from it is not a valid id, so
  its lease never validates (`ResultLayout.ShardIDValid`, `Planner.NeverRefusedLater`). Attempt ids have a similar
  bound, past which no record of the attempt can be written (`Attempts.LongIDsRefuseEveryRecord`).
- A commit call that errors returns the result still marked terminal, and the coordinator counts it. It does so with
  nothing stored exactly when the call fails before it writes and nobody else has committed the child
  (`CommitProtocol.CommitUnstoredIff`). In a concrete run the report says "succeeded" over a store with no terminal
  document, and no error reaches the coordinator, because the agent's server drops the error of a call that has
  results (`EndToEnd.ErroredCommitReportsSuccess`). Reports whose results came from clean calls are safe, whatever
  happened to other attempts (`EndToEnd.SucceededMeansStored`, `EndToEnd.SucceededOverShards`).
- The winner's returned result and attempt record differ from the stored terminal document in the time of the commit
  call, which is set only after the document is stored. They are equal exactly when that time is the one the offered
  record already held, that of the read before (`CommitProtocol.WinnerEqualsDocumentIff`).
- Over HTTP the results of a call arrive all or none: one child that was not attempted, or whose attempt could not read
  the store, makes the coordinator's client refuse the whole answer (`ShardReplies.RemoteDeliversIff`).
- A skip hides the outcome that it skipped: a child whose committed document is a failure is counted as skipped in a
  report that says "succeeded" (the concrete run of `EndToEnd.SkipHidesFailure`). Without skips every stored document
  is a success (`EndToEnd.SucceededWithoutSkips`).
- The record of a lost race is refused exactly when a record under the same child and attempt number is already there,
  because attempt ids do not name the agent (`CommitProtocol.LoserRecordedIff`, and the run of `Races.LoserRefused`).
- After a non-zero exit a client error withdraws nothing: the failure is still committed as terminal. After exit 0 it
  withdraws the success (`Attempts.CommitsIff`).
- A ledger of more than a million forked children is refused when it is read back, because "1000000" sorts before
  "999999" in a directory listing (`CleanupLedger.ForkedLedgerValidIff`).
- If the very first write of a ledger is cut short, every later release fails and the spores stay. This is safe, but
  no later release repairs it (`CleanupCrash.WedgedForever`, `CleanupCrash.WedgeReachable`).
- An entry can keep a slot that no VM uses. There are three ways to it, each with a concrete run: a removal that found
  no entry destroys the VM of a sandbox created meanwhile (`Lifecycle.UntrackedRemovalWastesSlot`); a restore fails
  without a VM and the RemoveVM that cleans up errors, which activates the sandbox
  (`Lifecycle.FailedRestoreWastesSlot`); a tracked removal destroys the VM and RemoveVM still errors, which activates
  it again (`Lifecycle.ErroredRemovalWastesSlot`). There is no fourth: `Lifecycle.SandboxesHaveVMs` is the exact
  condition over whole runs.
- A collection on an owning agent without a client drops the flag the agent started with, and nothing else does
  (`CacheGC.FirstCollectionIff`). The comment on `CollectCache` says that it skips passes in which nothing was removed
  since the last success. That is exact when collections do not overlap, as in the agent's own loop
  (`CacheGC.CollectsOnlyWhenWanted`), and fails when they do (`CacheGC.OverlapCollectsAgain`), which can happen only
  as a call settles (`CacheGC.ReasonKeptUnless`).
- A child range whose end wraps past 64 bits passes `Validate` and holds no child (`Contracts.WrappedRangeIsValid`).
- `TerminalEvent` can never report more than one terminal event: a completion with anything after it has already
  been refused (`Machine.TerminalEvent`).

## Model

| member | source | states |
|---|---|---|
| `Text.PadLength` | internal/agent/runtime.go:895-898 | a number padded to w digits has exactly w digits if and only if it is below 10^w |
| `Text.LessIsNumeric` | internal/agent/runtime.go:720-728 | on digit strings of one length, byte order is numeric order |
| `Contracts.CompileIff` | internal/fleet/validate.go:170-201 | Compile succeeds exactly when its own checks pass: the closing validation of the bundle run rejects nothing more; run id, range, bundle, host class, policy, result prefix and the children's command are carried over, and that command is what every child runs |
| `Contracts.RangeHoldsItsChildren` | internal/fleet/validate.go:244-252 | a valid range holds its children exactly when its end does not wrap past 64 bits |
| `Contracts.WrappedRangeIsValid` | internal/fleet/validate.go:66-107 | a run whose range wraps passes every check and has no child |
| `Contracts.ValidMemoryIff` | internal/fleet/validate.go:146-167 | a memory size is accepted exactly when it is a positive whole number of 4 KiB pages that fits in 64 bits |
| `ResultLayout.AttemptIDUnique` | internal/fleet/validate.go:360-362 | an attempt id determines run id, child and attempt, whatever the run id contains |
| `ResultLayout.AttemptIDValid` | internal/fleet/validate.go:360-362 | a generated attempt id is valid exactly when run id, child digits and attempt digits total at most 112 characters |
| `ResultLayout.ShardIDValid` | internal/fleet/coordinator.go:62 | a generated shard id is valid exactly for run ids of at most 117 characters |
| `ResultLayout.TerminalURIUnique` | internal/agent/result_store.go:32-34 | distinct children have distinct terminal URIs |
| `ResultLayout.AttemptIsNotTerminal` | internal/agent/result_store.go:32-39 | no attempt document, whatever its attempt id, can take a terminal document's place |
| `ResultLayout.AttemptURIUnique` | internal/agent/result_store.go:37-39 | within a run the attempts' documents have pairwise distinct URIs |
| `ResultLayout.TerminalURIValid` | internal/fleet/validate.go:525-545 | every terminal URI below a valid prefix passes the JSON URI check |
| `Machine.TerminalEvent` | internal/agent/machine.go:779-797 | the loop accepts a stream exactly when its sole completion event is last; the "multiple" refusal never happens |
| `Machine.AttemptErrorValidIff` | internal/agent/runtime.go:1453-1488 | the recorded error passes the contract's check exactly when a plain error has a message and a machine body is either wholly unclassified or has a scope and a consistent retry |
| `Machine.AttemptErrorMeaning` | internal/agent/runtime.go:1453-1488 | a machine error keeps its code, message, scope and retry, with stand-ins for a missing code or message; each other kind of error has its own code and keeps its message |
| `Machine.AfterCommandDecoded` | internal/agent/command_client.go:480-535 | whatever the process printed and however it ended, the reply holds validated events, its error has a message, and machine bodies are validated |
| `Machine.AfterCommandIff` | internal/agent/command_client.go:480-535 | the whole stream is returned exactly when it is well-formed; without error exactly when it ends in a completed event whose exit code the process confirms, and that is 0 if guest exits are errors; which error it is otherwise |
| `Output.OutputOf` | internal/fleet/validate.go:452-486 | the folded output always passes AttemptOutput's check |
| `Output.OutputMeaning` | internal/agent/runtime.go:1400-1451 | events named stdout and output are the standard output, stderr the standard error; a stream folds exactly when none of these is damaged, into counts, 16384-byte previews and truncation |
| `Output.AttemptOutputFromEvents` | internal/agent/runtime.go:1400-1451 | the single pass yields the lengths of the two concatenated streams, their first 16384 bytes, and truncation exactly when a total exceeds that; a bad payload anywhere refuses the stream |
| `ResultStore.CreateOnly` | internal/agent/result_store.go:173-214 | a document is created only where none was, and no write changes another |
| `ResultStore.ReadIff` | internal/agent/result_store.go:58-87 | a read answers "absent" exactly when it succeeded for a child of a valid run and nothing is stored, and with a document exactly when that one is stored and validates |
| `ResultStore.AttemptWrittenIff` | internal/agent/result_store.go:90-109 | a record is written exactly when it validates, its place is free and the store does not fail before; what each reply means |
| `ResultStore.TerminalWrittenIff` | internal/agent/result_store.go:112-131 | the same for a terminal document, which must also be terminal and name its own place |
| `ResultStore.Store.TerminalResult` | internal/agent/result_store.go:58-87 | a read returns the stored valid terminal document, an absence, or an error |
| `ResultStore.Store.WriteAttemptResult` | internal/agent/result_store.go:90-109 | an attempt document is written create-only under its own URI, and only if it validates |
| `ResultStore.Store.CommitTerminalResult` | internal/agent/result_store.go:112-131 | a terminal document is created only if it validates, is terminal, names its child's terminal URI, and none exists |
| `Attempts.SucceededIff` | internal/agent/runtime.go:1098-1158 | success is decided exactly when the guest was reached, its sole completion event is last and reports exit 0, and the client reported no error |
| `Attempts.CommitsIff` | internal/agent/runtime.go:1114-1158 | a terminal document is offered exactly for a completed guest, except that a client error withdraws an exit-0 completion |
| `Attempts.PlatformMismatchIff` | internal/agent/runtime.go:1453-1493 | a platform mismatch is recorded exactly when SporeVM said so in the pull, in a call without a readable completion, or in a failed or canceled completion |
| `Attempts.RecordsValid` | internal/fleet/validate.go:365-429 | every record an honest attempt writes passes AttemptResult's check: skip, decision and lost race |
| `Attempts.LongIDsRefuseEveryRecord` | internal/agent/runtime.go:1248-1273 | past 128 characters of attempt id the store refuses every record of the attempt |
| `Attempts.ExecuteChild` | internal/agent/runtime.go:1042-1158 | the in-place construction of the result is the decision as a function of what the attempt met |
| `Attempts.AttemptDocuments` | internal/agent/runtime.go:1004-1184 | every document an attempt adds to the store, and its result, names who attempted what and when, has the status and the error of the first step that failed or of the guest's end, and holds the output of a guest whose events could be read and of no other |
| `Attempts.ErrorFreeIff` | internal/agent/runtime.go:1022-1184 | an attempt returns without error exactly when the store could be read, the guest ended in a supported way unless a document was there, an offered document was stored and the attempt's record was, into a free place |
| `Attempts.RunChild` | internal/agent/runtime.go:1004-1184 | one uninterrupted attempt leaves exactly the store and the result that the specification function names, with the commit call timed only after the document is stored; every new document and the result say what `AttemptDocuments` states |
| `CommitProtocol.StepKeepsInv` | internal/agent/runtime.go:1004-1184 | every step of every attempt keeps: returned and pending records, winners and terminal documents agree |
| `CommitProtocol.AttemptIsARun` | internal/agent/runtime.go:1004-1184 | the atomic attempt is a run of the protocol: its steps in a row do what `RunChild` does |
| `CommitProtocol.NothingIsOverwritten` | internal/agent/result_store.go:173-214 | over every run no document is changed or withdrawn and a child's winner stays its winner |
| `CommitProtocol.AtMostOneWinner` | internal/agent/runtime.go:1159-1183 | with any number of racing agents, one attempt at most creates a child's terminal document, and the stored document is its result but for the time of the commit call |
| `CommitProtocol.TerminalExactlyForWinners` | internal/agent/runtime.go:1159-1183 | unless its own commit call failed, an attempt returns a terminal result exactly when it found a document or its own won; a loser returns the non-terminal record, and when it reports the lost race that record is stored |
| `CommitProtocol.ReturnedTerminalIsStored` | internal/agent/runtime.go:1022-1040 | every terminal result returned, unless the attempt's own commit call failed, stands for a stored terminal document of a success or a guest failure; a returned success is that document but for the time of the commit call |
| `CommitProtocol.CommitUnstoredIff` | internal/agent/runtime.go:1159-1163 | a commit call leaves its attempt returned as terminal with nothing stored exactly when it fails before writing and nobody else has committed the child |
| `CommitProtocol.WinnerEqualsDocumentIff` | internal/agent/runtime.go:1159-1162 | the winner's record is the stored document exactly when the commit call took the time the offered record already held; otherwise they differ in that field alone |
| `CommitProtocol.LoserRecordedIff` | internal/agent/runtime.go:1164-1183 | the loser's record reaches the store exactly when its child and attempt number have no record yet |
| `Races.LoserRefused` | internal/agent/runtime.go:1164-1183 | a concrete execution of two agents in which the loser's record is refused because the winner's is in its place |
| `ShardPool.ShapeOfLease` | internal/fleet/coordinator.go:21-30 | a valid lease's workers are as many as its children or as the run's limit per agent, whichever is less, and at least one |
| `ShardPool.StepInv` | internal/agent/runtime.go:963-1002 | no step hands a child out twice or replaces a recorded result |
| `ShardPool.ScheduleSafety` | internal/agent/runtime.go:963-1002 | in every schedule children are handed out in order, each to one worker, at most `workers` run at once, and each result is at index child minus start |
| `ShardPool.ReturnedResults` | internal/agent/runtime.go:984-1002 | once returned no worker is running; uncancelled, every child has its result; cancelled, exactly a prefix of the lease does |
| `ShardPool.WorkersCanFinish` | internal/agent/runtime.go:966-990 | in every reachable pool each working goroutine can store its result: its index is within the slice |
| `ShardPool.NeverStuck` | internal/agent/runtime.go:963-1002 | until the call has returned, any idle worker can take the next child, every working one can finish, and with none working the call goes on |
| `Slots.AdmitMeansCapacity` | internal/agent/runtime.go:286-331 | admission happens exactly when the count is free on a safe agent and takes that count; each of the four refusals means exactly one thing |
| `Slots.SlotLimiter.TryAcquireSlots` | internal/agent/runtime.go:185-206 | slots are taken exactly when they are free, and come back as a reservation |
| `Slots.SlotLimiter.AdmitShard` | internal/agent/runtime.go:286-302 | the refusal or the reservation that admission calls for, and the slots afterwards |
| `Slots.Reservation.Release` | internal/agent/runtime.go:195-205 | the first call gives the slots back, later calls change nothing |
| `Slots.ReleaseTwice` | internal/agent/runtime.go:195-205 | releasing twice gives back once |
| `Slots.SandboxTable.ReserveSandbox` | internal/agent/interactive.go:459-467 | a free name becomes busy; a taken one is refused and kept |
| `Slots.SandboxRoundTrip` | internal/agent/interactive.go:459-506 | a name reserved and activated hands its stored release to exactly one removal; meanwhile a second removal and a second creation find it taken, and clearing it restores the table |
| `Slots.SandboxTable.SandboxRelease` | internal/agent/interactive.go:494-506 | an active entry is taken and marked busy; a busy one is refused; an absent one is untracked |
| `Slots.Sandboxes.CreateSandbox` | internal/agent/interactive.go:190-248 | which reply each course of a creation has; a created sandbox, or one whose cleanup failed, holds its name and one slot, and every other course leaves slots and table as they were |
| `Slots.Sandboxes.RemoveSandbox` | internal/agent/interactive.go:261-283 | which reply each removal has; a successful one of an active sandbox gives back name and slot, every other leaves both |
| `Lifecycle.StepInv` | internal/agent/interactive.go:190-283 | every step of every operation keeps: reservations, owners, table entries and operations name each other, and used slots are the sum of the unreleased reservations |
| `Lifecycle.GuestsNeverExceedSlots` | internal/agent/runtime.go:942-1002 | in every interleaving, used slots are exactly the unreleased reservations, and guests that may be alive, every existing named VM among them, never exceed used slots, nor used slots the total |
| `Lifecycle.GuestsHaveDistinctSlots` | internal/agent/interactive.go:140-248 | distinct guests are paid for by distinct units of unreleased reservations |
| `Lifecycle.GuestIsPaidFor` | internal/agent/interactive.go:190-283 | every guest that may be alive is paid for by a unit of a reservation its holder owns |
| `Lifecycle.LiveVMOwnsSlot` | internal/agent/interactive.go:190-283 | a named VM that exists has a table entry whose holder owns an unreleased slot, after failed restores and removals too |
| `Lifecycle.QuiescentSlots` | internal/agent/interactive.go:459-517 | with no operation in flight, available slots are the total less one per table entry, and every entry is active |
| `Lifecycle.NothingHangs` | internal/agent/interactive.go:190-283 | in every interleaving each operation in flight can take its next step, with whatever answer |
| `Lifecycle.FewerLeft` | internal/agent/runtime.go:942-1002 | every step of an operation's own, but for the stop of its VM, leaves it fewer steps, so that it ends |
| `Lifecycle.HeldExactly` | internal/agent/runtime.go:949-961 | an operation in flight holds one slot, or one for each worker of its shard, until it releases them; an active sandbox holds one |
| `Lifecycle.CreateIsARun` | internal/agent/interactive.go:190-248 | a creation that nothing interrupts, step by step along each of its courses, is a run of the system, with the slots, the table and the reply of `CreateSandbox` |
| `Lifecycle.RemoveIsARun` | internal/agent/interactive.go:261-283 | so is a removal |
| `Lifecycle.HaveVMsUnlessLost` | internal/agent/interactive.go:231-283 | a step keeps "every active sandbox has its VM" exactly unless an untracked removal destroys an active one's or a sandbox without a VM is activated; counting also those about to become active, exactly unless an untracked removal destroys one of theirs or an errored RemoveVM leaves its sandbox without one |
| `Lifecycle.SandboxesHaveVMs` | internal/agent/interactive.go:190-283 | over whole runs each of the two holds at every point exactly when no step is such |
| `Lifecycle.UntrackedRemovalWastesSlot` | internal/agent/interactive.go:261-283 | a concrete run in which a removal that found no entry destroys the VM of a sandbox created meanwhile: its entry keeps the only slot, and nothing is in flight |
| `Lifecycle.FailedRestoreWastesSlot` | internal/agent/interactive.go:508-517 | a concrete run in which a restore fails without a VM, its RemoveVM errors, and the entry keeps the only slot |
| `Lifecycle.ErroredRemovalWastesSlot` | internal/agent/interactive.go:261-272 | a concrete run in which a tracked removal destroys the VM, RemoveVM errors, and the entry keeps the only slot |
| `PrepareGate.PrepareOps.Enter` | internal/agent/runtime.go:647-656 | the run's gate is found or created with its token, and gains a reference |
| `PrepareGate.PrepareOps.ReleasePrepareOperationRef` | internal/agent/runtime.go:673-680 | a gate loses a reference and leaves the map with its last one, unless another has its place |
| `PrepareGate.StepInv` | internal/agent/runtime.go:647-680 | arriving, receiving, abandoning, unlocking and leaving keep token, holder, references and map in agreement |
| `PrepareGate.MutualExclusion` | internal/agent/runtime.go:647-680 | in every interleaving at most one operation holds the gate of a run id, although gates are deleted and made anew |
| `PrepareGate.GateAccounts` | internal/agent/runtime.go:647-680 | token and holder are always one, references are the operations in flight, a gate is in the map exactly while there are some, and the map is empty when there are none |
| `PrepareGate.NeverStuck` | internal/agent/runtime.go:658-671 | unlocking never blocks, and a waiter can proceed exactly when nobody holds its gate |
| `CleanupLedger.PreparedChildDirIff` | internal/agent/runtime.go:895-898 | the accepted child directory names are exactly the six-digit forms of 64-bit numbers |
| `CleanupLedger.ValidateCleanupLedgerPaths` | internal/agent/runtime.go:769-789 | the loop accepts exactly: children in strictly increasing order, then at most the parent |
| `CleanupLedger.BuildCleanupLedger` | internal/agent/runtime.go:714-735 | the loop over the listing builds the specified ledger |
| `CleanupLedger.ChildPathsMembers` | internal/agent/runtime.go:720-729 | a child path is in the ledger exactly when its directory is in the listing |
| `CleanupLedger.LedgerValid` | internal/agent/runtime.go:714-740 | while every child name has six digits, the ledger built from the lexicographic listing passes the validator |
| `CleanupLedger.SuffixValid` | internal/agent/runtime.go:624-627 | whatever the release loop persists, every suffix of a valid ledger, is accepted again |
| `CleanupLedger.ForkedLedgerValidIff` | internal/agent/runtime.go:714-740 | the ledger of a run forked into n children passes the validator exactly when n is at most a million |
| `CleanupCrash.NothingDeletedUnreleased` | internal/agent/runtime.go:573-633 | through any crashes, errors and restarts, a root is deleted, or captured into, only when SporeVM has confirmed the removal of every spore in it |
| `CleanupCrash.NothingForgotten` | internal/agent/runtime.go:682-740 | every restart still knows every unreleased spore: from the ledger, else the complete temporary ledger, else the directories |
| `CleanupCrash.ChildrenBeforeParent` | internal/agent/runtime.go:603-628 | the parent's removal is asked for only when no child is left unreleased |
| `CleanupCrash.LedgerOnlyShrinks` | internal/agent/runtime.go:742-767 | a ledger on disk is replaced only by itself without its first, confirmed entry, or deleted when nothing is unreleased |
| `CleanupCrash.ResumesIff` | internal/agent/runtime.go:682-740 | for child ids below a million, a release resumes after any history exactly unless the first ledger was cut short |
| `CleanupCrash.WedgedForever` | internal/agent/runtime.go:703-719 | in that case nothing later changes the root or its spores |
| `CleanupCrash.WedgeReachable` | internal/agent/runtime.go:742-767 | a concrete run into that case |
| `CleanupCrash.RemovesIff` | internal/agent/runtime.go:872-893 | a removal succeeds exactly when SporeVM confirms after answers only that the spore is in use, before cancellation |
| `CleanupCrash.RemovePreparedSpore` | internal/agent/runtime.go:872-888 | the retry loop decides exactly that |
| `CleanupCrash.PreparedRoot.WriteCleanupLedger` | internal/agent/runtime.go:742-767 | the root after a write that gets as far as it does: ledger, temporary file, both or neither |
| `CleanupCrash.UndisturbedReleaseIff` | internal/agent/runtime.go:573-633 | for child ids below a million: whatever crashes and errors have left, a release that nothing disturbs succeeds exactly unless the first ledger was cut short; directories that are already gone are no obstacle |
| `CleanupCrash.ReleaseAfter` | internal/agent/runtime.go:573-633 | the methods on such a root: the release decides exactly that, and success means that the root is gone and every spore was removed through SporeVM, children counted |
| `CleanupCrash.PreparedRoot.LoadOrCreateCleanupLedger` | internal/agent/runtime.go:682-740 | the pending paths come from the ledger, else from a complete temporary ledger put in its place, else from the directories; a torn or invalid one, a strange tree or a failed file step is an error |
| `CleanupCrash.PreparedRoot.ReleasePreparedRun` | internal/agent/runtime.go:573-633 | succeeds exactly when there is no root, or loading, every removal, every write and the deletion do; what it leaves, the transition system reaches |
| `CleanupCrash.PreparedRoot.ReleasePrepared` | internal/agent/runtime.go:600-633 | the loop succeeds exactly when every path is there or gone, each removal is confirmed in time, and every write and the deletion are complete; the ledger on disk is what was left before or after the last confirmed removal |
| `Templates.SortCorrect` | internal/agent/template_reconcile.go:104-109 | sorting puts the candidates newest first, ties by name, and loses none |
| `Templates.PositionIsRank` | internal/agent/template_reconcile.go:104-114 | a candidate's position is the number of candidates newer than it |
| `Templates.ExactlyRetained` | internal/agent/template_reconcile.go:110-119 | `retain` candidates are kept when there are that many, each newer than every candidate not kept |
| `Templates.PassMeaning` | internal/agent/template_reconcile.go:59-147 | after every pass, from the stored keys themselves: no unleased template of another version, digest, host class or backend remains, unless its removal failed; leased templates and the latest eligible ones stay untouched; with the host's identity unknown none goes as foreign |
| `Templates.QuotaMeaning` | internal/agent/template_reconcile.go:104-121 | the quota is filled with the latest of the templates that agree with the host, and these are all there after the pass |
| `TemplateCache.EveryTemplateCounted` | internal/agent/template_reconcile.go:15-19 | removed, retained and not-removed templates add up to the hash-named entries |
| `TemplateCache.CountsMeaning` | internal/agent/template_reconcile.go:15-19 | the counters are the numbers of builds gone, templates gone, templates kept on purpose, and of both that stayed because their removal failed |
| `TemplateCache.Cache.EnsureBootTemplate` | internal/agent/interactive.go:285-351 | a template with a manifest is handed out as it is; else a complete one of exactly the key asked for takes its place, or there is none and no lease; no other entry changes, and a lease adds one use |
| `TemplateCache.Cache.ReleaseLease` | internal/agent/interactive.go:354-367 | a released lease lowers its count, which is deleted at zero |
| `TemplateCache.Cache.RemoveEntry` | internal/agent/template_reconcile.go:140-147 | an entry goes, or stays as the failed removal left it |
| `TemplateCache.Cache.ReconcileBootTemplates` | internal/agent/template_reconcile.go:31-124 | the two loops leave every entry as `PassMeaning` states it, and count as `CountsMeaning` does |
| `TemplateLeases.StepInv` | internal/agent/interactive.go:285-379 | ensures, releases, passes, leftover builds and restarts keep: use counts are outstanding leases, every lease is served, every entry is labelled with its own key |
| `TemplateLeases.EnsureServes` | internal/agent/interactive.go:294-350 | a hit or a build hands out a template captured under exactly the key asked for |
| `TemplateLeases.LeasedUntouched` | internal/agent/template_reconcile.go:59-121 | no step deletes, rebuilds or relabels the template of a held lease |
| `TemplateLeases.LeasesAreServed` | internal/agent/interactive.go:285-379 | over every run the use count of a template is its outstanding leases, and each lease's template is complete and of its key |
| `TemplateLeases.LeaseIsStable` | internal/agent/interactive.go:354-367 | from taking a lease to releasing it, the template behind it stays the same entry |
| `CacheGC.NoRemovalIsLost` | internal/agent/runtime.go:261-278 | in every interleaving each recorded removal is covered by the flag, or by a collection that took the flag after it and is in flight or succeeded |
| `CacheGC.FirstCoveredUnlessDropped` | internal/agent/runtime.go:266-272 | a step keeps the first collection covered exactly unless an owning agent without a client takes the flag |
| `CacheGC.FirstCollectionIff` | internal/agent/runtime.go:261-278 | after any run the flag, or a collection in flight or succeeded, stands for the first collection exactly unless the agent owns the cache, has no client, and a collection was asked for |
| `CacheGC.CollectsOnlyWhenWanted` | internal/agent/runtime.go:261-278 | with collections one at a time, the flag is set only if a removal was recorded since the last success or none has succeeded |
| `CacheGC.ReasonKeptUnless` | internal/agent/runtime.go:266-278 | with overlap too, the flag gets set without a reason exactly when a failed call settles although nothing was removed since another's success, or one succeeds under a set flag although nothing was removed since it took it |
| `CacheGC.OverlapCollectsAgain` | internal/agent/runtime.go:261-278 | a concrete run in which overlapping collections set the flag for nothing new |
| `CacheGC.PassIsARun` | internal/agent/runtime.go:266-278 | a collection that nothing interrupts is four steps of the transition system, and reports SporeVM's answer |
| `CacheGC.IdlePassIsASwap` | internal/agent/runtime.go:266-272 | without anything pending, or without a client, it is the one step of taking the flag, and reports which |
| `CacheGC.Flag.CollectCache` | internal/agent/runtime.go:266-278 | the flag afterwards and the reply, for every setting and answer |
| `CacheGC.Flag.RemoveSavedSpore` | internal/agent/runtime.go:864-870 | a confirmed removal sets the flag, a refused one leaves it |
| `Planner.CandidateAgents` | internal/fleet/coordinator.go:79-114 | one invalid agent refuses the plan; otherwise the candidates are the compatible agents with a free slot, in order of id; the summary counts all agents, or those before the first invalid one |
| `Planner.TotalsSorted` | internal/fleet/coordinator.go:83-104 | the counts do not depend on the order of the agents |
| `Planner.TotalsMeaning` | internal/fleet/coordinator.go:83-104 | the counters are the healthy agents, those that match the run, and the slots that these offer it |
| `Planner.FirstCandidateWithCapacity` | internal/fleet/coordinator.go:116-123 | the first candidate with enough capacity, if there is one |
| `Planner.BestCandidateCapacity` | internal/fleet/coordinator.go:125-133 | the largest capacity, or zero |
| `Planner.BuildSingleAgentSequentialPlan` | internal/fleet/coordinator.go:36-77 | which of the five outcomes admission has, the qualifying agent of smallest id, and the lease over the whole run |
| `Planner.AdmittedIff` | internal/fleet/coordinator.go:36-77 | a run is admitted exactly when everything validates and some agent is healthy, under no critical pressure, of the run's host class and has slots for all children or for the run's limit per agent; the one of smallest id gets the whole range with the run's attempts per child; a refusal says what is needed and the best on offer |
| `Planner.SelectPrepareEndpoint` | cmd/spore-coordinator/main.go:569-594 | the first usable agent with the capacity, or the exact refusal with the best capacity on offer |
| `Planner.SelectedMeaning` | cmd/spore-coordinator/main.go:569-594 | that agent is the first healthy one under no critical pressure with slots for all children or for the limit; the refusals in the same terms |
| `Planner.NeverRefusedLater` | cmd/spore-coordinator/main.go:488-594 | a source run that selects an agent and compiles passes local inspection and planning, with its children's command, its full range and its attempts per child leased to that agent within the slots on offer; the lease validates exactly for run ids up to 117 characters |
| `RuntimeStates.RuntimeState.RecordResults` | internal/fleet/runtime.go:239-259 | the loop records every result into the specified state |
| `RuntimeStates.RecordedOutcome` | internal/fleet/runtime.go:239-259 | what is known of a child: the last real outcome reported; with skips only, what was known, or else the first skip |
| `RuntimeStates.RecordedCounts` | internal/fleet/runtime.go:239-259 | the three counters count the results with an attempt id, and of these the mismatches and the non-terminal failures, each once |
| `RuntimeStates.RuntimeState.RecordExistingTerminal` | internal/fleet/runtime.go:229-237 | a document read is recorded only for a child not yet known |
| `RuntimeStates.RuntimeState.LeaseHasPendingChildren` | internal/fleet/runtime.go:185-202 | the loop is the specified scan |
| `RuntimeStates.ScanMeaning` | internal/fleet/runtime.go:185-202 | nothing known is lost, what is new was read, the scan says "nothing pending" exactly when every child is known, and fails exactly when the read of an unknown child does |
| `RuntimeStates.RuntimeState.Summary` | internal/fleet/runtime.go:261-291 | the loop over the known results yields their number by status, and "succeeded" exactly without error, failure, mismatch or missing child |
| `RetryLoop.RunLease` | internal/fleet/runtime.go:133-174 | the loop over the state is the specified loop, and logs its executor calls |
| `RetryLoop.LeaseCalls` | internal/fleet/runtime.go:133-174 | the executor gets attempts 1, 2, ... within the budget, each only while some leased child is unknown and absent from the store, and none after a platform mismatch |
| `RetryLoop.LeaseOutcome` | internal/fleet/runtime.go:133-174 | the loop ends without error only when every leased child is known, and gives up only after the whole budget with one unknown |
| `RetryLoop.LeaseEnds` | internal/fleet/runtime.go:133-174 | the loop goes on, after a failed call too, to the first attempt that does not call for another or to the last of the budget; what each of its endings means for that attempt, exactly, and how many calls were made |
| `RetryLoop.CancelledIff` | internal/fleet/runtime.go:138-141 | the loop ends as cancelled exactly when it gets to an attempt of the budget before which it was cancelled; from a cancelled attempt on no call is made |
| `RetryLoop.WholeBudgetIsUsed` | internal/fleet/runtime.go:138-173 | without cancellation, read failure or mismatch, and with a leased child unknown after each attempt, all attempts of the budget are made, whatever errors they return |
| `RetryLoop.LeaseExplained` | internal/fleet/runtime.go:185-259 | known children are never forgotten, a skip never overwrites, and everything new was read for a leased child or reported by a call |
| `RetryLoop.LeaseCounts` | internal/fleet/runtime.go:239-259 | the counters at the end count the results of all calls |
| `RetryLoop.ReportedIsKnown` | internal/fleet/runtime.go:239-259 | every terminal result a call reported is known at the end |
| `Coordinator.Coordinator.Run` | internal/fleet/runtime.go:89-117 | which of the outcomes a run has, with the plan, the loop and the summary behind its report |
| `Coordinator.RunOutcomeIff` | internal/fleet/runtime.go:89-117 | a run is refused for its contract, the failed inspection or the bundle's digest, size or host class, in this order and exactly then; after planning the error is that of the loop, or a missing executor |
| `Coordinator.SucceededReport` | internal/fleet/runtime.go:261-291 | a "succeeded" report knows exactly the children of the run, and completed = succeeded + failed + skipped = the child count, with no failure |
| `ShardReplies.CountedComesFromAttempt` | internal/agent/runtime.go:963-1002 | a counted result at index i of a call's reply is what an attempt of the i-th child, under the call's attempt number, has returned |
| `ShardReplies.CountedOnce` | internal/fleet/runtime.go:239-259 | no attempt is counted twice: counted results at different places, of one call or of two, have different attempt ids |
| `ShardReplies.LocalWithoutError` | internal/agent/runtime.go:963-1002 | a reply of the agent itself without an error holds every child of the lease, each from an attempt without an error |
| `ShardReplies.LocalFailsIff` | internal/agent/runtime.go:963-1002 | a call on the agent itself is without error exactly when every child of the lease was attempted, by an attempt that returned none |
| `ShardReplies.RemoteDeliversIff` | internal/agenthttp/client.go:115-126 | over HTTP the results arrive, without the call's error, exactly when every child was attempted and every attempt could read the store; otherwise none arrives |
| `EndToEnd.SucceededMeansStored` | internal/fleet/runtime.go:89-117 | with one shared store and no reported terminal result from a failed commit call, a "succeeded" report means every child of the run has a terminal document, and each counted success is that document but for the time of the commit call |
| `EndToEnd.SucceededOverShards` | internal/fleet/runtime.go:133-174 | the same for the coordinator, the workers of RunShard and the racing attempts together: each call is answered by a run of RunShard over the store, and each answer came without an error from the agent itself or holds no failed commit |
| `EndToEnd.SucceededWithoutSkips` | internal/fleet/runtime.go:239-291 | if besides no child was skipped, every stored document is a success |
| `EndToEnd.ErroredCommitReportsSuccess` | internal/agent/runtime.go:1159-1163 | a concrete execution over one store, with the coordinator's run on it, that ends in a "succeeded" report without the document; its one call is a run of RunShard answered over HTTP without an error |
| `EndToEnd.SkipHidesFailure` | internal/fleet/runtime.go:239-291 | a concrete execution with clean reports that ends in a "succeeded" report while the stored document is a failure |
| `Percentile.OffsetRoundsUp` | internal/fleet/runtime.go:345-357 | over exact rationals, adding 0.999999999 and truncating is the nearest-rank ceiling for every number of hundredths |
| `Percentile.PercentileMeaning` | internal/fleet/runtime.go:332-357 | p50, p95 and p99 are values of the sample with at least their fraction of it at or below them, and less strictly below; all are 0 for an empty sample |
| `Percentile.PercentilesOrdered` | internal/fleet/runtime.go:332-343 | p50 <= p95 <= p99 |

## Left out

- HTTP servers and clients, JSON encoding and decoding, flags, environment and metrics: plumbing around the calls
  that appear here as parameters. Of the RunShard endpoint, what its server and client make of results and errors is
  modelled (`ShardReplies`).
- The `spore` subprocess, its signals and its pipes; the model begins at the decoded stream and the exit status.
- SHA-256, base64 and version probing: template names come from a function that is free of collisions on the keys a
  run asks for, and output payloads are the decoded bytes or a refusal.
- Symbolic links, inode and ctime comparison, and paths outside the work root.
- Power loss below a completed fsync: a finished file step is taken to be durable.
- A VM that appears only after the RemoveVM that follows a failed restore has returned, and a VM that stops by itself:
  a VM starts while its restore or that RemoveVM is in flight, and stops while some RemoveVM of its name is. A RemoveVM
  that reports success for a name held in the table is taken to mean that its VM is gone.
- A guest that survives a RunFrom, Resume or RunCapture call which has returned: the return of the call, with an error
  too, is taken to mean that its guest is gone. Only a failed RestoreNamed may leave a VM.
- An interrupted Fork that leaves names other than numbered directories and `shared-chunks` under `children`: such a
  name makes every later release refuse the tree, which `CleanupCrash.ResumesIff` does not cover.
- Guests and spore processes that outlive a crashed agent: `Lifecycle` is one process, and `CleanupCrash` follows the
  saved spores only.
- Liveness: the "saved spore in use" retry ends only by an answer or by cancellation, after a number of waits that is a
  parameter. What is proved is safety and that the ledger only shrinks.
- Error texts are abbreviated; codes, and whether a message is empty, are kept. The timing fields are any
  non-negative numbers, with the commit call's own time set where the source sets it, and the child-ready time derived
  from them is not modelled.
- The output byte counts and the summary counters are unbounded integers, not `int64`.
- Percentile: floating-point rounding; the claim is over exact rationals.
- Agents with equal ids may be taken in any order by the planner's sort; the model's order among them is one such.
- TemplateCache.Cache.EnsureBootTemplate: the build is one step with its possible endings, because it happens under
  the lock. A build directory left behind is the separate `LeaveBuild` step of `TemplateLeases`.
- Lifecycle: templates are an outcome of one step there; their leases are followed in `TemplateLeases`.
- RetryLoop.LeaseOutcome: is stated from an attempt within the budget. With a budget below one, which no planned lease
  has, the loop returns at once without error.
