/** Preparing and releasing a run's saved spores on disk, one file step at a time, with a crash or an error
    return possible between any two steps and any number of restarts. The prepare gate serialises the
    operations of one run, so there is one process at a time. */
module CleanupCrash {
  import opened Text
  import opened CleanupLedger

  /** The temporary ledger: absent, cut short, or complete. */
  datatype Temp = NoTemp | Torn | Whole(pending: seq<string>)

  /** The prepare root: child directory names, the parent directory, the ledger and its temporary file. */
  datatype Disk = Disk(root: bool, children: set<string>, parent: bool, ledger: Option<seq<string>>, temp: Temp)

  const EMPTY: Disk := Disk(true, {}, false, None, NoTemp)

  datatype Process =
    | Idle
    | Loading(prepare: bool)                         // a release; of a preparation when `prepare`
    | Writing(pending: seq<string>, prepare: bool)   // about to open the temporary file
    | Filling(pending: seq<string>, prepare: bool)
    | Renaming(pending: seq<string>, prepare: bool)
    | Looping(pending: seq<string>, prepare: bool)
    | Deleting(prepare: bool)                        // os.RemoveAll
    | MakingRoot
    | Capturing
    | Forking

  /** `unreleased` holds the paths of the spores that exist and whose removal SporeVM has not confirmed; no step
      reads it. */
  datatype State = State(disk: Disk, unreleased: set<string>, process: Process)

  datatype Event =
    | Start(prepare: bool)
    | LoadLedger
    | LoadTemp
    | Build(listing: seq<string>)
    | OpenTemp
    | FillTemp
    | RenameTemp
    | Confirm(gone: bool)    // SporeVM confirms the removal of the first pending spore
    | Refuse(gone: bool)     // it reports an error, whether or not the directory went
    | BeginDelete
    | DeleteChild(name: string)
    | DeleteParent
    | DeleteLedger
    | DeleteTemp
    | DeleteRoot
    | MakeRoot
    | Capture                // RunCapture creates the parent spore
    | PartialCapture         // it ends early and leaves a directory that is no saved spore
    | ForkChild(id: nat)
    | MakeShared
    | Finish                 // the preparation is complete
    | Stop                   // an error return or a crash

  ghost predicate Listing(disk: Disk, listing: seq<string>) {
    ReadDirOrder(listing) && forall name :: name in listing <==> name in disk.children
  }

  /** `validatePreparedTree`'s condition on the children directory. */
  predicate TreeOk(disk: Disk) { forall name :: name in disk.children ==> name == SHARED || IsPreparedChildDir(name) }

  function Without(disk: Disk, path: string): Disk {
    if path == PARENT then disk.(parent := false)
    else disk.(children := disk.children - {TrimPrefix(path, CHILDREN)})
  }

  ghost predicate Enabled(s: State, e: Event) {
    match e
    case Start(_) => s.process.Idle?
    case LoadLedger => s.process.Loading? && TreeOk(s.disk) && s.disk.ledger.Some? && ValidLedger(s.disk.ledger.value)
    case LoadTemp => s.process.Loading? && TreeOk(s.disk) && s.disk.ledger.None? && s.disk.temp.Whole? &&
      ValidLedger(s.disk.temp.pending)
    case Build(listing) => s.process.Loading? && TreeOk(s.disk) && s.disk.ledger.None? && s.disk.temp.NoTemp? &&
      Listing(s.disk, listing)
    case OpenTemp => s.process.Writing?
    case FillTemp => s.process.Filling?
    case RenameTemp => s.process.Renaming?
    case Confirm(_) => s.process.Looping? && s.process.pending != []
    case Refuse(_) => s.process.Looping? && s.process.pending != []
    case BeginDelete => s.process.Looping? && s.process.pending == []
    case DeleteChild(name) => s.process.Deleting? && name in s.disk.children
    case DeleteParent => s.process.Deleting? && s.disk.parent
    case DeleteLedger => s.process.Deleting? && s.disk.ledger.Some?
    case DeleteTemp => s.process.Deleting? && !s.disk.temp.NoTemp?
    case DeleteRoot => s.process.Deleting? && s.disk == EMPTY
    case MakeRoot => s.process.MakingRoot?
    case Capture => s.process.Capturing?
    case PartialCapture => s.process.Capturing?
    case ForkChild(id) => s.process.Forking? && id <= MAX_INT64
    case MakeShared => s.process.Forking?
    case Finish => s.process.Forking?
    case Stop => !s.process.Idle?
  }

  function Step(s: State, e: Event): State
    requires Enabled(s, e)
  {
    match e
    case Start(prepare) =>
      s.(process := if s.disk.root then Loading(prepare) else if prepare then MakingRoot else Idle)
    case LoadLedger => s.(process := Looping(s.disk.ledger.value, s.process.prepare))
    case LoadTemp =>
      s.(disk := s.disk.(ledger := Some(s.disk.temp.pending), temp := NoTemp),
        process := Looping(s.disk.temp.pending, s.process.prepare))
    case Build(listing) => s.(process := Writing(Ledger(listing, s.disk.parent), s.process.prepare))
    case OpenTemp => s.(disk := s.disk.(temp := Torn), process := Filling(s.process.pending, s.process.prepare))
    case FillTemp => s.(disk := s.disk.(temp := Whole(s.process.pending)),
      process := Renaming(s.process.pending, s.process.prepare))
    case RenameTemp =>
      s.(disk := s.disk.(ledger := Some(s.process.pending), temp := NoTemp),
        process := Looping(s.process.pending, s.process.prepare))
    case Confirm(gone) =>
      State(if gone then Without(s.disk, s.process.pending[0]) else s.disk, s.unreleased - {s.process.pending[0]},
            Writing(s.process.pending[1..], s.process.prepare))
    case Refuse(gone) => s.(disk := if gone then Without(s.disk, s.process.pending[0]) else s.disk)
    case BeginDelete => s.(process := Deleting(s.process.prepare))
    case DeleteChild(name) => s.(disk := s.disk.(children := s.disk.children - {name}))
    case DeleteParent => s.(disk := s.disk.(parent := false))
    case DeleteLedger => s.(disk := s.disk.(ledger := None))
    case DeleteTemp => s.(disk := s.disk.(temp := NoTemp))
    case DeleteRoot => s.(disk := s.disk.(root := false), process := if s.process.prepare then MakingRoot else Idle)
    case MakeRoot => s.(disk := s.disk.(root := true), process := Capturing)
    case Capture => State(s.disk.(parent := true), s.unreleased + {PARENT}, Forking)
    case PartialCapture => s.(disk := s.disk.(parent := true), process := Idle)
    case ForkChild(id) => s.(disk := s.disk.(children := s.disk.children + {Pad(6, id)}),
      unreleased := s.unreleased + {ChildPath(id)})
    case MakeShared => s.(disk := s.disk.(children := s.disk.children + {SHARED}))
    case Finish => s.(process := Idle)
    case Stop => s.(process := Idle)
  }

  ghost predicate Init(s: State) { s == State(Disk(false, {}, false, None, NoTemp), {}, Idle) }

  // --- Invariant

  ghost predicate Covers(pending: seq<string>, spores: set<string>) { forall p :: p in spores ==> p in pending }

  /** The spores a fresh look at the directories would find. */
  ghost predicate Listed(disk: Disk, spores: set<string>) {
    forall p :: p in spores ==> if p == PARENT then disk.parent else ListedChildPath(disk, p)
  }

  ghost predicate ListedChildPath(disk: Disk, p: string) {
    exists id: nat :: id <= MAX_INT64 && p == ChildPath(id) && Pad(6, id) in disk.children
  }

  /** Whatever a restart would take for the pending spores includes every unreleased one. */
  ghost predicate Recoverable(s: State) {
    match s.disk.ledger
    case Some(l) => Covers(l, s.unreleased)
    case None =>
      match s.disk.temp
      case Whole(l) => Covers(l, s.unreleased)
      case _ => Listed(s.disk, s.unreleased)
  }

  ghost predicate Pending(s: State, l: seq<string>) { Covers(l, s.unreleased) && ParentLast(l) }

  /** A ledger about to replace another drops exactly its first entry, a confirmed one. */
  ghost predicate Shrinks(s: State, l: seq<string>) {
    s.disk.ledger.Some? ==>
      s.disk.ledger.value != [] && l == s.disk.ledger.value[1..] && s.disk.ledger.value[0] !in s.unreleased
  }

  ghost predicate ProcessOk(s: State) {
    match s.process
    case Idle => true
    case Loading(_) => true
    case Writing(l, _) => Pending(s, l) && Shrinks(s, l) && (s.disk.ledger.None? ==> s.disk.temp.NoTemp?)
    case Filling(l, _) => Pending(s, l) && Shrinks(s, l) && s.disk.temp.Torn?
    case Renaming(l, _) => Pending(s, l) && Shrinks(s, l) && s.disk.temp == Whole(l)
    case Looping(l, _) => Pending(s, l) && s.disk.ledger == Some(l)
    case Deleting(_) => s.unreleased == {}
    case MakingRoot => !s.disk.root
    case Capturing => s.disk == EMPTY && s.unreleased == {}
    case Forking => s.disk.ledger.None? && s.disk.temp.NoTemp?
  }

  ghost predicate Inv(s: State) {
    && Recoverable(s)
    && ProcessOk(s)
    && (!s.disk.root ==> s.disk == EMPTY.(root := false) && s.unreleased == {})
    && (s.disk.root || s.process.Idle? || s.process.MakingRoot?)
  }

  lemma BuildCovers(s: State, listing: seq<string>)
    requires Inv(s) && Enabled(s, Build(listing))
    ensures Pending(s, Ledger(listing, s.disk.parent))
  {
    LedgerParentLast(listing, s.disk.parent);
    forall p | p in s.unreleased ensures p in Ledger(listing, s.disk.parent) {
      if p != PARENT {
        var id: nat :| id <= MAX_INT64 && p == ChildPath(id) && Pad(6, id) in s.disk.children;
        ListedChild(listing, id);
      }
    }
  }

  lemma TailPending(s: State, l: seq<string>)
    requires Pending(s, l) && l != []
    ensures Covers(l[1..], s.unreleased - {l[0]}) && ParentLast(l[1..])
  {
    assert l == [l[0]] + l[1..];
    assert forall i :: 0 <= i < |l[1..]| ==> l[1..][i] == l[i + 1];
  }

  lemma ForkListed(s: State, id: nat)
    requires Inv(s) && Enabled(s, ForkChild(id))
    ensures Listed(Step(s, ForkChild(id)).disk, Step(s, ForkChild(id)).unreleased)
  {
    ParentIsNotChild(ChildPath(id));
  }

  lemma StepInv(s: State, e: Event)
    requires Inv(s) && Enabled(s, e)
    ensures Inv(Step(s, e))
  {
    match e
    case LoadLedger => LedgerIsParentLast(s.disk.ledger.value);
    case LoadTemp => LedgerIsParentLast(s.disk.temp.pending);
    case Build(listing) => BuildCovers(s, listing);
    case Confirm(gone) => TailPending(s, s.process.pending);
    case ForkChild(id) => ForkListed(s, id);
    case _ =>
  }

  lemma LedgerIsParentLast(l: seq<string>)
    requires ValidLedger(l)
    ensures ParentLast(l)
  {
  }

  ghost function RunAll(s: State, schedule: seq<Event>): Option<State> {
    if schedule == [] then Some(s)
    else
      var before, last := RunAll(s, schedule[..|schedule| - 1]), schedule[|schedule| - 1];
      if before.Some? && Enabled(before.value, last) then Some(Step(before.value, last)) else None
  }

  lemma {:induction false} InvFrom(s: State, schedule: seq<Event>)
    requires Inv(s)
    ensures RunAll(s, schedule).Some? ==> Inv(RunAll(s, schedule).value)
  {
    if schedule != [] {
      var n := |schedule| - 1;
      InvFrom(s, schedule[..n]);
      var before := RunAll(s, schedule[..n]);
      if before.Some? && Enabled(before.value, schedule[n]) { StepInv(before.value, schedule[n]); }
    }
  }

  lemma InvAlways(s: State, schedule: seq<Event>)
    requires Init(s)
    ensures RunAll(s, schedule).Some? ==> Inv(RunAll(s, schedule).value)
  {
    InvFrom(s, schedule);
  }

  /** Whatever crashes, errors and restarts have happened: the root is being deleted or is gone only when SporeVM
      has confirmed the removal of every spore in it, and a capture starts only on an empty root. */
  lemma NothingDeletedUnreleased(s: State, schedule: seq<Event>)
    requires Init(s) && RunAll(s, schedule).Some?
    ensures
      var t := RunAll(s, schedule).value;
      && (t.process.Deleting? || !t.disk.root ==> t.unreleased == {})
      && (t.process.Capturing? ==> t.disk == EMPTY && t.unreleased == {})
  {
    InvAlways(s, schedule);
  }

  /** Every restart still knows every unreleased spore: from the ledger, else the complete temporary ledger, else
      the directories. */
  lemma NothingForgotten(s: State, schedule: seq<Event>)
    requires Init(s) && RunAll(s, schedule).Some?
    ensures Recoverable(RunAll(s, schedule).value)
  {
    InvAlways(s, schedule);
  }

  /** The parent's removal is requested only when no child is left unreleased. */
  lemma ChildrenBeforeParent(s: State, schedule: seq<Event>, gone: bool)
    requires Init(s) && RunAll(s, schedule).Some? && Enabled(RunAll(s, schedule).value, Confirm(gone))
    requires RunAll(s, schedule).value.process.pending[0] == PARENT
    ensures RunAll(s, schedule).value.unreleased <= {PARENT}
  {
    InvAlways(s, schedule);
    var l := RunAll(s, schedule).value.process.pending;
    assert |l| == 1;
  }

  /** A ledger on disk is only ever replaced by itself without its first entry, and only once that entry is
      confirmed. */
  lemma LedgerOnlyShrinks(s: State, schedule: seq<Event>, e: Event)
    requires Init(s) && RunAll(s, schedule).Some? && Enabled(RunAll(s, schedule).value, e)
    requires RunAll(s, schedule).value.disk.ledger.Some?
    ensures
      var t, u := RunAll(s, schedule).value, Step(RunAll(s, schedule).value, e);
      u.disk.ledger == t.disk.ledger ||
      (u.disk.ledger.None? && t.unreleased == {}) ||
      (t.disk.ledger.value != [] && u.disk.ledger == Some(t.disk.ledger.value[1..]) &&
        t.disk.ledger.value[0] !in t.unreleased)
  {
    InvAlways(s, schedule);
  }

  // --- Which releases can be resumed

  ghost predicate SmallTree(disk: Disk) {
    forall name :: name in disk.children ==> name == SHARED || exists id: nat :: id < 1_000_000 && name == Pad(6, id)
  }

  /** Everything a restart could reload passes the validator. */
  ghost predicate Reloadable(s: State) {
    && SmallTree(s.disk)
    && (s.disk.ledger.Some? ==> ValidLedger(s.disk.ledger.value))
    && (s.disk.temp.Whole? ==> ValidLedger(s.disk.temp.pending))
    && (s.process.Writing? || s.process.Filling? || s.process.Renaming? || s.process.Looping? ==>
      ValidLedger(s.process.pending))
  }

  lemma BuildReloadable(disk: Disk, listing: seq<string>)
    requires SmallTree(disk) && Listing(disk, listing)
    ensures ValidLedger(Ledger(listing, disk.parent))
  {
    forall p | p in ChildPaths(listing) ensures SixDigits(p) {
      ChildPathsOrder(listing);
      ChildPathsMembers(listing, "");
      var name := p[|CHILDREN|..];
      assert p == CHILDREN + name;
      NotShared(name);
      var id: nat :| id < 1_000_000 && name == Pad(6, id);
      SixDigitsIff(id);
    }
    LedgerValid(listing, disk.parent);
  }

  lemma StepReloadable(s: State, e: Event)
    requires Reloadable(s) && Enabled(s, e) && (e.ForkChild? ==> e.id < 1_000_000)
    ensures Reloadable(Step(s, e))
  {
    match e
    case Build(listing) => BuildReloadable(s.disk, listing);
    case Confirm(_) => SuffixValid(s.process.pending, 1);
    case _ =>
  }

  lemma {:induction false} ReloadableAlways(s: State, schedule: seq<Event>)
    requires Init(s) && forall i :: 0 <= i < |schedule| && schedule[i].ForkChild? ==> schedule[i].id < 1_000_000
    ensures RunAll(s, schedule).Some? ==> Reloadable(RunAll(s, schedule).value)
  {
    if schedule != [] {
      var n := |schedule| - 1;
      ReloadableAlways(s, schedule[..n]);
      var before := RunAll(s, schedule[..n]);
      if before.Some? && Enabled(before.value, schedule[n]) { StepReloadable(before.value, schedule[n]); }
    }
  }

  ghost predicate Resumable(s: State) {
    Enabled(s, LoadLedger) || Enabled(s, LoadTemp) ||
    (s.disk.ledger.None? && s.disk.temp.NoTemp? && forall listing :: Listing(s.disk, listing) ==>
      Enabled(s, Build(listing)))
  }

  /** For child ids below a million, a release resumes after any history exactly unless a first ledger was cut
      short while being written. */
  lemma ResumesIff(s: State, schedule: seq<Event>)
    requires Init(s) && RunAll(s, schedule).Some? && RunAll(s, schedule).value.process.Loading?
    requires forall i :: 0 <= i < |schedule| && schedule[i].ForkChild? ==> schedule[i].id < 1_000_000
    ensures
      var t := RunAll(s, schedule).value;
      Resumable(t) <==> !(t.disk.ledger.None? && t.disk.temp.Torn?)
  {
    ReloadableAlways(s, schedule);
    SmallTreeOk(RunAll(s, schedule).value.disk);
    ReloadableResumes(RunAll(s, schedule).value);
  }

  lemma SmallTreeOk(disk: Disk)
    requires SmallTree(disk)
    ensures TreeOk(disk)
  {
    forall name | name in disk.children ensures name == SHARED || IsPreparedChildDir(name) {
      if name != SHARED {
        var id: nat :| id < 1_000_000 && name == Pad(6, id);
        AtoiPad(6, id);
      }
    }
  }

  lemma ReloadableResumes(t: State)
    requires Reloadable(t) && TreeOk(t.disk) && t.process.Loading?
    ensures Resumable(t) <==> !(t.disk.ledger.None? && t.disk.temp.Torn?)
  {
  }

  ghost predicate Wedged(s: State) {
    s.disk.root && s.disk.ledger.None? && s.disk.temp.Torn? && (s.process.Idle? || s.process.Loading?)
  }

  /** In that case no later release, preparation or restart ever changes the root: its spores stay. */
  lemma {:induction false} WedgedForever(s: State, schedule: seq<Event>)
    requires Wedged(s) && RunAll(s, schedule).Some?
    ensures Wedged(RunAll(s, schedule).value) && RunAll(s, schedule).value.disk == s.disk
    ensures RunAll(s, schedule).value.unreleased == s.unreleased
  {
    if schedule != [] {
      WedgedForever(s, schedule[..|schedule| - 1]);
    }
  }

  /** And it can happen: the first write of the ledger is interrupted. */
  lemma WedgeReachable() returns (schedule: seq<Event>, t: State)
    ensures Init(NOTHING) && RunAll(NOTHING, schedule) == Some(t) && Wedged(t) && t.unreleased == {PARENT}
  {
    schedule, t := CapturedThenStopped();
    Extend(NOTHING, schedule, t, Start(false));
    schedule, t := schedule + [Start(false)], Step(t, Start(false));
    Extend(NOTHING, schedule, t, Build([]));
    schedule, t := schedule + [Build([])], Step(t, Build([]));
    Extend(NOTHING, schedule, t, OpenTemp);
    schedule, t := schedule + [OpenTemp], Step(t, OpenTemp);
    Extend(NOTHING, schedule, t, Stop);
    schedule, t := schedule + [Stop], Step(t, Stop);
  }

  ghost const NOTHING: State := State(Disk(false, {}, false, None, NoTemp), {}, Idle)

  lemma CapturedThenStopped() returns (schedule: seq<Event>, t: State)
    ensures RunAll(NOTHING, schedule) == Some(t) && t == State(Disk(true, {}, true, None, NoTemp), {PARENT}, Idle)
  {
    schedule, t := [], NOTHING;
    Extend(NOTHING, schedule, t, Start(true));
    schedule, t := schedule + [Start(true)], Step(t, Start(true));
    Extend(NOTHING, schedule, t, MakeRoot);
    schedule, t := schedule + [MakeRoot], Step(t, MakeRoot);
    Extend(NOTHING, schedule, t, Capture);
    schedule, t := schedule + [Capture], Step(t, Capture);
    Extend(NOTHING, schedule, t, Stop);
    schedule, t := schedule + [Stop], Step(t, Stop);
  }

  lemma Extend(s: State, schedule: seq<Event>, t: State, e: Event)
    requires RunAll(s, schedule) == Some(t) && Enabled(t, e)
    ensures RunAll(s, schedule + [e]) == Some(Step(t, e))
  {
    assert (schedule + [e])[..|schedule|] == schedule;
  }

  // --- The release loop itself

  datatype SporeReply = Gone | InUse | Failed

  /** What the loop meets at one pending path: how it is looked up, what SporeVM answers each time it is asked, and
      after how many waits the call is cancelled. */
  datatype Answer = Answer(lookup: Lookup, replies: nat -> SporeReply, patience: nat)

  /** `os.Lstat` says what is on the disk, finds a file or a link in the directory's place, or fails. */
  datatype Lookup = AsOnDisk | OtherFile | LookupFails

  datatype Found = Directory | Missing | NotDirectory | Unavailable

  predicate OnDisk(disk: Disk, path: string) {
    if path == PARENT then disk.parent else TrimPrefix(path, CHILDREN) in disk.children
  }

  function Lstat(disk: Disk, path: string, lookup: Lookup): Found {
    match lookup
    case AsOnDisk => if OnDisk(disk, path) then Directory else Missing
    case OtherFile => NotDirectory
    case LookupFails => Unavailable
  }

  /** What comes of asking, from the given wait on. */
  predicate Removes(replies: nat -> SporeReply, patience: nat, waited: nat)
    decreases patience + 1 - waited
  {
    waited <= patience && match replies(waited)
                          case Gone => true
                          case Failed => false
                          case InUse => Removes(replies, patience, waited + 1)
  }

  /** SporeVM confirms, after answers only that the spore is in use, and before cancellation. */
  ghost predicate GoneInTime(replies: nat -> SporeReply, patience: nat, waited: nat) {
    exists k :: waited <= k <= patience && replies(k).Gone? && forall j :: waited <= j < k ==> replies(j).InUse?
  }

  lemma {:induction false} RemovesIff(replies: nat -> SporeReply, patience: nat, waited: nat)
    ensures Removes(replies, patience, waited) <==> GoneInTime(replies, patience, waited)
    decreases patience + 1 - waited
  {
    if waited <= patience && replies(waited).InUse? {
      RemovesIff(replies, patience, waited + 1);
      if GoneInTime(replies, patience, waited + 1) {
        var k :| waited + 1 <= k <= patience && replies(k).Gone? && forall j :: waited + 1 <= j < k ==>
          replies(j).InUse?;
        assert forall j :: waited <= j < k ==> replies(j).InUse?;
      }
    }
  }

  /** `removePreparedSpore`: ask again for as long as the spore is in use and the call is not cancelled. */
  method RemovePreparedSpore(replies: nat -> SporeReply, patience: nat) returns (ok: bool)
    ensures ok <==> GoneInTime(replies, patience, 0)
  {
    RemovesIff(replies, patience, 0);
    for waited := 0 to patience + 1
      invariant Removes(replies, patience, 0) <==> Removes(replies, patience, waited)
    {
      match replies(waited) {
        case Gone => return true;
        case Failed => return false;
        case InUse =>
      }
    }
    return false;
  }

  /** How far the write of a ledger gets. */
  datatype LedgerWrite = Written | NotOpened | NotFilled | NotRenamed | NotSynced

  function AfterLedgerWrite(disk: Disk, pending: seq<string>, w: LedgerWrite): Disk {
    match w
    case Written => disk.(ledger := Some(pending), temp := NoTemp)
    case NotSynced => disk.(ledger := Some(pending), temp := NoTemp)
    case NotOpened => disk
    case NotFilled => disk.(temp := Torn)
    case NotRenamed => disk.(temp := Whole(pending))
  }

  /** How far `os.RemoveAll` gets: everything goes, or these parts stay. */
  datatype Deletion = AllGone | Partly(children: set<string>, parent: bool, ledger: bool, temp: bool)

  function AfterDeletion(disk: Disk, d: Deletion): Disk {
    match d
    case AllGone => EMPTY.(root := false)
    case Partly(children, parent, ledger, temp) =>
      disk.(children := disk.children * children, parent := disk.parent && parent,
            ledger := if ledger then disk.ledger else None,
            temp := if temp then disk.temp else NoTemp)
  }

  predicate PartOf(left: Disk, disk: Disk) {
    && left.root && left.children <= disk.children && (left.parent ==> disk.parent)
    && (left.ledger == disk.ledger || left.ledger.None?) && (left.temp == disk.temp || left.temp.NoTemp?)
  }

  ghost predicate Leads(s: State, t: State) { exists schedule :: RunAll(s, schedule) == Some(t) }

  ghost function Reachable(s: State): iset<State> { iset t | Leads(s, t) }

  /** No step leads out of the set. */
  ghost predicate Closed(reach: iset<State>) { forall t, e :: t in reach && Enabled(t, e) ==> Step(t, e) in reach }

  type ClosedSet = reach: iset<State> | Closed(reach) ghost witness iset{}

  lemma ReachableIsClosed(s: State)
    ensures s in Reachable(s) && Closed(Reachable(s))
  {
    assert RunAll(s, []) == Some(s);
    forall t, e | t in Reachable(s) && Enabled(t, e) ensures Step(t, e) in Reachable(s) {
      var schedule :| RunAll(s, schedule) == Some(t);
      Extend(s, schedule, t, e);
    }
  }

  lemma WriteReached(reach: ClosedSet, t: State, w: LedgerWrite)
    requires t in reach && t.process.Writing?
    ensures
      var (l, p) := (t.process.pending, t.process.prepare);
      State(AfterLedgerWrite(t.disk, l, w), t.unreleased, if w.Written? then Looping(l, p) else Idle) in reach
  {
    var u := t;
    if !w.NotOpened? {
      assert Enabled(u, OpenTemp);
      u := Step(u, OpenTemp);
      if !w.NotFilled? {
        assert Enabled(u, FillTemp);
        u := Step(u, FillTemp);
        if !w.NotRenamed? {
          assert Enabled(u, RenameTemp);
          u := Step(u, RenameTemp);
        }
      }
    }
    if !w.Written? { assert Enabled(u, Stop); }
  }

  lemma {:induction false} DeleteReached(reach: ClosedSet, t: State, left: Disk)
    requires t in reach && t.process.Deleting? && t.disk.root && PartOf(left, t.disk)
    ensures t.(disk := left) in reach
    decreases t.disk.children
  {
    if name :| name in t.disk.children && name !in left.children {
      assert Enabled(t, DeleteChild(name));
      DeleteReached(reach, Step(t, DeleteChild(name)), left);
    } else {
      assert left.children == t.disk.children;
      var u := t;
      if u.disk.parent && !left.parent {
        assert Enabled(u, DeleteParent);
        u := Step(u, DeleteParent);
      }
      if u.disk.ledger.Some? && left.ledger.None? {
        assert Enabled(u, DeleteLedger);
        u := Step(u, DeleteLedger);
      }
      if !u.disk.temp.NoTemp? && left.temp.NoTemp? {
        assert Enabled(u, DeleteTemp);
        u := Step(u, DeleteTemp);
      }
      assert u == t.(disk := left);
    }
  }

  lemma DeletionReached(reach: ClosedSet, t: State, deletion: Deletion)
    requires t in reach && t.process == Looping([], false) && t.disk.root
    ensures State(AfterDeletion(t.disk, deletion), t.unreleased, Idle) in reach
  {
    assert Enabled(t, BeginDelete);
    var u := Step(t, BeginDelete);
    var left := if deletion.AllGone? then EMPTY else AfterDeletion(t.disk, deletion);
    DeleteReached(reach, u, left);
    var last := if deletion.AllGone? then DeleteRoot else Stop;
    assert Enabled(u.(disk := left), last);
  }

  /** A pending path is left alone, refused or confirmed. */
  lemma AnswerReached(reach: ClosedSet, t: State, asked: bool, confirmed: bool, gone: bool)
    requires t in reach && t.process.Looping? && t.process.pending != [] && (confirmed ==> asked)
    ensures
      var (l, p) := (t.process.pending, t.process.prepare);
      var disk := if asked && gone then Without(t.disk, l[0]) else t.disk;
      if confirmed then State(disk, t.unreleased - {l[0]}, Writing(l[1..], p)) in reach
      else State(disk, t.unreleased, Idle) in reach
  {
    if confirmed {
      assert Enabled(t, Confirm(gone));
    } else if asked {
      assert Enabled(t, Refuse(gone));
      assert Enabled(Step(t, Refuse(gone)), Stop);
    } else {
      assert Enabled(t, Stop);
    }
  }

  /** How one pass of the loop ends. */
  datatype Pass = Blocked | Unwritten | Continued

  /** The path is there or is gone already, SporeVM confirms in time, and the shorter ledger is written. */
  ghost predicate Passes(a: Answer, w: LedgerWrite) {
    a.lookup.AsOnDisk? && GoneInTime(a.replies, a.patience, 0) && w.Written?
  }

  /** How the files of an existing ledger can be read, and an interrupted one put in its place. */
  datatype LoadIO = NoError | ReadFails | RenameFails | SyncFails

  /** What one call of `releasePreparedRun` meets: the children it lists, how loading goes and a first ledger is
      written, and for the i-th pending path its answer, whether its directory is gone afterwards and how the shorter
      ledger is written; last, the deletion. */
  datatype Release = Release(listing: seq<string>, io: LoadIO, first: LedgerWrite, answers: nat -> Answer,
    gone: nat -> bool, writes: nat -> LedgerWrite, deletion: Deletion)

  /** The loop starts with these pending paths. */
  ghost predicate Loads(disk: Disk, r: Release, pending: seq<string>) {
    TreeOk(disk) && !r.io.ReadFails? &&
    match disk.ledger
    case Some(l) => ValidLedger(l) && pending == l
    case None =>
      match disk.temp
      case Torn => false
      case Whole(l) => ValidLedger(l) && pending == l && r.io.NoError?
      case NoTemp => pending == Ledger(r.listing, disk.parent) && r.first.Written?
  }

  ghost predicate AllPass(r: Release, pending: seq<string>) {
    r.deletion.AllGone? && forall i: nat :: i < |pending| ==> Passes(r.answers(i), r.writes(i))
  }

  /** The prepare root. `unreleased` is what the transition system tracks, and `released` logs the confirmed removals
      of one release in order; neither is read. */
  class PreparedRoot {
    var disk: Disk
    ghost var unreleased: set<string>
    ghost var released: seq<string>

    constructor (disk: Disk, ghost unreleased: set<string>)
      ensures this.disk == disk && this.unreleased == unreleased && released == []
    {
      this.disk := disk;
      this.unreleased := unreleased;
      released := [];
    }

    method WriteCleanupLedger(pending: seq<string>, w: LedgerWrite) returns (ok: bool)
      modifies `disk
      ensures ok <==> w.Written?
      ensures disk == AfterLedgerWrite(old(disk), pending, w)
    {
      if w.NotOpened? {
        return false;
      }
      disk := disk.(temp := Torn);
      if w.NotFilled? {
        return false;
      }
      disk := disk.(temp := Whole(pending));
      if w.NotRenamed? {
        return false;
      }
      disk := disk.(ledger := Some(pending), temp := NoTemp);
      return w.Written?;
    }

    /** `loadOrCreateCleanupLedger` */
    method LoadOrCreateCleanupLedger(ghost reach: ClosedSet, r: Release) returns (pending: Option<seq<string>>)
      requires disk.root && Listing(disk, r.listing) && State(disk, unreleased, Loading(false)) in reach
      modifies `disk
      ensures pending.Some? ==> Loads(old(disk), r, pending.value) && disk.root && disk.ledger == pending
      ensures pending.None? ==> forall l :: !Loads(old(disk), r, l)
      ensures
        State(disk, unreleased, if pending.Some? then Looping(pending.value, false) else Idle) in reach
    {
      ghost var s := State(disk, unreleased, Loading(false));
      assert Enabled(s, Stop);
      if !TreeOk(disk) || r.io.ReadFails? {
        return None;
      }
      if disk.ledger.Some? {
        var valid := ValidateCleanupLedgerPaths(disk.ledger.value);
        assert valid ==> Enabled(s, LoadLedger);
        return if valid then disk.ledger else None;
      }
      match disk.temp {
        case Torn => return None;
        case Whole(l) =>
          var valid := ValidateCleanupLedgerPaths(l);
          if !valid || r.io.RenameFails? {
            return None;
          }
          assert Enabled(s, LoadTemp);
          disk := disk.(ledger := Some(l), temp := NoTemp);
          assert Enabled(Step(s, LoadTemp), Stop);
          return if r.io.NoError? then Some(l) else None;
        case NoTemp =>
          var l := BuildCleanupLedger(r.listing, disk.parent);
          assert Enabled(s, Build(r.listing));
          WriteReached(reach, Step(s, Build(r.listing)), r.first);
          var wrote := WriteCleanupLedger(l, r.first);
          return if wrote then Some(l) else None;
      }
    }

    /** `releasePreparedRun` on a configured runner. */
    method ReleasePreparedRun(r: Release) returns (ok: bool, removedChildren: nat)
      requires released == [] && Listing(disk, r.listing)
      modifies this
      ensures ok <==> !old(disk).root || exists pending :: Loads(old(disk), r, pending) && AllPass(r, pending)
      ensures State(disk, unreleased, Idle) in Reachable(State(old(disk), old(unreleased), Idle))
      ensures ok ==> !disk.root
      ensures ok && old(disk).root ==> exists pending :: Loads(old(disk), r, pending) && released == pending
      ensures removedChildren == Children(released)
    {
      ghost var reach := Reachable(State(disk, unreleased, Idle));
      ReachableIsClosed(State(disk, unreleased, Idle));
      assert Enabled(State(disk, unreleased, Idle), Start(false));
      if !disk.root {
        return true, 0;
      }
      var pending := LoadOrCreateCleanupLedger(reach, r);
      if pending.None? {
        return false, 0;
      }
      ok, removedChildren := ReleasePrepared(reach, pending.value, r.answers, r.gone, r.writes, r.deletion);
    }

    /** One pass of the loop, over the first pending path. */
    method ReleaseNext(ghost reach: ClosedSet, pending: seq<string>, a: Answer, gone: bool, w: LedgerWrite)
        returns (r: Pass)
      requires pending != [] && disk.root && disk.ledger == Some(pending)
      requires State(disk, unreleased, Looping(pending, false)) in reach
      modifies this
      ensures r.Continued? <==> Passes(a, w)
      ensures State(disk, unreleased, if r.Continued? then Looping(pending[1..], false) else Idle) in reach
      ensures released == if r.Blocked? then old(released) else old(released) + [pending[0]]
      ensures r.Blocked? ==> disk.ledger == Some(pending)
      ensures r.Unwritten? ==> disk.ledger == Some(pending) || disk.ledger == Some(pending[1..])
      ensures r.Continued? ==> disk.ledger == Some(pending[1..]) && disk.root
    {
      var found := Lstat(disk, pending[0], a.lookup);
      if found.Unavailable? || found.NotDirectory? {
        AnswerReached(reach, State(disk, unreleased, Looping(pending, false)), false, false, gone);
        return Blocked;
      }
      var removed := RemovePreparedSpore(a.replies, a.patience);
      AnswerReached(reach, State(disk, unreleased, Looping(pending, false)), true, removed, gone);
      if gone {
        disk := Without(disk, pending[0]);
      }
      if !removed {
        return Blocked;
      }
      unreleased := unreleased - {pending[0]};
      released := released + [pending[0]];
      WriteReached(reach, State(disk, unreleased, Writing(pending[1..], false)), w);
      var wrote := WriteCleanupLedger(pending[1..], w);
      return if wrote then Continued else Unwritten;
    }

    /** The loop of `releasePreparedRun`, from its loaded ledger, and the deletion. */
    method ReleasePrepared(ghost reach: ClosedSet, loaded: seq<string>, answers: nat -> Answer, gone: nat -> bool,
        writes: nat -> LedgerWrite, deletion: Deletion) returns (ok: bool, removedChildren: nat)
      requires disk.root && disk.ledger == Some(loaded) && released == []
      requires State(disk, unreleased, Looping(loaded, false)) in reach
      modifies this
      ensures ok <==> deletion.AllGone? && forall i: nat :: i < |loaded| ==> Passes(answers(i), writes(i))
      ensures released <= loaded && removedChildren == Children(released)
      ensures State(disk, unreleased, Idle) in reach
      ensures ok ==> released == loaded && !disk.root
      ensures released != loaded ==>
        || disk.ledger == Some(loaded[|released|..])
        || (released != [] && disk.ledger == Some(loaded[|released| - 1..]))
    {
      var pending := loaded;
      removedChildren := 0;
      var i: nat := 0;
      while pending != []
        invariant i <= |loaded| && pending == loaded[i..] && released == loaded[..i]
        invariant disk.root && disk.ledger == Some(pending) && State(disk, unreleased, Looping(pending, false)) in reach
        invariant forall j: nat :: j < i ==> Passes(answers(j), writes(j))
        invariant removedChildren == Children(released)
        decreases |pending|
      {
        Slices(loaded, i);
        var rel := pending[0];
        var r := ReleaseNext(reach, pending, answers(i), gone(i), writes(i));
        if r.Blocked? {
          return false, removedChildren;
        }
        if HasPrefix(rel, CHILDREN) {
          removedChildren := removedChildren + 1;
        }
        if r.Unwritten? {
          return false, removedChildren;
        }
        pending := pending[1..];
        i := i + 1;
      }
      assert loaded[..|loaded|] == loaded;
      DeletionReached(reach, State(disk, unreleased, Looping(pending, false)), deletion);
      disk := AfterDeletion(disk, deletion);
      ok := deletion.AllGone?;
    }
  }

  // --- An undisturbed release succeeds

  /** Nothing that the call meets goes wrong: what is listed and looked up is what is on the disk, every read, write
      and deletion completes, and SporeVM confirms each removal, after answers that the spore is in use, in time. */
  ghost predicate Undisturbed(disk: Disk, r: Release) {
    && Listing(disk, r.listing) && r.io.NoError? && r.first.Written? && r.deletion.AllGone?
    && forall i: nat :: r.answers(i).lookup.AsOnDisk? && r.writes(i).Written? && ConfirmedAt(r.answers(i))
  }

  ghost predicate ConfirmedAt(a: Answer) {
    exists k :: 0 <= k <= a.patience && a.replies(k).Gone? && forall j :: 0 <= j < k ==> a.replies(j).InUse?
  }

  ghost predicate ReleaseSucceeds(disk: Disk, r: Release) {
    !disk.root || exists pending :: Loads(disk, r, pending) && AllPass(r, pending)
  }

  /** For child ids below a million: whatever crashes, errors and restarts have left, a release that nothing disturbs
      succeeds, exactly unless the first ledger was cut short. A directory that is gone already, because the agent
      stopped after SporeVM had removed it, is asked for again and is no obstacle. */
  lemma UndisturbedReleaseIff(s: State, schedule: seq<Event>, r: Release)
    requires Init(s) && RunAll(s, schedule).Some? && RunAll(s, schedule).value.process.Idle?
    requires forall i :: 0 <= i < |schedule| && schedule[i].ForkChild? ==> schedule[i].id < 1_000_000
    requires Undisturbed(RunAll(s, schedule).value.disk, r)
    ensures
      var disk := RunAll(s, schedule).value.disk;
      ReleaseSucceeds(disk, r) <==> !(disk.root && disk.ledger.None? && disk.temp.Torn?)
  {
    ReloadableAlways(s, schedule);
    InvAlways(s, schedule);
    var t := RunAll(s, schedule).value;
    SmallTreeOk(t.disk);
    UndisturbedLoads(t, r);
  }

  lemma UndisturbedLoads(t: State, r: Release)
    requires Reloadable(t) && TreeOk(t.disk) && Undisturbed(t.disk, r)
    ensures ReleaseSucceeds(t.disk, r) <==> !(t.disk.root && t.disk.ledger.None? && t.disk.temp.Torn?)
  {
    forall i: nat ensures Passes(r.answers(i), r.writes(i)) {
      assert ConfirmedAt(r.answers(i));
    }
    if t.disk.root && !(t.disk.ledger.None? && t.disk.temp.Torn?) {
      var pending := match t.disk.ledger
        case Some(l) => l
        case None => if t.disk.temp.Whole? then t.disk.temp.pending else Ledger(r.listing, t.disk.parent);
      assert Loads(t.disk, r, pending) && AllPass(r, pending);
    }
  }

  /** The methods on a root that a history has left: `ReleasePreparedRun` decides exactly this, and when it succeeds
      the root is gone with every spore in it removed through SporeVM. */
  method ReleaseAfter(ghost s: State, ghost schedule: seq<Event>, root: PreparedRoot, r: Release)
      returns (ok: bool, removedChildren: nat)
    requires Init(s) && RunAll(s, schedule).Some? && root.released == []
    requires RunAll(s, schedule).value == State(root.disk, root.unreleased, Idle)
    requires forall i :: 0 <= i < |schedule| && schedule[i].ForkChild? ==> schedule[i].id < 1_000_000
    requires Undisturbed(root.disk, r)
    modifies root
    ensures ok <==> !(old(root.disk).root && old(root.disk).ledger.None? && old(root.disk).temp.Torn?)
    ensures ok ==> !root.disk.root && root.unreleased == {}
    ensures ok && old(root.disk).root ==>
      ValidLedger(root.released) && removedChildren == |root.released| - if PARENT in root.released then 1 else 0
    ensures ok ==> forall p :: p in old(root.unreleased) ==> p in root.released
  {
    UndisturbedReleaseIff(s, schedule, r);
    InvAlways(s, schedule);
    ReloadableAlways(s, schedule);
    ghost var before := State(root.disk, root.unreleased, Idle);
    ok, removedChildren := root.ReleasePreparedRun(r);
    ReachableInv(before, State(root.disk, root.unreleased, Idle));
    if ok && before.disk.root {
      LoadedIsValid(before, r, root.released);
      ChildrenOfLedger(root.released);
    }
  }

  lemma ReachableInv(s: State, t: State)
    requires Inv(s) && t in Reachable(s)
    ensures Inv(t)
  {
    var schedule :| RunAll(s, schedule) == Some(t);
    InvFrom(s, schedule);
  }

  lemma LoadedIsValid(s: State, r: Release, pending: seq<string>)
    requires Inv(s) && Reloadable(s) && s.disk.root && Listing(s.disk, r.listing) && Loads(s.disk, r, pending)
    ensures ValidLedger(pending) && Covers(pending, s.unreleased)
  {
    if s.disk.ledger.None? && s.disk.temp.NoTemp? {
      BuildReloadable(s.disk, r.listing);
      BuildCovers(s.(process := Loading(false)), r.listing);
    }
  }

  function Children(paths: seq<string>): nat {
    if paths == [] then 0
    else Children(paths[..|paths| - 1]) + if HasPrefix(paths[|paths| - 1], CHILDREN) then 1 else 0
  }

  lemma Slices(loaded: seq<string>, i: nat)
    requires i < |loaded|
    ensures loaded[i..][0] == loaded[i] && loaded[i..][1..] == loaded[i + 1..]
    ensures loaded[..i] + [loaded[i]] == loaded[..i + 1]
    ensures Children(loaded[..i + 1]) == Children(loaded[..i]) + if HasPrefix(loaded[i], CHILDREN) then 1 else 0
  {
    assert loaded[..i + 1] == loaded[..i] + [loaded[i]];
    ChildrenStep(loaded[..i], loaded[i]);
  }

  /** In a valid ledger that is every path but the parent. */
  lemma ChildrenOfLedger(pending: seq<string>)
    requires ValidLedger(pending)
    ensures Children(pending) == |pending| - if PARENT in pending then 1 else 0
  {
    if pending != [] {
      var n := |pending| - 1;
      forall i | 0 <= i < n ensures HasPrefix(pending[i], CHILDREN) { assert pending[i] != PARENT; }
      ChildrenOnly(pending[..n]);
      if HasPrefix(pending[n], CHILDREN) { ParentIsNotChild(pending[n]); }
    }
  }

  lemma {:induction false} ChildrenOnly(paths: seq<string>)
    requires forall i :: 0 <= i < |paths| ==> HasPrefix(paths[i], CHILDREN)
    ensures Children(paths) == |paths|
  {
    if paths != [] { ChildrenOnly(paths[..|paths| - 1]); }
  }

  lemma ChildrenStep(paths: seq<string>, rel: string)
    ensures Children(paths + [rel]) == Children(paths) + if HasPrefix(rel, CHILDREN) then 1 else 0
  {
    assert (paths + [rel])[..|paths|] == paths;
  }
}
