/** Run, CreateSandbox, RemoveSandbox, RunChild and RunShard sharing one slot counter and one sandbox table.
    Every mutex-protected block is one step and so is the return of every client call, with any outcome;
    the steps of different operations interleave freely. */
module Lifecycle {
  import opened Text
  import opened Contracts
  import opened Collections
  import opened Slots
  import ShardPool

  /** `token` is the operation's reservation, named after the operation that acquired it. */
  datatype Op =
    | SoloBefore(token: nat)                       // admitted Run or RunChild
    | SoloGuest(token: nat)                        // its guest may be alive
    | Wanting(name: string, token: nat)            // CreateSandbox, admitted
    | Reserved(name: string, token: nat)           // ensuring the template
    | Restoring(name: string, token: nat, booted: bool)   // RestoreNamed in flight
    | CleaningUp(name: string, token: nat, booted: bool)  // RemoveVM after a failed restore in flight
    | Activating(name: string, token: nat)         // about to store the release in the table
    | Dropping(name: string, token: nat)           // about to delete the table entry
    | RemovingTracked(name: string, token: nat)    // RemoveVM in flight, entry held
    | RemovingUntracked(name: string)              // RemoveVM in flight, no entry was found
    | Shard(token: nat, pool: ShardPool.Pool)
    | Releasing(token: nat)                        // about to fire the release

  datatype Owner = ByOp(op: nat) | ByEntry(name: string)

  /** `held` maps each unreleased reservation to its size. `owner` records who would release a reservation, and
      `alive` which named VMs exist. The agent reads neither; what SporeVM can do and answer depends on `alive`. */
  datatype State = State(
      limiter: Limiter, held: map<nat, nat>, owner: map<nat, Owner>, table: Table, alive: set<string>,
      ops: map<nat, Op>)

  datatype Event =
    | StartSolo(pressure: Pressure)
    | StartCreate(name: string, pressure: Pressure)
    | StartRemove(name: string)
    | StartShard(shape: ShardPool.Shape, pressure: Pressure)
    | GuestStarts
    | SoloEnds
    | ReserveName
    | TemplateReturns(ok: bool)
    | Boot                       // SporeVM starts the VM of a restore
    | RestoreReturns(ok: bool)
    | Destroy                    // SporeVM stops the VM of a removal
    | RemoveReturns(ok: bool)
    | Activate
    | Drop
    | Fire
    | InPool(poolEvent: ShardPool.Event)
    | PoolDone

  predicate Init(s: State) {
    s.limiter.total >= 1 && s.limiter.used == 0 && s.held == map[] && s.owner == map[] && s.table == map[] &&
    s.alive == {} && s.ops == map[]
  }

  /** A RemoveVM call is in flight. */
  predicate Removes(op: Op) { op.CleaningUp? || op.RemovingTracked? || op.RemovingUntracked? }

  predicate Fresh(s: State, o: nat) { o !in s.ops && o !in s.held }

  predicate Enabled(s: State, o: nat, e: Event) {
    match e
    case StartSolo(p) => Fresh(s, o) && Admit(s.limiter, 1, p).Admitted?
    case StartCreate(_, p) => Fresh(s, o) && Admit(s.limiter, 1, p).Admitted?
    case StartRemove(name) => Fresh(s, o) && !Take(s.table, name, o).InProgress?
    case StartShard(shape, p) => Fresh(s, o) && shape.Valid() && Admit(s.limiter, shape.workers, p).Admitted?
    case GuestStarts => o in s.ops && s.ops[o].SoloBefore?
    case SoloEnds => o in s.ops && (s.ops[o].SoloBefore? || s.ops[o].SoloGuest?)
    case ReserveName => o in s.ops && s.ops[o].Wanting?
    case TemplateReturns(_) => o in s.ops && s.ops[o].Reserved?
    case Boot => o in s.ops && (s.ops[o].Restoring? || s.ops[o].CleaningUp?) && !s.ops[o].booted
    case RestoreReturns(ok) => o in s.ops && s.ops[o].Restoring? && (ok ==> s.ops[o].booted)
    case Destroy => o in s.ops && Removes(s.ops[o]) && s.ops[o].name in s.alive
    case RemoveReturns(ok) => o in s.ops && Removes(s.ops[o]) &&
      (ok ==> s.ops[o].RemovingUntracked? || s.ops[o].name !in s.alive)
    case Activate => o in s.ops && s.ops[o].Activating?
    case Drop => o in s.ops && s.ops[o].Dropping?
    case Fire => o in s.ops && s.ops[o].Releasing?
    case InPool(pe) => o in s.ops && s.ops[o].Shard? && ShardPool.Enabled(s.ops[o].pool, pe)
    case PoolDone => o in s.ops && s.ops[o].Shard? && s.ops[o].pool.phase.Joined?
  }

  function Acquired(s: State, o: nat, n: nat, pressure: Pressure, op: Op): State
    requires Admit(s.limiter, n, pressure).Admitted?
  {
    s.(limiter := Admit(s.limiter, n, pressure).limiter, held := s.held[o := n], owner := s.owner[o := ByOp(o)],
      ops := s.ops[o := op])
  }

  function Booted(op: Op): Op
    requires op.Restoring? || op.CleaningUp?
  {
    if op.Restoring? then Restoring(op.name, op.token, true) else CleaningUp(op.name, op.token, true)
  }

  function Step(s: State, o: nat, e: Event): State
    requires Enabled(s, o, e)
  {
    match e
    case StartSolo(p) => Acquired(s, o, 1, p, SoloBefore(o))
    case StartCreate(name, p) => Acquired(s, o, 1, p, Wanting(name, o))
    case StartShard(shape, p) => Acquired(s, o, shape.workers, p, Shard(o, ShardPool.Start(shape)))
    case StartRemove(name) =>
      (match Take(s.table, name, o)
       case Took(token, table) =>
         s.(table := table, owner := s.owner[token := ByOp(o)], ops := s.ops[o := RemovingTracked(name, token)])
       case _ => s.(ops := s.ops[o := RemovingUntracked(name)]))
    case GuestStarts => s.(ops := s.ops[o := SoloGuest(s.ops[o].token)])
    case SoloEnds => s.(ops := s.ops[o := Releasing(s.ops[o].token)])
    case ReserveName =>
      var reserved := Reserve(s.table, s.ops[o].name, o);
      if reserved.Some? then s.(table := reserved.value, ops := s.ops[o := Reserved(s.ops[o].name, s.ops[o].token)])
      else s.(ops := s.ops[o := Releasing(s.ops[o].token)])
    case TemplateReturns(ok) =>
      s.(ops := s.ops[o := if ok then Restoring(s.ops[o].name, s.ops[o].token, false)
        else Dropping(s.ops[o].name, s.ops[o].token)])
    case Boot => s.(alive := s.alive + {s.ops[o].name}, ops := s.ops[o := Booted(s.ops[o])])
    case RestoreReturns(ok) =>
      s.(ops := s.ops[o := if ok then Activating(s.ops[o].name, s.ops[o].token)
        else CleaningUp(s.ops[o].name, s.ops[o].token, s.ops[o].booted)])
    case Destroy => s.(alive := s.alive - {s.ops[o].name})
    case RemoveReturns(ok) =>
      if s.ops[o].RemovingUntracked? then s.(ops := s.ops - {o})
      else s.(ops := s.ops[o := if ok then Dropping(s.ops[o].name, s.ops[o].token)
        else Activating(s.ops[o].name, s.ops[o].token)])
    case Activate =>
      s.(table := s.table[s.ops[o].name := Active(s.ops[o].token)],
        owner := s.owner[s.ops[o].token := ByEntry(s.ops[o].name)],
         ops := s.ops - {o})
    case Drop => s.(table := s.table - {s.ops[o].name}, ops := s.ops[o := Releasing(s.ops[o].token)])
    case Fire =>
      var t := s.ops[o].token;
      if t in s.held then
        s.(limiter := s.limiter.(used := s.limiter.used - s.held[t]), held := s.held - {t}, owner := s.owner - {t},
          ops := s.ops - {o})
      else s.(ops := s.ops - {o})
    case InPool(pe) => s.(ops := s.ops[o := Shard(s.ops[o].token, ShardPool.Step(s.ops[o].pool, pe))])
    case PoolDone => s.(ops := s.ops[o := Releasing(s.ops[o].token)])
  }

  // --- Invariant

  predicate HoldsToken(op: Op) { !op.RemovingUntracked? }

  /** The operation owns the table entry of its name. */
  predicate HoldsName(op: Op) {
    op.Reserved? || op.Restoring? || op.CleaningUp? || op.Activating? || op.Dropping? || op.RemovingTracked?
  }

  ghost predicate OpOk(s: State, o: nat)
    requires o in s.ops
  {
    var op := s.ops[o];
    && (HoldsToken(op) ==>
          && op.token in s.owner
          && s.owner[op.token] == ByOp(o)
          && op.token in s.held
          && (op.Shard? ==> ShardPool.Inv(op.pool) && s.held[op.token] == op.pool.workers >= 1)
          && (!op.Shard? && !op.Releasing? ==> s.held[op.token] == 1))
    && (HoldsName(op) ==> op.name in s.table && s.table[op.name] == Busy(o))
  }

  predicate EntryOk(s: State, n: string)
    requires n in s.table
  {
    match s.table[n]
    case Active(t) => t in s.owner && s.owner[t] == ByEntry(n) && t in s.held && s.held[t] == 1
    case Busy(o) => o in s.ops && HoldsName(s.ops[o]) && s.ops[o].name == n
  }

  predicate OwnerOk(s: State, t: nat)
    requires t in s.owner
  {
    match s.owner[t]
    case ByOp(o) => o in s.ops && HoldsToken(s.ops[o]) && s.ops[o].token == t
    case ByEntry(n) => n in s.table && s.table[n] == Active(t)
  }

  /** The operation may have started the VM of its name and has not been told that it is gone. */
  predicate HasStarted(op: Op) { op.Restoring? || op.CleaningUp? || op.Activating? || op.RemovingTracked? }

  /** The table allows for a VM of this name: the sandbox is active, or its holder may have started it. */
  predicate Hosts(s: State, name: string) {
    name in s.table && match s.table[name]
                       case Active(_) => true
                       case Busy(o) => o in s.ops && HasStarted(s.ops[o])
  }

  ghost predicate Accounts(s: State) {
    s.held.Keys == s.owner.Keys && s.limiter.used == Sum(s.held) && 0 <= s.limiter.used <= s.limiter.total
  }

  ghost predicate Inv(s: State) {
    && Accounts(s)
    && (forall n :: n in s.alive ==> Hosts(s, n))
    && (forall o :: o in s.ops ==> OpOk(s, o))
    && (forall n :: n in s.table ==> EntryOk(s, n))
    && (forall t :: t in s.owner ==> OwnerOk(s, t))
  }

  // --- Preservation

  /** Another operation keeps its reservation. */
  lemma OtherToken(s: State, o: nat, e: Event, p: nat)
    requires Inv(s) && Enabled(s, o, e) && p != o && p in s.ops && HoldsToken(s.ops[p])
    ensures
      var t, token := Step(s, o, e), s.ops[p].token;
      && token in s.held && token in t.owner && t.owner[token] == ByOp(p)
      && token in t.held && t.held[token] == s.held[token]
  {
    assert OpOk(s, p);
    if o in s.ops { assert OpOk(s, o); }
    if e.StartRemove? && e.name in s.table { assert EntryOk(s, e.name); }
  }

  predicate MovesTable(e: Event) { e.StartRemove? || e.ReserveName? || e.Activate? || e.Drop? }

  /** Another operation keeps its name. */
  lemma OtherName(s: State, o: nat, e: Event, p: nat)
    requires Inv(s) && Enabled(s, o, e) && p != o && p in s.ops && HoldsName(s.ops[p])
    ensures
      var t, name := Step(s, o, e), s.ops[p].name;
      name in t.table && t.table[name] == Busy(p)
  {
    assert OpOk(s, p);
    if MovesTable(e) {
      if o in s.ops { assert OpOk(s, o); }
    } else {
      assert Step(s, o, e).table == s.table;
    }
  }

  lemma OtherOps(s: State, o: nat, e: Event, p: nat)
    requires Inv(s) && Enabled(s, o, e) && p != o && p in Step(s, o, e).ops
    ensures OpOk(Step(s, o, e), p)
  {
    assert OpOk(s, p);
    assert Step(s, o, e).ops[p] == s.ops[p];
    if HoldsToken(s.ops[p]) { OtherToken(s, o, e, p); }
    if HoldsName(s.ops[p]) { OtherName(s, o, e, p); }
  }

  lemma OwnOp(s: State, o: nat, e: Event)
    requires Inv(s) && Enabled(s, o, e) && o in Step(s, o, e).ops
    ensures OpOk(Step(s, o, e), o)
  {
    match e
    case StartSolo(_) => OwnStarts(s, o, e);
    case StartCreate(_, _) => OwnStarts(s, o, e);
    case StartShard(_, _) => OwnStarts(s, o, e);
    case StartRemove(_) => OwnStarts(s, o, e);
    case InPool(pe) => OwnPool(s, o, pe);
    case RemoveReturns(_) => OwnContinues(s, o, e);
    case Boot => OwnContinues(s, o, e);
    case Destroy => OwnContinues(s, o, e);
    case ReserveName => OwnContinues(s, o, e);
    case TemplateReturns(_) => OwnContinues(s, o, e);
    case RestoreReturns(_) => OwnContinues(s, o, e);
    case GuestStarts => OwnContinues(s, o, e);
    case SoloEnds => OwnContinues(s, o, e);
    case PoolDone => OwnContinues(s, o, e);
    case Drop => OwnContinues(s, o, e);
    case Activate =>
    case Fire =>
  }

  lemma OwnStarts(s: State, o: nat, e: Event)
    requires Inv(s) && Enabled(s, o, e) && (e.StartSolo? || e.StartCreate? || e.StartShard? || e.StartRemove?)
    ensures o in Step(s, o, e).ops && OpOk(Step(s, o, e), o)
  {
    if e.StartRemove? && e.name in s.table { assert EntryOk(s, e.name); }
  }

  lemma OwnContinues(s: State, o: nat, e: Event)
    requires Inv(s) && Enabled(s, o, e)
    requires e.ReserveName? || e.TemplateReturns? || e.RestoreReturns? || e.GuestStarts? || e.SoloEnds? ||
      e.PoolDone? || e.Drop? || e.Boot? || e.Destroy? || e.RemoveReturns?
    ensures o in Step(s, o, e).ops ==> OpOk(Step(s, o, e), o)
  {
    assert OpOk(s, o);
  }

  lemma OwnPool(s: State, o: nat, pe: ShardPool.Event)
    requires Inv(s) && Enabled(s, o, InPool(pe))
    ensures OpOk(Step(s, o, InPool(pe)), o)
  {
    assert OpOk(s, o);
    ShardPool.StepInv(s.ops[o].pool, pe);
  }

  lemma MovedEntries(s: State, o: nat, e: Event, n: string)
    requires Inv(s) && Enabled(s, o, e) && MovesTable(e) && n in Step(s, o, e).table
    ensures EntryOk(Step(s, o, e), n)
  {
    if n in s.table { assert EntryOk(s, n); }
    if o in s.ops { assert OpOk(s, o); }
    if e.StartRemove? && e.name in s.table { assert EntryOk(s, e.name); }
  }

  lemma KeptEntries(s: State, o: nat, e: Event, n: string)
    requires Inv(s) && Enabled(s, o, e) && !MovesTable(e) && n in Step(s, o, e).table
    ensures EntryOk(Step(s, o, e), n)
  {
    assert EntryOk(s, n);
    if o in s.ops { assert OpOk(s, o); }
  }

  lemma Entries(s: State, o: nat, e: Event, n: string)
    requires Inv(s) && Enabled(s, o, e) && n in Step(s, o, e).table
    ensures EntryOk(Step(s, o, e), n)
  {
    if MovesTable(e) { MovedEntries(s, o, e, n); } else { KeptEntries(s, o, e, n); }
  }

  lemma MovedOwners(s: State, o: nat, e: Event, t: nat)
    requires Inv(s) && Enabled(s, o, e) && MovesTable(e) && t in Step(s, o, e).owner
    ensures OwnerOk(Step(s, o, e), t)
  {
    if t in s.owner { assert OwnerOk(s, t); }
    if o in s.ops { assert OpOk(s, o); }
    if e.StartRemove? && e.name in s.table { assert EntryOk(s, e.name); }
  }

  lemma KeptOwners(s: State, o: nat, e: Event, t: nat)
    requires Inv(s) && Enabled(s, o, e) && !MovesTable(e) && t in Step(s, o, e).owner
    ensures OwnerOk(Step(s, o, e), t)
  {
    if t in s.owner { assert OwnerOk(s, t); }
    if o in s.ops { assert OpOk(s, o); }
  }

  lemma Owners(s: State, o: nat, e: Event, t: nat)
    requires Inv(s) && Enabled(s, o, e) && t in Step(s, o, e).owner
    ensures OwnerOk(Step(s, o, e), t)
  {
    if MovesTable(e) { MovedOwners(s, o, e, t); } else { KeptOwners(s, o, e, t); }
  }

  /** Every VM that exists stays one that the table allows for. */
  lemma VMsKept(s: State, o: nat, e: Event, n: string)
    requires Inv(s) && Enabled(s, o, e) && n in Step(s, o, e).alive
    ensures Hosts(Step(s, o, e), n)
  {
    if o in s.ops { assert OpOk(s, o); }
    if n in s.table { assert EntryOk(s, n); }
    if e.Boot? { assert Hosts(s, s.ops[o].name); }
    if n in s.alive {
      assert Hosts(s, n);
      HostsKept(s, o, e, n);
    }
  }

  lemma HostsKept(s: State, o: nat, e: Event, n: string)
    requires Inv(s) && Enabled(s, o, e) && Hosts(s, n)
    requires e == RemoveReturns(true) && HoldsName(s.ops[o]) ==> s.ops[o].name != n
    ensures Hosts(Step(s, o, e), n)
  {
    assert EntryOk(s, n);
    if o in s.ops { assert OpOk(s, o); }
    if MovesTable(e) {
      if e.StartRemove? && e.name in s.table { assert EntryOk(s, e.name); }
    } else if s.table[n] == Busy(o) {
      HolderStays(s, o, e, n);
    } else {
      assert Step(s, o, e).table == s.table;
    }
  }

  lemma HolderStays(s: State, o: nat, e: Event, n: string)
    requires Enabled(s, o, e) && o in s.ops && HasStarted(s.ops[o]) && s.ops[o].name == n && !MovesTable(e)
    requires e != RemoveReturns(true) && n in s.table && s.table[n] == Busy(o)
    ensures Hosts(Step(s, o, e), n)
  {
  }

  lemma AccountsKept(s: State, o: nat, e: Event)
    requires Inv(s) && Enabled(s, o, e)
    ensures Accounts(Step(s, o, e)) && Step(s, o, e).limiter.total == s.limiter.total
  {
    if o in s.ops { assert OpOk(s, o); }
    match e
    case StartSolo(p) => AcquiredAccounts(s, o, 1, p, SoloBefore(o));
    case StartCreate(name, p) => AcquiredAccounts(s, o, 1, p, Wanting(name, o));
    case StartShard(shape, p) => AcquiredAccounts(s, o, shape.workers, p, Shard(o, ShardPool.Start(shape)));
    case StartRemove(name) => if name in s.table { assert EntryOk(s, name); }
    case Activate =>
    case Fire => SumRemove(s.held, s.ops[o].token);
    case _ => SameAccounts(s, Step(s, o, e));
  }

  lemma AcquiredAccounts(s: State, o: nat, n: nat, pressure: Pressure, op: Op)
    requires Accounts(s) && Fresh(s, o) && Admit(s.limiter, n, pressure).Admitted?
    ensures
      Accounts(Acquired(s, o, n, pressure, op)) && Acquired(s, o, n, pressure, op).limiter.total == s.limiter.total
  {
    SumAdd(s.held, o, n);
  }

  lemma SameAccounts(s: State, t: State)
    requires Accounts(s) && t == State(s.limiter, s.held, s.owner, t.table, t.alive, t.ops)
    ensures Accounts(t)
  {
  }

  lemma StepInv(s: State, o: nat, e: Event)
    requires Inv(s) && Enabled(s, o, e)
    ensures Inv(Step(s, o, e))
  {
    var s' := Step(s, o, e);
    AccountsKept(s, o, e);
    forall n | n in s'.alive ensures Hosts(s', n) { VMsKept(s, o, e, n); }
    forall p | p in s'.ops ensures OpOk(s', p) { if p == o { OwnOp(s, o, e); } else { OtherOps(s, o, e, p); } }
    forall n | n in s'.table ensures EntryOk(s', n) { Entries(s, o, e, n); }
    forall t | t in s'.owner ensures OwnerOk(s', t) { Owners(s, o, e, t); }
  }

  /** The state after a schedule: each item names the operation that takes the step. */
  function RunAll(s: State, schedule: seq<(nat, Event)>): Option<State> {
    if schedule == [] then Some(s)
    else
      var before, last := RunAll(s, schedule[..|schedule| - 1]), schedule[|schedule| - 1];
      if before.Some? && Enabled(before.value, last.0, last.1) then Some(Step(before.value, last.0, last.1)) else None
  }

  lemma {:induction false} InvAlways(s: State, schedule: seq<(nat, Event)>)
    requires Init(s)
    ensures RunAll(s, schedule).Some? ==>
      Inv(RunAll(s, schedule).value) && RunAll(s, schedule).value.limiter.total == s.limiter.total
  {
    if schedule != [] {
      var n := |schedule| - 1;
      InvAlways(s, schedule[..n]);
      var before := RunAll(s, schedule[..n]);
      if before.Some? && Enabled(before.value, schedule[n].0, schedule[n].1) {
        StepInv(before.value, schedule[n].0, schedule[n].1);
        AccountsKept(before.value, schedule[n].0, schedule[n].1);
      }
    }
  }

  // --- Guests and slots

  datatype Guest = Named(name: string) | Solo(op: nat) | Worker(shard: nat, worker: nat)

  /** Every guest that may be alive. */
  ghost function Guests(s: State): set<Guest> {
    (set n | n in s.table && Hosts(s, n) :: Named(n)) + (set o | o in s.ops && s.ops[o].SoloGuest? :: Solo(o)) +
    (set o, w | o in s.ops && s.ops[o].Shard? && w in s.ops[o].pool.busy :: Worker(o, w))
  }

  /** The unit of an unreleased reservation that pays for a guest. */
  ghost function SlotOf(s: State, g: Guest): (nat, nat)
    requires Inv(s) && g in Guests(s)
  {
    match g
    case Named(n) =>
      assert EntryOk(s, n);
      (match s.table[n] case Active(t) => (t, 0) case Busy(o) => (s.ops[o].token, 0))
    case Solo(o) => (s.ops[o].token, 0)
    case Worker(o, w) => (s.ops[o].token, w)
  }

  ghost function OwnerOf(s: State, g: Guest): Owner
    requires Inv(s) && g in Guests(s)
  {
    match g
    case Named(n) => (match s.table[n] case Active(_) => ByEntry(n) case Busy(o) => ByOp(o))
    case Solo(o) => ByOp(o)
    case Worker(o, _) => ByOp(o)
  }

  lemma GuestIsPaidFor(s: State, g: Guest)
    requires Inv(s) && g in Guests(s)
    ensures
      var (t, i) := SlotOf(s, g);
      t in s.held && i < s.held[t] && t in s.owner && s.owner[t] == OwnerOf(s, g)
  {
    match g
    case Named(n) =>
      assert EntryOk(s, n);
      if s.table[n].Busy? { assert OpOk(s, s.table[n].holder); }
    case Solo(o) => assert OpOk(s, o);
    case Worker(o, w) =>
      assert OpOk(s, o);
      assert ShardPool.BusyOk(s.ops[o].pool, w);
  }

  /** Distinct guests are paid for by distinct units. */
  lemma GuestsHaveDistinctSlots(s: State, g: Guest, h: Guest)
    requires Inv(s) && g in Guests(s) && h in Guests(s) && SlotOf(s, g) == SlotOf(s, h)
    ensures g == h
  {
    GuestIsPaidFor(s, g);
    GuestIsPaidFor(s, h);
    if g.Named? { assert EntryOk(s, g.name); }
    if h.Named? { assert EntryOk(s, h.name); }
  }

  ghost function SlotMap(s: State): (m: map<Guest, (nat, nat)>)
    requires Inv(s)
    ensures m.Keys == Guests(s) && forall g :: g in m ==> m[g] == SlotOf(s, g)
  {
    map g | g in Guests(s) :: SlotOf(s, g)
  }

  lemma SlotsOfGuests(s: State, guests: set<Guest>, slots: map<Guest, (nat, nat)>)
    requires Inv(s) && guests == Guests(s) && slots == SlotMap(s)
    ensures slots.Keys == guests
    ensures forall g :: g in guests ==> slots[g] in Units(s.held)
    ensures forall g, h :: g in guests && h in guests && slots[g] == slots[h] ==> g == h
  {
    forall g | g in guests ensures slots[g] in Units(s.held) { GuestIsPaidFor(s, g); }
    forall g, h | g in guests && h in guests && slots[g] == slots[h]
      ensures g == h
    {
      GuestsHaveDistinctSlots(s, g, h);
    }
  }

  lemma SlotsBoundGuests(held: map<nat, nat>, guests: set<Guest>, slots: map<Guest, (nat, nat)>)
    requires slots.Keys == guests
    requires forall g :: g in guests ==> slots[g] in Units(held)
    requires forall g, h :: g in guests && h in guests && slots[g] == slots[h] ==> g == h
    ensures |guests| <= Sum(held)
  {
    InjectionSize(guests, Units(held), slots);
    UnitsSize(held);
  }

  lemma GuestsFitInUse(s: State)
    requires Inv(s)
    ensures |Guests(s)| <= s.limiter.used
  {
    SlotsOfGuests(s, Guests(s), SlotMap(s));
    SlotsBoundGuests(s.held, Guests(s), SlotMap(s));
  }

  /** In every interleaving and whatever the client calls return: the used slots are exactly the unreleased
      reservations, guests that may be alive never outnumber them, and they never exceed the agent's slots. Every
      named VM that exists is among those guests. */
  lemma GuestsNeverExceedSlots(s: State, schedule: seq<(nat, Event)>)
    requires Init(s) && RunAll(s, schedule).Some?
    ensures
      var t := RunAll(s, schedule).value;
      && t.limiter.used == Sum(t.held) && |Guests(t)| <= t.limiter.used <= s.limiter.total
      && forall n :: n in t.alive ==> Named(n) in Guests(t)
  {
    InvAlways(s, schedule);
    GuestsFitInUse(RunAll(s, schedule).value);
  }

  predicate NameOwnsSlot(s: State, name: string)
    requires name in s.table
  {
    match s.table[name]
    case Active(t) => t in s.held && s.held[t] == 1 && t in s.owner && s.owner[t] == ByEntry(name)
    case Busy(o) =>
      && o in s.ops
      && HoldsName(s.ops[o])
      && !s.ops[o].Dropping?
      && !s.ops[o].Reserved?
      && s.ops[o].token in s.held
      && s.held[s.ops[o].token] == 1
      && s.ops[o].token in s.owner
      && s.owner[s.ops[o].token] == ByOp(o)
  }

  /** A named VM that exists has a table entry, and that entry's holder owns an unreleased slot: the
      entry itself, or the one operation that has the name in progress. */
  lemma LiveVMOwnsSlot(s: State, schedule: seq<(nat, Event)>, name: string)
    requires Init(s) && RunAll(s, schedule).Some? && name in RunAll(s, schedule).value.alive
    ensures
      var t := RunAll(s, schedule).value;
      name in t.table && NameOwnsSlot(t, name)
  {
    InvAlways(s, schedule);
    var t := RunAll(s, schedule).value;
    assert Hosts(t, name) && EntryOk(t, name);
    if t.table[name].Busy? { assert OpOk(t, t.table[name].holder); }
  }

  /** Entries and reservations of one slot, each naming the other, are as many. */
  lemma EntriesMatchReservations(table: Table, held: map<nat, nat>, owner: map<nat, Owner>)
    requires forall n :: n in table ==> table[n].Active? && table[n].token in held && table[n].token in owner
    requires forall n :: n in table ==> owner[table[n].token] == ByEntry(n)
    requires forall k :: k in held ==>
      k in owner && owner[k].ByEntry? && owner[k].name in table && table[owner[k].name] == Active(k)
    ensures |table| == |held|
  {
    TokensDiffer(table, owner);
    InjectionSize(table.Keys, held.Keys, map n | n in table :: table[n].token);
    InjectionSize(held.Keys, table.Keys, map k | k in held :: owner[k].name);
    assert |held| == |held.Keys| && |table| == |table.Keys|;
  }

  lemma TokensDiffer(table: Table, owner: map<nat, Owner>)
    requires forall n :: n in table ==>
      table[n].Active? && table[n].token in owner && owner[table[n].token] == ByEntry(n)
    ensures forall m, n :: m in table && n in table && table[m].token == table[n].token ==> m == n
  {
  }

  lemma QuiescentState(t: State)
    requires Inv(t) && t.ops == map[]
    ensures forall n :: n in t.table ==>
      t.table[n].Active? && t.table[n].token in t.held && t.table[n].token in t.owner &&
        t.owner[t.table[n].token] == ByEntry(n)
    ensures forall k :: k in t.held ==>
      && k in t.owner && t.owner[k].ByEntry? && t.owner[k].name in t.table && t.table[t.owner[k].name] == Active(k)
      && t.held[k] == 1
  {
    forall n | n in t.table
      ensures t.table[n].Active? && t.table[n].token in t.held && t.table[n].token in t.owner
      ensures t.owner[t.table[n].token] == ByEntry(n)
    {
      assert EntryOk(t, n);
    }
    forall k | k in t.held
      ensures k in t.owner && t.owner[k].ByEntry? && t.owner[k].name in t.table
      ensures t.table[t.owner[k].name] == Active(k) && t.held[k] == 1
    {
      assert OwnerOk(t, k);
      assert EntryOk(t, t.owner[k].name);
    }
  }

  /** With no operation in flight, the free slots are the total less one for every table entry, and every entry
      is an active sandbox. */
  lemma QuiescentSlots(s: State, schedule: seq<(nat, Event)>)
    requires Init(s) && RunAll(s, schedule).Some? && RunAll(s, schedule).value.ops == map[]
    ensures
      var t := RunAll(s, schedule).value;
      && t.limiter.Available() == s.limiter.total - |t.table|
      && forall n :: n in t.table ==> t.table[n].Active?
  {
    InvAlways(s, schedule);
    var t := RunAll(s, schedule).value;
    QuiescentState(t);
    SumOfOnes(t.held);
    EntriesMatchReservations(t.table, t.held, t.owner);
  }

  // --- No operation hangs, and what each holds meanwhile

  /** How many steps of its own an operation has left at most. */
  function StepsLeft(op: Op): nat {
    match op
    case SoloBefore(_) => 3
    case SoloGuest(_) => 2
    case Wanting(_, _) => 8
    case Reserved(_, _) => 7
    case Restoring(_, _, booted) => if booted then 5 else 6
    case CleaningUp(_, _, booted) => if booted then 3 else 4
    case Activating(_, _) => 1
    case Dropping(_, _) => 2
    case RemovingTracked(_, _) => 3
    case RemovingUntracked(_) => 1
    case Shard(_, pool) => 2 + ShardPool.StepsLeft(pool)
    case Releasing(_) => 1
  }

  /** What the operation can do next, whatever answer it gets. */
  ghost predicate CanMove(s: State, o: nat)
    requires o in s.ops
  {
    match s.ops[o]
    case SoloBefore(_) => Enabled(s, o, GuestStarts) && Enabled(s, o, SoloEnds)
    case SoloGuest(_) => Enabled(s, o, SoloEnds)
    case Wanting(_, _) => Enabled(s, o, ReserveName)
    case Reserved(_, _) => Enabled(s, o, TemplateReturns(true)) && Enabled(s, o, TemplateReturns(false))
    case Restoring(_, _, booted) =>
      Enabled(s, o, RestoreReturns(false)) && Enabled(s, o, if booted then RestoreReturns(true) else Boot)
    case CleaningUp(name, _, _) =>
      Enabled(s, o, RemoveReturns(false)) && Enabled(s, o, if name in s.alive then Destroy else RemoveReturns(true))
    case RemovingTracked(name, _) =>
      Enabled(s, o, RemoveReturns(false)) && Enabled(s, o, if name in s.alive then Destroy else RemoveReturns(true))
    case RemovingUntracked(_) => Enabled(s, o, RemoveReturns(true)) && Enabled(s, o, RemoveReturns(false))
    case Activating(_, _) => Enabled(s, o, Activate)
    case Dropping(_, _) => Enabled(s, o, Drop)
    case Releasing(_) => Enabled(s, o, Fire)
    case Shard(_, pool) => PoolCanMove(s, o, pool)
  }

  lemma PoolMoves(pool: ShardPool.Pool)
    requires ShardPool.Inv(pool) && pool.workers >= 1 && !pool.phase.Joined?
    ensures exists e :: ShardPool.Enabled(pool, e)
  {
    if w :| w in pool.busy {
      var r := AttemptResult("", "", 0, "", "", "", NoStatus, 0, 0, Timings(0.0, 0.0, 0.0, 0.0, 0.0, 0.0), false, "",
                             None, None);
      assert ShardPool.BusyOk(pool, w);
      assert ShardPool.Enabled(pool, ShardPool.Finish(w, r));
    } else if pool.phase.Closed? {
      assert ShardPool.Enabled(pool, ShardPool.Join);
    } else if pool.next < pool.end {
      assert ShardPool.Enabled(pool, ShardPool.Hand(0));
    } else {
      assert ShardPool.Enabled(pool, ShardPool.Close);
    }
  }

  /** In every interleaving each operation in flight can take its next step, with whatever answer; and every step of
      its own, but for the stop of its VM, leaves it fewer, so that it ends. */
  lemma NothingHangs(s: State, schedule: seq<(nat, Event)>, o: nat)
    requires Init(s) && RunAll(s, schedule).Some? && o in RunAll(s, schedule).value.ops
    ensures CanMove(RunAll(s, schedule).value, o)
  {
    InvAlways(s, schedule);
    MovesNow(RunAll(s, schedule).value, o);
  }

  lemma MovesNow(t: State, o: nat)
    requires o in t.ops && OpOk(t, o)
    ensures CanMove(t, o)
  {
    if t.ops[o].Shard? { ShardMoves(t, o); }
  }

  ghost predicate PoolCanMove(s: State, o: nat, pool: ShardPool.Pool) {
    Enabled(s, o, PoolDone) || exists e :: ShardPool.Enabled(pool, e) && Enabled(s, o, InPool(e))
  }

  lemma ShardMoves(t: State, o: nat)
    requires o in t.ops && t.ops[o].Shard? && ShardPool.Inv(t.ops[o].pool) && t.ops[o].pool.workers >= 1
    ensures PoolCanMove(t, o, t.ops[o].pool)
  {
    if !t.ops[o].pool.phase.Joined? {
      PoolMoves(t.ops[o].pool);
      var e :| ShardPool.Enabled(t.ops[o].pool, e);
      assert Enabled(t, o, InPool(e));
    }
  }

  lemma FewerLeft(s: State, o: nat, e: Event)
    requires Enabled(s, o, e) && o in s.ops && !e.Destroy? && o in Step(s, o, e).ops
    ensures StepsLeft(Step(s, o, e).ops[o]) < StepsLeft(s.ops[o])
  {
    if e.InPool? { ShardPool.FewerLeft(s.ops[o].pool, e.poolEvent); }
  }

  /** An operation in flight holds exactly the slots it was admitted with until it releases them: one, or one for each
      worker of its shard. An active sandbox holds one. */
  lemma HeldExactly(s: State, schedule: seq<(nat, Event)>, o: nat)
    requires Init(s) && RunAll(s, schedule).Some? && o in RunAll(s, schedule).value.ops
    ensures
      var t := RunAll(s, schedule).value;
      var op := t.ops[o];
      && (op.Shard? ==> op.token in t.held && t.held[op.token] == op.pool.workers)
      && (!op.Shard? && !op.Releasing? && !op.RemovingUntracked? ==> op.token in t.held && t.held[op.token] == 1)
      && forall n :: n in t.table && t.table[n].Active? ==>
           t.table[n].token in t.held && t.held[t.table[n].token] == 1
  {
    InvAlways(s, schedule);
    var t := RunAll(s, schedule).value;
    assert OpOk(t, o);
    assert forall n :: n in t.table ==> EntryOk(t, n);
  }

  // --- One sandbox operation that nothing interrupts

  /** Operation o has been admitted with one slot. */
  ghost function Holding(s: State, o: nat, table: Table, alive: set<string>, op: Op): State {
    State(s.limiter.(used := s.limiter.used + 1), s.held[o := 1], s.owner[o := ByOp(o)], table, alive, s.ops[o := op])
  }

  lemma HoldingGoesOn(s: State, schedule: seq<(nat, Event)>, o: nat, a: State, e: Event, table: Table,
      alive: set<string>, op: Op) returns (longer: seq<(nat, Event)>)
    requires RunAll(s, schedule) == Some(a) && o in a.ops && a == Holding(s, o, a.table, a.alive, a.ops[o])
    requires Enabled(a, o, e) && Step(a, o, e) == a.(table := table, alive := alive, ops := a.ops[o := op])
    ensures RunAll(s, longer) == Some(Holding(s, o, table, alive, op)) && longer == schedule + [(o, e)]
  {
    assert s.ops[o := a.ops[o]][o := op] == s.ops[o := op];
    longer := Then(s, schedule, a, o, e, Holding(s, o, table, alive, op));
  }

  /** The operation ends by giving its slot back, */
  lemma GivesBack(s: State, schedule: seq<(nat, Event)>, o: nat, table: Table, alive: set<string>)
      returns (longer: seq<(nat, Event)>)
    requires Fresh(s, o) && o !in s.owner
    requires RunAll(s, schedule) == Some(Holding(s, o, table, alive, Releasing(o)))
    ensures RunAll(s, longer) == Some(s.(table := table, alive := alive)) && longer == schedule + [(o, Fire)]
  {
    assert s.held[o := 1] - {o} == s.held && s.owner[o := ByOp(o)] - {o} == s.owner;
    assert s.ops[o := Releasing(o)] - {o} == s.ops;
    longer := Then(s, schedule, Holding(s, o, table, alive, Releasing(o)), o, Fire,
                   s.(table := table, alive := alive));
  }

  /** or by storing it in the table. */
  lemma StoresIt(s: State, schedule: seq<(nat, Event)>, o: nat, name: string, alive: set<string>)
      returns (longer: seq<(nat, Event)>)
    requires Fresh(s, o)
    requires RunAll(s, schedule) == Some(Holding(s, o, s.table[name := Busy(o)], alive, Activating(name, o)))
    ensures RunAll(s, longer) == Some(State(s.limiter.(used := s.limiter.used + 1), s.held[o := 1],
      s.owner[o := ByEntry(name)], s.table[name := Active(o)], alive, s.ops))
    ensures longer == schedule + [(o, Activate)]
  {
    var a := Holding(s, o, s.table[name := Busy(o)], alive, Activating(name, o));
    assert s.table[name := Busy(o)][name := Active(o)] == s.table[name := Active(o)];
    assert s.owner[o := ByOp(o)][o := ByEntry(name)] == s.owner[o := ByEntry(name)];
    assert s.ops[o := Activating(name, o)] - {o} == s.ops;
    longer := Then(s, schedule, a, o, Activate, State(s.limiter.(used := s.limiter.used + 1), s.held[o := 1],
      s.owner[o := ByEntry(name)], s.table[name := Active(o)], alive, s.ops));
  }

  lemma IsAdmitted(s: State, o: nat, name: string, pressure: Pressure) returns (schedule: seq<(nat, Event)>)
    requires Fresh(s, o) && Admit(s.limiter, 1, pressure).Admitted?
    ensures RunAll(s, schedule) == Some(Holding(s, o, s.table, s.alive, Wanting(name, o)))
    ensures schedule == [] + [(o, StartCreate(name, pressure))]
  {
    schedule := Then(s, [], s, o, StartCreate(name, pressure), Holding(s, o, s.table, s.alive, Wanting(name, o)));
  }

  /** What a creation does from the template on. */
  function RestoreSteps(o: nat, w: CreateWorld): seq<(nat, Event)> {
    if !w.template then [(o, TemplateReturns(false)), (o, Drop), (o, Fire)]
    else if w.restored then [(o, TemplateReturns(true)), (o, Boot), (o, RestoreReturns(true)), (o, Activate)]
    else if w.cleaned
    then [(o, TemplateReturns(true)), (o, RestoreReturns(false)), (o, RemoveReturns(true)), (o, Drop), (o, Fire)]
    else [(o, TemplateReturns(true)), (o, RestoreReturns(false)), (o, RemoveReturns(false)), (o, Activate)]
  }

  function CreateSteps(o: nat, name: string, pressure: Pressure, taken: bool, w: CreateWorld): seq<(nat, Event)> {
    [(o, StartCreate(name, pressure)), (o, ReserveName)] + if taken then [(o, Fire)] else RestoreSteps(o, w)
  }

  /** What a removal does, of no entry, or of an active one with or without a VM. */
  function RemoveSteps(o: nat, name: string, tracked: bool, alive: bool, gone: bool): seq<(nat, Event)> {
    if !tracked then [(o, StartRemove(name)), (o, RemoveReturns(gone))]
    else if !gone then [(o, StartRemove(name)), (o, RemoveReturns(false)), (o, Activate)]
    else if alive then [(o, StartRemove(name)), (o, Destroy), (o, RemoveReturns(true)), (o, Drop), (o, Fire)]
    else [(o, StartRemove(name)), (o, RemoveReturns(true)), (o, Drop), (o, Fire)]
  }

  /** `CreateSandbox` from the template on. */
  lemma RestoreIsARun(s: State, schedule: seq<(nat, Event)>, o: nat, name: string, w: CreateWorld)
      returns (longer: seq<(nat, Event)>, t: State)
    requires Fresh(s, o) && o !in s.owner && name !in s.table && name !in s.alive
    requires RunAll(s, schedule) == Some(Holding(s, o, s.table[name := Busy(o)], s.alive, Reserved(name, o)))
    ensures RunAll(s, longer) == Some(t) && t.ops == s.ops
    ensures longer == schedule + RestoreSteps(o, w)
    ensures
      if w.template && (w.restored || !w.cleaned)
      then t.table == s.table[name := Active(o)] && t.limiter == s.limiter.(used := s.limiter.used + 1)
      else t == s
  {
    var a := Holding(s, o, s.table[name := Busy(o)], s.alive, Reserved(name, o));
    if !w.template {
      longer := HoldingGoesOn(s, schedule, o, a, TemplateReturns(false), a.table, s.alive, Dropping(name, o));
      longer, t := DropsIt(s, longer, o, name);
    } else {
      longer := HoldingGoesOn(s, schedule, o, a, TemplateReturns(true), a.table, s.alive, Restoring(name, o, false));
      if w.restored {
        longer, t := RestoresIt(s, longer, o, name);
      } else {
        longer, t := FailsToRestore(s, longer, o, name, w.cleaned);
      }
    }
    assert longer == schedule + RestoreSteps(o, w);
  }

  lemma FailsToRestore(s: State, schedule: seq<(nat, Event)>, o: nat, name: string, cleaned: bool)
      returns (longer: seq<(nat, Event)>, t: State)
    requires Fresh(s, o) && o !in s.owner && name !in s.table && name !in s.alive
    requires RunAll(s, schedule) == Some(Holding(s, o, s.table[name := Busy(o)], s.alive, Restoring(name, o, false)))
    ensures RunAll(s, longer) == Some(t) && t.ops == s.ops
    ensures longer == schedule + if cleaned
      then [(o, RestoreReturns(false)), (o, RemoveReturns(true)), (o, Drop), (o, Fire)]
      else [(o, RestoreReturns(false)), (o, RemoveReturns(false)), (o, Activate)]
    ensures
      if cleaned then t == s
      else t.table == s.table[name := Active(o)] && t.limiter == s.limiter.(used := s.limiter.used + 1)
  {
    var a := Holding(s, o, s.table[name := Busy(o)], s.alive, Restoring(name, o, false));
    longer := HoldingGoesOn(s, schedule, o, a, RestoreReturns(false), a.table, s.alive, CleaningUp(name, o, false));
    a := Holding(s, o, a.table, s.alive, CleaningUp(name, o, false));
    if cleaned {
      longer := HoldingGoesOn(s, longer, o, a, RemoveReturns(true), a.table, s.alive, Dropping(name, o));
      longer, t := DropsIt(s, longer, o, name);
    } else {
      longer := HoldingGoesOn(s, longer, o, a, RemoveReturns(false), a.table, s.alive, Activating(name, o));
      longer := StoresIt(s, longer, o, name, s.alive);
      t := RunAll(s, longer).value;
    }
  }

  lemma DropsIt(s: State, schedule: seq<(nat, Event)>, o: nat, name: string)
      returns (longer: seq<(nat, Event)>, t: State)
    requires Fresh(s, o) && o !in s.owner && name !in s.table
    requires RunAll(s, schedule) == Some(Holding(s, o, s.table[name := Busy(o)], s.alive, Dropping(name, o)))
    ensures RunAll(s, longer) == Some(t) && t == s && longer == schedule + [(o, Drop)] + [(o, Fire)]
  {
    assert s.table[name := Busy(o)] - {name} == s.table;
    longer := HoldingGoesOn(s, schedule, o, Holding(s, o, s.table[name := Busy(o)], s.alive, Dropping(name, o)), Drop,
      s.table, s.alive, Releasing(o));
    longer := GivesBack(s, longer, o, s.table, s.alive);
    t := s;
  }

  lemma RestoresIt(s: State, schedule: seq<(nat, Event)>, o: nat, name: string)
      returns (longer: seq<(nat, Event)>, t: State)
    requires Fresh(s, o)
    requires RunAll(s, schedule) == Some(Holding(s, o, s.table[name := Busy(o)], s.alive, Restoring(name, o, false)))
    ensures RunAll(s, longer) == Some(t) && t.ops == s.ops
    ensures longer == schedule + [(o, Boot)] + [(o, RestoreReturns(true))] + [(o, Activate)]
    ensures t.table == s.table[name := Active(o)] && t.limiter == s.limiter.(used := s.limiter.used + 1)
  {
    var table, alive := s.table[name := Busy(o)], s.alive + {name};
    longer := HoldingGoesOn(s, schedule, o, Holding(s, o, table, s.alive, Restoring(name, o, false)), Boot, table,
      alive, Restoring(name, o, true));
    longer := HoldingGoesOn(s, longer, o, Holding(s, o, table, alive, Restoring(name, o, true)), RestoreReturns(true),
      table, alive, Activating(name, o));
    longer := StoresIt(s, longer, o, name, alive);
    t := RunAll(s, longer).value;
  }

  /** An admitted creation that nothing interrupts is a run of the system, and ends with the slots, the table and the
      reply of `CreateSandbox`. */
  lemma CreateIsARun(s: State, o: nat, name: string, pressure: Pressure, w: CreateWorld)
      returns (schedule: seq<(nat, Event)>, t: State, reply: CreateReply)
    requires Inv(s) && Fresh(s, o) && Admit(s.limiter, 1, pressure).Admitted?
    ensures RunAll(s, schedule) == Some(t) && t.ops == s.ops
    ensures schedule == CreateSteps(o, name, pressure, name in s.table, w)
    ensures CreateOutcome(s.limiter, s.table, t.limiter, t.table, name, o, pressure, w, reply)
  {
    schedule := IsAdmitted(s, o, name, pressure);
    if name in s.table {
      schedule := FindsItTaken(s, schedule, o, name);
      t, reply := s, NameTaken;
    } else {
      assert name in s.alive ==> Hosts(s, name);
      schedule, t := TakesTheName(s, schedule, o, name, w);
      reply := if !w.template then NoTemplate else if w.restored then Created else NotRestored(!w.cleaned);
    }
    assert schedule == CreateSteps(o, name, pressure, name in s.table, w);
  }

  lemma FindsItTaken(s: State, schedule: seq<(nat, Event)>, o: nat, name: string)
      returns (longer: seq<(nat, Event)>)
    requires Fresh(s, o) && o !in s.owner && name in s.table
    requires RunAll(s, schedule) == Some(Holding(s, o, s.table, s.alive, Wanting(name, o)))
    ensures RunAll(s, longer) == Some(s) && longer == schedule + [(o, ReserveName)] + [(o, Fire)]
  {
    longer := HoldingGoesOn(s, schedule, o, Holding(s, o, s.table, s.alive, Wanting(name, o)), ReserveName, s.table,
      s.alive, Releasing(o));
    longer := GivesBack(s, longer, o, s.table, s.alive);
  }

  lemma TakesTheName(s: State, schedule: seq<(nat, Event)>, o: nat, name: string, w: CreateWorld)
      returns (longer: seq<(nat, Event)>, t: State)
    requires Fresh(s, o) && o !in s.owner && name !in s.table && name !in s.alive
    requires RunAll(s, schedule) == Some(Holding(s, o, s.table, s.alive, Wanting(name, o)))
    ensures RunAll(s, longer) == Some(t) && t.ops == s.ops
    ensures longer == schedule + [(o, ReserveName)] + RestoreSteps(o, w)
    ensures
      if w.template && (w.restored || !w.cleaned)
      then t.table == s.table[name := Active(o)] && t.limiter == s.limiter.(used := s.limiter.used + 1)
      else t == s
  {
    longer := HoldingGoesOn(s, schedule, o, Holding(s, o, s.table, s.alive, Wanting(name, o)), ReserveName,
      s.table[name := Busy(o)], s.alive, Reserved(name, o));
    longer, t := RestoreIsARun(s, longer, o, name, w);
  }

  /** So is a removal, whatever the client's RemoveVM answers. */
  lemma RemoveIsARun(s: State, o: nat, name: string, gone: bool)
      returns (schedule: seq<(nat, Event)>, t: State, reply: RemoveReply)
    requires Inv(s) && Fresh(s, o) && !Take(s.table, name, o).InProgress?
    ensures RunAll(s, schedule) == Some(t) && t.ops == s.ops
    ensures schedule == RemoveSteps(o, name, name in s.table, name in s.alive, gone)
    ensures RemoveOutcome(s.limiter, s.table, t.limiter, t.table, name, gone, reply)
  {
    if name !in s.table {
      schedule := UntrackedIsARun(s, o, name, gone);
      t, reply := s, NotTracked(gone);
    } else {
      assert EntryOk(s, name);
      schedule, t := TrackedIsARun(s, o, name, s.table[name].token, gone);
      reply := if gone then Removed else Kept;
    }
  }

  lemma UntrackedIsARun(s: State, o: nat, name: string, gone: bool) returns (schedule: seq<(nat, Event)>)
    requires Fresh(s, o) && name !in s.table
    ensures RunAll(s, schedule) == Some(s)
    ensures schedule == RemoveSteps(o, name, false, name in s.alive, gone)
  {
    var a := s.(ops := s.ops[o := RemovingUntracked(name)]);
    schedule := Then(s, [], s, o, StartRemove(name), a);
    assert s.ops[o := RemovingUntracked(name)] - {o} == s.ops;
    schedule := Then(s, schedule, a, o, RemoveReturns(gone), s);
    assert schedule == RemoveSteps(o, name, false, name in s.alive, gone);
  }

  /** Operation o has taken the entry of a sandbox. */
  ghost function Taking(s: State, o: nat, name: string, token: nat, alive: set<string>, op: Op): State {
    s.(owner := s.owner[token := ByOp(o)], table := s.table[name := Busy(o)], alive := alive, ops := s.ops[o := op])
  }

  lemma TrackedIsARun(s: State, o: nat, name: string, token: nat, gone: bool)
      returns (schedule: seq<(nat, Event)>, t: State)
    requires Fresh(s, o) && name in s.table && s.table[name] == Active(token)
    requires token in s.held && s.held[token] == 1 && token in s.owner && s.owner[token] == ByEntry(name)
    ensures RunAll(s, schedule) == Some(t) && t.ops == s.ops
    ensures schedule == RemoveSteps(o, name, true, name in s.alive, gone)
    ensures
      if gone then t.table == s.table - {name} && t.limiter == s.limiter.(used := s.limiter.used - 1)
      else t == s
  {
    var removing := Taking(s, o, name, token, s.alive, RemovingTracked(name, token));
    schedule := Then(s, [], s, o, StartRemove(name), removing);
    if gone {
      schedule, t := TrackedGoes(s, schedule, o, name, token);
    } else {
      var activating := Taking(s, o, name, token, s.alive, Activating(name, token));
      assert s.ops[o := RemovingTracked(name, token)][o := Activating(name, token)] ==
             s.ops[o := Activating(name, token)];
      schedule := Then(s, schedule, removing, o, RemoveReturns(false), activating);
      assert s.table[name := Busy(o)][name := Active(token)] == s.table;
      assert s.owner[token := ByOp(o)][token := ByEntry(name)] == s.owner;
      assert s.ops[o := Activating(name, token)] - {o} == s.ops;
      schedule := Then(s, schedule, activating, o, Activate, s);
      t := s;
    }
  }

  lemma TrackedGoes(s: State, schedule: seq<(nat, Event)>, o: nat, name: string, token: nat)
      returns (longer: seq<(nat, Event)>, t: State)
    requires Fresh(s, o) && token in s.held && s.held[token] == 1
    requires RunAll(s, schedule) == Some(Taking(s, o, name, token, s.alive, RemovingTracked(name, token)))
    ensures RunAll(s, longer) == Some(t) && t.ops == s.ops
    ensures longer == schedule + (if name in s.alive then [(o, Destroy)] else []) +
      [(o, RemoveReturns(true))] + [(o, Drop)] + [(o, Fire)]
    ensures t.table == s.table - {name} && t.limiter == s.limiter.(used := s.limiter.used - 1)
  {
    longer := schedule;
    var alive := s.alive - {name};
    if name in s.alive {
      longer := Then(s, longer, Taking(s, o, name, token, s.alive, RemovingTracked(name, token)), o, Destroy,
        Taking(s, o, name, token, alive, RemovingTracked(name, token)));
    } else {
      assert alive == s.alive;
    }
    var dropping := Taking(s, o, name, token, alive, Dropping(name, token));
    assert s.ops[o := RemovingTracked(name, token)][o := Dropping(name, token)] == s.ops[o := Dropping(name, token)];
    longer := Then(s, longer, Taking(s, o, name, token, alive, RemovingTracked(name, token)), o, RemoveReturns(true),
      dropping);
    var releasing := s.(owner := s.owner[token := ByOp(o)], table := s.table - {name}, alive := alive,
      ops := s.ops[o := Releasing(token)]);
    assert s.table[name := Busy(o)] - {name} == s.table - {name};
    assert s.ops[o := Dropping(name, token)][o := Releasing(token)] == s.ops[o := Releasing(token)];
    longer := Then(s, longer, dropping, o, Drop, releasing);
    longer, t := LastSlotBack(s, longer, o, token, releasing);
  }

  lemma LastSlotBack(s: State, schedule: seq<(nat, Event)>, o: nat, token: nat, releasing: State)
      returns (longer: seq<(nat, Event)>, t: State)
    requires Fresh(s, o) && token in s.held && s.held[token] == 1 && RunAll(s, schedule) == Some(releasing)
    requires releasing == State(s.limiter, s.held, releasing.owner, releasing.table, releasing.alive,
      s.ops[o := Releasing(token)])
    ensures RunAll(s, longer) == Some(t) && t.ops == s.ops && t.table == releasing.table
    ensures longer == schedule + [(o, Fire)]
    ensures t.limiter == s.limiter.(used := s.limiter.used - 1)
  {
    assert s.ops[o := Releasing(token)] - {o} == s.ops;
    t := Step(releasing, o, Fire);
    longer := Then(s, schedule, releasing, o, Fire, t);
  }

  lemma Then(s: State, schedule: seq<(nat, Event)>, a: State, o: nat, e: Event, b: State)
      returns (longer: seq<(nat, Event)>)
    requires RunAll(s, schedule) == Some(a) && Enabled(a, o, e) && Step(a, o, e) == b
    ensures RunAll(s, longer) == Some(b) && longer == schedule + [(o, e)]
  {
    longer := schedule + [(o, e)];
    assert longer[..|schedule|] == schedule;
  }

  // --- When a sandbox has its VM

  /** Which sandboxes are to have a VM: the active ones, or also those whose restore has booted one and those about
      to become active. */
  datatype Which = OnlyActive | AndStarting

  predicate Starting(op: Op) { op.Activating? || (op.Restoring? && op.booted) }

  predicate Needs(s: State, which: Which, name: string) {
    name in s.table && match s.table[name]
                       case Active(_) => true
                       case Busy(o) => which.AndStarting? && o in s.ops && Starting(s.ops[o])
  }

  ghost predicate AllHaveVMs(s: State, which: Which) { forall n :: Needs(s, which, n) ==> n in s.alive }

  /** A removal that found no entry destroys the VM of a sandbox created meanwhile, or a sandbox comes to be without
      one in another way. Of the active sandboxes that is any activation without a VM; counting the starting ones
      too, its cause: a RemoveVM, of a failed restore or a tracked removal, that errors with no VM left. */
  predicate Loses(s: State, which: Which, o: nat, e: Event) {
    o in s.ops && match e
                  case Destroy => s.ops[o].RemovingUntracked? && Needs(s, which, s.ops[o].name)
                  case Activate => which.OnlyActive? && s.ops[o].Activating? && s.ops[o].name !in s.alive
                  case RemoveReturns(ok) => which.AndStarting? && !ok &&
                    (s.ops[o].CleaningUp? || s.ops[o].RemovingTracked?) && s.ops[o].name !in s.alive
                  case _ => false
  }

  lemma KeepsVM(s: State, which: Which, o: nat, e: Event, n: string)
    requires Inv(s) && Enabled(s, o, e) && !Loses(s, which, o, e) && (Needs(s, which, n) ==> n in s.alive)
    ensures Needs(Step(s, o, e), which, n) ==> n in Step(s, o, e).alive
  {
    if MovesTable(e) { KeepsVMMoved(s, which, o, e, n); } else { KeepsVMInPlace(s, which, o, e, n); }
  }

  lemma KeepsVMMoved(s: State, which: Which, o: nat, e: Event, n: string)
    requires Inv(s) && Enabled(s, o, e) && MovesTable(e) && !Loses(s, which, o, e)
    requires Needs(s, which, n) ==> n in s.alive
    ensures Needs(Step(s, o, e), which, n) ==> n in Step(s, o, e).alive
  {
    if n in s.table { assert EntryOk(s, n); }
    if o in s.ops { assert OpOk(s, o); }
    if e.StartRemove? && e.name in s.table { assert EntryOk(s, e.name); }
  }

  lemma KeepsVMInPlace(s: State, which: Which, o: nat, e: Event, n: string)
    requires Inv(s) && Enabled(s, o, e) && !MovesTable(e) && !Loses(s, which, o, e)
    requires Needs(s, which, n) ==> n in s.alive
    ensures Needs(Step(s, o, e), which, n) ==> n in Step(s, o, e).alive
  {
    if n in s.table { assert EntryOk(s, n); }
    if o in s.ops { assert OpOk(s, o); }
  }

  /** Sandboxes keep having their VMs exactly through the steps that lose none. */
  lemma HaveVMsUnlessLost(s: State, which: Which, o: nat, e: Event)
    requires Inv(s) && AllHaveVMs(s, which) && Enabled(s, o, e)
    ensures AllHaveVMs(Step(s, o, e), which) <==> !Loses(s, which, o, e)
  {
    if Loses(s, which, o, e) {
      LostVM(s, which, o, e);
    } else {
      forall n | Needs(Step(s, o, e), which, n) ensures n in Step(s, o, e).alive { KeepsVM(s, which, o, e, n); }
    }
  }

  lemma LostVM(s: State, which: Which, o: nat, e: Event)
    requires Inv(s) && Enabled(s, o, e) && Loses(s, which, o, e)
    ensures Needs(Step(s, o, e), which, s.ops[o].name) && s.ops[o].name !in Step(s, o, e).alive
  {
    assert OpOk(s, o);
    if e.Destroy? { assert EntryOk(s, s.ops[o].name); }
  }

  ghost predicate LostAt(s: State, which: Which, schedule: seq<(nat, Event)>, i: nat) {
    i < |schedule| && RunAll(s, schedule[..i]).Some? &&
      Loses(RunAll(s, schedule[..i]).value, which, schedule[i].0, schedule[i].1)
  }

  ghost predicate HaveVMsAt(s: State, which: Which, schedule: seq<(nat, Event)>, i: nat) {
    i <= |schedule| && RunAll(s, schedule[..i]).Some? && AllHaveVMs(RunAll(s, schedule[..i]).value, which)
  }

  lemma RunsThrough(s: State, schedule: seq<(nat, Event)>, i: nat)
    requires RunAll(s, schedule).Some? && i < |schedule|
    ensures RunAll(s, schedule[..i]).Some? && RunAll(s, schedule[..i + 1]).Some?
    ensures
      var before := RunAll(s, schedule[..i]).value;
      && Enabled(before, schedule[i].0, schedule[i].1)
      && RunAll(s, schedule[..i + 1]).value == Step(before, schedule[i].0, schedule[i].1)
    decreases |schedule|
  {
    var n := |schedule| - 1;
    if i < n {
      RunsThrough(s, schedule[..n], i);
      assert schedule[..n][..i] == schedule[..i] && schedule[..n][..i + 1] == schedule[..i + 1];
    } else {
      assert schedule[..i + 1] == schedule && schedule[..n] == schedule[..i];
    }
  }

  lemma HaveVMsOnward(s: State, which: Which, schedule: seq<(nat, Event)>, i: nat)
    requires Init(s) && RunAll(s, schedule).Some? && i < |schedule| && HaveVMsAt(s, which, schedule, i)
    ensures HaveVMsAt(s, which, schedule, i + 1) <==> !LostAt(s, which, schedule, i)
  {
    RunsThrough(s, schedule, i);
    InvAlways(s, schedule[..i]);
    HaveVMsUnlessLost(RunAll(s, schedule[..i]).value, which, schedule[i].0, schedule[i].1);
  }

  lemma {:induction false} HaveVMsUntil(s: State, which: Which, schedule: seq<(nat, Event)>, i: nat)
    requires Init(s) && RunAll(s, schedule).Some? && i <= |schedule|
    requires forall j: nat :: j < i ==> !LostAt(s, which, schedule, j)
    ensures HaveVMsAt(s, which, schedule, i)
  {
    if i == 0 {
      assert schedule[..0] == [];
    } else {
      HaveVMsUntil(s, which, schedule, i - 1);
      HaveVMsOnward(s, which, schedule, i - 1);
    }
  }

  /** All through a run every active sandbox has its VM exactly when no untracked removal destroys the VM of an
      active one and none is activated without one; and the starting sandboxes too have theirs exactly when no
      untracked removal destroys the VM of an active or starting one and no RemoveVM of a failed restore or of a
      tracked removal returns an error with no VM left. */
  lemma SandboxesHaveVMs(s: State, which: Which, schedule: seq<(nat, Event)>)
    requires Init(s) && RunAll(s, schedule).Some?
    ensures (forall i: nat :: i <= |schedule| ==> HaveVMsAt(s, which, schedule, i)) <==>
            (forall i: nat :: i < |schedule| ==> !LostAt(s, which, schedule, i))
  {
    if forall i: nat :: i <= |schedule| ==> HaveVMsAt(s, which, schedule, i) {
      forall i: nat | i < |schedule| ensures !LostAt(s, which, schedule, i) {
        assert HaveVMsAt(s, which, schedule, i) && HaveVMsAt(s, which, schedule, i + 1);
        HaveVMsOnward(s, which, schedule, i);
      }
    }
    if forall i: nat :: i < |schedule| ==> !LostAt(s, which, schedule, i) {
      forall i: nat | i <= |schedule| ensures HaveVMsAt(s, which, schedule, i) { HaveVMsUntil(s, which, schedule, i); }
    }
  }

  // --- Three concrete runs to an entry that keeps a slot which no VM uses

  ghost const ONE_SLOT: State := Beside(map[])

  /** Nothing created yet. */
  ghost function Beside(others: map<nat, Op>): State { State(Limiter(1, 0), map[], map[], map[], {}, others) }

  /** The one slot is taken by operation 2. */
  ghost function Creating(name: string, alive: set<string>, op: Op, others: map<nat, Op>): State {
    State(Limiter(1, 1), map[2 := 1], map[2 := ByOp(2)], map[name := Busy(2)], alive, others[2 := op])
  }

  ghost function Stored(name: string, alive: set<string>, others: map<nat, Op>): State {
    State(Limiter(1, 1), map[2 := 1], map[2 := ByEntry(name)], map[name := Active(2)], alive, others)
  }

  /** The slot is an entry's, and there is no VM. */
  ghost predicate Wasted(name: string, schedule: seq<(nat, Event)>, t: State) {
    && Init(ONE_SLOT) && RunAll(ONE_SLOT, schedule) == Some(t)
    && t.ops == map[] && t.table == map[name := Active(2)] && t.alive == {} && t.limiter.Available() == 0
  }

  /** A removal that found no entry destroys the VM of a sandbox created meanwhile. */
  lemma UntrackedRemovalWastesSlot(name: string) returns (schedule: seq<(nat, Event)>, t: State)
    ensures Wasted(name, schedule, t)
  {
    var others := map[1 := RemovingUntracked(name)];
    StartsUntracked(name);
    schedule := Then(ONE_SLOT, [], ONE_SLOT, 1, StartRemove(name), Beside(others));
    schedule := Sandbox(name, schedule, others);
    DestroysUntracked(name);
    schedule := Then(ONE_SLOT, schedule, Stored(name, {name}, others), 1, Destroy, Stored(name, {}, others));
    schedule := Then(ONE_SLOT, schedule, Stored(name, {}, others), 1, RemoveReturns(true), Stored(name, {}, map[]));
    t := Stored(name, {}, map[]);
  }

  lemma StartsUntracked(name: string)
    ensures Enabled(ONE_SLOT, 1, StartRemove(name))
    ensures Step(ONE_SLOT, 1, StartRemove(name)) == Beside(map[1 := RemovingUntracked(name)])
  {
  }

  lemma DestroysUntracked(name: string)
    ensures
      var others := map[1 := RemovingUntracked(name)];
      var s, t := Stored(name, {name}, others), Stored(name, {}, others);
      && Enabled(s, 1, Destroy) && Step(s, 1, Destroy) == t
      && Enabled(t, 1, RemoveReturns(true)) && Step(t, 1, RemoveReturns(true)) == Stored(name, {}, map[])
  {
    assert map[1 := RemovingUntracked(name)] - {1} == map[];
    assert {name} - {name} == {};
  }

  /** A restore fails without leaving a VM, and the RemoveVM that cleans up returns an error. */
  lemma FailedRestoreWastesSlot(name: string) returns (schedule: seq<(nat, Event)>, t: State)
    ensures Wasted(name, schedule, t)
  {
    schedule := Restore(name, [], map[]);
    schedule := Onward(name, schedule, {}, {}, Restoring(name, 2, false), CleaningUp(name, 2, false), map[],
                       RestoreReturns(false));
    schedule := Onward(name, schedule, {}, {}, CleaningUp(name, 2, false), Activating(name, 2), map[],
                       RemoveReturns(false));
    schedule := Store(name, schedule, {}, map[]);
    t := Stored(name, {}, map[]);
  }

  /** A tracked removal destroys the VM, and RemoveVM still returns an error. */
  lemma ErroredRemovalWastesSlot(name: string) returns (schedule: seq<(nat, Event)>, t: State)
    ensures Wasted(name, schedule, t)
  {
    schedule := Sandbox(name, [], map[]);
    StartsTracked(name);
    ErrsWithoutVM(name);
    var tracked := RemovingTracked(name, 2);
    schedule := Then(ONE_SLOT, schedule, Stored(name, {name}, map[]), 3, StartRemove(name),
                     Removing(name, {name}, tracked));
    schedule := Then(ONE_SLOT, schedule, Removing(name, {name}, tracked), 3, Destroy, Removing(name, {}, tracked));
    schedule := Then(ONE_SLOT, schedule, Removing(name, {}, tracked), 3, RemoveReturns(false),
                     Removing(name, {}, Activating(name, 2)));
    schedule := Then(ONE_SLOT, schedule, Removing(name, {}, Activating(name, 2)), 3, Activate, Stored(name, {}, map[]));
    t := Stored(name, {}, map[]);
  }

  /** Operation 3 has taken the entry. */
  ghost function Removing(name: string, alive: set<string>, op: Op): State {
    State(Limiter(1, 1), map[2 := 1], map[2 := ByOp(3)], map[name := Busy(3)], alive, map[3 := op])
  }

  lemma StartsTracked(name: string)
    ensures
      var s := Stored(name, {name}, map[]);
      && Enabled(s, 3, StartRemove(name))
      && Step(s, 3, StartRemove(name)) == Removing(name, {name}, RemovingTracked(name, 2))
  {
    assert map[name := Active(2)][name := Busy(3)] == map[name := Busy(3)];
    assert map[2 := ByEntry(name)][2 := ByOp(3)] == map[2 := ByOp(3)];
  }

  lemma ErrsWithoutVM(name: string)
    ensures
      var s, t := Removing(name, {name}, RemovingTracked(name, 2)), Removing(name, {}, RemovingTracked(name, 2));
      var u := Removing(name, {}, Activating(name, 2));
      && Enabled(s, 3, Destroy) && Step(s, 3, Destroy) == t
      && Enabled(t, 3, RemoveReturns(false)) && Step(t, 3, RemoveReturns(false)) == u
      && Enabled(u, 3, Activate) && Step(u, 3, Activate) == Stored(name, {}, map[])
  {
    assert {name} - {name} == {};
    assert map[3 := RemovingTracked(name, 2)][3 := Activating(name, 2)] == map[3 := Activating(name, 2)];
    assert map[name := Busy(3)][name := Active(2)] == map[name := Active(2)];
    assert map[2 := ByOp(3)][2 := ByEntry(name)] == map[2 := ByEntry(name)];
    assert map[3 := Activating(name, 2)] - {3} == map[];
  }

  /** One step of the creation. */
  lemma Onward(name: string, schedule: seq<(nat, Event)>, alive: set<string>, alive': set<string>, op: Op, op': Op,
      others: map<nat, Op>, e: Event) returns (longer: seq<(nat, Event)>)
    requires RunAll(ONE_SLOT, schedule) == Some(Creating(name, alive, op, others))
    requires Enabled(Creating(name, alive, op, others), 2, e)
    requires Step(Creating(name, alive, op, others), 2, e) ==
      Creating(name, alive, op, others).(alive := alive', ops := others[2 := op][2 := op'])
    ensures RunAll(ONE_SLOT, longer) == Some(Creating(name, alive', op', others))
  {
    assert others[2 := op][2 := op'] == others[2 := op'];
    longer := Then(ONE_SLOT, schedule, Creating(name, alive, op, others), 2, e, Creating(name, alive', op', others));
  }

  lemma Restore(name: string, schedule: seq<(nat, Event)>, others: map<nat, Op>)
      returns (longer: seq<(nat, Event)>)
    requires RunAll(ONE_SLOT, schedule) == Some(Beside(others)) && 2 !in others
    ensures RunAll(ONE_SLOT, longer) == Some(Creating(name, {}, Restoring(name, 2, false), others))
  {
    var create := StartCreate(name, Pressure(Normal, Normal));
    Wants(name, others);
    Reserves(name, others);
    longer := Then(ONE_SLOT, schedule, Beside(others), 2, create, WantingState(name, others));
    longer := Then(ONE_SLOT, longer, WantingState(name, others), 2, ReserveName,
                   Creating(name, {}, Reserved(name, 2), others));
    longer := Onward(name, longer, {}, {}, Reserved(name, 2), Restoring(name, 2, false), others, TemplateReturns(true));
  }

  ghost function WantingState(name: string, others: map<nat, Op>): State {
    State(Limiter(1, 1), map[2 := 1], map[2 := ByOp(2)], map[], {}, others[2 := Wanting(name, 2)])
  }

  lemma Wants(name: string, others: map<nat, Op>)
    requires 2 !in others
    ensures
      var create := StartCreate(name, Pressure(Normal, Normal));
      Enabled(Beside(others), 2, create) && Step(Beside(others), 2, create) == WantingState(name, others)
  {
  }

  lemma Reserves(name: string, others: map<nat, Op>)
    requires 2 !in others
    ensures
      && Enabled(WantingState(name, others), 2, ReserveName)
      && Step(WantingState(name, others), 2, ReserveName) == Creating(name, {}, Reserved(name, 2), others)
  {
    assert others[2 := Wanting(name, 2)][2 := Reserved(name, 2)] == others[2 := Reserved(name, 2)];
  }

  lemma Store(name: string, schedule: seq<(nat, Event)>, alive: set<string>, others: map<nat, Op>)
      returns (longer: seq<(nat, Event)>)
    requires RunAll(ONE_SLOT, schedule) == Some(Creating(name, alive, Activating(name, 2), others)) && 2 !in others
    ensures RunAll(ONE_SLOT, longer) == Some(Stored(name, alive, others))
  {
    assert others[2 := Activating(name, 2)] - {2} == others;
    assert map[name := Busy(2)][name := Active(2)] == map[name := Active(2)];
    assert map[2 := ByOp(2)][2 := ByEntry(name)] == map[2 := ByEntry(name)];
    longer := Then(ONE_SLOT, schedule, Creating(name, alive, Activating(name, 2), others), 2, Activate,
                   Stored(name, alive, others));
  }

  /** A sandbox is created with its VM. */
  lemma Sandbox(name: string, schedule: seq<(nat, Event)>, others: map<nat, Op>)
      returns (longer: seq<(nat, Event)>)
    requires RunAll(ONE_SLOT, schedule) == Some(Beside(others)) && 2 !in others
    ensures RunAll(ONE_SLOT, longer) == Some(Stored(name, {name}, others))
  {
    longer := Restore(name, schedule, others);
    longer := Onward(name, longer, {}, {name}, Restoring(name, 2, false), Restoring(name, 2, true), others, Boot);
    longer := Onward(name, longer, {name}, {name}, Restoring(name, 2, true), Activating(name, 2), others,
                     RestoreReturns(true));
    longer := Store(name, longer, {name}, others);
  }
}
