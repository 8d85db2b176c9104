/** Execution slots, admission and the sandbox table: each mutex-protected block of the runner as one method,
    proved against the function of the state that the interleaved machine in Lifecycle steps with. */
module Slots {
  import opened Text
  import opened Contracts

  datatype Limiter = Limiter(total: int, used: int) {
    function Available(): int { total - used }
  }

  function TryAcquire(l: Limiter, n: int): Option<Limiter> {
    if n < 1 || l.total - l.used < n then None else Some(l.(used := l.used + n))
  }

  datatype Refusal = InvalidLease | InvalidPressure | UnsafePressure | Oversubscribed

  datatype Admission = Refused(why: Refusal) | Admitted(limiter: Limiter)

  /** `AdmitShard`; `admitOne` is the same with a count of one. */
  function Admit(l: Limiter, count: int, pressure: Pressure): Admission {
    if count < 1 then Refused(InvalidLease)
    else if !pressure.Valid() then Refused(InvalidPressure)
    else if pressure.IsCritical() then Refused(UnsafePressure)
    else if TryAcquire(l, count).None? then Refused(Oversubscribed)
    else Admitted(TryAcquire(l, count).value)
  }

  /** Nothing is admitted that would oversubscribe the agent, and each refusal means exactly one thing: no slots asked
      for, a pressure that is not known, a critical pressure, or, when none of these, too few free slots. */
  lemma AdmitMeansCapacity(l: Limiter, count: int, pressure: Pressure)
    ensures Admit(l, count, pressure) == Refused(InvalidLease) <==> count < 1
    ensures Admit(l, count, pressure) == Refused(InvalidPressure) <==>
      count >= 1 && (pressure.disk.Unsupported? || pressure.memory.Unsupported?)
    ensures Admit(l, count, pressure) == Refused(UnsafePressure) <==>
      && count >= 1 && !pressure.disk.Unsupported? && !pressure.memory.Unsupported?
      && (pressure.disk.Critical? || pressure.memory.Critical?)
    ensures Admit(l, count, pressure).Admitted? <==>
            count >= 1 && pressure.Valid() && !pressure.IsCritical() && count <= l.Available()
    ensures Admit(l, count, pressure) == Refused(Oversubscribed) <==>
            count >= 1 && pressure.Valid() && !pressure.IsCritical() && count > l.Available()
    ensures Admit(l, count, pressure).Admitted? ==>
      Admit(l, count, pressure).limiter.Available() == l.Available() - count
  {
  }

  class SlotLimiter {
    const total: int
    var used: int

    constructor (total: int)
      requires total >= 1
      ensures this.total == total && used == 0
    {
      this.total := total;
      used := 0;
    }

    function View(): Limiter
      reads this
    {
      Limiter(total, used)
    }

    /** On success the reservation is returned as the object whose `Release` gives it back. */
    method TryAcquireSlots(n: int) returns (release: Reservation?)
      modifies this
      ensures release == null <==> TryAcquire(old(View()), n).None?
      ensures View() == if release == null then old(View()) else TryAcquire(old(View()), n).value
      ensures release != null ==> fresh(release) && release.limiter == this && release.n == n && !release.fired
    {
      if n < 1 {
        return null;
      }
      if total - used < n {
        return null;
      }
      used := used + n;
      release := new Reservation(this, n);
    }

    method AdmitShard(count: int, pressure: Pressure) returns (refusal: Option<Refusal>, release: Reservation?)
      modifies this
      ensures
        match Admit(old(View()), count, pressure)
        case Refused(why) => refusal == Some(why) && release == null && View() == old(View())
        case Admitted(l) => refusal.None? && release != null && View() == l
      ensures release != null ==> fresh(release) && release.limiter == this && release.n == count && !release.fired
    {
      if count < 1 {
        return Some(InvalidLease), null;
      }
      if pressure.disk.Unsupported? || pressure.memory.Unsupported? {
        return Some(InvalidPressure), null;
      }
      if pressure.disk.Critical? || pressure.memory.Critical? {
        return Some(UnsafePressure), null;
      }
      release := TryAcquireSlots(count);
      if release == null {
        return Some(Oversubscribed), null;
      }
      return None, release;
    }
  }

  /** The closure `TryAcquire` returns, with its `sync.Once`. */
  class Reservation {
    const limiter: SlotLimiter
    const n: int
    var fired: bool

    constructor (limiter: SlotLimiter, n: int)
      ensures this.limiter == limiter && this.n == n && !fired
    {
      this.limiter := limiter;
      this.n := n;
      fired := false;
    }

    method Release()
      modifies this, limiter
      ensures fired
      ensures limiter.used == old(limiter.used) - if old(fired) then 0 else n
    {
      if !fired {
        fired := true;
        limiter.used := limiter.used - n;
      }
    }
  }

  /** Calling a release twice gives the slots back once. */
  method ReleaseTwice(r: Reservation)
    modifies r, r.limiter
    ensures r.limiter.used == old(r.limiter.used) - if old(r.fired) then 0 else r.n
  {
    r.Release();
    r.Release();
  }

  /** A table entry holds the release of an active sandbox, or nothing while one operation owns the name.
      `holder` names that operation for the proofs; no block reads it. */
  datatype Entry = Busy(holder: nat) | Active(token: nat)

  type Table = map<string, Entry>

  function Reserve(t: Table, name: string, holder: nat): Option<Table> {
    if name in t then None else Some(t[name := Busy(holder)])
  }

  datatype Taken = Untracked | InProgress | Took(token: nat, table: Table)

  /** `sandboxRelease` */
  function Take(t: Table, name: string, holder: nat): Taken {
    if name !in t then Untracked
    else if t[name].Busy? then InProgress
    else Took(t[name].token, t[name := Busy(holder)])
  }

  /** A name reserved and activated is handed out once: its removal gets exactly the release that was stored, a
      second removal and a second creation find the name taken, and clearing it restores the table. */
  lemma SandboxRoundTrip(t: Table, name: string, creator: nat, token: nat, remover: nat, other: nat)
    requires name !in t
    ensures Reserve(t, name, creator).Some?
    ensures
      var reserved := Reserve(t, name, creator).value;
      var active := reserved[name := Active(token)];
      && Take(reserved, name, other).InProgress? && Reserve(active, name, other).None?
      && Take(active, name, remover).Took? && Take(active, name, remover).token == token
      && var taken := Take(active, name, remover).table;
         && Take(taken, name, other).InProgress? && Reserve(taken, name, other).None?
         && taken - {name} == t && reserved - {name} == t
  {
  }

  datatype Readiness = Ready | NotOwned | InUse

  class SandboxTable {
    var entries: Table

    constructor ()
      ensures entries == map[]
    {
      entries := map[];
    }

    method ReserveSandbox(name: string, holder: nat) returns (ok: bool)
      modifies this
      ensures ok <==> Reserve(old(entries), name, holder).Some?
      ensures entries == if ok then Reserve(old(entries), name, holder).value else old(entries)
    {
      if name in entries {
        return false;
      }
      entries := entries[name := Busy(holder)];
      return true;
    }

    method ClearSandboxReservation(name: string)
      modifies this
      ensures entries == old(entries) - {name}
    {
      entries := entries - {name};
    }

    method ActivateSandbox(name: string, token: nat)
      modifies this
      ensures entries == old(entries)[name := Active(token)]
    {
      entries := entries[name := Active(token)];
    }

    method SandboxReady(name: string) returns (r: Readiness)
      ensures r.NotOwned? <==> name !in entries
      ensures r.Ready? <==> name in entries && entries[name].Active?
    {
      if name !in entries {
        return NotOwned;
      }
      if entries[name].Busy? {
        return InUse;
      }
      return Ready;
    }

    method SandboxRelease(name: string, holder: nat) returns (r: Taken)
      modifies this
      ensures r == Take(old(entries), name, holder)
      ensures entries == if r.Took? then r.table else old(entries)
    {
      if name !in entries {
        return Untracked;
      }
      match entries[name]
      case Busy(_) => return InProgress;
      case Active(token) =>
        entries := entries[name := Busy(holder)];
        return Took(token, entries);
    }
  }

  // --- Creating and removing a sandbox, uninterrupted

  /** How ensuring the template, the restore and the removal after a failed restore go. */
  datatype CreateWorld = CreateWorld(template: bool, restored: bool, cleaned: bool)

  datatype CreateReply = NotAdmitted(why: Refusal) | NameTaken | NoTemplate | NotRestored(kept: bool) | Created

  /** The reply, and what it means for the slots and the table. */
  ghost predicate CreateOutcome(l: Limiter, t: Table, l': Limiter, t': Table, name: string, token: nat,
      pressure: Pressure, w: CreateWorld, reply: CreateReply) {
    var admission := Admit(l, 1, pressure);
    && (reply.NotAdmitted? <==> admission.Refused?)
    && (admission.Refused? ==> reply == NotAdmitted(admission.why))
    && (reply.NameTaken? <==> admission.Admitted? && name in t)
    && (reply.NoTemplate? <==> admission.Admitted? && name !in t && !w.template)
    && (reply.NotRestored? <==> admission.Admitted? && name !in t && w.template && !w.restored)
    && (reply.NotRestored? ==> reply.kept == !w.cleaned)
    && (reply.Created? <==> admission.Admitted? && name !in t && w.template && w.restored)
    && if reply.Created? || reply == NotRestored(true)
       then t' == t[name := Active(token)] && l' == l.(used := l.used + 1)
       else t' == t && l' == l
  }

  datatype RemoveReply = InProgressElsewhere | Kept | Removed | NotTracked(ok: bool)

  ghost predicate RemoveOutcome(l: Limiter, t: Table, l': Limiter, t': Table, name: string, gone: bool,
      reply: RemoveReply) {
    && (reply.NotTracked? <==> name !in t) && (reply.NotTracked? ==> reply.ok == gone)
    && (reply.InProgressElsewhere? <==> name in t && t[name].Busy?)
    && (reply.Removed? <==> name in t && t[name].Active? && gone)
    && (reply.Kept? <==> name in t && t[name].Active? && !gone)
    && if reply.Removed? then t' == t - {name} && l' == l.(used := l.used - 1) else t' == t && l' == l
  }

  /** The runner's slots and sandboxes. A stored release is the reservation that the entry's token names. */
  class Sandboxes {
    const slots: SlotLimiter
    const table: SandboxTable
    var releases: map<nat, Reservation>

    constructor (slots: SlotLimiter, table: SandboxTable)
      ensures this.slots == slots && this.table == table && releases == map[]
    {
      this.slots, this.table, releases := slots, table, map[];
    }

    /** Every active entry holds a release of its own that has not been fired. */
    ghost predicate Valid()
      reads this, table, releases.Values
    {
      && (forall n :: n in table.entries && table.entries[n].Active? ==> table.entries[n].token in releases)
      && (forall m, n :: m in table.entries && n in table.entries && m != n && table.entries[m].Active? ==>
            table.entries[m] != table.entries[n])
      && (forall t :: t in releases ==> releases[t].limiter == slots && releases[t].n == 1 && !releases[t].fired)
      && (forall t, u :: t in releases && u in releases && releases[t] == releases[u] ==> t == u)
    }

    method CreateSandbox(name: string, pressure: Pressure, w: CreateWorld, token: nat) returns (reply: CreateReply)
      requires Valid() && token !in releases
      modifies this, slots, table
      ensures Valid()
      ensures CreateOutcome(
        old(slots.View()), old(table.entries), slots.View(), table.entries, name, token, pressure, w, reply)
      ensures releases == if token in releases then old(releases)[token := releases[token]] else old(releases)
      ensures token in releases <==> reply.Created? || reply == NotRestored(true)
      ensures token in releases ==> fresh(releases[token])
    {
      var refusal, release := slots.AdmitShard(1, pressure);
      if refusal.Some? {
        return NotAdmitted(refusal.value);
      }
      var reserved := table.ReserveSandbox(name, token);
      if !reserved {
        release.Release();
        return NameTaken;
      }
      ghost var before := old(table.entries);
      assert table.entries - {name} == before;
      reply := if !w.template then NoTemplate else if w.restored then Created else NotRestored(!w.cleaned);
      EndCreation(name, token, release, reply.Created? || reply == NotRestored(true));
    }

    /** The reservation is kept for the active sandbox, or given back with the name. */
    method EndCreation(name: string, token: nat, release: Reservation, keepReservation: bool)
      requires token !in releases && release.limiter == slots && release.n == 1 && !release.fired
      requires release !in releases.Values && name in table.entries && table.entries[name] == Busy(token)
      requires Valid()
      modifies this, table, release, slots
      ensures Valid()
      ensures table.entries == if keepReservation then old(table.entries)[name := Active(token)]
        else old(table.entries) - {name}
      ensures slots.used == old(slots.used) - if keepReservation then 0 else 1
      ensures releases == if keepReservation then old(releases)[token := release] else old(releases)
    {
      if keepReservation {
        table.ActivateSandbox(name, token);
        releases := releases[token := release];
      } else {
        table.ClearSandboxReservation(name);
        release.Release();
      }
    }

    /** `gone` is whether the client's RemoveVM succeeds. */
    method RemoveSandbox(name: string, gone: bool, holder: nat) returns (reply: RemoveReply)
      requires Valid()
      modifies this, slots, table, releases.Values
      ensures Valid()
      ensures RemoveOutcome(old(slots.View()), old(table.entries), slots.View(), table.entries, name, gone, reply)
      ensures forall t :: t in releases ==> t in old(releases) && releases[t] == old(releases)[t]
    {
      ghost var before := table.entries;
      var taken := table.SandboxRelease(name, holder);
      match taken
      case Untracked => return NotTracked(gone);
      case InProgress => return InProgressElsewhere;
      case Took(token, _) =>
        if !gone {
          table.ActivateSandbox(name, token);
          assert table.entries == before;
          return Kept;
        }
        table.ClearSandboxReservation(name);
        assert table.entries == before - {name};
        var release := releases[token];
        releases := releases - {token};
        release.Release();
        return Removed;
    }
  }

  /** A sandbox that is created and then removed leaves the slots and the table as they were. */
  method CreateThenRemove(s: Sandboxes, name: string, pressure: Pressure, token: nat, holder: nat)
      returns (created: CreateReply, removed: RemoveReply)
    requires s.Valid() && token !in s.releases
    modifies s, s.slots, s.table, s.releases.Values
    ensures s.Valid()
    ensures created.Created? ==> removed.Removed? && s.slots.View() == old(s.slots.View())
    ensures created.Created? ==> s.table.entries == old(s.table.entries)
  {
    created := s.CreateSandbox(name, pressure, CreateWorld(true, true, true), token);
    ghost var before := old(s.table.entries);
    if created.Created? {
      removed := s.RemoveSandbox(name, true, holder);
      assert before[name := Active(token)] - {name} == before;
    } else {
      removed := NotTracked(true);
    }
  }
}
