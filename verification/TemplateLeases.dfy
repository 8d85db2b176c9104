/** Every run of ensures, lease releases, reconcile passes, leftover builds and restarts over one work root. */
module TemplateLeases {
  import opened Text
  import opened Contracts
  import opened Templates
  import opened TemplateCache

  /** `leases` is ghost bookkeeping: the key each outstanding lease was asked for. */
  datatype State = State(backend: string, entries: Entries, uses: Uses, leases: map<nat, Key>)

  datatype Event =
    | Ensure(lease: nat, image: string, memory: string, identity: Option<Identity>, build: Build)
    | Release(lease: nat)
    | Reconcile(retain: nat, identity: Option<Identity>, outcome: string -> Removal)
    | LeaveBuild(name: string, entry: Entry)
    | Restart(backend: string, after: Entries)

  /** The hash is taken to be free of collisions on the keys a run asks for. */
  ghost predicate CollisionFree(nameOf: Key -> string, keys: set<Key>) {
    && (forall k :: k in keys ==> HashNamed(nameOf(k)))
    && (forall j, k :: j in keys && k in keys && nameOf(j) == nameOf(k) ==> j == k)
  }

  /** What may be left of an entry when the agent stopped somewhere inside its removal. */
  predicate LeftOf(before: Entry, after: Entry) {
    after == before || after == before.(manifest := false) || after == PartlyCleared(before, true)
  }

  function KeyOf(s: State, e: Event): Key
    requires e.Ensure? && e.identity.Some?
  {
    Key(e.image, e.memory, s.backend, e.identity.value)
  }

  ghost predicate Enabled(s: State, e: Event, keys: set<Key>) {
    match e
    case Ensure(lease, _, _, identity, _) => lease !in s.leases && (identity.Some? ==> KeyOf(s, e) in keys)
    case Release(lease) => lease in s.leases
    case Reconcile(_, _, _) => true
    case LeaveBuild(name, _) => BuildNamed(name) && name !in s.entries
    case Restart(_, after) => forall n :: n in after && HashNamed(n) ==>
      n in s.entries && LeftOf(s.entries[n], after[n])
  }

  function Step(s: State, e: Event, nameOf: Key -> string): State {
    match e
    case Ensure(lease, _, _, identity, build) =>
      if identity.None? then s
      else
        var key := KeyOf(s, e);
        var (entries, reply) := EnsureEntry(s.entries, nameOf(key), key, build);
        if reply.NoTemplate? then s.(entries := entries)
        else State(s.backend, entries, AddUse(s.uses, nameOf(key)), s.leases[lease := key])
    case Release(lease) =>
      if lease in s.leases then s.(uses := DropUse(s.uses, nameOf(s.leases[lease])), leases := s.leases - {lease})
        else s
    case Reconcile(retain, identity, outcome) =>
      s.(entries := Reconciled(Pass(s.entries, s.uses, s.backend, retain, identity, outcome)))
    case LeaveBuild(name, entry) => s.(entries := s.entries[name := entry])
    case Restart(backend, after) => State(backend, after, map[], map[])
  }

  function LeasesOf(leases: map<nat, Key>, nameOf: Key -> string, n: string): set<nat> {
    set l | l in leases && nameOf(leases[l]) == n
  }

  function UsesOf(uses: Uses, n: string): nat { if n in uses then uses[n] else 0 }

  ghost predicate CountsLeases(s: State, nameOf: Key -> string) {
    forall n: string :: UsesOf(s.uses, n) == |LeasesOf(s.leases, nameOf, n)|
  }

  /** A hash-named directory with a manifest holds the metadata of the key it is named after. */
  predicate Labelled(n: string, e: Entry, nameOf: Key -> string, keys: set<Key>) {
    HashNamed(n) ==>
      && (e.manifest ==> e.metadata.Stored?)
      && (e.metadata.Stored? ==> e.metadata.key in keys && nameOf(e.metadata.key) == n)
  }

  /** The template a lease points at is published, complete, and captured under the very key asked for. */
  predicate Served(entries: Entries, key: Key, nameOf: Key -> string) {
    nameOf(key) in entries && entries[nameOf(key)].manifest && entries[nameOf(key)].metadata == Stored(key)
  }

  ghost predicate Inv(s: State, nameOf: Key -> string, keys: set<Key>) {
    && CountsLeases(s, nameOf)
    && (forall l :: l in s.leases ==> s.leases[l] in keys && Served(s.entries, s.leases[l], nameOf))
    && (forall n :: n in s.entries ==> Labelled(n, s.entries[n], nameOf, keys))
  }

  lemma LeasedIsInUse(s: State, nameOf: Key -> string, l: nat)
    requires CountsLeases(s, nameOf) && l in s.leases
    ensures InUse(s.uses, nameOf(s.leases[l]))
  {
    assert l in LeasesOf(s.leases, nameOf, nameOf(s.leases[l]));
    assert UsesOf(s.uses, nameOf(s.leases[l])) == |LeasesOf(s.leases, nameOf, nameOf(s.leases[l]))|;
  }

  lemma CountsAdded(s: State, nameOf: Key -> string, l: nat, key: Key)
    requires CountsLeases(s, nameOf) && l !in s.leases
    ensures CountsLeases(s.(uses := AddUse(s.uses, nameOf(key)), leases := s.leases[l := key]), nameOf)
  {
    forall n: string ensures UsesOf(AddUse(s.uses, nameOf(key)), n) == |LeasesOf(s.leases[l := key], nameOf, n)| {
      assert UsesOf(s.uses, n) == |LeasesOf(s.leases, nameOf, n)|;
      assert LeasesOf(s.leases[l := key], nameOf, n) == LeasesOf(s.leases, nameOf, n) + if nameOf(key) == n then {l}
        else {};
    }
  }

  lemma CountsDropped(s: State, nameOf: Key -> string, l: nat)
    requires CountsLeases(s, nameOf) && l in s.leases
    ensures CountsLeases(s.(uses := DropUse(s.uses, nameOf(s.leases[l])), leases := s.leases - {l}), nameOf)
  {
    var name := nameOf(s.leases[l]);
    LeasedIsInUse(s, nameOf, l);
    forall n: string ensures UsesOf(DropUse(s.uses, name), n) == |LeasesOf(s.leases - {l}, nameOf, n)| {
      assert UsesOf(s.uses, n) == |LeasesOf(s.leases, nameOf, n)|;
      assert LeasesOf(s.leases - {l}, nameOf, n) == LeasesOf(s.leases, nameOf, n) - {l};
    }
  }

  lemma EnsureKeepsEntries(s: State, e: Event, nameOf: Key -> string, keys: set<Key>, n: string)
    requires Inv(s, nameOf, keys) && CollisionFree(nameOf, keys) && Enabled(s, e, keys) && e.Ensure?
    ensures n in Step(s, e, nameOf).entries ==> Labelled(n, Step(s, e, nameOf).entries[n], nameOf, keys)
    ensures n in s.entries && s.entries[n].manifest ==>
      n in Step(s, e, nameOf).entries && Step(s, e, nameOf).entries[n] == s.entries[n]
  {
    assert n in s.entries ==> Labelled(n, s.entries[n], nameOf, keys);
  }

  lemma ReconcileKeepsEntries(s: State, e: Event, nameOf: Key -> string, keys: set<Key>, n: string)
    requires Inv(s, nameOf, keys) && CollisionFree(nameOf, keys) && e.Reconcile?
    ensures n in Step(s, e, nameOf).entries ==> Labelled(n, Step(s, e, nameOf).entries[n], nameOf, keys)
    ensures n in s.entries && HashNamed(n) && Complete(s.entries[n]) && InUse(s.uses, n)
      ==> n in Step(s, e, nameOf).entries && Step(s, e, nameOf).entries[n] == s.entries[n]
  {
    assert n in s.entries ==> Labelled(n, s.entries[n], nameOf, keys);
    if HashNamed(n) { HashNameIsNoBuild(n); }
  }

  lemma EnsureInv(s: State, e: Event, nameOf: Key -> string, keys: set<Key>)
    requires CollisionFree(nameOf, keys) && Inv(s, nameOf, keys) && Enabled(s, e, keys) && e.Ensure?
    ensures Inv(Step(s, e, nameOf), nameOf, keys)
  {
    var t := Step(s, e, nameOf);
    forall n | n in t.entries
      ensures Labelled(n, t.entries[n], nameOf, keys)
    {
      EnsureKeepsEntries(s, e, nameOf, keys, n);
    }
    if e.identity.Some? {
      CountsAdded(s, nameOf, e.lease, KeyOf(s, e));
      assert forall n: string :: UsesOf(t.uses, n) == |LeasesOf(t.leases, nameOf, n)|;
      EnsureServes(s, e, nameOf, keys);
      forall l | l in t.leases ensures t.leases[l] in keys && Served(t.entries, t.leases[l], nameOf) {
        EnsureKeepsEntries(s, e, nameOf, keys, nameOf(t.leases[l]));
      }
    }
  }

  lemma ReconcileInv(s: State, e: Event, nameOf: Key -> string, keys: set<Key>)
    requires CollisionFree(nameOf, keys) && Inv(s, nameOf, keys) && e.Reconcile?
    ensures Inv(Step(s, e, nameOf), nameOf, keys)
  {
    var t := Step(s, e, nameOf);
    forall n | n in t.entries
      ensures Labelled(n, t.entries[n], nameOf, keys)
    {
      ReconcileKeepsEntries(s, e, nameOf, keys, n);
    }
    forall l | l in t.leases ensures Served(t.entries, t.leases[l], nameOf) {
      LeasedIsInUse(s, nameOf, l);
      ReconcileKeepsEntries(s, e, nameOf, keys, nameOf(s.leases[l]));
    }
  }

  /** Every step keeps the invariant: the use count of a template is the number of its outstanding leases, and
      every lease is served. */
  lemma StepInv(s: State, e: Event, nameOf: Key -> string, keys: set<Key>)
    requires CollisionFree(nameOf, keys) && Inv(s, nameOf, keys) && Enabled(s, e, keys)
    ensures Inv(Step(s, e, nameOf), nameOf, keys)
  {
    var t := Step(s, e, nameOf);
    match e {
      case Ensure(_, _, _, _, _) => EnsureInv(s, e, nameOf, keys);
      case Release(lease) => CountsDropped(s, nameOf, lease);
      case Reconcile(_, _, _) => ReconcileInv(s, e, nameOf, keys);
      case LeaveBuild(name, entry) =>
        if HashNamed(name) { HashNameIsNoBuild(name); }
      case Restart(_, after) =>
        forall n | n in after ensures Labelled(n, after[n], nameOf, keys) {
          if HashNamed(n) { assert Labelled(n, s.entries[n], nameOf, keys); }
        }
        forall n: string ensures |LeasesOf(map[], nameOf, n)| == 0 { assert LeasesOf(map[], nameOf, n) == {}; }
    }
  }

  /** A hit or a build hands out a template captured under exactly the key asked for. */
  lemma EnsureServes(s: State, e: Event, nameOf: Key -> string, keys: set<Key>)
    requires CollisionFree(nameOf, keys) && Inv(s, nameOf, keys) && Enabled(s, e, keys) && e.Ensure? && e.identity.Some?
    ensures EnsureEntry(s.entries, nameOf(KeyOf(s, e)), KeyOf(s, e), e.build).1 != NoTemplate
      ==> Served(Step(s, e, nameOf).entries, KeyOf(s, e), nameOf)
  {
    var name := nameOf(KeyOf(s, e));
    if name in s.entries && s.entries[name].manifest {
      assert Labelled(name, s.entries[name], nameOf, keys);
    }
  }

  /** No step deletes, rebuilds or relabels the template of a lease that is still held after it. */
  lemma LeasedUntouched(s: State, e: Event, nameOf: Key -> string, keys: set<Key>, l: nat)
    requires CollisionFree(nameOf, keys) && Inv(s, nameOf, keys) && Enabled(s, e, keys)
    requires l in s.leases && !e.Restart?
    ensures e != Release(l) ==> l in Step(s, e, nameOf).leases && Step(s, e, nameOf).leases[l] == s.leases[l]
    ensures var name := nameOf(s.leases[l]);
      name in s.entries && name in Step(s, e, nameOf).entries && Step(s, e, nameOf).entries[name] == s.entries[name]
  {
    var name := nameOf(s.leases[l]);
    match e {
      case Ensure(_, _, _, _, _) => EnsureKeepsEntries(s, e, nameOf, keys, name);
      case Reconcile(_, _, _) =>
        LeasedIsInUse(s, nameOf, l);
        ReconcileKeepsEntries(s, e, nameOf, keys, name);
      case _ =>
    }
  }

  function After(s: State, events: seq<Event>, nameOf: Key -> string): State {
    if events == [] then s else Step(After(s, events[..|events| - 1], nameOf), events[|events| - 1], nameOf)
  }

  ghost predicate Possible(s: State, events: seq<Event>, nameOf: Key -> string, keys: set<Key>) {
    forall i :: 0 <= i < |events| ==> Enabled(After(s, events[..i], nameOf), events[i], keys)
  }

  lemma PossiblePrefix(s: State, events: seq<Event>, nameOf: Key -> string, keys: set<Key>)
    requires Possible(s, events, nameOf, keys) && events != []
    ensures Possible(s, events[..|events| - 1], nameOf, keys)
    ensures Enabled(After(s, events[..|events| - 1], nameOf), events[|events| - 1], keys)
  {
    var n := |events| - 1;
    forall i | 0 <= i < n ensures Enabled(After(s, events[..n][..i], nameOf), events[..n][i], keys) {
      assert events[..n][..i] == events[..i];
    }
  }

  const EMPTY: State := State("", map[], map[], map[])

  lemma {:induction false} RunInv(s: State, events: seq<Event>, nameOf: Key -> string, keys: set<Key>)
    requires CollisionFree(nameOf, keys) && Inv(s, nameOf, keys) && Possible(s, events, nameOf, keys)
    ensures Inv(After(s, events, nameOf), nameOf, keys)
  {
    if events != [] {
      var n := |events| - 1;
      PossiblePrefix(s, events, nameOf, keys);
      RunInv(s, events[..n], nameOf, keys);
      StepInv(After(s, events[..n], nameOf), events[n], nameOf, keys);
    }
  }

  /** In every run over a fresh work root: use counts equal outstanding leases, and the template of every
      outstanding lease is in place, complete, and captured under the key the lease was asked for. */
  lemma LeasesAreServed(backend: string, events: seq<Event>, nameOf: Key -> string, keys: set<Key>)
    requires CollisionFree(nameOf, keys) && Possible(EMPTY.(backend := backend), events, nameOf, keys)
    ensures
      var s := After(EMPTY.(backend := backend), events, nameOf);
      && (forall n: string :: UsesOf(s.uses, n) == |LeasesOf(s.leases, nameOf, n)|)
      && (forall l :: l in s.leases ==> Served(s.entries, s.leases[l], nameOf))
  {
    var s := EMPTY.(backend := backend);
    forall n: string
      ensures UsesOf(s.uses, n) == |LeasesOf(s.leases, nameOf, n)|
    {
      assert LeasesOf(s.leases, nameOf, n) == {};
    }
    RunInv(s, events, nameOf, keys);
  }

  /** From the moment a lease is taken until it is released, the template behind it stays the same entry. */
  lemma {:induction false} LeaseIsStable(s: State, events: seq<Event>, nameOf: Key -> string, keys: set<Key>, l: nat)
    requires CollisionFree(nameOf, keys) && Inv(s, nameOf, keys) && Possible(s, events, nameOf, keys) && l in s.leases
    requires forall e :: e in events ==> !e.Restart? && e != Release(l)
    ensures
      var t := After(s, events, nameOf);
      var name := nameOf(s.leases[l]);
      l in t.leases && t.leases[l] == s.leases[l] && name in s.entries && name in t.entries &&
        t.entries[name] == s.entries[name]
  {
    if events != [] {
      var n := |events| - 1;
      PossiblePrefix(s, events, nameOf, keys);
      LeaseIsStable(s, events[..n], nameOf, keys, l);
      RunInv(s, events[..n], nameOf, keys);
      LeasedUntouched(After(s, events[..n], nameOf), events[n], nameOf, keys, l);
      assert events[n] in events;
    }
  }
}
