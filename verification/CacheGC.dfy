/** The pending flag of the cache collection, shared by removals and collections that run at the same time. */
module CacheGC {
  /** `removeSavedSpore`: SporeVM first drops the save, and the flag is set in a later step. */
  datatype Removal = Dropped(at: nat) | Recorded(at: nat)

  /** `CollectCache`, from the moment it takes the flag. */
  datatype Stage = Swapped | Collecting | Collected | Errored | Finished(ok: bool)

  datatype Collection = Collection(at: nat, stage: Stage)

  /** `now` numbers the steps. `owns` is the owning agent's setting, `client` whether SporeVM is configured. */
  datatype State = State(owns: bool, client: bool, now: nat, pending: bool, removals: map<nat, Removal>,
    collections: map<nat, Collection>)

  datatype Event =
    | Drop(id: nat)           // SporeVM confirms a removal
    | Record(id: nat)         // the flag is set for it
    | Swap(id: nat)           // a collection takes the flag
    | Begin(id: nat)          // SporeVM starts to collect
    | End(id: nat, ok: bool)  // SporeVM answers
    | Settle(id: nat)         // the flag is set again after an error, and the call returns

  predicate Enabled(s: State, e: Event) {
    match e
    case Drop(id) => s.client && id !in s.removals
    case Record(id) => id in s.removals && s.removals[id].Dropped?
    case Swap(id) => id !in s.collections
    case Begin(id) => id in s.collections && s.collections[id].stage.Swapped?
    case End(id, _) => id in s.collections && s.collections[id].stage.Collecting?
    case Settle(id) => id in s.collections && (s.collections[id].stage.Collected? || s.collections[id].stage.Errored?)
  }

  /** Every atomic read or write of the flag and every client call is one step. */
  function Step(s: State, e: Event): State
    requires Enabled(s, e)
  {
    var t := s.(now := s.now + 1);
    match e
    case Drop(id) => t.(removals := s.removals[id := Dropped(s.now)])
    case Record(id) => t.(removals := s.removals[id := Recorded(s.now)], pending := true)
    case Swap(id) =>
      if !s.owns || !s.pending then t
      else if !s.client then t.(pending := false)
      else t.(pending := false, collections := s.collections[id := Collection(s.now, Swapped)])
    case Begin(id) => t.(collections := Staged(s, id, Collecting))
    case End(id, ok) => t.(collections := Staged(s, id, if ok then Collected else Errored))
    case Settle(id) =>
      if s.collections[id].stage.Errored? then t.(pending := true, collections := Staged(s, id, Finished(false)))
      else t.(collections := Staged(s, id, Finished(true)))
  }

  function Staged(s: State, id: nat, stage: Stage): map<nat, Collection>
    requires id in s.collections
  {
    s.collections[id := s.collections[id].(stage := stage)]
  }

  function Start(owns: bool, client: bool): State { State(owns, client, 0, true, map[], map[]) }

  predicate InFlight(c: Collection) { !c.stage.Finished? }

  predicate Succeeded(c: Collection) { c.stage == Finished(true) }

  /** A collection that took the flag after the given moment, and is in flight or has succeeded. */
  predicate Covers(c: Collection, since: nat) { c.at > since && (InFlight(c) || Succeeded(c)) }

  ghost predicate Covered(s: State, since: nat) {
    s.pending || exists k :: k in s.collections && Covers(s.collections[k], since)
  }

  /** The first collection is not lost either. */
  ghost predicate FirstCovered(s: State) {
    s.pending || exists k :: k in s.collections && (InFlight(s.collections[k]) || Succeeded(s.collections[k]))
  }

  ghost predicate Inv(s: State) {
    && (forall k :: k in s.collections ==> s.collections[k].at < s.now)
    && (forall r :: r in s.removals ==> s.removals[r].at < s.now)
    && (forall r :: r in s.removals && s.removals[r].Recorded? ==> Covered(s, s.removals[r].at))
    && FirstCovered(s)
  }

  lemma CoverageKept(s: State, e: Event, since: nat)
    requires s.client && Enabled(s, e) && since < s.now && Covered(s, since)
    ensures Covered(Step(s, e), since)
  {
    var t := Step(s, e);
    if !s.pending {
      var k :| k in s.collections && Covers(s.collections[k], since);
      assert t.pending || Covers(t.collections[k], since);
    } else if e.Swap? && s.owns {
      assert Covers(t.collections[e.id], since);
    }
  }

  lemma FirstCoverageKept(s: State, e: Event)
    requires s.client && FirstCovered(s) && Enabled(s, e)
    ensures FirstCovered(Step(s, e))
  {
    var t := Step(s, e);
    if !s.pending {
      var k :| k in s.collections && (InFlight(s.collections[k]) || Succeeded(s.collections[k]));
      assert t.pending || InFlight(t.collections[k]) || Succeeded(t.collections[k]);
    } else if e.Swap? && s.owns {
      assert InFlight(t.collections[e.id]);
    }
  }

  lemma StepInv(s: State, e: Event)
    requires s.client && Inv(s) && Enabled(s, e)
    ensures Inv(Step(s, e)) && Step(s, e).client && Step(s, e).owns == s.owns
  {
    var t := Step(s, e);
    forall r | r in t.removals && t.removals[r].Recorded?
      ensures Covered(t, t.removals[r].at)
    {
      if r in s.removals && s.removals[r].Recorded? { CoverageKept(s, e, s.removals[r].at); }
    }
    FirstCoverageKept(s, e);
  }

  ghost predicate Possible(s: State, events: seq<Event>)
    decreases |events|
  {
    events == [] || (Enabled(s, events[0]) && Possible(Step(s, events[0]), events[1..]))
  }

  function Run(s: State, events: seq<Event>): State
    requires Possible(s, events)
    decreases |events|
  {
    if events == [] then s else Run(Step(s, events[0]), events[1..])
  }

  lemma {:induction false} RunInv(s: State, events: seq<Event>)
    requires s.client && Inv(s) && Possible(s, events)
    ensures Inv(Run(s, events))
    decreases |events|
  {
    if events != [] {
      StepInv(s, events[0]);
      RunInv(Step(s, events[0]), events[1..]);
    }
  }

  /** In every interleaving, each recorded removal is covered: by the flag, or by a collection that took the flag
      after it and is in flight or has succeeded. */
  lemma NoRemovalIsLost(owns: bool, events: seq<Event>)
    requires Possible(Start(owns, true), events)
    ensures
      var s := Run(Start(owns, true), events);
      && FirstCovered(s)
      && forall r :: r in s.removals && s.removals[r].Recorded? ==>
           s.pending || exists k :: k in s.collections && s.collections[k].at > s.removals[r].at
                                    && (InFlight(s.collections[k]) || Succeeded(s.collections[k]))
  {
    RunInv(Start(owns, true), events);
    var s := Run(Start(owns, true), events);
    forall r | r in s.removals && s.removals[r].Recorded? && !s.pending
      ensures exists k :: k in s.collections && Covers(s.collections[k], s.removals[r].at)
    {
      assert Covered(s, s.removals[r].at);
    }
  }

  /** Without a client no collection is ever entered. */
  ghost predicate NoneWithoutClient(s: State) { !s.client ==> s.collections == map[] }

  /** The first collection stays covered exactly through every step but one: an owning agent without a client takes
      the flag. */
  lemma FirstCoveredUnlessDropped(s: State, e: Event)
    requires FirstCovered(s) && NoneWithoutClient(s) && Enabled(s, e)
    ensures FirstCovered(Step(s, e)) <==> s.client || !s.owns || !e.Swap?
    ensures NoneWithoutClient(Step(s, e)) && Step(s, e).client == s.client && Step(s, e).owns == s.owns
  {
    if s.client { FirstCoverageKept(s, e); }
  }

  ghost predicate Swaps(events: seq<Event>) { exists i: nat :: i < |events| && events[i].Swap? }

  lemma {:induction false} DroppedStays(s: State, events: seq<Event>)
    requires !s.client && s.collections == map[] && !s.pending && s.removals == map[] && Possible(s, events)
    ensures !FirstCovered(Run(s, events))
    decreases |events|
  {
    if events != [] { DroppedStays(Step(s, events[0]), events[1..]); }
  }

  lemma {:induction false} FirstCoveredFrom(s: State, events: seq<Event>)
    requires FirstCovered(s) && NoneWithoutClient(s) && Possible(s, events)
    requires !s.client ==> s.removals == map[]
    ensures FirstCovered(Run(s, events)) <==> s.client || !s.owns || !Swaps(events)
    decreases |events|
  {
    if events != [] {
      var rest, t := events[1..], Step(s, events[0]);
      FirstCoveredUnlessDropped(s, events[0]);
      if !FirstCovered(t) {
        assert events[0].Swap?;
        DroppedStays(t, rest);
      } else {
        FirstCoveredFrom(t, rest);
        assert Swaps(events) <==> events[0].Swap? || Swaps(rest) by { SwapsOneByOne(events); }
      }
    }
  }

  lemma SwapsOneByOne(events: seq<Event>)
    requires events != []
    ensures Swaps(events) <==> events[0].Swap? || Swaps(events[1..])
  {
    if i: nat :| i < |events| && events[i].Swap? && i > 0 { assert events[1..][i - 1].Swap?; }
    if j: nat :| j < |events[1..]| && events[1..][j].Swap? { assert events[j + 1].Swap?; }
  }

  /** After any run of a new agent, the flag is set or a collection in flight or succeeded stands for the first one,
      exactly unless the agent owns the cache, has no client and a collection has been asked for. */
  lemma FirstCollectionIff(owns: bool, client: bool, events: seq<Event>)
    requires Possible(Start(owns, client), events)
    ensures FirstCovered(Run(Start(owns, client), events)) <==> client || !owns || !Swaps(events)
  {
    FirstCoveredFrom(Start(owns, client), events);
  }

  // --- No collection without a reason, when collections do not overlap

  predicate Alone(s: State, e: Event) { e.Swap? ==> forall k :: k in s.collections ==> !InFlight(s.collections[k]) }

  /** Something was removed after collection k took the flag. */
  ghost predicate RemovedSince(s: State, at: nat) {
    exists r :: r in s.removals && s.removals[r].Recorded? && s.removals[r].at > at
  }

  /** A removal was recorded since the last successful collection, or none has succeeded. */
  ghost predicate Wanted(s: State) {
    forall k :: k in s.collections && Succeeded(s.collections[k]) ==> RemovedSince(s, s.collections[k].at)
  }

  ghost predicate Reasoned(s: State) {
    && (forall k :: k in s.collections ==> s.collections[k].at < s.now)
    && (forall j, k :: j in s.collections && k in s.collections ==>
          InFlight(s.collections[j]) && InFlight(s.collections[k]) ==> j == k)
    && ((s.pending || exists k :: k in s.collections && InFlight(s.collections[k])) ==> Wanted(s))
    && (s.pending ==> forall k :: k in s.collections && InFlight(s.collections[k]) ==>
      RemovedSince(s, s.collections[k].at))
  }

  lemma RemovedSinceKept(s: State, e: Event, at: nat)
    requires Enabled(s, e) && RemovedSince(s, at)
    ensures RemovedSince(Step(s, e), at)
  {
    var r :| r in s.removals && s.removals[r].Recorded? && s.removals[r].at > at;
    assert Step(s, e).removals[r] == s.removals[r];
  }

  lemma StepReasoned(s: State, e: Event)
    requires Reasoned(s) && Enabled(s, e) && Alone(s, e)
    ensures Reasoned(Step(s, e))
  {
    var t := Step(s, e);
    forall k | k in s.collections && RemovedSince(s, s.collections[k].at) ensures RemovedSince(t, s.collections[k].at) {
      RemovedSinceKept(s, e, s.collections[k].at);
    }
    if e.Record? {
      forall k | k in t.collections
        ensures RemovedSince(t, t.collections[k].at)
      {
        assert t.removals[e.id].at > t.collections[k].at;
      }
    }
  }

  ghost predicate Sequential(s: State, events: seq<Event>)
    requires Possible(s, events)
    decreases |events|
  {
    events == [] || (Alone(s, events[0]) && Sequential(Step(s, events[0]), events[1..]))
  }

  lemma {:induction false} RunReasoned(s: State, events: seq<Event>)
    requires Reasoned(s) && Possible(s, events) && Sequential(s, events)
    ensures Reasoned(Run(s, events))
    decreases |events|
  {
    if events != [] {
      StepReasoned(s, events[0]);
      RunReasoned(Step(s, events[0]), events[1..]);
    }
  }

  /** A pass that takes the flag has a reason to: a removal was recorded since the last successful collection took
      it, or none has succeeded yet. */
  lemma CollectsOnlyWhenWanted(owns: bool, client: bool, events: seq<Event>)
    requires Possible(Start(owns, client), events) && Sequential(Start(owns, client), events)
    ensures
      var s := Run(Start(owns, client), events);
      s.pending ==> forall k :: k in s.collections && Succeeded(s.collections[k]) ==>
        RemovedSince(s, s.collections[k].at)
  {
    RunReasoned(Start(owns, client), events);
  }

  /** The flag says that a collection is wanted. */
  ghost predicate FlagHasReason(s: State) { s.pending ==> Wanted(s) }

  /** However collections overlap, the flag comes to be set without a reason only when a call settles: one that
      failed sets it although nothing was removed since another succeeded, or one succeeds while the flag is set
      although nothing was removed since it took the flag. */
  lemma ReasonKeptUnless(s: State, e: Event)
    requires FlagHasReason(s) && Enabled(s, e) && forall k :: k in s.collections ==> s.collections[k].at < s.now
    ensures FlagHasReason(Step(s, e)) <==>
      !(e.Settle? && if s.collections[e.id].stage.Errored? then !Wanted(s)
                     else s.pending && !RemovedSince(s, s.collections[e.id].at))
  {
    var t := Step(s, e);
    if e.Record? {
      assert t.removals[e.id] == Recorded(s.now);
    } else {
      SameRemovals(s, e);
      if e.Settle? { SettledWanted(s, e.id); }
    }
  }

  lemma SettledWanted(s: State, id: nat)
    requires Enabled(s, Settle(id))
    ensures
      var c := s.collections[id];
      Wanted(Step(s, Settle(id))) <==> Wanted(s) && (c.stage.Errored? || RemovedSince(s, c.at))
  {
    var t, c := Step(s, Settle(id)), s.collections[id];
    assert t.removals == s.removals && t.collections[id].at == c.at;
    if Wanted(t) {
      forall k | k in s.collections && Succeeded(s.collections[k]) ensures RemovedSince(s, s.collections[k].at) {
        assert t.collections[k] == s.collections[k];
      }
      if c.stage.Collected? { assert Succeeded(t.collections[id]); }
    }
    if Wanted(s) && (c.stage.Errored? || RemovedSince(s, c.at)) {
      forall k | k in t.collections && Succeeded(t.collections[k]) ensures RemovedSince(t, t.collections[k].at) {
        assert k == id || t.collections[k] == s.collections[k];
      }
    }
  }

  lemma SameRemovals(s: State, e: Event)
    requires Enabled(s, e) && !e.Record?
    ensures forall at :: RemovedSince(Step(s, e), at) <==> RemovedSince(s, at)
  {
    var t := Step(s, e);
    forall at ensures RemovedSince(t, at) <==> RemovedSince(s, at) {
      if RemovedSince(s, at) { RemovedSinceKept(s, e, at); }
      if RemovedSince(t, at) {
        var r :| r in t.removals && t.removals[r].Recorded? && t.removals[r].at > at;
        assert s.removals[r] == t.removals[r];
      }
    }
  }

  function Removed0(): map<nat, Removal> { map[0 := Recorded(3)] }

  /** The moments of the run below: after the first collection began, after a removal, after the second began,
      after the second succeeded, and after the first failed. */
  function Moment(i: nat): State {
    if i == 0 then Start(true, true)
    else if i == 1 then State(true, true, 2, false, map[], map[0 := Collection(0, Collecting)])
    else if i == 2 then State(true, true, 4, true, Removed0(), map[0 := Collection(0, Collecting)])
    else if i == 3
      then State(true, true, 6, false, Removed0(), map[0 := Collection(0, Collecting), 1 := Collection(4, Collecting)])
    else if i == 4
      then State(true, true, 8, false, Removed0(),
        map[0 := Collection(0, Collecting), 1 := Collection(4, Finished(true))])
    else State(true, true, 10, true, Removed0(),
      map[0 := Collection(0, Finished(false)), 1 := Collection(4, Finished(true))])
  }

  ghost predicate Pair(s: State, a: Event, b: Event, t: State) {
    Enabled(s, a) && Enabled(Step(s, a), b) && Step(Step(s, a), b) == t
  }

  lemma Moments()
    ensures Pair(Moment(0), Swap(0), Begin(0), Moment(1)) && Pair(Moment(1), Drop(0), Record(0), Moment(2))
    ensures Pair(Moment(2), Swap(1), Begin(1), Moment(3)) && Pair(Moment(3), End(1, true), Settle(1), Moment(4))
    ensures Pair(Moment(4), End(0, false), Settle(0), Moment(5))
  {
    FirstMoments();
    LastMoments();
  }

  lemma FirstMoments()
    ensures Pair(Moment(0), Swap(0), Begin(0), Moment(1)) && Pair(Moment(1), Drop(0), Record(0), Moment(2))
  {
    assert Step(Step(Moment(0), Swap(0)), Begin(0)) == Moment(1);
  }

  lemma LastMoments()
    ensures Pair(Moment(2), Swap(1), Begin(1), Moment(3)) && Pair(Moment(3), End(1, true), Settle(1), Moment(4))
    ensures Pair(Moment(4), End(0, false), Settle(0), Moment(5))
  {
    assert Step(Step(Moment(2), Swap(1)), Begin(1)) == Moment(3);
    assert Step(Step(Moment(3), End(1, true)), Settle(1)) == Moment(4);
  }

  lemma Two(s: State, a: Event, b: Event, t: State, rest: seq<Event>)
    requires Pair(s, a, b, t) && Possible(t, rest)
    ensures Possible(s, [a, b] + rest) && Run(s, [a, b] + rest) == Run(t, rest)
  {
    assert ([a, b] + rest)[1..] == [b] + rest && ([b] + rest)[1..] == rest;
  }

  /** With overlapping collections it does not hold: one that fails late sets the flag again for removals that
      the other has already collected. */
  lemma OverlapCollectsAgain() returns (events: seq<Event>)
    ensures Possible(Start(true, true), events) && Run(Start(true, true), events).pending
    ensures !Wanted(Run(Start(true, true), events))
  {
    Moments();
    events := [End(0, false), Settle(0)] + [];
    Two(Moment(4), End(0, false), Settle(0), Moment(5), []);
    Two(Moment(3), End(1, true), Settle(1), Moment(4), events);
    events := [End(1, true), Settle(1)] + events;
    Two(Moment(2), Swap(1), Begin(1), Moment(3), events);
    events := [Swap(1), Begin(1)] + events;
    Two(Moment(1), Drop(0), Record(0), Moment(2), events);
    events := [Drop(0), Record(0)] + events;
    Two(Moment(0), Swap(0), Begin(0), Moment(1), events);
    events := [Swap(0), Begin(0)] + events;
    var t := Moment(5);
    assert 1 in t.collections && Succeeded(t.collections[1]) && t.collections[1].at == 4;
  }

  // --- The runner's own methods

  datatype Reply = NothingToDo | NoClient | Answered(ok: bool)

  /** What one call of `CollectCache` that nothing interrupts does to the flag. */
  function Pass(owns: bool, client: bool, pending: bool, ok: bool): (bool, Reply) {
    if !owns || !pending then (pending, NothingToDo)
    else if !client then (false, NoClient)
    else (!ok, Answered(ok))
  }

  lemma Begins(s: State, id: nat, begun: State)
    requires s.client && s.owns && s.pending && id !in s.collections
    requires begun ==
      s.(now := s.now + 2, pending := false, collections := s.collections[id := Collection(s.now, Collecting)])
    ensures Pair(s, Swap(id), Begin(id), begun)
  {
    assert Step(Step(s, Swap(id)), Begin(id)) == begun;
  }

  lemma Ends(s: State, id: nat, ok: bool, t: State)
    requires !s.pending && id in s.collections && s.collections[id].stage.Collecting?
    requires t == s.(now := s.now + 2, pending := !ok,
                     collections := s.collections[id := Collection(s.collections[id].at, Finished(ok))])
    ensures Pair(s, End(id, ok), Settle(id), t)
  {
    assert Step(Step(s, End(id, ok)), Settle(id)) == t;
  }

  lemma PassIsARun(s: State, id: nat, ok: bool)
    requires s.client && s.owns && s.pending && id !in s.collections
    ensures
      var events := [Swap(id), Begin(id)] + ([End(id, ok), Settle(id)] + []);
      var t := s.(now := s.now + 4, pending := Pass(s.owns, s.client, s.pending, ok).0,
        collections := s.collections[id := Collection(s.now, Finished(ok))]);
      Possible(s, events) && Run(s, events) == t && t.pending == !ok &&
      Pass(s.owns, s.client, s.pending, ok).1 == Answered(ok)
  {
    var begun := s.(now := s.now + 2, pending := false,
      collections := s.collections[id := Collection(s.now, Collecting)]);
    var t := s.(now := s.now + 4, pending := !ok, collections := s.collections[id := Collection(s.now, Finished(ok))]);
    Begins(s, id, begun);
    Ends(begun, id, ok, t);
    Two(begun, End(id, ok), Settle(id), t, []);
    Two(s, Swap(id), Begin(id), begun, [End(id, ok), Settle(id)] + []);
  }

  /** And one that has nothing to do, or no client, is the one step of taking the flag. It reports just that. */
  lemma IdlePassIsASwap(s: State, id: nat, ok: bool)
    requires !(s.client && s.owns && s.pending) && id !in s.collections
    ensures
      var (pending, reply) := Pass(s.owns, s.client, s.pending, ok);
      && Enabled(s, Swap(id)) && Step(s, Swap(id)) == s.(now := s.now + 1, pending := pending)
      && (reply.NoClient? <==> s.owns && s.pending && !s.client) && (reply.NothingToDo? <==> !s.owns || !s.pending)
  {
  }

  class Flag {
    const owns: bool
    const client: bool
    var pending: bool

    constructor (owns: bool, client: bool)
      ensures this.owns == owns && this.client == client && pending
    {
      this.owns, this.client, pending := owns, client, true;
    }

    /** `confirmed` is SporeVM's answer. */
    method RemoveSavedSpore(confirmed: bool) returns (ok: bool)
      modifies this
      ensures ok == confirmed && pending == (old(pending) || confirmed)
    {
      if confirmed { pending := true; }
      return confirmed;
    }

    method CollectCache(answer: bool) returns (reply: Reply)
      modifies this
      ensures (pending, reply) == Pass(owns, client, old(pending), answer)
    {
      if !owns {
        return NothingToDo;
      }
      var was := pending;
      pending := false;
      if !was {
        return NothingToDo;
      }
      if !client {
        return NoClient;
      }
      if !answer { pending := true; }
      return Answered(answer);
    }
  }
}
