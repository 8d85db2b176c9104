/** The runner's template state, changed under one lock: ensure, lease, release and the reconcile pass. */
module TemplateCache {
  import opened Text
  import opened Contracts
  import opened Templates

  /** What a build comes to. A directory that a failed build leaves behind has a build name. */
  datatype Build = ClearFailed(metadataGone: bool) | BuildFailed | Published(modified: int)

  datatype EnsureReply = Hit | Built | NoTemplate

  /** `ensureBootTemplate` on the entry of the requested key. */
  function EnsureEntry(entries: Entries, name: string, key: Key, build: Build): (Entries, EnsureReply) {
    if name in entries && entries[name].manifest then (entries, Hit)
    else
      match build
      case ClearFailed(metadataGone) =>
        (if name in entries then entries[name := PartlyCleared(entries[name], metadataGone)] else entries, NoTemplate)
      case BuildFailed => (entries - {name}, NoTemplate)
      case Published(modified) => (entries[name := Entry(true, Stored(key), modified)], Built)
  }

  /** A template with a manifest is handed out as it is. Otherwise whatever is in its place is cleared and a complete
      one of exactly this key is published, or there is no template; no other entry is touched. */
  ghost predicate Ensured(before: Entries, after: Entries, name: string, key: Key, build: Build, reply: EnsureReply) {
    && (reply.Hit? <==> name in before && before[name].manifest)
    && (reply.Built? <==> !reply.Hit? && build.Published?)
    && (reply.Hit? ==> after == before)
    && (reply.Built? ==> name in after && after[name] == Entry(true, Stored(key), build.modified))
    && (forall n :: n != name ==> (n in after <==> n in before))
    && (forall n :: n != name && n in after ==> after[n] == before[n])
    && (reply.NoTemplate? && build.BuildFailed? ==> name !in after)
    && (reply.NoTemplate? && name in after ==> !after[name].manifest)
  }

  function AddUse(uses: Uses, name: string): Uses { uses[name := (if name in uses then uses[name] else 0) + 1] }

  function DropUse(uses: Uses, name: string): Uses {
    if name !in uses then uses
    else if uses[name] <= 1 then uses - {name}
    else uses[name := uses[name] - 1]
  }

  datatype ReconcileResult = ReconcileResult(removedBuilds: nat, removedTemplates: nat, retainedTemplates: nat,
    cleanupErrors: nat)

  // --- Counting the names a pass has dealt with

  function Fates(p: Pass): map<string, Fate> { map n | n in p.entries :: FateOf(p, n) }

  function Having(fates: map<string, Fate>, done: set<string>, fate: Fate): set<string> {
    set n | n in done && n in fates && fates[n] == fate
  }

  lemma HavingStep(fates: map<string, Fate>, done: set<string>, n: string, fate: Fate)
    requires n in fates && n !in done
    ensures |Having(fates, done + {n}, fate)| == |Having(fates, done, fate)| + if fates[n] == fate then 1 else 0
  {
    assert Having(fates, done + {n}, fate) == Having(fates, done, fate) + if fates[n] == fate then {n} else {};
  }

  function WithFate(p: Pass, done: set<string>, fate: Fate): set<string> { Having(Fates(p), done, fate) }

  lemma AddDone(p: Pass, done: set<string>, n: string, fate: Fate)
    requires n in p.entries && n !in done
    ensures |WithFate(p, done + {n}, fate)| == |WithFate(p, done, fate)| + if FateOf(p, n) == fate then 1 else 0
  {
    HavingStep(Fates(p), done, n, fate);
  }

  /** How many of the names in `done` met each fate. */
  function Tally(p: Pass, done: set<string>): ReconcileResult {
    ReconcileResult(
      |WithFate(p, done, BuildRemoved)|, |WithFate(p, done, Removed)|, |WithFate(p, done, Retained)|,
      |WithFate(p, done, NotRemoved)| + |WithFate(p, done, BuildNotRemoved)|)
  }

  function Count(r: ReconcileResult, fate: Fate): ReconcileResult {
    match fate
    case Ignored => r
    case Retained => r.(retainedTemplates := r.retainedTemplates + 1)
    case Removed => r.(removedTemplates := r.removedTemplates + 1)
    case BuildRemoved => r.(removedBuilds := r.removedBuilds + 1)
    case NotRemoved | BuildNotRemoved => r.(cleanupErrors := r.cleanupErrors + 1)
  }

  lemma CountOne(p: Pass, done: set<string>, n: string)
    requires n in p.entries && n !in done
    ensures Tally(p, done + {n}) == Count(Tally(p, done), FateOf(p, n))
  {
    forall fate | true
      ensures |WithFate(p, done + {n}, fate)| == |WithFate(p, done, fate)| + if FateOf(p, n) == fate then 1 else 0
    {
      AddDone(p, done, n, fate);
    }
  }

  lemma {:induction false} NamedStep(p: Pass, done: set<string>, n: string)
    requires n in p.entries && n !in done
    ensures |set m | m in done + {n} && HashNamed(m)| == |set m | m in done && HashNamed(m)| + if HashNamed(n) then 1
      else 0
  {
    var named := set m | m in done && HashNamed(m);
    assert (set m | m in done + {n} && HashNamed(m)) == named + if HashNamed(n) then {n} else {};
  }

  /** Every hash-named entry is counted once: as removed, as retained, or as a failed removal. */
  lemma {:induction false} EveryTemplateCounted(p: Pass, done: set<string>)
    requires done <= p.entries.Keys
    ensures |WithFate(p, done, Removed)| + |WithFate(p, done, Retained)| + |WithFate(p, done, NotRemoved)|
        == |set n | n in done && HashNamed(n)|
  {
    if done == {} {
      assert (set n | n in done && HashNamed(n)) == {};
      assert WithFate(p, done, Removed) == {} && WithFate(p, done, Retained) == {} &&
        WithFate(p, done, NotRemoved) == {};
    } else {
      var n :| n in done;
      var rest := done - {n};
      EveryTemplateCounted(p, rest);
      assert rest + {n} == done;
      AddDone(p, rest, n, Removed);
      AddDone(p, rest, n, Retained);
      AddDone(p, rest, n, NotRemoved);
      NamedStep(p, rest, n);
      if HashNamed(n) { HashNameIsNoBuild(n); }
    }
  }

  ghost function GoneBuilds(p: Pass, after: Entries): set<string> {
    set n | n in p.entries && BuildNamed(n) && n !in after
  }

  ghost function GoneTemplates(p: Pass, after: Entries): set<string> {
    set n | n in p.entries && HashNamed(n) && n !in after
  }

  ghost function KeptTemplates(p: Pass): set<string> { set n | n in p.entries && Protected(p, n) }

  /** Builds and templates that the pass was to remove and that are still there. */
  ghost function Stuck(p: Pass, after: Entries): set<string> {
    set n | n in p.entries && (BuildNamed(n) || HashNamed(n)) && !Protected(p, n) && n in after
  }

  /** The counts of a pass, from the entries before and after it. */
  ghost predicate Counted(p: Pass, after: Entries, r: ReconcileResult) {
    && r.removedBuilds == |GoneBuilds(p, after)| && r.removedTemplates == |GoneTemplates(p, after)|
    && r.retainedTemplates == |KeptTemplates(p)| && r.cleanupErrors == |Stuck(p, after)|
  }

  lemma FateMeaning(p: Pass, n: string)
    requires n in p.entries
    ensures FateOf(p, n) == Retained <==> Protected(p, n)
    ensures FateOf(p, n) == Removed <==> HashNamed(n) && n !in Reconciled(p)
    ensures FateOf(p, n) == BuildRemoved <==> BuildNamed(n) && n !in Reconciled(p)
    ensures FateOf(p, n) in {NotRemoved, BuildNotRemoved} <==>
      (BuildNamed(n) || HashNamed(n)) && !Protected(p, n) && n in Reconciled(p)
  {
    KeptIffProtected(p, n);
    if HashNamed(n) { HashNameIsNoBuild(n); }
  }

  /** The counts say how many builds and templates are gone, how many templates were kept on purpose, and how many
      of either stayed because their removal failed. */
  lemma CountsMeaning(p: Pass)
    ensures Counted(p, Reconciled(p), Tally(p, p.entries.Keys))
  {
    var after := Reconciled(p);
    FateSets(p);
    var failed, failedBuilds := WithFate(p, p.entries.Keys, NotRemoved), WithFate(p, p.entries.Keys, BuildNotRemoved);
    assert failed * failedBuilds == {};
    assert Stuck(p, after) == failed + failedBuilds;
  }

  lemma FateSets(p: Pass)
    ensures
      var all, after := p.entries.Keys, Reconciled(p);
      && WithFate(p, all, BuildRemoved) == GoneBuilds(p, after) && WithFate(p, all, Removed) == GoneTemplates(p, after)
      && WithFate(p, all, Retained) == KeptTemplates(p)
      && WithFate(p, all, NotRemoved) + WithFate(p, all, BuildNotRemoved) == Stuck(p, after)
  {
    var all, after := p.entries.Keys, Reconciled(p);
    forall n ensures n in WithFate(p, all, BuildRemoved) <==> n in GoneBuilds(p, after) {
      if n in p.entries { FateMeaning(p, n); }
    }
    forall n ensures n in WithFate(p, all, Removed) <==> n in GoneTemplates(p, after) {
      if n in p.entries { FateMeaning(p, n); }
    }
    forall n ensures n in WithFate(p, all, Retained) <==> n in KeptTemplates(p) {
      if n in p.entries { FateMeaning(p, n); }
    }
    forall n
      ensures n in WithFate(p, all, NotRemoved) + WithFate(p, all, BuildNotRemoved) <==> n in Stuck(p, after)
    {
      if n in p.entries { FateMeaning(p, n); }
    }
  }

  /** The entries once the names in `done` have been dealt with. */
  function Partial(p: Pass, done: set<string>): Entries {
    map n | n in p.entries && (n in done ==> After(p, n).Some?) :: if n in done then After(p, n).value else p.entries[n]
  }

  lemma PartialStep(p: Pass, done: set<string>, n: string)
    requires n in p.entries && n !in done
    ensures n in Partial(p, done) && Partial(p, done)[n] == p.entries[n]
    ensures Partial(p, done + {n}) == if After(p, n).None? then Partial(p, done) - {n}
      else Partial(p, done)[n := After(p, n).value]
  {
  }

  ghost predicate SortedCandidates(p: Pass, s: seq<string>) {
    Names(p, s) && NewestFirst(p, s) && forall n :: n in s <==> n in p.entries && Candidate(p, n)
  }

  /** What has been dealt with once the second loop has reached position i. */
  function Handled(p: Pass, s: seq<string>, i: nat): set<string>
    requires i <= |s|
  {
    set n | n in p.entries && (Candidate(p, n) ==> n in s[..i])
  }

  lemma HandledStep(p: Pass, s: seq<string>, i: nat)
    requires RankedTo(p, s, |s|) && i < |s|
    ensures RankedAt(p, s, i)
    ensures s[i] !in Handled(p, s, i) && Handled(p, s, i + 1) == Handled(p, s, i) + {s[i]}
  {
    RankedBelow(p, s, |s|, i);
    forall j | 0 <= j < i ensures s[j] != s[i] { RankedBelow(p, s, |s|, j); }
    assert s[..i + 1] == s[..i] + [s[i]];
  }

  /** The entry at position i is the candidate with i candidates ahead of it. */
  ghost predicate RankedAt(p: Pass, s: seq<string>, i: nat) {
    i < |s| && s[i] in p.entries && Candidate(p, s[i]) && |Ahead(p, s[i])| == i
  }

  /** So do the first n. */
  ghost predicate RankedTo(p: Pass, s: seq<string>, n: nat) {
    n <= |s| && (n > 0 ==> RankedAt(p, s, n - 1) && RankedTo(p, s, n - 1))
  }

  lemma {:induction false} RankedBelow(p: Pass, s: seq<string>, n: nat, i: nat)
    requires RankedTo(p, s, n) && i < n
    ensures RankedAt(p, s, i)
    decreases n
  {
    if i < n - 1 { RankedBelow(p, s, n - 1, i); }
  }

  lemma {:induction false} AllRanked(p: Pass, s: seq<string>, n: nat)
    requires n <= |s| && forall i: nat :: i < |s| ==> RankedAt(p, s, i)
    ensures RankedTo(p, s, n)
  {
    if n > 0 { AllRanked(p, s, n - 1); }
  }

  /** How many of the first i candidates have been retained, as far as later ones need to know. */
  predicate Quota(i: nat, retain: nat, retained: nat) { retained == i || retain <= retained < i }

  lemma HandledAll(p: Pass, s: seq<string>)
    requires SortedCandidates(p, s)
    ensures Handled(p, s, |s|) == p.entries.Keys
  {
    assert s[..|s|] == s;
    forall n ensures n in Handled(p, s, |s|) <==> n in p.entries {
      assert n in s <==> n in p.entries && Candidate(p, n);
    }
  }

  /** What the first loop has dealt with, and what it has collected, once it has reached position i. */
  function Dropped(p: Pass, listing: seq<string>, i: nat): set<string>
    requires i <= |listing|
  {
    set n | n in listing[..i] && n in p.entries && !Candidate(p, n)
  }

  ghost predicate Collected(p: Pass, listing: seq<string>, i: nat, complete: seq<string>)
    requires i <= |listing|
  {
    Names(p, complete) && Distinct(complete) && forall n :: n in complete <==>
      n in listing[..i] && n in p.entries && Candidate(p, n)
  }

  lemma ListingStep(p: Pass, listing: seq<string>, i: nat, complete: seq<string>)
    requires Distinct(listing) && i < |listing| && listing[i] in p.entries && Collected(p, listing, i, complete)
    ensures
      var n := listing[i];
      if Candidate(p, n) then
        Dropped(p, listing, i + 1) == Dropped(p, listing, i) && Collected(p, listing, i + 1, complete + [n])
      else
        Dropped(p, listing, i + 1) == Dropped(p, listing, i) + {n} && Collected(p, listing, i + 1, complete)
    ensures listing[i] !in Dropped(p, listing, i)
  {
    var n := listing[i];
    assert listing[..i + 1] == listing[..i] + [n] && n !in listing[..i];
  }

  /** Between the loops: the collected candidates, sorted, stand at their ranks. */
  lemma SortedListing(p: Pass, listing: seq<string>, collected: seq<string>)
    requires Collected(p, listing, |listing|, collected) && forall n :: n in listing <==> n in p.entries
    ensures
      var s := SortNewestFirst(p, collected);
      && RankedTo(p, s, |s|)
      && Handled(p, s, 0) == Dropped(p, listing, |listing|)
      && Handled(p, s, |s|) == p.entries.Keys
  {
    assert listing[..|listing|] == listing;
    SortCorrect(p, collected);
    var s := SortNewestFirst(p, collected);
    HandledAll(p, s);
    forall i: nat | i < |s| ensures RankedAt(p, s, i) {
      assert s[i] in s;
      PositionIsRank(p, s, i);
    }
    AllRanked(p, s, |s|);
  }

  /** Stale templates in use are counted apart until the end of the pass. */
  function Total(r: ReconcileResult, staleInUse: nat): ReconcileResult {
    r.(retainedTemplates := r.retainedTemplates + staleInUse)
  }

  /** The pass has dealt with exactly the names in `done`, and counted them. */
  ghost predicate Progress(entries: Entries, p: Pass, done: set<string>, r: ReconcileResult) {
    entries == Partial(p, done) && r == Tally(p, done)
  }

  lemma LeaveCounted(entries: Entries, p: Pass, done: set<string>, n: string, r: ReconcileResult)
    requires n in p.entries && n !in done && Progress(entries, p, done, r) && FateOf(p, n) in {Ignored, Retained}
    ensures Progress(entries, p, done + {n}, Count(r, FateOf(p, n)))
  {
    PartialStep(p, done, n);
    CountOne(p, done, n);
    assert Partial(p, done)[n := p.entries[n]] == Partial(p, done);
  }

  lemma Untouched(entries: Entries, p: Pass, done: set<string>, n: string, r: ReconcileResult)
    requires n in p.entries && n !in done && Progress(entries, p, done, r)
    ensures n in entries && entries[n] == p.entries[n]
  {
    PartialStep(p, done, n);
  }

  lemma NothingDropped(entries: Entries, p: Pass, listing: seq<string>)
    requires entries == p.entries
    ensures Collected(p, listing, 0, []) && Progress(entries, p, Dropped(p, listing, 0), ReconcileResult(0, 0, 0, 0))
  {
    assert Dropped(p, listing, 0) == {};
    assert Partial(p, {}) == p.entries;
    forall fate | true ensures WithFate(p, {}, fate) == {} {}
  }

  lemma AllDone(entries: Entries, p: Pass, r: ReconcileResult)
    requires Progress(entries, p, p.entries.Keys, r)
    ensures entries == Reconciled(p) && r == Tally(p, p.entries.Keys)
  {
  }

  class Cache {
    const backend: string
    var entries: Entries
    var builds: Entries
    var uses: Uses

    constructor (backend: string, entries: Entries, builds: Entries)
      ensures this.backend == backend && this.entries == entries && this.builds == builds && uses == map[]
    {
      this.backend, this.entries, this.builds, uses := backend, entries, builds, map[];
    }

    method LeaseBootTemplate(name: string)
      modifies `uses
      ensures uses == AddUse(old(uses), name)
    {
      var current := if name in uses then uses[name] else 0;
      uses := uses[name := current + 1];
    }

    /** The closure of a lease, which the caller fires once. */
    method ReleaseLease(name: string)
      requires name in uses && uses[name] > 0
      modifies `uses
      ensures uses == DropUse(old(uses), name)
    {
      uses := uses[name := uses[name] - 1];
      if uses[name] == 0 {
        uses := uses - {name};
      }
      assert uses == DropUse(old(uses), name);
    }

    /** `identity` is what the spore binary and the host report, if they do. */
    method EnsureBootTemplate(image: string, memory: string, identity: Option<Identity>, nameOf: Key -> string,
        build: Build)
        returns (reply: EnsureReply)
      modifies `entries, `uses
      ensures identity.None? ==> reply == NoTemplate && entries == old(entries)
      ensures identity.Some? ==>
        var key := Key(image, memory, backend, identity.value);
        (entries, reply) == EnsureEntry(old(entries), nameOf(key), key, build)
      ensures uses == if reply.NoTemplate? then old(uses)
        else AddUse(old(uses), nameOf(Key(image, memory, backend, identity.value)))
      ensures identity.Some? ==>
        var key := Key(image, memory, backend, identity.value);
        Ensured(old(entries), entries, nameOf(key), key, build, reply)
    {
      if identity.None? {
        return NoTemplate;
      }
      var key := Key(image, memory, backend, identity.value);
      var name := nameOf(key);
      if name in entries && entries[name].manifest {
        LeaseBootTemplate(name);
        return Hit;
      }
      if build.ClearFailed? {
        if name in entries {
          entries := entries[name := PartlyCleared(entries[name], build.metadataGone)];
        }
        return NoTemplate;
      }
      entries := entries - {name};
      if build.BuildFailed? {
        return NoTemplate;
      }
      entries := entries[name := Entry(true, Stored(key), build.modified)];
      assert entries == old(entries)[name := Entry(true, Stored(key), build.modified)];
      LeaseBootTemplate(name);
      return Built;
    }

    /** `removeBootTemplateEntry`; true when nothing of the directory is left. */
    method RemoveEntry(name: string, r: Removal) returns (gone: bool)
      requires name in entries
      modifies `entries
      ensures gone <==> AfterRemoval(old(entries)[name], r).None?
      ensures entries == if gone then old(entries) - {name}
        else old(entries)[name := AfterRemoval(old(entries)[name], r).value]
    {
      if entries[name].manifest && r.SaveRefused? {
        entries := entries[name := entries[name].(manifest := !r.saveGone)];
        return false;
      }
      if r.DirectoryFailed? {
        entries := entries[name := PartlyCleared(entries[name], r.metadataGone)];
        return false;
      }
      entries := entries - {name};
      return true;
    }

    /** Removes an entry the pass does not keep. */
    method RemoveCounted(ghost p: Pass, ghost done: set<string>, n: string, outcome: Removal, r: ReconcileResult,
        ghost staleInUse: nat)
        returns (result: ReconcileResult)
      requires n in p.entries && n !in done && Progress(entries, p, done, Total(r, staleInUse))
      requires FateOf(p, n) !in {Ignored, Retained} && outcome == p.outcome(n)
      modifies `entries
      ensures Progress(entries, p, done + {n}, Total(result, staleInUse))
      ensures result.retainedTemplates == r.retainedTemplates
    {
      PartialStep(p, done, n);
      CountOne(p, done, n);
      var gone := RemoveEntry(n, outcome);
      result := if !gone then r.(cleanupErrors := r.cleanupErrors + 1)
        else if BuildNamed(n) then r.(removedBuilds := r.removedBuilds + 1)
        else r.(removedTemplates := r.removedTemplates + 1);
    }

    /** An entry of the first loop that is no candidate. */
    method HandleUnfit(ghost p: Pass, ghost done: set<string>, n: string, outcome: Removal, r: ReconcileResult,
        stale: nat)
        returns (result: ReconcileResult, staleInUse: nat)
      requires n in p.entries && n !in done && Progress(entries, p, done, Total(r, stale)) && !Candidate(p, n)
      requires p.uses == uses && outcome == p.outcome(n)
      modifies `entries
      ensures Progress(entries, p, done + {n}, Total(result, staleInUse))
      ensures result.retainedTemplates == r.retainedTemplates
    {
      Untouched(entries, p, done, n, Total(r, stale));
      if HashNamed(n) { HashNameIsNoBuild(n); }
      result, staleInUse := r, stale;
      if BuildNamed(n) || (HashNamed(n) && !Complete(entries[n])) {
        result := RemoveCounted(p, done, n, outcome, r, stale);
      } else if !HashNamed(n) {
        LeaveCounted(entries, p, done, n, Total(r, stale));
      } else if n in uses && uses[n] > 0 {
        LeaveCounted(entries, p, done, n, Total(r, stale));
        staleInUse := stale + 1;
      } else {
        result := RemoveCounted(p, done, n, outcome, r, stale);
      }
    }

    /** The entry at position i of the listing. */
    method HandleListed(ghost p: Pass, ghost listing: seq<string>, ghost i: nat, n: string,
        identity: Option<Identity>, outcome: Removal,
        before: seq<string>, r: ReconcileResult, stale: nat)
          returns (complete: seq<string>, result: ReconcileResult, staleInUse: nat)
      requires Distinct(listing) && i < |listing| && n == listing[i] && n in p.entries && outcome == p.outcome(n)
      requires p.uses == uses && p.backend == backend && p.identity == identity
      requires Collected(p, listing, i, before) && Progress(entries, p, Dropped(p, listing, i), Total(r, stale))
      modifies `entries
      ensures Collected(p, listing, i + 1, complete)
      ensures Progress(entries, p, Dropped(p, listing, i + 1), Total(result, staleInUse))
      ensures result.retainedTemplates == r.retainedTemplates
    {
      ListingStep(p, listing, i, before);
      Untouched(entries, p, Dropped(p, listing, i), n, Total(r, stale));
      complete, result, staleInUse := before, r, stale;
      if HashNamed(n) && Complete(entries[n]) && !(identity.Some? && !Current(entries[n], backend, identity.value)) {
        complete := complete + [n];
      } else {
        result, staleInUse := HandleUnfit(p, Dropped(p, listing, i), n, outcome, result, stale);
      }
    }

    /** The first loop: everything but the candidates, which are collected. */
    method RemoveUnfit(ghost p: Pass, listing: seq<string>, identity: Option<Identity>, outcome: string -> Removal)
        returns (complete: seq<string>, result: ReconcileResult, staleInUse: nat)
      requires Distinct(listing) && forall n :: n in listing <==> n in entries
      requires p.entries == entries && p.uses == uses && p.backend == backend && p.identity == identity
      requires p.outcome == outcome
      modifies `entries
      ensures Collected(p, listing, |listing|, complete) && result.retainedTemplates == 0
      ensures Progress(entries, p, Dropped(p, listing, |listing|), Total(result, staleInUse))
    {
      complete, result, staleInUse := [], ReconcileResult(0, 0, 0, 0), 0;
      NothingDropped(entries, p, listing);
      for i := 0 to |listing|
        invariant Collected(p, listing, i, complete) && result.retainedTemplates == 0
        invariant Progress(entries, p, Dropped(p, listing, i), Total(result, staleInUse))
      {
        assert listing[i] in listing;
        complete, result, staleInUse := HandleListed(p, listing, i, listing[i], identity, outcome(listing[i]),
          complete, result, staleInUse);
      }
    }

    /** The candidate at position i of the second loop. */
    method HandleCandidate(ghost p: Pass, complete: seq<string>, i: nat, retain: nat, outcome: string -> Removal,
        r: ReconcileResult, ghost staleInUse: nat) returns (result: ReconcileResult)
      requires RankedTo(p, complete, |complete|) && i < |complete|
      requires Progress(entries, p, Handled(p, complete, i), Total(r, staleInUse))
      requires p.uses == uses && p.outcome == outcome && p.retain == retain && Quota(i, retain, r.retainedTemplates)
      modifies `entries
      ensures Progress(entries, p, Handled(p, complete, i + 1), Total(result, staleInUse))
      ensures Quota(i + 1, retain, result.retainedTemplates)
    {
      var n := complete[i];
      HandledStep(p, complete, i);
      HashNameIsNoBuild(n);
      if r.retainedTemplates < retain || (n in uses && uses[n] > 0) {
        LeaveCounted(entries, p, Handled(p, complete, i), n, Total(r, staleInUse));
        result := r.(retainedTemplates := r.retainedTemplates + 1);
      } else {
        result := RemoveCounted(p, Handled(p, complete, i), n, outcome(n), r, staleInUse);
      }
    }

    /** The second loop: the candidates, newest first. */
    method RetainNewest(ghost p: Pass, complete: seq<string>, retain: nat, outcome: string -> Removal,
        before: ReconcileResult,
        ghost staleInUse: nat) returns (result: ReconcileResult)
      requires p.uses == uses && p.retain == retain && p.outcome == outcome && RankedTo(p, complete, |complete|)
      requires Progress(entries, p, Handled(p, complete, 0), Total(before, staleInUse)) && before.retainedTemplates == 0
      modifies `entries
      ensures Progress(entries, p, Handled(p, complete, |complete|), Total(result, staleInUse))
    {
      result := before;
      for i := 0 to |complete|
        invariant Progress(entries, p, Handled(p, complete, i), Total(result, staleInUse))
        invariant Quota(i, retain, result.retainedTemplates)
      {
        result := HandleCandidate(p, complete, i, retain, outcome, result, staleInUse);
      }
    }

    /** One pass leaves exactly what `Reconciled` says, and counts what it did. */
    method ReconcileBootTemplates(retain: nat, listing: seq<string>, identity: Option<Identity>,
        outcome: string -> Removal)
        returns (result: ReconcileResult)
      requires Distinct(listing) && forall n :: n in listing <==> n in entries
      modifies `entries
      ensures
        var p := Pass(old(entries), uses, backend, retain, identity, outcome);
        && entries == Reconciled(p) && result == Tally(p, p.entries.Keys)
        && (forall n :: n in entries ==> n in p.entries) && (forall n :: n in p.entries ==> Swept(p, entries, n))
        && Counted(p, entries, result)
    {
      var p := Pass(entries, uses, backend, retain, identity, outcome);
      var complete, staleInUse;
      complete, result, staleInUse := RemoveUnfit(p, listing, identity, outcome);
      var sorted := SortNewestFirst(p, complete);
      SortedListing(p, listing, complete);
      result := RetainNewest(p, sorted, retain, outcome, result, staleInUse);
      result := Total(result, staleInUse);
      AllDone(entries, p, result);
      forall n ensures (n in entries ==> n in p.entries) && (n in p.entries ==> Swept(p, entries, n)) {
        PassMeaning(p, n);
      }
      CountsMeaning(p);
    }
  }
}
