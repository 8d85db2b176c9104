/** The boot-template cache: its entries on disk, the uses it counts, and one pass of reconciliation. */
module Templates {
  import opened Text
  import opened Contracts
  import opened Collections

  /** The half of a template key that comes from the spore binary and the host. */
  datatype Identity = Identity(version: string, digest: string, hostClass: HostClass)

  datatype Key = Key(image: string, memory: string, backend: string, identity: Identity)

  /** `template.json`: absent (or a directory), not decodable or of another schema, or holding a key. */
  datatype Metadata = Missing | Unreadable | Stored(key: Key)

  datatype Entry = Entry(manifest: bool, metadata: Metadata, modified: int)

  /** Hash-named directories by name, and how many consumers each has. */
  type Entries = map<string, Entry>

  type Uses = map<string, nat>

  predicate Complete(e: Entry) { e.manifest && !e.metadata.Missing? }

  /** `bootTemplateCurrent` */
  predicate Current(e: Entry, backend: string, identity: Identity) {
    e.metadata.Stored? && e.metadata.key.backend == backend && e.metadata.key.identity == identity
  }

  predicate InUse(uses: Uses, name: string) { name in uses && uses[name] > 0 }

  /** `isBootTemplateEntryName`: 32 bytes in lower-case hexadecimal. */
  predicate HashNamed(name: string) {
    |name| == 64 && forall i :: 0 <= i < 64 ==> '0' <= name[i] <= '9' || 'a' <= name[i] <= 'f'
  }

  predicate BuildNamed(name: string) { HasPrefix(name, ".build-") }

  lemma HashNameIsNoBuild(n: string)
    requires HashNamed(n)
    ensures !BuildNamed(n)
  {
    assert '0' <= n[0] <= '9' || 'a' <= n[0] <= 'f';
  }

  /** How one removal ends: everything gone; SporeVM refused, whether or not the save went; or the save is gone
      and the directory removal failed part-way. */
  datatype Removal = Gone | SaveRefused(saveGone: bool) | DirectoryFailed(metadataGone: bool)

  function PartlyCleared(e: Entry, metadataGone: bool): Entry {
    e.(manifest := false, metadata := if metadataGone then Missing else e.metadata)
  }

  /** `removeBootTemplateEntry`. Without a manifest SporeVM is not asked. */
  function AfterRemoval(e: Entry, r: Removal): Option<Entry> {
    match r
    case Gone => None
    case SaveRefused(saveGone) => if e.manifest then Some(e.(manifest := !saveGone)) else None
    case DirectoryFailed(metadataGone) => Some(PartlyCleared(e, metadataGone))
  }

  // --- What one pass should keep

  datatype Pass = Pass(entries: Entries, uses: Uses, backend: string, retain: nat, identity: Option<Identity>,
    outcome: string -> Removal)

  predicate Stale(p: Pass, n: string)
    requires n in p.entries
  {
    HashNamed(n) && Complete(p.entries[n]) && p.identity.Some? && !Current(p.entries[n], p.backend, p.identity.value)
  }

  predicate Candidate(p: Pass, n: string)
    requires n in p.entries
  {
    HashNamed(n) && Complete(p.entries[n]) && !Stale(p, n)
  }

  predicate Newer(p: Pass, a: string, b: string)
    requires a in p.entries && b in p.entries
  {
    p.entries[a].modified > p.entries[b].modified || (p.entries[a].modified == p.entries[b].modified && Less(b, a))
  }

  /** The candidates newer than n. */
  function Ahead(p: Pass, n: string): set<string>
    requires n in p.entries
  {
    set m | m in p.entries && Candidate(p, m) && Newer(p, m, n)
  }

  /** The newest `retain` current complete templates and every complete template in use. */
  predicate Kept(p: Pass, n: string)
    requires n in p.entries
  {
    HashNamed(n) && Complete(p.entries[n]) && (InUse(p.uses, n) || (Candidate(p, n) && |Ahead(p, n)| < p.retain))
  }

  datatype Fate = Ignored | Retained | Removed | NotRemoved | BuildRemoved | BuildNotRemoved

  /** What the pass does with an entry: builds always go, other names are not its business. */
  function FateOf(p: Pass, n: string): Fate
    requires n in p.entries
  {
    var gone := AfterRemoval(p.entries[n], p.outcome(n)).None?;
    if BuildNamed(n) then (if gone then BuildRemoved else BuildNotRemoved)
    else if !HashNamed(n) then Ignored
    else if Kept(p, n) then Retained
    else if gone then Removed else NotRemoved
  }

  function After(p: Pass, n: string): Option<Entry>
    requires n in p.entries
  {
    if FateOf(p, n) in {Ignored, Retained} then Some(p.entries[n]) else AfterRemoval(p.entries[n], p.outcome(n))
  }

  function Reconciled(p: Pass): Entries { map n | n in p.entries && After(p, n).Some? :: After(p, n).value }

  // --- Order

  lemma NewerTotal(p: Pass, a: string, b: string)
    requires a in p.entries && b in p.entries
    ensures Newer(p, a, b) ==> !Newer(p, b, a) && a != b
    ensures a != b ==> Newer(p, a, b) || Newer(p, b, a)
  {
    if a != b { LessTotal(a, b); }
    LessIrreflexive(a);
    if Less(a, b) && Less(b, a) { LessTransitive(a, b, a); }
  }

  lemma NewerTransitive(p: Pass, a: string, b: string, c: string)
    requires a in p.entries && b in p.entries && c in p.entries && Newer(p, a, b) && Newer(p, b, c)
    ensures Newer(p, a, c)
  {
    if Less(b, a) && Less(c, b) { LessTransitive(c, b, a); }
  }

  predicate Names(p: Pass, s: seq<string>) { forall i :: 0 <= i < |s| ==> s[i] in p.entries }

  predicate NewestFirst(p: Pass, s: seq<string>)
    requires Names(p, s)
  {
    forall i, j :: 0 <= i < j < |s| ==> Newer(p, s[i], s[j])
  }

  predicate Distinct(s: seq<string>) { forall i, j :: 0 <= i < j < |s| ==> s[i] != s[j] }

  /** A sequence sorted newest first over a set: what `sort.Slice` leaves. */
  function Insert(p: Pass, n: string, s: seq<string>): (r: seq<string>)
    requires n in p.entries && Names(p, s)
    ensures Names(p, r) && |r| == |s| + 1
  {
    if s == [] then [n] else if Newer(p, n, s[0]) then [n] + s else [s[0]] + Insert(p, n, s[1..])
  }

  lemma {:induction false} InsertSorted(p: Pass, n: string, s: seq<string>)
    requires n in p.entries && Names(p, s) && NewestFirst(p, s) && n !in s
    ensures NewestFirst(p, Insert(p, n, s))
    ensures forall m :: m in Insert(p, n, s) <==> m == n || m in s
  {
    if s != [] {
      NewerTotal(p, n, s[0]);
      if Newer(p, n, s[0]) {
        forall j | 0 < j < |s| ensures Newer(p, n, s[j]) { NewerTransitive(p, n, s[0], s[j]); }
      } else {
        InsertSorted(p, n, s[1..]);
        assert s == [s[0]] + s[1..];
        var rest := Insert(p, n, s[1..]);
        forall j | 0 <= j < |rest| ensures Newer(p, s[0], rest[j]) {
          assert rest[j] in rest;
          if rest[j] != n {
            var k :| 0 <= k < |s[1..]| && s[1..][k] == rest[j];
            assert rest[j] == s[k + 1];
          }
        }
      }
    }
  }

  function SortNewestFirst(p: Pass, s: seq<string>): (r: seq<string>)
    requires Names(p, s)
    ensures Names(p, r) && |r| == |s|
  {
    if s == [] then [] else Insert(p, s[|s| - 1], SortNewestFirst(p, s[..|s| - 1]))
  }

  lemma {:induction false} SortCorrect(p: Pass, s: seq<string>)
    requires Names(p, s) && Distinct(s)
    ensures NewestFirst(p, SortNewestFirst(p, s))
    ensures forall m :: m in SortNewestFirst(p, s) <==> m in s
  {
    if s != [] {
      var n := |s| - 1;
      SortCorrect(p, s[..n]);
      assert s == s[..n] + [s[n]];
      assert s[n] !in s[..n];
      InsertSorted(p, s[n], SortNewestFirst(p, s[..n]));
    }
  }

  /** In a sorted list of all candidates, the position of a template is the number of candidates ahead of it. */
  lemma PositionIsRank(p: Pass, s: seq<string>, i: nat)
    requires Names(p, s) && NewestFirst(p, s) && i < |s|
    requires forall n :: n in s <==> n in p.entries && Candidate(p, n)
    ensures |Ahead(p, s[i])| == i
  {
    forall m | m in Ahead(p, s[i]) ensures m in s[..i] {
      var k :| 0 <= k < |s| && s[k] == m;
      NewerTotal(p, m, s[i]);
    }
    forall m | m in s[..i] ensures m in Ahead(p, s[i]) {
      var k :| 0 <= k < i && s[k] == m;
      assert m in s;
    }
    forall j, k | 0 <= j < k < i ensures s[..i][j] != s[..i][k] { NewerTotal(p, s[j], s[k]); }
    DistinctSize(s[..i], Ahead(p, s[i]));
  }

  lemma {:induction false} DistinctSize(s: seq<string>, t: set<string>)
    requires Distinct(s) && forall n :: n in s <==> n in t
    ensures |t| == |s|
  {
    if s == [] {
      assert t == {};
    } else {
      var n := |s| - 1;
      assert s == s[..n] + [s[n]];
      assert s[n] !in s[..n];
      DistinctSize(s[..n], t - {s[n]});
    }
  }

  lemma {:induction false} Listed(t: set<string>) returns (s: seq<string>)
    ensures Distinct(s) && forall n :: n in s <==> n in t
  {
    if t == {} {
      s := [];
    } else {
      var n :| n in t;
      var rest := Listed(t - {n});
      s := rest + [n];
    }
  }

  function Candidates(p: Pass): set<string> { set n | n in p.entries && Candidate(p, n) }

  function Newest(p: Pass): set<string> { set n | n in p.entries && Candidate(p, n) && |Ahead(p, n)| < p.retain }

  lemma SortedCandidates(p: Pass) returns (s: seq<string>)
    ensures Names(p, s) && NewestFirst(p, s) && Distinct(s)
    ensures forall n :: n in s <==> n in p.entries && Candidate(p, n)
  {
    var listed := Listed(Candidates(p));
    forall i | 0 <= i < |listed| ensures listed[i] in p.entries { assert listed[i] in Candidates(p); }
    SortCorrect(p, listed);
    s := SortNewestFirst(p, listed);
    forall i, j | 0 <= i < j < |s| ensures s[i] != s[j] { NewerTotal(p, s[i], s[j]); }
    forall n ensures n in s <==> n in Candidates(p) { assert n in s <==> n in listed; }
  }

  lemma NewestAreFirst(p: Pass, s: seq<string>, k: nat)
    requires Names(p, s) && NewestFirst(p, s) && forall n :: n in s <==> n in p.entries && Candidate(p, n)
    requires k <= |s| && (k < |s| ==> k == p.retain) && (k == |s| ==> k <= p.retain)
    ensures forall i :: 0 <= i < |s| ==> (s[i] in Newest(p) <==> i < k)
    ensures forall n :: n in s[..k] <==> n in Newest(p)
  {
    forall i | 0 <= i < |s| ensures s[i] in Newest(p) <==> i < k {
      PositionIsRank(p, s, i);
      assert s[i] in s;
    }
    forall n ensures n in s[..k] <==> n in Newest(p) {
      if n in Newest(p) {
        assert n in s;
        var i :| 0 <= i < |s| && s[i] == n;
        assert s[..k][i] == n;
      }
    }
  }

  // --- What a pass promises, from the entries themselves

  /** A hash-named directory with a manifest and a metadata file. */
  ghost predicate Captured(p: Pass, n: string) {
    n in p.entries && HashNamed(n) && p.entries[n].manifest && !p.entries[n].metadata.Missing?
  }

  /** Captured by another spore binary or host, or for another backend, than the known one; or of unreadable origin. */
  ghost predicate Foreign(p: Pass, n: string) {
    Captured(p, n) && p.identity.Some? &&
    (p.entries[n].metadata.Unreadable? ||
      var (key, own) := (p.entries[n].metadata.key, p.identity.value);
      key.backend != p.backend || key.identity.version != own.version || key.identity.digest != own.digest ||
      key.identity.hostClass != own.hostClass)
  }

  /** Captured later, or at the same time under the greater name. */
  ghost predicate Later(p: Pass, m: string, n: string) {
    m in p.entries && n in p.entries &&
    (p.entries[m].modified > p.entries[n].modified ||
      (p.entries[m].modified == p.entries[n].modified && Less(n, m)))
  }

  /** The templates that compete for the quota, and those of them later than n. */
  ghost function Eligible(p: Pass): set<string> { set n | n in p.entries && Captured(p, n) && !Foreign(p, n) }

  ghost function LaterThan(p: Pass, n: string): set<string> { set m | m in Eligible(p) && Later(p, m, n) }

  ghost predicate Leased(p: Pass, n: string) { n in p.uses && p.uses[n] > 0 }

  /** What the pass is to keep: captured templates that are leased or among the latest eligible ones. */
  ghost predicate Protected(p: Pass, n: string) {
    Captured(p, n) && (Leased(p, n) || (n in Eligible(p) && |LaterThan(p, n)| < p.retain))
  }

  /** The pass removes a directory: everything went, or SporeVM had no save to refuse. */
  ghost predicate Succeeds(p: Pass, n: string)
    requires n in p.entries
  {
    p.outcome(n).Gone? || (p.outcome(n).SaveRefused? && !p.entries[n].manifest)
  }

  /** A name that is none of the pass's business stays; what is protected stays; every other template and every
      leftover build goes, unless its removal fails. */
  ghost predicate Swept(p: Pass, after: Entries, n: string)
    requires n in p.entries
  {
    if (BuildNamed(n) || HashNamed(n)) && !Protected(p, n) then n !in after <==> Succeeds(p, n)
    else n in after && after[n] == p.entries[n]
  }

  lemma KeptIffProtected(p: Pass, n: string)
    requires n in p.entries
    ensures Candidate(p, n) <==> n in Eligible(p)
    ensures Kept(p, n) <==> Protected(p, n)
    ensures Ahead(p, n) == LaterThan(p, n)
  {
    forall m | m in p.entries ensures Candidate(p, m) <==> m in Eligible(p) { CandidateIffEligible(p, m); }
    assert Ahead(p, n) == LaterThan(p, n);
  }

  lemma CandidateIffEligible(p: Pass, n: string)
    requires n in p.entries
    ensures Candidate(p, n) <==> n in Eligible(p)
  {
  }

  /** After every pass each entry is where it should be, and nothing has appeared. With the host's identity known no
      foreign template remains, unless it is leased or its removal failed; unknown, none is foreign. */
  lemma PassMeaning(p: Pass, n: string)
    ensures n in Reconciled(p) ==> n in p.entries
    ensures n in p.entries ==> Swept(p, Reconciled(p), n)
    ensures Foreign(p, n) && !Leased(p, n) ==> (n !in Reconciled(p) <==> Succeeds(p, n))
    ensures p.identity.None? ==> !Foreign(p, n)
  {
    if n in p.entries {
      KeptIffProtected(p, n);
      if HashNamed(n) { HashNameIsNoBuild(n); }
    }
  }

  /** The eligible templates within the quota. */
  ghost function Top(p: Pass): set<string> { set n | n in Eligible(p) && |LaterThan(p, n)| < p.retain }

  lemma SameQuota(p: Pass)
    ensures Candidates(p) == Eligible(p) && Newest(p) == Top(p)
  {
    forall n ensures n in Candidates(p) <==> n in Eligible(p) { if n in p.entries { KeptIffProtected(p, n); } }
    forall n ensures n in Newest(p) <==> n in Top(p) { if n in p.entries { KeptIffProtected(p, n); } }
  }

  /** The eligible templates within the quota are as many as there may be, later than every other eligible one, and
      all there after the pass. */
  lemma QuotaMeaning(p: Pass)
    ensures |Top(p)| == if |Eligible(p)| < p.retain then |Eligible(p)| else p.retain
    ensures forall a, b :: a in Top(p) && b in Eligible(p) - Top(p) ==> Later(p, a, b)
    ensures forall a :: a in Top(p) ==> a in Reconciled(p) && Reconciled(p)[a] == p.entries[a]
  {
    ExactlyRetained(p);
    SameQuota(p);
    forall a, b | a in Top(p) && b in Eligible(p) - Top(p) ensures Later(p, a, b) {
      assert a in Newest(p) && b in Candidates(p) - Newest(p);
    }
    forall a | a in Top(p) ensures a in Reconciled(p) && Reconciled(p)[a] == p.entries[a] { PassMeaning(p, a); }
  }

  /** Retention keeps `retain` candidates when there are that many, and each is newer than every candidate not kept. */
  lemma ExactlyRetained(p: Pass)
    ensures |Newest(p)| == if |Candidates(p)| < p.retain then |Candidates(p)| else p.retain
    ensures forall a, b :: a in Newest(p) && b in Candidates(p) - Newest(p) ==> Newer(p, a, b)
  {
    var s := SortedCandidates(p);
    DistinctSize(s, Candidates(p));
    var k := if |s| < p.retain then |s| else p.retain;
    NewestAreFirst(p, s, k);
    DistinctSize(s[..k], Newest(p));
    forall a, b | a in Newest(p) && b in Candidates(p) - Newest(p) ensures Newer(p, a, b) {
      var i :| 0 <= i < |s| && s[i] == a;
      var j :| 0 <= j < |s| && s[j] == b;
    }
  }
}
