/** The cleanup ledger: which paths it may hold, in which order, and how it is first built. */
module CleanupLedger {
  import opened Text

  const PARENT := "parent.spore"
  const CHILDREN := "children/"
  const SHARED := "shared-chunks"

  /** Child directories are named by `%06d`; no other spelling of the number is accepted. */
  predicate IsPreparedChildDir(name: string) {
    var id := Atoi(name);
    id.Some? && id.value >= 0 && name == Pad(6, id.value)
  }

  lemma PreparedChildDirIff(name: string)
    ensures IsPreparedChildDir(name) <==> exists id: nat :: id <= MAX_INT64 && name == Pad(6, id)
  {
    if id: nat :| id <= MAX_INT64 && name == Pad(6, id) {
      AtoiPad(6, id);
    }
  }

  function ParseChildPath(rel: string): (id: Option<nat>) {
    var name := TrimPrefix(rel, CHILDREN);
    if !HasPrefix(rel, CHILDREN) || !IsPreparedChildDir(name) then None else Some(Atoi(name).value)
  }

  predicate IsChildPath(rel: string) { ParseChildPath(rel).Some? }

  function ChildID(rel: string): nat
    requires IsChildPath(rel)
  {
    ParseChildPath(rel).value
  }

  function ChildPath(id: nat): string { CHILDREN + Pad(6, id) }

  lemma ChildPathRoundTrip(id: nat)
    requires id <= MAX_INT64
    ensures IsChildPath(ChildPath(id)) && ChildID(ChildPath(id)) == id
  {
    assert ChildPath(id)[|CHILDREN|..] == Pad(6, id);
    AtoiPad(6, id);
  }

  lemma ParentIsNotChild(rel: string)
    requires HasPrefix(rel, CHILDREN)
    ensures rel != PARENT
  {
    assert rel[0] == CHILDREN[0];
  }

  ghost predicate ParentLast(pending: seq<string>) {
    forall i :: 0 <= i < |pending| && pending[i] == PARENT ==> i == |pending| - 1
  }

  /** Children in strictly increasing order, then at most the parent, and nothing else. */
  ghost predicate ValidLedger(pending: seq<string>) {
    && ParentLast(pending)
    && (forall i :: 0 <= i < |pending| && pending[i] != PARENT ==> IsChildPath(pending[i]))
    && (forall i, j :: 0 <= i < j < |pending| && pending[j] != PARENT ==> Before(pending[i], pending[j]))
  }

  ghost predicate Before(a: string, b: string) { IsChildPath(a) && IsChildPath(b) && ChildID(a) < ChildID(b) }

  // --- The validator's loop

  ghost predicate HasID(rel: string, id: int) { IsChildPath(rel) && ChildID(rel) == id }

  /** The first entries are children with these ids. */
  ghost predicate HasIDs(pending: seq<string>, ids: seq<int>) {
    |ids| <= |pending| && forall i :: 0 <= i < |ids| ==> HasID(pending[i], ids[i])
  }

  ghost predicate Rising(ids: seq<int>) { forall i, j :: 0 <= i < j < |ids| ==> ids[i] < ids[j] }

  ghost function LastID(ids: seq<int>): int { if ids == [] then -1 else ids[|ids| - 1] }

  lemma RisingNext(ids: seq<int>, id: int)
    requires Rising(ids) && LastID(ids) < id
    ensures Rising(ids + [id])
  {
  }

  lemma RisingIsValid(pending: seq<string>, ids: seq<int>)
    requires HasIDs(pending, ids) && Rising(ids)
    requires |ids| == |pending| || (|ids| == |pending| - 1 && pending[|ids|] == PARENT)
    ensures ValidLedger(pending)
  {
    forall i | 0 <= i < |pending| && pending[i] == PARENT ensures i == |pending| - 1 {
      if i < |ids| { IDIsNotParent(pending[i], ids[i]); }
    }
    forall i | 0 <= i < |pending| && pending[i] != PARENT ensures IsChildPath(pending[i]) {
      assert HasID(pending[i], ids[i]);
    }
    forall i, j | 0 <= i < j < |pending| && pending[j] != PARENT ensures Before(pending[i], pending[j]) {
      assert HasID(pending[i], ids[i]) && HasID(pending[j], ids[j]);
    }
  }

  lemma IDIsNotParent(rel: string, id: int)
    requires HasID(rel, id)
    ensures rel != PARENT
  {
    ParentIsNotChild(rel);
  }

  lemma NotLater(pending: seq<string>, ids: seq<int>)
    requires |ids| < |pending| && HasIDs(pending, ids) && pending[|ids|] != PARENT
    requires !IsChildPath(pending[|ids|]) || ChildID(pending[|ids|]) <= LastID(ids)
    ensures !ValidLedger(pending)
  {
    var n := |ids|;
    if ValidLedger(pending) {
      assert IsChildPath(pending[n]);
      assert n > 0 ==> HasID(pending[n - 1], ids[n - 1]) && Before(pending[n - 1], pending[n]);
      assert false;
    }
  }

  lemma ParentOnlyLast(pending: seq<string>, index: nat)
    requires index < |pending| - 1 && pending[index] == PARENT
    ensures !ValidLedger(pending)
  {
    if ParentLast(pending) { assert false; }
  }

  /** The loop decides exactly what a valid ledger is. */
  method ValidateCleanupLedgerPaths(pending: seq<string>) returns (ok: bool)
    ensures ok <==> ValidLedger(pending)
  {
    var previousChild: int := -1;
    ghost var ids: seq<int> := [];
    for index := 0 to |pending|
      invariant HasIDs(pending, ids) && Rising(ids) && previousChild == LastID(ids)
      invariant |ids| == index || (index == |pending| && |ids| == index - 1 && pending[|ids|] == PARENT)
    {
      var rel := pending[index];
      if rel == PARENT {
        if index != |pending| - 1 {
          ParentOnlyLast(pending, index);
          return false;
        }
        continue;
      }
      var childID := ParseChildPath(rel);
      if childID.None? || childID.value <= previousChild {
        NotLater(pending, ids);
        return false;
      }
      RisingNext(ids, childID.value);
      previousChild := childID.value;
      ids := ids + [previousChild];
    }
    RisingIsValid(pending, ids);
    return true;
  }

  /** What is left of a valid ledger after its first entries have been released is a valid ledger. */
  lemma SuffixValid(pending: seq<string>, k: nat)
    requires ValidLedger(pending) && k <= |pending|
    ensures ValidLedger(pending[k..])
  {
    var rest := pending[k..];
    assert forall i :: 0 <= i < |rest| ==> rest[i] == pending[k + i];
  }

  // --- Building the ledger from a directory listing

  /** `os.ReadDir`: entries in byte order of their names. */
  ghost predicate ReadDirOrder(listing: seq<string>) {
    forall i, j :: 0 <= i < j < |listing| ==> Less(listing[i], listing[j])
  }

  /** The listing's child directories as ledger paths. */
  function ChildPaths(listing: seq<string>): (paths: seq<string>) {
    if listing == [] then []
    else
      var last := listing[|listing| - 1];
      ChildPaths(listing[..|listing| - 1]) + if IsPreparedChildDir(last) then [CHILDREN + last] else []
  }

  function Ledger(listing: seq<string>, parent: bool): seq<string> {
    ChildPaths(listing) + if parent then [PARENT] else []
  }

  method BuildCleanupLedger(listing: seq<string>, parent: bool) returns (pending: seq<string>)
    ensures pending == Ledger(listing, parent)
  {
    pending := [];
    for i := 0 to |listing|
      invariant pending == ChildPaths(listing[..i])
    {
      assert listing[..i + 1][..i] == listing[..i];
      if IsPreparedChildDir(listing[i]) {
        pending := pending + [CHILDREN + listing[i]];
      }
    }
    assert listing[..|listing|] == listing;
    if parent {
      pending := pending + [PARENT];
    }
  }

  /** A path is in the ledger exactly when its child directory is in the listing. */
  lemma {:induction false} ChildPathsMembers(listing: seq<string>, name: string)
    ensures CHILDREN + name in ChildPaths(listing) <==> name in listing && IsPreparedChildDir(name)
    ensures forall p :: p in ChildPaths(listing) ==> IsChildPath(p)
  {
    if listing != [] {
      var n := |listing| - 1;
      ChildPathsMembers(listing[..n], name);
      assert listing == listing[..n] + [listing[n]];
      assert (CHILDREN + listing[n])[|CHILDREN|..] == listing[n];
      assert (CHILDREN + name)[|CHILDREN|..] == name;
    }
  }

  lemma {:induction false} ChildPathsOrder(listing: seq<string>)
    requires ReadDirOrder(listing)
    ensures ReadDirOrder(ChildPaths(listing))
    ensures forall p :: p in ChildPaths(listing) ==> HasPrefix(p, CHILDREN) && p[|CHILDREN|..] in listing
  {
    if listing != [] {
      var n := |listing| - 1;
      var last := listing[n];
      ChildPathsOrder(listing[..n]);
      assert listing == listing[..n] + [last];
      forall p | p in ChildPaths(listing[..n])
        ensures Less(p, CHILDREN + last)
      {
        var name := p[|CHILDREN|..];
        var i :| 0 <= i < n && listing[i] == name;
        assert p == CHILDREN + name;
        LessPrefix(CHILDREN, name, last);
      }
      assert (CHILDREN + last)[|CHILDREN|..] == last;
    }
  }

  predicate SixDigits(p: string) { |p| == |CHILDREN| + 6 }

  lemma SixDigitsIff(id: nat)
    ensures SixDigits(ChildPath(id)) <==> id < 1_000_000
  {
    PadLength(6, id);
    assert Pow10(6) == 1_000_000;
  }

  /** Among six-digit names the directory order is the numeric order. */
  lemma SixDigitsOrder(a: string, b: string)
    requires IsChildPath(a) && IsChildPath(b) && SixDigits(a) && SixDigits(b)
    ensures Less(a, b) <==> ChildID(a) < ChildID(b)
  {
    var x, y := a[|CHILDREN|..], b[|CHILDREN|..];
    assert a == CHILDREN + x && b == CHILDREN + y;
    LessPrefix(CHILDREN, x, y);
    LessIsNumeric(x, y);
    PadValue(6, ChildID(a));
    PadValue(6, ChildID(b));
  }

  /** While every child id has six digits, the ledger built from a directory listing is one the validator accepts. */
  lemma LedgerValid(listing: seq<string>, parent: bool)
    requires ReadDirOrder(listing)
    requires forall p :: p in ChildPaths(listing) ==> SixDigits(p)
    ensures ValidLedger(Ledger(listing, parent))
  {
    var paths := ChildPaths(listing);
    ChildPathsOrder(listing);
    ChildPathsMembers(listing, "");
    forall i | 0 <= i < |paths| ensures IsChildPath(paths[i]) && paths[i] != PARENT {
      assert paths[i] in paths;
      ParentIsNotChild(paths[i]);
    }
    forall i, j | 0 <= i < j < |paths| ensures Before(paths[i], paths[j]) {
      SixDigitsOrder(paths[i], paths[j]);
    }
  }

  lemma LedgerParentLast(listing: seq<string>, parent: bool)
    ensures ParentLast(Ledger(listing, parent))
  {
    var paths := ChildPaths(listing);
    ChildPathsMembers(listing, "");
    forall i | 0 <= i < |paths| ensures paths[i] != PARENT {
      assert paths[i] in paths;
      ParentIsNotChild(paths[i]);
    }
  }

  // --- The exact limit for a forked run

  lemma PadFirst(w: nat, n: nat)
    requires n >= 10 || w > 1
    ensures Pad(w, n)[0] == Pad(if w == 0 then 0 else w - 1, n / 10)[0]
  {
  }

  /** "1000000" sorts before "999999". */
  lemma MillionSortsFirst()
    ensures Less(ChildPath(1_000_000), ChildPath(999_999)) && !Less(ChildPath(999_999), ChildPath(1_000_000))
  {
    PadFirst(6, 1_000_000);
    PadFirst(5, 100_000);
    PadFirst(4, 10_000);
    PadFirst(3, 1_000);
    PadFirst(2, 100);
    PadFirst(1, 10);
    PadFirst(6, 999_999);
    PadFirst(5, 99_999);
    PadFirst(4, 9_999);
    PadFirst(3, 999);
    PadFirst(2, 99);
    LessPrefix(CHILDREN, Pad(6, 1_000_000), Pad(6, 999_999));
    LessPrefix(CHILDREN, Pad(6, 999_999), Pad(6, 1_000_000));
  }

  /** The directory of a run forked into `count` children, which may also hold the shared chunks. */
  ghost predicate ForkedListing(listing: seq<string>, count: nat) {
    && ReadDirOrder(listing)
    && (forall id: nat :: id < count ==> Pad(6, id) in listing)
    && (forall name :: name in listing ==> name == SHARED || exists id: nat :: id < count && name == Pad(6, id))
  }

  lemma ForkedSixDigits(listing: seq<string>, count: nat, p: string)
    requires ForkedListing(listing, count) && count <= 1_000_000 && p in ChildPaths(listing)
    ensures SixDigits(p)
  {
    ChildPathsOrder(listing);
    ChildPathsMembers(listing, "");
    var name := p[|CHILDREN|..];
    assert p == CHILDREN + name;
    NotShared(name);
    var id: nat :| id < count && name == Pad(6, id);
    SixDigitsIff(id);
  }

  lemma ListedChild(listing: seq<string>, id: nat)
    requires id <= MAX_INT64 && Pad(6, id) in listing
    ensures ChildPath(id) in ChildPaths(listing) && IsChildPath(ChildPath(id)) && ChildID(ChildPath(id)) == id
    ensures ChildPath(id) != PARENT
  {
    AtoiPad(6, id);
    ChildPathsMembers(listing, Pad(6, id));
    ChildPathRoundTrip(id);
    ParentIsNotChild(ChildPath(id));
  }

  /** Two ids whose names sort against their numbers make a ledger the validator refuses. */
  lemma OutOfOrder(listing: seq<string>, lo: nat, hi: nat)
    requires ReadDirOrder(listing) && lo < hi <= MAX_INT64 && Pad(6, lo) in listing && Pad(6, hi) in listing
    requires !Less(ChildPath(lo), ChildPath(hi))
    ensures !ValidLedger(ChildPaths(listing))
  {
    ListedChild(listing, lo);
    ListedChild(listing, hi);
    ChildPathsOrder(listing);
    OutOfOrderPaths(ChildPaths(listing), ChildPath(lo), ChildPath(hi));
  }

  lemma OutOfOrderPaths(paths: seq<string>, a: string, b: string)
    requires ReadDirOrder(paths) && a in paths && b in paths && a != PARENT && !Less(a, b) && a != b && !Before(b, a)
    ensures !ValidLedger(paths)
  {
    var i :| 0 <= i < |paths| && paths[i] == b;
    var j :| 0 <= j < |paths| && paths[j] == a;
    assert i < j && !Before(paths[i], paths[j]);
  }

  /** The ledger of a run forked into `count` children can be reloaded exactly when count is at most a million. */
  lemma ForkedLedgerValidIff(listing: seq<string>, count: nat, parent: bool)
    requires ForkedListing(listing, count) && count <= MAX_INT64
    ensures ValidLedger(Ledger(listing, parent)) <==> count <= 1_000_000
  {
    if count <= 1_000_000 {
      forall p | p in ChildPaths(listing) ensures SixDigits(p) { ForkedSixDigits(listing, count, p); }
      LedgerValid(listing, parent);
    } else {
      MillionSortsFirst();
      OutOfOrder(listing, 999_999, 1_000_000);
      if ValidLedger(Ledger(listing, parent)) { WithoutParent(listing, parent); }
    }
  }

  lemma WithoutParent(listing: seq<string>, parent: bool)
    requires ValidLedger(Ledger(listing, parent))
    ensures ValidLedger(ChildPaths(listing))
  {
    var paths, all := ChildPaths(listing), Ledger(listing, parent);
    LedgerParentLast(listing, false);
    ChildPathsMembers(listing, "");
    assert Ledger(listing, false) == paths;
    assert forall i :: 0 <= i < |paths| ==> paths[i] == all[i];
  }

  lemma NotShared(name: string)
    requires IsPreparedChildDir(name)
    ensures name != SHARED
  {
    assert IsDigit(name[0]) && !IsDigit(SHARED[0]);
  }
}
