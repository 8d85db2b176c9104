/** Attempt ids, shard ids and the create-only result URIs. */
module ResultLayout {
  import opened Text
  import opened Contracts

  function FormatAttemptID(runID: string, child: nat, attempt: nat): string {
    runID + "-child-" + Itoa(child) + "-attempt-" + Pad(2, attempt)
  }

  function FormatShardID(runID: string, shard: nat): string { runID + "-shard-" + Pad(4, shard) }

  function TerminalURI(run: BundleRun, child: nat): string {
    run.resultStore + "children/" + Itoa(child) + "/terminal.json"
  }

  function AttemptURI(run: BundleRun, child: nat, attemptID: string): string {
    run.resultStore + "children/" + Itoa(child) + "/attempts/" + attemptID + ".json"
  }

  /** An attempt id is read back from the right whatever its run id contains. */
  lemma AttemptIDUnique(r1: string, c1: nat, a1: nat, r2: string, c2: nat, a2: nat)
    requires FormatAttemptID(r1, c1, a1) == FormatAttemptID(r2, c2, a2)
    ensures r1 == r2 && c1 == c2 && a1 == a2
  {
    var s1, s2 := r1 + "-child-" + Itoa(c1) + "-attempt", r2 + "-child-" + Itoa(c2) + "-attempt";
    assert FormatAttemptID(r1, c1, a1) == s1 + ['-'] + Pad(2, a1);
    assert FormatAttemptID(r2, c2, a2) == s2 + ['-'] + Pad(2, a2);
    SplitRight(s1, Pad(2, a1), s2, Pad(2, a2), '-');
    PadInjective(2, a1, a2);
    var t1, t2 := r1 + "-child", r2 + "-child";
    assert s1 == t1 + ['-'] + Itoa(c1) + "-attempt" && s2 == t2 + ['-'] + Itoa(c2) + "-attempt";
    SameSuffix(t1 + ['-'] + Itoa(c1), t2 + ['-'] + Itoa(c2), "-attempt");
    SplitRight(t1, Itoa(c1), t2, Itoa(c2), '-');
    PadInjective(1, c1, c2);
    SameSuffix(r1, r2, "-child");
  }

  lemma SameSuffix(a: string, b: string, s: string)
    requires a + s == b + s
    ensures a == b
  {
    assert |a| == |b| && a == (a + s)[..|a|] && b == (b + s)[..|a|];
  }

  lemma SamePrefix(p: string, a: string, b: string)
    requires p + a == p + b
    ensures a == b
  {
    assert a == (p + a)[|p|..] && b == (p + b)[|p|..];
  }

  /** Below one result prefix, the part of a URI after the child number determines the child. */
  lemma SameChild(run: BundleRun, c1: nat, rest1: string, c2: nat, rest2: string)
    requires run.resultStore + "children/" + Itoa(c1) + "/" + rest1 ==
             run.resultStore + "children/" + Itoa(c2) + "/" + rest2
    ensures c1 == c2 && rest1 == rest2
  {
    var p := run.resultStore + "children/";
    assert p + Itoa(c1) + "/" + rest1 == p + (Itoa(c1) + ['/'] + rest1);
    assert p + Itoa(c2) + "/" + rest2 == p + (Itoa(c2) + ['/'] + rest2);
    SamePrefix(p, Itoa(c1) + ['/'] + rest1, Itoa(c2) + ['/'] + rest2);
    SplitLeft(Itoa(c1), rest1, Itoa(c2), rest2, '/');
    PadInjective(1, c1, c2);
  }

  lemma TerminalURIUnique(run: BundleRun, c1: nat, c2: nat)
    requires TerminalURI(run, c1) == TerminalURI(run, c2)
    ensures c1 == c2
  {
    assert forall c: nat :: TerminalURI(run, c) == run.resultStore + "children/" + Itoa(c) + "/" + "terminal.json";
    SameChild(run, c1, "terminal.json", c2, "terminal.json");
  }

  /** No attempt document, whatever its attempt id, can take a terminal document's place. */
  lemma AttemptIsNotTerminal(run: BundleRun, c1: nat, id: string, c2: nat)
    ensures AttemptURI(run, c1, id) != TerminalURI(run, c2)
  {
    var rest := "attempts/" + id + ".json";
    assert AttemptURI(run, c1, id) == run.resultStore + "children/" + Itoa(c1) + "/" + rest;
    assert TerminalURI(run, c2) == run.resultStore + "children/" + Itoa(c2) + "/" + "terminal.json";
    assert rest[0] == 'a' && "terminal.json"[0] == 't';
    if AttemptURI(run, c1, id) == TerminalURI(run, c2) {
      SameChild(run, c1, rest, c2, "terminal.json");
    }
  }

  lemma AttemptURISplit(run: BundleRun, c1: nat, id1: string, c2: nat, id2: string)
    requires AttemptURI(run, c1, id1) == AttemptURI(run, c2, id2)
    ensures c1 == c2 && id1 == id2
  {
    var r1, r2 := "attempts/" + id1 + ".json", "attempts/" + id2 + ".json";
    assert AttemptURI(run, c1, id1) == run.resultStore + "children/" + Itoa(c1) + "/" + r1;
    assert AttemptURI(run, c2, id2) == run.resultStore + "children/" + Itoa(c2) + "/" + r2;
    SameChild(run, c1, r1, c2, r2);
    SameSuffix("attempts/" + id1, "attempts/" + id2, ".json");
    SamePrefix("attempts/", id1, id2);
  }

  /** Within a run, the attempt documents of distinct attempts have distinct URIs. */
  lemma AttemptURIUnique(run: BundleRun, c1: nat, a1: nat, c2: nat, a2: nat)
    requires AttemptURI(run, c1, FormatAttemptID(run.runID, c1, a1)) == AttemptURI(run, c2,
      FormatAttemptID(run.runID, c2, a2))
    ensures c1 == c2 && a1 == a2
  {
    AttemptURISplit(run, c1, FormatAttemptID(run.runID, c1, a1), c2, FormatAttemptID(run.runID, c2, a2));
    AttemptIDUnique(run.runID, c1, a1, run.runID, c2, a2);
  }

  /** The generated shard id is a valid id exactly for run ids of at most 117 characters. */
  lemma ShardIDValid(runID: string)
    requires ValidID(runID)
    ensures ValidID(FormatShardID(runID, 0)) <==> |runID| <= 117
  {
    PadLength(4, 0);
    var s := FormatShardID(runID, 0);
    assert |s| == |runID| + 11 && s[0] == runID[0];
    assert forall i :: |runID| <= i < |s| ==> s[i] == ("-shard-" + Pad(4, 0))[i - |runID|];
  }

  /** A generated attempt id is a valid id exactly when it fits in 128 characters. */
  lemma AttemptIDValid(runID: string, child: nat, attempt: nat)
    requires ValidID(runID)
    ensures ValidID(FormatAttemptID(runID, child, attempt)) <==>
            |runID| + |Itoa(child)| + |Pad(2, attempt)| <= 112
  {
    var s := FormatAttemptID(runID, child, attempt);
    var tail := "-child-" + Itoa(child) + "-attempt-" + Pad(2, attempt);
    assert s == runID + tail;
    assert forall i :: 0 <= i < |tail| ==> IDChar(tail[i]);
    assert forall i :: |runID| <= i < |s| ==> s[i] == tail[i - |runID|];
  }

  /** Every terminal URI below a valid result prefix passes the JSON URI check. */
  lemma TerminalURIValid(run: BundleRun, child: nat)
    requires ValidS3Prefix(run.resultStore)
    ensures ValidS3JSON(TerminalURI(run, child)) && TerminalURI(run, child) != ""
  {
    var tail := "children/" + Itoa(child) + "/terminal.json";
    var uri, p := TerminalURI(run, child), run.resultStore;
    assert uri == p + tail;
    var rest := TrimPrefix(p, "s3://");
    assert uri[..5] == p[..5] && TrimPrefix(uri, "s3://") == rest + tail;
    var tail2 := "children/" + Itoa(child) + "/terminal";
    assert tail == tail2 + ".json";
    assert uri == p + tail2 + ".json";
    IndexConcat(rest, tail, '/');
  }

  lemma {:induction false} IndexConcat(a: string, b: string, c: char)
    requires Index(a, c).Some?
    ensures Index(a + b, c) == Index(a, c)
  {
    if a[0] != c {
      IndexConcat(a[1..], b, c);
      assert (a + b)[1..] == a[1..] + b;
    }
  }
}
