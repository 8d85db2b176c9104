/** Admission: choosing the agent that prepares a run, and assigning the whole run to one compatible agent. */
module Planner {
  import opened Text
  import opened Contracts
  import opened ResultLayout
  import opened ShardPool

  datatype PlanError =
    | InvalidRun
    | InvalidAgent
    | NoCompatibleAgents
    | InsufficientCapacity(need: int, have: int)

  datatype PlanSummary = PlanSummary(
      runID: string, planned: bool, childCount: int, shardCount: int, assignedShards: int, assignedChildren: int,
      agentCount: nat, healthyAgents: nat, compatibleAgents: nat, availableChildSlots: int)

  datatype Plan = Plan(summary: PlanSummary, lease: Option<ShardLease>)

  datatype CandidateAgent = CandidateAgent(status: AgentStatus, remaining: int)

  function Min(a: int, b: int): int { if a <= b then a else b }

  function Required(run: BundleRun): int { RequiredInFlightSlots(run.children.count, run.policy.maxInFlightPerAgent) }

  predicate Usable(a: AgentStatus) { a.healthy && !a.pressure.IsCritical() }

  predicate Compatible(run: BundleRun, a: AgentStatus) { Usable(a) && a.hostClass == run.hostClass }

  function Capacity(policy: Policy, a: AgentStatus): int { Min(a.availableSlots, policy.maxInFlightPerAgent) }

  /** An agent that may be given the whole run. */
  predicate Qualifies(run: BundleRun, a: AgentStatus) { Compatible(run, a) && Capacity(run.policy, a) >= Required(run) }

  ghost predicate AllValid(agents: seq<AgentStatus>) { forall a :: a in agents ==> a.Valid() }

  // --- Sorting by agent id

  predicate Ordered(s: seq<AgentStatus>) { forall i, j :: 0 <= i < j < |s| ==> !Less(s[j].agentID, s[i].agentID) }

  function InsertByID(a: AgentStatus, s: seq<AgentStatus>): seq<AgentStatus> {
    if s == [] || !Less(s[0].agentID, a.agentID) then [a] + s else [s[0]] + InsertByID(a, s[1..])
  }

  function SortedByID(s: seq<AgentStatus>): seq<AgentStatus> {
    if s == [] then [] else InsertByID(s[0], SortedByID(s[1..]))
  }

  lemma NotLessTransitive(a: string, b: string, c: string)
    requires !Less(b, a) && !Less(c, b)
    ensures !Less(c, a)
  {
    if Less(c, a) && a != b && b != c {
      LessTotal(a, b);
      LessTransitive(c, a, b);
    }
  }

  lemma {:induction false} InsertByIDElements(a: AgentStatus, s: seq<AgentStatus>)
    ensures multiset(InsertByID(a, s)) == multiset(s) + multiset{a}
    ensures forall b :: b in InsertByID(a, s) ==> b == a || b in s
  {
    if s != [] && Less(s[0].agentID, a.agentID) {
      InsertByIDElements(a, s[1..]);
      assert s == [s[0]] + s[1..];
    }
  }

  lemma {:induction false} InsertByIDSorts(a: AgentStatus, s: seq<AgentStatus>)
    requires Ordered(s)
    ensures Ordered(InsertByID(a, s))
  {
    if s == [] || !Less(s[0].agentID, a.agentID) {
      forall j | 0 <= j < |s| ensures !Less(s[j].agentID, a.agentID) {
        if j > 0 { NotLessTransitive(a.agentID, s[0].agentID, s[j].agentID); }
      }
    } else {
      InsertByIDSorts(a, s[1..]);
      InsertByIDElements(a, s[1..]);
      var rest := InsertByID(a, s[1..]);
      LessAsymmetric(s[0].agentID, a.agentID);
      forall j | 0 <= j < |rest| ensures !Less(rest[j].agentID, s[0].agentID) {
        assert rest[j] in rest;
        if rest[j] != a {
          var k :| 0 <= k < |s[1..]| && s[1..][k] == rest[j];
          assert rest[j] == s[k + 1];
        }
      }
    }
  }

  lemma LessAsymmetric(a: string, b: string)
    requires Less(a, b)
    ensures !Less(b, a)
  {
    LessIrreflexive(a);
    if Less(b, a) { LessTransitive(a, b, a); }
  }

  lemma {:induction false} SortedByIDSorts(s: seq<AgentStatus>)
    ensures Ordered(SortedByID(s)) && multiset(SortedByID(s)) == multiset(s)
  {
    if s != [] {
      SortedByIDSorts(s[1..]);
      InsertByIDSorts(s[0], SortedByID(s[1..]));
      InsertByIDElements(s[0], SortedByID(s[1..]));
      assert s == [s[0]] + s[1..];
    }
  }

  // --- What a plan must be

  /** The lease that hands the whole run to one agent. */
  function FullLease(run: BundleRun, agentID: string): ShardLease {
    ShardLease(run.runID, run.bundle.digest, FormatShardID(run.runID, 0), run.children.start, run.children.count,
               run.policy.maxAttemptsPerChild, run.hostClass.id, agentID)
  }

  /** The qualifying agent with the smallest id. */
  ghost predicate Chosen(run: BundleRun, agents: seq<AgentStatus>, a: AgentStatus) {
    a in agents && Qualifies(run, a) && forall b :: b in agents && Qualifies(run, b) ==> !Less(b.agentID, a.agentID)
  }

  /** The most a compatible agent offers, or 0. */
  ghost predicate BestCapacity(run: BundleRun, agents: seq<AgentStatus>, best: int) {
    && best >= 0
    && (forall a :: a in agents && Compatible(run, a) ==> Capacity(run.policy, a) <= best)
    && (best > 0 ==> exists a :: a in agents && Compatible(run, a) && Capacity(run.policy, a) == best)
  }

  /** Which of the five outcomes an admission has, and what it returns. */
  ghost predicate Planned(run: BundleRun, agents: seq<AgentStatus>, plan: Plan, error: Option<PlanError>) {
    match error
    case None =>
      && run.Valid() && AllValid(agents)
      && (exists a :: Chosen(run, agents, a) && plan.lease == Some(FullLease(run, a.agentID)))
      && plan.summary.planned
      && plan.summary.runID == run.runID
      && plan.summary.childCount == plan.summary.assignedChildren == run.children.count
      && plan.summary.shardCount == plan.summary.assignedShards == 1
    case Some(e) =>
      && plan.lease.None? && !plan.summary.planned
      && match e
         case InvalidRun => !run.Valid()
         case InvalidAgent => run.Valid() && !AllValid(agents)
         case NoCompatibleAgents => run.Valid() && AllValid(agents) && !AnyCompatible(run, agents)
         case InsufficientCapacity(need, have) =>
           && run.Valid() && AllValid(agents) && AnyCompatible(run, agents)
           && need == Required(run) > have && BestCapacity(run, agents, have)
  }

  /** A healthy agent under no critical pressure. */
  ghost predicate Sound(a: AgentStatus) {
    a.healthy && !a.pressure.disk.Critical? && !a.pressure.memory.Critical?
  }

  ghost predicate Matches(run: BundleRun, a: AgentStatus) { Sound(a) && a.hostClass == run.hostClass }

  /** Slots for all children at once, or for as many as one agent may run at a time. */
  ghost predicate HasRoom(children: int, policy: Policy, a: AgentStatus) {
    children <= a.availableSlots || policy.maxInFlightPerAgent <= a.availableSlots
  }

  ghost predicate Fits(run: BundleRun, a: AgentStatus) {
    Matches(run, a) && HasRoom(run.children.count, run.policy, a)
  }

  /** The least of the two numbers. */
  ghost predicate IsLeast(m: int, a: int, b: int) { m <= a && m <= b && (m == a || m == b) }

  /** The lease gives this agent every child of the run, with the attempts that the run allows each. */
  ghost predicate WholeLease(run: BundleRun, agentID: string, lease: ShardLease) {
    && lease.runID == run.runID && lease.bundleDigest == run.bundle.digest && lease.hostClassID == run.hostClass.id
    && lease.childStart == run.children.start && lease.childCount == run.children.count
    && lease.attemptBudget == run.policy.maxAttemptsPerChild
    && lease.agentID == agentID && lease.shardID == run.runID + "-shard-0000"
  }

  /** The best that matching agents offer, when none of them has room. */
  ghost predicate BestOffer(run: BundleRun, agents: seq<AgentStatus>, have: int) {
    && have >= 0
    && (forall a :: a in agents && Matches(run, a) ==>
          a.availableSlots <= have || run.policy.maxInFlightPerAgent <= have)
    && (have > 0 ==> exists a ::
          && a in agents && Matches(run, a)
          && IsLeast(have, a.availableSlots, run.policy.maxInFlightPerAgent))
  }

  lemma FitsIff(run: BundleRun, a: AgentStatus)
    ensures Compatible(run, a) <==> Matches(run, a)
    ensures Qualifies(run, a) <==> Fits(run, a)
    ensures IsLeast(Capacity(run.policy, a), a.availableSlots, run.policy.maxInFlightPerAgent)
  {
  }

  lemma FullLeaseIsWhole(run: BundleRun, agentID: string)
    ensures WholeLease(run, agentID, FullLease(run, agentID))
  {
    assert Pad(1, 0) == "0" && Pad(2, 0) == "00" && Pad(3, 0) == "000" && Pad(4, 0) == "0000";
  }

  /** The planner admits a run exactly when everything validates and some agent fits: healthy, under no critical
      pressure, of the run's host class, with slots for all children or for as many as one agent may run at a time. The
      lease gives such an agent, the one of smallest id, the whole run and the run's attempts per child. A refusal for
      capacity says what is needed and the best on offer. */
  lemma AdmittedIff(run: BundleRun, agents: seq<AgentStatus>, plan: Plan, error: Option<PlanError>)
    requires Planned(run, agents, plan, error)
    ensures error.None? <==> run.Valid() && AllValid(agents) && exists a :: a in agents && Fits(run, a)
    ensures error.None? ==> plan.lease.Some? && exists a ::
      && a in agents && Fits(run, a) && (forall b :: b in agents && Fits(run, b) ==> !Less(b.agentID, a.agentID))
      && WholeLease(run, a.agentID, plan.lease.value)
    ensures error == Some(NoCompatibleAgents) <==>
      run.Valid() && AllValid(agents) && !exists a :: a in agents && Matches(run, a)
    ensures error.Some? && error.value.InsufficientCapacity? ==>
      && IsLeast(error.value.need, run.children.count, run.policy.maxInFlightPerAgent)
      && error.value.have < error.value.need && BestOffer(run, agents, error.value.have)
  {
    forall a: AgentStatus
      ensures Compatible(run, a) <==> Matches(run, a)
      ensures Qualifies(run, a) <==> Fits(run, a)
      ensures IsLeast(Capacity(run.policy, a), a.availableSlots, run.policy.maxInFlightPerAgent)
    {
      FitsIff(run, a);
    }
    if error.None? {
      var a :| Chosen(run, agents, a) && plan.lease == Some(FullLease(run, a.agentID));
      FullLeaseIsWhole(run, a.agentID);
    }
  }

  // --- The planner's loops

  /** The compatible agents with a free slot among the first n. */
  ghost predicate CandidatesOf(run: BundleRun, sorted: seq<AgentStatus>, n: nat, candidates: seq<CandidateAgent>) {
    && n <= |sorted|
    && (forall c :: c in candidates ==>
      c.status in sorted[..n] && Compatible(run, c.status) && c.remaining == Capacity(run.policy, c.status) > 0)
    && (forall a :: a in sorted[..n] && Compatible(run, a) && Capacity(run.policy, a) > 0 ==>
      CandidateAgent(a, Capacity(run.policy, a)) in candidates)
    && (forall i, j :: 0 <= i < j < |candidates| ==> !Less(candidates[j].status.agentID, candidates[i].status.agentID))
  }

  lemma ExtendCandidates(run: BundleRun, sorted: seq<AgentStatus>, i: nat, candidates: seq<CandidateAgent>,
      extended: seq<CandidateAgent>)
    requires Ordered(sorted) && i < |sorted| && CandidatesOf(run, sorted, i, candidates)
    requires
      var a := sorted[i];
      extended == if Compatible(run, a) && Capacity(run.policy, a) > 0
        then candidates + [CandidateAgent(a, Capacity(run.policy, a))] else candidates
    ensures CandidatesOf(run, sorted, i + 1, extended)
  {
    var agent := sorted[i];
    assert sorted[..i + 1] == sorted[..i] + [agent];
    forall c | c in candidates ensures !Less(agent.agentID, c.status.agentID) {
      var k :| 0 <= k < i && sorted[..i][k] == c.status;
      assert sorted[k] == c.status;
    }
    assert extended != candidates ==> CandidateAgent(agent, Capacity(run.policy, agent)) == extended[|candidates|];
    forall j, k | 0 <= j < k < |extended| ensures !Less(extended[k].status.agentID, extended[j].status.agentID) {
      assert extended[j] in candidates;
    }
  }

  /** Whether any of the agents is compatible. */
  ghost predicate AnyCompatible(run: BundleRun, agents: seq<AgentStatus>) {
    exists a :: a in agents && Compatible(run, a)
  }

  const EMPTY_SUMMARY: PlanSummary := PlanSummary("", false, 0, 0, 0, 0, 0, 0, 0, 0)

  // --- The counters of a summary

  datatype Counters = Counters(healthy: nat, compatible: nat, slots: int)

  function Plus(a: Counters, b: Counters): Counters {
    Counters(a.healthy + b.healthy, a.compatible + b.compatible, a.slots + b.slots)
  }

  /** What one agent adds: itself if healthy, itself and its capacity if compatible. */
  function CountersOf(run: BundleRun, a: AgentStatus): Counters {
    var compatible := Compatible(run, a);
    Counters(if a.healthy then 1 else 0, if compatible then 1 else 0, if compatible then Capacity(run.policy, a) else 0)
  }

  /** The totals of the first n agents. */
  function TotalsTo(run: BundleRun, agents: seq<AgentStatus>, n: nat): Counters
    requires n <= |agents|
  {
    if n == 0 then Counters(0, 0, 0) else Plus(TotalsTo(run, agents, n - 1), CountersOf(run, agents[n - 1]))
  }

  function Totals(run: BundleRun, agents: seq<AgentStatus>): Counters { TotalsTo(run, agents, |agents|) }

  function CountersIn(s: PlanSummary): Counters { Counters(s.healthyAgents, s.compatibleAgents, s.availableChildSlots) }

  lemma PlusAssociates(a: Counters, b: Counters, c: Counters)
    ensures Plus(Plus(a, b), c) == Plus(a, Plus(b, c)) && Plus(a, Plus(b, c)) == Plus(b, Plus(a, c))
  {
  }

  lemma {:induction false} TotalsShift(run: BundleRun, all: seq<AgentStatus>, rest: seq<AgentStatus>, n: nat)
    requires all != [] && n <= |rest| == |all| - 1 && forall i :: 0 <= i < |rest| ==> all[i + 1] == rest[i]
    ensures TotalsTo(run, all, n + 1) == Plus(CountersOf(run, all[0]), TotalsTo(run, rest, n))
  {
    if n == 0 {
      TotalsOfOne(run, all);
    } else {
      TotalsShift(run, all, rest, n - 1);
      assert all[n] == rest[n - 1];
      TotalsNext(run, all, rest, n, CountersOf(run, all[0]));
    }
  }

  lemma TotalsOfOne(run: BundleRun, all: seq<AgentStatus>)
    requires all != []
    ensures TotalsTo(run, all, 1) == Plus(CountersOf(run, all[0]), Counters(0, 0, 0))
  {
    assert TotalsTo(run, all, 0) == Counters(0, 0, 0);
  }

  lemma TotalsNext(run: BundleRun, all: seq<AgentStatus>, rest: seq<AgentStatus>, n: nat, first: Counters)
    requires 0 < n <= |rest| == |all| - 1 && all[n] == rest[n - 1]
    requires TotalsTo(run, all, n) == Plus(first, TotalsTo(run, rest, n - 1))
    ensures TotalsTo(run, all, n + 1) == Plus(first, TotalsTo(run, rest, n))
  {
    PlusAssociates(first, TotalsTo(run, rest, n - 1), CountersOf(run, rest[n - 1]));
  }

  lemma TotalsCons(run: BundleRun, all: seq<AgentStatus>, a: AgentStatus, rest: seq<AgentStatus>)
    requires all == [a] + rest
    ensures Totals(run, all) == Plus(CountersOf(run, a), Totals(run, rest))
  {
    TotalsShift(run, all, rest, |rest|);
  }

  lemma {:induction false} TotalsInsert(run: BundleRun, a: AgentStatus, s: seq<AgentStatus>)
    ensures Totals(run, InsertByID(a, s)) == Plus(CountersOf(run, a), Totals(run, s))
  {
    if s == [] || !Less(s[0].agentID, a.agentID) {
      TotalsCons(run, InsertByID(a, s), a, s);
    } else {
      var first, rest := s[0], s[1..];
      assert s == [first] + rest;
      TotalsInsert(run, a, rest);
      TotalsCons(run, InsertByID(a, s), first, InsertByID(a, rest));
      TotalsCons(run, s, first, rest);
      PlusAssociates(CountersOf(run, first), CountersOf(run, a), Totals(run, rest));
    }
  }

  /** The order of the agents does not matter to the totals. */
  lemma {:induction false} TotalsSorted(run: BundleRun, agents: seq<AgentStatus>)
    ensures Totals(run, SortedByID(agents)) == Totals(run, agents)
  {
    if agents != [] {
      var first, rest := agents[0], agents[1..];
      assert agents == [first] + rest;
      TotalsSorted(run, rest);
      TotalsInsert(run, first, SortedByID(rest));
      TotalsCons(run, agents, first, rest);
    }
  }

  ghost function SlotsOffered(run: BundleRun, agents: seq<AgentStatus>, n: nat): int
    requires n <= |agents|
  {
    if n == 0 then 0
    else
      var a := agents[n - 1];
      SlotsOffered(run, agents, n - 1) +
      if !Matches(run, a) then 0
      else if a.availableSlots < run.policy.maxInFlightPerAgent then a.availableSlots
      else run.policy.maxInFlightPerAgent
  }

  function Healthy(agents: seq<AgentStatus>, n: nat): set<nat> {
    set i: nat | i < n && i < |agents| && agents[i].healthy
  }

  ghost function Matching(run: BundleRun, agents: seq<AgentStatus>, n: nat): set<nat> {
    set i: nat | i < n && i < |agents| && Matches(run, agents[i])
  }

  lemma HealthyNext(agents: seq<AgentStatus>, n: nat)
    requires n < |agents|
    ensures |Healthy(agents, n + 1)| == |Healthy(agents, n)| + if agents[n].healthy then 1 else 0
  {
    assert Healthy(agents, n + 1) == Healthy(agents, n) + if agents[n].healthy then {n} else {};
  }

  lemma MatchingNext(run: BundleRun, agents: seq<AgentStatus>, n: nat)
    requires n < |agents|
    ensures |Matching(run, agents, n + 1)| == |Matching(run, agents, n)| + if Matches(run, agents[n]) then 1 else 0
  {
    assert Matching(run, agents, n + 1) == Matching(run, agents, n) + if Matches(run, agents[n]) then {n} else {};
  }

  /** The totals of the first n agents: how many are healthy, how many match the run, and the slots these offer it. */
  lemma {:induction false} TotalsMeaning(run: BundleRun, agents: seq<AgentStatus>, n: nat)
    requires n <= |agents|
    ensures TotalsTo(run, agents, n) ==
      Counters(|Healthy(agents, n)|, |Matching(run, agents, n)|, SlotsOffered(run, agents, n))
  {
    if n == 0 {
      assert Healthy(agents, 0) == {} && Matching(run, agents, 0) == {};
    } else {
      TotalsMeaning(run, agents, n - 1);
      FitsIff(run, agents[n - 1]);
      HealthyNext(agents, n - 1);
      MatchingNext(run, agents, n - 1);
    }
  }

  /** What the summary counts: every agent, or, if one is invalid, those before the first invalid one in order. */
  ghost predicate Counts(run: BundleRun, agents: seq<AgentStatus>, summary: PlanSummary, invalid: bool) {
    && summary.agentCount == |agents|
    && if invalid then StoppedAt(run, SortedByID(agents), CountersIn(summary))
      else CountersIn(summary) == Totals(run, agents)
  }

  ghost predicate StoppedAt(run: BundleRun, sorted: seq<AgentStatus>, counters: Counters) {
    exists k: nat :: k < |sorted| && FirstValid(sorted, k) && !sorted[k].Valid() && counters == TotalsTo(run, sorted, k)
  }

  /** One valid agent: counted, and a candidate if it is compatible and has a free slot. */
  method Consider(run: BundleRun, agent: AgentStatus, before: PlanSummary, candidates: seq<CandidateAgent>)
      returns (summary: PlanSummary, extended: seq<CandidateAgent>)
    ensures summary.agentCount == before.agentCount
    ensures summary.compatibleAgents == before.compatibleAgents + if Compatible(run, agent) then 1 else 0
    ensures CountersIn(summary) == Plus(CountersIn(before), CountersOf(run, agent))
    ensures extended == if Compatible(run, agent) && Capacity(run.policy, agent) > 0
      then candidates + [CandidateAgent(agent, Capacity(run.policy, agent))] else candidates
  {
    summary, extended := before, candidates;
    if agent.healthy { summary := summary.(healthyAgents := summary.healthyAgents + 1); }
    if !agent.healthy || agent.pressure.IsCritical() || agent.hostClass != run.hostClass {
      return;
    }
    var available := Min(agent.availableSlots, run.policy.maxInFlightPerAgent);
    summary := summary.(compatibleAgents := summary.compatibleAgents + 1,
      availableChildSlots := summary.availableChildSlots + available);
    if available > 0 { extended := candidates + [CandidateAgent(agent, available)]; }
  }

  method CandidateAgents(run: BundleRun, agents: seq<AgentStatus>)
      returns (candidates: seq<CandidateAgent>, summary: PlanSummary, error: Option<PlanError>)
    ensures Counts(run, agents, summary, error == Some(InvalidAgent))
    ensures error.None? || error == Some(InvalidAgent) || error == Some(NoCompatibleAgents)
    ensures error == Some(InvalidAgent) <==> !AllValid(agents)
    ensures error == Some(NoCompatibleAgents) <==> AllValid(agents) && !AnyCompatible(run, agents)
    ensures error.None? ==> CandidatesOf(run, SortedByID(agents), |agents|, candidates)
  {
    var sorted := SortedByID(agents);
    SortedByIDSorts(agents);
    SameAgents(agents);
    TotalsSorted(run, agents);
    var invalid;
    candidates, summary, invalid := ConsiderAll(run, sorted);
    if invalid {
      SomeInvalid(run, agents, CountersIn(summary));
      return [], summary, Some(InvalidAgent);
    }
    AllConsidered(run, agents, candidates, summary.compatibleAgents);
    if summary.compatibleAgents == 0 {
      return [], summary, Some(NoCompatibleAgents);
    }
    error := None;
  }

  /** The loop over the sorted agents, up to the first invalid one. */
  method ConsiderAll(run: BundleRun, sorted: seq<AgentStatus>)
      returns (candidates: seq<CandidateAgent>, summary: PlanSummary, invalid: bool)
    requires Ordered(sorted)
    ensures summary.agentCount == |sorted|
    ensures invalid ==> StoppedAt(run, sorted, CountersIn(summary))
    ensures !invalid ==> FirstValid(sorted, |sorted|) && CountersIn(summary) == TotalsTo(run, sorted, |sorted|)
    ensures !invalid ==> Considered(run, sorted, |sorted|, candidates, summary.compatibleAgents)
  {
    candidates, summary := [], EMPTY_SUMMARY.(agentCount := |sorted|);
    for i := 0 to |sorted|
      invariant summary.agentCount == |sorted| && CountersIn(summary) == TotalsTo(run, sorted, i)
      invariant Considered(run, sorted, i, candidates, summary.compatibleAgents) && FirstValid(sorted, i)
    {
      var agent := sorted[i];
      if !agent.Valid() {
        StopsAt(run, sorted, i, CountersIn(summary));
        return candidates, summary, true;
      }
      summary, candidates := ConsiderAt(run, sorted, i, agent, summary, candidates);
      ValidNext(sorted, i);
    }
    invalid := false;
  }

  lemma StopsAt(run: BundleRun, sorted: seq<AgentStatus>, k: nat, counters: Counters)
    requires k < |sorted| && FirstValid(sorted, k) && !sorted[k].Valid() && counters == TotalsTo(run, sorted, k)
    ensures StoppedAt(run, sorted, counters)
  {
  }

  lemma ValidNext(sorted: seq<AgentStatus>, i: nat)
    requires i < |sorted| && FirstValid(sorted, i) && sorted[i].Valid()
    ensures FirstValid(sorted, i + 1)
  {
  }

  method ConsiderAt(
      run: BundleRun, ghost sorted: seq<AgentStatus>, ghost i: nat, agent: AgentStatus, before: PlanSummary,
      candidates: seq<CandidateAgent>) returns (summary: PlanSummary, extended: seq<CandidateAgent>)
    requires Ordered(sorted) && i < |sorted| && agent == sorted[i]
    requires Considered(run, sorted, i, candidates, before.compatibleAgents)
    requires CountersIn(before) == TotalsTo(run, sorted, i)
    ensures summary.agentCount == before.agentCount
    ensures Considered(run, sorted, i + 1, extended, summary.compatibleAgents)
    ensures CountersIn(summary) == TotalsTo(run, sorted, i + 1)
  {
    summary, extended := Consider(run, agent, before, candidates);
    ConsiderNext(run, sorted, i, candidates, extended, before.compatibleAgents);
  }

  lemma SomeInvalid(run: BundleRun, agents: seq<AgentStatus>, counters: Counters)
    requires StoppedAt(run, SortedByID(agents), counters)
    ensures !AllValid(agents)
  {
    var sorted := SortedByID(agents);
    var k: nat :| k < |sorted| && FirstValid(sorted, k) && !sorted[k].Valid() && counters == TotalsTo(run, sorted, k);
    SameAgents(agents);
    assert sorted[k] in sorted;
  }

  ghost predicate FirstValid(sorted: seq<AgentStatus>, n: nat)
    requires n <= |sorted|
  {
    forall j :: 0 <= j < n ==> sorted[j].Valid()
  }

  /** After the first n agents in order: their candidates collected, the compatible ones counted. */
  ghost predicate Considered(run: BundleRun, sorted: seq<AgentStatus>, n: nat, candidates: seq<CandidateAgent>,
      compatible: nat) {
    && CandidatesOf(run, sorted, n, candidates)
    && (compatible == 0 <==> forall j :: 0 <= j < n ==> !Compatible(run, sorted[j]))
  }

  lemma ConsiderNext(run: BundleRun, sorted: seq<AgentStatus>, i: nat, candidates: seq<CandidateAgent>,
      extended: seq<CandidateAgent>, compatible: nat)
    requires Ordered(sorted) && i < |sorted| && Considered(run, sorted, i, candidates, compatible)
    requires
      var a := sorted[i];
      extended == if Compatible(run, a) && Capacity(run.policy, a) > 0
        then candidates + [CandidateAgent(a, Capacity(run.policy, a))] else candidates
    ensures Considered(run, sorted, i + 1, extended, compatible + if Compatible(run, sorted[i]) then 1 else 0)
  {
    ExtendCandidates(run, sorted, i, candidates, extended);
  }

  lemma AllConsidered(run: BundleRun, agents: seq<AgentStatus>, candidates: seq<CandidateAgent>, compatible: nat)
    requires Considered(run, SortedByID(agents), |SortedByID(agents)|, candidates, compatible)
    requires FirstValid(SortedByID(agents), |SortedByID(agents)|)
    ensures AllValid(agents) && (compatible == 0 <==> !AnyCompatible(run, agents)) && |SortedByID(agents)| == |agents|
  {
    EveryAgent(agents, run);
    SameAgents(agents);
  }

  lemma EveryAgent(agents: seq<AgentStatus>, run: BundleRun)
    ensures var s := SortedByID(agents); (forall j :: 0 <= j < |s| ==> s[j].Valid()) <==> AllValid(agents)
    ensures var s := SortedByID(agents); (exists j :: 0 <= j < |s| && Compatible(run, s[j])) <==>
      AnyCompatible(run, agents)
  {
    SameAgents(agents);
    var s := SortedByID(agents);
    if forall j :: 0 <= j < |s| ==> s[j].Valid() {
      forall a | a in agents ensures a.Valid() { assert a in s; }
    }
    if AnyCompatible(run, agents) {
      var a :| a in agents && Compatible(run, a);
      assert a in s;
    }
  }

  method FirstCandidateWithCapacity(candidates: seq<CandidateAgent>, required: int) returns (index: int)
    ensures -1 <= index < |candidates|
    ensures index >= 0 ==> candidates[index].remaining >= required
    ensures forall i :: 0 <= i < |candidates| && (index < 0 || i < index) ==> candidates[i].remaining < required
  {
    for i := 0 to |candidates|
      invariant forall j :: 0 <= j < i ==> candidates[j].remaining < required
    {
      if candidates[i].remaining >= required {
        return i;
      }
    }
    return -1;
  }

  method BestCandidateCapacity(candidates: seq<CandidateAgent>) returns (best: int)
    ensures best >= 0 && forall c :: c in candidates ==> c.remaining <= best
    ensures best > 0 ==> exists c :: c in candidates && c.remaining == best
  {
    best := 0;
    for i := 0 to |candidates|
      invariant best >= 0 && forall j :: 0 <= j < i ==> candidates[j].remaining <= best
      invariant best > 0 ==> exists c :: c in candidates && c.remaining == best
    {
      if candidates[i].remaining > best { best := candidates[i].remaining; }
    }
  }

  method BuildSingleAgentSequentialPlan(run: BundleRun, agents: seq<AgentStatus>)
      returns (plan: Plan, error: Option<PlanError>)
    ensures Planned(run, agents, plan, error)
    ensures error != Some(InvalidRun) ==> Counts(run, agents, plan.summary, error == Some(InvalidAgent))
  {
    if !run.Valid() {
      return Plan(EMPTY_SUMMARY, None), Some(InvalidRun);
    }
    var candidates, summary, refused := CandidateAgents(run, agents);
    summary := summary.(runID := run.runID, planned := false, childCount := run.children.count, shardCount := 1,
      assignedShards := 0, assignedChildren := 0);
    if refused.Some? {
      return Plan(summary, None), refused;
    }
    var sorted := SortedByID(agents);
    SameAgents(agents);
    var required := Required(run);
    var index := FirstCandidateWithCapacity(candidates, required);
    if index < 0 {
      var best := BestCandidateCapacity(candidates);
      CandidatesCapacity(run, agents, candidates, best);
      return Plan(summary, None), Some(InsufficientCapacity(required, best));
    }
    var candidate := candidates[index];
    FirstIsChosen(run, agents, candidates, index);
    summary := summary.(assignedShards := 1, assignedChildren := run.children.count, planned := true);
    return Plan(summary, Some(FullLease(run, candidate.status.agentID))), None;
  }

  lemma SameAgents(agents: seq<AgentStatus>)
    ensures |SortedByID(agents)| == |agents|
    ensures forall a :: a in SortedByID(agents) <==> a in agents
    ensures SortedByID(agents)[..|agents|] == SortedByID(agents)
  {
    SortedByIDSorts(agents);
    var sorted := SortedByID(agents);
    assert |multiset(sorted)| == |multiset(agents)|;
    forall a ensures a in sorted <==> a in agents { assert a in multiset(sorted) <==> a in multiset(agents); }
  }

  lemma CandidatesCapacity(run: BundleRun, agents: seq<AgentStatus>, candidates: seq<CandidateAgent>, best: int)
    requires CandidatesOf(run, SortedByID(agents), |agents|, candidates)
    requires best >= 0 && forall c :: c in candidates ==> c.remaining <= best
    requires best > 0 ==> exists c :: c in candidates && c.remaining == best
    ensures BestCapacity(run, agents, best)
  {
    SameAgents(agents);
    forall a | a in agents && Compatible(run, a) ensures Capacity(run.policy, a) <= best {
      assert Capacity(run.policy, a) > 0 ==> CandidateAgent(a, Capacity(run.policy, a)) in candidates;
    }
  }

  lemma FirstIsChosen(run: BundleRun, agents: seq<AgentStatus>, candidates: seq<CandidateAgent>, index: nat)
    requires CandidatesOf(run, SortedByID(agents), |agents|, candidates) && Required(run) >= 1
    requires index < |candidates| && candidates[index].remaining >= Required(run)
    requires forall i :: 0 <= i < index ==> candidates[i].remaining < Required(run)
    ensures Chosen(run, agents, candidates[index].status)
  {
    SameAgents(agents);
    var a := candidates[index].status;
    assert candidates[index] in candidates;
    forall b | b in agents && Qualifies(run, b) ensures !Less(b.agentID, a.agentID) {
      assert b in SortedByID(agents);
      assert CandidateAgent(b, Capacity(run.policy, b)) in candidates;
      var k :| 0 <= k < |candidates| && candidates[k] == CandidateAgent(b, Capacity(run.policy, b));
      if k == index { LessIrreflexive(a.agentID); }
    }
  }

  // --- The source run's agent

  datatype Selection = Endpoint(index: nat) | Refused(error: PlanError)

  predicate CanPrepare(source: Run, a: AgentStatus) {
    Usable(a) &&
      Capacity(source.policy, a) >= RequiredInFlightSlots(source.children.count, source.policy.maxInFlightPerAgent)
  }

  /** The agent chosen to prepare a run is the first sound one with room for it; a refusal for capacity says what is
      needed and what the best sound agent offers. */
  lemma SelectedMeaning(source: Run, endpoints: seq<AgentStatus>, s: Selection)
    requires Selected(source, endpoints, s)
    ensures s.Endpoint? ==>
      && s.index < |endpoints| && Sound(endpoints[s.index])
      && HasRoom(source.children.count, source.policy, endpoints[s.index])
      && forall j :: 0 <= j < s.index ==>
           !(Sound(endpoints[j]) && HasRoom(source.children.count, source.policy, endpoints[j]))
    ensures s.Refused? <==>
      !source.Valid() ||
      forall a :: a in endpoints ==> !(Sound(a) && HasRoom(source.children.count, source.policy, a))
    ensures s == Refused(NoCompatibleAgents) <==> source.Valid() && forall a :: a in endpoints ==> !Sound(a)
    ensures s.Refused? && s.error.InsufficientCapacity? ==>
      && IsLeast(s.error.need, source.children.count, source.policy.maxInFlightPerAgent)
      && 0 <= s.error.have < s.error.need
      && (forall a :: a in endpoints && Sound(a) ==>
            a.availableSlots <= s.error.have || source.policy.maxInFlightPerAgent <= s.error.have)
      && (s.error.have > 0 ==> exists a ::
            && a in endpoints && Sound(a)
            && IsLeast(s.error.have, a.availableSlots, source.policy.maxInFlightPerAgent))
  {
    forall a: AgentStatus
      ensures Usable(a) <==> Sound(a)
      ensures CanPrepare(source, a) <==> Sound(a) && HasRoom(source.children.count, source.policy, a)
      ensures IsLeast(Capacity(source.policy, a), a.availableSlots, source.policy.maxInFlightPerAgent)
    {
    }
    if s.Endpoint? { assert endpoints[s.index] in endpoints; }
  }

  ghost predicate Selected(source: Run, endpoints: seq<AgentStatus>, s: Selection) {
    match s
    case Endpoint(i) =>
      && source.Valid() && i < |endpoints| && CanPrepare(source, endpoints[i])
      && forall j :: 0 <= j < i ==> !CanPrepare(source, endpoints[j])
    case Refused(e) =>
      match e
      case InvalidRun => !source.Valid()
      case NoCompatibleAgents => source.Valid() && forall a :: a in endpoints ==> !Usable(a)
      case InsufficientCapacity(need, have) =>
        && source.Valid() && (exists a :: a in endpoints && Usable(a)) &&
          (forall a :: a in endpoints ==> !CanPrepare(source, a))
        && need == RequiredInFlightSlots(source.children.count, source.policy.maxInFlightPerAgent) > have >= 0
        && (forall a :: a in endpoints && Usable(a) ==> Capacity(source.policy, a) <= have)
        && (have > 0 ==> exists a :: a in endpoints && Usable(a) && Capacity(source.policy, a) == have)
      case InvalidAgent => false
  }

  method SelectPrepareEndpoint(source: Run, endpoints: seq<AgentStatus>) returns (s: Selection)
    ensures Selected(source, endpoints, s)
  {
    if !source.Valid() {
      return Refused(InvalidRun);
    }
    var required := RequiredInFlightSlots(source.children.count, source.policy.maxInFlightPerAgent);
    var best, healthy := 0, false;
    for i := 0 to |endpoints|
      invariant best < required && Surveyed(source.policy, endpoints, i, best, healthy)
    {
      var status := endpoints[i];
      SurveyNext(source.policy, endpoints, i, best, healthy);
      if !status.healthy || status.pressure.IsCritical() {
        continue;
      }
      ghost var before := healthy;
      healthy := true;
      var capacity := Min(status.availableSlots, source.policy.maxInFlightPerAgent);
      if capacity >= required {
        FirstFound(source, endpoints, i, best, before);
        return Endpoint(i);
      }
      if capacity > best { best := capacity; }
    }
    RefusedFairly(source, endpoints, best, healthy);
    if !healthy {
      return Refused(NoCompatibleAgents);
    }
    return Refused(InsufficientCapacity(required, best));
  }

  lemma SurveyNext(policy: Policy, endpoints: seq<AgentStatus>, i: nat, best: int, healthy: bool)
    requires i < |endpoints| && Surveyed(policy, endpoints, i, best, healthy)
    ensures
      var usable, capacity := Usable(endpoints[i]), Capacity(policy, endpoints[i]);
      Surveyed(policy, endpoints, i + 1, if usable && capacity > best then capacity else best, healthy || usable)
  {
    assert endpoints[i] in endpoints;
  }

  lemma FirstFound(source: Run, endpoints: seq<AgentStatus>, i: nat, best: int, healthy: bool)
    requires source.Valid() && i < |endpoints| && Surveyed(source.policy, endpoints, i, best, healthy)
    requires best < RequiredInFlightSlots(source.children.count, source.policy.maxInFlightPerAgent)
    requires CanPrepare(source, endpoints[i])
    ensures Selected(source, endpoints, Endpoint(i))
  {
  }

  lemma RefusedFairly(source: Run, endpoints: seq<AgentStatus>, best: int, healthy: bool)
    requires source.Valid() && Surveyed(source.policy, endpoints, |endpoints|, best, healthy)
    requires best < RequiredInFlightSlots(source.children.count, source.policy.maxInFlightPerAgent)
    ensures
      var required := RequiredInFlightSlots(source.children.count, source.policy.maxInFlightPerAgent);
      Selected(source, endpoints, Refused(if healthy then InsufficientCapacity(required, best) else NoCompatibleAgents))
  {
  }

  /** Of the first i agents: whether any is usable, and the best capacity of those that are. */
  ghost predicate Surveyed(policy: Policy, endpoints: seq<AgentStatus>, i: nat, best: int, healthy: bool) {
    && i <= |endpoints| && best >= 0
    && (healthy <==> exists j :: 0 <= j < i && Usable(endpoints[j]))
    && (forall j :: 0 <= j < i && Usable(endpoints[j]) ==> Capacity(policy, endpoints[j]) <= best)
    && (best > 0 ==> exists a :: a in endpoints && Usable(a) && Capacity(policy, a) == best)
  }

  datatype BundleInspection = BundleInspection(digest: string, childCount: GoInt, hostClass: HostClass) {
    predicate Valid(run: BundleRun) {
      digest == run.bundle.digest && childCount >= run.children.End() &&
        (hostClass.id != "" ==> hostClass == run.hostClass)
    }
  }

  /** `preparedLocalInspector` */
  function LocalInspection(prepared: PreparedBundle): BundleInspection {
    BundleInspection(prepared.bundle.digest, prepared.childCount, prepared.hostClass)
  }

  /** A source run that selects an agent and compiles is not refused afterwards: with a validated status, as the
      run's own copy of it is rewritten, the local inspection passes and the plan hands the agent the whole range,
      within the slots it offers. The lease validates exactly when the run id leaves room for the shard suffix. */
  lemma NeverRefusedLater(source: Run, endpoints: seq<AgentStatus>, i: nat, prepared: PreparedBundle, plan: Plan,
      error: Option<PlanError>)
    requires Selected(source, endpoints, Endpoint(i)) && source.Compile(prepared).Some? && endpoints[i].Valid()
    requires Planned(source.Compile(prepared).value, [endpoints[i].(hostClass := prepared.hostClass)], plan, error)
    ensures
      var run := source.Compile(prepared).value;
      && LocalInspection(prepared).Valid(run)
      && error.None?
      && run.childCommand == source.command
      && plan.lease == Some(FullLease(run, endpoints[i].agentID))
      && WholeLease(run, endpoints[i].agentID, plan.lease.value)
      && plan.lease.value.Range() == source.children
      && plan.lease.value.attemptBudget == source.policy.maxAttemptsPerChild
      && (plan.lease.value.Valid(run) <==> |source.runID| <= 117)
      && ShardSlotDemand(run, plan.lease.value) <= endpoints[i].availableSlots
  {
    CompileIff(source, prepared);
    var run := source.Compile(prepared).value;
    var agent := endpoints[i].(hostClass := prepared.hostClass);
    assert Qualifies(run, agent) && agent in [agent];
    AdmittedIff(run, [agent], plan, error);
    FullLeaseValid(run, agent.agentID);
    FullLeaseIsWhole(run, agent.agentID);
  }

  lemma FullLeaseValid(run: BundleRun, agentID: string)
    requires run.Valid() && ValidID(agentID)
    ensures FullLease(run, agentID).Valid(run) <==> |run.runID| <= 117
  {
    ShardIDValid(run.runID);
  }
}
