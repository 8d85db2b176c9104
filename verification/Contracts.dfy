/** internal/fleet: the contract documents and the checks that admit them.
    A `Valid` predicate holds exactly when the Go `Validate` returns nil. */
module Contracts {
  import opened Text

  /** Go's 64-bit `int`. */
  type GoInt = x: int | MIN_INT64 <= x <= MAX_INT64

  type Time = int  // 0 is Go's zero time
  type Byte = x: int | 0 <= x < 256

  predicate LowerAlnum(c: char) { 'a' <= c <= 'z' || IsDigit(c) }

  predicate IDChar(c: char) { LowerAlnum(c) || c == '.' || c == '_' || c == '-' }

  /** `^[a-z0-9][a-z0-9._-]{2,127}$` */
  predicate ValidID(s: string) {
    3 <= |s| <= 128 && LowerAlnum(s[0]) && forall i :: 0 <= i < |s| ==> IDChar(s[i])
  }

  /** `^sha256:[a-f0-9]{64}$` */
  predicate ValidDigest(s: string) {
    |s| == 71 && HasPrefix(s, "sha256:") && forall i :: 7 <= i < 71 ==> 'a' <= s[i] <= 'f' || IsDigit(s[i])
  }

  predicate BucketAndKey(rest: string) {
    var slash := Index(rest, '/');
    slash.Some? && slash.value > 0 && slash.value + 1 < |rest|
  }

  predicate ValidS3Prefix(s: string) {
    HasPrefix(s, "s3://") && HasSuffix(s, "/") && BucketAndKey(TrimPrefix(s, "s3://"))
  }

  predicate ValidS3JSON(s: string) {
    HasPrefix(s, "s3://") && HasSuffix(s, ".json") && BucketAndKey(TrimPrefix(s, "s3://"))
  }

  predicate ValidCommand(command: seq<string>) { command != [] && "" !in command }

  datatype ChildRange = ChildRange(start: GoInt, count: GoInt) {
    function End(): GoInt { Wrap64(start + count) }

    predicate Valid() { start >= 0 && count >= 1 }

    predicate Contains(child: int) { start <= child < End() }
  }

  datatype HostClass = HostClass(
      id: string, platformVersion: string, architecture: string,
      backend: string, cpuProfile: string, deviceModel: string) {
    predicate Valid() {
      ValidID(id) && platformVersion == "v0" && architecture == "aarch64" && backend == "kvm" &&
      cpuProfile != "" && deviceModel != ""
    }
  }

  datatype Bundle = Bundle(uri: string, digest: string)

  const MAX_UINT64: nat := 0xFFFF_FFFF_FFFF_FFFF
  const PAGE: nat := 4096

  function LeadingDigits(s: string): (k: nat)
    ensures k <= |s| && AllDigits(s[..k]) && (k < |s| ==> !IsDigit(s[k]))
  {
    if s == [] || !IsDigit(s[0]) then 0 else
      var k := LeadingDigits(s[1..]);
      assert s[..k + 1] == [s[0]] + s[1..][..k];
      k + 1
  }

  function Multiplier(unit: string): Option<nat> {
    if unit == "b" then Some(1)
    else if unit == "kb" || unit == "kib" then Some(1024)
    else if unit == "mb" || unit == "mib" then Some(1024 * 1024)
    else if unit == "gb" || unit == "gib" then Some(1024 * 1024 * 1024)
    else None
  }

  /** `^([0-9]+)(b|kb|kib|mb|mib|gb|gib)$`: a positive whole number of pages whose size in bytes fits in 64 bits. */
  predicate ValidMemory(value: string) {
    var k := LeadingDigits(value);
    var multiplier := Multiplier(value[k..]);
    k > 0 && multiplier.Some? &&
    var amount := Value(value[..k]);
    0 < amount <= MAX_UINT64 && amount <= MAX_UINT64 / multiplier.value && amount * multiplier.value % PAGE == 0
  }

  lemma {:induction false} DigitsThenUnit(digits: string, unit: string)
    requires AllDigits(digits) && (unit != "" ==> !IsDigit(unit[0]))
    ensures LeadingDigits(digits + unit) == |digits|
  {
    if digits == "" {
      assert digits + unit == unit;
    } else {
      DigitsThenUnit(digits[1..], unit);
      assert (digits + unit)[1..] == digits[1..] + unit;
    }
  }

  /** A memory size is accepted exactly when it is a positive whole number of 4 KiB pages that fits in 64 bits. */
  lemma ValidMemoryIff(amount: nat, unit: string)
    requires unit in {"b", "kb", "kib", "mb", "mib", "gb", "gib"}
    ensures
      var bytes := amount * (if unit == "b" then 1 else if unit in {"kb", "kib"} then 0x400
        else if unit in {"mb", "mib"} then 0x10_0000 else 0x4000_0000);
      ValidMemory(Itoa(amount) + unit) <==> 0 < bytes <= 0xFFFF_FFFF_FFFF_FFFF && bytes % 4096 == 0
  {
    var s := Itoa(amount) + unit;
    DigitsThenUnit(Itoa(amount), unit);
    PadValue(1, amount);
    assert s[..|Itoa(amount)|] == Itoa(amount) && s[|Itoa(amount)|..] == unit;
  }

  datatype PrepareSpec = PrepareSpec(command: seq<string>, memory: string, captureSignal: string, readyMarker: string) {
    predicate Valid() {
      ValidCommand(command) && (memory != "" ==> ValidMemory(memory)) &&
      ((captureSignal == "" && readyMarker == "") || (captureSignal == "USR1" && readyMarker != ""))
    }
  }

  /** Concurrency, retry and side-effect settings, shared by both run contracts. */
  datatype Policy = Policy(maxInFlightPerAgent: GoInt, maxAttemptsPerChild: GoInt, rerunCommittedChildren: bool,
    idempotencyRequired: bool) {
    predicate Valid() {
      maxInFlightPerAgent >= 1 && maxAttemptsPerChild >= 1 && !rerunCommittedChildren && idempotencyRequired
    }
  }

  /** The source/prepare/fork contract. */
  datatype Run = Run(
      runID: string, image: string, platform: string, prepare: PrepareSpec, forkCount: GoInt,
      children: ChildRange, command: seq<string>, policy: Policy, resultStore: string) {
    predicate Valid() {
      ValidID(runID) && image != "" && platform == "linux/arm64" && prepare.Valid() && forkCount >= 1 &&
      children.Valid() && children.End() <= forkCount && ValidCommand(command) && policy.Valid() &&
      ValidS3Prefix(resultStore)
    }

    function Compile(prepared: PreparedBundle): Option<BundleRun> {
      if !Valid() || prepared.bundle.uri == "" || !ValidDigest(prepared.bundle.digest) ||
         prepared.childCount < children.End() || !prepared.hostClass.Valid() then None
      else
        var run := BundleRun(runID, prepared.bundle, children, command, prepared.hostClass, policy, resultStore);
        if run.Valid() then Some(run) else None
    }
  }

  datatype PreparedBundle = PreparedBundle(bundle: Bundle, childCount: GoInt, hostClass: HostClass)

  /** The admitted, immutable contract. */
  datatype BundleRun = BundleRun(
      runID: string, bundle: Bundle, children: ChildRange, childCommand: seq<string>,
      hostClass: HostClass, policy: Policy, resultStore: string) {
    predicate Valid() {
      ValidID(runID) && bundle.uri != "" && ValidDigest(bundle.digest) && children.Valid() &&
      (childCommand != [] ==> ValidCommand(childCommand)) && hostClass.Valid() && policy.Valid() &&
      ValidS3Prefix(resultStore)
    }
  }

  /** `executeChild`: the client call that runs a child. */
  datatype GuestCall = Resume | RunFrom(command: seq<string>)

  function GuestCallOf(run: BundleRun): GuestCall {
    if |run.childCommand| == 0 then Resume else RunFrom(run.childCommand)
  }

  datatype ShardLease = ShardLease(
      runID: string, bundleDigest: string, shardID: string, childStart: GoInt, childCount: GoInt,
      attemptBudget: GoInt, hostClassID: string, agentID: string) {
    function Range(): ChildRange { ChildRange(childStart, childCount) }

    predicate Valid(run: BundleRun) {
      run.Valid() && runID == run.runID && bundleDigest == run.bundle.digest && ValidID(shardID) &&
      Range().Valid() && childStart >= run.children.start && Range().End() <= run.children.End() &&
      1 <= attemptBudget <= run.policy.maxAttemptsPerChild && hostClassID == run.hostClass.id && ValidID(agentID)
    }
  }

  datatype Level = Normal | Warning | Critical | Unsupported

  datatype Pressure = Pressure(disk: Level, memory: Level) {
    predicate Valid() { !disk.Unsupported? && !memory.Unsupported? }

    predicate IsCritical() { disk.Critical? || memory.Critical? }
  }

  datatype AgentStatus = AgentStatus(
      agentID: string, cellID: string, observedAt: Time, hostClass: HostClass, totalSlots: GoInt,
      availableSlots: GoInt, cacheCounters: seq<int>, pressure: Pressure, healthy: bool) {
    predicate Valid() {
      ValidID(agentID) && ValidID(cellID) && observedAt != 0 && hostClass.Valid() && totalSlots >= 1 &&
      0 <= availableSlots <= totalSlots && (forall c :: c in cacheCounters ==> c >= 0) && pressure.Valid() &&
      !(healthy && pressure.IsCritical())
    }
  }

  datatype AttemptStatus = Succeeded | Failed | SkippedTerminalExists | PlatformMismatch | NoStatus | OtherStatus

  datatype AttemptError = AttemptError(code: string, message: string, scope: string, retry: string, retryable: bool) {
    predicate Valid() {
      code != "" && message != "" &&
      ((scope == "" && retry == "" && !retryable) || (scope != "" && ValidRetry(retry, retryable)))
    }
  }

  /** SporeVM's retry classification, shared with the machine error body. */
  predicate ValidRetry(retry: string, retryable: bool) {
    (retry == "after_fix" || retry == "transient" || retry == "unknown") && retryable == (retry == "transient")
  }

  /** Previews are the decoded bytes of the base64 fields. */
  datatype AttemptOutput = AttemptOutput(
      stdoutBytes: int, stderrBytes: int, stdoutPreview: seq<Byte>, stderrPreview: seq<Byte>,
      stdoutTruncated: bool, stderrTruncated: bool) {
    predicate Valid() {
      stdoutBytes >= 0 && stderrBytes >= 0 && !(stdoutPreview == [] && stdoutTruncated) &&
      !(stderrPreview == [] && stderrTruncated) && |stdoutPreview| <= stdoutBytes && |stderrPreview| <= stderrBytes
    }
  }

  datatype Timings = Timings(
      artifactPull: real, materialization: real, resume: real, guestReady: real, resultCommit: real, localChild: real) {
    predicate Valid() {
      artifactPull >= 0.0 && materialization >= 0.0 && resume >= 0.0 && guestReady >= 0.0 && resultCommit >= 0.0 &&
      localChild >= 0.0
    }
  }

  datatype AttemptResult = AttemptResult(
      runID: string, bundleDigest: string, childID: int, attemptID: string, agentID: string, shardID: string,
      status: AttemptStatus, startedAt: Time, finishedAt: Time, timings: Timings, terminal: bool,
      resultURI: string, output: Option<AttemptOutput>, error: Option<AttemptError>) {
    predicate Valid(run: BundleRun) { BelongsTo(run) && WellFormed() }

    /** The record is about a child of this run, under well-formed ids. */
    predicate BelongsTo(run: BundleRun) { Identity(run, runID, bundleDigest, childID, attemptID, agentID, shardID) }

    predicate WellFormed() {
      !status.NoStatus? && !status.OtherStatus? && startedAt != 0 && finishedAt != 0 && finishedAt >= startedAt &&
        timings.Valid() &&
      (terminal ==> resultURI != "") && (resultURI != "" ==> ValidS3JSON(resultURI)) &&
      (output.Some? ==> output.value.Valid()) &&
      (status.Succeeded? || status.SkippedTerminalExists? ==> terminal) &&
      (status.Failed? || status.PlatformMismatch? ==> error.Some?) &&
      (error.Some? ==> error.value.Valid())
    }
  }

  predicate Identity(run: BundleRun, runID: string, digest: string, child: int, attemptID: string, agentID: string,
      shardID: string) {
    run.Valid() && runID == run.runID && digest == run.bundle.digest && run.children.Contains(child) &&
    ValidID(attemptID) && ValidID(agentID) && ValidID(shardID)
  }

  /** Compile's closing `run.Validate()` can reject nothing its own checks let through. The compiled run is about the
      prepared bundle, and its children run the source's own command; none is merely resumed. */
  lemma CompileIff(run: Run, prepared: PreparedBundle)
    ensures run.Compile(prepared).Some? <==>
            run.Valid() && prepared.bundle.uri != "" && ValidDigest(prepared.bundle.digest) &&
            prepared.childCount >= run.children.End() && prepared.hostClass.Valid()
    ensures run.Compile(prepared).Some? ==>
              var bundle := run.Compile(prepared).value;
              bundle.Valid() && bundle.children == run.children && bundle.bundle == prepared.bundle &&
              bundle.hostClass == prepared.hostClass && bundle.runID == run.runID && bundle.policy == run.policy &&
              bundle.resultStore == run.resultStore && bundle.childCommand == run.command &&
              GuestCallOf(bundle) == RunFrom(run.command)
  {
  }

  /** A valid range holds its `count` children exactly when its end does not wrap past 64 bits; a wrapped
      range holds none, although `Validate` accepts it. */
  lemma RangeHoldsItsChildren(r: ChildRange)
    requires r.Valid()
    ensures r.start + r.count <= MAX_INT64 <==> r.start < r.End()
    ensures r.start < r.End() ==> r.End() == r.start + r.count
  {
    if r.start + r.count > MAX_INT64 {
      var x := r.start + r.count - MIN_INT64;
      assert x - 0x1_0000_0000_0000_0000 == x % 0x1_0000_0000_0000_0000;
    }
  }

  /** Such a range passes every check of the source contract. */
  lemma WrappedRangeIsValid(run: Run)
    requires run.Valid()
    ensures run.(children := ChildRange(MAX_INT64, 1)).Valid()
    ensures !exists c :: ChildRange(MAX_INT64, 1).Contains(c)
  {
    assert ChildRange(MAX_INT64, 1).End() == MIN_INT64;
  }
}
