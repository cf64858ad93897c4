/** How one collected slice is judged
    (scripts/run_relay_r2_primary_batch.py: validate_slice, the tail of
    run_slice, quarantine and the two remote-exit-code recoveries). */
module SliceVerdict {
  import opened Common

  /** A counter read from a first file and, when that is missing or zero, from a
      second one. A missing field is 0. */
  datatype Reported = Reported(primary: nat, fallback: nat) {
    function Value(): nat {
      if primary != 0 then primary else fallback
    }
  }

  datatype Counters<T> = Counters(
    sequenceGap: T, hashMismatch: T, malformed: T, backpressure: T, unavailable: T)

  /** What stopped a slice, as its classification says. */
  datatype BlockKind =
    | SequenceGapBlock | HashMismatchBlock | BackpressureBlock | UnavailableBlock | R2Block | ArtifactBlock
    | AsofBlock | ForbiddenBlock | ProviderBlock | CountabilityBlock | OrchestrationBlock | StructuralBlock

  /** The classification texts of a slice; `OtherText` holds any text that is none
      of the others. The texts themselves are in the ledger's module. */
  datatype SliceClass =
    | PassCounted | PassGapContinued | PassReview | PassQuarantined | PassEmpty | PassNoSignal
    | PassDataset | PassContinuation | RecoveredEmpty | RecoveredNoSignal
    | Block(kind: BlockKind) | OtherText(text: string)

  datatype AsofGroup = TradeDelta | HolderState | VaultCurve

  /** What the check of the as-of feature tables complains about: empty tables, or
      one of its other defects. */
  datatype AsofBlocker = NoRows | GroupMissing(group: AsofGroup) | GroupUnavailable(group: AsofGroup)
                       | AsofDefect(code: string)

  /** What the files of a finished slice say. An empty `providerClass` is a
      missing one. */
  datatype Evidence = Evidence(
    summaryClassification: SliceClass,
    integrity: Counters<Reported>,
    r2Failed: nat, retentionOk: bool, validatorRc: int, validatorBlocked: bool,
    asofBlockers: set<AsofBlocker>,
    attempted: Reported, richTracked: Reported, launchesSeen: Reported,
    candidates: Reported, replayEligible: Reported,
    counted: Flag, replayAllowed: Flag, partialAuditOnly: Flag,
    providerClass: string, providerDataLoss: Flag,
    providerBlockers: Reported, reconnectExhausted: Reported,
    unverifiedChunks: Reported, uploadTimeouts: Reported, streamBackpressure: Flag)

  datatype VpsSafety = VpsSafety(
    candidateService: string, hunterService: string, latestRunId: string, forbiddenRecent: nat, relayRunning: nat)

  /** What the supervisor saw while the slice ran. `remoteRc` is the text of the
      remote exit-code file, empty when missing; `refreshedRc` is the second read,
      `None` when it timed out. */
  datatype Context = Context(
    run: string, localRc: int, remoteRc: string, refreshedRc: Option<string>, pollTimedOut: bool,
    brokenPipe: bool, safety: VpsSafety, expectedLatest: string)

  datatype Blocker =
    | SequenceGap | HashMismatch | MalformedFrame | Backpressure | Unavailable
    | R2Failed | RetentionNotOk | ArtifactConsistency | AsofValidation | NotCounted
    | CandidateReview | LocalRc | LocalFinalizationTimeout | RemoteRc
    | ForbiddenArtifacts | LatestRunIdChanged

  datatype SliceResult = SliceResult(
    run: string, classification: SliceClass, integrity: Counters<nat>, r2Failed: nat, artifactOk: bool,
    attempted: nat, richTracked: nat, launchesSeen: nat, candidates: nat, replayEligible: nat,
    counted: Flag, replayAllowed: Flag, partialAuditOnly: Flag,
    providerClass: string, providerDataLoss: Flag, providerBlockers: nat, reconnectExhausted: nat,
    unverifiedChunks: nat, uploadTimeouts: nat, streamBackpressure: Flag,
    remoteRc: Option<nat>, pollTimedOut: bool, localRc: int,
    noSignal: bool, quarantined: bool, rcRecovered: bool, safety: VpsSafety)

  // ----- small predicates -----

  predicate IntegrityZero(c: Counters<nat>) {
    c.sequenceGap == c.hashMismatch == c.malformed == c.backpressure == c.unavailable == 0
  }

  function Measured(c: Counters<Reported>): Counters<nat> {
    Counters(c.sequenceGap.Value(), c.hashMismatch.Value(), c.malformed.Value(),
             c.backpressure.Value(), c.unavailable.Value())
  }

  predicate IsDigits(text: string) {
    text != "" && forall i :: 0 <= i < |text| ==> '0' <= text[i] <= '9'
  }

  function ParseDigits(text: string): nat
    requires forall i :: 0 <= i < |text| ==> '0' <= text[i] <= '9'
  {
    if text == "" then 0
    else 10 * ParseDigits(text[..|text| - 1]) + (text[|text| - 1] as int - '0' as int)
  }

  function ParsedRc(text: string): Option<nat> {
    if IsDigits(text) then Some(ParseDigits(text)) else None
  }

  /** Only complaints that the tables are empty. */
  predicate ExpectedWhenEmpty(blockers: set<AsofBlocker>) {
    forall b :: b in blockers ==> !b.AsofDefect?
  }

  predicate AsofExpectedEmpty(r: SliceResult, asofBlockers: set<AsofBlocker>) {
    r.attempted == 0 && r.richTracked == 0 && ExpectedWhenEmpty(asofBlockers)
  }

  predicate ProviderGapRecovered(r: SliceResult) {
    r.providerClass == "" && r.providerDataLoss != Yes &&
    (r.providerBlockers == 0 ||
     (r.reconnectExhausted == 0 && r.unverifiedChunks == 0 && r.uploadTimeouts == 0 && r.streamBackpressure != Yes))
  }

  predicate OnlyTolerated(blockers: seq<Blocker>, tolerated: set<Blocker>) {
    forall b :: b in blockers ==> b in tolerated
  }

  predicate IsCleanNoSignal(r: SliceResult, blockers: seq<Blocker>, asofBlockers: set<AsofBlocker>) {
    && r.attempted == 0 && r.richTracked == 0 && r.candidates == 0 && r.replayEligible == 0
    && r.replayAllowed != Yes && r.artifactOk && r.r2Failed == 0
    && ProviderGapRecovered(r)
    && IntegrityZero(r.integrity)
    && OnlyTolerated(blockers, {AsofValidation, NotCounted})
    && AsofExpectedEmpty(r, asofBlockers)
  }

  predicate IsSafeProviderQuarantine(r: SliceResult, blockers: seq<Blocker>) {
    && OnlyTolerated(blockers, {NotCounted, RemoteRc}) && NotCounted in blockers
    && (RemoteRc in blockers ==> r.remoteRc == None || r.remoteRc == Some(1))
    && (r.providerClass == "provider_lagged_data_loss" || r.providerClass == "provider_reconnect_exhausted")
    && r.providerDataLoss == Yes && r.partialAuditOnly == Yes && r.providerBlockers >= 1
    && r.artifactOk && r.r2Failed == 0 && IntegrityZero(r.integrity) && r.replayAllowed != Yes
  }

  predicate HostQuiet(safety: VpsSafety, expectedLatest: string) {
    && safety.forbiddenRecent == 0 && safety.relayRunning == 0
    && safety.candidateService != "active" && safety.hunterService != "active"
    && (expectedLatest != "" ==> safety.latestRunId == expectedLatest)
  }

  predicate CanRecoverMissingRc(r: SliceResult, blockers: seq<Blocker>, safety: VpsSafety, expectedLatest: string) {
    && blockers == [RemoteRc] && r.remoteRc == None && r.localRc == 0 && r.counted == Yes
    && r.artifactOk && r.r2Failed == 0 && IntegrityZero(r.integrity) && r.replayAllowed != Yes
    && HostQuiet(safety, expectedLatest)
  }

  predicate CanRecoverBrokenPipe(r: SliceResult, blockers: seq<Blocker>, safety: VpsSafety, expectedLatest: string,
                                 brokenPipe: bool) {
    && blockers == [RemoteRc] && r.remoteRc == Some(1) && !r.pollTimedOut && brokenPipe
    && r.localRc == 0 && r.counted == Yes && r.artifactOk && r.r2Failed == 0
    && r.providerDataLoss != Yes && r.providerClass == ""
    && IntegrityZero(r.integrity) && r.candidates == 0 && r.replayEligible == 0 && r.replayAllowed != Yes
    && HostQuiet(safety, expectedLatest)
  }

  predicate CandidatePresent(r: SliceResult) {
    r.candidates > 0 || (r.replayEligible > 0 && r.replayAllowed == Yes)
  }

  function ClassifySlice(r: SliceResult): SliceClass {
    if r.noSignal then if r.launchesSeen == 0 then PassEmpty else PassNoSignal
    else if CandidatePresent(r) then PassReview
    else if r.providerBlockers > 0 then PassGapContinued
    else PassCounted
  }

  /** The classification a stopped slice is reported under. */
  function ClassifyBlockers(blockers: seq<Blocker>, r: SliceResult): SliceClass
    requires blockers != []
  {
    Block(if SequenceGap in blockers then SequenceGapBlock
          else if HashMismatch in blockers then HashMismatchBlock
          else if Backpressure in blockers then BackpressureBlock
          else if Unavailable in blockers then UnavailableBlock
          else if R2Failed in blockers || RetentionNotOk in blockers then R2Block
          else if ArtifactConsistency in blockers then ArtifactBlock
          else if AsofValidation in blockers then AsofBlock
          else if ForbiddenArtifacts in blockers then ForbiddenBlock
          else if NotCounted in blockers && r.providerClass != "" then ProviderBlock
          else if NotCounted in blockers then CountabilityBlock
          else if LocalRc in blockers || RemoteRc in blockers || LocalFinalizationTimeout in blockers
            then OrchestrationBlock
          else StructuralBlock)
  }

  // ----- validate_slice -----

  function InitialResult(e: Evidence, run: string): SliceResult {
    SliceResult(
      run, e.summaryClassification, Measured(e.integrity), e.r2Failed,
      e.validatorRc == 0 && !e.validatorBlocked,
      e.attempted.Value(), e.richTracked.Value(), e.launchesSeen.Value(),
      e.candidates.Value(), e.replayEligible.Value(),
      e.counted, e.replayAllowed, e.partialAuditOnly, e.providerClass, e.providerDataLoss,
      e.providerBlockers.Value(), e.reconnectExhausted.Value(), e.unverifiedChunks.Value(),
      e.uploadTimeouts.Value(), e.streamBackpressure,
      None, false, 0, false, false, false, VpsSafety("", "", "", 0, 0))
  }

  function When(condition: bool, b: Blocker): seq<Blocker> {
    if condition then [b] else []
  }

  const INTEGRITY: seq<Blocker> := [SequenceGap, HashMismatch, MalformedFrame, Backpressure, Unavailable]

  function CountsOf(c: Counters<nat>): (r: seq<nat>)
    ensures |r| == |INTEGRITY|
  {
    [c.sequenceGap, c.hashMismatch, c.malformed, c.backpressure, c.unavailable]
  }

  /** The blockers of the first `n` integrity counters. */
  function IntegrityBlockers(c: Counters<nat>, n: nat := 5): seq<Blocker>
    requires n <= |INTEGRITY|
  {
    if n == 0 then [] else IntegrityBlockers(c, n - 1) + When(CountsOf(c)[n - 1] != 0, INTEGRITY[n - 1])
  }

  /** The blockers of the other tests on the data. */
  function OtherBlockers(e: Evidence, r: SliceResult): seq<Blocker> {
    When(e.r2Failed != 0, R2Failed)
    + When(!e.retentionOk, RetentionNotOk)
    + When(e.validatorRc != 0 || e.validatorBlocked, ArtifactConsistency)
    + When(!AsofExpectedEmpty(r, e.asofBlockers) && e.asofBlockers != {}, AsofValidation)
    + When(e.counted != Yes, NotCounted)
    + When(CandidatePresent(r), CandidateReview)
  }

  function DataBlockers(e: Evidence, r: SliceResult): seq<Blocker> {
    IntegrityBlockers(r.integrity) + OtherBlockers(e, r)
  }

  function Validated(e: Evidence, run: string): (SliceResult, seq<Blocker>) {
    var r := InitialResult(e, run);
    var blockers := DataBlockers(e, r);
    if IsCleanNoSignal(r, blockers, e.asofBlockers)
    then (r.(noSignal := true, classification := if r.launchesSeen == 0 then PassEmpty else PassNoSignal), [])
    else (r, blockers)
  }

  method CheckIntegrity(c: Counters<nat>) returns (blockers: seq<Blocker>)
    ensures blockers == IntegrityBlockers(c)
  {
    blockers := [];
    var counts := CountsOf(c);
    for i := 0 to |INTEGRITY|
      invariant blockers == IntegrityBlockers(c, i)
    {
      if counts[i] != 0 {
        blockers := blockers + [INTEGRITY[i]];
      }
    }
  }

  method AppendWhen(blockers: seq<Blocker>, condition: bool, b: Blocker) returns (longer: seq<Blocker>)
    ensures longer == blockers + When(condition, b)
  {
    longer := blockers;
    if condition {
      longer := longer + [b];
    }
  }

  lemma {:induction false} SixMore<T>(a: seq<T>, b: seq<T>, c: seq<T>, d: seq<T>, e: seq<T>, f: seq<T>, g: seq<T>)
    ensures a + b + c + d + e + f + g == a + (b + c + d + e + f + g)
  {
  }

  /** The blocker list as the source builds it, one test at a time. */
  method ValidateSlice(e: Evidence, run: string) returns (result: SliceResult, blockers: seq<Blocker>)
    ensures (result, blockers) == Validated(e, run)
  {
    result := InitialResult(e, run);
    blockers := CheckIntegrity(result.integrity);
    blockers := AppendWhen(blockers, e.r2Failed != 0, R2Failed);
    blockers := AppendWhen(blockers, !e.retentionOk, RetentionNotOk);
    blockers := AppendWhen(blockers, e.validatorRc != 0 || e.validatorBlocked, ArtifactConsistency);
    blockers := AppendWhen(blockers, !AsofExpectedEmpty(result, e.asofBlockers) && e.asofBlockers != {}, AsofValidation);
    blockers := AppendWhen(blockers, e.counted != Yes, NotCounted);
    blockers := AppendWhen(blockers, CandidatePresent(result), CandidateReview);
    SixMore(IntegrityBlockers(result.integrity), When(e.r2Failed != 0, R2Failed), When(!e.retentionOk, RetentionNotOk),
            When(e.validatorRc != 0 || e.validatorBlocked, ArtifactConsistency),
            When(!AsofExpectedEmpty(result, e.asofBlockers) && e.asofBlockers != {}, AsofValidation),
            When(e.counted != Yes, NotCounted), When(CandidatePresent(result), CandidateReview));
    assert blockers == DataBlockers(e, result);
    if IsCleanNoSignal(result, blockers, e.asofBlockers) {
      result := result.(noSignal := true,
                        classification := if result.launchesSeen == 0 then PassEmpty else PassNoSignal);
      blockers := [];
    }
  }

  // ----- the tail of run_slice -----

  /** The remote exit code after the second read. */
  function FinalRc(c: Context): string {
    if c.remoteRc == "0" then "0"
    else match c.refreshedRc
      case None => c.remoteRc
      case Some(text) => if text != "" then text else c.remoteRc
  }

  function PollTimedOut(c: Context): bool {
    c.pollTimedOut || (c.remoteRc != "0" && c.refreshedRc.None?)
  }

  function HostBlockers(c: Context): seq<Blocker> {
    When(c.localRc != 0, LocalRc) + When(c.localRc == -1, LocalFinalizationTimeout)
    + When(FinalRc(c) != "0", RemoteRc)
    + When(c.safety.forbiddenRecent != 0, ForbiddenArtifacts)
    + When(c.expectedLatest != "" && c.safety.latestRunId != c.expectedLatest, LatestRunIdChanged)
  }

  /** The blockers of the data and of the hosts, before the two recoveries. */
  function AllBlockers(e: Evidence, c: Context): seq<Blocker> {
    Validated(e, c.run).1 + HostBlockers(c)
  }

  /** The result before the two recoveries. */
  function Merged(e: Evidence, c: Context): SliceResult {
    var (validated, dataBlockers) := Validated(e, c.run);
    validated.(
      remoteRc := ParsedRc(FinalRc(c)), pollTimedOut := PollTimedOut(c), localRc := c.localRc, safety := c.safety,
      classification := if dataBlockers == [] then ClassifySlice(validated) else validated.classification)
  }

  function FinishSlice(e: Evidence, c: Context): (SliceResult, seq<Blocker>) {
    var result, blockers := Merged(e, c), AllBlockers(e, c);
    if CanRecoverMissingRc(result, blockers, c.safety, c.expectedLatest)
      || CanRecoverBrokenPipe(result, blockers, c.safety, c.expectedLatest, c.brokenPipe)
    then (result.(rcRecovered := true), [])
    else (result, blockers)
  }

  // ----- the supervisor's decision about a slice -----

  datatype Decision = Passed(result: SliceResult) | Stopped(result: SliceResult, blockers: seq<Blocker>)

  function Decide(e: Evidence, c: Context): Decision {
    var (result, blockers) := FinishSlice(e, c);
    if IsSafeProviderQuarantine(result, blockers)
    then Passed(result.(quarantined := true, classification := PassQuarantined))
    else if blockers != [] then Stopped(result.(classification := ClassifyBlockers(blockers, result)), blockers)
    else Passed(result)
  }

  predicate Accepted(r: SliceResult) {
    r.counted == Yes || r.noSignal
  }
}
