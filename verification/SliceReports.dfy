/** What a judged slice is reported as, stated on its evidence and its hosts
    (scripts/run_relay_r2_primary_batch.py: validate_slice, classify_slice,
    classify_blockers, the tail of run_slice). */
module SliceReports {
  import opened Common
  import opened SliceVerdict
  import opened SliceTheorems

  // ----- the fields of the result -----

  /** The first file's number unless it is missing or zero, else the second's. */
  predicate Reads(n: nat, r: Reported) {
    if r.primary > 0 then n == r.primary else n == r.fallback
  }

  predicate OnlyZeros(text: string) {
    text != "" && forall i :: 0 <= i < |text| ==> text[i] == '0'
  }

  /** Every field but the classification and the two marks of a recovery. */
  predicate Reports(r: SliceResult, e: Evidence, c: Context) {
    && r.run == c.run && r.localRc == c.localRc && r.safety == c.safety
    && Reads(r.integrity.sequenceGap, e.integrity.sequenceGap) && Reads(r.integrity.hashMismatch, e.integrity.hashMismatch)
    && Reads(r.integrity.malformed, e.integrity.malformed) && Reads(r.integrity.backpressure, e.integrity.backpressure)
    && Reads(r.integrity.unavailable, e.integrity.unavailable)
    && r.r2Failed == e.r2Failed && (r.artifactOk <==> e.validatorRc == 0 && !e.validatorBlocked)
    && ReportsCounts(r, e)
    && r.counted == e.counted && r.replayAllowed == e.replayAllowed && r.partialAuditOnly == e.partialAuditOnly
    && r.providerClass == e.providerClass && r.providerDataLoss == e.providerDataLoss
    && r.streamBackpressure == e.streamBackpressure
    && ReportsReads(r, c)
    && (r.noSignal <==> ClearedAsNoSignal(e))
  }

  predicate ReportsCounts(r: SliceResult, e: Evidence) {
    && Reads(r.attempted, e.attempted) && Reads(r.richTracked, e.richTracked) && Reads(r.launchesSeen, e.launchesSeen)
    && Reads(r.candidates, e.candidates) && Reads(r.replayEligible, e.replayEligible)
    && Reads(r.providerBlockers, e.providerBlockers) && Reads(r.reconnectExhausted, e.reconnectExhausted)
    && Reads(r.unverifiedChunks, e.unverifiedChunks) && Reads(r.uploadTimeouts, e.uploadTimeouts)
  }

  predicate ReportsReads(r: SliceResult, c: Context) {
    && (r.remoteRc == None <==> !ZeroCode(c) && NoNumber(LastRead(c)))
    && (r.remoteRc == Some(1) <==> !ZeroCode(c) && NumberOne(LastRead(c)))
    && (r.remoteRc == Some(0) <==> ZeroCode(c) || OnlyZeros(LastRead(c)))
    && (r.pollTimedOut <==> TimedOut(c))
  }

  /** The data alone pass the slice as one without a signal. */
  predicate ClearedAsNoSignal(e: Evidence) {
    DataBaseline(e) && NoSignal(e)
  }

  lemma {:induction false} ValidatedReports(e: Evidence, run: string)
    ensures var r := Validated(e, run).0;
            && ReportsCounts(r, e) && (r.noSignal <==> ClearedAsNoSignal(e)) && !r.quarantined && !r.rcRecovered
  {
    NoSignalExactly(e, run);
  }

  lemma {:induction false} MergedReports(e: Evidence, c: Context)
    ensures Reports(Merged(e, c), e, c) && !Merged(e, c).quarantined && !Merged(e, c).rcRecovered
  {
    ValidatedReports(e, c.run);
    ReadsExactly(c);
    ParsedExactly(FinalRc(c));
  }

  // ----- the blockers of a slice, all together -----

  predicate Blocks(e: Evidence, c: Context, b: Blocker) {
    (Raised(e, b) && !ClearedAsNoSignal(e)) || RaisedByHost(c, b)
  }

  lemma {:induction false} AllMembers(e: Evidence, c: Context, b: Blocker)
    ensures b in AllBlockers(e, c) <==> Blocks(e, c, b)
  {
    NoSignalExactly(e, c.run);
    DataMembers(e, c.run, b);
    HostMembers(c, b);
  }

  // ----- stopped slices -----

  lemma {:induction false} StoppedResult(e: Evidence, c: Context)
    requires Decide(e, c).Stopped?
    ensures AllBlockers(e, c) != [] && Decide(e, c).blockers == AllBlockers(e, c)
    ensures Decide(e, c).result
         == Merged(e, c).(classification := ClassifyBlockers(AllBlockers(e, c), Merged(e, c)))
  {
  }

  /** The blockers that name a stopped slice's classification, gravest first. The
      kind of a slice that was not counted depends on the provider. */
  const GRAVITY: seq<(Blocker, BlockKind)> := [
    (SequenceGap, SequenceGapBlock), (HashMismatch, HashMismatchBlock), (Backpressure, BackpressureBlock),
    (Unavailable, UnavailableBlock), (R2Failed, R2Block), (RetentionNotOk, R2Block),
    (ArtifactConsistency, ArtifactBlock), (AsofValidation, AsofBlock), (ForbiddenArtifacts, ForbiddenBlock),
    (NotCounted, CountabilityBlock), (LocalRc, OrchestrationBlock), (RemoteRc, OrchestrationBlock),
    (LocalFinalizationTimeout, OrchestrationBlock)]

  function KindAt(i: nat, providerClass: string): BlockKind
    requires i < |GRAVITY|
  {
    if GRAVITY[i].0 == NotCounted && providerClass != "" then ProviderBlock else GRAVITY[i].1
  }

  /** `kind` is that of the gravest blocker; with none of these it is structural. */
  predicate IsGravest(kind: BlockKind, blockers: seq<Blocker>, providerClass: string) {
    || (exists i: nat :: i < |GRAVITY| && GRAVITY[i].0 in blockers && kind == KindAt(i, providerClass)
                         && forall j :: 0 <= j < i ==> GRAVITY[j].0 !in blockers)
    || (kind == StructuralBlock && forall j :: 0 <= j < |GRAVITY| ==> GRAVITY[j].0 !in blockers)
  }

  lemma {:induction false} FirstOfGravity(blockers: seq<Blocker>, i: nat, kind: BlockKind, providerClass: string)
    requires i < |GRAVITY| && GRAVITY[i].0 in blockers && kind == KindAt(i, providerClass)
    requires forall j :: 0 <= j < i ==> GRAVITY[j].0 !in blockers
    ensures IsGravest(kind, blockers, providerClass)
  {
  }

  lemma {:induction false} ClassIsGravest(blockers: seq<Blocker>, r: SliceResult)
    requires blockers != []
    ensures ClassifyBlockers(blockers, r).Block? && IsGravest(ClassifyBlockers(blockers, r).kind, blockers, r.providerClass)
  {
    var kind := ClassifyBlockers(blockers, r).kind;
    if i: nat :| i < |GRAVITY| && GRAVITY[i].0 in blockers && forall j :: 0 <= j < i ==> GRAVITY[j].0 !in blockers {
      ClassAt(blockers, r, i);
      FirstOfGravity(blockers, i, kind, r.providerClass);
    } else {
      NoneOfGravity(blockers, |GRAVITY|);
      assert GRAVITY[0].0 !in blockers && GRAVITY[1].0 !in blockers && GRAVITY[2].0 !in blockers && GRAVITY[3].0 !in blockers;
      assert GRAVITY[4].0 !in blockers && GRAVITY[5].0 !in blockers && GRAVITY[6].0 !in blockers && GRAVITY[7].0 !in blockers;
      assert GRAVITY[8].0 !in blockers && GRAVITY[9].0 !in blockers && GRAVITY[10].0 !in blockers;
      assert GRAVITY[11].0 !in blockers && GRAVITY[12].0 !in blockers;
    }
  }

  lemma {:induction false} NoneOfGravity(blockers: seq<Blocker>, n: nat)
    requires n <= |GRAVITY|
    requires !exists i: nat :: i < |GRAVITY| && GRAVITY[i].0 in blockers && forall j :: 0 <= j < i ==> GRAVITY[j].0 !in blockers
    ensures forall j :: 0 <= j < n ==> GRAVITY[j].0 !in blockers
    decreases n
  {
    if n > 0 {
      NoneOfGravity(blockers, n - 1);
    }
  }

  lemma {:induction false} ClassAt(blockers: seq<Blocker>, r: SliceResult, i: nat)
    requires i < |GRAVITY| && GRAVITY[i].0 in blockers && forall j :: 0 <= j < i ==> GRAVITY[j].0 !in blockers
    ensures ClassifyBlockers(blockers, r) == Block(KindAt(i, r.providerClass))
  {
    NotEarlier(blockers, i);
  }

  lemma {:induction false} NotEarlier(blockers: seq<Blocker>, i: nat)
    requires i < |GRAVITY| && forall j :: 0 <= j < i ==> GRAVITY[j].0 !in blockers
    ensures i > 0 ==> SequenceGap !in blockers
    ensures i > 1 ==> HashMismatch !in blockers
    ensures i > 2 ==> Backpressure !in blockers
    ensures i > 3 ==> Unavailable !in blockers
    ensures i > 4 ==> R2Failed !in blockers
    ensures i > 5 ==> RetentionNotOk !in blockers
    ensures i > 6 ==> ArtifactConsistency !in blockers
    ensures i > 7 ==> AsofValidation !in blockers
    ensures i > 8 ==> ForbiddenArtifacts !in blockers
    ensures i > 9 ==> NotCounted !in blockers
    ensures i > 10 ==> LocalRc !in blockers
    ensures i > 11 ==> RemoteRc !in blockers
  {
    assert (i > 0 ==> GRAVITY[0].0 !in blockers) && (i > 1 ==> GRAVITY[1].0 !in blockers);
    assert (i > 2 ==> GRAVITY[2].0 !in blockers) && (i > 3 ==> GRAVITY[3].0 !in blockers);
    assert (i > 4 ==> GRAVITY[4].0 !in blockers) && (i > 5 ==> GRAVITY[5].0 !in blockers);
    assert (i > 6 ==> GRAVITY[6].0 !in blockers) && (i > 7 ==> GRAVITY[7].0 !in blockers);
    assert (i > 8 ==> GRAVITY[8].0 !in blockers) && (i > 9 ==> GRAVITY[9].0 !in blockers);
    assert (i > 10 ==> GRAVITY[10].0 !in blockers) && (i > 11 ==> GRAVITY[11].0 !in blockers);
  }

  /** A stopped slice: exactly the blockers there are, reported under the gravest. */
  lemma {:induction false} StoppedReport(e: Evidence, c: Context)
    requires Decide(e, c).Stopped?
    ensures var r, blockers := Decide(e, c).result, Decide(e, c).blockers;
            && Reports(r, e, c) && !r.quarantined && !r.rcRecovered
            && (forall b :: b in blockers <==> Blocks(e, c, b))
            && r.classification.Block? && IsGravest(r.classification.kind, blockers, e.providerClass)
  {
    StoppedResult(e, c);
    MergedReports(e, c);
    ClassIsGravest(AllBlockers(e, c), Merged(e, c));
    forall b ensures b in AllBlockers(e, c) <==> Blocks(e, c, b) { AllMembers(e, c, b); }
  }

  /** The classification of a passed slice. */
  function PassedClass(e: Evidence, quarantined: bool): SliceClass {
    if quarantined then PassQuarantined
    else if ClearedAsNoSignal(e) then if BothZero(e.launchesSeen) then PassEmpty else PassNoSignal
    else if BothZero(e.providerBlockers) then PassCounted
    else PassGapContinued
  }

  /** A passed slice: the marks tell by which route, and the classification follows
      from the route and the evidence. */
  lemma {:induction false} PassedReport(e: Evidence, c: Context)
    requires Decide(e, c).Passed?
    ensures var r := Decide(e, c).result;
            && Reports(r, e, c)
            && (r.quarantined <==> RouteQuarantine(e, c))
            && (r.rcRecovered <==> RouteMissingRc(e, c) || RouteBrokenPipe(e, c))
            && r.classification == PassedClass(e, RouteQuarantine(e, c))
  {
    PassesExactlyWhen(e, c);
    QuarantineRouteExactly(e, c);
    RecoveriesExactly(e, c);
    AllBlockersExactly(e, c);
    ValidatedExactly(e, c.run);
    MergedReports(e, c);
  }
}
