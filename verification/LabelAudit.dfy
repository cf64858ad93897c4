/** The independent readers of the labels, and why they find nothing to object to
    (scripts/strategy/label_store.py; scripts/build_strategy_readiness.py:
    leakage_audit, v2_decision). */
module LabelAudit {
  import opened Common
  import opened Labels
  import opened LabelStore
  import opened ChronologicalOrder
  import opened ChronologicalSplits
  import opened ReadinessSplits

  // ----- the leakage audit's label rules -----

  datatype LeakageBlocker = InconclusiveTreatedAsDead | CheckpointTreatedPositive | RandomSplitUsed
                            | MintInSeveralSplits(mint: string)

  predicate LeakageFound(b: LeakageBlocker, labels: seq<Label>, splits: Splits) {
    match b
    case InconclusiveTreatedAsDead =>
      exists i :: 0 <= i < |labels| && labels[i].finalOutcome == INCONCLUSIVE && labels[i].cleanNegative
    case CheckpointTreatedPositive =>
      exists i :: 0 <= i < |labels| && labels[i].checkpoint && labels[i].cleanPositive && !labels[i].replayEligible
    case RandomSplitUsed => splits.splitMethod == "random"
    case MintInSeveralSplits(mint) => InTwoWindows(mint, splits)
  }

  /** The audit lists exactly the leaks there are. */
  method AuditLeakage(labels: seq<Label>, splits: Splits) returns (blockers: seq<LeakageBlocker>)
    ensures forall b :: b in blockers <==> LeakageFound(b, labels, splits)
  {
    var dead := exists i :: 0 <= i < |labels| && labels[i].finalOutcome == INCONCLUSIVE && labels[i].cleanNegative;
    var positive := exists i :: 0 <= i < |labels| && labels[i].checkpoint && labels[i].cleanPositive && !labels[i].replayEligible;
    var repeated := AuditSplits(splits);
    blockers := (if dead then [InconclusiveTreatedAsDead] else [])
              + (if positive then [CheckpointTreatedPositive] else []);
    for i := 0 to |repeated|
      invariant InconclusiveTreatedAsDead in blockers <==> dead
      invariant CheckpointTreatedPositive in blockers <==> positive
      invariant RandomSplitUsed !in blockers
      invariant forall m :: MintInSeveralSplits(m) in blockers <==> m in repeated[..i]
    {
      blockers := blockers + [MintInSeveralSplits(repeated[i])];
    }
    assert repeated[..|repeated|] == repeated;
    if splits.splitMethod == "random" {
      blockers := blockers + [RandomSplitUsed];
    }
  }

  lemma {:induction false} NoLeakage(labels: seq<Label>, splits: Splits, b: LeakageBlocker)
    requires (forall i :: 0 <= i < |labels| ==> Acceptable(labels[i])) && WindowsDisjoint(splits)
    requires splits.splitMethod == WALK_FORWARD
    ensures !LeakageFound(b, labels, splits)
  {
  }

  // ----- the eligibility decision -----

  datatype ReasonCode =
    | ForbiddenColumn | ProviderGapExposed | RelayGapExposed | HashMismatchExposed | BackpressureExposed
    | TerminalInconclusive | DegradedAuditOnly | MissingAsof(group: string) | MissingHorizon
    | RejectedBeforeHorizon | WeakTradeDelta | WeakFollowthrough | AdverseSellPressure | HolderConcentrationRisk
    | HolderCollapseRisk | DevHoldingRisk | WeakHolderGrowth | WeakCurveProgress | LiquidityExitRisk
    | InsufficientCurveProgress | CheckpointAbsent | ReplayNotAllowed | CleanHighThroughput

  datatype Decision = AuditOnly | Censor | InsufficientData | Eligible | NotEligible

  const CENSORING: set<ReasonCode> :=
    {ProviderGapExposed, RelayGapExposed, HashMismatchExposed, BackpressureExposed, TerminalInconclusive}
  const BLOCKING: set<ReasonCode> :=
    {RejectedBeforeHorizon, WeakTradeDelta, WeakFollowthrough, AdverseSellPressure, HolderConcentrationRisk,
     HolderCollapseRisk, DevHoldingRisk, WeakHolderGrowth, WeakCurveProgress, LiquidityExitRisk, InsufficientCurveProgress}

  /** The decision for a feature row and the label found for it, if any. */
  function V2Decision(found: Option<Label>, reasons: set<ReasonCode>): Decision {
    if ForbiddenColumn in reasons then AuditOnly
    else if reasons * CENSORING != {} then Censor
    else if DegradedAuditOnly in reasons then AuditOnly
    else if exists r :: r in reasons && (r.MissingAsof? || r.MissingHorizon?) then InsufficientData
    else if found.Some? && found.value.checkpoint && found.value.replayEligible && reasons * BLOCKING == {} then Eligible
    else NotEligible
  }

  /** One of the five reasons that censor a row. */
  predicate Censors(reasons: set<ReasonCode>) {
    || ProviderGapExposed in reasons || RelayGapExposed in reasons || HashMismatchExposed in reasons
    || BackpressureExposed in reasons || TerminalInconclusive in reasons
  }

  /** None of the eleven reasons that block a row. */
  predicate Unblocked(reasons: set<ReasonCode>) {
    && RejectedBeforeHorizon !in reasons && WeakTradeDelta !in reasons && WeakFollowthrough !in reasons
    && AdverseSellPressure !in reasons && HolderConcentrationRisk !in reasons && HolderCollapseRisk !in reasons
    && DevHoldingRisk !in reasons && WeakHolderGrowth !in reasons && WeakCurveProgress !in reasons
    && LiquidityExitRisk !in reasons && InsufficientCurveProgress !in reasons
  }

  /** When exactly each decision is taken. */
  lemma {:induction false} V2Exactly(found: Option<Label>, reasons: set<ReasonCode>)
    ensures var d := V2Decision(found, reasons);
            var audited := ForbiddenColumn in reasons || (DegradedAuditOnly in reasons && !Censors(reasons));
            var missing := MissingHorizon in reasons || exists group :: MissingAsof(group) in reasons;
            && (d == AuditOnly <==> audited)
            && (d == Censor <==> Censors(reasons) && ForbiddenColumn !in reasons)
            && (d == InsufficientData <==> missing && !audited && !Censors(reasons))
            && (d == Eligible <==>
                  && !audited && !Censors(reasons) && !missing && Unblocked(reasons)
                  && found.Some? && found.value.checkpoint && found.value.replayEligible)
  {
    CensorsExactly(reasons);
    UnblockedExactly(reasons);
    if r :| r in reasons && (r.MissingAsof? || r.MissingHorizon?) {
      assert r == MissingHorizon || r == MissingAsof(r.group);
    }
  }

  lemma {:induction false} CensorsExactly(reasons: set<ReasonCode>)
    ensures reasons * CENSORING != {} <==> Censors(reasons)
  {
    if r :| r in reasons * CENSORING {
    }
    assert ProviderGapExposed in CENSORING && RelayGapExposed in CENSORING && HashMismatchExposed in CENSORING;
    assert BackpressureExposed in CENSORING && TerminalInconclusive in CENSORING;
    if Censors(reasons) {
      var r := if ProviderGapExposed in reasons then ProviderGapExposed
               else if RelayGapExposed in reasons then RelayGapExposed
               else if HashMismatchExposed in reasons then HashMismatchExposed
               else if BackpressureExposed in reasons then BackpressureExposed else TerminalInconclusive;
      assert r in reasons * CENSORING;
    }
  }

  lemma {:induction false} UnblockedExactly(reasons: set<ReasonCode>)
    ensures reasons * BLOCKING == {} <==> Unblocked(reasons)
  {
    if reasons * BLOCKING == {} {
      forall r | r in BLOCKING ensures r !in reasons {
        assert r !in reasons * BLOCKING;
      }
      assert RejectedBeforeHorizon in BLOCKING && WeakTradeDelta in BLOCKING && WeakFollowthrough in BLOCKING;
      assert AdverseSellPressure in BLOCKING && HolderConcentrationRisk in BLOCKING && HolderCollapseRisk in BLOCKING;
      assert DevHoldingRisk in BLOCKING && WeakHolderGrowth in BLOCKING && WeakCurveProgress in BLOCKING;
      assert LiquidityExitRisk in BLOCKING && InsufficientCurveProgress in BLOCKING;
    }
  }

  // ----- what holds of every label of an included run -----

  predicate AllIncluded(runs: seq<Run>) {
    forall i :: 0 <= i < |runs| ==> Included(runs[i].docs)
  }

  predicate SoundLabel(l: Label) {
    && Acceptable(l)
    && !l.replayEligible && !l.cleanPositive
    && !(l.cleanNegative && l.censored)
    && (l.cleanNegative ==> l.finalOutcome == DEAD && l.quality == CleanNegative)
    && (l.finalOutcome == INCONCLUSIVE ==> l.censored && l.quality == Censored)
    && l.mint != ""
  }

  predicate Sound(labels: seq<Label>) {
    && (forall i :: 0 <= i < |labels| ==> SoundLabel(labels[i]))
    && (forall i, j :: 0 <= i < j < |labels| ==> labels[i].mint != labels[j].mint)
  }

  lemma {:induction false} IncludedRunLabels(run: Run, segments: map<string, Segment>, a: Attempt)
    requires Included(run.docs) && a.mint != ""
    ensures SoundLabel(LabelOf(run, segments, a))
  {
    IncludedMeans(run.docs);
    assert DEAD != INCONCLUSIVE;
  }

  lemma {:induction false} SoundStep(labels: seq<Label>, l: Label)
    requires Sound(labels) && SoundLabel(l) && l.mint !in LabelledMints(labels)
    ensures Sound(labels + [l])
  {
    forall i | 0 <= i < |labels| ensures labels[i].mint != l.mint {
      assert labels[i].mint in LabelledMints(labels);
    }
  }

  /** The mints of a list of attempts. */
  function MintsAttempted(attempts: seq<Attempt>): set<string> {
    set i | 0 <= i < |attempts| && attempts[i].mint != "" :: attempts[i].mint
  }

  lemma {:induction false} MintsAttemptedStep(attempts: seq<Attempt>, n: nat)
    requires n + 1 == |attempts|
    ensures MintsAttempted(attempts)
         == MintsAttempted(attempts[..n]) + (if attempts[n].mint != "" then {attempts[n].mint} else {})
  {
    assert forall i :: 0 <= i < n ==> attempts[..n][i] == attempts[i];
    forall i | 0 <= i < n && attempts[i].mint != "" ensures attempts[i].mint in MintsAttempted(attempts[..n]) {
      assert attempts[..n][i].mint == attempts[i].mint;
    }
  }

  /** One more sound label for a mint that had none. */
  lemma {:induction false} ExtendStep(before: seq<Label>, run: Run, segments: map<string, Segment>, a: Attempt)
    requires Sound(before) && Included(run.docs) && a.mint != "" && a.mint !in LabelledMints(before)
    ensures Sound(before + [LabelOf(run, segments, a)])
    ensures LabelledMints(before + [LabelOf(run, segments, a)]) == LabelledMints(before) + {a.mint}
  {
    IncludedRunLabels(run, segments, a);
    SoundStep(before, LabelOf(run, segments, a));
    LabelledStep(before, LabelOf(run, segments, a));
  }

  lemma {:induction false} ExtendIsSound(labels: seq<Label>, run: Run, segments: map<string, Segment>, attempts: seq<Attempt>)
    requires Sound(labels) && Included(run.docs)
    ensures Sound(Extend(labels, run, segments, attempts))
    ensures LabelledMints(Extend(labels, run, segments, attempts)) == LabelledMints(labels) + MintsAttempted(attempts)
    decreases |attempts|
  {
    if attempts != [] {
      var n := |attempts| - 1;
      var before, a := Extend(labels, run, segments, attempts[..n]), attempts[n];
      ExtendIsSound(labels, run, segments, attempts[..n]);
      MintsAttemptedStep(attempts, n);
      if a.mint != "" && a.mint !in LabelledMints(before) {
        ExtendStep(before, run, segments, a);
      }
    }
  }

  /** The mints attempted by any run. */
  function AttemptedMints(runs: seq<Run>): set<string> {
    set i, m | 0 <= i < |runs| && m in MintsAttempted(runs[i].attempts) :: m
  }

  lemma {:induction false} AttemptedMintsStep(runs: seq<Run>, n: nat)
    requires n + 1 == |runs|
    ensures AttemptedMints(runs) == AttemptedMints(runs[..n]) + MintsAttempted(runs[n].attempts)
  {
    assert forall i :: 0 <= i < n ==> runs[..n][i] == runs[i];
    forall i, m | 0 <= i < n && m in MintsAttempted(runs[i].attempts) ensures m in AttemptedMints(runs[..n]) {
      assert m in MintsAttempted(runs[..n][i].attempts);
    }
  }

  /** On included runs every attempted mint gets exactly one label, and every label
      is sound: never replay eligible, never clean positive, never both clean
      negative and censored. */
  lemma {:induction false} LabelsAreSound(runs: seq<Run>, maps: map<string, map<string, Segment>>)
    requires AllIncluded(runs)
    ensures Sound(LabelsFor(runs, maps))
    ensures LabelledMints(LabelsFor(runs, maps)) == AttemptedMints(runs)
    decreases |runs|
  {
    if runs != [] {
      var n := |runs| - 1;
      var run := runs[n];
      LabelsAreSound(runs[..n], maps);
      ExtendIsSound(LabelsFor(runs[..n], maps), run, SegmentsOf(maps, run), run.attempts);
      AttemptedMintsStep(runs, n);
    }
  }

  // ----- the pipeline -----

  function StampsOf(labels: seq<Label>): (r: seq<Stamp>)
    ensures |r| == |labels| && forall i :: 0 <= i < |labels| ==> r[i] == Stamp(labels[i].firstSeen, labels[i].mint)
  {
    seq(|labels|, i requires 0 <= i < |labels| => Stamp(labels[i].firstSeen, labels[i].mint))
  }

  /** Builds labels and both splits, with any rounding of the cuts, from included runs and hands them to every
      auditor: none reports anything. */
  method BuildAndAudit(runs: seq<Run>, embargo: nat, shares: Shares, cuts: Cuts)
    returns (labels: seq<Label>, readiness: Splits, walkForward: Splits,
             storeBlockers: seq<LabelBlocker>, leakage: seq<LeakageBlocker>, splitBlockers: seq<SplitBlocker>)
    requires AllIncluded(runs) && forall n :: InOrder(shares, n)
    ensures labels == LabelsFor(runs, SegmentMaps(runs)) && Sound(labels)
    ensures readiness == BuildReadinessSplits(StampsOf(labels), shares)
    ensures walkForward == SplitAt(FirstOfEach(Sorted(StampsOf(labels))), embargo, cuts)
    ensures storeBlockers == [] && leakage == [] && splitBlockers == []
  {
    labels := BuildLabels(runs);
    LabelsAreSound(runs, SegmentMaps(runs));
    var store := new LabelStore(labels);
    var storePassed, checked;
    storePassed, storeBlockers, checked := store.Validate();
    assert storePassed;
    readiness := BuildReadinessSplits(StampsOf(labels), shares);
    leakage := AuditLeakage(labels, readiness);
    NothingLeaks(labels, shares, leakage);
    walkForward := BuildChronologicalSplits(StampsOf(labels), embargo, cuts);
    SplitsPassValidator(StampsOf(labels), embargo, cuts);
    var splitsPassed;
    splitsPassed, splitBlockers := ValidateSplits(walkForward);
  }

  lemma {:induction false} NothingLeaks(labels: seq<Label>, shares: Shares, found: seq<LeakageBlocker>)
    requires Sound(labels) && forall n :: InOrder(shares, n)
    requires forall b :: b in found <==> LeakageFound(b, labels, BuildReadinessSplits(StampsOf(labels), shares))
    ensures found == []
  {
    assert NoRepeats(MintsOf(StampsOf(labels)));
    UniqueMintsPassAudit(StampsOf(labels), shares);
    if found != [] {
      assert found[0] in found;
      NoLeakage(labels, BuildReadinessSplits(StampsOf(labels), shares), found[0]);
    }
  }

  /** The same as a statement about the auditors' conditions. */
  lemma {:induction false} EveryAuditorPasses(runs: seq<Run>, embargo: nat, shares: Shares, cuts: Cuts)
    requires AllIncluded(runs) && forall n :: InOrder(shares, n)
    ensures var labels := LabelsFor(runs, SegmentMaps(runs));
            var walkForward := SplitAt(FirstOfEach(Sorted(StampsOf(labels))), embargo, cuts);
            && (forall i :: 0 <= i < |labels| ==> Acceptable(labels[i]))
            && (forall b :: !LeakageFound(b, labels, BuildReadinessSplits(StampsOf(labels), shares)))
            && walkForward.splitMethod == WALK_FORWARD && NoRepeats(AllMints(walkForward))
  {
    var labels := LabelsFor(runs, SegmentMaps(runs));
    LabelsAreSound(runs, SegmentMaps(runs));
    assert NoRepeats(MintsOf(StampsOf(labels)));
    UniqueMintsPassAudit(StampsOf(labels), shares);
    forall b ensures !LeakageFound(b, labels, BuildReadinessSplits(StampsOf(labels), shares)) {
      NoLeakage(labels, BuildReadinessSplits(StampsOf(labels), shares), b);
    }
    SplitsPassValidator(StampsOf(labels), embargo, cuts);
  }

  /** What the store's summary of included runs can contain. */
  lemma {:induction false} SoundCounts(labels: seq<Label>)
    requires Sound(labels)
    ensures CountLabels(labels, IsCleanPositive()) == CountLabels(labels, IsReplayEligible()) == 0
    ensures CountLabels(labels, IsCleanNegative()) + CountLabels(labels, IsCensored()) <= |labels|
  {
    NoneCounted(labels, IsCleanPositive());
    NoneCounted(labels, IsReplayEligible());
    ExclusiveCounts(labels, IsCleanNegative(), IsCensored());
  }

  /** No feature row is ever decided eligible, whatever label it is matched with
      and whatever its reasons are. */
  lemma {:induction false} NothingIsEligible(runs: seq<Run>, found: Option<Label>, reasons: set<ReasonCode>)
    requires AllIncluded(runs)
    requires found.Some? ==> found.value in LabelsFor(runs, SegmentMaps(runs))
    ensures V2Decision(found, reasons) != Eligible
  {
    LabelsAreSound(runs, SegmentMaps(runs));
    if found.Some? {
      var labels := LabelsFor(runs, SegmentMaps(runs));
      var i :| 0 <= i < |labels| && labels[i] == found.value;
      assert SoundLabel(labels[i]);
    }
  }

  // ----- exclusivity for every run -----

  lemma {:induction false} CleanSegmentMeansIncluded(docs: seq<SegmentDoc>, runIncluded: bool, id: string)
    requires id in SegmentsFrom(docs, runIncluded) && SegmentsFrom(docs, runIncluded)[id].clean
    ensures runIncluded
    decreases |docs|
  {
    if docs != [] && docs[|docs| - 1].id != id {
      CleanSegmentMeansIncluded(docs[..|docs| - 1], runIncluded, id);
    }
  }

  /** A clean negative comes from an included run, so for every run, included or
      not, no attempt is labelled both clean negative and censored. */
  lemma {:induction false} CleanNegativeIsExclusive(run: Run, a: Attempt)
    ensures var l := LabelOf(run, SegmentMap(run), a);
            && (l.cleanNegative ==> Included(run.docs))
            && !(l.cleanNegative && l.censored)
  {
    var segments := SegmentMap(run);
    if LabelOf(run, segments, a).cleanNegative {
      assert a.segmentId in segments && segments[a.segmentId].clean;
      if SegmentsFrom(run.segments, Included(run.docs)) != map[] {
        CleanSegmentMeansIncluded(run.segments, Included(run.docs), a.segmentId);
      }
      IncludedMeans(run.docs);
      assert DEAD != INCONCLUSIVE;
    }
  }

  /** Slice ids are the names of the run directories of one root. */
  predicate DistinctSlices(runs: seq<Run>) {
    forall i, j :: 0 <= i < j < |runs| ==> runs[i].sliceId != runs[j].sliceId
  }

  lemma {:induction false} SegmentsOfStep(runs: seq<Run>, run: Run)
    requires runs != []
    ensures SegmentsOf(SegmentMaps(runs), run)
         == if run.sliceId == runs[|runs| - 1].sliceId then SegmentMap(runs[|runs| - 1])
            else SegmentsOf(SegmentMaps(runs[..|runs| - 1]), run)
  {
  }

  /** With distinct slices the builder reads a run's own segments. */
  lemma {:induction false} OwnSegmentMap(runs: seq<Run>, i: nat)
    requires DistinctSlices(runs) && i < |runs|
    ensures SegmentsOf(SegmentMaps(runs), runs[i]) == SegmentMap(runs[i])
    decreases |runs|
  {
    SegmentsOfStep(runs, runs[i]);
    var n := |runs| - 1;
    if i < n {
      assert runs[..n][i] == runs[i];
      OwnSegmentMap(runs[..n], i);
    }
  }

  predicate Exclusive(labels: seq<Label>) {
    forall i :: 0 <= i < |labels| ==> !(labels[i].cleanNegative && labels[i].censored)
  }

  lemma {:induction false} ExtendIsExclusive(labels: seq<Label>, run: Run, attempts: seq<Attempt>)
    requires Exclusive(labels)
    ensures Exclusive(Extend(labels, run, SegmentMap(run), attempts))
    decreases |attempts|
  {
    if attempts != [] {
      var n := |attempts| - 1;
      ExtendIsExclusive(labels, run, attempts[..n]);
      CleanNegativeIsExclusive(run, attempts[n]);
    }
  }

  /** Of all labels built from any runs none is both clean negative and censored;
      inclusion of the runs is not needed. */
  lemma {:induction false} LabelsAreExclusive(all: seq<Run>, n: nat)
    requires DistinctSlices(all) && n <= |all|
    ensures Exclusive(LabelsFor(all[..n], SegmentMaps(all)))
    decreases n
  {
    if n > 0 {
      LabelsAreExclusive(all, n - 1);
      assert all[..n][..n - 1] == all[..n - 1];
      OwnSegmentMap(all, n - 1);
      ExtendIsExclusive(LabelsFor(all[..n - 1], SegmentMaps(all)), all[n - 1], all[n - 1].attempts);
    }
  }
}
