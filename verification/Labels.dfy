/** Which runs enter the strategy dataset and what label each mint gets
    (scripts/build_strategy_readiness.py: inspect_run, collect_segment_map,
    build_labels). */
module Labels {

  /** A JSON or CSV value as the dataset builder reads it: `Silent` is falsy
      (missing, null, false, 0, empty), `Affirms` reads as true, `Denies` is truthy
      without reading as true, such as the text "false". */
  datatype Claim = Silent | Affirms | Denies

  /** Python's `a or b`. */
  function Either(a: Claim, b: Claim): Claim {
    if a.Silent? then b else a
  }

  // ----- inclusion of a run -----

  /** The switches each of the four summary files may carry. */
  datatype Switches = Switches(
    holderRpc: Claim, rpcCanonical: Claim, replay: Claim, backtesting: Claim, tuning: Claim, trading: Claim)

  datatype RunDocs = RunDocs(
    countedByCountability: Claim, countedByProof: Claim,
    r2ByBase: Claim, r2ByUpload: Claim, r2ByCountability: Claim,
    artifactsByBase: bool, hardInvariants: Claim,
    sequenceGaps: int, hashMismatches: int, receiverBackpressure: int,
    proof: Switches, local: Switches, countability: Switches, retention: Switches)

  datatype Exclusion =
    | NotCounted | R2NotVerified | ArtifactsNotOk | SequenceGaps | HashMismatches | Backpressure
    | HolderRpcEnabled | RpcCanonical | ReplayEnabled | BacktestingEnabled | TuningEnabled | TradingEnabled

  function ReplayClaim(d: RunDocs): Claim {
    Either(d.countability.replay, Either(d.proof.replay, Either(d.local.replay, d.retention.replay)))
  }

  function Checks(d: RunDocs): seq<(bool, Exclusion)> {
    [ (d.countedByCountability == Affirms || d.countedByProof == Affirms, NotCounted),
      (d.r2ByBase == Affirms || d.r2ByUpload == Affirms || d.r2ByCountability == Affirms, R2NotVerified),
      (d.artifactsByBase || d.hardInvariants == Affirms, ArtifactsNotOk),
      (d.sequenceGaps == 0, SequenceGaps),
      (d.hashMismatches == 0, HashMismatches),
      (d.receiverBackpressure == 0, Backpressure),
      (Either(d.proof.holderRpc, Either(d.local.holderRpc, d.retention.holderRpc)) != Affirms, HolderRpcEnabled),
      (Either(d.proof.rpcCanonical, Either(d.local.rpcCanonical,
              Either(d.countability.rpcCanonical, d.retention.rpcCanonical))) != Affirms, RpcCanonical),
      (ReplayClaim(d) != Affirms, ReplayEnabled),
      (Either(d.proof.backtesting, Either(d.local.backtesting,
              Either(d.countability.backtesting, d.retention.backtesting))) != Affirms, BacktestingEnabled),
      (Either(d.proof.tuning, Either(d.local.tuning,
              Either(d.countability.tuning, d.retention.tuning))) != Affirms, TuningEnabled),
      (Either(d.proof.trading, Either(d.local.trading, d.retention.trading)) != Affirms, TradingEnabled) ]
  }

  predicate Included(d: RunDocs) {
    forall i :: 0 <= i < |Checks(d)| ==> Checks(d)[i].0
  }

  method InspectRun(d: RunDocs) returns (included: bool, exclusion: seq<Exclusion>)
    ensures included <==> Included(d)
    ensures included <==> exclusion == []
    ensures forall x :: x in exclusion <==> exists i :: 0 <= i < |Checks(d)| && !Checks(d)[i].0 && Checks(d)[i].1 == x
  {
    exclusion := [];
    var checks := Checks(d);
    for i := 0 to |checks|
      invariant exclusion == [] <==> forall j :: 0 <= j < i ==> checks[j].0
      invariant forall x :: x in exclusion <==> exists j :: 0 <= j < i && !checks[j].0 && checks[j].1 == x
    {
      if !checks[i].0 {
        exclusion := exclusion + [checks[i].1];
      }
    }
    included := exclusion == [];
  }

  /** Inclusion means the countability file itself does not allow replay, and the
      three transport counters are zero. */
  lemma {:induction false} IncludedMeans(d: RunDocs)
    requires Included(d)
    ensures d.countability.replay != Affirms
    ensures d.sequenceGaps == d.hashMismatches == d.receiverBackpressure == 0
  {
    var c := Checks(d);
    assert c[3].0 && c[4].0 && c[5].0 && c[8].0;
  }

  /** The `or` chain stops at the first truthy value: a run whose countability
      file says the text "false" passes the replay check although another file
      allows replay. The check passes with replay allowed somewhere exactly when
      an earlier file denies it in a truthy way. */
  lemma {:induction false} DenialMasksReplay(d: RunDocs)
    ensures ReplayClaim(d) != Affirms && Affirms in [d.countability.replay, d.proof.replay, d.local.replay, d.retention.replay]
              <==>
            || (d.countability.replay == Denies && Affirms in [d.proof.replay, d.local.replay, d.retention.replay])
            || (d.countability.replay == Silent && d.proof.replay == Denies && Affirms in [d.local.replay, d.retention.replay])
            || (d.countability.replay == d.proof.replay == Silent && d.local.replay == Denies && d.retention.replay == Affirms)
  {
  }

  // ----- segments -----

  datatype SegmentDoc = SegmentDoc(
    id: string, counted: Claim, providerDataLoss: Claim, clientBackpressure: Claim, partialAuditOnly: Claim,
    blockerClass: bool)

  datatype Segment = Segment(clean: bool, providerDataLoss: Claim)

  function SegmentClean(d: SegmentDoc, runIncluded: bool): bool {
    runIncluded && d.counted == Affirms && d.providerDataLoss != Affirms && d.clientBackpressure != Affirms
    && d.partialAuditOnly != Affirms && !d.blockerClass
  }

  function SegmentsFrom(docs: seq<SegmentDoc>, runIncluded: bool): map<string, Segment> {
    if docs == [] then map[]
    else
      var d := docs[|docs| - 1];
      SegmentsFrom(docs[..|docs| - 1], runIncluded)[d.id := Segment(SegmentClean(d, runIncluded), d.providerDataLoss)]
  }

  /** Without segment rows the whole run is one segment with an empty name. */
  function SegmentMap(run: Run): map<string, Segment> {
    var m := SegmentsFrom(run.segments, Included(run.docs));
    if m == map[] then map["" := Segment(Included(run.docs), Silent)] else m
  }

  // ----- runs, attempts, labels -----

  datatype Attempt = Attempt(segmentId: string, mint: string, launchedAt: string, finalState: string)
  datatype RejectedRow = RejectedRow(finalState: string)
  datatype CandidateRow = CandidateRow(checkpoint: Claim, replayEligible: Claim, finalState: string)

  datatype Run = Run(
    sliceId: string, docs: RunDocs, replayCandidates: int, segments: seq<SegmentDoc>, gapMints: set<string>,
    rejected: map<(string, string), RejectedRow>, candidates: map<(string, string), CandidateRow>,
    attempts: seq<Attempt>)

  datatype Quality = CleanPositive | CleanNegative | Censored | AuditCheckpoint | ManualReview

  datatype Label = Label(
    mint: string, sliceId: string, segmentId: string, firstSeen: string, finalOutcome: string,
    providerGap: bool, relayGap: bool, hashGap: bool, receiverGap: bool,
    checkpoint: bool, replayEligible: bool, cleanNegative: bool, cleanPositive: bool, censored: bool, quality: Quality)

  const DEAD := "early_rejected_dead"
  const INCONCLUSIVE := "terminal_inconclusive"

  function FirstText(a: string, b: string, c: string): string {
    if a != "" then a else if b != "" then b else c
  }

  /** The label of one attempt. */
  function LabelOf(run: Run, segments: map<string, Segment>, a: Attempt): Label {
    var segment := if a.segmentId in segments then segments[a.segmentId] else Segment(false, Silent);
    var key := (a.segmentId, a.mint);
    var rejected := if key in run.rejected then run.rejected[key] else RejectedRow("");
    var candidate := if key in run.candidates then run.candidates[key] else CandidateRow(Silent, Silent, "");
    var final := FirstText(a.finalState, rejected.finalState, candidate.finalState);
    var providerGap := a.mint in run.gapMints || segment.providerDataLoss == Affirms;
    var relayGap := run.docs.sequenceGaps > 0;
    var hashGap := run.docs.hashMismatches > 0;
    var receiverGap := run.docs.receiverBackpressure > 0;
    var checkpoint := candidate.checkpoint == Affirms;
    var replayAllowed := run.docs.countability.replay == Affirms && run.replayCandidates > 0;
    var replayEligible := candidate.replayEligible == Affirms && replayAllowed;
    var cleanNegative := final == DEAD && segment.clean && !providerGap && !relayGap;
    var cleanPositive := replayEligible && !checkpoint && segment.clean;
    var censored := final == INCONCLUSIVE || providerGap || relayGap || hashGap || receiverGap;
    var quality := if cleanPositive then CleanPositive else if cleanNegative then CleanNegative
                   else if censored then Censored else if checkpoint then AuditCheckpoint else ManualReview;
    Label(a.mint, run.sliceId, a.segmentId, a.launchedAt, final, providerGap, relayGap, hashGap, receiverGap,
          checkpoint, replayEligible, cleanNegative, cleanPositive, censored, quality)
  }

  function LabelledMints(labels: seq<Label>): set<string> {
    set i | 0 <= i < |labels| :: labels[i].mint
  }

  function SegmentMaps(runs: seq<Run>): map<string, map<string, Segment>> {
    if runs == [] then map[]
    else SegmentMaps(runs[..|runs| - 1])[runs[|runs| - 1].sliceId := SegmentMap(runs[|runs| - 1])]
  }

  function SegmentsOf(maps: map<string, map<string, Segment>>, run: Run): map<string, Segment> {
    if run.sliceId in maps then maps[run.sliceId] else map[]
  }

  /** The labels after the first attempts of a run: one more for each mint that is
      neither empty nor labelled. */
  function Extend(labels: seq<Label>, run: Run, segments: map<string, Segment>, attempts: seq<Attempt>): seq<Label> {
    if attempts == [] then labels
    else
      var before := Extend(labels, run, segments, attempts[..|attempts| - 1]);
      var a := attempts[|attempts| - 1];
      if a.mint == "" || a.mint in LabelledMints(before) then before else before + [LabelOf(run, segments, a)]
  }

  function LabelsFor(runs: seq<Run>, maps: map<string, map<string, Segment>>): seq<Label> {
    if runs == [] then []
    else
      var run := runs[|runs| - 1];
      Extend(LabelsFor(runs[..|runs| - 1], maps), run, SegmentsOf(maps, run), run.attempts)
  }

  lemma {:induction false} LabelledStep(labels: seq<Label>, added: Label)
    ensures LabelledMints(labels + [added]) == LabelledMints(labels) + {added.mint}
  {
    var longer := labels + [added];
    assert longer[|labels|] == added;
    forall i | 0 <= i < |labels| ensures labels[i].mint in LabelledMints(longer) {
      assert longer[i] == labels[i];
    }
  }

  method LabelRun(labelsIn: seq<Label>, seenIn: set<string>, run: Run, segments: map<string, Segment>)
    returns (labels: seq<Label>, seen: set<string>)
    requires seenIn == LabelledMints(labelsIn)
    ensures labels == Extend(labelsIn, run, segments, run.attempts)
    ensures seen == LabelledMints(labels)
  {
    labels, seen := labelsIn, seenIn;
    for i := 0 to |run.attempts|
      invariant labels == Extend(labelsIn, run, segments, run.attempts[..i])
      invariant seen == LabelledMints(labels)
    {
      var a := run.attempts[i];
      assert run.attempts[..i + 1][..i] == run.attempts[..i];
      if a.mint == "" || a.mint in seen {
        continue;
      }
      var added := LabelOf(run, segments, a);
      LabelledStep(labels, added);
      seen := seen + {a.mint};
      labels := labels + [added];
    }
    assert run.attempts[..|run.attempts|] == run.attempts;
  }

  /** The labels of all runs, in run and attempt order. */
  method BuildLabels(runs: seq<Run>) returns (labels: seq<Label>)
    ensures labels == LabelsFor(runs, SegmentMaps(runs))
  {
    labels := [];
    var maps := SegmentMaps(runs);
    var seen: set<string> := {};
    for i := 0 to |runs|
      invariant labels == LabelsFor(runs[..i], maps)
      invariant seen == LabelledMints(labels)
    {
      assert runs[..i + 1][..i] == runs[..i];
      labels, seen := LabelRun(labels, seen, runs[i], SegmentsOf(maps, runs[i]));
    }
    assert runs[..|runs|] == runs;
  }
}
