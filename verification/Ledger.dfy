/** The slice ledger's rows and what each reader makes of a row
    (scripts/run_background_24h_collector.py and
    scripts/run_clean_24h_r2_streaming_mission.py). */
module Ledger {
  import opened Common
  import opened Text
  import opened SliceVerdict
  import opened SliceTheorems

  /** The columns of slice_summaries.csv that decisions are taken on. */
  datatype Row = Row(
    batchIndex: nat, sliceIndex: nat, sliceId: string, classification: SliceClass,
    candidates: nat, replays: nat, r2Failed: nat, unverifiedChunks: nat, artifactOk: bool, blocker: string)

  const OLD_HUNTER_ACTIVE := "old_vps_material_hunter_active"

  /** The collector's own second look at a slice result. */
  function BlockerFromSlice(r: SliceResult): string {
    if r.integrity.sequenceGap > 0 then "sequence_gap"
    else if r.integrity.hashMismatch > 0 then "hash_mismatch"
    else if r.integrity.malformed > 0 then "malformed_frame"
    else if r.integrity.backpressure > 0 then "receiver_backpressure"
    else if r.integrity.unavailable > 0 then "receiver_unavailable"
    else if r.r2Failed > 0 then "r2_verification_failure"
    else if !r.artifactOk then "artifact_consistency_failure"
    else if r.safety.forbiddenRecent != 0 then "vps_forbidden_artifact"
    else if r.safety.candidateService != "inactive" || r.safety.hunterService != "inactive" then OLD_HUNTER_ACTIVE
    else ""
  }

  /** The stricter quarantine test of the collector. */
  predicate IsSafeQuarantineSlice(r: SliceResult) {
    && r.classification == PassQuarantined && BlockerFromSlice(r) == "" && r.quarantined
    && r.partialAuditOnly == Yes && r.counted == No && r.providerClass == "provider_reconnect_exhausted"
    && r.candidates == 0 && r.replayEligible == 0 && r.unverifiedChunks == 0
  }

  function Last(results: seq<SliceResult>): SliceResult
    requires results != []
  {
    results[|results| - 1]
  }

  /** Nothing in the row asks the worker to stop. */
  predicate Quiet(row: Row) {
    row.blocker == "" && row.candidates == 0 && row.replays == 0
  }

  predicate ReadsAsPassOnly(text: string) {
    Contains(text, "PASS") && !Contains(text, "BLOCK") && !Contains(text, "NO_COUNT")
  }

  function BlockText(kind: BlockKind): string {
    match kind
    case SequenceGapBlock => "SEQUENCE_GAP"
    case HashMismatchBlock => "HASH_MISMATCH"
    case BackpressureBlock => "RECEIVER_BACKPRESSURE"
    case UnavailableBlock => "RECEIVER_UNAVAILABLE"
    case R2Block => "R2"
    case ArtifactBlock => "ARTIFACT_CONSISTENCY"
    case AsofBlock => "ASOF_ALPHA_FEATURES"
    case ForbiddenBlock => "VPS_FORBIDDEN_ARTIFACTS"
    case ProviderBlock => "PROVIDER"
    case CountabilityBlock => "COUNTABILITY"
    case OrchestrationBlock => "ORCHESTRATION"
    case StructuralBlock => "STRUCTURAL"
  }

  /** The text of a classification. */
  function TextOf(c: SliceClass): string {
    match c
    case PassCounted => "RELAY_COLLECTION_PASS_COUNTED_NO_CANDIDATE"
    case PassGapContinued => "RELAY_COLLECTION_PASS_PROVIDER_GAP_CONTINUED"
    case PassReview => "RELAY_COLLECTION_PASS_REVIEW_CANDIDATE"
    case PassQuarantined => "RELAY_COLLECTION_PASS_PROVIDER_GAP_QUARANTINED_NO_COUNT"
    case PassEmpty => "RELAY_LOCAL_DATASET_PASS_EMPTY_NO_ATTEMPTS"
    case PassNoSignal => "RELAY_LOCAL_DATASET_PASS_NO_SIGNAL"
    case PassDataset => "RELAY_LOCAL_DATASET_PASS"
    case PassContinuation => "RELAY_PROVIDER_GAP_CONTINUATION_PASS"
    case RecoveredEmpty => "RELAY_COLLECTION_PASS_EMPTY_NO_ATTEMPTS"
    case RecoveredNoSignal => "RELAY_COLLECTION_PASS_NO_SIGNAL"
    case Block(kind) => "RELAY_LOCAL_DATASET_BLOCK_" + BlockText(kind)
    case OtherText(text) => text
  }

  /** The collector's test on the text, decided on the classification. */
  predicate PassOnly(c: SliceClass) {
    if c.OtherText? then ReadsAsPassOnly(c.text) else !c.Block? && !c.PassQuarantined?
  }

  predicate RowCountsAsSuccess(row: Row) {
    row.blocker == "" && PassOnly(row.classification)
  }

  const MISSION_CLASSIFICATIONS: set<string> := {
    "RELAY_COLLECTION_PASS_COUNTED_NO_CANDIDATE",
    "RELAY_COLLECTION_PASS_PROVIDER_GAP_CONTINUED",
    "RELAY_LOCAL_DATASET_PASS",
    "RELAY_PROVIDER_GAP_CONTINUATION_PASS",
    "RELAY_LOCAL_DATASET_PASS_NO_SIGNAL",
    "RELAY_LOCAL_DATASET_PASS_EMPTY_NO_ATTEMPTS",
    "RELAY_COLLECTION_PASS_NO_SIGNAL",
    "RELAY_COLLECTION_PASS_EMPTY_NO_ATTEMPTS"}

  /** The mission's test on the text, decided on the classification. */
  predicate MissionAccepts(c: SliceClass) {
    if c.OtherText? then c.text in MISSION_CLASSIFICATIONS else !c.Block? && !c.PassQuarantined? && !c.PassReview?
  }

  predicate IsSuccessfulSlice(row: Row) {
    && row.blocker == "" && row.r2Failed == 0 && row.unverifiedChunks == 0 && row.artifactOk
    && MissionAccepts(row.classification)
  }

  function CountRows(rows: seq<Row>, f: Row -> bool): nat {
    if rows == [] then 0
    else CountRows(rows[..|rows| - 1], f) + (if f(rows[|rows| - 1]) then 1 else 0)
  }

  function CountsAsSuccess(): Row -> bool { (row: Row) => RowCountsAsSuccess(row) }
  function Successful(): Row -> bool { (row: Row) => IsSuccessfulSlice(row) }

  // ----- the two readers agree -----

  /** A text with PASS in it, without a B and without an N five before a U. */
  lemma {:induction false} ReadsAsPass(text: string, at: int)
    requires OccursAt(text, "PASS", at)
    requires forall i :: 0 <= i < |text| ==> text[i] != 'B'
    requires forall i :: 0 <= i < |text| - 5 ==> text[i] != 'N' || text[i + 5] != 'U'
    ensures ReadsAsPassOnly(text)
  {
    forall i | 0 <= i <= |text| - 5 ensures !OccursAt(text, "BLOCK", i) {
      assert "BLOCK"[0] == 'B' && text[i + 0] != 'B';
    }
    forall i | 0 <= i <= |text| - 8 ensures !OccursAt(text, "NO_COUNT", i) {
      assert "NO_COUNT"[0] == 'N' && "NO_COUNT"[5] == 'U';
      assert text[i + 0] != 'N' || text[i + 5] != 'U';
    }
  }

  lemma {:induction false} CountedText()
    ensures ReadsAsPassOnly("RELAY_COLLECTION_PASS_COUNTED_NO_CANDIDATE")
  {
    ReadsAsPass("RELAY_COLLECTION_PASS_COUNTED_NO_CANDIDATE", 17);
  }

  lemma {:induction false} GapContinuedText()
    ensures ReadsAsPassOnly("RELAY_COLLECTION_PASS_PROVIDER_GAP_CONTINUED")
  {
    ReadsAsPass("RELAY_COLLECTION_PASS_PROVIDER_GAP_CONTINUED", 17);
  }

  lemma {:induction false} DatasetText()
    ensures ReadsAsPassOnly("RELAY_LOCAL_DATASET_PASS")
  {
    ReadsAsPass("RELAY_LOCAL_DATASET_PASS", 20);
  }

  lemma {:induction false} ContinuationText()
    ensures ReadsAsPassOnly("RELAY_PROVIDER_GAP_CONTINUATION_PASS")
  {
    ReadsAsPass("RELAY_PROVIDER_GAP_CONTINUATION_PASS", 32);
  }

  lemma {:induction false} DatasetNoSignalText()
    ensures ReadsAsPassOnly("RELAY_LOCAL_DATASET_PASS_NO_SIGNAL")
  {
    ReadsAsPass("RELAY_LOCAL_DATASET_PASS_NO_SIGNAL", 20);
  }

  lemma {:induction false} DatasetEmptyText()
    ensures ReadsAsPassOnly("RELAY_LOCAL_DATASET_PASS_EMPTY_NO_ATTEMPTS")
  {
    ReadsAsPass("RELAY_LOCAL_DATASET_PASS_EMPTY_NO_ATTEMPTS", 20);
  }

  lemma {:induction false} CollectionNoSignalText()
    ensures ReadsAsPassOnly("RELAY_COLLECTION_PASS_NO_SIGNAL")
  {
    ReadsAsPass("RELAY_COLLECTION_PASS_NO_SIGNAL", 17);
  }

  lemma {:induction false} CollectionEmptyText()
    ensures ReadsAsPassOnly("RELAY_COLLECTION_PASS_EMPTY_NO_ATTEMPTS")
  {
    ReadsAsPass("RELAY_COLLECTION_PASS_EMPTY_NO_ATTEMPTS", 17);
  }

  lemma {:induction false} ReviewText()
    ensures ReadsAsPassOnly("RELAY_COLLECTION_PASS_REVIEW_CANDIDATE")
  {
    ReadsAsPass("RELAY_COLLECTION_PASS_REVIEW_CANDIDATE", 17);
  }

  lemma {:induction false} QuarantineText()
    ensures !ReadsAsPassOnly(TextOf(PassQuarantined))
  {
    assert OccursAt(TextOf(PassQuarantined), "NO_COUNT", 47);
  }

  lemma {:induction false} BlockTexts(kind: BlockKind)
    ensures !ReadsAsPassOnly(TextOf(Block(kind)))
  {
    var front, text := "RELAY_LOCAL_DATASET_BLOCK_", TextOf(Block(kind));
    assert OccursAt(front, "BLOCK", 20);
    assert |front| == 26 && text[..26] == front;
    forall i | 0 <= i < 5 ensures text[20 + i] == "BLOCK"[i] {
      assert front[20 + i] == "BLOCK"[i] && text[20 + i] == text[..26][20 + i];
    }
    assert OccursAt(text, "BLOCK", 20);
  }

  /** The two tests on classifications are the source's tests on their texts. */
  lemma {:induction false} PassOnlyIsTextual(c: SliceClass)
    ensures PassOnly(c) <==> ReadsAsPassOnly(TextOf(c))
  {
    match c
    case PassCounted => CountedText();
    case PassGapContinued => GapContinuedText();
    case PassReview => ReviewText();
    case PassQuarantined => QuarantineText();
    case PassEmpty => DatasetEmptyText();
    case PassNoSignal => DatasetNoSignalText();
    case PassDataset => DatasetText();
    case PassContinuation => ContinuationText();
    case RecoveredEmpty => CollectionEmptyText();
    case RecoveredNoSignal => CollectionNoSignalText();
    case Block(kind) => BlockTexts(kind);
    case OtherText(text) =>
  }

  lemma {:induction false} MissionAcceptsIsTextual(c: SliceClass)
    ensures MissionAccepts(c) <==> TextOf(c) in MISSION_CLASSIFICATIONS
  {
    if !c.OtherText? && TextOf(c) in MISSION_CLASSIFICATIONS {
      TextsReadAsPass(TextOf(c));
      PassOnlyIsTextual(c);
      assert c != PassReview by {
        ReviewIsNoMissionText();
      }
    }
  }

  lemma {:induction false} TextsReadAsPass(text: string)
    requires text in MISSION_CLASSIFICATIONS
    ensures ReadsAsPassOnly(text)
  {
    CountedText();
    GapContinuedText();
    DatasetText();
    ContinuationText();
    DatasetNoSignalText();
    DatasetEmptyText();
    CollectionNoSignalText();
    CollectionEmptyText();
  }

  lemma {:induction false} ReviewIsNoMissionText()
    ensures TextOf(PassReview) !in MISSION_CLASSIFICATIONS
  {
    var text := TextOf(PassReview);
    assert |text| == 38;
    assert |TextOf(PassCounted)| == 42 && |TextOf(PassGapContinued)| == 44 && |TextOf(PassDataset)| == 24;
    assert |TextOf(PassContinuation)| == 36 && |TextOf(PassNoSignal)| == 34 && |TextOf(PassEmpty)| == 42;
    assert |TextOf(RecoveredNoSignal)| == 31 && |TextOf(RecoveredEmpty)| == 39;
  }

  /** Whatever the mission counts as successful, the collector counts too. */
  lemma {:induction false} SuccessfulCounts(row: Row)
    requires IsSuccessfulSlice(row)
    ensures RowCountsAsSuccess(row)
  {
    if row.classification.OtherText? {
      TextsReadAsPass(row.classification.text);
    }
  }

  /** For any ledger the mission never reports more slices than the collector. */
  lemma {:induction false} MissionNeverExceedsCollector(rows: seq<Row>)
    ensures CountRows(rows, Successful()) <= CountRows(rows, CountsAsSuccess())
    decreases |rows|
  {
    if rows != [] {
      var n := |rows| - 1;
      MissionNeverExceedsCollector(rows[..n]);
      if IsSuccessfulSlice(rows[n]) {
        SuccessfulCounts(rows[n]);
      }
    }
  }

  // ----- rows made from slice results -----

  function RowFrom(r: SliceResult, batchIndex: nat, sliceIndex: nat): Row {
    Row(batchIndex, sliceIndex, r.run, r.classification, r.candidates, r.replayEligible, r.r2Failed,
        r.unverifiedChunks, r.artifactOk, BlockerFromSlice(r))
  }

  /** The collector's second look never contradicts the supervisor: for a slice
      that passed, by whichever route, the only blocker it can find is a VPS
      service that is not reported inactive. */
  lemma {:induction false} PassedSliceBlocker(e: Evidence, c: Context)
    requires Decide(e, c).Passed?
    ensures BlockerFromSlice(Decide(e, c).result) ==
              if c.safety.candidateService == "inactive" && c.safety.hunterService == "inactive" then ""
              else OLD_HUNTER_ACTIVE
  {
    PassedSliceIsClean(e, c);
  }

  /** A passed slice's row counts as a success exactly when the slice was accepted
      and no blocker was found; the mission asks for verified chunks on top. */
  lemma {:induction false} PassedRowCounts(e: Evidence, c: Context, batchIndex: nat, sliceIndex: nat)
    requires Decide(e, c).Passed?
    ensures var r := Decide(e, c).result;
            var row := RowFrom(r, batchIndex, sliceIndex);
            && (RowCountsAsSuccess(row) <==> row.blocker == "" && Accepted(r))
            && (IsSuccessfulSlice(row) <==> RowCountsAsSuccess(row) && row.unverifiedChunks == 0)
  {
    PassedSliceIsClean(e, c);
  }
}
