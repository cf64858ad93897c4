/** What a ledger row says of its slice, and how many rows each reader counts, stated
    on the fields (scripts/run_background_24h_collector.py: slice rows, success count;
    scripts/run_clean_24h_r2_streaming_mission.py: is_successful_slice). */
module LedgerTheorems {
  import opened SliceVerdict
  import opened Ledger

  /** A row carries the fields of its slice's result, and as blocker the first of
      these findings. */
  lemma {:induction false} RowExactly(r: SliceResult, batchIndex: nat, sliceIndex: nat)
    ensures var row := RowFrom(r, batchIndex, sliceIndex);
            && row.batchIndex == batchIndex && row.sliceIndex == sliceIndex && row.sliceId == r.run
            && row.classification == r.classification && row.candidates == r.candidates
            && row.replays == r.replayEligible && row.r2Failed == r.r2Failed
            && row.unverifiedChunks == r.unverifiedChunks && row.artifactOk == r.artifactOk
            && FirstFinding(r, row.blocker)
  {
  }

  /** `blocker` is the first of these findings, in this order, or empty when there
      is none. */
  predicate FirstFinding(r: SliceResult, blocker: string) {
    var counters := r.integrity;
    var transport := counters.sequenceGap + counters.hashMismatch + counters.malformed
                     + counters.backpressure + counters.unavailable;
    && (blocker == "sequence_gap" <==> counters.sequenceGap > 0)
    && (blocker == "hash_mismatch" <==> counters.hashMismatch > 0 == counters.sequenceGap)
    && (blocker == "malformed_frame" <==> counters.malformed > 0 == counters.sequenceGap == counters.hashMismatch)
    && (blocker == "receiver_backpressure" <==>
          counters.backpressure > 0 == counters.sequenceGap == counters.hashMismatch == counters.malformed)
    && (blocker == "receiver_unavailable" <==> counters.unavailable == transport > 0)
    && (blocker == "r2_verification_failure" <==> transport == 0 < r.r2Failed)
    && (blocker == "artifact_consistency_failure" <==> transport == r.r2Failed == 0 && !r.artifactOk)
    && (blocker == "vps_forbidden_artifact" <==>
          transport == r.r2Failed == 0 && r.artifactOk && r.safety.forbiddenRecent > 0)
    && (blocker == "old_vps_material_hunter_active" <==>
          && transport == r.r2Failed == r.safety.forbiddenRecent == 0 && r.artifactOk
          && !(r.safety.candidateService == r.safety.hunterService == "inactive"))
    && (blocker == "" <==>
          && transport == r.r2Failed == r.safety.forbiddenRecent == 0 && r.artifactOk
          && r.safety.candidateService == r.safety.hunterService == "inactive")
  }

  // ----- counting rows -----

  function Holding(rows: seq<Row>, f: Row -> bool): set<nat> {
    set i: nat | i < |rows| && f(rows[i])
  }

  lemma {:induction false} CountIsSize(rows: seq<Row>, f: Row -> bool)
    ensures CountRows(rows, f) == |Holding(rows, f)|
    decreases |rows|
  {
    if rows != [] {
      var n := |rows| - 1;
      forall i: nat | i < n ensures rows[..n][i] == rows[i] {
      }
      assert Holding(rows, f) == Holding(rows[..n], f) + (if f(rows[n]) then {n} else {});
      CountIsSize(rows[..n], f);
    }
  }

  /** The rows without a blocker whose text says PASS and neither BLOCK nor NO_COUNT. */
  function PassingRows(rows: seq<Row>): set<nat> {
    set i: nat | i < |rows| && rows[i].blocker == "" && ReadsAsPassOnly(TextOf(rows[i].classification))
  }

  /** The collector's success count is the number of these rows. */
  lemma {:induction false} SuccessCountExactly(rows: seq<Row>)
    ensures CountRows(rows, CountsAsSuccess()) == |PassingRows(rows)|
  {
    CountIsSize(rows, CountsAsSuccess());
    forall i: nat | i < |rows| ensures i in Holding(rows, CountsAsSuccess()) <==> i in PassingRows(rows) {
      PassOnlyIsTextual(rows[i].classification);
    }
    assert Holding(rows, CountsAsSuccess()) == PassingRows(rows);
  }

  /** The rows without a blocker, R2 failure, unverified chunk or inconsistent
      artifact whose text is one of the mission's. */
  function MissionRows(rows: seq<Row>): set<nat> {
    set i: nat | && i < |rows| && rows[i].blocker == "" && rows[i].r2Failed == 0 && rows[i].unverifiedChunks == 0
                 && rows[i].artifactOk && TextOf(rows[i].classification) in MISSION_CLASSIFICATIONS
  }

  /** The mission's count is the number of these rows. */
  lemma {:induction false} MissionCountExactly(rows: seq<Row>)
    ensures CountRows(rows, Successful()) == |MissionRows(rows)|
  {
    CountIsSize(rows, Successful());
    forall i: nat | i < |rows| ensures i in Holding(rows, Successful()) <==> i in MissionRows(rows) {
      MissionAcceptsIsTextual(rows[i].classification);
    }
    assert Holding(rows, Successful()) == MissionRows(rows);
  }
}
