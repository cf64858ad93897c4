/** The supervisor and the worker together: what a ledger can contain when every
    line in it went through the batch supervisor. */
module CollectorTheorems {
  import opened Common
  import opened SliceVerdict
  import opened SliceTheorems
  import opened SliceReports
  import opened BatchSupervisor
  import opened Ledger
  import opened LedgerTheorems
  import opened Collector

  /** What a one-slice batch leaves behind. */
  function OutcomeOf(slice: SliceRun): Outcome {
    if Passes(slice) then Outcome(if Accepted(ResultOf(slice)) then 0 else 4, [ResultOf(slice)], None)
    else Outcome(2, [], if slice.Raised? then None else Some(Decide(slice.e, slice.c).result))
  }

  /** The same, from the one attempt of the batch. */
  function OutcomeOfAttempt(attempt: Attempted): Outcome {
    match attempt
    case Pass(result) => Outcome(if Accepted(result) then 0 else 4, [result], None)
    case Stop(reason) => Outcome(2, [], if reason.SliceBlocked? then Some(reason.result) else None)
  }

  lemma {:induction false} OutcomesAgree(slice: SliceRun, index: int)
    ensures OutcomeOfAttempt(AttemptOf(slice, index)) == OutcomeOf(slice)
  {
    PassingAttempt(slice, index);
  }

  lemma {:induction false} CountOne(result: SliceResult)
    ensures CountIf([result], IsAccepted()) == if Accepted(result) then 1 else 0
  {
    assert [result][..0] == [];
  }

  /** A batch of one attempt that wants one counted slice. */
  method RunOne(attempt: Attempted) returns (outcome: Outcome)
    requires attempt.Pass? ==> attempt.result.classification != PassReview
    ensures outcome == OutcomeOfAttempt(attempt)
  {
    var attempts := (k: nat) => attempt;
    var run := RunAttempts(attempts, 1, 1, 1);
    if run.exitCode != 2 {
      assert run.summary == [attempts(0).result];
      CountOne(attempt.result);
    }
    outcome := Outcome(run.exitCode, run.summary, if run.stop.SliceBlocked? then Some(run.stop.result) else None);
  }

  /** The supervisor as the worker starts it: one slice, one counted slice wanted. */
  method Supervise(slice: SliceRun) returns (outcome: Outcome)
    ensures outcome == OutcomeOf(slice)
  {
    var attempt := AttemptSlice(slice, 1);
    PassingAttempt(slice, 1);
    outcome := RunOne(attempt);
    OutcomesAgree(slice, 1);
  }

  /** A row of a supervised slice: nothing but a VPS service that is not inactive,
      or a replay candidate that may not be replayed, can make it ask for a stop. */
  predicate CleanRow(row: Row) {
    && row.candidates == 0 && row.r2Failed == 0 && row.artifactOk
    && (row.blocker == "" || row.blocker == OLD_HUNTER_ACTIVE)
  }

  lemma {:induction false} MirroredRowIsClean(t: Tick, slice: SliceRun, n: nat)
    requires t.outcome == OutcomeOf(slice) && Mirrors(t)
    ensures Passes(slice) && Last(t.outcome.summary) == ResultOf(slice)
    ensures CleanRow(RowOf(t, n))
    ensures RowCountsAsSuccess(RowOf(t, n)) <==> RowOf(t, n).blocker == "" && Accepted(ResultOf(slice))
    ensures Accepted(ResultOf(slice)) <==> t.outcome.exitCode == 0
  {
    PassedSliceIsClean(slice.e, slice.c);
    PassedSliceBlocker(slice.e, slice.c);
    PassedRowCounts(slice.e, slice.c, n / SLICES_PER_BATCH + 1, n + 1);
  }

  /** What the collector asks of a quarantined slice on top of the supervisor. */
  predicate QuarantineKept(e: Evidence, c: Context) {
    && e.counted == No && e.providerClass == "provider_reconnect_exhausted"
    && BothZero(e.replayEligible) && BothZero(e.unverifiedChunks)
    && c.safety.candidateService == "inactive" && c.safety.hunterService == "inactive"
  }

  lemma {:induction false} QuarantineKeptExactly(e: Evidence, c: Context)
    requires Decide(e, c).Passed?
    ensures IsSafeQuarantineSlice(Decide(e, c).result) <==> RouteQuarantine(e, c) && QuarantineKept(e, c)
  {
    PassedSliceIsClean(e, c);
    PassedReport(e, c);
    PassedSliceBlocker(e, c);
  }

  /** The worker's exit code tells why it stopped: 3 the storage, 2 a slice that
      did not pass, 4 a quarantined slice the collector does not accept. */
  lemma {:induction false} FailureCodesAreDistinct(t: Tick, slice: SliceRun)
    requires t.outcome == OutcomeOf(slice) && !Mirrors(t)
    ensures Supervised(t)
    ensures FailureCode(t) == 3 <==> t.storage.Some?
    ensures FailureCode(t) == 2 <==> t.storage.None? && !Passes(slice)
    ensures FailureCode(t) == 4 <==>
              t.storage.None? && Passes(slice) && RouteQuarantine(slice.e, slice.c) && !QuarantineKept(slice.e, slice.c)
    ensures FailureCode(t) in {2, 3, 4}
  {
    if Passes(slice) {
      PassedSliceIsClean(slice.e, slice.c);
      PassedReport(slice.e, slice.c);
      QuarantineKeptExactly(slice.e, slice.c);
    }
  }

  /** What a worker's row says about the slice it comes from: it passed, the row is
      clean, and it counts exactly when the slice was accepted and no blocker found. */
  predicate SliceBehind(row: Row, slice: SliceRun) {
    && Passes(slice) && CleanRow(row) && row.sliceId == slice.c.run
    && (RowCountsAsSuccess(row) <==> row.blocker == "" && Accepted(ResultOf(slice)))
  }

  /** Every row a supervised worker adds is clean, and every added row but the
      last one is quiet and therefore asks for nothing. */
  lemma {:induction false} WorkerLedgerIsClean(env: nat -> Tick, slices: nat -> SliceRun, rows: seq<Row>, first: nat, k: nat)
    requires forall j :: env(j).outcome == OutcomeOf(slices(j))
    requires Grew(env, rows, first) && first + k < |rows|
    ensures SliceBehind(rows[first + k], slices(k))
    ensures first + k < |rows| - 1 ==> Quiet(rows[first + k])
    ensures rows[first + k].sliceIndex == first + k + 1
  {
    assert WentThrough(env, rows, first, k);
    MirroredRowIsClean(env(k), slices(k), first + k);
    PassedSliceIsClean(slices(k).e, slices(k).c);
    if first + k < |rows| - 1 {
      assert WentThrough(env, rows, first, k + 1);
      var before := rows[..first + (k + 1)];
      NoStopMeans(before, env(k + 1));
      assert before[|before| - 1] == rows[first + k];
    }
  }

  // ----- why a worker stops -----

  /** A row reports a candidate or a replay candidate. */
  predicate CandidateReported(rows: seq<Row>) {
    exists i :: 0 <= i < |rows| && (rows[i].candidates > 0 || rows[i].replays > 0)
  }

  /** The last row has a blocker, a row reports a candidate, 20 mints are high positive,
      96 rows without a blocker read as passed, or 24 hours are over. */
  predicate MustStop(rows: seq<Row>, highPositive: nat, elapsed: nat) {
    || (rows != [] && rows[|rows| - 1].blocker != "") || CandidateReported(rows)
    || highPositive >= 20 || |PassingRows(rows)| >= 96 || elapsed >= 24 * 60 * 60
  }

  /** The first of these reasons is the one reported. */
  predicate StopsFor(rows: seq<Row>, highPositive: nat, elapsed: nat, c: Classification, r: Reason) {
    if rows != [] && rows[|rows| - 1].blocker != ""
    then r == ForBlocker(rows[|rows| - 1].blocker) && BlockedAs(rows[|rows| - 1].blocker, c)
    else if CandidateReported(rows) then c == ReviewTriggered && r == CandidateOrReplay
    else if highPositive >= 20 then c == TargetReached && r == HighPositiveTarget
    else c == CollectionPass && r == if |PassingRows(rows)| >= 96 then MaxSlices else MaxRuntime
  }

  lemma {:induction false} HaltsExactly(rows: seq<Row>, highPositive: nat, elapsed: nat)
    ensures Halts(rows, highPositive, elapsed) <==> MustStop(rows, highPositive, elapsed)
    ensures forall c, r :: HaltedAs(rows, highPositive, elapsed, c, r) <==> StopsFor(rows, highPositive, elapsed, c, r)
  {
    SuccessCountExactly(rows);
  }

  lemma {:induction false} WorkerHalts(env: nat -> Tick, was: Snapshot, now: Snapshot, n: nat, rc: nat)
    requires WorkerRan(env, was, now, n, rc) && Supervised(env(n))
    ensures rc == 0 <==> Halts(now.rows, env(n).highPositive, env(n).elapsed)
    ensures rc == 0 ==> CompletedBy(env(n), now.rows, now.status)
    ensures rc != 0 ==> BlockedBy(env(n), now.status)
  {
  }

  /** A supervised worker ends with exit code 0 exactly when it must stop, and its
      status then names the first reason; else it names the storage or the slice. */
  lemma {:induction false} WorkerStopsExactly(env: nat -> Tick, was: Snapshot, now: Snapshot, n: nat, rc: nat)
    requires WorkerRan(env, was, now, n, rc) && Supervised(env(n))
    ensures rc == 0 <==> MustStop(now.rows, env(n).highPositive, env(n).elapsed)
    ensures rc == 0 ==>
              && now.status.state == Complete && now.status.blocker == ""
              && StopsFor(now.rows, env(n).highPositive, env(n).elapsed, now.status.classification, now.status.stopReason)
    ensures rc != 0 ==> BlockedBy(env(n), now.status)
  {
    WorkerHalts(env, was, now, n, rc);
    HaltsExactly(now.rows, env(n).highPositive, env(n).elapsed);
  }

  /** No turn that went through had to stop. */
  lemma {:induction false} NoTurnHadToStop(env: nat -> Tick, rows: seq<Row>, first: nat, k: nat)
    requires Grew(env, rows, first) && first + k < |rows|
    ensures !MustStop(rows[..first + k], env(k).highPositive, env(k).elapsed)
  {
    assert WentThrough(env, rows, first, k);
    HaltsExactly(rows[..first + k], env(k).highPositive, env(k).elapsed);
  }
}
