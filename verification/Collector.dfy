/** The background collector's worker and its slice ledger
    (scripts/run_background_24h_collector.py). */
module Collector {
  import opened Common
  import opened Text
  import opened SliceVerdict
  import opened Ledger
  import opened Resume

  const MAX_TOTAL_SLICES: nat := 96
  const SLICES_PER_BATCH: nat := 10
  const MAX_RUNTIME_SECONDS: nat := 24 * 3600
  const TARGET_HIGH_POSITIVE: nat := 20

  const SUPERVISOR_FAILED := "supervisor_slice_failed"

  const DISK_PREFIXES: seq<string> := [
    "local_output_disk_below_required",
    "local_spool_disk_below_required",
    "local_disk_below_r2_primary_gate",
    "local_disk_below_r2_streaming_gate",
    "r2_primary_local_disk_preflight_failed",
    "r2_streaming_local_disk_preflight_failed"]

  /** What the supervisor process leaves behind for one slice: its exit code, the
      lines of batch_summary.ndjson and the result in batch_stop.json. */
  datatype Outcome = Outcome(exitCode: nat, summary: seq<SliceResult>, stopped: Option<SliceResult>)

  /** What the surroundings answer during one iteration: the storage check (None
      when ready, else its joined blockers), the supervisor's outcome, the number
      of high-positive mints and the seconds since the worker started. */
  datatype Tick = Tick(storage: Option<string>, outcome: Outcome, highPositive: nat, elapsed: nat)

  /** A supervisor that succeeds has written a summary line. */
  predicate Supervised(t: Tick) {
    t.outcome.exitCode == 0 ==> t.outcome.summary != []
  }

  /** The collector's classifications, BACKGROUND_24H_COLLECTION_... in the status
      file, and the reasons it gives for stopping. */
  datatype Classification =
    | NotStarted | Running | BlockDisk | BlockDiskCapacity | BlockRelay | BlockR2 | BlockArtifact
    | ReviewTriggered | TargetReached | CollectionPass | ResumeReady

  datatype Reason = NoReason | ForBlocker(blocker: string) | CandidateOrReplay | HighPositiveTarget | MaxSlices | MaxRuntime

  datatype State = Idle | Working | Blocked | Complete | Ready

  datatype Status = Status(state: State, classification: Classification, blocker: string, stopReason: Reason)

  // ----- ledger shape -----

  predicate WellNumbered(rows: seq<Row>) {
    forall i :: 0 <= i < |rows| ==>
      rows[i].sliceIndex == i + 1 && rows[i].batchIndex == i / SLICES_PER_BATCH + 1
  }

  /** Only the last row may ask for a stop. */
  predicate QuietButLast(rows: seq<Row>) {
    forall i :: 0 <= i < |rows| - 1 ==> Quiet(rows[i])
  }

  function SumCandidates(rows: seq<Row>): nat {
    if rows == [] then 0 else SumCandidates(rows[..|rows| - 1]) + rows[|rows| - 1].candidates
  }

  function SumReplays(rows: seq<Row>): nat {
    if rows == [] then 0 else SumReplays(rows[..|rows| - 1]) + rows[|rows| - 1].replays
  }

  /** The batch completed by the `n`-th row, if any. */
  function BatchMark(n: nat): seq<nat> {
    if n % SLICES_PER_BATCH == 0 then [n / SLICES_PER_BATCH] else []
  }

  /** The batches whose tenth row lies after the first `from` rows. */
  function CompletedBatches(from: nat, upto: nat): seq<nat>
    requires from <= upto
  {
    if from == upto then [] else CompletedBatches(from, upto - 1) + BatchMark(upto)
  }

  lemma {:induction false} MarkedBatch(n: nat, b: nat)
    requires n > 0
    ensures b in BatchMark(n) <==> SLICES_PER_BATCH * b == n
  {
    assert n == SLICES_PER_BATCH * (n / SLICES_PER_BATCH) + n % SLICES_PER_BATCH;
  }

  /** The run that grows the ledger from `from` to `to` rows writes the summary of
      a batch exactly when the batch's tenth row is among the new ones. */
  lemma {:induction false} SummariesWritten(from: nat, upto: nat, b: nat)
    requires from <= upto
    ensures b in CompletedBatches(from, upto) <==> from < SLICES_PER_BATCH * b <= upto
    decreases upto
  {
    if from < upto {
      SummariesWritten(from, upto - 1, b);
      MarkedBatch(upto, b);
    }
  }

  lemma {:induction false} OneMoreRow(log: seq<nat>, from: nat, n: nat)
    requires from <= n
    ensures log + CompletedBatches(from, n + 1) == (log + CompletedBatches(from, n)) + BatchMark(n + 1)
  {
  }

  lemma {:induction false} BatchOfNextRow(n: nat)
    ensures (n + 1) % SLICES_PER_BATCH == 0 ==> n / SLICES_PER_BATCH + 1 == (n + 1) / SLICES_PER_BATCH
  {
  }

  // ----- stop decision -----

  /** The blocker's text speaks of the local disk. */
  predicate IsDiskBlocker(blocker: string): (disk: bool)
    ensures disk <==>
              || Contains(blocker, "local_output_disk_below_required")
              || Contains(blocker, "local_spool_disk_below_required")
              || Contains(blocker, "local_disk_below_r2_primary_gate")
              || Contains(blocker, "local_disk_below_r2_streaming_gate")
              || Contains(blocker, "r2_primary_local_disk_preflight_failed")
              || Contains(blocker, "r2_streaming_local_disk_preflight_failed")
  {
    assert DISK_PREFIXES[0] == "local_output_disk_below_required";
    assert DISK_PREFIXES[1] == "local_spool_disk_below_required";
    assert DISK_PREFIXES[2] == "local_disk_below_r2_primary_gate";
    assert DISK_PREFIXES[3] == "local_disk_below_r2_streaming_gate";
    assert DISK_PREFIXES[4] == "r2_primary_local_disk_preflight_failed";
    assert DISK_PREFIXES[5] == "r2_streaming_local_disk_preflight_failed";
    exists i :: 0 <= i < |DISK_PREFIXES| && Contains(blocker, DISK_PREFIXES[i])
  }

  /** A storage blocker that more room than there is to free would cure. */
  predicate SpeaksOfCapacity(blocker: string) {
    Contains(blocker, "recommended") || Contains(blocker, "insufficient_safe_verified_bulk_artifacts_for_gc")
  }

  predicate LastRowBlocks(rows: seq<Row>) {
    rows != [] && rows[|rows| - 1].blocker != ""
  }

  predicate SomeCandidate(rows: seq<Row>) {
    exists i :: 0 <= i < |rows| && (rows[i].candidates > 0 || rows[i].replays > 0)
  }

  /** The ledger, the mints or the clock ask the worker to stop. */
  predicate Halts(rows: seq<Row>, highPositive: nat, elapsed: nat) {
    || LastRowBlocks(rows) || SomeCandidate(rows) || highPositive >= 20
    || CountRows(rows, CountsAsSuccess()) >= 96 || elapsed >= 24 * 60 * 60
  }

  /** The classification of a stop for a row's blocker follows its text. */
  predicate BlockedAs(blocker: string, c: Classification) {
    && c in {BlockR2, BlockRelay, BlockArtifact}
    && (c == BlockR2 <==> |blocker| >= 2 && blocker[0] == 'r' && blocker[1] == '2')
    && (c == BlockRelay <==> blocker in {"receiver_backpressure", "receiver_unavailable", "sequence_gap",
                                         "hash_mismatch", "malformed_frame"})
  }

  /** How such a stop is reported: the first cause in this order. */
  predicate HaltedAs(rows: seq<Row>, highPositive: nat, elapsed: nat, c: Classification, r: Reason) {
    if LastRowBlocks(rows) then r == ForBlocker(rows[|rows| - 1].blocker) && BlockedAs(rows[|rows| - 1].blocker, c)
    else if SomeCandidate(rows) then c == ReviewTriggered && r == CandidateOrReplay
    else if highPositive >= 20 then c == TargetReached && r == HighPositiveTarget
    else if CountRows(rows, CountsAsSuccess()) >= 96 then c == CollectionPass && r == MaxSlices
    else c == CollectionPass && r == MaxRuntime
  }

  function ClassifyRowBlocker(blocker: string): (c: Classification)
    ensures BlockedAs(blocker, c)
  {
    if "r2" <= blocker then BlockR2
    else if blocker == "artifact_consistency_failure" then BlockArtifact
    else if blocker in {"receiver_backpressure", "receiver_unavailable", "sequence_gap", "hash_mismatch", "malformed_frame"}
      then BlockRelay
    else BlockArtifact
  }

  lemma {:induction false} SumsExactly(rows: seq<Row>)
    ensures SumCandidates(rows) > 0 || SumReplays(rows) > 0 <==> SomeCandidate(rows)
    decreases |rows|
  {
    if rows != [] {
      var n := |rows| - 1;
      SumsExactly(rows[..n]);
      assert forall i :: 0 <= i < n ==> rows[..n][i] == rows[i];
      if i :| 0 <= i < n && (rows[i].candidates > 0 || rows[i].replays > 0) {
        assert rows[..n][i].candidates > 0 || rows[..n][i].replays > 0;
      }
    }
  }

  /** Why the worker must stop, as far as the ledger, the mints and the clock go:
      `Some((classification, reason))`. */
  function LedgerStop(rows: seq<Row>, highPositive: nat, elapsed: nat): (r: Option<(Classification, Reason)>)
    ensures r.Some? <==> Halts(rows, highPositive, elapsed)
    ensures r.Some? ==> HaltedAs(rows, highPositive, elapsed, r.value.0, r.value.1)
  {
    SumsExactly(rows);
    if rows != [] && rows[|rows| - 1].blocker != "" then
      Some((ClassifyRowBlocker(rows[|rows| - 1].blocker), ForBlocker(rows[|rows| - 1].blocker)))
    else if SumCandidates(rows) > 0 || SumReplays(rows) > 0 then Some((ReviewTriggered, CandidateOrReplay))
    else if highPositive >= TARGET_HIGH_POSITIVE then Some((TargetReached, HighPositiveTarget))
    else if CountRows(rows, CountsAsSuccess()) >= MAX_TOTAL_SLICES then Some((CollectionPass, MaxSlices))
    else if elapsed >= MAX_RUNTIME_SECONDS then Some((CollectionPass, MaxRuntime))
    else None
  }

  /** How a resume reads the status a stop has left. */
  function StopOf(s: Status, diskInLogs: bool): Stop {
    Stop(s.classification == BlockRelay && s.blocker == SUPERVISOR_FAILED,
         s.classification in {BlockDisk, BlockDiskCapacity} || IsDiskBlocker(s.blocker) || diskInLogs)
  }

  /** The status a resume leaves: a refusal always reads as a stop of the disk. */
  function AfterResume(s: Status, allowed: bool, refusal: string): Status {
    if allowed then s.(state := Ready, classification := ResumeReady, blocker := "")
    else s.(state := Blocked, classification := BlockDiskCapacity, blocker := refusal)
  }

  // ----- what one slice does -----

  /** The iteration ends with a new ledger row. */
  predicate Mirrors(t: Tick) {
    && t.storage.None? && t.outcome.summary != []
    && (t.outcome.exitCode == 0 || IsSafeQuarantineSlice(Last(t.outcome.summary)))
  }

  /** The row an iteration adds to a ledger of `n` rows. */
  function RowOf(t: Tick, n: nat): Row
    requires Mirrors(t)
  {
    RowFrom(Last(t.outcome.summary), n / SLICES_PER_BATCH + 1, n + 1)
  }

  /** The log directory an iteration leaves when the storage was ready. */
  function LogOf(t: Tick, n: nat): Log {
    Log(n / SLICES_PER_BATCH + 1, t.outcome.summary, t.outcome.stopped)
  }

  /** The exit code of an iteration that adds no row. */
  function FailureCode(t: Tick): nat {
    if t.storage.Some? then 3 else t.outcome.exitCode
  }

  /** Iteration `k` of a run that started with `first` rows went through. */
  ghost predicate WentThrough(env: nat -> Tick, rows: seq<Row>, first: nat, k: nat)
    requires first + k < |rows|
  {
    && Mirrors(env(k))
    && !StopsAt(env(k), rows[..first + k])
    && rows[first + k] == RowOf(env(k), first + k)
  }

  /** Every row after the first `first` comes from an iteration that went through. */
  ghost predicate Grew(env: nat -> Tick, rows: seq<Row>, first: nat) {
    first <= |rows| && forall k: nat :: first + k < |rows| ==> WentThrough(env, rows, first, k)
  }

  /** The ledger asks turn `n` to stop before anything is started. */
  predicate StopsAt(t: Tick, rows: seq<Row>) {
    Halts(rows, t.highPositive, t.elapsed)
  }

  /** How a run that added `n` rows ended. */
  ghost predicate Ended(env: nat -> Tick, rows: seq<Row>, n: nat, rc: nat) {
    && (StopsAt(env(n), rows) || !Mirrors(env(n)))
    && rc == if StopsAt(env(n), rows) then 0 else FailureCode(env(n))
  }

  /** The status says whether the storage or a slice stopped the worker. */
  predicate BlockedBy(t: Tick, s: Status) {
    && s.state == Blocked
    && if t.storage.Some?
       then s.classification == (if SpeaksOfCapacity(t.storage.value) then BlockDiskCapacity else BlockDisk)
            && s.blocker == t.storage.value
       else s.classification == BlockRelay && s.blocker == SUPERVISOR_FAILED
  }

  /** The status says which of the ledger, the mints and the clock stopped the worker. */
  predicate CompletedBy(t: Tick, rows: seq<Row>, s: Status) {
    && s.state == Complete && s.blocker == ""
    && HaltedAs(rows, t.highPositive, t.elapsed, s.classification, s.stopReason)
  }

  /** The log a turn adds. */
  function TurnLog(t: Tick, rows: seq<Row>): seq<Log> {
    if StopsAt(t, rows) || t.storage.Some? then [] else [LogOf(t, |rows|)]
  }

  /** The logs of the `n` turns that went through. */
  function LogsOf(env: nat -> Tick, start: nat, n: nat): seq<Log> {
    if n == 0 then [] else LogsOf(env, start, n - 1) + [LogOf(env(n - 1), start + n - 1)]
  }

  function Times(n: nat, b: bool): (r: seq<bool>)
    ensures |r| == n && forall i :: 0 <= i < n ==> r[i] == b
  {
    seq(n, _ => b)
  }

  lemma {:induction false} OneMoreTurn(log: seq<Log>, env: nat -> Tick, start: nat, n: nat, marks: seq<bool>)
    ensures log + LogsOf(env, start, n + 1) == (log + LogsOf(env, start, n)) + [LogOf(env(n), start + n)]
    ensures marks + Times(n + 1, true) == (marks + Times(n, true)) + [true]
  {
  }

  // ----- what a run does -----

  /** Everything the collector keeps. */
  datatype Snapshot = Snapshot(rows: seq<Row>, status: Status, summaries: seq<nat>, logs: seq<Log>, byWorker: seq<bool>)

  function Untouched(): Snapshot {
    Snapshot([], Status(Idle, NotStarted, "", NoReason), [], [], [])
  }

  /** The recovery a resume makes, if any. */
  function RecoveryOf(s: Snapshot, request: Request): (r: Option<(nat, Route)>)
    ensures r.Some? ==> r.value.0 < |s.logs| && LogRows(s.logs[r.value.0]) != []
  {
    Recovery(s.rows, s.logs, StopOf(s.status, request.diskInLogs), request)
  }

  predicate Allows(s: Snapshot, request: Request) {
    ResumeAllowed(s.rows, s.logs, StopOf(s.status, request.diskInLogs), request)
  }

  /** What a recovery leaves: the recovered row, marked as not the worker's, and the
      log it was read from rewritten. */
  function Recovered(s: Snapshot, found: Option<(nat, Route)>): Snapshot
    requires found.Some? ==> found.value.0 < |s.logs| && LogRows(s.logs[found.value.0]) != []
  {
    match found
    case None => s
    case Some((i, route)) =>
      s.(rows := s.rows + [RecoveredRow(s.logs[i], route, |s.rows| + 1)], logs := s.logs[i := Rewritten(s.logs[i], route)],
         byWorker := s.byWorker + [false])
  }

  /** What a resume leaves. */
  function Resumed(s: Snapshot, request: Request): Snapshot {
    Recovered(s, RecoveryOf(s, request)).(status := AfterResume(s.status, Allows(s, request), request.refusal))
  }

  predicate IsRunning(s: Status) {
    s.blocker == "" && s.classification == Running
  }

  /** After `n` turns that went through: their rows, the summaries of the batches
      they completed and their logs have been added. */
  ghost predicate Ran(env: nat -> Tick, was: Snapshot, now: Snapshot, n: nat) {
    && was.rows <= now.rows && |now.rows| == |was.rows| + n && Grew(env, now.rows, |was.rows|)
    && now.summaries == was.summaries + CompletedBatches(|was.rows|, |now.rows|)
    && now.logs == was.logs + LogsOf(env, |was.rows|, n)
    && now.byWorker == was.byWorker + Times(n, true)
  }

  /** A whole run: turn `n` ended it with exit code `rc`, and the status says how. */
  ghost predicate WorkerRan(env: nat -> Tick, was: Snapshot, now: Snapshot, n: nat, rc: nat) {
    && was.rows <= now.rows && |now.rows| == |was.rows| + n && Grew(env, now.rows, |was.rows|)
    && now.summaries == was.summaries + CompletedBatches(|was.rows|, |now.rows|)
    && now.logs == was.logs + LogsOf(env, |was.rows|, n) + TurnLog(env(n), now.rows)
    && now.byWorker == was.byWorker + Times(n, true)
    && Ended(env, now.rows, n, rc)
    && if StopsAt(env(n), now.rows) then CompletedBy(env(n), now.rows, now.status)
       else BlockedBy(env(n), now.status)
  }

  /** One more turn goes through. */
  ghost predicate WentOn(t: Tick, mid: Snapshot, now: Snapshot) {
    && !StopsAt(t, mid.rows) && Mirrors(t)
    && now.rows == mid.rows + [RowOf(t, |mid.rows|)] && now.byWorker == mid.byWorker + [true]
    && now.summaries == mid.summaries + BatchMark(|now.rows|) && now.logs == mid.logs + [LogOf(t, |mid.rows|)]
    && IsRunning(now.status)
  }

  lemma {:induction false} RanStep(env: nat -> Tick, was: Snapshot, mid: Snapshot, now: Snapshot, n: nat)
    requires Ran(env, was, mid, n) && WentOn(env(n), mid, now)
    ensures Ran(env, was, now, n + 1) && env(n).elapsed < MAX_RUNTIME_SECONDS
  {
    GrowStep(env, mid.rows, |was.rows|, n);
    OneMoreRow(was.summaries, |was.rows|, |mid.rows|);
    OneMoreTurn(was.logs, env, |was.rows|, n, was.byWorker);
  }

  lemma {:induction false} NoStopMeans(rows: seq<Row>, t: Tick)
    requires !StopsAt(t, rows)
    ensures rows != [] ==> Quiet(rows[|rows| - 1])
    ensures CountRows(rows, CountsAsSuccess()) < MAX_TOTAL_SLICES
    ensures t.elapsed < MAX_RUNTIME_SECONDS
  {
    if rows != [] {
      var n := |rows| - 1;
      assert !(rows[n].candidates > 0 || rows[n].replays > 0);
    }
  }

  lemma {:induction false} GrowStep(env: nat -> Tick, rows: seq<Row>, first: nat, k: nat)
    requires Grew(env, rows, first) && |rows| == first + k
    requires Mirrors(env(k))
    requires !StopsAt(env(k), rows)
    ensures Grew(env, rows + [RowOf(env(k), first + k)], first)
    ensures env(k).elapsed < MAX_RUNTIME_SECONDS
  {
    var longer := rows + [RowOf(env(k), first + k)];
    assert longer[..first + k] == rows;
    forall j: nat | first + j < |longer| ensures WentThrough(env, longer, first, j) {
      if j < k {
        assert WentThrough(env, rows, first, j);
        assert longer[..first + j] == rows[..first + j];
      }
    }
  }

  lemma {:induction false} GrewBefore(env: nat -> Tick, rows: seq<Row>, first: nat, k: nat)
    requires Grew(env, rows, first) && first + k <= |rows|
    ensures Grew(env, rows[..first + k], first)
  {
    var shorter := rows[..first + k];
    forall j: nat | first + j < |shorter| ensures WentThrough(env, shorter, first, j) {
      assert WentThrough(env, rows, first, j);
      assert shorter[..first + j] == rows[..first + j];
    }
  }

  /** The ledger keeps its shape between `was` and `rows`. */
  ghost predicate ShapeKept(was: seq<Row>, rows: seq<Row>) {
    && was <= rows
    && (WellNumbered(was) ==> WellNumbered(rows))
    && (QuietButLast(was) ==> QuietButLast(rows))
    && (rows != was ==> CountRows(rows, CountsAsSuccess()) <= MAX_TOTAL_SLICES)
  }

  lemma {:induction false} NumberingStep(rows: seq<Row>, row: Row)
    requires WellNumbered(rows)
    requires row.sliceIndex == |rows| + 1 && row.batchIndex == |rows| / SLICES_PER_BATCH + 1
    ensures WellNumbered(rows + [row])
  {
    var longer := rows + [row];
    forall i | 0 <= i < |longer|
      ensures longer[i].sliceIndex == i + 1 && longer[i].batchIndex == i / SLICES_PER_BATCH + 1
    {
      if i < |rows| {
        assert longer[i] == rows[i];
      }
    }
  }

  lemma {:induction false} QuietStep(rows: seq<Row>, row: Row)
    requires QuietButLast(rows) && (rows != [] ==> Quiet(rows[|rows| - 1]))
    ensures QuietButLast(rows + [row])
  {
    forall i | 0 <= i < |rows| ensures Quiet((rows + [row])[i]) {
      assert (rows + [row])[i] == rows[i];
    }
  }

  lemma {:induction false} ShapeStep(was: seq<Row>, rows: seq<Row>, row: Row)
    requires ShapeKept(was, rows)
    requires rows != [] ==> Quiet(rows[|rows| - 1])
    requires CountRows(rows, CountsAsSuccess()) < MAX_TOTAL_SLICES
    requires row.sliceIndex == |rows| + 1 && row.batchIndex == |rows| / SLICES_PER_BATCH + 1
    ensures ShapeKept(was, rows + [row])
  {
    assert (rows + [row])[..|rows|] == rows;
    if WellNumbered(was) {
      NumberingStep(rows, row);
    }
    if QuietButLast(was) {
      QuietStep(rows, row);
    }
  }

  lemma {:induction false} LastIteration(env: nat -> Tick, rows: seq<Row>, first: nat)
    requires Grew(env, rows, first) && first < |rows|
    ensures var before, last := rows[..|rows| - 1], rows[|rows| - 1];
            && Grew(env, before, first) && (before != [] ==> Quiet(before[|before| - 1]))
            && CountRows(before, CountsAsSuccess()) < MAX_TOTAL_SLICES
            && last.sliceIndex == |before| + 1 && last.batchIndex == |before| / SLICES_PER_BATCH + 1
  {
    var k := |rows| - 1 - first;
    assert WentThrough(env, rows, first, k);
    GrewBefore(env, rows, first, k);
    NoStopMeans(rows[..first + k], env(k));
  }

  /** A run of the worker keeps the shape of the ledger it started from. */
  lemma {:induction false} GrewKeepsShape(env: nat -> Tick, was: seq<Row>, rows: seq<Row>)
    requires was <= rows && Grew(env, rows, |was|)
    ensures ShapeKept(was, rows)
    decreases |rows|
  {
    if |rows| == |was| {
      assert rows == was;
    } else {
      var n := |rows| - 1;
      LastIteration(env, rows, |was|);
      GrewKeepsShape(env, was, rows[..n]);
      ShapeStep(was, rows[..n], rows[n]);
      assert rows[..n] + [rows[n]] == rows;
    }
  }

  class Collector {
    var rows: seq<Row>               // slice_summaries.csv
    var status: Status               // status.json
    var summaries: seq<nat>          // batch indices whose summary file was written, in order
    var logs: seq<Log>               // slice log directories, oldest first
    ghost var byWorker: seq<bool>    // which rows a worker added; the others were recovered

    constructor ()
      ensures Now() == Untouched()
    {
      rows, summaries, logs, byWorker := [], [], [], [];
      status := Status(Idle, NotStarted, "", NoReason);
    }

    ghost function Now(): Snapshot
      reads this
    {
      Snapshot(rows, status, summaries, logs, byWorker)
    }

    /** The stop decision at the head of the loop: a blocker in the status comes
        before anything in the ledger. */
    method StopClassification(highPositive: nat, elapsed: nat) returns (stop: Option<(Classification, Reason)>)
      ensures status.blocker == "" ==> (stop.Some? <==> Halts(rows, highPositive, elapsed))
      ensures status.blocker == "" && stop.Some? ==> HaltedAs(rows, highPositive, elapsed, stop.value.0, stop.value.1)
      ensures status.blocker != "" ==> stop.Some? && stop.value.1 == ForBlocker(status.blocker)
      ensures status.blocker != "" && status.classification in {BlockDisk, BlockDiskCapacity} ==>
                stop.value.0 == status.classification
      ensures status.blocker != "" && status.classification !in {BlockDisk, BlockDiskCapacity} ==>
                stop.value.0 == if IsDiskBlocker(status.blocker) then BlockDisk else BlockRelay
    {
      if status.blocker == "" {
        return LedgerStop(rows, highPositive, elapsed);
      }
      var disk := IsDiskBlocker(status.blocker);
      var classification :=
        if status.classification == BlockDiskCapacity then BlockDiskCapacity
        else if disk || status.classification == BlockDisk then BlockDisk
        else BlockRelay;
      return Some((classification, ForBlocker(status.blocker)));
    }

    method MirrorSlice(batchIndex: nat, result: SliceResult, ghost worker: bool)
      modifies this`rows, this`byWorker
      ensures rows == old(rows) + [RowFrom(result, batchIndex, |old(rows)| + 1)]
      ensures byWorker == old(byWorker) + [worker]
    {
      rows := rows + [RowFrom(result, batchIndex, |rows| + 1)];
      byWorker := byWorker + [worker];
    }

    /** Runs the supervisor for one slice and mirrors what may be mirrored. */
    method RunOneSlice(t: Tick, batchIndex: nat) returns (rc: nat)
      requires Supervised(t) && batchIndex == |rows| / SLICES_PER_BATCH + 1
      modifies this`rows, this`status, this`logs, this`byWorker
      ensures rc == if Mirrors(t) then 0 else FailureCode(t)
      ensures rc != 0 <==> !Mirrors(t)
      ensures rows == if Mirrors(t) then old(rows) + [RowOf(t, |old(rows)|)] else old(rows)
      ensures byWorker == if Mirrors(t) then old(byWorker) + [true] else old(byWorker)
      ensures logs == if t.storage.None? then old(logs) + [LogOf(t, |old(rows)|)] else old(logs)
      ensures rc == 0 ==> status == old(status).(state := Working, blocker := "")
      ensures rc != 0 && t.storage.None? ==> status == old(status).(state := Blocked, blocker := SUPERVISOR_FAILED)
      ensures t.storage.Some? ==>
                && status.blocker == t.storage.value
                && status.classification == if SpeaksOfCapacity(t.storage.value) then BlockDiskCapacity else BlockDisk
    {
      if t.storage.Some? {
        var blocker := t.storage.value;
        var capacity := Contains(blocker, "recommended")
                        || Contains(blocker, "insufficient_safe_verified_bulk_artifacts_for_gc");
        status := status.(state := Blocked, blocker := blocker,
                          classification := if capacity then BlockDiskCapacity else BlockDisk);
        return 3;
      }
      var results := t.outcome.summary;
      logs := logs + [Log(batchIndex, results, t.outcome.stopped)];
      rc := t.outcome.exitCode;
      if rc == 0 {
        MirrorSlice(batchIndex, Last(results), true);
      } else if results != [] && IsSafeQuarantineSlice(Last(results)) {
        MirrorSlice(batchIndex, Last(results), true);
        rc := 0;
      }
      status := status.(state := if rc == 0 then Working else Blocked,
                        blocker := if rc == 0 then "" else SUPERVISOR_FAILED);
    }

    method Finish(classification: Classification, reason: Reason)
      modifies this`status
      ensures status == Status(Complete, classification, old(status).blocker, reason)
    {
      status := Status(Complete, classification, status.blocker, reason);
    }

    method CloseBatch(batchIndex: nat, sliceIndex: nat)
      requires batchIndex == (sliceIndex - 1) / SLICES_PER_BATCH + 1 && sliceIndex > 0
      modifies this`summaries
      ensures summaries == old(summaries) + BatchMark(sliceIndex)
    {
      BatchOfNextRow(sliceIndex - 1);
      if sliceIndex % SLICES_PER_BATCH == 0 {
        summaries := summaries + [batchIndex];
      }
    }

    /** The slice of a turn that is not told to stop. */
    method RunTurn(t: Tick) returns (done: bool, rc: nat)
      requires Supervised(t) && IsRunning(status)
      modifies this
      ensures done <==> !Mirrors(t)
      ensures logs == if t.storage.None? then old(logs) + [LogOf(t, |old(rows)|)] else old(logs)
      ensures done ==> rows == old(rows) && summaries == old(summaries) && byWorker == old(byWorker)
      ensures done ==> rc == FailureCode(t) != 0 && BlockedBy(t, status)
      ensures !done ==> rows == old(rows) + [RowOf(t, |old(rows)|)] && byWorker == old(byWorker) + [true]
      ensures !done ==> summaries == old(summaries) + BatchMark(|rows|)
      ensures !done ==> IsRunning(status)
    {
      var batchIndex: nat := |rows| / SLICES_PER_BATCH + 1;
      var sliceIndex: nat := |rows| + 1;
      rc := RunOneSlice(t, batchIndex);
      done := rc != 0;
      if done {
        FinishBlocked();
      } else {
        CloseBatch(batchIndex, sliceIndex);
      }
    }

    /** One turn of the worker loop. */
    method Iterate(t: Tick) returns (done: bool, rc: nat)
      requires Supervised(t) && IsRunning(status)
      modifies this
      ensures done <==> StopsAt(t, old(rows)) || !Mirrors(t)
      ensures !done ==> WentOn(t, old(Now()), Now())
      ensures done ==> rows == old(rows) && summaries == old(summaries) && byWorker == old(byWorker)
      ensures done ==> logs == old(logs) + TurnLog(t, rows)
      ensures done ==> rc == if StopsAt(t, rows) then 0 else FailureCode(t)
      ensures done ==> (rc == 0 <==> StopsAt(t, rows))
      ensures done && rc == 0 ==> CompletedBy(t, rows, status)
      ensures done && rc != 0 ==> BlockedBy(t, status)
    {
      var stop := StopClassification(t.highPositive, t.elapsed);
      if stop.Some? {
        Finish(stop.value.0, stop.value.1);
        done, rc := true, 0;
      } else {
        done, rc := RunTurn(t);
      }
    }

    /** Turn `k` of a run that started from `was`. */
    method Turn(env: nat -> Tick, ghost was: Snapshot, k: nat) returns (done: bool, rc: nat)
      requires Supervised(env(k)) && IsRunning(status) && Ran(env, was, Now(), k)
      modifies this
      ensures done ==> WorkerRan(env, was, Now(), k, rc) && (rc == 0 <==> StopsAt(env(k), rows))
      ensures !done ==> Ran(env, was, Now(), k + 1) && IsRunning(status) && env(k).elapsed < MAX_RUNTIME_SECONDS
    {
      ghost var mid := Now();
      done, rc := Iterate(env(k));
      if !done {
        RanStep(env, was, mid, Now(), k);
      }
    }

    /** The worker loop. `deadline` is an iteration by which the clock has passed
        the 24 hour limit. */
    method Worker(env: nat -> Tick, ghost deadline: nat) returns (rc: nat, ghost n: nat)
      requires forall k :: Supervised(env(k))
      requires forall k :: k >= deadline ==> env(k).elapsed >= MAX_RUNTIME_SECONDS
      modifies this
      ensures WorkerRan(env, old(Now()), Now(), n, rc) && n <= deadline
      ensures rc == 0 <==> StopsAt(env(n), rows)
      ensures ShapeKept(old(rows), rows)
    {
      status := Status(Working, Running, "", NoReason);
      ghost var was := Now();
      assert was.byWorker + Times(0, true) == was.byWorker;
      var k := 0;
      while true
        invariant 0 <= k <= deadline && IsRunning(status) && Ran(env, was, Now(), k)
        decreases deadline - k
      {
        var done;
        done, rc := Turn(env, was, k);
        if done {
          n := k;
          GrewKeepsShape(env, was.rows, rows);
          return;
        }
        k := k + 1;
      }
    }

    /** The status left behind when an iteration fails. */
    method FinishBlocked()
      modifies this`status
      ensures old(status).classification in {BlockDisk, BlockDiskCapacity} ==>
                status == old(status).(state := Blocked)
      ensures old(status).classification !in {BlockDisk, BlockDiskCapacity} ==>
                status == Status(Blocked, BlockRelay, SUPERVISOR_FAILED, old(status).stopReason)
    {
      var disk := status.classification == BlockDisk || status.classification == BlockDiskCapacity;
      status := Status(Blocked, if disk then status.classification else BlockRelay,
                       if disk then status.blocker else SUPERVISOR_FAILED, status.stopReason);
    }

    // ----- resume -----

    method IsMirrored(run: string) returns (known: bool)
      ensures known <==> InLedger(rows, run)
    {
      for i := 0 to |rows|
        invariant forall j :: 0 <= j < i ==> rows[j].sliceId != run
      {
        if rows[i].sliceId == run {
          return true;
        }
      }
      known := false;
    }

    /** One recovery: rewrites the log and mirrors its last line under the batch of
        the log directory, unless the run is already in the ledger. */
    method MirrorRecovered(run: string, i: nat, route: Route) returns (mirrored: bool)
      requires i < |logs| && IsLogOf(logs[i], run)
      modifies this`rows, this`logs, this`byWorker
      ensures mirrored <==> !InLedger(old(rows), run)
      ensures !mirrored ==> rows == old(rows) && logs == old(logs) && byWorker == old(byWorker)
      ensures mirrored ==>
                && rows == old(rows) + [RecoveredRow(old(logs)[i], route, |old(rows)| + 1)]
                && logs == old(logs)[i := Rewritten(old(logs)[i], route)]
                && byWorker == old(byWorker) + [false]
      ensures InLedger(rows, run)
    {
      var known := IsMirrored(run);
      if known {
        return false;
      }
      var l := Rewritten(logs[i], route);
      logs := logs[i := l];
      MirrorSlice(l.batchIndex, Last(LogRows(l)), false);
      assert rows[|rows| - 1].sliceId == run;
      mirrored := true;
    }

    /** The three recoveries of a run that is not in the ledger, one after the other. */
    method TryRecoveries(u: Unmirrored, i: nat) returns (mirrored: bool)
      requires i < |logs| && IsLogOf(logs[i], u.run) && !InLedger(rows, u.run)
      modifies this`rows, this`logs, this`byWorker
      ensures var l := old(logs)[i]; var route := RouteFor(u, Last(LogRows(l)));
              && (mirrored <==> route != NoRoute)
              && (!mirrored ==> rows == old(rows) && logs == old(logs) && byWorker == old(byWorker))
              && (mirrored ==>
                    && rows == old(rows) + [RecoveredRow(l, route, |old(rows)| + 1)]
                    && logs == old(logs)[i := Rewritten(l, route)]
                    && byWorker == old(byWorker) + [false])
    {
      var result := Last(LogRows(logs[i]));
      var quarantine := u.quarantine && IsSafeQuarantineSlice(result);
      var brokenPipe := u.brokenPipe && BrokenPipeRow(result);
      var noSignal := u.noSignal && NoSignalRow(result);
      mirrored := false;
      if quarantine {
        mirrored := MirrorRecovered(u.run, i, Quarantine);
      } else if brokenPipe {
        mirrored := MirrorRecovered(u.run, i, BrokenPipe);
      } else if noSignal {
        mirrored := MirrorRecovered(u.run, i, NoSignal);
      }
    }

    /** The log and the route of the recovery that applies, if any, and whether the
        stop counts as recovered. */
    method FindRecovery(stop: Stop, latest: Option<Unmirrored>)
      returns (found: Option<nat>, applies: bool, recovered: bool)
      ensures recovered <==> StopRecovered(logs, stop, latest)
      ensures applies <==> Applicable(logs, stop, latest).Some?
      ensures applies ==> found == Some(Applicable(logs, stop, latest).value.0)
    {
      found, applies, recovered := None, false, false;
      if stop.relay && latest.Some? {
        found := FindLog(logs, latest.value.run);
        if found.Some? {
          applies := RouteFor(latest.value, Last(LogRows(logs[found.value]))) != NoRoute;
          recovered := applies;
        } else {
          recovered := latest.value.quarantine;
        }
      }
    }

    /** The mirroring of a resume whose decision is taken. */
    method MirrorFound(request: Request, i: nat)
      returns (mirrored: bool)
      requires Allows(Now(), request)
      requires var found := Applicable(logs, StopOf(status, request.diskInLogs), request.latest);
               found.Some? && found.value.0 == i
      modifies this`rows, this`logs, this`byWorker
      ensures Now() == Recovered(old(Now()), RecoveryOf(old(Now()), request))
      ensures mirrored <==> RecoveryOf(old(Now()), request).Some?
    {
      var known := IsMirrored(request.latest.value.run);
      if known {
        mirrored := false;
      } else {
        mirrored := TryRecoveries(request.latest.value, i);
      }
    }

    /** The resume command. */
    method Resume(request: Request) returns (allowed: bool, mirrored: bool)
      modifies this`rows, this`logs, this`byWorker, this`status
      ensures Now() == Resumed(old(Now()), request)
      ensures allowed <==> Allows(old(Now()), request)
      ensures mirrored <==> RecoveryOf(old(Now()), request).Some?
    {
      var stop := StopOf(status, request.diskInLogs);
      var found, applies, recovered := FindRecovery(stop, request.latest);
      allowed := request.clear && Untroubled(rows) && (stop.disk || recovered);
      mirrored := false;
      if allowed && applies {
        mirrored := MirrorFound(request, found.value);
      }
      status := AfterResume(status, allowed, request.refusal);
    }
  }
}
