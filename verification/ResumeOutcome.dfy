/** What a resume does, stated on the rows, logs and status it finds
    (scripts/run_background_24h_collector.py: resume, resume_decision,
    batch_log_for_run, recovered_*, normalized_*, mirror_recovered_*). */
module ResumeOutcome {
  import opened Common
  import opened SliceVerdict
  import opened Ledger
  import opened LedgerTheorems
  import opened Resume
  import opened Collector

  // ----- what a resume finds -----

  /** `r` is the last line of the log: of its summary or else of its stop file. */
  predicate LastLine(l: Log, r: SliceResult) {
    if l.summary != [] then r == l.summary[|l.summary| - 1] else l.stopped == Some(r)
  }

  ghost predicate IsAbout(l: Log, run: string) {
    exists r :: LastLine(l, r) && r.run == run
  }

  ghost predicate IsNewest(logs: seq<Log>, run: string, i: nat) {
    i < |logs| && IsAbout(logs[i], run) && forall j :: i < j < |logs| ==> !IsAbout(logs[j], run)
  }

  predicate NoTrouble(row: Row) {
    row.blocker == "" && row.candidates == row.replays == row.r2Failed == 0 && row.artifactOk
  }

  predicate NoCounter(c: Counters<nat>) {
    c.sequenceGap + c.hashMismatch + c.malformed + c.backpressure + c.unavailable == 0
  }

  predicate HostsDown(safety: VpsSafety) {
    && safety.forbiddenRecent == safety.relayRunning == 0
    && safety.candidateService == safety.hunterService == "inactive"
  }

  /** The run's other files and the logged line `r` fit the recovery. */
  predicate Fits(u: Unmirrored, r: SliceResult, route: Route) {
    match route
    case NoRoute => false
    case Quarantine =>
      && u.quarantine && r.classification == PassQuarantined && r.quarantined && r.partialAuditOnly == Yes && r.counted == No
      && r.providerClass == "provider_reconnect_exhausted"
      && r.candidates == r.replayEligible == r.unverifiedChunks == 0 && FirstFinding(r, "")
    case BrokenPipe =>
      && u.brokenPipe && r.classification == Block(OrchestrationBlock) && r.remoteRc == Some(1) && r.localRc == 0
      && NoCounter(r.integrity) && r.r2Failed == 0 && HostsDown(r.safety)
    case NoSignal =>
      && u.noSignal
      && r.classification in {Block(CountabilityBlock), PassNoSignal, PassEmpty, PassContinuation, RecoveredNoSignal,
                              RecoveredEmpty, PassGapContinued}
      && r.richTracked == r.candidates == r.replayEligible == 0 && r.replayAllowed != Yes && NoCounter(r.integrity)
      && r.providerClass == "" && r.providerDataLoss != Yes && r.streamBackpressure != Yes
      && r.reconnectExhausted == r.r2Failed == r.unverifiedChunks == r.uploadTimeouts == 0
      && r.artifactOk && r.localRc == 0 && r.remoteRc in {None, Some(0)} && HostsDown(r.safety)
  }

  /** A slice stopped the worker, and line `r` of log `i` recovers it. */
  ghost predicate Cures(s: Snapshot, request: Request, i: nat, r: SliceResult, route: Route) {
    && s.status.classification == BlockRelay && s.status.blocker == "supervisor_slice_failed"
    && request.latest.Some? && IsNewest(s.logs, request.latest.value.run, i)
    && LastLine(s.logs[i], r) && Fits(request.latest.value, r, route)
  }

  /** A slice stopped the worker, and its files report a quarantine without any log. */
  ghost predicate QuarantinedUnlogged(s: Snapshot, request: Request) {
    && s.status.classification == BlockRelay && s.status.blocker == "supervisor_slice_failed"
    && request.latest.Some? && request.latest.value.quarantine
    && forall i :: 0 <= i < |s.logs| ==> !IsAbout(s.logs[i], request.latest.value.run)
  }

  predicate StoppedByDisk(s: Snapshot, request: Request) {
    || s.status.classification == BlockDisk || s.status.classification == BlockDiskCapacity
    || IsDiskBlocker(s.status.blocker) || request.diskInLogs
  }

  // ----- when it is allowed, and what it recovers -----

  lemma {:induction false} LogExactly(l: Log, run: string)
    ensures IsLogOf(l, run) <==> IsAbout(l, run)
    ensures LogRows(l) != [] ==> forall r :: LastLine(l, r) <==> r == Last(LogRows(l))
  {
    if LogRows(l) != [] {
      assert LastLine(l, Last(LogRows(l)));
    }
  }

  lemma {:induction false} NewestExactly(logs: seq<Log>, run: string)
    ensures NewestLog(logs, run) == None <==> forall i :: 0 <= i < |logs| ==> !IsAbout(logs[i], run)
    ensures forall i: nat :: NewestLog(logs, run) == Some(i) <==> IsNewest(logs, run, i)
    decreases |logs|
  {
    if logs != [] {
      var n := |logs| - 1;
      LogExactly(logs[n], run);
      NewestExactly(logs[..n], run);
      if !IsAbout(logs[n], run) {
        forall i: nat ensures IsNewest(logs, run, i) <==> IsNewest(logs[..n], run, i) {
        }
      }
    }
  }

  lemma {:induction false} FitsExactly(u: Unmirrored, r: SliceResult, route: Route)
    ensures RouteFor(u, r) == route != NoRoute <==> Fits(u, r, route)
  {
    RowExactly(r, 0, 0);
  }

  lemma {:induction false} CuresExactly(s: Snapshot, request: Request, i: nat, route: Route)
    ensures Applicable(s.logs, StopOf(s.status, request.diskInLogs), request.latest) == Some((i, route)) <==>
              exists r :: Cures(s, request, i, r, route)
  {
    var found := Applicable(s.logs, StopOf(s.status, request.diskInLogs), request.latest);
    if request.latest.Some? {
      var u := request.latest.value;
      NewestExactly(s.logs, u.run);
      if i < |s.logs| && LogRows(s.logs[i]) != [] {
        var r := Last(LogRows(s.logs[i]));
        LogExactly(s.logs[i], u.run);
        FitsExactly(u, r, route);
        if found == Some((i, route)) {
          assert Cures(s, request, i, r, route);
        }
      }
      if r :| Cures(s, request, i, r, route) {
        LogExactly(s.logs[i], u.run);
      }
    }
  }

  /** A resume is allowed exactly when nothing outside objects, every row is in order,
      and the stop was one of the disk or is cured. */
  lemma {:induction false} AllowsExactly(s: Snapshot, request: Request)
    ensures Allows(s, request) <==>
              && request.clear && (forall row :: row in s.rows ==> NoTrouble(row))
              && (StoppedByDisk(s, request) || QuarantinedUnlogged(s, request)
                  || exists i: nat, r, route :: Cures(s, request, i, r, route))
  {
    UntroubledExactly(s.rows);
    RecoveredExactly(s, request);
  }

  lemma {:induction false} UntroubledExactly(rows: seq<Row>)
    ensures Untroubled(rows) <==> forall row :: row in rows ==> NoTrouble(row)
  {
    forall i | 0 <= i < |rows| ensures Harmless(rows[i]) <==> NoTrouble(rows[i]) {
    }
  }

  lemma {:induction false} RecoveredExactly(s: Snapshot, request: Request)
    ensures StopRecovered(s.logs, StopOf(s.status, request.diskInLogs), request.latest) <==>
              QuarantinedUnlogged(s, request) || exists i: nat, r, route :: Cures(s, request, i, r, route)
  {
    var found := Applicable(s.logs, StopOf(s.status, request.diskInLogs), request.latest);
    if found.Some? {
      CuresExactly(s, request, found.value.0, found.value.1);
      var r :| Cures(s, request, found.value.0, r, found.value.1);
    }
    if i: nat, r, route :| Cures(s, request, i, r, route) {
      CuresExactly(s, request, i, route);
    }
    if request.latest.Some? {
      NewestExactly(s.logs, request.latest.value.run);
    }
  }

  /** An allowed resume recovers exactly the run of the curing line, unless the ledger
      has it already. */
  lemma {:induction false} RecoveryExactly(s: Snapshot, request: Request, i: nat, route: Route)
    ensures RecoveryOf(s, request) == Some((i, route)) <==>
              && Allows(s, request) && (exists r :: Cures(s, request, i, r, route))
              && forall row :: row in s.rows ==> row.sliceId != request.latest.value.run
  {
    CuresExactly(s, request, i, route);
    if request.latest.Some? {
      InLedgerExactly(s.rows, request.latest.value.run);
    }
  }

  lemma {:induction false} InLedgerExactly(rows: seq<Row>, run: string)
    ensures InLedger(rows, run) <==> exists row :: row in rows && row.sliceId == run
  {
    if InLedger(rows, run) {
      var i :| 0 <= i < |rows| && rows[i].sliceId == run;
      assert rows[i] in rows;
    }
  }

  // ----- what it leaves -----

  /** The classification a recovered line gets; a broken pipe that has a summary keeps
      what the summary says. */
  predicate ClassifiedAs(l: Log, r: SliceResult, route: Route, c: SliceClass) {
    if route == NoSignal
    then c == if r.providerBlockers > 0 then PassGapContinued
              else if r.launchesSeen == 0 then RecoveredEmpty else RecoveredNoSignal
    else if route == BrokenPipe && l.summary == []
    then c == if r.providerBlockers > 0 then PassGapContinued else PassCounted
    else c == r.classification
  }

  /** The row made from line `r`. */
  predicate RecoveredFrom(row: Row, l: Log, r: SliceResult, route: Route, position: nat) {
    && row.sliceId == r.run && row.batchIndex == l.batchIndex && row.sliceIndex == position
    && ClassifiedAs(l, r, route, row.classification)
    && row.candidates == r.candidates && row.replays == r.replayEligible && row.r2Failed == r.r2Failed
    && row.unverifiedChunks == r.unverifiedChunks && row.artifactOk == r.artifactOk && FirstFinding(r, row.blocker)
  }

  /** The log made from log `l` with last line `r`. */
  predicate RewrittenFrom(now: Log, l: Log, r: SliceResult, route: Route) {
    && now.batchIndex == l.batchIndex && now.stopped == l.stopped
    && if route == NoSignal || (route == BrokenPipe && l.summary == [])
       then |now.summary| == 1 && ClassifiedAs(l, r, route, now.summary[0].classification)
            && now.summary[0] == r.(classification := now.summary[0].classification, rcRecovered := now.summary[0].rcRecovered)
            && now.summary[0].rcRecovered == (r.rcRecovered || route == BrokenPipe)
       else now.summary == l.summary
  }

  lemma {:induction false} RowAndLogExactly(l: Log, r: SliceResult, route: Route, position: nat)
    requires LastLine(l, r) && LogRows(l) != []
    ensures RecoveredFrom(RecoveredRow(l, route, position), l, r, route, position)
    ensures RewrittenFrom(Rewritten(l, route), l, r, route)
  {
    var kept := Last(LogRows(Rewritten(l, route)));
    RowExactly(kept, l.batchIndex, position);
  }

  /** What every resume leaves: the status says whether it was allowed; a recovery adds
      the row of the curing line and rewrites its log; nothing else changes. */
  lemma {:induction false} ResumedExactly(s: Snapshot, request: Request)
    ensures var now := Resumed(s, request);
            && now.summaries == s.summaries
            && now.status == (if Allows(s, request) then Status(Ready, ResumeReady, "", s.status.stopReason)
                              else Status(Blocked, BlockDiskCapacity, request.refusal, s.status.stopReason))
            && (RecoveryOf(s, request) == None ==> now.rows == s.rows && now.logs == s.logs && now.byWorker == s.byWorker)
  {
  }

  lemma {:induction false} RecoveredLineExactly(s: Snapshot, request: Request, i: nat, r: SliceResult, route: Route)
    requires RecoveryOf(s, request) == Some((i, route)) && Cures(s, request, i, r, route)
    ensures var now := Resumed(s, request);
            && |now.rows| == |s.rows| + 1 && s.rows <= now.rows && now.byWorker == s.byWorker + [false]
            && RecoveredFrom(now.rows[|s.rows|], s.logs[i], r, route, |s.rows| + 1)
            && |now.logs| == |s.logs| && RewrittenFrom(now.logs[i], s.logs[i], r, route)
            && forall j :: 0 <= j < |s.logs| && j != i ==> now.logs[j] == s.logs[j]
  {
    RowAndLogExactly(s.logs[i], r, route, |s.rows| + 1);
  }
}
