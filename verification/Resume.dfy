/** What the collector's resume command may add to the ledger: the logs of earlier
    slices and the three recoveries
    (scripts/run_background_24h_collector.py: batch_log_for_run, recovered_*,
    normalized_*, mirror_recovered_*, resume_decision). */
module Resume {
  import opened Common
  import opened SliceVerdict
  import opened Ledger

  /** One slice's log directory: the lines of its summary file, if it has one, and
      the result in its stop file. */
  datatype Log = Log(batchIndex: nat, summary: seq<SliceResult>, stopped: Option<SliceResult>)

  function LogRows(l: Log): seq<SliceResult> {
    if l.summary != [] then l.summary
    else match l.stopped
      case Some(result) => [result]
      case None => []
  }

  predicate IsLogOf(l: Log, run: string) {
    LogRows(l) != [] && Last(LogRows(l)).run == run
  }

  /** The newest log whose last line is about `run`. */
  function NewestLog(logs: seq<Log>, run: string): Option<nat> {
    if logs == [] then None
    else if IsLogOf(logs[|logs| - 1], run) then Some(|logs| - 1)
    else NewestLog(logs[..|logs| - 1], run)
  }

  method FindLog(logs: seq<Log>, run: string) returns (found: Option<nat>)
    ensures found == NewestLog(logs, run)
    ensures found.None? <==> forall i :: 0 <= i < |logs| ==> !IsLogOf(logs[i], run)
    ensures found.Some? ==> found.value < |logs| && IsLogOf(logs[found.value], run)
                            && forall i :: found.value < i < |logs| ==> !IsLogOf(logs[i], run)
  {
    var n := |logs|;
    assert logs[..n] == logs;
    while n > 0
      invariant 0 <= n <= |logs| && NewestLog(logs, run) == NewestLog(logs[..n], run)
      invariant forall i :: n <= i < |logs| ==> !IsLogOf(logs[i], run)
    {
      assert logs[..n][..n - 1] == logs[..n - 1];
      if IsLogOf(logs[n - 1], run) {
        return Some(n - 1);
      }
      n := n - 1;
    }
    found := None;
  }

  lemma {:induction false} NewestLogIs(logs: seq<Log>, run: string)
    ensures NewestLog(logs, run).Some? ==>
              && NewestLog(logs, run).value < |logs|
              && IsLogOf(logs[NewestLog(logs, run).value], run)
    decreases |logs|
  {
    if logs != [] && !IsLogOf(logs[|logs| - 1], run) {
      NewestLogIs(logs[..|logs| - 1], run);
    }
  }

  // ----- the three recoveries -----

  /** The newest run directory that is not in the ledger, with what its other files
      say about each recovery. */
  datatype Unmirrored = Unmirrored(run: string, quarantine: bool, brokenPipe: bool, noSignal: bool)

  predicate HostsInactive(safety: VpsSafety) {
    && safety.forbiddenRecent == 0 && safety.relayRunning == 0
    && safety.candidateService == "inactive" && safety.hunterService == "inactive"
  }

  /** What the broken-pipe recovery demands of the logged result. */
  predicate BrokenPipeRow(r: SliceResult) {
    && r.classification == Block(OrchestrationBlock) && r.remoteRc == Some(1) && r.localRc == 0
    && IntegrityZero(r.integrity) && r.r2Failed == 0 && HostsInactive(r.safety)
  }

  /** The classifications the no-signal recovery allows. */
  predicate NoSignalClass(c: SliceClass) {
    || c == Block(CountabilityBlock) || c.PassNoSignal? || c.PassEmpty? || c.PassContinuation?
    || c.RecoveredNoSignal? || c.RecoveredEmpty? || c.PassGapContinued?
  }

  /** What the no-signal recovery demands of the logged result. A missing exit code
      reads as zero. */
  predicate NoSignalRow(r: SliceResult) {
    && NoSignalClass(r.classification)
    && r.richTracked == 0 && r.candidates == 0 && r.replayEligible == 0 && r.replayAllowed != Yes
    && IntegrityZero(r.integrity) && r.providerClass == "" && r.providerDataLoss != Yes && r.reconnectExhausted == 0
    && r.r2Failed == 0 && r.unverifiedChunks == 0 && r.uploadTimeouts == 0 && r.streamBackpressure != Yes
    && r.artifactOk && r.localRc == 0 && (r.remoteRc == None || r.remoteRc == Some(0))
    && HostsInactive(r.safety)
  }

  datatype Route = NoRoute | Quarantine | BrokenPipe | NoSignal

  /** The recovery that applies. */
  function RouteFor(u: Unmirrored, r: SliceResult): Route {
    if u.quarantine && IsSafeQuarantineSlice(r) then Quarantine
    else if u.brokenPipe && BrokenPipeRow(r) then BrokenPipe
    else if u.noSignal && NoSignalRow(r) then NoSignal
    else NoRoute
  }

  /** At most one of the three can apply, so their order is of no account. */
  lemma {:induction false} RoutesExclude(u: Unmirrored, r: SliceResult)
    ensures RouteFor(u, r) == Quarantine <==> u.quarantine && IsSafeQuarantineSlice(r)
    ensures RouteFor(u, r) == BrokenPipe <==> u.brokenPipe && BrokenPipeRow(r)
    ensures RouteFor(u, r) == NoSignal <==> u.noSignal && NoSignalRow(r)
  {
  }

  function NormalizedBrokenPipe(r: SliceResult): SliceResult {
    r.(classification := if r.providerBlockers > 0 then PassGapContinued else PassCounted, rcRecovered := true)
  }

  function NormalizedNoSignal(r: SliceResult): SliceResult {
    r.(classification := if r.providerBlockers > 0 then PassGapContinued
                         else if r.launchesSeen == 0 then RecoveredEmpty else RecoveredNoSignal)
  }

  /** The log after a recovery: the broken-pipe one writes a missing summary, the
      no-signal one replaces the summary. */
  function Rewritten(l: Log, route: Route): (r: Log)
    requires LogRows(l) != []
    ensures LogRows(r) != [] && r.batchIndex == l.batchIndex
  {
    match route
    case BrokenPipe => if l.summary == [] then l.(summary := [NormalizedBrokenPipe(Last(LogRows(l)))]) else l
    case NoSignal => l.(summary := [NormalizedNoSignal(Last(LogRows(l)))])
    case _ => l
  }

  // ----- the resume decision -----

  /** How the previous stop reads: as a worker stopped by a slice, as a stop of the
      local disk, as both or as neither. */
  datatype Stop = Stop(relay: bool, disk: bool)

  /** What a resume finds outside the ledger, the logs and the status: `clear` says
      that storage, hosts and process raise no objection, `diskInLogs` that the
      worker's own output mentions the disk; `refusal` is the text a refusal leaves. */
  datatype Request = Request(clear: bool, diskInLogs: bool, latest: Option<Unmirrored>, refusal: string)

  predicate InLedger(rows: seq<Row>, run: string) {
    exists i :: 0 <= i < |rows| && rows[i].sliceId == run
  }

  /** Nothing in the row keeps a resume from going on. */
  predicate Harmless(row: Row) {
    Quiet(row) && row.r2Failed == 0 && row.artifactOk
  }

  predicate Untroubled(rows: seq<Row>) {
    forall i :: 0 <= i < |rows| ==> Harmless(rows[i])
  }

  /** The log and the route that recover the slice that stopped the worker. */
  function Applicable(logs: seq<Log>, stop: Stop, latest: Option<Unmirrored>): (r: Option<(nat, Route)>)
    ensures r.Some? ==> stop.relay && latest.Some? && NewestLog(logs, latest.value.run) == Some(r.value.0)
    ensures r.Some? ==> r.value.0 < |logs| && IsLogOf(logs[r.value.0], latest.value.run)
    ensures r.Some? ==> r.value.1 == RouteFor(latest.value, Last(LogRows(logs[r.value.0]))) != NoRoute
  {
    if !stop.relay || latest.None? then None
    else
      NewestLogIs(logs, latest.value.run);
      match NewestLog(logs, latest.value.run)
      case None => None
      case Some(i) =>
        var route := RouteFor(latest.value, Last(LogRows(logs[i])));
        if route == NoRoute then None else Some((i, route))
  }

  /** The stop counts as recovered; the quarantine does not insist on a log. */
  predicate StopRecovered(logs: seq<Log>, stop: Stop, latest: Option<Unmirrored>) {
    || Applicable(logs, stop, latest).Some?
    || (stop.relay && latest.Some? && latest.value.quarantine && NewestLog(logs, latest.value.run).None?)
  }

  predicate ResumeAllowed(rows: seq<Row>, logs: seq<Log>, stop: Stop, request: Request) {
    request.clear && Untroubled(rows) && (stop.disk || StopRecovered(logs, stop, request.latest))
  }

  /** The recovery a resume makes, if any: the log it reads and the route. */
  function Recovery(rows: seq<Row>, logs: seq<Log>, stop: Stop, request: Request): (r: Option<(nat, Route)>)
    ensures r.Some? ==> ResumeAllowed(rows, logs, stop, request) && r == Applicable(logs, stop, request.latest)
  {
    if ResumeAllowed(rows, logs, stop, request) && request.latest.Some? && !InLedger(rows, request.latest.value.run)
    then Applicable(logs, stop, request.latest)
    else None
  }

  function RecoveredRow(l: Log, route: Route, sliceIndex: nat): Row
    requires LogRows(l) != []
  {
    RowFrom(Last(LogRows(Rewritten(l, route))), l.batchIndex, sliceIndex)
  }

  /** A recovered row is the run's, carries the batch of its log, and asks for a
      stop only after a broken pipe whose artifacts or candidates were not clean. */
  lemma {:induction false} RecoveredRowIsQuietExactly(u: Unmirrored, l: Log, sliceIndex: nat)
    requires IsLogOf(l, u.run) && RouteFor(u, Last(LogRows(l))) != NoRoute
    ensures var result := Last(LogRows(l)); var route := RouteFor(u, result);
            var row := RecoveredRow(l, route, sliceIndex);
            && row.sliceId == u.run && row.batchIndex == l.batchIndex && row.sliceIndex == sliceIndex
            && row.r2Failed == 0
            && (Quiet(row) <==>
                  route == BrokenPipe ==> result.artifactOk && result.candidates == 0 && result.replayEligible == 0)
  {
    var result := Last(LogRows(l));
    var route := RouteFor(u, result);
    var kept := Last(LogRows(Rewritten(l, route)));
    assert BlockerFromSlice(kept) == BlockerFromSlice(result);
  }
}
