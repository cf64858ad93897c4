/** Two histories of supervised slices in which a resume recovers a run: one leaves
    the ledger with a row in the wrong batch, the other leaves a full batch without
    its summary (scripts/run_background_24h_collector.py: worker, resume). */
module StaleRecovery {
  import opened Common
  import opened SliceVerdict
  import opened SliceTheorems
  import opened SliceReports
  import opened BatchSupervisor
  import opened Ledger
  import opened Resume
  import opened Collector
  import opened CollectorTheorems
  import opened CollectorHistory
  import opened ResumeTheorems

  // ----- the slices -----

  function Zero(): Reported { Reported(0, 0) }

  /** One launch was seen, tracked and attempted; everything is clean. */
  function CleanEvidence(): Evidence {
    Evidence(PassDataset, Counters(Zero(), Zero(), Zero(), Zero(), Zero()), 0, true, 0, false, {},
             Reported(1, 0), Reported(1, 0), Reported(1, 0), Zero(), Zero(), Yes, No, No, "", No,
             Zero(), Zero(), Zero(), Zero(), No)
  }

  function IdleHosts(): VpsSafety { VpsSafety("inactive", "inactive", "", 0, 0) }

  function PassedContext(run: string): Context {
    Context(run, 0, "0", None, false, false, IdleHosts(), "")
  }

  /** The remote side broke its pipe after the local close, and a poll had timed out. */
  function BrokenContext(run: string): Context {
    Context(run, 0, "1", Some("1"), true, true, IdleHosts(), "")
  }

  function PassingSlice(run: string): SliceRun { Finished(CleanEvidence(), PassedContext(run)) }

  function BrokenSlice(run: string): SliceRun { Finished(CleanEvidence(), BrokenContext(run)) }

  function BrokenResult(run: string): SliceResult { Decide(CleanEvidence(), BrokenContext(run)).result }

  /** What the files of the broken slice tell a resume. */
  function Broken(run: string): Unmirrored { Unmirrored(run, false, true, false) }

  lemma {:induction false} CleanData()
    ensures DataSound(CleanEvidence()) && DataBaseline(CleanEvidence())
  {
  }

  /** A passed slice of inactive hosts and without replay candidates troubles no resume. */
  lemma {:induction false} PassedRowIsHarmless(e: Evidence, c: Context, batchIndex: nat, sliceIndex: nat)
    requires Decide(e, c).Passed? && HostsInactive(c.safety) && BothZero(e.replayEligible)
    ensures Harmless(RowFrom(Decide(e, c).result, batchIndex, sliceIndex))
  {
    PassedSliceIsClean(e, c);
    PassedSliceBlocker(e, c);
    PassedReport(e, c);
  }

  lemma {:induction false} CountedSliceIsAccepted(e: Evidence, c: Context)
    requires Decide(e, c).Passed? && e.counted == Yes
    ensures Accepted(Decide(e, c).result) && Decide(e, c).result.run == c.run
  {
    PassesExactlyWhen(e, c);
  }

  lemma {:induction false} PassingSlicePasses(run: string)
    ensures Passes(PassingSlice(run)) && ResultOf(PassingSlice(run)).run == run
    ensures OutcomeOf(PassingSlice(run)) == Outcome(0, [ResultOf(PassingSlice(run))], None)
  {
    CleanData();
    PassesExactlyWhen(CleanEvidence(), PassedContext(run));
    CountedSliceIsAccepted(CleanEvidence(), PassedContext(run));
  }

  lemma {:induction false} BrokenIsRecoverable(run: string)
    ensures PipeRecoverable(CleanEvidence(), BrokenContext(run)) && KeptFromPassing(CleanEvidence(), BrokenContext(run))
    ensures Describes(Broken(run), CleanEvidence(), BrokenContext(run))
  {
    CleanData();
  }

  lemma {:induction false} BrokenSliceStops(run: string)
    ensures !Passes(BrokenSlice(run)) && OutcomeOf(BrokenSlice(run)) == Outcome(2, [], Some(BrokenResult(run)))
    ensures PipeResult(BrokenResult(run), run)
  {
    var e, c := CleanEvidence(), BrokenContext(run);
    BrokenIsRecoverable(run);
    KeptFromPassingExactly(e, c);
    StoppedRowsExactly(e, c);
    StoppedResult(e, c);
    MergedReports(e, c);
  }

  // ----- what the supervisor makes of them -----

  predicate PassedOutcome(o: Outcome, run: string) {
    && o.exitCode == 0 && o.stopped == None && |o.summary| == 1
    && Harmless(RowFrom(o.summary[0], 1, 1)) && o.summary[0].run == run
  }

  /** A result the broken-pipe recovery takes, into a harmless row. */
  predicate PipeResult(r: SliceResult, run: string) {
    r.run == run && BrokenPipeRow(r) && r.artifactOk && r.candidates == r.replayEligible == 0
  }

  predicate BrokenOutcome(o: Outcome, run: string) {
    o.exitCode == 2 && o.summary == [] && o.stopped.Some? && PipeResult(o.stopped.value, run)
  }

  ghost predicate Judges(judge: SliceRun -> Outcome) {
    && (forall run :: PassedOutcome(judge(PassingSlice(run)), run))
    && (forall run :: BrokenOutcome(judge(BrokenSlice(run)), run))
    && judge(Raised) == Outcome(2, [], None)
  }

  lemma {:induction false} PassingIsPassed(run: string)
    ensures PassedOutcome(OutcomeOf(PassingSlice(run)), run)
  {
    PassingSlicePasses(run);
    PassedRowIsHarmless(CleanEvidence(), PassedContext(run), 1, 1);
  }

  lemma {:induction false} BrokenIsBroken(run: string)
    ensures BrokenOutcome(OutcomeOf(BrokenSlice(run)), run)
  {
    BrokenSliceStops(run);
  }

  lemma {:induction false} SupervisorJudges()
    ensures Judges(OutcomeOf)
  {
    forall run ensures PassedOutcome(OutcomeOf(PassingSlice(run)), run) {
      PassingIsPassed(run);
    }
    forall run ensures BrokenOutcome(OutcomeOf(BrokenSlice(run)), run) {
      BrokenIsBroken(run);
    }
  }

  // ----- a smooth worker run -----

  lemma {:induction false} CountAtMost(rows: seq<Row>, f: Row -> bool)
    ensures CountRows(rows, f) <= |rows|
    decreases |rows|
  {
    if rows != [] {
      CountAtMost(rows[..|rows| - 1], f);
    }
  }

  /** A short untroubled ledger stops nothing before the clock runs out. */
  lemma {:induction false} NothingStops(t: Tick, rows: seq<Row>)
    requires Untroubled(rows) && |rows| < MAX_TOTAL_SLICES && t.highPositive == t.elapsed == 0
    ensures !StopsAt(t, rows)
  {
    CountAtMost(rows, CountsAsSuccess());
  }

  /** The turn adds a harmless row of the run. */
  predicate Passing(t: Tick, run: string) {
    t.storage.None? && PassedOutcome(t.outcome, run)
  }

  ghost predicate AllPassing(env: nat -> Tick, names: nat -> string, n: nat) {
    forall k: nat :: k < n ==> Passing(env(k), names(k))
  }

  /** `n` turns pass, the next one does not; storage, mints and clock stop nothing. */
  ghost predicate Smooth(env: nat -> Tick, names: nat -> string, n: nat) {
    && AllPassing(env, names, n)
    && !Mirrors(env(n)) && env(n).storage.None?
    && (forall k: nat :: k <= n ==> env(k).highPositive == env(k).elapsed == 0)
  }

  /** The rows from `from` on carry the names in order. */
  ghost predicate Named(rows: seq<Row>, names: nat -> string, from: nat) {
    forall i :: from <= i < |rows| ==> rows[i].sliceId == names(i - from)
  }

  lemma {:induction false} PassingRow(t: Tick, run: string, m: nat)
    requires Passing(t, run)
    ensures Mirrors(t) && Harmless(RowOf(t, m)) && RowOf(t, m).sliceId == run
  {
  }

  lemma {:induction false} SmoothRow(env: nat -> Tick, names: nat -> string, n: nat, rows: seq<Row>, from: nat, k: nat)
    requires Smooth(env, names, n) && Grew(env, rows, from) && from + k < |rows| <= from + n
    ensures Harmless(rows[from + k]) && rows[from + k].sliceId == names(k)
  {
    assert WentThrough(env, rows, from, k);
    assert Passing(env(k), names(k));
    PassingRow(env(k), names(k), from + k);
  }

  lemma {:induction false} SmoothRows(env: nat -> Tick, names: nat -> string, n: nat, was: seq<Row>, rows: seq<Row>)
    requires Smooth(env, names, n) && Grew(env, rows, |was|) && was <= rows && Untroubled(was)
    requires |rows| <= |was| + n
    ensures Untroubled(rows) && Named(rows, names, |was|)
  {
    forall i | 0 <= i < |rows| ensures Harmless(rows[i]) {
      if i < |was| {
        assert rows[i] == was[i];
      } else {
        SmoothRow(env, names, n, rows, |was|, i - |was|);
      }
    }
    forall i | |was| <= i < |rows| ensures rows[i].sliceId == names(i - |was|) {
      SmoothRow(env, names, n, rows, |was|, i - |was|);
    }
  }

  lemma {:induction false} NoMoreTurns(env: nat -> Tick, rows: seq<Row>, from: nat, n: nat)
    requires Grew(env, rows, from) && !Mirrors(env(n))
    ensures |rows| <= from + n
  {
    assert from + n < |rows| ==> WentThrough(env, rows, from, n);
  }

  lemma {:induction false} EarlyTurnMirrors(env: nat -> Tick, names: nat -> string, n: nat, m: nat)
    requires Smooth(env, names, n)
    ensures m < n ==> Mirrors(env(m))
  {
    if m < n {
      assert Passing(env(m), names(m));
    }
  }

  /** What a smooth run leaves: a row for each passing turn, and the next one's log. */
  ghost predicate RanSmoothly(env: nat -> Tick, names: nat -> string, n: nat, was: Snapshot, now: Snapshot) {
    && was.rows <= now.rows && |now.rows| == |was.rows| + n && Untroubled(now.rows) && Named(now.rows, names, |was.rows|)
    && now.byWorker == was.byWorker + Times(n, true) && BlockedBy(env(n), now.status)
    && now.logs == was.logs + LogsOf(env, |was.rows|, n) + [LogOf(env(n), |now.rows|)]
  }

  /** The turn that ends such a run is the one that does not pass. */
  lemma {:induction false} SmoothLength(env: nat -> Tick, names: nat -> string, n: nat,
                                        rows: seq<Row>, from: nat, m: nat, rc: nat)
    requires Grew(env, rows, from) && |rows| == from + m && Ended(env, rows, m, rc)
    requires Smooth(env, names, n) && Untroubled(rows) && |rows| < MAX_TOTAL_SLICES
    ensures m == n && !StopsAt(env(n), rows)
  {
    NoMoreTurns(env, rows, from, n);
    NothingStops(env(m), rows);
    EarlyTurnMirrors(env, names, n, m);
  }

  /** From a short untroubled ledger such a run adds exactly the passing slices and
      is stopped by the next one. */
  lemma {:induction false} SmoothRan(env: nat -> Tick, names: nat -> string, n: nat,
                                     was: Snapshot, now: Snapshot, m: nat, rc: nat)
    requires WorkerRan(env, was, now, m, rc) && Smooth(env, names, n)
    requires Untroubled(was.rows) && |was.rows| + n < MAX_TOTAL_SLICES
    ensures RanSmoothly(env, names, n, was, now)
  {
    NoMoreTurns(env, now.rows, |was.rows|, n);
    SmoothRows(env, names, n, was.rows, now.rows);
    SmoothLength(env, names, n, now.rows, |was.rows|, m, rc);
  }

  lemma {:induction false} SmoothStep(command: Command, names: nat -> string, n: nat, was: Snapshot, now: Snapshot)
    requires command.Work? && Step(command, was, now) && Smooth(command.env, names, n)
    requires Untroubled(was.rows) && |was.rows| + n < MAX_TOTAL_SLICES
    ensures RanSmoothly(command.env, names, n, was, now)
  {
    var m, rc :| WorkerRan(command.env, was, now, m, rc);
    SmoothRan(command.env, names, n, was, now, m, rc);
  }

  // ----- worker runs over judged slices -----

  ghost predicate Distinct(names: nat -> string) {
    forall i, j :: i != j ==> names(i) != names(j)
  }

  /** `n` slices pass, under the names in order; then comes `last`. */
  function Feed(names: nat -> string, n: nat, last: SliceRun): nat -> SliceRun {
    (k: nat) => if k < n then PassingSlice(names(k)) else last
  }

  /** The turns of a worker over judged slices, with storage ready throughout. */
  function Turns(judge: SliceRun -> Outcome, slices: nat -> SliceRun, deadline: nat): nat -> Tick {
    (k: nat) => Tick(None, judge(slices(k)), 0, if k >= deadline then MAX_RUNTIME_SECONDS else 0)
  }

  function FeedRun(judge: SliceRun -> Outcome, names: nat -> string, n: nat, last: SliceRun): Command {
    Work(Turns(judge, Feed(names, n, last), n + 1), n + 1)
  }

  /** Slices of the kinds used here that do not pass. */
  ghost predicate Stops(last: SliceRun) {
    last.Raised? || exists run :: last == BrokenSlice(run)
  }

  /** The `k`-th turn of such a run. */
  lemma {:induction false} FeedTurn(judge: SliceRun -> Outcome, names: nat -> string, n: nat, last: SliceRun, k: nat)
    ensures var t := FeedRun(judge, names, n, last).env(k);
            && t.storage.None? && t.highPositive == 0 && t.elapsed == (if k > n then MAX_RUNTIME_SECONDS else 0)
            && t.outcome == judge(if k < n then PassingSlice(names(k)) else last)
  {
  }

  lemma {:induction false} JudgedTurn(judge: SliceRun -> Outcome, t: Tick, run: string)
    requires Judges(judge) && t.storage.None? && t.outcome == judge(PassingSlice(run))
    ensures Passing(t, run) && Supervised(t)
  {
    assert PassedOutcome(judge(PassingSlice(run)), run);
  }

  lemma {:induction false} FailedTurn(judge: SliceRun -> Outcome, t: Tick, last: SliceRun)
    requires Judges(judge) && Stops(last) && t.outcome == judge(last)
    ensures !Mirrors(t) && Supervised(t)
  {
  }

  lemma {:induction false} FeedRunIsPossible(judge: SliceRun -> Outcome, names: nat -> string, n: nat, last: SliceRun)
    requires Judges(judge) && Stops(last)
    ensures Possible(FeedRun(judge, names, n, last))
  {
    var env := FeedRun(judge, names, n, last).env;
    forall k: nat ensures Supervised(env(k)) {
      FeedTurn(judge, names, n, last, k);
      if k < n {
        JudgedTurn(judge, env(k), names(k));
      } else {
        FailedTurn(judge, env(k), last);
      }
    }
  }

  lemma {:induction false} FeedTurnPasses(judge: SliceRun -> Outcome, names: nat -> string, n: nat, last: SliceRun, k: nat)
    requires Judges(judge) && k < n
    ensures Passing(FeedRun(judge, names, n, last).env(k), names(k))
  {
    FeedTurn(judge, names, n, last, k);
    JudgedTurn(judge, FeedRun(judge, names, n, last).env(k), names(k));
  }

  lemma {:induction false} FeedTurnFails(judge: SliceRun -> Outcome, names: nat -> string, n: nat, last: SliceRun)
    requires Judges(judge) && Stops(last)
    ensures !Mirrors(FeedRun(judge, names, n, last).env(n))
  {
    FeedTurn(judge, names, n, last, n);
    FailedTurn(judge, FeedRun(judge, names, n, last).env(n), last);
  }

  lemma {:induction false} FeedTurnsPass(judge: SliceRun -> Outcome, names: nat -> string, n: nat, last: SliceRun)
    requires Judges(judge)
    ensures AllPassing(FeedRun(judge, names, n, last).env, names, n)
  {
    forall k: nat | k < n ensures Passing(FeedRun(judge, names, n, last).env(k), names(k)) {
      FeedTurnPasses(judge, names, n, last, k);
    }
  }

  lemma {:induction false} FeedRunIsSmooth(judge: SliceRun -> Outcome, names: nat -> string, n: nat, last: SliceRun)
    requires Judges(judge) && Stops(last)
    ensures Smooth(FeedRun(judge, names, n, last).env, names, n)
  {
    FeedTurnsPass(judge, names, n, last);
    FeedTurnFails(judge, names, n, last);
  }

  // ----- what such a run says about other runs -----

  ghost predicate NoneIs(names: nat -> string, run: string) {
    forall k: nat :: names(k) != run
  }

  lemma {:induction false} PassingLog(t: Tick, run: string, m: nat, other: string)
    requires Passing(t, run) && other != run
    ensures !IsLogOf(LogOf(t, m), other)
  {
  }

  predicate NoLogOf(logs: seq<Log>, run: string) {
    forall i :: 0 <= i < |logs| ==> !IsLogOf(logs[i], run)
  }

  lemma {:induction false} LogsOfAt(env: nat -> Tick, start: nat, n: nat)
    ensures |LogsOf(env, start, n)| == n && forall i: nat :: i < n ==> LogsOf(env, start, n)[i] == LogOf(env(i), start + i)
    decreases n
  {
    if n > 0 {
      LogsOfAt(env, start, n - 1);
    }
  }

  /** The turns that pass leave logs about their own runs only. */
  lemma {:induction false} PassingLogs(env: nat -> Tick, names: nat -> string, n: nat, start: nat, run: string)
    requires AllPassing(env, names, n) && NoneIs(names, run)
    ensures NoLogOf(LogsOf(env, start, n), run)
  {
    LogsOfAt(env, start, n);
    forall i: nat | i < n ensures !IsLogOf(LogsOf(env, start, n)[i], run) {
      assert Passing(env(i), names(i));
      PassingLog(env(i), names(i), start + i, run);
    }
  }

  lemma {:induction false} NewestLogAt(logs: seq<Log>, run: string, i: nat)
    requires i < |logs| && IsLogOf(logs[i], run) && forall j :: i < j < |logs| ==> !IsLogOf(logs[j], run)
    ensures NewestLog(logs, run) == Some(i)
    decreases |logs|
  {
    if i < |logs| - 1 {
      NewestLogAt(logs[..|logs| - 1], run, i);
    }
  }

  // ----- the recovery of the broken slice -----

  function PipeRequest(run: string): Request {
    Request(true, false, Some(Broken(run)), "")
  }

  /** The log of a slice the broken-pipe recovery takes, into a harmless row. */
  predicate PipeLog(l: Log, run: string) {
    l.summary == [] && l.stopped.Some? && PipeResult(l.stopped.value, run)
  }

  lemma {:induction false} PipeLogIsRecoverable(l: Log, run: string, sliceIndex: nat)
    requires PipeLog(l, run)
    ensures IsLogOf(l, run) && RouteFor(Broken(run), Last(LogRows(l))) == BrokenPipe
    ensures var row := RecoveredRow(l, BrokenPipe, sliceIndex);
            Harmless(row) && row.sliceId == run && row.batchIndex == l.batchIndex
  {
    OneResult(l, l.stopped.value);
    RecoveredRowIsQuietExactly(Broken(run), l, sliceIndex);
  }

  /** The worker was stopped by a slice, and log `i` is the newest about `run`. */
  ghost predicate Waiting(s: Snapshot, run: string, i: nat) {
    && Untroubled(s.rows) && !InLedger(s.rows, run)
    && s.status.classification == BlockRelay && s.status.blocker == SUPERVISOR_FAILED
    && i < |s.logs| && PipeLog(s.logs[i], run) && NewestLog(s.logs, run) == Some(i)
  }

  lemma {:induction false} PipeIsFound(s: Snapshot, run: string, i: nat)
    requires Waiting(s, run, i)
    ensures RecoveryOf(s, PipeRequest(run)) == Some((i, BrokenPipe))
  {
    PipeLogIsRecoverable(s.logs[i], run, 0);
  }

  lemma {:induction false} PipeIsRecovered(s: Snapshot, run: string, i: nat)
    requires Waiting(s, run, i)
    ensures var now := Resumed(s, PipeRequest(run)); var n := |s.rows|;
            && |now.rows| == n + 1 && now.rows[..n] == s.rows && Untroubled(now.rows)
            && now.rows[n].sliceId == run && now.rows[n].batchIndex == s.logs[i].batchIndex
            && now.byWorker == s.byWorker + [false]
  {
    PipeIsFound(s, run, i);
    PipeLogIsRecoverable(s.logs[i], run, |s.rows| + 1);
  }

  /** The new rows are about none of the runs but those fed. */
  lemma {:induction false} StillUnknown(was: seq<Row>, rows: seq<Row>, names: nat -> string, run: string)
    requires was <= rows && Named(rows, names, |was|) && NoneIs(names, run) && !InLedger(was, run)
    ensures !InLedger(rows, run)
  {
    forall i | 0 <= i < |rows| ensures rows[i].sliceId != run {
      if i < |was| {
        assert rows[i] == was[i];
      } else {
        assert names(i - |was|) != run;
      }
    }
  }

  /** A smooth run that a slice stops, which the broken-pipe recovery takes. */
  ghost predicate PipeRun(env: nat -> Tick, names: nat -> string, n: nat, run: string) {
    && Smooth(env, names, n) && NoneIs(names, run)
    && env(n).outcome.summary == [] && env(n).outcome.stopped.Some? && PipeResult(env(n).outcome.stopped.value, run)
  }

  /** A smooth run that a batch error stops. */
  ghost predicate ErrorRun(env: nat -> Tick, names: nat -> string, n: nat) {
    Smooth(env, names, n) && env(n).outcome.summary == [] && env(n).outcome.stopped.None?
  }

  /** The first leaves a slice waiting for a recovery. */
  lemma {:induction false} PipeRunEnds(env: nat -> Tick, names: nat -> string, n: nat, run: string, was: Snapshot, now: Snapshot)
    requires PipeRun(env, names, n, run) && RanSmoothly(env, names, n, was, now) && !InLedger(was.rows, run)
    ensures |now.logs| == |was.logs| + n + 1 && Waiting(now, run, |now.logs| - 1)
    ensures now.logs[|now.logs| - 1].batchIndex == |now.rows| / SLICES_PER_BATCH + 1
  {
    LogsOfAt(env, |was.rows|, n);
    StillUnknown(was.rows, now.rows, names, run);
    LastLogIsPipe(was.logs + LogsOf(env, |was.rows|, n), LogOf(env(n), |now.rows|), run);
  }

  lemma {:induction false} LastLogIsPipe(front: seq<Log>, last: Log, run: string)
    requires PipeLog(last, run)
    ensures NewestLog(front + [last], run) == Some(|front|)
  {
    PipeLogIsRecoverable(last, run, 0);
    NewestLogAt(front + [last], run, |front|);
  }

  /** The second leaves a waiting slice waiting. */
  lemma {:induction false} ErrorRunEnds(env: nat -> Tick, names: nat -> string, n: nat, run: string, was: Snapshot, now: Snapshot)
    requires ErrorRun(env, names, n) && RanSmoothly(env, names, n, was, now) && NoneIs(names, run)
    requires was.logs != [] && Waiting(was, run, |was.logs| - 1)
    ensures Waiting(now, run, |was.logs| - 1) && now.logs[|was.logs| - 1] == was.logs[|was.logs| - 1]
  {
    StillUnknown(was.rows, now.rows, names, run);
    PassingLogs(env, names, n, |was.rows|, run);
    LastLogIsEmpty(was.logs, LogsOf(env, |was.rows|, n), LogOf(env(n), |now.rows|), run);
  }

  lemma {:induction false} LastLogIsEmpty(was: seq<Log>, passed: seq<Log>, last: Log, run: string)
    requires was != [] && PipeLog(was[|was| - 1], run) && last.summary == [] && last.stopped.None?
    requires NoLogOf(passed, run)
    ensures NewestLog(was + passed + [last], run) == Some(|was| - 1)
  {
    PipeLogIsRecoverable(was[|was| - 1], run, 0);
    NewestLogAt(was + passed + [last], run, |was| - 1);
  }

  // ----- the two histories -----

  /** No two slices run under the same name. */
  ghost predicate DistinctRuns(run: string, names: nat -> string, more: nat -> string) {
    && NoneIs(names, run) && NoneIs(more, run) && Distinct(names) && Distinct(more)
    && forall i: nat, j: nat :: names(i) != more(j)
  }

  /** The slice `run` breaks its pipe; ten slices pass before a batch error; a resume. */
  function OldRun(judge: SliceRun -> Outcome, run: string, names: nat -> string): seq<Command> {
    [FeedRun(judge, names, 0, BrokenSlice(run)), FeedRun(judge, names, 10, Raised), Recover(PipeRequest(run))]
  }

  /** Nine slices pass, the tenth breaks its pipe; a resume; one more passes before a
      batch error. */
  function TenthRow(judge: SliceRun -> Outcome, run: string, names: nat -> string, more: nat -> string): seq<Command> {
    [FeedRun(judge, names, 9, BrokenSlice(run)), Recover(PipeRequest(run)), FeedRun(judge, more, 1, Raised)]
  }

  lemma {:induction false} FeedRunIsPipe(judge: SliceRun -> Outcome, names: nat -> string, n: nat, run: string)
    requires Judges(judge) && NoneIs(names, run)
    ensures PipeRun(FeedRun(judge, names, n, BrokenSlice(run)).env, names, n, run)
  {
    FeedRunIsSmooth(judge, names, n, BrokenSlice(run));
    FeedTurn(judge, names, n, BrokenSlice(run), n);
  }

  lemma {:induction false} FeedRunIsError(judge: SliceRun -> Outcome, names: nat -> string, n: nat)
    requires Judges(judge)
    ensures ErrorRun(FeedRun(judge, names, n, Raised).env, names, n)
  {
    FeedRunIsSmooth(judge, names, n, Raised);
    FeedTurn(judge, names, n, Raised, n);
  }

  /** The broken slice waits, logged under batch 1. */
  lemma {:induction false} OldRunBreaks(first: Command, names: nat -> string, run: string, now: Snapshot)
    requires first.Work? && PipeRun(first.env, names, 0, run) && Step(first, Untouched(), now)
    ensures now.rows == [] && |now.logs| == 1 && Waiting(now, run, 0) && now.logs[0].batchIndex == 1
  {
    SmoothStep(first, names, 0, Untouched(), now);
    PipeRunEnds(first.env, names, 0, run, Untouched(), now);
  }

  /** It still does when ten others have become rows. */
  lemma {:induction false} OldRunWaits(second: Command, names: nat -> string, run: string, was: Snapshot, now: Snapshot)
    requires second.Work? && ErrorRun(second.env, names, 10) && NoneIs(names, run) && Step(second, was, now)
    requires was.rows == [] && |was.logs| == 1 && Waiting(was, run, 0) && was.logs[0].batchIndex == 1
    ensures |now.rows| == 10 && Waiting(now, run, 0) && now.logs[0].batchIndex == 1
  {
    SmoothStep(second, names, 10, was, now);
    ErrorRunEnds(second.env, names, 10, run, was, now);
  }

  lemma {:induction false} OldRunIsRecovered(s: Snapshot, run: string)
    requires |s.rows| == 10 && Waiting(s, run, 0) && s.logs[0].batchIndex == 1
    ensures var rows := Resumed(s, PipeRequest(run)).rows;
            |rows| == 11 && rows[10].sliceId == run && rows[10].batchIndex == 1
  {
    PipeIsRecovered(s, run, 0);
  }

  /** The three steps of a history of three commands. */
  lemma {:induction false} ThreeSteps(commands: seq<Command>, states: seq<Snapshot>)
    requires History(commands, states) && |commands| == 3
    ensures Step(commands[0], Untouched(), states[1])
    ensures Step(commands[1], states[1], states[2]) && Step(commands[2], states[2], states[3])
  {
    assert states[0] == Untouched();
  }

  lemma {:induction false} OldRunEnds(first: Command, second: Command, names: nat -> string, run: string,
                                      s: Snapshot, now: Snapshot)
    requires first.Work? && PipeRun(first.env, names, 0, run) && Step(first, Untouched(), s)
    requires second.Work? && ErrorRun(second.env, names, 10) && Step(second, s, now)
    ensures var rows := Resumed(now, PipeRequest(run)).rows;
            |rows| == 11 && rows[10].sliceId == run && rows[10].batchIndex == 1
  {
    OldRunBreaks(first, names, run, s);
    OldRunWaits(second, names, run, s, now);
    OldRunIsRecovered(now, run);
  }

  /** The slice waits to become the tenth row. */
  lemma {:induction false} TenthRowWaits(first: Command, names: nat -> string, run: string, now: Snapshot)
    requires first.Work? && PipeRun(first.env, names, 9, run) && Step(first, Untouched(), now)
    ensures |now.rows| == |now.byWorker| == 9 && Waiting(now, run, 9) && now.logs[9].batchIndex == 1
  {
    SmoothStep(first, names, 9, Untouched(), now);
    PipeRunEnds(first.env, names, 9, run, Untouched(), now);
  }

  /** It is recovered, in place. */
  lemma {:induction false} TenthRowIsRecovered(s: Snapshot, run: string)
    requires |s.rows| == |s.byWorker| == 9 && Waiting(s, run, 9) && s.logs[9].batchIndex == 1
    ensures InPlace(s, PipeRequest(run))
    ensures var now := Resumed(s, PipeRequest(run));
            && |now.rows| == |now.byWorker| == 10 && Untroubled(now.rows)
            && now.rows[9].sliceId == run && !now.byWorker[9]
  {
    PipeIsFound(s, run, 9);
    PipeIsRecovered(s, run, 9);
  }

  lemma {:induction false} TenthRowStays(last: Command, more: nat -> string, was: Snapshot, now: Snapshot)
    requires last.Work? && ErrorRun(last.env, more, 1) && Step(last, was, now) && Untroubled(was.rows)
    requires |was.rows| == |was.byWorker| == 10 && !was.byWorker[9]
    ensures |now.rows| == 11 && now.rows[9] == was.rows[9] && !TenthRowByWorker(now.byWorker, 1)
  {
    SmoothStep(last, more, 1, was, now);
    assert now.byWorker[9] == was.byWorker[9];
  }

  lemma {:induction false} OneRecovery(commands: seq<Command>, states: seq<Snapshot>)
    requires History(commands, states) && |commands| == 3 && commands[0].Work? && commands[2].Work?
    requires commands[1].Recover? && InPlace(states[1], commands[1].request)
    ensures WellNumbered(states[3].rows)
  {
    CanonicalExactly(commands, states, 3);
  }

  lemma {:induction false} TenthRowEnds(first: Command, last: Command, names: nat -> string, more: nat -> string, run: string,
                                        s: Snapshot, now: Snapshot)
    requires first.Work? && PipeRun(first.env, names, 9, run) && Step(first, Untouched(), s)
    requires last.Work? && ErrorRun(last.env, more, 1) && Step(last, Resumed(s, PipeRequest(run)), now)
    ensures InPlace(s, PipeRequest(run))
    ensures |now.rows| == 11 && now.rows[9].sliceId == run && !TenthRowByWorker(now.byWorker, 1)
  {
    TenthRowWaits(first, names, run, s);
    TenthRowIsRecovered(s, run);
    TenthRowStays(last, more, Resumed(s, PipeRequest(run)), now);
  }

  lemma {:induction false} OldRunIsFine(judge: SliceRun -> Outcome, run: string, names: nat -> string)
    requires Judges(judge) && NoneIs(names, run)
    ensures var commands := OldRun(judge, run, names);
            && Possible(commands[0]) && Possible(commands[1]) && Possible(commands[2])
            && PipeRun(commands[0].env, names, 0, run) && ErrorRun(commands[1].env, names, 10)
  {
    FeedRunIsPossible(judge, names, 0, BrokenSlice(run));
    FeedRunIsPipe(judge, names, 0, run);
    FeedRunIsPossible(judge, names, 10, Raised);
    FeedRunIsError(judge, names, 10);
  }

  lemma {:induction false} TenthRowIsFine(judge: SliceRun -> Outcome, run: string, names: nat -> string, more: nat -> string)
    requires Judges(judge) && NoneIs(names, run)
    ensures var commands := TenthRow(judge, run, names, more);
            && Possible(commands[0]) && Possible(commands[1]) && Possible(commands[2])
            && PipeRun(commands[0].env, names, 9, run) && ErrorRun(commands[2].env, more, 1)
  {
    FeedRunIsPossible(judge, names, 9, BrokenSlice(run));
    FeedRunIsPipe(judge, names, 9, run);
    FeedRunIsPossible(judge, more, 1, Raised);
    FeedRunIsError(judge, more, 1);
  }

  method RunOldRun(commands: seq<Command>, names: nat -> string, run: string) returns (c: Collector, ghost states: seq<Snapshot>)
    requires |commands| == 3 && commands[0].Work? && commands[1].Work? && commands[2] == Recover(PipeRequest(run))
    requires Possible(commands[0]) && Possible(commands[1])
    requires PipeRun(commands[0].env, names, 0, run) && ErrorRun(commands[1].env, names, 10)
    ensures fresh(c) && History(commands, states) && states[3] == c.Now()
    ensures |c.rows| == 11 && c.rows[10].sliceId == run && c.rows[10].batchIndex == 1
  {
    c, states := RunHistory(commands);
    ThreeSteps(commands, states);
    OldRunEnds(commands[0], commands[1], names, run, states[1], states[2]);
  }

  method RunTenthRow(commands: seq<Command>, names: nat -> string, more: nat -> string, run: string)
    returns (c: Collector, ghost states: seq<Snapshot>)
    requires |commands| == 3 && commands[0].Work? && commands[2].Work? && commands[1] == Recover(PipeRequest(run))
    requires Possible(commands[0]) && Possible(commands[2])
    requires PipeRun(commands[0].env, names, 9, run) && ErrorRun(commands[2].env, more, 1)
    ensures fresh(c) && History(commands, states) && states[3] == c.Now()
    ensures |c.rows| == 11 && c.rows[9].sliceId == run && WellNumbered(c.rows) && 1 !in c.summaries
  {
    c, states := RunHistory(commands);
    ThreeSteps(commands, states);
    TenthRowEnds(commands[0], commands[2], names, more, run, states[1], states[3]);
    OneRecovery(commands, states);
    HistoryKeeps(commands, states, 3);
  }

  /** For any distinct run names: every command is possible, all slices are judged by
      the supervisor, and yet the recovered row is the eleventh and carries batch 1,
      so that the ledger is not canonical. */
  method RecoverOldRun(run: string, names: nat -> string) returns (c: Collector, ghost states: seq<Snapshot>)
    requires NoneIs(names, run) && Distinct(names)
    ensures fresh(c) && History(OldRun(OutcomeOf, run, names), states) && states[3] == c.Now()
    ensures var commands := OldRun(OutcomeOf, run, names);
            Possible(commands[0]) && Possible(commands[1]) && Possible(commands[2])
    ensures |c.rows| == 11 && c.rows[10].sliceId == run && c.rows[10].batchIndex == 1 && !WellNumbered(c.rows)
  {
    SupervisorJudges();
    OldRunIsFine(OutcomeOf, run, names);
    c, states := RunOldRun(OldRun(OutcomeOf, run, names), names, run);
    assert c.rows[10].batchIndex == 1;
  }

  /** For any distinct run names: the tenth row was recovered in place, so the ledger
      is canonical, but batch 1 is full and never gets its summary. */
  method RecoverTenthRow(run: string, names: nat -> string, more: nat -> string)
    returns (c: Collector, ghost states: seq<Snapshot>)
    requires DistinctRuns(run, names, more)
    ensures fresh(c) && History(TenthRow(OutcomeOf, run, names, more), states) && states[3] == c.Now()
    ensures var commands := TenthRow(OutcomeOf, run, names, more);
            Possible(commands[0]) && Possible(commands[1]) && Possible(commands[2])
    ensures |c.rows| == 11 && c.rows[9].sliceId == run && WellNumbered(c.rows) && 1 !in c.summaries
  {
    SupervisorJudges();
    TenthRowIsFine(OutcomeOf, run, names, more);
    c, states := RunTenthRow(TenthRow(OutcomeOf, run, names, more), names, more, run);
  }
}
