/** Histories of the background collector: worker runs and resume commands in any
    order (scripts/run_background_24h_collector.py: worker, resume). */
module CollectorHistory {
  import opened Common
  import opened Ledger
  import opened Resume
  import opened Collector

  /** One command. A worker run sees `env`; by iteration `deadline` its clock has
      passed the limit. */
  datatype Command =
    | Work(env: nat -> Tick, deadline: nat)
    | Recover(request: Request)

  ghost predicate Possible(command: Command) {
    command.Work? ==>
      && (forall k :: Supervised(command.env(k)))
      && (forall k :: k >= command.deadline ==> command.env(k).elapsed >= MAX_RUNTIME_SECONDS)
  }

  // ----- what every history keeps -----

  /** A batch summary is written exactly when a worker added the batch's tenth row. */
  ghost predicate SummariesAreWorkers(summaries: seq<nat>, byWorker: seq<bool>) {
    forall b :: b in summaries <==> TenthRowByWorker(byWorker, b)
  }

  predicate TenthRowByWorker(byWorker: seq<bool>, b: nat) {
    1 <= b && SLICES_PER_BATCH * b <= |byWorker| && byWorker[SLICES_PER_BATCH * b - 1]
  }

  /** Every row is numbered by its position; a worker's row also carries the batch
      of its position. */
  predicate NumberedByPosition(rows: seq<Row>, byWorker: seq<bool>) {
    && |byWorker| == |rows|
    && forall i :: 0 <= i < |rows| ==>
         rows[i].sliceIndex == i + 1 && (byWorker[i] ==> rows[i].batchIndex == i / SLICES_PER_BATCH + 1)
  }

  lemma {:induction false} WorkerKeepsSummaries(summaries: seq<nat>, byWorker: seq<bool>, n: nat)
    requires SummariesAreWorkers(summaries, byWorker)
    ensures SummariesAreWorkers(summaries + CompletedBatches(|byWorker|, |byWorker| + n), byWorker + Times(n, true))
  {
    var marks := byWorker + Times(n, true);
    var longer := summaries + CompletedBatches(|byWorker|, |byWorker| + n);
    forall b ensures b in longer <==> TenthRowByWorker(marks, b) {
      SummariesWritten(|byWorker|, |byWorker| + n, b);
      assert b in longer <==> b in summaries || b in CompletedBatches(|byWorker|, |byWorker| + n);
      if 1 <= b && SLICES_PER_BATCH * b <= |byWorker| {
        assert marks[SLICES_PER_BATCH * b - 1] == byWorker[SLICES_PER_BATCH * b - 1];
      }
    }
  }

  lemma {:induction false} RecoveryKeepsSummaries(summaries: seq<nat>, byWorker: seq<bool>)
    requires SummariesAreWorkers(summaries, byWorker)
    ensures SummariesAreWorkers(summaries, byWorker + [false])
  {
    forall b ensures TenthRowByWorker(byWorker + [false], b) <==> TenthRowByWorker(byWorker, b) {
      if 1 <= b && SLICES_PER_BATCH * b <= |byWorker| {
        assert (byWorker + [false])[SLICES_PER_BATCH * b - 1] == byWorker[SLICES_PER_BATCH * b - 1];
      }
    }
  }

  lemma {:induction false} WorkerKeepsNumbers(env: nat -> Tick, was: seq<Row>, rows: seq<Row>, byWorker: seq<bool>, n: nat)
    requires NumberedByPosition(was, byWorker)
    requires was <= rows && |rows| == |was| + n && Grew(env, rows, |was|)
    ensures NumberedByPosition(rows, byWorker + Times(n, true))
  {
    forall i | 0 <= i < |rows|
      ensures rows[i].sliceIndex == i + 1
      ensures (byWorker + Times(n, true))[i] ==> rows[i].batchIndex == i / SLICES_PER_BATCH + 1
    {
      if i < |was| {
        assert rows[i] == was[i];
      } else {
        assert WentThrough(env, rows, |was|, i - |was|);
      }
    }
  }

  /** What a command does to everything the collector keeps. */
  ghost predicate Step(command: Command, was: Snapshot, now: Snapshot) {
    match command
    case Work(env, deadline) => exists n, rc :: WorkerRan(env, was, now, n, rc)
    case Recover(request) => now == Resumed(was, request)
  }

  /** The states before, between and after the commands, from an untouched collector. */
  ghost predicate History(commands: seq<Command>, states: seq<Snapshot>) {
    && |states| == |commands| + 1 && states[0] == Untouched()
    && forall i :: 0 <= i < |commands| ==> Step(commands[i], states[i], states[i + 1])
  }

  ghost predicate Kept(s: Snapshot) {
    SummariesAreWorkers(s.summaries, s.byWorker) && NumberedByPosition(s.rows, s.byWorker) && QuietButLast(s.rows)
  }

  /** The recovery a resume makes, if any, is of a run logged in the batch that is
      open now. */
  predicate InPlace(s: Snapshot, request: Request) {
    var found := RecoveryOf(s, request);
    found.Some? ==> s.logs[found.value.0].batchIndex == |s.rows| / SLICES_PER_BATCH + 1
  }

  lemma {:induction false} WorkKeeps(env: nat -> Tick, was: Snapshot, now: Snapshot, n: nat, rc: nat)
    requires WorkerRan(env, was, now, n, rc) && Kept(was)
    ensures Kept(now)
  {
    WorkerKeepsSummaries(was.summaries, was.byWorker, n);
    WorkerKeepsNumbers(env, was.rows, now.rows, was.byWorker, n);
    GrewKeepsShape(env, was.rows, now.rows);
  }

  lemma {:induction false} ResumeKeeps(was: Snapshot, request: Request)
    requires Kept(was)
    ensures Kept(Resumed(was, request))
  {
    if RecoveryOf(was, request).Some? {
      RecoveryKeepsSummaries(was.summaries, was.byWorker);
      QuietStep(was.rows, Resumed(was, request).rows[|was.rows|]);
    }
  }

  lemma {:induction false} StepKeeps(command: Command, was: Snapshot, now: Snapshot)
    requires Step(command, was, now) && Kept(was)
    ensures Kept(now)
  {
    match command
    case Work(env, deadline) =>
      var n, rc :| WorkerRan(env, was, now, n, rc);
      WorkKeeps(env, was, now, n, rc);
    case Recover(request) =>
      ResumeKeeps(was, request);
  }

  lemma {:induction false} HistoryKeeps(commands: seq<Command>, states: seq<Snapshot>, i: nat)
    requires History(commands, states) && i < |states|
    ensures Kept(states[i])
    decreases i
  {
    if i > 0 {
      HistoryKeeps(commands, states, i - 1);
      StepKeeps(commands[i - 1], states[i - 1], states[i]);
    }
  }

  // ----- when the ledger stays canonical -----

  /** A resume keeps a canonical ledger canonical exactly when it recovers nothing or
      the recovered run was logged in the batch that is open now. */
  lemma {:induction false} ResumeKeepsNumbersExactly(was: Snapshot, request: Request)
    requires WellNumbered(was.rows)
    ensures WellNumbered(Resumed(was, request).rows) <==> InPlace(was, request)
  {
    var found := RecoveryOf(was, request);
    if found.Some? {
      var row := RecoveredRow(was.logs[found.value.0], found.value.1, |was.rows| + 1);
      if row.batchIndex == |was.rows| / SLICES_PER_BATCH + 1 {
        NumberingStep(was.rows, row);
      } else {
        assert (was.rows + [row])[|was.rows|] == row;
      }
    }
  }

  lemma {:induction false} PrefixIsWellNumbered(was: seq<Row>, now: seq<Row>)
    requires was <= now && WellNumbered(now)
    ensures WellNumbered(was)
  {
    forall i | 0 <= i < |was| ensures was[i] == now[i] {
    }
  }

  lemma {:induction false} StepNumbers(command: Command, was: Snapshot, now: Snapshot)
    requires Step(command, was, now)
    ensures WellNumbered(now.rows) <==>
              WellNumbered(was.rows) && (command.Recover? ==> InPlace(was, command.request))
  {
    match command
    case Work(env, deadline) =>
      var n, rc :| WorkerRan(env, was, now, n, rc);
      GrewKeepsShape(env, was.rows, now.rows);
      if WellNumbered(now.rows) {
        PrefixIsWellNumbered(was.rows, now.rows);
      }
    case Recover(request) =>
      if WellNumbered(was.rows) {
        ResumeKeepsNumbersExactly(was, request);
      } else if WellNumbered(now.rows) {
        PrefixIsWellNumbered(was.rows, now.rows);
      }
  }

  /** Over a whole history: the ledger is canonical exactly when every recovery was
      of a run logged in the batch that was open at the time. */
  lemma {:induction false} CanonicalExactly(commands: seq<Command>, states: seq<Snapshot>, n: nat)
    requires History(commands, states) && n <= |commands|
    ensures WellNumbered(states[n].rows) <==>
              forall i :: 0 <= i < n && commands[i].Recover? ==> InPlace(states[i], commands[i].request)
    decreases n
  {
    if n > 0 {
      CanonicalExactly(commands, states, n - 1);
      StepNumbers(commands[n - 1], states[n - 1], states[n]);
    }
  }

  // ----- what a recovery follows -----

  /** After a resume, allowed or refused, the stop no longer reads as one by a slice;
      after a refusal it reads as one by the disk. */
  lemma {:induction false} ResumeForgetsTheStop(was: Snapshot, request: Request, diskInLogs: bool)
    ensures !StopOf(Resumed(was, request).status, diskInLogs).relay
    ensures !Allows(was, request) ==> StopOf(Resumed(was, request).status, diskInLogs).disk
  {
  }

  /** In every history a refused resume forfeits the recovery: until a worker runs
      again resumes change nothing but the status, and the very next one is allowed as
      soon as the surroundings and the ledger raise no objection, whatever slice had
      stopped the worker. */
  lemma {:induction false} RefusalForfeitsRecovery(commands: seq<Command>, states: seq<Snapshot>, i: nat, j: nat, next: Request)
    requires History(commands, states) && i < j <= |commands|
    requires forall k :: i <= k < j ==> commands[k].Recover?
    requires !Allows(states[i], commands[i].request)
    ensures states[j] == states[i].(status := states[j].status) && RecoveryOf(states[j], next) == None
    ensures j == i + 1 ==> (Allows(states[j], next) <==> next.clear && Untroubled(states[i].rows))
    decreases j
  {
    var last := commands[j - 1].request;
    assert Step(commands[j - 1], states[j - 1], states[j]);
    ResumeForgetsTheStop(states[j - 1], last, next.diskInLogs);
    if i < j - 1 {
      RefusalForfeitsRecovery(commands, states, i, j - 1, last);
    }
  }

  /** In every history a recovery directly follows a worker run that a slice stopped. */
  lemma {:induction false} RecoveryFollowsFailedSlice(commands: seq<Command>, states: seq<Snapshot>, i: nat) returns (n: nat)
    requires History(commands, states) && i < |commands|
    requires commands[i].Recover? && RecoveryOf(states[i], commands[i].request).Some?
    ensures i > 0 && commands[i - 1].Work?
    ensures var env := commands[i - 1].env;
            && WorkerRan(env, states[i - 1], states[i], n, FailureCode(env(n)))
            && !StopsAt(env(n), states[i].rows) && !Mirrors(env(n)) && env(n).storage.None?
  {
    assert StopOf(states[i].status, commands[i].request.diskInLogs).relay;
    assert i > 0 && Step(commands[i - 1], states[i - 1], states[i]);
    match commands[i - 1]
    case Recover(request) =>
      ResumeForgetsTheStop(states[i - 1], request, commands[i].request.diskInLogs);
    case Work(env, deadline) =>
      var m, rc :| WorkerRan(env, states[i - 1], states[i], m, rc);
      StoppedBySlice(env(m), states[i].rows, states[i].status);
      n := m;
  }

  lemma {:induction false} StoppedBySlice(t: Tick, rows: seq<Row>, s: Status)
    requires s.classification == BlockRelay && s.blocker == SUPERVISOR_FAILED
    requires if StopsAt(t, rows) then s.blocker == "" else BlockedBy(t, s)
    ensures !StopsAt(t, rows) && t.storage.None?
  {
  }

  /** The recovery of the very slice that stopped the worker is in place. */
  lemma {:induction false} FreshRecoveryIsInPlace(commands: seq<Command>, states: seq<Snapshot>, i: nat)
    requires History(commands, states) && i < |commands|
    requires commands[i].Recover? && RecoveryOf(states[i], commands[i].request).Some?
    requires states[i].logs != [] && IsLogOf(states[i].logs[|states[i].logs| - 1], commands[i].request.latest.value.run)
    ensures InPlace(states[i], commands[i].request)
  {
    var n := RecoveryFollowsFailedSlice(commands, states, i);
  }

  // ----- running a history -----

  /** Runs the commands one after the other on an untouched collector. Whatever they
      are: a batch's summary exists exactly when a worker added its tenth row, only
      the last row can ask for a stop, and the ledger is canonical exactly when every
      recovery was of a run logged in the batch that was open at the time. */
  method RunHistory(commands: seq<Command>) returns (c: Collector, ghost states: seq<Snapshot>)
    requires forall i :: 0 <= i < |commands| ==> Possible(commands[i])
    ensures fresh(c) && History(commands, states) && states[|commands|] == c.Now()
    ensures SummariesAreWorkers(c.summaries, c.byWorker)
    ensures NumberedByPosition(c.rows, c.byWorker)
    ensures QuietButLast(c.rows)
    ensures WellNumbered(c.rows) <==>
              forall i :: 0 <= i < |commands| && commands[i].Recover? ==> InPlace(states[i], commands[i].request)
  {
    c := new Collector();
    states := [c.Now()];
    var k := 0;
    while k < |commands|
      invariant 0 <= k <= |commands| && fresh(c)
      invariant |states| == k + 1 && states[0] == Untouched() && states[k] == c.Now()
      invariant forall i :: 0 <= i < k ==> Step(commands[i], states[i], states[i + 1])
    {
      RunCommand(c, commands[k]);
      states := states + [c.Now()];
      k := k + 1;
    }
    HistoryKeeps(commands, states, |commands|);
    CanonicalExactly(commands, states, |commands|);
  }

  method RunCommand(c: Collector, command: Command)
    requires Possible(command)
    modifies c
    ensures Step(command, old(c.Now()), c.Now())
  {
    match command
    case Work(env, deadline) =>
      var rc, n := c.Worker(env, deadline);
    case Recover(request) =>
      var allowed, mirrored := c.Resume(request);
  }
}
