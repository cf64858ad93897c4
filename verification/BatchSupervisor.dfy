/** The batch loop and its totals
    (scripts/run_relay_r2_primary_batch.py: main and rollup). */
module BatchSupervisor {
  import opened Common
  import opened SliceVerdict
  import opened SliceTheorems

  /** One attempted slice: it finishes with evidence, or run_slice raises a batch error. */
  datatype SliceRun = Finished(e: Evidence, c: Context) | Raised

  predicate Passes(run: SliceRun) {
    run.Finished? && Decide(run.e, run.c).Passed?
  }

  function ResultOf(run: SliceRun): SliceResult
    requires Passes(run)
  {
    Decide(run.e, run.c).result
  }

  datatype StopReason =
    | NoStop
    | SliceBlocked(slice: int, blockers: seq<Blocker>, result: SliceResult)
    | CandidateReviewRequired(slice: int)
    | TargetNotMet(counted: nat, accepted: nat, target: nat, max: nat)

  datatype Rollup = Rollup(
    total: nat, counted: nat, gapContinued: nat, quarantined: nat, noSignal: nat, blocked: nat,
    candidates: nat, replayEligible: nat, sequenceGaps: nat, hashMismatches: nat, backpressure: nat, unavailable: nat,
    r2Failures: nat, artifactFailures: nat)

  /** What one run of the supervisor leaves behind. `summary` is the lines of
      batch_summary.ndjson; `rollup` is written only when the loop ends. */
  datatype BatchRun = BatchRun(
    exitCode: nat, summary: seq<SliceResult>, attempted: nat, counted: nat, accepted: nat,
    stop: StopReason, rollup: Option<Rollup>)

  // ----- totals -----

  function CountIf(results: seq<SliceResult>, f: SliceResult -> bool): nat {
    if results == [] then 0
    else CountIf(results[..|results| - 1], f) + (if f(results[|results| - 1]) then 1 else 0)
  }

  function Sum(results: seq<SliceResult>, f: SliceResult -> nat): nat {
    if results == [] then 0 else Sum(results[..|results| - 1], f) + f(results[|results| - 1])
  }

  function IsCounted(): SliceResult -> bool { (r: SliceResult) => r.counted == Yes }
  function IsAccepted(): SliceResult -> bool { (r: SliceResult) => Accepted(r) }
  function IsQuarantined(): SliceResult -> bool { (r: SliceResult) => r.quarantined }
  function IsNoSignal(): SliceResult -> bool { (r: SliceResult) => r.noSignal }
  function IsGapContinued(): SliceResult -> bool { (r: SliceResult) => r.providerBlockers > 0 && r.counted == Yes }

  function IsInconsistent(): SliceResult -> bool { (r: SliceResult) => !r.artifactOk }
  function Candidates(): SliceResult -> nat { (r: SliceResult) => r.candidates }
  function ReplayEligible(): SliceResult -> nat { (r: SliceResult) => r.replayEligible }
  function R2Failures(): SliceResult -> nat { (r: SliceResult) => r.r2Failed }
  function SequenceGaps(): SliceResult -> nat { (r: SliceResult) => r.integrity.sequenceGap }
  function HashMismatches(): SliceResult -> nat { (r: SliceResult) => r.integrity.hashMismatch }
  function Backpressures(): SliceResult -> nat { (r: SliceResult) => r.integrity.backpressure }
  function Unavailables(): SliceResult -> nat { (r: SliceResult) => r.integrity.unavailable }

  function RollupOf(results: seq<SliceResult>, blocked: nat): Rollup {
    Rollup(|results|, CountIf(results, IsCounted()), CountIf(results, IsGapContinued()),
           CountIf(results, IsQuarantined()), CountIf(results, IsNoSignal()), blocked,
           Sum(results, Candidates()), Sum(results, ReplayEligible()),
           Sum(results, SequenceGaps()), Sum(results, HashMismatches()), Sum(results, Backpressures()),
           Sum(results, Unavailables()), Sum(results, R2Failures()), CountIf(results, IsInconsistent()))
  }

  /** The totals of a rollup are those of the slices it is about. */
  predicate IsRollup(r: Rollup, results: seq<SliceResult>) {
    && r.total == |results|
    && r.counted == CountIf(results, IsCounted()) && r.gapContinued == CountIf(results, IsGapContinued())
    && r.quarantined == CountIf(results, IsQuarantined()) && r.noSignal == CountIf(results, IsNoSignal())
    && r.candidates == Sum(results, Candidates()) && r.replayEligible == Sum(results, ReplayEligible())
    && r.sequenceGaps == Sum(results, SequenceGaps()) && r.hashMismatches == Sum(results, HashMismatches())
    && r.backpressure == Sum(results, Backpressures()) && r.unavailable == Sum(results, Unavailables())
    && r.r2Failures == Sum(results, R2Failures())
    && r.artifactFailures == CountIf(results, IsInconsistent())
  }

  /** What one more result adds to each total. */
  lemma {:induction false} RollupStep(results: seq<SliceResult>, r: SliceResult, was: Rollup, now: Rollup)
    requires IsRollup(was, results) && IsRollup(now, results + [r])
    ensures now.total == was.total + 1
    ensures now.counted == was.counted + if r.counted == Yes then 1 else 0
    ensures now.gapContinued == was.gapContinued + if r.providerBlockers > 0 && r.counted == Yes then 1 else 0
    ensures now.quarantined == was.quarantined + if r.quarantined then 1 else 0
    ensures now.noSignal == was.noSignal + if r.noSignal then 1 else 0
    ensures now.candidates == was.candidates + r.candidates
    ensures now.replayEligible == was.replayEligible + r.replayEligible
    ensures now.sequenceGaps == was.sequenceGaps + r.integrity.sequenceGap
    ensures now.hashMismatches == was.hashMismatches + r.integrity.hashMismatch
    ensures now.backpressure == was.backpressure + r.integrity.backpressure
    ensures now.unavailable == was.unavailable + r.integrity.unavailable
    ensures now.r2Failures == was.r2Failures + r.r2Failed
    ensures now.artifactFailures == was.artifactFailures + if r.artifactOk then 0 else 1
  {
    assert (results + [r])[..|results|] == results;
  }

  lemma {:induction false} EmptyRollup(r: Rollup)
    requires IsRollup(r, [])
    ensures r == Rollup(0, 0, 0, 0, 0, r.blocked, 0, 0, 0, 0, 0, 0, 0, 0)
  {
  }

  // ----- one attempt -----

  datatype Attempted = Pass(result: SliceResult) | Stop(reason: StopReason)

  /** What one attempted slice comes to. */
  function AttemptOf(slice: SliceRun, index: int): Attempted {
    match slice
    case Raised => Stop(NoStop)
    case Finished(e, c) =>
      match Decide(e, c)
      case Passed(result) => Pass(result)
      case Stopped(result, blockers) => Stop(SliceBlocked(index, blockers, result))
  }

  predicate Clean(r: SliceResult) {
    Consistent(r) && IntegrityZero(r.integrity) && r.r2Failed == 0 && r.artifactOk && r.candidates == 0
  }

  /** What a passing attempt passes on. */
  lemma {:induction false} PassingAttempt(slice: SliceRun, index: int)
    ensures AttemptOf(slice, index).Pass? <==> Passes(slice)
    ensures Passes(slice) ==>
              var result := AttemptOf(slice, index).result;
              result == ResultOf(slice) && Clean(result) && result.classification != PassReview
  {
    if Passes(slice) {
      PassedSliceIsClean(slice.e, slice.c);
    }
  }

  /** The same step by step: quarantine first, then blockers. */
  method AttemptSlice(slice: SliceRun, index: int) returns (outcome: Attempted)
    ensures outcome == AttemptOf(slice, index)
    ensures outcome.Pass? <==> Passes(slice)
    ensures outcome.Pass? ==> outcome.result == ResultOf(slice)
  {
    match slice
    case Raised =>
      outcome := Stop(NoStop);
    case Finished(e, c) =>
      var (result, blockers) := FinishSlice(e, c);
      if IsSafeProviderQuarantine(result, blockers) {
        result := result.(quarantined := true, classification := PassQuarantined);
        blockers := [];
      } else if blockers != [] {
        result := result.(classification := ClassifyBlockers(blockers, result));
      }
      outcome := if blockers != [] then Stop(SliceBlocked(index, blockers, result)) else Pass(result);
  }

  // ----- the specification of a run, over any attempts -----

  /** The first `n` attempts all pass. */
  predicate AllPass(attempts: nat -> Attempted, n: nat) {
    forall k :: 0 <= k < n ==> attempts(k).Pass?
  }

  function ResultsOf(attempts: nat -> Attempted, n: nat): (r: seq<SliceResult>)
    requires AllPass(attempts, n)
    ensures |r| == n
  {
    seq(n, k requires 0 <= k < n => attempts(k).result)
  }

  lemma {:induction false} CountIfStep(results: seq<SliceResult>, r: SliceResult, f: SliceResult -> bool)
    ensures CountIf(results + [r], f) == CountIf(results, f) + (if f(r) then 1 else 0)
  {
    assert (results + [r])[..|results|] == results;
  }

  /** Before the `n`-th attempt the target has not been reached. */
  predicate TargetOpen(attempts: nat -> Attempted, n: nat, target: nat) {
    AllPass(attempts, n) && forall k :: 0 <= k < n ==> CountIf(ResultsOf(attempts, k), IsAccepted()) < target
  }

  /** A passing attempt extends the totals the way the loop counts them. */
  lemma {:induction false} PassStep(attempts: nat -> Attempted, n: nat, target: nat)
    requires TargetOpen(attempts, n, target) && attempts(n).Pass?
    requires CountIf(ResultsOf(attempts, n), IsAccepted()) < target
    ensures TargetOpen(attempts, n + 1, target)
    ensures var r := attempts(n).result;
            && ResultsOf(attempts, n + 1) == ResultsOf(attempts, n) + [r]
            && CountIf(ResultsOf(attempts, n + 1), IsCounted())
               == CountIf(ResultsOf(attempts, n), IsCounted()) + (if r.counted == Yes then 1 else 0)
            && CountIf(ResultsOf(attempts, n + 1), IsAccepted())
               == CountIf(ResultsOf(attempts, n), IsAccepted()) + (if Accepted(r) then 1 else 0)
  {
    var r := attempts(n).result;
    assert ResultsOf(attempts, n + 1) == ResultsOf(attempts, n) + [r];
    CountIfStep(ResultsOf(attempts, n), r, IsCounted());
    CountIfStep(ResultsOf(attempts, n), r, IsAccepted());
  }

  lemma {:induction false} AcceptedAndQuarantined(results: seq<SliceResult>)
    requires forall k :: 0 <= k < |results| ==> Consistent(results[k])
    ensures CountIf(results, IsAccepted()) + CountIf(results, IsQuarantined()) == |results|
    decreases |results|
  {
    if results != [] {
      AcceptedAndQuarantined(results[..|results| - 1]);
    }
  }

  /** The loop's two counters. */
  method CountSlice(result: SliceResult, counted: nat, accepted: nat) returns (nowCounted: nat, nowAccepted: nat)
    ensures nowCounted == counted + (if result.counted == Yes then 1 else 0)
    ensures nowAccepted == accepted + (if Accepted(result) then 1 else 0)
  {
    nowCounted, nowAccepted := counted, accepted;
    if result.counted == Yes {
      nowCounted := nowCounted + 1;
      nowAccepted := nowAccepted + 1;
    } else if result.noSignal {
      nowAccepted := nowAccepted + 1;
    }
  }

  /** The end of a batch no slice stopped: the rollup is written either way. */
  method CloseBatch(passed: seq<SliceResult>, counted: nat, accepted: nat, target: nat, max: nat) returns (run: BatchRun)
    requires accepted <= target
    ensures run.summary == passed && run.attempted == |passed| && run.counted == counted && run.accepted == accepted
    ensures run.exitCode == if accepted < target then 4 else 0
    ensures run.stop == if accepted < target then TargetNotMet(counted, accepted, target, max) else NoStop
    ensures run.rollup.Some? && run.rollup.value.blocked == target - accepted && IsRollup(run.rollup.value, passed)
  {
    if accepted < target {
      var final := RollupOf(passed, target - accepted);
      run := BatchRun(4, passed, |passed|, counted, accepted, TargetNotMet(counted, accepted, target, max), Some(final));
    } else {
      run := BatchRun(0, passed, |passed|, counted, accepted, NoStop, Some(RollupOf(passed, 0)));
    }
  }

  /** Candidates wait for review in none of the attempts that pass. */
  ghost predicate NoneForReview(attempts: nat -> Attempted) {
    forall k :: attempts(k).Pass? ==> attempts(k).result.classification != PassReview
  }

  /** The batch loop, for any attempts. The exit for a candidate review is in the
      source, but nothing that passes can take it. */
  method RunAttempts(attempts: nat -> Attempted, startIndex: int, target: nat, max: nat) returns (run: BatchRun)
    requires 1 <= target <= max && NoneForReview(attempts)
    ensures TargetOpen(attempts, |run.summary|, target) && run.summary == ResultsOf(attempts, |run.summary|)
    ensures run.counted == CountIf(run.summary, IsCounted())
    ensures run.accepted == CountIf(run.summary, IsAccepted()) <= target
    ensures run.attempted <= max && run.exitCode in {0, 2, 4}
    ensures run.exitCode == 2 ==>
              && run.attempted == |run.summary| + 1 && run.rollup == None
              && attempts(|run.summary|) == Stop(run.stop)
    ensures run.exitCode != 2 ==> run.attempted == |run.summary|
    ensures run.exitCode == 0 <==> run.accepted == target
    ensures run.exitCode == 4 <==> run.attempted == |run.summary| == max && run.accepted < target
    ensures run.exitCode == 0 ==> run.stop == NoStop
    ensures run.exitCode == 4 ==> run.stop == TargetNotMet(run.counted, run.accepted, target, max)
    ensures run.exitCode != 2 ==> run.rollup.Some? && run.rollup.value.blocked == target - run.accepted
                                  && IsRollup(run.rollup.value, run.summary)
  {
    var passed: seq<SliceResult> := [];
    var counted, accepted, attempted := 0, 0, 0;
    var exitCode, stop := 0, NoStop;
    while attempted < max && accepted < target && exitCode == 0
      invariant attempted <= max && accepted <= target
      invariant TargetOpen(attempts, |passed|, target) && passed == ResultsOf(attempts, |passed|)
      invariant counted == CountIf(passed, IsCounted())
      invariant accepted == CountIf(passed, IsAccepted())
      invariant exitCode == 0 ==> attempted == |passed| && stop == NoStop
      invariant exitCode != 0 ==> exitCode == 2 && accepted < target && attempted == |passed| + 1
      invariant exitCode != 0 ==> attempts(|passed|) == Stop(stop)
      decreases max - attempted
    {
      var index := startIndex + attempted;
      var outcome := attempts(attempted);
      attempted := attempted + 1;
      match outcome
      case Stop(reason) =>
        exitCode, stop := 2, reason;
      case Pass(result) =>
        PassStep(attempts, |passed|, target);
        counted, accepted := CountSlice(result, counted, accepted);
        passed := passed + [result];
        if result.classification == PassReview {
          exitCode, stop := 3, CandidateReviewRequired(index);
        }
    }
    if exitCode != 0 {
      run := BatchRun(exitCode, passed, attempted, counted, accepted, stop, None);
    } else {
      run := CloseBatch(passed, counted, accepted, target, max);
    }
  }

  // ----- a run over slices -----

  /** The attempts of a batch whose `k`-th slice runs as `feed(k)`. */
  function AttemptsOf(feed: nat -> SliceRun, startIndex: int): nat -> Attempted {
    (k: nat) => AttemptOf(feed(k), startIndex + k)
  }

  lemma {:induction false} SlicesAreNeverReviewed(feed: nat -> SliceRun, startIndex: int)
    ensures NoneForReview(AttemptsOf(feed, startIndex))
  {
    var attempts := AttemptsOf(feed, startIndex);
    forall k | attempts(k).Pass? ensures attempts(k).result.classification != PassReview {
      PassingAttempt(feed(k), startIndex + k);
    }
  }

  /** A batch over any slices. */
  method RunBatch(feed: nat -> SliceRun, startIndex: int, target: nat, max: nat) returns (run: BatchRun)
    requires 1 <= target <= max
    ensures var attempts := AttemptsOf(feed, startIndex);
            && TargetOpen(attempts, |run.summary|, target) && run.summary == ResultsOf(attempts, |run.summary|)
            && (run.exitCode == 2 ==> attempts(|run.summary|) == Stop(run.stop))
    ensures run.counted == CountIf(run.summary, IsCounted())
    ensures run.accepted == CountIf(run.summary, IsAccepted()) <= target
    ensures run.attempted <= max && run.exitCode in {0, 2, 4}
    ensures run.attempted == |run.summary| + (if run.exitCode == 2 then 1 else 0)
    ensures run.exitCode == 0 <==> run.accepted == target
    ensures run.exitCode == 4 <==> run.attempted == |run.summary| == max && run.accepted < target
    ensures run.exitCode == 0 ==> run.stop == NoStop
    ensures run.exitCode == 4 ==> run.stop == TargetNotMet(run.counted, run.accepted, target, max)
    ensures run.exitCode == 2 <==> run.rollup == None
    ensures run.exitCode != 2 ==> run.rollup.value.blocked == target - run.accepted
                                  && IsRollup(run.rollup.value, run.summary)
  {
    SlicesAreNeverReviewed(feed, startIndex);
    run := RunAttempts(AttemptsOf(feed, startIndex), startIndex, target, max);
  }

  lemma {:induction false} SumZero(results: seq<SliceResult>, f: SliceResult -> nat)
    requires forall k :: 0 <= k < |results| ==> f(results[k]) == 0
    ensures Sum(results, f) == 0
    decreases |results|
  {
    if results != [] {
      SumZero(results[..|results| - 1], f);
    }
  }

  lemma {:induction false} CountZero(results: seq<SliceResult>, f: SliceResult -> bool)
    requires forall k :: 0 <= k < |results| ==> !f(results[k])
    ensures CountIf(results, f) == 0
    decreases |results|
  {
    if results != [] {
      CountZero(results[..|results| - 1], f);
    }
  }

  lemma {:induction false} CleanTotals(results: seq<SliceResult>)
    requires forall k :: 0 <= k < |results| ==> Clean(results[k])
    ensures CountIf(results, IsAccepted()) + CountIf(results, IsQuarantined()) == |results|
    ensures CountIf(results, IsCounted()) <= CountIf(results, IsAccepted())
    ensures Sum(results, SequenceGaps()) == Sum(results, HashMismatches()) == 0
    ensures Sum(results, Backpressures()) == Sum(results, Unavailables()) == 0
    ensures Sum(results, R2Failures()) == Sum(results, Candidates()) == 0
    ensures CountIf(results, IsInconsistent()) == 0
  {
    AcceptedAndQuarantined(results);
    CountedIsAccepted(results);
    SumZero(results, SequenceGaps());
    SumZero(results, HashMismatches());
    SumZero(results, Backpressures());
    SumZero(results, Unavailables());
    SumZero(results, R2Failures());
    SumZero(results, Candidates());
    CountZero(results, IsInconsistent());
  }

  /** The totals of a batch that was not stopped: every attempt was accepted or
      quarantined, the rollup counts exactly these, and nothing that was let
      through carries an integrity error, an R2 failure, an inconsistent artifact
      or a candidate. */
  lemma {:induction false} BatchTotals(feed: nat -> SliceRun, startIndex: int, n: nat, r: Rollup)
    requires AllPass(AttemptsOf(feed, startIndex), n) && IsRollup(r, ResultsOf(AttemptsOf(feed, startIndex), n))
    ensures var results := ResultsOf(AttemptsOf(feed, startIndex), n);
            && r.total == n == CountIf(results, IsAccepted()) + r.quarantined
            && r.counted == CountIf(results, IsCounted()) <= n - r.quarantined
            && r.sequenceGaps == r.hashMismatches == r.backpressure == r.unavailable == 0
            && r.r2Failures == r.artifactFailures == r.candidates == 0
  {
    var results := ResultsOf(AttemptsOf(feed, startIndex), n);
    forall k | 0 <= k < n ensures Clean(results[k]) {
      PassingAttempt(feed(k), startIndex + k);
    }
    CleanTotals(results);
  }

  lemma {:induction false} CountedIsAccepted(results: seq<SliceResult>)
    ensures CountIf(results, IsCounted()) <= CountIf(results, IsAccepted())
    decreases |results|
  {
    if results != [] {
      CountedIsAccepted(results[..|results| - 1]);
    }
  }
}
