/** The mission runner's recovery loop
    (scripts/run_clean_24h_r2_streaming_mission.py: run_command). */
module Mission {
  import opened Common
  import opened Ledger

  const TARGET_SUCCESSFUL: nat := 96

  datatype State = Running | Blocked | NeedsRecovery | Recovered | OtherState

  /** What the background collector answers when polled, with the ledger at that
      moment. An empty `blocker` is a missing one. */
  datatype Poll = Poll(returncode: int, state: State, blocker: string, rows: seq<Row>)

  function SumOf(rows: seq<Row>, f: Row -> nat): nat {
    if rows == [] then 0 else SumOf(rows[..|rows| - 1], f) + f(rows[|rows| - 1])
  }

  function CandidatesOf(): Row -> nat { (row: Row) => row.candidates }
  function ReplaysOf(): Row -> nat { (row: Row) => row.replays }

  predicate ReviewTriggered(p: Poll) {
    SumOf(p.rows, CandidatesOf()) > 0 || SumOf(p.rows, ReplaysOf()) > 0
  }

  predicate TargetReached(p: Poll) {
    CountRows(p.rows, Successful()) >= TARGET_SUCCESSFUL
  }

  predicate Terminal(p: Poll) {
    ReviewTriggered(p) || TargetReached(p)
  }

  predicate NeedsHelp(p: Poll) {
    p.state.Blocked? || p.state.NeedsRecovery? || p.state.Recovered? || p.returncode != 0
  }

  function BlockerOf(p: Poll): string {
    if p.blocker != "" then p.blocker else "unknown_blocker"
  }

  /** The blockers met in the first `n` polls, in order. */
  function Met(polls: seq<Poll>, n: nat): seq<string>
    requires n <= |polls|
  {
    if n == 0 then []
    else Met(polls, n - 1) + (if NeedsHelp(polls[n - 1]) then [BlockerOf(polls[n - 1])] else [])
  }

  function Times(met: seq<string>, blocker: string): nat {
    multiset(met)[blocker]
  }

  /** The runner goes past poll `n`: nothing terminal, and a blocker that is met
      has been met less than `limit` times before. */
  predicate GoesOn(polls: seq<Poll>, n: nat, limit: nat)
    requires n < |polls|
  {
    !Terminal(polls[n]) && (NeedsHelp(polls[n]) ==> Times(Met(polls, n), BlockerOf(polls[n])) < limit)
  }

  function ExitAt(p: Poll): nat {
    if !Terminal(p) then 2 else if ReviewTriggered(p) then 3 else 0
  }

  /** `attempts` counts the blockers of `met`. */
  ghost predicate Counts(attempts: map<string, nat>, met: seq<string>) {
    forall b :: Times(met, b) == if b in attempts then attempts[b] else 0
  }

  lemma {:induction false} CountsStep(attempts: map<string, nat>, met: seq<string>, blocker: string)
    requires Counts(attempts, met)
    ensures Counts(attempts[blocker := Times(met, blocker) + 1], met + [blocker])
  {
    assert multiset(met + [blocker]) == multiset(met) + multiset{blocker};
  }

  ghost predicate Within(met: seq<string>, limit: nat) {
    forall b :: Times(met, b) <= limit
  }

  lemma {:induction false} WithinStep(met: seq<string>, blocker: string, limit: nat)
    requires Within(met, limit) && Times(met, blocker) < limit
    ensures Within(met + [blocker], limit)
  {
    forall b ensures Times(met + [blocker], b) <= limit {
      assert multiset(met + [blocker]) == multiset(met) + multiset{blocker};
      assert Times(met, b) <= limit;
    }
  }

  datatype Answer = Exit(code: nat) | Recover | Wait

  /** One turn: `before` is how often this poll's blocker was recovered already. */
  method AnswerPoll(p: Poll, before: nat, limit: nat) returns (answer: Answer)
    ensures answer.Exit? <==> Terminal(p) || (NeedsHelp(p) && before >= limit)
    ensures answer.Exit? ==> answer.code == ExitAt(p)
    ensures answer.Recover? <==> !Terminal(p) && NeedsHelp(p) && before < limit
  {
    if ReviewTriggered(p) {
      return Exit(3);
    }
    if TargetReached(p) {
      return Exit(0);
    }
    if NeedsHelp(p) {
      return if before + 1 > limit then Exit(2) else Recover;
    }
    answer := Wait;
  }

  /** One more recovery for a blocker that has had fewer than `limit`. */
  method RecordRecovery(attempts: map<string, nat>, met: seq<string>, blocker: string, ghost limit: nat)
    returns (more: map<string, nat>, longer: seq<string>)
    requires Counts(attempts, met) && Within(met, limit) && Times(met, blocker) < limit
    ensures longer == met + [blocker] && Counts(more, longer) && Within(longer, limit)
  {
    CountsStep(attempts, met, blocker);
    WithinStep(met, blocker, limit);
    more := attempts[blocker := (if blocker in attempts then attempts[blocker] else 0) + 1];
    longer := met + [blocker];
  }

  /** One turn of the loop, with its books. */
  method TakePoll(p: Poll, attempts: map<string, nat>, met: seq<string>, limit: nat)
    returns (answer: Answer, more: map<string, nat>, longer: seq<string>)
    requires Counts(attempts, met) && Within(met, limit)
    ensures answer.Exit? <==> Terminal(p) || (NeedsHelp(p) && Times(met, BlockerOf(p)) >= limit)
    ensures answer.Exit? ==> answer.code == ExitAt(p) && longer == met
    ensures !answer.Exit? ==> longer == met + (if NeedsHelp(p) then [BlockerOf(p)] else [])
    ensures Counts(more, longer) && Within(longer, limit)
  {
    var blocker := BlockerOf(p);
    var before := if blocker in attempts then attempts[blocker] else 0;
    assert before == Times(met, blocker);
    more, longer := attempts, met;
    answer := AnswerPoll(p, before, limit);
    if answer.Recover? {
      more, longer := RecordRecovery(attempts, met, blocker, limit);
    }
  }

  /** The run command. `start` is the exit code of the start command, None when the
      mission was already started; then the polling loop on any sequence of answers.
      `exit` is None while every answer so far lets it go on; `recovered` lists the
      recoveries by blocker. */
  method RunMission(start: Option<int>, polls: seq<Poll>, limit: nat)
    returns (exit: Option<int>, recovered: seq<string>, n: nat)
    ensures start.Some? && start.value != 0 ==> exit == start && n == 0
    ensures n <= |polls| && forall k :: 0 <= k < n ==> GoesOn(polls, k, limit)
    ensures start.None? || start.value == 0 ==> (exit.None? <==> n == |polls|)
    ensures (start.None? || start.value == 0) && exit.Some? ==> !GoesOn(polls, n, limit) && exit.value == ExitAt(polls[n])
    ensures recovered == Met(polls, n)
    ensures Within(recovered, limit)
  {
    var attempts: map<string, nat> := map[];
    recovered, exit, n := [], None, 0;
    if start.Some? && start.value != 0 {
      exit := start;
      return;
    }
    while n < |polls|
      invariant 0 <= n <= |polls|
      invariant forall j :: 0 <= j < n ==> GoesOn(polls, j, limit)
      invariant recovered == Met(polls, n)
      invariant Counts(attempts, recovered)
      invariant Within(recovered, limit)
    {
      var answer;
      answer, attempts, recovered := TakePoll(polls[n], attempts, recovered, limit);
      if answer.Exit? {
        exit := Some(answer.code);
        return;
      }
      n := n + 1;
    }
  }

  lemma {:induction false} SizeBound(m: multiset<string>, kinds: set<string>, limit: nat)
    requires forall b :: b in m ==> b in kinds && m[b] <= limit
    ensures |m| <= limit * |kinds|
    decreases |kinds|
  {
    if kinds == {} {
      assert m == multiset{};
    } else {
      var b :| b in kinds;
      SizeBound(m[b := 0], kinds - {b}, limit);
      assert m[b] <= limit;
      assert |m| == |m[b := 0]| + m[b];
      assert limit * |kinds| == limit * |kinds - {b}| + limit;
    }
  }

  /** All recoveries of a mission together: at most `limit` for each distinct
      blocker it ever met. */
  lemma {:induction false} RecoveriesAreBounded(recovered: seq<string>, limit: nat)
    requires Within(recovered, limit)
    ensures |recovered| <= limit * |set b | b in recovered|
  {
    var kinds := set b | b in recovered;
    forall b | b in multiset(recovered) ensures b in kinds && multiset(recovered)[b] <= limit {
      assert Times(recovered, b) <= limit;
    }
    SizeBound(multiset(recovered), kinds, limit);
  }
}
