/** What the mission runner does, stated on the polls it gets
    (scripts/run_clean_24h_r2_streaming_mission.py: run_command). */
module MissionOutcome {
  import opened Ledger
  import opened LedgerTheorems
  import opened Mission

  /** A row reports a candidate or a replay candidate. */
  predicate SomethingToReview(rows: seq<Row>) {
    exists i :: 0 <= i < |rows| && (rows[i].candidates > 0 || rows[i].replays > 0)
  }

  /** The collector is blocked or being recovered, or it failed. */
  predicate AsksForHelp(p: Poll) {
    p.state in {Blocked, NeedsRecovery, Recovered} || p.returncode != 0
  }

  function NameOf(p: Poll): string {
    if p.blocker == "" then "unknown_blocker" else p.blocker
  }

  /** The polls before `n` that asked for help. */
  function Helped(polls: seq<Poll>, n: nat): set<nat>
    requires n <= |polls|
  {
    set k: nat | k < n && AsksForHelp(polls[k])
  }

  /** Those that asked for it under one blocker. */
  function HelpedUnder(polls: seq<Poll>, n: nat, blocker: string): set<nat>
    requires n <= |polls|
  {
    set k: nat | k < n && AsksForHelp(polls[k]) && NameOf(polls[k]) == blocker
  }

  lemma {:induction false} SumIsPositive(rows: seq<Row>, f: Row -> nat)
    ensures SumOf(rows, f) > 0 <==> exists i :: 0 <= i < |rows| && f(rows[i]) > 0
    decreases |rows|
  {
    if rows != [] {
      var n := |rows| - 1;
      SumIsPositive(rows[..n], f);
      assert forall i :: 0 <= i < n ==> rows[..n][i] == rows[i];
    }
  }

  lemma {:induction false} TerminalExactly(p: Poll)
    ensures ReviewTriggered(p) <==> SomethingToReview(p.rows)
    ensures TargetReached(p) <==> |MissionRows(p.rows)| >= 96
  {
    SumIsPositive(p.rows, CandidatesOf());
    SumIsPositive(p.rows, ReplaysOf());
    MissionCountExactly(p.rows);
  }

  lemma {:induction false} OneMoreTime(met: seq<string>, name: string, blocker: string)
    ensures Times(met + [name], blocker) == Times(met, blocker) + if name == blocker then 1 else 0
  {
    assert multiset(met + [name]) == multiset(met) + multiset{name};
  }

  lemma {:induction false} HelpedUnderStep(polls: seq<Poll>, n: nat, blocker: string)
    requires 0 < n <= |polls|
    ensures |HelpedUnder(polls, n, blocker)| == |HelpedUnder(polls, n - 1, blocker)|
              + if AsksForHelp(polls[n - 1]) && NameOf(polls[n - 1]) == blocker then 1 else 0
  {
    assert HelpedUnder(polls, n, blocker) == HelpedUnder(polls, n - 1, blocker)
        + (if AsksForHelp(polls[n - 1]) && NameOf(polls[n - 1]) == blocker then {n - 1} else {});
  }

  lemma {:induction false} MetStep(polls: seq<Poll>, n: nat)
    requires 0 < n <= |polls|
    ensures Met(polls, n) == if AsksForHelp(polls[n - 1]) then Met(polls, n - 1) + [NameOf(polls[n - 1])] else Met(polls, n - 1)
  {
  }

  lemma {:induction false} MetUnder(polls: seq<Poll>, n: nat, blocker: string)
    requires n <= |polls|
    ensures Times(Met(polls, n), blocker) == |HelpedUnder(polls, n, blocker)|
    decreases n
  {
    if n == 0 {
      assert HelpedUnder(polls, n, blocker) == {};
    } else {
      MetUnder(polls, n - 1, blocker);
      MetStep(polls, n);
      HelpedUnderStep(polls, n, blocker);
      OneMoreTime(Met(polls, n - 1), NameOf(polls[n - 1]), blocker);
    }
  }

  lemma {:induction false} MetLength(polls: seq<Poll>, n: nat)
    requires n <= |polls|
    ensures |Met(polls, n)| == |Helped(polls, n)|
    decreases n
  {
    if n == 0 {
      assert Helped(polls, n) == {};
    } else {
      MetLength(polls, n - 1);
      MetStep(polls, n);
      assert Helped(polls, n) == Helped(polls, n - 1) + (if AsksForHelp(polls[n - 1]) then {n - 1} else {});
    }
  }

  /** The recoveries are those of the polls that asked for help, in their order: poll
      `k` made the one that follows those before it. */
  lemma {:induction false} MetExactly(polls: seq<Poll>, n: nat, k: nat)
    requires k < n <= |polls| && AsksForHelp(polls[k])
    ensures |Met(polls, n)| == |Helped(polls, n)| > |Helped(polls, k)|
    ensures Met(polls, n)[|Helped(polls, k)|] == NameOf(polls[k])
    decreases n
  {
    MetLength(polls, n);
    MetStep(polls, n);
    if k == n - 1 {
      MetLength(polls, k);
    } else {
      MetExactly(polls, n - 1, k);
    }
  }

  /** The runner goes past a poll exactly when its ledger has nothing to review and
      less than 96 successful slices, and a blocker it may report was met less than
      `limit` times before. */
  lemma {:induction false} GoesOnExactly(polls: seq<Poll>, n: nat, limit: nat)
    requires n < |polls|
    ensures GoesOn(polls, n, limit) <==>
              && !SomethingToReview(polls[n].rows) && |MissionRows(polls[n].rows)| < 96
              && (AsksForHelp(polls[n]) ==> |HelpedUnder(polls, n, NameOf(polls[n]))| < limit)
  {
    TerminalExactly(polls[n]);
    MetUnder(polls, n, NameOf(polls[n]));
  }

  lemma {:induction false} ExitExactly(p: Poll)
    ensures ExitAt(p) == if SomethingToReview(p.rows) then 3 else if |MissionRows(p.rows)| >= 96 then 0 else 2
  {
    TerminalExactly(p);
  }
}
