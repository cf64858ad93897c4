/** The mission, the collector's worker and the batch supervisor together. */
module MissionTheorems {
  import opened BatchSupervisor
  import opened Ledger
  import opened Collector
  import opened CollectorTheorems
  import opened Mission

  /** When both readers count the same number, they count the same rows. */
  lemma {:induction false} SameCountSameRows(rows: seq<Row>)
    requires CountRows(rows, Successful()) == CountRows(rows, CountsAsSuccess())
    ensures forall i :: 0 <= i < |rows| ==> (IsSuccessfulSlice(rows[i]) <==> RowCountsAsSuccess(rows[i]))
    decreases |rows|
  {
    if rows != [] {
      var n := |rows| - 1;
      MissionNeverExceedsCollector(rows[..n]);
      if IsSuccessfulSlice(rows[n]) {
        SuccessfulCounts(rows[n]);
      }
      SameCountSameRows(rows[..n]);
      forall i | 0 <= i < n ensures IsSuccessfulSlice(rows[i]) <==> RowCountsAsSuccess(rows[i]) {
        assert rows[..n][i] == rows[i];
      }
    }
  }

  lemma {:induction false} NoReplays(rows: seq<Row>, k: nat)
    requires SumOf(rows, ReplaysOf()) == 0 && k < |rows|
    ensures rows[k].replays == 0
    decreases |rows|
  {
    if k < |rows| - 1 {
      NoReplays(rows[..|rows| - 1], k);
    }
  }

  lemma {:induction false} MissionCounts(env: nat -> Tick, p: Poll, first: nat)
    requires Grew(env, p.rows, first) && first < |p.rows| && ExitAt(p) == 0
    ensures CountRows(p.rows, Successful()) == CountRows(p.rows, CountsAsSuccess()) == TARGET_SUCCESSFUL
  {
    GrewKeepsShape(env, p.rows[..first], p.rows);
    MissionNeverExceedsCollector(p.rows);
  }

  /** What the mission's two other tests leave: no replay candidate, and every chunk
      of a successful row verified. */
  lemma {:induction false} RowsOfSuccess(p: Poll)
    requires ExitAt(p) == 0
    ensures forall k :: 0 <= k < |p.rows| ==> p.rows[k].replays == 0
    ensures forall k :: 0 <= k < |p.rows| && IsSuccessfulSlice(p.rows[k]) ==> p.rows[k].unverifiedChunks == 0
  {
    forall k | 0 <= k < |p.rows| ensures p.rows[k].replays == 0 {
      NoReplays(p.rows, k);
    }
  }

  /** A mission that ends with exit 0 over a ledger to which a worker has added rows
      behind the first `first`: exactly 96 rows are successful, the collector counts
      the very same ones, every row the worker added is a passed slice of the real
      supervisor and, when it is successful, an accepted one with every chunk
      verified. Row `first + k` stands for any added row, `i` for any row. */
  lemma {:induction false} MissionSuccess(env: nat -> Tick, slices: nat -> SliceRun, p: Poll, first: nat, k: nat, i: nat)
    requires forall j :: env(j).outcome == OutcomeOf(slices(j))
    requires Grew(env, p.rows, first) && ExitAt(p) == 0 && first + k < |p.rows| && i < |p.rows|
    ensures CountRows(p.rows, Successful()) == CountRows(p.rows, CountsAsSuccess()) == TARGET_SUCCESSFUL
    ensures SliceBehind(p.rows[first + k], slices(k))
    ensures IsSuccessfulSlice(p.rows[i]) <==> RowCountsAsSuccess(p.rows[i])
    ensures p.rows[i].replays == 0 && (IsSuccessfulSlice(p.rows[i]) ==> p.rows[i].unverifiedChunks == 0)
  {
    MissionCounts(env, p, first);
    SameCountSameRows(p.rows);
    RowsOfSuccess(p);
    WorkerLedgerIsClean(env, slices, p.rows, first, k);
  }
}
