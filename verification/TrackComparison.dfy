/** The best row per launch and the comparison of the two tracks
    (scripts/strategy_pipeline/dual_strategy_tracks.py: best_by_horizon,
    comparison_rows). */
module TrackComparison {
  import opened Common
  import opened TrackScores

  datatype Key = Key(mint: string, sliceId: string, segmentId: string)

  datatype Scored = Scored(key: Key, horizon: int, decision: Decision)

  predicate IsReview(row: Scored) {
    row.decision == Review
  }

  /** The tuple comparison: review first, then horizon. */
  predicate Better(a: Scored, b: Scored) {
    (IsReview(a) && !IsReview(b)) || (IsReview(a) == IsReview(b) && a.horizon > b.horizon)
  }

  /** Row `i` is a review row if its key has one, has the longest horizon among the rows
      of its key that are review rows as it is, or are not, and is the first of these. */
  predicate FirstBest(rows: seq<Scored>, i: nat) {
    && i < |rows|
    && forall j :: 0 <= j < |rows| && rows[j].key == rows[i].key ==>
         && (rows[j].decision == Review ==> rows[i].decision == Review)
         && ((rows[j].decision == Review <==> rows[i].decision == Review) ==>
               rows[j].horizon <= rows[i].horizon && (j < i ==> rows[j].horizon < rows[i].horizon))
  }

  predicate IsBest(rows: seq<Scored>, key: Key, row: Scored) {
    exists i :: 0 <= i < |rows| && FirstBest(rows, i) && rows[i] == row && row.key == key
  }

  function KeysOf(rows: seq<Scored>): set<Key> {
    set i | 0 <= i < |rows| :: rows[i].key
  }

  lemma {:induction false} KeysOfStep(rows: seq<Scored>, n: nat)
    requires n < |rows|
    ensures KeysOf(rows[..n + 1]) == KeysOf(rows[..n]) + {rows[n].key}
  {
    assert forall i :: 0 <= i < n ==> rows[..n + 1][i] == rows[..n][i];
    assert rows[..n + 1][n] == rows[n];
    forall i | 0 <= i < n ensures rows[..n][i].key in KeysOf(rows[..n + 1]) {
      assert rows[..n + 1][i] == rows[..n][i];
    }
  }

  /** The best row of a key after one more row. */
  lemma {:induction false} BestStep(rows: seq<Scored>, n: nat, key: Key, best: Scored)
    requires n < |rows| && IsBest(rows[..n], key, best)
    ensures IsBest(rows[..n + 1], key, if rows[n].key == key && Better(rows[n], best) then rows[n] else best)
  {
    var i :| 0 <= i < n && FirstBest(rows[..n], i) && rows[..n][i] == best && best.key == key;
    var longer := rows[..n + 1];
    assert forall j :: 0 <= j < n ==> longer[j] == rows[..n][j];
    assert longer[n] == rows[n];
    if rows[n].key == key && Better(rows[n], best) {
      assert FirstBest(longer, n);
    } else {
      assert FirstBest(longer, i);
    }
  }

  lemma {:induction false} FirstRowIsBest(rows: seq<Scored>, n: nat)
    requires n < |rows| && rows[n].key !in KeysOf(rows[..n])
    ensures IsBest(rows[..n + 1], rows[n].key, rows[n])
  {
    var longer := rows[..n + 1];
    forall j | 0 <= j < n ensures longer[j].key != rows[n].key {
      assert longer[j] == rows[..n][j];
      assert rows[..n][j].key in KeysOf(rows[..n]);
    }
    assert FirstBest(longer, n);
  }

  /** The kept rows are the best of the first `n`. */
  predicate Keeps(best: map<Key, Scored>, rows: seq<Scored>) {
    && best.Keys == KeysOf(rows)
    && forall key :: key in best ==> IsBest(rows, key, best[key])
  }

  /** A row that is new or better replaces the kept one. */
  lemma {:induction false} TakeRow(best: map<Key, Scored>, rows: seq<Scored>, n: nat)
    requires n < |rows| && Keeps(best, rows[..n])
    requires rows[n].key !in best || Better(rows[n], best[rows[n].key])
    ensures Keeps(best[rows[n].key := rows[n]], rows[..n + 1])
  {
    var next := best[rows[n].key := rows[n]];
    KeysOfStep(rows, n);
    forall key | key in next ensures IsBest(rows[..n + 1], key, next[key]) {
      if key in best {
        BestStep(rows, n, key, best[key]);
      } else {
        FirstRowIsBest(rows, n);
      }
    }
  }

  lemma {:induction false} LeaveRow(best: map<Key, Scored>, rows: seq<Scored>, n: nat)
    requires n < |rows| && Keeps(best, rows[..n])
    requires rows[n].key in best && !Better(rows[n], best[rows[n].key])
    ensures Keeps(best, rows[..n + 1])
  {
    KeysOfStep(rows, n);
    forall key | key in best ensures IsBest(rows[..n + 1], key, best[key]) {
      BestStep(rows, n, key, best[key]);
    }
  }

  /** The kept rows after the whole list. */
  function BestOf(rows: seq<Scored>): map<Key, Scored> {
    if rows == [] then map[]
    else
      var best, row := BestOf(rows[..|rows| - 1]), rows[|rows| - 1];
      if row.key !in best || Better(row, best[row.key]) then best[row.key := row] else best
  }

  lemma {:induction false} BestOfKeeps(rows: seq<Scored>)
    ensures Keeps(BestOf(rows), rows)
    decreases |rows|
  {
    if rows != [] {
      var n := |rows| - 1;
      BestOfKeeps(rows[..n]);
      assert rows[..n + 1] == rows;
      var best := BestOf(rows[..n]);
      if rows[n].key !in best || Better(rows[n], best[rows[n].key]) {
        TakeRow(best, rows, n);
      } else {
        LeaveRow(best, rows, n);
      }
    }
  }

  /** A key has one best row. */
  lemma {:induction false} BestRowIsUnique(rows: seq<Scored>, key: Key, a: Scored, b: Scored)
    requires IsBest(rows, key, a) && IsBest(rows, key, b)
    ensures a == b
  {
    var i :| 0 <= i < |rows| && FirstBest(rows, i) && rows[i] == a && a.key == key;
    var j :| 0 <= j < |rows| && FirstBest(rows, j) && rows[j] == b && b.key == key;
  }

  /** Only one map keeps the best row of every key. */
  lemma {:induction false} KeptMapIsUnique(rows: seq<Scored>, a: map<Key, Scored>, b: map<Key, Scored>)
    requires Keeps(a, rows) && Keeps(b, rows)
    ensures a == b
  {
    forall key | key in a ensures a[key] == b[key] {
      BestRowIsUnique(rows, key, a[key], b[key]);
    }
  }

  /** The fold that keeps one row per key; no other map keeps the best ones. */
  method BestByHorizon(rows: seq<Scored>) returns (best: map<Key, Scored>)
    ensures best.Keys == KeysOf(rows)
    ensures forall key :: key in best ==> IsBest(rows, key, best[key])
    ensures forall other :: Keeps(other, rows) ==> other == best
  {
    best := map[];
    for n := 0 to |rows|
      invariant best == BestOf(rows[..n])
    {
      var row := rows[n];
      assert rows[..n + 1][..n] == rows[..n];
      if row.key !in best {
        best := best[row.key := row];
      } else if Better(row, best[row.key]) {
        best := best[row.key := row];
      }
    }
    assert rows[..|rows|] == rows;
    BestOfKeeps(rows);
    forall other | Keeps(other, rows) ensures other == best {
      KeptMapIsUnique(rows, other, best);
    }
  }

  predicate HasReview(rows: seq<Scored>, key: Key) {
    exists i :: 0 <= i < |rows| && rows[i].key == key && rows[i].decision == Review
  }

  /** A key's best row is a review row exactly when some row of the key is, and it
      then has the longest horizon of the key's review rows. */
  lemma {:induction false} BestRowTellsReview(rows: seq<Scored>, key: Key, best: Scored)
    requires IsBest(rows, key, best)
    ensures best.decision == Review <==> HasReview(rows, key)
    ensures forall j :: 0 <= j < |rows| && rows[j].key == key && rows[j].decision == Review ==>
              best.decision == Review && rows[j].horizon <= best.horizon
  {
    var i :| 0 <= i < |rows| && FirstBest(rows, i) && rows[i] == best && best.key == key;
  }

  // ----- the comparison table -----

  datatype Overlap = Both | EarlyOnly | SurvivorOnly | Neither

  datatype Comparison = Comparison(key: Key, early: Option<Scored>, survivor: Option<Scored>, overlap: Overlap)

  function OverlapOf(early: bool, survivor: bool): Overlap {
    if early && survivor then Both else if early then EarlyOnly else if survivor then SurvivorOnly else Neither
  }

  function Find(best: map<Key, Scored>, key: Key): Option<Scored> {
    if key in best then Some(best[key]) else None
  }

  function ComparisonKeys(table: seq<Comparison>): set<Key> {
    set i | 0 <= i < |table| :: table[i].key
  }

  predicate DistinctKeys(table: seq<Comparison>) {
    forall i, j :: 0 <= i < j < |table| ==> table[i].key != table[j].key
  }

  /** What one line of the table says about its key. */
  predicate TellsTruth(line: Comparison, early: seq<Scored>, survivor: seq<Scored>) {
    && (line.overlap == Both <==> HasReview(early, line.key) && HasReview(survivor, line.key))
    && (line.overlap == EarlyOnly <==> HasReview(early, line.key) && !HasReview(survivor, line.key))
    && (line.overlap == SurvivorOnly <==> !HasReview(early, line.key) && HasReview(survivor, line.key))
    && (line.early.Some? <==> line.key in KeysOf(early)) && (line.survivor.Some? <==> line.key in KeysOf(survivor))
    && (line.early.Some? ==> IsBest(early, line.key, line.early.value))
    && (line.survivor.Some? ==> IsBest(survivor, line.key, line.survivor.value))
  }

  lemma {:induction false} NoRowsNoReview(rows: seq<Scored>, key: Key)
    requires key !in KeysOf(rows)
    ensures !HasReview(rows, key)
  {
    forall i | 0 <= i < |rows| ensures rows[i].key != key {
      assert rows[i].key in KeysOf(rows);
    }
  }

  /** One line of the table. */
  method CompareKey(key: Key, earlyBest: map<Key, Scored>, survivorBest: map<Key, Scored>,
                    ghost early: seq<Scored>, ghost survivor: seq<Scored>)
    returns (line: Comparison)
    requires earlyBest.Keys == KeysOf(early) && survivorBest.Keys == KeysOf(survivor)
    requires forall k :: k in earlyBest ==> IsBest(early, k, earlyBest[k])
    requires forall k :: k in survivorBest ==> IsBest(survivor, k, survivorBest[k])
    ensures line.key == key && TellsTruth(line, early, survivor)
  {
    var e, s := Find(earlyBest, key), Find(survivorBest, key);
    var earlyReview := e.Some? && e.value.decision == Review;
    var survivorReview := s.Some? && s.value.decision == Review;
    line := Comparison(key, e, s, OverlapOf(earlyReview, survivorReview));
    if e.Some? {
      BestRowTellsReview(early, key, e.value);
    } else {
      NoRowsNoReview(early, key);
    }
    if s.Some? {
      BestRowTellsReview(survivor, key, s.value);
    } else {
      NoRowsNoReview(survivor, key);
    }
  }

  /** The comparison of the two tracks: one line per key of either track. A line's
      overlap speaks of all rows of the key, although only the best were compared. */
  method ComparisonRows(early: seq<Scored>, survivor: seq<Scored>) returns (table: seq<Comparison>)
    ensures DistinctKeys(table)
    ensures ComparisonKeys(table) == KeysOf(early) + KeysOf(survivor)
    ensures forall i :: 0 <= i < |table| ==> TellsTruth(table[i], early, survivor)
  {
    var earlyBest := BestByHorizon(early);
    var survivorBest := BestByHorizon(survivor);
    table := [];
    var all := earlyBest.Keys + survivorBest.Keys;
    var left := all;
    while left != {}
      invariant left <= all
      invariant DistinctKeys(table) && ComparisonKeys(table) == all - left
      invariant forall i :: 0 <= i < |table| ==> TellsTruth(table[i], early, survivor)
    {
      var key :| key in left;
      left := left - {key};
      var line := CompareKey(key, earlyBest, survivorBest, early, survivor);
      TableStep(table, line);
      table := table + [line];
    }
  }

  lemma {:induction false} TableStep(table: seq<Comparison>, line: Comparison)
    requires DistinctKeys(table) && line.key !in ComparisonKeys(table)
    ensures DistinctKeys(table + [line])
    ensures ComparisonKeys(table + [line]) == ComparisonKeys(table) + {line.key}
  {
    var longer := table + [line];
    forall i | 0 <= i < |table| ensures longer[i].key != line.key && table[i].key in ComparisonKeys(longer) {
      assert table[i].key in ComparisonKeys(table);
      assert longer[i] == table[i];
    }
    assert longer[|table|] == line;
  }

  // ----- overlap counts -----

  function CountOverlap(table: seq<Comparison>, o: Overlap): nat {
    if table == [] then 0
    else CountOverlap(table[..|table| - 1], o) + (if table[|table| - 1].overlap == o then 1 else 0)
  }

  function LinesWith(table: seq<Comparison>, o: Overlap): set<nat> {
    set i: nat | i < |table| && table[i].overlap == o
  }

  lemma {:induction false} LinesStep(table: seq<Comparison>, o: Overlap)
    requires table != []
    ensures |LinesWith(table, o)| == |LinesWith(table[..|table| - 1], o)| + if table[|table| - 1].overlap == o then 1 else 0
  {
    var n := |table| - 1;
    forall i: nat | i < n ensures table[..n][i] == table[i] {
    }
    assert LinesWith(table, o) == LinesWith(table[..n], o) + (if table[n].overlap == o then {n} else {});
  }

  /** A count is the number of lines with that overlap. */
  lemma {:induction false} CountOverlapExactly(table: seq<Comparison>, o: Overlap)
    ensures CountOverlap(table, o) == |LinesWith(table, o)|
    decreases |table|
  {
    if table == [] {
      assert LinesWith(table, o) == {};
    } else {
      CountOverlapExactly(table[..|table| - 1], o);
      LinesStep(table, o);
    }
  }

  lemma {:induction false} LinesAreKeys(table: seq<Comparison>)
    requires DistinctKeys(table)
    ensures |table| == |ComparisonKeys(table)|
    decreases |table|
  {
    if table != [] {
      var n := |table| - 1;
      var front := table[..n];
      assert table == front + [table[n]];
      forall i | 0 <= i < n ensures front[i].key != table[n].key {
        assert table[i].key != table[n].key;
      }
      LinesAreKeys(front);
      TableStep(front, table[n]);
    }
  }

  lemma {:induction false} CountsAddUp(table: seq<Comparison>)
    ensures CountOverlap(table, Both) + CountOverlap(table, EarlyOnly)
          + CountOverlap(table, SurvivorOnly) + CountOverlap(table, Neither) == |table|
    decreases |table|
  {
    if table != [] {
      CountsAddUp(table[..|table| - 1]);
    }
  }

  /** The four overlap counts sum to the number of distinct keys of both tracks. */
  lemma {:induction false} OverlapCountsCoverKeys(table: seq<Comparison>, early: seq<Scored>, survivor: seq<Scored>)
    requires DistinctKeys(table) && ComparisonKeys(table) == KeysOf(early) + KeysOf(survivor)
    ensures CountOverlap(table, Both) + CountOverlap(table, EarlyOnly)
          + CountOverlap(table, SurvivorOnly) + CountOverlap(table, Neither) == |KeysOf(early) + KeysOf(survivor)|
  {
    CountsAddUp(table);
    LinesAreKeys(table);
  }
}
