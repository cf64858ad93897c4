/** The walk-forward splitter and its validator (scripts/strategy/splits.py). */
module ChronologicalSplits {
  import opened ChronologicalOrder

  const WALK_FORWARD := "chronological_walk_forward"

  datatype Splits = Splits(splitMethod: string, train: seq<string>, validation: seq<string>, test: seq<string>)

  // ----- one row per mint -----

  function MintsOf(rows: seq<Stamp>): (r: seq<string>)
    ensures |r| == |rows| && forall i :: 0 <= i < |rows| ==> r[i] == rows[i].mint
  {
    seq(|rows|, i requires 0 <= i < |rows| => rows[i].mint)
  }

  predicate NoRepeats(mints: seq<string>) {
    forall i, j :: 0 <= i < j < |mints| ==> mints[i] != mints[j]
  }

  /** The rows kept by the deduplication loop: the first of each non-empty mint. */
  function FirstOfEach(rows: seq<Stamp>): seq<Stamp> {
    if rows == [] then []
    else
      var kept := FirstOfEach(rows[..|rows| - 1]);
      var row := rows[|rows| - 1];
      if row.mint != "" && row.mint !in MintsOf(kept) then kept + [row] else kept
  }

  method Deduplicate(ordered: seq<Stamp>) returns (unique: seq<Stamp>)
    ensures unique == FirstOfEach(ordered)
  {
    unique := [];
    var seen: set<string> := {};
    for i := 0 to |ordered|
      invariant unique == FirstOfEach(ordered[..i])
      invariant seen == set m | m in MintsOf(unique)
    {
      var row := ordered[i];
      assert ordered[..i + 1][..i] == ordered[..i];
      if row.mint != "" && row.mint !in seen {
        assert MintsOf(unique + [row]) == MintsOf(unique) + [row.mint];
        seen := seen + {row.mint};
        unique := unique + [row];
      }
    }
    assert ordered[..|ordered|] == ordered;
  }

  /** The kept rows are rows with a mint, one for every mint there is. */
  lemma {:induction false} OneRowPerMint(rows: seq<Stamp>)
    ensures NoRepeats(MintsOf(FirstOfEach(rows)))
    ensures forall r :: r in FirstOfEach(rows) ==> r in rows && r.mint != ""
    ensures forall r :: r in rows && r.mint != "" ==> r.mint in MintsOf(FirstOfEach(rows))
    decreases |rows|
  {
    if rows != [] {
      var n := |rows| - 1;
      var row, kept := rows[n], FirstOfEach(rows[..n]);
      OneRowPerMint(rows[..n]);
      assert rows == rows[..n] + [row];
      assert MintsOf(kept + [row]) == MintsOf(kept) + [row.mint];
    }
  }

  /** In ordered rows the kept row of a mint is its earliest. */
  lemma {:induction false} FirstOfEachIs(rows: seq<Stamp>)
    requires Ordered(rows)
    ensures Ordered(FirstOfEach(rows))
    ensures forall r, s :: r in rows && s in FirstOfEach(rows) && r.mint == s.mint ==> AtMost(s, r)
    decreases |rows|
  {
    if rows != [] {
      var n := |rows| - 1;
      var row, kept := rows[n], FirstOfEach(rows[..n]);
      FirstOfEachIs(rows[..n]);
      OneRowPerMint(rows[..n]);
      forall r | r in rows[..n] ensures AtMost(r, row) {
        var i :| 0 <= i < n && rows[..n][i] == r;
        assert rows[i] == r;
      }
      AtMostIsTotal(row, row);
      assert rows == rows[..n] + [row];
      if row.mint != "" && row.mint !in MintsOf(kept) {
        forall s | s in kept ensures s.mint != row.mint {
          var i :| 0 <= i < |kept| && kept[i] == s;
          assert MintsOf(kept)[i] == s.mint;
        }
      }
    }
  }

  // ----- the windows -----

  function Min(a: nat, b: nat): nat {
    if a < b then a else b
  }

  /** Positions of the three windows, clipped to the list as slices are, in the deduplicated rows: train is
      [0, trainEnd), then [validationStart, validationEnd), then [testStart, n). */
  datatype Windows = Windows(trainEnd: nat, validationStart: nat, validationEnd: nat, testStart: nat)

  function WindowsFor(n: nat, trainEnd: nat, width: nat, embargo: nat): Windows {
    var vs := Min(n, trainEnd + embargo);
    var ve := Min(n, vs + width);
    Windows(Min(n, trainEnd), vs, ve, Min(n, ve + embargo))
  }

  /** Which of `n` rows lie in which window, whatever the cuts. */
  lemma {:induction false} WindowsExactly(n: nat, trainEnd: nat, width: nat, embargo: nat, k: nat)
    requires k < n
    ensures var w := WindowsFor(n, trainEnd, width, embargo);
            && (k < w.trainEnd <==> k < trainEnd)
            && (w.validationStart <= k < w.validationEnd <==> trainEnd + embargo <= k < trainEnd + embargo + width)
            && (w.testStart <= k <==> trainEnd + embargo + width + embargo <= k)
  {
  }

  /** Whatever the cuts: the windows are in order, adjacent non-empty ones are at
      least `embargo` rows apart, and at most two embargoes of rows are dropped. */
  lemma {:induction false} WindowsAreSeparated(n: nat, trainEnd: nat, width: nat, embargo: nat)
    ensures var w := WindowsFor(n, trainEnd, width, embargo);
            && w.trainEnd <= w.validationStart <= w.validationEnd <= w.testStart <= n
            && (w.validationStart < w.validationEnd ==> w.validationStart - w.trainEnd >= embargo)
            && (w.testStart < n ==> w.testStart - w.validationEnd >= embargo)
            && n - 2 * embargo
               <= w.trainEnd + (w.validationEnd - w.validationStart) + (n - w.testStart) <= n
  {
  }

  /** How many of `n` rows the train window and the validation window take, after
      rounding. The results about the windows hold for any choice. */
  datatype Cuts = Cuts(train: nat -> nat, width: nat -> nat)

  /** The shares of 60% and 20% rounded down; a binary product with the same factors
      is another choice. */
  function FloorCuts(): Cuts {
    Cuts(n => (n as real * 0.6).Floor, n => (n as real * 0.2).Floor)
  }

  lemma {:induction false} FloorCutsExactly(n: nat)
    ensures 10 * FloorCuts().train(n) <= 6 * n < 10 * FloorCuts().train(n) + 10
    ensures 10 * FloorCuts().width(n) <= 2 * n < 10 * FloorCuts().width(n) + 10
  {
  }

  method BuildChronologicalSplits(labels: seq<Stamp>, embargo: nat, cuts: Cuts := FloorCuts()) returns (splits: Splits)
    ensures splits == SplitAt(FirstOfEach(Sorted(labels)), embargo, cuts)
  {
    var unique := Deduplicate(Sorted(labels));
    splits := CutWindows(unique, embargo, cuts);
  }

  method CutWindows(unique: seq<Stamp>, embargo: nat, cuts: Cuts) returns (splits: Splits)
    ensures splits == SplitAt(unique, embargo, cuts)
  {
    var total := |unique|;
    var trainEnd := cuts.train(total);
    var validationStart := Min(total, trainEnd + embargo);
    var validationEnd := Min(total, validationStart + cuts.width(total));
    var testStart := Min(total, validationEnd + embargo);
    splits := Splits(WALK_FORWARD, MintsOf(unique[..Min(total, trainEnd)]), MintsOf(unique[validationStart..validationEnd]),
                     MintsOf(unique[testStart..]));
  }

  function SplitAt(unique: seq<Stamp>, embargo: nat, cuts: Cuts): Splits {
    var w := WindowsFor(|unique|, cuts.train(|unique|), cuts.width(|unique|), embargo);
    Splits(WALK_FORWARD, MintsOf(unique[..w.trainEnd]), MintsOf(unique[w.validationStart..w.validationEnd]),
           MintsOf(unique[w.testStart..]))
  }

  // ----- the validator -----

  datatype SplitBlocker = UnknownMethod | MintTwice(mint: string)

  function AllMints(s: Splits): seq<string> {
    s.train + s.validation + s.test
  }

  /** `mint` stands at two positions. */
  predicate Repeated(mint: string, mints: seq<string>) {
    exists i, j :: 0 <= i < j < |mints| && mints[i] == mints[j] == mint
  }

  lemma {:induction false} RepeatedStep(mint: string, mints: seq<string>, last: string)
    ensures Repeated(mint, mints + [last]) <==> Repeated(mint, mints) || (mint == last && mint in mints)
  {
    var longer := mints + [last];
    assert longer[|mints|] == last && forall i :: 0 <= i < |mints| ==> longer[i] == mints[i];
    if mint == last && mint in mints {
      var i :| 0 <= i < |mints| && mints[i] == mint;
      assert longer[i] == longer[|mints|] == mint;
    }
    if Repeated(mint, longer) {
      var i, j :| 0 <= i < j < |longer| && longer[i] == longer[j] == mint;
      assert mints[i] == mint;
    }
  }

  /** One window of the validator's membership pass: every mint that has been met
      before is reported. */
  method CheckWindow(mints: seq<string>, members: set<string>, ghost before: seq<string>)
    returns (blockers: seq<SplitBlocker>, now: set<string>)
    requires members == set m | m in before
    ensures now == set m | m in before + mints
    ensures forall b :: b in blockers ==> b.MintTwice?
    ensures forall m :: Repeated(m, before + mints) <==> Repeated(m, before) || MintTwice(m) in blockers
  {
    blockers, now := [], members;
    assert before + mints[..0] == before;
    for i := 0 to |mints|
      invariant now == set m | m in before + mints[..i]
      invariant forall b :: b in blockers ==> b.MintTwice?
      invariant forall m :: Repeated(m, before + mints[..i]) <==> Repeated(m, before) || MintTwice(m) in blockers
    {
      var mint := mints[i];
      assert before + mints[..i + 1] == (before + mints[..i]) + [mint];
      forall m { RepeatedStep(m, before + mints[..i], mint); }
      if mint in now {
        blockers := blockers + [MintTwice(mint)];
      }
      now := now + {mint};
    }
    assert mints[..|mints|] == mints;
  }

  lemma {:induction false} NoneRepeated(mints: seq<string>)
    ensures NoRepeats(mints) <==> forall m :: !Repeated(m, mints)
  {
    if i, j :| 0 <= i < j < |mints| && mints[i] == mints[j] {
      assert Repeated(mints[i], mints);
    }
  }

  lemma {:induction false} ListsTheRepeated(twice: seq<SplitBlocker>, mints: seq<string>)
    requires forall b :: b in twice ==> b.MintTwice?
    requires forall m :: MintTwice(m) in twice <==> Repeated(m, mints)
    ensures twice == [] <==> NoRepeats(mints)
  {
    NoneRepeated(mints);
    if twice != [] {
      assert MintTwice(twice[0].mint) in twice;
    } else {
      assert forall m :: MintTwice(m) !in twice;
    }
  }

  lemma {:induction false} RepeatsStep(mints: seq<string>, mint: string)
    ensures NoRepeats(mints + [mint]) <==> NoRepeats(mints) && mint !in mints
  {
    NoneRepeated(mints);
    NoneRepeated(mints + [mint]);
    forall m ensures Repeated(m, mints + [mint]) <==> Repeated(m, mints) || (m == mint && m in mints) {
      RepeatedStep(m, mints, mint);
    }
  }

  /** The validator names exactly the repeated mints and an unknown method, so it
      accepts exactly a walk-forward split without a repeated mint. */
  method ValidateSplits(s: Splits) returns (passed: bool, blockers: seq<SplitBlocker>)
    ensures passed <==> blockers == []
    ensures UnknownMethod in blockers <==> s.splitMethod != WALK_FORWARD
    ensures forall m :: MintTwice(m) in blockers <==> Repeated(m, AllMints(s))
    ensures passed <==> s.splitMethod == WALK_FORWARD && NoRepeats(AllMints(s))
  {
    blockers := if s.splitMethod != WALK_FORWARD then [UnknownMethod] else [];
    var train, members := CheckWindow(s.train, {}, []);
    assert [] + s.train == s.train;
    var validation, test;
    validation, members := CheckWindow(s.validation, members, s.train);
    test, members := CheckWindow(s.test, members, s.train + s.validation);
    var twice := train + validation + test;
    ListsTheRepeated(twice, AllMints(s));
    blockers := blockers + twice;
    passed := blockers == [];
  }

  // ----- main results -----

  /** The row behind the `k`-th mint of a split. */
  function Position(w: Windows, k: nat): nat
    requires w.trainEnd <= w.validationStart <= w.validationEnd <= w.testStart
  {
    if k < w.trainEnd then k
    else if k < w.trainEnd + (w.validationEnd - w.validationStart) then k - w.trainEnd + w.validationStart
    else k - w.trainEnd - (w.validationEnd - w.validationStart) + w.testStart
  }

  lemma {:induction false} SplitsDrawFromUnique(unique: seq<Stamp>, embargo: nat, cuts: Cuts)
    ensures var w := WindowsFor(|unique|, cuts.train(|unique|), cuts.width(|unique|), embargo);
            var mints := AllMints(SplitAt(unique, embargo, cuts));
            && w.trainEnd <= w.validationStart <= w.validationEnd <= w.testStart <= |unique|
            && forall k :: 0 <= k < |mints| ==> Position(w, k) < |unique| && mints[k] == unique[Position(w, k)].mint
  {
    WindowsAreSeparated(|unique|, cuts.train(|unique|), cuts.width(|unique|), embargo);
  }

  /** Which window each of the deduplicated rows is in, and at which place. */
  lemma {:induction false} SplitExactly(unique: seq<Stamp>, embargo: nat, cuts: Cuts, k: nat)
    requires k < |unique|
    ensures var t, w, e := cuts.train(|unique|), cuts.width(|unique|), embargo;
            var s := SplitAt(unique, embargo, cuts);
            && s.splitMethod == "chronological_walk_forward"
            && (k < t <==> k < |s.train|)
            && (k < t ==> s.train[k] == unique[k].mint)
            && (t + e <= k < t + e + w <==> 0 <= k - t - e < |s.validation|)
            && (t + e <= k < t + e + w ==> s.validation[k - t - e] == unique[k].mint)
            && (t + e + w + e <= k <==> 0 <= k - t - e - w - e < |s.test|)
            && (t + e + w + e <= k ==> s.test[k - t - e - w - e] == unique[k].mint)
  {
    WindowsExactly(|unique|, cuts.train(|unique|), cuts.width(|unique|), embargo, k);
    WindowsAreSeparated(|unique|, cuts.train(|unique|), cuts.width(|unique|), embargo);
  }

  lemma {:induction false} SplitNeverRepeats(unique: seq<Stamp>, embargo: nat, cuts: Cuts)
    requires NoRepeats(MintsOf(unique))
    ensures NoRepeats(AllMints(SplitAt(unique, embargo, cuts)))
  {
    SplitsDrawFromUnique(unique, embargo, cuts);
    var w := WindowsFor(|unique|, cuts.train(|unique|), cuts.width(|unique|), embargo);
    var mints := AllMints(SplitAt(unique, embargo, cuts));
    forall i, j | 0 <= i < j < |mints| ensures mints[i] != mints[j] {
      assert MintsOf(unique)[Position(w, i)] != MintsOf(unique)[Position(w, j)];
    }
  }

  /** For every label list and embargo the produced split passes the validator. */
  lemma {:induction false} SplitsPassValidator(labels: seq<Stamp>, embargo: nat, cuts: Cuts)
    ensures var s := SplitAt(FirstOfEach(Sorted(labels)), embargo, cuts);
            s.splitMethod == WALK_FORWARD && NoRepeats(AllMints(s))
  {
    OneRowPerMint(Sorted(labels));
    SplitNeverRepeats(FirstOfEach(Sorted(labels)), embargo, cuts);
  }

  /** The deduplicated rows hold every non-empty mint once, by its earliest row,
      in time order. */
  lemma {:induction false} UniqueRowsAreEarliest(labels: seq<Stamp>)
    ensures var unique := FirstOfEach(Sorted(labels));
            && Ordered(unique) && NoRepeats(MintsOf(unique))
            && (forall r :: r in labels && r.mint != "" ==> r.mint in MintsOf(unique))
            && (forall s :: s in unique ==> s in labels && s.mint != "")
            && (forall r, s :: r in labels && s in unique && r.mint == s.mint ==> AtMost(s, r))
  {
    SortedIsOrdered(labels);
    OneRowPerMint(Sorted(labels));
    FirstOfEachIs(Sorted(labels));
    forall r ensures r in Sorted(labels) <==> r in labels {
      assert r in multiset(Sorted(labels)) <==> r in multiset(labels);
    }
  }

  /** Every train row is at most every validation row, and both at most every test
      row. */
  lemma {:induction false} WindowsAreChronological(labels: seq<Stamp>, embargo: nat, cuts: Cuts, i: nat, j: nat)
    requires var unique := FirstOfEach(Sorted(labels));
             var w := WindowsFor(|unique|, cuts.train(|unique|), cuts.width(|unique|), embargo);
             (i < w.trainEnd && w.validationStart <= j < |unique|) || (i < w.validationEnd && w.testStart <= j < |unique|)
    ensures var unique := FirstOfEach(Sorted(labels));
            i <= j < |unique| && AtMost(unique[i], unique[j])
  {
    var unique := FirstOfEach(Sorted(labels));
    UniqueRowsAreEarliest(labels);
    WindowsAreSeparated(|unique|, cuts.train(|unique|), cuts.width(|unique|), embargo);
  }

  /** The sizes of the windows and at most two embargoes of dropped rows add up to
      the number of unique mints. */
  lemma {:induction false} SplitSizes(unique: seq<Stamp>, embargo: nat, cuts: Cuts)
    ensures |unique| - 2 * embargo <= |AllMints(SplitAt(unique, embargo, cuts))| <= |unique|
  {
    WindowsAreSeparated(|unique|, cuts.train(|unique|), cuts.width(|unique|), embargo);
  }
}
