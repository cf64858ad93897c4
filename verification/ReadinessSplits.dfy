/** The readiness builder's splitter and the split rule of its leakage audit
    (scripts/build_strategy_readiness.py: build_splits, leakage_audit). */
module ReadinessSplits {
  import opened ChronologicalOrder
  import opened ChronologicalSplits

  function Embargo(n: nat): nat {
    if n == 0 then 0
    else
      var hundredth := if n / 100 > 1 then n / 100 else 1;
      if hundredth < 25 then hundredth else 25
  }

  /** The three slices as positions; the end of the middle one is clipped to the
      list, as a slice is. */
  datatype Slices = Slices(trainEnd: nat, validationStart: nat, validationEnd: nat, testStart: nat)

  function SlicesFor(n: nat, trainCut: nat, validationCut: nat, embargo: nat): Slices {
    var start := trainCut + embargo;
    var end := if validationCut > start + embargo then validationCut - embargo else start;
    Slices(Min(n, if trainCut > embargo then trainCut - embargo else 0),
           Min(n, start), Min(n, end), Min(n, validationCut + embargo))
  }

  /** Which of `n` rows lie in which slice, whatever the cuts: those an embargo before
      the first cut, between the cuts, and an embargo behind the second. */
  lemma {:induction false} SlicesExactly(n: nat, trainCut: nat, validationCut: nat, embargo: nat, k: nat)
    requires k < n
    ensures var w := SlicesFor(n, trainCut, validationCut, embargo);
            && (k < w.trainEnd <==> k + embargo < trainCut)
            && (w.validationStart <= k < w.validationEnd <==> trainCut + embargo <= k && k + embargo < validationCut)
            && (w.testStart <= k <==> validationCut + embargo <= k)
            && w.trainEnd <= n && w.validationStart <= w.validationEnd <= n && w.testStart <= n
  {
  }

  /** Whatever the cuts: between any two non-empty windows lie at least two
      embargoes of rows. */
  lemma {:induction false} SlicesAreSeparated(n: nat, trainCut: nat, validationCut: nat, embargo: nat)
    requires trainCut <= validationCut
    ensures var w := SlicesFor(n, trainCut, validationCut, embargo);
            && w.trainEnd <= w.validationStart <= w.validationEnd <= n && w.trainEnd <= w.testStart <= n
            && (w.validationStart < w.validationEnd ==> w.validationEnd <= w.testStart)
            && (0 < w.trainEnd && w.validationStart < w.validationEnd ==> w.validationStart - w.trainEnd >= 2 * embargo)
            && (w.validationStart < w.validationEnd && w.testStart < n ==> w.testStart - w.validationEnd >= 2 * embargo)
            && (0 < w.trainEnd && w.testStart < n ==> w.testStart - w.trainEnd >= 2 * embargo)
  {
  }

  /** Where the train share and the validation share of `n` rows end, after rounding. */
  datatype Shares = Shares(train: nat -> nat, validation: nat -> nat)

  /** The shares of 60% and 80% rounded down. */
  function FloorShares(): Shares {
    Shares(n => (n as real * 0.6).Floor, n => (n as real * 0.8).Floor)
  }

  predicate InOrder(shares: Shares, n: nat) {
    shares.train(n) <= shares.validation(n)
  }

  lemma {:induction false} FloorSharesAreInOrder(n: nat)
    ensures InOrder(FloorShares(), n)
  {
    assert n as real * 0.6 <= n as real * 0.8;
  }

  function ReadinessSplit(sorted: seq<Stamp>, shares: Shares): Splits {
    var n := |sorted|;
    var w := SlicesFor(n, shares.train(n), shares.validation(n), Embargo(n));
    Splits(WALK_FORWARD, MintsOf(sorted[..w.trainEnd]), MintsOf(sorted[w.validationStart..w.validationEnd]),
           MintsOf(sorted[w.testStart..]))
  }

  function BuildReadinessSplits(labels: seq<Stamp>, shares: Shares := FloorShares()): Splits {
    ReadinessSplit(Sorted(labels), shares)
  }

  lemma {:induction false} FloorSharesExactly(n: nat)
    ensures 10 * FloorShares().train(n) <= 6 * n < 10 * FloorShares().train(n) + 10
    ensures 10 * FloorShares().validation(n) <= 8 * n < 10 * FloorShares().validation(n) + 10
  {
  }

  /** Which window each of the sorted rows is in, and at which place. */
  lemma {:induction false} ReadinessExactly(sorted: seq<Stamp>, shares: Shares, k: nat)
    requires k < |sorted|
    ensures var n := |sorted|; var t, v, e := shares.train(n), shares.validation(n), Embargo(n);
            var s := ReadinessSplit(sorted, shares);
            && s.splitMethod == "chronological_walk_forward"
            && (k + e < t <==> k < |s.train|)
            && (k + e < t ==> s.train[k] == sorted[k].mint)
            && (t + e <= k && k + e < v <==> 0 <= k - t - e < |s.validation|)
            && (t + e <= k && k + e < v ==> s.validation[k - t - e] == sorted[k].mint)
            && (v + e <= k <==> 0 <= k - v - e < |s.test|)
            && (v + e <= k ==> s.test[k - v - e] == sorted[k].mint)
  {
    var n := |sorted|;
    SlicesExactly(n, shares.train(n), shares.validation(n), Embargo(n), k);
  }

  /** The embargo is a hundredth of the rows rounded down, but at least one row and
      at most 25. */
  lemma {:induction false} EmbargoExactly(n: nat)
    ensures n == 0 ==> Embargo(n) == 0
    ensures 0 < n < 200 ==> Embargo(n) == 1
    ensures 200 <= n < 2500 ==> 100 * Embargo(n) <= n < 100 * Embargo(n) + 100
    ensures n >= 2500 ==> Embargo(n) == 25
  {
  }

  // ----- the audit -----

  /** No mint lies in two different windows. */
  predicate WindowsDisjoint(s: Splits) {
    && (forall m :: m in s.train ==> m !in s.validation && m !in s.test)
    && (forall m :: m in s.validation ==> m !in s.test)
  }

  /** The audit's pass over one window: `membership` maps a mint to the last window
      it was seen in. */
  method AuditWindow(mints: seq<string>, window: nat, membership: map<string, nat>)
    returns (blockers: seq<string>, now: map<string, nat>)
    requires forall m :: m in membership ==> membership[m] < window
    ensures forall m :: m in blockers <==> m in mints && m in membership
    ensures now.Keys == membership.Keys + set m | m in mints
    ensures forall m :: m in now ==> now[m] <= window
  {
    blockers, now := [], membership;
    for i := 0 to |mints|
      invariant forall m :: m in blockers <==> m in mints[..i] && m in membership
      invariant now.Keys == membership.Keys + set m | m in mints[..i]
      invariant forall m :: m in mints[..i] ==> now[m] == window
      invariant forall m :: m in now && m !in mints[..i] ==> m in membership && now[m] == membership[m]
    {
      var mint := mints[i];
      assert mints[..i + 1] == mints[..i] + [mint];
      if mint in now && now[mint] != window {
        blockers := blockers + [mint];
      }
      now := now[mint := window];
    }
    assert mints[..|mints|] == mints;
  }

  predicate InTwoWindows(m: string, s: Splits) {
    (m in s.train && m in s.validation) || (m in s.train && m in s.test) || (m in s.validation && m in s.test)
  }

  /** The mints the audit reports are exactly those in two windows, so none exactly
      when the windows are disjoint. */
  method AuditSplits(s: Splits) returns (blockers: seq<string>)
    ensures forall m :: m in blockers <==> InTwoWindows(m, s)
    ensures blockers == [] <==> WindowsDisjoint(s)
  {
    var train, membership := AuditWindow(s.train, 0, map[]);
    var validation, test;
    validation, membership := AuditWindow(s.validation, 1, membership);
    test, membership := AuditWindow(s.test, 2, membership);
    blockers := train + validation + test;
    assert forall m :: m in blockers <==> m in train || m in validation || m in test;
    if blockers != [] {
      assert blockers[0] in blockers && InTwoWindows(blockers[0], s);
    } else {
      assert forall m :: m !in blockers;
    }
  }

  lemma {:induction false} InsertKeepsMints(rows: seq<Stamp>, x: Stamp)
    ensures multiset(MintsOf(Insert(rows, x))) == multiset(MintsOf(rows)) + multiset{x.mint}
    decreases |rows|
  {
    if rows == [] || AtMost(rows[|rows| - 1], x) {
      assert MintsOf(rows + [x]) == MintsOf(rows) + [x.mint];
    } else {
      var n := |rows| - 1;
      InsertKeepsMints(rows[..n], x);
      assert MintsOf(rows) == MintsOf(rows[..n]) + [rows[n].mint];
      assert MintsOf(Insert(rows, x)) == MintsOf(Insert(rows[..n], x)) + [rows[n].mint];
    }
  }

  lemma {:induction false} SortKeepsMints(rows: seq<Stamp>)
    ensures multiset(MintsOf(Sorted(rows))) == multiset(MintsOf(rows))
    decreases |rows|
  {
    if rows != [] {
      var n := |rows| - 1;
      SortKeepsMints(rows[..n]);
      InsertKeepsMints(Sorted(rows[..n]), rows[n]);
      assert MintsOf(rows) == MintsOf(rows[..n]) + [rows[n].mint];
      assert multiset(MintsOf(rows)) == multiset(MintsOf(rows[..n])) + multiset{rows[n].mint};
    }
  }

  lemma {:induction false} NoRepeatsIsMultiplicity(mints: seq<string>)
    ensures NoRepeats(mints) <==> forall m :: multiset(mints)[m] <= 1
    decreases |mints|
  {
    if mints != [] {
      var n := |mints| - 1;
      NoRepeatsIsMultiplicity(mints[..n]);
      RepeatsStep(mints[..n], mints[n]);
      assert mints == mints[..n] + [mints[n]];
      assert multiset(mints) == multiset(mints[..n]) + multiset{mints[n]};
      assert mints[n] in mints[..n] <==> multiset(mints[..n])[mints[n]] >= 1;
      if mints[n] in mints[..n] {
        assert multiset(mints)[mints[n]] >= 2;
      } else if NoRepeats(mints[..n]) {
        forall m ensures multiset(mints)[m] <= 1 {
          assert multiset(mints[..n])[m] <= 1;
        }
      } else {
        var m :| multiset(mints[..n])[m] > 1;
        assert multiset(mints)[m] > 1;
      }
    }
  }

  /** Two ranges of rows with distinct mints share no mint. */
  lemma {:induction false} RangesShareNoMint(rows: seq<Stamp>, lo: nat, mid: nat, next: nat, hi: nat)
    requires lo <= mid <= next <= hi <= |rows| && NoRepeats(MintsOf(rows))
    ensures forall m :: m in MintsOf(rows[lo..mid]) ==> m !in MintsOf(rows[next..hi])
  {
    var a, b := MintsOf(rows[lo..mid]), MintsOf(rows[next..hi]);
    forall i, j | 0 <= i < |a| && 0 <= j < |b| ensures a[i] != b[j] {
      assert MintsOf(rows)[lo + i] != MintsOf(rows)[next + j];
    }
  }

  lemma {:induction false} SortKeepsNoRepeats(labels: seq<Stamp>)
    requires NoRepeats(MintsOf(labels))
    ensures NoRepeats(MintsOf(Sorted(labels)))
  {
    SortKeepsMints(labels);
    NoRepeatsIsMultiplicity(MintsOf(labels));
    NoRepeatsIsMultiplicity(MintsOf(Sorted(labels)));
  }

  /** When every mint has one label, the audit finds no mint in two splits. */
  lemma {:induction false} UniqueMintsPassAudit(labels: seq<Stamp>, shares: Shares)
    requires NoRepeats(MintsOf(labels)) && InOrder(shares, |Sorted(labels)|)
    ensures WindowsDisjoint(BuildReadinessSplits(labels, shares))
  {
    var rows := Sorted(labels);
    var n := |rows|;
    SortKeepsNoRepeats(labels);
    var w := SlicesFor(n, shares.train(n), shares.validation(n), Embargo(n));
    SlicesAreSeparated(n, shares.train(n), shares.validation(n), Embargo(n));
    assert rows[..w.trainEnd] == rows[0..w.trainEnd] && rows[w.testStart..] == rows[w.testStart..n];
    RangesShareNoMint(rows, 0, w.trainEnd, w.validationStart, w.validationEnd);
    RangesShareNoMint(rows, 0, w.trainEnd, w.testStart, n);
    if w.validationStart < w.validationEnd {
      RangesShareNoMint(rows, w.validationStart, w.validationEnd, w.testStart, n);
    }
  }
}
