/** The order in which both splitters arrange label rows: by launch time, then by
    mint, as texts. */
module ChronologicalOrder {

  /** The two fields of a label row the splitters look at. */
  datatype Stamp = Stamp(firstSeen: string, mint: string)

  /** Code-point order of texts. */
  predicate Less(a: string, b: string) {
    b != "" && (a == "" || a[0] < b[0] || (a[0] == b[0] && Less(a[1..], b[1..])))
  }

  predicate AtMost(a: Stamp, b: Stamp) {
    Less(a.firstSeen, b.firstSeen) || (a.firstSeen == b.firstSeen && !Less(b.mint, a.mint))
  }

  /** The first place where the texts differ decides; a text comes before its
      extensions. */
  lemma {:induction false} LessExactly(a: string, b: string)
    ensures Less(a, b) <==>
              exists k: nat :: k < |b| && k <= |a| && a[..k] == b[..k] && (k == |a| || a[k] < b[k])
    decreases |a|
  {
    if a != "" && b != "" && a[0] == b[0] {
      LessExactly(a[1..], b[1..]);
      if k: nat :| k < |b| && k <= |a| && a[..k] == b[..k] && (k == |a| || a[k] < b[k]) {
        assert a[..k][1..] == a[1..][..k - 1] && b[..k][1..] == b[1..][..k - 1];
      }
      if k: nat :| k < |b[1..]| && k <= |a[1..]| && a[1..][..k] == b[1..][..k] && (k == |a[1..]| || a[1..][k] < b[1..][k]) {
        assert a[..k + 1] == [a[0]] + a[1..][..k] && b[..k + 1] == [b[0]] + b[1..][..k];
      }
    } else {
      assert a[..0] == b[..0];
    }
  }

  lemma {:induction false} LessIsIrreflexive(a: string)
    ensures !Less(a, a)
    decreases |a|
  {
    if a != "" {
      LessIsIrreflexive(a[1..]);
    }
  }

  lemma {:induction false} LessIsTransitive(a: string, b: string, c: string)
    requires Less(a, b) && Less(b, c)
    ensures Less(a, c)
    decreases |a|
  {
    if a != "" && a[0] == b[0] == c[0] {
      LessIsTransitive(a[1..], b[1..], c[1..]);
    }
  }

  lemma {:induction false} LessIsTotal(a: string, b: string)
    ensures Less(a, b) || a == b || Less(b, a)
    decreases |a|
  {
    if a != "" && b != "" && a[0] == b[0] {
      LessIsTotal(a[1..], b[1..]);
      assert a == [a[0]] + a[1..] && b == [b[0]] + b[1..];
    }
  }

  /** Earlier launches come first; launches of the same time go by mint. */
  lemma {:induction false} AtMostExactly(a: Stamp, b: Stamp)
    ensures AtMost(a, b) <==>
              Less(a.firstSeen, b.firstSeen) || (a.firstSeen == b.firstSeen && (a.mint == b.mint || Less(a.mint, b.mint)))
  {
    LessIsTotal(a.mint, b.mint);
    LessIsIrreflexive(a.mint);
    if Less(a.mint, b.mint) && Less(b.mint, a.mint) {
      LessIsTransitive(a.mint, b.mint, a.mint);
    }
  }

  lemma {:induction false} AtMostIsTotal(a: Stamp, b: Stamp)
    ensures AtMost(a, b) || AtMost(b, a)
    ensures AtMost(a, a)
  {
    LessIsTotal(a.firstSeen, b.firstSeen);
    LessIsIrreflexive(a.mint);
    if Less(b.mint, a.mint) && Less(a.mint, b.mint) {
      LessIsTransitive(a.mint, b.mint, a.mint);
    }
  }

  lemma {:induction false} AtMostIsTransitive(a: Stamp, b: Stamp, c: Stamp)
    requires AtMost(a, b) && AtMost(b, c)
    ensures AtMost(a, c)
  {
    if Less(a.firstSeen, b.firstSeen) && Less(b.firstSeen, c.firstSeen) {
      LessIsTransitive(a.firstSeen, b.firstSeen, c.firstSeen);
    } else if a.firstSeen == b.firstSeen == c.firstSeen && Less(c.mint, a.mint) {
      LessIsTotal(a.mint, b.mint);
      if Less(a.mint, b.mint) {
        LessIsTransitive(c.mint, a.mint, b.mint);
      }
    }
  }

  predicate Ordered(rows: seq<Stamp>) {
    forall i, j :: 0 <= i < j < |rows| ==> AtMost(rows[i], rows[j])
  }

  /** Inserts behind every row that is at most `x`, so equal rows keep their order. */
  function Insert(rows: seq<Stamp>, x: Stamp): seq<Stamp> {
    if rows == [] || AtMost(rows[|rows| - 1], x) then rows + [x]
    else Insert(rows[..|rows| - 1], x) + [rows[|rows| - 1]]
  }

  /** The library's stable sort. */
  function Sorted(rows: seq<Stamp>): seq<Stamp> {
    if rows == [] then [] else Insert(Sorted(rows[..|rows| - 1]), rows[|rows| - 1])
  }

  lemma {:induction false} InsertKeepsOrder(rows: seq<Stamp>, x: Stamp)
    requires Ordered(rows)
    ensures Ordered(Insert(rows, x))
    ensures multiset(Insert(rows, x)) == multiset(rows) + multiset{x}
    decreases |rows|
  {
    if rows == [] {
    } else if AtMost(rows[|rows| - 1], x) {
      forall i | 0 <= i < |rows| ensures AtMost(rows[i], x) {
        if i < |rows| - 1 {
          AtMostIsTransitive(rows[i], rows[|rows| - 1], x);
        }
      }
    } else {
      var n := |rows| - 1;
      InsertKeepsOrder(rows[..n], x);
      AtMostIsTotal(rows[n], x);
      StillAtMost(rows[..n], x, Insert(rows[..n], x), rows[n]);
      assert rows == rows[..n] + [rows[n]];
    }
  }

  lemma {:induction false} StillAtMost(rows: seq<Stamp>, x: Stamp, longer: seq<Stamp>, last: Stamp)
    requires multiset(longer) == multiset(rows) + multiset{x}
    requires AtMost(x, last) && forall j :: 0 <= j < |rows| ==> AtMost(rows[j], last)
    ensures forall i :: 0 <= i < |longer| ==> AtMost(longer[i], last)
  {
    forall i | 0 <= i < |longer| ensures AtMost(longer[i], last) {
      assert longer[i] in multiset(longer);
      if longer[i] != x {
        assert longer[i] in multiset(rows);
      }
    }
  }

  lemma {:induction false} LastRow(rows: seq<Stamp>, n: nat)
    requires n + 1 == |rows|
    ensures multiset(rows) == multiset(rows[..n]) + multiset{rows[n]}
  {
    assert rows == rows[..n] + [rows[n]];
  }

  lemma {:induction false} SortedIsOrdered(rows: seq<Stamp>)
    ensures Ordered(Sorted(rows)) && multiset(Sorted(rows)) == multiset(rows)
    decreases |rows|
  {
    if rows != [] {
      var n := |rows| - 1;
      SortedIsOrdered(rows[..n]);
      InsertKeepsOrder(Sorted(rows[..n]), rows[n]);
      LastRow(rows, n);
    }
  }
}
