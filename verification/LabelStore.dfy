/** The reader and validator of the written labels
    (scripts/strategy/label_store.py: LabelStore). */
module LabelStore {
  import opened Common
  import opened Labels

  datatype LabelBlocker =
    | InconclusiveLabelledDead(mint: string)
    | CheckpointPositiveWithoutReplay(mint: string)
    | ReplayEligibleNotPositive(mint: string)
    | ProviderGapCleanLabel(mint: string)

  /** A label that contradicts none of the four rules. */
  predicate Acceptable(l: Label) {
    && !(l.finalOutcome == INCONCLUSIVE && l.cleanNegative)
    && !(l.checkpoint && l.cleanPositive && !l.replayEligible)
    && !(l.replayEligible && !l.cleanPositive)
    && !(l.providerGap && l.cleanNegative)
  }

  /** `b` names the mint of `l` and a rule `l` breaks. */
  predicate Objects(b: LabelBlocker, l: Label) {
    b.mint == l.mint &&
    match b
    case InconclusiveLabelledDead(_) => l.finalOutcome == INCONCLUSIVE && l.cleanNegative
    case CheckpointPositiveWithoutReplay(_) => l.checkpoint && l.cleanPositive && !l.replayEligible
    case ReplayEligibleNotPositive(_) => l.replayEligible && !l.cleanPositive
    case ProviderGapCleanLabel(_) => l.providerGap && l.cleanNegative
  }

  predicate Justified(b: LabelBlocker, labels: seq<Label>) {
    exists i :: 0 <= i < |labels| && Objects(b, labels[i])
  }

  lemma {:induction false} JustifiedStep(b: LabelBlocker, labels: seq<Label>, n: nat)
    requires n < |labels|
    ensures Justified(b, labels[..n + 1]) <==> Justified(b, labels[..n]) || Objects(b, labels[n])
  {
    var longer, shorter := labels[..n + 1], labels[..n];
    assert longer[n] == labels[n];
    assert forall i :: 0 <= i < n ==> longer[i] == shorter[i];
  }

  /** The blockers of one row. */
  method CheckLabel(l: Label) returns (blockers: seq<LabelBlocker>)
    ensures forall b :: b in blockers <==> Objects(b, l)
  {
    blockers := [];
    if l.finalOutcome == INCONCLUSIVE && l.cleanNegative {
      blockers := blockers + [InconclusiveLabelledDead(l.mint)];
    }
    if l.checkpoint && l.cleanPositive && !l.replayEligible {
      blockers := blockers + [CheckpointPositiveWithoutReplay(l.mint)];
    }
    if l.replayEligible && !l.cleanPositive {
      blockers := blockers + [ReplayEligibleNotPositive(l.mint)];
    }
    if l.providerGap && l.cleanNegative {
      blockers := blockers + [ProviderGapCleanLabel(l.mint)];
    }
  }

  /** A list with exactly the justified blockers is empty exactly when every label
      is acceptable. */
  lemma {:induction false} NoneJustified(labels: seq<Label>, blockers: seq<LabelBlocker>)
    requires forall b :: b in blockers <==> Justified(b, labels)
    ensures blockers == [] <==> forall i :: 0 <= i < |labels| ==> Acceptable(labels[i])
  {
    if blockers != [] {
      assert blockers[0] in blockers;
      var i :| 0 <= i < |labels| && Objects(blockers[0], labels[i]);
      assert !Acceptable(labels[i]);
    } else if i :| 0 <= i < |labels| && !Acceptable(labels[i]) {
      var l := labels[i];
      var b := if l.finalOutcome == INCONCLUSIVE && l.cleanNegative then InconclusiveLabelledDead(l.mint)
               else if l.checkpoint && l.cleanPositive && !l.replayEligible then CheckpointPositiveWithoutReplay(l.mint)
               else if l.replayEligible && !l.cleanPositive then ReplayEligibleNotPositive(l.mint)
               else ProviderGapCleanLabel(l.mint);
      assert Objects(b, labels[i]);
      assert Justified(b, labels);
    }
  }

  // ----- counts -----

  function CountLabels(labels: seq<Label>, f: Label -> bool): nat {
    if labels == [] then 0
    else CountLabels(labels[..|labels| - 1], f) + (if f(labels[|labels| - 1]) then 1 else 0)
  }

  function IsCleanNegative(): Label -> bool { (l: Label) => l.cleanNegative }
  function IsCleanPositive(): Label -> bool { (l: Label) => l.cleanPositive }
  function IsCensored(): Label -> bool { (l: Label) => l.censored }
  function IsCheckpoint(): Label -> bool { (l: Label) => l.checkpoint }
  function IsReplayEligible(): Label -> bool { (l: Label) => l.replayEligible }

  function HasOutcome(outcome: string): Label -> bool { (l: Label) => OutcomeOf(l) == outcome }

  /** An empty outcome is counted as missing. */
  function OutcomeOf(l: Label): string {
    if l.finalOutcome == "" then "missing" else l.finalOutcome
  }

  function LabelsWith(labels: seq<Label>, f: Label -> bool): set<nat> {
    set i: nat | i < |labels| && f(labels[i])
  }

  lemma {:induction false} LabelsWithStep(labels: seq<Label>, f: Label -> bool)
    requires labels != []
    ensures |LabelsWith(labels, f)| == |LabelsWith(labels[..|labels| - 1], f)| + if f(labels[|labels| - 1]) then 1 else 0
  {
    var n := |labels| - 1;
    forall i: nat | i < n ensures labels[..n][i] == labels[i] {
    }
    assert LabelsWith(labels, f) == LabelsWith(labels[..n], f) + (if f(labels[n]) then {n} else {});
  }

  lemma {:induction false} CountIsSize(labels: seq<Label>, f: Label -> bool)
    ensures CountLabels(labels, f) == |LabelsWith(labels, f)|
    decreases |labels|
  {
    if labels == [] {
      assert LabelsWith(labels, f) == {};
    } else {
      CountIsSize(labels[..|labels| - 1], f);
      LabelsWithStep(labels, f);
    }
  }

  lemma {:induction false} SameCount(labels: seq<Label>, f: Label -> bool, these: set<nat>)
    requires forall i: nat :: i in these <==> i < |labels| && f(labels[i])
    ensures CountLabels(labels, f) == |these|
  {
    CountIsSize(labels, f);
    assert LabelsWith(labels, f) == these;
  }

  datatype StoreSummary = StoreSummary(
    total: nat, cleanNegatives: nat, cleanPositives: nat, censored: nat, checkpoints: nat, replayEligible: nat,
    outcomes: map<string, nat>)

  /** `outcomes` counts the labels of every outcome that occurs, and no other. */
  predicate CountsOutcomes(outcomes: map<string, nat>, labels: seq<Label>) {
    && (forall i :: 0 <= i < |labels| ==> OutcomeOf(labels[i]) in outcomes)
    && (forall o :: o in outcomes ==> outcomes[o] == CountLabels(labels, HasOutcome(o)) > 0)
  }

  lemma {:induction false} OutcomeStep(outcomes: map<string, nat>, labels: seq<Label>, l: Label)
    requires CountsOutcomes(outcomes, labels)
    ensures var o := OutcomeOf(l); var was := if o in outcomes then outcomes[o] else 0;
            CountsOutcomes(outcomes[o := was + 1], labels + [l])
  {
    var longer, o := labels + [l], OutcomeOf(l);
    assert longer[..|labels|] == labels && longer[|labels|] == l;
    if o !in outcomes {
      NoneCounted(labels, HasOutcome(o));
    }
    forall i | 0 <= i < |labels| ensures OutcomeOf(longer[i]) in outcomes {
      assert longer[i] == labels[i];
    }
  }

  method CountOutcomes(labels: seq<Label>) returns (outcomes: map<string, nat>)
    ensures CountsOutcomes(outcomes, labels)
  {
    outcomes := map[];
    for i := 0 to |labels|
      invariant CountsOutcomes(outcomes, labels[..i])
    {
      var o := OutcomeOf(labels[i]);
      OutcomeStep(outcomes, labels[..i], labels[i]);
      assert labels[..i + 1] == labels[..i] + [labels[i]];
      outcomes := outcomes[o := (if o in outcomes then outcomes[o] else 0) + 1];
    }
    assert labels[..|labels|] == labels;
  }

  method CountRows(labels: seq<Label>, f: Label -> bool) returns (n: nat)
    ensures n == CountLabels(labels, f)
  {
    n := 0;
    for i := 0 to |labels|
      invariant n == CountLabels(labels[..i], f)
    {
      assert labels[..i + 1][..i] == labels[..i];
      if f(labels[i]) {
        n := n + 1;
      }
    }
    assert labels[..|labels|] == labels;
  }

  /** Two exclusive kinds of label never outnumber the labels. */
  lemma {:induction false} ExclusiveCounts(labels: seq<Label>, f: Label -> bool, g: Label -> bool)
    requires forall i :: 0 <= i < |labels| ==> !(f(labels[i]) && g(labels[i]))
    ensures CountLabels(labels, f) + CountLabels(labels, g) <= |labels|
    decreases |labels|
  {
    if labels != [] {
      ExclusiveCounts(labels[..|labels| - 1], f, g);
    }
  }

  lemma {:induction false} NoneCounted(labels: seq<Label>, f: Label -> bool)
    requires forall i :: 0 <= i < |labels| ==> !f(labels[i])
    ensures CountLabels(labels, f) == 0
    decreases |labels|
  {
    if labels != [] {
      NoneCounted(labels[..|labels| - 1], f);
    }
  }

  /** The counts of the summary are the numbers of labels with these fields. */
  lemma {:induction false} CountsExactly(labels: seq<Label>)
    ensures CountLabels(labels, IsCleanNegative()) == |set i: nat | i < |labels| && labels[i].cleanNegative|
    ensures CountLabels(labels, IsCleanPositive()) == |set i: nat | i < |labels| && labels[i].cleanPositive|
    ensures CountLabels(labels, IsCensored()) == |set i: nat | i < |labels| && labels[i].censored|
    ensures CountLabels(labels, IsCheckpoint()) == |set i: nat | i < |labels| && labels[i].checkpoint|
    ensures CountLabels(labels, IsReplayEligible()) == |set i: nat | i < |labels| && labels[i].replayEligible|
  {
    SameCount(labels, IsCleanNegative(), set i: nat | i < |labels| && labels[i].cleanNegative);
    SameCount(labels, IsCleanPositive(), set i: nat | i < |labels| && labels[i].cleanPositive);
    SameCount(labels, IsCensored(), set i: nat | i < |labels| && labels[i].censored);
    SameCount(labels, IsCheckpoint(), set i: nat | i < |labels| && labels[i].checkpoint);
    SameCount(labels, IsReplayEligible(), set i: nat | i < |labels| && labels[i].replayEligible);
  }

  /** The labels counted under an outcome; an empty one counts as "missing". */
  function CountedUnder(labels: seq<Label>, o: string): set<nat> {
    set i: nat | && i < |labels|
                 && (labels[i].finalOutcome == o != "" || (labels[i].finalOutcome == "" && o == "missing"))
  }

  lemma {:induction false} OutcomesExactly(outcomes: map<string, nat>, labels: seq<Label>, o: string)
    requires CountsOutcomes(outcomes, labels)
    ensures o in outcomes <==> CountedUnder(labels, o) != {}
    ensures o in outcomes ==> outcomes[o] == |CountedUnder(labels, o)|
  {
    SameCount(labels, HasOutcome(o), CountedUnder(labels, o));
    if i :| i in CountedUnder(labels, o) {
      assert OutcomeOf(labels[i]) == o;
    }
  }

  class LabelStore {
    var file: seq<Label>              // mint_labels.csv, which others may rewrite
    var labels: Option<seq<Label>>    // read once

    constructor (written: seq<Label>)
      ensures file == written && labels.None?
    {
      file, labels := written, None;
    }

    /** What every reader of this store sees. */
    function Rows(): seq<Label>
      reads this
    {
      if labels.Some? then labels.value else file
    }

    /** The file is read the first time only: afterwards `file` no longer matters. */
    method LoadMintLabels() returns (rows: seq<Label>)
      modifies this`labels
      ensures rows == old(Rows()) == Rows() && labels == Some(rows)
      ensures old(labels).Some? ==> labels == old(labels)
    {
      if labels.None? {
        labels := Some(file);
      }
      rows := labels.value;
    }

    /** The first row of a mint. */
    method GetLabel(mint: string) returns (found: Option<Label>)
      modifies this`labels
      ensures Rows() == old(Rows())
      ensures found.None? <==> forall i :: 0 <= i < |Rows()| ==> Rows()[i].mint != mint
      ensures found.Some? ==>
                exists i :: 0 <= i < |Rows()| && Rows()[i] == found.value && found.value.mint == mint
                            && forall j :: 0 <= j < i ==> Rows()[j].mint != mint
    {
      var rows := LoadMintLabels();
      for i := 0 to |rows|
        invariant forall j :: 0 <= j < i ==> rows[j].mint != mint
      {
        if rows[i].mint == mint {
          return Some(rows[i]);
        }
      }
      found := None;
    }

    /** Every blocker is a true objection to some row, every objection is listed,
        and the store passes exactly when every row is acceptable. */
    method Validate() returns (passed: bool, blockers: seq<LabelBlocker>, checked: nat)
      modifies this`labels
      ensures Rows() == old(Rows()) && checked == |Rows()|
      ensures passed <==> blockers == []
      ensures forall b :: b in blockers <==> Justified(b, Rows())
      ensures passed <==> forall i :: 0 <= i < |Rows()| ==> Acceptable(Rows()[i])
    {
      blockers := [];
      var rows := LoadMintLabels();
      for i := 0 to |rows|
        invariant Rows() == rows
        invariant forall b :: b in blockers <==> Justified(b, rows[..i])
      {
        var more := CheckLabel(rows[i]);
        forall b ensures b in blockers + more <==> Justified(b, rows[..i + 1]) {
          JustifiedStep(b, rows, i);
        }
        blockers := blockers + more;
      }
      assert rows[..|rows|] == rows;
      NoneJustified(rows, blockers);
      passed := blockers == [];
      checked := |rows|;
    }

    method Summary() returns (s: StoreSummary)
      modifies this`labels
      ensures Rows() == old(Rows())
      ensures s == StoreSummary(
                     |Rows()|, CountLabels(Rows(), IsCleanNegative()), CountLabels(Rows(), IsCleanPositive()),
                     CountLabels(Rows(), IsCensored()), CountLabels(Rows(), IsCheckpoint()),
                     CountLabels(Rows(), IsReplayEligible()), s.outcomes)
      ensures CountsOutcomes(s.outcomes, Rows())
    {
      var rows := LoadMintLabels();
      var cleanNegatives := CountRows(rows, IsCleanNegative());
      var cleanPositives := CountRows(rows, IsCleanPositive());
      var censored := CountRows(rows, IsCensored());
      var checkpoints := CountRows(rows, IsCheckpoint());
      var replayEligible := CountRows(rows, IsReplayEligible());
      var outcomes := CountOutcomes(rows);
      s := StoreSummary(|rows|, cleanNegatives, cleanPositives, censored, checkpoints, replayEligible, outcomes);
    }
  }
}
