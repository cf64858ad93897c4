/** The storage check before every slice
    (scripts/run_background_24h_collector.py: ensure_local_storage_ready). */
module StorageReadiness {
  import opened Common

  const MAX_USAGE_MB: nat := 5000
  const DEFAULT_REQUIRED_MB: nat := 10000
  const BYTES_PER_MB: nat := 1024 * 1024

  datatype StorageBlocker =
    | OutputBelowRequired(free: nat, required: nat)
    | SpoolBelowRequired(free: nat, required: nat)
    | ReportedDisk(text: string)
    | PreflightMentionsDisk
    | OverrideProblem(text: string)
    | UsageAboveBudget(used: nat)
    | PreflightFailedNonDisk
    | BelowRecommended(free: nat, recommended: nat)
    | InsufficientSafeBulk

  /** The preflight's answer. `diskTexts` are its blockers that mention disk or
      spool, `tailMentionsDisk` tells whether its output does. */
  datatype Preflight = Preflight(
    returncode: int, required: Option<nat>, free: Option<nat>, spool: Option<nat>,
    diskTexts: seq<string>, tailMentionsDisk: bool, overrideTexts: seq<string>)

  /** The answer of the storage enforcer, dry or applied. */
  datatype Sweep = Sweep(returncode: int, usageMb: Option<nat>, safeBytes: Option<nat>)

  /** Everything the check can learn, each item used at most once. */
  datatype Surroundings = Surroundings(
    before: Preflight, dryRun: Sweep, apply: Sweep, after: Preflight, override: bool, recommended: nat)

  datatype Verdict = Verdict(
    ok: bool, blockers: seq<StorageBlocker>, gcRan: bool, usageMb: nat, final: Preflight)

  function Or<T>(value: Option<T>, default: T): T {
    match value case Some(v) => v case None => default
  }

  function Required(p: Preflight): nat { Or(p.required, DEFAULT_REQUIRED_MB) }
  function Free(p: Preflight): nat { Or(p.free, 0) }

  function WhenBlocked(condition: bool, b: StorageBlocker): seq<StorageBlocker> {
    if condition then [b] else []
  }

  function DiskBlockers(p: Preflight): seq<StorageBlocker> {
    var required, free := Required(p), Free(p);
    var spool := Or(p.spool, free);
    var found := WhenBlocked(free != 0 && free < required, OutputBelowRequired(free, required))
               + WhenBlocked(spool != 0 && spool < required, SpoolBelowRequired(spool, required))
               + seq(|p.diskTexts|, i requires 0 <= i < |p.diskTexts| => ReportedDisk(p.diskTexts[i]));
    found
    + WhenBlocked(p.returncode != 0 && found == [] && p.tailMentionsDisk, PreflightMentionsDisk)
    + seq(|p.overrideTexts|, i requires 0 <= i < |p.overrideTexts| => OverrideProblem(p.overrideTexts[i]))
  }

  // ----- the decision, stated -----

  predicate RoomEnough(p: Preflight, w: Surroundings) {
    DiskBlockers(p) == [] && p.returncode == 0 && (Free(p) >= w.recommended || w.override)
  }

  predicate OverBudget(w: Surroundings) {
    Or(w.dryRun.usageMb, 0) > MAX_USAGE_MB
  }

  /** The usage the check believes in once the budget has been enforced. */
  function BudgetUsage(w: Surroundings): nat {
    if OverBudget(w) then Or(w.apply.usageMb, Or(w.dryRun.usageMb, 0)) else Or(w.dryRun.usageMb, 0)
  }

  function NeededBytes(w: Surroundings): nat {
    var target := if Free(w.before) < Required(w.before) then Required(w.before) else w.recommended;
    if target > Free(w.before) then (target - Free(w.before)) * BYTES_PER_MB else 0
  }

  /** The check goes on to free disk space. */
  predicate GoesOnToSweep(w: Surroundings) {
    && BudgetUsage(w) <= MAX_USAGE_MB
    && !RoomEnough(w.before, w)
    && !(DiskBlockers(w.before) == [] && w.before.returncode != 0)
    && w.dryRun.returncode == 0 && Or(w.dryRun.safeBytes, 0) >= NeededBytes(w)
  }

  predicate Ready(w: Surroundings) {
    && BudgetUsage(w) <= MAX_USAGE_MB
    && (RoomEnough(w.before, w)
        || (GoesOnToSweep(w) && RoomEnough(w.after, w) && Or(w.apply.usageMb, BudgetUsage(w)) <= MAX_USAGE_MB))
  }

  /** The check runs the enforcer destructively. */
  predicate SweepRuns(w: Surroundings) {
    OverBudget(w) || GoesOnToSweep(w)
  }

  /** The preflight failed for a reason other than the disk. */
  predicate FailedNonDisk(w: Surroundings) {
    DiskBlockers(w.before) == [] && w.before.returncode != 0
  }

  /** The last collector usage an enforcer run reported to the check, if any. */
  function ReportedUsage(w: Surroundings): Option<nat> {
    if SweepRuns(w) && w.apply.usageMb.Some? then w.apply.usageMb else w.dryRun.usageMb
  }

  // ----- the same on the raw answers -----

  /** The preflight reported less than is required, and not zero. */
  predicate Short(reported: nat, required: nat) {
    0 < reported < required
  }

  /** A missing requirement is 10000, a missing free space 0, a missing spool space
      the free space. */
  function RequiredMb(p: Preflight): nat { if p.required.Some? then p.required.value else 10000 }
  function FreeMb(p: Preflight): nat { if p.free.Some? then p.free.value else 0 }
  function SpoolMb(p: Preflight): nat { if p.spool.Some? then p.spool.value else FreeMb(p) }

  /** Why each blocker of the disk is raised. */
  predicate RaisedByDisk(p: Preflight, b: StorageBlocker) {
    match b
    case OutputBelowRequired(free, required) => free == FreeMb(p) && required == RequiredMb(p) && Short(free, required)
    case SpoolBelowRequired(free, required) => free == SpoolMb(p) && required == RequiredMb(p) && Short(free, required)
    case ReportedDisk(text) => text in p.diskTexts
    case PreflightMentionsDisk =>
      && p.returncode != 0 && p.tailMentionsDisk && p.diskTexts == []
      && !Short(FreeMb(p), RequiredMb(p)) && !Short(SpoolMb(p), RequiredMb(p))
    case OverrideProblem(text) => text in p.overrideTexts
    case _ => false
  }

  predicate DiskRaises(p: Preflight) {
    || Short(FreeMb(p), RequiredMb(p)) || Short(SpoolMb(p), RequiredMb(p)) || p.diskTexts != [] || p.overrideTexts != []
    || (p.returncode != 0 && p.tailMentionsDisk)
  }

  lemma {:induction false} TextsAreReported(texts: seq<string>, made: seq<StorageBlocker>, b: StorageBlocker, reported: bool)
    requires |made| == |texts|
    requires forall i :: 0 <= i < |texts| ==> made[i] == if reported then ReportedDisk(texts[i]) else OverrideProblem(texts[i])
    ensures b in made <==> if reported then b.ReportedDisk? && b.text in texts else b.OverrideProblem? && b.text in texts
  {
    if i :| 0 <= i < |texts| && b == (if reported then ReportedDisk(texts[i]) else OverrideProblem(texts[i])) {
      assert made[i] == b;
    }
  }

  /** The list is exactly what the disk raises. */
  lemma {:induction false} DiskBlockersExactly(p: Preflight, b: StorageBlocker)
    ensures b in DiskBlockers(p) <==> RaisedByDisk(p, b)
    ensures DiskBlockers(p) == [] <==> !DiskRaises(p)
  {
    var disk := seq(|p.diskTexts|, i requires 0 <= i < |p.diskTexts| => ReportedDisk(p.diskTexts[i]));
    var override := seq(|p.overrideTexts|, i requires 0 <= i < |p.overrideTexts| => OverrideProblem(p.overrideTexts[i]));
    TextsAreReported(p.diskTexts, disk, b, true);
    TextsAreReported(p.overrideTexts, override, b, false);
  }

  /** The preflight passed and shows room, or the operator overrides. */
  predicate ShowsRoom(p: Preflight, recommended: nat, override: bool) {
    !DiskRaises(p) && p.returncode == 0 && (FreeMb(p) >= recommended || override)
  }

  /** The sweep is asked for the least number of bytes that lifts the free space to
      the requirement, or, when that is met, to the recommendation. */
  lemma {:induction false} NeedIsLeast(w: Surroundings, bytes: nat)
    ensures var target := if FreeMb(w.before) < RequiredMb(w.before) then RequiredMb(w.before) else w.recommended;
            bytes >= NeededBytes(w) <==> FreeMb(w.before) * 1048576 + bytes >= target * 1048576
  {
  }

  /** The conditions the check goes by. */
  lemma {:induction false} ConditionsExactly(w: Surroundings, p: Preflight)
    ensures RoomEnough(p, w) <==> ShowsRoom(p, w.recommended, w.override)
    ensures FailedNonDisk(w) <==> !DiskRaises(w.before) && w.before.returncode != 0
    ensures OverBudget(w) <==> exists u :: w.dryRun.usageMb == Some(u) && u > 5000
  {
    DiskBlockersExactly(p, PreflightMentionsDisk);
    DiskBlockersExactly(w.before, PreflightMentionsDisk);
    if OverBudget(w) {
      assert w.dryRun.usageMb == Some(w.dryRun.usageMb.value);
    }
  }

  /** Why a check that is not ready says so, apart from what the disk raises. */
  predicate RaisedByCheck(w: Surroundings, b: StorageBlocker, used: nat, final: Preflight) {
    match b
    case UsageAboveBudget(u) => u == used && used > 5000
    case PreflightFailedNonDisk => BudgetUsage(w) <= 5000 && FailedNonDisk(w)
    case BelowRecommended(free, recommended) =>
      && free == FreeMb(final) && recommended == w.recommended && free < recommended && !w.override
      && BudgetUsage(w) <= 5000 && final.returncode == 0 && (GoesOnToSweep(w) || !DiskRaises(w.before))
    case InsufficientSafeBulk => BudgetUsage(w) <= 5000 && !RoomEnough(w.before, w) && !FailedNonDisk(w) && !GoesOnToSweep(w)
    case _ => false
  }

  /** The blockers of the check, branch by branch. */
  function CheckBlockers(w: Surroundings): seq<StorageBlocker> {
    if BudgetUsage(w) > MAX_USAGE_MB then DiskBlockers(w.before) + [UsageAboveBudget(BudgetUsage(w))]
    else if RoomEnough(w.before, w) then []
    else if FailedNonDisk(w) then [PreflightFailedNonDisk]
    else if GoesOnToSweep(w) then
      var usage := Or(w.apply.usageMb, BudgetUsage(w));
      DiskBlockers(w.after)
      + WhenBlocked(w.after.returncode == 0 && Free(w.after) < w.recommended && !w.override,
                    BelowRecommended(Free(w.after), w.recommended))
      + WhenBlocked(usage > MAX_USAGE_MB, UsageAboveBudget(usage))
    else if DiskBlockers(w.before) == [] then [BelowRecommended(Free(w.before), w.recommended), InsufficientSafeBulk]
    else DiskBlockers(w.before) + [InsufficientSafeBulk]
  }

  /** Exactly what the disk of the preflight that counts raises, and the check's own. */
  lemma {:induction false} CheckBlockersExactly(w: Surroundings, b: StorageBlocker)
    ensures var final := if GoesOnToSweep(w) then w.after else w.before;
            b in CheckBlockers(w) <==>
              !Ready(w) && (RaisedByDisk(final, b) || RaisedByCheck(w, b, Or(ReportedUsage(w), 0), final))
  {
    DiskBlockersExactly(w.before, b);
    DiskBlockersExactly(w.after, b);
  }

  /** The check. `sweeps` counts the destructive runs of the enforcer. */
  method EnsureStorageReady(w: Surroundings) returns (v: Verdict, sweeps: nat)
    ensures v.ok <==> Ready(w)
    ensures v.ok ==> v.usageMb <= MAX_USAGE_MB && RoomEnough(v.final, w) && v.blockers == []
    ensures !v.ok && v.blockers == [] ==> v.final == w.after && w.after.returncode != 0
    ensures sweeps == if SweepRuns(w) then 1 else 0
    ensures v.final == if GoesOnToSweep(w) then w.after else w.before
    ensures v.usageMb == Or(ReportedUsage(w), 0)
    ensures v.blockers == CheckBlockers(w)
    ensures v.gcRan <==> GcReported(w)
    ensures v.gcRan == (sweeps == 1) <==>
              && (SweepRuns(w) || RoomEnough(w.before, w) || FailedNonDisk(w))
              && !(OverBudget(w) && BudgetUsage(w) <= MAX_USAGE_MB && FailedNonDisk(w))
  {
    GcReportIsRightExactly(w);
    sweeps := 0;
    var blockers := DiskBlockers(w.before);
    var usage := Or(w.dryRun.usageMb, 0);
    if usage > MAX_USAGE_MB {
      sweeps := 1;
      usage := Or(w.apply.usageMb, usage);
      if usage > MAX_USAGE_MB {
        return Verdict(false, blockers + [UsageAboveBudget(usage)], true, usage, w.before), sweeps;
      }
    }
    if blockers == [] && w.before.returncode == 0 && (Free(w.before) >= w.recommended || w.override) {
      return Verdict(true, [], sweeps == 1, usage, w.before), sweeps;
    }
    if blockers == [] && w.before.returncode != 0 {
      return Verdict(false, [PreflightFailedNonDisk], false, usage, w.before), sweeps;
    }
    if blockers == [] && Free(w.before) < w.recommended && !w.override {
      blockers := [BelowRecommended(Free(w.before), w.recommended)];
    }
    if w.dryRun.returncode != 0 || Or(w.dryRun.safeBytes, 0) < NeededBytes(w) {
      return Verdict(false, blockers + [InsufficientSafeBulk], true, usage, w.before), sweeps;
    }
    sweeps := 1;
    var afterBlockers := DiskBlockers(w.after);
    if w.after.returncode == 0 && Free(w.after) < w.recommended && !w.override {
      afterBlockers := afterBlockers + [BelowRecommended(Free(w.after), w.recommended)];
    }
    var afterUsage := Or(w.apply.usageMb, usage);
    if afterUsage > MAX_USAGE_MB {
      afterBlockers := afterBlockers + [UsageAboveBudget(afterUsage)];
    }
    v := Verdict(afterBlockers == [] && w.after.returncode == 0, afterBlockers, true, afterUsage, w.after);
  }

  /** What the check reports as `gc_ran`, branch by branch. */
  predicate GcReported(w: Surroundings) {
    if BudgetUsage(w) > MAX_USAGE_MB then true
    else if RoomEnough(w.before, w) then OverBudget(w)
    else !FailedNonDisk(w)
  }

  /** When `gc_ran` is wrong, both ways: it denies a sweep that ran exactly when the
      budget was enforced and the preflight had failed for a reason other than the
      disk; it claims a sweep that did not run exactly when the disk is short and
      the dry run failed or found too few safe bytes. */
  lemma {:induction false} GcReportIsRightExactly(w: Surroundings)
    ensures SweepRuns(w) && !GcReported(w) <==>
              OverBudget(w) && BudgetUsage(w) <= MAX_USAGE_MB && FailedNonDisk(w)
    ensures !SweepRuns(w) && GcReported(w) <==>
              && !OverBudget(w) && !RoomEnough(w.before, w) && !FailedNonDisk(w)
              && (w.dryRun.returncode != 0 || Or(w.dryRun.safeBytes, 0) < NeededBytes(w))
    ensures (GcReported(w) <==> SweepRuns(w)) <==>
              && (SweepRuns(w) || RoomEnough(w.before, w) || FailedNonDisk(w))
              && !(OverBudget(w) && BudgetUsage(w) <= MAX_USAGE_MB && FailedNonDisk(w))
  {
  }

  /** A ready verdict rests on no reported usage at all exactly when the dry run
      reported none and either the disk already had room or the sweep that made
      room reported none either. Otherwise the usage it rests on is in budget. */
  lemma {:induction false} ReadyWithoutUsageExactly(w: Surroundings)
    ensures Ready(w) && ReportedUsage(w).None? <==>
              && w.dryRun.usageMb.None?
              && (RoomEnough(w.before, w)
                  || (GoesOnToSweep(w) && RoomEnough(w.after, w) && w.apply.usageMb.None?))
    ensures Ready(w) && ReportedUsage(w).Some? ==> ReportedUsage(w).value <= MAX_USAGE_MB
  {
  }

  /** A dry run that reports no usage is taken for an empty collector directory:
      the budget can then keep the check from being ready only after a sweep. */
  lemma {:induction false} UnknownUsageReadsAsZero(w: Surroundings)
    requires w.dryRun.usageMb.None?
    ensures !OverBudget(w) && BudgetUsage(w) == 0
    ensures Ready(w) <==>
              || RoomEnough(w.before, w)
              || (!FailedNonDisk(w) && w.dryRun.returncode == 0 && Or(w.dryRun.safeBytes, 0) >= NeededBytes(w)
                  && RoomEnough(w.after, w) && Or(w.apply.usageMb, 0) <= MAX_USAGE_MB)
  {
  }

  /** Without a reported safe-byte total the check sweeps for space only when the
      output disk is not short: exactly when something else about the disk blocks. */
  lemma {:induction false} SweepWithoutReportedBytesExactly(w: Surroundings)
    requires w.dryRun.safeBytes.None?
    ensures GoesOnToSweep(w) <==>
              && BudgetUsage(w) <= MAX_USAGE_MB && w.dryRun.returncode == 0 && DiskBlockers(w.before) != []
              && Free(w.before) >= Required(w.before) && Free(w.before) >= w.recommended
    ensures Free(w.before) < w.recommended && !w.override ==> !Ready(w)
  {
    if Free(w.before) < w.recommended || Free(w.before) < Required(w.before) {
      assert NeededBytes(w) > 0;
    }
  }
}
