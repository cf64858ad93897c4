/** The storage check together with the enforcer it runs: what the enforcer prints
    and what the check makes of it (scripts/local_r2_first_storage_enforcer.py:
    main; scripts/run_background_24h_collector.py: run_storage_gc). */
module StorageCheck {
  import opened Common
  import opened FileTree
  import opened StorageEnforcer
  import opened StorageReadiness

  const DELETED := "deleted_bytes"
  const USAGE := "local_stream_collector_mb_after"
  const PROJECT := "project_generated_mb_after"

  /** The two names under which the check looks for a safe-byte total. */
  const SAFE := "safe_delete_bytes"
  const SAFE_AVAILABLE := "safe_delete_bytes_available"

  ghost function UsageMb(files: Files, root: Path): nat {
    Total(Below(files, root)) / BYTES_PER_MB
  }

  /** What an applied run with the collector's options removes: the bulk of every
      run that is not active. */
  ghost predicate Pruned(q: Path, bulk: set<Path>, facts: Path -> RunFacts) {
    exists d :: d in bulk && d != [] && d <= q && !facts(RunDirOf(d)).active
  }

  lemma {:induction false} PrunedIsGoes(q: Path, bulk: set<Path>, facts: Path -> RunFacts, repo: Path)
    requires [] !in bulk
    ensures Goes(q, bulk, facts, true, [], repo) <==> Pruned(q, bulk, facts)
  {
    forall d | d in bulk ensures BulkGoes(d, facts, true) <==> !facts(RunDirOf(d)).active {
      LegacyOptionAsksOnlyForInactivity(d, facts);
    }
  }

  /** The destructive part of a run with the collector's options. */
  method Prune(tree: FileTree, root: Path, repo: Path, facts: Path -> RunFacts) returns (deletedBytes: nat)
    requires tree.Valid()
    modifies tree
    ensures tree.Valid() && PartOf(tree.files, old(tree.files))
    ensures forall q :: q in old(tree.files) ==>
              (q !in tree.files <==> Pruned(q, old(BulkWithBytes(tree.files, tree.dirs, root)), facts))
    ensures deletedBytes == old(tree.Size()) - tree.Size()
  {
    ghost var bulk := BulkWithBytes(tree.files, tree.dirs, root);
    ghost var was := tree.files;
    var deleted, available := Enforce(tree, root, repo, facts, true, []);
    deletedBytes := SumBytes(deleted);
    forall q | q in was ensures q !in tree.files <==> Pruned(q, bulk, facts) {
      PrunedIsGoes(q, bulk, facts, repo);
    }
  }

  method MeasureUsage(tree: FileTree, root: Path) returns (usage: nat)
    requires tree.Valid()
    ensures usage == UsageMb(tree.files, root)
  {
    var bytes := tree.SizeBytes(root);
    usage := bytes / BYTES_PER_MB;
  }

  /** One run of the enforcer as the collector starts it: the numbers it prints and
      its exit code. */
  method RunEnforcer(tree: FileTree, root: Path, repo: Path, facts: Path -> RunFacts, apply: bool)
    returns (deletedBytes: nat, usage: nat, returncode: nat)
    requires tree.Valid()
    modifies tree
    ensures tree.Valid() && PartOf(tree.files, old(tree.files))
    ensures !apply ==> tree.files == old(tree.files)
    ensures apply ==> forall q :: q in old(tree.files) ==>
              (q !in tree.files <==> Pruned(q, old(BulkWithBytes(tree.files, tree.dirs, root)), facts))
    ensures deletedBytes == old(tree.Size()) - tree.Size() && usage == UsageMb(tree.files, root)
    ensures returncode == if apply && usage > MAX_USAGE_MB then 2 else 0
  {
    deletedBytes := 0;
    if apply {
      deletedBytes := Prune(tree, root, repo, facts);
    }
    usage := MeasureUsage(tree, root);
    returncode := if apply && usage > MAX_USAGE_MB then 2 else 0;
  }

  /** The last output line; the size of the project is not looked at by the check. */
  function LastLine(deletedBytes: nat, usageMb: nat, projectMb: nat): map<string, nat> {
    map[DELETED := deletedBytes, USAGE := usageMb, PROJECT := projectMb]
  }

  function Lookup(printed: map<string, nat>, key: string): Option<nat> {
    if key in printed then Some(printed[key]) else None
  }

  /** What the check takes from the enforcer's output. */
  function ReadSweep(printed: map<string, nat>, returncode: int): (s: Sweep)
    ensures s.safeBytes.Some? <==> "safe_delete_bytes" in printed || "safe_delete_bytes_available" in printed
    ensures "safe_delete_bytes" in printed ==> s.safeBytes == Some(printed["safe_delete_bytes"])
    ensures "safe_delete_bytes" !in printed && "safe_delete_bytes_available" in printed ==>
              s.safeBytes == Some(printed["safe_delete_bytes_available"])
  {
    var safe := Lookup(printed, SAFE);
    Sweep(returncode, Lookup(printed, USAGE), if safe.Some? then safe else Lookup(printed, SAFE_AVAILABLE))
  }

  /** The enforcer never prints a safe-byte total, and always its usage. */
  lemma {:induction false} EnforcerReports(deletedBytes: nat, usageMb: nat, projectMb: nat, returncode: int)
    ensures ReadSweep(LastLine(deletedBytes, usageMb, projectMb), returncode) == Sweep(returncode, Some(usageMb), None)
  {
    assert SAFE[0] == 's' && DELETED[0] == 'd' && USAGE[0] == 'l' && PROJECT[0] == 'p' && SAFE_AVAILABLE[0] == 's';
  }

  /** The disk blocks although its free space is at the recommended level. */
  predicate BlockedWithSpace(p: Preflight, recommended: nat) {
    DiskRaises(p) && FreeMb(p) >= RequiredMb(p) && FreeMb(p) >= recommended
  }

  /** Whether the check sweeps does not depend on what the sweep will report. */
  lemma {:induction false} SweepNeedIgnoresItsReport(w: Surroundings, report: Sweep)
    ensures SweepRuns(w) <==> SweepRuns(w.(apply := report))
  {
  }

  /** The check's decisions when every answer about the tree is the enforcer's:
      `usage` before and `left` after what the check runs. */
  lemma {:induction false} DecidedByUsage(w: Surroundings, usage: nat, left: nat)
    requires w.dryRun == Sweep(0, Some(usage), None)
    requires if SweepRuns(w) then w.apply.usageMb == Some(left) else usage == left
    ensures SweepRuns(w) <==> usage > MAX_USAGE_MB || BlockedWithSpace(w.before, w.recommended)
    ensures Or(ReportedUsage(w), 0) == left
    ensures Ready(w) <==>
              && left <= MAX_USAGE_MB
              && (ShowsRoom(w.before, w.recommended, w.override)
                  || (BlockedWithSpace(w.before, w.recommended) && ShowsRoom(w.after, w.recommended, w.override)))
  {
    SweepWithoutReportedBytesExactly(w);
    ConditionsExactly(w, w.before);
    ConditionsExactly(w, w.after);
    DiskBlockersExactly(w.before, PreflightMentionsDisk);
  }

  /** Asks the enforcer, and lets it sweep when the check would. */
  method Gather(tree: FileTree, root: Path, repo: Path, facts: Path -> RunFacts, before: Preflight,
                after: Preflight, override: bool, recommended: nat, projectMb: nat)
    returns (w: Surroundings)
    requires tree.Valid()
    modifies tree
    ensures tree.Valid() && PartOf(tree.files, old(tree.files))
    ensures w.before == before && w.after == after && w.override == override && w.recommended == recommended
    ensures w.dryRun == Sweep(0, Some(old(UsageMb(tree.files, root))), None)
    ensures if SweepRuns(w) then w.apply.usageMb == Some(UsageMb(tree.files, root)) else tree.files == old(tree.files)
    ensures SweepRuns(w) ==> forall q :: q in old(tree.files) ==>
              (q !in tree.files <==> Pruned(q, old(BulkWithBytes(tree.files, tree.dirs, root)), facts))
  {
    var deletedBytes, usage, returncode := RunEnforcer(tree, root, repo, facts, false);
    EnforcerReports(deletedBytes, usage, projectMb, returncode);
    var dry := ReadSweep(LastLine(deletedBytes, usage, projectMb), returncode);
    w := Surroundings(before, dry, dry, after, override, recommended);
    if SweepRuns(w) {
      deletedBytes, usage, returncode := RunEnforcer(tree, root, repo, facts, true);
      EnforcerReports(deletedBytes, usage, projectMb, returncode);
      SweepNeedIgnoresItsReport(w, ReadSweep(LastLine(deletedBytes, usage, projectMb), returncode));
      w := w.(apply := ReadSweep(LastLine(deletedBytes, usage, projectMb), returncode));
    }
  }

  /** The check on a file tree. A ready verdict means that the collector directory
      is really within its budget; a disk that is short of space is never swept for
      space, only a collector directory over its budget or a disk that blocks for
      another reason is. */
  method CheckStorage(tree: FileTree, root: Path, repo: Path, facts: Path -> RunFacts, before: Preflight,
                      after: Preflight, override: bool, recommended: nat, projectMb: nat)
    returns (v: Verdict, sweeps: nat)
    requires tree.Valid()
    modifies tree
    ensures tree.Valid() && PartOf(tree.files, old(tree.files))
    ensures sweeps == if old(UsageMb(tree.files, root)) > MAX_USAGE_MB || BlockedWithSpace(before, recommended) then 1 else 0
    ensures sweeps == 0 ==> tree.files == old(tree.files)
    ensures sweeps == 1 ==> forall q :: q in old(tree.files) ==>
              (q !in tree.files <==> Pruned(q, old(BulkWithBytes(tree.files, tree.dirs, root)), facts))
    ensures v.usageMb == UsageMb(tree.files, root)
    ensures v.ok <==>
              && UsageMb(tree.files, root) <= MAX_USAGE_MB
              && (ShowsRoom(before, recommended, override)
                  || (BlockedWithSpace(before, recommended) && ShowsRoom(after, recommended, override)))
  {
    ghost var usage := UsageMb(tree.files, root);
    var w := Gather(tree, root, repo, facts, before, after, override, recommended, projectMb);
    DecidedByUsage(w, usage, UsageMb(tree.files, root));
    v, sweeps := EnsureStorageReady(w);
  }
}
