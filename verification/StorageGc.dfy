/** The garbage collector: how it assesses a run directory and what its deletion
    loop removes (scripts/local_r2_primary_storage_gc.py). */
module StorageGc {
  import opened Common
  import opened FileTree
  import opened StorageEnforcer

  const NEVER_DELETE: set<string> := {".git", ".codex_runtime_env", "config", "target", "scripts", "crates", ".ssh"}

  // ----- what a run directory's files say -----

  datatype R2Doc = R2Doc(verified: Flag, failedFiles: nat, uploadedFiles: nat)
  datatype RetentionDoc = RetentionDoc(ok: Flag, r2Verified: Flag)
  datatype ServiceDoc = ServiceDoc(hunterExitZero: bool, collectorCompleted: bool)
  datatype TransportDoc = TransportDoc(
    sequenceGap: int, hashMismatch: int, malformed: int, backpressure: int, unavailable: int, hasFrames: bool)

  /** `None` stands for a file that is missing or an empty document. A counter
      that is missing or unreadable is 0. */
  datatype RunFiles = RunFiles(
    name: string, active: bool,
    r2: Option<R2Doc>, retention: Option<RetentionDoc>, service: Option<ServiceDoc>,
    collector: Option<TransportDoc>, proof: Option<TransportDoc>,
    artifactsOk: bool, artifactsFromSummary: bool)

  predicate R2Verified(f: RunFiles) {
    f.r2.Some? && (f.r2.value.verified == Yes || (f.r2.value.failedFiles == 0 && f.r2.value.uploadedFiles > 0))
  }

  predicate Completed(f: RunFiles) {
    || (f.service.Some? && (f.service.value.hunterExitZero || f.service.value.collectorCompleted))
    || (f.collector.Some? && f.collector.value.hasFrames)
  }

  predicate CountersZero(d: TransportDoc) {
    d.sequenceGap == d.hashMismatch == d.malformed == d.backpressure == d.unavailable == 0
  }

  /** The collector summary is read first, then the proof summary. */
  predicate IntegrityClean(f: RunFiles) {
    match f.collector
    case Some(d) => CountersZero(d)
    case None => match f.proof case Some(d) => CountersZero(d) case None => true
  }

  predicate RetentionOk(f: RunFiles) {
    f.retention.Some? && f.retention.value.ok == Yes
  }

  predicate RetentionR2Verified(f: RunFiles) {
    f.retention.Some? && f.retention.value.r2Verified == Yes
  }

  predicate NeverDelete(p: Path) {
    exists i :: 0 <= i < |p| && p[i] in NEVER_DELETE
  }

  // ----- assessment -----

  datatype Reason =
    | Inflight | OutsideRoot | NeverDeletePath | MissingR2 | R2NotVerified | ArtifactsNotProven
    | NotCompleted | IntegrityNotClean | NoBulkPaths | RetentionMissing

  datatype Tier = NoTier | TierA | TierB

  datatype Assessment = Assessment(safe: bool, tier: Tier, reasons: seq<Reason>)

  /** Every bulk path of the run is raw relay frames. */
  predicate OnlyRelayFrames(paths: set<Path>) {
    forall p :: p in paths ==> p != [] && p[|p| - 1] == "relay_frames"
  }

  function ReasonIf(condition: bool, r: Reason): seq<Reason> {
    if condition then [r] else []
  }

  /** The legacy exception: clean relay-frame-only runs need no artifact proof. */
  predicate ArtifactsAccepted(f: RunFiles, paths: set<Path>) {
    (R2Verified(f) && f.artifactsOk) ||
    (RetentionOk(f) && RetentionR2Verified(f) && R2Verified(f) && Completed(f) && IntegrityClean(f)
     && paths != {} && OnlyRelayFrames(paths))
  }

  // ----- what the files prove, stated on their fields -----

  /** The upload result says verified, or lists uploads and no failure. */
  predicate UploadProven(f: RunFiles) {
    match f.r2
    case None => false
    case Some(r2) => r2.verified == Yes || (r2.uploadedFiles > 0 && r2.failedFiles == 0)
  }

  /** The exit status says so, or the collector counted frames. */
  ghost predicate CompletionProven(f: RunFiles) {
    || (f.service.Some? && (f.service.value.hunterExitZero || f.service.value.collectorCompleted))
    || (f.collector.Some? && f.collector.value.hasFrames)
  }

  /** `d` is the summary that counts: the collector's, or else the proof's. */
  ghost predicate Decisive(f: RunFiles, d: TransportDoc) {
    f.collector == Some(d) || (f.collector == None && f.proof == Some(d))
  }

  /** None of the five counters of the summary that counts, if there is one, shows
      an error. */
  ghost predicate NoErrorShown(f: RunFiles) {
    forall d :: Decisive(f, d) ==>
      d.sequenceGap == 0 && d.hashMismatch == 0 && d.malformed == 0 && d.backpressure == 0 && d.unavailable == 0
  }

  ghost predicate RetentionSaysOk(f: RunFiles) {
    f.retention.Some? && f.retention.value.ok == Yes
  }

  /** A name on the path is one of the seven protected ones. */
  predicate Protected(p: Path) {
    exists name :: name in p && name in {".git", ".codex_runtime_env", "config", "target", "scripts", "crates", ".ssh"}
  }

  ghost predicate AllRelayFrames(paths: set<Path>) {
    forall p :: p in paths ==> exists dir: Path :: p == dir + ["relay_frames"]
  }

  /** What a run must prove for its bulk to be removed. */
  ghost predicate Deletable(f: RunFiles, runDir: Path, paths: set<Path>, root: Path) {
    && !f.active && UploadProven(f) && CompletionProven(f) && NoErrorShown(f) && !Protected(runDir) && paths != {}
    && (AllRelayFrames(paths) || (root <= runDir && RetentionSaysOk(f) && f.artifactsOk))
  }

  /** The artifacts are consistent, or the legacy exception excuses them. */
  ghost predicate ArtifactsProven(f: RunFiles, paths: set<Path>) {
    && UploadProven(f)
    && (f.artifactsOk
        || (RetentionSaysOk(f) && f.retention.value.r2Verified == Yes
            && CompletionProven(f) && NoErrorShown(f) && paths != {} && AllRelayFrames(paths)))
  }

  /** Why each ordinary reason is given. */
  ghost predicate Objected(r: Reason, f: RunFiles, runDir: Path, paths: set<Path>, root: Path) {
    match r
    case Inflight => f.active
    case OutsideRoot => !(root <= runDir)
    case NeverDeletePath => Protected(runDir)
    case MissingR2 => f.r2 == None
    case R2NotVerified => f.r2 != None && !UploadProven(f)
    case ArtifactsNotProven => !ArtifactsProven(f, paths)
    case NotCompleted => !CompletionProven(f)
    case IntegrityNotClean => !NoErrorShown(f)
    case NoBulkPaths => paths == {}
    case RetentionMissing => !RetentionSaysOk(f) && paths != {} && !AllRelayFrames(paths)
  }

  /** Nothing speaks against the run before the tier-A override is looked at. */
  ghost predicate Ordinary(f: RunFiles, runDir: Path, paths: set<Path>, root: Path) {
    && !f.active && root <= runDir && !Protected(runDir) && ArtifactsProven(f, paths)
    && CompletionProven(f) && NoErrorShown(f) && paths != {} && (RetentionSaysOk(f) || AllRelayFrames(paths))
  }

  /** The tests of the code are these. */
  lemma {:induction false} TestsExactly(f: RunFiles, paths: set<Path>)
    ensures R2Verified(f) <==> UploadProven(f)
    ensures Completed(f) <==> CompletionProven(f)
    ensures IntegrityClean(f) <==> NoErrorShown(f)
    ensures RetentionOk(f) <==> RetentionSaysOk(f)
    ensures ArtifactsAccepted(f, paths) <==> ArtifactsProven(f, paths)
  {
    assert f.collector.Some? ==> Decisive(f, f.collector.value);
    assert f.collector.None? && f.proof.Some? ==> Decisive(f, f.proof.value);
    RelayFramesExactly(paths);
  }

  lemma {:induction false} RelayFramesExactly(paths: set<Path>)
    ensures OnlyRelayFrames(paths) <==> AllRelayFrames(paths)
  {
    forall p | p in paths ensures p != [] && p[|p| - 1] == "relay_frames" <==> exists dir: Path :: p == dir + ["relay_frames"] {
      if p != [] && p[|p| - 1] == "relay_frames" {
        assert p == p[..|p| - 1] + ["relay_frames"];
      }
    }
  }

  lemma {:induction false} ProtectedExactly(p: Path)
    ensures NeverDelete(p) <==> Protected(p)
  {
    if name :| name in p && name in NEVER_DELETE {
      var i :| 0 <= i < |p| && p[i] == name;
    }
    if NeverDelete(p) {
      var i :| 0 <= i < |p| && p[i] in NEVER_DELETE;
      assert p[i] in p;
    }
  }

  lemma {:induction false} NoneObjected(f: RunFiles, runDir: Path, paths: set<Path>, root: Path, reasons: seq<Reason>)
    requires forall r :: r in reasons <==> Objected(r, f, runDir, paths, root)
    ensures reasons == [] <==> Ordinary(f, runDir, paths, root)
  {
    if reasons != [] {
      assert Objected(reasons[0], f, runDir, paths, root);
    } else {
      forall r ensures !Objected(r, f, runDir, paths, root) {
        assert r !in reasons;
      }
      assert !Objected(Inflight, f, runDir, paths, root) && !Objected(OutsideRoot, f, runDir, paths, root);
      assert !Objected(NeverDeletePath, f, runDir, paths, root) && !Objected(MissingR2, f, runDir, paths, root);
      assert !Objected(R2NotVerified, f, runDir, paths, root) && !Objected(ArtifactsNotProven, f, runDir, paths, root);
      assert !Objected(NotCompleted, f, runDir, paths, root) && !Objected(IntegrityNotClean, f, runDir, paths, root);
      assert !Objected(NoBulkPaths, f, runDir, paths, root) && !Objected(RetentionMissing, f, runDir, paths, root);
    }
  }

  method AddReason(reasons: seq<Reason>, condition: bool, r: Reason) returns (longer: seq<Reason>)
    ensures forall x :: x in longer <==> x in reasons || (condition && x == r)
  {
    longer := if condition then reasons + [r] else reasons;
  }

  /** The reasons about where the run is and what R2 says. */
  predicate IsPlaceOrUpload(r: Reason) {
    r.Inflight? || r.OutsideRoot? || r.NeverDeletePath? || r.MissingR2? || r.R2NotVerified?
  }

  method PlaceReasons(f: RunFiles, runDir: Path, ghost paths: set<Path>, root: Path) returns (reasons: seq<Reason>)
    ensures forall r :: r in reasons <==> IsPlaceOrUpload(r) && Objected(r, f, runDir, paths, root)
  {
    TestsExactly(f, paths);
    ProtectedExactly(runDir);
    reasons := AddReason([], f.active, Inflight);
    reasons := AddReason(reasons, !(root <= runDir), OutsideRoot);
    reasons := AddReason(reasons, NeverDelete(runDir), NeverDeletePath);
    if f.r2.None? {
      reasons := AddReason(reasons, true, MissingR2);
    } else {
      reasons := AddReason(reasons, !R2Verified(f), R2NotVerified);
    }
  }

  method ProofReasons(f: RunFiles, ghost runDir: Path, paths: set<Path>, ghost root: Path) returns (reasons: seq<Reason>)
    ensures forall r :: r in reasons <==> !IsPlaceOrUpload(r) && Objected(r, f, runDir, paths, root)
  {
    TestsExactly(f, paths);
    RelayFramesExactly(paths);
    reasons := AddReason([], !ArtifactsAccepted(f, paths), ArtifactsNotProven);
    reasons := AddReason(reasons, !Completed(f), NotCompleted);
    reasons := AddReason(reasons, !IntegrityClean(f), IntegrityNotClean);
    reasons := AddReason(reasons, paths == {}, NoBulkPaths);
    reasons := AddReason(reasons, !RetentionOk(f) && paths != {} && !OnlyRelayFrames(paths), RetentionMissing);
  }

  /** The first pass of the assessment: exactly the ordinary reasons. */
  method OrdinaryReasons(f: RunFiles, runDir: Path, paths: set<Path>, root: Path) returns (reasons: seq<Reason>)
    ensures forall r :: r in reasons <==> Objected(r, f, runDir, paths, root)
    ensures reasons == [] <==> Ordinary(f, runDir, paths, root)
  {
    var place := PlaceReasons(f, runDir, paths, root);
    var proof := ProofReasons(f, runDir, paths, root);
    reasons := place + proof;
    NoneObjected(f, runDir, paths, root, reasons);
  }

  /** Assesses one run directory: the ordinary reasons, then the tier-A override
      that discards them. */
  method AssessRun(f: RunFiles, runDir: Path, paths: set<Path>, root: Path) returns (a: Assessment)
    ensures a.safe <==> Deletable(f, runDir, paths, root)
    ensures a.safe <==> a.reasons == []
    ensures a.tier == if !Deletable(f, runDir, paths, root) then NoTier
                      else if Ordinary(f, runDir, paths, root) && !(f.artifactsOk && f.artifactsFromSummary) then TierB
                      else TierA
    ensures !a.safe ==> forall r :: r in a.reasons <==> Objected(r, f, runDir, paths, root)
  {
    TestsExactly(f, paths);
    RelayFramesExactly(paths);
    ProtectedExactly(runDir);
    var reasons := OrdinaryReasons(f, runDir, paths, root);
    var safe, tier := reasons == [], NoTier;
    if !safe && paths != {} && OnlyRelayFrames(paths) {
      var tierA := ReasonIf(f.active, Inflight) + ReasonIf(!R2Verified(f), R2NotVerified)
                 + ReasonIf(!Completed(f), NotCompleted) + ReasonIf(!IntegrityClean(f), IntegrityNotClean)
                 + ReasonIf(NeverDelete(runDir), NeverDeletePath);
      if tierA == [] {
        safe, tier, reasons := true, TierA, [];
      }
    }
    if safe && tier == NoTier {
      tier := if f.artifactsOk && f.artifactsFromSummary then TierA else TierB;
    }
    a := Assessment(safe, tier, reasons);
  }

  /** What the enforcer makes of the same two files. */
  predicate EnforcerIntegrityClean(f: RunFiles) {
    match f.collector
    case Some(d) => CountersZero(d)
    case None => f.proof.Some? && CountersZero(f.proof.value)
  }

  /** The two sweepers disagree on integrity exactly about runs without evidence. */
  lemma {:induction false} SweepersDisagreeExactly(f: RunFiles)
    ensures IntegrityClean(f) != EnforcerIntegrityClean(f) <==> f.collector.None? && f.proof.None?
    ensures IntegrityClean(f) <==> NoErrorShown(f)
    ensures EnforcerIntegrityClean(f) <==> NoErrorShown(f) && exists d :: Decisive(f, d)
  {
    TestsExactly(f, {});
    assert f.collector.Some? ==> Decisive(f, f.collector.value);
    assert f.collector.None? && f.proof.Some? ==> Decisive(f, f.proof.value);
  }

  /** What the missing evidence costs: a run with neither transport summary is
      deletable exactly on the strength of its upload result and exit status. */
  lemma {:induction false} DeletableWithoutEvidenceExactly(f: RunFiles, runDir: Path, paths: set<Path>, root: Path)
    requires f.collector.None? && f.proof.None?
    ensures Deletable(f, runDir, paths, root) <==>
              && !f.active && UploadProven(f) && !Protected(runDir) && paths != {}
              && f.service.Some? && (f.service.value.hunterExitZero || f.service.value.collectorCompleted)
              && (AllRelayFrames(paths) || (root <= runDir && RetentionSaysOk(f) && f.artifactsOk))
  {
  }

  /** A deletable run can have failed uploads exactly when its upload result says
      it is verified all the same. */
  lemma {:induction false} FailedUploadsExactly(f: RunFiles, runDir: Path, paths: set<Path>, root: Path, failed: nat)
    requires f.r2.Some? && failed > 0
    ensures var g := f.(r2 := Some(f.r2.value.(failedFiles := failed)));
            Deletable(g, runDir, paths, root) <==> f.r2.value.verified == Yes && Deletable(f, runDir, paths, root)
  {
  }

  // ----- deletion -----

  /** Hidden directories and log directories are not looked at. */
  predicate IsListed(name: string) {
    !(name != "" && name[0] == '.') && !(|name| >= 5 && name[|name| - 5..] == "-logs")
  }

  /** The name begins with a dot or ends in "-logs". */
  ghost predicate PassedOver(name: string) {
    (exists back: string :: name == "." + back) || exists front: string :: name == front + "-logs"
  }

  lemma {:induction false} ListedExactly(name: string)
    ensures IsListed(name) <==> !PassedOver(name)
  {
    if name != "" && name[0] == '.' {
      assert name == "." + name[1..];
    }
    if |name| >= 5 && name[|name| - 5..] == "-logs" {
      assert name == name[..|name| - 5] + "-logs";
    }
    if front: string :| name == front + "-logs" {
      assert name[|name| - 5..] == "-logs";
    }
  }

  function RunDir(f: RunFiles, root: Path): Path {
    root + [f.name]
  }

  /** The bulk paths of a run that hold bytes. */
  ghost function BulkPaths(files: Files, runDir: Path): set<Path> {
    set name | name in BULK_DIR_NAMES && Total(Below(files, runDir + [name])) > 0 :: runDir + [name]
  }

  method DeletionPaths(tree: FileTree, runDir: Path) returns (rows: seq<Candidate>)
    requires tree.Valid()
    ensures Advertises(rows, tree.files)
    ensures PathsOf(rows) == BulkPaths(tree.files, runDir)
  {
    rows := [];
    var left := BULK_DIR_NAMES;
    while left != {}
      invariant left <= BULK_DIR_NAMES
      invariant Advertises(rows, tree.files)
      invariant PathsOf(rows) == set name | name in BULK_DIR_NAMES - left && Total(Below(tree.files, runDir + [name])) > 0
                                     :: runDir + [name]
    {
      var name :| name in left;
      var p := runDir + [name];
      var bytes := tree.SizeBytes(p);
      ghost var before := BULK_DIR_NAMES - left;
      left := left - {name};
      assert BULK_DIR_NAMES - left == before + {name};
      if bytes > 0 {
        PathsOfStep(rows, Candidate(p, bytes));
        rows := rows + [Candidate(p, bytes)];
      }
    }
    assert BULK_DIR_NAMES - left == BULK_DIR_NAMES;
  }

  /** The guard of the deletion loop. */
  predicate MayDelete(p: Path, root: Path) {
    root <= p && !NeverDelete(p)
  }

  /** The rows the deletion loop does not skip. */
  function Guarded(rows: seq<Candidate>, root: Path): set<Path> {
    set p | p in PathsOf(rows) && MayDelete(p, root)
  }

  lemma {:induction false} ClearedGuardedStep(files: Files, rows: seq<Candidate>, row: Candidate, root: Path)
    ensures Cleared(files, Guarded(rows + [row], root))
         == if MayDelete(row.path, root) then Without(Cleared(files, Guarded(rows, root)), row.path)
            else Cleared(files, Guarded(rows, root))
  {
    PathsOfStep(rows, row);
    if MayDelete(row.path, root) {
      assert Guarded(rows + [row], root) == Guarded(rows, root) + {row.path};
      ClearedStep(files, Guarded(rows, root), row.path);
    } else {
      assert Guarded(rows + [row], root) == Guarded(rows, root);
    }
  }

  lemma {:induction false} ClearedGuardedNext(files: Files, rows: seq<Candidate>, n: nat, root: Path)
    requires n < |rows|
    ensures Cleared(files, Guarded(rows[..n + 1], root))
         == if MayDelete(rows[n].path, root) then Without(Cleared(files, Guarded(rows[..n], root)), rows[n].path)
            else Cleared(files, Guarded(rows[..n], root))
  {
    assert rows[..n + 1] == rows[..n] + [rows[n]];
    ClearedGuardedStep(files, rows[..n], rows[n], root);
  }

  /** The deletion loop never removes more than the rows advertise. */
  lemma {:induction false} AuditSuffices(was: Files, rows: seq<Candidate>, root: Path)
    requires Advertises(rows, was)
    ensures Total(was) <= Total(Cleared(was, Guarded(rows, root))) + SumBytes(rows)
    decreases |rows|
  {
    if rows == [] {
      assert Cleared(was, Guarded(rows, root)) == was;
    } else {
      var n := |rows| - 1;
      AuditSuffices(was, rows[..n], root);
      assert rows[..n + 1] == rows;
      ClearedGuardedNext(was, rows, n, root);
      var now := Cleared(was, Guarded(rows[..n], root));
      if MayDelete(rows[n].path, root) {
        TotalSplits(now, rows[n].path);
        LessBelow(now, was, rows[n].path);
      }
    }
  }

  /** One row: skipped, or logged with the size measured just before removal. */
  method DeleteRow(tree: FileTree, path: Path, root: Path) returns (log: seq<Candidate>)
    requires tree.Valid()
    modifies tree
    ensures tree.Valid()
    ensures tree.files == if MayDelete(path, root) then Without(old(tree.files), path) else old(tree.files)
    ensures SumBytes(log) == old(tree.Size()) - tree.Size()
  {
    log := [];
    if MayDelete(path, root) {
      var freed := tree.RemovePath(path);
      log := [Candidate(path, freed)];
      SumBytesOne(log[0]);
    }
  }

  /** The deletion loop, for rows in any order, nested, repeated or missing. */
  method ApplyDeletions(tree: FileTree, rows: seq<Candidate>, root: Path) returns (deleted: seq<Candidate>)
    requires tree.Valid()
    modifies tree
    ensures tree.Valid()
    ensures tree.files == Cleared(old(tree.files), Guarded(rows, root))
    ensures SumBytes(deleted) == old(tree.Size()) - tree.Size()
    ensures Advertises(rows, old(tree.files)) ==> SumBytes(deleted) <= SumBytes(rows)
  {
    ghost var was := tree.files;
    deleted := [];
    var n := 0;
    assert Cleared(was, Guarded([], root)) == was;
    assert rows[..0] == [];
    while n < |rows|
      invariant 0 <= n <= |rows| && tree.Valid()
      invariant tree.files == Cleared(was, Guarded(rows[..n], root))
      invariant SumBytes(deleted) + Total(tree.files) == Total(was)
    {
      ClearedGuardedNext(was, rows, n, root);
      var log := DeleteRow(tree, rows[n].path, root);
      SumBytesConcat(deleted, log);
      deleted := deleted + log;
      n := n + 1;
    }
    assert rows[..n] == rows;
    if Advertises(rows, was) {
      AuditSuffices(was, rows, root);
    }
  }

  // ----- the whole collection, operator tier off -----

  /** The bulk paths of the run are removed. */
  ghost predicate Condemned(f: RunFiles, files: Files, root: Path) {
    IsListed(f.name) && Deletable(f, RunDir(f, root), BulkPaths(files, RunDir(f, root)), root)
  }

  /** The paths a collection removes: the bulk of the condemned runs. */
  ghost function Doomed(files: Files, runs: seq<RunFiles>, root: Path): set<Path> {
    if runs == [] then {}
    else
      var f := runs[|runs| - 1];
      Doomed(files, runs[..|runs| - 1], root) + (if Condemned(f, files, root) then BulkPaths(files, RunDir(f, root)) else {})
  }

  lemma {:induction false} DoomedStep(files: Files, runs: seq<RunFiles>, n: nat, root: Path)
    requires n < |runs|
    ensures Doomed(files, runs[..n + 1], root)
         == Doomed(files, runs[..n], root)
          + (if Condemned(runs[n], files, root) then BulkPaths(files, RunDir(runs[n], root)) else {})
  {
    assert runs[..n + 1][..n] == runs[..n];
  }

  lemma {:induction false} PathsOfConcat(a: seq<Candidate>, b: seq<Candidate>)
    ensures PathsOf(a + b) == PathsOf(a) + PathsOf(b)
    decreases |b|
  {
    if b == [] {
      assert a + b == a;
    } else {
      var n := |b| - 1;
      PathsOfConcat(a, b[..n]);
      PathsOfStep(a + b[..n], b[n]);
      PathsOfStep(b[..n], b[n]);
      assert a + b == (a + b[..n]) + [b[n]] && b == b[..n] + [b[n]];
    }
  }

  lemma {:induction false} BulkNamesAreUnprotected(name: string)
    requires name in BULK_DIR_NAMES
    ensures name !in NEVER_DELETE
  {
  }

  lemma {:induction false} NeverDeleteChild(dir: Path, name: string)
    requires !NeverDelete(dir) && name !in NEVER_DELETE
    ensures !NeverDelete(dir + [name])
  {
    var p := dir + [name];
    forall i | 0 <= i < |p| ensures p[i] !in NEVER_DELETE {
      if i < |dir| {
        assert p[i] == dir[i];
      }
    }
  }

  /** Bulk names are not protected names, so a deletable run's bulk passes the
      deletion loop's own guard. */
  lemma {:induction false} CondemnedBulkMayGo(f: RunFiles, files: Files, root: Path, p: Path)
    requires Condemned(f, files, root) && p in BulkPaths(files, RunDir(f, root))
    ensures MayDelete(p, root)
  {
    var dir := RunDir(f, root);
    var name :| name in BULK_DIR_NAMES && p == dir + [name];
    BulkNamesAreUnprotected(name);
    ProtectedExactly(dir);
    NeverDeleteChild(dir, name);
  }

  lemma {:induction false} DoomedMayGo(files: Files, runs: seq<RunFiles>, root: Path)
    ensures forall p :: p in Doomed(files, runs, root) ==> MayDelete(p, root)
    decreases |runs|
  {
    if runs != [] {
      var n := |runs| - 1;
      DoomedMayGo(files, runs[..n], root);
      forall p | p in BulkPaths(files, RunDir(runs[n], root)) && Condemned(runs[n], files, root)
        ensures MayDelete(p, root)
      {
        CondemnedBulkMayGo(runs[n], files, root, p);
      }
    }
  }

  /** Audits every run directory. The rows of the safe ones are measured before
      anything is removed. */
  method BuildAudit(tree: FileTree, runs: seq<RunFiles>, root: Path) returns (rows: seq<Candidate>)
    requires tree.Valid()
    ensures Advertises(rows, tree.files)
    ensures PathsOf(rows) == Doomed(tree.files, runs, root)
  {
    rows := [];
    var n := 0;
    while n < |runs|
      invariant 0 <= n <= |runs|
      invariant Advertises(rows, tree.files)
      invariant PathsOf(rows) == Doomed(tree.files, runs[..n], root)
    {
      DoomedStep(tree.files, runs, n, root);
      if IsListed(runs[n].name) {
        var found := DeletionPaths(tree, RunDir(runs[n], root));
        var a := AssessRun(runs[n], RunDir(runs[n], root), PathsOf(found), root);
        if a.safe {
          PathsOfConcat(rows, found);
          rows := rows + found;
        }
      }
      n := n + 1;
    }
    assert runs[..n] == runs;
  }

  /** A collection in apply mode with the operator tier off. */
  method CollectGarbage(tree: FileTree, runs: seq<RunFiles>, root: Path)
    returns (deleted: seq<Candidate>, available: nat)
    requires tree.Valid()
    modifies tree
    ensures tree.Valid()
    ensures tree.files == Cleared(old(tree.files), Doomed(old(tree.files), runs, root))
    ensures SumBytes(deleted) == old(tree.Size()) - tree.Size()
    ensures SumBytes(deleted) <= available
  {
    ghost var was := tree.files;
    var rows := BuildAudit(tree, runs, root);
    available := SumBytes(rows);
    deleted := ApplyDeletions(tree, rows, root);
    DoomedMayGo(was, runs, root);
    assert Guarded(rows, root) == Doomed(was, runs, root);
  }

  /** A condemned run has proved itself. */
  lemma {:induction false} CondemnedIsProven(f: RunFiles, files: Files, root: Path, name: string)
    requires Condemned(f, files, root) && name in BULK_DIR_NAMES
    ensures !f.active && UploadProven(f) && CompletionProven(f) && NoErrorShown(f)
    ensures !Protected(RunDir(f, root) + [name])
  {
    ProtectedExactly(RunDir(f, root));
    BulkNamesAreUnprotected(name);
    NeverDeleteChild(RunDir(f, root), name);
    ProtectedExactly(RunDir(f, root) + [name]);
  }

  /** Bytes lie below the run's bulk directory of this name. */
  ghost predicate HoldsBytes(files: Files, dir: Path, name: string) {
    name in BULK_DIR_NAMES && Total(Below(files, dir + [name])) > 0
  }

  lemma {:induction false} DoomedBy(files: Files, runs: seq<RunFiles>, root: Path, p: Path) returns (i: nat, name: string)
    requires p in Doomed(files, runs, root)
    ensures i < |runs| && HoldsBytes(files, RunDir(runs[i], root), name) && p == RunDir(runs[i], root) + [name]
    ensures Condemned(runs[i], files, root)
    decreases |runs|
  {
    var n := |runs| - 1;
    if p in Doomed(files, runs[..n], root) {
      i, name := DoomedBy(files, runs[..n], root, p);
    } else {
      i := n;
      name :| HoldsBytes(files, RunDir(runs[n], root), name) && p == RunDir(runs[n], root) + [name];
    }
  }

  /** Whatever a collection removes lies in a bulk directory of a run directory
      under the root that proved itself: not active, its upload verified, its
      completion shown, no error in the summary that counts, and no protected name
      on the path. */
  lemma {:induction false} OnlyProvenBulkGoes(files: Files, runs: seq<RunFiles>, root: Path, q: Path)
    returns (i: nat, name: string)
    requires q in files && q !in Cleared(files, Doomed(files, runs, root))
    ensures i < |runs| && name in BULK_DIR_NAMES && root + [runs[i].name] + [name] <= q
    ensures var f := runs[i];
            && !f.active && f.r2.Some?
            && (f.r2.value.verified == Yes || (f.r2.value.uploadedFiles > 0 && f.r2.value.failedFiles == 0))
            && ((f.service.Some? && (f.service.value.hunterExitZero || f.service.value.collectorCompleted))
                || (f.collector.Some? && f.collector.value.hasFrames))
            && (forall d :: f.collector == Some(d) || (f.collector == None && f.proof == Some(d)) ==>
                  d.sequenceGap == d.hashMismatch == d.malformed == d.backpressure == d.unavailable == 0)
            && !PassedOver(f.name) && !Protected(root + [f.name] + [name])
  {
    var p :| p in Doomed(files, runs, root) && p <= q;
    i, name := DoomedBy(files, runs, root, p);
    CondemnedIsProven(runs[i], files, root, name);
    ListedExactly(runs[i].name);
    forall d | runs[i].collector == Some(d) || (runs[i].collector == None && runs[i].proof == Some(d))
      ensures d.sequenceGap == d.hashMismatch == d.malformed == d.backpressure == d.unavailable == 0
    {
      assert Decisive(runs[i], d);
    }
  }

  /** The run has proved itself, and its bulk is raw frames or excused by a retention
      file and consistent artifacts. */
  ghost predicate MustGo(f: RunFiles, files: Files, dir: Path) {
    && !PassedOver(f.name) && !f.active && UploadProven(f) && CompletionProven(f) && NoErrorShown(f) && !Protected(dir)
    && ((forall name :: HoldsBytes(files, dir, name) ==> name == "relay_frames")
        || (RetentionSaysOk(f) && f.artifactsOk))
  }

  lemma {:induction false} HeldBy(files: Files, dir: Path, p: Path)
    requires p in BulkPaths(files, dir)
    ensures |p| == |dir| + 1 && HoldsBytes(files, dir, p[|dir|])
  {
  }

  lemma {:induction false} FramesOnlyExactly(files: Files, dir: Path)
    ensures AllRelayFrames(BulkPaths(files, dir)) <==> forall name :: HoldsBytes(files, dir, name) ==> name == "relay_frames"
  {
    RelayFramesExactly(BulkPaths(files, dir));
    forall name | HoldsBytes(files, dir, name)
      ensures dir + [name] in BulkPaths(files, dir) && (dir + [name])[|dir|] == name
    {
    }
    forall p | p in BulkPaths(files, dir) ensures p != [] && HoldsBytes(files, dir, p[|p| - 1]) {
      HeldBy(files, dir, p);
    }
  }

  lemma {:induction false} CondemnedExactly(f: RunFiles, files: Files, root: Path)
    ensures Condemned(f, files, root) && BulkPaths(files, root + [f.name]) != {} <==>
              MustGo(f, files, root + [f.name]) && exists name :: HoldsBytes(files, root + [f.name], name)
  {
    var dir := root + [f.name];
    ListedExactly(f.name);
    FramesOnlyExactly(files, dir);
    if name :| HoldsBytes(files, dir, name) {
      assert dir + [name] in BulkPaths(files, dir);
    } else if p :| p in BulkPaths(files, dir) {
      HeldBy(files, dir, p);
    }
  }

  lemma {:induction false} DoomedHolds(files: Files, runs: seq<RunFiles>, root: Path, i: nat)
    requires i < |runs| && Condemned(runs[i], files, root)
    ensures BulkPaths(files, RunDir(runs[i], root)) <= Doomed(files, runs, root)
    decreases |runs|
  {
    if i < |runs| - 1 {
      assert runs[..|runs| - 1][i] == runs[i];
      DoomedHolds(files, runs[..|runs| - 1], root, i);
    }
  }

  /** A file goes exactly when it lies in a bulk directory that holds bytes, of a run
      directory under the root whose run must go. */
  lemma {:induction false} GoesExactly(files: Files, runs: seq<RunFiles>, root: Path, q: Path)
    requires q in files
    ensures q !in Cleared(files, Doomed(files, runs, root)) <==>
              exists i: nat, name ::
                && i < |runs| && HoldsBytes(files, root + [runs[i].name], name)
                && root + [runs[i].name] + [name] <= q && MustGo(runs[i], files, root + [runs[i].name])
  {
    if q !in Cleared(files, Doomed(files, runs, root)) {
      var p :| p in Doomed(files, runs, root) && p <= q;
      var i, name := DoomedBy(files, runs, root, p);
      CondemnedExactly(runs[i], files, root);
    }
    if i: nat, name :| && i < |runs| && HoldsBytes(files, root + [runs[i].name], name)
                       && root + [runs[i].name] + [name] <= q && MustGo(runs[i], files, root + [runs[i].name])
    {
      CondemnedExactly(runs[i], files, root);
      DoomedHolds(files, runs, root, i);
      assert RunDir(runs[i], root) + [name] in Doomed(files, runs, root);
    }
  }

  /** A run with failed uploads and without any transport summary. */
  function UnprovenRun(): RunFiles {
    RunFiles("r", false, Some(R2Doc(Yes, 1, 0)), None, Some(ServiceDoc(true, false)), None, None, false, false)
  }

  /** Under any root, a collection removes such a run's only relay frames exactly
      when no name on the root is protected. */
  lemma {:induction false} UnprovenRunIsDeleted(root: Path)
    ensures var q := root + ["r", "relay_frames", "x"]; var files: Files := map[q := 1];
            q in files && (q !in Cleared(files, Doomed(files, [UnprovenRun()], root)) <==> !NeverDelete(root))
  {
    var q := root + ["r", "relay_frames", "x"];
    var files: Files := map[q := 1];
    if NeverDelete(root) {
      NothingUnderProtectedRoot(files, [UnprovenRun()], root);
    } else {
      UnprovenIsCondemned(files, root, q);
      assert root + ["r"] + ["relay_frames"] <= q;
    }
  }

  lemma {:induction false} UnprovenIsCondemned(files: Files, root: Path, q: Path)
    requires !NeverDelete(root) && q == root + ["r", "relay_frames", "x"] && files == map[q := 1]
    ensures Doomed(files, [UnprovenRun()], root) == {root + ["r"] + ["relay_frames"]}
  {
    var f, dir := UnprovenRun(), root + ["r"];
    OnlyFramesBelow(files, q, dir);
    NeverDeleteChild(root, "r");
    UnprovenIsDeletable(dir, dir + ["relay_frames"], root);
    DoomedByOne(files, f, root);
  }

  lemma {:induction false} DoomedByOne(files: Files, f: RunFiles, root: Path)
    ensures Doomed(files, [f], root) == if Condemned(f, files, root) then BulkPaths(files, RunDir(f, root)) else {}
  {
    assert [f][..0] == [];
  }

  lemma {:induction false} UnprovenIsDeletable(dir: Path, p: Path, root: Path)
    requires !NeverDelete(dir) && p == dir + ["relay_frames"]
    ensures IsListed(UnprovenRun().name) && Deletable(UnprovenRun(), dir, {p}, root)
  {
    DeletableWithoutEvidenceExactly(UnprovenRun(), dir, {p}, root);
  }

  lemma {:induction false} OnlyFramesBelow(files: Files, q: Path, dir: Path)
    requires q == dir + ["relay_frames", "x"] && files == map[q := 1]
    ensures BulkPaths(files, dir) == {dir + ["relay_frames"]}
  {
    BytesOnlyBelow(files, q, dir);
  }

  /** Below a root with a protected name nothing is ever removed. */
  lemma {:induction false} NothingUnderProtectedRoot(files: Files, runs: seq<RunFiles>, root: Path)
    requires NeverDelete(root)
    ensures Doomed(files, runs, root) == {} && Cleared(files, Doomed(files, runs, root)) == files
  {
    DoomedMayGo(files, runs, root);
    forall p ensures p !in Doomed(files, runs, root) {
      ProtectedRootStays(p, root);
    }
  }

  lemma {:induction false} ProtectedRootStays(p: Path, root: Path)
    requires NeverDelete(root)
    ensures !MayDelete(p, root)
  {
    var i :| 0 <= i < |root| && root[i] in NEVER_DELETE;
    assert root <= p ==> p[i] == root[i];
  }

  lemma {:induction false} BytesOnlyBelow(files: Files, q: Path, dir: Path)
    requires q == dir + ["relay_frames", "x"] && files == map[q := 1]
    ensures forall name :: Total(Below(files, dir + [name])) > 0 <==> name == "relay_frames"
  {
    forall name ensures Total(Below(files, dir + [name])) > 0 <==> name == "relay_frames" {
      var below := Below(files, dir + [name]);
      if name == "relay_frames" {
        assert dir + [name] <= q;
        TotalMinusOne(below, q);
      } else {
        assert (dir + [name])[|dir|] != q[|dir|];
        assert below == map[];
      }
    }
  }
}
