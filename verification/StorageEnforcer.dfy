/** The storage enforcer: which bulk directories it finds, and what its apply
    loops remove (scripts/local_r2_first_storage_enforcer.py). */
module StorageEnforcer {
  import opened FileTree

  const BULK_DIR_NAMES: set<string> := {
    "relay_frames", "raw_relay_frames", "relay_frame_shards", ".r2_spool", "tmp_upload_shards", "upload_chunks"}

  datatype Candidate = Candidate(path: Path, bytes: nat)

  /** What the JSON files and the process list prove about a run directory. */
  datatype RunFacts = RunFacts(active: bool, completed: bool, r2Verified: bool, clean: bool, consistent: bool)

  predicate SafeRun(f: RunFacts) {
    !f.active && f.completed && f.r2Verified && f.clean && f.consistent
  }

  /** Nothing is missing that a run must show: it is over, and its completion, its
      upload, its integrity and its artifacts are all confirmed. */
  predicate Proven(f: RunFacts) {
    f == RunFacts(false, true, true, true, true)
  }

  function SumBytes(rows: seq<Candidate>): nat {
    if rows == [] then 0 else SumBytes(rows[..|rows| - 1]) + rows[|rows| - 1].bytes
  }

  lemma {:induction false} SumBytesStep(rows: seq<Candidate>, row: Candidate)
    ensures SumBytes(rows + [row]) == SumBytes(rows) + row.bytes
  {
    assert (rows + [row])[..|rows|] == rows;
  }

  lemma {:induction false} SumBytesOne(row: Candidate)
    ensures SumBytes([row]) == row.bytes
  {
    SumBytesStep([], row);
    assert [] + [row] == [row];
  }

  lemma {:induction false} SumBytesConcat(a: seq<Candidate>, b: seq<Candidate>)
    ensures SumBytes(a + b) == SumBytes(a) + SumBytes(b)
    decreases |b|
  {
    if b == [] {
      assert a + b == a;
    } else {
      var n := |b| - 1;
      SumBytesConcat(a, b[..n]);
      SumBytesStep(a + b[..n], b[n]);
      assert a + b == (a + b[..n]) + [b[n]];
    }
  }

  function PathsOf(rows: seq<Candidate>): set<Path> {
    set i | 0 <= i < |rows| :: rows[i].path
  }

  lemma {:induction false} PathsOfStep(rows: seq<Candidate>, row: Candidate)
    ensures PathsOf(rows + [row]) == PathsOf(rows) + {row.path}
  {
    var longer := rows + [row];
    assert longer[|rows|] == row;
    forall i | 0 <= i < |rows| ensures rows[i].path in PathsOf(longer) {
      assert longer[i] == rows[i];
    }
  }

  /** The paths of the rows that lie below `root`. */
  function PathsUnder(rows: seq<Candidate>, root: Path): set<Path> {
    set p | p in PathsOf(rows) && root <= p
  }

  /** The files left once every row below `root` has been removed. */
  function Swept(files: Files, rows: seq<Candidate>, root: Path): Files {
    Cleared(files, PathsUnder(rows, root))
  }

  lemma {:induction false} SweptStep(files: Files, rows: seq<Candidate>, row: Candidate, root: Path)
    ensures Swept(files, rows + [row], root)
         == if root <= row.path then Without(Swept(files, rows, root), row.path) else Swept(files, rows, root)
  {
    PathsOfStep(rows, row);
    if root <= row.path {
      assert PathsUnder(rows + [row], root) == PathsUnder(rows, root) + {row.path};
      ClearedStep(files, PathsUnder(rows, root), row.path);
    } else {
      assert PathsUnder(rows + [row], root) == PathsUnder(rows, root);
    }
  }

  lemma {:induction false} SweptNext(files: Files, rows: seq<Candidate>, n: nat, root: Path)
    requires n < |rows|
    ensures Swept(files, rows[..n + 1], root)
         == if root <= rows[n].path then Without(Swept(files, rows[..n], root), rows[n].path)
            else Swept(files, rows[..n], root)
  {
    assert rows[..n + 1] == rows[..n] + [rows[n]];
    SweptStep(files, rows[..n], rows[n], root);
  }

  /** Every row advertises the size its path had in `files`. */
  ghost predicate Advertises(rows: seq<Candidate>, files: Files) {
    forall i :: 0 <= i < |rows| ==> rows[i].bytes == Total(Below(files, rows[i].path))
  }

  /** Removing a path below `root` shrinks `root` by exactly the path's size. */
  lemma {:induction false} DropUnderRoot(files: Files, root: Path, p: Path)
    requires root <= p
    ensures Total(Below(files, root)) == Total(Below(Without(files, p), root)) + Total(Below(files, p))
  {
    var under := Below(files, root);
    TotalSplits(under, p);
    assert Below(under, p) == Below(files, p);
    assert Without(under, p) == Below(Without(files, p), root);
  }

  /** One row of an apply loop. The log has one entry when something was there. */
  method ApplyRow(tree: FileTree, path: Path, root: Path) returns (log: seq<Candidate>)
    requires tree.Valid()
    modifies tree
    ensures tree.Valid()
    ensures tree.files == if root <= path then Without(old(tree.files), path) else old(tree.files)
    ensures SumBytes(log) == old(tree.Size()) - tree.Size()
    ensures root <= path ==> SumBytes(log) == Total(Below(old(tree.files), path))
    ensures !(root <= path) ==> log == []
    ensures forall row :: row in log ==> row.path == path
  {
    log := [];
    if root <= path {
      if tree.Exists(path) {
        var freed := tree.RemovePath(path);
        log := [Candidate(path, freed)];
        SumBytesOne(Candidate(path, freed));
      } else {
        BelowNothing(tree.files, path);
      }
    }
  }

  /** Everything a sweep removes is removed from below `root`. */
  lemma {:induction false} SweptDropsUnderRoot(was: Files, rows: seq<Candidate>, root: Path)
    ensures Total(was) - Total(Swept(was, rows, root))
         == Total(Below(was, root)) - Total(Below(Swept(was, rows, root), root))
    decreases |rows|
  {
    if rows == [] {
      assert Swept(was, rows, root) == was;
    } else {
      var n := |rows| - 1;
      var front, row := rows[..n], rows[n];
      SweptDropsUnderRoot(was, front, root);
      assert rows == front + [row];
      SweptStep(was, front, row, root);
      if root <= row.path {
        TotalSplits(Swept(was, front, root), row.path);
        DropUnderRoot(Swept(was, front, root), root, row.path);
      }
    }
  }

  /** Sweeping rows never removes more than the rows advertise, whatever larger
      tree they were measured on. */
  lemma {:induction false} AdvertisedSuffices(was: Files, measured: Files, rows: seq<Candidate>, root: Path)
    requires PartOf(was, measured) && Advertises(rows, measured)
    ensures Total(was) <= Total(Swept(was, rows, root)) + SumBytes(rows)
    decreases |rows|
  {
    if rows == [] {
      assert Swept(was, rows, root) == was;
    } else {
      var n := |rows| - 1;
      var front, row := rows[..n], rows[n];
      AdvertisedSuffices(was, measured, front, root);
      assert rows == front + [row];
      SweptStep(was, front, row, root);
      var now := Swept(was, front, root);
      if root <= row.path {
        TotalSplits(now, row.path);
        LessBelow(now, measured, row.path);
      }
    }
  }

  /** One apply loop over rows in any order, with nested, repeated or missing
      paths: the log's bytes are exactly what the tree lost, and never more than
      the rows advertised, whatever tree the rows were measured on. */
  method ApplyRows(tree: FileTree, rows: seq<Candidate>, root: Path, ghost measured: Files)
    returns (deleted: seq<Candidate>)
    requires tree.Valid() && PartOf(tree.files, measured)
    modifies tree
    ensures tree.Valid()
    ensures tree.files == Swept(old(tree.files), rows, root)
    ensures SumBytes(deleted) == old(tree.Size()) - tree.Size()
    ensures SumBytes(deleted) == Total(Below(old(tree.files), root)) - Total(Below(tree.files, root))
    ensures Advertises(rows, measured) ==> SumBytes(deleted) <= SumBytes(rows)
    ensures forall row :: row in deleted ==> root <= row.path
  {
    ghost var was := tree.files;
    deleted := [];
    var n := 0;
    assert Swept(was, rows[..0], root) == was;
    while n < |rows|
      invariant 0 <= n <= |rows| && tree.Valid()
      invariant tree.files == Swept(was, rows[..n], root)
      invariant SumBytes(deleted) + Total(tree.files) == Total(was)
      invariant forall row :: row in deleted ==> root <= row.path
    {
      SweptNext(was, rows, n, root);
      var log := ApplyRow(tree, rows[n].path, root);
      SumBytesConcat(deleted, log);
      deleted := deleted + log;
      n := n + 1;
    }
    assert rows[..n] == rows;
    SweptDropsUnderRoot(was, rows, root);
    if Advertises(rows, measured) {
      AdvertisedSuffices(was, measured, rows, root);
    }
  }

  // ----- finding bulk directories -----

  predicate IsBulk(root: Path, d: Path) {
    root <= d && |root| < |d| && d[|d| - 1] in BULK_DIR_NAMES
  }

  /** The directory that holds `d`, taken as its run directory. */
  function RunDirOf(d: Path): Path
    requires d != []
  {
    d[..|d| - 1]
  }

  /** The bulk directories below `root` that hold any bytes. */
  ghost function BulkWithBytes(files: Files, dirs: set<Path>, root: Path): set<Path> {
    set d | d in dirs && IsBulk(root, d) && Total(Below(files, d)) > 0
  }

  ghost function WithBytes(files: Files, dirs: set<Path>): set<Path> {
    set d | d in dirs && Total(Below(files, d)) > 0
  }

  lemma {:induction false} WithBytesStep(files: Files, dirs: set<Path>, d: Path)
    ensures WithBytes(files, dirs + {d}) == WithBytes(files, dirs) + (if Total(Below(files, d)) > 0 then {d} else {})
  {
  }

  method MeasureBulk(tree: FileTree, root: Path) returns (rows: seq<Candidate>)
    requires tree.Valid()
    ensures Advertises(rows, tree.files)
    ensures PathsOf(rows) == BulkWithBytes(tree.files, tree.dirs, root)
  {
    rows := [];
    var bulk := set d | d in tree.dirs && IsBulk(root, d);
    var left := bulk;
    while left != {}
      invariant left <= bulk
      invariant Advertises(rows, tree.files)
      invariant PathsOf(rows) == WithBytes(tree.files, bulk - left)
    {
      var d :| d in left;
      ghost var seen := bulk - left;
      left := left - {d};
      assert bulk - left == seen + {d};
      WithBytesStep(tree.files, seen, d);
      var bytes := tree.SizeBytes(d);
      if bytes > 0 {
        PathsOfStep(rows, Candidate(d, bytes));
        rows := rows + [Candidate(d, bytes)];
      }
    }
  }

  /** The rows whose path `keep` accepts, in order. */
  method Select(rows: seq<Candidate>, keep: Path -> bool, ghost measured: Files) returns (kept: seq<Candidate>)
    requires Advertises(rows, measured)
    ensures Advertises(kept, measured)
    ensures PathsOf(kept) == set d | d in PathsOf(rows) && keep(d)
  {
    kept := [];
    var n := 0;
    while n < |rows|
      invariant 0 <= n <= |rows|
      invariant Advertises(kept, measured)
      invariant PathsOf(kept) == set d | d in PathsOf(rows[..n]) && keep(d)
    {
      PathsOfStep(rows[..n], rows[n]);
      assert rows[..n + 1] == rows[..n] + [rows[n]];
      if keep(rows[n].path) {
        PathsOfStep(kept, rows[n]);
        kept := kept + [rows[n]];
      }
      n := n + 1;
    }
    assert rows[..n] == rows;
  }

  function IsSafePath(facts: Path -> RunFacts): Path -> bool {
    (d: Path) => d != [] && SafeRun(facts(RunDirOf(d)))
  }

  function IsUnsafePath(facts: Path -> RunFacts): Path -> bool {
    (d: Path) => d != [] && !SafeRun(facts(RunDirOf(d)))
  }

  function IsInactivePath(facts: Path -> RunFacts): Path -> bool {
    (d: Path) => d != [] && !facts(RunDirOf(d)).active
  }

  /** Every bulk directory that holds bytes, split by the safety of its run. */
  method FindBulkCandidates(tree: FileTree, root: Path, facts: Path -> RunFacts)
    returns (safe: seq<Candidate>, unsafe: seq<Candidate>)
    requires tree.Valid()
    ensures Advertises(safe, tree.files) && Advertises(unsafe, tree.files)
    ensures PathsOf(safe) == set d | d in BulkWithBytes(tree.files, tree.dirs, root) && d != [] && Proven(facts(RunDirOf(d)))
    ensures PathsOf(unsafe) == set d | d in BulkWithBytes(tree.files, tree.dirs, root) && d != [] && !Proven(facts(RunDirOf(d)))
  {
    var rows := MeasureBulk(tree, root);
    safe := Select(rows, IsSafePath(facts), tree.files);
    unsafe := Select(rows, IsUnsafePath(facts), tree.files);
  }

  // ----- the whole sweep -----

  /** The bulk directories an applied run removes. */
  predicate BulkGoes(d: Path, facts: Path -> RunFacts, legacy: bool) {
    IsSafePath(facts)(d) || (legacy && IsInactivePath(facts)(d))
  }

  /** Which directories count as bulk, and which of them an applied run removes. */
  lemma {:induction false} BulkExactly(files: Files, dirs: set<Path>, root: Path, d: Path, facts: Path -> RunFacts, legacy: bool)
    ensures d in BulkWithBytes(files, dirs, root) <==>
              && d in dirs && Total(Below(files, d)) > 0
              && exists dir: Path, name :: d == dir + [name] && root <= dir
                   && name in {"relay_frames", "raw_relay_frames", "relay_frame_shards", ".r2_spool", "tmp_upload_shards",
                               "upload_chunks"}
    ensures BulkGoes(d, facts, legacy) <==>
              d != [] && (Proven(facts(RunDirOf(d))) || (legacy && !facts(RunDirOf(d)).active))
  {
    if d in BulkWithBytes(files, dirs, root) {
      assert d == d[..|d| - 1] + [d[|d| - 1]] && root <= d[..|d| - 1];
    }
  }

  /** The files an applied run removes. */
  ghost predicate Goes(q: Path, bulk: set<Path>, facts: Path -> RunFacts, legacy: bool,
                       extra: seq<Candidate>, repo: Path)
  {
    || (exists d :: d in bulk && d <= q && BulkGoes(d, facts, legacy))
    || (exists p :: p in PathsOf(extra) && repo <= p && p <= q)
  }

  function SweptThrice(files: Files, safe: seq<Candidate>, spool: seq<Candidate>, extra: seq<Candidate>,
                       root: Path, repo: Path): Files
  {
    Swept(Swept(Swept(files, safe, root), spool, root), extra, repo)
  }

  lemma {:induction false} SweptTogether(q: Path, was: Files, bulk: set<Path>, safe: seq<Candidate>, spool: seq<Candidate>,
                      extra: seq<Candidate>, root: Path, repo: Path, facts: Path -> RunFacts, legacy: bool)
    requires forall d :: d in bulk ==> root <= d && d != []
    requires PathsOf(safe) == set d | d in bulk && IsSafePath(facts)(d)
    requires PathsOf(spool) == set d | d in bulk && legacy && IsUnsafePath(facts)(d) && IsInactivePath(facts)(d)
    ensures q in SweptThrice(was, safe, spool, extra, root, repo) <==>
              q in was && !Goes(q, bulk, facts, legacy, extra, repo)
  {
    assert PathsUnder(safe, root) == PathsOf(safe) && PathsUnder(spool, root) == PathsOf(spool);
    var gone := PathsOf(safe) + PathsOf(spool);
    assert gone == set d | d in bulk && BulkGoes(d, facts, legacy);
    ClearedTwice(was, PathsOf(safe), PathsOf(spool));
    ClearedTwice(was, gone, PathsUnder(extra, repo));
    var all := gone + PathsUnder(extra, repo);
    assert SweptThrice(was, safe, spool, extra, root, repo) == Cleared(was, all);
    if d :| d in bulk && d <= q && BulkGoes(d, facts, legacy) {
      assert d in all;
    } else if p :| p in PathsOf(extra) && repo <= p && p <= q {
      assert p in all;
    } else {
      assert forall p :: p in all ==> !(p <= q);
    }
  }

  /** The three apply loops, one after the other. */
  method ApplyAll(tree: FileTree, safe: seq<Candidate>, spool: seq<Candidate>, extra: seq<Candidate>,
                  root: Path, repo: Path)
    returns (deleted: seq<Candidate>)
    requires tree.Valid()
    requires Advertises(safe, tree.files) && Advertises(spool, tree.files) && Advertises(extra, tree.files)
    modifies tree
    ensures tree.Valid()
    ensures tree.files == SweptThrice(old(tree.files), safe, spool, extra, root, repo)
    ensures SumBytes(deleted) == old(tree.Size()) - tree.Size()
    ensures SumBytes(deleted) <= SumBytes(safe) + SumBytes(spool) + SumBytes(extra)
  {
    ghost var was := tree.files;
    var first := ApplyRows(tree, safe, root, was);
    var second := ApplyRows(tree, spool, root, was);
    var third := ApplyRows(tree, extra, repo, was);
    SumBytesConcat(first, second);
    SumBytesConcat(first + second, third);
    deleted := first + second + third;
  }

  /** An applied run of the enforcer. `legacy` is its option to prune unverified
      raw spool of inactive runs; `extra` are the build artifacts and generated
      data it was told to include. */
  method Enforce(tree: FileTree, root: Path, repo: Path, facts: Path -> RunFacts, legacy: bool, extra: seq<Candidate>)
    returns (deleted: seq<Candidate>, available: nat)
    requires tree.Valid() && Advertises(extra, tree.files)
    modifies tree
    ensures tree.Valid()
    ensures SumBytes(deleted) == old(tree.Size()) - tree.Size()
    ensures SumBytes(deleted) <= available
    ensures PartOf(tree.files, old(tree.files))
    ensures forall q :: q in old(tree.files) ==>
              (q !in tree.files <==>
                 Goes(q, old(BulkWithBytes(tree.files, tree.dirs, root)), facts, legacy, extra, repo))
  {
    ghost var was := tree.files;
    ghost var bulk := BulkWithBytes(tree.files, tree.dirs, root);
    var safe, unsafe := FindBulkCandidates(tree, root, facts);
    var spool: seq<Candidate> := [];
    if legacy {
      spool := Select(unsafe, IsInactivePath(facts), was);
    }
    assert PathsOf(spool) == set d | d in bulk && legacy && IsUnsafePath(facts)(d) && IsInactivePath(facts)(d);
    available := SumBytes(safe) + SumBytes(spool) + SumBytes(extra);
    deleted := ApplyAll(tree, safe, spool, extra, root, repo);
    forall q | q in was
      ensures q !in tree.files <==> Goes(q, bulk, facts, legacy, extra, repo)
    {
      SweptTogether(q, was, bulk, safe, spool, extra, root, repo, facts, legacy);
    }
  }

  /** With the operator's option, which the collector always passes, the bulk of
      a run goes exactly when the run is not active: no verification is asked for. */
  lemma {:induction false} LegacyOptionAsksOnlyForInactivity(d: Path, facts: Path -> RunFacts)
    requires d != []
    ensures BulkGoes(d, facts, true) <==> !facts(RunDirOf(d)).active
    ensures BulkGoes(d, facts, false) <==> SafeRun(facts(RunDirOf(d)))
  {
  }
}
