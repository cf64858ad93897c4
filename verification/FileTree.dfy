/** A file tree as both storage scripts see it: files with sizes, directories,
    and removal of a path with everything below it
    (scripts/local_r2_first_storage_enforcer.py,
    scripts/local_r2_primary_storage_gc.py). */
module FileTree {

  /** A resolved path, as its components. `p <= q` says that `q` is `p` or lies
      below it. */
  type Path = seq<string>

  type Files = map<Path, nat>

  function Below(files: Files, p: Path): Files {
    map q | q in files && p <= q :: files[q]
  }

  function Without(files: Files, p: Path): Files {
    map q | q in files && !(p <= q) :: files[q]
  }

  /** What is left once every path of `doomed` has been removed. */
  function Cleared(files: Files, doomed: set<Path>): Files {
    map q | q in files && (forall p :: p in doomed ==> !(p <= q)) :: files[q]
  }

  lemma {:induction false} ClearedStep(files: Files, doomed: set<Path>, p: Path)
    ensures Cleared(files, doomed + {p}) == Without(Cleared(files, doomed), p)
  {
  }

  lemma {:induction false} ClearedTwice(files: Files, a: set<Path>, b: set<Path>)
    ensures Cleared(Cleared(files, a), b) == Cleared(files, a + b)
  {
    forall q | q in files ensures q in Cleared(Cleared(files, a), b) <==> q in Cleared(files, a + b) {
      if q in Cleared(Cleared(files, a), b) {
        assert forall p :: p in a + b ==> !(p <= q);
      } else if q !in Cleared(files, a) {
        var p :| p in a && p <= q;
        assert p in a + b;
      } else {
        var p :| p in b && p <= q;
        assert p in a + b;
      }
    }
  }

  predicate PartOf(less: Files, more: Files) {
    less.Keys <= more.Keys && forall q :: q in less ==> less[q] == more[q]
  }

  // ----- total size -----

  ghost function Total(files: Files): nat {
    if files == map[] then 0
    else
      var q :| q in files;
      files[q] + Total(files - {q})
  }

  lemma {:induction false} TotalMinusOne(files: Files, q: Path)
    requires q in files
    ensures Total(files) == files[q] + Total(files - {q})
    decreases |files|
  {
    var r :| r in files && Total(files) == files[r] + Total(files - {r});
    if q != r {
      TotalMinusOne(files - {r}, q);
      TotalMinusOne(files - {q}, r);
      assert files - {r} - {q} == files - {q} - {r};
    }
  }

  lemma {:induction false} BelowMinus(files: Files, p: Path, q: Path)
    requires q in files
    ensures p <= q ==> q in Below(files, p) && Below(files - {q}, p) == Below(files, p) - {q}
    ensures !(p <= q) ==> Below(files - {q}, p) == Below(files, p)
  {
  }

  lemma {:induction false} WithoutMinus(files: Files, p: Path, q: Path)
    requires q in files
    ensures !(p <= q) ==> q in Without(files, p) && Without(files - {q}, p) == Without(files, p) - {q}
    ensures p <= q ==> Without(files - {q}, p) == Without(files, p)
  {
  }

  /** What is below a path and what is not add up to the whole tree. */
  lemma {:induction false} TotalSplits(files: Files, p: Path)
    ensures Total(files) == Total(Below(files, p)) + Total(Without(files, p))
    decreases |files|
  {
    if files == map[] {
      assert Below(files, p) == map[] && Without(files, p) == map[];
    } else {
      var q :| q in files;
      TotalMinusOne(files, q);
      TotalSplits(files - {q}, p);
      BelowMinus(files, p, q);
      WithoutMinus(files, p, q);
      if p <= q {
        TotalMinusOne(Below(files, p), q);
      } else {
        TotalMinusOne(Without(files, p), q);
      }
    }
  }

  /** A tree that lost files weighs no more, at any path. */
  lemma {:induction false} TotalShrinks(less: Files, more: Files)
    requires PartOf(less, more)
    ensures Total(less) <= Total(more)
    decreases |less|
  {
    if less != map[] {
      var q :| q in less;
      TotalMinusOne(less, q);
      TotalMinusOne(more, q);
      TotalShrinks(less - {q}, more - {q});
    }
  }

  lemma {:induction false} LessBelow(less: Files, more: Files, p: Path)
    requires PartOf(less, more)
    ensures Total(Below(less, p)) <= Total(Below(more, p))
  {
    TotalShrinks(Below(less, p), Below(more, p));
  }

  lemma {:induction false} BelowNothing(files: Files, p: Path)
    requires forall q :: q in files ==> !(p <= q)
    ensures Below(files, p) == map[] && Total(Below(files, p)) == 0 && Without(files, p) == files
  {
  }

  lemma {:induction false} BelowFile(files: Files, p: Path)
    requires p in files && forall q :: q in files && p <= q ==> q == p
    ensures Total(Below(files, p)) == files[p] && Without(files, p) == files - {p}
  {
    assert Below(files, p) == map[p := files[p]];
    TotalMinusOne(Below(files, p), p);
    assert Below(files, p) - {p} == map[];
  }

  class FileTree {
    var files: Files
    var dirs: set<Path>

    /** Nothing lies below a file, and every proper prefix of an entry is a directory. */
    ghost predicate Valid()
      reads this
    {
      && (forall f, q :: f in files && q in files && f <= q ==> q == f)
      && (forall f, q :: f in files && q in dirs ==> !(f <= q))
      && (forall p, q :: q in files && p <= q && p != q ==> p in dirs)
      && (forall p, q :: q in dirs && p <= q ==> p in dirs)
    }

    predicate Exists(p: Path)
      reads this
    {
      p in files || p in dirs
    }

    ghost function Size(): nat
      reads this
    {
      Total(files)
    }

    /** The size of a path: nothing, the file's own, or what a walk adds up. */
    method SizeBytes(p: Path) returns (total: nat)
      requires Valid()
      ensures total == Total(Below(files, p))
    {
      if !Exists(p) {
        BelowNothing(files, p);
        return 0;
      }
      if p in files {
        BelowFile(files, p);
        return files[p];
      }
      total := 0;
      var left := Below(files, p);
      while left != map[]
        invariant total + Total(left) == Total(Below(files, p))
        decreases |left|
      {
        var q :| q in left;
        TotalMinusOne(left, q);
        total := total + left[q];
        left := left - {q};
      }
    }

    /** Removes a file, or a directory with everything below it, and returns the
        size measured before. */
    method RemovePath(p: Path) returns (freed: nat)
      requires Valid()
      modifies this
      ensures Valid()
      ensures files == Without(old(files), p)
      ensures dirs == set q | q in old(dirs) && !(p <= q)
      ensures freed == old(Size()) - Size()
      ensures freed == Total(Below(old(files), p))
    {
      freed := SizeBytes(p);
      TotalSplits(files, p);
      if p in dirs {
        files := Without(files, p);
        dirs := set q | q in dirs && !(p <= q);
      } else if Exists(p) {
        BelowFile(files, p);
        files := files - {p};
        assert forall q :: q in dirs ==> !(p <= q);
      } else {
        BelowNothing(files, p);
        assert forall q :: q in dirs ==> !(p <= q);
      }
      assert dirs == set q | q in old(dirs) && !(p <= q);
    }
  }
}
