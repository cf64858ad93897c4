/** What the recovery protocol promises: no chunk is lost at any crash point of
    any number of attempts, and the counters tell the truth. */
module RecoveryTheorems {
  import opened Common
  import opened Recovery

  /** The manifest entry that justifies the absence of a local file: fully
      verified under one of `keys`, and naming the digest the file had. */
  predicate Confirms(e: Shard, path: Path, node: Node, keys: set<string>) {
    && ToPath(e.localPath) == path
    && e.uploaded == Yes && e.verified == Yes && e.localDeleted == Yes
    && e.objectKey in keys
    && node.File?
    && (e.sha256 == "" || e.sha256 == node.digest)
  }

  predicate Recorded(d: Disk, path: Path, node: Node, keys: set<string>) {
    || (exists i :: 0 <= i < |RelayEntries(d)| && Confirms(RelayEntries(d)[i], path, node, keys))
    || (exists i :: 0 <= i < |ArtifactEntries(d)| && Confirms(ArtifactEntries(d)[i], path, node, keys))
  }

  /** Nothing that `was` held has changed, and whatever is gone is recorded as
      verified in a manifest that is already on disk. */
  ghost predicate NothingLost(was: Disk, now: Disk, keys: set<string>) {
    && now.nodes.Keys <= was.nodes.Keys
    && (forall p :: p in now.nodes ==> now.nodes[p] == was.nodes[p])
    && (forall p :: p in was.nodes && p !in now.nodes ==> Recorded(now, p, was.nodes[p], keys))
  }

  // ----- the list of states an attempt writes -----

  /** Every state a successful attempt writes is a crash point. */
  lemma {:induction false} TraceIsCrashPoints(d: Disk, key: string, del: bool, h: seq<Disk>, i: nat)
    requires Accepts(d, key) && !ArtifactRefused(d, key)
    requires WriteAheadOrder(d, key, del, h) && i < |h|
    ensures CrashPoint(d, key, del, h[i])
  {
    var order :| && Distinct(order) && Listed(order) == Deferred(d, key, del)
                 && h == AttemptTrace(d, key, del, order);
    var a := AfterArtifact(d, key, del);
    if i == 1 {
      assert d.nodes - {} == d.nodes;
      assert h[i] == AfterUnlinks(d, key, del, {});
    } else if 2 <= i < 2 + |order| {
      var gone := Listed(order[..i - 1]);
      assert h[i] == RemovalTrace(a, order)[i - 2];
      assert gone <= Listed(order);
      assert h[i] == AfterUnlinks(d, key, del, gone);
    }
  }

  // ----- safety of one attempt -----

  lemma {:induction false} MarkedEntryConfirms(e: Shard, key: string, nodes: map<Path, Node>)
    requires FateOf(e, key, nodes) == Mark
    ensures ToPath(e.localPath) in nodes
    ensures Confirms(MarkEntry(e, key, true, nodes), ToPath(e.localPath), nodes[ToPath(e.localPath)], {key})
  {
  }

  /** Once both manifests are written, each deferred path is recorded. */
  lemma {:induction false} DeferredAreRecorded(d: Disk, key: string, c: Disk, path: Path)
    requires RelayEntries(c) == RelayEntries(AfterArtifact(d, key, true))
    requires ArtifactEntries(c) == ArtifactEntries(AfterArtifact(d, key, true))
    requires path in Deferred(d, key, true)
    ensures path in d.nodes && Recorded(c, path, d.nodes[path], {key})
  {
    if path in DeferredPaths(RelayEntries(d), key, true, d.nodes) {
      var i :| 0 <= i < |RelayEntries(d)| && FateOf(RelayEntries(d)[i], key, d.nodes) == Mark
               && path == ToPath(RelayEntries(d)[i].localPath);
      MarkedEntryConfirms(RelayEntries(d)[i], key, d.nodes);
      assert Confirms(RelayEntries(c)[i], path, d.nodes[path], {key});
    } else {
      var i :| 0 <= i < |ArtifactEntries(d)| && FateOf(ArtifactEntries(d)[i], key, d.nodes) == Mark
               && path == ToPath(ArtifactEntries(d)[i].localPath);
      MarkedEntryConfirms(ArtifactEntries(d)[i], key, d.nodes);
      assert Confirms(ArtifactEntries(c)[i], path, d.nodes[path], {key});
    }
  }

  /** At every crash point of one attempt a missing chunk is recorded in a
      manifest already on disk. */
  lemma {:induction false} CrashSafety(d: Disk, key: string, del: bool, c: Disk)
    requires CrashPoint(d, key, del, c)
    ensures NothingLost(d, c, {key})
  {
    forall p | p in d.nodes && p !in c.nodes
      ensures Recorded(c, p, d.nodes[p], {key})
    {
      assert p in Deferred(d, key, del);
      assert del;
      DeferredAreRecorded(d, key, c, p);
    }
  }

  // ----- safety of any number of interrupted attempts -----

  datatype Attempt = Attempt(key: string, del: bool)

  function KeysOf(attempts: seq<Attempt>): set<string> {
    set i | 0 <= i < |attempts| :: attempts[i].key
  }

  /** `run` lists the disk before each attempt; each attempt stops, by a crash,
      an exception or normally, in the state the next one starts from. */
  ghost predicate IsRun(run: seq<Disk>, attempts: seq<Attempt>) {
    && |run| == |attempts| + 1
    && forall i :: 0 <= i < |attempts| ==> CrashPoint(run[i], attempts[i].key, attempts[i].del, run[i + 1])
  }

  lemma {:induction false} RecordsSurvivePass(entries: seq<Shard>, key: string, del: bool, nodes: map<Path, Node>, i: nat)
    requires i < |entries| && Settled(entries[i])
    ensures i < |MarkEntries(entries, key, del, nodes)| && MarkEntries(entries, key, del, nodes)[i] == entries[i]
  {
  }

  /** An interrupted attempt leaves each list untouched or completely marked. */
  lemma {:induction false} ListsAtCrashPoint(d: Disk, key: string, del: bool, c: Disk)
    requires CrashPoint(d, key, del, c)
    ensures RelayEntries(c) == RelayEntries(d) || RelayEntries(c) == MarkEntries(RelayEntries(d), key, del, d.nodes)
    ensures ArtifactEntries(c) == ArtifactEntries(d)
         || ArtifactEntries(c) == MarkEntries(ArtifactEntries(d), key, del, d.nodes)
  {
    assert c == d || RelayEntries(c) == MarkEntries(RelayEntries(d), key, del, d.nodes);
  }

  /** A settled entry is never touched again, so a record stays a record. */
  lemma {:induction false} RecordsArePermanent(d: Disk, key: string, del: bool, c: Disk, path: Path, node: Node,
                                               keys: set<string>)
    requires CrashPoint(d, key, del, c)
    requires Recorded(d, path, node, keys)
    ensures Recorded(c, path, node, keys)
  {
    ListsAtCrashPoint(d, key, del, c);
    if i :| 0 <= i < |RelayEntries(d)| && Confirms(RelayEntries(d)[i], path, node, keys) {
      RecordsSurvivePass(RelayEntries(d), key, del, d.nodes, i);
      assert RelayEntries(c)[i] == RelayEntries(d)[i];
    } else {
      var i :| 0 <= i < |ArtifactEntries(d)| && Confirms(ArtifactEntries(d)[i], path, node, keys);
      RecordsSurvivePass(ArtifactEntries(d), key, del, d.nodes, i);
      assert ArtifactEntries(c)[i] == ArtifactEntries(d)[i];
    }
  }

  lemma {:induction false} MoreKeys(d: Disk, path: Path, node: Node, keys: set<string>, more: set<string>)
    requires Recorded(d, path, node, keys) && keys <= more
    ensures Recorded(d, path, node, more)
  {
    if i :| 0 <= i < |RelayEntries(d)| && Confirms(RelayEntries(d)[i], path, node, keys) {
      assert Confirms(RelayEntries(d)[i], path, node, more);
    } else {
      var i :| 0 <= i < |ArtifactEntries(d)| && Confirms(ArtifactEntries(d)[i], path, node, keys);
      assert Confirms(ArtifactEntries(d)[i], path, node, more);
    }
  }

  /** One more attempt keeps the promise made by the attempts before it. */
  lemma {:induction false} OneMoreAttempt(first: Disk, d: Disk, keys: set<string>, last: Attempt, c: Disk)
    requires NothingLost(first, d, keys)
    requires CrashPoint(d, last.key, last.del, c)
    ensures NothingLost(first, c, keys + {last.key})
  {
    var more := keys + {last.key};
    CrashSafety(d, last.key, last.del, c);
    forall p | p in first.nodes && p !in c.nodes
      ensures Recorded(c, p, first.nodes[p], more)
    {
      if p in d.nodes {
        MoreKeys(c, p, d.nodes[p], {last.key}, more);
      } else {
        RecordsArePermanent(d, last.key, last.del, c, p, first.nodes[p], keys);
        MoreKeys(c, p, first.nodes[p], keys, more);
      }
    }
  }

  lemma {:induction false} KeysOfPrefix(attempts: seq<Attempt>, n: nat)
    requires n + 1 == |attempts|
    ensures KeysOf(attempts) == KeysOf(attempts[..n]) + {attempts[n].key}
  {
    forall i | 0 <= i < n + 1 ensures attempts[i].key in KeysOf(attempts[..n]) + {attempts[n].key} {
      if i < n {
        assert attempts[..n][i] == attempts[i];
      }
    }
  }

  /** Over any number of attempts, with any keys and modes, each of which may be
      interrupted anywhere, no unconfirmed chunk is lost. */
  lemma {:induction false} NeverLoseAnUnconfirmedChunk(run: seq<Disk>, attempts: seq<Attempt>)
    requires IsRun(run, attempts)
    ensures NothingLost(run[0], run[|run| - 1], KeysOf(attempts))
    decreases |attempts|
  {
    if attempts != [] {
      var n := |attempts| - 1;
      NeverLoseAnUnconfirmedChunk(run[..n + 1], attempts[..n]);
      OneMoreAttempt(run[0], run[n], KeysOf(attempts[..n]), attempts[n], run[n + 1]);
      KeysOfPrefix(attempts, n);
    }
  }

  // ----- running again -----

  lemma {:induction false} NothingToMark(entries: seq<Shard>, key: string, nodes: map<Path, Node>)
    requires forall i :: 0 <= i < |entries| ==> FateOf(entries[i], key, nodes) == Skip
    ensures CountMarked(entries, key, nodes) == 0
    decreases |entries|
  {
    if entries != [] {
      NothingToMark(entries[..|entries| - 1], key, nodes);
    }
  }

  lemma {:induction false} SomethingMarked(entries: seq<Shard>, key: string, nodes: map<Path, Node>) returns (i: nat)
    requires CountMarked(entries, key, nodes) > 0
    ensures i < |entries| && FateOf(entries[i], key, nodes) == Mark
    decreases |entries|
  {
    var n := |entries| - 1;
    if FateOf(entries[n], key, nodes) == Mark {
      i := n;
    } else {
      i := SomethingMarked(entries[..n], key, nodes);
    }
  }

  /** After a pass in delete mode the same key finds nothing, whichever of the
      covered files are gone by then. */
  lemma {:induction false} SecondPassSkips(entries: seq<Shard>, key: string, nodes: map<Path, Node>, later: map<Path, Node>)
    requires !Refused(entries, key, nodes)
    requires later.Keys <= nodes.Keys && forall p :: p in later ==> later[p] == nodes[p]
    ensures !Refused(MarkEntries(entries, key, true, nodes), key, later)
    ensures CountMarked(MarkEntries(entries, key, true, nodes), key, later) == 0
  {
    var marked := MarkEntries(entries, key, true, nodes);
    forall i | 0 <= i < |marked|
      ensures FateOf(marked[i], key, later) == Skip
    {
      assert !Raises(entries[i], key, nodes);
    }
    NothingToMark(marked, key, later);
  }

  /** In delete mode an attempt interrupted at `c` can be repeated with the same
      key if and only if the relay manifest was not yet written; otherwise the
      repeat is rejected and the files not yet removed stay. */
  lemma {:induction false} RerunAfterCrash(d: Disk, key: string, c: Disk)
    requires Accepts(d, key) && CrashPoint(d, key, true, c)
    ensures Accepts(c, key) <==> c == d
    ensures c != d ==> !Refused(RelayEntries(c), key, c.nodes)
  {
    if c != d {
      CrashSafety(d, key, true, c);
      assert RelayEntries(c) == MarkEntries(RelayEntries(d), key, true, d.nodes);
      SecondPassSkips(RelayEntries(d), key, d.nodes, c.nodes);
    }
  }

  /** A completed recovery in delete mode can not be applied twice. */
  lemma {:induction false} SecondRunRejected(d: Disk, key: string)
    requires Accepts(d, key) && !ArtifactRefused(d, key)
    ensures !Accepts(AfterSpool(d, key, true), key)
    ensures !Refused(RelayEntries(AfterSpool(d, key, true)), key, AfterSpool(d, key, true).nodes)
  {
    var i := SomethingMarked(RelayEntries(d), key, d.nodes);
    var c := AfterSpool(d, key, true);
    MarkedDiffers(RelayEntries(d), key, d.nodes, i);
    RerunAfterCrash(d, key, c);
  }

  lemma {:induction false} MarkedDiffers(entries: seq<Shard>, key: string, nodes: map<Path, Node>, i: nat)
    requires i < |entries| && FateOf(entries[i], key, nodes) == Mark
    ensures MarkEntries(entries, key, true, nodes) != entries
  {
    assert MarkEntries(entries, key, true, nodes)[i] == Marked(entries[i], key, true);
    assert !Settled(entries[i]) && Settled(MarkEntries(entries, key, true, nodes)[i]);
  }

  lemma {:induction false} SameFatesSameCount(a: seq<Shard>, b: seq<Shard>, key: string, nodes: map<Path, Node>)
    requires |a| == |b| && forall i :: 0 <= i < |a| ==> FateOf(a[i], key, nodes) == FateOf(b[i], key, nodes)
    ensures CountMarked(a, key, nodes) == CountMarked(b, key, nodes)
    decreases |a|
  {
    if a != [] {
      SameFatesSameCount(a[..|a| - 1], b[..|b| - 1], key, nodes);
    }
  }

  lemma {:induction false} KeptEntry(e: Shard, key: string, nodes: map<Path, Node>)
    requires !Raises(e, key, nodes)
    ensures var once := MarkEntry(e, key, false, nodes);
            && !Raises(once, key, nodes) && FateOf(once, key, nodes) == FateOf(e, key, nodes)
            && MarkEntry(once, key, false, nodes) == once
  {
  }

  /** Without deletion the same key can be applied again and changes no entry. */
  lemma {:induction false} KeepModeIsIdempotent(entries: seq<Shard>, key: string, nodes: map<Path, Node>)
    requires !Refused(entries, key, nodes)
    ensures var once := MarkEntries(entries, key, false, nodes);
            && !Refused(once, key, nodes)
            && MarkEntries(once, key, false, nodes) == once
            && CountMarked(once, key, nodes) == CountMarked(entries, key, nodes)
  {
    var once := MarkEntries(entries, key, false, nodes);
    forall i | 0 <= i < |entries|
      ensures !Raises(once[i], key, nodes) && FateOf(once[i], key, nodes) == FateOf(entries[i], key, nodes)
      ensures MarkEntry(once[i], key, false, nodes) == once[i]
    {
      KeptEntry(entries[i], key, nodes);
    }
    SameFatesSameCount(once, entries, key, nodes);
  }

  // ----- counters -----

  lemma {:induction false} VerifiedPlusUnverified(entries: seq<Shard>)
    ensures CountWhere(entries, IsVerified()) + CountWhere(entries, IsUnverified()) == |entries|
    decreases |entries|
  {
    if entries != [] {
      VerifiedPlusUnverified(entries[..|entries| - 1]);
    }
  }

  lemma {:induction false} ZeroMeansNone(entries: seq<Shard>, f: Shard -> bool)
    ensures CountWhere(entries, f) == 0 <==> forall i :: 0 <= i < |entries| ==> !f(entries[i])
    decreases |entries|
  {
    if entries != [] {
      var n := |entries| - 1;
      ZeroMeansNone(entries[..n], f);
      if forall i :: 0 <= i < n ==> !f(entries[..n][i]) {
        assert forall i :: 0 <= i < n ==> entries[..n][i] == entries[i];
      } else {
        var i :| 0 <= i < n && f(entries[..n][i]);
        assert f(entries[i]);
      }
    }
  }

  function Occurrences(codes: seq<string>, code: string): nat {
    multiset(codes)[code]
  }

  lemma {:induction false} WithoutBlockerIs(codes: seq<string>, code: string, b: string)
    ensures Occurrences(WithoutBlocker(codes, code), b) == if b == code then 0 else Occurrences(codes, b)
    decreases |codes|
  {
    if codes != [] {
      var n := |codes| - 1;
      WithoutBlockerIs(codes[..n], code, b);
      assert multiset(codes) == multiset(codes[..n]) + multiset{codes[n]} by {
        assert codes == codes[..n] + [codes[n]];
      }
    }
  }

  lemma {:induction false} NextBlockersCount(was: seq<string>, unverified: nat, b: string)
    ensures Occurrences(NextBlockers(was, unverified), b)
         == if b == UNVERIFIED_SHARD then Unit(unverified > 0) else Occurrences(was, b)
  {
    WithoutBlockerIs(was, UNVERIFIED_SHARD, b);
    var kept := WithoutBlocker(was, UNVERIFIED_SHARD);
    assert kept + [] == kept;
    assert multiset(kept + [UNVERIFIED_SHARD]) == multiset(kept) + multiset{UNVERIFIED_SHARD};
  }

  /** The unverified-shard blocker is present exactly once or not at all, and
      every other blocker keeps its multiplicity. */
  lemma {:induction false} BlockersAreExact(was: seq<string>, unverified: nat)
    ensures var now := NextBlockers(was, unverified);
            && Occurrences(now, UNVERIFIED_SHARD) == Unit(unverified > 0)
            && (forall b :: b != UNVERIFIED_SHARD ==> Occurrences(now, b) == Occurrences(was, b))
            && (now == [] <==> unverified == 0 && forall b :: b in was ==> b == UNVERIFIED_SHARD)
  {
    var now := NextBlockers(was, unverified);
    forall b
      ensures Occurrences(now, b) == if b == UNVERIFIED_SHARD then Unit(unverified > 0) else Occurrences(was, b)
    {
      NextBlockersCount(was, unverified, b);
    }
    if now == [] {
      forall b | b in was ensures b == UNVERIFIED_SHARD {
        assert Occurrences(was, b) > 0 && Occurrences(now, b) == 0;
      }
      assert Occurrences(now, UNVERIFIED_SHARD) == 0;
    } else {
      assert Occurrences(now, now[0]) > 0;
      assert now[0] != UNVERIFIED_SHARD ==> now[0] in was;
    }
  }

  lemma {:induction false} NextStreamIsExact(d: Disk, key: string)
    ensures var s := NextStream(d, key);
            && s.verified + s.unverified == |d.relay|
            && Occurrences(s.blockers, UNVERIFIED_SHARD) == Unit(s.unverified > 0)
            && (s.ok <==> && (forall i :: 0 <= i < |d.relay| ==> d.relay[i].verified == Yes)
                          && (forall b :: b in StreamBlockers(d) ==> b == UNVERIFIED_SHARD))
  {
    VerifiedPlusUnverified(d.relay);
    ZeroMeansNone(d.relay, IsUnverified());
    BlockersAreExact(StreamBlockers(d), CountWhere(d.relay, IsUnverified()));
  }

  /** The counters a completed recovery leaves behind. */
  lemma {:induction false} CountersAreExact(d: Disk, key: string, del: bool)
    requires Accepts(d, key) && !ArtifactRefused(d, key)
    ensures var c := AfterSpool(d, key, del);
            && |c.relay| == |RelayEntries(d)|
            && c.stream.verified + c.stream.unverified == |c.relay|
            && Occurrences(c.stream.blockers, UNVERIFIED_SHARD) == Unit(c.stream.unverified > 0)
            && (c.stream.ok <==> && (forall i :: 0 <= i < |c.relay| ==> c.relay[i].verified == Yes)
                                 && (forall b :: b in StreamBlockers(d) ==> b == UNVERIFIED_SHARD))
            && c.spool == SpoolManifest(c.stream.deleted, c.stream.unverified)
  {
    var u := AfterUnlinks(d, key, del, Deferred(d, key, del));
    NextStreamIsExact(u, key);
    assert StreamBlockers(u) == StreamBlockers(d) && AfterSpool(d, key, del).relay == u.relay;
  }

  /** No attempt, however it ends, turns a verified entry into an unverified one. */
  lemma {:induction false} VerifiedStaysVerified(d: Disk, key: string, del: bool, c: Disk, i: nat)
    requires CrashPoint(d, key, del, c) && i < |RelayEntries(d)|
    ensures |RelayEntries(c)| == |RelayEntries(d)|
    ensures RelayEntries(d)[i].verified == Yes ==> RelayEntries(c)[i].verified == Yes
    ensures Settled(RelayEntries(d)[i]) ==> RelayEntries(c)[i] == RelayEntries(d)[i]
  {
    assert c == d || RelayEntries(c) == MarkEntries(RelayEntries(d), key, del, d.nodes);
  }
}
