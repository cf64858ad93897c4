/** The recovery script's own form: entry lists updated in place and a run
    directory rewritten step by step (scripts/recover_r2_streaming_run.py). */
module RunDirectory {
  import opened Common
  import opened Recovery

  /** The counters of a pass, one entry further. */
  lemma {:induction false} PassStep(entries: seq<Shard>, i: nat, key: string, del: bool, nodes: map<Path, Node>)
    requires i < |entries|
    ensures CountMarked(entries[..i + 1], key, nodes)
         == CountMarked(entries[..i], key, nodes) + Unit(FateOf(entries[i], key, nodes) == Mark)
    ensures DeferredPaths(entries[..i + 1], key, del, nodes)
         == DeferredPaths(entries[..i], key, del, nodes)
          + if del && FateOf(entries[i], key, nodes) == Mark then {ToPath(entries[i].localPath)} else {}
  {
    var longer := entries[..i + 1];
    assert longer[..i] == entries[..i];
    var extra: set<Path> := if del && FateOf(entries[i], key, nodes) == Mark then {ToPath(entries[i].localPath)} else {};
    forall p
      ensures p in DeferredPaths(longer, key, del, nodes) <==> p in DeferredPaths(entries[..i], key, del, nodes) + extra
    {
      if p in DeferredPaths(entries[..i], key, del, nodes) {
        var j :| 0 <= j < i && FateOf(entries[..i][j], key, nodes) == Mark && p == ToPath(entries[..i][j].localPath);
        assert longer[j] == entries[..i][j];
      }
      if p in extra {
        assert longer[i] == entries[i];
      }
      if p in DeferredPaths(longer, key, del, nodes) {
        var j :| 0 <= j < i + 1 && FateOf(longer[j], key, nodes) == Mark && p == ToPath(longer[j].localPath);
        if j < i {
          assert entries[..i][j] == longer[j];
        }
      }
    }
  }

  /** Handles one entry of the pass: updates it in place or raises. */
  method MarkOne(entries: array<Shard>, i: nat, key: string, del: bool, nodes: map<Path, Node>)
    returns (outcome: Result<bool, RecoveryError>)
    requires i < entries.Length
    modifies entries
    ensures outcome.Failure? <==> Raises(old(entries[i]), key, nodes)
    ensures outcome.Failure? ==> outcome.error == ErrorFor(old(entries[i]), key, nodes) && entries[..] == old(entries[..])
    ensures outcome.Success? ==> outcome.value == (FateOf(old(entries[i]), key, nodes) == Mark)
    ensures outcome.Success? ==> entries[i] == MarkEntry(old(entries[i]), key, del, nodes)
    ensures forall j :: 0 <= j < entries.Length && j != i ==> entries[j] == old(entries[j])
  {
    var shard := entries[i];
    var path := ToPath(shard.localPath);
    if shard.objectKey != "" && shard.objectKey != key {
      return Success(false);
    }
    if Settled(shard) || path !in nodes {
      return Success(false);
    }
    match nodes[path]
    case Directory =>
      return Failure(UnreadablePath(path));
    case File(digest) =>
      if shard.sha256 != "" && shard.sha256 != digest {
        return Failure(ShaMismatch(path));
      }
      entries[i] := Marked(shard, key, del);
      return Success(true);
  }

  /** Marks every entry the verified key covers, in place. The pass raises at the
      first entry whose bytes do not match or cannot be read. */
  method MarkVerifiedEntries(entries: array<Shard>, key: string, del: bool, nodes: map<Path, Node>,
                             alreadyDeferred: set<Path>)
    returns (outcome: Result<nat, RecoveryError>, deferred: set<Path>)
    modifies entries
    ensures outcome.Failure? <==> Refused(old(entries[..]), key, nodes)
    ensures outcome.Success? ==>
              && entries[..] == MarkEntries(old(entries[..]), key, del, nodes)
              && outcome.value == CountMarked(old(entries[..]), key, nodes)
              && deferred == alreadyDeferred + DeferredPaths(old(entries[..]), key, del, nodes)
    ensures outcome.Failure? ==>
              exists i :: && 0 <= i < entries.Length
                          && Raises(old(entries[..])[i], key, nodes)
                          && outcome.error == ErrorFor(old(entries[..])[i], key, nodes)
                          && !Refused(old(entries[..])[..i], key, nodes)
  {
    ghost var was := entries[..];
    var changed := 0;
    deferred := alreadyDeferred;
    var i := 0;
    while i < entries.Length
      invariant 0 <= i <= entries.Length
      invariant forall j :: 0 <= j < i ==> !Raises(was[j], key, nodes)
      invariant forall j :: 0 <= j < i ==> entries[j] == MarkEntry(was[j], key, del, nodes)
      invariant forall j :: i <= j < entries.Length ==> entries[j] == was[j]
      invariant changed == CountMarked(was[..i], key, nodes)
      invariant deferred == alreadyDeferred + DeferredPaths(was[..i], key, del, nodes)
    {
      var path := ToPath(entries[i].localPath);
      PassStep(was, i, key, del, nodes);
      var one := MarkOne(entries, i, key, del, nodes);
      if one.Failure? {
        assert Raises(was[i], key, nodes) && !Refused(was[..i], key, nodes);
        return Failure(one.error), deferred;
      }
      if one.value {
        changed := changed + 1;
        if del {
          deferred := deferred + {path};
        }
      }
      i := i + 1;
    }
    assert was[..i] == was;
    outcome := Success(changed);
  }

  /** One pass over the entries read from a manifest. */
  method MarkManifest(entriesIn: seq<Shard>, key: string, del: bool, nodes: map<Path, Node>, alreadyDeferred: set<Path>)
    returns (outcome: Result<nat, RecoveryError>, entriesOut: seq<Shard>, deferred: set<Path>)
    ensures outcome.Failure? <==> Refused(entriesIn, key, nodes)
    ensures outcome.Success? ==>
              && entriesOut == MarkEntries(entriesIn, key, del, nodes)
              && outcome.value == CountMarked(entriesIn, key, nodes)
              && deferred == alreadyDeferred + DeferredPaths(entriesIn, key, del, nodes)
    ensures outcome.Failure? ==> outcome.error != NothingMatched
  {
    var entries := new Shard[|entriesIn|](i requires 0 <= i < |entriesIn| => entriesIn[i]);
    assert entries[..] == entriesIn;
    outcome, deferred := MarkVerifiedEntries(entries, key, del, nodes, alreadyDeferred);
    entriesOut := entries[..];
  }

  lemma {:induction false} DeferredExist(d: Disk, key: string, del: bool)
    ensures Deferred(d, key, del) <= d.nodes.Keys
  {
  }

  lemma {:induction false} TraceStep(d: Disk, order: seq<Path>, path: Path)
    ensures Listed(order + [path]) == Listed(order) + {path}
    ensures RemovalTrace(d, order + [path])
         == RemovalTrace(d, order) + [d.(nodes := d.nodes - Listed(order) - {path})]
  {
    var longer := order + [path];
    assert d.nodes - Listed(longer) == d.nodes - Listed(order) - {path};
    forall i | 0 <= i < |order|
      ensures RemovalTrace(d, longer)[i] == RemovalTrace(d, order)[i]
    {
      assert longer[..i + 1] == order[..i + 1];
    }
    assert longer[..|order| + 1] == longer;
  }

  class RunDirectory {
    var relay: seq<Shard>
    var artifact: seq<Shard>
    var stream: StreamManifest
    var spool: SpoolManifest
    var present: set<string>
    var nodes: map<Path, Node>
    ghost var history: seq<Disk>  // every disk state written so far, one per atomic step

    constructor (d: Disk)
      ensures Snapshot() == d && history == []
    {
      relay, artifact, stream, spool, present, nodes := d.relay, d.artifact, d.stream, d.spool, d.present, d.nodes;
      history := [];
    }

    function Snapshot(): Disk
      reads this
    {
      Disk(relay, artifact, stream, spool, present, nodes)
    }

    method WriteRelay(entries: seq<Shard>)
      modifies this
      ensures Snapshot() == old(Snapshot()).(relay := entries, present := old(present) + {RELAY})
      ensures history == old(history) + [Snapshot()]
    {
      relay, present := entries, present + {RELAY};
      history := history + [Snapshot()];
    }

    method WriteArtifact(entries: seq<Shard>)
      modifies this
      ensures Snapshot() == old(Snapshot()).(artifact := entries, present := old(present) + {ARTIFACT})
      ensures history == old(history) + [Snapshot()]
    {
      artifact, present := entries, present + {ARTIFACT};
      history := history + [Snapshot()];
    }

    method Unlink(path: Path)
      modifies this
      ensures Snapshot() == old(Snapshot()).(nodes := old(nodes) - {path})
      ensures history == old(history) + [Snapshot()]
    {
      nodes := nodes - {path};
      history := history + [Snapshot()];
    }

    method WriteStream(value: StreamManifest)
      modifies this
      ensures Snapshot() == old(Snapshot()).(stream := value, present := old(present) + {STREAM})
      ensures history == old(history) + [Snapshot()]
    {
      stream, present := value, present + {STREAM};
      history := history + [Snapshot()];
    }

    method WriteSpool(value: SpoolManifest)
      modifies this
      ensures Snapshot() == old(Snapshot()).(spool := value, present := old(present) + {SPOOL})
      ensures history == old(history) + [Snapshot()]
    {
      spool, present := value, present + {SPOOL};
      history := history + [Snapshot()];
    }

    /** Removes the deferred files, one at a time, in some order. */
    method UnlinkDeferred(deferred: set<Path>) returns (ghost order: seq<Path>)
      requires deferred <= nodes.Keys
      modifies this
      ensures Snapshot() == old(Snapshot()).(nodes := old(nodes) - deferred)
      ensures Distinct(order) && Listed(order) == deferred
      ensures history == old(history) + RemovalTrace(old(Snapshot()), order)
    {
      ghost var d := Snapshot();
      ghost var h := history;
      var left := deferred;
      order := [];
      assert d.nodes - {} == d.nodes;
      while left != {}
        invariant left <= deferred && Listed(order) == deferred - left
        invariant Distinct(order)
        invariant Snapshot() == d.(nodes := d.nodes - Listed(order))
        invariant history == h + RemovalTrace(d, order)
      {
        var path :| path in left;
        assert path in nodes;
        TraceStep(d, order, path);
        if path in nodes {
          Unlink(path);
        }
        left := left - {path};
        order := order + [path];
      }
    }

    /** Rewrites both chunk manifests; removes nothing. */
    method MarkManifests(key: string, del: bool) returns (outcome: Result<nat, RecoveryError>, deferred: set<Path>)
      modifies this
      ensures outcome.Success? <==> Accepts(old(Snapshot()), key) && !ArtifactRefused(old(Snapshot()), key)
      ensures outcome.Success? ==>
                && Snapshot() == AfterArtifact(old(Snapshot()), key, del)
                && history == old(history) + [AfterRelay(old(Snapshot()), key, del), Snapshot()]
                && outcome.value == CountMarked(RelayEntries(old(Snapshot())), key, old(nodes))
                && deferred == Deferred(old(Snapshot()), key, del)
      ensures !Accepts(old(Snapshot()), key) ==> Snapshot() == old(Snapshot()) && history == old(history)
      ensures Accepts(old(Snapshot()), key) && ArtifactRefused(old(Snapshot()), key) ==>
                Snapshot() == AfterRelay(old(Snapshot()), key, del) && history == old(history) + [Snapshot()]
      ensures outcome == Failure(NothingMatched) <==>
                !Refused(RelayEntries(old(Snapshot())), key, old(nodes)) && !Accepts(old(Snapshot()), key)
    {
      ghost var d := Snapshot();
      var marked, relayEntries;
      marked, relayEntries, deferred := MarkManifest(if RELAY in present then relay else [], key, del, nodes, {});
      if marked.Failure? {
        return Failure(marked.error), deferred;
      }
      if marked.value == 0 {
        return Failure(NothingMatched), deferred;
      }
      WriteRelay(relayEntries);
      assert Snapshot() == AfterRelay(d, key, del);
      var again, artifactEntries;
      again, artifactEntries, deferred := MarkManifest(if ARTIFACT in present then artifact else [], key, del, nodes, deferred);
      if again.Failure? {
        return Failure(again.error), deferred;
      }
      WriteArtifact(artifactEntries);
      outcome := marked;
    }

    /** Marks retained chunks verified after an independently verified upload.
        An exception is a `Failure`; nothing is removed before both manifests
        are on disk. */
    method ApplyVerifiedUpload(key: string, del: bool) returns (outcome: Result<Report, RecoveryError>)
      modifies this
      ensures outcome.Success? <==> Accepts(old(Snapshot()), key) && !ArtifactRefused(old(Snapshot()), key)
      ensures outcome.Success? ==>
                && Snapshot() == AfterSpool(old(Snapshot()), key, del)
                && outcome.value == ReportOf(old(Snapshot()), key, del)
                && old(history) <= history
                && WriteAheadOrder(old(Snapshot()), key, del, history[|old(history)|..])
      ensures !Accepts(old(Snapshot()), key) ==> Snapshot() == old(Snapshot()) && history == old(history)
      ensures Accepts(old(Snapshot()), key) && ArtifactRefused(old(Snapshot()), key) ==>
                Snapshot() == AfterRelay(old(Snapshot()), key, del) && history == old(history) + [Snapshot()]
      ensures outcome == Failure(NothingMatched) <==>
                !Refused(RelayEntries(old(Snapshot())), key, old(nodes)) && !Accepts(old(Snapshot()), key)
    {
      ghost var d := Snapshot();
      ghost var h := history;
      var marked, deferred := MarkManifests(key, del);
      if marked.Failure? {
        return Failure(marked.error);
      }
      DeferredExist(d, key, del);
      ghost var order := UnlinkDeferred(deferred);
      WriteCounters(key);
      ghost var written := AttemptTrace(d, key, del, order);
      assert history == h + written;
      assert history[|h|..] == written;
      outcome := Success(Report(marked.value, stream.uploaded, stream.verified, stream.deleted, stream.unverified));
    }

    /** Rewrites the two counter manifests from the relay entries. */
    method WriteCounters(key: string)
      modifies this
      ensures Snapshot() == CountersWritten(old(Snapshot()), key)
      ensures history == old(history) + [WithStream(old(Snapshot()), key), CountersWritten(old(Snapshot()), key)]
    {
      ghost var d := Snapshot();
      var unverified := CountWhere(relay, IsUnverified());
      var kept := if STREAM in present then stream.blockers else [];
      var blockers := NextBlockers(kept, unverified);
      WriteStream(StreamManifest(unverified == 0 && blockers == [], CountWhere(relay, IsUploaded()),
                                 CountWhere(relay, IsVerified()), CountWhere(relay, IsDeleted()),
                                 unverified, blockers, key));
      assert Snapshot() == WithStream(d, key);
      WriteSpool(SpoolManifest(stream.deleted, stream.unverified));
    }
  }
}
