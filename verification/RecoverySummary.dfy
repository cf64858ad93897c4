/** The recovery summary and its classification
    (scripts/recover_r2_streaming_run.py). */
module RecoverySummary {
  import opened Common
  import opened Recovery
  import opened RecoveryTheorems
  import opened RecoveryOutcome

  const MANIFEST_NAMES: seq<string> := [
    "r2_streaming_upload_manifest.json",
    "artifact_stream_manifest.json",
    "relay_frame_manifest.json",
    "material_artifact_manifest.json",
    "local_spool_manifest.json",
    "r2_upload_result.json",
    "countability_decision.json",
    "run_countability_decision.json"]

  const RETRY_BLOCKED_R2_HEALTH := "R2_STREAMING_RECOVERY_RETRY_BLOCKED_R2_HEALTH"
  const RETRY_BLOCKED_NO_UPLOADER := "R2_STREAMING_RECOVERY_RETRY_BLOCKED_NO_UPLOADER"
  const UNVERIFIED_RETAINED := "R2_STREAMING_RECOVERY_UNVERIFIED_LOCAL_CHUNKS_RETAINED"
  const INCOMPLETE_MANIFESTS := "R2_STREAMING_RECOVERY_INCOMPLETE_MANIFESTS"
  const CLEAN := "R2_STREAMING_RECOVERY_CLEAN_COMPACT_MANIFESTS_ONLY"
  const NEEDS_MANUAL_REVIEW := "R2_STREAMING_RECOVERY_NEEDS_MANUAL_REVIEW"

  /** The operator's request: a retry, a confirmed R2 health check, an uploader. */
  datatype Request = Request(retry: bool, r2Healthy: bool, uploader: bool)

  datatype Summary = Summary(
    chunks: nat, missing: nat, verifiedDeleted: nat, verifiedPresent: nat, unverifiedLocal: nat)

  function Classify(s: Summary, request: Request): string {
    if request.retry && s.unverifiedLocal > 0 && !request.r2Healthy then RETRY_BLOCKED_R2_HEALTH
    else if request.retry && s.unverifiedLocal > 0 && !request.uploader then RETRY_BLOCKED_NO_UPLOADER
    else if s.unverifiedLocal > 0 then UNVERIFIED_RETAINED
    else if s.missing > 0 then INCOMPLETE_MANIFESTS
    else if s.verifiedDeleted == s.chunks then CLEAN
    else NEEDS_MANUAL_REVIEW
  }

  predicate OnDisk(shard: Shard, d: Disk) {
    ToPath(shard.localPath) in d.nodes
  }

  function IsSettled(): Shard -> bool { (s: Shard) => Settled(s) }

  function IsVerifiedPresent(d: Disk): Shard -> bool {
    (s: Shard) => s.verified == Yes && !Settled(s) && OnDisk(s, d)
  }

  function IsUnverifiedLocal(d: Disk): Shard -> bool {
    (s: Shard) => s.verified != Yes && OnDisk(s, d)
  }

  predicate AllManifestsPresent(d: Disk) {
    forall i :: 0 <= i < |MANIFEST_NAMES| ==> MANIFEST_NAMES[i] in d.present
  }

  function CountMissing(names: seq<string>, present: set<string>): nat {
    if names == [] then 0
    else CountMissing(names[..|names| - 1], present) + Unit(names[|names| - 1] !in present)
  }

  lemma {:induction false} NoneMissing(names: seq<string>, present: set<string>)
    ensures CountMissing(names, present) == 0 <==> forall i :: 0 <= i < |names| ==> names[i] in present
    decreases |names|
  {
    if names != [] {
      var n := |names| - 1;
      NoneMissing(names[..n], present);
      assert forall i :: 0 <= i < n ==> names[..n][i] == names[i];
    }
  }

  method FindMissing(names: seq<string>, present: set<string>) returns (missing: nat)
    ensures missing == CountMissing(names, present)
  {
    missing := 0;
    for i := 0 to |names|
      invariant missing == CountMissing(names[..i], present)
    {
      assert names[..i + 1][..i] == names[..i];
      if names[i] !in present {
        missing := missing + 1;
      }
    }
    assert names[..|names|] == names;
  }

  lemma {:induction false} CountStep(entries: seq<Shard>, i: nat, f: Shard -> bool)
    requires i < |entries|
    ensures CountWhere(entries[..i + 1], f) == CountWhere(entries[..i], f) + Unit(f(entries[i]))
  {
    assert entries[..i + 1][..i] == entries[..i];
  }

  /** `s` counts three classes of relay shards and the manifests that are absent. */
  predicate Summarises(s: Summary, d: Disk) {
    && s.chunks == |RelayEntries(d)|
    && s.verifiedDeleted == CountWhere(RelayEntries(d), IsSettled())
    && s.verifiedPresent == CountWhere(RelayEntries(d), IsVerifiedPresent(d))
    && s.unverifiedLocal == CountWhere(RelayEntries(d), IsUnverifiedLocal(d))
    && s.missing == CountMissing(MANIFEST_NAMES, d.present)
  }

  /** Counts manifests and shards in one pass each. */
  method BuildSummary(d: Disk) returns (s: Summary)
    ensures Summarises(s, d)
  {
    var missing := FindMissing(MANIFEST_NAMES, d.present);
    var shards := RelayEntries(d);
    var deleted, present, unverified := 0, 0, 0;
    for i := 0 to |shards|
      invariant deleted == CountWhere(shards[..i], IsSettled())
      invariant present == CountWhere(shards[..i], IsVerifiedPresent(d))
      invariant unverified == CountWhere(shards[..i], IsUnverifiedLocal(d))
    {
      CountStep(shards, i, IsSettled());
      CountStep(shards, i, IsVerifiedPresent(d));
      CountStep(shards, i, IsUnverifiedLocal(d));
      var exists_ := ToPath(shards[i].localPath) in d.nodes;
      if shards[i].verified == Yes && shards[i].localDeleted == Yes {
        deleted := deleted + 1;
      } else if shards[i].verified == Yes && exists_ {
        present := present + 1;
      } else if shards[i].verified != Yes && exists_ {
        unverified := unverified + 1;
      }
    }
    assert shards[..|shards|] == shards;
    s := Summary(|shards|, missing, deleted, present, unverified);
  }

  lemma {:induction false} ClassesAreDisjoint(shards: seq<Shard>, d: Disk)
    ensures CountWhere(shards, IsSettled()) + CountWhere(shards, IsVerifiedPresent(d))
          + CountWhere(shards, IsUnverifiedLocal(d)) <= |shards|
    decreases |shards|
  {
    if shards != [] {
      ClassesAreDisjoint(shards[..|shards| - 1], d);
    }
  }

  lemma {:induction false} AllOrFewer(shards: seq<Shard>)
    ensures CountWhere(shards, IsSettled()) <= |shards|
    ensures CountWhere(shards, IsSettled()) == |shards| <==> forall i :: 0 <= i < |shards| ==> Settled(shards[i])
    decreases |shards|
  {
    if shards != [] {
      var n := |shards| - 1;
      AllOrFewer(shards[..n]);
      if forall i :: 0 <= i < |shards| ==> Settled(shards[i]) {
        assert forall i :: 0 <= i < n ==> Settled(shards[..n][i]);
      } else if CountWhere(shards, IsSettled()) == |shards| {
        assert forall i :: 0 <= i < n ==> shards[i] == shards[..n][i];
      }
    }
  }

  /** A run is CLEAN exactly when no manifest is missing and every shard is
      itself verified and recorded as deleted, whatever was requested. */
  lemma {:induction false} CleanExactlyWhenSettled(s: Summary, d: Disk, request: Request)
    requires Summarises(s, d)
    ensures Classify(s, request) == CLEAN <==>
              && AllManifestsPresent(d)
              && forall i :: 0 <= i < |RelayEntries(d)| ==> Settled(RelayEntries(d)[i])
    ensures s.verifiedDeleted + s.verifiedPresent + s.unverifiedLocal <= s.chunks
  {
    NoneMissing(MANIFEST_NAMES, d.present);
    AllOrFewer(RelayEntries(d));
    ClassesAreDisjoint(RelayEntries(d), d);
  }

  /** An unverified shard keeps a run from being CLEAN even when its file is gone. */
  lemma {:induction false} VanishedShardIsNeverClean(s: Summary, d: Disk, request: Request, i: nat)
    requires Summarises(s, d)
    requires i < |RelayEntries(d)| && RelayEntries(d)[i].verified != Yes
    ensures Classify(s, request) != CLEAN
  {
    CleanExactlyWhenSettled(s, d, request);
    assert !Settled(RelayEntries(d)[i]);
  }

  // ----- the summary, stated on the shards -----

  predicate IsGone(shard: Shard) {
    shard.verified == Yes && shard.localDeleted == Yes
  }

  predicate HasFile(shard: Shard, d: Disk) {
    (if shard.localPath == "" then "." else shard.localPath) in d.nodes
  }

  /** The three classes of shards. */
  function Gone(shards: seq<Shard>): set<nat> {
    set i: nat | i < |shards| && IsGone(shards[i])
  }

  function StillThere(shards: seq<Shard>, d: Disk): set<nat> {
    set i: nat | i < |shards| && shards[i].verified == Yes && !IsGone(shards[i]) && HasFile(shards[i], d)
  }

  function Unconfirmed(shards: seq<Shard>, d: Disk): set<nat> {
    set i: nat | i < |shards| && shards[i].verified != Yes && HasFile(shards[i], d)
  }

  /** The counters of the summary, and what they are about. */
  lemma {:induction false} CountersExactly(s: Summary, d: Disk)
    requires Summarises(s, d)
    ensures var shards := EntriesOf(RELAY, d.present, d.relay);
            && s.chunks == |shards| && s.verifiedDeleted == |Gone(shards)|
            && s.verifiedPresent == |StillThere(shards, d)| && s.unverifiedLocal == |Unconfirmed(shards, d)|
  {
    var shards := EntriesOf(RELAY, d.present, d.relay);
    CountIs(shards, IsSettled(), Gone(shards));
    CountIs(shards, IsVerifiedPresent(d), StillThere(shards, d));
    CountIs(shards, IsUnverifiedLocal(d), Unconfirmed(shards, d));
  }

  /** An unverified shard still has its file. */
  predicate SomeUnconfirmed(shards: seq<Shard>, d: Disk) {
    exists i :: 0 <= i < |shards| && shards[i].verified != Yes && HasFile(shards[i], d)
  }

  lemma {:induction false} UnconfirmedExactly(shards: seq<Shard>, d: Disk)
    ensures |Unconfirmed(shards, d)| > 0 <==> SomeUnconfirmed(shards, d)
  {
    var which := Unconfirmed(shards, d);
    if i :| 0 <= i < |shards| && shards[i].verified != Yes && HasFile(shards[i], d) {
      assert i in which;
    }
    if |which| > 0 {
      var i :| i in which;
      assert shards[i].verified != Yes && HasFile(shards[i], d);
    }
  }

  /** The classification: while an unverified shard still has its file, the first of
      a retry without a healthy R2, a retry without an uploader, retention; then
      missing manifests; then clean or not. */
  lemma {:induction false} ClassifyExactly(s: Summary, d: Disk, request: Request)
    requires Summarises(s, d)
    ensures var shards := EntriesOf(RELAY, d.present, d.relay);
            var unconfirmed := SomeUnconfirmed(shards, d);
            var missing := exists i :: 0 <= i < |MANIFEST_NAMES| && MANIFEST_NAMES[i] !in d.present;
            var clean := forall i :: 0 <= i < |shards| ==> IsGone(shards[i]);
            var verdict := Classify(s, request);
            && (unconfirmed && request.retry && !request.r2Healthy ==> verdict == RETRY_BLOCKED_R2_HEALTH)
            && (unconfirmed && request.retry && request.r2Healthy && !request.uploader ==> verdict == RETRY_BLOCKED_NO_UPLOADER)
            && (unconfirmed && !(request.retry && !(request.r2Healthy && request.uploader)) ==> verdict == UNVERIFIED_RETAINED)
            && (!unconfirmed && missing ==> verdict == INCOMPLETE_MANIFESTS)
            && (!unconfirmed && !missing && clean ==> verdict == CLEAN)
            && (!unconfirmed && !missing && !clean ==> verdict == NEEDS_MANUAL_REVIEW)
  {
    var shards := EntriesOf(RELAY, d.present, d.relay);
    CountersExactly(s, d);
    UnconfirmedExactly(shards, d);
    NoneMissing(MANIFEST_NAMES, d.present);
    AllOrFewer(shards);
  }

  /** Every shard the relay manifest will hold is settled once the relay pass is
      written. */
  predicate PassSettlesAll(d: Disk, key: string) {
    forall i :: 0 <= i < |RelayEntries(d)| ==> Settled(MarkEntry(RelayEntries(d)[i], key, true, d.nodes))
  }

  /** When a delete-mode recovery is interrupted, by a crash or an exception, the
      run is CLEAN exactly when the relay manifest was already written, settles
      every shard, and no manifest is missing; what was removed plays no part. */
  lemma {:induction false} CleanAtCrashPointExactly(s: Summary, d: Disk, key: string, c: Disk, request: Request)
    requires Accepts(d, key) && CrashPoint(d, key, true, c) && Summarises(s, c)
    ensures Classify(s, request) == CLEAN <==> c != d && AllManifestsPresent(c) && PassSettlesAll(d, key)
  {
    CleanExactlyWhenSettled(s, c, request);
    var i := SomethingMarked(RelayEntries(d), key, d.nodes);
    assert !Settled(RelayEntries(d)[i]);
    if c != d {
      assert RelayEntries(c) == MarkEntries(RelayEntries(d), key, true, d.nodes);
    }
  }

  function SummaryOf(d: Disk): (s: Summary)
    ensures Summarises(s, d)
  {
    var shards := RelayEntries(d);
    Summary(|shards|, CountMissing(MANIFEST_NAMES, d.present), CountWhere(shards, IsSettled()),
            CountWhere(shards, IsVerifiedPresent(d)), CountWhere(shards, IsUnverifiedLocal(d)))
  }

  /** The state in which the recovery stops if nothing is removed. */
  function NothingRemoved(d: Disk, key: string): Disk {
    if ArtifactRefused(d, key) then AfterRelay(d, key, true) else AfterUnlinks(d, key, true, {})
  }

  /** While a chunk is still to be removed, only the two chunk manifests are new. */
  lemma {:induction false} ManifestsWhileRemoving(d: Disk, key: string, c: Disk)
    requires Accepts(d, key) && CrashPoint(d, key, true, c) && !(Deferred(d, key, true) !! c.nodes.Keys)
    ensures c.present <= d.present + {RELAY, ARTIFACT}
  {
  }

  /** No manifest but the artifact one, which a recovery can write itself, is missing. */
  predicate OthersPresent(d: Disk) {
    forall i :: 0 <= i < |MANIFEST_NAMES| ==> MANIFEST_NAMES[i] in d.present || MANIFEST_NAMES[i] == ARTIFACT
  }

  lemma {:induction false} CleanNeedsOthers(d: Disk, c: Disk)
    requires AllManifestsPresent(c) && c.present <= d.present + {RELAY, ARTIFACT} && RELAY in d.present
    ensures OthersPresent(d)
  {
    forall i | 0 <= i < |MANIFEST_NAMES| ensures MANIFEST_NAMES[i] in d.present || MANIFEST_NAMES[i] == ARTIFACT {
      assert MANIFEST_NAMES[i] in c.present;
    }
  }

  lemma {:induction false} NothingRemovedIsClean(d: Disk, key: string, request: Request)
    requires Accepts(d, key) && PassSettlesAll(d, key) && OthersPresent(d)
    ensures var c := NothingRemoved(d, key);
            CrashPoint(d, key, true, c) && Classify(SummaryOf(c), request) == CLEAN && !(Deferred(d, key, true) !! c.nodes.Keys)
  {
    var c := NothingRemoved(d, key);
    var i := SomethingMarked(RelayEntries(d), key, d.nodes);
    var path := ToPath(RelayEntries(d)[i].localPath);
    assert path in Deferred(d, key, true) && path in c.nodes.Keys;
    MarkedDiffers(RelayEntries(d), key, d.nodes, i);
    assert ArtifactRefused(d, key) ==> ARTIFACT in d.present;
    forall j | 0 <= j < |MANIFEST_NAMES| ensures MANIFEST_NAMES[j] in c.present {
      assert MANIFEST_NAMES[j] in d.present || MANIFEST_NAMES[j] == ARTIFACT;
    }
    CleanAtCrashPointExactly(SummaryOf(c), d, key, c, request);
  }

  /** CLEAN can be wrong about the files: a delete-mode attempt can be interrupted
      so that the run reads CLEAN with a chunk it was to remove still there. That
      can happen exactly when, before the attempt, its relay pass would settle
      every shard and no manifest but the artifact one is missing. A CLEAN
      interrupted run can not be repeated with the same key. */
  lemma {:induction false} CleanWithFilesLeftExactly(d: Disk, key: string, request: Request)
    requires Accepts(d, key)
    ensures (exists c :: CrashPoint(d, key, true, c) && Classify(SummaryOf(c), request) == CLEAN
                         && !(Deferred(d, key, true) !! c.nodes.Keys))
            <==> PassSettlesAll(d, key) && OthersPresent(d)
    ensures forall c :: CrashPoint(d, key, true, c) && Classify(SummaryOf(c), request) == CLEAN ==> !Accepts(c, key)
  {
    forall c | CrashPoint(d, key, true, c) && Classify(SummaryOf(c), request) == CLEAN
      ensures !Accepts(c, key)
      ensures !(Deferred(d, key, true) !! c.nodes.Keys) ==> PassSettlesAll(d, key) && OthersPresent(d)
    {
      CleanAtCrashPointExactly(SummaryOf(c), d, key, c, request);
      RerunAfterCrash(d, key, c);
      if !(Deferred(d, key, true) !! c.nodes.Keys) {
        ManifestsWhileRemoving(d, key, c);
        CleanNeedsOthers(d, c);
      }
    }
    if PassSettlesAll(d, key) && OthersPresent(d) {
      NothingRemovedIsClean(d, key, request);
    }
  }

  /** The worst case: the artifact pass raises after the relay manifest was
      written. Nothing is removed and the artifact manifest is unmarked, yet the
      run is CLEAN exactly under these conditions, and a repeat is rejected. */
  lemma {:induction false} RefusedArtifactReadsAsClean(s: Summary, d: Disk, key: string, request: Request)
    requires Accepts(d, key) && ArtifactRefused(d, key) && Summarises(s, AfterRelay(d, key, true))
    ensures var c := AfterRelay(d, key, true);
            && CrashPoint(d, key, true, c) && !Accepts(c, key)
            && c.nodes == d.nodes && Deferred(d, key, true) != {} && c.artifact == d.artifact
            && (Classify(s, request) == CLEAN <==> AllManifestsPresent(c) && PassSettlesAll(d, key))
  {
    var c := AfterRelay(d, key, true);
    var i := SomethingMarked(RelayEntries(d), key, d.nodes);
    assert ToPath(RelayEntries(d)[i].localPath) in Deferred(d, key, true);
    MarkedDiffers(RelayEntries(d), key, d.nodes, i);
    RerunAfterCrash(d, key, c);
    CleanAtCrashPointExactly(s, d, key, c, request);
  }

  /** One retained chunk, verified for the relay manifest and listed with another
      digest in the artifact manifest. */
  function RefusedRun(): Disk {
    var chunk := Shard("c", "", "", Absent, Absent, Absent, None);
    Disk([chunk], [chunk.(sha256 := "y")], StreamManifest(false, 0, 0, 0, 1, [], ""), SpoolManifest(0, 1),
         (set i | 0 <= i < |MANIFEST_NAMES| :: MANIFEST_NAMES[i]) + {RELAY, ARTIFACT}, map["c" := File("x")])
  }

  /** Such a run exists: CLEAN, with its only chunk still on disk and unmarked in
      the artifact manifest, and no way to repeat the recovery. */
  lemma {:induction false} CleanCanLeaveFiles(request: Request)
    ensures var d, key := RefusedRun(), "k"; var c := AfterRelay(d, key, true);
            && Accepts(d, key) && ArtifactRefused(d, key)
            && Classify(SummaryOf(c), request) == CLEAN && c.nodes == d.nodes && "c" in c.nodes
            && c.artifact == d.artifact && !Accepts(c, key)
  {
    var d, key := RefusedRun(), "k";
    assert RelayEntries(d) == d.relay && FateOf(d.relay[0], key, d.nodes) == Mark;
    assert d.relay[..0] == [];
    assert CountMarked(d.relay, key, d.nodes) == 1;
    assert ArtifactEntries(d) == d.artifact && Raises(d.artifact[0], key, d.nodes);
    var c := AfterRelay(d, key, true);
    forall i | 0 <= i < |MANIFEST_NAMES| ensures MANIFEST_NAMES[i] in c.present {
      assert MANIFEST_NAMES[i] in d.present;
    }
    RefusedArtifactReadsAsClean(SummaryOf(c), d, key, request);
  }
}
