/** What a recovery writes, stated on the entries and files it found
    (scripts/recover_r2_streaming_run.py: _mark_verified_entries,
    apply_verified_upload). */
module RecoveryOutcome {
  import opened Common
  import opened Recovery

  function Location(e: Shard): Path {
    if e.localPath == "" then "." else e.localPath
  }

  /** The confirmed key speaks of an entry that is not settled and whose path exists. */
  predicate Concerns(e: Shard, key: string, nodes: map<Path, Node>) {
    && (e.objectKey == "" || e.objectKey == key)
    && (e.verified != Yes || e.localDeleted != Yes)
    && Location(e) in nodes
  }

  /** The entry's path is a file, with the entry's digest if it has one. */
  predicate Matches(e: Shard, nodes: map<Path, Node>)
    requires Location(e) in nodes
  {
    nodes[Location(e)].File? && (e.sha256 == "" || e.sha256 == nodes[Location(e)].digest)
  }

  predicate Covers(e: Shard, key: string, nodes: map<Path, Node>) {
    Concerns(e, key, nodes) && Matches(e, nodes)
  }

  predicate Contradicts(e: Shard, key: string, nodes: map<Path, Node>) {
    Concerns(e, key, nodes) && !Matches(e, nodes)
  }

  /** What a covered entry becomes. */
  predicate Confirmed(was: Shard, now: Shard, key: string, del: bool) {
    && now.objectKey == key && now.uploaded == now.verified == Yes && now.error == None
    && now.localDeleted == (if del then Yes else No)
    && now.localPath == was.localPath && now.sha256 == was.sha256
  }

  /** Covered entries are confirmed, the others are as they were. */
  predicate Updated(was: seq<Shard>, now: seq<Shard>, key: string, del: bool, nodes: map<Path, Node>) {
    && |now| == |was|
    && forall i :: 0 <= i < |was| ==>
         if Covers(was[i], key, nodes) then Confirmed(was[i], now[i], key, del) else now[i] == was[i]
  }

  /** The entries of a manifest that may be missing. */
  function EntriesOf(name: string, present: set<string>, entries: seq<Shard>): seq<Shard> {
    if name in present then entries else []
  }

  lemma {:induction false} EntryExactly(e: Shard, key: string, nodes: map<Path, Node>, del: bool)
    ensures FateOf(e, key, nodes) == Mark <==> Covers(e, key, nodes)
    ensures Raises(e, key, nodes) <==> Contradicts(e, key, nodes)
    ensures Raises(e, key, nodes) ==>
              ErrorFor(e, key, nodes) == if nodes[Location(e)].Directory? then UnreadablePath(Location(e))
                                         else ShaMismatch(Location(e))
    ensures if Covers(e, key, nodes) then Confirmed(e, MarkEntry(e, key, del, nodes), key, del)
            else MarkEntry(e, key, del, nodes) == e
    ensures ToPath(e.localPath) == Location(e)
  {
  }

  lemma {:induction false} PassExactly(was: seq<Shard>, key: string, del: bool, nodes: map<Path, Node>)
    ensures Updated(was, MarkEntries(was, key, del, nodes), key, del, nodes)
    ensures Refused(was, key, nodes) <==> exists i :: 0 <= i < |was| && Contradicts(was[i], key, nodes)
    ensures forall p :: p in DeferredPaths(was, key, del, nodes) <==>
              del && exists i :: 0 <= i < |was| && Covers(was[i], key, nodes) && Location(was[i]) == p
  {
    forall i | 0 <= i < |was|
      ensures FateOf(was[i], key, nodes) == Mark <==> Covers(was[i], key, nodes)
      ensures Raises(was[i], key, nodes) <==> Contradicts(was[i], key, nodes)
      ensures if Covers(was[i], key, nodes) then Confirmed(was[i], MarkEntry(was[i], key, del, nodes), key, del)
              else MarkEntry(was[i], key, del, nodes) == was[i]
      ensures ToPath(was[i].localPath) == Location(was[i])
    {
      EntryExactly(was[i], key, nodes, del);
    }
  }

  // ----- counting entries -----

  function Holding(entries: seq<Shard>, f: Shard -> bool): set<nat> {
    set i: nat | i < |entries| && f(entries[i])
  }

  lemma {:induction false} HoldingStep(entries: seq<Shard>, f: Shard -> bool)
    requires entries != []
    ensures var n := |entries| - 1;
            && Holding(entries, f) == Holding(entries[..n], f) + (if f(entries[n]) then {n} else {})
            && n !in Holding(entries[..n], f)
  {
    var n := |entries| - 1;
    forall i: nat | i < n ensures entries[..n][i] == entries[i] {
    }
  }

  lemma {:induction false} CountIsSize(entries: seq<Shard>, f: Shard -> bool)
    ensures CountWhere(entries, f) == |Holding(entries, f)|
    decreases |entries|
  {
    if entries != [] {
      HoldingStep(entries, f);
      CountIsSize(entries[..|entries| - 1], f);
    }
  }

  function CoveredBy(key: string, nodes: map<Path, Node>): Shard -> bool {
    (e: Shard) => Covers(e, key, nodes)
  }

  lemma {:induction false} MarkedIsSize(entries: seq<Shard>, key: string, nodes: map<Path, Node>)
    ensures CountMarked(entries, key, nodes) == |Holding(entries, CoveredBy(key, nodes))|
    decreases |entries|
  {
    if entries != [] {
      var n := |entries| - 1;
      HoldingStep(entries, CoveredBy(key, nodes));
      MarkedIsSize(entries[..n], key, nodes);
      EntryExactly(entries[n], key, nodes, true);
    }
  }

  // ----- a whole attempt -----

  /** An attempt is accepted exactly when nothing it concerns contradicts its file
      and something is covered; which of the two manifests raises. */
  lemma {:induction false} AcceptedExactly(d: Disk, key: string)
    ensures var relay := EntriesOf(RELAY, d.present, d.relay);
            Accepts(d, key) <==>
              && (forall i :: 0 <= i < |relay| ==> !Contradicts(relay[i], key, d.nodes))
              && exists i :: 0 <= i < |relay| && Covers(relay[i], key, d.nodes)
    ensures var artifact := EntriesOf(ARTIFACT, d.present, d.artifact);
            ArtifactRefused(d, key) <==> exists i :: 0 <= i < |artifact| && Contradicts(artifact[i], key, d.nodes)
  {
    var relay := EntriesOf(RELAY, d.present, d.relay);
    PassExactly(relay, key, true, d.nodes);
    PassExactly(EntriesOf(ARTIFACT, d.present, d.artifact), key, true, d.nodes);
    MarkedIsSize(relay, key, d.nodes);
    var covered := Holding(relay, CoveredBy(key, d.nodes));
    if i :| 0 <= i < |relay| && Covers(relay[i], key, d.nodes) {
      assert i in covered;
    }
    if |covered| > 0 {
      var i :| i in covered;
    }
  }

  /** The path of a covered entry of either manifest. */
  predicate IsCovered(p: Path, d: Disk, key: string) {
    var relay, artifact := EntriesOf(RELAY, d.present, d.relay), EntriesOf(ARTIFACT, d.present, d.artifact);
    || (exists i :: 0 <= i < |relay| && Covers(relay[i], key, d.nodes) && Location(relay[i]) == p)
    || (exists i :: 0 <= i < |artifact| && Covers(artifact[i], key, d.nodes) && Location(artifact[i]) == p)
  }

  /** What a completed attempt leaves on disk: both manifests updated, and in delete
      mode exactly the covered files gone. */
  lemma {:induction false} AttemptExactly(d: Disk, key: string, del: bool)
    requires Accepts(d, key) && !ArtifactRefused(d, key)
    ensures var c := AfterSpool(d, key, del);
            && Updated(EntriesOf(RELAY, d.present, d.relay), c.relay, key, del, d.nodes)
            && Updated(EntriesOf(ARTIFACT, d.present, d.artifact), c.artifact, key, del, d.nodes)
            && (forall p :: p in c.nodes <==> p in d.nodes && !(del && IsCovered(p, d, key)))
            && (forall p :: p in c.nodes ==> c.nodes[p] == d.nodes[p])
            && c.present == d.present + {RELAY, ARTIFACT, STREAM, SPOOL} && c.stream.recoveryKey == key
  {
    var relay, artifact := EntriesOf(RELAY, d.present, d.relay), EntriesOf(ARTIFACT, d.present, d.artifact);
    PassExactly(relay, key, del, d.nodes);
    PassExactly(artifact, key, del, d.nodes);
    forall p ensures p in Deferred(d, key, del) <==> del && IsCovered(p, d, key) {
    }
  }

  /** The entries that are covered or were verified, and so on. */
  function Covered(was: seq<Shard>, key: string, nodes: map<Path, Node>): set<nat> {
    set i: nat | i < |was| && Covers(was[i], key, nodes)
  }

  function CoveredOrVerified(was: seq<Shard>, key: string, nodes: map<Path, Node>): set<nat> {
    set i: nat | i < |was| && (Covers(was[i], key, nodes) || was[i].verified == Yes)
  }

  function CoveredOrUploaded(was: seq<Shard>, key: string, nodes: map<Path, Node>): set<nat> {
    set i: nat | i < |was| && (Covers(was[i], key, nodes) || was[i].uploaded == Yes)
  }

  function NeitherCoveredNorVerified(was: seq<Shard>, key: string, nodes: map<Path, Node>): set<nat> {
    set i: nat | i < |was| && !Covers(was[i], key, nodes) && was[i].verified != Yes
  }

  /** Covered entries are recorded as deleted in delete mode only. */
  function RecordedDeleted(was: seq<Shard>, key: string, del: bool, nodes: map<Path, Node>): set<nat> {
    set i: nat | i < |was| && if Covers(was[i], key, nodes) then del else was[i].localDeleted == Yes
  }

  lemma {:induction false} CountIs(now: seq<Shard>, f: Shard -> bool, which: set<nat>)
    requires forall i: nat :: i in which <==> i < |now| && f(now[i])
    ensures CountWhere(now, f) == |which|
  {
    CountIsSize(now, f);
    assert Holding(now, f) == which;
  }

  lemma {:induction false} CountsAfter(was: seq<Shard>, now: seq<Shard>, key: string, del: bool, nodes: map<Path, Node>)
    requires Updated(was, now, key, del, nodes)
    ensures CountWhere(now, IsUploaded()) == |CoveredOrUploaded(was, key, nodes)|
    ensures CountWhere(now, IsVerified()) == |CoveredOrVerified(was, key, nodes)|
    ensures CountWhere(now, IsUnverified()) == |NeitherCoveredNorVerified(was, key, nodes)|
    ensures CountWhere(now, IsDeleted()) == |RecordedDeleted(was, key, del, nodes)|
  {
    CountIs(now, IsUploaded(), CoveredOrUploaded(was, key, nodes));
    CountIs(now, IsVerified(), CoveredOrVerified(was, key, nodes));
    CountIs(now, IsUnverified(), NeitherCoveredNorVerified(was, key, nodes));
    CountIs(now, IsDeleted(), RecordedDeleted(was, key, del, nodes));
  }

  /** What the attempt reports and writes into the counter manifests, counted over
      the entries it found. */
  lemma {:induction false} ReportExactly(d: Disk, key: string, del: bool)
    requires Accepts(d, key) && !ArtifactRefused(d, key)
    ensures var was := EntriesOf(RELAY, d.present, d.relay); var r := ReportOf(d, key, del);
            && r.marked == |Covered(was, key, d.nodes)|
            && r.uploaded == |CoveredOrUploaded(was, key, d.nodes)|
            && r.verified == |CoveredOrVerified(was, key, d.nodes)|
            && r.unverified == |NeitherCoveredNorVerified(was, key, d.nodes)|
            && r.deleted == |RecordedDeleted(was, key, del, d.nodes)|
    ensures var r, c := ReportOf(d, key, del), AfterSpool(d, key, del);
            && c.stream.uploaded == r.uploaded && c.stream.verified == r.verified && c.stream.deleted == r.deleted
            && c.stream.unverified == r.unverified && c.spool == SpoolManifest(r.deleted, r.unverified)
  {
    var was := EntriesOf(RELAY, d.present, d.relay);
    AttemptExactly(d, key, del);
    CountsAfter(was, AfterSpool(d, key, del).relay, key, del, d.nodes);
    MarkedIsSize(was, key, d.nodes);
    assert Holding(was, CoveredBy(key, d.nodes)) == Covered(was, key, d.nodes);
  }

  /** The verified entries are those that were and the newly confirmed ones. */
  lemma {:induction false} VerifiedGrows(was: seq<Shard>, key: string, nodes: map<Path, Node>)
    ensures |CoveredOrVerified(was, key, nodes)|
         == |set i: nat | i < |was| && was[i].verified == Yes|
            + |set i: nat | i < |was| && Covers(was[i], key, nodes) && was[i].verified != Yes|
  {
    var before := set i: nat | i < |was| && was[i].verified == Yes;
    var added := set i: nat | i < |was| && Covers(was[i], key, nodes) && was[i].verified != Yes;
    assert before + added == CoveredOrVerified(was, key, nodes) && before !! added;
  }
}
