/** The state and the pure steps of the R2 chunk recovery protocol
    (scripts/recover_r2_streaming_run.py).

    A run directory is seen as two chunk manifests, two counter manifests and the
    local files. One manifest write and one file removal are the atomic steps. */
module Recovery {
  import opened Common

  type Path = string

  /** A chunk entry of a manifest. An empty `objectKey` or `sha256` stands for a
      missing, null or empty field: the source tests all three for truthiness. */
  datatype Shard = Shard(
    localPath: string, objectKey: string, sha256: string,
    uploaded: Flag, verified: Flag, localDeleted: Flag, error: Option<string>)

  /** A directory cannot be hashed; a file is known by the digest of its bytes. */
  datatype Node = File(digest: string) | Directory

  datatype StreamManifest = StreamManifest(
    ok: bool, uploaded: nat, verified: nat, deleted: nat, unverified: nat,
    blockers: seq<string>, recoveryKey: string)

  datatype SpoolManifest = SpoolManifest(deleted: nat, retained: nat)

  datatype Disk = Disk(
    relay: seq<Shard>, artifact: seq<Shard>, stream: StreamManifest, spool: SpoolManifest,
    present: set<string>, nodes: map<Path, Node>)

  const RELAY := "relay_frame_manifest.json"
  const ARTIFACT := "artifact_stream_manifest.json"
  const STREAM := "r2_streaming_upload_manifest.json"
  const SPOOL := "local_spool_manifest.json"
  const UNVERIFIED_SHARD := "R2_STREAMING_BLOCK_UNVERIFIED_RELAY_SHARD"

  datatype RecoveryError = ShaMismatch(path: Path) | UnreadablePath(path: Path) | NothingMatched

  datatype Report = Report(marked: nat, uploaded: nat, verified: nat, deleted: nat, unverified: nat)

  /** `pathlib.Path("")` is the working directory. */
  function ToPath(text: string): Path {
    if text == "" then "." else text
  }

  function RelayEntries(d: Disk): seq<Shard> {
    if RELAY in d.present then d.relay else []
  }

  function ArtifactEntries(d: Disk): seq<Shard> {
    if ARTIFACT in d.present then d.artifact else []
  }

  // ----- one entry, one pass -----

  datatype Fate = Skip | Mark | Mismatch | Unreadable

  predicate Settled(shard: Shard) {
    shard.verified == Yes && shard.localDeleted == Yes
  }

  /** What the marking loop does with one entry. */
  function FateOf(shard: Shard, key: string, nodes: map<Path, Node>): Fate {
    var path := ToPath(shard.localPath);
    if shard.objectKey != "" && shard.objectKey != key then Skip
    else if Settled(shard) then Skip
    else if path !in nodes then Skip
    else match nodes[path]
      case Directory => Unreadable
      case File(digest) => if shard.sha256 != "" && shard.sha256 != digest then Mismatch else Mark
  }

  function Marked(shard: Shard, key: string, del: bool): Shard {
    shard.(objectKey := key, uploaded := Yes, verified := Yes, error := None,
           localDeleted := if del then Yes else No)
  }

  function MarkEntry(shard: Shard, key: string, del: bool, nodes: map<Path, Node>): Shard {
    if FateOf(shard, key, nodes) == Mark then Marked(shard, key, del) else shard
  }

  function MarkEntries(entries: seq<Shard>, key: string, del: bool, nodes: map<Path, Node>): (r: seq<Shard>)
    ensures |r| == |entries|
    ensures forall i :: 0 <= i < |entries| ==> r[i] == MarkEntry(entries[i], key, del, nodes)
  {
    seq(|entries|, i requires 0 <= i < |entries| => MarkEntry(entries[i], key, del, nodes))
  }

  predicate Raises(shard: Shard, key: string, nodes: map<Path, Node>) {
    FateOf(shard, key, nodes).Mismatch? || FateOf(shard, key, nodes).Unreadable?
  }

  function ErrorFor(shard: Shard, key: string, nodes: map<Path, Node>): RecoveryError {
    if FateOf(shard, key, nodes).Mismatch? then ShaMismatch(ToPath(shard.localPath))
    else UnreadablePath(ToPath(shard.localPath))
  }

  predicate Refused(entries: seq<Shard>, key: string, nodes: map<Path, Node>) {
    exists i :: 0 <= i < |entries| && Raises(entries[i], key, nodes)
  }

  function Unit(b: bool): nat {
    if b then 1 else 0
  }

  function CountMarked(entries: seq<Shard>, key: string, nodes: map<Path, Node>): nat {
    if entries == [] then 0
    else CountMarked(entries[..|entries| - 1], key, nodes) + Unit(FateOf(entries[|entries| - 1], key, nodes) == Mark)
  }

  /** The paths a pass in delete mode adds to the deferred set. */
  function DeferredPaths(entries: seq<Shard>, key: string, del: bool, nodes: map<Path, Node>): set<Path> {
    if del
    then set i | 0 <= i < |entries| && FateOf(entries[i], key, nodes) == Mark :: ToPath(entries[i].localPath)
    else {}
  }

  // ----- the disk after each step -----

  /** The relay pass ends without an exception and marks something. */
  predicate Accepts(d: Disk, key: string) {
    !Refused(RelayEntries(d), key, d.nodes) && CountMarked(RelayEntries(d), key, d.nodes) > 0
  }

  function AfterRelay(d: Disk, key: string, del: bool): Disk {
    d.(relay := MarkEntries(RelayEntries(d), key, del, d.nodes), present := d.present + {RELAY})
  }

  predicate ArtifactRefused(d: Disk, key: string) {
    Refused(ArtifactEntries(d), key, d.nodes)
  }

  function AfterArtifact(d: Disk, key: string, del: bool): Disk {
    var r := AfterRelay(d, key, del);
    r.(artifact := MarkEntries(ArtifactEntries(d), key, del, d.nodes), present := r.present + {ARTIFACT})
  }

  function Deferred(d: Disk, key: string, del: bool): set<Path> {
    DeferredPaths(RelayEntries(d), key, del, d.nodes) + DeferredPaths(ArtifactEntries(d), key, del, d.nodes)
  }

  function AfterUnlinks(d: Disk, key: string, del: bool, gone: set<Path>): Disk {
    AfterArtifact(d, key, del).(nodes := d.nodes - gone)
  }

  function CountWhere(entries: seq<Shard>, f: Shard -> bool): nat {
    if entries == [] then 0
    else CountWhere(entries[..|entries| - 1], f) + Unit(f(entries[|entries| - 1]))
  }

  function IsUploaded(): Shard -> bool { (s: Shard) => s.uploaded == Yes }
  function IsVerified(): Shard -> bool { (s: Shard) => s.verified == Yes }
  function IsDeleted(): Shard -> bool { (s: Shard) => s.localDeleted == Yes }
  function IsUnverified(): Shard -> bool { (s: Shard) => s.verified != Yes }

  function WithoutBlocker(blockers: seq<string>, code: string): seq<string> {
    if blockers == [] then []
    else
      var last := blockers[|blockers| - 1];
      WithoutBlocker(blockers[..|blockers| - 1], code) + (if last != code then [last] else [])
  }

  function NextBlockers(kept: seq<string>, unverified: nat): seq<string> {
    WithoutBlocker(kept, UNVERIFIED_SHARD) + (if unverified > 0 then [UNVERIFIED_SHARD] else [])
  }

  function StreamBlockers(d: Disk): seq<string> {
    if STREAM in d.present then d.stream.blockers else []
  }

  function NextStream(d: Disk, key: string): StreamManifest {
    var unverified := CountWhere(d.relay, IsUnverified());
    var blockers := NextBlockers(StreamBlockers(d), unverified);
    StreamManifest(unverified == 0 && blockers == [], CountWhere(d.relay, IsUploaded()),
                   CountWhere(d.relay, IsVerified()), CountWhere(d.relay, IsDeleted()), unverified, blockers, key)
  }

  function WithStream(d: Disk, key: string): Disk {
    d.(stream := NextStream(d, key), present := d.present + {STREAM})
  }

  function CountersWritten(d: Disk, key: string): Disk {
    var s := WithStream(d, key);
    s.(spool := SpoolManifest(s.stream.deleted, s.stream.unverified), present := s.present + {SPOOL})
  }

  function AfterStream(d: Disk, key: string, del: bool): Disk {
    WithStream(AfterUnlinks(d, key, del, Deferred(d, key, del)), key)
  }

  function AfterSpool(d: Disk, key: string, del: bool): Disk {
    CountersWritten(AfterUnlinks(d, key, del, Deferred(d, key, del)), key)
  }

  function ReportOf(d: Disk, key: string, del: bool): Report {
    var s := AfterStream(d, key, del).stream;
    Report(CountMarked(RelayEntries(d), key, d.nodes), s.uploaded, s.verified, s.deleted, s.unverified)
  }

  /** Every disk state in which one attempt with `key` can be interrupted, by a
      crash or by an exception, or can end. */
  ghost predicate CrashPoint(d: Disk, key: string, del: bool, c: Disk) {
    c == d ||
    (Accepts(d, key) &&
     (c == AfterRelay(d, key, del) ||
      (!ArtifactRefused(d, key) &&
       ((exists gone: set<Path> :: gone <= Deferred(d, key, del) && c == AfterUnlinks(d, key, del, gone)) ||
        c == AfterStream(d, key, del) ||
        c == AfterSpool(d, key, del)))))
  }

  function Listed(order: seq<Path>): set<Path> {
    set p | p in order
  }

  /** The disk states left by removing the files of `order`, one at a time. */
  function RemovalTrace(d: Disk, order: seq<Path>): (r: seq<Disk>)
    ensures |r| == |order|
    ensures forall i :: 0 <= i < |r| ==> r[i] == d.(nodes := d.nodes - Listed(order[..i + 1]))
  {
    seq(|order|, i requires 0 <= i < |order| => d.(nodes := d.nodes - Listed(order[..i + 1])))
  }

  predicate Distinct(order: seq<Path>) {
    forall i, j :: 0 <= i < j < |order| ==> order[i] != order[j]
  }

  /** `h` is the list of disk states a successful attempt writes, in order: both
      manifests first, then every deferred file once, then the counters. */
  ghost predicate WriteAheadOrder(d: Disk, key: string, del: bool, h: seq<Disk>) {
    exists order: seq<Path> ::
      && Distinct(order)
      && Listed(order) == Deferred(d, key, del)
      && h == AttemptTrace(d, key, del, order)
  }

  function AttemptTrace(d: Disk, key: string, del: bool, order: seq<Path>): seq<Disk> {
    [AfterRelay(d, key, del), AfterArtifact(d, key, del)]
    + RemovalTrace(AfterArtifact(d, key, del), order)
    + [AfterStream(d, key, del), AfterSpool(d, key, del)]
  }
}
