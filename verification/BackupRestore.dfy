/**
 Backup and restore over a file system. The copy, check and restore loops are proved against
 what they leave at each path; a verified backup restores to exactly what was backed up.
 */
module BackupRestore {
  import opened Wrappers

  /** A normalised path, as its segments; joining a root and a relative path concatenates them. */
  type Path = seq<string>
  type Bytes = seq<bv8>
  type Digest = string
  type HashFunction = Bytes -> Digest
  type Files = map<Path, Bytes>

  datatype Mode = Daily | PreMaintenance | Weekly

  datatype Entry = Entry(path: Path, relativePath: Path, hash: Digest, size: nat, backupPath: Option<Path>)

  datatype Manifest = Manifest(backupId: string, mode: Mode, files: seq<Entry>)

  /** The JSON text of a manifest, and its parser. */
  datatype Codec = Codec(encode: Manifest -> Bytes, decode: Bytes -> Option<Manifest>)
  {
    ghost predicate RoundTrips() { forall m :: decode(encode(m)) == Some(m) }
  }

  datatype Backup = Backup(backupId: string, backupPath: Path, manifestPath: Path, files: seq<Entry>)

  datatype BackupError =
    | MissingId
    | NoFiles
    | SourceMissing(path: Path)
    | SourceRefused(path: Path)
    | SourceDrift(path: Path)
    | ManifestMissing
    | ManifestUnreadable

  ghost predicate CollisionFree(hash: HashFunction) { forall a, b :: hash(a) == hash(b) ==> a == b }

  const MANIFEST_NAME: Path := ["backup-manifest.json"]

  function ModeName(mode: Mode): string {
    match mode case Daily => "daily" case PreMaintenance => "pre-maintenance" case Weekly => "weekly"
  }

  // ---------- the manifest ----------

  datatype Source = Source(path: Path, relativePath: Path)

  predicate HashedFrom(hash: HashFunction, files: Files, e: Entry) { e.path in files && e.hash == hash(files[e.path]) }

  /** The entry of a source that is there and not refused. */
  predicate IsEntryOf(hash: HashFunction, files: Files, e: Entry, s: Source) {
    && e.path == s.path && e.relativePath == s.relativePath && HashedFrom(hash, files, e)
    && e.size == |files[s.path]| && e.backupPath == None
  }

  /** The source exists, and neither its kind, its path nor its content is forbidden. */
  predicate Accepted(files: Files, refuses: (Source, Bytes) -> bool, s: Source) {
    s.path in files && !refuses(s, files[s.path])
  }

  predicate AllAccepted(files: Files, refuses: (Source, Bytes) -> bool, sources: seq<Source>) {
    forall i :: 0 <= i < |sources| ==> Accepted(files, refuses, sources[i])
  }

  /** The entries of a manifest, with the hash of each source as it is now. */
  function EntriesOf(hash: HashFunction, files: Files, refuses: (Source, Bytes) -> bool, sources: seq<Source>)
    : (r: Result<seq<Entry>, BackupError>)
    ensures r.Ok? <==> AllAccepted(files, refuses, sources)
    ensures r.Ok? ==> |r.value| == |sources|
    ensures r.Ok? ==> forall i :: 0 <= i < |sources| ==> IsEntryOf(hash, files, r.value[i], sources[i])
  {
    if sources == [] then Ok([])
    else
      var s := sources[|sources| - 1];
      match EntriesOf(hash, files, refuses, sources[..|sources| - 1])
      case Err(e) => Err(e)
      case Ok(rest) =>
        if s.path !in files then Err(SourceMissing(s.path))
        else if refuses(s, files[s.path]) then Err(SourceRefused(s.path))
        else Ok(rest + [Entry(s.path, s.relativePath, hash(files[s.path]), |files[s.path]|, None)])
  }

  /** `refuses` is what the kinds, the forbidden paths and the secret scan decide about a source. */
  function CreateBackupManifest(
    hash: HashFunction, files: Files, refuses: (Source, Bytes) -> bool, backupId: string, mode: Mode,
    sources: seq<Source>)
    : (r: Result<Manifest, BackupError>)
    ensures r.Ok? <==> backupId != "" && sources != [] && AllAccepted(files, refuses, sources)
    ensures r.Ok? ==> r.value.backupId == backupId && r.value.mode == mode && |r.value.files| == |sources|
    ensures r.Ok? ==> forall i :: 0 <= i < |sources| ==> IsEntryOf(hash, files, r.value.files[i], sources[i])
  {
    if backupId == "" then Err(MissingId)
    else if sources == [] then Err(NoFiles)
    else match EntriesOf(hash, files, refuses, sources)
      case Err(e) => Err(e)
      case Ok(entries) => Ok(Manifest(backupId, mode, entries))
  }

  // ---------- writing a backup ----------

  /** Copying the entries in order; the first missing or changed source stops it, and what was copied stays. */
  function CopyAll(hash: HashFunction, files: Files, dir: Path, entries: seq<Entry>): (Files, Option<BackupError>)
    decreases |entries|
  {
    if entries == [] then (files, None)
    else
      var e := entries[0];
      if e.path !in files then (files, Some(SourceMissing(e.path)))
      else if hash(files[e.path]) != e.hash then (files, Some(SourceDrift(e.path)))
      else CopyAll(hash, files[dir + e.relativePath := files[e.path]], dir, entries[1..])
  }

  function Locate(dir: Path, e: Entry): Entry { e.(backupPath := Some(dir + e.relativePath)) }

  function LocateAll(dir: Path, entries: seq<Entry>): seq<Entry> {
    seq(|entries|, i requires 0 <= i < |entries| => Locate(dir, entries[i]))
  }

  function BackupDir(root: Path, manifest: Manifest): Path { root + [ModeName(manifest.mode), manifest.backupId] }

  /** The files after a backup that completed: the copies, then the manifest, which is written last. */
  function BackedUp(codec: Codec, hash: HashFunction, files: Files, root: Path, manifest: Manifest): Files {
    var dir := BackupDir(root, manifest);
    var located := manifest.(files := LocateAll(dir, manifest.files));
    CopyAll(hash, files, dir, manifest.files).0[dir + MANIFEST_NAME := codec.encode(located)]
  }

  // ---------- checking a backup ----------

  datatype Failure = Missing(path: Path) | HashMismatch(path: Path, expected: Digest, actual: Digest)

  predicate Intact(hash: HashFunction, files: Files, e: Entry) {
    e.backupPath.Some? && e.backupPath.value in files && hash(files[e.backupPath.value]) == e.hash
  }

  function FailureOf(hash: HashFunction, files: Files, e: Entry): Failure {
    if e.backupPath.None? then Missing(e.relativePath)
    else if e.backupPath.value !in files then Missing(e.backupPath.value)
    else HashMismatch(e.backupPath.value, e.hash, hash(files[e.backupPath.value]))
  }

  function FailuresOf(hash: HashFunction, files: Files, entries: seq<Entry>): seq<Failure> {
    if entries == [] then []
    else if Intact(hash, files, entries[0]) then FailuresOf(hash, files, entries[1..])
    else [FailureOf(hash, files, entries[0])] + FailuresOf(hash, files, entries[1..])
  }

  predicate AllIntact(hash: HashFunction, files: Files, entries: seq<Entry>) {
    forall i :: 0 <= i < |entries| ==> Intact(hash, files, entries[i])
  }

  /** One turn of the verification: the entry at `i` moves from what is to be checked to what was found. */
  lemma FailuresStep(hash: HashFunction, files: Files, entries: seq<Entry>, i: nat, found: seq<Failure>)
    requires i < |entries| && found + FailuresOf(hash, files, entries[i..]) == FailuresOf(hash, files, entries)
    ensures
      var next := if Intact(hash, files, entries[i]) then found else found + [FailureOf(hash, files, entries[i])];
      next + FailuresOf(hash, files, entries[i + 1..]) == FailuresOf(hash, files, entries)
  {
    assert entries[i..][1..] == entries[i + 1..];
  }

  lemma {:induction false} NoFailuresIff(hash: HashFunction, files: Files, entries: seq<Entry>)
    ensures FailuresOf(hash, files, entries) == [] <==> AllIntact(hash, files, entries)
  {
    if entries != [] {
      NoFailuresIff(hash, files, entries[1..]);
      assert entries == [entries[0]] + entries[1..];
    }
  }

  datatype Integrity = Integrity(backupId: string, verified: bool, fileCount: nat, failures: seq<Failure>)

  // ---------- restoring ----------

  datatype RestoreState = Planned | Blocked

  datatype BlockReason = ActiveRuns | OverLimit | Incompatible | IntegrityFailed | PreflightBlocked

  datatype Plan = Plan(state: RestoreState, targetRoot: Path, blockedReasons: seq<BlockReason>)

  datatype RestoreError =
    | NotPlanned
    | SnapshotRequired
    | ManifestUnavailable
    | FileMissing(entry: Entry)
    | FileHashMismatch(relativePath: Path)

  const RESTORE_MAX_BYTES := 1024 * 1024 * 1024

  function TotalBytes(entries: seq<Entry>): nat {
    if entries == [] then 0 else TotalBytes(entries[..|entries| - 1]) + entries[|entries| - 1].size
  }

  function When(condition: bool, reason: BlockReason): seq<BlockReason> { if condition then [reason] else [] }

  function ReadManifest(codec: Codec, files: Files, manifestPath: Path): Option<Manifest> {
    if manifestPath in files then codec.decode(files[manifestPath]) else None
  }

  /** A plan is executable exactly when nothing blocks it; in particular the backup is intact when the plan is made. */
  function CreateRestorePlan(
    codec: Codec, hash: HashFunction, files: Files, manifestPath: Path, targetRoot: Path,
    activeRuns: nat, compatible: bool, preflightBlocked: bool): (r: Result<Plan, RestoreError>)
    ensures r.Err? <==> ReadManifest(codec, files, manifestPath).None?
    ensures r.Ok? ==>
      var entries := ReadManifest(codec, files, manifestPath).value.files;
      && r.value.targetRoot == targetRoot && (r.value.state == Planned <==> r.value.blockedReasons == [])
      && (r.value.state == Planned <==>
           activeRuns == 0 && TotalBytes(entries) <= RESTORE_MAX_BYTES && compatible && AllIntact(hash, files, entries)
             && !preflightBlocked)
  {
    match ReadManifest(codec, files, manifestPath)
    case None => Err(ManifestUnavailable)
    case Some(m) =>
      NoFailuresIff(hash, files, m.files);
      var reasons :=
        When(activeRuns > 0, ActiveRuns) + When(TotalBytes(m.files) > RESTORE_MAX_BYTES, OverLimit)
            + When(!compatible, Incompatible)
        + When(FailuresOf(hash, files, m.files) != [], IntegrityFailed) + When(preflightBlocked, PreflightBlocked);
      Ok(Plan(if reasons == [] then Planned else Blocked, targetRoot, reasons))
  }

  /** A sibling of the target: the same last segment with a suffix. */
  function TempOf(target: Path, suffix: string): Path {
    if target == [] then [suffix] else target[..|target| - 1] + [target[|target| - 1] + suffix]
  }

  /**
   Restoring the entries in order, each through a temporary file; `suffixes` are the process id and clock of each turn.
   */
  function RestoreAll(hash: HashFunction, files: Files, root: Path, entries: seq<Entry>,
      suffixes: seq<string>): (Files, Option<RestoreError>)
    requires |suffixes| == |entries|
    decreases |entries|
  {
    if entries == [] then (files, None)
    else
      var e := entries[0];
      var target := root + e.relativePath;
      if e.backupPath.None? || e.backupPath.value !in files then (files, Some(FileMissing(e)))
      else if hash(files[e.backupPath.value]) != e.hash then (files, Some(FileHashMismatch(e.relativePath)))
      else
        var content := files[e.backupPath.value];
        var temp := TempOf(target, suffixes[0]);
        RestoreAll(hash, (files[temp := content] - {temp})[target := content], root, entries[1..], suffixes[1..])
  }

  datatype RestoredFile = RestoredFile(relativePath: Path, target: Path, hash: Digest)

  function RestoredList(root: Path, entries: seq<Entry>): seq<RestoredFile> {
    seq(|entries|, i requires 0 <= i < |entries| =>
        RestoredFile(entries[i].relativePath, root + entries[i].relativePath, entries[i].hash))
  }

  predicate Healthy(hash: HashFunction, files: Files, restored: seq<RestoredFile>) {
    forall i :: 0 <= i < |restored| ==>
        restored[i].target in files && hash(files[restored[i].target]) == restored[i].hash
  }

  class Disk {
    var files: Files

    constructor (initial: Files)
      ensures files == initial
    {
      files := initial;
    }

    method WriteBackup(codec: Codec, hash: HashFunction, manifest: Manifest, root: Path)
      returns (r: Result<Backup, BackupError>)
      modifies this
      ensures manifest.backupId == "" ==> r == Err(MissingId) && files == old(files)
      ensures manifest.backupId != "" ==>
        var copied := CopyAll(hash, old(files), BackupDir(root, manifest), manifest.files);
        match copied.1
        case Some(error) => r == Err(error) && files == copied.0
        case None =>
          && files == BackedUp(codec, hash, old(files), root, manifest)
          && r == Ok(Backup(manifest.backupId, BackupDir(root, manifest), BackupDir(root, manifest) + MANIFEST_NAME,
               LocateAll(BackupDir(root, manifest), manifest.files)))
    {
      if manifest.backupId == "" { return Err(MissingId); }
      var dir := BackupDir(root, manifest);
      var copied: seq<Entry> := [];
      var i := 0;
      while i < |manifest.files|
        invariant 0 <= i <= |manifest.files|
        invariant CopyAll(hash, old(files), dir, manifest.files) == CopyAll(hash, files, dir, manifest.files[i..])
        invariant copied == LocateAll(dir, manifest.files[..i])
      {
        var file := manifest.files[i];
        assert manifest.files[i..][1..] == manifest.files[i + 1..];
        if file.path !in files { return Err(SourceMissing(file.path)); }
        var content := files[file.path];
        if hash(content) != file.hash { return Err(SourceDrift(file.path)); }
        files := files[dir + file.relativePath := content];
        copied := copied + [Locate(dir, file)];
        i := i + 1;
      }
      assert manifest.files[..i] == manifest.files;
      files := files[dir + MANIFEST_NAME := codec.encode(manifest.(files := copied))];
      return Ok(Backup(manifest.backupId, dir, dir + MANIFEST_NAME, copied));
    }

    method VerifyBackupIntegrity(codec: Codec, hash: HashFunction, manifestPath: Path)
      returns (r: Result<Integrity, BackupError>)
      ensures manifestPath !in files ==> r == Err(ManifestMissing)
      ensures manifestPath in files && codec.decode(files[manifestPath]).None? ==> r == Err(ManifestUnreadable)
      ensures r.Ok? <==> ReadManifest(codec, files, manifestPath).Some?
      ensures r.Ok? ==>
        var m := ReadManifest(codec, files, manifestPath).value;
        r.value == Integrity(m.backupId, AllIntact(hash, files, m.files), |m.files|, FailuresOf(hash, files, m.files))
    {
      if manifestPath !in files { return Err(ManifestMissing); }
      var parsed := codec.decode(files[manifestPath]);
      if parsed.None? { return Err(ManifestUnreadable); }
      var entries := parsed.value.files;
      var failures: seq<Failure> := [];
      var i := 0;
      while i < |entries|
        invariant 0 <= i <= |entries|
        invariant failures + FailuresOf(hash, files, entries[i..]) == FailuresOf(hash, files, entries)
      {
        var file := entries[i];
        FailuresStep(hash, files, entries, i, failures);
        ghost var found := failures;
        if file.backupPath.None? || file.backupPath.value !in files {
          failures := failures + [Missing(file.backupPath.GetOr(file.relativePath))];
        } else {
          var actual := hash(files[file.backupPath.value]);
          if actual != file.hash { failures := failures + [HashMismatch(file.backupPath.value, file.hash, actual)]; }
        }
        assert failures == if Intact(hash, files, file) then found else found + [FailureOf(hash, files, file)];
        i := i + 1;
      }
      NoFailuresIff(hash, files, entries);
      return Ok(Integrity(parsed.value.backupId, failures == [], |entries|, failures));
    }

    method ExecuteRestorePlan(
      codec: Codec, hash: HashFunction, plan: Plan, manifestPath: Path, snapshotTaken: bool, suffixes: seq<string>)
      returns (r: Result<seq<RestoredFile>, RestoreError>)
      requires forall m :: ReadManifest(codec, files, manifestPath) == Some(m) ==> |suffixes| == |m.files|
      modifies this
      ensures plan.state != Planned ==> r == Err(NotPlanned) && files == old(files)
      ensures plan.state == Planned && !snapshotTaken ==> r == Err(SnapshotRequired) && files == old(files)
      ensures plan.state == Planned && snapshotTaken ==>
        match ReadManifest(codec, old(files), manifestPath)
        case None => r == Err(ManifestUnavailable) && files == old(files)
        case Some(m) =>
          var restored := RestoreAll(hash, old(files), plan.targetRoot, m.files, suffixes);
          && files == restored.0
          && r == match restored.1 case Some(error) => Err(error)
              case None => Ok(RestoredList(plan.targetRoot, m.files))
    {
      if plan.state != Planned { return Err(NotPlanned); }
      if !snapshotTaken { return Err(SnapshotRequired); }
      var parsed := ReadManifest(codec, files, manifestPath);
      if parsed.None? { return Err(ManifestUnavailable); }
      var entries := parsed.value.files;
      var restored: seq<RestoredFile> := [];
      var i := 0;
      while i < |entries|
        invariant 0 <= i <= |entries|
        invariant RestoreAll(hash, old(files), plan.targetRoot, entries, suffixes) ==
          RestoreAll(hash, files, plan.targetRoot, entries[i..], suffixes[i..])
        invariant restored == RestoredList(plan.targetRoot, entries[..i])
      {
        var file := entries[i];
        assert entries[i..][1..] == entries[i + 1..] && suffixes[i..][1..] == suffixes[i + 1..];
        if file.backupPath.None? || file.backupPath.value !in files { return Err(FileMissing(file)); }
        var content := files[file.backupPath.value];
        if hash(content) != file.hash { return Err(FileHashMismatch(file.relativePath)); }
        var target := plan.targetRoot + file.relativePath;
        var temp := TempOf(target, suffixes[i]);
        files := files[temp := content];
        files := (files - {temp})[target := content];
        restored := restored + [RestoredFile(file.relativePath, target, hash(content))];
        i := i + 1;
      }
      assert entries[..i] == entries;
      return Ok(restored);
    }

    method VerifyRestoredHealth(hash: HashFunction, restored: seq<RestoredFile>, preflightBlocked: bool)
      returns (healthy: bool)
      ensures healthy <==> Healthy(hash, files, restored) && !preflightBlocked
    {
      var failures := 0;
      var i := 0;
      while i < |restored|
        invariant 0 <= i <= |restored| && failures >= 0
        invariant failures == 0 <==> Healthy(hash, files, restored[..i])
      {
        var file := restored[i];
        assert restored[..i + 1] == restored[..i] + [file];
        if file.target !in files || hash(files[file.target]) != file.hash { failures := failures + 1; }
        i := i + 1;
      }
      assert restored[..i] == restored;
      return failures == 0 && !preflightBlocked;
    }
  }

  // ---------- what a written backup holds ----------

  /** No later entry is copied to the same place. */
  predicate IsLast(entries: seq<Entry>, i: nat)
    requires i < |entries|
  {
    forall k :: i < k < |entries| ==> entries[k].relativePath != entries[i].relativePath
  }

  lemma {:induction false} LastOf(entries: seq<Entry>, i: nat) returns (j: nat)
    requires i < |entries|
    ensures i <= j < |entries| && entries[j].relativePath == entries[i].relativePath && IsLast(entries, j)
    decreases |entries| - i
  {
    if IsLast(entries, i) { return i; }
    var k :| i < k < |entries| && entries[k].relativePath == entries[i].relativePath;
    j := LastOf(entries, k);
  }

  /** Every destination holds the content whose hash the last entry for it recorded; nothing else changes. */
  lemma {:induction false} CopyLeaves(hash: HashFunction, files: Files, dir: Path, entries: seq<Entry>)
    requires CopyAll(hash, files, dir, entries).1.None?
    ensures var after := CopyAll(hash, files, dir, entries).0;
      && (forall p: Path :: (forall i :: 0 <= i < |entries| ==> p != dir + entries[i].relativePath) ==>
           Get(after, p) == Get(files, p))
      && (forall i :: 0 <= i < |entries| && IsLast(entries, i) ==>
           dir + entries[i].relativePath in after && hash(after[dir + entries[i].relativePath]) == entries[i].hash)
    decreases |entries|
  {
    if entries != [] {
      var rest, e := entries[1..], entries[0];
      var next := files[dir + e.relativePath := files[e.path]];
      CopyLeaves(hash, next, dir, rest);
      var after := CopyAll(hash, files, dir, entries).0;
      forall p: Path | forall i :: 0 <= i < |entries| ==> p != dir + entries[i].relativePath
        ensures Get(after, p) == Get(files, p)
      {
        assert forall i :: 0 <= i < |rest| ==> rest[i] == entries[i + 1];
        assert p != dir + entries[0].relativePath;
      }
      forall i | 0 <= i < |entries| && IsLast(entries, i)
        ensures dir + entries[i].relativePath in after && hash(after[dir + entries[i].relativePath]) == entries[i].hash
      {
        if i > 0 {
          assert rest[i - 1] == entries[i] && IsLast(rest, i - 1);
        } else {
          forall k | 0 <= k < |rest| ensures dir + e.relativePath != dir + rest[k].relativePath {
            assert rest[k] == entries[k + 1];
            JoinInjective(dir, e.relativePath, rest[k].relativePath);
          }
          assert Get(after, dir + e.relativePath) == Get(next, dir + e.relativePath);
        }
      }
    }
  }

  lemma JoinInjective(dir: Path, a: Path, b: Path)
    ensures dir + a == dir + b <==> a == b
  {
    assert (dir + a)[|dir|..] == a && (dir + b)[|dir|..] == b;
  }

  /** Entries for the same place carry the same hash. */
  predicate Consistent(entries: seq<Entry>) {
    forall i, j :: 0 <= i < |entries| && 0 <= j < |entries| && entries[i].relativePath == entries[j].relativePath ==>
        entries[i].hash == entries[j].hash
  }

  /** What a backup leaves at the place of an entry: the manifest, or the last copy made there. */
  lemma WriteLeaves(codec: Codec, hash: HashFunction, files: Files, root: Path, manifest: Manifest, i: nat)
    requires CopyAll(hash, files, BackupDir(root, manifest), manifest.files).1.None? && i < |manifest.files|
    ensures
      var dir, after := BackupDir(root, manifest), BackedUp(codec, hash, files, root, manifest);
      var e := manifest.files[i];
      && dir + e.relativePath in after
      && (e.relativePath == MANIFEST_NAME
          || exists j :: 0 <= j < |manifest.files| && manifest.files[j].relativePath == e.relativePath
               && manifest.files[j].hash == hash(after[dir + e.relativePath]))
  {
    var dir, entries := BackupDir(root, manifest), manifest.files;
    CopyLeaves(hash, files, dir, entries);
    var j := LastOf(entries, i);
    JoinInjective(dir, entries[i].relativePath, MANIFEST_NAME);
  }

  /**
   A backup that was just written verifies exactly when colliding entries carry the same hash and
   no entry is overwritten by the manifest, which goes to `backup-manifest.json` after the copies.
   */
  lemma WriteThenVerify(codec: Codec, hash: HashFunction, files: Files, root: Path, manifest: Manifest)
    requires codec.RoundTrips() && CopyAll(hash, files, BackupDir(root, manifest), manifest.files).1.None?
    ensures var dir, after := BackupDir(root, manifest), BackedUp(codec, hash, files, root, manifest);
      && ReadManifest(codec, after, dir + MANIFEST_NAME) == Some(manifest.(files := LocateAll(dir, manifest.files)))
      && (AllIntact(hash, after, LocateAll(dir, manifest.files)) <==>
           Consistent(manifest.files)
           && forall i :: 0 <= i < |manifest.files| && manifest.files[i].relativePath == MANIFEST_NAME ==>
                manifest.files[i].hash == hash(after[dir + MANIFEST_NAME]))
  {
    var dir, after, entries := BackupDir(root, manifest), BackedUp(codec, hash, files, root, manifest), manifest.files;
    forall i | 0 <= i < |entries|
      ensures dir + entries[i].relativePath in after
      ensures entries[i].relativePath == MANIFEST_NAME
        || exists j :: 0 <= j < |entries| && entries[j].relativePath == entries[i].relativePath
             && entries[j].hash == hash(after[dir + entries[i].relativePath])
    {
      WriteLeaves(codec, hash, files, root, manifest, i);
    }
    IntactIffConsistent(hash, after, dir, entries);
  }

  lemma IntactIffConsistent(hash: HashFunction, after: Files, dir: Path, entries: seq<Entry>)
    requires dir + MANIFEST_NAME in after
    requires forall i :: 0 <= i < |entries| ==> dir + entries[i].relativePath in after
    requires forall i :: 0 <= i < |entries| ==>
      entries[i].relativePath == MANIFEST_NAME
      || exists j :: 0 <= j < |entries| && entries[j].relativePath == entries[i].relativePath
           && entries[j].hash == hash(after[dir + entries[i].relativePath])
    ensures AllIntact(hash, after, LocateAll(dir, entries)) <==>
      Consistent(entries)
      && forall i :: 0 <= i < |entries| && entries[i].relativePath == MANIFEST_NAME ==>
           entries[i].hash == hash(after[dir + MANIFEST_NAME])
  {
    var located := LocateAll(dir, entries);
    forall i | 0 <= i < |entries|
      ensures Intact(hash, after, located[i]) <==> hash(after[dir + entries[i].relativePath]) == entries[i].hash {}
    if AllIntact(hash, after, located) {
      forall i, j | 0 <= i < |entries| && 0 <= j < |entries| && entries[i].relativePath == entries[j].relativePath
        ensures entries[i].hash == entries[j].hash
      {
        assert Intact(hash, after, located[i]) && Intact(hash, after, located[j]);
      }
    }
  }

  // ---------- what a restore leaves ----------

  /** Targets are apart from the backup, and temporary names are in use neither as files nor as targets. */
  predicate Clear(files: Files, root: Path, dir: Path, entries: seq<Entry>, suffixes: seq<string>)
    requires |suffixes| == |entries|
  {
    && (forall i, j :: 0 <= i < |entries| && 0 <= j < |entries| ==>
         root + entries[i].relativePath != dir + entries[j].relativePath)
    && (forall i :: 0 <= i < |entries| ==> TempOf(root + entries[i].relativePath, suffixes[i]) !in files)
    && (forall i, j :: 0 <= i < |entries| && 0 <= j < |entries| ==>
         TempOf(root + entries[i].relativePath, suffixes[i]) != root + entries[j].relativePath)
  }

  predicate IsTarget(root: Path, entries: seq<Entry>, p: Path) {
    exists i :: 0 <= i < |entries| && p == root + entries[i].relativePath
  }

  predicate LocatedIn(dir: Path, entries: seq<Entry>) {
    forall i :: 0 <= i < |entries| ==> entries[i].backupPath == Some(dir + entries[i].relativePath)
  }

  lemma ClearAfter(files: Files, next: Files, root: Path, dir: Path, entries: seq<Entry>, suffixes: seq<string>)
    requires |suffixes| == |entries| > 0 && LocatedIn(dir, entries) && Clear(files, root, dir, entries, suffixes)
    requires forall p: Path :: p != root + entries[0].relativePath ==> Get(next, p) == Get(files, p)
    ensures LocatedIn(dir, entries[1..]) && Clear(next, root, dir, entries[1..], suffixes[1..])
  {
    var rest := entries[1..];
    assert forall i :: 0 <= i < |rest| ==> rest[i] == entries[i + 1] && suffixes[1..][i] == suffixes[i + 1];
    forall i | 0 <= i < |rest| ensures TempOf(root + rest[i].relativePath, suffixes[1..][i]) !in next {
      var temp := TempOf(root + entries[i + 1].relativePath, suffixes[i + 1]);
      assert Get(next, temp) == Get(files, temp);
    }
  }

  /** Restoring the first entry leaves the copies of all entries as they were. */
  lemma IntactAfter(hash: HashFunction, files: Files, next: Files, root: Path, dir: Path, entries: seq<Entry>)
    requires entries != [] && LocatedIn(dir, entries) && Intact(hash, files, entries[0])
    requires forall p: Path :: p != root + entries[0].relativePath ==> Get(next, p) == Get(files, p)
    requires forall i :: 0 <= i < |entries| ==> root + entries[0].relativePath != dir + entries[i].relativePath
    ensures AllIntact(hash, files, entries) <==> AllIntact(hash, next, entries[1..])
  {
    var rest := entries[1..];
    forall i | 0 <= i < |rest| ensures Intact(hash, next, rest[i]) <==> Intact(hash, files, entries[i + 1]) {
      assert rest[i] == entries[i + 1];
      assert Get(next, dir + entries[i + 1].relativePath) == Get(files, dir + entries[i + 1].relativePath);
    }
    if AllIntact(hash, next, rest) {
      forall i | 0 < i < |entries| ensures Intact(hash, files, entries[i]) { assert Intact(hash, next, rest[i - 1]); }
    }
  }

  /**
   With the targets apart from the backup, a restore succeeds exactly when the backup verifies; then
   every target holds its backup copy, and every other file, temporary ones included, is as before.
   */
  lemma {:induction false} RestoreIffIntact(hash: HashFunction, files: Files, root: Path, dir: Path,
      entries: seq<Entry>, suffixes: seq<string>)
    requires |suffixes| == |entries| && LocatedIn(dir, entries) && Clear(files, root, dir, entries, suffixes)
    ensures RestoreAll(hash, files, root, entries, suffixes).1.None? <==> AllIntact(hash, files, entries)
    ensures AllIntact(hash, files, entries) ==>
      var after := RestoreAll(hash, files, root, entries, suffixes).0;
      && (forall p: Path :: !IsTarget(root, entries, p) ==> Get(after, p) == Get(files, p))
      && forall i :: 0 <= i < |entries| ==>
           Get(after, root + entries[i].relativePath) == Get(files, dir + entries[i].relativePath)
    decreases |entries|
  {
    if entries != [] && Intact(hash, files, entries[0]) {
      var e, rest := entries[0], entries[1..];
      var target, temp, content := root + e.relativePath, TempOf(root + e.relativePath, suffixes[0]),
          files[dir + e.relativePath];
      var next := (files[temp := content] - {temp})[target := content];
      assert forall p: Path :: p != target ==> Get(next, p) == Get(files, p);
      ClearAfter(files, next, root, dir, entries, suffixes);
      RestoreIffIntact(hash, next, root, dir, rest, suffixes[1..]);
      IntactAfter(hash, files, next, root, dir, entries);
      if AllIntact(hash, files, entries) {
        RestoredFirst(root, dir, entries, files, next, RestoreAll(hash, files, root, entries, suffixes).0);
      }
    }
  }

  /** What the rest of a restore leaves, together with its first turn, is what the whole restore leaves. */
  lemma RestoredFirst(root: Path, dir: Path, entries: seq<Entry>, files: Files, next: Files, after: Files)
    requires entries != [] && root + entries[0].relativePath in next
    requires Get(next, root + entries[0].relativePath) == Get(files, dir + entries[0].relativePath)
    requires forall p: Path :: p != root + entries[0].relativePath ==> Get(next, p) == Get(files, p)
    requires forall p: Path :: !IsTarget(root, entries[1..], p) ==> Get(after, p) == Get(next, p)
    requires forall i :: 0 <= i < |entries[1..]| ==>
      Get(after, root + entries[1..][i].relativePath) == Get(next, dir + entries[1..][i].relativePath)
    requires forall i :: 0 <= i < |entries| ==> root + entries[0].relativePath != dir + entries[i].relativePath
    ensures forall p: Path :: !IsTarget(root, entries, p) ==> Get(after, p) == Get(files, p)
    ensures forall i :: 0 <= i < |entries| ==>
      Get(after, root + entries[i].relativePath) == Get(files, dir + entries[i].relativePath)
  {
    var rest := entries[1..];
    forall p: Path | !IsTarget(root, entries, p) ensures Get(after, p) == Get(files, p) {
      assert p != root + entries[0].relativePath;
      assert !IsTarget(root, rest, p) by { assert forall i :: 0 <= i < |rest| ==> rest[i] == entries[i + 1]; }
    }
    forall i | 0 <= i < |entries|
      ensures Get(after, root + entries[i].relativePath) == Get(files, dir + entries[i].relativePath)
    {
      if i > 0 {
        assert rest[i - 1] == entries[i];
      } else if IsTarget(root, rest, root + entries[0].relativePath) {
        var k :| 0 <= k < |rest| && root + entries[0].relativePath == root + rest[k].relativePath;
        JoinInjective(root, entries[0].relativePath, rest[k].relativePath);
        assert rest[k] == entries[k + 1];
      }
    }
  }

  lemma LocatedClear(files: Files, root: Path, dir: Path, entries: seq<Entry>, suffixes: seq<string>)
    requires |suffixes| == |entries| && Clear(files, root, dir, entries, suffixes)
    ensures LocatedIn(dir, LocateAll(dir, entries)) && Clear(files, root, dir, LocateAll(dir, entries), suffixes)
  {
    assert forall i :: 0 <= i < |entries| ==> LocateAll(dir, entries)[i].relativePath == entries[i].relativePath;
  }

  /** The manifest and the copies are still what was written. */
  predicate Unmodified(written: Files, now: Files, dir: Path, entries: seq<Entry>) {
    && Get(now, dir + MANIFEST_NAME) == Get(written, dir + MANIFEST_NAME)
    && forall i :: 0 <= i < |entries| ==>
         Get(now, dir + entries[i].relativePath) == Get(written, dir + entries[i].relativePath)
  }

  lemma UnmodifiedIsIntact(hash: HashFunction, written: Files, now: Files, dir: Path, entries: seq<Entry>)
    requires Unmodified(written, now, dir, entries)
    ensures AllIntact(hash, written, LocateAll(dir, entries)) <==> AllIntact(hash, now, LocateAll(dir, entries))
  {
    var located := LocateAll(dir, entries);
    forall i | 0 <= i < |located| ensures Intact(hash, now, located[i]) <==> Intact(hash, written, located[i]) {
      assert Get(now, dir + entries[i].relativePath) == Get(written, dir + entries[i].relativePath);
    }
  }

  /** Every target equals the source its entry was made from, by hash; every other file is as before. */
  ghost predicate IsIdentity(hash: HashFunction, made: Files, now: Files, after: Files, root: Path,
      entries: seq<Entry>) {
    && (forall i :: 0 <= i < |entries| ==>
         && HashedFrom(hash, made, entries[i])
         && root + entries[i].relativePath in after
         && hash(after[root + entries[i].relativePath]) == hash(made[entries[i].path])
         && (CollisionFree(hash) ==> after[root + entries[i].relativePath] == made[entries[i].path]))
    && (forall p: Path :: !IsTarget(root, entries, p) ==> Get(after, p) == Get(now, p))
  }

  lemma RestoredIsIdentity(
    hash: HashFunction, made: Files, now: Files, after: Files, root: Path, dir: Path, entries: seq<Entry>)
    requires forall i :: 0 <= i < |entries| ==> HashedFrom(hash, made, entries[i])
    requires AllIntact(hash, now, LocateAll(dir, entries))
    requires forall p: Path :: !IsTarget(root, LocateAll(dir, entries), p) ==> Get(after, p) == Get(now, p)
    requires forall i :: 0 <= i < |entries| ==>
      Get(after, root + LocateAll(dir, entries)[i].relativePath) ==
          Get(now, dir + LocateAll(dir, entries)[i].relativePath)
    ensures IsIdentity(hash, made, now, after, root, entries)
    ensures Healthy(hash, after, RestoredList(root, LocateAll(dir, entries)))
  {
    var located := LocateAll(dir, entries);
    forall i | 0 <= i < |entries|
      ensures Get(after, root + entries[i].relativePath).Some?
        && hash(Get(after, root + entries[i].relativePath).value) == entries[i].hash == hash(made[entries[i].path])
    {
      assert Intact(hash, now, located[i]);
    }
    forall p: Path | !IsTarget(root, entries, p) ensures Get(after, p) == Get(now, p) {
      assert forall i :: 0 <= i < |located| ==> located[i].relativePath == entries[i].relativePath;
      assert !IsTarget(root, located, p);
    }
  }

  /**
   Backup then restore is the identity. The manifest hashes the sources in `made`; the backup is written
   over `before`; the plan finds it verified; and the plan is executed on `now`, where the manifest and the copies
   are still what was written. Then the restore succeeds, every target has the hash its source had when the
   manifest was made, and every other file is untouched. Nothing is assumed about colliding relative paths:
   a verified backup excludes differing contents.
   */
  lemma BackupThenRestore(
    codec: Codec, hash: HashFunction, made: Files, before: Files, written: Files, now: Files,
    manifest: Manifest, backupRoot: Path, dir: Path, located: seq<Entry>,
    plan: Plan, activeRuns: nat, compatible: bool, preflightBlocked: bool, suffixes: seq<string>)
    requires codec.RoundTrips() && |suffixes| == |manifest.files|
    requires dir == BackupDir(backupRoot, manifest) && located == LocateAll(dir, manifest.files)
    requires forall i :: 0 <= i < |manifest.files| ==> HashedFrom(hash, made, manifest.files[i])
    requires CopyAll(hash, before, dir, manifest.files).1.None?
    requires written == BackedUp(codec, hash, before, backupRoot, manifest)
    requires CreateRestorePlan(codec, hash, written, dir + MANIFEST_NAME, plan.targetRoot, activeRuns, compatible,
      preflightBlocked) == Ok(plan)
    requires plan.state == Planned
    requires Unmodified(written, now, dir, manifest.files)
    requires Clear(now, plan.targetRoot, dir, manifest.files, suffixes)
    ensures ReadManifest(codec, now, dir + MANIFEST_NAME) == Some(manifest.(files := located))
    ensures RestoreAll(hash, now, plan.targetRoot, located, suffixes).1 == None
    ensures IsIdentity(hash, made, now, RestoreAll(hash, now, plan.targetRoot, located, suffixes).0, plan.targetRoot,
      manifest.files)
    ensures Healthy(hash, RestoreAll(hash, now, plan.targetRoot, located, suffixes).0,
      RestoredList(plan.targetRoot, located))
  {
    WriteThenVerify(codec, hash, before, backupRoot, manifest);
    assert AllIntact(hash, written, located);
    UnmodifiedIsIntact(hash, written, now, dir, manifest.files);
    LocatedClear(now, plan.targetRoot, dir, manifest.files, suffixes);
    RestoreIffIntact(hash, now, plan.targetRoot, dir, located, suffixes);
    RestoredIsIdentity(hash, made, now, RestoreAll(hash, now, plan.targetRoot, located, suffixes).0, plan.targetRoot,
        dir, manifest.files);
  }

  /**
   A source backed up under the manifest's own name is overwritten by it after its copy, so the fresh backup verifies
   only if the source happened to be that very manifest.
   */
  lemma ManifestNameIsClobbered(
    codec: Codec, hash: HashFunction, refuses: (Source, Bytes) -> bool, content: Bytes, source: Path, backupRoot: Path)
    returns (manifest: Manifest, files: Files)
    requires codec.RoundTrips() && CollisionFree(hash) && !refuses(Source(source, MANIFEST_NAME), content)
    ensures CreateBackupManifest(hash, files, refuses, "b", Daily, [Source(source, MANIFEST_NAME)]) == Ok(manifest)
    ensures CopyAll(hash, files, BackupDir(backupRoot, manifest), manifest.files).1.None?
    ensures
      var located := LocateAll(BackupDir(backupRoot, manifest), manifest.files);
      AllIntact(hash, BackedUp(codec, hash, files, backupRoot, manifest), located) <==>
        content == codec.encode(manifest.(files := located))
  {
    files := map[source := content];
    var sources := [Source(source, MANIFEST_NAME)];
    assert AllAccepted(files, refuses, sources);
    manifest := CreateBackupManifest(hash, files, refuses, "b", Daily, sources).value;
    assert manifest.files == [manifest.files[0]];
    WriteThenVerify(codec, hash, files, backupRoot, manifest);
  }
}
