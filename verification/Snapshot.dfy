/** Import snapshots: what the importer writes, and what its own checker accepts. */
module Snapshot {
  import opened Common
  import opened DecimalText
  import opened HexDigests
  import opened PosixPath
  import opened Utf8
  import opened Submission

  // A decoded JSON object, as a dictionary.
  datatype Value =
    | Text(text: string)
    | Dict(entries: map<string, Value>)
    | List(items: seq<Value>)
    | Other(printed: string, truthy: bool)

  // What counts as true: anything but an empty text, dictionary or list, null, false or zero.
  predicate Truthy(v: Value) {
    match v
    case Text(text) => text != ""
    case Dict(entries) => entries != map[]
    case List(items) => items != []
    case Other(_, truthy) => truthy
  }

  type Record = map<string, Value>

  // Library calls: SHA-256, and JSON text in and out.
  datatype Library = Library(sha: Bytes -> HexDigest, load: Bytes -> Option<Record>, dump: Record -> Bytes)

  // What is dumped loads again.
  ghost predicate RoundTrips(lib: Library) {
    forall r :: lib.load(lib.dump(r)) == Some(r)
  }

  // The regular files of a snapshot directory, by their path in it.
  type Directory = map<string, Bytes>

  const RUN_MANIFEST := "run_manifest"
  const MANIFEST_FILE := "run_manifest.json"
  const SOURCE_ID := "sandbox_evaluation_manifest"
  const PATHS := "artifact_paths"
  const CHECKSUMS := "artifact_sha256"
  const EVIDENCE := "benchmark_evaluation_manifest_sha256"

  datatype SnapshotError =
    | NotADirectory
    | NoRunManifest
    | UnreadableManifest
    | CaseMismatch
    | RunMismatch
    | EvidenceMismatch
    | PathsMalformed
    | ChecksumsIncomplete
    | UnsafeArtifactPath
    | ArtifactPathsNotUnique
    | ArtifactMissing
    | ChecksumMalformed
    | ChecksumMismatch
    | SourceManifestMismatch

  // ----------------------------------------------------------------- what it means

  function TextOf(r: Record, key: string): Option<string> {
    if key in r && r[key].Text? then Some(r[key].text) else None
  }

  predicate TextsOnly(v: Option<Value>) {
    v.Some? && v.value.Dict? && forall key :: key in v.value.entries ==> v.value.entries[key].Text?
  }

  function At(r: Record, key: string): Option<Value> {
    if key in r then Some(r[key]) else None
  }

  // The record's artifact paths, once they are known to be texts.
  function PathsIn(r: Record): (paths: map<string, string>)
    requires TextsOnly(At(r, PATHS))
  {
    map id | id in r[PATHS].entries :: r[PATHS].entries[id].text
  }

  function ChecksumIds(paths: map<string, string>): set<string> {
    paths.Keys - {RUN_MANIFEST}
  }

  // One artifact: a safe path to a file with the recorded hash.
  predicate Verified(dir: Directory, lib: Library, path: string, checksum: Value) {
    && SafePosixPath(path).Ok?
    && SafePosixPath(path).value in dir
    && checksum.Text? && HexText(checksum.text)
    && lib.sha(dir[SafePosixPath(path).value]) == checksum.text
  }

  predicate CoversAll(checksums: Option<Value>, ids: set<string>) {
    checksums.Some? && checksums.value.Dict? && checksums.value.entries.Keys == ids
  }

  predicate ArtifactsVerified(
    dir: Directory, lib: Library, paths: map<string, string>, checksums: map<string, Value>, ids: set<string>)
    requires ids <= paths.Keys && ids <= checksums.Keys
  {
    && (forall id :: id in ids ==> Verified(dir, lib, paths[id], checksums[id]))
    && PathsDiffer(paths, ids)
  }

  predicate PathsDiffer(paths: map<string, string>, ids: set<string>)
    requires ids <= paths.Keys
  {
    forall a, b :: a in ids && b in ids && a != b ==> SafePosixPath(paths[a]) != SafePosixPath(paths[b])
  }

  // The run manifest of a snapshot, read back.
  predicate Identified(m: Record, caseId: string, runId: string, evidence: string) {
    && TextOf(m, "case_id") == Some(caseId)
    && TextOf(m, "run_id") == Some(runId)
    && TextOf(m, EVIDENCE) == Some(evidence)
  }

  predicate SourceMatches(dir: Directory, lib: Library, paths: map<string, string>, evidence: string) {
    && SOURCE_ID in paths && SafePosixPath(paths[SOURCE_ID]).Ok?
    && SafePosixPath(paths[SOURCE_ID]).value in dir
    && lib.sha(dir[SafePosixPath(paths[SOURCE_ID]).value]) == evidence
  }

  predicate ManifestHolds(
    dir: Directory, lib: Library, m: Record, caseId: string, runId: string, evidence: string)
  {
    && Identified(m, caseId, runId, evidence)
    && TextsOnly(At(m, PATHS))
    && CoversAll(At(m, CHECKSUMS), ChecksumIds(PathsIn(m)))
    && ArtifactsVerified(dir, lib, PathsIn(m), m[CHECKSUMS].entries, ChecksumIds(PathsIn(m)))
    && SourceMatches(dir, lib, PathsIn(m), evidence)
  }

  // A snapshot that holds the given case, run and evidence.
  predicate Valid(dir: Option<Directory>, lib: Library, caseId: string, runId: string, evidence: string) {
    && dir.Some? && MANIFEST_FILE in dir.value
    && lib.load(dir.value[MANIFEST_FILE]).Some?
    && ManifestHolds(dir.value, lib, lib.load(dir.value[MANIFEST_FILE]).value, caseId, runId, evidence)
  }

  function RecordedPaths(dir: Option<Directory>, lib: Library, caseId: string, runId: string, evidence: string)
    : map<string, string>
    requires Valid(dir, lib, caseId, runId, evidence)
  {
    PathsIn(lib.load(dir.value[MANIFEST_FILE]).value)
  }

  // -------------------------------------------------------------------- the checker

  // The artifact loop; the program visits the ids in sorted order.
  method VerifyArtifacts(
    dir: Directory, lib: Library, paths: map<string, string>, checksums: map<string, Value>, ids: set<string>)
    returns (r: Option<SnapshotError>)
    requires ids <= paths.Keys && ids <= checksums.Keys
    ensures r.None? <==> ArtifactsVerified(dir, lib, paths, checksums, ids)
  {
    var seenPaths: set<string> := {};
    var pending := ids;
    while pending != {}
      invariant pending <= ids
      invariant ArtifactsVerified(dir, lib, paths, checksums, ids - pending)
      invariant forall path :: path in seenPaths <==> exists id :: id in ids - pending && SafePosixPath(paths[id]) == Ok(path)
      decreases pending
    {
      var id :| id in pending;
      var path := SafePosixPath(paths[id]);
      if path.Err? {
        return Some(UnsafeArtifactPath);
      }
      if path.value in seenPaths {
        return Some(ArtifactPathsNotUnique);
      }
      seenPaths := seenPaths + {path.value};
      if path.value !in dir {
        return Some(ArtifactMissing);
      }
      if !checksums[id].Text? || !HexText(checksums[id].text) {
        return Some(ChecksumMalformed);
      }
      if lib.sha(dir[path.value]) != checksums[id].text {
        return Some(ChecksumMismatch);
      }
      assert ids - (pending - {id}) == (ids - pending) + {id};
      pending := pending - {id};
    }
    assert ids - pending == ids;
    r := None;
  }

  method VerifyImportSnapshot(dir: Option<Directory>, lib: Library, caseId: string, runId: string, evidence: string)
    returns (r: Result<map<string, string>, SnapshotError>)
    ensures r.Ok? <==> Valid(dir, lib, caseId, runId, evidence)
    ensures r.Ok? ==> r.value == RecordedPaths(dir, lib, caseId, runId, evidence)
  {
    if dir.None? {
      return Err(NotADirectory);
    }
    if MANIFEST_FILE !in dir.value {
      return Err(NoRunManifest);
    }
    var loaded := lib.load(dir.value[MANIFEST_FILE]);
    if loaded.None? {
      return Err(UnreadableManifest);
    }
    var m := loaded.value;
    if TextOf(m, "case_id") != Some(caseId) {
      return Err(CaseMismatch);
    }
    if TextOf(m, "run_id") != Some(runId) {
      return Err(RunMismatch);
    }
    if TextOf(m, EVIDENCE) != Some(evidence) {
      return Err(EvidenceMismatch);
    }
    if !TextsOnly(At(m, PATHS)) {
      return Err(PathsMalformed);
    }
    var paths := PathsIn(m);
    if !CoversAll(At(m, CHECKSUMS), ChecksumIds(paths)) {
      return Err(ChecksumsIncomplete);
    }
    var fault := VerifyArtifacts(dir.value, lib, paths, m[CHECKSUMS].entries, ChecksumIds(paths));
    if fault.Some? {
      return Err(fault.value);
    }
    if SOURCE_ID !in paths || SafePosixPath(paths[SOURCE_ID]).Err? {
      return Err(UnsafeArtifactPath);
    }
    if SafePosixPath(paths[SOURCE_ID]).value !in dir.value {
      return Err(ArtifactMissing);
    }
    if lib.sha(dir.value[SafePosixPath(paths[SOURCE_ID]).value]) != evidence {
      return Err(SourceManifestMismatch);
    }
    r := Ok(paths);
  }

  // Every listed artifact but the run manifest: a safe path to a file with the recorded hash,
  // and a path of its own.
  ghost predicate Listed(dir: Directory, lib: Library, paths: map<string, Value>, sums: map<string, Value>) {
    && sums.Keys == paths.Keys - {"run_manifest"}
    && (forall id :: id in sums ==>
          && paths[id].Text? && SafePosixPath(paths[id].text).Ok? && SafePosixPath(paths[id].text).value in dir
          && sums[id] == Text(lib.sha(dir[SafePosixPath(paths[id].text).value])))
    && (forall a, b :: a in sums && b in sums && a != b ==>
          SafePosixPath(paths[a].text) != SafePosixPath(paths[b].text))
  }

  // The entry is there and is a dictionary.
  predicate IsDict(m: Record, key: string) {
    key in m && m[key].Dict?
  }

  /**
   * What a valid snapshot holds, entry by entry: the case, the run and the evidence; checksums
   * of exactly the listed artifacts, which are there, unchanged and at different places; and a
   * source manifest with the evidence's hash.
   */
  lemma ValidExactly(dir: Directory, lib: Library, m: Record, caseId: string, runId: string, evidence: string)
    requires "run_manifest.json" in dir && lib.load(dir["run_manifest.json"]) == Some(m)
    ensures Valid(Some(dir), lib, caseId, runId, evidence) <==>
      && At(m, "case_id") == Some(Text(caseId)) && At(m, "run_id") == Some(Text(runId))
      && At(m, "benchmark_evaluation_manifest_sha256") == Some(Text(evidence))
      && IsDict(m, "artifact_paths") && IsDict(m, "artifact_sha256")
      && (forall id :: id in m["artifact_paths"].entries ==> m["artifact_paths"].entries[id].Text?)
      && Listed(dir, lib, m["artifact_paths"].entries, m["artifact_sha256"].entries)
      && "sandbox_evaluation_manifest" in m["artifact_sha256"].entries
      && m["artifact_sha256"].entries["sandbox_evaluation_manifest"] == Text(evidence)
  {
    if IsDict(m, PATHS) && IsDict(m, CHECKSUMS) && TextsOnly(At(m, PATHS)) {
      ListedExactly(dir, lib, m);
    }
  }

  lemma ListedExactly(dir: Directory, lib: Library, m: Record)
    requires IsDict(m, PATHS) && IsDict(m, CHECKSUMS) && TextsOnly(At(m, PATHS))
    ensures Listed(dir, lib, m[PATHS].entries, m[CHECKSUMS].entries) <==>
      && CoversAll(At(m, CHECKSUMS), ChecksumIds(PathsIn(m)))
      && ArtifactsVerified(dir, lib, PathsIn(m), m[CHECKSUMS].entries, ChecksumIds(PathsIn(m)))
  {
  }

  // ------------------------------------------------------------------------ tampering

  // Every artifact the manifest checksums has the hash it had.
  predicate SameHashes(dir: Directory, other: Directory, lib: Library, paths: map<string, string>)
    requires forall id :: id in ChecksumIds(paths) ==>
      SafePosixPath(paths[id]).Ok? && SafePosixPath(paths[id]).value in dir
  {
    forall id :: id in ChecksumIds(paths) ==>
      var path := SafePosixPath(paths[id]).value;
      path in other && lib.sha(other[path]) == lib.sha(dir[path])
  }

  /**
   * With the run manifest unchanged, a valid snapshot stays valid exactly when every other
   * artifact is still there with the hash it had.
   */
  lemma TamperedArtifact(
    dir: Directory, other: Directory, lib: Library, caseId: string, runId: string, evidence: string)
    requires Valid(Some(dir), lib, caseId, runId, evidence)
    requires MANIFEST_FILE in other && other[MANIFEST_FILE] == dir[MANIFEST_FILE]
    ensures var paths := RecordedPaths(Some(dir), lib, caseId, runId, evidence);
      && (forall id :: id in ChecksumIds(paths) ==>
            SafePosixPath(paths[id]).Ok? && SafePosixPath(paths[id]).value in dir)
      && (Valid(Some(other), lib, caseId, runId, evidence) <==> SameHashes(dir, other, lib, paths))
  {
    var m := lib.load(dir[MANIFEST_FILE]).value;
    PartVerified(dir, other, lib, PathsIn(m), m[CHECKSUMS].entries, evidence);
  }

  // A manifest that lists some of another's artifacts, with their paths and checksums, and
  // among them the sandbox manifest.
  predicate PartOf(n: Record, m: Record)
    requires TextsOnly(At(m, PATHS)) && CoversAll(At(m, CHECKSUMS), ChecksumIds(PathsIn(m)))
  {
    && TextsOnly(At(n, PATHS)) && CoversAll(At(n, CHECKSUMS), ChecksumIds(PathsIn(n)))
    && SOURCE_ID in PathsIn(n)
    && (forall id :: id in PathsIn(n) && id != RUN_MANIFEST ==>
          && id in PathsIn(m) && PathsIn(n)[id] == PathsIn(m)[id]
          && n[CHECKSUMS].entries[id] == m[CHECKSUMS].entries[id])
  }

  predicate Readable(dir: Directory, lib: Library) {
    MANIFEST_FILE in dir && lib.load(dir[MANIFEST_FILE]).Some?
  }

  /**
   * No checksum covers the run manifest itself.  With any rewritten run manifest that lists
   * a part of the artifacts, other files are accepted exactly when the manifest names the
   * same case, run and evidence and the artifacts it still lists have the hashes they had.
   */
  lemma RunManifestUncovered(
    dir: Directory, other: Directory, lib: Library, caseId: string, runId: string, evidence: string)
    requires Valid(Some(dir), lib, caseId, runId, evidence) && Readable(other, lib)
    requires PartOf(lib.load(other[MANIFEST_FILE]).value, lib.load(dir[MANIFEST_FILE]).value)
    ensures var n := lib.load(other[MANIFEST_FILE]).value;
      && (forall id :: id in ChecksumIds(PathsIn(n)) ==>
            SafePosixPath(PathsIn(n)[id]).Ok? && SafePosixPath(PathsIn(n)[id]).value in dir)
      && (Valid(Some(other), lib, caseId, runId, evidence) <==>
            Identified(n, caseId, runId, evidence) && SameHashes(dir, other, lib, PathsIn(n)))
  {
    var n := lib.load(other[MANIFEST_FILE]).value;
    PartVerified(dir, other, lib, PathsIn(n), n[CHECKSUMS].entries, evidence);
  }

  // The listed artifacts verify on other files exactly when their hashes are the same.
  lemma PartVerified(
    dir: Directory, other: Directory, lib: Library, paths: map<string, string>, sums: map<string, Value>,
    evidence: string)
    requires ChecksumIds(paths) == sums.Keys && SOURCE_ID in ChecksumIds(paths)
    requires ArtifactsVerified(dir, lib, paths, sums, ChecksumIds(paths)) && SourceMatches(dir, lib, paths, evidence)
    ensures ArtifactsVerified(other, lib, paths, sums, ChecksumIds(paths)) && SourceMatches(other, lib, paths, evidence)
       <==> SameHashes(dir, other, lib, paths)
  {
  }

  // No checksummed artifact is the run manifest's own file.
  predicate LeavesManifestOut(paths: map<string, string>) {
    forall id :: id in ChecksumIds(paths) ==> SafePosixPath(paths[id]) != Ok(MANIFEST_FILE)
  }

  // A manifest without one of its artifacts.
  function Without(m: Record, id: string): Record
    requires PATHS in m && m[PATHS].Dict? && CHECKSUMS in m && m[CHECKSUMS].Dict?
  {
    m[PATHS := Dict(m[PATHS].entries - {id})][CHECKSUMS := Dict(m[CHECKSUMS].entries - {id})]
  }

  // The directory with one file replaced, or removed.
  function WithFile(dir: Directory, path: string, content: Option<Bytes>): Directory {
    if content.Some? then dir[path := content.value] else dir - {path}
  }

  /**
   * So altering files can go unnoticed.  Whoever drops an artifact from the run manifest's
   * paths and checksums can put anything in its file, or remove it.
   */
  lemma ShedArtifactUnprotected(
    dir: Directory, lib: Library, caseId: string, runId: string, evidence: string, id: string, content: Option<Bytes>)
    requires RoundTrips(lib) && Valid(Some(dir), lib, caseId, runId, evidence)
    requires LeavesManifestOut(RecordedPaths(Some(dir), lib, caseId, runId, evidence))
    requires id in ChecksumIds(RecordedPaths(Some(dir), lib, caseId, runId, evidence)) && id != SOURCE_ID
    ensures var (m, path) := (lib.load(dir[MANIFEST_FILE]).value, SafePosixPath(PathsIn(lib.load(dir[MANIFEST_FILE]).value)[id]));
      && path.Ok?
      && Valid(Some(WithFile(dir[MANIFEST_FILE := lib.dump(Without(m, id))], path.value, content)),
           lib, caseId, runId, evidence)
  {
    var m := lib.load(dir[MANIFEST_FILE]).value;
    var all := PathsIn(m);
    assert Verified(dir, lib, all[id], m[CHECKSUMS].entries[id]);
    var path := SafePosixPath(all[id]).value;
    var other := WithFile(dir[MANIFEST_FILE := lib.dump(Without(m, id))], path, content);
    assert path != MANIFEST_FILE;
    WithoutIsPart(m, id);
    RunManifestUncovered(dir, other, lib, caseId, runId, evidence);
    var paths := PathsIn(Without(m, id));
    forall k | k in ChecksumIds(paths)
      ensures other[SafePosixPath(paths[k]).value] == dir[SafePosixPath(paths[k]).value]
      ensures SafePosixPath(paths[k]).value in other
    {
      assert Verified(dir, lib, all[k], m[CHECKSUMS].entries[k]);
      assert SafePosixPath(all[k]) != SafePosixPath(all[id]);
    }
    WithoutIdentifies(m, id);
  }

  lemma WithoutIsPart(m: Record, id: string)
    requires TextsOnly(At(m, PATHS)) && CoversAll(At(m, CHECKSUMS), ChecksumIds(PathsIn(m)))
    requires SOURCE_ID in PathsIn(m) && id != SOURCE_ID && id != RUN_MANIFEST
    ensures PartOf(Without(m, id), m)
    ensures PathsIn(Without(m, id)) == PathsIn(m) - {id}
  {
    assert |PATHS| == 14 && |CHECKSUMS| == 15;
  }

  lemma WithoutIdentifies(m: Record, id: string)
    requires TextsOnly(At(m, PATHS)) && CoversAll(At(m, CHECKSUMS), ChecksumIds(PathsIn(m)))
    ensures forall caseId, runId, evidence ::
      Identified(Without(m, id), caseId, runId, evidence) <==> Identified(m, caseId, runId, evidence)
  {
    assert |"case_id"| == 7 && |"run_id"| == 6 && |EVIDENCE| == 36 && |PATHS| == 14 && |CHECKSUMS| == 15;
  }

  // Any entry the checker does not look at can change too: the status, say.
  lemma StatusRewritten(
    dir: Directory, lib: Library, caseId: string, runId: string, evidence: string, status: string)
    requires RoundTrips(lib)
    requires Valid(Some(dir), lib, caseId, runId, evidence)
    requires LeavesManifestOut(RecordedPaths(Some(dir), lib, caseId, runId, evidence))
    ensures var other := dir[MANIFEST_FILE := lib.dump(lib.load(dir[MANIFEST_FILE]).value["status" := Text(status)])];
      && Valid(Some(other), lib, caseId, runId, evidence)
      && TextOf(lib.load(other[MANIFEST_FILE]).value, "status") == Some(status)
  {
    var m := lib.load(dir[MANIFEST_FILE]).value;
    var n := m["status" := Text(status)];
    RunManifestUncovered(dir, dir[MANIFEST_FILE := lib.dump(n)], lib, caseId, runId, evidence);
  }
}
