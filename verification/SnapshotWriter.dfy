/** The snapshot writer, and why its checker accepts what it writes. */
module SnapshotWriter {
  import opened Common
  import opened DecimalText
  import opened HexDigests
  import opened PosixPath
  import opened Utf8
  import opened Submission
  import CanonicalJson
  import opened Snapshot

  // One file of a snapshot besides the run manifest; its path is given by components.
  datatype Artifact = Artifact(id: string, parts: seq<string>, content: Bytes)

  // The verified source documents, as they are copied.
  datatype Sources = Sources(
    manifest: Bytes, sourceRun: Bytes, submission: Bytes, policy: Bytes, stdout: Bytes, stderr: Bytes)

  // The documents written for the human review.
  datatype Reports = Reports(
    validatedInput: Record, deterministicResult: Record, narrativeDraft: Record,
    constitutionCheck: Record, reviewPacket: Record, reviewMarkdown: Bytes)

  // What a snapshot is made from.  `rest` holds the run manifest's other entries.
  datatype Draft = Draft(
    caseId: string, runId: string, sources: Sources, reports: Reports, components: seq<Component>, rest: Record)

  function Path(a: Artifact): string {
    JoinParts(a.parts)
  }

  const BASE_IDS: seq<string> := [
    "validated_input", "deterministic_result", "narrative_draft", "constitution_check",
    "review_packet", "review_packet_markdown", "sandbox_evaluation_manifest", "source_run_manifest",
    "extracted_submission", "sandbox_policy", "execution_stdout", "execution_stderr"
  ]

  const BASE_NAMES: seq<string> := [
    "validated_input.json", "deterministic_result.json", "narrative_draft.json", "constitution_check.json",
    "review_packet.json", "review_packet.md", "sandbox_evaluation_manifest.json", "source_run_manifest.json",
    "extracted_submission.json", "sandbox_policy.json", "execution_stdout.json", "execution_stderr.txt"
  ]

  // The last six are copies of source documents, in a directory of their own.
  function BaseParts(i: nat): seq<string>
    requires i < 12
  {
    if i < 6 then [BASE_NAMES[i]] else ["source", BASE_NAMES[i]]
  }

  function BaseContents(lib: Library, d: Draft): (r: seq<Bytes>)
    ensures |r| == 12
  {
    [
      lib.dump(d.reports.validatedInput), lib.dump(d.reports.deterministicResult),
      lib.dump(d.reports.narrativeDraft), lib.dump(d.reports.constitutionCheck),
      lib.dump(d.reports.reviewPacket), d.reports.reviewMarkdown,
      d.sources.manifest, d.sources.sourceRun, d.sources.submission,
      d.sources.policy, d.sources.stdout, d.sources.stderr
    ]
  }

  function BaseArtifacts(lib: Library, d: Draft): (r: seq<Artifact>)
    ensures |r| == 12
  {
    seq(12, i requires 0 <= i < 12 => Artifact(BASE_IDS[i], BaseParts(i), BaseContents(lib, d)[i]))
  }

  // The component files, numbered from one.
  function ComponentArtifact(c: Component, index: nat): Artifact {
    Artifact("component_source_" + Digits(index), ["component"] + Parts(c.path), c.content)
  }

  function ComponentArtifacts(components: seq<Component>): (r: seq<Artifact>)
    ensures |r| == |components|
  {
    seq(|components|, i requires 0 <= i < |components| => ComponentArtifact(components[i], i + 1))
  }

  function Artifacts(lib: Library, d: Draft): seq<Artifact> {
    BaseArtifacts(lib, d) + ComponentArtifacts(d.components)
  }

  function FilesOf(artifacts: seq<Artifact>): Directory {
    if artifacts == [] then map[]
    else
      var last := artifacts[|artifacts| - 1];
      FilesOf(artifacts[..|artifacts| - 1])[Path(last) := last.content]
  }

  function PathsOf(artifacts: seq<Artifact>): map<string, string> {
    if artifacts == [] then map[RUN_MANIFEST := MANIFEST_FILE]
    else
      var last := artifacts[|artifacts| - 1];
      PathsOf(artifacts[..|artifacts| - 1])[last.id := Path(last)]
  }

  function Texts(paths: map<string, string>): map<string, Value> {
    map id | id in paths :: Text(paths[id])
  }

  function ChecksumsOf(lib: Library, artifacts: seq<Artifact>): map<string, Value> {
    if artifacts == [] then map[]
    else
      var last := artifacts[|artifacts| - 1];
      ChecksumsOf(lib, artifacts[..|artifacts| - 1])[last.id := Text(lib.sha(last.content))]
  }

  function ManifestOf(lib: Library, d: Draft, artifacts: seq<Artifact>): Record {
    d.rest[
      "case_id" := Text(d.caseId)][
      "run_id" := Text(d.runId)][
      EVIDENCE := Text(lib.sha(d.sources.manifest))][
      PATHS := Dict(Texts(PathsOf(artifacts)))][
      CHECKSUMS := Dict(ChecksumsOf(lib, artifacts))]
  }

  function SnapshotOf(lib: Library, d: Draft): Directory {
    FilesOf(Artifacts(lib, d))[MANIFEST_FILE := lib.dump(ManifestOf(lib, d, Artifacts(lib, d)))]
  }

  // ------------------------------------------------------------ well-formed listings

  predicate SafeParts(parts: seq<string>) {
    && parts != [] && PlainParts(parts) && ".." !in parts
    && forall i :: 0 <= i < |parts| ==> '\\' !in parts[i]
  }

  predicate Listable(artifacts: seq<Artifact>) {
    && (forall i :: 0 <= i < |artifacts| ==>
          SafeParts(artifacts[i].parts) && artifacts[i].id != RUN_MANIFEST && Path(artifacts[i]) != MANIFEST_FILE)
    && (forall i, j :: 0 <= i < j < |artifacts| ==>
          artifacts[i].id != artifacts[j].id && artifacts[i].parts != artifacts[j].parts)
  }

  lemma SafeJoined(parts: seq<string>)
    requires SafeParts(parts)
    ensures SafePosixPath(JoinParts(parts)) == Ok(JoinParts(parts))
  {
    JoinRelative(parts);
    SplitJoined(parts);
  }

  lemma DistinctFiles(a: Artifact, b: Artifact)
    requires SafeParts(a.parts) && SafeParts(b.parts) && a.parts != b.parts
    ensures Path(a) != Path(b)
  {
    if Path(a) == Path(b) {
      JoinInjective(a.parts, b.parts);
    }
  }

  ghost predicate Records(lib: Library, dir: Directory, paths: map<string, string>, sums: map<string, Value>, a: Artifact) {
    && a.id in paths && paths[a.id] == Path(a)
    && Path(a) in dir && dir[Path(a)] == a.content
    && a.id in sums && sums[a.id] == Text(lib.sha(a.content))
  }

  lemma {:induction false} ListingKeys(lib: Library, artifacts: seq<Artifact>)
    ensures forall id :: id in ChecksumsOf(lib, artifacts) <==> exists i :: 0 <= i < |artifacts| && artifacts[i].id == id
    ensures PathsOf(artifacts).Keys == ChecksumsOf(lib, artifacts).Keys + {RUN_MANIFEST}
  {
    if artifacts == [] {
    } else {
      var n := |artifacts| - 1;
      ListingKeys(lib, artifacts[..n]);
      forall id | id in ChecksumsOf(lib, artifacts[..n])
        ensures exists i :: 0 <= i < |artifacts| && artifacts[i].id == id
      {
        var i :| 0 <= i < n && artifacts[..n][i].id == id;
        assert artifacts[i].id == id;
      }
      forall i | 0 <= i < |artifacts|
        ensures artifacts[i].id in ChecksumsOf(lib, artifacts)
      {
        if i < n {
          assert artifacts[..n][i].id in ChecksumsOf(lib, artifacts[..n]);
        }
      }
    }
  }

  // Every listed artifact is on disk, under its path and with its hash.
  lemma {:induction false} ListingHolds(lib: Library, artifacts: seq<Artifact>, i: nat)
    requires Listable(artifacts) && i < |artifacts|
    ensures Records(lib, FilesOf(artifacts), PathsOf(artifacts), ChecksumsOf(lib, artifacts), artifacts[i])
  {
    var n := |artifacts| - 1;
    if i == n {
    } else {
      ListingHolds(lib, artifacts[..n], i);
      DistinctFiles(artifacts[i], artifacts[n]);
    }
  }

  lemma ManifestEntries(lib: Library, d: Draft, artifacts: seq<Artifact>)
    ensures var m := ManifestOf(lib, d, artifacts);
      && Identified(m, d.caseId, d.runId, lib.sha(d.sources.manifest))
      && TextsOnly(At(m, PATHS)) && PathsIn(m) == PathsOf(artifacts)
      && At(m, CHECKSUMS) == Some(Dict(ChecksumsOf(lib, artifacts)))
  {
    assert |"case_id"| == 7 && |"run_id"| == 6 && |EVIDENCE| == 36 && |PATHS| == 14 && |CHECKSUMS| == 15;
  }

  lemma ListedAt(lib: Library, artifacts: seq<Artifact>, id: string) returns (i: nat)
    requires Listable(artifacts) && id in ChecksumsOf(lib, artifacts)
    ensures i < |artifacts| && artifacts[i].id == id
    ensures Records(lib, FilesOf(artifacts), PathsOf(artifacts), ChecksumsOf(lib, artifacts), artifacts[i])
    ensures SafePosixPath(Path(artifacts[i])) == Ok(Path(artifacts[i]))
  {
    ListingKeys(lib, artifacts);
    i :| 0 <= i < |artifacts| && artifacts[i].id == id;
    ListingHolds(lib, artifacts, i);
    SafeJoined(artifacts[i].parts);
  }

  lemma ListedVerifies(lib: Library, artifacts: seq<Artifact>, manifest: Bytes, id: string)
    requires Listable(artifacts) && id in ChecksumsOf(lib, artifacts) && id in PathsOf(artifacts)
    ensures Verified(FilesOf(artifacts)[MANIFEST_FILE := manifest], lib, PathsOf(artifacts)[id], ChecksumsOf(lib, artifacts)[id])
  {
    var i := ListedAt(lib, artifacts, id);
  }

  lemma ListedDiffer(lib: Library, artifacts: seq<Artifact>, a: string, b: string)
    requires Listable(artifacts) && a != b
    requires a in ChecksumsOf(lib, artifacts) && a in PathsOf(artifacts)
    requires b in ChecksumsOf(lib, artifacts) && b in PathsOf(artifacts)
    ensures SafePosixPath(PathsOf(artifacts)[a]) != SafePosixPath(PathsOf(artifacts)[b])
  {
    var i := ListedAt(lib, artifacts, a);
    var j := ListedAt(lib, artifacts, b);
    assert i < j || j < i;
    DistinctFiles(artifacts[i], artifacts[j]);
  }

  lemma ListedVerify(lib: Library, artifacts: seq<Artifact>, manifest: Bytes)
    requires Listable(artifacts)
    ensures var dir := FilesOf(artifacts)[MANIFEST_FILE := manifest];
      var (paths, sums) := (PathsOf(artifacts), ChecksumsOf(lib, artifacts));
      && ChecksumIds(paths) == sums.Keys
      && ArtifactsVerified(dir, lib, paths, sums, ChecksumIds(paths))
  {
    var (paths, sums) := (PathsOf(artifacts), ChecksumsOf(lib, artifacts));
    ListingKeys(lib, artifacts);
    assert RUN_MANIFEST !in sums;
    forall id | id in sums
      ensures Verified(FilesOf(artifacts)[MANIFEST_FILE := manifest], lib, paths[id], sums[id])
    {
      ListedVerifies(lib, artifacts, manifest, id);
    }
    forall a, b | a in sums && b in sums && a != b
      ensures SafePosixPath(paths[a]) != SafePosixPath(paths[b])
    {
      ListedDiffer(lib, artifacts, a, b);
    }
  }

  // ---------------------------------------------------- the importer's own artifacts

  // Submitted components as the submission check returns them.
  predicate Importable(components: seq<Component>) {
    && (forall i :: 0 <= i < |components| ==> SafePosixPath(components[i].path) == Ok(components[i].path))
    && (forall i, j :: 0 <= i < j < |components| ==> components[i].path != components[j].path)
  }

  /** What the submission check accepts can be written. */
  lemma AcceptedIsImportable(files: Option<CanonicalJson.Json>, source: Materialized, expected: Expected)
    requires Acceptable(files, source, expected)
    ensures var items := InOrder(files.value.items);
      (forall i :: 0 <= i < |items| ==> Read(items[i]).Ok?) && Importable(Components(items))
  {
    var (given, items) := (files.value.items, InOrder(files.value.items));
    InOrderPermutes(given);
    AllSoundPermuted(given, items, source);
    DistinctPathsPermuted(given, items);
    forall i | 0 <= i < |items|
      ensures SafePosixPath(Components(items)[i].path) == Ok(Components(items)[i].path)
      ensures PathOf(items[i]) == Some(Components(items)[i].path)
    {
      assert Sound(items[i], source);
      SafeIsNormal(TextAt(items[i], "path").value);
    }
  }

  // A text's length and one of its letters, counted from the end.
  function Sign(s: string, fromEnd: nat): (nat, char)
    requires 1 <= fromEnd <= |s|
  {
    (|s|, s[|s| - fromEnd])
  }

  // Length and third letter from the end tell the twelve ids apart.
  const ID_SIGNS: seq<(nat, char)> := [
    (15, 'p'), (20, 'u'), (15, 'a'), (18, 'e'), (13, 'k'), (22, 'o'),
    (27, 'e'), (19, 'e'), (20, 'i'), (14, 'i'), (16, 'o'), (16, 'e')
  ]

  // Length and eighth letter from the end tell the twelve names apart.
  const NAME_SIGNS: seq<(nat, char)> := [
    (20, 'p'), (25, 'u'), (20, 'a'), (23, 'e'), (18, 'k'), (16, 'a'),
    (32, 'e'), (24, 'e'), (25, 'i'), (19, 'i'), (21, 'o'), (20, 'd')
  ]

  predicate Apart(signs: seq<(nat, char)>) {
    forall i, j :: 0 <= i < j < |signs| ==> signs[i] != signs[j]
  }

  lemma SignsApart()
    ensures Apart(ID_SIGNS) && Apart(NAME_SIGNS)
    ensures Sign(RUN_MANIFEST, 3) !in ID_SIGNS && Sign(MANIFEST_FILE, 8) !in NAME_SIGNS
  {
    assert Sign(RUN_MANIFEST, 3) == (12, 'e') && Sign(MANIFEST_FILE, 8) == (17, 'e');
  }

  // Apart from the other base ids by its sign, and from every component's id by its letters.
  predicate IdAt(id: string, i: nat)
    requires i < 12
  {
    |id| >= 3 && Sign(id, 3) == ID_SIGNS[i] && !(id[0] == 'c' && id[2] == 'm')
  }

  predicate NameAt(name: string, i: nat)
    requires i < 12
  {
    |name| >= 16 && Sign(name, 8) == NAME_SIGNS[i]
  }

  lemma BaseIdsApart()
    ensures forall i :: 0 <= i < 12 ==> IdAt(BASE_IDS[i], i)
  {
    assert IdAt(BASE_IDS[0], 0) && IdAt(BASE_IDS[1], 1) && IdAt(BASE_IDS[2], 2);
    assert IdAt(BASE_IDS[3], 3) && IdAt(BASE_IDS[4], 4) && IdAt(BASE_IDS[5], 5);
    assert IdAt(BASE_IDS[6], 6) && IdAt(BASE_IDS[7], 7) && IdAt(BASE_IDS[8], 8);
    assert IdAt(BASE_IDS[9], 9) && IdAt(BASE_IDS[10], 10) && IdAt(BASE_IDS[11], 11);
  }

  lemma BaseNamesApart()
    ensures forall i :: 0 <= i < 12 ==> NameAt(BASE_NAMES[i], i)
  {
    assert NameAt(BASE_NAMES[0], 0) && NameAt(BASE_NAMES[1], 1) && NameAt(BASE_NAMES[2], 2);
    assert NameAt(BASE_NAMES[3], 3) && NameAt(BASE_NAMES[4], 4) && NameAt(BASE_NAMES[5], 5);
    assert NameAt(BASE_NAMES[6], 6) && NameAt(BASE_NAMES[7], 7) && NameAt(BASE_NAMES[8], 8);
    assert NameAt(BASE_NAMES[9], 9) && NameAt(BASE_NAMES[10], 10) && NameAt(BASE_NAMES[11], 11);
  }

  predicate NoSlashes(s: string) {
    '/' !in s && '\\' !in s
  }

  lemma FirstNamesPlain()
    ensures forall i :: 0 <= i < 3 ==> NoSlashes(BASE_NAMES[i])
  {
    assert NoSlashes("validated_input.json") && NoSlashes("deterministic_result.json");
    assert NoSlashes("narrative_draft.json");
  }

  lemma ReviewNamesPlain()
    ensures forall i :: 3 <= i < 6 ==> NoSlashes(BASE_NAMES[i])
  {
    assert NoSlashes("constitution_check.json") && NoSlashes("review_packet.json") && NoSlashes("review_packet.md");
  }

  lemma SourceNamesPlain()
    ensures forall i :: 6 <= i < 9 ==> NoSlashes(BASE_NAMES[i])
  {
    assert NoSlashes("sandbox_evaluation_manifest.json") && NoSlashes("source_run_manifest.json");
    assert NoSlashes("extracted_submission.json");
  }

  lemma OutputNamesPlain()
    ensures forall i :: 9 <= i < 12 ==> NoSlashes(BASE_NAMES[i])
  {
    assert NoSlashes("sandbox_policy.json") && NoSlashes("execution_stdout.json") && NoSlashes("execution_stderr.txt");
  }

  lemma BasePartsSafe(i: nat)
    requires i < 12
    ensures SafeParts(BaseParts(i)) && |BaseParts(i)[0]| != 9
    ensures BaseParts(i)[|BaseParts(i)| - 1] == BASE_NAMES[i]
  {
    BaseNamesApart();
    assert NameAt(BASE_NAMES[i], i);
    FirstNamesPlain();
    ReviewNamesPlain();
    SourceNamesPlain();
    OutputNamesPlain();
    if i >= 6 {
      assert NoSlashes("source") && |"source"| == 6;
    }
  }

  // Not the run manifest's own place.
  lemma ElsewhereThanManifest(parts: seq<string>)
    requires SafeParts(parts) && parts != [MANIFEST_FILE]
    ensures JoinParts(parts) != MANIFEST_FILE
  {
    assert NoSlashes(MANIFEST_FILE) && |MANIFEST_FILE| == 17;
    if JoinParts(parts) == MANIFEST_FILE {
      JoinInjective(parts, [MANIFEST_FILE]);
    }
  }

  lemma BaseListable(lib: Library, d: Draft)
    ensures Listable(BaseArtifacts(lib, d))
  {
    BaseIdsApart();
    BaseNamesApart();
    SignsApart();
    var base := BaseArtifacts(lib, d);
    forall i | 0 <= i < 12
      ensures SafeParts(base[i].parts) && base[i].id != RUN_MANIFEST && Path(base[i]) != MANIFEST_FILE
    {
      BasePartsSafe(i);
      assert IdAt(BASE_IDS[i], i) && NameAt(BASE_NAMES[i], i);
      ElsewhereThanManifest(base[i].parts);
    }
    forall i, j | 0 <= i < j < 12
      ensures base[i].id != base[j].id && base[i].parts != base[j].parts
    {
      assert IdAt(BASE_IDS[i], i) && IdAt(BASE_IDS[j], j);
      assert NameAt(BASE_NAMES[i], i) && NameAt(BASE_NAMES[j], j);
      BasePartsSafe(i);
      BasePartsSafe(j);
    }
  }

  lemma ComponentParts(path: string)
    requires SafePosixPath(path) == Ok(path)
    ensures SafeParts(["component"] + Parts(path))
  {
    assert NoSlashes("component") && |"component"| == 9;
    PartsArePlain(path, []);
    PartsKeepChars(path, [], '\\');
  }

  lemma ComponentIdsDiffer(i: nat, j: nat)
    requires "component_source_" + Digits(i) == "component_source_" + Digits(j)
    ensures i == j
  {
    var (a, b) := ("component_source_" + Digits(i), "component_source_" + Digits(j));
    assert a[17..] == Digits(i) && b[17..] == Digits(j);
    DigitsRoundTrip(i);
    DigitsRoundTrip(j);
  }

  lemma ComponentsListable(components: seq<Component>)
    requires Importable(components)
    ensures Listable(ComponentArtifacts(components))
  {
    var list := ComponentArtifacts(components);
    forall i | 0 <= i < |list|
      ensures SafeParts(list[i].parts) && list[i].id != RUN_MANIFEST && Path(list[i]) != MANIFEST_FILE
    {
      ComponentParts(components[i].path);
      assert list[i].id[0] == 'c' && RUN_MANIFEST[0] == 'r';
      assert |list[i].parts[0]| == 9 && |MANIFEST_FILE| == 17;
      ElsewhereThanManifest(list[i].parts);
    }
    forall i, j | 0 <= i < j < |list|
      ensures list[i].id != list[j].id && list[i].parts != list[j].parts
    {
      if list[i].id == list[j].id {
        ComponentIdsDiffer(i + 1, j + 1);
      }
      SafePathsEqual(components[i].path, components[j].path);
      assert list[i].parts[1..] == Parts(components[i].path) && list[j].parts[1..] == Parts(components[j].path);
    }
  }

  lemma AllListable(lib: Library, d: Draft)
    requires Importable(d.components)
    ensures Listable(Artifacts(lib, d))
  {
    BaseListable(lib, d);
    ComponentsListable(d.components);
    BaseIdsApart();
    var (base, components) := (BaseArtifacts(lib, d), ComponentArtifacts(d.components));
    forall i, j | 0 <= i < 12 && 0 <= j < |components|
      ensures base[i].id != components[j].id && base[i].parts != components[j].parts
    {
      assert IdAt(BASE_IDS[i], i);
      assert components[j].id[0] == 'c' && components[j].id[2] == 'm';
      BasePartsSafe(i);
      assert |components[j].parts[0]| == 9;
    }
  }

  /** Every snapshot the importer writes is one its checker accepts. */
  lemma WrittenIsValid(lib: Library, d: Draft)
    requires RoundTrips(lib) && Importable(d.components)
    ensures var evidence := lib.sha(d.sources.manifest);
      && Valid(Some(SnapshotOf(lib, d)), lib, d.caseId, d.runId, evidence)
      && RecordedPaths(Some(SnapshotOf(lib, d)), lib, d.caseId, d.runId, evidence) == PathsOf(Artifacts(lib, d))
      && LeavesManifestOut(PathsOf(Artifacts(lib, d)))
  {
    var artifacts := Artifacts(lib, d);
    var manifest := ManifestOf(lib, d, artifacts);
    AllListable(lib, d);
    ManifestEntries(lib, d, artifacts);
    ListedVerify(lib, artifacts, lib.dump(manifest));
    SourceIsListed(lib, d);
    ManifestIsOut(lib, artifacts);
  }

  lemma SourceIsListed(lib: Library, d: Draft)
    requires Listable(Artifacts(lib, d))
    ensures SourceMatches(SnapshotOf(lib, d), lib, PathsOf(Artifacts(lib, d)), lib.sha(d.sources.manifest))
  {
    var artifacts := Artifacts(lib, d);
    assert artifacts[6] == BaseArtifacts(lib, d)[6];
    assert artifacts[6].id == SOURCE_ID && artifacts[6].content == d.sources.manifest;
    ListingHolds(lib, artifacts, 6);
    SafeJoined(artifacts[6].parts);
  }

  lemma ManifestIsOut(lib: Library, artifacts: seq<Artifact>)
    requires Listable(artifacts)
    ensures LeavesManifestOut(PathsOf(artifacts))
  {
    ListingKeys(lib, artifacts);
    forall id | id in ChecksumIds(PathsOf(artifacts))
      ensures SafePosixPath(PathsOf(artifacts)[id]) != Ok(MANIFEST_FILE)
    {
      var i := ListedAt(lib, artifacts, id);
    }
  }

  // -------------------------------------------------------------------- the writer

  // The first `n` artifacts are written.
  ghost predicate Wrote(dir: Directory, paths: map<string, string>, artifacts: seq<Artifact>, n: nat) {
    n <= |artifacts| && dir == FilesOf(artifacts[..n]) && paths == PathsOf(artifacts[..n])
  }

  lemma WroteOneMore(dir: Directory, paths: map<string, string>, artifacts: seq<Artifact>, n: nat)
    requires Wrote(dir, paths, artifacts, n) && n < |artifacts|
    ensures Wrote(dir[Path(artifacts[n]) := artifacts[n].content], paths[artifacts[n].id := Path(artifacts[n])], artifacts, n + 1)
  {
    assert artifacts[..n + 1][..n] == artifacts[..n];
  }

  lemma WroteAll(dir: Directory, paths: map<string, string>, artifacts: seq<Artifact>)
    requires Wrote(dir, paths, artifacts, |artifacts|)
    ensures dir == FilesOf(artifacts) && paths == PathsOf(artifacts)
  {
    assert artifacts[..|artifacts|] == artifacts;
  }

  // Writing is one file after another; the run manifest comes last.
  method WriteSnapshot(lib: Library, d: Draft) returns (dir: Directory, paths: map<string, string>)
    ensures dir == SnapshotOf(lib, d)
    ensures paths == PathsOf(Artifacts(lib, d))
  {
    var base := BaseArtifacts(lib, d);
    ghost var artifacts := base + ComponentArtifacts(d.components);
    dir, paths := map[], map[RUN_MANIFEST := MANIFEST_FILE];
    var i := 0;
    while i < |base|
      invariant 0 <= i <= |base|
      invariant Wrote(dir, paths, artifacts, i)
    {
      assert artifacts[i] == base[i];
      WroteOneMore(dir, paths, artifacts, i);
      dir, paths := dir[Path(base[i]) := base[i].content], paths[base[i].id := Path(base[i])];
      i := i + 1;
    }
    i := 0;
    while i < |d.components|
      invariant 0 <= i <= |d.components|
      invariant Wrote(dir, paths, artifacts, |base| + i)
    {
      var a := ComponentArtifact(d.components[i], i + 1);
      assert artifacts[|base| + i] == a;
      WroteOneMore(dir, paths, artifacts, |base| + i);
      dir, paths := dir[Path(a) := a.content], paths[a.id := Path(a)];
      i := i + 1;
    }
    WroteAll(dir, paths, artifacts);
    dir := dir[MANIFEST_FILE := lib.dump(ManifestOf(lib, d, base + ComponentArtifacts(d.components)))];
  }
}
