/** What a written snapshot holds, file by file, under the names it is known by. */
module SnapshotContents {
  import opened Common
  import opened DecimalText
  import opened HexDigests
  import opened PosixPath
  import opened Utf8
  import opened Submission
  import opened Snapshot
  import opened SnapshotWriter

  // A snapshot as written: its files, and what its run manifest records.
  datatype Written = Written(sha: Bytes -> HexDigest, dir: Directory, paths: map<string, string>, sums: map<string, Value>)

  function WrittenOf(lib: Library, d: Draft): Written {
    Written(lib.sha, SnapshotOf(lib, d), PathsOf(Artifacts(lib, d)), ChecksumsOf(lib, Artifacts(lib, d)))
  }

  // The artifact is on disk, and the run manifest records its path and its hash.
  ghost predicate Kept(w: Written, id: string, path: string, content: Bytes) {
    && path in w.dir && w.dir[path] == content
    && id in w.paths && w.paths[id] == path
    && id in w.sums && w.sums[id] == Text(w.sha(content))
  }

  lemma ArtifactKept(lib: Library, d: Draft, i: nat)
    requires Importable(d.components) && i < |Artifacts(lib, d)|
    ensures var a := Artifacts(lib, d)[i]; Kept(WrittenOf(lib, d), a.id, Path(a), a.content)
  {
    AllListable(lib, d);
    ListingHolds(lib, Artifacts(lib, d), i);
  }

  function BasePath(i: nat): string
    requires i < 12
  {
    if i < 6 then BASE_NAMES[i] else "source/" + BASE_NAMES[i]
  }

  lemma BasePathIs(i: nat)
    requires i < 12
    ensures JoinParts(BaseParts(i)) == BasePath(i)
  {
    var name := BASE_NAMES[i];
    assert JoinParts([name]) == name;
    assert ["source", name][1..] == [name] && "source/" == "source" + ['/'];
  }

  lemma BaseKept(lib: Library, d: Draft, i: nat, w: Written)
    requires Importable(d.components) && i < 12 && w == WrittenOf(lib, d)
    ensures Kept(w, BASE_IDS[i], BasePath(i), BaseContents(lib, d)[i])
  {
    assert Artifacts(lib, d)[i] == BaseArtifacts(lib, d)[i];
    BasePathIs(i);
    ArtifactKept(lib, d, i);
  }

  /** The documents written for the review, each under its name. */
  lemma FindingsKept(lib: Library, d: Draft, w: Written)
    requires Importable(d.components) && w == WrittenOf(lib, d)
    ensures Kept(w, "validated_input", "validated_input.json", lib.dump(d.reports.validatedInput))
    ensures Kept(w, "deterministic_result", "deterministic_result.json", lib.dump(d.reports.deterministicResult))
    ensures Kept(w, "narrative_draft", "narrative_draft.json", lib.dump(d.reports.narrativeDraft))
  {
    BaseKept(lib, d, 0, w);
    BaseKept(lib, d, 1, w);
    BaseKept(lib, d, 2, w);
  }

  lemma PacketKept(lib: Library, d: Draft, w: Written)
    requires Importable(d.components) && w == WrittenOf(lib, d)
    ensures Kept(w, "constitution_check", "constitution_check.json", lib.dump(d.reports.constitutionCheck))
    ensures Kept(w, "review_packet", "review_packet.json", lib.dump(d.reports.reviewPacket))
    ensures Kept(w, "review_packet_markdown", "review_packet.md", d.reports.reviewMarkdown)
  {
    BaseKept(lib, d, 3, w);
    BaseKept(lib, d, 4, w);
    BaseKept(lib, d, 5, w);
  }

  /** The copies of the source documents, each under its name. */
  lemma EvaluationKept(lib: Library, d: Draft, w: Written)
    requires Importable(d.components) && w == WrittenOf(lib, d)
    ensures Kept(w, "sandbox_evaluation_manifest", "source/" + "sandbox_evaluation_manifest.json", d.sources.manifest)
    ensures Kept(w, "source_run_manifest", "source/" + "source_run_manifest.json", d.sources.sourceRun)
    ensures Kept(w, "extracted_submission", "source/" + "extracted_submission.json", d.sources.submission)
  {
    BaseKept(lib, d, 6, w);
    BaseKept(lib, d, 7, w);
    BaseKept(lib, d, 8, w);
  }

  lemma ExecutionKept(lib: Library, d: Draft, w: Written)
    requires Importable(d.components) && w == WrittenOf(lib, d)
    ensures Kept(w, "sandbox_policy", "source/" + "sandbox_policy.json", d.sources.policy)
    ensures Kept(w, "execution_stdout", "source/" + "execution_stdout.json", d.sources.stdout)
    ensures Kept(w, "execution_stderr", "source/" + "execution_stderr.txt", d.sources.stderr)
  {
    BaseKept(lib, d, 9, w);
    BaseKept(lib, d, 10, w);
    BaseKept(lib, d, 11, w);
  }

  lemma ComponentPath(path: string)
    requires SafePosixPath(path) == Ok(path)
    ensures JoinParts(["component"] + Parts(path)) == if path == "." then "component" else "component/" + path
  {
    var parts := ["component"] + Parts(path);
    SafeIsNormal(path);
    PartsArePlain(path, []);
    if Parts(path) != [] {
      JoinRelative(Parts(path));
    }
    assert parts[1..] == Parts(path);
    assert "component" + ['/'] == "component/";
  }

  /** The component files, numbered from one, each at its own path and with its own content. */
  lemma ComponentKept(lib: Library, d: Draft, i: nat)
    requires Importable(d.components) && i < |d.components|
    ensures var c := d.components[i];
      Kept(WrittenOf(lib, d), "component_source_" + Digits(i + 1),
        if c.path == "." then "component" else "component/" + c.path, c.content)
  {
    var a := ComponentArtifact(d.components[i], i + 1);
    assert Artifacts(lib, d)[12 + i] == ComponentArtifacts(d.components)[i] == a;
    ComponentPath(d.components[i].path);
    ArtifactKept(lib, d, 12 + i);
  }

  lemma {:induction false} FilesAreArtifacts(artifacts: seq<Artifact>, path: string) returns (i: nat)
    requires path in FilesOf(artifacts)
    ensures i < |artifacts| && Path(artifacts[i]) == path
  {
    var n := |artifacts| - 1;
    if path == Path(artifacts[n]) {
      i := n;
    } else {
      i := FilesAreArtifacts(artifacts[..n], path);
    }
  }

  /** Nothing else is written, and nothing else is recorded. */
  lemma NothingElse(lib: Library, d: Draft)
    requires Importable(d.components)
    ensures forall path :: path in SnapshotOf(lib, d) ==>
      path == "run_manifest.json" || exists i :: 0 <= i < |Artifacts(lib, d)| && Path(Artifacts(lib, d)[i]) == path
    ensures |Artifacts(lib, d)| == 12 + |d.components|
    ensures PathsOf(Artifacts(lib, d)).Keys == ChecksumsOf(lib, Artifacts(lib, d)).Keys + {"run_manifest"}
    ensures forall id :: id in ChecksumsOf(lib, Artifacts(lib, d)) ==>
      exists i :: 0 <= i < |Artifacts(lib, d)| && Artifacts(lib, d)[i].id == id
  {
    var artifacts := Artifacts(lib, d);
    ListingKeys(lib, artifacts);
    forall path | path in SnapshotOf(lib, d) && path != "run_manifest.json"
      ensures exists i :: 0 <= i < |artifacts| && Path(artifacts[i]) == path
    {
      var i := FilesAreArtifacts(artifacts, path);
    }
  }

  /** The run manifest read back: the draft's entries, the paths and the checksums. */
  lemma ManifestReadsBack(lib: Library, d: Draft)
    requires RoundTrips(lib)
    ensures "run_manifest.json" in SnapshotOf(lib, d)
    ensures lib.load(SnapshotOf(lib, d)["run_manifest.json"]).Some?
    ensures var m := lib.load(SnapshotOf(lib, d)["run_manifest.json"]).value;
      && Holds(m, "case_id", Text(d.caseId)) && Holds(m, "run_id", Text(d.runId))
      && Holds(m, "benchmark_evaluation_manifest_sha256", Text(lib.sha(d.sources.manifest)))
      && Holds(m, "artifact_paths", Dict(Texts(PathsOf(Artifacts(lib, d)))))
      && Holds(m, "artifact_sha256", Dict(ChecksumsOf(lib, Artifacts(lib, d))))
  {
    assert |"case_id"| == 7 && |"run_id"| == 6 && |EVIDENCE| == 36 && |PATHS| == 14 && |CHECKSUMS| == 15;
  }

  predicate Holds(m: Record, key: string, v: Value) {
    key in m && m[key] == v
  }

  // The manifest's other entries are the draft's.
  lemma ManifestKeepsRest(lib: Library, d: Draft, key: string)
    requires RoundTrips(lib) && key in d.rest
    requires key !in {"case_id", "run_id", "benchmark_evaluation_manifest_sha256", "artifact_paths", "artifact_sha256"}
    ensures var loaded := lib.load(SnapshotOf(lib, d)["run_manifest.json"]);
      loaded.Some? && Holds(loaded.value, key, d.rest[key])
  {
  }
}
