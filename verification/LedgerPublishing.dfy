/**
 * The writing side of the digest chain: publishing a staged operator step, writing a
 * validation step, and closing the run with the root manifest.
 */
module LedgerPublishing {
  import opened Common
  import opened PosixPath
  import opened DigestLedger

  // The run's artifact directory.
  class PinnedRoot {
    var files: Files

    constructor ()
      ensures files == map[]
    {
      files := map[];
    }

    method WriteExclusive(path: string, d: Document) returns (written: bool)
      modifies this
      ensures written == (path !in old(files))
      ensures files == if written then old(files)[path := d] else old(files)
    {
      written := path !in files;
      if written {
        files := files[path := d];
      }
    }

    method WriteAtomic(path: string, d: Document)
      modifies this
      ensures files == old(files)[path := d]
    {
      files := files[path := d];
    }
  }

  // --------------------------------------------------------------------- file names

  lemma FileNameInjective(a: string, b: string)
    requires FileName(a) == FileName(b)
    ensures a == b
  {
    assert FileName(a)[..|FileName(a)| - 5] == a;
    assert FileName(b)[..|FileName(b)| - 5] == b;
  }

  lemma StepFileInjective(s: string, m: string, t: string, n: string)
    requires '/' !in s && '/' !in t && StepFile(s, m) == StepFile(t, n)
    ensures s == t && m == n
  {
    var path := StepFile(s, m);
    assert path[|s|] == '/' && path[|t|] == '/';
    assert forall i :: 0 <= i < |s| ==> path[i] == s[i];
    assert forall i :: 0 <= i < |t| ==> path[i] == t[i];
    assert StepFile(s, m)[..|s|] == s && StepFile(t, n)[..|t|] == t;
    assert StepFile(s, m)[|s| + 1..] == m && StepFile(t, n)[|t| + 1..] == n;
  }

  lemma ArtifactFileInjective(step: string, a: string, b: string)
    requires '/' !in step && StepFile(step, FileName(a)) == StepFile(step, FileName(b))
    ensures a == b
  {
    StepFileInjective(step, FileName(a), step, FileName(b));
    FileNameInjective(a, b);
  }

  lemma ArtifactIds()
    ensures Distinct(STEP_ARTIFACTS)
    ensures MANIFEST in STEP_ARTIFACTS
    ensures forall id :: id in REPLAY_INPUTS ==> id in STEP_ARTIFACTS && id != MANIFEST
  {
    assert |"validated_input"| == 15 && |"case_input"| == 10 && |"deterministic_result"| == 20;
    assert |"narrative_draft"| == 15 && |"constitution_check"| == 18 && |"review_packet"| == 13;
    assert |"run_manifest"| == 12;
    assert "validated_input"[0] != "narrative_draft"[0];
    assert STEP_ARTIFACTS[6] == MANIFEST;
    assert STEP_ARTIFACTS[0] == REPLAY_INPUTS[0] && STEP_ARTIFACTS[1] == REPLAY_INPUTS[1];
    assert STEP_ARTIFACTS[2] == REPLAY_INPUTS[2];
  }

  // ------------------------------------------------------------- publishing a step

  // What sanitizing removes besides the directories in `artifact_paths`.
  type Cleaner = (string, Body) -> Body

  function Sanitize(clean: Cleaner, id: string, d: Document): Document {
    var paths :=
      if d.paths.None? then None
      else Some(map k | k in d.paths.value :: TextRef(Name(RefText(d.paths.value[k]))));
    d.(paths := paths, body := clean(id, d.body))
  }

  // The artifacts a step publishes besides its manifest.
  function PublishedDocs(staged: Files, clean: Cleaner): (docs: map<string, Document>) {
    map id | id in STEP_ARTIFACTS && id != MANIFEST && FileName(id) in staged
      :: Sanitize(clean, id, staged[FileName(id)])
  }

  function OwnNames(ids: set<string>): map<string, Ref> {
    map id | id in ids :: TextRef(FileName(id))
  }

  function DigestsOf(docs: map<string, Document>): map<string, DigestText> {
    map id | id in docs :: Hex(Canonical(docs[id]))
  }

  // The published manifest: own names fill the gaps, digests of what was published win.
  function Ledgered(m: Document, docs: map<string, Document>): Document {
    m.(paths := Some((OwnNames(docs.Keys) + OrEmpty(m.paths))[MANIFEST := TextRef("run_manifest.json")]),
       digests := Some(OrEmpty(m.digests) + DigestsOf(docs)))
  }

  function PublishedManifest(staged: Files, clean: Cleaner): Document
    requires FileName(MANIFEST) in staged
  {
    Ledgered(Sanitize(clean, MANIFEST, staged[FileName(MANIFEST)]), PublishedDocs(staged, clean))
  }

  // ------------------------------------------------------- what publishing leaves alone

  // The entries of a document other than its paths, its digests and its rest.
  predicate SameEntries(d: Document, s: Document) {
    && d.caseId == s.caseId && d.runId == s.runId && d.workflowId == s.workflowId
    && d.createdBy == s.createdBy && d.status == s.status && d.toolId == s.toolId && d.version == s.version
  }

  // The same artifacts are named, each by a bare file name.
  ghost predicate NamesKept(d: Document, s: Document) {
    && (d.paths.Some? <==> s.paths.Some?)
    && OrEmpty(d.paths).Keys == OrEmpty(s.paths).Keys
    && forall id :: InSome(d.paths, id) ==> d.paths.value[id].TextRef? && '/' !in d.paths.value[id].text
  }

  lemma SanitizeKeeps(clean: Cleaner, id: string, s: Document)
    ensures var d := Sanitize(clean, id, s);
      && SameEntries(d, s) && d.digests == s.digests && d.body == clean(id, s.body)
      && (d.paths.Some? <==> s.paths.Some?) && OrEmpty(d.paths).Keys == OrEmpty(s.paths).Keys
      && (forall k :: InSome(s.paths, k) ==> InSome(d.paths, k) && d.paths.value[k] == TextRef(Name(RefText(s.paths.value[k]))))
  {
  }

  /** A published artifact other than the manifest is the staged one, its paths cut to names. */
  lemma ArtifactKept(staged: Files, clean: Cleaner, id: string)
    requires id in PublishedStep(staged, clean) && id != MANIFEST
    ensures FileName(id) in staged
    ensures var (d, s) := (PublishedStep(staged, clean)[id], staged[FileName(id)]);
      SameEntries(d, s) && NamesKept(d, s) && d.digests == s.digests && d.body == clean(id, s.body)
  {
    NamesAreBare();
    SanitizeKeeps(clean, id, staged[FileName(id)]);
  }

  lemma LedgeredKeeps(first: Document, docs: map<string, Document>)
    requires MANIFEST !in docs
    ensures var d := Ledgered(first, docs);
      && SameEntries(d, first) && d.body == first.body && d.paths.Some? && d.digests.Some?
      && d.paths.value.Keys == OrEmpty(first.paths).Keys + docs.Keys + {MANIFEST}
      && (forall id :: InSome(first.paths, id) && id != MANIFEST ==> d.paths.value[id] == first.paths.value[id])
      && (forall id :: id in docs && !InSome(first.paths, id) ==> d.paths.value[id] == TextRef(id + ".json"))
      && d.digests.value.Keys == OrEmpty(first.digests).Keys + docs.Keys
      && (forall id :: InSome(first.digests, id) && id !in docs ==> d.digests.value[id] == first.digests.value[id])
      && (forall id :: id in docs ==> d.digests.value[id] == Hex(Canonical(docs[id])))
  {
  }

  /**
   * The published manifest keeps every entry of the staged one; it names what that named, by
   * bare file names, and what was published, by own names; it keeps the digests of what was
   * not published.
   */
  lemma ManifestKept(staged: Files, clean: Cleaner)
    requires FileName(MANIFEST) in staged
    ensures var (d, s, ids) := (PublishedManifest(staged, clean), staged[FileName(MANIFEST)], StagedIds(staged));
      && SameEntries(d, s) && d.body == clean(MANIFEST, s.body) && d.paths.Some? && d.digests.Some?
      && d.paths.value.Keys == OrEmpty(s.paths).Keys + ids + {MANIFEST}
      && (forall id :: InSome(s.paths, id) && id != MANIFEST ==>
            d.paths.value[id] == TextRef(Name(RefText(s.paths.value[id]))))
      && (forall id :: id in ids && !InSome(s.paths, id) ==> d.paths.value[id] == TextRef(id + ".json"))
      && d.digests.value.Keys == OrEmpty(s.digests).Keys + ids
      && (forall id :: InSome(s.digests, id) && id !in ids ==> d.digests.value[id] == s.digests.value[id])
  {
    var (first, docs) := (Sanitize(clean, MANIFEST, staged[FileName(MANIFEST)]), PublishedDocs(staged, clean));
    SanitizeKeeps(clean, MANIFEST, staged[FileName(MANIFEST)]);
    assert docs.Keys == StagedIds(staged);
    LedgeredKeeps(first, docs);
  }

  // The staged artifacts besides the manifest.
  function StagedIds(staged: Files): set<string> {
    set id | id in STEP_ARTIFACTS && id != MANIFEST && id + ".json" in staged
  }

  lemma NamesAreBare()
    ensures forall path :: '/' !in Name(path)
  {
    forall path: string
      ensures '/' !in Name(path)
    {
      PartsArePlain(path, []);
    }
  }

  predicate Fresh(files: Files, step: string) {
    forall path :: path in files ==> !(step + ['/'] <= path)
  }

  // `after` is `before` with exactly `docs` added under the step's directory.
  ghost predicate Adds(before: Files, after: Files, step: string, docs: map<string, Document>) {
    && Extends(before, after)
    && (forall id :: id in docs ==>
          StepFile(step, FileName(id)) in after && after[StepFile(step, FileName(id))] == docs[id])
    && (forall path :: path in after && path !in before ==>
          exists id :: id in docs && path == StepFile(step, FileName(id)))
  }

  // Everything the step leaves in its directory.
  function PublishedStep(staged: Files, clean: Cleaner): map<string, Document> {
    if FileName(MANIFEST) in staged
    then PublishedDocs(staged, clean)[MANIFEST := PublishedManifest(staged, clean)]
    else PublishedDocs(staged, clean)
  }

  // All staged artifacts, sanitized: what the first pass writes.
  function FirstPass(staged: Files, clean: Cleaner, ids: seq<string>): map<string, Document> {
    if ids == [] then map[]
    else
      var (before, id) := (FirstPass(staged, clean, ids[..|ids| - 1]), ids[|ids| - 1]);
      if FileName(id) in staged then before[id := Sanitize(clean, id, staged[FileName(id)])] else before
  }

  lemma {:induction false} FirstPassHolds(staged: Files, clean: Cleaner, ids: seq<string>)
    ensures var docs := FirstPass(staged, clean, ids);
      && (forall id :: id in docs <==> id in ids && FileName(id) in staged)
      && (forall id :: id in docs ==> docs[id] == Sanitize(clean, id, staged[FileName(id)]))
  {
    if ids == [] {
    } else {
      FirstPassHolds(staged, clean, ids[..|ids| - 1]);
    }
  }

  lemma AddsOne(
    before: Files, after: Files, step: string, docs: map<string, Document>, id: string, d: Document)
    requires '/' !in step && Fresh(before, step)
    requires Adds(before, after, step, docs)
    ensures id !in docs ==> StepFile(step, FileName(id)) !in after
    ensures Adds(before, after[StepFile(step, FileName(id)) := d], step, docs[id := d])
  {
    var path := StepFile(step, FileName(id));
    var next := after[path := d];
    assert step + ['/'] <= path;
    assert path !in before;
    forall k | k in docs[id := d]
      ensures StepFile(step, FileName(k)) in next && next[StepFile(step, FileName(k))] == docs[id := d][k]
    {
      if k != id && StepFile(step, FileName(k)) == path {
        ArtifactFileInjective(step, k, id);
      }
    }
    if id !in docs && path in after {
      var k :| k in docs && path == StepFile(step, FileName(k));
      ArtifactFileInjective(step, k, id);
    }
    forall p | p in next && p !in before
      ensures exists k :: k in docs[id := d] && p == StepFile(step, FileName(k))
    {
      if p == path {
        assert id in docs[id := d];
      } else {
        var k :| k in docs && p == StepFile(step, FileName(k));
        assert k in docs[id := d];
      }
    }
  }

  predicate Distinct(ids: seq<string>) {
    forall i, j :: 0 <= i < j < |ids| ==> ids[i] != ids[j]
  }

  lemma FirstPassStep(staged: Files, clean: Cleaner, ids: seq<string>, i: nat)
    requires i < |ids| && Distinct(ids)
    ensures ids[i] !in FirstPass(staged, clean, ids[..i])
    ensures FirstPass(staged, clean, ids[..i + 1]) ==
            if FileName(ids[i]) in staged
            then FirstPass(staged, clean, ids[..i])[ids[i] := Sanitize(clean, ids[i], staged[FileName(ids[i])])]
            else FirstPass(staged, clean, ids[..i])
  {
    FirstPassHolds(staged, clean, ids[..i]);
    assert ids[..i + 1][..i] == ids[..i];
  }

  method PublishOne(
    root: PinnedRoot, step: string, id: string, d: Document, ghost before: Files, ghost docs: map<string, Document>)
    requires PlainPart(step) && Fresh(before, step)
    requires Adds(before, root.files, step, docs) && id !in docs
    modifies root
    ensures Adds(before, root.files, step, docs[id := d])
  {
    AddsOne(before, root.files, step, docs, id, d);
    var written := root.WriteExclusive(StepFile(step, FileName(id)), d);
    assert written;
  }

  // Publishing proper: each staged artifact, sanitized, into the step's directory.
  method PublishFiles(root: PinnedRoot, step: string, staged: Files, clean: Cleaner, ids: seq<string>)
    returns (published: set<string>)
    requires PlainPart(step) && Fresh(root.files, step) && Distinct(ids)
    modifies root
    ensures published == FirstPass(staged, clean, ids).Keys
    ensures Adds(old(root.files), root.files, step, FirstPass(staged, clean, ids))
  {
    ghost var before := root.files;
    ghost var docs: map<string, Document> := map[];
    published := {};
    var i := 0;
    while i < |ids|
      invariant 0 <= i <= |ids|
      invariant docs == FirstPass(staged, clean, ids[..i])
      invariant published == docs.Keys
      invariant Adds(before, root.files, step, docs)
    {
      var id := ids[i];
      FirstPassStep(staged, clean, ids, i);
      if FileName(id) in staged {
        var d := Sanitize(clean, id, staged[FileName(id)]);
        PublishOne(root, step, id, d, before, docs);
        docs := docs[id := d];
        published := published + {id};
      }
      i := i + 1;
    }
    assert ids[..i] == ids;
  }

  predicate FilledIn(paths: map<string, Ref>, first: map<string, Ref>, ids: set<string>) {
    && paths.Keys == first.Keys + ids
    && (forall id :: id in paths ==> paths[id] == if id in first then first[id] else TextRef(FileName(id)))
  }

  predicate Recorded(
    digests: map<string, DigestText>, first: map<string, DigestText>, docs: map<string, Document>, ids: set<string>)
    requires ids <= docs.Keys
  {
    && digests.Keys == first.Keys + ids
    && (forall id :: id in digests ==> digests[id] == if id in ids then Hex(Canonical(docs[id])) else first[id])
  }

  lemma FilledThenNamed(paths: map<string, Ref>, first: map<string, Ref>, ids: set<string>, own: string, ref: Ref)
    requires FilledIn(paths, first, ids + {own})
    ensures paths[own := ref] == (OwnNames(ids) + first)[own := ref]
  {
  }

  lemma RecordedAll(digests: map<string, DigestText>, first: map<string, DigestText>, docs: map<string, Document>)
    requires Recorded(digests, first, docs, docs.Keys)
    ensures digests == first + DigestsOf(docs)
  {
  }

  // The manifest as it is rewritten once all artifacts are in place.
  method CompleteManifest(
    root: PinnedRoot, step: string, first: Document, published: set<string>, ghost docs: map<string, Document>)
    returns (manifest: Document)
    requires published == docs.Keys + {MANIFEST} && MANIFEST !in docs
    requires forall id :: id in docs ==>
      StepFile(step, FileName(id)) in root.files && root.files[StepFile(step, FileName(id))] == docs[id]
    ensures manifest == Ledgered(first, docs)
  {
    var paths, digests := OrEmpty(first.paths), OrEmpty(first.digests);
    var pending := published;
    while pending != {}
      invariant pending <= published
      invariant FilledIn(paths, OrEmpty(first.paths), published - pending)
      invariant Recorded(digests, OrEmpty(first.digests), docs, docs.Keys - pending)
      decreases pending
    {
      var id :| id in pending;
      if id !in paths {
        paths := paths[id := TextRef(FileName(id))];
      }
      if id != MANIFEST {
        var payload := root.files[StepFile(step, FileName(id))];
        digests := digests[id := Hex(Canonical(payload))];
      }
      pending := pending - {id};
    }
    assert published - pending == published && docs.Keys - pending == docs.Keys;
    FilledThenNamed(paths, OrEmpty(first.paths), docs.Keys, MANIFEST, TextRef("run_manifest.json"));
    RecordedAll(digests, OrEmpty(first.digests), docs);
    paths := paths[MANIFEST := TextRef("run_manifest.json")];
    manifest := first.(paths := Some(paths), digests := Some(digests));
  }

  lemma FirstPassIsPublished(staged: Files, clean: Cleaner)
    ensures var docs := FirstPass(staged, clean, STEP_ARTIFACTS);
      && docs - {MANIFEST} == PublishedDocs(staged, clean)
      && (MANIFEST in docs <==> FileName(MANIFEST) in staged)
      && (MANIFEST in docs ==>
            && docs[MANIFEST] == Sanitize(clean, MANIFEST, staged[FileName(MANIFEST)])
            && docs[MANIFEST := PublishedManifest(staged, clean)] == PublishedStep(staged, clean))
      && (MANIFEST !in docs ==> docs == PublishedStep(staged, clean))
  {
    ArtifactIds();
    FirstPassHolds(staged, clean, STEP_ARTIFACTS);
  }

  method RewriteManifest(
    root: PinnedRoot, step: string, published: set<string>, ghost before: Files, ghost docs: map<string, Document>)
    requires PlainPart(step) && Fresh(before, step)
    requires Adds(before, root.files, step, docs)
    requires published == docs.Keys && MANIFEST in docs
    modifies root
    ensures Adds(before, root.files, step, docs[MANIFEST := Ledgered(docs[MANIFEST], docs - {MANIFEST})])
  {
    var first := root.files[StepFile(step, FileName(MANIFEST))];
    var manifest := CompleteManifest(root, step, first, published, docs - {MANIFEST});
    AddsOne(before, root.files, step, docs, MANIFEST, manifest);
    root.WriteAtomic(StepFile(step, FileName(MANIFEST)), manifest);
  }

  method PublishStep(root: PinnedRoot, step: string, staged: Files, clean: Cleaner)
    requires PlainPart(step) && Fresh(root.files, step)
    modifies root
    ensures Adds(old(root.files), root.files, step, PublishedStep(staged, clean))
  {
    ghost var before := root.files;
    ghost var docs := FirstPass(staged, clean, STEP_ARTIFACTS);
    ArtifactIds();
    var published := PublishFiles(root, step, staged, clean, STEP_ARTIFACTS);
    FirstPassIsPublished(staged, clean);
    if MANIFEST in published {
      RewriteManifest(root, step, published, before, docs);
    }
  }
}
