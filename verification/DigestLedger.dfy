/**
 * The two-level digest chain of an ADK workflow: what publishing a step and closing
 * the run record, and what the replay reader checks.
 */
module DigestLedger {
  import opened Common
  import opened PosixPath
  import opened TextOrder
  import DecimalText

  // The value of one entry of a JSON object.
  datatype Field =
    | Absent
    | Null
    | Text(text: string)
    | Integer(value: int)
    | Boolean(truth: bool)
    | Other(printed: string, truthy: bool)

  // A JSON document as far as the chain looks at it.  `paths` and `digests` are None unless
  // they are dictionaries; `body` stands for the rest.
  datatype Document = Document(
    caseId: Field, runId: Field, workflowId: Field,
    createdBy: Field, status: Field, toolId: Field, version: Field,
    paths: Option<map<string, Ref>>, digests: Option<map<string, DigestText>>, body: Body)

  datatype Ref = TextRef(text: string) | OtherRef(printed: string)

  // The canonical digest of a document; two documents never share one.
  datatype Digest = Canonical(document: Document)

  datatype DigestText = Hex(digest: Digest) | NotADigest

  type Body = seq<int>

  type Files = map<string, Document>

  const MANIFEST := "run_manifest"

  // The artifacts a step may publish; each is stored as `<id>.json`.
  const STEP_ARTIFACTS: seq<string> := [
    "validated_input", "case_input", "deterministic_result", "narrative_draft",
    "constitution_check", "review_packet", "run_manifest"
  ]

  const REPLAY_INPUTS: seq<string> := ["validated_input", "case_input", "deterministic_result"]

  function FileName(id: string): string {
    id + ".json"
  }

  function StepFile(step: string, name: string): string {
    step + ['/'] + name
  }

  function ManifestFile(step: string): string {
    StepFile(step, "run_manifest.json")
  }

  predicate InSome<T>(m: Option<map<string, T>>, id: string) {
    m.Some? && id in m.value
  }

  function OrEmpty<T>(m: Option<map<string, T>>): map<string, T> {
    if m.Some? then m.value else map[]
  }

  function RefText(r: Ref): string {
    match r
    case TextRef(text) => text
    case OtherRef(printed) => printed
  }

  // ------------------------------------------------------- reading a reference

  datatype ReplayError =
    | ArtifactMissing
    | DigestsMissing
    | DigestMissing
    | DigestMismatch
    | RefInvalid
    | SchemaInvalid
    | ProvenanceMismatch
    | RunMismatch
    | RootCaseMismatch
    | CaseMismatch
    | WorkflowMismatch
    | IdentityMismatch
    | ReplayMismatch
    | CompleteEvidenceMissing

  // An error of the digest chain itself.
  predicate ChainError(e: ReplayError) {
    e in {ArtifactMissing, DigestsMissing, DigestMissing, DigestMismatch, RefInvalid}
  }

  function ForwardSlashes(s: string): (r: string)
    ensures |r| == |s|
    ensures forall i :: 0 <= i < |s| ==> r[i] == if s[i] == '\\' then '/' else s[i]
  {
    seq(|s|, i requires 0 <= i < |s| => if s[i] == '\\' then '/' else s[i])
  }

  function JoinRef(base: string, r: Ref): Result<string, ReplayError> {
    if r.OtherRef? || r.text == "" then Err(RefInvalid)
    else
      var normalized := ForwardSlashes(r.text);
      if Absolute(normalized) || ".." in Parts(normalized) then Err(RefInvalid)
      else if '/' in normalized || base == "" then Ok(normalized)
      else Ok(base + ['/'] + normalized)
  }

  function RequireDigest(digests: map<string, DigestText>, id: string, d: Document): Option<ReplayError> {
    if id !in digests || digests[id].NotADigest? then Some(DigestMissing)
    else if digests[id] != Hex(Canonical(d)) then Some(DigestMismatch)
    else None
  }

  // One replay input, found through a manifest's path and checked against its ledger.
  function ReadVerified(files: Files, base: string, m: Document, id: string): Result<Document, ReplayError>
    requires InSome(m.paths, id) && m.digests.Some?
  {
    match JoinRef(base, m.paths.value[id])
    case Err(e) => Err(e)
    case Ok(path) =>
      if path !in files then Err(ArtifactMissing)
      else match RequireDigest(m.digests.value, id, files[path])
        case Some(e) => Err(e)
        case None => Ok(files[path])
  }

  // ------------------------------------------------------------ the replay reader

  datatype Entry = Entry(caseId: string, workflowId: string, runId: string)

  // Checks beyond manifests and digests: the provenance of the root manifest, the schemas
  // of the saved inputs and result, their identities, and the recalculation.
  datatype Checks = Checks(
    provenanceOk: Document -> bool,
    inputOk: Document -> bool,
    resultOk: Document -> bool,
    identityOk: (Document, Document, Document) -> bool,
    replayOk: (Document, Document) -> bool)

  datatype Candidate = Candidate(base: string, manifest: Document)

  datatype Evidence = Evidence(
    root: Document, manifest: Document, validatedInput: Document, caseInput: Document, savedResult: Document)

  // Text, if it is there at all.
  predicate TextIfAny(f: Field) {
    f.Absent? || f.Text?
  }

  // What every run manifest must look like to be read.
  predicate ManifestSchema(m: Document) {
    && m.caseId.Text? && m.runId.Text? && m.paths.Some?
    && TextIfAny(m.createdBy) && TextIfAny(m.status) && TextIfAny(m.toolId) && TextIfAny(m.workflowId)
    && (m.version.Absent? || m.version.Text? || m.version.Integer? || m.version.Boolean?)
  }

  // `str(value or fallback)`.
  function TextOr(f: Field, fallback: string): string {
    match f
    case Text(text) => if text == "" then fallback else text
    case Integer(value) => if value == 0 then fallback else DecimalText.IntText(value)
    case Boolean(truth) => if truth then "True" else fallback
    case Other(printed, truthy) => if truthy then printed else fallback
    case _ => fallback
  }

  // Why a root manifest is not the entry's.
  function RootError(entry: Entry, checks: Checks, root: Document): Option<ReplayError> {
    if !ManifestSchema(root) then Some(SchemaInvalid)
    else if !checks.provenanceOk(root) then Some(ProvenanceMismatch)
    else if TextOr(root.runId, "") != entry.runId then Some(RunMismatch)
    else if TextOr(root.caseId, "") != entry.caseId then Some(RootCaseMismatch)
    else None
  }

  predicate StepKey(id: string) {
    "step_" <= id && |id| >= 13 && id[|id| - 13..] == "_run_manifest"
  }

  // A key under which the root lists a step manifest.
  predicate Visited(root: Document, id: string) {
    StepKey(id) && InSome(root.paths, id) && root.paths.value[id].TextRef?
  }

  predicate Ascending(order: seq<string>) {
    forall i, j :: 0 <= i < j < |order| ==> Before(order[i], order[j])
  }

  // The keys the reader visits, each once, in ascending order.
  ghost predicate Visits(root: Document, order: seq<string>) {
    Ascending(order) && forall id :: id in order <==> Visited(root, id)
  }

  predicate AllVisited(root: Document, order: seq<string>) {
    forall i :: 0 <= i < |order| ==> Visited(root, order[i])
  }

  function StepCandidate(files: Files, root: Document, id: string): Result<Candidate, ReplayError>
    requires Visited(root, id) && root.digests.Some?
  {
    var path := root.paths.value[id].text;
    if path !in files then Err(ArtifactMissing)
    else if !ManifestSchema(files[path]) then Err(SchemaInvalid)
    else match RequireDigest(root.digests.value, id, files[path])
      case Some(e) => Err(e)
      case None => Ok(Candidate(ParentBase(ForwardSlashes(path)), files[path]))
  }

  function Candidates(files: Files, root: Document, order: seq<string>): Result<seq<Candidate>, ReplayError>
    requires root.digests.Some? && AllVisited(root, order)
  {
    if order == [] then Ok(if InSome(root.paths, "deterministic_result") then [Candidate("", root)] else [])
    else
      match Candidates(files, root, order[..|order| - 1])
      case Err(e) => Err(e)
      case Ok(before) =>
        match StepCandidate(files, root, order[|order| - 1])
        case Err(e) => Err(e)
        case Ok(c) => Ok(before + [c])
  }

  predicate Complete(m: Document) {
    InSome(m.paths, "validated_input") && InSome(m.paths, "case_input") && InSome(m.paths, "deterministic_result")
  }

  // None passes on to the next candidate.
  function Judge(files: Files, entry: Entry, checks: Checks, root: Document, c: Candidate)
    : Option<Result<Evidence, ReplayError>>
  {
    var m := c.manifest;
    if TextOr(m.caseId, entry.caseId) != entry.caseId then Some(Err(CaseMismatch))
    else if TextOr(m.workflowId, entry.workflowId) != entry.workflowId then Some(Err(WorkflowMismatch))
    else if !Complete(m) then None
    else if m.digests.None? then Some(Err(DigestsMissing))
    else
      match ReadVerified(files, c.base, m, "validated_input")
      case Err(e) => Some(Err(e))
      case Ok(input) =>
        match ReadVerified(files, c.base, m, "case_input")
        case Err(e) => Some(Err(e))
        case Ok(caseInput) =>
          match ReadVerified(files, c.base, m, "deterministic_result")
          case Err(e) => Some(Err(e))
          case Ok(saved) =>
            if !checks.inputOk(input) || !checks.resultOk(saved) then Some(Err(SchemaInvalid))
            else if !checks.identityOk(input, caseInput, saved) then Some(Err(IdentityMismatch))
            else if !checks.replayOk(caseInput, saved) then Some(Err(ReplayMismatch))
            else Some(Ok(Evidence(root, m, input, caseInput, saved)))
  }

  function FirstJudgement(files: Files, entry: Entry, checks: Checks, root: Document, cs: seq<Candidate>)
    : Result<Evidence, ReplayError>
  {
    if cs == [] then Err(CompleteEvidenceMissing)
    else match Judge(files, entry, checks, root, cs[0])
      case Some(r) => r
      case None => FirstJudgement(files, entry, checks, root, cs[1..])
  }

  // The whole reader.
  function Replay(files: Files, entry: Entry, checks: Checks, order: seq<string>): Result<Evidence, ReplayError>
    requires "run_manifest.json" in files ==> AllVisited(files["run_manifest.json"], order)
  {
    if "run_manifest.json" !in files then Err(ArtifactMissing)
    else
      var root := files["run_manifest.json"];
      match RootError(entry, checks, root)
      case Some(e) => Err(e)
      case None =>
        if root.digests.None? then Err(DigestsMissing)
        else match Candidates(files, root, order)
          case Err(e) => Err(e)
          case Ok(cs) => FirstJudgement(files, entry, checks, root, cs)
  }

  method ReplayEvidence(files: Files, entry: Entry, checks: Checks, order: seq<string>)
    returns (r: Result<Evidence, ReplayError>)
    requires "run_manifest.json" in files ==> Visits(files["run_manifest.json"], order)
    ensures r == Replay(files, entry, checks, order)
  {
    if "run_manifest.json" !in files {
      return Err(ArtifactMissing);
    }
    var root := files["run_manifest.json"];
    var refused := RootError(entry, checks, root);
    if refused.Some? {
      return Err(refused.value);
    }
    if root.digests.None? {
      return Err(DigestsMissing);
    }
    var candidates: seq<Candidate> := [];
    if InSome(root.paths, "deterministic_result") {
      candidates := [Candidate("", root)];
    }
    var i := 0;
    while i < |order|
      invariant 0 <= i <= |order|
      invariant Candidates(files, root, order[..i]) == Ok(candidates)
    {
      CandidatesStep(files, root, order, i);
      var c := StepCandidate(files, root, order[i]);
      if c.Err? {
        CandidatesFail(files, root, order, i + 1);
        return Err(c.error);
      }
      candidates := candidates + [c.value];
      i := i + 1;
    }
    assert order[..i] == order;
    i := 0;
    while i < |candidates|
      invariant 0 <= i <= |candidates|
      invariant FirstJudgement(files, entry, checks, root, candidates) ==
                FirstJudgement(files, entry, checks, root, candidates[i..])
    {
      var verdict := Judge(files, entry, checks, root, candidates[i]);
      if verdict.Some? {
        return verdict.value;
      }
      assert candidates[i..][1..] == candidates[i + 1..];
      i := i + 1;
    }
    r := Err(CompleteEvidenceMissing);
  }

  lemma CandidatesStep(files: Files, root: Document, order: seq<string>, i: nat)
    requires root.digests.Some? && i < |order| && AllVisited(root, order)
    ensures Candidates(files, root, order[..i + 1]) ==
      match Candidates(files, root, order[..i])
      case Err(e) => Err(e)
      case Ok(before) =>
        match StepCandidate(files, root, order[i])
        case Err(e) => Err(e)
        case Ok(c) => Ok(before + [c])
  {
    assert order[..i + 1][..i] == order[..i];
  }

  // An error among the first visits is the error of all of them.
  lemma {:induction false} CandidatesFail(files: Files, root: Document, order: seq<string>, i: nat)
    requires root.digests.Some? && i <= |order| && AllVisited(root, order)
    requires Candidates(files, root, order[..i]).Err?
    ensures Candidates(files, root, order) == Candidates(files, root, order[..i])
    decreases |order| - i
  {
    if i == |order| {
      assert order[..i] == order;
    } else {
      CandidatesStep(files, root, order, i);
      CandidatesFail(files, root, order, i + 1);
    }
  }

  // ------------------------------------------------------------------ the one order

  // The order of visits exists and is the only one.
  lemma VisitsExist(root: Document) returns (order: seq<string>)
    ensures Visits(root, order)
  {
    var keys := if root.paths.None? then {} else set id | id in root.paths.value && Visited(root, id);
    order := OrderOf(keys);
  }

  lemma {:induction false} OrderOf(keys: set<string>) returns (order: seq<string>)
    ensures Ascending(order) && forall id :: id in order <==> id in keys
  {
    if keys == {} {
      order := [];
    } else {
      var id :| id in keys;
      var rest := OrderOf(keys - {id});
      order := PlaceIn(id, rest);
    }
  }

  lemma {:induction false} PlaceIn(id: string, rest: seq<string>) returns (order: seq<string>)
    requires Ascending(rest) && id !in rest
    ensures Ascending(order) && forall k :: k in order <==> k == id || k in rest
  {
    if rest == [] {
      order := [id];
    } else if Before(id, rest[0]) {
      forall j | 0 < j < |rest|
        ensures Before(id, rest[j])
      {
        BeforeTransitive(id, rest[0], rest[j]);
      }
      order := [id] + rest;
    } else {
      BeforeTotal(id, rest[0]);
      var tail := PlaceIn(id, rest[1..]);
      forall j | 0 <= j < |tail|
        ensures Before(rest[0], tail[j])
      {
        assert tail[j] in tail;
      }
      order := [rest[0]] + tail;
    }
  }

  lemma VisitsUnique(root: Document, one: seq<string>, other: seq<string>)
    requires Visits(root, one) && Visits(root, other)
    ensures one == other
  {
    AscendingUnique(one, other);
  }

  lemma FirstMember(s: seq<string>)
    requires s != []
    ensures s[0] in s
  {
  }

  lemma {:induction false} AscendingUnique(one: seq<string>, other: seq<string>)
    requires Ascending(one) && Ascending(other) && forall id :: id in one <==> id in other
    ensures one == other
  {
    if one == [] {
      if other != [] {
        FirstMember(other);
      }
    } else {
      assert one[0] in other;
      assert other[0] in one;
      BeforeTotal(one[0], other[0]);
      assert one[0] == other[0];
      forall id
        ensures id in one[1..] <==> id in other[1..]
      {
        BeforeTotal(one[0], one[0]);
        assert id in one <==> id == one[0] || id in one[1..];
        assert id in other <==> id == other[0] || id in other[1..];
      }
      AscendingUnique(one[1..], other[1..]);
    }
  }
}
