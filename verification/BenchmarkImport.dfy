/**
 * Importing a benchmark result as a review item: a snapshot by rename, then a run entry,
 * then a review.  The process may stop between any two of these durable writes.
 */
module BenchmarkImport {
  import opened Common
  import opened DecimalText
  import opened HexDigests
  import opened PosixPath
  import opened Utf8
  import opened Submission
  import opened Snapshot
  import opened SnapshotWriter

  // -------------------------------------------------------------------- durable state

  // A destination directory: artifact root, case and run.
  datatype Place = Place(root: string, caseId: string, runId: string)

  datatype RunEntry = RunEntry(
    caseId: string, status: string, evidence: Option<string>, place: Option<Place>,
    operatorId: string, workspaceId: string)

  datatype Review = Review(
    runId: string, caseId: string, status: string, reasons: Value,
    assignedTo: Value, workspaceId: Value, packet: Record)

  datatype Stores = Stores(
    snapshots: map<Place, Directory>, runs: map<string, RunEntry>, reviews: map<string, Review>)

  // ------------------------------------------------------------------------- requests

  // What verifying the evaluation manifest yields; the facts fill the review documents.
  datatype Bundle = Bundle(
    evaluationId: string, defaultCaseId: string, sources: Sources, components: seq<Component>,
    inputFacts: Record, resultFacts: Record, narrativeFacts: Record, constitutionFacts: Record,
    packetFacts: Record, manifestFacts: Record)

  datatype Caller = Caller(operatorId: string, workspaceId: string)

  // A bundle of None: the manifest or the files it names were refused.
  datatype Request = Request(bundle: Option<Bundle>, root: string, caseId: string, caller: Caller, now: string)

  // What the importer calls: its checker, its writer, and the reader of a review packet.
  datatype Tools = Tools(
    check: (Option<Directory>, string, string, string) -> Option<map<string, string>>,
    write: Draft -> (Directory, map<string, string>),
    packet: (Directory, map<string, string>) -> Option<Record>,
    render: Record -> Bytes,
    sha: Bytes -> HexDigest)

  function Verdict(dir: Option<Directory>, lib: Library, caseId: string, runId: string, evidence: string)
    : Option<map<string, string>>
  {
    if Valid(dir, lib, caseId, runId, evidence) then Some(RecordedPaths(dir, lib, caseId, runId, evidence)) else None
  }

  function ToolsOf(lib: Library, render: Record -> Bytes): Tools {
    Tools(
      (dir: Option<Directory>, caseId: string, runId: string, evidence: string) =>
        Verdict(dir, lib, caseId, runId, evidence),
      (d: Draft) => (SnapshotOf(lib, d), PathsOf(Artifacts(lib, d))),
      (dir: Directory, paths: map<string, string>) => PacketIn(lib, dir, paths),
      render,
      lib.sha)
  }

  predicate SafeChar(c: char) {
    IsDigit(c) || 'a' <= c <= 'z' || 'A' <= c <= 'Z' || c in "._-"
  }

  predicate SafeComponent(s: string) {
    s != "" && s != "." && s != ".." && forall i :: 0 <= i < |s| ==> SafeChar(s[i])
  }

  function RunId(b: Bundle): string {
    "benchmark-" + b.evaluationId
  }

  function CaseOf(r: Request): string
    requires r.bundle.Some?
  {
    if r.caseId != "" then r.caseId else r.bundle.value.defaultCaseId
  }

  function EvidenceOf(t: Tools, b: Bundle): HexDigest {
    t.sha(b.sources.manifest)
  }

  function ReviewId(runId: string): string {
    "review-" + runId
  }

  const REVIEW_REASONS: Value := List([
    Text("human_code_review_required"),
    Text("actuarial_rule_review_required"),
    Text("production_promotion_not_approved")])

  function Stamped(facts: Record, caseId: string, runId: string): Record {
    facts["case_id" := Text(caseId)]["run_id" := Text(runId)]
  }

  function PacketOf(b: Bundle, caseId: string, caller: Caller): Record {
    Stamped(b.packetFacts, caseId, RunId(b))[
      "status" := Text("review_required")][
      "assigned_to" := Text(caller.operatorId)][
      "workspace_id" := Text(caller.workspaceId)][
      "review_reasons" := REVIEW_REASONS]
  }

  function DraftOf(t: Tools, b: Bundle, caseId: string, caller: Caller, now: string): Draft {
    var (run, packet) := (RunId(b), PacketOf(b, caseId, caller));
    Draft(caseId, run, b.sources,
      Reports(
        Stamped(b.inputFacts, caseId, run), Stamped(b.resultFacts, caseId, run),
        Stamped(b.narrativeFacts, caseId, run), Stamped(b.constitutionFacts, caseId, run),
        packet, t.render(packet)),
      b.components, b.manifestFacts["imported_at_utc" := Text(now)])
  }

  function EntryOf(t: Tools, b: Bundle, place: Place, caller: Caller): RunEntry {
    RunEntry(place.caseId, "needs_review", Some(EvidenceOf(t, b)), Some(place), caller.operatorId, caller.workspaceId)
  }

  // ------------------------------------------------------------------------- one import

  datatype ImportError =
    | NotVerified
    | UnsafeName
    | DifferentEvidence
    | NoArtifactRoot
    | SnapshotRefused
    | PacketUnreadable
    | ReviewIdTaken

  datatype Outcome =
    | Imported(caseId: string)
    | AlreadyImported(caseId: string)
    | Failed(error: ImportError)
    | Stopped

  predicate HasReview(reviews: map<string, Review>, runId: string) {
    exists id :: id in reviews && reviews[id].runId == runId
  }

  function PacketIn(lib: Library, dir: Directory, paths: map<string, string>): Option<Record> {
    if "review_packet" !in paths || SafePosixPath(paths["review_packet"]).Err? then None
    else
      var path := SafePosixPath(paths["review_packet"]).value;
      if path !in dir then None else lib.load(dir[path])
  }

  // `packet.get(key) or fallback`.
  function Or(packet: Record, key: string, fallback: Value): Value {
    if key in packet && Truthy(packet[key]) then packet[key] else fallback
  }

  function ReviewOf(runId: string, caseId: string, caller: Caller, packet: Record): Review {
    Review(runId, caseId, "review_required", Or(packet, "review_reasons", REVIEW_REASONS),
      Or(packet, "assigned_to", Text(caller.operatorId)), Or(packet, "workspace_id", Text(caller.workspaceId)), packet)
  }

  // `budget` is how many more durable writes happen before the process stops.
  function EnsureReview(
    s: Stores, t: Tools, dir: Directory, paths: map<string, string>, runId: string, caseId: string,
    caller: Caller, done: Outcome, budget: nat): (Stores, Outcome)
  {
    if HasReview(s.reviews, runId) then (s, done)
    else
      match t.packet(dir, paths)
      case None => (s, Failed(PacketUnreadable))
      case Some(packet) =>
        if ReviewId(runId) in s.reviews then (s, Failed(ReviewIdTaken))
        else if budget == 0 then (s, Stopped)
        else (s.(reviews := s.reviews[ReviewId(runId) := ReviewOf(runId, caseId, caller, packet)]), done)
  }

  function SnapshotAt(s: Stores, place: Place): Option<Directory> {
    if place in s.snapshots then Some(s.snapshots[place]) else None
  }

  function OrElse(text: string, fallback: string): string {
    if text == "" then fallback else text
  }

  // The run id is registered already.
  function Resume(s: Stores, t: Tools, r: Request, budget: nat): (Stores, Outcome)
    requires r.bundle.Some? && RunId(r.bundle.value) in s.runs
  {
    var b := r.bundle.value;
    var (runId, evidence) := (RunId(b), EvidenceOf(t, b));
    var entry := s.runs[runId];
    if entry.evidence != Some(evidence) then (s, Failed(DifferentEvidence))
    else if entry.place.None? then (s, Failed(NoArtifactRoot))
    else
      var dir := SnapshotAt(s, entry.place.value);
      var verdict := t.check(dir, entry.caseId, runId, evidence);
      if dir.None? || verdict.None? then (s, Failed(SnapshotRefused))
      else
        EnsureReview(s, t, dir.value, verdict.value, runId, entry.caseId, Resumer(entry, r),
          AlreadyImported(entry.caseId), budget)
  }

  function Resumer(entry: RunEntry, r: Request): Caller {
    Caller(OrElse(entry.operatorId, r.caller.operatorId), OrElse(entry.workspaceId, r.caller.workspaceId))
  }

  function Register(
    s: Stores, t: Tools, r: Request, place: Place, paths: map<string, string>, budget: nat): (Stores, Outcome)
    requires r.bundle.Some? && place in s.snapshots
  {
    if budget == 0 then (s, Stopped)
    else
      var b := r.bundle.value;
      EnsureReview(s.(runs := s.runs[RunId(b) := EntryOf(t, b, place, r.caller)]), t, s.snapshots[place], paths,
        RunId(b), place.caseId, r.caller, Imported(place.caseId), budget - 1)
  }

  function Publish(s: Stores, t: Tools, r: Request, budget: nat): (Stores, Outcome)
    requires r.bundle.Some?
  {
    var b := r.bundle.value;
    var place := Place(r.root, CaseOf(r), RunId(b));
    if place in s.snapshots then
      match t.check(Some(s.snapshots[place]), place.caseId, place.runId, EvidenceOf(t, b))
      case None => (s, Failed(SnapshotRefused))
      case Some(paths) => Register(s, t, r, place, paths, budget)
    else if budget == 0 then (s, Stopped)
    else
      var (dir, paths) := t.write(DraftOf(t, b, CaseOf(r), r.caller, r.now));
      Register(s.(snapshots := s.snapshots[place := dir]), t, r, place, paths, budget - 1)
  }

  // One import that stops after `budget` durable writes; three are always enough.
  function Import(s: Stores, t: Tools, r: Request, budget: nat): (Stores, Outcome) {
    if r.bundle.None? then (s, Failed(NotVerified))
    else if !SafeComponent(r.bundle.value.evaluationId) || !SafeComponent(RunId(r.bundle.value)) ||
            !SafeComponent(CaseOf(r)) then (s, Failed(UnsafeName))
    else if RunId(r.bundle.value) in s.runs then Resume(s, t, r, budget)
    else Publish(s, t, r, budget)
  }

  // ---------------------------------------------------------------------- the importer

  class Importer {
    var snapshots: map<Place, Directory>
    var runs: map<string, RunEntry>
    var reviews: map<string, Review>

    constructor ()
      ensures View() == Stores(map[], map[], map[])
    {
      snapshots, runs, reviews := map[], map[], map[];
    }

    function View(): Stores
      reads this
    {
      Stores(snapshots, runs, reviews)
    }

    method FindReview(runId: string) returns (found: bool)
      ensures found == HasReview(reviews, runId)
    {
      found := false;
      var pending := reviews.Keys;
      while pending != {} && !found
        invariant pending <= reviews.Keys
        invariant found ==> HasReview(reviews, runId)
        invariant !found ==> forall id :: id in reviews && id !in pending ==> reviews[id].runId != runId
        decreases |pending|
      {
        var id :| id in pending;
        found := reviews[id].runId == runId;
        pending := pending - {id};
      }
    }

    method EnsureImportReview(
      lib: Library, render: Record -> Bytes, dir: Directory, paths: map<string, string>, runId: string,
      caseId: string, caller: Caller, done: Outcome, budget: nat) returns (outcome: Outcome)
      modifies this`reviews
      ensures (View(), outcome) ==
              EnsureReview(old(View()), ToolsOf(lib, render), dir, paths, runId, caseId, caller, done, budget)
    {
      var found := FindReview(runId);
      if found {
        return done;
      }
      var packet := PacketIn(lib, dir, paths);
      if packet.None? {
        return Failed(PacketUnreadable);
      }
      if ReviewId(runId) in reviews {
        return Failed(ReviewIdTaken);
      }
      if budget == 0 {
        return Stopped;
      }
      reviews := reviews[ReviewId(runId) := ReviewOf(runId, caseId, caller, packet.value)];
      outcome := done;
    }

    // Stops after `budget` durable writes.
    method ImportBenchmarkReview(lib: Library, render: Record -> Bytes, r: Request, budget: nat)
      returns (outcome: Outcome)
      modifies this
      ensures (View(), outcome) == Import(old(View()), ToolsOf(lib, render), r, budget)
    {
      if r.bundle.None? {
        return Failed(NotVerified);
      }
      var b := r.bundle.value;
      var (runId, caseId) := (RunId(b), CaseOf(r));
      if !SafeComponent(b.evaluationId) || !SafeComponent(runId) || !SafeComponent(caseId) {
        return Failed(UnsafeName);
      }
      if runId in runs {
        outcome := ResumeImport(lib, render, r, budget);
      } else {
        outcome := PublishImport(lib, render, r, budget);
      }
    }

    method ResumeImport(lib: Library, render: Record -> Bytes, r: Request, budget: nat) returns (outcome: Outcome)
      requires r.bundle.Some? && RunId(r.bundle.value) in runs
      modifies this`reviews
      ensures (View(), outcome) == Resume(old(View()), ToolsOf(lib, render), r, budget)
    {
      var b := r.bundle.value;
      var (runId, evidence) := (RunId(b), lib.sha(b.sources.manifest));
      var entry := runs[runId];
      if entry.evidence != Some(evidence) {
        return Failed(DifferentEvidence);
      }
      if entry.place.None? {
        return Failed(NoArtifactRoot);
      }
      var dir := SnapshotAt(View(), entry.place.value);
      var verified := VerifyImportSnapshot(dir, lib, entry.caseId, runId, evidence);
      if verified.Err? {
        return Failed(SnapshotRefused);
      }
      outcome := EnsureImportReview(lib, render, dir.value, verified.value, runId, entry.caseId,
        Resumer(entry, r), AlreadyImported(entry.caseId), budget);
    }

    method PublishImport(lib: Library, render: Record -> Bytes, r: Request, budget: nat) returns (outcome: Outcome)
      requires r.bundle.Some?
      modifies this
      ensures (View(), outcome) == Publish(old(View()), ToolsOf(lib, render), r, budget)
    {
      var b, t := r.bundle.value, ToolsOf(lib, render);
      var place := Place(r.root, CaseOf(r), RunId(b));
      var paths: map<string, string>;
      var left := budget;
      if place in snapshots {
        var verified := VerifyImportSnapshot(
          Some(snapshots[place]), lib, place.caseId, place.runId, lib.sha(b.sources.manifest));
        if verified.Err? {
          return Failed(SnapshotRefused);
        }
        paths := verified.value;
      } else {
        var dir;
        dir, paths := WriteSnapshot(lib, DraftOf(t, b, CaseOf(r), r.caller, r.now));
        if left == 0 {
          return Stopped;
        }
        snapshots := snapshots[place := dir];
        left := left - 1;
      }
      outcome := RegisterImport(lib, render, r, place, paths, left);
    }

    method RegisterImport(
      lib: Library, render: Record -> Bytes, r: Request, place: Place, paths: map<string, string>, budget: nat)
      returns (outcome: Outcome)
      requires r.bundle.Some? && place in snapshots
      modifies this`runs, this`reviews
      ensures (View(), outcome) == Register(old(View()), ToolsOf(lib, render), r, place, paths, budget)
    {
      if budget == 0 {
        return Stopped;
      }
      var runId := RunId(r.bundle.value);
      runs := runs[runId := EntryOf(ToolsOf(lib, render), r.bundle.value, place, r.caller)];
      outcome := EnsureImportReview(lib, render, snapshots[place], paths, runId, place.caseId,
        r.caller, Imported(place.caseId), budget - 1);
    }
  }
}
