/** What a first import leaves behind, spelled out from the request. */
module ImportFacts {
  import opened Common
  import opened DecimalText
  import opened PosixPath
  import opened Snapshot
  import opened SnapshotWriter
  import opened BenchmarkImport
  import opened ImportLaws
  import opened ImportRuns

  // A request names `c`: the requested case, or the bundle's own when none is requested.
  predicate NamesCase(r: Request, b: Bundle, c: string) {
    r.bundle == Some(b) && ((r.caseId == c && c != "") || (r.caseId == "" && b.defaultCaseId == c))
  }

  predicate SafeRequest(b: Bundle, c: string) {
    SafeComponent(b.evaluationId) && SafeComponent("benchmark-" + b.evaluationId) && SafeComponent(c)
  }

  // The characters a name may hold, by their codes: digits, capitals, small letters, - . _
  lemma SafeCodes(c: char)
    ensures var code := c as int;
      SafeChar(c) <==> 48 <= code <= 57 || 65 <= code <= 90 || 97 <= code <= 122 || code == 45 || code == 46 || code == 95
  {
  }

  // A component of its own: it leads neither up nor down nor anywhere else.
  lemma SafeComponentExactly(s: string)
    ensures SafeComponent(s) <==> PlainPart(s) && s != ".." && forall i :: 0 <= i < |s| ==> SafeChar(s[i])
    ensures SafeComponent(s) ==> Parts(s) == [s] && '\\' !in s
  {
    if SafeComponent(s) {
      assert forall i :: 0 <= i < |s| ==> SafeChar(s[i]) && s[i] != '/' && s[i] != '\\';
      PartsOfPiece(s, [], []);
      assert s + [] == s && [] + s == s;
    }
  }

  /** An unsafe name is refused before anything is read or written. */
  lemma UnsafeRefused(s: Stores, t: Tools, r: Request, b: Bundle, c: string, budget: nat)
    requires NamesCase(r, b, c)
    ensures !SafeRequest(b, c) <==> Import(s, t, r, budget) == (s, Failed(UnsafeName))
  {
  }

  const PACKET_ENTRIES: set<string> :=
    {"case_id", "run_id", "status", "assigned_to", "workspace_id", "review_reasons"}

  // The packet offered for review.
  predicate PacketFor(packet: Record, b: Bundle, c: string, caller: Caller) {
    && packet.Keys == b.packetFacts.Keys + PACKET_ENTRIES
    && packet["case_id"] == Text(c) && packet["run_id"] == Text("benchmark-" + b.evaluationId)
    && packet["status"] == Text("review_required")
    && packet["assigned_to"] == Text(caller.operatorId) && packet["workspace_id"] == Text(caller.workspaceId)
    && packet["review_reasons"] == REVIEW_REASONS
    && forall key :: key in b.packetFacts && key !in PACKET_ENTRIES ==> packet[key] == b.packetFacts[key]
  }

  lemma PacketSpelled(b: Bundle, c: string, caller: Caller)
    ensures PacketFor(PacketOf(b, c, caller), b, c, caller)
  {
    assert |"case_id"| == 7 && |"run_id"| == 6 && |"status"| == 6 && |"assigned_to"| == 11;
    assert |"workspace_id"| == 12 && |"review_reasons"| == 14 && "run_id"[0] == 'r' && "status"[0] == 's';
  }

  // A document of the review, stamped with the case and the run and otherwise as given.
  predicate StampedFor(doc: Record, facts: Record, b: Bundle, c: string) {
    && doc.Keys == facts.Keys + {"case_id", "run_id"}
    && doc["case_id"] == Text(c) && doc["run_id"] == Text("benchmark-" + b.evaluationId)
    && forall key :: key in facts && key != "case_id" && key != "run_id" ==> doc[key] == facts[key]
  }

  lemma StampedSpelled(facts: Record, b: Bundle, c: string)
    ensures StampedFor(Stamped(facts, c, RunId(b)), facts, b, c)
  {
    assert |"case_id"| == 7 && |"run_id"| == 6;
  }

  // What the snapshot of a first import is written from.
  predicate DraftFor(d: Draft, t: Tools, b: Bundle, c: string, caller: Caller, now: string) {
    && d.caseId == c && d.runId == "benchmark-" + b.evaluationId
    && d.sources == b.sources && d.components == b.components
    && StampedFor(d.reports.validatedInput, b.inputFacts, b, c)
    && StampedFor(d.reports.deterministicResult, b.resultFacts, b, c)
    && StampedFor(d.reports.narrativeDraft, b.narrativeFacts, b, c)
    && StampedFor(d.reports.constitutionCheck, b.constitutionFacts, b, c)
    && PacketFor(d.reports.reviewPacket, b, c, caller)
    && d.reports.reviewMarkdown == t.render(d.reports.reviewPacket)
    && d.rest == b.manifestFacts["imported_at_utc" := Text(now)]
  }

  lemma DraftSpelled(t: Tools, b: Bundle, c: string, caller: Caller, now: string)
    ensures DraftFor(DraftOf(t, b, c, caller, now), t, b, c, caller, now)
  {
    StampedSpelled(b.inputFacts, b, c);
    StampedSpelled(b.resultFacts, b, c);
    StampedSpelled(b.narrativeFacts, b, c);
    StampedSpelled(b.constitutionFacts, b, c);
    PacketSpelled(b, c, caller);
  }

  // The review of a first import.
  predicate ReviewFor(review: Review, b: Bundle, c: string, caller: Caller) {
    && review.runId == "benchmark-" + b.evaluationId && review.caseId == c && review.status == "review_required"
    && review.reasons == REVIEW_REASONS
    && review.assignedTo == Text(caller.operatorId) && review.workspaceId == Text(caller.workspaceId)
    && PacketFor(review.packet, b, c, caller)
  }

  lemma ReviewSpelled(b: Bundle, c: string, caller: Caller)
    ensures ReviewFor(ReviewOf(RunId(b), c, caller, PacketOf(b, c, caller)), b, c, caller)
  {
    PacketSpelled(b, c, caller);
  }

  lemma CaseIs(r: Request, b: Bundle, c: string)
    requires NamesCase(r, b, c)
    ensures CaseOf(r) == c && Target(r) == Place(r.root, c, "benchmark-" + b.evaluationId)
  {
  }

  // A review takes from its packet what is there, and otherwise a default.
  lemma ReviewDefaults(runId: string, caseId: string, caller: Caller, packet: Record)
    ensures var review := ReviewOf(runId, caseId, caller, packet);
      && review.runId == runId && review.caseId == caseId && review.packet == packet
      && (forall who :: Snapshot.At(packet, "assigned_to") == Some(Text(who)) ==>
            review.assignedTo == Text(if who == "" then caller.operatorId else who))
      && (Snapshot.At(packet, "assigned_to") == None ==> review.assignedTo == Text(caller.operatorId))
      && (forall space :: Snapshot.At(packet, "workspace_id") == Some(Text(space)) ==>
            review.workspaceId == Text(if space == "" then caller.workspaceId else space))
      && (Snapshot.At(packet, "workspace_id") == None ==> review.workspaceId == Text(caller.workspaceId))
      && (forall reasons :: Snapshot.At(packet, "review_reasons") == Some(List(reasons)) ==>
            review.reasons == if reasons == [] then REVIEW_REASONS else List(reasons))
      && (Snapshot.At(packet, "review_reasons") == None ==> review.reasons == REVIEW_REASONS)
  {
  }

  function FirstEntry(t: Tools, b: Bundle, place: Place, caller: Caller): RunEntry {
    RunEntry(place.caseId, "needs_review", Some(t.sha(b.sources.manifest)), Some(place),
      caller.operatorId, caller.workspaceId)
  }

  lemma AtSpelled(s: Stores, t: Tools, r: Request, b: Bundle, place: Place, d: Draft, review: Review)
    requires d == DraftOf(t, b, place.caseId, r.caller, r.now)
    requires review == ReviewOf(place.runId, place.caseId, r.caller, PacketOf(b, place.caseId, r.caller))
    ensures ImportRuns.At(s, t, b, place, Progress(3, r, r.caller, r.caller)) == Stores(
      s.snapshots[place := t.write(d).0],
      s.runs[place.runId := FirstEntry(t, b, place, r.caller)],
      s.reviews["review-" + place.runId := review])
  {
    assert Filled(r.caller, r.caller) == r.caller;
  }

  /**
   * A first import that is not interrupted reports the case the request names, and files the
   * snapshot, the run entry and the review under that case.
   */
  lemma FirstImport(s: Stores, t: Tools, r: Request, b: Bundle, c: string, place: Place) returns (d: Draft, review: Review)
    requires Agrees(t) && Inv(s, t) && NamesCase(r, b, c) && SafeRequest(b, c) && Importable(b.components)
    requires place == Place(r.root, c, "benchmark-" + b.evaluationId)
    requires place.runId !in s.runs && place !in s.snapshots
    ensures DraftFor(d, t, b, c, r.caller, r.now) && ReviewFor(review, b, c, r.caller)
    ensures Import(s, t, r, 3) ==
      (Stores(
        s.snapshots[place := t.write(d).0],
        s.runs[place.runId := RunEntry(c, "needs_review", Some(t.sha(b.sources.manifest)), Some(place),
          r.caller.operatorId, r.caller.workspaceId)],
        s.reviews["review-" + place.runId := review]),
       Imported(c))
  {
    CaseIs(r, b, c);
    d := DraftOf(t, b, c, r.caller, r.now);
    review := ReviewOf(place.runId, c, r.caller, PacketOf(b, c, r.caller));
    DraftSpelled(t, b, c, r.caller, r.now);
    ReviewSpelled(b, c, r.caller);
    UncutImport(s, t, b, place, r);
    AtSpelled(s, t, r, b, place, d, review);
  }
}
