/** What every import keeps, wherever it stops. */
module ImportLaws {
  import opened Common
  import opened HexDigests
  import opened Utf8
  import opened Submission
  import opened Snapshot
  import opened SnapshotWriter
  import opened BenchmarkImport

  // ----------------------------------------------- the checker agrees with the writer

  // A snapshot just written is accepted for its own case, run and evidence and no other,
  // and offers the review packet it was given.
  ghost predicate AgreesOn(t: Tools, d: Draft) {
    && (forall caseId, runId, evidence ::
          t.check(Some(t.write(d).0), caseId, runId, evidence) ==
          if caseId == d.caseId && runId == d.runId && evidence == t.sha(d.sources.manifest)
          then Some(t.write(d).1) else None)
    && t.packet(t.write(d).0, t.write(d).1) == Some(d.reports.reviewPacket)
  }

  ghost predicate Agrees(t: Tools) {
    forall d: Draft :: Importable(d.components) ==> AgreesOn(t, d)
  }

  lemma PacketIsThere(lib: Library, d: Draft)
    requires RoundTrips(lib) && Importable(d.components)
    ensures PacketIn(lib, SnapshotOf(lib, d), PathsOf(Artifacts(lib, d))) == Some(d.reports.reviewPacket)
  {
    var artifacts := Artifacts(lib, d);
    AllListable(lib, d);
    assert artifacts[4] == BaseArtifacts(lib, d)[4];
    assert artifacts[4].id == "review_packet" && artifacts[4].content == lib.dump(d.reports.reviewPacket);
    ListingHolds(lib, artifacts, 4);
    SafeJoined(artifacts[4].parts);
  }

  lemma VerdictOnWritten(lib: Library, d: Draft, caseId: string, runId: string, evidence: string)
    requires RoundTrips(lib) && Importable(d.components)
    ensures Verdict(Some(SnapshotOf(lib, d)), lib, caseId, runId, evidence) ==
            if caseId == d.caseId && runId == d.runId && evidence == lib.sha(d.sources.manifest)
            then Some(PathsOf(Artifacts(lib, d))) else None
  {
    WrittenIsValid(lib, d);
    ManifestEntries(lib, d, Artifacts(lib, d));
  }

  lemma ToolsAgree(lib: Library, render: Record -> Bytes)
    requires RoundTrips(lib)
    ensures Agrees(ToolsOf(lib, render))
  {
    var t := ToolsOf(lib, render);
    forall d: Draft | Importable(d.components)
      ensures AgreesOn(t, d)
    {
      PacketIsThere(lib, d);
      forall caseId, runId, evidence
        ensures t.check(Some(t.write(d).0), caseId, runId, evidence) ==
                if caseId == d.caseId && runId == d.runId && evidence == t.sha(d.sources.manifest)
                then Some(t.write(d).1) else None
      {
        VerdictOnWritten(lib, d, caseId, runId, evidence);
      }
    }
  }

  // ------------------------------------------------------------------- the invariant

  // A directory the importer wrote for this place.
  ghost predicate WrittenFrom(t: Tools, place: Place, dir: Directory, d: Draft) {
    d.caseId == place.caseId && d.runId == place.runId && Importable(d.components) && dir == t.write(d).0
  }

  ghost predicate WrittenFor(t: Tools, place: Place, dir: Directory) {
    exists d: Draft :: WrittenFrom(t, place, dir, d)
  }

  ghost predicate SnapshotsWritten(s: Stores, t: Tools) {
    forall place :: place in s.snapshots ==> WrittenFor(t, place, s.snapshots[place])
  }

  // A run entry points at a published snapshot that holds the recorded evidence.
  predicate Backed(s: Stores, t: Tools, runId: string, entry: RunEntry) {
    && entry.evidence.Some? && entry.place.Some?
    && entry.place.value.runId == runId && entry.place.value.caseId == entry.caseId
    && entry.place.value in s.snapshots
    && t.check(Some(s.snapshots[entry.place.value]), entry.caseId, runId, entry.evidence.value).Some?
  }

  predicate RunsBacked(s: Stores, t: Tools) {
    forall runId :: runId in s.runs ==> Backed(s, t, runId, s.runs[runId])
  }

  // A review stands under its run's id and belongs to a registered run.
  predicate ReviewsRegistered(s: Stores) {
    forall id :: id in s.reviews ==>
      && id == ReviewId(s.reviews[id].runId)
      && s.reviews[id].runId in s.runs && s.reviews[id].caseId == s.runs[s.reviews[id].runId].caseId
  }

  // Review implies run entry implies published snapshot with the recorded manifest hash.
  ghost predicate Inv(s: Stores, t: Tools) {
    SnapshotsWritten(s, t) && RunsBacked(s, t) && ReviewsRegistered(s)
  }

  predicate Trusted(r: Request) {
    r.bundle.Some? ==> Importable(r.bundle.value.components)
  }

  lemma ReviewIdInjective(a: string, b: string)
    requires ReviewId(a) == ReviewId(b)
    ensures a == b
  {
    assert ReviewId(a)[7..] == a && ReviewId(b)[7..] == b;
  }

  lemma HasReviewIs(s: Stores, runId: string)
    requires ReviewsRegistered(s)
    ensures HasReview(s.reviews, runId) <==> ReviewId(runId) in s.reviews
  {
    if ReviewId(runId) in s.reviews {
      ReviewIdInjective(runId, s.reviews[ReviewId(runId)].runId);
    }
  }

  // ------------------------------------------------------------- single durable writes

  lemma ReviewKeepsInvariant(s: Stores, t: Tools, runId: string, id: string, review: Review)
    requires Inv(s, t) && runId in s.runs && id == ReviewId(runId)
    requires review.runId == runId && review.caseId == s.runs[runId].caseId
    ensures Inv(s.(reviews := s.reviews[id := review]), t)
  {
    var later := s.(reviews := s.reviews[id := review]);
    forall other | other in later.runs
      ensures Backed(later, t, other, later.runs[other])
    {
      assert Backed(s, t, other, s.runs[other]);
    }
    assert SnapshotsWritten(later, t);
  }

  lemma RunKeepsReviews(s: Stores, runId: string, entry: RunEntry)
    requires ReviewsRegistered(s) && runId !in s.runs
    ensures ReviewsRegistered(s.(runs := s.runs[runId := entry]))
  {
  }

  lemma RunKeepsBacked(s: Stores, t: Tools, runId: string, entry: RunEntry)
    requires RunsBacked(s, t) && Backed(s, t, runId, entry)
    ensures RunsBacked(s.(runs := s.runs[runId := entry]), t)
  {
    var later := s.(runs := s.runs[runId := entry]);
    forall other | other in later.runs
      ensures Backed(later, t, other, later.runs[other])
    {
      if other != runId {
        assert Backed(s, t, other, s.runs[other]);
      }
    }
  }

  lemma RunKeepsInvariant(s: Stores, t: Tools, runId: string, entry: RunEntry)
    requires Inv(s, t) && runId !in s.runs && Backed(s, t, runId, entry)
    ensures Inv(s.(runs := s.runs[runId := entry]), t)
  {
    RunKeepsReviews(s, runId, entry);
    RunKeepsBacked(s, t, runId, entry);
    assert SnapshotsWritten(s.(runs := s.runs[runId := entry]), t);
  }

  lemma SnapshotKeepsInvariant(s: Stores, t: Tools, place: Place, dir: Directory)
    requires Inv(s, t) && place !in s.snapshots && WrittenFor(t, place, dir)
    ensures Inv(s.(snapshots := s.snapshots[place := dir]), t)
  {
    var later := s.(snapshots := s.snapshots[place := dir]);
    forall runId | runId in later.runs
      ensures Backed(later, t, runId, later.runs[runId])
    {
      assert Backed(s, t, runId, s.runs[runId]);
    }
    forall p | p in later.snapshots
      ensures WrittenFor(t, p, later.snapshots[p])
    {
      if p != place {
        assert WrittenFor(t, p, s.snapshots[p]);
      }
    }
  }

  lemma CheckedPacket(t: Tools, place: Place, dir: Directory, evidence: string)
    requires Agrees(t) && WrittenFor(t, place, dir)
    requires t.check(Some(dir), place.caseId, place.runId, evidence).Some?
    ensures t.packet(dir, t.check(Some(dir), place.caseId, place.runId, evidence).value).Some?
  {
    var d :| WrittenFrom(t, place, dir, d);
    assert AgreesOn(t, d);
  }

  // -------------------------------------------------------------- every import, any cut

  lemma EnsureReviewKeeps(
    s: Stores, t: Tools, dir: Directory, paths: map<string, string>, runId: string, caller: Caller,
    done: Outcome, budget: nat)
    requires Inv(s, t) && runId in s.runs && t.packet(dir, paths).Some? && !done.Failed?
    ensures var (later, outcome) := EnsureReview(s, t, dir, paths, runId, s.runs[runId].caseId, caller, done, budget);
      Inv(later, t) && !outcome.Failed?
  {
    HasReviewIs(s, runId);
    var review := ReviewOf(runId, s.runs[runId].caseId, caller, t.packet(dir, paths).value);
    ReviewKeepsInvariant(s, t, runId, ReviewId(runId), review);
  }

  lemma ResumeKeeps(s: Stores, t: Tools, r: Request, budget: nat)
    requires Agrees(t) && Inv(s, t)
    requires r.bundle.Some? && RunId(r.bundle.value) in s.runs
    ensures var (later, outcome) := Resume(s, t, r, budget);
      Inv(later, t) && (outcome.Failed? ==> later == s)
  {
    var runId := RunId(r.bundle.value);
    var entry := s.runs[runId];
    assert Backed(s, t, runId, entry);
    var place := entry.place.value;
    var dir := s.snapshots[place];
    assert WrittenFor(t, place, dir);
    CheckedPacket(t, place, dir, entry.evidence.value);
    if entry.evidence == Some(EvidenceOf(t, r.bundle.value)) {
      EnsureReviewKeeps(s, t, dir, t.check(Some(dir), entry.caseId, runId, entry.evidence.value).value,
        runId, Resumer(entry, r), AlreadyImported(entry.caseId), budget);
    }
  }

  lemma EntryIsBacked(s: Stores, t: Tools, b: Bundle, place: Place, caller: Caller)
    requires place in s.snapshots
    requires t.check(Some(s.snapshots[place]), place.caseId, place.runId, EvidenceOf(t, b)).Some?
    ensures Backed(s, t, place.runId, EntryOf(t, b, place, caller))
  {
  }

  lemma RegisterKeeps(s: Stores, t: Tools, r: Request, place: Place, paths: map<string, string>, budget: nat)
    requires Inv(s, t) && r.bundle.Some? && place.runId == RunId(r.bundle.value)
    requires place in s.snapshots && place.runId !in s.runs
    requires Backed(s, t, place.runId, EntryOf(t, r.bundle.value, place, r.caller))
    requires t.packet(s.snapshots[place], paths).Some?
    ensures Inv(Register(s, t, r, place, paths, budget).0, t)
    ensures !Register(s, t, r, place, paths, budget).1.Failed?
  {
    if budget > 0 {
      var runId := place.runId;
      var entry := EntryOf(t, r.bundle.value, place, r.caller);
      RunKeepsInvariant(s, t, runId, entry);
      var registered := s.(runs := s.runs[runId := entry]);
      assert registered.runs[runId].caseId == place.caseId;
      EnsureReviewKeeps(registered, t, s.snapshots[place], paths, runId, r.caller, Imported(place.caseId), budget - 1);
    }
  }

  function Target(r: Request): Place
    requires r.bundle.Some?
  {
    Place(r.root, CaseOf(r), RunId(r.bundle.value))
  }

  // The destination exists already.
  lemma PublishedBefore(s: Stores, t: Tools, r: Request, budget: nat)
    requires Agrees(t) && Inv(s, t)
    requires r.bundle.Some? && Target(r).runId !in s.runs && Target(r) in s.snapshots
    ensures var (later, outcome) := Publish(s, t, r, budget);
      Inv(later, t) && (outcome.Failed? ==> later == s)
  {
    var (place, b) := (Target(r), r.bundle.value);
    var dir := s.snapshots[place];
    var verdict := t.check(Some(dir), place.caseId, place.runId, EvidenceOf(t, b));
    if verdict.Some? {
      assert WrittenFor(t, place, dir);
      CheckedPacket(t, place, dir, EvidenceOf(t, b));
      EntryIsBacked(s, t, b, place, r.caller);
      RegisterKeeps(s, t, r, place, verdict.value, budget);
    }
  }

  lemma PublishedNow(s: Stores, t: Tools, r: Request, budget: nat)
    requires Agrees(t) && Inv(s, t) && Trusted(r) && budget > 0
    requires r.bundle.Some? && Target(r).runId !in s.runs && Target(r) !in s.snapshots
    ensures var (later, outcome) := Publish(s, t, r, budget);
      Inv(later, t) && !outcome.Failed?
  {
    var (place, b) := (Target(r), r.bundle.value);
    var d := DraftOf(t, b, place.caseId, r.caller, r.now);
    var (dir, paths) := t.write(d);
    assert WrittenFrom(t, place, dir, d);
    SnapshotKeepsInvariant(s, t, place, dir);
    assert AgreesOn(t, d);
    var published := s.(snapshots := s.snapshots[place := dir]);
    EntryIsBacked(published, t, b, place, r.caller);
    RegisterKeeps(published, t, r, place, paths, budget - 1);
  }

  lemma PublishKeeps(s: Stores, t: Tools, r: Request, budget: nat)
    requires Agrees(t) && Inv(s, t) && Trusted(r)
    requires r.bundle.Some? && Target(r).runId !in s.runs
    ensures var (later, outcome) := Publish(s, t, r, budget);
      Inv(later, t) && (outcome.Failed? ==> later == s)
  {
    if Target(r) in s.snapshots {
      PublishedBefore(s, t, r, budget);
    } else if budget > 0 {
      PublishedNow(s, t, r, budget);
    }
  }

  /**
   * Whatever is imported and wherever it stops: a review still implies its run entry, a
   * run entry its published snapshot with the recorded manifest hash; and an import that
   * reports failure has changed nothing.
   */
  lemma ImportKeepsInvariant(s: Stores, t: Tools, r: Request, budget: nat)
    requires Agrees(t) && Inv(s, t) && Trusted(r)
    ensures var (later, outcome) := Import(s, t, r, budget);
      Inv(later, t) && (outcome.Failed? ==> later == s)
  {
    if r.bundle.Some? {
      if RunId(r.bundle.value) in s.runs {
        ResumeKeeps(s, t, r, budget);
      } else {
        PublishKeeps(s, t, r, budget);
      }
    }
  }

  // ----------------------------------------------------------------- nothing is undone

  ghost predicate OnlyAdds(s: Stores, later: Stores) {
    Extends(s.snapshots, later.snapshots) && Extends(s.runs, later.runs) && Extends(s.reviews, later.reviews)
  }

  lemma EnsureReviewOnlyAdds(
    s: Stores, t: Tools, dir: Directory, paths: map<string, string>, runId: string, caseId: string,
    caller: Caller, done: Outcome, budget: nat)
    ensures OnlyAdds(s, EnsureReview(s, t, dir, paths, runId, caseId, caller, done, budget).0)
  {
  }

  lemma RegisterOnlyAdds(s: Stores, t: Tools, r: Request, place: Place, paths: map<string, string>, budget: nat)
    requires r.bundle.Some? && place in s.snapshots && RunId(r.bundle.value) !in s.runs
    ensures OnlyAdds(s, Register(s, t, r, place, paths, budget).0)
  {
    var runId := RunId(r.bundle.value);
    var entry := EntryOf(t, r.bundle.value, place, r.caller);
    if budget > 0 {
      EnsureReviewOnlyAdds(s.(runs := s.runs[runId := entry]), t, s.snapshots[place], paths, runId, place.caseId,
        r.caller, Imported(place.caseId), budget - 1);
    }
  }

  lemma OnlyAddsChains(s: Stores, between: Stores, later: Stores)
    requires OnlyAdds(s, between) && OnlyAdds(between, later)
    ensures OnlyAdds(s, later)
  {
  }

  lemma PublishOnlyAdds(s: Stores, t: Tools, r: Request, budget: nat)
    requires r.bundle.Some? && Target(r).runId !in s.runs
    ensures OnlyAdds(s, Publish(s, t, r, budget).0)
  {
    var (place, b) := (Target(r), r.bundle.value);
    if place in s.snapshots {
      var verdict := t.check(Some(s.snapshots[place]), place.caseId, place.runId, EvidenceOf(t, b));
      if verdict.Some? {
        RegisterOnlyAdds(s, t, r, place, verdict.value, budget);
      }
    } else if budget > 0 {
      PublishNewOnlyAdds(s, t, r, budget);
    }
  }

  lemma PublishNewOnlyAdds(s: Stores, t: Tools, r: Request, budget: nat)
    requires r.bundle.Some? && Target(r).runId !in s.runs && Target(r) !in s.snapshots && budget > 0
    ensures OnlyAdds(s, Publish(s, t, r, budget).0)
  {
    var (place, b) := (Target(r), r.bundle.value);
    var (dir, paths) := t.write(DraftOf(t, b, place.caseId, r.caller, r.now));
    var published := s.(snapshots := s.snapshots[place := dir]);
    RegisterOnlyAdds(published, t, r, place, paths, budget - 1);
    OnlyAddsChains(s, published, Register(published, t, r, place, paths, budget - 1).0);
  }

  /** An import never alters a snapshot, a run entry or a review that exists. */
  lemma ImportOnlyAdds(s: Stores, t: Tools, r: Request, budget: nat)
    ensures OnlyAdds(s, Import(s, t, r, budget).0)
  {
    if r.bundle.Some? {
      if RunId(r.bundle.value) in s.runs {
        ResumeOnlyAdds(s, t, r, budget);
      } else {
        PublishOnlyAdds(s, t, r, budget);
      }
    }
  }

  lemma ResumeOnlyAdds(s: Stores, t: Tools, r: Request, budget: nat)
    requires r.bundle.Some? && RunId(r.bundle.value) in s.runs
    ensures OnlyAdds(s, Resume(s, t, r, budget).0)
  {
    var (runId, evidence) := (RunId(r.bundle.value), EvidenceOf(t, r.bundle.value));
    var entry := s.runs[runId];
    if entry.evidence == Some(evidence) && entry.place.Some? {
      var dir := SnapshotAt(s, entry.place.value);
      var verdict := t.check(dir, entry.caseId, runId, evidence);
      if dir.Some? && verdict.Some? {
        EnsureReviewOnlyAdds(s, t, dir.value, verdict.value, runId, entry.caseId, Resumer(entry, r),
          AlreadyImported(entry.caseId), budget);
      }
    }
  }

  predicate SafeNames(r: Request) {
    && r.bundle.Some? && SafeComponent(r.bundle.value.evaluationId)
    && SafeComponent(RunId(r.bundle.value)) && SafeComponent(CaseOf(r))
  }

  /**
   * Under a registered run id, an import is refused exactly when its evidence is not the
   * recorded one; otherwise it reports the registered case, whatever case it asked for.
   */
  lemma RegisteredRun(s: Stores, t: Tools, r: Request, budget: nat)
    requires Agrees(t) && Inv(s, t) && SafeNames(r) && RunId(r.bundle.value) in s.runs
    ensures var (entry, outcome) := (s.runs[RunId(r.bundle.value)], Import(s, t, r, budget).1);
      && (outcome.Failed? <==> entry.evidence != Some(EvidenceOf(t, r.bundle.value)))
      && (outcome.Failed? ==> Import(s, t, r, budget) == (s, Failed(DifferentEvidence)))
      && (!outcome.Failed? ==> outcome == AlreadyImported(entry.caseId) || (outcome.Stopped? && budget == 0))
  {
    var runId := RunId(r.bundle.value);
    var entry := s.runs[runId];
    assert Backed(s, t, runId, entry);
    var place := entry.place.value;
    var dir := s.snapshots[place];
    assert WrittenFor(t, place, dir);
    CheckedPacket(t, place, dir, entry.evidence.value);
    HasReviewIs(s, runId);
  }
}
