# Reserving workflow: verified model

A Dafny model of the parts of the reserving workflow whose correctness rests on state,
order or arithmetic, with proofs that they keep the promises their callers rely on.
`dafny verify dfyconfig.toml` checks everything.

Seven components are modelled, each in one or more modules.

**Benchmark import** (`Utf8`, `Projection`, `Submission`, `PosixPath`, `Snapshot`,
`SnapshotWriter`, `BenchmarkImport`, `ImportLaws`, `ImportRuns`, `ImportMixed`,
`ImportRivals`, `ImportFacts`, `SnapshotContents`). An import publishes a snapshot by
rename, then a run entry, then a review, and may stop between any two of these durable
writes. `Import` takes the number of writes that still happen as an argument, so every
interruption point is a value of it; the class `Importer` performs the writes and is proved
equal to it. A review always implies its run entry, and a run entry a published snapshot
with the recorded manifest hash. Any sequence of interrupted imports of one bundle into one
place, followed by one that finishes, ends in the state of a single uninterrupted import if
and only if the run was registered for the operator and workspace that published the
snapshot and the import that finished it filled in no operator or workspace that was
registered empty; with different callers across retries it does not, because the review
packet inside the snapshot keeps the publisher while the run entry names the registrar. The
laws use the snapshot code only through the agreement of its writer and checker (`Agrees`),
which is proved for the real pair. Imports of other runs in between change none of this
(`ImportMixed`). When imports of one run id differ in case, root or evidence, the first to
register the run wins: its entry and snapshot stay, other evidence is refused without a
trace, and everyone else is told the winner's case (`ImportRivals`). The checksums in a
snapshot do not cover `run_manifest.json` itself. With a rewritten run manifest that lists a
part of the artifacts, the source manifest among them, a directory is accepted exactly when
the case, run and evidence are still named and the artifacts still listed have the hashes
they had; so whoever drops an artifact from the manifest can replace or remove its file
unnoticed.

**Capability authority** (`CapabilityState`, `CapabilityLaws`, `CapabilityRuns`,
`CapabilityFlow`, `CapabilityCredentials`, `CapabilityAuthority`). `Step` is the state
machine; the class holds handoff objects in a table, flips their flags in place and is
proved to follow `Step`. Laws hold along every run from a fresh authority. Rotating the
operator credential with a bootstrap token that is too short is refused, but only after the
rotation has taken effect and the channel has been closed.

**Bounded inputs and canonical form** (`CanonicalJson`, `AdkInputs`, `AdkInputFacts`,
`AdkStorageRules`, `AdkSummary`). Stack traversals are proved against recursive definitions,
and the canonical printer has a parser as left inverse.

**Claim triangle simulation** (`ClaimSplit`, `ClaimTriangle`, `TriangleFacts`,
`TriangleRows`). Money is in integer micro-units, inputs are exact numbers. A cell's claims
all carry the sign of its increment, however small: no minimum increment is needed for them
to be non-negative.

**Sequential workflow and digest ledger** (`WorkflowRun`, `WorkflowOutcome`, `DigestLedger`,
`LedgerPublishing`, `LedgerChain`, `LedgerReplay`, `LedgerRun`, `LedgerOutcome`,
`LedgerEvidence`). The run log protocol, and the two-level chain of manifests that a run
writes and the replay reader checks. Any registry call of a run may raise, before its record
is written or after it, the background wrapper's own call included. A run reads `completed`
and then `failed` exactly when all its steps completed, its last record was written, it
raised after that (on its own or inside that very call), and the wrapper's record was
written too.

The reader visits the step manifests in the order of their keys, each once, checks them all
against its schema, passes over those of the entry's case and workflow that offer no
complete evidence, and judges the first that is left. For the files of a finished run its
answer is stated in terms of what the steps staged: when it fails on a missing file, a
missing digest or a mismatch, when it succeeds, and with which documents. One consequence is
a fault of the program. A validation step writes a null `run_id` into its manifest, which
the reader's own schema check refuses before any evidence is judged, so a finished ADK run
with a validation step can never be replayed; `chainladder-validated` has such a step.

**Numeric guard** (`NumericGuard`, `NarrativeDraft`, `NumberSupport`, `EvidencePaths`). The
lexer, the matcher and the drafting slot. Text is ASCII. A printed number that carries its
sign is read apart from any text before it, as in `1,000-2,000`; one without is, exactly
when the text before it does not take a digit: after `3.` it is read as the fraction of 3.

**Budgeted evaluation loop** (`EvaluationLanes`, `EvaluationFacts`). Totals, limits and the
aggregate status. A negative limit, which the server's own policy never contains, admits no
bytes at all.

Clocks, fresh ids and tokens, file contents, model replies, the reserve calculation and
library functions (case folding, float parsing, URL splitting, JSON loading) are
parameters. Where a digest has to tell documents apart it is an injective constructor; in
the snapshot and import modules SHA-256 is an arbitrary function and results speak of
equal hashes.

## Model

| member | source | states |
|---|---|---|
| `ImportLaws.ImportKeepsInvariant` | src/reserving_workflow/review/benchmark_import.py:94-230 | From any state that satisfies the invariant, an import of anything, stopped anywhere, keeps it: review implies run entry implies published snapshot holding the recorded evidence; an import that reports failure has changed nothing |
| `ImportRuns.InvariantAlways` | src/reserving_workflow/review/benchmark_import.py:94-230 | The invariant holds after every import of every sequence, whatever each one imports and wherever it stops |
| `ImportRuns.DurableOrder` | src/reserving_workflow/review/benchmark_import.py:94-291 | From empty stores, with the real writer and checker, every reachable review belongs to a registered run and every registered run to a snapshot valid for its recorded case and evidence |
| `ImportRuns.ImportAdvances` | src/reserving_workflow/review/benchmark_import.py:100-230 | However many of the three durable writes earlier imports made, the next import makes exactly the missing ones it has time for, and reports stopped, imported or already imported accordingly |
| `ImportRuns.Converges` | src/reserving_workflow/review/benchmark_import.py:94-230 | After any interrupted imports of one bundle to one place, an import that finishes reaches the state of a single uninterrupted import by the publisher if and only if the run was registered for the publisher's operator and workspace and the finisher filled in no operator or workspace registered empty |
| `ImportRuns.OneCallerConverges` | src/reserving_workflow/review/benchmark_import.py:94-230 | With one caller throughout, the final state is always that of one uninterrupted import among those requested |
| `ImportRuns.TwoCallersDiverge` | src/reserving_workflow/review/benchmark_import.py:178-218 | If one caller publishes and stops and a different one finishes, the final state is neither's uninterrupted import |
| `ImportMixed.ConvergesAmongOthers` | src/reserving_workflow/review/benchmark_import.py:94-230 | The same convergence, under the same two conditions, for this run's snapshot, entry and review, when imports of any other runs come in between |
| `ImportMixed.ForeignKeepsSlice` | src/reserving_workflow/review/benchmark_import.py:94-230 | An import of another run leaves this run's snapshot, entry and review alone |
| `ImportMixed.SliceDecides` | src/reserving_workflow/review/benchmark_import.py:94-230 | The outcome of an import and what it does to its own place depend on nothing but what the stores hold for that place, given that the run, if registered, is registered for it |
| `ImportRivals.FirstRegistrarStands` | src/reserving_workflow/review/benchmark_import.py:94-218 | In any sequence of imports, whatever their cases, roots and evidence, a run's entry is the one made by the first import to register it, and stays so |
| `ImportRivals.RivalsYield` | src/reserving_workflow/review/benchmark_import.py:94-137 | Every later import of that run id is refused for different evidence, changing nothing, or is told the first registrar's case and leaves the run reviewed, unless it stops before that one write |
| `ImportRivals.WinnersSnapshotStays` | src/reserving_workflow/review/benchmark_import.py:94-218 | The snapshot the run was registered for is there and stays as it was |
| `ImportRuns.OnlyTimeDiffers` | src/reserving_workflow/review/benchmark_import.py:498-662 | Two imports by one caller at different times write the same artifacts and paths; their run manifests differ only in the import time |
| `ImportLaws.ImportOnlyAdds` | src/reserving_workflow/review/benchmark_import.py:94-218 | No import alters a snapshot, a run entry or a review that exists |
| `ImportLaws.RegisteredRun` | src/reserving_workflow/review/benchmark_import.py:100-137 | Under a registered run id an import is refused, changing nothing, exactly when its evidence differs from the recorded one; otherwise it reports the registered case |
| `ImportLaws.ToolsAgree` | src/reserving_workflow/review/benchmark_import.py:142-166 | The real checker accepts a snapshot just written for its own case, run and evidence and for no other, and its review packet reads back |
| `ImportFacts.FirstImport` | src/reserving_workflow/review/benchmark_import.py:86-230 | A first import that is not interrupted reports the case the request names, or the bundle's own when it names none, and the snapshot, the run entry and the review all stand under that case and under `benchmark-` with the evaluation id; entry, review, packet and snapshot documents are spelled out |
| `ImportFacts.UnsafeRefused` | src/reserving_workflow/review/benchmark_import.py:86-91 | An import is refused for its names, changing nothing, exactly when the evaluation id, the run id made from it or that case is not a safe component |
| `ImportFacts.SafeCodes` | src/reserving_workflow/review/benchmark_import.py:49-49 | The characters allowed in a name, by their codes |
| `ImportFacts.SafeComponentExactly` | src/reserving_workflow/review/benchmark_import.py:815-823 | A safe component is one plain path component of the allowed characters, and leads neither up nor down |
| `ImportFacts.ReviewDefaults` | src/reserving_workflow/review/benchmark_import.py:294-322 | A review takes assignee, workspace and reasons from the packet in the snapshot when they are there and not empty, and otherwise the caller's or the fixed reasons |
| `BenchmarkImport.Importer.ImportBenchmarkReview` | src/reserving_workflow/review/benchmark_import.py:57-230 | The stores and the outcome after an import that stops after a given number of durable writes are those of the specification |
| `BenchmarkImport.Importer.ResumeImport` | src/reserving_workflow/review/benchmark_import.py:100-137 | A registered run is verified and given its missing review, as specified, and nothing but the reviews changes |
| `BenchmarkImport.Importer.PublishImport` | src/reserving_workflow/review/benchmark_import.py:139-218 | An existing destination is verified, a missing one published, then run and review follow, as specified |
| `BenchmarkImport.Importer.EnsureImportReview` | src/reserving_workflow/review/benchmark_import.py:294-322 | A run's review is created at most once, from the packet in its snapshot; an empty or missing reason list, assignee or workspace takes its default |
| `SnapshotWriter.WrittenIsValid` | src/reserving_workflow/review/benchmark_import.py:233-291 | Every snapshot the writer produces from importable components is accepted by the checker, which returns the written paths |
| `SnapshotWriter.WriteSnapshot` | src/reserving_workflow/review/benchmark_import.py:498-662 | Writing file by file, the run manifest last, yields the specified directory and path list |
| `SnapshotWriter.AcceptedIsImportable` | src/reserving_workflow/review/benchmark_import.py:429-446 | Components of an accepted submission have normal, pairwise different paths, as the writer needs |
| `SnapshotWriter.AllListable` | src/reserving_workflow/review/benchmark_import.py:512-552 | The twelve fixed artifacts and any number of components have pairwise different ids and pairwise different safe paths, none of them the run manifest's |
| `SnapshotContents.FindingsKept` | src/reserving_workflow/review/benchmark_import.py:512-635 | The validated input, the result and the narrative of the draft are on disk, listed and hashed, each under its own id and file name |
| `SnapshotContents.PacketKept` | src/reserving_workflow/review/benchmark_import.py:512-637 | So are the constitution check, the review packet and its rendering |
| `SnapshotContents.EvaluationKept` | src/reserving_workflow/review/benchmark_import.py:519-531 | So are the copies of the evaluation manifest, the source run manifest and the submission, in the source directory |
| `SnapshotContents.ExecutionKept` | src/reserving_workflow/review/benchmark_import.py:522-534 | So are the copies of the policy and of both outputs |
| `SnapshotContents.ComponentKept` | src/reserving_workflow/review/benchmark_import.py:536-552 | So is every component, numbered from one, at its own path under the component directory |
| `SnapshotContents.NothingElse` | src/reserving_workflow/review/benchmark_import.py:498-662 | There are no other files, listed ids or checksums |
| `SnapshotContents.ManifestReadsBack` | src/reserving_workflow/review/benchmark_import.py:639-661 | The run manifest read back carries the case, the run, the evidence hash, the paths and the checksums |
| `SnapshotContents.ManifestKeepsRest` | src/reserving_workflow/review/benchmark_import.py:639-661 | The run manifest's other entries read back as they were given |
| `Snapshot.VerifyImportSnapshot` | src/reserving_workflow/review/benchmark_import.py:233-291 | The checker accepts exactly the valid snapshots: manifest identity, complete checksums, safe unique existing paths, matching hashes |
| `Snapshot.ValidExactly` | src/reserving_workflow/review/benchmark_import.py:233-291 | Validity entry by entry: the case, the run and the evidence are named, checksums cover exactly the listed artifacts, each is at a safe place of its own with its hash, and the source manifest has the evidence's hash |
| `Snapshot.VerifyArtifacts` | src/reserving_workflow/review/benchmark_import.py:265-283 | The artifact loop finds no fault exactly when every artifact is safe, present, hashed as recorded and at a path of its own |
| `Snapshot.TamperedArtifact` | src/reserving_workflow/review/benchmark_import.py:265-290 | With the run manifest unchanged, a valid snapshot stays valid if and only if every other artifact is still there with the hash it had |
| `Snapshot.RunManifestUncovered` | src/reserving_workflow/review/benchmark_import.py:242-290 | With any rewritten run manifest that lists a part of the artifacts, the sandbox manifest among them, other files are accepted if and only if it names the same case, run and evidence and the artifacts it still lists have the hashes they had |
| `Snapshot.ShedArtifactUnprotected` | src/reserving_workflow/review/benchmark_import.py:253-264 | An artifact dropped from the run manifest's paths and checksums can be replaced by anything or removed, and the snapshot is still accepted |
| `Snapshot.StatusRewritten` | src/reserving_workflow/review/benchmark_import.py:242-264 | Another altered file that goes unnoticed: the status in the run manifest can be any text |
| `Submission.VerifyMaterializedSubmission` | src/reserving_workflow/review/benchmark_import.py:449-495 | Accepts exactly the submissions with the promised file count, total bytes and projection hash, safe distinct paths and materialized contents; each error names something wrong |
| `Submission.Collect` | src/reserving_workflow/review/benchmark_import.py:463-488 | The file loop builds the projection and the byte total of the files it has accepted, or blames a faulty or repeated file |
| `Submission.OrderIrrelevant` | src/reserving_workflow/review/benchmark_import.py:467-488 | Reordering the files of an accepted submission changes neither the verdict nor the order in which they are projected |
| `Submission.HashIdentifiesSource` | src/reserving_workflow/review/benchmark_import.py:463-494 | Submissions accepted under one source hash have the same paths and contents |
| `Projection.ProjectionRoundTrip` | src/reserving_workflow/review/benchmark_import.py:865-866 | Parsing a projection yields exactly the ordered list of paths and contents, whatever bytes the contents hold |
| `Projection.ProjectionInjective` | src/reserving_workflow/review/benchmark_import.py:463-486 | Different lists never share a projection |
| `Projection.FieldRoundTrip` | src/reserving_workflow/review/benchmark_import.py:865-866 | A length-prefixed field reads back and leaves the bytes after it alone |
| `Utf8.EncodeInjective` | src/reserving_workflow/review/benchmark_import.py:477-486 | Two texts never share their UTF-8 bytes |
| `PosixPath.SafeIsNormal` | src/reserving_workflow/review/benchmark_import.py:790-796 | A safe path is in normal form: checking it again returns it unchanged, with the same components |
| `PosixPath.SafePathsEqual` | src/reserving_workflow/review/benchmark_import.py:790-796 | Two safe paths normalize alike exactly when their components agree |
| `PosixPath.NameFollowsSlash` | src/reserving_workflow/api/app.py:3530-3533 | The name of a path is the component after its last slash |
| `CapabilityAuthority.CapabilityAuthority.constructor` | src/reserving_workflow/api/capabilities.py:105-141 | A new authority is in the specified initial state, and that is one from which the runs below start |
| `CapabilityAuthority.CapabilityAuthority.Authenticate` | src/reserving_workflow/api/capabilities.py:157-171 | State and outcome are those of the state machine; a stale session is dropped |
| `CapabilityAuthority.CapabilityAuthority.SessionCsrfMatches` | src/reserving_workflow/api/capabilities.py:173-179 | Matches exactly as the state machine says, and changes nothing |
| `CapabilityAuthority.CapabilityAuthority.Exchange` | src/reserving_workflow/api/capabilities.py:181-192 | State and outcome of a direct bootstrap exchange are those of the state machine |
| `CapabilityAuthority.CapabilityAuthority.DiscardExpired` | src/reserving_workflow/api/capabilities.py:264-269 | Exactly the live handoffs stay, in order |
| `CapabilityAuthority.CapabilityAuthority.Create` | src/reserving_workflow/api/capabilities.py:194-214 | State and outcome of entering a handoff, evicting the earliest when the table is full, are those of the state machine |
| `CapabilityAuthority.CapabilityAuthority.Approve` | src/reserving_workflow/api/capabilities.py:216-240 | State and outcome of an approval are those of the state machine |
| `CapabilityAuthority.CapabilityAuthority.Claim` | src/reserving_workflow/api/capabilities.py:242-262 | State and outcome of a claim are those of the state machine |
| `CapabilityAuthority.CapabilityAuthority.RotateCredential` | src/reserving_workflow/api/capabilities.py:283-322 | State and outcome of a rotation, including the refusal that comes after the change, are those of the state machine |
| `CapabilityRuns.ExecutionIsLawful` | src/reserving_workflow/api/capabilities.py:143-322 | Every state of every run is sound and every step obeys the one-step laws |
| `CapabilityRuns.RevokedChannelIsClosed` | src/reserving_workflow/api/capabilities.py:194-262 | From a revocation until the next re-arming rotation both tables stay empty and nothing is issued, created, approved or authenticated |
| `CapabilityRuns.RotationRevokes` | src/reserving_workflow/api/capabilities.py:283-322 | An operator rotation empties both tables and revokes the channel unless it re-arms it; it is refused exactly for a weak new token |
| `CapabilityRuns.ApprovedUnderCurrentToken` | src/reserving_workflow/api/capabilities.py:216-240 | Every approved handoff in the table was approved by a request that proved the current bootstrap token, with no operator rotation since |
| `CapabilityRuns.GrantsSpentOnce` | src/reserving_workflow/api/capabilities.py:181-281 | Sessions map one-to-one into bootstrap armings and approved handoffs: no two sessions ever share one |
| `CapabilityRuns.ClaimWasApproved` | src/reserving_workflow/api/capabilities.py:242-262 | A claimed session rests on an approval of that handoff in the same arming under the current token |
| `CapabilityRuns.NoExchangeAfterApproval` | src/reserving_workflow/api/capabilities.py:181-240 | No direct exchange succeeds after an approval in the same arming |
| `CapabilityRuns.AuthenticationRests` | src/reserving_workflow/api/capabilities.py:157-171 | A session authenticates only if issued in this run, within its lifetime, with no operator rotation since |
| `CapabilityRuns.CsrfIsSessions` | src/reserving_workflow/api/capabilities.py:173-179 | For a session in the table, issued in this run with no operator rotation since, exactly the token drawn when it was issued passes |
| `CapabilityRuns.BearerUnambiguous` | src/reserving_workflow/api/capabilities.py:143-155 | A bearer token never proves both capabilities |
| `CapabilityCredentials.BearerExactly` | src/reserving_workflow/api/capabilities.py:143-155 | In every state of every run a bearer token proves the ADK capability if and only if it is the credential of the last ADK rotation to take effect, or the first one, and likewise the operator's; the principal's generation is one more than the number of those rotations |
| `CapabilityCredentials.AdkRotation` | src/reserving_workflow/api/capabilities.py:283-301 | A rotation of the ADK credential is refused, changing nothing, exactly for a short credential or the operator's; otherwise it replaces credential and confirmation key, raises the generation and leaves sessions, handoffs and the bootstrap channel alone |
| `CapabilityCredentials.CredentialsStand` | src/reserving_workflow/api/capabilities.py:283-301 | Nothing but its own rotation changes a credential or its generation |
| `CapabilityCredentials.MadeExactly` | src/reserving_workflow/api/capabilities.py:105-141 | An authority is made exactly from three secrets of eight characters or more with different credentials, and its bootstrap token lasts for the bootstrap time |
| `CapabilityCredentials.OnlyBearers` | src/reserving_workflow/api/capabilities.py:143-146 | No other authorization proves anything |
| `CapabilityFlow.CreatedExactly` | src/reserving_workflow/api/capabilities.py:194-214 | A handoff can be requested exactly while the channel is not revoked |
| `CapabilityFlow.ApprovedExactly` | src/reserving_workflow/api/capabilities.py:216-240 | A handoff that nothing has revoked, claimed or outlived and that fewer than sixteen came after is approved exactly with the current bootstrap token and in time |
| `CapabilityFlow.ClaimedExactly` | src/reserving_workflow/api/capabilities.py:242-262 | Such a handoff is claimed exactly once approved, with its own claim token and in time, and the claim issues the session it draws |
| `CapabilityFlow.ExchangedExactly` | src/reserving_workflow/api/capabilities.py:181-192 | A direct exchange issues the session it draws exactly with the current token, unused, unrevoked and in time |
| `CapabilityFlow.AuthenticatesExactly` | src/reserving_workflow/api/capabilities.py:157-171 | A session authenticates, as the operator of the current generation, if and only if it was issued in this run, no operator rotation has happened since, it was never shown after its end and it has not ended |
| `CapabilityFlow.RequestClearsTable` | src/reserving_workflow/api/capabilities.py:194-214 | A handoff request leaves in the table no claimed or expired handoff and keeps all others but the earliest of sixteen |
| `CapabilityRuns.EvictsTheEarliest` | src/reserving_workflow/api/capabilities.py:194-214 | A new handoff joins the live ones; a full table loses exactly its earliest live handoff for it |
| `CanonicalJson.CanonicalUnambiguous` | src/reserving_workflow/runtime/adk_execution.py:172-173 | Two values print alike exactly when they are the same JSON value, key order aside |
| `CanonicalJson.CanonicalRoundTrip` | src/reserving_workflow/runtime/adk_execution.py:172-173 | Parsing a canonical print gives the value back with its keys sorted |
| `CanonicalJson.FingerprintIdentifiesRequest` | src/reserving_workflow/runtime/adk_execution.py:182-197 | Fingerprints agree exactly when action, object and request do |
| `TextOrder.BeforeExactly` | src/reserving_workflow/runtime/adk_execution.py:172-173 | One text sorts before another if and only if it is a proper beginning of it or has the smaller character where they first differ |
| `AdkInputs.ValidateInputs` | src/reserving_workflow/runtime/adk_execution.py:200-246 | The stack loop accepts exactly the inputs that meet every recursive bound, returns the recursive counts and depth, and each error names a broken bound |
| `AdkInputs.VisitNode` | src/reserving_workflow/runtime/adk_execution.py:213-234 | One popped node adds its keys and its children and is refused exactly for a bound of its own |
| `AdkStorageRules.RejectStorageLike` | src/reserving_workflow/runtime/adk_execution.py:423-451 | Accepts exactly the payloads in which no value at any depth breaks a storage rule; each error names a broken one |
| `AdkInputFacts.ListBounds` | src/reserving_workflow/runtime/adk_execution.py:213-234 | A list may have 512 items, and 256 exactly when the folded text of its key contains triangle |
| `AdkInputFacts.NodeBounds` | src/reserving_workflow/runtime/adk_execution.py:213-234 | The other bounds at a node: depth 8, keys of 1 to 128 characters, texts of 4096, finite numbers, JSON types |
| `AdkInputFacts.WholeBounds` | src/reserving_workflow/runtime/adk_execution.py:200-246 | An accepted input has at most 2048 values, 1024 keys and 65536 bytes |
| `AdkInputFacts.ParentPartExactly` | src/reserving_workflow/runtime/adk_execution.py:449-451 | A text is refused for a parent part exactly when, backslashes read as slashes, `..` is one of its components |
| `AdkInputFacts.AbsoluteExactly` | src/reserving_workflow/runtime/adk_execution.py:447-448 | A text counts as absolute exactly when it starts with a separator, or with a drive letter's place, a colon and a separator |
| `AdkInputFacts.WildcardExactly` | src/reserving_workflow/runtime/adk_execution.py:450-451 | A text is refused for a wildcard exactly when it has one of six characters |
| `AdkInputFacts.JsonRenders` | src/reserving_workflow/runtime/adk_execution.py:172-173 | The JSON that is counted and digested has the input's values, in order and under their keys, at every depth |
| `AdkSummary.SummarizeInputs` | src/reserving_workflow/runtime/adk_execution.py:249-281 | For valid inputs the summary shows the longest prefix of at most eight sorted keys that fits, counts the others, and the size error is never raised |
| `AdkSummary.ShrinkToFit` | src/reserving_workflow/runtime/adk_execution.py:273-280 | The loop drops keys only while the print is too large |
| `AdkSummary.FewerShapesSmaller` | src/reserving_workflow/runtime/adk_execution.py:273-280 | Showing one key fewer always shortens the print, even though the omitted count may grow a digit |
| `AdkSummary.EmptySummaryFits` | src/reserving_workflow/runtime/adk_execution.py:273-280 | With no key shown the summary of valid inputs fits in 2048 bytes |
| `AdkSummary.ShapeExactly` | src/reserving_workflow/runtime/adk_execution.py:253-266 | A shape names the kind of the value, and the number of entries of an object or a list |
| `AdkSummary.ShapesShown` | src/reserving_workflow/runtime/adk_execution.py:251-266 | Every shape shown is that of the input under its key |
| `ClaimTriangle.SimulateClaimTriangle` | src/reserving_workflow/evaluation/simulation.py:13-98 | Runs exactly on runnable parameters and emits the specified claims and rows |
| `ClaimTriangle.EmitCell` | src/reserving_workflow/evaluation/simulation.py:58-75 | All claims of a cell but the last are rounded shares, the last takes what is left |
| `TriangleFacts.RowsExactly` | src/reserving_workflow/evaluation/simulation.py:45-82 | One row for each cell shown and no other, origin by origin; the first ultimate is the base, consecutive ones differ by the increment plus the curvature times 2i + 1, and each row pays its pattern's part of its ultimate to the nearest micro-unit, halves away from zero |
| `TriangleFacts.UltimatesExist` | src/reserving_workflow/evaluation/simulation.py:51-51 | Such ultimates exist for any number of origins |
| `TriangleFacts.ClaimsExactly` | src/reserving_workflow/evaluation/simulation.py:55-75 | The claims of each cell shown stand together in the stream, numbered from one: the base count, one more where origin and development add up to an odd number, all but the last nearest to their shares of what the cell adds, and together exactly that |
| `ClaimTriangle.ClaimsMatchTriangle` | src/reserving_workflow/evaluation/simulation.py:45-82 | For every row, the claims of its origin up to its development add up to exactly its cumulative amount |
| `ClaimTriangle.CumulativesRise` | src/reserving_workflow/evaluation/simulation.py:33-56 | With a non-negative ultimate the cumulatives start at zero or more, never fall and never pass the rounded ultimate |
| `ClaimTriangle.ClaimStreamNonNegative` | src/reserving_workflow/evaluation/simulation.py:51-75 | With non-negative ultimates no claim is negative |
| `ClaimTriangle.StaircaseSize` | src/reserving_workflow/evaluation/simulation.py:45-82 | With m origins shown there are m*d - m(m-1)/2 rows |
| `ClaimTriangle.RowsDistinct` | src/reserving_workflow/evaluation/simulation.py:45-82 | No two rows share origin and development |
| `ClaimTriangle.ClaimIdsDistinct` | src/reserving_workflow/evaluation/simulation.py:62-75 | No two claims of a simulation share an id |
| `ClaimTriangle.ClaimIdInjective` | src/reserving_workflow/evaluation/simulation.py:70-70 | A claim id determines its origin, development and number |
| `ClaimSplit.CellConserves` | src/reserving_workflow/evaluation/simulation.py:55-67 | The claims of a cell add up to its increment |
| `ClaimSplit.RoundingResidual` | src/reserving_workflow/evaluation/simulation.py:58-67 | A claim but the last is within half a micro-unit of its share, the last of n within (n-1)/2 |
| `ClaimSplit.SharesSumToIncrement` | src/reserving_workflow/evaluation/simulation.py:58-67 | The exact proportional shares add up to the increment |
| `ClaimSplit.ClaimsFollowIncrement` | src/reserving_workflow/evaluation/simulation.py:58-67 | The claims are all non-negative exactly when the increment is, and all non-positive exactly when it is |
| `TriangleRows.TriangleFromRows` | src/reserving_workflow/validation.py:175-242 | The row loop accepts exactly acceptable rows and normalizes each; an error names the first row that cannot be taken, all rows before it being good with cells of their own |
| `TriangleRows.NormalizedExactly` | src/reserving_workflow/validation.py:205-218 | An accepted row keeps every entry but the value, which becomes the finite number the cell stands for |
| `TriangleRows.RefusedCells` | src/reserving_workflow/validation.py:252-261 | What no number stands for: null, booleans, infinities and texts that read as none |
| `TriangleRows.KeysAgree` | src/reserving_workflow/validation.py:210-217 | Two cells clash when their years are equal as numbers, whether integer, float or boolean, or equal as texts |
| `TriangleRows.StripExactly` | src/reserving_workflow/validation.py:245-249 | A column name loses the blanks at its ends and nothing else |
| `TriangleRows.BlankExactly` | src/reserving_workflow/validation.py:245-249 | The blanks are tab to carriage return, the four ASCII separators and the space |
| `TriangleRows.NamesExactly` | src/reserving_workflow/validation.py:245-249 | Column names are refused exactly when one of the three is all blanks |
| `TriangleRows.RowFieldsExactly` | src/reserving_workflow/evaluation/simulation.py:76-82 | A simulated row carries its years and its amount in whole units |
| `TriangleRows.SimulatedRowsAccepted` | src/reserving_workflow/evaluation/simulation.py:101-136 | Simulated rows pass every row check exactly when the value column is one of the simulated ones |
| `TriangleRows.SimulatedPayloadAccepted` | src/reserving_workflow/evaluation/simulation.py:101-136 | A simulated payload whose overrides leave rows and column names alone passes every row check |
| `WorkflowRun.RunSequentialWorkflow` | src/reserving_workflow/api/app.py:3057-3412 | The registry log and the result of a run are those of the specification, whichever registry calls raise and whether before or after writing |
| `WorkflowRun.RunInBackground` | src/reserving_workflow/api/app.py:2765-2823 | The wrapper makes one failed record exactly when the run raises, and that call may raise as well |
| `WorkflowOutcome.CompletedExactly` | src/reserving_workflow/api/app.py:3113-3249 | A run that returns is completed if and only if every step of the catalogue returned a completed status; otherwise its status is what the first other step gave, failed if that gave none |
| `WorkflowOutcome.AllComplete` | src/reserving_workflow/api/app.py:3057-3412 | The whole log and result of a run whose steps all complete, event by event |
| `WorkflowOutcome.StopsAtFirstOther` | src/reserving_workflow/api/app.py:3196-3254 | After completed steps, a step with another status the registry knows ends the run with that status; the whole log, in which its finish event carries it |
| `WorkflowOutcome.RaisesAtFirstOther` | src/reserving_workflow/api/app.py:3113-3249 | After completed steps, one that raises or gives an unknown status leaves its start event, if it got so far, and the run raises |
| `WorkflowRun.StepsAlternate` | src/reserving_workflow/api/app.py:3113-3249 | In the undisturbed log started and finished events alternate and the executed steps are a prefix of the catalogue, all but the last completed |
| `WorkflowRun.CutLogIsPrefix` | src/reserving_workflow/api/app.py:3057-3412 | Wherever the registry raises, the log is the beginning of the undisturbed one; a run that returns has all of it |
| `WorkflowRun.RunLogProtocol` | src/reserving_workflow/api/app.py:3057-3412 | A run that raises nothing records queued, then running at least twice, then its result's status to the end |
| `WorkflowRun.CompletedMeansAll` | src/reserving_workflow/api/app.py:3057-3412 | The result is completed exactly when every step completed and neither the run nor any of its registry calls raised |
| `WorkflowRun.BackgroundLastStatus` | src/reserving_workflow/api/app.py:2765-2823 | For every point at which the run or the registry raises: the last status is the returned one, or failed when it raised, unless the wrapper's own record is lost, and then the log stays as the run left it |
| `WorkflowRun.CompletedIsRecorded` | src/reserving_workflow/api/app.py:2765-2823 | Completed is on record exactly when every step completed, writing the artifacts did not raise and every registry call up to the last wrote its record |
| `WorkflowRun.CompletedThenFailed` | src/reserving_workflow/api/app.py:2765-2823 | A run reads completed and then failed exactly when its last record was written, it raised after that, on its own or inside that call, and the wrapper's record was written |
| `DigestLedger.ReplayEvidence` | src/reserving_workflow/api/app.py:2222-2337 | The reader's loops return the specified evidence or error |
| `LedgerPublishing.PublishStep` | src/reserving_workflow/api/app.py:3469-3514 | Publishing a staged step adds exactly its sanitized artifacts and the completed manifest to the step's directory and keeps every other file |
| `LedgerPublishing.CompleteManifest` | src/reserving_workflow/api/app.py:3490-3509 | In whatever order the artifacts are visited, missing paths become own names and the digests of what was published replace the worker's |
| `LedgerPublishing.ManifestKept` | src/reserving_workflow/api/app.py:3490-3541 | The published manifest keeps case, run, workflow, creator, status, tool and version of the staged one, names what that named by bare file names and what was published by own names, and keeps the digests of what was not published |
| `LedgerPublishing.ArtifactKept` | src/reserving_workflow/api/app.py:3523-3541 | Every other published artifact is the staged one with its paths cut to bare names, digests included |
| `LedgerChain.JoinedStaysInside` | src/reserving_workflow/api/app.py:2400-2409 | A reference is taken exactly when it is a text, not empty, not absolute and without parent parts; it stays in its directory unless it names one itself |
| `LedgerChain.WriteValidationStep` | src/reserving_workflow/api/app.py:3567-3659 | A validation step adds its three documents and their manifest, whose run id is null |
| `LedgerChain.ValidationStepExactly` | src/reserving_workflow/api/app.py:3567-3659 | Each of the three documents is named by its own file name and digested as it is |
| `LedgerChain.StagedReadsBack` | src/reserving_workflow/api/app.py:2360-2409 | For a name without a backslash, an input reads back through its published manifest if and only if the name is the file name of an artifact published with the document the ledger records for the input, its own document when it was staged |
| `LedgerChain.PublishedSound` | src/reserving_workflow/api/app.py:3469-3514 | A published step offers readable evidence if its staged files are readable in that sense, and only then when no input is named with a backslash |
| `LedgerChain.OwnNameReadable` | src/reserving_workflow/api/app.py:3523-3534 | A staged input named by its own file name, or not named at all, is always readable |
| `LedgerRun.RunWorkflow` | src/reserving_workflow/api/app.py:3200-3339 | A finished run holds exactly its steps' documents in their directories, and a root manifest with the run's ids that lists and digests every step manifest and no other |
| `LedgerRun.CloseRun` | src/reserving_workflow/api/app.py:3266-3339 | The root manifest lists and digests exactly the given step manifests and the summary |
| `LedgerRun.RootPathsExactly` | src/reserving_workflow/api/app.py:3266-3322 | The root manifest names itself, the summary, the review packet if there is one, and the steps' manifests |
| `DigestLedger.VisitsExist` | src/reserving_workflow/api/app.py:2248-2257 | There is an order of visits that takes every listed step manifest once, by ascending key |
| `DigestLedger.VisitsUnique` | src/reserving_workflow/api/app.py:2248-2257 | There is only one |
| `LedgerChain.StepKeyExactly` | src/reserving_workflow/api/app.py:2251-2256 | A root entry is taken for a step manifest's exactly when its key begins and ends as such keys do, even where the two overlap |
| `LedgerReplay.ReplayOutcome` | src/reserving_workflow/api/app.py:2222-2337 | On a linked chain the reader answers with the root's error, else with a schema error if any visited manifest is malformed, else with missing evidence if all are passed over, else with its judgement of the first that is not |
| `LedgerReplay.ChainFailsExactly` | src/reserving_workflow/api/app.py:2222-2372 | It fails on the chain if and only if the root is the entry's, every visited manifest passes the schema, and the first not passed over offers evidence that cannot be read |
| `LedgerReplay.SucceedsExactly` | src/reserving_workflow/api/app.py:2222-2337 | It succeeds if and only if, under the same circumstances, that manifest's evidence can be read and passes the remaining checks, and that evidence is the answer |
| `LedgerOutcome.SchemaAcceptsExactly` | src/reserving_workflow/adapters/control_plane/projections.py:140-218 | For every list of steps, all manifests of the finished run pass the schema exactly when each was left by an operator step with text case and run ids and well-typed optional entries |
| `LedgerOutcome.RunChainFailsExactly` | src/reserving_workflow/api/app.py:2222-2409 | Replaying a finished run fails on the chain if and only if the entry is this run's, all its manifests pass the schema, and the first step, by key, whose staged manifest is not passed over is the entry's and offers evidence of which some input is not named by the file of a document published with the recorded digest |
| `LedgerOutcome.RunSucceedsExactly` | src/reserving_workflow/api/app.py:2222-2337 | It succeeds if and only if, likewise, the answer consists of the published documents that manifest leads to and they pass the remaining checks |
| `LedgerOutcome.MatchingKept` | src/reserving_workflow/api/app.py:2273-2277 | The published manifest matches an entry exactly when the staged one does |
| `LedgerOutcome.RunMismatches` | src/reserving_workflow/api/app.py:2273-2277 | If the settling step's staged manifest names another case the answer is a case mismatch, and if only the workflow is another a workflow mismatch |
| `LedgerOutcome.RunRefusals` | src/reserving_workflow/api/app.py:2310-2326 | Evidence that reads back is refused for the first check it fails: schemas, identity, recalculation |
| `LedgerOutcome.RunOffersNothing` | src/reserving_workflow/api/app.py:2278-2283 | If every step is passed over the answer is missing evidence |
| `LedgerOutcome.OwnDocuments` | src/reserving_workflow/api/app.py:2400-2409 | An input named without a backslash leads to a document of the step's own directory and to nothing else |
| `LedgerOutcome.ReadableRunNeverBreaks` | src/reserving_workflow/api/app.py:3469-3514 | If every step's own staged files are readable, no replay of the run, for any entry and checks, fails on the chain |
| `LedgerOutcome.MalformedRunRefused` | src/reserving_workflow/api/app.py:2258-2262 | One malformed step manifest makes every replay for the run's own entry end in a schema error |
| `LedgerOutcome.ValidatedRunNeverReplays` | src/reserving_workflow/api/app.py:3625-3628 | A finished run with a validation step is never replayed: the answer is the root's error if there is one and a schema error otherwise |
| `LedgerOutcome.ChainladderValidatedRefused` | src/reserving_workflow/workflows/catalog.py:126-147 | So it is with the catalogue's workflow of a validation and an execution step, whatever they bring: its own entry gets a schema error |
| `LedgerOutcome.RunChainladderValidated` | src/reserving_workflow/workflows/catalog.py:126-147 | Running that workflow to its end leaves files from which no entry can be replayed |
| `LedgerEvidence.TamperEvident` | src/reserving_workflow/api/app.py:2222-2372 | With the root manifest unchanged, a replay that succeeded succeeds on other files if and only if every step manifest and the three inputs it read are unchanged, and then with the same evidence |
| `NumericGuard.NoDigitEscapes` | src/reserving_workflow/ai_narrative.py:181-184 | The digits of any text, in order, are exactly the digits of the tokens examined |
| `NumericGuard.GroupedReadsAsOne` | src/reserving_workflow/ai_narrative.py:36-38 | A number printed with thousands commas, optional sign and decimals, and unless signed not the tail of longer digits, is one token with the same digits and leaves the tokens around it as they are: always when signed, otherwise if and only if the cleaned text before it takes no digit |
| `NumericGuard.UnsignedReadsApart` | src/reserving_workflow/ai_narrative.py:36-38 | After anything but a minus sign or a point an unsigned printed number reads apart |
| `NumericGuard.LexBeforeDigit` | src/reserving_workflow/ai_narrative.py:36-38 | Text followed by a digit lexes apart from it if and only if no match at its end takes the digit |
| `NumericGuard.LexBeforeSign` | src/reserving_workflow/ai_narrative.py:36-38 | Whatever stands before a minus sign lexes apart from it |
| `NarrativeDraft.AcceptanceMonotone` | src/reserving_workflow/ai_narrative.py:162-198 | More evidence never turns an accepted draft into a rejected one |
| `NarrativeDraft.IntegerTokenExact` | src/reserving_workflow/ai_narrative.py:187-198 | A token without a decimal point passes exactly on its own value, up to sign, or as a year |
| `NumberSupport.PointTokenExactly` | src/reserving_workflow/ai_narrative.py:187-198 | A token with decimals passes if and only if it writes a year, or some allowed item, for its value or that without the sign, is within a millionth of it or rounds to it at the token's last decimal, ties to even |
| `NumberSupport.PassesNearEvidence` | src/reserving_workflow/ai_narrative.py:187-198 | So a figure that passes is within a millionth of an allowed item or within half a unit of its own last decimal, up to its sign |
| `NumberSupport.WholeTokenExactly` | src/reserving_workflow/ai_narrative.py:187-191 | A token without decimals passes exactly on the number its digits write, up to its sign, or as an unsigned year |
| `NumberSupport.TokenWrites` | src/reserving_workflow/ai_narrative.py:162-173 | The value of a token is the number its sign, digits and decimals write |
| `NumberSupport.TokensWrite` | src/reserving_workflow/ai_narrative.py:36-36 | Everything examined is an optional sign, digits and optional decimals |
| `NarrativeDraft.ClipExactly` | src/reserving_workflow/ai_narrative.py:228-230 | A drafted text is shown whole, or its first six hundred characters |
| `NarrativeDraft.PointsShown` | src/reserving_workflow/ai_narrative.py:114-115 | The key points shown are the first eight that are not empty once clipped, in their order |
| `NarrativeDraft.EvidenceNumbers` | src/reserving_workflow/ai_narrative.py:151-159 | The allowed set is exactly the implicit numbers, those the evidence mentions within the bounds, and the digits of the case id |
| `NarrativeDraft.IterNumbers` | src/reserving_workflow/ai_narrative.py:201-221 | The traversal yields exactly the numbers within its depth and width bounds |
| `EvidencePaths.MentionsExactly` | src/reserving_workflow/ai_narrative.py:201-221 | The evidence mentions a number if and only if a leaf at most four levels down, always among the first fifty entries, is the number or a text with it among its first twenty |
| `EvidencePaths.TraceableExactly` | src/reserving_workflow/ai_narrative.py:151-159 | A number is traceable exactly if it is 0, 1 or 100, found so in the evidence, or written in the case id without a sign |
| `NarrativeDraft.DraftText` | src/reserving_workflow/ai_narrative.py:71-125 | Model wording is used exactly when the slot is on, the model answered and every number shown is grounded in the run; otherwise the template stands, with the reason |
| `EvaluationLanes.ValidateBenchmarkBudget` | src/reserving_workflow/api/app.py:2106-2143 | A refused request names its first quota breach; a granted budget exceeds neither the policy nor the request |
| `EvaluationLanes.RunBoundedCases` | src/reserving_workflow/evaluation/adk_lanes.py:183-302 | The results are the verdicts in order, cut short at most by the clock; the totals are the sums over completed cases and stay within the limits |
| `EvaluationLanes.TryCase` | src/reserving_workflow/evaluation/adk_lanes.py:210-295 | The totals move before the digest is taken, yet an exception never leaves them moved |
| `EvaluationFacts.CompletedExactly` | src/reserving_workflow/evaluation/adk_lanes.py:210-290 | A case completes exactly when nothing raises and its prints stay within the budget's own input, output, total and temporary entries, and then reports its bytes and digest |
| `EvaluationFacts.FailureExplained` | src/reserving_workflow/evaluation/adk_lanes.py:210-295 | A failed case names a limit its bytes break, or something of its own raised, and then it reports no bytes |
| `EvaluationFacts.InputLimitFirst` | src/reserving_workflow/evaluation/adk_lanes.py:210-221 | The input limit is named exactly when the payload's print breaks it |
| `EvaluationFacts.TimeoutExactly` | src/reserving_workflow/evaluation/adk_lanes.py:199-209 | A case is timed out exactly when the budget's wall time has run out before it, and the run stops there |
| `EvaluationLanes.AggregateExact` | src/reserving_workflow/evaluation/adk_lanes.py:365-376 | On the loop's results the aggregate is completed, timeout or failed exactly when it should be, and the last return is never reached |
| `EvaluationLanes.BoundedBenchmark` | src/reserving_workflow/api/app.py:2106-2143 | A granted benchmark stays within the server's total and temporary-storage ceilings |

## Left out

- HTTP routes, middleware, cookies, console pages and the browser smoke script.
- The reserve calculation and its libraries: an arbitrary deterministic function that may fail.
- Model calls: a reply is an arbitrary value or missing.
- SHA-256, HMAC and random tokens themselves, and the constant-time comparison; the confirmation signature of `verify_adk_confirmation`.
- Binary floats and the 28-digit decimal context: exact numbers. The conversion of micro-unit amounts to floats on output.
- Non-ASCII digits and whitespace, and Python's limit on the length of printed integers.
- Symbolic links, path resolution and case-insensitive file systems: paths are texts, and a read finds a file only under the exact text of its path.
- Conflicts between a file and a directory of one name among submitted components, which the materialized source cannot contain.
- Concurrent importers, file locks and threads: runs are sequential.
- The field checks of `_verify_evaluation_manifest` and the derived default case id: a request carries a verified bundle or none.
- The wording of the review documents and the component listing inside them: arbitrary records stamped with case, run, operator and workspace.
- Abandoned staging directories after an interrupted import; they have names of their own and are never read.
- The text form of values other than text under the assignee, the workspace or the reasons of a review packet the importer did not write; the review keeps the values themselves.
- The review status and the run status echoed in the import result; later decisions on a review.
- A submission entry whose path is not text sorts as an empty path; the program may stop with a type error there. It is refused in both.
- `_sanitize_adk_step_payload`: what it removes besides directories in paths, and the review packet's links, belong to the rest of a document, which one arbitrary function cleans.
- Steps of a non-ADK run, whose manifests keep absolute paths.
- LedgerRun.RunWorkflow: step ids are single components without a backslash, as catalogue ids are.
- LedgerChain.PublishedSound: an input named with a backslash leads out of the step's directory, which a statement about one step cannot decide; `LedgerOutcome.RunChainFailsExactly` covers such names.
- A staged manifest whose paths or digests are neither a dictionary nor empty: the program stops with a type error there, the model takes them as empty.
- The early return of the background wrapper when no registry path is given; every HTTP path gives one.
- Inside a replay: the comparison of the root manifest with the recorded provenance, the schemas of the saved input and result, the identity checks and the recalculation are arbitrary predicates on the documents read.
- Slicing by `case_limit`, evidence records and retention of the evaluation lanes.
- Redaction, cleanup, the constitution engine, the review console, run comparison and replay reports.
- The process launcher and job objects.
