# Kioku enclave: verified models

A Dafny model of the parts of the Kioku enclave server and its image tooling whose
correctness rests on more than one line of code, with proofs of what they promise:

- **Recording leases** (`RecordingLease*.dfy`, `RecordingOffline.dfy`, `ReceiptTables.dfy`,
  `LeaseResponse.dfy`, `EventIdentity.dfy`). The lease and offline-usage handlers are a state
  machine whose steps are their awaits. The process may stop between any two steps; receipt
  rows, the active lease and the billing ledger survive, locals do not. A committed transaction
  may be reported as failed, and a charge without a reply may land later.
- **Shutdown drain** (`ServingDrain.dfy`). Any number of request threads race one drainer and
  any number of shutdown waiters over two atomics and a notifier.
- **Image pipeline** (`ImagePipeline*.dfy`, `ReleaseTags.dfy`, `ReceiptFiles.dfy`). Build, scan, push and final
  receipts in one output directory, over any history of invocations, crashes (including torn
  files) and outside replacement of the artifact and the reports.
- **Stored media** (`MediaIdentity.dfy`, `BoundBlob.dfy`, `MediaStore.dfy`, `FakeGcs.dfy`,
  `MediaDeletion.dfy`). Object keys, authenticated contexts, conditional writes, paginated
  listing, deletion of every generation.
- **Text algorithms** (`ChunkText.dfy`, `ChunkedBody.dfy`, `SalientOcr.dfy`, `Text.dfy`).
- **Baked configuration** (`BakedConfig.dfy`). Printer, server loader, migration reader.
- **Margin report** (`Margin.dfy`, `MarginExact.dfy`). Fail-closed decoration of the upstream report.

`Prelude.dfy`, `Json.dfy` and `Decimal.dfy` hold what several of these share. Check everything
with `dafny verify dfyconfig.toml`.

## Assumptions

- Leases: one handler at a time per user (the gate of `src/cp/billing.rs:51-77` is local to one
  process); the clock does not go backwards; the ledger records an allowed event once, says
  duplicate afterwards, and never refuses an event it has allowed. Times are milliseconds
  rather than ISO text. SHA-256 is collision-free, so an event is its preimage.
- Drain: sequential consistency, each load, store, `fetch_add`, `fetch_sub` and
  `notify_waiters` one step. The code uses Acquire/Release orderings.
- Pipeline: one invocation at a time per directory (the run lock); hashes are collision-free,
  and the image repository is part of the configuration a build is bound to by hash;
  `docker`, `skopeo`, `syft` and `grype` either give a result or fail.
- Media: AES-GCM is an ideal AEAD (RFC 5116): what was never sealed does not open. A listing
  that ends enumerates what the bucket holds, and nobody else writes the bucket while an object
  is being deleted. The page bound is a parameter; the code uses 1,000,000.
- Text is a sequence of characters and bytes are characters below 256. Character classes,
  lower-casing, UTF-8 decoding, the OCR boilerplate test and title score, and time parsing are
  parameters, so the theorems hold for all of them.

## Findings

- *A pruned receipt can be paid for once and granted twice.* Completing a lease deletes settled
  receipts older than seven days (`src/persistence/postgres/billing.rs:1076-1084`). If the
  client sends such a request id again and the reply to its charge is lost, recovery accepts
  the ledger's duplicate answer and grants another minute for the same event.
  `PrunedReceiptOverrunsMeter` is a concrete run; `DoubleGrantExactlyWhenReceiptLost` gives the
  exact condition.
- *A push receipt rules out another upload, not another container build.* A resumed push
  whose artifact is gone builds again: `RebuildAfterPushExactly`, `RebuildAfterPushHappens`.
- *Only release tags resume to identical evidence.* Any other source is named after the second
  it was built in, so its resume is refused a second later. `ResumeRefusedHappens` gives the
  history for every such push; `ResumeRecomputesEvidence` the exact condition.
- *A scan receipt does not say what was scanned.* The artifact is hashed before its inventory is
  made from the same path, and not again before the scan is recorded
  (`scripts/local_image_pipeline.py:2762-2800`), so bytes can be pushed that were never scanned:
  `UnscannedPushHappens`. `ScansHonestExactly` gives the exact condition.
- *Soft deletion is reported as failure.* With soft deletion enabled, deleting an object that
  exists always ends in an error, as `DeleteAllGenerations` states.
- The comment on `dechunk_http_body` describes chunks without extensions; the code accepts and
  ignores them, and ignores everything after the final size line. White space before an
  extension's semicolon is refused. The model follows the code.

## Model

| member | source | states |
|---|---|---|
| `RecordingLeaseProofs.StepKeepsInvariant` | src/cp/billing.rs:1419-1714 | Every await of the lease and offline handlers, every crash, tick, late charge and pruning keeps: at most one pending row, charged and completed rows agree, every enforce-mode grant has an allowed event, granted minutes bound the passed and remaining time |
| `RecordingLeaseProofs.RunKeepsInvariant` | src/cp/billing.rs:1419-1714 | The same over whole runs |
| `RecordingLeaseProofs.CompletionAddsOneMinute` | src/persistence/postgres/billing.rs:1004-1086 | A completion, first attempt or recovery, extends the paid time by at most one minute |
| `RecordingLeaseProofs.PassedTimeIsEntitledTime` | src/cp/billing.rs:1743-1761 | The metered time is exactly the milliseconds at which the upload check of enforce mode passes |
| `RecordingLeaseProofs.MeteringConservation` | src/cp/billing.rs:1419-1652 | In every enforce-mode run that never begins a granted request again, time passed plus time still paid for is at most 60 s per distinct live event allowed, and delivery minutes are at most the events allowed |
| `RecordingLeaseProofs.GrantConservation` | src/cp/billing.rs:1419-1652 | In every run, in either mode, the same time is at most 60 s per grant, and delivery minutes equal grants plus offline receipts |
| `RecordingLeaseProofs.DistinctGrantsWithin` | src/cp/billing.rs:1083-1099 | Distinct grants number at most the ledger events that back them |
| `RecordingLeaseProofs.ReattachAddsNothing` | src/cp/billing.rs:1419-1552 | Over every run in which a request goes from its lookup to being handed a lease, up to its answer: active lease, offline receipts, minutes, grants and charges sent are unchanged, rows are at most pruned, and the lease handed back is the one that was active when the request came |
| `RecordingLeaseProofs.ChargeAndGrantMatch` | src/cp/billing.rs:1487-1651 | After any run, a completion that commits grants the one pending row, which is the row charged, leaves nothing pending, and in enforce mode has an allowed event; otherwise nothing changes |
| `RecordingLeaseProofs.RunKeepsGrantedOnce` | src/cp/billing.rs:1487-1651 | Unless a granted request is begun again, no request is granted twice and nothing pending has been granted |
| `RecordingLeaseReplay.ReplayStability` | src/cp/billing.rs:1443-1468 | After any run to a grant and any run from it that keeps the receipt, a replay of the request gets the identical reply, or an idempotency conflict if it names another lease, and changes nothing |
| `RecordingLeaseReplay.RunKeepsSettledRow` | src/persistence/postgres/billing.rs:912-1103 | A settled receipt stays as it is in every run that does not prune it |
| `RecordingLeaseReplay.YoungReceiptIsKept` | src/persistence/postgres/billing.rs:1076-1084 | No run prunes a settled receipt within seven days of its beginning |
| `RecordingLeaseReplay.RowsKeepTheirTime` | src/persistence/postgres/billing.rs:912-949 | A row carries the time its begin committed at, and keeps it |
| `RecordingLeaseReplay.ReplayStableForAWeek` | src/cp/billing.rs:1443-1468 | For a week after it was begun a granted request answers every replay with the body it answered first, whatever else happens |
| `RecordingLeaseReplay.RetainedReceiptsConserve` | src/cp/billing.rs:1419-1652 | As long as no receipt is pruned, grants are distinct and metering is conserved, whatever clients send |
| `RecordingLeaseReplay.DoubleGrantExactlyWhenReceiptLost` | src/persistence/postgres/billing.rs:1076-1084 | From a reachable state with distinct grants, a run that prunes no more can grant an event twice if and only if some granted request's receipt is gone or begun again |
| `RecordingLeaseReplay.PrunedReceiptOverrunsMeter` | src/persistence/postgres/billing.rs:1076-1084 | A concrete enforce-mode run that grants one event twice and passes more time than its ledger events pay for |
| `RecordingLeaseHorizon.PaidAheadBounded` | src/cp/billing.rs:1112-1119 | In every reachable state of either mode, at most 85 s (renewal window plus one minute) are paid ahead |
| `RecordingLeaseHorizon.RunKeepsBanked` | src/cp/billing.rs:1520-1575 | Over every run, while a minute is being bought the active lease is within its renewal window, and every minute bought ends within the horizon, recoveries included |
| `RecordingLeaseRequest.RunServes` | src/cp/billing.rs:1419-1652 | Where a fresh request stands at every point of every run without other arrivals, relative to the state it came in |
| `RecordingLeaseRequest.RenewalExtendsByAMinute` | src/cp/billing.rs:1562-1575 | A request granted for the lease it names leaves that lease expiring exactly 60 s later than before, however long it took and whatever ran in between, and only within 25 s of that expiry: renewals neither overlap nor leave a gap |
| `RecordingLeaseRequest.NewMinuteRunsFromNow` | src/cp/billing.rs:1520-1561 | A request granted without naming a lease pays for the minute from a moment between its arrival and its answer, under the id of the active lease if there is one, of which at most 20 s were left |
| `RecordingLeaseRequest.RefusalsAreDeserved` | src/cp/billing.rs:1520-1575 | Inactive is answered only if by then no unexpired lease of the name was active, too early only if more than 25 s were left when the request came, and a lease is handed back only with more than 20 s left |
| `RecordingLeaseAnswers.EveryAnswerHasItsCause` | src/cp/billing.rs:1419-1652 | Over every run without other arrivals: unavailable only after something failed, rate-limited only by the limiter, denied only in enforce mode with the ledger's own code and summary, conflict only for an event the ledger had, no answer only after a crash; a grant shows the active lease |
| `RecordingLeaseAnswers.NothingWrongIsAnswered` | src/cp/billing.rs:1419-1652 | A request for which nothing goes wrong is granted, or refused for what the ledger or the active lease says |
| `RecordingLeaseModes.ShadowNeverDenies` | src/cp/billing.rs:1331-1346 | In shadow mode no run stores a denial or answers with one |
| `RecordingLeaseModes.ShadowGrants` | src/cp/billing.rs:1331-1346 | From every reachable charge in shadow mode, whatever the ledger answers unless a first charge is a duplicate, the next awaits grant the row charged |
| `RecordingLeaseModes.AcceptedChargeGrants` | src/cp/billing.rs:1576-1651 | In either mode a charge it accepts, new or retried, ends with the row granted, its lease active under the id issued, the summary and retention authority stored, and that lease as the answer |
| `RecordingLeaseModes.FreshDuplicateConflicts` | src/cp/billing.rs:1108-1110 | A first charge of an event the ledger had marks the row conflicted and grants nothing |
| `RecordingLeaseModes.RejectedChargeDenies` | src/cp/billing.rs:1320-1346 | In enforce mode a refused charge becomes a denial with the ledger's words in place of the row; an unanswered one leaves the row pending |
| `RecordingLeaseModes.DenialStability` | src/cp/billing.rs:1443-1468 | After any run to a denial and any run that keeps it, a replay gets the same code and summary, or a conflict if it names another lease, and changes nothing |
| `RecordingLeaseModes.ConflictStability` | src/cp/billing.rs:1443-1468 | A request marked conflicted conflicts on every replay that finds its row |
| `RecordingLeaseModes.RunKeepsContinuing` | src/persistence/postgres/billing.rs:1020-1047 | Over every run the row being bought continues the active lease |
| `RecordingLeaseModes.NeverSuperseded` | src/persistence/postgres/billing.rs:1020-1047 | So a completion is never refused because another lease became active |
| `RecordingOffline.OfflineReportAnswered` | src/cp/billing.rs:1654-1714 | An offline report, over every run without other arrivals: recorded, it adds one minute and one receipt exactly if it is new, and is called a duplicate only if store or ledger knew it; denied only by the ledger in enforce mode; unavailable only after a failure; no lease is touched |
| `RecordingOffline.OfflineReportRecorded` | src/cp/billing.rs:1654-1714 | If nothing goes wrong and the ledger does not refuse it, it is recorded |
| `ReceiptTables.Tables.Begin` | src/persistence/postgres/billing.rs:912-949 | Inserts the pending row, refused if the request is known or another is pending; nothing else changes |
| `ReceiptTables.Tables.Deny` | src/persistence/postgres/billing.rs:951-1002 | Moves the pending row to the denials, refused otherwise |
| `ReceiptTables.Tables.MarkConflict` | src/persistence/postgres/billing.rs:1088-1103 | Marks the pending row conflicted |
| `ReceiptTables.Tables.Complete` | src/persistence/postgres/billing.rs:1004-1086 | Grants the pending row and sets the active lease in one step, refuses a superseded lease, and deletes only settled rows past retention |
| `ReceiptTables.Tables.RecordOffline` | src/persistence/postgres/billing.rs:513-534 | Records an offline minute once per request |
| `ReceiptTables.PruningIsARun` | src/persistence/postgres/billing.rs:1076-1084 | The deletion inside a completion is a run of the machine's pruning steps |
| `LeaseResponse.AuthorizedSummaryIdempotent` | src/cp/billing.rs:1121-1157 | Rewriting a rewritten summary changes nothing |
| `LeaseResponse.AuthorizedSummaryKeepsArithmetic` | src/cp/billing.rs:1121-1157 | allowance = used + remaining survives the rewrite |
| `LeaseResponse.LeaseBodySays` | src/cp/billing.rs:1171-1188 | The body carries the lease's id and expiry; its billing section says recording is allowed for no reason, has lost the retention authority and is otherwise as it was; the authority stands beside it under the one spelling of its policy |
| `EventIdentity.EventPreimagesDistinguish` | src/cp/billing.rs:1083-1099 | Two hashed strings agree exactly when kind, account and request agree |
| `ServingDrain.RunKeepsInv` | src/main.rs:316-383 | Every interleaving keeps the counter, quietness and wake-up invariant |
| `ServingDrain.DrainSafety` | src/main.rs:317-357 | Once the drainer has set draining and read zero, no request guard is live, then or after any further steps of any threads |
| `ServingDrain.CounterExact` | src/main.rs:317-335 | In every reachable state the counter is the number of threads between increment and decrement, and no decrement underflows |
| `ServingDrain.WakeupsDelivered` | src/main.rs:331-372 | No reachable state has a parked drainer or waiter whose condition holds with no notification delivered or owed |
| `ServingDrain.RefusalsAndReleasesDeserved` | src/main.rs:317-372 | In every reachable state a thread is refused, or backing out, only if the server is draining, and a shutdown waiter has returned only if the shutdown is complete |
| `ServingDrain.RequestsAreAdmitted` | src/main.rs:317-329 | While no signal has come, whatever others do in between, a thread on its way in takes exactly its own steps to its guard |
| `ServingDrain.ArrivalIsServed` | src/main.rs:317-329 | An arrival that takes three steps before the signal holds its guard |
| `ServingDrain.LateArrivalsNeverCount` | src/main.rs:317-320 | After the signal an arrival is turned away without entering the count |
| `ServingDrain.OwnStepDoesWork` | src/main.rs:317-372 | Every step of the parties present lowers the remaining work, so no scheduling runs forever |
| `ServingDrain.StuckMeansDone` | src/main.rs:346-372 | When nobody can step, the drain has ended and every waiter has returned |
| `ServingDrain.EveryOrderCompletes` | src/main.rs:317-372 | From every state of the invariant, every run of steps of the parties present is no longer than the work there is, and every one that cannot be continued ends with the drain done, quietly unless its deadline had passed before, no guard live and every waiter returned |
| `ServingDrain.DrainCompletes` | src/main.rs:687-700 | However far such a run has gone, it can be continued to that end |
| `ServingDrain.ServingLifecycle.AdvanceThread` | src/main.rs:317-335 | The thread's next atomic operation on the shared object is the machine's step |
| `ServingDrain.ServingLifecycle.AdvanceDrainer` | src/main.rs:337-362 | The same for the drainer |
| `ServingDrain.Serve` | src/main.rs:308-383 | Any schedule executed on the shared object ends in exactly the state a run of the machine, made of entries of the schedule, reaches from the start; so the counter is exact, a quiet drain leaves no guard, no wake-up is lost |
| `ImagePipelineProofs.StepKeepsInv` | scripts/local_image_pipeline.py:2634-2903 | Every step of every invocation, crash, torn write and outside replacement keeps each receipt backed by its predecessors |
| `ImagePipelineProofs.RunKeepsInv` | scripts/local_image_pipeline.py:2562-2903 | The same over whole histories |
| `ImagePipelineTheorems.PushProvenance` | scripts/local_image_pipeline.py:2319-2520 | The digest of a push receipt is the manifest digest of a build receipt and a scan receipt for the same artifact hash; the frozen evidence is whole, names the receipt's address and carries those receipts' times; every upload went to that address with the bytes of a recorded build and scan, and one of them sent this artifact; at most one push is recorded |
| `ImagePipelineUploads.UploadsGoWhereTheEvidenceSays` | scripts/local_image_pipeline.py:2429-2520 | Over every history, once anything was uploaded the evidence is whole and every upload, recorded or not, went to the address it names; every push receipt has an upload of its artifact with its digest to its address |
| `ImagePipelineTheorems.ReceiptsComeInOrder` | scripts/local_image_pipeline.py:2706-2903 | Later receipts imply the earlier ones they name |
| `ImagePipelineTheorems.ReceiptsNeverChange` | scripts/local_image_pipeline.py:1430-1455 | Receipts and frozen evidence neither vanish nor change, torn ones included |
| `ImagePipelineTheorems.NoUploadAfterPushReceipt` | scripts/local_image_pipeline.py:2831-2870 | With a push receipt on disk, even a torn one, no history uploads again |
| `ImagePipelineTheorems.RebuildAfterPushExactly` | scripts/local_image_pipeline.py:2634-2706 | With a push receipt, a resumed invocation builds again exactly when it is a push and the artifact is gone |
| `ImagePipelineTheorems.RebuildAfterPushHappens` | scripts/local_image_pipeline.py:2634-2706 | For every job a history with a push receipt and two container builds |
| `ImagePipelineTheorems.NoBuildOverArtifact` | scripts/local_image_pipeline.py:2706-2760 | As long as something sits at the artifact path, no history builds |
| `ImagePipelineTheorems.ReceiptsWithoutEvidenceRefuse` | scripts/local_image_pipeline.py:1893-1913 | A receipt without build evidence closes the directory: every later invocation is refused before doing anything |
| `ImagePipelineTheorems.StrandedOutputsRefuse` | scripts/local_image_pipeline.py:2873-2881 | Final outputs without their receipt close the directory to pushes: no later history uploads or records one |
| `ImagePipelineTheorems.RegistryDisagreementRefused` | scripts/local_image_pipeline.py:2908-2912 | A push receipt is not reused if the registry has another digest |
| `ImagePipelineHistories.PushDelivers` | scripts/local_image_pipeline.py:2706-2903 | For every job an undisturbed push ends with one build, one scan of it, one upload of it to its address, and the four receipts and the evidence with exactly the job's hashes, digests and times |
| `ImagePipelineTheorems.ImageUriStableExactly` | scripts/local_image_pipeline.py:1207-1228 | For the same profile, source and build the image address is the same exactly for a release tag or the same second |
| `ImagePipelineTheorems.ResumeRecomputesEvidence` | scripts/local_image_pipeline.py:1489-1520 | After an invocation froze its evidence and any history followed, an invocation that has found the same build and scan receipts is a resume; a push proceeds with the identical evidence exactly if profile and source are the same and the source is a release tag or the second is the same, and is refused otherwise; the directory is left alone |
| `ImagePipelineTheorems.LaterInvocationsResume` | scripts/local_image_pipeline.py:2634-2635 | Once the directory exists, every later invocation is a resume |
| `ImagePipelineTheorems.ResumeRefusedHappens` | scripts/local_image_pipeline.py:1219-1228 | For every push from anything but a release tag, a history in which its resume in another second finds both receipts and is refused for its image address alone |
| `ImagePipelineTheorems.TagResumeProceeds` | scripts/local_image_pipeline.py:1489-1520 | For every push from a release tag, a history in which its resume at any time goes on to push the same artifact to the same address |
| `ImagePipelineTheorems.FinishedReleaseResumes` | scripts/local_image_pipeline.py:2870-2915 | A finished release resumed at any time finds its four receipts and builds, uploads and writes nothing |
| `ReleaseTags.VersionsAreTags` | scripts/local_image_pipeline.py:1207-1228 | Every v-number-number-number, with or without suffix or ref prefix, is a release tag, and the image address ends in it |
| `ReleaseTags.TagsLookLikeVersions` | scripts/local_image_pipeline.py:1207-1216 | A release tag is the source less its ref prefix and starts with v and a number without a needless zero |
| `ImagePipelineScans.ScansHonestExactly` | scripts/local_image_pipeline.py:1623-1639 | Over every history, every inventory was made of the artifact its scan names if and only if none was made while something else was at the artifact path |
| `ImagePipelineScans.UploadsWereScanned` | scripts/local_image_pipeline.py:2762-2800 | Then every uploaded artifact, byte for byte, had its inventory made |
| `ImagePipelineScans.NoSwapUploadsWereScanned` | scripts/local_image_pipeline.py:2762-2800 | In particular if nobody replaces the artifact between its hash check and its inventory |
| `ImagePipelineScans.UnscannedPushHappens` | scripts/local_image_pipeline.py:2762-2800 | For every job and every other artifact, a history that scans the other and pushes the job's own |
| `ReceiptFiles.Files.WriteImmutable` | scripts/local_image_pipeline.py:1430-1455 | An existing file is accepted only with the same bytes and is never rewritten |
| `ReceiptFiles.FindStageReceipt` | scripts/local_image_pipeline.py:1839-1890 | One pass over any listing order finds the one valid receipt, nothing, or refuses to choose |
| `MediaIdentity.KeysPrefixFree` | src/gcs.rs:21-66 | A canonical key is a prefix of another exactly when namespace, account and asset agree: keys are injective, disjoint and prefix-free |
| `MediaIdentity.KeysRouteHome` | src/gcs.rs:253-263 | Each canonical key routes to its own provider |
| `MediaIdentity.BuildRecordingContext` | src/gcs.rs:97-167 | The buffer built field by field is the framed context, with the same refusals |
| `MediaIdentity.FramesSplit` | src/gcs.rs:138-147 | Length framing is uniquely decodable, whatever follows |
| `MediaIdentity.AcceptableHasContext` | src/gcs.rs:138-147 | Accepted facts are never too large to frame |
| `MediaIdentity.RecordingContextExact` | src/gcs.rs:97-167 | Two accepted fact tuples share a context exactly when every fact agrees, the hash up to letter case |
| `MediaIdentity.ContextsDisjoint` | src/gcs.rs:69-71 | A recording context is never an ordinary media context |
| `MediaIdentity.MediaContextExact` | src/gcs.rs:69-71 | Ordinary contexts of valid accounts agree exactly when account and object agree |
| `BoundBlob.OpensOnlyUnderItsContext` | src/crypto.rs:114-142 | Under its key a sealed blob opens under exactly its context, to exactly its plaintext, then and after any further encryptions; under another key only if those very bytes were sealed under that key too |
| `BoundBlob.OpensOnlyWhatWasSealed` | src/crypto.rs:97-142 | Any bytes that open under a key and context were sealed under them with that plaintext |
| `BoundBlob.RecordingBlobBoundToFacts` | src/crypto.rs:124-142 | A recording segment opens under other accepted facts exactly when they are the same facts, and under no ordinary media context |
| `MediaStore.HistoryKeepsOrder` | src/gcs.rs:911-1000 | Over every history generations of an object strictly increase and at most the newest is live |
| `MediaStore.PutExact` | src/gcs.rs:929-967 | A write succeeds exactly against the live generation it names (none, for 0); then it is live, newest, and all other generations read as before; a refused write changes no read |
| `MediaStore.NoLostUpdate` | src/gcs.rs:929-967 | A generation can be overwritten once: after any history in between, the second writer that names it is refused |
| `MediaStore.GenerationsStayReadable` | src/gcs.rs:911-999 | A written generation reads back its own bytes and key until that very generation is deleted, over every history |
| `MediaStore.DeleteNeverRevives` | src/gcs.rs:985-1000 | Deleting a generation leaves the live version live or leaves none |
| `FakeGcs.Store.GetObject` | src/gcs.rs:902-909 | The reverse scan returns the live version |
| `FakeGcs.Store.GetObjectGeneration` | src/gcs.rs:911-927 | The scan returns that generation unless it is soft-deleted |
| `FakeGcs.Store.PutObject` | src/gcs.rs:929-967 | The in-place write is the conditional write of the history theorems |
| `FakeGcs.Store.DeleteObjectGeneration` | src/gcs.rs:985-1000 | The in-place delete, soft or hard, is the delete of the history theorems |
| `FakeGcs.Store.ListMatching` | src/gcs.rs:867-896 | The listing holds exactly the generations of either inventory whose names match |
| `FakeGcs.InMemoryProviderIsFaithful` | src/gcs.rs:867-896 | As a pager of one page it lists what is there and its listings always end, so it is a provider of the kind the deletion theorem asks for |
| `MediaDeletion.ListingExact` | src/gcs.rs:339-364 | Listing succeeds exactly when the provider's pages form a finite run within the bound whose cursors never repeat back to back, and returns exactly their concatenation |
| `MediaDeletion.ListAll` | src/gcs.rs:339-364 | The cursor loop computes that listing |
| `MediaDeletion.DeleteEffect` | src/gcs.rs:985-1000 | Deleting a generation removes exactly it from the stored inventory of its name |
| `MediaDeletion.Provider.DeleteListed` | src/gcs.rs:366-377 | The delete pass, with any call failing before or after it took effect, removes only generations of the name, and all of them if it succeeds |
| `MediaDeletion.Provider.DeleteAllGenerations` | src/gcs.rs:366-422 | Success leaves no live, noncurrent or soft-deleted generation of the name; every outcome leaves other names alone and adds nothing, so a retry is safe; without faults it succeeds exactly when soft deletion retains nothing |
| `ChunkText.Chunk` | src/embedding.rs:205-248 | For any text and positive window every chunk fits and is not blank, and non-space characters come out once each in order; in left-trimmed text every word that fits the window stays whole and the chunks tile the text, each cut at the last white space of its window or, without one, at its end |
| `ChunkText.ChunksDetermined` | src/embedding.rs:216-248 | There is only one such tiling |
| `ChunkText.EmbedChunks` | src/embedding.rs:147-157 | Fails exactly on blank text; otherwise the one tiling, in windows of 1,000, of the first 10,000 characters of the trimmed text, with at least one chunk |
| `ChunkedBody.Dechunk` | src/attestation.rs:306-351 | Ends on every body, never indexes out of range, and succeeds exactly when the payload is sound text |
| `ChunkedBody.DechunkExact` | src/attestation.rs:306-351 | Decoding gives a text exactly when the body begins with a well-formed encoding of it |
| `ChunkedBody.DechunkHttpBody` | src/attestation.rs:306-351 | The same of the decoder with its own reading of size lines |
| `ChunkedBody.SizeLineExact` | src/attestation.rs:316-323 | A size line reads as a number exactly if, trimmed, it is an optional sign, hex digits of that number in range, and extensions from the first semicolon on |
| `ChunkedBody.HexIsPositional` | src/attestation.rs:321-322 | Any split of a numeral weighs its left part by its right |
| `ChunkedBody.HexValueExact` | src/attestation.rs:321-322 | A digit of either case has the value of its place in the row of digits |
| `ChunkedBody.SizeLineReads` | src/attestation.rs:316-323 | A size written in hex, alone or with extensions, reads back as itself |
| `ChunkedBody.StandardRoundTrip` | src/attestation.rs:304-351 | Any list of non-empty chunks with optional extensions decodes to its concatenation, whatever follows |
| `SalientOcr.Scan` | src/ocr.rs:160-177 | The scan with its seen set keeps exactly the admitted, first-of-their-form, informative lines |
| `SalientOcr.SelectionIsRankFilter` | src/ocr.rs:179-186 | However it is sorted, sort, truncate and sort back keep exactly the candidates with fewer than k ahead of them by score then position, in source order |
| `SalientOcr.Select` | src/ocr.rs:179-186 | The lines kept are the 24 best, in source order |
| `SalientOcr.PackIsClip` | src/ocr.rs:188-203 | The joined output is the joined lines clipped to the room, never ending in a separator |
| `SalientOcr.PackShape` | src/ocr.rs:188-203 | The output is a prefix of the lines, of which only the last may be cut |
| `SalientOcr.PackFills` | src/ocr.rs:188-203 | A line is dropped or cut only because the room is used up |
| `SalientOcr.SalientOcrFromRaw` | src/ocr.rs:152-204 | The whole projection is the ranked lines, joined and clipped to 1,500 characters |
| `SalientOcr.FixpointsExactly` | src/ocr.rs:152-204 | A text is its own projection exactly when its lines are at most 24 compacted, distinct candidates within 1,500 characters |
| `SalientOcr.UncutOutputIsFixed` | src/ocr.rs:152-204 | If no line was cut, projecting the projection changes nothing |
| `SalientOcr.DeviceProjectionWins` | src/ocr.rs:142-150 | A device projection that is not blank wins: the result is its trimmed text up to 4,000 characters; a blank one counts as none; results are never empty and always bounded |
| `Text.CompactIdempotent` | src/ocr.rs:69-71 | Compacting twice is compacting once |
| `Text.WordsKeepAll` | src/ocr.rs:69-71 | Splitting at white space loses nothing else |
| `Text.TrimExact` | src/ocr.rs:143 | Trimming removes exactly the white space at both ends |
| `SalientOcr.InformationCounts` | src/ocr.rs:167-170 | The information of a line is its number of alphanumeric positions |
| `BakedConfig.RuntimeConfig` | scripts/local_image_pipeline.py:1256-1293 | Exactly the listed names: the profile name has the profile, any other the value of its source name if there is one, else of its own; fails exactly if one has neither |
| `BakedConfig.RuntimeConfigBytes` | scripts/local_image_pipeline.py:1313-1321 | Refuses exactly control characters; otherwise prints a line per name |
| `BakedConfig.Load` | src/main.rs:190-220 | The loop with its seen list leaves the ambient environment overridden by exactly the accepted file |
| `BakedConfig.LoadedExactly` | src/main.rs:190-220 | The loader accepts exactly files with one well-formed line for every listed name and none besides: duplicate, missing and unknown names are refused |
| `BakedConfig.LoadedPrint` | src/main.rs:190-220 | Loading the printed bytes of a complete, control-free configuration gives the same map, in any line order |
| `BakedConfig.ParseDeployedEntries` | scripts/bootstrap_local_operator_config.py:274-292 | Accepts exactly distinct well-formed entries of a production build and returns their map |
| `BakedConfig.ReadBakedConfiguration` | scripts/bootstrap_local_operator_config.py:116-125 | The text part of the reader, with its framing rules |
| `BakedConfig.RecoveredPrint` | scripts/bootstrap_local_operator_config.py:116-125 | The same round trip through the migration reader |
| `BakedConfig.LoaderReadsRecovered` | src/main.rs:190-220 | What the migration reader accepts, the loader accepts with the same map exactly when its names are the listed ones |
| `BakedConfig.ToolReadsLoaded` | scripts/bootstrap_local_operator_config.py:116-125 | What the loader accepts, the migration reader accepts with the same map exactly when the file is framed and for production |
| `BakedConfig.BuildReachesLaunch` | scripts/local_image_pipeline.py:1256-1321 | From selected configuration through the printed file, server and migration reader see exactly the values of the build, other profiles being refused by the latter |
| `Margin.CompleteExactly` | src/cp/billing.rs:2015-2054 | Coverage says complete exactly when local and anchored coverage are the same, with nothing pending or lost, and fresh |
| `MarginExact.FreshExactly` | src/cp/billing.rs:2020-2032 | Fresh to the millisecond: both times parse, in order, less than a second more than the limit apart |
| `MarginExact.ReconcileHidesNothing` | src/cp/billing.rs:2356-2376 | No reconciled count is lower than either side's, each is one of theirs, and unless both sides agree an event counts as lost |
| `MarginExact.CoverageReported` | src/cp/billing.rs:2040-2053 | The coverage section repeats the coverage number by number |
| `MarginExact.CoverageJudged` | src/cp/billing.rs:2033-2053 | It states age, limit and freshness, and if it is not complete, why |
| `Margin.DecoratedRowTruthful` | src/cp/billing.rs:2172-2236 | A row says complete exactly when its account earned it, and otherwise shows none of the figures that rest on Vertex cost |
| `MarginExact.DecoratedRowExact` | src/cp/billing.rs:2172-2236 | A row carries the labels of its account and no account id; complete, every figure of the upstream row; incomplete, none of the listed figures and all else as it was, in its nested sections too |
| `MarginExact.RowKeptExactly` | src/cp/billing.rs:2172-2180 | Rows of known accounts are kept and no others |
| `MarginExact.KeptInOrder` | src/cp/billing.rs:2172-2236 | Rows come out in the order they came in |
| `MarginExact.UnallocatedRowExact` | src/cp/billing.rs:2089-2108 | Taking the pool out of a row touches nothing else |
| `Margin.DecorateMargin` | src/cp/billing.rs:2155-2268 | The two passes over the rows compute the decorated report |
| `Margin.FailClosed` | src/cp/billing.rs:2120-2268 | The report is complete exactly when the fleet anchor is and every row earned it; otherwise every row's Vertex pool is unallocated and the report says incomplete, unallocated, and shows the reconciled cost as unallocated; a complete report is otherwise unchanged |
| `MarginExact.ReportExact` | src/cp/billing.rs:2120-2268 | Apart from rows, labels and metrics a complete report is the upstream one, and an incomplete one differs from it only in what it says about allocation |
| `MarginExact.MetricsReported` | src/cp/billing.rs:2253-2267 | The account metrics are those handed in |
| `Margin.OneAccountSpoilsReport` | src/cp/billing.rs:2326-2377 | One account whose local and anchored coverage differ, are missing, or have pending or lost events is enough |

## Left out

- HTTP, TLS, KMS, metadata and Secret Manager clients, routing and response shapes.
- Token verification and sign-in (`src/auth.rs`, `src/cp/auth.rs`, `src/cp/apple.rs`).
- SHA-256, AES-GCM, base64 and JSON text: abstract, under the assumptions above.
- The neural encoder and vector arithmetic of `src/embedding.rs`; PEM parsing in `src/tls.rs`.
- File ownership, modes, symlinks, descriptors and the subprocesses of the scripts: only their outcomes appear.
- Field validators of `scripts/select_build_configuration.py` and `scripts/verify_release_metadata.py`.
- `operator_values` of the migration tool, which renames fields one by one, and the 256 KiB bound on the file it reads.
- The migration-phase dispatcher and activation receipts of `src/main.rs`.
- Rate limiter internals (its answer is an input of the machine) and delivery reservations, which spend the minutes counted here.
- When a paid lease is handed back, reading the summary and its retention authority is one step that succeeds or fails.
- The issue and expiry columns of denials: a denial may be pruned at any time, which is more than the database does.
- The order in which the in-memory provider sorts its listings, and in which the build sorts names: theorems hold for every order.
- The concrete list of 42 configuration names: the list is a parameter; the facts used are that names differ and are upper-case identifiers.
- The `OneAccountSpoilsReport` family does not cover rows of accounts without an identity, which the code drops from the report.
- The mapping of the ledger's refusal reasons to public denial codes: the machine is given the code.
- Error texts: an error is an error, and its wording carries no claim.
