# Discovery engine: durable core, verified model

This project models the durable core of the attack-surface platform's discovery engine and the
asset code it drives, and proves what that core is for. Four parts:

1. **Callback inbox and run life** (`Runs`, `Callbacks`, `RunUpdates`, `CallbackProtocol`,
   `CallbackConvergence`, `CallbackAnswers`, `RunEffects`, `IngestHandler`, `LockOrder`). An external engine posts numbered callbacks,
   replayed and out of order. Receipt stores each once; workers claim, ingest and complete them; a
   sweep releases abandoned claims; dispatch, operators, a reconciler and a timeout change the run
   concurrently. One run is a step system over (run row, inbox, workers, updaters). Receipt and
   completion are single steps because both lock the run row first (`GetTaskRunForUpdate`,
   `internal/platform/db/query/discovery.sql:163-167`); claim, fail, release and enqueue are single
   statements; the read and the guarded UPDATE of a run change are two steps. Theorems quantify over
   every event sequence.
2. **Network enrichment lease queue** (`Enrichment`, `EnrichmentProtocol`, `EnrichmentCauses`,
   `EnrichmentWorker`). Leases
   with fresh tokens, expiry, attempt caps, source hashes, manual retry; again all interleavings.
3. **Authorization** (`Targets`, `UrlRules`, `ScopeDecision`, `Coverage`, `Resolution`,
   `ResolvedEndpoints`, `Inheritance`, `Continuation`, `DerivedTargets`, `Batching`). The matcher, what is generated from it, and the dispatch check.
4. **Result paging and lifecycle** (`PackingLoop`, `ResultPaging`, `ResultFacts`, `AssetLifecycle`,
   `ImportPreview`, `ProjectBinding`).

Code that changes stored state is modelled as classes and methods proved against specification
functions on values (`ClaimTx`, `CompleteTx`, `DecisionOf`, `Kept`, ...); laws and invariants are
proved about those functions. The guards follow the SQL in `internal/platform/db/query/discovery.sql`
and in the Go text.

## Where the code does not keep its promise

Each entry names the lemma with a concrete input or the exact condition.

- A callback row whose tenth attempt is interrupted can never be claimed or released again
  (`attempt < 10` in both statements), so its run cannot be closed by the callback path:
  `TenCrashesWedge`, exact condition `ClosesIffAlive`.
- A passive reconciler whose inbox reading was empty may close the run as success over a callback that
  arrived meanwhile: `EmptyInboxRace`. With a non-empty reading it never decides a run that is still
  open: `PassiveSuccessOverInboxIsVoid`.
- The reconciler's `FOR UPDATE` listing and the release sweep lock callback rows without their run
  (`internal/discovery/service.go:1526`, `internal/platform/db/query/discovery.sql:459-469`). Beside
  transactions that keep the lock order, such a statement can take part in a wait circle exactly when
  it locks two rows of one run: `DangerousStatements`, so `ListingClosesACircle` (more than one row
  listed) and `SweepClosesACircle` (two rows of one run swept).
- The counters of an active asset at the 32-bit ceiling separate the two lifecycle forms
  (unreachable from a new asset): `AgreementCondition`.
- A confirmed derived target becomes allowed exactly when its value is a well-formed target of the kind
  it is filed under (or another confirmed row matches it): `ConfirmedTargets`, `MisfiledAddress`.
- The comment on `validateInheritedSnapshot` says a changed parent fails closed
  (`internal/discovery/inheritance.go:424-425`); the code checks only the format of the stored parent
  fingerprint. Every valid snapshot also validates under a parent with another fingerprint:
  `FingerprintIsNotCompared`. Exact condition for a replaced parent: `ParentReplaced`.
- The comment on `DryRun` says tenant, organization and actor are overridden
  (`internal/asset/service.go:415-419`); only the project is. Preview and import agree on every row
  exactly when each otherwise acceptable row has the three within their column widths iff the batch
  has: `PreviewPredictsFailures`; input, an actor of 65 bytes: `OverriddenIds`.
- The preview compares keys exactly, the table by a case-insensitive collation
  (`migrations/000004_create_asset.up.sql:44`): `New` equals the number of added assets exactly when no
  two new keys fold together: `NewPredictsAdded`, `TwoSpellings`.
- A remote engine without idempotent ensure can turn a resolver away and orphan its project:
  `ConflictWithoutIdempotence`; safety of the binding does not need idempotence: `OneProject`.

## Model

| member | source | states |
|---|---|---|
| Callbacks.ValidateCallbackPayload | internal/discovery/callback.go:425-494 | A payload is accepted iff it has a run and sequence number, a legal phase/status pair, each kind of fact within its bound, and a result count equal to the facts it carries, at most 2000. |
| Callbacks.CallbackFinalState | internal/discovery/callback_ingest.go:148-214 | On any listing order, the answer is the verdict of the lowest final marker once everything from 1 up to it is present and processed, otherwise "not ready". |
| Callbacks.RunStore.HandleCallback | internal/discovery/callback.go:193-292 | Rejections come in the documented order, the secret reference last, and change nothing; a replay with the same hash is a duplicate, with another hash a conflict; a new callback is stored only while the run is running and adds nothing to its count; an accepted callback is enqueued iff it still waits. |
| Callbacks.RunStore.MarkRunCallbackReceived | internal/discovery/repository.go:685-695 | Succeeds iff the run is running, and then adds the count; otherwise nothing changes. |
| Callbacks.RunStore.ClaimDiscoveryCallbackIngest | internal/platform/db/query/discovery.sql:314-325 | Claims exactly a waiting, failed or stale processing row with attempts left, counting the attempt. |
| Callbacks.RunStore.FailDiscoveryCallbackIngest | internal/platform/db/query/discovery.sql:336-342 | Only a processing row becomes failed; its attempt is kept. |
| Callbacks.RunStore.ReleaseStaleDiscoveryCallbackIngest | internal/platform/db/query/discovery.sql:459-469 | Exactly the abandoned processing rows below the cap go back to waiting. |
| Callbacks.RunStore.CompleteDiscoveryCallbackIngest | internal/discovery/callback_ingest.go:46-137 | One transaction: a row not in processing is refused; otherwise it is processed, counted while the run runs, and the run closes with the marker's verdict once the prefix is finished; an illegal final transition undoes everything. |
| Callbacks.VerdictCloses | internal/discovery/callback_ingest.go:90-110 | Every final status the inbox can report is a legal transition of a running run. |
| RunUpdates.RunService.ReconcileRun | internal/discovery/service.go:1503-1594 | The change decided from the engine's answer and the inbox listing: nothing for a passive run whose inbox is not finished, failure on timeout, success of an active run only after a pull in which every target finished and answered, lifecycle pass only then or after a partial pull. |
| RunUpdates.RunService.RecordRunStatusWithLifecycle | internal/discovery/service.go:1643-1697 | The recorded status is reached only by a legal transition under the compare-and-set guard; a repeat or a lost race changes nothing and runs no lifecycle pass. |
| RunUpdates.RunService.RecordRunDispatched | internal/discovery/service.go:1725-1749 | Only a pending run becomes running, with the engine's job id. |
| RunUpdates.RunService.RecordRunDispatchFailed | internal/discovery/service.go:1751-1771 | Only a pending run becomes failed. |
| RunUpdates.RunService.ChangeTaskRunStatus | internal/discovery/service.go:1850-1876 | An operator's change happens only along a legal transition from the status read. |
| RunEffects.ReconcileEffect | internal/discovery/service.go:1503-1594 | In every reachable state an undisturbed reconciliation leaves a run that is not running or still collecting (failing it with its stored count on a timeout) or misses results; otherwise the run gets the reported status, the pulled or reported count unless cancelled, and a lifecycle pass iff it is an active success or partial success. |
| RunEffects.UpdateEffect | internal/discovery/service.go:1725-1876 | An undisturbed dispatch, failed dispatch or operator change makes exactly the moves of the life of a run, with what each stores, and nothing else. |
| RunEffects.LostRaceIsVoid | internal/discovery/repository.go:560-695 | A change whose run was moved between its read and its write changes nothing. |
| CallbackProtocol.Reachable | internal/discovery/callback_ingest.go:46-137 | In every state of every interleaving of receipts, claims, crashes, sweeps, completions and run changes the database invariant holds. |
| CallbackProtocol.ClosedRunsAreFrozen | internal/discovery/repository.go:560-695 | Once closed, a run's status, result count, job and lifecycle passes never change, whatever happens. |
| CallbackProtocol.LifePath | internal/discovery/service.go:40-51 | Every step keeps the status or follows an edge pending to running, running to closed or pending to cancelled/failed; the lifecycle pass happens at most once, only in the step that closes as success or partial. |
| CallbackProtocol.CompleteCases | internal/discovery/callback_ingest.go:58-128 | In a reachable state completion never meets an illegal final transition; it changes something iff the row is in processing; when it closes the run, the status is the marker's and the count is the sum over the processed rows. |
| CallbackProtocol.RunningConserves | internal/discovery/callback_ingest.go:58-88 | While a run is running its inbox is never ready and its result count is the sum of the counts of exactly the processed callbacks, far inside 64 bits. |
| CallbackProtocol.CountedOnce | internal/discovery/callback_ingest.go:70-88 | No step counts a callback twice: the only counting step takes one processing, uncounted row to processed and adds its count. |
| CallbackProtocol.RowsAreDurable | internal/discovery/callback.go:231-275 | A stored callback is never lost; its hash, phase, status and count never change and processed stays processed. |
| CallbackProtocol.ReadyIsStable | internal/discovery/callback_ingest.go:148-203 | Once the inbox is ready it stays ready with the same marker and verdict; callbacks beyond the marker never change it. |
| CallbackProtocol.PassiveSuccessOverInboxIsVoid | internal/discovery/service.go:1523-1541 | A passive reconciler that decides success over a non-empty inbox decides about a run that is already closed and moves nothing. |
| CallbackProtocol.EmptyInboxRace | internal/discovery/service.go:1525-1541 | For any valid payload there is an execution in which a passive run closes as success over that still unprocessed callback. |
| CallbackConvergence.OpenReachable | internal/discovery/callback_ingest.go:46-137 | Without outside changes, every reachable state stores only what the engine sent, and is closed iff its inbox is ready. |
| CallbackConvergence.ClosesOnTheFirstMarker | internal/discovery/callback_ingest.go:148-203 | The run is closed iff the inbox is ready, and then with the status of the lowest final marker sent, everything up to it processed and counted. |
| CallbackConvergence.ClosedCountsAll | internal/discovery/callback_ingest.go:58-88 | If nothing lies beyond the marker, a closed run has counted exactly the callbacks sent. |
| CallbackConvergence.Confluence | internal/discovery/callback_ingest.go:148-214 | Any two executions over the same callbacks that both close agree on the status, and on the count when nothing lies beyond the marker. |
| CallbackConvergence.DeadStays | internal/platform/db/query/discovery.sql:314-325 | A row out of attempts that no worker holds stays unprocessable for ever. |
| CallbackConvergence.ClosesIffAlive | internal/discovery/callback.go:160-191 | From any reachable running state the callback path can still close the run iff an end was sent and every callback up to it is processed, has attempts left or is in a worker's hands. |
| CallbackConvergence.TenCrashesWedge | internal/discovery/run_activity.go:68-70 | Ten interrupted attempts of the only callback leave the run running in every continuation. |
| CallbackAnswers.AnswersFollowHistory | internal/discovery/callback.go:231-275 | The answer to a payload that passes the checks follows from the events alone: against the first payload posted with its number while the run was running, duplicate iff the hashes agree, else conflict; a fresh number is stored iff the run is running. Repeated and refused payloads change nothing. |
| CallbackAnswers.AcceptedForGood | internal/discovery/callback.go:235-243 | Once accepted, a payload is a duplicate in every continuation, closed runs included, and any other payload with its number a conflict. |
| CallbackAnswers.StoredIsWellFormed | internal/discovery/callback.go:428-463 | Every stored callback was posted with a legal phase and status, within each bound, and counts exactly the facts it carried. |
| CallbackAnswers.ChecksMean | internal/discovery/callback.go:193-217 | Which body gets which refusal before the transaction; an unsigned body is answered without being read. |
| CallbackAnswers.AlreadyProcessedMeans | internal/discovery/callback_ingest.go:58-67 | A worker whose ingest succeeded is told "already processed" iff an earlier completion processed the row, "busy" iff none did and it is not in processing; neither changes anything, and the row is never missing. |
| CallbackAnswers.ProcessedForGood | internal/discovery/callback_ingest.go:62-64 | After a completion was done, every later completion of the row in any continuation is told so and no claim succeeds. |
| CallbackAnswers.LostClaimIsBusy | internal/discovery/callback_ingest.go:65-67 | A completion whose row was failed or released since its claim, and not claimed again, is busy; below ten attempts the row can be claimed at once and completed under that claim. |
| CallbackAnswers.WhatItSaysOfTheRun | internal/discovery/callback_ingest.go:89-128 | A completion closes the run iff it was running and the inbox became ready, and reports it closed already iff its status is not the verdict of the ready inbox; a closed run is left alone, the row processed. |
| CallbackAnswers.FinalizedStands | internal/discovery/callback_ingest.go:99-111 | Once a completion closed the run, no later completion reports another verdict. |
| CallbackAnswers.OnlyOthersContradict | internal/discovery/callback_ingest.go:99-111 | On the callback path alone no completion ever reports a run closed with another status. |
| CallbackAnswers.ClaimIsExclusive | internal/platform/db/query/discovery.sql:314-325 | For five minutes after a claim, unless a leftover worker already deals with the row, nobody else claims, releases, fails or completes it, whatever happens. |
| CallbackAnswers.StaleClaimIsFree | internal/platform/db/query/discovery.sql:459-469 | A row in processing can be claimed, and is released, iff it has attempts left and was untouched for more than five minutes. |
| CallbackAnswers.EnqueuePutsOff | internal/platform/db/query/discovery.sql:309-312 | Enqueueing a callback anew puts off the takeover of a claim by five minutes and changes nothing else. |
| IngestHandler.Handler.Handle | internal/discovery/worker.go:78-127 | Looks up and processes; an unknown or processed row is left alone. |
| IngestHandler.Handler.Process | internal/discovery/worker.go:95-119 | From any state reached after the lookup: claims, ingests, then fails or completes; a refused claim is a success iff the row has been processed meanwhile. |
| IngestHandler.CallIsProtocolRun | internal/discovery/worker.go:86-119 | An uninterrupted call is exactly four protocol steps, so every law over interleavings holds of calls. |
| IngestHandler.CallsCompleteCleanly | internal/discovery/worker.go:95-119 | In every reachable state the processing half of a call whose ingest succeeded never ends in a completion error, is refused iff the row is not claimable, and closes the run only with the verdict of a finished prefix. |
| IngestHandler.IdleCalls | internal/discovery/worker.go:86-103 | A call answers unknown, nothing to do or not claimed exactly for a callback that is not stored, is processed, or cannot be claimed, and then changes nothing. |
| IngestHandler.BrokenCallsFailTheRow | internal/discovery/worker.go:105-110 | A call whose ingest broke fails its row, with one more attempt, and changes nothing else. |
| LockOrder.SourceProgramsAreDisciplined | internal/discovery/callback_ingest.go:43-57 | Receipt, fact ingest, completion, row marks and run updates lock the run before its callback rows; the reconciler's listing does iff it lists at most one row. |
| LockOrder.NoWaitCycle | internal/discovery/ingest_v1.go:61-70 | With any number of such transactions over any runs, no reachable state has a set of transactions each waiting for another of the set. |
| LockOrder.SomeoneCanGoOn | internal/discovery/callback.go:225-230 | In every reachable state some live transaction can take its next lock or commit. |
| LockOrder.DangerousStatements | internal/discovery/callback_ingest.go:43-46 | A statement that locks callback rows without their runs, run any number of times beside any transactions that keep the order, can take part in a wait circle iff it locks two rows of one run. |
| LockOrder.ListingClosesACircle | internal/discovery/service.go:1523-1529 | The unlocked listing can take part in a wait circle with transactions that keep the order iff it lists more than one row. |
| LockOrder.SweepClosesACircle | internal/platform/db/query/discovery.sql:459-469 | The release sweep can take part in a wait circle iff it meets two rows of one run. |
| LockOrder.FormerOrderClosesACircle | internal/discovery/callback_ingest.go:43-46 | Completions that locked their own row before the run could wait for each other, which is why the order exists. |
| Enrichment.EnrichmentQueue.ClaimNetworkEnrichment | internal/discovery/network_enrichment_worker.go:71-135 | One transaction: invalidated and exhausted rows fail, then the selected rows of the first one's version are leased under fresh tokens with one more attempt. |
| Enrichment.EnrichmentQueue.ClaimPicked | internal/discovery/network_enrichment_worker.go:116-134 | The claim loop leases exactly the picked rows that share the first one's version. |
| Enrichment.EnrichmentQueue.FinishNetworkEnrichment | internal/discovery/network_enrichment_worker.go:268-307 | The guarded write happens iff the lease is the worker's, unexpired, and the source unchanged and live; otherwise a still held lease fails the row. |
| Enrichment.EnrichmentQueue.RetryNetworkEnrichment | internal/discovery/network_enrichment_retry.go:39-71 | Exactly the failed or outdated complete rows with a live materialized source are reset, and their number is reported. |
| EnrichmentProtocol.QueueIsSound | internal/discovery/network_enrichment_worker.go:78-134 | In every reachable state a pending row has attempts left, a running row stands for exactly one claim ever issued, with its attempt and content, a stored result was computed from the content its row names, and a live source of a row is materialized. |
| EnrichmentProtocol.OnlyTheHolderWrites | internal/discovery/network_enrichment_worker.go:287-305 | A finishing statement that changes anything is the current holder's, before its lease expired, on its own row only; a result is written only under the very content it was given. |
| EnrichmentProtocol.LostForever | internal/discovery/network_enrichment_worker.go:116-134 | A claim that was finished, taken over, swept or reset never changes the queue again, in any continuation. |
| EnrichmentProtocol.RowStep | internal/discovery/network_enrichment_worker.go:78-98 | Every event but a retry either leaves a row's state and attempts alone or strictly spends its budget; attempts grow by the claims issued. |
| EnrichmentProtocol.RowIsBounded | internal/discovery/network_enrichment_retry.go:55-59 | Between retries a row changes state at most ten times and is claimed at most five times, under any interleaving. |
| EnrichmentProtocol.SweepProgress | internal/discovery/network_enrichment_worker.go:78-98 | A sweep leaves resting rows alone, moves the first row it selects, and when nothing is claimable fails every row that is not finished, backing off or under a live lease. |
| EnrichmentProtocol.ServedRowsSettle | internal/discovery/network_enrichment_worker.go:78-134 | No wedged row: in every execution without a retry of the row, whatever workers and sources do, six sweeps that select the row or find nothing claimable once its backoff or lease is over leave it complete or failed, and it stays so. |
| EnrichmentProtocol.CanSettle | internal/discovery/network_enrichment_worker.go:78-134 | From every reachable state time and sweeps alone can bring any row to complete or failed. |
| EnrichmentCauses.FinishEffect | internal/discovery/network_enrichment_worker.go:268-299 | Under a held lease on an unchanged live source an answer completes the row, a permanent or invalid outcome fails it, a transient one fails it at the fifth attempt and otherwise makes it wait 20 seconds per attempt. |
| EnrichmentCauses.TwoStatements | internal/discovery/network_enrichment_worker.go:285-305 | Both statements undisturbed: the guarded write; under a held lease over a bad source the row fails and keeps its result; without the lease nothing changes. |
| EnrichmentCauses.FailedForCause | internal/discovery/network_enrichment_worker.go:78-98 | In every execution a row becomes failed only for a dead or changed source, an expired fifth lease, a permanent or invalid outcome, or a transient one at the fifth attempt. |
| EnrichmentCauses.CompleteMeansAnswered | internal/discovery/network_enrichment_worker.go:268-299 | Every complete row stores what its holder answered, for the very content it names. |
| EnrichmentCauses.TransientIsRetried | internal/discovery/network_enrichment_worker.go:280-299 | After a transient failure below the fifth attempt the row waits, unclaimable, for 20 seconds per attempt, and then the next sweep can claim it. |
| EnrichmentCauses.RestingIsLeftAlone | internal/discovery/network_enrichment_worker.go:99-110 | A finished row, one in its backoff or one under a live lease is left alone by everybody but its holder and a retry, in every execution. |
| EnrichmentCauses.RetryIsAFreshStart | internal/discovery/network_enrichment_retry.go:39-71 | A manual retry makes exactly the failed and outdated rows with a live materialized source claimable at once, with no attempt used, on the present content. |
| EnrichmentCauses.SeedIsAFreshStart | internal/discovery/network_enrichment_worker.go:52-69 | A seeded row is claimable at once; existing rows are not touched. |
| EnrichmentCauses.BatchesAreBounded | internal/discovery/network_enrichment_worker.go:99-134 | One sweep claims at most 20 rows, each once and all of one version; one seeding adds at most 100. |
| EnrichmentWorker.ClaimTxCurrent | internal/discovery/network_enrichment_worker.go:71-135 | Every claim a sweep returns is current when the transaction commits, one per row. |
| EnrichmentWorker.Worker.Seed | internal/discovery/network_enrichment_worker.go:52-69 | For any choice of at most 100 live materialized observations without a row: adds a pending row for each and touches no existing row. |
| EnrichmentWorker.Worker.EnrichWebNetwork | internal/discovery/network_enrichment_worker.go:206-266 | An undisturbed pass settles every claimed row by its own outcome and moves no other row. |
| Batching.FittingPrefix | internal/discovery/blueprint.go:723-737 | The binary search returns the longest prefix that meets both the target count and the byte limit. |
| Batching.BlueprintWebTargetBatches | internal/discovery/blueprint.go:718-744 | Fails iff there is no URL, or some URL does not fit on its own; otherwise returns the greedy cut. |
| Batching.GreedyPartitions | internal/discovery/blueprint.go:723-742 | The greedy batches concatenate to the input and each is non-empty and within both limits. |
| Batching.GreedyIsOptimal | internal/discovery/blueprint.go:716-744 | No consecutive cut that meets both limits uses fewer batches. |
| Batching.Cuttable | internal/discovery/blueprint.go:737-739 | If any valid cut exists then every URL fits alone, so the error is returned only when no cut exists. |
| PackingLoop.Pack | internal/discovery/active_result_ingest.go:141-199 | The flush loop fails iff some item is refused or over the limit; otherwise its batches hold every item once and in order, each within the limit and none closed early. |
| ResultPaging.ParseActivePorts | internal/discovery/active_result_ingest.go:539-562 | Accepts iff every piece is a port number and at most 1000 are distinct, and returns exactly the distinct ports. |
| ResultPaging.NormalizeActiveFingerprints | internal/discovery/active_result_ingest.go:614-644 | Fails iff a status code is malformed or two differ; otherwise the distinct names, the code and the first title. |
| ResultPaging.SplitActiveResultPage | internal/discovery/active_result_ingest.go:141-199 | Fails iff the task type is unsupported or some result is of the wrong kind, unparsable or above 1800 facts; otherwise a packing of the page. |
| ResultPaging.CostCovers | internal/discovery/active_result_ingest.go:160-185 | The cost charged for a result is at least the number of facts it produces. |
| ResultPaging.BatchOk | internal/discovery/active_result_ingest.go:436-439 | No batch of a split page produces more than 1800 facts, and it builds whenever the page's results do: the 2000-fact rejection is unreachable. |
| ResultPaging.BuildActiveResultPayload | internal/discovery/active_result_ingest.go:201-454 | Succeeds iff every result normalises and the facts are at most 2000, and carries exactly the facts of the results. |
| ResultFacts.FactsAreMade | internal/discovery/active_result_ingest.go:201-454 | A fact is in the payload iff some result makes it, key by key: hosts, sites, containment, open ports, pages, services; the targets are those probed. |
| ResultFacts.LastResultSpeaks | internal/discovery/active_result_ingest.go:330-420 | Each exposure says what the last result that makes it says: first status code and title reported, all names, details, or the site of the service. |
| ResultFacts.ChargeIsTight | internal/discovery/active_result_ingest.go:160-185 | A port result makes exactly the facts it is charged, a web result as many less as its fingerprints repeat or lack a name. |
| ResultFacts.ResultMeans | internal/discovery/active_result_ingest.go:141-185 | Which results a page may hold and which of them build. |
| ResultFacts.PullMeans | internal/discovery/active_result_ingest.go:88-104 | A pull is in order iff 1 to 1000 targets are announced, no more finished, and every page of 50 up to that total repeats them and builds. |
| ResultPaging.SplittingKeepsFacts | internal/discovery/active_result_ingest.go:106-129 | Ingesting the batches one after the other leaves exactly the facts, contents included, of the unsplit page. |
| ResultPaging.ReplayConverges | internal/discovery/active_result_ingest.go:46-48 | An interrupted pull followed by a full one leaves what one full pull leaves. |
| ResultPaging.PullActiveRunResults | internal/discovery/active_result_ingest.go:49-139 | Success means all pages are in order, exactly ceil(total/50) were fetched, every ingest succeeded, and the summary counts the distinct facts and targets of the unsplit results; refusal is for the page it stopped at and leaves only leading results ingested. |
| ResultPaging.RefusedForCause | internal/discovery/active_result_ingest.go:88-114 | If all pages are in order, an ingest of the page the pull stopped at failed. |
| Targets.NormalizedParses | internal/discovery/validation.go:447-491 | A normalised value normalises to itself and parses to a target of its kind with that value. |
| Targets.ParsesIffNormalizes | internal/discovery/validation.go:603-650 | A text normalises under a kind iff it parses to a target of that kind. |
| UrlRules.NormalizeUrlAuthorization | internal/discovery/url_authorization.go:60-151 | The checks in order, with the ports sorted and deduplicated, give the normal form. |
| UrlRules.CanonicalMeans | internal/discovery/url_authorization.go:129-142 | The stored ports are strictly increasing, no more than given, and the same set. |
| UrlRules.NormalizationIdempotent | internal/discovery/url_authorization.go:60-151 | Normalising a stored authorization changes nothing. |
| UrlRules.MatchUrlAuthorization | internal/discovery/url_authorization.go:153-193 | A rule covers a URL iff host, protocol and effective port are covered by its normal form. |
| UrlRules.ScopeUrlSeeds | internal/discovery/url_authorization.go:197-228 | The nested loops return the seeds of each protocol with each port, none for a wildcard-only rule. |
| UrlRules.SeedMembers | internal/discovery/url_authorization.go:206-227 | A URL is a seed iff it names the rule's own host with an allowed protocol and an allowed explicit port. |
| UrlRules.MatcherMeetsGenerator | internal/discovery/url_authorization.go:153-228 | For a stored rule without subdomains a URL is authorized iff its (scheme, host, effective port) is a generated seed. |
| UrlRules.SeedsMatch | internal/discovery/url_authorization.go:195-228 | Every generated seed parses and is authorized by its rule, subdomains or not. |
| UrlRules.NormalizationKeepsMatches | internal/discovery/url_authorization.go:157-160 | A rule and its normal form authorize the same URLs. |
| ScopeDecision.ScopeMatchDecision | internal/discovery/url_authorization.go:19-49 | The two passes compute the declarative policy: exclusion first, then URL grants only where a site rule covers the host family, then any grant. |
| ScopeDecision.OrderIrrelevant | internal/discovery/url_authorization.go:19-49 | The decision depends only on which targets the scope holds. |
| ScopeDecision.AddingExclusion | internal/discovery/url_authorization.go:19-24 | An added exclusion turns exactly the candidates it matches into excluded ones. |
| ScopeDecision.AddingPlainIncludes | internal/discovery/url_authorization.go:37-44 | Added includes without rules never revoke and change exactly the candidates they match and may grant. |
| ScopeDecision.AddingRule | internal/discovery/url_authorization.go:25-35 | An added site rule revokes exactly the allowed candidates of its host family that no URL target grants. |
| ScopeDecision.IsTypedTargetAllowed | internal/discovery/service.go:608-646 | Allowed iff the target parses, the scope is active and in its window, and the policy allows it; otherwise the reason is the first of these that fails. |
| Coverage.OneDomain | internal/discovery/validation.go:812-822 | A scope of one domain row allows a name or the site of a URL iff it is that host or, with subdomains, has more labels in front of it; addresses never. |
| Coverage.IncludeReaches | internal/discovery/validation.go:796-842 | An added include without a rule turns exactly the candidates it reaches into allowed ones, told by labels, addresses, ranges, names and URLs, unless excluded or held back by a site rule. |
| Coverage.ExcludeReaches | internal/discovery/validation.go:796-842 | An added exclusion without a rule turns exactly the candidates it reaches into excluded ones. |
| Coverage.RuleDecides | internal/discovery/url_authorization.go:19-49 | An added site rule allows what it admits, told by host labels, protocols and ports, and restricts the rest of its host family unless another URL row grants it. |
| Coverage.RuleExcludes | internal/discovery/url_authorization.go:19-24 | An added rule that excludes turns exactly what it admits into excluded candidates. |
| Coverage.WildcardStored | internal/discovery/url_authorization.go:76-150 | A wildcard URL without a rule is stored iff scheme, port and name are plain, as a rule for the hosts below the name. |
| Coverage.WildcardMeans | internal/discovery/url_authorization.go:76-193 | It authorizes exactly the URLs on hosts strictly below the name, under its scheme, on its port or the default one. |
| Coverage.WildcardWithRule | internal/discovery/url_authorization.go:93-150 | With a rule it is stored as that rule with subdomains included. |
| Coverage.RuleAccepted | internal/discovery/url_authorization.go:60-150 | A host with a rule is stored iff protocol, root or subdomains, ports and host are sensible; a written scheme or port changes nothing. |
| Coverage.NothingReservedParses | internal/platform/netguard/netguard.go:20-82 | No text parses to a target in a reserved IPv4 block, told by octets, or with a special-use name. |
| Coverage.UrlParses | internal/discovery/validation.go:652-700 | Which URLs are targets, and that user, path, query and fragment are dropped. |
| Resolution.Resolver.Add | internal/discovery/web_blueprint_targets.go:43-64 | Keeps a URL iff it parses, is allowed and its endpoint is new. |
| Resolution.Resolver.AddAsset | internal/discovery/web_blueprint_targets.go:106-144 | Offers exactly the asset's URL, its host's default endpoints and the seeds of the subdomain rules that cover the host. |
| Resolution.Resolver.Resolve | internal/discovery/web_blueprint_targets.go:40-149 | The cursor loop terminates on any finite table and offers exactly the scope's URLs and, if the scope needs evidence, every asset's, each row once. |
| Resolution.ResolutionIsExact | internal/discovery/web_blueprint_targets.go:56-64 | Every resolved URL is allowed, no two share an endpoint, and exactly the endpoints of allowed offers are resolved. |
| ResolvedEndpoints.ResolvedIff | internal/discovery/web_blueprint_targets.go:40-149 | An endpoint is resolved iff an allowed URL for it is offered: by a row, or where evidence is needed by an asset, told row by row and asset by asset. |
| ResolvedEndpoints.DefaultEndpointsResolved | internal/discovery/web_blueprint_targets.go:65-68 | http on 80 and https on 443 of every host a domain row or an asset names are resolved if the scope allows them. |
| ResolvedEndpoints.CoveredSeeds | internal/discovery/web_blueprint_targets.go:124-143 | On a host below a stored subdomain rule the seeds are its protocols on its ports, or on their default ports. |
| Resolution.CheckDispatchTargets | internal/discovery/service.go:1159-1178 | Dispatch accepts a configuration iff it has targets, all normalise, and each is allowed now. |
| Resolution.DispatchAccepts | internal/discovery/service.go:1163-1178 | While the scope is unchanged and in force, the dispatch check accepts every resolved URL after re-parsing. |
| Inheritance.InheritanceService.DerivedCandidate | internal/discovery/inheritance.go:159-194 | Status of a materialized fact of the run: refused, blocked, inherited or pending by parse, window, run and policy, with CDN edges refused. |
| Inheritance.InheritanceService.InheritanceSource | internal/discovery/inheritance.go:109-133 | Accepts iff run and scope belong to the project and owner, the run is complete and the scope in force. |
| Inheritance.InheritanceService.SelectedDerived | internal/discovery/inheritance.go:225-260 | Accepts iff 1 to 100 distinct positive ids all name candidates of the source; returns them by id. |
| Inheritance.InheritanceService.CreateContinuationTemplate | internal/discovery/inheritance.go:275-359 | A snapshot is made iff all selected are inherited and of the task's kind, the reviewed scope is current, and the snapshot validates. |
| Inheritance.InheritanceService.ValidateInheritedSnapshot | internal/discovery/inheritance.go:426-482 | Accepts iff the evidence still names pinned, inherited candidates and the targets are, without repetition, exactly theirs. |
| Inheritance.InheritanceService.AuthorizeDerivedTargets | internal/discovery/inheritance.go:363-422 | All or nothing: on success the scope gains one exact include per distinct pending kind and value; exclusions, window and status stay. |
| Continuation.CapturedValidates | internal/discovery/inheritance.go:303-317 | A captured snapshot validates at once iff every captured value is a well-formed target of its kind. |
| Continuation.ValidationFrame | internal/discovery/inheritance.go:424-482 | Validation gives the same answer for as long as the source run, its scope, the pinned observations and the network attribution are unchanged and the window is not left. |
| Continuation.ValidSnapshotsAreSound | internal/discovery/inheritance.go:439-481 | The targets of a valid snapshot correspond one to one to distinct, live, unmodified, materialized observations of a completed run of the project that the scope in force allows. |
| Continuation.ParentReplaced | internal/discovery/inheritance.go:424-482 | After any replacement of the parent scope row a valid snapshot validates iff the row keeps id, project and owner, is in force, and its policy still allows every pinned target. |
| Continuation.FingerprintIsNotCompared | internal/discovery/inheritance.go:424-482 | For every valid snapshot with the fingerprint of its parent there is a parent with another fingerprint under which it still validates. |
| Continuation.SomeSnapshotValidates | internal/discovery/inheritance.go:303-317 | A concrete database whose captured snapshot validates and carries the fingerprint of its parent. |
| Continuation.ExpansionEffect | internal/discovery/inheritance.go:388-404 | Confirming targets keeps exclusions, revokes nothing, and changes exactly the candidates its rows match and may grant. |
| DerivedTargets.ExactExpansion | internal/discovery/inheritance.go:388-404 | Confirming adds exact targets only: a decision changes iff the candidate was not excluded and has the very domain, address or URL of a confirmed item (under a site rule its URL), and it changes to allowed. |
| DerivedTargets.SelectedAreAllowed | internal/discovery/inheritance.go:380-404 | After a confirmation every selected well-formed target is allowed; none was refused or blocked. |
| DerivedTargets.ExpansionKeepsKey | internal/discovery/inheritance.go:376-404 | The unique key of the rows is kept, within 1000 rows. |
| DerivedTargets.StatusMeans | internal/discovery/inheritance.go:159-194 | Inherited iff dispatch would accept the target now and its run is complete; pending, blocked and refused each told by what is missing. |
| DerivedTargets.StatusOverTime | internal/discovery/inheritance.go:171-192 | At all times in force a derived target of a complete run has one status, never blocked; at others it is blocked or refused. |
| DerivedTargets.CaptureIsComplete | internal/discovery/inheritance.go:303-330 | A capture keeps every selected value once, each with the evidence of an observation it was derived from. |
| DerivedTargets.TaskTargets | internal/discovery/inheritance.go:261-271 | The targets of a valid snapshot are of the kind its task continues from. |
| Continuation.OwnInsertion | internal/discovery/inheritance.go:400-402 | The row stored for a target matches it iff the target parses to the kind it is stored under. |
| Continuation.ConfirmedTargets | internal/discovery/inheritance.go:388-404 | A confirmed target becomes allowed iff it is a well-formed target of its kind or another row of the batch matches it. |
| Continuation.MisfiledAddress | internal/discovery/inheritance.go:134-158 | A database with an address recorded as a domain: its expansion is accepted and stored, and the stored scope does not match it. |
| ProjectBinding.OneProject | internal/discovery/engine_project_binding.go:21-84 | All resolvers that succeed return the stored id; every ensure uses the one stored identity; a started binding never ensures. Idempotence is not needed. |
| ProjectBinding.StoredForever | internal/discovery/engine_project_binding.go:72-82 | Identity, flag and, once set, remote id never change, in any interleaving. |
| ProjectBinding.NoConflict | internal/discovery/engine_project_binding.go:62-82 | With an idempotent engine no resolver is turned away at the guarded update. |
| ProjectBinding.UndisturbedCall | internal/discovery/engine_project_binding.go:21-84 | What the protocol steps of one undisturbed resolver end with: the stored id, a refusal that changes nothing, or the engine's project for the stored identity. |
| ProjectBinding.FailedRequestIsHarmless | internal/discovery/engine_project_binding.go:62-70 | After a failed request the next call ends as if it had never happened. |
| ProjectBinding.ConflictWithoutIdempotence | internal/discovery/engine_project_binding.go:72-82 | Without it two resolvers can create two projects and the second fails. |
| ProjectBinding.EngineProjectResolver.Resolve | internal/discovery/engine_project_binding.go:21-84 | Undisturbed, it fails iff the project is missing, the engine's answer is lost or a started creation is not found; otherwise it stores and returns the engine's project for the stored identity. A lost answer leaves at most the one project of that identity behind. |
| AssetLifecycle.AssetRecord.RecordMiss | internal/asset/service.go:904-958 | Only an active asset counts a miss; it turns inactive at the threshold; a full counter stays. |
| AssetLifecycle.AssetRecord.RecordHit | internal/asset/service.go:966-1017 | Resets the count and revives an inactive asset; ignored assets are untouched. |
| AssetLifecycle.AssetTable.ApplyDiscoveryObservationLifecycle | internal/discovery/observation_lifecycle.go:12-77 | Each listed asset is reset or revived on a hit, counted on a counting miss unless ignored, and no other asset moves. |
| AssetLifecycle.FormsAgree | internal/discovery/observation_lifecycle.go:40-62 | From a new asset, for every history, both forms give the same status: inactive iff the trailing misses reach the threshold. |
| AssetLifecycle.IgnoredStays | internal/asset/service.go:1006-1009 | Ignored assets keep their status under both forms. |
| AssetLifecycle.CountersStay | internal/asset/service.go:922-927 | Neither counter wraps. |
| AssetLifecycle.AgreementCondition | internal/asset/service.go:922-927 | From a stored row both forms agree on every history iff it is not an active row with a full counter. |
| ImportPreview.AssetService.DryRun | internal/asset/service.go:420-499 | Every row is invalid, duplicate, update or new as specified, and the counters are the numbers of such rows. |
| ImportPreview.CheckMetadataLen | internal/asset/service.go:371-389 | Accepts iff each of the seven texts is within its column width. |
| ImportPreview.AssetService.ValidateRowFields | internal/asset/service.go:1176-1188 | Reports a bad status, an empty one meaning active, before an overlong text. |
| ImportPreview.AssetService.ImportWith | internal/asset/service.go:201-250 | Ends with the error of the first failing check and stores nothing, or upserts the key. |
| ImportPreview.AssetService.ImportBatch | internal/asset/service.go:537-588 | A row is imported iff it passes the import's checks under the batch's identifiers; the live assets are the old ones plus the imported keys. |
| ImportPreview.PreviewPredictsFailures | internal/asset/service.go:1176-1188 | On every batch: invalid in the preview means failed in the import on every row, with the same error, iff each otherwise acceptable row has tenant, organization and actor within width iff the batch has. |
| ImportPreview.ErrorsAgree | internal/asset/service.go:205-229 | The preview's check sequence and the import's report the same error for a row, or none, iff the row fails another check anyway or its own identifiers fit just as the batch's do. |
| ImportPreview.PreviewCountsSum | internal/asset/service.go:428-496 | The four preview counts sum to the total. |
| ImportPreview.StatusesMean | internal/asset/service.go:453-492 | Row by row in order: an invalid row fails; a duplicate repeats an earlier acceptable row and an update a live asset, and neither adds one; a new row does neither. |
| ImportPreview.PreviewErrorMeans | internal/asset/service.go:1176-1188 | An unreadable value before a bad status before a text beyond its column, with the widths written out. |
| ImportPreview.SuccessIsPredicted | internal/asset/service.go:453-496 | Success is New plus Update plus Duplicate. |
| ImportPreview.NewPredictsAdded | internal/asset/service.go:471-492 | New is never below the number of assets the import adds, and equal iff no two new keys fold together. |
| ImportPreview.TwoSpellings | internal/platform/db/query/asset.sql:10-12 | Two web URLs that differ in the case of their path: two announced, one added. |
| ImportPreview.OverriddenIds | internal/asset/service.go:415-431 | A row with an actor of 65 bytes is invalid in the preview and imported by a batch whose actor fits. |

## Left out

- The model starts from decoded records: HTTP, JSON, signatures, hashing (taken as injective), audit events, notifications and display texts are not modelled; a rejected transaction leaves no trace.
- Method contracts of the form "new state == XTx(old state)" give a statement sequence its value-level meaning; what the source promises is proved about those functions over all executions.
- `claimNetworkEnrichment` takes no run lock: its two UPDATEs, its SELECT and its lease updates are taken as one atomic step, an assumption about the storage engine.
- That a live observation with an enrichment row is materialized is built into which changes of an observation are possible, because every upsert is materialized in its own transaction (`internal/discovery/ingest_v1.go:88-113`).
- Time is a natural number a step may advance; lease tokens are fresh numbers; transactions that lock the run first are taken as atomic, justified by the lock order but not by a model of the storage engine.
- Deadlock freedom covers run and callback rows only: asset, relation and observation rows locked during fact ingest, and the index locks of inserts, are not part of this model.
- `RecoverPendingCallbacks`, `enqueueStoredCallback` and the task queue appear as the release and enqueue events; which callbacks a sweep lists is not modelled.
- `DispatchTaskRun` appears through its two guarded run changes; the retry loop around the engine call is not modelled.
- Facts inside a callback: an ingest either succeeds or fails as a whole; what it materializes is not modelled.
- Which rows a `LIMIT ... SKIP LOCKED` SELECT returns is left open: any answer the guards allow; how often a sweep's turn comes for a row is a premise of `ServedRowsSettle`.
- Callbacks.ValidateCallbackPayload: the field checks of each single fact are one flag of the payload, because no other property depends on them.
- Callbacks.RunStore.HandleCallback: whether the task queue accepts the callback is not modelled; a refused one stays waiting.
- EnrichmentWorker.Worker.Seed: which of the possible observations the SELECT returns is left open.
- Enrichment.EnrichmentQueue.FinishNetworkEnrichment: its two statements run undisturbed here; the protocol separates them and any event may come in between.
- EnrichmentWorker.Worker.EnrichWebNetwork: the split into sendable and invalid rows is abstracted to one outcome per row, because rows settle independently; a pass that ends early on a storage error is any prefix of the protocol's steps.
- IPv6 and the full URL and host grammar: hosts are label sequences, texts are lower-cased and without a final dot, length limits and IPv6 addresses are not modelled; the reserved IPv4 ranges stand for the address denylist.
- Resolution.Resolver.Resolve: the final string sort and cancellation between pages are not modelled; the resolved list is in order of discovery.
- Batching.BlueprintWebTargetBatches: the JSON text is abstracted to a fixed length plus one length per URL; escaping and the order of targets do not change a length.
- ResultPaging.ParseActivePorts: returns the set of ports; their sorted order reaches no fact.
- Inheritance.InheritanceService.CreateContinuationTemplate: reuse of an equal stored template and the template's option defaults are not modelled; the reasons of a refusal are not told apart.
- Inheritance.InheritanceService.SelectedDerived: errors are one refusal; the source stops at the first bad id.
- ProjectBinding.EngineProjectResolver.Resolve: idempotent engine, no other resolver and no storage error; the protocol theorems cover interleavings and engines that are not idempotent.
- ImportPreview.AssetService.DryRun: what Normalize makes of a type and value is an input of the row; texts appear by their lengths.
- ImportPreview.AssetService.ImportBatch: no storage failures, relations or audit event; metadata other than the key is not stored.
- Platform users, notification rules, dashboards, scope transfer and engine settings would add only easy members.
