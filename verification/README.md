# Verification of the card generation service

A Dafny model of how the cloud service turns a confirmed requirement into a published card, with
proofs of what the service is built to guarantee. `dafny verify dfyconfig.toml` checks all of it.

**The pipeline.** Workers lease jobs and run a long sequence of calls over four stores that share no
transaction: jobs, sessions, versions and objects. `Pipeline.dfy` is a step relation with one atomic
step per store call. A step may report an error whether or not it took effect; a worker may stop for
good anywhere, go on after its lease is gone, be overtaken by any number of others, and race with users
who create, confirm and cancel; every clock reading is arbitrary. `PipelineInvariant.dfy` states one
invariant over the stores and `PipelineRuns.dfy` what a run knows at each of its calls;
`PipelineSteps.dfy`, `PipelineSafety.dfy`, `PipelineCalls.dfy` and `PipelineSystem.dfy` show that every
step keeps them; `PipelineTheorems.dfy` and `PipelineSessions.dfy` draw the conclusions for every
reachable state. `PipelineArchives.dfy` traces what a version loads to the run that put it, and
`PublishedCards.dfy` joins that to the building and parsing of artifacts.

What becomes of a run is proved backwards from its end. `PipelineDrive.dfy` lets one run go on until it
stops, and shows that it does; `PipelineProgress.dfy` and `PipelineSuccess.dfy` show that with nothing in
its way it succeeds from every place an earlier attempt can have left, `PipelineFailures.dfy` what it does
about errors, and `PipelineOutcomes.dfy` says both of every reachable state. `PipelineOrder.dfy` and
`PipelineCardIds.dfy` are the two further facts about reachable states that this needs: nothing is published
before it is validated, and a new card belongs to one job. `WorkerRun.dfy` is `RunOnce` as a program over the
in-memory stores, which does the model's steps and so delivers what the model delivers.

**The stores.** `JobModel.dfy` specifies the job table; `MemoryJobs.dfy` and `PostgresJobs.dfy` are the
two implementations, proved against it, `ClaimSimulation.dfy` relates them over all call sequences, and
`StoreDifferences.dfy` says exactly when their answers differ. `JobDue.dfy` says of both, from the rows
alone, when a job is handed out and when a job that was put back is withheld.
`JobLeases.dfy` and `Heartbeat.dfy` are about leases, fencing and bounded attempts. `SessionModel.dfy`,
`SessionRecord.dfy`, `SessionLife.dfy`, `GenerationService.dfy` and `EventStreams.dfy` are sessions, their
snapshot, the road their status takes and their event streams; `PublishModel.dfy`, `Publishing.dfy`,
`Decimal.dfy` and `DisplayVersion.dfy` are versions, objects and version numbers; `ModelAttempts.dfy` is the agent's bounded loop.

**Native cards.** `NativeChecker.dfy` is the imperative validator and `NativeDocument.dfy` the
order-free predicate it decides, with `NativeRules.dfy`, `ExpressionTyping.dfy` and `StatePaths.dfy`
for values, expressions and paths. `NativeSchema.dfy` and `SchemaGenerator.dfy` compile the same catalog to
JSON Schema 2020-12, whose meaning (Core sections 8.2.3.1, 10.2.1 and 10.3, Validation section 6) is in
`SchemaModel.dfy`; `SchemaAgreement.dfy` shows when the schema accepts what the validator accepts.
`Decoder.dfy` is the TypeScript decoder and `DecoderAgreement.dfy` shows exactly when it accepts what the
validator accepts. What each of the three accepts by itself is told from the document's own fields in
`NativeMeaning.dfy` with `NodeRoutes.dfy`, `SchemaMeaning.dfy` and `DecoderMeaning.dfy`, so that none of them
can be looser or stricter than the rules say.
`ShippedCatalog.dfy` is the catalog of the repository, which meets every condition of the two agreements.

**Signed artifacts.** `Quoting.dfy`, `CanonicalJson.dfy` and `CanonicalPrinter.dfy` are the canonical
printer and a reader that undoes it, `CanonicalOrder.dfy` its order of fields; `CardManifest.dfy`,
`ArtifactModel.dfy`, `ArtifactPrograms.dfy` and `ArtifactRoundTrip.dfy` are building and parsing;
`ArtifactTrust.dfy` and `ArtifactLimits.dfy` say what a parsed archive can be trusted for and how large it can
be, whoever made it; `CardIteration.dfy` follows a card through any number of iterations.

Operations that update state are classes and methods with loops, each proved equal to a specification
function or predicate; the properties are lemmas about those.

## What is assumed

- New ids are new, and clocks never read Go's zero time (`Pipeline.Enabled`). Nothing is assumed of the
  order of clock readings in the pipeline.
- `Codec` in `CardManifest.dfy` gathers what is left abstract in artifacts; `Ideal` says that the printing
  of floats and times and UTF-8 are each undone by their inverse, that a signature verifies under the public
  half of its key, and that floats, times, hashes and signatures print as text JSON can quote.
  `SomeCodecIsIdeal` shows that this can be met. Hashes are an arbitrary function, also in the pipeline.
- A run succeeds if nothing is in its way: `Unhindered` in `PipelineOutcomes.dfy` says that the model answers,
  the archive fits its limit and shares its hash with no other object, ids are new, a base parses, and the
  highest display version of the base's card has not used up its last number. Each is a condition on what the
  run is given. `Forged` and `Collides` in `ArtifactTrust.dfy` name the two ways a tampered archive could pass.
- `SettingOk` in `PublishedCards.dfy` adds that reading a zip file gives the entries that were written.
- Regular expressions are a function argument `matches`; `PathPatterns` says what the two fixed path
  patterns of the schema mean.
- The decoder has fixed limits of its own. The agreement holds for catalogs whose limits are no larger
  (`LimitsFixed`) and whose guarded operators have the arity the guard needs (`GuardsFixed`), as the
  catalog of the repository does (`ShippedOk`).

## What does not hold, and exactly when it does

- The two job stores do not always answer alike. `RowAnswersIff`, `StepAnswersIff` and `RunAnswersIff` give
  the exact condition for every call; it takes a job that memory gave up in a claim Postgres rolled back, or
  a second reservation with an empty id. `LateCompletionDiffers`, `FailDiffers` and `EmptyReservationDiffers`
  are such runs from empty stores. Claims agree always, and all other answers but those of `Fail` as long as
  times are in order and no reservation is empty (`AnswersAgree`).
- The validator does not look at a method field outside `capability.invoke`, the schema does:
  `AcceptedIffListed` gives the exact condition on the document and `UnlistedIsInvalid` a catalog and a
  document. The catalog of the repository has no such field (`AcceptedIsShared`).
- The decoder refuses some objects the validator takes as plain data: `AcceptedIsDecoded` gives the exact
  condition, `TrappedIsRefused` a document under the catalog of the repository.
- Not every published card can be iterated. `BuiltParses`, `PublishedComesBack` and `VersionsComeBack` give
  the exact condition on the card, and the card fails it if a file or the state version is a million or more
  (integers are then printed with an exponent), if a text, path or key id needs an escape that Go has and JSON
  has not (`BellIsLost`), if the manifest is over the reader's limits, or if a native document is over 512 KiB
  although the validator allows 2 MiB (`LongDocumentIsLost`).

## Model

| member | source | states |
|---|---|---|
| `PipelineTheorems.OneVersionPerSession` | services/cloud/internal/worker/worker.go:146-156 | Over every interleaving of workers, crashes, lost leases, retries and users: two published versions whose publishing jobs serve the same session are the same version. |
| `PipelineTheorems.ReservationIsFinal` | services/cloud/internal/jobs/store.go:165-189 | Once a job holds a card and version id, no continuation of the run changes either, and no other job ever holds that version id. |
| `PipelineTheorems.PublishedUnderReservation` | services/cloud/internal/worker/worker.go:282-306 | Every version that exists was published by one job, under exactly the pair that job reserved, for the user of that job's session. |
| `PipelineTheorems.FinishedJobsAgreeWithSessions` | services/cloud/internal/worker/worker.go:327-330 | In every reachable state a completed job has a ready session carrying the reserved version, and a cancelled job has a cancelled session. |
| `PipelineTheorems.ReadyIsPublished` | services/cloud/internal/worker/worker.go:164-184 | In every reachable state a ready session has a job, carries the version that job reserved, and that version is found for its user and card and was published by that job. |
| `PipelineTheorems.VersionsLoad` | services/cloud/internal/publish/publisher.go:292-319 | In every reachable state every version loads for its owner within 8 MiB, with the bytes hashing to the recorded hash. |
| `PipelineTheorems.DisplaysAreUnique` | services/cloud/internal/publish/publisher.go:399-425 | Over all interleavings every display version parses, and no user and card have two versions shown under the same one. |
| `PipelineTheorems.IterationsGoUp` | services/cloud/internal/publish/publisher.go:191-218 | A version made from a base is on the base's card and its display version is strictly above the base's, whatever was published in between. |
| `PipelineTheorems.DefensiveFailuresNeverHappen` | services/cloud/internal/worker/worker.go:117-193 | No run ever stops for a missing snapshot, an invalid reserved identity, a ready version that does not match, or a ready publication that is missing. |
| `PipelineTheorems.ModelCallsAreBounded` | services/cloud/internal/worker/worker.go:201-208 | The model is asked at most nine times for one job, and only in attempts one to three; the three calls of one attempt are those of the agent's own loop. |
| `PipelineTheorems.NothingIsUndone` | services/cloud/internal/worker/worker.go:67-351 | Between any reachable state and any continuation: versions and objects stay as they are, sessions keep their snapshot and only grow, attempts only rise. |
| `PipelineOutcomes.ClaimedRunSucceeds` | services/cloud/internal/worker/worker.go:67-351 | From any reachable state: once a claim has granted the job of a session that is queued, generating, validating or ready, and the model answers, the archive fits, the ids are new, a base parses and readings lie within the lease, the run ends without an error. The job is completed, the session ready with the reserved version, and that version is found and loads for its user. It is the one an earlier attempt published, or a new one with the title, description, runtime and key of this run, shown as 1.0.0 or, with a base, above every version of the card. |
| `PipelineOutcomes.DeliversIffResumable` | services/cloud/internal/worker/worker.go:100-124 | Under the same conditions the run delivers if and only if the session has one of those four statuses; else it stops, the session stays as it is and the job fails. |
| `PipelineOutcomes.FirstVersionSucceeds` | services/cloud/internal/worker/worker.go:140-208 | If every new card id is really new along the whole history, then without a base no condition on display versions is needed: 1.0.0 is always free. |
| `PipelineOutcomes.ClaimedRunSettles` | services/cloud/internal/worker/worker.go:385-414 | From any reachable state, whatever the model answers, the archive weighs and the base holds: a run that keeps its lease leaves its job completed with a ready session, put back for one or two seconds later exactly if the error was temporary and an attempt is left, failed with a finished session, or, if it was interrupted, still running under its worker. |
| `PipelineOutcomes.BrokenCallSettles` | services/cloud/internal/worker/worker.go:385-414 | In any reachable state a call breaks, applied or not: interrupted, the run stops; temporarily with an attempt left, the job is queued again; else the session fails with the code of that call, unless it is finished, and the job fails. |
| `PipelineOutcomes.FailedModelSettles` | services/cloud/internal/worker/worker.go:201-208 | A failed model call is dealt with in the same way, with its own code. |
| `PipelineOutcomes.BrokenReservationStops` | services/cloud/internal/worker/worker.go:146-156 | If the reservation or the completion breaks, the run stops at once; session and job stay as that call left them, for the next attempt. |
| `PipelineFailures.RunSettles` | services/cloud/internal/worker/worker.go:67-414 | The same from any place of a run that holds its lease. |
| `PipelineSuccess.LoadingEnds` | services/cloud/internal/worker/worker.go:100-124 | From a session that can go on, the whole run succeeds, starting the session exactly if it was queued. |
| `PipelineSuccess.FindingBaseEnds` | services/cloud/internal/worker/worker.go:125-145 | From the lookup of a base: it is found, loads under its hash, and the run succeeds. |
| `PipelineSuccess.ReservingEnds` | services/cloud/internal/worker/worker.go:146-163 | From the reservation on the run succeeds, under the pair the job has or the new ids it brings. |
| `PipelineProgress.LookingEnds` | services/cloud/internal/worker/worker.go:164-200 | From the lookup on: a version of an earlier attempt is recovered, otherwise one is numbered, made and published. |
| `PipelineProgress.PuttingEnds` | services/cloud/internal/worker/worker.go:282-318 | From the publication on the run succeeds, and the version has every field of what was published. |
| `PipelineOrder.PublishedIsValidated` | services/cloud/internal/worker/worker.go:209-213 | In every reachable state the session of a published version is validating or beyond, so recovery may mark it ready. |
| `PipelineCardIds.FirstIsFree` | services/cloud/internal/worker/worker.go:140-163 | When new card ids are new, a job without a base owns its card: nothing stands on it before its own version, over every interleaving. |
| `PipelineArchives.LoadedWasPut` | services/cloud/internal/publish/publisher.go:111-140 | Over every interleaving: what the owner of a published version loads is an archive that some run put while holding exactly that card and version id. |
| `PublishedCards.VersionsAreBuilt` | services/cloud/internal/worker/worker.go:214-318 | If every archive put along a run of the system is the one Build makes of that worker's card, then in every reachable state the owner of a version loads an archive one worker built for it, and parsing it as a base succeeds, with the sources of that worker's agent, exactly if that card is small, legal and within the limits. |
| `PipelineSessions.SnapshotsHold` | services/cloud/internal/generation/session.go:199-235 | Every session stored in any reachable state has its snapshot exactly from queued to ready or failed, equal to its prompt, later messages, target, locale and base, its events numbered from one. |
| `PipelineSessions.StrangersChangeNothing` | services/cloud/internal/generation/repository.go:105-125 | A message, a confirmation or a cancellation of a session by anybody but its owner changes nothing in the system. |
| `PipelineSystem.NextKeeps` | services/cloud/internal/worker/worker.go:67-351 | Every enabled step of any worker or user keeps the invariant over all four stores, all runs and all pending user calls, and undoes nothing. |
| `PipelineSystem.ReachableOk` | services/cloud/internal/worker/worker.go:67-351 | The invariant holds after any finite sequence of steps. |
| `PipelineSafety.StepAdvances` | services/cloud/internal/worker/worker.go:67-351 | One store call of a run, reporting an error or not and applied or not, keeps the stores' invariant and leads the run to a place whose own assumptions hold; the run's worker and copy of the job do not change. |
| `PipelineSystem.ClaimMoves` | services/cloud/internal/worker/worker.go:69-77 | A claim, its answer lost or not, keeps the invariant; the new run is the only one at its attempt of the job. |
| `PipelineSystem.BeatMoves` | services/cloud/internal/worker/heartbeat.go:20-36 | A heartbeat of any run at any time, even of one that lost its lease, keeps the invariant. |
| `PipelineSystem.ConfirmMoves` | services/cloud/internal/generation/service.go:158-203 | Confirming, in one transaction with the job or as a separate call, keeps the invariant. |
| `PipelineSystem.EnqueueMoves` | services/cloud/internal/generation/service.go:196-203 | Enqueuing after a confirmation, whether or not the queue reports an error, keeps the invariant. |
| `PipelineSystem.QueueDownMoves` | services/cloud/internal/generation/service.go:197-200 | Failing the session when its job could not be queued keeps the invariant, even if a worker got the job meanwhile. |
| `PipelineSystem.CancelMoves` | services/cloud/internal/generation/service.go:205-229 | Cancelling the session at any moment of any run keeps the invariant. |
| `PipelineSystem.CancelJobMoves` | services/cloud/internal/generation/service.go:205-229 | Cancelling the job afterwards keeps the invariant: by then the session is cancelled. |
| `PipelineSystem.OpenMoves` | services/cloud/internal/generation/service.go:86-117 | Checking the base version before the session is stored keeps what is needed until it is: versions are never deleted. |
| `PipelineSystem.InsertMoves` | services/cloud/internal/generation/service.go:127-131 | Storing the new session later, as a second call, keeps the invariant. |
| `PipelineSteps.ReserveStep` | services/cloud/internal/worker/worker.go:146-163 | Reserving keeps the invariant, and what comes back passes the identity check: an iteration is under its base's card with another version id. |
| `PipelineSteps.LookStep` | services/cloud/internal/worker/worker.go:164-193 | A run that finds its version goes on to the right recovery step; neither of the two defensive failures is possible here. |
| `PipelineSteps.NumberStep` | services/cloud/internal/worker/worker.go:194-200 | The display version a run computes is above its base, and stays so until it publishes. |
| `PipelineSteps.PutStep` | services/cloud/internal/publish/publisher.go:111-140 | Putting the archive under its own hash keeps every stored object; what is created next has its object already. |
| `PipelineSteps.CreateStep` | services/cloud/internal/publish/publisher.go:399-425 | Creating the version keeps versions immutable and displays unique; success means the version with the reserved id is there, also when another worker created it. |
| `PipelineSteps.MarkReadyStep` | services/cloud/internal/worker/worker.go:327-329 | A session is marked ready only with the reserved version after that version exists. |
| `PipelineSteps.CompleteStep` | services/cloud/internal/worker/worker.go:330-338 | Completing a job leaves it with a ready session; a worker that lost the lease changes nothing. |
| `PipelineSteps.StartStep` | services/cloud/internal/worker/worker.go:104-116 | Starting a queued session keeps the invariant and gives the run a session it may resume from. |
| `PipelineSteps.GenerateStep` | services/cloud/internal/worker/worker.go:201-208 | One attempt asks the model as often as the agent's loop does, which is at most three times, and no two runs ask in the same attempt of a job. |
| `PipelineSteps.RetryStep` | services/cloud/internal/worker/worker.go:389-405 | Scheduling a retry keeps the invariant whoever holds the job. |
| `PipelineSteps.MarkFailedStep` | services/cloud/internal/worker/worker.go:406-406 | Failing the session keeps the invariant; a ready or cancelled session is left alone. |
| `PipelineSteps.FailStep` | services/cloud/internal/worker/worker.go:407-413 | Failing the job keeps the invariant whoever holds it. |
| `PipelineCalls.ClaimKeeps` | services/cloud/internal/jobs/store.go:98-139 | Claiming keeps every reservation, never runs past the allowed attempts, and never completes or cancels a job. |
| `PipelineCalls.CancelKeeps` | services/cloud/internal/jobs/store.go:266-285 | Cancelling a job whose session is cancelled keeps the invariant. |
| `PipelineDrive.EffectDescends` | services/cloud/internal/worker/worker.go:67-351 | Every store call brings a run strictly closer to its end, through retries of the display version and all failure paths: RunOnce always stops. |
| `WorkerRun.Worker.RunOnce` | services/cloud/internal/worker/worker.go:67-351 | The program itself, over the in-memory stores: claims, then does exactly the sequence of steps of the pipeline model, ends with the same stores and reports the cause the model reports, unless the heartbeat found the lease lost, which is then reported instead. From a good start, one with nothing in its way, it reports no error and has delivered the version. |
| `WorkerRun.Worker.Work` | services/cloud/internal/worker/worker.go:100-124 | Loading, starting or refusing the session, and all that follows, is the model's run from there. |
| `WorkerRun.Worker.LoadBase` | services/cloud/internal/worker/worker.go:125-145 | Finding and reading the base, or not, and all that follows, is the model's run from there. |
| `WorkerRun.Worker.Reserve` | services/cloud/internal/worker/worker.go:146-163 | Reserving the identity, checking it, and all that follows, is the model's run from there. |
| `WorkerRun.Worker.LookUp` | services/cloud/internal/worker/worker.go:164-193 | Recovering a version published earlier, or going on to generate, is the model's run from there. |
| `WorkerRun.Worker.Produce` | services/cloud/internal/worker/worker.go:201-213 | Generating, validating and publishing is the model's run from there. |
| `WorkerRun.Worker.PublishVersion` | services/cloud/internal/worker/worker.go:282-318 | Publishing, and once more under a new display version after a conflict, is the model's run from there. |
| `WorkerRun.Worker.MarkReady` | services/cloud/internal/worker/worker.go:327-350 | Marking ready and completing is the model's run from there. |
| `WorkerRun.Worker.Fail` | services/cloud/internal/worker/worker.go:385-414 | Stopping, retrying or failing session and job is the model's run from there. |
| `ClaimSimulation.ClaimsAgree` | services/cloud/internal/jobs/postgres_store.go:39-73 | From related stores, over any sequence of calls with any times and arguments, the transaction loop and the sort-and-scan return the same job at every claim. |
| `ClaimSimulation.EmptyStoresClaimAlike` | services/cloud/internal/jobs/store.go:98-139 | Starting empty, both stores give the same answer to every claim of any call sequence. |
| `ClaimSimulation.AnswersAgree` | services/cloud/internal/jobs/postgres_store.go:86-211 | A sufficient condition on the calls alone: with non-decreasing times, non-empty reservations and no Fail, every answer is the same, although Postgres rolls back the jobs it gave up when it finds none. |
| `StoreDifferences.RowAnswersIff` | services/cloud/internal/jobs/postgres_store.go:86-211 | For a job as memory has it and as Postgres has it, related by the simulation, and any call of a holder with any arguments: the two answers differ if and only if memory alone gave the job up and the guard of the Postgres update holds (for Fail: does not hold), or the holder of a reserved job asks for a reservation with an empty id. |
| `StoreDifferences.StepAnswersIff` | services/cloud/internal/jobs/store.go:141-264 | The same for any call on related stores; enqueuing, claiming, cancelling and unknown jobs are always answered alike. |
| `StoreDifferences.RunAnswersIff` | services/cloud/internal/jobs/postgres_store.go:162-189 | Over any sequence of calls from related stores, at any times: the answers to a call differ exactly when that condition holds of the two stores just before it. |
| `StoreDifferences.GivenUpDiffers` | services/cloud/internal/jobs/postgres_store.go:48-61 | From empty stores, through three leases that run out and a fourth claim that memory writes and Postgres rolls back: every call on the job is then answered differently exactly as the condition says. |
| `StoreDifferences.LateCompletionDiffers` | services/cloud/internal/jobs/postgres_store.go:104-140 | So a completion that arrives late, after that run from empty stores, is refused by memory and taken by Postgres. |
| `StoreDifferences.FailDiffers` | services/cloud/internal/jobs/postgres_store.go:95-102 | And failing the job, with all times in order, succeeds in memory and is a conflict in Postgres. |
| `StoreDifferences.EmptyReservationDiffers` | services/cloud/internal/jobs/postgres_store.go:167-169 | From empty stores, with all times in order: asking again for a reservation with an empty id is answered by memory and refused by Postgres. |
| `ClaimSimulation.ClaimRelated` | services/cloud/internal/jobs/postgres_store.go:48-61 | One claim keeps the simulation relation, rolled back rows included, and answers alike. |
| `JobModel.ClaimStops` | services/cloud/internal/jobs/store.go:123-138 | However far the walk over candidates has come: stopping at the first with attempts left gives the job the specification of Claim names, and the same table. |
| `JobModel.ClaimFindsNone` | services/cloud/internal/jobs/store.go:123-138 | Having passed over every candidate, all of them are failed and there is no job, as specified. |
| `JobModel.WinnerIffAvailable` | services/cloud/internal/jobs/store.go:110-138 | A claim returns a job exactly when some claimable job has attempts left. |
| `JobModel.WinnerUnique` | services/cloud/internal/jobs/store.go:110-138 | The job is determined: the least claimable one with attempts left by creation time and then id. |
| `JobDue.HandedOutIffNext` | services/cloud/internal/jobs/store.go:98-139 | Along any calls to the two stores: a claim returns a job if and only if it was, just before, queued and due or running with its lease run out, had an attempt left, and was the oldest such job by creation time and then id; it comes back with one attempt more under the new lease and otherwise unchanged. |
| `JobDue.PutBackIsWithheld` | services/cloud/internal/jobs/store.go:191-213 | After a retry that was answered, no claim at a time before the job is due returns it, in either store, whatever others call meanwhile. |
| `JobDue.PutBackComesBack` | services/cloud/internal/jobs/store.go:98-139 | A claim at that time or later returns it when no older job is open. |
| `JobDue.PostgresPutBackComesBack` | services/cloud/internal/jobs/postgres_store.go:281-302 | The same in the Postgres store, along any calls. |
| `StringOrder.LessMeans` | services/cloud/internal/jobs/store.go:117-122 | The order of ids: a proper prefix comes first, else the first difference decides. |
| `MemoryJobs.SortSorts` | services/cloud/internal/jobs/store.go:117-122 | Sorting puts candidates in strict order of creation time and id, keeping each exactly once. |
| `MemoryJobs.MemoryStore.Enqueue` | services/cloud/internal/jobs/store.go:74-96 | A session has one job: a second enqueue returns the first job and changes nothing. |
| `MemoryJobs.MemoryStore.Candidates` | services/cloud/internal/jobs/store.go:110-122 | Exactly the queued jobs that are due and the running ones whose lease ran out, sorted, as the fields of each job say. |
| `MemoryJobs.MemoryStore.Claim` | services/cloud/internal/jobs/store.go:98-139 | New table and answer are those of the specification: the least claimable job with attempts left is granted, every exhausted one before it is failed, no other row changes; the one handed out was queued and due, or running with its lease run out. |
| `MemoryJobs.MemoryStore.ExtendLease` | services/cloud/internal/jobs/store.go:141-163 | Only the holder of a running job with an unexpired lease moves its lease; otherwise nothing changes. |
| `MemoryJobs.MemoryStore.ReservePublication` | services/cloud/internal/jobs/store.go:165-189 | Only the holder reserves, only the first reservation is written, and every holder gets the same pair. |
| `MemoryJobs.MemoryStore.Retry` | services/cloud/internal/jobs/store.go:191-213 | Only the holder of a job with attempts left puts it back, due at the given time. |
| `MemoryJobs.MemoryStore.Finish` | services/cloud/internal/jobs/store.go:236-264 | Only the holder ends the job; asking again for the status it already has succeeds and changes nothing. |
| `MemoryJobs.MemoryStore.CancelBySession` | services/cloud/internal/jobs/store.go:266-285 | Cancels the session's job unless it has ended; every other job stays. |
| `PostgresJobs.PostgresStore.Claim` | services/cloud/internal/jobs/postgres_store.go:39-73 | The loop of select-least-and-update over the rows that no other transaction has locked answers as the specification of Claim on those rows, leaves the locked ones alone, and rolls the table back if it finds none; the row handed out was queued and due, or running with its lease run out. |
| `PostgresJobs.OverlappingClaims` | services/cloud/internal/jobs/postgres_store.go:281-302 | Two claims under way at once, the second skipping the rows the first has locked, come to the same table and answers as one after the other, and never give out the same job, as long as the first lease has not run out by the second clock. |
| `PostgresJobs.SkippingAnswers` | services/cloud/internal/jobs/postgres_store.go:281-302 | Skipping locked rows changes the answer of a claim only if one of them is claimable with attempts left. |
| `PostgresJobs.SelectPasses` | services/cloud/internal/jobs/postgres_store.go:281-302 | One update of an exhausted candidate is one step of the specification's walk. |
| `PostgresJobs.PostgresStore.Enqueue` | services/cloud/internal/jobs/postgres_store.go:19-37 | Inserts a queued job or returns the session's existing one. |
| `PostgresJobs.PostgresStore.ExtendLease` | services/cloud/internal/jobs/postgres_store.go:142-160 | The guarded update changes exactly the row the in-memory store would. |
| `PostgresJobs.PostgresStore.ReservePublication` | services/cloud/internal/jobs/postgres_store.go:162-189 | COALESCE keeps the first pair; only the holder's row is touched. |
| `PostgresJobs.PostgresStore.Retry` | services/cloud/internal/jobs/postgres_store.go:191-211 | The guarded update changes exactly the row the in-memory store would. |
| `PostgresJobs.PostgresStore.Finish` | services/cloud/internal/jobs/postgres_store.go:104-140 | The guarded update and the second look at a row already in that status. |
| `PostgresJobs.PostgresStore.CancelBySession` | services/cloud/internal/jobs/postgres_store.go:227-242 | Cancels the session's unfinished jobs and no others. |
| `JobLeases.FormerHolderIsFenced` | services/cloud/internal/jobs/store.go:141-264 | Once a job is not running under a worker, no later call of that worker changes the job, at any time stamp, through any calls of others, until it claims again. |
| `JobLeases.ReclaimFences` | services/cloud/internal/jobs/store.go:98-139 | A claim by another worker is such a moment. |
| `JobLeases.KeptLeaseKeepsJob` | services/cloud/internal/jobs/store.go:98-163 | While the holder's extensions are less than a lease apart and nobody ends the job, every extension succeeds and no claim returns it. |
| `JobLeases.TicksBeatInTime` | services/cloud/internal/worker/worker.go:58-62 | Beats at an interval under half the lease, never two in a row lost, are less than a lease apart. |
| `JobLeases.ConfiguredWorkerKeepsJob` | services/cloud/internal/worker/worker.go:58-62 | So from its claim on, a worker configured as the constructor demands is never overtaken. |
| `JobLeases.BudgetStep` | services/cloud/internal/jobs/store.go:74-285 | A measure on status and attempts never rises, falls at every claim, give-up, retry and end, and attempts rise by one exactly when the job is granted. |
| `JobLeases.ClaimsAreBounded` | services/cloud/internal/jobs/store.go:98-139 | Over any run a job is granted at most as often as it has attempts left, and has at most as many status changes as the measure. |
| `JobLeases.NewJobIsBounded` | services/cloud/internal/jobs/store.go:74-96 | A new job is granted at most three times and changes status at most seven times. |
| `Heartbeat.RunLeaseHeartbeat` | services/cloud/internal/worker/heartbeat.go:10-37 | The loop touches only its own job, moves only its lease, and cancels the work exactly when an extension is refused and it was not stopped itself. |
| `Heartbeat.InTimeKeepsLease` | services/cloud/internal/worker/heartbeat.go:20-36 | Ticks within the lease never lose it and change nothing but the lease. |
| `Heartbeat.LostIffLate` | services/cloud/internal/worker/heartbeat.go:20-36 | A heartbeat nobody stops reports a lost lease if and only if some tick before a stop comes after the lease ran out. |
| `Heartbeat.LostLeaseStopsWork` | services/cloud/internal/worker/heartbeat.go:24-33 | A tick on a lease that is gone changes nothing and ends the loop, with the error unless it was stopped meanwhile. |
| `SessionModel.ChangeOk` | services/cloud/internal/generation/service.go:141-374 | Every call of the service keeps a session valid and only adds to it; the snapshot changes only when an awaiting session becomes queued. |
| `SessionModel.WriteOnceNeverTrips` | services/cloud/internal/generation/postgres_repository.go:387-407 | No call ever trips the write-once guard of the database. |
| `SessionModel.SessionsKeepTheirSnapshot` | services/cloud/internal/generation/session.go:199-285 | Over any sequence of calls a session stays valid and its snapshot, once there, never changes. |
| `SessionModel.SnapshotValid` | services/cloud/internal/generation/postgres_repository.go:432-483 | Every snapshot a confirmation makes passes the check made when it is read back. |
| `SessionModel.ConfirmedOk` | services/cloud/internal/generation/session.go:199-235 | Confirming an awaiting session succeeds, queues it, and snapshots exactly its prompt, later messages, target, locale and base. |
| `SessionModel.OpenedOk` | services/cloud/internal/generation/session.go:114-163 | A session that opens is valid, awaits confirmation, and has trimmed base ids, both or neither. |
| `SessionModel.NormalizedOk` | services/cloud/internal/generation/session.go:237-251 | Normalised capabilities are the distinct trimmed non-blank ones. |
| `SessionModel.ReadyComesFromMark` | services/cloud/internal/generation/session.go:253-285 | A session becomes ready only by being marked, with the version it was marked with. |
| `SessionLife.AnsweredIff` | services/cloud/internal/generation/session.go:253-332 | Each call is answered exactly in the statuses listed for it, and leads to the status listed. |
| `SessionLife.SessionsKeepToTheRoad` | services/cloud/internal/generation/session.go:253-285 | Whatever calls a new session gets, its status events are a prefix of requirements, queued, generating, validating, ready at 0.1, 0.2, 0.35, 0.75 and 1, as far as it has come, and at most one failure after queued or one cancellation. |
| `SessionLife.MessagesAreSaid` | services/cloud/internal/generation/session.go:165-197 | Over any calls the messages are those before and the trimmed, non-blank contents sent until the session was confirmed or cancelled, in order. |
| `SessionLife.ConfirmedIsSaid` | services/cloud/internal/generation/session.go:199-235 | The snapshot of a new session's life is its trimmed prompt, exactly what its user said until then, and the target, locale and base it was opened with. |
| `SessionModel.ChangeResumable` | services/cloud/internal/generation/session.go:253-332 | Whatever the clock says, no call takes a session away from the states a worker can resume from consistently. |
| `SessionRecord.NormalizeCapabilities` | services/cloud/internal/generation/session.go:237-251 | The loop returns the distinct trimmed non-blank capabilities in sorted order. |
| `SessionRecord.ValidateConfirmedRequirement` | services/cloud/internal/generation/postgres_repository.go:432-483 | Accepts exactly the snapshots with text, valid messages, a known target, both or neither base id, distinct normal capabilities and a time. |
| `SessionRecord.SessionObject.Transition` | services/cloud/internal/generation/session.go:253-285 | Only an allowed move changes the fields, and then adds exactly one event, the one returned; a refused one changes nothing. |
| `SessionRecord.SessionObject.AddMessage` | services/cloud/internal/generation/session.go:165-197 | Appends the trimmed message and one event while confirmation is awaited; otherwise changes nothing. |
| `SessionRecord.SessionObject.Confirm` | services/cloud/internal/generation/session.go:199-235 | Takes the snapshot once, or is refused and leaves no trace. |
| `SessionRecord.SessionObject.Cancel` | services/cloud/internal/generation/session.go:287-297 | Ends an unfinished session with one event; a finished one is unchanged. |
| `EventStreams.SubscribersMissNothing` | services/cloud/internal/generation/service.go:245-321 | Under any interleaving of local changes, changes by other processes and stale polls, every subscriber has received exactly the session's events above its start and up to its cursor, in order. |
| `EventStreams.LocalChangesReachEveryone` | services/cloud/internal/generation/service.go:388-395 | After a local change every open stream of the session has all its events. |
| `EventStreams.ClosedStaysClosed` | services/cloud/internal/generation/service.go:270-281 | No step sends on a closed stream or opens it again. |
| `EventStreams.PublishDelivers` | services/cloud/internal/generation/service.go:397-404 | Publishing any prefix of the event list, however old, keeps a stream complete and brings it up to that prefix. |
| `EventStreams.ServiceCallsExtend` | services/cloud/internal/generation/session.go:271-283 | Every service call only appends events numbered on from the last. |
| `EventStreams.PublishStream` | services/cloud/internal/generation/service.go:397-404 | The loop sends exactly the events above the cursor. |
| `GenerationService.Service.Create` | services/cloud/internal/generation/service.go:86-131 | Stores a session only for valid input, with a base only if the version catalog is there and finds that version for the user; nothing is published. |
| `GenerationService.Service.Confirm` | services/cloud/internal/generation/service.go:158-203 | Confirms, publishes the events and enqueues; when the queue refuses, the session is failed at a later clock reading, which is published too, and no job is added. |
| `GenerationService.Service.Cancel` | services/cloud/internal/generation/service.go:205-229 | Cancels the owner's session, publishes that, and then cancels its job at a later clock reading; a refusal changes neither, a queue that is down leaves the job. |
| `GenerationService.Service.UpdateSystem` | services/cloud/internal/generation/service.go:376-386 | A successful change is stored and published to every stream of the session; a failed one does nothing. |
| `GenerationService.Service.UpdateOwned` | services/cloud/internal/generation/service.go:141-156 | The same for the owner, and nobody else. |
| `GenerationService.Service.PublishLocked` | services/cloud/internal/generation/service.go:388-395 | Visiting the streams in any order brings every one of them, and no other, up to date. |
| `GenerationService.Service.SubscribeEvents` | services/cloud/internal/generation/service.go:245-267 | A new stream starts with the events above its start, for the owner only. |
| `GenerationService.Service.CloseStream` | services/cloud/internal/generation/service.go:270-281 | The stream is closed and taken off the session's list. |
| `GenerationService.Service.PollTick` | services/cloud/internal/generation/service.go:309-319 | A tick publishes its snapshot only to a stream still subscribed. |
| `DisplayVersion.PrintParses` | services/cloud/internal/publish/publisher.go:220-237 | Three numbers up to the 64-bit bound, printed, parse back to themselves. |
| `DisplayVersion.ParsePrints` | services/cloud/internal/publish/publisher.go:220-237 | Whatever parses is the print of what it parses to, so each display version has one spelling. |
| `DisplayVersion.ParseDisplayVersion` | services/cloud/internal/publish/publisher.go:220-237 | Accepts exactly three dot-separated canonical decimals up to the 64-bit bound, and returns them. |
| `DisplayVersion.CompareDisplayVersion` | services/cloud/internal/publish/publisher.go:239-249 | The loop decides the lexicographic order; zero means equal. |
| `DisplayVersion.NextDisplayVersion` | services/cloud/internal/publish/publisher.go:191-218 | The running maximum gives the highest listed version with its last part one up; an unreadable or empty list and the bound are errors. |
| `DisplayVersion.NextIsUnique` | services/cloud/internal/publish/publisher.go:203-217 | The answer does not depend on the order of the list. |
| `DisplayVersion.NextIsAbove` | services/cloud/internal/publish/publisher.go:191-218 | The answer parses, is new, and is strictly above every listed version. |
| `DisplayVersion.NextFollowsAtOnce` | services/cloud/internal/publish/publisher.go:203-217 | No number lies between the answer and one of the listed versions: the step is the least possible. |
| `DisplayVersion.NextFailsOnlyAtTheBound` | services/cloud/internal/publish/publisher.go:213-217 | For a readable, non-empty list it fails if and only if the highest version ends in the largest 64-bit number. |
| `Decimal.PrintParses` | services/cloud/internal/publish/publisher.go:226-235 | Decimal printing is undone by reading, without a leading zero. |
| `Decimal.ParsePrints` | services/cloud/internal/publish/publisher.go:226-235 | Reading a canonical decimal is undone by printing. |
| `PublishModel.PutKeeps` | services/cloud/internal/publish/publisher.go:334-348 | Content put under its own hash is there unchanged, nothing else moves, and it is refused only if other content with that hash is stored. |
| `PublishModel.CreateKeeps` | services/cloud/internal/publish/publisher.go:399-425 | Versions stay immutable and displays unique; creating again returns the version that is there; a refusal changes nothing. |
| `PublishModel.RefusedIffTaken` | services/cloud/internal/publish/publisher.go:408-422 | A new version is refused if and only if the user's card already shows its display version. |
| `PublishModel.NextIsAccepted` | services/cloud/internal/publish/publisher.go:191-218 | A new version under the next display version, with no write in between, is never refused. |
| `PublishModel.StoredLoads` | services/cloud/internal/publish/publisher.go:292-319 | A version whose object is stored under its hash loads within the limit, with that very content. |
| `PublishModel.OnlyTheOwnerLoads` | services/cloud/internal/publish/publisher.go:292-319 | Whatever loads belongs to that user and card and hashes to what was recorded. |
| `PublishModel.KeyOfInjective` | services/cloud/internal/publish/publisher.go:119-119 | Different hashes have different object keys. |
| `Publishing.MemoryObjectStore.PutIfAbsent` | services/cloud/internal/publish/publisher.go:334-348 | Stores under a new key; the same content again succeeds, other content is refused, and neither changes anything. |
| `Publishing.MemoryVersionRepository.Create` | services/cloud/internal/publish/publisher.go:399-425 | The loop over all versions refuses exactly a display version taken on the user's card; an existing id returns the stored version or a conflict. |
| `Publishing.MemoryVersionRepository.ListByUser` | services/cloud/internal/publish/publisher.go:445-461 | Exactly the user's versions, each once. |
| `Publishing.MemoryVersionRepository.ListByCard` | services/cloud/internal/publish/publisher.go:463-479 | Exactly the card's versions of that user, each once. |
| `Publishing.Publisher.Publish` | services/cloud/internal/publish/publisher.go:111-140 | Put before create: a failed build or put creates nothing, and a version that is returned loads at once with the bytes that were built. |
| `Publishing.Publisher.NextDisplayVersion` | services/cloud/internal/publish/publisher.go:191-218 | The next display version over exactly the card's versions. |
| `Publishing.Publisher.OwnsVersion` | services/cloud/internal/publish/publisher.go:258-267 | True exactly for the user's own version of the card. |
| `Publishing.Publisher.LoadVersionArtifact` | services/cloud/internal/publish/publisher.go:292-319 | The object of the owner's version if it is within the limit and hashes as recorded, else the matching error. |
| `ModelAttempts.Generate` | services/cloud/internal/agent/agent.go:88-156 | Ends with the first answer that validates or breaks off, each attempt being told the latest rejection, after at most three calls; what it returns has validated. |
| `ModelAttempts.GenerateWeb` | services/cloud/internal/agent/agent.go:158-255 | The same with decoding and a sandbox build, and what it returns was built from its sources and is not empty. |
| `ModelAttempts.EndIsUnique` | services/cloud/internal/agent/agent.go:104-155 | The provider, validator and sandbox determine where the loop ends. |
| `ModelAttempts.EndedThere` | services/cloud/internal/agent/agent.go:88-156 | However the loop ended, result, attempts and calls are those of three functions of the provider, validator and sandbox. |
| `ModelAttempts.CallsAreFew` | services/cloud/internal/agent/agent.go:37-37 | Whatever they answer, native or web, one generation makes at most three calls. |
| `ModelAttempts.Ask` | services/cloud/internal/agent/agent.go:88-102 | The loop of the runtime in question: it succeeds and makes as many calls as those functions say. |
| `NativeChecker.Validate` | services/cloud/internal/agent/native_validator.go:20-72 | With its counters, id set, path index and maps visited in any order, accepts exactly the documents of an order-free predicate: distinct ids, nodes, depth and the sum of all data within limits, and the rules of each node; for a checked catalog every node of an accepted document is understood from the initial state (NativeMeaning.AcceptedMeans). |
| `NativeChecker.NativeValidationState.ValidateNode` | services/cloud/internal/agent/native_validator.go:83-203 | Accepts a subtree exactly when its nodes fit and the account so far affords all of it, and then has charged exactly its ids, nodes and data. |
| `NativeChecker.NativeValidationState.ValidateChildren` | services/cloud/internal/agent/native_validator.go:193-202 | The same for the children in turn. |
| `NativeChecker.NativeValidationState.ValidateSelf` | services/cloud/internal/agent/native_validator.go:84-192 | The same for a node without its children. |
| `NativeChecker.NativeValidationState.ValidateProps` | services/cloud/internal/agent/native_validator.go:107-128 | Visiting props in any order accepts exactly those that fit their rules, with all required ones and all their data within the budget. |
| `NativeChecker.NativeValidationState.ValidateEvents` | services/cloud/internal/agent/native_validator.go:149-176 | The same for events and the data of their actions. |
| `NativeChecker.NativeValidationState.ValidateActions` | services/cloud/internal/agent/native_validator.go:159-174 | An event's actions fit, are not too many, and are charged their data. |
| `NativeChecker.NativeValidationState.ValidateAction` | services/cloud/internal/agent/native_validator.go:205-266 | Accepts exactly a known action with its fields, a good path, a value that fits, an allowed capability or a usable target, within the budget; told from the initial state that has been indexed, a target of the right kind. |
| `NativeChecker.NativeValidationState.ValidateValue` | services/cloud/internal/agent/native_validator.go:268-335 | Accepts exactly a value that fits its rule, literal or bound, and charges its whole size. |
| `NativeChecker.NativeValidationState.ConsumeDataAt` | services/cloud/internal/agent/native_validator.go:437-474 | Accepts exactly data within depth and budget, charges its size, and indexes exactly the paths below it. |
| `NativeChecker.NativeValidationState.ConsumeInitialState` | services/cloud/internal/agent/native_validator.go:429-431 | Leaves an index holding exactly the readable paths of the initial state with their values, whatever order the keys came in. |
| `NativeMeaning.AcceptedMeans` | services/cloud/internal/agent/native_validator.go:83-203 | Every node of an accepted document, wherever a route of child positions leads: its literals are within their rules, its paths read values of the right kind in the initial state, and each action may invoke its method or points at what it works on. |
| `NativeMeaning.ActionIff` | services/cloud/internal/agent/native_validator.go:205-266 | An action is accepted if and only if its fields are those of its type and it invokes a supported, allowed method, or points right. |
| `NativeMeaning.TargetIff` | services/cloud/internal/agent/native_validator.go:494-523 | On the initial state itself: increment and startTimer need a number, toggle a boolean, append and remove a list, other types a readable path, and set a top-level name or a field of an object. |
| `NativeMeaning.WritableIff` | services/cloud/internal/agent/native_validator.go:481-492 | A path can be written exactly if it has no dot or what stands before its last dot reads an object. |
| `NativeMeaning.LiteralIff` | services/cloud/internal/agent/native_validator.go:525-588 | A literal is accepted exactly if it has the kind of its rule, is within its bounds, values, length and pattern, repeats nothing where that is asked, and is written as an integer where one is asked for. |
| `NativeMeaning.BoundMeans` | services/cloud/internal/agent/native_validator.go:337-364 | A path binding is accepted exactly if it reads a value of the rule's kind in the initial state. |
| `NativeMeaning.SliderIff` | services/cloud/internal/agent/native_validator.go:135-147 | A slider is accepted exactly if its least value, or 0, is at most its greatest, or 1. |
| `NodeRoutes.AcceptedCount` | services/cloud/internal/agent/native_validator.go:83-106 | There are at most as many routes into an accepted document as the catalog allows nodes. |
| `NodeRoutes.AcceptedNames` | services/cloud/internal/agent/native_validator.go:83-106 | Different routes lead to nodes with different ids. |
| `StatePaths.IndexIsUnique` | services/cloud/internal/agent/native_validator.go:476-479 | That index is determined by the initial state alone. |
| `StatePaths.RootAdds` | services/cloud/internal/agent/native_validator.go:437-474 | What the visit adds is exactly the index: a path is found with a value if and only if its non-empty dot-free segments lead through objects to it. |
| `StatePaths.ChildAdds` | services/cloud/internal/agent/native_validator.go:452-463 | Visiting one more key adds exactly the paths below it, also beside keys that are empty or contain dots. |
| `NativeDocument.ChargedInTurn` | services/cloud/internal/agent/native_validator.go:83-203 | Charging children one after the other comes to the sums over all of them and the union of their ids. |
| `NativeDocument.AffordedInTurn` | services/cloud/internal/agent/native_validator.go:83-203 | Never running out along the way is the same as the totals being within the limits and no id repeated. |
| `NativeDocument.ChargeUnfolds` | services/cloud/internal/agent/native_validator.go:83-203 | A node's charge is its own and then its children's. |
| `NativeDocument.AffordsUnfolds` | services/cloud/internal/agent/native_validator.go:83-203 | And likewise for what it can afford. |
| `Json.TotalPick` | services/cloud/internal/agent/native_validator.go:437-474 | A total over a map does not depend on which key is visited first. |
| `ExpressionTyping.TypedIffDerivable` | services/cloud/internal/agent/native_validator.go:337-408 | An expression is given a type if and only if a typing derivation within the nesting limit gives it: known operator, arity, argument types, paths that resolve, no known zero divisor or negative duration. |
| `ExpressionTyping.AcceptedDerives` | services/cloud/internal/agent/native_validator.go:337-364 | Acceptance yields such a derivation. |
| `ExpressionTyping.DerivedAccepts` | services/cloud/internal/agent/native_validator.go:366-427 | Every such derivation is accepted, with its type. |
| `SchemaAgreement.AcceptedIffListed` | services/cloud/cmd/native-context-gen/native_schema.go:9-95 | For every catalog the generator accepts: a document the validator accepts is valid under the generated schema if and only if every method its actions name is a supported one. |
| `SchemaAgreement.AcceptedIsValid` | services/cloud/cmd/native-context-gen/native_schema.go:9-95 | If only capability.invoke declares a method field, every document the validator accepts is valid under the generated schema. |
| `SchemaAgreement.ActionIffListed` | services/cloud/cmd/native-context-gen/native_schema.go:149-187 | An accepted action is an instance of the action definition exactly when its method, if any, is a supported one. |
| `SchemaAgreement.AcceptedBuilds` | services/cloud/cmd/native-context-gen/main.go:307-403 | Every catalog that passes the generator's checks compiles. |
| `SchemaAgreement.NodeBranch` | services/cloud/cmd/native-context-gen/native_schema.go:97-147 | At every accepted node exactly one oneOf branch matches, that of its component. |
| `SchemaAgreement.ActionBranch` | services/cloud/cmd/native-context-gen/native_schema.go:149-187 | At every accepted action exactly one oneOf branch matches, that of its type. |
| `SchemaAgreement.CallBranch` | services/cloud/cmd/native-context-gen/native_schema.go:189-206 | At every accepted call exactly one oneOf branch matches, that of its operator. |
| `SchemaAgreement.ValueValid` | services/cloud/cmd/native-context-gen/native_schema.go:208-253 | A value that fits its rule, as literal, path, call or wrapped call, is valid under the rule's schema. |
| `SchemaAgreement.LiteralValid` | services/cloud/cmd/native-context-gen/native_schema.go:208-253 | A literal that fits its rule is valid under the literal branch, its bounds, pattern, enumeration and uniqueness included. |
| `SchemaAgreement.ValidIsListed` | services/cloud/cmd/native-context-gen/native_schema.go:97-147 | Conversely a node valid under the schema names only supported methods anywhere below it. |
| `SchemaMeaning.DocumentIff` | services/cloud/cmd/native-context-gen/native_schema.go:9-95 | For every catalog the generator accepts, a document is valid under the generated schema if and only if it is one of the grammar: the version, a state, and at every node a known component with the props it requires, no unknown prop, event or field, and values and actions that meet their rules. |
| `SchemaMeaning.NodeIff` | services/cloud/cmd/native-context-gen/native_schema.go:97-147 | The same for a node and all below it. |
| `SchemaMeaning.ActionIff` | services/cloud/cmd/native-context-gen/native_schema.go:149-187 | An action is valid exactly if its type is known, its required fields are there, no other field is, and each is as its name says. |
| `SchemaMeaning.CallIff` | services/cloud/cmd/native-context-gen/native_schema.go:189-206 | A call is valid exactly if its operator is known and it has as many arguments as that takes. |
| `SchemaMeaning.ValueIff` | services/cloud/cmd/native-context-gen/native_schema.go:208-253 | A value is valid under its rule's schema exactly if it is within the rule or, where the rule can be bound, a path, a call or a wrapped call. |
| `SchemaMeaning.LiteralIff` | services/cloud/cmd/native-context-gen/native_schema.go:225-253 | A literal is valid exactly if it has the kind of the rule, integral decimals being integers, and is within its bounds, values, least length and pattern, without repeats where that is asked. |
| `SchemaGenerator.BuildNativeSchema` | services/cloud/cmd/native-context-gen/native_schema.go:9-95 | The loops over the sorted catalog give the whole schema document, or an error exactly when a rule has no schema; for a checked catalog, a schema that accepts exactly the documents of its grammar. |
| `SchemaGenerator.BuildComponent` | services/cloud/cmd/native-context-gen/native_schema.go:97-147 | One component's branch, its props and events gathered in any order. |
| `SchemaGenerator.BuildAction` | services/cloud/cmd/native-context-gen/native_schema.go:149-187 | One action's branch, methods listed from the capabilities natively supported. |
| `SchemaGenerator.BuildProps` | services/cloud/cmd/native-context-gen/native_schema.go:97-105 | A schema for each allowed prop, or an error exactly when a rule has none; each accepts exactly the values that meet its rule. |
| `SchemaGenerator.BuildExpressions` | services/cloud/cmd/native-context-gen/native_schema.go:31-34 | One branch for each operator in sorted order. |
| `Decoder.DecodeNativeCard` | contracts/typescript/decoder.ts:104-113 | With its shared counter, accepts exactly the documents of an order-free predicate. |
| `Decoder.DecodeNode` | contracts/typescript/decoder.ts:125-162 | Accepts a subtree exactly when its nodes fit and the counter has room for all of them, and counts exactly them. |
| `Decoder.DecodeChildren` | contracts/typescript/decoder.ts:157-160 | The same for the children in turn. |
| `DecoderAgreement.AcceptedIsDecoded` | contracts/typescript/decoder.ts:104-162 | A document the validator accepts is decoded if and only if no value the decoder evaluates is an object of just op and args with op no string or args no array. |
| `DecoderAgreement.TreeAgrees` | contracts/typescript/decoder.ts:125-162 | The same at every node. |
| `DecoderAgreement.ActionAgrees` | contracts/typescript/decoder.ts:164-186 | The same at every action. |
| `DecoderAgreement.ValueAgrees` | contracts/typescript/decoder.ts:188-199 | The same at every value, a non-bindable one being always decoded. |
| `DecoderAgreement.EvaluateAgrees` | contracts/typescript/decoder.ts:201-218 | The same for evaluation, and both checkers then agree on the type up to integers being numbers. |
| `DecoderAgreement.CallAgrees` | contracts/typescript/decoder.ts:220-242 | The same for calls, with the same result type. |
| `DecoderAgreement.LiteralAgrees` | contracts/typescript/decoder.ts:244-271 | Every literal the validator accepts for a rule the decoder accepts too. |
| `DecoderAgreement.RunesWithinUnits` | contracts/typescript/decoder.ts:244-271 | The two length measures differ: UTF-16 units are at least the runes and at most twice as many. |
| `DecoderMeaning.DocumentIff` | contracts/typescript/decoder.ts:104-162 | A document is decoded if and only if it has just a version 1, a state and a root, at most 500 nodes, and every node is of a known component at most 32 deep, with a name, what it requires, nothing it does not know, and values and actions that meet their rules. |
| `DecoderMeaning.ActionIff` | contracts/typescript/decoder.ts:164-186 | An action is decoded exactly if its type is known, its fields are those declared, and its path, params, value and method are as they must be. |
| `DecoderMeaning.ValueIff` | contracts/typescript/decoder.ts:188-199 | A value is decoded exactly if it is a literal within its rule or, where the rule can be bound, a path or a typed call of the rule's kind. |
| `DecoderMeaning.CallIff` | contracts/typescript/decoder.ts:220-242 | A call is decoded exactly if its operator is known, its arguments are as many as that takes and each of its type, and no known zero divides and no known negative is rooted; its type is then the operator's. |
| `DecoderMeaning.LiteralIff` | contracts/typescript/decoder.ts:244-271 | A literal is decoded exactly if it is within its rule, its length counted in UTF-16 units. |
| `DecoderMeaning.UnitsCount` | contracts/typescript/decoder.ts:244-271 | Those units are the code points and one more for each beyond the basic plane. |
| `DecoderAgreement.TrapsDiffer` | contracts/typescript/decoder.ts:201-218 | A concrete value accepted by the validator and refused by the decoder. |
| `ShippedCatalog.ShippedOk` | contracts/card/native-card-catalog.v1.json:1-90 | The catalog of the repository passes the generator's checks, names methods only in capability.invoke, and meets the conditions of the decoder agreement. |
| `ShippedCatalog.AcceptedIsShared` | contracts/card/native-card-catalog.v1.json:1-90 | So with that catalog every document the validator accepts is valid under the generated schema, and is decoded exactly if it holds no trap. |
| `ShippedCatalog.TrappedIsRefused` | contracts/typescript/decoder.ts:201-218 | With that catalog a document of one KeyValue is accepted by the validator and refused by the decoder. |
| `ShippedCatalog.UnlistedIsInvalid` | services/cloud/cmd/native-context-gen/native_schema.go:149-187 | With a catalog that lets another action name a method, a document of one Button is accepted by the validator and invalid under the schema. |
| `ShippedCatalog.NamingIsOk` | services/cloud/cmd/native-context-gen/main.go:307-403 | The generator's checks let such a catalog pass. |
| `CanonicalJson.PrintReads` | services/cloud/internal/artifact/builder.go:162-239 | A reader of JSON undoes the printer on every tree of null, booleans, strings, number texts, lists and maps, whatever follows. |
| `CanonicalJson.PrintStops` | services/cloud/internal/artifact/builder.go:180-181 | A strict JSON reader stops on the text of a tree with any character whose escape JSON does not have, whatever follows. |
| `CanonicalJson.JsonIffLegal` | services/cloud/internal/artifact/builder.go:162-239 | So canonical text is JSON, and reads back as its tree, if and only if no key and no text needs such an escape. |
| `CanonicalJson.PrintIsInjective` | services/cloud/internal/artifact/builder.go:162-239 | Two different trees never share canonical text. |
| `CanonicalOrder.LeastKeyFirst` | services/cloud/internal/artifact/builder.go:209-226 | The text of a map is its least field by code points and then the text of the map without it. |
| `Quoting.QuoteReads` | services/cloud/internal/artifact/builder.go:180-181 | A reader that knows all of Go's escapes undoes the quoting of any string; a strict JSON reader does if no character needs an escape JSON lacks. |
| `Quoting.QuoteStops` | services/cloud/internal/artifact/builder.go:180-181 | A strict JSON reader refuses the quoting of every other string, such as one with a bell, a delete or an unprintable character beyond the basic plane. |
| `CanonicalPrinter.AppendCanonical` | services/cloud/internal/artifact/builder.go:170-239 | Writes exactly the canonical text after what is there, and fails exactly on a number that is none. |
| `CanonicalPrinter.AppendItems` | services/cloud/internal/artifact/builder.go:198-208 | A list's items, separated by commas. |
| `CanonicalPrinter.AppendFields` | services/cloud/internal/artifact/builder.go:209-226 | A map's fields in the given sorted order. |
| `CanonicalPrinter.CanonicalJSON` | services/cloud/internal/artifact/builder.go:162-168 | The canonical text of the whole tree, or the error. |
| `CardManifest.DecodesEncoded` | services/cloud/internal/contracts/card_definition.go:43-62 | Decoding the manifest of any definition whose integers are below a million and whose sizes are floats gives the definition back. |
| `CardManifest.DefinitionPrints` | services/cloud/internal/artifact/builder.go:170-197 | The printer never fails on the manifest of a definition. |
| `CardManifest.EncodedLegal` | services/cloud/internal/contracts/card_definition.go:43-62 | The manifest is JSON exactly when the definition's own texts are, capabilities, domains, paths and hashes included: no field name, time or number stands in the way. |
| `CardManifest.SomeCodecIsIdeal` | services/cloud/internal/artifact/builder.go:182-197 | What is assumed of printing, decoding and signatures can be met: a concrete codec over a finite set of floats with UTF-8 by hand. |
| `CardManifest.SmallIntegerParses` | services/cloud/internal/artifact/builder.go:182-186 | An integer below a million is printed in plain digits and decodes as itself. |
| `CardManifest.LargeIntegerFails` | services/cloud/internal/artifact/builder.go:182-186 | From a million on it is printed with an exponent, and does not decode as an integer. |
| `CardManifest.FieldNamesDiffer` | services/cloud/internal/contracts/card_definition.go:43-62 | The names of the fields, the key id and the signature are all different. |
| `ArtifactPrograms.Build` | services/cloud/internal/artifact/builder.go:42-124 | Succeeds exactly for a usable key id, safe paths and sizes, an entrypoint that is there, a valid definition and an archive within its limit, and packs the signed manifest before the files in sorted order. |
| `ArtifactPrograms.CheckFiles` | services/cloud/internal/artifact/builder.go:50-63 | Visiting the files in any order accepts exactly safe paths, sizes and total. |
| `ArtifactPrograms.Sign` | services/cloud/internal/artifact/builder.go:81-100 | The signature is over the canonical manifest with the key id and without a signature. |
| `ArtifactPrograms.CollectFiles` | services/cloud/internal/agent/base_artifact.go:44-75 | Succeeds exactly for safe, distinct names within all limits, and gives each name its content. |
| `ArtifactPrograms.ParseBaseArtifact` | services/cloud/internal/agent/base_artifact.go:39-98 | Succeeds exactly if the files, the manifest, its identity, the listed files and the sources all check, and then returns the signed definition and the sources; what is accepted is signed with the expected, trusted key. |
| `ArtifactPrograms.VerifyBaseManifest` | services/cloud/internal/agent/base_artifact.go:100-147 | Accepts exactly one strict JSON object within the limit whose parts check, its signature verifying under the trusted key it names. |
| `ArtifactPrograms.VerifyBaseFields` | services/cloud/internal/agent/base_artifact.go:116-146 | Accepts exactly a manifest signed by the trusted key it names that decodes to a valid definition; the signature is over all other fields. |
| `ArtifactPrograms.VerifyBaseFiles` | services/cloud/internal/agent/base_artifact.go:149-169 | Accepts exactly a list that names the archive's files one for one, with their sizes and hashes. |
| `ArtifactPrograms.ExtractNativeSources` | services/cloud/internal/agent/base_artifact.go:176-188 | Accepts exactly an archive without source files whose document is text, and returns that text. |
| `ArtifactPrograms.ExtractWebSources` | services/cloud/internal/agent/base_artifact.go:190-219 | Accepts exactly allowed source files with the main one among them, within their total, and returns all of them under their own names. |
| `ArtifactPrograms.ExtractBaseSources` | services/cloud/internal/agent/base_artifact.go:171-219 | The one or the other by the definition's runtime. |
| `ArtifactTrust.AcceptedIsSigned` | services/cloud/internal/agent/base_artifact.go:116-146 | Whatever is accepted, the archive has a manifest naming the expected, trusted key, whose signature verifies under it for the canonical text of all other fields. |
| `ArtifactTrust.AcceptedWasMade` | services/cloud/internal/agent/base_artifact.go:39-169 | Given all that was built and signed with the key: an accepted archive has a forged signature, or the definition of something built and, name by name, files of the same size and hash. |
| `ArtifactTrust.TamperedIsRefused` | services/cloud/internal/agent/base_artifact.go:39-169 | So without forged signatures and colliding hashes an archive that differs from everything built in any field of its definition or any file is refused. |
| `ArtifactLimits.AcceptedWithin` | services/cloud/internal/agent/base_artifact.go:39-98 | Every entry of an accepted archive has a safe path of its own, is within its size limit, and is listed with its size and hash unless it is the manifest; the definition is admissible and has the expected card and version. |
| `ArtifactLimits.SafePathIff` | services/cloud/internal/artifact/builder.go:143-160 | A path is safe exactly if it has no backslash and at most eight components between slashes, none of them empty, a dot or two dots. |
| `ArtifactLimits.AdmissibleIff` | services/cloud/internal/contracts/card_definition.go:83-143 | A definition is valid exactly if it has format 1, prefixed ids, a state version, a title with something in it, sizes in order, and the entrypoint of its runtime. |
| `ArtifactRoundTrip.BuiltParses` | services/cloud/internal/agent/base_artifact.go:39-98 | What Build accepts parses, with the matching identity and a trusted key, if and only if every file and the state version are below a million, no text, path or key id needs an escape JSON lacks, the manifest is within the reader's limits, no file has the manifest's name, and the sources are allowed; and it gives the definition with its file list and exactly those sources. |
| `ArtifactRoundTrip.BuiltVerifies` | services/cloud/internal/agent/base_artifact.go:100-147 | The manifest of what Build accepts checks out, as the stamped definition and the key id, exactly if it is within the limit, legal and small: signature, identity and fields never fail otherwise. |
| `ArtifactRoundTrip.VerifiedIs` | services/cloud/internal/agent/base_artifact.go:100-147 | For any definition: its signed manifest checks out exactly if it is short enough, its texts are legal, and it decodes to a valid definition. |
| `ArtifactRoundTrip.SignedLegal` | services/cloud/internal/artifact/builder.go:81-100 | The signed manifest is JSON exactly if the definition's texts and the key id are, whatever the signature. |
| `ArtifactRoundTrip.StampedLegal` | services/cloud/internal/artifact/builder.go:68-80 | The file list adds nothing but the paths to what must be legal. |
| `ArtifactRoundTrip.SourcesUnique` | services/cloud/internal/agent/base_artifact.go:171-219 | The sources returned are determined by the files. |
| `ArtifactRoundTrip.DecodesIffSmall` | services/cloud/internal/artifact/builder.go:68-88 | The stamped manifest decodes if and only if every file and the state version are below a million, and then as itself. |
| `CardIteration.PublishedComesBack` | services/cloud/internal/worker/worker.go:214-273 | The card a run assembles, once built, comes back as a base if and only if it is small, its texts need no escape JSON lacks, its manifest is within the reader's limits and its sources fit; then with the definition the worker wrote and exactly the sources the agent produced, and the agent takes it. |
| `CardIteration.LongDocumentIsLost` | services/cloud/internal/agent/base_artifact.go:221-223 | A native document of 524289 bytes, which the validator accepts, is built, published and small, and is refused as a base for ever. |
| `CardIteration.BellIsLost` | services/cloud/internal/artifact/builder.go:180-181 | So is every card whose confirmed prompt is the word Timer followed by a bell, which sessions admit. |
| `CardIteration.VersionsComeBack` | services/cloud/internal/worker/worker.go:262-273 | Through any chain of iterations each version can be iterated again if and only if its own files are small, its own texts legal, and its own manifest and sources within the limits: nothing accumulates. |
| `CardIteration.ChainKeeps` | services/cloud/internal/worker/worker.go:262-273 | Every version of a chain is valid and keeps the first one's runtime, entrypoint, sizes, capabilities, network policy and state version. |
| `CardIteration.BaseInChain` | services/cloud/internal/worker/worker.go:262-273 | Each version of a chain has a base the agent and the worker can start from, with sizes that are floats. |
| `CardIteration.SourcesComeBack` | services/cloud/internal/worker/worker.go:227-242 | The files put together hold allowed sources if and only if a native document is at most 512 KiB; what is extracted from them is what was put in, and nothing else. |
| `CardIteration.DefinitionFits` | services/cloud/internal/worker/worker.go:243-273 | No run writes a definition that validation refuses, whatever prompt was confirmed and whatever the base. |
| `CardIteration.AssembleFiles` | services/cloud/internal/worker/worker.go:227-242 | The loops over output and sources give each name exactly its content, and no other name. |
| `CardIteration.DecodeWebSource` | services/cloud/internal/agent/agent.go:384-441 | Of the files named in the decoded envelope, accepts exactly one to three allowed ones with the main one, each of limited size, lines and text, and in all within the source limit. |
| `CardIteration.ValidateIterationBase` | services/cloud/internal/agent/agent.go:285-331 | Accepts exactly a valid definition of the confirmed card and version with allowed, well-formed sources. |
| `CardIteration.GeneratedIsBase` | services/cloud/internal/agent/agent.go:285-323 | The agent takes back the sources it produced if and only if a native document is at most 512 KiB. |

## Left out

- A failed job need not have a finished session: claiming fails an exhausted job without touching the session, so no such theorem is stated.
- A cancelled session may still get a version published by a run that was under way; only that it is not marked ready is proved.
- Update times do not only grow: a reservation writes the time of the claim again, so nothing is stated about their order.
- WorkerRun.Worker.RunOnce: runs undisturbed; crashes, reported errors and overtaking are steps of the pipeline model, not of this program, and how the heartbeat ended is an input.
- Pipeline base artifacts: whether a loaded base parses is an arbitrary outcome in the pipeline; PublishedCards says of each version when it does.
- Archives, model answers, ids and clock readings are inputs of a step of the pipeline.
- The heartbeat cancelling a run's context is modelled as any later call being interrupted.
- In-memory jobs and sessions are map entries that are replaced, where the program updates records it holds pointers to; the copies it hands out are values.
- PostgresJobs.PostgresStore.Claim: the rows that other transactions have locked stay the same while it runs.
- The job record that Enqueue returns is not compared between the two stores.
- PostgresJobs.PostgresStore.Finish: does not model a caller that finishes a job as running, because no caller does.
- The version repository and the session tables in Postgres: only the write-once guard and the snapshot check are modelled; statements and migrations are not.
- Cancelled request contexts inside the in-memory stores, which return early and change nothing.
- Session summaries and the texts of events and error messages.
- Event channels have no capacity: a send that would block is taken to arrive; the stream pointers are handles.
- Signed URLs, downloads and the listing of cards for display would only add easy members.
- Preview data of a version, nil against empty slices, token totals, log lines and metrics.
- The description of a card is an input, as is the validation report; both are only carried along.
- Strings are sequences of characters: texts that are not valid UTF-8 are not modelled.
- CardIteration.DecodeWebSource: does not model the strict JSON decoding of the envelope around the files.
- A service without a job queue, which confirms without enqueuing.
- Numbers in documents are exact: float rounding and numbers out of float range are not modelled.
- NativeChecker.Validate: the document arrives decoded with its length beside it; decoding the bytes of the content is not modelled.
- Decoder.DecodeNativeCard: does not model the decoded card it returns, nor names that JavaScript objects inherit, such as a component called constructor.
- SchemaAgreement.AcceptedIsValid: a reference may follow at most one other at the same place, which is all the generated schema needs.
- CatalogOk: the fixed counts of components, actions and operators, the documentation entries and the comparison with the local RPC contract are not modelled.
- CanonicalPrinter.CanonicalJSON: values of other Go types, which the program first turns into JSON, are not modelled.
- ArtifactPrograms.Build: a zip file is a list of entries and a length; its bytes are an encoding that reading undoes.
- Paths are checked by their parts; the call to path.Clean refuses nothing more.
- ModelAttempts.Generate: does not model the wait between provider retries, prompts, or the choice of runtime.
- HTTP handlers, sign-in, the model's HTTP client, the build sandbox, object storage over the network, desktop runners and the web template.
- The Dart renderer: nothing is claimed about types at run time, where set takes any value.
