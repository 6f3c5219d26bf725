# Verified protocol cores of the e-wallet platform

The project models those parts of the platform that decide, by their own code, whether money is
spent twice, data is lost or evidence is trustworthy, and proves what they promise. Each
module is a file of the same name.

**Idempotent delegation.** `IdempotencyCell` is an abstract machine for one request record:
absent, claimed, started, completed, ambiguous. Its labels carry arbitrary clock readings.
`InMemoryIdempotencyStore` (a dictionary of mutable records) and `RedisIdempotencyStore` (five
scripts over hashes with expiry) are both proved against this machine, with the differences the
two have on purpose: reading puts an outlived start in doubt only in Redis, and unstarted claims
vanish there after twice their lease. `ProgrammaticCoordinator` runs any number of workers against
the machine. A call may be lost on its way in or out, a worker may crash between any two steps,
and the authority may expire or doubt the record at any time, which is where the scripts' and the
in-process store's purging and doubting steps appear. `CoordinatorHandler` is the request handler
itself, as a program whose every run is a run of that system. `Deployment`, `InMemoryDeployment`
and `RedisDeployment` put the parts together: every call of a script goes to the actual store, its
worker acts on the store's answer, and the steps taken form a run of the system, so that at most
one delegation per record lifetime holds of both.

**Ledgered remediation.** `VersionedBucket` is an object store with generations and other
writers. `CanonicalSizeRemediator` holds the commands `apply` and `rollback`, where every store
call and ledger write may raise or kill the process before or after its effect;
`CanonicalSizeRemediation` has the ledger and the invariant that makes it good for rollback.
The code's own limit is part of the theorem: a ledger left APPLYING by a killed process is refused
by rollback, and this is the only ledger of the plan that is; `AbandonedRun` is such a run.
`DatasetManifest` and `ScenarioCounts` cover the rebuild of the dataset manifest and its
acceptance, which `apply` calls on the shard manifests it reads from the bucket.

**Create-only publication.** `TrainingSnapshotPublication` records what the publisher did and saw,
and proves what must have happened before a completion marker appears.

**Paid recovery chain.** `GoldRecovery` is the operator-driven step machine over tasks, DagRun,
batches and evidence files.

**Smaller cores.** `ShardPipeline`, `LayoutSummary`, `FeatureFreshness`, `QuotaPolling`, `Luhn`,
`InterpolatedPercentile` and `EvidenceCache`; `Ordering` has the sorting they share.

Conventions. Digests and fingerprints are taken as injective, JSON as an inverse pair, owner tokens
as fresh (a precondition, shown to be needed by `ReusedTokenRevivesReleasedClaim`). Everything the
outside world does is a parameter: clocks, faults, other writers, reactions of Airflow and
Dataproc, other workers. `dafny verify dfyconfig.toml` checks the whole project.

Where the code stops short of what one might read into it. The docstring's claim that the business
subject separates identical request ids of different users holds for all ids
(`EqualRequestIdsSeparateUsers`). User id and request id together are not separated: ids may
contain NUL characters, and `AuthorityIdIsSharedExactly` says exactly when two requests share an
authority id, with an example in `TwoUsersShareAnAuthorityId`; the request fingerprint still keeps
such requests apart. A rebuilt total equals the sum of its tables exactly if the files outside the
first shard's table list add up to nothing (`TotalEqualsSumOfTables`, with an example in
`UnlistedFileBreaksTheSum`).

## Model

| member | source | states |
|---|---|---|
| `IdempotencyCell.DelegationsAreSeparatedByExpiry` | ai_platform/llm_agent/idempotency.py:242-282 | on any path of one record, two successful delegation starts are separated by a recorded result and a later clock reading at or past its expiry |
| `IdempotencyCell.StartedLeavesOnlyThroughResult` | ai_platform/llm_agent/idempotency.py:207-211 | a started record stays as it is, goes into doubt, is completed, or was recorded and has expired; it never returns to claimed |
| `IdempotencyCell.AmbiguousIsAbsorbing` | ai_platform/llm_agent/idempotency.py:203-204 | no operation ever leaves the ambiguous state |
| `IdempotencyCell.CompletedOnlyExpires` | ai_platform/llm_agent/idempotency.py:173-178 | a completed record changes only by expiring, at a reading at or past its expiry |
| `IdempotencyCell.LostClaimsStayLost` | ai_platform/llm_agent/idempotency.py:233-240 | once a claim was taken over, released, expired or put in doubt, its holder changes nothing any more, however the record goes on, as long as its token is not used for a new claim |
| `IdempotencyCell.ReusedTokenRevivesReleasedClaim` | ai_platform/llm_agent/idempotency.py:198-202 | the freshness of tokens is needed: generations restart at 1, so a reused token revives a released claim |
| `IdempotencyCell.GenerationCountsTakeovers` | ai_platform/llm_agent/idempotency.py:212-215 | within one record lifetime the fingerprint is fixed and the generation grows by exactly one with each takeover |
| `IdempotencyCell.PathJoin` | ai_platform/llm_agent/idempotency.py:183-215 | operations compose: the labels of two consecutive operations lead from the first cell to the last |
| `IdempotencyCell.PathIsDeterministic` | ai_platform/llm_agent/idempotency.py:183-215 | the operations on a record determine where they lead |
| `IdempotencyCell.PathSplit` | ai_platform/llm_agent/idempotency.py:183-215 | every intermediate point of a sequence of operations has a definite record state |
| `IdempotencyContract.ScopedKeysAreInjective` | ai_platform/llm_agent/idempotency.py:52-69 | different (tenant, principal, request id) triples never share a record key, for every accepted scope |
| `IdempotencyContract.EqualRequestIdsSeparateUsers` | ai_platform/llm_agent/programmatic_coordinator.py:330-340 | identical request ids of different users never share an authority id, whatever characters the ids contain |
| `IdempotencyContract.AuthorityIdIsSharedExactly` | ai_platform/llm_agent/programmatic_coordinator.py:330-340 | over all requests with validated ids: a request shares its authority id with another one if and only if the text user id, NUL, request id has a NUL at another place that cuts it into two valid ids |
| `IdempotencyContract.NulFreeRequestsShareNothing` | ai_platform/llm_agent/programmatic_coordinator.py:330-340 | in particular a request whose ids contain no NUL shares its authority id with no other request |
| `IdempotencyContract.TwoUsersShareAnAuthorityId` | ai_platform/llm_agent/programmatic_coordinator.py:330-340 | two valid requests of different users that share an authority id |
| `IdempotencyContract.FieldIsRecovered` | ai_platform/llm_agent/idempotency.py:60-67 | a NUL-free field is recovered from its NUL-terminated encoding |
| `IdempotencyContract.AcceptedInputs` | ai_platform/llm_agent/idempotency.py:148-160 | which durations, digests, tokens and request ids are accepted |
| `InMemoryIdempotencyStore.Store.Claim` | ai_platform/llm_agent/idempotency.py:183-215 | validation errors change nothing; otherwise an expired result is purged, the claim moves the record along the abstract machine, other keys stay, and the reply is the abstract answer |
| `InMemoryIdempotencyStore.Store.Read` | ai_platform/llm_agent/idempotency.py:217-230 | reading purges an expired result, leaves an outlived start alone, and reports missing, conflicting or decided records |
| `InMemoryIdempotencyStore.Store.MarkStarted` | ai_platform/llm_agent/idempotency.py:242-258 | succeeds exactly for the holder of a claimed record, and then starts it with a new lease; otherwise nothing changes |
| `InMemoryIdempotencyStore.Store.Complete` | ai_platform/llm_agent/idempotency.py:260-282 | succeeds exactly for the holder of a started record within the size and duration bounds, and then records the result; otherwise nothing changes |
| `InMemoryIdempotencyStore.Store.ReleaseUnstarted` | ai_platform/llm_agent/idempotency.py:284-296 | deletes the record exactly for the holder of a claimed one |
| `InMemoryIdempotencyStore.Store.Lookup` | ai_platform/llm_agent/idempotency.py:173-181 | purges an expired result and detects a foreign fingerprint |
| `InMemoryIdempotencyStore.Record.Arbitrate` | ai_platform/llm_agent/idempotency.py:203-215 | decides a claim on an existing record exactly as the abstract machine does |
| `InMemoryIdempotencyStore.Record.OwnedBy` | ai_platform/llm_agent/idempotency.py:233-240 | true exactly if the claim entitles its bearer to the record in this phase |
| `InMemoryIdempotencyStore.Record.Decide` | ai_platform/llm_agent/idempotency.py:164-171 | the abstract decision about a record one does not own |
| `InMemoryIdempotencyStore.Store.constructor` | ai_platform/llm_agent/idempotency.py:143-146 | starts without records |
| `RedisIdempotencyStore.Server.ExpireKey` | ai_platform/llm_agent/redis_idempotency.py:28-29 | what key expiry removes is an outlived claim or an expired result: a Vanish step of the abstract machine, never a started or ambiguous record |
| `RedisIdempotencyStore.Server.ClaimScript` | ai_platform/llm_agent/redis_idempotency.py:24-48 | the claim script moves the record along exactly the abstract claim labels, followed by a vanishing if the lease is not positive, and keeps the expiry discipline |
| `RedisIdempotencyStore.Server.ReadScript` | ai_platform/llm_agent/redis_idempotency.py:50-64 | the read script puts an outlived start in doubt and otherwise changes nothing |
| `RedisIdempotencyStore.Server.Grant` | ai_platform/llm_agent/redis_idempotency.py:28-29 | a claimed hash is stored until twice its lease has passed, and is gone at once if the lease is not positive |
| `RedisIdempotencyStore.Server.MakeAmbiguous` | ai_platform/llm_agent/redis_idempotency.py:39-42 | an outlived start goes into doubt and never expires |
| `RedisIdempotencyStore.Server.StoreResult` | ai_platform/llm_agent/redis_idempotency.py:80 | a started record becomes a completed one that expires after its time to live |
| `RedisIdempotencyStore.Server.StartScript` | ai_platform/llm_agent/redis_idempotency.py:66-73 | ok and a Start step exactly for the holder of a claimed record, lost and no change otherwise |
| `RedisIdempotencyStore.Server.CompleteScript` | ai_platform/llm_agent/redis_idempotency.py:75-82 | ok and a Finish step exactly for the holder of a started record, lost and no change otherwise |
| `RedisIdempotencyStore.Server.ReleaseScript` | ai_platform/llm_agent/redis_idempotency.py:84-90 | ok and a Drop step exactly for the holder of a claimed record, lost and no change otherwise |
| `RedisIdempotencyStore.DecodedDecision` | ai_platform/llm_agent/redis_idempotency.py:154-166 | the adapter reports the abstract decision unless a completed record has an empty result, which it refuses as a backend fault |
| `RedisIdempotencyStore.Store.Claim` | ai_platform/llm_agent/redis_idempotency.py:168-175 | the adapter, with the token put back, answers like the abstract machine |
| `RedisIdempotencyStore.Store.Read` | ai_platform/llm_agent/redis_idempotency.py:177-178 | the adapter reports missing, conflicting and decided records like the abstract machine |
| `RedisIdempotencyStore.Store.MarkStarted` | ai_platform/llm_agent/redis_idempotency.py:180-192 | succeeds exactly for an acquired claim that still holds the claimed record; every refusal is the state error, or the value error for an invalid request id, and changes nothing |
| `RedisIdempotencyStore.Store.Complete` | ai_platform/llm_agent/redis_idempotency.py:194-208 | succeeds exactly for an acquired claim that still holds the started record, within the size bound; every refusal is the state error, or the value error for an oversized result or an invalid request id, and changes nothing |
| `RedisIdempotencyStore.Store.ReleaseUnstarted` | ai_platform/llm_agent/redis_idempotency.py:210-216 | deletes the record exactly for an acquired claim that still holds it unstarted; every refusal is the state error, or the value error for an invalid request id, and changes nothing |
| `ProgrammaticCoordinator.DelegatesAtMostOncePerLifetime` | ai_platform/llm_agent/programmatic_coordinator.py:361-377 | in every run of any number of workers, with lost calls, crashes and expiry anywhere, the transport is called at most once per record lifetime |
| `ProgrammaticCoordinator.RepliesAgree` | ai_platform/llm_agent/programmatic_coordinator.py:406-419 | all results returned for one record lifetime are its single recorded result |
| `ProgrammaticCoordinator.IdentityMismatchIsUnreachable` | ai_platform/llm_agent/programmatic_coordinator.py:258-259 | no worker ever fails the identity check on a completed record |
| `ProgrammaticCoordinator.LaunchedLifetimeIsNeverReclaimed` | ai_platform/llm_agent/programmatic_coordinator.py:361-375 | after delegation has started, whatever fails, the record of that lifetime is never claimable again |
| `ProgrammaticCoordinator.StepMovesCellAlongPath` | ai_platform/llm_agent/programmatic_coordinator.py:262-310 | the workers move the record only along the abstract machine |
| `ProgrammaticCoordinator.LaunchedLifetimesEndWithTheirResult` | ai_platform/llm_agent/programmatic_coordinator.py:361-419 | in every run, before another lifetime begins and once the record is gone, every lifetime in which delegation started has its result recorded |
| `ProgrammaticCoordinator.DelegationsAreSeparatedByResults` | ai_platform/llm_agent/programmatic_coordinator.py:361-419 | in every run, of two lifetimes in which the transport was called the earlier one has its result recorded |
| `ProgrammaticCoordinator.StepKeepsSettled` | ai_platform/llm_agent/programmatic_coordinator.py:312-419 | every step of a worker or of the authority keeps launched lifetimes settled |
| `ProgrammaticCoordinator.StepMoves` | ai_platform/llm_agent/programmatic_coordinator.py:312-419 | a step moves the worker who takes it and nobody else; that worker keeps its digest, and its token unless it draws a new one |
| `ProgrammaticCoordinator.RunGrows` | ai_platform/llm_agent/programmatic_coordinator.py:312-419 | a possible step extends a run |
| `ProgrammaticCoordinator.StepKeepsInv` | ai_platform/llm_agent/programmatic_coordinator.py:312-419 | every step of a worker or of the authority keeps the joint invariant of tokens, launches and results |
| `ProgrammaticCoordinator.RunKeepsInv` | ai_platform/llm_agent/programmatic_coordinator.py:312-419 | every run keeps it |
| `ProgrammaticCoordinator.ClaimKeepsInv` | ai_platform/llm_agent/programmatic_coordinator.py:272-278 | claiming keeps it, whether the request or its reply is lost |
| `ProgrammaticCoordinator.LaunchKeepsInv` | ai_platform/llm_agent/programmatic_coordinator.py:361-375 | recording the delegation start keeps it, whether the request or its reply is lost |
| `ProgrammaticCoordinator.RecordKeepsInv` | ai_platform/llm_agent/programmatic_coordinator.py:404-418 | recording the result keeps it, whether the request or its reply is lost |
| `ProgrammaticCoordinator.ReleaseKeepsInv` | ai_platform/llm_agent/programmatic_coordinator.py:350-359 | releasing a cancelled claim keeps it |
| `ProgrammaticCoordinator.HeedingKeepsInv` | ai_platform/llm_agent/programmatic_coordinator.py:279-302 | acting on the record of another owner keeps it, and only recorded results are returned |
| `ProgrammaticCoordinator.DelegateKeepsInv` | ai_platform/llm_agent/programmatic_coordinator.py:377 | calling the transport keeps it |
| `CoordinatorHandler.Handler.Handle` | ai_platform/llm_agent/programmatic_coordinator.py:312-419 | one request, with arbitrary steps of others between its own: its steps extend the earlier run of the step machine, contain at most one transport call of this worker, and end with a recorded answer or a failure other than an identity mismatch. What the record was at each of its looks decides the outcome: over a free or outlived record it works; otherwise it never calls the transport, gives up as still in progress only after `patience` polls that each found the record in other hands, returns the result that any delivered poll finds, and reports doubt that any finds. Undisturbed, a free or outlived record is claimed, worked on once and answered, and a completed one is answered from the record without a call |
| `CoordinatorHandler.Handler.ClaimOrWait` | ai_platform/llm_agent/programmatic_coordinator.py:262-310 | ends holding the claim exactly if a delivered claim met a free or outlived record; otherwise with the recorded answer, the conflict, the doubt or the lost call that the claim met, or as waiting ends; no step of it delegates |
| `CoordinatorHandler.Handler.Wait` | ai_platform/llm_agent/programmatic_coordinator.py:289-302 | polls one by one while other hands hold the record: ends with the recorded answer, conflict, doubt, missing record or lost call of the last poll, cancelled between two polls, or still in progress after exactly `patience` polls; every earlier poll was delivered and found the record held |
| `CoordinatorHandler.Handler.Proceed` | ai_platform/llm_agent/programmatic_coordinator.py:350-377 | releases a cancelled claim without delegating, or starts and, if the start is heard to have succeeded, executes; the record at each look decides which, and the number of transport calls is the stated one |
| `CoordinatorHandler.Handler.Execute` | ai_platform/llm_agent/programmatic_coordinator.py:377-419 | delegates exactly once; ends crashed if it is stopped behind that call, and otherwise as the record decides when the result is stored: returned if this worker owns the started record, and failed if not or if the call is lost |
| `CoordinatorHandler.StepAdvances` | ai_platform/llm_agent/programmatic_coordinator.py:250-419 | where a delivered call brings its worker: a grantable claim is held, an owned claim is started, an owned start is recorded, and a completed record is returned |
| `CoordinatorHandler.StepTells` | ai_platform/llm_agent/programmatic_coordinator.py:250-419 | whatever the record and the fate of the call, where any step takes its worker: every answer of a claim, a poll, a start, a result and a release |
| `CoordinatorHandler.WaitingTells` | ai_platform/llm_agent/programmatic_coordinator.py:289-302 | a worker that was not granted its claim gives up only after all polls, returns the result that a delivered poll finds, and reports the doubt that one finds |
| `CoordinatorHandler.LooksGrow` | ai_platform/llm_agent/programmatic_coordinator.py:272-297 | the record at the looks of a worker is that of the run before each of its own calls |
| `CoordinatorHandler.StrangersDelegateNothing` | ai_platform/llm_agent/programmatic_coordinator.py:377 | a worker that has not arrived has no transport call in any run |
| `CoordinatorHandler.ReturnsAreRecorded` | ai_platform/llm_agent/programmatic_coordinator.py:250-260 | a worker that returns returns an answer recorded for some lifetime |
| `CoordinatorHandler.ApartKeepsWorker` | ai_platform/llm_agent/programmatic_coordinator.py:339 | the steps of others leave this worker and its token alone |
| `Deployment.ClaimGoesWhereReplied` | ai_platform/llm_agent/programmatic_coordinator.py:262-302 | whatever became of the call, a claiming worker goes where the answer it hears over the record sends it, and the record goes where the authority takes it |
| `Deployment.PollGoesWhereReplied` | ai_platform/llm_agent/programmatic_coordinator.py:279-302 | likewise for a polling worker, and the record stays |
| `Deployment.StoredResultsAreNotEmpty` | ai_platform/llm_agent/redis_idempotency.py:154-166 | in every run a completed record holds a JSON text, so that no adapter refuses it as empty |
| `Deployment.AllRepliesAgree` | ai_platform/llm_agent/programmatic_coordinator.py:361-419 | in every run: at most one transport call per record lifetime, and all results returned for it agree |
| `Deployment.CallsAreDelegations` | ai_platform/llm_agent/programmatic_coordinator.py:376 | in every run the counted transport calls are exactly the delegation steps |
| `Deployment.ServedAsIntended` | ai_platform/llm_agent/programmatic_coordinator.py:312-419 | when a script of calls is carried out, the steps of workers are exactly the calls that a worker could make, in order |
| `Deployment.Machine.TakeClaim` | ai_platform/llm_agent/programmatic_coordinator.py:272-278 | a claim whose effect is stored is the next step of the run, and the worker acts on the answer it hears |
| `Deployment.Machine.TakeLaunch` | ai_platform/llm_agent/programmatic_coordinator.py:361-375 | the next step of the run; the worker is cleared to delegate exactly if it hears that it owned the claimed record |
| `Deployment.Machine.TakeRecord` | ai_platform/llm_agent/programmatic_coordinator.py:404-418 | the next step of the run; the worker returns its answer exactly if it hears that it owned the started record |
| `InMemoryDeployment.Service.Serve` | ai_platform/llm_agent/idempotency.py:183-296 | calls of any workers to the in-process store, in any order and with any replies lost: each call that its worker can make is made, no worker takes any other step, and the whole is a run of the step machine; the transport is called once for each delegation among the calls, at most once per record lifetime, and all results returned for a lifetime agree |
| `InMemoryDeployment.Service.Play` | ai_platform/llm_agent/idempotency.py:183-296 | the calls are carried out one after the other between definite states of the machine |
| `InMemoryDeployment.Service.Perform` | ai_platform/llm_agent/idempotency.py:183-296 | one call takes exactly the step it asks for if its worker can take it, and none otherwise |
| `InMemoryDeployment.Service.Claim` | ai_platform/llm_agent/idempotency.py:183-215 | the claim is the last step of the run; the stored record drops an expired result and moves along the claim labels, the worker hears the answer over that record unless it is lost, and goes where it sends it |
| `InMemoryDeployment.Service.Read` | ai_platform/llm_agent/idempotency.py:217-230 | the poll is the last step of the run; an expired result is dropped, and the worker hears the decision over the stored record unless it is lost |
| `InMemoryDeployment.Service.MarkStarted` | ai_platform/llm_agent/idempotency.py:242-258 | the start is the last step of the run; the stored record is started exactly if the worker owned it and the request arrived, and the worker goes on exactly if it hears so |
| `InMemoryDeployment.Service.Complete` | ai_platform/llm_agent/idempotency.py:260-282 | the result is the last step of the run; it is stored exactly if the worker owned the started record and the request arrived, and the worker returns exactly if it hears so; an oversized result is an error that the worker does not handle |
| `InMemoryDeployment.Service.ReleaseUnstarted` | ai_platform/llm_agent/idempotency.py:284-296 | the release is the last step of the run; the stored record is gone exactly if the worker owned it and the request arrived |
| `InMemoryDeployment.Service.WorkAlone` | ai_platform/llm_agent/programmatic_coordinator.py:376-403 | a step without the store is the next step of the run and leaves the stored record alone |
| `RedisDeployment.Service.Serve` | ai_platform/llm_agent/redis_idempotency.py:168-216 | calls of any workers to the Redis store, in any order, with any replies lost and keys expiring between them: each call that its worker can make is made, no worker takes any other step, and the whole is a run of the step machine; the transport is called once for each delegation among the calls, at most once per record lifetime, and all results returned for a lifetime agree |
| `RedisDeployment.Service.Play` | ai_platform/llm_agent/redis_idempotency.py:168-216 | the calls are carried out one after the other between definite states of the machine |
| `RedisDeployment.Service.Perform` | ai_platform/llm_agent/redis_idempotency.py:168-216 | one call takes exactly the step it asks for if its worker can take it, and none otherwise |
| `RedisDeployment.Service.Claim` | ai_platform/llm_agent/redis_idempotency.py:168-175 | the claim is the last step of the run; the hash on the server moves along the claim labels, the worker hears the answer over it unless it is lost, and goes where it sends it |
| `RedisDeployment.Service.Read` | ai_platform/llm_agent/redis_idempotency.py:177-178 | the poll is the last step of the run; an outlived start goes into doubt, and the worker hears the decision over the hash unless it is lost |
| `RedisDeployment.Service.Expire` | ai_platform/llm_agent/redis_idempotency.py:28-29 | a key whose time has come is removed as a step of the authority, and any other stays |
| `RedisDeployment.Service.MarkStarted` | ai_platform/llm_agent/redis_idempotency.py:180-192 | the start is the last step of the run; the hash is started exactly if the worker owned it and the request arrived, and the worker goes on exactly if it hears so |
| `RedisDeployment.Service.Complete` | ai_platform/llm_agent/redis_idempotency.py:194-208 | the result is the last step of the run; it is stored exactly if the worker owned the started hash and the request arrived, and the worker returns exactly if it hears so; an oversized result is an error that the worker does not handle |
| `RedisDeployment.Service.ReleaseUnstarted` | ai_platform/llm_agent/redis_idempotency.py:210-216 | the release is the last step of the run; the key is gone exactly if the worker owned it and the request arrived |
| `RedisDeployment.Service.WorkAlone` | ai_platform/llm_agent/programmatic_coordinator.py:376-403 | a step without the store is the next step of the run and leaves the hash alone |
| `VersionedBucket.OthersOnlyAddVersions` | ops/gcp/remediate_canonical_size.py:84-121 | whatever other writers do, every generation ever written keeps its content |
| `VersionedBucket.ReplacedStaysReplaced` | ops/gcp/remediate_canonical_size.py:99-121 | a generation that was replaced is never live again |
| `VersionedBucket.OthersDescend` | ops/gcp/publish_training_snapshot.py:104-119 | what is live after the acts of others and existed before was live before |
| `CanonicalSizeRemediation.RollbackOrderIsByKind` | ops/gcp/remediate_canonical_size.py:1039-1041 | rollback handles every mutation exactly once, files before shard manifests before the dataset manifest, and by name within a kind |
| `CanonicalSizeRemediation.PendingKeepsReady` | ops/gcp/remediate_canonical_size.py:802-822 | noting a pending mutation keeps the ledger good for rollback |
| `CanonicalSizeRemediation.UploadKeepsReady` | ops/gcp/remediate_canonical_size.py:745-752 | uploading behind a pending entry keeps it |
| `CanonicalSizeRemediation.AppliedKeepsReady` | ops/gcp/remediate_canonical_size.py:824-848 | noting the verified generation keeps it |
| `CanonicalSizeRemediation.RestoreKeepsReady` | ops/gcp/remediate_canonical_size.py:1069-1077 | restoring an original without recording it yet keeps it |
| `CanonicalSizeRemediation.RecordingKeepsReady` | ops/gcp/remediate_canonical_size.py:1078-1089 | recording a restoration keeps it |
| `CanonicalSizeRemediation.FullyRecordedMeansRestored` | ops/gcp/remediate_canonical_size.py:1147-1162 | when every mutation has a restoration record, every planned object shows its original content |
| `CanonicalSizeRemediation.StatusKeepsReady` | ops/gcp/remediate_canonical_size.py:622-628 | changing the status alone keeps the ledger good for rollback |
| `CanonicalSizeRemediator.Remediator.ApplyThenRollBack` | ops/gcp/remediate_canonical_size.py:551-1123 | without foreign writers: an apply stopped anywhere, any number of rollbacks stopped anywhere, and a last undisturbed rollback end with all planned objects at their original size and checksum, if and only if the ledger was not left APPLYING |
| `CanonicalSizeRemediator.AbandonedRun` | ops/gcp/remediate_canonical_size.py:576-625 | a concrete run that is never rolled back: one object, a process that dies in its first ledger write, and a ledger left APPLYING |
| `CanonicalSizeRemediator.Remediator.Rollback` | ops/gcp/remediate_canonical_size.py:1006-1123 | under any writers, a missing ledger, one of another plan and one left APPLYING are refused, each with its own error, and nothing changes; otherwise the ledger stays resumable wherever the rollback stops, says ROLLED_BACK only with a complete record and ROLLBACK_FAILED after a failure whose last write was undisturbed, and files are restored before shard manifests before the dataset manifest; without foreign writers and undisturbed, everything is restored |
| `CanonicalSizeRemediator.Remediator.Resume` | ops/gcp/remediate_canonical_size.py:1029-1123 | rolls an accepted ledger back, from its beginning or from where it stopped, and keeps a failure in the ledger as ROLLBACK_FAILED |
| `CanonicalSizeRemediator.Remediator.Apply` | ops/gcp/remediate_canonical_size.py:551-628 | under any writers, success means that the plan was checked against the bucket, every item was applied in order, and the dataset manifest is the accepted rebuild at the projected total; the ledger file says APPLIED only of such an application, and a failure whose last write was undisturbed leaves it FAILED; undisturbed, an apply succeeds whose plan is up to date and stages the substitution in the selected shards at the original total plus gain; an apply stopped anywhere without foreign writers leaves the bucket untouched or a ledger from which rollback can restore; APPLYING stays only if the last write did not go through. With a ledger, anything but APPLIED is refused, and undisturbed an APPLIED one is accepted exactly if every recorded generation is live |
| `CanonicalSizeRemediator.Remediator.ApplyOrConclude` | ops/gcp/remediate_canonical_size.py:581-628 | a failed application is stored as FAILED, and only a complete one as APPLIED |
| `CanonicalSizeRemediator.PreparedIsRebuildable` | ops/gcp/remediate_canonical_size.py:587-596 | once a plan prepared from the live shards is staged, the rebuild from the bucket succeeds and is accepted at the projected total |
| `CanonicalSizeRemediator.Remediator.Start` | ops/gcp/remediate_canonical_size.py:570-579 | the empty ledger is written only after every planned object was found at its planned generation |
| `CanonicalSizeRemediator.Remediator.Put` | ops/gcp/remediate_canonical_size.py:174-210 | every write in every run, foreign writers included, replaces the planned generation or a version holding the staged content, and its object is in the ledger file, then and ever after |
| `CanonicalSizeRemediator.Remediator.ApplyItem` | ops/gcp/remediate_canonical_size.py:737-800 | pending entry, conditional write, verified entry, in this order, each able to fail before or after its effect; undisturbed it succeeds over the planned generation |
| `CanonicalSizeRemediator.Remediator.RecordPending` | ops/gcp/remediate_canonical_size.py:802-822 | the pending entry is in the ledger before the object is touched |
| `CanonicalSizeRemediator.Remediator.RecordVerified` | ops/gcp/remediate_canonical_size.py:824-848 | the generation is recorded exactly if size and checksum are those staged |
| `CanonicalSizeRemediator.Remediator.ApplyNext` | ops/gcp/remediate_canonical_size.py:582-586 | the next planned item is applied behind the earlier ones, and the ledger in hand stays good for rollback |
| `CanonicalSizeRemediator.Remediator.ApplyObjects` | ops/gcp/remediate_canonical_size.py:582-586 | all planned objects are applied in order and nothing else is touched, the ledger in hand is always good for rollback, and undisturbed it succeeds for a plan that is up to date |
| `CanonicalSizeRemediator.Remediator.ReadShards` | ops/gcp/remediate_canonical_size.py:851-871 | the manifests of all shards; without foreign writers they are the live ones |
| `CanonicalSizeRemediator.Remediator.RebuildManifest` | ops/gcp/remediate_canonical_size.py:587-596 | success means that the manifest is the one the shards in the bucket determine, accepted at the projected total |
| `CanonicalSizeRemediator.Remediator.ApplyDatasetManifest` | ops/gcp/remediate_canonical_size.py:587-614 | the dataset manifest is rebuilt, accepted and applied last, once every other object is in place |
| `CanonicalSizeRemediator.Remediator.ApplyAll` | ops/gcp/remediate_canonical_size.py:581-621 | under any writers, success means that the ledger lists every item applied and the accepted rebuild; without foreign writers all of them are live as staged and the manifest is the rebuild of the live shards |
| `CanonicalSizeRemediator.Remediator.Preflight` | ops/gcp/remediate_canonical_size.py:716-735 | under any writers, success means that every planned object was the planned generation at the start |
| `CanonicalSizeRemediator.Remediator.VerifyLiveGenerations` | ops/gcp/remediate_canonical_size.py:998-1004 | under any writers, an applied ledger is accepted again only if every recorded generation was live at the start; undisturbed, whenever they all are |
| `CanonicalSizeRemediator.Remediator.RestoreGeneration` | ops/gcp/remediate_canonical_size.py:212-224 | the original content is written over the generation that was looked at, or nothing is |
| `CanonicalSizeRemediator.Remediator.Undo` | ops/gcp/remediate_canonical_size.py:1060-1107 | under any writers, success means that the reported generation holds the original content; without foreign writers it is live |
| `CanonicalSizeRemediator.Remediator.RollbackItem` | ops/gcp/remediate_canonical_size.py:1046-1110 | one mutation is checked again, undone, or found already undone, and then recorded |
| `CanonicalSizeRemediator.Remediator.RollbackMutations` | ops/gcp/remediate_canonical_size.py:1046-1110 | all mutations end up recorded; what is written and recorded on the way is in the order of kinds, files before shard manifests before the dataset manifest |
| `CanonicalSizeRemediator.Remediator.RollbackAll` | ops/gcp/remediate_canonical_size.py:1045-1116 | success means status ROLLED_BACK and a complete record |
| `CanonicalSizeRemediator.Remediator.VerifyRollbackComplete` | ops/gcp/remediate_canonical_size.py:1147-1162 | success means that every mutation has a restoration record |
| `CanonicalSizeRemediator.Remediator.WriteLedger` | ops/gcp/remediate_canonical_size.py:311-316 | the ledger file holds the new ledger exactly if the write took effect, and else the old one, never a mixture |
| `CanonicalSizeRemediator.Remediator.Upload` | ops/gcp/remediate_canonical_size.py:174-210 | a conditional write followed by a reload of the live metadata |
| `CanonicalSizeRemediator.Remediator.Recheck` | ops/gcp/remediate_canonical_size.py:1026-1028 | a finished rollback is accepted again only if it is complete |
| `ScenarioCounts.CountsConserve` | ops/gcp/remediate_canonical_size.py:903-917 | counting by scenario name and summing shard by shard give the same total, whatever names the shards carry |
| `ScenarioCounts.TotalRemoves` | ops/gcp/remediate_canonical_size.py:935 | the sum of the counters does not depend on the order of summation |
| `DatasetManifest.TotalEqualsSumOfTables` | ops/gcp/remediate_canonical_size.py:872-900 | the total taken shard by shard equals the sum of the tables exactly when the files outside the first shard's table list add up to nothing, in particular when all shards carry the same tables |
| `DatasetManifest.TotalSplitsByTable` | ops/gcp/remediate_canonical_size.py:932-936 | summing by shard and summing by table agree up to the unlisted files |
| `DatasetManifest.SubstitutionAddsTheGain` | ops/gcp/remediate_canonical_size.py:678-687 | substituting the planned files changes the total by exactly the projected gain |
| `DatasetManifest.Rebuild` | ops/gcp/remediate_canonical_size.py:850-939 | rebuilding succeeds exactly if every shard is in place and has one file per listed table, and then the manifest is the one the shards determine: the logical and the physical count are the sums of the shards' own, each record says what the shard's own file says, each table adds its records up, fraud labels and fraud scenarios included |
| `DatasetManifest.RebuildTables` | ops/gcp/remediate_canonical_size.py:872-902 | succeeds exactly for a common inventory; each table is summed over all shards |
| `DatasetManifest.SumShards` | ops/gcp/remediate_canonical_size.py:868-936 | shards out of place are rejected; otherwise total bytes, and the sums of the shards' own logical and physical counts |
| `DatasetManifest.CountFraud` | ops/gcp/remediate_canonical_size.py:903-935 | the scenario counters of all shards by name, and their sum, which is the sum over the shards |
| `DatasetManifest.RebuildTable` | ops/gcp/remediate_canonical_size.py:877-902 | one table's rows, bytes, schemas and files over all shards, or a rejection |
| `DatasetManifest.RecordsAddUp` | ops/gcp/remediate_canonical_size.py:886-887 | the rows and bytes of a table are the sums of those in its records |
| `DatasetManifest.FileIsListed` | ops/gcp/remediate_canonical_size.py:888-900 | the record of a table and a shard is that of the shard's one file of the table, field by field, and its schema is listed |
| `DatasetManifest.Validate` | ops/gcp/remediate_canonical_size.py:941-996 | accepts exactly the rebuilds that meet the specification, keep header, fraud counts and inventory, reach the projected total and change nothing outside the selection; field by field, records outside the selection keep size and checksums, and all keep shard, path and rows |
| `DatasetManifest.ValidateTable` | ops/gcp/remediate_canonical_size.py:969-996 | accepts exactly the allowed changes of one table |
| `DatasetManifest.RemediatedRebuildIsAccepted` | ops/gcp/remediate_canonical_size.py:588-596 | the rebuild of a correctly remediated dataset is accepted at original total plus gain |
| `DatasetManifest.AcceptedRebuildChangesOnlySelection` | ops/gcp/remediate_canonical_size.py:941-996 | two dataset states whose manifests are an original and an accepted rebuild: outside the selected shards of the selected table every file record is the same, and the selected files have grown by the projected total minus the original one, up to unlisted files |
| `DatasetManifest.AcceptedGrowthIsSelected` | ops/gcp/remediate_canonical_size.py:966-967 | with a common inventory the growth of the selected files is exactly the projected total minus the original one |
| `DatasetManifest.UnlistedFileBreaksTheSum` | ops/gcp/remediate_canonical_size.py:932-936 | two shards in place with a common inventory whose total differs from the sum of the tables by the bytes of one unlisted file, and only if it has any |
| `DatasetManifest.RebuildUnlisted` | ops/gcp/remediate_canonical_size.py:872-939 | these shards are accepted by the rebuild |
| `DatasetManifest.AcceptedOrderIsDistinct` | ops/gcp/remediate_canonical_size.py:878-882 | a first shard that repeats a table is rejected |
| `DatasetManifest.RemediationKeepsInventory` | ops/gcp/remediate_canonical_size.py:872-886 | remediation keeps shard places and table inventory |
| `DatasetManifest.RemediatedTableIsAllowed` | ops/gcp/remediate_canonical_size.py:969-996 | each table of a remediated rebuild passes validation |
| `DatasetManifest.RemediatedHeaderIsUnchanged` | ops/gcp/remediate_canonical_size.py:952-965 | the compared header fields do not change |
| `TrainingSnapshotPublication.Publisher.Publish` | ops/gcp/publish_training_snapshot.py:391-461 | for any files, faults and concurrent writers: no created object replaced anything; without other writers, whatever fails, every object that was live stays live at its generation; a marker exists only after every file was created, listed and read back at its recorded generation and content; success means that the final inventory was exact and all files were live right after the marker appeared; undisturbed it succeeds exactly for an acceptable directory and an empty destination |
| `TrainingSnapshotPublication.Publisher.Stage` | ops/gcp/publish_training_snapshot.py:391-421 | everything before the commit point: no marker is created, and success means the complete justification |
| `TrainingSnapshotPublication.Publisher.Commit` | ops/gcp/publish_training_snapshot.py:421-461 | the marker follows the justification, and success means that everything is stored at the commit point |
| `TrainingSnapshotPublication.Publisher.CreateMarker` | ops/gcp/publish_training_snapshot.py:441-452 | the marker is created at most once, right after what went before |
| `TrainingSnapshotPublication.Publisher.UploadAll` | ops/gcp/publish_training_snapshot.py:396-415 | every file is created and read back in order, and its recorded version stays |
| `TrainingSnapshotPublication.Publisher.Upload` | ops/gcp/publish_training_snapshot.py:397-407 | one file is created under a free name and read back |
| `TrainingSnapshotPublication.Publisher.Create` | ops/gcp/publish_training_snapshot.py:104-119 | behind the acts of others the bucket either stays as it is or gains the object under a name that was free, and the recorded event says which, even when the call raises after taking effect |
| `TrainingSnapshotPublication.Publisher.ReadObject` | ops/gcp/publish_training_snapshot.py:121-139 | reading succeeds only while the object is live at the expected generation |
| `TrainingSnapshotPublication.Publisher.VerifyObject` | ops/gcp/publish_training_snapshot.py:337-351 | accepted exactly at the recorded generation and content |
| `TrainingSnapshotPublication.Publisher.VerifyObjects` | ops/gcp/publish_training_snapshot.py:420-421 | all files are read back; what was read at a generation that existed at the start was live there |
| `TrainingSnapshotPublication.Publisher.Inspect` | ops/gcp/publish_training_snapshot.py:418-421 | the listing is exactly the expected names, and all files are read back |
| `TrainingSnapshotPublication.Publisher.InspectAgain` | ops/gcp/publish_training_snapshot.py:454-461 | the inspection after the commit keeps the justification of the marker |
| `TrainingSnapshotPublication.StoredAtCommit` | ops/gcp/publish_training_snapshot.py:415-417 | what is later live under a recorded generation was stored at the commit point |
| `TrainingSnapshotPublication.MarkerStillFollows` | ops/gcp/publish_training_snapshot.py:453-461 | later reads keep the justification of the marker |
| `GoldRecovery.Recovery.RunGoldStep` | ops/gcp/recover_dp2_method2.py:657-767 | one invocation, stopped anywhere: not admitted means nothing changes; the successful tasks stay a prefix of the chain; a success ends in the failed hold, or in success for finalize, with its batch ours and succeeded and its evidence written once. If no operation stops, the state of the batch as it is read decides: active and ours means in progress for submit and summary, with tasks, DagRun and evidence unchanged; succeeded and ours means done unless the evidence differs; anything else stops with nothing changed; and exactly one batch is submitted if there was none |
| `GoldRecovery.Recovery.Recover` | ops/gcp/recover_dp2_method2.py:657-767 | over every sequence of invocations by any controllers: each batch ID is submitted only while it has no batch, all recorded evidence stays, and once the DagRun is successful, with or without evidence of it, everything is refused and nothing changes |
| `GoldRecovery.Recovery.RecoverInOrder` | ops/gcp/recover_dp2_method2.py:603-608 | undisturbed, with distinct unused batch IDs, the eleven steps in order finish the recovery |
| `GoldRecovery.SucceedingExtendsPrefix` | ops/gcp/recover_dp2_method2.py:674-689 | a step whose predecessor succeeded keeps the successful tasks a prefix of the chain |
| `GoldRecovery.SkippingBreaksPrefix` | ops/gcp/recover_dp2_method2.py:687-689 | the predecessor check is needed: marking any other task breaks the prefix |
| `GoldRecovery.ChainSteps` | ops/gcp/recover_dp2_method2.py:674-686 | each step waits for exactly the predecessor of its own Airflow task in the chain |
| `GoldRecovery.BatchOf` | ops/gcp/recover_dp2_method2.py:723-757 | which batch ID and origin each step is about, profile by profile |
| `GoldRecovery.Recovery.Reconcile` | ops/gcp/recover_dp2_method2.py:708-721 | task patch, hold and evidence: it succeeds exactly if no operation stops and existing evidence agrees, and then ends in the hold, or in success for finalize |
| `GoldRecovery.Recovery.HoldAfterTaskPatch` | ops/gcp/recover_dp2_method2.py:627-640 | success means a successful Airflow task and a failed DagRun, whatever Airflow made of the patch; it succeeds exactly if no operation stops |
| `GoldRecovery.Recovery.RecordStep` | ops/gcp/recover_dp2_method2.py:643-654 | existing evidence is never changed; it succeeds exactly if the operation does and existing evidence says exactly this |
| `GoldRecovery.Recovery.SettleBatch` | ops/gcp/recover_dp2_method2.py:723-764 | only an existing batch of this configuration settles a step, and only submit and summary may launch one, when there is none; if no operation stops, the batch as it is read decides exactly between settled, running and neither, and exactly one is submitted if there was none |
| `GoldRecovery.Recovery.AdoptOrLaunch` | ops/gcp/dp2_method2.py:575-649 | an existing batch is adopted, an absent one launched by one submission, and a launch that seemed to fail but took effect adopted |
| `GoldRecovery.Recovery.Adopt` | ops/gcp/dp2_method2.py:302-320 | adopts exactly a succeeded batch of this origin, reports absence truthfully, and while the batch runs refuses only after the last poll |
| `GoldRecovery.Recovery.Launch` | ops/gcp/dp2_method2.py:589-595 | is called only for IDs without a batch; the batch exists then exactly if the call took effect, also when it seemed to fail |
| `GoldRecovery.Recovery.Describe` | ops/gcp/recover_dp2_method2.py:611-624 | only active batches change state, to the one reported; absence is reported only if it holds |
| `GoldRecovery.NextCanSettle` | ops/gcp/recover_dp2_method2.py:723-764 | in order and undisturbed, nothing stands in the way of the next step |
| `ShardPipeline.Coordinator.GenerateAndPublish` | ops/gcp/generate_source_dataset.py:107-181 | for every worker count the published shards are the sequential ones; no shard is submitted twice, at most `workers` are outstanding, and duplicates or fewer than one worker are rejected |
| `ShardPipeline.Coordinator.GenerateInParallel` | ops/gcp/generate_source_dataset.py:144-181 | the deque loop publishes exactly the sequential prefix, submits a prefix of the request, keeps at most `workers` results outstanding, and ends; a failure is that of the first shard not published or of handing out the next one |
| `ShardPipeline.Coordinator.GenerateInSequence` | ops/gcp/generate_source_dataset.py:131-141 | the loop without workers has the sequential meaning |
| `ShardPipeline.SequentialStopsAtFirstFailure` | ops/gcp/generate_source_dataset.py:131-141 | the sequential meaning is exactly the shards before the first failure, in order |
| `ShardPipeline.Coordinator.Advance` | ops/gcp/generate_source_dataset.py:171-175 | takes the oldest result, publishes it and hands out one more shard |
| `ShardPipeline.Coordinator.Fill` | ops/gcp/generate_source_dataset.py:169-170 | hands out the first shards, one for each worker |
| `ShardPipeline.Coordinator.SubmitNext` | ops/gcp/generate_source_dataset.py:150-165 | hands out the next remaining shard, if there is one |
| `ShardPipeline.Coordinator.TakeResult` | ops/gcp/generate_source_dataset.py:172-174 | publishes exactly if generation and publication succeed |
| `ShardPipeline.Coordinator.FindMissing` | ops/gcp/generate_source_dataset.py:87-104 | the requested shards that are not complete, in order |
| `ShardPipeline.Coordinator.Resume` | ops/gcp/generate_source_dataset.py:223-236 | find and generate: no shard is published twice, a failed run leaves exactly the later shards missing, and a finished one none; it finishes if all missing shards go and are accepted |
| `ShardPipeline.StoppingLeavesTheRest` | ops/gcp/generate_source_dataset.py:87-104 | after a run that stopped behind n missing shards exactly the others are missing |
| `ShardPipeline.ResumedRun` | ops/gcp/generate_source_dataset.py:223-236 | whatever prefix of the missing shards was published, the later ones and no others are missing then, and no shard is published twice |
| `ShardPipeline.MissingElements` | ops/gcp/generate_source_dataset.py:94-103 | the missing shards are the requested ones that are not complete, without repetition |
| `ShardPipeline.IsDistinct` | ops/gcp/generate_source_dataset.py:118-120 | comparing sizes detects duplicates exactly |
| `LayoutSummary.SummarizeLayout` | data_platform/storage/cloud_optimization.py:157-193 | partition files and bytes add up to the totals; the row count is present exactly if every partition has one, and then the partitions add up to it; minimum <= median <= p95 <= maximum |
| `LayoutSummary.NearestRankIsLeast` | data_platform/storage/cloud_optimization.py:72-77 | the percentile is an element, and the least one that at least the requested fraction of values does not exceed |
| `LayoutSummary.RowsConserve` | data_platform/storage/cloud_optimization.py:157-174 | the rows of a complete partition description add up to the whole table |
| `LayoutSummary.DescribedCompletely` | data_platform/storage/cloud_optimization.py:161-172 | the table has a row count exactly if every partition has one |
| `LayoutSummary.PartitionsConserve` | data_platform/storage/cloud_optimization.py:121-127 | adding up any weight partition by partition loses and duplicates nothing |
| `LayoutSummary.SizesAreOrdered` | data_platform/storage/cloud_optimization.py:187-193 | minimum <= median <= p95 <= maximum, the average lies between the extremes, and the extremes are attained |
| `LayoutSummary.MedianIsMiddle` | data_platform/storage/cloud_optimization.py:189 | the median is the number that at most half of the elements are below and more than half are not above, or for an even count the mean of the two such numbers without its fraction |
| `LayoutSummary.RankIsUnique` | data_platform/storage/cloud_optimization.py:189 | there is one such number |
| `LayoutSummary.AverageTimesCount` | data_platform/storage/cloud_optimization.py:192 | the average times the number of files is the total size, up to a rest smaller than that number |
| `LayoutSummary.Tallies` | data_platform/storage/cloud_optimization.py:106-127 | every partition with files is listed once, with the tally of its files |
| `LayoutSummary.CountFile` | data_platform/storage/cloud_optimization.py:121-127 | one file is counted in the tally of its partition and nowhere else |
| `LayoutSummary.RowCountNeedsEveryFile` | data_platform/storage/cloud_optimization.py:161-167 | a partition has a row count exactly if each of its files has one |
| `LayoutSummary.PartitionRows` | data_platform/storage/cloud_optimization.py:159-169 | one row for each tallied partition, in the given order |
| `FeatureFreshness.GetFeatures` | ai_platform/inference/feast_online.py:195-241 | it succeeds exactly if every applicable column has one value, null only if nullable, and one readable time within the bound; otherwise the first contradiction or unreadable time is reported, else all missing columns, else future, else all stale ones; on success exactly the canonical columns with their cells and times |
| `FeatureFreshness.AssembleOnline` | ai_platform/inference/feast_online.py:195-241 | after retrieval succeeded, assembly lacks a column exactly if no column contributes, breaks the contract exactly for an ill-typed value, and its timestamp lies within the staleness bound before the request; the vector has the retrieved numbers, and its time is the earliest of the applicable stamps |
| `FeatureFreshness.Assemble` | ai_platform/inference/assembler.py:103-153 | for any feature set: contract errors, missing columns and success are told apart exactly; every contributing value keeps its number, whole in an integer column and a fraction otherwise, null stays null, and the timestamp is the earliest contributing one |
| `FeatureFreshness.NoFaultMeansFresh` | ai_platform/inference/feast_online.py:235-240 | no fault is reported exactly if every column is fresh or not applicable |
| `FeatureFreshness.FaultsInOrder` | ai_platform/inference/feast_online.py:203-240 | each fault says what was found and that nothing that takes precedence was; missing and stale columns are listed exactly |
| `FeatureFreshness.FirstStopIsFirst` | ai_platform/inference/feast_online.py:203-233 | the first column that stops the scan decides which error it is |
| `FeatureFreshness.Scan` | ai_platform/inference/feast_online.py:203-233 | one column stops the scan, is recorded under exactly one verdict, or is kept with its cell and time |
| `FeatureFreshness.ScanAll` | ai_platform/inference/feast_online.py:203-233 | the scan stops at the first contradiction or unreadable time |
| `FeatureFreshness.AddPart` | ai_platform/inference/assembler.py:119-138 | one column is empty, missing, invalid or contributing; what it adds to the vector, to the missing columns and to the earliest time |
| `FeatureFreshness.Retrieve` | ai_platform/inference/feast_online.py:147-193 | it succeeds exactly if every view with an entity answers with requested features, stamps and its entity keys only, and every other view is the merchant's; the first other view decides the error; of several answers for a key the last is kept, and columns of an absent merchant are filled with nulls |
| `FeatureFreshness.LastBroughtIsLast` | ai_platform/inference/feast_online.py:147-193 | the answer kept for a key was brought by some view and by none behind it, and a key without one by none |
| `FeatureFreshness.RetrievalNeverContradicts` | ai_platform/inference/feast_online.py:210-215 | the non-null value of an inapplicable column is unreachable behind retrieval |
| `FeatureFreshness.JudgedElements` | ai_platform/inference/feast_online.py:197-199 | the reported columns are exactly those with the verdict |
| `QuotaPolling.WaitForQuota` | ops/gcp/dataproc_quota.py:212-274 | ends within ceil(timeout / initial) + 1 readings; READY exactly if the last reading meets both needs, and timed out only past the timeout; every sleep begins before the deadline and lasts for the capped interval or up to the deadline; the time waited is that of the sleeps and of everything between them |
| `QuotaPolling.IntervalIsCappedGrowth` | ops/gcp/dataproc_quota.py:274 | the interval is the capped geometric growth, never falls, and stays between the initial and the maximum value |
| `QuotaPolling.SleepsAreFew` | ops/gcp/dataproc_quota.py:258-273 | while time is left, fewer sleeps than the bound have happened |
| `QuotaPolling.SleepingKeepsWaiting` | ops/gcp/dataproc_quota.py:272-274 | one more sleep keeps the time accounting |
| `Luhn.Check` | ai_platform/llm_agent/prompt_safety.py:33-43 | the loop computes the formula of ISO/IEC 7812-1, Annex B, for digit strings of any length |
| `Luhn.SingleErrorIsDetected` | ai_platform/llm_agent/prompt_safety.py:33-43 | changing one digit of a passing number makes it fail |
| `Luhn.CheckDigitIsUnique` | ai_platform/llm_agent/prompt_safety.py:33-43 | exactly one final digit completes any prefix |
| `Luhn.TranspositionIsDetectedUnlessZeroNine` | ai_platform/llm_agent/prompt_safety.py:33-43 | swapping unequal neighbours in a passing number makes it fail unless they are 0 and 9 |
| `Luhn.WeightSumJoin` | ai_platform/llm_agent/prompt_safety.py:34-42 | the doubling of the left part depends on the number of digits to its right |
| `InterpolatedPercentile.PercentileIsBounded` | ai_platform/llm_agent/benchmark.py:11-20 | the result lies between the least and the greatest value |
| `InterpolatedPercentile.PercentileIgnoresOrder` | ai_platform/llm_agent/benchmark.py:14 | the result does not depend on the order of the values |
| `InterpolatedPercentile.PercentileIsMonotone` | ai_platform/llm_agent/benchmark.py:15-20 | a greater quantile gives no smaller result |
| `InterpolatedPercentile.PercentileAtWholeRank` | ai_platform/llm_agent/benchmark.py:18-19 | at a whole rank it is that element of the sorted values |
| `InterpolatedPercentile.PercentileInterpolates` | ai_platform/llm_agent/benchmark.py:15-20 | between two whole ranks it goes from the one sorted value toward the next, as far as the rank is from the first |
| `InterpolatedPercentile.Summarize` | ai_platform/llm_agent/benchmark.py:69-90 | no summary without requests, resources or elapsed time; p50 <= p95 <= p99 for latencies and first-token times, and gap statistics exactly if there are gaps |
| `InterpolatedPercentile.SummaryIsFaithful` | ai_platform/llm_agent/benchmark.py:74-90 | every percentile and the mean gap lie between any bounds of the values they summarize |
| `InterpolatedPercentile.SummaryIsExact` | ai_platform/llm_agent/benchmark.py:74-90 | which percentiles of which measurements the summary holds; the mean gap times their number is the sum of all gaps |
| `InterpolatedPercentile.SumJoins` | ai_platform/llm_agent/benchmark.py:90-92 | the sum of the gaps does not depend on how they are cut into parts |
| `InterpolatedPercentile.GapsJoin` | ai_platform/llm_agent/benchmark.py:74 | the gaps are those of all requests, one request after the other |
| `InterpolatedPercentile.AtIsMonotone` | ai_platform/llm_agent/benchmark.py:15-20 | the interpolation does not fall as the rank grows, across whole ranks too |
| `EvidenceCache.ReturnsAgree` | ai_platform/llm_agent/byo_feature_rag_specialist.py:368-399 | under any interleaving, after one call returned for a key, every other call returns the same evidence or, with another fingerprint, a conflict |
| `EvidenceCache.EntriesNeverChange` | ai_platform/llm_agent/byo_feature_rag_specialist.py:388-392 | under any interleaving a key's entry is written once |
| `EvidenceCache.StepKeepsSound` | ai_platform/llm_agent/byo_feature_rag_specialist.py:376-399 | every step keeps each answer accounted for by the cache |
| `EvidenceCache.ReachedIsSound` | ai_platform/llm_agent/byo_feature_rag_specialist.py:376-399 | this holds in every reachable state |
| `EvidenceCache.Executor.RunIdempotently` | ai_platform/llm_agent/byo_feature_rag_specialist.py:368-399 | one call among arbitrary steps of others: it is a call of a run of the system, entries are only added, a cached key is answered without running, it fails exactly if its own run does, and if nobody else comes to a result it returns and stores that of its own run |
| `EvidenceCache.Executor.Settle` | ai_platform/llm_agent/byo_feature_rag_specialist.py:388-399 | the first call to get here writes the entry with its own evidence and returns it, later ones adopt the entry or conflict and change nothing |
| `EvidenceCache.AnswersAgree` | ai_platform/llm_agent/byo_feature_rag_specialist.py:368-399 | any two answers of one executor for one key agree, or are conflicts for another fingerprint |

## Left out

- RedisIdempotencyStore.Server.ClaimScript: the `invalid` reply, for states no script writes, is left out; malformed replies of the server are too. Like the code, the model does not validate durations in this store: a duration that is not positive makes the key vanish at once.
- ProgrammaticCoordinator.StepKeepsInv: the polling deadline and the cancellation event are free choices of the step machine; response validation, evidence checks and synthesis rules are one step that may fail.
- CoordinatorHandler.Handler.Handle: parsing and validation of the inbound request come before it; polls are counted instead of timed.
- Deployment.Machine.TakeClaim: the machine of a deployment stands for all workers; a worker's reply is lost or delivered with the step itself, not later.
- CanonicalSizeRemediator.Remediator.Apply: staged files are taken as unchanged between their check and their upload; the object versioning switch, the plan digest and the identity checks of the plan other than its digest comparison are not modelled.
- DatasetManifest.Rebuild: schema hashes are a set instead of a sorted list, and counters a map without order; reading the manifests is `CanonicalSizeRemediator.Remediator.ReadShards`.
- TrainingSnapshotPublication.Publisher.Publish: the local checks other than the presence of the manifest and the absence of the marker name, and the lineage evidence, come before it; a listing is one step, and local files do not change while they are published.
- GoldRecovery.Recovery.RunGoldStep: quota, summary, pair, plan and evidence validations are checks that may stop the step; operators may pause the DAG and restore the failed hold between steps, but do not mark tasks or delete batches by hand.
- GoldRecovery.Recovery.Adopt: waiting is bounded by the number of polls after which the process is stopped.
- LayoutSummary.SummarizeLayout: column bounds and the rounded small-file ratio are left out; partition keys are taken as given, and the 0.95 percentile is the exact fraction 95/100.
- FeatureFreshness.AssembleOnline: derived features and the JSON conversion of the vector are left out; times are exact numbers of seconds.
- QuotaPolling.WaitForQuota: sleeping takes at least as long as asked, clock and quantities are exact numbers; parsing of quota documents is left out.
- InterpolatedPercentile.Summarize: the latency blocks only; token counts, throughput, resource means and rates are single sums and quotients. Arithmetic is exact, without rounding.
- ShardPipeline.Coordinator.GenerateAndPublish: publishing a shard either succeeds or counts as not done; staging directories are left out.
- EvidenceCache.Executor.RunIdempotently: timeouts and task bookkeeping around the call are left out.
- Planning of a remediation, the rewriting of Parquet files, and all Spark jobs and validators: their meaning lies in other libraries.
- Request parsing, regular-expression screening, configuration, command lines, telemetry and health endpoints: single checks or plumbing.
- SHA-256, MD5, JSON encoding, Redis, GCS, Airflow and Dataproc themselves: abstract steps and functions here.
