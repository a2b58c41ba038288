# A verified model of PlotJuggler's source SDK

A Dafny model of the parts of `pj_base` and `pj_plugins` whose correctness is hardest to see: the provider job
that several threads share, the artifact cache that several processes share, the byte codecs, the claim catalog
with its route resolver, and the order and arithmetic below them. `dafny verify dfyconfig.toml` checks all of it.

## What is modelled

**The provider job** (`JobSections.dfy`, `JobMachine.dfy`, `JobExecution.dfy`, `JobInvariants.dfy`,
`JobTheorems.dfy`, `JobHooks.dfy`, `JobRequests.dfy`, `JobProgress.dfy`, `SettlementLatch.dfy`). `JobSections.JobState`
is the object the threads share; each of its methods is one critical section or one atomic access. `JobMachine` runs
these sections in every interleaving of the starting thread, the worker, the watchdog and any number of cancel and join calls, made from
outside or from inside the body, a hook on whichever thread runs it, `on_dataset`, `on_terminal` or `on_expire`;
`JobExecution` performs any such run on the real object. `JobInvariants` proves one invariant over every run,
`JobTheorems` draws the promises from it, `JobHooks` says which hook is run, `JobRequests` what a cancellation and an
armed watchdog bring about, and `JobProgress` exactly when a job settles.

**The artifact cache** (`FileLock.dfy`, `CacheMachine.dfy`, `CacheInvariants.dfy`, `CacheTheorems.dfy`,
`CacheOutcomes.dfy`, `WriteTransaction.dfy`, `CacheCleanup.dfy`, `CleanupRules.dfy`). `CacheMachine` is a map of artifacts, a map of partial files and one shared/exclusive lock per identity, moved by writers,
readers, evictors, sweepers and crashes of whole processes. `CacheTheorems` says what they can never do to each other,
`CacheOutcomes` what each is sure to get. `FileLocks.FileLock` and
`WriteTransactions.WriteTransaction` are the objects a process holds. `CacheCleanup` is the cleanup pass with its
counters, as loops, and `CleanupRules` what it does with each file.

**The codecs.** `ProtobufWire` gives the meaning of the wire format as functions on bytes, `WireBuffers` the
`Writer`, the `Reader` and the field loop that change buffers in place and are proved to follow it. On top are the
geometry messages, the nine primitives, entities, scenes and the type-tagged dispatcher. A double is its 64-bit word;
the colour channels also have its real value. `ParserModuleAbi`, `ParserModuleOutput` and `ParserModuleManifest` are
the blocks of the parser-module ABI and the WebAssembly custom section. A round trip holds of any two inverse codecs;
`WireFormat`, `SceneLayout` and `ParserModuleLayout` say which bytes these are, by tag, number and position.

**Catalog and resolver.** `ParserClaimCatalog` starts from decoded claims; `ParserRouteResolver` has the ranking and
the memoising selector; `RouteRuns` compares the selector, over whole runs, with one that remembers nothing;
`RouteSelection` puts catalog, ranking and selector together. `ClaimRules` and `RouteRanking` say what is admitted, who
is asked before whom and who wins, in the words of the claims.

**Order and arithmetic.** `SemVers`, `TimeMath`, `SliderWindow`, and `Sha256`, with the bits of its operations in
`Sha256Words`, the origin of its constants in `Sha256Constants` and the published example in `Sha256Vector`.

Integers are bounded where the source's are: `uint64`, `int64` and the narrower types are subset types, so every
intermediate value is proved to fit, or wraps explicitly.

## Where the code and what is said about it differ

The model follows the code in each case.

- `downgradeToShared` is documented to convert, or to release and return false if another holder wins in between
  (`pj_base/src/source/file_lock.hpp:38-43`). The code drops the exclusive lock, then tries for a shared one
  (`pj_base/src/source/file_lock.cpp:125-165`), so another process can lock, change and unlock in between and the
  conversion still reports success. `commit` does not look for its file again in that case.
  `CacheTheorems.InterruptedConversionCanLoseTheArtifact` is a run whose hit names an artifact that is gone;
  `EveryHitProtectedExactly` says that all hits are protected if and only if no conversion succeeds after its artifact
  is gone, and `ContractProtectsEveryHit` that the documented contract is enough.
- `jobJoin` returns at once on the worker's thread (`pj_base/src/source/provider_job.cpp:246-250`) and else waits for
  the worker. From `on_expire`, or from a hook that another thread runs, it waits for a worker that waits for that
  callback to return. `JobProgress.EveryProgressRunSettles` and `SelfBlockedForever` say that a job settles if and
  only if no such join is under way; `JoinFromExpireBlocks` is a run with one.
- `parseFields` is documented to return false on truncation (`pj_base/src/builtin/protobuf_wire.hpp:317-321`). That holds
  exactly, both ways, for handlers that fail only where a complete field is missing (`HonestAcceptsWellFormed`). A failed
  `readString` has consumed its length before the field is skipped, and a truncated string can be accepted
  (`TruncatedStringCanBeAccepted`): exactly if what is left skips as a string (`TruncatedStringAcceptedExactly`,
  `PairAcceptsExactly`).
- `decodeTimestamp` reads a varint before it looks at the field number. It tolerates an unknown field exactly when
  that is not a varint (`TimestampToleratesExactly`); after an unknown varint it loses the next varint
  (`UnknownFieldInTimestamp`, `TimestampLosesFieldAfterUnknownVarint`).
- The cleanup's tracked total is what was scanned less what was removed as long as the sizes sum below 2^64, and past
  that only at the moments that `TrackedTotalIsExactWhen` gives; its subtraction wraps exactly when more is removed than
  the scan counted (`UnderflowsExactly`, `TrackedTotalCanWrap`).
- Eviction is oldest first, but an older artifact can survive a newer one also because its lock or its removal gave
  an error (`pj_base/src/source/request_cache.cpp:557-587`). `OlderFaredFirst` says that there is no other reason
  besides a held lock or a file found changed, missing or unreadable, and that such an error is reported.
- An axis fitted to a range stays inside it, but over more than half of the int64 range its last rows can have no
  instant although it would be representable (`FittedAxisCanLoseARow`; `FittedAxisStaysInside` gives the exact guard).
- The codec of a scene refuses the encoding of the empty scene, which is the empty buffer; the dispatcher accepts it
  (`SceneBack`, `SceneRoundTrips`).

## Model

| member | source | states |
|---|---|---|
| `JobSections.JobState.constructor` | pj_base/src/source/provider_job.cpp:313-321 | a new job has its gate closed, nothing cancelled, claimed, fired or joined |
| `JobSections.JobState.TakeHook` | pj_base/src/source/provider_job.cpp:71-92 | the hook is handed out only if there is one and none was fired; it is then both fired and running |
| `JobSections.JobState.OnCancelSection` | pj_base/src/source/provider_job.cpp:167-185 | a hook registered after the cancellation is claimed by its registrant, if none was claimed before; otherwise it replaces the stored one |
| `JobSections.JobState.DisarmSection` | pj_base/src/source/provider_job.cpp:97-102 | the slot is emptied, and the worker may go on only if no hook is running |
| `JobSections.JobState.NotifyExchange` | pj_base/src/source/provider_job.cpp:187-194 | only the first notification calls on_dataset, and only if there is a callback |
| `JobSections.JobState.TerminalExchange` | pj_base/src/source/provider_job.cpp:120-127 | only the first caller fires the terminal callback |
| `JobSections.JobState.JoinSection` | pj_base/src/source/provider_job.cpp:252-260 | under the join mutex a caller finds the job joined, waits for another, or becomes the one real joiner |
| `JobExecution.Perform` | pj_base/src/source/provider_job.cpp:71-154 | the section a thread performs on the real object for any step leaves it exactly as the machine says, and its answer sends the thread the way the machine goes |
| `JobExecution.PerformRun` | pj_base/src/source/provider_job.cpp:293-349 | performing the sections of any run, in its order, on one new object keeps object and machine in step, so every property of the shared state holds of the object |
| `JobInvariants.NextKeeps` | pj_base/src/source/provider_job.cpp:120-154 | every atomic step of every thread keeps the invariant that ties gate, slot, flags, callbacks and join hand-off together |
| `JobInvariants.RunInv` | pj_base/src/source/provider_job.cpp:293-349 | every state of every interleaving satisfies it |
| `JobInvariants.HookKeeps` | pj_base/src/source/provider_job.cpp:167-185 | re-registration of a hook from the body, with or without a cancellation, keeps it |
| `JobInvariants.CancelKeeps` | pj_base/src/source/provider_job.cpp:71-92 | every part of requestCancel, from any thread, keeps it |
| `JobInvariants.JoinKeeps` | pj_base/src/source/provider_job.cpp:241-287 | every part of join and destroy keeps it |
| `JobInvariants.WatchdogKeeps` | pj_base/src/source/provider_job.cpp:196-227 | so does every part of the watchdog, expiry included |
| `JobInvariants.ShutdownKeeps` | pj_base/src/source/provider_job.cpp:129-154 | so does the worker's way out: disarm, stop the watchdog, fire the terminal callback |
| `JobTheorems.NoCallbackBeforeGate` | pj_base/src/source/provider_job.cpp:323-348 | no callback of any kind before the gate is released, and out_job is populated by then |
| `JobTheorems.TerminalIsLast` | pj_base/src/source/provider_job.cpp:120-154 | on_dataset at most once and never if null, on_terminal exactly once; no hook, on_dataset or on_expire is executing once on_terminal has been entered |
| `JobTheorems.TerminalReportsTheBody` | pj_base/src/source/provider_job.cpp:129-154 | the outcome is settled once: the body's own, failed if it threw, cancelled if it never ran |
| `JobTheorems.EarlyCancelSkipsTheBody` | pj_base/src/source/provider_job.cpp:129-154 | a cancellation stored before the body has started keeps it from ever starting, in every continuation |
| `JobTheorems.NothingAfterTerminal` | pj_base/src/source/provider_job.cpp:120-154 | no continuation of a run in which on_terminal was entered starts another hook, on_dataset or on_terminal |
| `JobTheorems.HookClaimedOnce` | pj_base/src/source/provider_job.cpp:71-102 | at most one hook is claimed per job, none runs past disarmHook, and in the body a finished cancel section and a registered hook make it exactly one |
| `JobTheorems.JoinsWaitForTerminal` | pj_base/src/source/provider_job.cpp:241-276 | at most one real join; every other caller but the worker itself returns after on_terminal has returned |
| `JobTheorems.SelfJoinReturnsAtOnce` | pj_base/src/source/provider_job.cpp:246-250 | in every state of every run a join on the worker's thread, made in the body, a callback or a hook the worker runs, is over at once, and no such call is ever found waiting |
| `JobTheorems.FreedIsFinal` | pj_base/src/source/provider_job.cpp:280-287 | when the state is freed the worker and the watchdog are gone, no call is inside it and no step of any kind is left |
| `JobTheorems.FailedSpawnIsSilent` | pj_base/src/source/provider_job.cpp:323-332 | if the thread cannot be started nothing is handed out and nothing is ever called |
| `JobTheorems.StoppedWatchdogStaysQuiet` | pj_base/src/source/provider_job.cpp:108-117 | while the worker waits for a watchdog to end, to arm another or to fire on_terminal, no on_expire starts |
| `JobTheorems.RequestsAreServed` | pj_base/src/source/provider_job.cpp:235-287 | a host that holds the job may cancel, join and destroy it at any time, and a running callback may cancel and join |
| `JobTheorems.BodyRequestsAreServed` | pj_base/src/source/provider_job.cpp:167-227 | the running body may at any time register a hook, notify, arm a watchdog, return and throw; the first notification enters on_dataset if there is one |
| `JobHooks.RegistrationReplaces` | pj_base/src/source/provider_job.cpp:167-185 | a registration before any cancellation makes its hook the one in the slot, whatever was there |
| `JobHooks.ClaimedIsLastRegistered` | pj_base/src/source/provider_job.cpp:71-92 | over every run, a hook claimed by a canceller is the argument of the last registration before the claim, and one claimed by its registrant is the one just registered |
| `JobHooks.HookRunIsLastRegistered` | pj_base/src/source/provider_job.cpp:71-185 | so the hook that a run has claimed, if any, is the last one registered up to that step |
| `JobRequests.CancelTakesHold` | pj_base/src/source/provider_job.cpp:71-92 | in every run, whoever has come back from requestCancel, and a destroy that is past it, has left the job cancelled |
| `JobRequests.ArmedWatchdogExpires` | pj_base/src/source/provider_job.cpp:196-227 | in every run, a watchdog waiting while the body runs expires into on_expire when its time is up, and does not end before |
| `JobProgress.NeverStuck` | pj_base/src/source/provider_job.cpp:241-287 | every reachable job that has not settled and that nobody joins from inside a callback has an enabled move that is no new request |
| `JobProgress.InsideMeansUnfinished` | pj_base/src/source/provider_job.cpp:97-117 | while somebody joins from on_expire, or from a hook on another thread than the worker's, on_terminal has not been entered |
| `JobProgress.SelfBlockedForever` | pj_base/src/source/provider_job.cpp:241-276 | such a join never returns, in no continuation of the run, and on_terminal is never called |
| `JobProgress.JoinFromExpireBlocks` | pj_base/src/source/provider_job.cpp:196-227 | a concrete run in which on_expire joins its job and blocks it |
| `JobProgress.EveryProgressRunSettles` | pj_base/src/source/provider_job.cpp:241-287 | moves that need no request cannot go on for ever, and when none is left the job is settled, with on_terminal fired once, if and only if nobody was joining from inside |
| `SettlementLatches.SettlementLatch.Settle` | pj_base/src/source/provider_job.cpp:377-388 | the latch holds the first settlement of all there have been |
| `SettlementLatches.Wait` | pj_base/src/source/provider_job.cpp:390-401 | a wait ends in the first turn that sees a settlement or a cancellation, and the settlement wins |
| `FileLocks.TryAcquire` | pj_base/src/source/file_lock.cpp:38-109 | a try succeeds exactly if the file opens and the lock is free, or shared and asked for shared; a failure changes nothing and says which it was |
| `FileLocks.FileLock.Release` | pj_base/src/source/file_lock.cpp:167-181 | only this holder goes; a second release does nothing |
| `FileLocks.FileLock.DowngradeToShared` | pj_base/src/source/file_lock.cpp:125-165 | true exactly if the shared try succeeds on the lock as others left it; false closes the handle |
| `FileLocks.Take` | pj_base/src/source/file_lock.cpp:38-91 | one holder is added and nobody else's hold changes |
| `FileLocks.Drop` | pj_base/src/source/file_lock.cpp:167-181 | the holders left are exactly those not dropped |
| `FileLocks.TriesSucceedExactly` | pj_base/src/source/file_lock.cpp:38-109 | an exclusive try succeeds exactly if nobody holds the lock, a shared one exactly if nobody holds it exclusively; shared holders stack |
| `CacheInvariants.NextKeeps` | pj_base/src/source/request_cache.cpp:229-300 | every step of every writer, reader, evictor and sweeper, and every crash, keeps the cache's invariant |
| `CacheInvariants.RunInv` | pj_base/src/source/request_cache.cpp:395-415 | every state of every run from a directory of valid artifacts satisfies it |
| `CacheTheorems.HitSurvives` | pj_base/src/source/request_cache.cpp:343-393 | the only thing any continuation can do to a lease is end it |
| `CacheTheorems.LeaseProtects` | pj_base/src/source/request_cache.cpp:343-393 | while a lease is held the artifact it names keeps its bytes, and is there and valid if it was there when the lease was granted |
| `CacheTheorems.HitMissesItsArtifactExactly` | pj_base/src/source/request_cache.cpp:264-288 | a hit is granted without its artifact if and only if its conversion succeeds after the artifact is gone; an uninterrupted conversion grants what was published |
| `CacheTheorems.LossyBreaksContract` | pj_base/src/source/file_lock.hpp:38-43 | a conversion that grants a missing artifact was interrupted and still reported success, against its contract |
| `CacheTheorems.EveryHitProtectedExactly` | pj_base/src/source/request_cache.cpp:229-290 | every hit of a run has its artifact present, valid and unchanged for as long as it is held if and only if no conversion of the run succeeded after its artifact was gone |
| `CacheTheorems.ContractProtectsEveryHit` | pj_base/src/source/file_lock.hpp:38-43 | if no interrupted conversion reports success, every hit is protected, however often conversions are interrupted |
| `CacheTheorems.InterruptedConversionCanLoseTheArtifact` | pj_base/src/source/file_lock.cpp:125-165 | a concrete run of the code in which a commit's hit names an artifact that has been evicted |
| `CacheTheorems.VisibleArtifactsAreValid` | pj_base/src/source/request_cache.cpp:229-290 | every file ever visible at an artifact path passes the validator for its digest |
| `CacheTheorems.OneWriter` | pj_base/src/source/request_cache.cpp:395-415 | while a writer is live nobody else writes, holds a lease on or evicts its identity |
| `CacheTheorems.WriterUndisturbed` | pj_base/src/source/request_cache.cpp:488-519 | a live transaction finds its partial as it wrote it and the artifact as it was: no sweep or eviction takes them |
| `CacheTheorems.WriterRecordsItsOwn` | pj_base/src/source/request_cache.cpp:395-415 | what is taken for the writer's own partial is moved only by the writer |
| `CacheTheorems.FailureLeavesArtifact` | pj_base/src/source/request_cache.cpp:229-300 | abort and every failure before the rename leave the artifact and remove the partial |
| `CacheTheorems.CrashLeavesArtifact` | pj_base/src/source/request_cache.cpp:488-519 | a crash of the writer leaves the artifact, a stale partial and a free lock |
| `CacheTheorems.RenamePublishesValidated` | pj_base/src/source/request_cache.cpp:246-257 | the rename publishes exactly the bytes the validator passed |
| `CacheTheorems.DeadHoldersBlockNobody` | pj_base/src/source/file_lock.cpp:38-91 | an identity nobody works on any more has a free lock |
| `CacheOutcomes.LookupHitsExactly` | pj_base/src/source/request_cache.cpp:343-380 | an undisturbed lookup of an artifact that is there, its lock free or shared, ends in a hit with that artifact and the shared lock if and only if the validator passes it |
| `CacheOutcomes.LookupEndsRightly` | pj_base/src/source/request_cache.cpp:343-380 | whatever others do, a lookup leaves its steps only by a hit on a valid artifact, or by finding the lock held exclusively or the file absent or invalid at that step |
| `CacheOutcomes.LookupIsOver` | pj_base/src/source/request_cache.cpp:343-380 | in every run, a lookup that is over has hit, or there is the step at which it missed, with its reason |
| `CacheOutcomes.WriteIsJudgedExactly` | pj_base/src/source/request_cache.cpp:229-257 | an undisturbed write on a free identity is accepted for publication if and only if the validator passes its bytes |
| `CacheOutcomes.PublishGoesThrough` | pj_base/src/source/request_cache.cpp:246-290 | from there, undisturbed, the bytes are at the path and leased |
| `CacheOutcomes.ConversionIsWonExactly` | pj_base/src/source/request_cache.cpp:264-288 | a conversion is won if and only if nobody holds the lock exclusively, with what is then at the path; a lost one goes on to a new lease |
| `CacheOutcomes.FallbackLooksAgain` | pj_base/src/source/request_cache.cpp:270-288 | the new lease is had if and only if nobody holds the lock exclusively, and is a hit if and only if the artifact is there |
| `CacheOutcomes.OwnStepsArePossible` | pj_base/src/source/request_cache.cpp:229-300 | writing, committing, aborting, failing to sync or rename, releasing and leaving a victim alone are always possible, and the latter free the lock without touching an artifact |
| `CacheOutcomes.StartsExactly` | pj_base/src/source/request_cache.cpp:343-415 | writers and cleaners start if and only if nobody holds the lock, read leases if and only if nobody holds it exclusively, lookups if and only if the artifact is there |
| `CacheOutcomes.CleanersRemoveTheirOwn` | pj_base/src/source/request_cache.cpp:488-601 | an evictor removes its artifact, a sweeper the partial of its victim, and neither anything else |
| `WriteTransactions.WriteTransaction.constructor` | pj_base/src/source/request_cache.cpp:395-415 | a transaction begins alone on its identity and unfinished |
| `WriteTransactions.WriteTransaction.GiveUp` | pj_base/src/source/request_cache.cpp:235-240 | only the transaction's own partial and its own lock go |
| `WriteTransactions.WriteTransaction.Abort` | pj_base/src/source/request_cache.cpp:292-300 | no artifact changes; the first abort removes the partial and frees the lock, later ones do nothing |
| `WriteTransactions.WriteTransaction.Publish` | pj_base/src/source/request_cache.cpp:242-257 | published if and only if the validator passes and sync and rename succeed; otherwise everything but the partial is as before |
| `WriteTransactions.WriteTransaction.Handoff` | pj_base/src/source/request_cache.cpp:264-288 | a hit always comes with a shared lock held; a lost conversion falls back to a new lease, and then it is a hit if and only if the file is there as others left it |
| `WriteTransactions.WriteTransaction.Commit` | pj_base/src/source/request_cache.cpp:229-290 | rejected with everything as before, or others first see the validated bytes in place, and the outcome and the directory follow from what they make of them |
| `WriteTransactions.WriteTransaction.HitFinds` | pj_base/src/source/request_cache.cpp:264-288 | a hit finds no file exactly if the conversion succeeded after others removed it, and finds what was published if they left it |
| `CacheCleanup.ScanRoot` | pj_base/src/source/request_cache.cpp:442-482 | exactly the regular artifacts with a readable size are candidates, an unreadable stamp counting as the oldest; exactly the old partials are stale; the total saturates; errors are noted if and only if an entry gave one |
| `CacheCleanup.TryVictim` | pj_base/src/source/request_cache.cpp:551-583 | what became of the victim and the tracked figures after it: moved only if it was locked, unchanged and removed |
| `CacheCleanup.FateOf` | pj_base/src/source/request_cache.cpp:551-590 | removed if and only if everything answered as scanned and the removal succeeded; failed to be removed, lock-held and failed to be locked likewise |
| `CacheCleanup.EvictUntilUnderBudget` | pj_base/src/source/request_cache.cpp:525-601 | victims are tried in order, each only while over target, with the fate of each recorded; the loop ends with the first moment both budgets hold; a failed free-space query ends it at once |
| `CacheCleanup.TrackedAtIsAfter` | pj_base/src/source/request_cache.cpp:525-601 | after any number of victims the tracked figures are those of removing their bytes at once |
| `CacheCleanup.RemovedBytesBound` | pj_base/src/source/request_cache.cpp:551-583 | never more is removed than the victims tried amount to |
| `CacheCleanup.TrackedTotalIsExact` | pj_base/src/source/request_cache.cpp:525-601 | the tracked total is the scanned total less the removed sizes, without underflow, for sizes that sum below 2^64 |
| `CacheCleanup.TrackedTotalIsExactWhen` | pj_base/src/source/request_cache.cpp:525-601 | at which moments the tracked total is what was scanned less what was removed, for sizes of any sum |
| `CacheCleanup.UnderflowsExactly` | pj_base/src/source/request_cache.cpp:591-591 | a subtraction has gone below zero by any step if and only if more has been removed than the total started from |
| `CacheCleanup.TrackedTotalCanWrap` | pj_base/src/source/request_cache.cpp:44-49 | three files of 2^63 - 1 bytes whose removal leaves a tracked total above 2^63 |
| `CacheCleanup.EvictedOnlyWhenNeeded` | pj_base/src/source/request_cache.cpp:543-554 | a victim is tried only while the size or the free-space budget is exceeded with everything removed before it gone |
| `CacheCleanup.OlderFaredFirst` | pj_base/src/source/request_cache.cpp:525-601 | before a victim was evicted every strictly older candidate had been tried; each was removed, lock-held, or found changed, missing or unreadable if and only if none failed to be locked or removed, and if one did an error is reported |
| `CacheCleanup.TargetMetMeansBothBudgets` | pj_base/src/source/request_cache.cpp:525-601 | the target is met if and only if both budgets hold on the tracked figures |
| `CacheCleanup.RemoveStalePartials` | pj_base/src/source/request_cache.cpp:488-519 | of the stale partials exactly those that are free, still there, still old and removable are removed, their known sizes counted, and an error noted if and only if one could not be locked, read or removed |
| `CacheCleanup.SweptWasStaleTwice` | pj_base/src/source/request_cache.cpp:488-519 | a partial is only removed if it was old in the scan and again under its lock |
| `CacheCleanup.Cleanup` | pj_base/src/source/request_cache.cpp:603-637 | the whole result for every kind of root, listing failure and free-space answer: what is swept and evicted, bytes reclaimed and held over target, target and errors |
| `CleanupRules.CandidatesExactly` | pj_base/src/source/request_cache.cpp:442-482 | the candidates are exactly the regular artifacts of known size; one whose stamp cannot be read has the earliest stamp there is |
| `CleanupRules.UnreadableStampGoesFirst` | pj_base/src/source/request_cache.cpp:473-474 | so it is tried before every file with a later stamp |
| `CleanupRules.StaleExactly` | pj_base/src/source/request_cache.cpp:460-465 | a partial is stale if and only if it is a regular file whose age is known and not below the orphan age |
| `CleanupRules.ScanErrorExactly` | pj_base/src/source/request_cache.cpp:450-476 | the scan notes an error exactly for an unreadable type, age of a partial or size of an artifact |
| `CleanupRules.FateExactly` | pj_base/src/source/request_cache.cpp:551-590 | a victim is removed if and only if no question stops it; otherwise the first answer that differs from the scan gives its fate |
| `CleanupRules.EvictionErrorExactly` | pj_base/src/source/request_cache.cpp:551-598 | an error is noted exactly for a lock, a question or a removal that failed, and for a stamp file left behind |
| `CleanupRules.TriedExactly` | pj_base/src/source/request_cache.cpp:583-597 | where nothing overflows, a removed victim moves its bytes from the total to the free space and to what was reclaimed; any other victim moves nothing |
| `CleanupRules.SweptExactly` | pj_base/src/source/request_cache.cpp:488-519 | a stale partial is removed if and only if its identity is free and it is still a regular file, not below the orphan age, and removable |
| `CleanupRules.SweepErrorExactly` | pj_base/src/source/request_cache.cpp:488-519 | an error is noted exactly for the first question that failed |
| `ProtobufWire.ReadVarintFrom` | pj_base/src/builtin/protobuf_wire.hpp:182-201 | a read varint has consumed a byte and fits the bits that are left at its position |
| `ProtobufWire.VarintBackFrom` | pj_base/src/builtin/protobuf_wire.hpp:182-201 | from any of the ten positions, every value that fits there reads back |
| `ProtobufWire.VarintBack` | pj_base/src/builtin/protobuf_wire.hpp:133-139 | every 64-bit value reads back and nothing behind it is touched |
| `ProtobufWire.ReadTag` | pj_base/src/builtin/protobuf_wire.hpp:172-180 | every tag consumes a byte, so the field loop ends |
| `ProtobufWire.TagBack` | pj_base/src/builtin/protobuf_wire.hpp:129-131 | every tag with a non-zero field number reads back |
| `ProtobufWire.Fixed64Back` | pj_base/src/builtin/protobuf_wire.hpp:141-151 | every 64-bit word reads back |
| `ProtobufWire.Fixed32Back` | pj_base/src/builtin/protobuf_wire.hpp:141-151 | every 32-bit word reads back |
| `ProtobufWire.BytesBack` | pj_base/src/builtin/protobuf_wire.hpp:96-103 | every length-delimited payload reads back |
| `ProtobufWire.Words32Back` | pj_base/src/builtin/protobuf_wire.hpp:50-61 | a packed payload decodes to the words it was made of |
| `ProtobufWire.Packed32Back` | pj_base/src/builtin/protobuf_wire.hpp:339-359 | a packed field joins its words to those already read |
| `ProtobufWire.TakeOne` | pj_base/src/builtin/protobuf_wire.hpp:322-334 | a field the handler takes is one turn of the loop, whatever follows |
| `ProtobufWire.SkipExtends` | pj_base/src/builtin/protobuf_wire.hpp:273-291 | a complete field is skipped the same way in any longer buffer |
| `ProtobufWire.ElementsAppend` | pj_base/src/builtin/protobuf_wire.hpp:322-334 | a list of message fields of any length joins the target list in order |
| `ProtobufWire.HonestAcceptsWellFormed` | pj_base/src/builtin/protobuf_wire.hpp:317-334 | with a handler that fails only on incomplete fields, the loop accepts exactly the sequences of complete fields |
| `ProtobufWire.RereadsAcceptExactly` | pj_base/src/builtin/protobuf_wire.hpp:294-334 | with a handler whose failed read has moved, the loop accepts exactly the inputs in which what is left behind such a read skips as a field of that type |
| `ProtobufWire.IncompleteFieldReread` | pj_base/src/builtin/protobuf_wire.hpp:322-334 | behind any complete fields, an incomplete one is passed over if and only if what its failed read left skips as such a field, and parsing goes on from there |
| `ProtobufWire.ParseConcat` | pj_base/src/builtin/protobuf_wire.hpp:322-334 | parsing a concatenation is parsing the second part from the state the first one left |
| `ProtobufWire.UnknownFieldSkipped` | pj_base/src/builtin/protobuf_wire.hpp:322-334 | a field declined without moving is passed over |
| `ProtobufWire.UnknownFieldInserted` | pj_base/src/builtin/protobuf_wire.hpp:273-334 | a complete unknown field can be inserted at any boundary without effect |
| `WireFormat.VarintIsRead` | pj_base/src/builtin/protobuf_wire.hpp:182-201 | a base-128 number of at most ten bytes, the tenth at most one, is read with its value and what is behind it |
| `WireFormat.NoVarintIsRefused` | pj_base/src/builtin/protobuf_wire.hpp:182-201 | anything else is refused, with all of it read and ten bytes at the most |
| `Base128.VarintIsWritten` | pj_base/src/builtin/protobuf_wire.hpp:133-139 | what is written is such a number, of the value given, and no shorter one has that value |
| `WireFormat.TagIsRead` | pj_base/src/builtin/protobuf_wire.hpp:172-180 | a tag is the varint of eight times the field number and the wire type; the field number is cut to 32 bits and must not be zero |
| `WireFormat.NoTagIsRefused` | pj_base/src/builtin/protobuf_wire.hpp:172-180 | without a varint there is no tag |
| `WireFormat.Fixed32IsRead` | pj_base/src/builtin/protobuf_wire.hpp:215-225 | a 32-bit word is its four bytes, lowest first, read if and only if four are there |
| `WireFormat.Fixed64IsRead` | pj_base/src/builtin/protobuf_wire.hpp:203-213 | a 64-bit word is its eight, read if and only if eight are there |
| `WireFormat.BytesAreRead` | pj_base/src/builtin/protobuf_wire.hpp:294-303 | a payload is as many bytes as its length says; one that claims more than there are is refused with the length read |
| `WireFormat.WordsAreFours` | pj_base/src/builtin/protobuf_wire.hpp:339-359 | a packed payload is one word for every four of its bytes |
| `WireFormat.PackedIsRead` | pj_base/src/builtin/protobuf_wire.hpp:339-359 | they join the words already there; a payload cut short or of another length is refused with nothing joined |
| `WireFormat.Fixed32IsFourBytes` | pj_base/src/builtin/protobuf_wire.hpp:286-287 | skipping a fixed 32-bit field succeeds if and only if four bytes are there, and leaves what is behind them |
| `WireFormat.Fixed64IsEightBytes` | pj_base/src/builtin/protobuf_wire.hpp:279-280 | skipping a fixed 64-bit field needs and takes eight |
| `WireFormat.VarintIsSkipped` | pj_base/src/builtin/protobuf_wire.hpp:275-278 | skipping a varint leaves what is behind it |
| `WireFormat.BytesAreSkipped` | pj_base/src/builtin/protobuf_wire.hpp:281-285 | skipping a payload takes the length and as many bytes, or fails with the length read |
| `WireFormat.NoVarintIsNotSkipped` | pj_base/src/builtin/protobuf_wire.hpp:273-291 | neither is skipped without a varint |
| `WireFormat.NoOtherWireType` | pj_base/src/builtin/protobuf_wire.hpp:288-290 | wire types 3, 4, 6 and 7 are never skipped |
| `WireFormat.WrittenIsSkipped` | pj_base/src/builtin/protobuf_wire.hpp:273-291 | every written number, word and payload is skipped to its end |
| `WireFormat.WrittenFieldSkipped` | pj_base/src/builtin/protobuf_wire.hpp:322-334 | any field that was written, a 32-bit one included, is passed over where the handler declines it without moving |
| `WireFormat.TagByte` | pj_base/src/builtin/protobuf_wire.hpp:129-131 | the tag of a field below 16 is one byte, eight times the field number and the wire type |
| `WireBuffers.Writer.AppendVarint` | pj_base/src/builtin/protobuf_wire.hpp:133-139 | the masking and shifting loop appends the encoding of its value |
| `WireBuffers.Writer.AppendLittle` | pj_base/src/builtin/protobuf_wire.hpp:141-151 | the byte loop appends the little-endian word |
| `WireBuffers.Writer.Varint` | pj_base/src/builtin/protobuf_wire.hpp:32-35 | one varint field is appended |
| `WireBuffers.Writer.DoubleField` | pj_base/src/builtin/protobuf_wire.hpp:63-67 | one 64-bit field is appended |
| `WireBuffers.Writer.BytesField` | pj_base/src/builtin/protobuf_wire.hpp:96-103 | one length-delimited field is appended |
| `WireBuffers.Writer.PackedFixed32` | pj_base/src/builtin/protobuf_wire.hpp:50-61 | one packed field is appended, and none for an empty list |
| `WireBuffers.Writer.RepeatedMessages` | pj_base/src/builtin/scene_entities_codec.cpp:511-558 | a loop over a list appends one message field per element, in order |
| `WireBuffers.Reader.ReadVarint` | pj_base/src/builtin/protobuf_wire.hpp:182-201 | the loop gives the value and leaves the rest that the wire format says, failures included |
| `WireBuffers.Reader.ReadTag` | pj_base/src/builtin/protobuf_wire.hpp:172-180 | so does reading a tag |
| `WireBuffers.Reader.ReadLittle` | pj_base/src/builtin/protobuf_wire.hpp:203-225 | a word is read exactly if enough bytes are there; otherwise nothing moves |
| `WireBuffers.Reader.ReadBytes` | pj_base/src/builtin/protobuf_wire.hpp:294-303 | a length past the end fails with the length consumed |
| `WireBuffers.Reader.Skip` | pj_base/src/builtin/protobuf_wire.hpp:273-291 | the reader is left where the wire type says |
| `WireBuffers.Reader.SkipBytes` | pj_base/src/builtin/protobuf_wire.hpp:305-311 | skipping moves by the count or not at all |
| `WireBuffers.Reader.ReadPackedFixed32` | pj_base/src/builtin/protobuf_wire.hpp:339-359 | the words of the payload are appended one by one; a bad length fails |
| `WireBuffers.ParseAllFields` | pj_base/src/builtin/protobuf_wire.hpp:322-334 | the loop over a moving reader ends and computes the parse of the bytes that were left |
| `GeometryCodec.SplitIsFloor` | pj_base/src/builtin/geometry_codec.hpp:34-43 | truncating division and its correction are floor division |
| `GeometryCodec.SplitThenCombine` | pj_base/src/builtin/geometry_codec.hpp:34-52 | combining the parts of any int64 gives it back |
| `GeometryCodec.CombineThenSplit` | pj_base/src/builtin/geometry_codec.hpp:45-52 | splitting a combined timestamp gives the parts back |
| `GeometryCodec.TimestampBack` | pj_base/src/builtin/geometry_codec.hpp:54-81 | every int64 time survives the wire |
| `GeometryCodec.UnknownFieldInTimestamp` | pj_base/src/builtin/geometry_codec.hpp:60-81 | a complete unknown field behind any known fields changes nothing unless it is a varint; a varint takes the first varint behind it along, or spoils the message if there is none |
| `GeometryCodec.TimestampToleratesExactly` | pj_base/src/builtin/geometry_codec.hpp:60-81 | an unknown field can be inserted in every message without effect if and only if it is no varint |
| `GeometryCodec.TimestampLosesFieldAfterUnknownVarint` | pj_base/src/builtin/geometry_codec.hpp:60-81 | a message with an unknown varint field whose seconds are lost |
| `GeometryCodec.Vector3Back` | pj_base/src/builtin/geometry_codec.hpp:118-145 | every vector is decoded from its encoding, over any earlier value |
| `GeometryCodec.Vector3AcceptsExactly` | pj_base/src/builtin/geometry_codec.hpp:118-145 | vector decoding accepts exactly the sequences of complete fields |
| `GeometryCodec.UnknownFieldInVector3` | pj_base/src/builtin/geometry_codec.hpp:118-145 | vector messages are parsed piecewise, and a complete unknown field at any boundary changes nothing |
| `GeometryCodec.QuaternionBack` | pj_base/src/builtin/geometry_codec.hpp:180-210 | every quaternion is decoded from its encoding |
| `GeometryCodec.PoseBack` | pj_base/src/builtin/geometry_codec.hpp:214-238 | every pose, with both nested messages, is decoded from its encoding |
| `GeometryCodec.ChannelBack` | pj_base/src/builtin/geometry_codec.hpp:242-252 | each of the 256 channel values survives division by 255, rounding to a double and scaling back |
| `GeometryCodec.ChannelRounds` | pj_base/src/builtin/geometry_codec.hpp:242-245 | any double within half a unit of c / 255 becomes c again |
| `GeometryCodec.ColorBack` | pj_base/src/builtin/geometry_codec.hpp:247-278 | every colour is decoded from its encoding |
| `GeometryCodec.ChannelIsClose` | pj_base/src/builtin/geometry_codec.hpp:242-252 | the double written for a channel is c / 255 to within half a unit in the last place |
| `GeometryCodec.DoublesOfNote` | pj_base/src/builtin/geometry_codec.hpp:242-252 | the words of 0, 0.5, 1, -1, 1.5, 2 and a NaN mean just that |
| `GeometryCodec.NormalizedIsNearest` | pj_base/src/builtin/geometry_codec.hpp:242-245 | a value is scaled by 255, rounded half up and kept between 0 and 255 |
| `ScenePrimitivesCodec.ListBack` | pj_base/src/builtin/scene_entities_codec.cpp:495-507 | a list of messages that each read back reads back as a list, whatever follows it |
| `ScenePrimitivesCodec.LineTypeRead` | pj_base/src/builtin/scene_entities_codec.cpp:42-65 | the wire number of every line type is read as that type |
| `ScenePrimitivesCodec.ArrowBack` | pj_base/src/builtin/scene_entities_codec.cpp:89-117 | every arrow is decoded from its encoding, over any earlier value |
| `ScenePrimitivesCodec.CubeBack` | pj_base/src/builtin/scene_entities_codec.cpp:121-169 | so is every cube, and every sphere, which has the same fields |
| `ScenePrimitivesCodec.CylinderBack` | pj_base/src/builtin/scene_entities_codec.cpp:173-198 | so is every cylinder |
| `ScenePrimitivesCodec.IndicesFinish` | pj_base/src/builtin/scene_entities_codec.cpp:202-258 | packed indices, of any number and none, close a message with the list they were |
| `ScenePrimitivesCodec.LineBack` | pj_base/src/builtin/scene_entities_codec.cpp:202-258 | every line, with points, colours and packed indices of any number, is decoded from its encoding |
| `ScenePrimitivesCodec.TriangleBack` | pj_base/src/builtin/scene_entities_codec.cpp:262-294 | so is every triangle list |
| `ScenePrimitivesCodec.TextBack` | pj_base/src/builtin/scene_entities_codec.cpp:298-344 | so is every text |
| `ScenePrimitivesCodec.AxesBack` | pj_base/src/builtin/scene_entities_codec.cpp:348-379 | so are axes |
| `ScenePrimitivesCodec.ModelBack` | pj_base/src/builtin/scene_entities_codec.cpp:383-435 | so is every model with its embedded bytes |
| `SceneEntitiesCodec.PairBack` | pj_base/src/builtin/scene_entities_codec.cpp:472-491 | every metadata pair is decoded from its encoding |
| `SceneEntitiesCodec.UnknownFieldInPair` | pj_base/src/builtin/scene_entities_codec.cpp:472-491 | pairs are parsed piecewise, and a complete unknown field at any boundary changes nothing |
| `SceneEntitiesCodec.PairAcceptsExactly` | pj_base/src/builtin/scene_entities_codec.cpp:472-491 | a pair accepts exactly complete fields, and strings cut short whose bytes behind the length skip as a string |
| `SceneEntitiesCodec.TruncatedStringAcceptedExactly` | pj_base/src/builtin/protobuf_wire.hpp:294-334 | a cut string behind complete fields is accepted if and only if the next bytes are a complete string and the rest is accepted; the string it cuts is not stored |
| `SceneEntitiesCodec.TruncatedStringCanBeAccepted` | pj_base/src/builtin/protobuf_wire.hpp:294-334 | a truncated pair that the field loop accepts |
| `SceneEntitiesCodec.DeletionBack` | pj_base/src/builtin/scene_entities_codec.cpp:439-468 | every deletion is decoded from its encoding |
| `SceneEntitiesCodec.EntityBack` | pj_base/src/builtin/scene_entities_codec.cpp:511-599 | every entity with all nine primitive lists and metadata is decoded from its encoding |
| `SceneEntitiesCodec.SceneBackOnto` | pj_base/src/builtin/scene_entities_codec.cpp:618-660 | an encoded scene in front of anything adds its deletions and entities and leaves the rest to be decoded |
| `SceneEntitiesCodec.SceneBack` | pj_base/src/builtin/scene_entities_codec.cpp:603-660 | the codec gives a scene back if and only if it is not the empty one |
| `SceneEntitiesCodec.SceneEncodingInjective` | pj_base/src/builtin/scene_entities_codec.cpp:603-616 | two scenes never share an encoding |
| `SceneEntitiesCodec.SceneConcat` | pj_base/src/builtin/scene_entities_codec.cpp:618-660 | decoding goes on after any bytes that decode from the scene they gave |
| `SceneEntitiesCodec.UnknownFieldInScene` | pj_base/src/builtin/scene_entities_codec.cpp:618-660 | a complete unknown field after any bytes that decode changes nothing |
| `SceneEntitiesCodec.SerializeSceneEntities` | pj_base/src/builtin/scene_entities_codec.cpp:603-616 | the writing loops produce the encoding of the scene |
| `SceneEntitiesCodec.DeserializeSceneEntities` | pj_base/src/builtin/scene_entities_codec.cpp:618-660 | the reading loop produces the decoded scene or the same error |
| `SceneLayout.DoubleIsRead` | pj_base/src/builtin/protobuf_wire.hpp:227-234 | a double is taken if and only if eight bytes are there; otherwise nothing changes |
| `SceneLayout.FlagIsRead` | pj_base/src/builtin/scene_entities_codec.cpp:235-245 | a flag is set by any number but zero |
| `SceneLayout.StringIsRead` | pj_base/src/builtin/protobuf_wire.hpp:245-253 | a string is the bytes of its length; one cut short leaves the target as it was |
| `SceneLayout.KindsAreRead` | pj_base/src/builtin/scene_entities_codec.cpp:54-65 | line and deletion kinds by their numbers; one that nobody knows is the first |
| `SceneLayout.TimestampPartsAreRead` | pj_base/src/builtin/geometry_codec.hpp:60-81 | seconds are two's complement of 64 bits, and of the nanoseconds the low 32 bits count |
| `SceneLayout.OtherWiresDeclined` | pj_base/src/builtin/scene_entities_codec.cpp:98-117 | a known field of another wire type is declined as it is |
| `SceneLayout.ListBytes` | pj_base/src/builtin/scene_entities_codec.cpp:207-213 | a list is written as one payload for each element, in order |
| `SceneLayout.VectorLayout` | pj_base/src/builtin/geometry_codec.hpp:118-122 | the bytes of a vector: x, y and z are the doubles of fields 1, 2 and 3 |
| `SceneLayout.QuaternionLayout` | pj_base/src/builtin/geometry_codec.hpp:180-185 | the bytes of a quaternion: x, y, z and w are the doubles of fields 1 to 4 |
| `SceneLayout.PoseLayout` | pj_base/src/builtin/geometry_codec.hpp:214-217 | the bytes of a pose: the position is message 1, the orientation message 2 |
| `SceneLayout.ColorLayout` | pj_base/src/builtin/geometry_codec.hpp:247-252 | the bytes of a colour: red, green, blue and alpha are the doubles of fields 1 to 4 |
| `SceneLayout.TimestampLayout` | pj_base/src/builtin/geometry_codec.hpp:34-58 | the bytes of a time: the seconds, rounded down and in two's complement, are number 1, the nanoseconds beyond them number 2 |
| `SceneLayout.ArrowLayout` | pj_base/src/builtin/scene_entities_codec.cpp:89-96 | the bytes of an arrow, tag by tag |
| `SceneLayout.CubeLayout` | pj_base/src/builtin/scene_entities_codec.cpp:121-151 | the bytes of a cube and of a sphere |
| `SceneLayout.CylinderLayout` | pj_base/src/builtin/scene_entities_codec.cpp:173-179 | the bytes of a cylinder |
| `SceneLayout.TextLayout` | pj_base/src/builtin/scene_entities_codec.cpp:298-305 | the bytes of a text |
| `SceneLayout.AxesLayout` | pj_base/src/builtin/scene_entities_codec.cpp:348-353 | the bytes of axes |
| `SceneLayout.IndicesLayout` | pj_base/src/builtin/protobuf_wire.hpp:50-61 | no indices, no field; otherwise one packed payload |
| `SceneLayout.LineLayout` | pj_base/src/builtin/scene_entities_codec.cpp:202-215 | the bytes of a line up to its vertices |
| `SceneLayout.VerticesLayout` | pj_base/src/builtin/scene_entities_codec.cpp:207-214 | and of its vertices |
| `SceneLayout.TriangleLayout` | pj_base/src/builtin/scene_entities_codec.cpp:262-272 | the bytes of a triangle list |
| `SceneLayout.ModelLayout` | pj_base/src/builtin/scene_entities_codec.cpp:383-393 | the bytes of a model; inline data only if there are any |
| `SceneLayout.PairLayout` | pj_base/src/builtin/scene_entities_codec.cpp:472-475 | the bytes of a metadata pair |
| `SceneLayout.DeletionLayout` | pj_base/src/builtin/scene_entities_codec.cpp:439-443 | the bytes of a deletion |
| `SceneLayout.EntityLayout` | pj_base/src/builtin/scene_entities_codec.cpp:511-517 | the bytes of an entity up to its lists |
| `SceneLayout.ShapesLayout` | pj_base/src/builtin/scene_entities_codec.cpp:519-548 | and of its ten lists, in fields 6 to 15 |
| `SceneLayout.SceneMessageLayout` | pj_base/src/builtin/scene_entities_codec.cpp:603-616 | the bytes of a scene: deletions in field 1, then entities in field 2 |
| `SceneLayout.WrittenFieldInScene` | pj_base/src/builtin/scene_entities_codec.cpp:618-660 | any written field behind bytes that decode is passed over by a scene, unless it is a payload of field 1 or 2 |
| `SceneLayout.ShortFieldIsEmptyScene` | pj_base/src/builtin/scene_entities_codec.cpp:618-660 | one 32-bit field of number 4 by itself is an empty scene |
| `SceneLayout.ErrorsTellWhy` | pj_base/src/builtin/scene_entities_codec.cpp:618-660 | which error is reported for the first field that is not in order |
| `SceneLayout.Defaults` | pj_base/include/pj_base/builtin/scene_entities.hpp:66-76 | what a message leaves out: the identity pose, black that can be seen, cylinders that do not taper |
| `BuiltinObjectCodec.SceneRoundTrips` | pj_base/src/builtin/builtin_object_codec.cpp:50-152 | every scene, the empty one included, comes back from the dispatcher |
| `LittleEndian.LittleBack` | pj_base/src/parser_module_abi.cpp:113-118 | a word that fits its bytes reads back |
| `LittleEndian.LittleForth` | pj_base/src/parser_module_abi.cpp:188-200 | bytes read as a word are written as the same bytes |
| `ByteBuffers.ByteWriter.Word` | pj_base/src/parser_module_abi.cpp:113-118 | the byte loop appends the word |
| `ByteBuffers.ByteReader.Word` | pj_base/src/parser_module_abi.cpp:188-200 | a word is read exactly if it fits the rest; otherwise the position stays |
| `ByteBuffers.ByteReader.Take` | pj_base/src/parser_module_abi.cpp:173-180 | a view is taken exactly if it fits the rest |
| `LittleEndian.WordBytes` | pj_base/src/parser_module_abi.cpp:188-200 | a word of one, two or four bytes is their sum, the first byte counting least |
| `LittleEndian.LongWordBytes` | pj_base/src/parser_module_abi.cpp:188-200 | and so is one of eight |
| `ParserModuleAbi.FieldOffsets` | pj_base/src/parser_module_abi.cpp:238-277 | every field starts where the ones before it end, or the block is refused because it would not fit 32 bits |
| `ParserModuleAbi.WriteBindingInfo` | pj_base/src/parser_module_abi.cpp:238-277 | the encoding, exactly if it can be written |
| `ParserModuleAbi.EncBinding` | pj_base/src/parser_module_abi.cpp:238-277 | the length is the fixed part and the fields |
| `ParserModuleAbi.ReadDescriptors` | pj_base/src/parser_module_abi.cpp:279-331 | accepted if and only if every descriptor, also past the sixth, lies in the block |
| `ParserModuleAbi.ReadBindingInfo` | pj_base/src/parser_module_abi.cpp:279-331 | accepted if and only if header and descriptors are in order, with the views they give |
| `ParserModuleAbi.DescriptorViewsField` | pj_base/src/parser_module_abi.cpp:238-277 | every written descriptor points at its field |
| `ParserModuleAbi.BindingBack` | pj_base/src/parser_module_abi.cpp:238-331 | reading what was written gives back the header and all six fields |
| `ParserModuleAbi.BindingViewsInside` | pj_base/src/parser_module_abi.cpp:279-331 | for any accepted block all views lie inside it |
| `ParserModuleAbi.OnlySixDescriptorsMatter` | pj_base/src/parser_module_abi.cpp:279-331 | two accepted blocks with the same header and first six descriptors give the same value |
| `ParserModuleLayout.BindingAcceptedExactly` | pj_base/src/parser_module_abi.cpp:279-318 | a binding block is accepted if and only if it has version 1, route 1 or 2, at least six descriptors, all of them there, and every one within the block |
| `ParserModuleLayout.BindingReadAt` | pj_base/src/parser_module_abi.cpp:320-323 | route, claim index and object type are read at bytes 2, 4 and 8 |
| `ParserModuleLayout.BindingFieldsAt` | pj_base/src/parser_module_abi.cpp:303-330 | the six fields are read from the descriptors at bytes 16 to 63, in their order |
| `ParserModuleLayout.BindingWrittenAt` | pj_base/src/parser_module_abi.cpp:244-275 | the first field is written at byte 64 and each other behind the one before |
| `ParserModuleLayout.BindingReserved` | pj_base/src/parser_module_abi.cpp:267-267 | the reserved bytes are zero |
| `ParserModuleOutput.WriteParseInput` | pj_base/src/parser_module_abi.cpp:333-345 | the encoding of a parse input, exactly if its size can be represented |
| `ParserModuleOutput.ReadParseInput` | pj_base/src/parser_module_abi.cpp:347-366 | the views of an accepted input, nothing for any other |
| `ParserModuleOutput.InputBack` | pj_base/src/parser_module_abi.cpp:333-366 | a parse input is read as it was written, with its payload inside the block |
| `ParserModuleOutput.ObjectBack` | pj_base/src/parser_module_abi.cpp:368-386 | an object output, with or without a splice, is read as it was written |
| `ParserModuleOutput.EncScalar` | pj_base/src/parser_module_abi.cpp:393-419 | the encoded length is the precomputed end of the rows and the names |
| `ParserModuleOutput.RowsEnd` | pj_base/src/parser_module_abi.cpp:393-404 | the first pass finds where the names start, and gives up only on what cannot be written |
| `ParserModuleOutput.NameOffsets` | pj_base/src/parser_module_abi.cpp:406-417 | the second pass places each name behind the ones before it, or refuses exactly what does not fit 32 bits |
| `ParserModuleOutput.WriteRows` | pj_base/src/parser_module_abi.cpp:427-449 | the rows of all fields are appended in order |
| `ParserModuleOutput.WriteScalar` | pj_base/src/parser_module_abi.cpp:388-453 | the encoding of the fields, exactly if it can be written |
| `ParserModuleOutput.NamePointsAtName` | pj_base/src/parser_module_abi.cpp:406-417 | every name offset points at its name |
| `ParserModuleOutput.ScalarBack` | pj_base/src/parser_module_abi.cpp:388-599 | any number of fields of any kind is read as it was written |
| `ParserModuleOutput.WriteOutputDescriptor` | pj_base/src/parser_module_abi.cpp:368-454 | the encoding of a descriptor, exactly if it can be written |
| `ParserModuleOutput.ReadAllRows` | pj_base/src/parser_module_abi.cpp:521-578 | the row loop reads the rows that lie one behind the other, or fails with the first that does not |
| `ParserModuleOutput.ReadOutputDescriptor` | pj_base/src/parser_module_abi.cpp:456-599 | the views of an accepted block, nothing for any other |
| `ParserModuleOutput.OutputViewsInside` | pj_base/src/parser_module_abi.cpp:456-599 | for any accepted block every returned view lies inside it |
| `ParserModuleOutput.OutputBack` | pj_base/src/parser_module_abi.cpp:368-599 | every descriptor the writer accepts is read back unchanged |
| `ParserModuleLayout.InputAcceptedExactly` | pj_base/src/parser_module_abi.cpp:347-364 | a parse input is accepted if and only if its flags are 0 or 1 and its payload is all of the rest |
| `ParserModuleLayout.InputReadAt` | pj_base/src/parser_module_abi.cpp:347-366 | its flag, timestamp and payload are read at bytes 0, 8 and 24 |
| `ParserModuleLayout.ObjectAcceptedExactly` | pj_base/src/parser_module_abi.cpp:456-487 | an object output is accepted if and only if it has version 1, route 2, at most one splice and wire bytes that are all of the rest |
| `ParserModuleLayout.ObjectReadAt` | pj_base/src/parser_module_abi.cpp:467-497 | where its parts are read |
| `ParserModuleLayout.ScalarHeaderExactly` | pj_base/src/parser_module_abi.cpp:499-514 | what the head of a scalar output must be: version 1, route 1, a flag of 0 or 1 and room for the rows it claims |
| `ParserModuleLayout.ScalarReadAt` | pj_base/src/parser_module_abi.cpp:503-527 | where its flag, timestamp and number of rows are read |
| `ParserModuleLayout.ValueReadAt` | pj_base/src/parser_module_abi.cpp:531-576 | a value by the number of its kind: 0 to 4, and no other |
| `ParserModuleLayout.RowReadAt` | pj_base/src/parser_module_abi.cpp:523-577 | a row is the place and length of its name, the kind and the value; the next follows behind the value |
| `ParserModuleLayout.OtherOutputsRefused` | pj_base/src/parser_module_abi.cpp:463-501 | another version or route is refused |
| `ParserModuleManifest.U32Back` | pj_base/src/parser_module_manifest.cpp:27-54 | every 32-bit value reads back from its LEB128 form |
| `ParserModuleManifest.ReadVarUint32` | pj_base/src/parser_module_manifest.cpp:27-43 | the shifting loop accepts exactly the integers of section 5.2.2 of the WebAssembly Core Specification that fit, with their value and end |
| `ParserModuleManifest.AppendVarUint32` | pj_base/src/parser_module_manifest.cpp:45-54 | the loop appends the shortest form |
| `ParserModuleManifest.VarUint32Size` | pj_base/src/parser_module_manifest.cpp:56-63 | the size is the number of bytes that appending adds |
| `ParserModuleManifest.ScanManifestSections` | pj_base/src/parser_module_manifest.cpp:65-103 | the section loop finds what the section sequence defines, errors included |
| `ParserModuleManifest.ScanExtends` | pj_base/src/parser_module_manifest.cpp:65-103 | scanning is stable under extension |
| `ParserModuleManifest.AppendManifestSection` | pj_base/src/parser_module_manifest.cpp:107-152 | the size computation and the copying produce the module with its section, or the error of the first failed condition |
| `ParserModuleManifest.ReadManifestSection` | pj_base/src/parser_module_manifest.cpp:154-166 | the one manifest there is, or the error |
| `ParserModuleManifest.AppendThenRead` | pj_base/src/parser_module_manifest.cpp:107-166 | after an append the input is a prefix, reading gives the manifest back and any second append is refused |
| `ParserModuleManifest.AppendSucceeds` | pj_base/src/parser_module_manifest.cpp:107-152 | appending succeeds if and only if the module scans, has no manifest and the sizes fit |
| `ParserModuleManifest.U32IsRead` | pj_base/src/parser_module_manifest.cpp:27-43 | an integer of at most five bytes, the fifth below 16, is read with its value and what is behind it |
| `ParserModuleManifest.U32IsRefused` | pj_base/src/parser_module_manifest.cpp:27-43 | anything else is malformed |
| `ParserModuleManifest.ScanCountsManifests` | pj_base/src/parser_module_manifest.cpp:65-103 | of any sections scanning counts the custom ones with the manifest's name and keeps the last; no other section is looked into |
| `ParserModuleManifest.ReadOfSections` | pj_base/src/parser_module_manifest.cpp:154-166 | a module of any sections is read if and only if exactly one is a manifest, with the error otherwise |
| `ParserModuleManifest.AppendToSections` | pj_base/src/parser_module_manifest.cpp:107-152 | appending puts a custom section of that name behind the others, and is refused if there is one |
| `Sha256.BigBack` | pj_base/src/source/sha256.cpp:107-123 | a big-endian word reads back |
| `Sha256.FewestZeroBits` | pj_base/src/source/sha256.cpp:98-110 | the zero bits are the fewest that section 5.1.1 of FIPS 180-4 allows |
| `Sha256.PadInjective` | pj_base/src/source/sha256.cpp:98-110 | different messages never pad to the same blocks |
| `Sha256.FoldConcat` | pj_base/src/source/sha256.cpp:93-96 | compressing block by block can be cut at any block |
| `Sha256.FillSchedule` | pj_base/src/source/sha256.cpp:37-81 | the in-place loop fills the schedule of section 6.2.2 |
| `Sha256.RunRounds` | pj_base/src/source/sha256.cpp:37-81 | the loop with its eight rotating words is the 64 rounds |
| `Sha256.Compress` | pj_base/src/source/sha256.cpp:37-81 | the state array becomes the compression of its old value with the block |
| `Sha256.FillTail` | pj_base/src/source/sha256.cpp:98-110 | whole blocks and the one- or two-block tail concatenate to exactly the padded message |
| `Sha256.CompressWholeBlocks` | pj_base/src/source/sha256.cpp:93-96 | the loop folds all whole blocks and stops less than a block from the end |
| `Sha256.HashMessage` | pj_base/src/source/sha256.cpp:85-124 | for any word operations the digest is the fold over the padded message |
| `Sha256.Sha256` | pj_base/src/source/sha256.cpp:85-124 | so it is for the 32-bit operations and constants of SHA-256, for every message below 2^61 bytes |
| `Sha256Words.RotrBits` | pj_base/src/source/sha256.cpp:32-34 | bit i of a rotation by n is bit i + n, counted round the word |
| `Sha256Words.ChBits` | pj_base/src/source/sha256.cpp:37-81 | the choice is y where x has ones and z where it has none |
| `Sha256Words.MajFirstTwo` | pj_base/src/source/sha256.cpp:37-81 | where the first two words agree the majority is what they are |
| `Sha256Words.MajOuterTwo` | pj_base/src/source/sha256.cpp:37-81 | and where the outer two do |
| `Sha256Words.MajLastTwo` | pj_base/src/source/sha256.cpp:37-81 | and where the last two do |
| `Sha256Constants.KIsCubeRoots` | pj_base/src/source/sha256.cpp:20-30 | each of the 64 constants is the first 32 bits of the fraction of the cube root of the next prime (section 4.2.2 of FIPS 180-4) |
| `Sha256Constants.InitialIsSquareRoots` | pj_base/src/source/sha256.cpp:85-90 | the initial words are those of the square roots of the first eight primes (section 5.3.3) |
| `Sha256Vector.DigestOfAbc` | pj_base/tests/descriptor_import_source_descriptor_test.cpp:172-172 | the digest of the message abc is the one published, through all 64 words of its schedule and all 64 rounds |
| `Strings.JoinThenSplit` | pj_base/src/semver.cpp:45-72 | splitting at dots undoes joining with them |
| `Strings.SplitThenJoin` | pj_base/src/semver.cpp:45-72 | and joining undoes splitting |
| `SemVers.ParseIdentifierList` | pj_base/src/semver.cpp:45-72 | the cutting loop gives the dot-separated parts if and only if all are allowed |
| `SemVers.ParsedIsWellFormed` | pj_base/src/semver.cpp:124-156 | whatever parses has numbers without leading zeros and proper identifiers |
| `SemVers.ParseBack` | pj_base/src/semver.cpp:124-156 | every well-formed version is what its text parses to, with or without build metadata (items 9 and 10 of Semantic Versioning 2.0.0) |
| `SemVers.DottedIdentifiers` | pj_base/src/semver.cpp:45-72 | metadata is allowed if and only if it is letters, digits and hyphens with single dots between them |
| `SemVers.ParseExactly` | pj_base/src/semver.cpp:124-156 | a text parses to a version if and only if it is that version's text, alone or with a plus and allowed metadata behind it |
| `SemVers.Compare` | pj_base/src/semver.cpp:162-206 | the comparison loop computes the recursive comparison |
| `SemVers.CompareNumericIsCompareInt` | pj_base/src/semver.cpp:90-104 | comparing length and then text is comparing the numbers, of any size |
| `SemVers.LeadingZerosWouldMislead` | pj_base/src/semver.cpp:74-88 | two texts of one number that would compare different, had parsing not refused one |
| `SemVers.CompareFlips` | pj_base/src/semver.cpp:162-206 | comparison is antisymmetric and equality is identity of the fields |
| `SemVers.CompareTransitive` | pj_base/src/semver.cpp:162-206 | comparison is transitive |
| `SemVers.IdentifiersMeetItem11` | pj_base/src/semver.cpp:162-206 | the first identifier that differs decides, then the length |
| `SemVers.CompareMeetsItem11` | pj_base/src/semver.cpp:162-206 | precedence is that of item 11, on the numbers themselves |
| `Orderings.LexFlips` | pj_base/src/semver.cpp:106-114 | text comparison is antisymmetric |
| `Orderings.LexEqualIsSame` | pj_base/src/semver.cpp:106-114 | only a text itself compares equal to it |
| `Orderings.LexTransitive` | pj_base/src/semver.cpp:106-114 | text comparison is transitive |
| `Orderings.LexIsDictionary` | pj_base/src/semver.cpp:106-114 | one text is before another if and only if, after the characters they share, it ends or has the smaller character |
| `ParserClaimCatalog.CheckProtobufFullName` | pj_plugins/src/parser_claim_catalog.cpp:33-51 | the component loop accepts exactly the dotted identifiers |
| `ParserClaimCatalog.RosSpellingsAgree` | pj_plugins/src/parser_claim_catalog.cpp:205-243 | the short and the long spelling of a ROS 2 type have one normal form |
| `ParserClaimCatalog.RosNamesAreLong` | pj_plugins/src/parser_claim_catalog.cpp:205-243 | every accepted ROS 2 name is normalised to the long spelling |
| `ParserClaimCatalog.NormalizedIsFixed` | pj_plugins/src/parser_claim_catalog.cpp:205-243 | normalising a normal form changes nothing, for every encoding |
| `ParserClaimCatalog.ValidationSettles` | pj_plugins/src/parser_claim_catalog.cpp:71-116 | a validated claim passes validation again as it is |
| `ParserClaimCatalog.AdmitKeeps` | pj_plugins/src/parser_claim_catalog.cpp:467-504 | an accepted batch is appended whole, with identities unique and claims validated |
| `ParserClaimCatalog.AdmittedInOrder` | pj_plugins/src/parser_claim_catalog.cpp:467-504 | each claim of the batch lands in its place, normalised, with the host's provenance and generation |
| `ParserClaimCatalog.Without` | pj_plugins/src/parser_claim_catalog.cpp:532-540 | exactly the claims of other providers stay |
| `ParserClaimCatalog.WithoutKeeps` | pj_plugins/src/parser_claim_catalog.cpp:532-540 | removal keeps identities unique and claims validated |
| `ParserClaimCatalog.ApplyKeeps` | pj_plugins/src/parser_claim_catalog.cpp:467-548 | the generation rises by one if and only if the claims change |
| `ParserClaimCatalog.RunKeeps` | pj_plugins/src/parser_claim_catalog.cpp:467-548 | over every run identities stay unique and names normalised, and an unchanged generation means unchanged claims |
| `ParserClaimCatalog.ClaimCatalog.AdmitClaims` | pj_plugins/src/parser_claim_catalog.cpp:467-504 | the batch is admitted whole or the catalog is as before |
| `ParserClaimCatalog.ClaimCatalog.RemoveClaims` | pj_plugins/src/parser_claim_catalog.cpp:532-540 | the removal of a provider, reported if and only if it removed something |
| `ParserClaimCatalog.ClaimCatalog.Clear` | pj_plugins/src/parser_claim_catalog.cpp:542-548 | an empty catalog keeps its generation, any other becomes empty with a new one |
| `ParserClaimCatalog.EraseProvider` | pj_plugins/src/parser_claim_catalog.cpp:532-540 | the erasing loop keeps the others in order |
| `ClaimRules.RegisteredEncodings` | pj_plugins/src/parser_claim_catalog.cpp:21-23 | the eleven encodings |
| `ClaimRules.NamesOfEncodings` | pj_plugins/src/parser_claim_catalog.cpp:205-243 | unregistered encodings and empty names are refused, a wildcard stays, and only two encodings have rules for names |
| `ClaimRules.RosNamesExactly` | pj_plugins/src/parser_claim_catalog.cpp:216-230 | a ROS 2 name is accepted if and only if it is one of the two spellings |
| `ClaimRules.ProtobufNamesExactly` | pj_plugins/src/parser_claim_catalog.cpp:232-240 | a protobuf name is accepted if and only if it is dotted identifiers, after one leading dot at the most |
| `ClaimRules.DigestsExactly` | pj_plugins/src/parser_claim_catalog.cpp:61-69 | a digest is sha256: and 64 hexadecimal digits |
| `ClaimRules.ClaimIsTakenExactly` | pj_plugins/src/parser_claim_catalog.cpp:71-116 | every condition on a claim, and that there is no other |
| `ClaimRules.ClaimIsTakenAsItIs` | pj_plugins/src/parser_claim_catalog.cpp:71-116 | only the name of an accepted claim changes |
| `ClaimRules.BatchIsAdmittedExactly` | pj_plugins/src/parser_claim_catalog.cpp:467-504 | a batch is admitted if and only if every claim of it is valid and no identity is there already or twice in it |
| `ClaimRules.OthersStayInOrder` | pj_plugins/src/parser_claim_catalog.cpp:532-540 | removal keeps the order of the others |
| `ParserRouteResolver.PrecedesIsStrictOrder` | pj_plugins/src/parser_route_resolver.cpp:86-99 | the ranking is a strict order, total on different identities |
| `RouteRanking.ExactGoesFirst` | pj_plugins/src/parser_route_resolver.cpp:87-91 | an exact name goes before a wildcard, whatever else the claims say |
| `RouteRanking.BetterSourceGoesFirst` | pj_plugins/src/parser_route_resolver.cpp:92-94 | then bundled goes before marketplace and marketplace before a dropped folder |
| `RouteRanking.HigherPriorityGoesFirst` | pj_plugins/src/parser_route_resolver.cpp:95-97 | then the higher priority goes first |
| `RouteRanking.SmallerIdentityGoesFirst` | pj_plugins/src/parser_route_resolver.cpp:98-98 | then the provider, and then the claim, that is first in a dictionary |
| `RouteRanking.PrecedesIsOutranks` | pj_plugins/src/parser_route_resolver.cpp:86-99 | and that is all the ranking is |
| `ParserRouteResolver.CollectMatching` | pj_plugins/src/parser_route_resolver.cpp:68-84 | the filter loop collects the matching claims |
| `ParserRouteResolver.Matching` | pj_plugins/src/parser_route_resolver.cpp:68-84 | exactly the matching claims, none twice |
| `RouteRanking.LeftOutExactly` | pj_plugins/src/parser_route_resolver.cpp:68-84 | a claim is left out for another encoding, route, name, schema or pinned provider, and for nothing else |
| `RouteRanking.PinOfRoute` | pj_plugins/src/parser_route_resolver.cpp:67-67 | each route has its own pin |
| `ParserRouteResolver.SortIsRanked` | pj_plugins/src/parser_route_resolver.cpp:86-99 | whatever a sort leaves of unique identities is strictly ranked |
| `ParserRouteResolver.RankingIsUnique` | pj_plugins/src/parser_route_resolver.cpp:57-101 | two rankings of the same claims are one sequence |
| `ParserRouteResolver.AdmissionOrderIsIrrelevant` | pj_plugins/src/parser_route_resolver.cpp:57-101 | the candidates are exactly the matching claims in rank order, whatever the order of admission and the sort |
| `ParserRouteResolver.FindCached` | pj_plugins/src/parser_route_resolver.cpp:182-188 | the cache lookup finds the remembered decision |
| `RouteRanking.KeysAgreeExactly` | pj_plugins/src/parser_route_resolver.cpp:182-188 | two questions share a remembered answer if and only if claim, generation, encoding, type, schema and configuration agree |
| `RouteRanking.ConfigIsLookedUp` | pj_plugins/src/parser_route_resolver.cpp:169-180 | without a lookup every configuration is empty |
| `RouteRanking.AnswersSettle` | pj_plugins/src/parser_route_resolver.cpp:199-227 | exceptions and outcomes out of range count as errors |
| `ParserRouteResolver.WalkIsUncached` | pj_plugins/src/parser_route_resolver.cpp:169-267 | with a sound cache one resolution finds what probing every candidate would find, leaves a sound cache and probes no remembered key |
| `ParserRouteResolver.WinnerIsFirstAcceptor` | pj_plugins/src/parser_route_resolver.cpp:169-276 | the winner accepts and everyone ranked before it refuses |
| `ParserRouteResolver.SelectionRespectsPin` | pj_plugins/src/parser_route_resolver.cpp:80-82 | with a pin no other provider is ever selected |
| `ParserRouteResolver.DropProvider` | pj_plugins/src/parser_route_resolver.cpp:332-336 | exactly the decisions of other providers stay |
| `ParserRouteResolver.EraseFromCache` | pj_plugins/src/parser_route_resolver.cpp:332-336 | the erasing loop keeps the others |
| `ParserRouteResolver.FindTied` | pj_plugins/src/parser_route_resolver.cpp:280-283 | a tie is found if and only if a candidate of a later identity has the winner's policy rank |
| `ParserRouteResolver.RouteResolver.Decide` | pj_plugins/src/parser_route_resolver.cpp:182-242 | a remembered decision is used as it is; any other is probed once and remembered for its route |
| `ParserRouteResolver.RouteResolver.ProbeInOrder` | pj_plugins/src/parser_route_resolver.cpp:169-307 | the candidate loop finds, remembers and probes what the walk does |
| `ParserRouteResolver.RouteResolver.ResolveRoute` | pj_plugins/src/parser_route_resolver.cpp:103-322 | status, winner, ambiguity report and new memory of one resolution |
| `ParserRouteResolver.RouteResolver.ClearAll` | pj_plugins/src/parser_route_resolver.cpp:324-346 | a change of the catalog or of the pins forgets everything |
| `ParserRouteResolver.RouteResolver.InvalidateProviderConfig` | pj_plugins/src/parser_route_resolver.cpp:332-336 | a change of a provider's configuration forgets that provider on both routes and nothing else |
| `RouteRuns.StepKeeps` | pj_plugins/src/parser_route_resolver.cpp:324-346 | every resolution and every invalidation keeps the caches sound, also when the probe's answers change under a covering invalidation |
| `RouteRuns.CachedRefinesUncached` | pj_plugins/src/parser_route_resolver.cpp:103-346 | over every run the answers are those of a resolver that probes every time |
| `RouteRuns.ProbedAtMostOnce` | pj_plugins/src/parser_route_resolver.cpp:182-242 | no route and key is probed twice between invalidations that cover it |
| `RouteSelection.BestAcceptorWins` | pj_plugins/src/parser_route_resolver.cpp:57-322 | for any ordered catalog and any sort, the winner accepts and ranks before everyone else who does, and without a winner nobody accepts |
| `RouteSelection.BestAcceptorIsUnique` | pj_plugins/src/parser_route_resolver.cpp:86-99 | there is at most one such acceptor |
| `RouteSelection.AnswerIgnoresOrder` | pj_plugins/src/parser_route_resolver.cpp:57-101 | the same claims admitted in another order and sorted otherwise give the same status, winner and candidates |
| `RouteRanking.NobodyOutranksWinner` | pj_plugins/src/parser_route_resolver.cpp:103-322 | whoever is in the catalog, not left out and accepting is the winner or outranked by it, in the words of the claims; if somebody is, there is a winner |
| `RouteRanking.WinnerContends` | pj_plugins/src/parser_route_resolver.cpp:103-322 | the winner is in the catalog, not left out and accepting itself |
| `RouteRanking.StatusTellsWhy` | pj_plugins/src/parser_route_resolver.cpp:128-157 | the status is the reason why there is no winner, and the candidates are listed as they rank |
| `RouteRanking.ErrorsTellWhy` | pj_plugins/src/parser_route_resolver.cpp:103-180 | the three errors; a configuration fails only if everybody before it has refused |
| `RouteRanking.TiedExactly` | pj_plugins/src/parser_route_resolver.cpp:280-283 | a tie is a candidate that lost to the winner by its identity alone |
| `RouteRanking.ReportedExactly` | pj_plugins/src/parser_route_resolver.cpp:284-300 | it is reported if it was not before, for this request and winner, and nothing else is |
| `RouteSelection.SessionAnswersRightly` | pj_plugins/src/parser_route_resolver.cpp:103-346 | in every session from an empty catalog and cache, of admissions, removals, pins, reconfigurations and questions, each answer of the caching resolver names the best acceptor of its moment |
| `TimeMath.ScaleToNanoseconds` | pj_base/include/pj_base/time_math.hpp:34-42 | a value if and only if the product is representable, and then the product |
| `TimeMath.CombineSecondsAndNanos` | pj_base/include/pj_base/time_math.hpp:83-99 | a value if and only if the nanoseconds are in range and the true sum is representable |
| `TimeMath.SyntheticInstant` | pj_base/include/pj_base/time_math.hpp:102-118 | a value if and only if the row is not negative and both product and sum are representable |
| `TimeMath.FittedAxisStaysInside` | pj_base/include/pj_base/time_math.hpp:121-133 | a fitted axis keeps every row inside its range; a row has an instant if and only if its offset is an int64 |
| `TimeMath.FittedStepIsLargest` | pj_base/include/pj_base/time_math.hpp:121-133 | a fitted step is the largest with which the axis still ends by its last instant |
| `TimeMath.FallbackExactly` | pj_base/include/pj_base/time_math.hpp:121-133 | the fallback is taken with less than two rows, without a span, or for a step that is no int64 |
| `TimeMath.FittedAxisCanLoseARow` | pj_base/include/pj_base/time_math.hpp:102-133 | an axis whose last row has no instant although it would be representable |
| `SliderWindow.SplitDivision` | pj_base/include/pj_base/slider_window.hpp:21-38 | the split division is the floor of the full product, and every intermediate stays in int64 |
| `SliderWindow.ExactMonotone` | pj_base/include/pj_base/slider_window.hpp:21-38 | a handle further right never gives an earlier offset |
| `SliderWindow.SliderToWindow` | pj_base/include/pj_base/slider_window.hpp:21-38 | a window if and only if the handles are valid and all arithmetic fits, with both ends by the exact product |
| `SliderWindow.WindowsTile` | pj_base/include/pj_base/slider_window.hpp:21-38 | the windows of adjacent handles tile [min, max + 1): every instant lies in exactly one |

## Left out

- Memory order: the job's steps are interleaved under sequential consistency, one per critical section or atomic access.
- Use of the job: `onCancel`, `notifyDataset` and `armWatchdog` are called from the body's thread, `destroy` once and last; the checks of `startJob` for missing arguments are not modelled.
- The body, hooks and callbacks are steps that begin and end; that they return is assumed only where progress is proved.
- The file system is a map of artifacts and one of partials; fsync, permissions, process numbers and the clock are answers given to the model.
- The artifacts that are in the directory at the start are assumed to be valid.
- `WriteTransactions.WriteTransaction.Commit`: partials of other processes do not change while it runs, since it touches none but its own.
- `std::sort` is any function that keeps its promise; `std::filesystem` listings and `std::filesystem::space` are given answers.
- Dynamic loading, symbol provenance, vtable checks, host views and the C trampolines of the ABI.
- JSON: `ingestModuleManifest`, `decodeParserModuleManifest` and `synthesizeParserPluginClaims` are not part of this model; the catalog starts from decoded claims.
- Diagnostic text, trace entries and error messages: errors are named by their kind.
- The resolver's ambiguity key is a record of its parts; the source joins them with line breaks.
- Retained instances that the resolver hands on with its winner are not part of this model.
- `RouteRuns.CachedRefinesUncached`: the probe is a function of route and key between invalidations that cover it.
- The catalog's generation is unbounded; the source's wraps after 2^64 changes.
- The other builtin codecs are parameters of the dispatcher, so that nothing of substance is stated of their objects; packed doubles, Vector2, float fields, `toSignedTicks` and `secondsToNanoseconds` are not modelled.
- The write and decode functions of each message are functions on values; their buffer is `WireBuffers.Writer` and `WireBuffers.Reader`, their list loops are `RepeatedMessages` and `ParseAllFields`.
- `GeometryCodec.ColorBack`: a decoded channel is scaled in exact real arithmetic, without the rounding of that one product, and a NaN, which is undefined in the source, counts as zero.
- `SceneEntityDeletion::Type` is declared in a file that is not part of this model; its values are 0 for one matching id and 1 for all.
- `Sha256.Sha256`: messages of 2^61 bytes and more, whose length in bits does not fit its field.
- Views are ranges of offset and length; how long a borrowed view stays valid is not modelled.
- Round trips are stated for encodings of at most 2^64 - 1 bytes, the most a `size_t` can count.
