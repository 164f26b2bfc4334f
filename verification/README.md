# Verified model of the TaxCalc retrieval and agent services

A Dafny 4.11 model of the two Python services' cores and proofs of what they promise. `dafny verify
dfyconfig.toml` checks everything.

**Shared clients** (`McpSession`, `McpSessionClaims`, `McpSessionOnce`, `McpSessionService`,
`McpSessionHolder`, `McpSessionRuns`, `GraphOpening`, `GraphClaims`, `GraphService`, `GraphHolder`).
`Dependencies` opens the MCP session and the compiled graph lazily and shares them. What runs between two
awaits is one step; callers, serve tasks, warmup, the reconnect loop and shutdown interleave freely, every
open step may succeed, fail or be cancelled, and claims hold in every reachable state. The `Service`
modules say what each caller is given. The `Dependencies` classes carry each step out on fields and keep
them reachable.

**Semantic cache** (`CacheKeys`, `SemanticCache`, `Answers`, `RetrieveAndGenerate`, `CacheRuns`,
`CacheClaims`, `CacheAgreement`). Redis is a map with expiry. A run is a sequence of whole requests,
requests cut into lookup, generation and store, ingests, bumps and clock ticks; each slot's origin is
recorded beside it, and every generation made and dictionary returned is kept.

**Retrieval** (`StableOrder`, `Fusion`, `FusionClaims`, `FusionOrder`, `Diversity`, `Reranking`,
`Corpus`, `RepeatedChunks`, `Pipeline`). RRF, MMR and both rerankers over exact reals and one stable
sort, and their composition under the four stage flags. Retrievers return any list their WHERE clause and LIMIT allow.

**Ingest** (`Decimals`, `Chunking`, `Loading`, `Embedding`, `Reingest`). Chunk numbering and ids, the
guarded upsert with its count and rollback, the re-embed gate. Hash and encoder are any functions.

**Agent graph** (`FanIn`, `Budgets`, `Trajectories`). Plan, reducers, fan-in, threads, the request
budget under concurrent charging, the trajectory metric.

## Where the code falls short of its documentation

- "Opened at most once" (runtime.py:31-33) is false: `_session_up` and `_session_error` are never
  reset. It holds of a run exactly when the lock is never handed to a caller while the one task has
  ended or not published (`OpenedAtMostOnceIff`), that is after a failed open, after shutdown, or
  after a caller was cancelled under the lock (`ReopensIffCause`). Tasks number at most one more than
  the callers turned away (`OpenedOnce`); the runs of `McpSessionRuns` show each cause.
- `aclose` awaits only the last serve task: what stays open is exactly what the others hold
  (`CloseReleasesEverything`, `StaleErrorRun`).
- A pool whose `setup()` raises is never closed (`PoolsAccounted`, `DeadlockRun`).
- A bump invalidates the cache for whole requests only: `cache_store` re-reads the epoch, so an
  answer generated before a bump is stored under the new epoch (`StaleIff`, `StaleRunServesOldCorpus`).
- Requests that differ in filter, flags or generation model share a slot (`SettingsShareASlot`, `ServedIsOwnIff`).
- With hybrid on, `metadata_filter` and the model version bind only what the dense search found
  (`SparseOnlyEscapesFilter`). Every citation still honours them if every sparse-only hit does
  (`FilterHonouredIfSparseConforms`), which `SparseCitationIff` decides hit by hit.
- The sparse list names a chunk twice exactly when it holds it under two models
  (`SparseRepeatsIff`), which defeats agreement (`RepeatedIdBreaksAgreement`).
- Re-running an ingest is free only if every offered key comes with one text, which `chunk_docs`
  guarantees (`SecondGateEmptyIff`, `AlternatesForEver`).
- The gate skips another tenant's copy of a stored text where the loader would raise
  (`ForeignSkippedIff`), and does not refresh metadata; it leaves the ungated table exactly when no
  key flips back and none brings only new metadata (`GateExactIff`).
- The ceiling is a ceiling up to the calls in flight (`OvershootBounded`, tight by `OvershootTight`).

## Model

| member | source | states |
|---|---|---|
| `McpSessionClaims.OpenedOnce` | taxcalc-agent-svc/src/taxcalc_agent_svc/runtime.py:191-227 | over every interleaving, serve tasks number at most one more than the callers that raised, tripped the assertion or were cancelled under the lock; with no such caller there is at most one task and every returned session is the one it published |
| `McpSessionClaims.NobodyDisappointedWithoutCause` | taxcalc-agent-svc/src/taxcalc_agent_svc/runtime.py:191-264 | before shutdown, with no failed task and no caller cancelled under the lock, no caller is turned away and at most one task exists |
| `McpSessionClaims.NoLostWaiter` | taxcalc-agent-svc/src/taxcalc_agent_svc/runtime.py:214-216 | a caller waiting on the unset event holds the lock and waits for the newest task, which has neither ended nor parked |
| `McpSessionClaims.WaiterReleased` | taxcalc-agent-svc/src/taxcalc_agent_svc/runtime.py:241-264 | in every continuation, after at most 19 steps of its own task the waiter's event is set, whether the open works, is retried or fails |
| `McpSessionClaims.TaskProgress` | taxcalc-agent-svc/src/taxcalc_agent_svc/runtime.py:229-264 | a task that has not ended and is not parked awaiting shutdown always has a step |
| `McpSessionClaims.ExitDiscipline` | taxcalc-agent-svc/src/taxcalc_agent_svc/runtime.py:242-252 | what a task entered is its stack followed by what it exited, reversed: contexts leave in the entering task, newest first; at most OPEN_ATTEMPTS transports per task |
| `McpSessionClaims.CloseReleasesEverything` | taxcalc-agent-svc/src/taxcalc_agent_svc/runtime.py:304-321 | when `aclose` has awaited, its task has ended, and everything entered has been exited if and only if no other task still holds a context; so it has if one task was ever created, as when nobody was turned away |
| `McpSessionClaims.NothingOpenIff` | taxcalc-agent-svc/src/taxcalc_agent_svc/runtime.py:242-252 | everything entered has been exited if and only if every task's exit stack is empty |
| `McpSessionClaims.OutcomesJustified` | taxcalc-agent-svc/src/taxcalc_agent_svc/runtime.py:214-226 | a returned session was published by a task; a raise names a task that failed; the assertion trips only in shutdown |
| `McpSessionOnce.SecondOpenIff` | taxcalc-agent-svc/src/taxcalc_agent_svc/runtime.py:199-213 | with one task created, a caller that gets the lock creates a second if and only if the task has ended or has not published |
| `McpSessionOnce.ReopensIffCause` | taxcalc-agent-svc/src/taxcalc_agent_svc/runtime.py:212-264 | which is so if and only if its open failed, or it ended in shutdown, or it has not published and its caller was cancelled under the lock |
| `McpSessionOnce.OpenedAtMostOnceIff` | taxcalc-agent-svc/src/taxcalc_agent_svc/runtime.py:31-33 | over every run: at most one task is ever created if and only if the lock is never handed to a caller on that guard |
| `McpSessionOnce.OneSession` | taxcalc-agent-svc/src/taxcalc_agent_svc/runtime.py:191-227 | and then every caller that returns has the one session there ever was |
| `McpSessionClaims.LateOpenNeverServes` | taxcalc-agent-svc/src/taxcalc_agent_svc/runtime.py:212-226 | once the never-cleared event is set, a caller that opens again creates a task it does not wait for and raises an older task's error, or trips the assertion |
| `McpSessionService.EveryCallerServed` | taxcalc-agent-svc/src/taxcalc_agent_svc/runtime.py:191-227 | over every run without cancellations, before shutdown and a task failure: each caller is queued, waiting for the one task, or has been returned the session that task published |
| `McpSessionService.ReleasedIsServed` | taxcalc-agent-svc/src/taxcalc_agent_svc/runtime.py:214-227 | and there the step that releases a waiting caller returns it that session |
| `McpSessionService.PublishedIsReturned` | taxcalc-agent-svc/src/taxcalc_agent_svc/runtime.py:197-201 | a published session is returned at once, without the lock and under it, and no task is made |
| `McpSessionService.WakeAnswers` | taxcalc-agent-svc/src/taxcalc_agent_svc/runtime.py:214-227 | released, a caller raises the recorded error if there is one, else returns the session if there is one, else trips the assertion |
| `McpSessionService.CancelledIff` | taxcalc-agent-svc/src/taxcalc_agent_svc/runtime.py:199-226 | a caller is cancelled in the queue, or leaves its task behind, exactly by its own cancellation |
| `McpSessionService.ServingMeans` | taxcalc-agent-svc/src/taxcalc_agent_svc/runtime.py:229-264 | what every await of a serve task comes to: three successes publish, a failure retries on the same stack until the third, a lost transport or an exit that raises is a failure and its error is recorded |
| `McpSessionService.ClosingMeans` | taxcalc-agent-svc/src/taxcalc_agent_svc/runtime.py:304-321 | `aclose` signals the last task and waits for it; whether that ends or the wait is interrupted, it forgets the task, and it touches no caller |
| `McpSession.InvStep` | taxcalc-agent-svc/src/taxcalc_agent_svc/runtime.py:92-107 | the inductive invariant behind these (lock, closer, event, error, publication, counting, contexts) is kept by every step |
| `McpSession.ReachableIffSomeRun` | taxcalc-agent-svc/src/taxcalc_agent_svc/runtime.py:191-321 | the states quantified over are exactly those some finite sequence of steps leads to |
| `McpSessionHolder.Dependencies.CallSession` | taxcalc-agent-svc/src/taxcalc_agent_svc/runtime.py:197-198 | first look without the lock: a published session is returned at once, and without one the caller queues; the state stays reachable |
| `McpSessionHolder.Dependencies.EnterLock` | taxcalc-agent-svc/src/taxcalc_agent_svc/runtime.py:199-213 | second look under the lock, then a new task: a published session is returned and no task made; else a fresh task, and the caller waits for it under the lock, raises the recorded error, or trips the assertion; with one task so far, a second is created if and only if that one ended or has not published; the state stays reachable |
| `McpSessionHolder.Dependencies.Wake` | taxcalc-agent-svc/src/taxcalc_agent_svc/runtime.py:214-226 | released: raise, assert or return: raises the recorded error if there is one, returns the session if there is one, and else trips the assertion; a returned session was published, a raised error is a failed task's, the assertion means shutdown; the lock is free; the state stays reachable |
| `McpSessionHolder.Dependencies.CancelCaller` | taxcalc-agent-svc/src/taxcalc_agent_svc/runtime.py:199-226 | cancelled waiting for the lock or under it: from a reachable state the fields end exactly as the transition says, in a reachable state |
| `McpSessionHolder.Dependencies.OpenStepDone` | taxcalc-agent-svc/src/taxcalc_agent_svc/runtime.py:248-257 | a transport or client is entered, or the session published with its event: from a reachable state the fields end exactly as the transition says, in a reachable state |
| `McpSessionHolder.Dependencies.OpenStepFailed` | taxcalc-agent-svc/src/taxcalc_agent_svc/runtime.py:242-259 | an open step raises: back off or unwind: from a reachable state the fields end exactly as the transition says, in a reachable state |
| `McpSessionHolder.Dependencies.NextAttempt` | taxcalc-agent-svc/src/taxcalc_agent_svc/runtime.py:243-247 | the next attempt on the same exit stack: from a reachable state the fields end exactly as the transition says, in a reachable state |
| `McpSessionHolder.Dependencies.LeavePark` | taxcalc-agent-svc/src/taxcalc_agent_svc/runtime.py:257-258 | shutdown is noticed or the transport drops: from a reachable state the fields end exactly as the transition says, in a reachable state |
| `McpSessionHolder.Dependencies.PopContext` | taxcalc-agent-svc/src/taxcalc_agent_svc/runtime.py:242 | one context exited: what the task entered is its stack and what it exited, reversed, with at most three transports; the state stays reachable |
| `McpSessionHolder.Dependencies.ServeFinally` | taxcalc-agent-svc/src/taxcalc_agent_svc/runtime.py:258-264 | error recorded, session cleared, event set: the event is set and everything the task entered it has exited; the state stays reachable |
| `McpSessionHolder.Dependencies.StartClose` | taxcalc-agent-svc/src/taxcalc_agent_svc/runtime.py:312-317 | shutdown asks the last task to finish: from a reachable state the fields end exactly as the transition says, in a reachable state |
| `McpSessionHolder.Dependencies.EndClose` | taxcalc-agent-svc/src/taxcalc_agent_svc/runtime.py:316-320 | the awaited task ended, or the wait was interrupted: the awaited task has ended, and what is open is what other tasks hold; the state stays reachable |
| `McpSessionRuns.StaleErrorRun` | taxcalc-agent-svc/src/taxcalc_agent_svc/runtime.py:212-226 | run: after one failed open two later callers raise its error although their tasks open; two sessions are handed out; `aclose` awaits only the last task and leaves the other's transport open |
| `McpSessionRuns.ClobberRun` | taxcalc-agent-svc/src/taxcalc_agent_svc/runtime.py:260-261 | run: a failing task's `finally` clears the session a healthy task serves |
| `McpSessionRuns.AbandonedRun` | taxcalc-agent-svc/src/taxcalc_agent_svc/runtime.py:213-214 | run without failures: a caller cancelled under the lock leaves a task behind and a second one is opened |
| `McpSessionRuns.AfterCloseRun` | taxcalc-agent-svc/src/taxcalc_agent_svc/runtime.py:304-320 | run without failures: a caller after `aclose` trips the assertion and opens a task nobody awaits |
| `GraphClaims.OneGraph` | taxcalc-agent-svc/src/taxcalc_agent_svc/runtime.py:140-169 | at most one graph is published, its closer is the whole exit stack, every returning caller gets it |
| `GraphClaims.GraphNeverChanges` | taxcalc-agent-svc/src/taxcalc_agent_svc/runtime.py:146-163 | no step replaces a published graph or touches its closer |
| `GraphService.ReadyServes` | taxcalc-agent-svc/src/taxcalc_agent_svc/runtime.py:146-153 | with a published graph a caller is returned it at once, without the lock and under it; without one an arrival queues |
| `GraphService.RaisedIff` | taxcalc-agent-svc/src/taxcalc_agent_svc/runtime.py:154-169 | a caller is refused by its own third failed attempt and by nothing else |
| `GraphService.CancelledIff` | taxcalc-agent-svc/src/taxcalc_agent_svc/runtime.py:148-169 | a caller is cancelled by its own cancellation and by nothing else |
| `GraphService.BuildingMeans` | taxcalc-agent-svc/src/taxcalc_agent_svc/runtime.py:148-169 | what every await of a build comes to: pool, then `setup`, then closer and graph in place; a failure is retried under the lock until the third, and a pool it had entered is lost |
| `GraphService.LoopKeepsTrying` | taxcalc-agent-svc/src/taxcalc_agent_svc/runtime.py:281-302 | only shutdown or cancellation of its own call ends the reconnect loop: no refusal and no other caller does |
| `GraphClaims.PoolsAccounted` | taxcalc-agent-svc/src/taxcalc_agent_svc/graph.py:181-184 | pools entered minus closers pushed are the attempts that ended in `setup`, plus the one still in it; none of those pools is ever on the stack |
| `GraphOpening.InvStep` | taxcalc-agent-svc/src/taxcalc_agent_svc/runtime.py:140-169 | the inductive invariant (graph, pools, loop) is kept by every step |
| `GraphClaims.ReadinessIff` | taxcalc-agent-svc/src/taxcalc_agent_svc/app.py:124-141 | an unready state can still become ready if and only if somebody builds or is queued, or warmup is over and either traffic is not gated or the loop is alive |
| `GraphClaims.LoopGivesHope` | taxcalc-agent-svc/src/taxcalc_agent_svc/runtime.py:281-302 | a live reconnect loop is enough, warmup not being cancelled |
| `GraphClaims.Deadlock` | taxcalc-agent-svc/src/taxcalc_agent_svc/app.py:124-141 | without the loop, behind the gate, a failed warmup leaves no step at all |
| `GraphClaims.DeadlockRun` | taxcalc-agent-svc/src/taxcalc_agent_svc/app.py:175-181 | that state is reached, with three pools entered and none on the stack |
| `GraphHolder.Dependencies.Readyz` | taxcalc-agent-svc/src/taxcalc_agent_svc/app.py:160-181 | 503 exactly while no graph is published: changes nothing |
| `GraphHolder.Dependencies.ArriveCaller` | taxcalc-agent-svc/src/taxcalc_agent_svc/runtime.py:140-145 | a request arrives: returns the published graph at once, and queues without one; the state stays reachable |
| `GraphHolder.Dependencies.LookUnlocked` | taxcalc-agent-svc/src/taxcalc_agent_svc/runtime.py:146-147 | first look without the lock: returns the published graph, and queues without one |
| `GraphHolder.Dependencies.EnterLock` | taxcalc-agent-svc/src/taxcalc_agent_svc/runtime.py:148-153 | second look under the lock: returns the published graph without keeping the lock, and without one starts the first attempt under it; the state stays reachable |
| `GraphHolder.Dependencies.BuildStepDone` | taxcalc-agent-svc/src/taxcalc_agent_svc/runtime.py:161-169 | pool entered, or set up and published: a published graph's closer is the whole exit stack and the builder returns it; pools stay accounted for; the state stays reachable |
| `GraphHolder.Dependencies.BuildStepFailed` | taxcalc-agent-svc/src/taxcalc_agent_svc/runtime.py:156-167 | an attempt raises before or after its pool: pools less closers are the lost ones and the one in hand; the state stays reachable |
| `GraphHolder.Dependencies.NextAttempt` | taxcalc-agent-svc/src/taxcalc_agent_svc/runtime.py:156-160 | the next attempt: never beyond the third; the state stays reachable |
| `GraphHolder.Dependencies.CancelCaller` | taxcalc-agent-svc/src/taxcalc_agent_svc/runtime.py:148-169 | cancelled in the queue or under the lock: pools less closers are the lost ones and the one in hand; the state stays reachable |
| `GraphHolder.Dependencies.TurnLoop` | taxcalc-agent-svc/src/taxcalc_agent_svc/runtime.py:293-302 | one turn of the reconnect loop: settles only on a published graph, calls `graph()` without one, sleeps on a refusal; the state stays reachable |
| `CacheKeys.SemanticKeyInjective` | taxcalc-ai/src/taxcalc_ai/cache.py:71-75 | equal slot keys have equal tenant, epoch and digest, for every tenant id, colons and digits included |
| `CacheKeys.KeyFamiliesDisjoint` | taxcalc-ai/src/taxcalc_ai/cache.py:69-75 | no slot key is an epoch key |
| `CacheKeys.EpochKeyInjective` | taxcalc-ai/src/taxcalc_ai/cache.py:69-71 | equal epoch keys have equal tenants |
| `CacheKeys.SameBucketIsClose` | taxcalc-ai/src/taxcalc_ai/cache.py:99-101 | vectors that quantise alike differ by at most 1/100 in every dimension |
| `CacheKeys.SameBucketBoundIsTight` | taxcalc-ai/src/taxcalc_ai/cache.py:99 | the hundredth is attained |
| `CacheKeys.SameSlotIsClose` | taxcalc-ai/src/taxcalc_ai/cache.py:85-101 | one slot, digests not colliding: one tenant, one epoch, close vectors |
| `CacheKeys.RoundMeans` | taxcalc-ai/src/taxcalc_ai/cache.py:99 | quantising rounds to the nearest hundredth, and to the even one of two |
| `SemanticCache.Redis.GetEpoch` | taxcalc-ai/src/taxcalc_ai/cache.py:104-118 | reads the counter, 0 when there is none |
| `SemanticCache.Redis.BumpEpoch` | taxcalc-ai/src/taxcalc_ai/cache.py:121-137 | the epoch of the tenant is one higher; counters stay under epoch keys |
| `SemanticCache.Redis.CacheLookup` | taxcalc-ai/src/taxcalc_ai/cache.py:141-186 | the live slot of the current epoch if no citation object carries another tenant, else a miss |
| `SemanticCache.Redis.CacheStore` | taxcalc-ai/src/taxcalc_ai/cache.py:189-215 | one slot of the epoch read at the store is written, to expire after the TTL |
| `SemanticCache.EpochsMove` | taxcalc-ai/src/taxcalc_ai/cache.py:121-137 | a bump moves its tenant's epoch and nobody else's |
| `SemanticCache.StoreKeepsEpochs` | taxcalc-ai/src/taxcalc_ai/cache.py:209-215 | a store moves no epoch |
| `SemanticCache.StoreThenLookup` | taxcalc-ai/src/taxcalc_ai/cache.py:141-215 | what is stored is found, until its expiry exactly, by every vector that quantises alike |
| `SemanticCache.DefaultIsAnHour` | taxcalc-ai/src/taxcalc_ai/cache.py:67 | at the default lifetime what is stored is found for 3600 seconds and not at 3600 |
| `SemanticCache.OneForeignIsAMiss` | taxcalc-ai/src/taxcalc_ai/cache.py:164-180 | what is stored is found if and only if no citation object carries another tenant or none |
| `SemanticCache.BumpEmptiesTheTenant` | taxcalc-ai/src/taxcalc_ai/cache.py:121-137 | right after a bump the tenant misses, unless a later epoch was already written |
| `CacheRuns.RunKnown` | taxcalc-ai/src/taxcalc_ai/cache.py:141-215 | over every run of whole or cut requests, ingests, bumps and clock ticks, each slot holds what its origin says, under the key of the epoch it was stored in |
| `CacheRuns.MissGeneratesOnce` | taxcalc-ai/src/taxcalc_ai/rag.py:321-395 | a miss makes one generation, hands over its object with usage, and stores it without, for 3600 seconds, under the epoch of the store |
| `CacheRuns.HitOnlyHands` | taxcalc-ai/src/taxcalc_ai/rag.py:321-323 | a hit hands over what is stored and changes nothing else |
| `CacheClaims.ServedWithinTheHour` | taxcalc-ai/src/taxcalc_ai/cache.py:67-67 | in every run what is served was stored less than 3600 seconds ago, for the same tenant |
| `CacheClaims.HitIsForACloseVector` | taxcalc-ai/src/taxcalc_ai/cache.py:99-101 | in every run, digests not colliding, a hit was stored for a vector within 1/100 in every dimension |
| `CacheClaims.MismatchUnreachable` | taxcalc-ai/src/taxcalc_ai/cache.py:164-180 | in every run the tenant check never fires: whatever is live in the slot is served |
| `CacheClaims.BumpInvalidatesEverything` | taxcalc-ai/src/taxcalc_ai/cache.py:121-137 | in every run a bump leaves its tenant with nothing to find |
| `CacheClaims.EpochCountsBumps` | taxcalc-ai/src/taxcalc_ai/cache.py:104-137 | a tenant's epoch is the number of its bumps |
| `CacheClaims.NeverStale` | taxcalc-ai/src/taxcalc_ai/cache.py:34-39 | in every run in which no bump falls between a generation and its store, so in every run of whole requests, nothing computed before the latest bump is served |
| `CacheClaims.WholeIsClean` | taxcalc-ai/src/taxcalc_ai/rag.py:321-379 | runs of whole requests are such runs |
| `CacheClaims.StaleIff` | taxcalc-ai/src/taxcalc_ai/cache.py:209-215 | a store is served stale there and then if and only if the epoch moved since its answer was generated |
| `CacheClaims.StaleRunServesOldCorpus` | taxcalc-ai/src/taxcalc_ai/rag.py:321-379 | run: a bump during a generation, then the old corpus' answer is served to whoever asks |
| `CacheAgreement.HitAgreesWithPipeline` | taxcalc-ai/src/taxcalc_ai/rag.py:310-323 | one filter, flag set and model, clean run, no digest collision: a hit is what the pipeline made, on a corpus no older than the latest bump, of a query of the same tenant with a vector within 1/100 |
| `CacheAgreement.CurrentSeesLatestBump` | taxcalc-ai/src/taxcalc_ai/cache.py:34-39 | in every run answers computed in the current epoch saw at least the corpus of the latest bump |
| `CacheAgreement.LatestBumpSees` | taxcalc-ai/src/taxcalc_ai/cache.py:121-137 | where that corpus is the one that stood when the last bump of the run came |
| `CacheAgreement.SettingsShareASlot` | taxcalc-ai/src/taxcalc_ai/rag.py:252-257 | a query differing only in filter, flags or model is handed the other's object, whatever its own would have been |
| `CacheAgreement.ServedIsOwnIff` | taxcalc-ai/src/taxcalc_ai/rag.py:310-323 | a hit is what the asker's own request would have stored if and only if the request it came from worked out the same text, context, flag and coverage |
| `CacheAgreement.UninterruptedIsWhole` | taxcalc-ai/src/taxcalc_ai/rag.py:321-379 | a cut request with nothing in between is a whole request |
| `Answers.MissReportsItsTokens` | taxcalc-ai/src/taxcalc_ai/rag.py:381-395 | the usage block of a miss reads back its generation's input and output tokens; the object it stored reports none |
| `Answers.ReturnedMeans` | taxcalc-ai/src/taxcalc_ai/rag.py:365-395 | the returned dictionary field by field: text, flag, each coverage count under its own name, input and output tokens under theirs, and no other field |
| `CacheAgreement.HitReportsNothing` | taxcalc-ai/src/taxcalc_ai/rag.py:321-323 | what a lookup finds has no usage block and reports zero tokens |
| `CacheAgreement.UsageConserved` | taxcalc-ai/src/taxcalc_ai/rag.py:381-395 | over every run, the tokens of all generations made are those read off the usage blocks of the dictionaries returned (hits included), those of requests that died, and those of requests under way |
| `CacheAgreement.WholeRequestsReportEverything` | taxcalc-ai/src/taxcalc_ai/rag.py:381-395 | with whole requests the returned dictionaries report exactly the tokens of the generations made |
| `CacheAgreement.NoStoredUsage` | taxcalc-ai/src/taxcalc_ai/rag.py:365-395 | no hit carries a usage block |
| `Answers.Body` | taxcalc-ai/src/taxcalc_ai/rag.py:365-378 | the stored object has no usage field and its citations carry the tenant it is stored for |
| `Answers.CitationsAreTheContext` | taxcalc-ai/src/taxcalc_ai/rag.py:365-375 | the stored citations are the reranked context in order, each with its id, text, score and the tenant |
| `Answers.BodyDetermines` | taxcalc-ai/src/taxcalc_ai/rag.py:365-378 | a stored object determines everything it was made of but the usage |
| `RetrieveAndGenerate.RetrieveAndGenerate` | taxcalc-ai/src/taxcalc_ai/rag.py:245-409 | embeds the text, asks the cache, the two searches as the flags say, the generator: a hit returns the stored object and writes nothing; a failing reranker writes nothing; a miss returns the generator's first text block (or the empty text), the flag, each coverage count, each token count and the context's citations under their names, and the next lookup finds that object without its usage |
| `RetrieveAndGenerate.PromptAround` | taxcalc-ai/src/taxcalc_ai/rag.py:225-242 | every context text stands in the prompt under its number from 1, after the instruction or the passage before it, and the question follows the last |
| `Fusion.RrfFuse` | taxcalc-ai/src/taxcalc_ai/hybrid.py:203-217 | the two loops over the dicts and the stable sort compute the specified fusion: summed reciprocal ranks, first-seen order for ties, dense text over sparse, cut |
| `FusionClaims.AgreementWins` | taxcalc-ai/src/taxcalc_ai/hybrid.py:203-217 | distinct ids, equal positive weights, lists of at most k_const + 1: a document in both lists outscores every document in one |
| `FusionClaims.AgreementIff` | taxcalc-ai/src/taxcalc_ai/hybrid.py:66-76 | for list length n that holds of all such lists if and only if n <= k_const + 1 |
| `FusionClaims.TieRun` | taxcalc-ai/src/taxcalc_ai/hybrid.py:203-217 | at k_const + 2 an agreed document can tie with a lone one |
| `RepeatedChunks.RepeatedIdBreaksAgreement` | taxcalc-ai/src/taxcalc_ai/hybrid.py:166-174 | a corpus with one chunk under two other models, and answers both searches may give of it, on which that chunk outscores one in both lists at the shipped constants |
| `FusionOrder.StartsWithIntersection` | taxcalc-ai/src/taxcalc_ai/hybrid.py:203-217 | under the agreement condition the fused list starts with exactly the intersection, if the cut has room |
| `FusionOrder.ShippedConstantsKeepAgreement` | taxcalc-ai/src/taxcalc_ai/hybrid.py:66-76 | lists of 50, k 60, cut 60: it starts with the intersection and truncation drops no agreed document |
| `FusionOrder.AheadInBothPrecedes` | taxcalc-ai/src/taxcalc_ai/hybrid.py:203-217 | ahead in both lists is ahead in the fused list |
| `FusionOrder.TiesGoDenseFirst` | taxcalc-ai/src/taxcalc_ai/hybrid.py:203-217 | a tie goes to the document seen first, dense before sparse |
| `FusionOrder.BetterScorePrecedes` | taxcalc-ai/src/taxcalc_ai/hybrid.py:216 | a document with a better score stands before one that made the cut |
| `FusionOrder.FusedIdsDistinct` | taxcalc-ai/src/taxcalc_ai/hybrid.py:203-217 | no id twice, whatever the lists repeat |
| `FusionOrder.FusedIdsListed` | taxcalc-ai/src/taxcalc_ai/hybrid.py:203-217 | every fused hit is some list's, with its text and score |
| `FusionOrder.FusedTexts` | taxcalc-ai/src/taxcalc_ai/hybrid.py:206-215 | a fused hit carries the dense list's text of its id, and the sparse list's only if the dense list lacks it |
| `FusionOrder.ScoreMeans` | taxcalc-ai/src/taxcalc_ai/hybrid.py:66-76 | at the shipped constants rank r of a list is worth 1/(60 + r), summed over the two lists |
| `FusionOrder.EmptySparseKeepsOrder` | taxcalc-ai/src/taxcalc_ai/rag.py:336-344 | fusing a dense list of distinct ids with nothing keeps its order |
| `FusionOrder.ScoresConserved` | taxcalc-ai/src/taxcalc_ai/hybrid.py:206-210 | before the cut the scores sum to the two weighted harmonic sums, whatever the overlap |
| `FusionOrder.CoveragePartitions` | taxcalc-ai/src/taxcalc_ai/hybrid.py:255-265 | the three counts add up to the number of fused candidates before the cut; the ratio lies in [0, 1] |
| `FusionOrder.CoverageMeans` | taxcalc-ai/src/taxcalc_ai/hybrid.py:255-266 | each count by its name, and ratio times union is the agreement, 0 for two empty lists |
| `StableOrder.LeadingIsPrefix` | taxcalc-ai/src/taxcalc_ai/rerank.py:321-328 | a descending, stable, leading choice of positions is a prefix of the sorted order: the sort used everywhere is unique |
| `Diversity.MmrIndices` | taxcalc-ai/src/taxcalc_ai/rerank.py:219-237 | the nested loops over `picked` and `remaining` pick min(k, n) candidates, each the lowest-numbered maximiser of the objective among those left |
| `Diversity.BestOf` | taxcalc-ai/src/taxcalc_ai/rerank.py:222-235 | the inner scan finds the lowest-numbered maximiser |
| `Diversity.DotOfConcat` | taxcalc-ai/src/taxcalc_ai/rerank.py:217-226 | similarity is additive over dimensions wherever the vectors are cut, and of one dimension the product (`DotOfOne`) |
| `Diversity.ObjectiveMeans` | taxcalc-ai/src/taxcalc_ai/rerank.py:222-235 | the first pick maximises similarity, each later one 0.7 of it less 0.3 of the largest similarity to a pick |
| `Diversity.RestShrinks` | taxcalc-ai/src/taxcalc_ai/rerank.py:236-237 | `remaining` stays the ascending complement of `picked` |
| `Diversity.MmrPick` | taxcalc-ai/src/taxcalc_ai/rerank.py:197-248 | min(k, n) candidates, scores untouched, at a greedy choice over the encoded texts at lambda 0.7: each the lowest-numbered best of those left |
| `Diversity.GreedyDistinct` | taxcalc-ai/src/taxcalc_ai/rerank.py:219-237 | no candidate is picked twice |
| `Diversity.GreedyPrefix` | taxcalc-ai/src/taxcalc_ai/rerank.py:219-237 | greedy answers of two lengths are prefixes of one another |
| `Diversity.PicksNest` | taxcalc-ai/src/taxcalc_ai/rerank.py:219-237 | the picks for k are a prefix of those for any larger k |
| `Diversity.LambdaOneIsTopK` | taxcalc-ai/src/taxcalc_ai/rerank.py:131-134 | at lambda 1 the picks are the stable descending top by similarity |
| `Diversity.CopyLosesIff` | taxcalc-ai/src/taxcalc_ai/rerank.py:225-232 | at lambda 0.7, unit vectors: a copy of an earlier pick loses to c exactly when its lead is below (3/7)(1 - maxsim(c)) |
| `Diversity.CopyNotTakenAheadOf` | taxcalc-ai/src/taxcalc_ai/rerank.py:221-237 | and then it is not taken while c is left |
| `Reranking.FlagMeansFallback` | taxcalc-ai/src/taxcalc_ai/rerank.py:307-319 | either backend: the flag is set exactly when the reranker was late, failed or answered nothing usable, and then the incoming order stands untouched |
| `Reranking.FailsIff` | taxcalc-ai/src/taxcalc_ai/rerank.py:365-413 | a rerank raises exactly on an unknown backend or, with candidates, a missing credential |
| `Reranking.RerankWithin` | taxcalc-ai/src/taxcalc_ai/rerank.py:497-520 | at most top_k results, each a candidate with at most its score replaced |
| `Reranking.LocalRanking` | taxcalc-ai/src/taxcalc_ai/rerank.py:497-520 | the dispatch, local model within 300 ms: its best candidates first with its scores, ties as they came, unflagged |
| `Reranking.HostedRanking` | taxcalc-ai/src/taxcalc_ai/rerank.py:497-520 | the dispatch, usable hosted reply: the best kept rows' candidates with the vendor's scores, unflagged |
| `Reranking.BgeIsTop` | taxcalc-ai/src/taxcalc_ai/rerank.py:321-337 | in time: best first, ties as they came, none better left out, the model's scores |
| `Reranking.KeptIff` | taxcalc-ai/src/taxcalc_ai/rerank.py:438-445 | the hosted reply's rows naming a document that was sent are kept, each as often as it came, and no others |
| `Reranking.CohereIsTop` | taxcalc-ai/src/taxcalc_ai/rerank.py:480-494 | usable reply: the kept rows' candidates, best score first, ties as they came, none better left out, the vendor's scores |
| `Reranking.DistinctIffOncePerIndex` | taxcalc-ai/src/taxcalc_ai/rerank.py:434-494 | with room for every kept row, the hosted answer repeats nothing if and only if no row repeats a position |
| `Reranking.RerankDistinct` | taxcalc-ai/src/taxcalc_ai/rerank.py:252-494 | distinct candidates stay distinct, given that |
| `Corpus.DenseIdsDistinct` | taxcalc-ai/src/taxcalc_ai/hybrid.py:123-131 | the tenant and model filters make dense ids distinct |
| `Corpus.SparseRepeatsIff` | taxcalc-ai/src/taxcalc_ai/hybrid.py:166-171 | the sparse list repeats an id if and only if it holds one chunk under two models |
| `Corpus.PassesIff` | taxcalc-ai/src/taxcalc_ai/hybrid.py:126-129 | a row passes a filter if and only if merging the filter into its metadata changes nothing; every row passes no filter |
| `Pipeline.BuildContext` | taxcalc-ai/src/taxcalc_ai/rag.py:325-351 | the searches are asked with the vector, tenant, filter and text the flags call for; the stages then compute the specified context |
| `Pipeline.StageSizes` | taxcalc-ai/src/taxcalc_ai/rag.py:336-347 | 60 fused documents at most, of which at most 20 reach the reranker; with hybrid off up to 60 dense hits are carried on as they are |
| `Pipeline.AgreedReachMmr` | taxcalc-ai/src/taxcalc_ai/rag.py:336-344 | for two lists of at most 50 distinct ids the merged list starts with exactly the ids both hold |
| `Pipeline.SixFromTheRetrievers` | taxcalc-ai/src/taxcalc_ai/rag.py:325-351 | for all flags: at most 6 citations, each a chunk and text one of the used lists returned |
| `Pipeline.CitationsDistinct` | taxcalc-ai/src/taxcalc_ai/rag.py:325-351 | for all flags: no id twice, for distinct dense ids and a reply naming each candidate at most once |
| `Pipeline.TimedOutIsMmrSix` | taxcalc-ai/src/taxcalc_ai/rag.py:345-349 | a rerank without a say after MMR leaves `mmr_pick` with k = 6 |
| `Pipeline.HeadOfMerged` | taxcalc-ai/src/taxcalc_ai/rag.py:336-351 | without MMR and a rerank's say: the first 6 of the merged list, with hybrid off the first 6 dense hits untouched |
| `Pipeline.FilterHonouredWithoutHybrid` | taxcalc-ai/src/taxcalc_ai/hybrid.py:123-131 | hybrid off: every citation is a row of the tenant and model that passes the metadata filter, when the filter flag is on |
| `Pipeline.FilterHonouredForDense` | taxcalc-ai/src/taxcalc_ai/rag.py:325-344 | hybrid on: so is every citation the dense list holds too |
| `Pipeline.MatchHonouredForSparse` | taxcalc-ai/src/taxcalc_ai/hybrid.py:166-171 | hybrid on: every citation the dense list lacks is a row of the tenant whose text matches the question |
| `Pipeline.FilterHonouredIfSparseConforms` | taxcalc-ai/src/taxcalc_ai/rag.py:325-351 | for all flags and reranker answers: if every hit only the lexical search found is such a row, every citation is |
| `Pipeline.SparseCitationIff` | taxcalc-ai/src/taxcalc_ai/hybrid.py:123-171 | a citation of the i-th sparse hit is such a row if and only if its document and index are stored under the model with that text, tenant and metadata |
| `Pipeline.AlwaysCitesIff` | taxcalc-ai/src/taxcalc_ai/rag.py:345-351 | reranking on: only such rows are cited whatever the reranker answers if and only if all its candidates are such rows |
| `Pipeline.SparseOnlyEscapesFilter` | taxcalc-ai/src/taxcalc_ai/hybrid.py:166-171 | hybrid on: a corpus and answers where the one citation fails the filter and the model |
| `Pipeline.TenantAlwaysHonoured` | taxcalc-ai/src/taxcalc_ai/rag.py:325-351 | for all flags: every citation is a row of the requesting tenant |
| `Chunking.OrdinalRoundTrip` | taxcalc-agent-svc/evals/trajectory.py:520-530 | the parser recovers the ordinal the printer wrote, for every document id and ordinal |
| `Chunking.OrdinalReads` | taxcalc-agent-svc/evals/trajectory.py:520-530 | of any id: the digits after the last mark, and 0 when what follows is no number (without prefix or mark: `OrdinalDefaults`) |
| `Chunking.ChunkIdInjective` | taxcalc-ai/src/taxcalc_ai/chunker.py:74-86 | chunk ids determine document and ordinal |
| `Chunking.StampChunks` | taxcalc-ai/src/taxcalc_ai/chunker.py:142-152 | the counting loop writes to every chunk its document id, the number of that document's earlier chunks and the chunk id of the two, and leaves text, tenant and the rest |
| `Chunking.NumberedPerDocument` | taxcalc-ai/src/taxcalc_ai/chunker.py:142-152 | the chunks of one document bear ordinals 0, 1, 2, ... and the chunk ids `chunk-<doc>-p0`, ...; nothing else of them changes |
| `Chunking.NumberedBears` | taxcalc-ai/src/taxcalc_ai/chunker.py:142-152 | the i-th chunk bears as ordinal how many earlier chunks have its document id, the fallback id when it has none (`OfCounts`: as many as the positions that hold one) |
| `Chunking.OthersDoNotRenumber` | taxcalc-ai/src/taxcalc_ai/chunker.py:142-152 | changing other documents renumbers nothing of this one |
| `Chunking.KeysDistinct` | taxcalc-ai/src/taxcalc_ai/chunker.py:142-152 | no two chunks of a run share document and ordinal, or id |
| `Loading.Database.LoadRows` | taxcalc-ai/src/taxcalc_ai/pgvector_loader.py:136-180 | row by row, count, commit or roll back: the whole fold and its length, or the table as it was and the error with the number of rows that claim another tenant's key |
| `Loading.AllCountIff` | taxcalc-ai/src/taxcalc_ai/pgvector_loader.py:99-108 | every row counts if and only if no key of the batch belongs to another tenant, in the table or within the batch |
| `Loading.SuppressedAreClaims` | taxcalc-ai/src/taxcalc_ai/pgvector_loader.py:99-108 | the rows the guard suppresses are as many as those whose key is held by another tenant, in the table or by whoever sent it first in the batch |
| `Loading.LoadedColumns` | taxcalc-ai/src/taxcalc_ai/pgvector_loader.py:99-108 | an owned batch leaves under a key each column of the last row sent for it, but the first arrival time |
| `Loading.LoadedAt` | taxcalc-ai/src/taxcalc_ai/pgvector_loader.py:99-108 | an owned batch leaves under each key the last row sent for it, with the first arrival time, or what was there |
| `Loading.ReloadChangesNothing` | taxcalc-ai/src/taxcalc_ai/pgvector_loader.py:111-180 | a successful load again, later, repeated keys included: same result, same table |
| `Loading.OwnerNeverChanges` | taxcalc-ai/src/taxcalc_ai/pgvector_loader.py:99-108 | over every sequence of loads a key keeps its tenant and arrival time and is never deleted |
| `Embedding.EmbedPending` | taxcalc-ai/src/taxcalc_ai/embedder.py:164-217 | gate, encode, load: result and table as specified |
| `Embedding.GateRefinesIff` | taxcalc-ai/src/taxcalc_ai/embedder.py:139-150 | injective hash, true hashes, owned keys: gated and ungated ingest agree on all but metadata if and only if no key is offered whose last text is stored and whose earlier texts differ |
| `Embedding.GateRefines` | taxcalc-ai/src/taxcalc_ai/embedder.py:139-150 | with distinct keys they always agree |
| `Embedding.EmbedKeeps` | taxcalc-ai/src/taxcalc_ai/embedder.py:185-217 | every ingest keeps stored hashes and vectors true to the texts |
| `Reingest.SecondGateEmptyIff` | taxcalc-ai/src/taxcalc_ai/embedder.py:185-191 | after a success the same gate is empty if and only if every offered key comes with one text |
| `Reingest.ReingestWritesNothing` | taxcalc-ai/src/taxcalc_ai/embedder.py:93-116 | chunk, gate, embed, load, twice: the second time nothing is written |
| `Reingest.IngestStores` | taxcalc-ai/src/taxcalc_ai/embedder.py:185-217 | after an owned ingest with one text per key every candidate is stored under its key with its text, its vector, its hash and its tenant |
| `Reingest.CandidateMeans` | taxcalc-ai/src/taxcalc_ai/embedder.py:93-116 | a chunk's candidate field by field, with the fallbacks for document, index and tenant |
| `Reingest.MetadataSurvives` | taxcalc-ai/src/taxcalc_ai/embedder.py:93-116 | every metadata key of a chunk is in its candidate's metadata with its value |
| `Reingest.AlternatesForEver` | taxcalc-ai/src/taxcalc_ai/embedder.py:139-150 | two texts under one key: in every sequence of ingests the stored text alternates, one row written each time |
| `Reingest.ForeignCopySkipped` | taxcalc-ai/src/taxcalc_ai/embedder.py:139-150 | another tenant's candidate with the stored text is skipped where the ungated load raises |
| `Reingest.ForeignSkippedIff` | taxcalc-ai/src/taxcalc_ai/embedder.py:139-150 | distinct keys: the gated ingest succeeds where the ungated one raises if and only if some key is another tenant's and all such keys hold the offered text |
| `Reingest.MetadataNotRefreshed` | taxcalc-ai/src/taxcalc_ai/embedder.py:139-150 | new metadata for the same text is not written |
| `Reingest.GateExactIff` | taxcalc-ai/src/taxcalc_ai/embedder.py:139-150 | injective hash, true hashes, owned keys: gated and ungated ingest leave the very same table, metadata included, if and only if no key flips back to a stored text and no key's last candidate brings new metadata for one |
| `Reingest.GateFailsIff` | taxcalc-ai/src/taxcalc_ai/embedder.py:185-217 | a gated ingest fails exactly when a pending key is another tenant's, leaving the table, and only if the ungated one would |
| `Budgets.BudgetGuard.Make` | taxcalc-agent-svc/src/taxcalc_agent_svc/budgets.py:65-76 | a ceiling that is not positive is refused |
| `Budgets.BudgetGuard.CheckOrRaise` | taxcalc-agent-svc/src/taxcalc_agent_svc/budgets.py:94-110 | raises exactly when the tally has reached the ceiling |
| `Budgets.BudgetGuard.RecordUsage` | taxcalc-agent-svc/src/taxcalc_agent_svc/budgets.py:137-154 | adds the price of the two counts, 300 and 1500 units per thousand, less a fraction of a unit |
| `Budgets.BudgetGuard.RecordCall` | taxcalc-agent-svc/src/taxcalc_agent_svc/budgets.py:112-135 | a response without usage adds nothing; one with usage its price, less a fraction of a unit |
| `Budgets.CostMeans` | taxcalc-agent-svc/src/taxcalc_agent_svc/budgets.py:40-41 | a thousand input tokens cost 300, a thousand output tokens 1500, and less than one unit is dropped |
| `Budgets.AdmittedIff` | taxcalc-agent-svc/src/taxcalc_agent_svc/budgets.py:94-154 | a step admits a call exactly when it is a check below the ceiling with a slot free; only a charge changes the tally; calls admitted are those under way, charged or failed |
| `Budgets.OvershootBounded` | taxcalc-agent-svc/src/taxcalc_agent_svc/budgets.py:94-154 | over every interleaving of at most m calls of at most C: spent <= ceiling - 1 + m * C |
| `Budgets.OvershootTight` | taxcalc-agent-svc/src/taxcalc_agent_svc/budgets.py:94-154 | attained, for every C >= 1, by calls of at most C |
| `Budgets.AdmissionsBounded` | taxcalc-agent-svc/src/taxcalc_agent_svc/budgets.py:94-110 | every charge at least one unit: at most ceiling + m - 1 calls admitted, failed ones apart |
| `Budgets.TruncationDrift` | taxcalc-agent-svc/src/taxcalc_agent_svc/budgets.py:121-125 | over n charges the tally is never above the exact price and at most n * 999/1000 units below |
| `Budgets.FreeIff` | taxcalc-agent-svc/src/taxcalc_agent_svc/budgets.py:152-154 | a call costs nothing exactly when it answers nothing and reads at most 3 tokens |
| `Budgets.FreeCallsNeverTrip` | taxcalc-agent-svc/src/taxcalc_agent_svc/budgets.py:104-110 | such calls never trip the guard |
| `FanIn.Supervisor` | taxcalc-agent-svc/src/taxcalc_agent_svc/graph.py:97-109 | the appended targets are the plan |
| `FanIn.Plan` | taxcalc-agent-svc/src/taxcalc_agent_svc/graph.py:97-109 | never empty; api exactly for api words; retrieval for all but pure api questions, and first; never synthesis |
| `FanIn.PlanRoutes` | taxcalc-agent-svc/src/taxcalc_agent_svc/graph.py:79-109 | routing by the keywords themselves, as substrings: both workers, api alone, or retrieval |
| `FanIn.MergeAssociates` | taxcalc-agent-svc/src/taxcalc_agent_svc/state.py:79-100 | merging is associative |
| `FanIn.NoneIsUnit` | taxcalc-agent-svc/src/taxcalc_agent_svc/state.py:91-100 | None acts as the empty mapping, the unit |
| `FanIn.MergeIsRightBiased` | taxcalc-agent-svc/src/taxcalc_agent_svc/state.py:79-100 | all keys survive and the newer value wins |
| `FanIn.MergeCommutesIff` | taxcalc-agent-svc/src/taxcalc_agent_svc/state.py:79-100 | two contributions commute if and only if they agree on shared keys |
| `FanIn.LastWriterWins` | taxcalc-agent-svc/src/taxcalc_agent_svc/state.py:79-100 | over a whole super-step a tool's result is that of its last writer, and unnamed tools keep theirs |
| `FanIn.CompletionOrderIrrelevant` | taxcalc-agent-svc/src/taxcalc_agent_svc/state.py:125-144 | applied in plan order at fan-in, the merged state is the same for every completion order |
| `FanIn.EitherOrderIff` | taxcalc-agent-svc/src/taxcalc_agent_svc/state.py:125-144 | two contributions may be merged in either order if and only if their documents and visits commute, their shared tools agree, and they do not answer differently |
| `FanIn.CompletionOrderWouldMatter` | taxcalc-agent-svc/src/taxcalc_agent_svc/state.py:125-144 | applied as they finish, two workers would leave different states, though the same cost |
| `FanIn.RunVisits` | taxcalc-agent-svc/src/taxcalc_agent_svc/graph.py:128-139 | every run appends its plan and then synthesis once |
| `FanIn.ThreadAccumulates` | taxcalc-agent-svc/src/taxcalc_agent_svc/state.py:125-144 | n runs on one thread: summed cost, concatenated documents and visits, the last answer |
| `FanIn.RunMatchesItsPlan` | taxcalc-agent-svc/evals/trajectory.py:275-292 | the trajectory of a run embeds its plan and synthesis, whatever the thread did before |
| `FanIn.OnlyThePlanMatches` | taxcalc-agent-svc/evals/trajectory.py:275-292 | a trajectory of as many nodes matches the plan and synthesis if and only if it is that sequence |
| `FanIn.SynthesisFirstFails` | taxcalc-agent-svc/evals/trajectory.py:260-292 | synthesis before its evidence does not match |
| `Trajectories.TrajectoryMatch` | taxcalc-agent-svc/evals/trajectory.py:260-292 | 1.0 exactly when an order-preserving embedding exists |
| `Trajectories.ConsumesIffEmbeds` | taxcalc-agent-svc/evals/trajectory.py:289-292 | one pass of the shared iterator finds an embedding if there is one |
| `Trajectories.SameLengthMatchesIff` | taxcalc-agent-svc/evals/trajectory.py:275-292 | a trajectory as long as the golden one matches if and only if it is the golden one |

## Left out

- McpSessionClaims.WaiterReleased: counts the task's own steps; that the event loop schedules the task is not modelled.
- GraphClaims.ReadinessIff: says a way to readiness exists, not that it is taken; build outcomes are free.
- CacheClaims.NeverStale: `cache_lookup`'s two reads are one step, as are `cache_store`'s read and write; a bump between an epoch read and the GET after it is not modelled.
- CacheClaims.HitIsForACloseVector: the int32 cast of the quantised vector is taken as exact, which it is for unit vectors.
- RetrieveAndGenerate.RetrieveAndGenerate: JSON is taken to survive its round trip; the two searches and the generator are functions of what they are asked, so a corpus or model that changes within one request is not modelled, nor are tracing and logging.
- Answers.Body: token counts a response does not carry are unknown to the model as to the code.
- Fusion.RrfFuse: scores are exact reals; negative `k_const` and `top_k` are not modelled.
- Diversity.MmrIndices: similarities are exact finite reals; the encoder is a function of the text into vectors of the query's dimension.
- Reranking.FlagMeansFallback: a hosted reply that is not JSON, or a row without a score, raises in the code and is not modelled; the sort of the kept rows is on values, not in place.
- Corpus.DenseIdsDistinct: chunk indices are natural numbers, metadata is flat strings, ranking and LIMIT are any choice of rows.
- Loading.Database.LoadRows: one connection at a time; concurrent transactions, deadlocks and connection failures are not modelled.
- Chunking.OrdinalRoundTrip: `str.isdigit` is taken on ASCII digits.
- FanIn.Supervisor: takes the lower-cased question; the plan's nodes are their writes.
- FanIn.ThreadAccumulates: `messages` and its reducer belong to the graph library; failed runs are not part of a thread.
- The text splitter, SQL planning, approximate search, text ranking and the cross-encoder's arithmetic: library code.
- Retry timing, back-off lengths and deadlines: steps may come at any time.
- `resolve_reranker`'s spelling of backend names, the stage flags' environment parsing, the evaluation's cost and RAGAS gates, settings, the SSE bridge, the web client and the deployment files: short field checks or I/O, which would add only easy members.
