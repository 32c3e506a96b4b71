# Verified model of the gateway core

This directory holds a Dafny 4.11 model of the stateful and arithmetic parts of the Cursor gateway, and proofs about them.
`dafny verify dfyconfig.toml` checks everything.

What is modelled, file by file of the gateway:

- `src/executor-warmup.ts`: the lease protocol as a step machine (`ExecutorWarmup.dfy`), with one step from one await point
  to the next and prewarms, releases and timeouts landing nondeterministically; its invariant over all interleavings
  (`ExecutorWarmupProofs.dfy`, `ExecutorHazard.dfy`); how long a recycled key stays cold (`CooldownTable.dfy`,
  `ExecutorCooldown.dfy`, `CooldownHazards.dfy`); and the class itself, each method shown to take a step of the machine
  (`ExecutorWarmPool.dfy`).
- `src/session-hub.ts`: the ticket lock (`SessionLock.dfy`, `SessionLockHazard.dfy`); the slots, holds, deadlines and eviction
  (`SessionHub.dfy`, `SessionHubProofs.dfy`, `SessionHubSteps.dfy`, `SessionHubHazards.dfy`), the class with its maps
  (`SessionHubClass.dfy`); tool-call ids, their aliases and their way back to a hold (`Text.dfy`, `ToolCallIds.dfy`,
  `HoldAliases.dfy`, `HoldLookup.dfy`, `HubAliases.dfy`, `HubLookup.dfy`).
- `src/routing.ts`, `src/key-pool.ts`, `src/key-rotating-runner.ts`: scope algebra (`Routing.dfy`), weighted round robin
  (`WeightedPick.dfy`), key selection (`KeyPool.dfy`), rotation shares across the wrap of the cursor (`CursorWrap.dfy`,
  `RotationSteps.dfy`, `RotationShares.dfy`), failure accounting over runs (`KeyAccounting.dfy`), the pool class
  (`CursorKeyPool.dfy`), and the rotation loop around an arbitrary upstream (`KeyRotation.dfy`, `KeyRotatingRunner.dfy`).
- `src/agent-store.ts`: the in-memory and the SQL store on values (`AgentStore.dfy`), the simulation between them
  (`AgentStoreProofs.dfy`, `AgentStoreTheorems.dfy`, `AgentStoreListings.dfy`), both as classes (`AgentStoreClasses.dfy`);
  pages and run-event offsets (`Pagination.dfy`, `Decimal.dfy`, `RunEvents.dfy`, `Sorting.dfy`).
- `src/server.ts`, `src/protocol.ts`: the event grammars of both streamed APIs, defined independently of the encoder
  functions, and the encoders proved to speak them for every event list (`CallIds.dfy`, `KeptCallIds.dfy`,
  `ResponsesWire.dfy`, `ResponsesState.dfy`, `ResponsesEncoder.dfy`, `AnthropicStream.dfy`, `AnthropicBlocks.dfy`).
- `src/model-params.ts`: merging intents (`ModelIntent.dfy`), the text form of parameters (`ModelParamSpec.dfy`), and the
  resolution with its repair of illegal pairs (`ModelParams.dfy`, `ModelResolve.dfy`).

State that the gateway updates in place is a class whose methods are proved equal to a function on values; what the gateway
promises is then proved about that function, over whole runs where the promise is about runs.

Some promises hold only under a condition. Each such condition is proved to be needed, by an equivalence or by a run that
gets to the failure:

- a `warm` that resumes after waiting for a retiring lease must not overwrite a live lease under its key
  (`ExecutorWarmupProofs.OverwriteLosesHandle`, and `ExecutorHazard.OverwriteIsReached` for a run that does);
- a recycled key stays cold for its cooldown exactly as long as its entry is in the cooldown table and no `warm` suspended on a
  retiring lease of it may resume (`ExecutorCooldown.RecycledStaysColdExactlyWhen`; `EntryLeavesExactlyWhen` for the entry,
  and `CooldownHazards` for a run to each of the two ends);
- the abort of the last waiter of a session lock lets a newcomer in beside the current holder
  (`SessionLock.AbortedLastWaiterBreaksExclusion`, `SessionLockHazard.TwoHoldersAreReached`);
- registering a pending id again, or replacing a slot with pending holds, loses calls; a timer left over from a replaced slot
  drops the new one (`SessionHubSteps.SecondRegistrationLosesCall`, `OverwritingPutLosesCalls`, `StaleTimerDropsRunningSlot`,
  and the runs of `SessionHubHazards`);
- the id shown for a hung call leads back to it exactly if that call answers to it (`HoldLookup.FindsExactlyWhen`); it finds
  some call as long as no call is settled that had taken over an alias of another pending one
  (`HubLookup.StepKeepsCompleteExactlyWhen`);
- an intersection of scopes is exact up to blank allow lists and the sentinel model name (`Routing.IntersectionLaw`);
- the two agent stores differ exactly when a run is written under an id another agent holds
  (`AgentStoreTheorems.StepRefines`);
- pages can be followed exactly when every inner page ends with an id that finds itself (`Pagination.WalkExactlyWhen`), run
  events while their number has at most twelve digits (`RunEvents.OffsetsOrderedExactlyBelow`);
- a cycle of the weighted rotation inside which the cursor wraps is fair to a key exactly if the draws after the wrap give it
  what counting on would have given it (`RotationShares.RotationIsFairExactlyWhen`);
- the ids of one response are distinct exactly if the suffixes its calls kept from earlier responses differ from each other
  and from those given to its new calls (`KeptCallIds.DistinctExactlyWhen`);
- an explicitly requested Max Mode context survives the repair exactly unless its parameter is also the fast one
  (`ModelResolve.MaxModeContextStays`);
- formatted parameters parse back exactly when they are clean (`ModelParamSpec.RoundTrip`).

Two small differences between code and intent show in the contracts. A configured limit between zero and one is floored to
zero: the agent store then keeps the agent written last, and the rotation makes no call or takes one soft failure. And an Anthropic stream
whose text or calls arrive only in the final result shows no block for them, unlike the Responses stream.

## Model

| member | source | states |
|---|---|---|
| ExecutorWarmupProofs.StepKeeps | src/executor-warmup.ts:112-275 | every step of the lease protocol, from one await point to the next, keeps the invariant: references in range, one live release call per lease, settle tasks that report success truthful, no handle without a holder, sweeps covered |
| ExecutorWarmupProofs.HandleIsNeverLost | src/executor-warmup.ts:112-275 | in every run in which no resumed `warm` overwrites a live lease, an obtained release handle is in `leases`, in `orphans`, with an unfinished settle, or was released |
| ExecutorWarmupProofs.ReleaseIsSingleFlight | src/executor-warmup.ts:240-264 | a second release call of a lease exists only after the first was rejected |
| ExecutorWarmupProofs.ReleaseAllReportsHonestly | src/executor-warmup.ts:184-206 | if every awaited task succeeded, each collected lease was released or never got a handle |
| ExecutorWarmupProofs.OverwriteLosesHandle | src/executor-warmup.ts:128-149 | the side condition is needed: from any state of the invariant, a resumed `warm` that overwrites a live lease has a continuation in which that handle is lost for good |
| ExecutorHazard.OverwriteIsReached | src/executor-warmup.ts:112-173 | such a state is reached: for every key and configuration there is a run from the empty pool to two `warm` calls waiting for one retiring lease, the second of which overwrites the lease of the first, and a continuation that loses its handle |
| ExecutorWarmupProofs.EvictionBounds | src/executor-warmup.ts:285-307 | eviction brings the table down to the bound and never takes the entry just created |
| ExecutorWarmupProofs.TrimSparesRecycled | src/executor-warmup.ts:159-165 | the cooldown table stays within four times the bound, and trimming never forgets the key just recycled |
| ExecutorCooldown.RecycledStaysColdExactlyWhen | src/executor-warmup.ts:112-173 | over every run from the empty pool, a recycle in it, and any run after that, until the cooldown has passed: no step of `warm` for the key, a resume included, is possible exactly if its entry is still in the cooldown table and no `warm` suspended on a retiring lease of the key may resume |
| ExecutorCooldown.EntryLeavesExactlyWhen | src/executor-warmup.ts:309-319 | the entry of a live cooldown leaves the table with a step exactly if that step recycles another key that is not listed, 4·maxLeases live entries are, and this one is the oldest; or the key itself with a cooldown of zero |
| ExecutorCooldown.RecycleLists | src/executor-warmup.ts:159-163 | with a positive bound and cooldown, a recycle in any reachable state puts its key into the table |
| ExecutorCooldown.CanWarmExactlyWhen | src/executor-warmup.ts:112-150 | some step of `warm` is possible for a key at a time exactly if its cooldown has passed or a suspended call of it may resume; eviction always finds its victims |
| CooldownHazards.WaitingWarmIgnoresCooldown | src/executor-warmup.ts:128-149 | a run from the empty pool after which the key is recycled and a suspended `warm` prewarms a new lease of it at any later time |
| CooldownHazards.RenewedKeyIsForgotten | src/executor-warmup.ts:309-319 | with room for four entries: four keys are recycled, the first one again, then a fifth; the first key can be warmed at once, though its cooldown was just renewed |
| ExecutorWarmPoolClass.ExecutorWarmPool.Warm | src/executor-warmup.ts:112-150 | `warm` up to its await does nothing, or takes the enabled fresh, touch or retire step of the protocol |
| ExecutorWarmPoolClass.ExecutorWarmPool.ResumeWarm | src/executor-warmup.ts:128-150 | `warm` after a successful settle takes the resume step, overwriting what it finds; the invariant is kept if that was no live lease |
| ExecutorWarmPoolClass.ExecutorWarmPool.Recycle | src/executor-warmup.ts:159-173 | `recycle` takes the recycle step |
| ExecutorWarmPoolClass.ExecutorWarmPool.ReleaseAll | src/executor-warmup.ts:184-206 | `releaseAll` empties both tables and starts one task per collected lease |
| ExecutorWarmPoolClass.ExecutorWarmPool.EvictOverflow | src/executor-warmup.ts:285-307 | the victims are, one after the other, an oldest entry other than the kept one |
| ExecutorWarmPoolClass.ExecutorWarmPool.ReleaseSettled | src/executor-warmup.ts:240-256 | a settle whose prewarm landed joins the release call in flight, starts one, or retains the lease |
| ExecutorWarmPoolClass.ExecutorWarmPool.TimeOut | src/executor-warmup.ts:226-237 | a settle past its deadline fails and retains its lease |
| ExecutorWarmPoolClass.ExecutorWarmPool.DeliverRejection | src/executor-warmup.ts:255-263 | a rejected release reaches all its waiters, clears the call and retains the lease |
| SessionLock.LockMapEmpties | src/session-hub.ts:802-819 | over all runs, aborts included, a session whose tickets are all released has no lock entry |
| SessionLock.NoLostWakeup | src/session-hub.ts:802-828 | a waiter whose predecessors are all released can be granted |
| SessionLock.HoldersAreFifo | src/session-hub.ts:508-540 | if no last waiter gives up early, two tickets of a session never hold at once and holders come in ticket order |
| SessionLock.AbortedLastWaiterBreaksExclusion | src/session-hub.ts:812-817 | the hypothesis is needed: from any state of the invariant, the abort of a last waiter behind an unreleased ticket leads to two holders |
| SessionLockHazard.TwoHoldersAreReached | src/session-hub.ts:508-540 | such a state is reached: for every session a safe run gets to a holder and a last waiter, whose abort leads to two holders |
| SessionLock.SessionLocks.Acquire | src/session-hub.ts:508-525 | `acquire` appends a waiting ticket behind the session's tail |
| SessionLock.SessionLocks.TryAcquire | src/session-hub.ts:533-540 | `tryAcquire` fails exactly on a locked session, and otherwise holds at once |
| SessionLock.SessionLocks.Release | src/session-hub.ts:812-817 | the release closure resolves the ticket and removes the tail if it is still its own; a second call does nothing; the invariant is kept unless a last waiter gives up behind an unreleased ticket |
| SessionHubSteps.StepKeeps | src/session-hub.ts:476-800 | every hub operation keeps the invariant: pending and settled calls partition the registered ones, deadlines and timers agree, map order follows `lastUsedAt`, size within the bound |
| SessionHubSteps.EveryCallIsAccountedFor | src/session-hub.ts:553-620 | over every careful run, each registered call is pending in exactly one live slot or was settled exactly once |
| SessionHubSteps.LostSlotIsSettled | src/session-hub.ts:652-670 | any operation that removes a slot settles every call still pending in it |
| SessionHubSteps.SlotsGoForAReason | src/session-hub.ts:699-736 | running slots are never expired or evicted, an awaiting slot expires only when its own deadline and every hold are due, a delegated hold protects from eviction |
| SessionHubSteps.HubInvariants | src/session-hub.ts:487-502 | over every careful run the size stays within `maxLiveSessions`, map order is nondecreasing in `lastUsedAt`, and an awaiting slot's deadline is the maximum of its pending ones |
| SessionHubSteps.VictimIsLeastRecent | src/session-hub.ts:725-736 | the eviction victim is the least recently used slot of the first class that has one |
| SessionHubSteps.SecondRegistrationLosesCall | src/session-hub.ts:553-572 | from any state of the invariant, registering an id that is already pending leaves the first call neither pending nor settled |
| SessionHubSteps.OverwritingPutLosesCalls | src/session-hub.ts:487-502 | from any state of the invariant, replacing a slot that has pending holds leaves them neither pending nor settled |
| SessionHubSteps.StaleTimerDropsRunningSlot | src/session-hub.ts:750-761 | a timer left over from a replaced slot drops a running one |
| SessionHubHazards.LosingIsReached | src/session-hub.ts:487-580 | runs of careful uses from the empty hub get to a state where one more registration, or one more `put`, loses a call |
| SessionHubHazards.StaleTimerIsReached | src/session-hub.ts:750-761 | with hold timers, a run of careful uses gets to a state where a `put` leaves a timer that drops the new running slot |
| SessionHubClass.StepKeepsAliases | src/session-hub.ts:553-580 | over every operation, the aliases of a slot come from execute ids it registered |
| SessionHubClass.VisibleIdResolvesItsExecute | src/session-hub.ts:211-274 | for a hold registered through the hub, the id shown to the client resolves that very hold when pending ids have disjoint tokens |
| SessionHubClass.SessionHubObject.Put | src/session-hub.ts:487-502 | `put` evicts to fit, refuses exactly when that leaves no room, and stores the slot as most recent; the invariant is kept if it replaces no slot with holds or a timer |
| SessionHubClass.SessionHubObject.RegisterHold | src/session-hub.ts:553-580 | `registerHold` adds the hold, its aliases and the refreshed deadline, or settles the call without a slot; the invariant is kept if the id was not pending |
| SessionHubClass.SessionHubObject.ResolvePending | src/session-hub.ts:582-600 | `resolvePending` settles the canonical hold and updates state, deadline and timer |
| SessionHubClass.SessionHubObject.Sweep | src/session-hub.ts:686-692 | `sweep` drops exactly the expired slots |
| SessionHubClass.SessionHubObject.OnHoldTimer | src/session-hub.ts:755-758 | a hold timer drops its session |
| ToolCallIds.VisibleIdIsFound | src/session-hub.ts:211-274 | for an execute id without control characters in its first line and, if that line is long, without leading space, the shown id and its Responses form find a pending hold whatever the aliases, and with no other aliases than those of `registerHold` one sharing a token |
| ToolCallIds.VisibleIdRoundTrip | src/session-hub.ts:211-274 | with pairwise disjoint tokens and the aliases of `registerHold` the shown id of such an id maps back to exactly the execute it was made from |
| HoldAliases.AliasesAfterRegistering | src/session-hub.ts:276-279 | registering leads every form of the id to it, whoever had it before, and changes no other alias |
| HoldLookup.FoundExactlyWhen | src/session-hub.ts:260-274 | a client id finds a pending hold exactly if a pending id matches it or an alias of one overlaps it |
| HoldLookup.FindsExactlyWhen | src/session-hub.ts:260-274 | it finds exactly this hold if and only if the id is that client id; or no pending id is, and the alias of that name leads to it, or to no pending id and it is the first to match, or none matches and the first alias to overlap is one of its own |
| HoldLookup.ShownIdIsFound | src/session-hub.ts:211-274 | if every form of a pending id leads to a pending id, the shown id of every readable pending id finds a hold, leading space or not |
| HoldLookup.UnrivalledFindsItself | src/session-hub.ts:211-274 | with such aliases of `registerHold` it finds that very hold if neither another pending id nor a form of one meets it |
| HoldLookup.CutMeetsAnotherId | src/session-hub.ts:211-274 | behind leading space, the 64-character cut can be another pending id that shares no token with the first: the other hold answers |
| HoldLookup.SettledOwnerLosesTheHold | src/session-hub.ts:211-279 | once a call that overwrote the alias of a shared first line is settled, the shown id of the call that is left finds nothing |
| HubLookup.StepKeepsCompleteExactlyWhen | src/session-hub.ts:553-620 | a hub operation keeps the aliases complete exactly if it settles no call to which a form of another pending call leads |
| HubLookup.ShownIdResolvesACall | src/session-hub.ts:553-600 | over every run of such careful uses the shown id of any readable pending call resolves a call of its session |
| HubLookup.ShownIdResolvesItselfExactlyWhen | src/session-hub.ts:582-600 | it resolves the very call it was made for exactly if that call answers to it by the condition of `FindsExactlyWhen` |
| HubLookup.UnrivalledResolvesItself | src/session-hub.ts:211-274 | over every such run the shown id of a readable call resolves that very call if no other pending id, its Responses form or one of its tokens meets it: a condition on the ids alone |
| ToolCallIds.ToolCallIdTokens | src/session-hub.ts:232-245 | the tokens in insertion order |
| Routing.Dedupe | src/routing.ts:356-367 | one pass with a set of keys keeps the first spelling of every non-blank entry |
| Routing.ModelIdentity | src/routing.ts:213-231 | the names are the non-blank normalized request, entry id and aliases with their static groups |
| Routing.IntersectionLaw | src/routing.ts:275-295 | `identityAllowed` of an intersection equals both sides exactly under a condition on blank entries and the sentinel |
| Routing.IntersectionIsExact | src/routing.ts:275-295 | on lists without blanks and models not named like the sentinel the intersection admits exactly what both sides admit |
| Routing.BlankListWidens | src/routing.ts:280-285 | an allow list of blanks admits nothing alone but counts as absent in an intersection |
| Routing.SentinelWidens | src/routing.ts:294 | a model named like the sentinel passes the empty intersection of two lists that refuse it |
| Routing.AdmissionSurvivesMoreNames | src/routing.ts:233-260 | an unconfirmed identity that is admitted stays admitted for every superset of its names |
| WeightedPick.PickWeighted | src/routing.ts:327-338 | the pick is the candidate whose share of the cycle contains the cursor; the fallback return is never reached |
| WeightedPick.ChosenIsUnique | src/routing.ts:327-338 | for every cursor exactly one candidate is chosen |
| WeightedPick.EveryCycleIsFair | src/routing.ts:327-343 | any run of total-weight consecutive cursors picks candidate i exactly its normalized weight many times |
| KeyPool.ScreenIsEligibility | src/key-pool.ts:206-252 | the chain of filters leaves exactly the keys that are active, bound, untried and admitted by gateway and key scope |
| KeyPool.SelectionIsEligible | src/key-pool.ts:206-275 | `select` returns a key exactly if an eligible one exists, and the returned one is eligible |
| KeyPool.UnconfirmedSelectionIsSafe | src/key-pool.ts:228-248 | for an unconfirmed identity the returned key stays admitted under every superset of the known names |
| KeyPool.BucketNeverStarves | src/key-pool.ts:254-262 | the quota bucket never decides whether there is a key, nor the reason why there is none |
| KeyPool.ExhaustedOnlyAsLastResort | src/key-pool.ts:254-262 | a key with an exhausted bucket is returned only if every eligible key has exhausted it |
| KeyPool.AuthorizationReasons | src/key-pool.ts:211-226 | `not-authorized`, `none-configured` and `all-disabled` are returned exactly when they say so |
| KeyPool.ModelReasons | src/key-pool.ts:230-248 | the two model reasons name a scope refusal for every usable key, or a deny list an incomplete identity meets |
| KeyPool.ExhaustedMeansTried | src/key-pool.ts:250-252 | `exhausted` means that eligible keys exist and all were tried |
| RotationShares.RotationIsFairExactlyWhen | src/key-pool.ts:206-297 | selecting a full cycle in a row, with or without a quota bucket, returns a key exactly its weight many times if and only if the cursor does not wrap inside it, or the draws after the wrap give the key what counting on would have given it |
| RotationShares.WrappedCycleIsFairExactlyWhen | src/key-pool.ts:264-297 | for a cycle no longer than the modulus: if and only if the draws after the wrap hit the key's interval as often from position 0 as from the position where the wrap cut the cycle off |
| RotationShares.WrapBreaksACycle | src/key-pool.ts:264-297 | a pool of three keys of weight one at the wrap: three selections return the first key twice and the last never |
| RotationShares.SessionSticks | src/key-pool.ts:270-290 | a session with a live binding to a candidate gets that key in every one of n selections |
| KeyAccounting.CountIsStreak | src/key-pool.ts:421-452 | over any run of reports and successes the failure count is the longest run of failures up to now without a success |
| KeyAccounting.SwitchedOffExactlyWhen | src/key-pool.ts:421-436 | a healthy key is switched off exactly if the policy is on and one quota failure, or threshold many failures in a row, was reported; transient failures never count |
| CursorKeyPoolClass.CursorKeyPool.SelectKey | src/key-pool.ts:206-275 | the method returns the specified choice and leaves the specified keys, bindings and cursor |
| CursorKeyPoolClass.CursorKeyPool.ReportFailure | src/key-pool.ts:421-436 | the record changes as specified, and the result says exactly when a key was switched off |
| CursorKeyPoolClass.CursorKeyPool.RecordSuccess | src/key-pool.ts:440-450 | a success clears the streak and the mark of its bucket |
| CursorKeyPoolClass.CursorKeyPool.BindSession | src/key-pool.ts:299-306 | the session is bound, and every 200th time expired bindings go |
| KeyRotation.EndedLog | src/key-rotating-runner.ts:139-232 | the calls of a request have distinct keys and upstream's answers, and every one but the last failed for its key's sake with nothing visible emitted |
| KeyRotation.VisibleFromOneAttempt | src/key-rotating-runner.ts:178-194 | everything visible comes from the last attempt, and without streaming from a successful one |
| KeyRotation.PickedWasEligible | src/key-rotating-runner.ts:140-150 | a key picked later in the loop was eligible when the request came in |
| KeyRotatingRunnerClass.KeyRotatingRunner.Stream | src/key-rotating-runner.ts:104-252 | the whole contract of one request: calls bounded and distinct, deliveries, thrown error, pinned requests call only their key once and keep its binding |
| KeyRotatingRunnerClass.KeyRotatingRunner.Record | src/key-rotating-runner.ts:195-232 | what the loop makes of the end of one call, including which error is thrown |
| AgentStoreTheorems.StepRefines | src/agent-store.ts:334-556 | one operation keeps the SQL store in step with the in-memory store exactly if it writes no run whose id another agent holds |
| AgentStoreTheorems.StoresAgree | src/agent-store.ts:74-231 | from empty stores every read of a run without such clashes answers alike, idle sweeps and evictions included |
| AgentStoreTheorems.OwnedRunIdsNeverClash | src/agent-store.ts:419-428 | if no run id is shared by two agents there is never a clash |
| AgentStoreTheorems.ClashShows | src/agent-store.ts:419-428 | a clash is visible at once to the agent that held the run |
| AgentStoreTheorems.AgentListsAgree | src/agent-store.ts:460-472 | both stores list the same agents in the same order, whatever order their rows are read in |
| AgentStoreTheorems.RunListsAgree | src/agent-store.ts:502-516 | both stores list the same runs in the same order |
| AgentStoreListings.BlobListsAgree | src/agent-store.ts:542-556 | both stores list the same checkpoint ids in the same order, an id once for every agent that has it |
| AgentStoreTheorems.MemNeverOutgrows | src/agent-store.ts:105-114 | the in-memory store never keeps more agents than its bound, or one if the bound is zero |
| AgentStoreTheorems.SqlNeverOutgrows | src/agent-store.ts:361-375 | neither does the SQL store |
| AgentStoreListings.ZeroBoundKeepsTheWriter | src/agent-store.ts:661-663 | with a bound of zero, every run that ends with a write keeps exactly the agent written, in both stores |
| AgentStore.PositiveBound | src/agent-store.ts:661-663 | the bound is the floor of a positive number; it is zero exactly for a fraction below one or a zero fallback |
| AgentStoreClasses.EphemeralAgentStore.Touch | src/agent-store.ts:81-93 | a known bucket moves to the tail, a new one is preceded by a sweep |
| AgentStoreClasses.EphemeralAgentStore.Sweep | src/agent-store.ts:105-114 | idle buckets go, then the oldest until there is room |
| AgentStoreClasses.SqliteAgentStore.Touch | src/agent-store.ts:389-404 | the row gets the next LRU number; a new one is preceded by a sweep |
| AgentStoreClasses.SqliteAgentStore.Sweep | src/agent-store.ts:342-375 | idle rows go with all they own, then the row with the smallest LRU number until there is room |
| Pagination.Paginate | src/agent-store.ts:665-675 | the page starts after the first item with the cursor's id, and names its last id if more follow |
| Pagination.WalkExactlyWhen | src/agent-store.ts:665-675 | following `nextCursor` delivers every item once in order exactly if every inner page ends with a non-empty id that occurred nowhere before |
| Pagination.DistinctIdsWalk | src/agent-store.ts:665-675 | in particular with distinct non-empty ids |
| Pagination.SharedBlobNameLoops | src/agent-store.ts:217-226 | two checkpoints of one name under different agents make the walk endless |
| RunEvents.OffsetsOrderedExactlyBelow | src/agent-store.ts:235-240 | offsets sort like their numbers exactly below 10^12 |
| RunEvents.WalkCollectsAll | src/agent-store.ts:250-259 | following `nextOffset` collects every event once in order while the numbers stay below 10^12 |
| RunEvents.TableListsAlike | src/agent-store.ts:598-607 | the table in offset order lists what the in-memory bucket lists |
| RunEvents.RunEventBucket.Append | src/agent-store.ts:233-249 | events are numbered 1, 2, 3 and carry the padded offset |
| CallIds.ResponseCallIds | src/protocol.ts:496-510 | with a set, the suffix is the cached one, the base, or its first free numbered form, and the renaming loop terminates; without one it is the cached one or the base |
| CallIds.FreshCallsAreDistinct | src/protocol.ts:496-510 | freshly resolved calls of one response get distinct item ids and call ids |
| KeptCallIds.DistinctExactlyWhen | src/protocol.ts:496-510 | the calls of a response get distinct ids exactly if the suffixes kept from earlier responses differ from each other and none is given to a new call |
| KeptCallIds.RememberedCallsAreDistinctExactlyWhen | src/protocol.ts:496-510 | two calls resolved without a set before a response streams them get distinct ids there exactly if their bases differ |
| KeptCallIds.KeptCallCanClash | src/protocol.ts:496-510 | so two such calls `x` and `call_x` share an id |
| ResponsesWire.CompletedListsDoneItems | src/server.ts:1563-1728 | in a stream of the grammar the listed items are the done items in order |
| ResponsesWire.DoneTextIsDeltas | src/server.ts:1592-1607 | a done frame carries the concatenation of the deltas since its item was added |
| ResponsesWire.IndexCountsDoneItems | src/server.ts:1620-1656 | an item is added and closed at the output index that counts the items done before it, and never inside another |
| ResponsesWire.IncrementsAreKept | src/server.ts:1619-1662 | the contents are the maximal runs of the events: no text or thinking is lost, reordered within its kind, or split |
| ResponsesWire.FallbackIsTheUnstreamedOutput | src/server.ts:1664-1703 | without increments the stream carries what `responseOutputItems` would return |
| ResponsesWire.StreamedCallsAreDistinct | src/server.ts:1644-1656 | the calls of one stream, none resolved before and none repeated, get distinct ids |
| ResponsesEncoder.ResponsesStream | src/server.ts:1548-1728 | for every event list and ending: numbers 1, 2, 3 without gaps, frames of the grammar, on completion a non-empty item list with the expected contents, on failure an error frame or nothing |
| ResponsesEncoder.ResponseOutputItems | src/protocol.ts:376-385 | reasoning, then the message, then the calls with their resolved ids |
| AnthropicStream.IndicesCount | src/server.ts:1768-1812 | block starts carry 0, 1, 2 and come only when every earlier block has stopped |
| AnthropicStream.OneSignatureEach | src/server.ts:1768-1781 | every thinking block ends with exactly one signature, other blocks have none |
| AnthropicStream.TextIsKept | src/server.ts:1797-1806 | the text blocks concatenate to the text events |
| AnthropicStream.ThinkingIsHidden | src/server.ts:1783-1796 | off shows no thinking block, omitted none with text |
| AnthropicBlocks.ToolBlocksAreStreamedCalls | src/server.ts:1807-1818 | for every event list the tool blocks are those of the streamed calls, in order, whatever the results say |
| AnthropicBlocks.NoBlockExactlyWhen | src/server.ts:1783-1829 | a stream has no block exactly if no event shows anything |
| AnthropicBlocks.ResultIsNotStreamed | src/server.ts:1807-1829 | there is no tool block exactly if no call was streamed, whatever calls a result leaves for the stop reason |
| AnthropicStream.StreamMessage | src/server.ts:1735-1844 | for every event list, visibility and ending: the block grammar, the expected blocks, the stop reason of the final calls, no part the visibility forbids |
| ModelIntent.MergeIntents | src/model-params.ts:322-335 | the fields of the last intent that has them, and all parameters set in order |
| ModelIntent.LastWins | src/model-params.ts:331 | of several settings of a parameter the last value stays |
| ModelIntent.MergeIsAssociative | src/model-params.ts:322-335 | merging in groups is merging at once, parameter order included |
| ModelParamSpec.RoundTrip | src/model-params.ts:249-278 | unless the text starts with a bracket, a formatted list parses back exactly if it is not empty and every parameter is trimmed and free of separators, with a non-empty id without equals sign |
| ModelParamSpec.CleanRoundTrip | src/model-params.ts:249-278 | in particular for such lists whose first id does not start with a bracket |
| ModelParamSpec.BracketGoesToJson | src/model-params.ts:259-265 | a first id with a leading bracket hands the whole text to the JSON reader |
| ModelParams.ClosestIsBest | src/model-params.ts:593-606 | the picked value has the closest rank, the stronger one of two equally close |
| ModelParams.PickClosestValue | src/model-params.ts:593-606 | the loop returns that value |
| ModelParams.FirstFastPairs | src/model-params.ts:480-497 | the fast value found goes with the context in some variant, and none is found only if no variant has one |
| ModelParams.LargestContextPairs | src/model-params.ts:500-515 | the context found goes with the fast value and is the largest that does |
| ModelResolve.SentPairOccurs | src/model-params.ts:357-411 | with variants and no explicit parameters, the context and fast values sent occur together in some variant exactly if the kept one has a partner at all |
| ModelResolve.RepairedPairOccurs | src/model-params.ts:419-454 | the same for the repair itself |
| ModelResolve.RepairKeepsTheRest | src/model-params.ts:419-454 | with and without variants the repair changes only the value that gives way, and logs exactly its changes |
| ModelResolve.MaxModeContextStays | src/model-params.ts:439-446 | an explicitly requested Max Mode context is left alone by the repair exactly unless, without variants, the context parameter is itself the fast one and holds the value its family excludes |
| ModelResolve.ContextIsLargestCompatible | src/model-params.ts:448-453 | if only fast was asked for, the context after a repair is the largest compatible one |
| ModelResolve.FamilyRepair | src/model-params.ts:516-519 | without variants the repair leaves the top context exactly if the second one in size differs from it |
| ModelResolve.MaxModeSendsTheLargest | src/model-params.ts:561-574 | Max Mode asked for, with or without a catalogue, the context sent is a largest value of its definition |
| ModelResolve.ExplicitParamsWin | src/model-params.ts:405 | explicit parameters override everything derived |
| ModelResolve.ResolveModelParams | src/model-params.ts:357-411 | baseline, the three intents, the repair and the explicit parameters, with what was dropped; explicit parameters have their last value, and a pair sent after a repair is legal exactly if the kept value has a partner |

## Left out

- Real timers, microtask order and the clock: steps are nondeterministic and times are arguments; a rejected release reaches all its waiters in one step, and between its awaits a method is atomic. In particular `select` and the rotation loop run without other requests in between.
- Ties in `touchedAt`: `evictOverflow` takes the first of the oldest entries in map order, the model any of them.
- `configure` and other changes of limits and policies during a run; `durable` session closing on shutdown and drop listeners.
- Aliasing of slot objects outside the hub: slots are values in its map, so changes a runner makes to a dropped slot are not modelled.
- Event pumps, prompt history and checksums of a session slot: not connected to holds and deadlines.
- Lower-casing of letters outside ASCII and UTF-16 code units: strings are sequences of characters, and names are folded for ASCII only.
- SHA-256 cuts, random ids, JSON encoding and decoding: functions given from outside; documents are records with an opaque body.
- ToolCallIds.VisibleIdIsFound: the runner remembers one more alias for a call, its resolved call id (src/cursor-runner.ts:1294, src/cursor-runner.ts:2584); with it a hold is still found, but for a degenerate id or a suffix kept from an earlier stream the lemma does not say that the hold shares a token with the shown id.
- HubLookup.UnrivalledResolvesItself: the same holds for the aliases of a slot, which are those of `registerHold`.
- HoldLookup.ShownIdIsFound: an id with a control character in its first line is shown cleaned or as a digest, which is no token of it; the theorem speaks of the readable ids.
- Classification of upstream errors by text: the failure kind is part of the error. Ranks of effort words and sizes of context values are functions given from outside, the family table is an argument.
- Direct mode of the rotating runner (`useKeyPool` off), usage references, debug snapshots, request counters and last-error texts.
- Seeding, adding, reordering and deleting keys: the key table is what the listing returns, with distinct ids.
- KeyRotation.EndedLog: an upstream may stop only by an end or an error; a consumer that stops reading early is not modelled.
- Run events in the refinement of the agent stores: `runs.update` associates orphaned events with an agent in the SQL store only. Their offsets, listing and walk are modelled for one run.
- AgentStoreTheorems.StoresAgree: documents survive their JSON encoding, which drops undefined fields.
- Sorting in the listings of the store classes: the lists are proved equal as functions of the rows, the classes have no list method.
- Token usage and sizes reported by the streams, snapshots in `response.created`, and the stored response.
- ResponsesEncoder.ResponsesStream: the string prefixes of frame types and ids other than the call suffix are symbolic.
- Parsing of model ids with suffixes (`parseModelSpec`): single branches without state.
- ModelResolve.MaxModeSendsTheLargest: states the case in which the fast parameter is not the Max Mode parameter itself, since `applyFast` then writes the same entry.
- Rotation shares are counted for requests of one kind at one time, so no mark of a bucket and no binding expires between the selections.
- Admin UI, HTTP routes, settings, proxies, accounts and the SDK itself.
