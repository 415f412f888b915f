# Formal model of k8ops

This project models the stateful and arithmetic core of k8ops, an AI operations manager for
Kubernetes, and proves what that core keeps over all inputs and all runs. `dafny verify dfyconfig.toml`
checks everything.

Code that changes state in place is modelled by classes and methods with the same fields, branches
and loops. Each method is proved equal to a function of the old state and the arguments; the theorems
are about these functions, over whole runs. What an operation does is stated a second time, by theorems
that do not use the function but read the result off the inputs, position by position and with the
program's own constants and texts. Time is an integer number of nanoseconds passed to each
operation, floating-point numbers are reals, and the LLM, the tools, the Kubernetes API, the file system
and the iteration order of Go maps are parameters about which nothing more is assumed than a theorem says.

| module | what it models |
|---|---|
| `RateLimiter`, `RateBounds` | the login token bucket per IP with its background sweep, and how often a client gets through |
| `Collector` | the cooldown and dedup map of the Kubernetes event collector |
| `Cluster`, `RbacSync`, `RbacResults`, `UserAdmin`, `SyncFailures` | RoleBindings, the syncer that reconciles them with a user, what it grants, the admin handlers that call it, and what they leave behind when the API fails |
| `Usernames` | the choice of a name for an external account |
| `Breaker`, `Memory`, `Transcript` | the circuit breaker, a conversation with compression, and when a message list is well formed |
| `ConversationStore`, `ChatEngine`, `LlmCalls` | the conversation store with its two evictions, the chat engine's agent loop, and what a run does, read off the LLM's and the tools' answers |
| `ChatProtocol`, `ChatRuns`, `CompressionCuts` | the automaton every chat run follows, what it implies, sequences of runs, and one that compression spoils |
| `Agent` | the standalone agent loop |
| `AuditLog`, `AuditQuery`, `AuditFile` | the audit ring, its queries, and the rotated log file |
| `ResponseCache`, `CacheServing`, `CacheAges`, `CacheCover`, `CacheRelays`, `Warmer` | the response cache with both its writers, the middleware and the warmer, how old what it serves can be, and the warmer's pool of workers |
| `AlertStorms`, `Capacity`, `CapacityByPosition`, `CostEstimator`, `CostShares` | alert-storm windows, capacity arithmetic, the cost summary and its rounding |
| `Common`, `Text`, `Sorting`, `Grouping` | what these share: constants, Go's string operations, sorting, sums by key |

## Where the code is not what it says

These are results, each a theorem with an exact condition or a concrete witness.

- The comment at `internal/auth/auth.go:69` says one token a minute; `rate_limit.go:56` refills one a second. The
  fraction of a token earned between calls is lost on every call (`ImpatientClientIsStarved`).
- A refused role change (`roleRef` is immutable on a real API server) ends the sync before its cleanup, so a demoted
  ns-admin keeps the admin binding (`DemotionIsRefused`); the fake client accepts the update.
- A DELETE whose cleanup fails removes the user all the same, and the bindings left behind are removed by no request
  about anyone else (`FailedCleanupOrphans`, `StepKeepsInvUnderFailuresExactlyWhen`).
- A PATCH whose role and namespaces are both null changes the user but is not followed by a sync (`SkippedBreaksInv`).
- The empty conversation id doubles as the sentinel of the eviction scan: exactly when it is the strictly oldest, a full
  store can evict the newest conversation or none (`FullStoreEvictsLeastRecentExactlyWhen`, `SentinelMisleads`,
  `GetKeepsCapExactlyWhen`). This concerns direct users of the exported engine: the only caller in the repository
  replaces an empty id (`internal/dashboard/handlers_chat.go:109-111`).
- Compression keeps the last eight messages wherever that cut falls and can separate tool results from the call they
  answer, also in a new conversation in which nothing fails (`CompressionCanCutABlock`); runs themselves never do (`LogIsWellFormed`).
- `paginate` sorts timestamps as strings although RFC3339Nano drops trailing zeros
  (`ResultsAreChronologicalExactlyWhen`, `PageOutOfOrder`), and the in-memory query cuts to limit*page events before it filters
  (`RingPageExactlyWhen`).
- Two rotations within one second replace the first one's file (`RunConservesExactlyWhen`,
  `SecondRotationReplacesTheFirst`); a rotation that cannot open the file again ends file logging for good
  (`LostForGood`); a file whose size cannot be read, or that cannot be renamed, grows without bound
  (`FilesFitExactlyWhen`, `FileGrowsWithoutBound`).
- `refresh=true` is part of the cache key, so it does not refresh the plain URL; the middleware caches whatever the
  handler wrote, whatever its status, and ignores its `ttl` argument (`internal/dashboard/cache.go:82-112`).
- The registry of audit endpoints lists fifteen paths twice (`internal/tools/k8s/tools_audit.go:256` and `:456` are one
  path), so the summary's Count is smaller than the number of paths (`CountIsExactWhen`).
- The warmer recovers from handler panics and caches what had been written, so a HIT can be half an answer
  (`PanicIsServed`, `EveryHitIsAnAnswerExactlyWhen`).
- A HIT can be older than the ttl: a worker whose check missed can meet a live entry on its own request and store that
  body again with a fresh expiry, up to the time a worker takes later; twice for the fifteen paths listed twice, if a
  worker takes longer than the ttl or a call panicked (`HitsAreAtMostExactlyWhen`, `SavesOfARepeatedPath`).
- A half-open breaker lets every caller through until the first report (`TrialsAreWithinMaxExactlyWhen`).
- The first alert window starts at the zero time, year 1, not at the first event (`WindowsPartitionExactlyWhen`).
- A resource that runs out within a day has day count zero and is not reported (`BottleneckIsTheLastDayExactlyWhen`);
  over-commitment on one node hides room on another (`MaxFitBoundsPlacementsExactlyWhen`, `OvercommitmentHidesRoom`).

## Model

| member | source | states |
|---|---|---|
| `RateLimiter.IpRateLimiter.constructor` | internal/auth/rate_limit.go:28-38 | A new limiter has its burst and refill rate, a fifteen-minute ttl and no visitors. |
| `RateLimiter.IpRateLimiter.Allow` | internal/auth/rate_limit.go:41-68 | The new table and the verdict are `AllowStep` of the old table: an unknown IP starts full and pays one token; a known one earns whole tokens for the elapsed time, capped at the burst, and pays one if it has one; the entry is stamped with the call whether allowed or not. No other entry changes. |
| `RateLimiter.IpRateLimiter.Cleanup` | internal/auth/rate_limit.go:83-90 | Exactly the entries idle for longer than ttl are deleted; the others are untouched. |
| `RateLimiter.TokensStayInRange` | internal/auth/rate_limit.go:46-67 | 0 <= tokens <= maxTokens for every entry after any run of calls by any IPs interleaved with sweeps. |
| `RateLimiter.RefillCountsWholeTokens` | internal/auth/rate_limit.go:56-57 | The tokens earned are the whole ones in elapsed ns * refillRate / 1 000 000 000, and as many whole ones are taken away if the clock went backwards: truncation towards zero. |
| `RateLimiter.SimulatesFrom` | internal/auth/rate_limit.go:41-93 | The forward simulation: a swept table matched with one client's unswept bucket gives that client the same verdicts for the whole rest of the run. |
| `RateLimiter.SweepIsInvisible` | internal/auth/rate_limit.go:41-93 | If a bucket refills within ttl, each client sees, under any interleaving with other clients and sweeps, the verdicts of a private bucket that is never swept. |
| `RateLimiter.ProbeSeesTheSweep` | internal/auth/rate_limit.go:83-90 | If it does not, one explicit run (drain, wait out the ttl, sweep, call) gives a different verdict. |
| `RateLimiter.SweepIsInvisibleExactlyWhen` | internal/auth/rate_limit.go:75-93 | Forgetting is invisible in every run if and only if refillRate * (ttl + 1 ns) earns a full bucket, that is, if a bucket idle long enough to be swept is full anyway. |
| `RateBounds.RateBound` | internal/auth/rate_limit.go:41-68 | In any run with other IPs and sweeps, the calls allowed to one IP in any closed window [t1, t2] number at most maxTokens + refillRate * (t2 - t1). |
| `RateBounds.AdmittedFromBucket` | internal/auth/rate_limit.go:56-67 | A bucket holding k tokens admits up to t2 at most k plus what the time since its stamp earns. |
| `RateBounds.AdmittedInWindow` | internal/auth/rate_limit.go:56-67 | The window bound for one private bucket in any state. |
| `RateBounds.ProbeBreaksTheBound` | internal/auth/rate_limit.go:75-93 | Otherwise the explicit run above gets twice maxTokens calls through in [0, ttl + 1 ns], more than the bound allows. |
| `RateBounds.RateBoundExactlyWhen` | internal/auth/rate_limit.go:41-93 | The rate bound holds for every run and window if and only if a bucket refills within ttl. |
| `RateBounds.ImpatientClientIsStarved` | internal/auth/rate_limit.go:56-67 | The remainder is lost on every call: from zero tokens a client whose gaps each earn no whole token, and are at most ttl, is denied on every call of an arbitrarily long run, for every configuration and any sweeps. |
| `RateBounds.ImpatientClientIsStarvedExactlyWhen` | internal/auth/rate_limit.go:56-90 | For given calls at gaps that earn no token: all are denied under every interleaving if and only if no gap exceeds ttl; after a longer one a sweep can hand out a full bucket. |
| `RateBounds.ShortGapsAreWithinTtl` | internal/auth/rate_limit.go:56-90 | A bucket that refills within ttl makes every such gap at most ttl. |
| `RateBounds.PatientClientIsNeverDenied` | internal/auth/rate_limit.go:56-67 | A client whose gaps each earn a whole token is never denied, for every configuration and any sweeps. |
| `Collector.EventCollector.constructor` | internal/collector/collector.go:37-52 | Cooldown five minutes, dedup window ten minutes, nothing processed. |
| `Collector.EventCollector.ShouldTrigger` | internal/collector/collector.go:82-89 | True exactly when the reason contains one of the twelve trigger patterns. |
| `Collector.EventCollector.Handle` | internal/collector/collector.go:133-154 | An event is accepted exactly when its reason is a trigger and its key is absent or its stamp at least a cooldown old; acceptance stamps the key and prunes exactly the entries older than the window, in any map order. |
| `Collector.TriggersAre` | internal/collector/collector.go:82-89 | A reason is a trigger if and only if it contains one of these twelve strings, listed in full. |
| `Collector.KeysTellResourcesApart` | internal/collector/collector.go:138 | Two arrivals share a key if and only if kind, namespace and name agree, when kind and namespace have no `/`. |
| `Collector.AcceptedExactlyWhen` | internal/collector/collector.go:133-154 | From an empty map, over every ordered run and with pruning, an event is accepted if and only if its reason is a trigger and every earlier accepted event on the same kind, namespace and name was stamped at least a cooldown before. |
| `Collector.PruningSimulates` | internal/collector/collector.go:137-154 | The pruned map and a map that is never pruned accept the same events from matching states on, for every rest of a run. |
| `Collector.ShortWindowLeaks` | internal/collector/collector.go:148-153 | With a window shorter than the cooldown by more than 1 ns, an explicit run of three events is answered differently. |
| `Collector.PruningIsInvisibleExactlyWhen` | internal/collector/collector.go:137-154 | Pruning is invisible in every run if and only if dedupWindow + 1 ns >= cooldown. |
| `Collector.AcceptedAreSpaced` | internal/collector/collector.go:140-147 | Then any two accepted triggers on one key, not just consecutive ones, are at least a cooldown apart. |
| `RbacSync.SplitNamespaces` | internal/auth/rbac_sync.go:174-184 | The comma-separated pieces, trimmed, without the empty ones, in order. |
| `RbacSync.SplitInvertsJoinExactlyWhen` | internal/auth/rbac_sync.go:174-184 | Splitting the comma-join of a list of names gives it back if and only if every name is non-empty, trimmed and free of commas. |
| `RbacSync.RBACSyncer.SyncUserRBAC` | internal/auth/rbac_sync.go:31-100 | The cluster after the call and the error are `Synced` (what that grants is `SyncGrantsExactly`, when it reports success `SyncSucceedsExactlyWhen`): for other roles only cleanup; otherwise create-or-update per desired namespace, NotFound skipped, any other refusal stopping before the cleanup. A nil client does nothing. |
| `RbacSync.RBACSyncer.CleanupUserRBAC` | internal/auth/rbac_sync.go:103-125 | Deletes exactly the user's labelled bindings in every namespace whose list and delete calls succeed; fails only if namespaces cannot be listed. |
| `RbacSync.RBACSyncer.CleanupUndesiredRBAC` | internal/auth/rbac_sync.go:128-156 | The same outside the desired namespaces. |
| `RbacSync.RBACSyncer.DeleteIn` | internal/auth/rbac_sync.go:139-154 | The double loop of both cleanups, in any listing order. |
| `RbacSync.OthersUntouched` | internal/auth/rbac_sync.go:31-156 | Whatever calls fail, bindings not labelled with the user keep their contents and none with another label appears, except that an unlabelled binding at the user's own name may be taken over. |
| `RbacSync.FailuresOnlyDelayCleanup` | internal/auth/rbac_sync.go:55-156 | Whatever calls fail, the undesired bindings only ever shrink, no desired binding is removed, and everything present is either old and unchanged or exactly what is wanted. |
| `RbacSync.SyncIsIdempotent` | internal/auth/rbac_sync.go:31-100 | Repeating a sync, with the same calls failing, leaves the cluster as the first one left it. |
| `RbacSync.SyncConvergesExactlyWhen` | internal/auth/rbac_sync.go:31-100 | With no API errors a sync reaches exactly the reconciled cluster, and reports success, if and only if no kept binding would have to change its role on a server that refuses that. |
| `RbacSync.RefusedRoleChangeKeepsEverything` | internal/auth/rbac_sync.go:85-95 | In the other case the sync stops before its cleanup: all undesired bindings are still there and a kept binding still has its old role. |
| `RbacSync.SyncForgetsHistory` | internal/auth/rbac_sync.go:31-100 | Two clusters that differ only in the user's own bindings are identical after an error-free sync. |
| `RbacResults.NamespacesAreListed` | internal/auth/rbac_sync.go:174-184 | A name is in the split list if and only if it is non-empty, trimmed, and stands between two commas (or the ends) with nothing but white space around it: by position in the string, without the splitting functions. |
| `RbacResults.SyncGrantsExactly` | internal/auth/rbac_sync.go:31-100 | After an error-free sync (on a server with immutable roleRef, one that has no role to change), each existing listed namespace of a user with the role ns-admin or ns-viewer holds, under `k8ops:<user>:<ns>`, a binding labelled with the user, for the group `k8ops:<role>:<ns>`, with the role `k8ops-role-ns-admin` for ns-admin and `k8ops-role-ns-viewer` for ns-viewer; and the user has no other binding anywhere. Stated in literals, without the functions that compute it. |
| `UserAdmin.Authenticator.HandleCreate` | internal/auth/handlers.go:314-342 | Validates, refuses a taken name, stores the user, then syncs; status and whole new state of store and cluster. |
| `UserAdmin.Authenticator.HandlePatch` | internal/auth/handlers.go:391-417 | Writes the present fields, and syncs only if role or namespaces is present and non-null. |
| `UserAdmin.Authenticator.HandleDelete` | internal/auth/handlers.go:376-389 | Cleans the user's bindings up before removing the user from the store. |
| `UserAdmin.StepKeepsInv` | internal/auth/handlers.go:331-417 | The invariant "the labelled bindings are exactly those some stored ns-admin/ns-viewer user wants" is kept by every error-free request that is neither blocked nor skipped. |
| `UserAdmin.BlockedBreaksInv` | internal/auth/handlers.go:409-416 | A request whose sync meets a role conflict breaks it. |
| `UserAdmin.SkippedBreaksInv` | internal/auth/handlers.go:400-412 | A PATCH of nulls only that takes bindings away breaks it, because no sync follows. |
| `UserAdmin.StepKeepsInvExactlyWhen` | internal/auth/handlers.go:331-417 | With no API or store errors, a request keeps the invariant if and only if it is neither. |
| `UserAdmin.RunsStayInSync` | internal/auth/handlers.go:331-417 | The invariant holds after every run of creates, deletes and non-null patches against an API that accepts updates. |
| `UserAdmin.RunStaysInSyncExactlyWhen` | internal/auth/handlers.go:331-417 | Against any error-free API the invariant holds after every request of a run if and only if no request is blocked or skipped in the state it meets. |
| `UserAdmin.DemotionIsRefused` | internal/auth/handlers.go:391-417 | On a server with immutable roleRef, patching an ns-admin to ns-viewer stores the demotion and leaves the binding with the role `k8ops-role-ns-admin` in place. |
| `UserAdmin.RequestsAreRead` | internal/auth/handlers.go:314-417 | Each request, field by field: what is refused and with which status; the stored role, `viewer` if none was given; which fields a PATCH writes, a null as empty, and when it syncs; whose bindings a DELETE cleans up. |
| `SyncFailures.StepKeepsInvUnderFailuresExactlyWhen` | internal/auth/handlers.go:331-417 | Whatever API calls fail, a request keeps the invariant if and only if every binding its user should have was right already or is reached before the API refuses one, and, if the user has bindings it should not have, none is refused and each can be listed and deleted. |
| `SyncFailures.RunStaysInSyncUnderFailuresExactlyWhen` | internal/auth/handlers.go:331-417 | The invariant holds after every request of a run, with other calls failing during each, if and only if this is so for each. |
| `SyncFailures.FailedCleanupOrphans` | internal/auth/handlers.go:376-389 | A DELETE whose cleanup cannot list or delete a binding still removes the user and answers success, and the binding stays as it was through every later run in which no user of that name is created, whether or not the API recovers. |
| `SyncFailures.UpsertAllStopsAtTheFirstRefusal` | internal/auth/rbac_sync.go:55-95 | The create-or-update loop, repeated names included, puts exactly the bindings before the first refusal in place and reports whether there was one. |
| `SyncFailures.SyncSucceedsExactlyWhen` | internal/auth/rbac_sync.go:31-156 | A sync returns nil if and only if namespaces can be listed and no binding is refused; failures to list or delete bindings are not reported. |
| `SyncFailures.OrphansStay` | internal/auth/rbac_sync.go:31-156 | Bindings labelled with a name no stored user has survive every run that creates no user of that name, whichever calls fail during each request. |
| `Usernames.UniqueUsername` | internal/auth/auth.go:123-141 | The base name if it is free or the account's own; else the first free suffixed name; else the `_x` fallback, free or not. |
| `Usernames.NamesAre` | internal/auth/auth.go:123-141 | The names are the base, the base with the provider, the same with the numbers 2 to 99 in decimal, and the fallback, spelt out. |
| `Usernames.AnswerIsTheFirstFreeName` | internal/auth/auth.go:123-141 | If the base name is stored for that provider it is the answer; otherwise the answer is the first of these names that is free, or the fallback if all are taken. |
| `Text.DecimalStandsFor` | internal/auth/auth.go:137 | The decimal form of a number, read back digit by digit, is that number. |
| `Usernames.NamesAreDistinct` | internal/auth/auth.go:123-141 | The 101 names the loop can give, fallback included, are pairwise different. |
| `Usernames.AnswerIsFreeExactlyWhen` | internal/auth/auth.go:123-141 | The answer is unused if and only if the base name is not the account's own and one of the 101 names is free. |
| `Usernames.SmallStoreAlwaysHasAFreeName` | internal/auth/auth.go:123-141 | Pigeonhole: with at most a hundred users, none of them the account itself, the answer is unused. |
| `Breaker.CircuitBreaker.constructor` | internal/resilience/resilience.go:94-101 | Closed, with the given threshold and timeout and one half-open trial. |
| `Breaker.CircuitBreaker.Allow` | internal/resilience/resilience.go:104-122 | Verdict and new state by state and elapsed time; an expired open breaker becomes half-open. |
| `Breaker.CircuitBreaker.RecordSuccess` | internal/resilience/resilience.go:125-138 | A half-open breaker closes after its one trial; a closed one forgets its failures. |
| `Breaker.CircuitBreaker.RecordFailure` | internal/resilience/resilience.go:141-153 | Counts and stamps the failure; opens when half-open or at the threshold. |
| `Breaker.RoundTracks` | internal/resilience/resilience.go:104-153 | One Allow-then-report round: the breaker lets a call pass if and only if fewer than threshold trailing reports are failures or the timeout has passed, and it keeps its state a function of the reports. |
| `Breaker.RoundsTrack` | internal/resilience/resilience.go:104-153 | After any run of non-overlapping rounds the breaker is never half-open, and is open exactly when the last threshold reports are all failures. |
| `Breaker.OpenedBreakerRefusesExactlyUntil` | internal/resilience/resilience.go:104-153 | A failure that opens the breaker, of a trial or the last of the threshold, refuses every call up to the reset timeout after it and none later, whatever succeeds meanwhile. |
| `Breaker.WhoeverAsksIsATrial` | internal/resilience/resilience.go:104-122 | A half-open breaker turns nobody away: with overlapping callers, exactly those that ask before the first failure or the halfOpenMax-th success are let through. |
| `Breaker.TrialsAreWithinMaxExactlyWhen` | internal/resilience/resilience.go:104-153 | At most halfOpenMax trials pass a half-open period if and only if no more callers ask before it is decided; with the configured one, if and only if the next call on the breaker after the first trial is a report. |
| `Memory.Conversation.constructor` | internal/memory/conversation.go:52-63 | One system message, no tokens counted, stamped now. |
| `Memory.Conversation.AddUserMessage` | internal/memory/conversation.go:66-75 | Appends, adds a quarter of the length to the estimate, stamps the activity. |
| `Memory.Conversation.AddAssistantMessage` | internal/memory/conversation.go:78-85 | The same for an assistant message with its tool calls. |
| `Memory.Conversation.AddToolResult` | internal/memory/conversation.go:88-97 | The same for a tool result. |
| `Memory.Conversation.MaybeCompress` | internal/memory/conversation.go:111-207 | Compresses exactly when the estimate exceeds 20000 with more than nine messages and the summary call succeeds; then keeps the system message, a summary and the last eight, and re-estimates. |
| `Memory.EstimateMessagesTokens` | internal/memory/conversation.go:209-215 | The sum of the per-message estimates. |
| `Memory.CompressionExactlyWhen` | internal/memory/conversation.go:123-207 | Compressing a well-formed conversation leaves it well formed if and only if the first kept message is not a tool result. |
| `Memory.CompressionIsRead` | internal/memory/conversation.go:111-207 | By position and in numbers: unchanged up to 20000 tokens, up to nine messages, or if the LLM fails; otherwise the system prompt, the summary in its exact wording with the number of messages it stands for, and the last eight messages, with the estimate of the summary and these eight. |
| `Transcript.WellFormedByPosition` | internal/chat/engine.go:476-560 | The scanner used below means: every assistant message with n calls is followed by exactly its n results in order, and every result belongs to such a block. |
| `Transcript.CompactedIsWellFormedExactlyWhen` | internal/memory/conversation.go:134-194 | Dropping a middle part of a well-formed list keeps it well formed if and only if the first message kept is not a tool result. |
| `ConversationStore.OldestIsLeastRecentExactlyWhen` | internal/chat/engine.go:251-268 | For every map iteration order, the eviction scan finds a least-recently-active entry if and only if the empty id is not in the store or is not strictly older than all others. |
| `ConversationStore.NothingFoundExactlyWhen` | internal/chat/engine.go:251-268 | The scan ends with the sentinel `""` if and only if the empty id is the oldest and is visited so that it hides all later candidates. |
| `ConversationStore.AnyoneCanBeEvicted` | internal/chat/engine.go:226-261 | If the empty id is the strictly oldest of a full store, every other conversation is the one evicted by the next Get in some iteration order. |
| `ConversationStore.SentinelMisleads` | internal/chat/engine.go:226-261 | A full store of a thousand conversations whose next Get evicts the most recently active one. |
| `ConversationStore.GetKeepsCapExactlyWhen` | internal/chat/engine.go:226-268 | A Get leaves more than maxConversations if and only if the store was full, the id was new and the empty id hid every candidate. |
| `ConversationStore.CapHoldsThroughout` | internal/chat/engine.go:183-287 | With non-empty ids the store holds at most maxConversations after every operation of every run of gets, touches, deletes and sweeps. |
| `ConversationStore.FullStoreEvictsLeastRecentExactlyWhen` | internal/chat/engine.go:226-268 | A Get that makes room in a full store removes one least-recently-active conversation and nothing else, if and only if the empty id is not the strictly oldest. |
| `ConversationStore.SweepIsRead` | internal/chat/engine.go:183-223 | A sweep keeps nothing idle for more than 1800 s, all the rest if that is at most a thousand, and otherwise a thousand of which none is older than one that goes. |
| `ChatEngine.Engine.constructor` | internal/chat/engine.go:107-126 | An empty store, fifteen steps, and a closed breaker with its threshold and timeout. |
| `ChatEngine.Engine.EvictOldestLocked` | internal/chat/engine.go:251-268 | The scan with its sentinel removes what `EvictOldest` says for that iteration order. |
| `ChatEngine.Engine.GetOrCreateConversation` | internal/chat/engine.go:226-248 | An existing conversation itself; else, with a provider, a fresh one after making room; all other conversations stay the same objects. |
| `ChatEngine.Engine.DeleteConversation` | internal/chat/engine.go:283-287 | Removes that id only. |
| `ChatEngine.Engine.EvictExpired` | internal/chat/engine.go:187-196 | First phase: exactly those idle for longer than the TTL go, and are counted. |
| `ChatEngine.Engine.EvictSurplus` | internal/chat/engine.go:198-216 | Second phase: exactly the surplus over the cap goes, and no victim is newer than a survivor. |
| `ChatEngine.Engine.EvictIdle` | internal/chat/engine.go:183-223 | Both phases from any map: survivors are fresh and at most the cap, no dropped entry is more recent than a surplus survivor, and the return value is the exact size drop. |
| `ChatEngine.Engine.CallLlm` | internal/chat/engine.go:375-403 | The actions and the result of the call are `Attempts`, which `CallIsRetriedExactlyUntil` reads off the attempts themselves. |
| `ChatEngine.Engine.ExecuteTool` | internal/chat/engine.go:492-539 | Success, output and error for a parse error, an unknown tool, a tool error, a failed tool and a successful one, truncated. |
| `ChatEngine.Engine.ExecuteCall` | internal/chat/engine.go:483-559 | The call event, the result event of the same name and step, and the tool message appended to the conversation, in this order. |
| `ChatEngine.Engine.ExecuteCalls` | internal/chat/engine.go:482-560 | That for each call of the response, in order. |
| `ChatEngine.Engine.RunStep` | internal/chat/engine.go:351-561 | One loop step: refused by the breaker, failed, answered, or continued; with the actions, the breaker state and the conversation it leaves. |
| `ChatEngine.Engine.HandleResponse` | internal/chat/engine.go:444-560 | A response without calls ends the run with its answer; one with calls is appended, then its calls are executed. |
| `ChatEngine.Engine.RunSteps` | internal/chat/engine.go:348-581 | The loop and the step-limit answer, equal to the recursive run on actions, error, breaker and conversation. |
| `ChatEngine.Engine.Open` | internal/chat/engine.go:320-332 | The user message, and a memory event exactly when the conversation was compressed. |
| `ChatEngine.Engine.Chat` | internal/chat/engine.go:321-581 | A whole request on its conversation. |
| `ChatEngine.Engine.RunStreamWithRegistry` | internal/chat/engine.go:304-582 | The request from lookup to last event; without a conversation or provider one Error and no breaker call; no other conversation changes. |
| `LlmCalls.ListedAre` | internal/chat/engine.go:627-652 | An error is retried if and only if its text contains one of these seventeen strings, listed in full. |
| `LlmCalls.CallIsRetriedExactlyUntil` | internal/chat/engine.go:375-403 | Without the functions that compute it: the number k of LLM calls is the least such that attempt k replied, or failed with none of the listed strings in its message, or k is five, or the request was cancelled after it. The reply of attempt k, or the error with its exact text, is the result, and the streamed text is what attempts 1 to k produced. |
| `LlmCalls.RetryRecovers` | internal/chat/engine.go:375-403 | One retryable error and then a reply: two calls, and the reply is the result. |
| `LlmCalls.OtherErrorsAreFinal` | internal/chat/engine.go:375-403 | An error with none of the listed strings ends the call after one attempt, with that error. |
| `LlmCalls.CallsReport` | internal/chat/engine.go:482-560 | For each tool call of a response, in order: the call event, the result event with success, error and the first 2000 characters of the output, and the message for the LLM, case by case over a parse error, an unknown tool, a raised error, a failed tool and a successful one cut at 8000 characters, in the exact texts. |
| `LlmCalls.ResponseIsRead` | internal/chat/engine.go:421-560 | A response without calls is the final answer with the summed tokens and the step; one with calls gives its thought, its assistant message and its calls, and the loop goes on with the summed tokens. |
| `LlmCalls.RefusedStepIsRead` | internal/chat/engine.go:366-369 | A breaker that is open within its timeout, or half-open with its trials used, ends the run with this error. |
| `LlmCalls.StepIsRead` | internal/chat/engine.go:366-560 | Any other step calls the LLM as often as above; an error is reported to the breaker with its time and ends the run with the error event in its exact text; a reply is reported and handled as `ResponseIsRead` says. |
| `LlmCalls.RunIsRead` | internal/chat/engine.go:304-582 | A whole run is the user message, a memory event if the compression condition in numbers holds, a chain of at most maxSteps such steps each starting from the tokens and the breaker state the last one left, and, if all of them made calls, the step-limit answer in its exact text; the conversation afterwards is the opened one with all messages these steps append. |
| `ChatProtocol.NilEndsInAnswerDone` | internal/chat/engine.go:444-581 | In every accepted nil trace Answer then Done are the last two actions, occur nowhere else, and there is no Error. |
| `ChatProtocol.ErrorEndsInError` | internal/chat/engine.go:334-418 | In every accepted error trace the only Error is the last action and there is no Answer or Done. |
| `ChatProtocol.CallsAreAnsweredAtOnce` | internal/chat/engine.go:483-560 | Every ToolCall is directly followed by the ToolResult of the same name and step, and there are no other ToolResults. |
| `ChatProtocol.BreakerAlternates` | internal/chat/engine.go:366-420 | The breaker sees Allow and its one report alternate, ending in a refusal, a failure or a success. |
| `ChatProtocol.CallsAreBounded` | internal/chat/engine.go:351-403 | At most maxSteps calls pass the breaker, each with at most five attempts. |
| `ChatProtocol.RunAppendsWellFormed` | internal/chat/engine.go:444-567 | What a run appends is well formed in the end and whenever the LLM is called. |
| `ChatRuns.RunFollowsProtocol` | internal/chat/engine.go:304-582 | For every LLM, tools, clock, conversation and breaker state, the run is accepted by the protocol automaton, as success exactly when it returns nil. |
| `ChatRuns.RunGrammar` | internal/chat/engine.go:304-582 | The five facts of the protocol, spelt out for every run without reference to the automaton. |
| `ChatRuns.TurnKeepsWellFormedExactlyWhen` | internal/chat/engine.go:321-567 | A run, failed ones included, leaves a well-formed conversation well formed if and only if its compression, if any, does not cut a block of tool results. |
| `ChatRuns.ConversationStaysWellFormedExactlyWhen` | internal/chat/engine.go:321-567 | Over any sequence of runs, failed ones included, a well-formed conversation is well formed after every run if and only if no compression cuts a block. |
| `ChatRuns.LogIsWellFormed` | internal/chat/engine.go:321-567 | The messages added by any sequence of runs, in order, are always well formed, read both by scanner and by position. |
| `ChatRuns.StepReports` | internal/chat/engine.go:366-420 | A step reports to the breaker exactly once, with the outcome of its call, if the breaker let it through, and not at all otherwise. |
| `ChatRuns.RunsDetermineTheBreaker` | internal/chat/engine.go:366-420 | After a run the breaker is not half-open, and is open exactly when the last threshold reports, earlier ones included, were failures. |
| `ChatRuns.RunSequencesDetermineTheBreaker` | internal/chat/engine.go:366-420 | The same after any sequence of non-overlapping runs on any conversations, which share the breaker. |
| `CompressionCuts.CompressionCanCutABlock` | internal/memory/conversation.go:111-194 | Two turns on a new conversation, nothing failing: eleven tool results of the length kept whole, then a follow-up, whose compression drops the calls and keeps some of the results. |
| `Agent.Agent.constructor` | internal/agent/agent.go:36-44 | Zero steps means fifteen. |
| `Agent.Agent.Execute` | internal/agent/agent.go:119-177 | Record and tool message of one call, for a parse error, an unknown tool, a tool error, a failed tool and a successful one, truncated. |
| `Agent.Agent.ExecuteAll` | internal/agent/agent.go:117-178 | One record and one tool message per call, in order. |
| `Agent.Agent.Run` | internal/agent/agent.go:66-184 | The list of all requests made and the outcome equal those of the recursive run. |
| `Agent.ObservationIsRead` | internal/agent/agent.go:125-176 | What is recorded of a call and what the LLM is told, case by case over a parse error, an unknown tool, a raised error with or without a result, a failed tool and a successful one: the output itself up to 8000 characters, its first 8000 and the marker beyond, the exact error texts otherwise. |
| `Agent.BlockIsWellFormed` | internal/agent/agent.go:110-178 | One step adds one assistant message and one tool message per call with matching ids in order, each with what `ToldAs` says of its call. |
| `Agent.TranscriptAtEveryRequest` | internal/agent/agent.go:77-178 | At every Complete call the messages are System, User, then exactly one block per earlier response, well formed by position, in which each tool message has its call's id and says what the call came to, case by case; at most MaxSteps calls are made. |
| `Agent.RunAccounts` | internal/agent/agent.go:83-183 | On a non-error return the records are exactly the tool calls made, in order, each with the response's content as thought, name, arguments, and the observation case by case; prompt, completion and total tokens are the sums over the responses; the answer is the final response's or the exact step-limit text; an error names the failing completion. |
| `AuditLog.Logger.constructor` | internal/audit/logger.go:75-83 | An empty ring of five hundred. |
| `AuditLog.Logger.Log` | internal/audit/logger.go:263-265 | The ring afterwards represents the old history and the event. |
| `AuditLog.Logger.Slot` | internal/audit/logger.go:303-304 | The slot counted back from the write pointer, wrapping, holds the i-th newest event, or nothing if there is none. |
| `AuditLog.Logger.Recent` | internal/audit/logger.go:296-309 | The last min(n, ringSize, N) events, newest first, each at its place of the history; none for n <= 0. |
| `AuditLog.Logger.Filter` | internal/audit/logger.go:312-328 | The first limit matches of that, newest first; one if limit < 1. |
| `AuditLog.FilterIsRead` | internal/audit/logger.go:312-328 | By position: the answer stands at decreasing places of the history that the ring still holds, all of matching type and namespace, at most limit and one for limit < 1; a match left out is older than all listed, and those are then as many as allowed. |
| `AuditLog.Logger.GetStats` | internal/audit/logger.go:331-353 | The counts by type and by severity are right for every key and sum to the total, and success + failure is the total; each is the number of places of the retained history with that type, severity or success. |
| `AuditLog.StatsAreRead` | internal/audit/logger.go:331-353 | The same, read off the history by position: exactly the types and severities that occur are listed, with how often. |
| `AuditQuery.KeepPassing` | internal/audit/logger.go:439-463 | The events that pass the severity and date filters, in order. |
| `AuditQuery.CutPage` | internal/audit/logger.go:470-485 | The page of a list; empty beyond its end. |
| `AuditQuery.Paginate` | internal/audit/logger.go:438-486 | The requested page of the filtered events in descending timestamp order, and their number; a page below 1 becomes 1 and a limit below 1 becomes 50, any other is passed through. |
| `AuditQuery.ResultsAreRead` | internal/audit/logger.go:438-468 | An event is among the results as often as it was given, or not at all if its severity is not the one asked for or its parsed time is below a from or above a to that is given and parses; no later stamp follows an earlier one. |
| `AuditQuery.PagesConcatenate` | internal/audit/logger.go:470-485 | The first n pages put together are the first n*limit results. |
| `AuditQuery.PagesPartitionTheResults` | internal/audit/logger.go:438-486 | Enough pages put together are the filtered events, sorted: a permutation with no gap or overlap. |
| `AuditQuery.QueryRing` | internal/audit/logger.go:358-363 | Without a file the query pages the latest limit*page events only. |
| `AuditQuery.RingPageExactlyWhen` | internal/audit/logger.go:358-363 | With timestamps increasing in log order that page is a prefix of the page over the whole ring, and is all of it if and only if the cut-down window holds enough matches. |
| `AuditQuery.UnfilteredRingPage` | internal/audit/logger.go:358-363 | Without filters it is always the whole page. |
| `AuditQuery.ResultsAreChronologicalExactlyWhen` | internal/audit/logger.go:438-486 | The events a query shows are in descending time order if and only if no two of those that pass its filters have stamps of one second where one printed fraction is a proper prefix of the other. |
| `AuditQuery.SortedIsDescendingExactlyWhen` | internal/audit/logger.go:466-468 | The same for any list sorted newest first as strings, with stamps of any seconds of one width. |
| `AuditQuery.PageOutOfOrder` | internal/audit/logger.go:466-485 | Two events half a second apart whose first page shows the earlier one first, in whichever order they are given. |
| `AuditQuery.StringOrderIsTimeOrderExactlyWhen` | internal/audit/logger.go:466-468 | Two RFC3339Nano stamps in one second compare as strings the way they compare in time if and only if neither fraction, trailing zeros dropped, is a proper prefix of the other. |
| `AuditFile.FileLogger.constructor` | internal/audit/logger.go:75-95 | The file is open, with what was in it, and a 100 MiB limit. |
| `AuditFile.FileLogger.Open` | internal/audit/logger.go:98-106 | Creates the file if it is missing; a failure leaves the logger without one. |
| `AuditFile.FileLogger.MaybeRotate` | internal/audit/logger.go:214-237 | Rotates exactly when the open file has reached a positive limit and can be measured; a failed rename still reopens the file. |
| `AuditFile.FileLogger.Rotate` | internal/audit/logger.go:124-153 | Rename and reopen, with every failure path. |
| `AuditFile.FileLogger.Log` | internal/audit/logger.go:248-266 | Rotation if due, then the record is appended if a file is open and the write succeeds. |
| `AuditFile.RotatesExactlyAtTheLimit` | internal/audit/logger.go:214-261 | Logging one event, case by case: below the limit, with the bytes of the records added up by position, with no positive limit, no open file or no readable size the file is appended to and never rotated; otherwise exactly what each failure of rename, open and write leaves. |
| `AuditFile.RenameConserves` | internal/audit/logger.go:138-144 | A rename keeps every record in order, unless it replaces a rotated file of the same second, whose records are exactly what is lost. |
| `AuditFile.StepConservesExactlyWhen` | internal/audit/logger.go:124-266 | Whatever fails, an operation adds exactly the written event and loses nothing if and only if it does not rename onto a non-empty rotated file. |
| `AuditFile.RunConservesExactlyWhen` | internal/audit/logger.go:124-266 | Over any run with any failures the files in order hold the old records and everything written since, in order, if and only if no rename replaces a file with records; otherwise they hold fewer records. |
| `AuditFile.SecondRotationReplacesTheFirst` | internal/audit/logger.go:124-153 | Two events and two rotations within one second: only the second event is left. |
| `AuditFile.RotationLosesNothing` | internal/audit/logger.go:124-266 | If nothing fails and no two rotations share a second, the rotated files in order and the current file are all logged events. |
| `AuditFile.FileIsLostExactlyWhen` | internal/audit/logger.go:124-237 | The open file is lost if and only if a rotation fails to open it again. |
| `AuditFile.LostForGood` | internal/audit/logger.go:124-266 | A lost file is never opened again: the disk does not change any more and no later event is written. |
| `AuditFile.EverythingIsWrittenExactlyWhen` | internal/audit/logger.go:214-261 | Every logged event is written if and only if, while there is something to log, the file is open, its writes succeed and rotation can open it again. |
| `AuditFile.RunKeepsEverythingExactlyWhen` | internal/audit/logger.go:124-266 | A run keeps every old record and every logged event, in order, if and only if it has no such rename and nothing it logs is dropped. |
| `AuditFile.StepFitsExactlyWhen` | internal/audit/logger.go:214-261 | Under a fixed positive limit an operation keeps every file below the limit plus its last record if and only if it does not write to a file at the limit whose size cannot be read, or whose rename fails while the reopening works. |
| `AuditFile.FilesFitExactlyWhen` | internal/audit/logger.go:214-261 | The files keep to that bound throughout a run if and only if no operation of the run does this. |
| `AuditFile.FilesStayBounded` | internal/audit/logger.go:214-261 | So they do if sizes can be read and files renamed, whatever writes and reopenings fail. |
| `AuditFile.FileGrowsWithoutBound` | internal/audit/logger.go:214-237 | While rotations are skipped in this way, the current file takes every event of a run of any length. |
| `ResponseCache.Cache.constructor` | internal/dashboard/cache.go:25-27 | An empty cache with the ttl. |
| `ResponseCache.Cache.GetEntry` | internal/dashboard/cache.go:30-38 | The data of an entry that has not expired, and nothing otherwise; nothing changes. |
| `ResponseCache.Cache.Set` | internal/dashboard/cache.go:41-48 | The entry expires a ttl after it is stored. |
| `ResponseCache.Cache.Invalidate` | internal/dashboard/cache.go:51-55 | Removes that key only. |
| `ResponseCache.Cache.InvalidatePrefix` | internal/dashboard/cache.go:58-66 | Removes exactly the keys of which the prefix is a prefix, in any map order. |
| `ResponseCache.Cache.Serve` | internal/dashboard/cache.go:84-112 | An uninterrupted request: hit or miss, answer, and the entries left. |
| `ResponseCache.MakeKey` | internal/dashboard/cache.go:84-89 | User part, path and raw query. |
| `ResponseCache.KeysAreInjective` | internal/dashboard/cache.go:84-89 | Requests share a key if and only if they are equal, when role and namespaces have no `:` or `/` and the path starts with `/` and has no `?`. |
| `ResponseCache.KeysCanCollide` | internal/dashboard/cache.go:84-89 | One collision: two users whose role or namespaces contain a `:` and whose requests share a key. |
| `ResponseCache.RefreshLeavesThePlainEntry` | internal/dashboard/cache.go:84-112 | A request that asks for a refresh is never a HIT and gets the handler's body; but afterwards the plain URL is served exactly as if it had not happened. |
| `ResponseCache.HitsAreJustified` | internal/dashboard/cache.go:82-113 | Under every interleaving of requests, refreshes, invalidations and the warmer's steps, for each HIT body: the handler returned it for that key, or a warmer call that panicked had written it; since then it was stored, or stored again, under the key; and that store was at most ttl before the HIT. |
| `ResponseCache.HitsAreAnswersExactlyWhen` | internal/dashboard/cache.go:82-113 | In a run whose panicked output differs from all answers, every HIT body is an answer of the handler if and only if no entry served came from a panicked call. |
| `CacheServing.HitExactlyWhen` | internal/dashboard/cache.go:84-103 | A request is a HIT if and only if no refresh is asked for, its key is stored and the entry has not expired; a HIT gives the stored body and changes nothing, a MISS the handler's. |
| `CacheServing.MissFillsTheCache` | internal/dashboard/cache.go:103-112 | After a miss with a body of 1 byte to 5 MiB - 1, the same request is a HIT with that body at any time up to a ttl after the store and a MISS later; another body is not stored; no other key is touched. |
| `CacheServing.ServingIsUninterrupted` | internal/dashboard/cache.go:84-112 | The uninterrupted request is the drop, lookup, answer and store of the interleaved system with nothing between them: same answer, same entries. |
| `CacheServing.ExactlyDroppedKeysMiss` | internal/dashboard/cache.go:51-66 | Exactly the keys dropped, singly or by prefix, are missed where they would have been found. |
| `CacheServing.FailedRequestLeavesNothing` | internal/dashboard/cache.go:84-112 | A request whose handler panicked stores nothing. |
| `ResponseCache.PanicIsServed` | internal/dashboard/handler_batch.go:95-104 | A warmer call that panics half way leaves its partial output in the cache, and the next request for the plain path gets it as a HIT. |
| `ResponseCache.EveryHitIsAnAnswerExactlyWhen` | internal/dashboard/handler_batch.go:82-105 | Over all runs, every HIT body is an answer the handlers can give for its key if and only if whatever a panicking call for a warmed path can leave behind, and the cache takes, is itself one. |
| `CacheAges.SavesAreCounted` | internal/dashboard/handler_batch.go:54-113 | One pass of the pool at a time, each listed path taken once per place in the list: under every interleaving and any invalidations, a HIT body that a handler returned is at most s + m * d + ttl old, and one that a panicked call left at most m * d + ttl, where bodies are stored at most s after their handler returned, workers save at most d after their check, and no path is listed more than m times. |
| `CacheCover.RunStaysYoung` | internal/dashboard/handler_batch.go:82-105 | If entries of warmed paths are not invalidated and d <= ttl, then at most s + d + ttl and 2 * d + ttl, however often a path is listed: a check misses only before the body is first stored. |
| `CacheRelays.HitsAreAtMostExactlyWhen` | internal/dashboard/handler_batch.go:54-113 | For every list of paths and every setting, the least bound on the age of HIT bodies: s + k * d + ttl for returned bodies, with k = m if warmed entries are invalidated or d > ttl, and k = 1 otherwise; k * d + ttl for left ones, with k = m in the first case and the smaller of 2 and m otherwise. |
| `CacheRelays.RelayServes` | internal/dashboard/handler_batch.go:82-105 | The runs that reach it: a worker saves what it met just after the check of the next worker on the same path has missed, as often as the pass still lists the path; then a request is served that body a ttl after the last save. |
| `CacheRelays.SavesOfARepeatedPath` | internal/dashboard/handler_batch.go:54-113 | A body of a path listed once is saved on by one worker at most; of a path listed twice, a returned body is saved on twice if and only if warmed entries are invalidated or d > ttl, a left one always can be. |
| `CacheRelays.HitsAreAtMostATtlOldExactlyWhen` | internal/dashboard/handler_batch.go:82-105 | With every body stored when its handler returns, no HIT body of any run is older than ttl if and only if workers save at the instant of their check. |
| `CacheAges.RefreshesLeaveWarmedPathsAlone` | internal/dashboard/cache.go:84-94 | A refresh drops a key with a query, so never the entry of a warmed path: in the program as it is, nothing invalidates those. |
| `Warmer.EveryPathIsTakenOnce` | internal/dashboard/handler_batch.go:72-113 | Under every interleaving of the six workers and any handler panics, the paths taken are a prefix of the list, and when all workers have left it is the whole list, each path once, and each is cached or was answered with an empty body or one of 5 MiB or more. |
| `Warmer.EntriesAreAnswers` | internal/dashboard/handler_batch.go:72-105 | Under every interleaving, an entry of the cache afterwards was there at the start, was put there by a request, or is the body a handler wrote for a worker that had asked for the path in its key. |
| `Warmer.PoolAlwaysDrains` | internal/dashboard/handler_batch.go:72-113 | Every interleaving is finite, and while a worker is left some step is possible: no deadlock. |
| `Warmer.RebuildBatchSummary` | internal/dashboard/handler_batch.go:122-157 | Each path's status: ok if its entry is there, has not expired and parses, pending if it is not there or has expired, error otherwise; OK and Pending count the places of the list with that status, and OK + Pending + errors = number of paths, repeats included. |
| `Warmer.CountsAreRead` | internal/dashboard/handler_batch.go:122-157 | OK is the number of places of the list whose entry is live and parses, Pending of those without a live entry. |
| `Warmer.CountIsExactWhen` | internal/dashboard/handler_batch.go:157 | Count, the size of the result map, is the number of paths if and only if none repeats. |
| `Warmer.PendingExactlyWhen` | internal/dashboard/handler_batch.go:72-135 | After a pool run a path is pending exactly when its answer was empty or had 5 MiB or more and nobody else cached it, or its entry has expired. |
| `AlertStorms.DetectAlertStorms` | internal/dashboard/handlers_alert_noise.go:371-412 | The in-place loop counts the storms among the greedy windows of the sorted, parsable events. |
| `AlertStorms.LoopCountsWindows` | internal/dashboard/handlers_alert_noise.go:391-409 | One pass with windowStart and count is the number of windows with more than twenty events. |
| `AlertStorms.ParsedAre` | internal/dashboard/handlers_alert_noise.go:376-382 | The times that are sorted are those of the parsable stamps, each as often as it occurs. |
| `AlertStorms.WindowsPartitionExactlyWhen` | internal/dashboard/handlers_alert_noise.go:376-409 | The windows put together are the sorted events; all span at most five minutes if and only if the events up to five minutes after the zero time do, since the first window starts at the zero time. |
| `AlertStorms.StormsAreCostly` | internal/dashboard/handlers_alert_noise.go:391-411 | storms * 21 <= number of events. |
| `AlertStorms.CrowdedIntervalIsNoticedExactlyWhen` | internal/dashboard/handlers_alert_noise.go:391-411 | n events in a closed five-minute interval, anywhere relative to the windows, force a storm if and only if n >= 41; away from the zero time, if and only if n >= 40. |
| `AlertStorms.OrderDoesNotMatter` | internal/dashboard/handlers_alert_noise.go:376-411 | The count is the same for every order of the input. |
| `Capacity.NodeUsage` | internal/dashboard/handlers_capacity_headroom.go:125-144 | Requests and pod count of the running, assigned pods of each node. |
| `Capacity.Summarize` | internal/dashboard/handlers_capacity_headroom.go:147-204 | Free CPU, memory and pod slots over all nodes. |
| `Capacity.FreeCountsEveryPodOnce` | internal/dashboard/handlers_capacity_headroom.go:125-204 | What is free is what is allocatable less the requests of the running pods on listed nodes, each counted once. |
| `Capacity.FitOf` | internal/dashboard/handlers_capacity_headroom.go:215-246 | MaxFit is the fit by the resource named as limiting and is no more than any of the three. |
| `Capacity.MaxFitIsExactForThePool` | internal/dashboard/handlers_capacity_headroom.go:215-246 | With nothing over-committed in total, a count of pods fits the pooled resources if and only if it is at most MaxFit. |
| `Capacity.MaxFitBoundsPlacementsExactlyWhen` | internal/dashboard/handlers_capacity_headroom.go:203-245 | For positive sizes, every placement that respects every node totals at most MaxFit if and only if the per-node fits, negative ones counted as zero, sum to at most MaxFit. |
| `Capacity.PlacementsStayBelowMaxFit` | internal/dashboard/handlers_capacity_headroom.go:203-245 | If no node is over-committed, any placement that respects every node totals at most MaxFit. |
| `Capacity.OvercommitmentHidesRoom` | internal/dashboard/handlers_capacity_headroom.go:203-245 | With one over-committed node MaxFit can be zero while two pods fit on another. |
| `CapacityByPosition.UsageIsRead` | internal/dashboard/handlers_capacity_headroom.go:125-144 | A node's usage is the sum, over the list of pods and their containers by position, of the CPU and the memory of the running pods on it, and their number. |
| `CapacityByPosition.FreeIsRead` | internal/dashboard/handlers_capacity_headroom.go:125-204 | With distinct node names: what is free is the sum over the nodes less that of the running pods on them, and less one slot for each. |
| `CapacityByPosition.FitIsRead` | internal/dashboard/handlers_capacity_headroom.go:215-246 | Each fit is the largest number of pods its resource has room for, or 9999 if the profile needs none of it; MaxFit is the least, and the limiting resource is the first of cpu, memory and pod slots that has it. |
| `Capacity.ProjectionFitsExactlyUntilExhaustion` | internal/dashboard/handlers_capacity_forecast.go:258-320 | With positive requests and growth and allocatable above requested, the projection at day h, before any rounding, is within allocatable if and only if h <= ExhaustionDays. |
| `Capacity.PodsFitExactlyUntil` | internal/dashboard/handlers_capacity_forecast.go:258-335 | The projected number of pods, which the code truncates, is within the capacity up to PodExhaustionDays, and exactly until the untruncated projection reaches the capacity plus one. |
| `Capacity.FirstBottleneck` | internal/dashboard/handlers_capacity_forecast.go:338-348 | The earliest positive day count and the first resource that has it, or none. |
| `Capacity.DaysAreZeroExactlyWhen` | internal/dashboard/handlers_capacity_forecast.go:314-335 | A growing resource has day count zero if and only if it runs out within one day. |
| `Capacity.BottleneckIsTheLastDayExactlyWhen` | internal/dashboard/handlers_capacity_forecast.go:314-348 | For growing resources, the first bottleneck's day is the last one on which all of them, before rounding, still fit if and only if none runs out within one day. |
| `CapacityByPosition.GrowthIsFivePercent` | internal/dashboard/handlers_capacity_gap.go:245-252 | The growing use starts as given and grows by a twentieth a month. |
| `Capacity.EstimateExhaustion` | internal/dashboard/handlers_capacity_gap.go:239-254 | For 0 < used < total the least m < 36 with used * 1.05^m >= total; ">36 months" if and only if used * 1.05^35 < total; unknown exactly otherwise. |
| `CostEstimator.RoundTo` | internal/cost/estimator.go:288-294 | The loop computes the power of ten; the result is the truncated shifted value over it. |
| `CostEstimator.RoundedIsWhole` | internal/cost/estimator.go:288-294 | Rounding gives a whole number of units of the last place. |
| `CostEstimator.RoundingError` | internal/cost/estimator.go:288-294 | Rounding a non-negative amount moves it by at most half a unit of the last place. |
| `CostEstimator.Aggregate` | internal/cost/estimator.go:92-120 | The map holds exactly the named namespaces, each with its pods, requests and workload names. |
| `CostEstimator.AddWorkloads` | internal/cost/estimator.go:106-112 | Exactly the names of the owners of the five workload kinds. |
| `CostEstimator.TopWorkloads` | internal/cost/estimator.go:127-134 | The first five names, in order, and before all others. |
| `CostEstimator.PriceAll` | internal/cost/estimator.go:122-144 | In any map order, one right row per namespace, and the sum of the unrounded costs. |
| `CostEstimator.Summary` | internal/cost/estimator.go:80-171 | Rows by falling cost, one per namespace, each with the number of its pods, its requests added up over pods and containers by position, its cost cores * perCore + GB * perGB, rounded, its share, and its first five workloads; total cost is the same price of the requests of all pods of named namespaces, total pods counts each of them once, total CPU and RAM are the rounded sums of their columns. |
| `CostEstimator.SummaryReads` | internal/cost/estimator.go:92-160 | That rows and totals, as computed by grouping, are these sums over the list of pods by position. |
| `CostEstimator.GroupedIsUngrouped` | internal/cost/estimator.go:92-125 | For any worth of a pod, the namespace sums add up to the sum over all pods of named namespaces, none lost or counted twice. |
| `CostEstimator.EveryPodIsCounted` | internal/cost/estimator.go:92-158 | The pods of the rows sum to the number of pods with a namespace. |
| `CostShares.PercentagesAddUp` | internal/cost/estimator.go:153-156 | With non-negative requests and prices and a positive total, |sum of percentages - 100| <= n * (0.05 + 0.5 / total) for n rows. |
| `CostShares.ColumnsAddUp` | internal/cost/estimator.go:136-160 | The rounded CPU and RAM columns sum to the exact requests within n half thousandths. |
| `Grouping.GroupsAddUp` | internal/cost/estimator.go:92-125 | Sums by key over distinct keys add up to the sum of all items with one of the keys. |

## Left out

- AuditFile.FilesFitExactlyWhen: is about runs under one positive limit; a limit lowered on the way is not covered.
- CostShares.PercentagesAddUp: is about non-negative requests and prices; `roundTo` rounds negative amounts towards zero after the shift.
- AuditQuery.RingPageExactlyWhen: assumes timestamps that increase as strings in log order, which events of one second need not do.
- AuditQuery.ResultsAreChronologicalExactlyWhen: takes the order in time of two whole seconds to be the string order of their fixed-width form, and covers timestamps in UTC only.
- Retry (`internal/resilience/resilience.go:32-59`) is modelled where it is called, without the waiting time between attempts.
- The clock: one reading per operation, except that the collector and the cache take the several readings the code takes; the prune loop reads once instead of per entry.
- `sort.Slice` is modelled by insertion sort; callers use only that the result is a sorted permutation, except that the order of equal elements is fixed.
- The label selector of the RoleBinding lists is equality of the user label; during one sync the same calls fail each time.
- A null column written by PATCH reads back as the empty string; handlers without an RBAC syncer are not modelled.
- Overlapping runs on one conversation id, and requests racing within one admin handler. Invalidations and the middleware
  inside a warmer request are part of `ResponseCache`, not of `Warmer`, which follows the producer and the summary.
- The wording of prompts, and string lengths in bytes rather than characters.
- Type and time of a memory item, and score, grade and summary of the warmer's entries.
- Floating-point rounding and integer overflow.
- Audit clean-up by age, GetByID and the file-backed QueryFile; store lookup errors in uniqueUsername.
- HTTP, JSON, cookies, bcrypt, JWT, LDAP, OIDC and SQL; the user store is a map.
- The other dashboard handlers, and the scores, urgency and risk labels of those modelled here: counting and clamping only.
- Controllers, providers, the tools themselves, custom resource types and start-up.
