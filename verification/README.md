# Agent platform: verified models of its stateful engines

The platform is a multi-tenant service that runs LLM agents: it answers HTTP requests, calls models, skills and tools,
streams tokens to a browser, and keeps sessions, caches and peer tables. This project models the parts that carry
state across calls or interleave with each other, and proves what they keep over every input, every run and every
interleaving.

| file | what it models |
|---|---|
| `CircuitBreaker.dfy` | the per-skill breaker as an object, and its meaning as a function of the history of questions and reports |
| `Backoff.dfy` | the doubling retry loop of the agent graph and the closed-form delays of the skill engine |
| `AtomicEngine.dfy` | one skill execution: lookup, admission, retry loop, the one report |
| `SkillSystem.dfy` | any number of executions interleaving on shared breakers |
| `Semaphore.dfy` | the two-level execution limiter, as an object and as interleaving channel operations |
| `TokenStore.dfy`, `TokenSystem.dfy` | refresh-token rows and the Redis blacklist: the store object, and Refresh/Logout requests interleaving statement by statement (the rotation pattern of section 10.4 of RFC 6749) |
| `TokenSessions.dfy`, `TokenBlacklist.dfy` | what that means for sessions and logouts, and what the blacklist adds to the database |
| `RefreshQueue.dfy` | the browser interceptor that shares one session refresh among all requests |
| `BrowserSession.dfy` | the interceptor, the cookie and the server together |
| `GatewayCache.dfy` | the per-tenant gateway cache against the settings row |
| `StateGraph.dfy`, `ReAct.dfy` | the bounded graph interpreter, and the ReAct agent built on it |
| `Pipeline.dfy`, `PipelineSchedules.dfy`, `PipelineBuilder.dfy` | the pipeline engine, its goroutines, and the builder language |
| `Strings.dfy`, `Sse.dfy`, `Json.dfy`, `SseEvents.dfy` | the event stream from the handler's printer to the browser's callbacks (section 9.2 of the WHATWG HTML standard) |
| `RankFusion.dfy`, `RankConsensus.dfy` | reciprocal rank fusion of two searches, and what it guarantees documents both found |
| `Discovery.dfy` | the peer directory with its capability index |
| `Negotiation.dfy` | task negotiations, their timers and statistics |
| `ParagraphPacking.dfy` | greedy packing of lines into chunks |
| `Wrappers.dfy` | the optional value, the failing call and the lost statement the modules share |

How to read it. Code that mutates an object is a class. Its methods' contracts give the new state, either as a value-level
step function of the old one (the breaker, the directory) or as the state of the machine after the same events (the
interceptor, the negotiations); where the program's statements can interleave inside a method, a lemma shows that the
machine, left alone, does what the method does (`MachineAgreesWithLimiter`, `MachineAgreesWithObject`,
`UndisturbedRefresh`); of the skill engine that holds in every interleaving (`MachineAgreesWithEngine`). Concurrent code is a state machine: an action is one atomic statement
of one request (a lock-protected method, an SQL statement, a Redis command, a channel operation), a run is an
arbitrary list of actions, and `Exec` is the state it leads to, so a lemma about `Exec(acts)` speaks about every
interleaving. A database statement may be done, or be lost with or without having been applied. Time is an integer that
an action may advance. What the outside world answers (providers, the model, the database, Redis, decryption,
cancellation, random identifiers) comes in as a parameter and is quantified over.

Where the code does not meet a law that is stated of it everywhere, the exact condition is proved instead:

- the breaker's threshold reads as configured exactly when it is at least one (`ConfiguredThresholdIsExact`);
- the two back-off schedules agree exactly when the base delay is within the cap (`SchedulesAgreeExactly`);
- an update of the settings row that dropped the entry is visible to every later hit exactly when no load straddles it
  (`UpdateVisibleUnlessStraddled`), and one whose statement was applied but reported as failed, so that nothing was
  dropped, exactly when no live entry is cached either (`LostUpdateVisibleExactly`);
- frames round-trip exactly for payloads without blank lines and surrounding white space (`RoundTripExactly`);
- the events of a stream cause exactly the callbacks they stand for when no error has an empty message, and only then
  (`DispatchMeansEvents`, `ReceiveEvents`);
- building a pipeline loses no step exactly when each branch of a condition has at most one (`NothingLostExactly`); the
  documentation of `Then` and `Else` speaks of a sub-pipeline, the code keeps its first step, and the model follows the code;
- documents found by both searches come first in all outputs exactly up to `topK = 30` (`ConsensusWinsUpToThirty`);
- registering a peer keeps all lookups exact exactly when it drops no capability of a live peer
  (`RegistrationKeepsLookups`, and `ExactThroughoutIffKeeping` for whole runs);
- the blacklist check overrules the database exactly when Redis does not answer (`OnlyAnOutageOverrules`);
- a logout ends its sign-in for good exactly when the sign-in was over before, or it presents the live token and the
  revoking statement takes effect; the handler answers alike when the statement is lost (`LogoutEndsSignInExactly`).

Also modelled as coded: `RetryFn` with no attempts allowed returns a zero value and no error; a negative retry count
makes the skill engine call no provider and report a failure.

## Model

| member | source | states |
|---|---|---|
| CircuitBreaker.HistoryDecidesState | internal/skillgateway/circuit_breaker.go:91-154 | for every configuration and every history: closed iff fewer failures than the opening count were reported since the last success; probing iff half-open |
| CircuitBreaker.ConfiguredThresholdIsExact | internal/skillgateway/circuit_breaker.go:133-154 | that law holds with the configured threshold itself for all histories iff the threshold is at least 1 |
| CircuitBreaker.FewFailuresAdmit | internal/skillgateway/circuit_breaker.go:96-98 | with fewer failures than the opening count since the last success, every caller is let through at any time |
| CircuitBreaker.HalfOpenHasOneProbe | internal/skillgateway/circuit_breaker.go:91-115 | a half-open breaker has admitted exactly one caller since the episode began |
| CircuitBreaker.ProbeIsExclusive | internal/skillgateway/circuit_breaker.go:99-113 | a caller let through by a breaker that is not closed is alone: nobody else is until something is reported |
| CircuitBreaker.StaysTripped | internal/skillgateway/circuit_breaker.go:91-154 | after an opening, and until a success is reported, the breaker never closes and never forgets that it opened |
| CircuitBreaker.NoEarlyAdmission | internal/skillgateway/circuit_breaker.go:91-115 | nobody is admitted within the recovery timeout of an opening unless a success was reported in between |
| CircuitBreaker.RemembersLatestOpening | internal/skillgateway/circuit_breaker.go:133-154 | a breaker that is not closed remembers the time of its latest opening; failures reported while open do not postpone recovery |
| CircuitBreaker.RecoversOnTime | internal/skillgateway/circuit_breaker.go:99-106 | an open breaker admits the next caller iff the recovery timeout since its latest opening has passed |
| CircuitBreaker.Manager.GetOrCreate | internal/skillgateway/circuit_breaker.go:73-88 | creating a breaker on first use changes no breaker's observable state |
| CircuitBreaker.Manager.Allow | internal/skillgateway/circuit_breaker.go:91-115 | the answer is admission of the skill's breaker, and yes while few failures are behind it; only that breaker moves, and every breaker stays the meaning of its own history |
| CircuitBreaker.Manager.RecordSuccess | internal/skillgateway/circuit_breaker.go:118-130 | a success is appended to that skill's history only, and the state remains what the history means |
| CircuitBreaker.Manager.RecordFailure | internal/skillgateway/circuit_breaker.go:133-154 | a failure is appended to that skill's history only, and the state remains what the history means |
| Backoff.DoublingFollowsClosedForm | internal/agent/graph/retry.go:26-46 | with base within the cap, the doubled-and-capped delay before retry k is min(base*2^(k-1), max) |
| Backoff.SchedulesAgreeExactly | internal/agent/graph/retry.go:26-46 | the two schedules agree on every retry iff base <= max |
| Backoff.DelaysNeverDecrease | internal/skillgateway/atomic.go:117-121 | later delays are never shorter and never over the cap |
| Backoff.TotalDelayBound | internal/skillgateway/atomic.go:117-121 | n waits take at most n times the cap |
| Backoff.RetryResultIsUnique | internal/agent/graph/retry.go:21-46 | the loop-free description of a retry (first success, else the cancellation that came first, else the last error) admits one result |
| Backoff.RetryFn | internal/agent/graph/retry.go:21-46 | the loop returns that result, waited exactly the doubling schedule, and called no more often than allowed; a cancellation cuts the waits off right after the failed call it reports |
| AtomicEngine.VerdictIsUnique | internal/skillgateway/atomic.go:105-183 | for a given behaviour of provider and context there is one verdict |
| AtomicEngine.VerdictExplained | internal/skillgateway/atomic.go:105-183 | every provider call before the last failed and none was preceded by a cancellation; the last call, or the cancellation that prevented the next, is the verdict; giving up takes the whole budget |
| AtomicEngine.Engine.Execute | internal/skillgateway/atomic.go:58-183 | an unknown skill touches no breaker; a refused call only asks; a breaker with few failures refuses nobody; an admitted call asks once and reports once, success iff it succeeded; a request with n retries gets n + 1 attempts, eleven at most, and is called at least once unless cancelled before; delays start at the requested base or 100 ms, double up to 10 s, and sum to at most 100 s; the answer is the last call's, or the cancellation |
| AtomicEngine.Engine.Attempts | internal/skillgateway/atomic.go:92-183 | every return path of the retry loop reports exactly once, and the delays waited are the schedule of the attempts made |
| AtomicEngine.Engine.Delay | internal/skillgateway/atomic.go:117-122 | the delay before attempt k is the exponential one, capped |
| SkillSystem.RunKeepsInv | internal/skillgateway/atomic.go:77-183 | every step of every interleaving keeps the attempt, debt and prober invariants |
| SkillSystem.HalfOpenIsPending | internal/skillgateway/atomic.go:77-183 | whenever a breaker is half-open, the caller that opened the episode is in flight and has not reported |
| SkillSystem.OneReportPerAdmission | internal/skillgateway/atomic.go:77-183 | in every interleaving a returned call reported exactly once if admitted and never otherwise; running calls have not reported; 11 calls and 100 s bound every call |
| SkillSystem.ExhaustedMeansAllAttempts | internal/skillgateway/atomic.go:92-183 | in every interleaving a call gives up only after n + 1 provider calls for a request with n retries, eleven at most |
| SkillSystem.NeverWedged | internal/skillgateway/circuit_breaker.go:91-154 | when no call of a skill is in flight its breaker is not half-open and admits again once the timeout is over |
| SkillSystem.EveryCallReturns | internal/skillgateway/atomic.go:105-183 | however the others are scheduled, a call returns after at most 35 steps of its own |
| SkillSystem.RunStaysOnCourse | internal/skillgateway/atomic.go:105-183 | in every interleaving a call that meets the world of a script stands where the script puts it: attempts, last error, provider calls and time waited |
| SkillSystem.MachineAgreesWithEngine | internal/skillgateway/atomic.go:105-183 | in every interleaving, whatever the other calls do, a call that was admitted and meets the world of a script returns the one verdict of that script, after the provider calls and the waiting of the sequential method |
| SkillSystem.TraceIsHistory | internal/skillgateway/circuit_breaker.go:91-154 | each breaker in a run is the meaning of the questions and reports that reached it |
| SkillSystem.ClosedIffFewFailures | internal/skillgateway/circuit_breaker.go:91-154 | in every interleaving a breaker is closed iff fewer failures than the opening count reached it since its last success |
| SkillSystem.AskOutcome | internal/skillgateway/atomic.go:66-84 | in every interleaving: an unknown skill is turned away without touching its breaker; a breaker few failures reached lets the call in; any other lets it in as the only probe or turns it away |
| Semaphore.Limiter.Acquire | internal/skill/semaphore.go:30-48 | both slots or none; granted iff both levels have room; no other tenant is affected |
| Semaphore.Limiter.Release | internal/skill/semaphore.go:51-59 | gives back exactly what a successful acquire took |
| Semaphore.Limiter.Execute | internal/skill/code_executor.go:64-82 | runs iff both levels have room, and leaves every slot as before whatever the work does |
| Semaphore.ReachableInv | internal/skill/semaphore.go:30-64 | in every interleaving each counter is the number of calls holding a slot of it, within its cap |
| Semaphore.CapsHold | internal/skill/semaphore.go:30-48 | running executions never exceed the global cap, nor the tenant cap per named tenant |
| Semaphore.NothingBlocks | internal/skill/semaphore.go:42-59 | no receive, in the release or in the roll-back, ever finds its channel empty |
| Semaphore.AllReturnedAllFree | internal/skill/code_executor.go:64-82 | when all calls have returned, every slot is free |
| Semaphore.RefusalIsJustified | internal/skill/semaphore.go:30-48 | a call is turned away only when the cap it met is fully held by other calls |
| Semaphore.EveryCallReturns | internal/skill/code_executor.go:64-82 | a few steps of its own bring every call to its end, whatever the others do |
| Semaphore.AcquireAlone | internal/skill/semaphore.go:30-48 | left alone, the channel operations of a call take exactly the slots the object grants |
| Semaphore.MachineAgreesWithLimiter | internal/skill/code_executor.go:64-82 | left alone, a whole call runs iff the object would run it, and leaves every occupancy as it was |
| TokenStore.Store.Create | internal/auth/token_store.go:35-51 | adds the one live row of a new sign-in, which works exactly until its time to live is over, and keeps the store consistent |
| TokenStore.Store.Rotate | internal/auth/token_store.go:54-79 | succeeds iff the old row is unrevoked; then the old token is dead for ever and listed exactly until its expiry, the new one works for the old one's claims exactly until now + ttl, and no other token is touched; on failure nothing changes |
| TokenStore.Store.Revoke | internal/auth/token_store.go:82-108 | revokes iff unrevoked; the token is dead for ever and listed exactly until its expiry, and no other token is touched |
| TokenStore.Store.Refresh | api/handler/auth_handler.go:288-322 | accepts iff the row exists, is unrevoked and has not expired, whatever Redis lists; the presented token is dead afterwards and the new one works for the same claims exactly until now + ttl |
| TokenSystem.Reachable | internal/auth/token_store.go:35-144 | every interleaving of sign-in, refresh and logout statements, with lost statements and Redis outages, keeps the chain invariants |
| TokenSystem.RevokedStaysRevoked | internal/auth/token_store.go:54-108 | rows are never removed or rewritten and a revoked row stays revoked |
| TokenSystem.OneSuccessor | internal/auth/token_store.go:54-79 | a token has at most one successor, which has the same user, tenant and sign-in, and the token itself is revoked |
| TokenSystem.OneUnrevokedPerSignIn | internal/auth/token_store.go:54-79 | each sign-in has at most one unrevoked row at any moment and one identity throughout |
| TokenSystem.AcceptedOnce | api/handler/auth_handler.go:288-322 | a refresh token is accepted by at most one request, which got its successor and its claims |
| TokenBlacklist.ListedIsDead | internal/auth/token_store.go:134-144 | a blacklisted token is revoked in the database, now and in every continuation |
| TokenBlacklist.ListedUntilExpiry | internal/auth/token_store.go:68-100 | a revocation that reaches Redis makes Redis refuse the token, in every continuation, until its expiry and past it by exactly the time between computing the rest and the SET |
| TokenBlacklist.ExpiredIsNotListed | internal/auth/token_store.go:69-72 | a token that has expired when its rest is computed is not listed |
| TokenBlacklist.RunKeepsOneLister | internal/auth/token_store.go:54-100 | in every interleaving a token is listed by at most one request, the one that revoked it |
| TokenBlacklist.BlacklistDecidesNothing | api/handler/auth_handler.go:302-322 | with Redis answering, the handler with and without the blacklist check run in lockstep: same rows, same accepted requests |
| TokenBlacklist.OnlyAnOutageOverrules | api/handler/auth_handler.go:302-306 | the check refuses a token the database would accept iff Redis does not answer |
| TokenBlacklist.OutageTurnsAway | api/handler/auth_handler.go:302-306 | in every consistent state with Redis down, an active token is turned away although the same run without the check accepts it |
| TokenSystem.OverStays | api/handler/auth_handler.go:288-365 | an answered request keeps its answer in every continuation |
| TokenSessions.DeadTokenIsRefused | api/handler/auth_handler.go:302-312 | a request that arrives with a revoked or expired token is accepted in no continuation |
| TokenSessions.SignedOutStays | internal/auth/token_store.go:54-108 | a sign-in without live row and without rotation under way never has a live row again |
| TokenSessions.SignInLives | internal/auth/token_store.go:35-51 | a sign-in's token works exactly until its time to live is over |
| TokenSessions.HeirLives | internal/auth/token_store.go:54-79 | in every interleaving, when a refresh is accepted its new token works for the old one's claims exactly until that moment + ttl, and the old one never again |
| TokenSessions.LostIsRefused | api/handler/auth_handler.go:308-322 | a refresh whose statement reports an error is refused, applied or not |
| TokenSessions.LogoutEndsSignInExactly | api/handler/auth_handler.go:357-365 | a logout leaves its sign-in without live row in all continuations iff the sign-in was over already, or it presents the live token and the revoking statement takes effect |
| TokenSessions.IdleLogoutEndsNothing | api/handler/auth_handler.go:357-365 | a logout that comes behind a rotation, or whose statement is lost, is answered all the same and some continuation has a live row |
| TokenSessions.LostLogoutLeavesTokenLive | api/handler/auth_handler.go:357-365 | when the revoking statement is lost the user is told to be logged out and the token is as active as before |
| TokenSessions.UndisturbedRefresh | api/handler/auth_handler.go:288-322 | statement by statement and undisturbed, a refresh of an active token leaves the table, blacklist and answer of the store object |
| TokenSessions.SignInThenRefresh | api/handler/auth_handler.go:397-415 | from every reachable state, signing in and refreshing yields a token for the same user that works exactly until its time is over, and retires the first one |
| RefreshQueue.Interceptor.OnUnauthorized | web/src/services/api.js:63-80 | a 401 leads a refresh iff the request never led one and none is running, and is parked while one is; the closure stands where the machine stands after the same events |
| RefreshQueue.Interceptor.ProcessQueue | web/src/services/api.js:46-49 | every parked promise is settled once, in order, and the queue is empty |
| RefreshQueue.Interceptor.OnRefreshEnded | web/src/services/api.js:82-99 | however a refresh ends, the queue is settled by it and the next 401 can lead again; the closure stands where the machine stands after the same events |
| RefreshQueue.RunKeepsInv | web/src/services/api.js:43-104 | every order of events keeps the queue, leader and parking invariants |
| RefreshQueue.UnauthorizedIsHandled | web/src/services/api.js:63-80 | in every run a 401 fails a request that led before, parks one while a refresh runs, and otherwise makes it lead one |
| RefreshQueue.SingleFlight | web/src/services/api.js:63-80 | at most one refresh in flight, in flight iff the flag is set, and nobody is parked without one |
| RefreshQueue.SettledOnceByOwnRefresh | web/src/services/api.js:46-99 | each parked promise is settled exactly once, by the refresh during which it was parked |
| RefreshQueue.LeadsAtMostOnce | web/src/services/api.js:63-80 | each request leads at most one refresh, so refreshes never outnumber requests |
| RefreshQueue.EndFreesEverybody | web/src/services/api.js:82-99 | the end of a refresh resends or closes its leader and every parked request according to how it ended, and leaves everybody else alone |
| BrowserSession.RunKeepsHealthy | web/src/services/api.js:62-99 | every run of page, server and strangers keeps the browser's token or its refresh in good order, and its secrets its own |
| BrowserSession.EveryRefreshIsAccepted | api/handler/auth_handler.go:288-322 | after any sign-in and in every interleaving without outage, expiry or theft, single flight makes the browser present each refresh token at most once, and none of its refreshes is refused |
| BrowserSession.RefreshGoesThrough | web/src/services/api.js:79-99 | a browser whose token has not expired gets through a 401: its request leads, the cookie becomes a new token for the same user with its full time to live, and the request is sent again |
| GatewayCache.TenantGatewayCache.Get | internal/llmgateway/tenant_cache.go:28-41 | a hit iff an entry is live; an expired entry is evicted and nothing else |
| GatewayCache.TenantGatewayCache.Set | internal/llmgateway/tenant_cache.go:43-48 | the entry is live exactly until its time to live is over |
| GatewayCache.TenantGatewayCache.Invalidate | internal/llmgateway/tenant_cache.go:50-54 | the tenant has no live entry at any time, and others keep theirs |
| GatewayCache.TenantGatewayCache.Resolve | api/handler/agent_handler.go:846-916 | a live entry is returned untouched; otherwise exactly the decryptable non-empty keys of the row, remembered iff there are any |
| GatewayCache.DecryptKeys | api/handler/agent_handler.go:875-888 | exactly the providers whose stored key is not empty and decrypts, each with its decrypted key, in any iteration order |
| GatewayCache.BoundedStaleness | internal/llmgateway/tenant_cache.go:28-48 | in every interleaving a hit at t returns keys the row held at some r, stored at s, with r <= s <= t <= s + TTL |
| GatewayCache.MachineAgreesWithObject | api/handler/agent_handler.go:846-916 | step by step and undisturbed, a load answers and leaves the cache as the object's `Resolve` does, on a hit and on a miss |
| GatewayCache.UpdateThenLoad | api/handler/tenant_handler.go:404-415 | what an update stored is what the next load answers |
| GatewayCache.LostQueryAnswersNothing | api/handler/agent_handler.go:854-863 | a load whose query fails answers nothing and stores nothing |
| GatewayCache.CleanRunIsFresh | api/handler/agent_handler.go:846-916 | from a state without old entries or old loads, no continuation shows a hit older than the update |
| GatewayCache.StraddlerSpoils | api/handler/agent_handler.go:846-916 | a load that read before the write and stores after the invalidation does produce such a hit |
| GatewayCache.FreshExactly | internal/llmgateway/tenant_cache.go:28-54 | from any moment on, all continuations are free of hits older than a version iff no older entry is being served and no older load is held |
| GatewayCache.UpdateVisibleUnlessStraddled | api/handler/tenant_handler.go:352-415 | after write and invalidate, all continuations are free of older hits iff no load straddles the update |
| GatewayCache.LostUpdateVisibleExactly | api/handler/tenant_handler.go:404-415 | an update that was applied but reported as failed skips the invalidation: it is visible to all later hits iff no live entry is cached and no older load is held |
| StateGraph.Compile | internal/agent/graph/graph.go:69-80 | accepts exactly the graphs whose entry point is a node and whose fixed edges lead to nodes or to END |
| StateGraph.Invoke | internal/agent/graph/graph.go:87-128 | the loop's outcome is the one the unbounded node-then-edge iteration determines within the budget, ten steps unless a positive one is given |
| StateGraph.OutcomeIsUnique | internal/agent/graph/graph.go:87-128 | graph, cancellations, initial state and budget admit one outcome |
| StateGraph.SettledStays | internal/agent/graph/graph.go:87-128 | an ended or halted iteration stays as it is |
| StateGraph.SuccessIsReachingEnd | internal/agent/graph/graph.go:87-128 | success iff the iteration reaches END after strictly fewer executions than the budget |
| StateGraph.LargerBudgetKeepsSuccess | internal/agent/graph/graph.go:87-128 | a larger budget gives the same successful result |
| StateGraph.StepFollowsGraph | internal/agent/graph/graph.go:95-126 | a step is stopped by a cancellation before its node, by a missing or failing node or a missing edge with their own faults, and otherwise led on by a conditional edge, else a fixed one |
| StateGraph.CancellationStopsRun | internal/agent/graph/graph.go:98-102 | a run cancelled before a step it would still take stops there with the state it had |
| StateGraph.NodeFailureStopsRun | internal/agent/graph/graph.go:107-118 | a failing node stops the run with its error and the state it hands on |
| ReAct.RunTools | internal/agent/graph/react.go:112-200 | the loop appends one tool message per call, in order and with its identifier, or fails as the node does |
| ReAct.ToolAnswers | internal/agent/graph/react.go:119-189 | a tool's output or content becomes its message, its failure becomes one marked as an error, and the knowledge search is answered by its own function or reported as missing |
| ReAct.BuildReActGraph | internal/agent/graph/react.go:35-52 | the two-node graph compiles |
| ReAct.RunIsShaped | internal/agent/graph/react.go:54-200 | after any number of steps of any run, the state is the initial one extended by whole genuine rounds plus the part of the round under way |
| ReAct.SuccessfulRunHasShape | internal/agent/graph/react.go:84-198 | a successful run is rounds of one calling message and one tool message per call, in order and with its identifier, then a plain answer equal to the output; every call, token count and tool text is the one the model or tool gave at that point, and calls, tokens and steps are their concatenation, sum and count; at most half the budget are model steps |
| ReAct.NoMissingNodeOrEdge | internal/agent/graph/react.go:35-52 | a run can be cancelled, fail in a node or run out of steps, but never miss a node or an edge |
| ReAct.ModelFailureStopsRun | internal/agent/graph/react.go:73-83 | a model that fails stops the run with its error, the state as before the call |
| Pipeline.RunBranches | internal/skillgateway/pipeline.go:158-175 | filling the slots in any order of completion gives the branch results in branch order |
| Pipeline.Gather | internal/skillgateway/pipeline.go:177-188 | one pass yields the outputs by name and the first error |
| Pipeline.ExecuteParallel | internal/skillgateway/pipeline.go:158-188 | the group computes what left-to-right evaluation of its branches gives |
| Pipeline.FirstErrorIsLowest | internal/skillgateway/pipeline.go:177-188 | a group fails iff a branch fails, with the error of its lowest failed branch |
| Pipeline.OutputsAreLatest | internal/skillgateway/pipeline.go:177-188 | the output map has exactly the named branches, each with the output of the last branch of that name |
| Pipeline.Execute | internal/skillgateway/pipeline.go:82-116 | the loop over steps, context and previous name refines the recursive evaluation, and the run fails iff a call it made failed |
| Pipeline.AtomicStepIsItsCall | internal/skillgateway/pipeline.go:131-142 | a skill step is one call of its skill with its resolved input, and its output or error is the engine's |
| Pipeline.ConditionChooses | internal/skillgateway/pipeline.go:144-156 | a condition is its then branch or its else branch, and without one calls nothing and yields nothing |
| Pipeline.GroupIsItsBranches | internal/skillgateway/pipeline.go:158-188 | a group runs each branch without a previous step, reports the outputs by name, later branches taking precedence, and leaves out no call |
| Pipeline.ErrorIsFirstFailedCall | internal/skillgateway/pipeline.go:118-188 | however steps are nested, a step fails iff a call it made failed, with the error of the first such call in branch order |
| Pipeline.FailureIsFirstFailedCall | internal/skillgateway/pipeline.go:91-108 | a pipeline fails iff a call it made failed, with the error of the first |
| Pipeline.FailedSkillEndsRun | internal/skillgateway/pipeline.go:93-103 | a skill that fails in a step ends the run there, with that step's error, name and index |
| Pipeline.ReferencesRead | internal/skillgateway/pipeline.go:191-206 | a reference reads the output stored for the step it names, or the empty string; anything else is passed as it is |
| Pipeline.ResultIsStepInContext | internal/skillgateway/pipeline.go:91-108 | result i is that of step i in the context the results before it make |
| Pipeline.ResultsStopAtFailure | internal/skillgateway/pipeline.go:82-116 | failure at step i leaves i+1 results and names that step; success leaves one result per step |
| Pipeline.NothingRunsAfterFailure | internal/skillgateway/pipeline.go:82-116 | steps after a failed one make no call and change nothing |
| PipelineSchedules.MovePreserves | internal/skillgateway/pipeline.go:118-188 | no single move of any goroutine, however nested, changes what the step will come to |
| PipelineSchedules.ScheduleDoesNotMatter | internal/skillgateway/pipeline.go:118-188 | every completion order gives the outputs, the error and the calls of left-to-right evaluation |
| PipelineSchedules.MoveNeverAddsWork | internal/skillgateway/pipeline.go:118-188 | a move changes nothing or takes work away |
| PipelineSchedules.SomebodyCanMove | internal/skillgateway/pipeline.go:158-188 | an unfinished step always has a goroutine that can make progress |
| PipelineSchedules.BusyScheduleIsBounded | internal/skillgateway/pipeline.go:158-188 | every schedule whose turns all go to somebody who can move is no longer than the work there was |
| PipelineSchedules.BusyScheduleFinishes | internal/skillgateway/pipeline.go:118-188 | every such schedule that goes on until nobody can move ends with the result of left-to-right evaluation |
| PipelineSchedules.EveryTaskCanFinish | internal/skillgateway/pipeline.go:158-188 | from every point a bounded schedule finishes, with the evaluated result |
| PipelineBuilder.Builder.AddStep | internal/skillgateway/pipeline_builder.go:21-36 | the builder's steps stay the translation of the statements written so far, plus this one |
| PipelineBuilder.Builder.AddIf | internal/skillgateway/pipeline_builder.go:39-90 | likewise for a condition with the first step of each branch |
| PipelineBuilder.Builder.AddParallel | internal/skillgateway/pipeline_builder.go:93-105 | likewise for a group of all statements of all sub-builders |
| PipelineBuilder.ContextIsLatest | internal/skillgateway/pipeline.go:104-107 | the context has, under each reference, the latest earlier output of the step named in it, and nothing else |
| PipelineBuilder.ResolveIsMeant | internal/skillgateway/pipeline.go:191-206 | resolving an input reads the latest earlier step of that name, or the latest named step for `$prev.output` |
| PipelineBuilder.StmtMeansStep | internal/skillgateway/pipeline.go:118-188 | executing a built statement is evaluating the statement, conditions and groups nested to any depth |
| PipelineBuilder.BuildingPreservesMeaning | internal/skillgateway/pipeline_builder.go:21-109 | building a program and executing it equals a direct evaluator over the surface program, results, failure and calls alike |
| PipelineBuilder.RunProgram | internal/skillgateway/pipeline.go:82-116 | the executing loop on a builder's steps returns the meaning of the program written |
| PipelineBuilder.NothingLostExactly | internal/skillgateway/pipeline_builder.go:52-79 | building keeps every step iff every condition branch has at most one |
| PipelineBuilder.LongBranchIsCut | internal/skillgateway/pipeline_builder.go:52-79 | a concrete program with a longer branch whose second step is never called |
| Strings.TrimIsStretch | internal/textchunk/chunker.go:160-160 | trimming yields a stretch of the string without white space at its ends, and cuts off nothing but white space |
| Strings.TrimFixesTight | internal/textchunk/chunker.go:160-160 | trimming leaves a string alone iff it has none there |
| Strings.SolidTrim | internal/textchunk/chunker.go:160-160 | trimming loses no character that is not white space |
| Sse.SplitAppend | web/src/services/api.js:177-179 | splitting can resume from the last unfinished part: cutting the text changes nothing |
| Sse.SplitGlues | web/src/services/api.js:178-178 | the parts with blank lines between them are the text again |
| Sse.OnlyDataIsDelivered | web/src/services/api.js:180-183 | what is delivered is the text behind `data:` in some part, and nothing else |
| Sse.Reader.Receive | web/src/services/api.js:175-196 | after each chunk the reader's buffer and deliveries are those of the whole text received so far |
| Sse.Reader.Deliver | web/src/services/api.js:180-183 | the loop over parts delivers exactly the payloads of the data parts, in order |
| Sse.Pump | web/src/services/api.js:172-198 | deliveries and buffer depend on the concatenation only, not on the cuts |
| Sse.StreamDelivers | api/handler/agent_handler.go:695-700 | printed frames of deliverable payloads are read back in order, with nothing left over |
| Sse.RoundTripExactly | api/handler/agent_handler.go:695-700 | a list of payloads survives printing and reading iff each is free of blank lines and surrounding white space |
| Sse.PumpStream | web/src/services/api.js:172-198 | the same equivalence for the executing reader under any chunking |
| Json.StringRoundTrip | api/handler/agent_handler.go:718-719 | reading a JSON string literal gives the string it was made from, all escapes included, and stops behind its quote |
| Json.EscapedIsSafe | api/handler/agent_handler.go:718-719 | a string literal contains no markup character and no line end of any kind |
| Json.ObjectRoundTrip | api/handler/agent_handler.go:718-763 | a printed object of strings, integers and booleans reads back field by field |
| SseEvents.ParseMarshal | api/handler/agent_handler.go:718-763 | a token, error or final event marshalled by the server parses to its own members |
| SseEvents.MarshalIsDeliverable | api/handler/agent_handler.go:718-764 | a marshalled event survives framing, whatever its text |
| SseEvents.EventIsDispatched | web/src/services/api.js:184-193 | each event but an error without message causes its own callback, with its own members |
| SseEvents.ReactTo | web/src/services/api.js:186-192 | of an object with several members an error counts first, then the end, then a token |
| SseEvents.DispatchMeansEvents | web/src/services/api.js:184-193 | the payloads cause one callback per event, in order: the token, the message, or an object with the final event's own duration, output, steps and tokens; iff no error has an empty message |
| SseEvents.ReceiveEvents | web/src/services/api.js:172-198 | end to end: events printed, cut anywhere and read leave an empty buffer, and cause exactly their callbacks iff no error has an empty message |
| RankFusion.Accumulate | pkg/vector/vector_store.go:480-487 | one pass adds to each identifier the sum of its reciprocal ranks |
| RankFusion.Collect | pkg/vector/vector_store.go:490-498 | each found document once, the vector search's copy where there is one |
| RankFusion.Tabulate | pkg/vector/vector_store.go:505-510 | the table has every document once with its own fused score, in any iteration order |
| RankFusion.SortByScore | pkg/vector/vector_store.go:512-514 | descending, and a permutation |
| RankFusion.Fuse | pkg/vector/vector_store.go:478-523 | the output is duplicate-free, of size min(topK, union), descending, with fused scores, each document that of the vector search where it has it, and nothing left out scores higher than anything in it |
| RankConsensus.ConsensusScoresHigher | pkg/vector/vector_store.go:479-487 | up to topK 30, a document both searches found scores above one that a single search found |
| RankConsensus.ConsensusComesFirst | pkg/vector/vector_store.go:512-523 | in the output each of the former precedes each of the latter |
| RankConsensus.WitnessBeyondThirty | pkg/vector/vector_store.go:479-487 | for every topK above 30, lists on which the only shared document scores no more than another |
| RankConsensus.SinglesCanLead | pkg/vector/vector_store.go:512-523 | for every topK above 30, an output that begins with a document only one search found although another was found by both |
| RankConsensus.ConsensusWinsUpToThirty | pkg/vector/vector_store.go:459-523 | shared documents come first in every output of fusion, whatever the lists and the order of ties, iff topK <= 30 |
| Discovery.RegisterEffect | internal/agent/a2a/discovery.go:48-82 | registration keeps the index complete; it keeps it exact iff no capability of a live peer is dropped |
| Discovery.UnregisterEffect | internal/agent/a2a/discovery.go:85-117 | removal keeps the index complete, and exact if it was |
| Discovery.ExactIndexIsUnique | internal/agent/a2a/discovery.go:48-117 | a complete, exact index without empty buckets is determined by the live peers |
| Discovery.LookupMissesNobody | internal/agent/a2a/discovery.go:139-176 | with a complete index no qualifying live peer is missed |
| Discovery.LookupIsExact | internal/agent/a2a/discovery.go:139-176 | with an exact one the answer is exactly the live peers having all required capabilities |
| Discovery.LookupsExactIffIndexExact | internal/agent/a2a/discovery.go:139-176 | all lookups are exact iff the index is; a stray entry shows in the lookup for its capability |
| Discovery.RegistrationKeepsLookups | internal/agent/a2a/discovery.go:48-82 | a registration keeps all lookups exact iff it drops no capability of a live peer |
| Discovery.RunsKeepIndex | internal/agent/a2a/discovery.go:48-117 | after any run the index is complete and has no empty bucket; after a run that drops no capability it is exact |
| Discovery.LookupAfterRun | internal/agent/a2a/discovery.go:139-176 | so after any run lookup misses nobody, and after such a run it is exact |
| Discovery.ExactThroughoutIffKeeping | internal/agent/a2a/discovery.go:48-176 | over a whole run all lookups are exact at every moment iff no registration dropped a capability of a live peer |
| Discovery.DiscoveryService.RegisterPeer | internal/agent/a2a/discovery.go:48-82 | the peer is live and listed under each capability; exactness is kept iff no capability was dropped |
| Discovery.DiscoveryService.Unlist | internal/agent/a2a/discovery.go:95-104 | the loop removes the peer from exactly its buckets, and buckets that become empty |
| Discovery.DiscoveryService.UnregisterPeer | internal/agent/a2a/discovery.go:85-117 | exactly that peer goes; completeness and exactness are kept |
| Discovery.DiscoveryService.Cleanup | internal/agent/a2a/discovery.go:250-284 | exactly the peers unseen for longer than the timeout go, in any iteration order; the index invariants are kept |
| Discovery.DiscoveryService.Candidates | internal/agent/a2a/discovery.go:139-168 | intersecting buckets one by one yields the peers listed under all required capabilities |
| Discovery.DiscoveryService.GetPeersWithCapabilities | internal/agent/a2a/discovery.go:139-176 | no qualifying peer missing, none twice, and with an exact index none but live qualifying ones |
| Negotiation.Service.ProposeTask | internal/agent/a2a/negotiation.go:84-107 | a fresh pending negotiation is added and counted |
| Negotiation.Service.OnTimer | internal/agent/a2a/negotiation.go:107-118 | a pending negotiation is cancelled and dropped, any other is left alone |
| Negotiation.Service.RespondToOffer | internal/agent/a2a/negotiation.go:124-175 | answers a pending negotiation and updates the counts and the average of three parts old and one part new; otherwise reports which way it failed and changes nothing |
| Negotiation.Service.CancelNegotiation | internal/agent/a2a/negotiation.go:208-226 | cancels in any state, and fails only for an unknown one |
| Negotiation.Service.RemoveOld | internal/agent/a2a/negotiation.go:229-246 | exactly the old, finished negotiations go, in any iteration order |
| Negotiation.ProposalsAreConserved | internal/agent/a2a/negotiation.go:84-175 | over all runs each negotiation is answered at most once and proposed = accepted + rejected + never answered |
| Negotiation.StatesOnlyMoveForward | internal/agent/a2a/negotiation.go:84-246 | however a run goes on, states move pending to answered to cancelled or pending to cancelled, and answers are final |
| Negotiation.TimedOutIsClosed | internal/agent/a2a/negotiation.go:107-118 | after its timer a negotiation is never answered again; before it, a pending one is in the table |
| Negotiation.WithdrawnIsClosed | internal/agent/a2a/negotiation.go:208-226 | a withdrawn negotiation is cancelled and stays so, with the answers it had |
| Negotiation.AnswerIsFinal | internal/agent/a2a/negotiation.go:124-175 | an answer to a pending offer makes it accepted or rejected for good, though it may be withdrawn, and is counted once |
| Negotiation.LateAnswerChangesNothing | internal/agent/a2a/negotiation.go:124-140 | an answer to anything else changes nothing |
| Negotiation.AverageIsBounded | internal/agent/a2a/negotiation.go:146-155 | in every run the truncating average lies between the least and the greatest acceptance duration |
| Negotiation.AverageStaysWithin | internal/agent/a2a/negotiation.go:148-154 | one update of the average keeps it within the bounds extended by the new duration |
| ParagraphPacking.ChunkByParagraphs | internal/textchunk/chunker.go:150-190 | the loop over builder, size and index emits the greedy packing of the trimmed non-blank lines, joined by newlines and numbered |
| ParagraphPacking.PackKeepsLines | internal/textchunk/chunker.go:159-188 | the groups concatenate to the lines |
| ParagraphPacking.PackIsAllowed | internal/textchunk/chunker.go:165-175 | each group is within the limit in bytes or a single line |
| ParagraphPacking.PackIsOptimal | internal/textchunk/chunker.go:159-188 | no other grouping into consecutive allowed groups has fewer |
| ParagraphPacking.ChunksAreLossless | internal/textchunk/chunker.go:150-190 | splitting the emitted chunks into lines gives the text's trimmed non-blank lines; a chunk over the limit is one line |
| ParagraphPacking.ChunksAreFewest | internal/textchunk/chunker.go:150-190 | no allowed grouping of the text's lines has fewer chunks than were emitted |
| ParagraphPacking.ChunksKeepEveryCharacter | internal/textchunk/chunker.go:150-190 | white space aside, the chunks one after the other are the text, character by character |
| ParagraphPacking.LinesJoin | internal/textchunk/chunker.go:153-153 | the lines joined by newlines are the text |
| ParagraphPacking.WidthIsEncodedLength | internal/textchunk/chunker.go:165-165 | a character counts as many bytes as its UTF-8 encoding, which reads back (section 3 of RFC 3629) |
| ParagraphPacking.BytesAreEncoded | internal/textchunk/chunker.go:165-178 | the size of a line is the length of its encoding |

## Left out

- `ChunkText`, `findChunkBoundary` and `SmartChunk`: once a window reaches the end of the text the position is reset and the loop repeats, so there is nothing to terminate (internal/textchunk/chunker.go:55-81).
- PipelineBuilder.BuildingPreservesMeaning: stated for programs whose `Then`/`Else` branches have at most one step, because the builder keeps only the first; `NothingLostExactly` and `LongBranchIsCut` say what happens beyond.
- TokenBlacklist.BlacklistDecidesNothing: stated for runs in which Redis answers the checks, because the handler refuses on a Redis error; `OnlyAnOutageOverrules` and `OutageTurnsAway` say what happens otherwise.
- TokenStore.Store.Refresh: token hashes are taken to be injective and generated tokens fresh; failures after the rotation (reading roles, signing the access token) leave the rotated row as accepted here; deletion of users and their rows is not modelled.
- AtomicEngine.Engine.Execute: providers do not panic, durations are unbounded integers of milliseconds rather than 64-bit nanoseconds, and metrics, traces and logs are omitted.
- Backoff.RetryFn: delays are unbounded integers, so overflow of the doubling is not modelled.
- CircuitBreaker.Manager.Allow: breakers are values in a map rather than shared pointers; the program changes a breaker only under its lock, so each call is one atomic step here.
- ReAct.RunTools: a model call with its retries is one outcome of the world; the retry loop itself is `RetryFn`.
- SseEvents.ReceiveEvents: byte-level UTF-8 decoding of chunks and the rounding of integers beyond 2^53 in the browser are not modelled; the reader understands compact objects with scalar members, which is all the server prints.
- RankFusion.Fuse: scores are exact reals, not floats, and `topK` is not negative (the program panics there); the two searches are input lists.
- BrowserSession.EveryRefreshIsAccepted: the answer to a refresh reaches the browser, the browser has one session, and logging out from the page is not part of the run.
- GatewayCache.UpdateVisibleUnlessStraddled: the settings row is a versioned value; lost updates in the read-merge-write of `UpdateSettings` are not modelled.
- Pipeline.RunBranches: the slots are filled by a loop; all goroutine orders are covered by `PipelineSchedules`.
- Negotiation.Service.RespondToOffer: the clock does not run backwards within a run, so the division of the average never sees a negative operand.
- Discovery.DiscoveryService.GetPeersWithCapabilities: the order of the result, heartbeats and event subscriptions are not modelled.
- Registration methods of the graph (`AddNode`, `AddEdge`, `SetEntryPoint`): plain map updates; the graph is a value here.
- Harness start and stop order: it follows the iteration order of a map, so no order is promised (internal/harness/harness.go:138-157).
- The MCP capability cache, the A2A client, protocol and orchestrator, the memory package and the skill registries: they pass requests on to other services or keep plain tables, and are not modelled.
- Keyword scoring, HTTP clients, SQL, Redis, Milvus, Neo4j and NATS drivers, JWT and AES wrappers, document parsing, the web pages, routing, logging and configuration: foreign calls and I/O.
