# Verified model of the CodeLab AI service

This project models the parts of the CodeLab AI service whose behaviour is decided over whole runs, and proves what they promise. The service runs agents for chat sessions (agent-runtime), issues OAuth tokens (auth-service) and has an experimental message bus (expirements/agent-core). Each component has a module of its own. Where the source changes objects in place, the model has a class whose methods are proved equal to functions on the object's value. The theorems are about those functions and about step systems built from them.

| file | what it models |
|---|---|
| `SessionLocks.dfy` | the table of session locks and its clean-up |
| `LockProtocol.dfy`, `LockTheorems.dfy` | tasks taking, waiting for, handing over and leaving session locks; what holds over all interleavings |
| `Sessions.dfy`, `Facade.dfy` | the session entity and its service; concurrent facade calls and their commits against serial execution |
| `Timeline.dfy`, `SlidingWindow.dfy`, `FixedWindow.dfy` | the two rate limiters and their true bounds |
| `CircuitBreaker.dfy`, `LlmClient.dfy` | the breaker under concurrent calls; one LLM request as retries over the breaker it shares with others |
| `EventBus.dfy` | the subscription index against the flat log of subscriptions; publishing |
| `Jwks.dfy` | Base64urlUInt, section 2 of RFC 7518 |
| `RefreshTokens.dfy` | the refresh-token store; concurrent rotation, reuse alarms and clean-up |
| `Text.dfy`, `Scopes.dfy` | `split`, `join`, `strip`, sorting; the scope normaliser |
| `AgentSwitching.dfy` | agent contexts and their switch histories |
| `Baton.dfy` | the experimental bus and orchestrator |

## Assumptions

- Tasks of one event loop run alone between two awaits. `asyncio.Lock` is a flag with a FIFO of futures: a release clears the flag and wakes the first future, the woken task sets the flag when it runs again, and a cancelled waiter passes the wake-up on when it leaves. The code inside the global lock has no await of its own, so leaving the lock is part of the step that reads or cleans the table. The model lets a task be suspended inside the global lock and between fetching a session lock and acquiring it, which an uncontended `acquire` does not do; in the code only a woken waiter can lose its entry to a clean-up, and the failing run of `LockTheorems.CleanupBreaksExclusion` is of that kind.
- A facade call takes one session lock, and no handler inside it calls the facade or the lock manager again: the four facade methods (`message_orchestration.py:116-273`) are the only users of `lock`, and the handlers call the message processor directly (`hitl_decision_handler.py:163`). The deadlock theorems rest on it.
- A request makes one facade call in one database transaction. The session repository replaces the stored session on save and returns a copy on load; a save is seen by other transactions from the commit on. All writers go through the facade.
- Clocks do not go back, and sleeps last exactly the computed delay. Times that the source keeps as floats are reals.
- A request may die between its INCR and its EXPIRE. A counter in the store of the fixed-window limiter is gone from its expiry instant on. The INCR and the EXPIRE of one check reach the store as separate steps with other checks in between.
- SHA-256 has no collisions, so a refresh token is named by its jti. A signed token carries what was issued with it. A new jti was never used before and is known to nobody before it is saved.
- In the refresh grant every await may let other requests run. The reading of a row, the reading of a pair's rows, and each commit are steps of their own; a row that a request has read is not deleted before it commits its change. A login saves its token in one step.
- The LLM breaker is shared: other calls, each with its own times, may begin and end on it while an attempt is in flight or asleep.

## Where the code does not do what is expected of it

- `cleanup_unused_locks` looks only at the lock flag. Between a release and the next step of the woken waiter the flag is clear although the lock is about to be entered, and evicting the entry then lets a newcomer into the same session beside the waiter. `LockTheorems.CleanupBreaksExclusion` is such a run, and `LockTheorems.SweepIsSafeIff` says exactly which clean-ups are safe.
- `cleanup_unused_locks` returns the excess over the limit, which is more than it deletes when too few entries are unlocked: `SessionLocks.EvictionCount`, `SessionLocks.OneEvictionTooMany`.
- A key of the fixed-window limiter whose EXPIRE never comes is blocked for good once its limit is used up: `FixedWindow.BlockedForGoodIff`.
- With a threshold of zero or less the breaker starts CLOSED at its threshold: `CircuitBreakers.ZeroThresholdIsClosedAtThreshold`, `CircuitBreakers.ZeroThresholdFails`.
- `_int_to_base64url(0)` is the empty text, where the standard has "AA": `Jwks.StandardExceptZero`.
- Validating an accepted scope again does not always return it: `Scopes.RevalidationIff`, `Scopes.RevalidationChanges`.
- Saves are only flushed inside the lock (`session_repository_impl.py:70-74`). They are committed when the request's database session ends (`database.py:112-117`), after the lock is left, and a task that enters in between loads the old messages. That load is the only danger: `Facade.LoadIsSafeIff` says that a load is safe exactly when no other request has uncommitted saves to the session, `Facade.NoLostUpdates` that nothing is lost while all loads are safe, and `Facade.CommitAfterLeavingLosesOne` is a run in the order of the source that loses a message.
- Two refresh requests may both find one token valid before either revokes it, and then both of its children live: `RefreshTokens.TokenForks` and `RefreshTokens.CheckIsSafeIff`. A request that has passed its check saves a live token after an alarm has revoked everything: `RefreshTokens.AlarmComesTooLate` and `RefreshTokens.AlarmIsFinalIff`.
- A revoked token that has also expired raises no alarm, because the expiry of the JWT is checked before the database is asked: `RefreshTokens.AlarmIsRaisedIff` and `RefreshTokens.ExpiredReuseIsNotNoticed`.
- A retry may reach the server although its own request has just opened the breaker, when another call succeeds in between: `LlmClient.AnotherSuccessLetsThrough` and `LlmClient.LaterContactIff`.
- The comments in `client.py` speak of retrying transient errors only. Every exception is retried, including the breaker's own rejection and an answer that does not parse.
- `revoke_token_chain` is described as revoking a rotation chain. It revokes every token of the same user and client, which contains the chain and other logins: `RefreshTokens.AlarmHitsOthersIff` and `RefreshTokens.AlarmHitsAnotherLogin`.

## Model

| member | source | states |
|---|---|---|
| SessionLocks.EvictionCount | agent-runtime/app/infrastructure/concurrency/session_lock.py:96-116 | a clean-up evicts exactly min(excess, unlocked entries), none of them locked; the returned number is right if and only if the table is within its limit or has enough unlocked entries |
| SessionLocks.OneEvictionTooMany | agent-runtime/app/infrastructure/concurrency/session_lock.py:107-114 | an input on which nothing is deleted and one deletion is reported |
| SessionLocks.OldestAreEvicted | agent-runtime/app/infrastructure/concurrency/session_lock.py:100-111 | the oldest unlocked entries go: no unlocked entry stays while a younger one goes |
| SessionLocks.SessionLockManager.Fetch | agent-runtime/app/infrastructure/concurrency/session_lock.py:64-68 | the session's lock, created unlocked and listed last when missing; other entries untouched |
| SessionLocks.SessionLockManager.CleanupUnusedLocks | agent-runtime/app/infrastructure/concurrency/session_lock.py:96-116 | the table afterwards is the old one without the oldest unlocked entries beyond the limit, in the old order, and the excess is returned |
| SessionLocks.SessionLockManager.IsLocked | agent-runtime/app/infrastructure/concurrency/session_lock.py:127-138 | true exactly for a listed session whose lock is taken |
| LockProtocol.InvStep | agent-runtime/app/infrastructure/concurrency/session_lock.py:64-77 | every step of any number of tasks keeps: at most one holder per lock, the flag set exactly while there is one, waiters listed once, only the first waiter of a free lock woken and never left asleep, one holder of the global lock |
| LockTheorems.OneTaskPerSession | agent-runtime/app/infrastructure/concurrency/session_lock.py:72-77 | in every run whose clean-ups evict no entry in use, no two tasks are inside `lock(s)` for the same s |
| LockTheorems.SweepIsSafeIff | agent-runtime/app/infrastructure/concurrency/session_lock.py:100-111 | a clean-up leaves mutual exclusion intact for all later runs if and only if it evicts no entry of a task that can still enter |
| LockTheorems.CleanupBreaksExclusion | agent-runtime/app/infrastructure/concurrency/session_lock.py:100-111 | a run of the code as it is with two tasks inside one session |
| LockTheorems.NoOvertaking | agent-runtime/app/infrastructure/concurrency/session_lock.py:72 | nobody is put ahead of a waiting task, tasks ahead of it go only by their own step, and who takes the lock meanwhile was first ahead of it |
| LockTheorems.GivingUpHandsOn | agent-runtime/app/infrastructure/concurrency/session_lock.py:72 | a waiter can be cancelled before and after it is woken; when it gives up, the others keep their order and the first of them is not left asleep at a free lock |
| LockTheorems.FreeLockIsEntered | agent-runtime/app/infrastructure/concurrency/session_lock.py:64-77 | while no clean-up holds the table, a free listed lock is entered in some continuation, by the first live waiter or else by a newcomer |
| LockTheorems.SomeoneCanGoOn | agent-runtime/app/infrastructure/concurrency/session_lock.py:64-77 | no deadlock, given that a call takes one session lock: whatever a task waits for, the task itself, the table holder, the lock holder or the first waiter has an enabled step |
| LockTheorems.CallsFinish | agent-runtime/app/infrastructure/concurrency/session_lock.py:64-77 | under every scheduling, once no new call starts, a run is no longer than the steps the calls have left and can stop only with every task outside |
| Sessions.AppendKeepsTitle | agent-runtime/app/domain/entities/session.py:103-139 | a message is refused exactly when the session is inactive or full; otherwise it is put last, within the limit, the session stays active, its times are set, and the title stays the first 500 characters of the first non-blank user message |
| Sessions.TakesUntilFull | agent-runtime/app/domain/entities/session.py:103-126 | adding any messages one after the other to an active session succeeds exactly while they fit, and keeps all of them in order |
| Sessions.TitleIsCut | agent-runtime/app/domain/entities/session.py:128-139 | the title is at most 500 characters of the message, from its first one that is no whitespace on |
| Sessions.Session.AddMessage | agent-runtime/app/domain/entities/session.py:103-126 | the whole new session on success, the error and no change otherwise; a session is neither deactivated nor given another limit |
| Sessions.Session.ClearMessages | agent-runtime/app/domain/entities/session.py:262-265 | returns the number of messages, removes them and sets the time of update |
| Sessions.SessionManagementService.CreateSession | agent-runtime/app/domain/services/session_management.py:79-109 | a new empty session under the given or generated id, or an error and no change when it exists |
| Sessions.SessionManagementService.GetOrCreateSession | agent-runtime/app/domain/services/session_management.py:150-153 | an existing session is returned with the store unchanged, a missing one is created |
| Sessions.SessionManagementService.AddMessage | agent-runtime/app/domain/services/session_management.py:188-205 | load, append and save equal the serial operation on the stored session; nothing is saved on an error |
| Facade.NoLostUpdates | agent-runtime/app/domain/services/session_management.py:188-205 | in every interleaving of facade calls, wherever their commits are, in which nobody loads a session while another request has uncommitted saves to it: the store equals the committed operations run serially in the order of commit, and each session holds exactly its added messages, in order, never over the limit, with the right title |
| Facade.RefusedOnlyWhenFull | agent-runtime/app/domain/entities/session.py:113-120 | after any committed operations a stored session takes a message exactly while it holds fewer than 1000 |
| Facade.LoadIsSafeIff | agent-runtime/app/domain/services/session_management.py:188 | loading a session keeps the store serial in all later runs if and only if no other request has uncommitted saves to it |
| Facade.CommitFirstLosesNothing | agent-runtime/app/domain/services/message_orchestration.py:116-122 | so nothing is lost when requests commit before they leave the lock, because the lock then keeps others from loading |
| Facade.StepIsSerial | agent-runtime/app/domain/services/message_orchestration.py:116-122 | every concurrent step either leaves the store alone or is a commit, and that is the request's own operations run alone |
| Facade.OnlySavesOpen | agent-runtime/app/infrastructure/persistence/database.py:112-117 | a transaction is opened or changed only by its own saves and ended by its commit or rollback; a loaded copy is gone after a refusal, a save or a rollback |
| Facade.WithoutExclusionOneIsLost | agent-runtime/app/domain/services/session_management.py:188-205 | two tasks inside one session that takes messages have a run that loses a message, also when both load safely, so the lock is needed |
| Facade.StaleCopyLoses | agent-runtime/app/infrastructure/persistence/mappers/session_mapper.py:159-180 | whoever loads a session before another request's saves to it are committed can undo them: both commits succeed, the store is no serial result, and a stored session loses a message |
| Facade.LeaveIsSafeIff | agent-runtime/app/infrastructure/persistence/repositories/session_repository_impl.py:70-74 | while no clean-up holds the table and all requests so far committed before leaving: leaving the lock keeps the store serial in all later runs of such requests if and only if the request has committed its saves before |
| Facade.CommitAfterLeavingLosesOne | agent-runtime/app/infrastructure/persistence/database.py:112-117 | a run in the order of the source that loses a message: each task calls once, every commit comes after its task has left the lock, nobody cleans up, and all commit |
| SlidingWindow.RateLimitMiddleware.Dispatch | agent-runtime/app/api/middleware/rate_limit.py:72-95 | the log and the decision after prune, check and append |
| SlidingWindow.RateLimitMiddleware.Cleanup | agent-runtime/app/api/middleware/rate_limit.py:123-137 | every client keeps exactly its last minute, clients without one are removed, and their number is counted |
| SlidingWindow.RateLimitMiddleware.Remaining | agent-runtime/app/api/middleware/rate_limit.py:109-111 | reading the header value creates a missing log and changes no other |
| SlidingWindow.RecentIsLastMinute | agent-runtime/app/api/middleware/rate_limit.py:72-76 | pruning keeps every instant of the last 60 seconds as often as it was and no other, and leaves nothing exactly when all are older |
| SlidingWindow.RecentIsEnd | agent-runtime/app/api/middleware/rate_limit.py:72-76 | of a history in order of time pruning removes a beginning only |
| SlidingWindow.CleanedKeepsRecent | agent-runtime/app/api/middleware/rate_limit.py:123-137 | a clean-up removes exactly the clients without an instant in the last minute |
| SlidingWindow.PruningIsInvisible | agent-runtime/app/api/middleware/rate_limit.py:72-95 | for any interleaving of clients, clean-ups and responses the decisions equal those of a limiter that never forgets and counts the last 60 seconds |
| SlidingWindow.AtMostLimitPerMinute | agent-runtime/app/api/middleware/rate_limit.py:69-95 | at every instant t at most `requests_per_minute` accepted requests of a client lie in (t-60, t] |
| SlidingWindow.NeverMoreThanLimit | agent-runtime/app/api/middleware/rate_limit.py:79-111 | no log ever holds more than the limit, so the remaining-requests header stays within 0..limit |
| FixedWindow.RateLimiter.CheckRateLimit | auth-service/app/services/rate_limiter.py:47-64 | the counter, its expiry set only by the first request, the decision and the remaining count |
| FixedWindow.FixedWindowBound | auth-service/app/services/rate_limiter.py:47-104 | with any interleaving of checks of addresses and usernames, each under its own limit and window, any half-open interval as long as a key's window has at most 2*limit - 1 accepted requests of the key |
| FixedWindow.BoundIsReached | auth-service/app/services/rate_limiter.py:47-57 | for every limit and window of a key some run has exactly 2*limit - 1 |
| FixedWindow.WindowIsFixed | auth-service/app/services/rate_limiter.py:47-57 | a set expiry does not move however many checks interleave; all requests before it are counted, the next is accepted exactly while fewer than the limit came, and the first from the expiry on starts at one again |
| FixedWindow.BlockedForGoodIff | auth-service/app/services/rate_limiter.py:47-57 | a key that has used up its limit is refused at all later times, without an EXPIRE for it, if and only if the EXPIRE of the request that opened its window has not come |
| CircuitBreakers.CircuitBreaker.TryEnter | agent-runtime/app/infrastructure/resilience/circuit_breaker.py:108-118 | whether a call is forwarded, and the state it leaves |
| CircuitBreakers.CircuitBreaker.OnFailure | agent-runtime/app/infrastructure/resilience/circuit_breaker.py:149-162 | the state after a counted failure |
| CircuitBreakers.CircuitBreaker.Serve | agent-runtime/app/infrastructure/resilience/circuit_breaker.py:107-175 | any events, served one after the other by these methods, leave the state the theorems speak of |
| CircuitBreakers.ClosedBelowThreshold | agent-runtime/app/infrastructure/resilience/circuit_breaker.py:107-162 | with calls beginning and ending in any order, CLOSED holds exactly when the failure count is below the threshold, and otherwise a failure time is recorded |
| CircuitBreakers.ZeroThresholdIsClosedAtThreshold | agent-runtime/app/infrastructure/resilience/circuit_breaker.py:77-78 | that equivalence holds in all runs if and only if the threshold is at least one |
| CircuitBreakers.ZeroThresholdFails | agent-runtime/app/infrastructure/resilience/circuit_breaker.py:77-78 | with threshold 0 a fresh breaker is CLOSED with 0 failures |
| CircuitBreakers.FailuresSinceCleared | agent-runtime/app/infrastructure/resilience/circuit_breaker.py:131-150 | the failure count is the number of failures since the last success or reset |
| CircuitBreakers.OpenUntilProbe | agent-runtime/app/infrastructure/resilience/circuit_breaker.py:107-128 | after a failure at the threshold the breaker is HALF_OPEN exactly if a call has begun more than the timeout later, and OPEN otherwise, whatever cancelled calls end in between |
| CircuitBreakers.AdmittedIff | agent-runtime/app/infrastructure/resilience/circuit_breaker.py:107-175 | however other calls begin and end after the breaker opened, a call is let through if and only if a success or reset has fewer failures after it than the threshold or the last failure is more than the timeout ago |
| CircuitBreakers.ProbeFailureReopens | agent-runtime/app/infrastructure/resilience/circuit_breaker.py:143-175 | one failure while HALF_OPEN reopens and rejects for the whole timeout |
| CircuitBreakers.FailingCallsAreThrottled | agent-runtime/app/infrastructure/resilience/circuit_breaker.py:107-175 | in a sequential run where every forwarded call fails, the calls forwarded within any time T number at most threshold + T / timeout |
| CircuitBreakers.FailingCallsInFlight | agent-runtime/app/infrastructure/resilience/circuit_breaker.py:107-175 | with at most m calls in flight at once, every one that ends failing, the calls forwarded within any time T number at most threshold - 1 + m + m * T / timeout |
| CircuitBreakers.HalfOpenAdmitsAll | agent-runtime/app/infrastructure/resilience/circuit_breaker.py:107-118 | while HALF_OPEN any number of calls is let through at once |
| LlmClient.LLMProxyClient.MakeRequest | agent-runtime/app/infrastructure/llm/client.py:111-159 | one attempt through the shared breaker, which other calls use while it is in flight; an answer that does not parse still counts as a success for the breaker |
| LlmClient.ReplyEffect | agent-runtime/app/infrastructure/resilience/circuit_breaker.py:107-162 | what each reply does: an answer, whether it parses or not, leaves the breaker CLOSED with no failure, a cancellation leaves what other calls made of it, a failure adds one and opens it at the threshold; a rejection takes no time and changes nothing |
| LlmClient.LLMProxyClient.Retry | agent-runtime/app/infrastructure/resilience/retry_handler.py:101-142 | the attempt loop makes exactly the specified attempts with any events of other calls in between, ends with the verdict of the last, of a cancelled sleep or of none, and leaves the breaker as they left it |
| LlmClient.LLMProxyClient.ChatCompletion | agent-runtime/app/infrastructure/llm/client.py:109-161 | a request is that loop from its first attempt; when it is answered, the breaker is left CLOSED without failures |
| LlmClient.VerdictMeans | agent-runtime/app/infrastructure/resilience/retry_handler.py:103-142 | a request is answered if and only if one of its attempts is, cancelled if and only if an attempt or the sleep after one is, and raises if and only if all retries are used up with neither |
| LlmClient.AnswerCloses | agent-runtime/app/infrastructure/resilience/circuit_breaker.py:121-141 | whatever other calls did before and in between, an answered request leaves the breaker CLOSED without failures |
| LlmClient.AttemptsShape | agent-runtime/app/infrastructure/resilience/retry_handler.py:103-139 | at most max_retries + 1 attempts, stopping at the first answer or cancellation, in an attempt or a sleep, and at nothing else, each one delay after the end of the one before |
| LlmClient.DelaysGrowToTheCap | agent-runtime/app/infrastructure/resilience/retry_handler.py:128-131 | delays are never negative, never fall and never exceed `max_delay` |
| LlmClient.TotalDelayBounds | agent-runtime/app/infrastructure/resilience/retry_handler.py:128-139 | the delays total at most the capped sum and at most the geometric sum |
| LlmClient.GeometricSum | agent-runtime/app/infrastructure/resilience/retry_handler.py:128-131 | the closed form of that sum for delays that grow by one factor |
| LlmClient.UncappedTelescopes | agent-runtime/app/infrastructure/resilience/retry_handler.py:129 | the delays without the cap grow by the exponential base |
| LlmClient.ContactAfterOpeningIff | agent-runtime/app/infrastructure/resilience/circuit_breaker.py:108-129 | when an attempt fails and leaves the breaker OPEN, a later attempt of the same request reaches the server, whatever other calls do, if and only if before one of them a success or reset had fewer failures after it than the threshold or the last failure was more than the recovery timeout ago |
| LlmClient.LaterContactIff | agent-runtime/app/infrastructure/resilience/retry_handler.py:103-139 | for settings whose delays together do not exceed the timeout, from any attempt of a request: a later one reaches the server if and only if a success or reset of another call in a sleep in between has fewer failures after it than the threshold |
| LlmClient.LlmIsBrief | agent-runtime/app/infrastructure/llm/client.py:19-31 | the deployed settings are such: the delays are 2, 4 and 8 seconds, the timeout 60 |
| LlmClient.NoContactAfterOpening | agent-runtime/app/infrastructure/llm/client.py:110-161 | so when no other call succeeds and nobody resets the breaker, as with a single caller, the attempt that opened it is the last of its request to reach the server |
| LlmClient.AnotherSuccessLetsThrough | agent-runtime/app/infrastructure/llm/client.py:19-31 | with the deployed settings and a breaker that has seen four failed calls: an attempt that opens it, a success of another call within the first sleep, and a retry that reaches the server |
| LlmClient.DeadServerContacts | agent-runtime/app/infrastructure/llm/client.py:109-161 | while no call succeeds, a request whose attempts all fail contacts the server at most min(attempts left, failures left to the threshold) times, and exactly that often when no other call fails and no sleep is cancelled |
| EventBuses.SortIsStable | agent-runtime/app/events/event_bus.py:245 | sorting orders by descending priority, is a permutation and keeps the order of equal priorities |
| EventBuses.EventBus.AddSubscriber | agent-runtime/app/events/event_bus.py:132-148 | from then on the new subscription is among the handlers of exactly the events of the given type, else of the given category, else of all; nobody else comes or goes, and the index stays what the history of changes gives |
| EventBuses.EventBus.Unsubscribe | agent-runtime/app/events/event_bus.py:164-178 | exactly the subscriptions of the handler under that type, else that category, else all events are no longer among the handlers of any event; the index stays what the history of changes gives |
| EventBuses.SubscriptionIsHeard | agent-runtime/app/events/event_bus.py:132-148 | after any history of changes, what one more subscription adds to the handlers of every event |
| EventBuses.OthersAreStillHeard | agent-runtime/app/events/event_bus.py:164-178 | after any history of changes, what one unsubscription takes away, for every event |
| EventBuses.EventBus.GetHandlersForEvent | agent-runtime/app/events/event_bus.py:229-247 | after any calls of these methods, the surviving matching subscriptions of the history, in strict order |
| EventBuses.HandlersInOrder | agent-runtime/app/events/event_bus.py:244-247 | after any subscriptions, unsubscriptions and clears the handlers of an event are ordered by priority, then type before category before wildcard, then age |
| EventBuses.HandlersAreSurvivors | agent-runtime/app/events/event_bus.py:229-247 | they are exactly the surviving subscriptions that match the event |
| EventBuses.OrderedIsUnique | agent-runtime/app/events/event_bus.py:244-247 | order and contents determine that list |
| EventBuses.EventBus.ExecuteHandlersSync | agent-runtime/app/events/event_bus.py:255-275 | one result per handler in order, None for a failing one, and the two counters grow by the failures and the rest |
| EventBuses.EventBus.PublishAndWait | agent-runtime/app/events/event_bus.py:197-223 | middleware may change or cancel the event; the results are those of the handlers for the changed event |
| EventBuses.FilteredStages | agent-runtime/app/events/event_bus.py:202-207 | an event gets through the middleware exactly if it passes every stage, each given what the one before made of it; the first that cancels it ends it |
| EventBuses.FailuresAreCounted | agent-runtime/app/events/event_bus.py:255-275 | the count of failures is the number of handlers without a result |
| Jwks.OctetsAreMinimal | auth-service/app/services/jwks_service.py:56-59 | the octet string is big-endian, gives the integer back and has no leading zero octet |
| Jwks.StripRemovesPaddingOnly | auth-service/app/services/jwks_service.py:62-63 | the text has only base64url letters and stripping removes exactly the padding |
| Jwks.RoundTrip | auth-service/app/services/jwks_service.py:55-63 | decoding the text gives the integer back, by way of the minimal octets |
| Jwks.Injective | auth-service/app/services/jwks_service.py:45-63 | different integers have different texts |
| Jwks.ImageIsCanonical | auth-service/app/services/jwks_service.py:45-63 | a text encodes a positive integer if and only if it decodes to octets starting with a non-zero one, and then encodes the integer of these |
| Jwks.StandardExceptZero | auth-service/app/services/jwks_service.py:55-63 | the text is the standard's Base64urlUInt if and only if the integer is positive |
| Jwks.LettersOfTheTable | auth-service/app/services/jwks_service.py:62 | the alphabet is A-Z, a-z, 0-9, - and _ in this order |
| Jwks.UsualExponent | auth-service/app/services/jwks_service.py:45-63 | the exponent 65537 is "AQAB", the value of section 6.3.1.2 of RFC 7518 |
| Jwks.RefusedIffNegative | auth-service/app/services/jwks_service.py:55-59 | an integer has no text if and only if it is negative |
| RefreshTokens.RefreshTokenStore.SaveRefreshToken | auth-service/app/services/refresh_token_service.py:34-54 | the row is added as given, unless its digest is already stored |
| RefreshTokens.RefreshTokenStore.ValidateRefreshToken | auth-service/app/services/refresh_token_service.py:93-111 | the verdict, and the store after a detected reuse |
| RefreshTokens.RefreshTokenStore.RevokeToken | auth-service/app/services/refresh_token_service.py:128-139 | the row is revoked, or reported missing with no change |
| RefreshTokens.RefreshTokenStore.RevokeTokenChain | auth-service/app/services/refresh_token_service.py:153-172 | the token and all unrevoked rows of its user and client are revoked, all others unchanged |
| RefreshTokens.RefreshTokenStore.CleanupExpiredTokens | auth-service/app/services/refresh_token_service.py:194-210 | exactly the rows expired before the cutoff are deleted and counted |
| RefreshTokens.InvStep | auth-service/app/api/v1/oauth.py:356-470 | every step between two awaits of any number of requests keeps: a rotated token has its parent's user, client, scope and grant, its parent is no longer live, and a request grants only what its token is signed with |
| RefreshTokens.GrantedIff | auth-service/app/services/auth_service.py:339-348 | a checked request is granted a new token if and only if the checks of client, grant type and user pass, it comes from the client the token was issued to, and the token has not expired meanwhile |
| RefreshTokens.NobodyElseRedeems | auth-service/app/services/auth_service.py:339-348 | in every run in which a token is only presented by other clients or by requests that fail those checks, it gets no child |
| RefreshTokens.EndsOfThings | auth-service/app/services/refresh_token_service.py:128-210 | as concurrent steps, a clean-up deletes exactly the rows that expired before the cutoff, a revocation marks its row, and a request that is dropped changes nothing |
| RefreshTokens.DeadStaysDead | auth-service/app/services/refresh_token_service.py:93-111 | however requests, revocations, logins and clean-ups interleave, an issued token refused once is never accepted again in the run, also after its row is deleted |
| RefreshTokens.ValidUntilExpiry | auth-service/app/models/refresh_token.py:90-98 | an unrevoked token is accepted up to and including its expiry and refused after it, as long as nothing that revokes or rotates it is committed |
| RefreshTokens.ReuseRevokesChain | auth-service/app/services/refresh_token_service.py:98-172 | from the moment an alarm has read the pair's tokens, whatever other requests do until it commits: every token issued before that is then dead if it is connected with the presented one through parents and children or has its user and client; no other pair is touched |
| RefreshTokens.AlarmIsRaisedIff | auth-service/app/api/v1/oauth.py:356-389 | a request that presents a stored revoked token can get as far as revoking the chain if and only if the token has not expired on arrival |
| RefreshTokens.ExpiredReuseIsNotNoticed | auth-service/app/api/v1/oauth.py:356-378 | a run in which an expired revoked token is presented and a live token of the same pair stays live |
| RefreshTokens.ConnectedIffSameGrant | auth-service/app/services/refresh_token_service.py:34-48 | a path of parents and children leads from one token to another if and only if they descend from the same login |
| RefreshTokens.AlarmHitsOthersIff | auth-service/app/services/refresh_token_service.py:153-172 | the commit of an alarm kills a live token that is not connected with the presented one if and only if a live token of another login was among the rows it had read |
| RefreshTokens.AlarmHitsAnotherLogin | auth-service/app/services/refresh_token_service.py:153-172 | a run with two logins in which the alarm about the first ends the second |
| RefreshTokens.AlarmIsFinalIff | auth-service/app/services/refresh_token_service.py:153-172 | an alarm leaves the user and client without a live token of an older login in all later states if and only if it had read all their live tokens and no request about one of them is between its check and its save |
| RefreshTokens.AlarmComesTooLate | auth-service/app/api/v1/oauth.py:389-466 | a run in which a request that had passed its check saves a live descendant after the alarm |
| RefreshTokens.OneLiveTokenPerGrant | auth-service/app/api/v1/oauth.py:389-470 | in every run in which no token is found valid while another request holds it, no token has two children and each grant has at most one live token |
| RefreshTokens.CheckIsSafeIff | auth-service/app/api/v1/oauth.py:389-466 | finding a token valid keeps both for all later runs if and only if no other request holds that token between its check and its save |
| RefreshTokens.TokenForks | auth-service/app/api/v1/oauth.py:389-466 | a run of two requests with one token in which both of its children live |
| Text.SplitJoin | auth-service/app/services/oauth_client_service.py:263 | splitting joined words gives the words back |
| Text.AscendingIsUnique | auth-service/app/services/oauth_client_service.py:263 | a set of words has one ascending list |
| Scopes.CanonicalForm | auth-service/app/services/oauth_client_service.py:262-264 | the normalised text has exactly the requested tokens, ascending, and normalising again changes nothing |
| Scopes.AcceptedTokens | auth-service/app/services/oauth_client_service.py:251-264 | a non-empty request is accepted if and only if all its tokens are allowed; the result has exactly the requested tokens |
| Scopes.SameTokensSameText | auth-service/app/services/oauth_client_service.py:262-264 | accepted requests give equal texts if and only if they ask for the same tokens |
| Scopes.RevalidationIff | auth-service/app/services/oauth_client_service.py:244-264 | exactly when validating an accepted scope again returns it unchanged |
| Scopes.RevalidationChanges | auth-service/app/services/oauth_client_service.py:244-264 | two inputs on which the second validation gives another scope |
| AgentSwitching.AgentContext.SwitchTo | agent-runtime/app/domain/entities/agent_context.py:180-220 | succeeds if and only if `can_switch_to` holds, and then records one switch with its reason; a refused switch changes nothing |
| AgentSwitching.AgentContext.ResetToOrchestrator | agent-runtime/app/domain/entities/agent_context.py:306-310 | ends at the orchestrator with at most one more entry, or is refused at the limit with no change |
| AgentSwitching.AgentOrchestrationService.SwitchAgent | agent-runtime/app/domain/services/agent_orchestration.py:146-205 | a missing context is created with the target agent; otherwise the switched context is saved, or nothing on a refusal; every other session keeps its context |
| AgentSwitching.HistoryReplays | agent-runtime/app/domain/entities/agent_context.py:180-244 | in every reachable context the count is the history's length and within the limit, entries chain without self-switches and replay to the current agent |
| AgentSwitching.StoredContextsReplay | agent-runtime/app/domain/services/agent_orchestration.py:80-205 | the same for every stored context after any requests for any sessions |
| AgentSwitching.SessionsAreIndependent | agent-runtime/app/domain/services/agent_orchestration.py:80-205 | the stored context of a session after any requests is the one after only the requests about it; there is one if and only if some request named it |
| AgentSwitching.WhatIsStored | agent-runtime/app/domain/services/agent_orchestration.py:80-205 | the first request decides the initial agent; later ones record an allowed switch with its reason and change nothing otherwise |
| Baton.Bus.GetNextFor | expirements/agent-core/bus.py:25-30 | takes the first message for the name out of the queue, or None with no change |
| Baton.Delivery | expirements/agent-core/bus.py:12-33 | for every recipient, what it was given followed by what waits for it is what was published to it, in order; the history is all publishes |
| Baton.Run | expirements/agent-core/orchestrator.py:12-97 | at every loop head exactly one message is in flight; each message is what the decision of the recipient makes of the one before (who it goes to, what it says, whether it ends the loop); how each way out leaves the bus |

## Left out

- HTTP, SSE, OpenAPI, logging, metrics, audit, DTOs and token buffers: plumbing.
- The queue of the global lock: whoever asks for it may get it next, which allows more schedules than the source.
- Writers that bypass the facade lock (`reset_session`, session clean-up, the add-message command) and the timestamps of messages.
- The concrete SQL repositories and Redis: replace-on-save maps, INCR and EXPIRE. The limiter's fail-open path and the reset calls are left out.
- How the database orders two transactions that write one session: each commit replaces the whole session.
- Facade.LeaveIsSafeIff: a leaving while a clean-up holds the table is not covered, because the clean-up may have to evict an entry in use before anyone can enter; `Facade.LoadIsSafeIff` covers all states.
- Session metadata, `get_recent_messages`, `get_history_for_llm` and the events the services publish: easy members.
- Approval and human-in-the-loop life cycles, LLM prompts and keyword routing.
- JWT signing, bcrypt and SHA-256: the checks of client, grant type and user in the refresh grant are one input.
- The facade methods as generators: a call is its steps between taking and leaving the lock, whatever chunks it yields.
- Fire-and-forget publishing, the time of the last event and handlers that change the bus while it runs them.
- Baton.Run: runs for as many turns as it is given decisions, because the source's loop may go on for ever.
- SlidingWindow.AtMostLimitPerMinute: holds for clocks that do not go back, which `time.time()` does not promise.
- Validity of the LLM payload, tools and agents.
