# Apig0 gateway: a verified model

Apig0 is an API gateway. It keeps its state in memory, guards it with locks, reads
a clock, and writes through to files. This project models its protocols in Dafny
and proves what they keep over whole runs: the rate limiter, one-time key delivery
and token revocation, the nesting of locks, the login protocol, authorisation (route
policies, allow lists, the protected admin), the bounded logs, the proxy's path
rewriting and retries, and the shell commands and header text the portal prints.

`dafny verify dfyconfig.toml` checks everything.

## How it is built

Each component has two halves. The first is a set of functions on values: the new
state and the answer of one operation. Lemmas about runs of these functions carry the
main results. The second half is the code in its own form: classes with the fields the
gateway has, updated in place, with its loops and its order of effects; every method
is proved to do what the function says. Where the code walks a Go map, the model picks
the next key arbitrarily, so the result holds for every iteration order.

What an operation answers is also told without the functions that compute it, from the
requests, the replies before it and the clock: when a call is refused
(`rate_limiter_fairness`), when an account is locked and a login succeeds
(`login_history`), when a key is valid and how long it can be claimed (`token_validity`,
`token_lifetime`, `token_pending`), which submitted rule decides
(`RoutePolicy.SubmittedRulesDecide`), what an admin's request leaves behind
(`admin_outcomes`), and what the catch-all handler forwards and records (`gateway`).

A write's success, the clock, random IDs, password and one-time-password checks, and
URL validity are parameters. Freshness of random IDs is stated as an assumption of the
run. A clock reading is a whole number of nanoseconds, except in the rate limiter,
where seconds and tokens are real numbers.

| files | component |
|---|---|
| `text`, `common` | trimming, letter case, string order; optional values |
| `rate_limiter`, `rate_limiter_fairness`, `rate_limiter_races`, `rate_limiter_wait`, `rate_limiter_store` | token buckets, sweeper and promised wait, at lock granularity |
| `lockout`, `replay_cache`, `sessions`, `login`, `login_provenance`, `login_history`, `login_store` | login protocol, one request at a time |
| `login_sections`, `login_races`, `login_traces` | login protocol with overlapping requests |
| `token_delivery`, `token_safety`, `token_validity`, `token_lifetime`, `token_pending`, `token_stores` | API tokens and key delivery, with crashes |
| `lock_order`, `lock_programs` | deadlock freedom |
| `route_policy` | per-user route policies |
| `service_catalog`, `user_registry`, `admin_outcomes`, `user_store`, `admin_handlers`, `user_durability` | catalogue, users, admin handlers, restarts |
| `bounded_logs` | monitor ring and audit list |
| `url_encoding`, `proxy_path`, `retry`, `gateway` | paths on the wire, path rewriting, retries, catch-all handler |
| `header_text`, `portal_history`, `shell_quoting` | the portal's texts |

## Where the code does less than one would expect

- A call finds its bucket under one lock and takes a token under another. If the sweeper
  drops the bucket in between, the call is still served from it, so no rule keeps the
  plain rate bound over all runs (`RateLimiterRaces.PromiseNeverKept`). What holds, in
  both directions, is in `RateLimiterRaces.PromiseKeptExactlyWhen`: with one more
  admission for each call that held a dropped bucket, and without them where no held
  bucket is dropped, the bound is kept by exactly the rules whose burst is at most ten
  minutes' worth of requests. `RateLimiterRaces.HeldBoundIsTight` and
  `RateLimiterRaces.LargeBurstBreaksBound` give the runs.
- A call that held a dropped bucket can also be admitted before a wait that another call
  was told is over (`RateLimiterWait.HeldCallBeatsWait`); otherwise the wait is exact
  (`RateLimiterWait.WaitKeptExactlyWhen`).
- Requests that are past their lock check when an account is locked still record their
  failures, so overlapping requests can exceed five (`LoginRaces.OverlapIsTight`), and
  requests that look one challenge up before either consumes it can each open a session
  with a code of their own (`LoginRaces.SharingIsTight`). `LoginRaces.FiveExactlyWhen` and
  `LoginRaces.OneExactlyWhen` say when neither happens.
- `UserStore.IsProtectedAdmin` trims the name it is asked about and `Delete` does not,
  so the first admin can be deleted exactly when the stored name has blanks around it
  (`UserRegistry.FirstAdminRemoved`, `UserRegistry.BlankNamedAdminIsRemovable`).
- `SaveServices` changes memory before it writes. If the write of a deletion fails, a
  user can keep the deleted service in the allow list and reach a later service of that
  name (`UserRegistry.StepIntegrity`, `UserRegistry.FailedDeletionReopens`).
- Services and users are two files. A restart finds a deleted service in an allow list
  exactly when the deletion was written and a lister's record was not
  (`UserDurability.RestartIntegrity`), and an earlier list change whose write failed is
  enough for that (`UserDurability.FailedUpdateDangles`).
- A refused user creation can leave the user behind (`UserRegistry.FailedCreateLeaves`).
- `upsertHeader` does not escape anything: the edited text means what was intended
  exactly when the name has no colon or line break and the value has no line break
  before its trailing blanks (`HeaderText.UpsertParses`).
- The path a policy judges and the path that is forwarded differ for leading slashes,
  trailing blanks and blank rests (`ProxyPath.ForwardedIsJudged`).
- A pasted key with a line break inside does not survive as one header of the printed
  command (`ShellQuoting.HeaderArgsParse`).
- `RoundTrip` returns neither a response nor an error exactly when a safe request has a
  negative retry count (`Retry.NothingAtAll`); catalogue entries never have one.

## Model

| member | source | states |
|---|---|---|
| RateLimiter.NormalizeRule | config/ratelimits.go:85-96 | a stored rule is non-negative, a limiting rule has a burst of at least one, and only a part that needs it is corrected |
| RateLimiter.IdleIsFull | middleware/ratelimit.go:39-51 | a bucket idle for ten minutes has refilled completely, if the burst is at most ten minutes' worth |
| RateLimiter.TakeSpends | middleware/ratelimit.go:122-139 | a take spends one token if it admits and none otherwise |
| RateLimiter.SweepKeepsBudget | middleware/ratelimit.go:39-51 | a sweep of any key with any earlier clock reading changes nothing a key could spend, under the same condition |
| RateLimiter.TakeSpendsBudget | middleware/ratelimit.go:122-139 | a take costs the key one token exactly if it is admitted from the key's current bucket, and nothing otherwise |
| RateLimiter.WindowSpends | middleware/ratelimit.go:104-140 | with lookups, takes and sweeps in any order, admissions from current buckets are paid from what is there plus what the window earns |
| RateLimiter.StraysWereHeld | middleware/ratelimit.go:39-140 | admissions from dropped buckets are at most the calls that held a bucket when the sweeper dropped it |
| RateLimiter.AdmissionBound | middleware/ratelimit.go:39-140 | after any run, T seconds admit at most burst + rpm*T/60 calls of one key from its current buckets |
| RateLimiter.HeldBound | middleware/ratelimit.go:39-140 | and at most one more for each call that held a dropped bucket |
| RateLimiterFairness.HasLedger | middleware/ratelimit.go:104-140 | in every run a key's bucket is a ledger: some window up to now explains exactly what it holds by what it admitted and earned |
| RateLimiterFairness.RefusedOnlyWhenUsedUp | middleware/ratelimit.go:104-140 | over every run, a call that takes from the key's current bucket is refused only if in some window ending now one more admission would exceed burst + rpm*T/60 |
| RateLimiterFairness.AdmissionWithin | middleware/ratelimit.go:104-140 | with a burst of at most ten minutes' worth, a call that would exceed the allowance of some window is not admitted |
| RateLimiterFairness.RefusedExactlyWhen | middleware/ratelimit.go:104-140 | both together: refused if and only if the key's rate is used up in some window ending now |
| RateLimiterRaces.LargeBurstBreaksBound | middleware/ratelimit.go:39-51 | for every burst above ten minutes' worth, a run with one sweep and no held bucket that exceeds the bound |
| RateLimiterRaces.HeldBoundIsTight | middleware/ratelimit.go:104-140 | for every rule and every n up to the burst, a run with n calls holding a dropped bucket that admits burst + n at one instant |
| RateLimiterRaces.PromiseNeverKept | middleware/ratelimit.go:39-140 | no rule keeps the plain bound over all runs |
| RateLimiterRaces.PromiseKeptExactlyWhen | middleware/ratelimit.go:39-140 | the bound with held calls counted, and the bound where no held bucket is dropped, are each kept if and only if burst <= 10 * rpm |
| RateLimiterWait.RefusalSetsDue | middleware/ratelimit.go:125-139 | the wait of a refusal is the moment the current bucket holds exactly one token, at most a minute away |
| RateLimiterWait.ExactWait | middleware/ratelimit.go:104-140 | until that moment only calls holding a dropped bucket are admitted, sweeps included |
| RateLimiterWait.FirstCallAfterWait | middleware/ratelimit.go:104-140 | the first take from that moment on is admitted |
| RateLimiterWait.FirstCallAdmitted | middleware/ratelimit.go:104-140 | the same over whole runs: refused at t with wait w, the first call that takes at t+w or later is admitted |
| RateLimiterWait.HeldCallBeatsWait | middleware/ratelimit.go:39-140 | for every rule, a run in which a held call is admitted before a promised wait is over |
| RateLimiterWait.WaitKeptExactlyWhen | middleware/ratelimit.go:39-140 | the wait is not kept over all runs, and is kept over all in which no held bucket is dropped |
| RateLimiterStore.Bucket.Take | middleware/ratelimit.go:122-139 | refill, cap, spend or refuse with the computed wait, on the shared bucket |
| RateLimiterStore.Limiter.Lookup | middleware/ratelimit.go:105-120 | the first critical section is one event: finds the key's bucket, or inserts a full one of its own |
| RateLimiterStore.Limiter.TakeFrom | middleware/ratelimit.go:122-139 | the second critical section is one event, on the held bucket, still in the map or not |
| RateLimiterStore.Limiter.Allow | middleware/ratelimit.go:104-140 | a call that nothing comes between is its two events, with a clock reading each |
| RateLimiterStore.Limiter.SweepKey | middleware/ratelimit.go:43-49 | the sweeper's look at one key is one event |
| RateLimiterStore.Limiter.SweepAll | middleware/ratelimit.go:39-51 | the sweeper visits every key once, in any order, and does nothing else |
| Lockout.SweepInvisible | auth/lockout.go:73-81 | a sweep with any earlier clock reading leaves every entry that still matters |
| Lockout.CheckSeesCurrent | auth/lockout.go:34-49 | the lock check depends only on entries that still matter and drops only others |
| Lockout.BudgetedFailure | auth/lockout.go:52-64 | a failure recorded after a passed check stays within five per fifteen minutes begun |
| ReplayCache.CacheFollowsRule | auth/totp.go:37-85 | with lazy purging and any sweeps, the cache answers every check as "valid and not accepted for this user in the last 90 seconds" |
| ReplayCache.EmptyCacheFollowsRule | auth/totp.go:37-85 | the same for every run from the empty cache |
| ReplayCache.OneUsePerTimeStep | auth/totp.go:55-85 | no 30-second time step of section 5.2 of RFC 6238 is accepted twice through one code string within its window of one step either side |
| ReplayCache.LifetimeIsTight | auth/totp.go:55-85 | an accepted code is refused for exactly ninety seconds |
| ReplayCache.CheckSeesCurrent | auth/totp.go:55-85 | a check depends only on codes that have not expired |
| Sessions.SweepInvisible | auth/session.go:40-54 | a sweep of challenges or sessions leaves every live entry |
| Sessions.LookupSeesCurrent | auth/session.go:79-88 | looking an ID up depends only on live entries |
| Login.SweepTimingNeverShows | auth/session.go:40-116 | no handler of any run answers differently from a gateway whose sweepers never run |
| Login.LockoutBound | auth/handlers.go:13-96 | one request at a time, between two requests T apart, without a login of the user, at most 5*(floor(T/15min)+1) failures are recorded |
| LoginProvenance.SessionProvenance | auth/handlers.go:45-96 | every session was opened by a valid code, while not locked, against a challenge that a correct password of that user got at most five minutes before |
| LoginProvenance.OneSessionPerChallenge | auth/handlers.go:62-89 | one request at a time, different sessions come from different challenges |
| LoginProvenance.TokenMeansOpenSession | auth/session.go:98-123 | a token names a user if and only if a verification opened it for that user within its lifetime and nobody logged out of it |
| LoginProvenance.CodesAreOneTime | auth/handlers.go:62-89 | two logins of one user with one code string are more than ninety seconds apart |
| LoginHistory.LockIsHistory | auth/lockout.go:34-81 | over every run, the lock check says locked if and only if, by the replies alone, the user's last failure was at least the fifth since the last login or expired lock and lies less than fifteen minutes back |
| LoginHistory.AcceptedIsUnused | auth/totp.go:55-85 | over every run, a valid code is accepted if and only if no login of that user used it in the last ninety seconds |
| LoginHistory.LoginAnswers | auth/handlers.go:13-41 | over every run, a login is answered "locked" exactly when that history says so, and else with a challenge for the right password and a refusal for a wrong one |
| LoginHistory.VerifyAnswers | auth/handlers.go:45-96 | over every run with fresh tokens, without a challenge of the last five minutes that has not logged in there is no login; with one, the lock history, the secret, the code's validity and its past uses decide, in this order, and nothing else |
| LoginStore.LockoutStore.IsLockedOut | auth/lockout.go:34-49 | the check on shared entries, dropping an expired lock |
| LoginStore.LockoutStore.RecordFailure | auth/lockout.go:52-64 | counts in place and locks at the fifth failure |
| LoginStore.LockoutStore.Sweep | auth/lockout.go:73-81 | drops exactly the expired locks |
| LoginStore.ReplayStore.ValidateTOTP | auth/totp.go:55-85 | purges the user's codes, then accepts and records or refuses |
| LoginStore.ReplayStore.Sweep | auth/totp.go:37-51 | purges every user's codes and drops empty tables |
| LoginStore.SessionStore.PeekChallenge | auth/session.go:79-88 | names the user of a live challenge, drops a dead one, keeps the rest |
| LoginStore.SessionStore.SweepExpired | auth/session.go:40-54 | drops exactly the expired challenges and sessions |
| LoginStore.AuthHandlers.LoginHandler | auth/handlers.go:13-41 | the handler's effects, in order, are one step of the protocol |
| LoginStore.AuthHandlers.VerifyHandler | auth/handlers.go:45-96 | likewise for the second factor |
| LoginStore.AuthHandlers.LogoutHandler | auth/handlers.go:100-106 | likewise for the logout |
| Lockout.BudgetedRecord | auth/lockout.go:52-64 | a failure recorded on a locked account moves its lock forward and costs nothing of the budget; any other costs one |
| LoginSections.LateWereHeld | auth/handlers.go:29-38 | failures recorded on a locked account are at most the requests that were past their check when it was locked |
| LoginSections.LockoutBound | auth/handlers.go:13-96 | with sections of requests interleaved anyhow, at most 5*(floor(T/15min)+1) failures in T and one more for each such request |
| LoginRaces.OverlapIsTight | auth/handlers.go:29-38 | for every n, a run with n such requests and five plus n failures at one instant |
| LoginRaces.FiveExactlyWhen | auth/handlers.go:13-96 | the plain bound fails over all runs and holds over all without such requests |
| LoginRaces.SessionsOfChallenge | auth/handlers.go:62-89 | sessions through a challenge, plus those still possible, are at most one per issue and one per other request that had looked it up when it left the table |
| LoginRaces.SessionsPerChallenge | auth/handlers.go:62-89 | with fresh random challenges: at most one session, and one for each such request |
| LoginRaces.SharingIsTight | auth/handlers.go:62-89 | any number of different codes accepted before the challenge is consumed open that many sessions |
| LoginRaces.OneExactlyWhen | auth/handlers.go:62-89 | one session per challenge fails over all runs and holds over all without such requests |
| LoginRaces.CodesAreOneTime | auth/totp.go:55-85 | a code string is accepted again for a user only more than ninety seconds later, whatever overlaps |
| LoginTraces.SessionProvenance | auth/handlers.go:13-96 | whatever overlaps, a session goes back to a checked login with the right password of the same user, a look-up within five minutes, a lock check and an accepted code, in that order |
| TokenDelivery.StepKeeps | config/token_deliveries.go:54-206 | every step, crash and failed write keeps the two stores and their files consistent with what was issued |
| TokenDelivery.InvAt | config/token_deliveries.go:54-206 | that invariant in every state of every run |
| TokenDelivery.LoadedDeliveries | config/token_deliveries.go:54-85 | reading back a saved file gives its unexpired deliveries, unchanged |
| TokenSafety.AtMostOnce | config/token_deliveries.go:128-159 | in every run with crashes between any two steps, no delivery returns its key twice |
| TokenSafety.RevokedUntilRestart | config/apitokens.go:185-204 | a revoked token stays revoked in memory until a restart, saved or not |
| TokenSafety.SavedRevocationIsDurable | config/apitokens.go:185-204 | and for good, in memory and on disk, if the revocation was saved |
| TokenSafety.RevokedTokenNeverValidates | config/apitokens.go:206-227 | no later validation accepts the token, and its own key is refused |
| TokenSafety.ClaimWasChecked | config/token_deliveries.go:138-150 | a key about to be returned had its token found usable while the claim held the delivery lock |
| TokenSafety.ClaimedKeyIsTheUsers | config/token_deliveries.go:128-159 | a returned key hashes to the stored hash and goes to the token's own user |
| TokenSafety.RevokedTokenIsNotDelivered | config/token_deliveries.go:138-150 | a key delivered after its token's revocation had its check before it, even for a delivery made later |
| TokenSafety.ClaimReturnsTheKey | config/token_deliveries.go:87-159 | a saved delivery claimed in time by its user returns the key that was issued |
| TokenSafety.KeyIsDelivered | config/token_deliveries.go:87-159 | a run that issues, delivers and claims a key is possible and returns it, so the safety results are about something |
| TokenSafety.SoundCryptoExists | config/token_deliveries.go:266-304 | the laws asked of hashing and encryption can be met together |
| TokenValidity.InEffectIsRevoked | config/apitokens.go:185-204 | a revocation is in effect until a restart, and for good once any save has written it: then the token is marked |
| TokenValidity.MarkedIsInEffect | config/apitokens.go:185-204 | and a stored token is marked only by a revocation in effect |
| TokenValidity.ValidExactlyWhen | config/apitokens.go:206-227 | over every run, the key of an issued token is valid if and only if the token is stored, no revocation is in effect and the clock has not passed its expiry; the answer is that token |
| TokenValidity.UnissuedIsInvalid | config/apitokens.go:206-227 | a key with the hash of no issued token is refused |
| TokenValidity.DeliveredInTime | config/token_deliveries.go:128-159 | a delivered key is an issued key of that user, and at its check the token had not expired and no revocation was in effect |
| TokenValidity.DeliveredWithinADay | config/token_deliveries.go:87-159 | a delivered key was looked up at most 24 hours after its delivery was made, whatever crashed in between |
| TokenLifetime.CreatedAsAsked | config/apitokens.go:115-183 | a token is created exactly when a user is named and the file can be written, with the ID, user, hash and expiry of the request |
| TokenLifetime.IssuedWasAsked | config/apitokens.go:115-183 | every issued token of a run goes back to such a request |
| TokenLifetime.StaysStored | config/apitokens.go:72-93 | a created token stays stored, in memory and on disk, through failed writes and through every restart that can read the file |
| TokenLifetime.CreatedKeyIsValidExactlyWhen | config/apitokens.go:115-227 | from creation to validation, over every run whose restarts can read the file: valid, for the user and with the expiry of the request, if and only if not expired and no revocation in effect |
| TokenPending.StaysPending | config/token_deliveries.go:54-182 | a made delivery stays claimable until its token's deliveries are cleared, a claim takes it, its day is over, or a restart cannot read it back |
| TokenPending.PendingIsClaimed | config/token_deliveries.go:87-159 | over every run, a claim of such a delivery by its user returns the issued key, whatever the token store does between the claim's steps |
| TokenPending.ClearedDeliveries | config/token_deliveries.go:161-182 | clearing a token's deliveries drops every one of them and no other |
| TokenStores.TokenStore.CreateAPIToken | config/apitokens.go:115-183 | refuses an AI key without a suitable service, else adds the record, and takes it back when the save fails |
| TokenStores.TokenStore.RevokeRecord | config/apitokens.go:185-197 | marks the record in memory, then saves |
| TokenStores.TokenStore.ValidateAPIToken | config/apitokens.go:206-227 | the scan by hash, in any order, answers as the model's step |
| TokenStores.TokenStore.LoadAPITokens | config/apitokens.go:72-93 | start-up reads the records back normalised |
| TokenStores.DeliveryStore.PurgeExpired | config/token_deliveries.go:212-223 | drops expired deliveries and writes only if something changed |
| TokenStores.DeliveryStore.CreatePending | config/token_deliveries.go:87-103 | purge, insert, save, and undo when the save fails |
| TokenStores.DeliveryStore.DeleteByTokenID | config/token_deliveries.go:161-182 | drops exactly one token's deliveries |
| TokenStores.DeliveryStore.ClaimPending | config/token_deliveries.go:128-159 | a whole uninterrupted claim is the model's steps one after the other |
| TokenStores.DeliveryStore.Load | config/token_deliveries.go:54-85 | start-up reads the unexpired deliveries back, if persistence is on |
| LockOrder.StepSound | config/token_deliveries.go:128-143 | lock steps keep the discipline and mutual exclusion of writers, with waiting writers holding back readers |
| LockOrder.SomeoneCanStep | config/setup_runtime.go:140-160 | a disciplined unfinished system always has a thread that can step |
| LockOrder.RunsEnd | config/setup_runtime.go:140-160 | every run is at most as long as the work there is |
| LockOrder.OrderedProgramsFinish | config/setup_runtime.go:387-447 | programs that nest locks in one order are never stuck and always finish |
| LockPrograms.OperationInOrder | config/setup_runtime.go:387-447 | every store operation, on every path through it, nests its locks in that order |
| LockPrograms.GatewayNeverDeadlocks | config/apitokens.go:115-204 | any requests made of any operations, interleaved anyhow, never deadlock, over every mutex of the stores, the file vault included |
| LockPrograms.NestedRevokeDeadlocks | config/apitokens.go:185-204 | had the revocation kept the token lock while taking the delivery lock, it could deadlock with a claim |
| RoutePolicy.NormalizePath | config/access_policies.go:200-209 | a judged path starts with a slash, is the trimmed text or a slash before it, and is the root for a blank text or a star |
| RoutePolicy.CleanMethodsMembers | config/access_policies.go:170-186 | a stored rule lists exactly the non-blank submitted methods, upper-cased, once each |
| RoutePolicy.NormalizeMembers | config/access_policies.go:159-198 | the stored rules are exactly the cleaned submitted ones that name a service |
| RoutePolicy.SortRulesSorts | config/access_policies.go:188-196 | and they are stored in service, prefix, ID order |
| RoutePolicy.FirstMatchDecides | config/access_policies.go:117-140 | the first match is the applying rule with the shortest prefix, ties to the smallest ID; no match means no rule applies |
| RoutePolicy.FirstMatchIsLeast | config/access_policies.go:117-140 | rules that tie in service, prefix and ID included, the first match is an applying rule that no other applying rule comes before |
| RoutePolicy.DecidingIsUnique | config/access_policies.go:117-140 | at most one rule can be the deciding one |
| RoutePolicy.StoredRulesDecide | config/access_policies.go:102-141 | from submission to decision: the deciding rule's verdict, or refusal if the service has a rule, or admission if it has none |
| RoutePolicy.StoredMeets | config/access_policies.go:131-138 | a stored rule applies exactly when the submitted one is for the service, its prefix starts the path and its methods are empty or contain the request's, trimmed and in any letter case |
| RoutePolicy.SubmittedRulesDecide | config/access_policies.go:102-210 | in terms of the submitted rules: admitted if none is for the service, refused if none of those meets prefix and method, else the verdict and the ID are those of the shortest-prefixed one that does, ties to the smallest ID |
| RoutePolicy.SubmissionOrderIrrelevant | config/access_policies.go:159-198 | with distinct non-empty IDs, the order of submission changes no decision |
| RoutePolicy.ShadowedRuleIsRedundant | config/access_policies.go:117-140 | deleting a rule whose prefix strictly extends another's, with methods covered by it, changes no decision |
| RoutePolicy.OfServiceMeets | config/access_policies.go:117-129 | filtering by service first does not change the first match |
| RoutePolicy.ReplacedRules | config/access_policies.go:70-84 | replacing a user's rules sets that list, keeps all lists sorted and leaves other users alone |
| RoutePolicy.NormalizeMethods | config/access_policies.go:170-186 | the loop with its seen-set gives the cleaned, sorted methods |
| RoutePolicy.NormalizeRules | config/access_policies.go:159-198 | the loop gives the cleaned rules in stored order |
| RoutePolicy.DecideAmong | config/access_policies.go:127-140 | the second loop gives the first match's verdict |
| RoutePolicy.PolicyStore.SetUserAccessPolicies | config/access_policies.go:70-84 | memory changes even when the write fails; a blank user is refused |
| RoutePolicy.PolicyStore.EvaluateRouteAccess | config/access_policies.go:102-141 | both loops together give the decision of the model |
| ServiceCatalog.NormalizedIsClean | config/services.go:281-317 | cleaning an entry twice is cleaning it once |
| ServiceCatalog.UpsertKeepsOthers | config/services.go:238-257 | adding an entry keeps the catalogue valid and every other entry as it was |
| ServiceCatalog.SavedList | config/services.go:86-110 | saving a list of a valid catalogue gives that catalogue |
| ServiceCatalog.ReloadGivesCatalogue | config/services.go:56-84 | reading a saved file back gives the catalogue |
| ServiceCatalog.NormalizeAllowedMembers | config/services.go:208-228 | a stored allow list holds exactly the submitted names that are known and enabled then |
| ServiceCatalog.NormalizeAllowedServices | config/services.go:208-228 | the loop with its seen-set, then the sort |
| Text.LessIsByteOrder | config/userstore.go:190-212 | the string order is decided by the first differing character, a proper prefix being smaller |
| Text.SortTextsAscends | config/services.go:226 | sorting leaves the names in ascending byte order and only rearranges them |
| ServiceCatalog.ServiceStore.GetServiceCatalog | config/services.go:140-150 | lists every entry once, in ascending order of names, whatever the map's order |
| ServiceCatalog.ServiceStore.SaveServices | config/services.go:86-110 | rebuilds memory first, then writes; a failed write leaves the new memory |
| ServiceCatalog.ServiceStore.UpsertService | config/services.go:238-257 | rewriting the whole catalogue is an update of one entry |
| ServiceCatalog.ServiceStore.DeleteService | config/services.go:259-279 | rewriting the whole catalogue removes one entry, or reports it invalid or missing |
| ServiceCatalog.ServiceStore.LoadServices | config/services.go:56-84 | start-up cleans and files what the file holds |
| UserRegistry.SomeFirstAdmin | config/userstore.go:190-212 | where there is an admin there is a first one |
| UserRegistry.FirstAdminUnique | config/userstore.go:190-212 | and only one |
| UserRegistry.FirstAdminRemoved | auth/admin.go:138-150 | one request removes the protected admin if and only if it is a written deletion of exactly that name and the name has blanks around it or is empty |
| UserRegistry.AdminRemains | auth/admin.go:39-150 | over every run with admins created under trimmed names, an admin always remains |
| UserRegistry.ProtectedNeverChanges | config/userstore.go:190-212 | the protected admin stays the same while later creations have later times |
| UserRegistry.BlankNamedAdminIsRemovable | config/userstore.go:190-212 | a concrete only admin that can be deleted |
| UserRegistry.FailedCreateLeaves | auth/admin.go:16-36 | a refused creation leaves a user behind exactly when the file write failed, or the secret and then the roll-back failed |
| UserRegistry.StepWellFormed | auth/services_admin.go:42-187 | every handler keeps the catalogue valid and users filed under their names |
| UserRegistry.DropRemovesOne | config/userstore.go:307-357 | a deletion takes exactly one name out of a restricted user's list |
| UserRegistry.StepIntegrity | auth/services_admin.go:147-187 | one request keeps every restricted user's services in the catalogue, except exactly when the write of a deletion fails while such a user lists the service |
| UserRegistry.IntegrityAlways | auth/services_admin.go:42-187 | between restarts, integrity over every run in which catalogue deletions are written |
| UserRegistry.ListedByGrant | config/userstore.go:245-257 | a service is listed for a user only if it was before or is granted by this request while known and enabled |
| UserRegistry.DeletedServiceStaysClosed | auth/services_admin.go:147-187 | between restarts, a deleted service, however often created again, is closed to restricted users until granted anew |
| UserRegistry.FailedDeletionDangles | config/services.go:86-110 | what a deletion with a failed write leaves behind |
| UserRegistry.FailedDeletionReopens | auth/services_admin.go:147-187 | followed by a new service of that name it lets the user in without a grant |
| UserRegistry.BuiltIsAccepted | auth/services_admin.go:214-274 | the catalogue accepts what a handler builds, under the requested name |
| AdminOutcomes.ServiceAsAsked | auth/services_admin.go:42-274 | after a creation or update that is Ok, or whose write alone failed, the stored entry has every field the request asks for; a field left out is as before or a default; every other entry and user is unchanged |
| AdminOutcomes.ServiceOkExactlyWhen | auth/services_admin.go:42-145 | exactly when a creation or update is answered Ok |
| AdminOutcomes.ServiceGone | auth/services_admin.go:147-187 | a deletion removes that service and changes no one's access to any other |
| AdminOutcomes.DeletionOkExactlyWhen | auth/services_admin.go:147-187 | exactly when a deletion is answered Ok |
| AdminOutcomes.UserAsAsked | auth/admin.go:39-73 | a created user has the role asked for and reaches everything as an admin, or exactly the requested services that are known and enabled |
| AdminOutcomes.UserOkExactlyWhen | auth/admin.go:39-73 | exactly when a creation is answered Ok |
| AdminOutcomes.AccessAsAsked | auth/admin.go:104-135 | after a change of access the user reaches exactly the requested services that are known and enabled, and nobody else's access changed |
| AdminOutcomes.AccessOkExactlyWhen | auth/admin.go:104-135 | exactly when a change of access is answered Ok |
| AdminOutcomes.UserGone | auth/admin.go:138-150 | a deletion is Ok exactly for a present user whose trimmed name is not the oldest admin's, and removes nothing else |
| AdminOutcomes.DisabledStaysDisabled | auth/services_admin.go:42-187 | over every run, a service that is not known stays so until a request enables it or creates it anew |
| UserDurability.MirrorStep | config/services.go:86-110 | when its writes succeed, every handler and every restart leaves the two files saying what memory says |
| UserDurability.IntegrityWithRestarts | auth/services_admin.go:42-187 | integrity over every run of requests and restarts in which writes succeed |
| UserDurability.RestartIntegrity | config/userstore.go:307-357 | after one request, whatever writes of it failed, a restart finds integrity if and only if it is not the case that a service was deleted on disk and a lister's record was not saved |
| UserDurability.UnreadableCatalogue | config/services.go:56-84 | a restart that cannot read the catalogue keeps integrity exactly if no restricted user read back lists anything |
| UserDurability.ClosedAcrossRestarts | auth/services_admin.go:147-187 | where writes succeed, a deleted service stays closed across restarts and re-creations until granted anew |
| UserDurability.FailedUpdateDangles | config/userstore.go:245-257 | a list change whose write fails, a written deletion and a restart leave the deleted service listed |
| UserStores.Record.Drop | config/userstore.go:323-338 | rebuilds one allow list without the service and reports whether it changed |
| UserStores.UserStore.Create | config/userstore.go:98-122 | adds a new user; in file mode also when the write fails |
| UserStores.UserStore.Delete | config/userstore.go:148-171 | removes the user only if the write succeeds, in either mode |
| UserStores.UserStore.SetAllowedServices | config/userstore.go:245-257 | replaces one user's list in memory, then writes |
| UserStores.UserStore.CanAccessService | config/userstore.go:259-282 | admins and unconfigured users pass, others by their list |
| UserStores.UserStore.RemoveAllowedServiceEverywhere | config/userstore.go:307-357 | drops the service from each restricted user, in any map order |
| UserStores.UserStore.IsProtectedAdmin | config/userstore.go:190-212 | the scan's answer does not depend on map order |
| AdminHandlers.Admin.ProvisionUser | auth/admin.go:16-36 | create, store the secret, and roll back |
| AdminHandlers.Admin.CreateUserHandler | auth/admin.go:39-73 | the handler is one step of the model |
| AdminHandlers.Admin.UpdateUserAccessHandler | auth/admin.go:104-135 | the handler is one step of the model |
| AdminHandlers.Admin.DeleteUserHandler | auth/admin.go:138-150 | the handler is one step of the model |
| AdminHandlers.Admin.BuildServiceConfig | auth/services_admin.go:214-274 | request over existing over default, field by field |
| AdminHandlers.Admin.CreateServiceHandler | auth/services_admin.go:42-85 | the handler is one step of the model, with its roll-back |
| AdminHandlers.Admin.UpdateServiceHandler | auth/services_admin.go:87-145 | the handler is one step of the model |
| AdminHandlers.Admin.DeleteServiceHandler | auth/services_admin.go:147-187 | the handler is one step of the model, stopping at the first failure |
| BoundedLogs.LastNAppend | config/audit.go:70-73 | bounding a list after every step is bounding it once at the end |
| BoundedLogs.TotalsAreSums | middleware/monitor.go:154-173 | all requests, and all failed ones, are the sums over the services' counters, the gateway's included |
| BoundedLogs.CountsPartition | config/audit.go:62-69 | allowed and denied events are at most all events, and all of them exactly when no other decision occurs |
| BoundedLogs.Monitor.RegisterService | middleware/monitor.go:87-95 | names a backend without touching any count |
| BoundedLogs.Monitor.Record | middleware/monitor.go:144-177 | ring, totals and the service's counter keep describing the whole history |
| BoundedLogs.Monitor.RecentEvents | middleware/monitor.go:292-305 | the ring read from its oldest slot is the last 500 events, in order |
| BoundedLogs.Monitor.Snapshot | middleware/monitor.go:258-290 | totals are sums over all counters, errors are the events with a status of 400 or more, each service's figures are those of its own events, and the recent events are the last 500 |
| BoundedLogs.AuditLog.RecordAuditEvent | config/audit.go:54-74 | a missing ID and timestamp are filled in, the kept list is the last 500 of everything recorded, and the three counts sum to its length |
| BoundedLogs.AuditLog.ListRecentAuditEvents | config/audit.go:93-107 | the end of the whole history, for every limit |
| Retry.RoundTrip | proxy/proxy.go:182-213 | how often it is sent, when it stops, what comes back, and which bodies are closed, for every script of the upstream |
| Retry.Send | proxy/proxy.go:182-240 | the loop computes "first final attempt, else the last", which for an unsafe method is the first, and closes every other received body exactly once; only GET, HEAD and OPTIONS are sent again, and only after 502, 503, 504 or a failure |
| Retry.NothingAtAll | proxy/proxy.go:182-213 | neither response nor error exactly for a safe method with a negative retry count |
| UrlEncoding.UnescapeEscape | proxy/proxy.go:33-42 | unescaping the default encoding of a path gives the path back |
| UrlEncoding.EscapedPathDecodes | proxy/proxy.go:33-42 | whatever the raw path says, the encoding that is sent stands for the path |
| UrlEncoding.SentIsPath | proxy/proxy.go:33-42 | what is sent holds no question mark, hash sign, blank or other character that would end a path, whatever the path and the client's encoding hold |
| ProxyPath.RewriteParts | proxy/proxy.go:63-84 | what is left of a service's path is nothing, or one slash and the rest without leading slashes |
| ProxyPath.JudgedRest | main.go:204-214 | what the policy rules compare with, for every rest |
| ProxyPath.ForwardedIsJudged | proxy/proxy.go:63-99 | the judged path is what is appended to the upstream base, exactly under the stated guard |
| ProxyPath.SentDecodesToJudged | proxy/proxy.go:33-99 | however the client encoded the path, what goes over the wire stands for the base with the judged path after it, exactly under the guard |
| ProxyPath.RawIsSent | proxy/proxy.go:33-84 | a client's own encoding of the rest reaches the upstream character by character |
| Gateway.Handler.Check | main.go:203-295 | the order of the checks |
| Gateway.Handler.Serve | main.go:203-307 | exactly one audit record per judged request, with its verdict, and none for the root |
| Gateway.ForwardedExactlyWhen | main.go:203-295 | a request is forwarded if and only if its service is in the catalogue and enabled, there is a user, the token scope is empty or names it, and the user is an admin or may access it while, of the stored rules, either none is for the service or the foremost one whose prefix and methods fit does not ask for a session this request lacks |
| Gateway.RecordedVerdict | main.go:203-307 | the one record of a judged request names its user, service, method and path and says "allow" with the upstream's status exactly if it may pass, else "deny" with 404, 401 or 403; a request that passes goes to the catalogue's entry of that name |
| Gateway.DisabledServiceNotForwarded | main.go:216-228 | over every run, after an update that disables a service every request to it is answered 404 until a request enables it or creates it anew |
| Gateway.ForwardedUnderPrefix | main.go:256-277 | under the path guard, a forwarded request stays below the base path and the deciding rule's prefix |
| Gateway.SentUnderPrefix | main.go:256-277 | the same of what is sent, however the client encoded the path |
| Gateway.DeletedServiceNotForwarded | main.go:216-275 | between restarts, no request of a restricted user reaches a deleted and re-created service before a new grant |
| Gateway.ClosedServiceNotForwarded | main.go:216-275 | nor across restarts, where writes succeed |
| Gateway.SendTo | proxy/proxy.go:182-213 | for a catalogue entry, one to four sends, and always a response or an error |
| HeaderText.ParseClean | static/js/portal-console.js:127-141 | parsed headers are trimmed, without colon in the name or line break anywhere |
| HeaderText.LineMeans | static/js/portal-console.js:127-141 | a line is the header of the trimmed texts before and after its first colon, or nothing without a colon or a name |
| HeaderText.ParseJoin | static/js/portal-console.js:127-141 | and a text of several lines is the headers of its lines in order |
| HeaderText.ParseFormat | static/js/portal-console.js:127-145 | such headers survive printing and parsing |
| HeaderText.RoundTrip | static/js/portal-console.js:127-145 | parsing, printing and parsing again is parsing once |
| HeaderText.UpsertMeaning | static/js/portal-console.js:152-171 | one header of that name in any letter case, the others unchanged and in order |
| HeaderText.UpsertParses | static/js/portal-console.js:152-171 | the edited text parses to that list if and only if the guard holds |
| HeaderText.RemoveParses | static/js/portal-console.js:173-181 | the text after a removal parses to the other headers |
| PortalHistory.SafeHeadersParse | static/js/portal-console.js:400-405 | the saved text parses to exactly the headers, in order, whose name in any letter case is none of the five that carry credentials |
| PortalHistory.HistoryIsRecency | static/js/portal-console.js:407-438 | the bounded history is the start of the unbounded most-recent-first list |
| PortalHistory.RecencyMembers | static/js/portal-console.js:407-438 | that list holds exactly the last recording of each key |
| PortalHistory.HistoryIsSafe | static/js/portal-console.js:400-438 | in every run: distinct keys, at most 20, and every entry shows a request of the run, without its body and without headers that carry credentials |
| PortalHistory.Portal.UpsertHeader | static/js/portal-console.js:152-171 | the loop with its flag gives the intended list |
| PortalHistory.Portal.RemoveHeader | static/js/portal-console.js:173-181 | changes the text exactly when a header of that name is there |
| PortalHistory.Portal.RecordHistory | static/js/portal-console.js:407-438 | one recording as in the model |
| ShellQuoting.DoubleReadsBack | static/js/portal-console.js:476-478 | reading by section 2.2.3 of the POSIX Shell Command Language gives the text back |
| ShellQuoting.ArgReadsBack | static/js/portal-console.js:472-482 | a single-quoted argument reads back as the value, as part of one word |
| ShellQuoting.BuildCommand | static/js/portal-console.js:484-503 | splitting the command by section 2.2 gives exactly the intended arguments, whatever headers, body and URL hold |
| ShellQuoting.HeaderArgsParse | static/js/portal-console.js:183-198 | every header of the command, typed or added, is one argument that parses back to it, if and only if there is a typed Authorization header or the pasted key has no line break inside |
| ShellQuoting.AiSnippetReadsBack | static/js/portal-console.js:240-247 | the four-line snippet reads back as the intended arguments for every key and model name |

## Left out

- ShellQuoting.BuildCommand: asks that the method needs no quoting, because the code prints
  it bare; every method the portal offers meets this (`ShellQuoting.MenuMethodsArePlain`).
- ShellQuoting.AiSnippetReadsBack: asks that the base URL needs no quoting, because the code
  prints it bare; a browser origin with an IPv6 literal has brackets and does not meet this.
- Login.LockoutBound: handlers run one at a time; `LoginSections.LockoutBound` is the bound
  for overlapping ones.
- LoginProvenance.OneSessionPerChallenge: likewise; `LoginRaces.SessionsPerChallenge` is the
  statement for overlapping ones.
- Gin, HTTP plumbing, cookies, CORS, CSRF, server-sent events, TLS, QR codes and the
  reverse-proxy library itself.
- The headers of upstream requests: which of the client's credentials are removed and which
  service credential is set.
- Cryptography: hashing, key derivation, encryption, bcrypt and one-time-password
  arithmetic are functions with stated laws or answers passed in.
- JSON and files: a write succeeds or fails as a whole, and reading gives back what was
  written. The vault as a store of users is modelled only by when its writes change memory.
- The `Retry-After` header and duration rounding: the wait is the real number.
- Admin requests and the catch-all handler run as one step each, and so does a login where
  sweeps and session tokens are concerned. The limiter, token delivery and the overlapping
  logins are modelled one critical section at a time.
- The command line tools, which bypass the handlers' checks, and `ClearServiceAccessRestrictions`.
- Setup wizard, app configuration, provider environments and runtime reload; of
  config/setup_runtime.go only the nesting of locks is modelled.
- Token fields that no modelled step reads: names, prefixes, models, providers, last use.
- Fields of rules, audit events and monitor events that are only carried along:
  descriptions, client addresses, upstream names.
- Malformed request payloads, which are refused before any state is read.
- Service secrets and their metadata beyond whether their writes succeed.
- Trimming and letter case beyond ASCII.
- Which of two entries with equal sort keys comes first after Go's unstable sort.
- Whether an upstream URL parses. Percent escapes and the choice between a raw path and the
  default encoding follow the documented behaviour of Go's net/url, which is not part of
  the repository; characters are bytes there.
- Cancellation by context, request bodies on retries, counters beyond 64 bits, and floating-point
  rounding of latencies.
- Audit counters and session tables being reset, and the append-only event files.
- All page code of the portal and the dashboard's own counters; the history's preview
  text is modelled as the number it shows.
