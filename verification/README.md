# Verified model of the profile service

The service answers requests for member profiles. Behind one HTTP endpoint it coalesces concurrent
lookups, keeps a two-level cache, spaces and guards its upstream calls, charges prepaid credit, limits
its callers, and turns two JSON encodings of a profile into one. This project models that core as state
machines, classes and functions in Dafny and proves what each of them promises over every run.

| file | models |
|---|---|
| `Throttle.dfy` | the shared schedule of upstream slots |
| `Breaker.dfy` | the three-state circuit breaker, with its clock readings |
| `VoyagerClient.dfy` | the retry loop that drives the breaker, against an arbitrary upstream |
| `RateLimiter.dfy` | the sliding log of admissions, its eviction, and a log that never forgets |
| `Eviction.dfy` | late readings and bulk eviction together: the bound that is left, exactly |
| `Billing.dfy` | the seed, reserve and settle scripts and the request protocol around them |
| `SingleFlight.dfy` | request coalescing: leaders, waiters, cancellations, panics and removals as interleaved steps |
| `ProfileCache.dfy` | memory list, disk files, and the lookup across both and the upstream |
| `CacheRace.dfy` | the same two levels when lookups, refreshes and fetches of a key overlap |
| `EntityIndex.dfy`, `Json.dfy` | the URN index over a normalised envelope |
| `Dash.dfy`, `TypeNames.dfy`, `Envelopes.dfy`, `FlatForm.dfy` | extraction, flattening, sorting; both envelopes mean one profile |
| `EmbeddedForm.dfy` | what the embedded envelope is read as, by the keys of the JSON alone |
| `PositionMapper.dfy` | which keys an experience entry and its company are read from |
| `Inheritance.dfy` | what a flat envelope loses of a group's company details |
| `Draft.dfy` | merging of contact and network cards |
| `Session.dfy` | tombstones and cookie rotation |
| `PercentCodec.dfy` | the path-segment encoder and the decoder for pasted identifiers |
| `Common.dfy` | Option, first known values, counting of instants in a window, permutations |

A class has the fields the program updates; its methods have the program's branches and loops, and
state the whole new state as a function of the old one. Histories kept in ghost fields (`log`, `logs`,
`latest`) connect one call to the theorems about runs. What a function computes is stated a second time without
it, by a scan of the history or on the keys, numbers and positions of its input. Time is an integer number of
ticks.

Where the code does something other than its comments say, the model follows the code:

- The inbound limiter is called a fixed window (`src/api/middleware.rs:199`); it is a sliding log. Its
  clock is read before its lock (`:222-223`). With readings up to d late the window bound holds on all
  runs if and only if d is 0; what is left for every d is exact in `Eviction.AllRunsBoundIff`, and in
  `RateLimiter.LagBoundIff` for runs without a bulk eviction. Its eviction of a single oldest bucket
  (`:247-251`) cannot happen, since the key has just been inserted.
- "First occurrence wins" (`src/parser/normalized.rs:41`) holds of the order only; the entity kept for a
  repeated URN is the last one.
- A fetch can panic in two more places. The body of an error answer is cut at byte 4096 for the log
  (`src/linkedin/client.rs:428`), which may be inside a character; and the jitter of the back-off is drawn
  from a range that is empty when the configured back-off is 0 (`:443`), a setting that is accepted
  (`src/config.rs:461-478`). `VoyagerClient.UnwindsIff` is the exact condition.
- "Exactly one caller is probing" (`src/linkedin/throttle.rs:103`) depends on that caller reporting. A fetch
  can leave without recording anything, by one of its answers, by one of those panics, or because its caller
  goes away (`src/service/profile.rs:197-203` awaits it in the request itself), and then no check passes again: `VoyagerClient.StuckProbeIff` is the exact condition, `VoyagerClient.WedgedRun` the
  run, `VoyagerClient.ErrorPageWedges`, `VoyagerClient.ZeroBackoffWedges` and `VoyagerClient.DroppedWedges`
  give inputs.
- The rejecting branch of `check` reads the clock a second time (`src/linkedin/throttle.rs:134`). If the
  cooldown ends between the two readings the subtraction panics and the mutex stays poisoned, whatever
  is recorded later: `Breaker.PoisonedIff`, `Breaker.PoisonIsForever`, `Breaker.PanicReachable`.
- A sign-out during a fetch is announced as such (`src/linkedin/client.rs:261-267`), but the session tested
  there is the copy taken before the loop, while `send` updates the shared one:
  `VoyagerClient.MidRequestSignOutMissed`, `VoyagerClient.SignedOutByRedirect`.
- Coalescing is not unconditional: a late removal that belongs to a finished flight can unlink a newer
  one. `SingleFlight.SingleFlightIff` is the exact condition. Nor are entries always removed
  (`src/service/profile.rs:110-113`): that of a leader that panics stays, and every later lookup of the
  key fails on it, exactly as `SingleFlight.CrashIsForeverIff` says.
- The cache can serve a superseded profile in two ways. A file still within its TTL that can be neither
  read nor replaced while a newer profile is fetched is served later: `ProfileCache.Cache.GetProfile` has
  the exact condition, `ProfileCache.StaleFileIsServed` the run. And a disk lookup that inserts after a
  refresh has fetched anew puts an older profile back: `CacheRace.FetchSafeIff`,
  `CacheRace.LateLoadRegresses`.
- A role inherits its group's company details (`src/parser/dash.rs:793-795`) in the embedded envelope only: in a
  flat one the roles of a group are listed by themselves and inherit nothing. The lists agree exactly
  when nothing that a kept role inherits shows in its entry: `Inheritance.InheritanceLostIff`. A role that
  lacks what its group has may lose it (`Inheritance.LackingRole`) or not (`Inheritance.LackingButSame`), since
  the URN of a role's own company object hides the company URN, and a company name the name of that object
  (`src/parser/dash.rs:405-415`).
- The percent decoder slices its text at byte offsets and panics when that cuts a character:
  `PercentCodec.PanicsOnTextIff`. It also takes a plus sign for a leading digit:
  `PercentCodec.StrictIff`.

## Model

| member | source | states |
|---|---|---|
| Throttle.RequestThrottle.constructor | src/linkedin/throttle.rs:29-38 | negative settings count as zero; the first slot is free at once |
| Throttle.RequestThrottle.Acquire | src/linkedin/throttle.rs:50-67 | each call is appended to the schedule and its reading plus its wait is its grant in that schedule |
| Throttle.GrantIsMaxPlus | src/linkedin/throttle.rs:56-62 | whatever order readings reach the lock in, a grant is the maximum over the initial slot and all earlier readings of that instant plus all spacing drawn since |
| Throttle.GrantsFeasible | src/linkedin/throttle.rs:56-62 | the grants start nobody before its reading and keep every drawn spacing |
| Throttle.GrantsLeast | src/linkedin/throttle.rs:56-62 | no schedule that does so grants any call earlier |
| Throttle.GrantRate | src/linkedin/throttle.rs:16-20 | successive grants are min_interval apart, so a closed window of length w holds at most w/min_interval + 1 |
| Breaker.CircuitBreaker.constructor | src/linkedin/throttle.rs:119-125 | starts closed with a threshold of at least one and no negative cooldown |
| Breaker.CircuitBreaker.Check | src/linkedin/throttle.rs:128-153 | the state is that of the history including this check, and unless the mutex is poisoned the verdict is the one the history calls for |
| Breaker.CircuitBreaker.RecordSuccess | src/linkedin/throttle.rs:155-162 | the state is that of the history with one more success |
| Breaker.CircuitBreaker.RecordFailure | src/linkedin/throttle.rs:174-205 | the state is that of the history with one more failure |
| Breaker.CircuitBreaker.Report | src/linkedin/throttle.rs:207-220 | reports open exactly when a check at that reading would be rejected for the cooldown |
| Breaker.ClosedIffFewFailures | src/linkedin/throttle.rs:174-192 | over every history, closed if and only if fewer than threshold failures were recorded since the last success, and the counter is that number |
| Breaker.VerdictFromHistory | src/linkedin/throttle.rs:128-205 | over every unpoisoned history and for any two readings: a check passes if fewer than threshold failures were recorded since the last success, or as the probe a cooldown after the opening, found by a scan; otherwise it is rejected with exactly the time left, or a whole cooldown while a probe is out |
| Breaker.PoisonedIff | src/linkedin/throttle.rs:129-142 | over every history, the mutex is poisoned if and only if some check met an open breaker whose cooldown ended strictly between its two readings |
| Breaker.PoisonIsForever | src/linkedin/throttle.rs:129 | from then on no check passes, whatever is recorded, successes included |
| Breaker.PanicReachable | src/linkedin/throttle.rs:133-134 | with any positive cooldown an ordered run of two calls gets there |
| Breaker.ProbesSpaced | src/linkedin/throttle.rs:132-147 | from an open breaker on, with no success recorded, no probe passes before the cooldown and probes are a cooldown apart |
| Breaker.ProbeRate | src/linkedin/throttle.rs:107-111 | so a closed window of length w lets at most w/cooldown + 1 checks through |
| Breaker.HalfOpenHolds | src/linkedin/throttle.rs:103-104 | while a probe is out and nothing is recorded, every check is rejected and the state never changes |
| VoyagerClient.Client.Fetch | src/linkedin/client.rs:229-364 | the breaker's history grows by the check and by exactly the failures and success of the trace of this fetch, and by nothing more when the check does not pass; the answer is the one its last answer and the flags of the call decide; a panicking check, a cut body and a failing back-off unwind; a caller that goes away gets nothing; the shared session is that of the trace |
| VoyagerClient.Client.Attempts | src/linkedin/client.rs:238-343 | the loop ends with the outcome, the reports and the shared session of its trace, on every way out including the two that unwind and a caller that goes away at any attempt |
| VoyagerClient.Client.Leave | src/linkedin/client.rs:247-338 | every branch that ends the loop reports to the breaker and answers as its exit says |
| VoyagerClient.Client.GiveUp | src/linkedin/client.rs:345-363 | an exhausted fetch records one more failure and fails only if the call is required and has no fallback |
| VoyagerClient.FetchAccounting | src/linkedin/client.rs:229-444 | for every sequence of answers and bodies, every back-off and every departure of the caller: at most max(1, max_retries) sends, at most one forced re-authentication, a success exactly for a returned 200 payload, and failures equal to the throttling answers that could be logged plus one for the three failing exits |
| VoyagerClient.LastAnswerDecides | src/linkedin/client.rs:238-364 | every fetch has exactly one last answer: the first that cannot be passed, a second refusal, or that of the last attempt; number, flags and whether it was refused before decide what the fetch says |
| VoyagerClient.ReplyByStatus | src/linkedin/client.rs:235-363 | by the number of the last answer: a replaceable call fails for a 404 and an announced sign-out only, an optional one for a sign-out and a session that cannot be renewed, a needed one for everything but its payload and a 410; which error each is; and a response carries the status of a payload, a refusal, a 404 or a 410, else 0 with the number of attempts |
| VoyagerClient.ReportsByStatus | src/linkedin/client.rs:247-346 | by the same numbers: one failure for each throttling answer, one more for a failing last answer, a success for a payload, and a re-authentication for the first refusal of a call that nothing replaces |
| VoyagerClient.SharedByScan | src/linkedin/client.rs:275-293 | the session left behind is the renewed one or the first one with the cookies of the latest answer that rotated any, whichever came last |
| VoyagerClient.CutIff | src/linkedin/client.rs:426-435 | a body is cut if and only if it is that of an error answer and its byte 4096 continues a character |
| VoyagerClient.BackoffWorks | src/linkedin/client.rs:441-444 | a positive back-off of up to 2^32 seconds can be drawn after each of the first 32 answers |
| VoyagerClient.UnwindsIff | src/linkedin/client.rs:426-444 | a fetch with a session and a caller unwinds if and only if some answer within the attempts has a body that is cut inside a character, or is an empty 200 or transient error with an attempt left before a back-off that cannot be drawn, and every earlier answer was read and is an empty 200 or transient error with a back-off that works, or a refusal that was cured, with at most one refusal in all |
| VoyagerClient.StuckProbeIff | src/linkedin/client.rs:235-444 | a granted probe is left unresolved if and only if the caller goes away or has no session at the start, or at some answer within the attempts the caller is gone, or it has a body that is cut, or is a 404, a 410, a redirect for a session signed out at the start, or an empty 200 or transient error before a failing back-off, after nothing but quiet answers and at most one refusal that was cured |
| VoyagerClient.WedgedRun | src/linkedin/throttle.rs:148-151 | for all such answers, a run through breaker and client after which a check at any reading is rejected |
| VoyagerClient.ErrorPageWedges | src/linkedin/client.rs:426-435 | any error answer with a page of 4097 bytes ending in a two-byte character is such an answer |
| VoyagerClient.ZeroBackoffWedges | src/linkedin/client.rs:441-444 | so is a transient error when the back-off is configured as zero and a second attempt is left |
| VoyagerClient.DroppedWedges | src/service/profile.rs:197-203 | so is a caller that goes away during the session check or the first send |
| VoyagerClient.WedgedByNotFound | src/linkedin/client.rs:309-319 | a run: a failure opens the breaker, the probe after the cooldown gets a 404, and a check at any later or earlier reading is rejected |
| VoyagerClient.SilentProbeWedges | src/linkedin/throttle.rs:148-151 | after such a fetch no sequence of checks, at whatever readings, lets anyone through |
| VoyagerClient.ExhaustedReportsLastError | src/linkedin/client.rs:330-347 | the error of an exhausted fetch is that of its last answer that was not a session refusal |
| VoyagerClient.SignOutReportedIff | src/linkedin/client.rs:259-267 | a sign-out is reported exactly when the last answer is a redirect whose body is not cut, the caller is still there, and the session read before the loop was already signed out |
| VoyagerClient.MidRequestSignOutMissed | src/linkedin/client.rs:259-270 | when a session usable at the start is signed out by the cookies of the redirect that ends the fetch, the shared session is signed out once they are taken in, and the fetch reports an unavailable upstream, unwinds if the body is cut, or has no caller left |
| VoyagerClient.SignedOutByRedirect | src/linkedin/client.rs:404-416 | a run of that kind, for every usable session |
| RateLimiter.Trim | src/api/middleware.rs:226-231 | drops exactly the expired admissions at the front |
| RateLimiter.Limiter.constructor | src/api/middleware.rs:213-221 | starts empty; limit and window are at least one |
| RateLimiter.Limiter.Check | src/api/middleware.rs:219-259 | for every reading, the new map and the verdict; with ordered readings the decision is that of a log that never forgets, and after an admission the map has at most 8192 buckets or all are live |
| RateLimiter.KeepsTrimmed | src/api/middleware.rs:226-232 | after popping, the bucket counts exactly the admissions of the complete log still in the window |
| RateLimiter.AllKeepEvicted | src/api/middleware.rs:252-257 | bulk eviction keeps everything each bucket owes to its complete log, so no later decision changes |
| RateLimiter.ReferenceSpread | src/api/middleware.rs:226-243 | over every run, limit + 1 consecutive admissions of one identity span more than the window |
| RateLimiter.WindowHoldsLimit | src/api/middleware.rs:219-243 | every closed interval of length window holds at most limit admissions of one identity |
| RateLimiter.RetryAfterExact | src/api/middleware.rs:232-241 | after a rejection announcing r, whatever others do, a later check is admitted if and only if it comes strictly after now + r |
| RateLimiter.RunRefines | src/api/middleware.rs:219-259 | over every run with ordered readings, evictions included, the admissions are those of the log that never forgets |
| RateLimiter.LaggingWindow | src/api/middleware.rs:219-259 | with readings up to d late, every closed interval of length window - 2d holds at most limit admissions, and of length window - d while nothing is evicted in bulk |
| RateLimiter.LagBoundIff | src/api/middleware.rs:222-243 | for limit at least 2 and no bulk eviction, a length is safe on all runs with readings up to d late if and only if it is at most window - d |
| Eviction.AllRunsBoundIff | src/api/middleware.rs:222-257 | over all runs, evictions included: with readings up to d late a length is safe if and only if it is at most window - d for a limit of one, window - 2d for every larger limit |
| Eviction.WindowBoundIff | src/api/middleware.rs:222-257 | so for every limit the window bound holds on all runs if and only if no reading is late |
| Eviction.LimitOneLags | src/api/middleware.rs:226-257 | a limit of one loses one lag to evictions |
| Eviction.FloodRun | src/api/middleware.rs:252-257 | 8192 other callers make the limiter forget an identity whose last admission is more than a window back |
| RateLimiter.LimitOneHolds | src/api/middleware.rs:226-243 | a limit of one keeps the window bound whatever the readings, while nothing is evicted in bulk |
| RateLimiter.LateReadingAdmitted | src/api/middleware.rs:219-259 | four calls, the last one tick late, are all admitted and put three in a window that allows two |
| Billing.BillingStore.SeedFromFile | src/billing.rs:50-81 | fields are set only while absent; an invalid account stops the seeding and keeps what came before it |
| Billing.BillingStore.Authenticate | src/billing.rs:104-124 | a key is accepted if and only if it has the prefix and its account names an email and is enabled |
| Billing.BillingStore.Reserve | src/billing.rs:126-160 | the store is that of the script, and the answer for every balance, including balances that collide with the error codes |
| Billing.BillingStore.Settle | src/billing.rs:162-199 | balance and answer for every case: charged if reservation, or reservation and balance, cover the price, else the whole reservation goes back; a new balance of -1 or -2 is read as an error |
| Billing.ReseedChangesNothing | src/billing.rs:55-79 | seeding one file twice leaves what seeding it once leaves, for every store and digest |
| Billing.ReseedEvent | src/billing.rs:60-78 | in every reachable ledger, seeding a known account with whatever email or credit changes nothing |
| Billing.SeededRow | src/billing.rs:55-79 | a new account gets email and credit of the first entry of the file with its digest and is enabled; a known one keeps what it has and gets the rest |
| Billing.SeedLeavesOthers | src/billing.rs:55-79 | an account that the file does not name is not touched |
| Billing.SeededKeyWorks | src/billing.rs:50-160 | a run into an empty store: every key of a valid file is accepted and can reserve its credit and no more |
| Billing.LedgerInvariant | src/api/middleware.rs:143-182 | over every interleaving of seeds, reservations, settlements, refunds and abandoned requests: initial credit = balance + outstanding + settled + abandoned, and no balance is negative |
| Billing.FinishCharges | src/api/middleware.rs:158-173 | finishing a request charges its price if balance plus reservation cover it and else nothing, and moves the balance by exactly reservation minus charge |
| Billing.RequestCosts | src/api/middleware.rs:143-182 | a request among all others, from its reservation to its settlement: a failure costs nothing, a cached profile the price of a hit, a fetched one the price of a miss if balance plus reservation cover it and else nothing; no other account is touched |
| Billing.AbandonedIsLost | src/api/middleware.rs:143-158 | what a request reserved that is never settled is not given back by anything that happens later |
| Billing.NeverOverspent | src/billing.rs:131-136 | no account is charged or held back more than it was granted |
| Billing.ReserveCodes | src/billing.rs:146-158 | in a ledger in order, -1 means a missing account, -2 a balance below the price, and every other answer is the new balance |
| Billing.SettleCodes | src/billing.rs:188-198 | likewise for settling; an outstanding request never finds its account missing |
| SingleFlight.ProfileService.Join | src/service/profile.rs:119-167 | joins the flight the map holds for the key, or starts one and puts it there |
| SingleFlight.ProfileService.Publish | src/service/profile.rs:156 | the outcome of the flight is set to the one sent, once |
| SingleFlight.ProfileService.Fail | src/service/profile.rs:130-158 | a leader that panics sets no outcome and removes no entry |
| SingleFlight.ProfileService.LeaderCleanup | src/service/profile.rs:157 | removes whatever entry the key has |
| SingleFlight.ProfileService.Look | src/service/profile.rs:169-189 | a waiter leaves its loop exactly when its flight's outcome is set or its leader has panicked, and then with an error and without a removal |
| SingleFlight.ProfileService.WaiterCleanup | src/service/profile.rs:180-183 | removes whatever entry the key has, then returns the outcome read before |
| SingleFlight.StepInv | src/service/profile.rs:114-190 | every step keeps: waiters carry their own flight's outcome, entries belong to leaders that have not run their removal, outcomes never change |
| SingleFlight.WaitersAgree | src/service/profile.rs:169-183 | all waiters of a flight that ever return have the same outcome, the flight's own |
| SingleFlight.OutcomeWasSent | src/service/profile.rs:126-158 | over every run: the outcome of a flight is that of the first event that ended its fetch, if that was a send, and there is none before or after a panic |
| SingleFlight.WaiterPerArrival | src/service/profile.rs:119-167 | over every run: one waiter for each arrival, on a flight of the key asked for |
| SingleFlight.ServedWhatWasSent | src/service/profile.rs:126-190 | over every run: whoever is answered gets what the leader of a flight of its own key sent, and whoever is dropped waited on one that panicked |
| SingleFlight.WaiterIsServed | src/service/profile.rs:169-189 | once an outcome is sent a waiter that looks and removes gets it, whatever happens in between, and leaves no entry for the key; cancelled, it gets nothing |
| SingleFlight.MapBounded | src/service/profile.rs:110-113 | in every run, panics included, the map is no larger than the number of leaders that have not run their removal |
| SingleFlight.MapEmptyIff | src/service/profile.rs:110-158 | once every leader has ended the map is empty if and only if it holds no flight whose leader panicked |
| SingleFlight.CrashIsForeverIff | src/service/profile.rs:119-188 | the entry of a panicked leader stays for ever, with every newcomer joining it and nobody served, if and only if no other leader or waiter of the key may still run a removal |
| SingleFlight.CrashReachable | src/service/profile.rs:184-188 | a four-step run in which an arrival after the panic gets the error |
| SingleFlight.SingleFlightIff | src/service/profile.rs:110-167 | a flight without an outcome stays the only one of its key in every continuation without one if and only if no other leader or waiter of that key may still have its removal to run |
| SingleFlight.QuietRun | src/service/profile.rs:119-167 | until the outcome is sent the map holds the flight, every newcomer joins it and no second fetch starts, whoever is cancelled |
| SingleFlight.StaleDoublesFetch | src/service/profile.rs:181 | otherwise some continuation runs two fetches of the key at once |
| SingleFlight.StaleStateReachable | src/service/profile.rs:157-181 | a run from the start that reaches such a state |
| ProfileCache.Cache.Get | src/service/cache.rs:95-110 | a hit is at most two TTLs past its stamp, one if it never came back from disk, and the latest fetched profile of an honest key; every call counts as one hit or one miss |
| ProfileCache.Cache.LoadDisk | src/service/cache.rs:114-145 | only a current entry of version 1 of this very key is returned, with a TTL of its own and the old stamp; any other readable file is removed |
| ProfileCache.Cache.InsertMemory | src/service/cache.rs:147-150 | the key maps to the new entry alone, the list stays within its capacity, and no other key can be told anything new |
| ProfileCache.Cache.SaveDisk | src/service/cache.rs:153-184 | whichever of creating, writing and renaming fails, the file is the old one or the new one and never garbage; only a failed write leaves a temporary file |
| ProfileCache.Cache.Invalidate | src/service/cache.rs:186-191 | neither level holds the key afterwards |
| ProfileCache.Cache.HonestIff | src/service/cache.rs:95-145 | a key is honest if and only if no lookup of it in memory or on disk, at any later reading, yields anything but its latest fetch |
| ProfileCache.Cache.GetProfile | src/service/profile.rs:56-108 | a cached answer for an honest key is its latest successful fetch, and never older than two TTLs; a fetch leaves the key honest if and only if no superseded file of it within its TTL was neither readable nor replaced; other keys stay honest |
| ProfileCache.Cache.Remember | src/service/profile.rs:136-155 | after a fetch memory holds it, the disk holds it if all steps of the save succeed, and the key is honest if and only if they did or no superseded file within its TTL is left |
| ProfileCache.PutEvictsLast | src/service/cache.rs:147-150 | a full list drops exactly its least recently used entry for a new key |
| ProfileCache.TouchKeeps | src/service/cache.rs:95-97 | a lookup only reorders the list: the same slots, and the same answer for every key |
| ProfileCache.RecentlyUsedStays | src/service/cache.rs:95-150 | whatever the list, over every run of uses: a key stays until as many other keys as the capacity have been used since, and exactly those are in front of it |
| ProfileCache.BoundIsTight | src/service/cache.rs:132-144 | a run that serves a profile exactly two TTLs after its stamp |
| ProfileCache.StaleFileIsServed | src/service/cache.rs:116-119 | a run in which the excluded disk failure makes the cache serve a superseded profile |
| CacheRace.SafeIff | src/service/profile.rs:78-82 | in any state, memory serves nothing but the latest profile until the next fetch if and only if nothing older that has not expired is in memory, on disk, or between the steps of a lookup or a save |
| CacheRace.FetchSafeIff | src/service/profile.rs:142-152 | in every reachable state, a fetch that inserts is safe from older profiles if and only if the file is gone or expired, what lookups and saves still hold has expired, and no save has yet to be stamped |
| CacheRace.NeverRegresses | src/service/profile.rs:61-155 | over every run in which each fetch inserts in such a state memory never regresses |
| CacheRace.LateLoadRegresses | src/service/profile.rs:62-83 | a run in which a lookup overtaken by a refresh puts the first profile back over the second |
| CacheRace.FailedSaveRegresses | src/service/cache.rs:116-184 | a run in which a failed save leaves the old file, which is then served in place of the newer profile |
| CacheRace.ReloadedLivesOn | src/service/cache.rs:132-144 | a run in which a profile read back from disk is served two TTLs after its fetch |
| EntityIndex.New | src/parser/normalized.rs:27-58 | an index exists if there is a list or a data object, and answers like linear scans of the items |
| EntityIndex.OrderHasNoDuplicates | src/parser/normalized.rs:41-45 | the order lists every URN once, where it first occurs |
| EntityIndex.OrderOfOccurrence | src/parser/normalized.rs:36-46 | the order holds exactly the URNs that occur, and further items only add to its end |
| EntityIndex.IndexUnique | src/parser/normalized.rs:64-66 | looking up the last item of each URN and the first-occurrence order determine the index |
| EntityIndex.OfTypeIsScan | src/parser/normalized.rs:71-84 | entities by type are the last items of all URNs, filtered, in first-occurrence order |
| EntityIndex.OfTypeOfDistinct | src/parser/normalized.rs:68-84 | when no URN repeats that is a plain filter of the items |
| EntityIndex.EncodingsRead | src/parser/normalized.rs:93-163 | a collection reads as the entities that its items denote in the envelope, in their order, whether it is embedded or pointed to, a list or a paged object, of entities or of their URNs; items that denote none are passed over |
| Dash.FlattenPositions | src/parser/dash.rs:797-860 | the result is the standalone positions, then the new roles of the groups with what they inherit |
| Dash.KeepsFirstOfEach | src/parser/dash.rs:830-838 | a role is kept exactly when no standalone position and no earlier role has its optional URN |
| Dash.FlattenedRepresents | src/parser/dash.rs:793-796 | standalone positions come first unchanged and the URN of every group role is represented |
| Dash.InheritFillsOnly | src/parser/dash.rs:839-855 | inheritance adds only absent company fields, with the group's values, and overwrites nothing |
| Dash.NewestFirst | src/parser/dash.rs:380-403 | in the experience list years never increase, nor months within a year, an unknown month counting as 0, and after an undated entry there are only undated ones |
| Dash.SortSorts | src/parser/dash.rs:380-403 | the experience list is ordered by start key and a permutation of the mapped positions |
| Dash.SortStable | src/parser/dash.rs:380 | entries that start in the same year and month, or have no date, keep their order |
| Dash.OrderIrrelevantIff | src/parser/dash.rs:380-403 | the order in which positions are listed is irrelevant if and only if the start key tells all entries apart |
| TypeNames.TypeRecognised | src/parser/dash.rs:25-55 | whatever the package and spelling, a type name is recognised as its own section's and no other's |
| TypeNames.SectionsDisjoint | src/parser/dash.rs:25-55 | no entity at all, however it is typed, belongs to two sections |
| TypeNames.MembersRecognised | src/parser/dash.rs:184-188 | the suffixes of the member record pick out no section entity |
| EmbeddedForm.EmbeddedRootIff | src/parser/dash.rs:162-178 | the member record of an embedded payload is its first element with a name, identifier or headline, or else the payload itself; without either there is no profile |
| EmbeddedForm.KeyNamesType | src/parser/dash.rs:25-55 | the key of every section is made of the short name of its type |
| EmbeddedForm.EmbeddedSection | src/parser/dash.rs:135-160 | a section of an embedded profile holds the objects listed under its key, directly or as the elements of an object, and nothing where no list is |
| EmbeddedForm.EmbeddedGroup | src/parser/dash.rs:862-876 | so do the roles of a position group |
| Envelopes.FlatSections | src/parser/dash.rs:221-232 | whatever else an envelope lists, the entities of a section are those of its types, the last one of a repeated URN, in first-occurrence order |
| Envelopes.FlatGroup | src/parser/dash.rs:862-870 | the roles of a group in a flat envelope are the entities that its collection denotes |
| Envelopes.FlatExtractIff | src/parser/dash.rs:123-134 | a payload with a list or a data member is read if and only if it lists a member record |
| Envelopes.EnvelopesAgree | src/parser/dash.rs:92-148 | a record and any flat envelope that lists it, among any other entities, with any type names and URNs and positions in any order, yield the same experience list, provided start keys differ, and the same entities in every other section |
| Envelopes.EnvelopesAgreeInOrder | src/parser/dash.rs:92-148 | whatever the start keys, when the positions are listed in their order |
| Envelopes.MembersIdentified | src/parser/dash.rs:184-188 | the candidates are the entities of that type with a name, identifier or headline, in their order |
| Envelopes.RootPicked | src/parser/dash.rs:180-209 | the member record read is the first one that `*elements` or, without it, `*profile` of the data points at, by itself or as the first of a list, or else the last of the largest |
| Envelopes.RootsAgreeIff | src/parser/dash.rs:162-209 | both envelopes yield the same member record if and only if the listed one is the one picked |
| FlatForm.FlatMirrors | src/parser/dash.rs:797-860 | the member record, the flattened positions and the other sections, each entity typed and named, make an envelope that lists an embedded record, its positions in order |
| FlatForm.FlatFormAgrees | src/parser/dash.rs:123-148 | so every embedded record, with or without URNs, whatever its start keys, has a flat envelope that means the same profile and yields the same member record |
| PositionMapper.EntryTells | src/parser/dash.rs:352-434 | an entry takes the first of its three names, the first of its two URNs and of its two logos that is present, the address of the company object, and the other details from what is left of the position; without a title and a company name there is none |
| PositionMapper.SameEntryIff | src/parser/dash.rs:352-434 | the entry of a role is the same with what it inherits if and only if its name, its URN, and its address and logo stay: hidden by its own, equal to them, or unreadable; without an entry, if no readable name is gained |
| PositionMapper.CodeViewKeepsStart | src/parser/dash.rs:356-403 | inheriting drops no entry and moves no start key |
| PositionMapper.CodeViewIgnoresName | src/parser/dash.rs:352-434 | an entry reads neither the type name nor the position's own URN |
| Inheritance.FlattenedRoles | src/parser/dash.rs:826-857 | flattening yields the standalone positions, then the roles whose optional URN is new with what they inherit |
| Inheritance.InheritChangesIff | src/parser/dash.rs:839-855 | inheriting changes a role exactly when its group has a company detail that it lacks |
| Inheritance.AsWrittenIff | src/parser/dash.rs:352-403 | for every mapper by which an entry keeps its start when its role inherits: the positions as written yield the experience list of the record if and only if inheriting changes no kept role's entry |
| Inheritance.InheritanceLostIff | src/parser/dash.rs:793-860 | for the mapper of the code: a flat envelope that lists the positions as written yields the experience list of the embedded record if and only if for every kept role what it inherits shows nowhere, a condition on the keys of group and role |
| Inheritance.WrittenForm | src/parser/dash.rs:793-860 | every embedded record has such a flat envelope |
| Inheritance.LackingRole | src/parser/dash.rs:839-845 | with a group that has a company name and a role with a title and no company the lists differ |
| Inheritance.LackingButSame | src/parser/dash.rs:409-415 | with a group that has a company URN and a role that lacks it but has a company object with a URN they agree |
| Draft.MergeLists | src/parser/draft.rs:177-185 | the loop computes the merge the lemmas are about |
| Draft.ProfileDraft.MergeContact | src/parser/draft.rs:132-152 | the contact becomes the merge of the known card and the new one; nothing else changes |
| Draft.ProfileDraft.FillNetwork | src/parser/draft.rs:155-174 | the network card becomes the merge of the known one and the new one; nothing else changes |
| Draft.MergedKeepsPrefix | src/parser/draft.rs:177-185 | the known list stays as a prefix and every item added is new, from the incoming list, and there once |
| Draft.MergedMembers | src/parser/draft.rs:177-185 | the merged list has the items of both lists and no others |
| Draft.MergedAssociative | src/parser/draft.rs:177-185 | merging lists is associative |
| Draft.MergedAbsorbs | src/parser/draft.rs:177-185 | a list merged before adds nothing again, on either side |
| Draft.ContactMonoid | src/parser/draft.rs:130-152 | merging contact cards is associative and a missing card is its identity |
| Draft.ContactAbsorbs | src/parser/draft.rs:130-152 | merging a card again, from either side, changes nothing |
| Draft.ContactOnlyGrows | src/parser/draft.rs:137-149 | known scalars are never overwritten, missing ones are filled, no listed item is lost |
| Draft.ContactTold | src/parser/draft.rs:130-152 | after any run of cards each list has exactly the items that some card had in it, and each scalar is what the first card that knew it told |
| Draft.ReplayChangesNothing | src/parser/draft.rs:132-152 | after any run of merges, merging one of its cards again changes nothing |
| Draft.NetworkMonoid | src/parser/draft.rs:155-174 | merging network cards is associative and idempotent with the missing card as identity |
| Draft.NetworkFirstKnown | src/parser/draft.rs:154-174 | after any run each field is what the first source that knew it told |
| Session.TombstoneIff | src/linkedin/session.rs:82-86 | a value is a tombstone if and only if it is the marker in any quotes in any white space |
| Session.LinkedInSession.MergeCookies | src/linkedin/session.rs:121-135 | every order of walking the issued cookies ends in the same jar |
| Session.RotateTwice | src/linkedin/session.rs:121-135 | two rotations equal one by their last non-empty override |
| Session.AfterRun | src/linkedin/session.rs:121-135 | after any run a cookie depends only on its own last non-empty issued value |
| Session.HoldsLast | src/linkedin/session.rs:121-135 | after any run a cookie holds its last non-empty value as it was issued, nothing if that is a tombstone of another cookie than the auth cookie, and what it held before if there is none |
| Session.SignedOutIff | src/linkedin/session.rs:108-111 | after any run the session is signed out if and only if the last non-empty auth cookie is a tombstone |
| Session.UsableIff | src/linkedin/session.rs:102-106 | after any run the session is usable if and only if both cookies were last given a live value |
| Session.StaysClean | src/linkedin/session.rs:126-132 | no other cookie is ever left holding a tombstone |
| PercentCodec.Seg | src/linkedin/endpoints.rs:31-44 | the loop computes the encoding the lemmas are about |
| PercentCodec.PercentDecode | src/linkedin/url.rs:178-195 | the loop computes the decoding the lemmas are about, or panics |
| PercentCodec.RoundTrip | src/linkedin/endpoints.rs:31-44 | decoding an encoded byte string gives it back |
| PercentCodec.TextRoundTrip | src/linkedin/url.rs:178-195 | so does decoding an encoded text, through the lossy conversion |
| PercentCodec.SpellingDecodes | src/linkedin/url.rs:178-195 | however a byte string is spelled, whatever is escaped in it and with digits of either case, it decodes to itself |
| PercentCodec.EncodedInjective | src/linkedin/endpoints.rs:31-44 | different values have different encodings |
| PercentCodec.UnreservedIff | src/linkedin/endpoints.rs:31-37 | the bytes left as they are are the 66 unreserved characters of section 2.3 of RFC 3986 |
| PercentCodec.EncodedCanonical | src/linkedin/endpoints.rs:34-41 | the encoding has only unreserved bytes and upper-case triples, none of them for an unreserved byte |
| PercentCodec.CanonicalRoundTrip | src/linkedin/url.rs:178-195 | every text of that form is the encoding of exactly what it decodes to |
| PercentCodec.PanicsIff | src/linkedin/url.rs:183-185 | on every byte string, decoding panics if and only if some escape would cut a character |
| PercentCodec.PanicsOnTextIff | src/linkedin/url.rs:185 | on text: if and only if the third byte after some percent sign continues a character |
| PercentCodec.PanicsOnAccent | src/linkedin/url.rs:185 | a four-byte text that makes it panic |
| PercentCodec.UnchangedIff | src/linkedin/url.rs:182-192 | a text decodes to itself if and only if nothing in it reads as an escape, and any escape shortens it |
| PercentCodec.StrictIff | src/linkedin/url.rs:182-192 | where it does not panic, decoding agrees with section 2.1 of RFC 3986 if and only if no percent sign is followed by a plus sign and a hexadecimal digit; each of those loses two bytes |

## Left out

- Throttle.RequestThrottle.Acquire: instants and spacings are unbounded; additions beyond the clock's range, at which the code panics, are not modelled.
- Breaker.CircuitBreaker.Check: the rejection carries the exact remaining cooldown; rounding it to whole seconds is not modelled.
- VoyagerClient.Client.Fetch: request headers, the throttle permit and the length of the back-off are not part of the trace, and its seconds are real numbers; nothing else touches the breaker or the shared session meanwhile.
- ProfileCache.Cache.GetProfile: lookups run one at a time (overlapping ones are in `CacheRace.dfy`), removals succeed whenever the disk is reached, and one clock serves the monotonic and the wall readings.
- ProfileCache.Cache.SaveDisk: serialising cannot fail, and a crash between the steps is not modelled.
- CacheRace.NeverRegresses: the capacity of the list appears only as dropping an entry at any moment.
- SingleFlight.ProfileService.Join: the two cache lookups before it are not part of the protocol, and a leader panics before it sends or not at all; a cancelled waiter is a step of the state machine without a method.
- Billing.BillingStore.Reserve: balances are unbounded integers, not the 64-bit and floating-point numbers of the scripts; the balance read again for the error body is left out.
- Billing.BillingStore.Settle: a lost reply counts as a finished request, an unsent script as an abandoned one.
- PositionMapper.SameEntryIff: texts, URNs, images and addresses are read by arbitrary functions, and so are the dates and other details of a position, from a position without its company details.
- Envelopes.EnvelopesAgree: the field mappers and the text normaliser are arbitrary functions that read neither the type name nor the entity's own URN; identity, network and contact are not computed from the member record.
- PercentCodec.PercentDecode: the replacement of malformed bytes is an arbitrary function that keeps well-formed text.
- Semaphore permits, the watch channel, the LRU crate and the Redis server: a counter that never blocks the schedule, a one-shot cell, a recency-ordered list, and atomic steps.
- HTTP routing, headers, peer and proxy identities, constant-time comparison, telemetry, settings: plumbing.
- Login and validation (`src/linkedin/auth.rs`) and the strategy chain (`src/linkedin/repository.rs`): they appear as session checks that succeed or fail and as a fetch outcome.
- SHA-256: an arbitrary function from keys to paths or accounts, so collisions are included.
- The image search `find_vector_image`, the legacy, contact and section parsers, dates and durations: lookups that would only add easy members.
- `Url::parse`, vanity validation and the obfuscated-identifier test: library character classes.
- Diagnostics, cache statistics, ages in seconds and completeness: rounding for display only.
