# vLogBin: a Dafny model of the billing control plane

vLogBin is a multi-tenant billing control plane. This project models its small protocols and
calculators and proves what they keep, on all inputs and over all runs:

- **Admission control**: the fixed-window rate limiter, its Redis twin, and the circuit breaker. The
  lock-free Go code is modelled atomic step by atomic step for any number of threads
  (`LimiterInterleavings`, `BreakerInterleavings`), and call by call as classes
  (`RateLimiter`, `CircuitBreaker`).
- **Idempotency keys**: lookup, claim, execute, settle, by any number of requests over one record, with
  database errors, crashes and purges, and which answer each request gets (`Idempotency`), and the recorder
  that makes replays verbatim (`ResponseRecording`).
- **Catalogue versions**: content rules (`CatalogContent`, `TierValidation`), the tables with their
  constraints and what no change may touch (`CatalogStore`), reading a version back (`CatalogReading`)
  in any order of listing (`CatalogOrders`), deep clone (`CatalogCloning`), writing drafts
  (`CatalogEditing`, `CatalogReplacing`, `CatalogDrafts`, `CatalogPlans`), entitlements (`Entitlements`),
  and the service operations with subscriptions (`CatalogService`); and transactions that overlap
  (`CatalogRaces`).
- **Metered pricing**: the tiered, volume and stair-step calculators in wrapping 64-bit arithmetic
  (`MeteredBilling`).
- **Outbox relay**: exact backoff despite the shift overflow (`Backoff`), one relay behind the circuit
  breaker (`OutboxRelay`), and several relays sharing a row through leases (`RelayLeases`).
- **Key rotation**: encryption with previous keys and the re-encryption sweep (`KeyRotation`).
- **Quota ledger**: reserve, commit, release, expire (`QuotaLedger`), and reservations that overlap under
  READ COMMITTED (`QuotaInterleavings`).

Shared datatypes and 64-bit wrap-around are in `Prelude`. `dafny verify dfyconfig.toml` checks everything.

## How to read it

Code that updates state is a class or a method with a loop, proved against a specification function or a
relation between old and new state; concurrent code is a state machine (`Enabled`, `Next`, `IsRun`) whose
lemmas speak about every run. Queries return rows in any order (`CatalogReading.Query`), because the SQL
orders by code, key or random id, never by insertion. A version's id is its position in the list of
versions, row ids come from one counter. Clocks, random nonces, the adapter's answers, tenant customers
and provider state are parameters.

What a specification function computes is also said without it: contracts state the fields, rows and sums
that an operation leaves (`OutboxRelay.ProcessedFields`, `QuotaLedger.Ledger.ReserveQuota`,
`MeteredBilling.TieredUnit`), and the atomic steps of the limiter and the breaker are tied to the operations
used one call at a time (`AloneIsTouch`, `AllowAlone`, `SuccessAlone`, `FailureAlone`).

`CatalogStore.Invariant` and `CatalogStore.Evolves` are what every service operation in
`CatalogService.Service` ensures, on success and on failure, and `Service.Serve` after any sequence of
them; the lemmas `PinnedForever`, `EveryVersionValid` and `EntitlementsPinned` turn that into statements
about whole runs.

## Where the code does not do what it or its documentation says

Each of these is a lemma or a contract with the exact condition.

- The limiter admits more than its limit per window: a caller may count between another's swap and its
  reset, and then limit * (k + 2) requests pass in k windows, for every limit, window and k
  (`LimiterInterleavings.BoundIsReached`). All runs respect the limit of each window if and only if callers
  come one at a time, or the limit is zero (`RespectedIff`); a run in which nobody counts during a reset
  respects it with any number of callers (`WindowsRespected`).
- The Redis and the in-memory limiter agree exactly on windows that are positive whole seconds
  (`RateLimiter.AgreeIffWholeSecond`); Redis rounds others.
- A breaker can wedge for good, even among callers who ask before they report. A failed probe gives its
  slot back before it moves the state; another call takes the slot in between, and reports once the
  breaker is open, when no report gives a slot back. When all slots are leaked every later call is denied
  (`BreakerInterleavings.WedgeReachable`, `WedgedForever`). The exact conditions: for the next call, the
  slots leaked so far (`ProbeAdmittedIff`); for all runs, that at most one caller uses the breaker at a
  time, whatever its options (`NeverWedgesIff`). No run leaks a slot in which nobody takes the breaker out
  of half_open while another call is being probed (`UndisturbedNeverWedges`).
- An idempotency key is blocked until the purge (`Idempotency.OrphanBlocksKey`) exactly if the record's
  owner crashed, or its delete or complete failed, or the insert reported an error although it was
  committed (`OrphanedIffAbandoned`); otherwise it is settled (`OwnedKeySettles`).
- A replay is documented to be verbatim. The content type is stored as the header stands when the handler
  returns, so the replay is verbatim if and only if the last content type the handler puts is the last it
  puts before its first write (`ResponseRecording.VerbatimIff`, `ServeThenReplay`; `SetTooLate` is a
  handler for which it is not).
- A tiered rule without tiers ignores its minimum spend: a bill meets it if and only if the rule has tiers
  or base price times quantity does (`MeteredBilling.CalculateTieredCost`).
- A content replacement can pass validation and still fail on a foreign key: a fixed price may name a
  metric that does not exist (`CatalogReplacing.ReplaceContent` says exactly when).
- Content of a published version is documented to be immutable. The draft trigger and the transition read
  the state without locking it, and the state update does not look at the state it replaces, so a
  replacement begun on a draft can commit after publication, one can slip in between a validation's check
  and its commit, and two overlapping validations can take a published version back
  (`CatalogRaces.PublishedIncomplete`, `StaleValidation`, `StateMovesBack`). Which runs are sound is
  `RunSafeIff`; which locks and guards make all runs sound are `AlwaysLegalIff` and `AlwaysKeptIff`: a
  guard in the update, or a lock in the check, for the lifecycle; locks in the check and in the trigger
  for the content.
- The schema calls dead_letter a true terminal state, but the marks test neither lease nor status, so a
  delivery that outlives its lease can reopen a settled event, which is then delivered again
  (`RelayLeases.LateMarkReopens`). Settled rows stay settled if and only if every mark comes within less
  than the lease (`SettledStaysIff`).
- The re-encryption sweep is documented to cover every row. It lists the first batch by id on every pass,
  so rows past it are never reached (`KeyRotation.NeverReached`, `ConvergedIff`), and it does not end when
  no row of a full first batch can be opened (`KeyRotation.SweepTable`).
- The quota migration claims that concurrent overspend is prevented. Under the default READ COMMITTED
  isolation n overlapping reservations can exceed the limit by (n - 1) times the largest amount, and no
  more (`QuotaInterleavings.OverspendBound`, `OverspendReached`); no run exceeds it if and only if
  reservations come one at a time (`NeverOverspendsIff`). The period of a limit has no effect on what
  counts against it.

## Model

| member | source | states |
|---|---|---|
| LimiterInterleavings.AdmissionBound | apps/api/internal/ratelimit/limiter.go:67-93 | in every interleaving of any number of threads on one bucket, a run from clock T0 to T admits at most limit * ((T - T0) / window + 2) requests |
| LimiterInterleavings.RunKeepsInvariant | apps/api/internal/ratelimit/limiter.go:67-93 | every run keeps: swaps won are resets done plus threads about to reset, windows are spaced by their length, admissions are at most limit per reset plus one window |
| LimiterInterleavings.LimitBetweenStores | apps/api/internal/ratelimit/limiter.go:79-87 | between consecutive resets of the counter at most limit requests are admitted |
| LimiterInterleavings.StepKeepsWindowsSpaced | apps/api/internal/ratelimit/limiter.go:75-82 | each winning swap moves windowEnd forward by at least the window |
| LimiterInterleavings.BoundIsReached | apps/api/internal/ratelimit/limiter.go:79-87 | the bound is met with equality, for every limit, every window and every number k of windows: two threads on a fresh bucket, in a run of k windows, are admitted limit * (k + 2) times |
| LimiterInterleavings.WindowsRespected | apps/api/internal/ratelimit/limiter.go:78-87 | every run from a fresh bucket in which no request is counted while another is between its swap and its reset admits at most limit requests per window begun, and at most limit * ((T - T0) / window + 1) |
| LimiterInterleavings.RespectedIff | apps/api/internal/ratelimit/limiter.go:67-93 | all runs from a fresh bucket with at most n callers inside at a time admit at most limit * ((T - T0) / window + 1) if and only if n is at most 1 or the limit is 0 |
| LimiterInterleavings.AdmittedIff | apps/api/internal/ratelimit/limiter.go:78-92 | in every interleaving a request is admitted exactly if at most limit requests, itself included, were counted since the last reset of the counter when it is counted |
| LimiterInterleavings.WaitFree | apps/api/internal/ratelimit/limiter.go:67-93 | each operation brings its own request nearer to its end whatever the others do, moves no other, and counts the request once |
| LimiterInterleavings.AloneIsTouch | apps/api/internal/ratelimit/limiter.go:67-93 | a request that meets no other leaves the bucket, and is decided, as in the limiter used one request at a time |
| RateLimiter.Limiter.AllowRetryAfter | apps/api/internal/ratelimit/limiter.go:67-93 | one request admits exactly the first limit requests of a window, names the time left otherwise (at least a millisecond), and changes only that key's bucket |
| RateLimiter.Limiter.CleanUp | apps/api/internal/ratelimit/limiter.go:107-114 | one clean-up tick removes exactly the buckets that ended more than a minute ago |
| RateLimiter.SweepsChangeNothing | apps/api/internal/ratelimit/limiter.go:67-118 | whatever clean-ups run in between, every sequential trace gets the decisions it would get without them |
| RateLimiter.BackendsAgree | apps/api/internal/ratelimit/redis.go:17-27 | on whole-second windows the Redis script and the in-memory limiter decide every sequential trace alike |
| RateLimiter.AgreeIffWholeSecond | apps/api/internal/ratelimit/redis.go:101-130 | for every window, zero and negative ones included, the two backends agree on all traces that use it if and only if it is a positive whole number of seconds |
| RateLimiter.RedisIsRounded | apps/api/internal/ratelimit/redis.go:17-27 | for every window, the Redis script decides every trace as the in-memory limiter decides it with windows rounded down to whole seconds, and to one second if shorter |
| CircuitBreaker.Breaker.Allow | apps/api/internal/circuitbreaker/breaker.go:129-173 | closed lets every call through and changes nothing; open denies before the cool-down is over; then, and in half_open, a call gets through exactly if a slot is free, and takes it; each change is reported once, the retry loop included |
| CircuitBreaker.Breaker.OnSuccess | apps/api/internal/circuitbreaker/breaker.go:178-196 | closes the breaker and clears the count unless it is open, and gives a slot back exactly in half_open; reports the change once |
| CircuitBreaker.Breaker.OnFailure | apps/api/internal/circuitbreaker/breaker.go:201-224 | counts when closed, opens at the threshold and from half_open, giving a slot back there, and sets the time exactly when it opens; does nothing when open |
| CircuitBreaker.RefinesHistory | apps/api/internal/circuitbreaker/breaker.go:129-224 | one call at a time, the four fields always represent the streak of failures and the time of the last admitted call, and no probe slot is left taken |
| CircuitBreaker.AdmittedIff | apps/api/internal/circuitbreaker/breaker.go:129-173 | a call is let through exactly if the streak is below the threshold or the cool-down is over |
| CircuitBreaker.TripsAtThreshold | apps/api/internal/circuitbreaker/breaker.go:201-224 | it opens at exactly the threshold-th consecutive failure |
| BreakerInterleavings.RunKeepsSlots | apps/api/internal/circuitbreaker/breaker.go:129-224 | every interleaving accounts for each probe slot: taken, outstanding, leaked or given back by a call that was no probe |
| BreakerInterleavings.ProbesBounded | apps/api/internal/circuitbreaker/breaker.go:161-219 | halfInFlight never exceeds HalfOpenMax, and outstanding probes exceed it by at most the releases made by calls admitted while closed |
| BreakerInterleavings.EveryChangeReportedOnce | apps/api/internal/circuitbreaker/breaker.go:129-237 | the state moves only closed to open to half-open to closed or open, and each change is reported exactly once, by the thread that made it |
| BreakerInterleavings.ProbeAdmittedIff | apps/api/internal/circuitbreaker/breaker.go:129-173 | in every run: when the breaker is half-open, or open with the cool-down over, and no other thread can still take or free a slot, the next call to ask gets through if and only if fewer slots leaked than HalfOpenMax plus the stray releases; else it leaves the breaker wedged |
| BreakerInterleavings.WedgedForever | apps/api/internal/circuitbreaker/breaker.go:129-173 | a wedged breaker denies every later call in every run of callers that ask before they report |
| BreakerInterleavings.SlotsLeak | apps/api/internal/circuitbreaker/breaker.go:178-219 | whatever the options, two callers that always ask can leak any number of slots up to HalfOpenMax, one per cool-down: both sides of ProbeAdmittedIff are met |
| BreakerInterleavings.WedgeReachable | apps/api/internal/circuitbreaker/breaker.go:213-219 | whatever the options, a run of two callers that always ask wedges the breaker |
| BreakerInterleavings.UndisturbedNeverWedges | apps/api/internal/circuitbreaker/breaker.go:161-219 | a run in which no thread takes the breaker out of half_open while another call looks for a slot or is a probe yet to report leaks no slot and never wedges |
| BreakerInterleavings.NeverWedgesIff | apps/api/internal/circuitbreaker/breaker.go:129-224 | whatever the options, no run with at most n callers at a time wedges the breaker if and only if n is at most 1 |
| BreakerInterleavings.LeavesIff | apps/api/internal/circuitbreaker/breaker.go:129-224 | exactly when an operation lets its call start, and when it is the last one of an Allow or a report |
| BreakerInterleavings.LostSwapRetries | apps/api/internal/circuitbreaker/breaker.go:143-196 | a compare-and-swap that is lost in Allow or OnSuccess changes nothing and its thread looks again |
| BreakerInterleavings.AllowAlone | apps/api/internal/circuitbreaker/breaker.go:129-173 | an Allow that meets no other call does, operation by operation, what Breaker.Allow does |
| BreakerInterleavings.SuccessAlone | apps/api/internal/circuitbreaker/breaker.go:178-196 | a report of success that meets no other call does what Breaker.OnSuccess does |
| BreakerInterleavings.FailureAlone | apps/api/internal/circuitbreaker/breaker.go:201-224 | a report of failure that meets no other call does what Breaker.OnFailure does |
| ResponseRecording.Recorder.WriteHeader | apps/api/internal/httpapi/idempotency.go:251-257 | the recorder keeps the first status and passes it on, mirroring what the client sees |
| ResponseRecording.Recorder.Write | apps/api/internal/httpapi/idempotency.go:259-266 | the recorder keeps every byte it passes on, with status 200 if none was set |
| ResponseRecording.Replay | apps/api/internal/httpapi/idempotency.go:159-170 | a replay of stored columns shows a new client the response those columns hold |
| ResponseRecording.ServeThenReplay | apps/api/internal/httpapi/idempotency.go:138-170 | whatever a handler sends through the recorder, its first client sees; a cached response then replayed has the same status and bytes, the content type the header ended up with, and is what the first client saw if and only if the handler's last content type is the last it put before writing |
| ResponseRecording.VerbatimIff | apps/api/internal/httpapi/idempotency.go:138-151 | for every handler with a cached response: the replay is the first response, content type included, if and only if the last content type it puts is the last one it puts before its first write |
| ResponseRecording.VerbatimIfSettled | apps/api/internal/httpapi/idempotency.go:144-151 | a handler that changes the content type only before it writes gets verbatim replays |
| ResponseRecording.FirstWriteDecides | apps/api/internal/httpapi/idempotency.go:251-266 | the status of a response is that of its first write, and 200 if that is a write of the body, whatever comes later |
| ResponseRecording.BodyIsSent | apps/api/internal/httpapi/idempotency.go:259-266 | the body of a response is all the bytes written, in order |
| Idempotency.RunKeepsInvariant | apps/api/internal/httpapi/idempotency.go:97-154 | every run of requests, errors, crashes and purges keeps: each executor owns one record id, rows completed carry their owner's response |
| Idempotency.AnsweredIff | apps/api/internal/httpapi/idempotency.go:97-137 | in every run a request has an answer exactly if a step gave it: replayed with r by a first lookup, or the second after a lost claim, that finds r completed; a conflict by a first lookup that finds a record in progress, or a second one that fails or finds none completed; handled with x when its handler ends with x |
| Idempotency.HandlerStartsIff | apps/api/internal/httpapi/idempotency.go:97-125 | the handler of a request starts exactly if its lookup or its claim fails, or it claims a free key |
| Idempotency.SettledIsReplayed | apps/api/internal/httpapi/idempotency.go:97-170 | in every run, once an execution that claimed the key ended below 500 with x and its record was completed, each lookup of each request is answered with x until the purge; after any other status the settlement frees the key |
| Idempotency.AtMostOneExecution | apps/api/internal/httpapi/idempotency.go:97-154 | without a purge at most one claimed execution is in progress, at most one ever ends below 500, and every replay is that execution's response |
| Idempotency.ExecutionsBoundedByPurges | apps/api/internal/httpapi/idempotency.go:118-154 | in every run executions in progress and successful executions number at most one more than the purges |
| Idempotency.ReplaysAreReal | apps/api/internal/httpapi/idempotency.go:104-110 | even with purges, a completed row holds the response of the execution that owns it, and every replay is some claimed execution's exact response |
| Idempotency.SettlementSparesNewerRow | apps/api/db/queries/idempotency.sql:11-17 | completing or deleting by id never touches a record a newer request has claimed |
| Idempotency.OrphanedIff | apps/api/internal/httpapi/idempotency.go:112-154 | a step orphans a record exactly if its owner crashes, its delete or complete fails, or the insert that made it reports an error after all; an orphan ends in the purge alone |
| Idempotency.OrphanedIffAbandoned | apps/api/internal/httpapi/idempotency.go:112-154 | in every run a key is blocked by an orphan exactly if an earlier step abandoned, in one of these three ways, the record that has been in the table since |
| Idempotency.OwnedKeySettles | apps/api/internal/httpapi/idempotency.go:118-154 | in every run without such a step, once the record's owner has made its own steps the record has been completed, to be replayed, or removed, so that the key is free |
| Idempotency.OrphanBlocksKey | apps/api/internal/httpapi/idempotency.go:104-135 | until it is purged such a record blocks its key: no later request executes or is replayed |
| Idempotency.PurgesAllowMore | apps/api/db/queries/idempotency.sql:19-20 | for every k a run with k purges and k + 1 successful executions, each with any response of its own: the bound is reached |
| MeteredBilling.CalculateTieredCost | apps/api/internal/service/metered_billing.go:184-219 | with tiers, the sum over units of each unit's tier price, read from the longest rising prefix of bounded tiers, or the minimum spend if more, whenever prices times quantity fit 64 bits; without tiers the wrapped base price times quantity; the minimum spend is met, in every arithmetic, if and only if there are tiers or that product meets it |
| MeteredBilling.TieredUnit | apps/api/internal/service/metered_billing.go:184-219 | while the limits of the bounded tiers rise, the u-th unit costs what the first of them to reach it states, or the base price |
| MeteredBilling.TieredBeyond | apps/api/internal/service/metered_billing.go:184-219 | units that no bounded tier reaches cost nothing |
| MeteredBilling.TieredCutOff | apps/api/internal/service/metered_billing.go:184-219 | a bounded tier whose limit does not rise has no effect, nor have the tiers after it |
| MeteredBilling.CalculateVolumeCost | apps/api/internal/service/metered_billing.go:162-181 | wrapped to 64 bits, the quantity at the price that the first bounded tier to reach it states, or else the nearest earlier tier that states one, or else the base price; if no tier reaches it, the last price stated anywhere |
| MeteredBilling.CalculateStairStepCost | apps/api/internal/service/metered_billing.go:222-241 | the fee that the first bounded tier to reach the quantity states, or else the nearest earlier tier that states one, or else the base price; if no tier reaches it, the last fee stated anywhere |
| MeteredBilling.CalculateMeteredCost | apps/api/internal/service/metered_billing.go:135-159 | dispatch on the model; a missing or disabled rule costs nothing; a tiered rule keeps what CalculateTieredCost promises |
| MeteredBilling.TieredMonotone | apps/api/internal/service/metered_billing.go:184-219 | unless a rung has a negative price the tiered bill never falls with the quantity, for unsorted, unbounded and unpriced tiers too |
| MeteredBilling.TieredSubadditive | apps/api/internal/service/metered_billing.go:184-219 | one bill for a + b units never exceeds separate bills for a and b, minimum spend included |
| MeteredBilling.VolumePriceIsLastUnits | apps/api/internal/service/metered_billing.go:162-181 | under degressive tiers volume pricing charges every unit the price the last unit has in tiered pricing |
| MeteredBilling.VolumeAtMostTiered | apps/api/internal/service/metered_billing.go:162-219 | for every quantity the tiers cover, volume cost is at most the tiered total |
| MeteredBilling.StairStepMonotone | apps/api/internal/service/metered_billing.go:222-241 | stair-step cost never falls when the fees do not |
| TierValidation.ValidateTiers | apps/api/internal/domain/catalog.go:316-345 | accepts a tier list exactly if its half-open ranges partition the natural numbers in order |
| TierValidation.ValidIffPartition | apps/api/internal/domain/catalog.go:316-345 | the tier rules hold if and only if every natural number is in exactly one range, and the ranges are listed in order |
| CatalogContent.TransitionCatalog | apps/api/internal/domain/catalog.go:75-91 | the legal transitions are exactly the single steps draft, validated, published, retired |
| CatalogContent.ValidatePrice | apps/api/internal/domain/catalog.go:272-312 | accepts exactly the prices that satisfy the rules of their charge model |
| CatalogContent.ValidateEntitlements | apps/api/internal/domain/catalog.go:242-270 | accepts exactly lists of well-formed entitlements with distinct keys |
| CatalogContent.ValidateCatalog | apps/api/internal/domain/catalog.go:202-254 | the map-filling loops accept exactly the catalogues whose metrics and plans are each in order, with distinct codes, and complete when asked |
| CatalogContent.EvaluateEntitlements | apps/api/internal/domain/catalog.go:375-396 | the resulting map holds, for every key, the last override in force, else the last grant, else nothing |
| CatalogContent.OverrideWins | apps/api/internal/domain/catalog.go:375-396 | a key is evaluated from an override exactly if one is in force, and from the plan exactly if none is and the plan grants it |
| CatalogContent.LastOverride | apps/api/internal/domain/catalog.go:375-396 | the last override for a key that has not expired decides, and it is in force up to, not at, its expiry |
| CatalogContent.LastGrant | apps/api/internal/domain/catalog.go:375-396 | with every override for the key expired, the last grant for it decides |
| CatalogContent.OnlyExpiryChanges | apps/api/internal/domain/catalog.go:383-395 | the clock changes an evaluation only by letting an override for that key expire |
| CatalogStore.DraftChangeKeeps | apps/api/db/migrations/0004_billing_core.sql:275-310 | a change of drafts that respects the row rules and unique keys keeps the store invariant and every other version's rows |
| CatalogStore.InsertGrantKeeps | apps/api/db/queries/billing.sql:108-111 | inserting a grant the constraints and the draft trigger accept keeps the store invariant and changes no version that is not a draft |
| CatalogStore.DeletePlansKeeps | apps/api/db/queries/billing.sql:59-60 | deleting unreferenced plans of drafts keeps the store invariant and every version that is not a draft |
| CatalogStore.PinnedRowsStay | apps/api/internal/service/subscriptions.go:15-17 | while the catalogue evolves, a subscription's plan row, its prices and its grants stay the very same rows |
| CatalogStore.PinnedForever | apps/api/internal/service/subscriptions.go:15-61 | over every run of the service, what a subscription was pinned to never changes |
| CatalogStore.PricesChargeable | apps/api/internal/domain/catalog.go:272-312 | in every reachable store a fixed price is a non-negative amount in its plan's currency, a per-unit price a non-negative amount on a stored metric, a tiered price a partition of the quantities on a stored metric |
| CatalogReading.StoredContent | apps/api/internal/service/catalog.go:305-352 | the loops over the four query results rebuild a content the rows read back as |
| CatalogReading.StoredContentOk | apps/api/internal/service/catalog.go:356-367 | whole-catalogue validation splits into per-row rules: stored content always passes the structural rules, and the publish rules exactly if the version is complete, however its rows are listed |
| CatalogReading.EveryVersionValid | apps/api/internal/service/catalog.go:200-234 | in every reachable store each version's content passes structural validation, and each version ever validated passes the publish rules |
| CatalogOrders.ReadingsAgree | apps/api/internal/service/catalog.go:305-352 | two readings of the same rows differ in order only: the same metrics, and plan by plan, matched by code, the same prices and entitlements |
| CatalogReading.CopyReadsAlike | apps/api/internal/service/catalog.go:89-130 | listed correspondingly, a copy with remapped ids reads back as the original does |
| CatalogReading.CopySameContent | apps/api/internal/service/catalog.go:67-132 | a copy reads back as exactly the contents its original reads back as |
| CatalogCloning.CloneMetrics | apps/api/internal/service/catalog.go:89-99 | the loop copies each listed metric once, under a new id, and fills the id map |
| CatalogCloning.ClonePlans | apps/api/internal/service/catalog.go:100-110 | the loop copies each listed plan once, under a new id, and fills the id map |
| CatalogCloning.ClonePrices | apps/api/internal/service/catalog.go:111-122 | the loop copies each listed price once, redirected to the new plan and the new metric |
| CatalogCloning.CloneGrants | apps/api/internal/service/catalog.go:123-130 | the loop copies each listed grant once, redirected to the new plan; no copy violates the key constraint |
| CatalogCloning.CloneContent | apps/api/internal/service/catalog.go:67-132 | a deep clone consists of new rows only, reads back as exactly the contents of the original, and changes nothing else |
| CatalogEditing.InsertPrices | apps/api/internal/service/catalog.go:275-290 | the price loop succeeds exactly if every metric code given resolves, and then the plan's prices read back as given, in order |
| CatalogEditing.InsertGrants | apps/api/internal/service/catalog.go:291-298 | the grant loop stores entitlements that read back as given, in order, without violating the key constraint |
| CatalogEditing.InsertChildren | apps/api/internal/service/catalog_plans.go:330-361 | a plan's children are stored exactly if every metric code resolves; the plan then reads back as given and other plans keep theirs |
| CatalogEditing.DeleteChildren | apps/api/internal/service/catalog_plans.go:324-329 | removes exactly the prices and grants of the plan |
| CatalogReplacing.VersionReadsAs | apps/api/internal/service/catalog.go:322-351 | if the metrics and each plan read back as they should, so does the whole version |
| CatalogReplacing.DeleteContent | apps/api/internal/service/catalog.go:237-249 | the four deletions leave the draft without rows and every other version as it was |
| CatalogReplacing.InsertMetrics | apps/api/internal/service/catalog.go:250-266 | the metric loop stores metrics that read back as given, billable by default, and indexes their codes |
| CatalogReplacing.InsertWholePlan | apps/api/internal/service/catalog_plans.go:306-319 | a plan with its children is added exactly if its metric codes resolve; nothing else changes |
| CatalogReplacing.InsertPlans | apps/api/internal/service/catalog.go:267-299 | the plan loop succeeds exactly if every metric code resolves, and then every plan reads back as given |
| CatalogReplacing.ReplaceContent | apps/api/internal/service/catalog.go:236-301 | the round trip: a replacement succeeds exactly if every metric code resolves, and then whatever the queries list reads back as the content given, up to order and the billable default |
| CatalogDrafts.CreateDraft | apps/api/internal/service/catalog_plans.go:261-282 | a new draft with the next number, empty or a clone in new rows, and no other change |
| CatalogDrafts.EnsureDraft | apps/api/internal/service/catalog_plans.go:235-259 | the latest draft if there is one, else a clone of the latest published version, else an empty draft |
| CatalogDrafts.DraftComesFrom | apps/api/internal/service/catalog_plans.go:239-260 | the draft to edit is the last draft, unchanged; if there is none, a new one that reads as the last published version does, or an empty one if none is published |
| CatalogDrafts.DraftCodes | apps/api/internal/service/catalog_plans.go:239-259 | the draft to edit has the metric and plan codes of the version it starts from |
| CatalogPlans.ValidatePlanStructure | apps/api/internal/service/catalog_plans.go:284-304 | validating the plan against the stored metrics asks exactly the plan's own rules |
| CatalogPlans.IndexMetrics | apps/api/internal/service/catalog_plans.go:330-337 | the map finds exactly the metrics of the version by code |
| CatalogPlans.RewritePlan | apps/api/internal/service/catalog_plans.go:127-129 | rewriting the row before its old prices are deleted ends in a store in order, with no other plan touched |
| CatalogPlans.RemovePlan | apps/api/internal/service/catalog_plans.go:179-189 | removes the plan with its prices and grants and nothing else |
| CatalogPlans.UpsertGrant | apps/api/db/queries/billing.sql:125-129 | afterwards the plan grants the key as given; all other grants are as before |
| CatalogPlans.DeleteGrantByKey | apps/api/db/queries/billing.sql:131-132 | removes the plan's grant for the key, and tells whether there was one |
| Entitlements.Evaluate | apps/api/internal/service/entitlements.go:176-185 | the snapshot's map is what the rows entitle to, for every key, in whatever order queries list them |
| Entitlements.EffectiveIsEntitled | apps/api/internal/domain/catalog.go:375-396 | list-based evaluation equals the order-free definition on the rows |
| Entitlements.EntitlementsPinned | apps/api/internal/service/entitlements.go:158-185 | over every run, what a subscription is entitled to changes only through its own override in force for the key |
| CatalogService.GateAsksForCompleteness | apps/api/internal/service/catalog.go:356-367 | the publish gate asks exactly that the version has a plan and every plan a price |
| CatalogService.Service.CreateCatalogVersion | apps/api/internal/service/catalog.go:28-65 | exactly if the source version exists, a new draft, empty or a clone |
| CatalogService.Service.ReplaceCatalogContent | apps/api/internal/service/catalog.go:202-234 | succeeds exactly on valid content with resolving codes for a draft, then reads back as given in whatever order the rows are listed; otherwise changes nothing and names the error |
| CatalogService.Service.ValidateCatalogVersion | apps/api/internal/service/catalog.go:356-367 | moves exactly complete drafts to validated |
| CatalogService.Service.PublishCatalogVersion | apps/api/internal/service/catalog.go:374-386 | moves exactly validated versions to published, if the provider may publish |
| CatalogService.Service.RetireCatalogVersion | apps/api/internal/service/catalog.go:388-391 | moves exactly published versions to retired |
| CatalogService.Service.CreatePlan | apps/api/internal/service/catalog_plans.go:50-98 | succeeds exactly if the code is free and the plan is acceptable to the version the draft starts from; the draft then has this plan and nothing else new |
| CatalogService.Service.UpdatePlan | apps/api/internal/service/catalog_plans.go:104-158 | keeps the plan's id and code, replaces its row and children, touches no other plan; exact success condition |
| CatalogService.Service.DeletePlan | apps/api/internal/service/catalog_plans.go:164-200 | removes the plan from the draft only; fails exactly if there is no such plan |
| CatalogService.Service.SetPlanEntitlement | apps/api/internal/service/catalog_policies.go:46-96 | sets one grant on the draft; exact success condition |
| CatalogService.Service.DeletePlanEntitlement | apps/api/internal/service/catalog_policies.go:103-139 | removes one grant from the draft; succeeds exactly if it was there |
| CatalogService.Service.CreateSubscription | apps/api/internal/service/subscriptions.go:18-80 | adds one row, active, with the given external id and customer, that pins a published version and the plan of it with the given code, exactly under the checks of the source; nothing else changes |
| CatalogService.Service.TerminateSubscription | apps/api/internal/service/subscriptions.go:96-127 | succeeds exactly on active subscriptions; only the active flag of that row changes, and it is no longer one of its customer's active subscriptions; otherwise not found or a conflict |
| CatalogService.TerminatedForGood | apps/api/internal/service/subscriptions.go:96-127 | in every later state of a run a terminated subscription is the same row, so terminating it again is a conflict |
| CatalogService.Service.UpsertEntitlementOverride | apps/api/internal/service/entitlements.go:41-100 | sets one override of one subscription |
| CatalogService.Service.DeleteEntitlementOverride | apps/api/internal/service/entitlements.go:119-152 | removes one override of one subscription; fails exactly if there was none |
| CatalogService.Service.Serve | apps/api/internal/service/subscriptions.go:15-17 | any sequence of the operations above is a run of the service: the invariant holds after each, and each only lets the store evolve, which is what the statements over runs ask for |
| CatalogService.Service.GetEntitlementSnapshot | apps/api/internal/service/entitlements.go:158-231 | for the customer's latest active subscription, exactly what it is entitled to |
| CatalogRaces.RunSafeIff | apps/api/internal/service/catalog.go:393-413 | a run keeps lifecycle and completeness exactly if each committing transition finds the state it checked and complete rows, and each committing edit finds a draft or leaves the rows complete |
| CatalogRaces.EditLands | apps/api/internal/service/catalog.go:237-301 | the commit of an edit leaves exactly the rows it wrote and the rows it did not remove |
| CatalogRaces.AlwaysLegalIff | apps/api/db/queries/billing.sql:24-31 | in all runs transitions move the state one legal step if and only if the update names the checked state or the check locks the row; the code does neither |
| CatalogRaces.AlwaysKeptIff | apps/api/db/migrations/0004_billing_core.sql:275-294 | in all runs versions past draft stay complete if and only if both the draft trigger and the check lock the state they read, whether or not the update is guarded; the code locks in neither |
| CatalogRaces.StateMovesBack | apps/api/db/queries/billing.sql:24-31 | from any complete rows, a run of two overlapping validations that takes a published version back to validated |
| CatalogRaces.PublishedIncomplete | apps/api/internal/service/catalog.go:202-234 | from any complete rows, and for any edit that leaves them incomplete, a run in which a content replacement started on a draft commits after publication |
| CatalogRaces.StaleValidation | apps/api/internal/service/catalog.go:393-413 | from any complete rows, and for any edit that leaves them incomplete, a run in which a replacement begins and commits between a validation's check and its commit |
| Backoff.ExactBackoff | apps/api/internal/outbox/relay.go:321-329 | for every attempt count the delay is exactly min(2 s * 2^(attempts - 1), 5 min), however often the 64-bit shift wraps |
| Backoff.WrappedIsCoarse | apps/api/internal/outbox/relay.go:324-325 | from 33 doublings on the wrapped shift is a multiple of 2^43, so it is never positive below the cap |
| Backoff.DelaysRise | apps/api/internal/outbox/relay.go:321-329 | delays never shrink with attempts and stay between base and cap |
| OutboxRelay.Relay.Claim | apps/api/db/queries/outbox.sql:50-69 | leases the oldest due events, up to a batch, and changes nothing else; a row put off is leased only once its time has come, and then unless the batch is full; a lease lasts 120 s |
| OutboxRelay.Relay.DeliverUsage | apps/api/internal/outbox/relay.go:217-262 | the adapter is called exactly if the payload decodes and the breaker lets the delivery through; the row is marked as its outcome demands and field by field as ProcessedFields says, the doubling delay included |
| OutboxRelay.Relay.ProcessEvent | apps/api/internal/outbox/relay.go:183-213 | each processing comes to exactly one outcome, keeps the tally consistent, and touches only that event, whose row gets the fields ProcessedFields says; an accepted or refused outcome is what the adapter answered |
| OutboxRelay.Relay.Drain | apps/api/internal/outbox/relay.go:147-165 | one poll processes the claimed events once each: the k-th comes to an outcome its payload and the k-th call allow, its row is what processing makes of the row before the lease, and exactly the usage events that decode ask the breaker, in order; all others are left alone |
| OutboxRelay.ProcessingKeepsConsistent | apps/api/internal/outbox/relay.go:217-286 | processing keeps row and history of tries consistent and adds exactly one try |
| OutboxRelay.ProcessedFields | apps/api/internal/outbox/relay.go:217-286 | after processing a row is published, or dead-lettered, or due again at the mark plus min(2 s * 2^(attempts before), 5 min); it is dead-lettered exactly if undecodable or at its last allowed failure |
| OutboxRelay.WithinLimit | apps/api/internal/outbox/relay.go:264-286 | an event is terminal within the limit of tries; published exactly if accepted; dead-lettered exactly if undecodable or failed the full limit of times |
| OutboxRelay.Fate | apps/api/internal/outbox/relay.go:217-286 | the position of the first accepted try alone decides whether and when a usage event is published or dead-lettered |
| RelayLeases.StepKeepsSafe | apps/api/db/queries/outbox.sql:50-91 | any step of any relay that marks within its lease keeps: one live lease at most, and the row as its holder read it; a mark writes what processing the row in the table comes to |
| RelayLeases.TerminalForever | apps/api/internal/outbox/relay.go:138-146 | with any number of relays and crashes, if marks are made within their leases, a settled row stays as it is and is marked at most the limit of times |
| RelayLeases.LateMarkReopens | apps/api/db/queries/outbox.sql:70-91 | for every delay from the lease on, a run in which a late retry mark reopens a published event and the adapter accepts it a second time |
| RelayLeases.SettledStaysIff | apps/api/db/queries/outbox.sql:50-91 | settled rows stay settled in all runs whose marks come within a given delay of their claim if and only if that delay is less than the lease |
| KeyRotation.NewEncryptorWithPrevious | apps/api/internal/crypto/crypto.go:45-59 | configured exactly if every key is well-formed, with the keys in order |
| KeyRotation.Encryptor.DecryptWith | apps/api/internal/crypto/crypto.go:116-143 | opens exactly what some configured key sealed, and notifies the observer exactly when only a previous key did |
| KeyRotation.Encryptor.NeedsReencryption | apps/api/internal/crypto/crypto.go:152-174 | fails exactly if no key opens the text, else tells whether the active key does not |
| KeyRotation.ReencryptField | apps/api/internal/service/reencrypt.go:84-100 | re-seals exactly the texts of previous keys, to the same plaintext, without notifying the observer |
| KeyRotation.ReencryptRow | apps/api/internal/service/reencrypt.go:108-126 | a row is re-sealed exactly if all its fields can be read, and changes exactly if one of them was legacy |
| KeyRotation.SweepBatch | apps/api/internal/service/reencrypt.go:102-136 | one transaction re-seals under the active key, to the same plaintexts, the rows of the first batch that open, leaves all others, and counts the rows changed and the rows of the batch that do not open |
| KeyRotation.SweepPreservesPlaintexts | apps/api/internal/service/reencrypt.go:29-39 | every field still decrypts to the same plaintext, and readable rows of the batch need the active key alone |
| KeyRotation.SweepTable | apps/api/internal/service/reencrypt.go:57-76 | the loop ends, after at most two passes, exactly unless no row of a full first batch can be read |
| KeyRotation.ConvergedIff | apps/api/internal/service/reencrypt.go:32-34 | after a sweep the previous keys can be dropped exactly if they were not needed past the first batch |
| KeyRotation.NeverReached | apps/api/db/queries/psp.sql:29-35 | no number of sweeps rewrites a row past the first batch |
| KeyRotation.Credentials.ReencryptLegacyCiphertexts | apps/api/internal/service/reencrypt.go:40-78 | sweeps the three tables in turn; ends exactly if none is stuck, and a stuck table keeps the later ones from being swept; the total is the number of rows rewritten; the first batch is 100 rows unless a positive size is given |
| QuotaLedger.Ledger.SetQuotaLimit | apps/api/internal/service/quota.go:52-100 | sets the limit exactly under the checks of the source |
| QuotaLedger.Ledger.DeleteQuotaLimit | apps/api/internal/service/quota.go:179-201 | removes exactly that limit; reservations are unaffected |
| QuotaLedger.Ledger.ReserveQuota | apps/api/internal/service/quota.go:216-283 | a known reservation id returns its row unchanged; otherwise reserves exactly if a limit exists and covers the amount on top of the sums reserved and committed; a key whose rows are all released or expired is good for its full limit; usage stays within the highest limit ever set |
| QuotaLedger.Ledger.CommitQuota | apps/api/internal/service/quota.go:287-323 | commits exactly reserved rows; usage stays the same |
| QuotaLedger.Ledger.ReleaseQuota | apps/api/internal/service/quota.go:327-363 | releases exactly reserved rows; usage falls by the amount |
| QuotaLedger.Ledger.RecoverExpiredReservations | apps/api/internal/service/quota.go:415-425 | expires exactly the reserved rows whose time has come, and counts them; under each key the sum reserved or committed falls by exactly the sum it expires |
| QuotaLedger.SettledForGood | apps/api/db/queries/quota.sql:51-74 | over every run a reservation leaves reserved at most once and never changes again |
| QuotaLedger.AmountsConserved | apps/api/db/queries/quota.sql:51-74 | settling moves amounts between the four statuses without loss; usage never grows by it and committed amounts never shrink |
| QuotaInterleavings.OverspendBound | apps/api/db/queries/quota.sql:21-41 | in every run in which at most n reservations of at most a given amount overlap, usage exceeds the highest limit by at most (n - 1) times that amount, and not at all if n is 1 |
| QuotaInterleavings.OverspendReached | apps/api/internal/service/quota.go:245-256 | for every n and amount a run reaches that bound |
| QuotaInterleavings.NeverOverspendsIff | apps/api/db/queries/quota.sql:21-41 | whatever positive amount bounds the reservations, no run with at most n overlapping ones exceeds the highest limit if and only if n is at most 1 |
| QuotaInterleavings.LimitDecides | apps/api/db/queries/quota.sql:21-41 | a reservation is admitted exactly if a limit is set and covers the amount on top of the usage it reads; without a limit, none is |
| QuotaInterleavings.CountsOnceCommitted | apps/api/db/queries/quota.sql:21-41 | a reservation counts as usage once it is committed, and never if it is aborted |

## Left out

- HTTP routing and handlers, authentication, row-level security and tenants: the model is of one tenant.
- Outbox and audit rows that the service operations emit, snapshot rows, telemetry, logging and metrics.
- Sums beyond 64 bits in the quota check: the database raises an error there, which reserves nothing either.
- JSON and float decoding of tiers and prices: a properties document is given with what each charge model decodes from it.
- Eviction of limiter buckets while requests run on them: the clean-up is modelled one tick at a time.
- RateLimiter.BackendsAgree: takes Redis expiry as exact to the instant and its clock as the limiter's; backend errors, on which the Redis limiter admits, are not part of it.
- LimiterInterleavings.AdmissionBound: the clock does not run backwards.
- LimiterInterleavings.AdmittedIff: the waiting time told to a refused request is in RateLimiter.Limiter.AllowRetryAfter, one request at a time.
- The breaker's cool-down under concurrency: openedAt is stored after the state changes, so its length is claimed only for calls made one at a time.
- ResponseRecording.ServeThenReplay: headers other than Content-Type, the marker header of a replay among them, content sniffing and informational statuses.
- Idempotency.AtMostOneExecution: counts executions that claimed the record; a request whose lookup or claim fails runs the handler unprotected, and such runs are counted apart.
- CatalogContent.ValidateCatalog: currencies are ASCII. The validator counts the bytes of a currency and the column constraint its characters; for other currencies the two differ, and this is not modelled.
- CatalogService.Service.Serve: transactions run one after the other. The advisory lock sees to that for plan and policy operations only; CatalogRaces has what overlapping edits and transitions do to a version's state and rows, but not subscriptions or unique-key conflicts.
- CatalogRaces.AlwaysKeptIff: an edit is one step from its last trigger check on, and the locks are those of the version's row; locks on content rows, which can only delay or abort an edit, are left out.
- CatalogService.Service.GetEntitlementSnapshot: subscriptions started in the same microsecond are ordered by id.
- Customer accounts and provider lifecycle: given to the operations as parameters.
- OutboxRelay.Relay.Drain: every mark transaction succeeds; RelayLeases covers marks that never come.
- The dead-letter cause text and the cancellation of a relay between events.
- KeyRotation.Credentials.ReencryptLegacyCiphertexts: nothing else writes to the tables meanwhile, no database error ends a sweep, and a row's encrypted fields are handled as a list, NULL being the empty text.
- KeyRotation.SweepTable: the number of passes a worker lives for is a parameter, so that the loop that does not end can be stated.
- QuotaInterleavings.OverspendBound: rows enter by their sum; two requests with one reservation id at the same time are not part of it.
- Import jobs, SLA tiers, domains, invoices, webhooks, cell failover, the console and the SDKs: status guards and plumbing that would only add easy members.
