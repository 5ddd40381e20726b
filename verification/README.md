# The time-off ledger, modelled and verified

The service grants time off against balances that an external HCM system owns. Days live in three
places that have to agree: the `balances` table, the requests in flight, and a 30-minute cache in
front of the table. This project models the code that moves those days and proves what it keeps,
over every input, every run and every interleaving.

The code changes state step by step, so each service is a class whose methods do what the source
methods do. Each method is proved against a function on plain values (`Balances.GetBalance`,
`Requests.ApproveRequest`, `Sync.SyncOne`, ...). What those functions answer and write is stated once
more in plain terms, row by row and error by error, in the modules named `...Answers`; the run theorems
are about the same functions.

| files | what they hold |
|---|---|
| `FixedPoint`, `Binary64`, `Text`, `Sums`, `Wrappers`, `Failures` | two-decimal texts, doubles, integer hundredths; rounding to 53 bits; strings; sums over tables; results |
| `CacheKeys`, `BalanceCache` | string keys, prefix eviction, expiry |
| `BalanceTable`, `Balances`, `BalanceAnswers`, `BalanceRuns` | rows and lookups, the balance service, what it answers, all its runs |
| `AuditTrail`, `RequestTable`, `Requests`, `RequestAnswers`, `RequestRuns` | the request lifecycle, serialized |
| `Interleaving`, `InterleavingSafety` | approve, reject and cancel calls in flight together, one stop per `await`; what every interleaving keeps |
| `InterleavingLedger`, `InterleavingLimits`, `InterleavingLoss`, `InterleavingUsed` | where the days are while calls overlap, exactly when they can be lost, and used days |
| `InterleavingAudit`, `InterleavingOrder` | which audit entries there are, and exactly when they are in order |
| `Reconciliation`, `Sync`, `SyncAnswers`, `SyncRuns` | batch and real-time synchronisation with the HCM |
| `Upstream`, `CircuitBreaker`, `BreakerRuns`, `Retry` | the breaker and the retry loop |

## Where the code and its documentation part

The model follows the code. These are the places where that matters, with the member that shows it.

- The repository's `README.md:158-165` promises pessimistic locking and a fresh HCM balance before
  approval. There is no lock, and `refreshBalance` re-reads the local row
  (`src/modules/balances/balances.service.ts:283-309`). So overlapping calls can lose days: calls on a
  request can leave its balance off if and only if the request is approved (two cancellations refund
  it twice) or pending and covered (an approval deducts, and a rejection saves first):
  `InterleavingLoss.LossOfOneRequestIff`. Two approvals lose days too:
  `InterleavingLimits.TwoApprovalsLoseDays`. If calls on the same request do not overlap, the ledger is
  exact at rest, available and used: `InterleavingUsed.NoOverlapExactLedger`.
- A refund of more days than are in use is cut off at zero (`Math.max(0, ...)`). That happens only when
  two calls refund the same request: `InterleavingUsed.ClampNeedsDoubleRefund`. It needs no failed save
  before it: `InterleavingUsed.DoubleRefundIsCut`.
- The approval retries a lost version race up to three times. A lost race means the row has left
  PENDING for good, so a second pass can only end at its read: `InterleavingSafety.RetriesAreFutile`.
- Evicting the cache is by the spelling of the call, looking up a row is not. A slot of another
  spelling survives and is out of step: `BalanceRuns.MixedSpellingGoesStale`.
- Ids may hold colons, the separator of the cache keys. A slot is shared by another employee or location
  if and only if one of its ids holds a colon: `CacheKeys.SlotIsSharedIff`. For each such id, one read
  makes the reads of another employee answer its row: `BalanceRuns.ColonsServeForeignRow`.
- Reconciling does not touch the cache, so a later synchronisation counts the drift that the first one
  removed if and only if the slot is still fresh then: `SyncRuns.DriftIsRecountedIff`. What reads can
  answer is bounded by the 30 minutes: `BalanceRuns.BoundedStalenessBySlot`.
- Balances one hundredth apart are compared with `< 0.01` in doubles. 10.01 against 10.00 passes as
  equal, 1.01 against 1.00 does not: `SyncRuns.OneHundredthDependsOnTheBalance`.
- A call saves its row before it logs, in two steps. Overlapping calls on one request can log in the
  wrong order: `InterleavingAudit.AuditOrderCanFlip`. Once all are written the entries are the right ones
  (`InterleavingAudit.TrailIsComplete`), and the order is if and only if no cancellation was logged before
  the approval it cancels: `InterleavingOrder.TrailInOrderIff`.
- "4xx client errors (except timeouts)" are said to be permanent
  (`src/modules/hcm-integration/hcm-retry.service.ts:90-96`). A 408 is permanent too, and the checks
  on message and name decide nothing: `Retry.IsTransient`, `Retry.ServerTimeoutsAreNotRetried`.
- The comments give waits of 1500 and 5000 ms (`hcm-retry.service.ts:31-33`); they are 750 and 1125:
  `Retry.StandardDelays`.
- Settings come from environment variables and are never converted, so a configured retry limit is a
  text, `attempt === this.maxRetries` is never true, and an exhausted call sleeps once more before it
  fails: `Retry.OneWaitBetweenRuns`. The variables that the repository's `README.md:338` and `.env.example:28` name
  for the breaker are not the ones it reads (`circuit-breaker.service.ts:50-53`).
- HALF_OPEN is described as a test of recovery, but it does not limit probes to one:
  `BreakerRuns.HalfOpenDoesNotLimitProbes`.

## How the source is represented

- Days and balances are integer hundredths. `FixedPoint.StoredRunIsExact` is the reason this loses
  nothing: on the stored texts, with doubles, `parseFloat` and `toFixed(2)`, every run of deductions
  and refunds stores exactly those hundredths. It assumes a relative rounding error of at most 2^-53,
  which correct rounding to 53 bits gives (`Binary64.CorrectlyRoundedIsWithin`). HCM figures are taken
  to be hundredths. A requested number of days stands for the decimal that its double prints as.
- Clocks are parameters: milliseconds as integers, one reading and one calendar year per call.
- The HCM is a function from dimensions to an answer or a failure, one function per service call, so
  two calls may be answered differently.
- Ids are ASCII, where JavaScript and SQLite lower-case alike. A request id is its position in the
  table. Timestamps that nothing decides on are dropped.
- Of TypeORM and SQLite only the documented contracts are used: CHECK and UNIQUE constraints, fresh
  entities on every read, and for requests `UPDATE ... WHERE id = ? AND version = N` with version 1 on
  insert. An `undefined` field is not written. The balance `version` is a plain column: the code
  increments it and never compares it.
- Exceptions are `Failures.Failure` values. Whether an audit write succeeds is a parameter.
- `TimeOffRequestService.Approve` takes `rivals`: what another call does to the row between the read
  and the save of each pass. A serialized approval has no rivals.
- In the step system a call to the balance service is one stop, as are a read, a save and an audit
  write; a creation or a lookup by somebody else is one step. Calls may arrive at any time, in any
  number.

## Model

| member | source | states |
|---|---|---|
| `FixedPoint.ToFixed2` | `src/modules/balances/balances.service.ts:350-351` | `toFixed(2)` yields the nearest hundredth, and of two equally near ones the larger in magnitude (ECMA-262, section 21.1.3.3) |
| `FixedPoint.ToFixed2Absorbs` | `src/modules/balances/balances.service.ts:347-351` | any error below half a hundredth is rounded away |
| `FixedPoint.ShownRoundTrip` | `src/modules/requests/requests.service.ts:97-97` | `parseFloat` of what `toFixed(2)` printed gives back the same hundredths, on the texts themselves, negative ones too |
| `FixedPoint.ServiceIsFaithful` | `src/modules/requests/requests.service.ts:229-229` | parsing and printing as the services do, around any rounding within 2^-53, satisfies the assumption of the exactness theorems |
| `FixedPoint.TextArithmeticExact` | `src/modules/balances/balances.service.ts:395-399` | adding, subtracting and subtracting down to zero two stored amounts in doubles is exact |
| `FixedPoint.StoredRunIsExact` | `src/modules/balances/balances.service.ts:347-399` | any run of deductions and refunds, from any texts that read as hundredths, stores exactly what integer arithmetic gives: rounding errors never add up |
| `FixedPoint.HydratedTextsRead` | `src/modules/balances/balances.service.ts:51-52` | the texts a hydrated row starts with, `String(number)` without trailing zeros, read as the hundredths they stand for |
| `FixedPoint.HundredthsCompareAlike` | `src/modules/balances/balances.service.ts:171-173` | comparing two stored amounts as doubles compares their hundredths; any other number is judged alike unless it lies within the rounding error |
| `Binary64.CorrectlyRoundedIsWithin` | `src/modules/balances/balances.service.ts:347-351` | rounding to the nearest number with 53 bits, ties in any way, has a relative error of at most 2^-53 for every real number |
| `Binary64.DoubleIsCorrectlyRounded` | `src/modules/balances/balances.service.ts:347-351` | there is such a rounding |
| `CacheKeys.KeyInjective` | `src/modules/balances/balance-cache.service.ts:31-38` | for colon-free employee and location ids, two lookups share a cache key only if they are the same lookup |
| `CacheKeys.SlotIsSharedIff` | `src/modules/balances/balance-cache.service.ts:31-38` | for every lookup: another employee or location shares its slot, for the same leave type and year, if and only if its employee or location id holds a colon |
| `CacheKeys.SlotIsOwnIff` | `src/modules/balances/balance-cache.service.ts:31-38` | a slot belongs to one lookup alone, among all there are, if and only if none of its three fields holds a colon |
| `CacheKeys.PrefixSelectsPair` | `src/modules/balances/balance-cache.service.ts:94-102` | a key starts with `e:l:` if and only if it was built from exactly employee e and location l |
| `CacheKeys.PrefixSelectsEmployee` | `src/modules/balances/balance-cache.service.ts:116-124` | a key starts with `e:` if and only if it was built from employee e |
| `CacheKeys.ColonsCollide` | `src/modules/balances/balance-cache.service.ts:94-102` | for every lookup with a colon in an id, another employee's lookup of the same leave type and year has the same key, and invalidating that other pair reaches it |
| `BalanceCache.EvictionIsExact` | `src/modules/balances/balance-cache.service.ts:94-109` | invalidating a pair removes all its slots, for every leave type and year, and no other, and leaves the others' contents |
| `BalanceCache.EmployeeEvictionIsExact` | `src/modules/balances/balance-cache.service.ts:116-131` | the employee-wide invalidation removes exactly that employee's slots |
| `BalanceCache.BalanceCacheService.IsCached` | `src/modules/balances/balance-cache.service.ts:45-57` | a hit is a slot that has not expired; an expired slot is dropped and nothing else changes |
| `BalanceCache.BalanceCacheService.GetFromCache` | `src/modules/balances/balance-cache.service.ts:64-71` | answers the fresh slot or nothing, and drops an expired one |
| `BalanceCache.BalanceCacheService.SetInCache` | `src/modules/balances/balance-cache.service.ts:79-86` | the slot holds the balance until 30 minutes from now; other slots stay |
| `BalanceCache.BalanceCacheService.InvalidateCache` | `src/modules/balances/balance-cache.service.ts:94-109` | collecting keys and deleting them leaves exactly the slots without the prefix |
| `BalanceCache.BalanceCacheService.InvalidateAllEmployeeCache` | `src/modules/balances/balance-cache.service.ts:116-131` | the same for the employee prefix |
| `BalanceCache.BalanceCacheService.ClearAll` | `src/modules/balances/balance-cache.service.ts:137-140` | no slot is left |
| `BalanceTable.FindByDimensions` | `src/repositories/balances.repository.ts:23-33` | the first row that matches in all three columns without regard to case, and nothing only if there is none |
| `Text.LowerIgnoresCase` | `src/repositories/balances.repository.ts:28-32` | two strings lower-case to the same if and only if they have one length and at each position the same character or the two cases of one ASCII letter; nothing stays a capital |
| `BalanceTable.LookupIgnoresCase` | `src/repositories/balances.repository.ts:23-33` | the lookup answers the first row whose three fields differ from those asked for in the case of ASCII letters alone, and nothing only if there is none |
| `BalanceTable.FindExact` | `src/modules/sync/conflict-resolution.service.ts:46-52` | the first row that matches as spelled, and nothing only if there is none |
| `BalanceTable.FunctionalLookup` | `src/repositories/balances.repository.ts:23-33` | with one row per case-folded dimension, every spelling finds that row |
| `BalanceTable.BalancesRepository.Save` | `src/entities/balance.entity.ts:25-26` | a row with a negative figure is refused and the table stays as it was |
| `BalanceTable.BalancesRepository.Insert` | `src/entities/balance.entity.ts:19-26` | a row that breaks a CHECK or the unique index is refused |
| `BalanceTable.InsertionDecides` | `src/entities/balance.entity.ts:19-26` | an insert is refused for a negative figure, else for a row of the same employee, location, leave type and year, and appends otherwise |
| `BalanceAnswers.SlotLivesThirtyMinutes` | `src/modules/balances/balance-cache.service.ts:45-86` | a slot answers its balance up to 1800000 ms after it was filled, is dropped by the first read after that, and no other slot is touched |
| `Balances.BalancesService.HydrateBalanceFromHcm` | `src/modules/balances/balances.service.ts:27-75` | the loop over the candidate ids inserts the row of the first candidate the HCM knows and the table accepts, or nothing |
| `Balances.BalancesService.Get` | `src/modules/balances/balances.service.ts:88-141` | cache, then table, then HCM; result, table and cache are those of `GetBalance` |
| `Balances.BalancesService.Validate` | `src/modules/balances/balances.service.ts:153-183` | insufficient exactly when the balance answered is below the request |
| `Balances.BalancesService.ValidateDims` | `src/modules/balances/balances.service.ts:195-244` | valid exactly when a row is found or can be hydrated |
| `Balances.BalancesService.Refresh` | `src/modules/balances/balances.service.ts:273-314` | re-reads, saves and re-caches the local row; the HCM is not asked |
| `Balances.BalancesService.UpdateUsed` | `src/modules/balances/balances.service.ts:325-362` | moves days from available to used, raises the version and evicts the pair; nothing changes if the write is refused |
| `Balances.BalancesService.GiveBack` | `src/modules/balances/balances.service.ts:373-410` | moves days back, with used clamped at zero, raises the version and evicts the pair |
| `BalanceAnswers.HydrationStores` | `src/modules/balances/balances.service.ts:33-74` | without a row the HCM is asked as spelled, then in lower case; the first answer without a negative figure is stored with its available and used days (0 if missing), carry-over 0, the given year, version 1, under the id asked |
| `BalanceAnswers.ReadDecides` | `src/modules/balances/balances.service.ts:94-140` | a read answers the warm slot, else the row found, else that hydrated row, and NotFound if the HCM knows neither spelling |
| `BalanceAnswers.ValidationDecides` | `src/modules/balances/balances.service.ts:164-182` | a validation is insufficient if and only if the balance read is below the days asked for, and passes the failure of the read on |
| `BalanceAnswers.DimensionsDecide` | `src/modules/balances/balances.service.ts:206-230` | a dimension is valid if and only if its row is found afterwards |
| `BalanceAnswers.RefreshDecides` | `src/modules/balances/balances.service.ts:284-313` | the row found is marked as read now and not stale, nothing else in it changes, and it fills its slot for thirty minutes |
| `BalanceAnswers.DeductionDecides` | `src/modules/balances/balances.service.ts:335-359` | the days go from available to used in the row found, its version rises by one (a missing one to 2), the slots of the pair go; refused without change if a figure would be negative or there is no row |
| `BalanceAnswers.RefundDecides` | `src/modules/balances/balances.service.ts:383-407` | the days go back to available and are taken from used down to zero, with the same version rise, eviction and refusals |
| `BalanceRuns.HydrationAnswersLookup` | `src/modules/balances/balances.service.ts:33-74` | find-or-hydrate answers exactly the row the caller's spelling finds afterwards, appends at most that row, and keeps the table a function |
| `BalanceRuns.HydrationKeepsLookups` | `src/modules/balances/balances.service.ts:114-127` | hydrating for one lookup moves no lookup that found a row |
| `BalanceRuns.ReadShape` | `src/modules/balances/balances.service.ts:101-140` | a read hits and changes nothing, or answers and caches the row its lookup finds afterwards |
| `BalanceRuns.TableStaysAFunction` | `src/modules/balances/balances.service.ts:205-221` | over every run there is at most one row per case-folded dimension, CHECKs hold of every row, and a row once found stays found for every spelling |
| `BalanceRuns.ValidatedNeverMissing` | `src/modules/balances/balances.service.ts:205-221` | once a dimension has been validated, no later operation on any spelling of it reports it missing, whatever happens in between |
| `BalanceRuns.CacheRefinesTable` | `src/modules/balances/balances.service.ts:356-359` | in every run of balance operations with one spelling per id and no colons in ids, every cached entry shows the figures and version of the row it stands for, for all leave types and years |
| `BalanceRuns.MixedSpellingGoesStale` | `src/modules/balances/balances.service.ts:404-407` | for ids without colons, a slot of the same row survives a deduction or refund, out of step, if and only if it spells employee or location differently |
| `BalanceRuns.ReadAfterRefresh` | `src/modules/requests/requests.service.ts:203-217` | the balance validated inside an approval is the current row, however late it is read |
| `BalanceRuns.BoundedStalenessBySlot` | `src/modules/balances/balances.service.ts:94-140` | what a read answers at time T was the row of a lookup of the same slot at some moment in [T - 30 min, T], over every run, with any ids, reconciliations and mixed spellings |
| `BalanceRuns.BoundedStaleness` | `src/modules/balances/balances.service.ts:94-140` | it was the row of that very lookup if its fields hold no colon, whatever else is looked up, or if no id in the run holds one |
| `BalanceRuns.ColonsServeForeignRow` | `src/modules/balances/balances.service.ts:94-138` | for every lookup with a colon in an id, a read that finds or hydrates its row makes the reads of another employee answer that row for the life of the slot, though it is theirs in no spelling |
| `AuditTrail.AuditService.LogChange` | `src/modules/audit/audit.service.ts:23-59` | appends the entry, or fails and leaves the log alone |
| `RequestTable.RequestsRepository.Save` | `src/entities/request.entity.ts:125-137` | writes and raises the version only at the version that was read; otherwise reports a mismatch and changes nothing |
| `RequestTable.RequestsRepository.Insert` | `src/entities/request.entity.ts:20-21` | a new row starts at version 1; a row that breaks a CHECK is refused |
| `Requests.TimeOffRequestService.Create` | `src/modules/requests/requests.service.ts:50-129` | validation, snapshot, insert and audit, in that order, each failure leaving what was done before it |
| `RequestAnswers.CreationDecides` | `src/modules/requests/requests.service.ts:55-118` | a request is appended, with its dates, rounded days, snapshot and entry, if and only if the dimension is known, the cached or else the found balance covers the days, the dates are in order and the days round to more than nothing; otherwise InvalidDimension, InsufficientBalance or CheckViolation by those same conditions, in that order |
| `Requests.TimeOffRequestService.Approve` | `src/modules/requests/requests.service.ts:176-285` | the retry loop computes `ApproveRequest` for every list of rivals |
| `RequestAnswers.ThreeAttempts` | `src/modules/requests/requests.service.ts:184-284` | the answer is that of the first of three passes that does not lose its version race, or that the retries are exhausted |
| `RequestAnswers.LostPass` | `src/modules/requests/requests.service.ts:224-233` | a pass overtaken before its save deducts the days if the balance covers them and leaves the row to its rival, and is insufficient otherwise |
| `RequestAnswers.WrongStatusIsRefused` | `src/modules/requests/requests.service.ts:189-200` | a request that is missing or not in the status a decision starts from is refused as such, and nothing changes |
| `RequestAnswers.MissingBalanceIsRefused` | `src/modules/balances/balances.service.ts:290-293` | an approval or cancellation without a balance row is NotFound, and nothing changes |
| `Requests.TimeOffRequestService.ApprovePass` | `src/modules/requests/requests.service.ts:187-248` | one pass: read, refresh, validate, deduct, versioned save, audit |
| `Requests.TimeOffRequestService.Reject` | `src/modules/requests/requests.service.ts:295-335` | only a pending request is rejected; the balance is not touched |
| `Requests.TimeOffRequestService.Cancel` | `src/modules/requests/requests.service.ts:347-396` | only an approved request is cancelled, after its refund |
| `RequestRuns.ApprovalDecides` | `src/modules/requests/requests.service.ts:189-248` | a serialized approval of a pending request succeeds if and only if the balance covers it, and then sets status, approval time, synchronised mark and version 2 of that row and nothing else; otherwise it reports the shortage and changes no request and no log |
| `RequestRuns.RejectionDecides` | `src/modules/requests/requests.service.ts:299-328` | a serialized rejection always goes through, sets status, the given reason, synchronised mark and version 2, and leaves both stores alone |
| `RequestRuns.CancellationDecides` | `src/modules/requests/requests.service.ts:351-389` | a serialized cancellation always goes through: the used days cover it, so neither the clamp nor a CHECK fires; it sets status, the reason or the default for none or an empty one, synchronised mark and version 3 |
| `RequestRuns.CoveredDeduction` | `src/modules/balances/balances.service.ts:347-356` | the CHECK refuses a deduction if and only if the balance does not cover it |
| `RequestRuns.UnclampedRefund` | `src/modules/balances/balances.service.ts:395-404` | a refund of days in use is the exact inverse of the deduction |
| `RequestRuns.CreationShape` | `src/modules/requests/requests.service.ts:91-118` | a creation appends one pending request at version 1 and logs it, or leaves requests and log alone |
| `RequestRuns.DaysAreConserved` | `src/modules/requests/requests.service.ts:203-230` | over every serialized run and every case-folded dimension, available fell and used rose by exactly the days of the requests that became approved; both stay at or above zero, and used covers all approved days |
| `RequestRuns.HydratedDaysAreConserved` | `src/modules/balances/balances.service.ts:114-127` | a balance without a row at first is hydrated by one call of the run, and from then on has given exactly the approved days from available to used |
| `RequestAnswers.ApproveThenCancelRestores` | `src/modules/requests/requests.service.ts:203-375` | approving a covered request and cancelling it leaves it cancelled at version 3, with its approval time and reason, and every balance exactly as it was |
| `RequestAnswers.CreateThenRejectMovesNothing` | `src/modules/requests/requests.service.ts:308-314` | rejecting a request that has just been created leaves every balance as it was |
| `RequestRuns.VersionsFollowStatus` | `src/modules/requests/requests.service.ts:189-233` | over every serialized run, with reconciliations and any other balance operations in between, the version of a request is 1, 2 or 3 as its status says |
| `RequestRuns.EmptyLedger` | `src/entities/balance.entity.ts:19-26` | a ledger without requests meets the starting condition as soon as its table does |
| `RequestRuns.AuditReplays` | `src/modules/requests/requests.service.ts:236-244` | over every such run whose audit writes succeed, the entries of a request are the history its status implies, in order, and as many as its version |
| `RequestRuns.LifecycleChains` | `src/modules/requests/requests.service.ts:107-118` | in such a history each change starts at the status where the one before ended, and the last one is the status |
| `RequestRuns.SerialApproveIsOnePass` | `src/modules/requests/requests.service.ts:184-284` | without rivals the loop body runs once |
| `InterleavingSafety.SaveDecides` | `src/repositories/requests.repository.ts:60-71` | in a sound state a save goes through if and only if the row is still the one that was read |
| `InterleavingSafety.EveryInterleavingSound` | `src/modules/requests/requests.service.ts:184-284` | the inductive invariant of all interleavings; every step takes each row along at most one edge of PENDING to APPROVED to CANCELLED or PENDING to REJECTED, one version up |
| `InterleavingSafety.VersionTellsStatus` | `src/entities/request.entity.ts:125-137` | in every interleaving version 1 is PENDING, 2 is APPROVED or REJECTED, 3 is CANCELLED, and conversely |
| `InterleavingSafety.TransitionsHaveOneWinner` | `src/modules/requests/requests.service.ts:299-314` | in every interleaving at most one call wins each transition of a request |
| `InterleavingSafety.WinnerWrites` | `src/modules/requests/requests.service.ts:219-233` | in every interleaving the step that wins writes the decision, its time or reason, the synchronised mark and the version into the current row, and changes nothing else |
| `InterleavingSafety.RetriesAreFutile` | `src/modules/requests/requests.service.ts:249-279` | in every interleaving a call makes at most two passes and moves the balance at most once, the exhausted branches are never reached, and a second pass never wins |
| `InterleavingLedger.InterleavedAccounting` | `src/modules/requests/requests.service.ts:225-233` | in every interleaving, what was available or approved is available, approved, deducted for an approval still to save or lost with one whose save failed, less what cancellations refunded without a save |
| `InterleavingLedger.AccountingAtRest` | `src/modules/requests/requests.service.ts:360-375` | at rest the ledger is off by exactly the days of failed saves, and exact without them |
| `InterleavingAudit.EntriesAccounted` | `src/modules/requests/requests.service.ts:232-244` | in every interleaving each change of a request is in the log once or owed by the call that made it |
| `InterleavingAudit.TrailIsComplete` | `src/modules/requests/requests.service.ts:374-385` | once every winner has logged, the trail holds exactly the changes its status implies, as many as its version |
| `InterleavingAudit.AuditOrderCanFlip` | `src/modules/requests/requests.service.ts:232-244` | whenever a balance covers a pending request, its approval and a cancellation can overlap so that all succeeds and the trail tells the cancellation first |
| `InterleavingOrder.TrailInOrderIff` | `src/modules/requests/requests.service.ts:374-385` | in every interleaving, with every entry written, the trail of a request is in order if and only if no cancellation of it was logged while its approval had still to be |
| `InterleavingOrder.NoOverlapKeepsOrder` | `src/modules/requests/requests.service.ts:232-244` | if calls on the same request never overlap and audit writes succeed, every trail is in order at rest, however calls on different requests overlap |
| `InterleavingLimits.NoOverlapNoLoss` | `src/modules/requests/requests.service.ts:225-233` | if calls on the same request never overlap, no save is lost and the available and approved days add up at rest, however calls on different requests overlap |
| `InterleavingUsed.NoOverlapExactLedger` | `src/modules/requests/requests.service.ts:360-375` | then no refund is cut off, and at rest exactly the newly approved days have gone from available to used, which covers what is approved |
| `InterleavingUsed.TotalKeptIff` | `src/modules/balances/balances.service.ts:395-399` | in every interleaving available and used days together never shrink, and stay the same if and only if no refund was cut off |
| `InterleavingUsed.ClampNeedsDoubleRefund` | `src/modules/balances/balances.service.ts:399-399` | in every interleaving a refund is cut off only if two calls have refunded the same request |
| `InterleavingUsed.DoubleRefundIsCut` | `src/modules/balances/balances.service.ts:399-399` | it can happen while every save so far has gone through |
| `InterleavingLoss.LossIsPossibleIff` | `src/modules/requests/requests.service.ts:184-375` | calls on a set of requests can be interleaved so that a balance is off at rest if and only if one of the requests on it is approved, or pending and covered by the balance |
| `InterleavingLoss.LossOfOneRequestIff` | `src/modules/requests/requests.service.ts:184-375` | the same for the calls on one request |
| `InterleavingLoss.RejectionStrands` | `src/modules/requests/requests.service.ts:225-233` | whenever a balance covers a pending request, an approval and a rejection can overlap so that the days are deducted for a rejected request |
| `InterleavingLoss.CancellationsRefundTwice` | `src/modules/requests/requests.service.ts:360-375` | two cancellations of any approved request can overlap so that it is refunded twice and cancelled once |
| `InterleavingLimits.LostRaceStrandsDays` | `src/modules/requests/requests.service.ts:249-270` | of two approvals about to save one row, the first wins and the second leaves its days deducted |
| `InterleavingLimits.TwoApprovalsLoseDays` | `src/modules/requests/requests.service.ts:184-284` | whenever a balance covers a pending request twice, two approvals can overlap so that the days are deducted twice and granted once |
| `InterleavingLimits.OvertakenApproval` | `src/modules/requests/requests.service.ts:249-278` | the serialized loop, overtaken between read and save, ends with an invalid transition on its second pass and never with exhausted retries |
| `InterleavingLimits.SoloCallIsSerialized` | `src/modules/requests/requests.service.ts:176-396` | a call that meets no other call does, stop by stop, exactly what the serialized method does |
| `Reconciliation.ConflictResolutionService.ReconcileBalance` | `src/modules/sync/conflict-resolution.service.ts:34-103` | overwrites the figures of the row as spelled, raises its version, then logs; a failing log leaves the row written |
| `SyncAnswers.ReconcileDecides` | `src/modules/sync/conflict-resolution.service.ts:46-71` | the row as spelled gets the HCM's available days, its used days if reported, and one version more, nothing else; NotFound without it, refused for a negative figure |
| `SyncAnswers.ReconcileEntryTells` | `src/modules/sync/conflict-resolution.service.ts:62-87` | the entry tells available days and version before and after, a missing version counting as 1 |
| `Sync.SyncService.RecordDrift` | `src/modules/sync/drift-detection.service.ts:114-168` | the history row is written before the audit entry, which may fail |
| `SyncAnswers.DriftRecordsTell` | `src/modules/sync/drift-detection.service.ts:127-153` | history row and entry tell the local balance as the old and the HCM balance as the new one |
| `Sync.SyncService.SyncItem` | `src/modules/sync/sync.service.ts:85-135` | one employee: HCM, local balance, drift, reconcile, each failure keeping what came before |
| `SyncAnswers.SyncSucceedsIff` | `src/modules/sync/sync.service.ts:85-135` | a synchronisation succeeds if and only if the HCM and the read answer, the row is there as spelled afterwards, the HCM figures leave no negative figure, and the audit writes needed succeed; then the row holds the HCM figures and the cache is as the read left it |
| `SyncAnswers.DriftCountedIff` | `src/modules/sync/sync.service.ts:102-117` | a drift is counted if and only if the doubles of balance read and HCM balance are 0.01 or more apart and its entry is written; it tells both, its direction and amount, and leaves one history row |
| `SyncAnswers.SyncFailsWith` | `src/modules/sync/sync.service.ts:136-142` | which failure it is otherwise, and what stays written |
| `SyncAnswers.SyncLogs` | `src/modules/sync/sync.service.ts:107-133` | a success logs the drift, if any, and then the repair |
| `Sync.SyncService.RealTimeSyncBalance` | `src/modules/sync/sync.service.ts:202-285` | the same steps, with the failure let out |
| `SyncAnswers.RealTimeDecides` | `src/modules/sync/sync.service.ts:269-285` | the caller gets the HCM balance and the drift under the same condition, and the failure otherwise |
| `Sync.SyncService.SyncAll` | `src/modules/sync/sync.service.ts:84-146` | the loop computes the batch and counts every employee in the session |
| `Sync.SyncService.BatchSyncBalances` | `src/modules/sync/sync.service.ts:57-166` | the report and the stores of the batch; the session ends completed with progress equal to total |
| `Sync.AccumulateComposes` | `src/modules/sync/sync.service.ts:84-146` | running a loop body over xs ++ ys is running it over xs and then over ys, with reports added |
| `SyncRuns.DriftIsADifference` | `src/modules/sync/drift-detection.service.ts:43-72` | in doubles, equal balances never drift, two hundredths apart always do, and a drift states direction and amount |
| `SyncRuns.OneHundredthDependsOnTheBalance` | `src/modules/sync/drift-detection.service.ts:47-52` | in every correct rounding to 53 bits, 10.01 against 10.00 is no drift and 1.01 against 1.00 is one |
| `SyncRuns.BatchAccounts` | `src/modules/sync/sync.service.ts:74-146` | synced + failed = total, and drifted is the number of details |
| `SyncAnswers.BatchCounts` | `src/modules/sync/sync.service.ts:84-146` | failed is the number of items that cannot go through when their turn comes, synced that of the others, drifted that of the drifts found and logged |
| `SyncAnswers.DetailsTell` | `src/modules/sync/sync.service.ts:116-117` | the details are those drifts in the order of the items |
| `SyncAnswers.ReadyBatchSucceeds` | `src/modules/sync/sync.service.ts:84-146` | if the HCM reports usable figures for all, their rows are there as spelled and the audit can be written, everybody is synchronised and every listed row holds the HCM figures, risen or fallen |
| `SyncRuns.BatchComposes` | `src/modules/sync/sync.service.ts:84-146` | splitting a batch gives the same tables, cache, history and audit, and counts that add up |
| `SyncRuns.BatchConverges` | `src/modules/sync/conflict-resolution.service.ts:46-71` | after a batch with failed = 0 every listed row holds the HCM figures, with duplicates and hydrated rows |
| `SyncRuns.SecondBatchFindsNothing` | `src/modules/sync/sync.service.ts:84-146` | once its slots have expired, a second batch over the same employees against the same HCM reports no drift and synchronises all |
| `SyncRuns.DriftIsRecountedIff` | `src/modules/sync/sync.service.ts:94-117` | a later synchronisation of a converged row counts the same drift again if and only if the cache slot is still fresh then, and no other drift |
| `CircuitBreaker.CircuitBreakerService.Execute` | `src/modules/hcm-integration/circuit-breaker.service.ts:63-85` | an admitted call runs the operation once and records its outcome; a rejected one runs nothing and changes nothing |
| `CircuitBreaker.CircuitBreakerService.constructor` | `src/modules/hcm-integration/circuit-breaker.service.ts:49-53` | threshold 5 and timeout 60000 ms unless set to something other than 0; closed, nothing counted |
| `CircuitBreaker.CircuitBreakerService.MaybeReset` | `src/modules/hcm-integration/circuit-breaker.service.ts:170-182` | open becomes half-open exactly when the timeout has passed |
| `CircuitBreaker.CircuitBreakerService.RecordSuccess` | `src/modules/hcm-integration/circuit-breaker.service.ts:115-138` | a success closes a half-open breaker, clears the count of a closed one, and leaves an open one alone |
| `CircuitBreaker.CircuitBreakerService.RecordFailure` | `src/modules/hcm-integration/circuit-breaker.service.ts:146-164` | a failure counts, restarts the timeout, and opens at the threshold or from half-open |
| `CircuitBreaker.CircuitBreakerService.Reset` | `src/modules/hcm-integration/circuit-breaker.service.ts:102-108` | back to the initial state |
| `BreakerRuns.FailureDecides` | `src/modules/hcm-integration/circuit-breaker.service.ts:146-164` | count, time and state after a failure, for every state |
| `BreakerRuns.SuccessDecides` | `src/modules/hcm-integration/circuit-breaker.service.ts:115-138` | all four fields after a success, for every state |
| `BreakerRuns.WaitingDecides` | `src/modules/hcm-integration/circuit-breaker.service.ts:170-182` | the timeout counts as passed at exactly `resetTimeoutMs` |
| `BreakerRuns.BreakerRefinesHistory` | `src/modules/hcm-integration/circuit-breaker.service.ts:115-164` | for calls that do not overlap the count is the trailing run of failures since the last success or reset, and the breaker is closed exactly while that run is below the threshold |
| `BreakerRuns.AdmissionFollowsHistory` | `src/modules/hcm-integration/circuit-breaker.service.ts:63-75` | a call runs if and only if a rule on that history alone allows it |
| `BreakerRuns.RunsAreMarks` | `src/modules/hcm-integration/circuit-breaker.service.ts:67-75` | rejected calls leave no mark in the history |
| `BreakerRuns.CallRateIsBounded` | `src/modules/hcm-integration/circuit-breaker.service.ts:146-182` | while every call fails, at most threshold + floor(W / timeout) operations run in the first W milliseconds |
| `BreakerRuns.CallRateBoundIsTight` | `src/modules/hcm-integration/circuit-breaker.service.ts:146-182` | for every configuration and window some run reaches the bound |
| `BreakerRuns.OverlapKeepsConsistent` | `src/modules/hcm-integration/circuit-breaker.service.ts:102-182` | however calls overlap: closed exactly while the count is below the threshold, a last failure is known unless closed, no half-counted successes |
| `BreakerRuns.NoLockout` | `src/modules/hcm-integration/circuit-breaker.service.ts:170-182` | a call a timeout or more after the last failure is always admitted |
| `BreakerRuns.RejectedExactlyWhenRecent` | `src/modules/hcm-integration/circuit-breaker.service.ts:63-75` | with a clock that does not run backwards, rejected if and only if the count has reached the threshold and the last failure is less than a timeout ago |
| `BreakerRuns.HalfOpenDoesNotLimitProbes` | `src/modules/hcm-integration/circuit-breaker.service.ts:63-75` | once the timeout is over, any number of calls is let through before the first one ends |
| `BreakerRuns.CallIsTwoEvents` | `src/modules/hcm-integration/circuit-breaker.service.ts:63-85` | a call that overlaps no other is its begin and its end in a row |
| `Retry.IsTransient` | `src/modules/hcm-integration/hcm-retry.service.ts:98-153` | transient if and only if the code is a network code or the status is not 4xx |
| `Retry.NetworkCodes` | `src/modules/hcm-integration/hcm-retry.service.ts:100-113` | the network codes are the six listed, in any case |
| `Retry.ServerTimeoutsAreNotRetried` | `src/modules/hcm-integration/hcm-retry.service.ts:90-96` | a 408 is permanent even if its message and its name say timeout |
| `Retry.HcmRetryService.ExecuteWithRetry` | `src/modules/hcm-integration/hcm-retry.service.ts:35-79` | the loop's result, number of runs and waits, for numeric and textual limits, negative ones too |
| `Retry.HcmRetryService.constructor` | `src/modules/hcm-integration/hcm-retry.service.ts:20-25` | limit 3, delay 500 and multiplier 1.5 unless set; a numeric 0 counts as not set, a textual one as 0 |
| `Retry.LastAttempt` | `src/modules/hcm-integration/hcm-retry.service.ts:41-75` | the attempt that ends a call: the first success or permanent error, or the last one allowed |
| `Retry.RunsAndResult` | `src/modules/hcm-integration/hcm-retry.service.ts:41-75` | the operation runs 1 + min(limit, index of the first success or permanent error) times and that outcome comes out, except that an exhausted textual limit replaces a thrown object that is no error |
| `Retry.NegativeLimitRunsNothing` | `src/modules/hcm-integration/hcm-retry.service.ts:41-78` | a negative limit runs the operation never and fails |
| `Retry.OneWaitBetweenRuns` | `src/modules/hcm-integration/hcm-retry.service.ts:59-73` | the waits follow the schedule, one between two runs and no more, if and only if the limit is a number or the call did not use up its attempts |
| `Retry.GeometricSum` | `src/modules/hcm-integration/hcm-retry.service.ts:163-168` | (m - 1) times the unrounded total is d (m^k - 1), for every multiplier |
| `Retry.TotalWait` | `src/modules/hcm-integration/hcm-retry.service.ts:163-168` | for m > 1 the total wait after k failures is d (m^k - 1) / (m - 1) to within k / 2 |
| `Retry.DelaysNeverDecrease` | `src/modules/hcm-integration/hcm-retry.service.ts:163-168` | for m >= 1 the delays never decrease |
| `Retry.StandardDelays` | `src/modules/hcm-integration/hcm-retry.service.ts:20-25` | with nothing configured the waits are 500, 750 and 1125 ms |

## Left out

- HTTP controllers, DTO validation, exception filters, modules, logging, message texts, UUIDs: plumbing.
- The HCM client and its own retries; the mock HCM server; `tools/route-lab`.
- `isCacheStale`, `markStale`, `getStats`, `handleVersionConflict`, `getRequestsByEmployee`, `findRecent`, history queries, health checks, `inferDriftReason`, `classifyDrift`, `shouldAlert`: single-branch reads, texts and alerts that no ledger step rests on.
- Database failures other than the CHECK, UNIQUE and version conflicts modelled; an audit write may fail, a history write may not.
- The FAILED state of a sync session: every failure inside the loop is caught and the final event swallows its own, so that branch is not reached.
- `getBalance` answers and stores the same entity object; rows here are values. No operation of the model changes a cached entity in place, in the source neither.
- `requestsRepository.runInTransaction`: the request service never calls it.
- FixedPoint.ToFixed2: is given the real that the double denotes; exponents, leading blanks and NaN in `parseFloat` are not modelled, no stored amount has them.
- Balances.BalancesService.Validate: compares as reals, not as doubles; for two stored amounts, and for any number further away than the rounding error, the comparison is the same (`FixedPoint.HundredthsCompareAlike`).
- InterleavingLedger.InterleavedAccounting: reconciliations do not take part, since they overwrite figures with what the HCM says and no sum survives that; the results on versions, winners, retries and the audit trail hold with them.
- BalanceRuns.CacheRefinesTable: leaves out ids with colons, for which it is false (`BalanceRuns.ColonsServeForeignRow`).
- CircuitBreaker.CircuitBreakerService.Execute: runs a call that nothing overlaps; overlapping calls are the begin and end events of `BreakerRuns`. No service calls `execute` yet; it is modelled as a component.
- Retry.TotalWait: delays are rounded from real products, not from double ones.
- Retry.HcmRetryService.ExecuteWithRetry: a textual setting is taken to hold a numeral, and a thrown value to be an object.
