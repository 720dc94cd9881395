# Verified model of the order saga

A Dafny model of a crash-recovering order saga: coordinator instances that share
`saga_orders` and `saga_steps`, four services that each keep a domain table and
idempotency records, a network that loses, delays and repeats messages, and a notifier
that runs on any number of instances. `dafny verify dfyconfig.toml` checks the project.

## How it is built

Every SQL statement is one atomic step, written once as a function on table values.
`affectedRows` is the number of rows that match the WHERE clause. On top of those
functions there are two layers.

- Step machines (`Idempotency`, `Saga`, `Leases`, `Notifier`): a state, the actions that
  may happen next, and runs as sequences of actions. Crashes, lost replies, failed
  statements, stale owners and the clock are actions, so a theorem about all runs covers
  every interleaving.
- Procedures over mutable tables (`IdempotentService`, `SagaCoordinator`, `OrdersTable`,
  `Inventory`, `NotifierJob`, `Ingest`, `Paging`, `Retry`, `Worker`), in the statement order
  of the program. Their contracts equate the new tables with those functions or, where
  others interfere between statements, show through a ghost trace that the execution is
  a run of the machine, so that the machine's theorems hold of it.

| module | part of the system |
|---|---|
| `Vocabulary` | steps, compensations, keys |
| `Saga`, `SagaAtomicity`, `SagaSchedules`, `SagaOutcomes`, `SagaProgress`, `SagaCalls`, `DishonestFailure`, `SagaCoordinator` | the forward, compensate and recover engine of one order |
| `Idempotency`, `ExactlyOnce`, `ClaimTiming`, `LiveOwner`, `CacheRefinement`, `IdempotentService` | `runIdempotent` with its cache and the gated handlers |
| `AtomicService`, `Phantom`, `ServiceRefinement` | that service as the atomic one of the saga |
| `Composed` | coordinator, wire and services in one system |
| `Superseded`, `ZombieRollback` | runs that go on after losing the lease |
| `Leases`, `LeaseSafety`, `Lifecycle`, `OrdersTable` | claiming, fencing, manual retry, shipping |
| `Inventory` | stock and reservations |
| `Retry`, `Worker`, `Ingest`, `Paging` | the loops around them |
| `Notifier`, `NotifierJob`, `ShippedToSent` | one notification per shipped order |
| `Sets` | a counting fact that three of them use |

The saga machine follows one order with one live coordinator run at a time, and uses
services whose operations are atomic and idempotent. `ServiceRefinement.ServiceRefines` ties
that to the concurrent service, and module `Composed` joins the two: its system is the
coordinator, the wire and four concurrent services that also serve other orders, and
`Composed.SystemAtomicity` is the atomicity theorem, and `Composed.SystemOutcome` schedule
independence, about the rows and histories those services have committed. In it a call for
the order starts only for a request on the wire that passes the fault injection; the 409 and the failed statements of a service reach the
coordinator as `Busy` or `Lost` attempts, its refusal for lack of stock as a `Lost` one that
is not retried. Module `Superseded` gives up the single live run.

## Hypotheses, and why they are needed

- Dead owner: an idempotency claim is taken over only from a caller that has ended. The
  comments at packages/shared/src/idempotency.ts:77-80 say that a completed record is
  immutable and the cache cannot be stale; the completion UPDATE is not guarded, so this
  holds only under the hypothesis. `ClaimTiming.TimelyIsClean` says when it is met: where every
  call ends before its claim is old enough to be taken over. `LiveOwner.LiveOwnerOverwrites` and `LiveOwner.StaleHit` are
  runs without it, and `LiveOwner.OverwrittenExactly` and `LiveOwner.StaleExactly` say when a
  record changes and when a cache entry goes stale. `ExactlyOnce.AtMostOnceEffect` needs no such
  hypothesis. The saga theorems rest on this and on the next wherever they are read as
  statements about the real services.
- Default isolation: `createPool` (packages/shared/src/db.ts:19-40) sets none, so InnoDB's
  REPEATABLE READ applies, where an undo UPDATE that found no row keeps a gap lock and a
  later insert waits for it. `AtomicService.AtomicExactly` says what remains without it, and
  `Phantom.PhantomUndo` is a run at a weaker level.
- Superseded runs have stopped: when a run's lease is taken over, it takes no further step.
  The step rows are not fenced; services/coordinator/src/saga.ts:242-247 does not look at the
  result of the fenced COMPENSATING write; and the token names a process
  (services/coordinator/src/config.ts:52), so the status writes of a superseded run pass the
  fence while its process owns the order, still or again. Module `Superseded` lets such runs
  do all of that: `Superseded.AtomicityAmongZombies` says what any number of them leave
  intact, and `Superseded.PlacedAmongZombies` when a PLACED order stays whole among them.
  `ZombieRollback.PlacedButUndone` and `ZombieRollback.UndoneButPlaced` are runs in which it
  does not, one for each half of the condition.
- Honest failure: a forward step recorded FAILED has no committed effect and no request
  still on the wire. `DishonestFailure.CancelledButCharged` is a run without it, and
  `SagaAtomicity.AtomicityOfEveryRun` gives the exact condition at CANCELLED for every run.
- One live run per instance and order: db/01-saga.sql:48-52 and
  services/coordinator/src/config.ts:45-52 promise that fencing stops every zombie, but the
  token names a process and not a claim. `Lifecycle.PathExact` gives the exact condition under
  which a history leaves the lifecycle, for every run, and
  `Lifecycle.ZombiePlacesCompensatingOrder` is a run that meets it. The lease, fence and
  coupling theorems need no such hypothesis.
- Agreeing requests: the release handler trusts the request's sku and quantity, as the
  coordinator sends them from the order row (services/coordinator/src/saga.ts:79-89).
  `Inventory.ReleaseExact` gives the exact condition.

Consequences worth knowing: a retry callback that throws on success makes `withRetry` run
the work again (`Retry.RunsAgain` says exactly when); a concurrency limit below one processes
nothing; a page fetch can miss a shipped order, in one cycle and again in the next
(`Paging.FetchedExactly`); and by `Inventory.Conservation` no stock counter leaves the
column's INT range when each SKU's total fits it.

## Model

| member | source | states |
|---|---|---|
| `Vocabulary.StepsPartition` | packages/shared/src/types.ts:9-64 | the forward and compensation steps split the vocabulary, and isForwardStep is membership in the first list |
| `Vocabulary.ForwardOf` | packages/shared/src/types.ts:36-41 | COMPENSATION_OF pairs every compensation with exactly one forward step |
| `Vocabulary.UndoneWhereDone` | packages/shared/src/types.ts:36-58 | COMPENSATION_OF and STEP_SERVICE agree: a step is undone by the service that did it, and by no other step of that service |
| `Vocabulary.KeyInjective` | packages/shared/src/types.ts:77-79 | two requests share an idempotency key only when order and step agree, even for order ids that contain a colon |
| `Vocabulary.KeyText` | packages/shared/src/types.ts:9-79 | the key is the order id, a colon and the step as the vocabulary spells it |
| `SagaAtomicity.AtomicityOfEveryRun` | services/coordinator/src/saga.ts:202-258 | over every run with one live coordinator run at a time (any interleaving, loss, repetition, crash, recovery, retry): PLACED or SHIPPED means all four effects committed exactly once and none undone; a CANCELLED order is clean at a step if and only if no committed effect hides behind a row that is not SUCCEEDED |
| `SagaAtomicity.Atomicity` | services/coordinator/src/saga.ts:202-258 | in every state that a run with honest failures reaches, PLACED or SHIPPED means every effect committed once, CANCELLED means every committed forward effect was undone exactly once |
| `SagaAtomicity.UndoRows` | services/coordinator/src/saga.ts:153-181 | at CANCELLED an undo row is SUCCEEDED iff its forward row is and otherwise SKIPPED; at NEEDS_ATTENTION some needed undo is FAILED |
| `SagaAtomicity.SelectionStable` | services/coordinator/src/repository.ts:258-268 | once an order is COMPENSATING, every later pass, after any crash or manual retry, computes the same needed set |
| `DishonestFailure.CancelledButCharged` | services/coordinator/src/saga.ts:100-106 | a concrete run ends CANCELLED with the customer charged; every failure recorded in it is honest but the charge's, which commits after its replies were given up |
| `Superseded.AtomicityAmongZombies` | services/coordinator/src/saga.ts:202-258 | however many superseded runs keep stepping, their status writes fenced off or passing where their process owns the order: no effect is committed or undone twice, or undone uncommitted; PLACED or SHIPPED has every effect committed, and is whole if and only if no undo has been; CANCELLED is clean at a step if and only if a committed one was undone |
| `Superseded.PlacedAmongZombies` | services/coordinator/src/repository.ts:140-158 | so a PLACED or SHIPPED order is whole when no superseded run turns to compensate an order on its way to PLACED, except where nobody else has taken it over and the COMPENSATING write passes, and none places an order that is being compensated |
| `ZombieRollback.PlacedButUndone` | services/coordinator/src/saga.ts:242-247 | why the first condition is needed: a superseded run overwrites SUCCEEDED with FAILED, ignores that its COMPENSATING write was fenced off, and undoes a PLACED order |
| `ZombieRollback.UndoneButPlaced` | services/coordinator/src/config.ts:45-52 | why the second is: after a shipment was cancelled and a person retried, a superseded run in the process that owns the order again places it, though no superseded run ever turned to compensate |
| `Composed.SystemRefines` | services/coordinator/src/saga.ts:64-108 | every run of the coordinator joined to four concurrent runIdempotent services by the requests on the wire is matched by a run of the saga machine, by one with honest failures if it has those, and by one that gives up only after deciding answers if it does |
| `Composed.SystemAtomicity` | services/coordinator/src/saga.ts:202-258 | so in that composed system PLACED or SHIPPED means each service's row was inserted once and never flipped; at CANCELLED each is absent, or was inserted once and flipped once, if and only if the service never completed the step or its row is SUCCEEDED, and with honest failures that is so for all four |
| `Composed.SystemOutcome` | services/coordinator/src/saga.ts:146-258 | and in a composed run without manual retries that gives steps up only after deciding answers, the status and every service's committed row of an ended order are what (failAt, compFailAt) say |
| `SagaSchedules.ScheduleIndependence` | services/coordinator/src/saga.ts:146-258 | with injected faults only, enough stock, no manual retry, and every step given up only after an answer other than the 409 of a twin in flight or the 500 of a failed statement, every completed run ends in the status Ending computes from (failAt, compFailAt) alone |
| `SagaOutcomes.EffectsIndependence` | services/coordinator/src/saga.ts:146-258 | and leaves the effects those columns say: all four committed, or else the failing step never, the step whose undo is faulty still, every other one undone once |
| `DishonestFailure.BusyAnswersCancel` | packages/shared/src/errors.ts:63-73 | why the answer must decide: with no faults and a 409 at every step's last attempt the order ends CANCELLED, and charged, where the fault columns say PLACED |
| `SagaProgress.EveryOrderEnds` | services/coordinator/src/saga.ts:202-274 | every run takes at most Rank(start) coordinator steps, crashes included, and ClaimRank(attempts) more for each manual retry; a coordinator that cannot move has reached PLACED, SHIPPED, CANCELLED or NEEDS_ATTENTION |
| `SagaProgress.RankFalls` | packages/shared/src/retry.ts:84-126 | every coordinator step lowers the lexicographic rank (crashes left; phase, unresolved steps, attempts left); requests, answers that nobody hears and shipping never raise it: only a manual retry does |
| `SagaProgress.RetryPays` | services/coordinator/src/queries.ts:130-164 | a manual retry raises it by at most the rank of one fresh pass over the order |
| `SagaProgress.NotStuck` | services/coordinator/src/saga.ts:202-258 | an order that has not ended always leaves its coordinator a next step other than crashing |
| `SagaProgress.NoForwardCallAgain` | services/coordinator/src/saga.ts:211-228 | in every reachable state a forward request is sent, for the first time or again, only while IN_PROGRESS and for a step not recorded SUCCEEDED: recovery skips finished steps, a run resumed in COMPENSATING calls nothing forward |
| `SagaProgress.SendsExact` | services/coordinator/src/saga.ts:76-98 | what counts as sending is every way of sending: a sent request is on the wire afterwards and nothing else puts one there |
| `SagaCalls.AttemptExact` | services/coordinator/src/saga.ts:64-108 | in every reachable state an attempt succeeds exactly when it is answered, no injected fault fires and there is stock, and then the step is committed; another follows exactly when it ended in a retryable loss, a 409, a 500 or an injected fault and attempts are left; a refusal for lack of stock ends the call at once and changes nothing else |
| `SagaCalls.NoStockNoOrder` | services/inventory/src/index.ts:33-41 | over every run in which the inventory service has no stock for the order whenever it is asked, nothing is reserved, the order is never PLACED or SHIPPED, and where it ends it is CANCELLED or NEEDS_ATTENTION |
| `SagaCalls.RowsShowCalls` | services/coordinator/src/repository.ts:169-219 | over every run the rows of a phase show its calls: PENDING before a call, RUNNING during it, then SUCCEEDED or FAILED as it ended; an undo row recorded SUCCEEDED earlier stays that until the new result |
| `SagaCalls.EndedStays` | services/coordinator/src/saga.ts:202-274 | in every reachable state CANCELLED and SHIPPED are final, PLACED is left only by shipping, NEEDS_ATTENTION only by a manual retry, PENDING only by a claim |
| `SagaCalls.RetryClears` | services/coordinator/src/saga.ts:267-274 | after a manual retry whose attempts are answered the order stays COMPENSATING until the run is over and is then CANCELLED, whatever compFailAt says |
| `SagaCoordinator.Coordinator.InsertSteps` | services/coordinator/src/repository.ts:169-192 | the upsert creates or re-arms the phase rows and leaves SUCCEEDED alone |
| `SagaCoordinator.Coordinator.SelectNeeded` | services/coordinator/src/repository.ts:258-268 | the undos of exactly the forward rows recorded SUCCEEDED |
| `SagaCoordinator.Coordinator.SelectPending` | services/coordinator/src/saga.ts:225-226 | the forward steps whose rows are not SUCCEEDED |
| `SagaCoordinator.Coordinator.Handle` | packages/shared/src/service.ts:104-119 | fault injection is decided before the idempotency lookup; then the replay, which changes nothing, the 422 of a first reservation without stock, which changes nothing, or the gated effect |
| `SagaCoordinator.Coordinator.RunConcurrently` | services/coordinator/src/saga.ts:123-140 | whatever order the calls of a phase advance in, the state is the one the machine reaches by those events, and the method returns true exactly when every call has settled |
| `SagaCoordinator.Coordinator.MarkSkipped` | services/coordinator/src/saga.ts:160-163 | before any undo starts, every undo row that nobody needs is SKIPPED |
| `SagaCoordinator.Coordinator.Compensate` | services/coordinator/src/saga.ts:146-182 | compensate() is a run of the machine from reading the needed set to the ending it returns |
| `SagaCoordinator.Coordinator.SetCompensating` | services/coordinator/src/saga.ts:242-244 | COMPENSATING is written before the needed set is read |
| `SagaCoordinator.Coordinator.RunSaga` | services/coordinator/src/saga.ts:202-274 | runSaga and retryCompensation refine the machine, stop short of an ending only on a crash or in a phase still waiting, a returned PLACED or CANCELLED carries the atomicity theorem, and PLACED is never returned for an order without stock |
| `ExactlyOnce.AtMostOnceEffect` | packages/shared/src/idempotency.ts:117-176 | with no timing assumption, claims taken over or deleted under live owners included: an order has at most one insert and one flip, the flip after the insert, and its row shows exactly which happened |
| `ExactlyOnce.ExactlyOnceWithReplay` | packages/shared/src/idempotency.ts:86-182 | owners taken over only when dead: the work of a key commits at most once and every successful return carries that one committed, recorded result |
| `ExactlyOnce.CompletedForever` | packages/shared/src/idempotency.ts:86-182 | under the same hypothesis a COMPLETED record holds the same response at every later point |
| `ClaimTiming.ClaimMade` | packages/shared/src/idempotency.ts:90-132 | a claim is made only on a free key, or in place of one older than the claiming caller's limit, and carries the time it is made |
| `ClaimTiming.CallFinds` | packages/shared/src/idempotency.ts:90-132 | a call that comes to a key claims it when it is free, replays when it is completed, takes it over when its claim is older than the limit, and is otherwise answered 409 with the tables as they were |
| `ClaimTiming.FailedCallFrees` | packages/shared/src/idempotency.ts:158-178 | after a failed call's rollback and release the next call of the key claims it at once |
| `ClaimTiming.TimelyIsClean` | packages/shared/src/idempotency.ts:117-131 | over every run in which calls end before their claims are old enough to be taken over, claims are taken over from ended callers only, which is the hypothesis of the exactly-once theorems |
| `ClaimTiming.ClaimStands` | packages/shared/src/idempotency.ts:90-157 | under that hypothesis a claim stands as it was made for as long as its caller is at work on it |
| `LiveOwner.LiveOwnerOverwrites` | packages/shared/src/idempotency.ts:140-145 | a concrete run in which a live superseded owner changes a COMPLETED record after its response was returned |
| `LiveOwner.OverwrittenExactly` | packages/shared/src/idempotency.ts:140-176 | in any state, a COMPLETED record is never removed, and its response changes exactly when another owner of the key commits a different one |
| `LiveOwner.StaleExactly` | packages/shared/src/idempotency.ts:149-157 | in any state, a cache entry goes stale exactly when another owner commits a response it does not hold, or a caller stores one that the record does not hold |
| `LiveOwner.StaleHit` | packages/shared/src/idempotency.ts:77-84 | in that run a third caller is then answered from the cache with a response the record no longer holds |
| `CacheRefinement.CachedIsCommitted` | packages/shared/src/idempotency.ts:149-157 | every cached value is the committed response of a COMPLETED record |
| `CacheRefinement.HitRefines` | packages/shared/src/idempotency.ts:81-84 | a cache hit is the answer the four database steps would have produced |
| `CacheRefinement.CacheRefines` | packages/shared/src/idempotency.ts:81-157 | every run with a cache that drops, misses and refuses at will has a cacheless run to the same tables and the same replies, replayed flags included |
| `AtomicService.AtomicExactly` | packages/shared/src/idempotency.ts:135-157 | at any isolation level a reachable step is invisible or one atomic first execution of one request, if and only if it does not commit an undo answer that a concurrent insert made wrong |
| `AtomicService.ServiceIsAtomic` | packages/shared/src/idempotency.ts:135-157 | at the default isolation level every reachable step is invisible or one atomic first execution |
| `Phantom.PhantomUndo` | services/payment/src/index.ts:49-54 | without gap locks: a run in which an undo finds no row, the row is inserted, and the undo commits that nothing changed |
| `ServiceRefinement.ExecuteMatches` | packages/shared/src/service.ts:104-119 | a first execution in the service is an accepted request of the saga machine, with the same done steps, row and effect counts |
| `ServiceRefinement.AnswerExact` | packages/shared/src/service.ts:104-119 | the saga machine accepts a request exactly when the service has its answer recorded or the handler would not throw, and a repeat changes nothing |
| `ServiceRefinement.ServiceRefines` | packages/shared/src/idempotency.ts:59-183 | for every run of the concurrent service there are requests with which the saga machine's service comes to match its committed tables, for every order and step |
| `ServiceRefinement.ReplyMatches` | packages/shared/src/idempotency.ts:86-182 | every successful reply of the concurrent service is for a step that is done in the saga machine |
| `IdempotentService.Service.RunHandler` | services/payment/src/index.ts:27-60 | the forward insert throws on the UNIQUE order id, the guarded undo reports whether it flipped the row |
| `IdempotentService.Service.Claim` | packages/shared/src/idempotency.ts:90-132 | phase 1 ends with a replay, with the key claimed because it was free or its claim older than the limit, or, if no statement failed, with a 409 because it is neither |
| `IdempotentService.Service.TakeOverStale` | packages/shared/src/idempotency.ts:117-131 | the UPDATE takes the claim exactly when there is one older than the limit, and otherwise changes nothing |
| `IdempotentService.Service.DoWork` | packages/shared/src/idempotency.ts:138-157 | inside the transaction: the handler, then the completion record, or on the way to rollback |
| `IdempotentService.Service.Finish` | packages/shared/src/idempotency.ts:149-157 | COMMIT first, the cache only afterwards |
| `IdempotentService.Service.Transact` | packages/shared/src/idempotency.ts:135-157 | phase 2 ends committed, rolling back, or cut off, never in between |
| `IdempotentService.Service.CleanUp` | packages/shared/src/idempotency.ts:158-178 | rollback and release are attempted before the error is rethrown, and unless a statement failed the key is then free or completed |
| `IdempotentService.Service.RunIdempotent` | packages/shared/src/idempotency.ts:59-183 | every execution of the procedure, under any interference and faults, is a run of the machine ending where its outcome says; in clean runs an Ok outcome is the one committed result |
| `LeaseSafety.PickExact` | services/coordinator/src/repository.ts:80-88 | the claim query returns at most batchSize unlocked rows in id order, each PENDING, or IN_PROGRESS or COMPENSATING with an expired lease, and passes such a row over only when the limit was filled before it |
| `LeaseSafety.DisjointClaims` | services/coordinator/src/repository.ts:73-107 | overlapping claim transactions hold disjoint, still claimable ids, and every other write to such a row waits |
| `LeaseSafety.LeaseBegins` | services/coordinator/src/repository.ts:95-134 | a claim, a winning retry and the owner's heartbeat each hold the order for a full lease time |
| `LeaseSafety.LeaseHolds` | services/coordinator/src/repository.ts:95-134 | an order held until a time stays held, and in nobody else's claim, throughout every run that has not passed it and in which the holder writes no final status, whatever other instances try to write |
| `LeaseSafety.DeadOrdersResume` | services/coordinator/src/repository.ts:60-107 | in every reachable state, once a lease time has passed without renewals, any instance's claim takes every unlocked PENDING, IN_PROGRESS or COMPENSATING order within its limit and resumes it in the phase its status says |
| `LeaseSafety.Fenced` | services/coordinator/src/repository.ts:121-158 | from losing an order until claiming or retrying it again an instance does not own it, and none of its heartbeats and status writes changes the row |
| `LeaseSafety.Coupling` | services/coordinator/src/repository.ts:95-158 | IN_PROGRESS and COMPENSATING rows, and only those, have an owner and an expiry; so CANCELLED and SHIPPED rows never change, PLACED is left only by markShipped, NEEDS_ATTENTION only by a winning claimForRetry, PENDING only by a claim |
| `LeaseSafety.OneRetryPerEpisode` | services/coordinator/src/queries.ts:130-164 | each NEEDS_ATTENTION episode is ended by exactly one winning retry |
| `LeaseSafety.ShippedOnce` | services/coordinator/src/queries.ts:171-178 | over every run an order is SHIPPED exactly when one markShipped has answered true, and no two ever do |
| `Lifecycle.EdgeExact` | services/coordinator/src/repository.ts:140-158 | a step leaves the lifecycle exactly when a write that passes the fence does not belong to the status: PLACED while COMPENSATING, or an ending while IN_PROGRESS |
| `Lifecycle.PathExact` | services/coordinator/src/repository.ts:95-158 | for every run, zombies included, an order's status history is a path of the lifecycle if and only if no write was misplaced in that way |
| `Lifecycle.HistoryIsPath` | services/coordinator/src/repository.ts:95-158 | with one live run per instance and order nothing is misplaced, so every history is a path |
| `Lifecycle.NeverForwardAgain` | services/coordinator/src/saga.ts:211-248 | once COMPENSATING, an order whose writes are well placed never returns to IN_PROGRESS or PLACED |
| `Lifecycle.ZombiePlacesCompensatingOrder` | services/coordinator/src/queries.ts:136-143 | a misplaced write in a concrete run: a retry on the instance of a stalled run lets that run place the order, since the token is per process |
| `OrdersTable.Table.SelectClaimable` | services/coordinator/src/repository.ts:80-89 | the scan computes the picked ids |
| `OrdersTable.Table.StampRows` | services/coordinator/src/repository.ts:95-103 | exactly the picked rows are stamped, COMPENSATING kept |
| `OrdersTable.Table.ClaimBatch` | services/coordinator/src/repository.ts:73-107 | claimBatch returns the picked orders with their old statuses and leases exactly those: each was abandoned and unlocked, is now owned until now + ttl, and keeps COMPENSATING; an abandoned one stays behind only when the batch is full |
| `OrdersTable.Table.RenewLease` | services/coordinator/src/repository.ts:121-134 | true iff the caller still owns the order; only the expiry moves |
| `OrdersTable.Table.SetOrderStatus` | services/coordinator/src/repository.ts:140-158 | true iff the caller still owns the order; otherwise nothing changes |
| `OrdersTable.Table.RetryClaim` | services/coordinator/src/queries.ts:130-164 | wins iff the order is NEEDS_ATTENTION, and then re-owns it COMPENSATING |
| `OrdersTable.Table.Ship` | services/coordinator/src/queries.ts:171-178 | true iff the order was PLACED |
| `Inventory.Conservation` | services/inventory/src/index.ts:22-91 | over every history of first, repeated, spurious and refused requests that carry their order's sku and qty >= 0: available + reserved is constant per SKU, both stay non-negative, reserved is the sum over active reservations |
| `Inventory.ReserveExact` | services/inventory/src/index.ts:29-48 | a reserve is granted iff the SKU has that much left, the last unit included, and the order has no reservation; it keeps the tables balanced iff refused or qty >= 0 |
| `Inventory.ReleaseExact` | services/inventory/src/index.ts:70-87 | a release keeps the tables balanced iff it is a no-op or its request agrees with the reservation |
| `Inventory.ReleaseOnce` | services/inventory/src/index.ts:60-79 | a second release, with any quantity, changes nothing |
| `Inventory.MismatchInventsStock` | services/inventory/src/index.ts:81-87 | the request's quantity is used: releasing another amount than was reserved creates or destroys the difference |
| `Inventory.Inventory.Reserve` | services/inventory/src/index.ts:22-52 | check-and-decrement, then the insert; a refusal leaves the tables as they were |
| `Inventory.Inventory.Release` | services/inventory/src/index.ts:59-91 | the reservation row is the gate; stock moves only if it flipped |
| `Retry.CapDoubles` | packages/shared/src/retry.ts:58-66 | the cap is the base at first and doubles with every attempt, up to the maximum |
| `Retry.BackoffDelay` | packages/shared/src/retry.ts:58-66 | full jitter: the random share of the cap, rounded down, so between 0 and the cap with both ends reachable |
| `Retry.WithRetry` | packages/shared/src/retry.ts:68-130 | for every work, callback and limit the last attempt, every report, each wait as the random share of its own attempt's cap, and the result or thrown error are determined, errors thrown by the callback included; total sleep at most (n-1)*max and base*(2^(n-1)-1) |
| `Retry.TryOnce` | packages/shared/src/retry.ts:84-126 | one attempt: its reports, whether another follows, and how the call ends otherwise |
| `Retry.SettlesExact` | packages/shared/src/retry.ts:84-126 | the call returns exactly when the last attempt's work and success report both go well; otherwise it throws the latest error of work, success report and failure report |
| `Retry.RunsAgain` | packages/shared/src/retry.ts:84-126 | work that succeeded is run again exactly when the callback throws a retryable error at the success report, attempts are left and the failure report does not throw |
| `Retry.SuccessRunsTwice` | packages/shared/src/retry.ts:84-126 | such a call: two successes and a failure reported |
| `Retry.QuietCall` | packages/shared/src/retry.ts:84-126 | with a callback that never throws the call stops at the first success, non-retryable error or exhausted limit, with one report an attempt |
| `Retry.ReportShape` | packages/shared/src/retry.ts:84-126 | the trace is attempts 1..n, all but the last failed and retried, the last not retried and SUCCEEDED iff its work was, TIMEOUT iff the error was one |
| `Retry.SleepBound` | packages/shared/src/retry.ts:58-66 | n waits sleep at most n*max and at most base*(2^n - 1) |
| `Notifier.ExactlyOnce` | services/notification/src/notifier.ts:107-135 | over every interleaving of every instance's jobs, finished or not: one row per order, attempts 1 iff SENT and 0 otherwise, SENT rows never change, at most one CLAIMED to SENT step |
| `Notifier.OneWinner` | services/notification/src/notifier.ts:107-114 | of all claims of one order in a run exactly one wins |
| `Notifier.RowExact` | services/notification/src/notifier.ts:79-135 | a row changes hands only in a reclaim that chose it when its claim was older than the threshold, and becomes SENT exactly when its holder sends it |
| `Notifier.ClaimHeld` | services/notification/src/notifier.ts:79-135 | over every run, until a claim is as old as the reclaim threshold nobody else holds it and nobody else sends it |
| `Notifier.StaleSeconds` | services/notification/src/notifier.ts:80 | the staleness threshold is staleMs rounded up to whole seconds, at least one |
| `NotifierJob.ReclaimSelects` | services/notification/src/notifier.ts:82-98 | the follow-up SELECT may return other rows than were just reclaimed, but at least as many |
| `NotifierJob.Notifications.ReclaimStale` | services/notification/src/notifier.ts:79-99 | under any interference what is returned is the caller's to send; undisturbed, at least min(batchSize, stale) rows |
| `NotifierJob.Notifications.ClaimAll` | services/notification/src/notifier.ts:159-167 | after the claim loop every fetched order has a row |
| `NotifierJob.Notifications.SendAll` | services/notification/src/notifier.ts:170-178 | `failed` is the number of sends without an answer, the rest go on; `sent` counts different orders that became SENT in this instance's hands; undisturbed, everything held becomes SENT |
| `NotifierJob.Notifications.RunNotificationJob` | services/notification/src/notifier.ts:137-182 | counters add up, every fetched order has a row, `failed` counts the unanswered sends and `sent` orders this job delivered, and an undisturbed job shrinks the backlog by everything it reclaimed and sends every order it claimed first |
| `NotifierJob.Notifications.Sweep` | services/notification/src/notifier.ts:137-182 | repeated undisturbed jobs of any instances take a full batch off the backlog each |
| `NotifierJob.Notifications.WaitAndRun` | services/notification/src/notifier.ts:137-182 | one such job, begun when every claim has gone stale, takes a full batch off the backlog |
| `NotifierJob.BoundedSweeps` | services/notification/src/notifier.ts:159-178 | so ceil(backlog / batchSize) sweeps empty it |
| `ShippedToSent.NotifyShipped` | services/notification/src/notifier.ts:137-182 | a job that fetches while orders keep shipping, followed by enough undisturbed sweeps: every order SHIPPED when the fetch began is SENT, once, and no claim is left over |
| `Paging.ServedSize` | services/coordinator/src/api.ts:80 | the served page size is the requested one within 1..200, 25 for zero, and otherwise the nearer bound |
| `Paging.ListOrders` | services/coordinator/src/queries.ts:41-63 | count, then one page at the computed offset |
| `Paging.FetchShippedOrderIds` | services/notification/src/notifier.ts:54-71 | the loop terminates for every requested integer and returns pages 1, 2, ... up to the first that covers the count or brings nothing |
| `Paging.ShippedExact` | services/coordinator/src/queries.ts:47-63 | the list is exactly the SHIPPED orders, each once, newest first |
| `Paging.FetchComplete` | services/notification/src/notifier.ts:54-71 | on a fixed snapshot every SHIPPED order is returned exactly once, in order, for every requested page size |
| `Paging.FetchedExactly` | services/notification/src/notifier.ts:54-71 | while orders ship at any moment of the fetch, one that was SHIPPED when it began is returned if and only if some requested page reaches its place in the list that request reads |
| `Paging.NeverMissed` | services/notification/src/notifier.ts:54-71 | so none is missed, whatever ships meanwhile and for every requested page size, when each request counts and lists the same table |
| `Paging.GapMisses` | services/coordinator/src/queries.ts:47-63 | when the count fits the first page, an order is missed exactly when newer ones shipping between that count and the list push it off the page |
| `Paging.GapRun` | services/coordinator/src/queries.ts:47-63 | such a fetch |
| `Ingest.FirstOccurrenceWins` | services/coordinator/src/ingest.ts:58-63 | INSERT IGNORE adds exactly the first occurrence of every new key, in file order |
| `Ingest.MergeAppend` | services/coordinator/src/ingest.ts:58-63 | two batches in a row do what one batch of both would |
| `Ingest.MergeRecords` | services/coordinator/src/ingest.ts:55-106 | merging a file adds, for each key the table did not have, the record of the first line with that key, column by column, fail_at and comp_fail_at NULL exactly when empty; every key of the file is in the table afterwards |
| `Ingest.ReloadIsNoOp` | services/coordinator/src/ingest.ts:55-63 | loading a file again, under any batch id, changes nothing |
| `Ingest.ResumeAfterCrash` | services/coordinator/src/ingest.ts:20-21 | loading a file again after a load that stopped anywhere adds just the rest |
| `Ingest.InterleavedLoad` | services/coordinator/src/ingest.ts:55-65 | however loaders interleave, the table is the merge of all their rows in commit order, keys stay unique, and the affectedRows add up to what was added |
| `Ingest.InserterIsFirst` | services/coordinator/src/ingest.ts:55-65 | a statement adds a key exactly when the table started without it and the statement is the first of any loader to carry it |
| `Ingest.OneInserter` | services/coordinator/src/ingest.ts:55-65 | of all statements of all loaders that carry a new key, one adds it and no other does |
| `Ingest.NoInserter` | services/coordinator/src/ingest.ts:55-65 | a key that was there, or that nobody carries, is added by none |
| `Ingest.LoadedAlone` | services/coordinator/src/ingest.ts:49-66 | flushes that nobody else joins leave the first-occurrence merge of their rows and are credited with every row added |
| `Ingest.Orders.InsertAll` | services/coordinator/src/ingest.ts:58-63 | the multi-row statement is the row-by-row merge |
| `Ingest.Orders.FlushBatch` | services/coordinator/src/ingest.ts:49-66 | an empty buffer costs nothing; otherwise the count is the rows added |
| `Ingest.Orders.IngestOrders` | services/coordinator/src/ingest.ts:68-121 | every line of the file is flushed once and in order among other loaders' statements, each column as in the file, in batches of max(1, batchSize) but for the last, and the buffer never exceeds that; the counts are those of our own, rowsInserted + rowsSkipped = rowsRead; alone, for every batch size, the table is the first-occurrence merge of the file, each added row the record of the first line with its key, and rowsInserted what it added |
| `Worker.MapWithConcurrency` | services/coordinator/src/worker.ts:33-46 | under every scheduling each item is handled exactly once with at most limit in flight; a limit below one handles nothing |

## Left out

- Express routing, fetch, the MySQL and Redis clients, pooling, signals, logging and env parsing: only statement atomicity, commit and rollback, and a cache that may fail to a miss are kept.
- Row locks other than those stated in `Idempotency`, `AtomicService` and `Leases`, deadlocks and lock timeouts: a failing statement is an action, whatever its cause.
- Bookkeeping writes of the coordinator that fail while it lives on (a step row or an attempt row): modelled as a crash at that statement.
- Audit columns and tables (`attempts`, `attempt_count`, `last_error`, timestamps, `saga_step_attempts`), `getOrderDetail` and `getStats`: they only project or count.
- The coordinator's machine with several orders at once: orders do not share rows or keys, `Composed` serves others beside the one it follows, and claims of many are in `Leases`.
- Separate models of the order and shipping services: they have the payment service's shape, one row per order that is inserted and flipped.
- The stock check inside the saga machine: whether there is stock is a free choice at every request there, what a refusal leads to is in `SagaCalls`, the quantities are in `Inventory`.
- Superseded runs together with the concurrent services: `Superseded` uses the atomic services of the saga machine, `Composed` one live run.
- Collation and fractional or non-numeric quantities in `Inventory`: order ids and SKUs stand for their collation classes, and qty is an integer.
- `services/inventory/src/seed.ts`: an administrative reset that breaks conservation on purpose; histories start after it.
- CSV parsing and DECIMAL strings: ingestion starts from parsed rows, with the collation as an arbitrary key function.
- Network error classification in `packages/shared/src/errors.ts`: retryability is an arbitrary predicate, or a free choice per lost attempt.
- Wall-clock time and cron: the clocks are logical and only move forward, jobs may start at any time.
- Floating point in `backoffDelay`: the cap is an exact integer and the jitter a real, so overflow of 2 ** (attempt - 1) beyond double precision is not modelled.
- The polling loop of `startWorker` and graceful stop: claiming and the bounded map it alternates are modelled, the endless loop around them is not.
- Requests whose page or page size is not an integer, and fetches that fail half-way: a failed fetch is a job without a list.
- The Angular app under `web/`: user interface.
