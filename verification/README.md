# FlashCart, modelled and verified in Dafny

FlashCart is an e-commerce backend in which many requests share a few stores: Postgres tables, Redis
keys and one Go channel. This project models the operations whose correctness depends on that
sharing, and proves what they guarantee over every interleaving, and where they guarantee less
than they seem to.

Run `dafny verify dfyconfig.toml` to verify everything.

## How the model is built

Every protocol is a state machine: the contents of its stores, the local variables of every call in flight, and a
total function `Step(state, action)` in which one SQL or Redis statement is one action. An action that is not
possible leaves the state as it is. `Exec` runs a sequence of actions, so a theorem about `Exec(s, run)` for all
`run` holds for every number of calls and every interleaving. A statement that the store does not answer is the
same action with `ok` false.

The services themselves are classes whose fields are the stores. Their methods are written like the Go methods,
statement by statement, with loops where the Go code loops. Between two statements everybody else runs: what they do is
a parameter (`others`, a `Turn` or a `Schedule`), and `Yield` applies it. Each method is proved to be exactly the
steps of one call of the state machine and to return what that call came to, so the theorems about runs hold of the methods.

| file | what it models |
|---|---|
| `Inventory.dfy`, `Checkout.dfy`, `CheckoutTheorems.dfy`, `CheckoutService.dfy` | checkout with optimistic locking: rows with versions, the reservation protocol, its ledgers, its theorems, the service |
| `CheckoutOverlaps.dfy`, `CheckoutCounts.dfy` | checkouts of one user that overlap; how often a cart is ordered over whole runs |
| `Orders.dfy`, `Cancellation.dfy`, `CancellationService.dfy` | orders; cancelling them and dispatching the restore jobs |
| `WorkerPool.dfy` | the bounded queue, the workers, retries with backoff, shutdown |
| `Payments.dfy` | charging with idempotency keys |
| `RateLimit.dfy` | the counter per route and client in Redis |
| `Products.dfy`, `ProductCache.dfy` | the products table and the read-through cache around it |
| `Like.dfy`, `ProductQuery.dfy` | the compiler from product filters to SQL, the search pattern, pagination |
| `Coupons.dfy` | coupon limits and their use records |
| `Cart.dfy` | the cart as a list that stands for a map |
| `Basics.dfy` | identifiers, options, results and sums |

Money is `real`, quantities are unbounded integers, and times are `real`. IDs that the program draws with
`uuid.New` are fresh: the ID of an order or a payment is the number of the request that made it.

## Where the code and its documentation differ

The model follows the code.

- The repository's README.md:98-112 describes checkout as one transaction. Reservations run through the connection pool and commit
  one by one (internal/inventory/repository_pg.go:62), so a checkout that fails keeps what it has reserved.
  `AllOrNothingExactlyWhen`, `AbortedStockIsNeverReturned` and `LeakIsReachable` say when and show how.
- internal/middleware/rate_limit.go:15 speaks of a sliding window. The code has a fixed window that starts with the
  first request: `TwiceTheLimitIsNeverReached` and `TheBoundIsAttained` give its exact bound, and
  `SlidingExactlyWhenTheLimitIsOne` says for which limits the comment holds.
- The result of the EXPIRE is ignored (internal/middleware/rate_limit.go:52). When it is lost, the key stays shut after
  the limit is reached: `LostExpireLocksOut`.
- internal/payment/service.go:34 calls Charge safe to retry. It is, for requests whose keys agree with their orders
  and users: `OwnPaymentsExactlyWhenKeysAgree`. A payment that is replayed is returned without an error, whatever its
  status, and the error of the last status update is ignored: `LostUpdateLeavesThePaymentPending`.
- internal/order/service.go:140-142 promises to guard against cancelling shipped and cancelled orders and to restore
  inventory. The guard looks at what was read, the UPDATE does not: `ShippedStaysExactlyWhen` and
  `RestoredOnceExactlyWhen` say exactly when the promises hold. The restore jobs only write a log line
  (internal/worker/jobs.go:91-97).
- The cart is read when a checkout arrives and cleared when it ends, and the error of the clear is ignored
  (internal/order/service.go:42 and 109). So a cart can be ordered twice, by checkouts that overlap, if stock allows
  (`BothOrderExactlyWhenAllFitTwice`), or by a later one when the clear was lost: `CartsAreOrderedOnceExactlyWhen`. And
  a cart saved while a checkout runs is dropped by its clear: `ClearDropsOnlyItsOwnExactlyWhen`.
- Neither internal/order/repository_pg.go:81-87 nor internal/product/repository_pg.go:126-134 asks whether the stream
  of rows ended early. An order read over a broken connection lacks lines (`BatchesAreTheOrders`,
  `BrokenStreamRestoresLess`), and a page of products is cut short (`ProductRepository.List`).
- The search filter is used as a pattern (internal/product/repository_pg.go:86-87). It finds what a reader
  expects for exactly the texts without `%`, `_` and `\`: `SearchIsContainsExactlyWhenPlain`.
- Pages are ordered by creation time alone (internal/product/repository_pg.go:113). They fit together exactly when no
  two matches share a creation time: `PagesTileExactlyWhenTimesAreDistinct`.

## Model

| member | source | states |
|---|---|---|
| CheckoutTheorems.NothingIsOversold | internal/order/service.go:53-106 | In every run of any number of requests: the stock supplied of a product is its row's quantity plus what running, ordered and aborted checkouts have reserved; no part is negative, the reserved column stays 0, and orders never hold more reserved stock than was supplied. |
| CheckoutTheorems.LedgersAlwaysAgree | internal/inventory/repository_pg.go:56-85 | In every run, the quantity that a request's lines hold of a product is the sum of the reservations committed in its name, so each line marked as reserved is backed by one. |
| CheckoutTheorems.VersionCountsWrites | internal/inventory/repository_pg.go:41-61 | Over any run, a row's version grows by the number of committed writes of that row, and without one the row is unchanged: the version determines the contents. |
| CheckoutTheorems.ReservationLosesExactlyToAnotherWrite | internal/inventory/repository_pg.go:57-65 | After a read that found enough stock, and whatever others do next, the UPDATE takes the stock if and only if nobody committed a write of that row in between. |
| CheckoutTheorems.LosersFindAnotherVersion | internal/inventory/repository_pg.go:67-82 | A reservation that lost always finds the row, with another version, however late it looks again: the last fall-through is never reached with the version unchanged. |
| CheckoutTheorems.LosersAreToldWhy | internal/inventory/repository_pg.go:67-82 | In every run, a reservation that lost to another write reports a lock conflict if and only if the second read finds enough stock for its line, insufficient stock if and only if it finds too little, and a failed statement if and only if that read is not answered; never a missing row. |
| CheckoutTheorems.OneWinnerPerVersion | internal/inventory/repository_pg.go:57-61 | Of all reservations that read the same version of a row, at most one ever commits. |
| CheckoutTheorems.ReservationsAreSerializable | internal/inventory/repository_pg.go:57-61 | Without a restock, the reservations that committed in a concurrent run all succeed when replayed alone, in commit order and in any other order, with the same final quantity and version. |
| Inventory.ReplayedSum | internal/inventory/repository_pg.go:57-61 | Reservations run alone succeed exactly when their sum fits into the available stock, and then subtract that sum and raise the version by their number. |
| CheckoutTheorems.OrdersCarryTheirCart | internal/order/service.go:51-106 | Every order, as stored by checkout, is PENDING and has one item per line of the cart it was made from, and its total is the cart's total, discounted as the coupon says for a percentage strictly between 0 and 100; it lies between 0 and the cart's total, so the clamp never acts. |
| CheckoutTheorems.DiscountStaysInRange | internal/domain/coupon.go:46-49 | The discount applied at checkout is the coupon's own for percentages strictly between 0 and 100, none otherwise, and the result lies between 0 and the undiscounted amount. |
| CheckoutTheorems.AllOrNothingExactlyWhen | internal/order/service.go:53-67 | A checkout that runs alone goes through exactly when every line fits; it fails without touching the stock exactly when the first line that has a stock row is the one that does not fit. |
| CheckoutTheorems.AbortedStockIsNeverReturned | internal/order/service.go:63-65 | Over any run, the stock held by aborted checkouts never shrinks. |
| CheckoutTheorems.LeakIsReachable | internal/order/service.go:60-65 | From a reachable state, a two-line checkout fails at the second line and leaves the unit of the first reserved for no order. |
| CheckoutTheorems.ShelfIsReachable | internal/inventory/repository_pg.go:41-53 | The state from which the leak starts is reached from the empty stores by two SetStock calls and one saved cart. |
| CheckoutService.Store.SetStock | internal/inventory/repository_pg.go:41-53 | The upsert sets the quantity, raises the version by one, keeps the reserved column, creates the row with nothing reserved, and is refused for a negative quantity; it is the SetStock step of the machine. |
| CheckoutService.Store.UpdateRow | internal/inventory/repository_pg.go:56-65 | The conditional UPDATE takes the quantity and raises the version, and nothing else, exactly when the row has the version and the available quantity asked for and no constraint is violated; it reports 1, 0 or an error accordingly. |
| CheckoutService.Store.ReserveStockWithOptimisticLock | internal/inventory/repository_pg.go:56-85 | With others running before each of its statements, the reservation is one or two statements of its request. A lost one says what its second read found: a lock conflict if and only if the available stock covers the line, insufficient stock if and only if it does not, not found if and only if there is no row. |
| CheckoutService.Store.ReserveLines | internal/order/service.go:48-80 | The loop over the cart is a run of the request's statements; it stops at the first line that fails, and otherwise yields the items and the total of all lines handled. |
| CheckoutService.Store.ApplyCoupon | internal/order/service.go:82-89 | For every total that is not negative, what is due is the coupon's own discounted amount when the percentage lies strictly between 0 and 100 and the total otherwise, and never leaves the range from 0 to the total: the clamp is dead. |
| CheckoutService.Store.CreateOrder | internal/order/repository_pg.go:22-53 | Whichever of begin, the row of the order, the rows of its items and commit fails first, no part of the order becomes visible; if none does, the whole order does. |
| CheckoutService.Store.CreateOrderFromCart | internal/order/service.go:41-109 | Whatever runs between its statements and whichever of them fail, the call is the statements of one request, keeps the invariant of the stores, and returns the order or the error this request came to: empty cart exactly when the read fails or finds no lines, and an order that carries line by line the cart that was read, with its discounted total. |
| CheckoutCounts.CartsAreOrderedOnceExactlyWhen | internal/order/service.go:42-109 | With at most k checkouts of a user under way at once, the user never has more orders than saved carts, in every run, if and only if k is 1 and every clear of the cart is answered. |
| CheckoutOverlaps.ArrivalOrdersExactlyWhenCartIsStored | internal/order/service.go:42-45 | A checkout that arrives can end in an order, in some continuation, if and only if the user has a cart stored when it arrives, whatever other checkouts of the user are under way. |
| CheckoutOverlaps.BothOrderExactlyWhenAllFitTwice | internal/order/service.go:53-106 | Two overlapping checkouts that go on one after the other, with every statement answered, both order the cart if and only if every line that has a stock row fits twice. |
| CheckoutOverlaps.LoneRunReserves | internal/inventory/repository_pg.go:57-61 | A checkout that runs alone, and whose lines fit, takes from each row exactly the quantity of its line, raises the version by one, and leaves the other rows alone. |
| CheckoutOverlaps.OverlappingCheckoutsOrderTheCartTwice | internal/order/service.go:55-58 | When stock reads fail, stock does not matter: from every state in which the user has a cart, there is a continuation with failing reads in which two overlapping checkouts both order it. |
| CheckoutOverlaps.ClearDropsOnlyItsOwnExactlyWhen | internal/order/service.go:42-109 | From a checkout that is reading stock, in every continuation in which nobody saves the user's cart: its clear drops nothing but the cart it orders, if and only if nothing else is stored already. |
| CheckoutOverlaps.UndisturbedCheckoutDropsOnlyItsOwn | internal/order/service.go:42-109 | From its arrival on, a checkout drops nothing but the cart it orders as long as nobody saves the user's cart while it runs. |
| CheckoutOverlaps.ClearDropsTheLastSave | internal/order/service.go:108-109 | In every run in which a checkout gets to its clear after the user's last save: what is stored then is that save, or nothing if another checkout has cleared it; the clear drops it, and the order is of the cart read before. |
| CheckoutOverlaps.SavedLinesCanBeLost | internal/order/service.go:108-109 | Whatever the user saves after a checkout has arrived, there is a continuation in which it is dropped, and the only new order is of the cart read before. |
| CheckoutService.ServedIsARun | internal/order/service.go:41-109 | The statements of a call together with what others do in between are a run of the machine, so every theorem about runs applies to the method. |
| Cancellation.ClosedIsAbsorbing | internal/order/service.go:154-161 | Over any run, an order that is cancelled or shipped stays one or the other, with its owner and its items. |
| Cancellation.AnswersAreDeserved | internal/order/service.go:143-161 | In every run, only a call for another user's order is refused as not owned, only a call for the user's own cancelled or shipped order as too late, and a call that got through leaves its user's order cancelled or shipped. |
| Cancellation.CancelledIsAbsorbing | internal/order/service.go:154-161 | Over any run in which nobody ships it, a cancelled order stays as it is. |
| Cancellation.ShippedStaysExactlyWhen | internal/order/service.go:144-161 | A shipped order stays shipped in every continuation if and only if no call of its owner has read it as cancellable and not yet updated it. |
| Cancellation.ShipmentIsOvertaken | internal/order/repository_pg.go:115-122 | A call that has passed the guards cancels an order that has been shipped since, and restores its stock, because the UPDATE does not look at the status. |
| Cancellation.BatchesAreTheOrders | internal/order/service.go:149-179 | In every run, each call restores at most once, only an order of its own user that is cancelled (or has been shipped since), and the batch consists of lines of that order: of all of them if and only if the stream of its rows did not break. |
| Cancellation.RestoresAreBounded | internal/order/service.go:143-182 | Once an order can no longer be cancelled, the batches still to come number at most the calls that read it before. |
| Cancellation.RestoresAreAttained | internal/order/service.go:143-182 | From every such state, a continuation dispatches that many. |
| Cancellation.RestoredOnceExactlyWhen | internal/order/service.go:143-182 | The stock of such an order is restored at most once in every continuation if and only if the batches dispatched so far and the calls that read it in time are not more than one together. |
| Cancellation.RestoresOfAWholeRun | internal/order/service.go:143-182 | Over whole runs, the batches of an order number at most the calls of its owner that had read it, and were under way, at its first cancellation or shipment, and that many can come. |
| Cancellation.NoRestoreBeforeCancellation | internal/order/service.go:159-179 | An order that can be cancelled, or that is not cancelled although nobody ships it, has never been restored. |
| Cancellation.SerialCancelsRestoreOnce | internal/order/service.go:143-182 | Cancellations one after the other restore an order exactly once, with exactly its lines, if its owner is among the callers, and otherwise change nothing. |
| Cancellation.DoubleRestoreIsReachable | internal/order/service.go:144-179 | Two overlapping cancellations by the owner dispatch two batches for one order. |
| Cancellation.BrokenStreamRestoresLess | internal/order/repository_pg.go:81-89 | When the stream of item rows breaks, the order is cancelled without an error and its items are not restored. |
| CancellationService.OrderService.CancelOrder | internal/order/service.go:143-182 | Whatever runs between its four statements and whichever of them fail, the call is the statements of one request. It refuses another user's order, then a shipped or cancelled one, by what it read; otherwise, with every statement answered, it returns the order as read with status CANCELLED and the lines that arrived. |
| CancellationService.OrderService.SelectItems | internal/order/repository_pg.go:71-89 | The row loop returns the rows that arrived, in order, and the guards on owner and status are applied to what was read. |
| WorkerPool.NoJobIsLost | internal/worker/pool.go:54-61 | In every run: accepted jobs are those queued, running, processed and dead-lettered, each dequeued ticket in exactly one of these places; jobs leave the queue in the order they were accepted; queue and workers keep to their bounds; the dispatched counter lags by exactly the dispatchers between send and increment. |
| WorkerPool.DrainTerminates | internal/worker/pool.go:65-81 | After the close, no schedule runs for longer than a measure over queued jobs, remaining attempts, live workers and pending increments. |
| WorkerPool.NobodyGetsStuck | internal/worker/pool.go:75-81 | In a closed pool where nothing more can happen, every worker has left. |
| WorkerPool.DrainedWhenWaitReturns | internal/worker/pool.go:65-72 | When the last of at least one worker has left, the queue is empty and every accepted job is processed or dead-lettered, exactly once. |
| WorkerPool.DrainsExactlyWithAWorker | internal/worker/pool.go:44-50 | The queue is empty when Wait returns, in every run, if and only if the pool was started with a worker or its channel holds nothing. |
| WorkerPool.NoWorkerIsLost | internal/worker/pool.go:75-81 | In every run, however many executions panic, all n workers are there, and none has left its loop unless the channel is closed and empty. |
| WorkerPool.ExecuteWithRetry | internal/worker/pool.go:85-118 | For any retry limit n: processed if and only if one of the first n attempts succeeds, after exactly as many attempts as the first success takes, otherwise n; the pauses add up to 100 * (2^(attempts-1) - 1) ms, at most 300 ms for n = 3. |
| WorkerPool.RetriesInThePool | internal/worker/pool.go:85-118 | In the pool, whatever else happens between the attempts: a job is processed if and only if one of its first n attempts returns, dead-lettered if n do not, and otherwise in its worker's hands before the next attempt. |
| WorkerPool.Pool.Dispatch | internal/worker/pool.go:54-61 | Under any interference, Dispatch drops the job, and counts it as dropped, if and only if no worker waits and the queue is full; otherwise the job is accepted, by a worker or in the queue, and counted once afterwards. |
| WorkerPool.Pool.Shutdown | internal/worker/pool.go:65-72 | Shutdown returns under every scheduling of workers and of dispatchers that have still to count a job, and under every outcome of the jobs, with all workers gone and every accepted job accounted for; a later call changes nothing. |
| Payments.ChargedAtMostOnce | internal/payment/service.go:51-104 | In every run, failed lookups included, a key has at most one payment row and at most one provider call; a row is CAPTURED or FAILED only as the provider call made for its key said. |
| Payments.SettledRowsStay | internal/payment/repository_pg.go:96-107 | Over any run, a row whose status is not PENDING never changes. |
| Payments.StepKeepsRows | internal/payment/repository_pg.go:24-37 | No step removes a row, and only the call that inserted a row changes it, from PENDING and only its status. |
| Payments.DefaultKeysAreInjective | internal/payment/service.go:42-44 | The key made of order and user identifies both. |
| Payments.KeysAreAsSent | internal/payment/service.go:42-51 | In every run, each row, each provider call and each returned payment carries the key its own caller sent, character by character, or order, hyphen and user when it sent none. |
| Payments.ClientKeysTellPaymentsApart | internal/payment/service.go:51-58 | Two calls that sent keys of their own are returned the same payment if and only if they sent the same text. |
| Payments.ReturnedPaymentIsTheFirstRequests | internal/payment/service.go:51-58 | A call returns the payment of the request that inserted the row of its key, which is in the table. |
| Payments.DefaultKeysReplayTheSamePayment | internal/payment/service.go:42-58 | With default keys only, every returned payment is for the caller's own order and user, and two calls get the same payment exactly when order and user agree. |
| Payments.OwnPaymentsExactlyWhenKeysAgree | internal/payment/service.go:42-58 | Among any set of requests, every call is returned a payment for its own order and user, in every run, if and only if requests that share a key, the client's or the default one, of at most the 255 characters that can be stored, share order and user. |
| Payments.SharedKeyReturnsTheFirstPayment | internal/payment/service.go:42-58 | For any two requests with the same key, of at most 255 characters, there is a run in which the second is returned the first one's payment, with one provider call in all. |
| Payments.UnsharedKeyReturnsTheOwnPayment | internal/payment/service.go:51-58 | A call whose key is shared only by calls for the same order and user is returned its own payment, whatever keys others use. |
| Payments.SamePaymentExactlyWhenSameKey | internal/payment/service.go:51-58 | Two calls are returned the same payment if and only if their keys are the same. |
| Payments.ClientKeyCanBeADefaultKey | internal/payment/service.go:42-44 | A client's key can be another request's default key, and that request is then returned the client's payment. |
| Payments.PendingForGoodExactlyWhen | internal/payment/service.go:85-104 | A pending payment stays pending in every continuation if and only if the call that made it has ended. |
| Payments.LostUpdateLeavesThePaymentPending | internal/payment/service.go:88-104 | Whatever the provider has answered, the payment is pending for good if and only if the status update after it is lost. |
| Payments.PaymentService.Create | internal/payment/repository_pg.go:24-37 | The insert succeeds exactly when the statement is answered, the key fits its column (internal/database/migrations.go:105) and is not taken; otherwise the table is unchanged. |
| Payments.PaymentService.GetByIdempotencyKey | internal/payment/repository_pg.go:77-94 | The position of the row with the key, if there is one and the statement is answered. |
| Payments.PaymentService.Charge | internal/payment/service.go:41-116 | Under any interference, Charge is the statements of one call. It replays exactly when an answered lookup finds a row with the key as sent (order, hyphen, user when none was sent); it creates nothing when the insert is unanswered, the key too long or taken; otherwise it returns a payment for its own order, user and key with the status the provider gave, and an error exactly when that declined. |
| RateLimit.TwiceTheLimitIsNeverReached | internal/middleware/rate_limit.go:39-79 | However the requests that Redis answers come, and however late EXPIREs land, at most 2 * maxRequests - 1 requests are let through in any half-open interval as long as the window. |
| RateLimit.TheBoundIsAttained | internal/middleware/rate_limit.go:39-79 | For every limit there is a sequence of requests that attains that bound. |
| RateLimit.SlidingExactlyWhenTheLimitIsOne | internal/middleware/rate_limit.go:15-24 | The limiter keeps every interval of one window's length to the limit, as a sliding window would, if and only if the limit is at most one. |
| RateLimit.CounterAdmitsTheLimit | internal/middleware/rate_limit.go:55-77 | In every run, the requests let through since the current counter started number the requests it has counted, up to the limit and no further. |
| RateLimit.QuietWindowResets | internal/middleware/rate_limit.go:50-53 | After a quiet window a request is let through, except exactly when the EXPIRE never landed and the counter is at its limit. |
| RateLimit.LostExpireLocksOut | internal/middleware/rate_limit.go:50-53 | If the EXPIRE is lost and the limit reached, no later request is ever let through. |
| RateLimit.CounterKeysAreInjective | internal/middleware/rate_limit.go:34-35 | Route names without a colon and client addresses do not share counters. |
| RateLimit.RealIP | internal/middleware/rate_limit.go:85-100 | The proxy header, else the real-IP header, else the remote address up to its last colon, or whole when it has none. |
| RateLimit.Counter.RateLimit | internal/middleware/rate_limit.go:25-82 | Without an answer from Redis the request is let through; with one, exactly when the events seen for the key admit it, with the remaining number in the header. |
| ProductCache.CacheIsInvisible | internal/product/repository_cache.go:29-73 | After any sequence of completed calls whose deletes succeed, with any expiries and failed fills, a call answers what the wrapped repository answers, except that a cached product can be read while the database does not answer. |
| ProductCache.LostDeleteIsHarmlessExactlyWhen | internal/product/repository_cache.go:66-73 | A lost delete goes unnoticed exactly when the product was not cached or the update left what readers see as it was. |
| ProductCache.StalenessIsBounded | internal/product/repository_cache.go:29-73 | In every timed interleaving, lost deletes included, an answer given at time t was the database's value at some instant between t - ttl - gap and t, where gap bounds the time from a reader's database read to its fill. |
| ProductCache.StalenessIsAttained | internal/product/repository_cache.go:29-73 | The bound is sharp even when nothing fails: an answer can be older than ttl + gap minus any positive amount. |
| ProductCache.FoundAsCreated | internal/product/repository_pg.go:23-54 | After an accepted Create, and calls whose deletes succeed and that do not update the product, an answered lookup finds the product exactly as it was given, or nothing if it is not active; with or without the cache. |
| ProductCache.FoundAsUpdated | internal/product/repository_pg.go:139-150 | After an accepted Update of a stored product, likewise: found with the new name, price, category and brand and with the stored SKU and creation time, or not found if the update made it inactive. |
| ProductCache.IdentityStays | internal/product/repository_pg.go:139-150 | Whatever is called, a stored product stays stored with its SKU and its creation time. |
| ProductCache.NeverCreatedIsNeverFound | internal/product/repository_cache.go:29-56 | From empty stores, an ID that no Create named is not found, whatever else was called. |
| ProductCache.CachedProductRepository.GetByID | internal/product/repository_cache.go:29-56 | A hit answers the cached copy; a miss answers the row if it is active, field by field, and caches nothing but that row; a failure answers an error. The cache stays coherent. |
| ProductCache.CachedProductRepository.Create | internal/product/repository_pg.go:23-36 | The insert is accepted exactly when it is answered, ID and SKU are new and the price is not negative; then the table gains that row and nothing else changes. |
| ProductCache.CachedProductRepository.Update | internal/product/repository_cache.go:66-73 | Exactly name, price, category, brand and active flag of the stored row change, exactly when the statement is accepted; the cached copy is deleted only after success, and the cache stays coherent when that delete succeeds. |
| ProductCache.SharedProduct.GetByID | internal/product/repository_cache.go:29-56 | A racing call is the steps of one reader; it fails only when its database read does, and otherwise its answer is at most ttl + gap old. |
| ProductQuery.BuildWhere | internal/product/repository_pg.go:56-91 | For every filter, every placeholder is bound to an argument of the right type, the condition never fails on any row, NULLs included, and holds for exactly the active rows that satisfy every condition of the filter; the next placeholder number is one more than the number of arguments. |
| ProductQuery.WantedMeans | internal/product/repository_pg.go:56-91 | What the condition asks of a row, column by column: active, the category if one is given, the brand unless empty, the price bounds inclusively, and a name that matches the pattern unless the search is empty. |
| ProductQuery.ProductRepository.SelectPage | internal/product/repository_pg.go:99-134 | For a condition compiled from the filter, the rows returned are the listing from min(offset, n) to min(offset + limit, n), cut off where the stream ends; it fails exactly when one of these rows cannot be scanned. |
| ProductQuery.ProductRepository.List | internal/product/repository_pg.go:56-137 | The total is the number of matches whatever limit and offset. With n matches, the products are the listing from min(offset, n) to min(offset + limit, n), the limit being 20 unless positive and the offset 0 if negative, cut off where the stream of rows ends, and never more than a positive limit; errors come exactly from the two statements and the row scan. |
| ProductQuery.ListedIsAListing | internal/product/repository_pg.go:93-115 | In whatever order a statement visits the rows, its result holds exactly the active products that meet the filter, each once, newest first, and their number is the number of matching IDs. |
| ProductQuery.ListingIsUnique | internal/product/repository_pg.go:113-113 | With distinct creation times there is exactly one such listing. |
| ProductQuery.PagesTileExactlyWhenTimesAreDistinct | internal/product/repository_pg.go:99-115 | Pages at offsets 0, L, 2L and so on, for every L, make up a listing however each statement breaks ties, if and only if no two matches were created at the same time. |
| Like.SearchIsContainsExactlyWhenPlain | internal/product/repository_pg.go:85-89 | The search finds exactly the names in which the text occurs, whatever the case, if and only if the text has no `%`, `_` or backslash. |
| Like.SpecialSearchFindsMore | internal/product/repository_pg.go:85-89 | For every other text, a name that the search finds although the text does not occur in it. |
| Like.PatternsMean | internal/product/repository_pg.go:86-88 | What a pattern matches: `%` any number of characters, `_` exactly one, a backslash makes the next character stand for itself, every other character stands for itself, and the empty pattern matches the empty text alone. |
| Coupons.CountMatchesRows | internal/coupon/repository_pg.go:51-77 | In every run, the count is the initial one plus the number of use rows, and no user has two. |
| Coupons.OverrunIsBounded | internal/coupon/service.go:32-79 | From a coupon with a limit and a count within it: if every RecordUse follows its own Validate and at most k clients are between the two at once, the count plus the clients in flight never exceeds max_uses + k - 1. |
| Coupons.OverrunIsAttained | internal/coupon/service.go:32-79 | For every limit and every k, k clients bring the count to max_uses + k - 1. |
| Coupons.LimitHoldsExactlyWhenOneAtATime | internal/coupon/service.go:30-79 | With at most k clients between Validate and RecordUse, the limit of every coupon that starts within it holds in every run if and only if k is 1. |
| Coupons.ValidatedClientSawAValidCoupon | internal/coupon/service.go:32-70 | In every run, a client whom Validate has said yes read an active coupon, not past its expiry at that time and below its limit, and after that found no use of it by its user. |
| Coupons.IsValid | internal/domain/coupon.go:32-43 | A coupon applies exactly while it is active, not past its expiry, and below its limit, where 0 is no limit; of several refusals, inactive comes before expired and expired before exhausted. |
| Coupons.ApplyDiscount | internal/domain/coupon.go:46-49 | The customer pays the complementary percentage. |
| Coupons.CouponService.Validate | internal/coupon/service.go:32-70 | Under any interference, Validate is two reads of one client and consumes nothing. It says yes, with the coupon's percentage, if and only if both reads are answered, the coupon as first read is active, not past its expiry and below its limit, and the second read finds no use by the user; the first of these to fail is the refusal. |
| Coupons.CouponService.CommitUse | internal/coupon/repository_pg.go:51-77 | Use row and count change together or not at all; the insert is refused when the user has a row. |
| Coupons.CouponService.RecordUse | internal/coupon/service.go:73-79 | Under any interference, RecordUse is a lookup and a transaction of one client. Its use is recorded, as one row of its user and one more in the count, if and only if both are answered and the user has no row yet; otherwise neither changes. |
| Cart.WellFormedMeans | internal/domain/cart.go:19-23 | A well-formed cart has at most one line per product, positive quantities and no negative price, and stands for the map of its lines. |
| Cart.AddRefinesMapAdd | internal/cart/service.go:43-59 | Adding an item is addition on the map, and keeps the cart well formed. |
| Cart.RemoveRefinesMapRemove | internal/cart/service.go:79-86 | Removing an item is removal from the map, and keeps the cart well formed. |
| Cart.RemovedLineByLine | internal/cart/service.go:79-84 | Removal goes line by line: the product's own lines disappear, every other line stays in its place. |
| Cart.RemovedMeans | internal/cart/service.go:79-84 | What is left are exactly the lines of other products, and a list without the product is left as it is. |
| Cart.CartsStayWellFormed | internal/cart/service.go:28-92 | Over every interleaving of reads, saves and clears, from no carts at all, every stored cart has at most one line per product and only positive quantities. |
| Cart.UninterruptedCallIsMapEdit | internal/cart/service.go:28-92 | A call that nobody interrupts performs exactly the map edit on its user's cart and leaves the others alone. |
| Cart.AddItemAdds | internal/cart/service.go:28-71 | An uninterrupted AddItem leaves the product with its old quantity plus the one asked for, 1 if that is not positive, and every other product as it was. |
| Cart.RemoveItemRemoves | internal/cart/service.go:73-92 | An uninterrupted RemoveItem leaves every other product as it was, and nothing of its own. |
| Cart.SerialCallsFoldTheirEdits | internal/cart/service.go:28-92 | When a user's calls follow one another, Redis answers them, and the cart is neither cleared nor expires, the stored cart is the fold of their map edits over what it was, whatever other users' calls do in between. |
| Cart.SaveIsAtomicExactlyWhenUnchanged | internal/cart/repository_redis.go:45-58 | A save after interference puts the map edit of the cart as it then stands if and only if that cart is still what the call had read (for a removal, outside the removed product). |
| Cart.LostUpdateIsReachable | internal/cart/service.go:38-63 | Two interleaved additions to an empty cart leave only one of the two lines. |
| Cart.AddLine | internal/cart/service.go:43-59 | The loop grows the first line of the product, or appends a line when there is none. |
| Cart.RemoveLines | internal/cart/service.go:79-84 | The loop keeps exactly the other products' lines, in order. |
| Cart.Total | internal/domain/cart.go:26-32 | The sum of price times quantity over all lines; orders without a discount carry this total. |
| Cart.CartService.AddItem | internal/cart/service.go:28-71 | Under any interference, the call is one read and one save; a failed product lookup changes nothing. What it stores is the list it read with the first line of the product grown by the quantity, or a line appended when there is none; a quantity that is not positive counts as 1. |
| Cart.CartService.RemoveItem | internal/cart/service.go:73-92 | Under any interference, the call is one read and one save; what it stores is exactly the lines it read of other products. |
| Cart.CartService.Clear | internal/cart/repository_redis.go:60-66 | An answered clear drops the stored cart, whatever it is, and only that user's; an unanswered one changes nothing. |

## Left out

- HTTP handlers, routing, responses, the other middleware, start-up, configuration, health checks and the web client: transport and presentation.
- Users, authentication (JWT, bcrypt, Google), roles and reviews: thin wrappers around libraries, or single-row statements.
- The inside of Postgres, Redis and the payment provider: statements are atomic, UNIQUE and CHECK constraints hold, transactions are all or nothing. A commit or a provider call whose outcome the caller does not learn is not modelled.
- Rounding of floats and of NUMERIC(12,2), and 64-bit overflow: money is `real`, integers are unbounded.
- JSON: what is stored in Redis is read back unchanged. A key that cannot be decoded is covered as a lookup that is not answered.
- Timestamps other than creation times, descriptions, CouponCode (never stored), provider names, transaction IDs and failure texts.
- Payment amounts: the request handler never sets one, so nothing ties a payment to an order's total.
- Returning stock after a cancellation: the job only logs, so the model ends with the dispatch. A restore batch is what is offered to the queue; a full queue drops jobs, as `WorkerPool` says.
- The metrics, the log line and the two jobs after a checkout (internal/order/service.go:111-135): each job is a `WorkerPool.Pool.Dispatch`.
- CheckoutOverlaps.SavedLinesCanBeLost: the run that shows it has every stock read fail, so that no stock limits the order.
- The lengths of text columns other than the idempotency key, and the truncation of a key whose characters past the 255th are all spaces.
- A coupon of 100 percent: the schema allows it, checkout ignores it, and the model does as checkout does.
- WorkerPool.Pool.Dispatch: requires that nobody closes the pool before the call ends, because a send on a closed channel panics.
- WorkerPool.Pool.Shutdown: job executions terminate; the pauses between attempts are not steps of the pool; a second caller that comes during the wait is not modelled, it blocks until the wait ends and then does nothing.
- Cancellation.ShippedStaysExactlyWhen: nothing in the repository ships an order. The action Ship stands for a caller of UpdateStatus with SHIPPED, and no caller sets PAID or sets an order back to PENDING.
- ProductCache.StalenessIsBounded: one product's key; expiry is the only clock, and a fill later than `gap` after its read does not occur.
- ProductQuery.BuildWhere: clauses are syntax trees with placeholder numbers, not text; joining them with AND is part of their meaning.
- Like.SearchIsContainsExactlyWhenPlain: case is folded for the letters A to Z only.
- Coupons.CountMatchesRows: one coupon; coupons are independent rows.
- CheckoutTheorems.ReservationsAreSerializable: a run with a SetStock in between is not serializable in every order, so restocks are excluded.
- ListByUserID, GetByOrderID, the CRUD statements of the other repositories, metrics and logging.
- Requests, calls and ledgers (`requests`, `calls`, `commits`, `supplied`, `accepted` and the like) are fields that record what is in flight and what has happened; the program keeps them in goroutines or not at all.
