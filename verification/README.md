# An order saga, modelled and proved

A shop runs an order service, an inventory service and a payment service over one event bus, with a gateway in front.
This project models how they behave, from single SQL statements up to whole runs of all three services together, and
proves what the design is for: stock is never promised twice, a confirmed order is paid for exactly once, a repeated or
redelivered message does no harm, and no event of the outbox is lost.

`dafny verify dfyconfig.toml` checks everything. Nothing here was executed.

## How the model is built

| layer | modules |
|---|---|
| values and enumerations | `Wrappers`, `Text`, `Integers`, `Sequences`, `Sums`, `Sorting`, `Enums`, `Domain` |
| inventory: ledger, repository, consumers | `InventoryLedger`, `InventoryStore`, `InventoryConsumers` |
| orders: transactions, rows, repository, status machine, service, consumers | `OrderStore`, `OrderIDs`, `OrderRows`, `OrderListing`, `OrderDatabase`, `OrderPlacement`, `OrderLifecycle`, `OrderCreation`, `OrderTransitions`, `OrderServices`, `OrderConsumers` |
| orders under concurrency | `CreateRace`, `UpdateRace` |
| outbox: protocol, dispatcher, lease | `OutboxRelay`, `OutboxDispatching`, `LeaseTiming` |
| payments: transactions, rows, repository, service, handler, consumer | `Payments`, `PaymentRows`, `PaymentDatabase`, `PaymentCalls`, `PaymentServices`, `OrderPayability` |
| the three services together | `Saga`, `SagaInvariant`, `SagaSafety`, `SagaRelease` |
| the same with the reads and writes of transitions apart | `SplitSaga`, `SplitSagaSafety`, `SplitSagaRuns`, `SplitSagaFailure` |
| gateway | `CancelCoalescing`, `GatewayServices` |

Code that changes things step by step is a class with loops, proved against functions on values (`InventoryLedger`,
`OrderStore`, `Payments`, `OutboxRelay`, `CancelCoalescing`); the properties are proved of those functions. Protocols `OrderStore`, `Payments`, `OutboxRelay`, `CancelCoalescing`); the properties are proved of those functions. The main
operations are stated a second time in the fields of their inputs and rows alone (`OrderCreation`, `OrderTransitions`,
`PaymentCalls`, and the contracts of the consumers and of the dispatcher), with the same functions proved to meet that.
Protocols in which several parties interleave are step systems: a state, a list of steps, and theorems over every list of
steps. are step systems: a state, a list of steps, and theorems over every list of steps.

What is assumed:

* Every inventory transaction is one atomic step, and so is every order or payment transition (its read and its write),
  except in `CreateRace`, `UpdateRace` and the `SplitSaga` modules, whose subject is that they are not, and where a lookup
  is passed a rival's commit (`CreateOrder`, `CreatePayment`).
* No two transactions on the reservations of one order overlap: the listing of a release by order takes no row locks.
  Handlings of the same order may still alternate transaction by transaction, and do so in `Saga`.
* In the composed saga payments are created only by the event consumer, and stock changes only through the two
  inventory consumers.
* The bus may deliver a published message any number of times, in any order; deduplicator marks expire. A handler can
  crash between any two of its steps.
* Clocks, generated ids, broken connections and lost publishes are parameters or steps. Times are nanoseconds; a
  `TIMESTAMPTZ` column keeps microseconds. Integers are unbounded with every 32- or 64-bit wrap, clamp and range check
  written out. Text is ordered by code point where SQL orders by it; any total order would do.

## What the proofs turned up

* An order id with white space around it is reserved for under that id and released under the trimmed one, so its stock
  is never given back (`ReleaseByOrderFreesExactlyTrimmedIds`). Generated ids have none.
* A total that leaves the int64 range can wrap round to a small positive amount and be accepted
  (`MoneyExactIffItFits`, `WrappedTotalCanBePositive`).
* With the read and the write of a transition apart, a cancelled order does not always stay cancelled. It leaves
  CANCELLED exactly at the commit of a writable value of it with another status (`StepRevivesIff`), so it stays cancelled
  over a stretch of a run exactly when no such commit falls into it (`StaysCancelledIff`). Of the service's own decisions,
  made before a cancel and written after it, exactly the two that are not cancels bring it back, `inventory.reserved` and
  `payment.captured` (`StaleDecisionRevivesIff`). A later cancel works exactly when no `order.cancelled` row is out
  (`CancelWorksIff`), so a revived order stays alive. The row itself is still written exactly once
  (`ExactlyOneCancelledRow`).
* The same split undoes half of the saga's safety. In every state of every run with reads and writes apart a confirmed
  order is still paid for, unconditionally (`SplitConfirmedIsPaid`). Stock is not oversold exactly when every active order
  whose `order.cancelled` row is out still holds what it demands (`SplitNotOversoldIff`); both promises hold over every
  run in which no commit puts another status onto a CANCELLED order (`SplitSagaIsSafe`), a guard the update could check;
  and such a commit costs the promise exactly when the order no longer holds its demand (`RevivalOversellsIff`). The code
  has no such guard: any accepted order that the stock covers can end confirmed, paid and holding nothing, because its
  capture was read before a cancel and written after the release (`AnyOrderCanBeOversold`, `SplitSagaOversells`).
* The status machine's other laws under the split: a stale write moves an order forward exactly when its command is still
  unspent on the stored order or is a failure that meets a confirmed one, and moves it back exactly when it is a
  reservation that meets a CONFIRMED or CANCELLED order or a capture that meets a CANCELLED one (`StaleDecisionMoves`,
  `OnlyForwardIff`). A cancelled order keeps the reason of its `order.cancelled` row exactly as long as no commit that saw
  it cancelled writes another reason over it (`RowAgreesIff`, `StaleCancelKeepsReasonIff`).
* Two handlings of one `inventory.reserved` can make the slower one report that the payment could not be created
  although it exists, when the database names the order's unique constraint rather than the key's
  (`LateRedeliveryFailsExactlyWhenOrderIsReported`).
* The configuration check of the dispatcher guarantees exclusive rows only for batches of one, and the default
  configuration passes it without keeping the lease (`LeaseHoldsIffBatchFits`, `ValidSufficesOnlyForSingles`,
  `DefaultOutlastsItsLock`).
* A cancel request shares its fingerprint with another one exactly when its order id or its reason contains a line break
  (`FingerprintIsUniqueIff`); the gateway accepts such requests, and makes one wait for the other's answer
  (`AcceptedRequestsCollide`).
* The ids of two outbox rows share their text only for an order whose own id starts with `cancelled-` (`RowTexts`).
* Pages repeat orders once an offset no longer fits an int32 (`PagesCoverIff`).

## Model

| member | source | states |
|---|---|---|
| SagaSafety.SagaIsSafe | internal/inventory/events/order_created_consumer.go:79-187 | over every run with crashes, redeliveries, concurrent handlings and expired marks: each order that awaits payment or is confirmed holds what it demands, per product these demands never exceed the total stock, and a confirmed order has exactly one payment, captured, by its customer, for its total |
| SagaSafety.InvNotOversold | internal/inventory/repository/sqlc/inventory.sql.go:230-302 | the demands of all active orders for a product, summed, are covered by its reservations and so by its total |
| SagaSafety.InvConfirmedIsPaid | internal/payment/events/inventory_reserved_consumer.go:110-163 | a confirmed order's one payment row is captured and carries the order's amount, currency and customer |
| SagaSafety.ActiveOrderHolds | internal/inventory/events/order_created_consumer.go:107-136 | an order leaves PENDING for good only after some handling reserved all its lines and will not undo them |
| SagaSafety.StepKeepsInv | internal/order/consumers/state_consumer.go:82-113 | every step of every service keeps the saga's inductive invariant |
| SagaSafety.ReserveKeepsInv | internal/inventory/events/order_created_consumer.go:147-170 | one reservation of one handling moves the ledger and that handling's own share by the same quantity |
| SagaSafety.UndoKeepsInv | internal/inventory/events/order_created_consumer.go:175-186 | one compensation undoes its own handling's share only |
| SagaSafety.AnnounceKeepsInv | internal/inventory/events/order_created_consumer.go:112-136 | success is announced only by a handling that holds every line, failure only by one that holds none |
| SagaSafety.RequestMatchesOrder | internal/payment/events/inventory_reserved_consumer.go:142-163 | the payment asked for on an announced reservation is the order's own total and customer, unchanged through both events |
| SagaSafety.HandlingsFail | internal/inventory/events/order_created_consumer.go:79-187 | the runs range over handlings that crash at any point or give up although the stock is there |
| SagaSafety.RepliesGetLost | internal/inventory/events/order_created_consumer.go:148-164 | the runs range over reservations that take effect while the handling rolls back without knowing of them |
| SagaSafety.MessagesRepeat | internal/order/events/outbox_dispatcher.go:142-178 | a published message can be handled whenever its mark has expired; a row is sent again until it is marked; an outcome can be lost before it is sent |
| SagaInvariant.LedgerKeptByMove | internal/inventory/repository/sqlc/inventory.sql.go:287-302 | the reservations of an order that is not cancelled stay the exact sum of what its handlings hold and of what lost replies left, repeats included |
| SagaInvariant.LedgerKeptByLoss | internal/inventory/events/order_created_consumer.go:148-164 | a reservation that committed although its reply was lost is accounted for and never lets the order hold less than its handlings do |
| SagaRelease.RollbackSucceeds | internal/inventory/events/order_created_consumer.go:159-163 | a rollback step of an order that is not cancelled never fails, whatever other handlings of the same message did in between |
| SagaRelease.CancelledOrderHoldsNothing | internal/inventory/events/order_cancelled_consumer.go:75-120 | once creation has been handled, handling order.cancelled gives everything back for good, over-reservations included |
| SplitSagaSafety.SplitNotOversoldIff | internal/order/service/service.go:328-347 | in every state of every run with the reads and writes of transitions apart, stock is not oversold exactly when each active order whose order.cancelled row is out still holds what it demands |
| SplitSagaSafety.SplitConfirmedIsPaid | internal/payment/events/inventory_reserved_consumer.go:110-163 | in every state of every such run, with no condition, a confirmed order has exactly one payment, captured, by its customer, for its total |
| SplitSagaSafety.SplitSagaIsSafe | internal/order/repository/postgres.go:178-233 | over every such run in which no commit puts another status onto a CANCELLED order, both promises of the saga hold |
| SplitSagaSafety.RevivalOversellsIff | internal/order/repository/postgres.go:178-233 | a commit that puts another status onto a CANCELLED order, out of a state that is not oversold, leaves it so exactly when that order's reservations still cover its demand |
| SplitSagaSafety.SplitStepKeepsInv | internal/order/service/service.go:328-347 | every step, reads, status reads, commits and rollbacks of transitions included, keeps the invariant: the atomic saga's invariant of the view in which an order with an order.cancelled row counts as cancelled |
| SplitSagaSafety.CommitSucceedsIff | internal/order/repository/postgres.go:199-232 | in such a run the tables refuse a commit exactly when it would write a second order.cancelled row |
| SplitSagaSafety.CommitEvolves | internal/order/repository/postgres.go:199-232 | seen through that view a commit keeps orders and rows consistent and never takes an order out of CANCELLED |
| SplitSagaRuns.UndisturbedIsAtomic | internal/order/service/service.go:328-347 | the parts of a transition one right after the other are the one step of the atomic saga |
| SplitSagaRuns.RejectAndAnnounce | internal/inventory/events/order_created_consumer.go:112-125 | an undisturbed handling of an order that the stock does not cover leaves the ledger as it was and announces the failure |
| SplitSagaRuns.RunToCapture | internal/payment/handler/grpc.go:138-169 | any placed order that the tables accept and the stock covers comes to wait for payment with its payment.captured published |
| SplitSagaFailure.CaptureAfterCancelOversells | internal/inventory/events/order_cancelled_consumer.go:75-120 | from any reachable state in which an order waits for payment and its payment.captured is out, a run ends with the order confirmed, holding nothing of what it demands |
| SplitSagaFailure.AnyOrderCanBeOversold | internal/order/service/service.go:328-347 | so any placed order that the tables accept and the stock covers can end confirmed and holding nothing |
| SplitSagaFailure.SplitSagaOversells | internal/order/service/service.go:328-347 | there is a whole run, from the empty tables on, that ends oversold |
| Domain.ReservedIsDemanded | internal/inventory/events/order_created_consumer.go:147-169 | what is reserved of a product for an order.created message is the sum of the quantities of the order's lines for it |
| InventoryLedger.ReserveOutcome | internal/inventory/repository/postgres.go:44-106 | a reservation succeeds exactly when it is well formed and the stock is there; it keeps the ledger balanced and overflows no BIGINT |
| InventoryLedger.ReleaseOutcome | internal/inventory/repository/postgres.go:108-185 | a release succeeds exactly when the order holds that much; it keeps the ledger balanced and meets no inner error |
| InventoryLedger.ReserveEffect | internal/inventory/repository/postgres.go:44-106 | a reservation moves exactly the quantity from available to reserved and into the order's row; each error is returned exactly for its own cause |
| InventoryLedger.ReleaseEffect | internal/inventory/repository/postgres.go:108-185 | the same of a release, the other way round |
| InventoryLedger.ReleaseUndoesReserve | internal/inventory/repository/sqlc/inventory.sql.go:199-302 | releasing what was just reserved restores the very same two tables, with or without an earlier reservation |
| InventoryLedger.ReleaseRowsFrees | internal/inventory/repository/postgres.go:187-248 | on a balanced ledger a release by order never fails, in any listing order, removes all the order's rows and returns their sum to each product |
| InventoryLedger.FreedTwice | internal/inventory/repository/postgres.go:187-248 | a second release by order changes nothing |
| InventoryLedger.PerformAllBalanced | db/schema/inventory.sql:1-18 | after any sequence of transactions available + reserved = total, reserved is the sum of the reservations, every reservation is positive, and totals never move |
| InventoryLedger.OtherOrdersUntouched | internal/inventory/repository/postgres.go:44-248 | a transaction never touches a reservation of an order it does not name |
| InventoryStore.InventoryRepository.ReserveStock | internal/inventory/repository/postgres.go:44-106 | commits exactly the ledger's reservation, or changes nothing and returns its error |
| InventoryStore.InventoryRepository.ReleaseStock | internal/inventory/repository/postgres.go:108-185 | commits exactly the ledger's release, or changes nothing and returns its error |
| InventoryStore.InventoryRepository.ListReservationsByOrderID | internal/inventory/repository/sqlc/inventory.sql.go:166-171 | every reservation of the order once, by product, and no other |
| InventoryStore.InventoryRepository.ReleaseListed | internal/inventory/repository/postgres.go:203-242 | the loop releases all listed rows or rolls back |
| InventoryStore.InventoryRepository.ReleaseReservationsByOrderID | internal/inventory/repository/postgres.go:187-248 | fails exactly on a blank id, otherwise frees the whole order |
| InventoryConsumers.ReserveItemsOutcome | internal/inventory/events/order_created_consumer.go:144-173 | an undisturbed handling succeeds exactly when the stock covers the order with repeated products added up |
| InventoryConsumers.StandingReleased | internal/inventory/events/order_created_consumer.go:175-187 | with other orders' transactions in between, the release of an item just reserved succeeds and leaves the order with the rest |
| InventoryConsumers.PerformAllForeign | internal/inventory/repository/postgres.go:44-248 | other orders' transactions leave this order's rows alone, and its handler leaves theirs as they made them |
| InventoryConsumers.HoldsNothingMore | internal/inventory/events/order_created_consumer.go:159-163 | a handler that holds nothing beyond its start has restored the order's rows exactly |
| InventoryConsumers.OrderCreatedConsumer.ReleaseReserved | internal/inventory/events/order_created_consumer.go:175-187 | the reverse loop gives back item by item and stops exactly where the database does not answer; otherwise it restores the order's reservations |
| InventoryConsumers.OrderCreatedConsumer.ReserveAll | internal/inventory/events/order_created_consumer.go:144-173 | all lines or none: the order holds exactly its lines on top of what it held, or exactly what it held, and a part of its lines only after a failed rollback; other orders' rows are what their own transactions made them |
| InventoryConsumers.OrderCreatedConsumer.HandleMessage | internal/inventory/events/order_created_consumer.go:79-142 | whatever is published or recorded, the order's rows grow by exactly the quantities of the first lines of the message: all, none, or a part after a failed rollback; undisturbed, all exactly when the stock covers the lines; inventory.reserved lists every line with its quantity exactly in the first case; the failure names the line that could not be reserved, which the ledger it met refuses; no message in the third; committed exactly when answered, published and recorded |
| InventoryConsumers.OrderCancelledConsumer.HandleMessage | internal/inventory/events/order_cancelled_consumer.go:75-120 | unless the event was recorded every product gets back exactly what the order held, its rows are gone and all others stand; committed exactly when the id is not blank and the record is made |
| InventoryConsumers.ReleaseByOrderFreesExactlyTrimmedIds | internal/inventory/repository/postgres.go:187-200 | a release by order frees the order exactly when its id has no surrounding white space or it held nothing |
| OrderPlacement.MoneyExactIffItFits | internal/order/service/service.go:47-78 | the total is exact precisely when the true sum fits an int64; it and every line total are then positive and in one currency |
| OrderPlacement.WrappedTotalCanBePositive | internal/order/service/service.go:66-72 | an overflowing order can still come to a positive total |
| OrderPlacement.CommittedOrdersArePlaced | internal/order/service/service.go:25-104 | every order a call commits has a trimmed id, a customer, well-formed lines, a known currency and method and a positive total, except exactly one that brought an untrimmed id of its own |
| OrderCreation.PlacedIsOrderOf | internal/order/service/service.go:25-86 | of the requests that name customer, lines, address and method exactly those with well-priced lines in one currency are placed, and then the order is theirs field by field, texts trimmed and totals equal to the true sums modulo 2^64 |
| OrderCreation.TotalIsExact | internal/order/service/service.go:47-78 | when the true sum of the lines fits an int64 the order is charged exactly that sum, in the currency of its lines, and each line exactly quantity times price |
| OrderCreation.StoresOrder | internal/order/repository/postgres.go:35-76 | which error an insert returns, and otherwise the stored order and every field of its order.created row |
| OrderCreation.AcceptedIff | internal/order/service/service.go:262-278 | which requests are rejected, in the fields of the raw request |
| OrderCreation.RepeatsIff | internal/order/service/service.go:280-308 | when a stored order counts as the same request, in the fields of the raw request |
| OrderLifecycle.HandleEffect | internal/order/service/service.go:328-347 | on a consistent database a transition is never refused, and changes this order and its order.cancelled row only |
| OrderLifecycle.CallSucceedsIff | internal/order/service/service.go:113-138 | an event succeeds whenever the order exists, a cancel when it moreover gives a reason and the order is cancelled or cancellable; the answer is the stored order |
| OrderLifecycle.WritesMoveForward | internal/order/service/service.go:113-228 | exactly an unspent command writes; it moves the order strictly forward, confirms only on a capture, and leaves a reason exactly when it cancels |
| OrderLifecycle.HandleMovesOn | internal/order/service/service.go:140-228 | a command is spent after one use, and no command ever becomes usable again |
| OrderLifecycle.RedeliveryChangesNothing | internal/order/consumers/state_consumer.go:104-112 | handling an event again at any later time changes nothing, so a lost record does no harm |
| OrderLifecycle.ReplaySafe | internal/order/service/service.go:113-228 | any stream of events and cancels leaves the same orders, reasons, times and outbox as the stream without its repetitions |
| OrderLifecycle.CreateKeepsConsistent | internal/order/repository/postgres.go:35-76 | a creation keeps every order equal to its stored form and in step with its outbox rows |
| OrderLifecycle.HandleKeepsConsistent | internal/order/repository/postgres.go:178-233 | a transition keeps that too: order.cancelled is in the outbox exactly for the cancelled orders, with their reason |
| OrderLifecycle.HandleKeepsContent | internal/order/service/service.go:280-308 | a transition changes status, reason and time of change, and nothing that repeated requests are compared by |
| OrderTransitions.EventIs | internal/order/service/service.go:140-228 | for each consumed event, which statuses it moves and to what; the reason of a failure is the given one, trimmed, or its own phrase when blank; the order.cancelled row carries order, customer and that reason; nothing else changes |
| OrderTransitions.CancelIs | internal/order/service/service.go:113-138 | a customer's cancel: which orders it moves, with what reason and row, and what each call answers |
| OrderServices.NormalizeOrderInput | internal/order/service/service.go:242-260 | the loop trims exactly the fields of the normalized order |
| OrderServices.PriceItems | internal/order/service/service.go:47-78 | the loop accepts exactly the well-formed single-currency items and returns their wrapped line totals and sum |
| OrderServices.OrderService.Lookup | internal/order/service/service.go:31-42 | answers exactly when the key has an order: with it, or with the conflict |
| OrderServices.OrderService.Insert | internal/order/service/service.go:87-103 | commits the order, or answers from the order that took the key in the meantime, or returns the error with nothing changed |
| OrderServices.OrderService.CreateOrder | internal/order/service/service.go:25-104 | the whole call, with a rival's commit between its lookup and its insert: in the fields of the raw request, when it is rejected, repeated or in conflict, and otherwise what order is stored, with which total, and what is announced |
| OrderServices.OrderService.TransitionOrder | internal/order/service/service.go:328-347 | reads, applies the transition and writes as the status machine says, and answers with the order or the error |
| OrderServices.OrderService.MarkInventoryReserved | internal/order/service/service.go:140-156 | refines the transition on rows; on a consistent store a pending order then waits for payment, and the call answers with the order as it then stands |
| OrderServices.OrderService.MarkInventoryReservationFailed | internal/order/service/service.go:158-174 | refines the transition on rows; on a consistent store an open order is then cancelled for the given reason, or the stock phrase when that is blank, and the call answers with the order as it then stands |
| OrderServices.OrderService.MarkPaymentCaptured | internal/order/service/service.go:176-192 | refines the transition on rows; on a consistent store an open order is then confirmed, and the call answers with the order as it then stands |
| OrderServices.OrderService.MarkPaymentFailed | internal/order/service/service.go:194-210 | refines the transition on rows; on a consistent store an open order is then cancelled for the given reason, or the stock phrase when that is blank, and the call answers with the order as it then stands |
| OrderServices.OrderService.MarkPaymentCreationFailed | internal/order/service/service.go:212-228 | refines the transition on rows; on a consistent store an open order is then cancelled for the given reason, or the stock phrase when that is blank, and the call answers with the order as it then stands |
| OrderServices.OrderService.CancelOrder | internal/order/service/service.go:113-138 | the customer's cancel: its effect and its answer in every case |
| OrderConsumers.TopicConsumer.HandleEvent | internal/order/consumers/state_consumer.go:115-323 | each consumed event drives the transition that belongs to it; on a consistent store, what it does to the order's row, and that it succeeds exactly when the order exists |
| OrderConsumers.TopicConsumer.HandleMessage | internal/order/consumers/state_consumer.go:82-113 | other types and recorded events are skipped and committed; otherwise the event has its effect on the order's row, and the message is committed exactly when it succeeded and was recorded |
| CreateRace.OneOrderPerKey | internal/order/service/service.go:31-103 | in every reachable state a non-empty key has at most one order, and an order exactly one order.created row |
| CreateRace.CreationIsIdempotent | internal/order/service/service.go:31-103 | successful calls with one key return one id, and only calls with another payload get the conflict, however lookups, inserts and re-reads interleave |
| CreateRace.LostRaceIsAnswered | internal/order/service/service.go:92-101 | a call that lost the race for its key always gets the order or the conflict, and no call is told that there is no order |
| CreateRace.RepeatNeverConflicts | internal/order/service/service.go:280-308 | after any later transitions a repeated request finds its order and no conflict |
| CreateRace.InsertedMatches | internal/order/service/service.go:47-83 | the order a call inserts matches the call's own request once stored |
| CreateRace.StepKeepsInv | internal/order/service/service.go:31-103 | every answered call told the truth about the order of its key, and stays right |
| CreateRace.UndisturbedCall | internal/order/service/service.go:25-104 | lookup and insert right after each other are one call of `CreateOrder`, with its answer and its effect on the store |
| UpdateRace.ExactlyOneCancelledRow | internal/order/repository/postgres.go:178-233 | with reads and writes of any number of updates interleaved, a cancelled order has exactly one order.cancelled row and no order has two |
| UpdateRace.UndisturbedIsAtomic | internal/order/repository/postgres.go:178-233 | a read and its commit right after each other are the update in one step |
| UpdateRace.CancelCommitsIff | internal/order/repository/postgres.go:222-226 | an update to CANCELLED commits exactly when it saw CANCELLED or the row is not there yet |
| UpdateRace.WriteIs | internal/order/repository/postgres.go:178-233 | when a write commits, and what it leaves of order and outbox, for every status its first statement may have seen |
| UpdateRace.StepRevivesIff | internal/order/repository/postgres.go:178-233 | a cancelled order leaves CANCELLED exactly at the commit of a writable value of it with another status |
| UpdateRace.StepCancelsIff | internal/order/repository/postgres.go:222-226 | a live order becomes cancelled exactly at the commit of a writable cancelled value that saw it cancelled or finds no order.cancelled row |
| UpdateRace.StaysCancelledIff | internal/order/repository/postgres.go:178-233 | over any stretch of any run a cancelled order stays cancelled exactly when no reviving commit falls into it |
| UpdateRace.StaleDecisionRevivesIff | internal/order/service/service.go:328-347 | a decision made before a cancel and written after it, whatever status it saw, leaves the order cancelled exactly when it is itself a cancel |
| UpdateRace.CancelWorksIff | internal/order/service/service.go:113-138 | a cancel of a cancellable order works exactly when the order is writable and its order.cancelled row is not out, and otherwise changes nothing |
| UpdateRace.OnlyForwardIff | internal/order/repository/postgres.go:178-233 | over any stretch of any run an order only moves forward exactly when no commit writes an earlier status over a later one |
| UpdateRace.StaleDecisionMoves | internal/order/service/service.go:141-228 | a write decided on an older order moves the stored one forward exactly when its command is unspent on it or is a failure that meets a confirmed order, and back exactly when it is a reservation past waiting for payment or a capture past confirmation |
| UpdateRace.RowAgreesIff | internal/order/repository/postgres.go:222-226 | over any run a cancelled order and its order.cancelled row tell the same, reason included, exactly when no commit that saw it cancelled writes another cancellation over it |
| UpdateRace.StaleCancelKeepsReasonIff | internal/order/service/service.go:113-138 | a decision to cancel, made before a customer's cancel and written after it, leaves the row's reason on the order exactly when it did not see the cancel or gives the same reason |
| OrderRows.ItemRoundTrip | internal/order/repository/postgres.go:591-616 | an item row reads back exactly when both currencies have names, and then as the item |
| OrderRows.ItemsRoundTrip | internal/order/repository/postgres.go:577-589 | the same for all rows of an order |
| OrderRows.OrderRoundTrip | internal/order/repository/postgres.go:408-575 | an order's rows read back exactly when its enumeration numbers have names, and then as the order trimmed and cut to microseconds |
| OrderRows.PersistedIsSame | internal/order/repository/postgres.go:408-442 | the order that comes back is the one that went in exactly when key and reason are trimmed and the times are whole microseconds |
| OrderRows.RowOfPersisted | internal/order/repository/postgres.go:364-386 | writing back what was read changes no column |
| OrderRows.ListedInOrder | internal/order/repository/sqlc/order.sql.go:362-367 | item rows listed by position are the order's items in their order |
| OrderDatabase.StorableIff | db/schema/order.sql:1-33 | an order is refused by the tables exactly when its row, one of its items, or the reading of them is |
| OrderDatabase.InsertOrderItems | internal/order/repository/postgres.go:253-272 | stores every line under its position exactly when all are acceptable and few enough for an int32 |
| OrderDatabase.ListOrderItemsByOrderID | internal/order/repository/sqlc/order.sql.go:362-398 | the order's item rows by position |
| OrderDatabase.OrderRepository.CreateOrder | internal/order/repository/postgres.go:35-76 | order, items and order.created together or nothing, with the error the constraints give; returns the order as stored |
| OrderDatabase.OrderRepository.GetOrderByID | internal/order/repository/postgres.go:78-94 | the order as stored, or not found |
| OrderDatabase.OrderRepository.GetOrderByIdempotencyKey | internal/order/repository/postgres.go:96-120 | the order of the trimmed key; not found exactly when there is none |
| OrderDatabase.OrderRepository.ReadStatus | internal/order/repository/postgres.go:191-197 | the name of the stored status |
| OrderDatabase.OrderRepository.WriteOrder | internal/order/repository/postgres.go:199-232 | replaces row and items, and adds order.cancelled exactly when the status seen differs and the new one is CANCELLED; all or nothing |
| OrderDatabase.OrderRepository.UpdateOrder | internal/order/repository/postgres.go:178-233 | the update with nothing in between |
| OrderDatabase.BatchFindsEach | internal/order/repository/sqlc/order.sql.go:400-405 | one query for many orders yields for each of them the rows of its own query |
| OrderDatabase.GroupDBOrderItems | internal/order/repository/postgres.go:486-498 | groups every row under its order, in listing order, or fails on an unreadable row |
| OrderDatabase.RegroupedRoundTrip | internal/order/repository/postgres.go:500-575 | items turned into rows and mapped a second time give the same order |
| OrderDatabase.MapDBOrders | internal/order/repository/postgres.go:472-484 | maps every row of a page with its own group |
| OrderDatabase.OrderRepository.ListedKeys | internal/order/repository/sqlc/order.sql.go:438-444 | all of a customer's orders once, by creation time and id |
| OrderDatabase.OrderRepository.ListItemGroups | internal/order/repository/postgres.go:155-168 | out of the groups of one query each order can be read as it is stored |
| OrderDatabase.OrderRepository.ReadWindow | internal/order/repository/postgres.go:155-175 | a page's orders, each equal to what reading it alone returns |
| OrderDatabase.OrderRepository.ListOrdersByCustomer | internal/order/repository/postgres.go:122-176 | the requested page of the whole listing, and the number of all orders |
| OrderListing.PageIs | internal/order/repository/postgres.go:132-149 | a page is the stretch at (page - 1) * size, until that offset passes 2^31 - 1 and stands still |
| OrderListing.PageDefaults | internal/order/repository/postgres.go:132-149 | pages below one are the first page; without a page size nothing comes after it |
| OrderListing.ListingIs | internal/order/repository/sqlc/order.sql.go:438-444 | every order of the customer is listed exactly once, oldest first, equal times by id |
| OrderListing.PagesCoverIff | internal/order/repository/postgres.go:132-149 | the pages of any size make up the listing, nothing twice, exactly when the last offset fits an int32 |
| OrderListing.CustomerPages | internal/order/repository/postgres.go:122-176 | for a customer's listing: the same, always so up to 2^31 - 1 orders, with each order once |
| OrderListing.UnsizedPageIsEverything | internal/order/repository/postgres.go:136-149 | without a page size the first page is everything exactly up to 2^31 - 1 orders |
| OrderIDs.RowTexts | internal/order/events/outbox_message.go:80-124 | exactly when two outbox ids share their text |
| OrderIDs.GeneratedIDs | internal/order/service/service.go:238-240 | generated order ids are trimmed, and their outbox ids never collide |
| OutboxRelay.OutboxDelivers | internal/order/events/outbox_dispatcher.go:117-186 | over all runs: no row is lost or rewritten, published_at is set only after its payload was published, a published row stays so and is never claimed, attempt_count counts the committed releases |
| OutboxRelay.PublishedIffMarked | internal/order/repository/sqlc/order.sql.go:490-497 | over all runs a row carries the time of the last mark of it that committed, and is published exactly when one did |
| OutboxRelay.StepKeepsInv | internal/order/repository/sqlc/order.sql.go:490-516 | every claim, publish, mark, release and crash keeps the relay's invariant |
| OutboxRelay.AnythingHappens | internal/order/events/outbox_dispatcher.go:142-178 | the runs range over rows that arrive, publishes that fail and dispatchers that crash, at any point |
| OutboxDispatching.OutboxDispatcher.ClaimPending | internal/order/repository/sqlc/order.sql.go:14-29 | claims the oldest claimable rows up to the batch size, skipping locked ones, and stamps exactly those |
| OutboxDispatching.OutboxDispatcher.DispatchRows | internal/order/events/outbox_dispatcher.go:142-185 | sends each row's payload under its topic and key, marks what was published and releases what was not, row by row, as steps of the relay |
| OutboxDispatching.OutboxDispatcher.DispatchOnce | internal/order/events/outbox_dispatcher.go:117-222 | one pass takes the oldest due rows up to the batch size; each is then published and never due again, released with one attempt more, or locked, as its replies say, and every other row stands; it sends exactly the published ones, in order, and is a run of the relay; when the backlog is logged |
| OutboxDispatching.RowIsTwoSteps | internal/order/events/outbox_dispatcher.go:142-175 | a row's publish and the statement after it are two steps of the relay with that effect |
| OutboxDispatching.RowsFare | internal/order/events/outbox_dispatcher.go:142-178 | each claimed row is published and unlocked, released with one attempt more, or still locked, as its publish and statement turned out; all other rows stand |
| OutboxDispatching.SentDelivers | internal/order/events/outbox_dispatcher.go:142-146 | what is sent are exactly the claimed rows whose publish succeeded, in order, with topic, key and payload of the row |
| OutboxDispatching.LeaseAgrees | internal/order/repository/sqlc/order.sql.go:14-29 | the rows of the lease model are claimed and finished exactly as the dispatcher's rows are |
| LeaseTiming.LeaseHoldsIffBatchFits | internal/order/events/outbox_dispatcher.go:117-147 | no row has two dispatchers at work on it, in any run, exactly when batchSize * publishTimeout <= lockTimeout |
| LeaseTiming.ValidSufficesOnlyForSingles | internal/order/events/outbox_dispatcher.go:43-60 | the configured check alone implies the lease for batch size 1 and no other |
| LeaseTiming.DefaultOutlastsItsLock | internal/order/events/outbox_dispatcher.go:34-41 | the default configuration passes the check and does not keep the lease |
| Payments.OneOutcomePerOrder | internal/payment/service/service.go:25-169 | whatever is redelivered, an order has at most one payment, and of all outcome events published no two concern one payment or one order |
| Payments.TerminalIsFinal | internal/payment/service/service.go:86-169 | CAPTURED, FAILED and CANCELLED are absorbing |
| Payments.ActEffect | internal/payment/handler/grpc.go:138-204 | only a pending payment moves, once, and a capture or failure then owes exactly one announcement |
| Payments.CreateEffect | internal/payment/service/service.go:25-60 | a creation adds at most one row, for the order the event names, and touches no other |
| Payments.StepKeepsOK | internal/payment/service/service.go:25-169 | every call, publish and lost publish keeps one payment per order and one true announcement per outcome |
| PaymentRows.PaymentRoundTrip | internal/payment/repository/postgres.go:221-337 | a payment's row reads back exactly when its enumeration numbers have names, and then as the payment with key trimmed and times cut |
| PaymentRows.RowOfStored | internal/payment/repository/postgres.go:187-204 | writing back what was read changes no column |
| PaymentDatabase.PaymentRepository.CreatePayment | internal/payment/repository/postgres.go:30-46 | inserts the row or returns the error of the constraint; an unreadable row stays although the call fails |
| PaymentDatabase.PaymentRepository.GetPaymentByID | internal/payment/repository/postgres.go:48-63 | the payment as stored, or which error |
| PaymentDatabase.PaymentRepository.GetPaymentByIdempotencyKey | internal/payment/repository/postgres.go:65-84 | the payment of the trimmed key; not found only when there is none |
| PaymentDatabase.PaymentRepository.UpdatePayment | internal/payment/repository/postgres.go:104-120 | replaces the row or returns the error of the constraint |
| PaymentDatabase.OutcomeUpdateSucceeds | internal/payment/repository/postgres.go:104-120 | a write that leaves order and key alone meets no constraint |
| PaymentCalls.SettleTurns | internal/payment/service/service.go:86-169 | a call moves a payment exactly when the id names a readable PENDING row with a creation time and a failure gives a reason; the row then has the new status, the trimmed reason and the time; it succeeds without a move exactly on a payment in that status already; every other case is the named error |
| PaymentCalls.InsertedOpens | internal/payment/repository/postgres.go:30-46 | which conflict an insert meets and what the call then answers, and otherwise every field of the new row |
| PaymentCalls.RequestedIsAsked | internal/payment/events/inventory_reserved_consumer.go:142-186 | the payment asked for has the event's fields, under the names the consumer knows; any other name is refused |
| PaymentServices.PaymentService.CreatePayment | internal/payment/service/service.go:25-60 | the whole call, with a rival's insert after the lookup: for every request, whether it is refused, answered with the payment of its key, in conflict, or stored, and every field of the row |
| PaymentServices.PaymentService.CapturePayment | internal/payment/service/service.go:109-135 | moves exactly a readable pending payment to CAPTURED; table, answer or error, and whether it moved, in every case |
| PaymentServices.PaymentService.FailPayment | internal/payment/service/service.go:137-169 | given a reason, moves exactly a readable pending payment to FAILED with the reason trimmed; table, answer or error, and whether it moved, in every case |
| PaymentServices.PaymentService.CancelPayment | internal/payment/service/service.go:86-107 | moves exactly a readable pending payment to CANCELLED with the reason trimmed; table and answer or error in every case |
| PaymentServices.PaymentHandler.CapturePayment | internal/payment/handler/grpc.go:138-169 | publishes payment.captured with the payment's order, customer, id and status exactly on a real transition, after the update; a failed publish loses it |
| PaymentServices.PaymentHandler.FailPayment | internal/payment/handler/grpc.go:171-204 | publishes payment.failed with the payment's order, customer, id, status and the trimmed reason exactly on a real transition, after the update; a failed publish loses it |
| PaymentServices.InventoryReservedConsumer.CreatePayment | internal/payment/events/inventory_reserved_consumer.go:142-164 | asks for the payment the event describes, or fails on an unknown name and adds nothing; the table comes from the one before and the rival's payment |
| PaymentServices.InventoryReservedConsumer.HandleMessage | internal/payment/events/inventory_reserved_consumer.go:82-140 | what the call for the event's payment comes to, field by field, and that exactly one message says so; committed only after it and once recorded; the table stays as it was when the event was recorded |
| OrderPayability.PlacedOrdersArePayable | internal/payment/events/inventory_reserved_consumer.go:142-186 | the request made for a committed order parses, is valid and carries its own amount, customer and method |
| OrderPayability.CreationFailsOnlyOnConflict | internal/payment/service/service.go:171-185 | so its creation can fail only because the payment id or the order has a row already |
| OrderPayability.LateRedeliveryFailsExactlyWhenOrderIsReported | internal/payment/repository/postgres.go:252-270 | for an order with a payment a repeated creation returns it, except exactly when the lookup came too early and the order's constraint is reported |
| CancelCoalescing.Coalesced | internal/gateway/service/order.go:68-91 | over all interleavings: one downstream cancel per key at a time and none beside a success, no channel closed twice, everyone on a record gets its outcome, and a waiter always has an owner or an outcome |
| CancelCoalescing.NoCallAfterSuccess | internal/gateway/service/idempotency.go:16-54 | after one success, in any continuation of any run, no further downstream cancel is started for that key |
| CancelCoalescing.FinishRemovesOwnRecord | internal/gateway/service/idempotency.go:41-46 | in every reachable state an owner about to finish closes its own open record, and what it deletes is that record |
| CancelCoalescing.ArrivalIs | internal/gateway/service/idempotency.go:16-35 | in every reachable state a request starts a downstream call exactly when none for its key is under way or has succeeded, waits exactly for one with its fingerprint, and is turned away exactly by one with another |
| CancelCoalescing.AnswersCameBack | internal/gateway/service/order.go:77-91 | in every run whoever is answered gets what a downstream call for the same key and fingerprint came back with |
| CancelCoalescing.FinishFrees | internal/gateway/service/idempotency.go:37-54 | in every reachable state a call that came back is finished, its key is then free exactly on a failure, and a waiter wakes exactly once its record is finished |
| CancelCoalescing.FingerprintIsUniqueIff | internal/gateway/service/idempotency.go:12-14 | no other request has this request's fingerprint exactly when neither its order id nor its reason contains a line break |
| GatewayServices.AcceptedRequestsCollide | internal/gateway/service/order.go:58-77 | two different requests that pass validation, of which the second is made to wait for the first |
| GatewayServices.GatewayService.BeginCancelIdempotency | internal/gateway/service/idempotency.go:16-35 | the first critical section is the table's begin, and hands out the right record |
| GatewayServices.GatewayService.FinishCancelIdempotency | internal/gateway/service/idempotency.go:37-54 | the second is the table's finish, on a channel that is still open |
| GatewayServices.GatewayService.StartCancel | internal/gateway/service/order.go:53-77 | validation and the caller's role |
| GatewayServices.GatewayService.ReadAnswer | internal/gateway/service/order.go:77-85 | a waiter gets the very outcome that the record's owner finished it with |
| GatewayServices.GatewayService.CancelOrder | internal/gateway/service/order.go:53-91 | a call that need not wait: answer, whether the order service was called, and the table afterwards; on an existing record the answer is the outcome it was finished with |
| Enums.CurrencyRoundTrip | internal/order/repository/postgres.go:618-625 | a stored currency name parses exactly when the number is declared, and then to that number |
| Enums.MethodRoundTrip | internal/order/repository/postgres.go:636-643 | the same for payment methods |
| Enums.StatusRoundTrip | internal/order/repository/postgres.go:627-634 | every status name parses to its status |

## Left out

- Kafka, Redis, pgx, gRPC and HTTP plumbing, JSON encoding and malformed messages: delivery, failure and loss are steps or parameters, payloads are values.
- `cmd/`, generated code, environment parsing, logging, metrics and request ids: wiring.
- The catalog service, the other gateway calls, HTTP validation and error tables, protobuf conversions: field-by-field members.
- Listing payments by customer: the same arithmetic and order as the listing of orders, without items.
- Direct gRPC creation of payments and direct stock calls: the services allow them, the composed saga does not use them.
- Liveness: an outcome event can be lost after the database update, so only safety is claimed.
- Wall-clock ids and event ids: taken as fresh inputs; `last_error`, `aggregate_type` and row timestamps of the inventory are not kept.
- Blank outbox topics: the two topics are constants.
- OutboxRelay.OutboxDelivers: lock and publication times are not cut to microseconds, because only their order matters there.
- LeaseTiming.LeaseHoldsIffBatchFits: has rows and dispatchers of its own, with a clock and without payloads; database calls take no time.
- GatewayServices.GatewayService.CancelOrder: covers a call that has nobody to wait for, and runs its two critical sections one after the other; interleaved calls are the subject of `CancelCoalescing`.
- InventoryConsumers.OrderCreatedConsumer.ReserveAll: a repository call that fails takes no effect here; one that commits and loses its reply is a step of the saga.
