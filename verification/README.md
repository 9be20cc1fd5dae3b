# Verification of the pizza marketplace's delivery and consistency machinery

This project models, in Dafny, how the marketplace's services hand events to each other and keep
their data consistent, and proves what holds of every run.

| area | modules |
|---|---|
| transactional outbox | `OutboxTable`, `OutboxWorker`, `OutboxProtocol`, `OutboxProgress`, `Backoff`, `BatchDispatch` |
| publishing with confirmations | `Publisher` |
| consuming with retries | `Consumer`, `ConsumerRetries` |
| orders and payments | `Orders`, `OrderLifecycle`, `Payments`, `Saga`, `SagaCausality`, `SagaOrders`, `SagaCommands`, `SagaLimits` |
| read model of the order service | `ReadModel`, `Convergence`, `PizzaReplication`, `PizzaSource` |
| search index | `SearchDocument`, `SearchRuns` |
| order lists | `Base64`, `Cursor`, `Pagination`, `PageWalks` |
| cart and prices | `Toppings`, `Cart`, `CartRuns`, `Pricing` |
| restaurant onboarding | `Iban`, `Onboarding`, `OnboardingRuns` |

`dafny verify dfyconfig.toml` checks everything.

## How it is modelled

- A repository or an entity that changes in place is a class. Its methods follow the code, and each
  is proved against a specification function (or relation) on values, and says in the rows' fields
  what it promises: who may call, when it refuses, what it writes.
- Whatever interleaves (workers, goroutines, the broker, split commands, deliveries) is a state
  machine: a `State`, a `Step`, when a step is `Enabled`, what it does (`Apply`), and a `Run`, a
  finite trace of steps. Theorems quantify over all runs and all positions in them.
- One copy of the outbox repository, worker, publisher and consumer is modelled; the other services
  carry the same code.
- A database transaction is one atomic step. A claim of outbox rows is two: it locks rows when it
  begins and updates them when it commits, so that other claims can skip locked rows.
- Clocks are parameters. Nothing about the outbox assumes that the database clock and the processes'
  clocks agree or that either moves forward.

Assumptions about the environment, each stated where it is used:

- the frames of one AMQP channel are read by the broker in the order they were sent; a send that
  returns an error has put no message on an open channel;
- a gateway payment that reached a final status keeps it, and gateway references are new each time;
- equal key and timestamp of replicated rows imply equal content; no two published versions of one
  pizza have the same timestamp, but later changes may carry earlier ones; timestamps are taken at
  the precision the database stores;
- a pizza stays with its restaurant, and ids of new carts were never used before;
- requests have passed the HTTP layer's validation: an address has a house number, a contact has an
  e-mail (`OnboardingRuns.PanicsExactly` does without these two), a quantity is at least one;
- the properties of `OrderLifecycle` and `OnboardingRuns` treat each handler and command as atomic.

`Saga` splits the payment and order commands into their reads, gateway calls and saves; `CartRuns`
does so with adding an item, `PizzaSource` with changing prices and details. A save writes the whole
row without looking at what is stored, so some properties of the atomic commands hold only of some
runs. For each of them there is the exact condition, a test that the save leaves
out, and a run that shows what happens without it:

| property of the split commands | holds in a run if and only if | otherwise |
|---|---|---|
| one order.confirmed row per paid order | every save meets `ConfirmGuard` (`SagaOrders.ExactlyOnceIff`) | `SagaLimits.TwoDeliveriesConfirmTwice`, `SagaLimits.LateSaveConfirmsTwice` |
| every change of a stored status is one of the life cycle | every save meets `MoveGuard` (`SagaOrders.LawfulIff`) | `SagaLimits.ConfirmedOrderIsCancelled` |
| no order is confirmed at one time and cancelled at another | every save passes `ApartAt` (`SagaOrders.NeverConfirmedAndCancelledIff`) | `SagaLimits.ConfirmedOrderIsCancelled` |
| every committed payment.succeeded has a succeeded payment | no save takes a success back (`SagaCausality.BackedIffSuccessKept`) | `SagaLimits.OverlapBreaksCausality` |
| the last published change lists the current prices | every change of details finds the prices it listed (`PizzaSource.ListsThroughoutIff`) | `PizzaSource.OldPricePublishedLast` |
| the last published change has the greatest timestamp | every publishing save is dated after all published (`PizzaSource.NewestThroughoutIff`) | `PizzaSource.OldPriceDatedLater` |
| the newest published version has every size published | every publishing save passes `SizesMentioned` (`PizzaSource.SizesThroughoutIff`) | `PizzaSource.LostSizeStaysActive` |

The first two of the last three together are what the replica needs to show the source
(`PizzaSource.ShownIffListed`), the third is what it needs to show exactly the newest version
(`PizzaSource.PublishedShownIff`, `PizzaReplication.ShownIffSizesKept`).

Payment and order commands that do not interleave meet the tests on stored rows (`SagaCommands`).

Where code and documentation differ, the code is followed. The comment on the backoff suggests
doubling up to five minutes; in 64-bit arithmetic this holds exactly for the attempts named by
`Backoff.BackoffExact`, the first wrong one being the thirty-fifth.

## Model

| member | source | states |
|---|---|---|
| OutboxTable.OutboxRepository.FetchAndMarkProcessing | order-service/internal/infrastructure/persistence/outbox.go:36-71 | an unlocked row may be taken iff it is pending with its lock and its next attempt over, or processing with its lease over; of these the claim takes the first in (next attempt, nulls first; created at) order, at most `limit` and all if they fit, gives exactly these a lease and one more attempt, and returns their new versions |
| OutboxTable.OutboxRepository.Choose | order-service/internal/infrastructure/persistence/outbox.go:42-57 | the ordered, limited selection: no row left out comes strictly before one taken |
| OutboxTable.ChosenAreDue | order-service/internal/infrastructure/persistence/outbox.go:46-57 | any such choice: a row taken is due and not locked, and a due row is left out only if the limit is reached |
| OutboxTable.ChosenComeFirst | order-service/internal/infrastructure/persistence/outbox.go:57-58 | a due row left out has no earlier next attempt than one taken (none is earliest), and with the same one is not older |
| OutboxTable.OutboxRepository.MarkProcessed | order-service/internal/infrastructure/persistence/outbox.go:73-87 | only a row that is being processed becomes processed; any other row and table is unchanged |
| OutboxTable.OutboxRepository.ReleaseForRetry | order-service/internal/infrastructure/persistence/outbox.go:89-109 | only a row that is being processed becomes pending again, without a lock, its next attempt at the given time plus the delay; lease ownership is not asked |
| OutboxTable.OutboxRepository.MarkFailed | order-service/internal/infrastructure/persistence/outbox.go:111-121 | the row becomes failed whatever its status was |
| OutboxWorker.Worker.HandleEvent | order-service/internal/application/outbox/worker.go:183-232 | a success marks the row processed; a failure marks it failed if the claim saw MaxRetries attempts and otherwise releases it with the backoff of those attempts; if the database does not take it, nothing changes |
| OutboxWorker.Worker.ReleaseUnprocessed | order-service/internal/application/outbox/worker.go:168-181 | giving back a batch's rest tries its events one after the other with no delay; a release that fails leaves its row alone and the others go on |
| OutboxWorker.GivenBackRow | order-service/internal/application/outbox/worker.go:168-181 | whatever the order, repetition and failures, each row ends as the first release of it that the database took leaves it, and is untouched if there was none |
| OutboxProtocol.NoEventLost | order-service/internal/application/outbox/worker.go:183-232 | in every run with crashes, lost bookkeeping and stale writers, a committed row is processed with a successful relay, or failed after at least MaxRetries claims, or unfinished and claimable at every time after some instant |
| OutboxProtocol.TerminalForever | order-service/internal/infrastructure/persistence/outbox.go:73-121 | rows never disappear, never leave {processed, failed}, failed is final, attempts never decrease |
| OutboxProtocol.LeaseTheorem | order-service/internal/infrastructure/persistence/outbox.go:42-65 | two successive claims of a row are separated by a release or more than 30 s of database time; attempts equals the number of claims and bounds every in-flight snapshot |
| OutboxProtocol.DelayTheorem | order-service/internal/infrastructure/persistence/outbox.go:46-57 | in every run no claim after a release, up to the next release of the row, reads a database time before the release's time plus its delay |
| OutboxProtocol.ReleasesLogged | order-service/internal/infrastructure/persistence/outbox.go:89-109 | a release that the database takes is logged with its time plus the delay it asks for, and nothing else is logged as one |
| OutboxProtocol.ClaimsLogged | order-service/internal/infrastructure/persistence/outbox.go:42-65 | a claim is logged with the time its transaction read, and its rows are due at that time |
| OutboxProtocol.OpenClaimsAreDisjoint | order-service/internal/infrastructure/persistence/outbox.go:42-65 | an open claim holds at most `limit` rows, all still eligible until it commits, and shares none with any other open claim |
| OutboxProgress.ResolvesWithinBudget | order-service/internal/application/outbox/worker.go:183-232 | in timely runs a row gets at most max(1, MaxRetries) claims, is failed exactly when that many relays all failed, and processed exactly when one succeeded |
| OutboxProgress.EveryStepMakesProgress | order-service/internal/application/outbox/worker.go:183-232 | wherever a timely run stands, a natural number per row, zero exactly when it is finished, falls with every step on the row and is untouched by all others |
| OutboxProgress.NeverStuck | order-service/internal/application/outbox/worker.go:183-232 | at every position of a timely run an unfinished row is claimable from some instant on, or has a task with an enabled step |
| OutboxProgress.RetryDelay | order-service/internal/application/outbox/worker.go:212-225 | in timely runs, up to 34 attempts, a failed relay is retried after min(2^(attempts-1), 300) seconds: no claim that reads an earlier time takes the row |
| Backoff.ComputeBackoff | order-service/internal/application/outbox/worker.go:248-264 | the clamped, wrapping 64-bit computation, always between one second and five minutes |
| Backoff.BackoffExact | order-service/internal/application/outbox/worker.go:248-264 | the delay is the intended one if and only if attempts are at most 34, or at most 55 with a named bit of 5^9 clear; otherwise it is one second |
| Backoff.ThirtyFifthAttempt | order-service/internal/application/outbox/worker.go:254-255 | the first wrong delay: one second instead of five minutes |
| BatchDispatch.BatchSafety | order-service/internal/application/outbox/worker.go:119-181 | at every moment at most Concurrency goroutines hold a token, no event is handled twice, released twice or both, and releases start where dispatching stopped |
| BatchDispatch.BatchPartition | order-service/internal/application/outbox/worker.go:119-181 | on return a prefix was dispatched and exactly the rest released, a dispatched event was handled once unless cancellation came first, all tokens are back |
| BatchDispatch.NeverDeadlocks | order-service/internal/application/outbox/worker.go:138-166 | until the batch returns some step other than cancellation is enabled |
| Publisher.AtMostOneUnread | identity-service/internal/infrastructure/messaging/rabbitmq_publisher.go:66-172 | at most one message of the current channel has an unread confirmation, and only while its sender holds the lock |
| Publisher.BrokerNeverBlocks | identity-service/internal/infrastructure/messaging/rabbitmq_publisher.go:60-70 | the confirms buffer of one always has room when the broker has a confirmation to deliver |
| Publisher.SuccessIsOwnAck | identity-service/internal/infrastructure/messaging/rabbitmq_publisher.go:90-172 | a caller that gets success has had its own message acknowledged, though the reader does not look at tags |
| Publisher.LockIsExclusive | identity-service/internal/infrastructure/messaging/rabbitmq_publisher.go:126-172 | at most one goroutine is between taking and releasing the lock |
| Publisher.HolderNotStuck | identity-service/internal/infrastructure/messaging/rabbitmq_publisher.go:90-172 | the lock's holder can go on by itself, except while waiting on a channel that is not closed, whether or not its caller gave up |
| Consumer.HandleDelivery | order-service/internal/infrastructure/messaging/rabbitmq_consumer.go:184-219 | for every delivery exactly one frame settles it and it is the last; a retry is published only directly before the acknowledgement; dead-lettered iff failed with the attempts used up, requeued iff failed before that and not republished, retried iff failed before that and republished |
| Consumer.ProperRepliesAgree | order-service/internal/infrastructure/messaging/rabbitmq_consumer.go:184-219 | these promises leave only one sequence of frames for each outcome |
| Consumer.StepsSendReplies | order-service/internal/infrastructure/messaging/rabbitmq_consumer.go:184-219 | the machine's steps for one delivery put frames on the wire that keep the same promises |
| Consumer.Conservation | order-service/internal/infrastructure/messaging/rabbitmq_consumer.go:157-243 | with handler errors, republish failures and connection losses anywhere, each message was handled or has a copy queued, unacknowledged or dead-lettered |
| Consumer.CopiesStayWellMarked | order-service/internal/infrastructure/messaging/rabbitmq_consumer.go:226-260 | every copy's retry count is in 0..3 and its event name is the routing key it was published with |
| ConsumerRetries.FourDispatches | order-service/internal/infrastructure/messaging/rabbitmq_consumer.go:189-219 | without losses and republish failures a message is dispatched at most four times; at rest it is either handled or dead-lettered, the latter after exactly four dispatches |
| ConsumerRetries.NeverStuck | order-service/internal/infrastructure/messaging/rabbitmq_consumer.go:174-221 | in such runs, while a copy is queued or held and there is a consumer, some delivery can be taken further |
| Orders.Order.Confirm | order-service/internal/domain/order/order.go:107-124 | only a pending order is confirmed, with its time and one event |
| Orders.Order.MarkReady | order-service/internal/domain/order/order.go:126-136 | only a confirmed order becomes ready |
| Orders.Order.Complete | order-service/internal/domain/order/order.go:139-151 | a confirmed or ready order is completed, no other |
| Orders.Order.Cancel | order-service/internal/domain/order/order.go:154-164 | only a pending order is cancelled |
| Orders.DispatchEventsTx | order-service/internal/application/order/dispatch.go:15-61 | events are drained in order into the rows their payloads make; events without a payload are dropped |
| Orders.OrderService.HandlePaymentSucceeded | order-service/internal/application/order/handlers/payment_succeeded.go:47-94 | one transaction: a pending order becomes confirmed and one order.confirmed row is appended with its id, restaurant, e-mail, items, total and confirmation time and the stored name and owner e-mail of the restaurant; or nothing changes |
| Orders.OrderService.HandlePaymentFailed | order-service/internal/application/order/handlers/payment_failed.go:26-57 | a pending order named by the event is cancelled and told of; anything else is left alone |
| Orders.OrderService.Cancel | order-service/internal/application/order/commands/cancel.go:26-80 | forbidden exactly if the order is missing or neither the calling customer's nor of the calling owner's restaurant; then nothing changes; the caller's pending order is cancelled unless the payment check fails or reports success |
| Orders.OrderService.MarkReady | order-service/internal/application/order/commands/mark_ready.go:23-45 | forbidden exactly to everyone but the restaurant's owner; the owner's confirmed order becomes ready, another status is an error |
| Orders.OrderService.Complete | order-service/internal/application/order/commands/complete.go:23-45 | forbidden exactly to everyone but the restaurant's owner; the owner's confirmed or ready order is completed, another status is an error |
| OrderLifecycle.ExactlyOnce | order-service/internal/application/order/handlers/payment_succeeded.go:56-93 | with atomic commands and any redelivery there is exactly one order.confirmed row if the order is confirmed, ready or completed and none otherwise; timestamps match the status |
| OrderLifecycle.AtMostThreeTransitions | order-service/internal/domain/order/order.go:107-164 | the rank of the status strictly increases with each change, so at most three happen; the confirmation time never changes |
| OrderLifecycle.CancelledByItsOwn | order-service/internal/application/order/commands/cancel.go:36-49 | in every run an order is cancelled only by a payment failure that names it or by a call of its customer or of its restaurant's owner |
| OrderLifecycle.ConfirmationTellsTheOrder | order-service/internal/application/order/handlers/payment_succeeded.go:78-93 | at every later time an order.confirmed row agrees with the stored order on restaurant, e-mail, items, total and confirmation time |
| OrderLifecycle.NeverConfirmedAndCancelled | order-service/internal/domain/order/order.go:107-164 | no run both confirms and cancels an order |
| Payments.PaymentService.HandleWebhook | payment-service/internal/application/payment/commands/handle_mollie_webhook.go:37-119 | a pending payment with this reference takes the gateway's final status together with one event row, whose kind and reason follow from the answer and whose payment, subject and amount are those of the row; otherwise nothing changes |
| Payments.PaymentService.CreatePayment | payment-service/internal/application/payment/commands/create_payment.go:32-112 | a subject's payment is created once with the subject, amount and gateway reference of the call, an existing one without reference gets the reference and nothing else, one with a reference is left alone |
| Payments.Payment.MarkSucceeded | payment-service/internal/domain/payment/payment.go:65-73 | only a pending payment succeeds |
| Payments.Payment.MarkFailed | payment-service/internal/domain/payment/payment.go:75-84 | only a pending payment fails, with its reason |
| SagaCausality.BackedIffSuccessKept | payment-service/internal/infrastructure/persistence/payment.go:29-31 | in every run, with no assumption on calls: all committed payment.succeeded events keep a succeeded payment if and only if no save overwrites a stored success with less |
| SagaCausality.PaidWhileSuccessKept | payment-service/internal/application/payment/commands/handle_mollie_webhook.go:37-119 | in such runs, with redeliveries and stale copies, every stored or in-flight copy that is confirmed, ready or completed has a succeeded payment for that order |
| SagaCausality.AttachingFirstKeepsSuccess | payment-service/internal/application/payment/commands/create_payment.go:87-112 | if attaching a gateway payment always finds its row without a reference, no success is ever taken back |
| SagaCausality.AttachingLateLosesReference | payment-service/internal/application/payment/commands/create_payment.go:103-107 | an attach that finds a reference drops it, sets the payment back to pending, and leaves the event without its payment if it had succeeded |
| SagaCausality.NoOverlapAttachesFirst | payment-service/internal/application/payment/commands/create_payment.go:36-69 | if CreatePayment calls for one subject do not overlap, attaching always finds the row without a reference |
| SagaCausality.PaidOrdersArePaid | payment-service/internal/application/payment/commands/handle_mollie_webhook.go:37-119 | hence, in every such run, no paid order copy without a succeeded payment |
| SagaCausality.EventsWereTrue | payment-service/internal/application/payment/commands/handle_mollie_webhook.go:60-119 | in every run each committed event is of a stored payment with its subject and amount, which at some time before was succeeded, or failed for the reason the event gives |
| SagaCausality.HandlersHavePayments | order-service/internal/application/order/handlers/payment_failed.go:26-57 | in every run a handler about to cancel an order has a failed payment of that order at some earlier time, one about to confirm it a succeeded one |
| SagaOrders.ExactlyOnceIff | order-service/internal/application/order/handlers/payment_succeeded.go:56-93 | in every run of the split commands: one order.confirmed row for each paid order and none for others, at every position, if and only if every confirming save finds the stored order unpaid and every other save leaves it as paid or unpaid as it was |
| SagaOrders.LawfulIff | order-service/internal/infrastructure/persistence/order.go:31-33 | stored orders change along the life cycle throughout a run if and only if every save's status follows from the stored one |
| SagaOrders.GuardedNeverConfirmedAndCancelled | order-service/internal/domain/order/order.go:107-164 | then no run both confirms and cancels an order, and an order's status only moves up its life cycle |
| SagaOrders.PaidIffConfirmed | order-service/internal/application/order/handlers/payment_succeeded.go:56-93 | in every run an order is confirmed, ready or completed at some time if and only if some save confirms it, stale copies or not |
| SagaOrders.NeverConfirmedAndCancelledIff | order-service/internal/application/order/commands/cancel.go:51-80 | no order of a run is confirmed at one time and cancelled at another, if and only if every cancelling save finds no order.confirmed row of its order and every confirming one follows no save that cancelled it |
| SagaCommands.WebhookIsAtomic | payment-service/internal/application/payment/commands/handle_mollie_webhook.go:37-119 | the webhook's steps, not interleaved, do what its atomic form does, whatever the gateway answers, and meet every test of their saves |
| SagaCommands.CreateIsAtomic | payment-service/internal/application/payment/commands/create_payment.go:32-112 | so do those of CreatePayment, for a new subject, an existing payment and a failing gateway |
| SagaCommands.SucceededIsAtomic | order-service/internal/application/order/handlers/payment_succeeded.go:47-94 | so does the payment.succeeded handler, giving up if the restaurant is missing |
| SagaCommands.FailedIsAtomic | order-service/internal/application/order/handlers/payment_failed.go:26-57 | so does the payment.failed handler |
| SagaCommands.CancelIsAtomic | order-service/internal/application/order/commands/cancel.go:26-80 | so does cancelling, for every caller and every answer about the payment |
| SagaCommands.CheckoutIsAtomic | order-service/internal/application/order/commands/checkout.go:173-211 | so does checkout from storing the order on, with or without its payment |
| SagaCommands.ReadyIsAtomic | order-service/internal/application/order/commands/mark_ready.go:23-45 | so does marking ready |
| SagaCommands.CompleteIsAtomic | order-service/internal/application/order/commands/complete.go:23-45 | so does completing |
| SagaLimits.TwoDeliveriesConfirmTwice | order-service/internal/application/order/handlers/payment_succeeded.go:56-93 | a run outside ConfirmGuard: two deliveries of one event both read the pending order before either saves |
| SagaLimits.LateSaveConfirmsTwice | order-service/internal/application/order/commands/checkout.go:196-211 | another one: the gateway reports the payment before checkout has saved its id, and that save undoes the confirmation |
| SagaLimits.ConfirmedOrderIsCancelled | order-service/internal/application/order/commands/cancel.go:51-67 | a run outside MoveGuard: a paid and confirmed order ends cancelled by a save decided before |
| SagaLimits.OverlapBreaksCausality | payment-service/internal/application/payment/commands/create_payment.go:64-112 | a run outside SuccessKept: with overlapping CreatePayment calls an order is confirmed without a succeeded payment |
| ReadModel.Store.HandleLaunched | order-service/internal/application/readmodel/upsert_restaurant.go:90-192 | the restaurant is put with the fields of the event; no pizza goes, one that changes is a snapshot entry that is not archived and has an active price, and every such entry ends with a row at least as new if the handler completes; then the topping prices; all up to the first failing statement |
| ReadModel.Store.HandlePizza | order-service/internal/application/readmodel/sync_pizza.go:52-99 | an archived pizza, or one without an active price, that is newer than the stored row is gone with all its prices afterwards; any other, handled to its end, leaves a row at least as new, and new rows and prices are those of the event |
| ReadModel.Store.HandleToppings | order-service/internal/application/readmodel/sync_topping_prices.go:34-60 | each topping price is put with the fields of the event, up to the first failing statement |
| ReadModel.Store.HandleUpdated | order-service/internal/application/readmodel/update_restaurant.go:44-85 | the restaurant is put with the fields of the event if it is newer, or nothing if a field cannot be read |
| ReadModel.Store.UpsertRestaurant | order-service/internal/infrastructure/persistence/restaurant.go:38-49 | the row is replaced only by a newer one |
| ReadModel.Store.UpsertPizza | order-service/internal/infrastructure/persistence/pizza.go:39-47 | the row is replaced only by a newer one, and needs its restaurant |
| ReadModel.Store.DeletePizza | order-service/internal/infrastructure/persistence/pizza.go:49-53 | only an older row is deleted, and its prices with it |
| ReadModel.Store.UpsertPrice | order-service/internal/infrastructure/persistence/pizza_price.go:30-38 | the price of (pizza, size) is replaced only by a newer one, and needs its pizza |
| ReadModel.Store.UpsertTopping | order-service/internal/infrastructure/persistence/topping_price.go:33-41 | the topping price is replaced only by a newer one, and needs its restaurant |
| Convergence.SameEventsSameTables | order-service/internal/infrastructure/persistence/restaurant.go:38-49 | for any two runs of statements of the same delivered events, interleaved and repeated at will, restaurants and topping prices end equal |
| Convergence.NoArchivedPizzaStored | order-service/internal/application/readmodel/sync_pizza.go:58-64 | whatever handlers of updates and launches interleave, stop and are repeated, no stored pizza is archived |
| Convergence.PermutedDeliveries | order-service/internal/application/readmodel/sync_topping_prices.go:34-60 | handlers run to their end in any order and number give the same restaurants and topping prices |
| PizzaReplication.NewestUpsertShown | order-service/internal/application/readmodel/sync_pizza.go:52-99 | once the newest version was delivered as an upsert, the replica has its row, and its sizes at its prices, whatever older upserts and deletes did and do |
| PizzaReplication.NewestUpsertWins | order-service/internal/application/readmodel/sync_pizza.go:52-99 | if moreover no other version has a size that the newest one lacks, the replica shows exactly the newest version, whatever older upserts and deletes did and do |
| PizzaReplication.ShownIffSizesKept | order-service/internal/application/readmodel/sync_pizza.go:52-99 | exactly: every delivery of the newest version leaves just that version if and only if no version has a size it lacks |
| PizzaReplication.WiderThenNarrower | order-service/internal/application/readmodel/sync_pizza.go:82-99 | otherwise: a version with a size too many, delivered before one without it, leaves that size on offer |
| PizzaReplication.NewestEventShown | order-service/internal/application/readmodel/upsert_restaurant.go:126-168 | handlers of events that interleave, stop and are repeated: the newest event, once delivered as an upsert, is there with its row, sizes and prices |
| PizzaReplication.NewestEventWins | order-service/internal/application/readmodel/upsert_restaurant.go:126-168 | the same for handlers of events, launch snapshots included: just the newest event, if no handler writes a price in a size it lacks |
| PizzaReplication.EventShownIffWritesKept | order-service/internal/application/readmodel/upsert_restaurant.go:126-168 | exactly: if the newest event can be delivered at all, every delivery leaves just that event if and only if no handler writes another size |
| PizzaReplication.HandlerDelivers | order-service/internal/application/readmodel/sync_pizza.go:52-99 | a handler that runs to its end delivers its version, whatever ran before and runs after |
| PizzaSource.BuildPrices | restaurant-service/internal/application/pizza/commands/set_pizza_prices.go:88-113 | a request is accepted exactly when every size is known and none repeats; otherwise the error names the first offender |
| PizzaSource.PriceTable.ReplacePrices | restaurant-service/internal/infrastructure/persistence/pizza_price_repository.go:26-59 | the list is stamped in place; afterwards exactly the requested sizes of the pizza are active at the requested prices, no size is forgotten, other pizzas are untouched |
| PizzaSource.ReplicaShowsSource | restaurant-service/internal/application/pizza/commands/set_pizza_prices.go:125-157 | end to end, with changes of prices and details overlapping and clocks disagreeing: if the version of the last change lists the current prices and none published is dated later, every delivery of it as an upsert leaves the replica with the source's current name, status, sizes, prices and activity |
| PizzaSource.ShownIffListed | restaurant-service/internal/application/pizza/commands/update_pizza.go:123-153 | exactly: every delivery of the version of the last change, if orderable, brings the replica to the source's state if and only if that version lists the current prices and none published is dated later |
| PizzaSource.LastListsIff | restaurant-service/internal/application/pizza/commands/update_pizza.go:123-153 | a step keeps the version of the last change listing the current prices exactly if a published change of details finds the prices it listed unchanged |
| PizzaSource.ListsThroughoutIff | restaurant-service/internal/application/pizza/commands/update_pizza.go:123-153 | throughout a run that version lists the current prices if and only if every published change of details finds the prices it listed unchanged |
| PizzaSource.NewestThroughoutIff | restaurant-service/internal/infrastructure/persistence/pizza_repository.go:32-37 | throughout a run it has the greatest timestamp if and only if every publishing save is dated after everything published before |
| PizzaSource.PublishedShownIff | restaurant-service/internal/application/pizza/commands/update_pizza.go:123-153 | at every position of every run, every delivery of the newest published version leaves the replica with just that version if and only if no published one has a size it lacks |
| PizzaSource.SizesThroughoutIff | restaurant-service/internal/application/pizza/commands/update_pizza.go:123-153 | throughout a run none has, if and only if every publishing save dated after everything published mentions every size published, and one dated before lists only sizes the newest has |
| PizzaSource.SetPricesMentionAll | restaurant-service/internal/application/pizza/commands/set_pizza_prices.go:125-157 | setting prices, dated after everything published, always passes that test |
| PizzaSource.OldPricePublishedLast | restaurant-service/internal/application/pizza/commands/update_pizza.go:123-153 | a run in which a change of details publishes an old price after the new one |
| PizzaSource.OldPriceDatedLater | restaurant-service/internal/infrastructure/persistence/pizza_repository.go:32-37 | a run in which the last change lists the current price but an older one is dated later |
| PizzaSource.LostSizeStaysActive | restaurant-service/internal/application/pizza/commands/update_pizza.go:123-153 | a run in which a change of details publishes, last, a list without a size published before; after both deliveries that size is still on offer |
| SearchDocument.SearchIndex.UpsertSnapshot | search-service/internal/infrastructure/elasticsearch/search_repository.go:117-122 | a snapshot creates the document or replaces an older one, in milliseconds |
| SearchDocument.SearchIndex.UpdateFields | search-service/internal/infrastructure/elasticsearch/search_repository.go:124-145 | newer fields replace the fields and leave pizzas and topping prices |
| SearchDocument.SearchIndex.UpdateToppingPrices | search-service/internal/infrastructure/elasticsearch/search_repository.go:151-157 | topping prices are guarded by their own timestamp |
| SearchDocument.SearchIndex.UpsertPizza | search-service/internal/infrastructure/elasticsearch/search_repository.go:164-174 | the first pizza with the id is replaced by a newer one, in milliseconds, or the pizza is appended if there is none; nothing else changes |
| SearchDocument.SearchIndex.RemovePizza | search-service/internal/infrastructure/elasticsearch/search_repository.go:179-189 | the first pizza with the id goes if it is older, in milliseconds; the others keep their order |
| SearchDocument.PutRefines | search-service/internal/infrastructure/elasticsearch/search_repository.go:164-174 | the upsert script refines a guarded update of a map from id to pizza; ids stay distinct, other pizzas keep value and order |
| SearchDocument.RemoveRefines | search-service/internal/infrastructure/elasticsearch/search_repository.go:179-189 | the remove script refines a guarded removal; ids stay distinct, other pizzas keep value and order |
| SearchDocument.SnapshotPizzas | search-service/internal/application/index/upsert_snapshot.go:91-126 | snapshot pizzas carry their active prices only and the zero timestamp |
| SearchRuns.IdsStayDistinct | search-service/internal/infrastructure/elasticsearch/search_repository.go:117-189 | in every run of the five scripts pizza ids stay distinct |
| SearchRuns.UpdatedAtNeverDecreases | search-service/internal/infrastructure/elasticsearch/search_repository.go:117-145 | once there, the document stays and its updatedAt never decreases |
| SearchRuns.RedeliveredSnapshotIsNoOp | search-service/internal/infrastructure/elasticsearch/search_repository.go:117-122 | a snapshot delivered again changes nothing, whatever happened since |
| SearchRuns.NewestPizzaWins | search-service/internal/infrastructure/elasticsearch/search_repository.go:164-189 | once the newest upsert of a pizza ran, the document shows it after any older scripts and repeated snapshots |
| SearchRuns.SnapshotPizzaYields | search-service/internal/application/index/upsert_snapshot.go:99-126 | any dated upsert replaces a snapshot's pizza |
| Base64.RoundTrip | order-service/internal/application/order/cursor.go:20-36 | base64url without padding (section 5 of RFC 4648) decodes to what was encoded |
| Base64.SameBits | order-service/internal/application/order/cursor.go:20-36 | three bytes and their four letters are the same 24 bits, most significant first |
| Base64.SameBitsAtEnd | order-service/internal/application/order/cursor.go:20-36 | one or two bytes left over are the bits of two or three letters, zeros after them |
| Base64.KnownEncodings | order-service/internal/application/order/cursor.go:20-36 | a test vector of section 10 of RFC 4648, and the last two letters of the URL-safe alphabet of section 5 |
| Cursor.CursorRoundTrip | order-service/internal/application/order/cursor.go:20-52 | decoding an encoded cursor gives it back, for every RFC 3339 (section 5.6) timestamp with nanoseconds and offset and every UUID |
| Cursor.TimeRoundTrip | order-service/internal/application/order/cursor.go:20-45 | a formatted timestamp, trailing zeros of the fraction dropped, parses to itself |
| Cursor.KnownTime | order-service/internal/application/order/cursor.go:20-24 | a time with a fraction and a negative offset, written as RFC 3339 has it |
| Cursor.ClampLimit | order-service/internal/application/order/cursor.go:54-63 | 20 for no or a negative limit, 100 for a larger one, otherwise the limit |
| Pagination.OrderRepository.ListByCustomer | order-service/internal/infrastructure/persistence/order.go:87-103 | the first `limit` of the customer's orders whose time, or at the same time whose id, is below the cursor's, later ones first and of equal times the larger id; none is left out before the end |
| Pagination.InstantOrder | order-service/internal/infrastructure/persistence/order.go:94-99 | with one offset, instants compare as year, month, day, hour, minute, second and nanosecond do |
| Pagination.InstantOffset | order-service/internal/infrastructure/persistence/order.go:94-99 | each minute of offset is a minute earlier |
| Pagination.InstantOfNextDay | order-service/internal/infrastructure/persistence/order.go:94-99 | the next day of the calendar, at the end of any month or year too, is 24 hours later |
| Pagination.IdOrder | order-service/internal/infrastructure/persistence/order.go:94-99 | ids compare as their bytes do, the first that differ deciding |
| Pagination.ListMyOrders.Execute | order-service/internal/application/order/queries/list_my_orders.go:21-56 | a malformed cursor is an error; a page is complete if its cursor is empty, and otherwise full with everything not shown below the row its cursor stands for |
| PageWalks.NothingTwiceNothingMissed | order-service/internal/application/order/queries/list_my_orders.go:21-56 | following the cursors with any limits while orders are inserted gives a strictly descending sequence that in the end contains every order of the start |
| PageWalks.WalkTerminates | order-service/internal/application/order/queries/list_my_orders.go:21-56 | with only newer orders inserted the walk ends, after at most one page more than there were orders, having shown exactly those |
| Toppings.SortedCopy | order-service/internal/domain/cart/cart_item.go:22-26 | the copy is sorted and has the same toppings with the same multiplicity |
| Toppings.SortedIsCanonical | order-service/internal/domain/cart/cart_item.go:22-36 | sorted lists of the same toppings are the same list |
| Cart.CartStore.AddOrMergeItem | order-service/internal/infrastructure/persistence/cart.go:45-56 | the line with this cart, pizza, size and toppings gets the sum, or a new line is stored, and nothing else changes; a sum or quantity outside 1 to 32767 or a missing cart changes nothing |
| Cart.CartStore.UpdateItemQuantity | order-service/internal/infrastructure/persistence/cart.go:58-70 | the cart's own item gets a quantity of 1 to 32767, or nothing changes |
| Cart.CartStore.RemoveItem | order-service/internal/infrastructure/persistence/cart.go:72-93 | the cart's own item goes, and with the last one, and only then, the cart |
| Cart.CartStore.AddItem | order-service/internal/application/cart/commands/add_item.go:36-118 | pizza, size, toppings and the restaurant of the present cart are checked in this order and the first failing check decides the error and changes nothing; otherwise the sorted line is added to the customer's cart, created if need be for the pizza's restaurant |
| CartRuns.OneLinePerChoice | order-service/internal/infrastructure/persistence/cart.go:45-56 | in every run there is at most one line per cart, pizza, size and multiset of toppings |
| CartRuns.QuantityIsLastSetPlusAdds | order-service/internal/infrastructure/persistence/cart.go:45-93 | a line's quantity is the last set value plus all later additions; without either there is no line |
| CartRuns.EmptyCartsWereNeverFilled | order-service/internal/infrastructure/persistence/cart.go:72-93 | a cart without items never had any |
| CartRuns.OneRestaurantPerCart | order-service/internal/application/cart/commands/add_item.go:80-102 | all lines of a cart are of the cart's restaurant, although a request checks the cart, or creates one, some time before it stores its line |
| CartRuns.AddItemIsItsSteps | order-service/internal/application/cart/commands/add_item.go:80-118 | without interruption the steps of the runs do what AddItem does: refused exactly for a cart of another restaurant, otherwise the same tables |
| Pricing.ResolveOrder | order-service/internal/application/order/commands/checkout.go:111-124 | the loop fails exactly when some line is unavailable, and otherwise prices every line and sums the totals |
| Pricing.TotalOfParts | order-service/internal/application/order/commands/checkout.go:111-124 | the subtotal of a list is the sum of those of its parts |
| Pricing.ExtrasOfParts | order-service/internal/application/order/commands/checkout.go:245-260 | so are the extras of a topping list, one topping costing its listed extra |
| Pricing.ResolveOrderItem | order-service/internal/application/order/commands/checkout.go:219-278 | an available line costs its first active row of the size plus all extras, times its quantity |
| Pricing.ResolveItemView | order-service/internal/application/cart/queries/get_cart.go:79-154 | the view of a line: available under the same condition, priced the same, every topping shown |
| Pricing.ViewAndCheckoutAgree | order-service/internal/application/cart/queries/get_cart.go:53-77 | checkout is refused exactly when the view shows an unavailable line; otherwise unit prices, line totals, names, diameters and subtotal are equal |
| Pricing.PriceOrder | order-service/internal/application/order/commands/checkout.go:66-171 | each error exactly under its condition, in order: empty cart, fulfilment not offered, address, phone, an unavailable line, a subtotal below the minimum order, no coordinates, outside the radius; otherwise the total is the sum of the line totals plus the delivery fee, zero for pickup |
| Iban.Mod97 | restaurant-service/internal/interfaces/http/validation/validators.go:70-76 | the digit loop computes the big integer modulo 97 (ISO 7064 MOD 97-10) |
| Iban.IsIban | restaurant-service/internal/interfaces/http/validation/validators.go:37-68 | accepted are exactly the texts that, normalised, are well-formed with rearranged number 1 modulo 97 |
| Iban.KnownIban | restaurant-service/tests/interfaces/http/validation/validators_test.go:23-24 | the number of a valid IBAN of the tests, its letters written as two digits |
| Iban.SpacesAndCase | restaurant-service/tests/interfaces/http/validation/validators_test.go:24-26 | spaces and lower case do not matter |
| Iban.OneCharacterDetected | restaurant-service/internal/interfaces/http/validation/validators.go:37-68 | replacing a digit by another digit or a letter by another letter makes an accepted IBAN rejected |
| Iban.SwapDetected | restaurant-service/internal/interfaces/http/validation/validators.go:37-68 | so does swapping unequal neighbours of one kind on the same side of the split |
| Iban.MistypedCharacterDetected | restaurant-service/internal/interfaces/http/validation/validators.go:37-38 | the same for the text as typed, spaces and case aside |
| Onboarding.Restaurant.CompleteChecklistItem | restaurant-service/internal/domain/restaurant/restaurant.go:150-162 | the item is ticked and no other, and a draft with all six items ticked goes to review with one event |
| Onboarding.Restaurant.IsCompleted | restaurant-service/internal/domain/restaurant/checklist.go:35-52 | true exactly when every required item is present and done |
| Onboarding.Restaurant.Approve | restaurant-service/internal/domain/restaurant/restaurant.go:164-179 | from review only; dereferences the e-mail |
| Onboarding.Restaurant.Launch | restaurant-service/internal/domain/restaurant/restaurant.go:181-194 | from approved only, with one event |
| Onboarding.DispatchEvents | restaurant-service/internal/application/restaurant/dispatch.go:15-63 | the events' rows in order, or a nil dereference exactly if one of the builders meets a missing field |
| Onboarding.GenerateUniqueSlug | restaurant-service/internal/application/restaurant/commands/update_address.go:110-140 | the base if no other restaurant has it, else the first of the base with -2 to -9 that none has, or an error exactly if all are taken |
| Onboarding.OnboardingService.HandleUpdateAddress | restaurant-service/internal/application/restaurant/commands/update_address.go:43-108 | an unchanged address reuses the stored coordinates, another one takes the geocoded ones; slug, address and coordinates are saved with the ticked item and the row of the review or update it leads to, or nothing is; each outcome exactly under its condition |
| Onboarding.OnboardingService.HandleUpdateContact | restaurant-service/internal/application/restaurant/commands/update_contact.go:39-78 | the contact is saved with the ticked item and the row of the review or update it leads to, or nothing is |
| Onboarding.OnboardingService.HandleCreatePayout | restaurant-service/internal/application/payout/commands/create_payout.go:39-85 | refused exactly if there is an unverified payout already or the id is taken; otherwise row, ticked item and review row are saved together |
| Onboarding.OnboardingService.HandleApprove | restaurant-service/internal/application/restaurant/commands/approve_restaurant.go:38-75 | from review the status, one row with name and e-mail and the promotion of the unverified payout are saved together, or nothing is; each outcome exactly under its condition |
| Onboarding.OnboardingService.HandleLaunch | restaurant-service/internal/application/restaurant/commands/launch_restaurant.go:52-106 | with at least two ready pizzas an approved restaurant becomes active with one row of its slug, place and time; each other outcome exactly under its condition |
| OnboardingRuns.ChecklistIsHonest | restaurant-service/internal/domain/restaurant/restaurant.go:150-227 | in every reachable state, validated requests or not, a non-draft restaurant has a complete checklist and a done address item means slug, coordinates and timezone are set; with validated requests a done contact item means the e-mail is |
| OnboardingRuns.NoCommandPanics | restaurant-service/internal/application/restaurant/events.go:90-198 | with validated requests no command on a reachable state dereferences a missing field |
| OnboardingRuns.PanicsExactly | restaurant-service/internal/application/restaurant/commands/update_address.go:70-72 | on every reachable state, whether or not this and the earlier requests were validated, a request panics if and only if it sets the empty address while the stored one is empty and coordinates or timezone are missing (as on a new restaurant, `EmptyAddressPanics`), or approves a restaurant in review without an e-mail (as after `MissingEmailPanics`) |
| OnboardingRuns.ApprovalFindsPayout | restaurant-service/internal/infrastructure/persistence/payout_details_repository.go:72-90 | approving from review always finds an unverified payout and makes it active |
| OnboardingRuns.AnnouncedOnceInOrder | restaurant-service/internal/domain/restaurant/restaurant.go:150-227 | ready_for_review, approved and launched are announced at most once each, in that order, before any update |

## Left out

- The outbox worker's timer, `Start`, `shutdown` and running flag: batches may start at any moment in the protocol.
- The relayer behind a worker: its outcome is an arbitrary result of the Relay step.
- The copies of outbox, publisher and consumer in the other services: same code.
- SQL, GORM, JSON, AMQP and Elasticsearch internals: tables, a broker with one queue and confirmations, and a document with the guards the code writes.
- Several handlers registered for one event, and tracing.
- Connection and channel objects of the publisher and consumer: an open flag per channel, replaced on reconnect.
- The best-effort cancellation of a payment after an order was cancelled: the gateway may decide at any moment anyway.
- Pricing.PriceOrder: restaurant and customer rows are taken as found, and repository errors do not occur.
- Fields of the search document that no script looks at (location, delivery times, opening hours, rating): written together with the fields kept.
- Read-model rows the database itself rejects (negative prices, unknown enum values, numeric overflow): such a payload counts as Malformed.
- Removing restaurants: no statement of the order service does.
- Convergence.SameEventsSameTables: says nothing about pizzas, because deletes leave no tombstone; what holds of pizzas is PizzaReplication.NewestUpsertShown and ShownIffSizesKept.
- PizzaSource.ShownIffListed: the launch reads its snapshot and saves in one step; reading ownership, toppings and sizes is left out.
- OrderLifecycle.ExactlyOnce: for atomic commands; for split ones SagaOrders.ExactlyOnceIff gives the exact condition.
- Cursor.CursorRoundTrip: decoding is strict; the spellings the Go libraries also accept (UUIDs in braces or without dashes, a comma in the fraction) are not modelled, and no encoder output uses them; offsets are whole minutes.
- Toppings.SortedCopy: the library's in-place sort is an insertion into a sequence; only its result matters.
- Onboarding.OnboardingService.HandleLaunch: the pizza catalog is a number of ready pizzas.
- ListByRestaurant, the owner's order list: same query with another filter.
- Geocoding, distances, ratings and floating point: given booleans and integers.
- The open-now search script, search queries, the circuit breaker, authentication, HTTP handlers and e-mail.
