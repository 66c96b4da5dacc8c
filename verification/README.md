# Verified model of the notification retry protocol and the portfolio caches

Two protocols of this repository are short in code and hard over whole runs, because their steps interleave,
every `await` can fail, and time matters.

* **The retry protocol.** A `transaction.created` event is delivered to `TransactionCreatedConsumer`. When the
  handler throws, the broker dead-letters the message to a retry queue, whose expiry dead-letters it back;
  after three rounds the handler records it as DEAD and parks a copy on a terminal queue.
* **Cache-aside over Postgres.** The portfolio service caches transactions (30 s), preferences and rules
  (60 s): readers get, read the table and set; writers commit and delete the key.

They meet twice: `create` publishes the events the consumer handles, and the consumer decides whether to notify
from preferences and rules read through those caches.

## How it is built

* `HandlerSteps` cuts `handle` and `parkAsDead` at their awaits: `Goto` is the control flow, `Write` what is
  stored. `Consumer` has the same code as methods over a notification table and a broker connection; their
  contracts equate what they leave behind with an await-by-await run, and `RetryRefinement` shows that every
  handler of the concurrent system that is left alone does the same.
* `RetrySystem` is the transition system: any number of events, up to ten unacknowledged deliveries, handlers
  interleaved at every await. Its steps are publish, deliver, pass an await, acknowledge, reject, crash, expire.
  The broker routes by the bindings of `docker/rabbitmq/definitions.json` and keeps the `x-death` header.
* `Lifecycle` is the life of a single event with its invariant; `Isolation` proves that a step of the system is
  one step of one event's life and invisible to all others; `RetryRuns` lifts the invariant to every run;
  `RetryTheorems`, `RetryTermination` and `ForceFailRetry` state what follows.
* `RowOrigins` traces every notification row back to the lookup its handler made before creating it.
* `CacheAside` is one cached key with readers and writers interleaved at every await, and `MonotonicReads` says
  when reads through it are monotonic; `Freshness` instantiates both for the three services and composes them
  with the retry protocol.
* `Delivery` has the force-fail service as a class over a Redis; `DeliveryRaces` takes its INCR and EXPIRE apart,
  and `DeliveryAnswers` says what the retry protocol sees of such a run.
* `CreateCommits` shows that interleaved creates are a run of the writers of `CacheAside`.
* `PortfolioServices` has the services as classes over one shared Redis. `PortfolioTables` says what the
  operations mean without caches, and `PortfolioHistory` what they answer by the history alone.
* `Publisher` interleaves `create` calls that may throw at each await, and carries the validation arithmetic;
  `EndToEnd` feeds its events to the retry protocol.

Faults are counted per event, so each theorem says which ones it tolerates: `deliver` failing (always allowed);
a database or publish call that throws without effect (`throws`); such a call that took effect but whose reply
was lost, so that it throws all the same (`lost`); a crash, after which the broker requeues the message with its
header unchanged (`crashes`).

## Assumptions about the environment

* RabbitMQ keeps one `x-death` entry per queue and reason; each dead-lettering increments its count and moves it
  to the front. Its rule that drops messages in dead-letter cycles never applies, since the leg out of the main
  queue is a rejection.
* Topic routing without wildcards is equality of routing keys (section 3.1.3.3 of the AMQP 0-9-1 specification).
* Queues hand out, expire and requeue in any order, which includes their first-in first-out order. A crash of
  the whole process is a sequence of requeues of its deliveries.
* Redis times are milliseconds; an entry is gone from its deadline on, and may be evicted earlier. A reader that
  takes longer than the lag between its table read and its answer, or a call that throws, takes no further step.
  A writer whose delete throws never deletes.
* Amounts are real numbers; a `Decimal(20, 8)` column holds whole units of 1e-8, rounded half up. Prisma, Redis,
  RabbitMQ, zod and class-validator are the tables, stores, queues and predicates stated here.

## Where code and documentation differ

The model follows the code.

* `docs/architecture-overview.md:109` writes a SUPPRESSED row for a suppressed delivery; the consumer writes
  none (`apps/notification/src/consumers/transaction-created.consumer.ts:90-99`).
* `docs/architecture-overview.md:70` puts the 60 s cache of preferences and rules into the notification service;
  it is in the portfolio service (`apps/portfolio/src/preferences/preferences.service.ts:34-47`).
* `idempotencyKey` is accepted and never used
  (`apps/portfolio/src/transactions/transactions.service.ts:27-36`): two equal commands insert two rows.

Three properties one might expect are false, and the model says exactly when they hold.

* Reads through the cache are not monotonic (`MonotonicReads.ReadsCanGoBack`, and for preferences
  `Freshness.OptingOutCanBeUnread`). They are at every moment, whoever reads next, in exactly the runs in which
  a reader that sets the cache holds nothing older than an answer already given, and a reader that answers
  without setting it holds nothing newer than the live entry. It is enough that no commit falls between a
  reader's table read and its set. Older and newer refer to commits: a state committed again is a newer one.
* A positive amount is not always an event the consumer accepts (`Publisher.TinyAmountsAreDropped`): it is
  exactly from half a unit of the column on, which the gateway's minimum guarantees.
* When calls of `deliver` overlap, one can fail although its user had one less than a minute before
  (`DeliveryRaces.LateExpiryFailsAgain`). None can in exactly the runs in which the key is never gone while a
  call of the last minute still has to set its expiry.

## Model

| member | source | states |
|---|---|---|
| `Messaging.EachLegHasOneQueue` | docker/rabbitmq/definitions.json:98-123 | Each publish of the protocol (created, retry, failed) puts one copy on one queue, the right one, and none elsewhere |
| `Messaging.TopologiesAgree` | apps/notification/src/messaging/rabbitmq.module.ts:17-44 | The bindings the application declares and those the broker is provisioned with route every message alike |
| `Messaging.GetRetryCount` | apps/notification/src/consumers/transaction-created.consumer.ts:28-39 | For missing headers, a missing or malformed `x-death` and any entries, the loop returns the sum of the counts of the main queue's entries |
| `Messaging.StampCounts` | docker/rabbitmq/definitions.json:70-89 | One dead-lettering adds one to the count of its queue and nothing to any other queue's |
| `Messaging.HeaderCountsHistory` | apps/notification/src/consumers/transaction-created.consumer.ts:28-39 | For every history of dead-letterings with any reasons, the merged header counts exactly those out of the main queue; retry-queue expiries never count |
| `Consumer.DriveToDelivery` | apps/notification/src/consumers/transaction-created.consumer.ts:77-111 | Up to the delivery a run skips without writing when a lookup is missing or disabled, and else inserts one PENDING row with the retry count and the preference's channel |
| `Consumer.DriveFromDelivery` | apps/notification/src/consumers/transaction-created.consumer.ts:113-137 | From the created row on, for every way delivery and updates may end: SENT with one attempt more, or rejected with the row FAILED, the error that was thrown and one attempt more, also after an update whose reply was lost |
| `Consumer.DriveParking` | apps/notification/src/consumers/transaction-created.consumer.ts:140-159 | From the third retry on: a DEAD row on EMAIL with the retry count as it is and its fixed error, then one copy with fresh headers; whatever throws rejects |
| `Consumer.TransactionCreatedConsumer.Handle` | apps/notification/src/consumers/transaction-created.consumer.ts:66-138 | For every message and every way its awaits may end, the verdict, the rows and the terminal queue are those of the await-by-await run |
| `Consumer.TransactionCreatedConsumer.DeliverAndMark` | apps/notification/src/consumers/transaction-created.consumer.ts:113-137 | The try and catch: also an update to SENT that throws marks the row FAILED and rejects, and a second failure rejects too |
| `Consumer.TransactionCreatedConsumer.ParkAsDead` | apps/notification/src/consumers/transaction-created.consumer.ts:140-159 | The DEAD row comes first and the copy second; a failure of either rejects, after which parking is tried again |
| `Lifecycle.EveryMoveKeepsLifeInv` | apps/notification/src/consumers/transaction-created.consumer.ts:66-159 | Every step, with every fault, keeps an event's invariant: its route, its rows and their numbering, bounded duplicates, consent and the steps it has left |
| `RetrySystem.RejectedGoesToRetry` | docker/rabbitmq/definitions.json:70-78 | A rejected message goes to the retry queue alone, its retry count one higher |
| `RetrySystem.ExpiredGoesToMain` | docker/rabbitmq/definitions.json:80-89 | A message whose delay ends is back on the main queue alone, its retry count unchanged |
| `RetrySystem.StepMovesOne` | docker/rabbitmq/definitions.json:69-123 | Every step but a publication takes one message from where it is and puts that message where the step says; nothing else moves |
| `Isolation.OthersUntouched` | apps/notification/src/consumers/transaction-created.consumer.ts:102-136 | A step of one handler leaves the rows, copies, calls and counts of every other event as they were, though all share one table |
| `Isolation.StepIsOneMove` | apps/notification/src/consumers/transaction-created.consumer.ts:66-159 | To its own event a step of the interleaved system is a step of that event alone, wherever other events' rows lie |
| `RetryRuns.RunInv` | apps/notification/src/consumers/transaction-created.consumer.ts:66-159 | Every run, of any length and interleaving, keeps the invariant of every event, no event being in two places |
| `RetryTheorems.ExactlyOnePlace` | docker/rabbitmq/definitions.json:69-123 | Whatever fails or crashes, a published event is in exactly one of main queue, retry queue, handlers and acknowledged deliveries, with its payload |
| `RetryTheorems.HandlersAreFewAndDistinct` | apps/notification/src/messaging/rabbitmq.module.ts:14-16 | At most ten deliveries are unacknowledged, and two handlers never work on the same event |
| `RetryTheorems.SettledExactlyOnce` | apps/notification/src/consumers/transaction-created.consumer.ts:80-159 | Without crash or lost reply, but with any number of throwing calls, a settled event has exactly one of: one SENT row; a skip; one copy on the terminal queue with a DEAD row behind it; an invalid payload and no row |
| `RetryTheorems.CopyMeansParked` | apps/notification/src/consumers/transaction-created.consumer.ts:140-159 | Likewise at every moment: at most one copy, and only of an event that is parked or about to be acknowledged as parked |
| `RetryTheorems.DeliveryBound` | apps/notification/src/consumers/transaction-created.consumer.ts:77-83 | With every kind of fault, `deliver` is called for an event at most MAX_RETRIES times plus its crashes, even when the retry count passes the limit |
| `RetryTheorems.DuplicatesBounded` | apps/notification/src/consumers/transaction-created.consumer.ts:113-159 | SENT rows and terminal copies of an event are at most one plus its crashes and lost replies; there is a DEAD row for each copy |
| `RetryTheorems.AtLeastOnce` | apps/notification/src/consumers/transaction-created.consumer.ts:113-159 | With every kind of fault, an event settled as notified has a SENT row, and one settled as parked has a copy on the terminal queue and a DEAD row |
| `RetryTheorems.NewestRowTells` | apps/notification/src/consumers/transaction-created.consumer.ts:120-123 | With every kind of fault, the newest row of a notified event is SENT with one attempt more than the message's retry count, and of a parked one DEAD with exactly that many |
| `RetryTheorems.RowsBeforeHandling` | apps/notification/src/consumers/transaction-created.consumer.ts:77-111 | Without such faults a handler that has written nothing finds exactly the FAILED rows 1..k its retry count k says, each with its delivery's error |
| `RetryTheorems.RowsAtTheEnd` | apps/notification/src/consumers/transaction-created.consumer.ts:102-159 | And the event ends SENT with attempts k+1, or with nothing more, or as FAILED 1, 2, 3 and one DEAD with attempts 3; never more than four rows, and one delivery per FAILED or SENT row |
| `RetryTheorems.RowsDescribeTheirEvent` | apps/notification/src/consumers/transaction-created.consumer.ts:102-157 | Every row carries user, symbol and type of a published event that passes the schema, an error exactly when it is FAILED or DEAD, and the EMAIL channel when it is DEAD |
| `RetryTermination.EventStepBound` | packages/shared/src/constants/messaging.ts:31-32 | However events are scheduled, one event takes at most 33 steps, 6 more per failing call and 32 more per crash |
| `RetryTermination.RunLengthBound` | apps/notification/src/consumers/transaction-created.consumer.ts:66-159 | So every run is bounded by its events and faults: without new ones the protocol stops, however often `deliver` fails |
| `RetryTermination.SomethingCanMove` | apps/notification/src/consumers/transaction-created.consumer.ts:66-159 | While anything is queued or handled some step is possible: there is no deadlock |
| `RetryTermination.StuckMeansSettled` | apps/notification/src/consumers/transaction-created.consumer.ts:66-159 | A run can only stop with all queues empty and every published event acknowledged once |
| `RetryTermination.StoppedRunAddsUp` | apps/notification/src/consumers/transaction-created.consumer.ts:66-159 | The books of a stopped run: SENT rows equal notified events, terminal copies equal parked ones, and notified, skipped, parked and invalid add up to the published |
| `RetryRefinement.DriveIsARun` | apps/notification/src/consumers/transaction-created.consumer.ts:66-159 | From every reachable position, a handler that goes on alone is a run of the system and ends as the sequential method does |
| `RetryRefinement.DuplicateBoundIsTight` | apps/notification/src/consumers/transaction-created.consumer.ts:120-123 | For every number of crashes some run has that many duplicates: the bound on SENT rows cannot be improved |
| `Delivery.ConsoleDeliveryService.Deliver` | apps/notification/src/delivery/console-delivery.service.ts:21-38 | For every way INCR and EXPIRE can end and any time between them, the error thrown and the keys left behind; if Redis works at one instant it fails exactly when the user had no delivery in the last 60 s, by the history of calls; with the flag off it never fails and touches nothing |
| `Delivery.OneFailurePerCluster` | apps/notification/src/delivery/console-delivery.service.ts:22-30 | Per user the simulated failures are the first calls of the maximal groups with gaps under 60 s, one each, whatever other users do in between |
| `DeliveryRaces.DeliverIsAlone` | apps/notification/src/delivery/console-delivery.service.ts:22-30 | What that method does to the key is a run of the interleaved system in which no other call comes between, with the same failure |
| `DeliveryRaces.FailuresAreApart` | apps/notification/src/delivery/console-delivery.service.ts:22-30 | When calls for one user overlap, crash or set the expiry late, two simulated failures are still at least 60 s apart |
| `DeliveryRaces.FirstOnlyExactlyWhenNeverLate` | apps/notification/src/delivery/console-delivery.service.ts:25-27 | No call can fail that has another of its user within the 60 s before it, exactly in the runs in which the key never expires while such a call still has to set the expiry |
| `DeliveryRaces.FailedCallsHadAGap` | apps/notification/src/delivery/console-delivery.service.ts:22-30 | About the calls made: in such a run every call that failed is at least 60 s after every earlier one, and in every run the first call fails |
| `DeliveryRaces.OnlyTheFirstFails` | apps/notification/src/delivery/console-delivery.service.ts:22-30 | If calls follow each other within 60 s and no expiry is late, exactly the first fails, however they overlap |
| `DeliveryRaces.LateExpiryFailsAgain` | apps/notification/src/delivery/console-delivery.service.ts:25-27 | A run in which a call fails 1 ms after another of its user |
| `DeliveryRaces.QuietUserFails` | apps/notification/src/delivery/console-delivery.service.ts:25-29 | If calls set the expiry within a delay, the next call of a user who had none for 60 s and the delay fails |
| `DeliveryAnswers.FailsOnce` | apps/notification/src/delivery/console-delivery.service.ts:21-30 | Of the answers of one user's overlapping calls, in whatever order they come back, at most one is a failure; when all are in, exactly one |
| `DeliveryAnswers.SequentialIsSimulated` | apps/notification/src/delivery/console-delivery.service.ts:21-30 | Calls of `deliver` one after another, by the rule of `Delivery`, are a special case |
| `ForceFailRetry.AtMostOneRetry` | apps/notification/src/consumers/transaction-created.consumer.ts:113-137 | If only the simulated failure occurs and a user's deliveries, overlapping as they may, follow each other within 60 s and set no expiry late, no event is ever retried twice, and no two of one user are retried |
| `ForceFailRetry.SettledAfterOneRetry` | apps/notification/src/consumers/transaction-created.consumer.ts:102-138 | Then no event is parked: each settles SENT with attempts 1, or with attempts 2 after one FAILED row |
| `ForceFailRetry.OneRetryPerUser` | apps/notification/src/delivery/console-delivery.service.ts:21-30 | And once the system is quiet and all calls are answered, each user with a delivery has exactly one event that was retried |
| `CacheAside.BoundedStaleness` | apps/portfolio/src/transactions/transactions.service.ts:28-38 | Under every interleaving of readers and writers, failed deletes included, an answer was the state of the rows at some moment within the expiry plus the reader's lag |
| `CacheAside.EventuallyGone` | apps/portfolio/src/preferences/preferences.service.ts:18-47 | Once the rows have lost a property for good, so have the answers after the expiry plus the lag |
| `CacheAside.CoherentExactlyWhenFillsFresh` | apps/portfolio/src/rules/rules.service.ts:23-56 | The cached value is the current one, or about to be deleted by a writer that committed, throughout exactly those runs in which every reader that sets the cache holds the current value or one such a writer will still delete |
| `MonotonicReads.MonotonicExactlyWhenForward` | apps/portfolio/src/preferences/preferences.service.ts:34-47 | At every moment of a run, whoever reads next, no read is older than an answer given before it began, if and only if readers that set the cache hold nothing older than an answer given, and readers that only answer nothing newer than the live entry |
| `MonotonicReads.MonotonicWhenNeverBack` | apps/portfolio/src/preferences/preferences.service.ts:34-47 | While the live entry is never older than an answer given, all answers, overlapping readers' included, are monotonic |
| `MonotonicReads.UndisturbedReads` | apps/portfolio/src/transactions/transactions.service.ts:66-86 | If no commit falls between a reader's table read and its set, the cache is coherent and reads are monotonic, at every moment |
| `MonotonicReads.ReadsCanGoBack` | apps/portfolio/src/rules/rules.service.ts:44-56 | For every policy and every change from one storable value to another, a run in which a read that began after the new value was answered gets the old one: monotonic reads are false |
| `Freshness.UndisturbedServices` | apps/portfolio/src/preferences/preferences.service.ts:18-47 | So for transactions, preferences and rules alike, since each service caches whatever its writers can commit |
| `PortfolioTables.ListIsTheQuery` | apps/portfolio/src/transactions/transactions.service.ts:74-78 | The list holds exactly the user's rows as records, newest first |
| `PortfolioTables.RulesStayUnique` | apps/portfolio/prisma/schema.prisma:49-55 | After every sequence of operations there is at most one rule per user and event type |
| `PortfolioTables.UpsertIsMapUpdate` | apps/portfolio/src/rules/rules.service.ts:23-28 | An upsert writes its own key, keeping the row's id if there was one, and no other key |
| `PortfolioTables.FindIsLookup` | apps/notification/src/consumers/portfolio-rpc.client.ts:49-54 | Finding the event type in a user's list is looking the key up in the table |
| `PortfolioTables.FindIsLastSet` | apps/portfolio/src/rules/rules.service.ts:23-56 | After every sequence of operations, finding an event type in the listed rules gives what was set last, or nothing if it never was |
| `PortfolioServices.KeysDistinct` | apps/portfolio/src/transactions/transactions.service.ts:14-15 | The three services' keys never collide, for any two users |
| `PortfolioHistory.RoundsToNearest` | apps/portfolio/prisma/schema.prisma:32-33 | A number fits the column exactly when it rounds to at most twelve digits before the point, and is then read back within half a unit of 1e-8 |
| `PortfolioHistory.RulesOfCounts` | apps/portfolio/src/rules/rules.service.ts:47-53 | The user's list has each rule as often as the table if it is the user's, and else not at all |
| `PortfolioHistory.PlainIsRight` | apps/portfolio/src/transactions/transactions.service.ts:27-86 | Without caches, every answer and event is right by the history of operations and answers alone: a create's record says user, symbol, type, amounts within half a unit and the time, under a new id; a list has the records of the user's creates, each once, newest first; a preference is the one last set, whole; a rule set answers the rule as set, under the id it had; a rule list has each last-set rule once |
| `PortfolioServices.TransactionsService.Create` | apps/portfolio/src/transactions/transactions.service.ts:27-64 | Table, event and answer are those of the operation without cache, an overflow throwing with no event and no deletion; the user's key is gone and the cache of every user and service stays true to the tables |
| `PortfolioServices.TransactionsService.List` | apps/portfolio/src/transactions/transactions.service.ts:66-86 | Hit or miss, also on a cached empty list, the answer is the query's; a miss caches it for 30 s and nothing else changes |
| `PortfolioServices.PreferencesService.Set` | apps/portfolio/src/preferences/preferences.service.ts:18-32 | The whole preference replaces the user's, and no stale entry survives it |
| `PortfolioServices.PreferencesService.Get` | apps/portfolio/src/preferences/preferences.service.ts:34-47 | The row or null; a missed row is cached for 60 s, null is not |
| `PortfolioServices.RulesService.Set` | apps/portfolio/src/rules/rules.service.ts:23-42 | The upserted row is returned and no stale list survives it |
| `PortfolioServices.RulesService.List` | apps/portfolio/src/rules/rules.service.ts:44-56 | The user's rules, hit or miss; a miss caches them for 60 s |
| `PortfolioServices.PlainSession` | apps/portfolio/src/transactions/transactions.service.ts:27-86 | For every sequence of whole operations of all three services, over any users and pauses, the answers and the published events are those of the tables without caches |
| `PortfolioServices.Session` | apps/portfolio/src/preferences/preferences.service.ts:18-47 | So every answer of the services, and every event, is right by the history of operations and answers, as said for `PlainIsRight`; neither cache nor table shows |
| `RpcClient.WantedExactly` | apps/notification/src/consumers/portfolio-rpc.client.ts:11-59 | A notification is wanted exactly from replies, enveloped or bare, that carry an enabled preference and an enabled rule, or a list whose first TRADE_EXECUTED rule is enabled; so errors, failures, null and empty lists want none |
| `RpcClient.WantedIsLookup` | apps/notification/src/consumers/portfolio-rpc.client.ts:26-59 | From the service's replies a notification is wanted exactly when the user's preference row and TRADE_EXECUTED row are both enabled |
| `Freshness.ListsAreRecent` | apps/portfolio/src/transactions/transactions.service.ts:66-86 | A list returned under any interleaving has no row the table lacks, and lacks none that was committed more than 30 s and the lag before |
| `Freshness.WantedWasTrue` | apps/notification/src/consumers/transaction-created.consumer.ts:85-101 | A lookup that wants a notification saw a preference enabled with that channel, and an enabled rule, each in the tables at most 60 s and the lag before |
| `Freshness.DisabledStaysDisabled` | apps/notification/src/consumers/transaction-created.consumer.ts:85-99 | Once either is disabled for good, no lookup answered more than 60 s and the lag later wants a notification |
| `Freshness.OptingOutCanBeUnread` | apps/portfolio/src/preferences/preferences.service.ts:18-47 | A user who opted out, and was read as opted out, is then read as opted in again |
| `RowOrigins.EveryRowHasItsLookup` | apps/notification/src/consumers/transaction-created.consumer.ts:85-111 | In every run each row that is not DEAD has a lookup of its own, for its event and user, that wanted it on its channel; no two rows share one, not even two attempts of one event |
| `RowOrigins.InsertedFromTheNewest` | apps/notification/src/consumers/transaction-created.consumer.ts:85-111 | Each step that inserts such a row takes its event's newest lookup, so no later one refused it; origins never change |
| `Freshness.NotificationsAreConsented` | apps/notification/src/consumers/transaction-created.consumer.ts:85-111 | End to end, in every run of consumer and caches: the user's preference was enabled with the row's channel, and the rule was enabled, each at most 60 s and the lag before the lookup that the row was created from |
| `Freshness.NoNotificationAfterOptingOut` | apps/notification/src/consumers/transaction-created.consumer.ts:85-111 | Once either is disabled for good at T, no lookup answered after T + 60 s and the lag yields a row, retries included |
| `CreateCommits.CreatesAreCommits` | apps/portfolio/src/transactions/transactions.service.ts:27-38 | For every run of interleaved creates with their faults, and every user, some run of that user's cell commits the same lists in the same order and deletes the key when the calls do |
| `Publisher.EventsMatchRows` | apps/portfolio/src/transactions/transactions.service.ts:27-64 | For creates interleaved and throwing anywhere, events map one to one to rows with equal fields, and a row without event belongs to a call still on its way or one that threw |
| `Publisher.ThrowingEndsTheCall` | apps/portfolio/src/transactions/transactions.service.ts:27-64 | In every run a call goes on exactly as long as its awaits work: after one that threw there is none, and it never returns; it has a row if its insert took effect, and an event if its publish was reached and took effect |
| `Publisher.AllReturnedAllPublished` | apps/portfolio/src/transactions/transactions.service.ts:40-106 | Every returned call's row stores its command, and record, event and listed record agree; when all have returned there is one event per row |
| `Publisher.UninterruptedIsCreate` | apps/portfolio/src/transactions/transactions.service.ts:27-64 | A create that is neither interrupted nor hit by a fault does what the operation on the plain tables does |
| `Publisher.RoundsToPositive` | apps/portfolio/prisma/schema.prisma:32-33 | A number that fits the column is stored as a positive number exactly from half a unit on |
| `Publisher.EventValidExactlyWhen` | packages/shared/src/contracts/transaction.ts:6-24 | A stored command makes an event the consumer accepts exactly when its symbol has one to ten characters and both numbers are at least half a unit |
| `Publisher.TinyAmountsAreDropped` | packages/shared/src/contracts/transaction.ts:17-24 | A concrete command the RPC schema accepts whose event the consumer drops |
| `Publisher.GatewayEventsAreValid` | apps/api-gateway/src/portfolio/dto.ts:3-19 | In every run of creates that came through the gateway every event passes the consumer's schema |
| `EndToEnd.NeverDropped` | apps/notification/src/consumers/transaction-created.consumer.ts:67-74 | Whatever interleaves and fails on both sides, no event of a gateway command is dropped as invalid |
| `EndToEnd.EveryTransactionIsSettled` | apps/portfolio/src/transactions/transactions.service.ts:27-64 | When all creates have returned and the consumer is quiet, every transaction row has its event settled as notified, skipped or parked, one settlement per row |

## Left out

- Time in the retry queue: the 5 s delay is an expiry that may come at any moment, since no property depends on its length.
- Force-fail races are modelled for one user's key at a time (`DeliveryRaces`); keys of different users never meet, by `Delivery.KeysDistinct`.
- PortfolioServices.PlainSession: whole operations one after another, without faults; interleaving and faults are in `CacheAside` and `Publisher`, which model one key and the create calls.
- CacheAside.BoundedStaleness: the lag bounds the time from the table read to the answer, as a guard of the answering step; a reader slower than that answers nothing in the model.
- Handlers that outlive their channel: after a requeue the old handler takes no further step, whereas in the program it might go on after a lost connection.
- Messages that are not JSON, which the subscriber library handles before `handle` is called; the model has them reach `handle` as payloads that fail the schema.
- RPC time-outs, redelivery and envelopes beyond ok, fail and bare value, which are library behaviour.
- Formats of UUIDs and dates, IEEE doubles, and how lengths of non-ASCII symbols are counted; fields are well formed by type and numbers are exact.
- The order of rows with equal `createdAt`; the list breaks ties by insertion order.
- Notification list, gateway, authentication, health checks, configuration, logging, seeds and Docker files, which have no protocol or state of their own to prove anything about.
