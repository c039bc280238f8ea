# Billing ledger, money text and client protocols: a Dafny model

This project models the billing core of the repository in Dafny and proves what it is
meant to guarantee: the ledger that carries an order from cart to running service, the
conversion between money text and cents, the code that depends on the clock, and four
small stateful protocols. `dafny verify dfyconfig.toml` checks all of it.

## How the project is laid out

| file | module | models |
|---|---|---|
| Wrappers.dfy | Wrappers | option and result types for Go's no-rows and error returns |
| Float64.dfy | Float64 | rounding to the nearest double, ties to even |
| Money.dfy | Money | internal/common/amount.go: decimal text to cents and back |
| Calendar.dfy | Calendar | the Gregorian day count, AddDate and expiry dates |
| Tables.dfy | Tables | the billing tables as values, and the queries run on them |
| Orders.dfy | Orders | internal/order: carts, orders, status transitions |
| Checkout.dfy | Checkout | internal/payment/service.go: checkout sessions and invoices |
| Fulfilment.dfy | Fulfilment | internal/payment/provisioning.go: services, jobs, enqueueing |
| Payments.dfy | Payments | internal/payment/webhook.go: what each event does |
| Operations.dfy | Operations | worker, expiry sweep, renewal invoices, administrator provisioning |
| Ledger.dfy | Ledger | all handlers as one state machine; theorems over every run |
| Effects.dfy | Effects | what each handler does to the tables, told from the tables before and after alone |
| Scenarios.dfy | Scenarios | runs built step by step, and what shared intents and renewals do in them |
| Database.dfy | Database | the same handlers statement by statement on mutable tables |
| Webhook.dfy | Webhook | event dedup, serial and split at every commit |
| OpenJobs.dfy | OpenJobs | open jobs while deliveries are split at their commits |
| Reminders.dfy | Reminders | the renewal reminder batch and its per-day dedup |
| RateLimit.dfy | RateLimit | the per-IP limiter with idle eviction |
| TokenRefresh.dfy | TokenRefresh | the browser's single-flight token refresh |
| TwoFactor.dfy | TwoFactor | recovery codes and temporary two-factor tokens |
| Settings.dfy | Settings | the masked settings form over a cached table |

The ledger is written twice. Orders, Checkout, Fulfilment, Payments and Operations give
each handler as a function from tables to tables; invariants and theorems are about
these. The class in Database has the tables as fields and changes them in the order the
Go code does, with its loops, its conversions through text and its rollbacks; each of its
methods is proved to leave exactly the tables its function names. Effects says of every
handler, without those functions, which rows change, to what, which answer comes when, and
that nothing else changes. The other modules follow the same pattern: a class whose methods
are tied to a step function, lemmas that pin down single steps, and lemmas over all runs.

Tables whose rows are never deleted are sequences. A row's id is its position, which
stands for the random UUID, and "newest by created_at" is the highest position. Order
items live inside their order and have ids of their own, because carts delete them. Money
columns hold cents in the range of NUMERIC(10,2); a value that does not fit is the error
PostgreSQL raises. Clocks, Stripe's answers, failing enqueues and failing writes are
parameters.

## What turned out different from the intention

These are facts about the code; the lemmas named state them.

- Printing cents through a float64 and parsing them back is the identity for magnitudes up to
  7036874417766400 (100 * 2^46) and fails at the very next value, which prints one cent
  too many (Money.RoundTripRange, Money.FirstLoss).
- A service expiring at the very instant of the sweep's query is selected by `<=` and
  then skipped by the strict `After`, so the sweep meets its specification on every table
  exactly when all second looks come strictly later (Operations.SweepOnEveryTable).
- When an administrator's enqueue fails, a suspended service comes out `pending` and an
  `active` order comes out `paid`: the compensation restores what was there only for a
  pending service of a paid order (Operations.CompensationRestores).
- A completed event is booked on the order's newest invoice. After a renewal has been
  invoiced that is the renewal, which stays `pending` (Ledger.BookedOnNewest,
  Scenarios.PaymentOnRenewal).
- One payment per session is guaranteed exactly if no payment intent can occur with two
  sessions; otherwise a paid session can be left without a payment
  (Scenarios.SettledExactly, Scenarios.SharedIntentStrips).
- With deliveries split at their commits, putting a service back after a refused enqueue
  can meet a job another handler has opened in between. Then a second job can be opened,
  and no worker run closes the first (OpenJobs.PutBackSafe, OpenJobs.TwoOpenJobs,
  OpenJobs.OlderStaysOpen).
- Quantities in CreateOrder are not validated: the binding tag on `Items` does not reach
  into its elements, so zero and negative quantities are accepted
  (internal/order/handler.go:103). The model keeps that; the theorems hold regardless.
- For one expiry a reminder can go out three times, not two: a batch that starts just
  before its window closes and reaches the service after midnight writes on a third date.
  Two hold exactly if records stay on the window's two dates, or the expiry is at midnight
  (Reminders.ThreeAtMost, Reminders.TwoExactly).
- Being denied by the rate limiter can cost a later admission where buckets do not refill before
  eviction: the denied request keeps the visitor from being forgotten. The configured limits
  are not of that kind (RateLimit.DenialsCostNothingExactly).
- Each failed delete in Redis lets a two-factor token sign in once more, for any number of
  them (TwoFactor.SignInsExactly).
- Saving the settings form unedited writes what is in effect into cleared rows: an old
  value when the store lags behind the table, the environment's default otherwise
  (Settings.UneditedRowKept).

## Model

| member | source | states |
|---|---|---|
| Ledger.MoneyConserved | internal/payment/webhook.go:140-148 | In every reachable state an order's total is the sum of quantity times unit price over its items; its session's charge and its paid invoice's total and line sum equal it; if Stripe charges what it was asked to, so does every payment's amount |
| Ledger.NoServiceWithoutPayment | internal/payment/provisioning.go:98-155 | In every reachable state the order behind a service holds the service's item and has exactly one invoice in status paid, and no two services share an item |
| Ledger.OneOpenJob | internal/payment/provisioning.go:157-250 | In every reachable state an open job is its service's newest and only open one, its service is provisioning, and its task is queued |
| Ledger.OrdersFreeze | internal/payment/service.go:62-142 | Once out of draft an order never returns, its items and total never change, and it gets at most one checkout session, over every run of all handlers |
| Ledger.OneOfEach | internal/payment/webhook.go:140-216 | Any number of completed events for one session, in any run, leaves one payment, one paid invoice and one service per item from the first that commits, if each payment intent belongs to one session |
| Ledger.PaidMeansSettled | internal/payment/webhook.go:140-216 | In every state of every honest run, a session with a payment at all has exactly one, and its order has one paid invoice and one service per item |
| Ledger.AddedPayment | internal/payment/webhook.go:193-211 | A payment row is only ever added by a committing completed event, for that event's session |
| Ledger.OnePaymentPerIntent | migrations/000008_payments.sql:8 | Two payments never carry the same intent, with no assumption on events |
| Scenarios.SettledExactly | internal/payment/webhook.go:155-211 | Over all honest runs, every committed session always has one payment, one paid invoice and one service per item if and only if no intent may occur with two sessions |
| Scenarios.SharedIntentStrips | internal/payment/webhook.go:155-192 | For any intent and any two sessions, a run in which both are paid under it and the first is left with no payment |
| Scenarios.SharedIntentDoublesPayment | internal/payment/webhook.go:155-192 | A run of three payments after which one session has two |
| Scenarios.PaymentOnRenewal | internal/payment/service.go:166-176 | A run in which a session's payment ends up on a pending renewal invoice |
| Ledger.BookedOnNewest | internal/payment/service.go:166-176 | The payment of an event is booked on the order's newest invoice, which is the paid one exactly if the order had at most one invoice before the event |
| Ledger.HonestCommits | internal/payment/webhook.go:96-227 | An honest event's transaction goes through exactly when the order is invoiced already or each item's amount fits its column |
| Ledger.HonestAmount | internal/payment/webhook.go:145-148 | The amount an honest event records, through CentsToDecimal and back, is the order's total |
| Ledger.ExpiryNeverMoves | internal/payment/provisioning.go:117-131 | A service's expiry, item and order never change after it is created, whatever runs later |
| Ledger.StepKeeps | internal/order/handler.go:132-298 | Every handler keeps the whole billing invariant and undoes nothing: orders out of draft, invoices, sessions and services stay |
| Ledger.StepKeepsJobs | internal/provisioning/handler.go:41-138 | Every handler keeps the job invariant |
| Ledger.RunKeeps | internal/payment/webhook.go:96-227 | Both invariants hold in every state of every run |
| Ledger.RunGrows | internal/payment/service.go:62-142 | Between any two states of a run nothing is undone: frozen orders, invoices, sessions, services and their expiries |
| Ledger.OpenOnce | internal/payment/provisioning.go:157-199 | Under the job invariant an open job is the newest and only open one of its service |
| OpenJobs.SplitOneOpenJob | internal/payment/provisioning.go:157-250 | With deliveries split at every commit and interleaved, a service still has at most one open job, its newest, as long as no delivery puts back a service that has an open job by then |
| OpenJobs.SplitJobsCovered | internal/payment/provisioning.go:201-234 | Under the same condition every open job's service is provisioning, and its task is queued or among the work of a delivery in flight |
| OpenJobs.PutBackSafe | internal/payment/provisioning.go:244-249 | After a service is put back no handler can bring about two open jobs of one service, whichever runs next, if and only if the service had no open job |
| OpenJobs.ActKeepsCovered | internal/payment/provisioning.go:201-250 | Every action keeps open jobs covered, whatever its outcome |
| OpenJobs.PutBackExactly | internal/payment/provisioning.go:244-249 | Putting a service back keeps its jobs in order if and only if it has no open job |
| OpenJobs.SecondOpens | internal/admin/service.go:293-332 | If it has one, an administrator can open a second right after |
| OpenJobs.TwoOpenJobs | internal/payment/provisioning.go:157-250 | An interleaving of two deliveries that ends with two open jobs of one service |
| OpenJobs.OlderStaysOpen | internal/provisioning/handler.go:49-124 | No worker run ever closes the older of two open jobs |
| OpenJobs.StepKeepsOneOpen | internal/payment/provisioning.go:157-199 | Every whole handler keeps at most one open job per service, queue or no queue |
| Ledger.RunOwned | internal/payment/webhook.go:155-211 | In every run, if intents belong to sessions, no two payments share a session |
| Ledger.StepKeepsPayments | internal/payment/webhook.go:175-211 | Under honest charges every handler keeps each payment equal to its order's total and on an invoice of that order |
| Ledger.Written | internal/payment/webhook.go:145-211 | The transaction writes one payment, with the amount computed from the event, on the order's newest invoice |
| Ledger.RecordOwned | internal/payment/webhook.go:155-211 | If intents belong to sessions, writing a payment leaves exactly one for its session and moves none |
| Ledger.SettledByEvent | internal/payment/webhook.go:96-227 | A committed honest event leaves its session with one payment, one paid invoice and one service per item |
| Ledger.SettledStays | internal/payment/webhook.go:96-227 | No later step of any handler changes that |
| Effects.CompletedPayment | internal/payment/webhook.go:145-211 | A completed event that can be booked leaves one row for its session, found by intent, else by session, else new: succeeded, with the amount charged or else the order's total, with the event's intent or else the one it had, on the order's newest invoice; every other payment is as it was |
| Effects.CommitsExactly | internal/payment/webhook.go:96-220 | The transaction goes through exactly if the order exists, the amount fits its column, and the order is invoiced or each line fits; otherwise nothing changes and the event fails |
| Effects.CompletedInvoice | internal/payment/service.go:160-239 | An order without an invoice gets one: paid, of its total, a line for each item with its quantity, price and product; one that is there stays as it is |
| Effects.CompletedServes | internal/payment/provisioning.go:24-250 | For each item: an active service stays active, any other or a new one is provisioning, or pending if its task was refused; a job with five attempts is added exactly if provisioning is not under way, pending with one more task or failed with none |
| Effects.CompletedElsewhere | internal/payment/webhook.go:110-227 | The order ends provisioning if anything was started and paid if not; services, jobs and tasks of other items, other orders, sessions and refunds are as they were |
| Effects.CompletedAnswers | internal/payment/webhook.go:213-227 | The event is processed without error exactly if it could be booked and no task was refused |
| Effects.IntentFailedMarks | internal/payment/webhook.go:229-250 | Exactly the payment of the intent becomes failed, and nothing else changes |
| Effects.RefundMarks | internal/payment/webhook.go:252-317 | Exactly the payment of the intent becomes refunded and the refund is recorded on it; an amount that does not fit undoes both; an unknown intent changes nothing |
| Effects.TaskRuns | internal/provisioning/handler.go:49-138 | A successful run makes its order and service active; the service's newest job and no other is completed, or failed, with one attempt more; the queue loses that task exactly if acknowledged; nothing else changes |
| Effects.SweepSuspends | internal/provisioning/handler.go:484-556 | Exactly the active services expired by the query and strictly expired at their second look are suspended |
| Effects.RenewalAdds | internal/provisioning/handler.go:394-462 | One pending invoice of the service's order, one unit at the item's price |
| Effects.AdminStarts | internal/admin/service.go:272-382 | Which of 404, 409, 400, 200 and 500 is answered; the service, its order, the new job and the queue after success and after a failed enqueue; nothing else changes |
| Effects.CheckoutAnswers | internal/payment/service.go:20-158 | 404, 403, 400, 500 and 200 decided exactly by order, owner, status, items and Stripe; a session with the items' prices and quantities, the order pending payment, nothing else changed |
| Effects.AddedToCart | internal/order/handler.go:132-280 | The user's newest draft, or a new one, gets the quantity in its row of that plan and cycle, at the current price, or a new last row; it stays a draft and no other order changes |
| Effects.QuantitySet | internal/order/handler.go:366-434 | Only that item's quantity and its draft's total change |
| Effects.ItemRemoved | internal/order/handler.go:301-363 | Only that item and its part of the draft's total go |
| Effects.OrderCreated | internal/order/handler.go:482-643 | One draft is added, with exactly a row for each request, and every order is as it was |
| Effects.StatusChanged | internal/order/handler.go:857-907 | 404, 400 and 200 decided exactly by the nine allowed changes; only that status changes |
| Webhook.ProcessedAtMostOnce | internal/payment/webhook.go:39-93 | With deliveries split at every commit and interleaved arbitrarily, no event's transaction runs twice, and none runs without its event row |
| Webhook.RepeatsChangeNothing | internal/payment/webhook.go:42-93 | Any sequence of deliveries leaves the same tables and event rows as the sequence without repeats and without deliveries whose row could not be stored |
| Webhook.SplitDeliveriesSafe | internal/payment/webhook.go:213-224 | Even split and interleaved: one paid invoice behind every service, one service per item, and totals, charges and paid invoices agree |
| Webhook.SplitOneOfEach | internal/payment/webhook.go:140-224 | With deliveries split at their commits and interleaved arbitrarily, a session has one payment, one paid invoice and one service per item from the moment an honest event's transaction commits, if each intent belongs to one session |
| Webhook.CommitSettles | internal/payment/webhook.go:140-220 | The commit of an honest event's transaction settles its session |
| Webhook.ActKeepsSettled | internal/payment/webhook.go:58-93 | No later action of any delivery or handler unsettles it |
| Webhook.InterleavingGrows | internal/payment/webhook.go:58-93 | Between any two moments of an interleaving nothing is undone: frozen orders, invoices, sessions, services and their expiries |
| Webhook.SerialIsContiguous | internal/payment/webhook.go:58-93 | The split form, run without interruption, does to tables and event rows exactly what the serial form does |
| Webhook.InterleavingKeepsBilling | internal/payment/webhook.go:213-224 | In every state of every interleaving the billing invariant holds and pending work is for services of its order |
| Webhook.ActKeepsDedup | internal/payment/webhook.go:42-56 | Every action keeps: one delivery in flight per event, and only deliveries past the insert have run |
| Webhook.ActKeepsBilling | internal/payment/webhook.go:213-224 | Every action, between any two commits, keeps the billing invariant and undoes nothing |
| Webhook.KnownIds | internal/payment/webhook.go:42-51 | The stored event ids are exactly those delivered |
| Webhook.EnqueueScriptRuns | internal/payment/provisioning.go:201-234 | Enqueueing one task at a time, with its two compensating updates apart, amounts to the loop |
| Webhook.DeliveryAnswers | internal/payment/webhook.go:37-94 | A delivery that cannot be stored or is a repeat leaves no trace; any other takes exactly the step its event stands for, and is answered 200 if and only if that went without error and the row could be marked |
| Webhook.Handler.HandleWebhook | internal/payment/webhook.go:37-94 | The handler on mutable tables: new event row, dispatch, row marked; 200 for a repeat or success, 500 if the row cannot be stored or marked or the processing fails |
| Orders.AddCartItemAnswers | internal/order/handler.go:132-280 | Succeeds exactly if the request is valid and priced and the row's quantity and the new total fit; the total changes by the row's change alone; otherwise nothing changes |
| Orders.UpdateCartItemAnswers | internal/order/handler.go:366-434 | Which answer comes when, and that the total changes by the item's change alone; otherwise nothing changes |
| Orders.RemoveCartItemAnswers | internal/order/handler.go:301-363 | Takes exactly the item out, its amount off the total, leaves the others in order, and no draft of the user holds it afterwards; otherwise nothing changes |
| Orders.CreateOrderAnswers | internal/order/handler.go:482-643 | Succeeds exactly if there is a request, each has a price and an int32 quantity, and their cost fits; adds one draft of that total, and otherwise nothing |
| Orders.AdminMovesForward | internal/order/handler.go:857-907 | An administrator moves an order only forward and never out of active, cancelled or refunded; other requests change nothing |
| Orders.DraftIsNewest | internal/order/service.go:12-42 | The draft found or made is the user's newest, and an empty one is added only if there is none |
| Orders.AddCartItemAdds | internal/order/handler.go:217-252 | Adding raises the cart's quantity of that plan and cycle by exactly the request, of no other, and prices its row at the current quote |
| Orders.RemoveUndoesAdd | internal/order/handler.go:337-355 | Removing the row a new plan was given restores the cart, items and total |
| Orders.LastQuantityCounts | internal/order/handler.go:408-425 | Setting a quantity twice is setting it to the second |
| Orders.NewItemsRows | internal/order/handler.go:597-620 | CreateOrder inserts one row per request, in order, with its plan, cycle, quantity and price |
| Orders.AddCartItemKeeps | internal/order/handler.go:254-275 | Totals stay the sums over items, item ids stay unique, orders out of draft stay frozen |
| Orders.UpdateCartItemKeeps | internal/order/handler.go:389-429 | The same for a changed quantity |
| Orders.RemoveCartItemKeeps | internal/order/handler.go:318-355 | The same for a removed item |
| Orders.CreateOrderKeeps | internal/order/handler.go:578-634 | The same for a new order |
| Orders.AdminUpdateStatusKeeps | internal/order/service.go:91-114 | The same for a status change: no transition leads back to draft |
| Checkout.StripeChargesItems | internal/payment/service.go:81-106 | The line items sent to Stripe add up to quantity times unit price over the order's items |
| Checkout.CreateSessionKeeps | internal/payment/service.go:62-152 | Checkout asks Stripe for exactly the order's total, and an order has at most one session |
| Checkout.LinesAddUp | internal/payment/service.go:198-236 | Invoice lines add up to quantity times unit price over the order's items |
| Checkout.CreateInvoiceKeeps | internal/payment/service.go:166-239 | Afterwards the order has exactly one paid invoice, which agrees with the order in total and line by line |
| Checkout.InvoicedMeansPaid | internal/payment/service.go:186-196 | An order with any invoice, renewals included, has exactly one in status paid |
| Checkout.InvoiceAdded | internal/provisioning/handler.go:442-458 | A pending renewal invoice keeps the invoice invariant because the order has an earlier one |
| Fulfilment.EnsureService | internal/payment/provisioning.go:98-155 | The service returned is the item's, and active or provisioning; an old one changes at most its status, a new one is provisioning, in the order, with its expiry |
| Fulfilment.TakenUp | internal/payment/provisioning.go:98-155 | An active service stays active, any other is provisioning afterwards, and only an item without a service is given one |
| Fulfilment.PrepareExactly | internal/payment/provisioning.go:24-96 | After the loop, for any number of items: the status of each item's service, which get a job, the jobs in order, and that everything else is as it was |
| Fulfilment.EnqueueExactly | internal/payment/provisioning.go:201-250 | After the loop, for any refusals: one task for each accepted service, the job failed and the service pending for each refused one, and nothing else |
| Fulfilment.NewServiceTerm | internal/payment/provisioning.go:136-136 | A new service expires exactly its item's calendar term after the purchase; an existing one keeps its expiry |
| Fulfilment.JobAddedExactly | internal/payment/provisioning.go:157-199 | A job is added exactly if the service's newest job is not open |
| Fulfilment.EnsureServiceKeeps | internal/payment/provisioning.go:111-152 | Items keep at most one service, the service belongs to the item's own order, and none stops provisioning |
| Fulfilment.EnsureJobKeeps | internal/payment/provisioning.go:167-196 | Adding a job only when the newest is closed keeps one open job per service, with work to enqueue for it |
| Fulfilment.PrepareServices | internal/payment/provisioning.go:43-95 | After the loop every item has its service, and the work left is for services of the order |
| Fulfilment.PrepareJobs | internal/payment/provisioning.go:54-76 | After the loop every open job is queued or among the work left, each service at most once |
| Fulfilment.EnqueueServices | internal/payment/provisioning.go:201-250 | Enqueueing queues only tasks naming the service's own order and moves no service |
| Fulfilment.EnqueueJobs | internal/payment/provisioning.go:201-250 | After the first n tasks every open job is queued or among the rest: a refused one is closed and its service put back |
| Payments.SettleKeeps | internal/payment/webhook.go:110-220 | The transaction keeps the billing invariant and leaves the order out of draft, with one paid invoice and a service for every item |
| Payments.SettleKeepsJobs | internal/payment/webhook.go:213-220 | Each job it opens has a task about to be enqueued |
| Payments.ProcessCompletedKeepsJobs | internal/payment/webhook.go:213-226 | After the enqueueing no open job is without its task, whichever enqueues fail |
| Payments.RecordKeepsIntents | internal/payment/webhook.go:175-211 | Updating or inserting the payment never violates the unique intent |
| Payments.ProcessIntentFailedKeeps | internal/payment/webhook.go:239-247 | Marking a payment failed keeps the billing invariant |
| Payments.ProcessRefundedKeeps | internal/payment/webhook.go:263-317 | Recording a refund keeps the billing invariant |
| Payments.RefundRecorded | internal/payment/webhook.go:284-315 | A refund is recorded to the cent on the payment of its intent, a repeat changes nothing, and it never moves to another payment |
| Operations.SweepIsPointwise | internal/provisioning/handler.go:484-556 | On a given table the sweep suspends every due service and changes no other exactly when each second look finds it past expiry and can write |
| Operations.SweepOnEveryTable | internal/provisioning/handler.go:504-536 | It does so on every table exactly when all second looks are strictly later than the query and succeed |
| Operations.ExpireEachAt | internal/provisioning/handler.go:548-552 | What the loop does to each service, listed or not, for tables of any size |
| Operations.Due | internal/provisioning/handler.go:524-543 | The ids collected are exactly those of active services with an expiry at or before the query |
| Operations.AdminProvisionEffect | internal/admin/service.go:309-371 | The net effect of provisioning a pending or suspended service, with and without a failed enqueue |
| Operations.CompensationRestores | internal/admin/service.go:353-371 | The compensation leaves the queue alone and restores service and order exactly for a pending service of a paid order |
| Operations.AdminProvisionKeeps | internal/admin/service.go:272-382 | Provisioning by an administrator keeps the billing invariant and frozen orders |
| Operations.AdminProvisionKeepsJobs | internal/admin/service.go:293-371 | It keeps the job invariant: a new job is open and queued, or failed at once |
| Operations.WorkerCloses | internal/provisioning/handler.go:49-124 | After a run the service has no open job, is active if the run succeeded, and no job but its newest changed |
| Operations.JobClosed | internal/provisioning/handler.go:79-124 | A run, repeated or failed or not, keeps the job invariant |
| Operations.WorkerRunKeeps | internal/provisioning/handler.go:41-138 | A run keeps the billing invariant and frozen orders |
| Operations.SweepKeepsJobs | internal/provisioning/handler.go:521-556 | The sweep never touches a service with an open job |
| Operations.RenewalInvoiceKeeps | internal/provisioning/handler.go:408-462 | A renewal invoice keeps the billing invariant although it shares the order |
| Tables.TextCarriesAmount | internal/common/amount.go:76-78 | Every amount a money column can hold survives its own text and CentsToDecimal's |
| Tables.TextIntoColumn | internal/order/handler.go:254-275 | A total carried as text is written back exactly, or overflows the column |
| Tables.ChargeIntoColumn | internal/payment/webhook.go:145-148 | Whatever Stripe charged, in cents, is stored exactly or overflows the column, also beyond the range in which it prints exactly |
| Tables.NewestDraft | internal/order/service.go:14-21 | The draft found is the user's newest |
| Tables.DraftHolding | internal/order/handler.go:320-326 | A draft of the user holding the item is found exactly if there is one |
| Tables.NewestInvoice | internal/payment/service.go:167-174 | The invoice found is the order's newest |
| Tables.NewestJob | internal/payment/provisioning.go:167-175 | The job found is the service's newest |
| Tables.PaymentByIntent | internal/payment/webhook.go:157-163 | A payment with the intent is found exactly if there is one |
| Tables.PaymentBySession | internal/payment/webhook.go:166-172 | A payment with the session is found exactly if there is one |
| Tables.ServiceOfItem | internal/payment/provisioning.go:111-116 | The item's service is found exactly if there is one |
| Database.PriceInCents | internal/payment/service.go:90-94 | Parsing a price column's text yields the price |
| Database.Database.GetOrCreateDraftOrder | internal/order/service.go:12-42 | On mutable tables: finds or inserts the draft |
| Database.Database.UpdateTotal | internal/order/handler.go:345-355 | Rewrites the total as the sum over items, or fails and changes nothing |
| Database.Database.AddCartItem | internal/order/handler.go:132-298 | Statement by statement, with rollback and the total through text, it ends in the tables and status of its function; a cart that cannot be read back after the commit turns 200 into 500 |
| Database.Database.UpdateCartItem | internal/order/handler.go:366-452 | The same |
| Database.Database.RemoveCartItem | internal/order/handler.go:301-363 | The same |
| Database.Database.InsertItems | internal/order/handler.go:595-620 | The insert loop adds all rows, or reports the first that cannot be inserted |
| Database.Database.CreateOrder | internal/order/handler.go:482-643 | Both loops: every request is priced before anything is inserted, and one failure undoes all |
| Database.Database.IsValidStatusTransition | internal/order/service.go:91-114 | The search says yes exactly to the table's successors of the current status |
| Database.Database.AdminUpdateOrderStatus | internal/order/handler.go:857-907 | The status changes exactly when the transition is valid; 404 and 400 otherwise |
| Database.Database.CreateCheckoutSession | internal/payment/service.go:20-158 | The line-item loop sends each price, parsed from text, with its quantity; the order becomes pending_payment only if Stripe agreed |
| Database.Database.CreateInvoice | internal/payment/service.go:160-239 | The invoice and its lines, written through text, are those of the function, or an error is reported |
| Database.Database.EnsureServiceRecord | internal/payment/provisioning.go:98-155 | Finds, revives or inserts the item's service |
| Database.Database.EnsureProvisioningJob | internal/payment/provisioning.go:157-199 | Inserts a job unless the newest is open |
| Database.Database.PrepareProvisioningJobs | internal/payment/provisioning.go:24-96 | The loop over items, skipping active services and open jobs; the order moves to provisioning exactly if work is left |
| Fulfilment.StillOpen | internal/payment/provisioning.go:236-250 | Marking one refused task's job failed and putting its service back leaves every other open job in order |
| Database.Database.EnqueueProvisioningTasks | internal/payment/provisioning.go:201-234 | The loop queues what is accepted, compensates what is refused, goes on, and reports whether any was refused |
| Database.Database.WritePayment | internal/payment/webhook.go:155-211 | Updates the payment found by intent, else by session, else inserts one; a missing intent keeps the old; the row ends as Effects.CompletedPayment says |
| Database.Database.CommitCompleted | internal/payment/webhook.go:110-220 | The whole transaction, or no change at all |
| Database.Database.HandleCheckoutSessionCompleted | internal/payment/webhook.go:96-227 | Transaction, then enqueueing, with the success reported |
| Database.Database.HandlePaymentIntentFailed | internal/payment/webhook.go:229-250 | Marks the payment of the intent failed, if there is one |
| Database.Database.HandleChargeRefunded | internal/payment/webhook.go:252-318 | Marks the payment and inserts or updates the refund, or rolls both back |
| Database.Database.ProvisionService | internal/admin/service.go:272-382 | Guards, job, service, order, enqueue and compensation, with the status code |
| Database.RunningThenClosed | internal/provisioning/handler.go:49-121 | A run's two updates, each picking the newest job anew, hit one and the same job and count one attempt |
| Database.NewestUnmoved | internal/provisioning/handler.go:55-61 | No status update changes which job is a service's newest |
| Database.Database.HandleProvisionVPS | internal/provisioning/handler.go:41-138 | Job running, service active, job completed, order active; or job failed: statement by statement it comes to what Effects.TaskRuns states |
| Database.Database.HandleGenerateInvoice | internal/provisioning/handler.go:394-466 | Adds one pending invoice for one unit at the item's price |
| Database.Database.ExpireSingleService | internal/provisioning/handler.go:484-519 | Suspends the service exactly if it is active and strictly past its expiry |
| Database.Database.ExpireAllServices | internal/provisioning/handler.go:521-556 | The collecting loop and the expiring loop |
| Money.DecimalAmountToCents | internal/common/amount.go:10-73 | Which of the three errors occurs is decided exactly; decimal text yields its value times 100, rounded half away from zero, as an int64 |
| Money.CentsOfParts | internal/common/amount.go:23-72 | The branches on sign and fraction arrive at the signed magnitude, "-0.xx" and carries included |
| Money.AddFraction | internal/common/amount.go:24-47 | The three fraction branches add what the fraction is worth in cents |
| Money.ThirdDigitDecides | internal/common/amount.go:42-45 | Looking at one digit past the cents is rounding half up on the whole fraction, of any length |
| Money.PartsGiveCents | internal/common/amount.go:49-70 | The signed magnitude is the exact value times 100, rounded half away from zero |
| Money.ExactWhenInt64 | internal/common/amount.go:10-73 | The result is exact if and only if the rounded value is an int64 |
| Money.ExactBelowBound | internal/common/amount.go:18-21 | It is exact whenever the integer part is at most 92233720368547757 in magnitude |
| Money.TextRoundTrip | internal/common/amount.go:10-73 | Parsing the canonical text of any int64 number of cents gives it back |
| Money.PrintingExact | internal/common/amount.go:76-78 | Up to 100 * 2^46 cents the float64 quotient prints the exact text |
| Money.FirstLoss | internal/common/amount.go:76-78 | The next value prints one cent too many |
| Money.CentsRoundTrip | internal/common/amount.go:76-78 | Parsing CentsToDecimal's text gives the cents back throughout that range, which contains every magnitude below 2^52 |
| Money.RoundTripRange | internal/common/amount.go:76-78 | On a symmetric range the two undo each other if and only if it stays within 100 * 2^46 |
| Money.NormalizeKeepsCanonical | internal/common/amount.go:81-87 | NormalizeAmount leaves canonical two-decimal text in that range unchanged |
| Money.NormalizeAnswers | internal/common/amount.go:81-87 | Decimal text keeps its sign and comes out within half a cent and one rounding of its value; refused text comes back unchanged |
| Money.PrintsNearest | internal/common/amount.go:77-77 | Two places are printed, the nearest, ties to even, with a minus sign exactly if the number is negative |
| Money.PrintsLarge | internal/common/amount.go:76-78 | Beyond the exact range the sign is kept and the amount printed is off by less than half |
| Float64.RelativeError | internal/common/amount.go:77-77 | Rounding to a double errs by at most a 2^-53th of the value |
| Float64.IntegersExact | internal/common/amount.go:77-77 | Integers up to 2^53 convert to a double exactly |
| Float64.RoundsToNearestEven | internal/common/amount.go:77-77 | Rounding is odd, commutes with doubling, and picks the nearest, ties to even, of 53-bit significands |
| Calendar.TermLength | internal/payment/provisioning.go:252-261 | Expiry minus purchase is the total length of the 1, 3 or 12 calendar months starting with the purchase month, for every date and time of day |
| Calendar.TermBounds | internal/payment/provisioning.go:252-261 | Hence 28 to 31, 89 to 92, or 365 to 366 days |
| Calendar.DayOfMonthKept | internal/payment/provisioning.go:252-261 | The day of the month is kept exactly if the month reached has it; otherwise the term runs into the next month by at most three days |
| Calendar.CarryKeepsDay | internal/payment/provisioning.go:252-261 | Overflow normalisation never changes which day is meant |
| Calendar.DateOfInstant | internal/payment/provisioning.go:252-261 | Reading an instant's date and counting its days again is the identity |
| Calendar.YearStartClosed | internal/payment/provisioning.go:252-261 | The recursive day count agrees with the closed form of the Gregorian calendar |
| Reminders.SevenThreeOne | internal/provisioning/scheduler.go:15-16 | A service that stays active, first seen more than seven days ahead by a daily batch, is reminded exactly at 7, 3 and 1 days, once each |
| Reminders.DailyRun | internal/provisioning/handler.go:212-269 | Over any number of daily batches the reminders sent are exactly the reminder days counted down |
| Reminders.AtMostOncePerDate | internal/provisioning/handler.go:362-379 | Over any schedule, failures and retries, at most one sent record per service, days-left value and calendar date |
| Reminders.SixPerExpiry | internal/provisioning/handler.go:212-269 | At most two per days-left value and six in all for a fixed expiry, if the records stay on the dates of their windows or the expiry is at midnight |
| Reminders.ThreeAtMost | internal/provisioning/handler.go:212-269 | For a fixed expiry, over any schedule whatsoever, each reminder goes out at most three times, and at most twice if the expiry is at midnight |
| Reminders.NinePerExpiry | internal/provisioning/handler.go:212-269 | Hence at most nine in all, six if the expiry is at midnight |
| Reminders.TwoExactly | internal/provisioning/handler.go:238-258 | At most two holds on every schedule that writes up to a given date if and only if the expiry is at midnight or that date is no later than the second date of the reminder's window |
| Reminders.ThreeDatesRun | internal/provisioning/handler.go:238-258 | For every expiry not at midnight, three batches that send one reminder on three dates; the last only has to run from just before its window closes to the next midnight |
| Reminders.DaysUntilExact | internal/provisioning/handler.go:385-391 | Within eight days the float64 day count is the exact rounding up |
| Reminders.ReminderTask.SendBatch | internal/provisioning/handler.go:212-269 | The loop records and counts errors as specified; one service's error does not stop the rest |
| Reminders.ReminderTask.AlreadySentToday | internal/provisioning/handler.go:362-379 | True exactly if a sent record of that service and days-left value has that date |
| Reminders.FailureIsRetried | internal/provisioning/handler.go:277-312 | A failed reminder is recorded but does not count as sent: the next batch in time tries again |
| Reminders.BatchExactly | internal/provisioning/handler.go:212-316 | A batch writes exactly one record for each service that is active and has 7, 3 or 1 days left, whose history could be read and shows none sent that date, with its own outcome, in order; and it counts exactly the services that went wrong |
| Reminders.OnlyActiveReminded | internal/provisioning/handler.go:213-220 | A service that is inactive, has no expiry, or is past it gets no record |
| RateLimit.EvictionUnobservable | internal/app/middleware/ratelimit.go:44-96 | Eviction changes no decision on any schedule if and only if the bucket refills within the shortest idle time that allows eviction |
| RateLimit.WindowBound | internal/app/middleware/ratelimit.go:79-96 | Any window of length T admits at most burst plus rate times T requests of one address |
| RateLimit.RunAgrees | internal/app/middleware/ratelimit.go:44-77 | From any agreeing states, the evicting limiter decides every later request as one bucket per address would |
| RateLimit.EvictionShows | internal/app/middleware/ratelimit.go:59-77 | Without the condition, a schedule on which the two differ |
| RateLimit.AdmittedExactly | internal/app/middleware/ratelimit.go:79-96 | A request is admitted if and only if what was left after the address's last admission, plus rate times the time since, capped at the burst, reaches a token; a first request exactly if the burst is not zero |
| RateLimit.DenialsCostNothingExactly | internal/app/middleware/ratelimit.go:79-96 | Leaving a denied request out changes no other decision of any schedule, if and only if buckets refill before they can be evicted or a whole token comes back each nanosecond |
| RateLimit.LevelsAfter | internal/app/middleware/ratelimit.go:86-91 | A request takes one token exactly if there is one, and none otherwise; other addresses keep their level |
| RateLimit.LevelIsIdeal | internal/app/middleware/ratelimit.go:44-57 | The level of an address follows from the times of its admissions alone |
| RateLimit.KnockShows | internal/app/middleware/ratelimit.go:44-77 | Without either condition, a denied request that keeps a visitor from being forgotten and so costs it a later admission |
| RateLimit.EvictsAfterThreeMinutes | internal/app/middleware/ratelimit.go:59-77 | A visitor is forgotten exactly after three minutes without a request |
| RateLimit.RateLimiter.Check | internal/app/middleware/ratelimit.go:44-57 | One request: visitor found or made, last seen updated, a token taken exactly if there is one, as RateLimit.LevelsAfter says |
| RateLimit.RateLimiter.CleanupVisitors | internal/app/middleware/ratelimit.go:59-77 | One clean-up removes exactly the visitors idle for more than three minutes |
| TokenRefresh.SingleFlightTheorem | frontend/src/lib/utils.ts:14-89 | After any interleaving, from any stored tokens and with any signing in and out: at most one refresh outstanding, flag set exactly when the promise is, each retry with its own refresh's token, two sends exactly for a retried call |
| TokenRefresh.JoinsOutstanding | frontend/src/lib/utils.ts:59-67 | A call never joins a refresh that is over, and joins rather than starts when one is outstanding |
| TokenRefresh.WaiterCanProceed | frontend/src/lib/utils.ts:60-67 | No waiting call is stranded: a step of its refresh, or its own, is always enabled |
| TokenRefresh.TokensAfter | frontend/src/lib/utils.ts:30-83 | The stored tokens are replaced by a sign-in and a successful refresh, cleared by a sign-out, a failed refresh and a refused retry, and by nothing else: a successful retry and one lost on the network keep them |
| TokenRefresh.StaysSignedIn | frontend/src/lib/utils.ts:69-83 | Over any run without those the tokens stored are those of the last sign-in or refresh |
| TokenRefresh.AuthCallsNeverRetried | frontend/src/lib/utils.ts:53-55 | In every run a call on a sign-in path is sent once and never waits for a refresh |
| TokenRefresh.AfterReply | frontend/src/lib/utils.ts:53-67 | A 401 elsewhere waits for the refresh under way or starts one, which asks the server exactly if a refresh token is stored; any other reply ends the call |
| TokenRefresh.AfterRefresh | frontend/src/lib/utils.ts:67-83 | A call is sent again exactly if its refresh got a token, with that token, and is over after the retry's reply |
| TokenRefresh.RefreshYields | frontend/src/lib/utils.ts:17-37 | A refresh yields a token exactly if its reply was good and its body held both |
| TokenRefresh.StepKeepsInv | frontend/src/lib/utils.ts:55-86 | Every continuation keeps the single-flight invariant |
| TokenRefresh.ApiClient.OnReply | frontend/src/lib/utils.ts:53-67 | From the reply to the next await: ends, starts a refresh, or joins one |
| TokenRefresh.TwoCallsShareOneRefresh | frontend/src/lib/utils.ts:55-75 | From any stored refresh token two calls can wait for one refresh and both be sent again with its token |
| TokenRefresh.ApiClient.OnRefreshBody | frontend/src/lib/utils.ts:30-36 | Stores both tokens and returns the new one, or nothing |
| TokenRefresh.ApiClient.OnFinally | frontend/src/lib/utils.ts:61-64 | Clears flag and promise together |
| TokenRefresh.ApiClient.OnResumed | frontend/src/lib/utils.ts:67-83 | Retries with the refresh's token, or signs out |
| TokenRefresh.ApiClient.OnRetryReply | frontend/src/lib/utils.ts:71-83 | A failed retry signs out and is not repeated |
| TwoFactor.RecoverySignInsBounded | internal/auth/twofa_handler.go:74-123 | Between two generations a hash signs in at most as often as it was issued, and all recovery sign-ins total at most ten |
| TwoFactor.CodesConserved | internal/auth/twofa_handler.go:74-123 | Codes left and codes used make up exactly the codes there were, until new ones are generated |
| TwoFactor.TokenTheorem | internal/auth/service.go:163-179 | A token signs in at most once, plus once per delete that was tried and failed, and never after its five minutes |
| TwoFactor.SignInsExactly | internal/auth/service.go:176-179 | m sign-ins bound every run with at most n lost deletes if and only if m is at least n + 1 |
| TwoFactor.ReplaySignsIn | internal/auth/service.go:176-179 | For every n, a run with n lost deletes in which the token signs in n + 1 times |
| TwoFactor.VerifySignsIn | internal/auth/twofa_handler.go:40-139 | Verification signs in a user if and only if the token is stored for that user and live, the account exists, the session can be issued, and the checked code is valid or the recovery code's hash is among the user's and its removal could be saved |
| TwoFactor.VerifyChanges | internal/auth/twofa_handler.go:74-130 | A right recovery code loses its first occurrence even when only issuing fails; the token goes exactly if the attempt was right and the delete succeeds; nothing else changes |
| TwoFactor.NeedsBothFactors | internal/auth/service.go:51-96 | In every run each sign-in by verification follows a password sign-in of that user less than five minutes before, and presents a right code |
| TwoFactor.LoginIssues | internal/auth/service.go:75-96 | A password sign-in changes no account and stores a five-minute token exactly for a user with two-factor enabled |
| TwoFactor.AccountsAfter | internal/auth/twofa_handler.go:250-433 | Enabling and regenerating store the hash of each code in order, disabling drops them; what becomes of the flag; no other account changes |
| TwoFactor.HashRecoveryCodes | internal/auth/totp.go:53-60 | The hashes are those of the codes, in order |
| TwoFactor.VerifyRecoveryCode | internal/auth/totp.go:63-72 | The index is that of the first matching hash, or -1 exactly if none matches |
| TwoFactor.AuthHandler.LoginUser | internal/auth/service.go:75-96 | A user with two-factor enabled never gets a session but, if it could be stored, a token with five minutes to live; another user gets a session if it could be issued, and no token |
| TwoFactor.AuthHandler.Verify2FA | internal/auth/twofa_handler.go:40-139 | Token, user, code in that order; a used recovery code is removed before the sign-in; the outcome is the one TwoFactor.VerifySignsIn decides |
| TwoFactor.AuthHandler.Enable2FA | internal/auth/twofa_handler.go:250-341 | Enabling stores the hashes of the codes shown |
| TwoFactor.AuthHandler.RegenerateRecoveryCodes | internal/auth/twofa_handler.go:385-433 | Regenerating replaces all hashes |
| TwoFactor.AuthHandler.Disable2FA | internal/auth/twofa_handler.go:344-382 | Disabling drops all hashes |
| Settings.UneditedFormPreserves | internal/settings/handler.go:59-138 | Saving the loaded form back unedited keeps every key's effective value, secret or not, and the store matching the table |
| Settings.SaveEffect | internal/settings/handler.go:96-138 | What saving does to every key: an unmasked value replaces it, an empty one falls back to the environment, anything else keeps it |
| Settings.UneditedRowKept | internal/app/settings_store.go:53-89 | Whatever the store holds, saving the form unedited leaves a row alone exactly unless it is cleared, shown and not secret while something not looking masked is in effect |
| Settings.UneditedEffectiveKept | internal/settings/handler.go:96-138 | Whatever the store holds, the row's effective value is kept exactly if nothing was sent, the form fills the row, or the value in effect is the row's own or, for a cleared row, the environment's |
| Settings.UneditedEffective | internal/settings/handler.go:96-138 | What is in effect for the row after such a save |
| Settings.UneditedMissing | internal/settings/handler.go:96-138 | A key without a row keeps its effective value exactly if nothing was sent or it is the environment's |
| Settings.StaleStoreResurrects | internal/app/settings_store.go:53-89 | The least instance: a cleared value comes back into the table |
| Settings.MaskReveals | internal/settings/handler.go:189-194 | Two secrets look the same exactly if both have at most four characters or both are longer and end in the same four |
| Settings.FormShows | internal/settings/handler.go:59-88 | The form has exactly the keys of the group; a plain value is shown as in effect, a secret as four asterisks or as three and its last four characters |
| Settings.FormGivesAwayOnly | internal/settings/handler.go:59-88 | Non-interference: two installations show the same form if and only if their plain values agree and their secrets look alike, so it tells nothing else about any secret |
| Settings.SaveWrites | internal/settings/handler.go:96-138 | A save writes each value not starting with three asterisks into the row of its key, and nothing else |
| Settings.SaveCaches | internal/settings/handler.go:118-138 | The cached copy becomes the new table exactly if something was written and the reload succeeds |
| Settings.SettingsService.Reload | internal/app/settings_store.go:53-78 | The new copy holds exactly the table |
| Settings.SettingsService.GetSettings | internal/settings/handler.go:59-88 | The loop builds the form, with the effective value for an empty one and secrets masked as Settings.FormShows says |
| Settings.SettingsService.UpdateSettings | internal/settings/handler.go:96-138 | Masked values are dropped, the rest written, the store reloaded |
| Settings.SettingsService.UpdateBatch | internal/settings/service.go:66-86 | The updates, one statement a key in any order, change exactly the rows named |

## Left out

- Each handler is one atomic step: races between transactions at READ COMMITTED, commit errors, and crashes inside a handler are not modelled. The dedup theorems are the exception; there a delivery is split at every commit.
- Ledger.OneOpenJob: holds between whole handlers. With deliveries split at their commits OpenJobs.SplitOneOpenJob and OpenJobs.SplitJobsCovered say the same under a condition on put-backs, where a task may still be among a delivery's work.
- Ledger.OneOfEach: assumes each payment intent belongs to one session; Scenarios.SettledExactly shows that this is exactly what it takes.
- Ledger.PaidMeansSettled: makes the same assumption.
- Reminders.SixPerExpiry: assumes the records stay on the dates of their windows; Reminders.NinePerExpiry is the bound without that, Reminders.TwoExactly the exact condition.
- A worker run is one step that succeeds or takes the handled failure of updating the service; a run that fails at another statement, or is cut off, is not modelled.
- Suspend and terminate tasks: nothing enqueues them, and they would break the job invariant. Reminders for a single service are not enqueued either.
- Refunds made by an administrator, which mark a payment refunded and write its refund as a charge.refunded event does, and disputes.
- Building a task's payload cannot fail: JSON of four strings always encodes. Database errors other than the ones named (no rows, overflow, a unique column, and those given as inputs) are left out.
- The database driver is assumed to run a statement while the rows of an earlier query of the same transaction are still open, as createInvoice and prepareProvisioningJobs have it do (internal/payment/service.go:211-229, internal/payment/provisioning.go:46-62). Ledger.HonestCommits, and everything about committed events, rests on that.
- Columns no property depends on: user ids copied onto rows, currency, snapshots and descriptions, invoice numbers, due dates, host names, notes, timestamps.
- Times are UTC nanoseconds; in a zone with daylight saving the expiry's time of day can shift by the change. Dates before year 1 are left out.
- Money.DecimalAmountToCents: fractions with a sign or other non-digits, such as "1.-5", are outside IsDecimal; the contract decides whether they are an error, not their value.
- Money.NormalizeAmount: the rest of ParseFloat's grammar (exponents, hexadecimal, infinities) is a parameter; subnormal and overflowing doubles are not modelled.
- Text is ASCII: TrimSpace on other Unicode spaces, and masking of multi-byte secrets, are left out.
- RateLimit: golang.org/x/time/rate is not part of this repository; its limiter is modelled as the token bucket it documents, in exact arithmetic, and getVisitor with Allow as one instant. The configured limits (100 with burst 200, 5 with burst 10) meet the condition of RateLimit.EvictionUnobservable.
- Cryptography: hashes are an uninterpreted function, the validity of a TOTP or e-mail code is an input, and so is the issuing of session tokens.
- The settings store's periodic reload, and the settings page emptying a secret field when it is focused.
- PaymentBySession: among several payments of one session the code takes any; the model takes the newest. Only one exists unless the assumption of Ledger.OneOfEach fails.
- Read-only listings, catalogue and template management, HTTP routing, JSON binding, React pages, SMTP, and the clients of Stripe, PostgreSQL, Redis and Asynq, of which only results appear.
