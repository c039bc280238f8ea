/** Stripe events (internal/payment/webhook.go): what processing one does to the tables. */
module Payments {
  import opened Wrappers
  import opened Money
  import opened Tables
  import opened Orders
  import opened Checkout
  import opened Fulfilment

  /** checkout.session.completed.  `order` is the id in the session's metadata or
      client reference; `amountTotal` is what Stripe charged, in cents. */
  datatype Completed = Completed(order: Option<nat>, session: nat, intent: Option<nat>, amountTotal: int)

  // ----- Handlers -----

  /** The payment an event is about: by intent if it has one, else by session. */
  function PaymentOf(payments: seq<Payment>, e: Completed): (r: Option<nat>)
    ensures r.Some? ==> r.value < |payments|
  {
    var byIntent := if e.intent.Some? then PaymentByIntent(payments, e.intent.value) else None;
    if byIntent.Some? then byIntent else PaymentBySession(payments, e.session)
  }

  function RecordPayment(payments: seq<Payment>, e: Completed, invoice: nat, amount: Cents): seq<Payment> {
    match PaymentOf(payments, e)
    case Some(p) =>
      var intent := if e.intent.Some? then e.intent else payments[p].intent;
      payments[p := Payment(invoice, intent, e.session, amount, PaymentSucceeded)]
    case None => payments + [Payment(invoice, e.intent, e.session, amount, PaymentSucceeded)]
  }

  function AmountPaid(e: Completed, total: Cents): Option<Cents> {
    if e.amountTotal > 0 then NumericIn(CentsToDecimal(e.amountTotal)) else NumericIn(CentsText(total))
  }

  /** The transaction of handleCheckoutSessionCompleted, and the work it leaves to
      be enqueued; None when it rolls back. */
  function Settle(db: Db, e: Completed, now: nat): (r: Option<(Db, seq<Work>)>)
    ensures r.Some? ==> e.order.Some? && e.order.value < |db.orders|
  {
    if e.order.None? || e.order.value >= |db.orders| then None
    else
      var o := e.order.value;
      var paid := SetStatus(db.orders, o, Paid);
      var invoiced := CreateInvoice(db.invoices, o, paid[o]);
      var amount := AmountPaid(e, paid[o].total);
      if invoiced.None? || amount.None? then None
      else
        var (invoices, i) := invoiced.value;
        var p := Prepare(db.services, db.jobs, paid[o].items, o, now);
        Some((db.(orders := if p.works == [] then paid else SetStatus(paid, o, Provisioning),
              invoices := invoices,
              payments := RecordPayment(db.payments, e, i, amount.value),
              services := p.services,
              jobs := p.jobs), p.works))
  }

  function Enqueue(db: Db, works: seq<Work>, o: nat, refused: set<nat>): (Db, bool) {
    var q := EnqueueAll(Placed(db.services, db.jobs, db.queue, false), works, o, refused);
    (db.(services := q.services, jobs := q.jobs, queue := q.queue), !q.failed)
  }

  /** The new tables, and whether the event was processed without error. */
  function ProcessCompleted(db: Db, e: Completed, now: nat, refused: set<nat>): (Db, bool) {
    match Settle(db, e, now)
    case None => (db, false)
    case Some((settled, works)) => Enqueue(settled, works, e.order.value, refused)
  }

  function SetPaymentStatus(payments: seq<Payment>, p: nat, status: PaymentStatus): seq<Payment>
    requires p < |payments|
  {
    payments[p := payments[p].(status := status)]
  }

  function ProcessIntentFailed(db: Db, intent: Option<nat>): Db {
    if intent.None? then db
    else match PaymentByIntent(db.payments, intent.value)
         case None => db
         case Some(p) => db.(payments := SetPaymentStatus(db.payments, p, PaymentFailed))
  }

  /** `refund` is the first refund of the charge: its id and amount in cents. */
  function ProcessRefunded(db: Db, intent: Option<nat>, refund: Option<(nat, int)>): (Db, bool) {
    if intent.None? then (db, true)
    else match PaymentByIntent(db.payments, intent.value)
         case None => (db, true)
         case Some(p) =>
           var marked := db.(payments := SetPaymentStatus(db.payments, p, PaymentRefunded));
           if refund.None? then (marked, true)
           else
             var (id, cents) := refund.value;
             match NumericIn(CentsToDecimal(cents))
             case None => (db, false)
             case Some(amount) =>
               var row := if id in db.refunds then db.refunds[id].(amount := amount) else Refund(p, amount);
               (marked.(refunds := db.refunds[id := row]), true)
  }

  // ----- The billing invariant -----

  /** stripe_payment_intent_id is UNIQUE. */
  ghost predicate IntentsUnique(payments: seq<Payment>) {
    forall p, q | 0 <= p < |payments| && 0 <= q < |payments|
                  && payments[p].intent.Some? && payments[p].intent == payments[q].intent :: p == q
  }

  ghost predicate BillingOk(db: Db) {
    && OrdersOk(db)
    && SessionsOk(db.orders, db.sessions)
    && InvoicesOk(db.orders, db.invoices)
    && ServicesOk(db.orders, db.invoices, db.services)
    && QueueOk(db.services, db.queue)
    && IntentsUnique(db.payments)
  }

  /** Only order statuses change, never to draft. */
  lemma StatusFrame(db: Db, o: nat, status: OrderStatus)
    requires BillingOk(db) && status != Draft
    ensures var after := db.(orders := SetStatus(db.orders, o, status));
            BillingOk(after) && OrdersKept(db.orders, after.orders)
  {
    var after := SetStatus(db.orders, o, status);
    SetStatusKeeps(db.orders, o, status, db.nextItem);
    SessionsFrame(db.orders, after, db.sessions);
    InvoicesFrame(db.orders, after, db.invoices);
    ServicesFrame(db.orders, after, db.invoices, db.invoices, db.services);
  }

  lemma InvoiceFrame(db: Db, o: nat)
    requires BillingOk(db) && o < |db.orders| && db.orders[o].status != Draft
    requires CreateInvoice(db.invoices, o, db.orders[o]).Some?
    ensures var (invoices, i) := CreateInvoice(db.invoices, o, db.orders[o]).value;
            BillingOk(db.(invoices := invoices)) && OnePaidInvoice(invoices, o) && db.invoices <= invoices
            && NewestInvoice(invoices, o).Some?
  {
    CreateInvoiceKeeps(db.orders, db.invoices, o);
    var (invoices, i) := CreateInvoice(db.invoices, o, db.orders[o]).value;
    assert invoices[i].order == o;
    ServicesFrame(db.orders, db.orders, db.invoices, invoices, db.services);
  }

  lemma RecordKeepsIntents(payments: seq<Payment>, e: Completed, invoice: nat, amount: Cents)
    requires IntentsUnique(payments)
    ensures IntentsUnique(RecordPayment(payments, e, invoice, amount))
  {
  }

  lemma PrepareFrame(db: Db, o: nat, now: nat)
    requires BillingOk(db) && o < |db.orders| && NewestInvoice(db.invoices, o).Some?
    ensures var p := Prepare(db.services, db.jobs, db.orders[o].items, o, now);
            && BillingOk(db.(services := p.services, jobs := p.jobs))
            && WorksIn(p.services, p.works, o) && ServicesKept(db.services, p.services)
            && forall i | 0 <= i < |db.orders[o].items| :: HasService(p.services, db.orders[o].items[i].id)
  {
    var items := db.orders[o].items;
    PrepareServices(db.orders, db.invoices, db.services, db.jobs, o, now, |items|);
    assert items[..|items|] == items;
    QueueFrame(db.services, Prepare(db.services, db.jobs, items, o, now).services, db.queue);
  }

  /** What the transaction keeps and what it establishes for the order. */
  lemma SettleKeeps(db: Db, e: Completed, now: nat)
    requires BillingOk(db) && Settle(db, e, now).Some?
    ensures var (after, works) := Settle(db, e, now).value;
            var o := e.order.value;
            && BillingOk(after) && WorksIn(after.services, works, o)
            && OrdersKept(db.orders, after.orders) && ServicesKept(db.services, after.services)
            && db.invoices <= after.invoices && after.sessions == db.sessions
            && OnePaidInvoice(after.invoices, o) && after.orders[o].status != Draft
            && forall i | 0 <= i < |after.orders[o].items| :: HasService(after.services, after.orders[o].items[i].id)
  {
    var o := e.order.value;
    var paid := db.(orders := SetStatus(db.orders, o, Paid));
    StatusFrame(db, o, Paid);
    InvoiceFrame(paid, o);
    var (invoices, i) := CreateInvoice(paid.invoices, o, paid.orders[o]).value;
    var invoiced := paid.(invoices := invoices);
    PrepareFrame(invoiced, o, now);
    var p := Prepare(db.services, db.jobs, paid.orders[o].items, o, now);
    var prepared := invoiced.(services := p.services, jobs := p.jobs);
    var amount := AmountPaid(e, paid.orders[o].total).value;
    RecordKeepsIntents(db.payments, e, i, amount);
    var recorded := prepared.(payments := RecordPayment(db.payments, e, i, amount));
    if p.works != [] {
      StatusFrame(recorded, o, Provisioning);
      OrdersKeptTransitive(db.orders, paid.orders, SetStatus(paid.orders, o, Provisioning));
    }
  }

  /** Each job the transaction opens has a task that is about to be enqueued. */
  lemma SettleKeepsJobs(db: Db, e: Completed, now: nat)
    requires BillingOk(db) && JobsOk(db.services, db.jobs, db.queue, []) && Settle(db, e, now).Some?
    ensures var (after, works) := Settle(db, e, now).value;
            && JobsOk(after.services, after.jobs, after.queue, works)
            && WorksOk(after.services, after.jobs, works, e.order.value)
  {
    hide NumericIn, JobsOk, WorksOk, RecordPayment;
    var o := e.order.value;
    var paid := db.(orders := SetStatus(db.orders, o, Paid));
    StatusFrame(db, o, Paid);
    InvoiceFrame(paid, o);
    var (invoices, i) := CreateInvoice(paid.invoices, o, paid.orders[o]).value;
    var items := paid.orders[o].items;
    PrepareJobs(paid.orders, invoices, db.services, db.jobs, db.queue, o, now, |items|);
    assert items[..|items|] == items;
  }

  lemma EnqueueFrame(db: Db, works: seq<Work>, o: nat, refused: set<nat>)
    requires BillingOk(db) && WorksIn(db.services, works, o)
    ensures var after := Enqueue(db, works, o, refused).0;
            && BillingOk(after) && ServicesKept(db.services, after.services)
            && |after.services| == |db.services|
            && after == db.(services := after.services, jobs := after.jobs, queue := after.queue)
  {
    var p := Placed(db.services, db.jobs, db.queue, false);
    EnqueueServices(p, works, o, refused);
    ServicesRestated(db.orders, db.invoices, db.services, EnqueueAll(p, works, o, refused).services);
  }

  lemma ProcessCompletedKeepsJobs(db: Db, e: Completed, now: nat, refused: set<nat>)
    requires BillingOk(db) && JobsOk(db.services, db.jobs, db.queue, [])
    ensures var after := ProcessCompleted(db, e, now, refused).0; JobsOk(after.services, after.jobs, after.queue, [])
  {
    if Settle(db, e, now).Some? {
      var (settled, works) := Settle(db, e, now).value;
      SettleKeepsJobs(db, e, now);
      EnqueueJobs(Placed(settled.services, settled.jobs, settled.queue, false), works, e.order.value, refused, |works|);
      assert works[..|works|] == works && works[|works|..] == [];
    }
  }

  /** The other two events only mark payments and write refunds. */
  lemma MarkedKeeps(db: Db, p: nat, status: PaymentStatus, refunds: map<nat, Refund>)
    requires BillingOk(db) && p < |db.payments|
    ensures BillingOk(db.(payments := SetPaymentStatus(db.payments, p, status), refunds := refunds))
  {
  }

  lemma ProcessIntentFailedKeeps(db: Db, intent: Option<nat>)
    requires BillingOk(db)
    ensures BillingOk(ProcessIntentFailed(db, intent))
  {
    if intent.Some? && PaymentByIntent(db.payments, intent.value).Some? {
      MarkedKeeps(db, PaymentByIntent(db.payments, intent.value).value, PaymentFailed, db.refunds);
    }
  }

  lemma ProcessRefundedKeeps(db: Db, intent: Option<nat>, refund: Option<(nat, int)>)
    requires BillingOk(db)
    ensures BillingOk(ProcessRefunded(db, intent, refund).0)
  {
    if intent.Some? && PaymentByIntent(db.payments, intent.value).Some? {
      MarkedKeeps(db, PaymentByIntent(db.payments, intent.value).value, PaymentRefunded,
                  ProcessRefunded(db, intent, refund).0.refunds);
    }
  }

  /** A refund is recorded to the cent on the payment of its intent; telling of it again
      changes nothing, and a later amount never moves it to another payment. */
  lemma RefundRecorded(db: Db, intent: nat, id: nat, cents: Cents)
    requires PaymentByIntent(db.payments, intent).Some?
    ensures var (after, ok) := ProcessRefunded(db, Some(intent), Some((id, cents)));
            && ok && id in after.refunds && after.refunds[id].amount == cents
            && after.refunds[id].payment
               == (if id in db.refunds then db.refunds[id].payment else PaymentByIntent(db.payments, intent).value)
            && after.payments[PaymentByIntent(db.payments, intent).value].status == PaymentRefunded
            && ProcessRefunded(after, Some(intent), Some((id, cents))) == (after, true)
  {
    TextCarriesAmount(cents);
    hide NumericIn, CentsToDecimal;
    var p := PaymentByIntent(db.payments, intent).value;
    var after := ProcessRefunded(db, Some(intent), Some((id, cents))).0;
    StatusKeepsIntents(db.payments, p, PaymentRefunded, intent);
    assert SetPaymentStatus(after.payments, p, PaymentRefunded) == after.payments;
    assert after.refunds[id := after.refunds[id].(amount := cents)] == after.refunds;
  }

  lemma {:induction false} StatusKeepsIntents(payments: seq<Payment>, p: nat, status: PaymentStatus, intent: nat)
    requires p < |payments|
    ensures PaymentByIntent(SetPaymentStatus(payments, p, status), intent) == PaymentByIntent(payments, intent)
    decreases |payments|
  {
    var n := |payments| - 1;
    if payments[n].intent != Some(intent) {
      if p == n {
        assert SetPaymentStatus(payments, p, status)[..n] == payments[..n];
      } else {
        assert SetPaymentStatus(payments, p, status)[..n] == SetPaymentStatus(payments[..n], p, status);
        StatusKeepsIntents(payments[..n], p, status, intent);
      }
    }
  }
}
