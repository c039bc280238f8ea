/** The billing ledger as one state machine: every handler is a step, a run is any
    sequence of steps from empty tables, and the theorems hold over every run. */
module Ledger {
  import opened Wrappers
  import opened Money
  import opened Tables
  import opened Orders
  import opened Checkout
  import opened Fulfilment
  import opened Payments
  import opened Operations

  datatype Step =
    | AddToCart(user: nat, request: Request)
    | UpdateCart(user: nat, item: nat, quantity: int)
    | RemoveFromCart(user: nat, item: nat)
    | NewOrder(user: nat, requests: seq<Request>)
    | AdminStatus(order: nat, to: Option<OrderStatus>)
    | StartCheckout(user: nat, order: nat, stripeOk: bool)
    | SessionCompleted(event: Completed, now: nat, refused: set<nat>)
    | IntentFailed(intent: Option<nat>)
    | ChargeRefunded(intent: Option<nat>, refund: Option<(nat, int)>)
    | ProvisionByAdmin(service: nat, enqueueOk: bool)
    | RunTask(task: Task, success: bool, ack: bool)
    | ExpireDue(at: int, rechecks: nat -> Recheck)
    | Renew(service: nat)

  function Apply(db: Db, step: Step): Db {
    match step
    case AddToCart(user, r) => AddCartItem(db, user, r).0
    case UpdateCart(user, item, quantity) => UpdateCartItem(db, user, item, quantity).0
    case RemoveFromCart(user, item) => RemoveCartItem(db, user, item).0
    case NewOrder(user, rs) => CreateOrder(db, user, rs).0
    case AdminStatus(o, to) => AdminUpdateStatus(db, o, to).0
    case StartCheckout(user, o, stripeOk) => CreateSession(db, user, o, stripeOk).0
    case SessionCompleted(e, now, refused) => ProcessCompleted(db, e, now, refused).0
    case IntentFailed(intent) => ProcessIntentFailed(db, intent)
    case ChargeRefunded(intent, refund) => ProcessRefunded(db, intent, refund).0
    case ProvisionByAdmin(s, enqueueOk) => AdminProvision(db, s, enqueueOk).0
    case RunTask(t, success, ack) => WorkerRun(db, t, success, ack)
    case ExpireDue(now, rechecks) => db.(services := Sweep(db.services, now, rechecks))
    case Renew(s) => RenewalInvoice(db, s)
  }

  /** A run: the tables before the first step and after each, starting empty. */
  ghost predicate IsRun(states: seq<Db>, steps: seq<Step>) {
    && |states| == |steps| + 1
    && states[0] == EMPTY
    && forall k | 0 <= k < |steps| :: states[k + 1] == Apply(states[k], steps[k])
  }

  // ----- One step -----

  /** What no step ever undoes. */
  ghost predicate Grows(before: Db, after: Db) {
    && OrdersKept(before.orders, after.orders)
    && before.invoices <= after.invoices
    && before.sessions <= after.sessions
    && ServicesKept(before.services, after.services)
  }

  lemma GrowsTransitive(a: Db, b: Db, c: Db)
    requires Grows(a, b) && Grows(b, c)
    ensures Grows(a, c)
  {
    OrdersKeptTransitive(a.orders, b.orders, c.orders);
    ServicesKeptTransitive(a.services, b.services, c.services);
  }

  lemma GrowsSame(before: Db, after: Db)
    requires after.orders == before.orders && after.invoices == before.invoices
    requires after.sessions == before.sessions && after.services == before.services
    ensures Grows(before, after)
  {
  }

  /** A step that changes only orders and sessions. */
  lemma OrdersFrame(before: Db, after: Db)
    requires BillingOk(before)
    requires after == before.(orders := after.orders, sessions := after.sessions, nextItem := after.nextItem)
    requires OrdersOk(after) && OrdersKept(before.orders, after.orders)
    requires SessionsOk(after.orders, after.sessions) && before.sessions <= after.sessions
    ensures BillingOk(after) && Grows(before, after)
  {
    hide OrdersOk, OrdersKept, SessionsOk, QueueOk, IntentsUnique;
    InvoicesFrame(before.orders, after.orders, before.invoices);
    ServicesFrame(before.orders, after.orders, before.invoices, before.invoices, before.services);
    assert ServicesKept(before.services, after.services);
  }

  /** A step that only rewrites carts. */
  lemma CartFrame(before: Db, after: Db)
    requires BillingOk(before) && after == before.(orders := after.orders, nextItem := after.nextItem)
    requires OrdersOk(after) && OrdersKept(before.orders, after.orders)
    ensures BillingOk(after) && Grows(before, after)
  {
    SessionsFrame(before.orders, after.orders, before.sessions);
    OrdersFrame(before, after);
  }

  predicate IsCartStep(step: Step) {
    step.AddToCart? || step.UpdateCart? || step.RemoveFromCart? || step.NewOrder? || step.AdminStatus?
  }

  lemma CartStepKeeps(db: Db, step: Step)
    requires BillingOk(db) && IsCartStep(step)
    ensures BillingOk(Apply(db, step)) && Grows(db, Apply(db, step))
  {
    match step {
      case AddToCart(user, r) => AddCartItemKeeps(db, user, r);
      case UpdateCart(user, item, quantity) => UpdateCartItemKeeps(db, user, item, quantity);
      case RemoveFromCart(user, item) => RemoveCartItemKeeps(db, user, item);
      case NewOrder(user, rs) => CreateOrderKeeps(db, user, rs);
      case AdminStatus(o, to) => AdminUpdateStatusKeeps(db, o, to);
    }
    OnlyCarts(db, step);
    CartFrame(db, Apply(db, step));
  }

  lemma OnlyCarts(db: Db, step: Step)
    requires IsCartStep(step)
    ensures var after := Apply(db, step); after == db.(orders := after.orders, nextItem := after.nextItem)
  {
  }

  lemma CheckoutStepKeeps(db: Db, step: Step)
    requires BillingOk(db) && step.StartCheckout?
    ensures BillingOk(Apply(db, step)) && Grows(db, Apply(db, step))
  {
    hide BillingOk, Grows, CreateSession;
    SessionStarted(db, step.user, step.order, step.stripeOk);
  }

  lemma SessionStarted(db: Db, user: nat, o: nat, stripeOk: bool)
    requires BillingOk(db)
    ensures var after := CreateSession(db, user, o, stripeOk).0; BillingOk(after) && Grows(db, after)
  {
    hide OrdersOk, OrdersKept, SessionsOk, InvoicesOk, ServicesOk, QueueOk, IntentsUnique, Grows;
    CreateSessionKeeps(db, user, o, stripeOk);
    OrdersFrame(db, CreateSession(db, user, o, stripeOk).0);
  }

  lemma CompletedStepKeeps(db: Db, step: Step)
    requires BillingOk(db) && step.SessionCompleted?
    ensures BillingOk(Apply(db, step)) && Grows(db, Apply(db, step))
  {
    hide Settle, BillingOk, WorksIn, EnqueueAll, OnePaidInvoice;
    if Settle(db, step.event, step.now).Some? {
      var (settled, works) := Settle(db, step.event, step.now).value;
      SettleKeeps(db, step.event, step.now);
      EnqueueFrame(settled, works, step.event.order.value, step.refused);
      GrowsTransitive(db, settled, Apply(db, step));
    } else {
      GrowsSame(db, Apply(db, step));
    }
  }

  lemma MarkingStepKeeps(db: Db, step: Step)
    requires BillingOk(db) && (step.IntentFailed? || step.ChargeRefunded?)
    ensures BillingOk(Apply(db, step)) && Grows(db, Apply(db, step))
  {
    hide BillingOk, Grows, NumericIn;
    GrowsSame(db, Apply(db, step));
    if step.IntentFailed? {
      ProcessIntentFailedKeeps(db, step.intent);
    } else {
      ProcessRefundedKeeps(db, step.intent, step.refund);
    }
  }

  lemma ProvisionStepKeeps(db: Db, step: Step)
    requires BillingOk(db) && step.ProvisionByAdmin?
    ensures BillingOk(Apply(db, step)) && Grows(db, Apply(db, step))
  {
    hide BillingOk, OrdersKept, ServicesKept;
    AdminProvisionKeeps(db, step.service, step.enqueueOk);
  }

  lemma TaskStepKeeps(db: Db, step: Step)
    requires BillingOk(db) && step.RunTask?
    ensures BillingOk(Apply(db, step)) && Grows(db, Apply(db, step))
  {
    hide BillingOk, Attempted, OrdersKept, ServicesKept;
    WorkerRunKeeps(db, step.task, step.success, step.ack);
  }

  lemma ExpireStepKeeps(db: Db, step: Step)
    requires BillingOk(db) && step.ExpireDue?
    ensures BillingOk(Apply(db, step)) && Grows(db, Apply(db, step))
  {
    hide BillingOk, Sweep, ServicesKept;
    SweepKeeps(db, step.at, step.rechecks);
  }

  lemma RenewStepKeeps(db: Db, step: Step)
    requires BillingOk(db) && step.Renew?
    ensures BillingOk(Apply(db, step)) && Grows(db, Apply(db, step))
  {
    hide BillingOk;
    RenewalInvoiceKeeps(db, step.service);
  }

  lemma StepKeeps(db: Db, step: Step)
    requires BillingOk(db)
    ensures BillingOk(Apply(db, step)) && Grows(db, Apply(db, step))
  {
    hide Apply, BillingOk, Grows;
    match step {
      case AddToCart(_, _) => CartStepKeeps(db, step);
      case UpdateCart(_, _, _) => CartStepKeeps(db, step);
      case RemoveFromCart(_, _) => CartStepKeeps(db, step);
      case NewOrder(_, _) => CartStepKeeps(db, step);
      case AdminStatus(_, _) => CartStepKeeps(db, step);
      case StartCheckout(_, _, _) => CheckoutStepKeeps(db, step);
      case SessionCompleted(_, _, _) => CompletedStepKeeps(db, step);
      case IntentFailed(_) => MarkingStepKeeps(db, step);
      case ChargeRefunded(_, _) => MarkingStepKeeps(db, step);
      case ProvisionByAdmin(_, _) => ProvisionStepKeeps(db, step);
      case RunTask(_, _, _) => TaskStepKeeps(db, step);
      case ExpireDue(_, _) => ExpireStepKeeps(db, step);
      case Renew(_) => RenewStepKeeps(db, step);
    }
  }

  ghost predicate JobsFit(db: Db) { JobsOk(db.services, db.jobs, db.queue, []) }

  lemma OthersLeaveJobs(db: Db, step: Step)
    requires !step.SessionCompleted? && !step.ProvisionByAdmin? && !step.RunTask? && !step.ExpireDue?
    ensures var after := Apply(db, step);
            after.services == db.services && after.jobs == db.jobs && after.queue == db.queue
  {
    hide NumericIn;
  }

  lemma StepKeepsJobs(db: Db, step: Step)
    requires BillingOk(db) && JobsFit(db)
    ensures JobsFit(Apply(db, step))
  {
    hide BillingOk, JobsOk, ProcessCompleted, AdminProvision, Attempted, Sweep;
    match step {
      case SessionCompleted(e, now, refused) => ProcessCompletedKeepsJobs(db, e, now, refused);
      case ProvisionByAdmin(s, enqueueOk) => AdminProvisionKeepsJobs(db, s, enqueueOk);
      case RunTask(t, success, ack) =>
        if t in db.queue { JobClosed(db.services, db.jobs, db.queue, t, success, ack); }
      case ExpireDue(now, rechecks) => SweepKeepsJobs(db, now, rechecks);
      case _ => OthersLeaveJobs(db, step);
    }
  }

  // ----- Every run -----

  lemma EmptyOk()
    ensures BillingOk(EMPTY) && JobsFit(EMPTY) && PaymentsOk(EMPTY)
  {
  }

  lemma GrowsReflexive(db: Db)
    ensures Grows(db, db)
  {
  }

  lemma {:induction false} RunKeeps(states: seq<Db>, steps: seq<Step>, k: nat)
    requires IsRun(states, steps) && k < |states|
    ensures BillingOk(states[k]) && JobsFit(states[k])
    decreases k
  {
    hide Apply, BillingOk, JobsFit;
    if k == 0 {
      EmptyOk();
    } else {
      RunKeeps(states, steps, k - 1);
      StepKeeps(states[k - 1], steps[k - 1]);
      StepKeepsJobs(states[k - 1], steps[k - 1]);
    }
  }

  lemma {:induction false} RunGrows(states: seq<Db>, steps: seq<Step>, j: nat, k: nat)
    requires IsRun(states, steps) && j <= k < |states|
    ensures Grows(states[j], states[k])
    decreases k
  {
    hide Apply, BillingOk, Grows;
    if k == j {
      GrowsReflexive(states[k]);
    } else {
      RunGrows(states, steps, j, k - 1);
      RunKeeps(states, steps, k - 1);
      StepKeeps(states[k - 1], steps[k - 1]);
      GrowsTransitive(states[j], states[k - 1], states[k]);
    }
  }

  /** Once an order has left draft, no handler ever puts it back, changes its items or
      changes its total, and it is checked out at most once. */
  lemma OrdersFreeze(states: seq<Db>, steps: seq<Step>, j: nat, k: nat, o: nat)
    requires IsRun(states, steps) && j <= k < |states|
    requires o < |states[j].orders| && states[j].orders[o].status != Draft
    ensures var before, now := states[j], states[k];
            && o < |now.orders| && now.orders[o].status != Draft
            && now.orders[o].items == before.orders[o].items && now.orders[o].total == before.orders[o].total
            && forall s, t | 0 <= s < |now.sessions| && 0 <= t < |now.sessions|
                             && now.sessions[s].order == o && now.sessions[t].order == o :: s == t
  {
    RunGrows(states, steps, j, k);
    RunKeeps(states, steps, k);
  }

  /** A service's expiry is set once: nothing that happens to it later, paying again
      included, moves it. */
  lemma ExpiryNeverMoves(states: seq<Db>, steps: seq<Step>, j: nat, k: nat, s: nat)
    requires IsRun(states, steps) && j <= k < |states| && s < |states[j].services|
    ensures var before, now := states[j].services, states[k].services;
            && s < |now| && now[s].expires == before[s].expires
            && now[s].item == before[s].item && now[s].order == before[s].order
  {
    RunGrows(states, steps, j, k);
  }

  predicate IsOpen(job: Job) { job.status == JobPending || job.status == JobRunning }

  /** Between handlers each service has at most one open job; it is the service's
      newest, the service is being provisioned, and its task is in the queue. */
  lemma OneOpenJob(states: seq<Db>, steps: seq<Step>, k: nat, j: nat)
    requires IsRun(states, steps) && k < |states|
    requires j < |states[k].jobs| && IsOpen(states[k].jobs[j])
    ensures var db := states[k];
            var s := db.jobs[j].service;
            && s < |db.services| && db.services[s].status == ServiceProvisioning
            && Task(s, db.services[s].order) in db.queue
            && NewestJob(db.jobs, s) == Some(j)
            && forall i | 0 <= i < |db.jobs| && db.jobs[i].service == s && IsOpen(db.jobs[i]) :: i == j
  {
    hide Apply, BillingOk;
    RunKeeps(states, steps, k);
    OpenOnce(states[k], j);
  }

  lemma OpenOnce(db: Db, j: nat)
    requires JobsFit(db) && j < |db.jobs| && IsOpen(db.jobs[j])
    ensures OpenJobOk(db.services, db.jobs, db.queue, [], j) && NewestJob(db.jobs, db.jobs[j].service) == Some(j)
    ensures forall i | 0 <= i < |db.jobs| && db.jobs[i].service == db.jobs[j].service && IsOpen(db.jobs[i]) :: i == j
  {
    forall i | 0 <= i < |db.jobs| && db.jobs[i].service == db.jobs[j].service && IsOpen(db.jobs[i]) ensures i == j {
      assert OpenJobOk(db.services, db.jobs, db.queue, [], i);
    }
  }

  /** Behind every service is an order with exactly one paid invoice, renewals
      notwithstanding, and an order item has at most one service. */
  lemma NoServiceWithoutPayment(states: seq<Db>, steps: seq<Step>, k: nat, s: nat)
    requires IsRun(states, steps) && k < |states| && s < |states[k].services|
    ensures var db := states[k];
            var o := db.services[s].order;
            && o < |db.orders| && HasItem(db.orders[o].items, db.services[s].item)
            && OnePaidInvoice(db.invoices, o)
            && forall t | 0 <= t < |db.services| && db.services[t].item == db.services[s].item :: t == s
  {
    RunKeeps(states, steps, k);
    var db := states[k];
    InvoicedMeansPaid(db.orders, db.invoices, NewestInvoice(db.invoices, db.services[s].order).value);
  }

  // ----- Conservation of money -----

  /** Stripe charged the session's line items, and names the order it was made for. */
  predicate Honest(db: Db, step: Step) {
    step.SessionCompleted? ==>
      var e := step.event;
      && e.session < |db.sessions|
      && e.order == Some(db.sessions[e.session].order)
      && e.amountTotal == StripeTotal(db.sessions[e.session].lines)
  }

  ghost predicate IsHonestRun(states: seq<Db>, steps: seq<Step>) {
    IsRun(states, steps) && forall k | 0 <= k < |steps| :: Honest(states[k], steps[k])
  }

  ghost predicate PaymentOk(db: Db, p: Payment) {
    && p.session < |db.sessions| && p.invoice < |db.invoices|
    && db.invoices[p.invoice].order == db.sessions[p.session].order < |db.orders|
    && p.amount == db.orders[db.sessions[p.session].order].total
  }

  ghost predicate PaymentsOk(db: Db) {
    forall p | 0 <= p < |db.payments| :: PaymentOk(db, db.payments[p])
  }

  lemma PaymentFrame(before: Db, after: Db, p: Payment)
    requires SessionsOk(before.orders, before.sessions) && Grows(before, after) && PaymentOk(before, p)
    ensures PaymentOk(after, p)
  {
    assert before.orders[before.sessions[p.session].order].status != Draft;
  }

  /** What Stripe charges for an order is what the payment records. */
  lemma HonestAmount(db: Db, e: Completed)
    requires SessionsOk(db.orders, db.sessions) && Honest(db, SessionCompleted(e, 0, {}))
    ensures AmountPaid(e, db.orders[e.order.value].total) == Some(db.orders[e.order.value].total)
  {
    TextCarriesAmount(db.orders[e.order.value].total);
  }

  /** The payment a transaction writes: on the order's newest invoice. */
  lemma Written(db: Db, e: Completed, now: nat) returns (invoice: nat)
    requires Settle(db, e, now).Some?
    ensures var after := Settle(db, e, now).value.0;
            var amount := AmountPaid(e, db.orders[e.order.value].total);
            && amount.Some? && after.payments == RecordPayment(db.payments, e, invoice, amount.value)
            && NewestInvoice(after.invoices, e.order.value) == Some(invoice) && db.invoices <= after.invoices
            && |after.invoices| == |db.invoices| + (if NewestInvoice(db.invoices, e.order.value).Some? then 0 else 1)
  {
    hide AmountPaid, Prepare, RecordPayment, CreateInvoice;
    var o := e.order.value;
    invoice := CreateInvoice(db.invoices, o, SetStatus(db.orders, o, Paid)[o]).value.1;
  }

  lemma {:induction false} LinesFit(items: seq<Item>)
    ensures InvoiceLines(items).Some? <==> forall i | 0 <= i < |items| :: Fits(items[i].quantity * items[i].unitPrice)
    decreases |items|
  {
    if items != [] {
      var n := |items| - 1;
      LinesFit(items[..n]);
      assert forall i | 0 <= i < n :: items[..n][i] == items[i];
    }
  }

  /** An honest event's transaction goes through exactly when its order is invoiced
      already or each item's amount fits a money column by itself. */
  lemma HonestCommits(db: Db, e: Completed, now: nat)
    requires BillingOk(db) && Honest(db, SessionCompleted(e, now, {}))
    ensures var o := e.order.value;
            Settle(db, e, now).Some? <==>
            (NewestInvoice(db.invoices, o).Some?
             || forall i | 0 <= i < |db.orders[o].items| ::
               Fits(db.orders[o].items[i].quantity * db.orders[o].items[i].unitPrice))
  {
    var o := e.order.value;
    HonestAmount(db, e);
    LinesFit(db.orders[o].items);
    hide AmountPaid, Prepare, RecordPayment, BillingOk;
    assert SetStatus(db.orders, o, Paid)[o].items == db.orders[o].items;
    assert SetStatus(db.orders, o, Paid)[o].total == db.orders[o].total;
  }

  lemma RecordKeepsPayments(before: Db, after: Db, e: Completed, invoice: nat, amount: Cents)
    requires SessionsOk(before.orders, before.sessions) && PaymentsOk(before) && Grows(before, after)
    requires after.payments == RecordPayment(before.payments, e, invoice, amount)
    requires PaymentOk(after, Payment(invoice, None, e.session, amount, PaymentSucceeded))
    ensures PaymentsOk(after)
  {
    hide Grows, SessionsOk;
    forall p | 0 <= p < |after.payments| ensures PaymentOk(after, after.payments[p]) {
      if p < |before.payments| && after.payments[p] == before.payments[p] {
        PaymentFrame(before, after, before.payments[p]);
      }
    }
  }

  lemma CompletedKeepsPayments(db: Db, step: Step)
    requires BillingOk(db) && PaymentsOk(db) && step.SessionCompleted? && Honest(db, step)
    ensures PaymentsOk(Apply(db, step))
  {
    hide Settle, PaymentsOk, PaymentOk, RecordPayment, AmountPaid, EnqueueAll, Grows,
      OrdersOk, SessionsOk, InvoicesOk, ServicesOk, QueueOk, IntentsUnique;
    var e := step.event;
    if Settle(db, e, step.now).Some? {
      var after := Apply(db, step);
      var invoice := Written(db, e, step.now);
      CompletedStepKeeps(db, step);
      HonestAmount(db, e);
      HonestRow(db, after, e, invoice);
      RecordKeepsPayments(db, after, e, invoice, db.orders[e.order.value].total);
    }
  }

  lemma HonestRow(before: Db, after: Db, e: Completed, invoice: nat)
    requires SessionsOk(before.orders, before.sessions) && Honest(before, SessionCompleted(e, 0, {}))
    requires Grows(before, after) && NewestInvoice(after.invoices, e.order.value) == Some(invoice)
    ensures PaymentOk(after, Payment(invoice, None, e.session, before.orders[e.order.value].total, PaymentSucceeded))
  {
    assert before.orders[e.order.value].status != Draft;
  }

  lemma MarkingKeepsPayments(db: Db, step: Step)
    requires PaymentsOk(db) && (step.IntentFailed? || step.ChargeRefunded?)
    ensures PaymentsOk(Apply(db, step))
  {
    hide NumericIn, PaymentsOk;
    OnlyStatuses(db, step);
    StatusesKeepPayments(db, Apply(db, step));
  }

  lemma OnlyStatuses(db: Db, step: Step)
    requires step.IntentFailed? || step.ChargeRefunded?
    ensures var after := Apply(db, step);
            && after == db.(payments := after.payments, refunds := after.refunds)
            && |after.payments| == |db.payments|
            && forall p | 0 <= p < |db.payments| ::
                 after.payments[p] == db.payments[p].(status := after.payments[p].status)
  {
    hide NumericIn;
  }

  lemma StatusesKeepPayments(before: Db, after: Db)
    requires PaymentsOk(before) && |after.payments| == |before.payments|
    requires after == before.(payments := after.payments, refunds := after.refunds)
    requires forall p | 0 <= p < |before.payments| ::
               after.payments[p] == before.payments[p].(status := after.payments[p].status)
    ensures PaymentsOk(after)
  {
    forall p | 0 <= p < |after.payments| ensures PaymentOk(after, after.payments[p]) {
      assert PaymentOk(before, before.payments[p]);
    }
  }

  lemma OthersLeavePayments(db: Db, step: Step)
    requires !step.SessionCompleted? && !step.IntentFailed? && !step.ChargeRefunded?
    ensures Apply(db, step).payments == db.payments
  {
  }

  lemma SamePayments(before: Db, after: Db)
    requires BillingOk(before) && PaymentsOk(before) && Grows(before, after) && after.payments == before.payments
    ensures PaymentsOk(after)
  {
    hide Grows;
    forall p | 0 <= p < |after.payments| ensures PaymentOk(after, after.payments[p]) {
      PaymentFrame(before, after, before.payments[p]);
    }
  }

  lemma StepKeepsPayments(db: Db, step: Step)
    requires BillingOk(db) && PaymentsOk(db) && Honest(db, step)
    ensures PaymentsOk(Apply(db, step))
  {
    hide *;
    match step {
      case SessionCompleted(_, _, _) => CompletedKeepsPayments(db, step);
      case IntentFailed(_) => MarkingKeepsPayments(db, step);
      case ChargeRefunded(_, _) => MarkingKeepsPayments(db, step);
      case _ =>
        StepKeeps(db, step);
        OthersLeavePayments(db, step);
        SamePayments(db, Apply(db, step));
    }
  }

  lemma {:induction false} RunKeepsPayments(states: seq<Db>, steps: seq<Step>, k: nat)
    requires IsHonestRun(states, steps) && k < |states|
    ensures PaymentsOk(states[k])
    decreases k
  {
    hide Apply, BillingOk, PaymentsOk, Honest;
    if k == 0 {
      EmptyOk();
    } else {
      RunKeepsPayments(states, steps, k - 1);
      RunKeeps(states, steps, k - 1);
      StepKeepsPayments(states[k - 1], steps[k - 1]);
    }
  }

  /** In every reachable state an order's total is the sum over its items; what a
      session asks Stripe for, what the paid invoice says in total and line by line,
      and what every payment records are that same amount. */
  lemma MoneyConserved(states: seq<Db>, steps: seq<Step>, k: nat, o: nat)
    requires IsRun(states, steps) && k < |states| && o < |states[k].orders|
    ensures var db := states[k];
            && db.orders[o].total == ItemsTotal(db.orders[o].items)
            && (forall s | 0 <= s < |db.sessions| && db.sessions[s].order == o ::
                  StripeTotal(db.sessions[s].lines) == db.orders[o].total)
            && (forall i | 0 <= i < |db.invoices| && PaidFor(db.invoices[i], o) ::
                  db.invoices[i].total == LinesTotal(db.invoices[i].lines) == db.orders[o].total)
            && (IsHonestRun(states, steps) ==>
                  forall p | 0 <= p < |db.payments| :: PaymentOk(db, db.payments[p]))
  {
    RunKeeps(states, steps, k);
    if IsHonestRun(states, steps) { RunKeepsPayments(states, steps, k); }
  }

  // ----- Many events, one payment -----

  /** Each payment intent belongs to one session, `owner` of it. */
  ghost predicate Owned(step: Step, owner: nat -> nat) {
    step.SessionCompleted? && step.event.intent.Some? ==> owner(step.event.intent.value) == step.event.session
  }

  ghost predicate OwnersOk(payments: seq<Payment>, owner: nat -> nat) {
    && (forall p | 0 <= p < |payments| && payments[p].intent.Some? ::
          owner(payments[p].intent.value) == payments[p].session)
    && (forall p, q | 0 <= p < |payments| && 0 <= q < |payments|
                      && payments[p].session == payments[q].session :: p == q)
  }

  ghost predicate OnePaymentOf(payments: seq<Payment>, session: nat) {
    && (exists p | 0 <= p < |payments| :: payments[p].session == session)
    && (forall p, q | 0 <= p < |payments| && 0 <= q < |payments|
                      && payments[p].session == session && payments[q].session == session :: p == q)
  }

  /** No payment ever moves to another session. */
  ghost predicate PaymentsStay(before: seq<Payment>, after: seq<Payment>) {
    |before| <= |after| && forall p | 0 <= p < |before| :: after[p].session == before[p].session
  }

  lemma RecordOwned(payments: seq<Payment>, e: Completed, invoice: nat, amount: Cents, owner: nat -> nat)
    requires OwnersOk(payments, owner) && (e.intent.Some? ==> owner(e.intent.value) == e.session)
    ensures var after := RecordPayment(payments, e, invoice, amount);
            OwnersOk(after, owner) && PaymentsStay(payments, after) && OnePaymentOf(after, e.session)
  {
    var after := RecordPayment(payments, e, invoice, amount);
    match PaymentOf(payments, e) {
      case Some(p) => assert after[p].session == e.session == payments[p].session;
      case None => assert after[|payments|].session == e.session;
    }
  }

  lemma StepOwned(db: Db, step: Step, owner: nat -> nat)
    requires OwnersOk(db.payments, owner) && Owned(step, owner)
    ensures var after := Apply(db, step).payments;
            OwnersOk(after, owner) && PaymentsStay(db.payments, after)
  {
    hide Settle, RecordPayment, OwnersOk, EnqueueAll, AmountPaid;
    match step {
      case SessionCompleted(e, now, _) =>
        if Settle(db, e, now).Some? {
          var invoice := Written(db, e, now);
          RecordOwned(db.payments, e, invoice, AmountPaid(e, db.orders[e.order.value].total).value, owner);
        }
      case IntentFailed(_) => MarkingOwned(db, step, owner);
      case ChargeRefunded(_, _) => MarkingOwned(db, step, owner);
      case _ => OthersLeavePayments(db, step);
    }
  }

  lemma MarkingOwned(db: Db, step: Step, owner: nat -> nat)
    requires OwnersOk(db.payments, owner) && (step.IntentFailed? || step.ChargeRefunded?)
    ensures var after := Apply(db, step).payments;
            OwnersOk(after, owner) && PaymentsStay(db.payments, after)
  {
    hide Apply;
    OnlyStatuses(db, step);
  }

  /** What a completed session has led to: one payment, one paid invoice, and one
      service for each item of its order. */
  ghost predicate Settled(db: Db, session: nat) {
    && session < |db.sessions| && db.sessions[session].order < |db.orders|
    && OnePaymentOf(db.payments, session)
    && OnePaidInvoice(db.invoices, db.sessions[session].order)
    && EachServed(db.services, db.orders[db.sessions[session].order].items)
  }

  ghost predicate EachServed(services: seq<Service>, items: seq<Item>) {
    && (forall i | 0 <= i < |items| :: HasService(services, items[i].id))
    && (forall i, s, t | 0 <= i < |items| && 0 <= s < |services| && 0 <= t < |services|
                         && services[s].item == items[i].id && services[t].item == items[i].id :: s == t)
  }

  /** The event's transaction goes through. */
  predicate Commits(db: Db, step: Step) {
    step.SessionCompleted? && Settle(db, step.event, step.now).Some?
  }

  /** The transaction of an honest event settles its session. */
  lemma SettledByTransaction(db: Db, e: Completed, now: nat, owner: nat -> nat)
    requires BillingOk(db) && OwnersOk(db.payments, owner) && Settle(db, e, now).Some?
    requires Honest(db, SessionCompleted(e, now, {})) && (e.intent.Some? ==> owner(e.intent.value) == e.session)
    ensures Settled(Settle(db, e, now).value.0, e.session)
  {
    hide Settle, RecordPayment, OwnersOk, AmountPaid, OrdersOk, SessionsOk, InvoicesOk, QueueOk, IntentsUnique;
    SettleKeeps(db, e, now);
    var invoice := Written(db, e, now);
    RecordOwned(db.payments, e, invoice, AmountPaid(e, db.orders[e.order.value].total).value, owner);
  }

  lemma SettledByEvent(db: Db, step: Step, owner: nat -> nat)
    requires BillingOk(db) && OwnersOk(db.payments, owner) && step.SessionCompleted?
    requires Honest(db, step) && Owned(step, owner) && Commits(db, step)
    ensures Settled(Apply(db, step), step.event.session)
  {
    hide Settle, OwnersOk, EnqueueAll, OrdersOk, SessionsOk, InvoicesOk, QueueOk, IntentsUnique;
    var (settled, works) := Settle(db, step.event, step.now).value;
    SettleKeeps(db, step.event, step.now);
    SettledByTransaction(db, step.event, step.now, owner);
    EnqueueFrame(settled, works, step.event.order.value, step.refused);
    HasServiceKept(settled.services, Apply(db, step).services);
  }

  lemma SettledFrame(before: Db, after: Db, session: nat, owner: nat -> nat)
    requires SessionsOk(before.orders, before.sessions) && Grows(before, after) && Settled(before, session)
    requires InvoicesOk(after.orders, after.invoices) && ServicesOk(after.orders, after.invoices, after.services)
    requires OwnersOk(after.payments, owner) && PaymentsStay(before.payments, after.payments)
    ensures Settled(after, session)
  {
    var o := before.sessions[session].order;
    var p :| 0 <= p < |before.payments| && before.payments[p].session == session;
    assert after.payments[p].session == session;
    var i :| 0 <= i < |before.invoices| && PaidFor(before.invoices[i], o);
    assert after.invoices[i].order == o;
    InvoicedMeansPaid(after.orders, after.invoices, i);
    HasServiceKept(before.services, after.services);
    assert before.orders[o].status != Draft;
  }

  lemma SettledStays(db: Db, step: Step, session: nat, owner: nat -> nat)
    requires BillingOk(db) && OwnersOk(db.payments, owner) && Owned(step, owner) && Settled(db, session)
    ensures Settled(Apply(db, step), session)
  {
    hide Apply, Settled, Grows, OwnersOk, Owned, SessionsOk, InvoicesOk, ServicesOk, QueueOk, IntentsUnique, OrdersOk;
    StepKeeps(db, step);
    StepOwned(db, step, owner);
    SettledFrame(db, Apply(db, step), session, owner);
  }

  lemma {:induction false} RunOwned(states: seq<Db>, steps: seq<Step>, k: nat, owner: nat -> nat)
    requires IsRun(states, steps) && k < |states| && forall i | 0 <= i < |steps| :: Owned(steps[i], owner)
    ensures OwnersOk(states[k].payments, owner)
    decreases k
  {
    hide Apply, Owned;
    if k > 0 {
      RunOwned(states, steps, k - 1, owner);
      StepOwned(states[k - 1], steps[k - 1], owner);
    }
  }

  /** However many completed events one session gets, interleaved with whatever else,
      from the first one that commits it has one payment row, one paid invoice and one
      service for each item, given that every payment intent belongs to one session. */
  lemma {:induction false} OneOfEach(states: seq<Db>, steps: seq<Step>, j: nat, k: nat, owner: nat -> nat)
    requires IsRun(states, steps) && j < k < |states|
    requires forall i | 0 <= i < |steps| :: Owned(steps[i], owner)
    requires steps[j].SessionCompleted? && Honest(states[j], steps[j]) && Commits(states[j], steps[j])
    ensures Settled(states[k], steps[j].event.session)
    decreases k
  {
    hide Apply, BillingOk, Settled, Commits, OwnersOk, Owned, Honest;
    RunKeeps(states, steps, k - 1);
    RunOwned(states, steps, k - 1, owner);
    if j == k - 1 {
      SettledByEvent(states[j], steps[j], owner);
    } else {
      OneOfEach(states, steps, j, k - 1, owner);
      SettledStays(states[k - 1], steps[k - 1], steps[j].event.session, owner);
    }
  }

  /** A payment row that a step adds is for the session whose event it commits. */
  lemma AddedPayment(db: Db, step: Step, p: nat)
    requires |db.payments| <= p < |Apply(db, step).payments|
    ensures Commits(db, step) && Apply(db, step).payments[p].session == step.event.session
  {
    hide Settle, EnqueueAll, AmountPaid;
    match step {
      case SessionCompleted(e, now, _) =>
        if Settle(db, e, now).Some? { var invoice := Written(db, e, now); }
      case IntentFailed(_) => OnlyStatuses(db, step);
      case ChargeRefunded(_, _) => OnlyStatuses(db, step);
      case _ => OthersLeavePayments(db, step);
    }
  }

  /** Under honest events, a session with any payment at all has exactly one, and its
      order has one paid invoice and one service for each item. */
  lemma {:induction false} PaidMeansSettled(states: seq<Db>, steps: seq<Step>, k: nat, p: nat, owner: nat -> nat)
    requires IsHonestRun(states, steps) && k < |states| && p < |states[k].payments|
    requires forall i | 0 <= i < |steps| :: Owned(steps[i], owner)
    ensures Settled(states[k], states[k].payments[p].session)
    decreases k
  {
    hide Apply, BillingOk, Settled, Commits, OwnersOk, Owned, Honest;
    if k > 0 {
      var before, step := states[k - 1], steps[k - 1];
      RunKeeps(states, steps, k - 1);
      RunOwned(states, steps, k - 1, owner);
      StepOwned(before, step, owner);
      if p < |before.payments| {
        PaidMeansSettled(states, steps, k - 1, p, owner);
        SettledStays(before, step, before.payments[p].session, owner);
      } else {
        AddedPayment(before, step, p);
        CommitsOnly(before, step);
        SettledByEvent(before, step, owner);
      }
    }
  }

  lemma CommitsOnly(db: Db, step: Step)
    requires Commits(db, step)
    ensures step.SessionCompleted?
  {
  }

  /** One payment for each intent needs no such assumption. */
  lemma OnePaymentPerIntent(states: seq<Db>, steps: seq<Step>, k: nat, p: nat, q: nat)
    requires IsRun(states, steps) && k < |states|
    requires p < |states[k].payments| && q < |states[k].payments|
    requires states[k].payments[p].intent.Some? && states[k].payments[p].intent == states[k].payments[q].intent
    ensures p == q
  {
    RunKeeps(states, steps, k);
  }

  /** An event's payment is booked on the order's newest invoice.  That is the paid one
      exactly if the order had at most one invoice before the event, that is, if no
      renewal had been invoiced. */
  lemma BookedOnNewest(db: Db, e: Completed, now: nat)
    requires BillingOk(db) && Settle(db, e, now).Some?
    ensures var after := Settle(db, e, now).value.0;
            var o := e.order.value;
            && PaymentOf(after.payments, e).Some? && NewestInvoice(after.invoices, o).Some?
            && var i := after.payments[PaymentOf(after.payments, e).value].invoice;
            && after.payments[PaymentOf(after.payments, e).value].session == e.session
            && NewestInvoice(after.invoices, o) == Some(i)
            && (after.invoices[i].status == InvoicePaid <==> AtMostOneInvoice(db.invoices, o))
  {
    hide Settle, RecordPayment, AmountPaid, OrdersOk, SessionsOk, ServicesOk, QueueOk, IntentsUnique;
    var after := Settle(db, e, now).value.0;
    SettleKeeps(db, e, now);
    var i := Written(db, e, now);
    Booked(db.payments, e, i, AmountPaid(e, db.orders[e.order.value].total).value);
    NewestPaid(db.invoices, after.invoices, e.order.value, i);
  }

  ghost predicate AtMostOneInvoice(invoices: seq<Invoice>, o: nat) {
    forall j, k | 0 <= j < |invoices| && 0 <= k < |invoices|
                  && invoices[j].order == o && invoices[k].order == o :: j == k
  }

  lemma NewestPaid(before: seq<Invoice>, after: seq<Invoice>, o: nat, i: nat)
    requires NewestInvoice(after, o) == Some(i) && before <= after
    requires after[i].status == InvoicePaid <==> FirstOfOrder(after, i)
    requires NewestInvoice(before, o).Some? ==> after == before
    requires NewestInvoice(before, o).None? ==> |after| == |before| + 1
    ensures after[i].status == InvoicePaid <==> AtMostOneInvoice(before, o)
  {
    if NewestInvoice(before, o).None? {
      assert forall k | 0 <= k < |before| :: after[k] == before[k];
    }
  }

  lemma Booked(payments: seq<Payment>, e: Completed, invoice: nat, amount: Cents)
    requires IntentsUnique(payments)
    ensures var after := RecordPayment(payments, e, invoice, amount);
            && PaymentOf(after, e).Some?
            && after[PaymentOf(after, e).value].invoice == invoice
            && after[PaymentOf(after, e).value].session == e.session
  {
    var after := RecordPayment(payments, e, invoice, amount);
    RecordKeepsIntents(payments, e, invoice, amount);
    var p := if PaymentOf(payments, e).Some? then PaymentOf(payments, e).value else |payments|;
    assert after[p].invoice == invoice && after[p].session == e.session;
    if e.intent.Some? {
      assert after[p].intent == e.intent;
    } else {
      assert PaymentBySession(after, e.session) == Some(p);
    }
  }
}
