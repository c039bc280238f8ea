/** The database as the handlers work on it: tables they change one statement at a
    time, with transactions that roll back.  Each handler is proved to leave exactly
    what its counterpart on values says. */
module Database {
  import opened Calendar
  import opened Wrappers
  import opened Money
  import opened Tables
  import opened Orders
  import opened Checkout
  import opened Fulfilment
  import opened Payments
  import opened Operations

  lemma TrimKeepsText(cents: int)
    ensures TrimSpace(CentsText(cents)) == CentsText(cents)
  {
    var n := if cents < 0 then -cents else cents;
    var digits := Digits(n / 100);
    assert IsDigit(digits[0]);
    assert CentsText(cents)[0] == if cents < 0 then '-' else digits[0];
    assert CentsText(cents)[|CentsText(cents)| - 1] == DigitChar(n % 10);
  }

  lemma PriceParses(price: Cents)
    ensures var s := TrimSpace(CentsText(price));
            && s != "" && IsDecimal(s) && CentsOf(s) == price
            && ParseInt64(SplitAtPoint(s).whole).Some? && !BadKept(SplitAtPoint(s).fraction)
  {
    hide CentsText, TrimSpace, IsDecimal, CentsOf, ParseInt64, SplitAtPoint, BadKept;
    assert Fits(price) && INT64_MIN < 0 - NUMERIC_LIMIT && NUMERIC_LIMIT < INT64_MAX;
    TextRoundTrip(price);
    TrimKeepsText(price);
    PartsParse(CentsText(price));
  }

  /** A price column's text comes out of the parser as the price in cents. */
  method PriceInCents(price: Cents) returns (cents: int)
    ensures cents == price
  {
    hide CentsText, TrimSpace, IsDecimal, CentsOf, ParseInt64, SplitAtPoint, BadKept;
    PriceParses(price);
    var parsed := DecimalAmountToCents(CentsText(price));
    match parsed {
      case Success(value) => cents := value;
      case Failure(error) =>
        match error {
          case EmptyAmount => assert false;
          case BadIntegerPart => assert false;
          case BadFractionPart => assert false;
        }
    }
  }

  lemma PartsParse(s: string)
    requires IsDecimal(s)
    ensures s != "" && !BadKept(SplitAtPoint(s).fraction)
  {
    var fraction := SplitAtPoint(s).fraction;
    if fraction.Some? && fraction.value != "" {
      ShortDigits(Kept(fraction));
    }
  }

  class Database {
    var orders: seq<Order>
    var invoices: seq<Invoice>
    var payments: seq<Payment>
    var refunds: map<nat, Refund>
    var services: seq<Service>
    var jobs: seq<Job>
    var queue: multiset<Task>
    var sessions: seq<Session>
    var nextItem: nat

    function View(): Db
      reads this
    {
      Db(orders, invoices, payments, refunds, services, jobs, queue, sessions, nextItem)
    }

    constructor ()
      ensures View() == EMPTY
    {
      orders, invoices, payments, refunds := [], [], [], map[];
      services, jobs, queue, sessions, nextItem := [], [], multiset{}, [], 0;
    }

    /** What a rolled-back transaction leaves: everything as it was when it began. */
    method Rollback(saved: Db)
      modifies this
      ensures View() == saved
    {
      orders, invoices, payments, refunds := saved.orders, saved.invoices, saved.payments, saved.refunds;
      services, jobs, queue := saved.services, saved.jobs, saved.queue;
      sessions, nextItem := saved.sessions, saved.nextItem;
    }

    // ----- internal/order -----

    method GetOrCreateDraftOrder(user: nat) returns (o: nat)
      modifies this`orders
      ensures (orders, o) == DraftOrder(old(orders), user)
    {
      var newest := NewestDraft(orders, user);
      if newest.Some? { return newest.value; }
      o := |orders|;
      orders := orders + [Order(user, Draft, 0, [])];
    }

    /** Sums the order's total anew in the database; false when it overflows. */
    method UpdateTotal(o: nat) returns (ok: bool)
      requires o < |orders|
      modifies this`orders
      ensures var priced := Priced(old(orders)[o], old(orders)[o].items);
              ok == priced.Some? && orders == if ok then old(orders)[o := priced.value] else old(orders)
    {
      var total := ItemsTotal(orders[o].items);
      ok := Fits(total);
      if ok { orders := orders[o := orders[o].(total := total)]; }
    }

    /** `cartRead` is whether the cart can be read back after the commit, for the answer. */
    method AddCartItem(user: nat, r: Request, cartRead: bool) returns (code: nat)
      modifies this
      ensures var (db, answer) := Orders.AddCartItem(old(View()), user, r);
              View() == db && code == if answer == 200 && !cartRead then 500 else answer
    {
      hide NumericIn, ItemsTotal, CentsText, DraftOrder;
      if r.quantity < 1 || r.quote.UnknownCycle? { return 400; }
      var saved := View();
      var o := GetOrCreateDraftOrder(user);
      if !r.quote.Price? { Rollback(saved); return 400; }

      var items := orders[o].items;
      var existing := ItemOfPlan(items, r.plan, r.cycle);
      if existing.Some? {
        var k := existing.value;
        if !FitsInt32(items[k].quantity + r.quantity) { Rollback(saved); return 500; }
        items := items[k := items[k].(quantity := items[k].quantity + r.quantity, unitPrice := r.quote.cents)];
      } else {
        if !FitsInt32(r.quantity) { Rollback(saved); return 500; }
        items := items + [Item(nextItem, r.plan, r.cycle, r.quantity, r.quote.cents)];
      }
      nextItem := nextItem + 1;
      orders := orders[o := orders[o].(items := items)];

      var totalAmount := CentsText(ItemsTotal(items));
      TextIntoColumn(ItemsTotal(items));
      var total := NumericIn(totalAmount);
      if total.None? { Rollback(saved); return 500; }
      orders := orders[o := orders[o].(total := total.value)];
      assert orders == DraftOrder(saved.orders, user).0[o := orders[o]];
      code := if cartRead then 200 else 500;
    }

    method UpdateCartItem(user: nat, item: nat, quantity: int, cartRead: bool) returns (code: nat)
      modifies this
      ensures var (db, answer) := Orders.UpdateCartItem(old(View()), user, item, quantity);
              View() == db && code == if answer == 200 && !cartRead then 500 else answer
    {
      if quantity < 1 { return 400; }
      var saved := View();
      var held := DraftHolding(orders, user, item);
      if held.None? { return 404; }
      var o := held.value;
      if !FitsInt32(quantity) { return 500; }
      var items := orders[o].items;
      var k := ItemAt(items, item).value;
      orders := orders[o := orders[o].(items := items[k := items[k].(quantity := quantity)])];
      var ok := UpdateTotal(o);
      if !ok { Rollback(saved); return 500; }
      assert orders == saved.orders[o := orders[o]];
      code := if cartRead then 200 else 500;
    }

    method RemoveCartItem(user: nat, item: nat) returns (code: nat)
      modifies this
      ensures (View(), code) == Orders.RemoveCartItem(old(View()), user, item)
    {
      var saved := View();
      var held := DraftHolding(orders, user, item);
      if held.None? { return 404; }
      var o := held.value;
      orders := orders[o := orders[o].(items := Without(orders[o].items, ItemAt(orders[o].items, item).value))];
      var ok := UpdateTotal(o);
      if !ok { Rollback(saved); return 500; }
      assert orders == saved.orders[o := orders[o]];
      code := 200;
    }

    /** The second loop of CreateOrder; false is an error, upon which it rolls back. */
    method InsertItems(o: nat, plans: seq<Request>) returns (ok: bool)
      requires o < |orders| && orders[o].items == []
      modifies this`orders, this`nextItem
      ensures var spec := NewItems(plans, old(nextItem));
              && ok == spec.Some?
              && (ok ==> orders == old(orders)[o := old(orders)[o].(items := spec.value)]
                         && nextItem == old(nextItem) + |plans|)
    {
      for i := 0 to |plans|
        invariant NewItems(plans[..i], old(nextItem)).Some?
        invariant nextItem == old(nextItem) + i
        invariant orders == old(orders)[o := old(orders)[o].(items := NewItems(plans[..i], old(nextItem)).value)]
      {
        var plan := plans[i];
        assert plans[..i + 1][..i] == plans[..i];
        if !plan.quote.Price? || !FitsInt32(plan.quantity) {
          NewItemsFailEarly(plans, i + 1, old(nextItem));
          return false;
        }
        var item := Item(nextItem, plan.plan, plan.cycle, plan.quantity, plan.quote.cents);
        orders := orders[o := orders[o].(items := orders[o].items + [item])];
        nextItem := nextItem + 1;
      }
      assert plans[..|plans|] == plans;
      ok := true;
    }

    method CreateOrder(user: nat, rs: seq<Request>) returns (code: nat)
      modifies this
      ensures (View(), code) == Orders.CreateOrder(old(View()), user, rs)
    {
      if rs == [] { return 400; }
      var saved := View();
      var plans: seq<Request> := [];
      for i := 0 to |rs|
        invariant plans == rs[..i] && View() == saved
        invariant forall j | 0 <= j < i :: !Unpriced(rs[j].quote)
      {
        if Unpriced(rs[i].quote) { return 400; }
        plans := plans + [rs[i]];
      }
      assert plans == rs && !SomeUnpriced(rs);

      hide Unpriced, NewItems, ItemsTotal;
      var o := |orders|;
      orders := orders + [Order(user, Draft, 0, [])];
      var inserted := InsertItems(o, plans);
      if !inserted { Rollback(saved); return 500; }
      var ok := UpdateTotal(o);
      if !ok { Rollback(saved); return 500; }
      assert orders == saved.orders + [orders[o]];
      code := 201;
    }

    /** isValidStatusTransition searches its table from the front. */
    method IsValidStatusTransition(from: OrderStatus, to: Option<OrderStatus>) returns (valid: bool)
      ensures valid <==> to.Some? && to.value in Transitions(from)
    {
      var allowed := Transitions(from);
      for i := 0 to |allowed|
        invariant to.Some? ==> to.value !in allowed[..i]
      {
        if Some(allowed[i]) == to { return true; }
      }
      return false;
    }

    method AdminUpdateOrderStatus(o: nat, to: Option<OrderStatus>) returns (code: nat)
      modifies this
      ensures (View(), code) == Orders.AdminUpdateStatus(old(View()), o, to)
    {
      if o >= |orders| { return 404; }
      var valid := IsValidStatusTransition(orders[o].status, to);
      if !valid { return 400; }
      orders := SetStatus(orders, o, to.value);
      code := 200;
    }

    // ----- internal/payment/service.go -----

    method CreateCheckoutSession(user: nat, o: nat, stripeOk: bool) returns (code: nat)
      modifies this
      ensures (View(), code) == Checkout.CreateSession(old(View()), user, o, stripeOk)
    {
      if o >= |orders| { return 404; }
      if orders[o].user != user { return 403; }
      if orders[o].status != Draft { return 400; }

      var items := orders[o].items;
      var lineItems: seq<StripeLine> := [];
      for i := 0 to |items|
        invariant lineItems == StripeLines(items[..i])
        invariant View() == old(View())
      {
        var unitAmount := PriceInCents(items[i].unitPrice);
        lineItems := lineItems + [StripeLine(unitAmount, items[i].quantity)];
        assert items[..i + 1][..i] == items[..i];
      }
      assert items[..|items|] == items;

      if lineItems == [] { return 400; }
      if !stripeOk { return 500; }
      sessions := sessions + [Session(o, lineItems)];
      orders := SetStatus(orders, o, PendingPayment);
      code := 200;
    }

    /** createInvoice; None is an error, upon which the caller rolls back. */
    method CreateInvoice(o: nat, totalAmount: string) returns (r: Option<nat>)
      requires o < |orders| && totalAmount == CentsText(orders[o].total)
      modifies this`invoices
      ensures var spec := Checkout.CreateInvoice(old(invoices), o, orders[o]);
              if spec.None? then r.None? else (invoices, r) == (spec.value.0, Some(spec.value.1))
    {
      hide NumericIn, CentsText;
      var existing := NewestInvoice(invoices, o);
      if existing.Some? { return existing; }
      TextCarriesAmount(orders[o].total);
      var i := |invoices|;
      invoices := invoices + [Invoice(o, InvoicePaid, NumericIn(totalAmount).value, [])];
      var items := orders[o].items;
      for n := 0 to |items|
        invariant InvoiceLines(items[..n]).Some?
        invariant invoices == old(invoices) + [Invoice(o, InvoicePaid, orders[o].total, InvoiceLines(items[..n]).value)]
      {
        assert items[..n + 1][..n] == items[..n];
        var amount := items[n].quantity * items[n].unitPrice;
        TextIntoColumn(amount);
        TextCarriesAmount(items[n].unitPrice);
        var unitPrice, amountIn := NumericIn(CentsText(items[n].unitPrice)), NumericIn(CentsText(amount));
        if amountIn.None? {
          LinesFailEarly(items, n + 1);
          return None;
        }
        var line := Line(items[n].quantity, unitPrice.value, amountIn.value);
        invoices := invoices[i := invoices[i].(lines := invoices[i].lines + [line])];
      }
      assert items[..|items|] == items;
      r := Some(i);
    }

    // ----- internal/payment/provisioning.go -----

    method EnsureServiceRecord(item: Item, o: nat, now: nat) returns (s: nat)
      modifies this`services
      ensures (services, s) == EnsureService(old(services), item, o, now)
    {
      var existing := ServiceOfItem(services, item.id);
      if existing.Some? {
        s := existing.value;
        if services[s].status != ServiceActive && services[s].status != ServiceProvisioning {
          services := services[s := services[s].(status := ServiceProvisioning)];
        }
        return;
      }
      s := |services|;
      services := services + [Service(item.id, o, ServiceProvisioning, Some(ExpiryDate(item.cycle, now)))];
    }

    method EnsureProvisioningJob(s: nat) returns (job: Option<nat>)
      modifies this`jobs
      ensures (jobs, job) == EnsureJob(old(jobs), s)
    {
      var newest := NewestJob(jobs, s);
      if newest.Some? {
        var status := jobs[newest.value].status;
        if status == JobPending || status == JobRunning { return None; }
      }
      job := Some(|jobs|);
      jobs := jobs + [Job(s, JobPending, 0, 5)];
    }

    method PrepareProvisioningJobs(o: nat, now: nat) returns (tasks: seq<Work>)
      requires o < |orders|
      modifies this`orders, this`services, this`jobs
      ensures var p := Prepare(old(services), old(jobs), old(orders)[o].items, o, now);
              && services == p.services && jobs == p.jobs && tasks == p.works
              && orders == if tasks == [] then old(orders) else SetStatus(old(orders), o, Provisioning)
    {
      var items := orders[o].items;
      tasks := [];
      for i := 0 to |items|
        invariant Prepared(services, jobs, tasks) == Prepare(old(services), old(jobs), items[..i], o, now)
        invariant orders == old(orders)
      {
        assert items[..i + 1][..i] == items[..i];
        var s := EnsureServiceRecord(items[i], o, now);
        if services[s].status == ServiceActive { continue; }
        var job := EnsureProvisioningJob(s);
        if job.None? { continue; }
        tasks := tasks + [Work(s, job.value)];
      }
      assert items[..|items|] == items;
      if |tasks| > 0 { orders := SetStatus(orders, o, Provisioning); }
    }

    method MarkProvisioningJobFailed(w: Work)
      modifies this`services, this`jobs
      ensures jobs == SetJob(old(jobs), w.job, JobFailed)
      ensures services == if w.service < |old(services)| && old(services)[w.service].status == ServiceProvisioning
                          then SetService(old(services), w.service, ServicePending) else old(services)
    {
      if w.job < |jobs| { jobs := jobs[w.job := jobs[w.job].(status := JobFailed)]; }
      if w.service < |services| && services[w.service].status == ServiceProvisioning {
        services := services[w.service := services[w.service].(status := ServicePending)];
      }
    }

    method EnqueueProvisioningTasks(tasks: seq<Work>, o: nat, refused: set<nat>) returns (ok: bool)
      modifies this`services, this`jobs, this`queue
      ensures Placed(services, jobs, queue, !ok)
           == EnqueueAll(Placed(old(services), old(jobs), old(queue), false), tasks, o, refused)
    {
      ok := true;
      for i := 0 to |tasks|
        invariant Placed(services, jobs, queue, !ok)
               == EnqueueAll(Placed(old(services), old(jobs), old(queue), false), tasks[..i], o, refused)
      {
        assert tasks[..i + 1][..i] == tasks[..i];
        if tasks[i].service in refused {
          ok := false;
          MarkProvisioningJobFailed(tasks[i]);
          continue;
        }
        queue := queue + multiset{Task(tasks[i].service, o)};
      }
      assert tasks[..|tasks|] == tasks;
    }

    // ----- internal/payment/webhook.go -----

    method WritePayment(e: Completed, invoice: nat, amount: Cents)
      modifies this`payments
      ensures payments == RecordPayment(old(payments), e, invoice, amount)
    {
      var existing: Option<nat> := None;
      if e.intent.Some? { existing := PaymentByIntent(payments, e.intent.value); }
      if existing.None? { existing := PaymentBySession(payments, e.session); }
      if existing.Some? {
        var p := existing.value;
        var intent := if e.intent.Some? then e.intent else payments[p].intent;
        payments := payments[p := Payment(invoice, intent, e.session, amount, PaymentSucceeded)];
      } else {
        payments := payments + [Payment(invoice, e.intent, e.session, amount, PaymentSucceeded)];
      }
    }

    /** The transaction of handleCheckoutSessionCompleted, up to its commit. */
    method CommitCompleted(e: Completed, now: nat) returns (tasks: Option<seq<Work>>)
      modifies this
      ensures var spec := Settle(old(View()), e, now);
              if spec.None? then tasks.None? && View() == old(View())
              else (View(), tasks) == (spec.value.0, Some(spec.value.1))
    {
      hide NumericIn, CentsText, CentsToDecimal, Prepare, RecordPayment;
      if e.order.None? || e.order.value >= |orders| { return None; }
      var saved := View();
      var o := e.order.value;
      var totalAmount := CentsText(orders[o].total);
      if orders[o].status != OrderStatus.Paid { orders := SetStatus(orders, o, OrderStatus.Paid); }
      assert orders == SetStatus(saved.orders, o, OrderStatus.Paid);

      var invoice := CreateInvoice(o, totalAmount);
      if invoice.None? { Rollback(saved); return None; }
      var amount := totalAmount;
      if e.amountTotal > 0 { amount := CentsToDecimal(e.amountTotal); }
      if NumericIn(amount).None? { Rollback(saved); return None; }
      WritePayment(e, invoice.value, NumericIn(amount).value);
      var works := PrepareProvisioningJobs(o, now);
      tasks := Some(works);
    }

    method HandleCheckoutSessionCompleted(e: Completed, now: nat, refused: set<nat>) returns (ok: bool)
      modifies this
      ensures (View(), ok) == ProcessCompleted(old(View()), e, now, refused)
    {
      var tasks := CommitCompleted(e, now);
      if tasks.None? { return false; }
      ok := EnqueueProvisioningTasks(tasks.value, e.order.value, refused);
    }

    method HandlePaymentIntentFailed(intent: Option<nat>)
      modifies this`payments
      ensures View() == ProcessIntentFailed(old(View()), intent)
    {
      if intent.None? { return; }
      var p := PaymentByIntent(payments, intent.value);
      if p.Some? { payments := payments[p.value := payments[p.value].(status := PaymentStatus.PaymentFailed)]; }
    }

    method HandleChargeRefunded(intent: Option<nat>, refund: Option<(nat, int)>) returns (ok: bool)
      modifies this
      ensures (View(), ok) == ProcessRefunded(old(View()), intent, refund)
    {
      if intent.None? { return true; }
      var saved := View();
      var p := PaymentByIntent(payments, intent.value);
      if p.None? { return true; }
      payments := payments[p.value := payments[p.value].(status := PaymentRefunded)];
      if refund.Some? {
        var (id, cents) := refund.value;
        var amount := NumericIn(CentsToDecimal(cents));
        if amount.None? { Rollback(saved); return false; }
        if id in refunds {
          refunds := refunds[id := refunds[id].(amount := amount.value)];
        } else {
          refunds := refunds[id := Refund(p.value, amount.value)];
        }
      }
      ok := true;
    }

    // ----- internal/admin/service.go -----

    method ProvisionService(s: nat, enqueueOk: bool) returns (code: nat)
      modifies this
      ensures (View(), code) == AdminProvision(old(View()), s, enqueueOk)
    {
      hide SetStatus, SetService, SetJob;
      if s >= |services| { return 404; }
      var status, o := services[s].status, services[s].order;
      if status == ServiceActive || status == ServiceProvisioning { return 409; }
      if status == ServiceTerminated || status == ServiceCancelled { return 400; }

      var job := |jobs|;
      jobs := jobs + [Job(s, JobPending, 0, 3)];
      services := SetService(services, s, ServiceProvisioning);
      orders := SetStatus(orders, o, Provisioning);

      if !enqueueOk {
        jobs := SetJob(jobs, job, JobFailed);
        services := SetService(services, s, ServicePending);
        if o < |orders| && orders[o].status == Provisioning {
          orders := SetStatus(orders, o, OrderStatus.Paid);
        }
        return 500;
      }
      queue := queue + multiset{Task(s, o)};
      code := 200;
    }

    // ----- internal/provisioning/handler.go -----

    /** The worker's updates pick the newest job of the service in a sub-query. */
    method UpdateNewestJob(s: nat, status: JobStatus, attempt: nat)
      modifies this`jobs
      ensures jobs == NewestSet(old(jobs), s, status, attempt)
    {
      var newest := NewestJob(jobs, s);
      if newest.Some? {
        var j := newest.value;
        jobs := jobs[j := jobs[j].(status := status, attempts := jobs[j].attempts + attempt)];
      }
    }

    method HandleProvisionVPS(t: Task, success: bool, ack: bool)
      requires t in queue
      modifies this
      ensures View() == WorkerRun(old(View()), t, success, ack)
    {
      hide NewestSet, Attempted, SetStatus, NewestJob;
      RunningThenClosed(jobs, t.service, if success then JobCompleted else JobFailed);
      UpdateNewestJob(t.service, JobRunning, 1);
      if success {
        if t.service < |services| {
          services := services[t.service := services[t.service].(status := ServiceActive)];
        }
        UpdateNewestJob(t.service, JobCompleted, 0);
        orders := SetStatus(orders, t.order, Active);
      } else {
        UpdateNewestJob(t.service, JobFailed, 0);
      }
      if ack { queue := queue - multiset{t}; }
    }

    method HandleGenerateInvoice(s: nat)
      modifies this`invoices
      ensures View() == RenewalInvoice(old(View()), s)
    {
      if s >= |services| || services[s].order >= |orders| { return; }
      var o := services[s].order;
      var k := ItemAt(orders[o].items, services[s].item);
      if k.None? { return; }
      var unitPrice := CentsText(orders[o].items[k.value].unitPrice);
      TextCarriesAmount(orders[o].items[k.value].unitPrice);
      var price := NumericIn(unitPrice).value;
      var invoice := |invoices|;
      invoices := invoices + [Invoice(o, InvoicePending, price, [])];
      invoices := invoices[invoice := invoices[invoice].(lines := [Line(1, price, price)])];
    }

    method ExpireSingleService(s: nat, r: Recheck)
      modifies this`services
      ensures services == ExpireOne(old(services), s, r)
    {
      if s >= |services| || services[s].expires.None? { return; }
      if r.clock > services[s].expires.value && services[s].status == ServiceActive {
        if r.writeOk { services := services[s := services[s].(status := ServiceSuspended)]; }
      }
    }

    method ExpireAllServices(now: int, rechecks: nat -> Recheck)
      modifies this`services
      ensures services == Sweep(old(services), now, rechecks)
    {
      var expiredIDs: seq<nat> := [];
      for s := 0 to |services|
        invariant services == old(services) && expiredIDs == Due(services[..s], now)
      {
        if IsDue(services[s], now) { expiredIDs := expiredIDs + [s]; }
        assert services[..s + 1][..s] == services[..s];
      }
      assert services[..|services|] == services;
      for i := 0 to |expiredIDs|
        invariant services == ExpireEach(old(services), expiredIDs[..i], rechecks)
      {
        assert expiredIDs[..i + 1][..i] == expiredIDs[..i];
        ExpireSingleService(expiredIDs[i], rechecks(expiredIDs[i]));
      }
      assert expiredIDs[..|expiredIDs|] == expiredIDs;
    }
  }

  function NewestSet(jobs: seq<Job>, s: nat, status: JobStatus, attempt: nat): seq<Job> {
    match NewestJob(jobs, s)
    case None => jobs
    case Some(j) => jobs[j := jobs[j].(status := status, attempts := jobs[j].attempts + attempt)]
  }

  /** The two updates of a worker run hit the same job. */
  lemma RunningThenClosed(jobs: seq<Job>, s: nat, status: JobStatus)
    ensures NewestSet(NewestSet(jobs, s, JobRunning, 1), s, status, 0) == Attempted(jobs, s, status)
  {
    NewestUnmoved(jobs, NewestSet(jobs, s, JobRunning, 1), s);
  }

  /** A job's status does not decide which job is newest. */
  lemma NewestUnmoved(before: seq<Job>, after: seq<Job>, s: nat)
    requires |before| == |after| && forall j | 0 <= j < |before| :: after[j].service == before[j].service
    ensures NewestJob(after, s) == NewestJob(before, s)
  {
    var j, k := NewestJob(before, s), NewestJob(after, s);
    if j.Some? { assert after[j.value].service == s; }
    if k.Some? { assert before[k.value].service == s; }
  }

  lemma {:induction false} NewItemsFailEarly(rs: seq<Request>, k: nat, firstId: nat)
    requires k <= |rs| && NewItems(rs[..k], firstId).None?
    ensures NewItems(rs, firstId).None?
    decreases |rs|
  {
    if k == |rs| {
      assert rs[..k] == rs;
    } else {
      assert rs[..|rs| - 1][..k] == rs[..k];
      NewItemsFailEarly(rs[..|rs| - 1], k, firstId);
    }
  }

  lemma {:induction false} LinesFailEarly(items: seq<Item>, k: nat)
    requires k <= |items| && InvoiceLines(items[..k]).None?
    ensures InvoiceLines(items).None?
    decreases |items|
  {
    if k == |items| {
      assert items[..k] == items;
    } else {
      assert items[..|items| - 1][..k] == items[..k];
      LinesFailEarly(items[..|items| - 1], k);
    }
  }
}
