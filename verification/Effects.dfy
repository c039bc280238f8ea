/** What each handler does to the tables, told from the tables before and after alone:
    which rows change, to what, and that nothing else does. */
module Effects {
  import opened Wrappers
  import opened Calendar
  import opened Money
  import opened Tables
  import opened Orders
  import opened Checkout
  import opened Fulfilment
  import opened Payments
  import opened Operations
  import opened Ledger

  // ----- Carts and orders -----

  /** Every order but one is as it was. */
  ghost predicate OnlyOrder(before: seq<Order>, after: seq<Order>, o: nat) {
    |after| == |before| && forall p | 0 <= p < |before| && p != o :: after[p] == before[p]
  }

  ghost predicate HasDraft(orders: seq<Order>, user: nat) {
    exists p | 0 <= p < |orders| :: orders[p].user == user && orders[p].status == Draft
  }

  /** The cart: the user's newest draft, or a new empty one if there is none. */
  ghost predicate IsCart(orders: seq<Order>, user: nat, o: nat) {
    if o < |orders|
    then orders[o].user == user && orders[o].status == Draft
         && forall p | o < p < |orders| :: !(orders[p].user == user && orders[p].status == Draft)
    else o == |orders| && !HasDraft(orders, user)
  }

  ghost predicate IsRow(items: seq<Item>, r: Request, k: nat) {
    k < |items| && items[k].plan == r.plan && items[k].cycle == r.cycle
  }

  /** A row of the requested plan and cycle gets the quantity and the current price; without
      one, a new row is put at the end. */
  ghost predicate RowAdded(before: seq<Item>, after: seq<Item>, r: Request, id: nat)
    requires r.quote.Price?
  {
    || (exists k: nat :: IsRow(before, r, k) && |after| == |before|
                         && after[k] == Item(before[k].id, r.plan, r.cycle, after[k].quantity, r.quote.cents)
                         && after[k].quantity == before[k].quantity + r.quantity
                         && forall j | 0 <= j < |before| && j != k :: after[j] == before[j])
    || ((forall k :: !IsRow(before, r, k)) && |after| == |before| + 1 && before <= after
        && after[|before|] == Item(id, r.plan, r.cycle, after[|before|].quantity, r.quote.cents)
        && after[|before|].quantity == r.quantity)
  }

  lemma AddedToCart(db: Db, user: nat, r: Request) returns (o: nat)
    requires AddCartItem(db, user, r).1 == 200
    ensures var after := Apply(db, AddToCart(user, r));
            var items := if o < |db.orders| then db.orders[o].items else [];
            && IsCart(db.orders, user, o) && o < |after.orders|
            && after == db.(orders := after.orders, nextItem := db.nextItem + 1)
            && after.orders[o].user == user && after.orders[o].status == Draft
            && after.orders[o].total == ItemsTotal(after.orders[o].items)
            && RowAdded(items, after.orders[o].items, r, db.nextItem)
            && (if o < |db.orders| then OnlyOrder(db.orders, after.orders, o)
                else |after.orders| == |db.orders| + 1 && db.orders <= after.orders)
  {
    hide ItemsTotal, DraftOrder, RowAdded, Merged;
    var orders := DraftOrder(db.orders, user).0;
    o := DraftOrder(db.orders, user).1;
    CartFound(db.orders, user);
    RowMerged(orders[o].items, db.nextItem, r);
  }

  lemma CartFound(orders: seq<Order>, user: nat)
    ensures var (after, o) := DraftOrder(orders, user);
            && IsCart(orders, user, o)
            && after == if o < |orders| then orders else orders + [Order(user, Draft, 0, [])]
  {
    DraftIsNewest(orders, user);
  }

  lemma RowMerged(items: seq<Item>, id: nat, r: Request)
    requires r.quote.Price? && Merged(items, id, r).Some?
    ensures RowAdded(items, Merged(items, id, r).value, r, id)
  {
    match ItemOfPlan(items, r.plan, r.cycle) {
      case Some(k) => assert IsRow(items, r, k);
      case None => assert forall k: nat | k < |items| :: !IsRow(items, r, k);
    }
  }

  /** Setting a quantity changes that of the item, in a draft of the user, and the total. */
  lemma QuantitySet(db: Db, user: nat, item: nat, quantity: int) returns (o: nat, k: nat)
    requires UpdateCartItem(db, user, item, quantity).1 == 200
    ensures var after := Apply(db, UpdateCart(user, item, quantity));
            && o < |db.orders| && db.orders[o].user == user && db.orders[o].status == Draft
            && k < |db.orders[o].items| && db.orders[o].items[k].id == item
            && after == db.(orders := after.orders) && OnlyOrder(db.orders, after.orders, o)
            && after.orders[o].user == user && after.orders[o].status == Draft
            && after.orders[o].total == ItemsTotal(after.orders[o].items)
            && |after.orders[o].items| == |db.orders[o].items|
            && after.orders[o].items[k].quantity == quantity
            && after.orders[o].items[k] == db.orders[o].items[k].(quantity := after.orders[o].items[k].quantity)
            && forall j | 0 <= j < |db.orders[o].items| && j != k :: after.orders[o].items[j] == db.orders[o].items[j]
  {
    hide ItemsTotal;
    o := DraftHolding(db.orders, user, item).value;
    k := ItemAt(db.orders[o].items, item).value;
  }

  /** Removing takes the item out of a draft of the user, and nothing else. */
  lemma ItemRemoved(db: Db, user: nat, item: nat) returns (o: nat, k: nat)
    requires RemoveCartItem(db, user, item).1 == 200
    ensures var after := Apply(db, RemoveFromCart(user, item));
            && o < |db.orders| && db.orders[o].user == user && db.orders[o].status == Draft
            && k < |db.orders[o].items| && db.orders[o].items[k].id == item
            && after == db.(orders := after.orders) && OnlyOrder(db.orders, after.orders, o)
            && after.orders[o].user == user && after.orders[o].status == Draft
            && after.orders[o].total == ItemsTotal(after.orders[o].items)
            && after.orders[o].items == db.orders[o].items[..k] + db.orders[o].items[k + 1..]
  {
    hide ItemsTotal;
    o := DraftHolding(db.orders, user, item).value;
    k := ItemAt(db.orders[o].items, item).value;
  }

  /** An accepted CreateOrder adds one draft of the user, with a row for each request. */
  lemma OrderCreated(db: Db, user: nat, rs: seq<Request>)
    requires CreateOrder(db, user, rs).1 == 201
    ensures var after := Apply(db, NewOrder(user, rs));
            var n := |db.orders|;
            && |after.orders| == n + 1 && db.orders <= after.orders
            && after == db.(orders := after.orders, nextItem := db.nextItem + |rs|)
            && after.orders[n].user == user && after.orders[n].status == Draft
            && after.orders[n].total == ItemsTotal(after.orders[n].items)
            && |after.orders[n].items| == |rs|
            && forall i | 0 <= i < |rs| :: IsItemOf(after.orders[n].items[i], rs[i], db.nextItem + i)
  {
    hide ItemsTotal, IsItemOf;
    NewItemsRows(rs, db.nextItem);
  }

  /** The status changes an administrator may ask for. */
  predicate Allowed(from: OrderStatus, to: OrderStatus) {
    || (from == Draft && (to == PendingPayment || to == Cancelled))
    || (from == PendingPayment && (to == Paid || to == Cancelled))
    || (from == Paid && (to == Provisioning || to == Refunded || to == Cancelled))
    || (from == Provisioning && (to == Active || to == Cancelled))
  }

  /** They are made exactly if they are among these, and change that one status. */
  lemma StatusChanged(db: Db, o: nat, to: Option<OrderStatus>)
    ensures var after, code := Apply(db, AdminStatus(o, to)), AdminUpdateStatus(db, o, to).1;
            && code == (if o >= |db.orders| then 404
                        else if to.Some? && Allowed(db.orders[o].status, to.value) then 200 else 400)
            && (code == 200 ==> after == db.(orders := after.orders) && OnlyOrder(db.orders, after.orders, o)
                                && after.orders[o] == db.orders[o].(status := to.value))
            && (code != 200 ==> after == db)
  {
  }

  // ----- Checkout -----

  lemma {:induction false} StripeLineOf(items: seq<Item>, i: nat)
    requires i < |items|
    ensures StripeLines(items)[i] == StripeLine(items[i].unitPrice, items[i].quantity)
  {
    if i < |items| - 1 { StripeLineOf(items[..|items| - 1], i); }
  }

  /** A session is made exactly for a draft of the user that has items, if Stripe answers:
      it has the items' prices and quantities as its lines, and the order then waits for
      payment.  Each refusal has its own answer and changes nothing. */
  lemma CheckoutAnswers(db: Db, user: nat, o: nat, stripeOk: bool)
    ensures var after, code := Apply(db, StartCheckout(user, o, stripeOk)), CreateSession(db, user, o, stripeOk).1;
            && (code == 404 <==> o >= |db.orders|)
            && (code == 403 <==> o < |db.orders| && db.orders[o].user != user)
            && (code == 400 <==> o < |db.orders| && db.orders[o].user == user
                                 && (db.orders[o].status != Draft || |db.orders[o].items| == 0))
            && (code == 200 <==> o < |db.orders| && db.orders[o].user == user && db.orders[o].status == Draft
                                 && |db.orders[o].items| > 0 && stripeOk)
            && (code != 200 ==> after == db && code in {400, 403, 404, 500})
            && (code == 200 ==>
                  && after == db.(orders := after.orders, sessions := after.sessions)
                  && OnlyOrder(db.orders, after.orders, o)
                  && after.orders[o] == db.orders[o].(status := PendingPayment)
                  && |after.sessions| == |db.sessions| + 1 && db.sessions <= after.sessions
                  && var session := after.sessions[|db.sessions|];
                  && session.order == o && |session.lines| == |db.orders[o].items|
                  && forall i | 0 <= i < |session.lines| ::
                       session.lines[i] == StripeLine(db.orders[o].items[i].unitPrice, db.orders[o].items[i].quantity))
  {
    if o < |db.orders| {
      var items := db.orders[o].items;
      forall i | 0 <= i < |items|
        ensures StripeLines(items)[i] == StripeLine(items[i].unitPrice, items[i].quantity)
      {
        StripeLineOf(items, i);
      }
    }
  }
  // ----- A completed payment -----

  ghost predicate Invoiced(invoices: seq<Invoice>, o: nat) {
    exists i | 0 <= i < |invoices| :: invoices[i].order == o
  }

  /** What a completed event needs: an order that exists, amounts that fit their columns,
      and lines that do, unless the order is invoiced already. */
  ghost predicate Bookable(db: Db, e: Completed) {
    && e.order.Some? && e.order.value < |db.orders|
    && (e.amountTotal > 0 ==> Fits(e.amountTotal))
    && (Invoiced(db.invoices, e.order.value)
        || forall i | 0 <= i < |db.orders[e.order.value].items| ::
          Fits(db.orders[e.order.value].items[i].quantity * db.orders[e.order.value].items[i].unitPrice))
  }

  lemma InvoicedFound(invoices: seq<Invoice>, o: nat)
    ensures NewestInvoice(invoices, o).Some? <==> Invoiced(invoices, o)
  {
    var newest := NewestInvoice(invoices, o);
    if newest.Some? { assert invoices[newest.value].order == o; }
  }

  lemma AmountOf(e: Completed, total: Cents)
    ensures AmountPaid(e, total)
         == if e.amountTotal <= 0 then Some(total) else if Fits(e.amountTotal) then Some(e.amountTotal) else None
  {
    hide NumericIn, CentsToDecimal, CentsText;
    if e.amountTotal > 0 { ChargeIntoColumn(e.amountTotal); } else { TextCarriesAmount(total); }
  }

  /** The transaction goes through exactly then; if it does not, nothing changes and the
      event is answered as failed. */
  lemma CommitsExactly(db: Db, e: Completed, now: nat, refused: set<nat>)
    ensures Commits(db, SessionCompleted(e, now, refused)) <==> Bookable(db, e)
    ensures !Bookable(db, e) ==> Apply(db, SessionCompleted(e, now, refused)) == db
                                 && !ProcessCompleted(db, e, now, refused).1
  {
    hide AmountPaid, Prepare, EnqueueAll, RecordPayment, InvoiceLines, Invoiced;
    if e.order.Some? && e.order.value < |db.orders| {
      var o := e.order.value;
      InvoicedFound(db.invoices, o);
      LinesFit(db.orders[o].items);
      AmountOf(e, db.orders[o].total);
    }
  }

  /** The pieces the new tables are made of. */
  lemma CompletedParts(db: Db, e: Completed, now: nat, refused: set<nat>) returns (invoices: seq<Invoice>, i: nat)
    requires Bookable(db, e)
    ensures var o := e.order.value;
            var order := db.orders[o];
            var amount: Cents := if e.amountTotal > 0 then e.amountTotal else order.total;
            var p := Prepare(db.services, db.jobs, order.items, o, now);
            var q := EnqueueAll(Placed(p.services, p.jobs, db.queue, false), p.works, o, refused);
            var (after, ok) := ProcessCompleted(db, e, now, refused);
            && after == db.(orders := after.orders, invoices := invoices,
                        payments := RecordPayment(db.payments, e, i, amount),
                        services := q.services, jobs := q.jobs, queue := q.queue)
            && OnlyOrder(db.orders, after.orders, o)
            && after.orders[o] == order.(status := if p.works == [] then Paid else Provisioning)
            && CreateInvoice(db.invoices, o, order.(status := Paid)) == Some((invoices, i))
            && (ok <==> !q.failed)
  {
    hide AmountPaid, Prepare, EnqueueAll, RecordPayment, CreateInvoice, Bookable;
    CommitsExactly(db, e, now, refused);
    var o := e.order.value;
    AmountOf(e, db.orders[o].total);
    BookableAmount(db, e);
    invoices := CreateInvoice(db.invoices, o, db.orders[o].(status := Paid)).value.0;
    i := CreateInvoice(db.invoices, o, db.orders[o].(status := Paid)).value.1;
  }

  lemma BookableAmount(db: Db, e: Completed)
    requires Bookable(db, e)
    ensures e.order.Some? && e.order.value < |db.orders| && (e.amountTotal > 0 ==> Fits(e.amountTotal))
  {
  }

  /** The row a completed event is booked in: that of its intent, else the newest of its
      session, else a new one. */
  ghost predicate IsPaymentRow(payments: seq<Payment>, e: Completed, p: nat) {
    var known := e.intent.Some? && exists q | 0 <= q < |payments| :: payments[q].intent == e.intent;
    if known then p < |payments| && payments[p].intent == e.intent
    else if p < |payments| then
      payments[p].session == e.session && forall q | p < q < |payments| :: payments[q].session != e.session
    else p == |payments| && forall q | 0 <= q < |payments| :: payments[q].session != e.session
  }

  lemma RowFound(payments: seq<Payment>, e: Completed)
    ensures IsPaymentRow(payments, e, PaymentOf(payments, e).GetOr(|payments|))
    ensures PaymentOf(payments, e).Some? ==> PaymentOf(payments, e).value < |payments|
  {
  }

  lemma RowWritten(payments: seq<Payment>, e: Completed, invoice: nat, amount: Cents)
    ensures var p := PaymentOf(payments, e).GetOr(|payments|);
            var after := RecordPayment(payments, e, invoice, amount);
            && p < |after| && |after| == (if p < |payments| then |payments| else |payments| + 1)
            && after[p].session == e.session && after[p].amount == amount && after[p].status == PaymentSucceeded
            && after[p].invoice == invoice
            && after[p].intent == (if e.intent.Some? then e.intent
                                   else if p < |payments| then payments[p].intent else None)
            && forall q | 0 <= q < |payments| && q != p :: after[q] == payments[q]
  {
  }

  /** A completed event leaves one row for its session: succeeded, with what was charged (or
      the order's total, if the event tells no amount), with the event's intent, or the one
      it had, and booked on the order's newest invoice.  Every other payment is as it was. */
  lemma CompletedPayment(db: Db, e: Completed, now: nat, refused: set<nat>) returns (p: nat)
    requires Bookable(db, e)
    ensures var after := Apply(db, SessionCompleted(e, now, refused));
            && IsPaymentRow(db.payments, e, p) && p < |after.payments|
            && |after.payments| == (if p < |db.payments| then |db.payments| else |db.payments| + 1)
            && after.payments[p].session == e.session
            && after.payments[p].status == PaymentSucceeded
            && after.payments[p].amount == (if e.amountTotal > 0 then e.amountTotal else db.orders[e.order.value].total)
            && after.payments[p].intent == (if e.intent.Some? then e.intent
                                            else if p < |db.payments| then db.payments[p].intent else None)
            && after.payments[p].invoice < |after.invoices|
            && after.invoices[after.payments[p].invoice].order == e.order.value
            && (forall i | after.payments[p].invoice < i < |after.invoices| :: after.invoices[i].order != e.order.value)
            && forall q | 0 <= q < |db.payments| && q != p :: after.payments[q] == db.payments[q]
  {
    hide Prepare, EnqueueAll, RecordPayment, IsPaymentRow, InvoiceLines, PaymentOf, ProcessCompleted;
    var invoices, i := CompletedParts(db, e, now, refused);
    p := PaymentOf(db.payments, e).GetOr(|db.payments|);
    RowFound(db.payments, e);
    RowWritten(db.payments, e, i, if e.amountTotal > 0 then e.amountTotal else db.orders[e.order.value].total);
  }

  predicate IsLineOf(line: Line, item: Item) {
    && line.quantity == item.quantity && line.unitPrice == item.unitPrice
    && line.amount == item.quantity * item.unitPrice
  }

  lemma {:induction false} InvoiceLinesOf(items: seq<Item>)
    requires InvoiceLines(items).Some?
    ensures var lines := InvoiceLines(items).value;
            |lines| == |items| && forall i | 0 <= i < |items| :: IsLineOf(lines[i], items[i])
  {
    if items != [] { InvoiceLinesOf(items[..|items| - 1]); }
  }

  /** An order without an invoice gets one, paid, of its total, with a line for each item;
      an invoice that is there is left as it is. */
  lemma CompletedInvoice(db: Db, e: Completed, now: nat, refused: set<nat>)
    requires Bookable(db, e)
    ensures var after := Apply(db, SessionCompleted(e, now, refused));
            var o, n := e.order.value, |db.invoices|;
            var items := db.orders[o].items;
            if Invoiced(db.invoices, o) then after.invoices == db.invoices
            else
              && |after.invoices| == n + 1 && db.invoices <= after.invoices
              && after.invoices[n].order == o && after.invoices[n].status == InvoicePaid
              && after.invoices[n].total == db.orders[o].total
              && |after.invoices[n].lines| == |items|
              && forall i | 0 <= i < |items| :: IsLineOf(after.invoices[n].lines[i], items[i])
  {
    hide Prepare, EnqueueAll, RecordPayment, InvoiceLines, ProcessCompleted, Invoiced, IsLineOf;
    var invoices, at := CompletedParts(db, e, now, refused);
    InvoicedFound(db.invoices, e.order.value);
    if !Invoiced(db.invoices, e.order.value) {
      InvoiceLinesOf(db.orders[e.order.value].items);
    }
  }
  /** New jobs after the first n. */
  predicate NewJobFor(jobs: seq<Job>, n: nat, s: nat) { exists j | n <= j < |jobs| :: jobs[j].service == s }

  /** Provisioning has to be started: the service is not active, and it is not under way. */
  predicate ToStart(db: Db, s: nat) {
    !(s < |db.services| && db.services[s].status == ServiceActive) && !UnderWay(db.jobs, s)
  }

  /** What a completed event does for an item.  Its service is the one it had, or a new one
      with the item's term; it stays active if it was, and is provisioning otherwise, save
      that it is pending when a job was needed and its enqueue refused.  A job with five attempts is
      added exactly if needed: pending with one more task queued, or failed with none. */
  ghost predicate Served(db: Db, after: Db, item: Item, o: nat, now: nat, refused: set<nat>, s: nat) {
    && s < |after.services|
    && (if s < |db.services|
        then db.services[s].item == item.id
             && after.services[s] == db.services[s].(status := after.services[s].status)
        else !HasService(db.services, item.id)
             && after.services[s] == Service(item.id, o, after.services[s].status, Some(ExpiryDate(item.cycle, now))))
    && after.services[s].status == (if s < |db.services| && db.services[s].status == ServiceActive then ServiceActive
                                    else if ToStart(db, s) && s in refused then ServicePending
                                    else ServiceProvisioning)
    && (ToStart(db, s) <==> NewJobFor(after.jobs, |db.jobs|, s))
    && (forall j | |db.jobs| <= j < |after.jobs| && after.jobs[j].service == s ::
          after.jobs[j] == Job(s, if s in refused then JobFailed else JobPending, 0, 5))
    && after.queue[Task(s, o)] == db.queue[Task(s, o)] + (if ToStart(db, s) && s !in refused then 1 else 0)
  }

  /** Services and tasks of other items are as they were, and so is every earlier job; no
      service gets two jobs. */
  ghost predicate ElseUntouched(db: Db, after: Db, items: seq<Item>, o: nat) {
    && |db.services| <= |after.services| && db.jobs <= after.jobs
    && (forall s | 0 <= s < |db.services| && !HasItem(items, db.services[s].item) ::
          after.services[s] == db.services[s])
    && (forall s | |db.services| <= s < |after.services| :: HasItem(items, after.services[s].item))
    && (forall j | |db.jobs| <= j < |after.jobs| ::
          after.jobs[j].service < |after.services| && HasItem(items, after.services[after.jobs[j].service].item))
    && (forall j, k | |db.jobs| <= j < |after.jobs| && |db.jobs| <= k < |after.jobs|
                      && after.jobs[j].service == after.jobs[k].service :: j == k)
    && (forall t: Task | !(t.order == o && t.service < |after.services|
                           && HasItem(items, after.services[t.service].item)) ::
          after.queue[t] == db.queue[t])
  }

  /** The services, jobs and queue of a completed event, as preparing and enqueueing make them. */
  ghost predicate PlacedParts(db: Db, after: Db, p: Prepared, q: Placed, items: seq<Item>, o: nat, now: nat,
                              refused: set<nat>) {
    && PreparedExactly(db.services, db.jobs, items, o, now, p)
    && EnqueuedExactly(Placed(p.services, p.jobs, db.queue, false), p.works, o, refused, q)
    && after.services == q.services && after.jobs == q.jobs && after.queue == q.queue
  }

  function JobOf(w: Work, refused: set<nat>): Job {
    Job(w.service, if w.service in refused then JobFailed else JobPending, 0, 5)
  }

  /** New jobs correspond to the work. */
  lemma JobsOfWork(db: Db, after: Db, p: Prepared, q: Placed, items: seq<Item>, o: nat, now: nat, refused: set<nat>)
    requires PlacedParts(db, after, p, q, items, o, now, refused)
    ensures db.jobs <= after.jobs && |after.jobs| == |db.jobs| + |p.works|
    ensures forall a | 0 <= a < |p.works| :: after.jobs[|db.jobs| + a] == JobOf(p.works[a], refused)
    ensures forall s: nat :: NewJobFor(after.jobs, |db.jobs|, s) <==> WorkFor(p.works, s)
  {
    hide PreparedExactly;
    PreparedJobs(db, p, items, o, now);
    forall j | 0 <= j < |db.jobs| ensures after.jobs[j] == db.jobs[j] {
      assert !RefusedJob(p.works, refused, j);
    }
    forall a | 0 <= a < |p.works|
      ensures after.jobs[|db.jobs| + a] == JobOf(p.works[a], refused)
    {
      assert RefusedJob(p.works, refused, |db.jobs| + a) <==> p.works[a].service in refused;
    }
    forall s: nat ensures NewJobFor(after.jobs, |db.jobs|, s) <==> WorkFor(p.works, s) {
      if NewJobFor(after.jobs, |db.jobs|, s) {
        var j :| |db.jobs| <= j < |after.jobs| && after.jobs[j].service == s;
        assert after.jobs[|db.jobs| + (j - |db.jobs|)].service == p.works[j - |db.jobs|].service;
      }
      if WorkFor(p.works, s) {
        var a :| 0 <= a < |p.works| && p.works[a].service == s;
        assert after.jobs[|db.jobs| + a].service == s;
      }
    }
  }

  lemma PreparedJobs(db: Db, p: Prepared, items: seq<Item>, o: nat, now: nat)
    requires PreparedExactly(db.services, db.jobs, items, o, now, p)
    ensures NewJobs(db.jobs, p) && OnlyFor(db.services, p, items)
    ensures forall i | 0 <= i < |items| :: IsPrepared(db.services, db.jobs, p, items[i], o, now)
  {
  }

  lemma ServedByParts(db: Db, after: Db, p: Prepared, q: Placed, items: seq<Item>, o: nat, now: nat, refused: set<nat>,
                      i: nat) returns (s: nat)
    requires PlacedParts(db, after, p, q, items, o, now, refused) && i < |items|
    ensures Served(db, after, items[i], o, now, refused, s)
  {
    hide PlacedParts, PreparedExactly, EnqueuedExactly, NewJobs, OnlyFor, UnderWay, WorkFor, NewJobFor, HasService,
      ExpiryDate;
    PartsGiven(db, after, p, q, items, o, now, refused);
    PreparedJobs(db, p, items, o, now);
    s :| ItemPrepared(db.services, db.jobs, p, items[i], o, now, s);
    JobsOfWork(db, after, p, q, items, o, now, refused);
    ServiceEnqueued(db, after, p, q, items, o, now, refused, s);
    forall j | |db.jobs| <= j < |after.jobs| && after.jobs[j].service == s
      ensures after.jobs[j] == Job(s, if s in refused then JobFailed else JobPending, 0, 5)
    {
      assert after.jobs[|db.jobs| + (j - |db.jobs|)].service == p.works[j - |db.jobs|].service;
    }
  }

  lemma PartsGiven(db: Db, after: Db, p: Prepared, q: Placed, items: seq<Item>, o: nat, now: nat, refused: set<nat>)
    requires PlacedParts(db, after, p, q, items, o, now, refused)
    ensures PreparedExactly(db.services, db.jobs, items, o, now, p)
  {
  }

  lemma ServiceEnqueued(db: Db, after: Db, p: Prepared, q: Placed, items: seq<Item>, o: nat, now: nat,
                        refused: set<nat>, s: nat)
    requires PlacedParts(db, after, p, q, items, o, now, refused)
    ensures |after.services| == |p.services|
    ensures s < |p.services| ==>
              after.services[s] == if s in refused && WorkFor(p.works, s) && p.services[s].status == ServiceProvisioning
                                   then p.services[s].(status := ServicePending) else p.services[s]
    ensures after.queue[Task(s, o)]
         == db.queue[Task(s, o)] + (if s !in refused && WorkFor(p.works, s) then 1 else 0)
  {
    hide PreparedExactly, WorkFor, RefusedJob;
  }

  lemma ElseByParts(db: Db, after: Db, p: Prepared, q: Placed, items: seq<Item>, o: nat, now: nat, refused: set<nat>)
    requires PlacedParts(db, after, p, q, items, o, now, refused)
    ensures ElseUntouched(db, after, items, o)
    ensures q.failed <==> exists j | |db.jobs| <= j < |after.jobs| :: after.jobs[j].status == JobFailed
  {
    hide PlacedParts, PreparedExactly, HasItem, NewJobFor;
    PreparedJobs(db, p, items, o, now) by { PartsGiven(db, after, p, q, items, o, now, refused); }
    JobsOfWork(db, after, p, q, items, o, now, refused);
    RowsElsewhere(db, after, p, q, items, o, now, refused);
    forall j | |db.jobs| <= j < |after.jobs|
      ensures after.jobs[j].service == p.works[j - |db.jobs|].service
      ensures after.jobs[j].status == JobFailed <==> p.works[j - |db.jobs|].service in refused
    {
      assert after.jobs[|db.jobs| + (j - |db.jobs|)].service == p.works[j - |db.jobs|].service;
    }
    FailedWork(db, after, p, refused);
  }

  lemma FailedWork(db: Db, after: Db, p: Prepared, refused: set<nat>)
    requires |after.jobs| == |db.jobs| + |p.works|
    requires forall j | |db.jobs| <= j < |after.jobs| ::
               after.jobs[j].status == JobFailed <==> p.works[j - |db.jobs|].service in refused
    ensures (exists s: nat :: s in refused && WorkFor(p.works, s))
       <==> exists j | |db.jobs| <= j < |after.jobs| :: after.jobs[j].status == JobFailed
  {
    if s: nat :| s in refused && WorkFor(p.works, s) {
      var a :| 0 <= a < |p.works| && p.works[a].service == s;
      assert p.works[|db.jobs| + a - |db.jobs|].service in refused;
      assert after.jobs[|db.jobs| + a].status == JobFailed;
    }
    if j :| |db.jobs| <= j < |after.jobs| && after.jobs[j].status == JobFailed {
      assert WorkFor(p.works, p.works[j - |db.jobs|].service);
    }
  }

  /** Rows of other items, item by item, before and after enqueueing. */
  lemma RowsElsewhere(db: Db, after: Db, p: Prepared, q: Placed, items: seq<Item>, o: nat, now: nat, refused: set<nat>)
    requires PlacedParts(db, after, p, q, items, o, now, refused) && OnlyFor(db.services, p, items)
    ensures |after.services| == |p.services|
    ensures forall s | 0 <= s < |p.services| :: after.services[s].item == p.services[s].item
    ensures forall s | 0 <= s < |db.services| && !HasItem(items, db.services[s].item) ::
              after.services[s] == db.services[s]
    ensures forall t: Task | !(t.order == o && t.service < |after.services|
                               && HasItem(items, after.services[t.service].item)) ::
              after.queue[t] == db.queue[t]
    ensures q.failed <==> exists s: nat :: s in refused && WorkFor(p.works, s)
  {
    hide PreparedExactly, HasItem, RefusedJob;
    forall s: nat | WorkFor(p.works, s) ensures s < |p.services| && HasItem(items, p.services[s].item) {
      var a :| 0 <= a < |p.works| && p.works[a].service == s;
    }
    hide WorkFor;
  }
  lemma CompletedPlaced(db: Db, e: Completed, now: nat, refused: set<nat>) returns (p: Prepared, q: Placed)
    requires BillingOk(db) && Bookable(db, e)
    ensures var o := e.order.value;
            var after, items := Apply(db, SessionCompleted(e, now, refused)), db.orders[o].items;
            && PlacedParts(db, after, p, q, items, o, now, refused)
            && OnlyOrder(db.orders, after.orders, o)
            && after.orders[o] == db.orders[o].(status := if p.works == [] then Paid else Provisioning)
            && after == db.(orders := after.orders, invoices := after.invoices, payments := after.payments,
                        services := after.services, jobs := after.jobs, queue := after.queue)
            && (ProcessCompleted(db, e, now, refused).1 <==> !q.failed)
  {
    hide Prepare, EnqueueAll, RecordPayment, InvoiceLines, ProcessCompleted, PreparedExactly, EnqueuedExactly, OrdersOk,
      SessionsOk, InvoicesOk, ServicesOk, QueueOk, IntentsUnique, CreateInvoice;
    var o := e.order.value;
    var items := db.orders[o].items;
    var invoices, i := CompletedParts(db, e, now, refused);
    p := Prepare(db.services, db.jobs, items, o, now);
    q := EnqueueAll(Placed(p.services, p.jobs, db.queue, false), p.works, o, refused);
    Distinct(db, o);
    PrepareExactly(db.services, db.jobs, items, o, now);
    WorksDiffer(db, p, items, o, now);
    EnqueueExactly(Placed(p.services, p.jobs, db.queue, false), p.works, o, refused);
  }

  lemma Distinct(db: Db, o: nat)
    requires BillingOk(db) && o < |db.orders|
    ensures DistinctIds(db.orders[o].items) && OneServiceEach(db.services)
  {
  }

  lemma WorksDiffer(db: Db, p: Prepared, items: seq<Item>, o: nat, now: nat)
    requires PreparedExactly(db.services, db.jobs, items, o, now, p)
    ensures forall a, b | 0 <= a < |p.works| && 0 <= b < |p.works| && a != b ::
              p.works[a].service != p.works[b].service && p.works[a].job != p.works[b].job
  {
  }

  /** Each item of the order is served by a completed event. */
  lemma CompletedServes(db: Db, e: Completed, now: nat, refused: set<nat>, i: nat) returns (s: nat)
    requires BillingOk(db) && Bookable(db, e) && i < |db.orders[e.order.value].items|
    ensures Served(db, Apply(db, SessionCompleted(e, now, refused)), db.orders[e.order.value].items[i],
                   e.order.value, now, refused, s)
  {
    hide Apply, Served, PlacedParts, BillingOk;
    var p, q := CompletedPlaced(db, e, now, refused);
    var o := e.order.value;
    s := ServedByParts(db, Apply(db, SessionCompleted(e, now, refused)), p, q, db.orders[o].items, o, now, refused, i);
  }

  /** The order ends as provisioning if the event started anything, and as paid if not; its
      items, its total and every other order, session and refund, and all that belongs to
      other orders' items, are as they were. */
  lemma CompletedElsewhere(db: Db, e: Completed, now: nat, refused: set<nat>)
    requires BillingOk(db) && Bookable(db, e)
    ensures var o := e.order.value;
            var after := Apply(db, SessionCompleted(e, now, refused));
            && OnlyOrder(db.orders, after.orders, o)
            && after.orders[o] == db.orders[o].(status := if |after.jobs| > |db.jobs| then Provisioning else Paid)
            && after.sessions == db.sessions && after.refunds == db.refunds && after.nextItem == db.nextItem
            && ElseUntouched(db, after, db.orders[o].items, o)
  {
    hide Apply, ElseUntouched, PlacedParts, BillingOk, ProcessCompleted;
    var p, q := CompletedPlaced(db, e, now, refused);
    var o := e.order.value;
    var after := Apply(db, SessionCompleted(e, now, refused));
    ElseByParts(db, after, p, q, db.orders[o].items, o, now, refused);
    JobsOfWork(db, after, p, q, db.orders[o].items, o, now, refused);
  }

  /** None of the jobs after the first n is failed. */
  predicate NoneFailed(jobs: seq<Job>, n: nat) { forall j | n <= j < |jobs| :: jobs[j].status != JobFailed }

  /** The event is answered as processed exactly if it could be booked and none of the jobs
      it made failed, which is what a refused task does to its job. */
  lemma CompletedAnswers(db: Db, e: Completed, now: nat, refused: set<nat>)
    requires BillingOk(db)
    ensures ProcessCompleted(db, e, now, refused).1
       <==> (Bookable(db, e) && NoneFailed(Apply(db, SessionCompleted(e, now, refused)).jobs, |db.jobs|))
  {
    hide Apply, ElseUntouched, PlacedParts, BillingOk, ProcessCompleted, Bookable, OnlyOrder;
    CommitsExactly(db, e, now, refused);
    if Bookable(db, e) {
      OrderGiven(db, e);
      var p, q := CompletedPlaced(db, e, now, refused);
      var o := e.order.value;
      ElseByParts(db, Apply(db, SessionCompleted(e, now, refused)), p, q, db.orders[o].items, o, now, refused);
    }
  }

  lemma OrderGiven(db: Db, e: Completed)
    requires Bookable(db, e)
    ensures e.order.Some? && e.order.value < |db.orders|
  {
  }

  // ----- The other events -----

  ghost predicate OnlyPayment(before: seq<Payment>, after: seq<Payment>, p: nat) {
    |after| == |before| && forall q | 0 <= q < |before| && q != p :: after[q] == before[q]
  }

  ghost predicate IntentKnown(payments: seq<Payment>, intent: Option<nat>) {
    intent.Some? && exists p | 0 <= p < |payments| :: payments[p].intent == intent
  }

  /** A failed intent marks its payment failed, and changes nothing else. */
  lemma IntentFailedMarks(db: Db, intent: Option<nat>)
    requires IntentsUnique(db.payments)
    ensures var after := Apply(db, IntentFailed(intent));
            && after == db.(payments := after.payments) && |after.payments| == |db.payments|
            && forall p | 0 <= p < |db.payments| ::
                 after.payments[p] == if intent.Some? && db.payments[p].intent == intent
                 then db.payments[p].(status := PaymentFailed) else db.payments[p]
  {
    var found := if intent.Some? then PaymentByIntent(db.payments, intent.value) else None;
    if found.Some? { assert db.payments[found.value].intent == intent; }
  }

  /** A refund of a known intent marks its payment refunded, and records the first refund
      if the event carries one: under its id, with its amount, on that payment unless the
      id was known already.  An amount that does not fit undoes both and is answered as
      failed; an unknown intent is passed over. */
  lemma RefundMarks(db: Db, intent: Option<nat>, refund: Option<(nat, int)>)
    requires IntentsUnique(db.payments)
    ensures var after, ok := Apply(db, ChargeRefunded(intent, refund)), ProcessRefunded(db, intent, refund).1;
            var known := IntentKnown(db.payments, intent);
            && (ok <==> !known || refund.None? || Fits(refund.value.1))
            && (!known || !ok ==> after == db)
            && (known && ok ==>
                  && after == db.(payments := after.payments, refunds := after.refunds)
                  && |after.payments| == |db.payments|
                  && (forall p | 0 <= p < |db.payments| ::
                        after.payments[p] == if db.payments[p].intent == intent
                        then db.payments[p].(status := PaymentRefunded) else db.payments[p])
                  && (refund.None? ==> after.refunds == db.refunds)
                  && (refund.Some? ==>
                        var id := refund.value.0;
                        && after.refunds.Keys == db.refunds.Keys + {id}
                        && (forall r | r in db.refunds && r != id :: after.refunds[r] == db.refunds[r])
                        && after.refunds[id].amount == refund.value.1
                        && (if id in db.refunds then after.refunds[id].payment == db.refunds[id].payment
                            else after.refunds[id].payment < |db.payments|
                                 && db.payments[after.refunds[id].payment].intent == intent)))
  {
    hide NumericIn, CentsToDecimal;
    if refund.Some? { ChargeIntoColumn(refund.value.1); }
    var found := if intent.Some? then PaymentByIntent(db.payments, intent.value) else None;
    if found.Some? { assert db.payments[found.value].intent == intent; }
  }

  // ----- The worker and the scheduled tasks -----

  ghost predicate IsNewestJob(jobs: seq<Job>, s: nat, j: nat) {
    j < |jobs| && jobs[j].service == s && forall k | j < k < |jobs| :: jobs[k].service != s
  }

  /** A worker's run.  If it succeeds, its order and service are active; the
      service's newest job, and no other, is completed, or failed if not, with one attempt
      more; and the queue loses that task, once, exactly if the run is acknowledged. */
  lemma TaskRuns(db: Db, t: Task, success: bool, ack: bool)
    requires BillingOk(db) && t in db.queue
    ensures var after := Apply(db, RunTask(t, success, ack));
            && after == db.(orders := after.orders, services := after.services, jobs := after.jobs,
                        queue := after.queue)
            && t.order < |db.orders| && OnlyOrder(db.orders, after.orders, t.order)
            && after.orders[t.order] == db.orders[t.order].(status := if success then Active
                                        else db.orders[t.order].status)
            && t.service < |db.services| && |after.services| == |db.services|
            && (forall s | 0 <= s < |db.services| ::
                  after.services[s] == if success && s == t.service
                  then db.services[s].(status := ServiceActive) else db.services[s])
            && |after.jobs| == |db.jobs|
            && (forall j | 0 <= j < |db.jobs| ::
                  after.jobs[j] == if IsNewestJob(db.jobs, t.service, j)
                  then db.jobs[j].(status := if success then JobCompleted else JobFailed,
                                   attempts := db.jobs[j].attempts + 1)
                  else db.jobs[j])
            && (forall u: Task :: after.queue[u] == db.queue[u] - if ack && u == t then 1 else 0)
  {
    hide OrdersOk, SessionsOk, InvoicesOk, IntentsUnique, Attempted;
    AttemptedNewest(db.jobs, t.service, if success then JobCompleted else JobFailed);
    assert db.services[t.service].order == t.order;
  }

  lemma AttemptedNewest(jobs: seq<Job>, s: nat, status: JobStatus)
    ensures var after := Attempted(jobs, s, status);
            && |after| == |jobs|
            && forall j | 0 <= j < |jobs| ::
                 after[j] == if IsNewestJob(jobs, s, j)
                 then jobs[j].(status := status, attempts := jobs[j].attempts + 1) else jobs[j]
  {
    var newest := NewestJob(jobs, s);
    if newest.Some? { assert IsNewestJob(jobs, s, newest.value); }
  }

  /** The sweep suspends the services that are active and past their expiry twice: at the
      query, where the very instant counts, and at the second look, where it does not. */
  lemma SweepSuspends(db: Db, at: int, rechecks: nat -> Recheck)
    ensures var after := Apply(db, ExpireDue(at, rechecks));
            && after == db.(services := after.services) && |after.services| == |db.services|
            && forall s: nat | s < |db.services| ::
                 after.services[s] ==
                 match db.services[s]
                 case Service(item, order, ServiceActive, Some(expires)) =>
                   if expires <= at && expires < rechecks(s).clock && rechecks(s).writeOk
                   then Service(item, order, ServiceSuspended, Some(expires)) else db.services[s]
                 case _ => db.services[s]
  {
    ExpireEachAt(db.services, Due(db.services, at), rechecks);
  }

  /** A renewal adds one pending invoice to the service's order, for one unit at the item's
      price; without the item, the order or the service it does nothing. */
  lemma RenewalAdds(db: Db, s: nat)
    requires BillingOk(db)
    ensures var after, n := Apply(db, Renew(s)), |db.invoices|;
            if s < |db.services| then
              && db.services[s].order < |db.orders|
              && |after.invoices| == n + 1 && db.invoices <= after.invoices
              && after == db.(invoices := after.invoices)
              && exists k | 0 <= k < |db.orders[db.services[s].order].items| ::
                   && db.orders[db.services[s].order].items[k].id == db.services[s].item
                   && var price := db.orders[db.services[s].order].items[k].unitPrice;
                   after.invoices[n] == Invoice(db.services[s].order, InvoicePending, price, [Line(1, price, price)])
            else after == db
  {
    hide OrdersOk, SessionsOk, InvoicesOk, QueueOk, IntentsUnique;
    if s < |db.services| {
      var o := db.services[s].order;
      assert HasItem(db.orders[o].items, db.services[s].item);
      var k := ItemAt(db.orders[o].items, db.services[s].item);
      assert k.Some?;
    }
  }

  /** An administrator may start a pending or suspended service: the service and its order
      are then provisioning, with a job of three attempts and one more task queued.  When
      the enqueue fails the service is pending, the order paid and the job failed.  Each
      refusal has its own answer and changes nothing. */
  lemma AdminStarts(db: Db, s: nat, enqueueOk: bool)
    requires BillingOk(db)
    ensures var after, code := Apply(db, ProvisionByAdmin(s, enqueueOk)), AdminProvision(db, s, enqueueOk).1;
            var n := |db.jobs|;
            && code == (if s >= |db.services| then 404
                        else match db.services[s].status
                             case ServicePending => if enqueueOk then 200 else 500
                             case ServiceSuspended => if enqueueOk then 200 else 500
                             case ServiceActive => 409
                             case ServiceProvisioning => 409
                             case ServiceCancelled => 400
                             case ServiceTerminated => 400)
            && (code in {400, 404, 409} ==> after == db)
            && (code in {200, 500} ==>
                  var o := db.services[s].order;
                  && after == db.(orders := after.orders, services := after.services, jobs := after.jobs,
                              queue := after.queue)
                  && o < |db.orders| && OnlyOrder(db.orders, after.orders, o)
                  && after.orders[o] == db.orders[o].(status := if enqueueOk then Provisioning else Paid)
                  && after.services == db.services[s := db.services[s].(status := if enqueueOk then ServiceProvisioning
                                                   else ServicePending)]
                  && after.jobs == db.jobs + [Job(s, if enqueueOk then JobPending else JobFailed, 0, 3)]
                  && forall t: Task :: after.queue[t] == db.queue[t] + if enqueueOk && t == Task(s, o) then 1 else 0)
  {
    hide OrdersOk, SessionsOk, InvoicesOk, QueueOk, IntentsUnique;
    if s < |db.services| && Provisionable(db.services[s].status) { AdminProvisionEffect(db, s, enqueueOk); }
  }
}
