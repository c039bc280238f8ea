/** Checkout sessions and invoices (internal/payment/service.go): where an order's
    total turns into what Stripe charges and into what the invoice says. */
module Checkout {
  import opened Wrappers
  import opened Tables
  import opened Orders

  /** The line items of a checkout session. */
  function StripeLines(items: seq<Item>): (lines: seq<StripeLine>)
    ensures |lines| == |items|
  {
    if items == [] then []
    else
      var last := items[|items| - 1];
      StripeLines(items[..|items| - 1]) + [StripeLine(last.unitPrice, last.quantity)]
  }

  /** CreateCheckoutSession.  `stripeOk` is whether Stripe made the session. */
  function CreateSession(db: Db, user: nat, o: nat, stripeOk: bool): (a: (Db, nat))
    ensures a.1 >= 400 ==> a.0 == db
  {
    if o >= |db.orders| then (db, 404)
    else if db.orders[o].user != user then (db, 403)
    else if db.orders[o].status != Draft || db.orders[o].items == [] then (db, 400)
    else if !stripeOk then (db, 500)
    else (db.(orders := SetStatus(db.orders, o, PendingPayment),
          sessions := db.sessions + [Session(o, StripeLines(db.orders[o].items))]), 200)
  }

  /** invoice_items of an order, if each amount fits its column. */
  function InvoiceLines(items: seq<Item>): Option<seq<Line>> {
    if items == [] then Some([])
    else
      var last := items[|items| - 1];
      var amount := last.quantity * last.unitPrice;
      match InvoiceLines(items[..|items| - 1])
      case None => None
      case Some(lines) => if Fits(amount) then Some(lines + [Line(last.quantity, last.unitPrice, amount)]) else None
  }

  /** createInvoice: the newest invoice of the order, whatever its status, or a new
      one marked paid. */
  function CreateInvoice(invoices: seq<Invoice>, o: nat, order: Order): (r: Option<(seq<Invoice>, nat)>)
    ensures r.Some? ==> NewestInvoice(r.value.0, o) == Some(r.value.1) && invoices <= r.value.0
    ensures r.Some? ==> |r.value.0| == |invoices| + if NewestInvoice(invoices, o).Some? then 0 else 1
  {
    match NewestInvoice(invoices, o)
    case Some(i) => Some((invoices, i))
    case None =>
      match InvoiceLines(order.items)
      case None => None
      case Some(lines) => Some((invoices + [Invoice(o, InvoicePaid, order.total, lines)], |invoices|))
  }

  // ----- Sessions -----

  lemma {:induction false} StripeChargesItems(items: seq<Item>)
    ensures StripeTotal(StripeLines(items)) == ItemsTotal(items)
  {
    if items != [] {
      var n := |items| - 1;
      var last := items[n];
      StripeChargesItems(items[..n]);
      assert StripeLines(items)[..n] == StripeLines(items[..n]);
      Commute(last.unitPrice, last.quantity);
    }
  }

  lemma Commute(x: int, y: int)
    ensures x * y == y * x
  {
  }

  ghost predicate SessionsOk(orders: seq<Order>, sessions: seq<Session>) {
    && (forall s | 0 <= s < |sessions| ::
          && sessions[s].order < |orders|
          && orders[sessions[s].order].status != Draft
          && StripeTotal(sessions[s].lines) == orders[sessions[s].order].total)
    && (forall s, t | 0 <= s < |sessions| && 0 <= t < |sessions| && sessions[s].order == sessions[t].order :: s == t)
  }

  lemma SessionsFrame(before: seq<Order>, after: seq<Order>, sessions: seq<Session>)
    requires SessionsOk(before, sessions) && OrdersKept(before, after)
    ensures SessionsOk(after, sessions)
  {
    forall s | 0 <= s < |sessions|
      ensures sessions[s].order < |after| && after[sessions[s].order].status != Draft
      ensures StripeTotal(sessions[s].lines) == after[sessions[s].order].total
    {
      assert before[sessions[s].order].status != Draft;
    }
  }

  /** Checkout happens once for an order, and asks Stripe for exactly its total. */
  lemma CreateSessionKeeps(db: Db, user: nat, o: nat, stripeOk: bool)
    requires OrdersOk(db) && SessionsOk(db.orders, db.sessions)
    ensures var after := CreateSession(db, user, o, stripeOk).0;
            OrdersOk(after) && OrdersKept(db.orders, after.orders) && SessionsOk(after.orders, after.sessions)
  {
    var (after, code) := CreateSession(db, user, o, stripeOk);
    if code == 200 {
      SetStatusKeeps(db.orders, o, PendingPayment, db.nextItem);
      StripeChargesItems(db.orders[o].items);
      SessionsFrame(db.orders, after.orders, db.sessions);
    }
  }

  // ----- Invoices -----

  lemma {:induction false} LinesAddUp(items: seq<Item>)
    requires InvoiceLines(items).Some?
    ensures LinesTotal(InvoiceLines(items).value) == ItemsTotal(items)
  {
    if items != [] {
      var n := |items| - 1;
      LinesAddUp(items[..n]);
      var lines := InvoiceLines(items).value;
      assert lines[..|lines| - 1] == InvoiceLines(items[..n]).value;
    }
  }

  ghost predicate FirstOfOrder(invoices: seq<Invoice>, i: nat)
    requires i < |invoices|
  {
    forall k | 0 <= k < i :: invoices[k].order != invoices[i].order
  }

  /** An order's first invoice is its paid one and agrees with the order to the cent;
      the later ones, renewals, are not paid. */
  ghost predicate InvoicesOk(orders: seq<Order>, invoices: seq<Invoice>) {
    forall i | 0 <= i < |invoices| ::
      && invoices[i].order < |orders|
      && orders[invoices[i].order].status != Draft
      && (invoices[i].status == InvoicePaid <==> FirstOfOrder(invoices, i))
      && (invoices[i].status == InvoicePaid ==>
            invoices[i].total == orders[invoices[i].order].total == LinesTotal(invoices[i].lines))
  }

  predicate PaidFor(invoice: Invoice, o: nat) { invoice.order == o && invoice.status == InvoicePaid }

  ghost predicate OnePaidInvoice(invoices: seq<Invoice>, o: nat) {
    && (exists i | 0 <= i < |invoices| :: PaidFor(invoices[i], o))
    && (forall i, j | 0 <= i < |invoices| && 0 <= j < |invoices|
                      && PaidFor(invoices[i], o) && PaidFor(invoices[j], o) ::
          i == j)
  }

  lemma InvoicesFrame(before: seq<Order>, after: seq<Order>, invoices: seq<Invoice>)
    requires InvoicesOk(before, invoices) && OrdersKept(before, after)
    ensures InvoicesOk(after, invoices)
  {
    forall i | 0 <= i < |invoices|
      ensures invoices[i].order < |after| && after[invoices[i].order].status != Draft
      ensures after[invoices[i].order].total == before[invoices[i].order].total
    {
      assert before[invoices[i].order].status != Draft;
    }
  }

  lemma {:induction false} InvoicedMeansPaid(orders: seq<Order>, invoices: seq<Invoice>, i: nat)
    requires InvoicesOk(orders, invoices) && i < |invoices|
    ensures OnePaidInvoice(invoices, invoices[i].order)
    decreases i
  {
    if FirstOfOrder(invoices, i) {
      assert PaidFor(invoices[i], invoices[i].order);
    } else {
      var k :| 0 <= k < i && invoices[k].order == invoices[i].order;
      InvoicedMeansPaid(orders, invoices, k);
    }
  }

  lemma FirstInPrefix(before: seq<Invoice>, after: seq<Invoice>, i: nat)
    requires before <= after && i < |before|
    ensures FirstOfOrder(after, i) <==> FirstOfOrder(before, i)
  {
    assert forall k | 0 <= k <= i :: before[k] == after[k];
    if !FirstOfOrder(before, i) {
      var k :| 0 <= k < i && before[k].order == before[i].order;
      assert after[k].order == after[i].order;
    }
  }

  /** Adding an invoice keeps the invariant when it is the order's first and paid in
      full, or a later one and not paid. */
  lemma InvoiceAdded(orders: seq<Order>, invoices: seq<Invoice>, added: Invoice)
    requires InvoicesOk(orders, invoices)
    requires added.order < |orders| && orders[added.order].status != Draft
    requires added.status == InvoicePaid <==> NewestInvoice(invoices, added.order).None?
    requires added.status == InvoicePaid ==> added.total == orders[added.order].total == LinesTotal(added.lines)
    ensures InvoicesOk(orders, invoices + [added])
  {
    var after := invoices + [added];
    forall i | 0 <= i < |invoices| ensures FirstOfOrder(after, i) <==> FirstOfOrder(invoices, i) {
      FirstInPrefix(invoices, after, i);
    }
    var newest := NewestInvoice(invoices, added.order);
    if newest.Some? { assert after[newest.value].order == added.order; }
  }

  lemma CreateInvoiceKeeps(orders: seq<Order>, invoices: seq<Invoice>, o: nat)
    requires InvoicesOk(orders, invoices) && o < |orders| && orders[o].status != Draft
    requires orders[o].total == ItemsTotal(orders[o].items)
    requires CreateInvoice(invoices, o, orders[o]).Some?
    ensures var (after, i) := CreateInvoice(invoices, o, orders[o]).value;
            InvoicesOk(orders, after) && OnePaidInvoice(after, o) && invoices <= after
  {
    var (after, i) := CreateInvoice(invoices, o, orders[o]).value;
    if NewestInvoice(invoices, o).None? {
      LinesAddUp(orders[o].items);
      InvoiceAdded(orders, invoices, after[i]);
    }
    InvoicedMeansPaid(orders, after, i);
  }
}
