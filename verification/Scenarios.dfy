/** Runs of the ledger built step by step: shops with any number of orders at the
    checkout, and what events can do to them when the usual assumptions fail. */
module Scenarios {
  import opened Wrappers
  import opened Calendar
  import opened Tables
  import opened Orders
  import opened Checkout
  import opened Fulfilment
  import opened Payments
  import opened Operations
  import opened Ledger

  // ----- A shop with n orders waiting for payment -----

  const PRICE := 100

  function ShopItem(j: nat): Item { Item(j, 0, Monthly, 1, PRICE) }

  function ShopOrder(j: nat): Order { Order(0, PendingPayment, PRICE, [ShopItem(j)]) }

  function ShopOrders(n: nat): seq<Order> { seq(n, j requires 0 <= j < n => ShopOrder(j)) }

  function ShopSessions(n: nat): seq<Session> { seq(n, j requires 0 <= j < n => Session(j, [StripeLine(PRICE, 1)])) }

  /** Order j, in session j, has one item. */
  function Shop(n: nat): Db {
    Db(ShopOrders(n), [], [], map[], [], [], multiset{}, ShopSessions(n), n)
  }

  function Ordering(): Step { NewOrder(0, [Request(0, Monthly, 1, Price(PRICE))]) }

  lemma OneMoreOrder(n: nat)
    ensures Apply(Shop(n), Ordering())
         == Shop(n).(orders := ShopOrders(n) + [Order(0, Draft, PRICE, [ShopItem(n)])], nextItem := n + 1)
  {
    var rs := [Request(0, Monthly, 1, Price(PRICE))];
    assert rs[..0] == [] && NewItems(rs[..0], n) == Some([]);
    assert rs[0].quote.Price? && FitsInt32(rs[0].quantity);
    assert NewItems(rs, n) == Some([] + [ShopItem(n)]);
    assert [] + [ShopItem(n)] == [ShopItem(n)];
    OneItemTotal(n);
  }

  lemma OneItemTotal(j: nat)
    ensures ItemsTotal([ShopItem(j)]) == PRICE && StripeLines([ShopItem(j)]) == [StripeLine(PRICE, 1)]
    ensures StripeTotal([StripeLine(PRICE, 1)]) == PRICE
  {
    assert [ShopItem(j)][..0] == [] && [StripeLine(PRICE, 1)][..0] == [];
    assert ItemsTotal([]) == 0 && StripeLines([]) == [] && StripeTotal([]) == 0;
  }

  lemma OneMoreCheckout(n: nat)
    ensures Apply(Apply(Shop(n), Ordering()), StartCheckout(0, n, true)) == Shop(n + 1)
  {
    OneMoreOrder(n);
    OneItemTotal(n);
    assert ShopOrders(n + 1) == ShopOrders(n) + [ShopOrder(n)];
    assert ShopSessions(n + 1) == ShopSessions(n) + [Session(n, [StripeLine(PRICE, 1)])];
    var db := Apply(Shop(n), Ordering());
    assert SetStatus(db.orders, n, PendingPayment) == ShopOrders(n + 1);
  }

  /** A run with one step more. */
  lemma Extended(states: seq<Db>, steps: seq<Step>, step: Step)
    requires IsHonestRun(states, steps) && Honest(states[|steps|], step)
    ensures IsHonestRun(states + [Apply(states[|steps|], step)], steps + [step])
  {
    hide Apply, Honest;
    var states', steps' := states + [Apply(states[|steps|], step)], steps + [step];
    forall k | 0 <= k < |steps'|
      ensures states'[k + 1] == Apply(states'[k], steps'[k]) && Honest(states'[k], steps'[k])
    {
      if k < |steps| { assert states'[k] == states[k] && states'[k + 1] == states[k + 1]; }
    }
  }

  lemma {:induction false} ShopRun(n: nat) returns (states: seq<Db>, steps: seq<Step>)
    ensures IsHonestRun(states, steps) && |states| == |steps| + 1 && states[|steps|] == Shop(n)
    ensures forall k | 0 <= k < |steps| :: !steps[k].SessionCompleted?
    decreases n
  {
    hide Apply;
    if n == 0 {
      states, steps := [EMPTY], [];
      assert Shop(0) == EMPTY;
    } else {
      var before, done := ShopRun(n - 1);
      OneMoreCheckout(n - 1);
      Extended(before, done, Ordering());
      before, done := before + [Apply(before[|done|], Ordering())], done + [Ordering()];
      Extended(before, done, StartCheckout(0, n - 1, true));
      states := before + [Apply(before[|done|], StartCheckout(0, n - 1, true))];
      steps := done + [StartCheckout(0, n - 1, true)];
    }
  }

  // ----- Paying in the shop -----

  /** Stripe reports session t paid. */
  function Paying(t: nat, intent: Option<nat>): Step { SessionCompleted(Completed(Some(t), t, intent, PRICE), 0, {}) }

  /** At any time after the shop was set up such an event is honest and commits. */
  lemma PayingCommits(n: nat, db: Db, t: nat, intent: Option<nat>)
    requires BillingOk(db) && Grows(Shop(n), db) && t < n
    ensures Honest(db, Paying(t, intent)) && Commits(db, Paying(t, intent))
  {
    hide BillingOk, Settle;
    assert db.sessions[t] == ShopSessions(n)[t];
    assert Shop(n).orders[t] == ShopOrder(t) && db.orders[t].items == [ShopItem(t)];
    OneItemTotal(t);
    HonestCommits(db, Paying(t, intent).event, 0);
  }

  lemma PayingRecords(n: nat, db: Db, t: nat, intent: Option<nat>) returns (invoice: nat)
    requires BillingOk(db) && Grows(Shop(n), db) && t < n
    ensures Apply(db, Paying(t, intent)).payments == RecordPayment(db.payments, Paying(t, intent).event, invoice, PRICE)
  {
    hide Settle, RecordPayment, EnqueueAll, OrdersOk, InvoicesOk, ServicesOk, QueueOk, IntentsUnique, AmountPaid;
    PayingCommits(n, db, t, intent);
    invoice := Written(db, Paying(t, intent).event, 0);
    HonestAmount(db, Paying(t, intent).event);
    assert Shop(n).orders[t] == ShopOrder(t) && db.orders[t].total == PRICE;
  }

  /** The run of the shop, then the given payments one after the other. */
  lemma Pay(n: nat, states: seq<Db>, steps: seq<Step>, t: nat, intent: Option<nat>)
    returns (states': seq<Db>, steps': seq<Step>)
    requires IsHonestRun(states, steps) && Grows(Shop(n), states[|steps|]) && t < n
    ensures IsHonestRun(states', steps') && |states'| == |steps'| + 1 && Grows(Shop(n), states'[|steps'|])
    ensures Commits(states[|steps|], Paying(t, intent)) && BillingOk(states[|steps|])
    ensures states' == states + [Apply(states[|steps|], Paying(t, intent))] && steps' == steps + [Paying(t, intent)]
  {
    hide Apply, BillingOk, Grows, Honest, Commits;
    RunKeeps(states, steps, |steps|);
    PayingCommits(n, states[|steps|], t, intent);
    Extended(states, steps, Paying(t, intent));
    states', steps' := states + [Apply(states[|steps|], Paying(t, intent))], steps + [Paying(t, intent)];
    StepKeeps(states[|steps|], Paying(t, intent));
    GrowsTransitive(Shop(n), states[|steps|], states'[|steps'|]);
  }

  // ----- Payment intents and sessions -----

  /** Which intents completed events may carry for which sessions. */
  ghost predicate Allowed(steps: seq<Step>, pairs: set<(nat, nat)>) {
    forall k | 0 <= k < |steps| && steps[k].SessionCompleted? && steps[k].event.intent.Some? ::
      (steps[k].event.intent.value, steps[k].event.session) in pairs
  }

  ghost predicate OneSessionEach(pairs: set<(nat, nat)>) {
    forall i, s, t | (i, s) in pairs && (i, t) in pairs :: s == t
  }

  /** In every honest run with only such events, each session one of whose events has
      committed has exactly one payment, one paid invoice and one service per item. */
  ghost predicate AlwaysSettled(pairs: set<(nat, nat)>) {
    forall states: seq<Db>, steps: seq<Step>, j: nat, k: nat |
      IsHonestRun(states, steps) && Allowed(steps, pairs) && j < k < |states| && Commits(states[j], steps[j]) ::
      Settled(states[k], steps[j].event.session)
  }

  ghost function OwnerIn(pairs: set<(nat, nat)>, i: nat): nat {
    if exists s: nat :: (i, s) in pairs then var s: nat :| (i, s) in pairs; s else 0
  }

  lemma OwnedSteps(pairs: set<(nat, nat)>, steps: seq<Step>)
    requires OneSessionEach(pairs) && Allowed(steps, pairs)
    ensures forall i | 0 <= i < |steps| :: Owned(steps[i], i => OwnerIn(pairs, i))
  {
  }

  /** Two sessions paid under one intent: the second event moves the first one's payment
      over, and the first session, though paid, is left without any. */
  lemma SharedIntentStrips(i: nat, s: nat, t: nat) returns (states: seq<Db>, steps: seq<Step>)
    requires s != t
    ensures IsHonestRun(states, steps) && Allowed(steps, {(i, s), (i, t)})
    ensures |steps| >= 2 && |states| == |steps| + 1
    ensures var j := |steps| - 2;
            steps[j] == Paying(s, Some(i)) && Commits(states[j], steps[j])
    ensures forall p | 0 <= p < |states[|steps|].payments| :: states[|steps|].payments[p].session != s
  {
    hide Apply, BillingOk, Grows, Commits, Honest, RecordPayment, IsHonestRun, Allowed;
    var n := s + t + 1;
    var shop, start := ShopRun(n);
    NoneYet(start, i, s, t);
    GrowsReflexive(Shop(n));
    var once, first := Pay(n, shop, start, s, Some(i));
    var invoice := PayingRecords(n, shop[|start|], s, Some(i));
    states, steps := Pay(n, once, first, t, Some(i));
    var invoice' := PayingRecords(n, once[|first|], t, Some(i));
    OneThenOther(i, s, t, invoice, invoice');
    EventAllowed(start, s, i, {(i, s), (i, t)});
    EventAllowed(first, t, i, {(i, s), (i, t)});
  }

  lemma NoneYet(steps: seq<Step>, i: nat, s: nat, t: nat)
    requires forall k | 0 <= k < |steps| :: !steps[k].SessionCompleted?
    ensures Allowed(steps, {(i, s), (i, t)})
  {
  }

  lemma EventAllowed(steps: seq<Step>, s: nat, i: nat, pairs: set<(nat, nat)>)
    requires Allowed(steps, pairs) && (i, s) in pairs
    ensures Allowed(steps + [Paying(s, Some(i))], pairs)
  {
  }

  lemma OneThenOther(i: nat, s: nat, t: nat, invoice: nat, invoice': nat)
    ensures var first := RecordPayment([], Paying(s, Some(i)).event, invoice, PRICE);
            var second := RecordPayment(first, Paying(t, Some(i)).event, invoice', PRICE);
            |second| == 1 && second[0].session == t
  {
    var first := RecordPayment([], Paying(s, Some(i)).event, invoice, PRICE);
    assert first == [Payment(invoice, Some(i), s, PRICE, PaymentSucceeded)];
    assert PaymentByIntent(first, i) == Some(0);
  }

  lemma SettledIfOwned(pairs: set<(nat, nat)>)
    requires OneSessionEach(pairs)
    ensures AlwaysSettled(pairs)
  {
    hide Settle, Settled, Apply;
    forall states: seq<Db>, steps: seq<Step>, j: nat, k: nat |
      IsHonestRun(states, steps) && Allowed(steps, pairs) && j < k < |states| && Commits(states[j], steps[j])
      ensures Settled(states[k], steps[j].event.session)
    {
      OwnedSteps(pairs, steps);
      SettledFrom(pairs, states, steps, j, k);
    }
  }

  /** One payment for each paid session is guaranteed exactly if no intent may occur
      with two sessions. */
  lemma SettledExactly(pairs: set<(nat, nat)>)
    ensures AlwaysSettled(pairs) <==> OneSessionEach(pairs)
  {
    hide Commits, Settled, IsHonestRun, Allowed, AlwaysSettled;
    if OneSessionEach(pairs) {
      SettledIfOwned(pairs);
    } else {
      var i, s, t :| (i, s) in pairs && (i, t) in pairs && s != t;
      var states, steps := SharedIntentStrips(i, s, t);
      AllowedByMore(steps, {(i, s), (i, t)}, pairs);
      NotSettled(pairs, states, steps, |steps| - 2);
    }
  }

  lemma SettledFrom(pairs: set<(nat, nat)>, states: seq<Db>, steps: seq<Step>, j: nat, k: nat)
    requires IsHonestRun(states, steps) && j < k < |states| && Commits(states[j], steps[j])
    requires forall i | 0 <= i < |steps| :: Owned(steps[i], i => OwnerIn(pairs, i))
    ensures Settled(states[k], steps[j].event.session)
  {
    hide Apply, Settled, Settle, Owned;
    OneOfEach(states, steps, j, k, i => OwnerIn(pairs, i));
  }

  lemma AllowedByMore(steps: seq<Step>, pairs: set<(nat, nat)>, more: set<(nat, nat)>)
    requires Allowed(steps, pairs) && pairs <= more
    ensures Allowed(steps, more)
  {
  }

  lemma NotSettled(pairs: set<(nat, nat)>, states: seq<Db>, steps: seq<Step>, j: nat)
    requires IsHonestRun(states, steps) && Allowed(steps, pairs) && j < |steps| && |states| == |steps| + 1
    requires steps[j].SessionCompleted?
    requires forall p | 0 <= p < |states[|steps|].payments| ::
               states[|steps|].payments[p].session != steps[j].event.session
    requires Commits(states[j], steps[j])
    ensures !AlwaysSettled(pairs)
  {
    hide Apply, Commits, Honest;
    assert !Settled(states[|steps|], steps[j].event.session);
  }

  /** An event without an intent, and a later one under another session's: the session
      ends up with two payments. */
  lemma SharedIntentDoublesPayment() returns (states: seq<Db>, steps: seq<Step>)
    ensures IsHonestRun(states, steps)
    ensures var payments := states[|steps|].payments;
            |payments| == 2 && payments[0].session == 0 && payments[1].session == 0
  {
    hide Apply, BillingOk, Grows, Commits, Honest;
    var shop, start := ShopRun(2);
    GrowsReflexive(Shop(2));
    var once, first := Pay(2, shop, start, 0, None);
    var a := PayingRecords(2, shop[|start|], 0, None);
    var twice, second := Pay(2, once, first, 1, Some(7));
    var b := PayingRecords(2, once[|first|], 1, Some(7));
    states, steps := Pay(2, twice, second, 0, Some(7));
    var c := PayingRecords(2, twice[|second|], 0, Some(7));
    ThreeEvents(a, b, c);
  }

  lemma ThreeEvents(a: nat, b: nat, c: nat)
    ensures var first := RecordPayment([], Paying(0, None).event, a, PRICE);
            var second := RecordPayment(first, Paying(1, Some(7)).event, b, PRICE);
            var third := RecordPayment(second, Paying(0, Some(7)).event, c, PRICE);
            |third| == 2 && third[0].session == 0 && third[1].session == 0
  {
    var first := RecordPayment([], Paying(0, None).event, a, PRICE);
    assert first == [Payment(a, None, 0, PRICE, PaymentSucceeded)];
    var second := RecordPayment(first, Paying(1, Some(7)).event, b, PRICE);
    assert first[..0] == [] && PaymentBySession(first, 1).None? && PaymentByIntent(first, 7).None?;
    assert second == first + [Payment(b, Some(7), 1, PRICE, PaymentSucceeded)];
    assert PaymentByIntent(second, 7) == Some(1);
  }

  // ----- A payment on a renewal -----

  /** The order is paid, its service is invoiced for renewal, and another completed event
      of the same session arrives: the one payment moves to the pending renewal. */
  lemma PaymentOnRenewal() returns (states: seq<Db>, steps: seq<Step>, p: nat)
    ensures IsHonestRun(states, steps) && p < |states[|steps|].payments|
    ensures var db := states[|steps|];
            && db.payments[p].session == 0 && db.payments[p].invoice < |db.invoices|
            && db.invoices[db.payments[p].invoice].status == InvoicePending
  {
    hide Apply, BillingOk, Grows, Commits, Honest;
    var shop, start := ShopRun(1);
    GrowsReflexive(Shop(1));
    var once, first := Pay(1, shop, start, 0, Some(0));
    var s := ServicePaid(shop[|start|]);
    var paid := once[|first|];
    RunKeeps(once, first, |first|);
    RenewalAdds(paid, s);
    Extended(once, first, Renew(s)) by { NotAnEvent(paid, s); }
    var renewed, second := once + [Apply(paid, Renew(s))], first + [Renew(s)];
    StepKeeps(paid, Renew(s));
    GrowsTransitive(Shop(1), paid, renewed[|second|]);
    states, steps := Pay(1, renewed, second, 0, Some(0));
    p := Rebooked(renewed[|second|]);
  }

  lemma NotAnEvent(db: Db, s: nat)
    ensures Honest(db, Renew(s))
  {
  }

  /** After the payment the item has a service of order 0, and the order an invoice. */
  lemma ServicePaid(db: Db) returns (s: nat)
    requires BillingOk(db) && Grows(Shop(1), db) && Commits(db, Paying(0, Some(0)))
    ensures var after := Apply(db, Paying(0, Some(0)));
            s < |after.services| && after.services[s].order == 0
            && exists i | 0 <= i < |after.invoices| :: after.invoices[i].order == 0
  {
    hide Settle, EnqueueAll, BillingOk, Grows, HasService, OnePaidInvoice;
    var e := Paying(0, Some(0)).event;
    var (settled, works) := Settle(db, e, 0).value;
    SettleKeeps(db, e, 0);
    EnqueueFrame(settled, works, 0, {});
    ShopItemsStay(db, settled);
    s := ServiceOfShop(settled);
    var i :| 0 <= i < |settled.invoices| && settled.invoices[i].order == 0 by {
      InvoiceOfShop(settled);
    }
    assert Apply(db, Paying(0, Some(0))).invoices == settled.invoices;
  }

  lemma ShopItemsStay(db: Db, later: Db)
    requires Grows(Shop(1), db) && OrdersKept(db.orders, later.orders)
    ensures |later.orders| > 0 && later.orders[0].items == [ShopItem(0)]
  {
    assert Shop(1).orders[0] == ShopOrder(0);
    assert db.orders[0].items == [ShopItem(0)] && db.orders[0].status != Draft;
  }

  lemma InvoiceOfShop(db: Db)
    requires OnePaidInvoice(db.invoices, 0)
    ensures exists i | 0 <= i < |db.invoices| :: db.invoices[i].order == 0
  {
    var i :| 0 <= i < |db.invoices| && PaidFor(db.invoices[i], 0);
    assert db.invoices[i].order == 0;
  }

  lemma ServiceOfShop(db: Db) returns (s: nat)
    requires BillingOk(db) && |db.orders| > 0 && db.orders[0].items == [ShopItem(0)]
    requires HasService(db.services, db.orders[0].items[0].id)
    ensures s < |db.services| && db.services[s].order == 0
  {
    s :| 0 <= s < |db.services| && db.services[s].item == 0;
    ServiceHere(db, s);
  }

  lemma ServiceHere(db: Db, s: nat)
    requires BillingOk(db) && s < |db.services| && db.services[s].item == 0
    requires |db.orders| > 0 && db.orders[0].items == [ShopItem(0)]
    ensures db.services[s].order == 0
  {
    ServiceInItsOrder(db.orders, db.invoices, db.services, s, 0, 0);
  }

  lemma RenewalAdds(db: Db, s: nat)
    requires BillingOk(db) && s < |db.services| && db.services[s].order == 0
    requires exists i | 0 <= i < |db.invoices| :: db.invoices[i].order == 0
    ensures !AtMostOneInvoice(Apply(db, Renew(s)).invoices, 0)
  {
    hide OrdersOk, SessionsOk, InvoicesOk, QueueOk, IntentsUnique;
    var i :| 0 <= i < |db.invoices| && db.invoices[i].order == 0;
    var after := Apply(db, Renew(s)).invoices;
    assert HasItem(db.orders[0].items, db.services[s].item);
    assert |after| == |db.invoices| + 1 && after[i].order == 0 && after[|db.invoices|].order == 0;
  }

  /** With two invoices the payment goes to the later, pending one. */
  lemma Rebooked(db: Db) returns (p: nat)
    requires BillingOk(db) && Grows(Shop(1), db) && Commits(db, Paying(0, Some(0)))
    requires !AtMostOneInvoice(db.invoices, 0)
    ensures var after := Apply(db, Paying(0, Some(0)));
            && p < |after.payments| && after.payments[p].session == 0
            && after.payments[p].invoice < |after.invoices|
            && after.invoices[after.payments[p].invoice].status == InvoicePending
  {
    hide Settle, EnqueueAll, BillingOk, AtMostOneInvoice, PaymentOf, Grows;
    var e := Paying(0, Some(0)).event;
    BookedOnNewest(db, e, 0);
    p := PaymentOf(Settle(db, e, 0).value.0.payments, e).value;
  }
}
