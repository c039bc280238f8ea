/** Stripe delivers events at least once (HandleWebhook in internal/payment/webhook.go):
    the dedup on event ids, first with each delivery handled in one go, then with
    deliveries split at every commit and interleaved with everything else. */
module Webhook {
  import opened Wrappers
  import opened Tables
  import opened Orders
  import opened Checkout
  import opened Fulfilment
  import opened Payments
  import opened Operations
  import opened Ledger
  import opened Effects
  import D = Database

  datatype Body =
    | SessionDone(completed: Completed)
    | IntentFailure(intent: Option<nat>)
    | Refunded(charged: Option<nat>, refund: Option<(nat, int)>)
    | Unhandled

  datatype Event = Event(id: nat, body: Body)

  /** One delivery of an event: whether the insert of its row succeeds, the clock and the
      enqueue failures it meets, and whether its row can be marked in the end. */
  datatype Delivery = Delivery(event: Event, stored: bool, now: nat, refused: set<nat>, marked: bool)

  /** A row of payment_events; stripe_event_id is UNIQUE. */
  datatype Row = Row(processed: bool, failed: bool)

  // ----- One delivery at a time -----

  datatype Hub = Hub(db: Db, events: map<nat, Row>)

  function Process(db: Db, d: Delivery): (Db, bool) {
    match d.event.body
    case SessionDone(e) => ProcessCompleted(db, e, d.now, d.refused)
    case IntentFailure(intent) => (ProcessIntentFailed(db, intent), true)
    case Refunded(intent, refund) => ProcessRefunded(db, intent, refund)
    case Unhandled => (db, true)
  }

  /** The row once its event is dealt with. */
  function Marked(marked: bool, failed: bool): Row { if marked then Row(true, failed) else Row(false, false) }

  function Deliver(h: Hub, d: Delivery): (Hub, nat) {
    if !d.stored then (h, 500)
    else if d.event.id in h.events then (h, 200)
    else
      var (db, ok) := Process(h.db, d);
      (Hub(db, h.events[d.event.id := Marked(d.marked, !ok)]), if ok && d.marked then 200 else 500)
  }

  function DeliverAll(h: Hub, ds: seq<Delivery>): Hub
    decreases |ds|
  {
    if ds == [] then h else Deliver(DeliverAll(h, ds[..|ds| - 1]), ds[|ds| - 1]).0
  }

  class Handler {
    const db: D.Database
    var events: map<nat, Row>

    constructor (db: D.Database)
      ensures this.db == db && events == map[]
    {
      this.db, events := db, map[];
    }

    method HandleWebhook(d: Delivery) returns (code: nat)
      modifies this, db
      ensures (Hub(db.View(), events), code) == Deliver(Hub(old(db.View()), old(events)), d)
    {
      hide ProcessCompleted, ProcessIntentFailed, ProcessRefunded;
      if !d.stored { return 500; }
      var id := d.event.id;
      if id in events { return 200; }
      events := events[id := Row(false, false)];
      var ok := true;
      match d.event.body {
        case SessionDone(e) => ok := db.HandleCheckoutSessionCompleted(e, d.now, d.refused);
        case IntentFailure(intent) => db.HandlePaymentIntentFailed(intent);
        case Refunded(intent, refund) => ok := db.HandleChargeRefunded(intent, refund);
        case Unhandled =>
      }
      if d.marked { events := events[id := Row(true, !ok)]; }
      assert events == old(events)[id := Marked(d.marked, !ok)];
      code := if ok && d.marked then 200 else 500;
    }
  }

  /** The step of the ledger an event stands for. */
  predicate StandsFor(body: Body, step: Step, now: nat, refused: set<nat>) {
    match body
    case SessionDone(e) => step == SessionCompleted(e, now, refused)
    case IntentFailure(intent) => step == IntentFailed(intent)
    case Refunded(intent, refund) => step == ChargeRefunded(intent, refund)
    case Unhandled => false
  }

  /** Processing goes without error: a completed session could be booked and none of its
      tasks was refused; a refund of a known payment fits its column; nothing else can fail. */
  ghost predicate NoError(before: Db, after: Db, body: Body) {
    match body
    case SessionDone(e) =>
      Bookable(before, e) && NoneFailed(after.jobs, |before.jobs|)
    case Refunded(intent, refund) =>
      !IntentKnown(before.payments, intent) || refund.None? || Fits(refund.value.1)
    case _ => true
  }

  /** A delivery that cannot be stored is answered 500 and one whose event is stored already
      200, both without a trace.  Any other takes the step its event stands for, or none if
      it stands for none, and is answered 200 exactly if that went without error and the
      row could be marked. */
  lemma DeliveryAnswers(h: Hub, d: Delivery, step: Step)
    requires BillingOk(h.db) && (d.event.body.Unhandled? || StandsFor(d.event.body, step, d.now, d.refused))
    ensures var (after, code) := Deliver(h, d);
            var isNew := d.stored && d.event.id !in h.events;
            var done := if d.event.body.Unhandled? then h.db else Apply(h.db, step);
            && after.db == (if isNew then done else h.db)
            && (!isNew ==> after.events == h.events && code == if d.stored then 200 else 500)
            && (isNew ==>
                  && code == (if NoError(h.db, done, d.event.body) && d.marked then 200 else 500)
                  && after.events == h.events[d.event.id := after.events[d.event.id]]
                  && after.events[d.event.id].processed == d.marked
                  && (after.events[d.event.id].failed <==> d.marked && !NoError(h.db, done, d.event.body)))
  {
    hide BillingOk, ProcessCompleted, ProcessIntentFailed, ProcessRefunded, NoError;
    ErrorsOf(h.db, d, step);
  }

  lemma ErrorsOf(db: Db, d: Delivery, step: Step)
    requires BillingOk(db) && (d.event.body.Unhandled? || StandsFor(d.event.body, step, d.now, d.refused))
    ensures var done := if d.event.body.Unhandled? then db else Apply(db, step);
            Process(db, d).0 == done && (Process(db, d).1 <==> NoError(db, done, d.event.body))
  {
    hide ProcessCompleted, ProcessIntentFailed, ProcessRefunded, BillingOk, NoError;
    match d.event.body {
      case SessionDone(e) => SessionErrors(db, e, d.now, d.refused);
      case IntentFailure(_) => OthersGoWell(db, Apply(db, step), d.event.body);
      case Refunded(intent, refund) => RefundErrors(db, intent, refund);
      case Unhandled => OthersGoWell(db, db, d.event.body);
    }
  }

  lemma SessionErrors(db: Db, e: Completed, now: nat, refused: set<nat>)
    requires BillingOk(db)
    ensures ProcessCompleted(db, e, now, refused).1
       <==> NoError(db, Apply(db, SessionCompleted(e, now, refused)), SessionDone(e))
  {
    hide Apply, ProcessCompleted, BillingOk, Bookable;
    CompletedAnswers(db, e, now, refused);
  }

  lemma RefundErrors(db: Db, intent: Option<nat>, refund: Option<(nat, int)>)
    requires BillingOk(db)
    ensures var (done, ok) := ProcessRefunded(db, intent, refund);
            ok <==> NoError(db, done, Body.Refunded(intent, refund))
  {
    hide ProcessRefunded, IntentKnown, OrdersOk, SessionsOk, InvoicesOk, ServicesOk, QueueOk, IntentsUnique;
    RefundMarks(db, intent, refund);
  }

  lemma OthersGoWell(before: Db, after: Db, body: Body)
    requires body.IntentFailure? || body.Unhandled?
    ensures NoError(before, after, body)
  {
  }

  /** Some delivery has stored the event. */
  predicate Seen(ds: seq<Delivery>, id: nat) { exists i | 0 <= i < |ds| :: ds[i].event.id == id && ds[i].stored }

  /** Only the first delivery of each event that could be stored. */
  function Dedup(ds: seq<Delivery>): seq<Delivery>
    decreases |ds|
  {
    if ds == [] then []
    else
      var n := |ds| - 1;
      if ds[n].stored && !Seen(ds[..n], ds[n].event.id) then Dedup(ds[..n]) + [ds[n]] else Dedup(ds[..n])
  }

  lemma {:induction false} KnownIds(h: Hub, ds: seq<Delivery>, id: nat)
    ensures id in DeliverAll(h, ds).events <==> id in h.events || Seen(ds, id)
    decreases |ds|
  {
    hide Process;
    if ds != [] {
      var n := |ds| - 1;
      KnownIds(h, ds[..n], id);
      assert Seen(ds, id) <==> Seen(ds[..n], id) || (ds[n].event.id == id && ds[n].stored) by {
        if Seen(ds, id) {
          var i :| 0 <= i < |ds| && ds[i].event.id == id && ds[i].stored;
          assert i < n ==> ds[..n][i] == ds[i];
        }
        if Seen(ds[..n], id) {
          var i :| 0 <= i < n && ds[..n][i].event.id == id && ds[..n][i].stored;
          assert ds[i].event.id == id;
        }
      }
    }
  }

  /** Any sequence of deliveries leaves the same ledger and the same event rows as the
      sequence with repeats removed: once an event could be stored it is never processed
      again, whether its processing succeeded, failed or could not be marked; and until
      then nothing of it remains. */
  lemma {:induction false} RepeatsChangeNothing(h: Hub, ds: seq<Delivery>)
    ensures DeliverAll(h, ds) == DeliverAll(h, Dedup(ds))
    decreases |ds|
  {
    hide Process, Seen;
    if ds != [] {
      var n := |ds| - 1;
      RepeatsChangeNothing(h, ds[..n]);
      KnownIds(h, ds[..n], ds[n].event.id);
      if ds[n].stored && !Seen(ds[..n], ds[n].event.id) {
        assert Dedup(ds)[..|Dedup(ds)| - 1] == Dedup(ds[..n]);
      }
    }
  }

  // ----- Deliveries split at their commits -----

  /** How far a delivery has come: its event row is inserted; the transaction has
      committed and tasks are being enqueued; a job has been marked failed but its
      service not yet put back; the result is known; the event row is marked. */
  datatype Stage =
    | Received
    | Enqueuing(order: nat, works: seq<Work>, failed: bool)
    | PuttingBack(order: nat, service: nat, works: seq<Work>)
    | Processed(error: bool)
    | Done

  datatype Flight = Flight(event: Event, stage: Stage)

  /** `ran` logs the event of every transaction, in order. */
  datatype System = System(db: Db, events: map<nat, Row>, flights: seq<Flight>, ran: seq<nat>)

  const START := System(EMPTY, map[], [], [])

  datatype Action =
    | Receive(event: Event)
    | Commit(flight: nat, now: nat)
    | EnqueueNext(flight: nat, accepted: bool)
    | PutBack(flight: nat)
    | Finish(flight: nat, marked: bool)
    | Meanwhile(step: Step)

  function At(s: System, f: nat, stage: Stage): System
    requires f < |s.flights|
  {
    s.(flights := s.flights[f := s.flights[f].(stage := stage)])
  }

  /** The transaction of a received event: the tables, and the stage it leads to. */
  function Transact(db: Db, body: Body, now: nat): (Db, Stage) {
    match body
    case SessionDone(e) =>
      (match Settle(db, e, now)
       case None => (db, Processed(true))
       case Some((settled, works)) => (settled, Enqueuing(e.order.value, works, false)))
    case IntentFailure(intent) => (ProcessIntentFailed(db, intent), Processed(false))
    case Refunded(intent, refund) =>
      var (after, ok) := ProcessRefunded(db, intent, refund);
      (after, Processed(!ok))
    case Unhandled => (db, Processed(false))
  }

  function EnqueueStep(db: Db, stage: Stage, accepted: bool): (Db, Stage)
    requires stage.Enqueuing?
  {
    var Enqueuing(o, works, failed) := stage;
    if works == [] then (db, Processed(failed))
    else if accepted then
      (db.(queue := db.queue + multiset{Task(works[0].service, o)}), Enqueuing(o, works[1..], failed))
    else (db.(jobs := SetJob(db.jobs, works[0].job, JobFailed)), PuttingBack(o, works[0].service, works[1..]))
  }

  function PutBackService(services: seq<Service>, s: nat): seq<Service> {
    if s < |services| && services[s].status == ServiceProvisioning then SetService(services, s, ServicePending)
    else services
  }

  function Act(s: System, a: Action): System {
    match a
    case Receive(event) =>
      if event.id in s.events then s
      else s.(events := s.events[event.id := Row(false, false)], flights := s.flights + [Flight(event, Received)])
    case Commit(f, now) =>
      if f < |s.flights| && s.flights[f].stage.Received? then
        var (db, stage) := Transact(s.db, s.flights[f].event.body, now);
        At(s, f, stage).(db := db, ran := s.ran + [s.flights[f].event.id])
      else s
    case EnqueueNext(f, accepted) =>
      if f < |s.flights| && s.flights[f].stage.Enqueuing? then
        var (db, stage) := EnqueueStep(s.db, s.flights[f].stage, accepted);
        At(s, f, stage).(db := db)
      else s
    case PutBack(f) =>
      if f < |s.flights| && s.flights[f].stage.PuttingBack? then
        var PuttingBack(o, service, works) := s.flights[f].stage;
        At(s, f, Enqueuing(o, works, true)).(db := s.db.(services := PutBackService(s.db.services, service)))
      else s
    case Finish(f, marked) =>
      if f < |s.flights| && s.flights[f].stage.Processed? then
        if marked
        then At(s, f, Done).(events := s.events[s.flights[f].event.id := Row(true, s.flights[f].stage.error)])
        else At(s, f, Done)
      else s
    case Meanwhile(step) => s.(db := Apply(s.db, step))
  }

  /** Any actions in any order: the systems before the first and after each. */
  ghost predicate IsInterleaving(states: seq<System>, actions: seq<Action>) {
    && |states| == |actions| + 1
    && states[0] == START
    && forall k | 0 <= k < |actions| :: states[k + 1] == Act(states[k], actions[k])
  }

  // ----- At most once -----

  ghost predicate NoRepeats(ids: seq<nat>) {
    forall i, j | 0 <= i < |ids| && 0 <= j < |ids| && ids[i] == ids[j] :: i == j
  }

  /** Every event has one delivery in flight or done, and its transaction has been
      logged exactly if that delivery is past Received. */
  ghost predicate DedupOk(events: map<nat, Row>, flights: seq<Flight>, ran: seq<nat>) {
    && (forall f | 0 <= f < |flights| :: flights[f].event.id in events)
    && (forall f, g | 0 <= f < |flights| && 0 <= g < |flights| && flights[f].event.id == flights[g].event.id :: f == g)
    && (forall id | id in ran :: id in events)
    && (forall f | 0 <= f < |flights| && flights[f].stage.Received? :: flights[f].event.id !in ran)
    && NoRepeats(ran)
  }

  lemma ActKeepsDedup(s: System, a: Action)
    requires DedupOk(s.events, s.flights, s.ran)
    ensures var t := Act(s, a); DedupOk(t.events, t.flights, t.ran)
  {
    hide Transact, EnqueueStep, Apply;
    if a.Commit? && a.flight < |s.flights| && s.flights[a.flight].stage.Received? {
      NotReceivedAfter(s.db, s.flights[a.flight].event.body, a.now);
    } else if a.EnqueueNext? && a.flight < |s.flights| && s.flights[a.flight].stage.Enqueuing? {
      NotReceivedEnqueuing(s.db, s.flights[a.flight].stage, a.accepted);
    }
  }

  lemma NotReceivedAfter(db: Db, body: Body, now: nat)
    ensures !Transact(db, body, now).1.Received?
  {
  }

  lemma NotReceivedEnqueuing(db: Db, stage: Stage, accepted: bool)
    requires stage.Enqueuing?
    ensures !EnqueueStep(db, stage, accepted).1.Received?
  {
  }

  lemma {:induction false} InterleavingKeepsDedup(states: seq<System>, actions: seq<Action>, k: nat)
    requires IsInterleaving(states, actions) && k < |states|
    ensures DedupOk(states[k].events, states[k].flights, states[k].ran)
    decreases k
  {
    hide Act, DedupOk;
    if k == 0 {
      StartDedup();
    } else {
      InterleavingKeepsDedup(states, actions, k - 1);
      ActKeepsDedup(states[k - 1], actions[k - 1]);
    }
  }

  lemma StartDedup()
    ensures DedupOk(START.events, START.flights, START.ran)
  {
  }

  /** However deliveries are split and interleaved, the transaction of each event runs
      at most once, and only for an event whose row is stored. */
  lemma ProcessedAtMostOnce(states: seq<System>, actions: seq<Action>, k: nat)
    requires IsInterleaving(states, actions) && k < |states|
    ensures NoRepeats(states[k].ran) && forall id | id in states[k].ran :: id in states[k].events
  {
    InterleavingKeepsDedup(states, actions, k);
  }

  // ----- What holds even then -----

  ghost predicate StageOk(services: seq<Service>, stage: Stage) {
    && (stage.Enqueuing? ==> WorksIn(services, stage.works, stage.order))
    && (stage.PuttingBack? ==> WorksIn(services, stage.works, stage.order))
  }

  ghost predicate FlightsOk(services: seq<Service>, flights: seq<Flight>) {
    forall f | 0 <= f < |flights| :: StageOk(services, flights[f].stage)
  }

  lemma FlightsFrame(before: seq<Service>, after: seq<Service>, flights: seq<Flight>)
    requires FlightsOk(before, flights) && ServicesKept(before, after)
    ensures FlightsOk(after, flights)
  {
    forall f | 0 <= f < |flights| ensures StageOk(after, flights[f].stage) {
      StageFrame(before, after, flights[f].stage);
    }
  }

  lemma StageFrame(before: seq<Service>, after: seq<Service>, stage: Stage)
    requires StageOk(before, stage) && ServicesKept(before, after)
    ensures StageOk(after, stage)
  {
  }

  lemma TransactKeeps(db: Db, body: Body, now: nat)
    requires BillingOk(db)
    ensures var (after, stage) := Transact(db, body, now);
            BillingOk(after) && Grows(db, after) && StageOk(after.services, stage)
  {
    hide BillingOk, Settle, NumericIn, WorksIn, OnePaidInvoice;
    match body {
      case SessionDone(e) =>
        if Settle(db, e, now).Some? { SettleKeeps(db, e, now); } else { GrowsReflexive(db); }
      case IntentFailure(intent) =>
        ProcessIntentFailedKeeps(db, intent);
        GrowsSame(db, ProcessIntentFailed(db, intent));
      case Refunded(intent, refund) =>
        ProcessRefundedKeeps(db, intent, refund);
        GrowsSame(db, ProcessRefunded(db, intent, refund).0);
      case Unhandled => GrowsReflexive(db);
    }
  }

  lemma EnqueueStepKeeps(db: Db, stage: Stage, accepted: bool)
    requires BillingOk(db) && stage.Enqueuing? && StageOk(db.services, stage)
    ensures var (after, next) := EnqueueStep(db, stage, accepted);
            BillingOk(after) && Grows(db, after) && StageOk(after.services, next)
  {
    hide OrdersOk, SessionsOk, InvoicesOk, ServicesOk, IntentsUnique, Grows;
    GrowsSame(db, EnqueueStep(db, stage, accepted).0);
    SameBilling(db, EnqueueStep(db, stage, accepted).0);
  }

  lemma SameBilling(db: Db, after: Db)
    requires BillingOk(db) && QueueOk(db.services, after.queue)
    requires after == db.(jobs := after.jobs, queue := after.queue)
    ensures BillingOk(after)
  {
  }

  lemma PutBackKeeps(db: Db, s: nat)
    requires BillingOk(db)
    ensures var after := db.(services := PutBackService(db.services, s)); BillingOk(after) && Grows(db, after)
  {
    var services := PutBackService(db.services, s);
    ServiceStatusFrame(db, services);
  }

  lemma ActKeepsBilling(s: System, a: Action)
    requires BillingOk(s.db) && FlightsOk(s.db.services, s.flights)
    ensures var t := Act(s, a); BillingOk(t.db) && FlightsOk(t.db.services, t.flights) && Grows(s.db, t.db)
  {
    hide BillingOk, FlightsOk, Grows, Apply, Transact, EnqueueStep, PutBackService;
    GrowsReflexive(s.db);
    match a {
      case Receive(event) => NewFlight(s.db.services, s.flights, event);
      case Commit(f, now) =>
        if f < |s.flights| && s.flights[f].stage.Received? {
          var (db, stage) := Transact(s.db, s.flights[f].event.body, now);
          TransactKeeps(s.db, s.flights[f].event.body, now);
          FlightMoves(s.db, db, s.flights, f, stage);
        }
      case EnqueueNext(f, accepted) =>
        if f < |s.flights| && s.flights[f].stage.Enqueuing? {
          var (db, stage) := EnqueueStep(s.db, s.flights[f].stage, accepted);
          FlightOk(s.db.services, s.flights, f);
          EnqueueStepKeeps(s.db, s.flights[f].stage, accepted);
          FlightMoves(s.db, db, s.flights, f, stage);
        }
      case PutBack(f) =>
        if f < |s.flights| && s.flights[f].stage.PuttingBack? {
          var db := s.db.(services := PutBackService(s.db.services, s.flights[f].stage.service));
          PutBackKeeps(s.db, s.flights[f].stage.service);
          FlightOk(s.db.services, s.flights, f);
          FlightBack(s.db, db, s.flights[f].stage);
          FlightMoves(s.db, db, s.flights, f, Enqueuing(s.flights[f].stage.order, s.flights[f].stage.works, true));
        }
      case Finish(f, _) =>
        if f < |s.flights| && s.flights[f].stage.Processed? { FlightMoves(s.db, s.db, s.flights, f, Done); }
      case Meanwhile(step) =>
        StepKeeps(s.db, step);
        FlightsGrow(s.db, Apply(s.db, step), s.flights);
    }
  }

  lemma NewFlight(services: seq<Service>, flights: seq<Flight>, event: Event)
    requires FlightsOk(services, flights)
    ensures FlightsOk(services, flights + [Flight(event, Received)])
  {
  }

  lemma FlightOk(services: seq<Service>, flights: seq<Flight>, f: nat)
    requires FlightsOk(services, flights) && f < |flights|
    ensures StageOk(services, flights[f].stage)
  {
  }

  lemma FlightBack(before: Db, after: Db, stage: Stage)
    requires stage.PuttingBack? && StageOk(before.services, stage) && Grows(before, after)
    ensures StageOk(after.services, Enqueuing(stage.order, stage.works, true))
  {
  }

  lemma FlightsGrow(before: Db, after: Db, flights: seq<Flight>)
    requires FlightsOk(before.services, flights) && Grows(before, after)
    ensures FlightsOk(after.services, flights)
  {
    FlightsFrame(before.services, after.services, flights);
  }

  lemma FlightMoves(before: Db, after: Db, flights: seq<Flight>, f: nat, stage: Stage)
    requires FlightsOk(before.services, flights) && Grows(before, after) && f < |flights|
    requires StageOk(after.services, stage)
    ensures FlightsOk(after.services, flights[f := flights[f].(stage := stage)])
  {
    FlightsFrame(before.services, after.services, flights);
  }

  lemma {:induction false} InterleavingKeepsBilling(states: seq<System>, actions: seq<Action>, k: nat)
    requires IsInterleaving(states, actions) && k < |states|
    ensures BillingOk(states[k].db) && FlightsOk(states[k].db.services, states[k].flights)
    decreases k
  {
    hide Act, BillingOk;
    if k == 0 {
      EmptyOk();
    } else {
      InterleavingKeepsBilling(states, actions, k - 1);
      ActKeepsBilling(states[k - 1], actions[k - 1]);
    }
  }

  /** Nothing is undone between any two moments of an interleaving either: orders out of
      draft stay frozen, and invoices, sessions, services and expiries stay. */
  lemma {:induction false} InterleavingGrows(states: seq<System>, actions: seq<Action>, j: nat, k: nat)
    requires IsInterleaving(states, actions) && j <= k < |states|
    ensures Grows(states[j].db, states[k].db)
    decreases k
  {
    hide Act, BillingOk, Grows;
    if k == j {
      GrowsReflexive(states[k].db);
    } else {
      InterleavingGrows(states, actions, j, k - 1);
      InterleavingKeepsBilling(states, actions, k - 1);
      ActKeepsBilling(states[k - 1], actions[k - 1]);
      GrowsTransitive(states[j].db, states[k - 1].db, states[k].db);
    }
  }

  /** Even with deliveries split at their commits and interleaved arbitrarily with each
      other and with every other handler, no service exists without exactly one paid
      invoice behind it, no item has two services, and order totals, session charges and
      paid invoices agree to the cent. */
  lemma SplitDeliveriesSafe(states: seq<System>, actions: seq<Action>, k: nat)
    requires IsInterleaving(states, actions) && k < |states|
    ensures var db := states[k].db;
            && (forall s | 0 <= s < |db.services| :: OnePaidInvoice(db.invoices, db.services[s].order))
            && (forall s, t | 0 <= s < |db.services| && 0 <= t < |db.services|
                              && db.services[s].item == db.services[t].item :: s == t)
            && (forall o | 0 <= o < |db.orders| :: db.orders[o].total == ItemsTotal(db.orders[o].items))
            && (forall s | 0 <= s < |db.sessions| ::
                  db.sessions[s].order < |db.orders|
                  && StripeTotal(db.sessions[s].lines) == db.orders[db.sessions[s].order].total)
            && (forall i | 0 <= i < |db.invoices| && db.invoices[i].status == InvoicePaid ::
                  db.invoices[i].order < |db.orders|
                  && db.invoices[i].total == LinesTotal(db.invoices[i].lines) == db.orders[db.invoices[i].order].total)
  {
    InterleavingKeepsBilling(states, actions, k);
    var db := states[k].db;
    forall s | 0 <= s < |db.services| ensures OnePaidInvoice(db.invoices, db.services[s].order) {
      InvoicedMeansPaid(db.orders, db.invoices, NewestInvoice(db.invoices, db.services[s].order).value);
    }
  }

  // ----- One of each, with deliveries split -----

  /** The event's payment intent, if any, belongs to its session. */
  ghost predicate BodyOwned(body: Body, owner: nat -> nat) {
    body.SessionDone? && body.completed.intent.Some? ==>
      owner(body.completed.intent.value) == body.completed.session
  }

  ghost predicate ActionOwned(a: Action, owner: nat -> nat) {
    (a.Receive? ==> BodyOwned(a.event.body, owner)) && (a.Meanwhile? ==> Owned(a.step, owner))
  }

  ghost predicate FlightsOwned(flights: seq<Flight>, owner: nat -> nat) {
    forall f | 0 <= f < |flights| :: BodyOwned(flights[f].event.body, owner)
  }

  lemma TransactOwned(db: Db, body: Body, now: nat, owner: nat -> nat)
    requires OwnersOk(db.payments, owner) && BodyOwned(body, owner)
    ensures var after := Transact(db, body, now).0.payments;
            OwnersOk(after, owner) && PaymentsStay(db.payments, after)
  {
    hide Settle, RecordPayment, OwnersOk, AmountPaid, NumericIn;
    match body {
      case SessionDone(e) =>
        if Settle(db, e, now).Some? {
          var invoice := Written(db, e, now);
          RecordOwned(db.payments, e, invoice, AmountPaid(e, db.orders[e.order.value].total).value, owner);
        }
      case IntentFailure(intent) => MarkingOwned(db, IntentFailed(intent), owner);
      case Refunded(intent, refund) => MarkingOwned(db, ChargeRefunded(intent, refund), owner);
      case Unhandled =>
    }
  }

  lemma ActOwned(s: System, a: Action, owner: nat -> nat)
    requires OwnersOk(s.db.payments, owner) && FlightsOwned(s.flights, owner) && ActionOwned(a, owner)
    ensures var t := Act(s, a);
            && OwnersOk(t.db.payments, owner) && FlightsOwned(t.flights, owner)
            && PaymentsStay(s.db.payments, t.db.payments)
  {
    hide OwnersOk, BodyOwned, Apply, Transact;
    match a {
      case Commit(f, now) =>
        if f < |s.flights| { TransactOwned(s.db, s.flights[f].event.body, now, owner); }
      case Meanwhile(step) => StepOwned(s.db, step, owner);
      case Receive(_) =>
      case EnqueueNext(_, _) =>
      case PutBack(_) =>
      case Finish(_, _) =>
    }
  }

  lemma {:induction false} InterleavingOwned(states: seq<System>, actions: seq<Action>, k: nat, owner: nat -> nat)
    requires IsInterleaving(states, actions) && k < |states|
    requires forall i | 0 <= i < |actions| :: ActionOwned(actions[i], owner)
    ensures OwnersOk(states[k].db.payments, owner) && FlightsOwned(states[k].flights, owner)
    decreases k
  {
    hide Act, ActionOwned;
    if k > 0 {
      InterleavingOwned(states, actions, k - 1, owner);
      ActOwned(states[k - 1], actions[k - 1], owner);
    }
  }

  /** The action commits the transaction of an honest completed event. */
  predicate CommitsHonestly(s: System, a: Action) {
    && a.Commit? && a.flight < |s.flights| && s.flights[a.flight].stage.Received?
    && s.flights[a.flight].event.body.SessionDone?
    && var e := s.flights[a.flight].event.body.completed;
    Honest(s.db, SessionCompleted(e, a.now, {})) && Settle(s.db, e, a.now).Some?
  }

  lemma CommitSettles(s: System, a: Action, owner: nat -> nat)
    requires BillingOk(s.db) && CommitsHonestly(s, a)
    requires OwnersOk(s.db.payments, owner) && FlightsOwned(s.flights, owner)
    ensures Settled(Act(s, a).db, s.flights[a.flight].event.body.completed.session)
  {
    hide BillingOk, OwnersOk, Settle, Settled, Honest, Apply;
    var e := s.flights[a.flight].event.body.completed;
    assert BodyOwned(s.flights[a.flight].event.body, owner);
    SettledByTransaction(s.db, e, a.now, owner);
  }

  lemma ActKeepsSettled(s: System, a: Action, session: nat, owner: nat -> nat)
    requires BillingOk(s.db) && FlightsOk(s.db.services, s.flights) && Settled(s.db, session)
    requires OwnersOk(s.db.payments, owner) && FlightsOwned(s.flights, owner) && ActionOwned(a, owner)
    ensures Settled(Act(s, a).db, session)
  {
    hide Act, FlightsOk, FlightsOwned, ActionOwned, OwnersOk, Settled, Grows, PaymentsStay;
    hide OrdersOk, SessionsOk, InvoicesOk, ServicesOk, QueueOk, IntentsUnique;
    ActKeepsBilling(s, a);
    ActOwned(s, a, owner);
    SettledFrame(s.db, Act(s, a).db, session, owner);
  }

  /** With deliveries split at their commits and interleaved arbitrarily: from the moment
      the transaction of an honest event commits, its session has one payment, one paid
      invoice and one service per item, given that each intent belongs to one session. */
  lemma {:induction false} SplitOneOfEach(states: seq<System>, actions: seq<Action>, j: nat, k: nat, owner: nat -> nat)
    requires IsInterleaving(states, actions) && j < k < |states| && CommitsHonestly(states[j], actions[j])
    requires forall i | 0 <= i < |actions| :: ActionOwned(actions[i], owner)
    ensures Settled(states[k].db, states[j].flights[actions[j].flight].event.body.completed.session)
    decreases k
  {
    hide Act, BillingOk, FlightsOk, FlightsOwned, ActionOwned, OwnersOk, Settled, Honest, Settle;
    InterleavingKeepsBilling(states, actions, k - 1);
    InterleavingOwned(states, actions, k - 1, owner);
    if j == k - 1 {
      CommitSettles(states[j], actions[j], owner);
    } else {
      SplitOneOfEach(states, actions, j, k - 1, owner);
      var session := states[j].flights[actions[j].flight].event.body.completed.session;
      ActKeepsSettled(states[k - 1], actions[k - 1], session, owner);
    }
  }

  // ----- The split form, run without interruption, is the serial one -----

  function RunAll(s: System, actions: seq<Action>): System
    decreases |actions|
  {
    if actions == [] then s else Act(RunAll(s, actions[..|actions| - 1]), actions[|actions| - 1])
  }

  function EnqueueScript(f: nat, works: seq<Work>, refused: set<nat>): seq<Action>
    decreases |works|
  {
    if works == [] then [EnqueueNext(f, true)]
    else (if works[0].service in refused then [EnqueueNext(f, false), PutBack(f)] else [EnqueueNext(f, true)])
         + EnqueueScript(f, works[1..], refused)
  }

  /** The actions of one delivery, back to back. */
  function Script(s: System, d: Delivery): seq<Action> {
    if !d.stored then []
    else if d.event.id in s.events then [Receive(d.event)]
    else Opening(s, d) + Enqueues(s, d) + [Finish(|s.flights|, d.marked)]
  }

  function Opening(s: System, d: Delivery): seq<Action> {
    [Receive(d.event), Commit(|s.flights|, d.now)]
  }

  function Enqueues(s: System, d: Delivery): seq<Action> {
    var stage := Transact(s.db, d.event.body, d.now).1;
    if stage.Enqueuing? then EnqueueScript(|s.flights|, stage.works, d.refused) else []
  }

  lemma {:induction false} RunAllJoined(s: System, a: seq<Action>, b: seq<Action>)
    ensures RunAll(s, a + b) == RunAll(RunAll(s, a), b)
    decreases |b|
  {
    hide Act;
    if b == [] {
      assert a + b == a;
    } else {
      assert (a + b)[..|a + b| - 1] == a + b[..|b| - 1];
      RunAllJoined(s, a, b[..|b| - 1]);
    }
  }

  lemma RunOne(s: System, a: Action)
    ensures RunAll(s, [a]) == Act(s, a)
  {
    hide Act;
    assert [a][..0] == [];
    assert RunAll(s, []) == s;
  }

  lemma RunTwo(s: System, a: Action, b: Action)
    ensures RunAll(s, [a, b]) == Act(Act(s, a), b)
  {
    hide Act;
    assert [a, b] == [a] + [b];
    RunAllJoined(s, [a], [b]);
    RunOne(s, a);
    RunOne(Act(s, a), b);
  }

  lemma {:induction false} EnqueueAllFront(p: Placed, works: seq<Work>, o: nat, refused: set<nat>)
    requires works != []
    ensures EnqueueAll(p, works, o, refused) == EnqueueAll(EnqueueOne(p, works[0], o, refused), works[1..], o, refused)
    decreases |works|
  {
    hide EnqueueOne;
    var n := |works| - 1;
    if n > 0 {
      EnqueueAllFront(p, works[..n], o, refused);
      assert works[..n][1..] == works[1..][..n - 1];
    } else {
      assert works[..0] == [] && works[1..] == [];
    }
  }

  function WithPlaced(db: Db, p: Placed): Db { db.(services := p.services, jobs := p.jobs, queue := p.queue) }

  function PlacedOf(db: Db, failed: bool): Placed { Placed(db.services, db.jobs, db.queue, failed) }

  /** One task's part of the script is one round of the enqueue loop. */
  lemma EnqueueRound(s: System, f: nat, o: nat, works: seq<Work>, failed: bool, refused: set<nat>)
    requires f < |s.flights| && s.flights[f].stage == Enqueuing(o, works, failed) && works != []
    ensures var p := EnqueueOne(PlacedOf(s.db, failed), works[0], o, refused);
            var actions := if works[0].service in refused
                           then [EnqueueNext(f, false), PutBack(f)] else [EnqueueNext(f, true)];
            RunAll(s, actions) == At(s, f, Enqueuing(o, works[1..], p.failed)).(db := WithPlaced(s.db, p))
  {
    hide RunAll, Act;
    if works[0].service in refused {
      RunTwo(s, EnqueueNext(f, false), PutBack(f));
      RefusedRound(s, f, o, works, failed);
    } else {
      RunOne(s, EnqueueNext(f, true));
      AcceptedRound(s, f, o, works, failed);
    }
  }

  lemma AcceptedRound(s: System, f: nat, o: nat, works: seq<Work>, failed: bool)
    requires f < |s.flights| && s.flights[f].stage == Enqueuing(o, works, failed) && works != []
    ensures Act(s, EnqueueNext(f, true))
         == At(s, f, Enqueuing(o, works[1..], failed)).(
              db := s.db.(queue := s.db.queue + multiset{Task(works[0].service, o)}))
  {
    hide Apply, Transact;
  }

  lemma RefusedRound(s: System, f: nat, o: nat, works: seq<Work>, failed: bool)
    requires f < |s.flights| && s.flights[f].stage == Enqueuing(o, works, failed) && works != []
    ensures Act(Act(s, EnqueueNext(f, false)), PutBack(f))
         == At(s, f, Enqueuing(o, works[1..], true)).(db := s.db.(
            jobs := SetJob(s.db.jobs, works[0].job, JobFailed),
            services := PutBackService(s.db.services, works[0].service)))
  {
    hide Apply, Transact, PutBackService, SetJob;
    var jobs := SetJob(s.db.jobs, works[0].job, JobFailed);
    assert Act(s, EnqueueNext(f, false))
        == At(s, f, PuttingBack(o, works[0].service, works[1..])).(db := s.db.(jobs := jobs));
  }

  lemma EnqueuedAll(s: System, f: nat, o: nat, failed: bool, refused: set<nat>)
    requires f < |s.flights| && s.flights[f].stage == Enqueuing(o, [], failed)
    ensures RunAll(s, EnqueueScript(f, [], refused)) == At(s, f, Processed(failed))
  {
    hide Apply, Transact, RunAll;
    RunOne(s, EnqueueNext(f, true));
  }

  lemma {:induction false} EnqueueScriptRuns(s: System, f: nat, o: nat, works: seq<Work>, failed: bool,
                                             refused: set<nat>)
    requires f < |s.flights| && s.flights[f].stage == Enqueuing(o, works, failed)
    ensures var p := EnqueueAll(PlacedOf(s.db, failed), works, o, refused);
            RunAll(s, EnqueueScript(f, works, refused)) == At(s, f, Processed(p.failed)).(db := WithPlaced(s.db, p))
    decreases |works|
  {
    hide EnqueueOne, Act, RunAll, Apply, Transact;
    if works == [] {
      EnqueuedAll(s, f, o, failed, refused);
    } else {
      var p := EnqueueOne(PlacedOf(s.db, failed), works[0], o, refused);
      var first := if works[0].service in refused then [EnqueueNext(f, false), PutBack(f)] else [EnqueueNext(f, true)];
      var next := At(s, f, Enqueuing(o, works[1..], p.failed)).(db := WithPlaced(s.db, p));
      EnqueueRound(s, f, o, works, failed, refused);
      EnqueueScriptRuns(next, f, o, works[1..], p.failed, refused);
      RunAllJoined(s, first, EnqueueScript(f, works[1..], refused));
      EnqueueAllFront(PlacedOf(s.db, failed), works, o, refused);
    }
  }

  /** Received and committed without interruption. */
  lemma Committed(s: System, d: Delivery)
    requires d.event.id !in s.events
    ensures var f := |s.flights|;
            var (db, stage) := Transact(s.db, d.event.body, d.now);
            RunAll(s, [Receive(d.event), Commit(f, d.now)])
            == System(db, s.events[d.event.id := Row(false, false)], s.flights + [Flight(d.event, stage)],
                      s.ran + [d.event.id])
  {
    hide Transact, Apply;
    RunTwo(s, Receive(d.event), Commit(|s.flights|, d.now));
  }

  lemma SerialIsContiguous(s: System, d: Delivery)
    ensures var t := RunAll(s, Script(s, d)); Hub(t.db, t.events) == Deliver(Hub(s.db, s.events), d).0
  {
    hide Process, Act, Opening, Enqueues;
    if !d.stored {
    } else if d.event.id in s.events {
      RunOne(s, Receive(d.event));
      KnownEvent(s, d.event);
    } else {
      RunThree(s, Opening(s, d), Enqueues(s, d), Finish(|s.flights|, d.marked));
      Opened(s, d);
      Enqueued(s, d);
    }
  }

  lemma KnownEvent(s: System, event: Event)
    requires event.id in s.events
    ensures Act(s, Receive(event)) == s
  {
  }

  lemma Opened(s: System, d: Delivery)
    requires d.event.id !in s.events
    ensures var t := RunAll(s, Opening(s, d));
            var (db, stage) := Transact(s.db, d.event.body, d.now);
            && t.db == db && |t.flights| == |s.flights| + 1 && t.flights[|s.flights|] == Flight(d.event, stage)
            && t.events == s.events[d.event.id := Row(false, false)]
  {
    hide RunAll, Transact;
    Committed(s, d);
  }

  lemma Enqueued(s: System, d: Delivery)
    requires d.event.id !in s.events
    ensures var t := Act(RunAll(RunAll(s, Opening(s, d)), Enqueues(s, d)), Finish(|s.flights|, d.marked));
            var (db, ok) := Process(s.db, d);
            t.db == db && t.events == s.events[d.event.id := Marked(d.marked, !ok)]
  {
    hide RunAll, Transact, Process, Act, Opening;
    var f := |s.flights|;
    var committed := RunAll(s, Opening(s, d));
    Opened(s, d);
    Middle(committed, d, f, s.db);
    Finished(RunAll(committed, Enqueues(s, d)), f, d.marked);
    var row := Marked(d.marked, !Process(s.db, d).1);
    assert s.events[d.event.id := Row(false, false)][d.event.id := row] == s.events[d.event.id := row];
  }

  lemma RunThree(s: System, start: seq<Action>, middle: seq<Action>, last: Action)
    ensures RunAll(s, start + middle + [last]) == Act(RunAll(RunAll(s, start), middle), last)
  {
    hide RunAll, Act;
    RunAllJoined(s, start, middle);
    RunAllJoined(s, start + middle, [last]);
    RunOne(RunAll(s, start + middle), last);
  }

  lemma Finished(s: System, f: nat, marked: bool)
    requires f < |s.flights| && s.flights[f].stage.Processed?
    ensures var t := Act(s, Finish(f, marked));
            var id := s.flights[f].event.id;
            t.db == s.db && t.events == if marked then s.events[id := Row(true, s.flights[f].stage.error)] else s.events
  {
    hide Apply, Transact;
  }

  /** What the enqueueing part leaves is what the serial form says. */
  lemma Middle(s: System, d: Delivery, f: nat, before: Db)
    requires f < |s.flights| && (s.db, s.flights[f].stage) == Transact(before, d.event.body, d.now)
    requires s.flights[f].event == d.event
    ensures var stage := s.flights[f].stage;
            var (db, ok) := Process(before, d);
            RunAll(s, if stage.Enqueuing? then EnqueueScript(f, stage.works, d.refused) else [])
            == At(s, f, Processed(!ok)).(db := db)
  {
    hide Settle, NumericIn, EnqueueAll, EnqueueScript, Act;
    var stage := s.flights[f].stage;
    if stage.Enqueuing? {
      EnqueueScriptRuns(s, f, stage.order, stage.works, false, d.refused);
    } else {
      assert At(s, f, stage) == s;
    }
  }
}
