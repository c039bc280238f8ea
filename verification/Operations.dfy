/** Work that goes on after payment: the worker and the scheduled tasks
    (internal/provisioning/handler.go), and provisioning by an administrator
    (internal/admin/service.go). */
module Operations {
  import opened Wrappers
  import opened Tables
  import opened Orders
  import opened Checkout
  import opened Fulfilment
  import opened Payments

  // ----- Provisioning by an administrator -----

  predicate Provisionable(status: ServiceStatus) { status == ServicePending || status == ServiceSuspended }

  /** provisionService, with the compensation it runs when the enqueue fails. */
  function AdminProvision(db: Db, s: nat, enqueueOk: bool): (Db, nat) {
    if s >= |db.services| then (db, 404)
    else if Provisioned(db.services[s].status) then (db, 409)
    else if !Provisionable(db.services[s].status) then (db, 400)
    else
      var o := db.services[s].order;
      var started := db.(orders := SetStatus(db.orders, o, Provisioning),
                     services := SetService(db.services, s, ServiceProvisioning),
                     jobs := db.jobs + [Job(s, JobPending, 0, 3)]);
      if enqueueOk then (started.(queue := db.queue + multiset{Task(s, o)}), 200)
      else (started.(orders := if o < |started.orders| && started.orders[o].status == Provisioning
            then SetStatus(started.orders, o, Paid) else started.orders,
            services := SetService(started.services, s, ServicePending),
            jobs := SetJob(started.jobs, |db.jobs|, JobFailed)), 500)
  }

  // ----- The worker -----

  function Attempted(jobs: seq<Job>, s: nat, status: JobStatus): seq<Job> {
    match NewestJob(jobs, s)
    case None => jobs
    case Some(j) => jobs[j := jobs[j].(status := status, attempts := jobs[j].attempts + 1)]
  }

  /** HandleProvisionVPS on a queued task.  `success` is whether the service could be
      updated; `ack` whether it leaves the queue, or will be delivered again. */
  function WorkerRun(db: Db, t: Task, success: bool, ack: bool): Db {
    if t !in db.queue then db
    else db.(orders := if success then SetStatus(db.orders, t.order, Active) else db.orders,
         services := if success then SetService(db.services, t.service, ServiceActive) else db.services,
         jobs := Attempted(db.jobs, t.service, if success then JobCompleted else JobFailed),
         queue := if ack then db.queue - multiset{t} else db.queue)
  }

  // ----- The expiry sweep -----

  /** The second look at a service: when, and whether its update goes through. */
  datatype Recheck = Recheck(clock: int, writeOk: bool)

  predicate IsDue(s: Service, now: int) {
    s.status == ServiceActive && s.expires.Some? && s.expires.value <= now
  }

  /** The query of expireAllServices. */
  function Due(services: seq<Service>, now: int): (ids: seq<nat>)
    ensures forall s: nat :: s in ids <==> s < |services| && IsDue(services[s], now)
  {
    if services == [] then []
    else
      var n := |services| - 1;
      Due(services[..n], now) + if IsDue(services[n], now) then [n] else []
  }

  predicate Suspends(s: Service, r: Recheck) {
    s.status == ServiceActive && s.expires.Some? && r.clock > s.expires.value && r.writeOk
  }

  /** expireSingleService */
  function ExpireOne(services: seq<Service>, s: nat, r: Recheck): seq<Service> {
    if s < |services| && Suspends(services[s], r) then SetService(services, s, ServiceSuspended) else services
  }

  function ExpireEach(services: seq<Service>, ids: seq<nat>, rechecks: nat -> Recheck): seq<Service>
    decreases |ids|
  {
    if ids == [] then services
    else
      var s := ids[|ids| - 1];
      ExpireOne(ExpireEach(services, ids[..|ids| - 1], rechecks), s, rechecks(s))
  }

  function Sweep(services: seq<Service>, now: int, rechecks: nat -> Recheck): seq<Service> {
    ExpireEach(services, Due(services, now), rechecks)
  }

  /** What the sweep is for: every service due at the query is suspended. */
  function Swept(services: seq<Service>, now: int): seq<Service> {
    seq(|services|, s requires 0 <= s < |services| =>
      if IsDue(services[s], now) then services[s].(status := ServiceSuspended) else services[s])
  }

  lemma {:induction false} ExpireEachAt(services: seq<Service>, ids: seq<nat>, rechecks: nat -> Recheck)
    ensures var after := ExpireEach(services, ids, rechecks);
            && |after| == |services|
            && forall s | 0 <= s < |services| ::
                 after[s] == if s in ids && Suspends(services[s], rechecks(s))
                 then services[s].(status := ServiceSuspended) else services[s]
    decreases |ids|
  {
    if ids != [] {
      var n := |ids| - 1;
      ExpireEachAt(services, ids[..n], rechecks);
      assert ids == ids[..n] + [ids[n]];
    }
  }

  /** On a given table the sweep does its job exactly when each due service, looked at
      again, is strictly past its expiry and can be written. */
  lemma SweepIsPointwise(services: seq<Service>, now: int, rechecks: nat -> Recheck)
    ensures Sweep(services, now, rechecks) == Swept(services, now)
       <==> forall s: nat | s < |services| && IsDue(services[s], now) :: Suspends(services[s], rechecks(s))
  {
    var after, spec := Sweep(services, now, rechecks), Swept(services, now);
    ExpireEachAt(services, Due(services, now), rechecks);
    if after == spec {
      forall s: nat | s < |services| && IsDue(services[s], now) ensures Suspends(services[s], rechecks(s)) {
        assert spec[s].status == ServiceSuspended;
      }
    }
  }

  predicate Later(r: Recheck, now: int) { r.clock > now && r.writeOk }

  function DueTable(n: nat, now: int): seq<Service> {
    seq(n, s => Service(0, 0, ServiceActive, Some(now)))
  }

  /** On every table it does so exactly when all second looks come strictly later than
      the query and none fails: a service expiring at the very instant of the query
      would otherwise be selected and then skipped. */
  lemma SweepOnEveryTable(now: int, rechecks: nat -> Recheck)
    ensures (forall services: seq<Service> :: Sweep(services, now, rechecks) == Swept(services, now))
       <==> (forall s: nat :: Later(rechecks(s), now))
  {
    if forall s: nat :: Later(rechecks(s), now) {
      forall services: seq<Service> ensures Sweep(services, now, rechecks) == Swept(services, now) {
        SweepIsPointwise(services, now, rechecks);
      }
    } else {
      var s: nat :| !Later(rechecks(s), now);
      var table := DueTable(s + 1, now);
      SweepIsPointwise(table, now, rechecks);
      assert IsDue(table[s], now) && !Suspends(table[s], rechecks(s));
    }
  }

  // ----- Renewal invoices -----

  /** HandleGenerateInvoice: one more invoice for the service's order, for one unit. */
  function RenewalInvoice(db: Db, s: nat): Db {
    if s >= |db.services| || db.services[s].order >= |db.orders| then db
    else
      var o := db.services[s].order;
      match ItemAt(db.orders[o].items, db.services[s].item)
      case None => db
      case Some(k) =>
        var price := db.orders[o].items[k].unitPrice;
        db.(invoices := db.invoices + [Invoice(o, InvoicePending, price, [Line(1, price, price)])])
  }

  // ----- What they keep -----

  /** A service is taken up again: its new job is open and queued, or failed at once. */
  lemma JobOpened(services: seq<Service>, jobs: seq<Job>, queue: multiset<Task>, s: nat, queued: bool, attempts: nat)
    requires JobsOk(services, jobs, queue, []) && s < |services| && services[s].status != ServiceProvisioning
    ensures var status := if queued then ServiceProvisioning else ServicePending;
            var job := Job(s, if queued then JobPending else JobFailed, 0, attempts);
            var queue' := if queued then queue + multiset{Task(s, services[s].order)} else queue;
            JobsOk(SetService(services, s, status), jobs + [job], queue', [])
  {
    forall j | 0 <= j < |jobs| && jobs[j].status == JobPending ensures jobs[j].service != s {
      assert OpenJobOk(services, jobs, queue, [], j);
    }
  }

  /** Only the statuses of services change. */
  lemma ServiceStatusFrame(db: Db, services: seq<Service>)
    requires BillingOk(db) && ServicesKept(db.services, services) && |services| == |db.services|
    ensures BillingOk(db.(services := services))
  {
    ServicesRestated(db.orders, db.invoices, db.services, services);
    QueueFrame(db.services, services, db.queue);
  }

  lemma AdminProvisionKeeps(db: Db, s: nat, enqueueOk: bool)
    requires BillingOk(db)
    ensures var after := AdminProvision(db, s, enqueueOk).0;
            BillingOk(after) && OrdersKept(db.orders, after.orders) && ServicesKept(db.services, after.services)
  {
    if s < |db.services| && Provisionable(db.services[s].status) {
      hide BillingOk, AdminProvision, OrdersKept, ServicesKept;
      AdminProvisionEffect(db, s, enqueueOk);
      StatusFrame(db, db.services[s].order, if enqueueOk then Provisioning else Paid);
      Requeued(db, s, enqueueOk);
      ReopenedKeeps(db, AdminProvision(db, s, enqueueOk).0);
    }
  }

  lemma Requeued(db: Db, s: nat, enqueueOk: bool)
    requires BillingOk(db) && s < |db.services|
    ensures var services := SetService(db.services, s, if enqueueOk then ServiceProvisioning else ServicePending);
            ServicesKept(db.services, services) && |services| == |db.services|
    ensures QueueOk(db.services, if enqueueOk then db.queue + multiset{Task(s, db.services[s].order)} else db.queue)
  {
  }

  /** Order statuses aside, a step that changes only service statuses, jobs and queue. */
  lemma ReopenedKeeps(db: Db, after: Db)
    requires BillingOk(db) && BillingOk(db.(orders := after.orders))
    requires after == db.(orders := after.orders, services := after.services, jobs := after.jobs, queue := after.queue)
    requires ServicesKept(db.services, after.services) && |after.services| == |db.services|
    requires QueueOk(db.services, after.queue)
    ensures BillingOk(after)
  {
    hide SessionsOk, InvoicesOk, ServicesOk, IntentsUnique;
    ServicesRestated(after.orders, after.invoices, db.services, after.services);
    QueueFrame(db.services, after.services, after.queue);
  }

  lemma AdminProvisionKeepsJobs(db: Db, s: nat, enqueueOk: bool)
    requires JobsOk(db.services, db.jobs, db.queue, [])
    ensures var after := AdminProvision(db, s, enqueueOk).0; JobsOk(after.services, after.jobs, after.queue, [])
  {
    if s < |db.services| && Provisionable(db.services[s].status) {
      AdminProvisionEffect(db, s, enqueueOk);
      hide AdminProvision;
      JobOpened(db.services, db.jobs, db.queue, s, enqueueOk, 3);
    }
  }

  /** What provisioning a pending or suspended service leaves behind. */
  lemma AdminProvisionEffect(db: Db, s: nat, enqueueOk: bool)
    requires s < |db.services| && Provisionable(db.services[s].status)
    ensures AdminProvision(db, s, enqueueOk).0
         == db.(orders := SetStatus(db.orders, db.services[s].order, if enqueueOk then Provisioning else Paid),
            services := SetService(db.services, s, if enqueueOk then ServiceProvisioning else ServicePending),
            jobs := db.jobs + [Job(s, if enqueueOk then JobPending else JobFailed, 0, 3)],
            queue := if enqueueOk then db.queue + multiset{Task(s, db.services[s].order)} else db.queue)
  {
    var o := db.services[s].order;
    var orders := SetStatus(db.orders, o, Provisioning);
    assert SetStatus(orders, o, Paid) == SetStatus(db.orders, o, Paid);
    assert SetService(SetService(db.services, s, ServiceProvisioning), s, ServicePending)
        == SetService(db.services, s, ServicePending);
    var job := Job(s, JobPending, 0, 3);
    assert SetJob(db.jobs + [job], |db.jobs|, JobFailed) == db.jobs + [job.(status := JobFailed)];
  }

  /** The compensation restores what was there exactly for a pending service of a paid
      order: a suspended service comes out pending, an active order comes out paid. */
  lemma CompensationRestores(db: Db, s: nat)
    requires s < |db.services| && Provisionable(db.services[s].status) && db.services[s].order < |db.orders|
    ensures var after := AdminProvision(db, s, false).0;
            && after.queue == db.queue
            && (after.services == db.services && after.orders == db.orders
                <==> db.services[s].status == ServicePending && db.orders[db.services[s].order].status == Paid)
  {
    AdminProvisionEffect(db, s, false);
    var after := AdminProvision(db, s, false).0;
    var o := db.services[s].order;
    if after.services == db.services && after.orders == db.orders {
      assert after.services[s].status == ServicePending;
      assert after.orders[o].status == Paid;
    } else {
      assert after.services[s] != db.services[s] || after.orders[o] != db.orders[o];
    }
  }

  lemma JobClosed(services: seq<Service>, jobs: seq<Job>, queue: multiset<Task>, t: Task, success: bool, ack: bool)
    requires JobsOk(services, jobs, queue, []) && t in queue
    ensures JobsOk(if success then SetService(services, t.service, ServiceActive) else services,
                   Attempted(jobs, t.service, if success then JobCompleted else JobFailed),
                   if ack then queue - multiset{t} else queue, [])
  {
    var jobs' := Attempted(jobs, t.service, if success then JobCompleted else JobFailed);
    forall j | 0 <= j < |jobs'| && jobs'[j].status == JobPending ensures jobs'[j].service != t.service {
      assert jobs'[j] == jobs[j];
      assert OpenJobOk(services, jobs, queue, [], j);
      var newest := NewestJob(jobs, t.service);
      assert newest.Some? ==> newest.value != j;
    }
  }

  /** A worker run leaves its service with no open job, and active if it succeeded; it
      touches no job but the service's newest. */
  lemma WorkerCloses(db: Db, t: Task, success: bool, ack: bool)
    requires BillingOk(db) && JobsOk(db.services, db.jobs, db.queue, []) && t in db.queue
    ensures var after := WorkerRun(db, t, success, ack);
            && (forall j | 0 <= j < |after.jobs| && after.jobs[j].service == t.service ::
                  after.jobs[j].status == JobCompleted || after.jobs[j].status == JobFailed)
            && after.services[t.service].status == (if success then ServiceActive else db.services[t.service].status)
            && (forall j | 0 <= j < |db.jobs| && NewestJob(db.jobs, t.service) != Some(j) ::
                  after.jobs[j] == db.jobs[j])
  {
    hide OrdersOk, SessionsOk, InvoicesOk, ServicesOk, IntentsUnique;
    var after := WorkerRun(db, t, success, ack);
    JobClosed(db.services, db.jobs, db.queue, t, success, ack);
    forall j | 0 <= j < |after.jobs| && after.jobs[j].service == t.service
      ensures after.jobs[j].status == JobCompleted || after.jobs[j].status == JobFailed
    {
      var newest := NewestJob(db.jobs, t.service);
      assert newest.Some? && newest.value >= j by { assert db.jobs[j].service == t.service; }
      if j < newest.value { assert db.jobs[newest.value].service == db.jobs[j].service; }
    }
  }

  lemma WorkerRunKeeps(db: Db, t: Task, success: bool, ack: bool)
    requires BillingOk(db)
    ensures var after := WorkerRun(db, t, success, ack);
            BillingOk(after) && OrdersKept(db.orders, after.orders) && ServicesKept(db.services, after.services)
  {
    hide Attempted, OrdersOk, SessionsOk, InvoicesOk, ServicesOk, IntentsUnique;
    if t in db.queue {
      var orders := if success then SetStatus(db.orders, t.order, Active) else db.orders;
      var services := if success then SetService(db.services, t.service, ServiceActive) else db.services;
      var ordered := db.(orders := orders);
      StatusFrame(db, t.order, Active);
      ServiceStatusFrame(ordered, services);
      TaskTaken(ordered.(services := services), WorkerRun(db, t, success, ack));
    }
  }

  lemma TaskTaken(before: Db, after: Db)
    requires BillingOk(before) && after.queue <= before.queue
    requires after == before.(jobs := after.jobs, queue := after.queue)
    ensures BillingOk(after)
  {
    forall t | t in after.queue ensures t in before.queue {
    }
  }

  lemma SweepKeeps(db: Db, now: int, rechecks: nat -> Recheck)
    requires BillingOk(db)
    ensures var after := Sweep(db.services, now, rechecks);
            BillingOk(db.(services := after)) && ServicesKept(db.services, after)
  {
    ExpireEachAt(db.services, Due(db.services, now), rechecks);
    ServiceStatusFrame(db, Sweep(db.services, now, rechecks));
  }

  lemma SweepKeepsJobs(db: Db, now: int, rechecks: nat -> Recheck)
    requires JobsOk(db.services, db.jobs, db.queue, [])
    ensures JobsOk(Sweep(db.services, now, rechecks), db.jobs, db.queue, [])
  {
    var after := Sweep(db.services, now, rechecks);
    ExpireEachAt(db.services, Due(db.services, now), rechecks);
    JobsServiceChanged(db.services, after, db.jobs, db.queue, [], 0);
  }

  lemma RenewalInvoiceKeeps(db: Db, s: nat)
    requires BillingOk(db)
    ensures BillingOk(RenewalInvoice(db, s)) && db.invoices <= RenewalInvoice(db, s).invoices
  {
    var after := RenewalInvoice(db, s);
    if after != db {
      InvoiceAdded(db.orders, db.invoices, after.invoices[|db.invoices|]);
      ServicesFrame(db.orders, db.orders, db.invoices, after.invoices, db.services);
    }
  }
}
