/** From a paid order to services, provisioning jobs and queued tasks
    (internal/payment/provisioning.go). */
module Fulfilment {
  import opened Wrappers
  import opened Calendar
  import opened Tables
  import opened Orders
  import opened Checkout

  /** provisioningTask: a service and the job made for it. */
  datatype Work = Work(service: nat, job: nat)

  datatype Prepared = Prepared(services: seq<Service>, jobs: seq<Job>, works: seq<Work>)

  datatype Placed = Placed(services: seq<Service>, jobs: seq<Job>, queue: multiset<Task>, failed: bool)

  // ----- The steps of a completed payment -----

  predicate Provisioned(status: ServiceStatus) { status == ServiceActive || status == ServiceProvisioning }

  function SetService(services: seq<Service>, s: nat, status: ServiceStatus): seq<Service> {
    if s < |services| then services[s := services[s].(status := status)] else services
  }

  function SetJob(jobs: seq<Job>, j: nat, status: JobStatus): seq<Job> {
    if j < |jobs| then jobs[j := jobs[j].(status := status)] else jobs
  }

  /** ensureServiceRecord */
  function EnsureService(services: seq<Service>, item: Item, o: nat, now: nat): (r: (seq<Service>, nat))
    ensures r.1 < |r.0| && r.0[r.1].item == item.id && Provisioned(r.0[r.1].status)
    ensures if r.1 < |services|
            then r.0 == services[r.1 := services[r.1].(status := r.0[r.1].status)]
            else r.0 == services + [Service(item.id, o, ServiceProvisioning, Some(ExpiryDate(item.cycle, now)))]
  {
    match ServiceOfItem(services, item.id)
    case Some(s) =>
      (if Provisioned(services[s].status) then services else SetService(services, s, ServiceProvisioning), s)
    case None =>
      (services + [Service(item.id, o, ServiceProvisioning, Some(ExpiryDate(item.cycle, now)))], |services|)
  }

  /** A service made for an item expires exactly the item's term after the purchase, to
      the nanosecond; one that exists already keeps its expiry. */
  lemma NewServiceTerm(services: seq<Service>, item: Item, o: nat, now: nat)
    ensures var (after, s) := EnsureService(services, item, o, now);
            if s < |services| then after[s].expires == services[s].expires
            else
              var d := DateOf(now);
              after[s].expires == Some(now + MonthsLength(d.year, d.month, TermMonths(item.cycle)) * DAY)
  {
    hide ExpiryDate, DateOf, MonthsLength;
    TermLength(item.cycle, now);
  }

  predicate IsNewestOpen(jobs: seq<Job>, s: nat, j: nat)
    requires j < |jobs|
  {
    && jobs[j].service == s && (jobs[j].status == JobPending || jobs[j].status == JobRunning)
    && forall k | j < k < |jobs| :: jobs[k].service != s
  }

  /** ensureProvisioningJob: the new job, unless the newest one is still open. */
  function EnsureJob(jobs: seq<Job>, s: nat): (r: (seq<Job>, Option<nat>))
    ensures r == (jobs, None) || (r.1 == Some(|jobs|) && r.0 == jobs + [Job(s, JobPending, 0, 5)])
  {
    var newest := NewestJob(jobs, s);
    if newest.Some? && (jobs[newest.value].status == JobPending || jobs[newest.value].status == JobRunning)
    then (jobs, None)
    else (jobs + [Job(s, JobPending, 0, 5)], Some(|jobs|))
  }

  /** A job is added exactly if the service has no open job that is its newest. */
  lemma JobAddedExactly(jobs: seq<Job>, s: nat)
    ensures EnsureJob(jobs, s).1.Some? <==> !exists j | 0 <= j < |jobs| :: IsNewestOpen(jobs, s, j)
  {
    var newest := NewestJob(jobs, s);
    if newest.Some? {
      assert IsNewestOpen(jobs, s, newest.value) || EnsureJob(jobs, s).1.Some?;
    }
  }

  function PrepareItem(p: Prepared, item: Item, o: nat, now: nat): Prepared {
    var (services, s) := EnsureService(p.services, item, o, now);
    if services[s].status == ServiceActive then p.(services := services)
    else
      var (jobs, job) := EnsureJob(p.jobs, s);
      Prepared(services, jobs, if job.Some? then p.works + [Work(s, job.value)] else p.works)
  }

  /** The loop of prepareProvisioningJobs over the order's items. */
  function Prepare(services: seq<Service>, jobs: seq<Job>, items: seq<Item>, o: nat, now: nat): Prepared
    decreases |items|
  {
    if items == [] then Prepared(services, jobs, [])
    else PrepareItem(Prepare(services, jobs, items[..|items| - 1], o, now), items[|items| - 1], o, now)
  }

  /** One enqueue; a refused one runs markProvisioningJobFailed. */
  function EnqueueOne(p: Placed, w: Work, o: nat, refused: set<nat>): Placed {
    if w.service !in refused then p.(queue := p.queue + multiset{Task(w.service, o)})
    else
      var services := if w.service < |p.services| && p.services[w.service].status == ServiceProvisioning
                      then SetService(p.services, w.service, ServicePending) else p.services;
      Placed(services, SetJob(p.jobs, w.job, JobFailed), p.queue, true)
  }

  /** enqueueProvisioningTasks; `refused` are the services whose enqueue fails. */
  function EnqueueAll(p: Placed, works: seq<Work>, o: nat, refused: set<nat>): Placed
    decreases |works|
  {
    if works == [] then p
    else EnqueueOne(EnqueueAll(p, works[..|works| - 1], o, refused), works[|works| - 1], o, refused)
  }

  // ----- Invariants -----

  /** Every service belongs to an invoiced order's item, and no two to the same item. */
  ghost predicate ServicesOk(orders: seq<Order>, invoices: seq<Invoice>, services: seq<Service>) {
    && (forall s | 0 <= s < |services| ::
          && services[s].order < |orders|
          && HasItem(orders[services[s].order].items, services[s].item)
          && NewestInvoice(invoices, services[s].order).Some?)
    && (forall s, t | 0 <= s < |services| && 0 <= t < |services| && services[s].item == services[t].item :: s == t)
  }

  /** Services are never deleted, never move to another item and keep their expiry. */
  ghost predicate ServicesKept(before: seq<Service>, after: seq<Service>) {
    |before| <= |after| &&
    forall s | 0 <= s < |before| ::
      after[s].item == before[s].item && after[s].order == before[s].order && after[s].expires == before[s].expires
  }

  /** An open job is its service's newest, the service is being provisioned, and a
      task for it is queued or is about to be. */
  ghost predicate OpenJobOk(services: seq<Service>, jobs: seq<Job>, queue: multiset<Task>, works: seq<Work>, j: nat)
    requires j < |jobs| && jobs[j].service < |services|
  {
    var s := jobs[j].service;
    && (forall k | j < k < |jobs| :: jobs[k].service != s)
    && services[s].status == ServiceProvisioning
    && (Task(s, services[s].order) in queue || Work(s, j) in works)
  }

  ghost predicate JobsOk(services: seq<Service>, jobs: seq<Job>, queue: multiset<Task>, works: seq<Work>) {
    forall j | 0 <= j < |jobs| ::
      && jobs[j].service < |services|
      && jobs[j].status != JobRunning
      && (jobs[j].status == JobPending ==> OpenJobOk(services, jobs, queue, works, j))
  }

  ghost predicate WorksOk(services: seq<Service>, jobs: seq<Job>, works: seq<Work>, o: nat) {
    && (forall a | 0 <= a < |works| ::
          && works[a].service < |services| && services[works[a].service].order == o
          && works[a].job < |jobs| && jobs[works[a].job].service == works[a].service
          && jobs[works[a].job].status == JobPending)
    && (forall a, b | 0 <= a < |works| && 0 <= b < |works| && works[a].service == works[b].service :: a == b)
  }

  /** Work waiting to be enqueued is for services of the order. */
  ghost predicate WorksIn(services: seq<Service>, works: seq<Work>, o: nat) {
    forall a | 0 <= a < |works| :: works[a].service < |services| && services[works[a].service].order == o
  }

  /** A queued task names its service's own order. */
  ghost predicate QueueOk(services: seq<Service>, queue: multiset<Task>) {
    forall t | t in queue :: t.service < |services| && services[t.service].order == t.order
  }

  lemma QueueFrame(before: seq<Service>, after: seq<Service>, queue: multiset<Task>)
    requires QueueOk(before, queue) && ServicesKept(before, after)
    ensures QueueOk(after, queue)
  {
  }

  lemma ServicesKeptTransitive(a: seq<Service>, b: seq<Service>, c: seq<Service>)
    requires ServicesKept(a, b) && ServicesKept(b, c)
    ensures ServicesKept(a, c)
  {
    forall s | 0 <= s < |a|
      ensures c[s].item == a[s].item && c[s].order == a[s].order && c[s].expires == a[s].expires
    {
      assert b[s].item == a[s].item;
    }
  }

  lemma ServicesFrame(orders: seq<Order>, later: seq<Order>, invoices: seq<Invoice>, more: seq<Invoice>,
                      services: seq<Service>)
    requires ServicesOk(orders, invoices, services) && InvoicesOk(orders, invoices)
    requires OrdersKept(orders, later) && invoices <= more
    ensures ServicesOk(later, more, services)
  {
    forall s | 0 <= s < |services|
      ensures services[s].order < |later| && HasItem(later[services[s].order].items, services[s].item)
      ensures NewestInvoice(more, services[s].order).Some?
    {
      var o := services[s].order;
      var i := NewestInvoice(invoices, o).value;
      assert orders[o].status != Draft;
      assert more[i].order == o;
    }
  }

  /** Only the items and orders of services matter to ServicesOk. */
  lemma ServicesRestated(orders: seq<Order>, invoices: seq<Invoice>, before: seq<Service>, after: seq<Service>)
    requires ServicesOk(orders, invoices, before) && ServicesKept(before, after) && |after| == |before|
    ensures ServicesOk(orders, invoices, after)
  {
    forall s | 0 <= s < |after|
      ensures after[s].order < |orders| && HasItem(orders[after[s].order].items, after[s].item)
      ensures NewestInvoice(invoices, after[s].order).Some?
    {
      assert after[s].item == before[s].item;
    }
  }

  // ----- Preparing keeps them -----

  /** The service of an item is in the item's order. */
  lemma ServiceInItsOrder(orders: seq<Order>, invoices: seq<Invoice>, services: seq<Service>, s: nat, o: nat, i: nat)
    requires IdsUnique(orders) && ServicesOk(orders, invoices, services)
    requires s < |services| && o < |orders| && i < |orders[o].items| && services[s].item == orders[o].items[i].id
    ensures services[s].order == o
  {
    var p := services[s].order;
    var k :| 0 <= k < |orders[p].items| && orders[p].items[k].id == services[s].item;
    assert orders[p].items[k].id == orders[o].items[i].id;
  }

  lemma EnsureServiceKeeps(orders: seq<Order>, invoices: seq<Invoice>, services: seq<Service>, o: nat, i: nat, now: nat)
    requires IdsUnique(orders) && ServicesOk(orders, invoices, services)
    requires o < |orders| && i < |orders[o].items| && NewestInvoice(invoices, o).Some?
    ensures var (after, s) := EnsureService(services, orders[o].items[i], o, now);
            && ServicesOk(orders, invoices, after) && ServicesKept(services, after)
            && after[s].order == o
            && (forall t | 0 <= t < |services| && services[t].status == ServiceProvisioning ::
                  after[t].status == ServiceProvisioning)
  {
    var item := orders[o].items[i];
    var (after, s) := EnsureService(services, item, o, now);
    match ServiceOfItem(services, item.id) {
      case Some(_) =>
        ServicesRestated(orders, invoices, services, after);
        ServiceInItsOrder(orders, invoices, services, s, o, i);
      case None =>
        ServiceAdded(orders, invoices, services, after[s], i);
    }
  }

  lemma ServiceAdded(orders: seq<Order>, invoices: seq<Invoice>, services: seq<Service>, added: Service, i: nat)
    requires ServicesOk(orders, invoices, services) && added.order < |orders|
    requires i < |orders[added.order].items| && orders[added.order].items[i].id == added.item
    requires NewestInvoice(invoices, added.order).Some? && ServiceOfItem(services, added.item).None?
    ensures ServicesOk(orders, invoices, services + [added])
  {
    assert HasItem(orders[added.order].items, added.item);
  }

  lemma JobsServiceChanged(before: seq<Service>, after: seq<Service>, jobs: seq<Job>, queue: multiset<Task>,
                           works: seq<Work>, o: nat)
    requires JobsOk(before, jobs, queue, works) && WorksOk(before, jobs, works, o) && ServicesKept(before, after)
    requires forall t | 0 <= t < |before| && before[t].status == ServiceProvisioning ::
               after[t].status == ServiceProvisioning
    ensures JobsOk(after, jobs, queue, works) && WorksOk(after, jobs, works, o)
  {
    forall j | 0 <= j < |jobs| && jobs[j].status == JobPending
      ensures jobs[j].service < |after| && OpenJobOk(after, jobs, queue, works, j)
    {
      assert OpenJobOk(before, jobs, queue, works, j);
    }
  }

  lemma EnsureJobKeeps(services: seq<Service>, jobs: seq<Job>, queue: multiset<Task>, works: seq<Work>, o: nat, s: nat)
    requires JobsOk(services, jobs, queue, works) && WorksOk(services, jobs, works, o)
    requires s < |services| && services[s].status == ServiceProvisioning && services[s].order == o
    ensures var (after, job) := EnsureJob(jobs, s);
            var works' := if job.Some? then works + [Work(s, job.value)] else works;
            JobsOk(services, after, queue, works') && WorksOk(services, after, works', o)
  {
    var (after, job) := EnsureJob(jobs, s);
    if job.Some? {
      var works' := works + [Work(s, job.value)];
      assert works'[|works|] == Work(s, job.value);
      NoOpenJob(services, jobs, queue, works, s);
      forall j | 0 <= j < |jobs| && jobs[j].status == JobPending
        ensures OpenJobOk(services, after, queue, works', j)
      {
        assert OpenJobOk(services, jobs, queue, works, j);
        if Work(jobs[j].service, j) in works {
          var a :| 0 <= a < |works| && works[a] == Work(jobs[j].service, j);
          assert works'[a] == works[a];
        }
      }
      assert OpenJobOk(services, after, queue, works', |jobs|);
    }
  }

  /** A service whose newest job is closed has no open job. */
  lemma NoOpenJob(services: seq<Service>, jobs: seq<Job>, queue: multiset<Task>, works: seq<Work>, s: nat)
    requires JobsOk(services, jobs, queue, works)
    requires var newest := NewestJob(jobs, s); newest.Some? ==> jobs[newest.value].status != JobPending
    ensures forall j | 0 <= j < |jobs| && jobs[j].service == s :: jobs[j].status != JobPending
  {
    forall j | 0 <= j < |jobs| && jobs[j].service == s ensures jobs[j].status != JobPending {
      var newest := NewestJob(jobs, s).value;
      assert j <= newest && jobs[newest].service == s;
    }
  }

  lemma PrepareItemServices(orders: seq<Order>, invoices: seq<Invoice>, p: Prepared, o: nat, now: nat, i: nat)
    requires IdsUnique(orders) && ServicesOk(orders, invoices, p.services) && WorksIn(p.services, p.works, o)
    requires o < |orders| && i < |orders[o].items| && NewestInvoice(invoices, o).Some?
    ensures var q := PrepareItem(p, orders[o].items[i], o, now);
            && ServicesOk(orders, invoices, q.services) && WorksIn(q.services, q.works, o)
            && ServicesKept(p.services, q.services) && HasService(q.services, orders[o].items[i].id)
  {
    EnsureServiceKeeps(orders, invoices, p.services, o, i, now);
  }

  lemma PrepareItemJobs(orders: seq<Order>, invoices: seq<Invoice>, queue: multiset<Task>, p: Prepared, o: nat,
                        now: nat, i: nat)
    requires IdsUnique(orders) && ServicesOk(orders, invoices, p.services)
    requires JobsOk(p.services, p.jobs, queue, p.works) && WorksOk(p.services, p.jobs, p.works, o)
    requires o < |orders| && i < |orders[o].items| && NewestInvoice(invoices, o).Some?
    ensures var q := PrepareItem(p, orders[o].items[i], o, now);
            JobsOk(q.services, q.jobs, queue, q.works) && WorksOk(q.services, q.jobs, q.works, o)
  {
    var (services, s) := EnsureService(p.services, orders[o].items[i], o, now);
    EnsureServiceKeeps(orders, invoices, p.services, o, i, now);
    JobsServiceChanged(p.services, services, p.jobs, queue, p.works, o);
    if services[s].status != ServiceActive {
      EnsureJobKeeps(services, p.jobs, queue, p.works, o, s);
    }
  }

  lemma NothingPrepared(services: seq<Service>, jobs: seq<Job>, o: nat)
    ensures WorksOk(services, jobs, [], o) && WorksIn(services, [], o) && ServicesKept(services, services)
  {
  }

  /** What prepareProvisioningJobs does for the first n items: each has its service. */
  lemma {:induction false} PrepareServices(orders: seq<Order>, invoices: seq<Invoice>, services: seq<Service>,
                                           jobs: seq<Job>, o: nat, now: nat, n: nat)
    requires IdsUnique(orders) && ServicesOk(orders, invoices, services)
    requires o < |orders| && n <= |orders[o].items| && NewestInvoice(invoices, o).Some?
    ensures var p := Prepare(services, jobs, orders[o].items[..n], o, now);
            && ServicesOk(orders, invoices, p.services) && WorksIn(p.services, p.works, o)
            && ServicesKept(services, p.services)
            && forall i | 0 <= i < n :: HasService(p.services, orders[o].items[i].id)
    decreases n
  {
    hide IdsUnique, ServicesOk, WorksIn, ServicesKept, HasService, PrepareItem;
    if n == 0 {
      NothingPrepared(services, jobs, o);
    } else {
      var items := orders[o].items;
      PrepareServices(orders, invoices, services, jobs, o, now, n - 1);
      assert items[..n][..n - 1] == items[..n - 1];
      var p := Prepare(services, jobs, items[..n - 1], o, now);
      var q := Prepare(services, jobs, items[..n], o, now);
      PrepareItemServices(orders, invoices, p, o, now, n - 1);
      ServicesKeptTransitive(services, p.services, q.services);
      HasServiceKept(p.services, q.services);
    }
  }

  lemma {:induction false} PrepareJobs(orders: seq<Order>, invoices: seq<Invoice>, services: seq<Service>,
                                       jobs: seq<Job>, queue: multiset<Task>, o: nat, now: nat, n: nat)
    requires IdsUnique(orders) && ServicesOk(orders, invoices, services) && JobsOk(services, jobs, queue, [])
    requires o < |orders| && n <= |orders[o].items| && NewestInvoice(invoices, o).Some?
    ensures var p := Prepare(services, jobs, orders[o].items[..n], o, now);
            JobsOk(p.services, p.jobs, queue, p.works) && WorksOk(p.services, p.jobs, p.works, o)
    decreases n
  {
    hide JobsOk, WorksOk, ServicesOk, IdsUnique;
    if n == 0 {
      NothingPrepared(services, jobs, o);
    } else {
      var items := orders[o].items;
      PrepareServices(orders, invoices, services, jobs, o, now, n - 1);
      PrepareJobs(orders, invoices, services, jobs, queue, o, now, n - 1);
      assert items[..n][..n - 1] == items[..n - 1];
      PrepareItemJobs(orders, invoices, queue, Prepare(services, jobs, items[..n - 1], o, now), o, now, n - 1);
    }
  }

  ghost predicate HasService(services: seq<Service>, item: nat) {
    exists s | 0 <= s < |services| :: services[s].item == item
  }

  lemma HasServiceKept(before: seq<Service>, after: seq<Service>)
    requires ServicesKept(before, after)
    ensures forall item | HasService(before, item) :: HasService(after, item)
  {
    forall item | HasService(before, item) ensures HasService(after, item) {
      var s :| 0 <= s < |before| && before[s].item == item;
      assert after[s].item == item;
    }
  }

  // ----- Enqueueing keeps them -----

  lemma {:induction false} EnqueueServices(p: Placed, works: seq<Work>, o: nat, refused: set<nat>)
    requires WorksIn(p.services, works, o) && QueueOk(p.services, p.queue)
    ensures var q := EnqueueAll(p, works, o, refused);
            && QueueOk(q.services, q.queue)
            && ServicesKept(p.services, q.services) && |q.services| == |p.services|
    decreases |works|
  {
    if works != [] {
      EnqueueServices(p, works[..|works| - 1], o, refused);
      assert works[|works| - 1].service < |p.services|;
      EnqueueOneService(EnqueueAll(p, works[..|works| - 1], o, refused), works[|works| - 1], o, refused);
    }
  }

  lemma EnqueueOneService(p: Placed, w: Work, o: nat, refused: set<nat>)
    requires w.service < |p.services| && p.services[w.service].order == o && QueueOk(p.services, p.queue)
    ensures var q := EnqueueOne(p, w, o, refused);
            QueueOk(q.services, q.queue) && ServicesKept(p.services, q.services) && |q.services| == |p.services|
  {
  }

  lemma {:induction false} EnqueueJobs(p: Placed, works: seq<Work>, o: nat, refused: set<nat>, n: nat)
    requires JobsOk(p.services, p.jobs, p.queue, works) && WorksOk(p.services, p.jobs, works, o) && n <= |works|
    ensures var q := EnqueueAll(p, works[..n], o, refused);
            JobsOk(q.services, q.jobs, q.queue, works[n..]) && WorksOk(q.services, q.jobs, works[n..], o)
    decreases n
  {
    if n == 0 {
      assert works[0..] == works;
    } else {
      EnqueueJobs(p, works, o, refused, n - 1);
      assert works[..n][..n - 1] == works[..n - 1];
      EnqueueOneJob(EnqueueAll(p, works[..n - 1], o, refused), works[n - 1..], o, refused);
      assert works[n - 1..][1..] == works[n..];
    }
  }

  lemma EnqueueOneJob(p: Placed, works: seq<Work>, o: nat, refused: set<nat>)
    requires works != [] && JobsOk(p.services, p.jobs, p.queue, works) && WorksOk(p.services, p.jobs, works, o)
    ensures var q := EnqueueOne(p, works[0], o, refused);
            JobsOk(q.services, q.jobs, q.queue, works[1..]) && WorksOk(q.services, q.jobs, works[1..], o)
  {
    var q := EnqueueOne(p, works[0], o, refused);
    var rest := works[1..];
    forall a | 0 <= a < |rest| ensures rest[a] == works[a + 1] && rest[a].service != works[0].service {
    }
    forall j | 0 <= j < |q.jobs| && q.jobs[j].status == JobPending
      ensures OpenJobOk(q.services, q.jobs, q.queue, rest, j)
    {
      assert OpenJobOk(p.services, p.jobs, p.queue, works, j);
      StillOpen(p, works, o, refused, j);
    }
  }

  lemma StillOpen(p: Placed, works: seq<Work>, o: nat, refused: set<nat>, j: nat)
    requires works != [] && WorksOk(p.services, p.jobs, works, o) && JobsOk(p.services, p.jobs, p.queue, works)
    requires j < |p.jobs| && EnqueueOne(p, works[0], o, refused).jobs[j].status == JobPending
    ensures var q := EnqueueOne(p, works[0], o, refused);
            q.jobs[j].service < |q.services| && OpenJobOk(q.services, q.jobs, q.queue, works[1..], j)
  {
    var q := EnqueueOne(p, works[0], o, refused);
    var w := works[0];
    var s := p.jobs[j].service;
    assert OpenJobOk(p.services, p.jobs, p.queue, works, j);
    assert OpenJobOk(p.services, p.jobs, p.queue, works, w.job);
    if s == w.service {
      assert j == w.job;
    } else if Work(s, j) in works {
      var a :| 0 <= a < |works| && works[a] == Work(s, j);
      assert works[1..][a - 1] == works[a];
    }
  }
  // ----- Exactly what preparing and enqueueing do -----

  /** An item's service stays active if it is, and is otherwise taken up again whatever it
      was; only an item without one is given one. */
  lemma TakenUp(services: seq<Service>, item: Item, o: nat, now: nat)
    ensures var (after, s) := EnsureService(services, item, o, now);
            if s < |services| then
              && services[s].item == item.id && |after| == |services|
              && after[s] == services[s].(status := if services[s].status == ServiceActive then ServiceActive
                             else ServiceProvisioning)
              && forall t | 0 <= t < |services| && t != s :: after[t] == services[t]
            else
              && s == |services| && (forall t | 0 <= t < |services| :: services[t].item != item.id)
              && after == services + [Service(item.id, o, ServiceProvisioning, Some(ExpiryDate(item.cycle, now)))]
  {
    hide ExpiryDate;
  }

  ghost predicate DistinctIds(items: seq<Item>) {
    forall i, j | 0 <= i < |items| && 0 <= j < |items| && items[i].id == items[j].id :: i == j
  }

  ghost predicate OneServiceEach(services: seq<Service>) {
    forall s, t | 0 <= s < |services| && 0 <= t < |services| && services[s].item == services[t].item :: s == t
  }

  /** The newest job of a service is open: provisioning is under way. */
  predicate UnderWay(jobs: seq<Job>, s: nat) { exists j | 0 <= j < |jobs| :: IsNewestOpen(jobs, s, j) }

  predicate WorkFor(works: seq<Work>, s: nat) { exists a | 0 <= a < |works| :: works[a].service == s }

  /** The service at `s` is the item's, in the status it should now have, and there is new
      work for it exactly if it is not active and its provisioning is not under way. */
  ghost predicate ItemPrepared(services: seq<Service>, jobs: seq<Job>, p: Prepared, item: Item, o: nat, now: nat,
                               s: nat) {
    && s < |p.services|
    && (if s < |services|
        then services[s].item == item.id
             && p.services[s] == services[s].(status := if services[s].status == ServiceActive then ServiceActive
                                 else ServiceProvisioning)
        else !HasService(services, item.id)
             && p.services[s] == Service(item.id, o, ServiceProvisioning, Some(ExpiryDate(item.cycle, now))))
    && (WorkFor(p.works, s) <==> p.services[s].status != ServiceActive && !UnderWay(jobs, s))
  }

  ghost predicate IsPrepared(services: seq<Service>, jobs: seq<Job>, p: Prepared, item: Item, o: nat, now: nat) {
    exists s: nat :: ItemPrepared(services, jobs, p, item, o, now, s)
  }

  /** One pending job with five attempts for each piece of work, in order, no two for one service. */
  ghost predicate NewJobs(jobs: seq<Job>, p: Prepared) {
    && jobs <= p.jobs && |p.jobs| == |jobs| + |p.works|
    && (forall a | 0 <= a < |p.works| ::
          && p.works[a].service < |p.services| && p.works[a].job == |jobs| + a
          && p.jobs[|jobs| + a] == Job(p.works[a].service, JobPending, 0, 5))
    && (forall a, b | 0 <= a < |p.works| && 0 <= b < |p.works| && p.works[a].service == p.works[b].service :: a == b)
  }

  /** Services and work belong to the items: everything else is as it was. */
  ghost predicate OnlyFor(services: seq<Service>, p: Prepared, items: seq<Item>) {
    && |services| <= |p.services| && OneServiceEach(p.services)
    && (forall s | 0 <= s < |services| :: p.services[s].item == services[s].item)
    && (forall s | 0 <= s < |services| && !HasItem(items, services[s].item) :: p.services[s] == services[s])
    && (forall s | |services| <= s < |p.services| :: HasItem(items, p.services[s].item))
    && (forall a | 0 <= a < |p.works| ::
          p.works[a].service < |p.services| && HasItem(items, p.services[p.works[a].service].item))
  }

  ghost predicate PreparedExactly(services: seq<Service>, jobs: seq<Job>, items: seq<Item>, o: nat, now: nat,
                                  p: Prepared) {
    && OnlyFor(services, p, items) && NewJobs(jobs, p)
    && forall i | 0 <= i < |items| :: IsPrepared(services, jobs, p, items[i], o, now)
  }

  /** Jobs of other services do not matter to whether a service's provisioning is under way. */
  lemma UnderWayKept(jobs: seq<Job>, more: seq<Job>, s: nat)
    requires jobs <= more && forall j | |jobs| <= j < |more| :: more[j].service != s
    ensures UnderWay(more, s) <==> UnderWay(jobs, s)
  {
    if UnderWay(jobs, s) {
      var j :| 0 <= j < |jobs| && IsNewestOpen(jobs, s, j);
      assert IsNewestOpen(more, s, j);
    }
    if UnderWay(more, s) {
      var j :| 0 <= j < |more| && IsNewestOpen(more, s, j);
      assert IsNewestOpen(jobs, s, j);
    }
  }

  /** q is p after one item: its service at s put or added, and a job if one is needed. */
  ghost predicate Advances(p: Prepared, q: Prepared, s: nat, service: Service, needed: bool) {
    && s <= |p.services|
    && q.services == (if s < |p.services| then p.services[s := service] else p.services + [service])
    && q.jobs == (if needed then p.jobs + [Job(s, JobPending, 0, 5)] else p.jobs)
    && q.works == (if needed then p.works + [Work(s, |p.jobs|)] else p.works)
  }

  lemma ItemAdvances(p: Prepared, item: Item, o: nat, now: nat) returns (s: nat, service: Service)
    ensures Advances(p, PrepareItem(p, item, o, now), s, service,
                     service.status != ServiceActive && !UnderWay(p.jobs, s))
    ensures if s < |p.services|
            then p.services[s].item == item.id
                 && service == p.services[s].(status := if p.services[s].status == ServiceActive then ServiceActive
                               else ServiceProvisioning)
            else !HasService(p.services, item.id)
                 && service == Service(item.id, o, ServiceProvisioning, Some(ExpiryDate(item.cycle, now)))
  {
    hide ExpiryDate, EnsureService, EnsureJob, IsNewestOpen;
    var (services, at) := EnsureService(p.services, item, o, now);
    TakenUp(p.services, item, o, now);
    s, service := at, services[at];
    JobAddedExactly(p.jobs, s);
    assert at < |p.services| ==> services == p.services[at := service];
  }

  lemma ServicesAdvance(services: seq<Service>, p: Prepared, q: Prepared, items: seq<Item>, item: Item, s: nat,
                        service: Service, needed: bool)
    requires OnlyFor(services, p, items) && Advances(p, q, s, service, needed) && service.item == item.id
    requires if s < |p.services| then p.services[s].item == item.id else !HasService(p.services, item.id)
    ensures OnlyFor(services, q, items + [item])
  {
    hide HasItem;
    ItemsGrow(items, item);
  }

  lemma ItemsGrow(items: seq<Item>, item: Item)
    ensures HasItem(items + [item], item.id)
    ensures forall id | HasItem(items, id) :: HasItem(items + [item], id)
    ensures forall id | HasItem(items + [item], id) :: HasItem(items, id) || id == item.id
  {
    var all := items + [item];
    assert all[|items|] == item;
    forall id | HasItem(items, id) ensures HasItem(all, id) {
      var i :| 0 <= i < |items| && items[i].id == id;
      assert all[i] == items[i];
    }
    forall id | HasItem(all, id) ensures HasItem(items, id) || id == item.id {
      var i :| 0 <= i < |all| && all[i].id == id;
      if i < |items| { assert items[i].id == id; }
    }
  }

  /** The service of an item that has not come before has no work yet, and is as it was. */
  lemma NotWorkedOn(services: seq<Service>, jobs: seq<Job>, p: Prepared, items: seq<Item>, item: Item, s: nat)
    requires OnlyFor(services, p, items) && NewJobs(jobs, p) && !HasItem(items, item.id)
    requires s < |p.services| ==> p.services[s].item == item.id
    ensures !WorkFor(p.works, s) && (UnderWay(p.jobs, s) <==> UnderWay(jobs, s))
    ensures s < |p.services| ==> s < |services| && p.services[s] == services[s]
  {
    forall j | |jobs| <= j < |p.jobs| ensures p.jobs[j].service != s {
      assert p.jobs[|jobs| + (j - |jobs|)].service == p.works[j - |jobs|].service;
    }
    UnderWayKept(jobs, p.jobs, s);
  }

  lemma JobsAdvance(jobs: seq<Job>, p: Prepared, q: Prepared, s: nat, service: Service, needed: bool)
    requires NewJobs(jobs, p) && Advances(p, q, s, service, needed) && !WorkFor(p.works, s)
    ensures NewJobs(jobs, q)
  {
  }

  /** Another item's service and work are not affected. */
  lemma OthersPrepared(services: seq<Service>, jobs: seq<Job>, p: Prepared, q: Prepared, item: Item, o: nat, now: nat,
                       s: nat, service: Service, needed: bool)
    requires IsPrepared(services, jobs, p, item, o, now) && Advances(p, q, s, service, needed)
    requires s < |p.services| ==> p.services[s].item != item.id
    ensures IsPrepared(services, jobs, q, item, o, now)
  {
    hide ExpiryDate, UnderWay, HasService;
    var t: nat :| ItemPrepared(services, jobs, p, item, o, now, t);
    assert t != s;
    assert WorkFor(q.works, t) <==> WorkFor(p.works, t) by { OtherWork(p.works, q.works, s, |p.jobs|, t); }
    assert ItemPrepared(services, jobs, q, item, o, now, t);
  }

  lemma OtherWork(works: seq<Work>, more: seq<Work>, s: nat, job: nat, t: nat)
    requires more == works || more == works + [Work(s, job)]
    ensures WorkFor(works, t) ==> WorkFor(more, t)
    ensures WorkFor(more, t) ==> WorkFor(works, t) || (t == s && more != works)
    ensures more == works + [Work(s, job)] ==> WorkFor(more, s)
  {
    if more != works { assert more[|works|] == Work(s, job); }
    if WorkFor(works, t) {
      var a :| 0 <= a < |works| && works[a].service == t;
      assert more[a].service == t;
    }
    if WorkFor(more, t) {
      var a :| 0 <= a < |more| && more[a].service == t;
      if a < |works| { assert works[a].service == t; }
    }
  }

  /** Preparing one more item, which has not come before. */
  lemma OneMorePrepared(services: seq<Service>, jobs: seq<Job>, items: seq<Item>, o: nat, now: nat, p: Prepared,
                        item: Item)
    requires PreparedExactly(services, jobs, items, o, now, p) && !HasItem(items, item.id)
    ensures PreparedExactly(services, jobs, items + [item], o, now, PrepareItem(p, item, o, now))
  {
    hide ExpiryDate, PrepareItem, UnderWay, WorkFor, OnlyFor, NewJobs, IsPrepared;
    var q := PrepareItem(p, item, o, now);
    var s, service := ItemAdvances(p, item, o, now);
    var needed := service.status != ServiceActive && !UnderWay(p.jobs, s);
    ServicesAdvance(services, p, q, items, item, s, service, needed);
    NotWorkedOn(services, jobs, p, items, item, s);
    JobsAdvance(jobs, p, q, s, service, needed);
    NewlyPrepared(services, jobs, p, q, items, item, o, now, s, service);
    forall i | 0 <= i < |items + [item]| ensures IsPrepared(services, jobs, q, (items + [item])[i], o, now) {
      if i < |items| {
        assert items[i].id != item.id by { assert !HasItem(items, item.id); }
        OthersPrepared(services, jobs, p, q, items[i], o, now, s, service, needed);
      }
    }
  }

  lemma NewlyPrepared(services: seq<Service>, jobs: seq<Job>, p: Prepared, q: Prepared, items: seq<Item>, item: Item,
                      o: nat, now: nat, s: nat, service: Service)
    requires OnlyFor(services, p, items) && !WorkFor(p.works, s) && (UnderWay(p.jobs, s) <==> UnderWay(jobs, s))
    requires Advances(p, q, s, service, service.status != ServiceActive && !UnderWay(p.jobs, s))
    requires if s < |p.services|
             then s < |services| && p.services[s] == services[s] && services[s].item == item.id
                  && service == services[s].(status := if services[s].status == ServiceActive then ServiceActive
                                else ServiceProvisioning)
             else !HasService(p.services, item.id)
                  && service == Service(item.id, o, ServiceProvisioning, Some(ExpiryDate(item.cycle, now)))
    ensures IsPrepared(services, jobs, q, item, o, now)
  {
    hide ExpiryDate, UnderWay, WorkFor;
    OtherWork(p.works, q.works, s, |p.jobs|, s);
    assert ItemPrepared(services, jobs, q, item, o, now, s);
  }

  /** Preparing an order's items, no two with one id, does exactly that. */
  lemma {:induction false} PrepareExactly(services: seq<Service>, jobs: seq<Job>, items: seq<Item>, o: nat, now: nat)
    requires DistinctIds(items) && OneServiceEach(services)
    ensures PreparedExactly(services, jobs, items, o, now, Prepare(services, jobs, items, o, now))
    decreases |items|
  {
    hide PreparedExactly, PrepareItem;
    if items == [] {
      NothingPreparedYet(services, jobs, o, now);
    } else {
      var n := |items| - 1;
      assert DistinctIds(items[..n]);
      PrepareExactly(services, jobs, items[..n], o, now);
      assert !HasItem(items[..n], items[n].id);
      OneMorePrepared(services, jobs, items[..n], o, now, Prepare(services, jobs, items[..n], o, now), items[n]);
      assert items[..n] + [items[n]] == items;
    }
  }

  lemma NothingPreparedYet(services: seq<Service>, jobs: seq<Job>, o: nat, now: nat)
    requires OneServiceEach(services)
    ensures PreparedExactly(services, jobs, [], o, now, Prepared(services, jobs, []))
  {
  }

  /** One task more for each accepted piece of work; for a refused one its job failed and
      its service, if it was being provisioned, put back; and nothing else. */
  ghost predicate EnqueuedExactly(p: Placed, works: seq<Work>, o: nat, refused: set<nat>, q: Placed) {
    && |q.services| == |p.services| && |q.jobs| == |p.jobs|
    && (forall s | 0 <= s < |p.services| ::
          q.services[s] == if s in refused && WorkFor(works, s) && p.services[s].status == ServiceProvisioning
          then p.services[s].(status := ServicePending) else p.services[s])
    && (forall j | 0 <= j < |p.jobs| ::
          q.jobs[j] == if RefusedJob(works, refused, j) then p.jobs[j].(status := JobFailed) else p.jobs[j])
    && (forall t :: q.queue[t] == p.queue[t] + if t.order == o && t.service !in refused && WorkFor(works, t.service)
                                  then 1 else 0)
    && (q.failed <==> p.failed || exists s: nat :: s in refused && WorkFor(works, s))
  }

  predicate RefusedJob(works: seq<Work>, refused: set<nat>, j: nat) {
    exists a | 0 <= a < |works| :: works[a].job == j && works[a].service in refused
  }

  lemma OneMoreEnqueued(p: Placed, works: seq<Work>, o: nat, refused: set<nat>, q: Placed, w: Work)
    requires EnqueuedExactly(p, works, o, refused, q) && !WorkFor(works, w.service)
    requires forall a | 0 <= a < |works| :: works[a].job != w.job
    ensures EnqueuedExactly(p, works + [w], o, refused, EnqueueOne(q, w, o, refused))
  {
    var more := works + [w];
    forall s: nat ensures WorkFor(more, s) <==> WorkFor(works, s) || s == w.service {
      OtherWork(works, more, w.service, w.job, s);
    }
    forall j: nat ensures RefusedJob(more, refused, j) <==>
                          RefusedJob(works, refused, j) || (j == w.job && w.service in refused) {
      OtherRefused(works, w, refused, j);
    }
    hide WorkFor, RefusedJob;
    var r := EnqueueOne(q, w, o, refused);
    forall t ensures r.queue[t] == p.queue[t] + if t.order == o && t.service !in refused && WorkFor(more, t.service)
                                   then 1 else 0 {
      assert t == Task(w.service, o) <==> t.service == w.service && t.order == o;
    }
    assert r.failed <==> q.failed || w.service in refused;
    assert WorkFor(more, w.service);
  }

  lemma OtherRefused(works: seq<Work>, w: Work, refused: set<nat>, j: nat)
    ensures RefusedJob(works + [w], refused, j)
       <==> (RefusedJob(works, refused, j) || (j == w.job && w.service in refused))
  {
    var more := works + [w];
    assert more[|works|] == w;
    if RefusedJob(works, refused, j) {
      var a :| 0 <= a < |works| && works[a].job == j && works[a].service in refused;
      assert more[a].job == j;
    }
    if RefusedJob(more, refused, j) {
      var a :| 0 <= a < |more| && more[a].job == j && more[a].service in refused;
      if a < |works| { assert works[a].job == j; }
    }
  }

  lemma {:induction false} EnqueueExactly(p: Placed, works: seq<Work>, o: nat, refused: set<nat>)
    requires forall a, b | 0 <= a < |works| && 0 <= b < |works| && a != b ::
               works[a].service != works[b].service && works[a].job != works[b].job
    ensures EnqueuedExactly(p, works, o, refused, EnqueueAll(p, works, o, refused))
    decreases |works|
  {
    hide EnqueuedExactly, EnqueueOne;
    if works == [] {
      NothingEnqueued(p, o, refused);
    } else {
      var n := |works| - 1;
      EnqueueExactly(p, works[..n], o, refused);
      OneMoreEnqueued(p, works[..n], o, refused, EnqueueAll(p, works[..n], o, refused), works[n]);
      assert works[..n] + [works[n]] == works;
    }
  }

  lemma NothingEnqueued(p: Placed, o: nat, refused: set<nat>)
    ensures EnqueuedExactly(p, [], o, refused, p)
  {
  }
}
