/** How many jobs of a service can be open while deliveries are split at their commits.
    Whole handlers keep it at one; a delivery that puts a service back after its enqueue
    was refused may undo what others have done in between. */
module OpenJobs {
  import opened Wrappers
  import opened Calendar
  import opened Tables
  import opened Orders
  import opened Checkout
  import opened Fulfilment
  import opened Payments
  import opened Operations
  import opened Ledger
  import opened Webhook
  import opened Scenarios

  /** An open job is its service's newest, and the service is being provisioned. */
  ghost predicate OneOpen(services: seq<Service>, jobs: seq<Job>) {
    forall j | 0 <= j < |jobs| ::
      && jobs[j].service < |services|
      && jobs[j].status != JobRunning
      && (jobs[j].status == JobPending ==>
            && (forall k | j < k < |jobs| :: jobs[k].service != jobs[j].service)
            && services[jobs[j].service].status == ServiceProvisioning)
  }

  ghost predicate AtMostOneOpen(jobs: seq<Job>) {
    forall i, j | 0 <= i < |jobs| && 0 <= j < |jobs| && IsOpen(jobs[i]) && IsOpen(jobs[j])
                  && jobs[i].service == jobs[j].service :: i == j
  }

  // ----- The job invariant without the queue -----

  /** A task for every service. */
  function AllTasks(services: seq<Service>): (queue: multiset<Task>)
    ensures forall s | 0 <= s < |services| :: Task(s, services[s].order) in queue
    ensures QueueOk(services, queue)
  {
    if services == [] then multiset{}
    else
      var n := |services| - 1;
      AllTasks(services[..n]) + multiset{Task(n, services[n].order)}
  }

  lemma WithAllTasks(services: seq<Service>, jobs: seq<Job>)
    requires OneOpen(services, jobs)
    ensures JobsOk(services, jobs, AllTasks(services), [])
  {
  }

  lemma WithoutTasks(services: seq<Service>, jobs: seq<Job>, queue: multiset<Task>, works: seq<Work>)
    requires JobsOk(services, jobs, queue, works)
    ensures OneOpen(services, jobs) && AtMostOneOpen(jobs)
  {
    forall j | 0 <= j < |jobs| && jobs[j].status == JobPending
      ensures forall k | j < k < |jobs| :: jobs[k].service != jobs[j].service
      ensures services[jobs[j].service].status == ServiceProvisioning
    {
      assert OpenJobOk(services, jobs, queue, works, j);
    }
  }

  lemma {:induction false} EnqueueIgnoresQueue(p: Placed, q: Placed, works: seq<Work>, o: nat, refused: set<nat>)
    requires p.services == q.services && p.jobs == q.jobs
    ensures var p', q' := EnqueueAll(p, works, o, refused), EnqueueAll(q, works, o, refused);
            p'.services == q'.services && p'.jobs == q'.jobs
    decreases |works|
  {
    if works != [] { EnqueueIgnoresQueue(p, q, works[..|works| - 1], o, refused); }
  }

  lemma SettleIgnoresQueue(db: Db, queue: multiset<Task>, e: Completed, now: nat)
    ensures var (a, b) := (Settle(db, e, now), Settle(db.(queue := queue), e, now));
            && (a.Some? <==> b.Some?)
            && (a.Some? ==> b.value == (a.value.0.(queue := queue), a.value.1))
  {
    hide NumericIn, Prepare, RecordPayment, Checkout.CreateInvoice;
  }

  /** What a step does to services and jobs does not depend on the queue, except that a
      task must be in it to run. */
  lemma StepIgnoresQueue(db: Db, queue: multiset<Task>, step: Step)
    requires step.RunTask? ==> step.task in db.queue && step.task in queue
    ensures var a, b := Apply(db, step), Apply(db.(queue := queue), step);
            a.services == b.services && a.jobs == b.jobs
  {
    hide ProcessCompleted, Sweep, Attempted, SetStatus, SetService, NumericIn;
    match step {
      case SessionCompleted(e, now, refused) => ProcessIgnoresQueue(db, queue, e, now, refused);
      case ProvisionByAdmin(_, _) =>
      case RunTask(_, _, _) =>
      case ExpireDue(_, _) =>
      case _ =>
        OthersLeaveJobs(db, step);
        OthersLeaveJobs(db.(queue := queue), step);
    }
  }

  lemma ProcessIgnoresQueue(db: Db, queue: multiset<Task>, e: Completed, now: nat, refused: set<nat>)
    ensures var a := ProcessCompleted(db, e, now, refused).0;
            var b := ProcessCompleted(db.(queue := queue), e, now, refused).0;
            a.services == b.services && a.jobs == b.jobs
  {
    hide Settle, EnqueueAll;
    SettleIgnoresQueue(db, queue, e, now);
    if Settle(db, e, now).Some? {
      var (settled, works) := Settle(db, e, now).value;
      EnqueueIgnoresQueue(Placed(settled.services, settled.jobs, settled.queue, false),
                          Placed(settled.services, settled.jobs, queue, false), works, e.order.value, refused);
    }
  }

  lemma FullQueueBilling(db: Db)
    requires BillingOk(db)
    ensures BillingOk(db.(queue := AllTasks(db.services)))
  {
    hide AllTasks, OrdersOk, SessionsOk, InvoicesOk, ServicesOk, QueueOk, IntentsUnique;
    var after := db.(queue := AllTasks(db.services));
    assert OrdersOk(db) ==> OrdersOk(after) by { SameOrders(db, after); }
  }

  lemma SameOrders(db: Db, after: Db)
    requires after.orders == db.orders && after.nextItem == db.nextItem
    ensures OrdersOk(db) ==> OrdersOk(after)
  {
  }

  /** Every whole handler keeps the jobs in order. */
  lemma StepKeepsOneOpen(db: Db, step: Step)
    requires BillingOk(db) && OneOpen(db.services, db.jobs)
    ensures OneOpen(Apply(db, step).services, Apply(db, step).jobs)
  {
    hide BillingOk, Apply, OneOpen, JobsOk, AllTasks;
    if step.RunTask? && step.task !in db.queue {
      NoTaskNoRun(db, step);
    } else {
      var full := db.(queue := AllTasks(db.services));
      FullQueueBilling(db);
      WithAllTasks(db.services, db.jobs);
      if step.RunTask? { QueuedIsListed(db, step.task); }
      StepIgnoresQueue(db, full.queue, step);
      StepKeepsJobs(full, step);
      WithoutTasks(Apply(full, step).services, Apply(full, step).jobs, Apply(full, step).queue, []);
    }
  }

  lemma NoTaskNoRun(db: Db, step: Step)
    requires step.RunTask? && step.task !in db.queue
    ensures Apply(db, step) == db
  {
  }

  lemma QueuedIsListed(db: Db, t: Task)
    requires BillingOk(db) && t in db.queue
    ensures t in AllTasks(db.services)
  {
    assert t == Task(t.service, db.services[t.service].order);
  }

  // ----- The parts of a delivery -----

  lemma TransactKeepsOneOpen(db: Db, body: Body, now: nat)
    requires BillingOk(db) && OneOpen(db.services, db.jobs)
    ensures var after := Transact(db, body, now).0; OneOpen(after.services, after.jobs)
  {
    hide BillingOk, OneOpen, JobsOk, WorksOk, AllTasks, Settle, NumericIn;
    if body.SessionDone? && Settle(db, body.completed, now).Some? {
      var full := db.(queue := AllTasks(db.services));
      FullQueueBilling(db);
      WithAllTasks(db.services, db.jobs);
      SettleIgnoresQueue(db, full.queue, body.completed, now);
      SettleKeepsJobs(full, body.completed, now);
      var (settled, works) := Settle(full, body.completed, now).value;
      WithoutTasks(settled.services, settled.jobs, settled.queue, works);
    }
  }

  lemma EnqueueStepKeepsOneOpen(db: Db, stage: Stage, accepted: bool)
    requires OneOpen(db.services, db.jobs) && stage.Enqueuing?
    ensures var after := EnqueueStep(db, stage, accepted).0; OneOpen(after.services, after.jobs)
  {
  }

  predicate HasOpenJob(jobs: seq<Job>, s: nat) { exists j | 0 <= j < |jobs| :: jobs[j].service == s && IsOpen(jobs[j]) }

  /** Putting a service back is harmless exactly if it has no open job by then. */
  lemma PutBackExactly(services: seq<Service>, jobs: seq<Job>, s: nat)
    requires OneOpen(services, jobs)
    ensures OneOpen(PutBackService(services, s), jobs) <==> !HasOpenJob(jobs, s)
  {
    if HasOpenJob(jobs, s) {
      var j :| 0 <= j < |jobs| && jobs[j].service == s && IsOpen(jobs[j]);
      assert services[s].status == ServiceProvisioning;
      assert PutBackService(services, s)[s].status == ServicePending;
    }
  }

  /** Otherwise an administrator can open a second one right away. */
  lemma SecondOpens(db: Db, s: nat)
    requires OneOpen(db.services, db.jobs) && HasOpenJob(db.jobs, s)
    ensures var putBack := db.(services := PutBackService(db.services, s));
            !AtMostOneOpen(Apply(putBack, ProvisionByAdmin(s, true)).jobs)
  {
    var j :| 0 <= j < |db.jobs| && db.jobs[j].service == s && IsOpen(db.jobs[j]);
    var putBack := db.(services := PutBackService(db.services, s));
    assert db.services[s].status == ServiceProvisioning && putBack.services[s].status == ServicePending;
    var after := Apply(putBack, ProvisionByAdmin(s, true)).jobs;
    assert after == db.jobs + [Job(s, JobPending, 0, 3)];
    assert after[j] == db.jobs[j] && after[|db.jobs|].service == s;
  }

  /** Putting a service back is safe, whatever handler runs next, exactly if it has no
      open job by then. */
  lemma PutBackSafe(db: Db, s: nat)
    requires BillingOk(db) && OneOpen(db.services, db.jobs)
    ensures var putBack := db.(services := PutBackService(db.services, s));
            (forall step :: AtMostOneOpen(Apply(putBack, step).jobs)) <==> !HasOpenJob(db.jobs, s)
  {
    hide BillingOk, OneOpen, AtMostOneOpen, Apply, HasOpenJob, PutBackService, Grows;
    var putBack := db.(services := PutBackService(db.services, s));
    if HasOpenJob(db.jobs, s) {
      SecondOpens(db, s);
    } else {
      PutBackExactly(db.services, db.jobs, s);
      PutBackKeeps(db, s);
      forall step ensures AtMostOneOpen(Apply(putBack, step).jobs) {
        StepKeepsOneOpen(putBack, step);
        OpenAreNewest(Apply(putBack, step).services, Apply(putBack, step).jobs);
      }
    }
  }

  // ----- Interleavings -----

  /** The action does not put back a service that has an open job. */
  predicate Harmless(s: System, a: Action) {
    a.PutBack? && a.flight < |s.flights| && s.flights[a.flight].stage.PuttingBack? ==>
      !HasOpenJob(s.db.jobs, s.flights[a.flight].stage.service)
  }

  lemma ActKeepsOneOpen(s: System, a: Action)
    requires BillingOk(s.db) && OneOpen(s.db.services, s.db.jobs) && Harmless(s, a)
    ensures OneOpen(Act(s, a).db.services, Act(s, a).db.jobs)
  {
    hide BillingOk, OneOpen, Apply, Transact, EnqueueStep, PutBackService, HasOpenJob;
    match a {
      case Commit(f, now) =>
        if f < |s.flights| { TransactKeepsOneOpen(s.db, s.flights[f].event.body, now); }
      case EnqueueNext(f, accepted) =>
        if f < |s.flights| && s.flights[f].stage.Enqueuing? {
          EnqueueStepKeepsOneOpen(s.db, s.flights[f].stage, accepted);
        }
      case PutBack(f) =>
        if f < |s.flights| && s.flights[f].stage.PuttingBack? {
          PutBackExactly(s.db.services, s.db.jobs, s.flights[f].stage.service);
        }
      case Meanwhile(step) => StepKeepsOneOpen(s.db, step);
      case Receive(_) =>
      case Finish(_, _) =>
    }
  }

  lemma {:induction false} InterleavingKeepsOneOpen(states: seq<System>, actions: seq<Action>, k: nat)
    requires IsInterleaving(states, actions) && k < |states|
    requires forall i | 0 <= i < |actions| :: Harmless(states[i], actions[i])
    ensures OneOpen(states[k].db.services, states[k].db.jobs)
    decreases k
  {
    hide Act, BillingOk, Harmless;
    if k > 0 {
      InterleavingKeepsOneOpen(states, actions, k - 1);
      InterleavingKeepsBilling(states, actions, k - 1);
      ActKeepsOneOpen(states[k - 1], actions[k - 1]);
    }
  }

  /** With deliveries split and interleaved, each service still has at most one open job,
      its newest, as long as no delivery puts back a service that has an open job by then. */
  lemma SplitOneOpenJob(states: seq<System>, actions: seq<Action>, k: nat)
    requires IsInterleaving(states, actions) && k < |states|
    requires forall i | 0 <= i < |actions| :: Harmless(states[i], actions[i])
    ensures AtMostOneOpen(states[k].db.jobs)
    ensures forall j | 0 <= j < |states[k].db.jobs| && IsOpen(states[k].db.jobs[j]) ::
              NewestJob(states[k].db.jobs, states[k].db.jobs[j].service) == Some(j)
  {
    hide Harmless, IsInterleaving;
    InterleavingKeepsOneOpen(states, actions, k);
    OpenAreNewest(states[k].db.services, states[k].db.jobs);
  }

  lemma OpenAreNewest(services: seq<Service>, jobs: seq<Job>)
    requires OneOpen(services, jobs)
    ensures AtMostOneOpen(jobs)
    ensures forall j | 0 <= j < |jobs| && IsOpen(jobs[j]) :: NewestJob(jobs, jobs[j].service) == Some(j)
  {
  }

  // ----- Tasks while deliveries are split -----

  /** A delivery in flight still has to enqueue this work. */
  predicate Waits(stage: Stage, w: Work) {
    (stage.Enqueuing? || stage.PuttingBack?) && w in stage.works
  }

  ghost predicate HasWork(flights: seq<Flight>, w: Work) {
    exists f | 0 <= f < |flights| :: Waits(flights[f].stage, w)
  }

  ghost predicate CoveredJob(services: seq<Service>, queue: multiset<Task>, flights: seq<Flight>, s: nat, j: nat) {
    (s < |services| && Task(s, services[s].order) in queue) || HasWork(flights, Work(s, j))
  }

  /** Every pending job has its task queued, or is among the work of a delivery in flight. */
  ghost predicate Covered(services: seq<Service>, jobs: seq<Job>, queue: multiset<Task>, flights: seq<Flight>) {
    forall j | 0 <= j < |jobs| && jobs[j].status == JobPending ::
      CoveredJob(services, queue, flights, jobs[j].service, j)
  }

  /** Jobs that a delivery adds are all in its work. */
  lemma {:induction false} NewJobsHaveWork(services: seq<Service>, jobs: seq<Job>, items: seq<Item>, o: nat, now: nat)
    ensures var p := Prepare(services, jobs, items, o, now);
            jobs <= p.jobs && forall j | |jobs| <= j < |p.jobs| :: Work(p.jobs[j].service, j) in p.works
    decreases |items|
  {
    if items != [] {
      var n := |items| - 1;
      NewJobsHaveWork(services, jobs, items[..n], o, now);
      ItemHasWork(Prepare(services, jobs, items[..n], o, now), items[n], o, now);
    }
  }

  lemma ItemHasWork(p: Prepared, item: Item, o: nat, now: nat)
    ensures var q := PrepareItem(p, item, o, now);
            p.jobs <= q.jobs && (forall w | w in p.works :: w in q.works)
            && forall j | |p.jobs| <= j < |q.jobs| :: Work(q.jobs[j].service, j) in q.works
  {
    hide EnsureService, ExpiryDate;
  }

  /** Only the jobs of these works can change, and a task that is queued stays queued. */
  lemma {:induction false} EnqueuedOrClosed(p: Placed, works: seq<Work>, o: nat, refused: set<nat>)
    ensures var q := EnqueueAll(p, works, o, refused);
            && |q.jobs| == |p.jobs| && p.queue <= q.queue
            && (forall j | 0 <= j < |p.jobs| && q.jobs[j].status == JobPending :: q.jobs[j] == p.jobs[j])
            && (forall w | w in works && w.job < |q.jobs| && q.jobs[w.job].status == JobPending ::
                  Task(w.service, o) in q.queue)
    decreases |works|
  {
    hide EnqueueOne;
    if works != [] {
      var n := |works| - 1;
      var q := EnqueueAll(p, works[..n], o, refused);
      EnqueuedOrClosed(p, works[..n], o, refused);
      OneEnqueuedOrClosed(q, works[n], o, refused);
      assert works == works[..n] + [works[n]];
    }
  }

  lemma OneEnqueuedOrClosed(p: Placed, w: Work, o: nat, refused: set<nat>)
    ensures var q := EnqueueOne(p, w, o, refused);
            && |q.jobs| == |p.jobs| && p.queue <= q.queue
            && (forall j | 0 <= j < |p.jobs| && q.jobs[j].status == JobPending :: q.jobs[j] == p.jobs[j])
            && (w.job < |q.jobs| && q.jobs[w.job].status == JobPending ==> Task(w.service, o) in q.queue)
  {
  }

  /** Services keep their orders, jobs and queue only gain. */
  lemma CoveredFrame(services: seq<Service>, jobs: seq<Job>, queue: multiset<Task>, flights: seq<Flight>,
                     services': seq<Service>, jobs': seq<Job>, queue': multiset<Task>, flights': seq<Flight>)
    requires Covered(services, jobs, queue, flights) && ServicesKept(services, services') && queue <= queue'
    requires forall w | HasWork(flights, w) :: HasWork(flights', w) || Taken(services', jobs', queue', w)
    requires forall j | 0 <= j < |jobs'| && jobs'[j].status == JobPending ::
               (j < |jobs| && jobs'[j] == jobs[j]) || CoveredJob(services', queue', flights', jobs'[j].service, j)
    ensures Covered(services', jobs', queue', flights')
  {
    forall j | 0 <= j < |jobs'| && jobs'[j].status == JobPending
      ensures CoveredJob(services', queue', flights', jobs'[j].service, j)
    {
      if j < |jobs| && jobs'[j] == jobs[j] {
        assert CoveredJob(services, queue, flights, jobs[j].service, j);
        var s := jobs[j].service;
        if s < |services| && Task(s, services[s].order) in queue {
          assert services'[s].order == services[s].order;
        } else {
          assert HasWork(flights, Work(s, j));
        }
      }
    }
  }

  /** The work is done: its task is queued, or its job is no longer pending. */
  predicate Taken(services: seq<Service>, jobs: seq<Job>, queue: multiset<Task>, w: Work) {
    || (w.service < |services| && Task(w.service, services[w.service].order) in queue)
    || !(w.job < |jobs| && jobs[w.job].status == JobPending)
  }

  /** A flight moves on to a stage that still has the work it had, or has done it. */
  lemma WorkMoves(flights: seq<Flight>, f: nat, stage: Stage, w: Work)
    requires f < |flights| && HasWork(flights, w)
    ensures HasWork(flights[f := flights[f].(stage := stage)], w) || Waits(flights[f].stage, w)
  {
    var g :| 0 <= g < |flights| && Waits(flights[g].stage, w);
    if g != f { assert Waits(flights[f := flights[f].(stage := stage)][g].stage, w); }
  }

  // ----- Each action keeps jobs covered -----

  /** A whole delivery queues or closes the jobs it adds. */
  lemma ProcessKeepsCovered(db: Db, e: Completed, now: nat, refused: set<nat>, flights: seq<Flight>)
    requires BillingOk(db) && Covered(db.services, db.jobs, db.queue, flights)
    ensures var after := ProcessCompleted(db, e, now, refused).0;
            Covered(after.services, after.jobs, after.queue, flights)
  {
    hide OrdersOk, SessionsOk, InvoicesOk, ServicesOk, QueueOk, IntentsUnique, Settle, Covered, EnqueueAll, Prepare;
    if Settle(db, e, now).Some? {
      var (settled, works) := Settle(db, e, now).value;
      var o := e.order.value;
      SettleKeeps(db, e, now);
      SettledTables(db, e, now);
      SettledQueue(db, e, now);
      NewJobsHaveWork(db.services, db.jobs, db.orders[o].items, o, now);
      EnqueueFrame(settled, works, o, refused);
      EnqueuedOrClosed(Placed(settled.services, settled.jobs, settled.queue, false), works, o, refused);
      var after := ProcessCompleted(db, e, now, refused).0;
      ServicesKeptTransitive(db.services, settled.services, after.services);
      forall j | 0 <= j < |after.jobs| && after.jobs[j].status == JobPending
        ensures (j < |db.jobs| && after.jobs[j] == db.jobs[j])
                || CoveredJob(after.services, after.queue, flights, after.jobs[j].service, j)
      {
        if j >= |db.jobs| {
          var w := Work(after.jobs[j].service, j);
          assert w in works;
          WorkInOrder(settled.services, works, o, w);
          assert after.services[w.service].order == o;
        }
      }
      CoveredFrame(db.services, db.jobs, db.queue, flights, after.services, after.jobs, after.queue, flights);
    }
  }

  lemma WorkInOrder(services: seq<Service>, works: seq<Work>, o: nat, w: Work)
    requires WorksIn(services, works, o) && w in works
    ensures w.service < |services| && services[w.service].order == o
  {
  }

  lemma SettledQueue(db: Db, e: Completed, now: nat)
    requires Settle(db, e, now).Some?
    ensures Settle(db, e, now).value.0.queue == db.queue
  {
    hide NumericIn, Prepare, RecordPayment, Checkout.CreateInvoice;
  }

  lemma ProvisionKeepsCovered(db: Db, s: nat, enqueueOk: bool, flights: seq<Flight>)
    requires Covered(db.services, db.jobs, db.queue, flights)
    ensures var after := AdminProvision(db, s, enqueueOk).0;
            Covered(after.services, after.jobs, after.queue, flights)
  {
    if s < |db.services| && Provisionable(db.services[s].status) {
      AdminProvisionEffect(db, s, enqueueOk);
      hide AdminProvision, Covered, HasWork;
      var after := AdminProvision(db, s, enqueueOk).0;
      assert |after.jobs| == |db.jobs| + 1 && after.jobs[..|db.jobs|] == db.jobs;
      CoveredFrame(db.services, db.jobs, db.queue, flights, after.services, after.jobs, after.queue, flights);
    }
  }

  /** A run closes its service's only open job, so that no open job misses what left the queue. */
  lemma RunKeepsCovered(db: Db, t: Task, success: bool, ack: bool, flights: seq<Flight>)
    requires OneOpen(db.services, db.jobs) && Covered(db.services, db.jobs, db.queue, flights)
    ensures var after := WorkerRun(db, t, success, ack);
            Covered(after.services, after.jobs, after.queue, flights)
  {
    hide HasWork;
    if t in db.queue {
      var after := WorkerRun(db, t, success, ack);
      forall j | 0 <= j < |after.jobs| && after.jobs[j].status == JobPending
        ensures CoveredJob(after.services, after.queue, flights, after.jobs[j].service, j)
      {
        OtherService(db, t, success, ack, j);
        assert CoveredJob(db.services, db.queue, flights, db.jobs[j].service, j);
      }
    }
  }

  lemma OtherService(db: Db, t: Task, success: bool, ack: bool, j: nat)
    requires OneOpen(db.services, db.jobs) && t in db.queue
    requires j < |db.jobs| && WorkerRun(db, t, success, ack).jobs[j].status == JobPending
    ensures WorkerRun(db, t, success, ack).jobs[j] == db.jobs[j] && db.jobs[j].service != t.service
  {
    var newest := NewestJob(db.jobs, t.service);
    assert newest.Some? ==> newest.value != j;
  }

  lemma SweepKeepsCovered(db: Db, now: int, rechecks: nat -> Recheck, flights: seq<Flight>)
    requires Covered(db.services, db.jobs, db.queue, flights)
    ensures Covered(Sweep(db.services, now, rechecks), db.jobs, db.queue, flights)
  {
    ExpireEachAt(db.services, Due(db.services, now), rechecks);
    assert ServicesKept(db.services, Sweep(db.services, now, rechecks));
    hide Sweep, Covered, HasWork;
    var after := Sweep(db.services, now, rechecks);
    CoveredFrame(db.services, db.jobs, db.queue, flights, after, db.jobs, db.queue, flights);
  }

  lemma StepKeepsCovered(db: Db, step: Step, flights: seq<Flight>)
    requires BillingOk(db) && OneOpen(db.services, db.jobs) && Covered(db.services, db.jobs, db.queue, flights)
    ensures var after := Apply(db, step); Covered(after.services, after.jobs, after.queue, flights)
  {
    hide BillingOk, OneOpen, Covered, ProcessCompleted, AdminProvision, WorkerRun, Sweep;
    match step {
      case SessionCompleted(e, now, refused) => ProcessKeepsCovered(db, e, now, refused, flights);
      case ProvisionByAdmin(s, enqueueOk) => ProvisionKeepsCovered(db, s, enqueueOk, flights);
      case RunTask(t, success, ack) => RunKeepsCovered(db, t, success, ack, flights);
      case ExpireDue(now, rechecks) => SweepKeepsCovered(db, now, rechecks, flights);
      case _ => OthersLeaveJobs(db, step);
    }
  }

  /** The jobs a transaction adds are in the work of its own delivery. */
  lemma CommitKeepsCovered(db: Db, flights: seq<Flight>, f: nat, now: nat)
    requires BillingOk(db) && Covered(db.services, db.jobs, db.queue, flights)
    requires f < |flights| && flights[f].stage.Received?
    ensures var (after, stage) := Transact(db, flights[f].event.body, now);
            Covered(after.services, after.jobs, after.queue, flights[f := flights[f].(stage := stage)])
  {
    hide OrdersOk, SessionsOk, InvoicesOk, ServicesOk, QueueOk, IntentsUnique, Settle, Covered, Prepare, HasWork;
    hide NumericIn;
    var body := flights[f].event.body;
    var (after, stage) := Transact(db, body, now);
    var flights' := flights[f := flights[f].(stage := stage)];
    forall w | HasWork(flights, w) ensures HasWork(flights', w) {
      WorkMoves(flights, f, stage, w);
    }
    if body.SessionDone? && Settle(db, body.completed, now).Some? {
      var e := body.completed;
      SettleKeeps(db, e, now);
      SettledTables(db, e, now);
      SettledQueue(db, e, now);
      NewJobsHaveWork(db.services, db.jobs, db.orders[e.order.value].items, e.order.value, now);
      forall j | |db.jobs| <= j < |after.jobs| ensures HasWork(flights', Work(after.jobs[j].service, j)) {
        WorkThere(flights', f, Work(after.jobs[j].service, j));
      }
    } else {
      assert after.services == db.services && after.jobs == db.jobs && after.queue == db.queue;
    }
    CoveredFrame(db.services, db.jobs, db.queue, flights, after.services, after.jobs, after.queue, flights');
  }

  lemma WorkThere(flights: seq<Flight>, f: nat, w: Work)
    requires f < |flights| && Waits(flights[f].stage, w)
    ensures HasWork(flights, w)
  {
  }

  lemma EnqueueKeepsCovered(db: Db, flights: seq<Flight>, f: nat, accepted: bool)
    requires Covered(db.services, db.jobs, db.queue, flights) && FlightsOk(db.services, flights)
    requires f < |flights| && flights[f].stage.Enqueuing?
    ensures var (after, stage) := EnqueueStep(db, flights[f].stage, accepted);
            Covered(after.services, after.jobs, after.queue, flights[f := flights[f].(stage := stage)])
  {
    hide Covered, HasWork, FlightsOk;
    var works := flights[f].stage.works;
    var (after, stage) := EnqueueStep(db, flights[f].stage, accepted);
    var flights' := flights[f := flights[f].(stage := stage)];
    FlightOk(db.services, flights, f);
    forall w | HasWork(flights, w) ensures HasWork(flights', w) || Taken(after.services, after.jobs, after.queue, w) {
      WorkMoves(flights, f, stage, w);
      if Waits(flights[f].stage, w) {
        WorkInOrder(db.services, works, flights[f].stage.order, w);
        if w != works[0] {
          assert works == [works[0]] + works[1..];
          WorkThere(flights', f, w);
        }
      }
    }
    CoveredByTaken(db, after, flights, flights');
  }

  /** Jobs can only have been closed. */
  lemma CoveredByTaken(db: Db, after: Db, flights: seq<Flight>, flights': seq<Flight>)
    requires Covered(db.services, db.jobs, db.queue, flights)
    requires after.services == db.services && |after.jobs| == |db.jobs| && db.queue <= after.queue
    requires forall j | 0 <= j < |after.jobs| && after.jobs[j].status == JobPending :: after.jobs[j] == db.jobs[j]
    requires forall w | HasWork(flights, w) :: HasWork(flights', w) || Taken(after.services, after.jobs, after.queue, w)
    ensures Covered(after.services, after.jobs, after.queue, flights')
  {
    hide Covered, HasWork;
    CoveredFrame(db.services, db.jobs, db.queue, flights, after.services, after.jobs, after.queue, flights');
  }

  /** Stages whose work is the same cover the same jobs. */
  lemma SameWork(services: seq<Service>, services': seq<Service>, jobs: seq<Job>, queue: multiset<Task>,
                 flights: seq<Flight>, f: nat, stage: Stage)
    requires Covered(services, jobs, queue, flights) && ServicesKept(services, services') && f < |flights|
    requires forall w | Waits(flights[f].stage, w) :: Waits(stage, w)
    ensures Covered(services', jobs, queue, flights[f := flights[f].(stage := stage)])
  {
    hide Covered, HasWork;
    var flights' := flights[f := flights[f].(stage := stage)];
    forall w | HasWork(flights, w) ensures HasWork(flights', w) {
      WorkMoves(flights, f, stage, w);
      if Waits(flights[f].stage, w) { WorkThere(flights', f, w); }
    }
    CoveredFrame(services, jobs, queue, flights, services', jobs, queue, flights');
  }

  lemma ReceiveKeepsCovered(db: Db, flights: seq<Flight>, event: Event)
    requires Covered(db.services, db.jobs, db.queue, flights)
    ensures Covered(db.services, db.jobs, db.queue, flights + [Flight(event, Received)])
  {
    hide Covered, HasWork;
    var after := flights + [Flight(event, Received)];
    forall w | HasWork(flights, w) ensures HasWork(after, w) {
      WorkBefore(flights, Flight(event, Received), w);
    }
    CoveredFrame(db.services, db.jobs, db.queue, flights, db.services, db.jobs, db.queue, after);
  }

  lemma WorkBefore(flights: seq<Flight>, added: Flight, w: Work)
    requires HasWork(flights, w)
    ensures HasWork(flights + [added], w)
  {
    var g :| 0 <= g < |flights| && Waits(flights[g].stage, w);
    assert Waits((flights + [added])[g].stage, w);
  }

  lemma ActKeepsCovered(s: System, a: Action)
    requires BillingOk(s.db) && FlightsOk(s.db.services, s.flights) && OneOpen(s.db.services, s.db.jobs)
    requires Covered(s.db.services, s.db.jobs, s.db.queue, s.flights)
    ensures var t := Act(s, a); Covered(t.db.services, t.db.jobs, t.db.queue, t.flights)
  {
    hide BillingOk, FlightsOk, OneOpen, Covered, Apply, Transact, EnqueueStep, PutBackService;
    match a {
      case Receive(event) => ReceiveKeepsCovered(s.db, s.flights, event);
      case Commit(f, now) =>
        if f < |s.flights| && s.flights[f].stage.Received? { CommitKeepsCovered(s.db, s.flights, f, now); }
      case EnqueueNext(f, accepted) =>
        if f < |s.flights| && s.flights[f].stage.Enqueuing? { EnqueueKeepsCovered(s.db, s.flights, f, accepted); }
      case PutBack(f) =>
        if f < |s.flights| && s.flights[f].stage.PuttingBack? {
          var PuttingBack(o, service, works) := s.flights[f].stage;
          ServicesPutBack(s.db.services, service);
          SameWork(s.db.services, PutBackService(s.db.services, service), s.db.jobs, s.db.queue, s.flights, f,
                   Enqueuing(o, works, true));
        }
      case Finish(f, _) =>
        if f < |s.flights| && s.flights[f].stage.Processed? {
          ServicesSame(s.db.services);
          SameWork(s.db.services, s.db.services, s.db.jobs, s.db.queue, s.flights, f, Done);
        }
      case Meanwhile(step) => StepKeepsCovered(s.db, step, s.flights);
    }
  }

  lemma ServicesPutBack(services: seq<Service>, s: nat)
    ensures ServicesKept(services, PutBackService(services, s))
  {
  }

  lemma ServicesSame(services: seq<Service>)
    ensures ServicesKept(services, services)
  {
  }

  lemma {:induction false} InterleavingCovered(states: seq<System>, actions: seq<Action>, k: nat)
    requires IsInterleaving(states, actions) && k < |states|
    requires forall i | 0 <= i < |actions| :: Harmless(states[i], actions[i])
    ensures Covered(states[k].db.services, states[k].db.jobs, states[k].db.queue, states[k].flights)
    decreases k
  {
    hide Act, BillingOk, FlightsOk, OneOpen, Harmless;
    if k > 0 {
      InterleavingCovered(states, actions, k - 1);
      InterleavingKeepsBilling(states, actions, k - 1);
      InterleavingKeepsOneOpen(states, actions, k - 1);
      ActKeepsCovered(states[k - 1], actions[k - 1]);
    }
  }

  /** Under the same condition every open job has its task queued, or some delivery in
      flight has yet to enqueue it. */
  lemma SplitJobsCovered(states: seq<System>, actions: seq<Action>, k: nat, j: nat)
    requires IsInterleaving(states, actions) && k < |states|
    requires forall i | 0 <= i < |actions| :: Harmless(states[i], actions[i])
    requires j < |states[k].db.jobs| && IsOpen(states[k].db.jobs[j])
    ensures var s := states[k];
            var v := s.db.jobs[j].service;
            && v < |s.db.services| && s.db.services[v].status == ServiceProvisioning
            && (Task(v, s.db.services[v].order) in s.db.queue || HasWork(s.flights, Work(v, j)))
  {
    hide Harmless, IsInterleaving, HasWork;
    InterleavingKeepsOneOpen(states, actions, k);
    InterleavingCovered(states, actions, k);
    assert states[k].db.jobs[j].status == JobPending;
    assert CoveredJob(states[k].db.services, states[k].db.queue, states[k].flights, states[k].db.jobs[j].service, j);
  }

  // ----- An interleaving with two -----

  lemma Further(states: seq<System>, actions: seq<Action>, a: Action)
    returns (states': seq<System>, actions': seq<Action>)
    requires IsInterleaving(states, actions)
    ensures IsInterleaving(states', actions') && |states'| == |actions'| + 1 && actions' == actions + [a]
    ensures states' == states + [Act(states[|actions|], a)]
  {
    hide Act;
    states', actions' := states + [Act(states[|actions|], a)], actions + [a];
    forall k | 0 <= k < |actions'| ensures states'[k + 1] == Act(states'[k], actions'[k]) {
      if k < |actions| { assert states'[k] == states[k] && states'[k + 1] == states[k + 1]; }
    }
  }

  /** What a transaction does to services and jobs. */
  lemma SettledTables(db: Db, e: Completed, now: nat)
    requires Settle(db, e, now).Some?
    ensures var (after, works) := Settle(db, e, now).value;
            var p := Prepare(db.services, db.jobs, db.orders[e.order.value].items, e.order.value, now);
            after.services == p.services && after.jobs == p.jobs && works == p.works
  {
    hide NumericIn, Prepare, RecordPayment, Checkout.CreateInvoice;
  }

  function PaidEvent(id: nat): Event { Event(id, SessionDone(Paying(0, None).event)) }

  /** The shop's one order is delivered paid twice, and the first delivery has come to
      putting its service back when the second commits. */
  lemma CommitInShop(db: Db)
    requires BillingOk(db) && Grows(Shop(1), db)
    ensures var (after, stage) := Transact(db, PaidEvent(0).body, 0);
            var p := PrepareItem(Prepared(db.services, db.jobs, []), ShopItem(0), 0, 0);
            stage == Enqueuing(0, p.works, false) && after.services == p.services && after.jobs == p.jobs
  {
    hide Settle, BillingOk, PrepareItem;
    var e := Paying(0, None).event;
    PayingCommits(1, db, 0, None);
    SettledTables(db, e, 0);
    assert Shop(1).orders[0] == ShopOrder(0) && db.orders[0].items == [ShopItem(0)];
    assert [ShopItem(0)][..0] == [];
    assert Prepare(db.services, db.jobs, [ShopItem(0)][..0], 0, 0) == Prepared(db.services, db.jobs, []);
  }

  function NewService(): Service { Service(0, 0, ServiceProvisioning, Some(ExpiryDate(Monthly, 0))) }

  lemma FirstPrepared()
    ensures PrepareItem(Prepared([], [], []), ShopItem(0), 0, 0)
         == Prepared([NewService()], [Job(0, JobPending, 0, 5)], [Work(0, 0)])
  {
    hide ExpiryDate;
    assert [] + [NewService()] == [NewService()];
  }

  lemma SecondPrepared()
    ensures PrepareItem(Prepared([NewService()], [Job(0, JobFailed, 0, 5)], []), ShopItem(0), 0, 0)
         == Prepared([NewService()], [Job(0, JobFailed, 0, 5), Job(0, JobPending, 0, 5)], [Work(0, 1)])
  {
    hide ExpiryDate;
    assert ServiceOfItem([NewService()], 0) == Some(0);
    assert NewestJob([Job(0, JobFailed, 0, 5)], 0) == Some(0);
  }

  lemma ThirdOpened(db: Db)
    requires db.services == [NewService()] && db.jobs == [Job(0, JobFailed, 0, 5), Job(0, JobPending, 0, 5)]
    ensures var after := Apply(db.(services := PutBackService(db.services, 0)), ProvisionByAdmin(0, true));
            after.jobs == [Job(0, JobFailed, 0, 5), Job(0, JobPending, 0, 5), Job(0, JobPending, 0, 3)]
  {
    hide ExpiryDate;
  }

  /** Up to both deliveries being received. */
  lemma TwoReceived() returns (states: seq<System>, actions: seq<Action>)
    ensures IsInterleaving(states, actions) && |states| == |actions| + 1
    ensures states[|actions|] == System(Shop(1), map[1 := Row(false, false), 2 := Row(false, false)],
                                        [Flight(PaidEvent(1), Received), Flight(PaidEvent(2), Received)], [])
  {
    hide Apply;
    states, actions := [START], [];
    assert IsInterleaving(states, actions);
    assert Shop(0) == EMPTY;
    OneMoreCheckout(0);
    states, actions := Further(states, actions, Meanwhile(Ordering()));
    states, actions := Further(states, actions, Meanwhile(StartCheckout(0, 0, true)));
    states, actions := Further(states, actions, Receive(PaidEvent(1)));
    states, actions := Further(states, actions, Receive(PaidEvent(2)));
  }

  /** The system after a commit of the given flight. */
  lemma CommitActs(s: System, f: nat)
    requires f < |s.flights| && s.flights[f].stage.Received? && s.flights[f].event.body == PaidEvent(0).body
    requires BillingOk(s.db) && Grows(Shop(1), s.db)
    ensures var t := Act(s, Commit(f, 0));
            var p := PrepareItem(Prepared(s.db.services, s.db.jobs, []), ShopItem(0), 0, 0);
            && t.db.services == p.services && t.db.jobs == p.jobs
            && t.flights == s.flights[f := s.flights[f].(stage := Enqueuing(0, p.works, false))]
  {
    hide Transact, BillingOk, Grows, PrepareItem, Apply;
    CommitInShop(s.db);
  }

  lemma RefuseActs(s: System, f: nat)
    requires f < |s.flights| && s.flights[f].stage == Enqueuing(0, [Work(0, 0)], false)
    ensures var t := Act(s, EnqueueNext(f, false));
            && t.db == s.db.(jobs := SetJob(s.db.jobs, 0, JobFailed))
            && t.flights == s.flights[f := s.flights[f].(stage := PuttingBack(0, 0, []))]
  {
    hide Apply, Transact;
    assert [Work(0, 0)][1..] == [];
  }

  lemma PutBackActs(s: System, f: nat)
    requires f < |s.flights| && s.flights[f].stage == PuttingBack(0, 0, [])
    ensures Act(s, PutBack(f)).db == s.db.(services := PutBackService(s.db.services, 0))
  {
    hide Apply, Transact, PutBackService;
  }

  lemma MeanwhileActs(s: System, step: Step)
    ensures Act(s, Meanwhile(step)).db == Apply(s.db, step)
  {
  }

  /** The first delivery's enqueue is refused; before it puts the service back, the second
      commits and opens a job; then an administrator provisions the service that looks
      pending.  Two jobs of one service are open. */
  lemma TwoOpenJobs() returns (states: seq<System>, actions: seq<Action>)
    ensures IsInterleaving(states, actions) && |states| == |actions| + 1
    ensures states[|actions|].db.jobs
         == [Job(0, JobFailed, 0, 5), Job(0, JobPending, 0, 5), Job(0, JobPending, 0, 3)]
    ensures !AtMostOneOpen(states[|actions|].db.jobs)
  {
    hide Act, Apply, BillingOk, Grows, PrepareItem, PutBackService;
    states, actions := TwoReceived();
    var shop := |actions|;
    InterleavingKeepsBilling(states, actions, shop);
    GrowsReflexive(Shop(1));
    CommitActs(states[shop], 0);
    FirstPrepared();
    states, actions := Further(states, actions, Commit(0, 0));
    RefuseActs(states[shop + 1], 0);
    states, actions := Further(states, actions, EnqueueNext(0, false));
    InterleavingGrows(states, actions, shop, shop + 2);
    InterleavingKeepsBilling(states, actions, shop + 2);
    assert states[shop + 2].db.jobs == [Job(0, JobFailed, 0, 5)];
    CommitActs(states[shop + 2], 1);
    SecondPrepared();
    states, actions := Further(states, actions, Commit(1, 0));
    PutBackActs(states[shop + 3], 0);
    states, actions := Further(states, actions, PutBack(0));
    MeanwhileActs(states[shop + 4], ProvisionByAdmin(0, true));
    ThirdOpened(states[shop + 3].db);
    states, actions := Further(states, actions, Meanwhile(ProvisionByAdmin(0, true)));
    var jobs := states[|actions|].db.jobs;
    assert IsOpen(jobs[1]) && IsOpen(jobs[2]) && jobs[1].service == jobs[2].service;
  }

  /** No worker run closes the older of two open jobs: it only ever touches the newest. */
  lemma OlderStaysOpen(db: Db, t: Task, success: bool, ack: bool, i: nat, j: nat)
    requires i < j < |db.jobs| && db.jobs[i].service == db.jobs[j].service && IsOpen(db.jobs[i])
    ensures var after := WorkerRun(db, t, success, ack).jobs; j < |after| && after[i] == db.jobs[i]
  {
  }
}
