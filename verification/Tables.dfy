/** The billing tables and the queries the handlers run on them (migrations/).
    A table whose rows are never deleted is a sequence: a row's id is its position,
    so a later row has a higher id and "newest by created_at" is the highest
    position.  Order items are kept inside their order; they can be deleted, so
    they carry ids of their own.  Money columns hold cents. */
module Tables {
  import opened Wrappers
  import opened Calendar
  import opened Money

  /** NUMERIC(10,2) holds eight digits before the point. */
  const NUMERIC_LIMIT := 10_000_000_000

  predicate Fits(c: int) { -NUMERIC_LIMIT < c < NUMERIC_LIMIT }

  type Cents = c: int | Fits(c)

  /** Text written to such a column: rounded to two places, an error when it overflows. */
  function NumericIn(text: string): Option<Cents> {
    if IsDecimal(text) && Fits(RoundHalfAway(100.0 * DecimalValue(text)))
    then Some(RoundHalfAway(100.0 * DecimalValue(text))) else None
  }

  /** Whatever a money column holds, its own text and CentsToDecimal's both carry it
      into another column unchanged. */
  lemma TextCarriesAmount(c: Cents)
    ensures NumericIn(CentsText(c)) == Some(c)
    ensures NumericIn(CentsToDecimal(c)) == Some(c)
  {
    hide CentsToDecimal, CentsText, IsDecimal, DecimalValue, RoundHalfAway;
    assert Fits(c) && EXACT_CENTS == 7036874417766400;
    PrintingExact(c);
    WholeCents(CentsText(c), c);
  }

  /** A sum written back into a money column is kept exactly, or overflows it. */
  lemma TextIntoColumn(c: int)
    ensures NumericIn(CentsText(c)) == if Fits(c) then Some(c) else None
  {
    WholeCents(CentsText(c), c);
  }

  /** An amount in cents from Stripe is kept exactly, or overflows the column, however far
      out of the range in which it prints exactly. */
  lemma ChargeIntoColumn(c: int)
    ensures NumericIn(CentsToDecimal(c)) == if Fits(c) then Some(c) else None
  {
    hide CentsToDecimal, CentsText, NumericIn;
    assert EXACT_CENTS == 7036874417766400;
    if -EXACT_CENTS <= c <= EXACT_CENTS {
      PrintingExact(c);
      TextIntoColumn(c);
    } else {
      var n := PrintsLarge(c);
      TextIntoColumn(n);
    }
  }

  lemma WholeCents(text: string, c: int)
    requires text == CentsText(c)
    ensures IsDecimal(text) && RoundHalfAway(100.0 * DecimalValue(text)) == c
  {
    CanonicalText(c);
    assert 100.0 * DecimalValue(text) == c as real;
  }

  predicate FitsInt32(n: int) { -0x8000_0000 <= n < 0x8000_0000 }

  type Int32 = n: int | FitsInt32(n)

  datatype OrderStatus = Draft | PendingPayment | Paid | Provisioning | Active | Cancelled | Refunded

  datatype Item = Item(id: nat, plan: nat, cycle: Cycle, quantity: Int32, unitPrice: Cents)

  datatype Order = Order(user: nat, status: OrderStatus, total: Cents, items: seq<Item>)

  datatype InvoiceStatus = InvoicePaid | InvoicePending

  datatype Line = Line(quantity: int, unitPrice: Cents, amount: Cents)

  datatype Invoice = Invoice(order: nat, status: InvoiceStatus, total: Cents, lines: seq<Line>)

  datatype PaymentStatus = PaymentSucceeded | PaymentFailed | PaymentRefunded

  datatype Payment = Payment(invoice: nat, intent: Option<nat>, session: nat, amount: Cents, status: PaymentStatus)

  datatype Refund = Refund(payment: nat, amount: Cents)

  datatype ServiceStatus = ServicePending | ServiceProvisioning | ServiceActive | ServiceSuspended
                         | ServiceCancelled | ServiceTerminated

  /** `order` is what joining order_items on order_item_id gives. */
  datatype Service = Service(item: nat, order: nat, status: ServiceStatus, expires: Option<int>)

  datatype JobStatus = JobPending | JobRunning | JobCompleted | JobFailed

  datatype Job = Job(service: nat, status: JobStatus, attempts: nat, maxAttempts: nat)

  /** A vps:provision task in the queue. */
  datatype Task = Task(service: nat, order: nat)

  datatype StripeLine = StripeLine(unitAmount: int, quantity: int)

  /** A checkout session, as Stripe was asked to create it. */
  datatype Session = Session(order: nat, lines: seq<StripeLine>)

  datatype Db = Db(
    orders: seq<Order>,
    invoices: seq<Invoice>,
    payments: seq<Payment>,
    refunds: map<nat, Refund>,      // by stripe_refund_id, which is UNIQUE
    services: seq<Service>,
    jobs: seq<Job>,
    queue: multiset<Task>,
    sessions: seq<Session>,         // by session id, on Stripe's side
    nextItem: nat)                  // the next fresh order item id

  const EMPTY := Db([], [], [], map[], [], [], multiset{}, [], 0)

  // ----- Sums -----

  function ItemsTotal(items: seq<Item>): int {
    if items == [] then 0
    else ItemsTotal(items[..|items| - 1]) + items[|items| - 1].quantity * items[|items| - 1].unitPrice
  }

  function LinesTotal(lines: seq<Line>): int {
    if lines == [] then 0 else LinesTotal(lines[..|lines| - 1]) + lines[|lines| - 1].amount
  }

  /** What Stripe charges for a session. */
  function StripeTotal(lines: seq<StripeLine>): int {
    if lines == [] then 0
    else StripeTotal(lines[..|lines| - 1]) + lines[|lines| - 1].unitAmount * lines[|lines| - 1].quantity
  }

  // ----- Queries -----

  /** The newest draft of a user. */
  function NewestDraft(orders: seq<Order>, user: nat): (r: Option<nat>)
    ensures r.Some? ==> r.value < |orders| && orders[r.value].user == user && orders[r.value].status == Draft
    ensures forall o | (if r.Some? then r.value + 1 else 0) <= o < |orders| ::
              !(orders[o].user == user && orders[o].status == Draft)
  {
    if orders == [] then None
    else
      var last := |orders| - 1;
      if orders[last].user == user && orders[last].status == Draft then Some(last)
      else NewestDraft(orders[..last], user)
  }

  /** Position of an item within its order. */
  function ItemAt(items: seq<Item>, id: nat): (r: Option<nat>)
    ensures r.Some? ==> r.value < |items| && items[r.value].id == id
    ensures r.None? ==> forall i | 0 <= i < |items| :: items[i].id != id
  {
    if items == [] then None
    else if items[|items| - 1].id == id then Some(|items| - 1)
    else ItemAt(items[..|items| - 1], id)
  }

  /** The cart row for a plan and cycle, if there is one. */
  function ItemOfPlan(items: seq<Item>, plan: nat, cycle: Cycle): (r: Option<nat>)
    ensures r.Some? ==> r.value < |items| && items[r.value].plan == plan && items[r.value].cycle == cycle
    ensures r.None? ==> forall i | 0 <= i < |items| :: !(items[i].plan == plan && items[i].cycle == cycle)
  {
    if items == [] then None
    else if items[|items| - 1].plan == plan && items[|items| - 1].cycle == cycle then Some(|items| - 1)
    else ItemOfPlan(items[..|items| - 1], plan, cycle)
  }

  /** The draft order of a user that holds an item: the join in Update- and RemoveCartItem. */
  function DraftHolding(orders: seq<Order>, user: nat, item: nat): (r: Option<nat>)
    ensures r.Some? ==> r.value < |orders| && orders[r.value].user == user && orders[r.value].status == Draft
                        && ItemAt(orders[r.value].items, item).Some?
    ensures r.None? ==> forall o | 0 <= o < |orders| && orders[o].user == user && orders[o].status == Draft ::
                ItemAt(orders[o].items, item).None?
  {
    if orders == [] then None
    else
      var last := orders[|orders| - 1];
      if last.user == user && last.status == Draft && ItemAt(last.items, item).Some? then Some(|orders| - 1)
      else DraftHolding(orders[..|orders| - 1], user, item)
  }

  /** The newest invoice of an order, whatever its status. */
  function NewestInvoice(invoices: seq<Invoice>, order: nat): (r: Option<nat>)
    ensures r.Some? ==> r.value < |invoices| && invoices[r.value].order == order
    ensures forall i | (if r.Some? then r.value + 1 else 0) <= i < |invoices| :: invoices[i].order != order
  {
    if invoices == [] then None
    else if invoices[|invoices| - 1].order == order then Some(|invoices| - 1)
    else NewestInvoice(invoices[..|invoices| - 1], order)
  }

  function PaymentByIntent(payments: seq<Payment>, intent: nat): (r: Option<nat>)
    ensures r.Some? ==> r.value < |payments| && payments[r.value].intent == Some(intent)
    ensures r.None? ==> forall p | 0 <= p < |payments| :: payments[p].intent != Some(intent)
  {
    if payments == [] then None
    else if payments[|payments| - 1].intent == Some(intent) then Some(|payments| - 1)
    else PaymentByIntent(payments[..|payments| - 1], intent)
  }

  function PaymentBySession(payments: seq<Payment>, session: nat): (r: Option<nat>)
    ensures r.Some? ==> r.value < |payments| && payments[r.value].session == session
    ensures forall p | (if r.Some? then r.value + 1 else 0) <= p < |payments| :: payments[p].session != session
  {
    if payments == [] then None
    else if payments[|payments| - 1].session == session then Some(|payments| - 1)
    else PaymentBySession(payments[..|payments| - 1], session)
  }

  /** The service of an order item; order_item_id is UNIQUE. */
  function ServiceOfItem(services: seq<Service>, item: nat): (r: Option<nat>)
    ensures r.Some? ==> r.value < |services| && services[r.value].item == item
    ensures r.None? ==> forall s | 0 <= s < |services| :: services[s].item != item
  {
    if services == [] then None
    else if services[|services| - 1].item == item then Some(|services| - 1)
    else ServiceOfItem(services[..|services| - 1], item)
  }

  /** The newest job of a service: all jobs here are of type provision_vps. */
  function NewestJob(jobs: seq<Job>, service: nat): (r: Option<nat>)
    ensures r.Some? ==> r.value < |jobs| && jobs[r.value].service == service
    ensures forall j | (if r.Some? then r.value + 1 else 0) <= j < |jobs| :: jobs[j].service != service
  {
    if jobs == [] then None
    else if jobs[|jobs| - 1].service == service then Some(|jobs| - 1)
    else NewestJob(jobs[..|jobs| - 1], service)
  }
}
