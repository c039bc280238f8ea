/** Carts and orders (internal/order/): what each handler does to the tables, what
    they all keep, and the status table administrators work with. */
module Orders {
  import opened Wrappers
  import opened Calendar
  import opened Tables

  /** The outcome of looking a plan's price up for the requested billing cycle. */
  datatype Quote = NoPlan | Inactive | NoPrice | UnknownCycle | Price(cents: Cents)

  datatype Request = Request(plan: nat, cycle: Cycle, quantity: int, quote: Quote)

  // ----- Shared steps -----

  /** getOrCreateDraftOrder: the order table, and the draft's id. */
  function DraftOrder(orders: seq<Order>, user: nat): (r: (seq<Order>, nat))
    ensures r.1 < |r.0| && r.0[r.1].user == user && r.0[r.1].status == Draft
    ensures r.0 == orders || (r.1 == |orders| && r.0 == orders + [Order(user, Draft, 0, [])])
  {
    match NewestDraft(orders, user)
    case Some(o) => (orders, o)
    case None => (orders + [Order(user, Draft, 0, [])], |orders|)
  }

  /** The order with these items and the total summed anew, if the total column can hold it. */
  function Priced(order: Order, items: seq<Item>): Option<Order> {
    var total := ItemsTotal(items);
    if Fits(total) then Some(order.(items := items, total := total)) else None
  }

  function SetStatus(orders: seq<Order>, o: nat, status: OrderStatus): seq<Order> {
    if o < |orders| then orders[o := orders[o].(status := status)] else orders
  }

  /** The cart with `quantity` more of a plan: one row for each plan and cycle. */
  function Merged(items: seq<Item>, newId: nat, r: Request): Option<seq<Item>>
    requires r.quote.Price?
  {
    match ItemOfPlan(items, r.plan, r.cycle)
    case Some(k) =>
      var quantity := items[k].quantity + r.quantity;
      if FitsInt32(quantity)
      then Some(items[k := items[k].(quantity := quantity, unitPrice := r.quote.cents)])
      else None
    case None =>
      if FitsInt32(r.quantity)
      then Some(items + [Item(newId, r.plan, r.cycle, r.quantity, r.quote.cents)])
      else None
  }

  function Without(items: seq<Item>, k: nat): seq<Item>
    requires k < |items|
  {
    items[..k] + items[k + 1..]
  }

  // ----- Handlers: the new tables and the HTTP status -----

  function AddCartItem(db: Db, user: nat, r: Request): (a: (Db, nat))
    ensures a.1 >= 400 ==> a.0 == db
  {
    if r.quantity < 1 || !r.quote.Price? then (db, 400)
    else
      var (orders, o) := DraftOrder(db.orders, user);
      match Merged(orders[o].items, db.nextItem, r)
      case None => (db, 500)
      case Some(items) =>
        match Priced(orders[o], items)
        case None => (db, 500)
        case Some(order) => (db.(orders := orders[o := order], nextItem := db.nextItem + 1), 200)
  }

  function UpdateCartItem(db: Db, user: nat, item: nat, quantity: int): (a: (Db, nat))
    ensures a.1 >= 400 ==> a.0 == db
  {
    if quantity < 1 then (db, 400)
    else match DraftHolding(db.orders, user, item)
         case None => (db, 404)
         case Some(o) =>
           if !FitsInt32(quantity) then (db, 500)
           else
             var items := db.orders[o].items;
             var k := ItemAt(items, item).value;
             match Priced(db.orders[o], items[k := items[k].(quantity := quantity)])
             case None => (db, 500)
             case Some(order) => (db.(orders := db.orders[o := order]), 200)
  }

  function RemoveCartItem(db: Db, user: nat, item: nat): (a: (Db, nat))
    ensures a.1 >= 400 ==> a.0 == db
  {
    match DraftHolding(db.orders, user, item)
    case None => (db, 404)
    case Some(o) =>
      match Priced(db.orders[o], Without(db.orders[o].items, ItemAt(db.orders[o].items, item).value))
      case None => (db, 500)
      case Some(order) => (db.(orders := db.orders[o := order]), 200)
  }

  /** CreateOrder turns down a request it cannot price before it inserts anything. */
  predicate Unpriced(quote: Quote) { quote.NoPlan? || quote.Inactive? || quote.NoPrice? }

  predicate SomeUnpriced(rs: seq<Request>) { exists i | 0 <= i < |rs| :: Unpriced(rs[i].quote) }

  predicate IsItemOf(item: Item, r: Request, id: nat) {
    r.quote.Price? && item == Item(id, r.plan, r.cycle, item.quantity, r.quote.cents) && item.quantity == r.quantity
  }

  /** The rows CreateOrder inserts, one a request, with consecutive fresh ids. */
  function NewItems(rs: seq<Request>, firstId: nat): (r: Option<seq<Item>>)
    ensures r.Some? ==> |r.value| == |rs|
  {
    if rs == [] then Some([])
    else
      var n := |rs| - 1;
      var last := rs[n];
      match NewItems(rs[..n], firstId)
      case None => None
      case Some(items) =>
        if last.quote.Price? && FitsInt32(last.quantity)
        then Some(items + [Item(firstId + n, last.plan, last.cycle, last.quantity, last.quote.cents)])
        else None
  }

  lemma {:induction false} NewItemsRows(rs: seq<Request>, firstId: nat)
    requires NewItems(rs, firstId).Some?
    ensures var items := NewItems(rs, firstId).value;
            |items| == |rs| && forall i | 0 <= i < |rs| :: IsItemOf(items[i], rs[i], firstId + i)
  {
    if rs != [] { NewItemsRows(rs[..|rs| - 1], firstId); }
  }

  /** The tag on Items checks only that there is one: quantities arrive unchecked. */
  function CreateOrder(db: Db, user: nat, rs: seq<Request>): (a: (Db, nat))
    ensures a.1 >= 400 ==> a.0 == db
  {
    if rs == [] || SomeUnpriced(rs) then (db, 400)
    else match NewItems(rs, db.nextItem)
         case None => (db, 500)
         case Some(items) =>
           match Priced(Order(user, Draft, 0, []), items)
           case None => (db, 500)
           case Some(order) => (db.(orders := db.orders + [order], nextItem := db.nextItem + |rs|), 201)
  }

  /** isValidStatusTransition's table. */
  function Transitions(from: OrderStatus): seq<OrderStatus> {
    match from
    case Draft => [PendingPayment, Cancelled]
    case PendingPayment => [Paid, Cancelled]
    case Paid => [Provisioning, Refunded, Cancelled]
    case Provisioning => [Active, Cancelled]
    case Active => []
    case Cancelled => []
    case Refunded => []
  }

  /** `to` is None for text that is no status. */
  function AdminUpdateStatus(db: Db, o: nat, to: Option<OrderStatus>): (a: (Db, nat))
    ensures a.1 >= 400 ==> a.0 == db
  {
    if o >= |db.orders| then (db, 404)
    else if to.None? || to.value !in Transitions(db.orders[o].status) then (db, 400)
    else (db.(orders := SetStatus(db.orders, o, to.value)), 200)
  }

  // ----- What every handler keeps -----

  ghost predicate TotalsOk(orders: seq<Order>) {
    forall o | 0 <= o < |orders| :: orders[o].total == ItemsTotal(orders[o].items)
  }

  ghost predicate IdsBelow(orders: seq<Order>, nextItem: nat) {
    forall o, i | 0 <= o < |orders| && 0 <= i < |orders[o].items| :: orders[o].items[i].id < nextItem
  }

  ghost predicate IdsUnique(orders: seq<Order>) {
    forall o, i, p, j | 0 <= o < |orders| && 0 <= i < |orders[o].items|
                        && 0 <= p < |orders| && 0 <= j < |orders[p].items|
                        && orders[o].items[i].id == orders[p].items[j].id :: o == p && i == j
  }

  ghost predicate OrdersOk(db: Db) {
    TotalsOk(db.orders) && IdsBelow(db.orders, db.nextItem) && IdsUnique(db.orders)
  }

  /** An order that has left draft stays out of it, and its items and total are frozen. */
  ghost predicate OrdersKept(before: seq<Order>, after: seq<Order>) {
    |before| <= |after| &&
    forall o | 0 <= o < |before| ::
      && after[o].user == before[o].user
      && (before[o].status != Draft ==>
            && after[o].status != Draft
            && after[o].items == before[o].items
            && after[o].total == before[o].total)
  }

  lemma OrdersKeptTransitive(a: seq<Order>, b: seq<Order>, c: seq<Order>)
    requires OrdersKept(a, b) && OrdersKept(b, c)
    ensures OrdersKept(a, c)
  {
    forall o | 0 <= o < |a|
      ensures c[o].user == a[o].user
      ensures a[o].status != Draft ==> c[o].status != Draft && c[o].items == a[o].items && c[o].total == a[o].total
    {
      assert b[o].user == a[o].user;
    }
  }

  /** The ids among `items` are distinct, and each is an old one or at least `firstId`. */
  ghost predicate IdsFrom(items: seq<Item>, row: seq<Item>, firstId: nat) {
    && (forall i, j | 0 <= i < |items| && 0 <= j < |items| && items[i].id == items[j].id :: i == j)
    && (forall i | 0 <= i < |items| :: items[i].id >= firstId || HasItem(row, items[i].id))
  }

  ghost predicate HasItem(items: seq<Item>, id: nat) {
    exists k | 0 <= k < |items| :: items[k].id == id
  }

  lemma PlacedIds(before: seq<Order>, after: seq<Order>, o: nat, firstId: nat)
    requires IdsBelow(before, firstId) && IdsUnique(before)
    requires o < |after| && |before| <= |after| <= |before| + 1 && (|after| == |before| + 1 ==> o == |before|)
    requires forall p | 0 <= p < |before| && p != o :: after[p] == before[p]
    requires IdsFrom(after[o].items, if o < |before| then before[o].items else [], firstId)
    ensures IdsUnique(after)
  {
    forall p, j, i | 0 <= p < |after| && p != o && 0 <= j < |after[p].items| && 0 <= i < |after[o].items|
      ensures after[p].items[j].id != after[o].items[i].id
    {
      assert after[p].items[j] == before[p].items[j];
    }
  }

  /** Rewriting a draft, or adding an order, with freshly summed total. */
  lemma PlaceOrder(before: seq<Order>, after: seq<Order>, o: nat, firstId: nat, nextItem: nat)
    requires TotalsOk(before) && IdsBelow(before, firstId) && IdsUnique(before) && firstId <= nextItem
    requires o < |after| && |before| <= |after| <= |before| + 1 && (|after| == |before| + 1 ==> o == |before|)
    requires forall p | 0 <= p < |before| && p != o :: after[p] == before[p]
    requires after[o].total == ItemsTotal(after[o].items)
    requires IdsFrom(after[o].items, if o < |before| then before[o].items else [], firstId)
    requires forall i | 0 <= i < |after[o].items| :: after[o].items[i].id < nextItem
    requires o < |before| ==> before[o].status == Draft && after[o].user == before[o].user
    ensures TotalsOk(after) && IdsBelow(after, nextItem) && IdsUnique(after) && OrdersKept(before, after)
  {
    PlacedIds(before, after, o, firstId);
  }

  lemma MergedIds(items: seq<Item>, newId: nat, r: Request)
    requires r.quote.Price? && Merged(items, newId, r).Some?
    requires forall i | 0 <= i < |items| :: items[i].id < newId
    requires forall i, j | 0 <= i < |items| && 0 <= j < |items| && items[i].id == items[j].id :: i == j
    ensures var after := Merged(items, newId, r).value;
            IdsFrom(after, items, newId) && forall i | 0 <= i < |after| :: after[i].id < newId + 1
  {
    var after := Merged(items, newId, r).value;
    forall i | 0 <= i < |after| ensures after[i].id >= newId || HasItem(items, after[i].id) {
      if i < |items| { assert items[i].id == after[i].id; }
    }
  }

  /** The cart is the user's newest draft; only if there is none an empty one is added. */
  lemma DraftIsNewest(orders: seq<Order>, user: nat)
    ensures var (after, o) := DraftOrder(orders, user);
            && o < |after| && after[o].user == user && after[o].status == Draft
            && (forall p | o < p < |after| :: !(after[p].user == user && after[p].status == Draft))
            && (after == orders
                || (after == orders + [Order(user, Draft, 0, [])]
                    && forall p | 0 <= p < |orders| :: !(orders[p].user == user && orders[p].status == Draft)))
  {
    var newest := NewestDraft(orders, user);
    assert newest.None? ==> forall p | 0 <= p < |orders| :: !(orders[p].user == user && orders[p].status == Draft);
  }

  lemma DraftOrderKeeps(db: Db, user: nat)
    requires OrdersOk(db)
    ensures var (orders, o) := DraftOrder(db.orders, user);
            OrdersOk(db.(orders := orders)) && OrdersKept(db.orders, orders)
  {
  }

  lemma AddCartItemKeeps(db: Db, user: nat, r: Request)
    requires OrdersOk(db)
    ensures OrdersOk(AddCartItem(db, user, r).0) && OrdersKept(db.orders, AddCartItem(db, user, r).0.orders)
  {
    var (after, code) := AddCartItem(db, user, r);
    if code == 200 {
      var (orders, o) := DraftOrder(db.orders, user);
      DraftOrderKeeps(db, user);
      MergedIds(orders[o].items, db.nextItem, r);
      PlaceOrder(orders, after.orders, o, db.nextItem, db.nextItem + 1);
      OrdersKeptTransitive(db.orders, orders, after.orders);
    }
  }

  lemma UpdateCartItemKeeps(db: Db, user: nat, item: nat, quantity: int)
    requires OrdersOk(db)
    ensures var after := UpdateCartItem(db, user, item, quantity).0;
            OrdersOk(after) && OrdersKept(db.orders, after.orders)
  {
    var (after, code) := UpdateCartItem(db, user, item, quantity);
    if code == 200 {
      var o := DraftHolding(db.orders, user, item).value;
      PlaceOrder(db.orders, after.orders, o, db.nextItem, db.nextItem);
    }
  }

  lemma WithoutIds(items: seq<Item>, k: nat, firstId: nat)
    requires k < |items|
    requires forall i | 0 <= i < |items| :: items[i].id < firstId
    requires forall i, j | 0 <= i < |items| && 0 <= j < |items| && items[i].id == items[j].id :: i == j
    ensures var after := Without(items, k);
            IdsFrom(after, items, firstId) && forall i | 0 <= i < |after| :: after[i].id < firstId
  {
    var after := Without(items, k);
    forall i | 0 <= i < |after| ensures HasItem(items, after[i].id) && after[i].id < firstId {
      assert after[i] == items[if i < k then i else i + 1];
    }
    forall i, j | 0 <= i < |after| && 0 <= j < |after| && after[i].id == after[j].id ensures i == j {
      assert after[i] == items[if i < k then i else i + 1] && after[j] == items[if j < k then j else j + 1];
    }
  }

  lemma RemoveCartItemKeeps(db: Db, user: nat, item: nat)
    requires OrdersOk(db)
    ensures var after := RemoveCartItem(db, user, item).0;
            OrdersOk(after) && OrdersKept(db.orders, after.orders)
  {
    var (after, code) := RemoveCartItem(db, user, item);
    if code == 200 {
      var o := DraftHolding(db.orders, user, item).value;
      WithoutIds(db.orders[o].items, ItemAt(db.orders[o].items, item).value, db.nextItem);
      hide Without, IdsFrom;
      PlaceOrder(db.orders, after.orders, o, db.nextItem, db.nextItem);
    }
  }

  lemma CreateOrderKeeps(db: Db, user: nat, rs: seq<Request>)
    requires OrdersOk(db)
    ensures OrdersOk(CreateOrder(db, user, rs).0) && OrdersKept(db.orders, CreateOrder(db, user, rs).0.orders)
  {
    var (after, code) := CreateOrder(db, user, rs);
    if code == 201 {
      NewItemsRows(rs, db.nextItem);
      PlaceOrder(db.orders, after.orders, |db.orders|, db.nextItem, after.nextItem);
    }
  }

  lemma SetStatusKeeps(orders: seq<Order>, o: nat, status: OrderStatus, nextItem: nat)
    requires TotalsOk(orders) && IdsBelow(orders, nextItem) && IdsUnique(orders)
    requires status != Draft
    ensures var after := SetStatus(orders, o, status);
            TotalsOk(after) && IdsBelow(after, nextItem) && IdsUnique(after) && OrdersKept(orders, after)
  {
    hide ItemsTotal;
  }

  lemma AdminUpdateStatusKeeps(db: Db, o: nat, to: Option<OrderStatus>)
    requires OrdersOk(db)
    ensures OrdersOk(AdminUpdateStatus(db, o, to).0)
    ensures OrdersKept(db.orders, AdminUpdateStatus(db, o, to).0.orders)
  {
    var (after, code) := AdminUpdateStatus(db, o, to);
    if code == 200 { SetStatusKeeps(db.orders, o, to.value, db.nextItem); }
  }

  // ----- What the cart handlers mean -----

  /** How many of a plan, on one billing cycle, a cart holds over all its rows. */
  function QuantityOf(items: seq<Item>, plan: nat, cycle: Cycle): int {
    if items == [] then 0
    else
      var last := items[|items| - 1];
      QuantityOf(items[..|items| - 1], plan, cycle)
      + if last.plan == plan && last.cycle == cycle then last.quantity else 0
  }

  lemma {:induction false} QuantityOfUpdated(items: seq<Item>, k: nat, item: Item, plan: nat, cycle: Cycle)
    requires k < |items| && item.plan == items[k].plan && item.cycle == items[k].cycle
    ensures QuantityOf(items[k := item], plan, cycle)
         == QuantityOf(items, plan, cycle)
            + if item.plan == plan && item.cycle == cycle then item.quantity - items[k].quantity else 0
    decreases |items|
  {
    var n := |items| - 1;
    var after := items[k := item];
    if k == n {
      assert after[..n] == items[..n];
    } else {
      assert after[..n] == items[..n][k := item];
      QuantityOfUpdated(items[..n], k, item, plan, cycle);
    }
  }

  /** Adding to the cart adds exactly the requested quantity of exactly that plan and
      cycle, and the row it ends up in is priced at the current quote. */
  lemma AddCartItemAdds(db: Db, user: nat, r: Request, plan: nat, cycle: Cycle)
    requires AddCartItem(db, user, r).1 == 200
    ensures var o := DraftOrder(db.orders, user).1;
            var before := DraftOrder(db.orders, user).0[o].items;
            var after := AddCartItem(db, user, r).0.orders[o].items;
            && QuantityOf(after, plan, cycle)
               == QuantityOf(before, plan, cycle) + (if plan == r.plan && cycle == r.cycle then r.quantity else 0)
            && exists k | 0 <= k < |after| ::
                 after[k].plan == r.plan && after[k].cycle == r.cycle && after[k].unitPrice == r.quote.cents
  {
    var (orders, o) := DraftOrder(db.orders, user);
    hide DraftOrder, ItemsTotal;
    var items := orders[o].items;
    var after := AddCartItem(db, user, r).0.orders[o].items;
    match ItemOfPlan(items, r.plan, r.cycle) {
      case Some(k) => QuantityOfUpdated(items, k, after[k], plan, cycle);
      case None =>
        assert after[..|items|] == items;
        assert after[|items|].plan == r.plan;
    }
  }

  /** Item ids being unique, there is only one place to find an item. */
  lemma HeldOnce(orders: seq<Order>, user: nat, item: nat, o: nat, k: nat)
    requires IdsUnique(orders) && o < |orders| && k < |orders[o].items| && orders[o].items[k].id == item
    requires orders[o].user == user && orders[o].status == Draft
    ensures DraftHolding(orders, user, item) == Some(o) && ItemAt(orders[o].items, item) == Some(k)
  {
    var j := ItemAt(orders[o].items, item);
    assert j.Some? && orders[o].items[j.value].id == orders[o].items[k].id;
    var p := DraftHolding(orders, user, item);
    assert p.Some?;
    var i := ItemAt(orders[p.value].items, item);
    assert orders[p.value].items[i.value].id == orders[o].items[k].id;
  }

  lemma RemoveLast(db: Db, user: nat, o: nat, order: Order)
    requires IdsUnique(db.orders) && o < |db.orders| && db.orders[o].user == user && db.orders[o].status == Draft
    requires order.user == user && order.status == Draft && order.total == ItemsTotal(order.items)
    requires |db.orders[o].items| == |order.items| + 1 && db.orders[o].items[..|order.items|] == order.items
    ensures RemoveCartItem(db, user, db.orders[o].items[|order.items|].id)
         == (db.(orders := db.orders[o := order]), 200)
  {
    var k := |order.items|;
    HeldOnce(db.orders, user, db.orders[o].items[k].id, o, k);
    assert Without(db.orders[o].items, k) == order.items;
  }

  /** What AddCartItem does when the cart has no row for the plan yet. */
  lemma AddedRow(db: Db, user: nat, r: Request)
    requires AddCartItem(db, user, r).1 == 200
    requires ItemOfPlan(DraftOrder(db.orders, user).0[DraftOrder(db.orders, user).1].items, r.plan, r.cycle).None?
    ensures var (orders, o) := DraftOrder(db.orders, user);
            var added := AddCartItem(db, user, r).0;
            && |added.orders| == |orders| && added == db.(orders := added.orders, nextItem := db.nextItem + 1)
            && added.orders[o].user == user && added.orders[o].status == Draft
            && FitsInt32(r.quantity)
            && added.orders[o].items
               == orders[o].items + [Item(db.nextItem, r.plan, r.cycle, r.quantity, r.quote.cents)]
            && forall p | 0 <= p < |orders| && p != o :: added.orders[p] == orders[p]
  {
  }

  /** Removing the row that a plan new to the cart was given leaves the cart as it was. */
  lemma RemoveUndoesAdd(db: Db, user: nat, r: Request)
    requires OrdersOk(db) && AddCartItem(db, user, r).1 == 200
    requires ItemOfPlan(DraftOrder(db.orders, user).0[DraftOrder(db.orders, user).1].items, r.plan, r.cycle).None?
    ensures var added := AddCartItem(db, user, r).0;
            RemoveCartItem(added, user, db.nextItem)
            == (db.(orders := DraftOrder(db.orders, user).0, nextItem := db.nextItem + 1), 200)
  {
    AddCartItemKeeps(db, user, r);
    DraftOrderKeeps(db, user);
    AddedRow(db, user, r);
    RemovedRow(db, DraftOrder(db.orders, user).0, AddCartItem(db, user, r).0, user, DraftOrder(db.orders, user).1);
  }

  lemma RemovedRow(db: Db, orders: seq<Order>, added: Db, user: nat, o: nat)
    requires o < |orders| && orders[o].user == user && orders[o].status == Draft
    requires orders[o].total == ItemsTotal(orders[o].items)
    requires IdsUnique(added.orders) && |added.orders| == |orders|
    requires added.orders[o].user == user && added.orders[o].status == Draft
    requires |added.orders[o].items| == |orders[o].items| + 1
    requires added.orders[o].items[..|orders[o].items|] == orders[o].items
    requires added.orders[o].items[|orders[o].items|].id == db.nextItem
    requires added == db.(orders := added.orders, nextItem := db.nextItem + 1)
    requires forall p | 0 <= p < |orders| && p != o :: added.orders[p] == orders[p]
    ensures RemoveCartItem(added, user, db.nextItem) == (db.(orders := orders, nextItem := db.nextItem + 1), 200)
  {
    RemoveLast(added, user, o, orders[o]);
    assert added.orders[o := orders[o]] == orders;
  }

  /** What UpdateCartItem does to the row it finds. */
  lemma UpdateAt(db: Db, user: nat, o: nat, k: nat, quantity: int)
    requires IdsUnique(db.orders) && o < |db.orders| && db.orders[o].user == user && db.orders[o].status == Draft
    requires k < |db.orders[o].items| && quantity >= 1
    ensures var items := db.orders[o].items;
            UpdateCartItem(db, user, items[k].id, quantity)
            == if !FitsInt32(quantity) then (db, 500)
            else match Priced(db.orders[o], items[k := items[k].(quantity := quantity)])
                 case None => (db, 500)
                 case Some(order) => (db.(orders := db.orders[o := order]), 200)
  {
    HeldOnce(db.orders, user, db.orders[o].items[k].id, o, k);
  }

  /** Only the last quantity set counts. */
  lemma LastQuantityCounts(db: Db, user: nat, item: nat, first: int, second: int)
    requires OrdersOk(db) && UpdateCartItem(db, user, item, first).1 == 200
    ensures var once := UpdateCartItem(db, user, item, second);
            var twice := UpdateCartItem(UpdateCartItem(db, user, item, first).0, user, item, second);
            twice.1 == once.1 && (once.1 == 200 ==> twice == once)
  {
    UpdateCartItemKeeps(db, user, item, first);
    var db' := UpdateCartItem(db, user, item, first).0;
    var o := DraftHolding(db.orders, user, item).value;
    var k := ItemAt(db.orders[o].items, item).value;
    if second >= 1 {
      UpdateAt(db, user, o, k, second);
      UpdateAt(db', user, o, k, second);
      if FitsInt32(second) { SetTwice(db.orders, db'.orders, o, k, first, second); }
    }
  }

  lemma SetTwice(orders: seq<Order>, after: seq<Order>, o: nat, k: nat, first: Int32, second: Int32)
    requires o < |orders| && k < |orders[o].items|
    requires Priced(orders[o], orders[o].items[k := orders[o].items[k].(quantity := first)]).Some?
    requires after == orders[o := Priced(orders[o], orders[o].items[k := orders[o].items[k].(quantity := first)]).value]
    ensures var order := Priced(orders[o], orders[o].items[k := orders[o].items[k].(quantity := second)]);
            && Priced(after[o], after[o].items[k := after[o].items[k].(quantity := second)]) == order
            && (order.Some? ==> after[o := order.value] == orders[o := order.value])
  {
    assert after[o].items[k := after[o].items[k].(quantity := second)]
        == orders[o].items[k := orders[o].items[k].(quantity := second)];
  }

  // ----- What the handlers answer -----

  function Amount(item: Item): int { item.quantity * item.unitPrice }

  lemma {:induction false} TotalUpdated(items: seq<Item>, k: nat, item: Item)
    requires k < |items|
    ensures ItemsTotal(items[k := item]) == ItemsTotal(items) - Amount(items[k]) + Amount(item)
    decreases |items|
  {
    var n := |items| - 1;
    if k == n {
      assert items[k := item][..n] == items[..n];
    } else {
      assert items[k := item][..n] == items[..n][k := item];
      TotalUpdated(items[..n], k, item);
    }
  }

  lemma {:induction false} TotalWithout(items: seq<Item>, k: nat)
    requires k < |items|
    ensures ItemsTotal(Without(items, k)) == ItemsTotal(items) - Amount(items[k])
    decreases |items|
  {
    var n := |items| - 1;
    if k == n {
      assert Without(items, k) == items[..n];
    } else {
      assert Without(items, k)[..n - 1] == Without(items[..n], k);
      assert Without(items, k)[n - 1] == items[n];
      TotalWithout(items[..n], k);
    }
  }

  /** Quantity and amount a cart already has in its row for a plan and cycle. */
  function InRow(items: seq<Item>, r: Request): (int, int) {
    match ItemOfPlan(items, r.plan, r.cycle)
    case None => (0, 0)
    case Some(k) => (items[k].quantity, Amount(items[k]))
  }

  /** AddCartItem succeeds exactly if the request is valid and priced, the row's new
      quantity fits its column and so does the new total, which differs from the old by
      the row's change alone; otherwise nothing changes. */
  lemma AddCartItemAnswers(db: Db, user: nat, r: Request)
    requires OrdersOk(db)
    ensures var (orders, o) := DraftOrder(db.orders, user);
            var (quantity, amount) := InRow(orders[o].items, r);
            var (after, code) := AddCartItem(db, user, r);
            && (code == 400 <==> r.quantity < 1 || !r.quote.Price?)
            && (code == 200 <==>
                && r.quantity >= 1 && r.quote.Price? && FitsInt32(quantity + r.quantity)
                && Fits(orders[o].total - amount + (quantity + r.quantity) * r.quote.cents))
            && (code == 200 ==>
                  o < |after.orders|
                  && after.orders[o].total == orders[o].total - amount + (quantity + r.quantity) * r.quote.cents)
            && (code != 200 ==> after == db)
  {
    DraftOrderKeeps(db, user);
    hide Merged, InRow, DraftOrder, ItemsTotal, IdsBelow, IdsUnique, OrdersKept, AddCartItem, Fits, FitsInt32;
    var (orders, o) := DraftOrder(db.orders, user);
    if r.quantity >= 1 && r.quote.Price? {
      MergedTotal(orders[o].items, db.nextItem, r);
      var (quantity, amount) := InRow(orders[o].items, r);
      AddedTotal(db, user, r, orders[o].total - amount + (quantity + r.quantity) * r.quote.cents);
    } else {
      InvalidRequest(db, user, r);
    }
  }

  lemma InvalidRequest(db: Db, user: nat, r: Request)
    requires r.quantity < 1 || !r.quote.Price?
    ensures AddCartItem(db, user, r) == (db, 400)
  {
  }

  /** The answer, once it is known whether the rows can be merged and what they sum up to. */
  lemma AddedTotal(db: Db, user: nat, r: Request, total: int)
    requires r.quantity >= 1 && r.quote.Price?
    requires var (orders, o) := DraftOrder(db.orders, user);
             var merged := Merged(orders[o].items, db.nextItem, r);
             merged.Some? ==> ItemsTotal(merged.value) == total
    ensures var (orders, o) := DraftOrder(db.orders, user);
            var (after, code) := AddCartItem(db, user, r);
            && code in {200, 500}
            && (code == 200 <==> Merged(orders[o].items, db.nextItem, r).Some? && Fits(total))
            && (code == 200 ==> o < |after.orders| && after.orders[o].total == total)
            && (code != 200 ==> after == db)
  {
    hide Merged, DraftOrder, ItemsTotal;
  }

  lemma MergedTotal(items: seq<Item>, newId: nat, r: Request)
    requires r.quote.Price?
    ensures var (quantity, amount) := InRow(items, r);
            && (Merged(items, newId, r).Some? <==> FitsInt32(quantity + r.quantity))
            && (Merged(items, newId, r).Some? ==>
                  ItemsTotal(Merged(items, newId, r).value)
                  == ItemsTotal(items) - amount + (quantity + r.quantity) * r.quote.cents)
  {
    if Merged(items, newId, r).Some? {
      var after := Merged(items, newId, r).value;
      match ItemOfPlan(items, r.plan, r.cycle) {
        case Some(k) => TotalUpdated(items, k, after[k]);
        case None => assert after[..|items|] == items;
      }
    }
  }

  /** UpdateCartItem succeeds exactly if the user's drafts hold the item and the new
      quantity and total fit; the total changes by the item's change alone. */
  lemma UpdateCartItemAnswers(db: Db, user: nat, item: nat, quantity: int)
    requires OrdersOk(db)
    ensures var held := DraftHolding(db.orders, user, item);
            var (after, code) := UpdateCartItem(db, user, item, quantity);
            && (code == 400 <==> quantity < 1)
            && (code == 404 <==> quantity >= 1 && held.None?)
            && (code != 200 ==> after == db)
            && (held.Some? && quantity >= 1 ==>
                  var order := db.orders[held.value];
                  var row := order.items[ItemAt(order.items, item).value];
                  var total := order.total - Amount(row) + quantity * row.unitPrice;
                  && (code == 200 <==> FitsInt32(quantity) && Fits(total))
                  && (code == 200 ==> after.orders[held.value].total == total))
  {
    var held := DraftHolding(db.orders, user, item);
    if held.Some? && FitsInt32(quantity) {
      var items := db.orders[held.value].items;
      var k := ItemAt(items, item).value;
      TotalUpdated(items, k, items[k].(quantity := quantity));
    }
  }

  /** RemoveCartItem takes exactly the item out, its amount off the total, and leaves the
      other items in their order; afterwards no draft of the user holds the item. */
  lemma RemoveCartItemAnswers(db: Db, user: nat, item: nat)
    requires OrdersOk(db)
    ensures var held := DraftHolding(db.orders, user, item);
            var (after, code) := RemoveCartItem(db, user, item);
            && (code == 404 <==> held.None?)
            && (code != 200 ==> after == db)
            && (held.Some? ==>
                  var order := db.orders[held.value];
                  var k := ItemAt(order.items, item).value;
                  var total := order.total - Amount(order.items[k]);
                  && (code == 200 <==> Fits(total))
                  && (code == 200 ==>
                        && after.orders[held.value].total == total
                        && after.orders[held.value].items == order.items[..k] + order.items[k + 1..]
                        && DraftHolding(after.orders, user, item).None?))
  {
    var held := DraftHolding(db.orders, user, item);
    if held.Some? {
      var order := db.orders[held.value];
      var k := ItemAt(order.items, item).value;
      TotalWithout(order.items, k);
      var (after, code) := RemoveCartItem(db, user, item);
      if code == 200 { NotHeldAnymore(db.orders, after.orders, user, item, held.value, k); }
    }
  }

  lemma NotHeldAnymore(before: seq<Order>, after: seq<Order>, user: nat, item: nat, o: nat, k: nat)
    requires IdsUnique(before) && o < |before| && k < |before[o].items| && before[o].items[k].id == item
    requires |after| == |before| && after[o].items == Without(before[o].items, k)
    requires forall p | 0 <= p < |before| && p != o :: after[p] == before[p]
    ensures DraftHolding(after, user, item).None?
  {
    forall p, at | 0 <= p < |after| && 0 <= at < |after[p].items| ensures after[p].items[at].id != item {
      var i := if p == o && at >= k then at + 1 else at;
      assert after[p].items[at] == before[p].items[i];
    }
  }

  /** What the requests cost together. */
  function RequestsTotal(rs: seq<Request>): int
    requires forall i | 0 <= i < |rs| :: rs[i].quote.Price?
  {
    if rs == [] then 0
    else RequestsTotal(rs[..|rs| - 1]) + rs[|rs| - 1].quantity * rs[|rs| - 1].quote.cents
  }

  predicate Insertable(r: Request) { r.quote.Price? && FitsInt32(r.quantity) }

  lemma {:induction false} NewItemsTotal(rs: seq<Request>, firstId: nat)
    ensures NewItems(rs, firstId).Some? <==> forall i | 0 <= i < |rs| :: Insertable(rs[i])
    ensures NewItems(rs, firstId).Some? ==> ItemsTotal(NewItems(rs, firstId).value) == RequestsTotal(rs)
  {
    if rs != [] {
      var n := |rs| - 1;
      NewItemsTotal(rs[..n], firstId);
      assert forall i | 0 <= i < n :: rs[..n][i] == rs[i];
      if NewItems(rs, firstId).Some? {
        var items := NewItems(rs, firstId).value;
        assert items[..n] == NewItems(rs[..n], firstId).value;
      }
    }
  }

  /** CreateOrder succeeds exactly if there is a request, every one has a price and an
      int32 quantity, and their cost fits; it then adds one draft of that total, and
      otherwise nothing. */
  lemma CreateOrderAnswers(db: Db, user: nat, rs: seq<Request>)
    ensures var (after, code) := CreateOrder(db, user, rs);
            && (code == 400 <==> rs == [] || SomeUnpriced(rs))
            && (code == 201 <==>
                rs != [] && (forall i | 0 <= i < |rs| :: Insertable(rs[i])) && Fits(RequestsTotal(rs)))
            && (code == 201 ==>
                  && |after.orders| == |db.orders| + 1 && after.orders[..|db.orders|] == db.orders
                  && after.orders[|db.orders|].user == user && after.orders[|db.orders|].status == Draft
                  && |after.orders[|db.orders|].items| == |rs|
                  && after.orders[|db.orders|].total == RequestsTotal(rs))
            && (code != 201 ==> after == db)
  {
    NewItemsTotal(rs, db.nextItem);
  }

  /** How far along an order is. */
  function Progress(status: OrderStatus): nat {
    match status
    case Draft => 0
    case PendingPayment => 1
    case Paid => 2
    case Provisioning => 3
    case Active => 4
    case Cancelled => 4
    case Refunded => 4
  }

  /** An administrator moves an order only forward, and not at all once it is active,
      cancelled or refunded; a request that is not accepted changes nothing. */
  lemma AdminMovesForward(db: Db, o: nat, to: Option<OrderStatus>)
    ensures var (after, code) := AdminUpdateStatus(db, o, to);
            && (code == 404 <==> o >= |db.orders|)
            && (code == 200 ==>
                  && to.Some? && o < |after.orders| && after.orders[o] == db.orders[o].(status := to.value)
                  && Progress(to.value) > Progress(db.orders[o].status))
            && (o < |db.orders| && Progress(db.orders[o].status) == 4 ==> code == 400)
            && (code != 200 ==> after == db)
  {
  }
}
