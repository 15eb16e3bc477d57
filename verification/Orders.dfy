/**
 Orders (server/src/services/order.ts): creation from lines the server priced, the status machine, and
 cancellation of an order or of some of its items.
 */
module Orders {
  import opened Billing
  import opened Schema
  import opened Sums
  import opened Wrappers

  datatype OrderError = EmptyCart | QuantityOutOfRange | DuplicateKey | OwnerMissing | OrderMissing | WrongState | ForeignItem
                      | SoldOutTargetMissing

  /** A line as the server resolved it from the menu. */
  datatype OrderLine = OrderLine(menu: Id, unitPrice: int, extras: seq<int>, quantity: int, mode: ServingMode)

  function LineTotal(line: OrderLine): int {
    (line.unitPrice + Sum(line.extras, Self)) * line.quantity
  }

  function ItemFrom(line: OrderLine, id: Id): Item {
    Item(id, line.menu, line.unitPrice, line.extras, line.quantity, line.mode, false)
  }

  // ---- creation ----

  predicate OrderKeyTaken(orders: seq<Order>, key: OrderKey) {
    exists o | o in orders :: o.key == key
  }

  function TableItems(lines: seq<OrderLine>, base: Id): seq<Item> {
    seq(|lines|, i requires 0 <= i < |lines| => ItemFrom(lines[i], base + i))
  }

  function TableOrderRow(db: Db, session: Id, text: string, lines: seq<OrderLine>, at: int): Order {
    Order(db.next, Session(session), New, TableOrder(session, text), at, TableItems(lines, db.next + 1))
  }

  /** The inserting transaction. It does not look at the session's status, only at its existence. */
  function CreateOrder(db: Db, session: Id, text: string, lines: seq<OrderLine>, at: int): Result<Order, OrderError> {
    if lines == [] then Err(EmptyCart)
    else if exists i | 0 <= i < |lines| :: !(1 <= lines[i].quantity <= 50) then Err(QuantityOutOfRange)
    else if OrderKeyTaken(db.orders, TableOrder(session, text)) then Err(DuplicateKey)
    else if session !in db.sessions then Err(OwnerMissing)
    else Ok(TableOrderRow(db, session, text, lines, at))
  }

  function RecordOrder(db: Db, r: Result<Order, OrderError>): Db {
    if r.Ok? then db.(next := db.next + 1 + |r.value.items|, orders := db.orders + [r.value]) else db
  }

  method CreateOrderTx(db: Database, session: Id, text: string, lines: seq<OrderLine>, at: int)
    returns (r: Result<Order, OrderError>)
    modifies db
    ensures r == CreateOrder(old(db.View()), session, text, lines, at)
    ensures db.View() == RecordOrder(old(db.View()), r)
  {
    if |lines| == 0 {
      return Err(EmptyCart);
    }
    for i := 0 to |lines|
      invariant forall k | 0 <= k < i :: 1 <= lines[k].quantity <= 50
    {
      if lines[i].quantity < 1 || lines[i].quantity > 50 {
        return Err(QuantityOutOfRange);
      }
    }
    if OrderKeyTaken(db.orders, TableOrder(session, text)) {
      return Err(DuplicateKey);
    }
    if session !in db.sessions {
      return Err(OwnerMissing);
    }
    var created := TableOrderRow(db.View(), session, text, lines, at);
    db.orders := db.orders + [created];
    db.next := db.next + 1 + |created.items|;
    r := Ok(created);
  }

  // ---- status machine ----

  datatype Move = Accept | Reject | StartPreparing | MarkReady | MarkServed | RevertServed

  function From(m: Move): OrderStatus {
    match m
    case Accept => New
    case Reject => New
    case StartPreparing => Accepted
    case MarkReady => Preparing
    case MarkServed => OrderStatus.Ready
    case RevertServed => Served
  }

  function To(m: Move): OrderStatus {
    match m
    case Accept => Accepted
    case Reject => Rejected
    case StartPreparing => Preparing
    case MarkReady => OrderStatus.Ready
    case MarkServed => Served
    case RevertServed => OrderStatus.Ready
  }

  function Restatus(o: Order, id: Id, from: set<OrderStatus>, to: OrderStatus): Order {
    if o.id == id && o.status in from then o.(status := to) else o
  }

  /** UPDATE orders SET status = to WHERE id = id AND status IN from. */
  function SetStatus(orders: seq<Order>, id: Id, from: set<OrderStatus>, to: OrderStatus): seq<Order> {
    seq(|orders|, i requires 0 <= i < |orders| => Restatus(orders[i], id, from, to))
  }

  function Advance(db: Db, id: Id, m: Move): Db {
    db.(orders := SetStatus(db.orders, id, {From(m)}, To(m)))
  }

  /** One conditional update; it succeeds iff it changed the row. */
  method ApplyTransition(db: Database, id: Id, m: Move) returns (r: Result<(), OrderError>)
    modifies db
    ensures db.View() == Advance(old(db.View()), id, m)
    ensures r == Ok(()) <==> exists o | o in old(db.orders) :: o.id == id && o.status == From(m)
    ensures r == Err(OrderMissing) <==> forall o | o in old(db.orders) :: o.id != id
    ensures r in {Ok(()), Err(OrderMissing), Err(WrongState)}
  {
    var count := exists o | o in db.orders :: o.id == id && o.status == From(m);
    FoundOrder(SetStatus(db.orders, id, {From(m)}, To(m)), id);
    RestatusKeepsIds(db.orders, id, m);
    db.orders := SetStatus(db.orders, id, {From(m)}, To(m));
    if count {
      return Ok(());
    }
    if FindOrder(db.orders, id).Some? {
      return Err(WrongState);
    }
    r := Err(OrderMissing);
  }

  lemma RestatusKeepsIds(orders: seq<Order>, id: Id, m: Move)
    ensures (exists o | o in SetStatus(orders, id, {From(m)}, To(m)) :: o.id == id) <==> exists o | o in orders :: o.id == id
  {
    var after := SetStatus(orders, id, {From(m)}, To(m));
    forall o | o in orders ensures exists p :: p in after && p.id == o.id {
      var i :| 0 <= i < |orders| && orders[i] == o;
      assert after[i] in after;
    }
    forall p | p in after ensures exists o :: o in orders && o.id == p.id {
      var i :| 0 <= i < |after| && after[i] == p;
      assert orders[i] in orders;
    }
  }

  // ---- cancellation ----

  const CANCELLABLE: set<OrderStatus> := {New, Accepted, Preparing}

  function IdsOf(items: seq<Item>): seq<Id> {
    seq(|items|, i requires 0 <= i < |items| => items[i].id)
  }

  function Struck(item: Item, ids: seq<Id>): Item {
    if item.id in ids then item.(cancelled := true) else item
  }

  function StruckItems(items: seq<Item>, ids: seq<Id>): seq<Item> {
    seq(|items|, i requires 0 <= i < |items| => Struck(items[i], ids))
  }

  function StrikeItems(orders: seq<Order>, ids: seq<Id>): seq<Order> {
    seq(|orders|, i requires 0 <= i < |orders| => orders[i].(items := StruckItems(orders[i].items, ids)))
  }

  predicate NothingLive(items: seq<Item>) {
    forall i | 0 <= i < |items| :: items[i].cancelled
  }

  /** An empty request means every item. */
  function Targets(order: Order, itemIds: seq<Id>): seq<Id> {
    if itemIds == [] then IdsOf(order.items) else itemIds
  }

  /** The whole-order test compares list lengths. */
  predicate CancelsWhole(order: Order, itemIds: seq<Id>) {
    |Targets(order, itemIds)| == |order.items|
  }

  function CancelProblem(order: Order, itemIds: seq<Id>): Option<OrderError> {
    if exists i | 0 <= i < |Targets(order, itemIds)| :: Targets(order, itemIds)[i] !in IdsOf(order.items) then
      Some(ForeignItem)
    else if CancelsWhole(order, itemIds) && order.status !in CANCELLABLE && order.status != Cancelled then
      Some(WrongState)
    else None
  }

  /** Rows after the transaction: whole orders change status first, partly cancelled ones only when nothing is left. */
  function CancelRows(orders: seq<Order>, order: Order, itemIds: seq<Id>): seq<Order> {
    if CancelsWhole(order, itemIds) then
      StrikeItems(SetStatus(orders, order.id, CANCELLABLE, Cancelled), Targets(order, itemIds))
    else
      var struck := StrikeItems(orders, Targets(order, itemIds));
      if NothingLive(StruckItems(order.items, Targets(order, itemIds))) then
        SetStatus(struck, order.id, CANCELLABLE, Cancelled)
      else struck
  }

  function CancelOrder(db: Db, id: Id, itemIds: seq<Id>): Result<Db, OrderError> {
    var order := FindOrder(db.orders, id);
    if order.None? then Err(OrderMissing)
    else
      var problem := CancelProblem(order.value, itemIds);
      if problem.Some? then Err(problem.value)
      else Ok(db.(orders := CancelRows(db.orders, order.value, itemIds)))
  }

  function AfterCancel(db: Db, id: Id, itemIds: seq<Id>): Db {
    var r := CancelOrder(db, id, itemIds);
    if r.Ok? then r.value else db
  }

  /** `targetsExist`: whether everything to be marked as sold out in the same transaction exists; if not, all is rolled back. */
  method CancelOrderTx(db: Database, id: Id, itemIds: seq<Id>, targetsExist: bool) returns (r: Result<(), OrderError>)
    modifies db
    ensures db.View() == if targetsExist then AfterCancel(old(db.View()), id, itemIds) else old(db.View())
    ensures match CancelOrder(old(db.View()), id, itemIds)
            case Ok(_) => r == if targetsExist then Ok(()) else Err(SoldOutTargetMissing)
            case Err(e) => r == Err(e)
  {
    var before := db.orders;
    var found := FindOrder(db.orders, id);
    if found.None? {
      return Err(OrderMissing);
    }
    FoundOrder(db.orders, id);
    var order := found.value;
    var targetItemIds := if |itemIds| > 0 then itemIds else IdsOf(order.items);
    if exists i | 0 <= i < |targetItemIds| :: targetItemIds[i] !in IdsOf(order.items) {
      return Err(ForeignItem);
    }
    var cancelWholeOrder := |targetItemIds| == |order.items|;
    if cancelWholeOrder {
      if order.status !in CANCELLABLE && order.status != Cancelled {
        return Err(WrongState);
      }
      db.orders := SetStatus(db.orders, id, CANCELLABLE, Cancelled);
    }
    db.orders := StrikeItems(db.orders, targetItemIds);
    if !cancelWholeOrder {
      if NothingLive(StruckItems(order.items, targetItemIds)) {
        db.orders := SetStatus(db.orders, id, CANCELLABLE, Cancelled);
      }
    }
    if !targetsExist {
      db.orders := before;
      return Err(SoldOutTargetMissing);
    }
    r := Ok(());
  }

  lemma {:induction false} FoundOrder(orders: seq<Order>, id: Id)
    ensures FindOrder(orders, id).Some? ==> FindOrder(orders, id).value.id == id && FindOrder(orders, id).value in orders
    ensures FindOrder(orders, id).None? ==> forall o | o in orders :: o.id != id
  {
    if orders != [] {
      FoundOrder(orders[..|orders| - 1], id);
      assert orders == orders[..|orders| - 1] + [orders[|orders| - 1]];
    }
  }

  // ---- identity of orders and items ----

  ghost predicate Disjoint(a: Order, b: Order) {
    forall x, y | x in a.items && y in b.items :: x.id != y.id
  }

  ghost predicate DistinctItems(items: seq<Item>) {
    forall k, l | 0 <= k < l < |items| :: items[k].id != items[l].id
  }

  ghost predicate OrdersDistinct(orders: seq<Order>) {
    && (forall i | 0 <= i < |orders| :: DistinctItems(orders[i].items))
    && (forall i, j | 0 <= i < j < |orders| ::
          orders[i].id != orders[j].id && orders[i].key != orders[j].key && Disjoint(orders[i], orders[j]))
  }

  /** `after` is `before` with only statuses and cancellation marks changed, row by row. */
  ghost predicate SameItems(a: seq<Item>, b: seq<Item>) {
    |a| == |b| && forall k | 0 <= k < |a| :: b[k] == a[k].(cancelled := b[k].cancelled) && (a[k].cancelled ==> b[k].cancelled)
  }

  ghost predicate SameOrder(a: Order, b: Order) {
    b == a.(status := b.status, items := b.items) && SameItems(a.items, b.items)
  }

  ghost predicate SameOrders(before: seq<Order>, after: seq<Order>) {
    |before| == |after| && forall i | 0 <= i < |before| :: SameOrder(before[i], after[i])
  }

  lemma SameOrdersDistinct(before: seq<Order>, after: seq<Order>)
    requires OrdersDistinct(before) && SameOrders(before, after)
    ensures OrdersDistinct(after)
  {
    forall i | 0 <= i < |after| ensures DistinctItems(after[i].items) {
      assert DistinctItems(before[i].items) && SameOrder(before[i], after[i]);
    }
    forall i, j | 0 <= i < j < |after|
      ensures after[i].id != after[j].id && after[i].key != after[j].key && Disjoint(after[i], after[j])
    {
      assert SameOrder(before[i], after[i]) && SameOrder(before[j], after[j]) && Disjoint(before[i], before[j]);
      forall x, y | x in after[i].items && y in after[j].items ensures x.id != y.id {
        var k :| 0 <= k < |after[i].items| && after[i].items[k] == x;
        var l :| 0 <= l < |after[j].items| && after[j].items[l] == y;
        assert before[i].items[k] in before[i].items && before[j].items[l] in before[j].items;
      }
    }
  }

  /** The full value of an owner's orders never changes once they are placed. */
  lemma SameOrdersFull(before: seq<Order>, after: seq<Order>, owner: Owner)
    requires SameOrders(before, after)
    ensures FullTotal(after, owner) == FullTotal(before, owner)
  {
    forall i | 0 <= i < |before| ensures FullFrom(owner)(after[i]) == FullFrom(owner)(before[i]) {
      assert SameOrder(before[i], after[i]);
      SumPointwise(after[i].items, before[i].items, Line, Line);
    }
    SumPointwise(after, before, FullFrom(owner), FullFrom(owner));
  }

  lemma AdvanceSameOrders(orders: seq<Order>, id: Id, from: set<OrderStatus>, to: OrderStatus)
    ensures SameOrders(orders, SetStatus(orders, id, from, to))
  {
  }

  lemma StrikeSameOrders(orders: seq<Order>, ids: seq<Id>)
    ensures SameOrders(orders, StrikeItems(orders, ids))
  {
  }

  lemma SameOrdersTransitive(a: seq<Order>, b: seq<Order>, c: seq<Order>)
    requires SameOrders(a, b) && SameOrders(b, c)
    ensures SameOrders(a, c)
  {
    forall i | 0 <= i < |a| ensures SameOrder(a[i], c[i]) {
      assert SameOrder(a[i], b[i]) && SameOrder(b[i], c[i]);
    }
  }

  lemma CancelSameOrders(db: Db, id: Id, itemIds: seq<Id>)
    ensures SameOrders(db.orders, AfterCancel(db, id, itemIds).orders)
  {
    if CancelOrder(db, id, itemIds).Ok? {
      var order := FindOrder(db.orders, id).value;
      var ids := Targets(order, itemIds);
      var moved, struck := SetStatus(db.orders, order.id, CANCELLABLE, Cancelled), StrikeItems(db.orders, ids);
      AdvanceSameOrders(db.orders, order.id, CANCELLABLE, Cancelled);
      StrikeSameOrders(moved, ids);
      SameOrdersTransitive(db.orders, moved, StrikeItems(moved, ids));
      StrikeSameOrders(db.orders, ids);
      AdvanceSameOrders(struck, order.id, CANCELLABLE, Cancelled);
      SameOrdersTransitive(db.orders, struck, SetStatus(struck, order.id, CANCELLABLE, Cancelled));
    }
  }

  // ---- what a cancellation takes off the bill ----

  /** Value of the targeted lines that are still counted. */
  function Targeted(ids: seq<Id>): Item -> int {
    (item: Item) => if item.id in ids then LiveLine(item) else 0
  }

  function TargetedValue(order: Order, ids: seq<Id>): int {
    if IsCounted(order) then Sum(order.items, Targeted(ids)) else 0
  }

  /** The share of one owner's bill that a request targets. */
  function TargetedFor(order: Order, itemIds: seq<Id>, owner: Owner): int {
    if order.owner == owner then TargetedValue(order, Targets(order, itemIds)) else 0
  }

  function StruckLine(ids: seq<Id>): Item -> int {
    (item: Item) => LiveLine(Struck(item, ids))
  }

  /** Striking items lowers an order by exactly the targeted live lines. */
  lemma StrikeAmount(order: Order, ids: seq<Id>)
    ensures OrderAmount(order.(items := StruckItems(order.items, ids))) == OrderAmount(order) - TargetedValue(order, ids)
  {
    SumPlus(order.items, StruckLine(ids), Targeted(ids), LiveLine);
    SumPointwise(StruckItems(order.items, ids), order.items, LiveLine, StruckLine(ids));
  }

  lemma StrikeMisses(order: Order, ids: seq<Id>)
    requires forall item | item in order.items :: item.id !in ids
    ensures order.(items := StruckItems(order.items, ids)) == order
  {
    assert StruckItems(order.items, ids) == order.items;
  }

  /** Position of the cancelled order, the only row a cancellation changes. */
  lemma CancelOneRow(db: Db, id: Id, itemIds: seq<Id>) returns (k: nat)
    requires OrdersDistinct(db.orders) && CancelOrder(db, id, itemIds).Ok?
    ensures k < |db.orders| && db.orders[k].id == id && FindOrder(db.orders, id) == Some(db.orders[k])
    ensures var after := AfterCancel(db, id, itemIds).orders; var ids := Targets(db.orders[k], itemIds);
            && |after| == |db.orders|
            && (forall i | 0 <= i < |after| && i != k :: after[i] == db.orders[i])
            && after[k].items == StruckItems(db.orders[k].items, ids)
            && after[k] == db.orders[k].(items := after[k].items, status := after[k].status)
            && after[k].status ==
                 if db.orders[k].status in CANCELLABLE
                    && (CancelsWhole(db.orders[k], itemIds) || NothingLive(after[k].items))
                 then Cancelled else db.orders[k].status
  {
    FoundOrder(db.orders, id);
    var order := FindOrder(db.orders, id).value;
    k :| 0 <= k < |db.orders| && db.orders[k] == order;
    var ids := Targets(order, itemIds);
    var after := AfterCancel(db, id, itemIds).orders;
    forall i | 0 <= i < |after| && i != k ensures after[i] == db.orders[i] {
      OtherRowUntouched(db.orders, order, k, i, ids);
    }
  }

  lemma OtherRowUntouched(orders: seq<Order>, order: Order, k: nat, i: nat, ids: seq<Id>)
    requires OrdersDistinct(orders) && k < |orders| && orders[k] == order && i < |orders| && i != k
    requires forall j | 0 <= j < |ids| :: ids[j] in IdsOf(order.items)
    ensures orders[i].id != order.id
    ensures orders[i].(items := StruckItems(orders[i].items, ids)) == orders[i]
  {
    assert if i < k then Disjoint(orders[i], orders[k]) else Disjoint(orders[k], orders[i]);
    forall item | item in orders[i].items ensures item.id !in ids {
      forall l | 0 <= l < |order.items| ensures order.items[l].id != item.id {
        assert order.items[l] in order.items;
      }
    }
    StrikeMisses(orders[i], ids);
  }

  /** Distinct own ids as many as the items are all of the items. */
  lemma WholeNamesAll(order: Order, ids: seq<Id>)
    requires DistinctItems(order.items) && Distinct(ids) && |ids| == |order.items|
    requires forall j | 0 <= j < |ids| :: ids[j] in IdsOf(order.items)
    ensures forall item | item in order.items :: item.id in ids
  {
    var own := IdsOf(order.items);
    var named, all := SetOf(ids), SetOf(own);
    SubsetOfSameSize(named, all);
    forall item | item in order.items ensures item.id in ids {
      var k :| 0 <= k < |order.items| && order.items[k] == item;
      assert own[k] in all;
    }
  }

  ghost function SetOf(ids: seq<Id>): (s: set<Id>)
    ensures forall x :: x in s <==> x in ids
    ensures Distinct(ids) ==> |s| == |ids|
  {
    if ids == [] then {}
    else
      assert ids == ids[..|ids| - 1] + [ids[|ids| - 1]];
      SetOf(ids[..|ids| - 1]) + {ids[|ids| - 1]}
  }

  lemma SubsetOfSameSize(a: set<Id>, b: set<Id>)
    requires a <= b && |a| == |b|
    ensures a == b
  {
    assert b == a + (b - a);
  }

  /** Value of the counted lines that the request does not name. */
  function Unnamed(ids: seq<Id>): Item -> int {
    (item: Item) => if item.id in ids then 0 else LiveLine(item)
  }

  /** The request is taken for the whole order although it leaves counted lines unnamed; what those are worth. */
  function Swept(order: Order, itemIds: seq<Id>): int {
    if order.status in CANCELLABLE && CancelsWhole(order, itemIds) then Sum(order.items, Unnamed(Targets(order, itemIds))) else 0
  }

  /** The one row loses the lines it was asked to lose, and the swept ones. */
  lemma CancelRowAmount(order: Order, after: Order, itemIds: seq<Id>)
    requires after.items == StruckItems(order.items, Targets(order, itemIds))
    requires after.status == if order.status in CANCELLABLE && (CancelsWhole(order, itemIds) || NothingLive(after.items))
                             then Cancelled else order.status
    ensures OrderAmount(after) == OrderAmount(order) - TargetedValue(order, Targets(order, itemIds)) - Swept(order, itemIds)
  {
    var ids := Targets(order, itemIds);
    StrikeAmount(order, ids);
    SumPlus(order.items, Targeted(ids), Unnamed(ids), LiveLine);
    if NothingLive(after.items) {
      SumZero(after.items, LiveLine);
    }
  }

  /** Any accepted request, repeated ids included: what comes off which bill. */
  lemma CancelAmount(db: Db, id: Id, itemIds: seq<Id>, owner: Owner)
    requires OrdersDistinct(db.orders) && CancelOrder(db, id, itemIds).Ok?
    ensures FindOrder(db.orders, id).Some?
    ensures var order := FindOrder(db.orders, id).value;
            OrderTotal(AfterCancel(db, id, itemIds).orders, owner)
            == OrderTotal(db.orders, owner) - TargetedFor(order, itemIds, owner)
               - if order.owner == owner then Swept(order, itemIds) else 0
  {
    var k := CancelOneRow(db, id, itemIds);
    var after := AfterCancel(db, id, itemIds).orders;
    CancelRowAmount(db.orders[k], after[k], itemIds);
    SumOneDiff(db.orders, after, AmountFrom(owner), AmountFrom(owner), k);
  }

  /**
   A cancellation takes exactly the targeted lines off the bill, unless the order can still be
   cancelled, the request is as long as its list of items, and counted lines worth something stay unnamed.
   */
  lemma CancelExactly(db: Db, id: Id, itemIds: seq<Id>)
    requires OrdersDistinct(db.orders) && CancelOrder(db, id, itemIds).Ok?
    ensures FindOrder(db.orders, id).Some?
    ensures var order := FindOrder(db.orders, id).value; var ids := Targets(order, itemIds);
            OrderTotal(AfterCancel(db, id, itemIds).orders, order.owner)
            == OrderTotal(db.orders, order.owner) - TargetedValue(order, ids)
            <==> !(order.status in CANCELLABLE && |ids| == |order.items| && Sum(order.items, Unnamed(ids)) != 0)
  {
    FoundOrder(db.orders, id);
    CancelAmount(db, id, itemIds, FindOrder(db.orders, id).value.owner);
  }

  /** With distinct ids a cancellation lowers the bill by exactly the targeted lines that were counted, and no other bill. */
  lemma CancelDrop(db: Db, id: Id, itemIds: seq<Id>, owner: Owner)
    requires OrdersDistinct(db.orders) && CancelOrder(db, id, itemIds).Ok? && Distinct(itemIds)
    ensures FindOrder(db.orders, id).Some?
    ensures OrderTotal(AfterCancel(db, id, itemIds).orders, owner)
         == OrderTotal(db.orders, owner) - TargetedFor(FindOrder(db.orders, id).value, itemIds, owner)
  {
    var k := CancelOneRow(db, id, itemIds);
    CancelAmount(db, id, itemIds, owner);
    var order := db.orders[k];
    if CancelsWhole(order, itemIds) {
      var ids := Targets(order, itemIds);
      WholeNamesAll(order, ids);
      SumZero(order.items, Unnamed(ids));
    }
  }

  /** A repeated id breaks the length test: naming one of two items twice takes both off the bill. */
  lemma RepeatedIdCancelsAll()
    ensures var items := [Item(1, 0, 700, [], 1, Kitchen, false), Item(2, 0, 500, [], 1, Kitchen, false)];
            var db := EMPTY.(orders := [Order(0, Session(9), New, TableOrder(9, ""), 0, items)]);
            && CancelOrder(db, 0, [1, 1]).Ok?
            && TargetedValue(db.orders[0], [1, 1]) == 700
            && OrderTotal(db.orders, Session(9)) == 1200
            && OrderTotal(AfterCancel(db, 0, [1, 1]).orders, Session(9)) == 0
  {
    var items := [Item(1, 0, 700, [], 1, Kitchen, false), Item(2, 0, 500, [], 1, Kitchen, false)];
    var order := Order(0, Session(9), New, TableOrder(9, ""), 0, items);
    var db := EMPTY.(orders := [order]);
    assert items[..1] == [items[0]] && items[..1][..0] == [];
    assert Sum(items[..1], LiveLine) == 700 && Sum(items[..1], Targeted([1, 1])) == 700;
    assert db.orders[..0] == [];
    assert IdsOf(items)[0] == 1;
    var after := AfterCancel(db, 0, [1, 1]).orders;
    assert after[..0] == [] && |after| == 1 && after[0].status == Cancelled;
  }

  lemma StrikeTwice(items: seq<Item>, ids: seq<Id>)
    ensures IdsOf(StruckItems(items, ids)) == IdsOf(items)
    ensures StruckItems(StruckItems(items, ids), ids) == StruckItems(items, ids)
  {
  }

  /** A second identical request changes nothing. */
  lemma CancelIdempotent(db: Db, id: Id, itemIds: seq<Id>)
    requires OrdersDistinct(db.orders)
    ensures AfterCancel(AfterCancel(db, id, itemIds), id, itemIds) == AfterCancel(db, id, itemIds)
  {
    if CancelOrder(db, id, itemIds).Ok? {
      var k := CancelOneRow(db, id, itemIds);
      var once := AfterCancel(db, id, itemIds);
      CancelSameOrders(db, id, itemIds);
      SameOrdersDistinct(db.orders, once.orders);
      StrikeTwice(db.orders[k].items, Targets(db.orders[k], itemIds));
      if CancelOrder(once, id, itemIds).Ok? {
        SecondCancel(once, id, itemIds, k);
      }
    }
  }

  lemma SecondCancel(db: Db, id: Id, itemIds: seq<Id>, k: nat)
    requires OrdersDistinct(db.orders) && CancelOrder(db, id, itemIds).Ok?
    requires k < |db.orders| && db.orders[k].id == id
    requires StruckItems(db.orders[k].items, Targets(db.orders[k], itemIds)) == db.orders[k].items
    requires db.orders[k].status in CANCELLABLE ==> !CancelsWhole(db.orders[k], itemIds) && !NothingLive(db.orders[k].items)
    ensures AfterCancel(db, id, itemIds) == db
  {
    var l := CancelOneRow(db, id, itemIds);
    assert l == k;
    assert AfterCancel(db, id, itemIds).orders == db.orders;
  }

  // ---- what every order step keeps ----

  /** No order still being worked on has lost all of its items. */
  ghost predicate HasWork(o: Order) {
    o.status in CANCELLABLE ==> !NothingLive(o.items)
  }

  ghost predicate AllHaveWork(orders: seq<Order>) {
    forall i | 0 <= i < |orders| :: HasWork(orders[i])
  }

  lemma AdvanceHasWork(db: Db, id: Id, m: Move)
    requires AllHaveWork(db.orders)
    ensures AllHaveWork(Advance(db, id, m).orders)
  {
    forall i | 0 <= i < |db.orders| ensures HasWork(Advance(db, id, m).orders[i]) {
      assert HasWork(db.orders[i]);
    }
  }

  /** Cancelling, even with repeated ids or in any status, never leaves an order to work on with nothing in it. */
  lemma CancelHasWork(db: Db, id: Id, itemIds: seq<Id>)
    requires OrdersDistinct(db.orders) && AllHaveWork(db.orders)
    ensures AllHaveWork(AfterCancel(db, id, itemIds).orders)
  {
    if CancelOrder(db, id, itemIds).Ok? {
      var k := CancelOneRow(db, id, itemIds);
      forall i | 0 <= i < |db.orders| ensures HasWork(AfterCancel(db, id, itemIds).orders[i]) {
        assert HasWork(db.orders[i]);
      }
    }
  }
}
