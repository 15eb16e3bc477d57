/** What every transaction keeps true of the rows, whatever order transactions commit in. */
module Invariants {
  import opened Billing
  import opened Ledger
  import opened Orders
  import opened PaymentLaws
  import Payments
  import opened Schema
  import opened Sums
  import opened TableSessions
  import opened Wrappers

  // ---- the invariants ----

  /** Ids in use lie below the counter. */
  ghost predicate IdsBelow(db: Db) {
    && (forall p | p in db.payments :: p.id < db.next && p.owner.id < db.next)
    && AllocationsBelow(db.payments, db.next)
    && (forall o | o in db.orders :: o.id < db.next && o.owner.id < db.next)
    && (forall o, item | o in db.orders && item in o.items :: item.id < db.next)
    && (forall t | t in db.tables :: t < db.next)
    && (forall s | s in db.sessions :: s < db.next)
    && (forall s | s in db.sales :: s.id < db.next)
    && (forall r | r in db.redemptions :: r.owner.id < db.next)
  }

  ghost predicate AllocationsBelow(payments: seq<Payment>, bound: Id) {
    forall p, a | p in payments && a in p.allocations :: a.item < bound
  }

  /** Payments are allocated to items of their own owner. */
  ghost predicate OwnItems(orders: seq<Order>, payments: seq<Payment>) {
    forall p, o, item | p in payments && o in orders && item in o.items && Touches(p, item.id) :: o.owner == p.owner
  }

  ghost predicate Touches(p: Payment, item: Id) {
    exists a | a in p.allocations :: a.item == item
  }

  /** No item is covered beyond its quantity, or below nothing. */
  ghost predicate ItemsCovered(orders: seq<Order>, payments: seq<Payment>) {
    forall o, item | o in orders && item in o.items :: 0 <= PaidQuantity(payments, item.id) <= item.quantity
  }

  ghost predicate AllCancelled(orders: seq<Order>, owner: Owner) {
    forall o | o in orders && o.owner == owner :: o.status == Cancelled
  }

  ghost predicate NoneStand(payments: seq<Payment>, owner: Owner) {
    forall p | p in payments && p.owner == owner :: !Stands(payments, p)
  }

  /** A completed sale was paid for in full; of a cancelled one nothing is left. */
  ghost predicate SaleOk(s: CounterSale, orders: seq<Order>, payments: seq<Payment>) {
    if s.status == Completed then Paid(payments, Sale(s.id)) == FullTotal(orders, Sale(s.id))
    else AllCancelled(orders, Sale(s.id)) && NoneStand(payments, Sale(s.id))
  }

  ghost predicate SalesOk(sales: seq<CounterSale>, orders: seq<Order>, payments: seq<Payment>) {
    && (forall s | s in sales :: SaleOk(s, orders, payments))
    && (forall i, j | 0 <= i < j < |sales| ::
          sales[i].id < sales[j].id && sales[i].saleNo < sales[j].saleNo && sales[i].key != sales[j].key)
  }

  ghost predicate OrdersOk(orders: seq<Order>) {
    OrdersDistinct(orders) && AllPriced(orders) && AllHaveWork(orders)
  }

  /** The unique column on the redeemed coupon. */
  ghost predicate CouponsDistinct(redemptions: seq<Redemption>) {
    forall i, j | 0 <= i < j < |redemptions| :: redemptions[i].coupon != redemptions[j].coupon
  }

  ghost predicate UsedIffRedeemed(coupons: map<string, Coupon>, redemptions: seq<Redemption>) {
    && CouponsDistinct(redemptions)
    && (forall r | r in redemptions :: r.coupon in coupons && coupons[r.coupon].status == Used)
    && (forall code | code in coupons && coupons[code].status == Used :: exists r | r in redemptions :: r.coupon == code)
  }

  ghost predicate Inv(db: Db) {
    && IdsBelow(db)
    && IsLedger(db.payments)
    && OrdersOk(db.orders)
    && OwnItems(db.orders, db.payments)
    && ItemsCovered(db.orders, db.payments)
    && SalesOk(db.sales, db.orders, db.payments)
    && FloorOk(db.tables, db.sessions)
    && UsedIffRedeemed(db.coupons, db.redemptions)
  }

  lemma EmptyInv()
    ensures Inv(EMPTY)
  {
  }

  // ---- steps that leave orders and money alone ----

  lemma FloorStep(before: Db, after: Db)
    requires Inv(before)
    requires after.orders == before.orders && after.payments == before.payments && after.sales == before.sales
    requires after.redemptions == before.redemptions && after.coupons == before.coupons
    requires after.next >= before.next && FloorOk(after.tables, after.sessions)
    requires (forall t | t in after.tables :: t < after.next) && forall s | s in after.sessions :: s < after.next
    ensures Inv(after)
  {
  }

  // ---- steps that change order rows in place ----

  lemma OrderOrigin(before: seq<Order>, after: seq<Order>, o: Order) returns (p: Order)
    requires SameOrders(before, after) && o in after
    ensures p in before && SameOrder(p, o)
  {
    var i :| 0 <= i < |after| && after[i] == o;
    p := before[i];
    assert SameOrder(before[i], after[i]);
  }

  /** The row an item was before a step that keeps all rows. */
  lemma ItemOrigin(before: seq<Order>, after: seq<Order>, o: Order, item: Item) returns (p: Order, was: Item)
    requires SameOrders(before, after) && o in after && item in o.items
    ensures p in before && was in p.items && p.owner == o.owner && p.id == o.id
    ensures was == item.(cancelled := was.cancelled)
  {
    p := OrderOrigin(before, after, o);
    var k :| 0 <= k < |o.items| && o.items[k] == item;
    was := p.items[k];
  }

  /** Statuses may move, but not out of Cancelled. */
  ghost predicate CancelledStays(before: seq<Order>, after: seq<Order>)
    requires |before| == |after|
  {
    forall i | 0 <= i < |before| && before[i].status == Cancelled :: after[i].status == Cancelled
  }

  lemma OrderStep(before: Db, orders: seq<Order>)
    requires Inv(before) && SameOrders(before.orders, orders)
    requires CancelledStays(before.orders, orders) && AllHaveWork(orders)
    ensures Inv(before.(orders := orders))
  {
    SameOrdersDistinct(before.orders, orders);
    OrderStepRows(before, orders);
    forall s | s in before.sales ensures SaleOk(s, orders, before.payments) {
      SaleKept(s, before.orders, orders, before.payments);
    }
  }

  lemma OrderStepRows(before: Db, orders: seq<Order>)
    requires Inv(before) && SameOrders(before.orders, orders)
    ensures AllPriced(orders) && OwnItems(orders, before.payments) && ItemsCovered(orders, before.payments)
    ensures IdsBelow(before.(orders := orders))
  {
    forall o, item | o in orders && item in o.items
      ensures Priced(item) && item.id < before.next && 0 <= PaidQuantity(before.payments, item.id) <= item.quantity
      ensures forall p | p in before.payments && Touches(p, item.id) :: o.owner == p.owner
    {
      var p, was := ItemOrigin(before.orders, orders, o, item);
      assert Priced(was);
    }
    forall o | o in orders ensures o.id < before.next && o.owner.id < before.next {
      var p := OrderOrigin(before.orders, orders, o);
    }
  }

  lemma SaleKept(s: CounterSale, before: seq<Order>, orders: seq<Order>, payments: seq<Payment>)
    requires SameOrders(before, orders) && CancelledStays(before, orders) && SaleOk(s, before, payments)
    ensures SaleOk(s, orders, payments)
  {
    SameOrdersFull(before, orders, Sale(s.id));
    if s.status != Completed {
      forall o | o in orders && o.owner == Sale(s.id) ensures o.status == Cancelled {
        var i :| 0 <= i < |orders| && orders[i] == o;
        assert SameOrder(before[i], orders[i]);
        assert before[i] in before;
      }
    }
  }

  // ---- a payment row for a table session ----

  /** The row's allocations stay within its owner's items and their quantities. */
  ghost predicate FitsItems(db: Db, p: Payment) {
    && (forall a | a in p.allocations :: a.item < db.next)
    && (forall o, item | o in db.orders && item in o.items && Touches(p, item.id) ::
          && o.owner == p.owner
          && PaidQuantity(db.payments + [p], item.id) <= item.quantity)
  }

  lemma Untouched(rows: seq<Payment>, p: Payment, item: Id)
    requires !Touches(p, item)
    ensures PaidQuantity(rows + [p], item) == PaidQuantity(rows, item)
  {
    PaidQuantityAppend(rows, p, item);
    SumZero(p.allocations, QuantityFor(item));
  }

  lemma CoverageKept(db: Db, p: Payment)
    requires ItemsCovered(db.orders, db.payments) && IsLedger(db.payments + [p]) && FitsItems(db, p)
    ensures ItemsCovered(db.orders, db.payments + [p])
  {
    forall o, item | o in db.orders && item in o.items
      ensures 0 <= PaidQuantity(db.payments + [p], item.id) <= item.quantity
    {
      PaidQuantityIsStanding(db.payments + [p], item.id);
      if !Touches(p, item.id) {
        Untouched(db.payments, p, item.id);
      }
    }
  }

  lemma NoneStandKept(rows: seq<Payment>, p: Payment, owner: Owner)
    requires NoneStand(rows, owner) && p.owner != owner
    ensures NoneStand(rows + [p], owner)
  {
    forall q | q in rows + [p] && q.owner == owner ensures !Stands(rows + [p], q) {
      if IsOriginal(q) {
        var r :| r in rows && r.reverses == Some(q.id);
        assert r in rows + [p];
      }
    }
  }

  lemma PaymentStep(before: Db, p: Payment)
    requires Inv(before) && Follows(before.payments, p) && p.id == before.next
    requires p.owner.Session? && p.owner.id < before.next && FitsItems(before, p)
    ensures Inv(Payments.AppendRow(before, p))
  {
    LedgerAppend(before.payments, p);
    CoverageKept(before, p);
    SalesKept(before.sales, before.orders, before.payments, p);
  }

  lemma SalesKept(sales: seq<CounterSale>, orders: seq<Order>, payments: seq<Payment>, p: Payment)
    requires SalesOk(sales, orders, payments) && p.owner.Session?
    ensures SalesOk(sales, orders, payments + [p])
  {
    forall s | s in sales ensures SaleOk(s, orders, payments + [p]) {
      PaidAppend(payments, p, Sale(s.id));
      if s.status != Completed {
        NoneStandKept(payments, p, Sale(s.id));
      }
    }
  }

  // ---- a new table order ----

  lemma NothingPaidYet(payments: seq<Payment>, bound: Id, item: Id)
    requires AllocationsBelow(payments, bound) && item >= bound
    ensures PaidQuantity(payments, item) == 0 && forall p | p in payments :: !Touches(p, item)
  {
    forall p | p in payments ensures Signed(QuantityOf(item))(p) == 0 {
      SumZero(p.allocations, QuantityFor(item));
    }
    SumZero(payments, Signed(QuantityOf(item)));
  }

  /** An order whose id, key and items are new. */
  ghost predicate FreshOrder(db: Db, o: Order) {
    && db.next <= o.id && !OrderKeyTaken(db.orders, o.key)
    && DistinctItems(o.items) && HasWork(o)
    && forall item | item in o.items :: db.next <= item.id && Priced(item)
  }

  lemma AppendDistinctOrder(orders: seq<Order>, o: Order)
    requires OrdersOk(orders) && DistinctItems(o.items) && HasWork(o)
    requires forall item | item in o.items :: Priced(item)
    requires forall p | p in orders :: p.id != o.id && p.key != o.key && Disjoint(p, o)
    ensures OrdersOk(orders + [o])
  {
    forall i, j | 0 <= i < j < |orders + [o]|
      ensures (orders + [o])[i].id != (orders + [o])[j].id && (orders + [o])[i].key != (orders + [o])[j].key
      ensures Disjoint((orders + [o])[i], (orders + [o])[j])
    {
      assert orders[i] in orders;
      if j < |orders| {
        assert Disjoint(orders[i], orders[j]);
      }
    }
    assert forall i | 0 <= i < |orders| :: DistinctItems(orders[i].items) && HasWork(orders[i]);
  }

  lemma OrderAppendRows(orders: seq<Order>, payments: seq<Payment>, o: Order, bound: Id)
    requires AllocationsBelow(payments, bound) && OwnItems(orders, payments) && ItemsCovered(orders, payments)
    requires forall item | item in o.items :: bound <= item.id && Priced(item)
    ensures OwnItems(orders + [o], payments) && ItemsCovered(orders + [o], payments)
  {
    forall item | item in o.items
      ensures PaidQuantity(payments, item.id) == 0
      ensures forall p | p in payments :: !Touches(p, item.id)
    {
      NothingPaidYet(payments, bound, item.id);
    }
  }

  lemma OrderAppendStep(before: Db, o: Order, next: Id)
    requires Inv(before) && FreshOrder(before, o) && o.owner.Session? && o.owner.id < before.next
    requires o.id < next && before.next <= next && forall item | item in o.items :: item.id < next
    ensures Inv(before.(next := next, orders := before.orders + [o]))
  {
    AppendDistinctOrder(before.orders, o);
    OrderAppendRows(before.orders, before.payments, o, before.next);
    forall s | s in before.sales ensures SaleOk(s, before.orders + [o], before.payments) {
      SumAppend(before.orders, o, FullFrom(Sale(s.id)));
    }
  }
}
