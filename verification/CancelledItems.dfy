/**
 Items cancelled one by one. The bill leaves them out (server/src/services/billing.ts:36); payment by item
 and coupons look at the order's status only.
 */
module CancelledItems {
  import opened Billing
  import opened Ledger
  import opened MoneyLaws
  import O = Orders
  import opened PaymentLaws
  import P = Payments
  import opened Scenarios
  import opened Schema
  import opened Sums
  import TC = TableCoupons
  import opened TableCouponLaws
  import opened World
  import opened Wrappers

  // ---- payment by item ----

  predicate IsCancelled(orders: seq<Order>, w: P.Wanted) {
    P.FindOrderItem(orders, w.item).Some? && P.FindOrderItem(orders, w.item).value.item.cancelled
  }

  /** What the request costs on lines that the bill charges, and on lines that it does not. */
  function Billed(orders: seq<Order>): P.Wanted -> int {
    (w: P.Wanted) => if IsCancelled(orders, w) then 0 else PortionPrice(orders)(w)
  }

  function Unbilled(orders: seq<Order>): P.Wanted -> int {
    (w: P.Wanted) => if IsCancelled(orders, w) then PortionPrice(orders)(w) else 0
  }

  /** A payment by item takes money only for what the bill charges iff it names no cancelled item that has a price. */
  lemma PaysForBilledExactly(db: Db, session: Id, means: P.PaymentMethod, wanted: seq<P.Wanted>, tendered: Option<int>,
                             text: KeyText, at: int)
    requires AllPriced(db.orders) && P.PayItems(db, session, means, wanted, tendered, text, at).Ok?
    ensures P.PayItems(db, session, means, wanted, tendered, text, at).value.amount == Sum(wanted, Billed(db.orders))
        <==> forall w | w in wanted && IsCancelled(db.orders, w) :: PortionPrice(db.orders)(w) == 0
  {
    ItemsPriced(db, session, means, wanted, tendered, text, at);
    ItemsAccepted(db, session, means, wanted, tendered, text, at);
    forall w | w in wanted ensures Unbilled(db.orders)(w) >= 0 {
      var i :| 0 <= i < |wanted| && wanted[i] == w;
      assert CanPay(db, session, wanted[i]);
      PortionNonneg(db.orders, w);
    }
    SumPlus(wanted, Billed(db.orders), Unbilled(db.orders), PortionPrice(db.orders));
    ZeroIffAllZero(wanted, Unbilled(db.orders));
  }

  lemma PortionNonneg(orders: seq<Order>, w: P.Wanted)
    requires AllPriced(orders) && P.FindOrderItem(orders, w.item).Some? && w.quantity >= 1
    ensures PortionPrice(orders)(w) >= 0
  {
    P.FoundHasId(orders, w.item);
    PricedLine(P.FindOrderItem(orders, w.item).value.item, w.quantity);
  }

  lemma ZeroIffAllZero<T>(s: seq<T>, f: T -> int)
    requires forall x | x in s :: f(x) >= 0
    ensures Sum(s, f) == 0 <==> forall x | x in s :: f(x) == 0
  {
    if forall x | x in s :: f(x) == 0 {
      SumZero(s, f);
    } else {
      var x :| x in s && f(x) != 0;
      var k :| 0 <= k < |s| && s[k] == x;
      SumTerm(s, f, k);
    }
  }

  // ---- a run that pays for a cancelled item ----

  function Portion(id: Id, cancelled: bool): Item {
    Item(id, 0, 1000, [], 1, Kitchen, cancelled)
  }

  /** Two portions on one order, the first perhaps cancelled. */
  function TwoPortions(cancelled: bool): Order {
    Order(2, Session(1), New, TableOrder(1, "first"), 0, [Portion(3, cancelled), Portion(4, false)])
  }

  function WithTwo(cancelled: bool): Db {
    OPENED.(next := 5, orders := [TwoPortions(cancelled)])
  }

  const FIRST_ITEM: P.Wanted := P.Wanted(3, 1)

  lemma TwoBilled()
    ensures OrderTotal([TwoPortions(true)], Session(1)) == 1000
  {
    var o := TwoPortions(true);
    assert o.items[..1] == [Portion(3, true)] && o.items[..1][..0] == [];
    assert Sum(o.items, LiveLine) == 1000;
    SumOne(o, AmountFrom(Session(1)));
  }

  lemma CancelsFirst()
    ensures O.AfterCancel(WithTwo(false), 2, [3]) == WithTwo(true)
  {
    var o := TwoPortions(false);
    assert [o][..0] == [];
    assert O.IdsOf(o.items)[0] == 3;
    var struck := O.StruckItems(o.items, [3]);
    assert struck == TwoPortions(true).items && !struck[1].cancelled;
    assert O.StrikeItems([o], [3]) == [TwoPortions(true)];
  }

  lemma FoundFirst()
    ensures P.FindOrderItem([TwoPortions(true)], 3) == Some(P.Found(TwoPortions(true), Portion(3, true)))
  {
    var o := TwoPortions(true);
    assert o.items[..1] == [Portion(3, true)];
  }

  /** The row that the payment inserts. */
  function PaidFor(): Payment {
    Payment(5, Session(1), Charge, "CARD", 1000, None, None, None, None, Scoped(1, Plain("paid")), 0, [Allocation(3, 1, 1000)])
  }

  lemma PaysForFirst()
    ensures P.PayItems(WithTwo(true), 1, CARD, [FIRST_ITEM], None, Plain("paid"), 0) == Ok(PaidFor())
  {
    var db, wanted := WithTwo(true), [FIRST_ITEM];
    TwoBilled();
    FoundFirst();
    assert CanPay(db, 1, wanted[0]) by {
      assert PaidQuantity([], 3) == 0;
    }
    SumOne(FIRST_ITEM, PortionPrice(db.orders));
    ItemsAccepted(db, 1, CARD, wanted, None, Plain("paid"), 0);
    assert Paid([], Session(1)) == 0;
    ItemsPriced(db, 1, CARD, wanted, None, Plain("paid"), 0);
    var p := P.PayItems(db, 1, CARD, wanted, None, Plain("paid"), 0).value;
    assert p.allocations == [Allocation(3, 1, 1000)];
  }

  lemma EndsPaid()
    ensures Remaining(WithTwo(true).(payments := [PaidFor()]), Session(1)) == 0
    ensures PaidQuantity([PaidFor()], 3) == 1 && PaidQuantity([PaidFor()], 4) == 0
  {
    TwoBilled();
    SumOne(PaidFor(), Signed(Ledger.AmountFor(Session(1))));
    SumOne(PaidFor(), Signed(QuantityOf(3)));
    SumOne(PaidFor(), Signed(QuantityOf(4)));
    SumOne(Allocation(3, 1, 1000), QuantityFor(3));
    SumOne(Allocation(3, 1, 1000), QuantityFor(4));
  }

  lemma RecordsTwo()
    ensures O.RecordOrder(OPENED, O.CreateOrder(OPENED, 1, "first", [PORTION, PORTION], 0)) == WithTwo(false)
  {
    assert O.TableOrderRow(OPENED, 1, "first", [PORTION, PORTION], 0).items == TwoPortions(false).items;
  }

  lemma PlaceTwo() returns (steps: seq<Step>, w: World)
    ensures Reaches(steps, w) && w.db == WithTwo(false)
  {
    var before, v := Opened();
    var order := OnOrder(CreateOrder(1, "first", [PORTION, PORTION], 0));
    ThenStep(before, v, order);
    steps, w := before + [order], Next(v, order);
    RecordsTwo();
  }

  lemma CancelOne() returns (steps: seq<Step>, w: World)
    ensures Reaches(steps, w) && w.db == WithTwo(true)
  {
    var before, v := PlaceTwo();
    var cancel := OnOrder(CancelOrder(2, [3]));
    ThenStep(before, v, cancel);
    steps, w := before + [cancel], Next(v, cancel);
    CancelsFirst();
  }

  /**
   A run from the empty database: two portions are ordered, one is cancelled, and a payment by item for just
   that one is accepted. Nothing is owed any more although no payment covers the portion that is left.
   */
  lemma CancelledItemIsPaidFor() returns (steps: seq<Step>, w: World)
    ensures Reaches(steps, w) && Remaining(w.db, Session(1)) == 0
    ensures w.db.orders == [TwoPortions(true)] && PaidQuantity(w.db.payments, 3) == 1 && PaidQuantity(w.db.payments, 4) == 0
  {
    var before, v := CancelOne();
    var pay := OnPayment(PayItems(1, CARD, [FIRST_ITEM], None, Plain("paid"), 0));
    ThenStep(before, v, pay);
    steps, w := before + [pay], Next(v, pay);
    PaysForFirst();
    EndsPaid();
  }

  // ---- a coupon's free item ----

  /** The item a free-item coupon is for is taken as it is found: what it takes off does not depend on the item's own mark. */
  lemma CancelledItemStaysFree(db: Db, session: Id, code: string, target: Option<Id>, now: int, i: int, k: int)
    requires O.OrdersDistinct(db.orders) && MayRedeem(db, session, code, now) && db.coupons[code].benefit.FreeItem?
    requires IsFree(db.orders, Session(session), db.coupons[code].benefit.targets, target, i, k)
    requires db.orders[i].items[k].cancelled && db.orders[i].items[k].unitPrice > 0
    ensures TC.Resolve(db, session, code, target, now)
         == Ok(TC.Preview(Min(db.orders[i].items[k].unitPrice, Remaining(db, Session(session))),
                          Remaining(db, Session(session)), Some(db.orders[i].items[k].id)))
  {
    var targets := db.coupons[code].benefit.targets;
    ResolveAccepts(db, session, code, target, now);
    ResolveTakes(db, session, code, target, now);
    var p := TC.Resolve(db, session, code, target, now).value;
    var j, l :| IsFree(db.orders, Session(session), targets, target, j, l)
      && p.target == Some(db.orders[j].items[l].id) && p.discount == Min(db.orders[j].items[l].unitPrice, p.remainingBefore);
    FreeIsUnique(db.orders, Session(session), targets, target, i, k, j, l);
  }
}
