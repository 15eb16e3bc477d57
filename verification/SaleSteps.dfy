/** Confirming and cancelling a counter sale keep every invariant. */
module SaleSteps {
  import opened Billing
  import opened CounterSales
  import Coupons
  import opened Invariants
  import opened Ledger
  import opened Orders
  import opened PaymentLaws
  import Payments
  import SaleLaws
  import opened Schema
  import opened Sums
  import opened Wrappers

  // ---- coupon use ----

  /** Using up an unused coupon with exactly one new redemption. */
  lemma ConsumeKeeps(coupons: map<string, Coupon>, redemptions: seq<Redemption>, r: Redemption)
    requires UsedIffRedeemed(coupons, redemptions) && r.coupon in coupons && coupons[r.coupon].status == Unused
    ensures UsedIffRedeemed(Coupons.Consumed(coupons, r.coupon), redemptions + [r])
  {
    forall x | x in redemptions ensures x.coupon != r.coupon {
      assert coupons[x.coupon].status == Used;
    }
    var after := redemptions + [r];
    forall code | code in coupons && Coupons.Consumed(coupons, r.coupon)[code].status == Used
      ensures exists x | x in after :: x.coupon == code
    {
      if code == r.coupon {
        assert r in after;
      } else {
        var x :| x in redemptions && x.coupon == code;
        assert x in after;
      }
    }
  }

  /** Marking redemptions cancelled moves no coupon. */
  lemma CancelWhereKeeps(coupons: map<string, Coupon>, redemptions: seq<Redemption>, which: Redemption -> bool)
    requires UsedIffRedeemed(coupons, redemptions)
    ensures UsedIffRedeemed(coupons, Coupons.CancelWhere(redemptions, which))
  {
    var after := Coupons.CancelWhere(redemptions, which);
    assert forall i | 0 <= i < |after| :: after[i].coupon == redemptions[i].coupon;
    forall code | code in coupons && coupons[code].status == Used ensures exists x | x in after :: x.coupon == code {
      var x :| x in redemptions && x.coupon == code;
      var i :| 0 <= i < |redemptions| && redemptions[i] == x;
      assert after[i] in after;
    }
    forall x | x in after ensures x.coupon in coupons && coupons[x.coupon].status == Used {
      var i :| 0 <= i < |after| && after[i] == x;
      assert redemptions[i] in redemptions;
    }
  }

  // ---- confirm: orders ----

  lemma {:induction false} ModeItemsDistinct(lines: seq<OrderLine>, mode: ServingMode, base: Id)
    ensures DistinctItems(ModeItems(lines, mode, base))
  {
    if lines != [] {
      var n := |lines| - 1;
      ModeItemsDistinct(lines[..n], mode, base);
      SaleLaws.ModeItemsLive(lines[..n], mode, base);
      var front := ModeItems(lines[..n], mode, base);
      assert forall k | 0 <= k < |front| :: front[k] in front;
    }
  }

  /** An item that stands for a line of the cart. */
  ghost predicate StandsForLine(item: Item, lines: seq<OrderLine>, base: Id) {
    && base <= item.id < base + |lines|
    && item.quantity == lines[item.id - base].quantity && item.mode == lines[item.id - base].mode
  }

  lemma NewOrderItems(mode: ServingMode, lines: seq<OrderLine>, base: Id)
    requires ValidLines(lines)
    ensures forall item | item in ModeItems(lines, mode, base) ::
              Priced(item) && !item.cancelled && item.mode == mode && StandsForLine(item, lines, base)
    ensures DistinctItems(ModeItems(lines, mode, base))
  {
    SaleLaws.ModeItemsLive(lines, mode, base);
    ModeItemsDistinct(lines, mode, base);
  }

  /** What a batch of new orders owes to the orders before it. */
  ghost predicate Placed(orders: seq<Order>, payments: seq<Payment>, bound: Id) {
    && OrdersOk(orders) && OwnItems(orders, payments) && ItemsCovered(orders, payments)
    && AllocationsBelow(payments, bound)
  }

  /** No order holds an item that stands for a line of the given mode. */
  ghost predicate NoneOf(orders: seq<Order>, lines: seq<OrderLine>, mode: ServingMode, base: Id) {
    forall p, item | p in orders && item in p.items && base <= item.id :: StandsForLine(item, lines, base) && item.mode != mode
  }

  lemma PlaceOne(orders: seq<Order>, payments: seq<Payment>, bound: Id, o: Order)
    requires Placed(orders, payments, bound) && DistinctItems(o.items) && HasWork(o)
    requires forall item | item in o.items :: bound <= item.id && Priced(item)
    requires forall p | p in orders :: p.id != o.id && p.key != o.key && Disjoint(p, o)
    ensures Placed(orders + [o], payments, bound)
  {
    AppendDistinctOrder(orders, o);
    OrderAppendRows(orders, payments, o, bound);
  }

  lemma FreshMode(orders: seq<Order>, lines: seq<OrderLine>, mode: ServingMode, base: Id, o: Order)
    requires NoneOf(orders, lines, mode, base)
    requires o.items != []
    requires forall item | item in o.items :: !item.cancelled && item.mode == mode && StandsForLine(item, lines, base)
    ensures HasWork(o) && forall p | p in orders :: Disjoint(p, o)
  {
    assert o.items[0] in o.items;
  }

  lemma PlaceMode(orders: seq<Order>, payments: seq<Payment>, bound: Id, mode: ServingMode, id: Id, sale: Id, key: SaleKey,
                  lines: seq<OrderLine>, base: Id, at: int)
    requires Placed(orders, payments, bound) && ValidLines(lines) && bound <= base
    requires (forall p | p in orders :: p.id < id) && !OrderKeyTaken(orders, SaleOrder(key, mode))
    requires NoneOf(orders, lines, mode, base)
    ensures Placed(orders + ModeOrders(mode, id, sale, key, lines, base, at), payments, bound)
  {
    var added := ModeOrders(mode, id, sale, key, lines, base, at);
    NewOrderItems(mode, lines, base);
    if added != [] {
      var o := added[0];
      assert added == [o] && o.id == id && o.key == SaleOrder(key, mode) && o.items == ModeItems(lines, mode, base);
      FreshMode(orders, lines, mode, base, o);
      PlaceOne(orders, payments, bound, o);
    } else {
      assert orders + added == orders;
    }
  }

  /** Orders after a confirmation: the old ones and those of the new sale. */
  function OrdersWith(orders: seq<Order>, sale: Id, key: SaleKey, lines: seq<OrderLine>, at: int): seq<Order> {
    orders + KitchenPart(sale, key, lines, at) + CounterPart(sale, key, lines, at)
  }

  ghost predicate NewSaleOrder(o: Order, sale: Id, lines: seq<OrderLine>) {
    && o.owner == Sale(sale) && sale < o.id < ItemBase(sale)
    && forall item | item in o.items :: StandsForLine(item, lines, ItemBase(sale))
  }

  lemma PartsAreNew(sale: Id, key: SaleKey, lines: seq<OrderLine>, at: int)
    requires ValidLines(lines)
    ensures forall o | o in KitchenPart(sale, key, lines, at) ::
              o.id == sale + 1 && o.key == SaleOrder(key, Kitchen) && NewSaleOrder(o, sale, lines)
              && forall item | item in o.items :: item.mode == Kitchen
    ensures forall o | o in CounterPart(sale, key, lines, at) :: NewSaleOrder(o, sale, lines)
  {
    NewOrderItems(Kitchen, lines, ItemBase(sale));
    NewOrderItems(Counter, lines, ItemBase(sale));
  }

  lemma NoneYet(db: Db, lines: seq<OrderLine>, mode: ServingMode)
    requires IdsBelow(db)
    ensures NoneOf(db.orders, lines, mode, ItemBase(db.next)) && forall p | p in db.orders :: p.id < db.next + 1
  {
  }

  lemma KitchenPlaced(db: Db, key: SaleKey, lines: seq<OrderLine>, at: int)
    requires IdsBelow(db) && Placed(db.orders, db.payments, db.next) && ValidLines(lines)
    requires !OrderKeyTaken(db.orders, SaleOrder(key, Kitchen))
    ensures Placed(db.orders + KitchenPart(db.next, key, lines, at), db.payments, db.next)
  {
    NoneYet(db, lines, Kitchen);
    PlaceMode(db.orders, db.payments, db.next, Kitchen, db.next + 1, db.next, key, lines, ItemBase(db.next), at);
  }

  lemma ReadyForCounter(db: Db, key: SaleKey, lines: seq<OrderLine>, at: int)
    requires IdsBelow(db) && ValidLines(lines) && !OrderKeyTaken(db.orders, SaleOrder(key, Counter))
    ensures var orders := db.orders + KitchenPart(db.next, key, lines, at);
            && (forall p | p in orders :: p.id < db.next + 2) && !OrderKeyTaken(orders, SaleOrder(key, Counter))
            && NoneOf(orders, lines, Counter, ItemBase(db.next))
  {
    PartsAreNew(db.next, key, lines, at);
  }

  lemma ConfirmPlaced(db: Db, key: SaleKey, lines: seq<OrderLine>, at: int)
    requires IdsBelow(db) && Placed(db.orders, db.payments, db.next) && ValidLines(lines)
    requires !OrderKeyTaken(db.orders, SaleOrder(key, Kitchen)) && !OrderKeyTaken(db.orders, SaleOrder(key, Counter))
    ensures Placed(OrdersWith(db.orders, db.next, key, lines, at), db.payments, db.next)
  {
    KitchenPlaced(db, key, lines, at);
    ReadyForCounter(db, key, lines, at);
    PlaceMode(db.orders + KitchenPart(db.next, key, lines, at), db.payments, db.next, Counter, db.next + 2, db.next, key, lines,
              ItemBase(db.next), at);
  }

  /** Every order after a confirmation is an old one or one of the new sale. */
  lemma OldOrNew(db: Db, key: SaleKey, lines: seq<OrderLine>, at: int, o: Order)
    requires ValidLines(lines) && o in OrdersWith(db.orders, db.next, key, lines, at)
    ensures o in db.orders || NewSaleOrder(o, db.next, lines)
  {
    PartsAreNew(db.next, key, lines, at);
  }

  // ---- confirm: payments ----

  predicate InCart(db: Db, lines: seq<OrderLine>, item: Id) {
    ItemBase(db.next) <= item < ItemBase(db.next) + |lines|
  }

  /** A new row of the sale that covers at most each line's quantity, together with what is there already. */
  ghost predicate SaleRow(db: Db, lines: seq<OrderLine>, rows: seq<Payment>, p: Payment) {
    && p.owner == Sale(db.next) && Follows(rows, p)
    && (forall a | a in p.allocations :: InCart(db, lines, a.item))
    && (forall item: Id | InCart(db, lines, item) ::
          PaidQuantity(rows + [p], item) <= lines[item - ItemBase(db.next)].quantity)
  }

  /** Orders and ledger stay consistent while rows of the new sale are appended. */
  ghost predicate SaleSound(orders: seq<Order>, rows: seq<Payment>) {
    IsLedger(rows) && OwnItems(orders, rows) && ItemsCovered(orders, rows)
  }

  lemma SaleRowKeeps(db: Db, key: SaleKey, lines: seq<OrderLine>, at: int, rows: seq<Payment>, p: Payment)
    requires IdsBelow(db) && ValidLines(lines) && SaleRow(db, lines, rows, p)
    requires SaleSound(OrdersWith(db.orders, db.next, key, lines, at), rows)
    ensures SaleSound(OrdersWith(db.orders, db.next, key, lines, at), rows + [p])
  {
    var orders := OrdersWith(db.orders, db.next, key, lines, at);
    LedgerAppend(rows, p);
    forall o, item | o in orders && item in o.items
      ensures Touches(p, item.id) ==> o.owner == p.owner
      ensures 0 <= PaidQuantity(rows + [p], item.id) <= item.quantity
    {
      OldOrNew(db, key, lines, at, o);
      PaidQuantityIsStanding(rows + [p], item.id);
      if Touches(p, item.id) {
        assert InCart(db, lines, item.id);
      } else {
        Untouched(rows, p, item.id);
      }
    }
  }

  /** What the quote owes the rows built from it. */
  ghost predicate SoundQuote(db: Db, req: Request, q: Quote) {
    && |q.discounts| == |q.lines| && ValidLines(q.lines)
    && Subtotal(q.lines) == q.discountAmount + q.totalAmount && q.discountAmount >= 0 && q.totalAmount >= 0
    && (if q.coupon.Some? then q.coupon.value.discount == q.discountAmount else q.discountAmount == 0)
    && (q.coupon.Some? ==> Coupons.Consumable(db, q.coupon.value.code))
    && (q.totalAmount > 0 ==> req.means.Some?)
    && !UniqueClash(db, req, q)
  }

  lemma LineRowBound(amounts: seq<int>, quantities: seq<int>, base: Id, item: Id)
    requires |amounts| == |quantities| && base <= item < base + |amounts| && quantities[item - base] >= 0
    ensures 0 <= QuantityIn(LineRows(amounts, quantities, base), item) <= quantities[item - base]
  {
    SaleLaws.LineQuantities(amounts, quantities, base, item);
  }

  lemma DiscountQuantity(sale: Id, q: Quote, item: Id)
    requires |q.discounts| == |q.lines| && ItemBase(sale) <= item < ItemBase(sale) + |q.lines|
    ensures QuantityIn(DiscountRows(sale, q), item) == 0
  {
    var none := Zeros(|q.lines|);
    assert none[item - ItemBase(sale)] == 0;
    LineRowBound(q.discounts, none, ItemBase(sale), item);
  }

  lemma ChargeQuantity(sale: Id, q: Quote, item: Id)
    requires |q.discounts| == |q.lines|
    requires ValidLines(q.lines) && ItemBase(sale) <= item < ItemBase(sale) + |q.lines|
    ensures 0 <= QuantityIn(ChargeRows(sale, q), item) <= q.lines[item - ItemBase(sale)].quantity
  {
    var nets, quantities := NetAmounts(q), Quantities(q.lines);
    assert quantities[item - ItemBase(sale)] == q.lines[item - ItemBase(sale)].quantity;
    LineRowBound(nets, quantities, ItemBase(sale), item);
  }

  /** The discount of a quote covers no quantity, its charge at most each line. */
  lemma QuoteRows(sale: Id, q: Quote, item: Id)
    requires |q.discounts| == |q.lines|
    requires ValidLines(q.lines) && ItemBase(sale) <= item < ItemBase(sale) + |q.lines|
    ensures QuantityIn(DiscountRows(sale, q), item) == 0
    ensures 0 <= QuantityIn(ChargeRows(sale, q), item) <= q.lines[item - ItemBase(sale)].quantity
  {
    DiscountQuantity(sale, q, item);
    ChargeQuantity(sale, q, item);
  }

  ghost predicate InCartRows(lines: seq<OrderLine>, base: Id, rows: seq<Allocation>) {
    forall a | a in rows :: base <= a.item < base + |lines| && a.quantity >= 0
  }

  lemma RowsInCart(sale: Id, q: Quote)
    requires |q.discounts| == |q.lines| && ValidLines(q.lines)
    ensures InCartRows(q.lines, ItemBase(sale), DiscountRows(sale, q))
    ensures InCartRows(q.lines, ItemBase(sale), ChargeRows(sale, q))
  {
    SaleLaws.LineRowsRange(q.discounts, Zeros(|q.lines|), ItemBase(sale));
    SaleLaws.LineRowsRange(NetAmounts(q), Quantities(q.lines), ItemBase(sale));
  }

  /** Allocation rows that cover at most each line's quantity. */
  ghost predicate CoversCart(lines: seq<OrderLine>, base: Id, rows: seq<Allocation>) {
    && InCartRows(lines, base, rows)
    && forall item: Id | base <= item < base + |lines| :: QuantityIn(rows, item) <= lines[item - base].quantity
  }

  lemma QuoteCoversCart(sale: Id, q: Quote)
    requires |q.discounts| == |q.lines| && ValidLines(q.lines)
    ensures CoversCart(q.lines, ItemBase(sale), DiscountRows(sale, q))
    ensures CoversCart(q.lines, ItemBase(sale), ChargeRows(sale, q))
  {
    RowsInCart(sale, q);
    forall item: Id | ItemBase(sale) <= item < ItemBase(sale) + |q.lines|
      ensures QuantityIn(DiscountRows(sale, q), item) <= q.lines[item - ItemBase(sale)].quantity
      ensures QuantityIn(ChargeRows(sale, q), item) <= q.lines[item - ItemBase(sale)].quantity
    {
      QuoteRows(sale, q, item);
    }
  }

  lemma IsSaleRow(db: Db, lines: seq<OrderLine>, rows: seq<Payment>, p: Payment)
    requires p.owner == Sale(db.next) && IsOriginal(p) && Follows(rows, p)
    requires CoversCart(lines, ItemBase(db.next), p.allocations)
    requires forall item: Id | InCart(db, lines, item) :: PaidQuantity(rows, item) == 0
    ensures SaleRow(db, lines, rows, p)
  {
    forall item: Id | InCart(db, lines, item)
      ensures PaidQuantity(rows + [p], item) <= lines[item - ItemBase(db.next)].quantity
    {
      PaidQuantityAppend(rows, p, item);
    }
  }

  lemma DiscountIsSaleRow(db: Db, req: Request, q: Quote)
    requires IdsBelow(db) && SoundQuote(db, req, q) && q.coupon.Some?
    ensures SaleRow(db, q.lines, db.payments, CouponRow(db.next, req, q, DiscountRows(db.next, q)))
  {
    QuoteCoversCart(db.next, q);
    forall item: Id | InCart(db, q.lines, item) ensures PaidQuantity(db.payments, item) == 0 {
      NothingPaidYet(db.payments, db.next, item);
    }
    IsSaleRow(db, q.lines, db.payments, CouponRow(db.next, req, q, DiscountRows(db.next, q)));
  }

  lemma ChargeIsSaleRow(db: Db, req: Request, q: Quote, rows: seq<Payment>, means: Payments.PaymentMethod)
    requires SoundQuote(db, req, q)
    requires forall p | p in rows :: p.id <= ItemBase(db.next) + |q.lines| && p.key != SaleCharge(KeyOf(req))
    requires forall item: Id | InCart(db, q.lines, item) :: PaidQuantity(rows, item) == 0
    ensures SaleRow(db, q.lines, rows, ChargeRow(db.next, req, q, means, ChargeRows(db.next, q)))
  {
    QuoteCoversCart(db.next, q);
    IsSaleRow(db, q.lines, rows, ChargeRow(db.next, req, q, means, ChargeRows(db.next, q)));
  }

  lemma AfterDiscount(db: Db, req: Request, q: Quote, item: Id)
    requires IdsBelow(db) && SoundQuote(db, req, q) && InCart(db, q.lines, item)
    ensures PaidQuantity(db.payments + DiscountPart(db.next, req, q), item) == 0
  {
    NothingPaidYet(db.payments, db.next, item);
    if q.coupon.Some? {
      QuoteRows(db.next, q, item);
      PaidQuantityAppend(db.payments, CouponRow(db.next, req, q, DiscountRows(db.next, q)), item);
    } else {
      assert db.payments + DiscountPart(db.next, req, q) == db.payments;
    }
  }

  lemma ConfirmSound(db: Db, req: Request, q: Quote)
    requires Inv(db) && SoundQuote(db, req, q)
    ensures SaleSound(OrdersWith(db.orders, db.next, KeyOf(req), q.lines, req.at),
                      db.payments + DiscountPart(db.next, req, q) + ChargePart(db.next, req, q))
  {
    ConfirmPlaced(db, KeyOf(req), q.lines, req.at);
    var rows := db.payments + DiscountPart(db.next, req, q);
    if q.coupon.Some? {
      DiscountIsSaleRow(db, req, q);
      SaleRowKeeps(db, KeyOf(req), q.lines, req.at, db.payments, CouponRow(db.next, req, q, DiscountRows(db.next, q)));
    } else {
      assert rows == db.payments;
    }
    if q.totalAmount > 0 && req.means.Some? {
      forall item: Id | InCart(db, q.lines, item) ensures PaidQuantity(rows, item) == 0 {
        AfterDiscount(db, req, q, item);
      }
      ChargeIsSaleRow(db, req, q, rows, req.means.value);
      SaleRowKeeps(db, KeyOf(req), q.lines, req.at, rows,
                   ChargeRow(db.next, req, q, req.means.value, ChargeRows(db.next, q)));
    } else {
      assert rows + ChargePart(db.next, req, q) == rows;
    }
  }

  // ---- confirm: the whole step ----

  lemma ConfirmIds(db: Db, req: Request, q: Quote)
    requires IdsBelow(db) && SoundQuote(db, req, q)
    ensures IdsBelow(WriteSale(db, req, q))
  {
    var after := WriteSale(db, req, q);
    RowsInCart(db.next, q);
    forall o | o in after.orders
      ensures o.id < after.next && o.owner.id < after.next && forall item | item in o.items :: item.id < after.next
    {
      OldOrNew(db, KeyOf(req), q.lines, req.at, o);
    }
  }

  lemma NothingOfNewSale(db: Db)
    requires IdsBelow(db)
    ensures Paid(db.payments, Sale(db.next)) == 0 && FullTotal(db.orders, Sale(db.next)) == 0
  {
    SumZero(db.payments, Signed(Ledger.AmountFor(Sale(db.next))));
    SumZero(db.orders, FullFrom(Sale(db.next)));
  }

  lemma {:induction false} MaxSaleNoBounds(sales: seq<CounterSale>)
    ensures forall s | s in sales :: s.saleNo <= MaxSaleNo(sales)
  {
    if sales != [] {
      MaxSaleNoBounds(sales[..|sales| - 1]);
    }
  }

  lemma NoneStandAppended(rows: seq<Payment>, more: seq<Payment>, owner: Owner)
    requires NoneStand(rows, owner) && forall p | p in more :: p.owner != owner
    ensures NoneStand(rows + more, owner)
  {
    forall p | p in rows + more && p.owner == owner ensures !Stands(rows + more, p) {
      if IsOriginal(p) {
        var r :| r in rows && r.reverses == Some(p.id);
        assert r in rows + more;
      }
    }
  }

  lemma OldSaleKept(db: Db, req: Request, q: Quote, s: CounterSale)
    requires IdsBelow(db) && s in db.sales && SaleOk(s, db.orders, db.payments) && SoundQuote(db, req, q)
    ensures SaleOk(s, WriteSale(db, req, q).orders, WriteSale(db, req, q).payments)
  {
    var after := WriteSale(db, req, q);
    SaleLaws.WriteSettles(db, req, q, Sale(s.id));
    if s.status != Completed {
      forall o | o in after.orders && o.owner == Sale(s.id) ensures o.status == Cancelled {
        OldOrNew(db, KeyOf(req), q.lines, req.at, o);
      }
      NoneStandAppended(db.payments, DiscountPart(db.next, req, q), Sale(s.id));
      NoneStandAppended(db.payments + DiscountPart(db.next, req, q), ChargePart(db.next, req, q), Sale(s.id));
    }
  }

  lemma NewSaleOk(db: Db, req: Request, q: Quote, s: CounterSale)
    requires IdsBelow(db) && SoundQuote(db, req, q) && s.id == db.next && s.status == Completed
    ensures SaleOk(s, WriteSale(db, req, q).orders, WriteSale(db, req, q).payments)
  {
    NothingOfNewSale(db);
    SaleLaws.WriteSettles(db, req, q, Sale(db.next));
  }

  lemma ConfirmSales(db: Db, req: Request, q: Quote)
    requires IdsBelow(db) && SalesOk(db.sales, db.orders, db.payments) && SoundQuote(db, req, q)
    ensures var after := WriteSale(db, req, q); SalesOk(after.sales, after.orders, after.payments)
  {
    var after := WriteSale(db, req, q);
    var s := after.sales[|db.sales|];
    assert after.sales == db.sales + [s];
    MaxSaleNoBounds(db.sales);
    assert forall i | 0 <= i < |db.sales| :: db.sales[i] in db.sales;
    forall was | was in db.sales ensures SaleOk(was, after.orders, after.payments) {
      OldSaleKept(db, req, q, was);
    }
    NewSaleOk(db, req, q, s);
  }

  lemma ConfirmCoupons(db: Db, req: Request, q: Quote)
    requires UsedIffRedeemed(db.coupons, db.redemptions) && SoundQuote(db, req, q)
    ensures UsedIffRedeemed(CouponsAfter(db.coupons, q), db.redemptions + RedemptionPart(db.next, q))
  {
    if q.coupon.Some? {
      ConsumeKeeps(db.coupons, db.redemptions, RedemptionPart(db.next, q)[0]);
    } else {
      assert db.redemptions + RedemptionPart(db.next, q) == db.redemptions;
    }
  }

  lemma ConfirmStep(db: Db, req: Request)
    requires Inv(db) && ValidLines(req.lines)
    ensures Inv(AfterConfirm(db, req))
  {
    if Confirm(db, req).Ok? {
      var q := Confirm(db, req).value;
      QuoteIsExact(db, req.lines, req.code, req.target, req.at);
      assert SoundQuote(db, req, q);
      ConfirmPlaced(db, KeyOf(req), q.lines, req.at);
      ConfirmSound(db, req, q);
      ConfirmIds(db, req, q);
      ConfirmSales(db, req, q);
      ConfirmCoupons(db, req, q);
    }
  }

  // ---- cancel ----

  lemma {:induction false} RefundRowsCopy(all: seq<Payment>, targets: seq<Payment>, sale: Id, base: Id, at: int)
    requires forall i | 0 <= i < |targets| :: targets[i] in all
    ensures forall r | r in RefundRows(all, targets, sale, base, at) ::
              && r.owner == Sale(sale) && r.key.SaleRefund?
              && exists o | o in all :: o.allocations == r.allocations && o in targets
    decreases |targets|
  {
    if targets != [] {
      RefundRowsCopy(all, targets[..|targets| - 1], sale, base, at);
    }
  }

  lemma RefundsCopy(db: Db, sale: Id, at: int)
    ensures forall r | r in Refunds(db, sale, at) ::
              && r.owner == Sale(sale) && r.key.SaleRefund?
              && exists o | o in db.payments && o.owner == Sale(sale) :: o.allocations == r.allocations
  {
    var targets := Filter(db.payments, OriginalsOf(sale));
    forall p ensures p in targets <==> p in db.payments && OriginalsOf(sale)(p) {
      FilterMember(db.payments, OriginalsOf(sale), p);
    }
    RefundRowsCopy(db.payments, targets, sale, db.next, at);
  }

  /** Reversals can only lower what is paid of an item. */
  lemma RefundsLowerQuantity(rows: seq<Payment>, more: seq<Payment>, item: Id)
    requires IsLedger(rows + more) && forall r | r in more :: !IsOriginal(r)
    ensures PaidQuantity(rows + more, item) <= PaidQuantity(rows, item)
  {
    SumConcat(rows, more, Signed(QuantityOf(item)));
    LedgerRows(rows + more);
    forall r | r in more ensures Signed(QuantityOf(item))(r) <= 0 {
      assert r in rows + more;
      QuantityNonneg(r, item);
    }
    SumLeq(more, Signed(QuantityOf(item)), _ => 0);
    SumZero(more, (_: Payment) => 0);
  }

  lemma CancelSaleSound(db: Db, sale: Id, at: int)
    requires IdsBelow(db) && SaleSound(db.orders, db.payments)
    ensures var rows := db.payments + Refunds(db, sale, at);
            && SaleSound(db.orders, rows)
            && (forall p | p in rows :: p.id < db.next + |Refunds(db, sale, at)|)
            && AllocationsBelow(rows, db.next)
  {
    var more := Refunds(db, sale, at);
    var rows := db.payments + more;
    SaleLaws.RefundsKeepLedger(db, sale, at);
    RefundsCopy(db, sale, at);
    forall o, item | o in db.orders && item in o.items
      ensures 0 <= PaidQuantity(rows, item.id) <= item.quantity
    {
      PaidQuantityIsStanding(rows, item.id);
      RefundsLowerQuantity(db.payments, more, item.id);
    }
    forall p, o, item | p in rows && o in db.orders && item in o.items && Touches(p, item.id) ensures o.owner == p.owner {
      if p !in db.payments {
        var source :| source in db.payments && source.owner == Sale(sale) && source.allocations == p.allocations;
        assert Touches(source, item.id);
      }
    }
  }

  lemma CancelOrdersKeep(orders: seq<Order>, sale: Id)
    ensures SameOrders(orders, CancelSaleOrders(orders, sale)) && CancelledStays(orders, CancelSaleOrders(orders, sale))
    ensures AllHaveWork(orders) ==> AllHaveWork(CancelSaleOrders(orders, sale))
    ensures AllCancelled(CancelSaleOrders(orders, sale), Sale(sale))
  {
    var after := CancelSaleOrders(orders, sale);
    forall i | 0 <= i < |orders| && AllHaveWork(orders) ensures HasWork(after[i]) {
      assert HasWork(orders[i]);
    }
  }

  lemma OtherSaleKept(db: Db, sale: Id, at: int, s: CounterSale)
    requires IdsBelow(db) && IsLedger(db.payments) && SaleOk(s, db.orders, db.payments) && s.id != sale
    ensures SaleOk(s, CancelSaleOrders(db.orders, sale), db.payments + Refunds(db, sale, at))
  {
    var orders, more := CancelSaleOrders(db.orders, sale), Refunds(db, sale, at);
    CancelOrdersKeep(db.orders, sale);
    RefundsCopy(db, sale, at);
    SaleKept(s, db.orders, orders, db.payments);
    SaleLaws.OthersPaid(db.payments, more, sale, Sale(s.id));
    if s.status != Completed {
      NoneStandAppended(db.payments, more, Sale(s.id));
    }
  }

  lemma CancelSales(db: Db, sale: Id, at: int)
    requires IdsBelow(db) && IsLedger(db.payments) && SalesOk(db.sales, db.orders, db.payments)
    ensures SalesOk(CancelSaleRows(db.sales, sale), CancelSaleOrders(db.orders, sale), db.payments + Refunds(db, sale, at))
  {
    var sales, orders := CancelSaleRows(db.sales, sale), CancelSaleOrders(db.orders, sale);
    CancelOrdersKeep(db.orders, sale);
    SaleLaws.RefundsKeepLedger(db, sale, at);
    forall s | s in sales ensures SaleOk(s, orders, db.payments + Refunds(db, sale, at)) {
      var i :| 0 <= i < |sales| && sales[i] == s;
      assert db.sales[i] in db.sales;
      if s.id != sale {
        OtherSaleKept(db, sale, at, s);
      }
    }
  }

  lemma CancelledRows(db: Db, sale: Id, at: int)
    requires IdsBelow(db) && OrdersOk(db.orders) && SaleSound(db.orders, db.payments)
    ensures var orders, rows := CancelSaleOrders(db.orders, sale), db.payments + Refunds(db, sale, at);
            OrdersOk(orders) && SaleSound(orders, rows)
  {
    var orders, rows := CancelSaleOrders(db.orders, sale), db.payments + Refunds(db, sale, at);
    CancelSaleSound(db, sale, at);
    CancelOrdersKeep(db.orders, sale);
    SameOrdersDistinct(db.orders, orders);
    forall o, item | o in orders && item in o.items
      ensures Priced(item) && 0 <= PaidQuantity(rows, item.id) <= item.quantity
      ensures forall p | p in rows && Touches(p, item.id) :: o.owner == p.owner
    {
      var p, was := ItemOrigin(db.orders, orders, o, item);
      assert Priced(was);
    }
  }

  lemma CancelIds(db: Db, sale: Id, hasReason: bool, at: int)
    requires IdsBelow(db) && IsLedger(db.payments) && CancelSale(db, sale, hasReason, at).Ok?
    requires SaleSound(db.orders, db.payments)
    requires FindSale(db.sales, sale).Some? ==> sale < db.next
    ensures IdsBelow(AfterCancelSale(db, sale, hasReason, at))
  {
    var after := AfterCancelSale(db, sale, hasReason, at);
    CancelSaleSound(db, sale, at);
    RefundsCopy(db, sale, at);
    CancelOrderIds(db, sale);
    forall s | s in after.sales ensures s.id < after.next {
      var i :| 0 <= i < |after.sales| && after.sales[i] == s;
      assert db.sales[i] in db.sales;
    }
    forall r | r in after.redemptions ensures r.owner.id < after.next {
      var i :| 0 <= i < |after.redemptions| && after.redemptions[i] == r;
      assert db.redemptions[i] in db.redemptions;
    }
  }

  lemma CancelOrderIds(db: Db, sale: Id)
    requires IdsBelow(db)
    ensures forall o | o in CancelSaleOrders(db.orders, sale) ::
              o.id < db.next && o.owner.id < db.next && forall item | item in o.items :: item.id < db.next
  {
    forall o | o in CancelSaleOrders(db.orders, sale)
      ensures o.id < db.next && o.owner.id < db.next && forall item | item in o.items :: item.id < db.next
    {
      var i :| 0 <= i < |db.orders| && CancelSaleOrders(db.orders, sale)[i] == o;
      assert db.orders[i] in db.orders && o.items == db.orders[i].items;
    }
  }

  lemma {:induction false} FoundSale(sales: seq<CounterSale>, id: Id)
    ensures FindSale(sales, id).Some? ==> FindSale(sales, id).value in sales && FindSale(sales, id).value.id == id
    ensures FindSale(sales, id).None? ==> forall s | s in sales :: s.id != id
  {
    if sales != [] {
      FoundSale(sales[..|sales| - 1], id);
      assert sales == sales[..|sales| - 1] + [sales[|sales| - 1]];
    }
  }

  lemma CancelStep(db: Db, sale: Id, hasReason: bool, at: int)
    requires Inv(db)
    ensures Inv(AfterCancelSale(db, sale, hasReason, at))
  {
    if CancelSale(db, sale, hasReason, at).Ok? {
      FoundSale(db.sales, sale);
      CancelledRows(db, sale, at);
      CancelSales(db, sale, at);
      CancelIds(db, sale, hasReason, at);
      CancelWhereKeeps(db.coupons, db.redemptions, Coupons.OfSale(sale));
    }
  }
}
