/** Exactly when a counter sale is confirmed or cancelled, and exactly what is then recorded. */
module SaleMoney {
  import opened CounterSales
  import opened Ledger
  import opened MoneyLaws
  import opened Orders
  import Payments
  import opened SaleLaws
  import SaleSteps
  import opened Schema
  import opened Sums
  import opened Wrappers

  // ---- when a sale is confirmed ----

  /** Nothing to pay, or a method was named and, for cash, at least the price was handed over. */
  predicate CanSettle(price: int, means: Option<Payments.PaymentMethod>, tendered: Option<int>) {
    price > 0 ==> means.Some? && (means.value.isCash ==> tendered.Some? && tendered.value >= price)
  }

  /** Neither this request nor its coupon has been through before. */
  ghost predicate NotDoneBefore(db: Db, key: SaleKey, coupon: Option<string>) {
    && (forall s | s in db.sales :: s.key != key)
    && (forall o | o in db.orders :: o.key != SaleOrder(key, Kitchen) && o.key != SaleOrder(key, Counter))
    && (forall p | p in db.payments :: p.key != SaleDiscount(key) && p.key != SaleCharge(key))
    && (coupon.Some? ==> forall r | r in db.redemptions :: r.coupon != coupon.value)
  }

  lemma ConfirmAccepts(db: Db, req: Request)
    requires ValidLines(req.lines)
    ensures var quoted := QuoteSale(db, req.lines, req.code, req.target, req.at);
            Confirm(db, req).Ok? <==>
              && db.settings.paymentsEnabled && db.settings.orderingEnabled
              && quoted.Ok? && (req.expected.Some? ==> req.expected.value == quoted.value)
              && CanSettle(quoted.value.totalAmount, req.means, req.tendered)
              && NotDoneBefore(db, SaleKey(req.staff, req.text), req.code)
    ensures Confirm(db, req).Ok? ==> Confirm(db, req) == QuoteSale(db, req.lines, req.code, req.target, req.at)
  {
    var quoted := QuoteSale(db, req.lines, req.code, req.target, req.at);
    if quoted.Ok? {
      NotDoneExactly(db, req, quoted.value);
    }
  }

  lemma NotDoneExactly(db: Db, req: Request, q: Quote)
    requires QuoteSale(db, req.lines, req.code, req.target, req.at) == Ok(q)
    ensures NotDoneBefore(db, SaleKey(req.staff, req.text), req.code) <==> !UniqueClash(db, req, q)
    ensures if q.coupon.Some? then req.code == Some(q.coupon.value.code) else req.code == None
  {
  }

  /** With everything else in order, cash is refused for one reason: less than the price was handed over. */
  lemma CashRefused(db: Db, req: Request)
    requires ValidLines(req.lines) && req.means.Some? && req.means.value.isCash
    ensures Confirm(db, req) == Err(TenderShort)
        <==> && db.settings.paymentsEnabled && db.settings.orderingEnabled
             && var quoted := QuoteSale(db, req.lines, req.code, req.target, req.at);
                && quoted.Ok? && (req.expected.Some? ==> req.expected.value == quoted.value)
                && 0 < quoted.value.totalAmount
                && (req.tendered.None? || req.tendered.value < quoted.value.totalAmount)
  {
  }

  // ---- the money ----

  /** Line i of the cart is item `base + i`: its row carries `money[i]` and covers the line's quantity, or none of it. */
  ghost predicate AllocatedAs(rows: seq<Allocation>, base: Id, money: seq<int>, lines: seq<OrderLine>, covering: bool)
    requires |money| == |lines|
  {
    forall i | 0 <= i < |lines| ::
      && AmountOn(rows, base + i) == money[i]
      && QuantityIn(rows, base + i) == if covering && money[i] > 0 then lines[i].quantity else 0
  }

  /** The charge of a sale: the price by the chosen method, with the change of a cash payment. */
  ghost predicate TakesPrice(sale: Id, req: Request, q: Quote, p: Payment)
    requires req.means.Some? && |q.discounts| == |q.lines|
  {
    && p.owner == Sale(sale) && p.kind == Charge && p.methodCode == req.means.value.code
    && p.amount == q.totalAmount && GivesChange(req.means.value, req.tendered, p)
    && p.key == SaleCharge(SaleKey(req.staff, req.text)) && p.at == req.at && p.reverses == None && p.coupon == None
    && AllocatedAs(p.allocations, ItemBase(sale), NetAmounts(q), q.lines, true)
  }

  /** The coupon's discount row: it names its coupon, takes no money and covers no quantity. */
  ghost predicate TakesDiscount(sale: Id, req: Request, q: Quote, p: Payment)
    requires |q.discounts| == |q.lines|
  {
    && p.owner == Sale(sale) && p.kind == Discount && p.methodCode == COUPON_DISCOUNT_METHOD && p.coupon == req.code
    && p.amount == q.discountAmount && p.tendered == None && p.change == None
    && p.key == SaleDiscount(SaleKey(req.staff, req.text)) && p.at == req.at && p.reverses == None
    && AllocatedAs(p.allocations, ItemBase(sale), q.discounts, q.lines, false)
  }

  lemma ChargeTakes(sale: Id, req: Request, q: Quote)
    requires |q.discounts| == |q.lines| && forall i | 0 <= i < |q.lines| :: NetAmounts(q)[i] >= 0
    requires req.means.Some? && q.totalAmount > 0 && CanSettle(q.totalAmount, req.means, req.tendered)
    ensures TakesPrice(sale, req, q, ChargeRow(sale, req, q, req.means.value, ChargeRows(sale, q)))
  {
    forall i | 0 <= i < |q.lines|
      ensures AmountOn(ChargeRows(sale, q), ItemBase(sale) + i) == NetAmounts(q)[i]
      ensures QuantityIn(ChargeRows(sale, q), ItemBase(sale) + i) == if NetAmounts(q)[i] > 0 then q.lines[i].quantity else 0
    {
      ChargeSide(q, sale, i);
    }
  }

  lemma CouponTakes(sale: Id, req: Request, q: Quote)
    requires |q.discounts| == |q.lines| && forall i | 0 <= i < |q.lines| :: q.discounts[i] >= 0
    requires q.coupon.Some? && req.code == Some(q.coupon.value.code) && q.coupon.value.discount == q.discountAmount
    ensures TakesDiscount(sale, req, q, CouponRow(sale, req, q, DiscountRows(sale, q)))
  {
    forall i | 0 <= i < |q.lines|
      ensures AmountOn(DiscountRows(sale, q), ItemBase(sale) + i) == q.discounts[i]
      ensures QuantityIn(DiscountRows(sale, q), ItemBase(sale) + i) == 0
    {
      DiscountSide(q, sale, i);
    }
  }

  lemma ConfirmAddsRows(db: Db, req: Request)
    requires ValidLines(req.lines) && Confirm(db, req).Ok?
    ensures var q := Confirm(db, req).value;
            && |q.discounts| == |q.lines| && q.lines == req.lines
            && AfterConfirm(db, req).payments == db.payments + DiscountPart(db.next, req, q) + ChargePart(db.next, req, q)
            && (forall i | 0 <= i < |q.lines| :: q.discounts[i] >= 0 && NetAmounts(q)[i] >= 0)
            && (if q.coupon.Some? then req.code == Some(q.coupon.value.code) && q.coupon.value.discount == q.discountAmount
                else req.code == None)
  {
    QuoteIsExact(db, req.lines, req.code, req.target, req.at);
    NotDoneExactly(db, req, Confirm(db, req).value);
  }

  /** A discount row iff a coupon was given, a charge row iff something is left to pay. */
  ghost predicate Takes(sale: Id, req: Request, q: Quote, discount: seq<Payment>, charge: seq<Payment>)
    requires |q.discounts| == |q.lines|
  {
    && |discount| == (if req.code.Some? then 1 else 0) && |charge| == (if q.totalAmount > 0 then 1 else 0)
    && (forall p | p in discount :: TakesDiscount(sale, req, q, p))
    && (forall p | p in charge :: req.means.Some? && TakesPrice(sale, req, q, p))
  }

  lemma PartsTake(sale: Id, req: Request, q: Quote)
    requires |q.discounts| == |q.lines| && CanSettle(q.totalAmount, req.means, req.tendered)
    requires forall i | 0 <= i < |q.lines| :: q.discounts[i] >= 0 && NetAmounts(q)[i] >= 0
    requires if q.coupon.Some? then req.code == Some(q.coupon.value.code) && q.coupon.value.discount == q.discountAmount
             else req.code == None
    ensures Takes(sale, req, q, DiscountPart(sale, req, q), ChargePart(sale, req, q))
  {
    if q.coupon.Some? {
      CouponTakes(sale, req, q);
    }
    if q.totalAmount > 0 {
      ChargeTakes(sale, req, q);
    }
  }

  /**
   An accepted sale appends a discount row iff a coupon was given and a charge row iff something is left to
   pay, and nothing else. The charge takes what is left, by the chosen method; cash records what was handed
   over and the change.
   */
  lemma ConfirmTakes(db: Db, req: Request) returns (discount: seq<Payment>, charge: seq<Payment>)
    requires ValidLines(req.lines) && Confirm(db, req).Ok?
    ensures AfterConfirm(db, req).payments == db.payments + discount + charge
    ensures var q := Confirm(db, req).value;
            |q.discounts| == |q.lines| && q.lines == req.lines && Takes(db.next, req, q, discount, charge)
  {
    var q := Confirm(db, req).value;
    ConfirmAccepts(db, req);
    ConfirmAddsRows(db, req);
    discount, charge := DiscountPart(db.next, req, q), ChargePart(db.next, req, q);
    PartsTake(db.next, req, q);
  }

  // ---- the sale, its orders and its coupon ----

  /** The next number of the day's list: above all given out, and the successor of one of them unless it is 1. */
  ghost predicate NextNumber(sales: seq<CounterSale>, n: int) {
    && n >= 1 && (forall s | s in sales :: s.saleNo < n)
    && (n == 1 || exists s | s in sales :: s.saleNo == n - 1)
  }

  lemma {:induction false} MaxIsNext(sales: seq<CounterSale>)
    ensures NextNumber(sales, MaxSaleNo(sales) + 1)
  {
    if sales != [] {
      var front, last := sales[..|sales| - 1], sales[|sales| - 1];
      MaxIsNext(front);
      assert sales == front + [last];
      if MaxSaleNo(sales) == last.saleNo {
        assert last in sales;
      }
    }
  }

  /** The sale is listed under the next number with its key and body; earlier sales and the whole floor stay as they were. */
  lemma ConfirmListsSale(db: Db, req: Request) returns (s: CounterSale)
    requires ValidLines(req.lines) && Confirm(db, req).Ok?
    ensures AfterConfirm(db, req).sales == db.sales + [s]
    ensures s.id == db.next && s.status == Completed && s.key == SaleKey(req.staff, req.text)
    ensures s.requestHash == req.requestHash && NextNumber(db.sales, s.saleNo)
    ensures var after := AfterConfirm(db, req);
            && after.tables == db.tables && after.sessions == db.sessions && after.calls == db.calls
            && after.settings == db.settings
  {
    s := AfterConfirm(db, req).sales[|db.sales|];
    MaxIsNext(db.sales);
  }

  /** The item is line `id - base` of the cart, which is of the given mode, and is not cancelled. */
  predicate IsLine(item: Item, lines: seq<OrderLine>, mode: ServingMode, base: Id) {
    && base <= item.id < base + |lines| && !item.cancelled
    && var line := lines[item.id - base];
       && line.mode == mode == item.mode && item.menu == line.menu && item.unitPrice == line.unitPrice
       && item.extras == line.extras && item.quantity == line.quantity
  }

  ghost predicate HasLine(items: seq<Item>, id: Id) {
    exists item | item in items :: item.id == id
  }

  ghost predicate Ascending(items: seq<Item>) {
    forall j, k | 0 <= j < k < |items| :: items[j].id < items[k].id
  }

  /** The items of all lines of one mode and of no other, in cart order. */
  ghost predicate HoldsLines(items: seq<Item>, lines: seq<OrderLine>, mode: ServingMode, base: Id) {
    && (forall item | item in items :: IsLine(item, lines, mode, base))
    && (forall i | 0 <= i < |lines| && lines[i].mode == mode :: HasLine(items, base + i))
    && Ascending(items)
  }

  lemma {:induction false} ModeItemsComplete(lines: seq<OrderLine>, mode: ServingMode, base: Id, i: nat)
    requires i < |lines| && lines[i].mode == mode
    ensures HasLine(ModeItems(lines, mode, base), base + i)
  {
    var n := |lines| - 1;
    var front, last := ModeItems(lines[..n], mode, base), OneItem(lines[n], mode, base + n);
    if i < n {
      ModeItemsComplete(lines[..n], mode, base, i);
      var item :| item in front && item.id == base + i;
      assert item in front + last;
    } else {
      assert last[0] in front + last;
    }
  }

  lemma {:induction false} ModeItemsAscend(lines: seq<OrderLine>, mode: ServingMode, base: Id)
    ensures Ascending(ModeItems(lines, mode, base))
  {
    if lines != [] {
      var n := |lines| - 1;
      var front := ModeItems(lines[..n], mode, base);
      ModeItemsAscend(lines[..n], mode, base);
      ModeItemsLive(lines[..n], mode, base);
      forall k | 0 <= k < |front| ensures front[k].id < base + n {
        assert front[k] in front;
      }
    }
  }

  lemma ModeItemsHold(lines: seq<OrderLine>, mode: ServingMode, base: Id)
    ensures HoldsLines(ModeItems(lines, mode, base), lines, mode, base)
  {
    var items := ModeItems(lines, mode, base);
    ModeItemsLive(lines, mode, base);
    forall item | item in items ensures IsLine(item, lines, mode, base) {
      assert item == ItemFrom(lines[item.id - base], item.id);
    }
    forall i | 0 <= i < |lines| && lines[i].mode == mode ensures HasLine(items, base + i) {
      ModeItemsComplete(lines, mode, base, i);
    }
    ModeItemsAscend(lines, mode, base);
  }

  ghost predicate OccursIn(mode: ServingMode, lines: seq<OrderLine>) {
    exists line | line in lines :: line.mode == mode
  }

  /** One order with the lines of the mode, if the cart has any. */
  ghost predicate OrderOfMode(orders: seq<Order>, sale: Id, req: Request, mode: ServingMode, status: OrderStatus) {
    && |orders| == (if OccursIn(mode, req.lines) then 1 else 0)
    && forall o | o in orders ::
         && o.owner == Sale(sale) && o.status == status && o.key == SaleOrder(SaleKey(req.staff, req.text), mode)
         && o.at == req.at && HoldsLines(o.items, req.lines, mode, ItemBase(sale))
  }

  lemma ItemsIffMode(items: seq<Item>, lines: seq<OrderLine>, mode: ServingMode, base: Id)
    requires HoldsLines(items, lines, mode, base)
    ensures items != [] <==> OccursIn(mode, lines)
  {
    if items != [] {
      assert IsLine(items[0], lines, mode, base);
      assert lines[items[0].id - base] in lines;
    }
    if OccursIn(mode, lines) {
      var line :| line in lines && line.mode == mode;
      var i :| 0 <= i < |lines| && lines[i] == line;
      assert HasLine(items, base + i);
    }
  }

  lemma ModeOrderHolds(sale: Id, req: Request, id: Id, mode: ServingMode)
    ensures OrderOfMode(ModeOrders(mode, id, sale, KeyOf(req), req.lines, ItemBase(sale), req.at), sale, req, mode,
                        if mode == Kitchen then New else Served)
  {
    ModeItemsHold(req.lines, mode, ItemBase(sale));
    ItemsIffMode(ModeItems(req.lines, mode, ItemBase(sale)), req.lines, mode, ItemBase(sale));
  }

  lemma ConfirmAddsOrders(db: Db, req: Request)
    requires ValidLines(req.lines) && Confirm(db, req).Ok?
    ensures AfterConfirm(db, req).orders
         == db.orders + KitchenPart(db.next, KeyOf(req), req.lines, req.at) + CounterPart(db.next, KeyOf(req), req.lines, req.at)
  {
    QuoteIsExact(db, req.lines, req.code, req.target, req.at);
  }

  lemma PartsHold(sale: Id, req: Request)
    ensures OrderOfMode(KitchenPart(sale, KeyOf(req), req.lines, req.at), sale, req, Kitchen, New)
    ensures OrderOfMode(CounterPart(sale, KeyOf(req), req.lines, req.at), sale, req, Counter, Served)
  {
    ModeOrderHolds(sale, req, sale + 1, Kitchen);
    ModeOrderHolds(sale, req, sale + 2, Counter);
  }

  /** What the kitchen makes is ordered as new, what the counter hands out is served at once; earlier orders stay. */
  lemma ConfirmOrders(db: Db, req: Request) returns (kitchen: seq<Order>, counter: seq<Order>)
    requires ValidLines(req.lines) && Confirm(db, req).Ok?
    ensures AfterConfirm(db, req).orders == db.orders + kitchen + counter
    ensures OrderOfMode(kitchen, db.next, req, Kitchen, New)
    ensures OrderOfMode(counter, db.next, req, Counter, Served)
  {
    kitchen := KitchenPart(db.next, KeyOf(req), req.lines, req.at);
    counter := CounterPart(db.next, KeyOf(req), req.lines, req.at);
    ConfirmAddsOrders(db, req);
    PartsHold(db.next, req);
  }

  /** The coupon is used, by this sale, at the price before it; without one no coupon moves. */
  lemma ConfirmRedeems(db: Db, req: Request)
    requires ValidLines(req.lines) && Confirm(db, req).Ok?
    ensures var q, after := Confirm(db, req).value, AfterConfirm(db, req);
            if req.code.None? then after.coupons == db.coupons && after.redemptions == db.redemptions
            else
              && req.code.value in db.coupons && db.coupons[req.code.value].status == Unused
              && after.coupons == db.coupons[req.code.value := db.coupons[req.code.value].(status := Used)]
              && after.redemptions
                 == db.redemptions + [Redemption(req.code.value, Sale(db.next), Subtotal(req.lines), q.discountAmount, false)]
  {
    ConfirmAccepts(db, req);
    QuoteIsExact(db, req.lines, req.code, req.target, req.at);
  }

  // ---- cancelling ----

  /** Cancelled for a reason, if it is there and was not cancelled before. */
  lemma CancelAccepts(db: Db, sale: Id, hasReason: bool, at: int)
    requires forall s, t | s in db.sales && t in db.sales && s.id == t.id :: s == t
    ensures CancelSale(db, sale, hasReason, at).Ok?
        <==> hasReason && exists s | s in db.sales :: s.id == sale && s.status == Completed
  {
    SaleSteps.FoundSale(db.sales, sale);
  }

  /** `r` pays `p` back in full: same amount, method and allocation, dated now, with no money handed over. */
  predicate PaysBack(p: Payment, r: Payment, sale: Id, at: int) {
    && r.kind == Refund && r.reverses == Some(p.id) && r.owner == Sale(sale) && r.amount == p.amount
    && r.methodCode == p.methodCode && r.allocations == p.allocations && r.at == at
    && r.tendered == None && r.change == None && r.key == SaleRefund(sale, p.id)
  }

  /** Charges and discounts of the sale that nothing has reversed. */
  ghost predicate StillOpen(rows: seq<Payment>, sale: Id, p: Payment) {
    p in rows && p.owner == Sale(sale) && p.kind in {Charge, Discount} && forall r | r in rows :: r.reverses != Some(p.id)
  }

  ghost predicate PaidBackBy(rows: seq<Payment>, p: Payment, sale: Id, at: int) {
    exists r | r in rows :: PaysBack(p, r, sale, at)
  }

  ghost predicate PaysBackOneOf(all: seq<Payment>, targets: seq<Payment>, r: Payment, sale: Id, at: int) {
    exists p | p in targets :: NotYetReversed(all, p.id) && PaysBack(p, r, sale, at)
  }

  lemma {:induction false} EachRefundPaysBack(all: seq<Payment>, targets: seq<Payment>, sale: Id, base: Id, at: int, r: Payment)
    requires r in RefundRows(all, targets, sale, base, at)
    ensures PaysBackOneOf(all, targets, r, sale, at)
  {
    var front, last := targets[..|targets| - 1], targets[|targets| - 1];
    var made := RefundRows(all, front, sale, base, at);
    if r in made {
      EachRefundPaysBack(all, front, sale, base, at, r);
      var p :| p in front && NotYetReversed(all, p.id) && PaysBack(p, r, sale, at);
      assert p in targets;
    } else {
      assert last in targets && PaysBack(last, r, sale, at);
    }
  }

  lemma {:induction false} EachOpenIsPaidBack(all: seq<Payment>, targets: seq<Payment>, sale: Id, base: Id, at: int, i: nat)
    requires i < |targets| && NotYetReversed(all, targets[i].id)
    ensures PaidBackBy(RefundRows(all, targets, sale, base, at), targets[i], sale, at)
  {
    var front, last := targets[..|targets| - 1], targets[|targets| - 1];
    var made, rows := RefundRows(all, front, sale, base, at), RefundRows(all, targets, sale, base, at);
    if i < |front| {
      EachOpenIsPaidBack(all, front, sale, base, at, i);
      var r :| r in made && PaysBack(targets[i], r, sale, at);
      assert r in rows;
    } else {
      assert rows[|made|] in rows && PaysBack(last, rows[|made|], sale, at);
    }
  }

  /** A cancellation pays back exactly what was still open, and nothing besides. */
  lemma CancelPaysBack(db: Db, sale: Id, at: int) returns (refunds: seq<Payment>)
    requires CancelSale(db, sale, true, at).Ok?
    ensures AfterCancelSale(db, sale, true, at).payments == db.payments + refunds
    ensures forall r | r in refunds :: exists p | StillOpen(db.payments, sale, p) :: PaysBack(p, r, sale, at)
    ensures forall p | StillOpen(db.payments, sale, p) :: PaidBackBy(refunds, p, sale, at)
  {
    refunds := Refunds(db, sale, at);
    var targets := Filter(db.payments, OriginalsOf(sale));
    forall r | r in refunds ensures exists p | StillOpen(db.payments, sale, p) :: PaysBack(p, r, sale, at) {
      EachRefundPaysBack(db.payments, targets, sale, db.next, at, r);
      var p :| p in targets && NotYetReversed(db.payments, p.id) && PaysBack(p, r, sale, at);
      FilterMember(db.payments, OriginalsOf(sale), p);
      assert StillOpen(db.payments, sale, p);
    }
    forall p | StillOpen(db.payments, sale, p) ensures PaidBackBy(refunds, p, sale, at) {
      FilterMember(db.payments, OriginalsOf(sale), p);
      var i :| 0 <= i < |targets| && targets[i] == p;
      EachOpenIsPaidBack(db.payments, targets, sale, db.next, at, i);
    }
  }

  /** The sale, its orders and its redemption are marked cancelled, each otherwise as it was, and nobody else's. */
  lemma CancelMarks(db: Db, sale: Id, at: int)
    requires CancelSale(db, sale, true, at).Ok?
    ensures var after := AfterCancelSale(db, sale, true, at);
            && after == db.(next := after.next, sales := after.sales, payments := after.payments, orders := after.orders,
                            redemptions := after.redemptions)
            && |after.sales| == |db.sales| && |after.orders| == |db.orders| && |after.redemptions| == |db.redemptions|
            && (forall i | 0 <= i < |db.sales| ::
                  after.sales[i] == if db.sales[i].id == sale then db.sales[i].(status := SaleCancelled) else db.sales[i])
            && (forall i | 0 <= i < |db.orders| ::
                  after.orders[i] == if db.orders[i].owner == Sale(sale) then db.orders[i].(status := Cancelled) else db.orders[i])
            && (forall i | 0 <= i < |db.redemptions| ::
                  after.redemptions[i] == if db.redemptions[i].owner == Sale(sale) then db.redemptions[i].(cancelled := true)
                                          else db.redemptions[i])
  {
  }
}
