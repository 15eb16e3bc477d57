/** Every step of the machine keeps every invariant and undoes nothing. */
module Steps {
  import C = Coupons
  import Counter = CounterSales
  import DataReset
  import opened Invariants
  import opened Ledger
  import O = Orders
  import P = Payments
  import opened PaymentLaws
  import SaleSteps
  import opened Schema
  import opened Sums
  import T = TableSessions
  import TC = TableCoupons
  import opened World
  import opened Wrappers

  ghost predicate Kept(before: Db, after: Db) {
    Inv(after) && Later(before, after)
  }

  /** A failed transaction changes nothing; one that commits keeps everything. */
  ghost predicate KeptOrSame(before: Db, after: Db) {
    after == before || Kept(before, after)
  }

  // ---- floor steps ----

  lemma FloorKept(before: Db, after: Db)
    requires Inv(before)
    requires after.orders == before.orders && after.payments == before.payments && after.sales == before.sales
    requires after.redemptions == before.redemptions && after.coupons == before.coupons
    requires after.next >= before.next && T.FloorOk(after.tables, after.sessions)
    requires (forall t | t in after.tables :: t < after.next) && forall s | s in after.sessions :: s < after.next
    requires forall s | s in after.sessions && s < before.next :: SessionContinues(before.sessions, s, after.sessions[s])
    ensures Kept(before, after)
  {
    FloorStep(before, after);
    SameRowsContinue(before, after);
  }

  lemma OpenTableKept(db: Db, table: Id, plan: Option<bool>)
    requires Inv(db)
    ensures KeptOrSame(db, T.StateAfter(db, T.OpenTable(db, table, plan)))
  {
    T.OpenKeepsFloor(db, table, plan);
    FloorKept(db, T.StateAfter(db, T.OpenTable(db, table, plan)));
  }

  /** Whatever was decided, carrying it out on the session's own table. */
  lemma CarryOutKept(db: Db, session: Id, table: Id, decision: T.Settlement)
    requires Inv(db) && (session in db.sessions ==> db.sessions[session].table == table)
    ensures Kept(db, T.CarryOut(db, session, table, decision))
  {
    T.CarryOutKeepsFloor(db, session, table, decision);
    FloorKept(db, T.CarryOut(db, session, table, decision));
  }

  lemma CloseTableKept(db: Db, session: Id, table: Id, force: bool)
    requires Inv(db) && (session in db.sessions ==> db.sessions[session].table == table)
    ensures KeptOrSame(db, T.StateAfter(db, T.CloseTable(db, session, table, force)))
  {
    CarryOutKept(db, session, table, T.Close);
  }

  lemma IdleKept(db: Db, after: Db)
    requires Inv(db) && after == db.(tables := after.tables, next := after.next) && after.next >= db.next
    requires T.FloorOk(after.tables, after.sessions) && forall t | t in after.tables :: t < after.next
    ensures Kept(db, after)
  {
    FloorKept(db, after);
  }

  lemma SetEnabledKept(db: Db, table: Id, enabled: bool)
    requires Inv(db)
    ensures Kept(db, T.SetEnabled(db, table, enabled))
  {
    T.IdleChangeKeepsFloor(db, T.SetEnabled(db, table, enabled).tables);
    IdleKept(db, T.SetEnabled(db, table, enabled));
  }

  lemma AddTableKept(db: Db)
    requires Inv(db)
    ensures Kept(db, T.AddTable(db))
  {
    T.IdleChangeKeepsFloor(db, T.AddTable(db).tables);
    IdleKept(db, T.AddTable(db));
  }

  lemma LockKept(db: Db, table: Id, locked: bool)
    requires Inv(db)
    ensures Kept(db, T.LockPayments(db, table, locked))
  {
    assert forall s | s in db.sessions && IsLive(db.sessions[s]) :: T.Seated(db.tables, db.sessions[s]);
    IdleKept(db, T.LockPayments(db, table, locked));
  }

  lemma CallsKept(db: Db, after: Db)
    requires Inv(db) && after == db.(calls := after.calls, settings := after.settings, next := after.next)
    requires after.next >= db.next
    ensures Kept(db, after)
  {
    FloorKept(db, after);
  }

  // ---- order steps ----

  lemma OrdersDescend(before: seq<Order>, after: seq<Order>)
    requires O.SameOrders(before, after) && CancelledStays(before, after)
    ensures forall o | o in after :: Descends(before, o)
  {
    forall o | o in after ensures Descends(before, o) {
      var i :| 0 <= i < |after| && after[i] == o;
      assert O.SameOrder(before[i], after[i]) && before[i] in before;
    }
  }

  lemma OrderRowsKept(db: Db, orders: seq<Order>)
    requires Inv(db) && O.SameOrders(db.orders, orders) && CancelledStays(db.orders, orders) && O.AllHaveWork(orders)
    ensures Kept(db, db.(orders := orders))
  {
    OrderStep(db, orders);
    OrdersDescend(db.orders, orders);
    SalesContinue(db.sales);
  }

  lemma SalesContinue(sales: seq<CounterSale>)
    ensures forall s | s in sales :: SaleContinues(sales, s)
  {
    forall s | s in sales ensures SaleContinues(sales, s) {
      assert s == s.(status := s.status);
    }
  }

  lemma AdvanceKept(db: Db, order: Id, m: O.Move)
    requires Inv(db)
    ensures Kept(db, O.Advance(db, order, m))
  {
    O.AdvanceSameOrders(db.orders, order, {O.From(m)}, O.To(m));
    O.AdvanceHasWork(db, order, m);
    OrderRowsKept(db, O.Advance(db, order, m).orders);
  }

  lemma CancelOrderKept(db: Db, order: Id, items: seq<Id>)
    requires Inv(db)
    ensures Kept(db, O.AfterCancel(db, order, items))
  {
    O.CancelSameOrders(db, order, items);
    O.CancelHasWork(db, order, items);
    if O.CancelOrder(db, order, items).Ok? {
      var k := O.CancelOneRow(db, order, items);
    }
    OrderRowsKept(db, O.AfterCancel(db, order, items).orders);
  }

  lemma TableOrderFresh(db: Db, session: Id, key: string, lines: seq<O.OrderLine>, at: int)
    requires Counter.ValidLines(lines) && !O.OrderKeyTaken(db.orders, TableOrder(session, key))
    ensures var o := O.TableOrderRow(db, session, key, lines, at);
            FreshOrder(db, o) && forall item | item in o.items :: item.id < db.next + 1 + |o.items|
  {
    var o := O.TableOrderRow(db, session, key, lines, at);
    assert !o.items[0].cancelled;
    forall item | item in o.items ensures Priced(item) && db.next <= item.id < db.next + 1 + |o.items| {
      var i :| 0 <= i < |o.items| && o.items[i] == item;
    }
  }

  lemma PlaceKept(db: Db, o: Order, next: Id)
    requires Inv(db) && FreshOrder(db, o) && o.owner.Session? && o.owner.id < db.next
    requires o.id < next && db.next <= next && forall item | item in o.items :: item.id < next
    ensures Kept(db, db.(next := next, orders := db.orders + [o]))
  {
    OrderAppendStep(db, o, next);
    SameRowsContinue(db, db);
  }

  lemma CreateOrderKept(db: Db, session: Id, key: string, lines: seq<O.OrderLine>, at: int)
    requires Inv(db) && (lines != [] ==> Counter.ValidLines(lines))
    ensures KeptOrSame(db, O.RecordOrder(db, O.CreateOrder(db, session, key, lines, at)))
  {
    if O.CreateOrder(db, session, key, lines, at).Ok? {
      var o := O.TableOrderRow(db, session, key, lines, at);
      TableOrderFresh(db, session, key, lines, at);
      PlaceKept(db, o, db.next + 1 + |o.items|);
    }
  }

  // ---- payment steps ----

  lemma PaymentKept(db: Db, p: Payment)
    requires Inv(db) && Follows(db.payments, p) && p.id == db.next
    requires p.owner.Session? && p.owner.id < db.next && FitsItems(db, p)
    ensures Kept(db, P.AppendRow(db, p))
  {
    PaymentStep(db, p);
    PaymentLater(db, p);
  }

  lemma PaymentLater(db: Db, p: Payment)
    requires p.id == db.next
    ensures Later(db, P.AppendRow(db, p))
  {
    SameRowsContinue(db, db);
  }

  /** A table payment that may be appended. */
  ghost predicate Sound(db: Db, session: Id, p: Payment) {
    NewRow(db, session, p) && WellFormed(p) && session in db.sessions && FitsItems(db, p)
  }

  lemma SoundKept(db: Db, session: Id, p: Payment)
    requires Inv(db) && Sound(db, session, p)
    ensures Kept(db, P.AppendRow(db, p))
  {
    NewRowFollows(db, session, p);
    PaymentKept(db, p);
  }

  lemma RecordKept(db: Db, session: Id, r: P.Outcome)
    requires Inv(db) && (r.Ok? ==> Sound(db, session, r.value))
    ensures KeptOrSame(db, P.Record(db, r))
  {
    if r.Ok? {
      SoundKept(db, session, r.value);
    }
  }

  lemma BareIsSound(db: Db, session: Id, p: Payment)
    requires NewRow(db, session, p) && p.amount >= 0 && p.allocations == [] && session in db.sessions
    ensures Sound(db, session, p)
  {
  }

  lemma PayAmountKept(db: Db, session: Id, means: P.PaymentMethod, amount: Option<int>, tendered: Option<int>, text: KeyText,
                      at: int)
    requires Inv(db)
    ensures KeptOrSame(db, P.Record(db, P.PayAmount(db, session, means, amount, tendered, text, at)))
  {
    var r := P.PayAmount(db, session, means, amount, tendered, text, at);
    if r.Ok? {
      AmountWithin(db, session, means, amount, tendered, text, at);
      BareIsSound(db, session, r.value);
    }
    RecordKept(db, session, r);
  }

  lemma DiscountKept(db: Db, session: Id, discount: int, text: KeyText, at: int)
    requires Inv(db) && discount > 0
    ensures KeptOrSame(db, P.Record(db, P.GiveDiscount(db, session, discount, text, at)))
  {
    var r := P.GiveDiscount(db, session, discount, text, at);
    if r.Ok? {
      DiscountWithin(db, session, discount, text, at);
      BareIsSound(db, session, r.value);
    }
    RecordKept(db, session, r);
  }

  /** Two orders never hold an item of the same id. */
  lemma SameHome(orders: seq<Order>, o: Order, x: Item, p: Order, y: Item)
    requires O.OrdersDistinct(orders) && o in orders && p in orders && x in o.items && y in p.items && x.id == y.id
    ensures o == p && x == y
  {
    var i :| 0 <= i < |orders| && orders[i] == o;
    var j :| 0 <= j < |orders| && orders[j] == p;
    assert i < j ==> O.Disjoint(orders[i], orders[j]);
    assert j < i ==> O.Disjoint(orders[j], orders[i]);
    assert O.DistinctItems(orders[i].items);
  }

  lemma FoundIsHome(orders: seq<Order>, o: Order, item: Item)
    requires O.OrdersDistinct(orders) && o in orders && item in o.items && P.FindOrderItem(orders, item.id).Some?
    ensures P.FindOrderItem(orders, item.id) == Some(P.Found(o, item))
  {
    P.FoundHasId(orders, item.id);
    var f := P.FindOrderItem(orders, item.id).value;
    SameHome(orders, o, item, f.order, f.item);
  }

  /** Rows that cover a quantity of each item they touch, all of the payer's own. */
  lemma ItemRowFits(db: Db, session: Id, wanted: seq<P.Wanted>, p: Payment)
    requires Inv(db) && NewRow(db, session, p) && CoversWanted(db, session, wanted, p)
    ensures FitsItems(db, p)
  {
    forall a | a in p.allocations ensures QuantityIn(p.allocations, a.item) > 0 {
      Positive(p.allocations, a);
    }
    forall a | a in p.allocations ensures a.item < db.next {
      P.FoundHasId(db.orders, a.item);
      var f := P.FindOrderItem(db.orders, a.item).value;
      assert f.order in db.orders && f.item in f.order.items;
    }
    forall o, item | o in db.orders && item in o.items && Touches(p, item.id)
      ensures o.owner == p.owner && PaidQuantity(db.payments + [p], item.id) <= item.quantity
    {
      FoundIsHome(db.orders, o, item);
      PaidQuantityAppend(db.payments, p, item.id);
    }
  }

  lemma Positive(rows: seq<Allocation>, a: Allocation)
    requires a in rows && forall b | b in rows :: b.quantity >= 1
    ensures QuantityIn(rows, a.item) > 0
  {
    var k :| 0 <= k < |rows| && rows[k] == a;
    SumTerm(rows, QuantityFor(a.item), k);
  }

  lemma PayItemsKept(db: Db, session: Id, means: P.PaymentMethod, wanted: seq<P.Wanted>, tendered: Option<int>, text: KeyText,
                     at: int)
    requires Inv(db)
    ensures KeptOrSame(db, P.Record(db, P.PayItems(db, session, means, wanted, tendered, text, at)))
  {
    var r := P.PayItems(db, session, means, wanted, tendered, text, at);
    if r.Ok? {
      ItemsWithin(db, session, means, wanted, tendered, text, at);
      ItemRowFits(db, session, wanted, r.value);
    }
    RecordKept(db, session, r);
  }

  /** A reversal covers what its original covered, which it takes back. */
  lemma ReversalFits(db: Db, o: Payment, r: Payment)
    requires Inv(db) && o in db.payments && Reverses(r, o)
    ensures FitsItems(db, r)
  {
    forall x, item | x in db.orders && item in x.items && Touches(r, item.id)
      ensures x.owner == r.owner && PaidQuantity(db.payments + [r], item.id) <= item.quantity
    {
      assert Touches(o, item.id);
      PaidQuantityAppend(db.payments, r, item.id);
      LedgerRows(db.payments);
      QuantityNonneg(o, item.id);
    }
  }

  /** An original read earlier is still the row of its id, if that row still exists. */
  lemma SnapshotRow(db: Db, seen: Db, payment: Id)
    requires Inv(seen) && Later(seen, db) && P.BeginReversal(seen, payment, true).Ok?
    ensures var o := P.BeginReversal(seen, payment, true).value.original;
            && o in seen.payments && o.id == payment && o.owner.Session? && IsOriginal(o)
            && forall q | q in db.payments && q.id == o.id :: q == o
  {
    FoundPayment(seen.payments, payment);
    var o := P.BeginReversal(seen, payment, true).value.original;
    forall q | q in db.payments && q.id == o.id ensures q == o {
      SameRow(seen.payments, q, o);
    }
  }

  ghost predicate SoundReversal(db: Db, o: Payment, r: P.ReversalOutcome) {
    r.Inserted? ==>
      Follows(db.payments, r.row) && Reverses(r.row, o) && o in db.payments && r.row.id == db.next && o.owner.Session?
  }

  lemma ReversalRecordKept(db: Db, o: Payment, r: P.ReversalOutcome)
    requires Inv(db) && SoundReversal(db, o, r)
    ensures KeptOrSame(db, P.RecordReversal(db, r))
  {
    if r.Inserted? {
      ReversalFits(db, o, r.row);
      PaymentKept(db, r.row);
    }
  }

  lemma ReversalIsSound(db: Db, payment: Id, seen: Db, at: int)
    requires Inv(db) && Inv(seen) && Later(seen, db) && P.BeginReversal(seen, payment, true).Ok?
    ensures var t := P.BeginReversal(seen, payment, true).value;
            t.original.owner.Session? && SoundReversal(db, t.original, P.Reverse(db, t, at))
  {
    SnapshotRow(db, seen, payment);
    ReversalFollows(db, seen, payment, at);
  }

  lemma ReversalKept(db: Db, payment: Id, seen: Db, at: int)
    requires Inv(db) && Inv(seen) && Later(seen, db)
    ensures KeptOrSame(db, AfterReversal(db, payment, seen, at))
  {
    var t := P.BeginReversal(seen, payment, true);
    if t.Ok? {
      ReversalIsSound(db, payment, seen, at);
      ReversalRecordKept(db, t.value.original, P.Reverse(db, t.value, at));
    }
  }

  // ---- coupon steps ----

  lemma CouponRowsInv(db: Db, after: Db)
    requires Inv(db) && after == db.(coupons := after.coupons, redemptions := after.redemptions)
    requires UsedIffRedeemed(after.coupons, after.redemptions) && forall r | r in after.redemptions :: r.owner.id < db.next
    ensures Inv(after)
  {
  }

  lemma CouponRowsKept(db: Db, after: Db)
    requires Inv(db) && after == db.(coupons := after.coupons, redemptions := after.redemptions)
    requires UsedIffRedeemed(after.coupons, after.redemptions) && forall r | r in after.redemptions :: r.owner.id < db.next
    ensures Kept(db, after)
  {
    CouponRowsInv(db, after);
    SameRowsContinue(db, after);
  }

  lemma DropKept(db: Db, session: Id, code: Option<string>)
    requires Inv(db)
    ensures Kept(db, TC.DropRedemption(db, session, code))
  {
    var after := TC.DropRedemption(db, session, code);
    SaleSteps.CancelWhereKeeps(db.coupons, db.redemptions, C.OfSession(session, code));
    forall r | r in after.redemptions ensures r.owner.id < db.next {
      var i :| 0 <= i < |after.redemptions| && after.redemptions[i] == r;
      assert db.redemptions[i] in db.redemptions;
    }
    CouponRowsKept(db, after);
  }

  lemma IssuedUnused(coupons: map<string, Coupon>, redemptions: seq<Redemption>, codes: seq<string>, benefit: Benefit,
                     expiresAt: Option<int>)
    requires UsedIffRedeemed(coupons, redemptions) && forall code | code in codes :: code !in coupons
    ensures UsedIffRedeemed(coupons + C.Fresh(codes, benefit, expiresAt), redemptions)
  {
  }

  lemma IssueKept(db: Db, count: nat, benefit: Benefit, expiresAt: Option<int>)
    requires Inv(db)
    ensures KeptOrSame(db, C.AfterIssue(db, count, benefit, expiresAt))
  {
    var r := C.Issue(db, count, benefit, expiresAt);
    if r.Ok? {
      var codes := C.IssueAddsNew(db, count, benefit, expiresAt);
      IssuedUnused(db.coupons, db.redemptions, codes, benefit, expiresAt);
      CouponRowsKept(db, r.value);
    }
  }

  lemma WithdrawKept(db: Db, codes: set<string>)
    requires Inv(db)
    ensures Kept(db, C.Withdraw(db, codes))
  {
    CouponRowsKept(db, C.Withdraw(db, codes));
  }

  lemma CouponRowFits(db: Db, session: Id, p: Payment)
    requires Inv(db) && p.owner == Session(session) && IsOriginal(p)
    requires forall a | a in p.allocations ::
               a.quantity == 0 && exists item | item in TC.BillItems(db.orders, Session(session)) :: item.id == a.item
    ensures FitsItems(db, p)
  {
    TC.BillItemsMembers(db.orders, Session(session));
    forall a | a in p.allocations ensures a.item < db.next {
      var item :| item in TC.BillItems(db.orders, Session(session)) && item.id == a.item;
    }
    forall o, item | o in db.orders && item in o.items && Touches(p, item.id)
      ensures o.owner == p.owner && PaidQuantity(db.payments + [p], item.id) <= item.quantity
    {
      var a :| a in p.allocations && a.item == item.id;
      var x :| x in TC.BillItems(db.orders, Session(session)) && x.id == a.item;
      var home :| home in db.orders && home.owner == Session(session) && x in home.items;
      SameHome(db.orders, o, item, home, x);
      PaidQuantityAppend(db.payments, p, item.id);
      SumZero(p.allocations, QuantityFor(item.id));
    }
  }

  lemma RedeemKept(db: Db, session: Id, code: string, preview: TC.Preview, key: string, at: int, rows: seq<Allocation>)
    requires Inv(db) && TC.Redeem(db, session, code, preview, key, at, rows).Ok?
    requires preview.discount >= 0 && session in db.sessions
    requires forall a | a in rows ::
               a.quantity == 0 && exists item | item in TC.BillItems(db.orders, Session(session)) :: item.id == a.item
    ensures Kept(db, TC.Redeem(db, session, code, preview, key, at, rows).value)
  {
    var p := TC.DiscountRow(db, session, code, preview, key, at, rows);
    var paid := P.AppendRow(db, p);
    CouponRowFits(db, session, p);
    NewRowFollows(db, session, p);
    PaymentKept(db, p);
    var redemption := Redemption(code, Session(session), preview.remainingBefore, preview.discount, false);
    SaleSteps.ConsumeKeeps(db.coupons, db.redemptions, redemption);
    RedeemedKept(db, paid, TC.Redeem(db, session, code, preview, key, at, rows).value);
  }

  lemma RedeemedKept(db: Db, paid: Db, after: Db)
    requires Kept(db, paid) && after == paid.(coupons := after.coupons, redemptions := after.redemptions)
    requires UsedIffRedeemed(after.coupons, after.redemptions) && forall r | r in after.redemptions :: r.owner.id < paid.next
    ensures Kept(db, after)
  {
  }

  lemma ApplyKept(db: Db, session: Id, code: string, target: Option<Id>, key: string, at: int)
    requires Inv(db)
    ensures KeptOrSame(db, TC.AfterApply(db, session, code, target, key, at))
  {
    var r := TC.ApplyCoupon(db, session, code, target, key, at);
    if r.Ok? {
      LinesNonneg(db.orders);
      TC.ResolvedIsSpread(db, session, code, target, at);
      var preview := TC.Resolve(db, session, code, target, at).value;
      RedeemKept(db, session, code, preview, key, at, TC.Spread(TC.BillItems(db.orders, Session(session)), preview).value);
    }
  }

  // ---- counter sales and reset ----

  lemma ConfirmKept(db: Db, request: Counter.Request)
    requires Inv(db) && Counter.ValidLines(request.lines)
    ensures KeptOrSame(db, Counter.AfterConfirm(db, request))
  {
    SaleSteps.ConfirmStep(db, request);
    ConfirmedLater(db, request);
  }

  lemma ConfirmedLater(db: Db, request: Counter.Request)
    requires IdsBelow(db) && Counter.ValidLines(request.lines)
    ensures Counter.AfterConfirm(db, request) == db || Later(db, Counter.AfterConfirm(db, request))
  {
    var r := Counter.Confirm(db, request);
    if r.Ok? {
      Counter.QuoteIsExact(db, request.lines, request.code, request.target, request.at);
      ConfirmLater(db, request, r.value);
    }
  }

  lemma ConfirmLater(db: Db, request: Counter.Request, q: Counter.Quote)
    requires IdsBelow(db) && |q.discounts| == |q.lines| && Counter.ValidLines(q.lines)
    requires q.coupon.Some? ==> q.coupon.value.code in db.coupons
    ensures Later(db, Counter.WriteSale(db, request, q))
  {
    var after := Counter.WriteSale(db, request, q);
    SameRowsContinue(db, db);
    forall o | o in after.orders && o.id < db.next ensures Descends(db.orders, o) {
      SaleSteps.OldOrNew(db, Counter.KeyOf(request), q.lines, request.at, o);
    }
  }

  lemma CancelSaleKept(db: Db, sale: Id, at: int)
    requires Inv(db)
    ensures KeptOrSame(db, Counter.AfterCancelSale(db, sale, true, at))
  {
    SaleSteps.CancelStep(db, sale, true, at);
    if Counter.CancelSale(db, sale, true, at).Ok? {
      CancelSaleLater(db, sale, at);
    }
  }

  lemma {:induction false} RefundIds(all: seq<Payment>, targets: seq<Payment>, sale: Id, base: Id, at: int)
    ensures forall r | r in Counter.RefundRows(all, targets, sale, base, at) :: r.id >= base
    decreases |targets|
  {
    if targets != [] {
      RefundIds(all, targets[..|targets| - 1], sale, base, at);
    }
  }

  lemma CancelSaleLater(db: Db, sale: Id, at: int)
    requires Inv(db) && Counter.CancelSale(db, sale, true, at).Ok?
    ensures Later(db, Counter.AfterCancelSale(db, sale, true, at))
  {
    var after := Counter.AfterCancelSale(db, sale, true, at);
    RefundIds(db.payments, Filter(db.payments, Counter.OriginalsOf(sale)), sale, db.next, at);
    SaleSteps.CancelOrdersKeep(db.orders, sale);
    OrdersDescend(db.orders, after.orders);
    forall s | s in after.sales ensures SaleContinues(db.sales, s) {
      var i :| 0 <= i < |after.sales| && after.sales[i] == s;
      assert db.sales[i] in db.sales;
    }
  }

  lemma ResetKept(db: Db, scopes: set<DataReset.Scope>)
    requires Inv(db)
    ensures Kept(db, DataReset.Reset(db, scopes))
  {
    DataReset.ResetStep(db, scopes);
    ResetSubset(db, scopes);
    SameRowsContinue(db, db);
  }

  /** A reset only removes rows. */
  lemma ResetSubset(db: Db, scopes: set<DataReset.Scope>)
    ensures var after := DataReset.Reset(db, scopes);
            && after.next == db.next
            && (forall p | p in after.payments :: p in db.payments)
            && (forall o | o in after.orders :: o in db.orders)
            && (forall s | s in after.sales :: s in db.sales)
            && (forall s | s in after.sessions :: s in db.sessions && after.sessions[s] == db.sessions[s])
  {
    var mid := DataReset.ResetTables(db, scopes);
    DataReset.FilterSubset(db.payments, DataReset.KeepPayment(DataReset.TableRows));
    DataReset.FilterSubset(db.orders, DataReset.KeepOrder(DataReset.TableRows));
    DataReset.FilterSubset(mid.payments, DataReset.KeepPayment(DataReset.SaleRows));
    DataReset.FilterSubset(mid.orders, DataReset.KeepOrder(DataReset.SaleRows));
  }

  // ---- all steps ----

  ghost predicate WorldOk(w: World) {
    && w.past != [] && w.past[|w.past| - 1] == w.db
    && forall d | d in w.past :: Inv(d) && Later(d, w.db)
  }

  /** A session row read earlier names the table the session still has. */
  lemma SameTable(w: World, seen: Db, session: Id)
    requires WorldOk(w) && seen in w.past && session in seen.sessions
    ensures session in w.db.sessions ==> w.db.sessions[session].table == seen.sessions[session].table
  {
    if session in w.db.sessions {
      assert Inv(seen) && Later(seen, w.db);
      assert SessionContinues(seen.sessions, session, w.db.sessions[session]);
    }
  }

  lemma SessionCommits(w: World, op: SessionOp)
    requires WorldOk(w) && Inv(w.db) && Enabled(w, OnSession(op))
    ensures KeptOrSame(w.db, CommitSession(w.db, op))
  {
    match op {
      case OpenTable(table, plan) => OpenTableKept(w.db, table, plan);
      case CloseTable(session, force, seen) =>
        if session in seen.sessions {
          SameTable(w, seen, session);
          CloseTableKept(w.db, session, seen.sessions[session].table, force);
        }
      case AutoSettle(session, r) =>
        if session in r.session.sessions {
          SameTable(w, r.session, session);
          CarryOutKept(w.db, session, r.session.sessions[session].table, Settlement(session, r));
        }
    }
  }

  lemma FloorCommits(db: Db, op: FloorOp)
    requires Inv(db)
    ensures Kept(db, CommitFloor(db, op))
  {
    match op {
      case SetEnabled(table, enabled) => SetEnabledKept(db, table, enabled);
      case AddTable => AddTableKept(db);
      case LockPayments(table, locked) => LockKept(db, table, locked);
      case SetSettings(_) => CallsKept(db, CommitFloor(db, op));
      case CallStaff(_) => CallsKept(db, CommitFloor(db, op));
      case AnswerCall(_, _, _) => CallsKept(db, CommitFloor(db, op));
    }
  }

  lemma OrderCommits(w: World, op: OrderOp)
    requires Inv(w.db) && Enabled(w, OnOrder(op))
    ensures KeptOrSame(w.db, CommitOrder(w.db, op))
  {
    match op {
      case CreateOrder(session, key, lines, at) => CreateOrderKept(w.db, session, key, lines, at);
      case AdvanceOrder(order, move) => AdvanceKept(w.db, order, move);
      case CancelOrder(order, items) => CancelOrderKept(w.db, order, items);
    }
  }

  lemma PaymentCommits(w: World, op: PaymentOp)
    requires WorldOk(w) && Inv(w.db) && Enabled(w, OnPayment(op))
    ensures KeptOrSame(w.db, CommitPayment(w.db, op))
  {
    match op {
      case PayAmount(session, means, amount, tendered, text, at) =>
        PayAmountKept(w.db, session, means, amount, tendered, text, at);
      case PayItems(session, means, wanted, tendered, text, at) =>
        PayItemsKept(w.db, session, means, wanted, tendered, text, at);
      case GiveDiscount(session, discount, text, at) => DiscountKept(w.db, session, discount, text, at);
      case ReversePayment(payment, seen, at) => ReversalKept(w.db, payment, seen, at);
    }
  }

  lemma CouponCommits(db: Db, op: CouponOp)
    requires Inv(db)
    ensures KeptOrSame(db, CommitCoupon(db, op))
  {
    match op {
      case DropRedemption(due) => DropKept(db, due.session, due.code);
      case ApplyCoupon(session, code, target, key, at) => ApplyKept(db, session, code, target, key, at);
      case IssueCoupons(count, benefit, expiresAt) => IssueKept(db, count, benefit, expiresAt);
      case WithdrawCoupons(codes) => WithdrawKept(db, codes);
    }
  }

  lemma SaleCommits(db: Db, op: SaleOp)
    requires Inv(db)
    ensures KeptOrSame(db, CommitSale(db, op))
  {
    match op {
      case ConfirmSale(request) =>
        if Counter.ValidLines(request.lines) {
          ConfirmKept(db, request);
        }
      case CancelSale(sale, at) => CancelSaleKept(db, sale, at);
    }
  }

  lemma AnyCommits(w: World, step: Step)
    requires WorldOk(w) && Inv(w.db) && Enabled(w, step)
    ensures KeptOrSame(w.db, Commit(w.db, step))
  {
    match step {
      case OnSession(op) => SessionCommits(w, op);
      case OnFloor(op) => FloorCommits(w.db, op);
      case OnOrder(op) => OrderCommits(w, op);
      case OnPayment(op) => PaymentCommits(w, op);
      case OnCoupon(op) => CouponCommits(w.db, op);
      case OnSale(op) => SaleCommits(w.db, op);
      case ResetData(scopes) => ResetKept(w.db, scopes);
    }
  }

  /** One step of any kind. */
  lemma StepKeeps(w: World, step: Step)
    requires WorldOk(w) && Enabled(w, step)
    ensures WorldOk(Next(w, step)) && Kept(w.db, Commit(w.db, step))
  {
    assert w.db in w.past;
    AnyCommits(w, step);
    SettledKept(w, Commit(w.db, step));
  }

  lemma SettledKept(w: World, after: Db)
    requires WorldOk(w) && Inv(w.db) && KeptOrSame(w.db, after)
    ensures Kept(w.db, after)
    ensures forall d | d in w.past + [after] :: Inv(d) && Later(d, after)
  {
    LaterRefl(w.db);
    LaterRefl(after);
    forall d | d in w.past ensures Later(d, after) {
      LaterTransitive(d, w.db, after);
    }
  }

  /** In every state that any interleaving reaches, every invariant holds, and nothing earlier was undone. */
  lemma {:induction false} RunsKeep(w: World, steps: seq<Step>)
    requires WorldOk(w) && Runs(w, steps)
    ensures WorldOk(After(w, steps)) && Inv(After(w, steps).db) && Later(w.db, After(w, steps).db)
    decreases |steps|
  {
    assert w.db in w.past;
    if steps != [] {
      StepKeeps(w, steps[0]);
      RunsKeep(Next(w, steps[0]), steps[1..]);
      LaterTransitive(w.db, Next(w, steps[0]).db, After(w, steps).db);
    } else {
      LaterRefl(w.db);
    }
  }

  lemma StartOk()
    ensures WorldOk(START)
  {
    EmptyInv();
    LaterRefl(EMPTY);
  }
}
