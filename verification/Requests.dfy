/**
 Repeated requests: the look-up before the transaction, the transaction, and the look-up after a
 unique violation, each at its own moment of any interleaving (server/src/services/payment.ts,
 order.ts, counterSale.ts).
 */
module Requests {
  import Counter = CounterSales
  import DataReset
  import opened Invariants
  import opened Ledger
  import O = Orders
  import P = Payments
  import SaleSteps
  import opened Schema
  import opened Steps
  import TC = TableCoupons
  import opened World
  import opened Wrappers

  // ---- what one step does to keyed rows ----

  /** New rows of a session appear only while the session exists, under keys that name it. */
  ghost predicate RowsExtend(before: Db, after: Db) {
    && (forall p | p in before.payments :: p in after.payments)
    && (forall q | q in after.payments && q !in before.payments ::
          && (q.owner.Session? ==> q.owner.id in before.sessions)
          && (q.key.Scoped? ==> q.owner == Session(q.key.session)))
  }

  ghost predicate SameRequest(o: Order, p: Order) {
    o.id == p.id && o.key == p.key && o.owner == p.owner
  }

  ghost predicate OrderStays(o: Order, orders: seq<Order>) {
    exists p | p in orders :: SameRequest(o, p)
  }

  ghost predicate OrdersExtend(before: Db, after: Db) {
    && (forall o | o in before.orders :: OrderStays(o, after.orders))
    && (forall q | q in after.orders && q.key.TableOrder? ::
          OrderStays(q, before.orders) || (q.owner == Session(q.key.session) && q.key.session in before.sessions))
  }

  ghost predicate SaleStays(s: CounterSale, sales: seq<CounterSale>) {
    exists t | t in sales :: t == s.(status := t.status)
  }

  ghost predicate SalesExtend(before: Db, after: Db) {
    forall s | s in before.sales :: SaleStays(s, after.sales)
  }

  ghost predicate Extends(before: Db, after: Db) {
    RowsExtend(before, after) && OrdersExtend(before, after) && SalesExtend(before, after)
  }

  lemma SameStays(db: Db)
    ensures (forall o | o in db.orders :: OrderStays(o, db.orders)) && forall s | s in db.sales :: SaleStays(s, db.sales)
  {
    forall o | o in db.orders ensures OrderStays(o, db.orders) {
      assert SameRequest(o, o);
    }
    forall s | s in db.sales ensures SaleStays(s, db.sales) {
      assert s == s.(status := s.status);
    }
  }

  lemma FrameExtends(before: Db, after: Db)
    requires after.payments == before.payments && after.orders == before.orders && after.sales == before.sales
    ensures Extends(before, after)
  {
    SameStays(before);
  }

  lemma AppendExtends(before: Db, after: Db, p: Payment)
    requires after.payments == before.payments + [p] && after.orders == before.orders && after.sales == before.sales
    requires p.owner.Session? && p.owner.id in before.sessions && (p.key.Scoped? ==> p.owner == Session(p.key.session))
    ensures Extends(before, after)
  {
    SameStays(before);
  }

  lemma SameOrdersExtend(before: Db, orders: seq<Order>)
    requires O.SameOrders(before.orders, orders)
    ensures Extends(before, before.(orders := orders))
  {
    SameStays(before);
    forall o | o in before.orders ensures OrderStays(o, orders) {
      var i :| 0 <= i < |before.orders| && before.orders[i] == o;
      assert O.SameOrder(o, orders[i]) && orders[i] in orders && SameRequest(o, orders[i]);
    }
    forall q | q in orders ensures OrderStays(q, before.orders) {
      var i :| 0 <= i < |orders| && orders[i] == q;
      assert O.SameOrder(before.orders[i], q) && before.orders[i] in before.orders && SameRequest(q, before.orders[i]);
    }
  }

  lemma SessionFrame(db: Db, op: SessionOp)
    ensures var after := CommitSession(db, op);
            after.payments == db.payments && after.orders == db.orders && after.sales == db.sales
  {
  }

  lemma SessionExtends(db: Db, op: SessionOp)
    ensures Extends(db, CommitSession(db, op))
  {
    SessionFrame(db, op);
    FrameExtends(db, CommitSession(db, op));
  }

  lemma FloorExtends(db: Db, op: FloorOp)
    ensures Extends(db, CommitFloor(db, op))
  {
    FrameExtends(db, CommitFloor(db, op));
  }

  lemma NewOrderExtends(db: Db, o: Order, after: Db)
    requires after.payments == db.payments && after.sales == db.sales && after.orders == db.orders + [o]
    requires o.key.TableOrder? ==> o.owner == Session(o.key.session) && o.key.session in db.sessions
    ensures Extends(db, after)
  {
    SameStays(db);
    forall q | q in db.orders ensures OrderStays(q, after.orders) {
      assert q in after.orders && SameRequest(q, q);
    }
  }

  lemma OrderExtends(db: Db, op: OrderOp)
    ensures Extends(db, CommitOrder(db, op))
  {
    match op {
      case CreateOrder(session, key, lines, at) =>
        if O.CreateOrder(db, session, key, lines, at).Ok? {
          NewOrderExtends(db, O.TableOrderRow(db, session, key, lines, at), CommitOrder(db, op));
        } else {
          FrameExtends(db, db);
        }
      case AdvanceOrder(order, move) =>
        O.AdvanceSameOrders(db.orders, order, {O.From(move)}, O.To(move));
        SameOrdersExtend(db, O.Advance(db, order, move).orders);
      case CancelOrder(order, items) =>
        O.CancelSameOrders(db, order, items);
        SameOrdersExtend(db, O.AfterCancel(db, order, items).orders);
    }
  }

  lemma RecordExtends(db: Db, session: Id, r: P.Outcome)
    requires r.Ok? ==> session in db.sessions && r.value.owner == Session(session) && r.value.key.Scoped?
                       && r.value.key.session == session
    ensures Extends(db, P.Record(db, r))
  {
    if r.Ok? {
      AppendExtends(db, P.Record(db, r), r.value);
    } else {
      FrameExtends(db, db);
    }
  }

  lemma ReversalExtends(db: Db, payment: Id, seen: Db, at: int)
    ensures Extends(db, AfterReversal(db, payment, seen, at))
  {
    var t := P.BeginReversal(seen, payment, true);
    if t.Ok? && P.Reverse(db, t.value, at).Inserted? {
      AppendExtends(db, AfterReversal(db, payment, seen, at), P.Reverse(db, t.value, at).row);
    } else {
      FrameExtends(db, AfterReversal(db, payment, seen, at));
    }
  }

  lemma PaymentExtends(db: Db, op: PaymentOp)
    ensures Extends(db, CommitPayment(db, op))
  {
    match op {
      case PayAmount(session, means, amount, tendered, text, at) =>
        RecordExtends(db, session, P.PayAmount(db, session, means, amount, tendered, text, at));
      case PayItems(session, means, wanted, tendered, text, at) =>
        RecordExtends(db, session, P.PayItems(db, session, means, wanted, tendered, text, at));
      case GiveDiscount(session, discount, text, at) =>
        RecordExtends(db, session, P.GiveDiscount(db, session, discount, text, at));
      case ReversePayment(payment, seen, at) => ReversalExtends(db, payment, seen, at);
    }
  }

  lemma ApplyExtends(db: Db, session: Id, code: string, target: Option<Id>, key: string, at: int)
    ensures Extends(db, TC.AfterApply(db, session, code, target, key, at))
  {
    var after := TC.AfterApply(db, session, code, target, key, at);
    if TC.ApplyCoupon(db, session, code, target, key, at).Ok? {
      AppendExtends(db, after, after.payments[|db.payments|]);
    } else {
      FrameExtends(db, after);
    }
  }

  lemma CouponExtends(db: Db, op: CouponOp)
    ensures Extends(db, CommitCoupon(db, op))
  {
    match op {
      case ApplyCoupon(session, code, target, key, at) => ApplyExtends(db, session, code, target, key, at);
      case _ => FrameExtends(db, CommitCoupon(db, op));
    }
  }

  lemma ConfirmExtends(db: Db, request: Counter.Request, q: Counter.Quote)
    requires |q.discounts| == |q.lines| && Counter.ValidLines(q.lines) && (q.coupon.Some? ==> q.coupon.value.code in db.coupons)
    ensures Extends(db, Counter.WriteSale(db, request, q))
  {
    var after := Counter.WriteSale(db, request, q);
    SameStays(db);
    forall o | o in db.orders ensures OrderStays(o, after.orders) {
      assert o in after.orders && SameRequest(o, o);
    }
    forall o | o in after.orders && o.key.TableOrder? ensures OrderStays(o, db.orders) {
      assert o in db.orders;
    }
    forall s | s in db.sales ensures SaleStays(s, after.sales) {
      assert s in after.sales && s == s.(status := s.status);
    }
  }

  lemma CancelledOrdersExtend(db: Db, after: Db, sale: Id)
    requires after.orders == Counter.CancelSaleOrders(db.orders, sale)
    ensures OrdersExtend(db, after)
  {
    SaleSteps.CancelOrdersKeep(db.orders, sale);
    SameOrdersExtend(db, after.orders);
  }

  lemma CancelledSalesExtend(db: Db, after: Db, sale: Id)
    requires after.sales == Counter.CancelSaleRows(db.sales, sale)
    ensures SalesExtend(db, after)
  {
    forall s | s in db.sales ensures SaleStays(s, after.sales) {
      var i :| 0 <= i < |db.sales| && db.sales[i] == s;
      assert after.sales[i] in after.sales;
    }
  }

  lemma RefundsExtend(db: Db, after: Db, sale: Id, at: int)
    requires after.payments == db.payments + Counter.Refunds(db, sale, at)
    ensures RowsExtend(db, after)
  {
    SaleSteps.RefundsCopy(db, sale, at);
  }

  lemma CancelExtends(db: Db, sale: Id, at: int)
    ensures Extends(db, Counter.AfterCancelSale(db, sale, true, at))
  {
    var after := Counter.AfterCancelSale(db, sale, true, at);
    if Counter.CancelSale(db, sale, true, at).Ok? {
      RefundsExtend(db, after, sale, at);
      CancelledOrdersExtend(db, after, sale);
      CancelledSalesExtend(db, after, sale);
    } else {
      FrameExtends(db, db);
    }
  }

  lemma ConfirmedExtends(db: Db, request: Counter.Request)
    requires Counter.ValidLines(request.lines)
    ensures Extends(db, Counter.AfterConfirm(db, request))
  {
    var r := Counter.Confirm(db, request);
    if r.Ok? {
      Counter.QuoteIsExact(db, request.lines, request.code, request.target, request.at);
      ConfirmExtends(db, request, r.value);
    } else {
      FrameExtends(db, db);
    }
  }

  lemma SaleExtends(db: Db, op: SaleOp)
    ensures Extends(db, CommitSale(db, op))
  {
    match op {
      case ConfirmSale(request) =>
        if Counter.ValidLines(request.lines) {
          ConfirmedExtends(db, request);
        } else {
          FrameExtends(db, db);
        }
      case CancelSale(sale, at) => CancelExtends(db, sale, at);
    }
  }

  lemma StepExtends(db: Db, step: Step)
    requires !step.ResetData?
    ensures Extends(db, Commit(db, step))
  {
    match step {
      case OnSession(op) => SessionExtends(db, op);
      case OnFloor(op) => FloorExtends(db, op);
      case OnOrder(op) => OrderExtends(db, op);
      case OnPayment(op) => PaymentExtends(db, op);
      case OnCoupon(op) => CouponExtends(db, op);
      case OnSale(op) => SaleExtends(db, op);
    }
  }

  // ---- rows answered once are answered always ----

  /** Rows of the past are still there, unless their session is gone. */
  ghost predicate RowsLast(past: seq<Db>, db: Db) {
    && (forall d, p | d in past && p in d.payments && p.owner.Session? :: p in db.payments || p.owner.id !in db.sessions)
    && (forall d, o | d in past && o in d.orders && o.owner.Session? :: OrderStays(o, db.orders) || o.owner.id !in db.sessions)
  }

  ghost predicate KeysName(past: seq<Db>) {
    && (forall d, p | d in past && p in d.payments && p.key.Scoped? :: p.owner == Session(p.key.session))
    && (forall d, o | d in past && o in d.orders && o.key.TableOrder? :: o.owner == Session(o.key.session))
  }

  ghost predicate PaymentsAgree(d: Db, e: Db) {
    forall p, q | p in d.payments && q in e.payments && p.key.Scoped? && p.key == q.key :: p == q
  }

  ghost predicate OrdersAgree(d: Db, e: Db) {
    forall o, q | o in d.orders && q in e.orders && o.key.TableOrder? && o.key == q.key :: SameRequest(o, q)
  }

  /** One row per key over the whole past. */
  ghost predicate OnePaymentPerKey(past: seq<Db>) {
    forall d, e | d in past && e in past :: PaymentsAgree(d, e)
  }

  ghost predicate OneOrderPerKey(past: seq<Db>) {
    forall d, e | d in past && e in past :: OrdersAgree(d, e)
  }

  ghost predicate Once(w: World) {
    RowsLast(w.past, w.db) && KeysName(w.past) && OnePaymentPerKey(w.past) && OneOrderPerKey(w.past)
  }

  /** Either the step extends the rows, or it removes rows of a whole channel with their sessions. */
  ghost predicate Moves(before: Db, after: Db) {
    || Extends(before, after)
    || (&& (forall p | p in after.payments :: p in before.payments)
        && (forall o | o in after.orders :: o in before.orders)
        && (SessionRowsKept(before, after) || after.sessions == map[]))
  }

  ghost predicate SessionRowsKept(before: Db, after: Db) {
    && (forall p | p in before.payments && p.owner.Session? :: p in after.payments)
    && (forall o | o in before.orders && o.owner.Session? :: o in after.orders)
  }

  lemma ResetMoves(db: Db, scopes: set<DataReset.Scope>)
    ensures Moves(db, DataReset.Reset(db, scopes))
  {
    ResetSubset(db, scopes);
    var mid := DataReset.ResetTables(db, scopes);
    DataReset.FilterSubset(mid.payments, DataReset.KeepPayment(DataReset.SaleRows));
    DataReset.FilterSubset(mid.orders, DataReset.KeepOrder(DataReset.SaleRows));
  }

  lemma StepMoves(db: Db, step: Step)
    ensures Moves(db, Commit(db, step))
  {
    if step.ResetData? {
      ResetMoves(db, step.scopes);
    } else {
      StepExtends(db, step);
    }
  }

  lemma SessionGoneStays(w: World, after: Db, d: Db, s: Id)
    requires WorldOk(w) && d in w.past && Later(w.db, after) && s < d.next && s !in w.db.sessions
    ensures s !in after.sessions
  {
    assert Later(d, w.db);
    assert s in after.sessions ==> SessionContinues(w.db.sessions, s, after.sessions[s]);
  }

  lemma PaymentLasts(w: World, after: Db, d: Db, p: Payment)
    requires WorldOk(w) && RowsLast(w.past, w.db) && Later(w.db, after) && Moves(w.db, after)
    requires d in w.past && p in d.payments && p.owner.Session?
    ensures p in after.payments || p.owner.id !in after.sessions
  {
    assert Inv(d);
    if p !in w.db.payments {
      SessionGoneStays(w, after, d, p.owner.id);
    }
  }

  lemma StaysTransitive(o: Order, before: seq<Order>, after: seq<Order>)
    requires OrderStays(o, before) && forall q | q in before && q.owner == o.owner :: OrderStays(q, after)
    ensures OrderStays(o, after)
  {
    var q :| q in before && SameRequest(o, q);
    var r :| r in after && SameRequest(q, r);
  }

  lemma OrderLasts(w: World, after: Db, d: Db, o: Order)
    requires WorldOk(w) && RowsLast(w.past, w.db) && Later(w.db, after) && Moves(w.db, after)
    requires d in w.past && o in d.orders && o.owner.Session?
    ensures OrderStays(o, after.orders) || o.owner.id !in after.sessions
  {
    assert Inv(d);
    if OrderStays(o, w.db.orders) {
      if o.owner.id in after.sessions {
        forall q | q in w.db.orders && q.owner == o.owner ensures OrderStays(q, after.orders) {
          if q in after.orders {
            assert SameRequest(q, q);
          }
        }
        StaysTransitive(o, w.db.orders, after.orders);
      }
    } else {
      SessionGoneStays(w, after, d, o.owner.id);
    }
  }

  /** A row that appears under a key which an earlier state already answered is that same row. */
  lemma SamePayment(w: World, after: Db, d: Db, p: Payment, q: Payment)
    requires RowsLast(w.past, w.db) && KeysName(w.past) && OnePaymentPerKey(w.past) && w.db in w.past
    requires IsLedger(after.payments) && Moves(w.db, after)
    requires d in w.past && p in d.payments && q in after.payments && p.key.Scoped? && p.key == q.key
    ensures p == q
  {
    if q in w.db.payments {
      assert PaymentsAgree(d, w.db);
    } else {
      assert p.owner == Session(p.key.session) == q.owner;
      assert p in w.db.payments && p in after.payments;
      SameRow(after.payments, p, q);
    }
  }

  lemma SameOrderRequest(w: World, after: Db, d: Db, o: Order, q: Order)
    requires RowsLast(w.past, w.db) && KeysName(w.past) && OneOrderPerKey(w.past) && w.db in w.past
    requires O.OrdersDistinct(after.orders) && Moves(w.db, after)
    requires d in w.past && o in d.orders && q in after.orders && o.key.TableOrder? && o.key == q.key
    ensures SameRequest(o, q)
  {
    assert OrdersAgree(d, w.db);
    assert o.owner == Session(o.key.session);
    if !Extends(w.db, after) {
      assert q in w.db.orders;
    } else {
      if OrderStays(q, w.db.orders) {
        var s :| s in w.db.orders && SameRequest(q, s);
        assert SameRequest(o, s);
      }
      StaysTransitive(o, w.db.orders, after.orders);
      var r :| r in after.orders && SameRequest(o, r);
      SameKeyOrder(after.orders, r, q);
    }
  }

  lemma SameKeyOrder(orders: seq<Order>, o: Order, q: Order)
    requires O.OrdersDistinct(orders) && o in orders && q in orders && o.key == q.key
    ensures o == q
  {
    var i :| 0 <= i < |orders| && orders[i] == o;
    var j :| 0 <= j < |orders| && orders[j] == q;
  }

  lemma PastNamesKeys(w: World, after: Db)
    requires KeysName(w.past) && Moves(w.db, after) && w.db in w.past
    ensures KeysName(w.past + [after])
  {
    forall p | p in after.payments && p.key.Scoped? ensures p.owner == Session(p.key.session) {
      assert p in w.db.payments ==> p.owner == Session(p.key.session);
    }
    forall o | o in after.orders && o.key.TableOrder? ensures o.owner == Session(o.key.session) {
      if OrderStays(o, w.db.orders) {
        var r :| r in w.db.orders && SameRequest(o, r);
      }
    }
  }

  lemma NewPaymentsAgree(w: World, after: Db, d: Db)
    requires RowsLast(w.past, w.db) && KeysName(w.past) && OnePaymentPerKey(w.past) && w.db in w.past
    requires IsLedger(after.payments) && Moves(w.db, after) && d in w.past
    ensures PaymentsAgree(d, after) && PaymentsAgree(after, d)
  {
    forall p, q | p in d.payments && q in after.payments && p.key.Scoped? && p.key == q.key ensures p == q {
      SamePayment(w, after, d, p, q);
    }
  }

  lemma PastOnePayment(w: World, after: Db)
    requires RowsLast(w.past, w.db) && KeysName(w.past) && OnePaymentPerKey(w.past) && w.db in w.past
    requires IsLedger(after.payments) && Moves(w.db, after)
    ensures OnePaymentPerKey(w.past + [after])
  {
    forall d | d in w.past ensures PaymentsAgree(d, after) && PaymentsAgree(after, d) {
      NewPaymentsAgree(w, after, d);
    }
    forall p, q | p in after.payments && q in after.payments && p.key == q.key ensures p == q {
      SameRow(after.payments, p, q);
    }
  }

  lemma NewOrdersAgree(w: World, after: Db, d: Db)
    requires RowsLast(w.past, w.db) && KeysName(w.past) && OneOrderPerKey(w.past) && w.db in w.past
    requires O.OrdersDistinct(after.orders) && Moves(w.db, after) && d in w.past
    ensures OrdersAgree(d, after)
  {
    forall o, q | o in d.orders && q in after.orders && o.key.TableOrder? && o.key == q.key ensures SameRequest(o, q) {
      SameOrderRequest(w, after, d, o, q);
    }
  }

  lemma AgreeBothWays(d: Db, e: Db)
    requires OrdersAgree(d, e)
    ensures OrdersAgree(e, d)
  {
  }

  lemma PastOneOrder(w: World, after: Db)
    requires RowsLast(w.past, w.db) && KeysName(w.past) && OneOrderPerKey(w.past) && w.db in w.past
    requires O.OrdersDistinct(after.orders) && Moves(w.db, after)
    ensures OneOrderPerKey(w.past + [after])
  {
    forall d | d in w.past ensures OrdersAgree(d, after) && OrdersAgree(after, d) {
      NewOrdersAgree(w, after, d);
      AgreeBothWays(d, after);
    }
    forall o, q | o in after.orders && q in after.orders && o.key == q.key ensures o == q {
      SameKeyOrder(after.orders, o, q);
    }
  }

  lemma OnceStep(w: World, step: Step)
    requires WorldOk(w) && Once(w) && Enabled(w, step)
    ensures Once(Next(w, step))
  {
    var after := Commit(w.db, step);
    assert w.db in w.past;
    StepKeeps(w, step);
    StepMoves(w.db, step);
    PastNamesKeys(w, after);
    PastOnePayment(w, after);
    PastOneOrder(w, after);
    PastLasts(w, after);
  }

  lemma PastLasts(w: World, after: Db)
    requires WorldOk(w) && RowsLast(w.past, w.db) && Kept(w.db, after) && Moves(w.db, after)
    ensures RowsLast(w.past + [after], after)
  {
    forall d, p | d in w.past && p in d.payments && p.owner.Session? ensures p in after.payments || p.owner.id !in after.sessions {
      PaymentLasts(w, after, d, p);
    }
    forall d, o | d in w.past && o in d.orders && o.owner.Session?
      ensures OrderStays(o, after.orders) || o.owner.id !in after.sessions
    {
      OrderLasts(w, after, d, o);
    }
    SameStays(after);
  }

  lemma {:induction false} RunsOnce(w: World, steps: seq<Step>)
    requires WorldOk(w) && Once(w) && Runs(w, steps)
    ensures Once(After(w, steps)) && WorldOk(After(w, steps))
    decreases |steps|
  {
    if steps != [] {
      OnceStep(w, steps[0]);
      StepKeeps(w, steps[0]);
      RunsOnce(Next(w, steps[0]), steps[1..]);
    }
  }

  // ---- the answers ----

  /** What a look-up by key answers in one state: before the transaction, or after a unique violation. */
  function PaymentAnswer(db: Db, key: PaymentKey): Option<Payment> {
    P.FindByKey(db.payments, key)
  }

  /**
   However duplicates of a table request interleave, with resets or without: every answer for one key
   names one and the same row, whichever moment it was given at.
   */
  lemma PaymentAnswersAgree(steps: seq<Step>, key: PaymentKey, d: Db, e: Db)
    requires Runs(START, steps) && key.Scoped? && d in After(START, steps).past && e in After(START, steps).past
    ensures PaymentAnswer(d, key).Some? && PaymentAnswer(e, key).Some? ==> PaymentAnswer(d, key) == PaymentAnswer(e, key)
    ensures forall p, q | p in d.payments && q in d.payments && p.key == key && q.key == key :: p == q
  {
    StartOk();
    StartOnce();
    RunsOnce(START, steps);
    AnswersAgree(After(START, steps), key, d, e);
  }

  lemma StartOnce()
    ensures Once(START)
  {
  }

  lemma AnswersAgree(w: World, key: PaymentKey, d: Db, e: Db)
    requires Once(w) && key.Scoped? && d in w.past && e in w.past
    ensures PaymentAnswer(d, key).Some? && PaymentAnswer(e, key).Some? ==> PaymentAnswer(d, key) == PaymentAnswer(e, key)
    ensures forall p, q | p in d.payments && q in d.payments && p.key == key && q.key == key :: p == q
  {
    P.FindByKeyExactly(d.payments, key);
    P.FindByKeyExactly(e.payments, key);
    assert PaymentsAgree(d, e) && PaymentsAgree(d, d);
  }

  /** The same for table orders, up to their later progress: one key, one order. */
  lemma OrderAnswersAgree(steps: seq<Step>, d: Db, e: Db, o: Order, q: Order)
    requires Runs(START, steps) && d in After(START, steps).past && e in After(START, steps).past
    requires o in d.orders && q in e.orders && o.key.TableOrder? && o.key == q.key
    ensures o.id == q.id && o.owner == q.owner
  {
    StartOk();
    StartOnce();
    RunsOnce(START, steps);
    OneOrder(After(START, steps).past, d, e, o, q);
  }

  lemma OneOrder(past: seq<Db>, d: Db, e: Db, o: Order, q: Order)
    requires OneOrderPerKey(past) && d in past && e in past
    requires o in d.orders && q in e.orders && o.key.TableOrder? && o.key == q.key
    ensures o.id == q.id && o.owner == q.owner
  {
    assert OrdersAgree(d, e);
  }

  lemma {:induction false} PastStays(w: World, steps: seq<Step>)
    ensures forall d | d in w.past :: d in After(w, steps).past
    decreases |steps|
  {
    if steps != [] {
      PastStays(Next(w, steps[0]), steps[1..]);
    }
  }

  /** A run, one more step, and a continuation; `x` is where it ends. */
  lemma Continued(steps: seq<Step>, step: Step, more: seq<Step>) returns (x: World)
    requires Runs(START, steps) && Enabled(After(START, steps), step) && Runs(Next(After(START, steps), step), more)
    ensures x == After(Next(After(START, steps), step), more) && Once(x) && WorldOk(x)
    ensures After(START, steps).db in x.past && Commit(After(START, steps).db, step) in x.past && x.db in x.past
  {
    StartOk();
    StartOnce();
    RunsOnce(START, steps);
    var w := After(START, steps);
    OnceStep(w, step);
    StepKeeps(w, step);
    RunsOnce(Next(w, step), more);
    PastStays(Next(w, step), more);
    x := After(Next(w, step), more);
    assert w.db in Next(w, step).past && Commit(w.db, step) in Next(w, step).past;
  }

  /** The row `p` of `d` is still there in `x`, and what look-ups by its key find, unless its session is gone. */
  lemma RowIsFound(x: World, d: Db, p: Payment)
    requires Once(x) && d in x.past && x.db in x.past && p in d.payments && p.key.Scoped?
    requires p.key.session in x.db.sessions
    ensures PaymentAnswer(x.db, p.key) == Some(p)
  {
    P.FindByKeyExactly(x.db.payments, p.key);
    assert p in x.db.payments && PaymentsAgree(d, x.db);
  }

  /**
   A table request that loses to its duplicate finds the winner when it looks again after the unique
   violation, whatever ran in between, unless a reset has taken the whole session away.
   */
  lemma LoserFindsWinner(steps: seq<Step>, step: Step, more: seq<Step>, key: PaymentKey)
    requires Runs(START, steps) && Enabled(After(START, steps), step) && Runs(Next(After(START, steps), step), more)
    requires key.Scoped? && KeyTaken(After(START, steps).db.payments, key)
    requires key.session in After(Next(After(START, steps), step), more).db.sessions
    ensures PaymentAnswer(After(START, steps).db, key).Some?
    ensures PaymentAnswer(After(Next(After(START, steps), step), more).db, key) == PaymentAnswer(After(START, steps).db, key)
  {
    var x := Continued(steps, step, more);
    var d := After(START, steps).db;
    P.FindByKeyExactly(d.payments, key);
    RowIsFound(x, d, PaymentAnswer(d, key).value);
  }

  /** The row a transaction inserts and replies with is the row every look-up by its key names from then on. */
  lemma CommittedReply(steps: seq<Step>, step: Step, more: seq<Step>, p: Payment, e: Db)
    requires Runs(START, steps) && Enabled(After(START, steps), step) && Runs(Next(After(START, steps), step), more)
    requires p in Commit(After(START, steps).db, step).payments && p.key.Scoped?
    requires e in After(Next(After(START, steps), step), more).past
    ensures PaymentAnswer(e, p.key).Some? ==> PaymentAnswer(e, p.key) == Some(p)
  {
    var x := Continued(steps, step, more);
    P.FindByKeyExactly(e.payments, p.key);
    assert PaymentsAgree(Commit(After(START, steps).db, step), e);
  }

  /** The same for table orders: the committed order is the one every look-up names, and a loser finds it. */
  lemma CommittedOrder(steps: seq<Step>, step: Step, more: seq<Step>, o: Order, e: Db, q: Order)
    requires Runs(START, steps) && Enabled(After(START, steps), step) && Runs(Next(After(START, steps), step), more)
    requires o in Commit(After(START, steps).db, step).orders && o.key.TableOrder?
    requires e in After(Next(After(START, steps), step), more).past && q in e.orders && q.key == o.key
    ensures q.id == o.id && q.owner == o.owner
    ensures var last := After(Next(After(START, steps), step), more).db;
            o.key.session in last.sessions ==> OrderStays(o, last.orders)
  {
    var x := Continued(steps, step, more);
    OneOrder(x.past, Commit(After(START, steps).db, step), e, o, q);
    assert o.owner == Session(o.key.session);
  }

  // ---- counter sales ----

  datatype SaleAnswer = Found(sale: CounterSale) | Conflict | Unknown

  function FindSaleByKey(sales: seq<CounterSale>, key: SaleKey): Option<CounterSale> {
    if sales == [] then None
    else if sales[|sales| - 1].key == key then Some(sales[|sales| - 1])
    else FindSaleByKey(sales[..|sales| - 1], key)
  }

  /** The look-up compares the hash of the request with the stored one. */
  function LookUpSale(db: Db, key: SaleKey, hash: string): SaleAnswer {
    var row := FindSaleByKey(db.sales, key);
    if row.None? then Unknown else if row.value.requestHash == hash then Found(row.value) else Conflict
  }

  lemma {:induction false} FoundSaleByKey(sales: seq<CounterSale>, key: SaleKey)
    ensures FindSaleByKey(sales, key).Some? ==>
              FindSaleByKey(sales, key).value in sales && FindSaleByKey(sales, key).value.key == key
  {
    if sales != [] {
      FoundSaleByKey(sales[..|sales| - 1], key);
    }
  }

  predicate KeepsSales(step: Step) {
    step.ResetData? ==> DataReset.CounterSales !in step.scopes
  }

  lemma StepKeepsSales(db: Db, step: Step)
    requires KeepsSales(step)
    ensures SalesExtend(db, Commit(db, step))
  {
    if step.ResetData? {
      SameStays(db);
    } else {
      StepExtends(db, step);
    }
  }

  /** Found by its own body, a conflict for any other. */
  ghost predicate SaleAnswered(db: Db, s: CounterSale, other: string) {
    if other == s.requestHash then LookUpSale(db, s.key, other).Found? && LookUpSale(db, s.key, other).sale.id == s.id
    else LookUpSale(db, s.key, other) == Conflict
  }

  lemma SaleAnsweredIn(db: Db, s: CounterSale, other: string)
    requires SalesOk(db.sales, db.orders, db.payments) && SaleStays(s, db.sales)
    ensures SaleAnswered(db, s, other)
  {
    SaleIsFound(db.sales, db.orders, db.payments, s);
  }

  lemma SalesOkAfter(w: World, more: seq<Step>)
    requires WorldOk(w) && Runs(w, more)
    ensures var db := After(w, more).db; SalesOk(db.sales, db.orders, db.payments)
  {
    RunsKeep(w, more);
  }

  lemma SaleAnsweredFrom(w: World, more: seq<Step>, s: CounterSale, other: string)
    requires WorldOk(w) && Runs(w, more) && s in w.db.sales && forall i | 0 <= i < |more| :: KeepsSales(more[i])
    ensures SaleAnswered(After(w, more).db, s, other)
  {
    SaleStaysOver(w, more, s);
    SalesOkAfter(w, more);
    SaleAnsweredIn(After(w, more).db, s, other);
  }

  /** A committed sale is what every later look-up with its own body finds, and a conflict for any other body. */
  lemma CommittedSale(steps: seq<Step>, step: Step, more: seq<Step>, s: CounterSale, other: string)
    requires Runs(START, steps) && Enabled(After(START, steps), step) && Runs(Next(After(START, steps), step), more)
    requires s in Commit(After(START, steps).db, step).sales && forall i | 0 <= i < |more| :: KeepsSales(more[i])
    ensures SaleAnswered(After(Next(After(START, steps), step), more).db, s, other)
  {
    StartOk();
    RunsKeep(START, steps);
    StepKeeps(After(START, steps), step);
    SaleAnsweredFrom(Next(After(START, steps), step), more, s, other);
  }

  lemma FoundCarriesHash(db: Db, key: SaleKey, hash: string)
    requires LookUpSale(db, key, hash).Found?
    ensures var sale := LookUpSale(db, key, hash).sale; sale in db.sales && sale.key == key && sale.requestHash == hash
  {
    FoundSaleByKey(db.sales, key);
  }

  /**
   A successful answer for a sale key carries the sale's own request hash. Until a reset of counter sales,
   every later answer for the key names the same sale, and another body under it is a conflict.
   */
  lemma SaleAnswersAgree(steps: seq<Step>, more: seq<Step>, key: SaleKey, hash: string, other: string)
    returns (sale: CounterSale)
    requires Runs(START, steps) && Runs(After(START, steps), more) && forall i | 0 <= i < |more| :: KeepsSales(more[i])
    requires LookUpSale(After(START, steps).db, key, hash).Found?
    ensures sale == LookUpSale(After(START, steps).db, key, hash).sale && sale.key == key && sale.requestHash == hash
    ensures SaleAnswered(After(After(START, steps), more).db, sale, other)
  {
    var w := After(START, steps);
    StartOk();
    RunsKeep(START, steps);
    FoundCarriesHash(w.db, key, hash);
    sale := LookUpSale(w.db, key, hash).sale;
    SaleAnsweredFrom(w, more, sale, other);
  }

  lemma {:induction false} SaleStaysOver(w: World, steps: seq<Step>, s: CounterSale)
    requires s in w.db.sales && forall i | 0 <= i < |steps| :: KeepsSales(steps[i])
    ensures SaleStays(s, After(w, steps).db.sales)
    decreases |steps|
  {
    SameStays(w.db);
    if steps != [] {
      StepKeepsSales(w.db, steps[0]);
      var t :| t in Next(w, steps[0]).db.sales && t == s.(status := t.status);
      SaleStaysOver(Next(w, steps[0]), steps[1..], t);
    }
  }

  lemma {:induction false} SaleByKeyExactly(sales: seq<CounterSale>, key: SaleKey)
    ensures FindSaleByKey(sales, key).Some? <==> exists s | s in sales :: s.key == key
  {
    if sales != [] {
      SaleByKeyExactly(sales[..|sales| - 1], key);
      assert sales == sales[..|sales| - 1] + [sales[|sales| - 1]];
    }
  }

  lemma SaleIsFound(sales: seq<CounterSale>, orders: seq<Order>, payments: seq<Payment>, s: CounterSale)
    requires SalesOk(sales, orders, payments) && SaleStays(s, sales)
    ensures FindSaleByKey(sales, s.key).Some?
    ensures var t := FindSaleByKey(sales, s.key).value; t.id == s.id && t.requestHash == s.requestHash
  {
    SaleByKeyExactly(sales, s.key);
    FoundSaleByKey(sales, s.key);
    var t := FindSaleByKey(sales, s.key).value;
    var u :| u in sales && u == s.(status := u.status);
    var i :| 0 <= i < |sales| && sales[i] == t;
    var j :| 0 <= j < |sales| && sales[j] == u;
  }
}
