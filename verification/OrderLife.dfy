/** The life of an order through any interleaving of requests: which status can follow which. */
module OrderLife {
  import Counter = CounterSales
  import DataReset
  import opened Invariants
  import O = Orders
  import SaleSteps
  import opened Schema
  import opened Steps
  import opened World

  /** What one step may make of an order's status; a sale's order is also cancelled with its sale. */
  predicate MayBecome(before: Order, after: OrderStatus) {
    || after == before.status
    || (before.owner.Sale? && after == Cancelled)
    || match before.status
       case New => after in {Accepted, Rejected, Cancelled}
       case Accepted => after in {Preparing, Cancelled}
       case Preparing => after in {OrderStatus.Ready, Cancelled}
       case Ready => after == Served
       case Served => after == OrderStatus.Ready
       case Rejected => false
       case Cancelled => false
  }

  ghost predicate Moved(orders: seq<Order>, o: Order) {
    exists p | p in orders :: p.id == o.id && p.owner == o.owner && MayBecome(p, o.status)
  }

  /** Rows there before come from such a row; no status is reached but through a documented move. */
  ghost predicate OrdersMove(a: Db, b: Db) {
    forall o | o in b.orders && o.id < a.next :: Moved(a.orders, o)
  }

  lemma SubsetMoves(a: Db, b: Db)
    requires forall o | o in b.orders && o.id < a.next :: o in a.orders
    ensures OrdersMove(a, b)
  {
    forall o | o in b.orders && o.id < a.next ensures Moved(a.orders, o) {
      assert MayBecome(o, o.status);
    }
  }

  predicate RowMoves(before: Order, after: Order) {
    before.id == after.id && before.owner == after.owner && MayBecome(before, after.status)
  }

  lemma RowsMove(a: Db, b: Db)
    requires |a.orders| == |b.orders|
    requires forall i | 0 <= i < |a.orders| :: RowMoves(a.orders[i], b.orders[i])
    ensures OrdersMove(a, b)
  {
    forall o | o in b.orders && o.id < a.next ensures Moved(a.orders, o) {
      var i :| 0 <= i < |b.orders| && b.orders[i] == o;
      assert a.orders[i] in a.orders && RowMoves(a.orders[i], o);
    }
  }

  lemma OrderStepMoves(db: Db, op: OrderOp)
    requires Inv(db)
    ensures OrdersMove(db, CommitOrder(db, op))
  {
    var after := CommitOrder(db, op);
    match op {
      case CreateOrder(session, key, lines, at) => SubsetMoves(db, after);
      case AdvanceOrder(order, move) => RowsMove(db, after);
      case CancelOrder(order, items) =>
        if O.CancelOrder(db, order, items).Ok? {
          var k := O.CancelOneRow(db, order, items);
        }
        RowsMove(db, after);
    }
  }

  lemma SaleStepMoves(db: Db, op: SaleOp)
    requires Inv(db)
    ensures OrdersMove(db, CommitSale(db, op))
  {
    var after := CommitSale(db, op);
    match op {
      case ConfirmSale(request) =>
        if Counter.ValidLines(request.lines) {
          ConfirmMoves(db, request);
        } else {
          SubsetMoves(db, after);
        }
      case CancelSale(sale, at) => RowsMove(db, after);
    }
  }

  lemma ConfirmMoves(db: Db, request: Counter.Request)
    requires Inv(db) && Counter.ValidLines(request.lines)
    ensures OrdersMove(db, Counter.AfterConfirm(db, request))
  {
    var after := Counter.AfterConfirm(db, request);
    if Counter.Confirm(db, request).Ok? {
      Counter.QuoteIsExact(db, request.lines, request.code, request.target, request.at);
      forall o | o in after.orders && o.id < db.next ensures o in db.orders {
        SaleSteps.OldOrNew(db, Counter.KeyOf(request), request.lines, request.at, o);
      }
    }
    SubsetMoves(db, after);
  }

  lemma ResetMoves(db: Db, scopes: set<DataReset.Scope>)
    ensures OrdersMove(db, DataReset.Reset(db, scopes))
  {
    ResetSubset(db, scopes);
    SubsetMoves(db, DataReset.Reset(db, scopes));
  }

  lemma SessionOrders(db: Db, op: SessionOp)
    ensures CommitSession(db, op).orders == db.orders
  {
  }

  lemma FloorOrders(db: Db, op: FloorOp)
    ensures CommitFloor(db, op).orders == db.orders
  {
  }

  lemma PaymentOrders(db: Db, op: PaymentOp)
    ensures CommitPayment(db, op).orders == db.orders
  {
  }

  lemma CouponOrders(db: Db, op: CouponOp)
    ensures CommitCoupon(db, op).orders == db.orders
  {
  }

  lemma OthersMove(db: Db, step: Step)
    requires step.OnSession? || step.OnFloor? || step.OnPayment? || step.OnCoupon?
    ensures OrdersMove(db, Commit(db, step))
  {
    match step {
      case OnSession(op) => SessionOrders(db, op);
      case OnFloor(op) => FloorOrders(db, op);
      case OnPayment(op) => PaymentOrders(db, op);
      case OnCoupon(op) => CouponOrders(db, op);
    }
    SubsetMoves(db, Commit(db, step));
  }

  /** Whatever the step, an order's status changes only along a documented move, or with its sale's cancellation. */
  lemma OrdersOnlyMove(db: Db, step: Step)
    requires Inv(db)
    ensures OrdersMove(db, Commit(db, step))
  {
    match step {
      case OnOrder(op) => OrderStepMoves(db, op);
      case OnSale(op) => SaleStepMoves(db, op);
      case ResetData(scopes) => ResetMoves(db, scopes);
      case _ => OthersMove(db, step);
    }
  }

  // ---- whole runs ----

  /** What may become of a table's order in the end. */
  predicate MayEndAs(before: OrderStatus, after: OrderStatus) {
    match before
    case New => true
    case Accepted => after !in {New, Rejected}
    case Preparing => after !in {New, Accepted, Rejected}
    case Ready => after in {OrderStatus.Ready, Served}
    case Served => after in {OrderStatus.Ready, Served}
    case Rejected => after == Rejected
    case Cancelled => after == Cancelled
  }

  ghost predicate Ended(orders: seq<Order>, o: Order) {
    exists p | p in orders :: p.id == o.id && p.owner == o.owner && (o.owner.Session? ==> MayEndAs(p.status, o.status))
  }

  ghost predicate OrdersEnd(a: Db, b: Db) {
    forall o | o in b.orders && o.id < a.next :: Ended(a.orders, o)
  }

  lemma MoveThenEnd(a: Db, b: Db, c: Db)
    requires OrdersMove(a, b) && OrdersEnd(b, c) && a.next <= b.next
    ensures OrdersEnd(a, c)
  {
    forall o | o in c.orders && o.id < a.next ensures Ended(a.orders, o) {
      assert Ended(b.orders, o);
      var p :| p in b.orders && p.id == o.id && p.owner == o.owner && (o.owner.Session? ==> MayEndAs(p.status, o.status));
      assert Moved(a.orders, p);
      var q :| q in a.orders && q.id == p.id && q.owner == p.owner && MayBecome(q, p.status);
      assert o.owner.Session? ==> MayEndAs(q.status, o.status);
    }
  }

  lemma {:induction false} RunEnds(w: World, steps: seq<Step>)
    requires WorldOk(w) && Runs(w, steps)
    ensures OrdersEnd(w.db, After(w, steps).db)
    decreases |steps|
  {
    if steps == [] {
      forall o | o in w.db.orders ensures Ended(w.db.orders, o) {
        assert MayEndAs(o.status, o.status);
      }
    } else {
      assert w.db in w.past;
      StepKeeps(w, steps[0]);
      OrdersOnlyMove(w.db, steps[0]);
      RunEnds(Next(w, steps[0]), steps[1..]);
      MoveThenEnd(w.db, Next(w, steps[0]).db, After(w, steps).db);
    }
  }

  /**
   In any interleaving a table's order, once ready, stays ready or served for as long as its row exists; one
   that was rejected or cancelled stays so, and none goes back before the stage it had reached, except from
   served to ready.
   */
  lemma ReadyForGood(steps: seq<Step>, more: seq<Step>, before: Order, after: Order)
    requires Runs(START, steps) && Runs(After(START, steps), more)
    requires before in After(START, steps).db.orders && after in After(After(START, steps), more).db.orders
    requires before.id == after.id && before.owner.Session?
    ensures MayEndAs(before.status, after.status)
  {
    StartOk();
    RunsKeep(START, steps);
    var w := After(START, steps);
    RunEnds(w, more);
    EndOf(w.db, After(w, more).db, before, after);
  }

  lemma EndOf(a: Db, b: Db, before: Order, after: Order)
    requires Inv(a) && OrdersEnd(a, b) && before in a.orders && after in b.orders
    requires before.id == after.id && before.owner.Session?
    ensures MayEndAs(before.status, after.status)
  {
    assert Ended(a.orders, after);
    var p :| p in a.orders && p.id == after.id && p.owner == after.owner && (after.owner.Session? ==> MayEndAs(p.status, after.status));
    var i :| 0 <= i < |a.orders| && a.orders[i] == p;
    var j :| 0 <= j < |a.orders| && a.orders[j] == before;
  }
}
