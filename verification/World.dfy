/**
 The whole system as a machine. One step is one transaction or one conditional update; what a request
 read earlier travels inside the step as a snapshot of any earlier state, so every sequence of enabled
 steps is an interleaving of requests, and every interleaving is such a sequence.
 */
module World {
  import opened Billing
  import C = Coupons
  import Counter = CounterSales
  import DataReset
  import O = Orders
  import P = Payments
  import opened Schema
  import T = TableSessions
  import TC = TableCoupons
  import opened Wrappers

  /** The four separate reads of an automatic settlement. */
  datatype Reading = Reading(session: Db, orders: Db, payments: Db, unserved: Db)

  /** A redemption that a committed reversal still has to cancel. */
  datatype Due = Due(session: Id, code: Option<string>)

  datatype SessionOp =
    | OpenTable(table: Id, plan: Option<bool>)
    | CloseTable(session: Id, force: bool, seen: Db)
    | AutoSettle(session: Id, reading: Reading)

  datatype FloorOp =
    | SetEnabled(table: Id, enabled: bool)
    | AddTable
    | LockPayments(table: Id, locked: bool)
    | SetSettings(settings: Settings)
    | CallStaff(session: Id)
    | AnswerCall(call: Id, from: set<CallStatus>, to: CallStatus)

  datatype OrderOp =
    | CreateOrder(session: Id, key: string, lines: seq<O.OrderLine>, at: int)
    | AdvanceOrder(order: Id, move: O.Move)
    | CancelOrder(order: Id, items: seq<Id>)

  datatype PaymentOp =
    | PayAmount(session: Id, means: P.PaymentMethod, amount: Option<int>, tendered: Option<int>, text: KeyText, at: int)
    | PayItems(session: Id, means: P.PaymentMethod, wanted: seq<P.Wanted>, tendered: Option<int>, text: KeyText, at: int)
    | GiveDiscount(session: Id, discount: int, text: KeyText, at: int)
    | ReversePayment(payment: Id, seen: Db, at: int)

  datatype CouponOp =
    | DropRedemption(due: Due)
    | ApplyCoupon(session: Id, code: string, target: Option<Id>, key: string, at: int)
    | IssueCoupons(count: nat, benefit: Benefit, expiresAt: Option<int>)
    | WithdrawCoupons(codes: set<string>)

  datatype SaleOp =
    | ConfirmSale(request: Counter.Request)
    | CancelSale(sale: Id, at: int)

  datatype Step =
    | OnSession(session: SessionOp)
    | OnFloor(floor: FloorOp)
    | OnOrder(order: OrderOp)
    | OnPayment(payment: PaymentOp)
    | OnCoupon(coupon: CouponOp)
    | OnSale(sale: SaleOp)
    | ResetData(scopes: set<DataReset.Scope>)

  function Settlement(session: Id, r: Reading): T.Settlement
    requires session in r.session.sessions
  {
    T.Decide(r.session.sessions[session], BillOf(r.orders, Session(session)).totalAmount,
             BillOf(r.payments, Session(session)).paidAmount, T.UnservedCount(r.unserved.orders, session))
  }

  /** A reversal from the snapshot it was begun on. */
  function AfterReversal(db: Db, payment: Id, seen: Db, at: int): Db {
    match P.BeginReversal(seen, payment, true)
    case Ok(t) => P.RecordReversal(db, P.Reverse(db, t, at))
    case Err(_) => db
  }

  function CommitSession(db: Db, op: SessionOp): Db {
    match op
    case OpenTable(table, plan) => T.StateAfter(db, T.OpenTable(db, table, plan))
    case CloseTable(session, force, seen) =>
      if session in seen.sessions then T.StateAfter(db, T.CloseTable(db, session, seen.sessions[session].table, force)) else db
    case AutoSettle(session, r) =>
      if session in r.session.sessions then
        T.CarryOut(db, session, r.session.sessions[session].table, Settlement(session, r))
      else db
  }

  function CommitFloor(db: Db, op: FloorOp): Db {
    match op
    case SetEnabled(table, enabled) => T.SetEnabled(db, table, enabled)
    case AddTable => T.AddTable(db)
    case LockPayments(table, locked) => T.LockPayments(db, table, locked)
    case SetSettings(settings) => db.(settings := settings)
    case CallStaff(session) => T.CallStaff(db, session)
    case AnswerCall(call, from, to) => T.AnswerCall(db, call, from, to)
  }

  function CommitOrder(db: Db, op: OrderOp): Db {
    match op
    case CreateOrder(session, key, lines, at) => O.RecordOrder(db, O.CreateOrder(db, session, key, lines, at))
    case AdvanceOrder(order, move) => O.Advance(db, order, move)
    case CancelOrder(order, items) => O.AfterCancel(db, order, items)
  }

  function CommitPayment(db: Db, op: PaymentOp): Db {
    match op
    case PayAmount(session, means, amount, tendered, text, at) =>
      P.Record(db, P.PayAmount(db, session, means, amount, tendered, text, at))
    case PayItems(session, means, wanted, tendered, text, at) =>
      P.Record(db, P.PayItems(db, session, means, wanted, tendered, text, at))
    case GiveDiscount(session, discount, text, at) => P.Record(db, P.GiveDiscount(db, session, discount, text, at))
    case ReversePayment(payment, seen, at) => AfterReversal(db, payment, seen, at)
  }

  function CommitCoupon(db: Db, op: CouponOp): Db {
    match op
    case DropRedemption(due) => TC.DropRedemption(db, due.session, due.code)
    case ApplyCoupon(session, code, target, key, at) => TC.AfterApply(db, session, code, target, key, at)
    case IssueCoupons(count, benefit, expiresAt) => C.AfterIssue(db, count, benefit, expiresAt)
    case WithdrawCoupons(codes) => C.Withdraw(db, codes)
  }

  function CommitSale(db: Db, op: SaleOp): Db {
    match op
    case ConfirmSale(request) => if Counter.ValidLines(request.lines) then Counter.AfterConfirm(db, request) else db
    case CancelSale(sale, at) => Counter.AfterCancelSale(db, sale, true, at)
  }

  /** The state after a step; a transaction that fails leaves it as it was. */
  function Commit(db: Db, step: Step): Db {
    match step
    case OnSession(op) => CommitSession(db, op)
    case OnFloor(op) => CommitFloor(db, op)
    case OnOrder(op) => CommitOrder(db, op)
    case OnPayment(op) => CommitPayment(db, op)
    case OnCoupon(op) => CommitCoupon(db, op)
    case OnSale(op) => CommitSale(db, op)
    case ResetData(scopes) => DataReset.Reset(db, scopes)
  }

  /** A reversal that ended well, for a coupon discount, leaves a redemption to cancel; cancelling it settles that. */
  function DueAfter(db: Db, due: multiset<Due>, step: Step): multiset<Due> {
    match step
    case OnPayment(ReversePayment(payment, seen, at)) =>
      var t := P.BeginReversal(seen, payment, true);
      if t.Ok? && !P.Reverse(db, t.value, at).Failed? && t.value.original.kind == Discount
         && t.value.original.methodCode == COUPON_DISCOUNT_METHOD
      then due + multiset{Due(t.value.original.owner.id, t.value.original.coupon)} else due
    case OnCoupon(DropRedemption(d)) => due - multiset{d}
    case _ => due
  }

  // ---- runs ----

  /** `past` holds every state so far, the current one last. */
  datatype World = World(db: Db, due: multiset<Due>, past: seq<Db>)

  const START: World := World(EMPTY, multiset{}, [EMPTY])

  function Next(w: World, step: Step): World {
    var db := Commit(w.db, step);
    World(db, DueAfter(w.db, w.due, step), w.past + [db])
  }

  /** Snapshots come from the past; the rest is what routes and menu let through. */
  ghost predicate Enabled(w: World, step: Step) {
    match step
    case OnSession(CloseTable(_, _, seen)) => seen in w.past
    case OnSession(AutoSettle(_, r)) =>
      r.session in w.past && r.orders in w.past && r.payments in w.past && r.unserved in w.past
    case OnOrder(CreateOrder(_, _, lines, _)) => lines != [] ==> Counter.ValidLines(lines)
    case OnPayment(ReversePayment(_, seen, _)) => seen in w.past
    case OnPayment(GiveDiscount(_, discount, _, _)) => discount > 0
    case OnCoupon(DropRedemption(due)) => due in w.due
    case OnSale(ConfirmSale(request)) => Counter.ValidLines(request.lines)
    case ResetData(scopes) => DataReset.Closed(scopes)
    case _ => true
  }

  ghost predicate Runs(w: World, steps: seq<Step>)
    decreases |steps|
  {
    steps == [] || (Enabled(w, steps[0]) && Runs(Next(w, steps[0]), steps[1..]))
  }

  function After(w: World, steps: seq<Step>): World
    decreases |steps|
  {
    if steps == [] then w else After(Next(w, steps[0]), steps[1..])
  }

  // ---- what is never undone ----

  /** `o` grew out of an order of `orders`: same owner, lines and prices, and once cancelled always cancelled. */
  ghost predicate Descends(orders: seq<Order>, o: Order) {
    exists p | p in orders :: p.id == o.id && O.SameOrder(p, o) && (p.status == Cancelled ==> o.status == Cancelled)
  }

  ghost predicate SessionContinues(a: map<Id, TableSession>, s: Id, now: TableSession) {
    && s in a && now.table == a[s].table
    && (!IsLive(a[s]) ==> now.status == a[s].status)
  }

  ghost predicate SaleContinues(sales: seq<CounterSale>, s: CounterSale) {
    exists t | t in sales :: s == t.(status := s.status) && (t.status == SaleCancelled ==> s.status == SaleCancelled)
  }

  /**
   What may lie between an earlier and a later state: ids are not reused, payment rows are never
   edited, an ended session stays ended, orders keep their lines, cancelled stays cancelled.
   */
  ghost predicate Later(a: Db, b: Db) {
    && a.next <= b.next
    && (forall p | p in b.payments && p.id < a.next :: p in a.payments)
    && (forall s | s in b.sessions && s < a.next :: SessionContinues(a.sessions, s, b.sessions[s]))
    && (forall o | o in b.orders && o.id < a.next :: Descends(a.orders, o))
    && (forall s | s in b.sales && s.id < a.next :: SaleContinues(a.sales, s))
  }

  lemma LaterTransitive(a: Db, b: Db, c: Db)
    requires Later(a, b) && Later(b, c)
    ensures Later(a, c)
  {
    forall o | o in c.orders && o.id < a.next ensures Descends(a.orders, o) {
      var p :| p in b.orders && p.id == o.id && O.SameOrder(p, o) && (p.status == Cancelled ==> o.status == Cancelled);
      var q :| q in a.orders && q.id == p.id && O.SameOrder(q, p) && (q.status == Cancelled ==> p.status == Cancelled);
      assert O.SameOrder(q, o);
    }
    forall s | s in c.sales && s.id < a.next ensures SaleContinues(a.sales, s) {
      var t :| t in b.sales && s == t.(status := s.status) && (t.status == SaleCancelled ==> s.status == SaleCancelled);
      assert SaleContinues(a.sales, t);
    }
    forall s | s in c.sessions && s < a.next ensures SessionContinues(a.sessions, s, c.sessions[s]) {
      assert SessionContinues(b.sessions, s, c.sessions[s]);
      assert SessionContinues(a.sessions, s, b.sessions[s]);
    }
  }

  lemma SameRowsContinue(a: Db, b: Db)
    requires b.orders == a.orders
    ensures forall o | o in b.orders :: Descends(a.orders, o)
    ensures b.sales == a.sales ==> forall s | s in b.sales :: SaleContinues(a.sales, s)
  {
    forall o | o in b.orders ensures Descends(a.orders, o) {
      assert O.SameOrder(o, o);
    }
    forall s | s in b.sales && b.sales == a.sales ensures SaleContinues(a.sales, s) {
      assert s == s.(status := s.status);
    }
  }

  lemma LaterRefl(a: Db)
    ensures Later(a, a)
  {
    SameRowsContinue(a, a);
  }
}
