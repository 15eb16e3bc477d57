/** The results that hold in every state any interleaving of requests can reach. */
module Theorems {
  import opened Billing
  import Counter = CounterSales
  import DataReset
  import opened Invariants
  import opened Ledger
  import O = Orders
  import P = Payments
  import opened PaymentLaws
  import SaleLaws
  import opened Schema
  import opened Steps
  import opened Sums
  import T = TableSessions
  import TC = TableCoupons
  import opened World
  import opened Wrappers

  lemma Reached(steps: seq<Step>)
    requires Runs(START, steps)
    ensures WorldOk(After(START, steps)) && Inv(After(START, steps).db)
  {
    StartOk();
    RunsKeep(START, steps);
  }

  // ---- the ledger ----

  /**
   Every charge or discount has at most one reversal, of the same owner and amount; no reversal is
   reversed; and each bill figure is the plain sum over unreversed rows, never negative.
   */
  lemma LedgerAlways(steps: seq<Step>, owner: Owner)
    requires Runs(START, steps)
    ensures var rows := After(START, steps).db.payments;
            && (forall r | r in rows && !IsOriginal(r) :: NotYetReversed(rows, r.id) && exists o | o in rows :: Reverses(r, o))
            && (forall r, s | r in rows && s in rows && r.reverses.Some? && r.reverses == s.reverses :: r == s)
    ensures var db := After(START, steps).db;
            && BillOf(db, owner).chargedAmount == Sum(db.payments, StandingCharge(db.payments, owner)) >= 0
            && BillOf(db, owner).discountAmount == Sum(db.payments, StandingDiscount(db.payments, owner)) >= 0
            && LedgerOf(db, owner).couponDiscountAmount == Sum(db.payments, StandingCoupon(db.payments, owner)) >= 0
            && LedgerOf(db, owner).netChargedAmount == BillOf(db, owner).chargedAmount
            && LedgerOf(db, owner).remainingAmount == BillOf(db, owner).remainingAmount
  {
    Reached(steps);
    var db := After(START, steps).db;
    AtMostOneReversal(db.payments);
    FoldsAreStanding(db.payments, owner);
    AxesPartition(db, owner);
  }

  /** Rows are only ever added or reset away: a row of an earlier state that still exists is unchanged, also by its key. */
  lemma RowsNeverEdited(steps: seq<Step>, more: seq<Step>, p: Payment, q: Payment)
    requires Runs(START, steps) && Runs(After(START, steps), more)
    requires p in After(START, steps).db.payments && q in After(After(START, steps), more).db.payments && p.id == q.id
    ensures p == q
  {
    Reached(steps);
    var w := After(START, steps);
    RunsKeep(w, more);
    SameRow(w.db.payments, p, q);
  }

  /** Every item is covered by payments between nothing and its quantity. */
  lemma ItemsAlwaysCovered(steps: seq<Step>, o: Order, item: Item)
    requires Runs(START, steps) && o in After(START, steps).db.orders && item in o.items
    ensures 0 <= PaidQuantity(After(START, steps).db.payments, item.id) <= item.quantity
  {
    Reached(steps);
  }

  // ---- nothing is collected beyond what is owed ----

  predicate TakesOrdersOff(step: Step) {
    match step
    case OnOrder(CancelOrder(_, _)) => true
    case OnOrder(AdvanceOrder(_, move)) => move == O.Reject
    case _ => false
  }

  ghost predicate NoOvershoot(before: Db, after: Db, owner: Owner) {
    Remaining(after, owner) >= Min(Remaining(before, owner), 0)
  }

  lemma SessionOvershoot(db: Db, op: SessionOp, owner: Owner)
    ensures NoOvershoot(db, CommitSession(db, op), owner)
  {
  }

  lemma FloorOvershoot(db: Db, op: FloorOp, owner: Owner)
    ensures NoOvershoot(db, CommitFloor(db, op), owner)
  {
  }

  lemma OrderOvershoot(w: World, op: OrderOp, owner: Owner)
    requires Inv(w.db) && Enabled(w, OnOrder(op)) && !TakesOrdersOff(OnOrder(op))
    ensures NoOvershoot(w.db, CommitOrder(w.db, op), owner)
  {
    match op {
      case CreateOrder(session, key, lines, at) =>
        if O.CreateOrder(w.db, session, key, lines, at).Ok? {
          var o := O.TableOrderRow(w.db, session, key, lines, at);
          NewOrderAdds(w.db, o, lines, owner);
        }
      case AdvanceOrder(order, move) =>
        AdvanceTotal(w.db.orders, order, move, owner);
    }
  }

  lemma NewOrderAdds(db: Db, o: Order, lines: seq<O.OrderLine>, owner: Owner)
    requires Counter.ValidLines(lines) && o.items == O.TableItems(lines, db.next + 1)
    ensures OrderTotal(db.orders + [o], owner) >= OrderTotal(db.orders, owner)
  {
    SumAppend(db.orders, o, AmountFrom(owner));
    forall item | item in o.items ensures LiveLine(item) >= 0 {
      var i :| 0 <= i < |o.items| && o.items[i] == item;
      Counter.LineTotalBounds(lines[i]);
    }
    SumNonneg(o.items, LiveLine);
  }

  lemma AdvanceTotal(orders: seq<Order>, order: Id, m: O.Move, owner: Owner)
    requires m != O.Reject
    ensures OrderTotal(O.SetStatus(orders, order, {O.From(m)}, O.To(m)), owner) == OrderTotal(orders, owner)
  {
    var after := O.SetStatus(orders, order, {O.From(m)}, O.To(m));
    SumPointwise(after, orders, AmountFrom(owner), AmountFrom(owner));
  }

  lemma RecordOvershoot(db: Db, session: Id, r: P.Outcome, owner: Owner)
    requires r.Ok? ==> && IsOriginal(r.value) && r.value.owner == Session(session)
                       && r.value.amount <= Max(Remaining(db, Session(session)), 0)
    ensures NoOvershoot(db, P.Record(db, r), owner)
  {
    if r.Ok? {
      PaidAppend(db.payments, r.value, owner);
    }
  }

  lemma ReversalOvershoot(db: Db, payment: Id, seen: Db, at: int, owner: Owner)
    requires Inv(db) && Inv(seen) && Later(seen, db)
    ensures NoOvershoot(db, AfterReversal(db, payment, seen, at), owner)
  {
    var t := P.BeginReversal(seen, payment, true);
    if t.Ok? && P.Reverse(db, t.value, at).Inserted? {
      ReversalIsSound(db, payment, seen, at);
      var row := P.Reverse(db, t.value, at).row;
      PaidAppend(db.payments, row, owner);
      LedgerRows(db.payments);
    }
  }

  lemma PaymentOvershoot(w: World, op: PaymentOp, owner: Owner)
    requires WorldOk(w) && Inv(w.db) && Enabled(w, OnPayment(op))
    ensures NoOvershoot(w.db, CommitPayment(w.db, op), owner)
  {
    match op {
      case PayAmount(session, means, amount, tendered, text, at) =>
        var r := P.PayAmount(w.db, session, means, amount, tendered, text, at);
        if r.Ok? {
          AmountWithin(w.db, session, means, amount, tendered, text, at);
        }
        RecordOvershoot(w.db, session, r, owner);
      case PayItems(session, means, wanted, tendered, text, at) =>
        var r := P.PayItems(w.db, session, means, wanted, tendered, text, at);
        if r.Ok? {
          ItemsWithin(w.db, session, means, wanted, tendered, text, at);
        }
        RecordOvershoot(w.db, session, r, owner);
      case GiveDiscount(session, discount, text, at) =>
        var r := P.GiveDiscount(w.db, session, discount, text, at);
        if r.Ok? {
          DiscountWithin(w.db, session, discount, text, at);
        }
        RecordOvershoot(w.db, session, r, owner);
      case ReversePayment(payment, seen, at) =>
        ReversalOvershoot(w.db, payment, seen, at, owner);
    }
  }

  lemma CouponOvershoot(db: Db, op: CouponOp, owner: Owner)
    requires Inv(db)
    ensures NoOvershoot(db, CommitCoupon(db, op), owner)
  {
    match op {
      case ApplyCoupon(session, code, target, key, at) => ApplyOvershoot(db, session, code, target, key, at, owner);
      case _ =>
    }
  }

  lemma ApplyOvershoot(db: Db, session: Id, code: string, target: Option<Id>, key: string, at: int, owner: Owner)
    requires Inv(db)
    ensures NoOvershoot(db, TC.AfterApply(db, session, code, target, key, at), owner)
  {
    if TC.ApplyCoupon(db, session, code, target, key, at).Ok? {
      LinesNonneg(db.orders);
      TC.ResolvedIsSpread(db, session, code, target, at);
      var preview := TC.Resolve(db, session, code, target, at).value;
      var rows := TC.Spread(TC.BillItems(db.orders, Session(session)), preview).value;
      PaidAppend(db.payments, TC.DiscountRow(db, session, code, preview, key, at, rows), owner);
    }
  }

  lemma SaleOvershoot(db: Db, op: SaleOp, owner: Owner)
    requires Inv(db)
    ensures NoOvershoot(db, CommitSale(db, op), owner)
  {
    match op {
      case ConfirmSale(request) =>
        if Counter.ValidLines(request.lines) && Counter.Confirm(db, request).Ok? {
          SaleLaws.ConfirmSettles(db, request, owner);
        }
      case CancelSale(sale, at) =>
        if Counter.CancelSale(db, sale, true, at).Ok? {
          SaleLaws.CancelZeroes(db, sale, true, at, owner);
          AxesPartition(Counter.AfterCancelSale(db, sale, true, at), owner);
        }
    }
  }

  /**
   Only cancelling or rejecting an order can push a bill below zero: every other step leaves a bill at
   least where it was, or at zero if it was positive.
   */
  lemma OnlyCancellingOvershoots(w: World, step: Step, owner: Owner)
    requires WorldOk(w) && Inv(w.db) && Enabled(w, step) && !TakesOrdersOff(step)
    ensures Remaining(Commit(w.db, step), owner) >= Min(Remaining(w.db, owner), 0)
  {
    match step {
      case OnSession(op) => SessionOvershoot(w.db, op, owner);
      case OnFloor(op) => FloorOvershoot(w.db, op, owner);
      case OnOrder(op) => OrderOvershoot(w, op, owner);
      case OnPayment(op) => PaymentOvershoot(w, op, owner);
      case OnCoupon(op) => CouponOvershoot(w.db, op, owner);
      case OnSale(op) => SaleOvershoot(w.db, op, owner);
      case ResetData(scopes) => DataReset.ResetRemaining(w.db, scopes, owner);
    }
  }

  /** A run without cancelled or rejected orders never collects more than it billed. */
  lemma {:induction false} NeverOverpaid(w: World, steps: seq<Step>, owner: Owner)
    requires WorldOk(w) && Runs(w, steps) && Remaining(w.db, owner) >= 0
    requires forall i | 0 <= i < |steps| :: !TakesOrdersOff(steps[i])
    ensures Remaining(After(w, steps).db, owner) >= 0
    decreases |steps|
  {
    assert w.db in w.past;
    if steps != [] {
      OnlyCancellingOvershoots(w, steps[0], owner);
      StepKeeps(w, steps[0]);
      NeverOverpaid(Next(w, steps[0]), steps[1..], owner);
    }
  }

  // ---- tables ----

  /** A table is open iff one session is live on it and active, settling iff one and paid up, else it has none. */
  lemma TablesAlwaysAgree(steps: seq<Step>, table: Id)
    requires Runs(START, steps) && table in After(START, steps).db.tables
    ensures var db := After(START, steps).db;
            && (db.tables[table].status == Open <==> exists s: Id :: T.OnlyLive(db, table, s, Active))
            && (db.tables[table].status == Settling <==> exists s: Id :: T.OnlyLive(db, table, s, PaidPendingService))
            && (db.tables[table].status in {Available, Disabled} <==> T.LiveSessions(db, table) == {})
  {
    Reached(steps);
    T.TableStatusExactly(After(START, steps).db, table);
  }

  /** A closed session stays closed for as long as its row exists. */
  lemma ClosedForGood(steps: seq<Step>, more: seq<Step>, session: Id)
    requires Runs(START, steps) && Runs(After(START, steps), more)
    requires session in After(START, steps).db.sessions && After(START, steps).db.sessions[session].status == Closed
    requires session in After(After(START, steps), more).db.sessions
    ensures After(After(START, steps), more).db.sessions[session].status == Closed
  {
    Reached(steps);
    var w := After(START, steps);
    RunsKeep(w, more);
    assert SessionContinues(w.db.sessions, session, After(w, more).db.sessions[session]);
  }

  /** A cancelled order stays cancelled, with the lines and owner it had, for as long as its row exists. */
  lemma CancelledForGood(steps: seq<Step>, more: seq<Step>, before: Order, after: Order)
    requires Runs(START, steps) && Runs(After(START, steps), more)
    requires before in After(START, steps).db.orders && after in After(After(START, steps), more).db.orders
    requires before.id == after.id
    ensures O.SameOrder(before, after) && (before.status == Cancelled ==> after.status == Cancelled)
  {
    Reached(steps);
    var w := After(START, steps);
    RunsKeep(w, more);
    OrderGoesOn(w.db, After(w, more).db, before, after);
  }

  lemma OrderGoesOn(a: Db, b: Db, before: Order, after: Order)
    requires O.OrdersDistinct(a.orders) && before.id < a.next && Later(a, b)
    requires before in a.orders && after in b.orders && before.id == after.id
    ensures O.SameOrder(before, after) && (before.status == Cancelled ==> after.status == Cancelled)
  {
    assert Descends(a.orders, after);
    var p :| p in a.orders && p.id == after.id && O.SameOrder(p, after) && (p.status == Cancelled ==> after.status == Cancelled);
    SameOrderRow(a.orders, p, before);
  }

  lemma SameOrderRow(orders: seq<Order>, p: Order, q: Order)
    requires O.OrdersDistinct(orders) && p in orders && q in orders && p.id == q.id
    ensures p == q
  {
    var i :| 0 <= i < |orders| && orders[i] == p;
    var j :| 0 <= j < |orders| && orders[j] == q;
  }

  /** However stale the snapshot it started from, a closing without force ends a session only if nothing is open in that very state. */
  lemma CloseIsGuarded(w: World, session: Id, seen: Db)
    requires WorldOk(w) && Enabled(w, OnSession(CloseTable(session, false, seen)))
    requires T.LiveSession(w.db, session) && !T.LiveSession(CommitSession(w.db, CloseTable(session, false, seen)), session)
    ensures T.ReadyToClose(w.db, session)
  {
    T.CloseGuard(w.db, session, seen.sessions[session].table);
  }

  /** Placing an order raises the bill by its value and touches no session. */
  lemma OrderRaisesBill(db: Db, session: Id, key: string, lines: seq<O.OrderLine>, at: int)
    requires Counter.ValidLines(lines) && session in db.sessions && !O.OrderKeyTaken(db.orders, TableOrder(session, key))
    ensures var after := CommitOrder(db, CreateOrder(session, key, lines, at));
            && after.sessions == db.sessions && after.payments == db.payments
            && Remaining(after, Session(session)) == Remaining(db, Session(session)) + Counter.Subtotal(lines)
  {
    var o := O.TableOrderRow(db, session, key, lines, at);
    SumAppend(db.orders, o, AmountFrom(Session(session)));
    TableItemsTotal(lines, db.next + 1);
  }

  /** The settlement ends a live session exactly if what it read tells it to close. */
  lemma SettlementCloses(db: Db, session: Id, r: Reading)
    requires T.LiveSession(db, session)
    ensures !T.LiveSession(CommitSession(db, AutoSettle(session, r)), session)
        <==> session in r.session.sessions && Settlement(session, r) == T.Close
    ensures var after := CommitSession(db, AutoSettle(session, r)); after.orders == db.orders && after.payments == db.payments
  {
  }

  /** What a settlement that means to close has read: a bill paid exactly, and nothing unserved. */
  lemma ClosingReads(session: Id, r: Reading)
    requires session in r.session.sessions && Settlement(session, r) == T.Close
    ensures OrderTotal(r.orders.orders, Session(session)) == Paid(r.payments.payments, Session(session))
    ensures T.UnservedCount(r.unserved.orders, session) == 0
  {
    AxesPartition(r.payments, Session(session));
  }

  /** An order of the session that waits for service now and did not when `seen` was read. */
  ghost predicate Appeared(seen: Db, db: Db, session: Id, o: Order) {
    && o in db.orders && o.owner == Session(session) && T.IsActive(o)
    && forall p | p in seen.orders && p.id == o.id :: !(p.owner == Session(session) && T.IsActive(p))
  }

  lemma UnservedAppeared(seen: Db, db: Db, session: Id)
    requires T.UnservedCount(seen.orders, session) == 0
    ensures T.UnservedCount(db.orders, session) == 0 <==> forall o: Order :: !Appeared(seen, db, session, o)
  {
    var unserved := Filter(db.orders, T.UnservedOf(session));
    forall p | p in seen.orders ensures !T.UnservedOf(session)(p) {
      FilterMember(seen.orders, T.UnservedOf(session), p);
    }
    if unserved != [] {
      FilterMember(db.orders, T.UnservedOf(session), unserved[0]);
      assert Appeared(seen, db, session, unserved[0]);
    } else {
      forall o: Order ensures !Appeared(seen, db, session, o) {
        FilterMember(db.orders, T.UnservedOf(session), o);
      }
    }
  }

  /**
   The automatic settlement, its four reads taken in any earlier states: it ends a live session exactly
   if they tell it to close. It then leaves nothing owed exactly if the orders and the payments moved by
   the same amount since they were read, and nothing unserved exactly if no order has come to wait for
   service since the last read.
   */
  lemma StaleSettlementExactly(db: Db, session: Id, r: Reading)
    requires T.LiveSession(db, session)
    ensures var after := CommitSession(db, AutoSettle(session, r));
            && (!T.LiveSession(after, session) <==> session in r.session.sessions && Settlement(session, r) == T.Close)
            && (!T.LiveSession(after, session) ==>
                  && (Remaining(after, Session(session)) == 0
                      <==> OrderTotal(db.orders, Session(session)) - OrderTotal(r.orders.orders, Session(session))
                           == Paid(db.payments, Session(session)) - Paid(r.payments.payments, Session(session)))
                  && (T.UnservedCount(after.orders, session) == 0
                      <==> forall o: Order :: !Appeared(r.unserved, db, session, o)))
  {
    SettlementCloses(db, session, r);
    if session in r.session.sessions && Settlement(session, r) == T.Close {
      ClosingReads(session, r);
      UnservedAppeared(r.unserved, db, session);
    }
  }

  lemma ClosesOver(db: Db, session: Id, key: string, lines: seq<O.OrderLine>, at: int, r: Reading)
    requires T.LiveSession(db, session) && session in r.session.sessions && Settlement(session, r) == T.Close
    requires Counter.ValidLines(lines) && !O.OrderKeyTaken(db.orders, TableOrder(session, key))
    ensures var after := CommitSession(CommitOrder(db, CreateOrder(session, key, lines, at)), AutoSettle(session, r));
            && !T.LiveSession(after, session)
            && Remaining(after, Session(session)) == Remaining(db, Session(session)) + Counter.Subtotal(lines)
            && T.UnservedCount(after.orders, session) == T.UnservedCount(db.orders, session) + 1
  {
    OrderRaisesBill(db, session, key, lines, at);
    SettlementCloses(CommitOrder(db, CreateOrder(session, key, lines, at)), session, r);
    FilterConcat(db.orders, [O.TableOrderRow(db, session, key, lines, at)], T.UnservedOf(session));
  }

  /**
   An unforced closing by staff is guarded, this one is not: whenever the reads tell it to close, an order
   placed before it commits is closed over, unserved and its whole value on top of what is left owed.
   */
  lemma StaleSettlementClosesOverAnOrder(w: World, session: Id, key: string, lines: seq<O.OrderLine>, at: int, r: Reading)
    requires T.LiveSession(w.db, session) && Enabled(w, OnSession(AutoSettle(session, r)))
    requires session in r.session.sessions && Settlement(session, r) == T.Close
    requires Counter.ValidLines(lines) && !O.OrderKeyTaken(w.db.orders, TableOrder(session, key))
    ensures var order := CreateOrder(session, key, lines, at);
            var after := CommitSession(CommitOrder(w.db, order), AutoSettle(session, r));
            && Enabled(w, OnOrder(order)) && Enabled(Next(w, OnOrder(order)), OnSession(AutoSettle(session, r)))
            && !T.LiveSession(after, session)
            && Remaining(after, Session(session)) == Remaining(w.db, Session(session)) + Counter.Subtotal(lines)
            && T.UnservedCount(after.orders, session) == T.UnservedCount(w.db.orders, session) + 1
  {
    ClosesOver(w.db, session, key, lines, at, r);
  }

  lemma TableItemsTotal(lines: seq<O.OrderLine>, base: Id)
    ensures Sum(O.TableItems(lines, base), LiveLine) == Counter.Subtotal(lines)
  {
    forall i | 0 <= i < |lines| ensures LiveLine(O.TableItems(lines, base)[i]) == O.LineTotal(lines[i]) {
      SaleLaws.ItemKeepsPrice(lines[i], base + i);
    }
    SumPointwise(O.TableItems(lines, base), lines, LiveLine, O.LineTotal);
  }

  // ---- counter sales ----

  function LostLine(item: Item): int {
    if item.cancelled then Line(item) else 0
  }

  /** What an order placed but not provided was worth: everything if it was cancelled or rejected, else its cancelled lines. */
  function LostAmount(o: Order): int {
    if IsCounted(o) then Sum(o.items, LostLine) else FullAmount(o)
  }

  function LostFrom(owner: Owner): Order -> int {
    (o: Order) => if o.owner == owner then LostAmount(o) else 0
  }

  function LostTotal(orders: seq<Order>, owner: Owner): int {
    Sum(orders, LostFrom(owner))
  }

  lemma FullIsCountedPlusLost(orders: seq<Order>, owner: Owner)
    ensures FullTotal(orders, owner) == OrderTotal(orders, owner) + LostTotal(orders, owner)
  {
    forall o | o in orders ensures FullFrom(owner)(o) == AmountFrom(owner)(o) + LostFrom(owner)(o) {
      SumPlus(o.items, LiveLine, LostLine, Line);
    }
    SumPlus(orders, AmountFrom(owner), LostFrom(owner), FullFrom(owner));
  }

  lemma LostNonneg(orders: seq<Order>, owner: Owner)
    requires AllPriced(orders)
    ensures LostTotal(orders, owner) >= 0
  {
    LinesNonneg(orders);
    forall o | o in orders ensures LostFrom(owner)(o) >= 0 {
      SumNonneg(o.items, LostLine);
      SumNonneg(o.items, Line);
    }
    SumNonneg(orders, LostFrom(owner));
  }

  /**
   While a sale is completed, what is due back is exactly what was lost to rejected or cancelled orders
   and items; once it is cancelled every figure of its ledger is zero.
   */
  lemma SalesAlwaysSettled(steps: seq<Step>, s: CounterSale)
    requires Runs(START, steps) && s in After(START, steps).db.sales
    ensures var db := After(START, steps).db;
            var ledger := LedgerOf(db, Sale(s.id));
            if s.status == Completed then
              -ledger.remainingAmount == LostTotal(db.orders, Sale(s.id)) >= 0
            else
              && ledger.orderAmount == ledger.discountAmount == ledger.couponDiscountAmount == 0
              && ledger.netChargedAmount == ledger.remainingAmount == 0
  {
    Reached(steps);
    var db := After(START, steps).db;
    assert SaleOk(s, db.orders, db.payments);
    AxesPartition(db, Sale(s.id));
    if s.status == Completed {
      FullIsCountedPlusLost(db.orders, Sale(s.id));
      LostNonneg(db.orders, Sale(s.id));
    } else {
      FoldsAreStanding(db.payments, Sale(s.id));
      SumZero(db.payments, StandingCharge(db.payments, Sale(s.id)));
      SumZero(db.payments, StandingDiscount(db.payments, Sale(s.id)));
      SumZero(db.payments, StandingCoupon(db.payments, Sale(s.id)));
      SumZero(db.orders, AmountFrom(Sale(s.id)));
    }
  }

  /** No two sales ever carry the same number. */
  lemma SaleNumbersUnique(steps: seq<Step>, s: CounterSale, t: CounterSale)
    requires Runs(START, steps) && s in After(START, steps).db.sales && t in After(START, steps).db.sales
    requires s.saleNo == t.saleNo
    ensures s == t
  {
    Reached(steps);
    SameNumber(After(START, steps).db, s, t);
  }

  lemma SameNumber(db: Db, s: CounterSale, t: CounterSale)
    requires SalesOk(db.sales, db.orders, db.payments) && s in db.sales && t in db.sales && s.saleNo == t.saleNo
    ensures s == t
  {
    var i :| 0 <= i < |db.sales| && db.sales[i] == s;
    var j :| 0 <= j < |db.sales| && db.sales[j] == t;
  }

  // ---- coupons and orders ----

  /** A coupon is used iff it has a redemption, and never more than one. */
  lemma UsedAlwaysRedeemedOnce(steps: seq<Step>, code: string)
    requires Runs(START, steps)
    ensures var db := After(START, steps).db;
            && (code in db.coupons && db.coupons[code].status == Used <==> exists r | r in db.redemptions :: r.coupon == code)
            && forall r, s | r in db.redemptions && s in db.redemptions && r.coupon == s.coupon :: r == s
  {
    Reached(steps);
    var db := After(START, steps).db;
    forall r, s | r in db.redemptions && s in db.redemptions && r.coupon == s.coupon ensures r == s {
      DataReset.SameCoupon(db.redemptions, r, s);
    }
  }

  /** No order in work has lost all of its items. */
  lemma OrdersAlwaysHaveWork(steps: seq<Step>, o: Order)
    requires Runs(START, steps) && o in After(START, steps).db.orders && o.status in O.CANCELLABLE
    ensures exists item | item in o.items :: !item.cancelled
  {
    Reached(steps);
    var db := After(START, steps).db;
    var i :| 0 <= i < |db.orders| && db.orders[i] == o;
    assert O.HasWork(db.orders[i]);
    var k :| 0 <= k < |o.items| && !o.items[k].cancelled;
    assert o.items[k] in o.items;
  }
}
