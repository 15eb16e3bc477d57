/**
 Reversal keys that clients spell. The key of a reversal is text behind the session prefix, and so is
 every key a client sends (server/src/services/payment.ts:47-49 and 344). A reversal that finds a row
 under its key takes it for itself.
 */
module SpelledKeys {
  import opened Billing
  import opened CouponAgreement
  import Counter = CounterSales
  import CouponRuns
  import DataReset
  import opened Invariants
  import opened Ledger
  import P = Payments
  import opened PaymentLaws
  import SaleSteps
  import opened Schema
  import opened Steps
  import opened Sums
  import TC = TableCoupons
  import opened World
  import opened Wrappers

  // ---- a reversal under a session key spells what it reverses ----

  predicate KeyTrue(p: Payment) {
    p.key.Scoped? && !IsOriginal(p) ==> p.key.text.Reversal? && p.reverses == Some(p.key.text.payment)
  }

  ghost predicate KeysTrue(rows: seq<Payment>) {
    forall p | p in rows :: KeyTrue(p)
  }

  lemma RecordKeys(db: Db, session: Id, r: P.Outcome)
    requires KeysTrue(db.payments) && (r.Ok? ==> NewRow(db, session, r.value))
    ensures KeysTrue(P.Record(db, r).payments)
  {
  }

  lemma PaymentKeys(db: Db, op: PaymentOp)
    requires AllPriced(db.orders) && KeysTrue(db.payments)
    requires op.GiveDiscount? ==> op.discount > 0
    ensures KeysTrue(CommitPayment(db, op).payments)
  {
    match op {
      case PayAmount(session, means, amount, tendered, text, at) =>
        var r := P.PayAmount(db, session, means, amount, tendered, text, at);
        if r.Ok? {
          AmountWithin(db, session, means, amount, tendered, text, at);
        }
        RecordKeys(db, session, r);
      case PayItems(session, means, wanted, tendered, text, at) =>
        var r := P.PayItems(db, session, means, wanted, tendered, text, at);
        if r.Ok? {
          ItemsWithin(db, session, means, wanted, tendered, text, at);
        }
        RecordKeys(db, session, r);
      case GiveDiscount(session, discount, text, at) =>
        var r := P.GiveDiscount(db, session, discount, text, at);
        if r.Ok? {
          DiscountWithin(db, session, discount, text, at);
        }
        RecordKeys(db, session, r);
      case ReversePayment(payment, seen, at) =>
    }
  }

  lemma CouponKeys(db: Db, op: CouponOp)
    requires KeysTrue(db.payments)
    ensures KeysTrue(CommitCoupon(db, op).payments)
  {
  }

  lemma ConfirmKeys(db: Db, request: Counter.Request)
    requires KeysTrue(db.payments) && Counter.ValidLines(request.lines)
    ensures KeysTrue(Counter.AfterConfirm(db, request).payments)
  {
    if Counter.Confirm(db, request).Ok? {
      Counter.QuoteIsExact(db, request.lines, request.code, request.target, request.at);
    }
  }

  lemma RefundKeys(db: Db, sale: Id, at: int)
    requires KeysTrue(db.payments)
    ensures KeysTrue(Counter.AfterCancelSale(db, sale, true, at).payments)
  {
    SaleSteps.RefundsCopy(db, sale, at);
  }

  lemma SaleKeys(db: Db, op: SaleOp)
    requires KeysTrue(db.payments)
    ensures KeysTrue(CommitSale(db, op).payments)
  {
    match op {
      case ConfirmSale(request) =>
        if Counter.ValidLines(request.lines) {
          ConfirmKeys(db, request);
        }
      case CancelSale(sale, at) => RefundKeys(db, sale, at);
    }
  }

  lemma ResetKeys(db: Db, scopes: set<DataReset.Scope>)
    requires KeysTrue(db.payments)
    ensures KeysTrue(DataReset.Reset(db, scopes).payments)
  {
    ResetSubset(db, scopes);
  }

  lemma SessionPayments(db: Db, op: SessionOp)
    ensures CommitSession(db, op).payments == db.payments
  {
  }

  lemma FloorPayments(db: Db, op: FloorOp)
    ensures CommitFloor(db, op).payments == db.payments
  {
  }

  lemma OrderPayments(db: Db, op: OrderOp)
    ensures CommitOrder(db, op).payments == db.payments
  {
  }

  lemma StepKeys(db: Db, step: Step)
    requires AllPriced(db.orders) && KeysTrue(db.payments)
    requires step.OnPayment? && step.payment.GiveDiscount? ==> step.payment.discount > 0
    ensures KeysTrue(Commit(db, step).payments)
  {
    match step {
      case OnPayment(op) => PaymentKeys(db, op);
      case OnCoupon(op) => CouponKeys(db, op);
      case OnSale(op) => SaleKeys(db, op);
      case ResetData(scopes) => ResetKeys(db, scopes);
      case OnSession(op) => SessionPayments(db, op);
      case OnFloor(op) => FloorPayments(db, op);
      case OnOrder(op) => OrderPayments(db, op);
    }
  }

  lemma {:induction false} RunsKeys(w: World, steps: seq<Step>)
    requires WorldOk(w) && Runs(w, steps) && KeysTrue(w.db.payments)
    ensures KeysTrue(After(w, steps).db.payments) && WorldOk(After(w, steps))
    decreases |steps|
  {
    if steps != [] {
      assert w.db in w.past && Inv(w.db);
      StepKeys(w.db, steps[0]);
      StepKeeps(w, steps[0]);
      RunsKeys(Next(w, steps[0]), steps[1..]);
    }
  }

  // ---- exactly when a reversal takes its original back ----

  /** A charge or discount sits under the key the reversal would use. */
  ghost predicate Spelled(rows: seq<Payment>, t: P.Ticket) {
    exists p | p in rows :: IsOriginal(p) && p.key == P.ReversalKey(t)
  }

  lemma FoundReversal(db: Db, t: P.Ticket, row: Payment)
    requires IsLedger(db.payments) && KeysTrue(db.payments) && t.original.owner.Session?
    requires row in db.payments && row.key == P.ReversalKey(t)
    ensures Spelled(db.payments, t) <==> IsOriginal(row)
    ensures !IsOriginal(row) ==> !NotYetReversed(db.payments, t.original.id)
  {
    if p :| p in db.payments && IsOriginal(p) && p.key == P.ReversalKey(t) {
      SameRow(db.payments, p, row);
    }
  }

  lemma TakesBackExactly(db: Db, t: P.Ticket, at: int)
    requires IsLedger(db.payments) && KeysTrue(db.payments) && t.original.owner.Session? && IsOriginal(t.original)
    requires !P.Reverse(db, t, at).Failed?
    ensures Stands(P.RecordReversal(db, P.Reverse(db, t, at)).payments, t.original)
        <==> Spelled(db.payments, t) && Stands(db.payments, t.original)
  {
    P.FindByKeyExactly(db.payments, P.ReversalKey(t));
    var r := P.Reverse(db, t, at);
    if r.Replay? {
      FoundReversal(db, t, r.row);
    } else {
      assert r.row in db.payments + [r.row] && r.row.reverses == Some(t.original.id);
    }
  }

  /** A reversal that does not fail takes its original back, except on a spelled key; the redemption falls due either way. */
  ghost predicate ReversesUnlessSpelled(w: World, payment: Id, seen: Db, at: int, t: P.Ticket)
    requires t.original.owner.Session?
  {
    var reverse := ReversePayment(payment, seen, at);
    !P.Reverse(w.db, t, at).Failed? ==>
      && (Stands(CommitPayment(w.db, reverse).payments, t.original)
          <==> Spelled(w.db.payments, t) && Stands(w.db.payments, t.original))
      && DueAfter(w.db, w.due, OnPayment(reverse)) == w.due + DueFor(t.original)
  }

  lemma WorldReversal(w: World, payment: Id, seen: Db, at: int, t: P.Ticket)
    requires WorldOk(w) && KeysTrue(w.db.payments) && seen in w.past && P.BeginReversal(seen, payment, true) == Ok(t)
    ensures t.original.owner.Session? && ReversesUnlessSpelled(w, payment, seen, at, t)
  {
    TicketIsOriginal(w, payment, seen, t);
    if !P.Reverse(w.db, t, at).Failed? {
      TakesBackExactly(w.db, t, at);
      CouponRuns.DueAfterReversal(w.db, w.due, payment, seen, at, t);
    }
  }

  /**
   In every reachable state: a reversal that does not fail, on however stale a ticket, leaves its
   original unreversed exactly when a charge or discount sits under its key and nothing had reversed
   the original before. Either way a coupon discount's redemption becomes due.
   */
  lemma ReversalTakesBackExactly(steps: seq<Step>, payment: Id, seen: Db, at: int, t: P.Ticket)
    requires Runs(START, steps) && seen in After(START, steps).past
    requires P.BeginReversal(seen, payment, true) == Ok(t)
    ensures t.original.owner.Session? && ReversesUnlessSpelled(After(START, steps), payment, seen, at, t)
  {
    StartOk();
    RunsKeys(START, steps);
    WorldReversal(After(START, steps), payment, seen, at, t);
  }

  lemma TicketIsOriginal(w: World, payment: Id, seen: Db, t: P.Ticket)
    requires WorldOk(w) && seen in w.past && P.BeginReversal(seen, payment, true) == Ok(t)
    ensures IsLedger(w.db.payments) && forall p | p in w.db.payments :: p.id < w.db.next
    ensures t.original.owner.Session? && IsOriginal(t.original)
    ensures t.kind == Void || t.kind == Refund
  {
    assert w.db in w.past && Inv(w.db) && Inv(seen) && Later(seen, w.db);
    SnapshotRow(w.db, seen, payment);
  }

  // ---- what that does to the coupon ----

  /** The coupon rows agree: each discount is recorded, live while it stands; one per coupon, one live per owner. */
  ghost predicate RowsAgree(db: Db) {
    && DiscountsRecorded(db.payments, db.redemptions)
    && OneDiscountPerCoupon(db.payments)
    && OneLivePerOwner(db.redemptions)
  }

  /** A standing coupon discount is the only one of its owner that stands, and the owner's live redemption is its own. */
  lemma OnlyDiscount(db: Db, o: Payment)
    requires RowsAgree(db) && o in db.payments && IsCouponDiscount(o) && Stands(db.payments, o)
    ensures o.coupon.Some?
    ensures forall p | p in db.payments && IsCouponDiscount(p) && p.owner == o.owner && Stands(db.payments, p) :: p == o
    ensures forall r | r in db.redemptions && r.owner == o.owner && !r.cancelled :: r.coupon == o.coupon.value
  {
    assert Recorded(o, db.redemptions, true);
    var mine :| mine in db.redemptions && Matches(mine, o) && !mine.cancelled;
    forall p | p in db.payments && IsCouponDiscount(p) && p.owner == o.owner && Stands(db.payments, p) ensures p == o {
      assert Recorded(p, db.redemptions, true);
      var r :| r in db.redemptions && Matches(r, p) && !r.cancelled;
      assert r == mine;
    }
  }

  lemma NothingRedeemed(db: Db, o: Payment)
    requires RowsAgree(db) && o in db.payments && IsCouponDiscount(o) && Stands(db.payments, o) && o.owner.Session?
    ensures CouponAgreement.Redeemed(TC.DropRedemption(db, o.owner.id, o.coupon).redemptions, o.owner) == 0
  {
    OnlyDiscount(db, o);
    var after := TC.DropRedemption(db, o.owner.id, o.coupon).redemptions;
    forall r | r in after ensures LiveDiscount(o.owner)(r) == 0 {
      var i :| 0 <= i < |after| && after[i] == r;
      assert db.redemptions[i] in db.redemptions;
    }
    SumZero(after, LiveDiscount(o.owner));
  }

  /** The owner's net coupon discount with `o` reversed, or still standing. */
  lemma NetAfterReversal(db: Db, o: Payment, rows: seq<Payment>)
    requires IsLedger(db.payments) && RowsAgree(db)
    requires o in db.payments && IsCouponDiscount(o) && Stands(db.payments, o)
    requires IsLedger(rows) && o in rows
    requires forall p | p in rows && IsCouponDiscount(p) :: p in db.payments && (Stands(rows, p) ==> Stands(db.payments, p))
    ensures CouponDiscounted(PaymentsOf(rows, o.owner)) == if Stands(rows, o) then o.amount else 0
  {
    OnlyDiscount(db, o);
    FoldsAreStanding(rows, o.owner);
    LedgerRows(rows);
    var j :| 0 <= j < |rows| && rows[j] == o;
    forall i | 0 <= i < |rows| && i != j ensures StandingCoupon(rows, o.owner)(rows[i]) == 0 {
      assert rows[i] in rows;
    }
    SumSingle(rows, StandingCoupon(rows, o.owner), j);
  }

  lemma RowsAfterReversal(db: Db, t: P.Ticket, at: int)
    requires IsLedger(db.payments) && t.original in db.payments && IsOriginal(t.original) && t.original.owner.Session?
    requires forall p | p in db.payments :: p.id < db.next
    requires WellFormed(t.original) && (t.kind == Void || t.kind == Refund)
    ensures var rows := P.RecordReversal(db, P.Reverse(db, t, at)).payments;
            && IsLedger(rows)
            && forall p | p in rows && IsOriginal(p) :: p in db.payments && (Stands(rows, p) ==> Stands(db.payments, p))
  {
    var r := P.Reverse(db, t, at);
    if r.Inserted? {
      P.FindByKeyExactly(db.payments, P.ReversalKey(t));
      assert Reverses(r.row, t.original);
      LedgerAppend(db.payments, r.row);
    }
  }

  lemma AgreementAfterDrop(db: Db, t: P.Ticket, at: int)
    requires IsLedger(db.payments) && (forall p | p in db.payments :: p.id < db.next) && KeysTrue(db.payments) && RowsAgree(db)
    requires t.original in db.payments && IsCouponDiscount(t.original) && Stands(db.payments, t.original)
    requires t.original.owner.Session? && (t.kind == Void || t.kind == Refund) && !P.Reverse(db, t, at).Failed?
    ensures var o := t.original;
            CouponRuns.InAgreement(TC.DropRedemption(P.RecordReversal(db, P.Reverse(db, t, at)), o.owner.id, o.coupon), o.owner)
            <==> !Spelled(db.payments, t) || o.amount == 0
  {
    LedgerRows(db.payments);
    var mid := P.RecordReversal(db, P.Reverse(db, t, at));
    TakesBackExactly(db, t, at);
    RowsAfterReversal(db, t, at);
    NetAfterReversal(db, t.original, mid.payments);
    NothingRedeemed(db, t.original);
  }

  /**
   Reversing a standing coupon discount and cancelling the redemption that falls due leaves the session
   in agreement exactly when no charge or discount sits under the reversal's key, or it was worth nothing.
   */
  lemma SpelledKeyBreaksExactly(w: World, seen: Db, at: int, t: P.Ticket)
    requires WorldOk(w) && KeysTrue(w.db.payments) && RowsAgree(w.db)
    requires seen in w.past && P.BeginReversal(seen, t.original.id, true) == Ok(t)
    requires t.original in w.db.payments && IsCouponDiscount(t.original) && Stands(w.db.payments, t.original)
    requires !P.Reverse(w.db, t, at).Failed?
    ensures var o := t.original;
            var reverse := OnPayment(ReversePayment(o.id, seen, at));
            var drop := OnCoupon(DropRedemption(Due(o.owner.id, o.coupon)));
            var reversed := Next(w, reverse);
            && Enabled(w, reverse) && Enabled(reversed, drop)
            && (CouponRuns.InAgreement(Next(reversed, drop).db, o.owner) <==> !Spelled(w.db.payments, t) || o.amount == 0)
  {
    var o := t.original;
    TicketIsOriginal(w, o.id, seen, t);
    AgreementAfterDrop(w.db, t, at);
    CouponRuns.DueAfterReversal(w.db, w.due, o.id, seen, at, t);
    assert Due(o.owner.id, o.coupon) in DueFor(o);
  }
}
