/** One coupon at a time: no table session and no sale ever has two redemptions that are not cancelled. */
module LiveCoupons {
  import C = Coupons
  import opened CouponAgreement
  import Counter = CounterSales
  import DataReset
  import opened Invariants
  import opened Schema
  import opened Steps
  import TC = TableCoupons
  import opened World
  import opened Wrappers

  lemma FewerLive(before: seq<Redemption>, after: seq<Redemption>)
    requires OneLivePerOwner(before) && forall r | r in after && !r.cancelled :: r in before
    ensures OneLivePerOwner(after)
  {
  }

  lemma OneMoreLive(before: seq<Redemption>, r: Redemption)
    requires OneLivePerOwner(before) && forall s | s in before && s.owner == r.owner :: s.cancelled
    ensures OneLivePerOwner(before + [r])
  {
  }

  lemma CancelledFewer(redemptions: seq<Redemption>, which: Redemption -> bool)
    requires OneLivePerOwner(redemptions)
    ensures OneLivePerOwner(C.CancelWhere(redemptions, which))
  {
    var after := C.CancelWhere(redemptions, which);
    forall r | r in after && !r.cancelled ensures r in redemptions {
      var i :| 0 <= i < |after| && after[i] == r;
      assert redemptions[i] == r;
    }
    FewerLive(redemptions, after);
  }

  lemma ApplyLive(db: Db, session: Id, code: string, target: Option<Id>, key: string, at: int)
    requires OneLivePerOwner(db.redemptions)
    ensures OneLivePerOwner(TC.AfterApply(db, session, code, target, key, at).redemptions)
  {
    if TC.ApplyCoupon(db, session, code, target, key, at).Ok? {
      var preview := TC.Resolve(db, session, code, target, at).value;
      assert !C.HasLive(db.redemptions, Session(session));
      OneMoreLive(db.redemptions, Redemption(code, Session(session), preview.remainingBefore, preview.discount, false));
    }
  }

  lemma CouponLive(db: Db, op: CouponOp)
    requires OneLivePerOwner(db.redemptions)
    ensures OneLivePerOwner(CommitCoupon(db, op).redemptions)
  {
    match op {
      case DropRedemption(due) => CancelledFewer(db.redemptions, C.OfSession(due.session, due.code));
      case ApplyCoupon(session, code, target, key, at) => ApplyLive(db, session, code, target, key, at);
      case _ =>
    }
  }

  lemma ConfirmLive(db: Db, request: Counter.Request)
    requires IdsBelow(db) && OneLivePerOwner(db.redemptions) && Counter.ValidLines(request.lines)
    ensures OneLivePerOwner(Counter.AfterConfirm(db, request).redemptions)
  {
    if Counter.Confirm(db, request).Ok? {
      Counter.QuoteIsExact(db, request.lines, request.code, request.target, request.at);
      var q := Counter.Confirm(db, request).value;
      if q.coupon.Some? {
        OneMoreLive(db.redemptions, Counter.RedemptionPart(db.next, q)[0]);
      }
    }
  }

  lemma SaleLive(db: Db, op: SaleOp)
    requires IdsBelow(db) && OneLivePerOwner(db.redemptions)
    ensures OneLivePerOwner(CommitSale(db, op).redemptions)
  {
    match op {
      case ConfirmSale(request) =>
        if Counter.ValidLines(request.lines) {
          ConfirmLive(db, request);
        }
      case CancelSale(sale, at) => CancelledFewer(db.redemptions, C.OfSale(sale));
    }
  }

  lemma ResetLive(db: Db, scopes: set<DataReset.Scope>)
    requires OneLivePerOwner(db.redemptions)
    ensures OneLivePerOwner(DataReset.Reset(db, scopes).redemptions)
  {
    var first := DataReset.ResetTables(db, scopes);
    DataReset.FilterSubset(db.redemptions, DataReset.KeepRedemption(DataReset.TableRows));
    DataReset.FilterSubset(first.redemptions, DataReset.KeepRedemption(DataReset.SaleRows));
    FewerLive(db.redemptions, DataReset.Reset(db, scopes).redemptions);
  }

  lemma SessionRedemptions(db: Db, op: SessionOp)
    ensures CommitSession(db, op).redemptions == db.redemptions
  {
  }

  lemma FloorRedemptions(db: Db, op: FloorOp)
    ensures CommitFloor(db, op).redemptions == db.redemptions
  {
  }

  lemma OrderRedemptions(db: Db, op: OrderOp)
    ensures CommitOrder(db, op).redemptions == db.redemptions
  {
  }

  lemma PaymentRedemptions(db: Db, op: PaymentOp)
    ensures CommitPayment(db, op).redemptions == db.redemptions
  {
  }

  lemma StepLive(db: Db, step: Step)
    requires IdsBelow(db) && OneLivePerOwner(db.redemptions)
    ensures OneLivePerOwner(Commit(db, step).redemptions)
  {
    match step {
      case OnCoupon(op) => CouponLive(db, op);
      case OnSale(op) => SaleLive(db, op);
      case ResetData(scopes) => ResetLive(db, scopes);
      case OnSession(op) => SessionRedemptions(db, op);
      case OnFloor(op) => FloorRedemptions(db, op);
      case OnOrder(op) => OrderRedemptions(db, op);
      case OnPayment(op) => PaymentRedemptions(db, op);
    }
  }

  lemma {:induction false} RunsLive(w: World, steps: seq<Step>)
    requires WorldOk(w) && Runs(w, steps) && OneLivePerOwner(w.db.redemptions)
    ensures OneLivePerOwner(After(w, steps).db.redemptions)
    decreases |steps|
  {
    if steps != [] {
      assert w.db in w.past && Inv(w.db);
      StepLive(w.db, steps[0]);
      StepKeeps(w, steps[0]);
      RunsLive(Next(w, steps[0]), steps[1..]);
    }
  }

  /** In every reachable state, whatever keys clients choose and whatever was reset, an owner has at most one live redemption. */
  lemma OneLiveRedemptionAlways(steps: seq<Step>, r: Redemption, s: Redemption)
    requires Runs(START, steps)
    requires r in After(START, steps).db.redemptions && s in After(START, steps).db.redemptions
    requires r.owner == s.owner && !r.cancelled && !s.cancelled
    ensures r == s
  {
    StartOk();
    RunsLive(START, steps);
  }
}
