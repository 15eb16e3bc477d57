/** What issuing, withdrawing, redeeming and resetting make of a coupon, step by step and over whole runs. */
module CouponLife {
  import C = Coupons
  import Counter = CounterSales
  import opened CouponNumberRuns
  import DataReset
  import opened Schema
  import TC = TableCoupons
  import opened World
  import opened Wrappers

  // ---- single steps ----

  /** New codes are unused coupons of the given benefit and last instant; every earlier coupon stays as it is. */
  lemma IssueRecords(db: Db, count: nat, benefit: Benefit, expiresAt: Option<int>, code: string)
    requires C.Issue(db, count, benefit, expiresAt).Ok?
    ensures var after := C.AfterIssue(db, count, benefit, expiresAt);
            && after == db.(coupons := after.coupons)
            && (code in db.coupons ==> code in after.coupons && after.coupons[code] == db.coupons[code])
            && (code in after.coupons && code !in db.coupons ==> after.coupons[code] == Coupon(Unused, benefit, expiresAt))
  {
    var codes := C.IssueAddsNew(db, count, benefit, expiresAt);
  }

  /** Exactly the named coupons that nobody has used yet are withdrawn. */
  lemma WithdrawRecords(db: Db, codes: set<string>, code: string)
    ensures var after := C.Withdraw(db, codes);
            && after == db.(coupons := after.coupons) && (code in after.coupons <==> code in db.coupons)
            && (code in db.coupons ==>
                  after.coupons[code] ==
                    if code in codes && db.coupons[code].status == Unused then db.coupons[code].(status := Withdrawn)
                    else db.coupons[code])
  {
  }

  /** Taking a redemption back marks the session's redemptions of that coupon, of any coupon if none is named, and no more. */
  lemma DropRecords(db: Db, session: Id, code: Option<string>)
    ensures var after := TC.DropRedemption(db, session, code);
            && after == db.(redemptions := after.redemptions) && |after.redemptions| == |db.redemptions|
            && forall i | 0 <= i < |db.redemptions| ::
                 var r := db.redemptions[i];
                 after.redemptions[i] ==
                   if r.owner == Session(session) && code in {None, Some(r.coupon)} then r.(cancelled := true) else r
  {
  }

  // ---- how a coupon's status may turn ----

  /** An unused coupon is used or withdrawn; only a reset makes a used one usable again; nothing revives a withdrawn one. */
  predicate MayTurn(before: CouponStatus, after: CouponStatus, reset: bool) {
    match before
    case Unused => true
    case Used => after == Used || (reset && after == Unused)
    case Withdrawn => after == Withdrawn
  }

  /** New coupons start unused. */
  ghost predicate CouponsTurn(a: CouponTable, b: CouponTable, reset: bool) {
    && (forall code | code in a && code in b :: MayTurn(a[code].status, b[code].status, reset))
    && (forall code | code in b && code !in a :: b[code].status == Unused)
  }

  lemma CouponTurns(db: Db, op: CouponOp)
    ensures CouponsTurn(db.coupons, CommitCoupon(db, op).coupons, false)
  {
    match op {
      case DropRedemption(_) =>
      case ApplyCoupon(session, code, target, key, at) => ApplyTurns(db, session, code, target, key, at);
      case IssueCoupons(count, benefit, expiresAt) => IssueTurns(db, count, benefit, expiresAt);
      case WithdrawCoupons(codes) =>
    }
  }

  lemma ApplyTurns(db: Db, session: Id, code: string, target: Option<Id>, key: string, at: int)
    ensures CouponsTurn(db.coupons, TC.AfterApply(db, session, code, target, key, at).coupons, false)
  {
  }

  lemma IssueTurns(db: Db, count: nat, benefit: Benefit, expiresAt: Option<int>)
    ensures CouponsTurn(db.coupons, C.AfterIssue(db, count, benefit, expiresAt).coupons, false)
  {
    if C.Issue(db, count, benefit, expiresAt).Ok? {
      var codes := C.IssueAddsNew(db, count, benefit, expiresAt);
    }
  }

  lemma SaleTurns(db: Db, op: SaleOp)
    ensures CouponsTurn(db.coupons, CommitSale(db, op).coupons, false)
  {
    match op {
      case ConfirmSale(request) =>
        if Counter.ValidLines(request.lines) && Counter.Confirm(db, request).Ok? {
          Counter.QuoteIsExact(db, request.lines, request.code, request.target, request.at);
        }
      case CancelSale(_, _) =>
    }
  }

  lemma ResetTurns(db: Db, scopes: set<DataReset.Scope>)
    ensures CouponsTurn(db.coupons, DataReset.Reset(db, scopes).coupons, true)
  {
  }

  lemma StepTurns(db: Db, step: Step)
    ensures CouponsTurn(db.coupons, Commit(db, step).coupons, step.ResetData?)
  {
    match step {
      case OnSession(op) => SessionMoves(db, op);
      case OnFloor(op) => FloorMoves(db, op);
      case OnOrder(op) => OrderMoves(db, op);
      case OnPayment(op) => PaymentMoves(db, op);
      case OnCoupon(op) => CouponTurns(db, op);
      case OnSale(op) => SaleTurns(db, op);
      case ResetData(scopes) => ResetTurns(db, scopes);
    }
  }

  // ---- whole runs ----

  /** The coupon is on file with that status. */
  predicate Is(coupons: CouponTable, code: string, status: CouponStatus) {
    code in coupons && coupons[code].status == status
  }

  lemma StepKeepsStatus(db: Db, step: Step, code: string)
    requires !TakesCoupons(step)
    ensures Is(db.coupons, code, Withdrawn) ==> Is(Commit(db, step).coupons, code, Withdrawn)
    ensures Is(db.coupons, code, Used) && !step.ResetData? ==> Is(Commit(db, step).coupons, code, Used)
  {
    StepTurns(db, step);
    StepMovesCoupons(db, step);
  }

  /**
   In any interleaving without a reset of the coupons a withdrawn coupon stays withdrawn; without any
   reset at all a used coupon stays used, even when the redemption is taken back or the sale cancelled.
   */
  lemma {:induction false} SpentForGood(w: World, steps: seq<Step>, code: string)
    requires Runs(w, steps) && forall i | 0 <= i < |steps| :: !TakesCoupons(steps[i])
    ensures Is(w.db.coupons, code, Withdrawn) ==> Is(After(w, steps).db.coupons, code, Withdrawn)
    ensures (forall i | 0 <= i < |steps| :: !steps[i].ResetData?) && Is(w.db.coupons, code, Used) ==>
              Is(After(w, steps).db.coupons, code, Used)
    decreases |steps|
  {
    if steps != [] {
      assert !TakesCoupons(steps[0]);
      StepKeepsStatus(w.db, steps[0], code);
      assert forall i | 0 <= i < |steps| - 1 :: steps[1..][i] == steps[i + 1];
      SpentForGood(Next(w, steps[0]), steps[1..], code);
    }
  }
}
