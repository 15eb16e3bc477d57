/** Coupon numbers over whole runs: always 001 to 999, issued until none is left, never issued twice. */
module CouponNumberRuns {
  import C = Coupons
  import Counter = CounterSales
  import DataReset
  import opened CouponNumbers
  import opened Schema
  import TC = TableCoupons
  import opened World
  import opened Wrappers

  type CouponTable = map<string, Coupon>

  /** What was printed on the paper coupon has not changed. */
  predicate SamePaper(a: Coupon, b: Coupon) {
    a.benefit == b.benefit && a.expiresAt == b.expiresAt
  }

  /** Every coupon of `a` is still there as it was issued. */
  ghost predicate Lasts(a: CouponTable, b: CouponTable) {
    forall code | code in a :: code in b && SamePaper(a[code], b[code])
  }

  ghost predicate WellNumbered(coupons: CouponTable) {
    forall code | code in coupons :: Spells(CodeOf, 1, code)
  }

  /** A step changes no number and no paper, or issues under unused numbers, or takes all coupons away. */
  ghost predicate MovesCoupons(a: CouponTable, b: CouponTable, reset: bool) {
    || (a.Keys == b.Keys && Lasts(a, b))
    || (Lasts(a, b) && forall code | code in b && code !in a :: Spells(CodeOf, 1, code))
    || (reset && b == map[])
  }

  lemma ConsumedLasts(coupons: CouponTable, code: string)
    requires code in coupons
    ensures coupons.Keys == C.Consumed(coupons, code).Keys && Lasts(coupons, C.Consumed(coupons, code))
  {
  }

  lemma IssueMoves(db: Db, count: nat, benefit: Benefit, expiresAt: Option<int>)
    ensures MovesCoupons(db.coupons, C.AfterIssue(db, count, benefit, expiresAt).coupons, false)
  {
    if C.Issue(db, count, benefit, expiresAt).Ok? {
      NewCodesAreNew(db.coupons.Keys, count);
      var codes := AllocateCodes(db.coupons.Keys, count).codes;
      forall code | code in codes ensures code !in db.coupons && Spells(CodeOf, 1, code) {
        var i :| 0 <= i < |codes| && codes[i] == code;
      }
    }
  }

  lemma ApplyMoves(db: Db, session: Id, code: string, target: Option<Id>, key: string, at: int)
    ensures MovesCoupons(db.coupons, TC.AfterApply(db, session, code, target, key, at).coupons, false)
  {
    if code in db.coupons {
      ConsumedLasts(db.coupons, code);
    }
  }

  lemma ConfirmMoves(db: Db, request: Counter.Request)
    requires Counter.ValidLines(request.lines)
    ensures MovesCoupons(db.coupons, Counter.AfterConfirm(db, request).coupons, false)
  {
    if Counter.Confirm(db, request).Ok? {
      Counter.QuoteIsExact(db, request.lines, request.code, request.target, request.at);
      var q := Counter.Confirm(db, request).value;
      if q.coupon.Some? {
        ConsumedLasts(db.coupons, q.coupon.value.code);
      }
    }
  }

  predicate TakesCoupons(step: Step) {
    step.ResetData? && DataReset.Coupons in step.scopes
  }

  lemma CouponMoves(db: Db, op: CouponOp)
    ensures MovesCoupons(db.coupons, CommitCoupon(db, op).coupons, false)
  {
    match op {
      case IssueCoupons(count, benefit, expiresAt) => IssueMoves(db, count, benefit, expiresAt);
      case ApplyCoupon(session, code, target, key, at) => ApplyMoves(db, session, code, target, key, at);
      case _ =>
    }
  }

  lemma SaleMoves(db: Db, op: SaleOp)
    ensures MovesCoupons(db.coupons, CommitSale(db, op).coupons, false)
  {
    match op {
      case ConfirmSale(request) =>
        if Counter.ValidLines(request.lines) {
          ConfirmMoves(db, request);
        }
      case _ =>
    }
  }

  lemma ResetMoves(db: Db, scopes: set<DataReset.Scope>)
    ensures MovesCoupons(db.coupons, DataReset.Reset(db, scopes).coupons, DataReset.Coupons in scopes)
  {
  }

  lemma SessionMoves(db: Db, op: SessionOp)
    ensures CommitSession(db, op).coupons == db.coupons
  {
  }

  lemma FloorMoves(db: Db, op: FloorOp)
    ensures CommitFloor(db, op).coupons == db.coupons
  {
  }

  lemma OrderMoves(db: Db, op: OrderOp)
    ensures CommitOrder(db, op).coupons == db.coupons
  {
  }

  lemma PaymentMoves(db: Db, op: PaymentOp)
    ensures CommitPayment(db, op).coupons == db.coupons
  {
  }

  lemma StepMovesCoupons(db: Db, step: Step)
    ensures MovesCoupons(db.coupons, Commit(db, step).coupons, TakesCoupons(step))
  {
    match step {
      case OnSession(op) => SessionMoves(db, op);
      case OnFloor(op) => FloorMoves(db, op);
      case OnOrder(op) => OrderMoves(db, op);
      case OnPayment(op) => PaymentMoves(db, op);
      case OnCoupon(op) => CouponMoves(db, op);
      case OnSale(op) => SaleMoves(db, op);
      case ResetData(scopes) => ResetMoves(db, scopes);
    }
  }

  lemma LastsTransitive(a: CouponTable, b: CouponTable, c: CouponTable)
    requires Lasts(a, b) && Lasts(b, c)
    ensures Lasts(a, c)
  {
  }

  lemma {:induction false} RunsMoveCoupons(w: World, steps: seq<Step>)
    requires WellNumbered(w.db.coupons)
    ensures WellNumbered(After(w, steps).db.coupons)
    ensures (forall i | 0 <= i < |steps| :: !TakesCoupons(steps[i])) ==> Lasts(w.db.coupons, After(w, steps).db.coupons)
    decreases |steps|
  {
    if steps != [] {
      var next := Next(w, steps[0]);
      StepMovesCoupons(w.db, steps[0]);
      RunsMoveCoupons(next, steps[1..]);
      assert forall i | 0 <= i < |steps| - 1 :: steps[1..][i] == steps[i + 1];
      if forall i | 0 <= i < |steps| :: !TakesCoupons(steps[i]) {
        assert !TakesCoupons(steps[0]);
        LastsTransitive(w.db.coupons, next.db.coupons, After(next, steps[1..]).db.coupons);
      }
    }
  }

  /**
   An issue of `count` is refused exactly when fewer numbers are left out of 999; otherwise it adds
   `count` numbers none of which was in use before.
   */
  ghost predicate IssuesUnused(before: CouponTable, db: Db, count: nat, benefit: Benefit, expiresAt: Option<int>) {
    var r := C.Issue(db, count, benefit, expiresAt);
    && (r.Err? <==> count > MAX_COUPON_NUMBER - |db.coupons|)
    && (r.Ok? ==>
          && |r.value.coupons| == |db.coupons| + count
          && Lasts(db.coupons, r.value.coupons)
          && forall code | code in r.value.coupons && code !in db.coupons :: code !in before && Spells(CodeOf, 1, code))
  }

  /**
   In every reachable state an issue gives out only numbers that no earlier state had in use, unless a
   reset took the coupons away in between; what was issued earlier is still there as it was.
   */
  lemma NumbersNeverReissued(steps: seq<Step>, more: seq<Step>, count: nat, benefit: Benefit, expiresAt: Option<int>)
    requires Runs(START, steps) && Runs(After(START, steps), more)
    requires forall i | 0 <= i < |more| :: !TakesCoupons(more[i])
    ensures Lasts(After(START, steps).db.coupons, After(After(START, steps), more).db.coupons)
    ensures IssuesUnused(After(START, steps).db.coupons, After(After(START, steps), more).db, count, benefit, expiresAt)
  {
    RunsMoveCoupons(START, steps);
    var w := After(START, steps);
    RunsMoveCoupons(w, more);
    IssueCounts(w.db.coupons, After(w, more).db, count, benefit, expiresAt);
  }

  lemma IssueCounts(before: CouponTable, db: Db, count: nat, benefit: Benefit, expiresAt: Option<int>)
    requires WellNumbered(db.coupons) && Lasts(before, db.coupons)
    ensures IssuesUnused(before, db, count, benefit, expiresAt)
  {
    var codes := IssuedCodes(db.coupons, count);
    if C.Issue(db, count, benefit, expiresAt).Ok? {
      AddedCoupons(db.coupons, codes, benefit, expiresAt);
    }
  }

  lemma IssuedCodes(coupons: CouponTable, count: nat) returns (codes: seq<string>)
    requires WellNumbered(coupons)
    ensures AllocateCodes(coupons.Keys, count) == Exhausted <==> count > MAX_COUPON_NUMBER - |coupons|
    ensures AllocateCodes(coupons.Keys, count).Codes? ==>
              codes == AllocateCodes(coupons.Keys, count).codes && |codes| == count
              && FreshCodes(CodeOf, codes, coupons.Keys)
  {
    var taken := coupons.Keys;
    assert |taken| == |coupons|;
    AllocateSmallestUnused(taken, count);
    CodeOfInjective();
    EnoughIffUnused(CodeOf, taken, count);
    codes := [];
    if AllocateCodes(taken, count).Codes? {
      NewCodesAreNew(taken, count);
      codes := AllocateCodes(taken, count).codes;
    }
  }

  lemma DisjointUnion<K, V>(a: map<K, V>, b: map<K, V>)
    requires forall k | k in b :: k !in a
    ensures |a + b| == |a| + |b|
  {
    assert (a + b).Keys == a.Keys + b.Keys;
    assert |a.Keys + b.Keys| == |a.Keys| + |b.Keys|;
    assert |(a + b).Keys| == |a + b| && |a.Keys| == |a| && |b.Keys| == |b|;
  }

  lemma AddedCoupons(coupons: CouponTable, codes: seq<string>, benefit: Benefit, expiresAt: Option<int>)
    requires FreshCodes(CodeOf, codes, coupons.Keys)
    ensures var after := coupons + C.Fresh(codes, benefit, expiresAt);
            && |after| == |coupons| + |codes|
            && Lasts(coupons, after)
            && forall code | code in after && code !in coupons :: Spells(CodeOf, 1, code)
  {
    var issued := C.Fresh(codes, benefit, expiresAt);
    forall code | code in issued ensures code !in coupons && Spells(CodeOf, 1, code) {
      assert code in codes;
      var i :| 0 <= i < |codes| && codes[i] == code;
    }
    DisjointUnion(coupons, issued);
    FreshSize(codes, benefit, expiresAt);
  }

  lemma FreshSize(codes: seq<string>, benefit: Benefit, expiresAt: Option<int>)
    requires forall i, j | 0 <= i < j < |codes| :: codes[i] != codes[j]
    ensures |C.Fresh(codes, benefit, expiresAt)| == |codes|
  {
    DistinctCodes(codes);
    var issued := C.Fresh(codes, benefit, expiresAt);
    assert issued.Keys == set code | code in codes;
    assert |issued.Keys| == |issued|;
  }

  lemma {:induction false} DistinctCodes(codes: seq<string>)
    requires forall i, j | 0 <= i < j < |codes| :: codes[i] != codes[j]
    ensures |set code | code in codes| == |codes|
  {
    if codes == [] {
      assert (set code | code in codes) == {};
    } else {
      var front, last := codes[..|codes| - 1], codes[|codes| - 1];
      DistinctCodes(front);
      assert (set code | code in codes) == (set code | code in front) + {last};
    }
  }
}
