/**
 The coupon row, its redemption and its discount agree. Between the transaction that reverses a coupon
 discount and the later update that cancels its redemption they may differ, and only for that session.
 */
module CouponAgreement {
  import opened Billing
  import opened Invariants
  import opened Ledger
  import P = Payments
  import opened Schema
  import opened Sums
  import TC = TableCoupons
  import opened World
  import opened Wrappers

  predicate IsCouponDiscount(p: Payment) {
    p.kind == Discount && p.methodCode == COUPON_DISCOUNT_METHOD
  }

  /** The redemption that the discount records. */
  predicate Matches(r: Redemption, p: Payment) {
    p.coupon == Some(r.coupon) && p.owner == r.owner && p.amount == r.discount
  }

  /** A coupon discount has its redemption, live as long as the discount stands. */
  ghost predicate Recorded(p: Payment, redemptions: seq<Redemption>, stands: bool) {
    p.coupon.Some? && exists r | r in redemptions :: Matches(r, p) && (stands ==> !r.cancelled)
  }

  /** A live redemption has its discount, standing unless a cancellation is due. */
  ghost predicate Backed(r: Redemption, payments: seq<Payment>, due: multiset<Due>) {
    exists p | p in payments ::
      IsCouponDiscount(p) && Matches(r, p) && (Stands(payments, p) || (r.owner.Session? && Due(r.owner.id, Some(r.coupon)) in due))
  }

  /** What is due cancels nothing that still stands. */
  ghost predicate Safe(d: Due, db: Db) {
    && d.code.Some? && d.session < db.next
    && (forall p | p in db.payments && IsCouponDiscount(p) && p.owner == Session(d.session) && p.coupon == d.code ::
          !Stands(db.payments, p))
    && (d.session in db.sessions ==>
          exists r | r in db.redemptions :: r.coupon == d.code.value && r.owner == Session(d.session))
  }

  ghost predicate DiscountsRecorded(payments: seq<Payment>, redemptions: seq<Redemption>) {
    forall p | p in payments && IsCouponDiscount(p) :: Recorded(p, redemptions, Stands(payments, p))
  }

  ghost predicate RedemptionsBacked(payments: seq<Payment>, redemptions: seq<Redemption>, due: multiset<Due>) {
    forall r | r in redemptions && !r.cancelled :: Backed(r, payments, due)
  }

  ghost predicate OneDiscountPerCoupon(payments: seq<Payment>) {
    forall p, q | p in payments && q in payments && IsCouponDiscount(p) && IsCouponDiscount(q) && p.coupon == q.coupon :: p == q
  }

  ghost predicate OneLivePerOwner(redemptions: seq<Redemption>) {
    forall r, s | r in redemptions && s in redemptions && !r.cancelled && !s.cancelled && r.owner == s.owner :: r == s
  }

  /** A row under a reversal key is that reversal. */
  ghost predicate ReversalKeysHonest(payments: seq<Payment>) {
    forall p | p in payments && p.key.Scoped? && p.key.text.Reversal? ::
      !IsOriginal(p) && p.reverses == Some(p.key.text.payment)
  }

  ghost predicate Agrees(db: Db, due: multiset<Due>) {
    && DiscountsRecorded(db.payments, db.redemptions)
    && RedemptionsBacked(db.payments, db.redemptions, due)
    && OneDiscountPerCoupon(db.payments)
    && OneLivePerOwner(db.redemptions)
    && ReversalKeysHonest(db.payments)
    && forall d | d in due :: Safe(d, db)
  }

  // ---- what agreement means ----

  function LiveDiscount(owner: Owner): Redemption -> int {
    (r: Redemption) => if r.owner == owner && !r.cancelled then r.discount else 0
  }

  /** Discount that the owner's live redemptions claim. */
  function Redeemed(redemptions: seq<Redemption>, owner: Owner): int {
    Sum(redemptions, LiveDiscount(owner))
  }

  lemma NoLiveRedemption(db: Db, due: multiset<Due>, owner: Owner)
    requires Agrees(db, due) && forall r | r in db.redemptions && r.owner == owner :: r.cancelled
    ensures Redeemed(db.redemptions, owner) == 0 && Sum(db.payments, StandingCoupon(db.payments, owner)) == 0
  {
    SumZero(db.redemptions, LiveDiscount(owner));
    forall p | p in db.payments ensures StandingCoupon(db.payments, owner)(p) == 0 {
      if IsCouponDiscount(p) {
        var r :| r in db.redemptions && Matches(r, p) && (Stands(db.payments, p) ==> !r.cancelled);
      }
    }
    SumZero(db.payments, StandingCoupon(db.payments, owner));
  }

  lemma OneLiveRedemption(db: Db, due: multiset<Due>, owner: Owner, r: Redemption, p: Payment)
    requires Agrees(db, due) && IsLedger(db.payments) && CouponsDistinct(db.redemptions)
    requires r in db.redemptions && !r.cancelled && r.owner == owner
    requires p in db.payments && IsCouponDiscount(p) && Matches(r, p) && Stands(db.payments, p)
    ensures Redeemed(db.redemptions, owner) == r.discount == Sum(db.payments, StandingCoupon(db.payments, owner))
  {
    var k :| 0 <= k < |db.redemptions| && db.redemptions[k] == r;
    forall i | 0 <= i < |db.redemptions| && i != k ensures LiveDiscount(owner)(db.redemptions[i]) == 0 {
      assert db.redemptions[i] in db.redemptions;
    }
    SumSingle(db.redemptions, LiveDiscount(owner), k);
    var j :| 0 <= j < |db.payments| && db.payments[j] == p;
    LedgerRows(db.payments);
    forall i | 0 <= i < |db.payments| && i != j ensures StandingCoupon(db.payments, owner)(db.payments[i]) == 0 {
      var q := db.payments[i];
      assert q in db.payments;
      if IsCouponDiscount(q) {
        var s :| s in db.redemptions && Matches(s, q) && (Stands(db.payments, q) ==> !s.cancelled);
        assert q.coupon == p.coupon ==> q == p;
      }
    }
    SumSingle(db.payments, StandingCoupon(db.payments, owner), j);
  }

  /** With nothing due for it, an owner's live redemptions add up to its net coupon discount. */
  lemma AgreementAtBoundary(db: Db, due: multiset<Due>, owner: Owner)
    requires Inv(db) && Agrees(db, due)
    requires owner.Session? ==> forall d | d in due :: d.session != owner.id
    ensures Redeemed(db.redemptions, owner) == CouponDiscounted(PaymentsOf(db.payments, owner))
  {
    FoldsAreStanding(db.payments, owner);
    if exists r :: r in db.redemptions && r.owner == owner && !r.cancelled {
      var r :| r in db.redemptions && r.owner == owner && !r.cancelled;
      assert Backed(r, db.payments, due);
      var p :| p in db.payments && IsCouponDiscount(p) && Matches(r, p) && Stands(db.payments, p);
      OneLiveRedemption(db, due, owner, r, p);
    } else {
      NoLiveRedemption(db, due, owner);
    }
  }

  // ---- steps that move neither payments nor redemptions ----

  lemma FrameAgrees(db: Db, after: Db, due: multiset<Due>)
    requires Agrees(db, due) && after.payments == db.payments && after.redemptions == db.redemptions
    requires after.next >= db.next && forall s | s in after.sessions && s < db.next :: s in db.sessions
    ensures Agrees(after, due)
  {
  }

  // ---- appended originals ----

  lemma PlainRowBacked(payments: seq<Payment>, redemptions: seq<Redemption>, due: multiset<Due>, p: Payment)
    requires IsLedger(payments) && RedemptionsBacked(payments, redemptions, due)
    requires Follows(payments, p) && IsOriginal(p)
    ensures RedemptionsBacked(payments + [p], redemptions, due)
  {
    LastStands(payments, p);
    forall r | r in redemptions && !r.cancelled ensures Backed(r, payments + [p], due) {
      BackedStays(r, payments, payments + [p], due);
    }
  }

  lemma PlainRowRecorded(payments: seq<Payment>, redemptions: seq<Redemption>, p: Payment)
    requires IsLedger(payments) && DiscountsRecorded(payments, redemptions) && OneDiscountPerCoupon(payments)
    requires Follows(payments, p) && IsOriginal(p) && !IsCouponDiscount(p)
    ensures DiscountsRecorded(payments + [p], redemptions) && OneDiscountPerCoupon(payments + [p])
  {
    LastStands(payments, p);
    forall q | q in payments && IsCouponDiscount(q) ensures Recorded(q, redemptions, Stands(payments + [p], q)) {
      assert Recorded(q, redemptions, Stands(payments, q));
    }
  }

  lemma PlainRowSafe(db: Db, d: Due, p: Payment)
    requires IsLedger(db.payments) && Safe(d, db) && Follows(db.payments, p) && IsOriginal(p) && !IsCouponDiscount(p)
    ensures Safe(d, P.AppendRow(db, p))
  {
    LastStands(db.payments, p);
  }

  /** A new charge or manual discount under a key that is no reversal's. */
  lemma PlainRowAgrees(db: Db, due: multiset<Due>, p: Payment)
    requires IsLedger(db.payments) && Agrees(db, due) && Follows(db.payments, p) && IsOriginal(p) && !IsCouponDiscount(p)
    requires !(p.key.Scoped? && p.key.text.Reversal?)
    ensures Agrees(P.AppendRow(db, p), due)
  {
    PlainRowRecorded(db.payments, db.redemptions, p);
    PlainRowBacked(db.payments, db.redemptions, due, p);
    forall d | d in due ensures Safe(d, P.AppendRow(db, p)) {
      PlainRowSafe(db, d, p);
    }
  }

  /** A redemption stays backed while its discount stays and stands as before. */
  lemma BackedStays(r: Redemption, before: seq<Payment>, after: seq<Payment>, due: multiset<Due>)
    requires Backed(r, before, due)
    requires forall p | p in before && p.owner == r.owner :: p in after && (Stands(before, p) ==> Stands(after, p))
    ensures Backed(r, after, due)
  {
    var p :| p in before && IsCouponDiscount(p) && Matches(r, p)
             && (Stands(before, p) || (r.owner.Session? && Due(r.owner.id, Some(r.coupon)) in due));
    assert p in after;
  }

  /** A discount and redemption that nothing before names: no redemption of the coupon, no live one of the owner. */
  ghost predicate NewPair(payments: seq<Payment>, redemptions: seq<Redemption>, p: Payment, r: Redemption) {
    && Follows(payments, p) && IsCouponDiscount(p) && Matches(r, p) && !r.cancelled
    && !(p.key.Scoped? && p.key.text.Reversal?)
    && forall s | s in redemptions :: s.coupon != r.coupon && (s.owner == r.owner ==> s.cancelled)
  }

  lemma NewPairRecorded(payments: seq<Payment>, redemptions: seq<Redemption>, p: Payment, r: Redemption)
    requires IsLedger(payments) && NewPair(payments, redemptions, p, r)
    requires DiscountsRecorded(payments, redemptions) && OneDiscountPerCoupon(payments)
    ensures DiscountsRecorded(payments + [p], redemptions + [r]) && OneDiscountPerCoupon(payments + [p])
  {
    LastStands(payments, p);
    forall q | q in payments && IsCouponDiscount(q)
      ensures Recorded(q, redemptions + [r], Stands(payments + [p], q)) && q.coupon != p.coupon
    {
      var s :| s in redemptions && Matches(s, q) && (Stands(payments, q) ==> !s.cancelled);
      assert s in redemptions + [r];
    }
    assert r in redemptions + [r];
  }

  lemma NewPairBacked(payments: seq<Payment>, redemptions: seq<Redemption>, due: multiset<Due>, p: Payment, r: Redemption)
    requires IsLedger(payments) && NewPair(payments, redemptions, p, r) && RedemptionsBacked(payments, redemptions, due)
    ensures RedemptionsBacked(payments + [p], redemptions + [r], due)
  {
    PlainRowBacked(payments, redemptions, due, p);
    LastStands(payments, p);
    assert p in payments + [p];
  }

  lemma CouponRowAgrees(db: Db, after: Db, due: multiset<Due>, p: Payment, r: Redemption)
    requires IsLedger(db.payments) && Agrees(db, due) && NewPair(db.payments, db.redemptions, p, r)
    requires p.owner.Session? ==> p.owner.id in db.sessions
    requires after.payments == db.payments + [p] && after.redemptions == db.redemptions + [r]
    requires after.next >= db.next && after.sessions == db.sessions
    ensures Agrees(after, due)
  {
    NewPairRecorded(db.payments, db.redemptions, p, r);
    NewPairBacked(db.payments, db.redemptions, due, p, r);
    NewPairLive(db.payments, db.redemptions, p, r);
    NewPairSafe(db, after, due, p, r);
  }

  lemma NewPairLive(payments: seq<Payment>, redemptions: seq<Redemption>, p: Payment, r: Redemption)
    requires NewPair(payments, redemptions, p, r) && OneLivePerOwner(redemptions) && ReversalKeysHonest(payments)
    ensures OneLivePerOwner(redemptions + [r]) && ReversalKeysHonest(payments + [p])
  {
  }

  lemma NewPairSafe(db: Db, after: Db, due: multiset<Due>, p: Payment, r: Redemption)
    requires IsLedger(db.payments) && NewPair(db.payments, db.redemptions, p, r) && forall d | d in due :: Safe(d, db)
    requires p.owner.Session? ==> p.owner.id in db.sessions
    requires after.payments == db.payments + [p] && after.redemptions == db.redemptions + [r]
    requires after.next >= db.next && after.sessions == db.sessions
    ensures forall d | d in due :: Safe(d, after)
  {
    LastStands(db.payments, p);
    forall d | d in due ensures Safe(d, after) {
      SafeBesides(db, after, d, p, r);
    }
  }

  lemma SafeBesides(db: Db, after: Db, d: Due, p: Payment, r: Redemption)
    requires Safe(d, db) && Matches(r, p)
    requires forall s | s in db.redemptions :: s.coupon != r.coupon
    requires p.owner.Session? ==> p.owner.id in db.sessions
    requires after.payments == db.payments + [p] && after.redemptions == db.redemptions + [r]
    requires after.next >= db.next && after.sessions == db.sessions
    requires forall q | q in db.payments :: Stands(db.payments, q) == Stands(after.payments, q)
    ensures Safe(d, after)
  {
    if d.session in db.sessions {
      var s :| s in db.redemptions && s.coupon == d.code.value && s.owner == Session(d.session);
      assert s in after.redemptions;
    }
  }

  // ---- reversal and cancellation of the redemption ----

  lemma ReversedStands(rows: seq<Payment>, r: Payment, o: Payment)
    requires IsLedger(rows) && Reverses(r, o)
    ensures forall q | q in rows :: Stands(rows + [r], q) == (Stands(rows, q) && q.id != o.id)
  {
    forall q | q in rows ensures Stands(rows + [r], q) == (Stands(rows, q) && q.id != o.id) {
      if q.id != o.id {
        OtherStands(rows, r, q);
      } else {
        assert r in rows + [r];
      }
    }
  }

  /** Due for the original if it is a coupon discount. */
  function DueFor(o: Payment): multiset<Due> {
    if IsCouponDiscount(o) then multiset{Due(o.owner.id, o.coupon)} else multiset{}
  }

  /** Once the original is reversed, its redemption may be cancelled safely. */
  lemma DueIsSafe(db: Db, due: multiset<Due>, o: Payment, after: Db)
    requires Agrees(db, due) && IdsBelow(db) && IsLedger(db.payments) && o in db.payments && o.owner.Session? && IsCouponDiscount(o)
    requires after.redemptions == db.redemptions && after.sessions == db.sessions && after.next >= db.next
    requires forall p | p in after.payments && IsCouponDiscount(p) :: p in db.payments
    requires !Stands(after.payments, o)
    ensures Safe(Due(o.owner.id, o.coupon), after)
  {
    assert Recorded(o, db.redemptions, Stands(db.payments, o));
  }

  lemma ReversedRecorded(payments: seq<Payment>, redemptions: seq<Redemption>, o: Payment, r: Payment)
    requires IsLedger(payments) && Reverses(r, o) && DiscountsRecorded(payments, redemptions) && OneDiscountPerCoupon(payments)
    ensures DiscountsRecorded(payments + [r], redemptions) && OneDiscountPerCoupon(payments + [r])
  {
    ReversedStands(payments, r, o);
    forall q | q in payments && IsCouponDiscount(q) ensures Recorded(q, redemptions, Stands(payments + [r], q)) {
      assert Recorded(q, redemptions, Stands(payments, q));
    }
  }

  lemma ReversedSafe(db: Db, d: Due, o: Payment, r: Payment)
    requires IsLedger(db.payments) && Reverses(r, o) && Safe(d, db)
    ensures Safe(d, P.AppendRow(db, r))
  {
    ReversedStands(db.payments, r, o);
  }

  lemma InsertedReversalAgrees(db: Db, due: multiset<Due>, o: Payment, r: Payment)
    requires IdsBelow(db) && IsLedger(db.payments) && Agrees(db, due)
    requires Reverses(r, o) && o in db.payments && o.owner.Session?
    requires r.key.Scoped? && r.key.text.Reversal? ==> r.reverses == Some(r.key.text.payment)
    ensures Agrees(P.AppendRow(db, r), due + DueFor(o))
  {
    var after := P.AppendRow(db, r);
    ReversedRecorded(db.payments, db.redemptions, o, r);
    ReversedStands(db.payments, r, o);
    forall s | s in db.redemptions && !s.cancelled ensures Backed(s, after.payments, due + DueFor(o)) {
      BackedOrDue(db, due, o, r, s);
    }
    forall d | d in due + DueFor(o) ensures Safe(d, after) {
      if d in due {
        ReversedSafe(db, d, o, r);
      } else {
        DueIsSafe(db, due, o, after);
      }
    }
  }

  lemma BackedOrDue(db: Db, due: multiset<Due>, o: Payment, r: Payment, s: Redemption)
    requires IsLedger(db.payments) && Backed(s, db.payments, due) && Reverses(r, o) && o in db.payments && o.owner.Session?
    ensures Backed(s, db.payments + [r], due + DueFor(o))
  {
    ReversedStands(db.payments, r, o);
    var p :| p in db.payments && IsCouponDiscount(p) && Matches(s, p)
             && (Stands(db.payments, p) || (s.owner.Session? && Due(s.owner.id, Some(s.coupon)) in due));
    assert p in db.payments + [r];
    if p.id == o.id {
      SameRow(db.payments, p, o);
    }
  }

  /** A replayed reversal: the row under the key is the reversal, so the original no longer stands. */
  lemma ReplayAgrees(db: Db, due: multiset<Due>, o: Payment)
    requires IdsBelow(db) && IsLedger(db.payments) && Agrees(db, due)
    requires o in db.payments && o.owner.Session? && !Stands(db.payments, o)
    ensures Agrees(db, due + DueFor(o))
  {
    forall r | r in db.redemptions && !r.cancelled ensures Backed(r, db.payments, due + DueFor(o)) {
      assert Backed(r, db.payments, due);
    }
    forall d | d in due + DueFor(o) ensures Safe(d, db) {
      if d !in due {
        DueIsSafe(db, due, o, db);
      }
    }
  }

  lemma DropRecorded(db: Db, d: Due)
    requires DiscountsRecorded(db.payments, db.redemptions) && Safe(d, db)
    ensures DiscountsRecorded(db.payments, TC.DropRedemption(db, d.session, d.code).redemptions)
  {
    var after := TC.DropRedemption(db, d.session, d.code).redemptions;
    forall p | p in db.payments && IsCouponDiscount(p) ensures Recorded(p, after, Stands(db.payments, p)) {
      var r :| r in db.redemptions && Matches(r, p) && (Stands(db.payments, p) ==> !r.cancelled);
      var i :| 0 <= i < |db.redemptions| && db.redemptions[i] == r;
      assert after[i] in after && Matches(after[i], p);
    }
  }

  lemma DropBacked(db: Db, due: multiset<Due>, d: Due)
    requires RedemptionsBacked(db.payments, db.redemptions, due) && d.code.Some?
    ensures var after := TC.DropRedemption(db, d.session, d.code).redemptions;
            && RedemptionsBacked(db.payments, after, due - multiset{d})
            && forall r | r in after && !r.cancelled :: r in db.redemptions
  {
    var after := TC.DropRedemption(db, d.session, d.code).redemptions;
    forall r | r in after && !r.cancelled
      ensures r in db.redemptions && Backed(r, db.payments, due - multiset{d})
    {
      var i :| 0 <= i < |after| && after[i] == r;
      assert db.redemptions[i] in db.redemptions;
      assert Backed(r, db.payments, due);
    }
  }

  lemma DropSafe(db: Db, d: Due, e: Due)
    requires Safe(e, db)
    ensures Safe(e, TC.DropRedemption(db, d.session, d.code))
  {
    var after := TC.DropRedemption(db, d.session, d.code);
    if e.session in db.sessions {
      var r :| r in db.redemptions && r.coupon == e.code.value && r.owner == Session(e.session);
      var i :| 0 <= i < |db.redemptions| && db.redemptions[i] == r;
      assert after.redemptions[i] in after.redemptions;
    }
  }

  lemma DropAgrees(db: Db, due: multiset<Due>, d: Due)
    requires Agrees(db, due) && d in due
    ensures Agrees(TC.DropRedemption(db, d.session, d.code), due - multiset{d})
  {
    assert Safe(d, db);
    DropRecorded(db, d);
    DropBacked(db, due, d);
    forall e | e in due - multiset{d} ensures Safe(e, TC.DropRedemption(db, d.session, d.code)) {
      DropSafe(db, d, e);
    }
  }
}
