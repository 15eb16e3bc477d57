/**
 The coupon figures of the revenue report, read from redemptions (server/src/services/reporting.ts),
 against the coupon discount that the same report reads from the ledger.
 */
module CouponReport {
  import opened Billing
  import opened CouponAgreement
  import CouponRuns
  import opened Invariants
  import opened Ledger
  import Reporting
  import opened Schema
  import opened Steps
  import opened Sums
  import opened World

  type CouponTable = map<string, Coupon>

  function Effective(r: Redemption): int {
    if r.cancelled then 0 else r.discount
  }

  predicate TakesAmount(coupons: CouponTable, r: Redemption) {
    r.coupon in coupons && coupons[r.coupon].benefit.AmountOff?
  }

  function AmountPart(coupons: CouponTable): Redemption -> int {
    (r: Redemption) => if TakesAmount(coupons, r) then Effective(r) else 0
  }

  function ItemPart(coupons: CouponTable): Redemption -> int {
    (r: Redemption) => if TakesAmount(coupons, r) then 0 else Effective(r)
  }

  method ComputeCouponFigures(db: Database) returns (amountCouponDiscount: int, itemCouponDiscount: int)
    ensures amountCouponDiscount == Sum(db.redemptions, AmountPart(db.coupons))
    ensures itemCouponDiscount == Sum(db.redemptions, ItemPart(db.coupons))
  {
    amountCouponDiscount, itemCouponDiscount := 0, 0;
    for k := 0 to |db.redemptions|
      invariant amountCouponDiscount == Sum(db.redemptions[..k], AmountPart(db.coupons))
      invariant itemCouponDiscount == Sum(db.redemptions[..k], ItemPart(db.coupons))
    {
      var r := db.redemptions[k];
      var effective := if r.cancelled then 0 else r.discount;
      if TakesAmount(db.coupons, r) {
        amountCouponDiscount := amountCouponDiscount + effective;
      } else {
        itemCouponDiscount := itemCouponDiscount + effective;
      }
      SumPrefix(db.redemptions, k, AmountPart(db.coupons));
      SumPrefix(db.redemptions, k, ItemPart(db.coupons));
    }
    assert db.redemptions[..|db.redemptions|] == db.redemptions;
  }

  /** A live redemption counts in full in one of the two figures, by what its coupon is for; a cancelled one in neither. */
  lemma EachRedemptionOnce(coupons: CouponTable, r: Redemption)
    ensures AmountPart(coupons)(r) + ItemPart(coupons)(r) == if r.cancelled then 0 else r.discount
    ensures r.coupon in coupons ==>
              match coupons[r.coupon].benefit
              case AmountOff(_) => ItemPart(coupons)(r) == 0
              case FreeItem(_) => AmountPart(coupons)(r) == 0
  {
  }

  // ---- owner by owner ----

  function RedeemedOf(redemptions: seq<Redemption>): Owner -> int {
    (owner: Owner) => Sum(redemptions, LiveDiscount(owner))
  }

  function OneOwner(r: Redemption): Owner -> int {
    (owner: Owner) => LiveDiscount(owner)(r)
  }

  lemma {:induction false} EffectiveByOwner(redemptions: seq<Redemption>, owners: seq<Owner>)
    requires forall i, j | 0 <= i < j < |owners| :: owners[i] != owners[j]
    requires forall r | r in redemptions :: r.owner in owners
    ensures Sum(redemptions, Effective) == Sum(owners, RedeemedOf(redemptions))
  {
    if redemptions == [] {
      SumZero(owners, RedeemedOf(redemptions));
    } else {
      var front, last := redemptions[..|redemptions| - 1], redemptions[|redemptions| - 1];
      EffectiveByOwner(front, owners);
      assert last in redemptions;
      var k :| 0 <= k < |owners| && owners[k] == last.owner;
      forall i | 0 <= i < |owners| && i != k ensures OneOwner(last)(owners[i]) == 0 {
        assert owners[i] != owners[k];
      }
      SumSingle(owners, OneOwner(last), k);
      SumPlus(owners, RedeemedOf(front), OneOwner(last), RedeemedOf(redemptions));
    }
  }

  function StandingCoupons(rows: seq<Payment>): Payment -> int {
    (p: Payment) => if Stands(rows, p) && p.kind == Discount && p.methodCode == COUPON_DISCOUNT_METHOD then p.amount else 0
  }

  function NetOf(rows: seq<Payment>): Owner -> int {
    (owner: Owner) => CouponDiscounted(PaymentsOf(rows, owner))
  }

  /** The report's coupon discount over all time is the sum of every owner's net coupon discount. */
  lemma CouponEffectByOwner(rows: seq<Payment>, owners: seq<Owner>)
    requires IsLedger(rows) && Reporting.Partition(rows, owners)
    ensures Sum(rows, Reporting.CouponEffect(rows)) == Sum(owners, NetOf(rows))
  {
    SymmetricAxes(rows);
    SignedFold(rows, CouponWeight(rows));
    SumCong(rows, Reporting.CouponEffect(rows), Signed(CouponWeight(rows)));
    LedgerRows(rows);
    SumCong(rows, OnStanding(rows, CouponWeight(rows)), StandingCoupons(rows));
    Reporting.SumByOwner(rows, owners, StandingCoupons(rows));
    forall owner | owner in owners
      ensures NetOf(rows)(owner) == Reporting.OwnerSum(rows, StandingCoupons(rows))(owner)
    {
      FoldsAreStanding(rows, owner);
      SumCong(rows, StandingCoupon(rows, owner), Reporting.For(owner, StandingCoupons(rows)));
    }
    SumCong(owners, NetOf(rows), Reporting.OwnerSum(rows, StandingCoupons(rows)));
  }

  /** If every owner is in agreement, the two readings of the coupon discount agree. */
  lemma FiguresFromAgreement(db: Db, owners: seq<Owner>)
    requires IsLedger(db.payments) && Reporting.Partition(db.payments, owners)
    requires forall r | r in db.redemptions :: r.owner in owners
    requires forall owner | owner in owners :: CouponRuns.InAgreement(db, owner)
    ensures Sum(db.redemptions, AmountPart(db.coupons)) + Sum(db.redemptions, ItemPart(db.coupons))
         == Sum(db.payments, Reporting.CouponEffect(db.payments))
  {
    SumPlus(db.redemptions, AmountPart(db.coupons), ItemPart(db.coupons), Effective);
    EffectiveByOwner(db.redemptions, owners);
    CouponEffectByOwner(db.payments, owners);
    SumCong(owners, RedeemedOf(db.redemptions), NetOf(db.payments));
  }

  // ---- a list of all owners ----

  lemma {:induction false} OwnersOf(found: set<Owner>) returns (owners: seq<Owner>)
    ensures forall i, j | 0 <= i < j < |owners| :: owners[i] != owners[j]
    ensures forall owner :: owner in owners <==> owner in found
    decreases |found|
  {
    owners := [];
    if found != {} {
      var owner :| owner in found;
      owners := OwnersOf(found - {owner});
      owners := owners + [owner];
    }
  }

  lemma FiguresOfWorld(w: World)
    requires WorldOk(w) && Agrees(w.db, w.due) && w.due == multiset{}
    ensures Sum(w.db.redemptions, AmountPart(w.db.coupons)) + Sum(w.db.redemptions, ItemPart(w.db.coupons))
         == Sum(w.db.payments, Reporting.CouponEffect(w.db.payments))
  {
    assert w.db in w.past && Inv(w.db);
    var owners := OwnersOf((set p | p in w.db.payments :: p.owner) + (set r | r in w.db.redemptions :: r.owner));
    forall owner | owner in owners ensures CouponRuns.InAgreement(w.db, owner) {
      CouponRuns.BoundaryOf(w, owner);
    }
    FiguresFromAgreement(w.db, owners);
  }

  /**
   In every reachable state with no redemption waiting to be cancelled, what the report reads from
   redemptions, amount and item coupons together, is the coupon discount it reads from the ledger.
   */
  lemma CouponFiguresAgree(steps: seq<Step>)
    requires Runs(START, steps) && forall i | 0 <= i < |steps| :: CouponRuns.Tame(steps[i])
    requires After(START, steps).due == multiset{}
    ensures var db := After(START, steps).db;
            Sum(db.redemptions, AmountPart(db.coupons)) + Sum(db.redemptions, ItemPart(db.coupons))
            == Sum(db.payments, Reporting.CouponEffect(db.payments))
  {
    StartOk();
    CouponRuns.RunsAgree(START, steps);
    FiguresOfWorld(After(START, steps));
  }
}
