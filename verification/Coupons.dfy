/** Coupon rows: state, issue, withdrawal and single use (server/src/services/coupon.ts). */
module Coupons {
  import CouponNumbers
  import opened Schema
  import opened Wrappers

  datatype CouponError =
    | NotFound
    | NotRedeemable(state: CouponState)
    | AlreadyApplied
    | NoEffect
    | TargetMissing
    | TargetInvalid
    | NumbersExhausted
    | AlreadyUsed

  datatype CouponState = Redeemable | Spent | Lapsed | Revoked

  /** Expiry is derived from the clock, the other states are stored. */
  function StateOf(c: Coupon, now: int): CouponState {
    if c.status == Withdrawn then Revoked
    else if c.status == Used then Spent
    else if c.expiresAt.Some? && c.expiresAt.value <= now then Lapsed
    else Redeemable
  }

  // ---- issue and withdrawal ----

  function Fresh(codes: seq<string>, benefit: Benefit, expiresAt: Option<int>): map<string, Coupon> {
    map code | code in codes :: Coupon(Unused, benefit, expiresAt)
  }

  function Issue(db: Db, count: nat, benefit: Benefit, expiresAt: Option<int>): Result<Db, CouponError> {
    match CouponNumbers.AllocateCodes(db.coupons.Keys, count)
    case Exhausted => Err(NumbersExhausted)
    case Codes(codes) => Ok(db.(coupons := db.coupons + Fresh(codes, benefit, expiresAt)))
  }

  function AfterIssue(db: Db, count: nat, benefit: Benefit, expiresAt: Option<int>): Db {
    var r := Issue(db, count, benefit, expiresAt);
    if r.Ok? then r.value else db
  }

  /** An issue adds unused coupons under codes nobody holds, and touches nothing else. */
  lemma IssueAddsNew(db: Db, count: nat, benefit: Benefit, expiresAt: Option<int>) returns (codes: seq<string>)
    requires Issue(db, count, benefit, expiresAt).Ok?
    ensures Issue(db, count, benefit, expiresAt) == Ok(db.(coupons := db.coupons + Fresh(codes, benefit, expiresAt)))
    ensures forall code | code in codes :: code !in db.coupons
    ensures forall i, j | 0 <= i < j < |codes| :: codes[i] != codes[j]
  {
    codes := CouponNumbers.AllocateCodes(db.coupons.Keys, count).codes;
    CouponNumbers.NewCodesAreNew(db.coupons.Keys, count);
  }

  method IssueTx(db: Database, count: nat, benefit: Benefit, expiresAt: Option<int>) returns (r: Result<(), CouponError>)
    modifies db
    ensures match Issue(old(db.View()), count, benefit, expiresAt)
            case Ok(after) => r == Ok(()) && db.View() == after
            case Err(e) => r == Err(e) && db.View() == old(db.View())
  {
    var split := CouponNumbers.Allocate(db.coupons.Keys, count);
    if split.Exhausted? {
      return Err(NumbersExhausted);
    }
    var codes := split.codes;
    db.coupons := db.coupons + Fresh(codes, benefit, expiresAt);
    r := Ok(());
  }

  /** Rows still unused are withdrawn; used ones are left alone. */
  function Withdraw(db: Db, codes: set<string>): Db {
    db.(coupons := map code | code in db.coupons ::
          if code in codes && db.coupons[code].status == Unused then db.coupons[code].(status := Withdrawn)
          else db.coupons[code])
  }

  method WithdrawTx(db: Database, codes: set<string>) returns (cancelledCount: nat)
    modifies db
    ensures db.View() == Withdraw(old(db.View()), codes)
    ensures cancelledCount == |set code | code in old(db.coupons) && code in codes && old(db.coupons)[code].status == Unused|
  {
    cancelledCount := |set code | code in db.coupons && code in codes && db.coupons[code].status == Unused|;
    db.coupons := Withdraw(db.View(), codes).coupons;
  }

  // ---- single use ----

  predicate Consumable(db: Db, code: string) {
    code in db.coupons && db.coupons[code].status == Unused
  }

  function Consumed(coupons: map<string, Coupon>, code: string): map<string, Coupon>
    requires code in coupons
  {
    coupons[code := coupons[code].(status := Used)]
  }

  predicate Redeemed(redemptions: seq<Redemption>, code: string) {
    exists r | r in redemptions :: r.coupon == code
  }

  predicate HasLive(redemptions: seq<Redemption>, owner: Owner) {
    exists r | r in redemptions :: r.owner == owner && !r.cancelled
  }

  /** Cancel the live redemptions that meet a condition. */
  function CancelWhere(redemptions: seq<Redemption>, which: Redemption -> bool): seq<Redemption> {
    seq(|redemptions|, i requires 0 <= i < |redemptions| =>
      if which(redemptions[i]) then redemptions[i].(cancelled := true) else redemptions[i])
  }

  function OfSale(sale: Id): Redemption -> bool {
    (r: Redemption) => r.owner == Sale(sale)
  }

  /** The session's redemptions, of one coupon if its code is known. */
  function OfSession(session: Id, code: Option<string>): Redemption -> bool {
    (r: Redemption) => r.owner == Session(session) && (code.Some? ==> r.coupon == code.value)
  }
}
