/** How much a coupon takes off a counter sale, from which lines, and when it is refused. */
module QuoteLaws {
  import opened CounterSales
  import opened Coupons
  import opened Orders
  import opened Schema
  import Shares = Allocation
  import opened Sums
  import opened Wrappers

  /** Issued, unused, and not past its last instant. */
  predicate Redeemable(db: Db, code: string, now: int) {
    && code in db.coupons && db.coupons[code].status == Unused
    && (db.coupons[code].expiresAt.Some? ==> now < db.coupons[code].expiresAt.value)
  }

  lemma RedeemableExactly(db: Db, code: string, now: int)
    ensures Redeemable(db, code, now) <==> code in db.coupons && StateOf(db.coupons[code], now) == CouponState.Redeemable
  {
  }

  /** A coupon never becomes redeemable again by the passing of time. */
  lemma LapsedForGood(c: Coupon, now: int, later: int)
    requires now <= later && StateOf(c, now) != CouponState.Redeemable
    ensures StateOf(c, later) == StateOf(c, now)
  {
  }

  lemma {:induction false} CandidatesExactly(lines: seq<OrderLine>, targets: seq<Id>)
    ensures forall k: nat :: k in Candidates(lines, targets) <==> k < |lines| && lines[k].menu in targets
    ensures forall i, j | 0 <= i < j < |Candidates(lines, targets)| :: Candidates(lines, targets)[i] < Candidates(lines, targets)[j]
  {
    if lines != [] {
      var n := |lines| - 1;
      CandidatesExactly(lines[..n], targets);
      forall k: nat ensures k in Candidates(lines, targets) <==> k < |lines| && lines[k].menu in targets {
        if k < n {
          assert lines[..n][k] == lines[k];
        }
      }
    }
  }

  /** The line asked for, or else the first one on the coupon's menus. */
  ghost predicate IsChosen(lines: seq<OrderLine>, targets: seq<Id>, target: Option<nat>, k: nat) {
    && k < |lines| && lines[k].menu in targets
    && if target.Some? then k == target.value else forall j | 0 <= j < k :: lines[j].menu !in targets
  }

  lemma FirstCandidate(lines: seq<OrderLine>, targets: seq<Id>)
    requires Candidates(lines, targets) != []
    ensures IsChosen(lines, targets, None, Candidates(lines, targets)[0])
  {
    CandidatesExactly(lines, targets);
    var c := Candidates(lines, targets);
    assert forall i | 0 <= i < |c| :: c[0] <= c[i];
    assert forall j | 0 <= j < c[0] :: j !in c;
  }

  /** What the benefit is worth on the cart, and on which line. */
  ghost predicate Worth(benefit: Benefit, lines: seq<OrderLine>, target: Option<nat>, discount: int, line: Option<nat>) {
    match benefit
    case AmountOff(amount) => line == None && discount == Min(amount, Subtotal(lines))
    case FreeItem(targets) =>
      line.Some? && IsChosen(lines, targets, target, line.value) && discount == Min(lines[line.value].unitPrice, Subtotal(lines))
  }

  lemma BenefitWorth(benefit: Benefit, lines: seq<OrderLine>, target: Option<nat>)
    ensures var r := ComputeCouponDiscount(benefit, lines, Subtotal(lines), target);
            && (r.Ok? ==> r.value.discount > 0 && Worth(benefit, lines, target, r.value.discount, r.value.targetLine))
            && (r.Ok? <==> exists discount: int, line: Option<nat> :: Worth(benefit, lines, target, discount, line) && discount > 0)
  {
    var r := ComputeCouponDiscount(benefit, lines, Subtotal(lines), target);
    match benefit {
      case AmountOff(amount) =>
        if r.Err? {
          forall discount: int, line: Option<nat> | Worth(benefit, lines, target, discount, line) ensures discount <= 0 {
          }
        } else {
          assert Worth(benefit, lines, target, r.value.discount, r.value.targetLine);
        }
      case FreeItem(targets) => ItemWorth(targets, lines, target);
    }
  }

  lemma ItemWorth(targets: seq<Id>, lines: seq<OrderLine>, target: Option<nat>)
    ensures var benefit := FreeItem(targets); var r := ComputeCouponDiscount(benefit, lines, Subtotal(lines), target);
            && (r.Ok? ==> r.value.discount > 0 && Worth(benefit, lines, target, r.value.discount, r.value.targetLine))
            && (r.Ok? <==> exists discount: int, line: Option<nat> :: Worth(benefit, lines, target, discount, line) && discount > 0)
  {
    var benefit := FreeItem(targets);
    var r := ComputeCouponDiscount(benefit, lines, Subtotal(lines), target);
    var c := Candidates(lines, targets);
    CandidatesExactly(lines, targets);
    if c != [] {
      FirstCandidate(lines, targets);
    }
    if r.Ok? {
      assert Worth(benefit, lines, target, r.value.discount, r.value.targetLine);
    } else {
      forall discount: int, line: Option<nat> | Worth(benefit, lines, target, discount, line) ensures discount <= 0 {
        assert line.value in c;
        if target.None? {
          assert c[0] == line.value by {
            assert lines[c[0]].menu in targets;
          }
        }
      }
    }
  }

  /** All of the discount on one line, or in proportion over all. */
  ghost predicate SpreadAs(q: Quote, line: Option<nat>) {
    && |q.discounts| == |q.lines|
    && if line.Some? then
         && line.value < |q.lines| && q.discounts[line.value] == q.discountAmount
         && forall i | 0 <= i < |q.lines| && i != line.value :: q.discounts[i] == 0
       else
         var shares := Shares.Allocate(q.discountAmount, KeyedLines(q.lines));
         && shares.Shares? && |shares.shares| == |q.lines|
         && forall i | 0 <= i < |q.lines| :: q.discounts[i] == shares.shares[i].amount
  }

  /**
   An accepted coupon takes its amount, or one base price of the chosen line, but no more than the subtotal,
   and takes it from all lines in proportion, or from the chosen line alone.
   */
  lemma QuoteTakes(db: Db, lines: seq<OrderLine>, code: string, target: Option<nat>, now: int)
    requires QuoteSale(db, lines, Some(code), target, now).Ok?
    ensures var q := QuoteSale(db, lines, Some(code), target, now).value;
            && Redeemable(db, code, now) && q.lines == lines && q.coupon.Some? && q.coupon.value.code == code
            && 0 < q.discountAmount == q.coupon.value.discount
            && q.subtotal == Subtotal(lines) && q.totalAmount == Subtotal(lines) - q.discountAmount
            && Worth(db.coupons[code].benefit, lines, target, q.discountAmount, q.coupon.value.targetLine)
            && SpreadAs(q, q.coupon.value.targetLine)
  {
    RedeemableExactly(db, code, now);
    var benefit := db.coupons[code].benefit;
    BenefitWorth(benefit, lines, target);
    var q := QuoteSale(db, lines, Some(code), target, now).value;
    if q.coupon.value.targetLine.None? {
      AllocationSize(q.discountAmount, KeyedLines(lines));
    }
  }

  lemma AllocationSize(total: int, lines: seq<Shares.Line>)
    requires total > 0 && Shares.Allocate(total, lines).Shares?
    ensures |Shares.Allocate(total, lines).shares| == |lines|
  {
  }

  /** A coupon is accepted exactly if it is redeemable and worth something on this cart. */
  lemma QuoteAccepts(db: Db, lines: seq<OrderLine>, code: string, target: Option<nat>, now: int)
    requires ValidLines(lines)
    ensures QuoteSale(db, lines, Some(code), target, now).Ok?
        <==> && Redeemable(db, code, now)
             && exists discount: int, line: Option<nat> :: Worth(db.coupons[code].benefit, lines, target, discount, line) && discount > 0
  {
    RedeemableExactly(db, code, now);
    QuoteNeverStuck(db, lines, Some(code), target, now);
    if code in db.coupons {
      BenefitWorth(db.coupons[code].benefit, lines, target);
    }
  }

  /** Without a coupon nothing comes off. */
  lemma QuoteWithoutCoupon(db: Db, lines: seq<OrderLine>, target: Option<nat>, now: int)
    ensures var r := QuoteSale(db, lines, None, target, now);
            && r.Ok? && r.value.lines == lines && r.value.coupon == None && r.value.discountAmount == 0
            && r.value.totalAmount == r.value.subtotal == Subtotal(lines)
            && |r.value.discounts| == |lines| && forall i | 0 <= i < |lines| :: r.value.discounts[i] == 0
  {
  }
}
