/** How much a coupon takes off an open bill, from which items, when it is refused, and what applying it records. */
module TableCouponLaws {
  import opened Billing
  import opened Ledger
  import opened MoneyLaws
  import opened Orders
  import Payments
  import PL = PaymentLaws
  import Q = QuoteLaws
  import opened Schema
  import Shares = Allocation
  import opened Sums
  import opened TableCoupons
  import opened Wrappers

  // ---- which item is free ----

  /** Item k of order i is on the owner's bill, and on the coupon's menus. */
  ghost predicate Offered(orders: seq<Order>, owner: Owner, targets: seq<Id>, i: int, k: int) {
    && 0 <= i < |orders| && orders[i].owner == owner && orders[i].status !in {Cancelled, Rejected}
    && 0 <= k < |orders[i].items| && orders[i].items[k].menu in targets
  }

  /** Nothing before it, in an earlier order or earlier in its own, is offered. */
  ghost predicate OfferedFirst(orders: seq<Order>, owner: Owner, targets: seq<Id>, i: int, k: int) {
    && Offered(orders, owner, targets, i, k)
    && forall j, l | Offered(orders, owner, targets, j, l) :: i < j || (i == j && k <= l)
  }

  /** The item asked for, or else the first one offered. */
  ghost predicate IsFree(orders: seq<Order>, owner: Owner, targets: seq<Id>, target: Option<Id>, i: int, k: int) {
    && Offered(orders, owner, targets, i, k)
    && if target.Some? then orders[i].items[k].id == target.value else OfferedFirst(orders, owner, targets, i, k)
  }

  function Candidates(orders: seq<Order>, owner: Owner, targets: seq<Id>): seq<Item> {
    Filter(BillItems(orders, owner), OnMenu(targets))
  }

  lemma CandidatesSplit(orders: seq<Order>, owner: Owner, targets: seq<Id>)
    requires orders != []
    ensures Candidates(orders, owner, targets)
         == Candidates(orders[..|orders| - 1], owner, targets) + Filter(ItemsOf(orders[|orders| - 1], owner), OnMenu(targets))
  {
    FilterConcat(BillItems(orders[..|orders| - 1], owner), ItemsOf(orders[|orders| - 1], owner), OnMenu(targets));
  }

  lemma {:induction false} CandidateIsOffered(orders: seq<Order>, owner: Owner, targets: seq<Id>, item: Item)
    returns (i: int, k: int)
    requires item in Candidates(orders, owner, targets)
    ensures Offered(orders, owner, targets, i, k) && orders[i].items[k] == item
  {
    var front, last := orders[..|orders| - 1], orders[|orders| - 1];
    CandidatesSplit(orders, owner, targets);
    if item in Candidates(front, owner, targets) {
      i, k := CandidateIsOffered(front, owner, targets, item);
    } else {
      FilterMember(ItemsOf(last, owner), OnMenu(targets), item);
      i := |orders| - 1;
      k :| 0 <= k < |last.items| && last.items[k] == item;
    }
  }

  lemma {:induction false} OfferedIsCandidate(orders: seq<Order>, owner: Owner, targets: seq<Id>, i: int, k: int)
    requires Offered(orders, owner, targets, i, k)
    ensures orders[i].items[k] in Candidates(orders, owner, targets)
  {
    CandidatesSplit(orders, owner, targets);
    if i < |orders| - 1 {
      OfferedIsCandidate(orders[..|orders| - 1], owner, targets, i, k);
    } else {
      FilterMember(ItemsOf(orders[i], owner), OnMenu(targets), orders[i].items[k]);
    }
  }

  lemma {:induction false} FirstOfFilter<T>(s: seq<T>, p: T -> bool) returns (k: nat)
    requires Filter(s, p) != []
    ensures k < |s| && s[k] == Filter(s, p)[0] && p(s[k])
    ensures forall l | 0 <= l < k :: !p(s[l])
  {
    var front := s[..|s| - 1];
    if Filter(front, p) != [] {
      k := FirstOfFilter(front, p);
    } else {
      k := |s| - 1;
      forall l | 0 <= l < k ensures !p(s[l]) {
        FilterMember(front, p, front[l]);
      }
    }
  }

  lemma {:induction false} FirstCandidate(orders: seq<Order>, owner: Owner, targets: seq<Id>) returns (i: int, k: int)
    requires Candidates(orders, owner, targets) != []
    ensures OfferedFirst(orders, owner, targets, i, k)
    ensures orders[i].items[k] == Candidates(orders, owner, targets)[0]
  {
    var front, last := orders[..|orders| - 1], orders[|orders| - 1];
    CandidatesSplit(orders, owner, targets);
    if Candidates(front, owner, targets) != [] {
      i, k := FirstCandidate(front, owner, targets);
      forall j, l | Offered(orders, owner, targets, j, l) ensures i < j || (i == j && k <= l) {
        if j < |front| {
          assert Offered(front, owner, targets, j, l);
        }
      }
    } else {
      i := |orders| - 1;
      k := FirstOfFilter(ItemsOf(last, owner), OnMenu(targets));
      forall j, l | Offered(orders, owner, targets, j, l) ensures i == j && k <= l {
        if j < |front| {
          OfferedIsCandidate(front, owner, targets, j, l);
        }
      }
    }
  }

  lemma {:induction false} FindItemNone(items: seq<Item>, id: Id)
    requires FindItem(items, id).None?
    ensures forall item | item in items :: item.id != id
  {
    if items != [] {
      FindItemNone(items[..|items| - 1], id);
      assert items == items[..|items| - 1] + [items[|items| - 1]];
    }
  }

  /** The item the model picks is free in this sense. */
  lemma ChosenIsFree(orders: seq<Order>, owner: Owner, targets: seq<Id>, target: Option<Id>, remaining: int)
    returns (i: int, k: int)
    requires ItemDiscount(BillItems(orders, owner), targets, target, remaining).Ok?
    ensures IsFree(orders, owner, targets, target, i, k)
    ensures ItemDiscount(BillItems(orders, owner), targets, target, remaining).value
         == Preview(Min(orders[i].items[k].unitPrice, remaining), remaining, Some(orders[i].items[k].id))
  {
    var candidates := Candidates(orders, owner, targets);
    if target.Some? {
      Payments.FoundItem(candidates, target.value);
      i, k := CandidateIsOffered(orders, owner, targets, FindItem(candidates, target.value).value);
    } else {
      i, k := FirstCandidate(orders, owner, targets);
    }
  }

  lemma FreeIsAccepted(orders: seq<Order>, owner: Owner, targets: seq<Id>, target: Option<Id>, remaining: int, i: int, k: int)
    requires IsFree(orders, owner, targets, target, i, k)
    ensures ItemDiscount(BillItems(orders, owner), targets, target, remaining).Ok?
  {
    OfferedIsCandidate(orders, owner, targets, i, k);
    var candidates := Candidates(orders, owner, targets);
    if target.Some? && FindItem(candidates, target.value).None? {
      FindItemNone(candidates, target.value);
      assert false;
    }
  }

  lemma FreeIsUnique(orders: seq<Order>, owner: Owner, targets: seq<Id>, target: Option<Id>, i: int, k: int, j: int, l: int)
    requires OrdersDistinct(orders)
    requires IsFree(orders, owner, targets, target, i, k) && IsFree(orders, owner, targets, target, j, l)
    ensures i == j && k == l
  {
    if target.Some? {
      SameItem(orders, i, k, j, l);
    }
  }

  lemma SameItem(orders: seq<Order>, i: int, k: int, j: int, l: int)
    requires OrdersDistinct(orders) && 0 <= i < |orders| && 0 <= j < |orders|
    requires 0 <= k < |orders[i].items| && 0 <= l < |orders[j].items| && orders[i].items[k].id == orders[j].items[l].id
    ensures i == j && k == l
  {
    assert orders[i].items[k] in orders[i].items && orders[j].items[l] in orders[j].items;
    assert i < j ==> Disjoint(orders[i], orders[j]);
    assert j < i ==> Disjoint(orders[j], orders[i]);
    assert DistinctItems(orders[i].items);
  }

  // ---- what a coupon takes ----

  /** An amount, or one base price of the free item; never more than is owed. */
  ghost predicate Takes(db: Db, session: Id, benefit: Benefit, target: Option<Id>, p: Preview) {
    var owed := Remaining(db, Session(session));
    && p.remainingBefore == owed
    && match benefit
       case AmountOff(amount) => p.target == None && p.discount == Min(amount, owed)
       case FreeItem(targets) =>
         exists i, k :: IsFree(db.orders, Session(session), targets, target, i, k)
           && p.target == Some(db.orders[i].items[k].id) && p.discount == Min(db.orders[i].items[k].unitPrice, owed)
  }

  /** The coupon can be redeemed, the bill carries no other, and something is owed. */
  ghost predicate MayRedeem(db: Db, session: Id, code: string, now: int) {
    && Q.Redeemable(db, code, now)
    && (forall r | r in db.redemptions && r.owner == Session(session) :: r.cancelled)
    && Remaining(db, Session(session)) > 0
  }

  /** The benefit is worth at least one won on this bill. */
  ghost predicate WorthSomething(db: Db, session: Id, benefit: Benefit, target: Option<Id>) {
    match benefit
    case AmountOff(amount) => amount > 0
    case FreeItem(targets) =>
      exists i, k :: IsFree(db.orders, Session(session), targets, target, i, k) && db.orders[i].items[k].unitPrice > 0
  }

  /** An accepted coupon takes its amount or the base price of the free item, and the preview names that item. */
  lemma ResolveTakes(db: Db, session: Id, code: string, target: Option<Id>, now: int)
    requires Resolve(db, session, code, target, now).Ok?
    ensures MayRedeem(db, session, code, now)
    ensures var p := Resolve(db, session, code, target, now).value;
            p.discount > 0 && Takes(db, session, db.coupons[code].benefit, target, p)
  {
    AxesPartition(db, Session(session));
    Q.RedeemableExactly(db, code, now);
    if db.coupons[code].benefit.FreeItem? {
      var i, k := ChosenIsFree(db.orders, Session(session), db.coupons[code].benefit.targets, target,
                               Remaining(db, Session(session)));
    }
  }

  /** Refused for these reasons and no other. */
  lemma ResolveAccepts(db: Db, session: Id, code: string, target: Option<Id>, now: int)
    requires OrdersDistinct(db.orders)
    ensures Resolve(db, session, code, target, now).Ok?
        <==> MayRedeem(db, session, code, now) && WorthSomething(db, session, db.coupons[code].benefit, target)
  {
    AxesPartition(db, Session(session));
    Q.RedeemableExactly(db, code, now);
    if MayRedeem(db, session, code, now) && db.coupons[code].benefit.FreeItem? {
      FreeItemAccepts(db, session, db.coupons[code].benefit.targets, target, Remaining(db, Session(session)));
    }
  }

  lemma FreeItemAccepts(db: Db, session: Id, targets: seq<Id>, target: Option<Id>, owed: int)
    requires OrdersDistinct(db.orders) && owed > 0
    ensures var r := ItemDiscount(BillItems(db.orders, Session(session)), targets, target, owed);
            r.Ok? && r.value.discount > 0 <==> WorthSomething(db, session, FreeItem(targets), target)
  {
    var owner := Session(session);
    var r := ItemDiscount(BillItems(db.orders, owner), targets, target, owed);
    if WorthSomething(db, session, FreeItem(targets), target) {
      var i, k :| IsFree(db.orders, owner, targets, target, i, k) && db.orders[i].items[k].unitPrice > 0;
      FreeIsAccepted(db.orders, owner, targets, target, owed, i, k);
      var j, l := ChosenIsFree(db.orders, owner, targets, target, owed);
      FreeIsUnique(db.orders, owner, targets, target, i, k, j, l);
    } else if r.Ok? {
      var j, l := ChosenIsFree(db.orders, owner, targets, target, owed);
    }
  }

  // ---- what applying it records ----

  /** On the free item alone, or what the allocation gives to each item of the bill, zeros left out. */
  ghost predicate PutOn(db: Db, session: Id, p: Preview, rows: seq<Allocation>) {
    && Sum(rows, Payments.RowAmount) == p.discount
    && (forall a | a in rows :: a.quantity == 0)
    && if p.target.Some? then rows == [Allocation(p.target.value, 0, p.discount)]
       else
         var shares := Shares.Allocate(p.discount, LinesOf(BillItems(db.orders, Session(session))));
         && shares.Shares?
         && (forall a | a in rows :: a.amount > 0 && Shares.Line(a.item, a.amount) in shares.shares)
         && (forall share | share in shares.shares && share.amount > 0 :: Allocation(share.key, 0, share.amount) in rows)
  }

  lemma {:induction false} PositiveRowsAre(rows: seq<Shares.Line>)
    ensures forall a :: a in PositiveRows(rows) <==> a.quantity == 0 && a.amount > 0 && Shares.Line(a.item, a.amount) in rows
  {
    if rows != [] {
      var front, last := rows[..|rows| - 1], rows[|rows| - 1];
      PositiveRowsAre(front);
      assert rows == front + [last];
    }
  }

  lemma SpreadIsPutOn(db: Db, session: Id, code: string, target: Option<Id>, at: int)
    requires IsLedger(db.payments) && PL.AllPriced(db.orders) && Resolve(db, session, code, target, at).Ok?
    ensures var p := Resolve(db, session, code, target, at).value;
            var rows := Spread(BillItems(db.orders, Session(session)), p);
            rows.Some? && PutOn(db, session, p, rows.value)
  {
    PL.LinesNonneg(db.orders);
    ResolvedIsSpread(db, session, code, target, at);
    var p := Resolve(db, session, code, target, at).value;
    if p.target.None? {
      PositiveRowsAre(Shares.Allocate(p.discount, LinesOf(BillItems(db.orders, Session(session)))).shares);
    }
  }

  /** Applying is checking, spreading and redeeming, and with what was resolved the spreading never fails. */
  lemma ApplyRedeems(db: Db, session: Id, code: string, target: Option<Id>, text: string, at: int)
    requires IsLedger(db.payments) && PL.AllPriced(db.orders)
    ensures ApplyCoupon(db, session, code, target, text, at).Ok? ==> Resolve(db, session, code, target, at).Ok?
    ensures Payments.PaymentRefusal(db, session).None? && Resolve(db, session, code, target, at).Ok? ==>
              var p := Resolve(db, session, code, target, at).value;
              var rows := Spread(BillItems(db.orders, Session(session)), p);
              && rows.Some? && PutOn(db, session, p, rows.value)
              && ApplyCoupon(db, session, code, target, text, at) == Redeem(db, session, code, p, text, at, rows.value)
    ensures Payments.PaymentRefusal(db, session).Some? ==> ApplyCoupon(db, session, code, target, text, at).Err?
  {
    if Resolve(db, session, code, target, at).Ok? {
      SpreadIsPutOn(db, session, code, target, at);
    }
  }

  /** What redeeming writes: the used coupon, its redemption, one discount row; every other row stays. */
  ghost predicate Writes(db: Db, after: Db, session: Id, code: string, p: Preview, text: string, at: int, row: Payment) {
    && code in db.coupons
    && after == db.(next := db.next + 1, payments := db.payments + [row],
                    coupons := db.coupons[code := db.coupons[code].(status := Used)],
                    redemptions := db.redemptions
                      + [Redemption(code, Session(session), Remaining(db, Session(session)), p.discount, false)])
    && row == Payment(db.next, Session(session), Discount, "COUPON", p.discount, None, None, None, Some(code),
                      Scoped(session, CouponUse(text)), at, row.allocations)
  }

  lemma RedeemWrites(db: Db, session: Id, code: string, p: Preview, text: string, at: int, rows: seq<Allocation>)
    requires p.remainingBefore == Remaining(db, Session(session))
    ensures Redeem(db, session, code, p, text, at, rows).Ok?
        <==> && code in db.coupons && db.coupons[code].status == Unused
             && (forall row | row in db.payments :: row.key != Scoped(session, CouponUse(text)))
             && (forall r | r in db.redemptions :: r.coupon != code)
    ensures var r := Redeem(db, session, code, p, text, at, rows);
            r.Ok? ==> Writes(db, r.value, session, code, p, text, at, DiscountRow(db, session, code, p, text, at, rows))
  {
  }

  /**
   The coupon is used, its redemption notes what was owed, and one discount row names it. The money goes on
   the free item alone, or in proportion over the bill.
   */
  lemma ApplyRecords(db: Db, session: Id, code: string, target: Option<Id>, text: string, at: int)
    returns (p: Preview, row: Payment)
    requires IsLedger(db.payments) && PL.AllPriced(db.orders)
    requires ApplyCoupon(db, session, code, target, text, at).Ok?
    ensures MayRedeem(db, session, code, at) && p.discount > 0 && Takes(db, session, db.coupons[code].benefit, target, p)
    ensures Writes(db, AfterApply(db, session, code, target, text, at), session, code, p, text, at, row)
    ensures PutOn(db, session, p, row.allocations)
  {
    ApplyRedeems(db, session, code, target, text, at);
    ResolveTakes(db, session, code, target, at);
    p := Resolve(db, session, code, target, at).value;
    var rows := Spread(BillItems(db.orders, Session(session)), p).value;
    row := DiscountRow(db, session, code, p, text, at, rows);
    RedeemWrites(db, session, code, p, text, at, rows);
  }

  /** Applied exactly if payments are allowed, the coupon is acceptable, and it and the client's key are new. */
  lemma ApplyAccepts(db: Db, session: Id, code: string, target: Option<Id>, text: string, at: int)
    requires IsLedger(db.payments) && PL.AllPriced(db.orders) && OrdersDistinct(db.orders)
    ensures ApplyCoupon(db, session, code, target, text, at).Ok?
        <==> && PaymentsAllowed(db, session)
             && MayRedeem(db, session, code, at) && WorthSomething(db, session, db.coupons[code].benefit, target)
             && (forall row | row in db.payments :: row.key != Scoped(session, CouponUse(text)))
             && (forall r | r in db.redemptions :: r.coupon != code)
  {
    ApplyRedeems(db, session, code, target, text, at);
    ResolveAccepts(db, session, code, target, at);
    AllowedExactly(db, session);
    if PaymentsAllowed(db, session) && Resolve(db, session, code, target, at).Ok? {
      ResolveTakes(db, session, code, target, at);
      var p := Resolve(db, session, code, target, at).value;
      RedeemWrites(db, session, code, p, text, at, Spread(BillItems(db.orders, Session(session)), p).value);
    }
  }

  lemma AllowedExactly(db: Db, session: Id)
    ensures Payments.PaymentRefusal(db, session).None? <==> PaymentsAllowed(db, session)
  {
  }
}
