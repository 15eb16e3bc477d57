/** A coupon on an open table bill, and taking its redemption back (server/src/services/tableCoupon.ts). */
module TableCoupons {
  import opened Billing
  import opened Coupons
  import opened Ledger
  import Payments
  import opened Schema
  import Shares = Allocation
  import opened Sums
  import opened Wrappers

  datatype ApplyError =
    | PaymentRefused(cause: Payments.PaymentError)
    | CouponRefused(reason: CouponError)
    | NotAllocatable
    | KeyInUse

  /** What a coupon would do to the bill now. */
  datatype Preview = Preview(discount: int, remainingBefore: int, target: Option<Id>)

  // ---- what the coupon may be spread over ----

  function ItemsOf(order: Order, owner: Owner): seq<Item> {
    if order.owner == owner && IsCounted(order) then order.items else []
  }

  /** Items of the orders that count. Cancelled items are included. */
  function BillItems(orders: seq<Order>, owner: Owner): seq<Item> {
    if orders == [] then []
    else BillItems(orders[..|orders| - 1], owner) + ItemsOf(orders[|orders| - 1], owner)
  }

  function OnMenu(targets: seq<Id>): Item -> bool {
    (item: Item) => item.menu in targets
  }

  function LinesOf(items: seq<Item>): seq<Shares.Line> {
    seq(|items|, i requires 0 <= i < |items| => Shares.Line(items[i].id, Line(items[i])))
  }

  // ---- preview ----

  function ItemDiscount(items: seq<Item>, targets: seq<Id>, target: Option<Id>, remaining: int): Result<Preview, CouponError> {
    var candidates := Filter(items, OnMenu(targets));
    if candidates == [] then Err(TargetMissing)
    else
      var chosen := if target.Some? then FindItem(candidates, target.value) else Some(candidates[0]);
      if chosen.None? then Err(TargetInvalid)
      else Ok(Preview(Min(chosen.value.unitPrice, remaining), remaining, Some(chosen.value.id)))
  }

  function Resolve(db: Db, session: Id, code: string, target: Option<Id>, now: int): Result<Preview, CouponError> {
    if code !in db.coupons then Err(NotFound)
    else if StateOf(db.coupons[code], now) != Redeemable then Err(NotRedeemable(StateOf(db.coupons[code], now)))
    else if HasLive(db.redemptions, Session(session)) then Err(AlreadyApplied)
    else
      var remaining := Max(BillOf(db, Session(session)).remainingAmount, 0);
      if remaining <= 0 then Err(NoEffect)
      else
        var preview :=
          match db.coupons[code].benefit
          case AmountOff(amount) => Ok(Preview(Min(amount, remaining), remaining, None))
          case FreeItem(targets) => ItemDiscount(BillItems(db.orders, Session(session)), targets, target, remaining);
        if preview.Ok? && preview.value.discount <= 0 then Err(NoEffect) else preview
  }

  /** The allocation rows of a discount: the target alone, or every item in proportion. They cover no quantity. */
  function Spread(items: seq<Item>, preview: Preview): Option<seq<Allocation>> {
    if preview.target.Some? then Some([Allocation(preview.target.value, 0, preview.discount)])
    else
      match Shares.Allocate(preview.discount, LinesOf(items))
      case Refused(_) => None
      case Shares(rows) => Some(PositiveRows(rows))
  }

  function PositiveRows(rows: seq<Shares.Line>): seq<Allocation> {
    if rows == [] then []
    else
      var last := rows[|rows| - 1];
      PositiveRows(rows[..|rows| - 1]) + if last.amount > 0 then [Allocation(last.key, 0, last.amount)] else []
  }

  // ---- apply ----

  function DiscountRow(db: Db, session: Id, code: string, preview: Preview, text: string, at: int,
                       allocations: seq<Allocation>): Payment {
    Payment(db.next, Session(session), Discount, COUPON_DISCOUNT_METHOD, preview.discount, None, None, None, Some(code),
            Scoped(session, CouponUse(text)), at, allocations)
  }

  /** Use the coupon up and write discount and redemption together; the unique columns can refuse. */
  function Redeem(db: Db, session: Id, code: string, preview: Preview, text: string, at: int, rows: seq<Allocation>)
    : Result<Db, ApplyError>
  {
    if !Consumable(db, code) then Err(CouponRefused(AlreadyUsed))
    else if KeyTaken(db.payments, Scoped(session, CouponUse(text))) || Redeemed(db.redemptions, code) then Err(KeyInUse)
    else
      Ok(db.(next := db.next + 1,
             coupons := Consumed(db.coupons, code),
             payments := db.payments + [DiscountRow(db, session, code, preview, text, at, rows)],
             redemptions := db.redemptions
               + [Redemption(code, Session(session), preview.remainingBefore, preview.discount, false)]))
  }

  function ApplyCoupon(db: Db, session: Id, code: string, target: Option<Id>, text: string, at: int): Result<Db, ApplyError> {
    var refusal := Payments.PaymentRefusal(db, session);
    if refusal.Some? then Err(PaymentRefused(refusal.value))
    else
      var resolved := Resolve(db, session, code, target, at);
      if resolved.Err? then Err(CouponRefused(resolved.error))
      else
        var rows := Spread(BillItems(db.orders, Session(session)), resolved.value);
        if rows.None? then Err(NotAllocatable)
        else Redeem(db, session, code, resolved.value, text, at, rows.value)
  }

  function AfterApply(db: Db, session: Id, code: string, target: Option<Id>, text: string, at: int): Db {
    var r := ApplyCoupon(db, session, code, target, text, at);
    if r.Ok? then r.value else db
  }

  method ResolveTableCoupon(db: Database, session: Id, code: string, target: Option<Id>, now: int)
    returns (r: Result<Preview, CouponError>)
    ensures r == Resolve(db.View(), session, code, target, now)
  {
    if code !in db.coupons {
      return Err(NotFound);
    }
    var coupon := db.coupons[code];
    var state := StateOf(coupon, now);
    if state != Redeemable {
      return Err(NotRedeemable(state));
    }
    if HasLive(db.redemptions, Session(session)) {
      return Err(AlreadyApplied);
    }
    var bill := ComputeBill(db, session);
    var remaining := Max(bill.remainingAmount, 0);
    if remaining <= 0 {
      return Err(NoEffect);
    }
    var discount: int;
    var targetItemId: Option<Id> := None;
    match coupon.benefit {
      case AmountOff(amount) =>
        discount := Min(amount, remaining);
      case FreeItem(targets) =>
        var items := BillItems(db.orders, Session(session));
        var candidates := Filter(items, OnMenu(targets));
        if |candidates| == 0 {
          return Err(TargetMissing);
        }
        var chosen := if target.Some? then FindItem(candidates, target.value) else Some(candidates[0]);
        if chosen.None? {
          return Err(TargetInvalid);
        }
        discount := Min(chosen.value.unitPrice, remaining);
        targetItemId := Some(chosen.value.id);
    }
    if discount <= 0 {
      return Err(NoEffect);
    }
    r := Ok(Preview(discount, remaining, targetItemId));
  }

  /** The proportional rows, by the in-place allocation. */
  method SpreadRows(items: seq<Item>, preview: Preview) returns (rows: Option<seq<Allocation>>)
    requires forall item | item in items :: Line(item) >= 0
    ensures rows == Spread(items, preview)
  {
    if preview.target.Some? {
      return Some([Allocation(preview.target.value, 0, preview.discount)]);
    }
    var split, visits, broke := Shares.AllocateProportional(preview.discount, LinesOf(items));
    if split.Refused? {
      return None;
    }
    rows := Some(PositiveRows(split.shares));
  }

  method ApplyTableCouponTx(db: Database, session: Id, code: string, target: Option<Id>, text: string, at: int)
    returns (r: Result<(), ApplyError>)
    requires forall o, item | o in db.orders && item in o.items :: Line(item) >= 0
    modifies db
    ensures db.View() == AfterApply(old(db.View()), session, code, target, text, at)
    ensures match ApplyCoupon(old(db.View()), session, code, target, text, at)
            case Ok(_) => r == Ok(())
            case Err(e) => r == Err(e)
  {
    var refusal := Payments.PaymentRefusal(db.View(), session);
    if refusal.Some? {
      return Err(PaymentRefused(refusal.value));
    }
    var resolved := ResolveTableCoupon(db, session, code, target, at);
    if resolved.Err? {
      return Err(CouponRefused(resolved.error));
    }
    var items := BillItems(db.orders, Session(session));
    BillItemsMembers(db.orders, Session(session));
    var rows := SpreadRows(items, resolved.value);
    if rows.None? {
      return Err(NotAllocatable);
    }
    r := RedeemRows(db, session, code, resolved.value, text, at, rows.value);
  }

  method RedeemRows(db: Database, session: Id, code: string, preview: Preview, text: string, at: int,
                    rows: seq<Allocation>) returns (r: Result<(), ApplyError>)
    modifies db
    ensures match Redeem(old(db.View()), session, code, preview, text, at, rows)
            case Ok(after) => r == Ok(()) && db.View() == after
            case Err(e) => r == Err(e) && db.View() == old(db.View())
  {
    if !Consumable(db.View(), code) {
      return Err(CouponRefused(AlreadyUsed));
    }
    var row := DiscountRow(db.View(), session, code, preview, text, at, rows);
    if KeyTaken(db.payments, row.key) || Redeemed(db.redemptions, code) {
      return Err(KeyInUse);
    }
    db.coupons := Consumed(db.coupons, code);
    db.payments := db.payments + [row];
    db.redemptions := db.redemptions
      + [Redemption(code, Session(session), preview.remainingBefore, preview.discount, false)];
    db.next := db.next + 1;
    r := Ok(());
  }

  lemma {:induction false} BillItemsMembers(orders: seq<Order>, owner: Owner)
    ensures forall item | item in BillItems(orders, owner) :: exists o | o in orders :: o.owner == owner && item in o.items
  {
    if orders != [] {
      BillItemsMembers(orders[..|orders| - 1], owner);
      assert orders == orders[..|orders| - 1] + [orders[|orders| - 1]];
    }
  }

  // ---- taking it back ----

  function DropRedemption(db: Db, session: Id, code: Option<string>): Db {
    db.(redemptions := CancelWhere(db.redemptions, OfSession(session, code)))
  }

  /** A step of its own, after the reversal committed. The code comes from the reversed row's reason. */
  method CancelTableCouponRedemption(db: Database, session: Id, code: Option<string>)
    modifies db
    ensures db.View() == DropRedemption(old(db.View()), session, code)
  {
    db.redemptions := CancelWhere(db.redemptions, OfSession(session, code));
  }

  // ---- the discount is well founded ----

  /** Full value of the bill's items: at least what is still counted. */
  lemma {:induction false} BillItemsCover(orders: seq<Order>, owner: Owner)
    requires forall o, item | o in orders && item in o.items :: Line(item) >= 0
    ensures Sum(BillItems(orders, owner), Line) >= OrderTotal(orders, owner)
  {
    if orders != [] {
      var front, last := orders[..|orders| - 1], orders[|orders| - 1];
      BillItemsCover(front, owner);
      SumConcat(BillItems(front, owner), ItemsOf(last, owner), Line);
      forall item | item in last.items ensures LiveLine(item) <= Line(item) {
        assert last in orders;
      }
      SumLeq(last.items, LiveLine, Line);
    }
  }

  /** Rows of positive shares add up to the shares, and cover no quantity. */
  lemma {:induction false} PositiveRowsTotal(rows: seq<Shares.Line>)
    requires forall i | 0 <= i < |rows| :: rows[i].amount >= 0
    ensures Sum(PositiveRows(rows), Payments.RowAmount) == Sum(rows, Shares.AmountOf)
    ensures forall a | a in PositiveRows(rows) ::
              a.quantity == 0 && a.amount > 0 && exists i | 0 <= i < |rows| :: rows[i].key == a.item
  {
    if rows != [] {
      var front, last := rows[..|rows| - 1], rows[|rows| - 1];
      PositiveRowsTotal(front);
      assert forall i | 0 <= i < |front| :: front[i] == rows[i];
      if last.amount > 0 {
        SumAppend(PositiveRows(front), Allocation(last.key, 0, last.amount), Payments.RowAmount);
      } else {
        assert PositiveRows(rows) == PositiveRows(front);
      }
    }
  }

  lemma LinesTotal(items: seq<Item>)
    ensures Shares.Grand(LinesOf(items)) == Sum(items, Line)
  {
    SumPointwise(LinesOf(items), items, Shares.AmountOf, Line);
  }

  /**
   On a real ledger an accepted coupon takes between one won and what is still owed, is always
   allocatable, and its rows carry exactly the discount.
   */
  lemma ResolvedIsSpread(db: Db, session: Id, code: string, target: Option<Id>, now: int)
    requires IsLedger(db.payments)
    requires forall o, item | o in db.orders && item in o.items :: Line(item) >= 0
    requires Resolve(db, session, code, target, now).Ok?
    ensures var p := Resolve(db, session, code, target, now).value;
            0 < p.discount <= p.remainingBefore && p.remainingBefore == Remaining(db, Session(session))
    ensures var p := Resolve(db, session, code, target, now).value;
            var rows := Spread(BillItems(db.orders, Session(session)), p);
            && rows.Some? && Sum(rows.value, Payments.RowAmount) == p.discount
            && (forall a | a in rows.value ::
                  a.quantity == 0 && exists item | item in BillItems(db.orders, Session(session)) :: item.id == a.item)
  {
    var p := Resolve(db, session, code, target, now).value;
    var items := BillItems(db.orders, Session(session));
    AxesPartition(db, Session(session));
    if p.target.None? {
      BillItemsMembers(db.orders, Session(session));
      BillItemsCover(db.orders, Session(session));
      PaidIsStanding(db.payments, Session(session));
      LinesTotal(items);
      AllocatableRows(items, p.discount);
    } else {
      var targets := db.coupons[code].benefit.targets;
      TargetIsOnBill(items, targets, target);
      assert Sum([Allocation(p.target.value, 0, p.discount)], Payments.RowAmount) == p.discount by {
        SumAppend([], Allocation(p.target.value, 0, p.discount), Payments.RowAmount);
        assert [] + [Allocation(p.target.value, 0, p.discount)] == [Allocation(p.target.value, 0, p.discount)];
      }
    }
  }

  lemma AllocatableRows(items: seq<Item>, discount: int)
    requires forall item | item in items :: Line(item) >= 0
    requires 0 < discount <= Shares.Grand(LinesOf(items))
    ensures Shares.Allocate(discount, LinesOf(items)).Shares?
    ensures var rows := PositiveRows(Shares.Allocate(discount, LinesOf(items)).shares);
            && Sum(rows, Payments.RowAmount) == discount
            && (forall a | a in rows :: a.quantity == 0 && exists item | item in items :: item.id == a.item)
  {
    var lines := LinesOf(items);
    Shares.AllocateExact(discount, lines);
    var shares := Shares.Allocate(discount, lines).shares;
    forall i | 0 <= i < |lines| ensures shares[i].amount >= 0 && shares[i].key == items[i].id {
      Shares.AllocateBounds(discount, lines, i);
    }
    assert |shares| == |lines|;
    PositiveRowsTotal(shares);
    forall a | a in PositiveRows(shares) ensures exists item | item in items :: item.id == a.item {
      var i :| 0 <= i < |shares| && shares[i].key == a.item;
      assert items[i] in items;
    }
  }

  lemma TargetIsOnBill(items: seq<Item>, targets: seq<Id>, target: Option<Id>)
    ensures var candidates := Filter(items, OnMenu(targets));
            var chosen := if target.Some? then FindItem(candidates, target.value)
                          else if candidates == [] then None else Some(candidates[0]);
            chosen.Some? ==> exists item | item in items :: item.id == chosen.value.id
  {
    var candidates := Filter(items, OnMenu(targets));
    forall item | item in candidates ensures item in items {
      FilterMember(items, OnMenu(targets), item);
    }
    if target.Some? && FindItem(candidates, target.value).Some? {
      Payments.FoundItem(candidates, target.value);
    }
  }
}
