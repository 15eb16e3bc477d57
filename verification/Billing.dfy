/**
 What an owner owes and has paid, derived from order and payment rows every time
 (server/src/services/billing.ts).
 */
module Billing {
  import opened Ledger
  import opened Schema
  import opened Sums
  import opened Wrappers

  // ---- order side ----

  predicate IsCounted(order: Order) {
    order.status != Cancelled && order.status != Rejected
  }

  function NotCancelled(item: Item): bool {
    !item.cancelled
  }

  function LiveLine(item: Item): int {
    if item.cancelled then 0 else Line(item)
  }

  /** What one order adds to its owner's bill. */
  function OrderAmount(order: Order): int {
    if IsCounted(order) then Sum(order.items, LiveLine) else 0
  }

  /** What the order was worth when it was placed. */
  function FullAmount(order: Order): int {
    Sum(order.items, Line)
  }

  function AmountFrom(owner: Owner): Order -> int {
    (o: Order) => if o.owner == owner then OrderAmount(o) else 0
  }

  function FullFrom(owner: Owner): Order -> int {
    (o: Order) => if o.owner == owner then FullAmount(o) else 0
  }

  function OrderTotal(orders: seq<Order>, owner: Owner): int {
    Sum(orders, AmountFrom(owner))
  }

  function FullTotal(orders: seq<Order>, owner: Owner): int {
    Sum(orders, FullFrom(owner))
  }

  function Remaining(db: Db, owner: Owner): int {
    OrderTotal(db.orders, owner) - Paid(db.payments, owner)
  }

  // ---- payment side ----

  function OfOwner(owner: Owner): Payment -> bool {
    (p: Payment) => p.owner == owner
  }

  function PaymentsOf(rows: seq<Payment>, owner: Owner): seq<Payment> {
    Filter(rows, OfOwner(owner))
  }

  /** The row whose axis `p` moves: itself, or the original it takes back. */
  function Source(rows: seq<Payment>, p: Payment): Option<Payment> {
    if IsOriginal(p) then Some(p)
    else if p.reverses.Some? then FindPayment(rows, p.reverses.value)
    else None
  }

  predicate MovesDiscount(rows: seq<Payment>, p: Payment) {
    Source(rows, p).Some? && Source(rows, p).value.kind == Discount
  }

  predicate MovesCoupon(rows: seq<Payment>, p: Payment) {
    MovesDiscount(rows, p) && Source(rows, p).value.methodCode == COUPON_DISCOUNT_METHOD
  }

  function ChargeWeight(rows: seq<Payment>): Payment -> int {
    (p: Payment) => if MovesDiscount(rows, p) then 0 else p.amount
  }

  function DiscountWeight(rows: seq<Payment>): Payment -> int {
    (p: Payment) => if MovesDiscount(rows, p) then p.amount else 0
  }

  function CouponWeight(rows: seq<Payment>): Payment -> int {
    (p: Payment) => if MovesCoupon(rows, p) then p.amount else 0
  }

  function GrossWeight(p: Payment): int {
    if p.kind == Charge then p.amount else 0
  }

  function RefundWeight(rows: seq<Payment>): Payment -> int {
    (p: Payment) => if !IsOriginal(p) && !MovesDiscount(rows, p) then p.amount else 0
  }

  function Charged(rows: seq<Payment>): int {
    Sum(rows, Signed(ChargeWeight(rows)))
  }

  function Discounted(rows: seq<Payment>): int {
    Sum(rows, Signed(DiscountWeight(rows)))
  }

  function CouponDiscounted(rows: seq<Payment>): int {
    Sum(rows, Signed(CouponWeight(rows)))
  }

  datatype BillSummary = BillSummary(totalAmount: int, discountAmount: int, chargedAmount: int, paidAmount: int,
                                     remainingAmount: int)

  function BillOf(db: Db, owner: Owner): BillSummary {
    var rows := PaymentsOf(db.payments, owner);
    var total, charged, discount := OrderTotal(db.orders, owner), Charged(rows), Discounted(rows);
    BillSummary(total, discount, charged, charged + discount, total - (charged + discount))
  }

  datatype CounterSaleLedger = CounterSaleLedger(orderAmount: int, discountAmount: int, couponDiscountAmount: int,
                                                 grossChargedAmount: int, refundedAmount: int, netChargedAmount: int,
                                                 remainingAmount: int)

  function LedgerOf(db: Db, owner: Owner): CounterSaleLedger {
    var rows := PaymentsOf(db.payments, owner);
    var total, gross, refunded := OrderTotal(db.orders, owner), Sum(rows, GrossWeight), Sum(rows, RefundWeight(rows));
    CounterSaleLedger(total, Discounted(rows), CouponDiscounted(rows), gross, refunded, gross - refunded,
                      total - Discounted(rows) - (gross - refunded))
  }

  // ---- the loops ----

  function BillableOf(owner: Owner): Order -> bool {
    (o: Order) => o.owner == owner && IsCounted(o)
  }

  /** Both ledgers open with the same loop over the orders that count and their uncancelled items. */
  method TotalOrders(db: Database, owner: Owner) returns (totalAmount: int)
    ensures totalAmount == OrderTotal(db.orders, owner)
  {
    var orders := Filter(db.orders, BillableOf(owner));
    totalAmount := 0;
    for i := 0 to |orders|
      invariant totalAmount == Sum(orders[..i], OrderAmount)
    {
      SumPrefix(orders, i, OrderAmount);
      FilterMember(db.orders, BillableOf(owner), orders[i]);
      totalAmount := AddItems(totalAmount, orders[i]);
    }
    assert orders[..|orders|] == orders;
    SumFilter(db.orders, BillableOf(owner), OrderAmount, AmountFrom(owner));
  }

  method AddItems(start: int, order: Order) returns (totalAmount: int)
    requires IsCounted(order)
    ensures totalAmount == start + OrderAmount(order)
  {
    totalAmount := start;
    var items := Filter(order.items, NotCancelled);
    SumFilter(order.items, NotCancelled, Line, LiveLine);
    for k := 0 to |items|
      invariant totalAmount == start + Sum(items[..k], Line)
    {
      SumPrefix(items, k, Line);
      var amount := PriceLine(items[k]);
      totalAmount := totalAmount + amount;
    }
    assert items[..|items|] == items;
  }

  method PriceLine(item: Item) returns (amount: int)
    ensures amount == Line(item)
  {
    var optionsTotal := Sum(item.extras, Self);
    amount := (item.unitPrice + optionsTotal) * item.quantity;
  }

  method ComputeBill(db: Database, tableSessionId: Id) returns (bill: BillSummary)
    ensures bill == BillOf(db.View(), Session(tableSessionId))
  {
    var totalAmount := TotalOrders(db, Session(tableSessionId));
    var payments := PaymentsOf(db.payments, Session(tableSessionId));
    var chargedAmount, discountAmount := 0, 0;
    for i := 0 to |payments|
      invariant chargedAmount == Sum(payments[..i], Signed(ChargeWeight(payments)))
      invariant discountAmount == Sum(payments[..i], Signed(DiscountWeight(payments)))
    {
      SumPrefix(payments, i, Signed(ChargeWeight(payments)));
      SumPrefix(payments, i, Signed(DiscountWeight(payments)));
      var payment := payments[i];
      if payment.kind == Charge {
        chargedAmount := chargedAmount + payment.amount;
      } else if payment.kind == Discount {
        discountAmount := discountAmount + payment.amount;
      } else {
        var original := if payment.reverses.Some? then FindPayment(payments, payment.reverses.value) else None;
        if original.Some? && original.value.kind == Discount {
          discountAmount := discountAmount - payment.amount;
        } else {
          chargedAmount := chargedAmount - payment.amount;
        }
      }
    }
    assert payments[..|payments|] == payments;
    var paidAmount := chargedAmount + discountAmount;
    bill := BillSummary(totalAmount, discountAmount, chargedAmount, paidAmount, totalAmount - paidAmount);
  }

  method ComputeCounterSaleLedger(db: Database, counterSaleId: Id) returns (ledger: CounterSaleLedger)
    ensures ledger == LedgerOf(db.View(), Sale(counterSaleId))
  {
    var orderAmount := TotalOrders(db, Sale(counterSaleId));
    var payments := PaymentsOf(db.payments, Sale(counterSaleId));
    var gross, refunded, discountAmount, couponDiscountAmount := 0, 0, 0, 0;
    for i := 0 to |payments|
      invariant gross == Sum(payments[..i], GrossWeight)
      invariant refunded == Sum(payments[..i], RefundWeight(payments))
      invariant discountAmount == Sum(payments[..i], Signed(DiscountWeight(payments)))
      invariant couponDiscountAmount == Sum(payments[..i], Signed(CouponWeight(payments)))
    {
      SumPrefix(payments, i, GrossWeight);
      SumPrefix(payments, i, RefundWeight(payments));
      SumPrefix(payments, i, Signed(DiscountWeight(payments)));
      SumPrefix(payments, i, Signed(CouponWeight(payments)));
      var payment := payments[i];
      if payment.kind == Charge {
        gross := gross + payment.amount;
      } else if payment.kind == Discount {
        discountAmount := discountAmount + payment.amount;
        if payment.methodCode == COUPON_DISCOUNT_METHOD {
          couponDiscountAmount := couponDiscountAmount + payment.amount;
        }
      } else {
        var original := if payment.reverses.Some? then FindPayment(payments, payment.reverses.value) else None;
        if original.Some? && original.value.kind == Discount {
          discountAmount := discountAmount - payment.amount;
          if original.value.methodCode == COUPON_DISCOUNT_METHOD {
            couponDiscountAmount := couponDiscountAmount - payment.amount;
          }
        } else {
          refunded := refunded + payment.amount;
        }
      }
    }
    assert payments[..|payments|] == payments;
    ledger := CounterSaleLedger(orderAmount, discountAmount, couponDiscountAmount, gross, refunded, gross - refunded,
                                orderAmount - discountAmount - (gross - refunded));
  }

  datatype ItemPaymentStatus = ItemPaymentStatus(quantity: int, paidQuantity: int, remainingQuantity: int)

  /** Net quantity of the item over the allocation rows of the first `i` payments and `k` rows of the next. */
  method PaidByItem(payments: seq<Payment>, ids: set<Id>) returns (paidByItem: map<Id, int>)
    ensures forall id | id in ids ::
              (if id in paidByItem then paidByItem[id] else 0) == PaidQuantity(payments, id)
  {
    paidByItem := map[];
    for i := 0 to |payments|
      invariant forall id | id in ids ::
                  (if id in paidByItem then paidByItem[id] else 0) == PaidQuantity(payments[..i], id)
    {
      var payment := payments[i];
      var sign := if payment.kind == Charge || payment.kind == Discount then 1 else -1;
      ghost var before := paidByItem;
      for k := 0 to |payment.allocations|
        invariant forall id | id in ids ::
                    (if id in paidByItem then paidByItem[id] else 0)
                    == (if id in before then before[id] else 0) + sign * QuantityIn(payment.allocations[..k], id)
      {
        var row := payment.allocations[k];
        forall id | id in ids
          ensures QuantityIn(payment.allocations[..k + 1], id)
               == QuantityIn(payment.allocations[..k], id) + QuantityFor(id)(row)
        {
          SumPrefix(payment.allocations, k, QuantityFor(id));
        }
        if row.item in ids {
          var had := if row.item in paidByItem then paidByItem[row.item] else 0;
          paidByItem := paidByItem[row.item := had + sign * row.quantity];
        }
      }
      assert payment.allocations[..|payment.allocations|] == payment.allocations;
      forall id | id in ids
        ensures PaidQuantity(payments[..i + 1], id)
             == PaidQuantity(payments[..i], id) + sign * QuantityIn(payment.allocations, id)
      {
        SumPrefix(payments, i, Signed(QuantityOf(id)));
      }
    }
    assert payments[..|payments|] == payments;
  }

  /** Status of the requested items that exist. */
  method ComputeItemPaymentStatus(db: Database, items: seq<Item>) returns (status: map<Id, ItemPaymentStatus>)
    ensures forall id :: id in status <==> exists i | 0 <= i < |items| :: items[i].id == id
    ensures forall i | 0 <= i < |items| && (forall j | i < j < |items| :: items[j].id != items[i].id) ::
              status[items[i].id] == var paid := PaidQuantity(db.payments, items[i].id);
                                     ItemPaymentStatus(items[i].quantity, paid, items[i].quantity - paid)
  {
    var ids := set i | 0 <= i < |items| :: items[i].id;
    var paidByItem := PaidByItem(db.payments, ids);
    status := map[];
    for i := 0 to |items|
      invariant forall id :: id in status <==> exists k | 0 <= k < i :: items[k].id == id
      invariant forall k | 0 <= k < i && (forall j | k < j < i :: items[j].id != items[k].id) ::
                  status[items[k].id] == var paid := PaidQuantity(db.payments, items[k].id);
                                         ItemPaymentStatus(items[k].quantity, paid, items[k].quantity - paid)
    {
      assert items[i].id in ids;
      var paid := if items[i].id in paidByItem then paidByItem[items[i].id] else 0;
      status := status[items[i].id := ItemPaymentStatus(items[i].quantity, paid, items[i].quantity - paid)];
    }
  }

  // ---- what the folds mean ----

  lemma {:induction false} FindById(rows: seq<Payment>, p: Payment)
    requires IsLedger(rows) && p in rows
    ensures FindPayment(rows, p.id) == Some(p)
  {
    var last := rows[|rows| - 1];
    if last.id == p.id {
      SameRow(rows, last, p);
    } else {
      assert rows == rows[..|rows| - 1] + [last];
      FindById(rows[..|rows| - 1], p);
    }
  }

  lemma SymmetricAxes(rows: seq<Payment>)
    requires IsLedger(rows)
    ensures forall r, o | r in rows && o in rows && Reverses(r, o) :: Source(rows, r) == Source(rows, o) == Some(o)
    ensures Symmetric(rows, ChargeWeight(rows)) && Symmetric(rows, DiscountWeight(rows))
    ensures Symmetric(rows, CouponWeight(rows))
  {
    forall r, o | r in rows && o in rows && Reverses(r, o) ensures Source(rows, r) == Source(rows, o) == Some(o) {
      FindById(rows, o);
    }
  }

  lemma OwnLedger(rows: seq<Payment>, owner: Owner)
    requires IsLedger(rows)
    ensures IsLedger(PaymentsOf(rows, owner))
    ensures forall p | p in rows && p.owner == owner :: Stands(PaymentsOf(rows, owner), p) == Stands(rows, p)
  {
    FilterLedger(rows, OfOwner(owner));
    forall p | p in rows && p.owner == owner ensures Stands(PaymentsOf(rows, owner), p) == Stands(rows, p) {
      forall r | r in rows && r.reverses == Some(p.id) ensures r.owner == owner {
        ReversalOf(rows, r, p);
      }
      FilterStands(rows, OfOwner(owner), p);
    }
  }

  lemma ReversalOf(rows: seq<Payment>, r: Payment, p: Payment)
    requires IsLedger(rows) && r in rows && p in rows && r.reverses == Some(p.id)
    ensures Reverses(r, p)
  {
    LedgerRows(rows);
    AtMostOneReversal(rows);
    var o :| o in rows && Reverses(r, o);
    SameRow(rows, o, p);
  }

  /** Standing rows of one owner and one kind, and of one method if a discount. */
  function StandingCharge(rows: seq<Payment>, owner: Owner): Payment -> int {
    (p: Payment) => if p.owner == owner && Stands(rows, p) && p.kind == Charge then p.amount else 0
  }

  function StandingDiscount(rows: seq<Payment>, owner: Owner): Payment -> int {
    (p: Payment) => if p.owner == owner && Stands(rows, p) && p.kind == Discount then p.amount else 0
  }

  function StandingCoupon(rows: seq<Payment>, owner: Owner): Payment -> int {
    (p: Payment) =>
      if p.owner == owner && Stands(rows, p) && p.kind == Discount && p.methodCode == COUPON_DISCOUNT_METHOD
      then p.amount else 0
  }

  /** The signed folds of both ledgers are plain sums over the owner's unreversed rows, and never negative. */
  lemma FoldsAreStanding(rows: seq<Payment>, owner: Owner)
    requires IsLedger(rows)
    ensures Charged(PaymentsOf(rows, owner)) == Sum(rows, StandingCharge(rows, owner)) >= 0
    ensures Discounted(PaymentsOf(rows, owner)) == Sum(rows, StandingDiscount(rows, owner)) >= 0
    ensures CouponDiscounted(PaymentsOf(rows, owner)) == Sum(rows, StandingCoupon(rows, owner)) >= 0
  {
    var own := PaymentsOf(rows, owner);
    OwnLedger(rows, owner);
    SymmetricAxes(own);
    FoldIsStanding(rows, owner, ChargeWeight(own), StandingCharge(rows, owner));
    FoldIsStanding(rows, owner, DiscountWeight(own), StandingDiscount(rows, owner));
    FoldIsStanding(rows, owner, CouponWeight(own), StandingCoupon(rows, owner));
    LedgerRows(rows);
    SumNonneg(rows, StandingCharge(rows, owner));
    SumNonneg(rows, StandingDiscount(rows, owner));
    SumNonneg(rows, StandingCoupon(rows, owner));
  }

  lemma FoldIsStanding(rows: seq<Payment>, owner: Owner, w: Payment -> int, standing: Payment -> int)
    requires IsLedger(rows) && Symmetric(PaymentsOf(rows, owner), w)
    requires forall p | p in rows :: standing(p) == if p.owner == owner && Stands(rows, p) then w(p) else 0
    ensures Sum(PaymentsOf(rows, owner), Signed(w)) == Sum(rows, standing)
  {
    var own := PaymentsOf(rows, owner);
    OwnLedger(rows, owner);
    SignedFold(own, w);
    SumFilter(rows, OfOwner(owner), OnStanding(own, w), standing);
  }

  /** Every row moves exactly one axis, so both ledgers leave the same amount open: total less net paid. */
  lemma AxesPartition(db: Db, owner: Owner)
    ensures var own := PaymentsOf(db.payments, owner);
            Charged(own) + Discounted(own) == Paid(db.payments, owner)
    ensures BillOf(db, owner).remainingAmount == LedgerOf(db, owner).remainingAmount == Remaining(db, owner)
    ensures BillOf(db, owner).paidAmount == Paid(db.payments, owner)
    ensures BillOf(db, owner).chargedAmount == LedgerOf(db, owner).netChargedAmount
    ensures BillOf(db, owner).discountAmount == LedgerOf(db, owner).discountAmount
  {
    var own := PaymentsOf(db.payments, owner);
    forall p | p in own ensures p.owner == owner {
      FilterMember(db.payments, OfOwner(owner), p);
    }
    SumPlus(own, Signed(ChargeWeight(own)), Signed(DiscountWeight(own)), Signed(AmountFor(owner)));
    SumPlus(own, Signed(ChargeWeight(own)), RefundWeight(own), GrossWeight);
    SumFilter(db.payments, OfOwner(owner), Signed(AmountFor(owner)), Signed(AmountFor(owner)));
  }
}
