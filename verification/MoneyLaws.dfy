/** Exactly when the table ledger's writing steps accept, and exactly what they then record. */
module MoneyLaws {
  import opened Billing
  import opened Ledger
  import opened PaymentLaws
  import opened Payments
  import opened Schema
  import opened Sums
  import opened Wrappers

  /** The session goes on, its table is not locked, and payments are switched on. */
  predicate PaymentsAllowed(db: Db, session: Id) {
    && session in db.sessions
    && (db.sessions[session].status == Active || db.sessions[session].status == PaidPendingService)
    && !(db.sessions[session].table in db.tables && db.tables[db.sessions[session].table].paymentsLocked)
    && db.settings.paymentsEnabled
  }

  /** Which of the four is named when payments are not allowed: the first that fails. */
  lemma RefusalNames(db: Db, session: Id)
    ensures PaymentRefusal(db, session).None? <==> PaymentsAllowed(db, session)
    ensures PaymentRefusal(db, session) == Some(SessionMissing) <==> session !in db.sessions
    ensures PaymentRefusal(db, session) == Some(SessionClosed)
        <==> session in db.sessions && db.sessions[session].status in {Closed, Expired}
    ensures PaymentRefusal(db, session) == Some(TableLocked)
        <==> && session in db.sessions && db.sessions[session].status in {Active, PaidPendingService}
             && db.sessions[session].table in db.tables && db.tables[db.sessions[session].table].paymentsLocked
    ensures PaymentRefusal(db, session).Some? ==>
              PaymentRefusal(db, session).value in {SessionMissing, SessionClosed, TableLocked, PaymentsDisabled}
  {
  }

  /** A new row of the session under the client's key, by the named method, reversing nothing. */
  predicate RecordedFor(db: Db, session: Id, kind: Kind, methodCode: string, text: KeyText, at: int, p: Payment) {
    && p.id == db.next && p.owner == Session(session) && p.kind == kind && p.methodCode == methodCode
    && p.key == Scoped(session, text) && p.at == at && p.reverses == None && p.coupon == None
  }

  /** Cash records what was handed over and what went back, never a negative sum; nothing else records either. */
  predicate GivesChange(means: PaymentMethod, tendered: Option<int>, p: Payment) {
    if means.isCash then p.tendered == tendered && tendered.Some? && p.change == Some(tendered.value - p.amount) && p.change.value >= 0
    else p.tendered == None && p.change == None
  }

  // ---- payment by amount, discount ----

  lemma AmountExactly(db: Db, session: Id, means: PaymentMethod, amount: Option<int>, tendered: Option<int>, text: KeyText,
                      at: int)
    ensures var r := PayAmount(db, session, means, amount, tendered, text, at);
            && (r.Ok? <==>
                  && PaymentsAllowed(db, session) && !KeyTaken(db.payments, Scoped(session, text))
                  && Remaining(db, Session(session)) > 0
                  && if means.isCash then tendered.Some? && tendered.value > 0
                     else amount.Some? && 0 < amount.value <= Remaining(db, Session(session)))
            && (r.Ok? ==>
                  && RecordedFor(db, session, Charge, means.code, text, at, r.value) && GivesChange(means, tendered, r.value)
                  && r.value.allocations == []
                  && r.value.amount == if means.isCash then Min(tendered.value, Remaining(db, Session(session))) else amount.value)
  {
    AxesPartition(db, Session(session));
  }

  lemma DiscountExactly(db: Db, session: Id, amount: int, text: KeyText, at: int)
    ensures var r := GiveDiscount(db, session, amount, text, at);
            && (r.Ok? <==>
                  && PaymentsAllowed(db, session) && !KeyTaken(db.payments, Scoped(session, text))
                  && amount <= Remaining(db, Session(session)))
            && (r.Ok? ==>
                  && RecordedFor(db, session, Discount, MANUAL_DISCOUNT_METHOD, text, at, r.value)
                  && r.value.amount == amount && r.value.allocations == [] && r.value.change == None)
  {
    AxesPartition(db, Session(session));
  }

  // ---- payment by item ----

  /** Base price and options of one portion. */
  function PortionPrice(orders: seq<Order>): Wanted -> int {
    (w: Wanted) =>
      var found := FindOrderItem(orders, w.item);
      if found.Some? then (found.value.item.unitPrice + Sum(found.value.item.extras, Self)) * w.quantity else 0
  }

  /** Proportional to what the bill charges for the item's whole line. */
  predicate PricedLikeTheBill(item: Item, w: Wanted, a: Allocation) {
    && a.item == w.item && a.quantity == w.quantity
    && a.amount * item.quantity == Line(item) * w.quantity
    && (w.quantity == item.quantity ==> a.amount == Line(item))
  }

  lemma RowPriced(orders: seq<Order>, w: Wanted)
    requires FindOrderItem(orders, w.item).Some?
    ensures PricedLikeTheBill(FindOrderItem(orders, w.item).value.item, w, RowFor(orders, w))
    ensures RowFor(orders, w).amount == PortionPrice(orders)(w)
  {
    var item := FindOrderItem(orders, w.item).value.item;
    var price := item.unitPrice + Sum(item.extras, Self);
    Reorder(price, w.quantity, item.quantity);
  }

  lemma Reorder(a: int, b: int, c: int)
    ensures a * b * c == a * c * b
  {
  }

  lemma ItemsRecorded(db: Db, session: Id, means: PaymentMethod, wanted: seq<Wanted>, tendered: Option<int>, text: KeyText,
                      at: int)
    requires PayItems(db, session, means, wanted, tendered, text, at).Ok?
    ensures AllFound(db.orders, wanted)
    ensures var p := PayItems(db, session, means, wanted, tendered, text, at).value;
            && p.allocations == RowsFor(db.orders, wanted) && p.amount == Sum(p.allocations, RowAmount)
            && RecordedFor(db, session, Charge, means.code, text, at, p) && GivesChange(means, tendered, p)
  {
  }

  /** Row by row, in the order of the request. */
  ghost predicate AllPricedLikeTheBill(orders: seq<Order>, wanted: seq<Wanted>, rows: seq<Allocation>) {
    && |rows| == |wanted|
    && forall i | 0 <= i < |wanted| ::
         && FindOrderItem(orders, wanted[i].item).Some?
         && PricedLikeTheBill(FindOrderItem(orders, wanted[i].item).value.item, wanted[i], rows[i])
  }

  lemma RowsArePriced(orders: seq<Order>, wanted: seq<Wanted>)
    requires AllFound(orders, wanted)
    ensures AllPricedLikeTheBill(orders, wanted, RowsFor(orders, wanted))
  {
    forall i | 0 <= i < |wanted|
      ensures PricedLikeTheBill(FindOrderItem(orders, wanted[i].item).value.item, wanted[i], RowsFor(orders, wanted)[i])
    {
      RowPriced(orders, wanted[i]);
    }
  }

  /**
   An accepted payment by item costs base price and options times the quantity asked for, summed over the
   request; each row is priced like the bill's own line, so paying a whole line costs what it is billed at.
   */
  lemma ItemsPriced(db: Db, session: Id, means: PaymentMethod, wanted: seq<Wanted>, tendered: Option<int>, text: KeyText,
                    at: int)
    requires PayItems(db, session, means, wanted, tendered, text, at).Ok?
    ensures var p := PayItems(db, session, means, wanted, tendered, text, at).value;
            && p.amount == Sum(wanted, PortionPrice(db.orders)) == Sum(p.allocations, RowAmount)
            && AllPricedLikeTheBill(db.orders, wanted, p.allocations)
            && RecordedFor(db, session, Charge, means.code, text, at, p) && GivesChange(means, tendered, p)
  {
    ItemsRecorded(db, session, means, wanted, tendered, text, at);
    RowsArePriced(db.orders, wanted);
    RowsPrice(db.orders, wanted);
  }

  /** The item exists, on a counted order of the session, and as much of it as asked for is still unpaid. */
  ghost predicate CanPay(db: Db, session: Id, w: Wanted) {
    var found := FindOrderItem(db.orders, w.item);
    && w.quantity >= 1 && found.Some?
    && found.value.order.owner == Session(session)
    && found.value.order.status !in {Cancelled, Rejected}
    && PaidQuantity(db.payments, w.item) + w.quantity <= found.value.item.quantity
  }

  ghost predicate CanPayAll(db: Db, session: Id, wanted: seq<Wanted>) {
    wanted != [] && Distinct(ItemIds(wanted)) && forall i | 0 <= i < |wanted| :: CanPay(db, session, wanted[i])
  }

  lemma RowsPrice(orders: seq<Order>, wanted: seq<Wanted>)
    requires AllFound(orders, wanted)
    ensures Sum(RowsFor(orders, wanted), RowAmount) == Sum(wanted, PortionPrice(orders))
  {
    var rows := RowsFor(orders, wanted);
    forall i | 0 <= i < |wanted| ensures RowAmount(rows[i]) == PortionPrice(orders)(wanted[i]) {
      RowPriced(orders, wanted[i]);
    }
    SumPointwise(rows, wanted, RowAmount, PortionPrice(orders));
  }

  lemma PayableExactly(db: Db, session: Id, wanted: seq<Wanted>)
    ensures CanPayAll(db, session, wanted)
        <==> && RequestProblem(wanted) == None && AllFound(db.orders, wanted)
             && FirstLineProblem(db.orders, session, wanted) == None
             && forall i | 0 <= i < |wanted| :: FitsQuantity(db, wanted[i])
  {
    if AllFound(db.orders, wanted) {
      ItemConditions(db, session, wanted);
    } else {
      var i :| 0 <= i < |wanted| && FindOrderItem(db.orders, wanted[i].item).None?;
      assert !CanPay(db, session, wanted[i]);
    }
  }

  /** A payment by item is accepted for these reasons and refused for no other. */
  lemma ItemsAccepted(db: Db, session: Id, means: PaymentMethod, wanted: seq<Wanted>, tendered: Option<int>, text: KeyText,
                      at: int)
    ensures PayItems(db, session, means, wanted, tendered, text, at).Ok?
        <==> && PaymentsAllowed(db, session) && !KeyTaken(db.payments, Scoped(session, text))
             && CanPayAll(db, session, wanted)
             && var price := Sum(wanted, PortionPrice(db.orders));
                && price <= Max(Remaining(db, Session(session)), 0)
                && (means.isCash ==> tendered.Some? && tendered.value != 0 && tendered.value >= price)
  {
    AxesPartition(db, Session(session));
    PayableExactly(db, session, wanted);
    if AllFound(db.orders, wanted) {
      RowsPrice(db.orders, wanted);
    }
  }

  lemma ItemConditions(db: Db, session: Id, wanted: seq<Wanted>)
    requires AllFound(db.orders, wanted)
    ensures (forall i | 0 <= i < |wanted| :: CanPay(db, session, wanted[i]))
        <==> && (forall i | 0 <= i < |wanted| :: wanted[i].quantity >= 1)
             && FirstLineProblem(db.orders, session, wanted) == None
             && forall i | 0 <= i < |wanted| :: FitsQuantity(db, wanted[i])
  {
    forall i | 0 <= i < |wanted|
      ensures CanPay(db, session, wanted[i]) <==>
                && wanted[i].quantity >= 1
                && LineProblem(FindOrderItem(db.orders, wanted[i].item).value.order, session) == None
                && FitsQuantity(db, wanted[i])
    {
    }
  }

  // ---- reversal ----

  /** When a reversal may start, and that it is a void while the session goes on and a refund once it has ended. */
  lemma ReversalStarts(db: Db, payment: Id, hasReason: bool)
    requires IsLedger(db.payments)
    ensures var t := BeginReversal(db, payment, hasReason);
            && (t.Ok? <==>
                  hasReason && exists o | o in db.payments ::
                    && o.id == payment && IsOriginal(o) && NotYetReversed(db.payments, payment)
                    && o.owner.Session? && o.owner.id in db.sessions)
            && (t.Ok? ==>
                  && t.value.original in db.payments && t.value.original.id == payment
                  && t.value.original.owner.Session? && t.value.original.owner.id in db.sessions
                  && (t.value.kind == Void <==> db.sessions[t.value.original.owner.id].status in {Active, PaidPendingService})
                  && (t.value.kind == Refund <==> db.sessions[t.value.original.owner.id].status in {Closed, Expired}))
  {
    FoundPayment(db.payments, payment);
    forall o | o in db.payments && o.id == payment ensures FindPayment(db.payments, payment) == Some(o) {
      FindById(db.payments, o);
    }
  }

  /** A started reversal is inserted iff its key is new, nothing reversed the original since, and both rows still exist. */
  lemma ReversalAccepts(db: Db, t: Ticket, at: int)
    requires t.original.owner.Session?
    ensures Reverse(db, t, at).Inserted?
        <==> && (forall p | p in db.payments :: p.key != Scoped(t.original.owner.id, Reversal(t.kind, t.original.id)))
             && (forall p | p in db.payments :: p.reverses != Some(t.original.id))
             && t.original.owner.id in db.sessions && exists p | p in db.payments :: p.id == t.original.id
  {
    FindByKeyExactly(db.payments, ReversalKey(t));
    FoundPayment(db.payments, t.original.id);
  }

  /** The inserted row: dated, keyed and labelled as the ticket says, with no money handed over. */
  lemma ReversalRecords(db: Db, t: Ticket, at: int)
    requires t.original.owner.Session? && Reverse(db, t, at).Inserted?
    ensures var r := Reverse(db, t, at).row;
            && r.kind == t.kind && r.at == at && r.key == Scoped(t.original.owner.id, Reversal(t.kind, t.original.id))
            && r.tendered == None && r.change == None
  {
  }

  function ChargeOf(o: Payment): int {
    if o.kind == Charge then o.amount else 0
  }

  function DiscountOf(o: Payment): int {
    if o.kind == Discount then o.amount else 0
  }

  function Within(owner: Owner, w: Payment -> int): Payment -> int {
    (p: Payment) => if p.owner == owner then w(p) else 0
  }

  /** A sum over the rows that stand loses the original's term. */
  lemma ReversedSum(rows: seq<Payment>, r: Payment, o: Payment, w: Payment -> int, before: Payment -> int, after: Payment -> int)
    requires IsLedger(rows) && Follows(rows, r) && Reverses(r, o) && o in rows
    requires forall p :: before(p) == if Stands(rows, p) then w(p) else 0
    requires forall p :: after(p) == if Stands(rows + [r], p) then w(p) else 0
    ensures Sum(rows + [r], after) == Sum(rows, before) - w(o)
  {
    var k :| 0 <= k < |rows| && rows[k] == o;
    LedgerRows(rows);
    forall i | 0 <= i < |rows| && i != k ensures after(rows[i]) == before(rows[i]) {
      OtherStands(rows, r, rows[i]);
    }
    SumOneDiff(rows, rows, after, before, k);
    SumAppend(rows, r, after);
    assert r in rows + [r];
  }

  lemma StandingTerms(rows: seq<Payment>, owner: Owner, p: Payment)
    ensures StandingCharge(rows, owner)(p) == if Stands(rows, p) then Within(owner, ChargeOf)(p) else 0
    ensures StandingDiscount(rows, owner)(p) == if Stands(rows, p) then Within(owner, DiscountOf)(p) else 0
  {
    assert Within(owner, ChargeOf)(p) == if p.owner == owner then ChargeOf(p) else 0;
    assert Within(owner, DiscountOf)(p) == if p.owner == owner then DiscountOf(p) else 0;
  }

  lemma ReversedSums(rows: seq<Payment>, r: Payment, o: Payment, owner: Owner)
    requires IsLedger(rows) && Follows(rows, r) && Reverses(r, o) && o in rows
    ensures Sum(rows + [r], StandingCharge(rows + [r], owner))
         == Sum(rows, StandingCharge(rows, owner)) - if o.owner == owner then ChargeOf(o) else 0
    ensures Sum(rows + [r], StandingDiscount(rows + [r], owner))
         == Sum(rows, StandingDiscount(rows, owner)) - if o.owner == owner then DiscountOf(o) else 0
  {
    var after := rows + [r];
    forall p
      ensures StandingCharge(rows, owner)(p) == if Stands(rows, p) then Within(owner, ChargeOf)(p) else 0
      ensures StandingCharge(after, owner)(p) == if Stands(after, p) then Within(owner, ChargeOf)(p) else 0
      ensures StandingDiscount(rows, owner)(p) == if Stands(rows, p) then Within(owner, DiscountOf)(p) else 0
      ensures StandingDiscount(after, owner)(p) == if Stands(after, p) then Within(owner, DiscountOf)(p) else 0
    {
      StandingTerms(rows, owner, p);
      StandingTerms(after, owner, p);
    }
    ReversedSum(rows, r, o, Within(owner, ChargeOf), StandingCharge(rows, owner), StandingCharge(after, owner));
    ReversedSum(rows, r, o, Within(owner, DiscountOf), StandingDiscount(rows, owner), StandingDiscount(after, owner));
  }

  /**
   A reversal takes exactly its original off the axis it was on, charge or discount, and puts it back on the
   session's open amount; nobody else's bill moves.
   */
  lemma ReversalUndoes(db: Db, r: Payment, o: Payment, owner: Owner)
    requires IsLedger(db.payments) && Follows(db.payments, r) && Reverses(r, o) && o in db.payments
    ensures var before, after := BillOf(db, owner), BillOf(AppendRow(db, r), owner);
            var mine := owner == o.owner;
            && after.totalAmount == before.totalAmount
            && after.chargedAmount == before.chargedAmount - (if mine then ChargeOf(o) else 0)
            && after.discountAmount == before.discountAmount - (if mine then DiscountOf(o) else 0)
            && after.remainingAmount == before.remainingAmount + if mine then o.amount else 0
  {
    LedgerAppend(db.payments, r);
    FoldsAreStanding(db.payments, owner);
    FoldsAreStanding(db.payments + [r], owner);
    ReversedSums(db.payments, r, o, owner);
  }

  // ---- the ledger of a counter sale ----

  function Gross(owner: Owner): Payment -> int {
    (p: Payment) => if p.owner == owner then ChargeOf(p) else 0
  }

  /** Charges that some row has reversed. */
  function Returned(rows: seq<Payment>, owner: Owner): Payment -> int {
    (p: Payment) => if p.owner == owner && !NotYetReversed(rows, p.id) then ChargeOf(p) else 0
  }

  /**
   Gross is every charge of the owner, refunded is what was taken back of them, net what stands; what
   remains is the orders less discount and net.
   */
  lemma LedgerFigures(db: Db, owner: Owner)
    requires IsLedger(db.payments)
    ensures var l := LedgerOf(db, owner);
            && l.grossChargedAmount == Sum(db.payments, Gross(owner))
            && l.refundedAmount == Sum(db.payments, Returned(db.payments, owner))
            && l.netChargedAmount == Sum(db.payments, StandingCharge(db.payments, owner))
            && l.remainingAmount == l.orderAmount - l.discountAmount - l.netChargedAmount == Remaining(db, owner)
            && l.orderAmount == OrderTotal(db.orders, owner)
            && l.discountAmount == Sum(db.payments, StandingDiscount(db.payments, owner))
            && l.couponDiscountAmount == Sum(db.payments, StandingCoupon(db.payments, owner))
  {
    var rows := PaymentsOf(db.payments, owner);
    FoldsAreStanding(db.payments, owner);
    AxesPartition(db, owner);
    SumFilter(db.payments, OfOwner(owner), GrossWeight, Gross(owner));
    SumPlus(rows, Signed(ChargeWeight(rows)), RefundWeight(rows), GrossWeight);
    SumPlus(db.payments, StandingCharge(db.payments, owner), Returned(db.payments, owner), Gross(owner));
  }
}
