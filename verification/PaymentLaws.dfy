/** What the table ledger's writing steps guarantee about the row they append. */
module PaymentLaws {
  import opened Billing
  import opened Ledger
  import opened Payments
  import opened Schema
  import opened Sums
  import opened Wrappers

  /** Prices and quantities as the menu and the order routes let them through. */
  predicate Priced(item: Item) {
    item.unitPrice >= 0 && item.quantity >= 1 && forall k | 0 <= k < |item.extras| :: item.extras[k] >= 0
  }

  ghost predicate AllPriced(orders: seq<Order>) {
    forall o, item | o in orders && item in o.items :: Priced(item)
  }

  lemma PricedLine(item: Item, quantity: int)
    requires Priced(item) && quantity >= 0
    ensures UnitTotal(item) * quantity >= 0
  {
    SumNonneg(item.extras, Self);
  }

  lemma LinesNonneg(orders: seq<Order>)
    requires AllPriced(orders)
    ensures forall o, item | o in orders && item in o.items :: Line(item) >= 0
  {
    forall o, item | o in orders && item in o.items ensures Line(item) >= 0 {
      PricedLine(item, item.quantity);
    }
  }

  /** A fresh original row for a table session, under a key nobody has used. */
  predicate NewRow(db: Db, session: Id, p: Payment) {
    && p.id == db.next && p.owner == Session(session) && IsOriginal(p) && p.reverses == None
    && p.key.Scoped? && !KeyTaken(db.payments, p.key)
  }

  /** A payment by amount takes at most what is owed; cash takes the smaller of tender and debt and gives the rest back. */
  lemma AmountWithin(db: Db, session: Id, means: PaymentMethod, amount: Option<int>, tendered: Option<int>, text: KeyText,
                     at: int)
    requires PayAmount(db, session, means, amount, tendered, text, at).Ok?
    ensures var p := PayAmount(db, session, means, amount, tendered, text, at).value;
            && NewRow(db, session, p) && p.kind == Charge && p.allocations == [] && session in db.sessions
            && 0 < p.amount <= Remaining(db, Session(session))
            && (means.isCash ==>
                  && tendered.Some? && p.amount == Min(tendered.value, Remaining(db, Session(session)))
                  && p.change == Some(tendered.value - p.amount) && p.change.value >= 0)
            && (!means.isCash ==> amount == Some(p.amount) && p.change == None)
  {
    AxesPartition(db, Session(session));
  }

  /** A cash payment by amount is refused for no other reason than the debt or the tender once payments are allowed. */
  lemma AmountAccepted(db: Db, session: Id, means: PaymentMethod, amount: Option<int>, tendered: Option<int>, text: KeyText,
                       at: int)
    requires PaymentRefusal(db, session) == None && !KeyTaken(db.payments, Scoped(session, text))
    ensures PayAmount(db, session, means, amount, tendered, text, at).Ok?
        <==> Remaining(db, Session(session)) > 0
             && if means.isCash then tendered.Some? && tendered.value > 0
                else amount.Some? && 0 < amount.value <= Remaining(db, Session(session))
  {
    AxesPartition(db, Session(session));
  }

  lemma DiscountWithin(db: Db, session: Id, amount: int, text: KeyText, at: int)
    requires amount > 0 && GiveDiscount(db, session, amount, text, at).Ok?
    ensures var p := GiveDiscount(db, session, amount, text, at).value;
            && NewRow(db, session, p) && p.allocations == [] && p.coupon == None && session in db.sessions
            && 0 < p.amount <= Remaining(db, Session(session))
  {
    AxesPartition(db, Session(session));
  }

  // ---- payment by item ----

  lemma {:induction false} RowsQuantity(orders: seq<Order>, wanted: seq<Wanted>, item: Id)
    requires AllFound(orders, wanted) && Distinct(ItemIds(wanted))
    ensures forall i | 0 <= i < |wanted| && wanted[i].item == item :: QuantityIn(RowsFor(orders, wanted), item) == wanted[i].quantity
    ensures (forall i | 0 <= i < |wanted| :: wanted[i].item != item) ==> QuantityIn(RowsFor(orders, wanted), item) == 0
    decreases |wanted|
  {
    if wanted != [] {
      var n := |wanted| - 1;
      assert ItemIds(wanted[..n]) == ItemIds(wanted)[..n];
      RowsQuantity(orders, wanted[..n], item);
      SumAppend(RowsFor(orders, wanted[..n]), RowFor(orders, wanted[n]), QuantityFor(item));
      assert forall i | 0 <= i < n :: wanted[..n][i] == wanted[i] && ItemIds(wanted)[i] == wanted[i].item;
      assert ItemIds(wanted)[n] == wanted[n].item;
    }
  }

  lemma RowNonneg(orders: seq<Order>, w: Wanted)
    requires AllPriced(orders) && FindOrderItem(orders, w.item).Some? && w.quantity >= 1
    ensures RowFor(orders, w).amount >= 0
  {
    FoundHasId(orders, w.item);
    PricedLine(FindOrderItem(orders, w.item).value.item, w.quantity);
  }

  /** What an accepted item payment covers. */
  ghost predicate CoversWanted(db: Db, session: Id, wanted: seq<Wanted>, p: Payment) {
    && Sum(p.allocations, RowAmount) == p.amount
    && (forall item: Id :: 0 <= QuantityIn(p.allocations, item))
    && (forall item: Id | QuantityIn(p.allocations, item) > 0 ::
          && FindOrderItem(db.orders, item).Some?
          && FindOrderItem(db.orders, item).value.order.owner == Session(session)
          && IsCounted(FindOrderItem(db.orders, item).value.order)
          && PaidQuantity(db.payments, item) + QuantityIn(p.allocations, item)
             <= FindOrderItem(db.orders, item).value.item.quantity)
    && (forall a | a in p.allocations :: a.quantity >= 1 && exists i | 0 <= i < |wanted| :: wanted[i].item == a.item)
  }

  lemma WantedCovered(db: Db, session: Id, wanted: seq<Wanted>, item: Id)
    requires RequestProblem(wanted) == None && AllFound(db.orders, wanted)
    requires FirstLineProblem(db.orders, session, wanted) == None
    requires forall i | 0 <= i < |wanted| :: FitsQuantity(db, wanted[i])
    ensures var covered := QuantityIn(RowsFor(db.orders, wanted), item);
            && 0 <= covered
            && (covered > 0 ==>
                  && FindOrderItem(db.orders, item).Some?
                  && FindOrderItem(db.orders, item).value.order.owner == Session(session)
                  && IsCounted(FindOrderItem(db.orders, item).value.order)
                  && PaidQuantity(db.payments, item) + covered <= FindOrderItem(db.orders, item).value.item.quantity)
  {
    RowsQuantity(db.orders, wanted, item);
    if i :| 0 <= i < |wanted| && wanted[i].item == item {
      assert FitsQuantity(db, wanted[i]);
      assert LineProblem(FindOrderItem(db.orders, wanted[i].item).value.order, session) == None;
    }
  }

  /** An accepted item payment: priced exactly, within what is owed, and no item covered beyond its quantity. */
  lemma ItemsWithin(db: Db, session: Id, means: PaymentMethod, wanted: seq<Wanted>, tendered: Option<int>, text: KeyText,
                    at: int)
    requires AllPriced(db.orders) && PayItems(db, session, means, wanted, tendered, text, at).Ok?
    ensures var p := PayItems(db, session, means, wanted, tendered, text, at).value;
            && NewRow(db, session, p) && p.kind == Charge && CoversWanted(db, session, wanted, p) && session in db.sessions
            && 0 <= p.amount <= Max(Remaining(db, Session(session)), 0)
            && (means.isCash ==>
                  tendered.Some? && p.change == Some(tendered.value - p.amount) && p.change.value >= 0)
  {
    AxesPartition(db, Session(session));
    var rows := RowsFor(db.orders, wanted);
    forall row | row in rows ensures row.amount >= 0 {
      var i :| 0 <= i < |rows| && rows[i] == row;
      RowNonneg(db.orders, wanted[i]);
    }
    SumNonneg(rows, RowAmount);
    var p := PayItems(db, session, means, wanted, tendered, text, at).value;
    assert p.allocations == rows;
    forall item: Id
      ensures 0 <= QuantityIn(rows, item)
      ensures QuantityIn(rows, item) > 0 ==>
                && FindOrderItem(db.orders, item).Some?
                && FindOrderItem(db.orders, item).value.order.owner == Session(session)
                && IsCounted(FindOrderItem(db.orders, item).value.order)
                && PaidQuantity(db.payments, item) + QuantityIn(rows, item)
                   <= FindOrderItem(db.orders, item).value.item.quantity
    {
      WantedCovered(db, session, wanted, item);
    }
  }

  // ---- every new row extends the ledger ----

  lemma NewRowFollows(db: Db, session: Id, p: Payment)
    requires NewRow(db, session, p) && WellFormed(p) && forall q | q in db.payments :: q.id < db.next
    ensures Follows(db.payments, p)
  {
  }

  /** A reversal is accepted at most once per original, copies it, and extends the ledger. */
  lemma ReversalFollows(db: Db, seen: Db, payment: Id, at: int)
    requires IsLedger(db.payments) && (forall q | q in db.payments :: q.id < db.next)
    requires BeginReversal(seen, payment, true).Ok?
    requires var t := BeginReversal(seen, payment, true).value;
             forall q | q in db.payments && q.id == t.original.id :: q == t.original
    ensures var t := BeginReversal(seen, payment, true).value;
            var r := Reverse(db, t, at);
            r.Inserted? ==>
              && Follows(db.payments, r.row) && Reverses(r.row, t.original) && t.original in db.payments
              && r.row.id == db.next && r.row.owner == t.original.owner && t.original.owner.Session?
  {
    var t := BeginReversal(seen, payment, true).value;
    FoundPayment(seen.payments, payment);
    FoundPayment(db.payments, t.original.id);
    FindByKeyExactly(db.payments, ReversalKey(t));
    if Reverse(db, t, at).Inserted? {
      LedgerRows(db.payments);
      assert t.original in db.payments && Reverses(Reverse(db, t, at).row, t.original);
    }
  }

  lemma {:induction false} FoundPayment(rows: seq<Payment>, id: Id)
    ensures FindPayment(rows, id).Some? ==> FindPayment(rows, id).value in rows && FindPayment(rows, id).value.id == id
    ensures FindPayment(rows, id).None? ==> forall p | p in rows :: p.id != id
  {
    if rows != [] {
      FoundPayment(rows[..|rows| - 1], id);
      assert rows == rows[..|rows| - 1] + [rows[|rows| - 1]];
    }
  }
}
