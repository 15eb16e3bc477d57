/** What a counter sale conserves: exact allocation at confirmation, exact reversal at cancellation. */
module SaleLaws {
  import opened Billing
  import opened CounterSales
  import opened Ledger
  import opened Orders
  import Payments
  import opened Schema
  import opened Sums
  import opened Wrappers

  function AmountAt(item: Id): Allocation -> int {
    (a: Allocation) => if a.item == item then a.amount else 0
  }

  /** Money the rows put on one item. */
  function AmountOn(rows: seq<Allocation>, item: Id): int {
    Sum(rows, AmountAt(item))
  }

  predicate InLines(n: nat, base: Id, item: Id) {
    base <= item < base + n
  }

  lemma OneRowTotals(id: Id, quantity: int, amount: int, item: Id)
    ensures AmountOn(OneRow(id, quantity, amount), item) == if item == id && amount > 0 then amount else 0
    ensures QuantityIn(OneRow(id, quantity, amount), item) == if item == id && amount > 0 then quantity else 0
    ensures Sum(OneRow(id, quantity, amount), Payments.RowAmount) == Max(amount, 0)
  {
    var row := Allocation(id, quantity, amount);
    SumOne(row, AmountAt(item));
    SumOne(row, QuantityFor(item));
    SumOne(row, Payments.RowAmount);
  }

  /** Leaving out zero rows loses no money: each line's item carries the line's amount, any other item nothing. */
  lemma {:induction false} LineAmounts(amounts: seq<int>, quantities: seq<int>, base: Id, item: Id)
    requires |amounts| == |quantities| && forall i | 0 <= i < |amounts| :: amounts[i] >= 0
    ensures AmountOn(LineRows(amounts, quantities, base), item)
         == if InLines(|amounts|, base, item) then amounts[item - base] else 0
    decreases |amounts|
  {
    if amounts != [] {
      var n := |amounts| - 1;
      LineAmounts(amounts[..n], quantities[..n], base, item);
      OneRowTotals(base + n, quantities[n], amounts[n], item);
      SumConcat(LineRows(amounts[..n], quantities[..n], base), OneRow(base + n, quantities[n], amounts[n]), AmountAt(item));
    }
  }

  /** Each line with a row covers its quantity once. */
  lemma {:induction false} LineQuantities(amounts: seq<int>, quantities: seq<int>, base: Id, item: Id)
    requires |amounts| == |quantities|
    ensures QuantityIn(LineRows(amounts, quantities, base), item)
         == if InLines(|amounts|, base, item) && amounts[item - base] > 0 then quantities[item - base] else 0
    decreases |amounts|
  {
    if amounts != [] {
      var n := |amounts| - 1;
      LineQuantities(amounts[..n], quantities[..n], base, item);
      OneRowTotals(base + n, quantities[n], amounts[n], item);
      SumConcat(LineRows(amounts[..n], quantities[..n], base), OneRow(base + n, quantities[n], amounts[n]),
                QuantityFor(item));
    }
  }

  lemma {:induction false} LineRowsTotal(amounts: seq<int>, quantities: seq<int>, base: Id)
    requires |amounts| == |quantities| && forall i | 0 <= i < |amounts| :: amounts[i] >= 0
    ensures Sum(LineRows(amounts, quantities, base), Payments.RowAmount) == Sum(amounts, Self)
    decreases |amounts|
  {
    if amounts != [] {
      var n := |amounts| - 1;
      LineRowsTotal(amounts[..n], quantities[..n], base);
      OneRowTotals(base + n, quantities[n], amounts[n], 0);
      SumConcat(LineRows(amounts[..n], quantities[..n], base), OneRow(base + n, quantities[n], amounts[n]),
                Payments.RowAmount);
    }
  }

  lemma {:induction false} LineRowsRange(amounts: seq<int>, quantities: seq<int>, base: Id)
    requires |amounts| == |quantities|
    ensures forall a | a in LineRows(amounts, quantities, base) ::
              base <= a.item < base + |amounts| && a.amount > 0 && a.quantity == quantities[a.item - base]
    decreases |amounts|
  {
    if amounts != [] {
      LineRowsRange(amounts[..|amounts| - 1], quantities[..|amounts| - 1], base);
    }
  }

  // ---- confirmation ----

  lemma ItemKeepsPrice(line: OrderLine, id: Id)
    ensures Line(ItemFrom(line, id)) == LineTotal(line)
  {
  }

  lemma ModeItemsStep(lines: seq<OrderLine>, mode: ServingMode, base: Id, f: Item -> int)
    requires lines != []
    ensures Sum(ModeItems(lines, mode, base), f)
         == Sum(ModeItems(lines[..|lines| - 1], mode, base), f)
            + if lines[|lines| - 1].mode == mode then f(ItemFrom(lines[|lines| - 1], base + |lines| - 1)) else 0
  {
    var n := |lines| - 1;
    SumConcat(ModeItems(lines[..n], mode, base), OneItem(lines[n], mode, base + n), f);
    SumOne(ItemFrom(lines[n], base + n), f);
  }

  ghost predicate SamePrice(f: Item -> int, g: OrderLine -> int) {
    forall line, id :: f(ItemFrom(line, id)) == g(line)
  }

  /** Splitting the cart into a kitchen and a counter order keeps every line. */
  lemma {:induction false} ModeItemsSum(lines: seq<OrderLine>, base: Id, f: Item -> int, g: OrderLine -> int)
    requires SamePrice(f, g)
    ensures Sum(ModeItems(lines, Kitchen, base), f) + Sum(ModeItems(lines, Counter, base), f) == Sum(lines, g)
  {
    if lines != [] {
      ModeItemsSum(lines[..|lines| - 1], base, f, g);
      ModeItemsStep(lines, Kitchen, base, f);
      ModeItemsStep(lines, Counter, base, f);
    }
  }

  lemma ModeItemsTotal(lines: seq<OrderLine>, base: Id)
    ensures Sum(ModeItems(lines, Kitchen, base), Line) + Sum(ModeItems(lines, Counter, base), Line) == Subtotal(lines)
  {
    forall line, id ensures Line(ItemFrom(line, id)) == LineTotal(line) {
      ItemKeepsPrice(line, id);
    }
    ModeItemsSum(lines, base, Line, LineTotal);
  }

  lemma {:induction false} ModeItemsLive(lines: seq<OrderLine>, mode: ServingMode, base: Id)
    ensures forall item | item in ModeItems(lines, mode, base) ::
              && !item.cancelled && item.mode == mode
              && base <= item.id < base + |lines| && item == ItemFrom(lines[item.id - base], item.id)
  {
    if lines != [] {
      ModeItemsLive(lines[..|lines| - 1], mode, base);
    }
  }

  /** The counted and full value that the new orders of one mode add for an owner. */
  lemma ModeOrdersTotal(mode: ServingMode, id: Id, sale: Id, key: SaleKey, lines: seq<OrderLine>, base: Id, at: int, owner: Owner)
    ensures var value := if owner == Sale(sale) then Sum(ModeItems(lines, mode, base), Line) else 0;
            && OrderTotal(ModeOrders(mode, id, sale, key, lines, base, at), owner) == value
            && FullTotal(ModeOrders(mode, id, sale, key, lines, base, at), owner) == value
  {
    var items, orders := ModeItems(lines, mode, base), ModeOrders(mode, id, sale, key, lines, base, at);
    if items != [] {
      ModeItemsLive(lines, mode, base);
      SumCong(items, LiveLine, Line);
      SumOne(orders[0], AmountFrom(owner));
      SumOne(orders[0], FullFrom(owner));
    }
  }

  /** The confirmed orders are worth the subtotal to the sale and nothing to anybody else. */
  lemma NewOrdersTotal(orders: seq<Order>, sale: Id, key: SaleKey, lines: seq<OrderLine>, at: int, owner: Owner)
    ensures var after := orders + KitchenPart(sale, key, lines, at) + CounterPart(sale, key, lines, at);
            var value := if owner == Sale(sale) then Subtotal(lines) else 0;
            && OrderTotal(after, owner) == OrderTotal(orders, owner) + value
            && FullTotal(after, owner) == FullTotal(orders, owner) + value
  {
    var kitchen, counter := KitchenPart(sale, key, lines, at), CounterPart(sale, key, lines, at);
    ModeOrdersTotal(Kitchen, sale + 1, sale, key, lines, ItemBase(sale), at, owner);
    ModeOrdersTotal(Counter, sale + 2, sale, key, lines, ItemBase(sale), at, owner);
    ModeItemsTotal(lines, ItemBase(sale));
    SumConcat(orders, kitchen, AmountFrom(owner));
    SumConcat(orders + kitchen, counter, AmountFrom(owner));
    SumConcat(orders, kitchen, FullFrom(owner));
    SumConcat(orders + kitchen, counter, FullFrom(owner));
  }

  /** What the new payment rows settle. */
  lemma NewPaymentsPaid(rows: seq<Payment>, sale: Id, req: Request, q: Quote, owner: Owner)
    requires |q.discounts| == |q.lines|
    ensures Paid(rows + DiscountPart(sale, req, q) + ChargePart(sale, req, q), owner)
         == Paid(rows, owner)
            + if owner != Sale(sale) then 0
              else (if q.coupon.Some? then q.coupon.value.discount else 0)
                   + (if q.totalAmount > 0 && req.means.Some? then q.totalAmount else 0)
  {
    var discount, charge := DiscountPart(sale, req, q), ChargePart(sale, req, q);
    if discount != [] {
      PaidAppend(rows, discount[0], owner);
    } else {
      assert rows + discount == rows;
    }
    if charge != [] {
      PaidAppend(rows + discount, charge[0], owner);
    } else {
      assert rows + discount + charge == rows + discount;
    }
  }

  /** Value, full value and net payment of `owner` grow by `value`. */
  ghost predicate GrowBy(before: Db, after: Db, owner: Owner, value: int) {
    && OrderTotal(after.orders, owner) == OrderTotal(before.orders, owner) + value
    && FullTotal(after.orders, owner) == FullTotal(before.orders, owner) + value
    && Paid(after.payments, owner) == Paid(before.payments, owner) + value
  }

  lemma WriteSettles(db: Db, req: Request, q: Quote, owner: Owner)
    requires |q.discounts| == |q.lines| && (q.coupon.Some? ==> q.coupon.value.code in db.coupons)
    requires Subtotal(q.lines) == q.discountAmount + q.totalAmount && q.totalAmount >= 0
    requires if q.coupon.Some? then q.coupon.value.discount == q.discountAmount else q.discountAmount == 0
    requires q.totalAmount > 0 ==> req.means.Some?
    ensures GrowBy(db, WriteSale(db, req, q), owner, if owner == Sale(db.next) then Subtotal(q.lines) else 0)
  {
    NewOrdersTotal(db.orders, db.next, KeyOf(req), q.lines, req.at, owner);
    NewPaymentsPaid(db.payments, db.next, req, q, owner);
  }

  /** The confirmed sale is settled to the won: what it is worth equals what the ledger took, and nobody else is touched. */
  lemma ConfirmSettles(db: Db, req: Request, owner: Owner)
    requires ValidLines(req.lines) && Confirm(db, req).Ok?
    ensures GrowBy(db, AfterConfirm(db, req), owner, if owner == Sale(db.next) then Subtotal(req.lines) else 0)
    ensures Remaining(AfterConfirm(db, req), owner) == Remaining(db, owner)
  {
    var q := Confirm(db, req).value;
    QuoteIsExact(db, req.lines, req.code, req.target, req.at);
    WriteSettles(db, req, q, owner);
  }

  /** Both new payments carry allocations that add up to their amounts. */
  lemma ConfirmedSums(db: Db, req: Request)
    requires ValidLines(req.lines) && Confirm(db, req).Ok?
    ensures var q := Confirm(db, req).value;
            && |q.discounts| == |q.lines| && q.lines == req.lines
            && q.subtotal == Subtotal(req.lines) == q.discountAmount + q.totalAmount
            && Sum(DiscountRows(db.next, q), Payments.RowAmount) == q.discountAmount
            && Sum(ChargeRows(db.next, q), Payments.RowAmount) == q.totalAmount
  {
    var q := Confirm(db, req).value;
    QuoteIsExact(db, req.lines, req.code, req.target, req.at);
    LineRowsTotal(q.discounts, Zeros(|q.lines|), ItemBase(db.next));
    LineRowsTotal(NetAmounts(q), Quantities(q.lines), ItemBase(db.next));
    NetTotal(q);
  }

  lemma DiscountSide(q: Quote, sale: Id, i: nat)
    requires |q.discounts| == |q.lines| && i < |q.lines| && forall k | 0 <= k < |q.discounts| :: q.discounts[k] >= 0
    ensures AmountOn(DiscountRows(sale, q), ItemBase(sale) + i) == q.discounts[i]
    ensures QuantityIn(DiscountRows(sale, q), ItemBase(sale) + i) == 0
  {
    LineAmounts(q.discounts, Zeros(|q.lines|), ItemBase(sale), ItemBase(sale) + i);
    LineQuantities(q.discounts, Zeros(|q.lines|), ItemBase(sale), ItemBase(sale) + i);
  }

  lemma ChargeSide(q: Quote, sale: Id, i: nat)
    requires |q.discounts| == |q.lines| && i < |q.lines| && forall k | 0 <= k < |q.lines| :: NetAmounts(q)[k] >= 0
    ensures AmountOn(ChargeRows(sale, q), ItemBase(sale) + i) == NetAmounts(q)[i]
    ensures QuantityIn(ChargeRows(sale, q), ItemBase(sale) + i) == if NetAmounts(q)[i] > 0 then q.lines[i].quantity else 0
  {
    LineAmounts(NetAmounts(q), Quantities(q.lines), ItemBase(sale), ItemBase(sale) + i);
    LineQuantities(NetAmounts(q), Quantities(q.lines), ItemBase(sale), ItemBase(sale) + i);
  }

  /** The two payments cover a line of the given total: money together exactly once, quantity by the charge alone. */
  ghost predicate Covers(q: Quote, sale: Id, i: nat, total: int)
    requires |q.discounts| == |q.lines| && i < |q.lines|
  {
    && AmountOn(DiscountRows(sale, q), ItemBase(sale) + i) + AmountOn(ChargeRows(sale, q), ItemBase(sale) + i) == total
    && AmountOn(DiscountRows(sale, q), ItemBase(sale) + i) == q.discounts[i]
    && QuantityIn(DiscountRows(sale, q), ItemBase(sale) + i) == 0
    && QuantityIn(ChargeRows(sale, q), ItemBase(sale) + i) == if q.discounts[i] < total then q.lines[i].quantity else 0
  }

  lemma CoversLine(q: Quote, sale: Id, i: nat, total: int)
    requires |q.discounts| == |q.lines| && i < |q.lines|
    requires forall k | 0 <= k < |q.lines| :: q.discounts[k] >= 0 && NetAmounts(q)[k] >= 0
    requires total == NetAmounts(q)[i] + q.discounts[i]
    ensures Covers(q, sale, i, total)
  {
    DiscountSide(q, sale, i);
    ChargeSide(q, sale, i);
  }

  /** Per line, discount allocation plus charge allocation is the line total; only the charge covers quantity, once. */
  lemma ConfirmConserves(db: Db, req: Request, i: nat)
    requires ValidLines(req.lines) && Confirm(db, req).Ok? && i < |req.lines|
    ensures var q := Confirm(db, req).value;
            && |q.discounts| == |q.lines| && q.lines == req.lines
            && Covers(q, db.next, i, LineTotal(req.lines[i]))
  {
    var q := Confirm(db, req).value;
    QuoteIsExact(db, req.lines, req.code, req.target, req.at);
    CoversLine(q, db.next, i, LineTotal(req.lines[i]));
  }

  lemma NetTotal(q: Quote)
    requires |q.discounts| == |q.lines|
    ensures Sum(NetAmounts(q), Self) == Subtotal(q.lines) - Sum(q.discounts, Self)
  {
    NetTotalPrefix(q.lines, q.discounts, NetAmounts(q));
  }

  lemma {:induction false} NetTotalPrefix(lines: seq<OrderLine>, discounts: seq<int>, nets: seq<int>)
    requires |lines| == |discounts| == |nets|
    requires forall i | 0 <= i < |lines| :: nets[i] == LineTotal(lines[i]) - discounts[i]
    ensures Sum(nets, Self) == Subtotal(lines) - Sum(discounts, Self)
    decreases |lines|
  {
    if lines != [] {
      var n := |lines| - 1;
      NetTotalPrefix(lines[..n], discounts[..n], nets[..n]);
    }
  }

  // ---- cancellation ----

  /** `rows` reverses exactly the targets that `all` had not reversed. */
  ghost predicate Undoes(all: seq<Payment>, targets: seq<Payment>, sale: Id, base: Id, rows: seq<Payment>) {
    && IsLedger(all + rows)
    && (forall p | p in all + rows :: p.id < base + |rows|)
    && (forall r | r in rows :: r.owner == Sale(sale) && !IsOriginal(r) && NamesTarget(targets, r))
    && (forall i | 0 <= i < |targets| :: !NotYetReversed(all + rows, targets[i].id))
  }

  ghost predicate NamesTarget(targets: seq<Payment>, r: Payment) {
    r.reverses.Some? && exists i | 0 <= i < |targets| :: r.reverses == Some(targets[i].id)
  }

  ghost predicate Reversible(all: seq<Payment>, targets: seq<Payment>, sale: Id) {
    && (forall i | 0 <= i < |targets| :: targets[i] in all && OriginalsOf(sale)(targets[i]))
    && (forall i, j | 0 <= i < j < |targets| :: targets[i].id != targets[j].id)
  }

  lemma {:induction false} RefundsAppend(all: seq<Payment>, targets: seq<Payment>, sale: Id, base: Id, at: int)
    returns (rows: seq<Payment>)
    requires IsLedger(all) && (forall p | p in all :: p.id < base) && Reversible(all, targets, sale)
    ensures rows == RefundRows(all, targets, sale, base, at)
    ensures Undoes(all, targets, sale, base, rows)
    decreases |targets|
  {
    if targets == [] {
      rows := [];
      NothingToUndo(all, sale, base);
    } else {
      var made := RefundsAppend(all, targets[..|targets| - 1], sale, base, at);
      rows := AddRefund(all, made, targets[|targets| - 1], sale, base, at);
      RefundStep(all, targets, sale, base, made, at);
    }
  }

  lemma NothingToUndo(all: seq<Payment>, sale: Id, base: Id)
    requires IsLedger(all) && forall p | p in all :: p.id < base
    ensures Undoes(all, [], sale, base, [])
  {
    assert all + [] == all;
  }

  lemma RefundStep(all: seq<Payment>, targets: seq<Payment>, sale: Id, base: Id, made: seq<Payment>, at: int)
    requires IsLedger(all) && Reversible(all, targets, sale) && targets != []
    requires Undoes(all, targets[..|targets| - 1], sale, base, made)
    ensures Undoes(all, targets, sale, base, AddRefund(all, made, targets[|targets| - 1], sale, base, at))
  {
    var last := targets[|targets| - 1];
    if NotYetReversed(all, last.id) {
      forall r | r in made ensures r.reverses.Some? && r.reverses != Some(last.id) {
        assert NamesTarget(targets[..|targets| - 1], r);
      }
      NextRefundFollows(all, made, last, sale, base, at);
      NextUndoes(all, targets, sale, base, made, RefundRow(last, sale, base + |made|, at));
    } else {
      SameUndoes(all, targets, sale, base, made);
    }
  }

  lemma NextUndoes(all: seq<Payment>, targets: seq<Payment>, sale: Id, base: Id, front: seq<Payment>, row: Payment)
    requires targets != [] && Undoes(all, targets[..|targets| - 1], sale, base, front)
    requires Follows(all + front, row) && row.owner == Sale(sale) && !IsOriginal(row) && row.id == base + |front|
    requires row.reverses == Some(targets[|targets| - 1].id)
    ensures Undoes(all, targets, sale, base, front + [row])
  {
    LedgerAppend(all + front, row);
    assert all + (front + [row]) == (all + front) + [row];
    forall r | r in front + [row] ensures NamesTarget(targets, r) {
      assert r in front ==> NamesTarget(targets[..|targets| - 1], r);
    }
    forall i | 0 <= i < |targets| ensures !NotYetReversed(all + front + [row], targets[i].id) {
      if i < |targets| - 1 {
        assert targets[..|targets| - 1][i] == targets[i];
        StillReversed(all + front, row, targets[i].id);
      } else {
        assert row in all + front + [row];
      }
    }
  }

  lemma SameUndoes(all: seq<Payment>, targets: seq<Payment>, sale: Id, base: Id, rows: seq<Payment>)
    requires targets != [] && Undoes(all, targets[..|targets| - 1], sale, base, rows)
    requires !NotYetReversed(all, targets[|targets| - 1].id)
    ensures Undoes(all, targets, sale, base, rows)
  {
    forall r | r in rows ensures NamesTarget(targets, r) {
      assert NamesTarget(targets[..|targets| - 1], r);
    }
    forall i | 0 <= i < |targets| ensures !NotYetReversed(all + rows, targets[i].id) {
      if i < |targets| - 1 {
        assert targets[..|targets| - 1][i] == targets[i];
      } else {
        var r :| r in all && r.reverses == Some(targets[i].id);
        assert r in all + rows;
      }
    }
  }

  lemma StillReversed(rows: seq<Payment>, p: Payment, id: Id)
    requires !NotYetReversed(rows, id)
    ensures !NotYetReversed(rows + [p], id)
  {
    var r :| r in rows && r.reverses == Some(id);
    assert r in rows + [p];
  }

  lemma NextRefundFollows(all: seq<Payment>, front: seq<Payment>, last: Payment, sale: Id, base: Id, at: int)
    requires IsLedger(all + front) && last in all && OriginalsOf(sale)(last) && NotYetReversed(all, last.id)
    requires forall p | p in all + front :: p.id < base + |front|
    requires forall r | r in front :: r.reverses.Some? && r.reverses != Some(last.id)
    ensures Follows(all + front, RefundRow(last, sale, base + |front|, at))
  {
    var row := RefundRow(last, sale, base + |front|, at);
    LedgerRows(all + front);
    assert last in all + front && Reverses(row, last);
    forall r | r in all + front ensures r.reverses != Some(last.id) {
      assert r in all || r in front;
    }
  }

  lemma {:induction false} TargetsDistinct(rows: seq<Payment>, keep: Payment -> bool)
    requires IsLedger(rows)
    ensures forall i, j | 0 <= i < j < |Filter(rows, keep)| :: Filter(rows, keep)[i].id != Filter(rows, keep)[j].id
  {
    if rows != [] {
      var front, last := rows[..|rows| - 1], rows[|rows| - 1];
      TargetsDistinct(front, keep);
      forall q | q in Filter(front, keep) ensures q.id != last.id {
        FilterMember(front, keep, q);
      }
    }
  }

  /** Cancelling appends a legitimate ledger extension in which nothing of the sale stands any more. */
  lemma RefundsKeepLedger(db: Db, sale: Id, at: int)
    requires IsLedger(db.payments) && forall p | p in db.payments :: p.id < db.next
    ensures var after := db.payments + Refunds(db, sale, at);
            && IsLedger(after)
            && (forall p | p in after :: p.id < db.next + |Refunds(db, sale, at)|)
            && (forall p | p in after && p.owner == Sale(sale) :: !Stands(after, p))
            && (forall r | r in Refunds(db, sale, at) :: r.owner == Sale(sale) && !IsOriginal(r))
  {
    var targets := Filter(db.payments, OriginalsOf(sale));
    forall p ensures p in targets <==> p in db.payments && OriginalsOf(sale)(p) {
      FilterMember(db.payments, OriginalsOf(sale), p);
    }
    TargetsDistinct(db.payments, OriginalsOf(sale));
    var rows := RefundsAppend(db.payments, targets, sale, db.next, at);
    NothingStands(db.payments, targets, sale, db.next, rows);
  }

  lemma NothingStands(all: seq<Payment>, targets: seq<Payment>, sale: Id, base: Id, rows: seq<Payment>)
    requires Undoes(all, targets, sale, base, rows)
    requires forall p | p in all && OriginalsOf(sale)(p) :: p in targets
    ensures forall p | p in all + rows && p.owner == Sale(sale) :: !Stands(all + rows, p)
  {
    forall p | p in all + rows && p.owner == Sale(sale) ensures !Stands(all + rows, p) {
      if IsOriginal(p) {
        assert p in targets;
        var i :| 0 <= i < |targets| && targets[i] == p;
      }
    }
  }

  /** Rows appended for one sale change nobody else's net paid amount. */
  lemma {:induction false} OthersPaid(rows: seq<Payment>, more: seq<Payment>, sale: Id, owner: Owner)
    requires owner != Sale(sale) && forall r | r in more :: r.owner == Sale(sale)
    ensures Paid(rows + more, owner) == Paid(rows, owner)
  {
    SumConcat(rows, more, Signed(Ledger.AmountFor(owner)));
    SumZero(more, Signed(Ledger.AmountFor(owner)));
  }

  lemma CancelledOrdersTotal(orders: seq<Order>, sale: Id, owner: Owner)
    ensures OrderTotal(CancelSaleOrders(orders, sale), owner) == if owner == Sale(sale) then 0 else OrderTotal(orders, owner)
    ensures FullTotal(CancelSaleOrders(orders, sale), owner) == FullTotal(orders, owner)
  {
    var after := CancelSaleOrders(orders, sale);
    SumPointwise(after, orders, FullFrom(owner), FullFrom(owner));
    if owner == Sale(sale) {
      SumZero(after, AmountFrom(owner));
    } else {
      SumPointwise(after, orders, AmountFrom(owner), AmountFrom(owner));
    }
  }

  /** After a cancellation every figure of the sale's ledger is zero, and no other owner's balance moved. */
  lemma CancelZeroes(db: Db, sale: Id, hasReason: bool, at: int, owner: Owner)
    requires IsLedger(db.payments) && forall p | p in db.payments :: p.id < db.next
    requires CancelSale(db, sale, hasReason, at).Ok?
    ensures var after := AfterCancelSale(db, sale, hasReason, at);
            if owner == Sale(sale) then
              var ledger := LedgerOf(after, owner);
              && ledger.orderAmount == ledger.discountAmount == ledger.couponDiscountAmount == 0
              && ledger.netChargedAmount == ledger.remainingAmount == 0
              && Paid(after.payments, owner) == 0
            else Remaining(after, owner) == Remaining(db, owner)
  {
    var after := AfterCancelSale(db, sale, hasReason, at);
    RefundsKeepLedger(db, sale, at);
    CancelledOrdersTotal(db.orders, sale, owner);
    if owner == Sale(sale) {
      FoldsAreStanding(after.payments, owner);
      AxesPartition(after, owner);
      SumZero(after.payments, StandingCharge(after.payments, owner));
      SumZero(after.payments, StandingDiscount(after.payments, owner));
      SumZero(after.payments, StandingCoupon(after.payments, owner));
    } else {
      OthersPaid(db.payments, Refunds(db, sale, at), sale, owner);
    }
  }

  /** Asking again adds no row. */
  lemma CancelTwice(db: Db, sale: Id, hasReason: bool, at: int, again: bool, later: int)
    requires CancelSale(db, sale, hasReason, at).Ok?
    ensures AfterCancelSale(AfterCancelSale(db, sale, hasReason, at), sale, again, later)
         == AfterCancelSale(db, sale, hasReason, at)
  {
    CancelledIsFound(db.sales, sale);
  }

  lemma {:induction false} CancelledIsFound(sales: seq<CounterSale>, id: Id)
    requires FindSale(sales, id).Some?
    ensures FindSale(CancelSaleRows(sales, id), id) == Some(FindSale(sales, id).value.(status := SaleCancelled))
  {
    var front, last := sales[..|sales| - 1], sales[|sales| - 1];
    assert CancelSaleRows(sales, id)[..|sales| - 1] == CancelSaleRows(front, id);
    if last.id != id {
      CancelledIsFound(front, id);
    }
  }
}
