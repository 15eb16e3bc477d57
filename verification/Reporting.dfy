/**
 Revenue over a time window, read from the ledger (server/src/services/reporting.ts), and the windows
 of the daily closing (server/src/services/closing.ts).
 */
module Reporting {
  import opened Billing
  import opened Ledger
  import opened Schema
  import opened Sums
  import opened Wrappers

  // ---- windows ----

  /** Both ends are inclusive; an absent end is open. */
  datatype Window = Window(since: Option<int>, until: Option<int>)

  predicate Covers(w: Window, at: int) {
    (w.since.Some? ==> w.since.value <= at) && (w.until.Some? ==> at <= w.until.value)
  }

  function Within(w: Window): Payment -> bool {
    (p: Payment) => Covers(w, p.at)
  }

  const ALL_TIME: Window := Window(None, None)

  // ---- figures of a set of rows; originals may lie outside it ----

  /** Money a row moves: plus for a charge, minus for taking one back, nothing on the discount side. */
  function Effect(all: seq<Payment>): Payment -> int {
    Signed(ChargeWeight(all))
  }

  function DiscountEffect(all: seq<Payment>): Payment -> int {
    Signed(DiscountWeight(all))
  }

  function CouponEffect(all: seq<Payment>): Payment -> int {
    Signed(CouponWeight(all))
  }

  function ManualWeight(all: seq<Payment>): Payment -> int {
    (p: Payment) => if MovesDiscount(all, p) && !MovesCoupon(all, p) then p.amount else 0
  }

  function ManualEffect(all: seq<Payment>): Payment -> int {
    Signed(ManualWeight(all))
  }

  function ByMethod(all: seq<Payment>, m: string): Payment -> int {
    (p: Payment) => if p.methodCode == m then Effect(all)(p) else 0
  }

  function OfTables(all: seq<Payment>): Payment -> int {
    (p: Payment) => if p.owner.Session? then Effect(all)(p) else 0
  }

  function OfCounter(all: seq<Payment>): Payment -> int {
    (p: Payment) => if p.owner.Sale? then Effect(all)(p) else 0
  }

  datatype MethodAmount = MethodAmount(methodCode: string, amount: int)

  datatype Revenue = Revenue(totalCharged: int, totalRefunded: int, totalRevenue: int, manualDiscount: int,
                             couponDiscount: int, totalDiscount: int, byMethod: seq<MethodAmount>, table: int, counter: int)

  // ---- the per-method map, in insertion order ----

  function AmountIn(rows: seq<MethodAmount>, m: string): int {
    if rows == [] then 0
    else if rows[|rows| - 1].methodCode == m then rows[|rows| - 1].amount
    else AmountIn(rows[..|rows| - 1], m)
  }

  function EntryAmount(e: MethodAmount): int {
    e.amount
  }

  ghost predicate MethodsDistinct(rows: seq<MethodAmount>) {
    forall i, j | 0 <= i < j < |rows| :: rows[i].methodCode != rows[j].methodCode
  }

  lemma {:induction false} AmountAbsent(rows: seq<MethodAmount>, m: string)
    requires forall i | 0 <= i < |rows| :: rows[i].methodCode != m
    ensures AmountIn(rows, m) == 0
  {
    if rows != [] {
      AmountAbsent(rows[..|rows| - 1], m);
    }
  }

  lemma {:induction false} AmountAt(rows: seq<MethodAmount>, i: nat)
    requires MethodsDistinct(rows) && i < |rows|
    ensures AmountIn(rows, rows[i].methodCode) == rows[i].amount
  {
    if i < |rows| - 1 {
      AmountAt(rows[..|rows| - 1], i);
    }
  }

  lemma {:induction false} AmountElsewhere(rows: seq<MethodAmount>, i: nat, e: MethodAmount, m: string)
    requires i < |rows| && e.methodCode == rows[i].methodCode && m != e.methodCode
    ensures AmountIn(rows[i := e], m) == AmountIn(rows, m)
  {
    var n := |rows| - 1;
    if i < n {
      assert rows[i := e][..n] == rows[..n][i := e];
      AmountElsewhere(rows[..n], i, e, m);
    } else {
      assert rows[i := e][..n] == rows[..n];
    }
  }

  ghost predicate HasMethod(rows: seq<MethodAmount>, m: string) {
    exists i | 0 <= i < |rows| :: rows[i].methodCode == m
  }

  /** One `map.set(method, (map.get(method) ?? 0) + delta)`. */
  method AddTo(rows: seq<MethodAmount>, m: string, delta: int) returns (r: seq<MethodAmount>)
    requires MethodsDistinct(rows)
    ensures MethodsDistinct(r)
    ensures forall k: string :: AmountIn(r, k) == AmountIn(rows, k) + if k == m then delta else 0
    ensures Sum(r, EntryAmount) == Sum(rows, EntryAmount) + delta
    ensures forall k: string :: HasMethod(r, k) <==> k == m || HasMethod(rows, k)
  {
    for i := 0 to |rows|
      invariant forall k | 0 <= k < i :: rows[k].methodCode != m
    {
      if rows[i].methodCode == m {
        var e := MethodAmount(m, rows[i].amount + delta);
        r := rows[i := e];
        AmountAt(rows, i);
        AmountAt(r, i);
        forall k: string | k != m ensures AmountIn(r, k) == AmountIn(rows, k) {
          AmountElsewhere(rows, i, e, k);
        }
        SumOneDiff(rows, r, EntryAmount, EntryAmount, i);
        SameMethods(rows, r, i);
        return;
      }
    }
    AmountAbsent(rows, m);
    r := rows + [MethodAmount(m, delta)];
    assert r[..|rows|] == rows;
    SumAppend(rows, MethodAmount(m, delta), EntryAmount);
    NewMethod(rows, r, m);
  }

  lemma SameMethods(rows: seq<MethodAmount>, r: seq<MethodAmount>, i: nat)
    requires |r| == |rows| && forall k | 0 <= k < |rows| :: r[k].methodCode == rows[k].methodCode
    requires i < |rows|
    ensures forall k: string :: HasMethod(r, k) <==> k == rows[i].methodCode || HasMethod(rows, k)
  {
    assert HasMethod(rows, rows[i].methodCode);
    forall k: string ensures HasMethod(r, k) <==> HasMethod(rows, k) {
      if HasMethod(rows, k) {
        var j :| 0 <= j < |rows| && rows[j].methodCode == k;
        assert r[j].methodCode == k;
      }
    }
  }

  lemma NewMethod(rows: seq<MethodAmount>, r: seq<MethodAmount>, m: string)
    requires |r| == |rows| + 1 && r[..|rows|] == rows && r[|rows|].methodCode == m
    ensures forall k: string :: HasMethod(r, k) <==> k == m || HasMethod(rows, k)
  {
    assert forall j | 0 <= j < |rows| :: r[j] == rows[j];
    forall k: string ensures HasMethod(r, k) <==> k == m || HasMethod(rows, k) {
      if HasMethod(rows, k) {
        var j :| 0 <= j < |rows| && rows[j].methodCode == k;
        assert r[j].methodCode == k;
      }
      assert r[|rows|].methodCode == m;
    }
  }

  /** The map records exactly what each method earned over the rows. */
  ghost predicate Records(byMethod: seq<MethodAmount>, rows: seq<Payment>, all: seq<Payment>) {
    && MethodsDistinct(byMethod)
    && (forall m: string :: AmountIn(byMethod, m) == Sum(rows, ByMethod(all, m)))
    && Sum(byMethod, EntryAmount) == Sum(rows, Effect(all))
    && (forall p | p in rows && Effect(all)(p) != 0 :: HasMethod(byMethod, p.methodCode))
  }

  lemma RecordsStep(before: seq<MethodAmount>, after: seq<MethodAmount>, rows: seq<Payment>, i: nat, all: seq<Payment>)
    requires i < |rows| && Records(before, rows[..i], all) && MethodsDistinct(after)
    requires forall k: string :: AmountIn(after, k) == AmountIn(before, k) + ByMethod(all, k)(rows[i])
    requires Sum(after, EntryAmount) == Sum(before, EntryAmount) + Effect(all)(rows[i])
    requires forall k: string | HasMethod(before, k) :: HasMethod(after, k)
    requires Effect(all)(rows[i]) != 0 ==> HasMethod(after, rows[i].methodCode)
    ensures Records(after, rows[..i + 1], all)
  {
    assert forall p | p in rows[..i + 1] :: p in rows[..i] || p == rows[i];
    SumPrefix(rows, i, Effect(all));
    forall m: string ensures AmountIn(after, m) == Sum(rows[..i + 1], ByMethod(all, m)) {
      SumPrefix(rows, i, ByMethod(all, m));
    }
  }

  /** Money taken or given back goes to its method and its channel. */
  method Book(rows: seq<Payment>, i: nat, all: seq<Payment>, byMethod: seq<MethodAmount>, delta: int)
    returns (after: seq<MethodAmount>)
    requires i < |rows| && Records(byMethod, rows[..i], all) && delta == Effect(all)(rows[i])
    ensures Records(after, rows[..i + 1], all)
  {
    after := AddTo(byMethod, rows[i].methodCode, delta);
    RecordsStep(byMethod, after, rows, i, all);
  }

  lemma NothingBooked(rows: seq<Payment>, i: nat, all: seq<Payment>, byMethod: seq<MethodAmount>)
    requires i < |rows| && Records(byMethod, rows[..i], all) && Effect(all)(rows[i]) == 0
    ensures Records(byMethod, rows[..i + 1], all)
  {
    RecordsStep(byMethod, byMethod, rows, i, all);
  }

  /** The running totals over the first rows. */
  ghost predicate Totals(rows: seq<Payment>, all: seq<Payment>, charged: int, refunded: int, manual: int, coupon: int,
                         table: int, counter: int) {
    && charged == Sum(rows, GrossWeight) && refunded == Sum(rows, RefundWeight(all))
    && manual == Sum(rows, ManualEffect(all)) && coupon == Sum(rows, CouponEffect(all))
    && table == Sum(rows, OfTables(all)) && counter == Sum(rows, OfCounter(all))
  }

  lemma TotalsStep(rows: seq<Payment>, i: nat, all: seq<Payment>, charged: int, refunded: int, manual: int, coupon: int,
                   table: int, counter: int)
    requires i < |rows| && Totals(rows[..i], all, charged, refunded, manual, coupon, table, counter)
    ensures var p := rows[i];
            Totals(rows[..i + 1], all, charged + GrossWeight(p), refunded + RefundWeight(all)(p),
                   manual + ManualEffect(all)(p), coupon + CouponEffect(all)(p), table + OfTables(all)(p),
                   counter + OfCounter(all)(p))
  {
    SumPrefix(rows, i, GrossWeight);
    SumPrefix(rows, i, RefundWeight(all));
    SumPrefix(rows, i, ManualEffect(all));
    SumPrefix(rows, i, CouponEffect(all));
    SumPrefix(rows, i, OfTables(all));
    SumPrefix(rows, i, OfCounter(all));
  }

  /** The payment loop. Originals outside the window are looked up in the whole ledger. */
  method ComputeRevenueSummary(db: Database, w: Window) returns (r: Revenue)
    ensures var rows := Filter(db.payments, Within(w));
            && Totals(rows, db.payments, r.totalCharged, r.totalRefunded, r.manualDiscount, r.couponDiscount, r.table, r.counter)
            && Records(r.byMethod, rows, db.payments)
            && r.totalRevenue == r.totalCharged - r.totalRefunded
            && r.totalDiscount == r.manualDiscount + r.couponDiscount
  {
    var all := db.payments;
    var payments := Filter(all, Within(w));
    var totalCharged, totalRefunded, manualDiscount, couponDiscount, table, counter := 0, 0, 0, 0, 0, 0;
    var byMethod: seq<MethodAmount> := [];
    for i := 0 to |payments|
      invariant Totals(payments[..i], all, totalCharged, totalRefunded, manualDiscount, couponDiscount, table, counter)
      invariant Records(byMethod, payments[..i], all)
    {
      var payment := payments[i];
      TotalsStep(payments, i, all, totalCharged, totalRefunded, manualDiscount, couponDiscount, table, counter);
      var original := if payment.reverses.Some? then FindPayment(all, payment.reverses.value) else None;
      if payment.kind == Charge {
        totalCharged := totalCharged + payment.amount;
        byMethod := Book(payments, i, all, byMethod, payment.amount);
        table, counter := AddChannel(payment, table, counter, payment.amount);
      } else if payment.kind == Discount {
        NothingBooked(payments, i, all, byMethod);
        if payment.methodCode == COUPON_DISCOUNT_METHOD {
          couponDiscount := couponDiscount + payment.amount;
        } else {
          manualDiscount := manualDiscount + payment.amount;
        }
      } else if original.Some? && original.value.kind == Discount {
        NothingBooked(payments, i, all, byMethod);
        if original.value.methodCode == COUPON_DISCOUNT_METHOD {
          couponDiscount := couponDiscount - payment.amount;
        } else {
          manualDiscount := manualDiscount - payment.amount;
        }
      } else {
        totalRefunded := totalRefunded + payment.amount;
        byMethod := Book(payments, i, all, byMethod, -payment.amount);
        table, counter := AddChannel(payment, table, counter, -payment.amount);
      }
    }
    assert payments[..|payments|] == payments;
    r := Revenue(totalCharged, totalRefunded, totalCharged - totalRefunded, manualDiscount, couponDiscount,
                 manualDiscount + couponDiscount, byMethod, table, counter);
  }

  method AddChannel(payment: Payment, table: int, counter: int, delta: int) returns (t: int, c: int)
    ensures t == table + (if payment.owner.Session? then delta else 0)
    ensures c == counter + if payment.owner.Sale? then delta else 0
  {
    t, c := table, counter;
    if payment.owner.Sale? {
      c := counter + delta;
    } else {
      t := table + delta;
    }
  }

  // ---- the figures agree with each other ----

  /** Net revenue is the same whether summed by row, by method, or by channel; every discount is manual or coupon. */
  lemma FiguresAgree(rows: seq<Payment>, all: seq<Payment>, byMethod: seq<MethodAmount>)
    requires Records(byMethod, rows, all)
    ensures Sum(rows, GrossWeight) - Sum(rows, RefundWeight(all)) == Sum(rows, Effect(all))
    ensures Sum(rows, OfTables(all)) + Sum(rows, OfCounter(all)) == Sum(rows, Effect(all))
    ensures Sum(byMethod, EntryAmount) == Sum(rows, Effect(all))
    ensures Sum(rows, ManualEffect(all)) + Sum(rows, CouponEffect(all)) == Sum(rows, DiscountEffect(all))
  {
    SumPlus(rows, Effect(all), RefundWeight(all), GrossWeight);
    SumPlus(rows, OfTables(all), OfCounter(all), Effect(all));
    SumPlus(rows, ManualEffect(all), CouponEffect(all), DiscountEffect(all));
  }

  // ---- the report refines the owners' ledgers ----

  function For(owner: Owner, f: Payment -> int): Payment -> int {
    (p: Payment) => if p.owner == owner then f(p) else 0
  }

  function OwnerSum(rows: seq<Payment>, f: Payment -> int): Owner -> int {
    (owner: Owner) => Sum(rows, For(owner, f))
  }

  ghost predicate Partition(rows: seq<Payment>, owners: seq<Owner>) {
    && (forall i, j | 0 <= i < j < |owners| :: owners[i] != owners[j])
    && (forall p | p in rows :: p.owner in owners)
  }

  function OwnerTerm(p: Payment, f: Payment -> int): Owner -> int {
    (owner: Owner) => if p.owner == owner then f(p) else 0
  }

  lemma OwnTerm(owners: seq<Owner>, p: Payment, f: Payment -> int)
    requires (forall i, j | 0 <= i < j < |owners| :: owners[i] != owners[j]) && p.owner in owners
    ensures Sum(owners, OwnerTerm(p, f)) == f(p)
  {
    var k :| 0 <= k < |owners| && owners[k] == p.owner;
    forall i | 0 <= i < |owners| && i != k ensures OwnerTerm(p, f)(owners[i]) == 0 {
      assert owners[i] != owners[k];
    }
    SumSingle(owners, OwnerTerm(p, f), k);
  }

  /** Summing owner by owner is summing row by row. */
  lemma {:induction false} SumByOwner(rows: seq<Payment>, owners: seq<Owner>, f: Payment -> int)
    requires Partition(rows, owners)
    ensures Sum(owners, OwnerSum(rows, f)) == Sum(rows, f)
  {
    if rows == [] {
      SumZero(owners, OwnerSum(rows, f));
    } else {
      var front, last := rows[..|rows| - 1], rows[|rows| - 1];
      SumByOwner(front, owners, f);
      OwnTerm(owners, last, f);
      SumPlus(owners, OwnerSum(front, f), OwnerTerm(last, f), OwnerSum(rows, f));
    }
  }

  function ChargedOf(rows: seq<Payment>): Owner -> int {
    (owner: Owner) => Charged(PaymentsOf(rows, owner))
  }

  function DiscountedOf(rows: seq<Payment>): Owner -> int {
    (owner: Owner) => Discounted(PaymentsOf(rows, owner))
  }

  function Standing(rows: seq<Payment>, kind: Kind): Payment -> int {
    (p: Payment) => if Stands(rows, p) && p.kind == kind then p.amount else 0
  }

  /** Over all time, net revenue is the sum of every owner's net charges, and total discount of every owner's discount. */
  lemma ReportIsSumOfOwners(rows: seq<Payment>, owners: seq<Owner>)
    requires IsLedger(rows) && Partition(rows, owners)
    ensures Sum(Filter(rows, Within(ALL_TIME)), Effect(rows)) == Sum(owners, ChargedOf(rows)) >= 0
    ensures Sum(Filter(rows, Within(ALL_TIME)), DiscountEffect(rows)) == Sum(owners, DiscountedOf(rows)) >= 0
  {
    FilterAll(rows, Within(ALL_TIME));
    SymmetricAxes(rows);
    AxisIsSumOfOwners(rows, owners, ChargeWeight(rows), Charge, ChargedOf(rows));
    AxisIsSumOfOwners(rows, owners, DiscountWeight(rows), Discount, DiscountedOf(rows));
  }

  lemma AxisIsSumOfOwners(rows: seq<Payment>, owners: seq<Owner>, w: Payment -> int, kind: Kind, byOwner: Owner -> int)
    requires IsLedger(rows) && Partition(rows, owners) && Symmetric(rows, w) && (kind == Charge || kind == Discount)
    requires forall p | p in rows && IsOriginal(p) :: w(p) == if p.kind == kind then p.amount else 0
    requires forall owner: Owner :: byOwner(owner) ==
               if kind == Charge then Charged(PaymentsOf(rows, owner)) else Discounted(PaymentsOf(rows, owner))
    ensures Sum(rows, Signed(w)) == Sum(owners, byOwner) >= 0
  {
    SignedFold(rows, w);
    SumCong(rows, OnStanding(rows, w), Standing(rows, kind));
    SumByOwner(rows, owners, Standing(rows, kind));
    forall owner | owner in owners ensures byOwner(owner) == OwnerSum(rows, Standing(rows, kind))(owner) {
      FoldsAreStanding(rows, owner);
      if kind == Charge {
        SumCong(rows, StandingCharge(rows, owner), For(owner, Standing(rows, kind)));
      } else {
        SumCong(rows, StandingDiscount(rows, owner), For(owner, Standing(rows, kind)));
      }
    }
    SumCong(owners, byOwner, OwnerSum(rows, Standing(rows, kind)));
    LedgerRows(rows);
    SumNonneg(rows, Standing(rows, kind));
  }

  // ---- windows add up ----

  /** Any figure over a window, looked up in the whole ledger. */
  function Figure(rows: seq<Payment>, w: Window, f: Payment -> int): int {
    Sum(Filter(rows, Within(w)), f)
  }

  function Masked(w: Window, f: Payment -> int): Payment -> int {
    (p: Payment) => if Covers(w, p.at) then f(p) else 0
  }

  /** Splitting a window between two instants splits every figure, also when a refund and its original fall apart. */
  lemma WindowsAdd(rows: seq<Payment>, f: Payment -> int, since: Option<int>, cut: int, until: Option<int>)
    requires since.Some? ==> since.value <= cut
    requires until.Some? ==> cut < until.value
    ensures Figure(rows, Window(since, Some(cut)), f) + Figure(rows, Window(Some(cut + 1), until), f)
         == Figure(rows, Window(since, until), f)
  {
    var first, second, whole := Window(since, Some(cut)), Window(Some(cut + 1), until), Window(since, until);
    SumFilter(rows, Within(first), f, Masked(first, f));
    SumFilter(rows, Within(second), f, Masked(second, f));
    SumFilter(rows, Within(whole), f, Masked(whole, f));
    SumPlus(rows, Masked(first, f), Masked(second, f), Masked(whole, f));
  }

  /** Two closings in a row share the instant between them: together they count the payments of that instant twice, and nothing else. */
  lemma ClosingsOverlap(rows: seq<Payment>, f: Payment -> int, since: int, shared: int, until: int)
    requires since <= shared <= until
    ensures Figure(rows, Window(Some(since), Some(shared)), f) + Figure(rows, Window(Some(shared), Some(until)), f)
         == Figure(rows, Window(Some(since), Some(until)), f) + Figure(rows, Window(Some(shared), Some(shared)), f)
  {
    var first, second := Window(Some(since), Some(shared)), Window(Some(shared), Some(until));
    var whole, instant := Window(Some(since), Some(until)), Window(Some(shared), Some(shared));
    SumFilter(rows, Within(first), f, Masked(first, f));
    SumFilter(rows, Within(second), f, Masked(second, f));
    SumFilter(rows, Within(whole), f, Masked(whole, f));
    SumFilter(rows, Within(instant), f, Masked(instant, f));
    var both := (p: Payment) => Masked(first, f)(p) + Masked(second, f)(p);
    SumPlus(rows, Masked(first, f), Masked(second, f), both);
    SumPlus(rows, Masked(whole, f), Masked(instant, f), both);
  }

  // ---- closing ----

  /** Start of the next closing: the last closing, else the first payment, else the start of the day. */
  function ClosingStart(closings: seq<int>, payments: seq<Payment>, startOfToday: int): int {
    if closings != [] then Latest(closings)
    else if payments != [] then Earliest(payments)
    else startOfToday
  }

  function Latest(times: seq<int>): int
    requires times != []
  {
    if |times| == 1 then times[0] else Max(Latest(times[..|times| - 1]), times[|times| - 1])
  }

  function Earliest(payments: seq<Payment>): int
    requires payments != []
  {
    if |payments| == 1 then payments[0].at else Min(Earliest(payments[..|payments| - 1]), payments[|payments| - 1].at)
  }

  lemma {:induction false} EarliestBounds(payments: seq<Payment>)
    requires payments != []
    ensures forall p | p in payments :: Earliest(payments) <= p.at
  {
    if |payments| > 1 {
      EarliestBounds(payments[..|payments| - 1]);
      assert payments == payments[..|payments| - 1] + [payments[|payments| - 1]];
    }
  }

  /** The first closing leaves nothing out: its window holds every payment up to its end. */
  lemma FirstClosingCoversAll(payments: seq<Payment>, f: Payment -> int, startOfToday: int, now: int)
    ensures Figure(payments, Window(Some(ClosingStart([], payments, startOfToday)), Some(now)), f)
         == Figure(payments, Window(None, Some(now)), f)
  {
    if payments != [] {
      EarliestBounds(payments);
      FilterCong(payments, Within(Window(Some(Earliest(payments)), Some(now))), Within(Window(None, Some(now))));
    }
  }

  function OfKind(kind: Kind): Payment -> int {
    (p: Payment) => if p.kind == kind then p.amount else 0
  }

  function InCash(all: seq<Payment>, cashCodes: set<string>): Payment -> int {
    (p: Payment) => if p.methodCode in cashCodes then Effect(all)(p) else 0
  }

  function CashEntry(cashCodes: set<string>): MethodAmount -> int {
    (e: MethodAmount) => if e.methodCode in cashCodes then e.amount else 0
  }

  datatype ClosingTotals = ClosingTotals(totalVoid: int, totalRefund: int, expectedCash: int)

  function CashOver(rows: seq<Payment>, all: seq<Payment>, cashCodes: set<string>): MethodAmount -> int {
    (e: MethodAmount) => if e.methodCode in cashCodes then Sum(rows, ByMethod(all, e.methodCode)) else 0
  }

  /** What a row of method `m` and the given effect adds to the entry of a cash method. */
  function CashTerm(m: string, effect: int, cashCodes: set<string>): MethodAmount -> int {
    (e: MethodAmount) => if e.methodCode in cashCodes && e.methodCode == m then effect else 0
  }

  lemma OneCashTerm(byMethod: seq<MethodAmount>, m: string, effect: int, cashCodes: set<string>)
    requires MethodsDistinct(byMethod) && (effect != 0 ==> HasMethod(byMethod, m))
    ensures Sum(byMethod, CashTerm(m, effect, cashCodes)) == if m in cashCodes then effect else 0
  {
    if effect != 0 {
      var k :| 0 <= k < |byMethod| && byMethod[k].methodCode == m;
      forall i | 0 <= i < |byMethod| && i != k ensures byMethod[i].methodCode != m {
        assert byMethod[i].methodCode != byMethod[k].methodCode;
      }
      SumSingle(byMethod, CashTerm(m, effect, cashCodes), k);
    } else {
      SumZero(byMethod, CashTerm(m, effect, cashCodes));
    }
  }

  lemma {:induction false} CashByRows(byMethod: seq<MethodAmount>, rows: seq<Payment>, all: seq<Payment>, cashCodes: set<string>)
    requires MethodsDistinct(byMethod)
    requires forall p | p in rows && Effect(all)(p) != 0 :: HasMethod(byMethod, p.methodCode)
    ensures Sum(byMethod, CashOver(rows, all, cashCodes)) == Sum(rows, InCash(all, cashCodes))
    decreases |rows|
  {
    if rows == [] {
      SumZero(byMethod, CashOver(rows, all, cashCodes));
    } else {
      var front, last := rows[..|rows| - 1], rows[|rows| - 1];
      assert forall p | p in front :: p in rows;
      CashByRows(byMethod, front, all, cashCodes);
      var term := CashTerm(last.methodCode, Effect(all)(last), cashCodes);
      OneCashTerm(byMethod, last.methodCode, Effect(all)(last), cashCodes);
      SumPlus(byMethod, CashOver(front, all, cashCodes), term, CashOver(rows, all, cashCodes));
    }
  }

  /** The cash that should be in the drawer: per-method figures of cash methods are the cash rows. */
  lemma CashIsCashRows(byMethod: seq<MethodAmount>, rows: seq<Payment>, all: seq<Payment>, cashCodes: set<string>)
    requires Records(byMethod, rows, all)
    ensures Sum(byMethod, CashEntry(cashCodes)) == Sum(rows, InCash(all, cashCodes))
  {
    CashByRows(byMethod, rows, all, cashCodes);
    forall e | e in byMethod ensures CashEntry(cashCodes)(e) == CashOver(rows, all, cashCodes)(e) {
      var i :| 0 <= i < |byMethod| && byMethod[i] == e;
      AmountAt(byMethod, i);
    }
    SumCong(byMethod, CashEntry(cashCodes), CashOver(rows, all, cashCodes));
  }

  /** Void and refund totals by loop, expected cash from the per-method figures. */
  method ComputeClosingTotals(db: Database, w: Window, cashCodes: set<string>) returns (t: ClosingTotals)
    ensures var rows := Filter(db.payments, Within(w));
            && t.totalVoid == Sum(rows, OfKind(Void)) && t.totalRefund == Sum(rows, OfKind(Refund))
            && t.expectedCash == Sum(rows, InCash(db.payments, cashCodes))
  {
    var summary := ComputeRevenueSummary(db, w);
    var payments := Filter(db.payments, Within(w));
    var totalVoid, totalRefund := 0, 0;
    for i := 0 to |payments|
      invariant totalVoid == Sum(payments[..i], OfKind(Void)) && totalRefund == Sum(payments[..i], OfKind(Refund))
    {
      SumPrefix(payments, i, OfKind(Void));
      SumPrefix(payments, i, OfKind(Refund));
      if payments[i].kind == Void {
        totalVoid := totalVoid + payments[i].amount;
      }
      if payments[i].kind == Refund {
        totalRefund := totalRefund + payments[i].amount;
      }
    }
    assert payments[..|payments|] == payments;
    var expectedCash := Sum(summary.byMethod, CashEntry(cashCodes));
    CashIsCashRows(summary.byMethod, payments, db.payments, cashCodes);
    t := ClosingTotals(totalVoid, totalRefund, expectedCash);
  }
}
