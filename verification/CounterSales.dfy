/**
 Prepaid counter sales (server/src/services/counterSale.ts): quoting with an exact discount per line,
 confirming in one transaction, and cancelling by reversing every payment.
 */
module CounterSales {
  import opened Coupons
  import opened Ledger
  import opened Orders
  import Payments
  import opened Schema
  import Shares = Allocation
  import opened Sums
  import opened Wrappers

  datatype SaleError =
    | OperationsDisabled
    | CouponProblem(reason: CouponError)
    | NotAllocatable
    | QuoteStale
    | MethodRequired
    | TenderShort
    | KeyInUse
    | SaleMissing
    | AlreadyCancelled
    | ReasonMissing

  /** What the menu guarantees of resolved lines. */
  predicate ValidLines(lines: seq<OrderLine>) {
    && lines != []
    && forall i | 0 <= i < |lines| ::
         lines[i].unitPrice >= 0 && 1 <= lines[i].quantity <= 50
         && forall k | 0 <= k < |lines[i].extras| :: lines[i].extras[k] >= 0
  }

  // ---- quote ----

  datatype QuoteCoupon = QuoteCoupon(code: string, benefit: Benefit, discount: int, targetLine: Option<nat>)

  datatype Quote = Quote(lines: seq<OrderLine>, discounts: seq<int>, subtotal: int, discountAmount: int,
                         totalAmount: int, coupon: Option<QuoteCoupon>)

  datatype Applied = Applied(discount: int, targetLine: Option<nat>)

  /** Positions of the lines the coupon's menu items allow. */
  function Candidates(lines: seq<OrderLine>, targets: seq<Id>): (c: seq<nat>)
    ensures forall k | 0 <= k < |c| :: c[k] < |lines| && lines[c[k]].menu in targets
  {
    if lines == [] then []
    else
      Candidates(lines[..|lines| - 1], targets)
      + if lines[|lines| - 1].menu in targets then [|lines| - 1] else []
  }

  /** An amount coupon takes at most the subtotal, a free-item coupon at most one base price of the chosen line. */
  function ComputeCouponDiscount(benefit: Benefit, lines: seq<OrderLine>, subtotal: int, target: Option<nat>)
    : Result<Applied, CouponError>
  {
    match benefit
    case AmountOff(amount) =>
      if Min(amount, subtotal) <= 0 then Err(NoEffect) else Ok(Applied(Min(amount, subtotal), None))
    case FreeItem(targets) =>
      var candidates := Candidates(lines, targets);
      if candidates == [] then Err(TargetMissing)
      else if target.Some? && target.value !in candidates then Err(TargetInvalid)
      else
        var chosen := if target.Some? then target.value else candidates[0];
        if Min(lines[chosen].unitPrice, subtotal) <= 0 then Err(NoEffect)
        else Ok(Applied(Min(lines[chosen].unitPrice, subtotal), Some(chosen)))
  }

  function KeyedLines(lines: seq<OrderLine>): seq<Shares.Line> {
    seq(|lines|, i requires 0 <= i < |lines| => Shares.Line(i, LineTotal(lines[i])))
  }

  function ShareAmounts(rows: seq<Shares.Line>): seq<int> {
    seq(|rows|, i requires 0 <= i < |rows| => rows[i].amount)
  }

  function Zeros(n: nat): seq<int> {
    seq(n, _ => 0)
  }

  /** The discount of each line: all on the target line, or in proportion. */
  function PerLine(lines: seq<OrderLine>, discount: int, targetLine: Option<nat>): Option<seq<int>>
    requires targetLine.Some? ==> targetLine.value < |lines|
  {
    if discount <= 0 then Some(Zeros(|lines|))
    else if targetLine.Some? then Some(Zeros(|lines|)[targetLine.value := discount])
    else
      match Shares.Allocate(discount, KeyedLines(lines))
      case Refused(_) => None
      case Shares(rows) => Some(ShareAmounts(rows))
  }

  function Subtotal(lines: seq<OrderLine>): int {
    Sum(lines, LineTotal)
  }

  function CouponFor(db: Db, lines: seq<OrderLine>, code: string, target: Option<nat>, now: int): Result<QuoteCoupon, SaleError> {
    if code !in db.coupons then Err(CouponProblem(NotFound))
    else if StateOf(db.coupons[code], now) != Redeemable then Err(CouponProblem(NotRedeemable(StateOf(db.coupons[code], now))))
    else
      match ComputeCouponDiscount(db.coupons[code].benefit, lines, Subtotal(lines), target)
      case Err(e) => Err(CouponProblem(e))
      case Ok(a) => Ok(QuoteCoupon(code, db.coupons[code].benefit, a.discount, a.targetLine))
  }

  function QuoteSale(db: Db, lines: seq<OrderLine>, code: Option<string>, target: Option<nat>, now: int)
    : Result<Quote, SaleError>
  {
    if code.None? then Ok(Quote(lines, Zeros(|lines|), Subtotal(lines), 0, Subtotal(lines), None))
    else
      var coupon := CouponFor(db, lines, code.value, target, now);
      if coupon.Err? then Err(coupon.error)
      else
        var discounts := PerLine(lines, coupon.value.discount, coupon.value.targetLine);
        if discounts.None? then Err(NotAllocatable)
        else
          Ok(Quote(lines, discounts.value, Subtotal(lines), coupon.value.discount,
                   Subtotal(lines) - coupon.value.discount, Some(coupon.value)))
  }

  /** Fills one array of per-line discounts in place. */
  method DiscountLines(lines: seq<OrderLine>, discount: int, targetLine: Option<nat>) returns (r: Option<seq<int>>)
    requires targetLine.Some? ==> targetLine.value < |lines|
    requires forall i | 0 <= i < |lines| :: LineTotal(lines[i]) >= 0
    ensures r == PerLine(lines, discount, targetLine)
  {
    var perLineDiscount := new int[|lines|](_ => 0);
    assert perLineDiscount[..] == Zeros(|lines|);
    if discount > 0 {
      if targetLine.Some? {
        perLineDiscount[targetLine.value] := discount;
        assert perLineDiscount[..] == Zeros(|lines|)[targetLine.value := discount];
      } else {
        var split, visits, broke := Shares.AllocateProportional(discount, KeyedLines(lines));
        if split.Refused? {
          return None;
        }
        var rows := split.shares;
        assert |rows| == |lines| && forall i | 0 <= i < |rows| :: rows[i].key == i;
        for i := 0 to |rows|
          invariant forall k | 0 <= k < i :: perLineDiscount[k] == rows[k].amount
        {
          perLineDiscount[rows[i].key] := rows[i].amount;
        }
        assert perLineDiscount[..] == ShareAmounts(rows);
      }
    }
    r := Some(perLineDiscount[..]);
  }

  method QuoteCounterSale(db: Database, lines: seq<OrderLine>, code: Option<string>, target: Option<nat>, now: int)
    returns (r: Result<Quote, SaleError>)
    requires forall i | 0 <= i < |lines| :: LineTotal(lines[i]) >= 0
    ensures r == QuoteSale(db.View(), lines, code, target, now)
  {
    var subtotal := Subtotal(lines);
    if code.None? {
      return Ok(Quote(lines, Zeros(|lines|), subtotal, 0, subtotal, None));
    }
    var coupon := CouponFor(db.View(), lines, code.value, target, now);
    if coupon.Err? {
      return Err(coupon.error);
    }
    var discounts := DiscountLines(lines, coupon.value.discount, coupon.value.targetLine);
    if discounts.None? {
      return Err(NotAllocatable);
    }
    r := Ok(Quote(lines, discounts.value, subtotal, coupon.value.discount, subtotal - coupon.value.discount,
                  Some(coupon.value)));
  }

  // ---- a quote is exact ----

  lemma LineTotalBounds(line: OrderLine)
    requires line.unitPrice >= 0 && line.quantity >= 1 && forall k | 0 <= k < |line.extras| :: line.extras[k] >= 0
    ensures 0 <= line.unitPrice <= LineTotal(line)
  {
    SumNonneg(line.extras, Self);
    var unit := line.unitPrice + Sum(line.extras, Self);
    assert unit * line.quantity >= unit * 1;
  }

  predicate ExactDiscounts(lines: seq<OrderLine>, discounts: seq<int>, discount: int) {
    && |discounts| == |lines|
    && (forall i | 0 <= i < |lines| :: 0 <= discounts[i] <= LineTotal(lines[i]))
    && Sum(discounts, Self) == discount
  }

  lemma ZerosExact(lines: seq<OrderLine>)
    requires forall i | 0 <= i < |lines| :: LineTotal(lines[i]) >= 0
    ensures ExactDiscounts(lines, Zeros(|lines|), 0)
  {
    SumZero(Zeros(|lines|), Self);
  }

  lemma TargetExact(lines: seq<OrderLine>, discount: int, k: nat)
    requires ValidLines(lines) && k < |lines| && 0 < discount <= lines[k].unitPrice
    ensures ExactDiscounts(lines, Zeros(|lines|)[k := discount], discount)
  {
    forall i | 0 <= i < |lines| ensures 0 <= lines[i].unitPrice <= LineTotal(lines[i]) {
      LineTotalBounds(lines[i]);
    }
    SumSingle(Zeros(|lines|)[k := discount], Self, k);
  }

  lemma ProportionalExact(lines: seq<OrderLine>, discount: int)
    requires ValidLines(lines) && 0 < discount <= Subtotal(lines)
    ensures Shares.Allocate(discount, KeyedLines(lines)).Shares?
    ensures ExactDiscounts(lines, ShareAmounts(Shares.Allocate(discount, KeyedLines(lines)).shares), discount)
  {
    var keyed := KeyedLines(lines);
    forall i | 0 <= i < |lines| ensures keyed[i].amount >= 0 {
      LineTotalBounds(lines[i]);
    }
    SumPointwise(keyed, lines, Shares.AmountOf, LineTotal);
    Shares.AllocateExact(discount, keyed);
    var rows := Shares.Allocate(discount, keyed).shares;
    forall i | 0 <= i < |lines| ensures 0 <= rows[i].amount <= LineTotal(lines[i]) {
      Shares.AllocateBounds(discount, keyed, i);
    }
    SumPointwise(rows, ShareAmounts(rows), Shares.AmountOf, Self);
  }

  /** Any quote: each line's discount lies within the line, they add up to the discount, and nothing is owed below zero. */
  lemma QuoteIsExact(db: Db, lines: seq<OrderLine>, code: Option<string>, target: Option<nat>, now: int)
    requires ValidLines(lines) && QuoteSale(db, lines, code, target, now).Ok?
    ensures var q := QuoteSale(db, lines, code, target, now).value;
            && q.lines == lines && ExactDiscounts(lines, q.discounts, q.discountAmount)
            && q.subtotal == Subtotal(lines) == q.discountAmount + q.totalAmount
            && 0 <= q.discountAmount <= q.subtotal
            && (q.coupon.Some? <==> q.discountAmount > 0)
            && (q.coupon.Some? ==> code == Some(q.coupon.value.code) && Consumable(db, q.coupon.value.code)
                                   && q.coupon.value.discount == q.discountAmount)
  {
    forall line | line in lines ensures LineTotal(line) >= 0 {
      LineTotalBounds(line);
    }
    SumNonneg(lines, LineTotal);
    if code.None? {
      ZerosExact(lines);
    } else {
      var coupon := CouponFor(db, lines, code.value, target, now).value;
      if coupon.targetLine.Some? {
        TargetExact(lines, coupon.discount, coupon.targetLine.value);
      } else {
        ProportionalExact(lines, coupon.discount);
      }
    }
  }

  /** With valid lines a discount can always be spread: quoting never fails for that reason. */
  lemma QuoteNeverStuck(db: Db, lines: seq<OrderLine>, code: Option<string>, target: Option<nat>, now: int)
    requires ValidLines(lines)
    ensures QuoteSale(db, lines, code, target, now) != Err(NotAllocatable)
  {
    if code.Some? {
      var coupon := CouponFor(db, lines, code.value, target, now);
      if coupon.Ok? && coupon.value.targetLine.None? {
        ProportionalExact(lines, coupon.value.discount);
      }
    }
  }

  // ---- confirm ----

  datatype Request = Request(staff: Id, text: string, requestHash: string, lines: seq<OrderLine>, code: Option<string>,
                             target: Option<nat>, expected: Option<Quote>, means: Option<Payments.PaymentMethod>,
                             tendered: Option<int>, at: int)

  function KeyOf(req: Request): SaleKey {
    SaleKey(req.staff, req.text)
  }

  function MaxSaleNo(sales: seq<CounterSale>): int {
    if sales == [] then 0 else Max(MaxSaleNo(sales[..|sales| - 1]), sales[|sales| - 1].saleNo)
  }

  predicate SaleKeyTaken(sales: seq<CounterSale>, key: SaleKey) {
    exists s | s in sales :: s.key == key
  }

  function OneItem(line: OrderLine, mode: ServingMode, id: Id): seq<Item> {
    if line.mode == mode then [ItemFrom(line, id)] else []
  }

  /** The items of one serving mode; the item of line i has id base + i. */
  function ModeItems(lines: seq<OrderLine>, mode: ServingMode, base: Id): seq<Item> {
    if lines == [] then []
    else
      var n := |lines| - 1;
      ModeItems(lines[..n], mode, base) + OneItem(lines[n], mode, base + n)
  }

  /** One order per serving mode that occurs: the kitchen order starts, the counter order is served at once. */
  function ModeOrders(mode: ServingMode, id: Id, sale: Id, key: SaleKey, lines: seq<OrderLine>, base: Id, at: int)
    : seq<Order>
  {
    var items := ModeItems(lines, mode, base);
    if items == [] then []
    else [Order(id, Sale(sale), if mode == Kitchen then New else Served, SaleOrder(key, mode), at, items)]
  }

  function OneRow(item: Id, quantity: int, amount: int): seq<Allocation> {
    if amount > 0 then [Allocation(item, quantity, amount)] else []
  }

  /** One allocation row per positive amount; the row of line i goes to item base + i. */
  function LineRows(amounts: seq<int>, quantities: seq<int>, base: Id): seq<Allocation>
    requires |amounts| == |quantities|
  {
    if amounts == [] then []
    else
      var n := |amounts| - 1;
      LineRows(amounts[..n], quantities[..n], base) + OneRow(base + n, quantities[n], amounts[n])
  }

  function NetAmounts(q: Quote): seq<int>
    requires |q.discounts| == |q.lines|
  {
    seq(|q.lines|, i requires 0 <= i < |q.lines| => LineTotal(q.lines[i]) - q.discounts[i])
  }

  function Quantities(lines: seq<OrderLine>): seq<int> {
    seq(|lines|, i requires 0 <= i < |lines| => lines[i].quantity)
  }

  /** Ids of one sale, in order: sale, kitchen order, counter order, items, discount, charge. */
  function ItemBase(sale: Id): Id {
    sale + 3
  }

  function CouponRow(sale: Id, req: Request, q: Quote, rows: seq<Allocation>): Payment
    requires q.coupon.Some?
  {
    Payment(ItemBase(sale) + |q.lines|, Sale(sale), Discount, COUPON_DISCOUNT_METHOD, q.coupon.value.discount, None, None,
            None, Some(q.coupon.value.code), SaleDiscount(KeyOf(req)), req.at, rows)
  }

  function ChargeRow(sale: Id, req: Request, q: Quote, means: Payments.PaymentMethod, rows: seq<Allocation>): Payment {
    Payment(ItemBase(sale) + |q.lines| + 1, Sale(sale), Charge, means.code, q.totalAmount,
            if means.isCash then req.tendered else None,
            if means.isCash then Some(TenderedOf(req) - q.totalAmount) else None,
            None, None, SaleCharge(KeyOf(req)), req.at, rows)
  }

  function DiscountRows(sale: Id, q: Quote): seq<Allocation>
    requires |q.discounts| == |q.lines|
  {
    LineRows(q.discounts, Zeros(|q.lines|), ItemBase(sale))
  }

  function ChargeRows(sale: Id, q: Quote): seq<Allocation>
    requires |q.discounts| == |q.lines|
  {
    LineRows(NetAmounts(q), Quantities(q.lines), ItemBase(sale))
  }

  function TenderedOf(req: Request): int {
    if req.tendered.Some? then req.tendered.value else 0
  }

  function DiscountPart(sale: Id, req: Request, q: Quote): seq<Payment>
    requires |q.discounts| == |q.lines|
  {
    if q.coupon.Some? then [CouponRow(sale, req, q, DiscountRows(sale, q))] else []
  }

  function ChargePart(sale: Id, req: Request, q: Quote): seq<Payment>
    requires |q.discounts| == |q.lines|
  {
    if q.totalAmount > 0 && req.means.Some? then [ChargeRow(sale, req, q, req.means.value, ChargeRows(sale, q))] else []
  }

  function KitchenPart(sale: Id, key: SaleKey, lines: seq<OrderLine>, at: int): seq<Order> {
    ModeOrders(Kitchen, sale + 1, sale, key, lines, ItemBase(sale), at)
  }

  function CounterPart(sale: Id, key: SaleKey, lines: seq<OrderLine>, at: int): seq<Order> {
    ModeOrders(Counter, sale + 2, sale, key, lines, ItemBase(sale), at)
  }

  function CouponsAfter(coupons: map<string, Coupon>, q: Quote): map<string, Coupon>
    requires q.coupon.Some? ==> q.coupon.value.code in coupons
  {
    if q.coupon.Some? then Consumed(coupons, q.coupon.value.code) else coupons
  }

  function RedemptionPart(sale: Id, q: Quote): seq<Redemption> {
    if q.coupon.None? then []
    else [Redemption(q.coupon.value.code, Sale(sale), q.subtotal, q.coupon.value.discount, false)]
  }

  /** Everything the transaction writes. */
  function WriteSale(db: Db, req: Request, q: Quote): Db
    requires |q.discounts| == |q.lines| && (q.coupon.Some? ==> q.coupon.value.code in db.coupons)
  {
    db.(next := ItemBase(db.next) + |q.lines| + 2,
        sales := db.sales + [CounterSale(db.next, MaxSaleNo(db.sales) + 1, Completed, KeyOf(req), req.requestHash)],
        orders := db.orders + KitchenPart(db.next, KeyOf(req), q.lines, req.at)
                            + CounterPart(db.next, KeyOf(req), q.lines, req.at),
        coupons := CouponsAfter(db.coupons, q),
        redemptions := db.redemptions + RedemptionPart(db.next, q),
        payments := db.payments + DiscountPart(db.next, req, q) + ChargePart(db.next, req, q))
  }

  /** A unique column refuses the sale. */
  predicate UniqueClash(db: Db, req: Request, q: Quote) {
    || SaleKeyTaken(db.sales, KeyOf(req))
    || OrderKeyTaken(db.orders, SaleOrder(KeyOf(req), Kitchen)) || OrderKeyTaken(db.orders, SaleOrder(KeyOf(req), Counter))
    || KeyTaken(db.payments, SaleDiscount(KeyOf(req))) || KeyTaken(db.payments, SaleCharge(KeyOf(req)))
    || (q.coupon.Some? && Redeemed(db.redemptions, q.coupon.value.code))
  }

  function TenderProblem(req: Request, q: Quote): Option<SaleError> {
    if q.totalAmount <= 0 then None
    else if req.means.None? then Some(MethodRequired)
    else if req.means.value.isCash && TenderedOf(req) < q.totalAmount then Some(TenderShort)
    else None
  }

  function Confirm(db: Db, req: Request): Result<Quote, SaleError> {
    if !db.settings.paymentsEnabled || !db.settings.orderingEnabled then Err(OperationsDisabled)
    else
      var quoted := QuoteSale(db, req.lines, req.code, req.target, req.at);
      if quoted.Err? then Err(quoted.error)
      else if req.expected.Some? && req.expected.value != quoted.value then Err(QuoteStale)
      else if TenderProblem(req, quoted.value).Some? then Err(TenderProblem(req, quoted.value).value)
      else if UniqueClash(db, req, quoted.value) then Err(KeyInUse)
      else quoted
  }

  function AfterConfirm(db: Db, req: Request): Db
    requires ValidLines(req.lines)
  {
    var r := Confirm(db, req);
    if r.Ok? then
      QuoteIsExact(db, req.lines, req.code, req.target, req.at);
      WriteSale(db, req, r.value)
    else db
  }

  /** Items of one mode, created one by one. */
  method CreateModeItems(lines: seq<OrderLine>, mode: ServingMode, base: Id) returns (items: seq<Item>)
    ensures items == ModeItems(lines, mode, base)
  {
    items := [];
    for i := 0 to |lines|
      invariant items == ModeItems(lines[..i], mode, base)
    {
      assert lines[..i + 1][..i] == lines[..i];
      if lines[i].mode == mode {
        items := items + [ItemFrom(lines[i], base + i)];
      }
    }
    assert lines[..|lines|] == lines;
  }

  method CreateModeOrders(db: Database, sale: Id, key: SaleKey, lines: seq<OrderLine>, at: int)
    modifies db`orders
    ensures db.orders == old(db.orders) + KitchenPart(sale, key, lines, at) + CounterPart(sale, key, lines, at)
  {
    var base := ItemBase(sale);
    var kitchen := CreateModeItems(lines, Kitchen, base);
    if |kitchen| > 0 {
      db.orders := db.orders + [Order(sale + 1, Sale(sale), New, SaleOrder(key, Kitchen), at, kitchen)];
    }
    var counter := CreateModeItems(lines, Counter, base);
    if |counter| > 0 {
      db.orders := db.orders + [Order(sale + 2, Sale(sale), Served, SaleOrder(key, Counter), at, counter)];
    }
  }

  method CreateLineRows(amounts: seq<int>, quantities: seq<int>, base: Id) returns (rows: seq<Allocation>)
    requires |amounts| == |quantities|
    ensures rows == LineRows(amounts, quantities, base)
  {
    rows := [];
    for i := 0 to |amounts|
      invariant rows == LineRows(amounts[..i], quantities[..i], base)
    {
      assert amounts[..i + 1][..i] == amounts[..i] && quantities[..i + 1][..i] == quantities[..i];
      if amounts[i] > 0 {
        rows := rows + [Allocation(base + i, quantities[i], amounts[i])];
      }
    }
    assert amounts[..|amounts|] == amounts && quantities[..|amounts|] == quantities;
  }

  method UseCoupon(db: Database, sale: Id, req: Request, q: Quote)
    requires |q.discounts| == |q.lines| && (q.coupon.Some? ==> q.coupon.value.code in db.coupons)
    modifies db`coupons, db`redemptions, db`payments
    ensures db.coupons == CouponsAfter(old(db.coupons), q)
    ensures db.redemptions == old(db.redemptions) + RedemptionPart(sale, q)
    ensures db.payments == old(db.payments) + DiscountPart(sale, req, q)
  {
    if q.coupon.Some? {
      var coupon := q.coupon.value;
      db.coupons := Consumed(db.coupons, coupon.code);
      db.redemptions := db.redemptions + [Redemption(coupon.code, Sale(sale), q.subtotal, coupon.discount, false)];
      var rows := CreateLineRows(q.discounts, Zeros(|q.lines|), ItemBase(sale));
      db.payments := db.payments + [CouponRow(sale, req, q, rows)];
    }
  }

  method TakeMoney(db: Database, sale: Id, req: Request, q: Quote)
    requires |q.discounts| == |q.lines|
    modifies db`payments
    ensures db.payments == old(db.payments) + ChargePart(sale, req, q)
  {
    if q.totalAmount > 0 && req.means.Some? {
      var rows := CreateLineRows(NetAmounts(q), Quantities(q.lines), ItemBase(sale));
      db.payments := db.payments + [ChargeRow(sale, req, q, req.means.value, rows)];
    }
  }

  method WriteSaleRows(db: Database, req: Request, q: Quote)
    requires |q.discounts| == |q.lines| && (q.coupon.Some? ==> q.coupon.value.code in db.coupons)
    modifies db
    ensures db.View() == WriteSale(old(db.View()), req, q)
  {
    var sale := db.next;
    var saleNo := MaxSaleNo(db.sales) + 1;
    db.sales := db.sales + [CounterSale(sale, saleNo, Completed, KeyOf(req), req.requestHash)];
    CreateModeOrders(db, sale, KeyOf(req), q.lines, req.at);
    UseCoupon(db, sale, req, q);
    TakeMoney(db, sale, req, q);
    db.next := ItemBase(sale) + |q.lines| + 2;
  }

  method ConfirmCounterSaleTx(db: Database, req: Request) returns (r: Result<Id, SaleError>)
    requires ValidLines(req.lines)
    modifies db
    ensures db.View() == AfterConfirm(old(db.View()), req)
    ensures match Confirm(old(db.View()), req)
            case Ok(_) => r == Ok(old(db.next))
            case Err(e) => r == Err(e)
  {
    if !db.settings.paymentsEnabled || !db.settings.orderingEnabled {
      return Err(OperationsDisabled);
    }
    forall i | 0 <= i < |req.lines| ensures LineTotal(req.lines[i]) >= 0 {
      LineTotalBounds(req.lines[i]);
    }
    var quoted := QuoteCounterSale(db, req.lines, req.code, req.target, req.at);
    if quoted.Err? {
      return Err(quoted.error);
    }
    var q := quoted.value;
    if req.expected.Some? && req.expected.value != q {
      return Err(QuoteStale);
    }
    var tender := TenderProblem(req, q);
    if tender.Some? {
      return Err(tender.value);
    }
    if UniqueClash(db.View(), req, q) {
      return Err(KeyInUse);
    }
    QuoteIsExact(db.View(), req.lines, req.code, req.target, req.at);
    r := Ok(db.next);
    WriteSaleRows(db, req, q);
  }

  // ---- cancel ----

  function OriginalsOf(sale: Id): Payment -> bool {
    (p: Payment) => p.owner == Sale(sale) && IsOriginal(p)
  }

  function RefundRow(p: Payment, sale: Id, id: Id, at: int): Payment {
    Payment(id, Sale(sale), Refund, p.methodCode, p.amount, None, None, Some(p.id), None, SaleRefund(sale, p.id), at,
            p.allocations)
  }

  /** A refund of `p` behind the ones already made, unless `all` has reversed it before. */
  function AddRefund(all: seq<Payment>, made: seq<Payment>, p: Payment, sale: Id, base: Id, at: int): seq<Payment> {
    if NotYetReversed(all, p.id) then made + [RefundRow(p, sale, base + |made|, at)] else made
  }

  function RefundRows(all: seq<Payment>, targets: seq<Payment>, sale: Id, base: Id, at: int): seq<Payment> {
    if targets == [] then []
    else
      AddRefund(all, RefundRows(all, targets[..|targets| - 1], sale, base, at), targets[|targets| - 1], sale, base, at)
  }

  function Refunds(db: Db, sale: Id, at: int): seq<Payment> {
    RefundRows(db.payments, Filter(db.payments, OriginalsOf(sale)), sale, db.next, at)
  }

  function CancelSaleRow(s: CounterSale, id: Id): CounterSale {
    if s.id == id then s.(status := SaleCancelled) else s
  }

  function CancelSaleRows(sales: seq<CounterSale>, id: Id): seq<CounterSale> {
    seq(|sales|, i requires 0 <= i < |sales| => CancelSaleRow(sales[i], id))
  }

  function CancelSaleOrder(o: Order, sale: Id): Order {
    if o.owner == Sale(sale) then o.(status := Cancelled) else o
  }

  function CancelSaleOrders(orders: seq<Order>, sale: Id): seq<Order> {
    seq(|orders|, i requires 0 <= i < |orders| => CancelSaleOrder(orders[i], sale))
  }

  function CancelSale(db: Db, sale: Id, hasReason: bool, at: int): Result<Db, SaleError> {
    var row := FindSale(db.sales, sale);
    if !hasReason then Err(ReasonMissing)
    else if row.None? then Err(SaleMissing)
    else if row.value.status == SaleCancelled then Err(AlreadyCancelled)
    else
      Ok(db.(next := db.next + |Refunds(db, sale, at)|,
             sales := CancelSaleRows(db.sales, sale),
             payments := db.payments + Refunds(db, sale, at),
             orders := CancelSaleOrders(db.orders, sale),
             redemptions := CancelWhere(db.redemptions, OfSale(sale))))
  }

  function AfterCancelSale(db: Db, sale: Id, hasReason: bool, at: int): Db {
    var r := CancelSale(db, sale, hasReason, at);
    if r.Ok? then r.value else db
  }

  /** Which targets were reversed is read before the loop. */
  method RefundAll(db: Database, sale: Id, at: int)
    modifies db`payments, db`next
    ensures db.payments == old(db.payments) + Refunds(old(db.View()), sale, at)
    ensures db.next == old(db.next) + |Refunds(old(db.View()), sale, at)|
  {
    var before, first := db.payments, db.next;
    var payments := Filter(before, OriginalsOf(sale));
    for i := 0 to |payments|
      invariant db.payments == before + RefundRows(before, payments[..i], sale, first, at)
      invariant db.next == first + |RefundRows(before, payments[..i], sale, first, at)|
    {
      assert payments[..i + 1][..i] == payments[..i];
      if NotYetReversed(before, payments[i].id) {
        db.payments := db.payments + [RefundRow(payments[i], sale, db.next, at)];
        db.next := db.next + 1;
      }
    }
    assert payments[..|payments|] == payments;
  }

  method CancelCounterSaleTx(db: Database, sale: Id, hasReason: bool, at: int) returns (r: Result<(), SaleError>)
    modifies db
    ensures db.View() == AfterCancelSale(old(db.View()), sale, hasReason, at)
    ensures match CancelSale(old(db.View()), sale, hasReason, at)
            case Ok(_) => r == Ok(())
            case Err(e) => r == Err(e)
  {
    if !hasReason {
      return Err(ReasonMissing);
    }
    var row := FindSale(db.sales, sale);
    if row.None? {
      return Err(SaleMissing);
    }
    if row.value.status == SaleCancelled {
      return Err(AlreadyCancelled);
    }
    db.sales := CancelSaleRows(db.sales, sale);
    RefundAll(db, sale, at);
    db.orders := CancelSaleOrders(db.orders, sale);
    db.redemptions := CancelWhere(db.redemptions, OfSale(sale));
    r := Ok(());
  }
}
