/**
 The writing steps of the table ledger (server/src/services/payment.ts): payment by amount and by
 item, discount, and reversal. Each transaction recomputes the bill before it inserts a row.
 */
module Payments {
  import opened Billing
  import opened Ledger
  import opened Schema
  import opened Sums
  import opened Wrappers

  datatype PaymentError =
    | SessionMissing
    | SessionClosed
    | TableLocked
    | PaymentsDisabled
    | TenderMissing
    | NothingOwed
    | AmountMissing
    | OverRemaining
    | NoItems
    | BadQuantity
    | DuplicateItem
    | ItemMissing
    | ForeignItem
    | DeadOrder
    | OverQuantity
    | TenderShort
    | ReasonMissing
    | PaymentMissing
    | NotReversible
    | AlreadyReversed
    | CounterSalePayment
    | DuplicateKey
    | ReferenceMissing

  type Outcome = Result<Payment, PaymentError>

  datatype PaymentMethod = PaymentMethod(code: string, isCash: bool)

  function AppendRow(db: Db, p: Payment): Db {
    db.(next := db.next + 1, payments := db.payments + [p])
  }

  /** The transaction's effect: the new row is appended, or nothing changes. */
  function Record(db: Db, r: Outcome): Db {
    if r.Ok? then AppendRow(db, r.value) else db
  }

  /** The insert itself, which the unique key can refuse. */
  function Insert(db: Db, p: Payment): Outcome {
    if KeyTaken(db.payments, p.key) then Err(DuplicateKey) else Ok(p)
  }

  /** Checked again inside every transaction. */
  function PaymentRefusal(db: Db, session: Id): Option<PaymentError> {
    if session !in db.sessions then Some(SessionMissing)
    else if !IsLive(db.sessions[session]) then Some(SessionClosed)
    else if db.sessions[session].table in db.tables && db.tables[db.sessions[session].table].paymentsLocked then
      Some(TableLocked)
    else if !db.settings.paymentsEnabled then Some(PaymentsDisabled)
    else None
  }

  // ---- payment by amount ----

  function NewCharge(db: Db, session: Id, methodCode: string, amount: int, tendered: Option<int>, text: KeyText, at: int,
                     allocations: seq<Allocation>): Payment {
    Payment(db.next, Session(session), Charge, methodCode, amount, tendered,
            if tendered.Some? then Some(tendered.value - amount) else None,
            None, None, Scoped(session, text), at, allocations)
  }

  function PayAmount(db: Db, session: Id, means: PaymentMethod, amount: Option<int>, tendered: Option<int>, text: KeyText,
                     at: int): Outcome {
    var refusal := PaymentRefusal(db, session);
    var remaining := BillOf(db, Session(session)).remainingAmount;
    if refusal.Some? then Err(refusal.value)
    else if means.isCash then
      if tendered.None? || tendered.value <= 0 then Err(TenderMissing)
      else if Max(remaining, 0) <= 0 then Err(NothingOwed)
      else Insert(db, NewCharge(db, session, means.code, Min(tendered.value, Max(remaining, 0)), tendered, text, at, []))
    else if amount.None? || amount.value <= 0 then Err(AmountMissing)
    else if amount.value > remaining then Err(OverRemaining)
    else Insert(db, NewCharge(db, session, means.code, amount.value, None, text, at, []))
  }

  method AmountBasedPayment(db: Database, session: Id, means: PaymentMethod, amount: Option<int>, tendered: Option<int>,
                            text: KeyText, at: int) returns (r: Outcome)
    modifies db
    ensures r == PayAmount(old(db.View()), session, means, amount, tendered, text, at)
    ensures db.View() == Record(old(db.View()), r)
  {
    var refusal := PaymentRefusal(db.View(), session);
    if refusal.Some? {
      return Err(refusal.value);
    }
    var bill := ComputeBill(db, session);
    var taken: int;
    var tenderedAmount: Option<int> := None;
    if means.isCash {
      if tendered.None? || tendered.value <= 0 {
        return Err(TenderMissing);
      }
      var owed := Max(bill.remainingAmount, 0);
      if owed <= 0 {
        return Err(NothingOwed);
      }
      tenderedAmount := tendered;
      taken := Min(tendered.value, owed);
    } else {
      if amount.None? || amount.value <= 0 {
        return Err(AmountMissing);
      }
      if amount.value > bill.remainingAmount {
        return Err(OverRemaining);
      }
      taken := amount.value;
    }
    r := Create(db, NewCharge(db.View(), session, means.code, taken, tenderedAmount, text, at, []));
  }

  method Create(db: Database, p: Payment) returns (r: Outcome)
    modifies db
    ensures r == Insert(old(db.View()), p)
    ensures db.View() == Record(old(db.View()), r)
  {
    if KeyTaken(db.payments, p.key) {
      return Err(DuplicateKey);
    }
    db.payments := db.payments + [p];
    db.next := db.next + 1;
    r := Ok(p);
  }

  // ---- payment by item ----

  datatype Wanted = Wanted(item: Id, quantity: int)

  datatype Found = Found(order: Order, item: Item)

  /** The item and its order. */
  function FindOrderItem(orders: seq<Order>, id: Id): Option<Found> {
    if orders == [] then None
    else
      var item := FindItem(orders[|orders| - 1].items, id);
      if item.Some? then Some(Found(orders[|orders| - 1], item.value))
      else FindOrderItem(orders[..|orders| - 1], id)
  }

  function ItemIds(wanted: seq<Wanted>): seq<Id> {
    seq(|wanted|, i requires 0 <= i < |wanted| => wanted[i].item)
  }

  predicate AllFound(orders: seq<Order>, wanted: seq<Wanted>) {
    forall i | 0 <= i < |wanted| :: FindOrderItem(orders, wanted[i].item).Some?
  }

  function LineProblem(order: Order, session: Id): Option<PaymentError> {
    if order.owner != Session(session) then Some(ForeignItem)
    else if order.status == Cancelled || order.status == Rejected then Some(DeadOrder)
    else None
  }

  function FirstLineProblem(orders: seq<Order>, session: Id, wanted: seq<Wanted>): (p: Option<PaymentError>)
    requires AllFound(orders, wanted)
    ensures p.None? <==> forall i | 0 <= i < |wanted| ::
                           LineProblem(FindOrderItem(orders, wanted[i].item).value.order, session) == None
  {
    if wanted == [] then None
    else
      var before := FirstLineProblem(orders, session, wanted[..|wanted| - 1]);
      if before.Some? then before
      else LineProblem(FindOrderItem(orders, wanted[|wanted| - 1].item).value.order, session)
  }

  predicate FitsQuantity(db: Db, w: Wanted)
    requires FindOrderItem(db.orders, w.item).Some?
  {
    w.quantity <= FindOrderItem(db.orders, w.item).value.item.quantity - PaidQuantity(db.payments, w.item)
  }

  function UnitTotal(item: Item): int {
    item.unitPrice + Sum(item.extras, Self)
  }

  function RowFor(orders: seq<Order>, w: Wanted): Allocation
    requires FindOrderItem(orders, w.item).Some?
  {
    Allocation(w.item, w.quantity, UnitTotal(FindOrderItem(orders, w.item).value.item) * w.quantity)
  }

  function RowsFor(orders: seq<Order>, wanted: seq<Wanted>): (rows: seq<Allocation>)
    requires AllFound(orders, wanted)
    ensures |rows| == |wanted|
    ensures forall i | 0 <= i < |wanted| :: rows[i] == RowFor(orders, wanted[i])
  {
    if wanted == [] then []
    else RowsFor(orders, wanted[..|wanted| - 1]) + [RowFor(orders, wanted[|wanted| - 1])]
  }

  function RowAmount(a: Allocation): int {
    a.amount
  }

  function PayItems(db: Db, session: Id, means: PaymentMethod, wanted: seq<Wanted>, tendered: Option<int>, text: KeyText,
                    at: int): Outcome {
    var refusal := PaymentRefusal(db, session);
    if RequestProblem(wanted).Some? then Err(RequestProblem(wanted).value)
    else if refusal.Some? then Err(refusal.value)
    else if !AllFound(db.orders, wanted) then Err(ItemMissing)
    else
      var problem := FirstLineProblem(db.orders, session, wanted);
      var rows := RowsFor(db.orders, wanted);
      var amount := Sum(rows, RowAmount);
      if problem.Some? then Err(problem.value)
      else if exists i | 0 <= i < |wanted| :: !FitsQuantity(db, wanted[i]) then Err(OverQuantity)
      else if amount > Max(BillOf(db, Session(session)).remainingAmount, 0) then Err(OverRemaining)
      else if means.isCash && (tendered.None? || tendered.value == 0 || tendered.value < amount) then Err(TenderShort)
      else Insert(db, NewCharge(db, session, means.code, amount, if means.isCash then tendered else None, text, at, rows))
  }

  /** The three passes over the loaded items that come before any arithmetic. */
  method CheckItems(db: Database, session: Id, wanted: seq<Wanted>) returns (problem: Option<PaymentError>)
    ensures problem == if !AllFound(db.orders, wanted) then Some(ItemMissing)
                       else FirstLineProblem(db.orders, session, wanted)
  {
    for i := 0 to |wanted|
      invariant AllFound(db.orders, wanted[..i])
    {
      if FindOrderItem(db.orders, wanted[i].item).None? {
        return Some(ItemMissing);
      }
    }
    for i := 0 to |wanted|
      invariant AllFound(db.orders, wanted[..i])
      invariant FirstLineProblem(db.orders, session, wanted[..i]) == None
    {
      assert wanted[..i + 1][..i] == wanted[..i];
      var order := FindOrderItem(db.orders, wanted[i].item).value.order;
      if order.owner != Session(session) {
        FirstProblemStays(db.orders, session, wanted, i + 1);
        return Some(ForeignItem);
      }
      if order.status == Cancelled || order.status == Rejected {
        FirstProblemStays(db.orders, session, wanted, i + 1);
        return Some(DeadOrder);
      }
    }
    assert wanted[..|wanted|] == wanted;
    problem := None;
  }

  lemma {:induction false} FirstProblemStays(orders: seq<Order>, session: Id, wanted: seq<Wanted>, k: nat)
    requires AllFound(orders, wanted) && k <= |wanted|
    requires FirstLineProblem(orders, session, wanted[..k]).Some?
    ensures FirstLineProblem(orders, session, wanted) == FirstLineProblem(orders, session, wanted[..k])
  {
    if k < |wanted| {
      assert wanted[..|wanted| - 1][..k] == wanted[..k];
      FirstProblemStays(orders, session, wanted[..|wanted| - 1], k);
    } else {
      assert wanted[..k] == wanted;
    }
  }

  /** The priced rows and their total, or nothing if a line asks for more than is left of its item. */
  method PriceItems(db: Database, wanted: seq<Wanted>) returns (priced: Option<(seq<Allocation>, int)>)
    requires AllFound(db.orders, wanted)
    ensures priced.None? <==> exists i | 0 <= i < |wanted| :: !FitsQuantity(db.View(), wanted[i])
    ensures priced.Some? ==>
              priced.value == (RowsFor(db.orders, wanted), Sum(RowsFor(db.orders, wanted), RowAmount))
  {
    var amount := 0;
    var allocationRows: seq<Allocation> := [];
    ghost var rows := RowsFor(db.orders, wanted);
    for i := 0 to |wanted|
      invariant allocationRows == rows[..i] && amount == Sum(rows[..i], RowAmount)
      invariant forall k | 0 <= k < i :: FitsQuantity(db.View(), wanted[k])
    {
      var remainingQuantity := RemainingQuantity(db, wanted[i].item);
      if wanted[i].quantity > remainingQuantity {
        assert !FitsQuantity(db.View(), wanted[i]);
        return None;
      }
      var row := PriceRow(db, wanted[i]);
      SumPrefix(rows, i, RowAmount);
      amount := amount + row.amount;
      allocationRows := allocationRows + [row];
    }
    assert rows[..|wanted|] == rows;
    priced := Some((allocationRows, amount));
  }

  method RemainingQuantity(db: Database, id: Id) returns (remaining: int)
    requires FindOrderItem(db.orders, id).Some?
    ensures remaining == FindOrderItem(db.orders, id).value.item.quantity - PaidQuantity(db.payments, id)
  {
    var item := FindOrderItem(db.orders, id).value.item;
    FoundHasId(db.orders, id);
    var status := ComputeItemPaymentStatus(db, [item]);
    assert [item][0].id == id;
    remaining := status[id].remainingQuantity;
  }

  method PriceRow(db: Database, w: Wanted) returns (row: Allocation)
    requires FindOrderItem(db.orders, w.item).Some?
    ensures row == RowFor(db.orders, w)
  {
    var item := FindOrderItem(db.orders, w.item).value.item;
    var optionsTotal := Sum(item.extras, Self);
    row := Allocation(w.item, w.quantity, (item.unitPrice + optionsTotal) * w.quantity);
  }

  lemma {:induction false} FoundHasId(orders: seq<Order>, id: Id)
    requires FindOrderItem(orders, id).Some?
    ensures var f := FindOrderItem(orders, id).value;
            f.item.id == id && f.item in f.order.items && f.order in orders
  {
    var last := orders[|orders| - 1];
    if FindItem(last.items, id).Some? {
      FoundItem(last.items, id);
    } else {
      FoundHasId(orders[..|orders| - 1], id);
    }
  }

  lemma {:induction false} FoundItem(items: seq<Item>, id: Id)
    requires FindItem(items, id).Some?
    ensures FindItem(items, id).value.id == id && FindItem(items, id).value in items
  {
    if items[|items| - 1].id != id {
      FoundItem(items[..|items| - 1], id);
    }
  }

  /** What is wrong with the request itself, before the database is asked. */
  function RequestProblem(wanted: seq<Wanted>): Option<PaymentError> {
    if wanted == [] then Some(NoItems)
    else if exists i | 0 <= i < |wanted| :: wanted[i].quantity < 1 then Some(BadQuantity)
    else if !Distinct(ItemIds(wanted)) then Some(DuplicateItem)
    else None
  }

  method CheckRequest(wanted: seq<Wanted>) returns (problem: Option<PaymentError>)
    ensures problem == RequestProblem(wanted)
  {
    if |wanted| == 0 {
      return Some(NoItems);
    }
    for i := 0 to |wanted|
      invariant forall k | 0 <= k < i :: wanted[k].quantity >= 1
    {
      if wanted[i].quantity < 1 {
        return Some(BadQuantity);
      }
    }
    var unique := AllDistinct(ItemIds(wanted));
    problem := if unique then None else Some(DuplicateItem);
  }

  method ItemBasedPayment(db: Database, session: Id, means: PaymentMethod, wanted: seq<Wanted>, tendered: Option<int>,
                          text: KeyText, at: int) returns (r: Outcome)
    modifies db
    ensures r == PayItems(old(db.View()), session, means, wanted, tendered, text, at)
    ensures db.View() == Record(old(db.View()), r)
  {
    var problem := CheckRequest(wanted);
    if problem.Some? {
      return Err(problem.value);
    }
    var refusal := PaymentRefusal(db.View(), session);
    if refusal.Some? {
      return Err(refusal.value);
    }
    problem := CheckItems(db, session, wanted);
    if problem.Some? {
      return Err(problem.value);
    }
    var sessionBill := ComputeBill(db, session);
    var priced := PriceItems(db, wanted);
    if priced.None? {
      return Err(OverQuantity);
    }
    var (allocationRows, amount) := priced.value;
    if amount > Max(sessionBill.remainingAmount, 0) {
      return Err(OverRemaining);
    }
    if means.isCash && (tendered.None? || tendered.value == 0 || tendered.value < amount) {
      return Err(TenderShort);
    }
    var tenderedAmount := if means.isCash then tendered else None;
    r := Create(db, NewCharge(db.View(), session, means.code, amount, tenderedAmount, text, at, allocationRows));
  }

  // ---- discount ----

  function GiveDiscount(db: Db, session: Id, amount: int, text: KeyText, at: int): Outcome {
    var refusal := PaymentRefusal(db, session);
    if refusal.Some? then Err(refusal.value)
    else if amount > BillOf(db, Session(session)).remainingAmount then Err(OverRemaining)
    else Insert(db, Payment(db.next, Session(session), Discount, MANUAL_DISCOUNT_METHOD, amount, None, None, None, None,
                            Scoped(session, text), at, []))
  }

  method CreateDiscount(db: Database, session: Id, amount: int, hasReason: bool, text: KeyText, at: int)
    returns (r: Outcome)
    modifies db
    ensures r == if amount <= 0 then Err(AmountMissing) else if !hasReason then Err(ReasonMissing)
                 else GiveDiscount(old(db.View()), session, amount, text, at)
    ensures db.View() == Record(old(db.View()), r)
  {
    if amount <= 0 {
      return Err(AmountMissing);
    }
    if !hasReason {
      return Err(ReasonMissing);
    }
    var refusal := PaymentRefusal(db.View(), session);
    if refusal.Some? {
      return Err(refusal.value);
    }
    var bill := ComputeBill(db, session);
    if amount > bill.remainingAmount {
      return Err(OverRemaining);
    }
    r := Create(db, Payment(db.next, Session(session), Discount, MANUAL_DISCOUNT_METHOD, amount, None, None, None, None,
                            Scoped(session, text), at, []));
  }

  // ---- reversal ----

  /** What the reversal remembers of the state it read before its transaction. */
  datatype Ticket = Ticket(original: Payment, kind: Kind)

  function ReversalKey(t: Ticket): PaymentKey {
    Scoped(t.original.owner.id, Reversal(t.kind, t.original.id))
  }

  function BeginReversal(db: Db, payment: Id, hasReason: bool): Result<Ticket, PaymentError> {
    var row := FindPayment(db.payments, payment);
    if row.None? then Err(PaymentMissing)
    else if !IsOriginal(row.value) then Err(NotReversible)
    else if !NotYetReversed(db.payments, payment) then Err(AlreadyReversed)
    else if !hasReason then Err(ReasonMissing)
    else if row.value.owner.Sale? || row.value.owner.id !in db.sessions then Err(CounterSalePayment)
    else Ok(Ticket(row.value, if IsLive(db.sessions[row.value.owner.id]) then Void else Refund))
  }

  function FindByKey(rows: seq<Payment>, key: PaymentKey): Option<Payment> {
    if rows == [] then None
    else if rows[|rows| - 1].key == key then Some(rows[|rows| - 1])
    else FindByKey(rows[..|rows| - 1], key)
  }

  lemma {:induction false} FindByKeyExactly(rows: seq<Payment>, key: PaymentKey)
    ensures FindByKey(rows, key).Some? <==> KeyTaken(rows, key)
    ensures FindByKey(rows, key).Some? ==> FindByKey(rows, key).value in rows && FindByKey(rows, key).value.key == key
  {
    if rows != [] {
      FindByKeyExactly(rows[..|rows| - 1], key);
      assert rows == rows[..|rows| - 1] + [rows[|rows| - 1]];
    }
  }

  function ReversalRow(db: Db, t: Ticket, at: int): Payment {
    var o := t.original;
    Payment(db.next, o.owner, t.kind, o.methodCode, o.amount, None, None, Some(o.id), None, ReversalKey(t), at,
            o.allocations)
  }

  /** Replay: the row already stored under the key. Inserted: a new reversal. The references may have been reset away. */
  datatype ReversalOutcome = Replay(row: Payment) | Inserted(row: Payment) | Failed(error: PaymentError)

  function Reverse(db: Db, t: Ticket, at: int): ReversalOutcome
    requires t.original.owner.Session?
  {
    var existing := FindByKey(db.payments, ReversalKey(t));
    if existing.Some? then Replay(existing.value)
    else if !NotYetReversed(db.payments, t.original.id) then Failed(AlreadyReversed)
    else if t.original.owner.id !in db.sessions || FindPayment(db.payments, t.original.id).None? then
      Failed(ReferenceMissing)
    else Inserted(ReversalRow(db, t, at))
  }

  function RecordReversal(db: Db, outcome: ReversalOutcome): Db {
    if outcome.Inserted? then AppendRow(db, outcome.row) else db
  }

  method VoidPaymentTx(db: Database, t: Ticket, at: int) returns (r: ReversalOutcome)
    requires t.original.owner.Session?
    modifies db
    ensures r == Reverse(old(db.View()), t, at)
    ensures db.View() == RecordReversal(old(db.View()), r)
  {
    var alreadyReversed := FindByKey(db.payments, ReversalKey(t));
    if alreadyReversed.Some? {
      return Replay(alreadyReversed.value);
    }
    var existingReversals := exists r | r in db.payments :: r.reverses == Some(t.original.id);
    if existingReversals {
      return Failed(AlreadyReversed);
    }
    if t.original.owner.id !in db.sessions || FindPayment(db.payments, t.original.id).None? {
      return Failed(ReferenceMissing);
    }
    FindByKeyExactly(db.payments, ReversalKey(t));
    var row := ReversalRow(db.View(), t, at);
    db.payments := db.payments + [row];
    db.next := db.next + 1;
    r := Inserted(row);
  }
}
