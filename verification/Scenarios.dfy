/** Concrete runs from the empty database in which the code does not do what it promises. */
module Scenarios {
  import opened Billing
  import C = Coupons
  import opened CouponAgreement
  import CouponNumbers
  import CouponRuns
  import opened Invariants
  import opened Ledger
  import O = Orders
  import P = Payments
  import opened Schema
  import opened SpelledKeys
  import opened Steps
  import opened Sums
  import T = TableSessions
  import TC = TableCoupons
  import Theorems
  import opened World
  import opened Wrappers

  lemma {:induction false} RunsAppend(w: World, steps: seq<Step>, step: Step)
    requires Runs(w, steps) && Enabled(After(w, steps), step)
    ensures Runs(w, steps + [step]) && After(w, steps + [step]) == Next(After(w, steps), step)
    decreases |steps|
  {
    if steps == [] {
      assert [step][1..] == [] && steps + [step] == [step];
      assert Runs(Next(w, step), []);
    } else {
      RunsAppend(Next(w, steps[0]), steps[1..], step);
      assert (steps + [step])[1..] == steps[1..] + [step];
    }
  }

  /** `steps` runs from the start to `w`. */
  ghost predicate Reaches(steps: seq<Step>, w: World) {
    Runs(START, steps) && After(START, steps) == w
  }

  lemma ThenStep(steps: seq<Step>, w: World, step: Step)
    requires Reaches(steps, w) && Enabled(w, step)
    ensures Reaches(steps + [step], Next(w, step))
  {
    RunsAppend(START, steps, step);
  }

  // ---- a table with an order on it ----

  /** One portion for 1000 won. */
  const PORTION: O.OrderLine := O.OrderLine(0, 1000, [], 1, Kitchen)

  const OPENED: Db := EMPTY.(next := 2, tables := map[0 := Table(Open, false)], sessions := map[1 := TableSession(0, Active)])

  const PORTION_ITEM: Item := Item(3, 0, 1000, [], 1, Kitchen, false)

  function OrderIn(status: OrderStatus): Order {
    Order(2, Session(1), status, TableOrder(1, "first"), 0, [PORTION_ITEM])
  }

  function Ordered(status: OrderStatus): Db {
    OPENED.(next := 4, orders := [OrderIn(status)])
  }

  lemma Opened() returns (steps: seq<Step>, w: World)
    ensures Reaches(steps, w) && w.db == OPENED && w.due == multiset{}
    ensures forall i | 0 <= i < |steps| :: CouponRuns.Tame(steps[i])
  {
    var add, open := OnFloor(AddTable), OnSession(OpenTable(0, None));
    var w1 := Next(START, add);
    ThenStep([], START, add);
    ThenStep([] + [add], w1, open);
    steps, w := [] + [add] + [open], Next(w1, open);
    assert w1.db == EMPTY.(next := 1, tables := map[0 := Table(Available, false)]);
  }

  lemma PlaceFirst() returns (steps: seq<Step>, w: World)
    ensures Reaches(steps, w) && w.db == Ordered(New) && w.due == multiset{}
    ensures forall i | 0 <= i < |steps| :: CouponRuns.Tame(steps[i])
  {
    var before, v := Opened();
    var order := OnOrder(CreateOrder(1, "first", [PORTION], 0));
    ThenStep(before, v, order);
    steps, w := before + [order], Next(v, order);
    var o := O.TableOrderRow(OPENED, 1, "first", [PORTION], 0);
    assert o.items == [PORTION_ITEM];
  }

  // ---- a settlement that closes over an order ----

  const CARD: P.PaymentMethod := P.PaymentMethod("CARD", false)

  lemma OneOrderBill(db: Db, status: OrderStatus)
    requires db.orders == [OrderIn(status)] && status != Rejected && status != Cancelled
    ensures OrderTotal(db.orders, Session(1)) == 1000
  {
    var o := OrderIn(status);
    assert [PORTION_ITEM][..0] == [] && [o][..0] == [];
    assert LiveLine(PORTION_ITEM) == 1000;
    SumOne(PORTION_ITEM, LiveLine);
    SumOne(o, AmountFrom(Session(1)));
  }

  const PAYMENT: Payment :=
    Payment(4, Session(1), Charge, "CARD", 1000, None, None, None, None, Scoped(1, Plain("paid")), 0, [])

  function PaidUp(status: OrderStatus): Db {
    Ordered(status).(next := 5, payments := [PAYMENT])
  }

  lemma PaysFully(db: Db)
    requires db == Ordered(New)
    ensures P.Record(db, P.PayAmount(db, 1, CARD, Some(1000), None, Plain("paid"), 0)) == PaidUp(New)
  {
    OneOrderBill(db, New);
    AxesPartition(db, Session(1));
    assert Paid([], Session(1)) == 0;
  }

  lemma PayFirst() returns (steps: seq<Step>, w: World)
    ensures Reaches(steps, w) && w.db == PaidUp(New)
  {
    var before, v := PlaceFirst();
    var pay := OnPayment(PayAmount(1, CARD, Some(1000), None, Plain("paid"), 0));
    PaysFully(v.db);
    ThenStep(before, v, pay);
    steps, w := before + [pay], Next(v, pay);
  }

  lemma Moved(steps: seq<Step>, w: World, m: O.Move) returns (more: seq<Step>, x: World)
    requires Reaches(steps, w) && w.db == PaidUp(O.From(m))
    ensures Reaches(more, x) && x.db == PaidUp(O.To(m))
  {
    var step := OnOrder(AdvanceOrder(2, m));
    ThenStep(steps, w, step);
    more, x := steps + [step], Next(w, step);
    assert x.db.orders == [OrderIn(O.To(m))];
  }

  /** Ordered, paid and served: the settlement that reads now would close the table. */
  lemma ServeFirst() returns (steps: seq<Step>, w: World)
    ensures Reaches(steps, w) && w.db == PaidUp(Served)
  {
    steps, w := PayFirst();
    steps, w := Moved(steps, w, O.Accept);
    steps, w := Moved(steps, w, O.StartPreparing);
    steps, w := Moved(steps, w, O.MarkReady);
    steps, w := Moved(steps, w, O.MarkServed);
  }

  lemma ReadsClose(db: Db)
    requires db == PaidUp(Served)
    ensures Settlement(1, Reading(db, db, db, db)) == T.Close
  {
    OneOrderBill(db, Served);
    AxesPartition(db, Session(1));
    SumOne(PAYMENT, Signed(AmountFor(Session(1))));
    FilterNone(db.orders, T.UnservedOf(1));
  }

  /**
   A table that is ordered for, paid up and served; the settlement reads, a second order for the same
   is placed, the settlement commits: the table is closed with 1000 won owed and an order to cook.
   */
  lemma SettlementClosesOverAnOrder() returns (steps: seq<Step>, w: World)
    ensures Reaches(steps, w) && !T.LiveSession(w.db, 1) && Remaining(w.db, Session(1)) == 1000
    ensures T.UnservedCount(w.db.orders, 1) == 1
  {
    var before, v := ServeFirst();
    var order := CreateOrder(1, "second", [PORTION], 1);
    var settle := AutoSettle(1, Reading(v.db, v.db, v.db, v.db));
    CloseOver(v.db);
    CurrentIsPast(before, v);
    ThenStep(before, v, OnOrder(order));
    ThenStep(before + [OnOrder(order)], Next(v, OnOrder(order)), OnSession(settle));
    steps, w := before + [OnOrder(order)] + [OnSession(settle)], Next(Next(v, OnOrder(order)), OnSession(settle));
    assert w.db == CommitSession(CommitOrder(v.db, order), settle);
  }

  lemma CurrentIsPast(steps: seq<Step>, w: World)
    requires Reaches(steps, w)
    ensures w.db in w.past
  {
    StartOk();
    RunsKeep(START, steps);
  }

  lemma CloseOver(db: Db)
    requires db == PaidUp(Served)
    ensures var between := CommitOrder(db, CreateOrder(1, "second", [PORTION], 1));
            var after := CommitSession(between, AutoSettle(1, Reading(db, db, db, db)));
            !T.LiveSession(after, 1) && Remaining(after, Session(1)) == 1000 && T.UnservedCount(after.orders, 1) == 1
  {
    ReadsClose(db);
    SumOne(PORTION, O.LineTotal);
    Theorems.ClosesOver(db, 1, "second", [PORTION], 1, Reading(db, db, db, db));
    OneOrderBill(db, Served);
    SumOne(PAYMENT, Signed(AmountFor(Session(1))));
    FilterNone(db.orders, T.UnservedOf(1));
  }

  // ---- a coupon lost to a spelled key ----

  const PAPER: Coupon := Coupon(Unused, AmountOff(300), None)

  function WithCoupon(): Db {
    Ordered(New).(coupons := map["001" := PAPER])
  }

  lemma IssuesFirst(db: Db)
    requires db.coupons == map[]
    ensures C.AfterIssue(db, 1, AmountOff(300), None) == db.(coupons := map["001" := PAPER])
  {
    assert CouponNumbers.FirstFree(CouponNumbers.CodeOf, {}, 1, 1)
        == [1] + CouponNumbers.FirstFree(CouponNumbers.CodeOf, {}, 2, 0);
    assert CouponNumbers.CodeOf(1) == "001";
    assert db.coupons.Keys == {};
    var codes := CouponNumbers.AllocateCodes({}, 1).codes;
    assert codes == ["001"];
    assert C.Fresh(codes, AmountOff(300), None) == map["001" := PAPER];
  }

  lemma Issued() returns (steps: seq<Step>, w: World)
    ensures Reaches(steps, w) && w.db == WithCoupon() && w.due == multiset{}
    ensures forall i | 0 <= i < |steps| :: CouponRuns.Tame(steps[i])
  {
    var before, v := PlaceFirst();
    var issue := OnCoupon(IssueCoupons(1, AmountOff(300), None));
    IssuesFirst(v.db);
    ThenStep(before, v, issue);
    steps, w := before + [issue], Next(v, issue);
  }

  /** The state after the coupon was used, with the discount `o`. */
  ghost predicate Discounted(db: Db, o: Payment) {
    && db == WithCoupon().(next := 5, coupons := db.coupons, payments := [o],
                           redemptions := [Redemption("001", Session(1), 1000, 300, false)])
    && o.id == 4 && IsCouponDiscount(o) && o.owner == Session(1) && o.amount == 300 && o.reverses == None
    && o.coupon == Some("001") && o.key == Scoped(1, CouponUse("use"))
  }

  lemma ResolvesFirst(db: Db)
    requires db == WithCoupon()
    ensures TC.Resolve(db, 1, "001", None, 0) == Result.Ok(TC.Preview(300, 1000, None))
  {
    OneOrderBill(db, New);
    AxesPartition(db, Session(1));
    assert Paid([], Session(1)) == 0;
  }

  const USE: TC.Preview := TC.Preview(300, 1000, None)

  lemma SpreadsFirst(db: Db) returns (rows: seq<Allocation>)
    requires db == WithCoupon()
    ensures TC.Spread(TC.BillItems(db.orders, Session(1)), USE) == Some(rows)
  {
    ResolvesFirst(db);
    TC.ResolvedIsSpread(db, 1, "001", None, 0);
    rows := TC.Spread(TC.BillItems(db.orders, Session(1)), USE).value;
  }

  lemma RedeemsFirst(db: Db, rows: seq<Allocation>)
    requires db == WithCoupon()
    ensures var r := TC.Redeem(db, 1, "001", USE, "use", 0, rows);
            r.Ok? && Discounted(r.value, TC.DiscountRow(db, 1, "001", USE, "use", 0, rows))
  {
  }

  lemma AppliesFirst(db: Db) returns (o: Payment)
    requires db == WithCoupon()
    ensures Discounted(TC.AfterApply(db, 1, "001", None, "use", 0), o)
  {
    ResolvesFirst(db);
    var rows := SpreadsFirst(db);
    RedeemsFirst(db, rows);
    o := TC.DiscountRow(db, 1, "001", USE, "use", 0, rows);
  }

  lemma Applied() returns (steps: seq<Step>, w: World, o: Payment)
    ensures Reaches(steps, w) && Discounted(w.db, o) && w.due == multiset{}
    ensures forall i | 0 <= i < |steps| :: CouponRuns.Tame(steps[i])
  {
    var before, v := Issued();
    var apply := OnCoupon(ApplyCoupon(1, "001", None, "use", 0));
    o := AppliesFirst(v.db);
    ThenStep(before, v, apply);
    steps, w := before + [apply], Next(v, apply);
  }

  const SPELLED: PaymentOp := PayAmount(1, CARD, Some(1), None, Reversal(Void, 4), 0)

  function SpelledCharge(db: Db): Payment {
    P.NewCharge(db, 1, "CARD", 1, None, Reversal(Void, 4), 0, [])
  }

  /** A charge of one won whose key reads like the reversal of the discount. */
  lemma PaysSpelled(db: Db, o: Payment)
    requires Discounted(db, o)
    ensures CommitPayment(db, SPELLED) == P.AppendRow(db, SpelledCharge(db))
  {
    OneOrderBill(db, New);
    AxesPartition(db, Session(1));
    SumOne(o, Signed(AmountFor(Session(1))));
  }

  lemma SpelledTicket(db: Db, o: Payment)
    requires Discounted(db, o)
    ensures var after := P.AppendRow(db, SpelledCharge(db)); var t := P.Ticket(o, Void);
            && P.BeginReversal(after, 4, true) == Result.Ok(t)
            && Spelled(after.payments, t) && !P.Reverse(after, t, 0).Failed?
            && Stands(after.payments, o) && o in after.payments
  {
    var after := P.AppendRow(db, SpelledCharge(db));
    assert after.payments[..1] == [o];
    assert FindPayment([o], 4) == Some(o) && FindPayment(after.payments, 4) == Some(o);
    assert P.FindByKey(after.payments, P.ReversalKey(P.Ticket(o, Void))) == Some(SpelledCharge(db));
    assert SpelledCharge(db) in after.payments;
  }

  lemma SpelledRowsAgree(db: Db, due: multiset<Due>, o: Payment)
    requires Discounted(db, o) && IsLedger(db.payments) && Agrees(db, due)
    ensures RowsAgree(P.AppendRow(db, SpelledCharge(db)))
  {
    assert Follows(db.payments, SpelledCharge(db));
    PlainRowRecorded(db.payments, db.redemptions, SpelledCharge(db));
  }

  lemma SpelledStored() returns (steps: seq<Step>, w: World, o: Payment)
    ensures Reaches(steps, w) && w.due == multiset{} && WorldOk(w) && KeysTrue(w.db.payments) && RowsAgree(w.db)
    ensures P.BeginReversal(w.db, 4, true) == Result.Ok(P.Ticket(o, Void)) && o.id == 4
    ensures Spelled(w.db.payments, P.Ticket(o, Void)) && o.owner == Session(1) && !P.Reverse(w.db, P.Ticket(o, Void), 0).Failed?
    ensures o in w.db.payments && IsCouponDiscount(o) && Stands(w.db.payments, o) && o.amount == 300
  {
    var before, v;
    before, v, o := Applied();
    StartOk();
    CouponRuns.RunsAgree(START, before);
    RunsKeys(START, before);
    LedgerOfWorld(v);
    SpelledRowsAgree(v.db, v.due, o);
    PaysSpelled(v.db, o);
    SpelledTicket(v.db, o);
    var pay := OnPayment(SPELLED);
    ThenStep(before, v, pay);
    steps, w := before + [pay], Next(v, pay);
    RunsKeys(START, steps);
  }

  lemma LedgerOfWorld(w: World)
    requires WorldOk(w)
    ensures IsLedger(w.db.payments)
  {
    assert w.db in w.past && Inv(w.db);
  }

  /**
   A coupon is used on a bill, a payment of one won is stored under the key that the reversal of
   its discount would have, the discount is reversed and its redemption cancelled. Nothing is due any
   more, the discount still stands, and the session is out of agreement.
   */
  lemma SpelledKeyLosesTheCoupon() returns (steps: seq<Step>, w: World, o: Payment)
    ensures Reaches(steps, w) && w.due == multiset{} && !CouponRuns.InAgreement(w.db, Session(1))
  {
    var before, v;
    before, v, o := SpelledStored();
    SpelledKeyBreaksExactly(v, v.db, 0, P.Ticket(o, Void));
    var reverse := OnPayment(ReversePayment(4, v.db, 0));
    var drop := OnCoupon(DropRedemption(Due(1, o.coupon)));
    ThenStep(before, v, reverse);
    ThenStep(before + [reverse], Next(v, reverse), drop);
    steps, w := before + [reverse] + [drop], Next(Next(v, reverse), drop);
    CouponRuns.DueAfterReversal(v.db, v.due, 4, v.db, 0, P.Ticket(o, Void));
  }
}
