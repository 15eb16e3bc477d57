/** How an order moves through its life, what each move does to the bill, and what a new order holds. */
module OrderLaws {
  import opened Billing
  import opened Orders
  import opened Schema
  import opened Sums
  import opened Wrappers

  // ---- one move ----

  /** The place of a status on the way from the cart to the guest. */
  function Stage(s: OrderStatus): Option<nat> {
    match s
    case New => Some(0)
    case Accepted => Some(1)
    case Preparing => Some(2)
    case Ready => Some(3)
    case Served => Some(4)
    case _ => None
  }

  /** The stage a forward move starts from. */
  function StartsAt(m: Move): Option<nat> {
    match m
    case Accept => Some(0)
    case StartPreparing => Some(1)
    case MarkReady => Some(2)
    case MarkServed => Some(3)
    case _ => None
  }

  /**
   A forward move takes an order from its stage to the next one, `Reject` takes a new order out, and
   `RevertServed` takes back `MarkServed`; in any other status, and for any other order, nothing changes.
   */
  lemma MovesExactly(db: Db, id: Id, m: Move, i: nat)
    requires i < |db.orders|
    ensures var before, after := db.orders[i], Advance(db, id, m).orders[i];
            && |Advance(db, id, m).orders| == |db.orders| && after == before.(status := after.status)
            && Advance(db, id, m) == db.(orders := Advance(db, id, m).orders)
            && (before.id != id ==> after == before)
            && (before.id == id && m.Reject? ==> after.status == if before.status == New then Rejected else before.status)
            && (before.id == id && m.RevertServed? ==>
                  after.status == if before.status == Served then OrderStatus.Ready else before.status)
            && (before.id == id && StartsAt(m).Some? ==>
                  if Stage(before.status) == StartsAt(m) then Stage(after.status) == Some(StartsAt(m).value + 1)
                  else after.status == before.status)
  {
  }

  /** Serving an order and taking that back leaves no trace. */
  lemma ServedAndReverted(db: Db, id: Id)
    requires forall o | o in db.orders && o.id == id :: o.status != Served
    ensures Advance(Advance(db, id, MarkServed), id, RevertServed) == db
  {
    forall i | 0 <= i < |db.orders| ensures Advance(Advance(db, id, MarkServed), id, RevertServed).orders[i] == db.orders[i] {
      assert db.orders[i] in db.orders;
    }
  }

  // ---- what moves do to the bill ----

  /** Price of what was not cancelled, portion by portion. */
  function Worth(item: Item): int {
    if item.cancelled then 0 else (item.unitPrice + Sum(item.extras, Self)) * item.quantity
  }

  /** Rejecting takes exactly the order's live items off its owner's bill; every other move leaves every bill alone. */
  lemma MoveAmount(db: Db, id: Id, m: Move, i: nat, owner: Owner)
    requires OrdersDistinct(db.orders) && i < |db.orders| && db.orders[i].id == id
    ensures OrderTotal(Advance(db, id, m).orders, owner)
         == OrderTotal(db.orders, owner)
            - if m.Reject? && db.orders[i].status == New && db.orders[i].owner == owner then Sum(db.orders[i].items, Worth) else 0
  {
    var after := Advance(db, id, m).orders;
    forall j | 0 <= j < |after| && j != i ensures after[j] == db.orders[j] {
      assert if i < j then db.orders[i].id != db.orders[j].id else db.orders[j].id != db.orders[i].id;
    }
    SumOneDiff(db.orders, after, AmountFrom(owner), AmountFrom(owner), i);
    SumCong(db.orders[i].items, Worth, LiveLine);
  }

  // ---- a new order ----

  /** Only an empty cart, a quantity out of range, a used key or a missing session stops a table order. */
  lemma CreateAccepts(db: Db, session: Id, text: string, lines: seq<OrderLine>, at: int)
    ensures CreateOrder(db, session, text, lines, at).Ok?
        <==> && lines != [] && (forall line | line in lines :: 1 <= line.quantity <= 50)
             && (forall o | o in db.orders :: o.key != TableOrder(session, text)) && session in db.sessions
  {
    if i :| 0 <= i < |lines| && !(1 <= lines[i].quantity <= 50) {
      assert lines[i] in lines;
    }
  }

  /** It starts as new, holds the priced lines one for one, nothing cancelled, and raises its session's bill by their total. */
  lemma CreateRecords(db: Db, session: Id, text: string, lines: seq<OrderLine>, at: int) returns (o: Order)
    requires CreateOrder(db, session, text, lines, at).Ok?
    ensures var after := RecordOrder(db, CreateOrder(db, session, text, lines, at));
            && after == db.(next := db.next + 1 + |lines|, orders := db.orders + [o])
            && forall owner ::
                 OrderTotal(after.orders, owner)
                 == OrderTotal(db.orders, owner) + if owner == Session(session) then Sum(lines, LineTotal) else 0
    ensures o == Order(db.next, Session(session), New, TableOrder(session, text), at, o.items) && |o.items| == |lines|
    ensures forall i | 0 <= i < |lines| ::
              o.items[i] == Item(db.next + 1 + i, lines[i].menu, lines[i].unitPrice, lines[i].extras, lines[i].quantity,
                                 lines[i].mode, false)
  {
    o := TableOrderRow(db, session, text, lines, at);
    SumPointwise(o.items, lines, LiveLine, LineTotal);
    forall owner ensures OrderTotal(db.orders + [o], owner)
                         == OrderTotal(db.orders, owner) + if owner == Session(session) then Sum(lines, LineTotal) else 0 {
      SumAppend(db.orders, o, AmountFrom(owner));
    }
  }

  // ---- cancelling ----

  ghost predicate IsItemOf(o: Order, x: Id) {
    exists item | item in o.items :: item.id == x
  }

  /**
   A cancellation names only items of the order, and may be as long as the order only while it is new,
   accepted or being prepared, or was cancelled before.
   */
  lemma CancelAccepts(db: Db, id: Id, itemIds: seq<Id>, i: nat)
    requires OrdersDistinct(db.orders) && i < |db.orders| && db.orders[i].id == id
    ensures CancelOrder(db, id, itemIds).Ok?
        <==> var o := db.orders[i];
             && (forall x | x in itemIds :: IsItemOf(o, x))
             && (itemIds == [] || |itemIds| == |o.items| ==> o.status in {New, Accepted, Preparing, Cancelled})
  {
    var o := db.orders[i];
    FoundOrder(db.orders, id);
    var j :| 0 <= j < |db.orders| && FindOrder(db.orders, id) == Some(db.orders[j]);
    TargetsOwned(o, itemIds);
  }

  lemma OwnId(o: Order, x: Id)
    ensures x in IdsOf(o.items) <==> IsItemOf(o, x)
  {
    if x in IdsOf(o.items) {
      var k :| 0 <= k < |o.items| && IdsOf(o.items)[k] == x;
      assert o.items[k] in o.items;
    }
    if item :| item in o.items && item.id == x {
      var k :| 0 <= k < |o.items| && o.items[k] == item;
      assert IdsOf(o.items)[k] == x;
    }
  }

  lemma TargetsOwned(o: Order, itemIds: seq<Id>)
    ensures (forall k | 0 <= k < |Targets(o, itemIds)| :: Targets(o, itemIds)[k] in IdsOf(o.items))
        <==> forall x | x in itemIds :: IsItemOf(o, x)
  {
    forall x | x in itemIds ensures x in IdsOf(o.items) <==> IsItemOf(o, x) {
      OwnId(o, x);
    }
    if x :| x in itemIds && !IsItemOf(o, x) {
      var k :| 0 <= k < |itemIds| && itemIds[k] == x;
      assert Targets(o, itemIds)[k] == x;
    }
  }

  /** An empty request marks every item, any other the items it names. */
  predicate Named(itemIds: seq<Id>, item: Item) {
    itemIds == [] || item.id in itemIds
  }

  ghost predicate Marked(before: seq<Item>, after: seq<Item>, itemIds: seq<Id>) {
    && |after| == |before|
    && forall k | 0 <= k < |before| ::
         after[k] == before[k].(cancelled := before[k].cancelled || Named(itemIds, before[k]))
  }

  lemma StruckIsMarked(o: Order, itemIds: seq<Id>)
    ensures Marked(o.items, StruckItems(o.items, Targets(o, itemIds)), itemIds)
  {
    forall k | 0 <= k < |o.items| ensures o.items[k].id in Targets(o, itemIds) <==> Named(itemIds, o.items[k]) {
      assert IdsOf(o.items)[k] == o.items[k].id;
    }
  }

  /** Still cancellable, and all of it was asked for or nothing live is left. */
  ghost predicate IsCancelledNow(o: Order, itemIds: seq<Id>, left: seq<Item>) {
    && o.status in {New, Accepted, Preparing}
    && (itemIds == [] || |itemIds| == |o.items| || forall k | 0 <= k < |left| :: left[k].cancelled)
  }

  /** The named items are marked, the order is cancelled if that is due, and no other row changes. */
  lemma CancelRecords(db: Db, id: Id, itemIds: seq<Id>, i: nat)
    requires OrdersDistinct(db.orders) && i < |db.orders| && db.orders[i].id == id && CancelOrder(db, id, itemIds).Ok?
    ensures AfterCancel(db, id, itemIds) == db.(orders := AfterCancel(db, id, itemIds).orders)
    ensures |AfterCancel(db, id, itemIds).orders| == |db.orders|
    ensures forall j | 0 <= j < |db.orders| && j != i :: AfterCancel(db, id, itemIds).orders[j] == db.orders[j]
    ensures var o, after := db.orders[i], AfterCancel(db, id, itemIds).orders[i];
            && after == o.(items := after.items, status := after.status) && Marked(o.items, after.items, itemIds)
            && after.status == if IsCancelledNow(o, itemIds, after.items) then Cancelled else o.status
  {
    var k := CancelOneRow(db, id, itemIds);
    assert k == i;
    StruckIsMarked(db.orders[i], itemIds);
  }
}
