/**
 Resetting rehearsal data by scope (server/src/services/dataReset.ts): the dependency closure of a
 selection, and what a reset does to orders, money, tables and coupons.
 */
module DataReset {
  import opened Billing
  import opened Invariants
  import opened Ledger
  import opened Orders
  import opened Schema
  import opened Sums
  import opened Wrappers

  datatype Scope = Tables | CounterSales | Payments | Revenue | Coupons | Inventory | Menu

  const SCOPES: set<Scope> := {Tables, CounterSales, Payments, Revenue, Coupons, Inventory, Menu}

  function DependsOn(s: Scope): seq<Scope> {
    match s
    case Tables => []
    case CounterSales => []
    case Payments => [Tables, CounterSales]
    case Revenue => [Payments]
    case Coupons => []
    case Inventory => []
    case Menu => [Tables, CounterSales, Coupons]
  }

  // ---- closure ----

  ghost predicate Closed(scopes: set<Scope>) {
    forall s, t | s in scopes && t in DependsOn(s) :: t in scopes
  }

  ghost predicate ClosedExcept(scopes: set<Scope>, open: set<Scope>) {
    forall s, t | s in scopes && s !in open && t in DependsOn(s) :: t in scopes
  }

  /**
   Visit one scope: `out` grows by the scopes it needs and no others. The scopes in `open` are still
   being visited higher up. Termination: every visit that recurses adds a scope.
   */
  method Visit(s: Scope, out: set<Scope>, ghost open: set<Scope>) returns (r: set<Scope>)
    requires open <= out && ClosedExcept(out, open)
    ensures out + {s} <= r && ClosedExcept(r, open)
    ensures forall c: set<Scope> | Closed(c) && out + {s} <= c :: r <= c
    decreases |SCOPES - out|, 0, 0
  {
    if s in out {
      return out;
    }
    assert s in SCOPES - out;
    SmallerWithout(SCOPES - out, SCOPES - (out + {s}), s);
    r := VisitAll(DependsOn(s), out + {s}, open + {s});
  }

  lemma SmallerWithout(a: set<Scope>, b: set<Scope>, s: Scope)
    requires b == a - {s} && s in a
    ensures |b| < |a|
  {
  }

  method VisitAll(list: seq<Scope>, out: set<Scope>, ghost open: set<Scope>) returns (r: set<Scope>)
    requires open <= out && ClosedExcept(out, open)
    ensures out <= r && ClosedExcept(r, open) && forall s | s in list :: s in r
    ensures forall c: set<Scope> | Closed(c) && out <= c && (forall s | s in list :: s in c) :: r <= c
    decreases |SCOPES - out|, 1, |list|
  {
    r := out;
    for i := 0 to |list|
      invariant out <= r && ClosedExcept(r, open) && forall k | 0 <= k < i :: list[k] in r
      invariant forall c: set<Scope> | Closed(c) && out <= c && (forall s | s in list :: s in c) :: r <= c
    {
      Shrinks(out, r);
      r := Visit(list[i], r, open);
    }
  }

  lemma Shrinks(out: set<Scope>, r: set<Scope>)
    requires out <= r
    ensures |SCOPES - r| <= |SCOPES - out|
  {
    SubsetCount(SCOPES - r, SCOPES - out);
  }

  lemma {:induction false} SubsetCount(a: set<Scope>, b: set<Scope>)
    requires a <= b
    ensures |a| <= |b|
  {
    if a != {} {
      var x :| x in a;
      SubsetCount(a - {x}, b - {x});
    }
  }

  /** The least closed superset of the selection. */
  method ExpandScopes(selected: seq<Scope>) returns (r: set<Scope>)
    ensures Closed(r) && forall s | s in selected :: s in r
    ensures forall c: set<Scope> | Closed(c) && (forall s | s in selected :: s in c) :: r <= c
  {
    r := VisitAll(selected, {}, {});
  }

  // ---- what a reset does to the rows ----

  /** The channel whose rows go: table sessions or counter sales. */
  datatype Channel = TableRows | SaleRows

  predicate In(channel: Channel, owner: Owner) {
    if channel == TableRows then owner.Session? else owner.Sale?
  }

  function KeepPayment(channel: Channel): Payment -> bool {
    (p: Payment) => !In(channel, p.owner)
  }

  function KeepOrder(channel: Channel): Order -> bool {
    (o: Order) => !In(channel, o.owner)
  }

  function KeepRedemption(channel: Channel): Redemption -> bool {
    (r: Redemption) => !In(channel, r.owner)
  }

  predicate Loses(redemptions: seq<Redemption>, channel: Channel, code: string) {
    exists r | r in redemptions :: r.coupon == code && In(channel, r.owner)
  }

  /** A used coupon whose redemption goes can be used again; a withdrawn one stays withdrawn. */
  function Restored(coupons: map<string, Coupon>, redemptions: seq<Redemption>, channel: Channel): map<string, Coupon> {
    map code | code in coupons ::
      if Loses(redemptions, channel, code) && coupons[code].status == Used then coupons[code].(status := Unused)
      else coupons[code]
  }

  function DeleteLedgerOf(db: Db, channel: Channel): Db {
    db.(redemptions := Filter(db.redemptions, KeepRedemption(channel)),
        coupons := Restored(db.coupons, db.redemptions, channel),
        payments := Filter(db.payments, KeepPayment(channel)),
        orders := Filter(db.orders, KeepOrder(channel)))
  }

  function Vacated(tables: map<Id, Table>): map<Id, Table> {
    map t | t in tables ::
      if tables[t].status == Open || tables[t].status == Settling then tables[t].(status := Available) else tables[t]
  }

  function ResetTables(db: Db, scopes: set<Scope>): Db {
    if Tables in scopes then
      DeleteLedgerOf(db, TableRows).(calls := [], sessions := map[], tables := Vacated(db.tables))
    else db
  }

  function ResetSales(db: Db, scopes: set<Scope>): Db {
    if CounterSales in scopes then DeleteLedgerOf(db, SaleRows).(sales := []) else db
  }

  function ResetCoupons(db: Db, scopes: set<Scope>): Db {
    if Coupons in scopes then db.(redemptions := [], coupons := map[]) else db
  }

  function Reset(db: Db, scopes: set<Scope>): Db {
    ResetCoupons(ResetSales(ResetTables(db, scopes), scopes), scopes)
  }

  method DeleteLedgerTx(db: Database, channel: Channel)
    modifies db`redemptions, db`coupons, db`payments, db`orders
    ensures db.View() == DeleteLedgerOf(old(db.View()), channel)
  {
    var redemptions := db.redemptions;
    db.redemptions := Filter(db.redemptions, KeepRedemption(channel));
    db.coupons := Restored(db.coupons, redemptions, channel);
    db.payments := Filter(db.payments, KeepPayment(channel));
    db.orders := Filter(db.orders, KeepOrder(channel));
  }

  method ResetTablesTx(db: Database, scopes: set<Scope>)
    modifies db
    ensures db.View() == ResetTables(old(db.View()), scopes)
  {
    if Tables in scopes {
      DeleteLedgerTx(db, TableRows);
      db.calls := [];
      db.sessions := map[];
      db.tables := Vacated(db.tables);
    }
  }

  method ResetSalesTx(db: Database, scopes: set<Scope>)
    modifies db
    ensures db.View() == ResetSales(old(db.View()), scopes)
  {
    if CounterSales in scopes {
      DeleteLedgerTx(db, SaleRows);
      db.sales := [];
    }
  }

  method ResetCouponsTx(db: Database, scopes: set<Scope>)
    modifies db
    ensures db.View() == ResetCoupons(old(db.View()), scopes)
  {
    if Coupons in scopes {
      db.redemptions := [];
      db.coupons := map[];
    }
  }

  /** Refuses an empty selection; otherwise resets the closure of what was selected. */
  method ResetData(db: Database, selected: seq<Scope>) returns (ok: bool, applied: set<Scope>)
    modifies db
    ensures ok == (selected != [])
    ensures ok ==> Closed(applied) && (forall s | s in selected :: s in applied) && db.View() == Reset(old(db.View()), applied)
    ensures ok ==> forall c: set<Scope> | Closed(c) && (forall s | s in selected :: s in c) :: applied <= c
    ensures !ok ==> db.View() == old(db.View())
  {
    if |selected| == 0 {
      return false, {};
    }
    applied := ExpandScopes(selected);
    ResetTablesTx(db, applied);
    ResetSalesTx(db, applied);
    ResetCouponsTx(db, applied);
    ok := true;
  }

  // ---- a reset keeps the invariants ----

  lemma FilterSubset<T>(rows: seq<T>, keep: T -> bool)
    ensures forall x :: x in Filter(rows, keep) <==> x in rows && keep(x)
  {
    forall x ensures x in Filter(rows, keep) <==> x in rows && keep(x) {
      FilterMember(rows, keep, x);
    }
  }

  lemma {:induction false} FilterOrdersOk(orders: seq<Order>, keep: Order -> bool)
    requires OrdersOk(orders)
    ensures OrdersOk(Filter(orders, keep))
  {
    if orders != [] {
      var front, last := orders[..|orders| - 1], orders[|orders| - 1];
      assert forall i | 0 <= i < |front| :: front[i] == orders[i] && orders[i] in orders;
      FilterOrdersOk(front, keep);
      FilterSubset(front, keep);
      if keep(last) {
        assert DistinctItems(last.items) && HasWork(last) && last in orders;
        forall p | p in Filter(front, keep) ensures p.id != last.id && p.key != last.key && Disjoint(p, last) {
          var i :| 0 <= i < |front| && front[i] == p;
          assert Disjoint(orders[i], orders[|front|]);
        }
        AppendDistinctOrder(Filter(front, keep), last);
      }
    }
  }

  /** Dropping one channel leaves every remaining item's coverage as it was. */
  lemma CoverageOfKept(db: Db, channel: Channel, o: Order, item: Item)
    requires OwnItems(db.orders, db.payments) && o in db.orders && item in o.items && !In(channel, o.owner)
    ensures PaidQuantity(Filter(db.payments, KeepPayment(channel)), item.id) == PaidQuantity(db.payments, item.id)
  {
    forall p | p in db.payments && !KeepPayment(channel)(p) ensures Signed(QuantityOf(item.id))(p) == 0 {
      assert !Touches(p, item.id);
      SumZero(p.allocations, QuantityFor(item.id));
    }
    SumFilter(db.payments, KeepPayment(channel), Signed(QuantityOf(item.id)), Signed(QuantityOf(item.id)));
  }

  lemma LedgerOfKept(db: Db, channel: Channel)
    requires Inv(db)
    ensures IsLedger(Filter(db.payments, KeepPayment(channel)))
    ensures forall p | p in db.payments && KeepPayment(channel)(p) ::
              Stands(Filter(db.payments, KeepPayment(channel)), p) == Stands(db.payments, p)
  {
    FilterLedger(db.payments, KeepPayment(channel));
    forall p | p in db.payments && KeepPayment(channel)(p)
      ensures Stands(Filter(db.payments, KeepPayment(channel)), p) == Stands(db.payments, p)
    {
      forall r | r in db.payments && r.reverses == Some(p.id) ensures KeepPayment(channel)(r) {
        ReversalOf(db.payments, r, p);
      }
      FilterStands(db.payments, KeepPayment(channel), p);
    }
  }

  lemma TotalsOfKept(db: Db, channel: Channel, owner: Owner)
    requires !In(channel, owner)
    ensures Paid(Filter(db.payments, KeepPayment(channel)), owner) == Paid(db.payments, owner)
    ensures FullTotal(Filter(db.orders, KeepOrder(channel)), owner) == FullTotal(db.orders, owner)
    ensures OrderTotal(Filter(db.orders, KeepOrder(channel)), owner) == OrderTotal(db.orders, owner)
  {
    SumFilter(db.payments, KeepPayment(channel), Signed(Ledger.AmountFor(owner)), Signed(Ledger.AmountFor(owner)));
    SumFilter(db.orders, KeepOrder(channel), FullFrom(owner), FullFrom(owner));
    SumFilter(db.orders, KeepOrder(channel), AmountFrom(owner), AmountFrom(owner));
  }

  lemma SalesOfKept(db: Db)
    requires Inv(db)
    ensures SalesOk(db.sales, Filter(db.orders, KeepOrder(TableRows)), Filter(db.payments, KeepPayment(TableRows)))
  {
    var orders, payments := Filter(db.orders, KeepOrder(TableRows)), Filter(db.payments, KeepPayment(TableRows));
    FilterSubset(db.orders, KeepOrder(TableRows));
    FilterSubset(db.payments, KeepPayment(TableRows));
    LedgerOfKept(db, TableRows);
    forall s | s in db.sales ensures SaleOk(s, orders, payments) {
      TotalsOfKept(db, TableRows, Sale(s.id));
    }
  }

  lemma {:induction false} FilterCouponsDistinct(redemptions: seq<Redemption>, keep: Redemption -> bool)
    requires CouponsDistinct(redemptions)
    ensures CouponsDistinct(Filter(redemptions, keep))
  {
    if redemptions != [] {
      var front, last := redemptions[..|redemptions| - 1], redemptions[|redemptions| - 1];
      FilterCouponsDistinct(front, keep);
      FilterSubset(front, keep);
      forall r | r in Filter(front, keep) ensures r.coupon != last.coupon {
        var i :| 0 <= i < |front| && front[i] == r;
        assert redemptions[i] == r;
      }
      var kept := Filter(front, keep);
      var after := Filter(redemptions, keep);
      assert after == if keep(last) then kept + [last] else kept;
      forall i, j | 0 <= i < j < |after| ensures after[i].coupon != after[j].coupon {
        assert after[i] == kept[i] && kept[i] in kept;
        assert j < |kept| ==> after[j] == kept[j];
      }
    }
  }

  lemma SameCoupon(redemptions: seq<Redemption>, r: Redemption, s: Redemption)
    requires CouponsDistinct(redemptions)
    requires r in redemptions && s in redemptions && r.coupon == s.coupon
    ensures r == s
  {
  }

  /** Exactly the coupons whose redemption survives stay used. */
  lemma RestoredKeeps(coupons: map<string, Coupon>, redemptions: seq<Redemption>, channel: Channel)
    requires UsedIffRedeemed(coupons, redemptions)
    ensures UsedIffRedeemed(Restored(coupons, redemptions, channel), Filter(redemptions, KeepRedemption(channel)))
  {
    var kept, after := Filter(redemptions, KeepRedemption(channel)), Restored(coupons, redemptions, channel);
    FilterCouponsDistinct(redemptions, KeepRedemption(channel));
    FilterSubset(redemptions, KeepRedemption(channel));
    forall r | r in kept ensures r.coupon in after && after[r.coupon].status == Used {
      forall s | s in redemptions && s.coupon == r.coupon ensures s == r {
        SameCoupon(redemptions, r, s);
      }
    }
    forall code | code in after && after[code].status == Used ensures exists r | r in kept :: r.coupon == code {
      var r :| r in redemptions && r.coupon == code;
      assert r in kept;
    }
  }

  /** The rows that stay after one channel is dropped. */
  lemma DropKeepsRows(db: Db, channel: Channel)
    requires Inv(db)
    ensures var after := DeleteLedgerOf(db, channel);
            && IdsBelow(after) && IsLedger(after.payments) && OrdersOk(after.orders)
            && OwnItems(after.orders, after.payments) && ItemsCovered(after.orders, after.payments)
  {
    var after := DeleteLedgerOf(db, channel);
    FilterSubset(db.orders, KeepOrder(channel));
    FilterSubset(db.payments, KeepPayment(channel));
    FilterSubset(db.redemptions, KeepRedemption(channel));
    FilterOrdersOk(db.orders, KeepOrder(channel));
    LedgerOfKept(db, channel);
    forall o, item | o in after.orders && item in o.items
      ensures 0 <= PaidQuantity(after.payments, item.id) <= item.quantity
    {
      CoverageOfKept(db, channel, o, item);
    }
  }

  lemma ResetTablesStep(db: Db, scopes: set<Scope>)
    requires Inv(db)
    ensures Inv(ResetTables(db, scopes))
  {
    if Tables in scopes {
      DropKeepsRows(db, TableRows);
      SalesOfKept(db);
      RestoredKeeps(db.coupons, db.redemptions, TableRows);
    }
  }

  lemma ResetSalesStep(db: Db, scopes: set<Scope>)
    requires Inv(db)
    ensures Inv(ResetSales(db, scopes))
  {
    if CounterSales in scopes {
      DropKeepsRows(db, SaleRows);
      RestoredKeeps(db.coupons, db.redemptions, SaleRows);
    }
  }

  /** Any reset, whatever the selection, keeps every invariant; in particular used still means redeemed. */
  lemma ResetStep(db: Db, scopes: set<Scope>)
    requires Inv(db)
    ensures Inv(Reset(db, scopes))
  {
    ResetTablesStep(db, scopes);
    ResetSalesStep(ResetTables(db, scopes), scopes);
  }

  /** What a reset does to an owner's bill: gone with its channel, otherwise untouched. */
  lemma ResetRemaining(db: Db, scopes: set<Scope>, owner: Owner)
    ensures Remaining(Reset(db, scopes), owner)
         == if (owner.Session? && Tables in scopes) || (owner.Sale? && CounterSales in scopes) then 0 else Remaining(db, owner)
  {
    DropRemaining(db, TableRows, owner);
    DropRemaining(ResetTables(db, scopes), SaleRows, owner);
  }

  lemma DropRemaining(db: Db, channel: Channel, owner: Owner)
    ensures Remaining(DeleteLedgerOf(db, channel), owner) == if In(channel, owner) then 0 else Remaining(db, owner)
  {
    if In(channel, owner) {
      FilterSubset(db.orders, KeepOrder(channel));
      FilterSubset(db.payments, KeepPayment(channel));
      SumZero(Filter(db.orders, KeepOrder(channel)), AmountFrom(owner));
      SumZero(Filter(db.payments, KeepPayment(channel)), Signed(Ledger.AmountFor(owner)));
    } else {
      TotalsOfKept(db, channel, owner);
    }
  }
}
