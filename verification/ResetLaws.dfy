/** Exactly which rows a data reset takes away, and what it puts back. */
module ResetLaws {
  import opened DataReset
  import opened Schema
  import opened Sums
  import T = TableSessions
  import opened Wrappers

  /** What cannot go without what: payments with both channels, revenue with payments, the menu with whatever names it. */
  lemma ClosedExactly(scopes: set<Scope>)
    ensures DataReset.Closed(scopes)
        <==> && (Payments in scopes ==> Tables in scopes && CounterSales in scopes)
             && (Revenue in scopes ==> Payments in scopes)
             && (Menu in scopes ==> Tables in scopes && CounterSales in scopes && Coupons in scopes)
  {
    assert DependsOn(Payments)[0] == Tables && DependsOn(Payments)[1] == CounterSales && DependsOn(Revenue)[0] == Payments;
    assert DependsOn(Menu)[0] == Tables && DependsOn(Menu)[1] == CounterSales && DependsOn(Menu)[2] == Coupons;
  }

  /** The rows of table sessions go with the tables, the rows of counter sales with the sales. */
  predicate Taken(scopes: set<Scope>, owner: Owner) {
    match owner
    case Session(_) => Tables in scopes
    case Sale(_) => CounterSales in scopes
  }

  /** Payments and orders go exactly with their owner's channel. */
  lemma PaymentGoes(db: Db, scopes: set<Scope>, p: Payment)
    ensures p in Reset(db, scopes).payments <==> p in db.payments && !Taken(scopes, p.owner)
  {
    FilterMember(db.payments, KeepPayment(TableRows), p);
    FilterMember(ResetTables(db, scopes).payments, KeepPayment(SaleRows), p);
  }

  lemma OrderGoes(db: Db, scopes: set<Scope>, o: Order)
    ensures o in Reset(db, scopes).orders <==> o in db.orders && !Taken(scopes, o.owner)
  {
    FilterMember(db.orders, KeepOrder(TableRows), o);
    FilterMember(ResetTables(db, scopes).orders, KeepOrder(SaleRows), o);
  }

  /** Redemptions go with their owner's channel, or with the coupons. */
  lemma RedemptionGoes(db: Db, scopes: set<Scope>, r: Redemption)
    ensures r in Reset(db, scopes).redemptions <==> r in db.redemptions && !Taken(scopes, r.owner) && Coupons !in scopes
  {
    FilterMember(db.redemptions, KeepRedemption(TableRows), r);
    FilterMember(ResetTables(db, scopes).redemptions, KeepRedemption(SaleRows), r);
  }

  /** Sessions and staff calls go with the tables, sales with the sales; settings and the id counter always stay. */
  lemma FloorGoesExactly(db: Db, scopes: set<Scope>)
    ensures var after := Reset(db, scopes);
            && after.sessions == (if Tables in scopes then map[] else db.sessions)
            && after.calls == (if Tables in scopes then [] else db.calls)
            && after.sales == (if CounterSales in scopes then [] else db.sales)
            && after.settings == db.settings && after.next == db.next
  {
  }

  /** No table goes; one in use is available afterwards, with its lock, and can be opened at once. */
  lemma TablesVacated(db: Db, scopes: set<Scope>, table: Id)
    requires table in db.tables
    ensures var after := Reset(db, scopes);
            && after.tables.Keys == db.tables.Keys
            && after.tables[table] ==
                 (if Tables in scopes && db.tables[table].status in {Open, Settling} then
                    Table(Available, db.tables[table].paymentsLocked)
                  else db.tables[table])
            && (Tables in scopes ==> (T.OpenTable(after, table, None).Committed? <==> db.tables[table].status != Disabled))
  {
  }

  /** Redeemed on a row that goes. */
  ghost predicate Unredeemed(db: Db, scopes: set<Scope>, code: string) {
    exists r | r in db.redemptions :: r.coupon == code && Taken(scopes, r.owner)
  }

  /** Coupons go with their own scope only; otherwise a used one whose redemption goes is unused again, the rest stay. */
  lemma CouponsRestored(db: Db, scopes: set<Scope>)
    ensures Coupons in scopes ==> Reset(db, scopes).coupons == map[]
    ensures Coupons !in scopes ==>
              && Reset(db, scopes).coupons.Keys == db.coupons.Keys
              && forall code | code in db.coupons ::
                   Reset(db, scopes).coupons[code] ==
                     if db.coupons[code].status == Used && Unredeemed(db, scopes, code)
                     then db.coupons[code].(status := Unused) else db.coupons[code]
  {
    if Coupons !in scopes {
      forall code | code in db.coupons
        ensures Reset(db, scopes).coupons[code] ==
                  if db.coupons[code].status == Used && Unredeemed(db, scopes, code)
                  then db.coupons[code].(status := Unused) else db.coupons[code]
      {
        RestoredOnce(db, scopes, code);
      }
    }
  }

  lemma RestoredOnce(db: Db, scopes: set<Scope>, code: string)
    requires code in db.coupons && Coupons !in scopes
    ensures Reset(db, scopes).coupons[code] ==
              if db.coupons[code].status == Used && Unredeemed(db, scopes, code)
              then db.coupons[code].(status := Unused) else db.coupons[code]
  {
    var mid := ResetTables(db, scopes);
    FilterSubset(db.redemptions, KeepRedemption(TableRows));
    assert Unredeemed(db, scopes, code)
      <==> || (Tables in scopes && Loses(db.redemptions, TableRows, code))
           || (CounterSales in scopes && Loses(db.redemptions, SaleRows, code));
    assert Loses(mid.redemptions, SaleRows, code) <==> Loses(db.redemptions, SaleRows, code) by {
      forall r ensures r in mid.redemptions && In(SaleRows, r.owner) <==> r in db.redemptions && In(SaleRows, r.owner) {
      }
    }
  }
}
