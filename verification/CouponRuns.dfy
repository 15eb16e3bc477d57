/** Coupon agreement over whole runs: which steps keep it, and what breaks it. */
module CouponRuns {
  import opened Billing
  import C = Coupons
  import opened CouponAgreement
  import Counter = CounterSales
  import DataReset
  import opened Invariants
  import opened Ledger
  import P = Payments
  import opened PaymentLaws
  import SaleLaws
  import SaleSteps
  import opened Schema
  import opened Steps
  import opened Sums
  import TC = TableCoupons
  import opened World
  import opened Wrappers

  // ---- counter sales ----

  lemma LedgerPrefix(rows: seq<Payment>, p: Payment)
    requires IsLedger(rows + [p])
    ensures IsLedger(rows) && Follows(rows, p)
  {
    assert (rows + [p])[..|rows|] == rows;
  }

  /** Discount and redemption of a confirmed sale, before its charge. */
  lemma ConfirmPairAgrees(db: Db, due: multiset<Due>, request: Counter.Request, q: Counter.Quote, mid: Db)
    requires IdsBelow(db) && IsLedger(db.payments) && Agrees(db, due) && SaleSteps.SoundQuote(db, request, q)
    requires IsLedger(mid.payments)
    requires mid == db.(payments := db.payments + Counter.DiscountPart(db.next, request, q),
                        redemptions := db.redemptions + Counter.RedemptionPart(db.next, q))
    ensures Agrees(mid, due)
  {
    if q.coupon.Some? {
      var p := Counter.DiscountPart(db.next, request, q)[0];
      var r := Counter.RedemptionPart(db.next, q)[0];
      assert mid.payments == db.payments + [p] && mid.redemptions == db.redemptions + [r];
      LedgerPrefix(db.payments, p);
      CouponRowAgrees(db, mid, due, p, r);
    } else {
      assert mid.payments == db.payments && mid.redemptions == db.redemptions;
    }
  }

  lemma ConfirmChargeAgrees(mid: Db, due: multiset<Due>, request: Counter.Request, q: Counter.Quote, sale: Id, rows: seq<Payment>)
    requires Agrees(mid, due) && |q.discounts| == |q.lines|
    requires rows == mid.payments + Counter.ChargePart(sale, request, q) && IsLedger(rows)
    ensures Agrees(mid.(payments := rows), due)
  {
    if q.totalAmount > 0 && request.means.Some? {
      var p := Counter.ChargePart(sale, request, q)[0];
      assert rows == mid.payments + [p];
      LedgerPrefix(mid.payments, p);
      PlainRowAgrees(mid, due, p);
      FrameAgrees(P.AppendRow(mid, p), mid.(payments := rows, next := mid.next + 1), due);
      NextIsIrrelevant(mid.(payments := rows, next := mid.next + 1), mid.(payments := rows), due, mid);
    } else {
      assert rows == mid.payments;
    }
  }

  /** Dues were already below the counter of `base`. */
  lemma NextIsIrrelevant(db: Db, after: Db, due: multiset<Due>, base: Db)
    requires Agrees(db, due) && Agrees(base, due) && after == db.(next := base.next)
    ensures Agrees(after, due)
  {
    forall d | d in due ensures Safe(d, after) {
      assert Safe(d, db) && Safe(d, base);
    }
  }

  lemma ConfirmAgrees(db: Db, due: multiset<Due>, request: Counter.Request)
    requires Inv(db) && Agrees(db, due) && Counter.ValidLines(request.lines)
    ensures Agrees(Counter.AfterConfirm(db, request), due)
  {
    if Counter.Confirm(db, request).Ok? {
      var q := Counter.Confirm(db, request).value;
      Counter.QuoteIsExact(db, request.lines, request.code, request.target, request.at);
      WriteSaleAgrees(db, due, request, q);
    }
  }

  lemma WriteSaleAgrees(db: Db, due: multiset<Due>, request: Counter.Request, q: Counter.Quote)
    requires Inv(db) && Agrees(db, due) && SaleSteps.SoundQuote(db, request, q)
    ensures Agrees(Counter.WriteSale(db, request, q), due)
  {
    var discounted := db.payments + Counter.DiscountPart(db.next, request, q);
    var rows := discounted + Counter.ChargePart(db.next, request, q);
    SaleSteps.ConfirmSound(db, request, q);
    if q.totalAmount > 0 && request.means.Some? {
      LedgerPrefix(discounted, Counter.ChargePart(db.next, request, q)[0]);
    } else {
      assert rows == discounted;
    }
    var mid := db.(payments := discounted, redemptions := db.redemptions + Counter.RedemptionPart(db.next, q));
    ConfirmPairAgrees(db, due, request, q, mid);
    ConfirmChargeAgrees(mid, due, request, q, db.next, rows);
    FrameAgrees(mid.(payments := rows), Counter.WriteSale(db, request, q), due);
  }

  /** Refunds of one sale leave everybody else's rows standing or not as before. */
  lemma RefundsSpare(payments: seq<Payment>, more: seq<Payment>, sale: Id, p: Payment)
    requires IsLedger(payments) && IsLedger(payments + more) && forall r | r in more :: r.owner == Sale(sale) && !IsOriginal(r)
    requires p in payments && p.owner != Sale(sale)
    ensures Stands(payments + more, p) == Stands(payments, p)
  {
    forall r | r in more ensures r.reverses != Some(p.id) {
      if r.reverses == Some(p.id) {
        assert r in payments + more && p in payments + more;
        ReversalOf(payments + more, r, p);
      }
    }
  }

  lemma CancelRecorded(payments: seq<Payment>, more: seq<Payment>, redemptions: seq<Redemption>, sale: Id)
    requires IsLedger(payments) && IsLedger(payments + more) && forall r | r in more :: r.owner == Sale(sale) && !IsOriginal(r)
    requires NoneStand(payments + more, Sale(sale)) && DiscountsRecorded(payments, redemptions)
    ensures DiscountsRecorded(payments + more, C.CancelWhere(redemptions, C.OfSale(sale)))
  {
    var after := C.CancelWhere(redemptions, C.OfSale(sale));
    forall p | p in payments + more && IsCouponDiscount(p) ensures Recorded(p, after, Stands(payments + more, p)) {
      assert p in payments;
      var r :| r in redemptions && Matches(r, p) && (Stands(payments, p) ==> !r.cancelled);
      var i :| 0 <= i < |redemptions| && redemptions[i] == r;
      assert after[i] in after && Matches(after[i], p);
      if p.owner != Sale(sale) {
        RefundsSpare(payments, more, sale, p);
      }
    }
  }

  lemma CancelBacked(payments: seq<Payment>, more: seq<Payment>, redemptions: seq<Redemption>, sale: Id, due: multiset<Due>)
    requires IsLedger(payments) && IsLedger(payments + more) && forall r | r in more :: r.owner == Sale(sale) && !IsOriginal(r)
    requires RedemptionsBacked(payments, redemptions, due)
    ensures RedemptionsBacked(payments + more, C.CancelWhere(redemptions, C.OfSale(sale)), due)
    ensures forall r | r in C.CancelWhere(redemptions, C.OfSale(sale)) && !r.cancelled :: r in redemptions
  {
    var after := C.CancelWhere(redemptions, C.OfSale(sale));
    forall r | r in after && !r.cancelled ensures r in redemptions && Backed(r, payments + more, due) {
      var i :| 0 <= i < |after| && after[i] == r;
      assert redemptions[i] in redemptions && Backed(r, payments, due);
      forall p | p in payments && p.owner == r.owner ensures Stands(payments, p) ==> Stands(payments + more, p) {
        RefundsSpare(payments, more, sale, p);
      }
      BackedStays(r, payments, payments + more, due);
    }
  }

  lemma CancelSafe(db: Db, after: Db, more: seq<Payment>, sale: Id, d: Due)
    requires IsLedger(db.payments) && IsLedger(db.payments + more) && forall r | r in more :: r.owner == Sale(sale) && !IsOriginal(r)
    requires Safe(d, db) && after.payments == db.payments + more && after.sessions == db.sessions && after.next >= db.next
    requires after.redemptions == C.CancelWhere(db.redemptions, C.OfSale(sale))
    ensures Safe(d, after)
  {
    forall p | p in after.payments && IsCouponDiscount(p) && p.owner == Session(d.session) && p.coupon == d.code
      ensures !Stands(after.payments, p)
    {
      assert p in db.payments;
      RefundsSpare(db.payments, more, sale, p);
    }
    if d.session in db.sessions {
      var r :| r in db.redemptions && r.coupon == d.code.value && r.owner == Session(d.session);
      var i :| 0 <= i < |db.redemptions| && db.redemptions[i] == r;
      assert after.redemptions[i] in after.redemptions;
    }
  }

  lemma CancelRest(payments: seq<Payment>, more: seq<Payment>, redemptions: seq<Redemption>, sale: Id)
    requires forall r | r in more :: !IsOriginal(r) && r.key.SaleRefund?
    requires OneDiscountPerCoupon(payments) && ReversalKeysHonest(payments) && OneLivePerOwner(redemptions)
    requires forall r | r in C.CancelWhere(redemptions, C.OfSale(sale)) && !r.cancelled :: r in redemptions
    ensures OneDiscountPerCoupon(payments + more) && ReversalKeysHonest(payments + more)
    ensures OneLivePerOwner(C.CancelWhere(redemptions, C.OfSale(sale)))
  {
  }

  lemma CancelledAgrees(db: Db, due: multiset<Due>, sale: Id, more: seq<Payment>, after: Db)
    requires IsLedger(db.payments) && Agrees(db, due) && IsLedger(db.payments + more)
    requires forall r | r in more :: r.owner == Sale(sale) && !IsOriginal(r) && r.key.SaleRefund?
    requires NoneStand(db.payments + more, Sale(sale))
    requires after.payments == db.payments + more && after.redemptions == C.CancelWhere(db.redemptions, C.OfSale(sale))
    requires after.sessions == db.sessions && after.next >= db.next
    ensures Agrees(after, due)
  {
    CancelRecorded(db.payments, more, db.redemptions, sale);
    CancelBacked(db.payments, more, db.redemptions, sale, due);
    CancelRest(db.payments, more, db.redemptions, sale);
    forall d | d in due ensures Safe(d, after) {
      CancelSafe(db, after, more, sale, d);
    }
  }

  lemma CancelSaleAgrees(db: Db, due: multiset<Due>, sale: Id, at: int)
    requires IdsBelow(db) && IsLedger(db.payments) && Agrees(db, due)
    ensures Agrees(Counter.AfterCancelSale(db, sale, true, at), due)
  {
    if Counter.CancelSale(db, sale, true, at).Ok? {
      SaleLaws.RefundsKeepLedger(db, sale, at);
      SaleSteps.RefundsCopy(db, sale, at);
      CancelledAgrees(db, due, sale, Counter.Refunds(db, sale, at), Counter.AfterCancelSale(db, sale, true, at));
    }
  }

  // ---- reset ----

  lemma DropRows(db: Db, channel: DataReset.Channel)
    requires Inv(db)
    ensures var payments := Filter(db.payments, DataReset.KeepPayment(channel));
            && (forall p :: p in payments <==> p in db.payments && !DataReset.In(channel, p.owner))
            && forall p | p in payments :: Stands(payments, p) == Stands(db.payments, p)
    ensures forall r :: r in Filter(db.redemptions, DataReset.KeepRedemption(channel))
                        <==> r in db.redemptions && !DataReset.In(channel, r.owner)
  {
    DataReset.LedgerOfKept(db, channel);
    DataReset.FilterSubset(db.payments, DataReset.KeepPayment(channel));
    DataReset.FilterSubset(db.redemptions, DataReset.KeepRedemption(channel));
  }

  lemma DropChannelAgrees(db: Db, due: multiset<Due>, channel: DataReset.Channel, after: Db)
    requires Inv(db) && Agrees(db, due) && after.next == db.next
    requires after.payments == Filter(db.payments, DataReset.KeepPayment(channel))
    requires after.redemptions == Filter(db.redemptions, DataReset.KeepRedemption(channel))
    requires after.sessions == if channel == DataReset.TableRows then map[] else db.sessions
    ensures Agrees(after, due)
  {
    DropRows(db, channel);
    forall p | p in after.payments && IsCouponDiscount(p) ensures Recorded(p, after.redemptions, Stands(after.payments, p)) {
      var r :| r in db.redemptions && Matches(r, p) && (Stands(db.payments, p) ==> !r.cancelled);
      assert r in after.redemptions;
    }
    forall r | r in after.redemptions && !r.cancelled ensures Backed(r, after.payments, due) {
      assert Backed(r, db.payments, due);
      BackedStays(r, db.payments, after.payments, due);
    }
    forall d | d in due ensures Safe(d, after) {
      assert Safe(d, db);
      if d.session in after.sessions {
        var r :| r in db.redemptions && r.coupon == d.code.value && r.owner == Session(d.session);
        assert r in after.redemptions;
      }
    }
  }

  lemma NothingLeft(db: Db, scopes: set<DataReset.Scope>)
    requires DataReset.Tables in scopes && DataReset.CounterSales in scopes
    ensures var mid := DataReset.ResetSales(DataReset.ResetTables(db, scopes), scopes);
            mid.payments == [] && mid.redemptions == []
  {
    var first := DataReset.ResetTables(db, scopes);
    DataReset.FilterSubset(db.payments, DataReset.KeepPayment(DataReset.TableRows));
    DataReset.FilterSubset(db.redemptions, DataReset.KeepRedemption(DataReset.TableRows));
    FilterNone(first.payments, DataReset.KeepPayment(DataReset.SaleRows));
    FilterNone(first.redemptions, DataReset.KeepRedemption(DataReset.SaleRows));
  }

  /** A reset that takes coupons takes their uses with them. */
  predicate WholeReset(scopes: set<DataReset.Scope>) {
    DataReset.Coupons in scopes ==> DataReset.Tables in scopes && DataReset.CounterSales in scopes
  }

  lemma ResetTablesAgrees(db: Db, due: multiset<Due>, scopes: set<DataReset.Scope>)
    requires Inv(db) && Agrees(db, due)
    ensures Agrees(DataReset.ResetTables(db, scopes), due)
  {
    if DataReset.Tables in scopes {
      DropChannelAgrees(db, due, DataReset.TableRows, DataReset.ResetTables(db, scopes));
    }
  }

  lemma ResetSalesAgrees(db: Db, due: multiset<Due>, scopes: set<DataReset.Scope>)
    requires Inv(db) && Agrees(db, due)
    ensures Agrees(DataReset.ResetSales(db, scopes), due)
  {
    if DataReset.CounterSales in scopes {
      DropChannelAgrees(db, due, DataReset.SaleRows, DataReset.ResetSales(db, scopes));
    }
  }

  lemma ResetCouponsAgrees(db: Db, due: multiset<Due>, scopes: set<DataReset.Scope>)
    requires Agrees(db, due) && (DataReset.Coupons in scopes ==> db.payments == [] && db.redemptions == [])
    ensures Agrees(DataReset.ResetCoupons(db, scopes), due)
  {
    FrameAgrees(db, DataReset.ResetCoupons(db, scopes), due);
  }

  lemma ResetAgrees(db: Db, due: multiset<Due>, scopes: set<DataReset.Scope>)
    requires Inv(db) && Agrees(db, due) && WholeReset(scopes)
    ensures Agrees(DataReset.Reset(db, scopes), due)
  {
    var first := DataReset.ResetTables(db, scopes);
    ResetTablesAgrees(db, due, scopes);
    DataReset.ResetTablesStep(db, scopes);
    ResetSalesAgrees(first, due, scopes);
    if DataReset.Coupons in scopes {
      NothingLeft(db, scopes);
    }
    ResetCouponsAgrees(DataReset.ResetSales(first, scopes), due, scopes);
  }

  // ---- runs ----

  /** Steps under which agreement is kept: no client key spells a reversal key, no reset takes coupons without their uses. */
  predicate Tame(step: Step) {
    match step
    case OnPayment(PayAmount(_, _, _, _, text, _)) => !text.Reversal?
    case OnPayment(PayItems(_, _, _, _, text, _)) => !text.Reversal?
    case OnPayment(GiveDiscount(_, _, text, _)) => !text.Reversal?
    case ResetData(scopes) => WholeReset(scopes)
    case _ => true
  }

  lemma RecordAgrees(db: Db, due: multiset<Due>, session: Id, r: P.Outcome)
    requires IsLedger(db.payments) && Agrees(db, due) && (forall q | q in db.payments :: q.id < db.next)
    requires r.Ok? ==> && NewRow(db, session, r.value) && WellFormed(r.value) && !IsCouponDiscount(r.value)
                       && !r.value.key.text.Reversal?
    ensures Agrees(P.Record(db, r), due)
  {
    if r.Ok? {
      NewRowFollows(db, session, r.value);
      PlainRowAgrees(db, due, r.value);
    }
  }

  lemma PayAmountAgrees(db: Db, due: multiset<Due>, session: Id, means: P.PaymentMethod, amount: Option<int>,
                        tendered: Option<int>, text: KeyText, at: int)
    requires IdsBelow(db) && IsLedger(db.payments) && Agrees(db, due) && !text.Reversal?
    ensures Agrees(P.Record(db, P.PayAmount(db, session, means, amount, tendered, text, at)), due)
  {
    var r := P.PayAmount(db, session, means, amount, tendered, text, at);
    if r.Ok? {
      AmountWithin(db, session, means, amount, tendered, text, at);
    }
    RecordAgrees(db, due, session, r);
  }

  lemma PayItemsAgrees(db: Db, due: multiset<Due>, session: Id, means: P.PaymentMethod, wanted: seq<P.Wanted>,
                       tendered: Option<int>, text: KeyText, at: int)
    requires IdsBelow(db) && IsLedger(db.payments) && AllPriced(db.orders) && Agrees(db, due) && !text.Reversal?
    ensures Agrees(P.Record(db, P.PayItems(db, session, means, wanted, tendered, text, at)), due)
  {
    var r := P.PayItems(db, session, means, wanted, tendered, text, at);
    if r.Ok? {
      ItemsWithin(db, session, means, wanted, tendered, text, at);
    }
    RecordAgrees(db, due, session, r);
  }

  lemma DiscountAgrees(db: Db, due: multiset<Due>, session: Id, discount: int, text: KeyText, at: int)
    requires IdsBelow(db) && IsLedger(db.payments) && Agrees(db, due) && discount > 0 && !text.Reversal?
    ensures Agrees(P.Record(db, P.GiveDiscount(db, session, discount, text, at)), due)
  {
    var r := P.GiveDiscount(db, session, discount, text, at);
    if r.Ok? {
      DiscountWithin(db, session, discount, text, at);
      assert r.value.methodCode == MANUAL_DISCOUNT_METHOD;
    }
    RecordAgrees(db, due, session, r);
  }

  /** The row already stored under a reversal key is the reversal. */
  lemma ReplayedIsReversed(db: Db, due: multiset<Due>, o: Payment, key: PaymentKey)
    requires IsLedger(db.payments) && Agrees(db, due) && IsOriginal(o) && KeyTaken(db.payments, key)
    requires key.Scoped? && key.text.Reversal? && key.text.payment == o.id
    requires forall q | q in db.payments && q.id == o.id :: q == o
    ensures o in db.payments && !Stands(db.payments, o)
  {
    var row :| row in db.payments && row.key == key;
    AtMostOneReversal(db.payments);
    var p :| p in db.payments && Reverses(row, p);
  }

  lemma ReversalOutcomeAgrees(db: Db, due: multiset<Due>, t: P.Ticket, at: int)
    requires IdsBelow(db) && IsLedger(db.payments) && Agrees(db, due)
    requires t.original.owner.Session? && IsOriginal(t.original)
    requires forall q | q in db.payments && q.id == t.original.id :: q == t.original
    requires SoundReversal(db, t.original, P.Reverse(db, t, at))
    ensures var r := P.Reverse(db, t, at);
            Agrees(P.RecordReversal(db, r), if r.Failed? then due else due + DueFor(t.original))
  {
    var r := P.Reverse(db, t, at);
    P.FindByKeyExactly(db.payments, P.ReversalKey(t));
    if r.Inserted? {
      InsertedReversalAgrees(db, due, t.original, r.row);
    } else if r.Replay? {
      ReplayedIsReversed(db, due, t.original, P.ReversalKey(t));
      ReplayAgrees(db, due, t.original);
    }
  }

  lemma DueAfterReversal(db: Db, due: multiset<Due>, payment: Id, seen: Db, at: int, t: P.Ticket)
    requires P.BeginReversal(seen, payment, true) == Ok(t) && t.original.owner.Session?
    ensures var r := P.Reverse(db, t, at);
            && AfterReversal(db, payment, seen, at) == P.RecordReversal(db, r)
            && DueAfter(db, due, OnPayment(ReversePayment(payment, seen, at)))
               == if r.Failed? then due else due + DueFor(t.original)
  {
    assert due + multiset{} == due;
  }

  lemma ReversalAgrees(db: Db, due: multiset<Due>, payment: Id, seen: Db, at: int)
    requires Inv(db) && Inv(seen) && Later(seen, db) && Agrees(db, due)
    ensures Agrees(AfterReversal(db, payment, seen, at), DueAfter(db, due, OnPayment(ReversePayment(payment, seen, at))))
  {
    var t := P.BeginReversal(seen, payment, true);
    if t.Ok? {
      SnapshotRow(db, seen, payment);
      ReversalIsSound(db, payment, seen, at);
      ReversalOutcomeAgrees(db, due, t.value, at);
      DueAfterReversal(db, due, payment, seen, at, t.value);
    }
  }

  lemma ApplyAgrees(db: Db, due: multiset<Due>, session: Id, code: string, target: Option<Id>, key: string, at: int)
    requires Inv(db) && Agrees(db, due)
    ensures Agrees(TC.AfterApply(db, session, code, target, key, at), due)
  {
    if TC.ApplyCoupon(db, session, code, target, key, at).Ok? {
      LinesNonneg(db.orders);
      TC.ResolvedIsSpread(db, session, code, target, at);
      var preview := TC.Resolve(db, session, code, target, at).value;
      var rows := TC.Spread(TC.BillItems(db.orders, Session(session)), preview).value;
      RedeemAgrees(db, due, session, code, preview, key, at, rows);
    }
  }

  lemma RedeemAgrees(db: Db, due: multiset<Due>, session: Id, code: string, preview: TC.Preview, key: string, at: int,
                     rows: seq<Allocation>)
    requires IdsBelow(db) && IsLedger(db.payments) && Agrees(db, due) && session in db.sessions
    requires TC.Redeem(db, session, code, preview, key, at, rows).Ok? && preview.discount >= 0
    requires !C.HasLive(db.redemptions, Session(session)) && forall a | a in rows :: a.quantity == 0
    ensures Agrees(TC.Redeem(db, session, code, preview, key, at, rows).value, due)
  {
    var p := TC.DiscountRow(db, session, code, preview, key, at, rows);
    var r := Redemption(code, Session(session), preview.remainingBefore, preview.discount, false);
    NewRowFollows(db, session, p);
    CouponRowAgrees(db, TC.Redeem(db, session, code, preview, key, at, rows).value, due, p, r);
  }

  lemma PaymentOpAgrees(w: World, op: PaymentOp)
    requires WorldOk(w) && Inv(w.db) && Enabled(w, OnPayment(op)) && Tame(OnPayment(op)) && Agrees(w.db, w.due)
    ensures Agrees(CommitPayment(w.db, op), DueAfter(w.db, w.due, OnPayment(op)))
  {
    match op {
      case PayAmount(session, means, amount, tendered, text, at) =>
        PayAmountAgrees(w.db, w.due, session, means, amount, tendered, text, at);
      case PayItems(session, means, wanted, tendered, text, at) =>
        PayItemsAgrees(w.db, w.due, session, means, wanted, tendered, text, at);
      case GiveDiscount(session, discount, text, at) => DiscountAgrees(w.db, w.due, session, discount, text, at);
      case ReversePayment(payment, seen, at) => ReversalAgrees(w.db, w.due, payment, seen, at);
    }
  }

  lemma CouponOpAgrees(w: World, op: CouponOp)
    requires Inv(w.db) && Enabled(w, OnCoupon(op)) && Agrees(w.db, w.due)
    ensures Agrees(CommitCoupon(w.db, op), DueAfter(w.db, w.due, OnCoupon(op)))
  {
    match op {
      case DropRedemption(due) => DropAgrees(w.db, w.due, due);
      case ApplyCoupon(session, code, target, key, at) => ApplyAgrees(w.db, w.due, session, code, target, key, at);
      case IssueCoupons(count, benefit, expiresAt) =>
        FrameAgrees(w.db, C.AfterIssue(w.db, count, benefit, expiresAt), w.due);
      case WithdrawCoupons(codes) => FrameAgrees(w.db, C.Withdraw(w.db, codes), w.due);
    }
  }

  lemma SaleOpAgrees(db: Db, due: multiset<Due>, op: SaleOp)
    requires Inv(db) && Agrees(db, due)
    ensures Agrees(CommitSale(db, op), due)
  {
    match op {
      case ConfirmSale(request) =>
        if Counter.ValidLines(request.lines) {
          ConfirmAgrees(db, due, request);
        }
      case CancelSale(sale, at) => CancelSaleAgrees(db, due, sale, at);
    }
  }

  lemma SessionOpAgrees(db: Db, due: multiset<Due>, op: SessionOp)
    requires Agrees(db, due)
    ensures Agrees(CommitSession(db, op), due)
  {
    FrameAgrees(db, CommitSession(db, op), due);
  }

  lemma FloorOpAgrees(db: Db, due: multiset<Due>, op: FloorOp)
    requires Agrees(db, due)
    ensures Agrees(CommitFloor(db, op), due)
  {
    FrameAgrees(db, CommitFloor(db, op), due);
  }

  lemma OrderOpAgrees(db: Db, due: multiset<Due>, op: OrderOp)
    requires Agrees(db, due)
    ensures Agrees(CommitOrder(db, op), due)
  {
    FrameAgrees(db, CommitOrder(db, op), due);
  }

  lemma StepAgrees(w: World, step: Step)
    requires WorldOk(w) && Enabled(w, step) && Tame(step) && Agrees(w.db, w.due)
    ensures Agrees(Next(w, step).db, Next(w, step).due)
  {
    assert w.db in w.past && Inv(w.db);
    match step {
      case OnPayment(op) => PaymentOpAgrees(w, op);
      case OnCoupon(op) => CouponOpAgrees(w, op);
      case OnSale(op) => SaleOpAgrees(w.db, w.due, op);
      case ResetData(scopes) => ResetAgrees(w.db, w.due, scopes);
      case OnSession(op) => SessionOpAgrees(w.db, w.due, op);
      case OnFloor(op) => FloorOpAgrees(w.db, w.due, op);
      case OnOrder(op) => OrderOpAgrees(w.db, w.due, op);
    }
  }

  lemma {:induction false} RunsAgree(w: World, steps: seq<Step>)
    requires WorldOk(w) && Runs(w, steps) && Agrees(w.db, w.due)
    requires forall i | 0 <= i < |steps| :: Tame(steps[i])
    ensures Agrees(After(w, steps).db, After(w, steps).due) && WorldOk(After(w, steps))
    decreases |steps|
  {
    if steps != [] {
      StepAgrees(w, steps[0]);
      StepKeeps(w, steps[0]);
      RunsAgree(Next(w, steps[0]), steps[1..]);
    }
  }

  /** Live redemptions are worth exactly the net coupon discount. */
  ghost predicate InAgreement(db: Db, owner: Owner) {
    Redeemed(db.redemptions, owner) == LedgerOf(db, owner).couponDiscountAmount
  }

  lemma BoundaryOf(w: World, owner: Owner)
    requires WorldOk(w) && Agrees(w.db, w.due)
    requires owner.Session? ==> forall d | d in w.due :: d.session != owner.id
    ensures InAgreement(w.db, owner)
  {
    assert w.db in w.past && Inv(w.db);
    AgreementAtBoundary(w.db, w.due, owner);
  }

  /**
   In every interleaving of such steps, an owner for whom no redemption is waiting to be cancelled has
   live redemptions that add up to its net coupon discount.
   */
  lemma CouponsAlwaysAgree(steps: seq<Step>, owner: Owner)
    requires Runs(START, steps) && forall i | 0 <= i < |steps| :: Tame(steps[i])
    requires owner.Session? ==> forall d | d in After(START, steps).due :: d.session != owner.id
    ensures InAgreement(After(START, steps).db, owner)
  {
    StartOk();
    RunsAgree(START, steps);
    BoundaryOf(After(START, steps), owner);
  }

  // ---- what breaks it ----

  predicate InScope(scopes: set<DataReset.Scope>, owner: Owner) {
    if owner.Session? then DataReset.Tables in scopes else DataReset.CounterSales in scopes
  }

  function NetCoupon(rows: seq<Payment>, owner: Owner): int {
    CouponDiscounted(PaymentsOf(rows, owner))
  }

  function KeptRows(rows: seq<Payment>, taken: bool, channel: DataReset.Channel): seq<Payment> {
    if taken then Filter(rows, DataReset.KeepPayment(channel)) else rows
  }

  lemma ResetPayments(db: Db, scopes: set<DataReset.Scope>)
    ensures DataReset.Reset(db, scopes).payments
         == KeptRows(KeptRows(db.payments, DataReset.Tables in scopes, DataReset.TableRows),
                     DataReset.CounterSales in scopes, DataReset.SaleRows)
  {
  }

  lemma ChannelLedger(rows: seq<Payment>, taken: bool, channel: DataReset.Channel, owner: Owner)
    ensures NetCoupon(KeptRows(rows, taken, channel), owner)
         == if taken && DataReset.In(channel, owner) then 0 else NetCoupon(rows, owner)
  {
    OwnersKept(rows, DataReset.KeepPayment(channel), owner, !DataReset.In(channel, owner));
  }

  /** A reset leaves an owner its ledger, or nothing of it. */
  lemma ResetLedger(db: Db, scopes: set<DataReset.Scope>, owner: Owner)
    ensures NetCoupon(DataReset.Reset(db, scopes).payments, owner)
         == if InScope(scopes, owner) then 0 else NetCoupon(db.payments, owner)
  {
    ResetPayments(db, scopes);
    var first := KeptRows(db.payments, DataReset.Tables in scopes, DataReset.TableRows);
    ChannelLedger(db.payments, DataReset.Tables in scopes, DataReset.TableRows, owner);
    ChannelLedger(first, DataReset.CounterSales in scopes, DataReset.SaleRows, owner);
  }

  /** A filter that keeps all of an owner's rows, or none. */
  lemma {:induction false} OwnersKept(rows: seq<Payment>, keep: Payment -> bool, owner: Owner, all: bool)
    requires forall p | p in rows && p.owner == owner :: keep(p) == all
    ensures PaymentsOf(Filter(rows, keep), owner) == if all then PaymentsOf(rows, owner) else []
  {
    if rows != [] {
      OwnersKept(rows[..|rows| - 1], keep, owner, all);
      FilterConcat(Filter(rows[..|rows| - 1], keep), if keep(rows[|rows| - 1]) then [rows[|rows| - 1]] else [], OfOwner(owner));
    }
  }

  /**
   A reset that takes the coupons leaves an owner in agreement iff it takes the owner's channel too, or
   the owner had no net coupon discount.
   */
  lemma CouponResetExactly(db: Db, scopes: set<DataReset.Scope>, owner: Owner)
    requires DataReset.Coupons in scopes
    ensures InAgreement(DataReset.Reset(db, scopes), owner)
        <==> InScope(scopes, owner) || LedgerOf(db, owner).couponDiscountAmount == 0
  {
    ResetLedger(db, scopes, owner);
  }
}
