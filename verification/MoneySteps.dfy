/** When, in any interleaving of requests, money may be taken at all. */
module MoneySteps {
  import Counter = CounterSales
  import DataReset
  import opened Ledger
  import opened MoneyLaws
  import P = Payments
  import SaleMoney
  import opened Schema
  import opened Steps
  import TableCouponLaws
  import opened World
  import opened Wrappers

  /** A charge or discount on a session needs the session and its table open to payments, one on a sale both main switches on. */
  ghost predicate MayBeTaken(db: Db, owner: Owner) {
    match owner
    case Session(session) => PaymentsAllowed(db, session)
    case Sale(_) => db.settings.paymentsEnabled && db.settings.orderingEnabled
  }

  ghost predicate TakenOnlyWhenOpen(before: Db, after: Db) {
    forall p | p in after.payments && p !in before.payments && IsOriginal(p) :: MayBeTaken(before, p.owner)
  }

  lemma RecordedWhenOpen(db: Db, r: P.Outcome, session: Id)
    requires r.Ok? ==> r.value.owner == Session(session) && PaymentsAllowed(db, session)
    ensures TakenOnlyWhenOpen(db, P.Record(db, r))
  {
  }

  lemma ReversalTakesNothing(db: Db, payment: Id, seen: Db, at: int)
    ensures TakenOnlyWhenOpen(db, AfterReversal(db, payment, seen, at))
  {
  }

  lemma PaymentStepOpen(db: Db, op: PaymentOp)
    ensures TakenOnlyWhenOpen(db, CommitPayment(db, op))
  {
    match op {
      case PayAmount(session, means, amount, tendered, text, at) =>
        AmountExactly(db, session, means, amount, tendered, text, at);
        RecordedWhenOpen(db, P.PayAmount(db, session, means, amount, tendered, text, at), session);
      case PayItems(session, means, wanted, tendered, text, at) =>
        ItemsAccepted(db, session, means, wanted, tendered, text, at);
        if P.PayItems(db, session, means, wanted, tendered, text, at).Ok? {
          ItemsPriced(db, session, means, wanted, tendered, text, at);
        }
        RecordedWhenOpen(db, P.PayItems(db, session, means, wanted, tendered, text, at), session);
      case GiveDiscount(session, discount, text, at) =>
        DiscountExactly(db, session, discount, text, at);
        RecordedWhenOpen(db, P.GiveDiscount(db, session, discount, text, at), session);
      case ReversePayment(payment, seen, at) => ReversalTakesNothing(db, payment, seen, at);
    }
  }

  lemma CouponStepOpen(db: Db, op: CouponOp)
    ensures TakenOnlyWhenOpen(db, CommitCoupon(db, op))
  {
    if op.ApplyCoupon? {
      TableCouponLaws.AllowedExactly(db, op.session);
    }
  }

  lemma SaleStepOpen(db: Db, op: SaleOp)
    ensures TakenOnlyWhenOpen(db, CommitSale(db, op))
  {
    match op {
      case ConfirmSale(request) =>
        if Counter.ValidLines(request.lines) && Counter.Confirm(db, request).Ok? {
          SaleMoney.ConfirmAccepts(db, request);
          SaleMoney.ConfirmAddsRows(db, request);
        }
      case CancelSale(sale, at) =>
        if Counter.CancelSale(db, sale, true, at).Ok? {
          var refunds := SaleMoney.CancelPaysBack(db, sale, at);
        }
    }
  }

  lemma ResetTakesNothing(db: Db, scopes: set<DataReset.Scope>)
    ensures TakenOnlyWhenOpen(db, DataReset.Reset(db, scopes))
  {
    ResetSubset(db, scopes);
  }

  lemma OthersTakeNothing(db: Db, step: Step)
    requires step.OnSession? || step.OnFloor? || step.OnOrder?
    ensures TakenOnlyWhenOpen(db, Commit(db, step))
  {
  }

  /**
   Whatever the step and however stale what its request read before: money is taken, and discounts are given,
   only on a session that goes on, at a table that is not locked, while payments are switched on in the state
   the row is written to; a counter sale also needs ordering to be on. Only reversals go on regardless.
   */
  lemma MoneyOnlyWhenOpen(db: Db, step: Step)
    ensures TakenOnlyWhenOpen(db, Commit(db, step))
  {
    match step {
      case OnPayment(op) => PaymentStepOpen(db, op);
      case OnCoupon(op) => CouponStepOpen(db, op);
      case OnSale(op) => SaleStepOpen(db, op);
      case ResetData(scopes) => ResetTakesNothing(db, scopes);
      case _ => OthersTakeNothing(db, step);
    }
  }
}
