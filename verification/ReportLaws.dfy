/** The report's and the closing's figures, read off the rows that stand. */
module ReportLaws {
  import opened Billing
  import opened Ledger
  import opened Reporting
  import opened Schema
  import opened Sums

  // ---- where a closing starts ----

  /** At the latest closing there is, else at the earliest payment, else with the day. */
  lemma ClosingStartExactly(closings: seq<int>, payments: seq<Payment>, startOfToday: int)
    ensures var start := ClosingStart(closings, payments, startOfToday);
            if closings != [] then start in closings && forall t | t in closings :: t <= start
            else if payments != [] then
              (exists p | p in payments :: p.at == start) && forall p | p in payments :: start <= p.at
            else start == startOfToday
  {
    if closings != [] {
      LatestExactly(closings);
    } else if payments != [] {
      EarliestBounds(payments);
      EarliestIsOne(payments);
    }
  }

  lemma {:induction false} LatestExactly(times: seq<int>)
    requires times != []
    ensures Latest(times) in times && forall t | t in times :: t <= Latest(times)
  {
    if |times| > 1 {
      LatestExactly(times[..|times| - 1]);
      assert times == times[..|times| - 1] + [times[|times| - 1]];
    }
  }

  lemma {:induction false} EarliestIsOne(payments: seq<Payment>)
    requires payments != []
    ensures exists p | p in payments :: p.at == Earliest(payments)
  {
    var n := |payments| - 1;
    if n > 0 && Earliest(payments) != payments[n].at {
      EarliestIsOne(payments[..n]);
      var p :| p in payments[..n] && p.at == Earliest(payments[..n]);
      assert p in payments;
    } else {
      assert payments[n] in payments;
    }
  }

  // ---- what the figures count ----

  function ReversedAmount(p: Payment): int {
    if p.kind in {Charge, Discount} then 0 else p.amount
  }

  /** Voids and refunds are all the reversals there are, discounts taken back included. */
  lemma VoidsAndRefunds(rows: seq<Payment>)
    ensures Sum(rows, OfKind(Void)) + Sum(rows, OfKind(Refund)) == Sum(rows, ReversedAmount)
  {
    SumPlus(rows, OfKind(Void), OfKind(Refund), ReversedAmount);
  }

  /** A figure whose terms a reversal copies from its original is, over all time, the sum over the rows that stand. */
  lemma FigureIsStanding(rows: seq<Payment>, figure: Payment -> int, w: Payment -> int, standing: Payment -> int)
    requires IsLedger(rows) && Symmetric(rows, w)
    requires forall p | p in rows :: figure(p) == (if IsOriginal(p) then w(p) else -w(p))
    requires forall p | p in rows :: standing(p) == (if Stands(rows, p) then w(p) else 0) && standing(p) >= 0
    ensures Sum(Filter(rows, Within(ALL_TIME)), figure) == Sum(rows, standing) >= 0
  {
    FilterAll(rows, Within(ALL_TIME));
    SumCong(rows, figure, Signed(w));
    SignedFold(rows, w);
    SumCong(rows, OnStanding(rows, w), standing);
    SumNonneg(rows, standing);
  }

  /** Charges that nothing has reversed and that meet a condition on their method or owner. */
  function StandingCharges(rows: seq<Payment>, which: Payment -> bool): Payment -> int {
    (p: Payment) => if p.kind == Charge && which(p) && NotYetReversed(rows, p.id) then p.amount else 0
  }

  function ChargesOf(rows: seq<Payment>, which: Payment -> bool): Payment -> int {
    (p: Payment) => if which(p) then ChargeWeight(rows)(p) else 0
  }

  /** A condition that a reversal shares with its original. */
  ghost predicate Shared(which: Payment -> bool) {
    forall r, o | Reverses(r, o) :: which(r) == which(o)
  }

  lemma ChargesStand(rows: seq<Payment>, which: Payment -> bool, figure: Payment -> int)
    requires IsLedger(rows) && Shared(which)
    requires forall p | p in rows :: figure(p) == if which(p) then Effect(rows)(p) else 0
    ensures Sum(Filter(rows, Within(ALL_TIME)), figure) == Sum(rows, StandingCharges(rows, which)) >= 0
  {
    SymmetricAxes(rows);
    LedgerRows(rows);
    var w := ChargesOf(rows, which);
    forall p | p in rows ensures figure(p) == if IsOriginal(p) then w(p) else -w(p) {
      assert Effect(rows)(p) == if IsOriginal(p) then ChargeWeight(rows)(p) else -ChargeWeight(rows)(p);
    }
    forall p | p in rows
      ensures var standing := StandingCharges(rows, which)(p);
              standing == (if Stands(rows, p) then w(p) else 0) && standing >= 0
    {
    }
    FigureIsStanding(rows, figure, w, StandingCharges(rows, which));
  }

  function By(m: string): Payment -> bool {
    (p: Payment) => p.methodCode == m
  }

  function AtTables(tables: bool): Payment -> bool {
    (p: Payment) => p.owner.Session? == tables
  }

  /** A method's figure is what stands of its charges. */
  lemma MethodIsStanding(rows: seq<Payment>, m: string)
    requires IsLedger(rows)
    ensures Sum(Filter(rows, Within(ALL_TIME)), ByMethod(rows, m)) == Sum(rows, StandingCharges(rows, By(m))) >= 0
  {
    ChargesStand(rows, By(m), ByMethod(rows, m));
  }

  /** Tables and counter each earn what stands of their own charges. */
  lemma ChannelIsStanding(rows: seq<Payment>)
    requires IsLedger(rows)
    ensures Sum(Filter(rows, Within(ALL_TIME)), OfTables(rows)) == Sum(rows, StandingCharges(rows, AtTables(true))) >= 0
    ensures Sum(Filter(rows, Within(ALL_TIME)), OfCounter(rows)) == Sum(rows, StandingCharges(rows, AtTables(false))) >= 0
  {
    ChargesStand(rows, AtTables(true), OfTables(rows));
    ChargesStand(rows, AtTables(false), OfCounter(rows));
  }

  /** The cash expected in the drawer is what stands of the charges by cash methods. */
  lemma CashIsStanding(rows: seq<Payment>, cashCodes: set<string>)
    requires IsLedger(rows)
    ensures Sum(Filter(rows, Within(ALL_TIME)), InCash(rows, cashCodes))
         == Sum(rows, StandingCharges(rows, ByAny(cashCodes))) >= 0
  {
    ChargesStand(rows, ByAny(cashCodes), InCash(rows, cashCodes));
  }

  function ByAny(codes: set<string>): Payment -> bool {
    (p: Payment) => p.methodCode in codes
  }

  /** Discounts that nothing has reversed: those given by a coupon, or all others. */
  function StandingOff(rows: seq<Payment>, byCoupon: bool): Payment -> int {
    (p: Payment) =>
      if p.kind == Discount && (p.methodCode == "COUPON") == byCoupon && NotYetReversed(rows, p.id) then p.amount else 0
  }

  /** The coupon figure is what stands of coupon discounts. */
  lemma CouponIsStanding(rows: seq<Payment>)
    requires IsLedger(rows)
    ensures Sum(Filter(rows, Within(ALL_TIME)), CouponEffect(rows)) == Sum(rows, StandingOff(rows, true)) >= 0
  {
    SymmetricAxes(rows);
    LedgerRows(rows);
    FigureIsStanding(rows, CouponEffect(rows), CouponWeight(rows), StandingOff(rows, true));
  }

  /** The manual figure is what stands of all other discounts. */
  lemma ManualIsStanding(rows: seq<Payment>)
    requires IsLedger(rows)
    ensures Sum(Filter(rows, Within(ALL_TIME)), ManualEffect(rows)) == Sum(rows, StandingOff(rows, false)) >= 0
  {
    SymmetricAxes(rows);
    LedgerRows(rows);
    FigureIsStanding(rows, ManualEffect(rows), ManualWeight(rows), StandingOff(rows, false));
  }
}
