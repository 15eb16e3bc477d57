/**
 The append-only payment ledger: which rows may follow which, and the theorem that every signed fold
 over it is a plain sum over the charges and discounts that were not reversed.
 */
module Ledger {
  import opened Schema
  import opened Sums
  import opened Wrappers

  predicate IsOriginal(p: Payment) {
    p.kind == Charge || p.kind == Discount
  }

  /** `r` takes back exactly `o`. */
  predicate Reverses(r: Payment, o: Payment) {
    && !IsOriginal(r) && IsOriginal(o)
    && r.reverses == Some(o.id)
    && r.owner == o.owner && r.methodCode == o.methodCode && r.amount == o.amount && r.allocations == o.allocations
  }

  predicate WellFormed(p: Payment) {
    p.amount >= 0 && forall a | a in p.allocations :: a.quantity >= 0
  }

  predicate NotYetReversed(rows: seq<Payment>, id: Id) {
    forall r | r in rows :: r.reverses != Some(id)
  }

  /** What the writing paths respect: fresh id and key; a reversal names an earlier original no row has reversed. */
  predicate Follows(rows: seq<Payment>, p: Payment) {
    && WellFormed(p)
    && (forall q | q in rows :: q.id < p.id && q.key != p.key)
    && (p.key.SaleRefund? ==> p.reverses == Some(p.key.payment))
    && if IsOriginal(p) then p.reverses == None
       else (exists o | o in rows :: Reverses(p, o)) && NotYetReversed(rows, p.reverses.value)
  }

  predicate IsLedger(rows: seq<Payment>) {
    rows == [] || (IsLedger(rows[..|rows| - 1]) && Follows(rows[..|rows| - 1], rows[|rows| - 1]))
  }

  lemma LedgerAppend(rows: seq<Payment>, p: Payment)
    requires IsLedger(rows) && Follows(rows, p)
    ensures IsLedger(rows + [p])
  {
    assert (rows + [p])[..|rows|] == rows;
  }

  /** An original that no row has reversed. */
  predicate Stands(rows: seq<Payment>, p: Payment) {
    IsOriginal(p) && NotYetReversed(rows, p.id)
  }

  function Signed(w: Payment -> int): Payment -> int {
    (p: Payment) => if IsOriginal(p) then w(p) else -w(p)
  }

  function OnStanding(rows: seq<Payment>, w: Payment -> int): Payment -> int {
    (p: Payment) => if Stands(rows, p) then w(p) else 0
  }

  /** `w` looks only at what a reversal copies from its original. */
  ghost predicate Symmetric(rows: seq<Payment>, w: Payment -> int) {
    forall r, o | r in rows && o in rows && Reverses(r, o) :: w(r) == w(o)
  }

  lemma {:induction false} LedgerRows(rows: seq<Payment>)
    requires IsLedger(rows)
    ensures forall i, j | 0 <= i < j < |rows| :: rows[i].id < rows[j].id && rows[i].key != rows[j].key
    ensures forall p | p in rows :: WellFormed(p) && (IsOriginal(p) ==> p.reverses == None)
    ensures forall p | p in rows && p.key.SaleRefund? :: p.reverses == Some(p.key.payment)
  {
    if rows != [] {
      LedgerRows(rows[..|rows| - 1]);
    }
  }

  /** Ids name rows. */
  lemma SameRow(rows: seq<Payment>, p: Payment, q: Payment)
    requires IsLedger(rows) && p in rows && q in rows
    requires p.id == q.id || p.key == q.key
    ensures p == q
  {
    LedgerRows(rows);
    var i :| 0 <= i < |rows| && rows[i] == p;
    var j :| 0 <= j < |rows| && rows[j] == q;
  }

  /** Every charge or discount has at most one reversal; it copies owner and amount, and is itself never reversed. */
  lemma {:induction false} AtMostOneReversal(rows: seq<Payment>)
    requires IsLedger(rows)
    ensures forall r | r in rows && !IsOriginal(r) :: exists o | o in rows :: Reverses(r, o)
    ensures forall r, s | r in rows && s in rows && r.reverses.Some? && r.reverses == s.reverses :: r == s
    ensures forall r | r in rows && !IsOriginal(r) :: NotYetReversed(rows, r.id)
  {
    LedgerRows(rows);
    if rows != [] {
      var front, last := rows[..|rows| - 1], rows[|rows| - 1];
      AtMostOneReversal(front);
      forall r | r in rows && !IsOriginal(r) ensures NotYetReversed(rows, r.id) {
        if last.reverses == Some(r.id) {
          var o :| o in front && Reverses(last, o);
          SameRow(rows, o, r);
        }
      }
    }
  }

  /** A reversal cancels the term of its original: the signed fold is the sum over standing originals. */
  lemma {:induction false} SignedFold(rows: seq<Payment>, w: Payment -> int)
    requires IsLedger(rows) && Symmetric(rows, w)
    ensures Sum(rows, Signed(w)) == Sum(rows, OnStanding(rows, w))
  {
    if rows != [] {
      var front, last := rows[..|rows| - 1], rows[|rows| - 1];
      assert rows == front + [last];
      SignedFold(front, w);
      if IsOriginal(last) {
        LastStands(front, last);
        SumCong(front, OnStanding(front, w), OnStanding(rows, w));
      } else {
        LastReverses(front, last, w);
      }
    }
  }

  lemma LastStands(front: seq<Payment>, last: Payment)
    requires IsLedger(front) && Follows(front, last) && IsOriginal(last)
    ensures Stands(front + [last], last)
    ensures forall p | p in front :: Stands(front, p) == Stands(front + [last], p)
  {
    AtMostOneReversal(front);
    forall r | r in front ensures r.reverses != Some(last.id) {
      LedgerRows(front);
      if !IsOriginal(r) {
        var o :| o in front && Reverses(r, o);
      }
    }
  }

  lemma LastReverses(front: seq<Payment>, last: Payment, w: Payment -> int)
    requires IsLedger(front) && Follows(front, last) && !IsOriginal(last) && Symmetric(front + [last], w)
    ensures Sum(front + [last], OnStanding(front + [last], w)) == Sum(front, OnStanding(front, w)) - w(last)
  {
    var rows := front + [last];
    var o :| o in front && Reverses(last, o);
    var k :| 0 <= k < |front| && front[k] == o;
    LedgerRows(front);
    forall i | 0 <= i < |front| && i != k
      ensures OnStanding(front, w)(front[i]) == OnStanding(rows, w)(front[i])
    {
      OtherStands(front, last, front[i]);
    }
    assert last in rows && Stands(front, o) && !Stands(rows, o);
    assert o in rows && w(last) == w(o);
    SumOneDiff(front, front, OnStanding(front, w), OnStanding(rows, w), k);
    SumAppend(front, last, OnStanding(rows, w));
  }

  lemma OtherStands(front: seq<Payment>, last: Payment, p: Payment)
    requires last.reverses != Some(p.id)
    ensures Stands(front, p) == Stands(front + [last], p)
  {
    assert last in front + [last];
    forall r ensures r in front ==> r in front + [last] {
    }
  }

  /** Deleting every row of some owners leaves a ledger. */
  lemma {:induction false} FilterLedger(rows: seq<Payment>, keep: Payment -> bool)
    requires IsLedger(rows)
    requires forall r, o | r in rows && o in rows && Reverses(r, o) && keep(r) :: keep(o)
    ensures IsLedger(Filter(rows, keep))
  {
    if rows != [] {
      var front, last := rows[..|rows| - 1], rows[|rows| - 1];
      FilterLedger(front, keep);
      if keep(last) {
        KeptFollows(front, last, keep);
        LedgerAppend(Filter(front, keep), last);
      } else {
        assert Filter(rows, keep) == Filter(front, keep);
      }
    }
  }

  lemma KeptFollows(front: seq<Payment>, last: Payment, keep: Payment -> bool)
    requires Follows(front, last) && keep(last)
    requires forall o | o in front && Reverses(last, o) :: keep(o)
    ensures Follows(Filter(front, keep), last)
  {
    forall q ensures q in Filter(front, keep) <==> q in front && keep(q) {
      FilterMember(front, keep, q);
    }
  }

  /** A row stands among the kept rows iff it stands among all. */
  lemma FilterStands(rows: seq<Payment>, keep: Payment -> bool, p: Payment)
    requires p in rows && keep(p)
    requires forall r | r in rows && r.reverses == Some(p.id) :: keep(r)
    ensures Stands(Filter(rows, keep), p) == Stands(rows, p)
  {
    forall r | r in rows ensures keep(r) ==> r in Filter(rows, keep) {
      FilterMember(rows, keep, r);
    }
    forall r | r in Filter(rows, keep) ensures r in rows {
      FilterMember(rows, keep, r);
    }
  }

  // ---- the two folds every service reads ----

  function AmountFor(owner: Owner): Payment -> int {
    (p: Payment) => if p.owner == owner then p.amount else 0
  }

  /** Net amount the ledger has taken off the owner's bill. */
  function Paid(rows: seq<Payment>, owner: Owner): int {
    Sum(rows, Signed(AmountFor(owner)))
  }

  function QuantityIn(allocations: seq<Allocation>, item: Id): int {
    Sum(allocations, QuantityFor(item))
  }

  function QuantityFor(item: Id): Allocation -> int {
    (a: Allocation) => if a.item == item then a.quantity else 0
  }

  function QuantityOf(item: Id): Payment -> int {
    (p: Payment) => QuantityIn(p.allocations, item)
  }

  /** Net quantity of the item that payments have covered. */
  function PaidQuantity(rows: seq<Payment>, item: Id): int {
    Sum(rows, Signed(QuantityOf(item)))
  }

  lemma PaidAppend(rows: seq<Payment>, p: Payment, owner: Owner)
    ensures Paid(rows + [p], owner)
         == Paid(rows, owner) + if p.owner != owner then 0 else if IsOriginal(p) then p.amount else -p.amount
  {
    SumAppend(rows, p, Signed(AmountFor(owner)));
  }

  lemma PaidQuantityAppend(rows: seq<Payment>, p: Payment, item: Id)
    ensures PaidQuantity(rows + [p], item)
         == PaidQuantity(rows, item)
            + if IsOriginal(p) then QuantityIn(p.allocations, item) else -QuantityIn(p.allocations, item)
  {
    SumAppend(rows, p, Signed(QuantityOf(item)));
  }

  /** What an owner has paid is the sum of its standing charges and discounts, so never negative. */
  lemma PaidIsStanding(rows: seq<Payment>, owner: Owner)
    requires IsLedger(rows)
    ensures Paid(rows, owner) == Sum(rows, OnStanding(rows, AmountFor(owner))) >= 0
  {
    SignedFold(rows, AmountFor(owner));
    LedgerRows(rows);
    SumNonneg(rows, OnStanding(rows, AmountFor(owner)));
  }

  /** The paid quantity of an item is what standing payments cover, so never negative. */
  lemma PaidQuantityIsStanding(rows: seq<Payment>, item: Id)
    requires IsLedger(rows)
    ensures PaidQuantity(rows, item) == Sum(rows, OnStanding(rows, QuantityOf(item))) >= 0
  {
    SignedFold(rows, QuantityOf(item));
    LedgerRows(rows);
    forall p | p in rows ensures OnStanding(rows, QuantityOf(item))(p) >= 0 {
      SumNonneg(p.allocations, QuantityFor(item));
    }
    SumNonneg(rows, OnStanding(rows, QuantityOf(item)));
  }

  lemma QuantityNonneg(p: Payment, item: Id)
    requires WellFormed(p)
    ensures QuantityIn(p.allocations, item) >= 0
  {
    SumNonneg(p.allocations, QuantityFor(item));
  }
}
