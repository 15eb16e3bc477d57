/**
 Splitting money into whole won: the proportional discount allocation of
 server/src/services/discountAllocation.ts and the even split of
 server/src/services/splitEvenly.ts.
 */
module Allocation {
  import opened Arithmetic
  import opened Sums

  datatype Line = Line(key: nat, amount: int)

  datatype AllocationError = NegativeTotal | NothingToAllocate | TotalAboveGrand

  datatype Allocated = Shares(shares: seq<Line>) | Refused(error: AllocationError)

  function AmountOf(line: Line): int {
    line.amount
  }

  predicate Nonnegative(lines: seq<Line>) {
    forall i | 0 <= i < |lines| :: lines[i].amount >= 0
  }

  function Grand(lines: seq<Line>): int {
    Sum(lines, AmountOf)
  }

  /** The floor share of one line. */
  function FloorShare(total: int, amount: int, grand: int): int
    requires grand > 0
  {
    total * amount / grand
  }

  function FloorSum(total: int, lines: seq<Line>, grand: int): int
    requires grand > 0
  {
    Sum(lines, line => FloorShare(total, AmountOf(line), grand))
  }

  /** How many of the lines still have room, which before any top-up means: a positive amount. */
  function Positives(lines: seq<Line>): nat {
    if lines == [] then 0
    else Positives(lines[..|lines| - 1]) + if lines[|lines| - 1].amount > 0 then 1 else 0
  }

  /** Lines whose exact share is not a whole number of won. */
  function Fractional(total: int, lines: seq<Line>, grand: int): nat
    requires grand > 0
  {
    if lines == [] then 0
    else Fractional(total, lines[..|lines| - 1], grand)
         + if total * lines[|lines| - 1].amount % grand != 0 then 1 else 0
  }

  /** Won left over after every line took its floor share. */
  function Leftover(total: int, lines: seq<Line>): int
    requires Grand(lines) > 0
  {
    total - FloorSum(total, lines, Grand(lines))
  }

  /** One more won for each of the first `left` positive lines. */
  function Bonus(lines: seq<Line>, left: int, i: nat): int
    requires i < |lines|
  {
    if lines[i].amount > 0 && Positives(lines[..i]) < left then 1 else 0
  }

  /** The declared share of line `i`: its floor, and one more if it is among the first `Leftover` positive lines. */
  function ShareAt(total: int, lines: seq<Line>, i: nat): int
    requires i < |lines| && Grand(lines) > 0
  {
    FloorShare(total, lines[i].amount, Grand(lines)) + Bonus(lines, Leftover(total, lines), i)
  }

  function Allocate(total: int, lines: seq<Line>): Allocated {
    if total < 0 then Refused(NegativeTotal)
    else if total == 0 || lines == [] then Shares(seq(|lines|, i requires 0 <= i < |lines| => Line(lines[i].key, 0)))
    else if Grand(lines) <= 0 then Refused(NothingToAllocate)
    else if total > Grand(lines) then Refused(TotalAboveGrand)
    else Shares(seq(|lines|, i requires 0 <= i < |lines| => Line(lines[i].key, ShareAt(total, lines, i))))
  }

  // ---- arithmetic of one line ----

  /** A floor share lies between zero and the line, and fills the line only if there is nothing left to round. */
  lemma FloorShareBounds(total: int, amount: int, grand: int)
    requires grand > 0 && 0 <= total <= grand && amount >= 0
    ensures 0 <= FloorShare(total, amount, grand) <= amount
    ensures total < grand && amount > 0 ==> FloorShare(total, amount, grand) < amount
    ensures total == grand ==> FloorShare(total, amount, grand) == amount
  {
    assert total * amount <= grand * amount;
    DivBounds(total * amount, grand, amount);
  }

  lemma DivBounds(x: int, d: int, q: int)
    requires d > 0 && 0 <= x <= d * q
    ensures 0 <= x / d <= q
    ensures x < d * q ==> x / d < q
    ensures x == d * q ==> x / d == q
  {
    if q < x / d {
      ProductGap(d, q, x / d);
    } else if x / d < q {
      ProductGap(d, x / d, q);
    }
  }

  /** grand * leftover is the sum of the line remainders, so it is below grand * (number of fractional lines). */
  lemma {:induction false} RemainderMass(total: int, lines: seq<Line>, grand: int)
    requires grand > 0
    ensures total * Grand(lines) - grand * FloorSum(total, lines, grand) <= (grand - 1) * Fractional(total, lines, grand)
    ensures total * Grand(lines) - grand * FloorSum(total, lines, grand) >= 0
    ensures Fractional(total, lines, grand) == 0 ==> total * Grand(lines) == grand * FloorSum(total, lines, grand)
  {
    if lines != [] {
      var front, last := lines[..|lines| - 1], lines[|lines| - 1];
      RemainderMass(total, front, grand);
      RemainderStep(total, last.amount, grand, Grand(front), FloorSum(total, front, grand),
                    Fractional(total, front, grand));
    }
  }

  /** One more line adds its own remainder, below `grand`, to the mass. */
  lemma RemainderStep(total: int, amount: int, grand: int, sum: int, floors: int, k: nat)
    requires grand > 0
    ensures var x := total * amount;
            && total * (sum + amount) - grand * (floors + x / grand) == total * sum - grand * floors + x % grand
            && (grand - 1) * (k + 1) == (grand - 1) * k + (grand - 1)
  {
    var x := total * amount;
    Distribute(total, sum, amount);
    Distribute(grand, floors, x / grand);
    Distribute(grand - 1, k, 1);
  }

  lemma {:induction false} FractionalArePositive(total: int, lines: seq<Line>, grand: int)
    requires grand > 0 && Nonnegative(lines)
    ensures Fractional(total, lines, grand) <= Positives(lines)
  {
    if lines != [] {
      FractionalArePositive(total, lines[..|lines| - 1], grand);
      if lines[|lines| - 1].amount == 0 {
        assert total * 0 == 0;
      }
    }
  }

  lemma MassOf(g: int, total: int, floors: int)
    ensures total * g - g * floors == g * (total - floors)
  {
  }

  lemma LeftoverSize(g: int, left: int, f: nat, mass: int)
    requires g > 0 && mass == g * left && 0 <= mass <= (g - 1) * f
    ensures 0 <= left && (left > 0 ==> left < f)
  {
    if left < 0 {
      ProductGap(g, left, 0);
    } else if left > 0 && f <= left {
      assert (g - 1) * f == g * f - f;
      if f < left {
        ProductGap(g, f, left);
      }
    }
  }

  /** The leftover is smaller than the number of lines with a fractional share: one pass is enough. */
  lemma LeftoverBelowFractional(total: int, lines: seq<Line>)
    requires Nonnegative(lines) && 0 < total <= Grand(lines)
    ensures 0 <= Leftover(total, lines)
    ensures Leftover(total, lines) > 0 ==> Leftover(total, lines) < Fractional(total, lines, Grand(lines)) <= Positives(lines)
    ensures Leftover(total, lines) <= Positives(lines)
    ensures total == Grand(lines) ==> Leftover(total, lines) == 0
  {
    var g := Grand(lines);
    var f := Fractional(total, lines, g);
    var left := Leftover(total, lines);
    RemainderMass(total, lines, g);
    FractionalArePositive(total, lines, g);
    MassOf(g, total, FloorSum(total, lines, g));
    LeftoverSize(g, left, f, total * g - g * FloorSum(total, lines, g));
    if total == g {
      WholeFloors(total, lines);
    }
  }

  lemma WholeFloors(total: int, lines: seq<Line>)
    requires Nonnegative(lines) && total > 0
    ensures FloorSum(total, lines, total) == Grand(lines)
  {
    forall line | line in lines ensures FloorShare(total, AmountOf(line), total) == AmountOf(line) {
      DivBounds(total * AmountOf(line), total, AmountOf(line));
    }
    SumCong(lines, line => FloorShare(total, AmountOf(line), total), AmountOf);
  }

  // ---- the main results ----

  /** Sum of the first `i` declared shares. */
  lemma {:induction false} SharePrefix(total: int, lines: seq<Line>, shares: seq<Line>, i: nat)
    requires Nonnegative(lines) && 0 < total <= Grand(lines)
    requires Allocate(total, lines) == Shares(shares) && i <= |lines|
    ensures Sum(shares[..i], AmountOf)
         == FloorSum(total, lines[..i], Grand(lines)) + Min(Positives(lines[..i]), Leftover(total, lines))
  {
    LeftoverBelowFractional(total, lines);
    if i > 0 {
      SharePrefix(total, lines, shares, i - 1);
      SumPrefix(shares, i - 1, AmountOf);
      SumPrefix(lines, i - 1, line => FloorShare(total, AmountOf(line), Grand(lines)));
      assert lines[..i][..i - 1] == lines[..i - 1];
    }
  }

  /** The shares add up to the total exactly; no won is lost or invented. */
  lemma AllocateExact(total: int, lines: seq<Line>)
    requires Nonnegative(lines) && 0 < total <= Grand(lines)
    ensures Allocate(total, lines).Shares?
    ensures Sum(Allocate(total, lines).shares, AmountOf) == total
  {
    LeftoverBelowFractional(total, lines);
    assert lines != [];
    var shares := Allocate(total, lines).shares;
    SharePrefix(total, lines, shares, |lines|);
    assert shares[..|lines|] == shares && lines[..|lines|] == lines;
  }

  /** Every share is its floor share or one more, and lies between zero and its line. */
  lemma AllocateBounds(total: int, lines: seq<Line>, i: nat)
    requires Nonnegative(lines) && 0 < total <= Grand(lines) && i < |lines|
    ensures Allocate(total, lines).Shares? && |Allocate(total, lines).shares| == |lines|
    ensures var share := Allocate(total, lines).shares[i];
            && share.key == lines[i].key
            && 0 <= share.amount <= lines[i].amount
            && FloorShare(total, lines[i].amount, Grand(lines)) <= share.amount
            && share.amount <= FloorShare(total, lines[i].amount, Grand(lines)) + 1
  {
    FloorShareBounds(total, lines[i].amount, Grand(lines));
    LeftoverBelowFractional(total, lines);
  }

  /** A refusal happens exactly when the total is negative, or positive with nothing or too little to take it from. */
  lemma AllocateRefusals(total: int, lines: seq<Line>)
    requires Nonnegative(lines)
    ensures Allocate(total, lines).Refused? <==> total < 0 || (lines != [] && total > Grand(lines))
  {
    SumNonneg(lines, AmountOf);
  }

  /** A line gets the extra won only if every earlier positive line does. */
  lemma EarlierLinesFirst(total: int, lines: seq<Line>, i: nat, j: nat)
    requires Nonnegative(lines) && 0 < total <= Grand(lines) && i < j < |lines| && lines[i].amount > 0
    requires ShareAt(total, lines, j) == FloorShare(total, lines[j].amount, Grand(lines)) + 1
    ensures ShareAt(total, lines, i) == FloorShare(total, lines[i].amount, Grand(lines)) + 1
  {
    PositivesMonotone(lines, i, j);
  }

  lemma {:induction false} PositivesMonotone(lines: seq<Line>, i: nat, j: nat)
    requires i <= j <= |lines|
    ensures Positives(lines[..i]) <= Positives(lines[..j])
  {
    if i < j {
      PositivesMonotone(lines, i, j - 1);
      assert lines[..j][..j - 1] == lines[..j - 1];
    }
  }

  /**
   The in-place algorithm. `visits` counts iterations of the cyclic loop: it never exceeds the
   number of lines, so the loop ends within its first pass. `broke` says whether it was left by the
   emergency break, which needs every line to be full and so never happens.
   */
  method AllocateProportional(total: int, lines: seq<Line>) returns (r: Allocated, ghost visits: nat, ghost broke: bool)
    requires Nonnegative(lines)
    ensures r == Allocate(total, lines)
    ensures visits <= |lines| && !broke
  {
    visits, broke := 0, false;
    if total < 0 {
      return Refused(NegativeTotal), 0, false;
    }
    var grand := 0;
    for k := 0 to |lines|
      invariant grand == Sum(lines[..k], AmountOf)
    {
      grand := grand + lines[k].amount;
      SumPrefix(lines, k, AmountOf);
    }
    assert lines[..|lines|] == lines;
    if total == 0 || |lines| == 0 {
      return Shares(seq(|lines|, i requires 0 <= i < |lines| => Line(lines[i].key, 0))), 0, false;
    }
    if grand <= 0 {
      return Refused(NothingToAllocate), 0, false;
    }
    if total > grand {
      return Refused(TotalAboveGrand), 0, false;
    }

    LeftoverBelowFractional(total, lines);
    var n := |lines|;
    var floors := seq(n, i requires 0 <= i < n => FloorShare(total, lines[i].amount, grand));
    var result := new int[n](i requires 0 <= i < n => floors[i]);
    var remainder := total;
    ghost var floorOf := line => FloorShare(total, AmountOf(line), Grand(lines));
    for k := 0 to n
      invariant remainder == total - Sum(lines[..k], floorOf)
      invariant forall j | 0 <= j < n :: result[j] == floors[j]
    {
      remainder := remainder - result[k];
      SumPrefix(lines, k, floorOf);
    }
    forall j | 0 <= j < n
      ensures lines[j].amount == 0 ==> floors[j] == 0
      ensures lines[j].amount > 0 && remainder > 0 ==> floors[j] < lines[j].amount
    {
      FloorShareBounds(total, lines[j].amount, grand);
    }
    if remainder > 0 {
      RoomIsLeft(total, lines);
    }
    visits, broke := TopUp(result, lines, remainder);
    var shares := seq(n, j requires 0 <= j < n reads result => Line(lines[j].key, result[j]));
    forall j | 0 <= j < n ensures shares[j] == Line(lines[j].key, ShareAt(total, lines, j)) {
      assert shares[j].amount == floors[j] + Bonus(lines, Leftover(total, lines), j);
    }
    assert shares == Allocate(total, lines).shares;
    r := Shares(shares);
  }

  /** The next index of a cyclic walk. */
  method Successor(i: nat, n: nat) returns (next: nat)
    requires i < n
    ensures next == if i == n - 1 then 0 else i + 1
  {
    next := (i + 1) % n;
  }

  /** A total below what the lines amount to leaves some line below its amount, extra won included. */
  lemma RoomIsLeft(total: int, lines: seq<Line>)
    requires Nonnegative(lines) && 0 < total <= Grand(lines) && Leftover(total, lines) > 0
    ensures exists j | 0 <= j < |lines| :: ShareAt(total, lines, j) < lines[j].amount
  {
    LeftoverBelowFractional(total, lines);
    AllocateExact(total, lines);
    var shares := Allocate(total, lines).shares;
    if forall j | 0 <= j < |lines| :: ShareAt(total, lines, j) >= lines[j].amount {
      forall j | 0 <= j < |lines| ensures shares[j].amount == lines[j].amount {
        AllocateBounds(total, lines, j);
      }
      SumPointwise(shares, lines, AmountOf, AmountOf);
    }
  }

  /** The cyclic top-up loop over the result array; `visits` counts its iterations, `broke` an exit by the break. */
  method TopUp(result: array<int>, lines: seq<Line>, left: int) returns (ghost visits: nat, ghost broke: bool)
    requires result.Length == |lines| > 0
    requires Nonnegative(lines) && 0 <= left <= Positives(lines)
    requires forall j | 0 <= j < |lines| && lines[j].amount == 0 :: result[j] == 0
    requires forall j | 0 <= j < |lines| && lines[j].amount > 0 && left > 0 :: result[j] < lines[j].amount
    requires left > 0 ==> exists j | 0 <= j < |lines| :: result[j] + Bonus(lines, left, j) < lines[j].amount
    modifies result
    ensures forall j | 0 <= j < |lines| :: result[j] == old(result[j]) + Bonus(lines, left, j)
    ensures visits <= |lines| && !broke
  {
    var n := |lines|;
    var remainder := left;
    var i := 0;
    visits, broke := 0, false;
    assert lines[..0] == [];
    while remainder > 0
      invariant 0 <= visits <= n
      invariant i == if visits == n then 0 else visits
      invariant remainder == left - Min(Positives(lines[..visits]), left)
      invariant visits == n ==> remainder == 0
      invariant !broke
      invariant forall j | 0 <= j < visits :: result[j] == old(result[j]) + Bonus(lines, left, j)
      invariant forall j | visits <= j < n :: result[j] == old(result[j])
      decreases n - visits
    {
      assert lines[..visits + 1][..visits] == lines[..visits];
      if result[i] < lines[i].amount {
        result[i] := result[i] + 1;
        remainder := remainder - 1;
      }
      visits := visits + 1;
      assert lines[..n] == lines;
      if i == n - 1 && forall j | 0 <= j < n :: result[j] >= lines[j].amount {
        broke := true;
        break;
      }
      i := Successor(i, n);
    }
    forall j | visits <= j < n ensures Bonus(lines, left, j) == 0 {
      PositivesMonotone(lines, visits, j);
    }
  }

  // ---- even split ----

  datatype Split = Even(shares: seq<int>) | BadInput

  /** Largest-remainder split: the first `total % people` shares carry one more. */
  function EvenSplit(total: int, people: int): Split {
    if total < 0 || people < 1 then BadInput
    else Even(seq(people, i requires 0 <= i < people => total / people + if i < total % people then 1 else 0))
  }

  method SplitEvenly(total: int, people: int) returns (r: Split)
    ensures r == EvenSplit(total, people)
  {
    if total < 0 || people < 1 {
      return BadInput;
    }
    var base := total / people;
    var remainder := total - base * people;
    DivUnique(total, people, base, remainder) by {
      assert total % people == total - base * people;
    }
    var shares := new int[people](_ => base);
    for i := 0 to remainder
      invariant forall j | 0 <= j < people :: shares[j] == base + if j < i then 1 else 0
    {
      shares[i] := shares[i] + 1;
    }
    r := Even(shares[..]);
  }

  function Same(x: int): int {
    x
  }

  /** Sum of the first `i` even shares. */
  lemma {:induction false} EvenPrefix(shares: seq<int>, base: int, rest: nat, i: nat)
    requires i <= |shares| && forall k | 0 <= k < |shares| :: shares[k] == base + if k < rest then 1 else 0
    ensures Sum(shares[..i], Same) == base * i + Min(i, rest)
  {
    if i > 0 {
      EvenPrefix(shares, base, rest, i - 1);
      SumPrefix(shares, i - 1, Same);
      assert base * i == base * (i - 1) + base;
    }
  }

  /** An even split loses nothing, favours nobody by more than one won, and puts the larger shares first. */
  lemma EvenSplitExact(total: int, people: int)
    requires total >= 0 && people >= 1
    ensures EvenSplit(total, people).Even? && |EvenSplit(total, people).shares| == people
    ensures Sum(EvenSplit(total, people).shares, Same) == total
    ensures forall i, j | 0 <= i < j < people ::
              var shares := EvenSplit(total, people).shares; shares[j] <= shares[i] <= shares[j] + 1
  {
    var shares := EvenSplit(total, people).shares;
    EvenPrefix(shares, total / people, total % people, people);
    assert shares[..people] == shares;
  }

  lemma {:induction false} RepeatedLine(a: int, lines: seq<Line>)
    requires a > 0 && forall i | 0 <= i < |lines| :: lines[i].amount == a
    ensures Grand(lines) == |lines| * a && Positives(lines) == |lines|
  {
    if lines != [] {
      RepeatedLine(a, lines[..|lines| - 1]);
      assert |lines| * a == (|lines| - 1) * a + a;
    }
  }

  lemma {:induction false} RepeatedFloor(total: int, a: int, grand: int, lines: seq<Line>)
    requires grand > 0 && forall i | 0 <= i < |lines| :: lines[i].amount == a
    ensures FloorSum(total, lines, grand) == |lines| * FloorShare(total, a, grand)
  {
    if lines != [] {
      RepeatedFloor(total, a, grand, lines[..|lines| - 1]);
      var f := FloorShare(total, a, grand);
      assert |lines| * f == (|lines| - 1) * f + f;
    }
  }

  lemma CancelFactor(t: int, a: int, n: int)
    requires a > 0 && n > 0 && t >= 0
    ensures n * a > 0 && t * a / (n * a) == t / n
  {
    var q, r := t / n, t % n;
    assert t * a == (n * a) * q + r * a by {
      assert (n * q + r) * a == (n * a) * q + r * a;
    }
    assert 0 <= r * a < n * a by {
      ProductGap(a, r, n);
    }
    DivUnique(t * a, n * a, q, r * a);
  }

  /** On n equal lines the proportional allocation is the even split. */
  lemma EqualLinesSplitEvenly(total: int, a: int, lines: seq<Line>)
    requires a > 0 && lines != [] && 0 < total <= |lines| * a
    requires forall i | 0 <= i < |lines| :: lines[i].amount == a
    ensures Grand(lines) == |lines| * a
    ensures Allocate(total, lines).Shares? && EvenSplit(total, |lines|).Even?
    ensures |Allocate(total, lines).shares| == |EvenSplit(total, |lines|).shares| == |lines|
    ensures forall i | 0 <= i < |lines| :: Allocate(total, lines).shares[i].amount == EvenSplit(total, |lines|).shares[i]
  {
    var n := |lines|;
    RepeatedLine(a, lines);
    CancelFactor(total, a, n);
    RepeatedFloor(total, a, n * a, lines);
    assert Leftover(total, lines) == total - n * (total / n) == total % n;
    forall i | 0 <= i < n
      ensures Allocate(total, lines).shares[i].amount == EvenSplit(total, n).shares[i]
    {
      RepeatedLine(a, lines[..i]);
    }
  }
}
