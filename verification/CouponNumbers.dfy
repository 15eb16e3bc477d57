/** Coupon numbers: reading a typed number and choosing unused ones (server/src/services/coupon.ts). */
module CouponNumbers {
  import opened Characters

  const MAX_COUPON_NUMBER: nat := 999

  datatype Normalized = Code(code: string) | NotANumber | OutOfRange

  datatype Allocation = Codes(codes: seq<string>) | Exhausted

  function TrimStart(s: string): string {
    if s != "" && IsSpace(s[0]) then TrimStart(s[1..]) else s
  }

  function TrimEnd(s: string): string {
    if s != "" && IsSpace(s[|s| - 1]) then TrimEnd(s[..|s| - 1]) else s
  }

  function Trim(s: string): string {
    TrimEnd(TrimStart(s))
  }

  /** The value of a digit string. */
  function NumberOf(s: string): int {
    if s == "" then 0 else 10 * NumberOf(s[..|s| - 1]) + (s[|s| - 1] as int - '0' as int)
  }

  predicate OneToThreeDigits(s: string) {
    1 <= |s| <= 3 && forall i | 0 <= i < |s| :: IsDigit(s[i])
  }

  /** Three digits, zeros first. */
  function Pad3(n: nat): (code: string)
    requires n <= 999
    ensures OneToThreeDigits(code) && |code| == 3
  {
    [DigitChar(n / 100), DigitChar(n / 10 % 10), DigitChar(n % 10)]
  }

  function Normalize(raw: string): Normalized {
    var trimmed := Trim(raw);
    if !OneToThreeDigits(trimmed) then NotANumber
    else
      ThreeDigitsBelowThousand(trimmed);
      var value := NumberOf(trimmed);
      if value < 1 || value > MAX_COUPON_NUMBER then OutOfRange else Code(Pad3(value))
  }

  lemma ThreeDigitsBelowThousand(s: string)
    requires OneToThreeDigits(s)
    ensures 0 <= NumberOf(s) <= 999
  {
    NumberOfShort(s);
  }

  lemma NumberOfShort(s: string)
    requires 1 <= |s| <= 3
    ensures |s| == 1 ==> NumberOf(s) == s[0] as int - 48
    ensures |s| == 2 ==> NumberOf(s) == 10 * (s[0] as int - 48) + (s[1] as int - 48)
    ensures |s| == 3 ==> NumberOf(s) == 100 * (s[0] as int - 48) + 10 * (s[1] as int - 48) + (s[2] as int - 48)
  {
    if |s| == 3 {
      assert s[..2][..1] == s[..1];
      assert NumberOf(s[..2]) == 10 * NumberOf(s[..1]) + (s[1] as int - 48);
    }
    assert s[..1][..0] == "";
    assert NumberOf(s[..1]) == s[0] as int - 48;
  }

  lemma NumberOfPad3(n: nat)
    requires n <= 999
    ensures NumberOf(Pad3(n)) == n
  {
    NumberOfShort(Pad3(n));
  }

  /** Different numbers have different codes. */
  lemma Pad3Injective(m: nat, n: nat)
    requires m <= 999 && n <= 999 && Pad3(m) == Pad3(n)
    ensures m == n
  {
    NumberOfPad3(m);
    NumberOfPad3(n);
  }

  /** A typed number names code n exactly when, trimmed, it is one to three digits spelling n, and n is 1 to 999. */
  lemma NormalizeExactly(raw: string, n: nat)
    requires n <= 999
    ensures Normalize(raw) == Code(Pad3(n))
        <==> 1 <= n && OneToThreeDigits(Trim(raw)) && NumberOf(Trim(raw)) == n
  {
    if OneToThreeDigits(Trim(raw)) {
      ThreeDigitsBelowThousand(Trim(raw));
      if Normalize(raw) == Code(Pad3(n)) {
        Pad3Injective(NumberOf(Trim(raw)), n);
      }
    }
  }

  lemma TrimDigits(s: string)
    requires OneToThreeDigits(s)
    ensures Trim(s) == s
  {
  }

  /** Normalising an issued code changes nothing, so normalising twice is normalising once. */
  lemma NormalizeIdempotent(raw: string)
    requires Normalize(raw).Code?
    ensures Normalize(Normalize(raw).code) == Normalize(raw)
  {
    var n := NumberOf(Trim(raw));
    TrimDigits(Pad3(n));
    NumberOfPad3(n);
  }

  // ---- allocation ----

  /** The code of a number, as a function value. */
  function CodeOf(n: nat): string {
    if n <= MAX_COUPON_NUMBER then Pad3(n) else ""
  }

  /** The first `count` numbers from `n` on whose code is not taken. */
  function FirstFree(code: nat -> string, taken: set<string>, n: nat, count: nat): seq<nat>
    requires 1 <= n <= 1000
    decreases 1000 - n, count
  {
    if count == 0 || n > MAX_COUPON_NUMBER then []
    else if code(n) in taken then FirstFree(code, taken, n + 1, count)
    else [n] + FirstFree(code, taken, n + 1, count - 1)
  }

  function Spell(code: nat -> string, numbers: seq<nat>): (codes: seq<string>)
    ensures |codes| == |numbers|
    ensures forall i | 0 <= i < |numbers| :: codes[i] == code(numbers[i])
  {
    seq(|numbers|, i requires 0 <= i < |numbers| => code(numbers[i]))
  }

  function AllocateCodes(taken: set<string>, count: nat): Allocation {
    if count > MAX_COUPON_NUMBER - |taken| then Exhausted else Codes(Spell(CodeOf, FirstFree(CodeOf, taken, 1, count)))
  }

  method Allocate(taken: set<string>, count: nat) returns (r: Allocation)
    ensures r == AllocateCodes(taken, count)
  {
    var remaining := MAX_COUPON_NUMBER - |taken|;
    if count > remaining {
      return Exhausted;
    }
    var codes := Collect(CodeOf, taken, count);
    r := Codes(codes);
  }

  method Collect(code: nat -> string, taken: set<string>, count: nat) returns (codes: seq<string>)
    ensures codes == Spell(code, FirstFree(code, taken, 1, count))
  {
    codes := [];
    ghost var numbers: seq<nat> := [];
    var n := 1;
    while n <= MAX_COUPON_NUMBER && |codes| < count
      invariant 1 <= n <= 1000 && |codes| == |numbers| <= count
      invariant codes == Spell(code, numbers)
      invariant numbers + FirstFree(code, taken, n, count - |numbers|) == FirstFree(code, taken, 1, count)
    {
      CollectStep(code, taken, numbers, n, count);
      if code(n) !in taken {
        codes := codes + [code(n)];
        numbers := numbers + [n];
      }
      n := n + 1;
    }
    assert FirstFree(code, taken, n, count - |numbers|) == [];
  }

  lemma CollectStep(code: nat -> string, taken: set<string>, numbers: seq<nat>, n: nat, count: nat)
    requires 1 <= n <= MAX_COUPON_NUMBER && |numbers| < count
    ensures Spell(code, numbers + [n]) == Spell(code, numbers) + [code(n)]
    ensures numbers + FirstFree(code, taken, n, count - |numbers|)
         == if code(n) in taken then numbers + FirstFree(code, taken, n + 1, count - |numbers|)
            else numbers + [n] + FirstFree(code, taken, n + 1, count - |numbers| - 1)
  {
  }

  /** Unused numbers from `n` to 999. */
  function UnusedFrom(code: nat -> string, taken: set<string>, n: nat): nat
    requires 1 <= n <= 1000
    decreases 1000 - n, taken
  {
    if n > MAX_COUPON_NUMBER then 0 else UnusedFrom(code, taken, n + 1) + if code(n) in taken then 0 else 1
  }

  ghost predicate Spells(code: nat -> string, n: nat, text: string) {
    exists m | n <= m <= MAX_COUPON_NUMBER :: code(m) == text
  }

  ghost predicate Injective(code: nat -> string) {
    forall m, n | 1 <= m < n <= MAX_COUPON_NUMBER :: code(m) != code(n)
  }

  lemma CodeOfInjective()
    ensures Injective(CodeOf)
  {
    forall m, n | 1 <= m < n <= MAX_COUPON_NUMBER ensures CodeOf(m) != CodeOf(n) {
      NumberOfPad3(m);
      NumberOfPad3(n);
    }
  }

  /** The taken codes with a number from `n` on. */
  ghost function TakenFrom(code: nat -> string, taken: set<string>, n: nat): set<string> {
    set text | text in taken && Spells(code, n, text)
  }

  /** Pigeonhole: from `n` on, taken and unused numbers fill the range. */
  lemma {:induction false} TakenPlusUnused(code: nat -> string, taken: set<string>, n: nat)
    requires 1 <= n <= 1000 && Injective(code)
    ensures |TakenFrom(code, taken, n)| + UnusedFrom(code, taken, n) == 1000 - n
    decreases 1000 - n
  {
    if n > MAX_COUPON_NUMBER {
      assert TakenFrom(code, taken, n) == {};
    } else {
      TakenPlusUnused(code, taken, n + 1);
      var rest := TakenFrom(code, taken, n + 1);
      assert code(n) !in rest;
      forall text ensures Spells(code, n, text) <==> text == code(n) || Spells(code, n + 1, text) {
        if text == code(n) {
          assert Spells(code, n, text);
        }
      }
      if code(n) in taken {
        assert TakenFrom(code, taken, n) == rest + {code(n)};
      } else {
        assert TakenFrom(code, taken, n) == rest;
      }
    }
  }

  lemma {:induction false} FirstFreeLength(code: nat -> string, taken: set<string>, n: nat, count: nat)
    requires 1 <= n <= 1000
    ensures |FirstFree(code, taken, n, count)|
         == if count <= UnusedFrom(code, taken, n) then count else UnusedFrom(code, taken, n)
    decreases 1000 - n
  {
    if count != 0 && n <= MAX_COUPON_NUMBER {
      FirstFreeLength(code, taken, n + 1, if code(n) in taken then count else count - 1);
    }
  }

  /** The chosen numbers ascend, none is taken, and no smaller unused number was passed over. */
  lemma {:induction false} FirstFreeSmallest(code: nat -> string, taken: set<string>, n: nat, count: nat)
    requires 1 <= n <= 1000
    ensures var numbers := FirstFree(code, taken, n, count);
            && (forall i | 0 <= i < |numbers| :: n <= numbers[i] <= MAX_COUPON_NUMBER && code(numbers[i]) !in taken)
            && (forall i, j | 0 <= i < j < |numbers| :: numbers[i] < numbers[j])
            && (forall m | n <= m <= MAX_COUPON_NUMBER && code(m) !in taken && m !in numbers ::
                  |numbers| == count && forall i | 0 <= i < |numbers| :: numbers[i] < m)
    decreases 1000 - n
  {
    if count != 0 && n <= MAX_COUPON_NUMBER {
      FirstFreeSmallest(code, taken, n + 1, if code(n) in taken then count else count - 1);
    }
  }

  /** `codes` spells `numbers`: ascending, `count` of them, unused, and with no smaller unused number left out. */
  ghost predicate SmallestUnused(code: nat -> string, codes: seq<string>, numbers: seq<nat>, taken: set<string>,
                                 count: nat)
  {
    && |numbers| == count
    && codes == Spell(code, numbers)
    && (forall i | 0 <= i < count :: 1 <= numbers[i] <= MAX_COUPON_NUMBER && code(numbers[i]) !in taken)
    && (forall i, j | 0 <= i < j < count :: numbers[i] < numbers[j])
    && (forall m | 1 <= m <= MAX_COUPON_NUMBER && code(m) !in taken && m !in numbers ::
          forall i | 0 <= i < count :: numbers[i] < m)
  }

  lemma EnoughIffUnused(code: nat -> string, taken: set<string>, count: nat)
    requires Injective(code) && forall text | text in taken :: Spells(code, 1, text)
    ensures count > MAX_COUPON_NUMBER - |taken| <==> count > UnusedFrom(code, taken, 1)
  {
    TakenPlusUnused(code, taken, 1);
    assert TakenFrom(code, taken, 1) == taken;
  }

  lemma FirstFreeIsSmallest(code: nat -> string, taken: set<string>, count: nat)
    requires count <= UnusedFrom(code, taken, 1)
    ensures var numbers := FirstFree(code, taken, 1, count);
            SmallestUnused(code, Spell(code, numbers), numbers, taken, count)
  {
    FirstFreeLength(code, taken, 1, count);
    FirstFreeSmallest(code, taken, 1, count);
  }

  /**
   Allocation succeeds exactly when at least `count` numbers are unused, and then returns the codes
   of the `count` smallest unused numbers, in order.
   */
  lemma AllocateSmallestUnused(taken: set<string>, count: nat)
    requires forall text | text in taken :: Spells(CodeOf, 1, text)
    ensures AllocateCodes(taken, count) == Exhausted <==> count > UnusedFrom(CodeOf, taken, 1)
    ensures AllocateCodes(taken, count).Codes? ==>
              exists numbers: seq<nat> ::
                SmallestUnused(CodeOf, AllocateCodes(taken, count).codes, numbers, taken, count)
  {
    CodeOfInjective();
    EnoughIffUnused(CodeOf, taken, count);
    if AllocateCodes(taken, count).Codes? {
      FirstFreeIsSmallest(CodeOf, taken, count);
    }
  }

  /** Codes that are well formed, pairwise different and not taken. */
  ghost predicate FreshCodes(code: nat -> string, codes: seq<string>, taken: set<string>) {
    && (forall i | 0 <= i < |codes| :: codes[i] !in taken && Spells(code, 1, codes[i]))
    && (forall i, j | 0 <= i < j < |codes| :: codes[i] != codes[j])
  }

  /** No code is issued twice: new codes are distinct, between 001 and 999, and unused. */
  lemma NewCodesAreNew(taken: set<string>, count: nat)
    requires AllocateCodes(taken, count).Codes?
    ensures FreshCodes(CodeOf, AllocateCodes(taken, count).codes, taken)
  {
    CodeOfInjective();
    SpelledFreely(CodeOf, taken, count);
  }

  lemma SpelledFreely(code: nat -> string, taken: set<string>, count: nat)
    requires Injective(code)
    ensures FreshCodes(code, Spell(code, FirstFree(code, taken, 1, count)), taken)
  {
    FirstFreeSmallest(code, taken, 1, count);
  }
}
