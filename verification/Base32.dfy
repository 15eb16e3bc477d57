/**
 The Base32 codec of server/src/auth/totp.ts, against section 6 of RFC 4648.

 The source keeps its bits in a 32-bit accumulator that is shifted left and never masked. Here the
 accumulator is the unsigned 32-bit pattern, so every shift is taken modulo 2^32.
 */
module Base32 {
  import opened Arithmetic
  import opened Characters

  const WORD: nat := 0x1_0000_0000

  type Word = n: int | 0 <= n < WORD
  type Byte = n: int | 0 <= n < 256
  type Digit = n: int | 0 <= n < 32
  type Bits = seq<bool>

  datatype Decoded = Bytes(bytes: seq<Byte>) | InvalidCharacter

  // ---- bit strings, most significant bit first ----

  function Pow2(n: nat): nat
    ensures Pow2(n) > 0
  {
    if n == 0 then 1 else 2 * Pow2(n - 1)
  }

  function Value(b: Bits): (v: nat)
    ensures v < Pow2(|b|)
  {
    if b == [] then 0 else 2 * Value(b[..|b| - 1]) + if b[|b| - 1] then 1 else 0
  }

  /** The `width` low bits of `v`. */
  function ToBits(v: nat, width: nat): (b: Bits)
    ensures |b| == width
  {
    if width == 0 then [] else ToBits(v / 2, width - 1) + [v % 2 == 1]
  }

  lemma {:induction false} ValueOfToBits(v: nat, width: nat)
    requires v < Pow2(width)
    ensures Value(ToBits(v, width)) == v
  {
    if width > 0 {
      ValueOfToBits(v / 2, width - 1);
      assert ToBits(v, width)[..width - 1] == ToBits(v / 2, width - 1);
    }
  }

  lemma {:induction false} ToBitsOfValue(b: Bits)
    ensures ToBits(Value(b), |b|) == b
  {
    if b != [] {
      ToBitsOfValue(b[..|b| - 1]);
      assert Value(b) / 2 == Value(b[..|b| - 1]);
      assert b == b[..|b| - 1] + [b[|b| - 1]];
    }
  }

  lemma {:induction false} ValueConcat(a: Bits, b: Bits)
    ensures Value(a + b) == Value(a) * Pow2(|b|) + Value(b)
  {
    if b == [] {
      assert a + b == a;
    } else {
      var front := b[..|b| - 1];
      ValueConcat(a, front);
      var bit := if b[|b| - 1] then 1 else 0;
      assert Value(a + b) == 2 * Value(a + front) + bit by {
        assert (a + b)[..|a + b| - 1] == a + front;
      }
      DoubleFactor(Value(a), Pow2(|front|));
      assert Value(a) * Pow2(|b|) == 2 * (Value(a) * Pow2(|front|));
    }
  }

  lemma DoubleFactor(x: int, y: int)
    ensures x * (2 * y) == 2 * (x * y)
  {
  }

  lemma SliceConcat(a: Bits, b: Bits, n: nat)
    requires n <= |a|
    ensures (a + b)[..n] == a[..n] && (a + b)[n..] == a[n..] + b
  {
  }

  lemma Reassociate(a: Bits, b: Bits, c: Bits)
    ensures a + (b + c) == a + b + c
  {
  }

  lemma Regroup(a: Bits, b: Bits, n: nat)
    requires n <= |b|
    ensures a + b[..n] + b[n..] == a + b
  {
    assert b[..n] + b[n..] == b;
  }

  lemma Powers()
    ensures Pow2(0) == 1 && Pow2(1) == 2 && Pow2(2) == 4 && Pow2(3) == 8 && Pow2(4) == 16
    ensures Pow2(5) == 32 && Pow2(6) == 64 && Pow2(7) == 128 && Pow2(8) == 256
    ensures Pow2(9) == 512 && Pow2(10) == 1024 && Pow2(11) == 2048 && Pow2(12) == 4096
  {
    assert Pow2(4) == 16;
    assert Pow2(8) == 256;
  }

  lemma EightBits()
    ensures Pow2(8) == 256
  {
    Powers();
  }

  lemma FiveBits()
    ensures Pow2(5) == 32
  {
    Powers();
  }

  // ---- RFC 4648: what the encoding of a byte string is ----

  function BytesToBits(bytes: seq<Byte>): (b: Bits)
    ensures |b| == 8 * |bytes|
  {
    if bytes == [] then [] else BytesToBits(bytes[..|bytes| - 1]) + ToBits(bytes[|bytes| - 1], 8)
  }

  function DigitsToBits(digits: seq<Digit>): (b: Bits)
    ensures |b| == 5 * |digits|
  {
    if digits == [] then [] else DigitsToBits(digits[..|digits| - 1]) + ToBits(digits[|digits| - 1], 5)
  }

  /** Complete 5-bit groups, then the rest filled with zero bits on the right. */
  function Quintets(b: Bits): seq<Digit>
  {
    Powers();
    if |b| == 0 then []
    else if |b| < 5 then [Value(b + Zeros(5 - |b|))]
    else [Value(b[..5])] + Quintets(b[5..])
  }

  function Zeros(n: nat): (b: Bits)
    ensures |b| == n
  {
    seq(n, _ => false)
  }

  /** Complete 8-bit groups; the rest is dropped. */
  function Octets(b: Bits): seq<Byte>
  {
    Powers();
    if |b| < 8 then [] else [Value(b[..8])] + Octets(b[8..])
  }

  const ALPHABET: string := "ABCDEFGHIJKLMNOPQRSTUVWXYZ234567"

  function Spell(digits: seq<Digit>): (s: string)
    ensures |s| == |digits|
    ensures forall i | 0 <= i < |s| :: s[i] == ALPHABET[digits[i]]
  {
    if digits == [] then "" else Spell(digits[..|digits| - 1]) + [ALPHABET[digits[|digits| - 1]]]
  }

  function Encoding(bytes: seq<Byte>): string {
    Spell(Quintets(BytesToBits(bytes)))
  }

  // ---- the encoder ----

  function ShiftIn(acc: Word, width: nat, low: nat): Word
    requires low < Pow2(width)
  {
    (acc * Pow2(width) + low) % WORD
  }

  /** The accumulator's low |pending| bits are the bits not yet emitted; whatever lies above is stale. */
  ghost predicate Holds(acc: Word, pending: Bits) {
    |pending| <= 12 && acc % Pow2(|pending|) == Value(pending)
  }

  /** Wrapping at 2^32 does not reach the low 12 bits. */
  lemma WrapKeepsLowBits(x: int, n: nat)
    requires n <= 12
    ensures x % WORD % Pow2(n) == x % Pow2(n)
  {
    Powers();
    WordMultiple(Pow2(n));
    RemainderOfRemainder(x, Pow2(n), WORD / Pow2(n), WORD);
  }

  lemma WordMultiple(p: int)
    requires p in {1, 2, 4, 8, 16, 32, 64, 128, 256, 512, 1024, 2048, 4096}
    ensures p * (WORD / p) == WORD
  {
  }

  /** Shifting in a byte keeps the low bits of the accumulator right, stale high bits included. */
  lemma ShiftInByte(acc: Word, pending: Bits, byte: Byte)
    requires |pending| <= 4 && Holds(acc, pending)
    ensures Pow2(8) == 256 && Holds(ShiftIn(acc, 8, byte), pending + ToBits(byte, 8))
  {
    ByteAppended(acc, byte);
    ByteValue(pending, byte);
    ByteShifted(acc, |pending|, byte);
  }

  lemma ByteAppended(acc: Word, byte: Byte)
    ensures Pow2(8) == 256 && ShiftIn(acc, 8, byte) == (acc * 256 + byte) % WORD
  {
    EightBits();
  }

  lemma ByteShifted(acc: Word, n: nat, byte: Byte)
    requires n <= 4
    ensures (acc * 256 + byte) % WORD % Pow2(n + 8) == acc % Pow2(n) * 256 + byte
  {
    EightBits();
    ShiftedRemainder(acc, n, byte, 8);
    WrapKeepsLowBits(acc * 256 + byte, n + 8);
  }

  lemma ByteValue(pending: Bits, byte: Byte)
    ensures Value(pending + ToBits(byte, 8)) == Value(pending) * 256 + byte
  {
    EightBits();
    ValueOfToBits(byte, 8);
    ValueConcat(pending, ToBits(byte, 8));
  }

  lemma ShiftInDigit(acc: Word, pending: Bits, digit: Digit)
    requires |pending| <= 7 && Holds(acc, pending)
    ensures Pow2(5) == 32 && Holds(ShiftIn(acc, 5, digit), pending + ToBits(digit, 5))
  {
    FiveBits();
    ValueOfToBits(digit, 5);
    ValueConcat(pending, ToBits(digit, 5));
    ShiftedRemainder(acc, |pending|, digit, 5);
    WrapKeepsLowBits(acc * 32 + digit, |pending| + 5);
  }

  lemma ShiftedRemainder(acc: Word, n: nat, low: nat, width: nat)
    requires (width == 8 && n <= 4) || (width == 5 && n <= 7)
    requires low < Pow2(width)
    ensures (acc * Pow2(width) + low) % Pow2(n + width) == acc % Pow2(n) * Pow2(width) + low
  {
    Powers();
    if width == 8 {
      Remainder8(acc, Pow2(n), low);
    } else {
      Remainder5(acc, Pow2(n), low);
    }
  }

  lemma Remainder8(acc: Word, p: int, low: nat)
    requires low < 256 && (p == 1 || p == 2 || p == 4 || p == 8 || p == 16)
    ensures (acc * 256 + low) % (256 * p) == acc % p * 256 + low
  {
    DivUnique(acc * 256 + low, 256 * p, acc / p, acc % p * 256 + low);
  }

  lemma Remainder5(acc: Word, p: int, low: nat)
    requires low < 32
    requires p == 1 || p == 2 || p == 4 || p == 8 || p == 16 || p == 32 || p == 64 || p == 128
    ensures (acc * 32 + low) % (32 * p) == acc % p * 32 + low
  {
    DivUnique(acc * 32 + low, 32 * p, acc / p, acc % p * 32 + low);
  }

  /** The source's (acc >>> (bits - width)) & mask. */
  function Top(acc: Word, bits: nat, width: nat): nat
    requires width <= bits
  {
    acc / Pow2(bits - width) % Pow2(width)
  }

  /** It reads the oldest `width` pending bits. */
  lemma TakeTop(acc: Word, pending: Bits, width: nat)
    requires Holds(acc, pending) && (width == 5 || width == 8) && width <= |pending|
    ensures Top(acc, |pending|, width) == Value(pending[..width])
    ensures Holds(acc, pending[width..])
  {
    var rest := |pending| - width;
    var hi, lo := Value(pending[..width]), Value(pending[width..]);
    ValueConcat(pending[..width], pending[width..]);
    assert pending == pending[..width] + pending[width..];
    Powers();
    PowersMultiply(rest, width);
    SplitDigits(acc, Pow2(rest), Pow2(width), Pow2(|pending|), hi, lo);
  }

  lemma {:induction false} PowersMultiply(a: nat, b: nat)
    ensures Pow2(a) * Pow2(b) == Pow2(a + b)
  {
    if b > 0 {
      PowersMultiply(a, b - 1);
      Associate(Pow2(a), Pow2(b - 1), 2);
    }
  }

  lemma {:induction false} QuintetsOfConcat(a: Bits, b: Bits, groups: nat)
    requires |a| == 5 * groups
    ensures Quintets(a + b) == Quintets(a) + Quintets(b)
    decreases |a|
  {
    if a == [] {
      assert a + b == b;
    } else {
      QuintetsOfConcat(a[5..], b, groups - 1);
      SliceConcat(a, b, 5);
    }
  }

  lemma SpellAppend(digits: seq<Digit>, d: Digit)
    ensures Spell(digits + [d]) == Spell(digits) + [ALPHABET[d]]
  {
    assert (digits + [d])[..|digits|] == digits;
  }

  lemma QuintetOf(p: Bits)
    requires |p| == 5
    ensures Pow2(5) == 32 && Quintets(p) == [Value(p)]
  {
    Powers();
    assert p[..5] == p && p[5..] == [];
  }

  /** What the encoder's loop has done: `done` is emitted as whole quintets, `pending` sits in the accumulator. */
  ghost predicate Encoded(all: Bits, done: Bits, pending: Bits, groups: nat, acc: Word, output: string) {
    && done + pending == all
    && |done| == 5 * groups
    && output == Spell(Quintets(done))
    && Holds(acc, pending)
  }

  lemma EncoderTakesByte(all: Bits, done: Bits, pending: Bits, groups: nat, acc: Word, output: string, byte: Byte)
    requires Encoded(all, done, pending, groups, acc, output) && |pending| <= 4
    ensures Pow2(8) == 256
    ensures Encoded(all + ToBits(byte, 8), done, pending + ToBits(byte, 8), groups, ShiftIn(acc, 8, byte), output)
  {
    EightBits();
    Reassociate(done, pending, ToBits(byte, 8));
    ShiftInByte(acc, pending, byte);
  }

  lemma EncoderEmits(all: Bits, done: Bits, pending: Bits, groups: nat, acc: Word, output: string)
    requires Encoded(all, done, pending, groups, acc, output) && |pending| >= 5
    ensures 0 <= Top(acc, |pending|, 5) < 32
    ensures Encoded(all, done + pending[..5], pending[5..], groups + 1, acc, output + [ALPHABET[Top(acc, |pending|, 5)]])
  {
    TakeTop(acc, pending, 5);
    Regroup(done, pending, 5);
    QuintetsOfConcat(done, pending[..5], groups);
    QuintetOf(pending[..5]);
    SpellAppend(Quintets(done), Value(pending[..5]));
  }

  method Encode(buffer: seq<Byte>) returns (output: string)
    ensures output == Encoding(buffer)
  {
    var bits: nat := 0;
    var value: Word := 0;
    output := "";
    ghost var done: Bits, pending: Bits, groups: nat := [], [], 0;
    for k := 0 to |buffer|
      invariant Encoded(BytesToBits(buffer[..k]), done, pending, groups, value, output)
      invariant bits == |pending| <= 4
    {
      EncoderTakesByte(BytesToBits(buffer[..k]), done, pending, groups, value, output, buffer[k]);
      assert buffer[..k + 1][..k] == buffer[..k];
      value := ShiftIn(value, 8, buffer[k]);
      pending := pending + ToBits(buffer[k], 8);
      bits := bits + 8;
      while bits >= 5
        invariant Encoded(BytesToBits(buffer[..k + 1]), done, pending, groups, value, output)
        invariant bits == |pending| <= 12
      {
        EncoderEmits(BytesToBits(buffer[..k + 1]), done, pending, groups, value, output);
        output := output + [ALPHABET[Top(value, bits, 5)]];
        done, pending, groups := done + pending[..5], pending[5..], groups + 1;
        bits := bits - 5;
      }
    }
    assert buffer[..|buffer|] == buffer;
    EncoderEnds(BytesToBits(buffer), done, pending, groups, value, output);
    if bits > 0 {
      output := output + [ALPHABET[LastDigit(value, bits)]];
    }
  }

  lemma EncoderEnds(all: Bits, done: Bits, pending: Bits, groups: nat, acc: Word, output: string)
    requires Encoded(all, done, pending, groups, acc, output) && |pending| <= 4
    ensures Spell(Quintets(all)) == if pending == [] then output else output + [ALPHABET[LastDigit(acc, |pending|)]]
  {
    QuintetsOfConcat(done, pending, groups);
    if pending != [] {
      TailQuintet(acc, pending);
      SpellAppend(Quintets(done), LastDigit(acc, |pending|));
    }
  }

  /** The source's (acc << (5 - bits)) & 31. */
  function LastDigit(acc: Word, bits: nat): Digit
    requires bits <= 5
  {
    acc * Pow2(5 - bits) % WORD % 32
  }

  lemma TailQuintet(acc: Word, pending: Bits)
    requires 0 < |pending| < 5 && Holds(acc, pending)
    ensures Quintets(pending) == [LastDigit(acc, |pending|)]
  {
    var padded := pending + Zeros(5 - |pending|);
    assert Value(padded) == LastDigit(acc, |pending|) by {
      ValueConcat(pending, Zeros(5 - |pending|));
      ZerosValue(5 - |pending|);
      LastDigitValue(acc, |pending|);
    }
  }

  lemma LastDigitValue(acc: Word, n: nat)
    requires 0 < n < 5
    ensures LastDigit(acc, n) == acc % Pow2(n) * Pow2(5 - n)
  {
    Powers();
    WrapKeepsLowBits(acc * Pow2(5 - n), 5);
    DivUnique(acc * Pow2(5 - n), 32, acc / Pow2(n), acc % Pow2(n) * Pow2(5 - n));
  }

  lemma {:induction false} ZerosValue(n: nat)
    ensures Value(Zeros(n)) == 0
  {
    if n > 0 {
      ZerosValue(n - 1);
      assert Zeros(n)[..n - 1] == Zeros(n - 1);
    }
  }

  // ---- the decoder ----

  function StripPadding(s: string): string {
    if s != "" && s[|s| - 1] == '=' then StripPadding(s[..|s| - 1]) else s
  }

  function DropSpaces(s: string): string {
    if s == "" then "" else DropSpaces(s[..|s| - 1]) + if IsSpace(s[|s| - 1]) then "" else [s[|s| - 1]]
  }

  function Normalized(s: string): string {
    DropSpaces(StripPadding(UpperAll(s)))
  }

  /** First position of `c` in the alphabet, or -1. */
  function IndexOf(c: char): (i: int)
    ensures -1 <= i < 32
    ensures i >= 0 ==> ALPHABET[i] == c
  {
    IndexFrom(c, 0)
  }

  function IndexFrom(c: char, k: nat): (i: int)
    requires k <= 32
    ensures -1 <= i < 32
    ensures i >= 0 ==> k <= i && ALPHABET[i] == c
    ensures i == -1 ==> forall j | k <= j < 32 :: ALPHABET[j] != c
    decreases 32 - k
  {
    if k == 32 then -1 else if ALPHABET[k] == c then k else IndexFrom(c, k + 1)
  }

  lemma AlphabetAt(i: nat)
    requires i < 32
    ensures ALPHABET[i] as int == if i < 26 then 65 + i else 24 + i
  {
    var letters := seq(32, k requires 0 <= k < 32 => (if k < 26 then 65 + k else 24 + k) as char);
    assert ALPHABET == letters;
  }

  lemma IndexOfLetter(d: Digit)
    ensures IndexOf(ALPHABET[d]) == d
  {
    AlphabetAt(d);
    AlphabetAt(IndexOf(ALPHABET[d]));
  }

  predicate Spelled(s: string) {
    forall i | 0 <= i < |s| :: IndexOf(s[i]) >= 0
  }

  function DigitsOf(s: string): (digits: seq<Digit>)
    requires Spelled(s)
    ensures |digits| == |s|
    ensures forall i | 0 <= i < |s| :: digits[i] == IndexOf(s[i])
  {
    seq(|s|, i requires 0 <= i < |s| => IndexOf(s[i]) as Digit)
  }

  function Decoding(input: string): Decoded {
    var s := Normalized(input);
    if Spelled(s) then Bytes(Octets(DigitsToBits(DigitsOf(s)))) else InvalidCharacter
  }

  lemma DigitsOfPrefix(s: string, k: nat)
    requires k < |s| && Spelled(s[..k]) && IndexOf(s[k]) >= 0
    ensures Spelled(s[..k + 1])
    ensures DigitsToBits(DigitsOf(s[..k + 1])) == DigitsToBits(DigitsOf(s[..k])) + ToBits(IndexOf(s[k]), 5)
  {
    assert s[..k + 1] == s[..k] + [s[k]];
    assert DigitsOf(s[..k + 1])[..k] == DigitsOf(s[..k]);
  }

  lemma {:induction false} OctetsOfConcat(a: Bits, b: Bits, groups: nat)
    requires |a| == 8 * groups
    ensures Octets(a + b) == Octets(a) + Octets(b)
    decreases |a|
  {
    if a == [] {
      assert a + b == b;
    } else {
      OctetsOfConcat(a[8..], b, groups - 1);
      SliceConcat(a, b, 8);
    }
  }

  lemma OctetOf(p: Bits)
    requires |p| == 8
    ensures Pow2(8) == 256 && Octets(p) == [Value(p)]
  {
    Powers();
    assert p[..8] == p && p[8..] == [];
  }

  ghost predicate DecodedSoFar(all: Bits, done: Bits, pending: Bits, groups: nat, acc: Word, bytes: seq<Byte>) {
    && done + pending == all
    && |done| == 8 * groups
    && bytes == Octets(done)
    && Holds(acc, pending)
  }

  lemma DecoderTakesDigit(all: Bits, done: Bits, pending: Bits, groups: nat, acc: Word, bytes: seq<Byte>, digit: Digit)
    requires DecodedSoFar(all, done, pending, groups, acc, bytes) && |pending| <= 7
    ensures Pow2(5) == 32
    ensures DecodedSoFar(all + ToBits(digit, 5), done, pending + ToBits(digit, 5), groups, ShiftIn(acc, 5, digit), bytes)
  {
    FiveBits();
    Reassociate(done, pending, ToBits(digit, 5));
    ShiftInDigit(acc, pending, digit);
  }

  lemma DecoderEmits(all: Bits, done: Bits, pending: Bits, groups: nat, acc: Word, bytes: seq<Byte>)
    requires DecodedSoFar(all, done, pending, groups, acc, bytes) && |pending| >= 8
    ensures 0 <= Top(acc, |pending|, 8) < 256
    ensures DecodedSoFar(all, done + pending[..8], pending[8..], groups + 1, acc, bytes + [Top(acc, |pending|, 8)])
  {
    TakeTop(acc, pending, 8);
    Regroup(done, pending, 8);
    OctetsOfConcat(done, pending[..8], groups);
    OctetOf(pending[..8]);
  }

  /** What the loop keeps when it takes one digit and emits a byte if it can. */
  lemma DecoderStep(all: Bits, done: Bits, pending: Bits, groups: nat, acc: Word, bytes: seq<Byte>, digit: Digit)
    returns (d: Bits, p: Bits, g: nat)
    requires DecodedSoFar(all, done, pending, groups, acc, bytes) && |pending| <= 7
    ensures Pow2(5) == 32
    ensures var next, n := ShiftIn(acc, 5, digit), |pending| + 5;
            if n >= 8 then
              && |p| == n - 8 && 0 <= Top(next, n, 8) < 256
              && DecodedSoFar(all + ToBits(digit, 5), d, p, g, next, bytes + [Top(next, n, 8)])
            else |p| == n && DecodedSoFar(all + ToBits(digit, 5), d, p, g, next, bytes)
  {
    DecoderTakesDigit(all, done, pending, groups, acc, bytes, digit);
    d, p, g := done, pending + ToBits(digit, 5), groups;
    if |p| >= 8 {
      DecoderEmits(all + ToBits(digit, 5), d, p, g, ShiftIn(acc, 5, digit), bytes);
      d, p, g := d + p[..8], p[8..], g + 1;
    }
  }

  method Decode(input: string) returns (r: Decoded)
    ensures r == Decoding(input)
  {
    var normalized := Normalized(input);
    var bits: nat := 0;
    var value: Word := 0;
    var bytes: seq<Byte> := [];
    ghost var done: Bits, pending: Bits, groups: nat := [], [], 0;
    for k := 0 to |normalized|
      invariant Spelled(normalized[..k])
      invariant DecodedSoFar(DigitsToBits(DigitsOf(normalized[..k])), done, pending, groups, value, bytes)
      invariant bits == |pending| <= 7
    {
      var index := IndexOf(normalized[k]);
      if index == -1 {
        return InvalidCharacter;
      }
      DigitsOfPrefix(normalized, k);
      done, pending, groups := DecoderStep(DigitsToBits(DigitsOf(normalized[..k])), done, pending, groups, value, bytes, index);
      value := ShiftIn(value, 5, index);
      bits := bits + 5;
      if bits >= 8 {
        bytes := bytes + [Top(value, bits, 8)];
        bits := bits - 8;
      }
    }
    assert normalized[..|normalized|] == normalized;
    OctetsOfConcat(done, pending, groups);
    r := Bytes(bytes);
  }

  // ---- round trip ----

  lemma {:induction false} QuintetBits(b: Bits)
    ensures |Quintets(b)| == (|b| + 4) / 5
    ensures b <= DigitsToBits(Quintets(b))
    decreases |b|
  {
    Powers();
    if |b| == 0 {
    } else if |b| < 5 {
      var p := b + Zeros(5 - |b|);
      ToBitsOfValue(p);
      assert DigitsToBits([Value(p)]) == [] + ToBits(Value(p), 5);
    } else {
      QuintetBits(b[5..]);
      ToBitsOfValue(b[..5]);
      DigitsBitsConcat([Value(b[..5])], Quintets(b[5..]));
      assert DigitsToBits([Value(b[..5])]) == [] + ToBits(Value(b[..5]), 5);
      assert b == b[..5] + b[5..];
    }
  }

  lemma {:induction false} DigitsBitsConcat(a: seq<Digit>, b: seq<Digit>)
    ensures DigitsToBits(a + b) == DigitsToBits(a) + DigitsToBits(b)
  {
    if b == [] {
      assert a + b == a;
    } else {
      DigitsBitsConcat(a, b[..|b| - 1]);
      assert (a + b)[..|a + b| - 1] == a + b[..|b| - 1];
    }
  }

  lemma {:induction false} OctetsOfBytes(bytes: seq<Byte>, rest: Bits)
    requires |rest| < 8
    ensures Octets(BytesToBits(bytes) + rest) == bytes
  {
    OctetsOfConcat(BytesToBits(bytes), rest, |bytes|);
    if bytes != [] {
      var front, last := bytes[..|bytes| - 1], bytes[|bytes| - 1];
      OctetsOfBytes(front, []);
      assert BytesToBits(front) + [] == BytesToBits(front);
      OctetsOfConcat(BytesToBits(front), ToBits(last, 8), |front|);
      Powers();
      ValueOfToBits(last, 8);
      OctetOf(ToBits(last, 8));
      assert bytes == front + [last];
    }
  }

  lemma {:induction false} NoSpacesDropped(digits: seq<Digit>)
    ensures DropSpaces(Spell(digits)) == Spell(digits)
  {
    if digits != [] {
      var front, last := digits[..|digits| - 1], digits[|digits| - 1];
      NoSpacesDropped(front);
      AlphabetAt(last);
      assert Spell(digits)[..|digits| - 1] == Spell(front);
    }
  }

  lemma {:induction false} StripPaddingOf(s: string, padding: nat)
    requires s == "" || s[|s| - 1] != '='
    ensures StripPadding(s + seq(padding, _ => '=')) == s
  {
    var t := s + seq(padding, _ => '=');
    if padding == 0 {
      assert t == s;
    } else {
      StripPaddingOf(s, padding - 1);
      assert t[..|t| - 1] == s + seq(padding - 1, _ => '=');
    }
  }

  /** Reading back what was spelled, padded or not, gives the digits. */
  lemma SpellingReadsBack(digits: seq<Digit>, padding: nat)
    ensures Normalized(Spell(digits) + seq(padding, _ => '=')) == Spell(digits)
    ensures Spelled(Spell(digits)) && DigitsOf(Spell(digits)) == digits
  {
    var s, pad := Spell(digits), seq(padding, _ => '=');
    forall i | 0 <= i < |s| ensures s[i] != '=' && Upper(s[i]) == [s[i]] && IndexOf(s[i]) == digits[i] {
      AlphabetAt(digits[i]);
      IndexOfLetter(digits[i]);
    }
    UpperStays(s + pad);
    StripPaddingOf(s, padding);
    NoSpacesDropped(digits);
  }

  /** The bits survive: the digits carry the byte string's bits, then fewer than five zero bits. */
  lemma DigitsCarryBytes(bytes: seq<Byte>)
    ensures Octets(DigitsToBits(Quintets(BytesToBits(bytes)))) == bytes
  {
    var b := BytesToBits(bytes);
    QuintetBits(b);
    var all := DigitsToBits(Quintets(b));
    OctetsOfBytes(bytes, all[|b|..]);
    assert b + all[|b|..] == all;
  }

  /**
   Decoding undoes encoding for every byte string, with or without RFC 4648 padding appended, and
   the encoding has ceil(8n/5) characters.
   */
  lemma RoundTrip(bytes: seq<Byte>, padding: nat)
    ensures Decoding(Encoding(bytes) + seq(padding, _ => '=')) == Bytes(bytes)
    ensures |Encoding(bytes)| == (8 * |bytes| + 4) / 5
  {
    QuintetBits(BytesToBits(bytes));
    SpellingReadsBack(Quintets(BytesToBits(bytes)), padding);
    DigitsCarryBytes(bytes);
  }

  // ---- published test vectors ----

  function Bit(b: bool): nat {
    if b then 1 else 0
  }

  lemma FiveBitValue(b: Bits)
    requires |b| == 5
    ensures Value(b) == 16 * Bit(b[0]) + 8 * Bit(b[1]) + 4 * Bit(b[2]) + 2 * Bit(b[3]) + Bit(b[4])
  {
    assert b[..4][..3] == b[..3] && b[..3][..2] == b[..2] && b[..2][..1] == b[..1] && b[..1][..0] == [];
    assert Value(b[..1]) == Bit(b[0]) && Value(b[..2]) == 2 * Bit(b[0]) + Bit(b[1]);
    assert Value(b[..3]) == 4 * Bit(b[0]) + 2 * Bit(b[1]) + Bit(b[2]);
    assert Value(b[..4]) == 8 * Bit(b[0]) + 4 * Bit(b[1]) + 2 * Bit(b[2]) + Bit(b[3]);
  }

  lemma BitsOfF()
    ensures ToBits(0x66, 8) == [false, true, true, false, false, true, true, false]
  {
    assert ToBits(3, 3) == [false, true, true];
    assert ToBits(12, 5) == [false, true, true, false, false];
    assert ToBits(51, 7) == [false, true, true, false, false, true, true];
  }

  lemma BitsOfO()
    ensures ToBits(0x6F, 8) == [false, true, true, false, true, true, true, true]
  {
    assert ToBits(3, 3) == [false, true, true];
    assert ToBits(13, 5) == [false, true, true, false, true];
    assert ToBits(55, 7) == [false, true, true, false, true, true, true];
  }

  lemma NextQuintet(b: Bits)
    requires |b| >= 5
    ensures Value(b[..5]) < 32 && Quintets(b) == [Value(b[..5])] + Quintets(b[5..])
  {
    FiveBits();
  }

  lemma FirstQuintet(b: Bits)
    requires |b| >= 5
    ensures Quintets(b) == [16 * Bit(b[0]) + 8 * Bit(b[1]) + 4 * Bit(b[2]) + 2 * Bit(b[3]) + Bit(b[4])] + Quintets(b[5..])
  {
    NextQuintet(b);
    FiveBitValue(b[..5]);
  }

  lemma LastQuintet(b: Bits)
    requires 0 < |b| < 5
    ensures Quintets(b) == Quintets(b + Zeros(5 - |b|))
  {
    var padded := b + Zeros(5 - |b|);
    NextQuintet(padded);
    assert padded[..5] == padded && padded[5..] == [];
  }

  lemma SpelledIs(digits: seq<Digit>, text: string)
    requires |digits| == |text| && forall i | 0 <= i < |digits| :: ALPHABET[digits[i]] == text[i]
    ensures Spell(digits) == text
  {
  }

  lemma BitsOfOne()
    ensures BytesToBits([0x66]) == [false, true, true, false, false, true, true, false]
  {
    BitsOfF();
    var bytes: seq<Byte> := [0x66];
    assert bytes[..0] == [];
  }

  lemma QuintetsOfOne()
    ensures Quintets([false, true, true, false, false, true, true, false]) == [12, 24]
  {
    var b := [false, true, true, false, false, true, true, false];
    var c := [true, true, false, false, false];
    FirstQuintet(b);
    assert b[5..] == [true, true, false];
    LastQuintet([true, true, false]);
    assert [true, true, false] + Zeros(2) == c;
    FirstQuintet(c);
    assert c[5..] == [];
  }

  lemma OneByte()
    ensures Encoding([0x66]) == "MY"
  {
    BitsOfOne();
    QuintetsOfOne();
    SpelledIs([12, 24], "MY");
  }

  const TWO_BYTES: Bits :=
    [false, true, true, false, false, true, true, false, false, true, true, false, true, true, true, true]

  lemma BitsOfTwo()
    ensures BytesToBits([0x66, 0x6F]) == TWO_BYTES
  {
    var bytes: seq<Byte> := [0x66, 0x6F];
    BitsOfF();
    BitsOfO();
    assert bytes[..1] == [0x66] && bytes[..1][..0] == [];
    assert BytesToBits(bytes[..1]) == [false, true, true, false, false, true, true, false];
  }

  lemma QuintetsOfTwo()
    ensures Quintets(TWO_BYTES) == [12, 25, 23, 16]
  {
    var b := [true, true, false, false, true, true, false, true, true, true, true];
    var c := [true, false, true, true, true, true];
    var d := [true, false, false, false, false];
    FirstQuintet(TWO_BYTES);
    assert TWO_BYTES[5..] == b;
    FirstQuintet(b);
    assert b[5..] == c;
    FirstQuintet(c);
    assert c[5..] == [true];
    LastQuintet([true]);
    assert [true] + Zeros(4) == d;
    FirstQuintet(d);
    assert d[5..] == [];
  }

  lemma EncodingIs(bytes: seq<Byte>, digits: seq<Digit>, text: string)
    requires Quintets(BytesToBits(bytes)) == digits && Spell(digits) == text
    ensures Encoding(bytes) == text
  {
  }

  lemma SpellTwo()
    ensures Spell([12, 25, 23, 16]) == "MZXQ"
  {
    AlphabetAt(12);
    AlphabetAt(25);
    AlphabetAt(23);
    AlphabetAt(16);
    SpelledIs([12, 25, 23, 16], "MZXQ");
  }

  lemma TwoBytes(bytes: seq<Byte>, text: string)
    requires bytes == [0x66, 0x6F] && text == "MZXQ"
    ensures Encoding(bytes) == text
  {
    BitsOfTwo();
    QuintetsOfTwo();
    SpellTwo();
    EncodingIs(bytes, [12, 25, 23, 16], text);
  }

  /** Section 10 of RFC 4648, without its padding: "" is "", "f" is "MY", "fo" is "MZXQ". */
  lemma PublishedVectors()
    ensures Encoding([]) == "" && Encoding([0x66]) == "MY" && Encoding([0x66, 0x6F]) == "MZXQ"
  {
    OneByte();
    TwoBytes([0x66, 0x6F], "MZXQ");
  }
}
