/** Characters as JavaScript's `\s`, `trim`, digit classes and `toUpperCase` see them. */
module Characters {
  /** White space and line terminators; the same characters for `\s` and for `trim`. */
  predicate IsSpace(c: char) {
    var code := c as int;
    || 0x9 <= code <= 0xD || code == 0x20 || code == 0xA0 || code == 0x1680 || 0x2000 <= code <= 0x200A
    || code in {0x2028, 0x2029, 0x202F, 0x205F, 0x3000, 0xFEFF}
  }

  predicate IsDigit(c: char) {
    '0' <= c <= '9'
  }

  function DigitChar(d: nat): (c: char)
    requires d < 10
    ensures IsDigit(c) && c as int - '0' as int == d
  {
    (d + '0' as int) as char
  }

  /**
   Upper case. Outside ASCII only the characters are listed whose upper case is plain Latin letters:
   sharp s, dotless i, long s and the Latin ligatures. Any other one keeps a letter that is not plain Latin.
   */
  function Upper(c: char): string {
    var code := c as int;
    if 'a' <= c <= 'z' then [(code - 32) as char]
    else if code == 0xDF then "SS"
    else if code == 0x131 then "I"
    else if code == 0x17F then "S"
    else if code == 0xFB00 then "FF"
    else if code == 0xFB01 then "FI"
    else if code == 0xFB02 then "FL"
    else if code == 0xFB03 then "FFI"
    else if code == 0xFB04 then "FFL"
    else if code == 0xFB05 || code == 0xFB06 then "ST"
    else [c]
  }

  function UpperAll(s: string): string {
    if s == "" then "" else UpperAll(s[..|s| - 1]) + Upper(s[|s| - 1])
  }

  lemma {:induction false} UpperStays(s: string)
    requires forall i | 0 <= i < |s| :: Upper(s[i]) == [s[i]]
    ensures UpperAll(s) == s
  {
    if s != "" {
      UpperStays(s[..|s| - 1]);
      assert s == s[..|s| - 1] + [s[|s| - 1]];
    }
  }
}
