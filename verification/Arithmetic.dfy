/** Division facts that the solver does not find by itself. */
module Arithmetic {

  lemma {:induction false} ProductGap(d: int, x: int, y: int)
    requires d > 0 && x < y
    ensures d * x + d <= d * y
    decreases y - x
  {
    if x + 1 == y {
      assert d * (x + 1) == d * x + d;
    } else {
      ProductGap(d, x, y - 1);
      assert d * (y - 1) == d * y - d;
    }
  }

  lemma DivUnique(x: int, d: int, q: int, r: int)
    requires d > 0 && x == d * q + r && 0 <= r < d
    ensures x / d == q && x % d == r
  {
    if x / d < q {
      ProductGap(d, x / d, q);
    } else if q < x / d {
      ProductGap(d, q, x / d);
    }
  }

  lemma Associate(a: int, b: int, c: int)
    ensures a * b * c == a * (b * c)
  {
  }

  lemma Distribute(a: int, b: int, c: int)
    ensures a * (b + c) == a * b + a * c
  {
  }

  /** Reducing modulo a multiple of `d` first does not change the remainder modulo `d`. */
  lemma RemainderOfRemainder(x: int, d: int, k: int, m: int)
    requires d > 0 && m > 0 && m == d * k
    ensures x % m % d == x % d
  {
    var j, y := x / m, x % m;
    var q, r := y / d, y % d;
    Associate(d, k, j);
    Distribute(d, k * j, q);
    DivUnique(x, d, k * j + q, r);
  }

  /** Splitting the low digits of a number into a high and a low part. */
  lemma SplitDigits(x: int, r: int, w: int, m: int, hi: int, lo: int)
    requires r > 0 && w > 0 && m > 0 && m == r * w
    requires x % m == hi * r + lo && 0 <= lo < r && 0 <= hi < w
    ensures x / r % w == hi && x % r == lo
  {
    var q := x / m;
    Associate(r, w, q);
    Distribute(r, w * q, hi);
    DivUnique(x, r, w * q + hi, lo);
    DivUnique(x / r, w, q, hi);
  }
}
