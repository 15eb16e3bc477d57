/** Sums and filters over sequences: the only aggregation the ledger code uses. */
module Sums {

  /** Sum of `f` over `s`, folded left to right like the source's loops. */
  function Sum<T>(s: seq<T>, f: T -> int): int {
    if s == [] then 0 else Sum(s[..|s| - 1], f) + f(s[|s| - 1])
  }

  lemma SumAppend<T>(s: seq<T>, x: T, f: T -> int)
    ensures Sum(s + [x], f) == Sum(s, f) + f(x)
  {
    assert (s + [x])[..|s|] == s;
  }

  lemma SumOne<T>(x: T, f: T -> int)
    ensures Sum([x], f) == f(x)
  {
    assert [x][..0] == [];
  }

  lemma SumPrefix<T>(s: seq<T>, i: nat, f: T -> int)
    requires i < |s|
    ensures Sum(s[..i + 1], f) == Sum(s[..i], f) + f(s[i])
  {
    assert s[..i + 1][..i] == s[..i];
  }

  lemma {:induction false} SumConcat<T>(s: seq<T>, t: seq<T>, f: T -> int)
    ensures Sum(s + t, f) == Sum(s, f) + Sum(t, f)
  {
    if t == [] {
      assert s + t == s;
    } else {
      SumConcat(s, t[..|t| - 1], f);
      assert (s + t)[..|s + t| - 1] == s + t[..|t| - 1];
    }
  }

  lemma {:induction false} SumCong<T>(s: seq<T>, f: T -> int, g: T -> int)
    requires forall x | x in s :: f(x) == g(x)
    ensures Sum(s, f) == Sum(s, g)
  {
    if s != [] {
      SumCong(s[..|s| - 1], f, g);
    }
  }

  lemma {:induction false} SumLeq<T>(s: seq<T>, f: T -> int, g: T -> int)
    requires forall x | x in s :: f(x) <= g(x)
    ensures Sum(s, f) <= Sum(s, g)
  {
    if s != [] {
      SumLeq(s[..|s| - 1], f, g);
    }
  }

  lemma {:induction false} SumZero<T>(s: seq<T>, f: T -> int)
    requires forall x | x in s :: f(x) == 0
    ensures Sum(s, f) == 0
  {
    if s != [] {
      SumZero(s[..|s| - 1], f);
    }
  }

  lemma {:induction false} SumNonneg<T>(s: seq<T>, f: T -> int)
    requires forall x | x in s :: f(x) >= 0
    ensures Sum(s, f) >= 0
  {
    if s != [] {
      SumNonneg(s[..|s| - 1], f);
    }
  }

  /** One non-negative term never exceeds the sum. */
  lemma {:induction false} SumTerm<T>(s: seq<T>, f: T -> int, k: nat)
    requires k < |s|
    requires forall x | x in s :: f(x) >= 0
    ensures f(s[k]) <= Sum(s, f)
  {
    if k == |s| - 1 {
      SumNonneg(s[..k], f);
    } else {
      SumTerm(s[..|s| - 1], f, k);
    }
  }

  lemma {:induction false} SumPlus<T>(s: seq<T>, f: T -> int, g: T -> int, h: T -> int)
    requires forall x | x in s :: h(x) == f(x) + g(x)
    ensures Sum(s, h) == Sum(s, f) + Sum(s, g)
  {
    if s != [] {
      SumPlus(s[..|s| - 1], f, g, h);
    }
  }

  lemma {:induction false} SumScale<T>(s: seq<T>, c: int, f: T -> int, h: T -> int)
    requires forall x | x in s :: h(x) == c * f(x)
    ensures Sum(s, h) == c * Sum(s, f)
  {
    if s != [] {
      SumScale(s[..|s| - 1], c, f, h);
    }
  }

  /** Two sequences that agree term by term under `f` and `g` have equal sums. */
  lemma {:induction false} SumPointwise<T, U>(s: seq<T>, t: seq<U>, f: T -> int, g: U -> int)
    requires |s| == |t|
    requires forall i | 0 <= i < |s| :: f(s[i]) == g(t[i])
    ensures Sum(s, f) == Sum(t, g)
  {
    if s != [] {
      SumPointwise(s[..|s| - 1], t[..|t| - 1], f, g);
    }
  }

  /** If the terms differ at one position only, so do the sums, by that difference. */
  lemma {:induction false} SumOneDiff<T, U>(s: seq<T>, t: seq<U>, f: T -> int, g: U -> int, k: nat)
    requires |s| == |t| && k < |s|
    requires forall i | 0 <= i < |s| && i != k :: f(s[i]) == g(t[i])
    ensures Sum(s, f) - f(s[k]) == Sum(t, g) - g(t[k])
  {
    if k == |s| - 1 {
      SumPointwise(s[..k], t[..k], f, g);
    } else {
      SumOneDiff(s[..|s| - 1], t[..|t| - 1], f, g, k);
    }
  }

  /** A sum with a single possibly non-zero term is that term. */
  lemma SumSingle<T>(s: seq<T>, f: T -> int, k: nat)
    requires k < |s|
    requires forall i | 0 <= i < |s| && i != k :: f(s[i]) == 0
    ensures Sum(s, f) == f(s[k])
  {
    SumOneDiff(s, s, f, _ => 0, k);
    SumZero(s, _ => 0);
  }

  /** The elements of `s` that satisfy `p`, in order: a query's where clause. */
  function Filter<T>(s: seq<T>, p: T -> bool): seq<T> {
    if s == [] then []
    else Filter(s[..|s| - 1], p) + (if p(s[|s| - 1]) then [s[|s| - 1]] else [])
  }

  lemma {:induction false} FilterMember<T>(s: seq<T>, p: T -> bool, x: T)
    ensures x in Filter(s, p) <==> x in s && p(x)
  {
    if s != [] {
      FilterMember(s[..|s| - 1], p, x);
      assert s == s[..|s| - 1] + [s[|s| - 1]];
    }
  }

  lemma {:induction false} FilterConcat<T>(s: seq<T>, t: seq<T>, p: T -> bool)
    ensures Filter(s + t, p) == Filter(s, p) + Filter(t, p)
  {
    if t == [] {
      assert s + t == s;
    } else {
      FilterConcat(s, t[..|t| - 1], p);
      assert (s + t)[..|s + t| - 1] == s + t[..|t| - 1];
    }
  }

  lemma {:induction false} FilterCong<T>(s: seq<T>, p: T -> bool, q: T -> bool)
    requires forall x | x in s :: p(x) == q(x)
    ensures Filter(s, p) == Filter(s, q)
  {
    if s != [] {
      FilterCong(s[..|s| - 1], p, q);
    }
  }

  lemma {:induction false} FilterNone<T>(s: seq<T>, p: T -> bool)
    requires forall x | x in s :: !p(x)
    ensures Filter(s, p) == []
  {
    if s != [] {
      FilterNone(s[..|s| - 1], p);
      assert !p(s[|s| - 1]);
    }
  }

  lemma {:induction false} FilterAll<T>(s: seq<T>, p: T -> bool)
    requires forall x | x in s :: p(x)
    ensures Filter(s, p) == s
  {
    if s != [] {
      FilterAll(s[..|s| - 1], p);
      assert p(s[|s| - 1]);
      assert s == s[..|s| - 1] + [s[|s| - 1]];
    }
  }

  lemma {:induction false} SumFilter<T>(s: seq<T>, p: T -> bool, f: T -> int, g: T -> int)
    requires forall x | x in s :: g(x) == if p(x) then f(x) else 0
    ensures Sum(Filter(s, p), f) == Sum(s, g)
  {
    if s != [] {
      var r := s[..|s| - 1];
      SumFilter(r, p, f, g);
      if p(s[|s| - 1]) {
        SumAppend(Filter(r, p), s[|s| - 1], f);
      } else {
        assert Filter(s, p) == Filter(r, p);
      }
    }
  }

  function Min(a: int, b: int): int {
    if a <= b then a else b
  }

  function Max(a: int, b: int): int {
    if a >= b then a else b
  }
}
