/** Finite sums, written front to back, in which the meanings of the kernels are spelled out. */
module Sums {

  // f(lo) + ... + f(hi - 1).
  function Sum(lo: int, hi: int, f: int -> real): real
    decreases hi - lo
  {
    if hi <= lo then 0.0 else f(lo) + Sum(lo + 1, hi, f)
  }

  lemma {:induction false} SumLast(lo: int, hi: int, f: int -> real)
    requires lo < hi
    ensures Sum(lo, hi, f) == Sum(lo, hi - 1, f) + f(hi - 1)
    decreases hi - lo
  {
    if lo + 1 < hi {
      SumLast(lo + 1, hi, f);
    } else {
      assert Sum(lo + 1, hi, f) == 0.0 && Sum(lo, hi - 1, f) == 0.0;
    }
  }

  lemma {:induction false} SumSame(lo: int, hi: int, f: int -> real, g: int -> real)
    requires forall i :: lo <= i < hi ==> f(i) == g(i)
    ensures Sum(lo, hi, f) == Sum(lo, hi, g)
    decreases hi - lo
  {
    if lo < hi {
      SumSame(lo + 1, hi, f, g);
    }
  }

  lemma {:induction false} SumSplit(lo: int, mid: int, hi: int, f: int -> real)
    requires lo <= mid <= hi
    ensures Sum(lo, hi, f) == Sum(lo, mid, f) + Sum(mid, hi, f)
    decreases mid - lo
  {
    if lo < mid {
      SumSplit(lo + 1, mid, hi, f);
    }
  }

  // The same over integers.
  function Count(lo: int, hi: int, f: int -> int): int
    decreases hi - lo
  {
    if hi <= lo then 0 else f(lo) + Count(lo + 1, hi, f)
  }

  // n equal terms.
  lemma {:induction false} CountConstant(lo: int, hi: int, f: int -> int, c: int)
    requires lo <= hi && forall i :: lo <= i < hi ==> f(i) == c
    ensures Count(lo, hi, f) == (hi - lo) * c
    decreases hi - lo
  {
    if lo < hi {
      CountConstant(lo + 1, hi, f, c);
      assert (hi - lo) * c == c + (hi - lo - 1) * c;
    }
  }

  lemma {:induction false} CountLast(lo: int, hi: int, f: int -> int)
    requires lo < hi
    ensures Count(lo, hi, f) == Count(lo, hi - 1, f) + f(hi - 1)
    decreases hi - lo
  {
    if lo + 1 < hi {
      CountLast(lo + 1, hi, f);
    } else {
      assert Count(lo + 1, hi, f) == 0 && Count(lo, hi - 1, f) == 0;
    }
  }

  // Bytes of `tokens` rows with so many heads, element by element.
  function Elements(tokens: nat, heads: nat, width: nat, bytes: int): int {
    Count(0, tokens, t => Count(0, heads, h => Count(0, width, d => bytes)))
  }

  lemma ElementsAre(tokens: nat, heads: nat, width: nat, bytes: int)
    ensures Elements(tokens, heads, width, bytes) == tokens * (heads * (width * bytes))
  {
    CountConstant(0, width, d => bytes, bytes);
    CountConstant(0, heads, h => Count(0, width, d => bytes), width * bytes);
    CountConstant(0, tokens, t => Count(0, heads, h => Count(0, width, d => bytes)), heads * (width * bytes));
  }

  lemma Reassociated(a: int, b: int, c: int, d: int)
    ensures a * (b * (c * d)) == a * b * c * d
  {
    assert b * (c * d) == b * c * d;
    assert a * (b * c * d) == a * (b * c) * d;
    assert a * (b * c) == a * b * c;
  }
}
