/** Finite sums of reals and real powers of two: the exact arithmetic in which the
    floating-point code of the repository is stated. */
module Sums {

  /** f(0) + ... + f(n - 1). */
  function Sum(n: nat, f: int -> real): real
  {
    if n == 0 then 0.0 else Sum(n - 1, f) + f(n - 1)
  }

  lemma {:induction false} SumExt(n: nat, f: int -> real, g: int -> real)
    requires forall i :: 0 <= i < n ==> f(i) == g(i)
    ensures Sum(n, f) == Sum(n, g)
  {
    if n > 0 { SumExt(n - 1, f, g); }
  }

  lemma {:induction false} SumZero(n: nat, f: int -> real)
    requires forall i :: 0 <= i < n ==> f(i) == 0.0
    ensures Sum(n, f) == 0.0
  {
    if n > 0 { SumZero(n - 1, f); }
  }

  lemma {:induction false} SumAdd(n: nat, f: int -> real, g: int -> real)
    ensures Sum(n, i => f(i) + g(i)) == Sum(n, f) + Sum(n, g)
  {
    if n > 0 { SumAdd(n - 1, f, g); }
  }

  lemma {:induction false} SumScale(n: nat, f: int -> real, c: real)
    ensures Sum(n, i => f(i) * c) == Sum(n, f) * c
  {
    if n > 0 { SumScale(n - 1, f, c); }
  }

  /** Only index k contributes. */
  lemma {:induction false} SumSingle(n: nat, f: int -> real, k: nat)
    requires k < n && forall i :: 0 <= i < n && i != k ==> f(i) == 0.0
    ensures Sum(n, f) == f(k)
  {
    if k == n - 1 { SumZero(n - 1, f); } else { SumSingle(n - 1, f, k); }
  }

  /** The two orders of summation agree. */
  lemma {:induction false} SumSwap(n: nat, m: nat, f: (int, int) -> real)
    ensures Sum(n, i => Sum(m, j => f(i, j))) == Sum(m, j => Sum(n, i => f(i, j)))
  {
    if n == 0 {
      SumZero(m, j => Sum(n, i => f(i, j)));
    } else {
      SumSwap(n - 1, m, f);
      SumAdd(m, j => Sum(n - 1, i => f(i, j)), j => f(n - 1, j));
      SumExt(m, j => Sum(n, i => f(i, j)), j => (j => Sum(n - 1, i => f(i, j)))(j) + (j => f(n - 1, j))(j));
    }
  }

  lemma {:induction false} SumSplit(n: nat, m: nat, f: int -> real)
    ensures Sum(n + m, f) == Sum(n, f) + Sum(m, i => f(n + i))
  {
    if m > 0 { SumSplit(n, m - 1, f); }
  }

  /** A sum over a blocks of b consecutive indices is the sum over all a * b indices. */
  lemma {:induction false} SumBlocks(a: nat, b: nat, f: int -> real)
    ensures a * b >= 0
    ensures Sum(a * b, f) == Sum(a, i => Sum(b, j => f(i * b + j)))
  {
    if a > 0 {
      SumBlocks(a - 1, b, f);
      assert a * b == (a - 1) * b + b;
      SumSplit((a - 1) * b, b, f);
      SumExt(b, i => f((a - 1) * b + i), j => f((a - 1) * b + j));
    } else {
      assert a * b == 0;
    }
  }

  /** 2^e for any integer e. */
  function Pow2(e: int): (r: real)
    ensures r > 0.0
    decreases if e < 0 then -e else e
  {
    if e == 0 then 1.0 else if e > 0 then 2.0 * Pow2(e - 1) else Pow2(e + 1) / 2.0
  }

  lemma {:induction false} Pow2Step(e: int)
    ensures Pow2(e + 1) == 2.0 * Pow2(e)
  {
  }

  lemma Pow2Ten(e: int)
    ensures Pow2(e + 10) == 1024.0 * Pow2(e)
  {
    Pow2Step(e); Pow2Step(e + 1); Pow2Step(e + 2); Pow2Step(e + 3); Pow2Step(e + 4);
    Pow2Step(e + 5); Pow2Step(e + 6); Pow2Step(e + 7); Pow2Step(e + 8); Pow2Step(e + 9);
  }

  lemma {:induction false} Pow2Mono(a: int, b: int)
    requires a < b
    ensures Pow2(a) < Pow2(b)
    decreases b - a
  {
    Pow2Step(a);
    if a + 1 < b { Pow2Mono(a + 1, b); }
  }
}
