/** Index arithmetic: how a reshape maps flat positions to coordinates, and sums of sizes. */
module Index {

  /** Elements that share one scale. */
  const BLOCK: nat := 32

  lemma MulLess(k: int, d: int)
    requires d > 0 && -d < k * d < d
    ensures k == 0
  {
    if k >= 1 { MulMono(1, k, d); }
    if k <= -1 { MulMono(k, -1, d); }
  }

  lemma NatProduct(a: nat, b: nat)
    ensures a * b >= 0
  {
  }

  lemma MulMono(a: int, b: int, d: int)
    requires d >= 0 && a <= b
    ensures a * d <= b * d
  {
  }

  /** Quotient and remainder are the only coordinates of a flat position. */
  lemma Coordinates(x: int, d: int, q: int, r: int)
    requires d > 0 && 0 <= r < d && x == q * d + r
    ensures x / d == q && x % d == r
  {
    var q2 := x / d;
    assert (q - q2) * d == x % d - r by { assert x == q2 * d + x % d; }
    MulLess(q - q2, d);
  }

  /** Position b * d + j is inside a flat array of n blocks of d elements. */
  lemma Inside(n: int, d: int, b: int, j: int)
    requires 0 <= b < n && 0 <= j < d
    ensures 0 <= b * d <= b * d + j < (b + 1) * d <= n * d
  {
    MulMono(0, b, d);
    MulMono(b + 1, n, d);
    assert (b + 1) * d == b * d + d;
  }

  /** Every position of the flat array has coordinates. */
  lemma Decompose(n: int, d: int, x: int)
    requires 0 <= x < n * d && d > 0
    ensures 0 <= x / d < n && 0 <= x % d < d && x == x / d * d + x % d
  {
    var q := x / d;
    assert x == q * d + x % d;
    if q >= n { MulMono(n, q, d); }
    if q < 0 { MulMono(q, -1, d); }
  }

  /** Sum of a list of sizes. */
  function Total(sizes: seq<nat>): nat
  {
    if sizes == [] then 0 else Total(sizes[..|sizes| - 1]) + sizes[|sizes| - 1]
  }

  lemma TakeTotal(s: seq<nat>, k: nat)
    requires k < |s|
    ensures Total(s[..k + 1]) == Total(s[..k]) + s[k]
  {
    assert s[..k + 1][..k] == s[..k];
  }

  lemma {:induction false} TotalMono(sizes: seq<nat>, i: nat, j: nat)
    requires i <= j <= |sizes|
    ensures Total(sizes[..i]) <= Total(sizes[..j])
  {
    if i < j {
      TotalMono(sizes, i, j - 1);
      TakeTotal(sizes, j - 1);
    }
  }

  lemma EmptyTotal()
    ensures Total([]) == 0
  {
  }
}
