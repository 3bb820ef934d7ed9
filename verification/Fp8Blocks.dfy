/** FP8 block quantisation of an (out, in) weight by square blocks: the view / permute /
    reshape pipeline of quantize_fp8_block and dequantize_fp8_block on the flat row-major
    data. The cast to e4m3 is a parameter: any function from reals to reals. */
module Fp8Blocks {
  import opened Index
  import opened Sums
  import opened Fp4

  const FP8_E4M3_MAX: real := 448.0

  datatype Shape = Shape(a: nat, b: nat, c: nat, d: nat) {
    /** The number of elements. */
    function Size(): int { a * b * c * d }
    /** The shape after permute(0, 2, 1, 3). */
    function Permuted(): Shape { Shape(a, c, b, d) }
    /** Row-major position of coordinate (w, x, y, z). */
    function Position(w: int, x: int, y: int, z: int): int { ((w * b + x) * c + y) * d + z }
    predicate Has(w: int, x: int, y: int, z: int)
    {
      0 <= w < a && 0 <= x < b && 0 <= y < c && 0 <= z < d
    }
  }

  lemma PositionInside(s: Shape, w: int, x: int, y: int, z: int)
    requires s.Has(w, x, y, z)
    ensures 0 <= s.Position(w, x, y, z) < s.Size()
  {
    Inside(s.a, s.b, w, x);
    Inside(s.a * s.b, s.c, w * s.b + x, y);
    Inside(s.a * s.b * s.c, s.d, (w * s.b + x) * s.c + y, z);
  }

  /** The coordinates of a flat position. */
  ghost function Coords(s: Shape, k: int): (r: (int, int, int, int))
    requires 0 <= k < s.Size()
    ensures s.Has(r.0, r.1, r.2, r.3) && s.Position(r.0, r.1, r.2, r.3) == k
  {
    Unflatten(s, k);
    (k / s.d / s.c / s.b, k / s.d / s.c % s.b, k / s.d % s.c, k % s.d)
  }

  lemma Unflatten(s: Shape, k: int)
    requires 0 <= k < s.Size()
    ensures s.b > 0 && s.c > 0 && s.d > 0
    ensures s.Has(k / s.d / s.c / s.b, k / s.d / s.c % s.b, k / s.d % s.c, k % s.d)
    ensures s.Position(k / s.d / s.c / s.b, k / s.d / s.c % s.b, k / s.d % s.c, k % s.d) == k
  {
    AllPositive(s);
    Decompose(s.a * s.b * s.c, s.d, k);
    Decompose(s.a * s.b, s.c, k / s.d);
    Decompose(s.a, s.b, k / s.d / s.c);
  }

  lemma AllPositive(s: Shape)
    requires s.Size() > 0
    ensures s.b > 0 && s.c > 0 && s.d > 0
  {
  }

  lemma CoordsUnique(s: Shape, w: int, x: int, y: int, z: int)
    requires s.Has(w, x, y, z)
    ensures 0 <= s.Position(w, x, y, z) < s.Size()
    ensures Coords(s, s.Position(w, x, y, z)) == (w, x, y, z)
  {
    PositionInside(s, w, x, y, z);
    var k := s.Position(w, x, y, z);
    Coordinates(k, s.d, (w * s.b + x) * s.c + y, z);
    Coordinates(k / s.d, s.c, w * s.b + x, y);
    Coordinates(k / s.d / s.c, s.b, w, x);
  }

  lemma SizePermuted(s: Shape)
    ensures s.Permuted().Size() == s.Size() == s.a * (s.b * (s.c * s.d))
  {
  }

  /** permute(0, 2, 1, 3) followed by contiguous(): the new flat data. */
  ghost function Permute<T>(t: seq<T>, s: Shape): (u: seq<T>)
    requires |t| == s.Size()
    ensures |u| == s.Permuted().Size()
  {
    SizePermuted(s);
    seq(|t|, k requires 0 <= k < |t| =>
      SizePermuted(s);
      var r := Coords(s.Permuted(), k);
      PositionInside(s, r.0, r.2, r.1, r.3);
      t[s.Position(r.0, r.2, r.1, r.3)])
  }

  lemma PermuteAt<T>(t: seq<T>, s: Shape, w: int, x: int, y: int, z: int)
    requires |t| == s.Size() && s.Has(w, x, y, z)
    ensures 0 <= s.Position(w, x, y, z) < |t|
    ensures 0 <= s.Permuted().Position(w, y, x, z) < |Permute(t, s)|
    ensures Permute(t, s)[s.Permuted().Position(w, y, x, z)] == t[s.Position(w, x, y, z)]
  {
    hide Coords;
    PositionInside(s, w, x, y, z);
    CoordsUnique(s.Permuted(), w, y, x, z);
    SizePermuted(s);
  }

  /** Permuting back restores the layout. */
  lemma PermuteInverse<T>(t: seq<T>, s: Shape)
    requires |t| == s.Size()
    ensures |Permute(t, s)| == s.Permuted().Size() && Permute(Permute(t, s), s.Permuted()) == t
  {
    hide Coords, Permute;
    SizePermuted(s);
    SizePermuted(s.Permuted());
    assert s.Permuted().Permuted() == s;
    var u := Permute(Permute(t, s), s.Permuted());
    forall k | 0 <= k < |t| ensures u[k] == t[k] {
      var r := Coords(s, k);
      PermuteAt(t, s, r.0, r.1, r.2, r.3);
      PermuteAt(Permute(t, s), s.Permuted(), r.0, r.2, r.1, r.3);
    }
  }

  /** Apply f(block number, value) in the permuted layout, where each (b x d) block of the
      matrix is contiguous, and permute back. */
  ghost function PerBlock(t: seq<real>, s: Shape, f: (int, real) -> real): (u: seq<real>)
    requires |t| == s.Size() && s.b * s.d > 0
    ensures |u| == |t|
  {
    SizePermuted(s);
    SizePermuted(s.Permuted());
    var blocks := Permute(t, s);
    Permute(seq(|blocks|, k requires 0 <= k < |blocks| => f(k / (s.b * s.d), blocks[k])), s.Permuted())
  }

  /** Element (w, x, y, z) of the permuted layout lies in block w * c + y. */
  lemma BlockNumber(s: Shape, w: int, x: int, y: int, z: int)
    requires s.Has(w, x, y, z)
    ensures s.b * s.d > 0
    ensures s.Permuted().Position(w, y, x, z) == (w * s.c + y) * (s.b * s.d) + (x * s.d + z)
    ensures 0 <= x * s.d + z < s.b * s.d
    ensures s.Permuted().Position(w, y, x, z) / (s.b * s.d) == w * s.c + y
    ensures 0 <= w * s.c + y < s.a * s.c
  {
    Inside(s.b, s.d, x, z);
    Inside(s.a, s.c, w, y);
    var g := w * s.c + y;
    assert (g * s.b + x) * s.d + z == g * (s.b * s.d) + (x * s.d + z);
    Coordinates(s.Permuted().Position(w, y, x, z), s.b * s.d, g, x * s.d + z);
  }

  /** The whole pipeline is elementwise: entry (w, x, y, z), that is row w * b + x and column
      y * d + z of the matrix, is treated by f for block (w, y). */
  lemma PerBlockAt(t: seq<real>, s: Shape, f: (int, real) -> real, w: int, x: int, y: int, z: int)
    requires |t| == s.Size() && s.Has(w, x, y, z) && s.b * s.d > 0
    ensures 0 <= s.Position(w, x, y, z) < |t|
    ensures PerBlock(t, s, f)[s.Position(w, x, y, z)] == f(w * s.c + y, t[s.Position(w, x, y, z)])
  {
    hide Permute, Coords;
    SizePermuted(s);
    SizePermuted(s.Permuted());
    PermuteAt(t, s, w, x, y, z);
    var blocks := Permute(t, s);
    var mapped := seq(|blocks|, k requires 0 <= k < |blocks| => f(k / (s.b * s.d), blocks[k]));
    PermuteAt(mapped, s.Permuted(), w, y, x, z);
    BlockNumber(s, w, x, y, z);
  }

  // ---- the quantiser ------------------------------------------------------

  /** An (out, in) weight cut into square blocks. */
  ghost predicate Blocked(w: seq<real>, s: Shape)
  {
    |w| == s.Size() && s.b * s.d > 0
  }

  /** The contiguous elements of block g in the permuted layout. */
  ghost function BlockSlice(w: seq<real>, s: Shape, g: int): seq<real>
    requires Blocked(w, s) && 0 <= g < s.a * s.c
  {
    SizePermuted(s);
    Inside(s.a * s.c, s.b * s.d, g, 0);
    assert s.Size() == (s.a * s.c) * (s.b * s.d);
    Permute(w, s)[g * (s.b * s.d)..(g + 1) * (s.b * s.d)]
  }

  ghost function Exponents(w: seq<real>, s: Shape): seq<int>
    requires Blocked(w, s)
  {
    NatProduct(s.a, s.c);
    seq(s.a * s.c, g requires 0 <= g < s.a * s.c =>
      Exponent(Max(AbsMax(BlockSlice(w, s, g)) / FP8_E4M3_MAX, SCALE_FLOOR)))
  }

  ghost function Scale(e: seq<int>, g: int): (r: real) ensures r > 0.0 { if 0 <= g < |e| then Pow2(e[g]) else 1.0 }

  ghost function Quantise(w: seq<real>, s: Shape, cast: real -> real): (q: seq<real>)
    requires Blocked(w, s)
    ensures |q| == |w|
  {
    var e := Exponents(w, s);
    PerBlock(w, s, (g, v) => cast(Clamp(v / Scale(e, g), -FP8_E4M3_MAX, FP8_E4M3_MAX)))
  }

  ghost function Dequantise(q: seq<real>, e: seq<int>, s: Shape): (w: seq<real>)
    requires Blocked(q, s)
    ensures |w| == |q|
  {
    PerBlock(q, s, (g, v) => v * Scale(e, g))
  }

  /** Quantise then dequantise: entry (w, x, y, z) is divided by, cast, and multiplied by the
      scale of its own block (w, y) and no other, and comes back to its own place. */
  lemma RoundTripElementwise(m: seq<real>, s: Shape, cast: real -> real, w: int, x: int, y: int, z: int)
    requires Blocked(m, s) && s.Has(w, x, y, z)
    ensures 0 <= s.Position(w, x, y, z) < |m|
    ensures var p := Scale(Exponents(m, s), w * s.c + y);
            Dequantise(Quantise(m, s, cast), Exponents(m, s), s)[s.Position(w, x, y, z)]
            == cast(Clamp(m[s.Position(w, x, y, z)] / p, -FP8_E4M3_MAX, FP8_E4M3_MAX)) * p
  {
    hide PerBlock, Clamp, Scale, Exponents;
    var e := Exponents(m, s);
    PerBlockAt(m, s, (g, v) => cast(Clamp(v / Scale(e, g), -FP8_E4M3_MAX, FP8_E4M3_MAX)), w, x, y, z);
    PerBlockAt(Quantise(m, s, cast), s, (g, v) => v * Scale(e, g), w, x, y, z);
  }

  /** Block (w, y) of the permuted layout holds exactly the entries of that square. */
  lemma BlockSliceAt(m: seq<real>, s: Shape, w: int, x: int, y: int, z: int)
    requires Blocked(m, s) && s.Has(w, x, y, z)
    ensures 0 <= w * s.c + y < s.a * s.c && 0 <= s.Position(w, x, y, z) < |m|
    ensures |BlockSlice(m, s, w * s.c + y)| == s.b * s.d && 0 <= x * s.d + z < s.b * s.d
    ensures BlockSlice(m, s, w * s.c + y)[x * s.d + z] == m[s.Position(w, x, y, z)]
  {
    hide Permute, Coords;
    PermuteAt(m, s, w, x, y, z);
    BlockNumber(s, w, x, y, z);
    Inside(s.a * s.c, s.b * s.d, w * s.c + y, 0);
  }

  lemma ScaleReaches(m: seq<real>, s: Shape, g: int)
    requires Blocked(m, s) && 0 <= g < s.a * s.c && AbsMax(BlockSlice(m, s, g)) <= FP8_E4M3_MAX * Pow2(127)
    ensures Scale(Exponents(m, s), g) > 0.0
    ensures AbsMax(BlockSlice(m, s, g)) <= FP8_E4M3_MAX * Scale(Exponents(m, s), g)
  {
    hide BlockSlice, Pow2, AbsMax, Exponent;
    var floored := Max(AbsMax(BlockSlice(m, s, g)) / FP8_E4M3_MAX, SCALE_FLOOR);
    assert Scale(Exponents(m, s), g) == Pow2(Exponent(floored));
  }

  /** The scale of a block is no larger than it has to be: 448 scale units reach the block's maximum,
      and are less than twice that, unless the scale is at its floor 2^-99. */
  lemma ScaleIsTight(m: seq<real>, s: Shape, g: int)
    requires Blocked(m, s) && 0 <= g < s.a * s.c && AbsMax(BlockSlice(m, s, g)) <= 448.0 * Pow2(127)
    ensures var top, p := AbsMax(BlockSlice(m, s, g)), Scale(Exponents(m, s), g);
      && top <= 448.0 * p && (p == Pow2(-99) || 448.0 * p < 2.0 * top)
      && (top <= 448.0 * Pow2(-99) ==> p == Pow2(-99))
  {
    hide BlockSlice, Pow2, AbsMax, Exponent;
    ScaleReaches(m, s, g);
    FloorExponent();
    var top := AbsMax(BlockSlice(m, s, g));
    var floored := Max(top / FP8_E4M3_MAX, SCALE_FLOOR);
    var e := Exponent(floored);
    assert Scale(Exponents(m, s), g) == Pow2(e);
    Pow2Step(e - 1);
    if e > -99 {
      assert Pow2(e - 1) < floored;
      if e > -98 { Pow2Mono(-99, e - 1); }
    }
    if top <= 448.0 * Pow2(-99) { ExponentIsLeast(floored, -99); }
  }

  /** The clamp to 448 changes nothing while the block maximum is at most 448 * 2^127. */
  lemma ClampInactive(m: seq<real>, s: Shape, w: int, x: int, y: int, z: int)
    requires Blocked(m, s) && s.Has(w, x, y, z)
    requires 0 <= w * s.c + y < s.a * s.c && AbsMax(BlockSlice(m, s, w * s.c + y)) <= FP8_E4M3_MAX * Pow2(127)
    ensures 0 <= s.Position(w, x, y, z) < |m|
    ensures var p := Scale(Exponents(m, s), w * s.c + y);
            Clamp(m[s.Position(w, x, y, z)] / p, -FP8_E4M3_MAX, FP8_E4M3_MAX) == m[s.Position(w, x, y, z)] / p
  {
    hide BlockSlice, AbsMax, Scale, Exponents, Clamp, Abs, Pow2;
    var g := w * s.c + y;
    BlockSliceAt(m, s, w, x, y, z);
    ScaleReaches(m, s, g);
    var v := BlockSlice(m, s, g)[x * s.d + z];
    assert Abs(v) <= AbsMax(BlockSlice(m, s, g));
    ClampKeeps(v, Scale(Exponents(m, s), g));
  }

  lemma ClampKeeps(v: real, p: real)
    requires p > 0.0 && Abs(v) <= FP8_E4M3_MAX * p
    ensures Clamp(v / p, -FP8_E4M3_MAX, FP8_E4M3_MAX) == v / p
  {
    InRange(v, p, FP8_E4M3_MAX);
  }
}
