/** The cast to e4m3 (OCP Microscaling Formats v1.0, section 5.3.1), by what rounding to nearest
    promises, and what it means for FP8 block quantisation: an error bound, and that quantising
    what was dequantised changes nothing. */
module Fp8Cast {
  import opened Index
  import opened Sums
  import opened Fp4
  import opened Fp8Blocks
  import MoeKernel

  ghost function Grid(n: nat, k: int): real { n as real * Pow2(k) }

  /** The values of e4m3: four significant bits, exponents from the subnormal -9 up. */
  ghost predicate IsE4M3(x: real)
  {
    Abs(x) <= FP8_E4M3_MAX && exists n: nat, k: int :: n <= 15 && -9 <= k <= 5 && Abs(x) == Grid(n, k)
  }

  /** The value of exponent and mantissa fields. */
  function Magnitude(e: nat, m: nat): real
  {
    if e == 0 then m as real / 512.0 else (8 + m) as real / 8.0 * Pow2(e - 7)
  }

  lemma FieldsAreE4M3(e: nat, m: nat)
    requires e < 16 && m < 8 && !(e == 15 && m == 7)
    ensures IsE4M3(Magnitude(e, m)) && IsE4M3(-Magnitude(e, m))
  {
    SmallPowers();
    hide Pow2;
    var n, k := if e == 0 then m else 8 + m, if e == 0 then -9 else e - 10;
    if e > 0 { EighthOf(e); }
    assert Magnitude(e, m) == Grid(n, k);
    GridBelow(n, k);
    assert Abs(Magnitude(e, m)) == Grid(n, k) == Abs(-Magnitude(e, m));
  }

  lemma NotNan(b: bv8)
    requires b & 0x7F != 0x7F
    ensures !((b >> 3) & 0x0F == 15 && b & 0x07 == 7)
  {
  }

  /** Every byte that is not a NaN stands for one of them. */
  lemma BytesAreE4M3(b: bv8)
    requires b & 0x7F != 0x7F
    ensures IsE4M3(MoeKernel.E4M3(b))
  {
    NotNan(b);
    hide IsE4M3;
    var e, m := ((b >> 3) & 0x0F) as int, (b & 0x07) as int;
    assert MoeKernel.E4M3(b) == if b & 0x80 != 0 then -Magnitude(e, m) else Magnitude(e, m);
    FieldsAreE4M3(e, m);
  }

  lemma SmallPowers()
    ensures Pow2(-9) == 1.0 / 512.0 && Pow2(-10) == 1.0 / 1024.0 && Pow2(-6) == 1.0 / 64.0 && Pow2(5) == 32.0
  {
    assert Pow2(-3) == 0.125;
    assert Pow2(-6) == 0.125 * Pow2(-3);
  }

  lemma EighthOf(e: int)
    ensures Pow2(e - 7) == 8.0 * Pow2(e - 10)
  {
    hide Pow2;
    Pow2Step(e - 10);
    Pow2Step(e - 9);
    Pow2Step(e - 8);
  }

  /** A grid value below the top of its exponent is in range. */
  lemma GridBelow(n: nat, k: int)
    requires k <= 5 && n <= (if k < 5 then 15 else 14)
    ensures 0.0 <= Grid(n, k) <= FP8_E4M3_MAX
  {
    SmallPowers();
    hide Pow2;
    if k < 5 {
      Pow2Step(k);
      if k < 4 { Pow2Mono(k + 1, 5); }
      Times(n as real, 15.0, Pow2(k));
    }
  }

  // ---- rounding to nearest ------------------------------------------------

  /** In range, the cast yields a value that no other one is nearer than. */
  ghost predicate Rounds(cast: real -> real)
  {
    forall x :: Abs(x) <= FP8_E4M3_MAX ==>
      IsE4M3(cast(x)) && forall v :: IsE4M3(v) ==> Abs(cast(x) - x) <= Abs(v - x)
  }

  /** The values in a list: 16 steps at each of 15 exponents, with both signs. */
  ghost function Listed(i: nat): real
    requires i < 480
  {
    var v := Grid(i / 2 % 16, i / 32 - 9);
    if v > FP8_E4M3_MAX then 0.0 else if i % 2 == 0 then v else -v
  }

  lemma ListedIsE4M3(i: nat)
    requires i < 480
    ensures IsE4M3(Listed(i))
  {
    hide Grid;
    var v := Grid(i / 2 % 16, i / 32 - 9);
    GridSign(i / 2 % 16, i / 32 - 9);
    Zero();
    if v <= FP8_E4M3_MAX { assert Abs(Listed(i)) == v; }
  }

  lemma GridSign(n: nat, k: int)
    ensures Grid(n, k) >= 0.0
  {
    hide Pow2;
    Times(0.0, n as real, Pow2(k));
  }

  lemma AllListed(v: real) returns (i: nat)
    requires IsE4M3(v)
    ensures i < 480 && Listed(i) == v
  {
    var n: nat, k: int :| n <= 15 && -9 <= k <= 5 && Abs(v) == Grid(n, k);
    hide Grid;
    i := 32 * (k + 9) + 2 * n + if v < 0.0 then 1 else 0;
    assert i / 2 % 16 == n && i / 32 - 9 == k;
  }

  /** The first of the first n values that is nearest to x. */
  ghost function NearestOf(x: real, n: nat): (i: nat)
    requires 1 <= n <= 480
    ensures i < n && forall j :: 0 <= j < n ==> Abs(Listed(i) - x) <= Abs(Listed(j) - x)
  {
    if n == 1 then 0 else
      var i := NearestOf(x, n - 1);
      if Abs(Listed(n - 1) - x) < Abs(Listed(i) - x) then n - 1 else i
  }

  ghost function Nearest8(x: real): real { Listed(NearestOf(x, 480)) }

  lemma NearestOfAll(x: real, v: real)
    requires IsE4M3(v)
    ensures IsE4M3(Nearest8(x)) && Abs(Nearest8(x) - x) <= Abs(v - x)
  {
    hide IsE4M3, Listed, Abs, NearestOf;
    ListedIsE4M3(NearestOf(x, 480));
    var i := AllListed(v);
    assert Abs(Listed(NearestOf(x, 480)) - x) <= Abs(Listed(i) - x);
  }

  ghost function NearestCast(): real -> real { x => Nearest8(x) }

  /** There is such a cast. */
  lemma SomeCastRounds()
    ensures Rounds(NearestCast())
  {
    hide IsE4M3, Abs, Nearest8;
    var cast := NearestCast();
    Zero();
    forall x | Abs(x) <= FP8_E4M3_MAX
      ensures IsE4M3(cast(x)) && forall v :: IsE4M3(v) ==> Abs(cast(x) - x) <= Abs(v - x)
    {
      NearestOfAll(x, 0.0);
      forall v | IsE4M3(v) ensures Abs(cast(x) - x) <= Abs(v - x) { NearestOfAll(x, v); }
    }
  }

  lemma CastExact(cast: real -> real, x: real)
    requires Rounds(cast) && IsE4M3(x)
    ensures cast(x) == x
  {
    hide IsE4M3, Rounds;
    WithinRange(x);
    Nearer(cast, x, x);
  }

  lemma WithinRange(x: real)
    requires IsE4M3(x)
    ensures Abs(x) <= FP8_E4M3_MAX
  {
  }

  lemma Nearer(cast: real -> real, x: real, v: real)
    requires Rounds(cast) && Abs(x) <= FP8_E4M3_MAX && IsE4M3(v)
    ensures IsE4M3(cast(x)) && Abs(cast(x) - x) <= Abs(v - x)
  {
    hide IsE4M3, Abs;
  }

  /** Some multiple of p is at most half of p away. */
  lemma NearMultiple(x: real, p: real) returns (n: nat)
    requires x >= 0.0 && p > 0.0
    ensures Abs(n as real * p - x) <= p / 2.0
  {
    var q := x / p;
    assert q * p == x;
    if q < 0.0 { Times(q, 0.0, p); }
    var f := q.Floor;
    n := if q - f as real <= 0.5 then f else f + 1;
    var d := n as real - q;
    assert n as real * p - x == d * p;
    Times(d, 0.5, p);
    Times(-0.5, d, p);
  }

  /** One multiple near x and one beyond it, in both directions. */
  lemma AtMost(n: nat, k: nat, x: real, p: real)
    requires p > 0.0 && Abs(n as real * p - x) <= p / 2.0 && x <= k as real * p
    ensures n <= k
  {
    var a, b := n as real, k as real;
    var np, kp := a * p, b * p;
    assert np - x <= p / 2.0;
    assert np <= kp + p / 2.0;
    Squeeze(a, b, p, np, kp);
  }

  lemma AtLeast(n: nat, k: nat, x: real, p: real)
    requires p > 0.0 && Abs(n as real * p - x) <= p / 2.0 && k as real * p <= x
    ensures k <= n
  {
    var a, b := n as real, k as real;
    var np, kp := a * p, b * p;
    assert x - np <= p / 2.0;
    assert kp <= np + p / 2.0;
    Squeeze(b, a, p, kp, np);
  }

  lemma Squeeze(a: real, b: real, p: real, ap: real, bp: real)
    requires p > 0.0 && ap == a * p && bp == b * p && ap <= bp + p / 2.0
    ensures a <= b + 0.5
  {
    HalfMore(b, p);
    Cancel(a, b + 0.5, p);
  }

  lemma HalfMore(b: real, p: real)
    ensures (b + 0.5) * p == b * p + p / 2.0
  {
  }

  /** The exponent whose eight to sixteen steps x lies between. */
  lemma {:induction false} Binade(x: real, k: int) returns (j: int)
    requires -9 <= k <= 5 && Pow2(-6) <= x < 16.0 * Pow2(k)
    ensures -9 <= j <= k && 8.0 * Pow2(j) <= x < 16.0 * Pow2(j)
    decreases k + 9
  {
    hide Pow2;
    if 8.0 * Pow2(k) <= x {
      j := k;
    } else {
      Pow2Step(k - 1);
      if k == -9 { EighthOf(1); }
      j := Binade(x, k - 1);
    }
  }

  /** An e4m3 value is within a sixteenth of x, or half the smallest step. */
  lemma NearValue(x: real) returns (v: real)
    requires 0.0 <= x <= FP8_E4M3_MAX
    ensures v >= 0.0 && IsE4M3(v) && Abs(v - x) <= Max(Pow2(-10), x / 16.0)
  {
    SmallPowers();
    hide Pow2, IsE4M3;
    if x < Pow2(-6) {
      var n := NearMultiple(x, Pow2(-9));
      AtMost(n, 8, x, Pow2(-9));
      GridIsE4M3(n, -9);
      v := Grid(n, -9);
    } else {
      var k := Binade(x, 5);
      v := NearInBinade(x, k);
    }
  }

  lemma GridIsE4M3(n: nat, k: int)
    requires -9 <= k <= 5 && n <= (if k < 5 then 15 else 14)
    ensures Grid(n, k) >= 0.0 && IsE4M3(Grid(n, k))
  {
    hide Grid;
    GridBelow(n, k);
    assert Abs(Grid(n, k)) == Grid(n, k);
  }

  lemma NearInBinade(x: real, k: int) returns (v: real)
    requires -9 <= k <= 5 && 8.0 * Pow2(k) <= x < 16.0 * Pow2(k) && x <= FP8_E4M3_MAX
    ensures v >= 0.0 && IsE4M3(v) && Abs(v - x) <= x / 16.0
  {
    SmallPowers();
    hide Pow2, IsE4M3;
    var p := Pow2(k);
    var n := NearMultiple(x, p);
    AtLeast(n, 8, x, p);
    AtMost(n, 16, x, p);
    if k == 5 { AtMost(n, 14, x, p); }
    v := Grid(n, k);
    assert v == n as real * p;
    assert Abs(v - x) <= p / 2.0 && p / 2.0 <= x / 16.0;
    if n == 16 {
      Pow2Step(k);
      assert v == Grid(8, k + 1);
      GridIsE4M3(8, k + 1);
    } else {
      GridIsE4M3(n, k);
    }
  }

  /** The cast is off by at most a sixteenth of the value, or half the smallest step. */
  lemma CastError(cast: real -> real, x: real)
    requires Rounds(cast) && Abs(x) <= FP8_E4M3_MAX
    ensures Abs(cast(x) - x) <= Max(Pow2(-10), Abs(x) / 16.0)
  {
    hide Pow2, IsE4M3;
    var v := NearValue(Abs(x));
    Negated(v);
    var u := if x < 0.0 then -v else v;
    assert Abs(u - x) == Abs(v - Abs(x));
    Nearer(cast, x, u);
  }

  lemma Negated(v: real)
    requires IsE4M3(v)
    ensures IsE4M3(-v)
  {
    assert Abs(-v) == Abs(v);
  }

  /** e4m3 is closed under doubling up to 448. */
  lemma Doubled8(x: real)
    requires IsE4M3(x) && Abs(2.0 * x) <= FP8_E4M3_MAX
    ensures IsE4M3(2.0 * x)
  {
    SmallPowers();
    hide Pow2;
    var n: nat, k: int :| n <= 15 && -9 <= k <= 5 && Abs(x) == Grid(n, k);
    Pow2Step(k);
    assert Abs(2.0 * x) == 2.0 * Abs(x);
    if k < 5 {
      assert Abs(2.0 * x) == Grid(n, k + 1);
    } else {
      assert Abs(2.0 * x) == Grid(2 * n, 5);
    }
  }

  /** q under scale 2^e. */
  ghost function Under(q: real, e: int): real { q * Pow2(e) }

  /** q under scale 2^e is an e4m3 value under any smaller scale that it fits. */
  lemma {:induction false} Rescaled8(q: real, e: int, f: int) returns (r: real)
    requires f <= e && IsE4M3(q) && Abs(Under(q, e)) <= FP8_E4M3_MAX * Pow2(f)
    ensures IsE4M3(r) && Under(r, f) == Under(q, e)
    decreases e - f
  {
    hide Pow2, IsE4M3, Abs, Under;
    if e == f {
      r := q;
    } else {
      Halved(q, e, f);
      Doubled8(q);
      r := Rescaled8(2.0 * q, e - 1, f);
    }
  }

  lemma Halved(q: real, e: int, f: int)
    requires f < e && Abs(Under(q, e)) <= FP8_E4M3_MAX * Pow2(f)
    ensures Under(2.0 * q, e - 1) == Under(q, e) && Abs(2.0 * q) <= FP8_E4M3_MAX
  {
    hide Pow2;
    Pow2Step(e - 1);
    if f < e - 1 { Pow2Mono(f, e - 1); }
    var x, h := 2.0 * q, Pow2(e - 1);
    assert q * Pow2(e) == x * h;
    InRange(x * h, h, FP8_E4M3_MAX);
    Quotient(x, h);
  }

  // ---- blocks -------------------------------------------------------------

  /** The dequantised weight, quantised and dequantised once more. */
  ghost function RoundTrip(m: seq<real>, s: Shape, cast: real -> real): (v: seq<real>)
    requires Blocked(m, s)
    ensures Blocked(v, s)
  {
    Dequantise(Quantise(m, s, cast), Exponents(m, s), s)
  }

  /** The exponent of block g, which the floor of the scale keeps from below -99. */
  lemma BlockExponentOf(m: seq<real>, s: Shape, g: int) returns (e: int)
    requires Blocked(m, s) && 0 <= g < s.a * s.c
    ensures -99 <= e <= 127 && Scale(Exponents(m, s), g) == Pow2(e)
    ensures e == Exponent(Max(AbsMax(BlockSlice(m, s, g)) / FP8_E4M3_MAX, SCALE_FLOOR))
  {
    hide BlockSlice, Pow2, AbsMax, Exponent;
    FloorExponent();
    e := Exponent(Max(AbsMax(BlockSlice(m, s, g)) / FP8_E4M3_MAX, SCALE_FLOOR));
  }

  /** Entry (w, x, y, z) after a round trip is an e4m3 value under its block's scale. */
  lemma EntryIsScaled(m: seq<real>, s: Shape, cast: real -> real, w: int, x: int, y: int, z: int, e: int)
      returns (q: real)
    requires Blocked(m, s) && s.Has(w, x, y, z) && Rounds(cast)
    requires Scale(Exponents(m, s), w * s.c + y) == Pow2(e)
    ensures 0 <= s.Position(w, x, y, z) < |m|
    ensures IsE4M3(q) && RoundTrip(m, s, cast)[s.Position(w, x, y, z)] == Under(q, e)
  {
    hide Pow2, IsE4M3, Scale, Exponents, Quantise, Dequantise;
    RoundTripElementwise(m, s, cast, w, x, y, z);
    var c := Clamp(m[s.Position(w, x, y, z)] / Pow2(e), -FP8_E4M3_MAX, FP8_E4M3_MAX);
    assert Abs(c) <= FP8_E4M3_MAX;
    hide Clamp;
    q := cast(c);
    Nearer(cast, c, 0.0) by { Zero(); }
  }

  lemma Zero()
    ensures IsE4M3(0.0)
  {
    assert Grid(0, 0) == 0.0;
  }

  /** A bound for all entries of a square bounds the maximum taken over it. */
  lemma SliceBound(v: seq<real>, s: Shape, w: int, y: int, bound: real)
    requires Blocked(v, s) && 0 <= w < s.a && 0 <= y < s.c && bound >= 0.0
    requires forall x, z :: s.Has(w, x, y, z) ==>
      0 <= s.Position(w, x, y, z) < |v| && Abs(v[s.Position(w, x, y, z)]) <= bound
    ensures 0 <= w * s.c + y < s.a * s.c && AbsMax(BlockSlice(v, s, w * s.c + y)) <= bound
  {
    Inside(s.a, s.c, w, y);
    var slice := BlockSlice(v, s, w * s.c + y);
    SliceLength(v, s, w * s.c + y);
    hide BlockSlice, AbsMax, Blocked;
    forall k: nat | k < |slice| ensures Abs(slice[k]) <= bound {
      AllOfSquare(v, s, w, y, k);
      BlockSliceAt(v, s, w, k / s.d, y, k % s.d);
    }
  }

  lemma SliceLength(v: seq<real>, s: Shape, g: int)
    requires Blocked(v, s) && 0 <= g < s.a * s.c
    ensures |BlockSlice(v, s, g)| == s.b * s.d
  {
    Inside(s.a * s.c, s.b * s.d, g, 0);
    assert (g + 1) * (s.b * s.d) == g * (s.b * s.d) + s.b * s.d;
  }

  lemma AllOfSquare(v: seq<real>, s: Shape, w: int, y: int, k: nat)
    requires Blocked(v, s) && 0 <= w < s.a && 0 <= y < s.c && k < s.b * s.d
    ensures s.d > 0 && s.Has(w, k / s.d, y, k % s.d) && k == k / s.d * s.d + k % s.d
  {
    assert s.d > 0 by { NoColumns(s.b, s.d); }
    Decompose(s.b, s.d, k);
  }

  lemma NoColumns(b: int, d: nat)
    requires b * d > 0
    ensures d > 0
  {
  }

  /** The block's exponent does not grow from one round trip to the next. */
  lemma ExponentFalls(m: seq<real>, s: Shape, cast: real -> real, w: int, y: int, e: int, f: int)
    requires Blocked(m, s) && 0 <= w < s.a && 0 <= y < s.c && Rounds(cast)
    requires 0 <= w * s.c + y < s.a * s.c && -99 <= e <= 127 && Scale(Exponents(m, s), w * s.c + y) == Pow2(e)
    requires var v := RoundTrip(m, s, cast);
      f == Exponent(Max(AbsMax(BlockSlice(v, s, w * s.c + y)) / FP8_E4M3_MAX, SCALE_FLOOR))
    ensures f <= e && AbsMax(BlockSlice(RoundTrip(m, s, cast), s, w * s.c + y)) <= FP8_E4M3_MAX * Pow2(f)
  {
    hide Pow2, BlockSlice, AbsMax, Exponents, Scale, RoundTrip, Rounds, Blocked, IsE4M3, Exponent, Abs;
    var v := RoundTrip(m, s, cast);
    forall x, z | s.Has(w, x, y, z)
      ensures 0 <= s.Position(w, x, y, z) < |v| && Abs(v[s.Position(w, x, y, z)]) <= FP8_E4M3_MAX * Pow2(e)
    {
      EntryBound(m, s, cast, w, x, y, z, e);
    }
    SliceBound(v, s, w, y, FP8_E4M3_MAX * Pow2(e));
    FloorExponent();
    if -99 < e { Pow2Mono(-99, e); }
    ExponentIsLeast(Max(AbsMax(BlockSlice(v, s, w * s.c + y)) / FP8_E4M3_MAX, SCALE_FLOOR), e);
  }

  lemma EntryBound(m: seq<real>, s: Shape, cast: real -> real, w: int, x: int, y: int, z: int, e: int)
    requires Blocked(m, s) && s.Has(w, x, y, z) && Rounds(cast) && Scale(Exponents(m, s), w * s.c + y) == Pow2(e)
    ensures 0 <= s.Position(w, x, y, z) < |RoundTrip(m, s, cast)|
    ensures Abs(RoundTrip(m, s, cast)[s.Position(w, x, y, z)]) <= FP8_E4M3_MAX * Pow2(e)
  {
    hide Pow2, Exponents, Scale, RoundTrip, Rounds, Blocked, IsE4M3, Abs, Under;
    SameLength(m, s, cast);
    var q := EntryIsScaled(m, s, cast, w, x, y, z, e);
    WithinRange(q);
    UnderBound(q, e);
  }

  lemma SameLength(m: seq<real>, s: Shape, cast: real -> real)
    requires Blocked(m, s)
    ensures |RoundTrip(m, s, cast)| == |m|
  {
  }

  lemma UnderBound(q: real, e: int)
    requires Abs(q) <= FP8_E4M3_MAX
    ensures Abs(Under(q, e)) <= FP8_E4M3_MAX * Pow2(e)
  {
    hide Pow2;
    Times(q, FP8_E4M3_MAX, Pow2(e));
    Times(-q, FP8_E4M3_MAX, Pow2(e));
  }

  /** What a round trip makes of an entry a in a block of scale p. */
  ghost function Returned(cast: real -> real, a: real, p: real): real
    requires p > 0.0
  {
    cast(Clamp(a / p, -FP8_E4M3_MAX, FP8_E4M3_MAX)) * p
  }

  lemma EntryReturned(v: seq<real>, s: Shape, cast: real -> real, w: int, x: int, y: int, z: int)
    requires Blocked(v, s) && s.Has(w, x, y, z)
    ensures 0 <= s.Position(w, x, y, z) < |v| == |RoundTrip(v, s, cast)|
    ensures RoundTrip(v, s, cast)[s.Position(w, x, y, z)]
         == Returned(cast, v[s.Position(w, x, y, z)], Scale(Exponents(v, s), w * s.c + y))
  {
    hide Exponents, Scale, Quantise, Dequantise, Clamp;
    RoundTripElementwise(v, s, cast, w, x, y, z);
  }

  lemma ReturnsExact(cast: real -> real, r: real, p: real, a: real)
    requires Rounds(cast) && IsE4M3(r) && p > 0.0 && a == r * p
    ensures Returned(cast, a, p) == a
  {
    hide IsE4M3, Rounds;
    Quotient(r, p);
    assert a / p == r;
    WithinRange(r);
    CastExact(cast, r);
  }

  lemma EntryBelowMax(v: seq<real>, s: Shape, w: int, x: int, y: int, z: int)
    requires Blocked(v, s) && s.Has(w, x, y, z)
    ensures 0 <= w * s.c + y < s.a * s.c && 0 <= s.Position(w, x, y, z) < |v|
    ensures Abs(v[s.Position(w, x, y, z)]) <= AbsMax(BlockSlice(v, s, w * s.c + y))
  {
    hide BlockSlice;
    BlockSliceAt(v, s, w, x, y, z);
  }

  /** Entry (w, x, y, z) comes back the same from a second round trip. */
  lemma EntrySettles(m: seq<real>, s: Shape, cast: real -> real, w: int, x: int, y: int, z: int)
    requires Blocked(m, s) && s.Has(w, x, y, z) && Rounds(cast)
    ensures 0 <= s.Position(w, x, y, z) < |m| == |RoundTrip(m, s, cast)|
    ensures var v := RoundTrip(m, s, cast); RoundTrip(v, s, cast)[s.Position(w, x, y, z)] == v[s.Position(w, x, y, z)]
  {
    hide Pow2, BlockSlice, AbsMax, Exponents, Scale, RoundTrip, IsE4M3, Rounds, Exponent, Returned, Abs, Blocked;
    var v, g := RoundTrip(m, s, cast), w * s.c + y;
    Inside(s.a, s.c, w, y);
    var e := BlockExponentOf(m, s, g);
    var f := BlockExponentOf(v, s, g);
    ExponentFalls(m, s, cast, w, y, e, f);
    var q := EntryIsScaled(m, s, cast, w, x, y, z, e);
    SameLength(m, s, cast);
    EntryBelowMax(v, s, w, x, y, z);
    EntryReturned(v, s, cast, w, x, y, z);
    SettlesAt(cast, q, e, f, v[s.Position(w, x, y, z)]);
  }

  lemma SettlesAt(cast: real -> real, q: real, e: int, f: int, a: real)
    requires Rounds(cast) && IsE4M3(q) && a == Under(q, e) && f <= e && Abs(a) <= FP8_E4M3_MAX * Pow2(f)
    ensures Returned(cast, a, Pow2(f)) == a
  {
    hide Pow2, IsE4M3, Rounds, Returned;
    var r := Rescaled8(q, e, f);
    ReturnsExact(cast, r, Pow2(f), a);
  }

  /** FP8 block quantisation is a projection on values, whatever the weights, for every cast that
      rounds to nearest. */
  lemma Projection8(m: seq<real>, s: Shape, cast: real -> real)
    requires Blocked(m, s) && Rounds(cast)
    ensures RoundTrip(RoundTrip(m, s, cast), s, cast) == RoundTrip(m, s, cast)
  {
    hide Rounds, Coords;
    var v := RoundTrip(m, s, cast);
    assert |v| == |m| == s.Size() && |RoundTrip(v, s, cast)| == |v|;
    hide RoundTrip;
    forall k | 0 <= k < |v| ensures RoundTrip(v, s, cast)[k] == v[k] {
      var (w, x, y, z) := Coords(s, k);
      EntrySettles(m, s, cast, w, x, y, z);
    }
  }

  /** Half the smallest step under scale p, or a sixteenth of a. */
  ghost function Off(a: real, p: real): real { Max(Pow2(-10) * p, Abs(a) / 16.0) }

  /** While the block maximum is at most 448 * 2^127, every entry comes back within a sixteenth of
      itself, or within 2^-10 of its block's scale. */
  lemma EntryError8(m: seq<real>, s: Shape, cast: real -> real, w: int, x: int, y: int, z: int)
    requires Blocked(m, s) && s.Has(w, x, y, z) && Rounds(cast)
    requires 0 <= w * s.c + y < s.a * s.c && AbsMax(BlockSlice(m, s, w * s.c + y)) <= FP8_E4M3_MAX * Pow2(127)
    ensures 0 <= s.Position(w, x, y, z) < |m|
    ensures var a := m[s.Position(w, x, y, z)];
      Abs(RoundTrip(m, s, cast)[s.Position(w, x, y, z)] - a)
      <= Off(a, Scale(Exponents(m, s), w * s.c + y))
  {
    hide Pow2, BlockSlice, AbsMax, Exponents, Scale, RoundTrip, IsE4M3, Rounds, Returned, Abs, Off, Clamp, Blocked;
    var g := w * s.c + y;
    ClampInactive(m, s, w, x, y, z);
    EntryReturned(m, s, cast, w, x, y, z);
    ReturnsNear(cast, m[s.Position(w, x, y, z)], Scale(Exponents(m, s), g));
  }

  lemma ReturnsNear(cast: real -> real, a: real, p: real)
    requires Rounds(cast) && p > 0.0 && Clamp(a / p, -FP8_E4M3_MAX, FP8_E4M3_MAX) == a / p
    ensures Abs(Returned(cast, a, p) - a) <= Off(a, p)
  {
    hide Pow2, IsE4M3, Rounds;
    var t := a / p;
    ClampRange(t);
    CastError(cast, t);
    hide Abs, Clamp;
    ErrorScales(cast(t), t, a, p, Returned(cast, a, p) - a);
  }

  lemma ClampRange(t: real)
    requires Clamp(t, -FP8_E4M3_MAX, FP8_E4M3_MAX) == t
    ensures Abs(t) <= FP8_E4M3_MAX
  {
  }

  lemma ErrorScales(c: real, t: real, a: real, p: real, y: real)
    requires p > 0.0 && t == a / p && Abs(c - t) <= Max(Pow2(-10), Abs(t) / 16.0) && y == c * p - a
    ensures Abs(y) <= Off(a, p)
  {
    hide Pow2;
    assert t * p == a;
    Distribute(c, t, p);
    AbsTimes(c - t, p, y);
    AbsTimes(t, p, a);
    BoundScales(Abs(c - t), Abs(t), Pow2(-10), p, Abs(y), Abs(a), Pow2(-10) * p);
  }

  lemma BoundScales(d: real, u: real, h: real, p: real, dp: real, up: real, hp: real)
    requires p > 0.0 && d <= Max(h, u / 16.0) && dp == d * p && up == u * p && hp == h * p
    ensures dp <= Max(hp, up / 16.0)
  {
    if d <= h {
      Times(d, h, p);
    } else {
      Times(d, u / 16.0, p);
      Sixteenth(u, p);
    }
  }

  lemma Distribute(c: real, t: real, p: real)
    ensures c * p - t * p == (c - t) * p
  {
  }

  lemma Sixteenth(t: real, p: real)
    ensures (t / 16.0) * p == t * p / 16.0
  {
  }

  lemma AbsTimes(x: real, p: real, y: real)
    requires p > 0.0 && y == x * p
    ensures Abs(y) == Abs(x) * p
  {
    var a := Abs(x);
    if x < 0.0 {
      Times(x, 0.0, p);
      assert a == -x;
      assert a * p == -y;
    } else {
      Times(0.0, x, p);
      assert a == x;
    }
  }
}
