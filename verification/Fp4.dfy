/** Block quantisation to FP4 (OCP Microscaling Formats v1.0, section 5.3.3) with
    power-of-two E8M0 scales (section 5.4.1), as done by quantize_fp4_block and
    dequantize_fp4_block, over exact reals. One row of the weight at a time: every
    operation of the source acts on the last axis. */
module Fp4 {
  import opened Sums

  const FP4_MAX: real := 6.0
  /** Scales are clamped from below at 1e-30 before the exponent is taken. */
  const SCALE_FLOOR: real := 1.0 / 1000000000000000000000000000000.0

  type Code = c: int | 0 <= c < 16

  /** The e2m1 codebook: eight magnitudes, then the same magnitudes negated. */
  const FP4_TABLE: seq<real> :=
    [0.0, 0.5, 1.0, 1.5, 2.0, 3.0, 4.0, 6.0,
     0.0, -0.5, -1.0, -1.5, -2.0, -3.0, -4.0, -6.0]

  function Value(c: Code): (v: real)
    ensures -FP4_MAX <= v <= FP4_MAX
  {
    FP4_TABLE[c]
  }

  function Abs(x: real): real { if x < 0.0 then -x else x }

  function Max(x: real, y: real): real { if x < y then y else x }

  function Clamp(x: real, lo: real, hi: real): real
  {
    if x < lo then lo else if x > hi then hi else x
  }

  // ---- nearest code -------------------------------------------------------

  /** The first of the codes 0..k-1 at least distance from x (argmin keeps the first). */
  ghost function ArgMin(x: real, k: nat): (c: Code)
    requires 1 <= k <= 16
    ensures c < k
    ensures forall d: Code :: d < k ==> Abs(x - Value(c)) <= Abs(x - Value(d))
    ensures forall d: Code :: d < c ==> Abs(x - Value(c)) < Abs(x - Value(d))
  {
    if k == 1 then 0 else
      var c := ArgMin(x, k - 1);
      if Abs(x - Value(k - 1)) < Abs(x - Value(c)) then k - 1 else c
  }

  ghost function Nearest(x: real): Code { ArgMin(x, 16) }

  /** A value of the codebook is its own nearest code point. */
  lemma NearestExact(c: Code)
    ensures Value(Nearest(Value(c))) == Value(c)
  {
    assert Abs(Value(c) - Value(Nearest(Value(c)))) <= Abs(Value(c) - Value(c));
  }

  /** Inside [-6, 6] the nearest code is off by at most half the widest gap around x. */
  lemma NearestError(x: real)
    requires Abs(x) <= FP4_MAX
    ensures Abs(x - Value(Nearest(x))) <= (if Abs(x) <= 2.0 then 0.25 else if Abs(x) <= 4.0 then 0.5 else 1.0)
  {
    var below := if Abs(x) < 0.5 then 0 else if Abs(x) < 1.0 then 1 else if Abs(x) < 1.5 then 2
                 else if Abs(x) < 2.0 then 3 else if Abs(x) < 3.0 then 4 else if Abs(x) < 4.0 then 5
                 else if Abs(x) < 6.0 then 6 else 7;
    var lo: Code := if x < 0.0 then below + 8 else below;
    var hi: Code := if below == 7 then lo else lo + 1;
    assert Abs(x - Value(Nearest(x))) <= Abs(x - Value(lo));
    assert Abs(x - Value(Nearest(x))) <= Abs(x - Value(hi));
  }

  // ---- block scale --------------------------------------------------------

  ghost function AbsMax(w: seq<real>): (m: real)
    ensures m >= 0.0
    ensures forall i :: 0 <= i < |w| ==> Abs(w[i]) <= m
    ensures m == 0.0 || exists i :: 0 <= i < |w| && m == Abs(w[i])
  {
    if w == [] then 0.0 else
      var m := AbsMax(w[..|w| - 1]);
      Max(m, Abs(w[|w| - 1]))
  }

  /** ceil(log2(s)) clamped to [-127, 127]: the least exponent in that range whose
      power of two is at least s, or 127 when there is none. */
  ghost function Exponent(s: real): (e: int)
    ensures -127 <= e <= 127
    ensures e == 127 || s <= Pow2(e)
    ensures e == -127 || Pow2(e - 1) < s
  {
    ExponentFrom(s, -127)
  }

  ghost function ExponentFrom(s: real, e0: int): (e: int)
    requires -127 <= e0 <= 127
    ensures e0 <= e <= 127
    ensures e == 127 || s <= Pow2(e)
    ensures e == e0 || Pow2(e - 1) < s
    decreases 127 - e0
  {
    if e0 == 127 || s <= Pow2(e0) then e0 else ExponentFrom(s, e0 + 1)
  }

  /** The exponent stored for a block. */
  ghost function BlockExponent(w: seq<real>): int
  {
    Exponent(Max(AbsMax(w) / FP4_MAX, SCALE_FLOOR))
  }

  lemma ExponentIsLeast(s: real, e: int)
    requires -127 <= e <= 127 && s <= Pow2(e)
    ensures Exponent(s) <= e
  {
    if e < Exponent(s) {
      if e < Exponent(s) - 1 { Pow2Mono(e, Exponent(s) - 1); }
      assert false;
    }
  }

  /** 2^-100 < 1e-30 < 2^-99, so a clamped scale has exponent at least -99. */
  lemma FloorExponent()
    ensures Pow2(-100) < SCALE_FLOOR < Pow2(-99)
    ensures forall s :: s >= SCALE_FLOOR ==> Exponent(s) >= -99
  {
    Pow2Ten(-10); Pow2Ten(-20); Pow2Ten(-30); Pow2Ten(-40); Pow2Ten(-50);
    Pow2Ten(-60); Pow2Ten(-70); Pow2Ten(-80); Pow2Ten(-90); Pow2Ten(-100);
    Pow2Step(-100);
    assert Pow2(-100) == 1.0 / 1267650600228229401496703205376.0;
    forall s | s >= SCALE_FLOOR ensures Exponent(s) >= -99 {
      if Exponent(s) < -99 {
        if Exponent(s) < -100 { Pow2Mono(Exponent(s), -100); }
        assert false;
      }
    }
  }

  // ---- one element under a given scale ------------------------------------

  /** The code chosen for x under scale p. */
  ghost function Encode(x: real, p: real): Code
    requires p > 0.0
  {
    Nearest(Clamp(x / p, -FP4_MAX, FP4_MAX))
  }

  /** What code c stands for under scale p. */
  function Scaled(c: Code, p: real): real { Value(c) * p }

  /** x, quantised and dequantised under scale p. */
  ghost function Recon(x: real, p: real): real
    requires p > 0.0
  {
    Scaled(Encode(x, p), p)
  }

  ghost predicate IsCodePoint(x: real, p: real)
  {
    exists c: Code :: Scaled(c, p) == x
  }

  /** Recon is exact precisely on the code points of scale p. */
  lemma ReconExactIff(x: real, p: real)
    requires p > 0.0
    ensures Recon(x, p) == x <==> IsCodePoint(x, p)
  {
    hide ArgMin, Nearest, Value;
    if c: Code :| Scaled(c, p) == x {
      var t := Value(c);
      Quotient(t, p);
      assert x / p == t && Clamp(t, -FP4_MAX, FP4_MAX) == t;
      NearestExact(c);
      assert Value(Encode(x, p)) == t;
    }
    assert Recon(x, p) == Scaled(Encode(x, p), p);
  }

  lemma Quotient(t: real, p: real)
    requires p > 0.0
    ensures (t * p) / p == t
  {
  }

  lemma ScaledBound(c: Code, p: real)
    requires p > 0.0
    ensures Abs(Scaled(c, p)) <= FP4_MAX * p
  {
    hide Value;
    var t := Value(c);
    assert t * p <= FP4_MAX * p && (-FP4_MAX) * p <= t * p;
  }

  lemma LargeCode(c: Code, h: real)
    requires c % 8 > 5 && h > 0.0
    ensures Abs(Scaled(c, 2.0 * h)) > FP4_MAX * h
  {
    assert Value(c) in {4.0, 6.0, -4.0, -6.0};
  }

  /** The codebook is closed under doubling up to 6, so a code point under scale 2h that
      is at most 6q, q <= h, is also a code point under scale h. */
  lemma Doubled(c: Code, h: real, q: real) returns (d: Code)
    requires 0.0 < q <= h && Abs(Scaled(c, 2.0 * h)) <= FP4_MAX * q
    ensures Scaled(d, h) == Scaled(c, 2.0 * h)
  {
    var m := c % 8;
    var dm := if m == 0 then 0 else if m == 1 then 2 else if m == 2 then 4 else if m == 3 then 5
              else if m == 4 then 6 else 7;
    d := if c >= 8 then dm + 8 else dm;
    if m > 5 { LargeCode(c, h); }
    assert m <= 5;
    assert Value(d) == 2.0 * Value(c);
  }

  /** A code point under scale 2^e is a code point under 2^f, f <= e, if it is at most 6 * 2^f. */
  lemma {:induction false} Rescaled(c: Code, e: int, f: int) returns (d: Code)
    requires f <= e && Abs(Scaled(c, Pow2(e))) <= FP4_MAX * Pow2(f)
    ensures Scaled(d, Pow2(f)) == Scaled(c, Pow2(e))
    decreases e - f
  {
    hide Pow2, Scaled;
    if f == e {
      d := c;
    } else {
      Pow2Step(e - 1);
      if f < e - 1 { Pow2Mono(f, e - 1); }
      var c2 := Doubled(c, Pow2(e - 1), Pow2(f));
      d := Rescaled(c2, e - 1, f);
    }
  }

  // ---- blocks -------------------------------------------------------------

  /** The values a block of codes stands for under scale p. */
  ghost predicate Holds(v: seq<real>, codes: seq<Code>, p: real)
  {
    |v| == |codes| && forall i :: 0 <= i < |v| ==> v[i] == Scaled(codes[i], p)
  }

  lemma BlockAbsMax(v: seq<real>, codes: seq<Code>, p: real)
    requires p > 0.0 && Holds(v, codes, p)
    ensures AbsMax(v) <= FP4_MAX * p
  {
    hide AbsMax, Scaled;
    forall i | 0 <= i < |v| ensures Abs(v[i]) <= FP4_MAX * p {
      ScaledBound(codes[i], p);
    }
  }

  /** Requantising a dequantised block with exponent at least -99 loses nothing. */
  lemma RequantLossless(v: seq<real>, codes: seq<Code>, e: int)
    requires Holds(v, codes, Pow2(e)) && -99 <= e <= 127
    ensures forall i :: 0 <= i < |v| ==> Recon(v[i], Pow2(BlockExponent(v))) == v[i]
  {
    hide Pow2, AbsMax, Recon, Scaled;
    BlockAbsMax(v, codes, Pow2(e));
    FloorExponent();
    if -99 < e { Pow2Mono(-99, e); }
    var s, f := Max(AbsMax(v) / FP4_MAX, SCALE_FLOOR), BlockExponent(v);
    ExponentIsLeast(s, e);
    assert AbsMax(v) <= FP4_MAX * Pow2(f);
    forall i | 0 <= i < |v| ensures Recon(v[i], Pow2(f)) == v[i] {
      var d := Rescaled(codes[i], e, f);
      ReconExactIff(v[i], Pow2(f));
    }
  }

  /** The stored codes that requantisation keeps. From exponent -99 upward that is every code;
      below, the floor of the scale fixes the new exponent at -99, and a code survives if its
      value, halved once, twice or three times, is again in the codebook. */
  predicate Survives(c: Code, e: int)
  {
    || e >= -99 || c % 8 == 0
    || (e == -100 && c % 8 != 1 && c % 8 != 3)
    || (e == -101 && (c % 8 == 4 || c % 8 == 6 || c % 8 == 7))
    || (e == -102 && c % 8 == 6)
  }

  /** Some code has the m-th part of the value of c. */
  ghost predicate HasPart(c: Code, m: real)
  {
    exists d: Code :: Value(d) * m == Value(c)
  }

  lemma Halves(c: Code)
    ensures HasPart(c, 2.0) <==> c % 8 != 1 && c % 8 != 3
  {
    var sign := c - c % 8;
    assert c % 8 == 0 ==> Value(0) * 2.0 == Value(c);
    assert c % 8 == 2 ==> Value(sign + 1) * 2.0 == Value(c);
    assert c % 8 == 4 ==> Value(sign + 2) * 2.0 == Value(c);
    assert c % 8 == 5 ==> Value(sign + 3) * 2.0 == Value(c);
    assert c % 8 == 6 ==> Value(sign + 4) * 2.0 == Value(c);
    assert c % 8 == 7 ==> Value(sign + 5) * 2.0 == Value(c);
  }

  lemma Quarters(c: Code)
    ensures HasPart(c, 4.0) <==> c % 8 == 0 || c % 8 == 4 || c % 8 == 6 || c % 8 == 7
  {
    var sign := c - c % 8;
    assert c % 8 == 0 ==> Value(0) * 4.0 == Value(c);
    assert c % 8 == 4 ==> Value(sign + 1) * 4.0 == Value(c);
    assert c % 8 == 6 ==> Value(sign + 2) * 4.0 == Value(c);
    assert c % 8 == 7 ==> Value(sign + 3) * 4.0 == Value(c);
  }

  lemma Eighths(c: Code)
    ensures HasPart(c, 8.0) <==> c % 8 == 0 || c % 8 == 6
  {
    var sign := c - c % 8;
    assert c % 8 == 0 ==> Value(0) * 8.0 == Value(c);
    assert c % 8 == 6 ==> Value(sign + 1) * 8.0 == Value(c);
  }

  /** A sixteenth or less is too small for every code but zero. */
  lemma SmallParts(c: Code, m: real)
    requires m >= 16.0
    ensures HasPart(c, m) <==> c % 8 == 0
  {
    if c % 8 == 0 { assert Value(0) * m == Value(c); }
    forall d: Code ensures Value(d) * m == 0.0 || Value(d) * m >= 8.0 || Value(d) * m <= -8.0 {
      AtLeastHalf(d);
      if Value(d) >= 0.5 { Times(0.5, Value(d), m); }
      if Value(d) <= -0.5 { Times(Value(d), -0.5, m); }
    }
  }

  lemma AtLeastHalf(d: Code)
    ensures Value(d) == 0.0 || Value(d) >= 0.5 || Value(d) <= -0.5
  {
  }

  lemma CodePointIsPart(c: Code, h: real, m: real, p: real)
    requires h > 0.0 && p == m * h
    ensures IsCodePoint(Scaled(c, h), p) <==> HasPart(c, m)
  {
    hide Value;
    forall d: Code ensures Scaled(d, p) == Scaled(c, h) <==> Value(d) * m == Value(c) {
      assert Scaled(d, p) == (Value(d) * m) * h by { Regroup(Value(d), m, h); }
      if (Value(d) * m) * h == Value(c) * h {
        Cancel(Value(d) * m, Value(c), h);
        Cancel(Value(c), Value(d) * m, h);
      }
    }
  }

  lemma Regroup(x: real, m: real, h: real)
    ensures x * (m * h) == (x * m) * h
  {
  }

  lemma FarBelow(e: int) returns (m: real)
    requires e < -102
    ensures m >= 16.0 && Pow2(-99) == m * Pow2(e)
  {
    hide Pow2;
    var h := Pow2(e);
    Pow2Step(e);
    Pow2Step(e + 1);
    Pow2Step(e + 2);
    Pow2Step(e + 3);
    assert Pow2(e + 4) == 16.0 * h;
    if e + 4 < -99 { Pow2Mono(e + 4, -99); }
    m := Ratio(Pow2(-99), h, 16.0);
  }

  lemma Ratio(x: real, h: real, k: real) returns (m: real)
    requires h > 0.0 && k * h <= x
    ensures m >= k && x == m * h
  {
    m := x / h;
    assert m * h == x;
    if m < k { Cancel(k, m, h); }
  }

  lemma NearBelow()
    ensures Pow2(-99) == 2.0 * Pow2(-100) && Pow2(-99) == 4.0 * Pow2(-101) && Pow2(-99) == 8.0 * Pow2(-102)
  {
    hide Pow2;
    Pow2Step(-100);
    Pow2Step(-101);
    Pow2Step(-102);
  }

  lemma SurvivesIff(c: Code, e: int)
    requires e < -99
    ensures IsCodePoint(Scaled(c, Pow2(e)), Pow2(-99)) <==> Survives(c, e)
  {
    hide Pow2, Value, IsCodePoint, Scaled, HasPart;
    NearBelow();
    if e == -100 {
      Halves(c);
      CodePointIsPart(c, Pow2(e), 2.0, Pow2(-99));
    } else if e == -101 {
      Quarters(c);
      CodePointIsPart(c, Pow2(e), 4.0, Pow2(-99));
    } else if e == -102 {
      Eighths(c);
      CodePointIsPart(c, Pow2(e), 8.0, Pow2(-99));
    } else {
      var m := FarBelow(e);
      SmallParts(c, m);
      CodePointIsPart(c, Pow2(e), m, Pow2(-99));
    }
  }

  /** Requantising a stored block loses nothing if and only if all its codes survive. */
  lemma RequantExactIff(v: seq<real>, codes: seq<Code>, e: int)
    requires Holds(v, codes, Pow2(e)) && -127 <= e <= 127
    ensures (forall i :: 0 <= i < |v| ==> Recon(v[i], Pow2(BlockExponent(v))) == v[i])
       <==> forall i :: 0 <= i < |codes| ==> Survives(codes[i], e)
  {
    hide Pow2, AbsMax, Recon, Scaled, IsCodePoint;
    if e >= -99 {
      RequantLossless(v, codes, e);
    } else {
      FloorBlock(v, codes, e);
      hide Survives, BlockExponent;
      forall i | 0 <= i < |v|
        ensures Recon(v[i], Pow2(-99)) == v[i] <==> Survives(codes[i], e)
      {
        ReconExactIff(v[i], Pow2(-99));
        SurvivesIff(codes[i], e);
      }
    }
  }

  lemma FloorBlock(v: seq<real>, codes: seq<Code>, e: int)
    requires Holds(v, codes, Pow2(e)) && -127 <= e < -99
    ensures BlockExponent(v) == -99
  {
    hide Pow2, AbsMax, Scaled;
    BlockAbsMax(v, codes, Pow2(e));
    FloorExponent();
    if e < -100 { Pow2Mono(e, -100); }
    ExponentIsLeast(SCALE_FLOOR, -99);
  }

  /** A block that does lose: the code of 0.5 stored with exponent -100. */
  lemma RequantCanLose(v: seq<real>)
    requires Holds(v, [1], Pow2(-100))
    ensures Recon(v[0], Pow2(BlockExponent(v))) != v[0]
  {
    hide Pow2, Recon, BlockExponent;
    RequantExactIff(v, [1], -100);
    assert !Survives(1, -100);
  }

  /** Error bound: as long as the largest scale is enough, no element is clamped and each
      is reconstructed within one scale unit. */
  lemma BlockError(w: seq<real>, i: int)
    requires 0 <= i < |w| && AbsMax(w) <= FP4_MAX * Pow2(127)
    ensures var p := Pow2(BlockExponent(w));
            && Clamp(w[i] / p, -FP4_MAX, FP4_MAX) == w[i] / p
            && Abs(Recon(w[i], p) - w[i]) <= p
  {
    hide Pow2, AbsMax;
    FloorExponent();
    ElementError(w[i], Pow2(BlockExponent(w)));
  }

  lemma ElementError(x: real, p: real)
    requires p > 0.0 && Abs(x) <= FP4_MAX * p
    ensures Clamp(x / p, -FP4_MAX, FP4_MAX) == x / p && Abs(Recon(x, p) - x) <= p
  {
    hide Nearest, Value;
    InRange(x, p, FP4_MAX);
    NearestError(x / p);
    UnscaledError(x, p, Value(Nearest(x / p)));
  }

  lemma InRange(x: real, p: real, m: real)
    requires p > 0.0 && Abs(x) <= m * p
    ensures Abs(x / p) <= m
  {
    var q := x / p;
    assert q * p == x;
    if q > m { Cancel(q, m, p); }
    if -q > m { Cancel(-q, m, p); }
  }

  lemma Cancel(x: real, y: real, h: real)
    requires h > 0.0 && x * h <= y * h
    ensures x <= y
  {
  }

  lemma Times(x: real, y: real, h: real)
    requires h > 0.0 && x <= y
    ensures x * h <= y * h
  {
  }

  lemma UnscaledError(x: real, p: real, t: real)
    requires p > 0.0 && Abs(x / p - t) <= 1.0
    ensures Abs(t * p - x) <= p
  {
    var q := x / p;
    assert q * p == x;
    assert t * p - x == (t - q) * p;
    Times(t - q, 1.0, p);
    Times(-1.0, t - q, p);
  }

  /** The scale unit is below a third of the largest magnitude exactly when that magnitude
      exceeds 3 * 2^-99; in particular whenever absmax / 6 reaches the floor. */
  lemma UnitBelowThird(w: seq<real>)
    requires AbsMax(w) <= FP4_MAX * Pow2(127)
    ensures Pow2(BlockExponent(w)) < AbsMax(w) / 3.0 <==> AbsMax(w) > 3.0 * Pow2(-99)
    ensures AbsMax(w) / FP4_MAX >= SCALE_FLOOR ==> Pow2(BlockExponent(w)) < AbsMax(w) / 3.0
  {
    hide Pow2, AbsMax;
    FloorExponent();
    Pow2Step(-100);
    var s, e := Max(AbsMax(w) / FP4_MAX, SCALE_FLOOR), BlockExponent(w);
    Pow2Step(e - 1);
    assert Pow2(e - 1) < s;
    if -99 < e {
      Pow2Mono(-100, e - 1);
      if -99 < e - 1 { Pow2Mono(-99, e - 1); }
    }
  }
}
