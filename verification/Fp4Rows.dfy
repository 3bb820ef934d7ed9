/** Whole rows: FP4 codes packed two to a byte, low nibble first, with one E8M0 exponent
    per block, as stored by quantize_fp4_block and read by dequantize_fp4_block. */
module Fp4Rows {
  import opened Index
  import opened Sums
  import opened Fp4

  datatype Row = Row(packed: seq<bv8>, exponents: seq<int>)

  function Pack(low: Code, high: Code): bv8
  {
    (low as bv8) | ((high as bv8) << 4)
  }

  function LowCode(p: bv8): Code
  {
    assert p & 0x0F < 16;
    (p & 0x0F) as int
  }

  function HighCode(p: bv8): Code
  {
    assert (p >> 4) & 0x0F < 16;
    ((p >> 4) & 0x0F) as int
  }

  /** Both nibbles survive packing. */
  lemma PackUnpack(low: Code, high: Code)
    ensures LowCode(Pack(low, high)) == low && HighCode(Pack(low, high)) == high
  {
    var l, h := low as bv8, high as bv8;
    assert l < 16 && h < 16;
    assert (l | (h << 4)) & 0x0F == l && ((l | (h << 4)) >> 4) & 0x0F == h;
  }

  function CodeAt(packed: seq<bv8>, i: int): Code
    requires 0 <= i < 2 * |packed|
  {
    if i % 2 == 0 then LowCode(packed[i / 2]) else HighCode(packed[i / 2])
  }

  /** A row of nB blocks, an even number of elements in all. */
  ghost predicate Shaped(w: seq<real>, nB: nat, block: nat)
  {
    block > 0 && |w| == nB * block && |w| % 2 == 0
  }

  ghost predicate ShapedCodes(q: Row, nB: nat, block: nat)
  {
    block > 0 && |q.exponents| == nB && 2 * |q.packed| == nB * block
  }

  ghost function Block(w: seq<real>, nB: nat, block: nat, b: nat): (s: seq<real>)
    requires Shaped(w, nB, block) && b < nB
    ensures |s| == block
  {
    Inside(nB, block, b, 0);
    w[b * block..b * block + block]
  }

  /** The exponent of the block that element i lies in. */
  ghost function ExponentAt(w: seq<real>, nB: nat, block: nat, i: int): int
    requires Shaped(w, nB, block) && 0 <= i < |w|
  {
    Decompose(nB, block, i);
    BlockExponent(Block(w, nB, block, i / block))
  }

  ghost function Quantise(w: seq<real>, nB: nat, block: nat): (q: Row)
    requires Shaped(w, nB, block)
    ensures ShapedCodes(q, nB, block)
  {
    var exponents := seq(nB, b requires 0 <= b < nB => BlockExponent(Block(w, nB, block, b)));
    var idx := seq(|w|, i requires 0 <= i < |w| => Encode(w[i], Pow2(ExponentAt(w, nB, block, i))));
    Row(seq(|w| / 2, j requires 0 <= j < |w| / 2 => Pack(idx[2 * j], idx[2 * j + 1])), exponents)
  }

  /** The stored exponent that applies to element i. */
  ghost function StoredExponent(q: Row, nB: nat, block: nat, i: int): int
    requires ShapedCodes(q, nB, block) && 0 <= i < 2 * |q.packed|
  {
    Decompose(nB, block, i);
    q.exponents[i / block]
  }

  /** What element i stands for. */
  ghost function Stored(q: Row, nB: nat, block: nat, i: int): real
    requires ShapedCodes(q, nB, block) && 0 <= i < 2 * |q.packed|
  {
    Scaled(CodeAt(q.packed, i), Pow2(StoredExponent(q, nB, block, i)))
  }

  lemma ShapeOf(q: Row, nB: nat, block: nat)
    requires ShapedCodes(q, nB, block)
    ensures forall w: seq<real> :: |w| == 2 * |q.packed| ==> Shaped(w, nB, block)
  {
    var m := nB * block;
    EvenDouble(|q.packed|, m);
    assert forall w: seq<real> :: |w| == 2 * |q.packed| ==> |w| == m;
  }

  lemma EvenDouble(n: nat, m: int)
    requires 2 * n == m
    ensures m % 2 == 0
  {
  }

  ghost function Dequantise(q: Row, nB: nat, block: nat): (w: seq<real>)
    requires ShapedCodes(q, nB, block)
    ensures Shaped(w, nB, block)
  {
    ShapeOf(q, nB, block);
    seq(2 * |q.packed|, i requires 0 <= i < 2 * |q.packed| => Stored(q, nB, block, i))
  }

  /** Each element depends on its own block only: it is reconstructed under the scale of the
      block it lies in, wherever its nibble sits in the packed bytes. */
  lemma Elementwise(w: seq<real>, nB: nat, block: nat, i: nat)
    requires Shaped(w, nB, block) && i < |w|
    ensures Dequantise(Quantise(w, nB, block), nB, block)[i] == Recon(w[i], Pow2(ExponentAt(w, nB, block, i)))
  {
    hide Pow2, BlockExponent, Encode, Scaled, Pack, LowCode, HighCode, Block;
    var j := i / 2;
    var q := Quantise(w, nB, block);
    PackUnpack(Encode(w[2 * j], Pow2(ExponentAt(w, nB, block, 2 * j))),
               Encode(w[2 * j + 1], Pow2(ExponentAt(w, nB, block, 2 * j + 1))));
    assert CodeAt(q.packed, i) == Encode(w[i], Pow2(ExponentAt(w, nB, block, i))) by {
      hide ExponentAt;
    }
    assert StoredExponent(q, nB, block, i) == ExponentAt(w, nB, block, i) by {
      Decompose(nB, block, i);
    }
  }

  lemma ElementOfBlock(w: seq<real>, nB: nat, block: nat, b: nat, j: nat)
    requires Shaped(w, nB, block) && b < nB && j < block
    ensures 0 <= b * block + j < |w| && Block(w, nB, block, b)[j] == w[b * block + j]
  {
    Inside(nB, block, b, j);
  }

  ghost function BlockCodes(q: Row, nB: nat, block: nat, b: nat): (s: seq<Code>)
    requires ShapedCodes(q, nB, block) && b < nB
    ensures |s| == block
  {
    var codes: seq<Code> :=
      seq<Code>(block, j requires 0 <= j < block => Inside(nB, block, b, j); CodeAt(q.packed, b * block + j));
    codes
  }

  /** A block of a dequantised row is its codes under its one scale. */
  lemma BlockHolds(q: Row, nB: nat, block: nat, b: nat)
    requires ShapedCodes(q, nB, block) && b < nB
    ensures Holds(Block(Dequantise(q, nB, block), nB, block, b), BlockCodes(q, nB, block, b), Pow2(q.exponents[b]))
  {
    hide Pow2, Scaled, CodeAt;
    var v, codes := Dequantise(q, nB, block), BlockCodes(q, nB, block, b);
    var s := Block(v, nB, block, b);
    forall j | 0 <= j < block ensures s[j] == Scaled(codes[j], Pow2(q.exponents[b])) {
      Inside(nB, block, b, j);
      Coordinates(b * block + j, block, b, j);
      assert s[j] == v[b * block + j];
    }
  }

  /** Requantising a stored row whose exponents are at least -99 gives back the same values. */
  lemma RequantRow(q: Row, nB: nat, block: nat)
    requires ShapedCodes(q, nB, block)
    requires forall b :: 0 <= b < nB ==> -99 <= q.exponents[b] <= 127
    ensures Dequantise(Quantise(Dequantise(q, nB, block), nB, block), nB, block) == Dequantise(q, nB, block)
  {
    hide Pow2, Scaled, CodeAt, Recon, BlockExponent, Quantise, Dequantise, Block, BlockCodes, Holds;
    var v := Dequantise(q, nB, block);
    var u := Dequantise(Quantise(v, nB, block), nB, block);
    forall i: nat | i < |v| ensures u[i] == v[i] {
      Elementwise(v, nB, block, i);
      Decompose(nB, block, i);
      var b := i / block;
      ElementOfBlock(v, nB, block, b, i % block);
      BlockHolds(q, nB, block, b);
      RequantLossless(Block(v, nB, block, b), BlockCodes(q, nB, block, b), q.exponents[b]);
    }
  }

  /** Quantisation is a projection on values: quantise, dequantise, and doing it again changes
      nothing, for every row of reals. */
  lemma Projection(w: seq<real>, nB: nat, block: nat)
    requires Shaped(w, nB, block)
    ensures var v := Dequantise(Quantise(w, nB, block), nB, block);
            Dequantise(Quantise(v, nB, block), nB, block) == v
  {
    hide Pow2, Dequantise;
    FloorExponent();
    RequantRow(Quantise(w, nB, block), nB, block);
  }

  /** The bytes need not be the same: the block [3, 0] under scale 1 is stored again with
      scale 1/2. */
  lemma BytesMayChange()
    ensures ShapedCodes(Row([5], [0]), 1, 2)
    ensures Quantise(Dequantise(Row([5], [0]), 1, 2), 1, 2).exponents == [-1]
  {
    var v := Dequantise(Row([5], [0]), 1, 2);
    assert |v| == 2 && v[0] == 3.0 && v[1] == 0.0 by {
      assert Value(5) == 3.0 && Value(0) == 0.0;
    }
    var s := Block(v, 1, 2, 0);
    assert s == v;
    ThreeAndZero(s);
  }

  lemma ThreeAndZero(v: seq<real>)
    requires |v| == 2 && v[0] == 3.0 && v[1] == 0.0
    ensures BlockExponent(v) == -1
  {
    hide ExponentFrom;
    assert AbsMax(v) == 3.0;
    FloorExponent();
    assert Pow2(-1) == 0.5 && Pow2(-2) == 0.25;
    assert SCALE_FLOOR < 0.5;
    ExponentIsLeast(0.5, -1);
    if Exponent(0.5) < -2 { Pow2Mono(Exponent(0.5), -2); }
  }

  /** Every element of a row is reconstructed within one unit of its block's scale. */
  lemma RowError(w: seq<real>, nB: nat, block: nat, i: nat)
    requires Shaped(w, nB, block) && i < |w|
    requires i / block < nB && AbsMax(Block(w, nB, block, i / block)) <= FP4_MAX * Pow2(127)
    ensures Abs(Dequantise(Quantise(w, nB, block), nB, block)[i] - w[i]) <= Pow2(ExponentAt(w, nB, block, i))
  {
    hide Pow2, Dequantise, Quantise, Recon, AbsMax;
    Elementwise(w, nB, block, i);
    Decompose(nB, block, i);
    ElementOfBlock(w, nB, block, i / block, i % block);
    BlockError(Block(w, nB, block, i / block), i % block);
  }
}
