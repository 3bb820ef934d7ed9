/** The dense FP8-code matvec kernel and the code conversions that feed it: FP4 nibbles to
    e4m3 bytes by integer arithmetic, four bytes to a u32 along the contracting axis, one
    grid program per (expert, output tile), block scale applied after the block product. */
module MoeKernel {
  import opened Index
  import opened Sums
  import opened Fp4
  import opened Fp4Rows

  // ---- FP4 code to e4m3 byte ----------------------------------------------

  /** Value of an e4m3 byte: sign, four exponent bits of bias 7, three mantissa bits
      (OCP Microscaling Formats v1.0, section 5.3.1; NaN bytes are never produced here). */
  function E4M3(b: bv8): real
  {
    var e := ((b >> 3) & 0x0F) as int;
    var m := (b & 0x07) as int;
    var mag := if e == 0 then m as real / 512.0 else (8 + m) as real / 8.0 * Pow2(e - 7);
    if b & 0x80 != 0 then -mag else mag
  }

  /** unpack_intarith: 32-bit arithmetic, then a cast to uint8. */
  function IntArith(c: bv8): bv8
  {
    var n := c as bv32;
    var sign := (n & 0x8) << 4;
    var mag := n & 0x7;
    var magByte := if mag >= 2 then 0x30 + (mag << 2) else if mag == 1 then 0x30 else 0;
    ((sign | magByte) & 0xFF) as bv8
  }

  /** unpack_intarith8: the same, in uint8 throughout. */
  function IntArith8(n: bv8): bv8
  {
    var sign := (n & 0x8) << 4;
    var mag := n & 0x7;
    var magByte := if mag >= 2 then 0x30 + (mag << 2) else if mag == 1 then 0x30 else 0;
    sign | magByte
  }

  /** unpack_closed8: exponent and mantissa assembled directly. */
  function Closed8(n: bv8): bv8
  {
    var sign := (n & 0x8) << 4;
    var mag := n & 0x7;
    var closed := (((mag >> 1) + 6) << 3) | ((mag & 1) << 2);
    var magByte := if mag >= 2 then closed else if mag == 1 then 0x30 else 0;
    sign | magByte
  }

  /** The three formulas agree on every nibble. */
  lemma FormulasAgree(n: bv8)
    requires n < 16
    ensures IntArith(n) == IntArith8(n) == Closed8(n)
  {
  }

  /** The integer formula yields the e4m3 byte of exactly the codebook value. */
  lemma Lossless(n: bv8)
    requires n < 16
    ensures n as int < 16 && E4M3(IntArith8(n)) == Value(n as int)
  {
    assert Pow2(-1) == 0.5 && Pow2(0) == 1.0 && Pow2(1) == 2.0 && Pow2(2) == 4.0;
    hide Pow2;
    if n == 0 { assert IntArith8(n) == 0x00; }
    else if n == 1 { assert IntArith8(n) == 0x30; }
    else if n == 2 { assert IntArith8(n) == 0x38; }
    else if n == 3 { assert IntArith8(n) == 0x3C; }
    else if n == 4 { assert IntArith8(n) == 0x40; }
    else if n == 5 { assert IntArith8(n) == 0x44; }
    else if n == 6 { assert IntArith8(n) == 0x48; }
    else if n == 7 { assert IntArith8(n) == 0x4C; }
    else if n == 8 { assert IntArith8(n) == 0x80; }
    else if n == 9 { assert IntArith8(n) == 0xB0; }
    else if n == 10 { assert IntArith8(n) == 0xB8; }
    else if n == 11 { assert IntArith8(n) == 0xBC; }
    else if n == 12 { assert IntArith8(n) == 0xC0; }
    else if n == 13 { assert IntArith8(n) == 0xC4; }
    else if n == 14 { assert IntArith8(n) == 0xC8; }
    else { assert n == 15 && IntArith8(n) == 0xCC; }
  }

  // ---- four bytes to a u32 ------------------------------------------------

  function PackU32(b0: bv8, b1: bv8, b2: bv8, b3: bv8): bv32
  {
    (b0 as bv32) | ((b1 as bv32) << 8) | ((b2 as bv32) << 16) | ((b3 as bv32) << 24)
  }

  /** Byte j of a little-endian word. */
  function ByteOf(u: bv32, j: int): bv8
  {
    if j == 0 then (u & 0xFF) as bv8
    else if j == 1 then ((u >> 8) & 0xFF) as bv8
    else if j == 2 then ((u >> 16) & 0xFF) as bv8
    else ((u >> 24) & 0xFF) as bv8
  }

  lemma PackedBytes(b0: bv8, b1: bv8, b2: bv8, b3: bv8)
    ensures var u := PackU32(b0, b1, b2, b3);
            ByteOf(u, 0) == b0 && ByteOf(u, 1) == b1 && ByteOf(u, 2) == b2 && ByteOf(u, 3) == b3
  {
  }

  // ---- operands -----------------------------------------------------------

  /** A tensor is a function of its indices; the shape is carried beside it. */
  type Bytes3 = (int, int, int) -> bv8
  type Words3 = (int, int, int) -> bv32
  /** Raw E8M0 bytes, as numbers. */
  type Exponents3 = (int, int, int) -> int

  /** Byte scale of the stored E8M0 exponent: 2^(b - 127). */
  function E8M0(b: int): real { Pow2(b - 127) }

  /** [E, out, in] bytes to [E, in / 4, out] words: swap the last two axes, group four
      consecutive IN entries, and bitcast each group. */
  function Transport(w: Bytes3): Words3
  {
    var wT := (e: int, k: int, o: int) => w(e, o, k);
    var grouped := (e: int, k4: int, o: int, j: int) => wT(e, 4 * k4 + j, o);
    (e: int, k4: int, o: int) =>
      PackU32(grouped(e, k4, o, 0), grouped(e, k4, o, 1), grouped(e, k4, o, 2), grouped(e, k4, o, 3))
  }

  /** One grid program's view of the operands: block (e, n) of the words and of the scales. */
  datatype Tile = Tile(x: int -> real, words: (int, int) -> bv32, scales: (int, int) -> real)

  function TileOf(x: int -> real, words: Words3, scales: (int, int, int) -> real, tileOut: nat, e: nat, n: nat): Tile
  {
    Tile(x, (k4, t) => words(e, k4, n * tileOut + t), (b, t) => scales(e, b, n * tileOut + t))
  }

  /** Entry k of lane t after the words are expanded back to bytes along IN. */
  function Code(r: Tile, k: int, t: int): real
  {
    E4M3(ByteOf(r.words(k / 4, t), k % 4))
  }

  function BlockDot(r: Tile, b: int, t: int): real
  {
    Sum(BLOCK, j => Code(r, b * BLOCK + j, t) * r.x(b * BLOCK + j))
  }

  /** The kernel body for lane t: the product of each 32-wide block is scaled, then the
      blocks are added up. */
  function KernelLane(r: Tile, numBlocks: nat, t: int): real
  {
    Sum(numBlocks, b => BlockDot(r, b, t) * r.scales(b, t))
  }

  /** A weight as the dequantised path has it: code times the scale of its block. */
  function Weight(w: Bytes3, s: Exponents3, e: int, o: int, k: int): real
  {
    E4M3(w(e, o, k)) * E8M0(s(e, o, k / BLOCK))
  }

  /** Reference: the matvec of the fully dequantised weights. */
  function Matvec(x: int -> real, w: Bytes3, s: Exponents3, inSize: nat, e: int, o: int): real
  {
    Sum(inSize, k => Weight(w, s, e, o, k) * x(k))
  }

  function Scales(s: Exponents3): (int, int, int) -> real
  {
    (e, b, o) => E8M0(s(e, o, b))
  }

  /** The words expand to the original bytes in IN order. */
  lemma TransportRoundTrip(w: Bytes3, e: int, k: int, o: int)
    ensures ByteOf(Transport(w)(e, k / 4, o), k % 4) == w(e, o, k)
  {
    var k4 := k / 4;
    PackedBytes(w(e, o, 4 * k4), w(e, o, 4 * k4 + 1), w(e, o, 4 * k4 + 2), w(e, o, 4 * k4 + 3));
    assert k == 4 * k4 + k % 4;
  }

  lemma BlockScaled(x: int -> real, w: Bytes3, s: Exponents3, tileOut: nat, e: nat, n: nat, t: int, b: int)
    ensures var r := TileOf(x, Transport(w), Scales(s), tileOut, e, n);
            BlockDot(r, b, t) * r.scales(b, t)
            == Sum(BLOCK, j => Weight(w, s, e, n * tileOut + t, b * BLOCK + j) * x(b * BLOCK + j))
  {
    hide Sum, E4M3, E8M0, ByteOf, PackU32, Transport;
    var o := n * tileOut + t;
    var r := TileOf(x, Transport(w), Scales(s), tileOut, e, n);
    var f := (j: int) => Code(r, b * BLOCK + j, t) * r.x(b * BLOCK + j);
    var g := (j: int) => Weight(w, s, e, o, b * BLOCK + j) * x(b * BLOCK + j);
    var c := r.scales(b, t);
    SumScale(BLOCK, f, c);
    forall j | 0 <= j < BLOCK ensures f(j) * c == g(j) {
      var k := b * BLOCK + j;
      TransportRoundTrip(w, e, k, o);
      assert Code(r, k, t) == E4M3(w(e, o, k));
      assert k / BLOCK == b;
      assert c == E8M0(s(e, o, b));
      assert g(j) == Weight(w, s, e, o, k) * x(k);
      Reorder(E4M3(w(e, o, b * BLOCK + j)), x(b * BLOCK + j), c);
    }
    SumExt(BLOCK, j => f(j) * c, g);
  }

  lemma Reorder(p: real, q: real, c: real)
    ensures (p * q) * c == (p * c) * q
  {
  }

  /** Scaling after each block product equals scaling every weight first. */
  lemma ScaleAfterBlock(x: int -> real, w: Bytes3, s: Exponents3, numBlocks: nat, tileOut: nat, e: nat, n: nat, t: int)
    ensures KernelLane(TileOf(x, Transport(w), Scales(s), tileOut, e, n), numBlocks, t)
         == Matvec(x, w, s, numBlocks * BLOCK, e, n * tileOut + t)
  {
    hide Sum, Weight, BlockDot, Scales, Transport;
    var o := n * tileOut + t;
    var r := TileOf(x, Transport(w), Scales(s), tileOut, e, n);
    var term := (k: int) => Weight(w, s, e, o, k) * x(k);
    var f := (b: int) => BlockDot(r, b, t) * r.scales(b, t);
    var g := (b: int) => Sum(BLOCK, j => term(b * BLOCK + j));
    forall b | 0 <= b < numBlocks ensures f(b) == g(b) {
      BlockScaled(x, w, s, tileOut, e, n, t, b);
      SumExt(BLOCK, j => Weight(w, s, e, o, b * BLOCK + j) * x(b * BLOCK + j), j => term(b * BLOCK + j));
    }
    SumExt(numBlocks, f, g);
    SumBlocks(numBlocks, BLOCK, term);
    SumExt(numBlocks, g, b => Sum(BLOCK, j => term(b * BLOCK + j)));
  }

  // ---- the grid -----------------------------------------------------------

  /** An order in which the grid programs run: every (expert, tile) appears. The grid axes
      are declared parallel, so no order may be assumed. */
  ghost predicate Covers(schedule: seq<(nat, nat)>, experts: nat, numTiles: nat)
  {
    && (forall i :: 0 <= i < |schedule| ==> schedule[i].0 < experts && schedule[i].1 < numTiles)
    && (forall e: nat, n: nat :: e < experts && n < numTiles ==> (e, n) in schedule)
  }

  /** The output column of lane t of tile n. */
  function Column(numTiles: nat, tileOut: nat, n: nat, t: nat): (o: int)
    requires n < numTiles && t < tileOut
    ensures 0 <= o < numTiles * tileOut
  {
    Inside(numTiles, tileOut, n, t);
    n * tileOut + t
  }

  /** Every output column is lane o % tileOut of tile o / tileOut. */
  lemma ColumnOf(numTiles: nat, tileOut: nat, o: nat)
    requires tileOut > 0 && o < numTiles * tileOut
    ensures o / tileOut < numTiles && 0 <= o % tileOut < tileOut
    ensures Column(numTiles, tileOut, o / tileOut, o % tileOut) == o
  {
    Decompose(numTiles, tileOut, o);
  }

  /** No column belongs to two tiles: each output is written by exactly one grid program. */
  lemma OneWriter(numTiles: nat, tileOut: nat, n: nat, t: nat, n2: nat, t2: nat)
    requires n < numTiles && n2 < numTiles && t < tileOut && t2 < tileOut
    requires Column(numTiles, tileOut, n, t) == Column(numTiles, tileOut, n2, t2)
    ensures n == n2 && t == t2
  {
    Coordinates(n * tileOut + t, tileOut, n, t);
    Coordinates(n2 * tileOut + t2, tileOut, n2, t2);
  }

  lemma ColumnsDistinct(numTiles: nat, tileOut: nat)
    ensures forall n: nat, t: nat, n2: nat, t2: nat ::
      n < numTiles && n2 < numTiles && t < tileOut && t2 < tileOut ==>
      Column(numTiles, tileOut, n, t) == Column(numTiles, tileOut, n2, t2) ==> n == n2 && t == t2
  {
    forall n: nat, t: nat, n2: nat, t2: nat
      | n < numTiles && n2 < numTiles && t < tileOut && t2 < tileOut
        && Column(numTiles, tileOut, n, t) == Column(numTiles, tileOut, n2, t2)
      ensures n == n2 && t == t2
    {
      OneWriter(numTiles, tileOut, n, t, n2, t2);
    }
  }

  /** One grid program: writes its tile of the output and nothing else. */
  method RunTile(r: Tile, numBlocks: nat, numTiles: nat, tileOut: nat, e: nat, n: nat, out: array2<real>)
    requires e < out.Length0 && n < numTiles && out.Length1 == numTiles * tileOut
    modifies out
    ensures forall e2: nat, n2: nat, t: nat :: e2 < out.Length0 && n2 < numTiles && t < tileOut ==>
      out[e2, Column(numTiles, tileOut, n2, t)]
      == if e2 == e && n2 == n then KernelLane(r, numBlocks, t) else old(out[e2, Column(numTiles, tileOut, n2, t)])
  {
    hide KernelLane, Column;
    ColumnsDistinct(numTiles, tileOut);
    forall t: nat | t < tileOut {
      out[e, Column(numTiles, tileOut, n, t)] := KernelLane(r, numBlocks, t);
    }
  }

  /** dense_fp8_moe_matvec: whatever the order of the grid programs, every output entry is
      the matvec of the dequantised weights. */
  method DenseMatvec(x: int -> real, w: Bytes3, s: Exponents3, experts: nat, numBlocks: nat, numTiles: nat,
                     tileOut: nat, schedule: seq<(nat, nat)>) returns (out: array2<real>)
    requires tileOut > 0 && Covers(schedule, experts, numTiles)
    ensures fresh(out) && out.Length0 == experts && out.Length1 == numTiles * tileOut
    ensures forall e: nat, o: nat :: e < experts && o < numTiles * tileOut ==>
      out[e, o] == Matvec(x, w, s, numBlocks * BLOCK, e, o)
  {
    hide KernelLane, Matvec, TileOf, Transport, Column;
    var words, scales := Transport(w), Scales(s);
    NatProduct(numTiles, tileOut);
    out := new real[experts, numTiles * tileOut];
    for i := 0 to |schedule|
      invariant forall e: nat, n: nat, t: nat ::
        e < experts && n < numTiles && t < tileOut && (e, n) in schedule[..i] ==>
        out[e, Column(numTiles, tileOut, n, t)] == KernelLane(TileOf(x, words, scales, tileOut, e, n), numBlocks, t)
    {
      var (e, n) := schedule[i];
      RunTile(TileOf(x, words, scales, tileOut, e, n), numBlocks, numTiles, tileOut, e, n, out);
    }
    assert schedule[..|schedule|] == schedule;
    forall e: nat, o: nat | e < experts && o < out.Length1
      ensures out[e, o] == Matvec(x, w, s, numBlocks * BLOCK, e, o)
    {
      ColumnOf(numTiles, tileOut, o);
      var n, t := o / tileOut, o % tileOut;
      assert out[e, Column(numTiles, tileOut, n, t)] ==
        KernelLane(TileOf(x, words, scales, tileOut, e, n), numBlocks, t);
      Decompose(numTiles, tileOut, o);
      ScaleAfterBlock(x, w, s, numBlocks, tileOut, e, n, t);
    }
  }

  // ---- from the stored checkpoint -----------------------------------------

  /** The packed nibble of element i as a byte 0..15, low nibble first. */
  function Nibble(packed: seq<bv8>, i: int): bv8
  {
    if 0 <= i < 2 * |packed| then
      if i % 2 == 0 then packed[i / 2] & 0x0F else (packed[i / 2] >> 4) & 0x0F
    else 0
  }

  function ExponentByte(q: Row, b: int): int
  {
    if 0 <= b < |q.exponents| then q.exponents[b] + 127 else 0
  }

  /** The dequantised value of element k, read back from an e4m3 byte and a scale byte. */
  lemma StoredWeight(rows: (int, int) -> Row, e: int, o: int, k: nat, numBlocks: nat)
    requires ShapedCodes(rows(e, o), numBlocks, BLOCK) && k < numBlocks * BLOCK
    requires forall b :: 0 <= b < numBlocks ==> -127 <= rows(e, o).exponents[b] <= 127
    ensures Weight((e, o, k) => IntArith8(Nibble(rows(e, o).packed, k)), (e, o, b) => ExponentByte(rows(e, o), b),
                   e, o, k)
         == Dequantise(rows(e, o), numBlocks, BLOCK)[k]
  {
    hide E4M3, IntArith8, Value, Pow2;
    var q := rows(e, o);
    Decompose(numBlocks, BLOCK, k);
    Lossless(Nibble(q.packed, k));
  }

  /** End to end: packed nibbles, converted to e4m3 bytes by integer arithmetic, transported
      as u32 words and multiplied block by block, give the matvec of the rows that
      dequantize_fp4_block produces. */
  method MatvecOfStored(x: int -> real, rows: (int, int) -> Row, experts: nat, numBlocks: nat, numTiles: nat,
                        tileOut: nat, schedule: seq<(nat, nat)>) returns (out: array2<real>)
    requires tileOut > 0 && Covers(schedule, experts, numTiles)
    requires forall e: nat, o: nat :: e < experts && o < numTiles * tileOut ==>
      && ShapedCodes(rows(e, o), numBlocks, BLOCK)
      && forall b :: 0 <= b < numBlocks ==> -127 <= rows(e, o).exponents[b] <= 127
    ensures fresh(out) && out.Length0 == experts && out.Length1 == numTiles * tileOut
    ensures forall e: nat, o: nat :: e < experts && o < numTiles * tileOut ==>
      out[e, o] == Sum(numBlocks * BLOCK, k =>
        if 0 <= k < numBlocks * BLOCK then Dequantise(rows(e, o), numBlocks, BLOCK)[k] * x(k) else 0.0)
  {
    hide Dequantise, Weight, ShapedCodes, Sum, Covers;
    var w := (e: int, o: int, k: int) => IntArith8(Nibble(rows(e, o).packed, k));
    var s := (e: int, o: int, b: int) => ExponentByte(rows(e, o), b);
    out := DenseMatvec(x, w, s, experts, numBlocks, numTiles, tileOut, schedule);
    forall e: nat, o: nat | e < experts && o < numTiles * tileOut
      ensures out[e, o] == Sum(numBlocks * BLOCK, k =>
        if 0 <= k < numBlocks * BLOCK then Dequantise(rows(e, o), numBlocks, BLOCK)[k] * x(k) else 0.0)
    {
      forall k: nat | k < numBlocks * BLOCK
        ensures Weight(w, s, e, o, k) == Dequantise(rows(e, o), numBlocks, BLOCK)[k]
      {
        StoredWeight(rows, e, o, k, numBlocks);
      }
      SumExt(numBlocks * BLOCK, k => Weight(w, s, e, o, k) * x(k), k =>
        if 0 <= k < numBlocks * BLOCK then Dequantise(rows(e, o), numBlocks, BLOCK)[k] * x(k) else 0.0);
    }
  }
}
