/** How my_malloc cuts an allocation into chunks, in 64-bit unsigned arithmetic. */
module ChunkPlan {
  import opened Index

  const U64: nat := 0x1_0000_0000_0000_0000
  const MB: nat := 1024 * 1024
  const DEFAULT_CHUNK: nat := 256 * 1024 * 1024

  /** Unsigned 64-bit wrap-around. */
  function Wrap(x: int): nat { x % U64 }

  /** ((x + g - 1) / g) * g. */
  function AlignUp(x: nat, g: nat): nat
    requires g > 0
  {
    var q: nat := Wrap(x + g - 1) / g;
    NatProduct(q, g);
    q * g
  }

  /** The environment variable: not set, not parsed as a number, or a number of megabytes. */
  datatype Env = Unset | Unparsed | Megabytes(value: nat)

  function BaseChunk(env: Env): nat
  {
    if !env.Megabytes? || env.value == 0 || env.value > (U64 - 1) / MB then DEFAULT_CHUNK else env.value * MB
  }

  function NumChunks(aligned: nat, chunk: nat): nat
    requires chunk > 0
  {
    Wrap(aligned + chunk - 1) / chunk
  }

  function ChunkSize(aligned: nat, chunk: nat, i: nat): nat
  {
    var rest := Wrap(aligned - i * chunk);
    if rest < chunk then rest else chunk
  }

  /** Rounding up is exact unless the addition wraps, and then it yields 0. */
  lemma AlignUpExact(x: nat, g: nat)
    requires 0 < x < U64 && 0 < g < U64
    ensures x + g - 1 < U64 ==> x <= AlignUp(x, g) < x + g && AlignUp(x, g) % g == 0 && AlignUp(x, g) > 0
    ensures x + g - 1 >= U64 ==> AlignUp(x, g) == 0
  {
    var y := Wrap(x + g - 1);
    var q := y / g;
    assert y == q * g + y % g;
    if x + g - 1 < U64 {
      Coordinates(q * g, g, q, 0);
    } else {
      assert y == x + g - 1 - U64 < g;
      Coordinates(y, g, 0, y);
    }
  }

  lemma AlignUpFits(x: nat, g: nat)
    requires g > 0
    ensures AlignUp(x, g) < U64
  {
    var y := Wrap(x + g - 1);
    assert y == y / g * g + y % g;
  }

  /** The variable asks for a number of megabytes that 64 bits can hold in bytes. */
  predicate Configured(env: Env) { env.Megabytes? && 0 < env.value <= 0xFFF_FFFF_FFFF }

  /** The bytes that the chunk size is rounded up from. */
  function Wanted(env: Env): nat { if Configured(env) then env.value * 0x10_0000 else 0x1000_0000 }

  /** The chunk size is the least multiple of the granularity that is enough for the wanted bytes,
      256 megabytes unless the variable asks for something else; or it is 0, exactly when rounding
      up passes 2^64. */
  lemma ChunkBytesAre(env: Env, g: nat)
    requires 0 < g < 0x1_0000_0000_0000_0000
    ensures var c := AlignUp(BaseChunk(env), g);
      && (c == 0 <==> Wanted(env) + g > 0x1_0000_0000_0000_0000)
      && (c > 0 ==> Wanted(env) <= c < Wanted(env) + g && c % g == 0)
      && (c > 0 && Wanted(env) % g == 0 ==> c == Wanted(env))
  {
    assert BaseChunk(env) == Wanted(env);
    hide BaseChunk;
    AlignUpExact(Wanted(env), g);
    hide AlignUp;
    var c := AlignUp(Wanted(env), g);
    if c > 0 && Wanted(env) % g == 0 { OneMultiple(Wanted(env), c, g); }
  }

  lemma NoChunkBytes(env: Env, g: nat)
    requires 0 < g < U64
    ensures AlignUp(BaseChunk(env), g) == 0 <==> Wanted(env) + g > 0x1_0000_0000_0000_0000
  {
    hide AlignUp, BaseChunk, Wanted;
    ChunkBytesAre(env, g);
  }

  lemma OneMultiple(x: nat, c: nat, g: nat)
    requires g > 0 && x % g == 0 && c % g == 0 && x <= c < x + g
    ensures c == x
  {
    var a, b := x / g, c / g;
    assert x == a * g && c == b * g;
    assert (b - a) * g == c - x;
    MulLess(b - a, g);
  }

  /** A chunk size close to 2^64 bytes wraps to 0, and the next line divides by it: 2^44 - 1
      megabytes with a granularity of two megabytes. */
  lemma ChunkSizeCanBeZero()
    ensures AlignUp(BaseChunk(Megabytes(0xFFF_FFFF_FFFF)), 2 * MB) == 0
  {
    AlignUpExact(0xFFF_FFFF_FFFF * MB, 2 * MB);
  }

  function Plan(aligned: nat, chunk: nat): (sizes: seq<nat>)
    requires chunk > 0
    ensures |sizes| == NumChunks(aligned, chunk)
  {
    seq(NumChunks(aligned, chunk), i requires 0 <= i => ChunkSize(aligned, chunk, i))
  }

  /** While nothing wraps the last chunk starts inside the allocation and ends at its end. */
  lemma LastChunk(aligned: nat, chunk: nat)
    requires chunk > 0 && aligned > 0 && aligned + chunk - 1 < U64
    ensures var n := NumChunks(aligned, chunk); n > 0 && (n - 1) * chunk < aligned <= n * chunk
  {
    var n := (aligned + chunk - 1) / chunk;
    assert aligned + chunk - 1 == n * chunk + (aligned + chunk - 1) % chunk;
    assert (n - 1) * chunk == n * chunk - chunk;
    if n <= 0 { MulMono(n, 0, chunk); }
  }

  lemma ChunkAt(aligned: nat, chunk: nat, i: nat)
    requires chunk > 0 && aligned > 0 && aligned + chunk - 1 < U64 && i < NumChunks(aligned, chunk)
    ensures i * chunk < aligned
    ensures ChunkSize(aligned, chunk, i) == if aligned - i * chunk < chunk then aligned - i * chunk else chunk
    ensures i + 1 < NumChunks(aligned, chunk) ==> ChunkSize(aligned, chunk, i) == chunk
  {
    LastChunk(aligned, chunk);
    var n := NumChunks(aligned, chunk);
    MulMono(i, n - 1, chunk);
    MulMono(0, i, chunk);
    if i + 1 < n {
      MulMono(i + 1, n - 1, chunk);
      assert (i + 1) * chunk == i * chunk + chunk;
    }
  }

  lemma {:induction false} PrefixTotal(aligned: nat, chunk: nat, k: nat)
    requires chunk > 0 && aligned > 0 && aligned + chunk - 1 < U64 && k < NumChunks(aligned, chunk)
    ensures Total(Plan(aligned, chunk)[..k]) == k * chunk
  {
    hide NumChunks, ChunkSize, Total;
    assert Plan(aligned, chunk)[..0] == [] && Total([]) == 0 by { EmptyTotal(); }
    if k > 0 {
      PrefixTotal(aligned, chunk, k - 1);
      ChunkAt(aligned, chunk, k - 1);
      TakeTotal(Plan(aligned, chunk), k - 1);
      assert (k - 1) * chunk + chunk == k * chunk;
    }
  }

  /** All chunks but the last have the chunk size. */
  lemma FullChunks(aligned: nat, chunk: nat)
    requires 0 < chunk < U64 && 0 < aligned < U64
    ensures forall i :: 0 <= i < |Plan(aligned, chunk)| - 1 ==> Plan(aligned, chunk)[i] == chunk
  {
    if aligned + chunk - 1 < U64 {
      forall i: nat | i < |Plan(aligned, chunk)| - 1 ensures Plan(aligned, chunk)[i] == chunk {
        ChunkAt(aligned, chunk, i);
      }
    } else {
      PlanIsExactIff(aligned, chunk);
    }
  }

  /** Every chunk but the last is the least multiple of the granularity that is enough for the
      wanted bytes. */
  ghost predicate CutAsWanted(env: Env, g: nat, chunks: seq<nat>)
    requires g > 0
  {
    forall i :: 0 <= i < |chunks| - 1 ==> chunks[i] % g == 0 && Wanted(env) <= chunks[i] < Wanted(env) + g
  }

  lemma PlanAsWanted(env: Env, g: nat, aligned: nat)
    requires 0 < g < U64 && 0 < aligned < U64
    ensures var chunk := AlignUp(BaseChunk(env), g);
      && chunk < U64 && (chunk > 0 ==> CutAsWanted(env, g, Plan(aligned, chunk)))
  {
    hide Wanted, BaseChunk, Plan, AlignUp;
    ChunkBytesAre(env, g);
    AlignUpFits(BaseChunk(env), g);
    var chunk := AlignUp(BaseChunk(env), g);
    if chunk > 0 { FullChunks(aligned, chunk); }
  }

  /** With the variable not set, not a number, 0, or too large, and a granularity that divides 256
      megabytes, every chunk but the last has 256 megabytes. */
  lemma DefaultChunks(env: Env, g: nat, chunks: seq<nat>, i: nat)
    requires !env.Megabytes? || env.value == 0 || env.value > 0xFFF_FFFF_FFFF
    requires g > 0 && 0x1000_0000 % g == 0 && CutAsWanted(env, g, chunks) && i < |chunks| - 1
    ensures chunks[i] == 0x1000_0000
  {
    OneMultiple(0x1000_0000, chunks[i], g);
  }

  /** The plan is exact: positive chunks, none above the chunk size, adding up to the aligned
      size. */
  lemma PlanIsExact(aligned: nat, chunk: nat)
    requires chunk > 0 && aligned > 0 && aligned + chunk - 1 < U64
    ensures |Plan(aligned, chunk)| > 0 && Total(Plan(aligned, chunk)) == aligned
    ensures forall i :: 0 <= i < |Plan(aligned, chunk)| ==> 0 < Plan(aligned, chunk)[i] <= chunk
  {
    var s, n := Plan(aligned, chunk), NumChunks(aligned, chunk);
    LastChunk(aligned, chunk);
    forall i: nat | i < n ensures 0 < s[i] <= chunk { ChunkAt(aligned, chunk, i); }
    PrefixTotal(aligned, chunk, n - 1);
    ChunkAt(aligned, chunk, n - 1);
    assert n * chunk == (n - 1) * chunk + chunk;
  }

  /** The plan is exact if and only if the sum in the number of chunks does not wrap; when it
      wraps, no chunk is planned at all. */
  lemma PlanIsExactIff(aligned: nat, chunk: nat)
    requires 0 < chunk < U64 && 0 < aligned < U64
    ensures |Plan(aligned, chunk)| > 0 && Total(Plan(aligned, chunk)) == aligned <==> aligned + chunk - 1 < U64
    ensures aligned + chunk - 1 >= U64 <==> Plan(aligned, chunk) == []
    ensures forall i :: 0 <= i < |Plan(aligned, chunk)| ==> 0 < Plan(aligned, chunk)[i] <= chunk
  {
    if aligned + chunk - 1 < U64 {
      PlanIsExact(aligned, chunk);
    } else {
      var rest := aligned + chunk - 1 - U64;
      assert Wrap(aligned + chunk - 1) == rest < chunk;
      Coordinates(rest, chunk, 0, rest);
    }
  }

  /** That does happen: with 2^44 - 2 megabytes the chunk size is right, and an allocation of four
      megabytes still gets no chunk. */
  lemma PlanCanBeEmpty()
    ensures var chunk := AlignUp(BaseChunk(Megabytes(0xFFF_FFFF_FFFE)), 2 * MB);
      chunk == 0xFFF_FFFF_FFFE * MB && AlignUp(4 * MB, 2 * MB) == 4 * MB && Plan(4 * MB, chunk) == []
  {
    var base := BaseChunk(Megabytes(0xFFF_FFFF_FFFE));
    assert base == 0xFFF_FFFF_FFFE * MB;
    PlanIsExactIff(4 * MB, base);
  }

  /** Every chunk is a multiple of the granularity when the two aligned sizes are. */
  lemma ChunksAreAligned(aligned: nat, chunk: nat, g: nat, i: nat)
    requires chunk > 0 && aligned > 0 && aligned + chunk - 1 < U64 && g > 0
    requires aligned % g == 0 && chunk % g == 0 && i < NumChunks(aligned, chunk)
    ensures ChunkSize(aligned, chunk, i) % g == 0
  {
    ChunkAt(aligned, chunk, i);
    var a, c := aligned / g, chunk / g;
    assert aligned == a * g && chunk == c * g;
    var q := a - i * c;
    assert aligned - i * chunk == q * g;
    Coordinates(q * g, g, q, 0);
  }
}
