/** kernel_fp8_ffn: the three projections by the tiled kernel. The down projection feeds every
    expert of a rank the hidden row of the rank's first expert, so the path computes the routed
    experts only where a rank has one expert. */
module KernelFfn {
  import opened Index
  import opened Sums
  import opened MoeFfn
  import opened MoePrefill
  import K = MoeKernel

  /** The hidden row that every expert of a rank is given: that of its first expert. */
  function SharedHidden(m: Experts, d: Dims, x: int -> real, pew: int -> real, rank: int, i: int): real
  {
    Hidden(m, d, rank * d.perRank, x, i) * pew(rank * d.perRank)
  }

  function RankOut(m: Experts, d: Dims, x: int -> real, pew: int -> real, rank: int, e: int, c: int): real
  {
    Project(m.w2, rank * d.perRank + e, c, d.inter, i => SharedHidden(m, d, x, pew, rank, i))
  }

  function RankTerms(m: Experts, d: Dims, x: int -> real, pew: int -> real, rank: int, c: int): int -> real
  {
    e => RankOut(m, d, x, pew, rank, e, c)
  }

  /** Summed over the local experts, then over the ranks. */
  function Kernel(m: Experts, d: Dims, x: int -> real, pew: int -> real, c: int): real
  {
    Sum(d.ranks, r => Sum(d.perRank, RankTerms(m, d, x, pew, r, c)))
  }

  // ---- the projections are the tiled kernel's -----------------------------

  /** Stored expert weights: e4m3 bytes and raw E8M0 scale bytes. */
  datatype Stored = Stored(codes: K.Bytes3, scales: K.Exponents3) {
    /** What they stand for. */
    function Leaf(): Leaf { MoeFfn.Leaf((e, o, k) => K.E4M3(codes(e, o, k)), (e, o, b) => K.E8M0(scales(e, o, b))) }

    /** The experts from base on, as a rank holds them. */
    function From(base: int): Stored
    {
      Stored((e, o, k) => codes(base + e, o, k), (e, o, b) => scales(base + e, o, b))
    }
  }

  /** The layer those weights stand for; this path does not clip. */
  function LayerOf(w1: Stored, w3: Stored, w2: Stored, silu: real -> real): Experts
  {
    Experts(w1.Leaf(), w3.Leaf(), w2.Leaf(), silu, 0.0)
  }

  lemma StoredTerm(w: Stored, base: int, x: int -> real, e: int, o: int, k: int)
    ensures K.Weight(w.From(base).codes, w.From(base).scales, e, o, k) * x(k) == x(k) * w.Leaf().Dequant(base + e, o, k)
  {
    hide K.E4M3, K.E8M0;
    var v := K.Weight(w.From(base).codes, w.From(base).scales, e, o, k);
    assert v == w.Leaf().Dequant(base + e, o, k);
    Commute(v, x(k));
  }

  lemma Commute(p: real, q: real)
    ensures p * q == q * p
  {
  }

  /** On a rank's share of the weights, the matvec of the tiled kernel is the projection by the
      dequantised weights of the expert that the rank numbers e. */
  lemma MatvecIsProject(w: Stored, base: int, x: int -> real, n: nat, e: int, o: int)
    ensures K.Matvec(x, w.From(base).codes, w.From(base).scales, n, e, o) == Project(w.Leaf(), base + e, o, n, x)
  {
    hide Sum, K.Weight, Leaf.Dequant, Stored.Leaf;
    var codes, scales := w.From(base).codes, w.From(base).scales;
    var leaf := w.Leaf();
    forall k ensures K.Weight(codes, scales, e, o, k) * x(k) == x(k) * leaf.Dequant(base + e, o, k) {
      StoredTerm(w, base, x, e, o, k);
    }
    SumExt(n, k => K.Weight(codes, scales, e, o, k) * x(k), k => x(k) * leaf.Dequant(base + e, o, k));
  }

  /** The tiled kernel on a rank's share: every entry is a projection. */
  method Projections(w: Stored, base: int, x: int -> real, experts: nat, inSize: nat, tiles: nat, tileOut: nat,
                     schedule: seq<(nat, nat)>) returns (out: array2<real>)
    requires inSize % BLOCK == 0 && tileOut > 0 && K.Covers(schedule, experts, tiles)
    ensures fresh(out) && out.Length0 == experts && out.Length1 == tiles * tileOut
    ensures forall e: nat, o: nat :: e < experts && o < out.Length1 ==>
      out[e, o] == Project(w.Leaf(), base + e, o, inSize, x)
  {
    hide Project, K.Matvec, K.Covers, Stored.Leaf, Stored.From;
    out := K.DenseMatvec(x, w.From(base).codes, w.From(base).scales, experts, inSize / BLOCK, tiles, tileOut, schedule);
    forall e: nat, o: nat | e < experts && o < out.Length1
      ensures out[e, o] == Project(w.Leaf(), base + e, o, inSize, x)
    {
      MatvecIsProject(w, base, x, inSize, e, o);
    }
  }

  /** A row as a function of its index. */
  function At(row: seq<real>): int -> real { k => if 0 <= k < |row| then row[k] else 0.0 }

  /** The hidden row of the rank's first expert. */
  method FirstHidden(gate: array2<real>, up: array2<real>, m: Experts, d: Dims, x: int -> real, pew: int -> real,
                     rank: int) returns (hidden: seq<real>)
    requires gate.Length0 == up.Length0 == d.perRank > 0 && gate.Length1 == up.Length1 == d.inter && m.limit == 0.0
    requires forall i: nat :: i < d.inter ==> gate[0, i] == Project(m.w1, rank * d.perRank, i, d.dim, x)
    requires forall i: nat :: i < d.inter ==> up[0, i] == Project(m.w3, rank * d.perRank, i, d.dim, x)
    ensures |hidden| == d.inter && forall i: nat :: i < d.inter ==> hidden[i] == SharedHidden(m, d, x, pew, rank, i)
  {
    hide Project;
    var base := rank * d.perRank;
    hidden := seq(d.inter, i requires 0 <= i < d.inter && gate.Length0 == up.Length0 > 0
                             && gate.Length1 == up.Length1 == d.inter reads gate, up =>
      m.silu(gate[0, i]) * up[0, i] * pew(base));
  }

  /** One rank: gate and up by the tiled kernel for all its experts, then the down projection, by
      the tiled kernel as well, of the first expert's hidden row; summed over the experts. */
  method RankKernel(w1: Stored, w3: Stored, w2: Stored, silu: real -> real, d: Dims, x: int -> real, pew: int -> real,
                    rank: int, tileOut: nat, hiddenTiles: nat, outTiles: nat,
                    hiddenSchedule: seq<(nat, nat)>, outSchedule: seq<(nat, nat)>) returns (local: array<real>)
    requires d.perRank > 0 && d.dim % BLOCK == 0 && d.inter % BLOCK == 0
    requires tileOut > 0 && d.inter == hiddenTiles * tileOut && d.dim == outTiles * tileOut
    requires K.Covers(hiddenSchedule, d.perRank, hiddenTiles) && K.Covers(outSchedule, d.perRank, outTiles)
    ensures fresh(local) && local.Length == d.dim
    ensures forall c :: 0 <= c < d.dim ==>
      local[c] == Sum(d.perRank, RankTerms(LayerOf(w1, w3, w2, silu), d, x, pew, rank, c))
  {
    hide Sum, Project, K.Covers, Stored.Leaf, Stored.From, RankOut, SharedHidden, At;
    var base := rank * d.perRank;
    var m := LayerOf(w1, w3, w2, silu);
    var gate := Projections(w1, base, x, d.perRank, d.dim, hiddenTiles, tileOut, hiddenSchedule);
    var up := Projections(w3, base, x, d.perRank, d.dim, hiddenTiles, tileOut, hiddenSchedule);
    var hidden := FirstHidden(gate, up, m, d, x, pew, rank);
    var out := Projections(w2, base, At(hidden), d.perRank, d.inter, outTiles, tileOut, outSchedule);
    forall e: nat, c: nat | e < d.perRank && c < d.dim ensures out[e, c] == RankTerms(m, d, x, pew, rank, c)(e) {
      DownIs(m, d, x, pew, rank, e, c, hidden);
    }
    hide RankTerms;
    local := SumRows(out, d, m, x, pew, rank);
  }

  lemma DownIs(m: Experts, d: Dims, x: int -> real, pew: int -> real, rank: int, e: int, c: int, hidden: seq<real>)
    requires |hidden| == d.inter && forall i: nat :: i < d.inter ==> hidden[i] == SharedHidden(m, d, x, pew, rank, i)
    ensures Project(m.w2, rank * d.perRank + e, c, d.inter, At(hidden)) == RankTerms(m, d, x, pew, rank, c)(e)
  {
    hide Project, SharedHidden;
    ProjectExt(m.w2, rank * d.perRank + e, c, d.inter, At(hidden), i => SharedHidden(m, d, x, pew, rank, i));
  }

  /** The rows of out, one for every expert of the rank, added up. */
  method SumRows(out: array2<real>, d: Dims, ghost m: Experts, ghost x: int -> real, ghost pew: int -> real,
                 ghost rank: int) returns (local: array<real>)
    requires out.Length0 == d.perRank && out.Length1 == d.dim
    requires forall e: nat, c: nat :: e < d.perRank && c < d.dim ==> out[e, c] == RankTerms(m, d, x, pew, rank, c)(e)
    ensures fresh(local) && local.Length == d.dim
    ensures forall c :: 0 <= c < d.dim ==> local[c] == Sum(d.perRank, RankTerms(m, d, x, pew, rank, c))
  {
    hide Sum, RankTerms;
    local := new real[d.dim](_ => 0.0);
    SumSteps();
    for e := 0 to d.perRank
      invariant forall c :: 0 <= c < d.dim ==> local[c] == Sum(e, RankTerms(m, d, x, pew, rank, c))
    {
      forall c | 0 <= c < d.dim { local[c] := local[c] + out[e, c]; }
    }
  }

  lemma SumSteps()
    ensures forall f: int -> real :: Sum(0, f) == 0.0
    ensures forall n: nat, f: int -> real :: Sum(n + 1, f) == Sum(n, f) + f(n)
  {
  }

  function DenseOut(m: Experts, d: Dims, x: int -> real, pew: int -> real, c: int): real
  {
    NatProduct(d.ranks, d.perRank);
    Sum(d.Experts(), e => DenseTerm(m, d, x, pew, e, c))
  }

  function DenseTerm(m: Experts, d: Dims, x: int -> real, pew: int -> real, e: int, c: int): real
  {
    Project(m.w2, e, c, d.inter, i => Hidden(m, d, e, x, i) * pew(e))
  }

  /** DenseOut is the dense path of one token. */
  lemma DenseOutIs(m: Experts, d: Dims, x: int -> real, pew: int -> real, c: int)
    ensures d.Experts() >= 0 && DenseOut(m, d, x, pew, c) == Dense(m, d, (t, k) => x(k), (t, e) => pew(e), 0, c)
  {
    hide Hidden, Project, Sum;
    NatProduct(d.ranks, d.perRank);
    var x2: Tensor2, p2: Tensor2 := (t, k) => x(k), (t, e) => pew(e);
    var f := (e: int) => Project(m.w2, e, c, d.inter, i => Hidden(m, d, e, k => x2(0, k), i) * p2(0, e));
    forall e ensures f(e) == DenseTerm(m, d, x, pew, e, c) { TermExt(m, d, x, k => x2(0, k), pew(e), e, c); }
    SumExt(d.Experts(), f, e => DenseTerm(m, d, x, pew, e, c));
  }

  lemma TermExt(m: Experts, d: Dims, x: int -> real, y: int -> real, p: real, e: int, c: int)
    requires forall k :: x(k) == y(k)
    ensures Project(m.w2, e, c, d.inter, i => Hidden(m, d, e, x, i) * p) ==
      Project(m.w2, e, c, d.inter, i => Hidden(m, d, e, y, i) * p)
  {
    hide Hidden, Project;
    forall i ensures Hidden(m, d, e, x, i) == Hidden(m, d, e, y, i) { HiddenExt(m, d, e, x, y, i); }
    ProjectExt(m.w2, e, c, d.inter, i => Hidden(m, d, e, x, i) * p, i => Hidden(m, d, e, y, i) * p);
  }

  lemma HiddenExt(m: Experts, d: Dims, e: int, x: int -> real, y: int -> real, i: int)
    requires forall k :: x(k) == y(k)
    ensures Hidden(m, d, e, x, i) == Hidden(m, d, e, y, i)
  {
    hide Project, Activate;
    ProjectExt(m.w1, e, i, d.dim, x, y);
    ProjectExt(m.w3, e, i, d.dim, x, y);
  }

  /** One expert on every rank: the kernel path is the dense path. */
  lemma OneExpertEach(m: Experts, d: Dims, x: int -> real, pew: int -> real, c: int)
    requires d.perRank == 1
    ensures Kernel(m, d, x, pew, c) == DenseOut(m, d, x, pew, c)
  {
    hide Hidden, Project, Sum;
    NatProduct(d.ranks, d.perRank);
    var outer := (r: int) => Sum(d.perRank, RankTerms(m, d, x, pew, r, c));
    var term := (e: int) => DenseTerm(m, d, x, pew, e, c);
    forall r: int ensures outer(r) == term(r) {
      SumOne(RankTerms(m, d, x, pew, r, c));
      assert RankOut(m, d, x, pew, r, 0, c) == DenseTerm(m, d, x, pew, r, c) by {
        assert r * d.perRank == r && r * d.perRank + 0 == r;
        SameRow(m, d, x, pew, r, c);
      }
    }
    assert d.Experts() == d.ranks;
    SumExt(d.ranks, outer, term);
  }

  lemma SumOne(f: int -> real)
    ensures Sum(1, f) == f(0)
  {
  }

  lemma SameRow(m: Experts, d: Dims, x: int -> real, pew: int -> real, r: int, c: int)
    requires r * d.perRank == r
    ensures RankOut(m, d, x, pew, r, 0, c) == DenseTerm(m, d, x, pew, r, c)
  {
    hide Hidden, Sum, Project;
    ProjectExt(m.w2, r, c, d.inter, i => SharedHidden(m, d, x, pew, r, i), i => Hidden(m, d, r, x, i) * pew(r));
  }

  // ---- two experts on a rank ----------------------------------------------

  /** Weights that are 1 in row 0, column 0 of expert 1, and 0 elsewhere. */
  function Spike(): Leaf
  {
    Leaf((e, o, k) => if e == 1 && o == 0 && k == 0 then 1.0 else 0.0, (e, o, b) => 1.0)
  }

  function Spikes(): Experts { Experts(Spike(), Spike(), Spike(), g => 1.0, 0.0) }

  lemma SpikeProject(e: int, o: int, n: nat, x: int -> real)
    requires n > 0
    ensures Project(Spike(), e, o, n, x) == if e == 1 && o == 0 then x(0) else 0.0
  {
    var w := Spike();
    var f := (k: int) => x(k) * w.Dequant(e, o, k);
    forall k ensures w.Dequant(e, o, k) == if e == 1 && o == 0 && k == 0 then 1.0 else 0.0 {}
    assert forall k :: k != 0 ==> f(k) == 0.0;
    SumSingle(n, f, 0);
    assert Project(w, e, o, n, x) == Sum(n, f);
  }

  lemma SpikeHidden(d: Dims, e: int, i: int)
    requires d.dim > 0
    ensures Hidden(Spikes(), d, e, k => 1.0, i) == if e == 1 && i == 0 then 1.0 else 0.0
  {
    hide Project;
    SpikeProject(e, i, d.dim, k => 1.0);
  }

  /** The dense path sees expert 1, the kernel path never gives it its own hidden row. */
  lemma SpikesDiffer(d: Dims)
    requires d.ranks > 0 && d.perRank > 1 && d.dim > 0 && d.inter > 0
    ensures DenseOut(Spikes(), d, k => 1.0, e => 1.0, 0) == 1.0
    ensures Kernel(Spikes(), d, k => 1.0, e => 1.0, 0) == 0.0
  {
    hide Hidden, Project, Sum;
    var x, pew: int -> real := k => 1.0, e => 1.0;
    var m := Spikes();
    MulMono(1, d.ranks, d.perRank);
    var dense := (e: int) => DenseTerm(m, d, x, pew, e, 0);
    forall e ensures dense(e) == if e == 1 then 1.0 else 0.0 {
      SpikeHidden(d, e, 0);
      SpikeProject(e, 0, d.inter, i => Hidden(m, d, e, x, i) * pew(e));
    }
    SumSingle(d.Experts(), dense, 1);
    var kernel := (r: int) => Sum(d.perRank, RankTerms(m, d, x, pew, r, 0));
    forall r | 0 <= r < d.ranks ensures kernel(r) == 0.0 {
      NotOne(r, d.perRank);
      SpikeHidden(d, r * d.perRank, 0);
      forall e ensures RankOut(m, d, x, pew, r, e, 0) == 0.0 {
        SpikeProject(r * d.perRank + e, 0, d.inter, i => SharedHidden(m, d, x, pew, r, i));
      }
      SumZero(d.perRank, RankTerms(m, d, x, pew, r, 0));
    }
    SumZero(d.ranks, kernel);
  }

  lemma NotOne(r: nat, n: nat)
    requires n > 1
    ensures r * n != 1
  {
    if r > 0 { MulMono(1, r, n); }
  }

  /** The kernel path computes the routed experts for all weights and inputs if and only if no rank
      has two experts. */
  lemma KernelEqualsDenseIff(d: Dims)
    requires d.ranks > 0 && d.perRank > 0 && d.dim > 0 && d.inter > 0
    ensures (forall m: Experts, x: int -> real, pew: int -> real, c: int ::
               Kernel(m, d, x, pew, c) == DenseOut(m, d, x, pew, c))
       <==> d.perRank == 1
  {
    hide Kernel, DenseOut;
    if d.perRank == 1 {
      forall m: Experts, x: int -> real, pew: int -> real, c: int
        ensures Kernel(m, d, x, pew, c) == DenseOut(m, d, x, pew, c)
      {
        OneExpertEach(m, d, x, pew, c);
      }
    } else {
      SpikesDiffer(d);
    }
  }
}
