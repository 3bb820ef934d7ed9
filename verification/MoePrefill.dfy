/** The sharded paths: every rank runs grouped matmuls over its own experts only and the
    ranks' contributions are added. gmm_v2 is given by its contract: rows of the rank's own
    groups are computed, all other rows of its output are left as they were in memory. */
module MoePrefill {
  import opened Index
  import opened Sums
  import opened Dispatch
  import opened MoeFfn

  // ---- operands of the grouped matmul -------------------------------------

  /** rhs [E, in, out] codes and rhs_scale [E, in / 32, 1, out], as _fp4_rhs_and_scale
      builds them: input axis and output axis swapped. */
  datatype Operand = Operand(rhs: Tensor3, scale: Tensor3)

  function RhsAndScale(w: Leaf): Operand
  {
    Operand((e, k, n) => w.codes(e, n, k), (e, b, n) => w.scales(e, n, b))
  }

  /** Concatenation of two operands along the output axis. */
  function Concat(a: Operand, b: Operand, width: int): Operand
  {
    Operand((e, k, n) => if n < width then a.rhs(e, k, n) else b.rhs(e, k, n - width),
            (e, k, n) => if n < width then a.scale(e, k, n) else b.scale(e, k, n - width))
  }

  /** The first expert of a rank. */
  function Base(d: Dims, rank: int): int { rank * d.perRank }

  /** The shard of one rank: its experts, numbered from 0. */
  function Shard(a: Operand, base: int): Operand
  {
    Operand((e, k, n) => a.rhs(base + e, k, n), (e, b, n) => a.scale(base + e, b, n))
  }

  /** What gmm_v2 multiplies: codes times the scale of their block. */
  function Entry(a: Operand, e: int, k: int, n: int): real { a.rhs(e, k, n) * a.scale(e, k / BLOCK, n) }

  /** The operand in [group, in, out] layout holds exactly the dequantised weight, and in a
      concatenation the first columns are the gate projection and the rest the up projection. */
  lemma Orientation(m: Experts, inter: nat, base: int, g: int, k: int, n: nat)
    ensures Entry(Shard(RhsAndScale(m.w2), base), g - base, k, n) == m.w2.Dequant(g, n, k)
    ensures n < inter ==>
      Entry(Shard(Concat(RhsAndScale(m.w1), RhsAndScale(m.w3), inter), base), g - base, k, n) == m.w1.Dequant(g, n, k)
    ensures Entry(Shard(Concat(RhsAndScale(m.w1), RhsAndScale(m.w3), inter), base), g - base, k, inter + n) ==
      m.w3.Dequant(g, n, k)
  {
  }

  /** Group g belongs to this rank. */
  predicate Owns(d: Dims, rank: int, g: int) { Base(d, rank) <= g < Base(d, rank + 1) }

  /** Sorted row i is in the interval of group g. */
  ghost predicate InGroup(keys: seq<nat>, g: nat, i: int)
  {
    GroupStart(keys, g) <= i < GroupStart(keys, g) + GroupSize(keys, g)
  }

  /** The contract of gmm_v2 with zero_initialize off: nothing is said of rows outside the
      groups [rank * perRank, (rank + 1) * perRank). */
  ghost predicate GmmOutput(out: Tensor2, lhs: Tensor2, a: Operand, keys: seq<nat>, d: Dims, rank: int, k: nat, n: int)
  {
    forall g: nat, i: int, c: int ::
      Owns(d, rank, g) && InGroup(keys, g, i) && 0 <= c < n ==>
      out(i, c) == Sum(k, j => lhs(i, j) * Entry(a, g - Base(d, rank), j, c))
  }

  // ---- one rank -----------------------------------------------------------

  /** The raw outputs of the two grouped matmuls of one rank. */
  datatype Buffers = Buffers(g1: Tensor2, g2: Tensor2)

  /** The input of the second matmul: split the first output, activate, multiply. */
  function HiddenRows(m: Experts, d: Dims, g1: Tensor2): Tensor2
  {
    (i, c) => HiddenEntry(m, d, g1, i, c)
  }

  function HiddenEntry(m: Experts, d: Dims, g1: Tensor2, i: int, c: int): real
  {
    Activate(m, g1(i, c), g1(i, d.inter + c))
  }

  /** Buffers that a rank may hold after its two matmuls on the rows lhs, sorted by keys. */
  ghost predicate RankRun(m: Experts, d: Dims, keys: seq<nat>, lhs: Tensor2, rank: int, b: Buffers)
  {
    && GmmOutput(b.g1, lhs, Shard(Concat(RhsAndScale(m.w1), RhsAndScale(m.w3), d.inter), Base(d, rank)),
                 keys, d, rank, d.dim, 2 * d.inter)
    && GmmOutput(b.g2, HiddenRows(m, d, b.g1), Shard(RhsAndScale(m.w2), Base(d, rank)),
                 keys, d, rank, d.inter, d.dim)
  }

  // ---- such buffers exist -------------------------------------------------

  lemma {:induction false} StartsGrow(keys: seq<nat>, g: nat, h: nat)
    requires g < h
    ensures GroupStart(keys, g) + GroupSize(keys, g) <= GroupStart(keys, h)
  {
    hide GroupSize;
    if g < h - 1 { StartsGrow(keys, g, h - 1); }
  }

  /** No row is in two groups, so the contract never asks for two values in one place. */
  lemma OneGroup(keys: seq<nat>, g: nat, h: nat, i: int)
    requires InGroup(keys, g, i) && InGroup(keys, h, i)
    ensures g == h
  {
    hide GroupSize, GroupStart;
    if g < h { StartsGrow(keys, g, h); }
    if h < g { StartsGrow(keys, h, g); }
  }

  /** The group of a row, if the rank owns it. */
  ghost function GroupAt(keys: seq<nat>, d: Dims, rank: int, i: int): nat
  {
    if exists g: nat :: Owns(d, rank, g) && InGroup(keys, g, i)
    then var g: nat :| Owns(d, rank, g) && InGroup(keys, g, i); g else 0
  }

  ghost function Product(lhs: Tensor2, a: Operand, keys: seq<nat>, d: Dims, rank: int, k: nat): Tensor2
  {
    (i, c) => Sum(k, j => lhs(i, j) * Entry(a, GroupAt(keys, d, rank, i) - Base(d, rank), j, c))
  }

  lemma ProductIs(lhs: Tensor2, a: Operand, keys: seq<nat>, d: Dims, rank: int, k: nat, n: int)
    ensures GmmOutput(Product(lhs, a, keys, d, rank, k), lhs, a, keys, d, rank, k, n)
  {
    hide Sum, InGroup, Owns, Entry, Base;
    forall g: nat, i: int | Owns(d, rank, g) && InGroup(keys, g, i) ensures GroupAt(keys, d, rank, i) == g {
      OneGroup(keys, g, GroupAt(keys, d, rank, i), i);
    }
  }

  ghost function RunOf(m: Experts, d: Dims, keys: seq<nat>, lhs: Tensor2, rank: int): Buffers
  {
    var g1 := Product(lhs, Shard(Concat(RhsAndScale(m.w1), RhsAndScale(m.w3), d.inter), Base(d, rank)), keys, d,
                      rank, d.dim);
    Buffers(g1, Product(HiddenRows(m, d, g1), Shard(RhsAndScale(m.w2), Base(d, rank)), keys, d, rank, d.inter))
  }

  /** The contract of the two matmuls can be met, whatever the rows, keys and rank. */
  lemma SomeRun(m: Experts, d: Dims, keys: seq<nat>, lhs: Tensor2, rank: int)
    ensures RankRun(m, d, keys, lhs, rank, RunOf(m, d, keys, lhs, rank))
  {
    hide GmmOutput, Product;
    var b := RunOf(m, d, keys, lhs, rank);
    ProductIs(lhs, Shard(Concat(RhsAndScale(m.w1), RhsAndScale(m.w3), d.inter), Base(d, rank)), keys, d, rank, d.dim,
              2 * d.inter);
    ProductIs(HiddenRows(m, d, b.g1), Shard(RhsAndScale(m.w2), Base(d, rank)), keys, d, rank, d.inter, d.dim);
  }

  // ---- what a rank computes -----------------------------------------------

  /** Column c of an owned row is the projection by the weight the operand holds there. */
  lemma OwnedProjection(out: Tensor2, lhs: Tensor2, a: Operand, keys: seq<nat>, d: Dims, rank: int, k: nat, n: int,
                        g: nat, i: int, c: int, w: Leaf, o: int)
    requires GmmOutput(out, lhs, a, keys, d, rank, k, n)
    requires Owns(d, rank, g) && InGroup(keys, g, i) && 0 <= c < n
    requires forall j :: 0 <= j < k ==> Entry(a, g - Base(d, rank), j, c) == w.Dequant(g, o, j)
    ensures out(i, c) == Project(w, g, o, k, j => lhs(i, j))
  {
    hide Sum, InGroup, Entry, Owns, Base;
    var x := (j: int) => lhs(i, j);
    SumExt(k, j => lhs(i, j) * Entry(a, g - Base(d, rank), j, c), j => x(j) * w.Dequant(g, o, j));
  }

  /** Columns h and inter + h of the first matmul are the gate and the up projection. */
  lemma GateAndUp(m: Experts, d: Dims, keys: seq<nat>, lhs: Tensor2, rank: int, g1: Tensor2, g: nat, i: int, h: int,
                  up: int)
    requires GmmOutput(g1, lhs, Shard(Concat(RhsAndScale(m.w1), RhsAndScale(m.w3), d.inter), Base(d, rank)),
                       keys, d, rank, d.dim, 2 * d.inter)
    requires Owns(d, rank, g) && InGroup(keys, g, i) && 0 <= h < d.inter && up == d.inter + h
    ensures g1(i, h) == Project(m.w1, g, h, d.dim, j => lhs(i, j))
    ensures g1(i, up) == Project(m.w3, g, h, d.dim, j => lhs(i, j))
  {
    hide *;
    var a := Shard(Concat(RhsAndScale(m.w1), RhsAndScale(m.w3), d.inter), Base(d, rank));
    forall j
      ensures Entry(a, g - Base(d, rank), j, h) == m.w1.Dequant(g, h, j)
      ensures Entry(a, g - Base(d, rank), j, up) == m.w3.Dequant(g, h, j)
    {
      Orientation(m, d.inter, Base(d, rank), g, j, h);
    }
    OwnedProjection(g1, lhs, a, keys, d, rank, d.dim, 2 * d.inter, g, i, h, m.w1, h);
    OwnedProjection(g1, lhs, a, keys, d, rank, d.dim, 2 * d.inter, g, i, up, m.w3, h);
  }

  /** On a row of one of its own groups, the rank's hidden row is that expert's. */
  lemma OwnedHidden(m: Experts, d: Dims, keys: seq<nat>, lhs: Tensor2, rank: int, b: Buffers, g: nat, i: int, h: int)
    requires RankRun(m, d, keys, lhs, rank, b) && Owns(d, rank, g) && InGroup(keys, g, i) && 0 <= h < d.inter
    ensures HiddenRows(m, d, b.g1)(i, h) == Hidden(m, d, g, j => lhs(i, j), h)
  {
    hide Project, GmmOutput, InGroup, Activate, Shard, Concat, RhsAndScale, Owns, Base;
    GateAndUp(m, d, keys, lhs, rank, b.g1, g, i, h, d.inter + h);
  }

  /** A row of one of the rank's own groups ends up as that expert's output on that row. */
  lemma OwnedRow(m: Experts, d: Dims, keys: seq<nat>, lhs: Tensor2, rank: int, b: Buffers, g: nat, i: int, c: int)
    requires RankRun(m, d, keys, lhs, rank, b) && Owns(d, rank, g) && InGroup(keys, g, i) && 0 <= c < d.dim
    ensures b.g2(i, c) == Ffn(m, d, g, j => lhs(i, j), c)
  {
    hide Sum, GmmOutput, InGroup, Entry, Shard, RhsAndScale, Hidden, HiddenRows, Owns, Base;
    var x := (j: int) => lhs(i, j);
    var a := Shard(RhsAndScale(m.w2), Base(d, rank));
    var rows := HiddenRows(m, d, b.g1);
    forall j ensures Entry(a, g - Base(d, rank), j, c) == m.w2.Dequant(g, c, j) {
      Orientation(m, d.inter, Base(d, rank), g, j, c);
    }
    OwnedProjection(b.g2, rows, a, keys, d, rank, d.inter, d.dim, g, i, c, m.w2, c);
    var f := (j: int) => (j => rows(i, j))(j) * m.w2.Dequant(g, c, j);
    var g' := (j: int) => (i => Hidden(m, d, g, x, i))(j) * m.w2.Dequant(g, c, j);
    forall j | 0 <= j < d.inter ensures f(j) == g'(j) {
      OwnedHidden(m, d, keys, lhs, rank, b, g, i, j);
    }
    SumExt(d.inter, f, g');
  }

  // ---- dispatch, revert, mask, combine ------------------------------------

  /** indices.reshape(-1) of the first n tokens: the slots of each token, one token after another. */
  function Flat(d: Dims, route: Route, n: nat): seq<nat>
  {
    if n == 0 then [] else Flat(d, route, n - 1) + seq(d.topK, s => route(n - 1, s))
  }

  /** Where slot s of token t lies in the flat order. */
  function Slot(d: Dims, t: int, s: int): int { t * d.topK + s }

  lemma {:induction false} FlatLength(d: Dims, route: Route, n: nat)
    ensures |Flat(d, route, n)| == n * d.topK
  {
    if n > 0 { FlatLength(d, route, n - 1); }
  }

  /** The flat order holds every slot's expert at its place. */
  lemma {:induction false} FlatAt(d: Dims, route: Route, n: nat, t: nat, s: nat)
    requires t < n && s < d.topK
    ensures 0 <= Slot(d, t, s) < |Flat(d, route, n)| && Flat(d, route, n)[Slot(d, t, s)] == route(t, s)
  {
    FlatLength(d, route, n - 1);
    Inside(n, d.topK, t, s);
    if t < n - 1 { FlatAt(d, route, n - 1, t, s); }
  }

  /** A flat list with an expert for every slot. */
  ghost predicate FlatRouting(d: Dims, idx: seq<nat>)
  {
    |idx| == d.Rows() && forall q :: 0 <= q < |idx| ==> idx[q] < d.Experts()
  }

  lemma FlatIsRouting(d: Dims, route: Route)
    requires Routing(d, route)
    ensures FlatRouting(d, Flat(d, route, d.tokens))
  {
    var idx := Flat(d, route, d.tokens);
    FlatLength(d, route, d.tokens);
    forall q | 0 <= q < |idx| ensures idx[q] < d.Experts() {
      Decompose(d.tokens, d.topK, q);
      FlatAt(d, route, d.tokens, q / d.topK, q % d.topK);
    }
  }

  lemma SlotInside(d: Dims, t: int, s: int)
    requires 0 <= t < d.tokens && 0 <= s < d.topK
    ensures 0 <= Slot(d, t, s) < d.Rows() && Slot(d, t, s) / d.topK == t && Slot(d, t, s) % d.topK == s
  {
    Inside(d.tokens, d.topK, t, s);
    Coordinates(t * d.topK + s, d.topK, t, s);
  }

  /** Row i of the sorted input: the token of the (token, slot) pair that was sorted there. */
  function SortedEntry(d: Dims, x: Tensor2, p: seq<nat>, i: int, j: int): real
  {
    if 0 <= i < |p| && d.topK > 0 then x(p[i] / d.topK, j) else 0.0
  }

  function SortedInput(d: Dims, x: Tensor2, p: seq<nat>): Tensor2
  {
    (i, j) => SortedEntry(d, x, p, i, j)
  }

  /** A slot's contribution on one rank: its reverted row if the rank owns its expert, else 0. */
  function SlotTerm(d: Dims, idx: seq<nat>, revert: seq<nat>, w: Tensor2, g2: Tensor2, rank: int, t: int, s: int,
                    c: int): real
  {
    var q := Slot(d, t, s);
    (if 0 <= q < |idx| && q < |revert| && Owns(d, rank, idx[q]) then g2(revert[q], c) else 0.0) * w(t, s)
  }

  /** One rank's weighted sum over the slots of token t. */
  function RankSum(d: Dims, idx: seq<nat>, revert: seq<nat>, w: Tensor2, b: Buffers, rank: int, t: int, c: int): real
  {
    Sum(d.topK, s => SlotTerm(d, idx, revert, w, b.g2, rank, t, s, c))
  }

  /** The psum over the ranks. */
  function Prefill(d: Dims, idx: seq<nat>, revert: seq<nat>, w: Tensor2, b: int -> Buffers, t: int, c: int): real
  {
    Sum(d.ranks, r => RankSum(d, idx, revert, w, b(r), r, t, c))
  }

  lemma ExpertsPositive(d: Dims)
    requires d.Experts() > 0
    ensures d.perRank > 0
  {
  }

  /** Each expert is owned by exactly one rank. */
  lemma OneOwner(d: Dims, rank: nat, g: nat)
    requires g < d.Experts() && rank < d.ranks
    ensures d.perRank > 0 && g / d.perRank < d.ranks
    ensures Owns(d, rank, g) <==> rank == g / d.perRank
  {
    ExpertsPositive(d);
    Decompose(d.ranks, d.perRank, g);
    if Owns(d, rank, g) {
      Coordinates(g, d.perRank, rank, g - rank * d.perRank);
    }
  }

  lemma ProjectExt(w: Leaf, e: int, o: int, n: nat, x: int -> real, y: int -> real)
    requires forall k :: 0 <= k < n ==> x(k) == y(k)
    ensures Project(w, e, o, n, x) == Project(w, e, o, n, y)
  {
    hide Sum, Leaf.Dequant;
    SumExt(n, k => x(k) * w.Dequant(e, o, k), k => y(k) * w.Dequant(e, o, k));
  }

  lemma FfnExt(m: Experts, d: Dims, e: int, x: int -> real, y: int -> real, c: int)
    requires forall k :: 0 <= k < d.dim ==> x(k) == y(k)
    ensures Ffn(m, d, e, x, c) == Ffn(m, d, e, y, c)
  {
    hide Project, Activate;
    forall i ensures Hidden(m, d, e, x, i) == Hidden(m, d, e, y, i) {
      ProjectExt(m.w1, e, i, d.dim, x, y);
      ProjectExt(m.w3, e, i, d.dim, x, y);
    }
    ProjectExt(m.w2, e, c, d.inter, i => Hidden(m, d, e, x, i), i => Hidden(m, d, e, y, i));
  }

  /** All ranks' buffers come from the two matmuls on the sorted input; whatever else they
      hold is arbitrary. */
  ghost predicate Ran(m: Experts, d: Dims, x: Tensor2, idx: seq<nat>, p: seq<nat>, b: int -> Buffers)
  {
    forall r :: 0 <= r < d.ranks ==> RankRun(m, d, idx, SortedInput(d, x, p), r, b(r))
  }

  /** There are such buffers for any weights, input and routing, and with them the premises of
      the results below can be met. */
  lemma SomeRan(m: Experts, d: Dims, x: Tensor2, idx: seq<nat>, p: seq<nat>) returns (b: int -> Buffers)
    ensures Ran(m, d, x, idx, p, b)
  {
    hide RankRun, RunOf;
    var lhs := SortedInput(d, x, p);
    b := r => RunOf(m, d, idx, lhs, r);
    forall r ensures RankRun(m, d, idx, lhs, r, b(r)) { SomeRun(m, d, idx, lhs, r); }
  }

  /** On the rank that owns its expert, a slot's reverted row is its expert's output for its
      own token. */
  lemma RevertedRow(m: Experts, d: Dims, x: Tensor2, idx: seq<nat>, p: seq<nat>, revert: seq<nat>, b: int -> Buffers,
                    rank: int, t: int, s: int, c: int)
    requires FlatRouting(d, idx) && IsArgsort(idx, p) && IsArgsort(p, revert) && Ran(m, d, x, idx, p, b)
    requires 0 <= t < d.tokens && 0 <= s < d.topK && 0 <= c < d.dim && 0 <= rank < d.ranks
    requires 0 <= Slot(d, t, s) < |idx| && Owns(d, rank, idx[Slot(d, t, s)])
    ensures |revert| == |idx| && b(rank).g2(revert[Slot(d, t, s)], c) == Ffn(m, d, idx[Slot(d, t, s)], k => x(t, k), c)
  {
    hide RankRun, Owns, Ffn, SortedEntry;
    var q := Slot(d, t, s);
    SlotInside(d, t, s);
    InverseBySortOrScatter(p, revert);
    var i := revert[q];
    assert p[i] == q;
    GroupInterval(idx, p, idx[q], i);
    assert InGroup(idx, idx[q], i);
    var lhs := SortedInput(d, x, p);
    OwnedRow(m, d, idx, lhs, rank, b(rank), idx[q], i, c);
    forall k ensures lhs(i, k) == x(t, k) {
      SortedEntryAt(d, x, p, i, k);
    }
    FfnExt(m, d, idx[q], j => lhs(i, j), k => x(t, k), c);
  }

  lemma SortedEntryAt(d: Dims, x: Tensor2, p: seq<nat>, i: int, k: int)
    requires 0 <= i < |p| && d.topK > 0
    ensures SortedEntry(d, x, p, i, k) == x(p[i] / d.topK, k)
  {
  }

  /** The sharded prefill path computes exactly the routed sum for every token, whatever the
      rows that no matmul wrote happen to hold. */
  lemma PrefillIsRouted(m: Experts, d: Dims, x: Tensor2, route: Route, w: Tensor2, p: seq<nat>, revert: seq<nat>,
                        b: int -> Buffers, t: int, c: int)
    requires Routing(d, route) && IsArgsort(Flat(d, route, d.tokens), p) && IsArgsort(p, revert)
    requires Ran(m, d, x, Flat(d, route, d.tokens), p, b) && 0 <= t < d.tokens && 0 <= c < d.dim
    ensures Prefill(d, Flat(d, route, d.tokens), revert, w, b, t, c) == Routed(m, d, x, route, w, t, c)
  {
    hide Sum, Ran, Ffn, Owns, IsArgsort, Flat, Routed;
    RoutedIs(m, d, x, route, w, t, c);
    var idx := Flat(d, route, d.tokens);
    FlatIsRouting(d, route);
    var f := (r: int, s: int) => SlotTerm(d, idx, revert, w, b(r).g2, r, t, s, c);
    var routed := (s: int) => RoutedSlot(m, d, x, route, w, t, s, c);
    SumExt(d.ranks, r => RankSum(d, idx, revert, w, b(r), r, t, c), r => Sum(d.topK, s => f(r, s))) by {
      forall r ensures RankSum(d, idx, revert, w, b(r), r, t, c) == Sum(d.topK, s => f(r, s)) {
        SumExt(d.topK, s => SlotTerm(d, idx, revert, w, b(r).g2, r, t, s, c), s => f(r, s));
      }
    }
    SumSwap(d.ranks, d.topK, f);
    forall s | 0 <= s < d.topK ensures Sum(d.ranks, r => f(r, s)) == routed(s) {
      SlotSum(m, d, x, idx, w, p, revert, b, t, s, c);
      FlatAt(d, route, d.tokens, t, s);
      SumExt(d.ranks, r => SlotTerm(d, idx, revert, w, b(r).g2, r, t, s, c), r => f(r, s));
    }
    SumExt(d.topK, s => Sum(d.ranks, r => f(r, s)), routed);
  }

  lemma NotOwned(d: Dims, idx: seq<nat>, revert: seq<nat>, w: Tensor2, g2: Tensor2, rank: int, t: int, s: int, c: int)
    requires 0 <= Slot(d, t, s) < |idx| && !Owns(d, rank, idx[Slot(d, t, s)])
    ensures SlotTerm(d, idx, revert, w, g2, rank, t, s, c) == 0.0
  {
    hide Owns;
  }

  /** Over all ranks, a slot contributes once. */
  lemma SlotSum(m: Experts, d: Dims, x: Tensor2, idx: seq<nat>, w: Tensor2, p: seq<nat>, revert: seq<nat>,
                b: int -> Buffers, t: int, s: int, c: int)
    requires FlatRouting(d, idx) && IsArgsort(idx, p) && IsArgsort(p, revert) && Ran(m, d, x, idx, p, b)
    requires 0 <= t < d.tokens && 0 <= s < d.topK && 0 <= c < d.dim
    ensures 0 <= Slot(d, t, s) < |idx|
    ensures Sum(d.ranks, r => SlotTerm(d, idx, revert, w, b(r).g2, r, t, s, c))
         == Ffn(m, d, idx[Slot(d, t, s)], k => x(t, k), c) * w(t, s)
  {
    hide Sum, Ran, Ffn, Owns;
    SlotInside(d, t, s);
    var g := idx[Slot(d, t, s)];
    OneOwner0(d, g);
    var owner := g / d.perRank;
    var f := (r: int) => SlotTerm(d, idx, revert, w, b(r).g2, r, t, s, c);
    assert |revert| == |idx|;
    forall r: int | 0 <= r < d.ranks ensures Owns(d, r, g) <==> r == owner
      ensures r != owner ==> f(r) == 0.0
    {
      OneOwner(d, r, g);
      if r != owner { NotOwned(d, idx, revert, w, b(r).g2, r, t, s, c); }
    }
    RevertedRow(m, d, x, idx, p, revert, b, owner, t, s, c);
    SumSingle(d.ranks, f, owner);
  }

  lemma OneOwner0(d: Dims, g: nat)
    requires g < d.Experts()
    ensures d.perRank > 0 && g / d.perRank < d.ranks
  {
    ExpertsPositive(d);
    Decompose(d.ranks, d.perRank, g);
  }

  /** The sharded prefill path and the dense path agree on every token and every output. */
  lemma PrefillEqualsDense(m: Experts, d: Dims, x: Tensor2, route: Route, w: Tensor2, p: seq<nat>, revert: seq<nat>,
                           b: int -> Buffers, t: int, c: int)
    requires Routing(d, route) && IsArgsort(Flat(d, route, d.tokens), p) && IsArgsort(p, revert)
    requires Ran(m, d, x, Flat(d, route, d.tokens), p, b) && 0 <= t < d.tokens && 0 <= c < d.dim
    ensures d.Experts() >= 0
    ensures Prefill(d, Flat(d, route, d.tokens), revert, w, b, t, c)
         == Dense(m, d, x, (t, e) => ExpertWeight(d, route, w, t, e), t, c)
  {
    hide *;
    PrefillIsRouted(m, d, x, route, w, p, revert, b, t, c);
    DenseIsRouted(m, d, x, route, w, t, c);
  }

  /** Why the mask is there: the row of a slot whose expert the rank does not own may hold any
      number v after the two matmuls, so an unmasked sum could be anything. */
  lemma UnownedRowIsArbitrary(m: Experts, d: Dims, idx: seq<nat>, lhs: Tensor2, p: seq<nat>, revert: seq<nat>,
                              rank: int, b: Buffers, q: nat, c: int, v: real) returns (b2: Buffers)
    requires IsArgsort(idx, p) && IsArgsort(p, revert) && RankRun(m, d, idx, lhs, rank, b)
    requires q < |idx| && !Owns(d, rank, idx[q])
    ensures |revert| == |idx| && RankRun(m, d, idx, lhs, rank, b2) && b2.g2(revert[q], c) == v
  {
    hide Owns, HiddenEntry, Base, Shard, RhsAndScale, Concat, Entry, Sum;
    InverseBySortOrScatter(p, revert);
    var row := revert[q];
    b2 := Buffers(b.g1, (i, c2) => if i == row && c2 == c then v else b.g2(i, c2));
    forall g: nat | Owns(d, rank, g) ensures !InGroup(idx, g, row) {
      GroupInterval(idx, p, g, row);
    }
  }

  // ---- the fused decode path ----------------------------------------------

  /** One rank's experts as a layer of their own. */
  function Local(w: Leaf, base: int): Leaf
  {
    Leaf((e, o, k) => w.codes(base + e, o, k), (e, o, b) => w.scales(base + e, o, b))
  }

  function LocalExperts(m: Experts, base: int): Experts
  {
    m.(w1 := Local(m.w1, base), w3 := Local(m.w3, base), w2 := Local(m.w2, base))
  }

  lemma LocalDequant(w: Leaf, base: int, e: int, o: int, k: int)
    ensures Local(w, base).Dequant(e, o, k) == w.Dequant(base + e, o, k)
  {
  }

  lemma LocalProject(w: Leaf, base: int, e: int, o: int, n: nat, x: int -> real)
    ensures Project(Local(w, base), e, o, n, x) == Project(w, base + e, o, n, x)
  {
    hide Sum, Leaf.Dequant, Local;
    var u := Local(w, base);
    forall k ensures u.Dequant(e, o, k) == w.Dequant(base + e, o, k) { LocalDequant(w, base, e, o, k); }
    SumExt(n, k => x(k) * u.Dequant(e, o, k), k => x(k) * w.Dequant(base + e, o, k));
  }

  lemma LocalFfn(m: Experts, d: Dims, base: int, e: int, x: int -> real, c: int)
    ensures Ffn(LocalExperts(m, base), d, e, x, c) == Ffn(m, d, base + e, x, c)
  {
    hide Project, Activate, Local;
    var n := LocalExperts(m, base);
    forall i ensures Hidden(n, d, e, x, i) == Hidden(m, d, base + e, x, i) {
      LocalProject(m.w1, base, e, i, d.dim, x);
      LocalProject(m.w3, base, e, i, d.dim, x);
      SameActivation(m, base, Project(m.w1, base + e, i, d.dim, x), Project(m.w3, base + e, i, d.dim, x));
    }
    LocalProject(m.w2, base, e, c, d.inter, i => Hidden(n, d, e, x, i));
    ProjectExt(m.w2, base + e, c, d.inter, i => Hidden(n, d, e, x, i), i => Hidden(m, d, base + e, x, i));
  }

  lemma SameActivation(m: Experts, base: int, g: real, u: real)
    ensures Activate(LocalExperts(m, base), g, u) == Activate(m, g, u)
  {
  }

  /** One row per local expert: group e is row e. */
  function OneEach(n: nat): seq<nat> { seq(n, i => i) }

  lemma OneRowPerGroup(n: nat, e: nat)
    requires e < n
    ensures InGroup(OneEach(n), e, e)
  {
    GroupInterval(OneEach(n), OneEach(n), e, e);
  }

  /** One rank of the fused path: the token is broadcast to every local expert. */
  ghost predicate FusedRun(m: Experts, d: Dims, x: int -> real, rank: int, b: Buffers)
  {
    RankRun(LocalExperts(m, Base(d, rank)), d, OneEach(d.perRank), (i, k) => x(k), 0, b)
  }

  /** Routing weight after the down projection, summed over the local experts, then over
      the ranks. */
  function Fused(d: Dims, pew: int -> real, b: int -> Buffers, c: int): real
  {
    Sum(d.ranks, r => Sum(d.perRank, e => b(r).g2(e, c) * pew(r * d.perRank + e)))
  }

  lemma FusedRow(m: Experts, d: Dims, x: int -> real, rank: int, b: Buffers, e: nat, c: int)
    requires FusedRun(m, d, x, rank, b) && e < d.perRank && 0 <= c < d.dim
    ensures b.g2(e, c) == Ffn(m, d, Base(d, rank) + e, x, c)
  {
    hide RankRun, Ffn, InGroup;
    OneRowPerGroup(d.perRank, e);
    var lhs: Tensor2 := (i, k) => x(k);
    var n := LocalExperts(m, Base(d, rank));
    OwnedRow(n, d, OneEach(d.perRank), lhs, 0, b, e, e, c);
    FfnExt(n, d, e, j => lhs(e, j), x, c);
    LocalFfn(m, d, Base(d, rank), e, x, c);
  }

  /** The fused decode path equals the dense path for every number of ranks. */
  lemma FusedEqualsDense(m: Experts, d: Dims, x: int -> real, pew: int -> real, b: int -> Buffers, c: int)
    requires forall r :: 0 <= r < d.ranks ==> FusedRun(m, d, x, r, b(r))
    requires 0 <= c < d.dim
    ensures d.Experts() >= 0
    ensures Fused(d, pew, b, c) == Dense(m, d, (t, k) => x(k), (t, e) => pew(e), 0, c)
  {
    hide Sum, Ffn, FusedRun, Dense;
    NatProduct(d.ranks, d.perRank);
    var term := (e: int) => Ffn(m, d, e, x, c) * pew(e);
    var blocks := (r: int) => Sum(d.perRank, e => term(r * d.perRank + e));
    var local := (r: int) => Sum(d.perRank, e => b(r).g2(e, c) * pew(r * d.perRank + e));
    forall r | 0 <= r < d.ranks ensures local(r) == blocks(r) {
      forall e: nat | e < d.perRank ensures b(r).g2(e, c) == Ffn(m, d, r * d.perRank + e, x, c) {
        FusedRow(m, d, x, r, b(r), e, c);
      }
      SumExt(d.perRank, e => b(r).g2(e, c) * pew(r * d.perRank + e), e => term(r * d.perRank + e));
    }
    SumExt(d.ranks, local, blocks);
    SumExt(d.ranks, blocks, r => Sum(d.perRank, e => term(r * d.perRank + e)));
    SumBlocks(d.ranks, d.perRank, term);
    DenseOneToken(m, d, x, pew, c);
  }

  lemma DenseOneToken(m: Experts, d: Dims, x: int -> real, pew: int -> real, c: int)
    requires d.Experts() >= 0
    ensures Dense(m, d, (t, k) => x(k), (t, e) => pew(e), 0, c) == Sum(d.Experts(), e => Ffn(m, d, e, x, c) * pew(e))
  {
    hide Sum, Ffn, Dense;
    var x2: Tensor2, pew2: Tensor2 := (t, k) => x(k), (t, e) => pew(e);
    DenseByExpert(m, d, x2, pew2, 0, c);
    var term := (e: int) => Ffn(m, d, e, x, c) * pew(e);
    var term2 := (e: int) => Ffn(m, d, e, k => x2(0, k), c) * pew2(0, e);
    forall e ensures term2(e) == term(e) { FfnExt(m, d, e, k => x2(0, k), x, c); }
    SumExt(d.Experts(), term2, term);
  }
}
