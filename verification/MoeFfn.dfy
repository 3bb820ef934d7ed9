/** The routed-expert FFN on its three execution paths: the dense einsum path, the sharded
    sort-and-dispatch prefill path, and the sharded fused decode path. Tensors are functions
    of their indices, arithmetic is exact, and the activation silu is any function. */
module MoeFfn {
  import opened Index
  import opened Sums

  type Tensor2 = (int, int) -> real
  type Tensor3 = (int, int, int) -> real

  /** Quantised expert weights [E, out, in]: code values and one scale per 32 inputs. */
  datatype Leaf = Leaf(codes: Tensor3, scales: Tensor3) {
    /** _dequant_fp4_experts: broadcast the scale of each block over its 32 codes. */
    function Dequant(e: int, o: int, k: int): real { codes(e, o, k) * scales(e, o, k / BLOCK) }
  }

  /** The experts of the layer: gate (w1) and up (w3) projections [E, inter, dim], down (w2)
      projection [E, dim, inter]; silu and the swiglu limit. */
  datatype Experts = Experts(w1: Leaf, w3: Leaf, w2: Leaf, silu: real -> real, limit: real)

  datatype Dims = Dims(tokens: nat, topK: nat, ranks: nat, perRank: nat, dim: nat, inter: nat) {
    function Experts(): int { ranks * perRank }
    function Rows(): int { tokens * topK }
  }

  // ---- dequantising a row -------------------------------------------------

  /** Reshape to blocks, multiply every block by its one scale, flatten. */
  function BlockByBlock(codes: seq<real>, scales: seq<real>): (w: seq<real>)
    requires |codes| == BLOCK * |scales|
    ensures |w| == |codes|
  {
    if scales == [] then [] else
      seq(BLOCK, j requires 0 <= j < BLOCK => codes[j] * scales[0]) + BlockByBlock(codes[BLOCK..], scales[1..])
  }

  /** The broadcast over blocks is the elementwise product with the scales repeated. */
  lemma {:induction false} BlockByBlockIsRepeat(codes: seq<real>, scales: seq<real>, k: nat)
    requires |codes| == 32 * |scales| && k < |codes|
    ensures k / 32 < |scales| && BlockByBlock(codes, scales)[k] == codes[k] * scales[k / 32]
  {
    if k >= BLOCK {
      BlockByBlockIsRepeat(codes[BLOCK..], scales[1..], k - BLOCK);
      assert (k - BLOCK) / BLOCK == k / BLOCK - 1;
    }
  }

  // ---- one expert on one input row ----------------------------------------

  function ClipUp(m: Experts, u: real): real
  {
    if m.limit > 0.0 then (if u < -m.limit then -m.limit else if u > m.limit then m.limit else u) else u
  }

  function ClipGate(m: Experts, g: real): real
  {
    if m.limit > 0.0 && g > m.limit then m.limit else g
  }

  function Activate(m: Experts, gate: real, up: real): real
  {
    m.silu(ClipGate(m, gate)) * ClipUp(m, up)
  }

  /** Row i of a projection applied to x. */
  function Project(w: Leaf, e: int, i: int, n: nat, x: int -> real): real
  {
    Sum(n, k => x(k) * w.Dequant(e, i, k))
  }

  /** Hidden activation i of expert e. */
  function Hidden(m: Experts, d: Dims, e: int, x: int -> real, i: int): real
  {
    Activate(m, Project(m.w1, e, i, d.dim, x), Project(m.w3, e, i, d.dim, x))
  }

  /** Output c of expert e on input x. */
  function Ffn(m: Experts, d: Dims, e: int, x: int -> real, c: int): real
  {
    Project(m.w2, e, c, d.inter, i => Hidden(m, d, e, x, i))
  }

  // ---- the reference for one expert ---------------------------------------

  function Min(x: real, y: real): real { if x <= y then x else y }
  function Max(x: real, y: real): real { if x <= y then y else x }

  /** expert_forward before the down projection. */
  function ForwardHidden(m: Experts, d: Dims, e: int, x: int -> real, p: real, i: int): real
  {
    var gate := Sum(d.dim, k => x(k) * m.w1.Dequant(e, i, k));
    var up := Sum(d.dim, k => x(k) * m.w3.Dequant(e, i, k));
    if m.limit > 0.0 then m.silu(Min(gate, m.limit)) * Min(Max(up, -m.limit), m.limit) * p
    else m.silu(gate) * up * p
  }

  /** expert_forward: output c of expert e on x, the routing weight p applied to the hidden row. */
  function ExpertForward(m: Experts, d: Dims, e: int, x: int -> real, p: real, c: int): real
  {
    Sum(d.inter, i => ForwardHidden(m, d, e, x, p, i) * m.w2.Dequant(e, c, i))
  }

  lemma HiddenIsForward(m: Experts, d: Dims, e: int, x: int -> real, p: real, i: int)
    ensures ForwardHidden(m, d, e, x, p, i) == Hidden(m, d, e, x, i) * p
  {
    hide Sum, Leaf.Dequant;
    var gate, up := Project(m.w1, e, i, d.dim, x), Project(m.w3, e, i, d.dim, x);
    assert gate == Sum(d.dim, k => x(k) * m.w1.Dequant(e, i, k));
    assert up == Sum(d.dim, k => x(k) * m.w3.Dequant(e, i, k));
    hide Project;
    ClipsAre(m, gate, up);
  }

  lemma ClipsAre(m: Experts, gate: real, up: real)
    ensures ClipGate(m, gate) == if m.limit > 0.0 then Min(gate, m.limit) else gate
    ensures ClipUp(m, up) == if m.limit > 0.0 then Min(Max(up, -m.limit), m.limit) else up
  {
  }

  /** The parts the paths are made of compute the reference. */
  lemma ForwardIsFfn(m: Experts, d: Dims, e: int, x: int -> real, p: real, c: int)
    ensures ExpertForward(m, d, e, x, p, c) == Ffn(m, d, e, x, c) * p
  {
    hide Sum, Leaf.Dequant, Hidden, ForwardHidden, Ffn;
    var h := (i: int) => Hidden(m, d, e, x, i) * p;
    forall i ensures ForwardHidden(m, d, e, x, p, i) == h(i) { HiddenIsForward(m, d, e, x, p, i); }
    WeightAfterDown(m, d, e, x, p, c);
    SumExt(d.inter, i => ForwardHidden(m, d, e, x, p, i) * m.w2.Dequant(e, c, i),
           i => h(i) * m.w2.Dequant(e, c, i));
  }

  // ---- the dense path -----------------------------------------------------

  /** The expert that slot s of token t goes to. */
  type Route = (int, int) -> nat

  /** one_hot(indices) contracted with the routing weights. */
  function ExpertWeight(d: Dims, route: Route, w: Tensor2, t: int, e: int): real
  {
    Sum(d.topK, s => OneHot(route, t, s, e) * w(t, s))
  }

  /** one_hot of the expert of slot s of token t. */
  function OneHot(route: Route, t: int, s: int, e: int): real
  {
    if route(t, s) == e then 1.0 else 0.0
  }

  /** Sum over all experts, the routing weight applied to the hidden row. */
  function Dense(m: Experts, d: Dims, x: Tensor2, pew: Tensor2, t: int, c: int): real
    requires d.Experts() >= 0
  {
    Sum(d.Experts(), e => Project(m.w2, e, c, d.inter, i => Hidden(m, d, e, k => x(t, k), i) * pew(t, e)))
  }

  /** Weighting before the down projection is weighting after it. */
  lemma WeightAfterDown(m: Experts, d: Dims, e: int, x: int -> real, p: real, c: int)
    ensures Project(m.w2, e, c, d.inter, i => Hidden(m, d, e, x, i) * p) == Ffn(m, d, e, x, c) * p
  {
    hide Sum, Hidden;
    var f := (k: int) => (i => Hidden(m, d, e, x, i))(k) * m.w2.Dequant(e, c, k);
    var g := (k: int) => (i => Hidden(m, d, e, x, i) * p)(k) * m.w2.Dequant(e, c, k);
    SumScale(d.inter, f, p);
    SumExt(d.inter, k => f(k) * p, g);
    assert Ffn(m, d, e, x, c) == Sum(d.inter, f);
    assert Project(m.w2, e, c, d.inter, i => Hidden(m, d, e, x, i) * p) == Sum(d.inter, g);
  }

  /** The dense path is the weighted sum of the experts' outputs. */
  lemma DenseByExpert(m: Experts, d: Dims, x: Tensor2, pew: Tensor2, t: int, c: int)
    requires d.Experts() >= 0
    ensures Dense(m, d, x, pew, t, c) == Sum(d.Experts(), e => Ffn(m, d, e, k => x(t, k), c) * pew(t, e))
  {
    hide Sum, Ffn, Project, Hidden;
    var f := (e: int) => Project(m.w2, e, c, d.inter, i => Hidden(m, d, e, k => x(t, k), i) * pew(t, e));
    var g := (e: int) => Ffn(m, d, e, k => x(t, k), c) * pew(t, e);
    forall e | 0 <= e < d.Experts() ensures f(e) == g(e) {
      WeightAfterDown(m, d, e, k => x(t, k), pew(t, e), c);
    }
    SumExt(d.Experts(), f, g);
  }

  // ---- what routing means -------------------------------------------------

  /** Every slot of every token goes to an expert there is. */
  ghost predicate Routing(d: Dims, route: Route)
  {
    forall t, s :: 0 <= t < d.tokens && 0 <= s < d.topK ==> route(t, s) < d.Experts()
  }

  /** Token t's output: the reference for each slot's expert on the token, added. */
  ghost function Routed(m: Experts, d: Dims, x: Tensor2, route: Route, w: Tensor2, t: int, c: int): real
  {
    Sum(d.topK, s => ExpertForward(m, d, route(t, s), k => x(t, k), w(t, s), c))
  }

  function RoutedSlot(m: Experts, d: Dims, x: Tensor2, route: Route, w: Tensor2, t: int, s: int, c: int): real
  {
    Ffn(m, d, route(t, s), k => x(t, k), c) * w(t, s)
  }

  lemma RoutedIs(m: Experts, d: Dims, x: Tensor2, route: Route, w: Tensor2, t: int, c: int)
    ensures Routed(m, d, x, route, w, t, c) == Sum(d.topK, s => RoutedSlot(m, d, x, route, w, t, s, c))
  {
    hide Sum, Ffn, ExpertForward;
    forall s ensures ExpertForward(m, d, route(t, s), k => x(t, k), w(t, s), c)
                  == RoutedSlot(m, d, x, route, w, t, s, c)
    {
      ForwardIsFfn(m, d, route(t, s), k => x(t, k), w(t, s), c);
    }
    SumExt(d.topK, s => ExpertForward(m, d, route(t, s), k => x(t, k), w(t, s), c),
           s => RoutedSlot(m, d, x, route, w, t, s, c));
  }

  /** What expert e gives token t through slot s. */
  function Contribution(route: Route, w: Tensor2, f: int -> real, t: int, e: int, s: int): real
  {
    f(e) * (OneHot(route, t, s, e) * w(t, s))
  }

  /** Only the slot's own expert survives the one-hot. */
  lemma OneHotSlot(d: Dims, route: Route, f: int -> real, w: Tensor2, t: int, s: int)
    requires Routing(d, route) && 0 <= t < d.tokens && 0 <= s < d.topK
    ensures d.Experts() >= 0
    ensures Sum(d.Experts(), e => Contribution(route, w, f, t, e, s)) == f(route(t, s)) * w(t, s)
  {
    hide Sum;
    var own := route(t, s);
    var g := (e: int) => Contribution(route, w, f, t, e, s);
    forall e | 0 <= e < d.Experts() && e != own ensures g(e) == 0.0 {
      Annihilate(f(e), w(t, s));
    }
    SumSingle(d.Experts(), g, own);
  }

  lemma Annihilate(x: real, y: real)
    ensures x * (0.0 * y) == 0.0
  {
  }

  /** An expert's weighted output is the sum of its contributions over the slots. */
  lemma ExpertTerm(d: Dims, route: Route, w: Tensor2, f: int -> real, t: int, e: int)
    ensures f(e) * ExpertWeight(d, route, w, t, e) == Sum(d.topK, s => Contribution(route, w, f, t, e, s))
  {
    hide Sum, OneHot;
    var hot := (s: int) => OneHot(route, t, s, e) * w(t, s);
    SumScale(d.topK, hot, f(e));
    SumExt(d.topK, s => hot(s) * f(e), s => Contribution(route, w, f, t, e, s));
  }

  /** The dense path over all experts computes exactly the routed sum, also when a token
      names the same expert in two slots. */
  lemma DenseIsRouted(m: Experts, d: Dims, x: Tensor2, route: Route, w: Tensor2, t: int, c: int)
    requires Routing(d, route) && 0 <= t < d.tokens
    ensures d.Experts() >= 0
    ensures Dense(m, d, x, (t, e) => ExpertWeight(d, route, w, t, e), t, c) == Routed(m, d, x, route, w, t, c)
  {
    hide Sum, Ffn, Dense, ExpertWeight, Contribution, Routed;
    RoutedIs(m, d, x, route, w, t, c);
    NatProduct(d.ranks, d.perRank);
    var pew := (t: int, e: int) => ExpertWeight(d, route, w, t, e);
    var f := (e: int) => Ffn(m, d, e, k => x(t, k), c);
    var g := (e: int, s: int) => Contribution(route, w, f, t, e, s);
    DenseByExpert(m, d, x, pew, t, c);
    var weighted := (e: int) => f(e) * pew(t, e);
    SumExt(d.Experts(), e => Ffn(m, d, e, k => x(t, k), c) * pew(t, e), weighted);
    forall e ensures weighted(e) == Sum(d.topK, s => g(e, s)) {
      ExpertTerm(d, route, w, f, t, e);
      SumExt(d.topK, s => Contribution(route, w, f, t, e, s), s => g(e, s));
    }
    SumExt(d.Experts(), weighted, e => Sum(d.topK, s => g(e, s)));
    SumSwap(d.Experts(), d.topK, g);
    forall s | 0 <= s < d.topK ensures Sum(d.Experts(), e => g(e, s)) == RoutedSlot(m, d, x, route, w, t, s, c) {
      OneHotSlot(d, route, f, w, t, s);
      SumExt(d.Experts(), e => Contribution(route, w, f, t, e, s), e => g(e, s));
    }
    SumExt(d.topK, s => Sum(d.Experts(), e => g(e, s)), s => RoutedSlot(m, d, x, route, w, t, s, c));
  }
}
