/** Sort-by-expert dispatch: the forward argsort of the flattened expert ids, the inverse
    permutation by a second argsort or by a scatter, and the contiguous interval of rows
    each expert gets. argsort is given by its contract. */
module Dispatch {
  import opened Unique
  import S = Sorting

  // ---- permutations -------------------------------------------------------

  ghost predicate IsPermutation(p: seq<nat>)
  {
    && (forall i :: 0 <= i < |p| ==> p[i] < |p|)
    && (forall i, j :: 0 <= i < j < |p| ==> p[i] != p[j])
  }

  /** p is an argsort of keys: a permutation that lists the keys in non-decreasing order,
      equal keys in their original order. */
  ghost predicate IsArgsort(keys: seq<nat>, p: seq<nat>)
  {
    && |p| == |keys| && IsPermutation(p)
    && (forall i, j :: 0 <= i < j < |p| ==> keys[p[i]] <= keys[p[j]])
    && (forall i, j :: 0 <= i < j < |p| && keys[p[i]] == keys[p[j]] ==> p[i] < p[j])
  }

  ghost predicate IsInverse(p: seq<nat>, q: seq<nat>)
  {
    && |q| == |p|
    && (forall i :: 0 <= i < |p| ==> p[i] < |p| && q[p[i]] == i)
    && (forall j :: 0 <= j < |q| ==> q[j] < |p| && p[q[j]] == j)
  }

  /** zeros(M).at[p].set(arange(M)): writes 0, 1, ... at the listed positions, in order. */
  function Scatter(p: seq<nat>, n: nat): (q: seq<nat>)
    requires n <= |p| && forall i :: 0 <= i < |p| ==> p[i] < |p|
    ensures |q| == |p|
  {
    if n == 0 then seq(|p|, _ => 0) else Scatter(p, n - 1)[p[n - 1] := n - 1]
  }

  lemma {:induction false} ScatterWrites(p: seq<nat>, n: nat)
    requires n <= |p| && IsPermutation(p)
    ensures forall i :: 0 <= i < n ==> Scatter(p, n)[p[i]] == i
  {
    if n > 0 { ScatterWrites(p, n - 1); }
  }

  /** {0, ..., n - 1}. */
  ghost function Range(n: nat): (r: set<int>)
    ensures forall j :: j in r <==> 0 <= j < n
    ensures |r| == n
  {
    if n == 0 then {} else Range(n - 1) + {n - 1}
  }

  /** Every position is listed by a permutation. */
  lemma Onto(p: seq<nat>, j: nat) returns (i: nat)
    requires IsPermutation(p) && j < |p|
    ensures i < |p| && p[i] == j
  {
    DistinctSize(p);
    SubsetFull(Elements(p), Range(|p|));
    assert j in Elements(p);
    i :| 0 <= i < |p| && p[i] == j;
  }

  /** The scatter is the two-sided inverse of any permutation. */
  lemma ScatterIsInverse(p: seq<nat>)
    requires IsPermutation(p)
    ensures IsInverse(p, Scatter(p, |p|))
  {
    var q := Scatter(p, |p|);
    ScatterWrites(p, |p|);
    forall j | 0 <= j < |q| ensures q[j] < |p| && p[q[j]] == j {
      var i := Onto(p, j);
    }
  }

  /** An argsort of a permutation lists 0, 1, 2, ... */
  lemma {:induction false} ArgsortOfPermutation(p: seq<nat>, q: seq<nat>, i: nat)
    requires IsPermutation(p) && IsArgsort(p, q) && i < |p|
    ensures p[q[i]] >= i
  {
    if i > 0 {
      ArgsortOfPermutation(p, q, i - 1);
      assert p[q[i - 1]] != p[q[i]];
    }
  }

  lemma {:induction false} ArgsortOfPermutationUpper(p: seq<nat>, q: seq<nat>, i: nat)
    requires IsPermutation(p) && IsArgsort(p, q) && i < |p|
    ensures p[q[i]] <= i
    decreases |p| - i
  {
    if i + 1 < |p| {
      ArgsortOfPermutationUpper(p, q, i + 1);
      assert p[q[i]] != p[q[i + 1]];
    }
  }

  lemma ArgsortInverts(p: seq<nat>, q: seq<nat>, i: nat)
    requires IsPermutation(p) && IsArgsort(p, q) && i < |p|
    ensures q[i] < |p| && p[q[i]] == i
  {
    ArgsortOfPermutation(p, q, i);
    ArgsortOfPermutationUpper(p, q, i);
  }

  lemma OneInverse(p: seq<nat>, q: seq<nat>, r: seq<nat>)
    requires |q| == |p| && IsInverse(p, r) && forall i :: 0 <= i < |p| ==> q[i] < |p| && p[q[i]] == i
    ensures q == r
  {
    forall i | 0 <= i < |p| ensures q[i] == r[i] {
      assert r[p[q[i]]] == q[i];
    }
  }

  /** The second argsort and the scatter compute the same inverse permutation. */
  lemma InverseBySortOrScatter(p: seq<nat>, q: seq<nat>)
    requires IsPermutation(p) && IsArgsort(p, q)
    ensures q == Scatter(p, |p|) && IsInverse(p, q)
  {
    ScatterIsInverse(p);
    forall i: nat | i < |p| ensures q[i] < |p| && p[q[i]] == i { ArgsortInverts(p, q, i); }
    assert |q| == |p|;
    hide IsArgsort, IsPermutation, IsInverse, Scatter;
    OneInverse(p, q, Scatter(p, |p|));
  }

  // ---- there is one argsort -----------------------------------------------

  function Iota(n: nat): seq<nat> { seq(n, i => i) }

  function KeyOf(keys: seq<nat>): nat -> S.Key { (i: nat) => S.Key(if i < |keys| then keys[i] as real else 0.0, i) }

  /** Every list of keys has an argsort. */
  lemma SomeArgsort(keys: seq<nat>) returns (p: seq<nat>)
    ensures IsArgsort(keys, p)
  {
    p := S.Sort(Iota(|keys|), KeyOf(keys));
    IotaAgain(p, |keys|);
    forall i, j | 0 <= i < j < |p| ensures KeyOf(keys)(p[i]).AtMost(KeyOf(keys)(p[j])) {}
  }

  lemma IotaAgain(p: seq<nat>, n: nat)
    requires multiset(p) == multiset(Iota(n)) && |p| == n
    ensures IsPermutation(p)
  {
    DistinctIff(Iota(n));
    DistinctIff(p);
    forall i | 0 <= i < |p| ensures p[i] < n {
      assert p[i] in multiset(p);
      assert p[i] in Iota(n);
    }
  }

  /** And only one. */
  lemma OneArgsort(keys: seq<nat>, p: seq<nat>, q: seq<nat>)
    requires IsArgsort(keys, p) && IsArgsort(keys, q)
    ensures p == q
  {
    forall i: nat | i < |p| ensures p[i] == q[i] { SamePrefix(keys, p, q, i); }
  }

  lemma {:induction false} SamePrefix(keys: seq<nat>, p: seq<nat>, q: seq<nat>, i: nat)
    requires IsArgsort(keys, p) && IsArgsort(keys, q) && i < |p|
    ensures p[i] == q[i]
  {
    forall k: nat | k < i ensures p[k] == q[k] { SamePrefix(keys, p, q, k); }
    var a := Onto(p, q[i]);
    var b := Onto(q, p[i]);
    assert a >= i && b >= i;
  }

  // ---- groups -------------------------------------------------------------

  ghost function WithKey(keys: seq<nat>, g: nat): set<int> { set j | 0 <= j < |keys| && keys[j] == g }

  ghost function Below(keys: seq<nat>, g: nat): set<int> { set j | 0 <= j < |keys| && keys[j] < g }

  /** Rows routed to expert g: one_hot(keys).sum(0)[g]. */
  ghost function GroupSize(keys: seq<nat>, g: nat): nat { |WithKey(keys, g)| }

  /** First row of group g: the sizes of the groups before it. */
  ghost function GroupStart(keys: seq<nat>, g: nat): nat
  {
    if g == 0 then 0 else GroupStart(keys, g - 1) + GroupSize(keys, g - 1)
  }

  lemma {:induction false} GroupStartCounts(keys: seq<nat>, g: nat)
    ensures GroupStart(keys, g) == |Below(keys, g)|
  {
    if g == 0 {
      assert Below(keys, 0) == {};
    } else {
      GroupStartCounts(keys, g - 1);
      assert Below(keys, g) == Below(keys, g - 1) + WithKey(keys, g - 1);
      assert Below(keys, g - 1) !! WithKey(keys, g - 1);
    }
  }

  /** Sorted row i goes to an expert below g exactly when i is before the start of group g. */
  lemma SortedBelow(keys: seq<nat>, p: seq<nat>, g: nat, i: nat)
    requires IsArgsort(keys, p) && i < |p|
    ensures keys[p[i]] < g <==> i < GroupStart(keys, g)
  {
    GroupStartCounts(keys, g);
    if keys[p[i]] < g {
      DistinctSize(p[..i + 1]);
      forall x | x in Elements(p[..i + 1]) ensures x in Below(keys, g) {
        var j :| 0 <= j < i + 1 && p[..i + 1][j] == x;
        assert j < i ==> keys[p[j]] <= keys[p[i]];
      }
      SubsetSize(Elements(p[..i + 1]), Below(keys, g));
    } else {
      DistinctSize(p[..i]);
      forall x | x in Below(keys, g) ensures x in Elements(p[..i]) {
        var j := Onto(p, x);
        assert p[..i][j] == x;
      }
      SubsetSize(Below(keys, g), Elements(p[..i]));
    }
  }

  /** Each expert's rows are one contiguous interval, given by the prefix counts. */
  lemma GroupInterval(keys: seq<nat>, p: seq<nat>, g: nat, i: nat)
    requires IsArgsort(keys, p) && i < |p|
    ensures keys[p[i]] == g <==> GroupStart(keys, g) <= i < GroupStart(keys, g) + GroupSize(keys, g)
  {
    SortedBelow(keys, p, g, i);
    SortedBelow(keys, p, g + 1, i);
  }

  // ---- dispatch and revert ------------------------------------------------

  /** Sort by expert, apply any function of a row and the expert whose interval it is in, and
      gather back: every row has the function applied to it with its own expert. */
  lemma SortApplyRevert<A, B>(keys: seq<nat>, p: seq<nat>, revert: seq<nat>, rows: seq<A>, f: (A, nat) -> B,
                              out: seq<B>)
    requires IsArgsort(keys, p) && IsArgsort(p, revert) && |rows| == |out| == |keys|
    requires forall i, g: nat :: 0 <= i < |p| && GroupStart(keys, g) <= i < GroupStart(keys, g) + GroupSize(keys, g) ==>
      p[i] < |rows| && out[i] == f(rows[p[i]], g)
    ensures |revert| == |keys|
    ensures forall j :: 0 <= j < |keys| ==> revert[j] < |out| && out[revert[j]] == f(rows[j], keys[j])
  {
    InverseBySortOrScatter(p, revert);
    hide IsArgsort, GroupStart, GroupSize;
    forall j | 0 <= j < |keys| ensures revert[j] < |out| && out[revert[j]] == f(rows[j], keys[j]) {
      GroupInterval(keys, p, keys[j], revert[j]);
    }
  }
}
