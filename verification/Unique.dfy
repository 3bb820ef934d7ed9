/** Sequences without repetition, and sizes of sets. */
module Unique {

  ghost predicate Distinct<T>(s: seq<T>)
  {
    forall i, j :: 0 <= i < j < |s| ==> s[i] != s[j]
  }

  lemma TwiceIsTwo<T>(s: seq<T>, i: int, j: int)
    requires 0 <= i < j < |s| && s[i] == s[j]
    ensures multiset(s)[s[i]] >= 2
  {
    assert s == s[..j] + [s[j]] + s[j + 1..];
    assert s[..j][i] == s[i];
    assert s[i] in multiset(s[..j]);
  }

  /** No repetition shows in the counts, so reordering cannot bring one in. */
  lemma {:induction false} DistinctIff<T>(s: seq<T>)
    ensures Distinct(s) <==> forall x :: multiset(s)[x] <= 1
  {
    if Distinct(s) {
      OnceEach(s);
    } else {
      var i, j :| 0 <= i < j < |s| && s[i] == s[j];
      TwiceIsTwo(s, i, j);
    }
  }

  lemma {:induction false} OnceEach<T>(s: seq<T>)
    requires Distinct(s)
    ensures forall x :: multiset(s)[x] <= 1
  {
    if s != [] {
      var n := |s| - 1;
      OnceEach(s[..n]);
      assert s == s[..n] + [s[n]];
      assert s[n] !in s[..n];
    }
  }

  /** Where x first stands in s, or the length. */
  function Position<T(==)>(s: seq<T>, x: T): (i: nat)
    ensures i <= |s| && (i < |s| ==> s[i] == x) && forall j :: 0 <= j < i ==> s[j] != x
  {
    if s == [] || s[0] == x then 0 else 1 + Position(s[1..], x)
  }

  ghost function Elements(p: seq<int>): set<int> { set i | 0 <= i < |p| :: p[i] }

  lemma {:induction false} DistinctSize(p: seq<int>)
    requires Distinct(p)
    ensures |Elements(p)| == |p|
  {
    if |p| > 0 {
      var init := p[..|p| - 1];
      DistinctSize(init);
      assert Elements(p) == Elements(init) + {p[|p| - 1]};
      assert p[|p| - 1] !in Elements(init);
    }
  }

  lemma SubsetFull<T>(a: set<T>, b: set<T>)
    requires a <= b && |a| == |b|
    ensures a == b
  {
    if x :| x in b && x !in a {
      SubsetSize(a, b - {x});
    }
  }

  lemma {:induction false} SubsetSize<T>(a: set<T>, b: set<T>)
    requires a <= b
    ensures |a| <= |b|
  {
    if x :| x in a {
      SubsetSize(a - {x}, b - {x});
      assert |a - {x}| == |a| - 1 && |b - {x}| == |b| - 1;
    }
  }
}
