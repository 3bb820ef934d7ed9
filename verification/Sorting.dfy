/** Sorting by a key, as the library's stable sort does it. */
module Sorting {

  /** Keys compare by the major part, then by the minor one. */
  datatype Key = Key(major: real, minor: int) {
    predicate AtMost(k: Key) { major < k.major || (major == k.major && minor <= k.minor) }
  }

  ghost predicate SortedBy<T>(s: seq<T>, key: T -> Key)
  {
    forall i, j :: 0 <= i < j < |s| ==> key(s[i]).AtMost(key(s[j]))
  }

  /** How many elements go before or with key k. */
  function Rank<T>(s: seq<T>, key: T -> Key, k: Key): (n: nat)
    requires SortedBy(s, key)
    ensures n <= |s| && forall i :: 0 <= i < |s| ==> (i < n <==> key(s[i]).AtMost(k))
  {
    if s == [] || key(s[|s| - 1]).AtMost(k) then |s| else Rank(s[..|s| - 1], key, k)
  }

  /** Behind all elements that go before or with it. */
  function Insert<T>(s: seq<T>, key: T -> Key, x: T): (r: seq<T>)
    requires SortedBy(s, key)
    ensures SortedBy(r, key) && multiset(r) == multiset(s) + multiset{x} && |r| == |s| + 1
    ensures var n := Rank(s, key, key(x)); r == s[..n] + [x] + s[n..]
  {
    var n := Rank(s, key, key(x));
    InsertedSorted(s, key, n, x);
    assert s == s[..n] + s[n..];
    s[..n] + [x] + s[n..]
  }

  lemma InsertedSorted<T>(s: seq<T>, key: T -> Key, n: nat, x: T)
    requires SortedBy(s, key) && n <= |s|
    requires forall i :: 0 <= i < |s| ==> (i < n <==> key(s[i]).AtMost(key(x)))
    ensures SortedBy(s[..n] + [x] + s[n..], key)
  {
    var r := s[..n] + [x] + s[n..];
    forall i | 0 <= i < |r| ensures r[i] == if i < n then s[i] else if i == n then x else s[i - 1] {}
  }

  function Sort<T>(s: seq<T>, key: T -> Key): (r: seq<T>)
    ensures SortedBy(r, key) && multiset(r) == multiset(s) && |r| == |s|
  {
    if s == [] then [] else
      var n := |s| - 1;
      assert s == s[..n] + [s[n]];
      Insert(Sort(s[..n], key), key, s[n])
  }
}
