/** Joining texts and taking them apart again. */
module Strings {
  import opened Unique

  /** sep.join(parts). */
  function Join(parts: seq<string>, sep: string): string
  {
    if parts == [] then "" else if |parts| == 1 then parts[0] else parts[0] + sep + Join(parts[1..], sep)
  }

  /** Text that can be cut at a separator again. */
  ghost predicate Free(s: string, sep: char) { sep !in s }

  lemma {:induction false} FirstAt(a: string, r: string, sep: char)
    requires Free(a, sep)
    ensures Position(a + [sep] + r, sep) == |a|
  {
    if a != [] {
      assert (a + [sep] + r)[1..] == a[1..] + [sep] + r;
      FirstAt(a[1..], r, sep);
    } else {
      assert (a + [sep] + r)[0] == sep;
    }
  }

  /** The first separator splits a text in one way only. */
  lemma SplitOnce(a: string, b: string, r: string, t: string, sep: char)
    requires Free(a, sep) && Free(b, sep) && a + [sep] + r == b + [sep] + t
    ensures a == b && r == t
  {
    hide Free;
    FirstAt(a, r, sep);
    FirstAt(b, t, sep);
    var u, v := a + [sep] + r, b + [sep] + t;
    assert u[..|a|] == a && v[..|a|] == b;
    assert u[|a| + 1..] == r && v[|a| + 1..] == t;
  }

  lemma {:induction false} NoSplit(a: string, b: string, t: string, sep: char)
    requires Free(a, sep)
    ensures a != b + [sep] + t
  {
    assert (b + [sep] + t)[|b|] == sep;
  }

  lemma {:induction false} JoinDetermines(p: seq<string>, q: seq<string>, sep: char)
    requires forall i :: 0 <= i < |p| ==> p[i] != "" && Free(p[i], sep)
    requires forall i :: 0 <= i < |q| ==> q[i] != "" && Free(q[i], sep)
    requires Join(p, [sep]) == Join(q, [sep])
    ensures p == q
  {
    hide Free;
    if |p| > 1 && |q| > 1 {
      SplitOnce(p[0], q[0], Join(p[1..], [sep]), Join(q[1..], [sep]), sep);
      JoinDetermines(p[1..], q[1..], sep);
      assert p == [p[0]] + p[1..] && q == [q[0]] + q[1..];
    } else if |p| > 1 && |q| == 1 {
      NoSplit(q[0], p[0], Join(p[1..], [sep]), sep);
    } else if |p| == 1 && |q| > 1 {
      NoSplit(p[0], q[0], Join(q[1..], [sep]), sep);
    }
  }

  lemma {:induction false} JoinFree(p: seq<string>, sep: char, c: char)
    requires c != sep && forall i :: 0 <= i < |p| ==> Free(p[i], c)
    ensures Free(Join(p, [sep]), c)
  {
    if |p| > 1 { JoinFree(p[1..], sep, c); }
  }
}
