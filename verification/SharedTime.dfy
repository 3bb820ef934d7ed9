/** Fair sharing of wall time: at each instant the running tasks share it equally. The
    definitions cut the time axis at any sorted list of points that contains every start and
    end; where else it is cut is shown not to matter. */
module SharedTime {
  import S = Sorting

  /** A build step. The interval is fixed when the object is made. */
  class Target {
    const start: real
    const end: real
    var targets: seq<string>
    var weightedDuration: real

    constructor (start: real, end: real)
      ensures this.start == start && this.end == end && targets == [] && weightedDuration == 0.0
    {
      this.start, this.end := start, end;
      targets, weightedDuration := [], 0.0;
    }

    function Duration(): real { end - start }
  }

  // ---- sums over sets -----------------------------------------------------

  ghost function SumOver<T>(s: set<T>, f: T -> real): real
  {
    if s == {} then 0.0 else var x :| x in s; SumOver(s - {x}, f) + f(x)
  }

  lemma {:induction false} SumOverRemove<T>(s: set<T>, f: T -> real, y: T)
    requires y in s
    ensures SumOver(s, f) == SumOver(s - {y}, f) + f(y)
  {
    var x :| x in s && SumOver(s, f) == SumOver(s - {x}, f) + f(x);
    if x != y {
      SumOverRemove(s - {x}, f, y);
      SumOverRemove(s - {y}, f, x);
      assert s - {x} - {y} == s - {y} - {x};
    }
  }

  lemma {:induction false} SumOverExt<T>(s: set<T>, f: T -> real, g: T -> real)
    requires forall x :: x in s ==> f(x) == g(x)
    ensures SumOver(s, f) == SumOver(s, g)
  {
    if x :| x in s {
      SumOverRemove(s, f, x);
      SumOverRemove(s, g, x);
      SumOverExt(s - {x}, f, g);
    }
  }

  ghost function Plus<T>(f: T -> real, g: T -> real): T -> real
  {
    x => f(x) + g(x)
  }

  lemma {:induction false} SumOverAdd<T>(s: set<T>, f: T -> real, g: T -> real)
    ensures SumOver(s, Plus(f, g)) == SumOver(s, f) + SumOver(s, g)
  {
    if x :| x in s {
      SumOverRemove(s, f, x);
      SumOverRemove(s, g, x);
      SumOverRemove(s, Plus(f, g), x);
      SumOverAdd(s - {x}, f, g);
    }
  }

  ghost function Indicator<T>(c: set<T>, v: real): T -> real
  {
    x => if x in c then v else 0.0
  }

  /** v added up n times. */
  ghost function Times(n: nat, v: real): real
  {
    if n == 0 then 0.0 else Times(n - 1, v) + v
  }

  lemma {:induction false} TimesIsProduct(n: nat, v: real)
    ensures Times(n, v) == n as real * v
  {
    if n > 0 {
      TimesIsProduct(n - 1, v);
      OneMore(n, v);
    }
  }

  lemma OneMore(n: int, v: real)
    ensures (n - 1) as real * v + v == n as real * v
  {
  }

  lemma {:induction false} SumOverConst<T>(s: set<T>, c: set<T>, v: real)
    requires c <= s
    ensures SumOver(s, Indicator(c, v)) == Times(|c|, v)
  {
    if x :| x in s {
      SumOverRemove(s, Indicator(c, v), x);
      SumOverConst(s - {x}, c - {x}, v);
      SumOverExt(s - {x}, Indicator(c, v), Indicator(c - {x}, v));
      if x in c {
        assert |c - {x}| == |c| - 1;
      } else {
        assert c - {x} == c;
      }
    } else {
      assert c == {};
    }
  }

  // ---- shares -------------------------------------------------------------

  /** The tasks running throughout [lo, hi]. */
  ghost function Covering(tasks: set<Target>, lo: real, hi: real): set<Target>
  {
    set t | t in tasks && t.start <= lo && hi <= t.end
  }

  /** What task t gets of the slice from lo to hi. */
  ghost function SliceShare(tasks: set<Target>, t: Target, lo: real, hi: real): real
  {
    var c := Covering(tasks, lo, hi);
    if lo < hi && t in c then (hi - lo) / |c| as real else 0.0
  }

  /** Task t's share of the time between the first and the last point of the grid. */
  ghost function Share(tasks: set<Target>, t: Target, grid: seq<real>): real
  {
    if |grid| < 2 then 0.0
    else Share(tasks, t, grid[..|grid| - 1]) + SliceShare(tasks, t, grid[|grid| - 2], grid[|grid| - 1])
  }

  /** The part of the slice in which something runs. */
  ghost function SliceBusy(tasks: set<Target>, lo: real, hi: real): real
  {
    if lo < hi && Covering(tasks, lo, hi) != {} then hi - lo else 0.0
  }

  /** The length of the union of the tasks' intervals. */
  ghost function Busy(tasks: set<Target>, grid: seq<real>): real
  {
    if |grid| < 2 then 0.0
    else Busy(tasks, grid[..|grid| - 1]) + SliceBusy(tasks, grid[|grid| - 2], grid[|grid| - 1])
  }

  ghost predicate Sorted(s: seq<real>)
  {
    forall i, j :: 0 <= i < j < |s| ==> s[i] <= s[j]
  }

  ghost predicate IsGrid(tasks: set<Target>, grid: seq<real>)
  {
    Sorted(grid) && forall t :: t in tasks ==> t.start in grid && t.end in grid
  }

  ghost function Shares(tasks: set<Target>, grid: seq<real>): Target -> real
  {
    (t: Target) => Share(tasks, t, grid)
  }

  ghost function SliceShares(tasks: set<Target>, lo: real, hi: real): Target -> real
  {
    (t: Target) => SliceShare(tasks, t, lo, hi)
  }

  /** Conservation: the shares of all tasks add up to the time in which something runs. */
  lemma {:induction false} Conservation(tasks: set<Target>, grid: seq<real>)
    ensures SumOver(tasks, Shares(tasks, grid)) == Busy(tasks, grid)
  {
    if |grid| < 2 {
      SumOverExt(tasks, Shares(tasks, grid), Indicator({}, 0.0));
      SumOverConst(tasks, {}, 0.0);
    } else {
      var init, lo, hi := grid[..|grid| - 1], grid[|grid| - 2], grid[|grid| - 1];
      Conservation(tasks, init);
      SliceConservation(tasks, lo, hi);
      var f, g := Shares(tasks, init), SliceShares(tasks, lo, hi);
      SumOverAdd(tasks, f, g);
      SumOverExt(tasks, Shares(tasks, grid), Plus(f, g));
    }
  }

  lemma SliceConservation(tasks: set<Target>, lo: real, hi: real)
    ensures SumOver(tasks, SliceShares(tasks, lo, hi)) == SliceBusy(tasks, lo, hi)
  {
    var c := Covering(tasks, lo, hi);
    var v := if lo < hi && c != {} then (hi - lo) / |c| as real else 0.0;
    SumOverExt(tasks, SliceShares(tasks, lo, hi), Indicator(c, v));
    SumOverConst(tasks, c, v);
    TimesIsProduct(|c|, v);
  }

  // ---- bounds -------------------------------------------------------------

  ghost function ClampTo(t: Target, x: real): real
  {
    if x < t.start then t.start else if x > t.end then t.end else x
  }

  /** A task's share of a slice is at most what the slice has of its interval. */
  lemma SliceShareBound(tasks: set<Target>, t: Target, lo: real, hi: real)
    requires t.start <= t.end && lo <= hi
    ensures 0.0 <= SliceShare(tasks, t, lo, hi) <= ClampTo(t, hi) - ClampTo(t, lo)
  {
    var c := Covering(tasks, lo, hi);
    if lo < hi && t in c {
      FractionBound(hi - lo, |c|);
    }
  }

  lemma FractionBound(x: real, n: nat)
    requires x >= 0.0 && n >= 1
    ensures 0.0 <= x / n as real <= x
  {
    var q := x / n as real;
    assert q * n as real == x;
  }

  lemma {:induction false} ShareClamped(tasks: set<Target>, t: Target, grid: seq<real>)
    requires Sorted(grid) && |grid| > 0 && t.start <= t.end
    ensures 0.0 <= Share(tasks, t, grid) <= ClampTo(t, grid[|grid| - 1]) - ClampTo(t, grid[0])
  {
    if |grid| >= 2 {
      ShareClamped(tasks, t, grid[..|grid| - 1]);
      SliceShareBound(tasks, t, grid[|grid| - 2], grid[|grid| - 1]);
    }
  }

  /** A weighted duration is never negative and never exceeds the duration. */
  lemma ShareBounds(tasks: set<Target>, t: Target, grid: seq<real>)
    requires IsGrid(tasks, grid) && t in tasks && t.start <= t.end
    ensures 0.0 <= Share(tasks, t, grid) <= t.Duration()
  {
    ShareClamped(tasks, t, grid);
  }

  /** No other task runs while t does. */
  ghost predicate Alone(tasks: set<Target>, t: Target)
  {
    t in tasks && forall u :: u in tasks && u != t ==> u.end <= t.start || t.end <= u.start
  }

  /** No slice has the start or the end of t inside it. */
  ghost predicate Uncut(t: Target, grid: seq<real>)
  {
    forall i :: 0 < i < |grid| ==> !(grid[i - 1] < t.start < grid[i]) && !(grid[i - 1] < t.end < grid[i])
  }

  lemma {:induction false} AloneClamped(tasks: set<Target>, t: Target, grid: seq<real>)
    requires Alone(tasks, t) && Uncut(t, grid) && Sorted(grid) && |grid| > 0 && t.start <= t.end
    ensures Share(tasks, t, grid) == ClampTo(t, grid[|grid| - 1]) - ClampTo(t, grid[0])
  {
    hide Alone, SliceShare, ClampTo;
    if |grid| >= 2 {
      var n := |grid| - 1;
      assert Uncut(t, grid[..n]);
      AloneClamped(tasks, t, grid[..n]);
      AloneSlice(tasks, t, grid[n - 1], grid[n]);
    }
  }

  lemma AloneSlice(tasks: set<Target>, t: Target, lo: real, hi: real)
    requires Alone(tasks, t) && t.start <= t.end && lo <= hi && !(lo < t.start < hi) && !(lo < t.end < hi)
    ensures SliceShare(tasks, t, lo, hi) == ClampTo(t, hi) - ClampTo(t, lo)
  {
    if lo < hi && t.start <= lo && hi <= t.end {
      assert Covering(tasks, lo, hi) == {t};
      assert (hi - lo) / 1 as real == hi - lo;
    }
  }

  /** A step that nothing else runs beside is weighted with its whole duration. */
  lemma AloneIsWhole(tasks: set<Target>, t: Target, grid: seq<real>)
    requires Alone(tasks, t) && IsGrid(tasks, grid) && t.start <= t.end
    ensures Share(tasks, t, grid) == t.Duration()
  {
    forall i | 0 < i < |grid| ensures !(grid[i - 1] < t.start < grid[i]) && !(grid[i - 1] < t.end < grid[i]) {
      NotBetween(grid, i, t.start);
      NotBetween(grid, i, t.end);
    }
    AloneClamped(tasks, t, grid);
    GridSpan(tasks, grid);
  }

  lemma NotBetween(grid: seq<real>, i: int, x: real)
    requires Sorted(grid) && 0 < i < |grid| && x in grid
    ensures !(grid[i - 1] < x < grid[i])
  {
    var j :| 0 <= j < |grid| && grid[j] == x;
    if j < i { assert grid[j] <= grid[i - 1]; } else { assert grid[i] <= grid[j]; }
  }

  /** The busy time is at most the span of the grid, with equality exactly when no slice of
      positive width is idle. */
  lemma {:induction false} BusyBound(tasks: set<Target>, grid: seq<real>)
    requires Sorted(grid) && |grid| > 0
    ensures 0.0 <= Busy(tasks, grid) <= grid[|grid| - 1] - grid[0]
    ensures Busy(tasks, grid) == grid[|grid| - 1] - grid[0] <==>
            forall i :: 0 < i < |grid| && grid[i - 1] < grid[i] ==> Covering(tasks, grid[i - 1], grid[i]) != {}
  {
    if |grid| >= 2 {
      var init := grid[..|grid| - 1];
      BusyBound(tasks, init);
    }
  }

  // ---- where the axis is cut does not matter ------------------------------

  /** Shares add up over consecutive stretches. */
  lemma {:induction false} ShareSplit(tasks: set<Target>, t: Target, a: seq<real>, b: seq<real>)
    requires |a| > 0 && |b| > 0
    ensures Share(tasks, t, a + b) == Share(tasks, t, a) + SliceShare(tasks, t, a[|a| - 1], b[0]) + Share(tasks, t, b)
  {
    var n := |b| - 1;
    assert (a + b)[..|a + b| - 1] == a + b[..n];
    if n == 0 {
      assert a + b[..n] == a;
    } else {
      ShareSplit(tasks, t, a, b[..n]);
    }
  }

  /** A cut between two neighbouring points splits their slice without changing its share. */
  lemma SliceCut(tasks: set<Target>, t: Target, lo: real, p: real, hi: real)
    requires lo <= p <= hi
    requires forall u :: u in tasks ==> !(lo < u.start < hi) && !(lo < u.end < hi)
    ensures SliceShare(tasks, t, lo, p) + SliceShare(tasks, t, p, hi) == SliceShare(tasks, t, lo, hi)
  {
    if lo < p < hi {
      assert Covering(tasks, lo, p) == Covering(tasks, lo, hi) == Covering(tasks, p, hi);
      var c := Covering(tasks, lo, hi);
      if t in c { SplitFraction(p - lo, hi - p, |c| as real); }
    }
  }

  lemma SplitFraction(x: real, y: real, n: real)
    requires n > 0.0
    ensures x / n + y / n == (x + y) / n
  {
  }

  /** No slice outside the grid has a running task. */
  lemma GridSpan(tasks: set<Target>, g: seq<real>)
    requires IsGrid(tasks, g) && g != []
    ensures forall u :: u in tasks ==> g[0] <= u.start && u.end <= g[|g| - 1]
  {
    forall x | x in g ensures g[0] <= x <= g[|g| - 1] { }
  }

  lemma CutFront(tasks: set<Target>, t: Target, p: real, b: seq<real>)
    requires IsGrid(tasks, b) && b != [] && p <= b[0]
    ensures Share(tasks, t, [p] + b) == Share(tasks, t, b)
  {
    hide IsGrid;
    ShareSplit(tasks, t, [p], b);
    GridSpan(tasks, b);
  }

  lemma CutBack(tasks: set<Target>, t: Target, a: seq<real>, p: real)
    requires IsGrid(tasks, a) && a != [] && a[|a| - 1] <= p
    ensures Share(tasks, t, a + [p]) == Share(tasks, t, a)
  {
    hide IsGrid;
    ShareSplit(tasks, t, a, [p]);
    GridSpan(tasks, a);
  }

  lemma CutMiddle(tasks: set<Target>, t: Target, a: seq<real>, p: real, b: seq<real>)
    requires IsGrid(tasks, a + b) && a != [] && b != [] && a[|a| - 1] <= p <= b[0]
    ensures Share(tasks, t, a + ([p] + b)) == Share(tasks, t, a + b)
  {
    hide SliceShare, IsGrid;
    ShareSplit(tasks, t, a, b);
    ShareSplit(tasks, t, a, [p] + b);
    ShareSplit(tasks, t, [p], b);
    NothingBetween(tasks, a, b);
    SliceCut(tasks, t, a[|a| - 1], p, b[0]);
  }

  /** One more cut, anywhere, leaves every share as it was. */
  lemma ShareCut(tasks: set<Target>, t: Target, a: seq<real>, p: real, b: seq<real>)
    requires IsGrid(tasks, a + b)
    requires a != [] ==> a[|a| - 1] <= p
    requires b != [] ==> p <= b[0]
    ensures Share(tasks, t, a + [p] + b) == Share(tasks, t, a + b)
  {
    hide Share, IsGrid;
    if a == [] && b == [] {
      assert a + [p] + b == [p] && a + b == [];
      NoSlices(tasks, t, p);
    } else if a == [] {
      assert a + b == b && a + [p] + b == [p] + b;
      CutFront(tasks, t, p, b);
    } else if b == [] {
      assert a + b == a && a + [p] + b == a + [p];
      CutBack(tasks, t, a, p);
    } else {
      assert a + [p] + b == a + ([p] + b);
      CutMiddle(tasks, t, a, p, b);
    }
  }

  lemma NoSlices(tasks: set<Target>, t: Target, p: real)
    ensures Share(tasks, t, [p]) == Share(tasks, t, []) == 0.0
  {
  }

  lemma NothingBetween(tasks: set<Target>, a: seq<real>, b: seq<real>)
    requires IsGrid(tasks, a + b) && |a| > 0 && |b| > 0
    ensures forall u :: u in tasks ==>
      !(a[|a| - 1] < u.start < b[0]) && !(a[|a| - 1] < u.end < b[0])
  {
    var g := a + b;
    assert g[|a| - 1] == a[|a| - 1] && g[|a|] == b[0];
    forall x | x in g ensures !(a[|a| - 1] < x < b[0]) {
      var i :| 0 <= i < |g| && g[i] == x;
    }
  }

  function TimeKey(x: real): S.Key { S.Key(x, 0) }

  lemma TimeOrder(g: seq<real>)
    ensures S.SortedBy(g, TimeKey) <==> Sorted(g)
  {
    forall i, j | 0 <= i < j < |g| ensures TimeKey(g[i]).AtMost(TimeKey(g[j])) <==> g[i] <= g[j] {}
  }

  /** Insert p behind all points that are at most p. */
  ghost function Insert(g: seq<real>, p: real): (h: seq<real>)
    requires Sorted(g)
    ensures Sorted(h) && multiset(h) == multiset(g) + multiset{p}
  {
    TimeOrder(g);
    TimeOrder(S.Insert(g, TimeKey, p));
    S.Insert(g, TimeKey, p)
  }

  lemma InsertAt(g: seq<real>, p: real) returns (k: nat)
    requires Sorted(g)
    ensures k <= |g| && Insert(g, p) == g[..k] + [p] + g[k..]
    ensures forall i :: 0 <= i < |g| ==> (i < k <==> g[i] <= p)
  {
    TimeOrder(g);
    k := S.Rank(g, TimeKey, TimeKey(p));
    forall i | 0 <= i < |g| ensures i < k <==> g[i] <= p { assert TimeKey(g[i]).AtMost(TimeKey(p)) <==> g[i] <= p; }
  }

  lemma MorePoints(tasks: set<Target>, g: seq<real>, h: seq<real>)
    requires IsGrid(tasks, g) && Sorted(h) && multiset(g) <= multiset(h)
    ensures IsGrid(tasks, h)
  {
    hide Sorted;
    forall x | x in g ensures x in h { assert x in multiset(g); assert x in multiset(h); }
  }

  lemma ShareInsert(tasks: set<Target>, t: Target, g: seq<real>, p: real)
    requires IsGrid(tasks, g)
    ensures IsGrid(tasks, Insert(g, p)) && Share(tasks, t, Insert(g, p)) == Share(tasks, t, g)
  {
    hide Share;
    GridSorted(tasks, g);
    var k := InsertAt(g, p);
    assert g == g[..k] + g[k..];
    MorePoints(tasks, g, Insert(g, p));
    hide IsGrid;
    ShareCut(tasks, t, g[..k], p, g[k..]);
  }

  lemma GridSorted(tasks: set<Target>, g: seq<real>)
    requires IsGrid(tasks, g)
    ensures Sorted(g)
  {
  }

  ghost function InsertAll(g: seq<real>, ps: seq<real>): (h: seq<real>)
    requires Sorted(g)
    ensures Sorted(h) && multiset(h) == multiset(g) + multiset(ps)
  {
    if ps == [] then g else
      assert ps == ps[..|ps| - 1] + [ps[|ps| - 1]];
      Insert(InsertAll(g, ps[..|ps| - 1]), ps[|ps| - 1])
  }

  lemma {:induction false} ShareInsertAll(tasks: set<Target>, t: Target, g: seq<real>, ps: seq<real>)
    requires IsGrid(tasks, g)
    ensures IsGrid(tasks, InsertAll(g, ps)) && Share(tasks, t, InsertAll(g, ps)) == Share(tasks, t, g)
  {
    if ps != [] {
      ShareInsertAll(tasks, t, g, ps[..|ps| - 1]);
      ShareInsert(tasks, t, InsertAll(g, ps[..|ps| - 1]), ps[|ps| - 1]);
    }
  }

  lemma LastAtMost(g: seq<real>, h: seq<real>)
    requires Sorted(h) && multiset(g) == multiset(h) && g != []
    ensures h != [] && g[|g| - 1] <= h[|h| - 1]
  {
    assert g[|g| - 1] in multiset(g);
    assert g[|g| - 1] in multiset(h);
    var i :| 0 <= i < |h| && h[i] == g[|g| - 1];
  }

  lemma DropLast(g: seq<real>)
    requires g != []
    ensures multiset(g[..|g| - 1]) == multiset(g) - multiset{g[|g| - 1]}
  {
    assert g == g[..|g| - 1] + [g[|g| - 1]];
  }

  lemma SameLast(g: seq<real>, h: seq<real>)
    requires Sorted(g) && Sorted(h) && multiset(g) == multiset(h) && g != []
    ensures |g| == |h| && g[|g| - 1] == h[|h| - 1]
    ensures multiset(g[..|g| - 1]) == multiset(h[..|h| - 1])
  {
    hide Sorted;
    assert |g| == |multiset(g)| == |multiset(h)| == |h|;
    LastAtMost(g, h);
    LastAtMost(h, g);
    DropLast(g);
    DropLast(h);
  }

  lemma {:induction false} SortedUnique(g: seq<real>, h: seq<real>)
    requires Sorted(g) && Sorted(h) && multiset(g) == multiset(h)
    ensures g == h
  {
    if g != [] {
      SameLast(g, h);
      var n := |g| - 1;
      SortedUnique(g[..n], h[..n]);
      assert g == g[..n] + [g[n]] && h == h[..n] + [h[n]];
    } else {
      assert |multiset(h)| == |h|;
    }
  }

  /** Any two ways of cutting the time axis give a task the same share. */
  lemma GridIndependence(tasks: set<Target>, t: Target, g: seq<real>, h: seq<real>)
    requires IsGrid(tasks, g) && IsGrid(tasks, h)
    ensures Share(tasks, t, g) == Share(tasks, t, h)
  {
    ShareInsertAll(tasks, t, g, h);
    ShareInsertAll(tasks, t, h, g);
    SortedUnique(InsertAll(g, h), InsertAll(h, g));
  }

  lemma BusyIndependence(tasks: set<Target>, g: seq<real>, h: seq<real>)
    requires IsGrid(tasks, g) && IsGrid(tasks, h)
    ensures Busy(tasks, g) == Busy(tasks, h)
  {
    Conservation(tasks, g);
    Conservation(tasks, h);
    forall t: Target ensures Shares(tasks, g)(t) == Shares(tasks, h)(t) { GridIndependence(tasks, t, g, h); }
    SumOverExt(tasks, Shares(tasks, g), Shares(tasks, h));
  }
}
