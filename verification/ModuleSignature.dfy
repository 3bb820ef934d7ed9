/** Signatures of modules: the text of named_modules, which lists every module object of a subtree
    once, and when two modules with the same signature are the same tree. */
module ModuleSignature {
  import opened Unique
  import opened Strings

  // ---- trees and their listings -------------------------------------------

  /** What is printed of a module and of everything in it. */
  datatype Tree = Tree(info: string, kids: seq<Kid>)

  datatype Kid = Kid(name: string, body: Tree)

  /** One line of a signature: where a submodule is and what it is. */
  datatype Entry = Entry(path: seq<string>, info: string)

  /** Every module of the tree with its path, a module before what is in it. */
  function Listing(m: Tree, path: seq<string>): (l: seq<Entry>)
    ensures l != [] && l[0] == Entry(path, m.info)
    decreases m, |m.kids| + 1
  {
    [Entry(path, m.info)] + KidListings(m, 0, path)
  }

  function KidListings(m: Tree, i: nat, path: seq<string>): (l: seq<Entry>)
    requires i <= |m.kids|
    ensures l == [] <==> i == |m.kids|
    ensures l != [] ==> l[0].path == path + [m.kids[i].name]
    decreases m, |m.kids| - i
  {
    if i == |m.kids| then []
    else Listing(m.kids[i].body, path + [m.kids[i].name]) + KidListings(m, i + 1, path)
  }

  /** What follows a listing at the given depth does not belong to it. */
  ghost predicate Outside(rest: seq<Entry>, depth: nat)
  {
    rest == [] || |rest[0].path| <= depth
  }

  lemma HeadOf(l: seq<Entry>, rest: seq<Entry>, depth: nat)
    requires Outside(rest, depth) && (l != [] ==> |l[0].path| > depth)
    ensures Outside(l + rest, depth) <==> l == []
    ensures l == [] ==> l + rest == rest
    ensures l != [] ==> (l + rest)[0] == l[0]
  {
  }

  /** A listing, whatever follows it, determines the tree and where the listing ends. */
  lemma {:induction false} ListingDetermines(a: Tree, b: Tree, path: seq<string>, restA: seq<Entry>, restB: seq<Entry>)
    requires Listing(a, path) + restA == Listing(b, path) + restB
    requires Outside(restA, |path|) && Outside(restB, |path|)
    ensures a == b && restA == restB
    decreases a, |a.kids| + 1
  {
    var s, t := Listing(a, path) + restA, Listing(b, path) + restB;
    assert s[0] == Entry(path, a.info) && t[0] == Entry(path, b.info);
    assert s[1..] == KidListings(a, 0, path) + restA;
    assert t[1..] == KidListings(b, 0, path) + restB;
    ChildrenDetermined(a, b, 0, path, restA, restB);
  }

  lemma NextChild(m: Tree, i: nat, path: seq<string>, rest: seq<Entry>)
    requires i < |m.kids|
    ensures KidListings(m, i, path) + rest
         == Listing(m.kids[i].body, path + [m.kids[i].name]) + (KidListings(m, i + 1, path) + rest)
    ensures (KidListings(m, i, path) + rest)[0].path[|path|] == m.kids[i].name
  {
    hide Listing;
  }

  lemma {:induction false} ChildrenDetermined(a: Tree, b: Tree, i: nat, path: seq<string>, restA: seq<Entry>,
                                              restB: seq<Entry>)
    requires i <= |a.kids| && i <= |b.kids|
    requires KidListings(a, i, path) + restA == KidListings(b, i, path) + restB
    requires Outside(restA, |path|) && Outside(restB, |path|)
    ensures a.kids[i..] == b.kids[i..] && restA == restB
    decreases a, |a.kids| - i
  {
    hide Listing, KidListings, Outside;
    HeadOf(KidListings(a, i, path), restA, |path|);
    HeadOf(KidListings(b, i, path), restB, |path|);
    if i < |a.kids| {
      var ca, cb := a.kids[i], b.kids[i];
      NextChild(a, i, path, restA);
      NextChild(b, i, path, restB);
      NextOutside(a, i + 1, path, restA);
      NextOutside(b, i + 1, path, restB);
      ListingDetermines(ca.body, cb.body, path + [ca.name],
        KidListings(a, i + 1, path) + restA, KidListings(b, i + 1, path) + restB);
      ChildrenDetermined(a, b, i + 1, path, restA, restB);
      assert a.kids[i..] == [ca] + a.kids[i + 1..];
      assert b.kids[i..] == [cb] + b.kids[i + 1..];
    }
  }

  lemma NextOutside(m: Tree, i: nat, path: seq<string>, rest: seq<Entry>)
    requires i <= |m.kids| && Outside(rest, |path|)
    ensures Outside(KidListings(m, i, path) + rest, |path| + 1)
  {
    hide Listing, KidListings;
    HeadOf(KidListings(m, i, path), rest, |path|);
  }

  // ---- module objects -----------------------------------------------------

  /** A module object; the same object may sit in several places. */
  datatype Module = Module(id: nat, info: string, children: seq<Child>)

  datatype Child = Child(name: string, body: Module)

  function Shape(m: Module): Tree
    decreases m, 1
  {
    Tree(m.info, Shapes(m, 0))
  }

  function Shapes(m: Module, i: nat): (kids: seq<Kid>)
    requires i <= |m.children|
    ensures |kids| == |m.children| - i
    decreases m, 0, |m.children| - i
  {
    if i == |m.children| then [] else [Kid(m.children[i].name, Shape(m.children[i].body))] + Shapes(m, i + 1)
  }

  datatype Named = Named(list: seq<Entry>, seen: set<nat>)

  /** named_modules: a module object that was seen before is skipped with everything in it. */
  function NamedModules(m: Module, path: seq<string>, seen: set<nat>): Named
    decreases m, |m.children| + 1
  {
    if m.id in seen then Named([], seen) else
      var rest := NamedChildren(m, 0, path, seen + {m.id});
      Named([Entry(path, m.info)] + rest.list, rest.seen)
  }

  function NamedChildren(m: Module, i: nat, path: seq<string>, seen: set<nat>): Named
    requires i <= |m.children|
    decreases m, |m.children| - i
  {
    if i == |m.children| then Named([], seen) else
      var first := NamedModules(m.children[i].body, path + [m.children[i].name], seen);
      var rest := NamedChildren(m, i + 1, path, first.seen);
      Named(first.list + rest.list, rest.seen)
  }

  /** The objects of a subtree, as often as they occur. */
  ghost function Ids(m: Module): seq<nat>
    decreases m, |m.children| + 1
  {
    [m.id] + ChildIds(m, 0)
  }

  ghost function ChildIds(m: Module, i: nat): seq<nat>
    requires i <= |m.children|
    decreases m, |m.children| - i
  {
    if i == |m.children| then [] else Ids(m.children[i].body) + ChildIds(m, i + 1)
  }

  ghost function Members(ids: seq<nat>): set<nat> { set x | x in ids }

  /** No module object occurs twice. */
  ghost predicate Unshared(m: Module) { Distinct(Ids(m)) }

  lemma DistinctParts(a: seq<nat>, b: seq<nat>)
    requires Distinct(a + b)
    ensures Distinct(a) && Distinct(b) && Members(a) !! Members(b)
    ensures Members(a + b) == Members(a) + Members(b)
  {
    var s := a + b;
    forall i, j | 0 <= i < j < |a| ensures a[i] != a[j] { assert s[i] != s[j]; }
    forall i, j | 0 <= i < j < |b| ensures b[i] != b[j] { assert s[|a| + i] != s[|a| + j]; }
    forall i, j | 0 <= i < |a| && 0 <= j < |b| ensures a[i] != b[j] { assert s[i] != s[|a| + j]; }
  }

  /** Without repeated objects nothing is skipped. */
  lemma {:induction false} NothingSkipped(m: Module, path: seq<string>, seen: set<nat>)
    requires Distinct(Ids(m)) && Members(Ids(m)) !! seen
    ensures NamedModules(m, path, seen) == Named(Listing(Shape(m), path), seen + Members(Ids(m)))
    decreases m, |m.children| + 1
  {
    DistinctParts([m.id], ChildIds(m, 0));
    assert m.id in Ids(m) && m.id in [m.id];
    assert Members([m.id]) == {m.id};
    NoChildSkipped(m, 0, path, seen + {m.id});
  }

  lemma {:induction false} NoChildSkipped(m: Module, i: nat, path: seq<string>, seen: set<nat>)
    requires i <= |m.children| && Distinct(ChildIds(m, i)) && Members(ChildIds(m, i)) !! seen
    ensures NamedChildren(m, i, path, seen) == Named(KidListings(Shape(m), i, path), seen + Members(ChildIds(m, i)))
    decreases m, |m.children| - i
  {
    hide Listing, NamedModules, Ids, Distinct, Members;
    if i < |m.children| {
      var c := m.children[i];
      DistinctParts(Ids(c.body), ChildIds(m, i + 1));
      NothingSkipped(c.body, path + [c.name], seen);
      NoChildSkipped(m, i + 1, path, seen + Members(Ids(c.body)));
      KidAt(m, i);
    } else {
      NoMembers();
    }
  }

  lemma NoMembers()
    ensures Members([]) == {}
  {
  }

  lemma {:induction false} ShapesAt(m: Module, i: nat, k: nat)
    requires i <= k < |m.children|
    ensures Shapes(m, i)[k - i] == Kid(m.children[k].name, Shape(m.children[k].body))
    decreases k - i
  {
    if i < k { ShapesAt(m, i + 1, k); }
  }

  lemma KidAt(m: Module, i: nat)
    requires i < |m.children|
    ensures |Shape(m).kids| == |m.children|
    ensures Shape(m).kids[i] == Kid(m.children[i].name, Shape(m.children[i].body))
  {
    ShapesAt(m, 0, i);
  }

  // ---- what is listed -----------------------------------------------------

  datatype Pruned = Pruned(body: Tree, seen: set<nat>)

  datatype PrunedKids = PrunedKids(kids: seq<Kid>, seen: set<nat>)

  /** The tree that is listed: every child whose object was seen before is left out. */
  function Prune(m: Module, seen: set<nat>): Pruned
    decreases m, |m.children| + 1
  {
    var rest := PruneKids(m, 0, seen + {m.id});
    Pruned(Tree(m.info, rest.kids), rest.seen)
  }

  function PruneKids(m: Module, i: nat, seen: set<nat>): PrunedKids
    requires i <= |m.children|
    decreases m, |m.children| - i
  {
    if i == |m.children| then PrunedKids([], seen) else
      var c := m.children[i];
      if c.body.id in seen then PruneKids(m, i + 1, seen) else
        var first := Prune(c.body, seen);
        var rest := PruneKids(m, i + 1, first.seen);
        PrunedKids([Kid(c.name, first.body)] + rest.kids, rest.seen)
  }

  /** What of a module is listed from its own root. */
  function Seen(m: Module): Tree { Prune(m, {}).body }

  lemma {:induction false} KidsShift(info: string, kid: Kid, kids: seq<Kid>, i: nat, path: seq<string>)
    requires i <= |kids|
    ensures KidListings(Tree(info, [kid] + kids), i + 1, path) == KidListings(Tree("", kids), i, path)
    decreases |kids| - i
  {
    hide Listing;
    if i < |kids| { KidsShift(info, kid, kids, i + 1, path); }
  }

  lemma NoInfo(info: string, kids: seq<Kid>, path: seq<string>)
    ensures KidListings(Tree(info, kids), 0, path) == KidListings(Tree("", kids), 0, path)
  {
    hide Listing;
    if kids != [] {
      assert kids == [kids[0]] + kids[1..];
      KidsShift(info, kids[0], kids[1..], 0, path);
      KidsShift("", kids[0], kids[1..], 0, path);
    }
  }

  /** named_modules lists exactly the pruned tree. */
  lemma {:induction false} ListsPruned(m: Module, path: seq<string>, seen: set<nat>)
    requires m.id !in seen
    ensures NamedModules(m, path, seen) == Named(Listing(Prune(m, seen).body, path), Prune(m, seen).seen)
    decreases m, |m.children| + 1
  {
    ListsPrunedKids(m, 0, path, seen + {m.id});
    NoInfo(m.info, PruneKids(m, 0, seen + {m.id}).kids, path);
  }

  lemma {:induction false} ListsPrunedKids(m: Module, i: nat, path: seq<string>, seen: set<nat>)
    requires i <= |m.children|
    ensures var p := PruneKids(m, i, seen);
      NamedChildren(m, i, path, seen) == Named(KidListings(Tree("", p.kids), 0, path), p.seen)
    decreases m, |m.children| - i
  {
    hide Listing, Prune;
    if i < |m.children| {
      var c := m.children[i];
      if c.body.id in seen {
        ListsPrunedKids(m, i + 1, path, seen);
      } else {
        var first := Prune(c.body, seen);
        ListsPruned(c.body, path + [c.name], seen);
        ListsPrunedKids(m, i + 1, path, first.seen);
        KidsShift("", Kid(c.name, first.body), PruneKids(m, i + 1, first.seen).kids, 0, path);
      }
    }
  }

  /** Without repeated objects nothing is pruned. */
  lemma NothingPruned(m: Module)
    requires Unshared(m)
    ensures Seen(m) == Shape(m)
  {
    hide Prune, Listing, Shape, NamedModules;
    NothingSkipped(m, [], {});
    ListsPruned(m, [], {});
    var k, l := Listing(Seen(m), []), Listing(Shape(m), []);
    assert k + [] == l + [];
    ListingDetermines(Seen(m), Shape(m), [], [], []);
  }

  // ---- the text -----------------------------------------------------------

  function Line(e: Entry): string { Join(e.path, ".") + ":" + e.info }

  function Lines(l: seq<Entry>): (s: seq<string>)
    ensures |s| == |l| && forall i :: 0 <= i < |l| ==> s[i] == Line(l[i])
  {
    seq(|l|, i requires 0 <= i < |l| => Line(l[i]))
  }

  function Signature(m: Module): string
  {
    Join(Lines(NamedModules(m, [], {}).list), "\n")
  }

  ghost predicate TidyName(n: string) { n != "" && Free(n, '.') && Free(n, ':') && Free(n, '\n') }

  ghost predicate TidyEntry(e: Entry)
  {
    (forall i :: 0 <= i < |e.path| ==> TidyName(e.path[i])) && Free(e.info, '\n')
  }

  ghost predicate TidyList(l: seq<Entry>) { forall i :: 0 <= i < |l| ==> TidyEntry(l[i]) }

  /** Names without dots, colons and line breaks, and infos without line breaks. */
  ghost predicate Tidy(m: Module) { TidyList(Listing(Seen(m), [])) }

  lemma LineDetermines(d: Entry, e: Entry)
    requires TidyEntry(d) && TidyEntry(e) && Line(d) == Line(e)
    ensures d == e
  {
    JoinFree(d.path, '.', ':');
    JoinFree(e.path, '.', ':');
    hide Join, Free;
    SplitOnce(Join(d.path, "."), Join(e.path, "."), d.info, e.info, ':');
    JoinDetermines(d.path, e.path, '.');
  }

  lemma LineIsTidy(e: Entry)
    requires TidyEntry(e)
    ensures Line(e) != "" && Free(Line(e), '\n')
  {
    JoinFree(e.path, '.', '\n');
  }

  /** The text determines the list. */
  lemma TextDetermines(k: seq<Entry>, l: seq<Entry>)
    requires TidyList(k) && TidyList(l) && Join(Lines(k), "\n") == Join(Lines(l), "\n")
    ensures k == l
  {
    hide Join, Line, TidyEntry, Free;
    forall i | 0 <= i < |k| ensures Line(k[i]) != "" && Free(Line(k[i]), '\n') { LineIsTidy(k[i]); }
    forall i | 0 <= i < |l| ensures Line(l[i]) != "" && Free(Line(l[i]), '\n') { LineIsTidy(l[i]); }
    JoinDetermines(Lines(k), Lines(l), '\n');
    forall i | 0 <= i < |k| ensures k[i] == l[i] {
      assert Lines(k)[i] == Lines(l)[i];
      LineDetermines(k[i], l[i]);
    }
  }

  /** Where the text is tidy, modules share a signature exactly when what is listed of them is the
      same tree. */
  lemma SignatureIff(a: Module, b: Module)
    requires Tidy(a) && Tidy(b)
    ensures Signature(a) == Signature(b) <==> Seen(a) == Seen(b)
  {
    hide Prune, Listing, NamedModules, Join, TidyList;
    ListsPruned(a, [], {});
    ListsPruned(b, [], {});
    var k, l := Listing(Seen(a), []), Listing(Seen(b), []);
    if Signature(a) == Signature(b) {
      TextDetermines(k, l);
      assert k + [] == l + [];
      ListingDetermines(Seen(a), Seen(b), [], [], []);
    }
  }

  /** Where no object occurs twice, that is when they are the same tree. */
  lemma UnsharedIff(a: Module, b: Module)
    requires Tidy(a) && Tidy(b) && Unshared(a) && Unshared(b)
    ensures Signature(a) == Signature(b) <==> Shape(a) == Shape(b)
  {
    SignatureIff(a, b);
    NothingPruned(a);
    NothingPruned(b);
  }

  /** With a shared object it can fail: here y sits in x and again beside x, where named_modules
      skips it, so the module looks like one that has no second child at all. */
  lemma SharedLooksAlike(a: Module, b: Module)
    requires var y := Module(2, "Y", []); var x := Module(1, "X", [Child("c", y)]);
      a == Module(0, "M", [Child("a", x), Child("d", y)]) && b == Module(0, "M", [Child("a", x)])
    ensures Signature(a) == Signature(b) && Shape(a) != Shape(b)
    ensures !Unshared(a) && Unshared(b) && Tidy(a) && Tidy(b)
  {
    var x, y := b.children[0].body, a.children[1].body;
    assert Named([Entry(["a", "c"], "Y")], {0, 1, 2}) == NamedModules(y, ["a", "c"], {0, 1});
    assert NamedChildren(x, 1, ["a"], {0, 1, 2}) == Named([], {0, 1, 2});
    assert ["a"] + ["c"] == ["a", "c"] && {0, 1} == {0} + {1};
    assert NamedModules(x, ["a"], {0}) == Named([Entry(["a"], "X"), Entry(["a", "c"], "Y")], {0, 1, 2});
    assert [] + ["a"] == ["a"] && {} + {0} == {0};
    assert NamedModules(y, ["d"], {0, 1, 2}) == Named([], {0, 1, 2});
    assert NamedChildren(a, 2, [], {0, 1, 2}) == Named([], {0, 1, 2}) && [] + ["d"] == ["d"];
    assert NamedChildren(a, 1, [], {0, 1, 2}) == Named([], {0, 1, 2});
    assert NamedChildren(b, 1, [], {0, 1, 2}) == Named([], {0, 1, 2});
    assert NamedModules(a, [], {}) == NamedModules(b, [], {});
    assert |Shape(a).kids| == 2 && |Shape(b).kids| == 1;
    TheirIds(x, y);
    assert Ids(a) == [0] + (Ids(x) + (Ids(y) + [])) && Ids(a)[2] == Ids(a)[3];
    assert Ids(b) == [0] + (Ids(x) + []);
    NothingSkipped(b, [], {});
    TheirListings(a, b, x, y);
  }

  lemma TheirIds(x: Module, y: Module)
    requires y == Module(2, "Y", []) && x == Module(1, "X", [Child("c", y)])
    ensures Ids(y) == [2] && Ids(x) == [1, 2]
  {
    assert ChildIds(y, 0) == [];
    assert ChildIds(x, 1) == [];
    assert ChildIds(x, 0) == Ids(y) + [];
  }

  const LEAF: Tree := Tree("Y", [])
  const INNER: Tree := Tree("X", [Kid("c", LEAF)])

  lemma TheirShapes(a: Module, b: Module, x: Module, y: Module)
    requires y == Module(2, "Y", []) && x == Module(1, "X", [Child("c", y)])
    requires a == Module(0, "M", [Child("a", x), Child("d", y)]) && b == Module(0, "M", [Child("a", x)])
    ensures Shape(a) == Tree("M", [Kid("a", INNER), Kid("d", LEAF)]) && Shape(b) == Tree("M", [Kid("a", INNER)])
  {
    assert Shape(y) == LEAF;
    KidAt(x, 0);
    KidAt(a, 0);
    KidAt(a, 1);
    KidAt(b, 0);
    assert Shape(x) == INNER;
  }

  lemma TheirListings(a: Module, b: Module, x: Module, y: Module)
    requires y == Module(2, "Y", []) && x == Module(1, "X", [Child("c", y)])
    requires a == Module(0, "M", [Child("a", x), Child("d", y)]) && b == Module(0, "M", [Child("a", x)])
    requires NamedModules(a, [], {}) == NamedModules(b, [], {}) && Unshared(b)
    ensures Tidy(a) && Tidy(b)
  {
    hide Listing, Shape, NamedModules, Prune, Unshared;
    TheirShapes(a, b, x, y);
    LeafListing(LEAF, ["a", "c"]);
    OneKid(INNER, ["a"]);
    assert ["a"] + ["c"] == ["a", "c"] && [] + ["a"] == ["a"];
    OneKid(Shape(b), []);
    assert Listing(Shape(b), []) == [Entry([], "M"), Entry(["a"], "X"), Entry(["a", "c"], "Y")];
    NothingPruned(b);
    ListsPruned(a, [], {});
    ListsPruned(b, [], {});
  }

  lemma LeafListing(t: Tree, path: seq<string>)
    requires t.kids == []
    ensures Listing(t, path) == [Entry(path, t.info)]
  {
  }

  lemma OneKid(t: Tree, path: seq<string>)
    requires |t.kids| == 1
    ensures Listing(t, path) == [Entry(path, t.info)] + Listing(t.kids[0].body, path + [t.kids[0].name])
  {
    assert KidListings(t, 1, path) == [];
  }
}
