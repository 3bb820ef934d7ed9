/** The numbered children of one module: those with the same signature are printed as one. Where no
    module object is shared, the printed lines can be read back. */
module ModuleTree {
  import opened IndexRanges
  import opened Unique
  import opened Strings
  import opened ModuleSignature
  import S = Sorting

  // ---- groups -------------------------------------------------------------

  datatype Numbered = Numbered(idx: int, body: Module)

  function Key(c: Numbered): string { Signature(c.body) }

  /** The children with this signature, in order. */
  function Alike(numbered: seq<Numbered>, sig: string): (r: seq<Numbered>)
    ensures |r| <= |numbered|
    ensures forall c :: c in r <==> c in numbered && Key(c) == sig
  {
    if numbered == [] then [] else
      var n := |numbered| - 1;
      Alike(numbered[..n], sig) + if Key(numbered[n]) == sig then [numbered[n]] else []
  }

  function Indices(numbered: seq<Numbered>): (r: seq<int>)
    ensures |r| == |numbered| && forall i :: 0 <= i < |r| ==> r[i] == numbered[i].idx
  {
    seq(|numbered|, i requires 0 <= i < |numbered| => numbered[i].idx)
  }

  /** One group per signature, holding all the children that have it. */
  ghost predicate Grouping(numbered: seq<Numbered>, groups: seq<seq<Numbered>>)
  {
    && (forall g :: 0 <= g < |groups| ==> groups[g] != [] && groups[g] == Alike(numbered, Key(groups[g][0])))
    && (forall g, h :: 0 <= g < h < |groups| ==> groups[g] != [] && groups[h] != [] ==>
        Key(groups[g][0]) != Key(groups[h][0]))
    && (forall c :: c in numbered ==> exists g :: 0 <= g < |groups| && c in groups[g])
  }

  /** setdefault(sig, []).append(child), for every child. */
  method GroupBySignature(numbered: seq<Numbered>) returns (groups: seq<seq<Numbered>>)
    ensures Grouping(numbered, groups)
  {
    hide Grouping, Key, Alike;
    groups := [];
    var keys: seq<string> := [];
    NoChildren();
    for k := 0 to |numbered|
      invariant Grouping(numbered[..k], groups)
      invariant |keys| == |groups| && forall g :: 0 <= g < |groups| ==> groups[g] != [] && keys[g] == Key(groups[g][0])
    {
      var c := numbered[k];
      var g := Position(keys, Key(c));
      assert numbered[..k + 1] == numbered[..k] + [c];
      if g == |keys| {
        NewGroup(numbered[..k], groups, c);
        keys, groups := keys + [Key(c)], groups + [[c]];
      } else {
        JoinGroup(numbered[..k], groups, g, c);
        groups := groups[g := groups[g] + [c]];
      }
    }
    assert numbered[..|numbered|] == numbered;
  }

  lemma NoChildren()
    ensures Grouping([], [])
  {
  }

  lemma AlikeSnoc(numbered: seq<Numbered>, c: Numbered, sig: string)
    ensures Alike(numbered + [c], sig) == Alike(numbered, sig) + if Key(c) == sig then [c] else []
  {
    assert (numbered + [c])[..|numbered|] == numbered;
  }

  lemma NotYet(numbered: seq<Numbered>, groups: seq<seq<Numbered>>, sig: string)
    requires Grouping(numbered, groups) && forall g :: 0 <= g < |groups| ==> groups[g] != [] && Key(groups[g][0]) != sig
    ensures Alike(numbered, sig) == []
  {
    hide Key;
    forall x | x in numbered ensures Key(x) != sig {
      var h :| 0 <= h < |groups| && x in groups[h];
    }
    HeadIsMember(Alike(numbered, sig));
  }

  lemma HeadIsMember<T>(s: seq<T>)
    ensures s != [] ==> s[0] in s
  {
  }

  lemma NewGroup(numbered: seq<Numbered>, groups: seq<seq<Numbered>>, c: Numbered)
    requires Grouping(numbered, groups) && forall g :: 0 <= g < |groups| ==>
      groups[g] != [] && Key(groups[g][0]) != Key(c)
    ensures Grouping(numbered + [c], groups + [[c]])
  {
    hide Alike, Key;
    var next: seq<seq<Numbered>>, all := groups + [[c]], numbered + [c];
    forall g: nat | g < |next| ensures next[g] == Alike(all, Key(next[g][0])) {
      AlikeSnoc(numbered, c, Key(next[g][0]));
      if g == |groups| { NotYet(numbered, groups, Key(c)); }
    }
    forall x | x in all ensures exists g :: 0 <= g < |next| && x in next[g] {
      if x in numbered {
        var g :| 0 <= g < |groups| && x in groups[g];
        assert x in next[g];
      } else {
        assert x in next[|groups|];
      }
    }
  }

  lemma JoinGroup(numbered: seq<Numbered>, groups: seq<seq<Numbered>>, k: nat, c: Numbered)
    requires Grouping(numbered, groups) && k < |groups| && groups[k] != [] && Key(groups[k][0]) == Key(c)
    ensures Grouping(numbered + [c], groups[k := groups[k] + [c]])
  {
    hide Alike, Key;
    var next: seq<seq<Numbered>>, all := groups[k := groups[k] + [c]], numbered + [c];
    forall g: nat | g < |next| ensures next[g] == Alike(all, Key(next[g][0])) {
      AlikeSnoc(numbered, c, Key(next[g][0]));
      assert g < k ==> Key(groups[g][0]) != Key(groups[k][0]);
      assert k < g ==> Key(groups[k][0]) != Key(groups[g][0]);
    }
    forall x | x in all ensures exists g :: 0 <= g < |next| && x in next[g] {
      if x in numbered {
        var g :| 0 <= g < |groups| && x in groups[g];
        assert x in next[g];
      } else {
        assert x in next[k];
      }
    }
  }

  // ---- printed lines ------------------------------------------------------

  /** A printed line for numbered children: the label, how many there are, and the one shown. */
  datatype Line = Line(text: string, count: nat, shown: Module) {
    function Key(): string { Signature(shown) }

    /** The label of a single child is its bare index. */
    ghost predicate Bare() { count == 1 ==> exists n: int :: text == ShowInt(n) }
  }

  ghost predicate Names(line: Line, idx: int)
  {
    Parse(line.text).Ranges? && idx in Expand(Parse(line.text).list)
  }

  ghost predicate IsBody(numbered: seq<Numbered>, m: Module)
  {
    exists c :: c in numbered && c.body == m
  }

  /** Every signature has its line, whose label reads as the sorted indices of all children that
      have it. */
  ghost predicate Describes(numbered: seq<Numbered>, lines: seq<Line>)
  {
    && (forall i :: 0 <= i < |lines| ==>
          && Parse(lines[i].text).Ranges? && lines[i].count == |Alike(numbered, lines[i].Key())| > 0
          && Expand(Parse(lines[i].text).list) == Sort(Indices(Alike(numbered, lines[i].Key())))
          && IsBody(numbered, lines[i].shown) && lines[i].Bare())
    && (forall i, j :: 0 <= i < j < |lines| ==> lines[i].Key() != lines[j].Key())
    && (forall c :: c in numbered ==> exists i :: 0 <= i < |lines| && lines[i].Key() == Key(c))
  }

  /** The label of one group: the bare index of a single child, else the ranges. */
  method Label(group: seq<Numbered>) returns (text: string)
    requires group != []
    ensures Parse(text).Ranges? && Expand(Parse(text).list) == Sort(Indices(group))
    ensures |group| == 1 ==> text == ShowInt(group[0].idx)
  {
    hide Parse, Expand, Sort;
    var indices := Indices(group);
    if |indices| > 1 {
      text := FormatIndexRanges(indices);
    } else {
      text := ShowInt(indices[0]);
      OneIndex(indices[0]);
      assert indices == [indices[0]];
    }
  }

  lemma OneIndex(n: int)
    ensures Parse(ShowInt(n)).Ranges? && Expand(Parse(ShowInt(n)).list) == Sort([n]) == [n]
  {
    hide Parse;
    var r := Range(n, n);
    ParseShow([r]);
    assert Join(ShowAll([r]), ", ") == ShowInt(n);
    assert [] + [r] == [r];
    ExpandSnoc([], r);
    ExpandNone();
    SpanOne(n);
    SortOne(n);
  }

  lemma SortOne(n: int)
    ensures Sort([n]) == [n]
  {
    hide Sort;
    var r := Sort([n]);
    assert |r| == 1 && r[0] in multiset(r);
    assert multiset(r) == multiset{n};
  }

  ghost predicate NoneEmpty(groups: seq<seq<Numbered>>)
  {
    forall g :: 0 <= g < |groups| ==> groups[g] != []
  }

  ghost predicate FirstsGrow(groups: seq<seq<Numbered>>)
    requires NoneEmpty(groups)
  {
    forall g, h :: 0 <= g < h < |groups| ==> groups[g][0].idx <= groups[h][0].idx
  }

  function GroupKey(g: seq<Numbered>): S.Key { S.Key(if g == [] then 0.0 else g[0].idx as real, 0) }

  /** sorted(groups, key = first index). */
  function ByFirstIndex(groups: seq<seq<Numbered>>): (r: seq<seq<Numbered>>)
    requires NoneEmpty(groups)
    ensures multiset(r) == multiset(groups) && NoneEmpty(r) && FirstsGrow(r)
  {
    GroupOrder(groups, S.Sort(groups, GroupKey));
    S.Sort(groups, GroupKey)
  }

  lemma GroupOrder(groups: seq<seq<Numbered>>, r: seq<seq<Numbered>>)
    requires NoneEmpty(groups) && multiset(r) == multiset(groups) && S.SortedBy(r, GroupKey)
    ensures NoneEmpty(r) && FirstsGrow(r)
  {
    forall g | 0 <= g < |r| ensures r[g] in groups { assert r[g] in multiset(r); }
    forall g, h | 0 <= g < h < |r| ensures r[g][0].idx <= r[h][0].idx { assert GroupKey(r[g]).AtMost(GroupKey(r[h])); }
  }

  /** The line of one group. */
  ghost predicate Shows(line: Line, group: seq<Numbered>)
  {
    && group != [] && line.shown == group[0].body && line.count == |group|
    && Parse(line.text).Ranges? && Expand(Parse(line.text).list) == Sort(Indices(group))
    && (line.count == 1 ==> line.text == ShowInt(group[0].idx))
  }

  lemma ShownAt(numbered: seq<Numbered>, line: Line, group: seq<Numbered>)
    requires Shows(line, group) && group == Alike(numbered, Key(group[0]))
    ensures group != [] && line.Key() == Key(group[0]) && Alike(numbered, line.Key()) == group
    ensures Parse(line.text).Ranges? && line.count == |group| > 0 && line.Bare() && IsBody(numbered, line.shown)
    ensures Expand(Parse(line.text).list) == Sort(Indices(group))
  {
    hide Alike, Parse, Expand, Sort, Indices, ShowInt, Signature;
    HeadIsMember(group);
    assert group[0] in Alike(numbered, Key(group[0]));
  }

  lemma AllShown(numbered: seq<Numbered>, groups: seq<seq<Numbered>>, lines: seq<Line>)
    requires Grouping(numbered, groups) && |lines| == |groups|
    requires forall i :: 0 <= i < |lines| ==> Shows(lines[i], groups[i])
    ensures Describes(numbered, lines)
    ensures forall i :: 0 <= i < |lines| ==> Alike(numbered, lines[i].Key()) == groups[i] != []
  {
    hide Alike, Parse, Expand, Sort, Indices, Shows, Key, Line.Key, Line.Bare, IsBody;
    forall i | 0 <= i < |lines|
      ensures groups[i] != [] && lines[i].Key() == Key(groups[i][0]) && Alike(numbered, lines[i].Key()) == groups[i]
      ensures Parse(lines[i].text).Ranges? && lines[i].count == |groups[i]| > 0 && lines[i].Bare()
      ensures IsBody(numbered, lines[i].shown) && Expand(Parse(lines[i].text).list) == Sort(Indices(groups[i]))
    {
      ShownAt(numbered, lines[i], groups[i]);
    }
    forall c | c in numbered ensures exists i :: 0 <= i < |lines| && lines[i].Key() == Key(c) {
      var g :| 0 <= g < |groups| && c in groups[g];
      assert c in Alike(numbered, lines[g].Key());
    }
  }

  /** By the first index of each line's children. */
  ghost predicate InOrder(numbered: seq<Numbered>, lines: seq<Line>)
  {
    forall i, j :: 0 <= i < j < |lines| ==>
      var a, b := Alike(numbered, lines[i].Key()), Alike(numbered, lines[j].Key());
      a != [] && b != [] && a[0].idx <= b[0].idx
  }

  /** The numbered part of a printed module: one line per signature, by first index. */
  method FormatNumbered(numbered: seq<Numbered>) returns (lines: seq<Line>)
    ensures Describes(numbered, lines) && InOrder(numbered, lines)
  {
    hide Alike, Parse, Expand, Sort, Indices, Describes, Grouping, ByFirstIndex, ShowInt;
    var groups := GroupBySignature(numbered);
    StillGrouping(numbered, groups, groups);
    var sorted := ByFirstIndex(groups);
    StillGrouping(numbered, groups, sorted);
    lines := [];
    for g := 0 to |sorted|
      invariant |lines| == g && forall i :: 0 <= i < g ==> Shows(lines[i], sorted[i])
    {
      var text := Label(sorted[g]);
      lines := lines + [Line(text, |sorted[g]|, sorted[g][0].body)];
    }
    AllShown(numbered, sorted, lines);
  }

  lemma StillGrouping(numbered: seq<Numbered>, groups: seq<seq<Numbered>>, sorted: seq<seq<Numbered>>)
    requires Grouping(numbered, groups) && multiset(sorted) == multiset(groups)
    ensures Grouping(numbered, sorted) && NoneEmpty(groups)
  {
    hide Alike, Key;
    DistinctIff(groups);
    DistinctIff(sorted);
    forall g | 0 <= g < |sorted| ensures sorted[g] in groups { assert sorted[g] in multiset(sorted); }
    forall x | x in groups ensures x in sorted { assert x in multiset(groups); }
    forall c | c in numbered ensures exists g :: 0 <= g < |sorted| && c in sorted[g] {
      var g :| 0 <= g < |groups| && c in groups[g];
      assert groups[g] in sorted;
    }
  }

  /** Some child has this index and the signature of this line. */
  ghost predicate Belongs(numbered: seq<Numbered>, line: Line, idx: int)
  {
    exists c :: c in numbered && c.idx == idx && Key(c) == line.Key()
  }

  /** With distinct indices, every index is named by at most one line, and a line names a child
      exactly if it shows a module with that child's signature. */
  lemma ReadBack(numbered: seq<Numbered>, lines: seq<Line>, i: nat, idx: int)
    requires Describes(numbered, lines) && Distinct(Indices(numbered)) && i < |lines|
    ensures Names(lines[i], idx) <==> Belongs(numbered, lines[i], idx)
    ensures forall c :: c in numbered && c.idx == idx ==> (Names(lines[i], idx) <==> lines[i].Key() == Key(c))
    ensures forall j :: 0 <= j < |lines| && Names(lines[i], idx) && Names(lines[j], idx) ==> i == j
  {
    hide Describes, Names, Key, Line.Key;
    forall j | 0 <= j < |lines| ensures Names(lines[j], idx) <==> Belongs(numbered, lines[j], idx) {
      NamesAlike(numbered, lines, j, idx);
    }
    OnePerIndex(numbered);
    forall j | 0 <= j < |lines| && j != i ensures lines[j].Key() != lines[i].Key() { Apart(numbered, lines, i, j); }
  }

  lemma OnePerIndex(numbered: seq<Numbered>)
    requires Distinct(Indices(numbered))
    ensures forall a, b :: a in numbered && b in numbered && a.idx == b.idx ==> a == b
  {
    forall a, b | a in numbered && b in numbered && a.idx == b.idx ensures a == b {
      var k :| 0 <= k < |numbered| && numbered[k] == a;
      var l :| 0 <= l < |numbered| && numbered[l] == b;
      assert Indices(numbered)[k] == Indices(numbered)[l];
    }
  }

  lemma Apart(numbered: seq<Numbered>, lines: seq<Line>, i: nat, j: nat)
    requires Describes(numbered, lines) && i < |lines| && j < |lines| && i != j
    ensures lines[i].Key() != lines[j].Key()
  {
    hide Alike, Parse, Expand, Sort, Indices, Line.Key;
    if i < j { assert lines[i].Key() != lines[j].Key(); } else { assert lines[j].Key() != lines[i].Key(); }
  }

  lemma SortedMembers(s: seq<int>, x: int)
    ensures x in Sort(s) <==> x in s
  {
    hide Sort;
    assert x in Sort(s) <==> x in multiset(Sort(s));
    assert x in s <==> x in multiset(s);
  }

  lemma IndexMembers(numbered: seq<Numbered>, idx: int)
    ensures idx in Indices(numbered) <==> exists c :: c in numbered && c.idx == idx
  {
    var s := Indices(numbered);
    if idx in s {
      var k :| 0 <= k < |s| && s[k] == idx;
      assert numbered[k] in numbered;
    }
    if c :| c in numbered && c.idx == idx {
      var k :| 0 <= k < |numbered| && numbered[k] == c;
      assert s[k] == idx;
    }
  }

  lemma LineReads(numbered: seq<Numbered>, lines: seq<Line>, i: nat)
    requires Describes(numbered, lines) && i < |lines|
    ensures Parse(lines[i].text).Ranges?
    ensures Expand(Parse(lines[i].text).list) == Sort(Indices(Alike(numbered, lines[i].Key())))
  {
    hide Parse, Expand, Sort, Key, Line.Key, Indices, Alike;
  }

  lemma NamesAlike(numbered: seq<Numbered>, lines: seq<Line>, i: nat, idx: int)
    requires Describes(numbered, lines) && i < |lines|
    ensures Names(lines[i], idx) <==> Belongs(numbered, lines[i], idx)
  {
    hide Parse, Expand, Sort, Key, Line.Key, Indices, Describes;
    LineReads(numbered, lines, i);
    var a := Alike(numbered, lines[i].Key());
    SortedMembers(Indices(a), idx);
    IndexMembers(a, idx);
    if Belongs(numbered, lines[i], idx) {
      var c :| c in numbered && c.idx == idx && Key(c) == lines[i].Key();
      assert c in a;
    }
  }

  /** What is read back, where the signatures are tidy: every child is named by a line, and by a
      line exactly if the same is listed of the child and of the module the line shows. */
  lemma ReadBackTree(numbered: seq<Numbered>, lines: seq<Line>, c: Numbered)
    requires Describes(numbered, lines) && Distinct(Indices(numbered)) && c in numbered
    requires forall d :: d in numbered ==> Tidy(d.body)
    ensures forall i :: 0 <= i < |lines| ==> (Names(lines[i], c.idx) <==> Seen(lines[i].shown) == Seen(c.body))
    ensures exists i :: 0 <= i < |lines| && Names(lines[i], c.idx)
  {
    var found :| 0 <= found < |lines| && lines[found].Key() == Key(c);
    forall i | 0 <= i < |lines| ensures IsBody(numbered, lines[i].shown) {}
    hide Describes, Names, Tidy, Seen, Signature;
    forall i | 0 <= i < |lines|
      ensures Names(lines[i], c.idx) <==> lines[i].Key() == Key(c)
      ensures lines[i].Key() == Key(c) <==> Seen(lines[i].shown) == Seen(c.body)
    {
      ReadBack(numbered, lines, i, c.idx);
      SignatureIff(lines[i].shown, c.body);
    }
  }

  /** Nothing is lost for a child and a line that share no object within themselves: the line names
      the child exactly if it shows the child's own tree. */
  lemma ReadBackWhole(numbered: seq<Numbered>, lines: seq<Line>, c: Numbered, i: nat)
    requires Describes(numbered, lines) && Distinct(Indices(numbered)) && c in numbered && i < |lines|
    requires forall d :: d in numbered ==> Tidy(d.body)
    requires Unshared(c.body) && Unshared(lines[i].shown)
    ensures Names(lines[i], c.idx) <==> Shape(lines[i].shown) == Shape(c.body)
  {
    hide Describes, Names, Tidy, Seen, Signature, Unshared, Shape;
    ReadBackTree(numbered, lines, c);
    NothingPruned(c.body);
    NothingPruned(lines[i].shown);
  }
}
