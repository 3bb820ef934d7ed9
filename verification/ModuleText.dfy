/** format_model_inspection: the whole printed tree, and what of the modules it determines. int is
    Python's conversion of a name to a number, of which only is used that it reads back what str
    makes of an integer. */
module ModuleText {
  import opened Unique
  import opened Strings
  import opened IndexRanges
  import opened ModuleSignature
  import opened ModuleTree
  import opened ModuleView

  datatype Int = NotANumber | Int(value: int)

  type Conversion = string -> Int

  ghost predicate ReadsInts(toInt: Conversion) { forall n: int :: toInt(ShowInt(n)) == Int(n) }

  /** Such a conversion exists. */
  function ToInt(s: string): Int
  {
    match ParseInt(s) case NoNumber => NotANumber case Number(v, rest) => if rest == "" then Int(v) else NotANumber
  }

  lemma ToIntReadsInts()
    ensures ReadsInts(ToInt)
  {
    hide ParseInt, ShowInt;
    forall n: int ensures ToInt(ShowInt(n)) == Int(n) {
      ParseShowInt(n, "");
      assert ShowInt(n) + "" == ShowInt(n);
    }
  }

  // ---- the children of a module -------------------------------------------

  /** named_children: an object that stands among the children twice is listed once. */
  function FirstOf(cs: seq<Child>): (r: seq<Child>)
    ensures forall c :: c in r ==> c in cs
  {
    if cs == [] then [] else
      var n := |cs| - 1;
      var init := FirstOf(cs[..n]);
      if exists c :: c in init && c.body.id == cs[n].body.id then init else init + [cs[n]]
  }

  /** Every object stands there once. */
  lemma {:induction false} FirstOnce(cs: seq<Child>)
    ensures forall i, j :: 0 <= i < j < |FirstOf(cs)| ==> FirstOf(cs)[i].body.id != FirstOf(cs)[j].body.id
  {
    if cs != [] {
      var n := |cs| - 1;
      var init := FirstOf(cs[..n]);
      FirstOnce(cs[..n]);
      if !exists c :: c in init && c.body.id == cs[n].body.id {
        forall i | 0 <= i < |init| ensures init[i].body.id != cs[n].body.id { assert init[i] in init; }
      }
    }
  }

  /** None is missing. */
  lemma {:induction false} FirstAll(cs: seq<Child>, k: nat)
    requires k < |cs|
    ensures exists d :: d in FirstOf(cs) && d.body.id == cs[k].body.id
  {
    var n := |cs| - 1;
    var init := FirstOf(cs[..n]);
    if k < n {
      FirstAll(cs[..n], k);
      var d :| d in init && d.body.id == cs[..n][k].body.id;
      assert d in FirstOf(cs);
    } else if !exists c :: c in init && c.body.id == cs[n].body.id {
      assert FirstOf(cs) == init + [cs[n]];
      assert cs[n] in FirstOf(cs);
    } else {
      assert FirstOf(cs) == init;
    }
  }

  function ChildrenOf(m: Module): seq<Child> { FirstOf(m.children) }

  /** The children whose names are numbers, and the others. */
  function Numbers(cs: seq<Child>, toInt: Conversion): seq<Numbered>
  {
    if cs == [] then [] else
      var n := |cs| - 1;
      Numbers(cs[..n], toInt) + match toInt(cs[n].name) case NotANumber => [] case Int(i) => [Numbered(i, cs[n].body)]
  }

  function Others(cs: seq<Child>, toInt: Conversion): seq<Child>
  {
    if cs == [] then [] else
      var n := |cs| - 1;
      Others(cs[..n], toInt) + if toInt(cs[n].name).Int? then [] else [cs[n]]
  }

  lemma {:induction false} NumbersAre(cs: seq<Child>, toInt: Conversion)
    ensures forall i, b :: Numbered(i, b) in Numbers(cs, toInt)
              <==> exists c :: c in cs && toInt(c.name) == Int(i) && c.body == b
    ensures forall c :: c in Others(cs, toInt) <==> c in cs && !toInt(c.name).Int?
  {
    if cs != [] {
      var n := |cs| - 1;
      NumbersAre(cs[..n], toInt);
      assert cs == cs[..n] + [cs[n]];
    }
  }

  // ---- what is printed ----------------------------------------------------

  function NameHead(name: string): Head { if name == "" then Top else Name(name) }

  function LineHead(line: Line): Head { if line.count > 1 then Group(line.text, line.count) else Name(line.text) }

  /** v shows the module m: its info, then its numbered children grouped by signature in order of
      first indices, one child shown for each group, then the others. */
  ghost predicate Pictures(m: Module, v: View, stripped: bool, toInt: Conversion)
    decreases v, 1
  {
    && v.info == (if stripped then LStrip(m.info) else m.info)
    && (v.open <==> ChildrenOf(m) != [])
    && exists lines: seq<Line> :: PicturesWith(m, v, lines, toInt)
  }

  ghost predicate PicturesWith(m: Module, v: View, lines: seq<Line>, toInt: Conversion)
    decreases v, 0
  {
    var numbered, named := Numbers(ChildrenOf(m), toInt), Others(ChildrenOf(m), toInt);
    && Describes(numbered, lines) && InOrder(numbered, lines)
    && |v.kids| == |lines| + |named|
    && forall i :: 0 <= i < |v.kids| ==> ShowsKid(lines, named, i, v.kids[i], toInt)
  }

  /** What the i-th printed child shows. */
  ghost predicate ShowsKid(lines: seq<Line>, named: seq<Child>, i: nat, kid: View, toInt: Conversion)
    requires i < |lines| + |named|
    decreases kid, 2
  {
    if i < |lines| then kid.head == LineHead(lines[i]) && Pictures(lines[i].shown, kid, true, toInt)
    else
      var c := named[i - |lines|];
      kid.head == NameHead(c.name) && Pictures(c.body, kid, false, toInt)
  }

  /** The text of a whole model. */
  ghost predicate PrintedAs(m: Module, text: string, toInt: Conversion)
  {
    exists v: View :: v.head == Top && Pictures(m, v, false, toInt) && text == Text(v)
  }

  // ---- the printer --------------------------------------------------------

  method SplitChildren(cs: seq<Child>, toInt: Conversion) returns (numbered: seq<Numbered>, named: seq<Child>)
    ensures numbered == Numbers(cs, toInt) && named == Others(cs, toInt)
  {
    numbered, named := [], [];
    for k := 0 to |cs|
      invariant numbered == Numbers(cs[..k], toInt) && named == Others(cs[..k], toInt)
    {
      assert cs[..k + 1][..k] == cs[..k];
      match toInt(cs[k].name)
      case Int(i) => numbered := numbered + [Numbered(i, cs[k].body)];
      case NotANumber => named := named + [cs[k]];
    }
    assert cs[..|cs|] == cs;
  }

  lemma ShownIsChild(m: Module, toInt: Conversion, lines: seq<Line>, i: nat) returns (k: nat)
    requires Describes(Numbers(ChildrenOf(m), toInt), lines) && i < |lines|
    ensures k < |m.children| && m.children[k].body == lines[i].shown
  {
    hide Describes, Parse, Expand, FirstOf, Numbers, Others;
    var numbered := Numbers(ChildrenOf(m), toInt);
    LineIsBody(numbered, lines, i);
    var n :| n in numbered && n.body == lines[i].shown;
    NumbersAre(ChildrenOf(m), toInt);
    assert Numbered(n.idx, n.body) in numbered;
    var c :| c in ChildrenOf(m) && toInt(c.name) == Int(n.idx) && c.body == n.body;
    k :| k < |m.children| && m.children[k] == c;
  }

  lemma LineIsBody(numbered: seq<Numbered>, lines: seq<Line>, i: nat)
    requires Describes(numbered, lines) && i < |lines|
    ensures IsBody(numbered, lines[i].shown) && lines[i].count > 0 && lines[i].Bare() && Parse(lines[i].text).Ranges?
  {
    hide Parse, Expand, Alike, Sort, Indices;
  }

  lemma NamedIsChild(m: Module, toInt: Conversion, j: nat) returns (k: nat)
    requires j < |Others(ChildrenOf(m), toInt)|
    ensures k < |m.children| && m.children[k] == Others(ChildrenOf(m), toInt)[j]
  {
    NumbersAre(ChildrenOf(m), toInt);
    var c := Others(ChildrenOf(m), toInt)[j];
    assert c in m.children;
    k :| k < |m.children| && m.children[k] == c;
  }

  lemma Stripped(m: Module, v: View, h: Head, toInt: Conversion)
    requires Pictures(m, v, false, toInt)
    ensures Pictures(m, v.(head := h, info := LStrip(v.info)), true, toInt)
  {
    var lines: seq<Line> :| PicturesWith(m, v, lines, toInt);
    assert PicturesWith(m, v.(head := h, info := LStrip(v.info)), lines, toInt);
  }

  /** The line of one group: the child it shows, printed without a name, behind the group's head. */
  method FormatGroup(m: Module, lines: seq<Line>, i: nat, ghost named: seq<Child>, indent: nat, toInt: Conversion)
      returns (text: seq<string>, ghost v: View)
    requires Describes(Numbers(ChildrenOf(m), toInt), lines) && i < |lines|
    ensures text == Render(v, indent) && ShowsKid(lines, named, i, v, toInt)
    decreases m, 0
  {
    hide *;
    ghost var k := ShownIsChild(m, toInt, lines, i);
    assert m.children[k].body == lines[i].shown;
    text, v := FormatTree(lines[i].shown, "", indent, toInt);
    var head := LineHead(lines[i]);
    NoName();
    Relabelled(v, indent, head);
    Stripped(lines[i].shown, v, head, toInt);
    text := text[0 := Pad(indent) + (HeadText(head) + LStrip(text[0]))];
    v := v.(head := head, info := LStrip(v.info));
    LineKid(lines, named, i, v, toInt);
  }

  lemma NoName()
    ensures NameHead("") == Top
  {
  }

  /** _format_module_tree. */
  method FormatTree(m: Module, name: string, indent: nat, toInt: Conversion) returns (text: seq<string>, ghost v: View)
    ensures text == Render(v, indent) && v.head == NameHead(name) && Pictures(m, v, false, toInt)
    decreases m, 1
  {
    hide *;
    var children := ChildrenOf(m);
    var numbered, named := SplitChildren(children, toInt);
    var head := HeadText(NameHead(name));
    if children == [] {
      v := View(NameHead(name), m.info, false, []);
      text := [Pad(indent) + (head + m.info)];
      LeafPicture(m, v, indent, toInt);
      return;
    }
    var first := Pad(indent) + (head + m.info + "(");
    text := [first];
    var lines := FormatNumbered(numbered);
    ghost var kids: seq<View> := [];
    NoKids(indent + 1);
    for i := 0 to |lines|
      invariant |kids| == i && forall k :: 0 <= k < i ==> ShowsKid(lines, named, k, kids[k], toInt)
      invariant text == [first] + RenderAll(kids, indent + 1)
    {
      var child;
      ghost var w;
      child, w := FormatGroup(m, lines, i, named, indent + 1, toInt);
      RenderSnoc(kids, w, indent + 1);
      text, kids := text + child, kids + [w];
    }
    for j := 0 to |named|
      invariant |kids| == |lines| + j && forall k :: 0 <= k < |kids| ==> ShowsKid(lines, named, k, kids[k], toInt)
      invariant text == [first] + RenderAll(kids, indent + 1)
    {
      ghost var k := NamedIsChild(m, toInt, j);
      assert m.children[k] == named[j];
      var child;
      ghost var w;
      child, w := FormatTree(named[j].body, named[j].name, indent + 1, toInt);
      NamedKid(lines, named, j, w, toInt);
      RenderSnoc(kids, w, indent + 1);
      text, kids := text + child, kids + [w];
    }
    v := View(NameHead(name), m.info, true, kids);
    text := text + [Pad(indent) + ")"];
    ShownWith(m, v, lines, toInt);
    OpenPicture(m, v, lines, indent, toInt);
  }

  lemma NoKids(k: nat)
    ensures RenderAll([], k) == []
  {
  }

  lemma LineKid(lines: seq<Line>, named: seq<Child>, i: nat, kid: View, toInt: Conversion)
    requires i < |lines| && kid.head == LineHead(lines[i]) && Pictures(lines[i].shown, kid, true, toInt)
    ensures ShowsKid(lines, named, i, kid, toInt)
  {
  }

  lemma NamedKid(lines: seq<Line>, named: seq<Child>, j: nat, kid: View, toInt: Conversion)
    requires j < |named| && kid.head == NameHead(named[j].name) && Pictures(named[j].body, kid, false, toInt)
    ensures ShowsKid(lines, named, |lines| + j, kid, toInt)
  {
  }

  lemma ShownWith(m: Module, v: View, lines: seq<Line>, toInt: Conversion)
    requires var numbered, named := Numbers(ChildrenOf(m), toInt), Others(ChildrenOf(m), toInt);
      && Describes(numbered, lines) && InOrder(numbered, lines) && |v.kids| == |lines| + |named|
      && forall i :: 0 <= i < |v.kids| ==> ShowsKid(lines, named, i, v.kids[i], toInt)
    ensures PicturesWith(m, v, lines, toInt)
  {
    hide Describes, InOrder, Numbers, Others, ShowsKid;
  }

  lemma OpenPicture(m: Module, v: View, lines: seq<Line>, k: nat, toInt: Conversion)
    requires ChildrenOf(m) != [] && v.open && v.info == m.info && PicturesWith(m, v, lines, toInt)
    ensures Render(v, k) == [Pad(k) + (HeadText(v.head) + v.info + "(")] + RenderAll(v.kids, k + 1) + [Pad(k) + ")"]
    ensures Pictures(m, v, false, toInt)
  {
    hide HeadText, Pad, RenderAll, PicturesWith;
  }

  lemma LeafPicture(m: Module, v: View, k: nat, toInt: Conversion)
    requires ChildrenOf(m) == [] && v == View(v.head, m.info, false, [])
    ensures Render(v, k) == [Pad(k) + (HeadText(v.head) + m.info)] && Pictures(m, v, false, toInt)
  {
    hide HeadText, Pad;
    assert HeadText(v.head) + m.info + "" == HeadText(v.head) + m.info;
    assert Describes([], []) && InOrder([], []);
    assert PicturesWith(m, v, [], toInt);
  }

  /** format_model_inspection. */
  method FormatModel(m: Module, toInt: Conversion) returns (text: string)
    ensures PrintedAs(m, text, toInt)
  {
    hide Pictures, Join, Render;
    var lines;
    ghost var v;
    lines, v := FormatTree(m, "", 0, toInt);
    text := Join(lines, "\n");
    assert text == Text(v);
  }

  // ---- what the text determines -------------------------------------------

  /** Two trees that are the same but for the order of children, names that are numbers being taken
      as numbers. */
  ghost predicate SameTree(s: Tree, t: Tree, toInt: Conversion)
    decreases s, 0
  {
    && s.info == t.info
    && (forall i :: 0 <= i < |s.kids| ==> Found(s.kids[i], t.kids, toInt))
    && (forall j :: 0 <= j < |t.kids| ==> Covered(s.kids, t.kids[j], toInt))
  }

  ghost predicate Found(c: Kid, kids: seq<Kid>, toInt: Conversion)
    decreases c.body, 2
  {
    exists j :: 0 <= j < |kids| && SameKid(c, kids[j], toInt)
  }

  ghost predicate Covered(kids: seq<Kid>, d: Kid, toInt: Conversion)
    decreases kids, 2
  {
    exists i :: 0 <= i < |kids| && SameKid(kids[i], d, toInt)
  }

  ghost predicate SameKid(c: Kid, d: Kid, toInt: Conversion)
    decreases c.body, 1
  {
    SameName(c.name, d.name, toInt) && SameTree(c.body, d.body, toInt)
  }

  ghost predicate SameName(x: string, y: string, toInt: Conversion)
  {
    if toInt(x).Int? then toInt(y) == toInt(x) else x == y
  }

  /** Names and infos that can be read back, and no number twice among the children of a module. */
  ghost predicate Clean(t: Tree, toInt: Conversion)
  {
    && CleanInfo(t.info) && OneNumberEach(t.kids, toInt)
    && forall i :: 0 <= i < |t.kids| ==>
      TidyName(t.kids[i].name) && CleanLabel(t.kids[i].name) && Clean(t.kids[i].body, toInt)
  }

  ghost predicate OneNumberEach(kids: seq<Kid>, toInt: Conversion)
  {
    forall i, j :: 0 <= i < j < |kids| && toInt(kids[i].name).Int? ==> toInt(kids[i].name) != toInt(kids[j].name)
  }

  /** A module that shares no object and is clean. */
  ghost predicate Readable(m: Module, toInt: Conversion) { Unshared(m) && Clean(Shape(m), toInt) }

  lemma {:induction false} SameSymmetric(s: Tree, t: Tree, toInt: Conversion)
    requires SameTree(s, t, toInt)
    ensures SameTree(t, s, toInt)
    decreases s, 0
  {
    hide Found, Covered;
    forall i | 0 <= i < |s.kids| ensures Covered(t.kids, s.kids[i], toInt) { FoundTurns(s.kids[i], t.kids, toInt); }
    forall j | 0 <= j < |t.kids| ensures Found(t.kids[j], s.kids, toInt) { CoveredTurns(s.kids, t.kids[j], toInt); }
  }

  lemma {:induction false} FoundTurns(c: Kid, kids: seq<Kid>, toInt: Conversion)
    requires Found(c, kids, toInt)
    ensures Covered(kids, c, toInt)
    decreases c.body, 2
  {
    hide SameKid;
    var j :| 0 <= j < |kids| && SameKid(c, kids[j], toInt);
    KidSymmetric(c, kids[j], toInt);
  }

  lemma {:induction false} CoveredTurns(kids: seq<Kid>, d: Kid, toInt: Conversion)
    requires Covered(kids, d, toInt)
    ensures Found(d, kids, toInt)
    decreases kids, 2
  {
    hide SameKid;
    var i :| 0 <= i < |kids| && SameKid(kids[i], d, toInt);
    KidSymmetric(kids[i], d, toInt);
  }

  lemma {:induction false} KidSymmetric(c: Kid, d: Kid, toInt: Conversion)
    requires SameKid(c, d, toInt)
    ensures SameKid(d, c, toInt)
    decreases c.body, 1
  {
    hide SameTree;
    SameSymmetric(c.body, d.body, toInt);
  }

  // ---- readable modules ---------------------------------------------------

  lemma {:induction false} IdsOfChild(m: Module, i: nat, k: nat)
    requires i <= k < |m.children| && Distinct(ChildIds(m, i))
    ensures Distinct(Ids(m.children[k].body)) && m.children[k].body.id in ChildIds(m, i)
    ensures forall j :: i <= j < k ==> m.children[j].body.id != m.children[k].body.id
    decreases k - i
  {
    hide Distinct, Members;
    DistinctParts(Ids(m.children[i].body), ChildIds(m, i + 1));
    var here := Ids(m.children[i].body);
    assert here[0] == m.children[i].body.id && here[0] in here;
    if i < k {
      IdsOfChild(m, i + 1, k);
      MembersApart(here, ChildIds(m, i + 1));
    }
  }

  lemma MembersApart(a: seq<nat>, b: seq<nat>)
    requires Members(a) !! Members(b)
    ensures forall x, y :: x in a && y in b ==> x != y
  {
    forall x, y | x in a && y in b ensures x != y { assert x in Members(a) && y in Members(b); }
  }

  lemma {:induction false} AllFirst(cs: seq<Child>)
    requires forall i, j :: 0 <= i < j < |cs| ==> cs[i].body.id != cs[j].body.id
    ensures FirstOf(cs) == cs
  {
    if cs != [] {
      var n := |cs| - 1;
      AllFirst(cs[..n]);
      assert cs == cs[..n] + [cs[n]];
    }
  }

  lemma {:induction false} CleanListing(t: Tree, path: seq<string>, toInt: Conversion)
    requires Clean(t, toInt) && forall i :: 0 <= i < |path| ==> TidyName(path[i])
    ensures TidyList(Listing(t, path))
    decreases t, |t.kids| + 1
  {
    CleanKidListings(t, 0, path, toInt);
    TidySum([Entry(path, t.info)], KidListings(t, 0, path));
  }

  lemma {:induction false} CleanKidListings(t: Tree, i: nat, path: seq<string>, toInt: Conversion)
    requires Clean(t, toInt) && i <= |t.kids| && forall i :: 0 <= i < |path| ==> TidyName(path[i])
    ensures TidyList(KidListings(t, i, path))
    decreases t, |t.kids| - i
  {
    hide Listing, TidyName;
    if i < |t.kids| {
      CleanListing(t.kids[i].body, path + [t.kids[i].name], toInt);
      CleanKidListings(t, i + 1, path, toInt);
      TidySum(Listing(t.kids[i].body, path + [t.kids[i].name]), KidListings(t, i + 1, path));
    }
  }

  lemma TidySum(k: seq<Entry>, l: seq<Entry>)
    requires TidyList(k) && TidyList(l)
    ensures TidyList(k + l)
  {
    hide TidyEntry;
  }

  lemma ReadableIsTidy(m: Module, toInt: Conversion)
    requires Readable(m, toInt)
    ensures Tidy(m)
  {
    hide Unshared, Clean, TidyList, Listing, Prune, Shape;
    NothingPruned(m);
    CleanListing(Shape(m), [], toInt);
  }

  /** All that is needed of the children of a readable module. */
  lemma ReadableChildren(m: Module, toInt: Conversion)
    requires Readable(m, toInt)
    ensures ChildrenOf(m) == m.children && |Shape(m).kids| == |m.children|
    ensures forall k :: 0 <= k < |m.children| ==>
      var c := m.children[k];
      && Shape(m).kids[k] == Kid(c.name, Shape(c.body)) && TidyName(c.name) && CleanLabel(c.name) &&
        Readable(c.body, toInt)
    ensures Distinct(Indices(Numbers(m.children, toInt)))
  {
    hide Clean, Shape, TidyName, CleanLabel, Distinct, Indices;
    CleanParts(Shape(m), toInt);
    DistinctParts([m.id], ChildIds(m, 0));
    forall k: nat | k < |m.children|
      ensures |Shape(m).kids| == |m.children|
      ensures Shape(m).kids[k] == Kid(m.children[k].name, Shape(m.children[k].body))
      ensures Distinct(Ids(m.children[k].body))
      ensures forall j :: 0 <= j < k ==> m.children[j].body.id != m.children[k].body.id
    {
      KidAt(m, k);
      IdsOfChild(m, 0, k);
    }
    AllFirst(m.children);
    if m.children == [] { NoChildrenNoKids(m); }
    DistinctNumbers(m.children, toInt);
  }

  lemma NoChildrenNoKids(m: Module)
    requires m.children == []
    ensures Shape(m).kids == []
  {
  }

  lemma CleanParts(t: Tree, toInt: Conversion)
    requires Clean(t, toInt)
    ensures OneNumberEach(t.kids, toInt)
    ensures forall i :: 0 <= i < |t.kids| ==>
      TidyName(t.kids[i].name) && CleanLabel(t.kids[i].name) && Clean(t.kids[i].body, toInt)
  {
  }

  lemma {:induction false} DistinctNumbers(cs: seq<Child>, toInt: Conversion)
    requires forall i, j :: 0 <= i < j < |cs| && toInt(cs[i].name).Int? ==> toInt(cs[i].name) != toInt(cs[j].name)
    ensures Distinct(Indices(Numbers(cs, toInt)))
  {
    if cs != [] {
      var n := |cs| - 1;
      DistinctNumbers(cs[..n], toInt);
      NumbersAre(cs[..n], toInt);
      var before := Numbers(cs[..n], toInt);
      if toInt(cs[n].name).Int? {
        forall i | 0 <= i < |before| ensures before[i].idx != toInt(cs[n].name).value {
          assert Numbered(before[i].idx, before[i].body) in before;
        }
      }
    }
  }

  // ---- reading a picture --------------------------------------------------

  /** What a readable module's picture has at each place. */
  lemma PicturedKids(m: Module, v: View, lines: seq<Line>, toInt: Conversion)
    requires Readable(m, toInt) && PicturesWith(m, v, lines, toInt)
    ensures Describes(Numbers(m.children, toInt), lines) && |v.kids| == |lines| + |Others(m.children, toInt)|
    ensures forall i :: 0 <= i < |v.kids| ==> ShowsKid(lines, Others(m.children, toInt), i, v.kids[i], toInt)
  {
    hide Readable, Describes, InOrder, Numbers, Others, ShowsKid, FirstOf;
    ReadableChildren(m, toInt);
  }

  /** The line that names a numbered child shows that child's own tree. */
  lemma LineOf(m: Module, lines: seq<Line>, c: Child, toInt: Conversion) returns (g: nat)
    requires Readable(m, toInt) && Describes(Numbers(m.children, toInt), lines)
    requires c in m.children && toInt(c.name).Int?
    ensures g < |lines| && Names(lines[g], toInt(c.name).value) && Shape(lines[g].shown) == Shape(c.body)
    ensures Readable(lines[g].shown, toInt)
  {
    hide Readable, Describes, Names, Shape, Tidy, Seen, Numbers, FirstOf, Indices, Distinct, TidyName, CleanLabel;
    var numbered := Numbers(m.children, toInt);
    NumbersTidy(m, toInt);
    NumbersAre(m.children, toInt);
    var n := Numbered(toInt(c.name).value, c.body);
    assert n in numbered;
    ReadBackTree(numbered, lines, n);
    g :| 0 <= g < |lines| && Names(lines[g], n.idx);
    LineShows(m, lines, g, toInt);
    OwnTree(c.body, lines[g].shown, toInt);
  }

  lemma NumbersTidy(m: Module, toInt: Conversion)
    requires Readable(m, toInt)
    ensures ChildrenOf(m) == m.children && Distinct(Indices(Numbers(m.children, toInt)))
    ensures forall n :: n in Numbers(m.children, toInt) ==> Readable(n.body, toInt) && Tidy(n.body)
    ensures forall c :: c in m.children ==>
      Readable(c.body, toInt) && Tidy(c.body) && TidyName(c.name) && CleanLabel(c.name)
  {
    hide Readable, Tidy, Numbers, FirstOf, Indices, Distinct, Shape, TidyName, CleanLabel;
    ReadableChildren(m, toInt);
    NumbersAre(m.children, toInt);
    forall c | c in m.children
      ensures Readable(c.body, toInt) && Tidy(c.body) && TidyName(c.name) && CleanLabel(c.name)
    {
      var k :| 0 <= k < |m.children| && m.children[k] == c;
      ReadableIsTidy(c.body, toInt);
    }
    forall n | n in Numbers(m.children, toInt) ensures Readable(n.body, toInt) && Tidy(n.body) {
      assert Numbered(n.idx, n.body) in Numbers(m.children, toInt);
      var c :| c in m.children && toInt(c.name) == Int(n.idx) && c.body == n.body;
    }
  }

  lemma LineShows(m: Module, lines: seq<Line>, g: nat, toInt: Conversion)
    requires Readable(m, toInt) && Describes(Numbers(m.children, toInt), lines) && g < |lines|
    ensures Readable(lines[g].shown, toInt)
  {
    hide Readable, Describes, Numbers, FirstOf, Indices, Distinct, Shape, Tidy, TidyName, CleanLabel;
    NumbersTidy(m, toInt);
    var k := ShownIsChild(m, toInt, lines, g);
    assert m.children[k] in m.children;
  }

  lemma OwnTree(a: Module, b: Module, toInt: Conversion)
    requires Readable(a, toInt) && Readable(b, toInt)
    ensures Seen(a) == Seen(b) <==> Shape(a) == Shape(b)
  {
    hide Clean, Unshared, Seen, Shape;
    NothingPruned(a);
    NothingPruned(b);
  }

  /** A child that has the index which the line names, and the tree of the module it shows. */
  lemma ChildOf(m: Module, lines: seq<Line>, g: nat, idx: int, toInt: Conversion) returns (k: nat)
    requires Readable(m, toInt) && Describes(Numbers(m.children, toInt), lines) && g < |lines| && Names(lines[g], idx)
    ensures k < |m.children| && toInt(m.children[k].name) == Int(idx)
    ensures Shape(m.children[k].body) == Shape(lines[g].shown)
  {
    hide Readable, Describes, Names, Shape, Tidy, Numbers, FirstOf, Indices, Distinct, TidyName, CleanLabel,
        Signature, Seen;
    var numbered := Numbers(m.children, toInt);
    NumbersTidy(m, toInt);
    ReadBack(numbered, lines, g, idx);
    var n :| n in numbered && n.idx == idx && Key(n) == lines[g].Key();
    NumbersAre(m.children, toInt);
    assert Numbered(n.idx, n.body) in numbered;
    var c :| c in m.children && toInt(c.name) == Int(idx) && c.body == n.body;
    k :| 0 <= k < |m.children| && m.children[k] == c;
    LineShows(m, lines, g, toInt);
    ReadableIsTidy(lines[g].shown, toInt);
    SignatureIff(n.body, lines[g].shown);
    OwnTree(n.body, lines[g].shown, toInt);
  }

  /** A printed name is not the label of a line: single labels are numbers, and others have a count. */
  lemma LineOrName(line: Line, name: string, toInt: Conversion)
    requires ReadsInts(toInt) && line.Bare() && line.count > 0 && name != "" && !toInt(name).Int?
    ensures LineHead(line) != NameHead(name)
  {
    hide ShowInt;
  }

  /** Where two pictures agree, their lines stand in the same places with the same labels. */
  lemma SamePlace(a: Module, b: Module, v: View, la: seq<Line>, lb: seq<Line>, i: nat, toInt: Conversion)
    requires ReadsInts(toInt) && Readable(a, toInt) && Readable(b, toInt)
    requires PicturesWith(a, v, la, toInt) && PicturesWith(b, v, lb, toInt) && i < |v.kids|
    ensures i < |la| <==> i < |lb|
    ensures i < |la| ==> la[i].text == lb[i].text
  {
    hide Readable, Describes, Numbers, Others, FirstOf, Pictures, PicturesWith, LineHead, NameHead, Line.Bare;
    PicturedKids(a, v, la, toInt);
    PicturedKids(b, v, lb, toInt);
    HeadIs(la, Others(a.children, toInt), i, v.kids[i], toInt);
    HeadIs(lb, Others(b.children, toInt), i, v.kids[i], toInt);
    if i < |la| && i >= |lb| { NotBoth(b, a, la, lb, i, toInt); }
    if i < |lb| && i >= |la| { NotBoth(a, b, lb, la, i, toInt); }
    if i < |la| && i < |lb| { SameLabel(la[i], lb[i]); }
  }

  lemma HeadIs(lines: seq<Line>, named: seq<Child>, i: nat, kid: View, toInt: Conversion)
    requires i < |lines| + |named| && ShowsKid(lines, named, i, kid, toInt)
    ensures kid.head == if i < |lines| then LineHead(lines[i]) else NameHead(named[i - |lines|].name)
    ensures i < |lines| ==> Pictures(lines[i].shown, kid, true, toInt)
    ensures i >= |lines| ==> Pictures(named[i - |lines|].body, kid, false, toInt)
  {
    hide LineHead, NameHead, Pictures;
  }

  lemma SameLabel(k: Line, l: Line)
    requires LineHead(k) == LineHead(l)
    ensures k.text == l.text
  {
  }

  lemma NotBoth(named: Module, numbered: Module, l: seq<Line>, k: seq<Line>, i: nat, toInt: Conversion)
    requires ReadsInts(toInt) && Readable(named, toInt) && Describes(Numbers(numbered.children, toInt), l)
    requires i < |l| && |k| <= i < |k| + |Others(named.children, toInt)|
    ensures LineHead(l[i]) != NameHead(Others(named.children, toInt)[i - |k|].name)
  {
    hide Readable, Describes, Numbers, Others, FirstOf, Indices, Distinct, LineHead, NameHead, CleanLabel, Free,
        Shape, Tidy, Line.Bare;
    LineIsBody(Numbers(numbered.children, toInt), l, i);
    NumbersTidy(named, toInt);
    NumbersAre(named.children, toInt);
    var c := Others(named.children, toInt)[i - |k|];
    assert c in Others(named.children, toInt);
    LineOrName(l[i], c.name, toInt);
  }

  // ---- the main result ----------------------------------------------------

  /** Readable modules with the same picture are the same tree but for the order of children. */
  lemma {:induction false} PictureDetermines(a: Module, b: Module, v: View, s: bool, t: bool, toInt: Conversion)
    requires ReadsInts(toInt) && Readable(a, toInt) && Readable(b, toInt)
    requires Pictures(a, v, s, toInt) && Pictures(b, v, t, toInt)
    ensures SameTree(Shape(a), Shape(b), toInt)
    decreases v, 2
  {
    hide PicturesWith, SameKid, Found, Covered, Shape, Readable, FirstOf, ReadsInts, LStrip;
    InfoIs(a, v, s, toInt);
    InfoIs(b, v, t, toInt);
    var la: seq<Line> :| PicturesWith(a, v, la, toInt);
    var lb: seq<Line> :| PicturesWith(b, v, lb, toInt);
    var ka, kb := Shape(a).kids, Shape(b).kids;
    AllFound(a, b, v, la, lb, toInt);
    AllFound(b, a, v, lb, la, toInt);
    forall j | 0 <= j < |kb| ensures Covered(ka, kb[j], toInt) { FoundTurns(kb[j], ka, toInt); }
  }

  lemma {:induction false} AllFound(a: Module, b: Module, v: View, la: seq<Line>, lb: seq<Line>, toInt: Conversion)
    requires ReadsInts(toInt) && Readable(a, toInt) && Readable(b, toInt)
    requires PicturesWith(a, v, la, toInt) && PicturesWith(b, v, lb, toInt)
    ensures var ka, kb := Shape(a).kids, Shape(b).kids; forall i :: 0 <= i < |ka| ==> Found(ka[i], kb, toInt)
    decreases v, 1, 1
  {
    hide *;
    ReadableChildren(a, toInt);
    ReadableChildren(b, toInt);
    var ka, kb := Shape(a).kids, Shape(b).kids;
    forall i | 0 <= i < |ka| ensures Found(ka[i], kb, toInt) {
      var j := KidFound(a, b, v, la, lb, i, toInt);
      LikeAt(ka[i], kb, j, toInt);
    }
  }

  lemma LikeAt(c: Kid, kids: seq<Kid>, j: nat, toInt: Conversion)
    requires j < |kids| && SameKid(c, kids[j], toInt)
    ensures Found(c, kids, toInt)
  {
    hide SameKid;
  }

  lemma InfoIs(m: Module, v: View, stripped: bool, toInt: Conversion)
    requires Readable(m, toInt) && Pictures(m, v, stripped, toInt)
    ensures v.info == m.info == Shape(m).info
  {
  }

  /** Every child of one has its like among the children of the other. */
  lemma {:induction false} KidFound(a: Module, b: Module, v: View, la: seq<Line>, lb: seq<Line>, i: nat,
                                    toInt: Conversion)
      returns (j: nat)
    requires ReadsInts(toInt) && Readable(a, toInt) && Readable(b, toInt)
    requires PicturesWith(a, v, la, toInt) && PicturesWith(b, v, lb, toInt)
    requires i < |a.children| == |Shape(a).kids| && |Shape(b).kids| == |b.children|
    ensures j < |b.children| && SameKid(Shape(a).kids[i], Shape(b).kids[j], toInt)
    decreases v, 1, 0
  {
    hide *;
    var c := a.children[i];
    if toInt(c.name).Int? {
      j := NumberFound(a, b, v, la, lb, c, toInt);
    } else {
      j := NameFound(a, b, v, la, lb, c, toInt);
    }
    ReadableChildren(a, toInt);
    ReadableChildren(b, toInt);
    SameKidIs(c.name, b.children[j].name, Shape(c.body), Shape(b.children[j].body), toInt);
  }

  lemma SameKidIs(x: string, y: string, s: Tree, t: Tree, toInt: Conversion)
    requires SameName(x, y, toInt) && SameTree(s, t, toInt)
    ensures SameKid(Kid(x, s), Kid(y, t), toInt)
  {
    hide SameName, SameTree;
  }

  lemma SameNameIs(x: string, y: string, toInt: Conversion)
    requires if toInt(x).Int? then toInt(y) == toInt(x) else x == y
    ensures SameName(x, y, toInt)
  {
  }

  lemma {:induction false} NumberFound(a: Module, b: Module, v: View, la: seq<Line>, lb: seq<Line>, c: Child,
                                       toInt: Conversion)
      returns (j: nat)
    requires ReadsInts(toInt) && Readable(a, toInt) && Readable(b, toInt)
    requires PicturesWith(a, v, la, toInt) && PicturesWith(b, v, lb, toInt)
    requires c in a.children && toInt(c.name).Int?
    ensures j < |b.children| && SameName(c.name, b.children[j].name, toInt)
    ensures SameTree(Shape(c.body), Shape(b.children[j].body), toInt)
    decreases v, 0
  {
    hide *;
    PicturedKids(a, v, la, toInt);
    PicturedKids(b, v, lb, toInt);
    var idx := toInt(c.name).value;
    var g := LineOf(a, la, c, toInt);
    SamePlace(a, b, v, la, lb, g, toInt);
    SameNames(la[g], lb[g], idx);
    j := ChildOf(b, lb, g, idx, toInt);
    SameNameIs(c.name, b.children[j].name, toInt);
    LineShows(b, lb, g, toInt);
    HeadIs(la, Others(a.children, toInt), g, v.kids[g], toInt);
    HeadIs(lb, Others(b.children, toInt), g, v.kids[g], toInt);
    PictureDetermines(la[g].shown, lb[g].shown, v.kids[g], true, true, toInt);
  }

  lemma SameNames(k: Line, l: Line, idx: int)
    requires k.text == l.text && Names(k, idx)
    ensures Names(l, idx)
  {
    hide Parse, Expand;
  }

  lemma {:induction false} NameFound(a: Module, b: Module, v: View, la: seq<Line>, lb: seq<Line>, c: Child,
                                     toInt: Conversion)
      returns (j: nat)
    requires ReadsInts(toInt) && Readable(a, toInt) && Readable(b, toInt)
    requires PicturesWith(a, v, la, toInt) && PicturesWith(b, v, lb, toInt)
    requires c in a.children && !toInt(c.name).Int?
    ensures j < |b.children| && SameName(c.name, b.children[j].name, toInt)
    ensures SameTree(Shape(c.body), Shape(b.children[j].body), toInt)
    decreases v, 0
  {
    hide *;
    PicturedKids(a, v, la, toInt);
    PicturedKids(b, v, lb, toInt);
    NumbersTidy(a, toInt);
    NumbersTidy(b, toInt);
    NumbersAre(a.children, toInt);
    NumbersAre(b.children, toInt);
    var na, nb := Others(a.children, toInt), Others(b.children, toInt);
    var q: nat :| q < |na| && na[q] == c;
    var p := |la| + q;
    SamePlace(a, b, v, la, lb, p, toInt);
    HeadIs(la, na, p, v.kids[p], toInt);
    HeadIs(lb, nb, p, v.kids[p], toInt);
    var d := nb[p - |lb|];
    assert d in nb;
    SameHead(c.name, d.name);
    SameNameIs(c.name, d.name, toInt);
    j :| 0 <= j < |b.children| && b.children[j] == d;
    PictureDetermines(c.body, d.body, v.kids[p], false, false, toInt);
  }

  lemma SameHead(x: string, y: string)
    requires NameHead(x) == NameHead(y)
    ensures x == y
  {
  }

  // ---- the text of a readable module is clean -----------------------------

  lemma {:induction false} PlainLabel(s: string)
    requires Parse(s).Ranges?
    ensures CleanLabel(s)
    decreases |s|
  {
    hide ParseRange;
    match ParseRange(s) case Parsed(r, rest) =>
      PlainRange(s);
      if rest != [] {
        PlainLabel(rest[2..]);
        PlainSum(rest[..2], rest[2..]);
        assert rest == rest[..2] + rest[2..];
      }
      PlainSum(s[..|s| - |rest|], rest);
      assert s == s[..|s| - |rest|] + rest;
  }

  lemma PlainSum(s: string, t: string)
    requires CleanLabel(s) && CleanLabel(t)
    ensures CleanLabel(s + t)
  {
  }

  lemma PlainNat(s: string)
    ensures ParseNat(s).Number? ==> var rest := ParseNat(s).rest;
      |rest| <= |s| && s[|s| - |rest|..] == rest && CleanLabel(s[..|s| - |rest|])
  {
    hide Read;
  }

  lemma PlainDigits(s: string)
    ensures ParseInt(s).Number? ==> var rest := ParseInt(s).rest;
      |rest| <= |s| && s[|s| - |rest|..] == rest && CleanLabel(s[..|s| - |rest|])
  {
    hide ParseNat;
    PlainNat(s);
    if s != [] && s[0] == '-' && ParseInt(s).Number? {
      var tail, rest := s[1..], ParseInt(s).rest;
      PlainNat(tail);
      var digits := tail[..|tail| - |rest|];
      assert s[..|s| - |rest|] == ['-'] + digits;
      PlainSum(['-'], digits);
    }
  }

  lemma PlainRange(s: string)
    requires ParseRange(s).Parsed?
    ensures var rest := ParseRange(s).rest; |rest| <= |s| && s[|s| - |rest|..] == rest && CleanLabel(s[..|s| - |rest|])
  {
    hide ParseInt;
    PlainDigits(s);
    var first := ParseInt(s).rest;
    if first != [] && first[0] == '-' {
      PlainDigits(first[1..]);
      var rest := ParseInt(first[1..]).rest;
      var a, b := s[..|s| - |first|], first[1..][..|first| - 1 - |rest|];
      assert s[..|s| - |rest|] == a + (['-'] + b);
      PlainSum(['-'], b);
      PlainSum(a, ['-'] + b);
    }
  }

  /** So is all that a readable module prints. */
  lemma {:induction false} PictureIsClean(m: Module, v: View, stripped: bool, toInt: Conversion)
    requires Readable(m, toInt) && Pictures(m, v, stripped, toInt) && CleanHead(v.head)
    ensures CleanView(v)
    decreases v
  {
    hide Readable, PicturesWith, FirstOf, LStrip, Clean, CleanInfo, CleanHead, Shape, CleanViews;
    InfoIs(m, v, stripped, toInt);
    InfoIsClean(m, toInt);
    var lines: seq<Line> :| PicturesWith(m, v, lines, toInt);
    forall i: nat | i < |v.kids| ensures CleanView(v.kids[i]) {
      hide *;
      PicturedKids(m, v, lines, toInt);
      HeadIs(lines, Others(m.children, toInt), i, v.kids[i], toInt);
      if i < |lines| {
        LineIsBody(Numbers(m.children, toInt), lines, i);
        PlainLabel(lines[i].text);
        LineHeadClean(lines[i]);
        LineShows(m, lines, i, toInt);
        PictureIsClean(lines[i].shown, v.kids[i], true, toInt);
      } else {
        NumbersTidy(m, toInt);
        NumbersAre(m.children, toInt);
        var c := Others(m.children, toInt)[i - |lines|];
        assert c in Others(m.children, toInt);
        NameHeadClean(c.name);
        PictureIsClean(c.body, v.kids[i], false, toInt);
      }
    }
    AllClean(v.kids);
    if !v.open { ClosedIsLeaf(m, v, lines, toInt); }
  }

  lemma InfoIsClean(m: Module, toInt: Conversion)
    requires Readable(m, toInt)
    ensures CleanInfo(m.info)
  {
  }

  lemma LineHeadClean(line: Line)
    requires CleanLabel(line.text)
    ensures CleanHead(LineHead(line))
  {
  }

  lemma NameHeadClean(name: string)
    requires CleanLabel(name)
    ensures CleanHead(NameHead(name))
  {
  }

  lemma {:induction false} AllClean(vs: seq<View>)
    requires forall i :: 0 <= i < |vs| ==> CleanView(vs[i])
    ensures CleanViews(vs)
  {
    hide CleanView;
    if vs != [] { AllClean(vs[1..]); }
  }

  lemma ClosedIsLeaf(m: Module, v: View, lines: seq<Line>, toInt: Conversion)
    requires PicturesWith(m, v, lines, toInt) && ChildrenOf(m) == []
    ensures v.kids == []
  {
    assert Numbers([], toInt) == [] && Others([], toInt) == [];
    LinesNeedChildren([], lines);
  }

  lemma LinesNeedChildren(numbered: seq<Numbered>, lines: seq<Line>)
    requires Describes(numbered, lines)
    ensures numbered == [] ==> lines == []
  {
    hide Describes;
    if lines != [] {
      LineIsBody(numbered, lines, 0);
      assert exists c :: c in numbered;
    }
  }

  /** The printed text of a readable model determines the model up to the order of children. */
  lemma TextDeterminesModel(a: Module, b: Module, text: string, toInt: Conversion)
    requires ReadsInts(toInt) && Readable(a, toInt) && Readable(b, toInt)
    requires PrintedAs(a, text, toInt) && PrintedAs(b, text, toInt)
    ensures SameTree(Shape(a), Shape(b), toInt)
  {
    hide Readable, Pictures, Text, CleanView, SameTree;
    var v: View :| v.head == Top && Pictures(a, v, false, toInt) && text == Text(v);
    var w: View :| w.head == Top && Pictures(b, w, false, toInt) && text == Text(w);
    PictureIsClean(a, v, false, toInt);
    PictureIsClean(b, w, false, toInt);
    TextDeterminesView(v, w);
    PictureDetermines(a, b, v, false, false, toInt);
  }
}
