/** What _format_module_tree prints, as a tree of lines, and that the lines determine it. */
module ModuleView {
  import opened Strings
  import opened IndexRanges

  /** What stands before the info of a module: nothing at the top, the name of a child or the index
      of a single numbered one, or the label of a group and how many it holds. */
  datatype Head = Top | Name(tag: string) | Group(tag: string, count: nat)

  /** A printed module. It is open if it has children, and then a closing line follows them. */
  datatype View = View(head: Head, info: string, open: bool, kids: seq<View>)

  /** "  " * indent. */
  function Pad(k: nat): string { if k == 0 then "" else "  " + Pad(k - 1) }

  function HeadText(h: Head): string
  {
    match h
    case Top => ""
    case Name(tag) => "(" + tag + "): "
    case Group(tag, count) => "(" + tag + "): " + Show(count) + " x "
  }

  function Bracket(open: bool): string { if open then "(" else "" }

  function FirstLine(v: View): string { HeadText(v.head) + v.info + Bracket(v.open) }

  function Render(v: View, k: nat): (lines: seq<string>)
    ensures lines != [] && lines[0] == Pad(k) + FirstLine(v)
    decreases v
  {
    [Pad(k) + FirstLine(v)] + if v.open then RenderAll(v.kids, k + 1) + [Pad(k) + ")"] else []
  }

  function RenderAll(vs: seq<View>, k: nat): seq<string>
    decreases vs
  {
    if vs == [] then [] else Render(vs[0], k) + RenderAll(vs[1..], k)
  }

  lemma {:induction false} RenderSnoc(vs: seq<View>, v: View, k: nat)
    ensures RenderAll(vs + [v], k) == RenderAll(vs, k) + Render(v, k)
  {
    hide Render;
    if vs == [] {
      assert [v][1..] == [];
      assert RenderAll([v], k) == Render(v, k) + RenderAll([], k);
    } else {
      assert (vs + [v])[1..] == vs[1..] + [v] && (vs + [v])[0] == vs[0];
      RenderSnoc(vs[1..], v, k);
    }
  }

  // ---- blanks -------------------------------------------------------------

  predicate Blank(c: char) { c == ' ' || '\t' <= c <= '\r' }

  /** str.lstrip. */
  function LStrip(s: string): string { if s != [] && Blank(s[0]) then LStrip(s[1..]) else s }

  /** Blanks are taken off the front, all of them and nothing else. */
  lemma {:induction false} LStripIs(s: string)
    ensures var r := LStrip(s); var n := |s| - |r|;
      && 0 <= n && s[n..] == r && (forall i :: 0 <= i < n ==> s[i] in {' ', '\t', '\n', '\r', '\U{0B}', '\U{0C}'})
      && (r == [] || r[0] !in {' ', '\t', '\n', '\r', '\U{0B}', '\U{0C}'})
  {
    assert forall c: char :: Blank(c) <==> c in {' ', '\t', '\n', '\r', '\U{0B}', '\U{0C}'};
    hide Blank;
    if s != [] && Blank(s[0]) { LStripIs(s[1..]); }
  }

  lemma {:induction false} PadStrips(k: nat, s: string)
    ensures LStrip(Pad(k) + s) == LStrip(s)
  {
    if k > 0 {
      var t := Pad(k) + s;
      assert t[1..] == " " + (Pad(k - 1) + s) && t[1..][1..] == Pad(k - 1) + s;
      PadStrips(k - 1, s);
    } else {
      assert Pad(k) + s == s;
    }
  }

  lemma {:induction false} StripBracket(info: string, open: bool)
    ensures LStrip(info + Bracket(open)) == LStrip(info) + Bracket(open)
  {
    if info != [] {
      assert (info + Bracket(open))[1..] == info[1..] + Bracket(open);
      if Blank(info[0]) { StripBracket(info[1..], open); }
    } else {
      assert info + Bracket(open) == Bracket(open);
    }
  }

  /** The first line of a child printed without a name is put behind a new head. */
  lemma Relabelled(v: View, k: nat, h: Head)
    requires v.head == Top
    ensures Render(v, k)[0 := Pad(k) + (HeadText(h) + LStrip(Render(v, k)[0]))]
         == Render(v.(head := h, info := LStrip(v.info)), k)
  {
    hide LStrip, Pad, RenderAll, HeadText, Bracket;
    var w := v.(head := h, info := LStrip(v.info));
    PadStrips(k, FirstLine(v));
    TopLine(v);
    StripBracket(v.info, v.open);
    assert FirstLine(w) == HeadText(h) + (LStrip(v.info) + Bracket(v.open));
  }

  lemma TopLine(v: View)
    requires v.head == Top
    ensures FirstLine(v) == v.info + Bracket(v.open)
  {
  }

  // ---- reading the lines back ---------------------------------------------

  /** Infos that begin and end like a class name or its arguments, on one line. */
  ghost predicate CleanInfo(s: string)
  {
    s != "" && s[0] != '(' && !IsDigit(s[0]) && !Blank(s[0]) && s[|s| - 1] != '(' && Free(s, '\n')
  }

  ghost predicate CleanLabel(s: string) { Free(s, ')') && Free(s, '\n') }

  ghost predicate CleanHead(h: Head) { h.Top? || CleanLabel(h.tag) }

  ghost predicate CleanView(v: View)
    decreases v
  {
    CleanInfo(v.info) && CleanHead(v.head) && (!v.open ==> v.kids == []) && CleanViews(v.kids)
  }

  ghost predicate CleanViews(vs: seq<View>)
    decreases vs
  {
    vs == [] || (CleanView(vs[0]) && CleanViews(vs[1..]))
  }

  lemma {:induction false} PadLength(k: nat)
    ensures |Pad(k)| == 2 * k && forall i :: 0 <= i < |Pad(k)| ==> Pad(k)[i] == ' '
  {
    if k > 0 { PadLength(k - 1); }
  }

  lemma SameAfter<T>(p: seq<T>, s: seq<T>, t: seq<T>)
    requires p + s == p + t
    ensures s == t
  {
    assert (p + s)[|p|..] == s && (p + t)[|p|..] == t;
  }

  /** Text up to a bracket at the end, if there is one. */
  lemma BracketDetermines(s: string, t: string, o: bool, p: bool)
    requires s != "" && t != "" && s[|s| - 1] != '(' && t[|t| - 1] != '('
    requires s + Bracket(o) == t + Bracket(p)
    ensures s == t && o == p
  {
    var u, w := s + Bracket(o), t + Bracket(p);
    assert u[|u| - 1] == if o then '(' else s[|s| - 1];
    assert w[|w| - 1] == if p then '(' else t[|t| - 1];
    assert u[..|s|] == s && w[..|t|] == t;
  }

  /** A count and what follows it. */
  function Counted(h: Head, info: string): string { if h.Group? then Show(h.count) + (" x " + info) else info }

  lemma CountDetermines(g: Head, h: Head, i: string, j: string)
    requires !g.Top? && !h.Top? && g.tag == h.tag && CleanInfo(i) && CleanInfo(j)
    requires Counted(g, i) == Counted(h, j)
    ensures g == h && i == j
  {
    hide Show;
    if g.Group? { StartsWithDigit(g.count, " x " + i); }
    if h.Group? { StartsWithDigit(h.count, " x " + j); }
    if g.Group? && h.Group? {
      ParseShowNat(g.count, " x " + i);
      ParseShowNat(h.count, " x " + j);
      SameAfter(" x ", i, j);
    }
  }

  lemma StartsWithDigit(n: nat, s: string)
    ensures Show(n) + s != "" && IsDigit((Show(n) + s)[0])
  {
    hide Show;
    assert (Show(n) + s)[0] == Show(n)[0];
  }

  lemma LabelFirst(h: Head, info: string)
    requires !h.Top?
    ensures HeadText(h) + info == "(" + (h.tag + [')'] + (": " + Counted(h, info)))
  {
    hide Show;
  }

  /** A head and a clean info are told apart in one way only. */
  lemma HeadDetermines(g: Head, h: Head, i: string, j: string)
    requires CleanHead(g) && CleanHead(h) && CleanInfo(i) && CleanInfo(j) && HeadText(g) + i == HeadText(h) + j
    ensures g == h && i == j
  {
    hide HeadText, Counted;
    if g.Top? { TopIsNothing(i); } else { LabelFirst(g, i); }
    if h.Top? { TopIsNothing(j); } else { LabelFirst(h, j); }
    if !g.Top? && !h.Top? {
      var s, t := ": " + Counted(g, i), ": " + Counted(h, j);
      SameAfter("(", g.tag + [')'] + s, h.tag + [')'] + t);
      SplitOnce(g.tag, h.tag, s, t, ')');
      SameAfter(": ", Counted(g, i), Counted(h, j));
      CountDetermines(g, h, i, j);
    }
  }

  lemma TopIsNothing(i: string)
    ensures HeadText(Top) + i == i
  {
  }

  lemma FirstDetermines(a: View, b: View)
    requires CleanInfo(a.info) && CleanHead(a.head) && CleanInfo(b.info) && CleanHead(b.head)
    requires FirstLine(a) == FirstLine(b)
    ensures a.head == b.head && a.info == b.info && a.open == b.open
  {
    hide HeadText, Bracket;
    var s, t := HeadText(a.head) + a.info, HeadText(b.head) + b.info;
    BracketDetermines(s, t, a.open, b.open);
    HeadDetermines(a.head, b.head, a.info, b.info);
  }

  lemma RenderOpen(v: View, k: nat, rest: seq<string>)
    ensures (Render(v, k) + rest)[0] == Pad(k) + FirstLine(v)
    ensures (Render(v, k) + rest)[1..] == if v.open then RenderAll(v.kids, k + 1) + ([Pad(k) + ")"] + rest) else rest
  {
    hide RenderAll, FirstLine;
  }

  /** The lines of a printed module, whatever follows them, determine it and where they end. */
  lemma {:induction false} RenderDetermines(a: View, b: View, k: nat, restA: seq<string>, restB: seq<string>)
    requires CleanView(a) && CleanView(b) && Render(a, k) + restA == Render(b, k) + restB
    ensures a == b && restA == restB
    decreases a
  {
    hide Render, FirstLine, RenderAll, CleanInfo, CleanHead, CleanViews;
    RenderOpen(a, k, restA);
    RenderOpen(b, k, restB);
    SameAfter(Pad(k), FirstLine(a), FirstLine(b));
    FirstDetermines(a, b);
    if a.open { KidsDetermined(a.kids, b.kids, k, restA, restB); }
  }

  lemma NextKid(vs: seq<View>, k: nat, close: seq<string>)
    requires vs != []
    ensures RenderAll(vs, k + 1) + close == Render(vs[0], k + 1) + (RenderAll(vs[1..], k + 1) + close)
    ensures var l := (RenderAll(vs, k + 1) + close)[0]; |l| > 2 * k && l[2 * k] == ' '
  {
    hide Render, FirstLine;
    PadLength(k + 1);
    var l := (RenderAll(vs, k + 1) + close)[0];
    assert l == Pad(k + 1) + FirstLine(vs[0]);
    assert l[2 * k] == Pad(k + 1)[2 * k];
  }

  lemma NoKid(k: nat, rest: seq<string>)
    ensures RenderAll([], k + 1) + ([Pad(k) + ")"] + rest) == [Pad(k) + ")"] + rest
    ensures var l := Pad(k) + ")"; |l| > 2 * k && l[2 * k] == ')'
  {
    PadLength(k);
  }

  /** A closing line stands further left than the children before it. */
  lemma {:induction false} KidsDetermined(va: seq<View>, vb: seq<View>, k: nat, restA: seq<string>, restB: seq<string>)
    requires CleanViews(va) && CleanViews(vb)
    requires RenderAll(va, k + 1) + ([Pad(k) + ")"] + restA) == RenderAll(vb, k + 1) + ([Pad(k) + ")"] + restB)
    ensures va == vb && restA == restB
    decreases va
  {
    hide Render, RenderAll, CleanView, Pad;
    var closeA, closeB := [Pad(k) + ")"] + restA, [Pad(k) + ")"] + restB;
    if va != [] { NextKid(va, k, closeA); } else { NoKid(k, restA); }
    if vb != [] { NextKid(vb, k, closeB); } else { NoKid(k, restB); }
    if va != [] && vb != [] {
      RenderDetermines(va[0], vb[0], k + 1, RenderAll(va[1..], k + 1) + closeA, RenderAll(vb[1..], k + 1) + closeB);
      KidsDetermined(va[1..], vb[1..], k, restA, restB);
      assert va == [va[0]] + va[1..] && vb == [vb[0]] + vb[1..];
    } else if va == [] && vb == [] {
      SameAfter([Pad(k) + ")"], restA, restB);
    }
  }

  // ---- the joined text ----------------------------------------------------

  ghost predicate Whole(lines: seq<string>)
  {
    forall i :: 0 <= i < |lines| ==> lines[i] != "" && Free(lines[i], '\n')
  }

  lemma WholeSum(s: seq<string>, t: seq<string>)
    requires Whole(s) && Whole(t)
    ensures Whole(s + t)
  {
  }

  lemma ShowIsDigits(n: nat)
    ensures Free(Show(n), '\n')
  {
  }

  lemma FirstIsWhole(v: View, k: nat)
    requires CleanInfo(v.info) && CleanHead(v.head)
    ensures Whole([Pad(k) + FirstLine(v)]) && Whole([Pad(k) + ")"])
  {
    hide Show;
    PadLength(k);
    if v.head.Group? { ShowIsDigits(v.head.count); }
  }

  lemma {:induction false} LinesAreWhole(v: View, k: nat)
    requires CleanView(v)
    ensures Whole(Render(v, k))
    decreases v
  {
    hide CleanInfo, CleanHead, FirstLine, Whole, RenderAll, CleanViews;
    FirstIsWhole(v, k);
    if v.open {
      AllAreWhole(v.kids, k + 1);
      WholeSum(RenderAll(v.kids, k + 1), [Pad(k) + ")"]);
      WholeSum([Pad(k) + FirstLine(v)], RenderAll(v.kids, k + 1) + [Pad(k) + ")"]);
    } else {
      assert [Pad(k) + FirstLine(v)] + [] == [Pad(k) + FirstLine(v)];
    }
  }

  lemma {:induction false} AllAreWhole(vs: seq<View>, k: nat)
    requires CleanViews(vs)
    ensures Whole(RenderAll(vs, k))
    decreases vs
  {
    hide CleanView, Render;
    if vs != [] {
      LinesAreWhole(vs[0], k);
      AllAreWhole(vs[1..], k);
      WholeSum(Render(vs[0], k), RenderAll(vs[1..], k));
    }
  }

  /** The text of a whole printed module, its lines joined. */
  function Text(v: View): string { Join(Render(v, 0), "\n") }

  /** How it looks. */
  lemma Looks()
    ensures var layers := View(Group("0-27, 29-47", 47), "Layer()", false, []);
      var last := View(Name("48"), "Head", true, [View(Name("norm"), "Norm()", false, [])]);
      Render(View(Name("layers"), "List", true, [layers, last]), 1)
      == ["  " + "(layers): List(",
          "    " + "(0-27, 29-47): 47 x Layer()",
          "    " + "(48): Head(",
          "      " + "(norm): Norm()",
          "    " + ")",
          "  " + ")"]
  {
    var layers := View(Group("0-27, 29-47", 47), "Layer()", false, []);
    var norm := View(Name("norm"), "Norm()", false, []);
    var last := View(Name("48"), "Head", true, [norm]);
    var list := View(Name("layers"), "List", true, [layers, last]);
    Pads();
    FirstLines(layers, norm, last, list);
    hide *;
    OneLine(layers, 2);
    OneLine(norm, 3);
    Opened(last, 2);
    OneKid(norm, 3);
    Opened(list, 1);
    TwoKids(layers, last, 2);
  }

  lemma Pads()
    ensures Pad(1) == "  " && Pad(2) == "    " && Pad(3) == "      "
  {
    assert Pad(0) == "";
  }

  lemma FirstLines(layers: View, norm: View, last: View, list: View)
    requires layers == View(Group("0-27, 29-47", 47), "Layer()", false, [])
    requires norm.head == Name("norm") && norm.info == "Norm()" && !norm.open
    requires last.head == Name("48") && last.info == "Head" && last.open
    requires list.head == Name("layers") && list.info == "List" && list.open
    ensures FirstLine(layers) == "(0-27, 29-47): 47 x Layer()" && FirstLine(norm) == "(norm): Norm()"
    ensures FirstLine(last) == "(48): Head(" && FirstLine(list) == "(layers): List("
  {
    assert Show(4) == "4" && Show(47) == "47";
    hide Show;
    assert HeadText(layers.head) == "(0-27, 29-47): " + "47" + " x ";
  }

  lemma OneLine(v: View, k: nat)
    requires !v.open
    ensures Render(v, k) == [Pad(k) + FirstLine(v)]
  {
    hide Pad, FirstLine;
  }

  lemma Opened(v: View, k: nat)
    requires v.open
    ensures Render(v, k) == [Pad(k) + FirstLine(v)] + RenderAll(v.kids, k + 1) + [Pad(k) + ")"]
  {
    hide Pad, FirstLine, RenderAll;
  }

  lemma TwoKids(v: View, w: View, k: nat)
    ensures RenderAll([v, w], k) == Render(v, k) + Render(w, k)
  {
    hide Render;
    OneKid(w, k);
    assert [v, w][1..] == [w];
    assert RenderAll([v, w], k) == Render(v, k) + RenderAll([w], k);
  }

  lemma OneKid(v: View, k: nat)
    ensures RenderAll([v], k) == Render(v, k)
  {
    hide Render;
    RenderSnoc([], v, k);
    assert [] + [v] == [v];
  }

  /** It determines what is printed. */
  lemma TextDeterminesView(a: View, b: View)
    requires CleanView(a) && CleanView(b) && Text(a) == Text(b)
    ensures a == b
  {
    hide Join, Render, CleanView;
    LinesAreWhole(a, 0);
    LinesAreWhole(b, 0);
    JoinDetermines(Render(a, 0), Render(b, 0), '\n');
    assert Render(a, 0) + [] == Render(b, 0) + [];
    RenderDetermines(a, b, 0, [], []);
  }
}
