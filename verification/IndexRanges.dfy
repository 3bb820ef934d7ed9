/** _format_index_ranges: layer indices printed as ranges, and read back. */
module IndexRanges {
  import opened Unique
  import opened Strings
  import S = Sorting

  // ---- decimal numbers ----------------------------------------------------

  predicate IsDigit(c: char) { '0' <= c <= '9' }

  function Digit(d: nat): char
    requires d < 10
  {
    ['0', '1', '2', '3', '4', '5', '6', '7', '8', '9'][d]
  }

  /** str(n). */
  function Show(n: nat): (s: string)
    ensures s != [] && forall i :: 0 <= i < |s| ==> IsDigit(s[i])
  {
    if n < 10 then [Digit(n)] else Show(n / 10) + [Digit(n % 10)]
  }

  function Read(s: string): (n: nat)
    requires forall i :: 0 <= i < |s| ==> IsDigit(s[i])
  {
    if s == [] then 0 else
      assert IsDigit(s[|s| - 1]);
      10 * Read(s[..|s| - 1]) + (s[|s| - 1] as int - '0' as int)
  }

  lemma {:induction false} ReadShow(n: nat)
    ensures Read(Show(n)) == n
  {
    if n >= 10 {
      ReadShow(n / 10);
      assert Show(n)[..|Show(n)| - 1] == Show(n / 10);
    } else {
      assert Show(n)[..0] == [];
    }
  }

  // ---- ranges as text -----------------------------------------------------

  datatype Range = Range(start: int, end: int)

  /** str(n), with a sign where it is negative. */
  function ShowInt(n: int): (s: string)
    ensures s != []
  {
    if n < 0 then "-" + Show(-n) else Show(n)
  }

  function ShowRange(r: Range): string
  {
    if r.start == r.end then ShowInt(r.start) else ShowInt(r.start) + "-" + ShowInt(r.end)
  }

  function ShowAll(rs: seq<Range>): seq<string>
  {
    seq(|rs|, i requires 0 <= i < |rs| => ShowRange(rs[i]))
  }

  // ---- reading the text back ----------------------------------------------

  /** Length of the leading run of digits. */
  function Digits(s: string): (n: nat)
    ensures n <= |s| && forall i :: 0 <= i < n ==> IsDigit(s[i])
  {
    if s == [] || !IsDigit(s[0]) then 0 else 1 + Digits(s[1..])
  }

  datatype Parsed = Failed | Parsed(range: Range, rest: string)

  datatype Number = NoNumber | Number(value: int, rest: string)

  function ParseNat(s: string): Number
  {
    var n := Digits(s);
    if n == 0 then NoNumber else Number(Read(s[..n]), s[n..])
  }

  /** Digits, perhaps behind a minus sign. */
  function ParseInt(s: string): Number
  {
    if s != [] && s[0] == '-' then
      match ParseNat(s[1..]) case NoNumber => NoNumber case Number(v, rest) => Number(-v, rest)
    else ParseNat(s)
  }

  /** One range: a number, or two numbers with a dash between them. */
  function ParseRange(s: string): Parsed
  {
    match ParseInt(s)
    case NoNumber => Failed
    case Number(a, rest) =>
      if rest == [] || rest[0] != '-' then Parsed(Range(a, a), rest) else
        match ParseInt(rest[1..])
        case NoNumber => Failed
        case Number(b, rest2) => Parsed(Range(a, b), rest2)
  }

  datatype Ranges = NoRanges | Ranges(list: seq<Range>)

  /** Ranges separated by comma and blank. */
  function Parse(s: string): Ranges
    decreases |s|
  {
    match ParseRange(s)
    case Failed => NoRanges
    case Parsed(r, rest) =>
      if rest == [] then Ranges([r])
      else if |rest| < 2 || |rest| >= |s| || rest[..2] != ", " then NoRanges
      else match Parse(rest[2..]) case NoRanges => NoRanges case Ranges(l) => Ranges([r] + l)
  }

  lemma {:induction false} DigitsOf(a: string, rest: string)
    requires forall i :: 0 <= i < |a| ==> IsDigit(a[i])
    requires rest == [] || !IsDigit(rest[0])
    ensures Digits(a + rest) == |a|
  {
    if a == [] {
      assert a + rest == rest;
    } else {
      assert (a + rest)[1..] == a[1..] + rest;
      DigitsOf(a[1..], rest);
    }
  }

  lemma SplitDigits(n: nat, rest: string)
    requires rest == [] || !IsDigit(rest[0])
    ensures var s, k := Show(n) + rest, Digits(Show(n) + rest);
      k > 0 && Read(s[..k]) == n && s[k..] == rest
  {
    hide Show, Digits, Read;
    ReadShow(n);
    DigitsOf(Show(n), rest);
    var s := Show(n) + rest;
    assert s[..|Show(n)|] == Show(n) && s[|Show(n)|..] == rest;
  }

  /** A printed number reads back, whatever follows that is not a digit. */
  lemma ParseShowInt(n: int, rest: string)
    requires rest == [] || !IsDigit(rest[0])
    ensures ParseInt(ShowInt(n) + rest) == Number(n, rest)
  {
    hide ParseInt, Show;
    if n < 0 { Negative(n, rest); } else { Positive(n, rest); }
  }

  lemma ParseShowNat(n: nat, rest: string)
    requires rest == [] || !IsDigit(rest[0])
    ensures ParseNat(Show(n) + rest) == Number(n, rest)
  {
    hide Digits, Read, Show;
    SplitDigits(n, rest);
  }

  lemma Negative(n: int, rest: string)
    requires n < 0 && (rest == [] || !IsDigit(rest[0]))
    ensures ParseInt("-" + Show(-n) + rest) == Number(n, rest)
  {
    hide ParseNat, Show;
    ParseShowNat(-n, rest);
    var s := "-" + Show(-n) + rest;
    assert s[0] == '-' && s[1..] == Show(-n) + rest;
  }

  lemma Positive(n: nat, rest: string)
    requires rest == [] || !IsDigit(rest[0])
    ensures ParseInt(Show(n) + rest) == Number(n, rest)
  {
    hide ParseNat, Show;
    ParseShowNat(n, rest);
    var s := Show(n) + rest;
    assert s[0] == Show(n)[0] && IsDigit(Show(n)[0]);
  }

  lemma ParseShowRange(r: Range, rest: string)
    requires rest == [] || rest[0] == ','
    ensures ParseRange(ShowRange(r) + rest) == Parsed(r, rest)
  {
    hide ShowInt, ParseInt;
    if r.start == r.end {
      ParseShowInt(r.start, rest);
    } else {
      var tail := "-" + (ShowInt(r.end) + rest);
      assert ShowRange(r) + rest == ShowInt(r.start) + tail;
      ParseShowInt(r.start, tail);
      assert tail[1..] == ShowInt(r.end) + rest;
      ParseShowInt(r.end, rest);
    }
  }

  lemma ParseMore(r: Range, more: string)
    requires Parse(more).Ranges?
    ensures Parse(ShowRange(r) + ", " + more) == Ranges([r] + Parse(more).list)
  {
    hide ShowRange, ParseRange;
    var rest := ", " + more;
    var s := ShowRange(r) + ", " + more;
    assert s == ShowRange(r) + rest;
    assert rest[..2] == ", " && rest[2..] == more;
    ParseShowRange(r, rest);
    NotEmpty(r);
  }

  lemma NotEmpty(r: Range)
    ensures ShowRange(r) != []
  {
  }

  /** Reading back a printed list of ranges gives the list. */
  lemma {:induction false} ParseShow(rs: seq<Range>)
    requires rs != []
    ensures Parse(Join(ShowAll(rs), ", ")) == Ranges(rs)
  {
    hide ParseRange, ShowRange;
    if |rs| == 1 {
      assert ShowRange(rs[0]) == ShowRange(rs[0]) + [];
      ParseShowRange(rs[0], []);
    } else {
      hide Parse;
      assert ShowAll(rs)[1..] == ShowAll(rs[1..]);
      ParseShow(rs[1..]);
      ParseMore(rs[0], Join(ShowAll(rs[1..]), ", "));
      assert [rs[0]] + rs[1..] == rs;
    }
  }

  // ---- expanding ranges ---------------------------------------------------

  function Span(a: int, b: int): seq<int>
    decreases b - a
  {
    if b < a then [] else Span(a, b - 1) + [b]
  }

  function Expand(rs: seq<Range>): seq<int>
  {
    if rs == [] then [] else Expand(rs[..|rs| - 1]) + Span(rs[|rs| - 1].start, rs[|rs| - 1].end)
  }

  ghost predicate Sorted(s: seq<int>) { forall i, j :: 0 <= i < j < |s| ==> s[i] <= s[j] }

  function IndexKey(n: int): S.Key { S.Key(n as real, 0) }

  function Sort(s: seq<int>): (r: seq<int>)
    ensures Sorted(r) && multiset(r) == multiset(s) && |r| == |s|
  {
    IndexOrder(S.Sort(s, IndexKey));
    S.Sort(s, IndexKey)
  }

  lemma IndexOrder(s: seq<int>)
    requires S.SortedBy(s, IndexKey)
    ensures Sorted(s)
  {
    forall i, j | 0 <= i < j < |s| ensures s[i] <= s[j] { assert IndexKey(s[i]).AtMost(IndexKey(s[j])); }
  }

  /** Ranges that neither touch nor overlap, in order. */
  ghost predicate Separated(rs: seq<Range>)
  {
    && (forall i :: 0 <= i < |rs| ==> rs[i].start <= rs[i].end)
    && (forall i :: 0 < i < |rs| ==> rs[i - 1].end + 1 < rs[i].start)
  }

  ghost predicate Strict(s: seq<int>) { forall i :: 0 < i < |s| ==> s[i - 1] < s[i] }

  /** No number has its successor right behind it. */
  ghost predicate Lonely(s: seq<int>) { forall i :: 0 < i < |s| ==> s[i] != s[i - 1] + 1 }

  ghost function Singles(s: seq<int>): seq<Range> { seq(|s|, i requires 0 <= i < |s| => Range(s[i], s[i])) }

  ghost function ShowInts(s: seq<int>): seq<string> { seq(|s|, i requires 0 <= i < |s| => ShowInt(s[i])) }

  /** The loop: extend the current range or close it. */
  method RangesOf(indices: seq<int>) returns (rs: seq<Range>)
    requires indices != []
    ensures rs != [] && Expand(rs) == Sort(indices)
    ensures Distinct(indices) ==> Separated(rs)
    ensures Lonely(Sort(indices)) ==> rs == Singles(Sort(indices))
  {
    hide Sort, Expand, Span;
    var sorted := Sort(indices);
    var start, end := sorted[0], sorted[0];
    rs := [];
    SpanOne(start);
    ExpandNone();
    assert sorted[..1] == [sorted[0]];
    for k := 1 to |sorted|
      invariant start <= end == sorted[k - 1]
      invariant Expand(rs) + Span(start, end) == sorted[..k]
      invariant Strict(sorted) ==> Separated(rs + [Range(start, end)])
      invariant Lonely(sorted) ==> start == end && rs == Singles(sorted[..k - 1])
    {
      var idx := sorted[k];
      assert sorted[..k + 1] == sorted[..k] + [idx];
      if idx == end + 1 {
        SpanMore(start, end);
        assert Expand(rs) + Span(start, idx) == Expand(rs) + Span(start, end) + [idx];
        if Strict(sorted) { Widen(rs, start, end, idx); }
        end := idx;
      } else {
        ExpandSnoc(rs, Range(start, end));
        if Strict(sorted) { Close(rs, start, end, idx); }
        rs := rs + [Range(start, end)];
        start, end := idx, idx;
        SpanOne(idx);
      }
    }
    ExpandSnoc(rs, Range(start, end));
    rs := rs + [Range(start, end)];
    assert sorted[..|sorted|] == sorted;
    if Distinct(indices) { DistinctIsStrict(indices); }
  }

  lemma Widen(rs: seq<Range>, start: int, end: int, end2: int)
    requires Separated(rs + [Range(start, end)]) && end <= end2
    ensures Separated(rs + [Range(start, end2)])
  {
    var a, b := rs + [Range(start, end)], rs + [Range(start, end2)];
    forall i | 0 < i < |b| ensures b[i - 1].end + 1 < b[i].start {
      assert a[i - 1].end + 1 < a[i].start;
    }
    forall i | 0 <= i < |b| ensures b[i].start <= b[i].end {
      assert a[i].start <= a[i].end;
    }
  }

  lemma Close(rs: seq<Range>, start: int, end: int, idx: int)
    requires Separated(rs + [Range(start, end)]) && end + 1 < idx
    ensures Separated(rs + [Range(start, end)] + [Range(idx, idx)])
  {
  }

  lemma DistinctIsStrict(s: seq<int>)
    requires Distinct(s)
    ensures Strict(Sort(s))
  {
    hide Sort;
    DistinctIff(s);
    DistinctIff(Sort(s));
  }

  lemma SpanOne(a: int)
    ensures Span(a, a) == [a]
  {
    assert Span(a, a - 1) == [];
  }

  lemma SpanMore(a: int, b: int)
    requires a <= b
    ensures Span(a, b + 1) == Span(a, b) + [b + 1]
  {
  }

  lemma ExpandNone()
    ensures Expand([]) == []
  {
  }

  lemma ExpandSnoc(rs: seq<Range>, r: Range)
    ensures Expand(rs + [r]) == Expand(rs) + Span(r.start, r.end)
  {
    assert (rs + [r])[..|rs|] == rs;
  }

  /** The printed text names exactly the given indices, in order. */
  method FormatIndexRanges(indices: seq<int>) returns (text: string)
    requires indices != []
    ensures Parse(text).Ranges? && Expand(Parse(text).list) == Sort(indices)
    ensures Distinct(indices) ==> Separated(Parse(text).list)
    ensures Lonely(Sort(indices)) ==> text == Join(ShowInts(Sort(indices)), ", ")
  {
    hide ShowInt, Parse, Expand, Sort;
    var rs := RangesOf(indices);
    if Lonely(Sort(indices)) { assert ShowAll(rs) == ShowInts(Sort(indices)); }
    text := Join(ShowAll(rs), ", ");
    ParseShow(rs);
  }

  // ---- no fewer ranges would do -------------------------------------------

  ghost predicate Covers(rs: seq<Range>, x: int)
  {
    exists i :: 0 <= i < |rs| && rs[i].start <= x <= rs[i].end
  }

  ghost function Starts(rs: seq<Range>): seq<int>
  {
    seq(|rs|, i requires 0 <= i < |rs| => rs[i].start)
  }

  lemma {:induction false} StartsGrow(rs: seq<Range>, i: nat, j: nat)
    requires Separated(rs) && i < j < |rs|
    ensures rs[i].end + 1 < rs[j].start
  {
    if i + 1 < j { StartsGrow(rs, i, j - 1); }
  }

  /** Every start of separated ranges is a start of any ranges that cover the same numbers. */
  lemma StartIsForced(rs: seq<Range>, other: seq<Range>, i: nat)
    requires Separated(rs) && i < |rs| && forall x: int :: Covers(rs, x) <==> Covers(other, x)
    ensures rs[i].start in Starts(other)
  {
    var x := rs[i].start;
    assert Covers(rs, x);
    var j :| 0 <= j < |other| && other[j].start <= x <= other[j].end;
    if other[j].start < x {
      assert Covers(other, x - 1);
      var k :| 0 <= k < |rs| && rs[k].start <= x - 1 <= rs[k].end;
      if k < i { StartsGrow(rs, k, i); }
      if k > i { StartsGrow(rs, i, k); }
    }
    assert Starts(other)[j] == other[j].start;
  }

  lemma {:induction false} AtMostLength(p: seq<int>)
    ensures |Elements(p)| <= |p|
  {
    if p != [] {
      AtMostLength(p[..|p| - 1]);
      assert Elements(p) == Elements(p[..|p| - 1]) + {p[|p| - 1]};
    }
  }

  /** Separated ranges are the fewest that cover their numbers. */
  lemma FewestRanges(rs: seq<Range>, other: seq<Range>)
    requires Separated(rs) && forall x: int :: Covers(rs, x) <==> Covers(other, x)
    ensures |rs| <= |other|
  {
    var s, t := Starts(rs), Starts(other);
    forall i, j | 0 <= i < j < |s| ensures s[i] != s[j] { StartsGrow(rs, i, j); }
    DistinctSize(s);
    AtMostLength(t);
    forall x | x in Elements(s) ensures x in Elements(t) {
      var i: nat :| i < |s| && s[i] == x;
      StartIsForced(rs, other, i);
      var j :| 0 <= j < |t| && t[j] == x;
    }
    SubsetSize(Elements(s), Elements(t));
  }
}
