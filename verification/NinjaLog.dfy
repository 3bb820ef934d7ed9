/** ReadTargets: groups the lines of a ninja log by command hash and throws away what belongs
    to an earlier build. */
module NinjaLog {
  import opened SharedTime
  import opened Unique

  /** A log line after splitting on tabs: not five fields, or a record. */
  datatype Line = Malformed | Record(start: int, end: int, name: string, hash: string)

  /** Milliseconds of the log to seconds. */
  function Seconds(ms: int): real { ms as real / 1000.0 }

  function Records(log: seq<Line>): seq<Line>
  {
    if log == [] then []
    else Records(log[..|log| - 1]) + if log[|log| - 1].Record? then [log[|log| - 1]] else []
  }

  ghost predicate AllRecords(r: seq<Line>)
  {
    forall i :: 0 <= i < |r| ==> r[i].Record?
  }

  // ---- which lines are kept -----------------------------------------------

  /** Two lines disagree: same command, different times. */
  ghost predicate Disagree(a: Line, b: Line)
    requires a.Record? && b.Record?
  {
    a.hash == b.hash && (a.start != b.start || a.end != b.end)
  }

  /** Line k cannot belong to the build whose lines are b..k-1: time went back, or a command
      of that build reappears with other times. */
  ghost predicate NewBuild(r: seq<Line>, b: nat, k: nat)
    requires AllRecords(r) && b <= k < |r|
  {
    || r[k].end < (if k == 0 then 0 else r[k - 1].end)
    || exists j :: b <= j < k && Disagree(r[j], r[k])
  }

  /** Where the build that is current after k lines begins. */
  ghost function Cut(r: seq<Line>, k: nat): (b: nat)
    requires AllRecords(r) && k <= |r|
    ensures b <= k
  {
    if k == 0 then 0 else
      var b := Cut(r, k - 1);
      if NewBuild(r, b, k - 1) then k - 1 else b
  }

  /** One build: ends never go back, and all lines of a command have the same times. */
  ghost predicate OneBuild(r: seq<Line>)
    requires AllRecords(r)
  {
    && (forall i :: 0 < i < |r| ==> r[i - 1].end <= r[i].end)
    && (forall i, j :: 0 <= i < j < |r| ==> !Disagree(r[i], r[j]))
  }

  lemma OneMore(r: seq<Line>, b: nat, k: nat)
    requires AllRecords(r) && b <= k < |r| && OneBuild(r[b..k]) && !NewBuild(r, b, k)
    ensures OneBuild(r[b..k + 1])
  {
    var s, t := r[b..k + 1], r[b..k];
    assert s == t + [r[k]];
    forall i | 0 < i < |s| ensures s[i - 1].end <= s[i].end {
      if i < |t| { assert t[i - 1].end <= t[i].end; }
    }
  }

  /** What is kept is one build. */
  lemma {:induction false} CutIsOneBuild(r: seq<Line>, k: nat)
    requires AllRecords(r) && k <= |r|
    ensures OneBuild(r[Cut(r, k)..k])
  {
    if k > 0 {
      CutIsOneBuild(r, k - 1);
      var b := Cut(r, k - 1);
      if !NewBuild(r, b, k - 1) {
        hide OneBuild, NewBuild;
        OneMore(r, b, k - 1);
      }
    }
  }

  /** Two neighbours whose ends go back, or two lines that disagree, are not of one build. */
  lemma NotOneBuild(r: seq<Line>, b: nat, k: nat)
    requires AllRecords(r) && b < k < |r| && NewBuild(r, b, k)
    ensures !OneBuild(r[b..k + 1])
  {
    var s := r[b..k + 1];
    assert s[k - b] == r[k] && s[k - b - 1] == r[k - 1];
    if j :| b <= j < k && Disagree(r[j], r[k]) {
      assert s[j - b] == r[j];
    }
  }

  /** Nothing is thrown away without need: the line at the cut does not fit the build that was
      current before it. */
  lemma {:induction false} CutIsForced(r: seq<Line>, k: nat)
    requires AllRecords(r) && k <= |r| && Cut(r, k) > 0
    ensures Cut(r, k) < k && Cut(r, Cut(r, k)) < Cut(r, k)
    ensures !OneBuild(r[Cut(r, Cut(r, k))..Cut(r, k) + 1])
  {
    hide OneBuild, NewBuild;
    var c := Cut(r, k - 1);
    if NewBuild(r, c, k - 1) {
      CutBelow(r, k - 1);
      NotOneBuild(r, c, k - 1);
    } else {
      CutIsForced(r, k - 1);
    }
  }

  lemma CutBelow(r: seq<Line>, k: nat)
    requires AllRecords(r) && 0 < k <= |r|
    ensures Cut(r, k) < k
  {
  }

  // ---- grouping -----------------------------------------------------------

  datatype Group = Group(hash: string, start: int, end: int, names: seq<string>)

  /** Position of the group of a hash, or the number of groups when there is none. */
  ghost function Find(g: seq<Group>, hash: string): (i: nat)
    ensures i <= |g|
    ensures i < |g| ==> g[i].hash == hash
    ensures forall j :: 0 <= j < i ==> g[j].hash != hash
  {
    if g == [] || g[0].hash == hash then 0 else 1 + Find(g[1..], hash)
  }

  ghost function AddLine(g: seq<Group>, l: Line): seq<Group>
    requires l.Record?
  {
    var i := Find(g, l.hash);
    if i < |g| then g[i := g[i].(names := g[i].names + [l.name])]
    else g + [Group(l.hash, l.start, l.end, [l.name])]
  }

  /** Lines grouped by hash, groups in order of first appearance. */
  ghost function Grouped(r: seq<Line>): seq<Group>
    requires AllRecords(r)
  {
    if r == [] then [] else AddLine(Grouped(r[..|r| - 1]), r[|r| - 1])
  }

  /** The names on the lines of one hash, in log order. */
  ghost function NamesOf(r: seq<Line>, hash: string): seq<string>
    requires AllRecords(r)
  {
    if r == [] then [] else
      NamesOf(r[..|r| - 1], hash) + if r[|r| - 1].hash == hash then [r[|r| - 1].name] else []
  }

  /** Groups g account for the lines r: one group per hash, holding exactly that hash's names,
      once per line and in log order. */
  ghost predicate Accounts(r: seq<Line>, g: seq<Group>)
    requires AllRecords(r)
  {
    && (forall i, j :: 0 <= i < j < |g| ==> g[i].hash != g[j].hash)
    && (forall i :: 0 <= i < |g| ==> g[i].names == NamesOf(r, g[i].hash))
    && (forall h :: Find(g, h) == |g| ==> NamesOf(r, h) == [])
  }

  lemma {:induction false} GroupsPartition(r: seq<Line>)
    requires AllRecords(r)
    ensures Accounts(r, Grouped(r))
  {
    if r != [] {
      GroupsPartition(r[..|r| - 1]);
      PartitionStep(r, Grouped(r[..|r| - 1]));
    }
  }

  lemma PartitionStep(r: seq<Line>, g: seq<Group>)
    requires AllRecords(r) && r != [] && Accounts(r[..|r| - 1], g)
    ensures Accounts(r, AddLine(g, r[|r| - 1]))
  {
    hide Find;
    var l := r[|r| - 1];
    var g2 := AddLine(g, l);
    Found(g, l.hash);
    forall h ensures NamesOf(r, h) == NamesOf(r[..|r| - 1], h) + if l.hash == h then [l.name] else [] {}
    forall h | Find(g2, h) == |g2| ensures NamesOf(r, h) == [] {
      FoundAfter(g, l, h);
    }
  }

  /** Every line's hash has a group. */
  lemma {:induction false} LineHasGroup(r: seq<Line>, k: nat)
    requires AllRecords(r) && k < |r|
    ensures Find(Grouped(r), r[k].hash) < |Grouped(r)|
  {
    FoundAfter(Grouped(r[..|r| - 1]), r[|r| - 1], r[k].hash);
    if k < |r| - 1 { LineHasGroup(r[..|r| - 1], k); }
  }

  lemma FoundAfter(g: seq<Group>, l: Line, h: string)
    requires l.Record?
    ensures Find(AddLine(g, l), h) < |AddLine(g, l)| <==> Find(g, h) < |g| || h == l.hash
  {
    var g2 := AddLine(g, l);
    Found(g, h);
    Found(g2, h);
    if i :| 0 <= i < |g| && g[i].hash == h { assert g2[i].hash == h; }
    if h == l.hash { assert g2[Find(g, h)].hash == h; }
    if i :| 0 <= i < |g2| && g2[i].hash == h && i < |g| { assert g[i].hash == h; }
  }

  lemma Found(g: seq<Group>, h: string)
    ensures Find(g, h) < |g| <==> exists i :: 0 <= i < |g| && g[i].hash == h
  {
    if i :| 0 <= i < |g| && g[i].hash == h { assert Find(g, h) <= i; }
  }

  /** In one build every line has the times of its group. */
  lemma {:induction false} GroupTimes(r: seq<Line>, k: nat)
    requires AllRecords(r) && OneBuild(r) && k < |r|
    ensures Find(Grouped(r), r[k].hash) < |Grouped(r)|
    ensures var g := Grouped(r)[Find(Grouped(r), r[k].hash)]; g.start == r[k].start && g.end == r[k].end
  {
    LineHasGroup(r, k);
    GroupsHaveLines(r, Find(Grouped(r), r[k].hash));
  }

  ghost predicate Agrees(l: Line, g: Group)
    requires l.Record?
  {
    l.hash == g.hash && l.start == g.start && l.end == g.end
  }

  lemma {:induction false} GroupsHaveLines(r: seq<Line>, i: nat)
    requires AllRecords(r) && i < |Grouped(r)|
    ensures exists j :: 0 <= j < |r| && Agrees(r[j], Grouped(r)[i])
  {
    var init, n := r[..|r| - 1], |r| - 1;
    if i < |Grouped(init)| {
      GroupsHaveLines(init, i);
      var j :| 0 <= j < |init| && Agrees(init[j], Grouped(init)[i]);
      assert Agrees(r[j], Grouped(r)[i]);
    } else {
      assert Agrees(r[n], Grouped(r)[i]);
    }
  }

  /** A line disagrees with a build exactly when it disagrees with the group of its hash. */
  lemma DisagreesWithGroup(r: seq<Line>, l: Line)
    requires AllRecords(r) && OneBuild(r) && l.Record?
    ensures var g := Grouped(r); var i := Find(g, l.hash);
      (exists j :: 0 <= j < |r| && Disagree(r[j], l)) <==> i < |g| && (g[i].start != l.start || g[i].end != l.end)
  {
    var g := Grouped(r);
    var i := Find(g, l.hash);
    if j :| 0 <= j < |r| && Disagree(r[j], l) { GroupTimes(r, j); }
    if i < |g| { GroupsHaveLines(r, i); }
  }

  // ---- the reader ---------------------------------------------------------

  datatype Result = Targets(targets: seq<Target>) | AssertionError

  lemma {:induction false} IndexIsFind(keys: seq<string>, g: seq<Group>, h: string)
    requires |keys| == |g| && forall i :: 0 <= i < |g| ==> keys[i] == g[i].hash
    ensures Position(keys, h) == Find(g, h)
  {
    if keys != [] { IndexIsFind(keys[1..], g[1..], h); }
  }

  /** The dictionary (keys, values) holds the groups g: one object per group. */
  ghost predicate Represents(keys: seq<string>, values: seq<Target>, g: seq<Group>)
    reads values
  {
    && |keys| == |values| == |g|
    && (forall i :: 0 <= i < |g| ==>
          && keys[i] == g[i].hash && values[i].targets == g[i].names && values[i].weightedDuration == 0.0
          && 1000.0 * values[i].start == g[i].start as real && 1000.0 * values[i].end == g[i].end as real)
    && (forall i, j :: 0 <= i < j < |g| ==> values[i] != values[j])
  }

  /** The first line of the lines that are kept. */
  ghost function Kept(r: seq<Line>, showAll: bool): nat
    requires AllRecords(r)
    ensures Kept(r, showAll) <= |r|
  {
    if showAll then 0 else Cut(r, |r|)
  }

  lemma {:induction false} RecordsAre(log: seq<Line>)
    ensures AllRecords(Records(log))
  {
    if log != [] { RecordsAre(log[..|log| - 1]); }
  }

  lemma {:induction false} CutPrefix(r: seq<Line>, l: Line, k: nat)
    requires AllRecords(r) && l.Record? && k <= |r|
    ensures Cut(r + [l], k) == Cut(r, k)
  {
    if k > 0 {
      CutPrefix(r, l, k - 1);
      var b, s := Cut(r, k - 1), r + [l];
      assert forall j :: b <= j < k ==> s[j] == r[j];
    }
  }

  function LastEnd(r: seq<Line>): int
    requires AllRecords(r)
  {
    if r == [] then 0 else r[|r| - 1].end
  }

  /** The test the reader makes on its dictionary, whose content is the groups g. */
  ghost predicate Resets(g: seq<Group>, lastEnd: int, l: Line, showAll: bool)
    requires l.Record?
  {
    var i := Find(g, l.hash);
    !showAll && (l.end < lastEnd || (i < |g| && (g[i].start != l.start || g[i].end != l.end)))
  }

  lemma CutAppend(r: seq<Line>, l: Line)
    requires AllRecords(r) && l.Record?
    ensures Cut(r + [l], |r| + 1)
         == if Resets(Grouped(r[Cut(r, |r|)..]), LastEnd(r), l, false) then |r| else Cut(r, |r|)
  {
    hide Grouped, Find, Resets, NewBuild, OneBuild;
    var b := Cut(r, |r|);
    CutPrefix(r, l, |r|);
    CutIsOneBuild(r, |r|);
    assert r[b..|r|] == r[b..];
    NewBuildIs(r, l, b);
  }

  /** With one build in the dictionary, the reader's test says whether a new build begins. */
  lemma NewBuildIs(r: seq<Line>, l: Line, b: nat)
    requires AllRecords(r) && l.Record? && b <= |r| && OneBuild(r[b..])
    ensures NewBuild(r + [l], b, |r|) <==> Resets(Grouped(r[b..]), LastEnd(r), l, false)
  {
    hide Grouped, Find, OneBuild, Disagree;
    DisagreesWithGroup(r[b..], l);
    DisagreeShift(r, l, b);
    assert (r + [l])[|r|] == l && (r != [] ==> (r + [l])[|r| - 1] == r[|r| - 1]);
  }

  /** How one more record moves the kept lines. */
  lemma KeptStep(r: seq<Line>, l: Line, showAll: bool)
    requires AllRecords(r) && l.Record?
    ensures var g := Grouped(r[Kept(r, showAll)..]);
      Grouped((r + [l])[Kept(r + [l], showAll)..]) == AddLine(if Resets(g, LastEnd(r), l, showAll) then [] else g, l)
  {
    hide Cut, Grouped, Find, AddLine;
    var b := Kept(r, showAll);
    GroupAppend(r, l, b);
    GroupAppend(r, l, |r|);
    assert r[|r|..] == [];
    Nothing(showAll);
    if !showAll { CutAppend(r, l); }
  }

  lemma GroupAppend(r: seq<Line>, l: Line, b: nat)
    requires AllRecords(r) && l.Record? && b <= |r|
    ensures Grouped((r + [l])[b..]) == AddLine(Grouped(r[b..]), l)
  {
    var t := (r + [l])[b..];
    assert t[..|t| - 1] == r[b..] && t[|t| - 1] == l;
  }

  lemma DisagreeShift(r: seq<Line>, l: Line, b: nat)
    requires AllRecords(r) && l.Record? && b <= |r|
    ensures (exists j :: b <= j < |r| && Disagree((r + [l])[j], (r + [l])[|r|]))
       <==> (exists j :: 0 <= j < |r[b..]| && Disagree(r[b..][j], l))
  {
    var s := r + [l];
    if j :| b <= j < |r| && Disagree(s[j], s[|r|]) { assert Disagree(r[b..][j - b], l); }
    if j :| 0 <= j < |r[b..]| && Disagree(r[b..][j], l) { assert Disagree(s[j + b], s[|r|]); }
  }

  /** File a name under its hash, behind the names already there or in a new target. */
  method FileName(keys: seq<string>, values: seq<Target>, i: nat, l: Line, ghost g: seq<Group>)
      returns (keys2: seq<string>, values2: seq<Target>)
    requires l.Record? && Represents(keys, values, g) && i == Find(g, l.hash)
    modifies ObjectsOf(values)`targets
    ensures Represents(keys2, values2, AddLine(g, l))
    ensures forall t :: t in values2 ==> t in values || fresh(t)
  {
    hide Find, AddLine;
    AddLineCases(g, l);
    keys2, values2 := keys, values;
    if i == |keys2| {
      var t := new Target(Seconds(l.start), Seconds(l.end));
      t.targets := [l.name];
      keys2, values2 := keys2 + [l.hash], values2 + [t];
    } else {
      assert values2[i] in values2;
      values2[i].targets := values2[i].targets + [l.name];
    }
  }

  /** One record: reset the dictionary if the record starts a new build, then file its name
      under its hash. */
  method AddRecord(keys: seq<string>, values: seq<Target>, lastEnd: int, l: Line, showAll: bool, ghost g: seq<Group>)
      returns (keys2: seq<string>, values2: seq<Target>)
    requires l.Record? && Represents(keys, values, g)
    modifies ObjectsOf(values)`targets
    ensures Represents(keys2, values2, AddLine(if Resets(g, lastEnd, l, showAll) then [] else g, l))
    ensures forall t :: t in values2 ==> t in values || fresh(t)
  {
    hide Find, AddLine;
    keys2, values2 := keys, values;
    ghost var g2 := g;
    IndexIsFind(keys, g, l.hash);
    if !showAll && l.end < lastEnd {
      keys2, values2, g2 := [], [], [];
    }
    var i := Position(keys2, l.hash);
    if i < |keys2| && !showAll && (values2[i].start != Seconds(l.start) || values2[i].end != Seconds(l.end)) {
      keys2, values2, g2 := [], [], [];
      i := 0;
    }
    IndexIsFind(keys2, g2, l.hash);
    keys2, values2 := FileName(keys2, values2, i, l, g2);
  }

  ghost function ObjectsOf(s: seq<Target>): set<Target> { set t | t in s }

  /** Reads the log: the targets are the groups of the kept lines, one new object each. */
  method ReadTargets(header: string, log: seq<Line>, showAll: bool) returns (r: Result)
    ensures r.AssertionError? <==> header != "# ninja log v5\n"
    ensures AllRecords(Records(log))
    ensures r.Targets? ==>
      && (forall t :: t in r.targets ==> fresh(t))
      && var lines := Records(log);
         exists keys :: Represents(keys, r.targets, Grouped(lines[Kept(lines, showAll)..]))
  {
    hide Records, Kept, Grouped, AddLine, LastEnd, Resets, Represents;
    RecordsAre(log);
    if header != "# ninja log v5\n" { return AssertionError; }
    var keys: seq<string>, values: seq<Target> := [], [];
    var lastEnd := 0;
    ghost var lines := [];
    Nothing(showAll);
    assert log[..0] == [] && lines[0..] == [];
    for k := 0 to |log|
      invariant lines == Records(log[..k]) && AllRecords(lines)
      invariant lastEnd == LastEnd(lines)
      invariant forall t :: t in values ==> fresh(t)
      invariant Represents(keys, values, Grouped(lines[Kept(lines, showAll)..]))
    {
      var l := log[k];
      RecordsStep(log, k);
      if l.Malformed? { continue; }
      KeptStep(lines, l, showAll);
      LastEndStep(lines, l);
      keys, values := AddRecord(keys, values, lastEnd, l, showAll, Grouped(lines[Kept(lines, showAll)..]));
      lastEnd := l.end;
      lines := lines + [l];
    }
    assert log[..|log|] == log;
    r := Targets(values);
  }

  lemma Nothing(showAll: bool)
    ensures Records([]) == [] && Kept([], showAll) == 0 && Grouped([]) == [] && LastEnd([]) == 0
    ensures Represents([], [], [])
  {
  }

  lemma LastEndStep(r: seq<Line>, l: Line)
    requires AllRecords(r) && l.Record?
    ensures LastEnd(r + [l]) == l.end
  {
  }

  lemma RecordsStep(log: seq<Line>, k: nat)
    requires k < |log|
    ensures Records(log[..k + 1]) == Records(log[..k]) + if log[k].Record? then [log[k]] else []
  {
    assert log[..k + 1][..k] == log[..k];
  }

  lemma AddLineCases(g: seq<Group>, l: Line)
    requires l.Record?
    ensures Find(g, l.hash) <= |g|
    ensures g == [] ==> Find(g, l.hash) == 0
    ensures Find(g, l.hash) == |g| ==> AddLine(g, l) == g + [Group(l.hash, l.start, l.end, [l.name])]
    ensures Find(g, l.hash) < |g| ==>
      var i := Find(g, l.hash); AddLine(g, l) == g[i := g[i].(names := g[i].names + [l.name])]
  {
  }
}
