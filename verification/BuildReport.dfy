/** The report as a whole: what reading a log and summarising its last build comes to, said of
    the lines of the log. */
module BuildReport {
  import S = SharedTime
  import T = BuildTime
  import L = NinjaLog
  import U = Unique

  datatype Report = AssertionError | Printed(outcome: T.Outcome)

  /** The lines of the last build. */
  ghost function LastBuild(log: seq<L.Line>): (kept: seq<L.Line>)
    ensures L.AllRecords(kept)
  {
    L.RecordsAre(log);
    var r := L.Records(log);
    r[L.Kept(r, false)..]
  }

  /** The last record always belongs to the last build. */
  lemma NothingKept(log: seq<L.Line>)
    ensures LastBuild(log) == [] <==> L.Records(log) == []
  {
    L.RecordsAre(log);
    var r := L.Records(log);
    if r != [] { L.CutBelow(r, |r|); }
  }

  lemma LastBuildIsOne(log: seq<L.Line>)
    ensures L.OneBuild(LastBuild(log))
  {
    L.RecordsAre(log);
    var r := L.Records(log);
    L.CutIsOneBuild(r, |r|);
    assert r[L.Cut(r, |r|)..|r|] == r[L.Cut(r, |r|)..];
  }

  /** Some step of the build ends before it starts. */
  ghost predicate EndsEarly(kept: seq<L.Line>)
    requires L.AllRecords(kept)
  {
    exists k :: 0 <= k < |kept| && kept[k].end < kept[k].start
  }

  lemma InGroups(kept: seq<L.Line>)
    requires L.AllRecords(kept) && L.OneBuild(kept)
    ensures EndsEarly(kept) <==>
      exists i :: 0 <= i < |L.Grouped(kept)| && L.Grouped(kept)[i].end < L.Grouped(kept)[i].start
    ensures (forall k :: 0 <= k < |kept| ==> 0 <= kept[k].start) ==>
      forall i :: 0 <= i < |L.Grouped(kept)| ==> 0 <= L.Grouped(kept)[i].start
    ensures kept == [] <==> L.Grouped(kept) == []
  {
    hide L.OneBuild, L.Grouped, L.Find;
    var g := L.Grouped(kept);
    forall i: nat | i < |g| ensures exists k :: 0 <= k < |kept| && L.Agrees(kept[k], g[i]) {
      L.GroupsHaveLines(kept, i);
    }
    if k :| 0 <= k < |kept| && kept[k].end < kept[k].start { L.GroupTimes(kept, k); }
    if kept != [] { L.LineHasGroup(kept, 0); } else { L.Nothing(false); }
  }

  lemma FromGroups(keys: seq<string>, targets: seq<S.Target>, g: seq<L.Group>)
    requires L.Represents(keys, targets, g)
    ensures U.Distinct(targets) && (targets == [] <==> g == [])
    ensures T.WellTimed(T.ToSet(targets)) <==> forall i :: 0 <= i < |g| ==> g[i].start <= g[i].end
    ensures (forall i :: 0 <= i < |g| ==> 0 <= g[i].start) ==> forall t :: t in targets ==> 0.0 <= t.start
  {
    forall i | 0 <= i < |g|
      ensures targets[i].start <= targets[i].end <==> g[i].start <= g[i].end
      ensures 0 <= g[i].start ==> 0.0 <= targets[i].start
    {
    }
    if T.WellTimed(T.ToSet(targets)) {
      forall i | 0 <= i < |g| ensures g[i].start <= g[i].end { assert targets[i] in T.ToSet(targets); }
    }
  }

  /** Whatever the log: an unknown header, a log without a record, and a last build with a step
      that ends before it starts are the failures; else the steps of the last build, one per
      command, carry their fair shares, which never add up to more than the length. */
  method ReportBuild(header: string, log: seq<L.Line>) returns (r: Report, targets: seq<S.Target>)
    ensures r.AssertionError? <==> header != "# ninja log v5\n"
    ensures r.Printed? ==>
      && (r.outcome.IndexError? <==> L.Records(log) == [])
      && (r.outcome.KeyError? <==> EndsEarly(LastBuild(log)))
      && (r.outcome.Summary? && (forall k :: 0 <= k < |LastBuild(log)| ==> 0 <= LastBuild(log)[k].start) ==>
            r.outcome.weightedTotal <= r.outcome.length)
    ensures r.Printed? && (r.outcome.Summary? || r.outcome.ZeroDivisionError?) ==>
      && T.FairlyWeighted(T.ToSet(targets))
      && (r.outcome.ZeroDivisionError? <==> T.IsLength(targets, 0.0))
      && |targets| == |L.Grouped(LastBuild(log))|
      && forall i :: 0 <= i < |targets| ==>
           var g := L.Grouped(LastBuild(log))[i];
           && targets[i].targets == g.names
           && 1000.0 * targets[i].start == g.start as real && 1000.0 * targets[i].end == g.end as real
  {
    hide L.Records, L.Grouped, L.OneBuild, L.Kept, L.Find, U.Distinct, EndsEarly, T.FairlyWeighted, T.IsLength;
    targets := [];
    var read := L.ReadTargets(header, log, false);
    if read.AssertionError? { return AssertionError, []; }
    targets := read.targets;
    ghost var kept := LastBuild(log);
    ghost var keys :| L.Represents(keys, targets, L.Grouped(kept));
    NothingKept(log);
    LastBuildIsOne(log);
    InGroups(kept);
    FromGroups(keys, targets, L.Grouped(kept));
    hide LastBuild;
    assert forall i :: 0 <= i < |targets| ==> targets[i] in targets;
    var outcome := T.SummarizeEntries(targets);
    r := Printed(outcome);
  }
}
