/** SummarizeEntries: one pass over the sorted start and stop events that gives every build
    step its share of wall time. Times are exact reals. */
module BuildTime {
  import opened SharedTime
  import opened Unique
  import opened Sorting

  datatype Event = Event(time: real, stop: bool, target: Target)

  /** "start" sorts before "stop" at equal times. */
  predicate Before(a: Event, b: Event)
  {
    a.time < b.time || (a.time == b.time && (!a.stop || b.stop))
  }

  ghost predicate Ordered(s: seq<Event>)
  {
    forall i, j :: 0 <= i < j < |s| ==> Before(s[i], s[j])
  }

  function StartOf(t: Target): Event { Event(t.start, false, t) }
  function StopOf(t: Target): Event { Event(t.end, true, t) }

  // ---- the event list -----------------------------------------------------

  function EventKey(e: Event): Key { Key(e.time, if e.stop then 1 else 0) }

  /** The sort is by (time, action) only and may be any sort that orders them. */
  function SortEvents(s: seq<Event>): (r: seq<Event>)
    ensures Ordered(r) && multiset(r) == multiset(s)
  {
    KeyOrder(Sort(s, EventKey));
    Sort(s, EventKey)
  }

  lemma KeyOrder(s: seq<Event>)
    requires SortedBy(s, EventKey)
    ensures Ordered(s)
  {
    forall i, j | 0 <= i < j < |s| ensures Before(s[i], s[j]) { assert EventKey(s[i]).AtMost(EventKey(s[j])); }
  }

  /** Every task contributes its start and its stop. */
  function Events(entries: seq<Target>): seq<Event>
  {
    if entries == [] then [] else
      Events(entries[..|entries| - 1]) + [StartOf(entries[|entries| - 1]), StopOf(entries[|entries| - 1])]
  }

  /** What the sweep needs to know of a sorted event list. */
  ghost predicate Timeline(tasks: set<Target>, ev: seq<Event>)
  {
    && Ordered(ev) && Distinct(ev)
    && (forall i :: 0 <= i < |ev| ==>
        ev[i].target in tasks && (ev[i] == StartOf(ev[i].target) || ev[i] == StopOf(ev[i].target)))
    && (forall t :: t in tasks ==> StartOf(t) in ev && StopOf(t) in ev)
  }

  ghost function ToSet<T>(s: seq<T>): set<T> { set x | x in s }

  ghost predicate IsEventOf(entries: seq<Target>, e: Event)
  {
    e.target in entries && (e == StartOf(e.target) || e == StopOf(e.target))
  }

  lemma {:induction false} EventsOf(entries: seq<Target>)
    requires Distinct(entries)
    ensures forall e :: multiset(Events(entries))[e] == (if IsEventOf(entries, e) then 1 else 0)
  {
    if entries != [] {
      var n := |entries| - 1;
      var init, t := entries[..n], entries[n];
      assert entries == init + [t];
      EventsOf(init);
      assert t !in init;
      assert multiset([StartOf(t), StopOf(t)]) == multiset{StartOf(t), StopOf(t)};
    }
  }

  lemma MembersOf(entries: seq<Target>, ev: seq<Event>)
    requires Distinct(entries) && multiset(ev) == multiset(Events(entries))
    ensures Distinct(ev) && forall e :: e in ev <==> IsEventOf(entries, e)
    ensures forall i :: 0 <= i < |ev| ==> IsEventOf(entries, ev[i])
  {
    hide Events, IsEventOf, Distinct;
    EventsOf(entries);
    assert forall e :: multiset(ev)[e] == (if IsEventOf(entries, e) then 1 else 0);
    DistinctIff(ev);
    forall e ensures e in ev <==> IsEventOf(entries, e) {
      assert e in ev <==> e in multiset(ev);
    }
  }

  lemma TimelineOf(entries: seq<Target>)
    requires Distinct(entries)
    ensures Timeline(ToSet(entries), SortEvents(Events(entries)))
  {
    hide SortEvents, Events, Ordered;
    var ev := SortEvents(Events(entries));
    MembersOf(entries, ev);
    hide Distinct;
    forall t | t in entries ensures StartOf(t) in ev && StopOf(t) in ev {
      assert IsEventOf(entries, StartOf(t)) && IsEventOf(entries, StopOf(t));
    }
  }

  // ---- the sweep ----------------------------------------------------------

  ghost function Times(ev: seq<Event>): (g: seq<real>)
    ensures |g| == |ev| && forall i :: 0 <= i < |g| ==> g[i] == ev[i].time
  {
    seq(|ev|, i requires 0 <= i < |ev| => ev[i].time)
  }

  /** The event times are a grid for the tasks. */
  lemma TimesIsGrid(tasks: set<Target>, ev: seq<Event>)
    requires Timeline(tasks, ev)
    ensures IsGrid(tasks, Times(ev))
  {
    forall t | t in tasks ensures t.start in Times(ev) && t.end in Times(ev) {
      var i :| 0 <= i < |ev| && ev[i] == StartOf(t);
      var j :| 0 <= j < |ev| && ev[j] == StopOf(t);
      assert Times(ev)[i] == t.start && Times(ev)[j] == t.end;
    }
  }

  /** Tasks started and not stopped by the first k events. */
  ghost function Running(tasks: set<Target>, ev: seq<Event>, k: nat): set<Target>
    requires k <= |ev|
  {
    set t | t in tasks && StartOf(t) in ev[..k] && StopOf(t) !in ev[..k]
  }

  ghost function Stopped(tasks: set<Target>, ev: seq<Event>, k: nat): set<Target>
    requires k <= |ev|
  {
    set t | t in tasks && StopOf(t) in ev[..k]
  }

  lemma InPrefix(ev: seq<Event>, e: Event, i: nat, k: nat)
    requires Distinct(ev) && i < |ev| && ev[i] == e && k <= |ev|
    ensures e in ev[..k] <==> i < k
  {
    if i < k { assert ev[..k][i] == e; }
  }

  /** Where time advances between two events, an event is behind if and only if its time is. */
  lemma BehindGap(ev: seq<Event>, e: Event, k: nat)
    requires Ordered(ev) && Distinct(ev) && e in ev
    requires 0 < k < |ev| && ev[k - 1].time < ev[k].time
    ensures e in ev[..k] <==> e.time <= ev[k - 1].time
    ensures e !in ev[..k] <==> e.time >= ev[k].time
  {
    var i :| 0 <= i < |ev| && ev[i] == e;
    InPrefix(ev, e, i, k);
    assert i < k - 1 ==> Before(ev[i], ev[k - 1]);
    assert i > k ==> Before(ev[k], ev[i]);
  }

  /** Where time advances between two events, the running tasks are those that cover the gap. */
  lemma RunningCovers(tasks: set<Target>, ev: seq<Event>, k: nat)
    requires Timeline(tasks, ev) && 0 < k < |ev| && ev[k - 1].time < ev[k].time
    ensures Running(tasks, ev, k) == Covering(tasks, ev[k - 1].time, ev[k].time)
  {
    hide Ordered, Distinct;
    forall t | t in tasks
      ensures StartOf(t) in ev[..k] <==> t.start <= ev[k - 1].time
      ensures StopOf(t) !in ev[..k] <==> ev[k].time <= t.end
    {
      BehindGap(ev, StartOf(t), k);
      BehindGap(ev, StopOf(t), k);
    }
  }

  /** What one more event adds to a task's share. */
  ghost function Gain(tasks: set<Target>, ev: seq<Event>, k: nat, t: Target): real
    requires k < |ev|
  {
    if k > 0 && t in Running(tasks, ev, k) then
      (ev[k].time - ev[k - 1].time) / |Running(tasks, ev, k)| as real
    else 0.0
  }

  lemma ShareSnoc(tasks: set<Target>, t: Target, g: seq<real>, k: nat)
    requires 0 < k < |g|
    ensures Share(tasks, t, g[..k + 1]) == Share(tasks, t, g[..k]) + SliceShare(tasks, t, g[k - 1], g[k])
  {
    hide SliceShare;
    assert g[..k + 1][..k] == g[..k];
  }

  lemma GainIsSlice(tasks: set<Target>, ev: seq<Event>, k: nat, t: Target)
    requires Timeline(tasks, ev) && 0 < k < |ev|
    ensures Gain(tasks, ev, k, t) == SliceShare(tasks, t, ev[k - 1].time, ev[k].time)
  {
    hide Distinct, Running, Covering;
    assert Before(ev[k - 1], ev[k]);
    if ev[k - 1].time < ev[k].time {
      RunningCovers(tasks, ev, k);
    } else {
      NoGain(tasks, ev, k, t);
    }
  }

  lemma NoGain(tasks: set<Target>, ev: seq<Event>, k: nat, t: Target)
    requires 0 < k < |ev| && ev[k - 1].time == ev[k].time
    ensures Gain(tasks, ev, k, t) == 0.0
  {
    hide Running;
    var c := Running(tasks, ev, k);
    if t in c {
      assert |c| > 0;
      assert 0.0 / |c| as real == 0.0;
    }
  }

  lemma ShareStep(tasks: set<Target>, ev: seq<Event>, k: nat, t: Target)
    requires Timeline(tasks, ev) && k < |ev|
    ensures Share(tasks, t, Times(ev)[..k + 1]) == Share(tasks, t, Times(ev)[..k]) + Gain(tasks, ev, k, t)
  {
    hide Timeline, SliceShare;
    if k > 0 {
      hide Gain, Share;
      ShareSnoc(tasks, t, Times(ev), k);
      GainIsSlice(tasks, ev, k, t);
    }
  }

  /** Event k changes only its own target's status. */
  ghost predicate Stops(tasks: set<Target>, ev: seq<Event>, k: nat)
    requires k < |ev|
  {
    var t := ev[k].target;
    && Running(tasks, ev, k + 1) == Running(tasks, ev, k) - {t}
    && Stopped(tasks, ev, k + 1) == Stopped(tasks, ev, k) + {t} && t !in Stopped(tasks, ev, k)
    && (t in Running(tasks, ev, k) <==> t.start <= t.end)
  }

  ghost predicate Starts(tasks: set<Target>, ev: seq<Event>, k: nat)
    requires k < |ev|
  {
    var t := ev[k].target;
    && (t in Stopped(tasks, ev, k) ==> t.end < t.start)
    && (t !in Stopped(tasks, ev, k) ==> Running(tasks, ev, k + 1) == Running(tasks, ev, k) + {t})
    && Stopped(tasks, ev, k + 1) == Stopped(tasks, ev, k)
    && StartOf(t) !in ev[..k]
  }

  lemma StartFirst(ev: seq<Event>, t: Target, i: nat, k: nat)
    requires Ordered(ev) && i < |ev| && k < |ev| && ev[i] == StartOf(t) && ev[k] == StopOf(t)
    ensures i < k <==> t.start <= t.end
  {
    assert i != k;
    assert i < k ==> Before(ev[i], ev[k]);
    assert k < i ==> Before(ev[k], ev[i]);
  }

  /** At a stop, the step's start is behind if and only if it does not start after its end. */
  lemma StartBehind(tasks: set<Target>, ev: seq<Event>, k: nat)
    requires Timeline(tasks, ev) && k < |ev| && ev[k].stop
    ensures StartOf(ev[k].target) in ev[..k] <==> ev[k].target.start <= ev[k].target.end
  {
    var t := ev[k].target;
    InTasks(tasks, ev, k);
    assert StartOf(t) in ev;
    assert Ordered(ev) && Distinct(ev);
    hide Timeline, Ordered, Distinct;
    var i :| 0 <= i < |ev| && ev[i] == StartOf(t);
    InPrefix(ev, StartOf(t), i, k);
    StartFirst(ev, t, i, k);
  }

  lemma StopFirst(ev: seq<Event>, t: Target, j: nat, k: nat)
    requires Ordered(ev) && j < k < |ev| && ev[j] == StopOf(t) && ev[k] == StartOf(t)
    ensures t.end < t.start
  {
    assert Before(ev[j], ev[k]);
  }

  /** At a start, the step's stop is behind only if the step ends before it starts. */
  lemma StopBehind(tasks: set<Target>, ev: seq<Event>, k: nat)
    requires Timeline(tasks, ev) && k < |ev| && !ev[k].stop
    ensures StopOf(ev[k].target) in ev[..k] ==> ev[k].target.end < ev[k].target.start
  {
    hide Ordered, Distinct;
    InTasks(tasks, ev, k);
    hide Timeline;
    var p := ev[..k];
    if StopOf(ev[k].target) in p {
      var j :| 0 <= j < |p| && p[j] == StopOf(ev[k].target);
      assert p[j] == ev[j];
      StopFirst(ev, ev[k].target, j, k);
    }
  }

  lemma NotYet(ev: seq<Event>, k: nat)
    requires Distinct(ev) && k < |ev|
    ensures ev[k] !in ev[..k]
    ensures forall e :: e in ev[..k + 1] <==> e in ev[..k] || e == ev[k]
  {
    assert ev[..k + 1] == ev[..k] + [ev[k]];
  }

  lemma StopStatus(tasks: set<Target>, ev: seq<Event>, k: nat)
    requires k < |ev| && ev[k] == StopOf(ev[k].target) && ev[k].target in tasks && ev[k] !in ev[..k]
    requires forall e :: e in ev[..k + 1] <==> e in ev[..k] || e == ev[k]
    requires StartOf(ev[k].target) in ev[..k] <==> ev[k].target.start <= ev[k].target.end
    ensures Stops(tasks, ev, k)
  {
    forall t ensures StopOf(t) == ev[k] <==> t == ev[k].target {}
    forall t ensures StartOf(t) != ev[k] {}
  }

  lemma StartStatus(tasks: set<Target>, ev: seq<Event>, k: nat)
    requires k < |ev| && ev[k] == StartOf(ev[k].target) && ev[k].target in tasks && ev[k] !in ev[..k]
    requires forall e :: e in ev[..k + 1] <==> e in ev[..k] || e == ev[k]
    requires StopOf(ev[k].target) in ev[..k] ==> ev[k].target.end < ev[k].target.start
    ensures Starts(tasks, ev, k)
  {
    forall t ensures StartOf(t) == ev[k] <==> t == ev[k].target {}
    forall t ensures StopOf(t) != ev[k] {}
  }

  /** Event k changes only its own target's status. */
  lemma StatusStep(tasks: set<Target>, ev: seq<Event>, k: nat)
    requires Timeline(tasks, ev) && k < |ev|
    ensures if ev[k].stop then Stops(tasks, ev, k) else Starts(tasks, ev, k)
  {
    hide Stops, Starts, Ordered, Distinct;
    NotYet(ev, k);
    InTasks(tasks, ev, k);
    hide Timeline;
    if ev[k].stop {
      StartBehind(tasks, ev, k);
      StopStatus(tasks, ev, k);
    } else {
      StopBehind(tasks, ev, k);
      StartStatus(tasks, ev, k);
    }
  }

  lemma SweepInit(tasks: set<Target>, ev: seq<Event>)
    ensures Running(tasks, ev, 0) == {} && Stopped(tasks, ev, 0) == {}
    ensures forall t :: Share(tasks, t, Times(ev)[..0]) == 0.0
    ensures SweptTo(tasks, ev, 0, map[], 0.0, 0.0)
  {
    assert ev[..0] == [];
  }

  /** After the last event every task has stopped. */
  lemma SweepEnd(tasks: set<Target>, ev: seq<Event>)
    requires Timeline(tasks, ev)
    ensures Running(tasks, ev, |ev|) == {} && Stopped(tasks, ev, |ev|) == tasks
    ensures Times(ev)[..|ev|] == Times(ev)
  {
    assert ev[..|ev|] == ev;
  }

  lemma InTasks(tasks: set<Target>, ev: seq<Event>, k: nat)
    requires Timeline(tasks, ev) && k < |ev|
    ensures ev[k].target in tasks
    ensures ev[k] == if ev[k].stop then StopOf(ev[k].target) else StartOf(ev[k].target)
  {
  }

  /** The accounts after k events are exactly the shares of the time passed so far. */
  ghost predicate SweptTo(tasks: set<Target>, ev: seq<Event>, k: nat, running: map<Target, real>, weighted: real,
                          total: real)
    requires k <= |ev|
  {
    var g := Times(ev)[..k];
    && running.Keys == Running(tasks, ev, k)
    && (forall t :: t in running ==> weighted - running[t] == Share(tasks, t, g))
    && (forall t :: t in tasks && StartOf(t) !in ev[..k] ==> Share(tasks, t, g) == 0.0)
    && (forall t :: t in Stopped(tasks, ev, k) ==> t.start <= t.end)
    && total == SumOver(Stopped(tasks, ev, k), Shares(tasks, g))
  }

  /** Every stopped task carries its share. */
  ghost predicate Assigned(tasks: set<Target>, ev: seq<Event>, k: nat)
    requires k <= |ev|
    reads tasks
  {
    forall t :: t in Stopped(tasks, ev, k) ==> t.weightedDuration == Share(tasks, t, Times(ev)[..k])
  }

  /** Accumulated weighted time up to event k. */
  ghost function Advanced(ev: seq<Event>, k: nat, running: map<Target, real>, weighted: real): real
    requires k < |ev|
  {
    if |running| == 0 then weighted
    else weighted + (ev[k].time - ev[if k == 0 then 0 else k - 1].time) / |running| as real
  }

  /** Passing the time up to event k keeps every account exact. */
  lemma Advance(tasks: set<Target>, ev: seq<Event>, k: nat, running: map<Target, real>, weighted: real, total: real)
    requires Timeline(tasks, ev) && k < |ev| && SweptTo(tasks, ev, k, running, weighted, total)
    ensures var g := Times(ev)[..k + 1];
      && (forall t :: t in running ==> Advanced(ev, k, running, weighted) - running[t] == Share(tasks, t, g))
      && (forall t :: t in tasks && StartOf(t) !in ev[..k] ==> Share(tasks, t, g) == 0.0)
      && (forall t :: t in Stopped(tasks, ev, k) ==> Share(tasks, t, g) == Share(tasks, t, Times(ev)[..k]))
      && total == SumOver(Stopped(tasks, ev, k), Shares(tasks, g))
  {
    hide Timeline, Share;
    var g, h := Times(ev)[..k + 1], Times(ev)[..k];
    assert |running| == |running.Keys|;
    if k == 0 { assert Running(tasks, ev, k) == {}; }
    forall t ensures Share(tasks, t, g) == Share(tasks, t, h) + Gain(tasks, ev, k, t) {
      ShareStep(tasks, ev, k, t);
    }
    SumOverExt(Stopped(tasks, ev, k), Shares(tasks, h), Shares(tasks, g));
  }

  lemma StartStep(tasks: set<Target>, ev: seq<Event>, k: nat, running: map<Target, real>, weighted: real, total: real)
    requires Timeline(tasks, ev) && k < |ev| && SweptTo(tasks, ev, k, running, weighted, total) && !ev[k].stop
    ensures var w := Advanced(ev, k, running, weighted);
      SweptTo(tasks, ev, k + 1, running[ev[k].target := w], w, total)
    ensures Stopped(tasks, ev, k + 1) == Stopped(tasks, ev, k)
  {
    hide Timeline, Share, Running, Stopped, Advanced, SumOver;
    Advance(tasks, ev, k, running, weighted, total);
    StatusStep(tasks, ev, k);
    InTasks(tasks, ev, k);
    assert ev[..k + 1] == ev[..k] + [ev[k]];
  }

  lemma StopStep(tasks: set<Target>, ev: seq<Event>, k: nat, running: map<Target, real>, weighted: real, total: real)
    requires Timeline(tasks, ev) && k < |ev| && SweptTo(tasks, ev, k, running, weighted, total)
    requires ev[k].stop && ev[k].target in running
    ensures var w, t := Advanced(ev, k, running, weighted), ev[k].target;
      && SweptTo(tasks, ev, k + 1, running - {t}, w, total + (w - running[t]))
      && w - running[t] == Share(tasks, t, Times(ev)[..k + 1])
      && Stopped(tasks, ev, k + 1) == Stopped(tasks, ev, k) + {t}
  {
    hide Timeline, Share, Running, Stopped, Advanced, SumOver;
    Advance(tasks, ev, k, running, weighted, total);
    StatusStep(tasks, ev, k);
    InTasks(tasks, ev, k);
    var t, f := ev[k].target, Shares(tasks, Times(ev)[..k + 1]);
    SumOverRemove(Stopped(tasks, ev, k + 1), f, t);
    assert Stopped(tasks, ev, k + 1) - {t} == Stopped(tasks, ev, k);
    assert f(t) == Share(tasks, t, Times(ev)[..k + 1]);
  }

  /** One pass over the sorted events. It fails with a missing key exactly when some step ends
      before it starts; otherwise every step gets its share of wall time and the total is the
      time in which something ran. */
  method Sweep(entries: seq<Target>, ev: seq<Event>) returns (ok: bool, total: real)
    requires Timeline(ToSet(entries), ev) && |ev| > 0
    modifies ToSet(entries)`weightedDuration
    ensures ok <==> forall t :: t in entries ==> t.start <= t.end
    ensures ok ==> forall t :: t in entries ==> t.weightedDuration == Share(ToSet(entries), t, Times(ev))
    ensures ok ==> total == Busy(ToSet(entries), Times(ev))
  {
    hide Timeline, Share, Running, Stopped, SweptTo, SumOver;
    ghost var tasks := ToSet(entries);
    var running: map<Target, real> := map[];
    var last, weighted := ev[0].time, 0.0;
    total := 0.0;
    SweepInit(tasks, ev);
    for k := 0 to |ev|
      invariant last == ev[if k == 0 then 0 else k - 1].time
      invariant SweptTo(tasks, ev, k, running, weighted, total)
      invariant Assigned(tasks, ev, k)
    {
      var t := ev[k].target;
      InTasks(tasks, ev, k);
      StatusStep(tasks, ev, k);
      Advance(tasks, ev, k, running, weighted, total);
      ghost var w0, running0 := weighted, running;
      if |running| > 0 {
        weighted := weighted + (ev[k].time - last) / |running| as real;
      }
      assert weighted == Advanced(ev, k, running0, w0);
      if !ev[k].stop {
        StartStep(tasks, ev, k, running, w0, total);
        running := running[t := weighted];
      } else {
        if t !in running {
          KeysOf(tasks, ev, k, running, w0, total);
          return false, total;
        }
        StopStep(tasks, ev, k, running, w0, total);
        var w := weighted - running[t];
        t.weightedDuration := w;
        total := total + w;
        running := running - {t};
      }
      last := ev[k].time;
    }
    SweepEnd(tasks, ev);
    KeysOf(tasks, ev, |ev|, running, weighted, total);
    Conservation(tasks, Times(ev));
    assert |running| == |running.Keys| == 0;
    ok := true;
  }

  lemma KeysOf(tasks: set<Target>, ev: seq<Event>, k: nat, running: map<Target, real>, weighted: real, total: real)
    requires k <= |ev| && SweptTo(tasks, ev, k, running, weighted, total)
    ensures running.Keys == Running(tasks, ev, k)
    ensures forall t :: t in Stopped(tasks, ev, k) ==> t.start <= t.end
    ensures total == SumOver(Stopped(tasks, ev, k), Shares(tasks, Times(ev)[..k]))
  {
  }

  // ---- the summary --------------------------------------------------------

  /** What SummarizeEntries ends with: the figures it prints, or the exception it raises. */
  datatype Outcome =
    | Summary(length: real, weightedTotal: real, cpuTime: real, warned: bool)
    | IndexError
    | KeyError
    | ZeroDivisionError

  /** Every step of the set carries its fair share of wall time, however the axis is cut. */
  ghost predicate FairlyWeighted(tasks: set<Target>)
    reads tasks
  {
    forall grid, t :: IsGrid(tasks, grid) && t in tasks ==> t.weightedDuration == Share(tasks, t, grid)
  }

  ghost predicate WellTimed(tasks: set<Target>)
  {
    forall t :: t in tasks ==> t.start <= t.end
  }

  ghost function DurationOf(): Target -> real { (t: Target) => t.Duration() }

  ghost function StartTime(): Target -> real { (t: Target) => t.start }

  ghost function EndTime(): Target -> real { (t: Target) => t.end }

  /** The sum of durations is the sum of the ends less the sum of the starts. */
  lemma CpuTime(tasks: set<Target>)
    ensures SumOver(tasks, DurationOf()) == SumOver(tasks, EndTime()) - SumOver(tasks, StartTime())
  {
    SumOverAdd(tasks, DurationOf(), StartTime());
    SumOverExt(tasks, Plus(DurationOf(), StartTime()), EndTime());
  }

  /** latest is the greatest end, or 0 if none is positive. */
  ghost predicate IsLatest(entries: seq<Target>, latest: real)
  {
    && 0.0 <= latest && (forall t :: t in entries ==> t.end <= latest)
    && (latest == 0.0 || exists t :: t in entries && t.end == latest)
  }

  /** No entry from the j-th on starts below zero. */
  ghost predicate NonNegativeFrom(entries: seq<Target>, j: nat)
  {
    forall i :: j <= i < |entries| ==> 0.0 <= entries[i].start
  }

  /** What the loop makes of the starts. It begins again after a negative one, so earliest is the
      least start after the last negative one, or that one itself if it comes last. */
  ghost predicate IsEarliest(entries: seq<Target>, earliest: real)
  {
    if entries == [] then earliest == -1.0
    else if entries[|entries| - 1].start < 0.0 then earliest == entries[|entries| - 1].start
    else
      && (exists k: nat :: k < |entries| && NonNegativeFrom(entries, k) && entries[k].start == earliest)
      && (forall j: nat :: j < |entries| && NonNegativeFrom(entries, j) ==> earliest <= entries[j].start)
  }

  /** Latest end less earliest start. */
  ghost predicate IsLength(entries: seq<Target>, length: real)
  {
    exists earliest, latest :: IsEarliest(entries, earliest) && IsLatest(entries, latest) && length == latest - earliest
  }

  /** The length is determined, negative starts or not. */
  lemma OneLength(entries: seq<Target>, a: real, b: real)
    requires IsLength(entries, a) && IsLength(entries, b)
    ensures a == b
  {
    var e, l :| IsEarliest(entries, e) && IsLatest(entries, l) && a == l - e;
    var f, m :| IsEarliest(entries, f) && IsLatest(entries, m) && b == m - f;
    assert e <= f <= e;
    assert l <= m <= l;
  }

  lemma OnlyLength(entries: seq<Target>, a: real)
    requires IsLength(entries, a)
    ensures forall b :: IsLength(entries, b) <==> b == a
  {
    hide IsLength;
    forall b | IsLength(entries, b) ensures b == a { OneLength(entries, a, b); }
  }

  /** With no negative start, earliest is the least start of all. */
  lemma LeastStart(entries: seq<Target>, earliest: real)
    requires entries != [] && IsEarliest(entries, earliest) && forall t :: t in entries ==> 0.0 <= t.start
    ensures (forall t :: t in entries ==> earliest <= t.start) && exists t :: t in entries && t.start == earliest
  {
    forall t | t in entries ensures earliest <= t.start {
      var j: nat :| j < |entries| && entries[j] == t;
      assert NonNegativeFrom(entries, j);
    }
    var k: nat :| k < |entries| && NonNegativeFrom(entries, k) && entries[k].start == earliest;
    assert entries[k] in entries;
  }

  lemma LatestStep(init: seq<Target>, t: Target, latest: real)
    requires IsLatest(init, latest)
    ensures IsLatest(init + [t], if t.end > latest then t.end else latest)
  {
    assert forall u :: u in init + [t] <==> u in init || u == t;
  }

  lemma NonNegativeSnoc(init: seq<Target>, t: Target, j: nat)
    requires t.start >= 0.0
    ensures NonNegativeFrom(init + [t], j) <==> NonNegativeFrom(init, j)
  {
    var next := init + [t];
    if NonNegativeFrom(next, j) {
      forall i | j <= i < |init| ensures 0.0 <= init[i].start { assert next[i] == init[i]; }
    }
  }

  lemma EarliestStep(init: seq<Target>, t: Target, earliest: real)
    requires IsEarliest(init, earliest)
    ensures IsEarliest(init + [t], if earliest < 0.0 || t.start < earliest then t.start else earliest)
  {
    var n, next := |init|, init + [t];
    assert next[n] == t && forall j: nat :: j < n ==> next[j] == init[j];
    if t.start >= 0.0 {
      forall j: nat ensures NonNegativeFrom(next, j) <==> NonNegativeFrom(init, j) { NonNegativeSnoc(init, t, j); }
      assert NonNegativeFrom(init, n);
      if init != [] && init[n - 1].start < 0.0 {
        assert forall j: nat :: j < n ==> !NonNegativeFrom(init, j);
      }
      hide NonNegativeFrom;
      if init != [] && init[n - 1].start >= 0.0 {
        var k: nat :| k < n && NonNegativeFrom(init, k) && init[k].start == earliest;
        assert NonNegativeFrom(next, k) && next[k].start == earliest;
      }
    }
  }

  lemma DurationStep(init: seq<Target>, t: Target)
    requires t !in init
    ensures SumOver(ToSet(init + [t]), DurationOf()) == SumOver(ToSet(init), DurationOf()) + t.Duration()
  {
    SumOverRemove(ToSet(init + [t]), DurationOf(), t);
    assert ToSet(init + [t]) - {t} == ToSet(init);
  }

  /** The first loop: earliest start, latest end, and the sum of durations. */
  method Extent(entries: seq<Target>) returns (earliest: real, latest: real, cpuTime: real)
    requires Distinct(entries)
    ensures cpuTime == SumOver(ToSet(entries), EndTime()) - SumOver(ToSet(entries), StartTime())
    ensures IsLatest(entries, latest) && IsEarliest(entries, earliest)
  {
    hide IsLatest, IsEarliest, SumOver;
    earliest, latest, cpuTime := -1.0, 0.0, 0.0;
    NoEntries();
    for i := 0 to |entries|
      invariant cpuTime == SumOver(ToSet(entries[..i]), DurationOf())
      invariant IsLatest(entries[..i], latest) && IsEarliest(entries[..i], earliest)
    {
      var t := entries[i];
      assert entries[..i + 1] == entries[..i] + [t];
      EarliestStep(entries[..i], t, earliest);
      LatestStep(entries[..i], t, latest);
      DurationStep(entries[..i], t);
      if earliest < 0.0 || t.start < earliest { earliest := t.start; }
      if t.end > latest { latest := t.end; }
      cpuTime := cpuTime + t.Duration();
    }
    assert entries[..|entries|] == entries;
    CpuTime(ToSet(entries));
  }

  lemma NoEntries()
    ensures SumOver(ToSet<Target>([]), DurationOf()) == 0.0
    ensures IsLatest([], 0.0) && IsEarliest([], -1.0)
  {
  }

  /** Whatever the entries: no entry at all, or a step ending before it starts, raises; else
      every step gets its fair share, the shares add up to the time in which something ran,
      and a length of zero raises. */
  method SummarizeEntries(entries: seq<Target>) returns (r: Outcome)
    requires Distinct(entries)
    modifies ToSet(entries)`weightedDuration
    ensures r.IndexError? <==> entries == []
    ensures r.KeyError? <==> entries != [] && !WellTimed(ToSet(entries))
    ensures r.Summary? || r.ZeroDivisionError? ==> FairlyWeighted(ToSet(entries))
    ensures r.Summary? ==>
      && (forall grid :: IsGrid(ToSet(entries), grid) ==> r.weightedTotal == Busy(ToSet(entries), grid))
      && r.cpuTime == SumOver(ToSet(entries), EndTime()) - SumOver(ToSet(entries), StartTime())
      && (r.warned <==> r.length - r.weightedTotal > 500.0 || r.weightedTotal - r.length > 500.0)
      && IsLength(entries, r.length) && r.length != 0.0
    ensures r.ZeroDivisionError? <==> entries != [] && WellTimed(ToSet(entries)) && IsLength(entries, 0.0)
    ensures r.Summary? && (forall t :: t in entries ==> 0.0 <= t.start) ==> r.weightedTotal <= r.length
  {
    hide Timeline, Share, Busy, SumOver, IsGrid, Times, Distinct;
    var earliest, latest, cpuTime := Extent(entries);
    var length := latest - earliest;
    assert IsLength(entries, length);
    if entries == [] { return IndexError; }
    ghost var tasks := ToSet(entries);
    var ev := SortEvents(Events(entries));
    TimelineOf(entries);
    assert |ev| > 0 by { SomeEvent(entries, ev); }
    var ok, total := Sweep(entries, ev);
    if !ok { return KeyError; }
    AnyGrid(tasks, ev);
    SpanBound(entries, ev, earliest, latest);
    OnlyLength(entries, length);
    if forall t :: t in entries ==> 0.0 <= t.start { LeastStart(entries, earliest); }
    hide IsEarliest, IsLatest, IsLength;
    if length == 0.0 { return ZeroDivisionError; }
    r := Summary(length, total, cpuTime, length - total > 500.0 || total - length > 500.0);
  }

  lemma SomeEvent(entries: seq<Target>, ev: seq<Event>)
    requires entries != [] && Timeline(ToSet(entries), ev)
    ensures |ev| > 0
  {
    assert entries[0] in ToSet(entries);
  }

  lemma AnyGrid(tasks: set<Target>, ev: seq<Event>)
    requires Timeline(tasks, ev)
    ensures forall grid, t :: IsGrid(tasks, grid) && t in tasks ==> Share(tasks, t, grid) == Share(tasks, t, Times(ev))
    ensures forall grid :: IsGrid(tasks, grid) ==> Busy(tasks, grid) == Busy(tasks, Times(ev))
  {
    hide *;
    var g := Times(ev);
    TimesIsGrid(tasks, ev);
    forall grid, t | IsGrid(tasks, grid) && t in tasks ensures Share(tasks, t, grid) == Share(tasks, t, g) {
      GridIndependence(tasks, t, grid, g);
    }
    forall grid | IsGrid(tasks, grid) ensures Busy(tasks, grid) == Busy(tasks, g) {
      BusyIndependence(tasks, grid, g);
    }
  }

  /** The busy time fits between the earliest start and the latest end. */
  lemma SpanBound(entries: seq<Target>, ev: seq<Event>, earliest: real, latest: real)
    requires Timeline(ToSet(entries), ev) && |ev| > 0 && WellTimed(ToSet(entries))
    ensures (forall t :: t in entries ==> earliest <= t.start) && (forall t :: t in entries ==> t.end <= latest) ==>
      Busy(ToSet(entries), Times(ev)) <= latest - earliest
  {
    hide Timeline, Busy, IsGrid, Distinct;
    var g := Times(ev);
    TimesIsGrid(ToSet(entries), ev);
    GridSorted(ToSet(entries), g);
    BusyBound(ToSet(entries), g);
    InTasks(ToSet(entries), ev, 0);
    InTasks(ToSet(entries), ev, |ev| - 1);
    assert ev[0].target in entries && ev[|ev| - 1].target in entries;
  }
}
