/** What holds over every run of the allocator: the books stay balanced whatever fails, an awake
    allocation is mapped without gap or overlap, a sleeping one holds nothing but its address
    range, and in the end the driver holds what it held at first and what the events leaked. */
module SleepRuns {
  import opened Index
  import opened SleepWorld

  ghost predicate Run(ws: seq<World>, evs: seq<Event>)
  {
    |ws| == |evs| + 1 && forall i :: 0 <= i < |evs| ==> Step(ws[i], evs[i], ws[i + 1])
  }

  ghost function Initial(base: Gpu): World { World(base, map[], EMPTY) }

  lemma InitialInv(base: Gpu)
    requires BaseSound(base)
    ensures Inv(base, Initial(base))
  {
    var w := Initial(base);
    assert Ranges(w.entries) == map[] && Handles(w.entries) == map[] && Maps(w.entries) == map[];
    assert base.Plus(EMPTY) == base;
  }

  /** The invariant holds in every state of every run. */
  lemma {:induction false} RunKeeps(base: Gpu, ws: seq<World>, evs: seq<Event>, n: nat)
    requires BaseSound(base) && Run(ws, evs) && ws[0] == Initial(base) && n < |ws|
    ensures Inv(base, ws[n])
  {
    hide Inv, Step, BaseSound, Initial;
    if n == 0 {
      InitialInv(base);
    } else {
      RunKeeps(base, ws, evs, n - 1);
      StepKeeps(base, ws[n - 1], evs[n - 1], ws[n]);
    }
  }

  /** Everything that the first n events leaked. */
  ghost function LostBy(ws: seq<World>, evs: seq<Event>, n: nat): Gpu
    requires n <= |evs| && n <= |ws|
  {
    if n == 0 then EMPTY else LostBy(ws, evs, n - 1).Plus(Lost(ws[n - 1], evs[n - 1]))
  }

  lemma {:induction false} LeakedIsLost(base: Gpu, ws: seq<World>, evs: seq<Event>, n: nat)
    requires Run(ws, evs) && ws[0] == Initial(base) && n < |ws|
    ensures ws[n].leaked == LostBy(ws, evs, n)
  {
    hide Lost, Step;
    if n > 0 {
      LeakedIsLost(base, ws, evs, n - 1);
      StepLeaks(ws[n - 1], evs[n - 1], ws[n]);
    }
  }

  lemma StepLeaks(w: World, ev: Event, w2: World)
    requires Step(w, ev, w2)
    ensures w2.leaked == w.leaked.Plus(Lost(w, ev))
  {
    hide Lost;
  }

  lemma NoPieces<T>(total: set<T>, base: set<T>, pieces: map<nat, set<T>>)
    requires Accounts(total, base, pieces) && forall p :: p in pieces ==> pieces[p] == {}
    ensures total == base
  {
    assert Union(pieces) == {};
  }

  /** Once every allocation is freed or gone, whatever failed on the way, the driver holds what
      it held at first and what the events leaked, nothing more and nothing less. */
  lemma RunSettles(base: Gpu, ws: seq<World>, evs: seq<Event>, n: nat)
    requires BaseSound(base) && Run(ws, evs) && ws[0] == Initial(base) && n < |ws|
    requires forall p :: p in ws[n].entries ==> ws[n].entries[p].phase.Gone?
    ensures ws[n].gpu == base.Plus(LostBy(ws, evs, n))
  {
    var w := ws[n];
    hide Run, BaseSound, Initial, LostBy;
    RunKeeps(base, ws, evs, n);
    LeakedIsLost(base, ws, evs, n);
    NoPieces(w.gpu.reserved, base.reserved + w.leaked.reserved, Ranges(w.entries));
    NoPieces(w.gpu.live, base.live + w.leaked.live, Handles(w.entries));
    NoPieces(w.gpu.mapped, base.mapped + w.leaked.mapped, Maps(w.entries));
  }

  lemma {:induction false} NothingLost(ws: seq<World>, evs: seq<Event>, n: nat)
    requires n <= |evs| && n <= |ws| && forall i :: 0 <= i < n ==> Lost(ws[i], evs[i]) == EMPTY
    ensures LostBy(ws, evs, n) == EMPTY
  {
    if n > 0 { NothingLost(ws, evs, n - 1); }
  }

  /** A run in which no event leaks leaves the driver exactly as it found it. */
  lemma RunRestores(base: Gpu, ws: seq<World>, evs: seq<Event>, n: nat)
    requires BaseSound(base) && Run(ws, evs) && ws[0] == Initial(base) && n < |ws|
    requires forall i :: 0 <= i < n ==> Lost(ws[i], evs[i]) == EMPTY
    requires forall p :: p in ws[n].entries ==> ws[n].entries[p].phase.Gone?
    ensures ws[n].gpu == base
  {
    hide Initial, Lost, Step;
    RunSettles(base, ws, evs, n);
    NothingLost(ws, evs, n);
    assert base.Plus(EMPTY) == base;
  }

  /** While an allocation holds its range, no event changes its address, size or chunks. */
  lemma PlanIsFixed(base: Gpu, w: World, ev: Event, w2: World, p: nat)
    requires Inv(base, w) && Step(w, ev, w2)
    requires p in w.entries && !w.entries[p].phase.Gone? && p in w2.entries
    ensures w2.entries[p].size == w.entries[p].size && w2.entries[p].chunks == w.entries[p].chunks
  {
    hide Inv;
    if (ev.Malloc? || ev.MallocFailed?) && ev.p == p {
      FreshEntry(base, w, p, ev.e.size);
    }
  }

  /** Over any stretch of a run in which an allocation holds its range, through any number of
      sleeps and wakes and whatever happens to others, its size and chunks stay the same. */
  lemma {:induction false} PlanOverRun(base: Gpu, ws: seq<World>, evs: seq<Event>, p: nat, m: nat, n: nat)
    requires BaseSound(base) && Run(ws, evs) && ws[0] == Initial(base) && m <= n < |ws|
    requires forall i :: m <= i <= n ==> p in ws[i].entries && !ws[i].entries[p].phase.Gone?
    ensures ws[n].entries[p].size == ws[m].entries[p].size && ws[n].entries[p].chunks == ws[m].entries[p].chunks
  {
    hide Inv, Step, BaseSound;
    if m < n {
      PlanOverRun(base, ws, evs, p, m, n - 1);
      RunKeeps(base, ws, evs, n - 1);
      PlanIsFixed(base, ws[n - 1], evs[n - 1], ws[n], p);
    }
  }

  // ---- geometry -----------------------------------------------------------

  /** The chunk that holds offset x. */
  lemma {:induction false} ChunkHolding(sizes: seq<nat>, x: nat) returns (i: nat)
    requires x < Total(sizes)
    ensures i < |sizes| && Offset(sizes, i) <= x < Offset(sizes, i) + sizes[i]
  {
    var n := |sizes| - 1;
    if Total(sizes[..n]) <= x {
      i := n;
    } else {
      i := ChunkHolding(sizes[..n], x);
      assert sizes[..n][..i] == sizes[..i];
    }
  }

  lemma OneChunkHolds(sizes: seq<nat>, x: nat, i: nat, j: nat)
    requires i < |sizes| && j < |sizes|
    requires Offset(sizes, i) <= x < Offset(sizes, i) + sizes[i]
    requires Offset(sizes, j) <= x < Offset(sizes, j) + sizes[j]
    ensures i == j
  {
    hide Offset;
    OffsetStep(sizes, i);
    OffsetStep(sizes, j);
    if i < j { OffsetBetween(sizes, i + 1, j); }
    if j < i { OffsetBetween(sizes, j + 1, i); }
  }

  /** What an allocation maps lies inside its range. */
  lemma MapInside(p: nat, e: Entry, m: Mapping)
    requires Plausible(p, e) && m in EntryMaps(p, e)
    ensures Range(p, e.size).Contains(m.addr, m.size) && m.size > 0 && !e.phase.Gone?
  {
    MapsInPlace(p, e);
    PlaceInside(p, e.size, e.chunks, m);
  }

  /** Every mapping of the driver lies in one reserved range: its allocation's, or one that no
      allocation holds. */
  lemma MapHome(base: Gpu, w: World, m: Mapping) returns (r: Range)
    requires Inv(base, w) && BaseSound(base) && m in w.gpu.mapped
    ensures r in w.gpu.reserved && r.Contains(m.addr, m.size) && m.size > 0
    ensures r in base.reserved + w.leaked.reserved
         || exists p :: p in w.entries && m in EntryMaps(p, w.entries[p]) && r == Range(p, w.entries[p].size)
  {
    if m in base.mapped + w.leaked.mapped {
      r :| r in base.reserved + w.leaked.reserved && r.Contains(m.addr, m.size);
    } else {
      var p :| p in Maps(w.entries) && m in Maps(w.entries)[p];
      MapInside(p, w.entries[p], m);
      Held(base, w, p);
      r := Range(p, w.entries[p].size);
    }
  }

  /** A mapping that touches an allocation's range belongs to that allocation. */
  lemma TouchingMap(base: Gpu, w: World, p: nat, m: Mapping)
    requires Inv(base, w) && BaseSound(base) && p in w.entries && !w.entries[p].phase.Gone?
    requires m in w.gpu.mapped && m.Overlaps(p, w.entries[p].size)
    ensures m in EntryMaps(p, w.entries[p])
  {
    hide EntryMaps, Accounts, AtHome, BaseSound;
    var own := Range(p, w.entries[p].size);
    var r := MapHome(base, w, m);
    Held(base, w, p);
    assert own in w.gpu.reserved;
    assert r.Overlaps(own.addr, own.size);
    assert r == own;
    OwnIsOwn(base, w, p);
  }

  lemma OwnIsOwn(base: Gpu, w: World, p: nat)
    requires Inv(base, w) && p in w.entries && !w.entries[p].phase.Gone?
    ensures Range(p, w.entries[p].size) !in base.reserved + w.leaked.reserved
  {
    var own := Range(p, w.entries[p].size);
    assert own in Ranges(w.entries)[p];
    assert own in Union(Ranges(w.entries));
  }

  /** Awake: every byte of [p, p + size) is covered by exactly one mapping of the driver, one
      of the allocation's own chunks. */
  lemma AwakeTiles(base: Gpu, w: World, p: nat, a: nat) returns (m: Mapping)
    requires Inv(base, w) && BaseSound(base)
    requires p in w.entries && w.entries[p].phase.Awake? && w.entries[p].chunks != [] && p <= a < p + w.entries[p].size
    ensures m in w.gpu.mapped && m.Overlaps(a, 1) && m in EntryMaps(p, w.entries[p])
    ensures forall m2 :: m2 in w.gpu.mapped && m2.Overlaps(a, 1) ==> m2 == m
  {
    hide Accounts, Separate, AtHome, BaseSound, Offset, Inv;
    PlausibleEntry(base, w, p);
    var e := w.entries[p];
    var hs := e.phase.handles;
    var i := ChunkHolding(e.chunks, a - p);
    m := Mapping(p + Offset(e.chunks, i), e.chunks[i], hs[i]);
    assert m in EntryMaps(p, e);
    Held(base, w, p);
    forall m2 | m2 in w.gpu.mapped && m2.Overlaps(a, 1) ensures m2 == m {
      TouchingMap(base, w, p, m2);
      var j: nat :| j < |e.chunks| && m2 == Mapping(p + Offset(e.chunks, j), e.chunks[j], hs[j]);
      OneChunkHolds(e.chunks, a - p, i, j);
    }
  }

  /** An allocation that was cut into no chunks is handed out with nothing mapped in it. */
  lemma NothingMapped(base: Gpu, w: World, p: nat)
    requires Inv(base, w) && BaseSound(base)
    requires p in w.entries && w.entries[p].phase.Awake? && w.entries[p].chunks == []
    ensures forall m :: m in w.gpu.mapped ==> !m.Overlaps(p, w.entries[p].size)
  {
    PlausibleEntry(base, w, p);
    hide Inv, BaseSound;
    forall m | m in w.gpu.mapped ensures !m.Overlaps(p, w.entries[p].size) {
      if m.Overlaps(p, w.entries[p].size) { TouchingMap(base, w, p, m); }
    }
  }

  /** Asleep: the range is still reserved, but nothing is mapped in it and the allocation
      holds no handle. */
  lemma AsleepHoldsRange(base: Gpu, w: World, p: nat)
    requires Inv(base, w) && BaseSound(base) && p in w.entries && w.entries[p].phase.Asleep()
    ensures Range(p, w.entries[p].size) in w.gpu.reserved
    ensures forall m :: m in w.gpu.mapped ==> !m.Overlaps(p, w.entries[p].size)
    ensures EntryHandles(w.entries[p]) == {}
  {
    hide Accounts, Separate, AtHome, BaseSound;
    Held(base, w, p);
    forall m | m in w.gpu.mapped ensures !m.Overlaps(p, w.entries[p].size) {
      if m.Overlaps(p, w.entries[p].size) { TouchingMap(base, w, p, m); }
    }
  }

  // ---- what the books determine -------------------------------------------

  /** The same table and the same leaks leave only one state of the driver. */
  lemma SameBooks(base: Gpu, w: World, w2: World)
    requires Inv(base, w) && w2.entries == w.entries && w2.leaked == w.leaked
    ensures Inv(base, w2) <==> w2.gpu == w.gpu
  {
    if w2.gpu == w.gpu { assert w2 == w; }
    hide Separate, AtHome, Plausible, Union;
  }

  lemma DroppedBooks(base: Gpu, w: World, p: nat, w2: World)
    requires Inv(base, w) && p in w.entries && w.entries[p].phase.Gone?
    requires w2.entries == w.entries - {p} && w2.leaked == w.leaked
    ensures Inv(base, w2) <==> w2.gpu == w.gpu
  {
    hide Inv;
    DropGone(base, w, p);
    SameBooks(base, w.(entries := w.entries - {p}), w2);
  }

  // ---- stale handles ------------------------------------------------------

  /** Everything live that entry p does not hold is held by the base, leaked, or another's. */
  lemma SomeoneHolds(base: Gpu, w: World, p: nat, h: nat)
    requires Inv(base, w) && p in w.entries && h in w.gpu.live && h !in EntryHandles(w.entries[p])
    ensures h in base.live + w.leaked.live || exists q :: q in w.entries && q != p && h in EntryHandles(w.entries[q])
  {
    if h !in base.live + w.leaked.live {
      var q :| q in Handles(w.entries) && h in Handles(w.entries)[q];
      assert q in w.entries && h in EntryHandles(w.entries[q]);
    }
  }

  lemma MissingHandle(base: Gpu, w: World, h: nat)
    requires h !in w.gpu.live
    requires h in base.live + w.leaked.live || exists q :: q in w.entries && h in EntryHandles(w.entries[q])
    ensures !Inv(base, w)
  {
    if h !in base.live + w.leaked.live {
      var q :| q in w.entries && h in EntryHandles(w.entries[q]);
      assert h in Handles(w.entries)[q];
      assert h in Union(Handles(w.entries));
    }
  }

  /** Freeing an allocation, or putting it to sleep, keeps the books balanced exactly if no handle
      is released that the allocation does not hold. */
  lemma StaleIff(base: Gpu, w: World, p: nat, torn: Torn, given: bool, free: bool, w2: World)
    requires Inv(base, w) && torn.released <= w.gpu.live
    requires if free then Freed(w, p, torn, given, w2) else Slept(w, p, torn, w2)
    ensures Inv(base, w2) <==> torn.released <= EntryHandles(w.entries[p])
  {
    hide Inv;
    var ev := if free then Free(p, torn, given) else Sleep(p, torn);
    if torn.released <= EntryHandles(w.entries[p]) {
      assert Step(w, ev, w2);
      StepKeeps(base, w, ev, w2);
    } else {
      var h :| h in torn.released && h !in EntryHandles(w.entries[p]);
      SomeoneHolds(base, w, p, h);
      assert h in base.live + w.leaked.live ==> h in base.live + w2.leaked.live;
      forall q | q in w.entries && q != p ensures q in w2.entries && w2.entries[q] == w.entries[q] {}
      MissingHandle(base, w2, h);
    }
  }

  /** It does happen: once the driver gives the value of a released handle to another
      allocation, freeing the sleeping one takes that allocation's memory away. */
  lemma StaleRelease() returns (ws: seq<World>, evs: seq<Event>, torn: Torn, w: World)
    ensures Run(ws, evs) && |evs| == 3 && ws[0] == Initial(EMPTY)
    ensures 0 in ws[1].entries && ws[1].entries[0].phase == Awake([7])
    ensures 0 in ws[3].entries && ws[3].entries[0].phase.Asleep()
    ensures 8 in ws[3].entries && ws[3].entries[8].phase == Awake([7])
    ensures torn.released == {7} <= ws[3].gpu.live && Freed(ws[3], 0, torn, true, w)
    ensures 8 in w.entries && w.entries[8].phase == Awake([7]) && 7 !in w.gpu.live
  {
    hide Offset, ChunkMaps, SetOf, InPlace, Total;
    var e := Entry(8, [8], Awake([7]));
    var asleep := Entry(8, [8], Holding({}, {}));
    var m0, m8 := Mapping(0, 8, 7), Mapping(8, 8, 7);
    OneChunk(0, 8, 7);
    OneChunk(8, 8, 7);
    var r0, r8 := Range(0, 8), Range(8, 8);
    var w0 := Initial(EMPTY);
    var w1 := World(Gpu({r0}, {7}, {m0}), map[0 := e], EMPTY);
    var w2 := World(Gpu({r0}, {}, {}), map[0 := asleep], EMPTY);
    var w3 := World(Gpu({r0, r8}, {7}, {m8}), map[0 := asleep, 8 := e], EMPTY);
    var w4 := World(Gpu({r8}, {}, {m8}), map[8 := e], EMPTY);
    var slept := Torn({m0}, {7}, false, {});
    torn := Torn({}, {7}, false, {});
    assert Step(w0, Malloc(0, e), w1);
    assert Step(w1, Sleep(0, slept), w2);
    assert Step(w2, Malloc(8, e), w3);
    assert Freed(w3, 0, torn, true, w4);
    ws, evs, w := [w0, w1, w2, w3], [Malloc(0, e), Sleep(0, slept), Malloc(8, e)], w4;
  }

  /** An allocation whose range was lost is still in the table; here another allocation has a chunk
      where its chunk was, so that tearing down the lost one would unmap it. */
  lemma LostRangeTaken() returns (ws: seq<World>, evs: seq<Event>, m: Mapping)
    ensures Run(ws, evs) && |evs| == 3 && ws[0] == Initial(EMPTY)
    ensures 8 in ws[3].entries && ws[3].entries[8] == Entry(8, [8], Gone)
    ensures 0 in ws[3].entries && ws[3].entries[0] == Entry(16, [8, 8], Awake([1, 2]))
    ensures m in EntryMaps(0, ws[3].entries[0]) && m in ws[3].gpu.mapped && InPlace(8, [8], m)
  {
    hide Offset, ChunkMaps, SetOf, InPlace, Total;
    var e, gone, other := Entry(8, [8], Awake([7])), Entry(8, [8], Gone), Entry(16, [8, 8], Awake([1, 2]));
    var m7, m1 := Mapping(8, 8, 7), Mapping(0, 8, 1);
    m := Mapping(8, 8, 2);
    OneChunk(8, 8, 7);
    TwoChunks(0, 8, 1, 2);
    var r8, r0 := Range(8, 8), Range(0, 16);
    var w0 := Initial(EMPTY);
    var w1 := World(Gpu({r8}, {7}, {m7}), map[8 := e], EMPTY);
    var w2 := World(EMPTY, map[8 := gone], EMPTY);
    var w3 := World(Gpu({r0}, {1, 2}, {m1, m}), map[8 := gone, 0 := other], EMPTY);
    var torn := Torn({m7}, {7}, true, {});
    assert Step(w0, Malloc(8, e), w1);
    assert Step(w1, Sleep(8, torn), w2);
    assert Step(w2, Malloc(0, other), w3);
    OneChunk(8, 8, 2);
    ws, evs := [w0, w1, w2, w3], [Malloc(8, e), Sleep(8, torn), Malloc(0, other)];
  }

  lemma TwoChunks(p: nat, size: nat, g: nat, h: nat)
    requires size > 0 && g != h
    ensures var e := Entry(2 * size, [size, size], Awake([g, h]));
      && Plausible(p, e) && EntryHandles(e) == {g, h} && EntryRanges(p, e) == {Range(p, 2 * size)}
      && EntryMaps(p, e) == {Mapping(p, size, g), Mapping(p + size, size, h)}
  {
    var sizes := [size, size];
    assert sizes[..0] == [] && sizes[..1] == [size] && sizes[..2] == sizes && [size][..0] == [];
    assert Total([size]) == size && Total(sizes) == 2 * size;
    assert Offset(sizes, 0) == 0 && Offset(sizes, 1) == size;
    hide Offset;
    assert ChunkMaps(p, sizes, [g, h]) == {Mapping(p, size, g), Mapping(p + size, size, h)};
    assert SetOf([g, h]) == {g, h};
  }

  lemma OneChunk(p: nat, size: nat, h: nat)
    requires size > 0
    ensures var e := Entry(size, [size], Awake([h]));
      && Plausible(p, e) && EntryHandles(e) == {h} && EntryRanges(p, e) == {Range(p, size)}
      && EntryMaps(p, e) == {Mapping(p, size, h)} && InPlace(p, [size], Mapping(p, size, h))
  {
    assert [size][..0] == [];
    assert [size][..1] == [size];
    assert Offset([size], 0) == 0;
    assert ChunkMaps(p, [size], [h]) == {Mapping(p, size, h)};
    assert SetOf([h]) == {h};
  }
}
