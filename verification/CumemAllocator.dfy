/** The chunked device-memory allocator on its ROCm path: the sticky error code, rollback, sleep,
    wake and free, over a driver whose calls may fail. */
module CumemAllocator {
  import opened ChunkPlan
  import opened Index
  import opened Unique
  import opened SleepWorld
  import opened SleepRuns
  import opened CumemDriver

  // ---- mapping the chunks -------------------------------------------------

  /** Chunk i of an allocation, once mapped. */
  ghost function Chunk(t: Tuple, hs: seq<nat>, i: nat): Mapping
    requires i < |t.chunks| && i < |hs|
  {
    Mapping(t.addr + Offset(t.chunks, i), t.chunks[i], hs[i])
  }

  /** The first n chunks. */
  ghost function FirstChunks(t: Tuple, hs: seq<nat>, n: nat): set<Mapping>
    requires n <= |t.chunks| && n <= |hs|
  {
    set i: nat | i < n :: Chunk(t, hs, i)
  }

  lemma OneMoreChunk(t: Tuple, hs: seq<nat>, n: nat)
    requires n < |t.chunks| && n < |hs|
    ensures FirstChunks(t, hs, n + 1) == FirstChunks(t, hs, n) + {Chunk(t, hs, n)}
  {
    hide Offset;
    assert Chunk(t, hs, n) in FirstChunks(t, hs, n + 1);
  }

  lemma AllChunks(t: Tuple, hs: seq<nat>)
    requires |hs| == |t.chunks|
    ensures FirstChunks(t, hs, |t.chunks|) == ChunkMaps(t.addr, t.chunks, hs)
    ensures forall m :: m in ChunkMaps(t.addr, t.chunks, hs) ==> InPlace(t.addr, t.chunks, m)
  {
    hide Offset;
    forall m ensures m in FirstChunks(t, hs, |t.chunks|) <==> m in ChunkMaps(t.addr, t.chunks, hs) {
      if m in ChunkMaps(t.addr, t.chunks, hs) {
        var i: nat :| i < |t.chunks| && m == Mapping(t.addr + Offset(t.chunks, i), t.chunks[i], hs[i]);
        assert m == Chunk(t, hs, i);
      }
    }
  }

  /** Where nothing was mapped before, the first places hold exactly the first chunks. */
  lemma OnlyChunks(t: Tuple, hs: seq<nat>, mapped: set<Mapping>, n: nat)
    requires n <= |t.chunks| && n <= |hs| && t.Placed(mapped, n) == {}
    ensures t.Placed(mapped + FirstChunks(t, hs, n), n) == FirstChunks(t, hs, n)
  {
    var all := mapped + FirstChunks(t, hs, n);
    PlacedAt(t, mapped, n);
    PlacedAt(t, all, n);
    hide Offset, Tuple.Placed;
    forall m | m in FirstChunks(t, hs, n) ensures m in t.Placed(all, n) {
      var i: nat :| i < n && m == Chunk(t, hs, i);
      assert m in t.Spot(all, i);
    }
    PlacedAmong(t, all, mapped, n);
    forall m | m in t.Placed(all, n) ensures m in all {
      var i: nat :| i < n && m in t.Spot(all, i);
    }
    NothingCommon(t.Placed(all, n), mapped);
  }

  lemma NothingCommon<T>(a: set<T>, b: set<T>)
    requires a * b == {}
    ensures a !! b
  {
    assert forall x :: x in a && x in b ==> x in a * b;
  }

  lemma {:induction false} PlacedAmong(t: Tuple, all: set<Mapping>, mapped: set<Mapping>, n: nat)
    requires n <= |t.chunks| && mapped <= all
    ensures t.Placed(all, n) * mapped == t.Placed(mapped, n)
  {
    hide Offset;
    if n > 0 { PlacedAmong(t, all, mapped, n - 1); }
  }

  /** A tuple as my_malloc makes it. */
  ghost predicate Planned(t: Tuple) { Cut(t.size, t.chunks) }

  lemma ChunkInside(t: Tuple, hs: seq<nat>, i: nat)
    requires Planned(t) && i < |t.chunks| && i < |hs|
    ensures InPlace(t.addr, t.chunks, Chunk(t, hs, i))
    ensures Range(t.addr, t.size).Contains(Chunk(t, hs, i).addr, t.chunks[i])
  {
    hide Offset, Total;
    PlaceInside(t.addr, t.size, t.chunks, Chunk(t, hs, i));
  }

  /** The next chunk is behind the chunks before it. */
  lemma ChunkBehind(t: Tuple, hs: seq<nat>, n: nat)
    requires Planned(t) && n < |t.chunks| && n < |hs|
    ensures forall m :: m in FirstChunks(t, hs, n) ==> !m.Overlaps(Chunk(t, hs, n).addr, t.chunks[n])
  {
    hide Offset, Total;
    forall i: nat | i < n ensures !Chunk(t, hs, i).Overlaps(Chunk(t, hs, n).addr, t.chunks[n]) {
      PlacesGrow(t.chunks, i, n);
    }
  }

  // ---- the table ----------------------------------------------------------

  /** Entry e is what the tuple and the cells say: while the range is held there is a cell for
      every chunk, and the handles held are in the cells. */
  ghost predicate Matches(t: Tuple, p: nat, e: Entry, cells: map<nat, seq<nat>>)
  {
    && Planned(t) && t.addr == p && e.size == t.size && e.chunks == t.chunks
    && (!e.phase.Gone? ==> p in cells && |cells[p]| == |t.chunks|)
    && (e.phase.Awake? ==> e.phase.handles == cells[p])
    && (e.phase.Holding? ==> e.phase.held <= SetOf(cells[p]))
  }

  ghost predicate AllMatch(table: map<nat, Tuple>, entries: map<nat, Entry>, cells: map<nat, seq<nat>>)
  {
    entries.Keys == table.Keys && forall p :: p in table ==> Matches(table[p], p, entries[p], cells)
  }

  lemma MatchPut(table: map<nat, Tuple>, entries: map<nat, Entry>, cells: map<nat, seq<nat>>,
                 p: nat, t: Tuple, e: Entry, cells2: map<nat, seq<nat>>)
    requires AllMatch(table, entries, cells) && Matches(t, p, e, cells2)
    requires forall q :: q != p ==> (q in cells <==> q in cells2) && (q in cells ==> cells[q] == cells2[q])
    ensures AllMatch(table[p := t], entries[p := e], cells2)
  {
    forall q | q in table && q != p ensures Matches(table[q], q, entries[q], cells2) {
      assert Matches(table[q], q, entries[q], cells);
    }
  }

  lemma MatchDrop(table: map<nat, Tuple>, entries: map<nat, Entry>, cells: map<nat, seq<nat>>, p: nat)
    requires AllMatch(table, entries, cells)
    ensures AllMatch(table - {p}, entries - {p}, cells - {p})
  {
    forall q | q in table && q != p ensures Matches(table[q], q, entries[q], cells - {p}) {
      assert Matches(table[q], q, entries[q], cells);
    }
  }

  /** What create_and_map did: whether no error was pending when the first chunk was created, how
      many creations and mappings succeeded, whether access rights were set, and what of it is
      left in the driver. */
  datatype Attempt = Attempt(contextOk: bool, created: nat, mapped: nat, accessOk: bool, left: Gpu) {
    predicate Whole(t: Tuple) { created == mapped == |t.chunks| }
  }

  /** What my_malloc returns, if it returns. */
  datatype Pointer = Null | Address(addr: nat) | DivisionByZero

  /** What a failed first creation with an error pending leaves. */
  ghost function FirstOnly(created: nat, hs: seq<nat>): Gpu
  {
    Gpu({}, if created == 1 && hs != [] then {hs[0]} else {}, {})
  }

  class Allocator {
    const driver: Driver
    var errorCode: nat
    /** The table the Python callbacks keep: address to tuple. */
    var table: map<nat, Tuple>
    /** Contents of the handle cells malloc'ed for each allocation, by its address. */
    var cells: map<nat, seq<nat>>

    /** What the driver held before this allocator existed. */
    ghost const base: Gpu
    /** The table as the runs see it. */
    ghost var entries: map<nat, Entry>
    ghost var leaked: Gpu

    constructor (driver: Driver)
      requires driver.Sound()
      ensures Valid() && this.driver == driver && errorCode == 0 && base == driver.gpu && Abs() == Initial(base)
    {
      this.driver, errorCode, table, cells := driver, 0, map[], map[];
      base, entries, leaked := driver.gpu, map[], EMPTY;
      new;
      InitialInv(base);
    }

    /** The state the runs are stated about. */
    ghost function Abs(): World
      reads this, driver`gpu
    {
      World(driver.gpu, entries, leaked)
    }

    ghost predicate Valid()
      reads this, driver`gpu, driver`access
    {
      driver.Sound() && AllMatch(table, entries, cells) && BaseSound(base) && Inv(base, Abs())
    }

    /** CUDA_CHECK: a failing status overwrites the error code, a succeeding one keeps it. */
    method Check(status: nat)
      modifies this`errorCode
      ensures errorCode == if status != 0 then status else old(errorCode)
    {
      if status != 0 { errorCode := status; }
    }

    /** ensure_context: an error stays, and a new one means that a call failed. */
    method EnsureContext()
      modifies this`errorCode, driver`faults
      ensures old(errorCode) != 0 ==> errorCode != 0
      ensures driver.faults >= old(driver.faults) &&
        (driver.faults == old(driver.faults) ==> errorCode == old(errorCode))
      ensures errorCode == 0 ==> driver.faults == old(driver.faults)
    {
      var status := driver.Query();
      Check(status);
      var current: bool := *;
      if !current {
        status := driver.Query();
        Check(status);
        status := driver.Query();
        Check(status);
      }
    }

    ghost predicate HasCells(t: Tuple)
      reads this`cells
    {
      t.addr in cells && |cells[t.addr]| == |t.chunks|
    }

    /** Creation loop of create_and_map. It runs through, with a new handle in every cell; or it
        stops at a failing creation and releases what it created; or, with an error pending on
        entry, it stops after the first creation and leaves that handle behind. */
    method CreateHandles(t: Tuple) returns (ok: bool, ghost created: nat, ghost left: set<nat>)
      requires driver.Sound() && HasCells(t)
      modifies this`errorCode, this`cells, driver`gpu, driver`faults
      ensures driver.Sound() && HasCells(t) && cells == old(cells)[t.addr := cells[t.addr]]
      ensures driver.gpu == old(driver.gpu).(live := old(driver.gpu).live + left) && left !! old(driver.gpu).live
      ensures left <= SetOf(cells[t.addr]) && (created == 0 ==> cells == old(cells) && left == {})
      ensures ok <==> created == |t.chunks| && (old(errorCode) == 0 || t.chunks == [])
      ensures ok ==> errorCode == old(errorCode) && left == SetOf(cells[t.addr]) && Distinct(cells[t.addr])
      ensures !ok ==> errorCode != 0 && t.chunks != []
      ensures !ok && old(errorCode) != 0 ==> created <= 1 && (left == if created == 1 then {cells[t.addr][0]} else {})
      ensures driver.faults >= old(driver.faults)
      ensures !ok && (old(errorCode) == 0 || created == 0) ==> driver.faults > old(driver.faults)
      ensures !ok && old(errorCode) == 0 && left != {} ==> driver.faults >= old(driver.faults) + 2
      ensures ok ==> driver.faults == old(driver.faults)
    {
      hide Driver.Sound;
      ghost var g := driver.gpu;
      var p, n := t.addr, |t.chunks|;
      created, left := 0, {};
      assert SetOf(cells[p][..0]) == {};
      for i := 0 to n
        invariant driver.Sound() && p in cells && |cells[p]| == n && cells == old(cells)[p := cells[p]]
        invariant created == i && left == SetOf(cells[p][..i])
        invariant errorCode == old(errorCode) && (i > 0 ==> errorCode == 0 && driver.faults == old(driver.faults))
        invariant i == 0 ==> cells == old(cells) && driver.faults == old(driver.faults)
        invariant Distinct(cells[p][..i]) && left !! g.live && left <= SetOf(cells[p])
        invariant driver.gpu == g.(live := g.live + left)
      {
        var status, h := driver.Create(t.chunks[i]);
        ghost var before := cells[p][..i];
        if status == 0 {
          cells, created, left := cells[p := cells[p][i := h]], i + 1, left + {h};
          assert cells[p][..i] == before;
          OneMoreHandle(cells[p], i);
          PrefixIn(cells[p], i + 1);
        }
        assert cells[p][..i] == before;
        Check(status);
        if errorCode != 0 {
          ghost var _, released, _ := ReleaseChunks(driver, cells[p], i);
          left := left - released;
          ok := false;
          return;
        }
        assert cells[p][..i + 1] == before + [h];
      }
      assert cells[p][..n] == cells[p];
      ok := true;
    }

    /** Nothing but the range: reserved, and nothing mapped in it. */
    ghost predicate RangeFree(t: Tuple)
      reads driver`gpu
    {
      driver.CanFree(t.addr, t.size)
    }

    /** Mapping loop of create_and_map: every chunk behind the one before it, or, where it fails,
        unmap what was mapped and release every handle. */
    method MapHandles(t: Tuple) returns (ok: bool, ghost mapped: nat, ghost left: Gpu)
      requires driver.Sound() && Planned(t) && HasCells(t) && (errorCode == 0 || t.chunks == [])
      requires Distinct(cells[t.addr]) && SetOf(cells[t.addr]) <= driver.gpu.live
      modifies this`errorCode, driver`gpu, driver`access, driver`faults
      ensures driver.Sound() && driver.access == old(driver.access)
      ensures left.reserved == {} && left.live <= SetOf(cells[t.addr])
      ensures left.mapped <= ChunkMaps(t.addr, t.chunks, cells[t.addr]) && left.mapped !! old(driver.gpu).mapped
      ensures driver.gpu == Gpu(old(driver.gpu).reserved, old(driver.gpu).live - SetOf(cells[t.addr]) + left.live,
                                old(driver.gpu).mapped + left.mapped)
      ensures ok <==> mapped == |t.chunks|
      ensures ok ==> errorCode == old(errorCode) && t.Placed(old(driver.gpu).mapped, |t.chunks|) == {}
      ensures ok ==> left == Gpu({}, SetOf(cells[t.addr]), ChunkMaps(t.addr, t.chunks, cells[t.addr]))
      ensures !ok ==> errorCode != 0 && t.chunks != []
      ensures driver.faults >= old(driver.faults)
      ensures !ok && left != EMPTY ==> driver.faults > old(driver.faults)
      ensures !ok && old(RangeFree(t)) ==> driver.faults >= old(driver.faults) + if left == EMPTY then 1 else 2
      ensures ok ==> driver.faults == old(driver.faults)
    {
      hide Driver.Sound, Offset, ChunkMaps, FirstChunks, Tuple.Placed, Planned;
      ghost var g := driver.gpu;
      var hs, n := cells[t.addr], |t.chunks|;
      var offset := 0;
      NoChunksYet(t, hs, g.mapped);
      AccessIsMapped(driver);
      for i := 0 to n
        invariant offset == Offset(t.chunks, i) && driver.Sound() && driver.access == old(driver.access)
        invariant errorCode == old(errorCode) && (i > 0 ==> errorCode == 0) && driver.faults == old(driver.faults)
        invariant t.Placed(g.mapped, i) == {} && FirstChunks(t, hs, i) !! g.mapped
        invariant driver.gpu == g.(mapped := g.mapped + FirstChunks(t, hs, i))
      {
        ghost var m := Chunk(t, hs, i);
        assert hs[i] in SetOf(hs);
        if old(RangeFree(t)) { MapMakesSense(driver, g, t, hs, i); }
        var status := driver.Map(t.addr + offset, t.chunks[i], hs[i]);
        Check(status);
        if errorCode != 0 {
          left := UndoMapping(t, hs, i, g);
          mapped, ok := i, false;
          return;
        }
        NewChunk(t, hs, i, g.mapped);
        OffsetStep(t.chunks, i);
        offset := offset + t.chunks[i];
      }
      AllChunks(t, hs);
      mapped, left := n, Gpu({}, SetOf(hs), ChunkMaps(t.addr, t.chunks, hs));
      assert g.live - SetOf(hs) + SetOf(hs) == g.live;
      ok := true;
    }

    /** Rollback of the mapping loop after the first n chunks. */
    method UndoMapping(t: Tuple, hs: seq<nat>, n: nat, ghost g: Gpu) returns (ghost left: Gpu)
      requires driver.Sound() && Planned(t) && n <= |t.chunks| == |hs| && Distinct(hs) && SetOf(hs) <= g.live
      requires t.Placed(g.mapped, n) == {} && FirstChunks(t, hs, n) !! g.mapped && driver.access <= g.mapped
      requires driver.gpu == g.(mapped := g.mapped + FirstChunks(t, hs, n))
      modifies driver`gpu, driver`access, driver`faults
      ensures driver.Sound() && driver.access == old(driver.access)
      ensures left.reserved == {} && left.live <= SetOf(hs)
      ensures left.mapped <= ChunkMaps(t.addr, t.chunks, hs) && left.mapped !! g.mapped
      ensures driver.gpu == Gpu(g.reserved, g.live - SetOf(hs) + left.live, g.mapped + left.mapped)
      ensures driver.faults >= old(driver.faults) + if left == EMPTY then 0 else 1
    {
      hide Driver.Sound, Offset, ChunkMaps, Tuple.Placed, Tuple.Cleared;
      OnlyChunks(t, hs, g.mapped, n);
      FirstAreChunks(t, hs, n);
      hide FirstChunks;
      ghost var first := FirstChunks(t, hs, n);
      ghost var _, unmapped, _ := UnmapChunks(driver, t, n);
      assert hs[..|hs|] == hs;
      ghost var _, released, _ := ReleaseChunks(driver, hs, |hs|);
      left := Gpu({}, SetOf(hs) - released, first - unmapped);
      assert driver.gpu.live == g.live - SetOf(hs) + left.live;
      assert driver.gpu.mapped == g.mapped + left.mapped;
      assert g.live * SetOf(hs) == SetOf(hs);
    }

    /** create_and_map. With no error pending once the context is there, it creates and maps every
        chunk, or what is left of it is what the driver refused to take back; failing access rights
        are not undone. With an error pending, only the first creation is made, and a handle it
        creates is left behind. */
    method CreateAndMap(t: Tuple) returns (ghost at: Attempt)
      requires driver.Sound() && Planned(t) && HasCells(t)
      modifies this`errorCode, this`cells, driver`gpu, driver`access, driver`faults
      ensures driver.Sound() && HasCells(t) && cells == old(cells)[t.addr := cells[t.addr]]
      ensures driver.gpu == old(driver.gpu).Plus(at.left)
      ensures at.left.reserved == {} && at.left.live !! old(driver.gpu).live && at.left.mapped !! old(driver.gpu).mapped
      ensures at.left.live <= SetOf(cells[t.addr]) && at.left.mapped <= ChunkMaps(t.addr, t.chunks, cells[t.addr])
      ensures errorCode == 0 <==> at.contextOk && at.Whole(t) && at.accessOk
      ensures at.accessOk ==> at.Whole(t) && Accessible(t)
      ensures at.Whole(t) && !at.accessOk && t.chunks != [] ==> !Accessible(t)
      ensures at.Whole(t) ==> at.left == Gpu({}, SetOf(cells[t.addr]), ChunkMaps(t.addr, t.chunks, cells[t.addr]))
      ensures at.Whole(t) ==> Distinct(cells[t.addr]) && t.Placed(old(driver.gpu).mapped, |t.chunks|) == {}
      ensures t.chunks == [] ==> at.Whole(t)
      ensures at.created == 0 ==> cells == old(cells) && (t.chunks != [] ==> at.left == EMPTY)
      ensures !at.contextOk && t.chunks != [] ==>
        at.created <= 1 && !at.Whole(t) && at.left == FirstOnly(at.created, cells[t.addr])
      ensures old(errorCode) != 0 ==> !at.contextOk
      ensures at.contextOk && !at.Whole(t) && at.left != EMPTY ==> driver.faults > old(driver.faults)
      ensures at.contextOk && !at.Whole(t) && old(RangeFree(t)) ==>
        driver.faults >= old(driver.faults) + if at.left == EMPTY then 1 else 2
      ensures driver.faults >= old(driver.faults)
      ensures driver.faults == old(driver.faults) && old(RangeFree(t)) && old(errorCode) == 0 && t.chunks != [] ==>
        errorCode == 0
      ensures driver.faults == old(driver.faults) && old(errorCode) != 0 && t.chunks != [] ==> at.created == 1
      ensures old(driver.access) <= driver.access
      ensures errorCode == 0 ==> driver.faults == old(driver.faults)
    {
      hide Driver.Sound, ChunkMaps, SetOf, Distinct, Offset, Tuple.Placed, Planned;
      ghost var g := driver.gpu;
      AccessIsMapped(driver);
      EnsureContext();
      ghost var contextOk := errorCode == 0;
      var ok;
      ghost var created, mapped, live, left;
      ok, created, live := CreateHandles(t);
      assert g.live + live == g.live + live;
      if !ok {
        at := Attempt(contextOk, created, 0, false, Gpu({}, live, {}));
        assert driver.gpu == g.Plus(at.left);
        return;
      }
      ok, mapped, left := MapHandles(t);
      at := Attempt(contextOk, created, mapped, false, left);
      assert g.live + live - live == g.live;
      assert driver.gpu == g.Plus(at.left);
      if !ok { return; }
      var status := driver.SetAccess(t.addr, t.size);
      Check(status);
      at := at.(accessOk := status == 0);
      ChunksWithin(t, cells[t.addr], driver.gpu.mapped);
      if t.chunks != [] { SomeChunk(t, cells[t.addr]); }
    }

    /** Every chunk may be read and written. */
    ghost predicate Accessible(t: Tuple)
      requires HasCells(t)
      reads this`cells, driver`access
    {
      ChunkMaps(t.addr, t.chunks, cells[t.addr]) <= driver.access
    }

    ghost function RangeOf(t: Tuple): set<Range> { {Range(t.addr, t.size)} }

    /** unmap_and_release: unmap and release every chunk whatever fails, then free and reserve the
        address range again so that the driver gives the memory back. What is not unmapped or
        released stays. Ending without an error means that all of it is gone and the range kept. */
    method UnmapAndRelease(t: Tuple) returns (ghost torn: Torn)
      requires driver.Sound() && Planned(t) && HasCells(t)
      modifies this`errorCode, driver`gpu, driver`access, driver`faults
      ensures driver.Sound() && driver.access == old(driver.access) - torn.unmapped
      ensures driver.gpu == Gpu(old(driver.gpu).reserved - (if torn.lost then RangeOf(t) else {}) + torn.stray,
                                old(driver.gpu).live - torn.released, old(driver.gpu).mapped - torn.unmapped)
      ensures torn.unmapped <= t.Placed(old(driver.gpu).mapped, |t.chunks|)
      ensures torn.released <= old(driver.gpu).live * SetOf(cells[t.addr])
      ensures torn.lost || errorCode == 0 ==>
        && t.Cleared(old(driver.gpu).mapped, torn.unmapped, |t.chunks|) && torn.released == SetOf(cells[t.addr])
        && torn.unmapped == t.Placed(old(driver.gpu).mapped, |t.chunks|)
      ensures torn.lost || errorCode == 0 ==> Range(t.addr, t.size) in old(driver.gpu).reserved
      ensures (torn.lost ==> errorCode != 0) && (torn.stray != {} ==> torn.lost)
      ensures IsStray(old(driver.gpu).reserved - RangeOf(t), t.addr, t.size, torn.stray)
      ensures old(errorCode) != 0 ==> errorCode != 0
      ensures driver.faults >= old(driver.faults)
      ensures driver.faults == old(driver.faults) ==>
        && torn.unmapped == t.Placed(old(driver.gpu).mapped, |t.chunks|) && torn.stray == {}
        && torn.released == old(driver.gpu).live * SetOf(cells[t.addr])
      ensures driver.faults == old(driver.faults) && old(errorCode) == 0 && !torn.lost && old(Holds(t)) ==>
        errorCode == 0
      ensures errorCode == 0 ==> driver.faults == old(driver.faults)
    {
      hide Driver.Sound, SetOf, Tuple.Placed, Tuple.Cleared, Planned, IsStray;
      var hs, n := cells[t.addr], |t.chunks|;
      ghost var g := driver.gpu;
      ghost var unmapped, released;
      EnsureContext();
      PlannedChunks(t);
      var firstError, second;
      ghost var unmapStatuses, releaseStatuses;
      firstError, unmapped, unmapStatuses := UnmapChunks(driver, t, n);
      if firstError == 0 {
        ClearedIsPlaced(t, g.mapped, unmapped, n);
      }
      second, released, releaseStatuses := ReleaseChunks(driver, hs, |hs|);
      assert hs[..|hs|] == hs;
      if firstError == 0 { firstError := second; }
      NoStray(g.reserved - RangeOf(t), t.addr, t.size);
      torn := Torn(unmapped, released, false, {});
      if firstError == 0 {
        ghost var lost, stray;
        firstError, lost, stray := CycleRange(t);
        torn := Torn(unmapped, released, lost, stray);
      }
      if firstError != 0 { Check(firstError); }
    }

    /** Every place is in use, every cell holds a live handle, each another one, and nothing else
        is in the range: what an awake allocation has. */
    ghost predicate Holds(t: Tuple)
      requires HasCells(t)
      reads this`cells, driver`gpu
    {
      && Range(t.addr, t.size) in driver.gpu.reserved
      && Distinct(cells[t.addr]) && SetOf(cells[t.addr]) <= driver.gpu.live
      && t.Cleared(driver.gpu.mapped, t.Placed(driver.gpu.mapped, |t.chunks|), |t.chunks|)
      && forall m :: m in driver.gpu.mapped && m.Overlaps(t.addr, t.size) ==>
        m in t.Placed(driver.gpu.mapped, |t.chunks|)
    }

    /** Free the range and reserve it again at the same address. If it comes back elsewhere that is
        an error, and if that other range cannot be freed either, it is astray. */
    method CycleRange(t: Tuple) returns (firstError: nat, ghost lost: bool, ghost stray: set<Range>)
      requires driver.Sound() && t.size > 0
      modifies this`errorCode, driver`gpu, driver`faults
      ensures driver.Sound()
      ensures driver.gpu ==
        old(driver.gpu).(reserved := old(driver.gpu).reserved - (if lost then RangeOf(t) else {}) + stray)
      ensures lost || firstError == 0 ==> Range(t.addr, t.size) in old(driver.gpu).reserved
      ensures lost ==> firstError != 0 || errorCode != 0
      ensures !lost ==> errorCode == old(errorCode)
      ensures old(errorCode) != 0 ==> errorCode != 0
      ensures IsStray(old(driver.gpu).reserved - RangeOf(t), t.addr, t.size, stray) && (stray != {} ==> lost)
      ensures driver.faults >= old(driver.faults) && (driver.faults == old(driver.faults) ==> stray == {})
      ensures driver.faults == old(driver.faults) && old(RangeFree(t)) && !lost ==> firstError == 0
      ensures firstError == 0 && errorCode == 0 ==> driver.faults == old(driver.faults)
    {
      ghost var g := driver.gpu;
      lost, stray := false, {};
      firstError := driver.AddressFree(t.addr, t.size);
      assert g.reserved - {} + {} == g.reserved;
      if firstError == 0 {
        lost := true;
        var addr;
        ghost var g2 := driver.gpu;
        assert g2.reserved == g.reserved - RangeOf(t) && AtHome(g2.mapped, g2.reserved);
        firstError, addr := driver.Reserve(t.size);
        if firstError == 0 {
          FreshIsUnmapped(g2, addr, t.size);
          FreshIsNew(g2.reserved, addr, t.size);
          if addr != t.addr {
            var status := driver.AddressFree(addr, t.size);
            if status != 0 { stray := {Range(addr, t.size)}; }
            errorCode := 1;
          } else {
            lost := false;
            assert driver.gpu.reserved == g.reserved;
          }
        }
      }
    }

    // ---- sleep, wake, free ------------------------------------------------

    /** What the driver has at the places of an allocation that holds its range is the
        allocation's own: everything if it is awake, nothing if it is asleep. */
    ghost predicate Owns(t: Tuple, e: Entry)
      reads this`cells, driver`gpu
    {
      && Planned(t) && t.size == e.size && t.chunks == e.chunks && HasCells(t) && !e.phase.Gone?
      && EntryRanges(t.addr, e) == RangeOf(t) <= driver.gpu.reserved && EntryMaps(t.addr, e) <= driver.gpu.mapped
      && t.Placed(driver.gpu.mapped, |t.chunks|) == EntryMaps(t.addr, e)
      && EntryHandles(e) <= driver.gpu.live * SetOf(cells[t.addr])
      && (e.phase.Awake? ==> Holds(t) && EntryHandles(e) == SetOf(cells[t.addr]))
    }

    lemma OwnPlaces(p: nat)
      requires Valid() && p in table && !entries[p].phase.Gone?
      ensures p in entries && table[p].addr == p && Owns(table[p], entries[p])
    {
      hide Inv, BaseSound, Driver.Sound, SetOf;
      var w, t, e := Abs(), table[p], entries[p];
      assert Matches(t, p, e, cells);
      Held(base, w, p);
      PlausibleEntry(base, w, p);
      MapsInPlace(p, e);
      AllPlaces(t, driver.gpu.mapped);
      forall m | m in driver.gpu.mapped && m.Overlaps(p, t.size)
        ensures m in EntryMaps(p, e) { TouchingMap(base, w, p, m); }
      PlacesAreOwn(t, e, driver.gpu.mapped);
      if e.phase.Awake? { EveryPlace(t, cells[p], driver.gpu.mapped); }
    }

    /** unmap_and_release on an allocation. What it takes away was at the places of its chunks, or
        in its cells; if the allocation holds its range, what was at the places is its own. */
    method TearDown(t: Tuple, ghost e: Entry) returns (ghost torn: Torn)
      requires driver.Sound() && Planned(t) && HasCells(t) && (!e.phase.Gone? ==> Owns(t, e))
      modifies this`errorCode, driver`gpu, driver`access, driver`faults
      ensures driver.Sound() && TornAt(old(driver.gpu), t, cells[t.addr], torn, driver.gpu)
      ensures !e.phase.Gone? ==> driver.gpu == AfterTear(old(driver.gpu), t.addr, e, torn)
      ensures !e.phase.Gone? ==> TearsEntry(old(driver.gpu), t.addr, e, torn)
      ensures torn.released <= old(driver.gpu).live * SetOf(cells[t.addr])
      ensures e.phase.Awake? ==> torn.released <= EntryHandles(e)
      ensures errorCode == 0 && !e.phase.Gone? ==> !torn.lost && Rest(t.addr, e, torn).phase.Asleep()
      ensures errorCode == 0 ==>
        && !torn.lost && torn.released == SetOf(cells[t.addr])
        && torn.unmapped == t.Placed(old(driver.gpu).mapped, |t.chunks|)
      ensures torn.lost || old(errorCode) != 0 ==> errorCode != 0
      ensures t.chunks != [] && t.Placed(old(driver.gpu).mapped, |t.chunks|) == {} ==>
        errorCode != 0 && torn.unmapped == {} && !torn.lost
      ensures driver.faults >= old(driver.faults)
      ensures driver.faults == old(driver.faults) ==>
        && torn.unmapped == t.Placed(old(driver.gpu).mapped, |t.chunks|) && torn.stray == {}
        && torn.released == old(driver.gpu).live * SetOf(cells[t.addr])
      ensures driver.faults == old(driver.faults) && !e.phase.Gone? ==>
        EntryMaps(t.addr, e) <= torn.unmapped && EntryHandles(e) <= torn.released
      ensures driver.faults == old(driver.faults) && e.phase.Awake? && old(errorCode) == 0 && !torn.lost ==>
        errorCode == 0
      ensures errorCode == 0 ==> driver.faults == old(driver.faults)
    {
      hide Driver.Sound, Distinct, SetOf, Tuple.Placed, Tuple.Cleared, Planned, EntryHandles, EntryMaps,
           EntryRanges, IsStray, Holds;
      if t.chunks != [] && t.Placed(driver.gpu.mapped, |t.chunks|) == {} { NoPlace(t, driver.gpu.mapped); }
      torn := UnmapAndRelease(t);
      if !e.phase.Gone? { WhenAsleep(t.addr, e, torn); }
    }

    /** No cell of the allocation holds the value of a live handle that is not its own. */
    ghost predicate NoStale(p: nat)
      requires p in cells && p in entries
      reads this`cells, this`entries, driver`gpu
    {
      driver.gpu.live * SetOf(cells[p]) <= EntryHandles(entries[p])
    }

    /** An allocation that has its cells: they stay until it is freed, or its my_malloc fails. */
    ghost predicate Listed(p: nat)
      reads this`table, this`cells, this`entries
    {
      p in table && p in entries && HasCells(table[p]) && table[p].addr == p
    }

    lemma HoldsCells(p: nat)
      requires Valid() && p in table && !entries[p].phase.Gone?
      ensures Listed(p)
    {
      assert Matches(table[p], p, entries[p], cells);
    }

    /** Nothing of anyone is at the places of the allocation, or in its cells. */
    ghost predicate Vacant(p: nat)
      requires Listed(p)
      reads this`table, this`cells, this`entries, driver`gpu
    {
      && table[p].Placed(driver.gpu.mapped, |table[p].chunks|) == {}
      && driver.gpu.live * SetOf(cells[p]) == {}
    }

    /** Sleep: python_unmap_and_release, on an allocation in whatever state. It raises whenever an
        error is pending at the end, and clears it; without raising, nothing but the range is held.
        The books stay balanced if its cells hold no stale handle, and only then unless the driver
        refuses a sensible call. On an allocation whose range was lost it takes away whatever
        others have there by now, and the books stay balanced exactly if it changes nothing. */
    method PyUnmapAndRelease(p: nat) returns (raised: bool, ghost torn: Torn)
      requires Valid() && Listed(p)
      modifies this`errorCode, this`entries, this`leaked, driver`gpu, driver`access, driver`faults
      ensures TornAt(old(driver.gpu), table[p], cells[p], torn, driver.gpu)
      ensures errorCode == 0 && (old(errorCode) != 0 || torn.lost ==> raised)
      ensures driver.faults >= old(driver.faults)
      ensures !old(entries)[p].phase.Gone? ==>
        && Slept(old(Abs()), p, torn, Abs())
        && (old(NoStale(p)) ==> Valid() && Step(old(Abs()), Sleep(p, torn), Abs()))
        && (driver.faults == old(driver.faults) ==> (Inv(base, Abs()) <==> old(NoStale(p))))
        && (!raised ==> entries[p].phase.Asleep())
        && (driver.faults == old(driver.faults) && !torn.lost ==> entries[p].phase.Asleep())
      ensures old(entries)[p].phase.Awake? ==> old(NoStale(p))
      ensures old(entries)[p].phase.Awake? && driver.faults == old(driver.faults) && old(errorCode) == 0 ==>
        torn.lost || !raised
      ensures old(entries)[p].phase.Asleep() && table[p].chunks != [] ==> raised && torn.unmapped == {} && !torn.lost
      ensures old(entries)[p].phase.Gone? ==>
        && entries == old(entries) && leaked == old(leaked)
        && (Inv(base, Abs()) <==> driver.gpu == old(driver.gpu))
        && (table[p].chunks != [] && old(Vacant(p)) ==> Valid() && raised && driver.gpu == old(driver.gpu))
        && (table[p].chunks != [] && driver.faults == old(driver.faults) ==>
              (Inv(base, Abs()) <==> old(Vacant(p))))
      ensures !raised ==> driver.faults == old(driver.faults)
    {
      hide Inv, Slept, BaseSound, Driver.Sound, EntryHandles, EntryMaps, AllMatch, Owns, TearsEntry, AfterTear, Planned,
           HasCells, SetOf, Tuple.Placed, TornAt;
      ghost var w, e := Abs(), entries[p];
      InTable(p);
      if !e.phase.Gone? {
        OwnPlaces(p);
        OwnCells(table[p], e);
      }
      torn := TearDown(table[p], e);
      raised := errorCode != 0;
      errorCode := 0;
      if e.phase.Gone? {
        SameBooks(base, w, Abs());
        TornNothing(w.gpu, table[p], cells[p], torn, driver.gpu);
      } else {
        WhenAsleep(p, e, torn);
        entries := entries[p := Rest(p, e, torn)];
        leaked := leaked.Plus(Lost(w, Sleep(p, torn)));
        RestMatches(table, w.entries, cells, p, torn);
        SleptStep(w, p, torn, Abs());
        StaleIff(base, w, p, torn, false, false, Abs());
        if torn.released <= EntryHandles(e) { StepKeeps(base, w, Sleep(p, torn), Abs()); }
      }
    }

    lemma InTable(p: nat)
      requires Valid() && Listed(p)
      ensures Planned(table[p]) && HasCells(table[p]) && entries[p].chunks == table[p].chunks
      ensures entries[p].phase.Awake? ==> NoStale(p)
    {
      assert Matches(table[p], p, entries[p], cells);
    }

    lemma OwnCells(t: Tuple, e: Entry)
      requires Owns(t, e)
      ensures Planned(t) && HasCells(t) && t.size == e.size && t.chunks == e.chunks && !e.phase.Gone?
      ensures t.Placed(driver.gpu.mapped, |t.chunks|) == EntryMaps(t.addr, e)
      ensures Range(t.addr, t.size) in driver.gpu.reserved
      ensures e.phase.Asleep() ==> t.Placed(driver.gpu.mapped, |t.chunks|) == {}
    {
      assert Range(t.addr, t.size) in RangeOf(t);
      if e.phase.Asleep() { AsleepMapsNothing(t.addr, e); }
    }

    /** Wake: python_create_and_map, on an allocation in whatever state. All chunks are mapped, and
        it raises only if an error was pending or the access rights failed; or it raises and
        nothing changed; or it raises and what is left stays with the allocation, except the
        handles whose cells were overwritten, which leak. On an allocation whose range was lost,
        whatever is left is leaked; it can map chunks only where others have reserved the range
        since. */
    method PyCreateAndMap(p: nat) returns (raised: bool, ghost at: Attempt, ghost ev: Event)
      requires Valid() && Listed(p)
      modifies this`errorCode, this`cells, this`entries, this`leaked, driver`gpu, driver`access, driver`faults
      ensures HasCells(table[p]) && driver.gpu == old(driver.gpu).Plus(at.left)
      ensures !old(entries)[p].phase.Gone? || at.left.mapped == {} ==> Valid() && Step(old(Abs()), ev, Abs())
      ensures old(entries)[p].phase.Gone? ==>
        && ev == WakeGone(p, at.left) && entries == old(entries)
        && (Inv(base, Abs()) <==> AtHome(at.left.mapped, base.reserved + leaked.reserved))
        && (FreshRange(old(driver.gpu).reserved, p, table[p].size) ==> at.left.mapped == {})
      ensures !old(entries)[p].phase.Gone? ==>
        ev == if at.Whole(table[p]) then Wake(p, cells[p])
              else if at.created == 0 then Nothing else WakeFailed(p, at.left, SetOf(cells[p]))
      ensures errorCode == 0 && (raised <==> !(at.contextOk && at.Whole(table[p]) && at.accessOk))
      ensures at.accessOk ==> Accessible(table[p])
      ensures at.Whole(table[p]) && !at.accessOk && table[p].chunks != [] ==> !Accessible(table[p])
      ensures old(errorCode) != 0 ==> !at.contextOk
      ensures !at.contextOk && table[p].chunks != [] ==>
        at.created <= 1 && !at.Whole(table[p]) && at.left == FirstOnly(at.created, cells[p])
      ensures at.contextOk && !at.Whole(table[p]) && at.left != EMPTY ==> driver.faults > old(driver.faults)
      ensures driver.faults >= old(driver.faults)
      ensures driver.faults == old(driver.faults) && old(entries)[p].phase.Asleep() && old(errorCode) == 0 ==>
        table[p].chunks == [] || (ev.Wake? && !raised)
      ensures driver.faults == old(driver.faults) && old(errorCode) != 0 && table[p].chunks != [] ==> at.created == 1
      ensures !raised ==> driver.faults == old(driver.faults)
    {
      hide Inv, Step, ChunkMaps, BaseSound, Distinct, Driver.Sound, SetOf, Tuple.Placed, Planned, EntryHandles,
           EntryMaps, AllMatch, InPlace, Owns, FreshRange, AtHome, Lost, WakeEntry, FirstOnly, Accessible, Offset;
      ghost var w, t, e, before := Abs(), table[p], entries[p], cells;
      InTable(p);
      if !e.phase.Gone? {
        OwnPlaces(p);
        OwnCells(t, e);
      }
      if e.phase.Asleep() { AsleepRange(p); }
      at := CreateAndMap(table[p]);
      raised := errorCode != 0;
      errorCode := 0;
      AllChunks(t, cells[p]);
      MappedNowhere(driver, w.gpu, t, at.left);
      ev := WakeEvent(t, e, at, cells[p]);
      entries := entries[p := WakeEntry(t, e, at, cells[p])];
      leaked := leaked.Plus(Lost(w, ev));
      WakeBooks(base, w, table, before, t, at, cells[p], Abs());
    }

    lemma AsleepRange(p: nat)
      requires Valid() && p in table && entries[p].phase.Asleep()
      ensures RangeFree(table[p])
    {
      OwnPlaces(p);
      OwnCells(table[p], entries[p]);
      hide Inv, BaseSound, Driver.Sound, AllMatch, Owns;
      AsleepHoldsRange(base, Abs(), p);
    }

    /** my_free with the aligned size, on an allocation in whatever state. Unless the driver refuses
        a sensible call, the range is given back, and all that the allocation held is gone. The
        books stay balanced if its cells hold no stale handle, and only then unless the driver
        refuses a sensible call; on an allocation whose range was lost, exactly if it changes
        nothing in the driver. */
    method MyFree(p: nat, size: nat) returns (ghost torn: Torn, ghost given: bool)
      requires Valid() && Listed(p) && size == table[p].size
      modifies this`errorCode, this`table, this`cells, this`entries, this`leaked, driver`gpu, driver`access,
          driver`faults
      ensures table == old(table) - {p} && cells == old(cells) - {p} && entries == old(entries) - {p}
      ensures torn.released <= old(driver.gpu).live * SetOf(old(cells)[p])
      ensures old(errorCode) != 0 ==> errorCode != 0
      ensures driver.faults >= old(driver.faults)
      ensures !old(entries)[p].phase.Gone? ==>
        && Freed(old(Abs()), p, torn, given, Abs()) && (given <==> Range(p, size) !in driver.gpu.reserved)
        && (old(NoStale(p)) ==> Valid() && Step(old(Abs()), Free(p, torn, given), Abs()))
        && (driver.faults == old(driver.faults) ==> (Inv(base, Abs()) <==> old(NoStale(p))))
        && (driver.faults == old(driver.faults) ==> given && Lost(old(Abs()), Free(p, torn, given)) == EMPTY)
      ensures old(entries)[p].phase.Awake? ==> old(NoStale(p))
      ensures old(entries)[p].phase.Awake? && driver.faults == old(driver.faults) && old(errorCode) == 0 ==>
        torn.lost || errorCode == 0
      ensures old(entries)[p].phase.Asleep() && old(table)[p].chunks != [] ==>
        errorCode != 0 && torn.unmapped == {} && !torn.lost
      ensures old(entries)[p].phase.Gone? ==>
        && leaked == old(leaked) && (Inv(base, Abs()) <==> driver.gpu == old(driver.gpu))
        && (old(table)[p].chunks != [] && old(Vacant(p)) && Range(p, size) !in old(driver.gpu).reserved ==>
              Valid() && errorCode != 0 && driver.gpu == old(driver.gpu))
        && (old(table)[p].chunks != [] && driver.faults == old(driver.faults) && !old(Vacant(p)) ==> !Inv(base, Abs()))
      ensures errorCode == 0 ==> driver.faults == old(driver.faults)
      ensures errorCode == 0 ==> given && torn.released == SetOf(old(cells)[p])
    {
      hide Inv, Freed, BaseSound, Driver.Sound, EntryHandles, EntryMaps, EntryRanges, AllMatch, Owns, TearsEntry,
           AfterTear, Planned, HasCells, SetOf, Tuple.Placed, TornAt;
      ghost var w, e := Abs(), entries[p];
      var t := table[p];
      InTable(p);
      if !e.phase.Gone? {
        OwnPlaces(p);
        OwnCells(t, e);
      }
      table := table - {p};
      torn := TearDown(t.(size := size), e);
      ghost var g := driver.gpu;
      var status := driver.AddressFree(t.addr, size);
      Check(status);
      given := torn.lost || status == 0;
      MatchDrop(old(table), w.entries, cells, p);
      ghost var hs := cells[p];
      cells, entries := cells - {p}, entries - {p};
      if e.phase.Gone? {
        GoneBooks(base, w, p, t, hs, torn, g, Abs());
      } else {
        leaked := leaked.Plus(Lost(w, Free(p, torn, given)));
        FreeBooks(base, w, p, torn, g, status, Abs());
      }
    }

    // ---- my_malloc --------------------------------------------------------

    /** The loop that fills chunk_sizes. */
    method PlanChunks(aligned: nat, chunk: nat) returns (sizes: seq<nat>)
      requires chunk > 0
      ensures sizes == Plan(aligned, chunk)
    {
      sizes := [];
      for i := 0 to NumChunks(aligned, chunk)
        invariant sizes == Plan(aligned, chunk)[..i]
      {
        sizes := sizes + [ChunkSize(aligned, chunk, i)];
      }
    }

    /** The start of my_malloc: query the granularity and reserve an address range. */
    method ReserveRange(size: nat) returns (ptr: Pointer)
      requires driver.Sound()
      modifies this`errorCode, driver`gpu, driver`faults
      ensures driver.Sound() && !ptr.DivisionByZero? && (ptr.Null? <==> errorCode != 0)
      ensures old(errorCode) != 0 ==> errorCode != 0
      ensures ptr.Null? ==> driver.gpu == old(driver.gpu)
      ensures driver.faults >= old(driver.faults)
      ensures driver.faults == old(driver.faults) && old(errorCode) == 0 && size > 0 ==> errorCode == 0
      ensures ptr.Address? ==>
        && size > 0 && FreshRange(old(driver.gpu).reserved, ptr.addr, size)
        && driver.gpu == old(driver.gpu).(reserved := old(driver.gpu).reserved + {Range(ptr.addr, size)})
        && driver.CanFree(ptr.addr, size)
      ensures errorCode == 0 ==> driver.faults == old(driver.faults)
    {
      ptr := Null;
      EnsureContext();
      var status := driver.Query();
      Check(status);
      if errorCode != 0 { return; }
      ghost var g := driver.gpu;
      assert AtHome(g.mapped, g.reserved);
      hide Driver.Sound, FreshRange, AtHome;
      var addr;
      status, addr := driver.Reserve(size);
      Check(status);
      if errorCode != 0 { return; }
      FreshIsUnmapped(g, addr, size);
      ptr := Address(addr);
    }

    /** The end of my_malloc: create and map, and on any error try to give the address range
        back, which the driver refuses while chunks are mapped in it, and free the cells. */
    method CreateOrGiveBack(t: Tuple) returns (ghost at: Attempt, ghost hs: seq<nat>, ghost left: Gpu)
      requires driver.Sound() && Planned(t) && HasCells(t) && RangeFree(t)
      modifies this`errorCode, this`cells, driver`gpu, driver`access, driver`faults
      ensures driver.Sound() && |hs| == |t.chunks|
      ensures cells == if errorCode == 0 then old(cells)[t.addr := hs] else old(cells)[t.addr := hs] - {t.addr}
      ensures errorCode == 0 <==> at.contextOk && at.Whole(t) && at.accessOk
      ensures errorCode == 0 ==> ChunkMaps(t.addr, t.chunks, hs) <= driver.access
      ensures errorCode == 0 ==> left == at.left.(reserved := RangeOf(t))
      ensures left == at.left.(reserved := left.reserved) && left.reserved <= RangeOf(t)
      ensures driver.gpu == Gpu(old(driver.gpu).reserved - RangeOf(t) + left.reserved,
                                old(driver.gpu).live + left.live, old(driver.gpu).mapped + left.mapped)
      ensures left.live !! old(driver.gpu).live && left.mapped !! old(driver.gpu).mapped
      ensures left.mapped <= ChunkMaps(t.addr, t.chunks, hs) && (left.mapped != {} ==> left.reserved != {})
      ensures errorCode == 0 ==> Distinct(hs) && at.left == Gpu({}, SetOf(hs), ChunkMaps(t.addr, t.chunks, hs))
      ensures errorCode != 0 ==> Explained(t, at, left)
      ensures at.contextOk && !at.Whole(t) && at.left != EMPTY ==> driver.faults >= old(driver.faults) + 2
      ensures driver.faults >= old(driver.faults)
      ensures driver.faults == old(driver.faults) && old(errorCode) == 0 && t.chunks != [] ==> errorCode == 0
      ensures errorCode == 0 ==> driver.faults == old(driver.faults)
    {
      hide ChunkMaps, SetOf, Distinct, Driver.Sound, Planned, Tuple.Placed, Explained, FirstOnly;
      ghost var g := driver.gpu;
      at := CreateAndMap(t);
      hs := cells[t.addr];
      left := at.left.(reserved := RangeOf(t));
      assert g.reserved - RangeOf(t) + RangeOf(t) == g.reserved;
      if errorCode != 0 {
        var status := driver.AddressFree(t.addr, t.size);
        Check(status);
        if status == 0 {
          left := at.left;
          assert at.left.mapped == {} by { MappedKeepsRange(t, hs, at.left.mapped); }
        }
        cells := cells - {t.addr};
        LeftExplained(t, at, hs, left);
      }
    }

    /** my_malloc once the range is reserved and cut: the table gets the tuple, the chunks are
        created and mapped. w is the state before the range was reserved. */
    method Install(t: Tuple, ghost w: World) returns (ghost at: Attempt, ghost ev: Event)
      requires driver.Sound() && Planned(t) && RangeFree(t) && AllMatch(table, entries, cells)
      requires BaseSound(base) && Inv(base, w) && FreshRange(w.gpu.reserved, t.addr, t.size)
      requires Abs() == w.(gpu := w.gpu.(reserved := w.gpu.reserved + RangeOf(t)))
      modifies this`errorCode, this`table, this`cells, this`entries, this`leaked, driver`gpu, driver`access,
          driver`faults
      ensures Valid() && Step(w, ev, Abs()) && table == old(table)[t.addr := t]
      ensures (ev.Malloc? || ev.MallocFailed?) && ev.p == t.addr && ev.e.size == t.size && ev.e.chunks == t.chunks
      ensures errorCode == 0 <==> ev.Malloc?
      ensures ev.Malloc? <==> at.contextOk && at.Whole(t) && at.accessOk
      ensures ev.Malloc? ==> HasCells(t) && Accessible(t)
      ensures ev.MallocFailed? ==> Explained(t, at, ev.left)
      ensures ev.MallocFailed? && at.contextOk && !at.Whole(t) && at.left != EMPTY ==>
        driver.faults >= old(driver.faults) + 2
      ensures driver.faults >= old(driver.faults)
      ensures driver.faults == old(driver.faults) && old(errorCode) == 0 && t.chunks != [] ==> errorCode == 0
      ensures errorCode == 0 ==> driver.faults == old(driver.faults)
    {
      hide Inv, Step, ChunkMaps, SetOf, BaseSound, Plausible, Planned, Distinct, Driver.Sound, AllMatch, FreshRange,
           Explained, InPlace, Attempt.Whole;
      var p := t.addr;
      ghost var before := cells;
      cells := cells[p := seq(|t.chunks|, _ => 0)];
      table := table[p := t];
      ghost var hs, left;
      at, hs, left := CreateOrGiveBack(t);
      ghost var e := Entry(t.size, t.chunks, if errorCode == 0 then Awake(hs) else Gone);
      NewMatches(old(table), entries, before, t, e, hs);
      entries := entries[p := e];
      if errorCode == 0 {
        ev := Malloc(p, e);
        assert cells == before[p := hs];
        MallocDoneStep(w, t, hs, Abs());
      } else {
        ev, leaked := MallocFailed(p, e, left), leaked.Plus(left);
        assert cells == before - {p};
        MallocFailedStep(w, t, hs, left, Abs());
      }
      StepKeeps(base, w, ev, Abs());
    }

    /** The chunk size from the environment, in bytes. */
    function ChunkBytes(env: Env): nat
      requires driver.granularity > 0
    {
      AlignUp(BaseChunk(env), driver.granularity)
    }

    /** my_malloc. With an error pending it returns null and touches nothing. Otherwise it hands out
        a new allocation, every chunk accessible, unless the driver refuses a sensible call, the
        aligned size is 0, or there is no chunk at all; and it returns null exactly if it leaves an
        error pending. Once the range was reserved, the table lists the address also when null is
        returned. What is then left in the driver leaks: nothing, or what the rollback could not
        take back, or the first handle if the context call failed, or everything if only the access
        rights failed. With chunk size 0 it divides by 0 once it has reserved a range. */
    method MyMalloc(size: nat, env: Env) returns (ptr: Pointer, ghost at: Attempt, ghost ev: Event)
      requires Valid() && 0 < driver.granularity < U64 && size < U64
      modifies this`errorCode, this`table, this`cells, this`entries, this`leaked, driver`gpu, driver`access,
          driver`faults
      ensures !ptr.DivisionByZero? ==> Valid() && Step(old(Abs()), ev, Abs())
      ensures ptr.DivisionByZero? <==> Wanted(env) + driver.granularity > 0x1_0000_0000_0000_0000 && errorCode == 0
      ensures ptr.DivisionByZero? ==>
        exists p :: driver.gpu == old(driver.gpu).Plus(Gpu({Range(p, AlignUp(size, driver.granularity))}, {}, {}))
      ensures ptr.Null? <==> errorCode != 0
      ensures old(errorCode) != 0 ==> ptr.Null? && ev.Nothing?
      ensures ev.Nothing? || ev.Malloc? || ev.MallocFailed?
      ensures ev.Nothing? ==> table == old(table) && cells == old(cells)
      ensures !ev.Nothing? ==>
        && ChunkBytes(env) > 0 && ev.e.size == AlignUp(size, driver.granularity)
        && ev.e.chunks == Plan(ev.e.size, ChunkBytes(env))
        && CutAsWanted(env, driver.granularity, ev.e.chunks)
        && table == old(table)[ev.p := Tuple(ev.e.size, ev.p, ev.e.chunks)]
        && (ev.Malloc? <==> at.contextOk && at.Whole(table[ev.p]) && at.accessOk)
      ensures ptr.Address? <==> ev.Malloc?
      ensures ptr.Address? ==> ev.p == ptr.addr && HasCells(table[ptr.addr]) && Accessible(table[ptr.addr])
      ensures ev.MallocFailed? ==> Explained(table[ev.p], at, ev.left)
      ensures ev.MallocFailed? && at.contextOk && !at.Whole(table[ev.p]) && at.left != EMPTY ==>
        driver.faults >= old(driver.faults) + 2
      ensures driver.faults >= old(driver.faults)
      ensures driver.faults == old(driver.faults) && old(errorCode) == 0 && AlignUp(size, driver.granularity) > 0 ==>
        if ChunkBytes(env) == 0 then ptr.DivisionByZero?
        else ptr.Address? || Plan(AlignUp(size, driver.granularity), ChunkBytes(env)) == []
      ensures errorCode == 0 ==> driver.faults == old(driver.faults)
    {
      hide Inv, Step, ChunkMaps, SetOf, BaseSound, Plausible, Planned, Driver.Sound, AllMatch, Plan, AlignUp,
           FreshRange, Explained, HasCells, Attempt.Whole, Wanted, BaseChunk,
           CutAsWanted;
      ghost var w := Abs();
      ev, at := Nothing, Attempt(true, 0, 0, false, EMPTY);
      var aligned, chunk := AlignUp(size, driver.granularity), ChunkBytes(env);
      NoChunkBytes(env, driver.granularity);
      AlignUpFits(size, driver.granularity);
      ptr := ReserveRange(aligned);
      if ptr.Null? {
        NothingStep(w, Abs());
        return;
      }
      if chunk == 0 {
        assert driver.gpu == w.gpu.Plus(Gpu({Range(ptr.addr, aligned)}, {}, {}));
        ptr := DivisionByZero;
        return;
      }
      PlanAsWanted(env, driver.granularity, aligned);
      var t := PlanTuple(ptr.addr, aligned, chunk);
      at, ev := Install(t, w);
      if errorCode != 0 { ptr := Null; }
    }

    method PlanTuple(p: nat, aligned: nat, chunk: nat) returns (t: Tuple)
      requires 0 < chunk < U64 && 0 < aligned < U64
      ensures Planned(t) && t == Tuple(aligned, p, Plan(aligned, chunk))
    {
      var chunks := PlanChunks(aligned, chunk);
      PlanIsExactIff(aligned, chunk);
      t := Tuple(aligned, p, chunks);
    }
  }

  // ---- entries after a call -----------------------------------------------

  lemma PlannedChunks(t: Tuple)
    requires Planned(t)
    ensures t.size > 0 && forall i :: 0 <= i < |t.chunks| ==> t.chunks[i] > 0
  {
  }

  lemma NoStray(rest: set<Range>, p: nat, size: nat)
    ensures IsStray(rest, p, size, {})
  {
  }

  /** Nothing is mapped in a range that was not reserved before. */
  lemma FreshIsUnmapped(g: Gpu, p: nat, size: nat)
    requires FreshRange(g.reserved, p, size) && size > 0 && AtHome(g.mapped, g.reserved)
    ensures forall m :: m in g.mapped ==> !m.Overlaps(p, size)
  {
  }

  lemma FreshIsNew(reserved: set<Range>, p: nat, size: nat)
    requires FreshRange(reserved, p, size) && size > 0
    ensures Range(p, size) !in reserved
    ensures reserved + {Range(p, size)} - {Range(p, size)} == reserved
  {
    assert Range(p, size).Overlaps(p, size);
  }

  /** All chunks mapped: every place is in use and its own. */
  lemma EveryPlace(t: Tuple, hs: seq<nat>, mapped: set<Mapping>)
    requires |hs| == |t.chunks| && t.Placed(mapped, |t.chunks|) == ChunkMaps(t.addr, t.chunks, hs) <= mapped
    ensures t.Cleared(mapped, t.Placed(mapped, |t.chunks|), |t.chunks|)
  {
    AllChunks(t, hs);
    PlacedAt(t, mapped, |t.chunks|);
    hide Offset, Tuple.Placed, ChunkMaps;
    forall i: nat | i < |t.chunks| ensures t.Spot(mapped, i) != {} {
      assert Chunk(t, hs, i) in FirstChunks(t, hs, |t.chunks|);
      assert Chunk(t, hs, i) in t.Spot(mapped, i);
    }
  }

  /** The places of an allocation hold exactly what it maps. */
  lemma PlacesAreOwn(t: Tuple, e: Entry, mapped: set<Mapping>)
    requires Planned(t) && EntryMaps(t.addr, e) <= mapped
    requires forall m :: m in EntryMaps(t.addr, e) ==> InPlace(t.addr, t.chunks, m)
    requires forall m :: m in mapped && m.Overlaps(t.addr, t.size) ==> m in EntryMaps(t.addr, e)
    ensures t.Placed(mapped, |t.chunks|) == EntryMaps(t.addr, e)
  {
    AllPlaces(t, mapped);
    hide Tuple.Placed, EntryMaps, InPlace, Total;
    forall m | m in mapped && InPlace(t.addr, t.chunks, m) ensures m in EntryMaps(t.addr, e) {
      PlaceInside(t.addr, t.size, t.chunks, m);
    }
  }

  /** Where nothing is mapped, nothing can be cleared. */
  lemma NoPlace(t: Tuple, mapped: set<Mapping>)
    requires t.chunks != [] && t.Placed(mapped, |t.chunks|) == {}
    ensures forall u :: !t.Cleared(mapped, u, |t.chunks|)
  {
    PlacedAt(t, mapped, |t.chunks|);
    assert t.Spot(mapped, 0) == {};
  }

  lemma RestMatches(table: map<nat, Tuple>, entries: map<nat, Entry>, cells: map<nat, seq<nat>>, p: nat, torn: Torn)
    requires AllMatch(table, entries, cells) && p in table && !entries[p].phase.Gone?
    ensures AllMatch(table, entries[p := Rest(p, entries[p], torn)], cells)
  {
    assert Matches(table[p], p, entries[p], cells);
    MatchPut(table, entries, cells, p, table[p], Rest(p, entries[p], torn), cells);
    assert table[p := table[p]] == table;
  }

  lemma WakeMatches(table: map<nat, Tuple>, entries: map<nat, Entry>, cells: map<nat, seq<nat>>, p: nat,
                    cells2: map<nat, seq<nat>>)
    requires AllMatch(table, entries, cells) && p in table && p in cells2 && |cells2[p]| == |table[p].chunks|
    requires cells2 == cells[p := cells2[p]]
    ensures AllMatch(table, entries[p := entries[p].(phase := Awake(cells2[p]))], cells2)
  {
    assert Matches(table[p], p, entries[p], cells);
    MatchPut(table, entries, cells, p, table[p], entries[p].(phase := Awake(cells2[p])), cells2);
    assert table[p := table[p]] == table;
  }

  lemma HoldingMatches(table: map<nat, Tuple>, entries: map<nat, Entry>, cells: map<nat, seq<nat>>, p: nat, e: Entry,
                       cells2: map<nat, seq<nat>>)
    requires AllMatch(table, entries, cells) && p in table && p in cells2 && |cells2[p]| == |table[p].chunks|
    requires cells2 == cells[p := cells2[p]]
    requires e.size == entries[p].size && e.chunks == entries[p].chunks && e.phase.Holding? &&
      e.phase.held <= SetOf(cells2[p])
    ensures AllMatch(table, entries[p := e], cells2)
  {
    assert Matches(table[p], p, entries[p], cells);
    MatchPut(table, entries, cells, p, table[p], e, cells2);
    assert table[p := table[p]] == table;
  }

  lemma NewMatches(table: map<nat, Tuple>, entries: map<nat, Entry>, cells: map<nat, seq<nat>>, t: Tuple, e: Entry,
                   hs: seq<nat>)
    requires AllMatch(table, entries, cells) && Planned(t) && e.size == t.size && e.chunks == t.chunks &&
      |hs| == |t.chunks|
    requires e.phase == Awake(hs) || e.phase == Gone
    ensures AllMatch(table[t.addr := t], entries[t.addr := e],
                     if e.phase.Awake? then cells[t.addr := hs] else cells - {t.addr})
  {
    MatchPut(table, entries, cells, t.addr, t, e, if e.phase.Awake? then cells[t.addr := hs] else cells - {t.addr});
  }

  lemma AsleepMapsNothing(p: nat, e: Entry)
    requires e.phase.Asleep()
    ensures EntryMaps(p, e) == {}
  {
  }

  lemma WhenAsleep(p: nat, e: Entry, torn: Torn)
    requires !e.phase.Gone?
    ensures !torn.lost && EntryMaps(p, e) <= torn.unmapped && EntryHandles(e) <= torn.released ==>
      Rest(p, e, torn).phase.Asleep()
  {
  }

  /** A tear-down of entry e at p, seen from the driver. */
  ghost predicate TearsEntry(g: Gpu, p: nat, e: Entry, torn: Torn)
  {
    && torn.unmapped <= EntryMaps(p, e)
    && (torn.lost ==> torn.unmapped == EntryMaps(p, e) && EntryHandles(e) <= torn.released)
    && (torn.stray != {} ==> torn.lost) && IsStray(g.reserved - EntryRanges(p, e), p, e.size, torn.stray)
  }

  /** A tear-down seen from the driver alone, whoever holds what it takes away. */
  ghost predicate TornAt(g: Gpu, t: Tuple, hs: seq<nat>, torn: Torn, g2: Gpu)
  {
    && g2 == Gpu(g.reserved - (if torn.lost then {Range(t.addr, t.size)} else {}) + torn.stray,
                 g.live - torn.released, g.mapped - torn.unmapped)
    && torn.unmapped <= t.Placed(g.mapped, |t.chunks|) && torn.released <= g.live * SetOf(hs)
    && (torn.stray != {} ==> torn.lost)
  }

  /** It changes nothing when there is nothing there, and when it changes nothing there was. */
  lemma TornNothing(g: Gpu, t: Tuple, hs: seq<nat>, torn: Torn, g2: Gpu)
    requires TornAt(g, t, hs, torn, g2)
    ensures !torn.lost && t.Placed(g.mapped, |t.chunks|) == {} && g.live * SetOf(hs) == {} ==> g2 == g
    ensures torn.unmapped == t.Placed(g.mapped, |t.chunks|) && torn.released == g.live * SetOf(hs) ==>
      g2.live == g.live && g2.mapped == g.mapped ==> t.Placed(g.mapped, |t.chunks|) == {} && g.live * SetOf(hs) == {}
  {
    PlacedWithin(t, g.mapped, |t.chunks|);
    hide Tuple.Placed, SetOf;
    assert g.reserved - {} + {} == g.reserved && g.live - {} == g.live && g.mapped - {} == g.mapped;
    Untouched(g.mapped, torn.unmapped);
    Untouched(g.live, torn.released);
  }

  /** What the books say after a free of an allocation whose range was lost. */
  lemma GoneBooks(base: Gpu, w: World, p: nat, t: Tuple, hs: seq<nat>, torn: Torn, g: Gpu, w2: World)
    requires Inv(base, w) && p in w.entries && w.entries[p].phase.Gone?
    requires TornAt(w.gpu, t, hs, torn, g) && w2.gpu.live == g.live && w2.gpu.mapped == g.mapped
    requires w2.entries == w.entries - {p} && w2.leaked == w.leaked
    ensures Inv(base, w2) <==> w2.gpu == w.gpu
    ensures !torn.lost && t.Placed(w.gpu.mapped, |t.chunks|) == {} && w.gpu.live * SetOf(hs) == {} ==> g == w.gpu
    ensures torn.unmapped == t.Placed(w.gpu.mapped, |t.chunks|) && torn.released == w.gpu.live * SetOf(hs) ==>
      w2.gpu == w.gpu ==> t.Placed(w.gpu.mapped, |t.chunks|) == {} && w.gpu.live * SetOf(hs) == {}
  {
    hide Inv, Tuple.Placed, SetOf;
    TornNothing(w.gpu, t, hs, torn, g);
    DroppedBooks(base, w, p, w2);
  }

  lemma {:induction false} PlacedWithin(t: Tuple, mapped: set<Mapping>, n: nat)
    requires n <= |t.chunks|
    ensures t.Placed(mapped, n) <= mapped
  {
    if n > 0 { PlacedWithin(t, mapped, n - 1); }
  }

  lemma Untouched<T>(s: set<T>, gone: set<T>)
    requires gone <= s
    ensures s - gone == s ==> gone == {}
  {
    assert forall x :: x in gone ==> x !in s - gone;
  }

  lemma SleptStep(w: World, p: nat, torn: Torn, w2: World)
    requires p in w.entries && !w.entries[p].phase.Gone? && TearsEntry(w.gpu, p, w.entries[p], torn)
    requires w2 == World(AfterTear(w.gpu, p, w.entries[p], torn), w.entries[p := Rest(p, w.entries[p], torn)],
                         w.leaked.Plus(Lost(w, Sleep(p, torn))))
    ensures Slept(w, p, torn, w2)
    ensures torn.released <= EntryHandles(w.entries[p]) ==> Step(w, Sleep(p, torn), w2)
  {
    hide EntryMaps, EntryHandles, EntryRanges, IsStray, Rest, AfterTear;
  }

  /** What the books say after a free. */
  lemma FreeBooks(base: Gpu, w: World, p: nat, torn: Torn, g: Gpu, status: nat, w2: World)
    requires Inv(base, w) && BaseSound(base) && p in w.entries && !w.entries[p].phase.Gone?
    requires TearsEntry(w.gpu, p, w.entries[p], torn) && g == AfterTear(w.gpu, p, w.entries[p], torn)
    requires torn.released <= w.gpu.live
    requires status == 0 ==> Range(p, w.entries[p].size) in g.reserved
    requires status == 0 ==> forall m :: m in g.mapped ==> !m.Overlaps(p, w.entries[p].size)
    requires w2.gpu == if status == 0 then g.(reserved := g.reserved - {Range(p, w.entries[p].size)}) else g
    requires w2.entries == w.entries - {p}
    requires w2.leaked == w.leaked.Plus(Lost(w, Free(p, torn, torn.lost || status == 0)))
    ensures var given, e := torn.lost || status == 0, w.entries[p];
      && Freed(w, p, torn, given, w2) && (given <==> Range(p, e.size) !in w2.gpu.reserved)
      && (Inv(base, w2) <==> torn.released <= EntryHandles(e))
      && (torn.released <= EntryHandles(e) ==> Step(w, Free(p, torn, given), w2))
      && (EntryMaps(p, e) <= torn.unmapped && EntryHandles(e) <= torn.released && torn.stray == {} && given ==>
            Lost(w, Free(p, torn, given)) == EMPTY)
    ensures EntryMaps(p, w.entries[p]) <= torn.unmapped && !torn.lost ==>
      Range(p, w.entries[p].size) in g.reserved && forall m :: m in g.mapped ==> !m.Overlaps(p, w.entries[p].size)
  {
    hide Inv, Freed, BaseSound, EntryHandles, EntryMaps, EntryRanges, TearsEntry, AfterTear;
    var given := torn.lost || status == 0;
    FreeOutcome(base, w, p, torn, g, status, w2.gpu);
    OnlyRange(p, w.entries[p]);
    FreedStep(w, p, torn, given, w2);
    StaleIff(base, w, p, torn, given, true, w2);
    NothingLeft(base, w, p, torn);
  }

  lemma OnlyRange(p: nat, e: Entry)
    requires !e.phase.Gone?
    ensures EntryRanges(p, e) == {Range(p, e.size)}
  {
  }

  lemma FreedStep(w: World, p: nat, torn: Torn, given: bool, w2: World)
    requires p in w.entries && !w.entries[p].phase.Gone? && TearsEntry(w.gpu, p, w.entries[p], torn)
    requires (torn.lost ==> given) && (given ==> EntryMaps(p, w.entries[p]) <= torn.unmapped)
    requires var g := AfterTear(w.gpu, p, w.entries[p], torn);
      w2 == World(if given then g.(reserved := g.reserved - EntryRanges(p, w.entries[p])) else g, w.entries - {p},
                  w.leaked.Plus(Lost(w, Free(p, torn, given))))
    ensures Freed(w, p, torn, given, w2)
    ensures torn.released <= EntryHandles(w.entries[p]) ==> Step(w, Free(p, torn, given), w2)
  {
    hide EntryMaps, EntryHandles, EntryRanges, IsStray, AfterTear;
  }

  /** With all of it released, unmapped and given back, a free leaks nothing. */
  lemma NothingLeft(base: Gpu, w: World, p: nat, torn: Torn)
    requires Inv(base, w) && p in w.entries
    ensures var e := w.entries[p];
      EntryMaps(p, e) <= torn.unmapped && EntryHandles(e) <= torn.released && torn.stray == {} ==>
      Lost(w, Free(p, torn, true)) == EMPTY
  {
    hide Inv, EntryMaps, EntryHandles;
  }

  /** What a wake comes to in the books, given what the attempt left. */
  ghost function WakeEvent(t: Tuple, e: Entry, at: Attempt, hs: seq<nat>): Event
  {
    if e.phase.Gone? then WakeGone(t.addr, at.left)
    else if at.Whole(t) then Wake(t.addr, hs)
    else if at.created == 0 then Nothing
    else WakeFailed(t.addr, at.left, SetOf(hs))
  }

  ghost function WakeEntry(t: Tuple, e: Entry, at: Attempt, hs: seq<nat>): Entry
  {
    if e.phase.Gone? then e
    else if at.Whole(t) then e.(phase := Awake(hs))
    else if at.created == 0 then e
    else e.(phase := Holding((EntryHandles(e) + at.left.live) * SetOf(hs), EntryMaps(t.addr, e) + at.left.mapped))
  }

  /** Whatever the attempt left, the books are in order after a wake; on an allocation whose range
      was lost, exactly if what is mapped lies in leaked ranges. */
  lemma WakeBooks(base: Gpu, w: World, table: map<nat, Tuple>, before: map<nat, seq<nat>>, t: Tuple, at: Attempt,
                  hs: seq<nat>, w2: World)
    requires Inv(base, w) && AllMatch(table, w.entries, before) && t.addr in table && table[t.addr] == t
    requires |hs| == |t.chunks| && t.addr in w.entries && w.entries[t.addr].chunks == t.chunks
    requires at.left.reserved == {} && at.left.live !! w.gpu.live && at.left.mapped !! w.gpu.mapped
    requires forall m :: m in at.left.mapped ==> InPlace(t.addr, t.chunks, m)
    requires at.Whole(t) ==> at.left == Gpu({}, SetOf(hs), ChunkMaps(t.addr, t.chunks, hs)) && Distinct(hs)
    requires at.Whole(t) && !w.entries[t.addr].phase.Gone? ==> EntryMaps(t.addr, w.entries[t.addr]) == {}
    requires t.chunks == [] ==> at.Whole(t)
    requires at.created == 0 && t.chunks != [] ==> at.left == EMPTY && t.addr in before && hs == before[t.addr]
    requires var e := w.entries[t.addr];
      w2 == World(w.gpu.Plus(at.left), w.entries[t.addr := WakeEntry(t, e, at, hs)],
                  w.leaked.Plus(Lost(w, WakeEvent(t, e, at, hs))))
    ensures var e := w.entries[t.addr]; var ev := WakeEvent(t, e, at, hs);
      && AllMatch(table, w2.entries, before[t.addr := hs])
      && (!e.phase.Gone? || at.left.mapped == {} ==> Step(w, ev, w2) && Inv(base, w2))
      && (e.phase.Gone? ==>
            w2.entries == w.entries && (Inv(base, w2) <==> AtHome(at.left.mapped, base.reserved + w2.leaked.reserved)))
  {
    hide Inv, Step, ChunkMaps, Distinct, SetOf, EntryHandles, EntryMaps, AllMatch, InPlace, AtHome;
    var p := t.addr;
    var e, after := w.entries[p], before[p := hs];
    if e.phase.Gone? {
      GoneMatches(table, w.entries, before, p, after);
      assert w.entries[p := e] == w.entries;
      WakeGoneStep(base, w, p, at.left, w2);
    } else if at.Whole(t) {
      WakeMatches(table, w.entries, before, p, after);
      WakeStep(w, p, hs, w2);
      StepKeeps(base, w, Wake(p, hs), w2);
    } else if at.created == 0 {
      assert before[p := hs] == before && w.entries[p := e] == w.entries;
      assert w.gpu.Plus(EMPTY) == w.gpu && w.leaked.Plus(EMPTY) == w.leaked;
      NothingStep(w, w2);
    } else {
      var e2 := WakeEntry(t, e, at, hs);
      HoldingMatches(table, w.entries, before, p, e2, after);
      WakeFailedStep(w, p, at.left, SetOf(hs), w2);
      StepKeeps(base, w, WakeFailed(p, at.left, SetOf(hs)), w2);
    }
  }

  lemma WakeStep(w: World, p: nat, hs: seq<nat>, w2: World)
    requires p in w.entries && !w.entries[p].phase.Gone? && EntryMaps(p, w.entries[p]) == {}
    requires |hs| == |w.entries[p].chunks| && Distinct(hs) && SetOf(hs) !! w.gpu.live
    requires ChunkMaps(p, w.entries[p].chunks, hs) !! w.gpu.mapped
    requires w2 == World(w.gpu.Plus(Gpu({}, SetOf(hs), ChunkMaps(p, w.entries[p].chunks, hs))),
                         w.entries[p := w.entries[p].(phase := Awake(hs))], w.leaked.Plus(Lost(w, Wake(p, hs))))
    ensures Step(w, Wake(p, hs), w2)
  {
    hide EntryMaps, EntryHandles, ChunkMaps, SetOf, Distinct;
  }

  lemma WakeFailedStep(w: World, p: nat, left: Gpu, kept: set<nat>, w2: World)
    requires p in w.entries && !w.entries[p].phase.Gone?
    requires left.reserved == {} && left.live !! w.gpu.live && left.mapped !! w.gpu.mapped
    requires forall m :: m in left.mapped ==> InPlace(p, w.entries[p].chunks, m)
    requires w2 == World(w.gpu.Plus(left), w.entries[p := w.entries[p].(phase :=
                           Holding((EntryHandles(w.entries[p]) + left.live) * kept,
                                   EntryMaps(p, w.entries[p]) + left.mapped))],
                         w.leaked.Plus(Lost(w, WakeFailed(p, left, kept))))
    ensures Step(w, WakeFailed(p, left, kept), w2)
  {
    hide EntryMaps, EntryHandles, InPlace;
  }

  /** Where no range is reserved, nothing can be mapped. */
  lemma MappedNowhere(driver: Driver, g: Gpu, t: Tuple, left: Gpu)
    requires driver.Sound() && Planned(t) && driver.gpu == g.Plus(left) && left.reserved == {}
    requires forall m :: m in left.mapped ==> InPlace(t.addr, t.chunks, m)
    ensures FreshRange(g.reserved, t.addr, t.size) ==> left.mapped == {}
  {
    hide InPlace, Total;
    forall m | m in left.mapped ensures m in driver.gpu.mapped && m.Overlaps(t.addr, t.size) {
      PlaceInside(t.addr, t.size, t.chunks, m);
    }
    assert AtHome(driver.gpu.mapped, g.reserved);
    hide Driver.Sound;
    if FreshRange(g.reserved, t.addr, t.size) { FreshIsUnmapped(Gpu(g.reserved, {}, left.mapped), t.addr, t.size); }
  }

  lemma GoneMatches(table: map<nat, Tuple>, entries: map<nat, Entry>, cells: map<nat, seq<nat>>, p: nat,
                    cells2: map<nat, seq<nat>>)
    requires AllMatch(table, entries, cells) && p in table && entries[p].phase.Gone? && p in cells2
    requires cells2 == cells[p := cells2[p]]
    ensures AllMatch(table, entries, cells2)
  {
    assert Matches(table[p], p, entries[p], cells);
    MatchPut(table, entries, cells, p, table[p], entries[p], cells2);
    assert table[p := table[p]] == table && entries[p := entries[p]] == entries;
  }

  lemma WakeGoneStep(base: Gpu, w: World, p: nat, left: Gpu, w2: World)
    requires Inv(base, w) && p in w.entries && w.entries[p].phase.Gone?
    requires left.reserved == {} && left.live !! w.gpu.live && left.mapped !! w.gpu.mapped
    requires w2 == World(w.gpu.Plus(left), w.entries, w.leaked.Plus(left))
    ensures left.mapped == {} ==> Step(w, WakeGone(p, left), w2) && Inv(base, w2)
    ensures Inv(base, w2) <==> AtHome(left.mapped, base.reserved + w2.leaked.reserved)
  {
    LeakNew(base, w, left, w2);
  }

  lemma NothingStep(w: World, w2: World)
    requires w2 == w
    ensures Step(w, Nothing, w2)
  {
    assert w.leaked.Plus(EMPTY) == w.leaked;
  }

  /** What is mapped in the place of a chunk keeps the range from being freed. */
  lemma MappedKeepsRange(t: Tuple, hs: seq<nat>, maps: set<Mapping>)
    requires Planned(t) && |hs| == |t.chunks| && maps <= ChunkMaps(t.addr, t.chunks, hs)
    ensures forall m :: m in maps ==> m.Overlaps(t.addr, t.size)
  {
    AllChunks(t, hs);
    hide ChunkMaps, Offset, Total;
    forall m | m in maps ensures m.Overlaps(t.addr, t.size) { PlaceInside(t.addr, t.size, t.chunks, m); }
  }

  /** Everything is left: the range, a handle for every chunk, every chunk mapped. */
  ghost predicate LeftWhole(p: nat, e: Entry, left: Gpu)
  {
    exists hs: seq<nat> :: |hs| == |e.chunks| && Distinct(hs) &&
      left == Gpu({Range(p, e.size)}, SetOf(hs), ChunkMaps(p, e.chunks, hs))
  }

  /** What a failed my_malloc leaves beside the range. If every chunk was created and mapped, only
      the access rights failed, and everything is left; if an error was pending at the first
      creation, exactly the handle it created, if any. */
  ghost predicate Explained(t: Tuple, at: Attempt, left: Gpu)
  {
    && left.live == at.left.live && left.mapped == at.left.mapped
    && (at.Whole(t) && t.chunks != [] ==>
        at.contextOk && !at.accessOk && LeftWhole(t.addr, Entry(t.size, t.chunks, Gone), left))
    && (!at.contextOk && t.chunks != [] ==> at.created <= 1 && |left.live| == at.created && left.mapped == {})
  }

  lemma LeftExplained(t: Tuple, at: Attempt, hs: seq<nat>, left: Gpu)
    requires |hs| == |t.chunks| && left.reserved <= {Range(t.addr, t.size)} &&
      (left.mapped != {} ==> left.reserved != {})
    requires left.live == at.left.live && left.mapped == at.left.mapped
    requires at.Whole(t) && t.chunks != [] ==>
      at.contextOk && !at.accessOk && Distinct(hs) && at.left == Gpu({}, SetOf(hs), ChunkMaps(t.addr, t.chunks, hs))
    requires !at.contextOk && t.chunks != [] ==> at.created <= 1 && !at.Whole(t) && at.left == FirstOnly(at.created, hs)
    ensures Explained(t, at, left)
  {
    if at.Whole(t) && t.chunks != [] { WholeIsLeft(t, hs, left); }
  }

  lemma WholeIsLeft(t: Tuple, hs: seq<nat>, left: Gpu)
    requires |hs| == |t.chunks| > 0 && Distinct(hs) && left.reserved <= {Range(t.addr, t.size)}
    requires left.live == SetOf(hs) && left.mapped == ChunkMaps(t.addr, t.chunks, hs)
    requires left.mapped != {} ==> left.reserved != {}
    ensures LeftWhole(t.addr, Entry(t.size, t.chunks, Gone), left)
  {
    SomeChunk(t, hs);
    hide ChunkMaps, SetOf, Distinct;
    assert left.reserved == {Range(t.addr, t.size)};
  }

  lemma MallocDoneStep(w: World, t: Tuple, hs: seq<nat>, w2: World)
    requires Planned(t) && |hs| == |t.chunks| && FreshRange(w.gpu.reserved, t.addr, t.size)
    requires Distinct(hs) && SetOf(hs) !! w.gpu.live && ChunkMaps(t.addr, t.chunks, hs) !! w.gpu.mapped
    requires w2.gpu.reserved ==
      w.gpu.reserved + {Range(t.addr, t.size)} - {Range(t.addr, t.size)} + {Range(t.addr, t.size)}
    requires w2.gpu.live == w.gpu.live + SetOf(hs) && w2.gpu.mapped == w.gpu.mapped + ChunkMaps(t.addr, t.chunks, hs)
    requires w2.entries == w.entries[t.addr := Entry(t.size, t.chunks, Awake(hs))] && w2.leaked == w.leaked
    ensures Step(w, Malloc(t.addr, Entry(t.size, t.chunks, Awake(hs))), w2)
  {
    FreshIsNew(w.gpu.reserved, t.addr, t.size);
    assert w.leaked.Plus(EMPTY) == w.leaked;
    hide ChunkMaps, SetOf, FreshRange;
  }

  lemma MallocFailedStep(w: World, t: Tuple, hs: seq<nat>, left: Gpu, w2: World)
    requires Planned(t) && |hs| == |t.chunks| && FreshRange(w.gpu.reserved, t.addr, t.size)
    requires left.reserved <= {Range(t.addr, t.size)} && left.live !! w.gpu.live && left.mapped !! w.gpu.mapped
    requires left.mapped <= ChunkMaps(t.addr, t.chunks, hs) && (left.mapped != {} ==> left.reserved != {})
    requires w2.gpu.reserved == w.gpu.reserved + {Range(t.addr, t.size)} - {Range(t.addr, t.size)} + left.reserved
    requires w2.gpu.live == w.gpu.live + left.live && w2.gpu.mapped == w.gpu.mapped + left.mapped
    requires w2.entries == w.entries[t.addr := Entry(t.size, t.chunks, Gone)] && w2.leaked == w.leaked.Plus(left)
    ensures Step(w, MallocFailed(t.addr, Entry(t.size, t.chunks, Gone), left), w2)
  {
    FreshIsNew(w.gpu.reserved, t.addr, t.size);
    AllChunks(t, hs);
    hide ChunkMaps, FreshRange, InPlace;
  }

  /** How the last call of my_free ends: it succeeds only if nothing is mapped in the range any
      more, and after the range was lost it cannot succeed. */
  lemma FreeOutcome(base: Gpu, w: World, p: nat, torn: Torn, g: Gpu, status: nat, g2: Gpu)
    requires Inv(base, w) && BaseSound(base) && p in w.entries && !w.entries[p].phase.Gone?
    requires TearsEntry(w.gpu, p, w.entries[p], torn) && g == AfterTear(w.gpu, p, w.entries[p], torn)
    requires status == 0 ==> Range(p, w.entries[p].size) in g.reserved
    requires status == 0 ==> forall m :: m in g.mapped ==> !m.Overlaps(p, w.entries[p].size)
    requires g2 == if status == 0 then g.(reserved := g.reserved - {Range(p, w.entries[p].size)}) else g
    ensures var given, e := torn.lost || status == 0, w.entries[p];
      && (given ==> EntryMaps(p, e) <= torn.unmapped)
      && g2 == (if given then g.(reserved := g.reserved - EntryRanges(p, e)) else g)
      && (given <==> Range(p, e.size) !in g2.reserved)
    ensures EntryMaps(p, w.entries[p]) <= torn.unmapped && !torn.lost ==>
      Range(p, w.entries[p].size) in g.reserved && forall m :: m in g.mapped ==> !m.Overlaps(p, w.entries[p].size)
  {
    var e := w.entries[p];
    Held(base, w, p);
    PlausibleEntry(base, w, p);
    MapsInPlace(p, e);
    assert Range(p, e.size) in EntryRanges(p, e);
    hide Inv, EntryMaps, InPlace, EntryHandles, BaseSound;
    forall m | m in g.mapped && m.Overlaps(p, e.size) ensures m in EntryMaps(p, e) - torn.unmapped {
      TouchingMap(base, w, p, m);
    }
    if status == 0 {
      forall m | m in EntryMaps(p, e) ensures m in torn.unmapped {
        PlaceInside(p, e.size, e.chunks, m);
        assert m in w.gpu.mapped && m.Overlaps(p, e.size);
      }
    }
    if torn.lost {
      assert Range(p, e.size) !in g.reserved;
      assert g.reserved - EntryRanges(p, e) == g.reserved;
    }
  }

  lemma AccessIsMapped(driver: Driver)
    requires driver.Sound()
    ensures driver.access <= driver.gpu.mapped
  {
  }

  /** Mapping the next chunk into a free range is a sensible call. */
  lemma MapMakesSense(driver: Driver, g: Gpu, t: Tuple, hs: seq<nat>, i: nat)
    requires Planned(t) && i < |t.chunks| && i < |hs| && hs[i] in g.live
    requires Range(t.addr, t.size) in g.reserved && forall m :: m in g.mapped ==> !m.Overlaps(t.addr, t.size)
    requires driver.gpu == g.(mapped := g.mapped + FirstChunks(t, hs, i))
    ensures driver.CanMap(t.addr + Offset(t.chunks, i), t.chunks[i], hs[i])
  {
    hide Offset, Total, FirstChunks;
    ChunkInside(t, hs, i);
    ChunkBehind(t, hs, i);
  }

  /** A chunk that could be mapped is at a place where nothing was. */
  lemma NewChunk(t: Tuple, hs: seq<nat>, i: nat, mapped: set<Mapping>)
    requires i < |t.chunks| && i < |hs| && t.chunks[i] > 0
    requires t.Placed(mapped, i) == {} && FirstChunks(t, hs, i) !! mapped
    requires forall m :: m in mapped ==> !m.Overlaps(t.addr + Offset(t.chunks, i), t.chunks[i])
    ensures t.Placed(mapped, i + 1) == {} && FirstChunks(t, hs, i + 1) !! mapped
    ensures FirstChunks(t, hs, i + 1) == FirstChunks(t, hs, i) + {Chunk(t, hs, i)}
  {
    hide Offset;
    OneMoreChunk(t, hs, i);
    hide FirstChunks;
    assert t.Spot(mapped, i) == {};
  }

  lemma FirstAreChunks(t: Tuple, hs: seq<nat>, n: nat)
    requires n <= |t.chunks| == |hs|
    ensures FirstChunks(t, hs, n) <= ChunkMaps(t.addr, t.chunks, hs)
  {
    AllChunks(t, hs);
  }

  lemma ChunksWithin(t: Tuple, hs: seq<nat>, mapped: set<Mapping>)
    requires Planned(t) && |hs| == |t.chunks| && ChunkMaps(t.addr, t.chunks, hs) <= mapped
    ensures ChunkMaps(t.addr, t.chunks, hs) <= Within(mapped, t.addr, t.size)
  {
    AllChunks(t, hs);
    hide Offset, ChunkMaps;
    forall m | m in ChunkMaps(t.addr, t.chunks, hs) ensures m in Within(mapped, t.addr, t.size) {
      PlaceInside(t.addr, t.size, t.chunks, m);
    }
  }

  lemma SomeChunk(t: Tuple, hs: seq<nat>)
    requires t.chunks != [] && |hs| == |t.chunks|
    ensures ChunkMaps(t.addr, t.chunks, hs) != {}
  {
    assert Mapping(t.addr + Offset(t.chunks, 0), t.chunks[0], hs[0]) in ChunkMaps(t.addr, t.chunks, hs);
  }

  lemma PrefixIn(hs: seq<nat>, n: nat)
    requires n <= |hs|
    ensures SetOf(hs[..n]) <= SetOf(hs)
  {
    forall h | h in SetOf(hs[..n]) ensures h in SetOf(hs) {
      var i :| 0 <= i < n && hs[..n][i] == h;
      assert hs[i] == h;
    }
  }

  lemma NoChunksYet(t: Tuple, hs: seq<nat>, mapped: set<Mapping>)
    ensures t.Placed(mapped, 0) == {} && FirstChunks(t, hs, 0) == {} && Offset(t.chunks, 0) == 0
  {
    assert t.chunks[..0] == [];
    EmptyTotal();
  }
}
