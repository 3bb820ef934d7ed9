/** The state the chunked allocator moves through: reserved address ranges, live physical
    handles and mappings on the device, and the table of allocations. Events are what one
    call can do when any driver call in it may fail. */
module SleepWorld {
  import opened Index
  import opened Unique

  datatype Range = Range(addr: nat, size: nat) {
    predicate Overlaps(a: nat, n: nat) { addr < a + n && a < addr + size }
    predicate Contains(a: nat, n: nat) { addr <= a && a + n <= addr + size }
  }

  datatype Mapping = Mapping(addr: nat, size: nat, handle: nat) {
    predicate Overlaps(a: nat, n: nat) { addr < a + n && a < addr + size }
  }

  /** What the driver holds, or a part of it. */
  datatype Gpu = Gpu(reserved: set<Range>, live: set<nat>, mapped: set<Mapping>) {
    function Plus(g: Gpu): Gpu { Gpu(reserved + g.reserved, live + g.live, mapped + g.mapped) }
  }

  const EMPTY: Gpu := Gpu({}, {}, {})

  /** Awake: every chunk created and mapped. Holding: the range is reserved, with the handles and
      mappings that are left, none of them when asleep. Gone: nothing is held although the table
      still lists the allocation. */
  datatype Phase = Awake(handles: seq<nat>) | Holding(held: set<nat>, maps: set<Mapping>) | Gone {
    predicate Asleep() { this == Holding({}, {}) }
  }

  datatype Entry = Entry(size: nat, chunks: seq<nat>, phase: Phase)

  /** leaked: what nothing in the table refers to any more. */
  datatype World = World(gpu: Gpu, entries: map<nat, Entry>, leaked: Gpu)

  ghost function Offset(sizes: seq<nat>, i: int): nat
    requires 0 <= i <= |sizes|
  {
    Total(sizes[..i])
  }

  /** Chunk i mapped behind the chunks before it. */
  ghost function ChunkMaps(addr: nat, sizes: seq<nat>, handles: seq<nat>): set<Mapping>
    requires |handles| == |sizes|
  {
    set i | 0 <= i < |sizes| :: Mapping(addr + Offset(sizes, i), sizes[i], handles[i])
  }

  /** A mapping of the place of some chunk. */
  ghost predicate InPlace(addr: nat, sizes: seq<nat>, m: Mapping)
  {
    exists i :: 0 <= i < |sizes| && m.addr == addr + Offset(sizes, i) && m.size == sizes[i]
  }

  ghost function SetOf(handles: seq<nat>): set<nat> { set i | 0 <= i < |handles| :: handles[i] }

  /** A range cut into chunks, or into none at all. */
  ghost predicate Cut(size: nat, chunks: seq<nat>)
  {
    size > 0 && (chunks == [] || Total(chunks) == size) && forall i :: 0 <= i < |chunks| ==> chunks[i] > 0
  }

  ghost predicate Plausible(p: nat, e: Entry)
  {
    && Cut(e.size, e.chunks)
    && (e.phase.Awake? ==> |e.phase.handles| == |e.chunks| && Distinct(e.phase.handles))
    && (e.phase.Holding? ==> forall m :: m in e.phase.maps ==> InPlace(p, e.chunks, m))
  }

  // ---- what each table entry accounts for ---------------------------------

  ghost function EntryRanges(p: nat, e: Entry): set<Range>
  {
    if e.phase.Gone? then {} else {Range(p, e.size)}
  }

  ghost function EntryHandles(e: Entry): set<nat>
  {
    match e.phase
    case Awake(handles) => SetOf(handles)
    case Holding(held, _) => held
    case Gone => {}
  }

  ghost function EntryMaps(p: nat, e: Entry): set<Mapping>
  {
    match e.phase
    case Awake(handles) => if |handles| == |e.chunks| then ChunkMaps(p, e.chunks, handles) else {}
    case Holding(_, maps) => maps
    case Gone => {}
  }

  ghost function Ranges(m: map<nat, Entry>): map<nat, set<Range>> { map p | p in m :: EntryRanges(p, m[p]) }
  ghost function Handles(m: map<nat, Entry>): map<nat, set<nat>> { map p | p in m :: EntryHandles(m[p]) }
  ghost function Maps(m: map<nat, Entry>): map<nat, set<Mapping>> { map p | p in m :: EntryMaps(p, m[p]) }

  ghost function Union<T>(pieces: map<nat, set<T>>): set<T> { set p, x | p in pieces && x in pieces[p] :: x }

  /** total is the disjoint union of base and the pieces. */
  ghost predicate Accounts<T>(total: set<T>, base: set<T>, pieces: map<nat, set<T>>)
  {
    && total == base + Union(pieces)
    && base !! Union(pieces)
    && (forall p, q :: p in pieces && q in pieces && p != q ==> pieces[p] !! pieces[q])
  }

  ghost function Piece<T>(pieces: map<nat, set<T>>, p: nat): set<T> { if p in pieces then pieces[p] else {} }

  /** Exchanging one piece for new elements keeps the account. */
  lemma AccountPut<T>(total: set<T>, base: set<T>, pieces: map<nat, set<T>>, p: nat, s: set<T>)
    requires Accounts(total, base, pieces) && s !! total - Piece(pieces, p)
    ensures Accounts(total - Piece(pieces, p) + s, base, pieces[p := s])
  {
    var before := Piece(pieces, p);
    var pieces2 := pieces[p := s];
    assert before <= Union(pieces);
    forall x ensures x in Union(pieces2) <==> x in Union(pieces) - before || x in s {
      if x in Union(pieces2) {
        var q :| q in pieces2 && x in pieces2[q];
        if q != p { assert x in pieces[q]; }
      }
      if x in Union(pieces) - before {
        var q :| q in pieces && x in pieces[q];
        assert x in pieces2[q];
      }
      if x in s { assert x in pieces2[p]; }
    }
    forall q | q in pieces && q != p ensures pieces[q] <= total - before {
    }
  }

  lemma AccountDrop<T>(total: set<T>, base: set<T>, pieces: map<nat, set<T>>, p: nat)
    requires Accounts(total, base, pieces)
    ensures Accounts(total - Piece(pieces, p), base, pieces - {p})
  {
    AccountPut(total, base, pieces, p, {});
    var pieces2 := pieces[p := {}];
    forall x ensures x in Union(pieces2) <==> x in Union(pieces - {p}) {
      if x in Union(pieces2) {
        var q :| q in pieces2 && x in pieces2[q];
        assert x in (pieces - {p})[q];
      }
      if x in Union(pieces - {p}) {
        var q :| q in pieces - {p} && x in (pieces - {p})[q];
        assert x in pieces2[q];
      }
    }
    assert total - Piece(pieces, p) + {} == total - Piece(pieces, p);
  }

  /** Part of the total passes from the pieces, or from outside, to the base. */
  lemma AccountLose<T>(total: set<T>, base: set<T>, pieces: map<nat, set<T>>, lost: set<T>)
    requires Accounts(total, base, pieces) && lost !! total
    ensures Accounts(total + lost, base + lost, pieces)
  {
  }

  /** One piece is exchanged, and what is lost joins the base. */
  lemma AccountStep<T>(total: set<T>, base: set<T>, pieces: map<nat, set<T>>, p: nat, piece: set<T>, lost: set<T>)
    requires Accounts(total, base, pieces)
    requires piece !! total - Piece(pieces, p) && lost !! total - Piece(pieces, p) && piece !! lost
    ensures Accounts(total - Piece(pieces, p) + piece + lost, base + lost, pieces[p := piece])
  {
    AccountPut(total, base, pieces, p, piece);
    AccountLose(total - Piece(pieces, p) + piece, base, pieces[p := piece], lost);
  }

  // ---- the invariant ------------------------------------------------------

  ghost predicate Separate(reserved: set<Range>)
  {
    forall r, s :: r in reserved && s in reserved && r != s ==> !r.Overlaps(s.addr, s.size)
  }

  ghost predicate FreshRange(reserved: set<Range>, p: nat, size: nat)
  {
    forall r :: r in reserved ==> !r.Overlaps(p, size)
  }

  /** Every mapping lies in one of the ranges. */
  ghost predicate AtHome(mapped: set<Mapping>, ranges: set<Range>)
  {
    forall m :: m in mapped ==> m.size > 0 && exists r :: r in ranges && r.Contains(m.addr, m.size)
  }

  /** Everything the driver holds is the ambient state base, plus what leaked, plus what the
      table accounts for; no two reserved ranges overlap, and leaked mappings lie in ranges that
      no allocation holds. */
  ghost predicate Inv(base: Gpu, w: World)
  {
    && (forall p :: p in w.entries ==> Plausible(p, w.entries[p]))
    && Accounts(w.gpu.reserved, base.reserved + w.leaked.reserved, Ranges(w.entries))
    && Accounts(w.gpu.live, base.live + w.leaked.live, Handles(w.entries))
    && Accounts(w.gpu.mapped, base.mapped + w.leaked.mapped, Maps(w.entries))
    && Separate(w.gpu.reserved)
    && AtHome(w.leaked.mapped, base.reserved + w.leaked.reserved)
  }

  /** Ambient mappings lie in ambient reservations, and those do not overlap. */
  ghost predicate BaseSound(base: Gpu)
  {
    Separate(base.reserved) && AtHome(base.mapped, base.reserved)
  }

  // ---- events -------------------------------------------------------------

  /** What unmap_and_release did: the mappings and handles whose calls succeeded, whether the
      range was lost, and a range got at another address that could not be given back. */
  datatype Torn = Torn(unmapped: set<Mapping>, released: set<nat>, lost: bool, stray: set<Range>)

  /** left: what a failed call leaves behind. kept: the handles that are in the cells after a
      failed wake. given: whether the range was given back. */
  datatype Event =
    | Malloc(p: nat, e: Entry)
    | MallocFailed(p: nat, e: Entry, left: Gpu)
    | Nothing
    | Sleep(p: nat, torn: Torn)
    | Wake(p: nat, handles: seq<nat>)
    | WakeFailed(p: nat, left: Gpu, kept: set<nat>)
    | WakeGone(p: nat, left: Gpu)
    | Free(p: nat, torn: Torn, given: bool)

  /** The ranges of an entry that a tear-down takes away. */
  ghost function Away(p: nat, e: Entry, torn: Torn): set<Range> { if torn.lost then EntryRanges(p, e) else {} }

  ghost predicate IsStray(rest: set<Range>, p: nat, size: nat, stray: set<Range>)
  {
    stray == {} || exists a :: a != p && stray == {Range(a, size)} && FreshRange(rest, a, size)
  }

  /** Only what is mapped in the entry's range is unmapped, and the range is lost only once
      everything the entry holds is gone. */
  ghost predicate Tears(w: World, p: nat, torn: Torn)
  {
    && p in w.entries && !w.entries[p].phase.Gone?
    && var e := w.entries[p];
       && torn.unmapped <= EntryMaps(p, e)
       && (torn.lost ==> torn.unmapped == EntryMaps(p, e) && EntryHandles(e) <= torn.released)
       && (torn.stray != {} ==> torn.lost)
       && IsStray(w.gpu.reserved - EntryRanges(p, e), p, e.size, torn.stray)
  }

  ghost function AfterTear(g: Gpu, p: nat, e: Entry, torn: Torn): Gpu
  {
    Gpu(g.reserved - Away(p, e, torn) + torn.stray, g.live - torn.released, g.mapped - torn.unmapped)
  }

  /** The entry of an allocation after a tear-down. */
  ghost function Rest(p: nat, e: Entry, torn: Torn): Entry
  {
    e.(phase := if torn.lost then Gone else Holding(EntryHandles(e) - torn.released, EntryMaps(p, e) - torn.unmapped))
  }

  /** What an event leaks. */
  ghost function Lost(w: World, ev: Event): Gpu
  {
    match ev
    case MallocFailed(_, _, left) => left
    case Sleep(_, torn) => Gpu(torn.stray, {}, {})
    case Wake(p, _) => if p in w.entries then Gpu({}, EntryHandles(w.entries[p]), {}) else EMPTY
    case WakeFailed(p, left, kept) =>
      if p in w.entries then Gpu({}, EntryHandles(w.entries[p]) + left.live - kept, {}) else EMPTY
    case WakeGone(_, left) => left
    case Free(p, torn, given) =>
      if p in w.entries then
        var e := w.entries[p];
        Gpu((if given then {} else EntryRanges(p, e)) + torn.stray, EntryHandles(e) - torn.released,
            EntryMaps(p, e) - torn.unmapped)
      else EMPTY
    case _ => EMPTY
  }

  /** What a failed my_malloc left behind is new, and mappings keep the range from going. */
  ghost predicate LeftBehind(w: World, p: nat, e: Entry, left: Gpu)
  {
    && Plausible(p, e) && e.phase.Gone? && FreshRange(w.gpu.reserved, p, e.size)
    && left.reserved <= {Range(p, e.size)} && left.live !! w.gpu.live && left.mapped !! w.gpu.mapped
    && (forall m :: m in left.mapped ==> InPlace(p, e.chunks, m))
    && (left.mapped != {} ==> left.reserved != {})
  }

  /** Sleeping and freeing; the handles released may be stale ones that belong to others. */
  ghost predicate Slept(w: World, p: nat, torn: Torn, w2: World)
  {
    && Tears(w, p, torn)
    && w2.leaked == w.leaked.Plus(Lost(w, Sleep(p, torn)))
    && w2.gpu == AfterTear(w.gpu, p, w.entries[p], torn)
    && w2.entries == w.entries[p := Rest(p, w.entries[p], torn)]
  }

  ghost predicate Freed(w: World, p: nat, torn: Torn, given: bool, w2: World)
  {
    && Tears(w, p, torn) && (torn.lost ==> given)
    && (given ==> EntryMaps(p, w.entries[p]) <= torn.unmapped)
    && w2.leaked == w.leaked.Plus(Lost(w, Free(p, torn, given)))
    && w2.gpu == (var g := AfterTear(w.gpu, p, w.entries[p], torn);
         g.(reserved := if given then g.reserved - EntryRanges(p, w.entries[p]) else g.reserved))
    && w2.entries == w.entries - {p}
  }

  ghost predicate Step(w: World, ev: Event, w2: World)
  {
    && w2.leaked == w.leaked.Plus(Lost(w, ev))
    && match ev
       case Malloc(p, e) =>
         && Plausible(p, e) && e.phase.Awake? && FreshRange(w.gpu.reserved, p, e.size)
         && EntryHandles(e) !! w.gpu.live && EntryMaps(p, e) !! w.gpu.mapped
         && w2.gpu == w.gpu.Plus(Gpu({Range(p, e.size)}, EntryHandles(e), EntryMaps(p, e)))
         && w2.entries == w.entries[p := e]
       case MallocFailed(p, e, left) =>
         LeftBehind(w, p, e, left) && w2.gpu == w.gpu.Plus(left) && w2.entries == w.entries[p := e]
       case Nothing => w2.gpu == w.gpu && w2.entries == w.entries
       case Sleep(p, torn) => Slept(w, p, torn, w2) && torn.released <= EntryHandles(w.entries[p])
       case Wake(p, hs) =>
         && p in w.entries && !w.entries[p].phase.Gone? && EntryMaps(p, w.entries[p]) == {}
         && |hs| == |w.entries[p].chunks| && Distinct(hs) && SetOf(hs) !! w.gpu.live
         && ChunkMaps(p, w.entries[p].chunks, hs) !! w.gpu.mapped
         && w2.gpu == w.gpu.Plus(Gpu({}, SetOf(hs), ChunkMaps(p, w.entries[p].chunks, hs)))
         && w2.entries == w.entries[p := w.entries[p].(phase := Awake(hs))]
       case WakeFailed(p, left, kept) =>
         && p in w.entries && !w.entries[p].phase.Gone?
         && left.reserved == {} && left.live !! w.gpu.live && left.mapped !! w.gpu.mapped
         && (forall m :: m in left.mapped ==> InPlace(p, w.entries[p].chunks, m))
         && w2.gpu == w.gpu.Plus(left)
         && w2.entries == w.entries[p := w.entries[p].(phase :=
              Holding((EntryHandles(w.entries[p]) + left.live) * kept, EntryMaps(p, w.entries[p]) + left.mapped))]
       case WakeGone(p, left) =>
         && p in w.entries && w.entries[p].phase.Gone?
         && left.reserved == {} && left.mapped == {} && left.live !! w.gpu.live
         && w2.gpu == w.gpu.Plus(left) && w2.entries == w.entries
       case Free(p, torn, given) => Freed(w, p, torn, given, w2) && torn.released <= EntryHandles(w.entries[p])
  }

  // ---- every event keeps the invariant ------------------------------------

  /** What the driver holds beside entry p. */
  ghost function Beside(w: World, p: nat): Gpu
  {
    Gpu(w.gpu.reserved - Piece(Ranges(w.entries), p), w.gpu.live - Piece(Handles(w.entries), p),
        w.gpu.mapped - Piece(Maps(w.entries), p))
  }

  ghost predicate Apart(a: Gpu, b: Gpu)
  {
    a.reserved !! b.reserved && a.live !! b.live && a.mapped !! b.mapped
  }

  ghost function HoldingsOf(p: nat, e: Entry): Gpu { Gpu(EntryRanges(p, e), EntryHandles(e), EntryMaps(p, e)) }

  /** A new or changed table entry and new leaks, with the driver's holdings changed to match. */
  lemma PutEntry(base: Gpu, w: World, p: nat, e: Entry, lost: Gpu, w2: World)
    requires Inv(base, w) && Plausible(p, e)
    requires Apart(HoldingsOf(p, e), Beside(w, p)) && Apart(lost, Beside(w, p)) && Apart(HoldingsOf(p, e), lost)
    requires w2 == World(Beside(w, p).Plus(HoldingsOf(p, e)).Plus(lost), w.entries[p := e], w.leaked.Plus(lost))
    requires Separate(w2.gpu.reserved) && AtHome(lost.mapped, lost.reserved)
    ensures Inv(base, w2)
  {
    hide Accounts, Piece, Plausible, EntryRanges, EntryHandles, EntryMaps, Separate;
    AccountStep(w.gpu.reserved, base.reserved + w.leaked.reserved, Ranges(w.entries), p, EntryRanges(p, e),
                lost.reserved);
    AccountStep(w.gpu.live, base.live + w.leaked.live, Handles(w.entries), p, EntryHandles(e), lost.live);
    AccountStep(w.gpu.mapped, base.mapped + w.leaked.mapped, Maps(w.entries), p, EntryMaps(p, e), lost.mapped);
    MapsPut(w.entries, p, e);
    assert base.reserved + w.leaked.reserved + lost.reserved == base.reserved + w2.leaked.reserved;
    assert base.live + w.leaked.live + lost.live == base.live + w2.leaked.live;
    assert base.mapped + w.leaked.mapped + lost.mapped == base.mapped + w2.leaked.mapped;
    HomeGrows(w.leaked.mapped, base.reserved + w.leaked.reserved, base.reserved + w2.leaked.reserved);
    HomeGrows(lost.mapped, lost.reserved, base.reserved + w2.leaked.reserved);
  }

  lemma HomeGrows(mapped: set<Mapping>, a: set<Range>, b: set<Range>)
    requires AtHome(mapped, a) && a <= b
    ensures AtHome(mapped, b)
  {
  }

  lemma MapsPut(m: map<nat, Entry>, p: nat, e: Entry)
    ensures Ranges(m[p := e]) == Ranges(m)[p := EntryRanges(p, e)]
    ensures Handles(m[p := e]) == Handles(m)[p := EntryHandles(e)]
    ensures Maps(m[p := e]) == Maps(m)[p := EntryMaps(p, e)]
  {
  }

  lemma PiecesOf(w: World, p: nat)
    requires p in w.entries
    ensures Piece(Ranges(w.entries), p) == EntryRanges(p, w.entries[p])
    ensures Piece(Handles(w.entries), p) == EntryHandles(w.entries[p])
    ensures Piece(Maps(w.entries), p) == EntryMaps(p, w.entries[p])
  {
  }

  /** The table's pieces are among the driver's holdings. */
  lemma Held(base: Gpu, w: World, p: nat)
    requires Inv(base, w) && p in w.entries
    ensures EntryRanges(p, w.entries[p]) <= w.gpu.reserved
    ensures EntryHandles(w.entries[p]) <= w.gpu.live
    ensures EntryMaps(p, w.entries[p]) <= w.gpu.mapped
  {
    PiecesOf(w, p);
    assert Ranges(w.entries)[p] <= Union(Ranges(w.entries));
    assert Handles(w.entries)[p] <= Union(Handles(w.entries));
    assert Maps(w.entries)[p] <= Union(Maps(w.entries));
  }

  /** A fresh address is not that of an entry that still holds its range. */
  lemma FreshEntry(base: Gpu, w: World, p: nat, size: nat)
    requires Inv(base, w) && size > 0 && FreshRange(w.gpu.reserved, p, size)
    ensures p in w.entries ==> w.entries[p].phase.Gone?
    ensures Beside(w, p) == w.gpu
    ensures Separate(w.gpu.reserved + {Range(p, size)}) && Range(p, size) !in w.gpu.reserved
  {
    if p in w.entries {
      Held(base, w, p);
      assert Range(p, w.entries[p].size).Overlaps(p, size);
    }
    OneMoreRange(w.gpu.reserved, p, size);
  }

  lemma OneMoreRange(reserved: set<Range>, p: nat, size: nat)
    requires Separate(reserved) && size > 0 && FreshRange(reserved, p, size)
    ensures Separate(reserved + {Range(p, size)}) && Range(p, size) !in reserved
  {
    assert Range(p, size).Overlaps(p, size);
    assert forall r: Range :: r.Overlaps(p, size) <==> Range(p, size).Overlaps(r.addr, r.size);
  }

  lemma SeparateSubset(a: set<Range>, b: set<Range>)
    requires Separate(b) && a <= b
    ensures Separate(a)
  {
  }

  lemma MallocKeeps(base: Gpu, w: World, p: nat, e: Entry, w2: World)
    requires Inv(base, w) && Step(w, Malloc(p, e), w2)
    ensures Inv(base, w2)
  {
    FreshEntry(base, w, p, e.size);
    hide Inv, Separate, FreshRange, Beside, EntryHandles, EntryMaps, Plausible;
    PutEntry(base, w, p, e, EMPTY, w2);
  }

  lemma MallocFailedKeeps(base: Gpu, w: World, p: nat, e: Entry, left: Gpu, w2: World)
    requires Inv(base, w) && Step(w, MallocFailed(p, e, left), w2)
    ensures Inv(base, w2)
  {
    FreshEntry(base, w, p, e.size);
    forall m | m in left.mapped ensures m.size > 0 && Range(p, e.size).Contains(m.addr, m.size) {
      PlaceInside(p, e.size, e.chunks, m);
    }
    SeparateSubset(w2.gpu.reserved, w.gpu.reserved + {Range(p, e.size)});
    hide Inv, Separate, FreshRange, Beside, Plausible;
    PutEntry(base, w, p, e, left, w2);
  }

  lemma TearSeparate(w: World, p: nat, torn: Torn)
    requires Tears(w, p, torn) && Separate(w.gpu.reserved) && w.entries[p].size > 0
    ensures torn.stray !! w.gpu.reserved - EntryRanges(p, w.entries[p])
    ensures Separate(AfterTear(w.gpu, p, w.entries[p], torn).reserved)
  {
    var e := w.entries[p];
    var rest := w.gpu.reserved - EntryRanges(p, e);
    SeparateSubset(rest, w.gpu.reserved);
    if torn.stray != {} {
      var a :| a != p && torn.stray == {Range(a, e.size)} && FreshRange(rest, a, e.size);
      hide Separate, FreshRange;
      OneMoreRange(rest, a, e.size);
    } else {
      SeparateSubset(w.gpu.reserved - Away(p, e, torn), w.gpu.reserved);
      assert AfterTear(w.gpu, p, e, torn).reserved == w.gpu.reserved - Away(p, e, torn);
    }
  }

  /** The driver holds what the entry holds and what is beside it. */
  lemma SplitOwn(base: Gpu, w: World, p: nat)
    requires Inv(base, w) && p in w.entries
    ensures Apart(HoldingsOf(p, w.entries[p]), Beside(w, p))
    ensures w.gpu == Beside(w, p).Plus(HoldingsOf(p, w.entries[p]))
  {
    Held(base, w, p);
    PiecesOf(w, p);
    hide Inv, Piece, Ranges, Handles, Maps, EntryRanges, EntryHandles, EntryMaps;
    var e := w.entries[p];
    assert w.gpu.reserved == w.gpu.reserved - EntryRanges(p, e) + EntryRanges(p, e);
    assert w.gpu.live == w.gpu.live - EntryHandles(e) + EntryHandles(e);
    assert w.gpu.mapped == w.gpu.mapped - EntryMaps(p, e) + EntryMaps(p, e);
  }

  lemma Carve<T>(total: set<T>, rest: set<T>, own: set<T>, gone: set<T>)
    requires total == rest + own && own !! rest && gone <= own
    ensures total - gone == rest + (own - gone)
  {
  }

  lemma RestHolds(p: nat, e: Entry, torn: Torn)
    requires Plausible(p, e) && !e.phase.Gone?
    requires torn.lost ==> torn.unmapped == EntryMaps(p, e) && torn.released == EntryHandles(e)
    ensures Plausible(p, Rest(p, e, torn))
    ensures HoldingsOf(p, Rest(p, e, torn))
         == Gpu(EntryRanges(p, e) - Away(p, e, torn), EntryHandles(e) - torn.released, EntryMaps(p, e) - torn.unmapped)
  {
    MapsInPlace(p, e);
    hide ChunkMaps, SetOf, InPlace, Cut;
  }

  lemma PlausibleEntry(base: Gpu, w: World, p: nat)
    requires Inv(base, w) && p in w.entries
    ensures Plausible(p, w.entries[p]) && w.entries[p].size > 0 && Separate(w.gpu.reserved)
  {
  }

  lemma SleepKeeps(base: Gpu, w: World, p: nat, torn: Torn, w2: World)
    requires Inv(base, w) && Step(w, Sleep(p, torn), w2)
    ensures Inv(base, w2)
  {
    hide Inv, Separate, EntryHandles, EntryMaps, EntryRanges, Plausible, Piece, Ranges, Handles, Maps, IsStray, Rest;
    var e := w.entries[p];
    PlausibleEntry(base, w, p);
    SplitOwn(base, w, p);
    TearSeparate(w, p, torn);
    RestHolds(p, e, torn);
    PiecesOf(w, p);
    hide Step, Tears;
    var b, lost := Beside(w, p), Gpu(torn.stray, {}, {});
    assert b.reserved == w.gpu.reserved - EntryRanges(p, e);
    hide Beside;
    Carve(w.gpu.reserved, b.reserved, EntryRanges(p, e), Away(p, e, torn));
    Carve(w.gpu.live, b.live, EntryHandles(e), torn.released);
    Carve(w.gpu.mapped, b.mapped, EntryMaps(p, e), torn.unmapped);
    PutEntry(base, w, p, Rest(p, e, torn), lost, w2);
  }

  /** What an entry maps is in the places of its chunks. */
  lemma MapsInPlace(p: nat, e: Entry)
    requires Plausible(p, e)
    ensures forall m :: m in EntryMaps(p, e) ==> InPlace(p, e.chunks, m)
  {
  }

  lemma AwakeHoldings(p: nat, e: Entry, hs: seq<nat>)
    requires Plausible(p, e) && !e.phase.Gone? && |hs| == |e.chunks| && Distinct(hs)
    ensures Plausible(p, e.(phase := Awake(hs)))
    ensures HoldingsOf(p, e.(phase := Awake(hs))) == Gpu(EntryRanges(p, e), SetOf(hs), ChunkMaps(p, e.chunks, hs))
  {
  }

  lemma WakeKeeps(base: Gpu, w: World, p: nat, hs: seq<nat>, w2: World)
    requires Inv(base, w) && Step(w, Wake(p, hs), w2)
    ensures Inv(base, w2)
  {
    hide Inv, Separate, Plausible, EntryHandles, EntryMaps, EntryRanges, ChunkMaps, SetOf, Beside, Distinct;
    var e := w.entries[p];
    PlausibleEntry(base, w, p);
    SplitOwn(base, w, p);
    AwakeHoldings(p, e, hs);
    assert w2.gpu.reserved == w.gpu.reserved;
    PutEntry(base, w, p, e.(phase := Awake(hs)), Gpu({}, EntryHandles(e), {}), w2);
  }

  lemma HoldingHoldings(p: nat, e: Entry, held: set<nat>, maps: set<Mapping>)
    requires Plausible(p, e) && !e.phase.Gone? && forall m :: m in maps ==> InPlace(p, e.chunks, m)
    ensures Plausible(p, e.(phase := Holding(held, maps)))
    ensures HoldingsOf(p, e.(phase := Holding(held, maps))) == Gpu(EntryRanges(p, e), held, maps)
  {
  }

  lemma WakeFailedKeeps(base: Gpu, w: World, p: nat, left: Gpu, kept: set<nat>, w2: World)
    requires Inv(base, w) && Step(w, WakeFailed(p, left, kept), w2)
    ensures Inv(base, w2)
  {
    hide Inv, Separate, Plausible, EntryHandles, EntryMaps, EntryRanges, Beside, InPlace;
    var e := w.entries[p];
    PlausibleEntry(base, w, p);
    SplitOwn(base, w, p);
    MapsInPlace(p, e);
    var all, maps := EntryHandles(e) + left.live, EntryMaps(p, e) + left.mapped;
    HoldingHoldings(p, e, all * kept, maps);
    assert all == all * kept + (all - kept);
    assert w2.gpu.reserved == w.gpu.reserved;
    PutEntry(base, w, p, e.(phase := Holding(all * kept, maps)), Gpu({}, all - kept, {}), w2);
  }

  /** New holdings that nothing refers to keep the books balanced exactly if no mapping among them
      lies in a range that an allocation holds. */
  lemma LeakNew(base: Gpu, w: World, left: Gpu, w2: World)
    requires Inv(base, w) && left.reserved == {} && left.live !! w.gpu.live && left.mapped !! w.gpu.mapped
    requires w2 == World(w.gpu.Plus(left), w.entries, w.leaked.Plus(left))
    ensures Inv(base, w2) <==> AtHome(left.mapped, base.reserved + w2.leaked.reserved)
  {
    AccountLose(w.gpu.reserved, base.reserved + w.leaked.reserved, Ranges(w.entries), left.reserved);
    AccountLose(w.gpu.live, base.live + w.leaked.live, Handles(w.entries), left.live);
    AccountLose(w.gpu.mapped, base.mapped + w.leaked.mapped, Maps(w.entries), left.mapped);
    assert base.reserved + w.leaked.reserved + left.reserved == base.reserved + w2.leaked.reserved;
    assert base.live + w.leaked.live + left.live == base.live + w2.leaked.live;
    assert base.mapped + w.leaked.mapped + left.mapped == base.mapped + w2.leaked.mapped;
    assert w2.gpu.reserved == w.gpu.reserved && w2.leaked.reserved == w.leaked.reserved;
    hide Accounts, Separate, Plausible;
  }

  lemma DropGone(base: Gpu, w: World, p: nat)
    requires Inv(base, w) && p in w.entries && w.entries[p].phase.Gone?
    ensures Inv(base, w.(entries := w.entries - {p}))
  {
    hide Accounts, Separate;
    PiecesOf(w, p);
    AccountDrop(w.gpu.reserved, base.reserved + w.leaked.reserved, Ranges(w.entries), p);
    AccountDrop(w.gpu.live, base.live + w.leaked.live, Handles(w.entries), p);
    AccountDrop(w.gpu.mapped, base.mapped + w.leaked.mapped, Maps(w.entries), p);
    var m := w.entries - {p};
    assert Ranges(m) == Ranges(w.entries) - {p} && Handles(m) == Handles(w.entries) - {p} &&
      Maps(m) == Maps(w.entries) - {p};
    assert w.gpu.reserved - {} == w.gpu.reserved && w.gpu.live - {} == w.gpu.live && w.gpu.mapped - {} == w.gpu.mapped;
  }

  lemma FreeKeeps(base: Gpu, w: World, p: nat, torn: Torn, given: bool, w2: World)
    requires Inv(base, w) && Step(w, Free(p, torn, given), w2)
    ensures Inv(base, w2)
  {
    hide Inv, Separate, EntryHandles, EntryMaps, EntryRanges, Plausible, Piece, Ranges, Handles, Maps, IsStray, AtHome;
    var e := w.entries[p];
    var e2, lost := e.(phase := Gone), Lost(w, Free(p, torn, given));
    var mid := w2.(entries := w.entries[p := e2]);
    PlausibleEntry(base, w, p);
    SplitOwn(base, w, p);
    TearSeparate(w, p, torn);
    SeparateSubset(w2.gpu.reserved, AfterTear(w.gpu, p, e, torn).reserved);
    LostAtHome(p, e, torn, given);
    GoneHoldings(p, e);
    StrayIsNew(w.gpu.reserved, p, e, torn.stray);
    PiecesOf(w, p);
    var b := Beside(w, p);
    assert b.reserved == w.gpu.reserved - EntryRanges(p, e);
    FreedRanges(w.gpu.reserved, EntryRanges(p, e), torn.stray, torn.lost, given);
    hide Beside;
    Carve(w.gpu.live, b.live, EntryHandles(e), torn.released);
    Carve(w.gpu.mapped, b.mapped, EntryMaps(p, e), torn.unmapped);
    PutEntry(base, w, p, e2, lost, mid);
    DropGone(base, mid, p);
    assert mid.entries - {p} == w2.entries;
  }

  lemma GoneHoldings(p: nat, e: Entry)
    requires Plausible(p, e)
    ensures Plausible(p, e.(phase := Gone)) && HoldingsOf(p, e.(phase := Gone)) == EMPTY
  {
  }

  lemma FreedRanges(reserved: set<Range>, own: set<Range>, stray: set<Range>, lost: bool, given: bool)
    requires own <= reserved && stray !! own && (lost ==> given) && (stray != {} ==> lost)
    ensures var torn := reserved - (if lost then own else {}) + stray;
      (if given then torn - own else torn) == reserved - own + ((if given then {} else own) + stray)
  {
  }

  lemma StrayIsNew(reserved: set<Range>, p: nat, e: Entry, stray: set<Range>)
    requires IsStray(reserved - EntryRanges(p, e), p, e.size, stray)
    ensures stray !! EntryRanges(p, e)
  {
  }

  /** What a free leaves mapped lies in the range it could not give back. */
  lemma LostAtHome(p: nat, e: Entry, torn: Torn, given: bool)
    requires Plausible(p, e) && !e.phase.Gone? && (given ==> EntryMaps(p, e) <= torn.unmapped)
    ensures AtHome(EntryMaps(p, e) - torn.unmapped, (if given then {} else EntryRanges(p, e)) + torn.stray)
  {
    MapsInPlace(p, e);
    hide EntryMaps, InPlace;
    forall m | m in EntryMaps(p, e) - torn.unmapped ensures m.size > 0 && Range(p, e.size).Contains(m.addr, m.size) {
      PlaceInside(p, e.size, e.chunks, m);
    }
    if !given { assert Range(p, e.size) in EntryRanges(p, e); }
  }

  /** Every event keeps the books balanced. */
  lemma StepKeeps(base: Gpu, w: World, ev: Event, w2: World)
    requires Inv(base, w) && Step(w, ev, w2)
    ensures Inv(base, w2)
  {
    match ev
    case Malloc(p, e) => MallocKeeps(base, w, p, e, w2);
    case MallocFailed(p, e, left) => MallocFailedKeeps(base, w, p, e, left, w2);
    case Nothing => assert w2 == w;
    case Sleep(p, torn) => SleepKeeps(base, w, p, torn, w2);
    case Wake(p, hs) => WakeKeeps(base, w, p, hs, w2);
    case WakeFailed(p, left, kept) => WakeFailedKeeps(base, w, p, left, kept, w2);
    case WakeGone(p, left) => LeakNew(base, w, left, w2);
    case Free(p, torn, given) => FreeKeeps(base, w, p, torn, given, w2);
  }

  // ---- places -------------------------------------------------------------

  lemma {:induction false} OffsetStep(sizes: seq<nat>, i: nat)
    requires i < |sizes|
    ensures Offset(sizes, i + 1) == Offset(sizes, i) + sizes[i]
  {
    TakeTotal(sizes, i);
  }

  lemma OffsetBetween(sizes: seq<nat>, i: nat, j: nat)
    requires i <= j <= |sizes|
    ensures Offset(sizes, i) <= Offset(sizes, j)
  {
    TotalMono(sizes, i, j);
  }

  /** A chunk's place lies inside its allocation. */
  lemma PlaceInside(p: nat, size: nat, chunks: seq<nat>, m: Mapping)
    requires Cut(size, chunks) && InPlace(p, chunks, m)
    ensures Range(p, size).Contains(m.addr, m.size) && m.size > 0
  {
    var i :| 0 <= i < |chunks| && m.addr == p + Offset(chunks, i) && m.size == chunks[i];
    OffsetStep(chunks, i);
    OffsetBetween(chunks, i + 1, |chunks|);
    assert chunks[..|chunks|] == chunks;
  }
}
