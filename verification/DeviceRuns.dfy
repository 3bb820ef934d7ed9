/** Whole runs of DeviceBuffer: any sequence of operations, writes through views included, then
    build and unpack. */
module PackedRuns {
  import opened Index
  import opened Unique
  import opened PackedBuffer

  // ---- what a run means ---------------------------------------------------

  /** Write(v, i, x) writes element i of the v-th view handed out. */
  datatype Op =
    | Append(data: seq<int>, key: Key)
    | GetView(size: nat, key: Key)
    | SetKey(name: string)
    | Write(view: nat, i: nat, x: int)
    | Reset

  /** Where a view lies, and how often the buffer had grown when it was handed out. */
  datatype Window = Window(offset: nat, size: nat, epoch: nat)

  /** The tagged sections, what was added since the last tag, what lies in the buffer behind it, how
      often the buffer has grown and how much that has copied, and the views. */
  datatype State = State(
    sections: seq<Section>, pending: seq<int>, room: seq<int>, epoch: nat, copied: nat, views: seq<Window>)

  function Length(sections: seq<Section>): nat
  {
    if sections == [] then 0 else Length(sections[..|sections| - 1]) + |sections[|sections| - 1].data|
  }

  function Used(s: State): nat { Length(s.sections) + |s.pending| }

  function Capacity(s: State): nat { Used(s) + |s.room| }

  ghost function Start(capacity: nat): State { State([], [], Zeros(capacity), 0, 0, []) }

  /** Makes room for size more elements. */
  ghost function Grow(s: State, size: nat): (g: State)
    ensures size <= |g.room|
  {
    if size <= |s.room| then s
    else s.(room := RoomFor(s.room, Used(s), size), epoch := s.epoch + 1, copied := s.copied + Used(s))
  }

  function Tag(s: State, name: string): State
  {
    s.(sections := s.sections + [Section(name, s.pending)], pending := [])
  }

  /** Data goes over the front of the room, and into a section if a key is given. */
  function Added(s: State, data: seq<int>, key: Key): State
    requires |data| <= |s.room|
  {
    var t := s.(pending := s.pending + data, room := s.room[|data|..]);
    if key.Named? && key.name != "" then Tag(t, key.name) else t
  }

  /** Position pos of the sections laid end to end is overwritten. */
  function WriteIn(sections: seq<Section>, pos: nat, x: int): (r: seq<Section>)
    requires pos < Length(sections)
    ensures |r| == |sections|
  {
    var n := |sections| - 1;
    var last, start := sections[n], Length(sections[..n]);
    if pos < start then WriteIn(sections[..n], pos, x) + [last]
    else sections[..n] + [last.(data := last.data[pos - start := x])]
  }

  function Written(s: State, pos: nat, x: int): State
    requires pos < Capacity(s)
  {
    if pos < Length(s.sections) then s.(sections := WriteIn(s.sections, pos, x))
    else if pos < Used(s) then s.(pending := s.pending[pos - Length(s.sections) := x])
    else s.(room := s.room[pos - Used(s) := x])
  }

  /** One operation. A view is handed out on whatever lies in the room. A write counts while the
      buffer has not grown since. After a reset all the data is room again. */
  ghost function After(s: State, op: Op): State
  {
    match op
    case Append(data, key) => Added(Grow(s, |data|), data, key)
    case GetView(size, key) =>
      var g := Grow(s, size);
      Added(g.(views := g.views + [Window(Used(g), size, g.epoch)]), g.room[..size], key)
    case SetKey(name) => Tag(s, name)
    case Write(v, i, x) =>
      if v < |s.views| && i < s.views[v].size && s.views[v].epoch == s.epoch && s.views[v].offset + i < Capacity(s)
      then Written(s, s.views[v].offset + i, x) else s
    case Reset => s.(sections := [], pending := [], room := Laid(s.sections) + s.pending + s.room)
  }

  ghost function Fold(ops: seq<Op>, capacity: nat, n: nat): State
    requires n <= |ops|
  {
    if n == 0 then Start(capacity) else After(Fold(ops, capacity, n - 1), ops[n - 1])
  }

  // ---- what a write changes -----------------------------------------------

  function Laid(sections: seq<Section>): (d: seq<int>)
    ensures |d| == Length(sections)
  {
    if sections == [] then [] else Laid(sections[..|sections| - 1]) + sections[|sections| - 1].data
  }

  lemma LaidSnoc(sections: seq<Section>, last: Section)
    ensures Laid(sections + [last]) == Laid(sections) + last.data
  {
    assert (sections + [last])[..|sections|] == sections;
  }

  /** A write changes one position and neither keys nor sizes. */
  lemma {:induction false} WriteInOne(sections: seq<Section>, pos: nat, x: int)
    requires pos < Length(sections)
    ensures Laid(WriteIn(sections, pos, x)) == Laid(sections)[pos := x]
    ensures forall k :: 0 <= k < |sections| ==>
      var r := WriteIn(sections, pos, x); r[k].key == sections[k].key && |r[k].data| == |sections[k].data|
  {
    hide Laid, Length, WriteIn;
    WriteInLast(sections, pos, x);
    var n := |sections| - 1;
    var init, last, start := sections[..n], sections[n], Length(sections[..n]);
    assert sections == init + [last];
    LaidSnoc(init, last);
    if pos < start {
      WriteInOne(init, pos, x);
      LaidSnoc(WriteIn(init, pos, x), last);
      assert Laid(sections)[pos := x] == Laid(init)[pos := x] + last.data;
    } else {
      var last2 := last.(data := last.data[pos - start := x]);
      LaidSnoc(init, last2);
      assert Laid(sections)[pos := x] == Laid(init) + last2.data;
    }
  }

  lemma {:induction false} SectionLengths(blob: seq<int>, keys: seq<string>, sizes: seq<nat>)
    requires |keys| == |sizes| && Total(sizes) <= |blob|
    ensures Length(Sections(blob, keys, sizes)) == Total(sizes)
  {
    if sizes != [] {
      var n := |sizes| - 1;
      TotalMono(sizes, n, n + 1);
      assert sizes[..n + 1] == sizes;
      SectionLengths(blob, keys[..n], sizes[..n]);
      LastSection(blob, keys, sizes);
      var s := Sections(blob, keys, sizes);
      assert s[..n] == Sections(blob, keys[..n], sizes[..n]);
    }
  }

  /** Writing into the blob is writing into the section laid there. */
  lemma {:induction false} WriteBlob(blob: seq<int>, keys: seq<string>, sizes: seq<nat>, pos: nat, x: int)
    requires |keys| == |sizes| && pos < Total(sizes) <= |blob|
    ensures Length(Sections(blob, keys, sizes)) == Total(sizes)
    ensures Sections(blob[pos := x], keys, sizes) == WriteIn(Sections(blob, keys, sizes), pos, x)
  {
    hide Total, Sections, WriteIn, Length;
    var n := |sizes| - 1;
    NoneIsNothing();
    var start := Total(sizes[..n]);
    TotalMono(sizes, n, n + 1);
    assert sizes[..n + 1] == sizes;
    LastSection(blob, keys, sizes);
    LastSection(blob[pos := x], keys, sizes);
    SectionLengths(blob, keys, sizes);
    SectionLengths(blob, keys[..n], sizes[..n]);
    var s := Sections(blob, keys, sizes);
    assert s[..n] == Sections(blob, keys[..n], sizes[..n]);
    WriteInLast(s, pos, x);
    if pos < start {
      WriteBlob(blob, keys[..n], sizes[..n], pos, x);
      assert blob[pos := x][start..Total(sizes)] == blob[start..Total(sizes)];
    } else {
      assert blob[pos := x][..start] == blob[..start];
      SectionsPrefix(blob, blob[pos := x], keys[..n], sizes[..n]);
      assert blob[pos := x][start..Total(sizes)] == blob[start..Total(sizes)][pos - start := x];
    }
  }

  lemma NoneIsNothing()
    ensures Total([]) == 0
  {
  }

  lemma WriteInLast(s: seq<Section>, pos: nat, x: int)
    requires pos < Length(s)
    ensures s != []
    ensures var n := |s| - 1; var start := Length(s[..n]);
      && start <= Length(s) && (pos >= start ==> pos - start < |s[n].data|)
      && WriteIn(s, pos, x) == if pos < start then WriteIn(s[..n], pos, x) + [s[n]]
                               else s[..n] + [s[n].(data := s[n].data[pos - start := x])]
  {
  }

  // ---- the run ------------------------------------------------------------

  /** A view is on the buffer's array exactly while the buffer has not grown since. */
  ghost predicate Placed(buffer: array<int>, views: seq<View>, s: State)
  {
    && |views| == |s.views|
    && forall v :: 0 <= v < |views| ==>
         && views[v].offset == s.views[v].offset && views[v].size == s.views[v].size
         && s.views[v].epoch <= s.epoch && (views[v].data == buffer <==> s.views[v].epoch == s.epoch)
         && views[v].offset + views[v].size <= views[v].data.Length
  }

  /** The buffer and the views are in the state that the operations mean. */
  ghost predicate Shows(b: DeviceBuffer, views: seq<View>, s: State)
    reads b, b.buffer
  {
    && b.Valid() && b.Tagged() == s.sections && b.Pending() == s.pending && b.Room() == s.room
    && b.offset == Used(s) && b.copied == s.copied && Placed(b.buffer, views, s)
  }

  ghost function Arrays(views: seq<View>): set<array<int>> { set v | 0 <= v < |views| :: views[v].data }

  lemma MorePlaced(old_: array<int>, now: array<int>, views: seq<View>, s: State, size: nat)
    requires Placed(old_, views, s) && (now == old_ <==> size <= |s.room|)
    requires now != old_ ==> now !in Arrays(views)
    ensures Placed(now, views, Grow(s, size))
  {
    assert forall v :: 0 <= v < |views| ==> views[v].data in Arrays(views);
  }

  lemma TagUses(s: State, name: string)
    ensures Used(Tag(s, name)) == Used(s)
  {
    assert Tag(s, name).sections[..|s.sections|] == s.sections;
  }

  lemma AddUses(s: State, data: seq<int>, key: Key)
    requires |data| <= |s.room|
    ensures Used(Added(s, data, key)) == Used(s) + |data|
  {
    if key.Named? && key.name != "" { TagUses(s.(pending := s.pending + data, room := s.room[|data|..]), key.name); }
  }

  /** A write into the part in use, seen as sections and pending data. */
  lemma WrittenShows(before: seq<int>, keys: seq<string>, sizes: seq<nat>, s: State, pos: nat, x: int)
    requires |keys| == |sizes| && Total(sizes) <= |before| && pos < |before|
    requires s.sections == Sections(before, keys, sizes) && s.pending == before[Total(sizes)..]
    ensures Used(s) == |before|
    ensures Written(s, pos, x).sections == Sections(before[pos := x], keys, sizes)
    ensures Written(s, pos, x).pending == before[pos := x][Total(sizes)..]
    ensures Used(Written(s, pos, x)) == |before|
  {
    hide Total, Sections, WriteIn, Length;
    SectionLengths(before, keys, sizes);
    SectionLengths(before[pos := x], keys, sizes);
    if pos < Total(sizes) {
      WriteBlob(before, keys, sizes, pos, x);
    } else {
      SectionsPrefix(before, before[pos := x], keys, sizes);
    }
  }

  /** The sections laid end to end are the tagged part of the blob. */
  lemma {:induction false} LaidIs(blob: seq<int>, keys: seq<string>, sizes: seq<nat>)
    requires |keys| == |sizes| && Total(sizes) <= |blob|
    ensures Laid(Sections(blob, keys, sizes)) == blob[..Total(sizes)]
  {
    if sizes != [] {
      var n := |sizes| - 1;
      TotalMono(sizes, n, n + 1);
      assert sizes[..n + 1] == sizes;
      LaidIs(blob, keys[..n], sizes[..n]);
      LastSection(blob, keys, sizes);
      LaidSnoc(Sections(blob, keys[..n], sizes[..n]), Section(keys[n], blob[Total(sizes[..n])..Total(sizes)]));
    }
  }

  /** What growing copies is paid for by the capacity gained. */
  lemma {:induction false} CopyingIsPaid(ops: seq<Op>, capacity: nat, n: nat)
    requires n <= |ops|
    ensures capacity + Fold(ops, capacity, n).copied <= Capacity(Fold(ops, capacity, n))
  {
    hide Fold, After;
    FoldAt(ops, capacity, n);
    if n > 0 {
      CopyingIsPaid(ops, capacity, n - 1);
      PaidStep(Fold(ops, capacity, n - 1), ops[n - 1]);
    }
  }

  lemma FoldAt(ops: seq<Op>, capacity: nat, n: nat)
    requires n <= |ops|
    ensures Fold(ops, capacity, n) == if n == 0 then Start(capacity) else After(Fold(ops, capacity, n - 1), ops[n - 1])
    ensures Start(capacity).copied == 0 && Start(capacity).sections == [] && Capacity(Start(capacity)) == capacity
  {
  }

  lemma PaidStep(s: State, op: Op)
    ensures After(s, op).copied - s.copied <= Capacity(After(s, op)) - Capacity(s)
  {
    hide Length, Laid, WriteIn;
    match op
    case Append(data, key) => AddUses(Grow(s, |data|), data, key);
    case GetView(size, key) =>
      var g := Grow(s, size);
      AddUses(g.(views := g.views + [Window(Used(g), size, g.epoch)]), g.room[..size], key);
    case SetKey(name) => TagUses(s, name);
    case Write(v, i, x) =>
      if v < |s.views| && s.views[v].offset + i < Length(s.sections) {
        WriteInOne(s.sections, s.views[v].offset + i, x);
        LaidLength(s.sections);
        LaidLength(WriteIn(s.sections, s.views[v].offset + i, x));
      }
    case Reset => LaidLength(s.sections); LaidLength([]);
  }

  lemma LaidLength(sections: seq<Section>)
    ensures |Laid(sections)| == Length(sections) && (sections == [] ==> Length(sections) == 0)
  {
  }

  method DoAppend(b: DeviceBuffer, views: seq<View>, data: seq<int>, key: Key, ghost s: State)
    requires Shows(b, views, s)
    modifies b, b.buffer
    ensures Shows(b, views, Added(Grow(s, |data|), data, key)) && (b.buffer == old(b.buffer) || fresh(b.buffer))
  {
    hide Length, Placed, Grow;
    hide DeviceBuffer.Valid, DeviceBuffer.Tagged, DeviceBuffer.Pending, DeviceBuffer.Contents, DeviceBuffer.Room;
    OldArrays(views);
    RoomLength(b, views, s);
    b.Append(data, key);
    GrowKeeps(s, |data|);
    AddUses(Grow(s, |data|), data, key);
    MorePlaced(old(b.buffer), b.buffer, views, s, |data|);
    SameViews(b.buffer, views, Grow(s, |data|), Added(Grow(s, |data|), data, key));
  }

  method DoView(b: DeviceBuffer, views: seq<View>, size: nat, key: Key, ghost s: State) returns (views2: seq<View>)
    requires Shows(b, views, s)
    modifies b
    ensures Shows(b, views2, After(s, GetView(size, key)))
    ensures (b.buffer == old(b.buffer) || fresh(b.buffer)) && Arrays(views2) <= Arrays(views) + {b.buffer}
  {
    hide Length, Placed, Grow;
    hide DeviceBuffer.Valid, DeviceBuffer.Tagged, DeviceBuffer.Pending, DeviceBuffer.Contents, DeviceBuffer.Room;
    OldArrays(views);
    RoomLength(b, views, s);
    var v := b.GetView(size, key);
    views2 := views + [v];
    GrowKeeps(s, size);
    ghost var g := Grow(s, size);
    ghost var found := g.room[..size];
    ghost var g2 := g.(views := g.views + [Window(Used(g), size, g.epoch)]);
    AddUses(g2, found, key);
    MorePlaced(old(b.buffer), b.buffer, views, s, size);
    OneMoreView(b.buffer, views, v, g);
    SameViews(b.buffer, views2, g2, Added(g2, found, key));
  }

  method DoSetKey(b: DeviceBuffer, views: seq<View>, name: string, ghost s: State)
    requires Shows(b, views, s)
    modifies b`keys, b`sizes, b`lastOffset
    ensures Shows(b, views, Tag(s, name))
  {
    hide Length, Placed;
    hide DeviceBuffer.Valid, DeviceBuffer.Tagged, DeviceBuffer.Pending, DeviceBuffer.Contents, DeviceBuffer.Room;
    b.SetKey(name);
    TagUses(s, name);
    SameViews(b.buffer, views, s, Tag(s, name));
  }

  method DoReset(b: DeviceBuffer, views: seq<View>, ghost s: State)
    requires Shows(b, views, s)
    modifies b`offset, b`lastOffset, b`keys, b`sizes
    ensures Shows(b, views, After(s, Reset))
  {
    hide Laid, Length, Placed;
    hide DeviceBuffer.Valid, DeviceBuffer.Tagged, DeviceBuffer.Pending, DeviceBuffer.Contents, DeviceBuffer.Room;
    WholeBuffer(b, views, s);
    LaidLength([]);
    b.Reset();
    SameViews(b.buffer, views, s, After(s, Reset));
  }

  lemma WholeBuffer(b: DeviceBuffer, views: seq<View>, s: State)
    requires Shows(b, views, s)
    ensures b.Contents() + b.Room() == Laid(s.sections) + s.pending + s.room
  {
    hide PackedBuffer.Sections, Total, Laid, Length, Placed;
    var blob := b.Contents();
    LaidIs(blob, b.keys, b.sizes);
    assert blob == blob[..Total(b.sizes)] + blob[Total(b.sizes)..];
  }

  method DoWrite(b: DeviceBuffer, views: seq<View>, v: nat, i: nat, x: int, ghost s: State)
    requires Shows(b, views, s) && v < |views| && i < views[v].size
    modifies views[v].data
    ensures Shows(b, views, After(s, Write(v, i, x)))
  {
    hide Length, PackedBuffer.Sections, Total, Written;
    ghost var before, pos := b.Contents(), views[v].offset + i;
    b.WriteView(views[v], i, x);
    if views[v].data == b.buffer {
      WrittenViews(s, pos, x);
      if pos < b.offset { WrittenShows(before, b.keys, b.sizes, s, pos, x); }
    }
  }

  /** One operation on the buffer does what it means. */
  method Perform(b: DeviceBuffer, views: seq<View>, op: Op, ghost s: State) returns (views2: seq<View>)
    requires Shows(b, views, s)
    modifies b, b.buffer, Arrays(views)
    ensures Shows(b, views2, After(s, op))
    ensures (b.buffer == old(b.buffer) || fresh(b.buffer)) && Arrays(views2) <= Arrays(views) + {b.buffer}
  {
    views2 := views;
    if op.Write? {
      ViewCount(b, views, s);
      hide Shows, Written, Used;
      if op.view < |views| && op.i < views[op.view].size {
        assert views[op.view].data in Arrays(views);
        DoWrite(b, views, op.view, op.i, op.x, s);
      } else {
        assert After(s, op) == s;
      }
    } else {
      hide Shows, Added, Grow, Tag;
      match op
      case Append(data, key) => DoAppend(b, views, data, key, s);
      case GetView(size, key) => views2 := DoView(b, views, size, key, s);
      case SetKey(name) => DoSetKey(b, views, name, s);
      case Reset => DoReset(b, views, s);
    }
  }

  lemma ViewCount(b: DeviceBuffer, views: seq<View>, s: State)
    requires Shows(b, views, s)
    ensures |views| == |s.views| && forall v :: 0 <= v < |views| ==> views[v].size == s.views[v].size
  {
  }

  lemma RoomLength(b: DeviceBuffer, views: seq<View>, s: State)
    requires Shows(b, views, s)
    ensures b.offset == Used(s) && b.buffer.Length == Used(s) + |s.room|
  {
  }

  lemma OldArrays(views: seq<View>)
    ensures forall v :: 0 <= v < |views| ==> views[v].data in Arrays(views)
  {
  }

  lemma GrowKeeps(s: State, size: nat)
    ensures var g := Grow(s, size);
      && g.sections == s.sections && g.pending == s.pending && g.views == s.views
      && g.room == RoomFor(s.room, Used(s), size)
      && g.copied == s.copied + if size <= |s.room| then 0 else Used(s)
  {
  }

  lemma SameViews(buffer: array<int>, views: seq<View>, s: State, s2: State)
    requires Placed(buffer, views, s) && s2.views == s.views && s2.epoch == s.epoch
    ensures Placed(buffer, views, s2)
  {
  }

  lemma OneMoreView(buffer: array<int>, views: seq<View>, v: View, s: State)
    requires Placed(buffer, views, s) && v.data == buffer && v.offset + v.size <= buffer.Length
    ensures Placed(buffer, views + [v], s.(views := s.views + [Window(v.offset, v.size, s.epoch)]))
  {
  }

  lemma WrittenViews(s: State, pos: nat, x: int)
    requires pos < Capacity(s)
    ensures var w := Written(s, pos, x);
      && w.views == s.views && w.epoch == s.epoch && w.copied == s.copied
      && if pos < Used(s) then w.room == s.room else w == s.(room := s.room[pos - Used(s) := x])
  {
  }

  lemma AtFirst(b: DeviceBuffer, capacity: nat)
    requires b.Valid() && b.Tagged() == [] && b.Pending() == [] && b.Room() == Zeros(capacity)
    requires b.offset == 0 && b.copied == 0
    ensures Shows(b, [], Start(capacity)) && Arrays([]) == {}
    ensures forall ops :: Fold(ops, capacity, 0) == Start(capacity)
  {
  }

  lemma FoldNext(ops: seq<Op>, capacity: nat, n: nat)
    requires n < |ops|
    ensures Fold(ops, capacity, n + 1) == After(Fold(ops, capacity, n), ops[n])
  {
    hide After;
  }

  /** All operations in order. */
  method Drive(initialCapacity: nat, ops: seq<Op>) returns (b: DeviceBuffer, views: seq<View>)
    ensures fresh(b) && Shows(b, views, Fold(ops, initialCapacity, |ops|))
  {
    hide *;
    b := new DeviceBuffer(initialCapacity);
    views := [];
    AtFirst(b, initialCapacity);
    ghost var s := Start(initialCapacity);
    for k := 0 to |ops|
      invariant fresh(b) && fresh(b.buffer) && fresh(Arrays(views))
      invariant s == Fold(ops, initialCapacity, k) && Shows(b, views, s)
    {
      FoldNext(ops, initialCapacity, k);
      views := Perform(b, views, ops[k], s);
      s := After(s, ops[k]);
    }
  }

  // ---- the names ----------------------------------------------------------

  /** The operation tags what is pending with this name; the empty string given with data does not. */
  ghost predicate Gives(op: Op, name: string)
  {
    op == SetKey(name) || ((op.Append? || op.GetView?) && op.key == Named(name) && name != "")
  }

  /** The name was given by one of the first n operations and not thrown away by a reset since. */
  ghost predicate GivenSinceReset(ops: seq<Op>, n: nat, name: string)
    requires n <= |ops|
  {
    exists k :: 0 <= k < n && Gives(ops[k], name) && forall j :: k < j < n ==> !ops[j].Reset?
  }

  lemma KeysAfter(s: State, op: Op, name: string)
    ensures name in KeysOf(After(s, op).sections) <==> !op.Reset? && (name in KeysOf(s.sections) || Gives(op, name))
  {
    hide Length, Laid, WriteIn, Grow;
    match op
    case Append(data, key) =>
      GrowKeeps(s, |data|);
      KeysAdded(Grow(s, |data|), data, key, name);
    case GetView(size, key) =>
      GrowKeeps(s, size);
      var g := Grow(s, size);
      KeysAdded(g.(views := g.views + [Window(Used(g), size, g.epoch)]), g.room[..size], key, name);
    case SetKey(given) => KeysSnoc(s.sections, Section(given, s.pending), name);
    case Write(v, i, x) =>
      if v < |s.views| && s.views[v].offset + i < Length(s.sections) {
        KeysWritten(s.sections, s.views[v].offset + i, x);
      }
    case Reset => assert KeysOf([]) == [];
  }

  lemma KeysAdded(s: State, data: seq<int>, key: Key, name: string)
    requires |data| <= |s.room|
    ensures name in KeysOf(Added(s, data, key).sections)
       <==> name in KeysOf(s.sections) || (key == Named(name) && name != "")
  {
    if key.Named? && key.name != "" { KeysSnoc(s.sections, Section(key.name, s.pending + data), name); }
  }

  lemma KeysSnoc(sections: seq<Section>, last: Section, name: string)
    ensures name in KeysOf(sections + [last]) <==> name in KeysOf(sections) || last.key == name
  {
    assert KeysOf(sections + [last]) == KeysOf(sections) + [last.key];
  }

  lemma KeysWritten(sections: seq<Section>, pos: nat, x: int)
    requires pos < Length(sections)
    ensures KeysOf(WriteIn(sections, pos, x)) == KeysOf(sections)
  {
    WriteInOne(sections, pos, x);
  }

  /** The names of the sections are those given since the last reset. */
  lemma {:induction false} KeysGiven(ops: seq<Op>, capacity: nat, n: nat, name: string)
    requires n <= |ops|
    ensures name in KeysOf(Fold(ops, capacity, n).sections) <==> GivenSinceReset(ops, n, name)
  {
    hide Fold, After;
    FoldAt(ops, capacity, n);
    if n == 0 {
      assert KeysOf([]) == [];
    } else {
      KeysGiven(ops, capacity, n - 1, name);
      KeysAfter(Fold(ops, capacity, n - 1), ops[n - 1], name);
      GivenStep(ops, n, name);
    }
  }

  lemma GivenStep(ops: seq<Op>, n: nat, name: string)
    requires 0 < n <= |ops|
    ensures GivenSinceReset(ops, n, name)
       <==> Gives(ops[n - 1], name) || (!ops[n - 1].Reset? && GivenSinceReset(ops, n - 1, name))
  {
    hide Gives;
    if !ops[n - 1].Reset? && GivenSinceReset(ops, n - 1, name) {
      var k :| 0 <= k < n - 1 && Gives(ops[k], name) && forall j :: k < j < n - 1 ==> !ops[j].Reset?;
      assert forall j :: k < j < n ==> !ops[j].Reset?;
    }
  }

  /** Any sequence of operations, then build and unpack. If the keys of the tagged sections are
      distinct, unpacking gives every key exactly its section, writes through views and what is left
      from before a reset included, if and only if nothing is left untagged (or there is no key). */
  method Run(initialCapacity: nat, ops: seq<Op>) returns (unpacked: map<string, seq<int>>)
    ensures var s := Fold(ops, initialCapacity, |ops|);
      && (forall name :: name in unpacked <==> GivenSinceReset(ops, |ops|, name))
      && (Distinct(KeysOf(s.sections)) ==> (Exact(unpacked, s.sections) <==> s.sections == [] || s.pending == []))
  {
    var b, views := Drive(initialCapacity, ops);
    var blob, keys, sizes := b.Build();
    unpacked := Unpack(blob, keys, sizes, |keys|);
    hide Unpack, Sections, Fold, Placed, Total;
    SameKeys(blob, keys, sizes);
    UnpackKeys(blob, keys, sizes, |keys|);
    if Distinct(keys) { UnpackExact(blob, keys, sizes); }
    assert keys[..|keys|] == keys;
    hide KeysOf, GivenSinceReset;
    forall name ensures name in keys <==> GivenSinceReset(ops, |ops|, name) {
      KeysGiven(ops, initialCapacity, |ops|, name);
    }
  }

  /** Every section is found under its key. */
  ghost predicate Exact(unpacked: map<string, seq<int>>, sections: seq<Section>)
  {
    forall k :: 0 <= k < |sections| ==> sections[k].key in unpacked && unpacked[sections[k].key] == sections[k].data
  }

  lemma UnpackExact(blob: seq<int>, keys: seq<string>, sizes: seq<nat>)
    requires |keys| == |sizes| && Total(sizes) <= |blob| && Distinct(keys)
    ensures Exact(Unpack(blob, keys, sizes, |keys|), Sections(blob, keys, sizes)) <==>
      keys == [] || blob[Total(sizes)..] == []
  {
    UnpackExactIff(blob, keys, sizes);
    SameKeys(blob, keys, sizes);
    hide Unpack, Sections, Total;
    var s := Sections(blob, keys, sizes);
    forall k: nat | k < |s| ensures s[k].key == keys[k] { assert KeysOf(s)[k] == keys[k]; }
  }

  ghost function KeysOf(sections: seq<Section>): (keys: seq<string>)
    ensures |keys| == |sections| && forall k :: 0 <= k < |keys| ==> keys[k] == sections[k].key
  {
    seq(|sections|, k requires 0 <= k < |sections| => sections[k].key)
  }

  lemma SameKeys(blob: seq<int>, keys: seq<string>, sizes: seq<nat>)
    requires |keys| == |sizes| && Total(sizes) <= |blob|
    ensures KeysOf(Sections(blob, keys, sizes)) == keys
  {
    hide Sections, Total;
    forall k: nat | k < |keys|
      ensures Sections(blob, keys, sizes)[k].key == keys[k] { SectionAt(blob, keys, sizes, k); }
  }

  lemma {:induction false} UnpackKeys(blob: seq<int>, keys: seq<string>, sizes: seq<nat>, n: nat)
    requires |keys| == |sizes| && n <= |keys|
    ensures forall name :: name in Unpack(blob, keys, sizes, n) <==> name in keys[..n]
  {
    if n > 0 {
      UnpackKeys(blob, keys, sizes, n - 1);
      assert keys[..n] == keys[..n - 1] + [keys[n - 1]];
    }
  }
}
