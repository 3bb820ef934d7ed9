/** DeviceBuffer: one-dimensional arrays packed into a growing buffer, handed out as views, and
    unpacked again by key. */
module PackedBuffer {
  import opened Index
  import opened Unique

  /** A window into an array, as get_view returns it. */
  datatype View = View(data: array<int>, offset: nat, size: nat)

  /** A key argument: absent, or a string; the empty string counts as absent. */
  datatype Key = NoKey | Named(name: string) {
    predicate Tags() { Named? && name != "" }
  }

  datatype Section = Section(key: string, data: seq<int>)

  // ---- layout -------------------------------------------------------------

  /** The tagged sections of a blob laid out by keys and sizes. */
  ghost function Sections(blob: seq<int>, keys: seq<string>, sizes: seq<nat>): (s: seq<Section>)
    requires |keys| == |sizes| && Total(sizes) <= |blob|
    ensures |s| == |keys|
  {
    if sizes == [] then [] else
      var n := |sizes| - 1;
      Sections(blob, keys[..n], sizes[..n]) + [Section(keys[n], blob[Total(sizes[..n])..Total(sizes)])]
  }

  /** numpy.cumsum(sizes)[:-1]: the cut points. */
  function Cuts(sizes: seq<nat>): (c: seq<nat>)
    ensures |c| == if sizes == [] then 0 else |sizes| - 1
  {
    if |sizes| < 2 then [] else Cuts(sizes[..|sizes| - 1]) + [Total(sizes[..|sizes| - 1])]
  }

  /** Part i of a blob split at the cut points; the last part runs to the end. */
  function Part(blob: seq<int>, cuts: seq<nat>, i: nat): seq<int>
    requires i <= |cuts|
  {
    var lo := if i == 0 then 0 else cuts[i - 1];
    var hi := if i == |cuts| then |blob| else cuts[i];
    if lo <= hi <= |blob| then blob[lo..hi] else []
  }

  /** unpack_arrays: key i gets part i; of equal keys the last wins. */
  function Unpack(blob: seq<int>, keys: seq<string>, sizes: seq<nat>, n: nat): map<string, seq<int>>
    requires |keys| == |sizes| && n <= |keys|
  {
    if n == 0 then map[] else Unpack(blob, keys, sizes, n - 1)[keys[n - 1] := Part(blob, Cuts(sizes), n - 1)]
  }

  lemma {:induction false} CutAt(sizes: seq<nat>, i: nat)
    requires i + 1 < |sizes|
    ensures Cuts(sizes)[i] == Total(sizes[..i + 1])
  {
    var n := |sizes| - 1;
    if i + 1 < n {
      CutAt(sizes[..n], i);
      assert sizes[..n][..i + 1] == sizes[..i + 1];
    }
  }

  lemma {:induction false} SectionAt(blob: seq<int>, keys: seq<string>, sizes: seq<nat>, i: nat)
    requires |keys| == |sizes| && Total(sizes) <= |blob| && i < |keys|
    ensures Total(sizes[..i]) <= Total(sizes[..i + 1]) <= |blob|
    ensures Sections(blob, keys, sizes)[i] == Section(keys[i], blob[Total(sizes[..i])..Total(sizes[..i + 1])])
  {
    var n := |sizes| - 1;
    TotalMono(sizes, i, i + 1);
    TotalMono(sizes, i + 1, |sizes|);
    assert sizes[..|sizes|] == sizes;
    if i < n {
      SectionAt(blob, keys[..n], sizes[..n], i);
      assert sizes[..n][..i] == sizes[..i] && sizes[..n][..i + 1] == sizes[..i + 1];
    }
  }

  /** Part i starts where the sizes before it end, and ends where the next one starts. */
  lemma PartAt(blob: seq<int>, sizes: seq<nat>, i: nat)
    requires Total(sizes) <= |blob| && i < |sizes|
    ensures Total(sizes[..i]) <= Total(sizes[..i + 1]) <= |blob| && i <= |Cuts(sizes)|
    ensures Part(blob, Cuts(sizes), i)
         == blob[Total(sizes[..i])..if i + 1 == |sizes| then |blob| else Total(sizes[..i + 1])]
  {
    hide Total, Cuts;
    TotalMono(sizes, i, i + 1);
    TotalMono(sizes, i + 1, |sizes|);
    assert sizes[..|sizes|] == sizes;
    if i > 0 { CutAt(sizes, i - 1); } else { EmptyTotal(); assert sizes[..0] == []; }
    if i + 1 < |sizes| { CutAt(sizes, i); }
  }

  /** Split parts are the sections; only the last one also gets what was never tagged. */
  lemma PartIsSection(blob: seq<int>, keys: seq<string>, sizes: seq<nat>, i: nat)
    requires |keys| == |sizes| && Total(sizes) <= |blob| && i < |keys|
    ensures i <= |Cuts(sizes)|
    ensures Part(blob, Cuts(sizes), i)
         == Sections(blob, keys, sizes)[i].data + if i == |keys| - 1 then blob[Total(sizes)..] else []
  {
    hide Total, Cuts, Sections, Part;
    SectionAt(blob, keys, sizes, i);
    PartAt(blob, sizes, i);
    if i == |keys| - 1 { assert sizes[..i + 1] == sizes; }
  }

  lemma {:induction false} UnpackAt(blob: seq<int>, keys: seq<string>, sizes: seq<nat>, n: nat, i: nat)
    requires |keys| == |sizes| && i < n <= |keys| && Distinct(keys)
    ensures keys[i] in Unpack(blob, keys, sizes, n) &&
      Unpack(blob, keys, sizes, n)[keys[i]] == Part(blob, Cuts(sizes), i)
  {
    if i < n - 1 { UnpackAt(blob, keys, sizes, n - 1, i); }
  }

  /** With distinct keys, unpacking gives every key exactly the data tagged with it if and only
      if nothing was left untagged (or there is no key at all). */
  lemma UnpackExactIff(blob: seq<int>, keys: seq<string>, sizes: seq<nat>)
    requires |keys| == |sizes| && Total(sizes) <= |blob| && Distinct(keys)
    ensures (forall i :: 0 <= i < |keys| ==>
               keys[i] in Unpack(blob, keys, sizes, |keys|) &&
               Unpack(blob, keys, sizes, |keys|)[keys[i]] == Sections(blob, keys, sizes)[i].data)
       <==> keys == [] || Total(sizes) == |blob|
  {
    forall i: nat | i < |keys|
      ensures keys[i] in Unpack(blob, keys, sizes, |keys|)
      ensures Unpack(blob, keys, sizes, |keys|)[keys[i]] == Sections(blob, keys, sizes)[i].data
              + if i == |keys| - 1 then blob[Total(sizes)..] else []
    {
      UnpackAt(blob, keys, sizes, |keys|, i);
      PartIsSection(blob, keys, sizes, i);
    }
    if keys != [] {
      var d := Sections(blob, keys, sizes)[|keys| - 1].data;
      assert |d + blob[Total(sizes)..]| == |d| + |blob| - Total(sizes);
    }
  }

  /** Sections only look at the tagged prefix. */
  lemma {:induction false} SectionsPrefix(blob: seq<int>, blob2: seq<int>, keys: seq<string>, sizes: seq<nat>)
    requires |keys| == |sizes| && Total(sizes) <= |blob| && Total(sizes) <= |blob2|
    requires blob[..Total(sizes)] == blob2[..Total(sizes)]
    ensures Sections(blob, keys, sizes) == Sections(blob2, keys, sizes)
  {
    if sizes != [] {
      var n, a, b := |sizes| - 1, Total(sizes[..|sizes| - 1]), Total(sizes);
      assert blob[..a] == blob[..b][..a] == blob2[..b][..a] == blob2[..a];
      assert blob[a..b] == blob[..b][a..] == blob2[..b][a..] == blob2[a..b];
      SectionsPrefix(blob, blob2, keys[..n], sizes[..n]);
    }
  }

  /** The capacity once size more elements fit behind the used ones: as it was, or at least
      doubled. */
  function GrownTo(capacity: nat, used: nat, size: nat): (c: nat)
    ensures used + size <= c && (used + size <= capacity ==> c == capacity)
    ensures used + size > capacity ==>
      2 * capacity <= c && used + size + 1024 <= c && (c == 2 * capacity || c == used + size + 1024)
  {
    if used + size <= capacity then capacity
    else if capacity * 2 >= used + size + 1024 then capacity * 2 else used + size + 1024
  }

  ghost function Zeros(n: nat): seq<int> { seq(n, _ => 0) }

  /** The room behind the used elements once size more fit: as it was, or new and zero. */
  ghost function RoomFor(room: seq<int>, used: nat, size: nat): (r: seq<int>)
    ensures |r| == GrownTo(used + |room|, used, size) - used >= size
  {
    if size <= |room| then room else Zeros(GrownTo(used + |room|, used, size) - used)
  }

  // ---- the buffer ---------------------------------------------------------

  class DeviceBuffer {
    var buffer: array<int>
    var offset: nat
    var lastOffset: nat
    var keys: seq<string>
    var sizes: seq<nat>

    ghost const initialCapacity: nat
    /** Elements copied by growing, over the whole life of the object. */
    ghost var copied: nat

    ghost predicate Valid()
      reads this
    {
      && lastOffset <= offset <= buffer.Length && |keys| == |sizes| && Total(sizes) == lastOffset
      && initialCapacity + copied <= buffer.Length
    }

    /** The active part of the buffer. */
    ghost function Contents(): seq<int>
      requires offset <= buffer.Length
      reads this, buffer
    {
      buffer[..offset]
    }

    /** What has been tagged so far, in order. */
    ghost function Tagged(): seq<Section>
      requires Valid()
      reads this, buffer
    {
      Sections(Contents(), keys, sizes)
    }

    /** What has been added since the last tag. */
    ghost function Pending(): seq<int>
      requires Valid()
      reads this, buffer
    {
      Contents()[lastOffset..]
    }

    /** What lies in the buffer behind the active part. */
    ghost function Room(): seq<int>
      requires offset <= buffer.Length
      reads this, buffer
    {
      buffer[offset..]
    }

    constructor (initialCapacity: nat)
      ensures Valid() && fresh(buffer) && this.initialCapacity == initialCapacity && Room() == Zeros(initialCapacity)
      ensures Tagged() == [] && Pending() == [] && buffer.Length == initialCapacity && copied == 0 && offset == 0
    {
      buffer := new int[initialCapacity](_ => 0);
      offset, lastOffset, keys, sizes := 0, 0, [], [];
      this.initialCapacity, copied := initialCapacity, 0;
    }

    /** Grow to at least double when the next size elements do not fit. The cost of copying is
        paid for by the capacity gained. */
    method EnsureCapacity(size: nat)
      requires Valid()
      modifies this`buffer, this`copied
      ensures Valid() && offset + size <= buffer.Length && Contents() == old(Contents())
      ensures Room() == RoomFor(old(Room()), offset, size)
      ensures buffer == old(buffer) || fresh(buffer)
      ensures buffer == old(buffer) <==> old(offset + size <= buffer.Length)
      ensures buffer.Length == GrownTo(old(buffer.Length), offset, size)
      ensures copied == old(copied) + if buffer == old(buffer) then 0 else offset
      ensures Tagged() == old(Tagged()) && Pending() == old(Pending())
    {
      ghost var before, room := Contents(), Room();
      if offset + size > buffer.Length {
        var doubled, needed := buffer.Length * 2, offset + size + 1024;
        var grown := new int[if doubled >= needed then doubled else needed](_ => 0);
        forall i | 0 <= i < offset { grown[i] := buffer[i]; }
        assert grown[..offset] == before;
        buffer := grown;
        copied := copied + offset;
      }
      assert Contents() == before;
      assert Room() == RoomFor(room, offset, size);
    }

    /** The slice assignment behind the active part. */
    method WriteBehind(data: seq<int>)
      requires offset + |data| <= buffer.Length
      modifies buffer
      ensures buffer[..offset + |data|] == old(Contents()) + data
      ensures buffer[offset + |data|..] == old(Room()[|data|..])
    {
      forall i | 0 <= i < |data| { buffer[offset + i] := data[i]; }
      assert buffer[..offset] == old(buffer[..offset]);
    }

    /** Append data without a key. */
    method Add(data: seq<int>)
      requires Valid()
      modifies this, buffer
      ensures Valid() && (buffer == old(buffer) || fresh(buffer)) && offset == old(offset) + |data|
      ensures buffer == old(buffer) <==> old(offset + |data| <= buffer.Length)
      ensures buffer.Length == GrownTo(old(buffer.Length), old(offset), |data|)
      ensures copied == old(copied) + if buffer == old(buffer) then 0 else old(offset)
      ensures Room() == RoomFor(old(Room()), old(offset), |data|)[|data|..]
      ensures Tagged() == old(Tagged()) && Pending() == old(Pending()) + data
    {
      hide Total, Sections;
      ghost var before := Contents();
      EnsureCapacity(|data|);
      WriteBehind(data);
      MoreData(before, data, keys, sizes);
      offset := offset + |data|;
    }

    /** Append data, and tag everything pending when a key is given. */
    method Append(data: seq<int>, key: Key)
      requires Valid()
      modifies this, buffer
      ensures Valid() && (buffer == old(buffer) || fresh(buffer)) && offset == old(offset) + |data|
      ensures buffer == old(buffer) <==> old(offset + |data| <= buffer.Length)
      ensures buffer.Length == GrownTo(old(buffer.Length), old(offset), |data|)
      ensures copied == old(copied) + if buffer == old(buffer) then 0 else old(offset)
      ensures Room() == RoomFor(old(Room()), old(offset), |data|)[|data|..]
      ensures if key.Named? && key.name != ""
              then Tagged() == old(Tagged()) + [Section(key.name, old(Pending()) + data)] && Pending() == []
              else Tagged() == old(Tagged()) && Pending() == old(Pending()) + data
    {
      hide Valid, Tagged, Pending;
      Add(data);
      if key.Tags() { SetKey(key.name); }
    }

    /** Tag everything added since the last tag. */
    method SetKey(key: string)
      requires Valid()
      modifies this`keys, this`sizes, this`lastOffset
      ensures Valid() && Tagged() == old(Tagged()) + [Section(key, old(Pending()))] && Pending() == []
      ensures Room() == old(Room())
    {
      var size := offset - lastOffset;
      ghost var blob := Contents();
      SnocSections(blob, keys, sizes, key, size);
      assert blob[lastOffset..offset] == blob[lastOffset..];
      keys := keys + [key];
      sizes := sizes + [size];
      lastOffset := offset;
    }

    /** Reserve room and hand out a window on it; the data is whatever is there: zeros in new room,
        and what an earlier use has left in old room. */
    method GetView(size: nat, key: Key) returns (v: View)
      requires Valid()
      modifies this
      ensures Valid() && (buffer == old(buffer) || fresh(buffer))
      ensures v == View(buffer, old(offset), size) && offset == old(offset) + size
      ensures buffer == old(buffer) <==> old(offset + size <= buffer.Length)
      ensures buffer.Length == GrownTo(old(buffer.Length), old(offset), size)
      ensures copied == old(copied) + if buffer == old(buffer) then 0 else old(offset)
      ensures var room := RoomFor(old(Room()), old(offset), size);
        && Room() == room[size..]
        && if key.Named? && key.name != ""
           then Tagged() == old(Tagged()) + [Section(key.name, old(Pending()) + room[..size])] && Pending() == []
           else Tagged() == old(Tagged()) && Pending() == old(Pending()) + room[..size]
    {
      hide Total, Sections;
      ghost var before := Contents();
      EnsureCapacity(size);
      v := View(buffer, offset, size);
      ghost var data := Room()[..size];
      assert buffer[..offset + size] == before + data;
      assert buffer[offset + size..] == Room()[size..];
      MoreData(before, data, keys, sizes);
      offset := offset + size;
      if key.Tags() { SetKey(key.name); }
    }

    /** Writing through a view: seen by the buffer until it has grown, and not after. Behind the
        active part it changes what a later view will find. */
    method WriteView(v: View, i: nat, x: int)
      requires Valid() && v.offset + v.size <= v.data.Length && i < v.size
      modifies v.data
      ensures var pos := v.offset + i;
        && Contents() == (if v.data == buffer && pos < offset then old(Contents())[pos := x] else old(Contents()))
        && Room() == (if v.data == buffer && pos >= offset then old(Room())[pos - offset := x] else old(Room()))
      ensures Valid()
    {
      v.data[v.offset + i] := x;
    }

    method Build() returns (blob: seq<int>, keys: seq<string>, sizes: seq<nat>)
      requires Valid()
      ensures blob == Contents() && keys == this.keys && sizes == this.sizes
      ensures Total(sizes) <= |blob| && |keys| == |sizes| && Sections(blob, keys, sizes) == Tagged()
      ensures blob[Total(sizes)..] == Pending()
    {
      blob, keys, sizes := buffer[..offset], this.keys, this.sizes;
    }

    method Reset()
      requires Valid()
      modifies this`offset, this`lastOffset, this`keys, this`sizes
      ensures Valid() && Tagged() == [] && Pending() == [] && Room() == old(Contents() + Room()) && offset == 0
    {
      assert buffer[..] == Contents() + Room();
      offset, lastOffset, keys, sizes := 0, 0, [], [];
    }
  }

  lemma SnocTotal(sizes: seq<nat>, size: nat)
    ensures Total(sizes + [size]) == Total(sizes) + size
  {
    var all := sizes + [size];
    TakeTotal(all, |sizes|);
    assert all[..|sizes| + 1] == all && all[..|sizes|] == sizes;
  }

  lemma SnocSections(blob: seq<int>, keys: seq<string>, sizes: seq<nat>, key: string, size: nat)
    requires |keys| == |sizes| && Total(sizes) + size <= |blob|
    ensures Total(sizes + [size]) == Total(sizes) + size
    ensures Sections(blob, keys + [key], sizes + [size])
         == Sections(blob, keys, sizes) + [Section(key, blob[Total(sizes)..Total(sizes) + size])]
  {
    hide Total, Sections;
    SnocTotal(sizes, size);
    var keys2, sizes2 := keys + [key], sizes + [size];
    assert keys2[..|keys|] == keys && sizes2[..|sizes|] == sizes;
    LastSection(blob, keys2, sizes2);
  }

  lemma LastSection(blob: seq<int>, keys: seq<string>, sizes: seq<nat>)
    requires |keys| == |sizes| > 0 && Total(sizes) <= |blob| && Total(sizes[..|sizes| - 1]) <= Total(sizes)
    ensures Sections(blob, keys, sizes) == Sections(blob, keys[..|keys| - 1], sizes[..|sizes| - 1])
            + [Section(keys[|keys| - 1], blob[Total(sizes[..|sizes| - 1])..Total(sizes)])]
  {
    hide Total;
  }

  /** More data at the end is pending and leaves the sections alone. */
  lemma MoreData(before: seq<int>, data: seq<int>, keys: seq<string>, sizes: seq<nat>)
    requires |keys| == |sizes| && Total(sizes) <= |before|
    ensures Sections(before + data, keys, sizes) == Sections(before, keys, sizes)
    ensures (before + data)[Total(sizes)..] == before[Total(sizes)..] + data
  {
    hide Total, Sections;
    assert (before + data)[..Total(sizes)] == before[..Total(sizes)];
    SectionsPrefix(before, before + data, keys, sizes);
  }
}
