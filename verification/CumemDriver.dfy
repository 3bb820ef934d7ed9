/** The device driver, any call of which may fail, and the loops that release and unmap the
    chunks of an allocation. */
module CumemDriver {
  import opened Unique
  import opened SleepWorld

  /** A call reports 0 exactly when it took effect. It refuses what makes no sense in its state
      and may refuse anything else; faults counts the sensible calls it refused. */
  class Driver {
    var gpu: Gpu
    /** The mappings that may be read and written. */
    var access: set<Mapping>
    const granularity: nat
    ghost var faults: nat

    /** Reserved ranges never overlap, nor do mappings, and every mapping lies in one reserved
        range. */
    ghost predicate Sound()
      reads this`gpu, this`access
    {
      && Separate(gpu.reserved) && AtHome(gpu.mapped, gpu.reserved) && access <= gpu.mapped
      && (forall m, n :: m in gpu.mapped && n in gpu.mapped && m.Overlaps(n.addr, n.size) ==> m == n)
    }

    constructor (gpu: Gpu, granularity: nat)
      ensures this.gpu == gpu && this.access == {} && this.granularity == granularity && faults == 0
    {
      this.gpu, access, this.granularity, faults := gpu, {}, granularity, 0;
    }

    ghost predicate CanMap(addr: nat, size: nat, h: nat)
      reads this`gpu
    {
      && h in gpu.live && size > 0
      && (exists r :: r in gpu.reserved && r.Contains(addr, size))
      && (forall m :: m in gpu.mapped ==> !m.Overlaps(addr, size))
    }

    ghost predicate CanFree(addr: nat, size: nat)
      reads this`gpu
    {
      Range(addr, size) in gpu.reserved && forall m :: m in gpu.mapped ==> !m.Overlaps(addr, size)
    }

    /** Context calls and the granularity query. */
    method Query() returns (status: nat)
      modifies this`faults
      ensures faults == old(faults) + Failed(status)
    {
      status := *;
      faults := faults + Failed(status);
    }

    method Reserve(size: nat) returns (status: nat, addr: nat)
      requires Sound()
      modifies this`gpu, this`faults
      ensures Sound()
      ensures status == 0 ==>
        size > 0 && FreshRange(old(gpu).reserved, addr, size) &&
        gpu == old(gpu).(reserved := old(gpu).reserved + {Range(addr, size)})
      ensures status != 0 ==> gpu == old(gpu)
      ensures faults == old(faults) + if size > 0 then Failed(status) else 0
    {
      status, addr := *, *;
      if status == 0 {
        if size > 0 && forall r :: r in gpu.reserved ==> !r.Overlaps(addr, size) {
          gpu := gpu.(reserved := gpu.reserved + {Range(addr, size)});
        } else {
          status := 1;
        }
      }
      if size > 0 { faults := faults + Failed(status); }
    }

    method Create(size: nat) returns (status: nat, h: nat)
      requires Sound()
      modifies this`gpu, this`faults
      ensures Sound()
      ensures status == 0 ==> h !in old(gpu).live && gpu == old(gpu).(live := old(gpu).live + {h})
      ensures status != 0 ==> gpu == old(gpu)
      ensures faults == old(faults) + Failed(status)
    {
      status, h := *, *;
      if status == 0 {
        if h in gpu.live { status := 1; } else { gpu := gpu.(live := gpu.live + {h}); }
      }
      faults := faults + Failed(status);
    }

    method Map(addr: nat, size: nat, h: nat) returns (status: nat)
      requires Sound()
      modifies this`gpu, this`faults
      ensures Sound()
      ensures status == 0 ==>
        old(CanMap(addr, size, h)) && gpu == old(gpu).(mapped := old(gpu).mapped + {Mapping(addr, size, h)})
      ensures status != 0 ==> gpu == old(gpu)
      ensures faults == old(faults) + if old(CanMap(addr, size, h)) then Failed(status) else 0
    {
      status := *;
      if && h in gpu.live && size > 0
         && (exists r :: r in gpu.reserved && r.Contains(addr, size))
         && (forall m :: m in gpu.mapped ==> !m.Overlaps(addr, size)) {
        if status == 0 { gpu := gpu.(mapped := gpu.mapped + {Mapping(addr, size, h)}); }
        faults := faults + Failed(status);
      } else {
        status := 1;
      }
    }

    method Unmap(addr: nat, size: nat) returns (status: nat)
      requires Sound()
      modifies this`gpu, this`access, this`faults
      ensures Sound()
      ensures status == 0 ==>
        && At(old(gpu).mapped, addr, size) != {}
        && gpu == old(gpu).(mapped := old(gpu).mapped - At(old(gpu).mapped, addr, size))
        && access == old(access) - At(old(gpu).mapped, addr, size)
      ensures status != 0 ==> gpu == old(gpu) && access == old(access)
      ensures faults == old(faults) + if At(old(gpu).mapped, addr, size) != {} then Failed(status) else 0
    {
      status := *;
      var there := At(gpu.mapped, addr, size);
      if there != {} {
        if status == 0 { gpu, access := gpu.(mapped := gpu.mapped - there), access - there; }
        faults := faults + Failed(status);
      } else {
        status := 1;
      }
    }

    method Release(h: nat) returns (status: nat)
      requires Sound()
      modifies this`gpu, this`faults
      ensures Sound()
      ensures status == 0 ==> h in old(gpu).live && gpu == old(gpu).(live := old(gpu).live - {h})
      ensures status != 0 ==> gpu == old(gpu)
      ensures faults == old(faults) + if h in old(gpu).live then Failed(status) else 0
    {
      status := *;
      if h in gpu.live {
        if status == 0 { gpu := gpu.(live := gpu.live - {h}); }
        faults := faults + Failed(status);
      } else {
        status := 1;
      }
    }

    method AddressFree(addr: nat, size: nat) returns (status: nat)
      requires Sound()
      modifies this`gpu, this`faults
      ensures Sound()
      ensures status == 0 ==>
        old(CanFree(addr, size)) && gpu == old(gpu).(reserved := old(gpu).reserved - {Range(addr, size)})
      ensures status != 0 ==> gpu == old(gpu)
      ensures faults == old(faults) + if old(CanFree(addr, size)) then Failed(status) else 0
    {
      status := *;
      if Range(addr, size) in gpu.reserved && forall m :: m in gpu.mapped ==> !m.Overlaps(addr, size) {
        if status == 0 { gpu := gpu.(reserved := gpu.reserved - {Range(addr, size)}); }
        faults := faults + Failed(status);
      } else {
        status := 1;
      }
    }

    method SetAccess(addr: nat, size: nat) returns (status: nat)
      requires Sound()
      modifies this`access, this`faults
      ensures Sound()
      ensures access == if status == 0 then old(access) + Within(gpu.mapped, addr, size) else old(access)
      ensures faults == old(faults) + if Within(gpu.mapped, addr, size) != {} then Failed(status) else 0
    {
      status := *;
      if status == 0 { access := access + Within(gpu.mapped, addr, size); }
      if Within(gpu.mapped, addr, size) != {} { faults := faults + Failed(status); }
    }
  }

  function Failed(status: nat): nat { if status == 0 then 0 else 1 }

  function At(mapped: set<Mapping>, addr: nat, size: nat): set<Mapping>
  {
    set m | m in mapped && m.addr == addr && m.size == size
  }

  function Within(mapped: set<Mapping>, addr: nat, size: nat): set<Mapping>
  {
    set m | m in mapped && addr <= m.addr && m.addr + m.size <= addr + size
  }

  // ---- places -------------------------------------------------------------

  /** What python_malloc is told and python_free gives back: the aligned size, the address and
      the chunk sizes. The cells malloc'ed for the chunk handles are found by the address. */
  datatype Tuple = Tuple(size: nat, addr: nat, chunks: seq<nat>) {
    /** What is mapped at the place of chunk i. */
    ghost function Spot(mapped: set<Mapping>, i: nat): set<Mapping>
      requires i < |chunks|
    {
      At(mapped, addr + Offset(chunks, i), chunks[i])
    }

    /** What is mapped at the places of the first n chunks. */
    ghost function Placed(mapped: set<Mapping>, n: nat): set<Mapping>
      requires n <= |chunks|
    {
      if n == 0 then {} else Placed(mapped, n - 1) + Spot(mapped, n - 1)
    }

    /** Each of the first n places was in use and has been cleared. */
    ghost predicate Cleared(mapped: set<Mapping>, unmapped: set<Mapping>, n: nat)
      requires n <= |chunks|
    {
      forall i: nat :: i < n ==> Spot(mapped, i) != {} && Spot(mapped, i) <= unmapped
    }
  }

  lemma {:induction false} PlacesGrow(sizes: seq<nat>, i: nat, n: nat)
    requires i < n < |sizes| && forall k :: 0 <= k < |sizes| ==> sizes[k] > 0
    ensures Offset(sizes, i) + sizes[i] <= Offset(sizes, n)
  {
    OffsetStep(sizes, i);
    OffsetBetween(sizes, i + 1, n);
  }

  lemma {:induction false} PlacedAt(t: Tuple, mapped: set<Mapping>, n: nat)
    requires n <= |t.chunks|
    ensures forall m :: m in t.Placed(mapped, n) <==> exists i: nat :: i < n && m in t.Spot(mapped, i)
  {
    if n > 0 {
      PlacedAt(t, mapped, n - 1);
      hide Offset;
      forall m ensures m in t.Placed(mapped, n) <==> exists i: nat :: i < n && m in t.Spot(mapped, i) {
        if m in t.Spot(mapped, n - 1) {}
        if m in t.Placed(mapped, n - 1) {
          var i: nat :| i < n - 1 && m in t.Spot(mapped, i);
          assert i < n;
        }
      }
    }
  }

  /** The places of all chunks. */
  lemma AllPlaces(t: Tuple, mapped: set<Mapping>)
    ensures forall m :: m in t.Placed(mapped, |t.chunks|) <==> m in mapped && InPlace(t.addr, t.chunks, m)
  {
    PlacedAt(t, mapped, |t.chunks|);
    hide Offset;
    forall m | m in mapped && InPlace(t.addr, t.chunks, m)
      ensures exists i: nat :: i < |t.chunks| && m in t.Spot(mapped, i)
    {
      var i :| 0 <= i < |t.chunks| && m.addr == t.addr + Offset(t.chunks, i) && m.size == t.chunks[i];
      assert m in t.Spot(mapped, i);
    }
  }

  /** Places of different chunks have nothing in common. */
  lemma SpotIsApart(t: Tuple, mapped: set<Mapping>, n: nat)
    requires n < |t.chunks| && forall k :: 0 <= k < |t.chunks| ==> t.chunks[k] > 0
    ensures t.Placed(mapped, n) !! t.Spot(mapped, n)
    ensures forall i: nat :: i < n ==> t.Spot(mapped, i) <= t.Placed(mapped, n)
  {
    PlacedAt(t, mapped, n);
    hide Offset;
    forall m | m in t.Placed(mapped, n) ensures m !in t.Spot(mapped, n) {
      var i: nat :| i < n && m in t.Spot(mapped, i);
      PlacesGrow(t.chunks, i, n);
    }
  }

  /** What is at one more place before its call. */
  lemma ClearStep(t: Tuple, mapped: set<Mapping>, unmapped: set<Mapping>, n: nat, now: set<Mapping>)
    requires n < |t.chunks| && forall k :: 0 <= k < |t.chunks| ==> t.chunks[k] > 0
    requires unmapped <= t.Placed(mapped, n) && (now == {} || now == t.Spot(mapped, n))
    ensures At(mapped - unmapped, t.addr + Offset(t.chunks, n), t.chunks[n]) == t.Spot(mapped, n) && unmapped !! now
    ensures t.Placed(mapped, n + 1) == t.Placed(mapped, n) + t.Spot(mapped, n)
  {
    SpotIsApart(t, mapped, n);
    hide Offset;
  }

  lemma ReportedIsCleared(t: Tuple, mapped: set<Mapping>, unmapped: set<Mapping>, statuses: seq<nat>)
    requires Reported(t, mapped, unmapped, statuses)
    ensures FirstFailure(statuses) == 0 <==> t.Cleared(mapped, unmapped, |statuses|)
  {
    hide Tuple.Spot;
  }

  lemma {:induction false} ClearedIsPlaced(t: Tuple, mapped: set<Mapping>, unmapped: set<Mapping>, n: nat)
    requires n <= |t.chunks| && t.Cleared(mapped, unmapped, n)
    ensures t.Placed(mapped, n) <= unmapped
  {
    if n > 0 { ClearedIsPlaced(t, mapped, unmapped, n - 1); }
  }

  lemma OneMoreHandle(hs: seq<nat>, n: nat)
    requires n < |hs|
    ensures SetOf(hs[..n + 1]) == SetOf(hs[..n]) + {hs[n]}
    ensures Distinct(hs[..n + 1]) ==> hs[n] !in SetOf(hs[..n])
  {
    assert hs[..n + 1][n] == hs[n];
    assert forall i :: 0 <= i < n ==> hs[..n + 1][i] == hs[..n][i] == hs[i];
  }

  // ---- the loops ----------------------------------------------------------

  /** The first status that is a failure, or 0. */
  ghost function FirstFailure(statuses: seq<nat>): (f: nat)
    ensures f == 0 <==> forall i :: 0 <= i < |statuses| ==> statuses[i] == 0
    ensures f != 0 ==>
      exists i :: 0 <= i < |statuses| && statuses[i] == f && forall k :: 0 <= k < i ==> statuses[k] == 0
  {
    if statuses == [] then 0 else
      var n := |statuses| - 1;
      var f := FirstFailure(statuses[..n]);
      if f != 0 then f else statuses[n]
  }

  lemma NextFailure(statuses: seq<nat>, status: nat)
    ensures FirstFailure(statuses + [status])
         == if FirstFailure(statuses) != 0 then FirstFailure(statuses) else status
  {
    assert (statuses + [status])[..|statuses|] == statuses;
  }

  /** The handles whose call succeeded. */
  ghost function Succeeded(hs: seq<nat>, statuses: seq<nat>): set<nat>
    requires |statuses| <= |hs|
  {
    set i | 0 <= i < |statuses| && statuses[i] == 0 :: hs[i]
  }

  lemma NothingSucceeded(hs: seq<nat>)
    ensures Succeeded(hs, []) == {} && FirstFailure([]) == 0 && SetOf(hs[..0]) == {}
  {
  }

  lemma NextSucceeded(hs: seq<nat>, statuses: seq<nat>, status: nat)
    requires |statuses| < |hs|
    ensures Succeeded(hs, statuses + [status])
         == Succeeded(hs, statuses) + if status == 0 then {hs[|statuses|]} else {}
  {
    var t := statuses + [status];
    forall i | 0 <= i < |statuses| ensures t[i] == statuses[i] {}
    assert forall h :: h in Succeeded(hs, t) ==> h in Succeeded(hs, statuses) || (status == 0 && h == hs[|statuses|]);
    assert forall i :: 0 <= i < |statuses| && statuses[i] == 0 ==> t[i] == 0 && hs[i] in Succeeded(hs, t);
    assert t[|statuses|] == status;
  }

  /** What the calls on the first places reported: success exactly where a place was in use and has
      been cleared. */
  ghost predicate Reported(t: Tuple, mapped: set<Mapping>, unmapped: set<Mapping>, statuses: seq<nat>)
  {
    && |statuses| <= |t.chunks|
    && forall i: nat :: i < |statuses| ==>
         (statuses[i] == 0 <==> t.Spot(mapped, i) != {} && t.Spot(mapped, i) <= unmapped)
  }

  lemma NothingReported(t: Tuple, mapped: set<Mapping>)
    ensures Reported(t, mapped, {}, []) && FirstFailure([]) == 0
    ensures t.Placed(mapped, 0) == {} && Offset(t.chunks, 0) == 0
  {
    assert t.chunks[..0] == [];
  }

  lemma NextReported(t: Tuple, mapped: set<Mapping>, unmapped: set<Mapping>, statuses: seq<nat>, status: nat)
    requires |statuses| < |t.chunks| && forall k :: 0 <= k < |t.chunks| ==> t.chunks[k] > 0
    requires Reported(t, mapped, unmapped, statuses) && unmapped <= t.Placed(mapped, |statuses|)
    requires status == 0 ==> t.Spot(mapped, |statuses|) != {}
    ensures Reported(t, mapped, unmapped + (if status == 0 then t.Spot(mapped, |statuses|) else {}),
                     statuses + [status])
  {
    hide Tuple.Spot, Tuple.Placed;
    var n := |statuses|;
    var now := if status == 0 then t.Spot(mapped, n) else {};
    forall i: nat | i <= n
      ensures (statuses + [status])[i] == 0 <==> t.Spot(mapped, i) != {} && t.Spot(mapped, i) <= unmapped + now
    {
      SameSpot(t, mapped, unmapped, i, n, now);
    }
  }

  /** What is unmapped at place n says nothing of the places before it. */
  lemma SameSpot(t: Tuple, mapped: set<Mapping>, unmapped: set<Mapping>, i: nat, n: nat, now: set<Mapping>)
    requires i <= n < |t.chunks| && forall k :: 0 <= k < |t.chunks| ==> t.chunks[k] > 0
    requires unmapped <= t.Placed(mapped, n) && (now == {} || now == t.Spot(mapped, n))
    ensures i < n ==> (t.Spot(mapped, i) <= unmapped + now <==> t.Spot(mapped, i) <= unmapped)
    ensures i == n ==> (t.Spot(mapped, i) != {} && t.Spot(mapped, i) <= unmapped + now <==> now != {})
  {
    SpotIsApart(t, mapped, n);
    hide Tuple.Spot, Tuple.Placed;
  }

  /** Release the first n handles, reporting the first failure. What is not released stays, and
      without a fault everything that was live is released. */
  method ReleaseChunks(driver: Driver, hs: seq<nat>, n: nat)
      returns (firstError: nat, ghost released: set<nat>, ghost statuses: seq<nat>)
    requires driver.Sound() && n <= |hs|
    modifies driver`gpu, driver`faults
    ensures driver.Sound() && driver.gpu == old(driver.gpu).(live := old(driver.gpu).live - released)
    ensures released <= old(driver.gpu).live * SetOf(hs[..n])
    ensures |statuses| == n && firstError == FirstFailure(statuses) && released == Succeeded(hs, statuses)
    ensures firstError == 0 ==> released == SetOf(hs[..n])
    ensures Distinct(hs[..n]) ==> (firstError == 0 <==> released == SetOf(hs[..n]))
    ensures driver.faults >= old(driver.faults)
    ensures driver.faults == old(driver.faults) ==> released == old(driver.gpu).live * SetOf(hs[..n])
    ensures firstError == 0 ==> driver.faults == old(driver.faults)
  {
    hide Driver.Sound, FirstFailure, Succeeded, SetOf;
    NothingSucceeded(hs);
    firstError, released, statuses := 0, {}, [];
    ghost var g := driver.gpu;
    assert SetOf(hs[..0]) == {};
    for i := 0 to n
      invariant driver.Sound() && driver.gpu == g.(live := g.live - released)
      invariant released <= g.live * SetOf(hs[..i])
      invariant |statuses| == i && firstError == FirstFailure(statuses) && released == Succeeded(hs, statuses)
      invariant firstError == 0 ==> released == SetOf(hs[..i])
      invariant Distinct(hs[..n]) ==> (firstError == 0 <==> released == SetOf(hs[..i]))
      invariant driver.faults >= old(driver.faults)
      invariant driver.faults == old(driver.faults) ==> released == g.live * SetOf(hs[..i])
      invariant firstError == 0 ==> driver.faults == old(driver.faults)
    {
      assert hs[..i + 1] == hs[..n][..i + 1] && hs[..i] == hs[..n][..i];
      OneMoreHandle(hs[..n], i);
      var status := driver.Release(hs[i]);
      NextFailure(statuses, status);
      NextSucceeded(hs, statuses, status);
      statuses := statuses + [status];
      if status == 0 { released := released + {hs[i]}; }
      if status != 0 && firstError == 0 { firstError := status; }
    }
  }

  /** The call on one place, and what it adds to what has been unmapped and reported so far. */
  method UnmapPlace(driver: Driver, t: Tuple, i: nat, offset: nat, ghost g: Gpu, ghost before: set<Mapping>,
                    ghost statuses: seq<nat>) returns (status: nat, ghost unmapped: set<Mapping>)
    requires driver.Sound() && |statuses| == i < |t.chunks| && forall k :: 0 <= k < |t.chunks| ==> t.chunks[k] > 0
    requires offset == Offset(t.chunks, i) && driver.gpu == g.(mapped := g.mapped - before)
    requires before <= t.Placed(g.mapped, i) && Reported(t, g.mapped, before, statuses)
    modifies driver`gpu, driver`access, driver`faults
    ensures driver.Sound() && driver.gpu == g.(mapped := g.mapped - unmapped) && before <= unmapped
    ensures driver.access == old(driver.access) - (unmapped - before)
    ensures unmapped <= t.Placed(g.mapped, i + 1) && Reported(t, g.mapped, unmapped, statuses + [status])
    ensures driver.faults >= old(driver.faults) && (status == 0 ==> driver.faults == old(driver.faults))
    ensures driver.faults == old(driver.faults) && before == t.Placed(g.mapped, i) ==>
      unmapped == t.Placed(g.mapped, i + 1)
  {
    hide Driver.Sound, Tuple.Placed, Tuple.Spot, At, Offset, Reported;
    status := driver.Unmap(t.addr + offset, t.chunks[i]);
    ghost var now := if status == 0 then t.Spot(g.mapped, i) else {};
    ClearStep(t, g.mapped, before, i, now);
    NextReported(t, g.mapped, before, statuses, status);
    unmapped := before + now;
  }

  /** Unmap the first n chunks, reporting the first failure: none exactly if every place was in
      use and is now clear. What is not unmapped stays. */
  method UnmapChunks(driver: Driver, t: Tuple, n: nat)
      returns (firstError: nat, ghost unmapped: set<Mapping>, ghost statuses: seq<nat>)
    requires driver.Sound() && n <= |t.chunks| && forall i :: 0 <= i < |t.chunks| ==> t.chunks[i] > 0
    modifies driver`gpu, driver`access, driver`faults
    ensures driver.Sound() && driver.gpu == old(driver.gpu).(mapped := old(driver.gpu).mapped - unmapped)
    ensures driver.access == old(driver.access) - unmapped
    ensures unmapped <= t.Placed(old(driver.gpu).mapped, n)
    ensures |statuses| == n && firstError == FirstFailure(statuses)
    ensures Reported(t, old(driver.gpu).mapped, unmapped, statuses)
    ensures firstError == 0 <==> t.Cleared(old(driver.gpu).mapped, unmapped, n)
    ensures driver.faults >= old(driver.faults)
    ensures driver.faults == old(driver.faults) ==> unmapped == t.Placed(old(driver.gpu).mapped, n)
    ensures firstError == 0 ==> driver.faults == old(driver.faults)
  {
    hide *;
    firstError, unmapped, statuses := 0, {}, [];
    ghost var g := driver.gpu;
    var offset := 0;
    NothingReported(t, g.mapped);
    for i := 0 to n
      invariant offset == Offset(t.chunks, i)
      invariant driver.Sound() && driver.gpu == g.(mapped := g.mapped - unmapped)
      invariant driver.access == old(driver.access) - unmapped
      invariant unmapped <= t.Placed(g.mapped, i)
      invariant |statuses| == i && firstError == FirstFailure(statuses)
      invariant Reported(t, g.mapped, unmapped, statuses)
      invariant driver.faults >= old(driver.faults)
      invariant driver.faults == old(driver.faults) ==> unmapped == t.Placed(g.mapped, i)
      invariant firstError == 0 ==> driver.faults == old(driver.faults)
    {
      OffsetStep(t.chunks, i);
      var status;
      status, unmapped := UnmapPlace(driver, t, i, offset, g, unmapped, statuses);
      NextFailure(statuses, status);
      statuses := statuses + [status];
      if status != 0 && firstError == 0 { firstError := status; }
      offset := offset + t.chunks[i];
    }
    ReportedIsCleared(t, g.mapped, unmapped, statuses);
  }
}
