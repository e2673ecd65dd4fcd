/** The allocator in its own form: zones and list updated in place, each method proved against its function. */
module PmmManager {
  import opened Words
  import opened Pmm
  import opened PmmChain
  import opened PmmProofs
  import opened PmmAlloc
  import opened PmmRuns

  const BUILD_STACK_ADDR: nat := 0x7000
  const CONFIG_MAX_BIOSTABLE: nat := 8192
  const CONFIG_MAX_HIGHTABLE: nat := 0x1_0000

  datatype Area = Area(start: nat, size: nat)

  function AlignUp(x: nat, align: nat): nat
    requires align > 0
  {
    AlignDown(Wrap(x + align - 1), align)
  }

  /** The zones that malloc_setup makes; `table` is BiosTableSpace and `high` the result of find_high_area. */
  function SetupZones(table: nat, high: Option<Area>): seq<Zone> {
    var fseg := Zone(Wrap(table + CONFIG_MAX_BIOSTABLE), table, Wrap(table + CONFIG_MAX_BIOSTABLE));
    var tmpLow := Zone(BUILD_EBDA_MINIMUM, BUILD_STACK_ADDR, BUILD_EBDA_MINIMUM);
    var low := Zone(BUILD_LOWRAM_END, BUILD_LOWRAM_END, BUILD_LOWRAM_END);
    match high
    case None => [tmpLow, low, fseg, Zone(0, 0, 0), Zone(0, 0, 0)]
    case Some(e) =>
      var bottom := AlignUp(Wrap(e.start + e.size - CONFIG_MAX_HIGHTABLE), MALLOC_MIN_ALIGN);
      var top := Wrap(bottom + CONFIG_MAX_HIGHTABLE);
      [tmpLow, low, fseg, Zone(bottom, AlignUp(e.start, MALLOC_MIN_ALIGN), bottom), Zone(top, bottom, top)]
  }

  /** What find_high_area(CONFIG_MAX_HIGHTABLE + MALLOC_MIN_ALIGN) promises. */
  predicate HighArea(e: Area) {
    && e.size >= CONFIG_MAX_HIGHTABLE + MALLOC_MIN_ALIGN && e.start + e.size <= 0xffff_ffff
    && e.start + e.size >= 0x10_0000 + CONFIG_MAX_HIGHTABLE + MALLOC_MIN_ALIGN
  }

  lemma AlignUpIs(x: nat)
    requires x + 15 < U32
    ensures x <= AlignUp(x, 16) < x + 16 && AlignUp(x, 16) % 16 == 0
  {
    hide Wrap, AlignDown;
    WrapIs(x + 15, 0);
    AlignDownIs(x + 15, 16);
  }

  /** ZoneHigh is a non-empty part of the memory found exactly when that memory ends on a 16-byte boundary. */
  lemma HighZoneInside(table: nat, e: Area)
    requires HighArea(e)
    ensures var high := SetupZones(table, Some(e))[HIGH];
      (e.start <= high.bottom < high.top <= e.start + e.size <==> (e.start + e.size) % 16 == 0)
  {
    hide AlignUp;
    var end := e.start + e.size;
    assert Wrap(end - CONFIG_MAX_HIGHTABLE) == end - CONFIG_MAX_HIGHTABLE;
    AlignUpIs(end - CONFIG_MAX_HIGHTABLE);
    HighTop(end);
  }

  lemma HighTop(end: nat)
    requires CONFIG_MAX_HIGHTABLE <= end <= 0xffff_ffff
    ensures var b := AlignUp(end - CONFIG_MAX_HIGHTABLE, 16);
      var top := Wrap(b + CONFIG_MAX_HIGHTABLE);
      && (end % 16 == 0 ==> top == end && b == end - CONFIG_MAX_HIGHTABLE)
      && (end % 16 != 0 ==> top > end || top <= b)
  {
    hide AlignUp;
    AlignUpIs(end - CONFIG_MAX_HIGHTABLE);
  }

  /** One such area: ZoneHigh ends eight bytes after it. */
  lemma HighZoneOutside(table: nat)
    ensures var e := Area(0x10_0000, 0x2_0008);
      HighArea(e) && SetupZones(table, Some(e))[HIGH] == Zone(0x12_0010, 0x11_0010, 0x12_0010)
  {
    hide AlignUp;
    AlignUpIs(0x11_0008);
    assert Wrap(0x11_0008) == 0x11_0008;
  }

  ghost function SetupState(table: nat, high: Option<Area>, kb: nat): State
    requires kb <= 64
  {
    State(SetupZones(table, high), [], 640 - kb, BUILD_LOWRAM_END - kb * KB, kb)
  }

  ghost function NoBlocks(zones: seq<Zone>): View {
    View(map[], seq(|zones|, i requires 0 <= i < |zones| => [zones[i].top]), map[])
  }

  ghost predicate Fresh(z: Zone) { z.bottom <= z.top == z.cur < U32 && (z.bottom > 0 || z.top == 0) }

  lemma FreshInv(s: State)
    requires |s.zones| == NZONES && Disjoint(s.zones) && s.allocs == [] && forall z :: 0 <= z < NZONES ==> Fresh(s.zones[z])
    ensures Inv(s, NoBlocks(s.zones), map[]) && AllFree(s)
  {
    var v := NoBlocks(s.zones);
    forall z | 0 <= z < NZONES ensures Path(s.zones[z], v.paths[z], v.saved) { assert Fresh(s.zones[z]); }
  }

  /** The table lies in the F segment, and the memory is what find_high_area returns. */
  ghost predicate SetupInput(table: nat, high: Option<Area>) {
    && BUILD_LOWRAM_END <= table && table + CONFIG_MAX_BIOSTABLE <= 0x10_0000
    && (high.Some? ==> HighArea(high.value))
  }

  /** The memory found starts above the table and ends where aligning it up does not wrap. */
  predicate SetupFits(table: nat, high: Option<Area>) {
    high.Some? ==> table + CONFIG_MAX_BIOSTABLE <= AlignUp(high.value.start, 16) && high.value.start + high.value.size <= 0xffff_fff0
  }

  lemma SetupShape(table: nat, high: Option<Area>)
    requires SetupInput(table, high)
    ensures var zones := SetupZones(table, high);
      && |zones| == NZONES
      && zones[TMPLOW] == Zone(0x9_0000, 0x7000, 0x9_0000) && zones[LOW] == Zone(0xa_0000, 0xa_0000, 0xa_0000)
      && zones[FSEG] == Zone(table + CONFIG_MAX_BIOSTABLE, table, table + CONFIG_MAX_BIOSTABLE)
      && (high.None? ==> zones[TMPHIGH] == zones[HIGH] == Zone(0, 0, 0))
  {
    hide AlignUp;
  }

  lemma SetupHigh(table: nat, e: Area)
    requires HighArea(e)
    ensures var zones := SetupZones(table, Some(e)); var b := zones[HIGH].bottom;
      && zones[TMPHIGH] == Zone(b, AlignUp(e.start, 16), b) && e.start <= AlignUp(e.start, 16) <= b && 0x10_0000 < b < U32
      && zones[HIGH] == (if e.start + e.size <= 0xffff_fff0 then Zone(b + CONFIG_MAX_HIGHTABLE, b, b + CONFIG_MAX_HIGHTABLE) else Zone(0, b, 0))
      && b + CONFIG_MAX_HIGHTABLE <= U32 && (e.start + e.size <= 0xffff_fff0 ==> b + CONFIG_MAX_HIGHTABLE < U32)
  {
    hide AlignUp;
    var end := e.start + e.size;
    assert Wrap(end - CONFIG_MAX_HIGHTABLE) == end - CONFIG_MAX_HIGHTABLE;
    AlignUpIs(e.start);
    AlignUpIs(end - CONFIG_MAX_HIGHTABLE);
  }

  /** malloc_setup starts the allocator with every zone free, the zones apart and the EBDA below ZoneLow exactly when the memory fits. */
  lemma SetupGood(table: nat, high: Option<Area>, kb: nat)
    requires SetupInput(table, high) && kb <= 64
    ensures var s := SetupState(table, high, kb);
      AllFree(s) && (Good(s, NoBlocks(s.zones)) <==> SetupFits(table, high))
  {
    hide Inv, SetupZones, NoBlocks, AlignUp;
    SetupShape(table, high);
    if high.Some? { SetupHigh(table, high.value); }
    var s := SetupState(table, high, kb);
    if SetupFits(table, high) {
      assert Disjoint(s.zones);
      FreshInv(s);
    } else {
      SetupBad(s, NoBlocks(s.zones));
    }
  }

  /** Overlapping zones, or one that ends below its start, leave no room for chains. */
  lemma SetupBad(s: State, v: View)
    requires |s.zones| == NZONES && s.zones[FSEG].bottom < s.zones[TMPHIGH].top
    requires s.zones[HIGH].cur < s.zones[HIGH].bottom || s.zones[TMPHIGH].bottom < s.zones[FSEG].top
    ensures !Good(s, v)
  {
    hide Good;
    if Good(s, v) { GoodZones(s, v); }
  }

  lemma GoodZones(s: State, v: View)
    requires |s.zones| == NZONES && Good(s, v)
    ensures s.zones[HIGH].bottom <= s.zones[HIGH].cur && Disjoint(s.zones)
  {
    CurInside(s, v, map[], HIGH);
    ZonesApart(s, v, map[]);
  }

  // ---- A request that breaks the layout ----

  /** ZoneLow and the EBDA as malloc_setup leaves them, with an EBDA of 1 KB. */
  predicate LowAtBoot(s: State) {
    |s.zones| == NZONES && s.zones[LOW] == Zone(0xa_0000, 0xa_0000, 0xa_0000) && s.memKb == 0x27f && s.ebda == 0x9_fc00 && s.ebdaKb == 1
  }

  lemma WrappedPosition()
    ensures AlignDown(Wrap(0xa_0000 - 0x9_fff0), 16) == 0x10 && AlignDown(0x10, KB) == 0 && Wrap(0xa_0000) == 0xa_0000
    ensures AlignDown(Wrap(0 - 1024), KB) == 0xffff_fc00
  {
    hide AlignDown;
    WrapIs(0xa_0000, 0x9_fff0);
    WrapIs(0xa_0000, 0);
    WrapIs(0, 1024);
    KbMultiple(0, 1);
    SixteenDown();
  }

  lemma SixteenDown()
    ensures AlignDown(16, 16) == 16 && AlignDown(16, KB) == 0
  {
  }

  /** All tests of zonelow_expand pass, and the zone then covers everything from address 0 on. */
  lemma WrappedExpand(s: State)
    requires LowAtBoot(s)
    ensures Relocates(s, 0x9_fff0, 16) && Expand(s, 0x9_fff0, 16).zones == s.zones[LOW := Zone(0xa_0000, 0, 0xa_0000)]
    ensures Expand(s, 0x9_fff0, 16).ebda == 0xf_fc00
  {
    hide Wrap, AlignDown;
    WrappedPosition();
    assert LowBase(s) == 0xa_0000;
    assert NewBottom(s, 0x9_fff0, 16) == 0;
    assert NewEbda(s, 0x9_fff0, 16) == 0xffff_fc00;
  }

  lemma RecordPlace(s: State)
    requires |s.zones| == NZONES && s.zones[TMPHIGH] == Zone(0, 0, 0) && s.zones[TMPLOW] == Zone(0x9_0000, 0x7000, 0x9_0000)
    ensures RecordMalloc(s) == Block(Take(s, TMPLOW, 0x8_ffe0), 0x8_ffe0, 0x9_0000)
  {
    hide Wrap, AlignDown;
    WrapIs(0, 20);
    WrapIs(0x9_0000, 20);
    RecordDown();
  }

  lemma RecordDown()
    ensures AlignDown(0xffff_ffec, 16) == 0xffff_ffe0 && AlignDown(0x8_ffec, 16) == 0x8_ffe0
  {
  }

  lemma WrappedBlock(s: State)
    requires |s.zones| == NZONES && s.zones[LOW] == Zone(0xa_0000, 0, 0xa_0000)
    ensures ZoneMalloc(s, LOW, 0x9_fff0, 16) == Block(Take(s, LOW, 0x10), 0x10, 0xa_0000)
  {
    hide Wrap, AlignDown;
    WrappedPosition();
  }

  /**
   A machine without high memory, straight after malloc_setup: pmm_malloc grants a request of
   0x9fff0 bytes at address 0x10. The block covers its own tracking record and the old EBDA, and
   the EBDA does not end where ZoneLow begins.
   */
  lemma WrappedRequest(table: nat, handle: nat)
    requires SetupInput(table, None)
    ensures var s := SetupState(table, None, 1); var r := Malloc(s, LOW, handle, 0x9_fff0, 16);
      && Good(s, NoBlocks(s.zones)) && Request(0x9_fff0, 16) && 0x9_fff0 <= s.zones[LOW].cur
      && r.addr == 0x10 && r.state.allocs == [Info(0x8_ffe0, 0x10, 0xa_0000, handle, 0x9_0000)]
      && |r.state.zones| == NZONES && r.state.zones[LOW] == Zone(0xa_0000, 0, 0x10) && r.state.ebda == 0xf_fc00 && !EbdaClear(r.state)
  {
    hide SetupZones, Expand, ZoneMalloc, RecordMalloc, Inv;
    SetupShape(table, None);
    SetupGood(table, None, 1);
    var s := SetupState(table, None, 1);
    RecordPlace(s);
    var t := Take(s, TMPLOW, 0x8_ffe0);
    WrappedExpand(t);
    WrappedBlock(Expand(t, 0x9_fff0, 16));
    ExpandAllocs(t, 0x9_fff0, 16);
    KbSame(t, 0x9_fff0, 16);
  }

  lemma KbSame(s: State, size: nat, align: nat)
    requires |s.zones| == NZONES && align > 0
    ensures Expand(s, size, align).ebdaKb == s.ebdaKb
  {
  }

  lemma {:induction false} PatchNone(allocs: seq<Info>, data: nat, o: nat)
    requires forall i :: 0 <= i < |allocs| ==> allocs[i].olddata != data && allocs[i].oldalloc != data
    ensures Patch(allocs, data, o) == allocs
  {
    if allocs != [] { PatchNone(allocs[1..], data, o); }
  }

  lemma {:induction false} LookupIs(allocs: seq<Info>, data: nat, i: nat)
    requires i < |allocs| && allocs[i].data == data && forall j :: 0 <= j < i ==> allocs[j].data != data
    ensures Lookup(allocs, data) == Some(i)
  {
    if i > 0 { LookupIs(allocs[1..], data, i - 1); }
  }

  lemma FindNext(zones: seq<Zone>, data: nat, i: nat)
    requires i < |zones|
    ensures ZoneFind(zones, data, i) == if zones[i].cur <= data < zones[i].top then i else ZoneFind(zones, data, i + 1)
  {
  }

  class Manager {
    const zones: array<Zone>
    var allocs: seq<Info>
    var memKb: nat
    var ebda: nat
    var ebdaKb: nat

    ghost predicate Valid() { zones.Length == NZONES }

    ghost function Now(): State
      reads this, zones
    {
      State(zones[..], allocs, memKb, ebda, ebdaKb)
    }

    /** malloc_setup, with the EBDA of `kb` KB at the end of low memory. */
    constructor (table: nat, high: Option<Area>, kb: nat)
      requires kb <= 64
      ensures Valid() && fresh(zones) && Now() == SetupState(table, high, kb)
    {
      var all := SetupZones(table, high);
      zones := new Zone[NZONES](i requires 0 <= i < |all| => all[i]);
      allocs := [];
      memKb, ebda, ebdaKb := 640 - kb, BUILD_LOWRAM_END - kb * KB, kb;
      new;
      assert zones[..] == all;
    }

    /** zone_find */
    method Find(data: nat) returns (z: int)
      requires Valid()
      ensures z == ZoneFind(zones[..], data)
    {
      for i := 0 to NZONES
        invariant ZoneFind(zones[..], data) == ZoneFind(zones[..], data, i)
      {
        FindNext(zones[..], data, i);
        if zones[i].cur <= data && data < zones[i].top { return i; }
      }
      z := -1;
    }

    /** zone_malloc */
    method Allocate(z: nat, size: nat, align: nat) returns (addr: nat)
      requires Valid() && z < NZONES && align > 0
      modifies zones
      ensures Block(Now(), addr, old(zones[z].cur)) == ZoneMalloc(old(Now()), z, size, align)
    {
      var oldpos := zones[z].cur;
      var newpos := AlignDown(Wrap(oldpos - size), align);
      if newpos < zones[z].bottom || newpos > oldpos { return 0; }
      zones[z] := zones[z].(cur := newpos);
      assert zones[..] == old(zones[..])[z := old(zones[z]).(cur := newpos)];
      addr := newpos;
    }

    /** zone_free */
    method Release(data: nat, olddata: nat) returns (ret: int)
      requires Valid()
      modifies zones
      ensures Now() == Undo(old(Now()), data, olddata)
      ensures ret == if IsLast(old(zones[..]), data) then 0 else -1
    {
      var z := Find(data);
      if z < 0 || data == 0 || zones[z].cur != data { return -1; }
      zones[z] := zones[z].(cur := olddata);
      assert zones[..] == old(zones[..])[z := old(zones[z]).(cur := olddata)];
      ret := 0;
    }

    /** relocate_ebda; the copy of the EBDA's contents is not part of the state. */
    method RelocateEbda(newebda: nat, oldebda: nat) returns (ret: int)
      modifies this
      ensures ret == if oldebda == old(memKb) * KB then 0 else -1
      ensures Now() == if ret == 0 then old(Now()).(memKb := newebda / KB % 0x1_0000, ebda := newebda / 16 % 0x1_0000 * 16) else old(Now())
    {
      if oldebda != memKb * KB { return -1; }
      memKb := newebda / KB % 0x1_0000;
      ebda := newebda / 16 % 0x1_0000 * 16;
      ret := 0;
    }

    /** zonelow_expand */
    method ExpandLow(size: nat, align: nat)
      requires Valid() && align > 0
      modifies this, zones
      ensures Now() == Expand(old(Now()), size, align)
    {
      hide Wrap, AlignDown;
      var oldpos, bottom := zones[LOW].cur, zones[LOW].bottom;
      var newpos := AlignDown(Wrap(oldpos - size), align);
      if newpos >= bottom && newpos <= oldpos { return; }
      var end := Wrap(ebda + ebdaKb * KB);
      if end != bottom {
        oldpos := end;
        newpos := AlignDown(Wrap(oldpos - size), align);
      }
      var newbottom := AlignDown(newpos, KB);
      var newebda := AlignDown(Wrap(newbottom - ebdaKb * KB), KB);
      if newebda < BUILD_EBDA_MINIMUM { return; }
      var ret := RelocateEbda(newebda, ebda);
      if ret != 0 { return; }
      zones[LOW] := zones[LOW].(cur := oldpos, bottom := newbottom);
      assert zones[..] == old(zones[..])[LOW := old(zones[LOW]).(cur := oldpos, bottom := newbottom)];
    }

    /** pmm_malloc */
    method Malloc(z: nat, handle: nat, size: nat, align: nat) returns (addr: nat)
      requires Valid() && z < NZONES && align > 0
      modifies this, zones
      ensures Pointer(Now(), addr) == Pmm.Malloc(old(Now()), z, handle, size, align)
    {
      var oldalloc := zones[TMPHIGH].cur;
      var info := Allocate(TMPHIGH, RECORD_SIZE, MALLOC_MIN_ALIGN);
      if info == 0 {
        oldalloc := zones[TMPLOW].cur;
        info := Allocate(TMPLOW, RECORD_SIZE, MALLOC_MIN_ALIGN);
        if info == 0 { return 0; }
      }
      if z == LOW { ExpandLow(size, align); }
      var olddata := zones[z].cur;
      addr := Allocate(z, size, align);
      if addr == 0 {
        var _ := Release(info, oldalloc);
        return;
      }
      allocs := [Info(info, addr, olddata, handle, oldalloc)] + allocs;
    }

    /** pmm_free_data */
    method ReleaseData(data: nat, olddata: nat)
      requires Valid()
      modifies this`allocs, zones
      ensures Now() == FreeData(old(Now()), data, olddata)
    {
      var ret := Release(data, olddata);
      if ret == 0 { return; }
      for i := 0 to |allocs|
        invariant allocs == old(allocs) && zones[..] == old(zones[..])
        invariant forall j :: 0 <= j < i ==> allocs[j].olddata != data && allocs[j].oldalloc != data
      {
        if allocs[i].olddata == data {
          PatchData(allocs, data, olddata, i);
          allocs := allocs[i := allocs[i].(olddata := olddata)];
          return;
        } else if allocs[i].oldalloc == data {
          PatchAlloc(allocs, data, olddata, i);
          allocs := allocs[i := allocs[i].(oldalloc := olddata)];
          return;
        }
      }
      PatchNone(allocs, data, olddata);
    }

    /** pmm_free */
    method Free(data: nat) returns (ret: int)
      requires Valid()
      modifies this`allocs, zones
      ensures Now() == Pmm.Free(old(Now()), data)
      ensures ret == if Lookup(old(allocs), data).Some? then 0 else -1
    {
      for i := 0 to |allocs|
        invariant allocs == old(allocs) && zones[..] == old(zones[..])
        invariant forall j :: 0 <= j < i ==> allocs[j].data != data
      {
        if allocs[i].data == data {
          LookupIs(allocs, data, i);
          var info := allocs[i];
          allocs := allocs[..i] + allocs[i + 1..];
          ReleaseData(data, info.olddata);
          ReleaseData(info.at, info.oldalloc);
          return 0;
        }
      }
      ret := -1;
    }

    /** pmm_find: the block of the newest record with the handle, 0 if there is none. */
    method FindHandle(handle: nat) returns (data: nat)
      ensures (forall i :: 0 <= i < |allocs| ==> allocs[i].handle != handle) ==> data == 0
      ensures forall i :: 0 <= i < |allocs| && allocs[i].handle == handle && (forall j :: 0 <= j < i ==> allocs[j].handle != handle) ==>
        data == allocs[i].data
    {
      for i := 0 to |allocs|
        invariant forall j :: 0 <= j < i ==> allocs[j].handle != handle
      {
        if allocs[i].handle == handle { return allocs[i].data; }
      }
      data := 0;
    }

    /** pmm_getspace */
    method GetSpace(z: nat) returns (space: nat)
      requires Valid() && z < NZONES
      ensures zones[z].bottom <= zones[z].cur < U32 ==>
        space == if z == TMPHIGH || z == TMPLOW
                 then (if zones[z].cur - zones[z].bottom <= 32 then 0 else zones[z].cur - zones[z].bottom - 32)
                 else zones[z].cur - zones[z].bottom
    {
      space := Wrap(zones[z].cur - zones[z].bottom);
      if z != TMPHIGH && z != TMPLOW { return; }
      var reserve := AlignUp(RECORD_SIZE, MALLOC_MIN_ALIGN);
      if space <= reserve { return 0; }
      space := space - reserve;
    }
  }
}
