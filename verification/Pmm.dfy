/**
 The zone allocator of bios/seabios/src/pmm.c as functions on its whole state. All addresses
 and sizes are u32, so differences wrap around.
 */
module Pmm {
  import opened Words

  const MALLOC_MIN_ALIGN: nat := 16
  const RECORD_SIZE: nat := 20        // sizeof(struct pmmalloc_s)
  const BUILD_EBDA_MINIMUM: nat := 0x90000
  const BUILD_LOWRAM_END: nat := 0xa0000
  const KB: nat := 1024

  datatype Zone = Zone(top: nat, bottom: nat, cur: nat)

  /** struct pmmalloc_s; `at` is the address of the record itself. */
  datatype Info = Info(at: nat, data: nat, olddata: nat, handle: nat, oldalloc: nat)

  /** `zones` in the order of the Zones array; `allocs` is the list PMMAllocs from its head on. */
  datatype State = State(zones: seq<Zone>, allocs: seq<Info>, memKb: nat, ebda: nat, ebdaKb: nat)

  const TMPLOW := 0
  const LOW := 1
  const FSEG := 2
  const TMPHIGH := 3
  const HIGH := 4
  const NZONES := 5

  function Wrap(x: int): nat { x % U32 }

  function AlignDown(x: nat, align: nat): nat
    requires align > 0
  {
    x - x % align
  }

  // ---- Zones ----

  function Position(z: Zone, size: nat, align: nat): nat
    requires align > 0
  {
    AlignDown(Wrap(z.cur - size), align)
  }

  predicate HasSpace(z: Zone, size: nat, align: nat)
    requires align > 0
  {
    z.bottom <= Position(z, size, align) <= z.cur
  }

  /** zone_find: the first zone whose used part contains the address. */
  function ZoneFind(zones: seq<Zone>, data: nat, i: nat := 0): (r: int)
    requires i <= |zones|
    ensures -1 <= r < |zones|
    decreases |zones| - i
  {
    if i == |zones| then -1
    else if zones[i].cur <= data < zones[i].top then i
    else ZoneFind(zones, data, i + 1)
  }

  /** zone_free succeeds only for the most recent block of a zone. */
  predicate IsLast(zones: seq<Zone>, data: nat) {
    var z := ZoneFind(zones, data);
    z >= 0 && data != 0 && zones[z].cur == data
  }

  function ZoneFree(zones: seq<Zone>, data: nat, old': nat): seq<Zone>
    requires IsLast(zones, data)
  {
    var z := ZoneFind(zones, data);
    zones[z := zones[z].(cur := old')]
  }

  // ---- The EBDA below ZoneLow ----

  /** Where zonelow_expand would put the bottom of ZoneLow and the EBDA. */
  function LowBase(s: State): nat
    requires |s.zones| == NZONES
  {
    if Wrap(s.ebda + s.ebdaKb * KB) == s.zones[LOW].bottom then s.zones[LOW].cur else Wrap(s.ebda + s.ebdaKb * KB)
  }

  function NewBottom(s: State, size: nat, align: nat): nat
    requires |s.zones| == NZONES && align > 0
  {
    AlignDown(AlignDown(Wrap(LowBase(s) - size), align), KB)
  }

  function NewEbda(s: State, size: nat, align: nat): nat
    requires |s.zones| == NZONES && align > 0
  {
    AlignDown(Wrap(NewBottom(s, size, align) - s.ebdaKb * KB), KB)
  }

  /** zonelow_expand moves the EBDA. */
  predicate Relocates(s: State, size: nat, align: nat)
    requires |s.zones| == NZONES && align > 0
  {
    && !HasSpace(s.zones[LOW], size, align)
    && NewEbda(s, size, align) >= BUILD_EBDA_MINIMUM
    && s.ebda == s.memKb * KB
  }

  /** The BDA keeps the new end of memory in 16 bits and the new position as a segment. */
  function Expand(s: State, size: nat, align: nat): State
    requires |s.zones| == NZONES && align > 0
  {
    if !Relocates(s, size, align) then s
    else s.(memKb := NewEbda(s, size, align) / KB % 0x1_0000,
            ebda := NewEbda(s, size, align) / 16 % 0x1_0000 * 16,
            zones := s.zones[LOW := s.zones[LOW].(cur := LowBase(s), bottom := NewBottom(s, size, align))])
  }

  // ---- Tracked allocations ----

  function Take(s: State, z: nat, pos: nat): State
    requires |s.zones| == NZONES && z < NZONES
  {
    s.(zones := s.zones[z := s.zones[z].(cur := pos)])
  }

  datatype Block = Block(state: State, addr: nat, saved: nat)

  /** zone_malloc, together with the position the caller saved before; address 0 is NULL. */
  function ZoneMalloc(s: State, z: nat, size: nat, align: nat): Block
    requires |s.zones| == NZONES && z < NZONES && align > 0
  {
    var zone := s.zones[z];
    if HasSpace(zone, size, align)
    then Block(Take(s, z, Position(zone, size, align)), Position(zone, size, align), zone.cur)
    else Block(s, 0, zone.cur)
  }

  /** The tracking record goes to the high temporary zone, or to the low one. */
  function RecordMalloc(s: State): Block
    requires |s.zones| == NZONES
  {
    var high := ZoneMalloc(s, TMPHIGH, RECORD_SIZE, MALLOC_MIN_ALIGN);
    if high.addr != 0 then high else ZoneMalloc(high.state, TMPLOW, RECORD_SIZE, MALLOC_MIN_ALIGN)
  }

  function Undo(s: State, data: nat, old': nat): State {
    if IsLast(s.zones, data) then s.(zones := ZoneFree(s.zones, data, old')) else s
  }

  datatype Pointer = Pointer(state: State, addr: nat)

  /** pmm_malloc */
  function Malloc(s: State, z: nat, handle: nat, size: nat, align: nat): Pointer
    requires |s.zones| == NZONES && z < NZONES && align > 0
  {
    var rec := RecordMalloc(s);
    if rec.addr == 0 then Pointer(rec.state, 0)
    else
      var grown := if z == LOW then Expand(rec.state, size, align) else rec.state;
      var block := ZoneMalloc(grown, z, size, align);
      if block.addr == 0 then Pointer(Undo(block.state, rec.addr, rec.saved), 0)
      else
        var info := Info(rec.addr, block.addr, block.saved, handle, rec.saved);
        Pointer(block.state.(allocs := [info] + block.state.allocs), block.addr)
  }

  /** The first record that saved the position `data` now saves `old'`. */
  function Patch(allocs: seq<Info>, data: nat, old': nat): seq<Info> {
    if allocs == [] then []
    else if allocs[0].olddata == data then [allocs[0].(olddata := old')] + allocs[1..]
    else if allocs[0].oldalloc == data then [allocs[0].(oldalloc := old')] + allocs[1..]
    else [allocs[0]] + Patch(allocs[1..], data, old')
  }

  /** pmm_free_data */
  function FreeData(s: State, data: nat, old': nat): State {
    if IsLast(s.zones, data) then s.(zones := ZoneFree(s.zones, data, old'))
    else s.(allocs := Patch(s.allocs, data, old'))
  }

  /** The position of the first record for the block `data`. */
  function Lookup(allocs: seq<Info>, data: nat): (r: Option<nat>)
    ensures r.Some? ==> r.value < |allocs| && allocs[r.value].data == data
    ensures r.None? ==> forall i :: 0 <= i < |allocs| ==> allocs[i].data != data
  {
    if allocs == [] then None
    else if allocs[0].data == data then Some(0)
    else match Lookup(allocs[1..], data)
      case None => None
      case Some(i) => Some(i + 1)
  }

  /** pmm_free of the record at position `i`. */
  function FreeAt(s: State, i: nat): State
    requires i < |s.allocs|
  {
    var info := s.allocs[i];
    var s1 := s.(allocs := s.allocs[..i] + s.allocs[i + 1..]);
    FreeData(FreeData(s1, info.data, info.olddata), info.at, info.oldalloc)
  }

  /** pmm_free: 0 for success, -1 for an unknown block. */
  function Free(s: State, data: nat): State {
    match Lookup(s.allocs, data)
    case None => s
    case Some(i) => FreeAt(s, i)
  }
}
