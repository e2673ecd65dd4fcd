/** Whole runs of pmm_malloc and pmm_free: no overlap, nothing lost, and everything returned at the end. */
module PmmRuns {
  import opened Words
  import opened Pmm
  import opened PmmChain
  import opened PmmProofs
  import opened PmmAlloc

  ghost predicate Good(s: State, v: View) { Inv(s, v, map[]) && Layout(s) }

  lemma TakeLayout(s: State, z: nat, pos: nat)
    requires Layout(s) && z < NZONES
    ensures Layout(Take(s, z, pos))
  {
  }

  lemma LengthsOf(s: State, v: View, extra: map<nat, nat>)
    requires Inv(s, v, extra)
    ensures |s.zones| == NZONES == |v.paths|
  {
  }

  /** The zone of the tracking record, and the zone that has no record space when both are full. */
  function RecordZone(s: State): nat
    requires |s.zones| == NZONES
  {
    if HasSpace(s.zones[TMPHIGH], RECORD_SIZE, MALLOC_MIN_ALIGN) then TMPHIGH else TMPLOW
  }

  predicate HasRecord(s: State)
    requires |s.zones| == NZONES
  {
    HasSpace(s.zones[RecordZone(s)], RECORD_SIZE, MALLOC_MIN_ALIGN)
  }

  ghost predicate RecordTaken(s: State, v: View, v': View)
    requires |s.zones| == NZONES == |v.paths|
  {
    var rec, zr := RecordMalloc(s), RecordZone(s);
    && rec.addr > 0 && rec.addr !in v.saved && rec.addr + RECORD_SIZE <= rec.saved == s.zones[zr].cur
    && s.zones[zr].bottom <= rec.addr
    && v' == Pushed(v, zr, rec.addr, rec.saved, RECORD_SIZE)
  }

  lemma RecordInv(s: State, v: View) returns (v': View)
    requires |s.zones| == NZONES == |v.paths| && Good(s, v)
    ensures HasRecord(s) ==> RecordTaken(s, v, v') && RecordMalloc(s).state == Take(s, RecordZone(s), RecordMalloc(s).addr)
    ensures HasRecord(s) ==> Inv(RecordMalloc(s).state, v', map[RecordMalloc(s).addr := RecordMalloc(s).saved])
    ensures HasRecord(s) ==> Layout(RecordMalloc(s).state)
    ensures !HasRecord(s) ==> RecordMalloc(s).addr == 0 && RecordMalloc(s).state == s
  {
    hide Inv, Layout, HasSpace, Position, Take;
    v' := v;
    if HasRecord(s) {
      v' := TakeInv(s, v, map[], RecordZone(s), RECORD_SIZE, MALLOC_MIN_ALIGN);
      TakeLayout(s, RecordZone(s), RecordMalloc(s).addr);
    }
  }

  /** The state in which the block itself is taken. */
  function Grown(s: State, z: nat, size: nat, align: nat): State
    requires |s.zones| == NZONES && z < NZONES && align > 0
  {
    var rec := RecordMalloc(s).state;
    if z == LOW then Expand(rec, size, align) else rec
  }

  lemma SameLow(s: State, z: nat, pos: nat, size: nat, align: nat)
    requires |s.zones| == NZONES && z < NZONES && z != LOW && align > 0
    ensures LowOk(Take(s, z, pos), size, align) <==> LowOk(s, size, align)
  {
  }

  /** With the record taken and ZoneLow grown, only the record's zone has moved its current position. */
  ghost predicate OnlyRecord(s: State, g: State) {
    && |s.zones| == NZONES == |g.zones| && g.allocs == s.allocs
    && (forall y :: 0 <= y < NZONES ==> g.zones[y].cur == if y == RecordZone(s) then RecordMalloc(s).addr else s.zones[y].cur)
    && g.zones[RecordZone(s)].bottom <= RecordMalloc(s).addr < RecordMalloc(s).saved <= g.zones[RecordZone(s)].top
  }

  lemma GrownInv(s: State, v: View, z: nat, size: nat, align: nat) returns (v': View)
    requires |s.zones| == NZONES == |v.paths| && Good(s, v) && HasRecord(s)
    requires z < NZONES && Request(size, align) && (z == LOW ==> LowOk(s, size, align))
    ensures RecordTaken(s, v, v') && OnlyRecord(s, Grown(s, z, size, align)) && Layout(Grown(s, z, size, align))
    ensures Inv(Grown(s, z, size, align), v', map[RecordMalloc(s).addr := RecordMalloc(s).saved])
  {
    hide Inv, Layout, HasSpace, RecordMalloc, LowOk, Expand;
    v' := RecordInv(s, v);
    CurBelowTop(s, v, RecordZone(s));
    var rec := RecordMalloc(s);
    if z == LOW {
      SameLow(s, RecordZone(s), rec.addr, size, align);
      ExpandInv(rec.state, v', map[rec.addr := rec.saved], size, align);
      ExpandAllocs(rec.state, size, align);
    }
  }

  lemma CurBelowTop(s: State, v: View, z: nat)
    requires |s.zones| == NZONES && Good(s, v) && z < NZONES
    ensures s.zones[z].bottom <= s.zones[z].cur <= s.zones[z].top
  {
    PathInside(s.zones[z], v.paths[z], v.saved, 0);
  }

  lemma ExpandAllocs(s: State, size: nat, align: nat)
    requires |s.zones| == NZONES && align > 0
    ensures Expand(s, size, align).allocs == s.allocs && |Expand(s, size, align).zones| == NZONES
  {
  }

  // ---- A failed request ----

  lemma DropPushed(v: View, z: nat, pos: nat, cur: nat, size: nat)
    requires z < |v.paths| && |v.paths[z]| > 0 && pos !in v.saved && v.saved.Keys == v.sizes.Keys
    ensures Dropped(Pushed(v, z, pos, cur, size), z, 0) == v
  {
    var v' := Pushed(v, z, pos, cur, size);
    assert Unlinked(v'.paths[z], 0) == v.paths[z];
    assert pos !in v.sizes.Keys;
    assert v'.saved - {pos} == v.saved;
    assert v'.sizes - {pos} == v.sizes;
    assert v'.paths[z := v.paths[z]] == v.paths;
  }

  lemma HasPath(s: State, v: View, extra: map<nat, nat>, z: nat)
    requires Inv(s, v, extra) && z < NZONES
    ensures |s.zones| == NZONES == |v.paths| && |v.paths[z]| > 0 && v.paths[z][0] == s.zones[z].cur
    ensures v.saved.Keys == v.sizes.Keys
  {
    assert Path(s.zones[z], v.paths[z], v.saved);
  }

  /** zone_free takes the record back: as if it had never been there. */
  lemma UndoInv(s: State, v: View, g: State, v': View)
    requires |s.zones| == NZONES == |v.paths| && Good(s, v) && RecordTaken(s, v, v') && OnlyRecord(s, g) && Layout(g)
    requires Inv(g, v', map[RecordMalloc(s).addr := RecordMalloc(s).saved])
    ensures var s' := Undo(g, RecordMalloc(s).addr, RecordMalloc(s).saved);
      && Good(s', v) && s'.allocs == s.allocs && |s'.zones| == NZONES && forall y :: 0 <= y < NZONES ==> s'.zones[y].cur == s.zones[y].cur
  {
    hide Inv, Layout, IsLast, ZoneFree, RecordMalloc, HasSpace, Undo, FreeData, Dropped;
    var rec, zr := RecordMalloc(s), RecordZone(s);
    var extra := map[rec.addr := rec.saved];
    HasPath(s, v, map[], zr);
    HasPath(g, v', extra, zr);
    FreeLast(g, v', extra, zr, rec.addr);
    UndoIs(g, v', extra, zr, rec.addr);
    DropPushed(v, zr, rec.addr, rec.saved, RECORD_SIZE);
    assert extra - {rec.addr} == map[];
    SameLayout(g, Undo(g, rec.addr, rec.saved));
  }

  lemma UndoIs(g: State, v: View, extra: map<nat, nat>, z: nat, a: nat)
    requires Inv(g, v, extra) && z < NZONES && Sits(v, z, 0, a) && a in extra
    ensures Undo(g, a, extra[a]) == FreeData(g, a, extra[a]) == g.(zones := ZonesWithout(g.zones, v, z, 0))
  {
    hide Paths, Tracks, AllBelow, IsLast, ZoneFree;
    InvExtra(g, v, extra, a);
    LastZones(g.zones, v, z, a);
  }

  lemma SameLayout(s: State, s': State)
    requires Layout(s) && s'.ebda == s.ebda && s'.ebdaKb == s.ebdaKb && |s'.zones| == NZONES
    requires forall z :: 0 <= z < NZONES ==> s'.zones[z].bottom == s.zones[z].bottom && s'.zones[z].top == s.zones[z].top
    ensures Layout(s')
  {
  }

  // ---- A successful request ----

  lemma NewBelow(zones: seq<Zone>, zr: nat, z: nat, info: Info)
    requires Disjoint(zones) && zr < |zones| && z < |zones| && Inside(zones[zr], info.at) && Inside(zones[z], info.data)
    requires zr == z ==> info.data < info.at
    ensures BelowRecord(zones, info)
  {
  }

  lemma OwnsMore(allocs: seq<Info>, info: Info, a: nat)
    ensures Owns([info] + allocs, a) <==> Owns(allocs, a) || info.data == a || info.at == a
  {
    var more := [info] + allocs;
    assert more[0] == info && forall j :: 1 <= j < |more| ==> more[j] == allocs[j - 1];
    if Owns(allocs, a) {
      var j :| 0 <= j < |allocs| && (allocs[j].data == a || allocs[j].at == a);
      assert more[j + 1] == allocs[j];
    }
  }

  lemma AddDistinct(allocs: seq<Info>, info: Info)
    requires Distinct(allocs) && info.data != info.at && !Owns(allocs, info.data) && !Owns(allocs, info.at)
    ensures Distinct([info] + allocs)
  {
    var more := [info] + allocs;
    assert forall j :: 1 <= j < |more| ==> more[j] == allocs[j - 1];
  }

  lemma AddTracks(allocs: seq<Info>, saved: map<nat, nat>, info: Info)
    requires Tracks(allocs, Blocks(info), saved) && info.data != info.at
    ensures Tracks([info] + allocs, map[], saved)
  {
    hide Owns, Distinct;
    assert info.data in Blocks(info) && info.at in Blocks(info);
    AddDistinct(allocs, info);
    forall a | a in saved ensures Owns([info] + allocs, a) { OwnsMore(allocs, info, a); }
  }

  lemma AddRecord(s: State, v: View, info: Info)
    requires Inv(s, v, Blocks(info)) && info.data != info.at && BelowRecord(s.zones, info)
    ensures Inv(s.(allocs := [info] + s.allocs), v, map[])
  {
    hide Paths, Tracks, BelowRecord;
    AddTracks(s.allocs, v.saved, info);
    assert AllBelow(s.zones, [info] + s.allocs);
  }

  /** What a block of `size` bytes at `addr`, tracked at the head of the list, looks like. */
  ghost predicate Granted(s: State, v: View, z: nat, handle: nat, size: nat, align: nat, addr: nat, s': State, v': View)
    requires |s.zones| == NZONES && z < NZONES && align > 0
  {
    && |s'.allocs| == |s.allocs| + 1 && s'.allocs[1..] == s.allocs
    && s'.allocs[0].data == addr && s'.allocs[0].handle == handle
    && addr % align == 0 && addr !in v.saved && |s'.zones| == NZONES
    && s'.zones[z].bottom <= addr && addr + size <= s'.zones[z].top
    && v'.sizes == v.sizes[s'.allocs[0].at := RECORD_SIZE][addr := size]
  }

  ghost predicate Refused(s: State, s': State) {
    && |s'.zones| == |s.zones| && s'.allocs == s.allocs
    && forall y :: 0 <= y < |s.zones| ==> s'.zones[y].cur == s.zones[y].cur
  }

  lemma GrantInv(s: State, v: View, g: State, v1: View, z: nat, handle: nat, size: nat, align: nat) returns (v': View)
    requires |s.zones| == NZONES == |v.paths| && |g.zones| == NZONES == |v1.paths| && z < NZONES && Request(size, align)
    requires RecordTaken(s, v, v1) && OnlyRecord(s, g) && Layout(g) && HasSpace(g.zones[z], size, align)
    requires Inv(g, v1, map[RecordMalloc(s).addr := RecordMalloc(s).saved])
    ensures var rec, pos := RecordMalloc(s), Position(g.zones[z], size, align);
      var info := Info(rec.addr, pos, g.zones[z].cur, handle, rec.saved);
      var s' := Take(g, z, pos).(allocs := [info] + g.allocs);
      Good(s', v') && pos > 0 && Granted(s, v, z, handle, size, align, pos, s', v')
  {
    hide Inv, Layout, HasSpace, Position, RecordMalloc;
    var rec, pos := RecordMalloc(s), Position(g.zones[z], size, align);
    var extra := map[rec.addr := rec.saved];
    v' := TakeInv(g, v1, extra, z, size, align);
    TakeLayout(g, z, pos);
    var t := Take(g, z, pos);
    var info := Info(rec.addr, pos, g.zones[z].cur, handle, rec.saved);
    assert extra[pos := g.zones[z].cur] == Blocks(info);
    ZonesApart(t, v', Blocks(info));
    CurInside(g, v1, extra, z);
    NewBelow(t.zones, RecordZone(s), z, info);
    AddRecord(t, v', info);
    SameLayout(t, t.(allocs := [info] + g.allocs));
  }

  lemma ZonesApart(s: State, v: View, extra: map<nat, nat>)
    requires Inv(s, v, extra)
    ensures Disjoint(s.zones)
  {
  }

  lemma CurInside(s: State, v: View, extra: map<nat, nat>, z: nat)
    requires |s.zones| == NZONES && Inv(s, v, extra) && z < NZONES
    ensures s.zones[z].bottom <= s.zones[z].cur <= s.zones[z].top
  {
    PathInside(s.zones[z], v.paths[z], v.saved, 0);
  }

  /**
   pmm_malloc keeps the chains. A granted block is aligned, inside its zone and new; a refused
   request leaves every zone's current position and the list as they were, and is refused only
   if there is no space for the record or no aligned place for the block.
   */
  lemma MallocKeeps(s: State, v: View, z: nat, handle: nat, size: nat, align: nat) returns (v': View)
    requires |s.zones| == NZONES && z < NZONES && Good(s, v) && Request(size, align)
    requires z == LOW && HasRecord(s) ==> LowOk(s, size, align)
    ensures var r := Malloc(s, z, handle, size, align);
      && Good(r.state, v')
      && (r.addr != 0 ==> Granted(s, v, z, handle, size, align, r.addr, r.state, v'))
      && (r.addr == 0 ==> v' == v && Refused(s, r.state))
      && (r.addr == 0 && HasRecord(s) ==> forall p: nat :: !Fits(Grown(s, z, size, align).zones[z], size, align, p))
  {
    hide Inv, Layout, HasSpace, Position, RecordMalloc, LowOk, Expand, Undo, Fits;
    LengthsOf(s, v, map[]);
    v' := RecordInv(s, v);
    if HasRecord(s) {
      var v1 := GrownInv(s, v, z, size, align);
      var g := Grown(s, z, size, align);
      LengthsOf(g, v1, map[RecordMalloc(s).addr := RecordMalloc(s).saved]);
      if HasSpace(g.zones[z], size, align) {
        v' := GrantInv(s, v, g, v1, z, handle, size, align);
      } else {
        UndoInv(s, v, g, v1);
        NoFit(g, v1, map[RecordMalloc(s).addr := RecordMalloc(s).saved], z, size, align);
        v' := v;
      }
    } else {
      v' := v;
    }
  }

  lemma NoFit(s: State, v: View, extra: map<nat, nat>, z: nat, size: nat, align: nat)
    requires |s.zones| == NZONES && Inv(s, v, extra) && z < NZONES && Request(size, align) && !HasSpace(s.zones[z], size, align)
    ensures forall p: nat :: !Fits(s.zones[z], size, align, p)
  {
    PathInside(s.zones[z], v.paths[z], v.saved, 0);
    HighestFit(s.zones[z], size, align);
  }

  /** Otherwise the EBDA no longer ends where ZoneLow begins, whether the block is granted or not. */
  lemma MallocBreaks(s: State, v: View, handle: nat, size: nat, align: nat)
    requires |s.zones| == NZONES && Good(s, v) && Request(size, align) && HasRecord(s) && !LowOk(s, size, align)
    ensures var s' := Malloc(s, LOW, handle, size, align).state; |s'.zones| == NZONES && !EbdaClear(s')
  {
    hide Inv, Layout, HasSpace, Position, LowOk, Expand, RecordMalloc, EbdaClear;
    LengthsOf(s, v, map[]);
    var v1 := RecordInv(s, v);
    var rec := RecordMalloc(s);
    SameLow(s, RecordZone(s), rec.addr, size, align);
    ExpandAllocs(rec.state, size, align);
    CurInside(rec.state, v1, map[rec.addr := rec.saved], LOW);
    ExpandExact(rec.state, size, align);
    SameClear(Expand(rec.state, size, align), Malloc(s, LOW, handle, size, align).state);
  }

  lemma SameClear(s: State, s': State)
    requires |s.zones| == NZONES == |s'.zones| && s'.ebda == s.ebda && s'.ebdaKb == s.ebdaKb
    requires s'.zones[LOW].bottom == s.zones[LOW].bottom
    ensures EbdaClear(s') <==> EbdaClear(s)
  {
  }

  // ---- pmm_free ----

  lemma DataSame(s: State, data: nat, o: nat)
    ensures var s' := FreeData(s, data, o);
      && |s'.zones| == |s.zones| && s'.ebda == s.ebda && s'.ebdaKb == s.ebdaKb && |s'.allocs| == |s.allocs|
      && (forall z :: 0 <= z < |s.zones| ==> s'.zones[z].bottom == s.zones[z].bottom && s'.zones[z].top == s.zones[z].top)
      && (forall j :: 0 <= j < |s.allocs| ==> s'.allocs[j].data == s.allocs[j].data && s'.allocs[j].at == s.allocs[j].at)
  {
    PatchKeeps(s.allocs, data, o);
  }

  /** The list afterwards: record `i` is gone, the others keep their blocks. */
  lemma FreeAtSame(s: State, i: nat)
    requires i < |s.allocs|
    ensures var s' := FreeAt(s, i);
      && |s'.zones| == |s.zones| && s'.ebda == s.ebda && s'.ebdaKb == s.ebdaKb && |s'.allocs| == |s.allocs| - 1
      && (forall z :: 0 <= z < |s.zones| ==> s'.zones[z].bottom == s.zones[z].bottom && s'.zones[z].top == s.zones[z].top)
      && (forall j :: 0 <= j < |s'.allocs| ==> s'.allocs[j].data == Without(s.allocs, i)[j].data && s'.allocs[j].at == Without(s.allocs, i)[j].at)
  {
    hide FreeData;
    var info, s1 := s.allocs[i], s.(allocs := Without(s.allocs, i));
    DataSame(s1, info.data, info.olddata);
    DataSame(FreeData(s1, info.data, info.olddata), info.at, info.oldalloc);
  }

  lemma FreeKeeps(s: State, v: View, data: nat) returns (v': View)
    requires Good(s, v)
    ensures Good(Free(s, data), v')
    ensures v'.sizes == match Lookup(s.allocs, data) case None => v.sizes case Some(i) => v.sizes - {data, s.allocs[i].at}
  {
    hide Inv, Layout, FreeAt;
    match Lookup(s.allocs, data)
    case None => v' := v;
    case Some(i) =>
      v' := FreeAtInv(s, v, i);
      FreeAtSame(s, i);
      LengthsOf(s, v, map[]);
      SameLayout(s, FreeAt(s, i));
  }

  // ---- Runs ----

  datatype Op = Get(zone: nat, handle: nat, size: nat, align: nat) | Put(data: nat)

  predicate Asked(op: Op) { op.Get? ==> op.zone < NZONES && Request(op.size, op.align) }

  predicate AllAsked(ops: seq<Op>) { forall i :: 0 <= i < |ops| ==> Asked(ops[i]) }

  function Apply(s: State, op: Op): (r: State)
    requires |s.zones| == NZONES && Asked(op)
    ensures |r.zones| == NZONES
  {
    match op
    case Get(z, handle, size, align) => Malloc(s, z, handle, size, align).state
    case Put(data) =>
      assert |Free(s, data).zones| == NZONES by { if Lookup(s.allocs, data).Some? { FreeAtSame(s, Lookup(s.allocs, data).value); } }
      Free(s, data)
  }

  function Run(s: State, ops: seq<Op>): (r: State)
    requires |s.zones| == NZONES && AllAsked(ops)
    ensures |r.zones| == NZONES
    decreases |ops|
  {
    if ops == [] then s else Run(Apply(s, ops[0]), ops[1..])
  }

  /** A ZoneLow request that reaches zonelow_expand makes none of its subtractions wrap. */
  predicate Legal(s: State, op: Op)
    requires |s.zones| == NZONES && Asked(op)
  {
    op.Get? && op.zone == LOW && HasRecord(s) ==> LowOk(s, op.size, op.align)
  }

  predicate LegalRun(s: State, ops: seq<Op>)
    requires |s.zones| == NZONES && AllAsked(ops)
    decreases |ops|
  {
    ops == [] || (Legal(s, ops[0]) && LegalRun(Apply(s, ops[0]), ops[1..]))
  }

  /** The live blocks and their requested sizes after one operation, tracking records included. */
  function Resized(s: State, sizes: map<nat, nat>, op: Op): map<nat, nat>
    requires |s.zones| == NZONES && Asked(op)
  {
    match op
    case Get(z, handle, size, align) =>
      var r := Malloc(s, z, handle, size, align);
      if r.addr == 0 || r.state.allocs == [] then sizes else sizes[r.state.allocs[0].at := RECORD_SIZE][r.addr := size]
    case Put(data) =>
      match Lookup(s.allocs, data)
      case None => sizes
      case Some(i) => sizes - {data, s.allocs[i].at}
  }

  function Sizes(s: State, sizes: map<nat, nat>, ops: seq<Op>): map<nat, nat>
    requires |s.zones| == NZONES && AllAsked(ops)
    decreases |ops|
  {
    if ops == [] then sizes else Sizes(Apply(s, ops[0]), Resized(s, sizes, ops[0]), ops[1..])
  }

  lemma ApplyKeeps(s: State, v: View, op: Op) returns (v': View)
    requires |s.zones| == NZONES && Good(s, v) && Asked(op) && Legal(s, op)
    ensures Good(Apply(s, op), v') && v'.sizes == Resized(s, v.sizes, op)
  {
    hide Good, Malloc, Free, Fits, HasSpace, LowOk;
    match op
    case Get(z, handle, size, align) => v' := MallocKeeps(s, v, z, handle, size, align);
    case Put(data) => v' := FreeKeeps(s, v, data);
  }

  lemma {:induction false} RunKeeps(s: State, v: View, ops: seq<Op>) returns (v': View)
    requires |s.zones| == NZONES && AllAsked(ops) && Good(s, v) && LegalRun(s, ops)
    ensures Good(Run(s, ops), v') && v'.sizes == Sizes(s, v.sizes, ops)
    decreases |ops|
  {
    hide Good, Apply, Resized;
    v' := v;
    if ops != [] {
      var v1 := ApplyKeeps(s, v, ops[0]);
      v' := RunKeeps(Apply(s, ops[0]), v1, ops[1..]);
    }
  }

  lemma ApplyExact(s: State, v: View, op: Op)
    requires |s.zones| == NZONES && Good(s, v) && Asked(op)
    ensures EbdaClear(Apply(s, op)) <==> Legal(s, op)
  {
    hide Malloc, Free, HasSpace, LowOk, Inv;
    if Legal(s, op) { var v' := ApplyKeeps(s, v, op); } else { MallocBreaks(s, v, op.handle, op.size, op.align); }
  }

  lemma RunFirst(s: State, ops: seq<Op>, n: nat)
    requires |s.zones| == NZONES && AllAsked(ops) && 0 < n <= |ops|
    ensures AllAsked(ops[..n]) && AllAsked(ops[1..]) && AllAsked(ops[1..][..n - 1])
    ensures Run(s, ops[..n]) == Run(Apply(s, ops[0]), ops[1..][..n - 1])
  {
    hide Apply;
    assert ops[..n][1..] == ops[1..][..n - 1];
  }

  ghost predicate AlwaysClear(s: State, ops: seq<Op>)
    requires |s.zones| == NZONES && AllAsked(ops)
  {
    forall n :: 0 <= n <= |ops| ==> EbdaClear(Run(s, ops[..n]))
  }

  /** The runs of RunKeeps are exactly those in which the EBDA ends where ZoneLow begins after every operation. */
  lemma {:induction false} RunExact(s: State, v: View, ops: seq<Op>)
    requires |s.zones| == NZONES && AllAsked(ops) && Good(s, v)
    ensures LegalRun(s, ops) <==> AlwaysClear(s, ops)
    decreases |ops|
  {
    hide Good, Apply, Run, Legal, EbdaClear, Asked;
    StartsClear(s, v);
    if ops == [] {
      assert forall n :: 0 <= n <= |ops| ==> ops[..n] == [];
    } else {
      ApplyExact(s, v, ops[0]);
      RunOne(s, ops);
      if Legal(s, ops[0]) {
        var v1 := ApplyKeeps(s, v, ops[0]);
        RunExact(Apply(s, ops[0]), v1, ops[1..]);
        ClearLater(s, ops);
      }
    }
  }

  lemma StartsClear(s: State, v: View)
    requires |s.zones| == NZONES && Good(s, v)
    ensures EbdaClear(s) && Run(s, []) == s
  {
  }

  lemma RunOne(s: State, ops: seq<Op>)
    requires |s.zones| == NZONES && AllAsked(ops) && ops != []
    ensures AlwaysClear(s, ops) ==> EbdaClear(Apply(s, ops[0]))
  {
    hide Apply, EbdaClear;
    RunFirst(s, ops, 1);
    assert ops[1..][..0] == [];
  }

  lemma ClearLater(s: State, ops: seq<Op>)
    requires |s.zones| == NZONES && AllAsked(ops) && ops != [] && EbdaClear(s)
    ensures AlwaysClear(s, ops) <==> AlwaysClear(Apply(s, ops[0]), ops[1..])
  {
    hide Apply, EbdaClear;
    assert ops[..0] == [];
    var s', rest := Apply(s, ops[0]), ops[1..];
    forall n | 0 < n <= |ops| ensures Run(s, ops[..n]) == Run(s', rest[..n - 1]) { RunFirst(s, ops, n); }
    if AlwaysClear(s, ops) {
      forall m | 0 <= m <= |rest| ensures EbdaClear(Run(s', rest[..m])) {
        assert EbdaClear(Run(s, ops[..m + 1]));
      }
    }
  }

  /** After any legal run no two live blocks overlap, and each lies in the used part of one zone. */
  lemma NoOverlap(s: State, v: View, ops: seq<Op>, a: nat, b: nat)
    requires |s.zones| == NZONES && AllAsked(ops) && Good(s, v) && LegalRun(s, ops)
    requires a in Sizes(s, v.sizes, ops) && b in Sizes(s, v.sizes, ops) && a < b
    ensures a + Sizes(s, v.sizes, ops)[a] <= b
    ensures var zones := Run(s, ops).zones;
      exists z :: 0 <= z < |zones| && zones[z].cur <= a && a + Sizes(s, v.sizes, ops)[a] <= zones[z].top
  {
    var v' := RunKeeps(s, v, ops);
    var zones := Run(s, ops).zones;
    hide Run, Sizes;
    OneZone(Run(s, ops), v', a);
    BlocksDisjoint(zones, v', a, b);
  }

  lemma OneZone(s: State, v: View, a: nat)
    requires Good(s, v) && a in v.sizes
    ensures a in v.saved && exists z :: 0 <= z < |s.zones| && s.zones[z].cur <= a && a + v.sizes[a] <= s.zones[z].top
  {
    hide Paths, Tracks, AllBelow, Layout;
    SizeFits(s, v, a);
    var z, k := Seat(s.zones, v, a);
    NextInside(s, v, z, k + 1);
  }

  lemma SizeFits(s: State, v: View, a: nat)
    requires Good(s, v) && a in v.sizes
    ensures |s.zones| == NZONES && a in v.saved && a + v.sizes[a] <= v.saved[a]
  {
  }

  lemma NextInside(s: State, v: View, z: nat, k: nat)
    requires |s.zones| == NZONES && Good(s, v) && z < NZONES && z < |v.paths| && k < |v.paths[z]|
    ensures v.paths[z][k] <= s.zones[z].top
  {
    PathInside(s.zones[z], v.paths[z], v.saved, k);
  }

  /** After any legal run the EBDA, wherever it has moved, overlaps no live block. */
  lemma EbdaUntouched(s: State, v: View, ops: seq<Op>, a: nat)
    requires |s.zones| == NZONES && AllAsked(ops) && Good(s, v) && LegalRun(s, ops) && a in Sizes(s, v.sizes, ops)
    ensures var s' := Run(s, ops); a + Sizes(s, v.sizes, ops)[a] <= s'.ebda || s'.ebda + s'.ebdaKb * KB <= a
  {
    var v' := RunKeeps(s, v, ops);
    hide Run, Sizes, LegalRun;
    ClearOf(Run(s, ops), v', a);
  }

  lemma ClearOf(s: State, v: View, a: nat)
    requires Good(s, v) && a in v.sizes
    ensures a + v.sizes[a] <= s.ebda || s.ebda + s.ebdaKb * KB <= a
  {
    hide Inv;
    OneZone(s, v, a);
    var z :| 0 <= z < |s.zones| && s.zones[z].cur <= a && a + v.sizes[a] <= s.zones[z].top;
    CurBelowTop(s, v, z);
    CurBelowTop(s, v, LOW);
  }

  // ---- Nothing is lost ----

  ghost predicate AllFree(s: State) { forall z :: 0 <= z < |s.zones| ==> s.zones[z].cur == s.zones[z].top }

  lemma EmptyMeansFree(s: State, v: View)
    requires Good(s, v) && s.allocs == []
    ensures AllFree(s)
  {
    assert forall a :: a in v.saved ==> Owns(s.allocs, a);
    forall z | 0 <= z < |s.zones| ensures s.zones[z].cur == s.zones[z].top {
      Alone(s.zones[z], v.paths[z], v.saved);
    }
  }

  lemma Alone(z: Zone, p: seq<nat>, saved: map<nat, nat>)
    requires Path(z, p, saved) && p[0] !in saved
    ensures z.cur == z.top
  {
    if |p| > 1 { FirstSaved(p, saved); }
  }

  lemma FirstSaved(p: seq<nat>, saved: map<nat, nat>)
    requires |p| > 1 && Chained(p, saved)
    ensures p[0] in saved
  {
    assert Linked(p, saved, 0);
  }

  /** Whenever every block has been freed, in whatever order, every zone is back to its top. */
  lemma AllReturned(s: State, v: View, ops: seq<Op>)
    requires |s.zones| == NZONES && AllAsked(ops) && Good(s, v) && LegalRun(s, ops) && Run(s, ops).allocs == []
    ensures AllFree(Run(s, ops))
  {
    var v' := RunKeeps(s, v, ops);
    EmptyMeansFree(Run(s, ops), v');
  }

  function FreeEach(s: State, order: seq<nat>): State
    decreases |order|
  {
    if order == [] then s else FreeEach(Free(s, order[0]), order[1..])
  }

  /** One pmm_free call for each live block, in any order, always gets there. */
  lemma {:induction false} FreeInAnyOrder(s: State, v: View, order: seq<nat>)
    requires Good(s, v) && forall i :: 0 <= i < |s.allocs| ==> s.allocs[i].data in order
    ensures FreeEach(s, order).allocs == [] && AllFree(FreeEach(s, order))
    decreases |order|
  {
    hide Good, Free, AllFree;
    if order == [] {
      NoneLeft(s.allocs, order, 0);
      EmptyMeansFree(s, v);
    } else {
      var v' := FreeKeeps(s, v, order[0]);
      OthersStay(s, v, order);
      FreeInAnyOrder(Free(s, order[0]), v', order[1..]);
    }
  }

  lemma NoneLeft(allocs: seq<Info>, order: seq<nat>, i: nat)
    requires order == [] && (i < |allocs| ==> allocs[i].data in order)
    ensures |allocs| <= i
  {
  }

  lemma OthersStay(s: State, v: View, order: seq<nat>)
    requires Good(s, v) && order != [] && forall i :: 0 <= i < |s.allocs| ==> s.allocs[i].data in order
    ensures var s' := Free(s, order[0]); forall j :: 0 <= j < |s'.allocs| ==> s'.allocs[j].data in order[1..]
  {
    hide Inv, Layout, FreeAt;
    match Lookup(s.allocs, order[0])
    case None =>
    case Some(i) =>
      FreeAtSame(s, i);
      DistinctData(s, v);
      var rest := Without(s.allocs, i);
      forall j | 0 <= j < |rest| ensures rest[j].data in order[1..] {
        assert rest[j] == s.allocs[if j < i then j else j + 1];
      }
  }

  lemma DistinctData(s: State, v: View)
    requires Good(s, v)
    ensures forall i, j :: 0 <= i < j < |s.allocs| ==> s.allocs[i].data != s.allocs[j].data
  {
  }
}
