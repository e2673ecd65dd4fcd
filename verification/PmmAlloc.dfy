/** pmm_malloc: where a block is placed, how ZoneLow grows over the EBDA, and what a failed request leaves. */
module PmmAlloc {
  import opened Words
  import opened Pmm
  import opened PmmChain
  import opened PmmProofs

  /** What handle_pmm00 lets through: a positive s32 size, and an alignment taken from one of its bits. */
  predicate Request(size: nat, align: nat) {
    0 < size < 0x8000_0000 && 0 < align <= 0x4000_0000
  }

  // ---- zone_malloc ----

  /** An aligned block of `size` bytes at `p` in the free part of the zone. */
  predicate Fits(z: Zone, size: nat, align: nat, p: nat)
    requires align > 0
  {
    z.bottom <= p && p + size <= z.cur && p % align == 0
  }

  lemma AlignDownIs(x: nat, align: nat)
    requires align > 0
    ensures AlignDown(x, align) <= x < AlignDown(x, align) + align && AlignDown(x, align) % align == 0
  {
    var q := x / align;
    assert AlignDown(x, align) == q * align;
    MultipleOf(q, align);
  }

  lemma MultipleOf(q: nat, align: nat)
    requires align > 0
    ensures q * align % align == 0
  {
    assert q * align == 0 + align * q;
    ModUnique(q * align, q, 0, align);
  }

  lemma ModUnique(x: int, q: int, r: nat, m: nat)
    requires 0 <= r < m && x == m * q + r
    ensures x % m == r && x / m == q
  {
    var k := x / m;
    assert x == m * k + x % m;
    if k < q { MulOrder(k, q, m); } else if q < k { MulOrder(q, k, m); }
  }

  lemma MulOrder(a: int, b: int, m: nat)
    requires a < b
    ensures m * a + m <= m * b
  {
    assert m * (b - a - 1) >= 0;
    assert m * b == m * a + m + m * (b - a - 1);
  }

  lemma AlignDownMost(x: nat, align: nat, p: nat)
    requires align > 0 && p <= x && p % align == 0
    ensures p <= AlignDown(x, align)
  {
    var q, k := x / align, p / align;
    assert x == align * q + x % align && p == align * k;
    if k > q { MulOrder(q, k, align); }
    else if k < q { MulOrder(k, q, align); }
  }

  /** The subtraction does not wrap for a request that fits, and a wrapped position is above the current one. */
  lemma NoWrap(z: Zone, size: nat, align: nat)
    requires z.cur < U32 && Request(size, align)
    ensures if size <= z.cur then Position(z, size, align) == AlignDown(z.cur - size, align) else Position(z, size, align) > z.cur
  {
    if size <= z.cur {
      assert Wrap(z.cur - size) == z.cur - size;
    } else {
      assert Wrap(z.cur - size) == z.cur - size + U32;
      AlignDownIs(z.cur - size + U32, align);
    }
  }

  /** zone_malloc takes the highest aligned place that fits, and fails only if none does. */
  lemma HighestFit(z: Zone, size: nat, align: nat)
    requires z.cur < U32 && Request(size, align)
    ensures HasSpace(z, size, align) ==> Fits(z, size, align, Position(z, size, align))
    ensures forall p: nat :: Fits(z, size, align, p) ==> HasSpace(z, size, align) && p <= Position(z, size, align)
  {
    NoWrap(z, size, align);
    if size <= z.cur {
      AlignDownIs(z.cur - size, align);
      forall p: nat | Fits(z, size, align, p) ensures p <= Position(z, size, align) {
        AlignDownMost(z.cur - size, align, p);
      }
    }
  }

  /** A block taken from a zone becomes the first of its chain. */
  lemma TakeInv(s: State, v: View, extra: map<nat, nat>, z: nat, size: nat, align: nat) returns (v': View)
    requires |s.zones| == NZONES == |v.paths| && Inv(s, v, extra) && z < NZONES && Request(size, align) && HasSpace(s.zones[z], size, align)
    ensures var pos := Position(s.zones[z], size, align);
      && pos !in v.saved && pos > 0
      && Fits(s.zones[z], size, align, pos)
      && v' == Pushed(v, z, pos, s.zones[z].cur, size)
      && Inv(Take(s, z, pos), v', extra[pos := s.zones[z].cur])
  {
    hide Paths, Tracks, AllBelow, HasSpace, Position;
    var pos, cur := Position(s.zones[z], size, align), s.zones[z].cur;
    TakeFits(s.zones, v, z, size, align);
    PushPaths(s.zones, v, z, pos, size);
    TakeTracks(s.allocs, extra, v.saved, pos, cur);
    SameRanges(s.zones, s.zones[z := s.zones[z].(cur := pos)], s.allocs);
    v' := Pushed(v, z, pos, cur, size);
  }

  lemma TakeFits(zones: seq<Zone>, v: View, z: nat, size: nat, align: nat)
    requires Paths(zones, v) && z < NZONES && Request(size, align) && HasSpace(zones[z], size, align)
    ensures var pos := Position(zones[z], size, align); pos > 0 && Fits(zones[z], size, align, pos)
  {
    PathInside(zones[z], v.paths[z], v.saved, 0);
    HighestFit(zones[z], size, align);
  }

  lemma TakeTracks(allocs: seq<Info>, extra: map<nat, nat>, saved: map<nat, nat>, pos: nat, cur: nat)
    requires Tracks(allocs, extra, saved) && pos !in saved
    ensures Tracks(allocs, extra[pos := cur], saved[pos := cur])
  {
    assert !Owns(allocs, pos);
  }

  // ---- ZoneLow and the EBDA ----

  /** The EBDA lies above the temporary low zone and ends where ZoneLow begins. */
  predicate EbdaClear(s: State)
    requires |s.zones| == NZONES
  {
    && BUILD_EBDA_MINIMUM <= s.ebda && s.ebda + s.ebdaKb * KB == s.zones[LOW].bottom
  }

  /** The other zones leave the room between the lowest EBDA position and the top of ZoneLow alone. */
  ghost predicate Layout(s: State) {
    && |s.zones| == NZONES
    && EbdaClear(s) && s.ebdaKb < 256 && s.zones[LOW].top <= BUILD_LOWRAM_END
    && forall z :: 0 <= z < NZONES && z != LOW ==>
         s.zones[z].top <= BUILD_EBDA_MINIMUM || s.zones[LOW].top <= s.zones[z].bottom
  }

  /** What the caller of a ZoneLow request has to check: neither subtraction of zonelow_expand wraps when the EBDA moves. */
  predicate LowOk(s: State, size: nat, align: nat)
    requires |s.zones| == NZONES && align > 0
  {
    Relocates(s, size, align) ==> size <= s.zones[LOW].cur && s.ebdaKb * KB <= NewBottom(s, size, align)
  }

  /** Moving the EBDA keeps it clear of ZoneLow exactly when no subtraction wraps. */
  lemma ExpandExact(s: State, size: nat, align: nat)
    requires Layout(s) && Request(size, align) && s.zones[LOW].bottom <= s.zones[LOW].cur <= s.zones[LOW].top
    ensures EbdaClear(Expand(s, size, align)) <==> LowOk(s, size, align)
  {
    if Relocates(s, size, align) {
      MovedTo(s, size, align);
    }
  }

  lemma SegmentIs(x: nat)
    requires x % KB == 0
    ensures x / 16 % 0x1_0000 * 16 == x % 0x10_0000 && x / KB * KB == x
  {
    var q := x / KB;
    assert x == 1024 * q && x / 16 == 64 * q;
    SegmentOf(q);
  }

  lemma SegmentOf(q: nat)
    ensures 64 * q % 0x1_0000 * 16 == 1024 * q % 0x10_0000
  {
    var a, b := q / 1024, q % 1024;
    assert 64 * q == 0x1_0000 * a + 64 * b && 1024 * q == 0x10_0000 * a + 1024 * b;
  }

  lemma KbMultiple(b: nat, kb: nat)
    requires b % KB == 0
    ensures AlignDown(Wrap(b - kb * KB), KB) == Wrap(b - kb * KB) && Wrap(b - kb * KB) % KB == 0
  {
    var d, q := b - kb * KB, b / KB - kb;
    assert b == 1024 * (b / KB) && d == 1024 * q;
    var t := d / U32;
    assert Wrap(d) == d - U32 * t == 1024 * (q - 0x40_0000 * t);
  }

  /** The EBDA at `seg`:0 ends at `bottom` exactly if the position did not wrap and fits a segment. */
  lemma EndsAt(bottom: nat, kb: nat)
    requires bottom % KB == 0 && kb < 256 && bottom < U32 && !(0xa_0000 < bottom < 0x20_0000)
    ensures var ebda := Wrap(bottom - kb * KB);
      && (ebda / 16 % 0x1_0000 * 16 + kb * KB == bottom <==> kb * KB <= bottom <= 0xa_0000)
      && (kb * KB <= bottom <= 0xa_0000 ==> ebda == bottom - kb * KB && ebda / 16 % 0x1_0000 * 16 == ebda == ebda / KB % 0x1_0000 * KB)
  {
    var ebda := Wrap(bottom - kb * KB);
    KbMultiple(bottom, kb);
    SegmentIs(ebda);
    WrapIs(bottom, kb * KB);
    hide Wrap;
    if kb * KB <= bottom <= 0xa_0000 { SmallMod(ebda, 0x10_0000); SmallMod(ebda / KB, 0x1_0000); }
    else if bottom < kb * KB { ModUnique(ebda, 0xfff, ebda - 0xfff0_0000, 0x10_0000); }
  }

  lemma SmallMod(x: nat, m: nat)
    requires x < m
    ensures x % m == x
  {
  }

  lemma WrapIs(a: nat, b: nat)
    requires a < U32 && b < U32
    ensures Wrap(a - b) == if b <= a then a - b else U32 + a - b
  {
  }

  /** The bottom of ZoneLow that zonelow_expand computes, when there was no space. */
  lemma BottomIs(s: State, size: nat, align: nat)
    requires Layout(s) && Request(size, align) && s.zones[LOW].bottom <= s.zones[LOW].cur <= s.zones[LOW].top
    requires !HasSpace(s.zones[LOW], size, align)
    ensures LowBase(s) == s.zones[LOW].cur
    ensures var low, bottom := s.zones[LOW], NewBottom(s, size, align);
      && bottom % KB == 0 && bottom < U32
      && (if size <= low.cur then bottom <= Position(low, size, align) < low.bottom else bottom >= 0x20_0000)
  {
    var low := s.zones[LOW];
    var pos := Position(low, size, align);
    assert LowBase(s) == low.cur;
    assert NewBottom(s, size, align) == AlignDown(pos, KB);
    NoWrap(low, size, align);
    AlignDownIs(pos, KB);
    if size <= low.cur { AlignDownIs(low.cur - size, align); } else { Wrapped(low.cur, size, align); }
  }

  lemma Wrapped(cur: nat, size: nat, align: nat)
    requires Request(size, align) && cur < size
    ensures 0x20_0400 <= AlignDown(Wrap(cur - size), align) < U32
  {
    WrapIs(cur, size);
    AlignDownIs(Wrap(cur - size), align);
  }

  lemma MovedTo(s: State, size: nat, align: nat)
    requires Layout(s) && Request(size, align) && s.zones[LOW].bottom <= s.zones[LOW].cur <= s.zones[LOW].top
    requires Relocates(s, size, align)
    ensures EbdaClear(Expand(s, size, align)) <==> size <= s.zones[LOW].cur && s.ebdaKb * KB <= NewBottom(s, size, align)
    ensures LowOk(s, size, align) ==> LowBase(s) == s.zones[LOW].cur && NewBottom(s, size, align) < s.zones[LOW].bottom
    ensures LowOk(s, size, align) ==> BUILD_EBDA_MINIMUM <= NewBottom(s, size, align) <= Position(s.zones[LOW], size, align)
    ensures LowOk(s, size, align) ==> Expand(s, size, align).ebda == Expand(s, size, align).memKb * KB
  {
    hide NewBottom, Position, HasSpace, Wrap, AlignDown, LowBase;
    var bottom := NewBottom(s, size, align);
    BottomIs(s, size, align);
    KbMultiple(bottom, s.ebdaKb);
    EndsAt(bottom, s.ebdaKb);
  }

  lemma LowerPaths(zones: seq<Zone>, v: View, bottom: nat)
    requires Paths(zones, v) && BUILD_EBDA_MINIMUM <= bottom <= zones[LOW].bottom
    requires forall z :: 0 <= z < NZONES && z != LOW ==> zones[z].top <= BUILD_EBDA_MINIMUM || zones[LOW].top <= zones[z].bottom
    ensures Paths(zones[LOW := zones[LOW].(bottom := bottom)], v)
  {
    var zones' := zones[LOW := zones[LOW].(bottom := bottom)];
    forall z | 0 <= z < NZONES ensures Path(zones'[z], v.paths[z], v.saved) { assert Path(zones[z], v.paths[z], v.saved); }
  }

  lemma LowerBelow(zones: seq<Zone>, zones': seq<Zone>, v: View, allocs: seq<Info>)
    requires Paths(zones, v) && Paths(zones', v) && Recorded(allocs, v.saved) && AllBelow(zones, allocs)
    requires Lowered(zones, zones')
    ensures AllBelow(zones', allocs)
  {
    hide Paths, BelowRecord;
    forall i | 0 <= i < |allocs| ensures BelowRecord(zones', allocs[i]) { LowerRecord(zones, zones', v, allocs[i]); }
  }

  ghost predicate Lowered(zones: seq<Zone>, zones': seq<Zone>) {
    && |zones| == |zones'| == NZONES
    && forall y :: 0 <= y < NZONES ==> zones'[y].bottom <= zones[y].bottom && zones'[y].top == zones[y].top
  }

  lemma LowerRecord(zones: seq<Zone>, zones': seq<Zone>, v: View, info: Info)
    requires Paths(zones, v) && Paths(zones', v) && Lowered(zones, zones') && info.at in v.saved && info.data in v.saved
    requires BelowRecord(zones, info)
    ensures BelowRecord(zones', info)
  {
    hide Paths;
    forall z | 0 <= z < NZONES && Inside(zones'[z], info.at) && Inside(zones'[z], info.data) ensures info.data < info.at {
      StaysInside(zones, zones', v, info.at, z);
      StaysInside(zones, zones', v, info.data, z);
    }
  }

  /** A zone that grows downwards reaches no block of another zone. */
  lemma StaysInside(zones: seq<Zone>, zones': seq<Zone>, v: View, a: nat, z: nat)
    requires Paths(zones, v) && Paths(zones', v) && Lowered(zones, zones') && a in v.saved && z < NZONES && Inside(zones'[z], a)
    ensures Inside(zones[z], a)
  {
    var y, k := Seat(zones, v, a);
  }

  /** zonelow_expand keeps every chain and the memory map around the EBDA. */
  lemma ExpandInv(s: State, v: View, extra: map<nat, nat>, size: nat, align: nat)
    requires Inv(s, v, extra) && Layout(s) && Request(size, align) && LowOk(s, size, align)
    ensures Inv(Expand(s, size, align), v, extra) && Layout(Expand(s, size, align))
    ensures forall z :: 0 <= z < NZONES ==> Expand(s, size, align).zones[z].cur == s.zones[z].cur
    ensures forall z :: 0 <= z < NZONES && z != LOW ==> Expand(s, size, align).zones[z] == s.zones[z]
  {
    if Relocates(s, size, align) {
      LowRange(s.zones, v);
      MovedTo(s, size, align);
      var bottom := NewBottom(s, size, align);
      LowerPaths(s.zones, v, bottom);
      LowerBelow(s.zones, s.zones[LOW := s.zones[LOW].(bottom := bottom)], v, s.allocs);
      hide Relocates, NewBottom, NewEbda, LowBase, Paths, Tracks, AllBelow;
      assert Expand(s, size, align).zones == s.zones[LOW := s.zones[LOW].(bottom := bottom)];
    }
  }

  lemma LowRange(zones: seq<Zone>, v: View)
    requires Paths(zones, v)
    ensures zones[LOW].bottom <= zones[LOW].cur <= zones[LOW].top
  {
    PathInside(zones[LOW], v.paths[LOW], v.saved, 0);
  }

  /** Once the EBDA has moved, the request has its place. */
  lemma ExpandProvides(s: State, v: View, extra: map<nat, nat>, size: nat, align: nat)
    requires Inv(s, v, extra) && Layout(s) && Request(size, align) && LowOk(s, size, align) && Relocates(s, size, align)
    ensures HasSpace(Expand(s, size, align).zones[LOW], size, align)
  {
    hide Paths, Tracks, AllBelow, Wrap, AlignDown, NewBottom, LowBase, NewEbda;
    LowRange(s.zones, v);
    MovedTo(s, size, align);
    NoWrap(s.zones[LOW], size, align);
    AlignDownIs(s.zones[LOW].cur - size, align);
  }
}
