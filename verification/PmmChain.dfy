/**
 The chains of saved positions. In every zone the live blocks, data and tracking records
 alike, form one chain: the current position is the lowest block, each block's saved position
 is the next block up, and the last one saved the top of the zone.
 */
module PmmChain {
  import opened Words
  import opened Pmm

  /** Witnesses: the saved position of every live block, the blocks of each zone in order, and the requested sizes. */
  datatype View = View(saved: map<nat, nat>, paths: seq<seq<nat>>, sizes: map<nat, nat>)

  ghost predicate Path(z: Zone, p: seq<nat>, saved: map<nat, nat>) {
    && |p| > 0 && p[0] == z.cur && p[|p| - 1] == z.top && z.bottom <= z.cur && z.top < U32
    && (z.bottom > 0 || z.top == 0)
    && Rising(p) && Chained(p, saved)
  }

  ghost predicate Rising(p: seq<nat>) {
    forall i, j :: 0 <= i < j < |p| ==> p[i] < p[j]
  }

  ghost predicate Chained(p: seq<nat>, saved: map<nat, nat>) {
    forall i :: 0 <= i < |p| - 1 ==> Linked(p, saved, i)
  }

  ghost predicate Linked(p: seq<nat>, saved: map<nat, nat>, i: nat)
    requires i + 1 < |p|
  {
    p[i] in saved && saved[p[i]] == p[i + 1]
  }

  ghost predicate Disjoint(zones: seq<Zone>) {
    forall y, z :: 0 <= y < |zones| && 0 <= z < |zones| && y != z ==>
      zones[y].top <= zones[z].bottom || zones[z].top <= zones[y].bottom
  }

  predicate Inside(z: Zone, a: nat) { z.bottom <= a < z.top }

  ghost predicate Paths(zones: seq<Zone>, v: View) {
    && |zones| == NZONES == |v.paths|
    && Disjoint(zones)
    && AllPaths(zones, v)
    && KeysOnPaths(v)
    && SizesFit(v)
  }

  ghost predicate AllPaths(zones: seq<Zone>, v: View)
    requires |zones| == NZONES == |v.paths|
  {
    forall z :: 0 <= z < NZONES ==> Path(zones[z], v.paths[z], v.saved)
  }

  ghost predicate KeysOnPaths(v: View) {
    forall a :: a in v.saved ==> OnPath(v.paths, a)
  }

  ghost predicate SizesFit(v: View) {
    v.sizes.Keys == v.saved.Keys && forall a :: a in v.saved ==> a + v.sizes[a] <= v.saved[a]
  }

  ghost predicate OnPath(paths: seq<seq<nat>>, a: nat) {
    exists z, k :: 0 <= z < |paths| && 0 <= k < |paths[z]| - 1 && paths[z][k] == a
  }

  /** The block at position `k` of zone `z`. */
  ghost predicate Sits(v: View, z: nat, k: nat, a: nat) {
    z < |v.paths| && k + 1 < |v.paths[z]| && v.paths[z][k] == a
  }

  lemma PathInside(z: Zone, p: seq<nat>, saved: map<nat, nat>, k: nat)
    requires Path(z, p, saved) && k < |p|
    ensures z.bottom <= p[k] <= z.top && (k + 1 < |p| ==> p[k] < z.top) && (k > 0 ==> z.bottom < p[k])
  {
    if k > 0 { assert p[0] < p[k]; }
    if k + 1 < |p| { assert p[k] < p[|p| - 1]; }
  }

  /** Only the zone that a block sits in has it in its used part. */
  lemma FindsZone(zones: seq<Zone>, v: View, z: nat, k: nat, a: nat)
    requires Paths(zones, v) && Sits(v, z, k, a)
    ensures ZoneFind(zones, a) == z && a != 0 && (IsLast(zones, a) <==> k == 0)
  {
    PathInside(zones[z], v.paths[z], v.saved, k);
    assert v.paths[z][0] <= a;
    forall y | 0 <= y < NZONES && y != z ensures !(zones[y].cur <= a < zones[y].top) {
      assert Path(zones[y], v.paths[y], v.saved);
    }
    FindIs(zones, a, z, 0);
    if k > 0 { assert v.paths[z][0] < v.paths[z][k]; }
  }

  lemma {:induction false} FindIs(zones: seq<Zone>, a: nat, z: nat, i: nat)
    requires i <= z < |zones| && zones[z].cur <= a < zones[z].top
    requires forall y :: i <= y < |zones| && y != z ==> !(zones[y].cur <= a < zones[y].top)
    ensures ZoneFind(zones, a, i) == z
    decreases z - i
  {
    if i < z { FindIs(zones, a, z, i + 1); }
  }

  lemma InOrder(p: seq<nat>, i: nat, k: nat)
    requires i + 1 < |p| && k < |p| && p[i] < p[k]
    requires Rising(p)
    ensures p[i + 1] <= p[k]
  {
  }

  lemma Seat(zones: seq<Zone>, v: View, a: nat) returns (z: nat, k: nat)
    requires Paths(zones, v) && a in v.saved
    ensures z < NZONES && Sits(v, z, k, a) && Inside(zones[z], a) && zones[z].cur <= a && v.saved[a] == v.paths[z][k + 1]
  {
    hide SizesFit, Disjoint;
    var y, i :| 0 <= y < |v.paths| && 0 <= i < |v.paths[y]| - 1 && v.paths[y][i] == a;
    z, k := y, i;
    PathInside(zones[z], v.paths[z], v.saved, k);
    assert Linked(v.paths[z], v.saved, k);
    if k > 0 { assert v.paths[z][0] < v.paths[z][k]; }
  }

  /** No two live blocks overlap, in whatever zones they are. */
  lemma BlocksDisjoint(zones: seq<Zone>, v: View, a: nat, b: nat)
    requires Paths(zones, v) && a in v.saved && b in v.saved && a < b
    ensures a + v.sizes[a] <= b
  {
    var y, i := Seat(zones, v, a);
    var z, k := Seat(zones, v, b);
    SavedBelow(zones[y], v.paths[y], v.saved, i);
    if y == z { InOrder(v.paths[y], i, k); }
  }

  lemma SavedBelow(z: Zone, p: seq<nat>, saved: map<nat, nat>, i: nat)
    requires Path(z, p, saved) && i + 1 < |p|
    ensures p[i] in saved && saved[p[i]] == p[i + 1] <= z.top
  {
    assert Linked(p, saved, i);
    PathInside(z, p, saved, i + 1);
  }

  // ---- Taking a block ----

  ghost function Pushed(v: View, z: nat, pos: nat, cur: nat, size: nat): View
    requires z < |v.paths|
  {
    View(v.saved[pos := cur], v.paths[z := [pos] + v.paths[z]], v.sizes[pos := size])
  }

  lemma PushPaths(zones: seq<Zone>, v: View, z: nat, pos: nat, size: nat)
    requires Paths(zones, v) && z < NZONES && zones[z].bottom <= pos && size > 0 && pos + size <= zones[z].cur
    ensures pos !in v.saved
    ensures Paths(zones[z := zones[z].(cur := pos)], Pushed(v, z, pos, zones[z].cur, size))
  {
    NotYet(zones, v, z, pos);
    PushAll(zones, v, z, pos, size);
    PushKeys(zones, v, z, pos, size);
    PushSizes(v, z, pos, zones[z].cur, size);
  }

  lemma PushAll(zones: seq<Zone>, v: View, z: nat, pos: nat, size: nat)
    requires Paths(zones, v) && z < NZONES && zones[z].bottom <= pos < zones[z].cur && pos !in v.saved
    ensures AllPaths(zones[z := zones[z].(cur := pos)], Pushed(v, z, pos, zones[z].cur, size))
  {
    var zones', v' := zones[z := zones[z].(cur := pos)], Pushed(v, z, pos, zones[z].cur, size);
    forall y | 0 <= y < NZONES ensures Path(zones'[y], v'.paths[y], v'.saved) { PushPath(zones, v, z, pos, size, y); }
  }

  lemma PushKeys(zones: seq<Zone>, v: View, z: nat, pos: nat, size: nat)
    requires Paths(zones, v) && z < NZONES
    ensures KeysOnPaths(Pushed(v, z, pos, zones[z].cur, size))
  {
    var v' := Pushed(v, z, pos, zones[z].cur, size);
    forall a | a in v'.saved ensures OnPath(v'.paths, a) { PushKey(zones, v, z, pos, size, a); }
  }

  lemma PushSizes(v: View, z: nat, pos: nat, cur: nat, size: nat)
    requires SizesFit(v) && z < |v.paths| && pos + size <= cur
    ensures SizesFit(Pushed(v, z, pos, cur, size))
  {
  }

  lemma NotYet(zones: seq<Zone>, v: View, z: nat, pos: nat)
    requires Paths(zones, v) && z < NZONES && zones[z].bottom <= pos < zones[z].cur
    ensures pos !in v.saved
  {
    PathInside(zones[z], v.paths[z], v.saved, 0);
    if pos in v.saved { var y, k := Seat(zones, v, pos); }
  }

  lemma PushPath(zones: seq<Zone>, v: View, z: nat, pos: nat, size: nat, y: nat)
    requires Paths(zones, v) && z < NZONES && zones[z].bottom <= pos < zones[z].cur && pos !in v.saved && y < NZONES
    ensures var v' := Pushed(v, z, pos, zones[z].cur, size);
      Path(if y == z then zones[z].(cur := pos) else zones[y], v'.paths[y], v'.saved)
  {
    assert Path(zones[y], v.paths[y], v.saved);
    if y == z { PathPushed(zones[z], v.paths[z], v.saved, pos); }
    else { PathKept(zones[y], v.paths[y], v.saved, v.saved[pos := zones[z].cur]); }
  }

  lemma PushKey(zones: seq<Zone>, v: View, z: nat, pos: nat, size: nat, a: nat)
    requires Paths(zones, v) && z < NZONES && (a == pos || a in v.saved)
    ensures OnPath(Pushed(v, z, pos, zones[z].cur, size).paths, a)
  {
    var paths' := Pushed(v, z, pos, zones[z].cur, size).paths;
    PathInside(zones[z], v.paths[z], v.saved, 0);
    if a == pos {
      assert paths'[z][0] == pos;
    } else {
      var y, k := Seat(zones, v, a);
      assert paths'[y][if y == z then k + 1 else k] == a;
    }
  }

  lemma PathPushed(z: Zone, p: seq<nat>, saved: map<nat, nat>, pos: nat)
    requires Path(z, p, saved) && z.bottom <= pos < z.cur
    ensures Path(z.(cur := pos), [pos] + p, saved[pos := z.cur])
  {
    var q, saved' := [pos] + p, saved[pos := z.cur];
    assert forall k :: 0 <= k < |p| ==> p[k] >= z.cur;
    forall i | 0 <= i < |q| - 1 ensures Linked(q, saved', i) {
      assert q[i + 1] == p[i];
      if i > 0 { assert q[i] == p[i - 1] && Linked(p, saved, i - 1); }
    }
    assert q[|q| - 1] == p[|p| - 1];
  }

  lemma PathKept(z: Zone, p: seq<nat>, saved: map<nat, nat>, saved': map<nat, nat>)
    requires Path(z, p, saved)
    requires forall i :: 0 <= i < |p| - 1 && p[i] in saved ==> p[i] in saved' && saved'[p[i]] == saved[p[i]]
    ensures Path(z, p, saved')
  {
    forall i | 0 <= i < |p| - 1 ensures Linked(p, saved', i) { assert Linked(p, saved, i); }
  }

  // ---- Dropping a block ----

  ghost function Unlinked(p: seq<nat>, k: nat): seq<nat>
    requires k < |p|
  {
    p[..k] + p[k + 1..]
  }

  /** The saved positions once the block at (z, k) is gone: its predecessor saves what it had saved. */
  ghost function SavedWithout(v: View, z: nat, k: nat): map<nat, nat>
    requires z < |v.paths| && k + 1 < |v.paths[z]|
  {
    var p := v.paths[z];
    if k == 0 then v.saved - {p[0]} else (v.saved - {p[k]})[p[k - 1] := p[k + 1]]
  }

  ghost function Dropped(v: View, z: nat, k: nat): View
    requires z < |v.paths| && k + 1 < |v.paths[z]|
  {
    View(SavedWithout(v, z, k), v.paths[z := Unlinked(v.paths[z], k)], v.sizes - {v.paths[z][k]})
  }

  ghost function ZonesWithout(zones: seq<Zone>, v: View, z: nat, k: nat): seq<Zone>
    requires z < |zones| && z < |v.paths| && k + 1 < |v.paths[z]|
  {
    if k == 0 then zones[z := zones[z].(cur := v.paths[z][1])] else zones
  }

  lemma DropPaths(zones: seq<Zone>, v: View, z: nat, k: nat)
    requires Paths(zones, v) && z < NZONES && k + 1 < |v.paths[z]|
    ensures Paths(ZonesWithout(zones, v, z, k), Dropped(v, z, k))
  {
    DropAll(zones, v, z, k);
    DropRest(zones, v, z, k);
  }

  lemma DropAll(zones: seq<Zone>, v: View, z: nat, k: nat)
    requires Paths(zones, v) && z < NZONES && k + 1 < |v.paths[z]|
    ensures AllPaths(ZonesWithout(zones, v, z, k), Dropped(v, z, k))
  {
    var zones', v' := ZonesWithout(zones, v, z, k), Dropped(v, z, k);
    forall y | 0 <= y < NZONES ensures Path(zones'[y], v'.paths[y], v'.saved) {
      if y == z { PathDropped(zones[z], v, z, k); } else { OtherPath(zones, v, z, k, y); }
    }
  }

  lemma DropRest(zones: seq<Zone>, v: View, z: nat, k: nat)
    requires Paths(zones, v) && z < NZONES && k + 1 < |v.paths[z]|
    ensures KeysOnPaths(Dropped(v, z, k)) && SizesFit(Dropped(v, z, k))
  {
    var v' := Dropped(v, z, k);
    DropKeys(zones, v, z, k);
    forall a | a in v'.saved ensures OnPath(v'.paths, a) && a + v'.sizes[a] <= v'.saved[a] {
      DropKey(zones, v, z, k, a);
    }
  }

  lemma DropKeys(zones: seq<Zone>, v: View, z: nat, k: nat)
    requires Paths(zones, v) && z < NZONES && k + 1 < |v.paths[z]|
    ensures Dropped(v, z, k).sizes.Keys == Dropped(v, z, k).saved.Keys
  {
    assert Path(zones[z], v.paths[z], v.saved);
    if k > 0 { SavedBelow(zones[z], v.paths[z], v.saved, k - 1); assert v.paths[z][k - 1] < v.paths[z][k]; }
  }

  lemma PathDropped(zone: Zone, v: View, z: nat, k: nat)
    requires z < |v.paths| && Path(zone, v.paths[z], v.saved) && k + 1 < |v.paths[z]|
    ensures Path(if k == 0 then zone.(cur := v.paths[z][1]) else zone, Unlinked(v.paths[z], k), SavedWithout(v, z, k))
  {
    var p, q, saved' := v.paths[z], Unlinked(v.paths[z], k), SavedWithout(v, z, k);
    UnlinkedAt(p, k);
    assert p[k] < p[k + 1] && (k > 0 ==> p[k - 1] < p[k]);
    forall i | 0 <= i < |q| - 1 ensures Linked(q, saved', i) {
      var i' := if i < k then i else i + 1;
      assert q[i] == p[i'] && Linked(p, v.saved, i');
      assert q[i + 1] == p[if i + 1 < k then i + 1 else i + 2];
      assert p[i'] != p[k] && (k > 0 && i' != k - 1 ==> p[i'] != p[k - 1]);
    }
    PathInside(zone, p, v.saved, 1);
  }

  lemma UnlinkedAt(p: seq<nat>, k: nat)
    requires k + 1 < |p| && Rising(p)
    ensures var q := Unlinked(p, k);
      && |q| == |p| - 1 && (forall i :: 0 <= i < |q| ==> q[i] == p[if i < k then i else i + 1])
      && Rising(q) && q[|q| - 1] == p[|p| - 1] && q[0] == if k == 0 then p[1] else p[0]
  {
  }

  lemma OtherPath(zones: seq<Zone>, v: View, z: nat, k: nat, y: nat)
    requires Paths(zones, v) && z < NZONES && k + 1 < |v.paths[z]| && y < NZONES && y != z
    ensures Path(zones[y], v.paths[y], SavedWithout(v, z, k))
  {
    var p, q := v.paths[z], v.paths[y];
    assert Path(zones[y], q, v.saved) && Path(zones[z], p, v.saved);
    PathInside(zones[z], p, v.saved, k);
    if k > 0 { PathInside(zones[z], p, v.saved, k - 1); }
    forall i | 0 <= i < |q| - 1 ensures q[i] != p[k] && (k > 0 ==> q[i] != p[k - 1]) {
      PathInside(zones[y], q, v.saved, i);
    }
    PathKept(zones[y], q, v.saved, SavedWithout(v, z, k));
  }

  lemma DropKey(zones: seq<Zone>, v: View, z: nat, k: nat, a: nat)
    requires Paths(zones, v) && z < NZONES && k + 1 < |v.paths[z]| && a in SavedWithout(v, z, k)
    ensures OnPath(Dropped(v, z, k).paths, a) && a in v.sizes && a != v.paths[z][k]
    ensures a + v.sizes[a] <= SavedWithout(v, z, k)[a]
  {
    hide Paths, OnPath, Dropped, Path;
    PathAt(zones, v, z);
    var p := v.paths[z];
    SavedBelow(zones[z], p, v.saved, k);
    InStep(zones[z], p, v.saved, k);
    if k > 0 { SavedBelow(zones[z], p, v.saved, k - 1); }
    SizeAt(zones, v, a);
    var y, i := Seat(zones, v, a);
    StillOnPath(v, z, k, y, i);
  }

  lemma PathAt(zones: seq<Zone>, v: View, z: nat)
    requires Paths(zones, v) && z < NZONES
    ensures |zones| == NZONES == |v.paths| && Path(zones[z], v.paths[z], v.saved)
  {
  }

  lemma InStep(z: Zone, p: seq<nat>, saved: map<nat, nat>, k: nat)
    requires Path(z, p, saved) && k + 1 < |p|
    ensures p[k] < p[k + 1] && (k > 0 ==> p[k - 1] < p[k])
  {
  }

  lemma SizeAt(zones: seq<Zone>, v: View, a: nat)
    requires Paths(zones, v) && a in v.saved
    ensures a in v.sizes && a + v.sizes[a] <= v.saved[a]
  {
    assert a in v.sizes.Keys;
  }

  lemma StillOnPath(v: View, z: nat, k: nat, y: nat, i: nat)
    requires z < |v.paths| && y < |v.paths| && k + 1 < |v.paths[z]| && i + 1 < |v.paths[y]| && !(y == z && i == k)
    ensures OnPath(Dropped(v, z, k).paths, v.paths[y][i])
  {
    var paths' := Dropped(v, z, k).paths;
    var j := if y == z && i > k then i - 1 else i;
    assert paths'[y][j] == v.paths[y][i];
  }

  /** The predecessor has saved the position of the block at (z, k), and no other block has. */
  lemma OnlyPredecessor(zones: seq<Zone>, v: View, z: nat, k: nat, b: nat)
    requires Paths(zones, v) && z < NZONES && k + 1 < |v.paths[z]| && k > 0 && b in v.saved
    ensures v.paths[z][k - 1] in v.saved && (v.saved[b] == v.paths[z][k] <==> b == v.paths[z][k - 1])
  {
    hide Paths, Path;
    PathAt(zones, v, z);
    SavedBelow(zones[z], v.paths[z], v.saved, k - 1);
    if v.saved[b] == v.paths[z][k] { SaverIs(zones, v, z, k, b); }
  }

  lemma SaverIs(zones: seq<Zone>, v: View, z: nat, k: nat, b: nat)
    requires Paths(zones, v) && z < NZONES && k + 1 < |v.paths[z]| && b in v.saved && v.saved[b] == v.paths[z][k] && k > 0
    ensures b == v.paths[z][k - 1]
  {
    assert Path(zones[z], v.paths[z], v.saved);
    PathInside(zones[z], v.paths[z], v.saved, k);
    var y, i := Seat(zones, v, b);
    assert Path(zones[y], v.paths[y], v.saved);
    PathInside(zones[y], v.paths[y], v.saved, i + 1);
    PathInside(zones[y], v.paths[y], v.saved, i);
    if y == z { SameIndex(v.paths[z], i + 1, k); }
  }

  lemma SameIndex(p: seq<nat>, i: nat, k: nat)
    requires i < |p| && k < |p| && p[i] == p[k]
    requires Rising(p)
    ensures i == k
  {
  }
}
