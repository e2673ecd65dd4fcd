/** Any sequence of allocations and frees, in any order, keeps the chains and loses no memory. */
module PmmProofs {
  import opened Words
  import opened Pmm
  import opened PmmChain

  // ---- The records against the chains ----

  ghost predicate Recorded(allocs: seq<Info>, saved: map<nat, nat>) {
    forall i :: 0 <= i < |allocs| ==>
      && allocs[i].data in saved && saved[allocs[i].data] == allocs[i].olddata
      && allocs[i].at in saved && saved[allocs[i].at] == allocs[i].oldalloc
  }

  ghost predicate Distinct(allocs: seq<Info>) {
    && (forall i, j :: 0 <= i < |allocs| && 0 <= j < |allocs| ==> allocs[i].data != allocs[j].at)
    && (forall i, j :: 0 <= i < j < |allocs| ==> allocs[i].data != allocs[j].data && allocs[i].at != allocs[j].at)
  }

  ghost predicate Owns(allocs: seq<Info>, a: nat) {
    exists i :: 0 <= i < |allocs| && (allocs[i].data == a || allocs[i].at == a)
  }

  /** `extra`: blocks in the chains whose record is being made or has just been unlinked. */
  ghost predicate Tracks(allocs: seq<Info>, extra: map<nat, nat>, saved: map<nat, nat>) {
    && Recorded(allocs, saved) && Distinct(allocs)
    && (forall a :: a in extra ==> a in saved && saved[a] == extra[a] && !Owns(allocs, a))
    && (forall a :: a in saved ==> a in extra || Owns(allocs, a))
  }

  /** A block that shares a zone with its own record lies below it. */
  ghost predicate BelowRecord(zones: seq<Zone>, info: Info) {
    forall z :: 0 <= z < |zones| && Inside(zones[z], info.at) && Inside(zones[z], info.data) ==> info.data < info.at
  }

  ghost predicate AllBelow(zones: seq<Zone>, allocs: seq<Info>) {
    forall i :: 0 <= i < |allocs| ==> BelowRecord(zones, allocs[i])
  }

  ghost predicate Inv(s: State, v: View, extra: map<nat, nat>) {
    && Paths(s.zones, v)
    && Tracks(s.allocs, extra, v.saved)
    && AllBelow(s.zones, s.allocs)
  }

  lemma InvExtra(s: State, v: View, extra: map<nat, nat>, a: nat)
    requires Inv(s, v, extra) && a in extra
    ensures |s.zones| == NZONES == |v.paths| && a in v.saved && v.saved[a] == extra[a]
  {
  }

  lemma InvRecord(s: State, v: View, extra: map<nat, nat>, i: nat)
    requires Inv(s, v, extra) && i < |s.allocs|
    ensures var info := s.allocs[i]; info.data != info.at && BelowRecord(s.zones, info)
  {
  }

  // ---- pmm_free_data ----

  lemma {:induction false} PatchData(allocs: seq<Info>, a: nat, o: nat, i: nat)
    requires i < |allocs| && allocs[i].olddata == a
    requires forall j :: 0 <= j < i ==> allocs[j].olddata != a && allocs[j].oldalloc != a
    ensures Patch(allocs, a, o) == allocs[i := allocs[i].(olddata := o)]
  {
    if i > 0 { PatchData(allocs[1..], a, o, i - 1); }
  }

  lemma {:induction false} PatchAlloc(allocs: seq<Info>, a: nat, o: nat, i: nat)
    requires i < |allocs| && allocs[i].oldalloc == a && allocs[i].olddata != a
    requires forall j :: 0 <= j < i ==> allocs[j].olddata != a && allocs[j].oldalloc != a
    ensures Patch(allocs, a, o) == allocs[i := allocs[i].(oldalloc := o)]
  {
    if i > 0 { PatchAlloc(allocs[1..], a, o, i - 1); }
  }

  /** The most recent block of its zone: the current position moves up to the next live block. */
  lemma FreeLast(s: State, v: View, extra: map<nat, nat>, z: nat, a: nat)
    requires Inv(s, v, extra) && z < NZONES && Sits(v, z, 0, a) && a in extra
    ensures Inv(FreeData(s, a, extra[a]), Dropped(v, z, 0), extra - {a})
  {
    hide Paths, Tracks, AllBelow, IsLast, ZoneFree;
    InvExtra(s, v, extra, a);
    LastZones(s.zones, v, z, a);
    DropPaths(s.zones, v, z, 0);
    var zones' := ZonesWithout(s.zones, v, z, 0);
    assert FreeData(s, a, extra[a]) == s.(zones := zones');
    TracksDrop(s.allocs, extra, v.saved, a);
    SameRanges(s.zones, zones', s.allocs);
  }

  lemma LastZones(zones: seq<Zone>, v: View, z: nat, a: nat)
    requires Paths(zones, v) && z < NZONES && Sits(v, z, 0, a)
    ensures a in v.saved && IsLast(zones, a) && ZoneFree(zones, a, v.saved[a]) == ZonesWithout(zones, v, z, 0)
  {
    FindsZone(zones, v, z, 0, a);
    SavedBelow(zones[z], v.paths[z], v.saved, 0);
  }

  lemma SameRanges(zones: seq<Zone>, zones': seq<Zone>, allocs: seq<Info>)
    requires |zones| == |zones'| && AllBelow(zones, allocs)
    requires forall z :: 0 <= z < |zones| ==> zones'[z].bottom == zones[z].bottom && zones'[z].top == zones[z].top
    ensures AllBelow(zones', allocs)
  {
    forall i | 0 <= i < |allocs| ensures BelowRecord(zones', allocs[i]) { assert BelowRecord(zones, allocs[i]); }
  }

  lemma TracksDrop(allocs: seq<Info>, extra: map<nat, nat>, saved: map<nat, nat>, a: nat)
    requires Tracks(allocs, extra, saved) && a in extra
    ensures Tracks(allocs, extra - {a}, saved - {a})
  {
    assert !Owns(allocs, a);
  }

  /** Any other block: the one record that saved its position is patched. */
  lemma FreeInner(s: State, v: View, extra: map<nat, nat>, z: nat, k: nat, a: nat)
    requires Inv(s, v, extra) && z < NZONES && Sits(v, z, k, a) && k > 0 && a in extra
    requires v.paths[z][k - 1] !in extra
    ensures Inv(FreeData(s, a, extra[a]), Dropped(v, z, k), extra - {a})
  {
    FindsZone(s.zones, v, z, k, a);
    SavedBelow(s.zones[z], v.paths[z], v.saved, k);
    SavedBelow(s.zones[z], v.paths[z], v.saved, k - 1);
    DropPaths(s.zones, v, z, k);
    var p, o := v.paths[z][k - 1], extra[a];
    forall b | b in v.saved && v.saved[b] == a ensures b == p { OnlyPredecessor(s.zones, v, z, k, b); }
    PatchTracks(s.allocs, extra, v.saved, a, p);
    PatchBelow(s.zones, s.allocs, a, o);
  }

  /** Patching the record that owns the predecessor. */
  lemma PatchTracks(allocs: seq<Info>, extra: map<nat, nat>, saved: map<nat, nat>, a: nat, p: nat)
    requires Tracks(allocs, extra, saved) && a in extra && p in saved && saved[p] == a && p !in extra && p != a
    requires forall b :: b in saved && saved[b] == a ==> b == p
    ensures Tracks(Patch(allocs, a, extra[a]), extra - {a}, (saved - {a})[p := extra[a]])
  {
    var i :| 0 <= i < |allocs| && (allocs[i].data == p || allocs[i].at == p);
    var o := extra[a];
    forall j | 0 <= j < |allocs| && j != i ensures allocs[j].olddata != a && allocs[j].oldalloc != a {
      assert allocs[j].data in saved && allocs[j].at in saved;
    }
    if allocs[i].data == p {
      PatchData(allocs, a, o, i);
      PatchedTracks(allocs, extra, saved, a, p, i, allocs[i].(olddata := o));
    } else {
      PatchAlloc(allocs, a, o, i);
      PatchedTracks(allocs, extra, saved, a, p, i, allocs[i].(oldalloc := o));
    }
  }

  lemma PatchedTracks(allocs: seq<Info>, extra: map<nat, nat>, saved: map<nat, nat>, a: nat, p: nat, i: nat, info: Info)
    requires Tracks(allocs, extra, saved) && a in extra && p in saved && p !in extra && p != a && i < |allocs|
    requires info.at == allocs[i].at && info.data == allocs[i].data && (allocs[i].data == p || allocs[i].at == p)
    requires info.olddata == (if info.data == p then extra[a] else allocs[i].olddata)
    requires info.oldalloc == (if info.at == p then extra[a] else allocs[i].oldalloc)
    ensures Tracks(allocs[i := info], extra - {a}, (saved - {a})[p := extra[a]])
  {
    var allocs', saved' := allocs[i := info], (saved - {a})[p := extra[a]];
    forall b ensures Owns(allocs', b) <==> Owns(allocs, b) { OwnsSame(allocs, i, info, b); }
    assert !Owns(allocs, a);
    forall j | 0 <= j < |allocs| ensures
      && allocs'[j].data in saved' && saved'[allocs'[j].data] == allocs'[j].olddata
      && allocs'[j].at in saved' && saved'[allocs'[j].at] == allocs'[j].oldalloc {
      assert allocs[j].data != a && allocs[j].at != a;
    }
  }

  lemma OwnsSame(allocs: seq<Info>, i: nat, info: Info, b: nat)
    requires i < |allocs| && info.at == allocs[i].at && info.data == allocs[i].data
    ensures Owns(allocs[i := info], b) <==> Owns(allocs, b)
  {
    var allocs' := allocs[i := info];
    assert forall j :: 0 <= j < |allocs| ==> allocs'[j].data == allocs[j].data && allocs'[j].at == allocs[j].at;
  }

  lemma {:induction false} PatchKeeps(allocs: seq<Info>, a: nat, o: nat)
    ensures |Patch(allocs, a, o)| == |allocs|
    ensures forall j :: 0 <= j < |allocs| ==> Patch(allocs, a, o)[j].at == allocs[j].at && Patch(allocs, a, o)[j].data == allocs[j].data
  {
    if allocs != [] { PatchKeeps(allocs[1..], a, o); }
  }

  lemma PatchBelow(zones: seq<Zone>, allocs: seq<Info>, a: nat, o: nat)
    requires AllBelow(zones, allocs)
    ensures AllBelow(zones, Patch(allocs, a, o))
  {
    PatchKeeps(allocs, a, o);
    var allocs' := Patch(allocs, a, o);
    forall j | 0 <= j < |allocs'| ensures BelowRecord(zones, allocs'[j]) { assert BelowRecord(zones, allocs[j]); }
  }

  // ---- pmm_free ----

  ghost function Without(allocs: seq<Info>, i: nat): seq<Info>
    requires i < |allocs|
  {
    allocs[..i] + allocs[i + 1..]
  }

  ghost function Blocks(info: Info): map<nat, nat> { map[info.data := info.olddata, info.at := info.oldalloc] }

  lemma OwnsWithout(allocs: seq<Info>, i: nat, a: nat)
    requires i < |allocs|
    ensures Owns(allocs, a) <==> Owns(Without(allocs, i), a) || allocs[i].data == a || allocs[i].at == a
  {
    var rest := Without(allocs, i);
    assert forall j :: 0 <= j < |rest| ==> rest[j] == allocs[if j < i then j else j + 1];
    if Owns(allocs, a) && allocs[i].data != a && allocs[i].at != a {
      var j :| 0 <= j < |allocs| && (allocs[j].data == a || allocs[j].at == a);
      assert rest[if j < i then j else j - 1] == allocs[j];
    }
  }

  lemma WithoutDistinct(allocs: seq<Info>, i: nat)
    requires Distinct(allocs) && i < |allocs|
    ensures Distinct(Without(allocs, i)) && !Owns(Without(allocs, i), allocs[i].data) && !Owns(Without(allocs, i), allocs[i].at)
  {
    var rest := Without(allocs, i);
    assert forall j :: 0 <= j < |rest| ==> rest[j] == allocs[if j < i then j else j + 1];
  }

  lemma UnlinkTracks(allocs: seq<Info>, saved: map<nat, nat>, i: nat)
    requires Tracks(allocs, map[], saved) && i < |allocs|
    ensures Tracks(Without(allocs, i), Blocks(allocs[i]), saved)
  {
    var rest := Without(allocs, i);
    WithoutDistinct(allocs, i);
    forall a | a in saved ensures a in Blocks(allocs[i]) || Owns(rest, a) { OwnsWithout(allocs, i, a); }
    assert allocs[i].data != allocs[i].at;
    assert Recorded(rest, saved);
  }

  lemma UnlinkBelow(zones: seq<Zone>, allocs: seq<Info>, i: nat)
    requires AllBelow(zones, allocs) && i < |allocs|
    ensures AllBelow(zones, Without(allocs, i))
  {
    var rest := Without(allocs, i);
    forall j | 0 <= j < |rest| ensures BelowRecord(zones, rest[j]) {
      assert BelowRecord(zones, allocs[if j < i then j else j + 1]);
    }
  }

  /** Freeing one of two unlinked blocks that sit in the chains. */
  lemma FreeBlock(s: State, v: View, extra: map<nat, nat>, a: nat) returns (v': View)
    requires Inv(s, v, extra) && a in extra
    requires forall b :: b in extra && b != a ==> PredecessorNot(s.zones, a, b)
    ensures Inv(FreeData(s, a, extra[a]), v', extra - {a})
    ensures v'.sizes == v.sizes - {a}
  {
    hide Paths, Tracks, AllBelow, FreeData;
    InvExtra(s, v, extra, a);
    var z, k := Seat(s.zones, v, a);
    if k == 0 {
      FreeLast(s, v, extra, z, a);
    } else {
      Predecessor(s.zones, v, z, k);
      FreeInner(s, v, extra, z, k, a);
    }
    v' := Dropped(v, z, k);
  }

  /** `b` is not below `a` in the same zone, so it cannot have saved the position `a`. */
  ghost predicate PredecessorNot(zones: seq<Zone>, a: nat, b: nat) {
    forall z :: 0 <= z < |zones| && Inside(zones[z], a) && Inside(zones[z], b) ==> a < b
  }

  lemma Predecessor(zones: seq<Zone>, v: View, z: nat, k: nat)
    requires Paths(zones, v) && z < NZONES && 0 < k && k + 1 < |v.paths[z]|
    ensures var p := v.paths[z]; p[k - 1] < p[k] && Inside(zones[z], p[k - 1]) && Inside(zones[z], p[k])
  {
    PathInside(zones[z], v.paths[z], v.saved, k);
    PathInside(zones[z], v.paths[z], v.saved, k - 1);
  }

  lemma FreeBoth(s: State, v: View, info: Info) returns (v': View)
    requires Inv(s, v, Blocks(info)) && info.data != info.at && BelowRecord(s.zones, info)
    ensures Inv(FreeData(FreeData(s, info.data, info.olddata), info.at, info.oldalloc), v', map[])
    ensures v'.sizes == v.sizes - {info.data, info.at}
  {
    hide Inv, FreeData;
    var v1 := FreeBlock(s, v, Blocks(info), info.data);
    var only := map[info.at := info.oldalloc];
    assert Blocks(info) - {info.data} == only;
    v' := FreeBlock(FreeData(s, info.data, info.olddata), v1, only, info.at);
    assert only - {info.at} == map[];
  }

  lemma UnlinkInv(s: State, v: View, i: nat)
    requires Inv(s, v, map[]) && i < |s.allocs|
    ensures Inv(s.(allocs := Without(s.allocs, i)), v, Blocks(s.allocs[i]))
  {
    hide Paths, Tracks, AllBelow, Without;
    UnlinkTracks(s.allocs, v.saved, i);
    UnlinkBelow(s.zones, s.allocs, i);
  }

  /** pmm_free of the record at position `i` takes exactly its two blocks out of the chains. */
  lemma FreeAtInv(s: State, v: View, i: nat) returns (v': View)
    requires Inv(s, v, map[]) && i < |s.allocs|
    ensures Inv(FreeAt(s, i), v', map[])
    ensures v'.sizes == v.sizes - {s.allocs[i].data, s.allocs[i].at}
  {
    hide Inv, FreeData;
    InvRecord(s, v, map[], i);
    UnlinkInv(s, v, i);
    v' := FreeBoth(s.(allocs := Without(s.allocs, i)), v, s.allocs[i]);
  }
}
