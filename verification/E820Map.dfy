/** The e820_list array of bios/seabios/src/memmap.c, changed in place. */
module E820Map {
  import opened Words
  import opened E820

  /** u64 arithmetic wraps around. */
  function Sum(a: nat, b: nat): nat { (a + b) % WORD }

  function Diff(a: nat, b: nat): nat { (a - b) % WORD }

  lemma SumIs(a: nat, b: nat)
    requires a + b < WORD
    ensures Sum(a, b) == a + b
  {
  }

  lemma DiffIs(a: nat, b: nat)
    requires b <= a < b + WORD
    ensures Diff(a, b) == a - b
  {
  }

  lemma ProperSum(e: Entry)
    ensures Proper(e) ==> Sum(e.start, e.size) == e.End()
  {
  }

  lemma ProperAt(q: seq<Entry>, i: nat)
    requires Canonical(q) && i < |q|
    ensures Proper(q[i]) && Sum(q[i].start, q[i].size) == q[i].End()
  {
  }

  /** What the first half of add_e820 leaves: `i` splits the list into what precedes the new item and the rest. */
  ghost predicate Located(q: seq<Entry>, q1: seq<Entry>, start0: nat, size0: nat, kind: nat, i: nat, start: nat, size: nat) {
    && i <= |q1| && size > 0 && start <= start0 && start + size == start0 + size0
    && Glue(Below(q, start0), New(start0, size0, kind)) == q1[..i] + New(start, size, kind)
    && Canonical(q1[..i] + New(start, size, kind)) && Canonical(q1[i..])
    && (forall k :: 0 <= k < i ==> q1[k].End() <= start)
    && (|q| < CONFIG_MAX_E820 ==> Above(q1[i..], start0 + size0) == Above(q, start0 + size0))
    && (Above(q1[i..], start0 + size0) == Above(q, start0 + size0)
        || CONFIG_MAX_E820 < |q1[..i]| + |Above(q, start0 + size0)|)
  }

  lemma AboveRest(q: seq<Entry>, end: nat, i: nat)
    requires i <= |q| && forall k :: 0 <= k < i ==> q[k].End() <= end
    ensures Above(q[i..], end) == Above(q, end)
  {
    assert q == q[..i] + q[i..];
    AboveConcat(q[..i], q[i..], end);
    AboveNone(q[..i], end);
  }

  /** No entry starts before the new item and reaches it. */
  lemma LocatedBetween(q: seq<Entry>, start: nat, size: nat, kind: nat, i: nat)
    requires Canonical(q) && size > 0 && start + size < WORD && FirstTouched(q, start, i)
    requires i < |q| ==> start <= q[i].start
    ensures Located(q, q, start, size, kind, i, start, size)
  {
    hide Canonical, Below, Above, Glue, New, Located;
    LeftBetween(q, start, size, kind, i);
    AboveRest(q, start + size, i);
    CanonicalSlice(q, i, |q|);
    assert q[i..|q|] == q[i..];
    LocatedFrom(q, q, start, size, kind, i, start, size, q[..i], q[i..]);
  }

  lemma LeftBetween(q: seq<Entry>, start: nat, size: nat, kind: nat, i: nat)
    requires Canonical(q) && size > 0 && start + size < WORD && FirstTouched(q, start, i)
    requires i < |q| ==> start <= q[i].start
    ensures Glue(Below(q, start), New(start, size, kind)) == q[..i] + New(start, size, kind)
    ensures Canonical(q[..i] + New(start, size, kind))
  {
    BelowAt(q, start, i);
    assert Below(q, start) == q[..i];
    CanonicalSlice(q, 0, i);
    GlueApart(q[..i], New(start, size, kind));
    CanonicalConcat(q[..i], New(start, size, kind));
  }

  lemma GlueApart(l: seq<Entry>, r: seq<Entry>)
    requires l != [] && r != [] ==> l[|l| - 1].End() < r[0].start
    ensures Glue(l, r) == l + r
  {
  }

  lemma LocatedFrom(q: seq<Entry>, q1: seq<Entry>, start0: nat, size0: nat, kind: nat, i: nat, start: nat, size: nat,
                    l: seq<Entry>, r: seq<Entry>)
    requires i <= |q1| && size > 0 && start <= start0 && start + size == start0 + size0
    requires l == q1[..i] && r == q1[i..]
    requires Glue(Below(q, start0), New(start0, size0, kind)) == l + New(start, size, kind)
    requires Canonical(l + New(start, size, kind)) && Canonical(r)
    requires forall k :: 0 <= k < |l| ==> l[k].End() <= start
    requires Above(r, start0 + size0) == Above(q, start0 + size0)
    ensures Located(q, q1, start0, size0, kind, i, start, size)
  {
    assert forall k :: 0 <= k < i ==> q1[k] == l[k];
  }

  /** The entry that reaches the new item has the same type. */
  lemma LocatedMerge(q: seq<Entry>, start: nat, size: nat, kind: nat, i: nat)
    requires Canonical(q) && size > 0 && start + size < WORD && FirstTouched(q, start, i)
    requires i < |q| && q[i].start < start && q[i].kind == kind
    ensures Located(q, q, start, size, kind, i, q[i].start, size + start - q[i].start)
  {
    hide Canonical, Below, Above, Glue, New, Located;
    LeftMerge(q, start, size, kind, i);
    AboveRest(q, start + size, i);
    CanonicalSlice(q, i, |q|);
    assert q[i..|q|] == q[i..];
    LocatedFrom(q, q, start, size, kind, i, q[i].start, size + start - q[i].start, q[..i], q[i..]);
  }

  lemma LeftMerge(q: seq<Entry>, start: nat, size: nat, kind: nat, i: nat)
    requires Canonical(q) && size > 0 && start + size < WORD && FirstTouched(q, start, i)
    requires i < |q| && q[i].start < start && q[i].kind == kind
    ensures Glue(Below(q, start), New(start, size, kind)) == q[..i] + New(q[i].start, size + start - q[i].start, kind)
    ensures Canonical(q[..i] + New(q[i].start, size + start - q[i].start, kind))
    ensures forall k :: 0 <= k < i ==> q[k].End() <= q[i].start
  {
    hide Canonical, Below, Glue;
    ClippedBelow(q, start, i);
    MergedCanonical(q, start, size, i);
    GlueMerge(q[..i], Entry(q[i].start, start - q[i].start, kind), Entry(start, size, kind));
  }

  lemma ClippedBelow(q: seq<Entry>, start: nat, i: nat)
    requires Canonical(q) && FirstTouched(q, start, i) && i < |q| && q[i].start < start
    ensures Below(q, start) == q[..i] + [Entry(q[i].start, start - q[i].start, q[i].kind)] && q[i].kind != E820_HOLE
  {
    BelowAt(q, start, i);
  }

  lemma MergedCanonical(q: seq<Entry>, start: nat, size: nat, i: nat)
    requires Canonical(q) && start + size < WORD && i < |q| && q[i].start < start
    ensures Canonical(q[..i] + [Entry(q[i].start, size + start - q[i].start, q[i].kind)])
    ensures forall k :: 0 <= k < i ==> q[k].End() <= q[i].start
  {
    CanonicalSlice(q, 0, i);
    if i > 0 { assert Apart(q[i - 1], q[i]); }
    forall k | 0 <= k < i ensures q[k].End() <= q[i].start { Ordered(q, k, i); }
    CanonicalConcat(q[..i], [Entry(q[i].start, size + start - q[i].start, q[i].kind)]);
  }

  lemma GlueMerge(l: seq<Entry>, x: Entry, y: Entry)
    requires x.End() == y.start && x.kind == y.kind
    ensures Glue(l + [x], [y]) == l + [Entry(x.start, x.size + y.size, x.kind)]
  {
    assert (l + [x])[..|l|] == l;
  }

  ghost function Tail(e: Entry, end: nat, room: bool): seq<Entry> {
    if e.End() > end && room then [Entry(end, e.End() - end, e.kind)] else []
  }

  ghost function Split(q: seq<Entry>, start: nat, end: nat, i: nat): seq<Entry>
    requires i < |q| && q[i].start <= start
  {
    q[..i] + [Entry(q[i].start, start - q[i].start, q[i].kind)] + (Tail(q[i], end, |q| < CONFIG_MAX_E820) + q[i + 1..])
  }

  /** The entry that reaches the new item has another type and is cut, perhaps into two. */
  lemma LocatedSplit(q: seq<Entry>, start: nat, size: nat, kind: nat, i: nat)
    requires Canonical(q) && |q| <= CONFIG_MAX_E820 && size > 0 && start + size < WORD && FirstTouched(q, start, i)
    requires i < |q| && q[i].start < start && q[i].kind != kind
    ensures Located(q, Split(q, start, start + size, i), start, size, kind, i + 1, start, size)
  {
    var q1, end := Split(q, start, start + size, i), start + size;
    var l := q[..i] + [Entry(q[i].start, start - q[i].start, q[i].kind)];
    var r := Tail(q[i], end, |q| < CONFIG_MAX_E820) + q[i + 1..];
    assert q1[..i + 1] == l && q1[i + 1..] == r;
    BelowAt(q, start, i);
    BelowCanonical(q, start);
    assert l == Below(q, start);
    CanonicalConcat(l, New(start, size, kind));
    SplitRest(q, start, end, i);
  }

  lemma SplitRest(q: seq<Entry>, start: nat, end: nat, i: nat)
    requires Canonical(q) && |q| <= CONFIG_MAX_E820 && start < end && FirstTouched(q, start, i)
    requires i < |q| && q[i].start < start
    ensures var r := Tail(q[i], end, |q| < CONFIG_MAX_E820) + q[i + 1..];
      && Canonical(r)
      && (Above(r, end) == Above(q, end)
          || (|q| == CONFIG_MAX_E820 && |Above(q, end)| == CONFIG_MAX_E820 - i))
  {
    var t, rest := Tail(q[i], end, |q| < CONFIG_MAX_E820), q[i + 1..];
    CanonicalSlice(q, i + 1, |q|);
    if i + 1 < |q| { assert Apart(q[i], q[i + 1]); }
    CanonicalConcat(t, rest);
    AboveRest(q, end, i);
    assert q[i..] == [q[i]] + rest;
    AboveConcat([q[i]], rest, end);
    AboveConcat(t, rest, end);
    Single(q[i], end);
    if t != [] { Single(t[0], end); }
    if q[i].End() > end && t == [] {
      AboveAt(q, end, i);
    }
  }

  /** What the second half leaves of the rest: the overlap is gone and a touching item of the same type is merged. */
  ghost predicate Trimmed(above: seq<Entry>, end: nat, kind: nat, size: nat, r': seq<Entry>, size': nat) {
    if above != [] && above[0].start == end && above[0].kind == kind
    then r' == above[1..] && size' == size + above[0].size
    else r' == above && size' == size
  }

  /** Putting the two halves together gives the reference result. */
  lemma Assembled(l: seq<Entry>, above: seq<Entry>, start: nat, size: nat, kind: nat, r': seq<Entry>, size': nat)
    requires size > 0 && Canonical(l + New(start, size, kind)) && Canonical(above)
    requires forall k :: 0 <= k < |l| ==> l[k].End() <= start
    requires forall k :: 0 <= k < |above| ==> above[k].start >= start + size
    requires Trimmed(above, start + size, kind, size, r', size')
    ensures l + New(start, size', kind) + r' == Glue(l + New(start, size, kind), above)
    ensures Canonical(l + New(start, size', kind) + r') && Canonical(l + r')
  {
    if kind == E820_HOLE {
      AssembledHole(l, start, size, above);
      NotHole(above);
    } else {
      AssembledItem(l, start, size, kind, above);
    }
  }

  lemma NotHole(es: seq<Entry>)
    requires Canonical(es)
    ensures es != [] ==> es[0].kind != E820_HOLE
  {
  }

  lemma AssembledHole(l: seq<Entry>, start: nat, size: nat, above: seq<Entry>)
    requires size > 0 && Canonical(l + []) && Canonical(above)
    requires forall k :: 0 <= k < |l| ==> l[k].End() <= start
    requires forall k :: 0 <= k < |above| ==> above[k].start >= start + size
    ensures l + [] == l && Glue(l, above) == l + above && Canonical(l + above)
  {
    assert l + [] == l;
    CanonicalConcat(l, above);
  }

  lemma AssembledItem(l: seq<Entry>, start: nat, size: nat, kind: nat, above: seq<Entry>)
    requires size > 0 && kind != E820_HOLE && Canonical(l + [Entry(start, size, kind)]) && Canonical(above)
    requires forall k :: 0 <= k < |l| ==> l[k].End() <= start
    requires forall k :: 0 <= k < |above| ==> above[k].start >= start + size
    ensures var merge := above != [] && above[0].start == start + size && above[0].kind == kind;
      var r', size' := if merge then above[1..] else above, if merge then size + above[0].size else size;
      && l + [Entry(start, size', kind)] + r' == Glue(l + [Entry(start, size, kind)], above)
      && Canonical(l + [Entry(start, size', kind)] + r') && Canonical(l + r')
  {
    var ln := l + [Entry(start, size, kind)];
    assert ln[..|ln| - 1] == l && ln[|ln| - 1] == Entry(start, size, kind);
    GlueCanonical(ln, above);
    CanonicalSlice(ln, 0, |l|);
    if above != [] {
      CanonicalSlice(above, 1, |above|);
      CanonicalConcat(l, above[1..]);
      CanonicalConcat(l, above);
    }
  }

  ghost predicate AllProper(q: seq<Entry>) { forall i :: 0 <= i < |q| ==> Proper(q[i]) }

  /** Entries `i` to `k` end within `end`; entry `k` does not. */
  ghost predicate Covers(q: seq<Entry>, end: nat, i: nat, k: nat) {
    i <= k <= |q| && (forall m :: i <= m < k ==> q[m].End() <= end) && (k < |q| ==> end < q[k].End())
  }

  ghost function FirstCut(r: seq<Entry>, end: nat): seq<Entry> {
    if r == [] then [] else AboveOf(r[0], end) + r[1..]
  }

  /** The first entry reaches beyond `end`, and a merge with it does not wrap. */
  ghost predicate SticksOut(r: seq<Entry>, end: nat, size: nat) {
    r != [] ==> Proper(r[0]) && end < r[0].End() && size + r[0].End() < WORD + end
  }

  lemma TrimmedCases(r: seq<Entry>, end: nat, kind: nat, size: nat)
    requires SticksOut(r, end, size)
    ensures r == [] || r[0].start > end ==> Trimmed(FirstCut(r, end), end, kind, size, r, size)
    ensures r != [] && r[0].start <= end ==>
      var beyond := Diff(Sum(r[0].start, r[0].size), end);
      if kind == r[0].kind then Trimmed(FirstCut(r, end), end, kind, size, r[1..], Sum(size, beyond))
      else Trimmed(FirstCut(r, end), end, kind, size, [Entry(end, beyond, r[0].kind)] + r[1..], size)
  {
    if r != [] {
      assert [r[0]] + r[1..] == r;
      if r[0].start <= end {
        SumIs(r[0].start, r[0].size);
        DiffIs(r[0].End(), end);
        SumIs(size, r[0].End() - end);
      }
    }
  }

  lemma DropOne(q: seq<Entry>, i: nat, k: nat)
    requires i <= k < |q|
    ensures var c := q[..i] + q[k..]; c[..i] + c[i + 1..] == q[..i] + q[k + 1..]
  {
  }

  lemma AboveCovered(q: seq<Entry>, end: nat, i: nat, k: nat)
    requires i <= |q| && Canonical(q[i..]) && Covers(q, end, i, k)
    ensures Above(q[i..], end) == FirstCut(q[k..], end)
  {
    var r := q[i..];
    assert FirstBeyond(r, end, k - i);
    AboveAt(r, end, k - i);
    if k < |q| { assert r[k - i..] == q[k..] && r[k - i + 1..] == q[k..][1..]; }
  }

  lemma LocatedProper(q: seq<Entry>, q1: seq<Entry>, start0: nat, size0: nat, kind: nat, i: nat, start: nat, size: nat)
    requires Located(q, q1, start0, size0, kind, i, start, size)
    ensures AllProper(q1) && i <= |q1| && Canonical(q1[i..]) && start + size == start0 + size0
  {
    var ln, r := q1[..i] + New(start, size, kind), q1[i..];
    forall k | 0 <= k < |q1| ensures Proper(q1[k]) {
      if k < i { assert ln[k] == q1[k]; } else { assert r[k - i] == q1[k]; }
    }
  }

  /** Canonical, and the reference result exactly when that fits. */
  ghost predicate AddSpec(q: seq<Entry>, start: nat, size: nat, kind: nat, result: seq<Entry>) {
    && Canonical(result)
    && (result == Ideal(q, start, size, kind) <==> |Ideal(q, start, size, kind)| <= CONFIG_MAX_E820)
  }

  /** The final insert, which is left out when the array is full. */
  ghost function Inserted(l: seq<Entry>, new': seq<Entry>, r: seq<Entry>): seq<Entry> {
    if |l| + |r| < CONFIG_MAX_E820 then l + new' + r else l + r
  }

  lemma Finished(q: seq<Entry>, q1: seq<Entry>, start0: nat, size0: nat, kind: nat, i: nat, start: nat, size: nat,
                 r': seq<Entry>, size': nat)
    requires Canonical(q) && size0 > 0 && start0 + size0 < WORD
    requires Located(q, q1, start0, size0, kind, i, start, size)
    requires Trimmed(Above(q1[i..], start0 + size0), start0 + size0, kind, size, r', size')
    requires |q1[..i]| + |r'| <= CONFIG_MAX_E820
    ensures AddSpec(q, start0, size0, kind, Inserted(q1[..i], New(start, size', kind), r'))
  {
    hide Canonical, Glue, Below, Above, New, Inserted, Trimmed;
    AboveCanonical(q1[i..], start0 + size0);
    AboveCanonical(q, start0 + size0);
    FinishedParts(Ideal(q, start0, size0, kind), q1[..i], Above(q1[i..], start0 + size0), Above(q, start0 + size0),
                  start, size, kind, r', size');
  }

  lemma FinishedParts(ideal: seq<Entry>, l: seq<Entry>, above: seq<Entry>, all: seq<Entry>,
                      start: nat, size: nat, kind: nat, r': seq<Entry>, size': nat)
    requires size > 0 && Canonical(l + New(start, size, kind)) && Canonical(above)
    requires forall k :: 0 <= k < |l| ==> l[k].End() <= start
    requires forall k :: 0 <= k < |above| ==> above[k].start >= start + size
    requires forall k :: 0 <= k < |all| ==> all[k].start >= start + size
    requires ideal == Glue(l + New(start, size, kind), all)
    requires above == all || CONFIG_MAX_E820 < |l| + |all|
    requires Trimmed(above, start + size, kind, size, r', size') && |l| + |r'| <= CONFIG_MAX_E820
    ensures var result := Inserted(l, New(start, size', kind), r');
      Canonical(result) && (result == ideal <==> |ideal| <= CONFIG_MAX_E820)
  {
    Assembled(l, above, start, size, kind, r', size');
    if above != all { Dropped(l + New(start, size, kind), |l|, all, start + size); }
    Concluded(ideal, l, New(start, size', kind), r');
  }

  lemma Concluded(ideal: seq<Entry>, l: seq<Entry>, n: seq<Entry>, r: seq<Entry>)
    requires ideal == l + n + r || |ideal| > CONFIG_MAX_E820
    requires Canonical(l + n + r) && Canonical(l + r) && |l| + |r| <= CONFIG_MAX_E820 && |n| <= 1
    ensures Canonical(Inserted(l, n, r)) && (Inserted(l, n, r) == ideal <==> |ideal| <= CONFIG_MAX_E820)
  {
    if n == [] { assert l + n + r == l + r; }
  }

  /** Gluing on the right loses at most one entry, and only if there was a new item to merge with. */
  lemma Dropped(ln: seq<Entry>, n: nat, above: seq<Entry>, end: nat)
    requires n + |above| > CONFIG_MAX_E820 && n <= |ln| <= n + 1
    requires |ln| == n ==> forall k :: 0 <= k < |ln| ==> ln[k].End() < end
    requires forall k :: 0 <= k < |above| ==> above[k].start >= end
    ensures |Glue(ln, above)| > CONFIG_MAX_E820
  {
  }

  lemma NoChange(q: seq<Entry>, start: nat, kind: nat)
    requires Canonical(q) && |q| <= CONFIG_MAX_E820
    ensures AddSpec(q, start, 0, kind, q)
  {
  }

  /** What the steps of a split leave, with and without room for the second part. */
  lemma SplitCases(q: seq<Entry>, start: nat, end: nat, i: nat)
    requires Canonical(q) && i < |q| && q[i].start < start <= q[i].End()
    ensures var eEnd := Sum(q[i].start, q[i].size); var c := q[i := q[i].(size := Diff(start, q[i].start))];
      Split(q, start, end, i) == if eEnd > end && |q| < CONFIG_MAX_E820
        then c[..i + 1] + [Entry(end, Diff(eEnd, end), q[i].kind)] + c[i + 1..] else c
  {
    hide Canonical, Sum, Diff;
    ProperAt(q, i);
    DiffIs(start, q[i].start);
    var eEnd, tail := q[i].End(), Tail(q[i], end, |q| < CONFIG_MAX_E820);
    if eEnd > end { DiffIs(eEnd, end); }
    var clip := q[i].(size := start - q[i].start);
    SplitParts(q, i, clip, tail);
    assert q[i := clip] == q[..i] + [clip] + q[i + 1..];
    if tail == [] { assert q[..i] + [clip] + ([] + q[i + 1..]) == q[i := clip]; }
  }

  lemma SplitParts(q: seq<Entry>, i: nat, clip: Entry, tail: seq<Entry>)
    requires i < |q|
    ensures var c := q[..i] + [clip] + q[i + 1..];
      c[..i + 1] + tail + c[i + 1..] == q[..i] + [clip] + (tail + q[i + 1..])
  {
    var c := q[..i] + [clip] + q[i + 1..];
    assert c[..i + 1] == q[..i] + [clip] && c[i + 1..] == q[i + 1..];
  }

  lemma MergedSize(q: seq<Entry>, start: nat, size: nat, i: nat)
    requires Canonical(q) && i < |q| && q[i].start < start && start + size < WORD
    ensures Sum(size, Diff(start, q[i].start)) == size + start - q[i].start
  {
    DiffIs(start, q[i].start);
    SumIs(size, start - q[i].start);
  }

  /** RAM below 4 GiB that is large enough and ends high enough. */
  predicate HighArea(e: Entry, size: nat) {
    && e.kind == E820_RAM && e.End() <= 0xffff_ffff && e.size >= size
    && e.End() >= (0x10_0000 + size) % 0x1_0000_0000
  }

  class MemMap {
    const list: array<Entry>
    var count: nat

    ghost predicate Valid() reads this {
      list.Length == CONFIG_MAX_E820 && count <= CONFIG_MAX_E820
    }

    ghost function Contents(): seq<Entry>
      reads this, list
      requires Valid()
    {
      list[..count]
    }

    /** memmap_setup */
    constructor ()
      ensures Valid() && fresh(list) && Contents() == []
    {
      list := new Entry[CONFIG_MAX_E820](_ => Entry(0, 0, 0));
      count := 0;
    }

    /** remove_e820 */
    method Remove(i: nat)
      requires Valid() && i < count
      modifies this`count, list
      ensures Valid() && Contents() == old(Contents())[..i] + old(Contents())[i + 1..]
    {
      ghost var q := Contents();
      count := count - 1;
      var k := i;
      while k < count
        invariant i <= k <= count
        invariant forall m :: 0 <= m < i || k <= m < list.Length ==> list[m] == old(list[m])
        invariant forall m :: i <= m < k ==> list[m] == old(list[m + 1])
        modifies list
      {
        list[k] := list[k + 1];
        k := k + 1;
      }
      forall m | 0 <= m < count ensures list[m] == (q[..i] + q[i + 1..])[m] {
        assert list[m] == if m < i then q[m] else q[m + 1];
      }
    }

    /** insert_e820: a full list stays as it is. */
    method Insert(i: nat, e: Entry)
      requires Valid() && i <= count
      modifies this`count, list
      ensures Valid()
      ensures Contents() == if old(count) < CONFIG_MAX_E820 then old(Contents())[..i] + [e] + old(Contents())[i..] else old(Contents())
    {
      if count >= CONFIG_MAX_E820 { return; }
      ghost var q := Contents();
      var k := count;
      while k > i
        invariant i <= k <= count
        invariant forall m :: 0 <= m < k ==> list[m] == q[m]
        invariant forall m :: k < m <= count ==> list[m] == q[m - 1]
        modifies list
      {
        list[k] := list[k - 1];
        k := k - 1;
      }
      count := count + 1;
      list[i] := e;
      forall m | 0 <= m < count ensures list[m] == (q[..i] + [e] + q[i..])[m] {
        assert m > i ==> list[m] == q[m - 1];
      }
    }

    /** The first loop of add_e820: the first entry that reaches `start`. */
    method Find(start: nat) returns (i: nat)
      requires Valid()
      ensures i <= count && (Canonical(Contents()) ==> FirstTouched(Contents(), start, i))
    {
      i := 0;
      while i < count && start > Sum(list[i].start, list[i].size)
        invariant i <= count
        invariant Canonical(Contents()) ==> forall k :: 0 <= k < i ==> Contents()[k].End() < start
      {
        i := i + 1;
      }
    }

    method Set(i: nat, e: Entry)
      requires Valid() && i < count
      modifies list
      ensures Contents() == old(Contents())[i := e]
    {
      list[i] := e;
    }

    /** Cuts entry `i` at `start`, keeping what lies beyond `end` as an entry of its own. */
    method SplitAt(i: nat, start: nat, end: nat)
      requires Valid() && i < count && list[i].start < start
      modifies this`count, list
      ensures Valid() && i + 1 <= count
      ensures Canonical(old(Contents())) && start <= old(Contents())[i].End() ==> Contents() == Split(old(Contents()), start, end, i)
    {
      hide Canonical, Sum, Diff, Split;
      ghost var q := Contents();
      var e := list[i];
      assert e == q[i];
      if Canonical(q) && start <= q[i].End() { SplitCases(q, start, end, i); }
      var eEnd := Sum(e.start, e.size);
      Set(i, e.(size := Diff(start, e.start)));
      if eEnd > end {
        Insert(i + 1, Entry(end, Diff(eEnd, end), e.kind));
      }
    }

    /** The second loop of add_e820 as far as it removes entries that the new item covers. */
    method RemoveCovered(i: nat, end: nat) returns (ghost k: nat)
      requires Valid() && i <= count
      modifies this`count, list
      ensures Valid() && i <= k <= |old(Contents())| && Contents() == old(Contents())[..i] + old(Contents())[k..]
      ensures AllProper(old(Contents())) ==> Covers(old(Contents()), end, i, k)
    {
      hide Sum;
      ghost var q := Contents();
      k := i;
      while i < count && end >= list[i].start && end >= Sum(list[i].start, list[i].size)
        invariant Valid() && i <= count && i <= k <= |q| && Contents() == q[..i] + q[k..]
        invariant AllProper(q) ==> forall m :: i <= m < k ==> q[m].End() <= end
        decreases count
      {
        assert list[i] == Contents()[i] == q[k];
        ProperSum(q[k]);
        DropOne(q, i, k);
        Remove(i);
        k := k + 1;
      }
      if i < count {
        assert list[i] == Contents()[i] == q[k];
        ProperSum(q[k]);
      }
    }

    /** The rest of the second loop: an entry that sticks out keeps what lies beyond `end`, unless it is merged. */
    method TrimFirst(i: nat, end: nat, kind: nat, size0: nat) returns (size: nat)
      requires Valid() && i <= count
      modifies this`count, list
      ensures Valid() && i <= count && Contents()[..i] == old(Contents())[..i]
      ensures SticksOut(old(Contents())[i..], end, size0) ==>
        Trimmed(FirstCut(old(Contents())[i..], end), end, kind, size0, Contents()[i..], size)
    {
      hide Sum, Diff, Trimmed, FirstCut, SticksOut;
      size := size0;
      ghost var q := Contents();
      ghost var r := q[i..];
      if SticksOut(r, end, size0) { TrimmedCases(r, end, kind, size0); }
      if i < count && end >= list[i].start {
        var e := list[i];
        assert e == r[0];
        var eEnd := Sum(e.start, e.size);
        list[i] := Entry(end, Diff(eEnd, end), e.kind);
        assert Contents() == q[..i] + [list[i]] + q[i + 1..];
        assert r[1..] == q[i + 1..];
        if kind == e.kind {
          size := Sum(size, list[i].size);
          Remove(i);
          assert Contents()[i..] == r[1..];
        } else {
          assert Contents()[i..] == [Entry(end, Diff(eEnd, end), e.kind)] + r[1..];
        }
      }
    }

    /** The first half of add_e820: find the position and merge with, or split, the entry there. */
    method Locate(start0: nat, size0: nat, kind: nat, end: nat) returns (i: nat, start: nat, size: nat)
      requires Valid() && size0 > 0 && end == Sum(start0, size0)
      modifies this`count, list
      ensures Valid() && i <= count
      ensures Canonical(old(Contents())) && start0 + size0 < WORD ==>
        Located(old(Contents()), Contents(), start0, size0, kind, i, start, size)
    {
      hide Canonical, Located, Split, Sum, Diff;
      start, size := start0, size0;
      ghost var q := Contents();
      ghost var good := Canonical(q) && start0 + size0 < WORD;
      i := Find(start);
      if i < count && start > list[i].start {
        if kind == list[i].kind {
          size := Sum(size, Diff(start, list[i].start));
          start := list[i].start;
          if good { LocatedMerge(q, start0, size0, kind, i); MergedSize(q, start0, size0, i); }
        } else {
          if good { LocatedSplit(q, start0, size0, kind, i); SumIs(start0, size0); }
          SplitAt(i, start, end);
          i := i + 1;
        }
      } else {
        if good { LocatedBetween(q, start0, size0, kind, i); }
      }
    }

    /** The second half of add_e820 up to the final insert. */
    method Trim(i: nat, end: nat, kind: nat, size0: nat, ghost start: nat) returns (size: nat)
      requires Valid() && i <= count
      modifies this`count, list
      ensures Valid() && i <= count && Contents()[..i] == old(Contents())[..i]
      ensures AllProper(old(Contents())) && Canonical(old(Contents())[i..]) && start + size0 == end ==>
        Trimmed(Above(old(Contents())[i..], end), end, kind, size0, Contents()[i..], size)
    {
      ghost var q := Contents();
      ghost var k := RemoveCovered(i, end);
      assert Contents()[i..] == q[k..] && Contents()[..i] == q[..i];
      assert i < count ==> Contents()[i] == q[k];
      if AllProper(q) && Canonical(q[i..]) { AboveCovered(q, end, i, k); }
      size := TrimFirst(i, end, kind, size0);
    }

    /**
     add_e820. Without 64-bit wrap-around a canonical list stays canonical, and the call is the
     point-wise update exactly when the canonical form of the updated map fits the array.
     */
    method Add(start0: nat, size0: nat, kind: nat)
      requires Valid() && start0 < WORD && size0 < WORD
      modifies this`count, list
      ensures Valid() && (size0 == 0 ==> Contents() == old(Contents()))
      ensures Canonical(old(Contents())) && start0 + size0 < WORD ==> AddSpec(old(Contents()), start0, size0, kind, Contents())
    {
      hide Canonical, Located, AddSpec, Above, Ideal, Trimmed, Sum;
      ghost var q := Contents();
      if size0 == 0 {
        if Canonical(q) { NoChange(q, start0, kind); }
        return;
      }
      ghost var good := Canonical(q) && start0 + size0 < WORD;
      var end := Sum(start0, size0);
      var i, start, size1 := Locate(start0, size0, kind, end);
      ghost var q1 := Contents();
      if good { LocatedProper(q, q1, start0, size0, kind, i, start, size1); SumIs(start0, size0); }
      var size := Trim(i, end, kind, size1, start);
      ghost var q2 := Contents();
      assert q2 == q1[..i] + q2[i..] && |q2| == count;
      if good { Finished(q, q1, start0, size0, kind, i, start, size1, q2[i..], size); }
      if kind != E820_HOLE {
        Insert(i, Entry(start, size, kind));
      }
      assert Contents() == Inserted(q1[..i], New(start, size, kind), q2[i..]);
    }

    /** Any sequence of add_e820 calls on an empty array; `lists` are the contents after each call. */
    method AddAll(calls: seq<Call>) returns (ghost lists: seq<seq<Entry>>)
      requires Valid() && Contents() == [] && Unwrapped(calls)
      modifies this`count, list
      ensures Valid() && Added(calls, lists) && Canonical(Contents()) && Contents() == lists[|calls|]
    {
      hide AddSpec, Canonical;
      lists := [[]];
      NoEntries();
      for i := 0 to |calls|
        invariant Valid() && Canonical(Contents()) && |lists| == i + 1 && Contents() == lists[i] && lists[0] == []
        invariant forall m, n :: 0 <= m < i && n == m + 1 ==> AddedOne(lists[m], calls[m], lists[n])
      {
        Add(calls[i].start, calls[i].size, calls[i].kind);
        SpecCanonical(lists[i], calls[i], Contents());
        lists := lists + [Contents()];
      }
    }

    /** find_high_area: the last suitable entry; stopping at the first that ends too low misses none. */
    method FindHighArea(size: nat) returns (r: int)
      requires Valid() && size < 0x1_0000_0000
      ensures -1 <= r < count
      ensures Canonical(Contents()) ==>
        && (r >= 0 ==> HighArea(Contents()[r], size))
        && forall k :: r < k < count ==> !HighArea(Contents()[k], size)
    {
      r := count - 1;
      while r >= 0
        invariant -1 <= r < count
        invariant Canonical(Contents()) ==> forall k :: r < k < count ==> !HighArea(Contents()[k], size)
      {
        var e := list[r];
        assert e == Contents()[r];
        var end := Sum(e.start, e.size);
        if e.kind == E820_RAM && end <= 0xffff_ffff && e.size >= size {
          if end < (0x10_0000 + size) % 0x1_0000_0000 {
            if Canonical(Contents()) { NoneLower(Contents(), r, size); }
            r := -1;
          }
          return;
        }
        r := r - 1;
      }
    }
  }

  lemma NoneLower(q: seq<Entry>, r: nat, size: nat)
    requires Canonical(q) && r < |q| && q[r].End() < (0x10_0000 + size) % 0x1_0000_0000
    ensures forall k :: 0 <= k <= r ==> !HighArea(q[k], size)
  {
    forall k | 0 <= k < r ensures q[k].End() < q[r].End() { Ordered(q, k, r); }
  }

  // ---- Sequences of calls ----

  predicate Unwrapped(calls: seq<Call>) { forall i :: 0 <= i < |calls| ==> calls[i].start + calls[i].size < WORD }

  ghost predicate AddedOne(q: seq<Entry>, c: Call, q': seq<Entry>) { AddSpec(q, c.start, c.size, c.kind, q') }

  /** What the array holds before the first call and after each one. */
  ghost predicate Added(calls: seq<Call>, lists: seq<seq<Entry>>) {
    && |lists| == |calls| + 1 && lists[0] == []
    && forall i, j :: 0 <= i < |calls| && j == i + 1 ==> AddedOne(lists[i], calls[i], lists[j])
  }

  /** The canonical list of the map fits the array after each call. */
  ghost predicate AllFit(calls: seq<Call>) { forall n :: 0 <= n <= |calls| ==> |Replay(calls[..n])| <= CONFIG_MAX_E820 }

  lemma NoEntries()
    ensures Canonical([])
  {
  }

  lemma SpecCanonical(q: seq<Entry>, c: Call, q': seq<Entry>)
    requires AddSpec(q, c.start, c.size, c.kind, q')
    ensures Canonical(q') && AddedOne(q, c, q')
  {
  }

  lemma ReplayNext(calls: seq<Call>, n: nat)
    requires n < |calls|
    ensures Replay(calls[..n + 1]) == Ideal(Replay(calls[..n]), calls[n].start, calls[n].size, calls[n].kind)
  {
    var cs := calls[..n + 1];
    assert cs[..|cs| - 1] == calls[..n];
  }

  lemma {:induction false} AddedIs(calls: seq<Call>, lists: seq<seq<Entry>>, n: nat)
    requires Added(calls, lists) && AllFit(calls) && n <= |calls|
    ensures lists[n] == Replay(calls[..n])
  {
    hide Ideal;
    if n == 0 {
      assert calls[..0] == [];
    } else {
      AddedIs(calls, lists, n - 1);
      ReplayNext(calls, n - 1);
      assert AddedOne(lists[n - 1], calls[n - 1], lists[n]);
    }
  }

  lemma AddedFits(calls: seq<Call>, lists: seq<seq<Entry>>, n: nat)
    requires Added(calls, lists) && n <= |calls| && forall m :: 0 <= m <= |calls| ==> lists[m] == Replay(calls[..m])
    ensures |Replay(calls[..n])| <= CONFIG_MAX_E820
  {
    hide Ideal;
    if n == 0 {
      assert calls[..0] == [];
    } else {
      ReplayNext(calls, n - 1);
      assert AddedOne(lists[n - 1], calls[n - 1], lists[n]);
      assert lists[n] == Replay(calls[..n]) && lists[n - 1] == Replay(calls[..n - 1]);
    }
  }

  /** The array holds the list of the map after every call if and only if that list fits after every call. */
  lemma AddedExact(calls: seq<Call>, lists: seq<seq<Entry>>)
    requires Added(calls, lists)
    ensures (forall n :: 0 <= n <= |calls| ==> lists[n] == Replay(calls[..n])) <==> AllFit(calls)
  {
    hide AddedOne, Replay;
    if AllFit(calls) {
      forall n | 0 <= n <= |calls| ensures lists[n] == Replay(calls[..n]) { AddedIs(calls, lists, n); }
    }
    if forall n :: 0 <= n <= |calls| ==> lists[n] == Replay(calls[..n]) {
      forall n | 0 <= n <= |calls| ensures |Replay(calls[..n])| <= CONFIG_MAX_E820 { AddedFits(calls, lists, n); }
    }
  }

  /** An address then has the type of the last call that covers it. */
  lemma ArrayTypes(calls: seq<Call>, lists: seq<seq<Entry>>, x: nat)
    requires Unwrapped(calls) && Added(calls, lists) && AllFit(calls)
    ensures TypeAt(lists[|calls|], x) == LastType(calls, x)
  {
    AddedIs(calls, lists, |calls|);
    assert calls[..|calls|] == calls;
    ReplayIs(calls);
  }

  /** Two arrays filled by different calls that make the same map hold the same entries. */
  lemma ArraysAgree(calls: seq<Call>, lists: seq<seq<Entry>>, other: seq<Call>, otherLists: seq<seq<Entry>>)
    requires Unwrapped(calls) && Added(calls, lists) && AllFit(calls)
    requires Unwrapped(other) && Added(other, otherLists) && AllFit(other)
    requires forall x: nat :: LastType(calls, x) == LastType(other, x)
    ensures lists[|calls|] == otherLists[|other|]
  {
    AddedIs(calls, lists, |calls|);
    AddedIs(other, otherLists, |other|);
    assert calls[..|calls|] == calls && other[..|other|] == other;
    HistoryIndependent(calls, other);
  }

  // ---- A full array ----

  /** An array that the updated map does not fit ends up with a wrong type at some address. */
  lemma OverflowIsVisible(q: seq<Entry>, start: nat, size: nat, kind: nat, result: seq<Entry>)
    requires Canonical(q) && size > 0 && start + size < WORD
    requires AddSpec(q, start, size, kind, result) && |Ideal(q, start, size, kind)| > CONFIG_MAX_E820
    ensures exists x: nat :: TypeAt(result, x) != Updated(q, start, size, kind, x)
  {
    var ideal := Ideal(q, start, size, kind);
    IdealCanonical(q, start, size, kind);
    if SameMap(result, ideal) { Unique(result, ideal); }
    var x: nat :| TypeAt(result, x) != TypeAt(ideal, x);
    IdealUpdates(q, start, size, kind, x);
  }

  /** Every second of 2 * n + 1 bytes from address 1 on. */
  ghost function Comb(n: nat): (q: seq<Entry>)
    ensures |q| == n
  {
    seq(n, (i: nat) => Entry(2 * i + 1, 1, E820_RAM))
  }

  lemma CombCanonical(n: nat)
    requires n <= 100
    ensures Canonical(Comb(n))
  {
  }

  /** A full array of 32 separate bytes of RAM: adding one more at the end does not fit. */
  lemma FullArrayFails(result: seq<Entry>)
    requires AddSpec(Comb(CONFIG_MAX_E820), 65, 1, E820_RAM, result)
    ensures exists x: nat :: TypeAt(result, x) != Updated(Comb(CONFIG_MAX_E820), 65, 1, E820_RAM, x)
  {
    hide Ideal, AddSpec;
    CombCanonical(CONFIG_MAX_E820);
    CombOverflows();
    OverflowIsVisible(Comb(CONFIG_MAX_E820), 65, 1, E820_RAM, result);
  }

  lemma CombOverflows()
    ensures Ideal(Comb(32), 65, 1, E820_RAM) == Comb(33) && |Comb(33)| > CONFIG_MAX_E820
  {
    hide Canonical, Glue, Comb;
    CombCanonical(32);
    CombAt();
    BelowAll(Comb(32), 65);
    AboveNone(Comb(32), 66);
    CombGlue();
  }

  lemma CombAt()
    ensures forall i :: 0 <= i < 32 ==> Comb(32)[i].start < Comb(32)[i].End() <= 65
  {
  }

  lemma CombGlue()
    ensures Glue(Glue(Comb(32), [Entry(65, 1, E820_RAM)]), []) == Comb(33)
  {
    assert Comb(33) == Comb(32) + [Entry(65, 1, E820_RAM)];
  }
}
