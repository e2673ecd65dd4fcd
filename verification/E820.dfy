/**
 The e820 memory map as a mathematical object: what a list of entries means, which lists are
 canonical, and the reference result of add_e820 by cutting and gluing.
 */
module E820 {
  import opened Words

  const E820_RAM: nat := 1
  const E820_HOLE: nat := 0xffff_ffff
  const CONFIG_MAX_E820 := 32

  datatype Entry = Entry(start: nat, size: nat, kind: nat) {
    function End(): nat { start + size }
  }

  /** The type that the map gives to an address. */
  function TypeAt(es: seq<Entry>, a: nat): Option<nat> {
    if es == [] then None
    else if es[0].start <= a < es[0].End() then Some(es[0].kind)
    else TypeAt(es[1..], a)
  }

  /** `x` ends before `y` starts, or they touch and differ in type. */
  predicate Apart(x: Entry, y: Entry) {
    x.End() < y.start || (x.End() == y.start && x.kind != y.kind)
  }

  predicate Proper(e: Entry) { e.size > 0 && e.End() < WORD && e.kind != E820_HOLE }

  /** Sorted, disjoint, no empty entry, no hole entry, and touching entries differ in type. */
  ghost predicate Canonical(es: seq<Entry>) {
    && (forall i :: 0 <= i < |es| ==> Proper(es[i]))
    && (forall i, j :: 0 <= i < j < |es| && j == i + 1 ==> Apart(es[i], es[j]))
  }

  // ---- Reference semantics ----

  function BelowOf(e: Entry, a: nat): seq<Entry> {
    if e.start >= a then [] else if e.End() <= a then [e] else [Entry(e.start, a - e.start, e.kind)]
  }

  /** The part of the map below `a`. */
  function Below(es: seq<Entry>, a: nat): seq<Entry> {
    if es == [] then [] else BelowOf(es[0], a) + Below(es[1..], a)
  }

  function AboveOf(e: Entry, a: nat): seq<Entry> {
    if e.End() <= a then [] else if e.start >= a then [e] else [Entry(a, e.End() - a, e.kind)]
  }

  /** The part of the map from `a` on. */
  function Above(es: seq<Entry>, a: nat): seq<Entry> {
    if es == [] then [] else AboveOf(es[0], a) + Above(es[1..], a)
  }

  /** Concatenation that merges the two entries at the seam if they touch and have one type. */
  function Glue(l: seq<Entry>, r: seq<Entry>): seq<Entry> {
    if l != [] && r != [] && l[|l| - 1].End() == r[0].start && l[|l| - 1].kind == r[0].kind
    then l[..|l| - 1] + [Entry(l[|l| - 1].start, l[|l| - 1].size + r[0].size, r[0].kind)] + r[1..]
    else l + r
  }

  function New(start: nat, size: nat, kind: nat): seq<Entry> {
    if kind == E820_HOLE then [] else [Entry(start, size, kind)]
  }

  /** What adding [start, start+size) with type `kind` should give. */
  function Ideal(es: seq<Entry>, start: nat, size: nat, kind: nat): seq<Entry> {
    if size == 0 then es
    else Glue(Glue(Below(es, start), New(start, size, kind)), Above(es, start + size))
  }

  // ---- Order in canonical lists ----

  lemma {:induction false} Ordered(es: seq<Entry>, i: nat, j: nat)
    requires Canonical(es) && i < j < |es|
    ensures es[i].End() <= es[j].start && es[i].End() < es[j].End()
    decreases j
  {
    if i + 1 < j { Ordered(es, i, j - 1); }
    assert Apart(es[j - 1], es[j]);
  }

  lemma CanonicalTail(es: seq<Entry>)
    requires Canonical(es) && es != []
    ensures Canonical(es[1..])
  {
  }

  /** The seam between two lists is in order. */
  ghost predicate Seam(l: seq<Entry>, r: seq<Entry>) {
    l != [] && r != [] ==> Apart(l[|l| - 1], r[0])
  }

  lemma CanonicalConcat(l: seq<Entry>, r: seq<Entry>)
    requires Canonical(l) && Canonical(r) && Seam(l, r)
    ensures Canonical(l + r)
  {
  }

  lemma CanonicalSlice(es: seq<Entry>, i: nat, j: nat)
    requires Canonical(es) && i <= j <= |es|
    ensures Canonical(es[i..j])
  {
  }

  // ---- Cutting ----

  lemma Assoc(x: seq<Entry>, y: seq<Entry>, z: seq<Entry>)
    ensures x + y + z == x + (y + z)
  {
  }

  lemma {:induction false} BelowConcat(l: seq<Entry>, r: seq<Entry>, a: nat)
    ensures Below(l + r, a) == Below(l, a) + Below(r, a)
  {
    if l == [] {
      assert l + r == r;
    } else {
      BelowConcat(l[1..], r, a);
      assert (l + r)[0] == l[0] && (l + r)[1..] == l[1..] + r;
      Assoc(BelowOf(l[0], a), Below(l[1..], a), Below(r, a));
    }
  }

  lemma {:induction false} AboveConcat(l: seq<Entry>, r: seq<Entry>, a: nat)
    ensures Above(l + r, a) == Above(l, a) + Above(r, a)
  {
    if l == [] {
      assert l + r == r;
    } else {
      AboveConcat(l[1..], r, a);
      assert (l + r)[0] == l[0] && (l + r)[1..] == l[1..] + r;
      Assoc(AboveOf(l[0], a), Above(l[1..], a), Above(r, a));
    }
  }

  lemma {:induction false} BelowAll(es: seq<Entry>, a: nat)
    requires forall i :: 0 <= i < |es| ==> es[i].start < a && es[i].End() <= a
    ensures Below(es, a) == es
  {
    if es != [] { BelowAll(es[1..], a); }
  }

  lemma {:induction false} BelowNone(es: seq<Entry>, a: nat)
    requires forall i :: 0 <= i < |es| ==> es[i].start >= a
    ensures Below(es, a) == []
  {
    if es != [] { BelowNone(es[1..], a); }
  }

  lemma {:induction false} AboveAll(es: seq<Entry>, a: nat)
    requires forall i :: 0 <= i < |es| ==> es[i].start >= a && es[i].End() > a
    ensures Above(es, a) == es
  {
    if es != [] { AboveAll(es[1..], a); }
  }

  lemma {:induction false} AboveNone(es: seq<Entry>, a: nat)
    requires forall i :: 0 <= i < |es| ==> es[i].End() <= a
    ensures Above(es, a) == []
  {
    if es != [] { AboveNone(es[1..], a); }
  }

  lemma {:induction false} BelowTypes(es: seq<Entry>, a: nat, x: nat)
    ensures TypeAt(Below(es, a), x) == if x < a then TypeAt(es, x) else None
  {
    if es != [] {
      BelowTypes(es[1..], a, x);
      ConcatTypes(BelowOf(es[0], a), Below(es[1..], a), x);
    }
  }

  lemma {:induction false} AboveTypes(es: seq<Entry>, a: nat, x: nat)
    ensures TypeAt(Above(es, a), x) == if x >= a then TypeAt(es, x) else None
  {
    if es != [] {
      AboveTypes(es[1..], a, x);
      ConcatTypes(AboveOf(es[0], a), Above(es[1..], a), x);
    }
  }

  lemma {:induction false} ConcatTypes(l: seq<Entry>, r: seq<Entry>, x: nat)
    ensures TypeAt(l + r, x) == if TypeAt(l, x).Some? then TypeAt(l, x) else TypeAt(r, x)
  {
    if l == [] {
      assert l + r == r;
    } else {
      ConcatTypes(l[1..], r, x);
      assert (l + r)[1..] == l[1..] + r;
    }
  }

  lemma GlueTypes(l: seq<Entry>, r: seq<Entry>, x: nat)
    ensures TypeAt(Glue(l, r), x) == if TypeAt(l, x).Some? then TypeAt(l, x) else TypeAt(r, x)
  {
    ConcatTypes(l, r, x);
    if Glue(l, r) != l + r { MergeTypes(l[..|l| - 1], l[|l| - 1], r[0], r[1..], x); AsParts(l, r); }
  }

  lemma AsParts(l: seq<Entry>, r: seq<Entry>)
    requires l != [] && r != []
    ensures l == l[..|l| - 1] + [l[|l| - 1]] && r == [r[0]] + r[1..]
  {
  }

  lemma MergeTypes(l: seq<Entry>, e: Entry, f: Entry, r: seq<Entry>, x: nat)
    requires e.End() == f.start && e.kind == f.kind
    ensures TypeAt(l + [Entry(e.start, e.size + f.size, f.kind)] + r, x)
         == if TypeAt(l + [e], x).Some? then TypeAt(l + [e], x) else TypeAt([f] + r, x)
  {
    var m := Entry(e.start, e.size + f.size, f.kind);
    ConcatTypes(l + [m], r, x);
    ConcatTypes(l, [m], x);
    ConcatTypes(l, [e], x);
    ConcatTypes([f], r, x);
  }

  /** The type of address `x` once [start, start+size) has been given the type `kind`. */
  function Updated(es: seq<Entry>, start: nat, size: nat, kind: nat, x: nat): Option<nat> {
    if start <= x < start + size then (if kind == E820_HOLE then None else Some(kind)) else TypeAt(es, x)
  }

  /** The reference result is the point-wise update of the map. */
  lemma IdealUpdates(es: seq<Entry>, start: nat, size: nat, kind: nat, x: nat)
    requires size > 0
    ensures TypeAt(Ideal(es, start, size, kind), x) == Updated(es, start, size, kind, x)
  {
    hide Below, Above, Glue;
    BelowTypes(es, start, x);
    AboveTypes(es, start + size, x);
    GlueTypes(Below(es, start), New(start, size, kind), x);
    GlueTypes(Glue(Below(es, start), New(start, size, kind)), Above(es, start + size), x);
  }

  // ---- A canonical list is determined by the map it stands for ----

  lemma {:induction false} NothingBefore(es: seq<Entry>, a: nat)
    requires Canonical(es) && (es != [] ==> a < es[0].start)
    ensures TypeAt(es, a) == None
  {
    if es != [] {
      CanonicalTail(es);
      if |es| > 1 { assert Apart(es[0], es[1]); }
      NothingBefore(es[1..], a);
    }
  }

  /** The address just after the first entry has another type or none. */
  lemma FirstEnds(es: seq<Entry>)
    requires Canonical(es) && es != []
    ensures TypeAt(es, es[0].End()) != Some(es[0].kind)
  {
    CanonicalTail(es);
    if |es| > 1 {
      assert Apart(es[0], es[1]);
      if es[0].End() < es[1].start { NothingBefore(es[1..], es[0].End()); }
    }
  }

  ghost predicate SameMap(es: seq<Entry>, fs: seq<Entry>) {
    forall x: nat :: TypeAt(es, x) == TypeAt(fs, x)
  }

  lemma SameFirst(es: seq<Entry>, fs: seq<Entry>)
    requires Canonical(es) && Canonical(fs) && SameMap(es, fs) && es != [] && fs != []
    ensures es[0] == fs[0]
  {
    var e, f := es[0], fs[0];
    assert TypeAt(es, e.start) == Some(e.kind) && TypeAt(fs, f.start) == Some(f.kind);
    if e.start < f.start { NothingBefore(fs, e.start); }
    if f.start < e.start { NothingBefore(es, f.start); }
    assert e.start == f.start && e.kind == f.kind;
    assert e.End() < f.End() ==> TypeAt(fs, e.End()) == Some(f.kind);
    assert f.End() < e.End() ==> TypeAt(es, f.End()) == Some(e.kind);
    FirstEnds(es);
    FirstEnds(fs);
  }

  lemma TailMap(es: seq<Entry>, x: nat)
    requires Canonical(es) && es != []
    ensures TypeAt(es[1..], x) == if es[0].start <= x < es[0].End() then None else TypeAt(es, x)
  {
    CanonicalTail(es);
    if |es| > 1 { assert Apart(es[0], es[1]); }
    if es[0].start <= x < es[0].End() { NothingBefore(es[1..], x); }
  }

  /** Two canonical lists of the same map are equal. */
  lemma {:induction false} Unique(es: seq<Entry>, fs: seq<Entry>)
    requires Canonical(es) && Canonical(fs) && SameMap(es, fs)
    ensures es == fs
  {
    if es != [] && fs != [] {
      SameFirst(es, fs);
      forall x: nat ensures TypeAt(es[1..], x) == TypeAt(fs[1..], x) {
        TailMap(es, x);
        TailMap(fs, x);
      }
      CanonicalTail(es);
      CanonicalTail(fs);
      Unique(es[1..], fs[1..]);
      assert es == [es[0]] + es[1..] && fs == [fs[0]] + fs[1..];
    } else {
      BothEmpty(es, fs);
    }
  }

  lemma BothEmpty(es: seq<Entry>, fs: seq<Entry>)
    requires Canonical(es) && Canonical(fs) && SameMap(es, fs)
    ensures es == [] <==> fs == []
  {
    assert es != [] ==> TypeAt(es, es[0].start) == Some(es[0].kind);
    assert fs != [] ==> TypeAt(fs, fs[0].start) == Some(fs[0].kind);
  }

  // ---- Cutting a canonical list at a position ----

  lemma Cut(es: seq<Entry>, i: nat)
    requires i < |es|
    ensures es == es[..i] + ([es[i]] + es[i + 1..])
  {
  }

  lemma Single(e: Entry, a: nat)
    ensures Below([e], a) == BelowOf(e, a) && Above([e], a) == AboveOf(e, a)
  {
    assert Below([], a) == [] && Above([], a) == [];
    assert [e][1..] == [];
  }

  /** The position that the first loop of add_e820 finds. */
  ghost predicate FirstTouched(es: seq<Entry>, a: nat, i: nat) {
    i <= |es| && (forall k :: 0 <= k < i ==> es[k].End() < a) && (i < |es| ==> a <= es[i].End())
  }

  lemma BelowAt(es: seq<Entry>, a: nat, i: nat)
    requires Canonical(es) && FirstTouched(es, a, i)
    ensures Below(es, a) == es[..i] + if i < |es| then BelowOf(es[i], a) else []
  {
    BelowAll(es[..i], a);
    if i < |es| {
      Cut(es, i);
      var rest := es[i + 1..];
      forall k | 0 <= k < |rest| ensures rest[k].start >= a { Ordered(es, i, i + 1 + k); }
      BelowNone(rest, a);
      Single(es[i], a);
      BelowConcat([es[i]], es[i + 1..], a);
      BelowConcat(es[..i], [es[i]] + es[i + 1..], a);
    } else {
      assert es[..i] == es;
    }
  }

  /** The first entry that reaches beyond `b`. */
  ghost predicate FirstBeyond(es: seq<Entry>, b: nat, j: nat) {
    j <= |es| && (forall k :: 0 <= k < j ==> es[k].End() <= b) && (j < |es| ==> b < es[j].End())
  }

  lemma AboveAt(es: seq<Entry>, b: nat, j: nat)
    requires Canonical(es) && FirstBeyond(es, b, j)
    ensures Above(es, b) == if j < |es| then AboveOf(es[j], b) + es[j + 1..] else []
  {
    AboveNone(es[..j], b);
    if j < |es| {
      Cut(es, j);
      var rest := es[j + 1..];
      forall k | 0 <= k < |rest| ensures rest[k].start >= b && rest[k].End() > b { Ordered(es, j, j + 1 + k); }
      AboveAll(rest, b);
      Single(es[j], b);
      AboveConcat([es[j]], es[j + 1..], b);
      AboveConcat(es[..j], [es[j]] + es[j + 1..], b);
    } else {
      assert es[..j] == es;
    }
  }

  ghost function TouchedFrom(es: seq<Entry>, a: nat, i: nat): (p: nat)
    requires i <= |es| && forall k :: 0 <= k < i ==> es[k].End() < a
    ensures FirstTouched(es, a, p)
    decreases |es| - i
  {
    if i < |es| && es[i].End() < a then TouchedFrom(es, a, i + 1) else i
  }

  ghost function BeyondFrom(es: seq<Entry>, b: nat, j: nat): (p: nat)
    requires j <= |es| && forall k :: 0 <= k < j ==> es[k].End() <= b
    ensures FirstBeyond(es, b, p)
    decreases |es| - j
  {
    if j < |es| && es[j].End() <= b then BeyondFrom(es, b, j + 1) else j
  }

  lemma BelowCanonical(es: seq<Entry>, a: nat)
    requires Canonical(es)
    ensures Canonical(Below(es, a)) && |Below(es, a)| <= |es|
    ensures forall k :: 0 <= k < |Below(es, a)| ==> Below(es, a)[k].End() <= a
  {
    var i := TouchedFrom(es, a, 0);
    BelowAt(es, a, i);
    CanonicalSlice(es, 0, i);
    if i < |es| {
      if i > 0 { assert Apart(es[i - 1], es[i]); }
      CanonicalConcat(es[..i], BelowOf(es[i], a));
    }
  }

  lemma AboveCanonical(es: seq<Entry>, b: nat)
    requires Canonical(es)
    ensures Canonical(Above(es, b)) && |Above(es, b)| <= |es|
    ensures forall k :: 0 <= k < |Above(es, b)| ==> Above(es, b)[k].start >= b
  {
    hide Above, BeyondFrom;
    var j := BeyondFrom(es, b, 0);
    AboveAt(es, b, j);
    if j < |es| { AboveRestCanonical(es, b, j); }
  }

  lemma AboveRestCanonical(es: seq<Entry>, b: nat, j: nat)
    requires Canonical(es) && j < |es| && b < es[j].End()
    ensures var r := AboveOf(es[j], b) + es[j + 1..];
      Canonical(r) && |r| <= |es| && forall k :: 0 <= k < |r| ==> r[k].start >= b
  {
    CanonicalSlice(es, j + 1, |es|);
    var rest := es[j + 1..];
    forall k | 0 <= k < |rest| ensures rest[k].start >= b { Ordered(es, j, j + 1 + k); }
    if j + 1 < |es| { assert Apart(es[j], es[j + 1]); }
    CanonicalConcat(AboveOf(es[j], b), rest);
  }

  ghost predicate InOrder(l: seq<Entry>, r: seq<Entry>) {
    l != [] && r != [] ==> l[|l| - 1].End() <= r[0].start
  }

  lemma GlueCanonical(l: seq<Entry>, r: seq<Entry>)
    requires Canonical(l) && Canonical(r) && InOrder(l, r)
    ensures Canonical(Glue(l, r)) && |Glue(l, r)| <= |l| + |r|
  {
    if Glue(l, r) == l + r {
      CanonicalConcat(l, r);
    } else {
      var n := |l| - 1;
      CanonicalSlice(l, 0, n);
      CanonicalSlice(r, 1, |r|);
      SeamCanonical(l[..n], l[n], r[0], r[1..], l, r);
    }
  }

  lemma SeamCanonical(l: seq<Entry>, x: Entry, y: Entry, r: seq<Entry>, lx: seq<Entry>, yr: seq<Entry>)
    requires lx == l + [x] && yr == [y] + r && Canonical(lx) && Canonical(yr) && Canonical(l) && Canonical(r)
    requires x.End() == y.start && x.kind == y.kind
    ensures Canonical(l + [Entry(x.start, x.size + y.size, y.kind)] + r)
  {
    var n, m := |l|, Entry(x.start, x.size + y.size, y.kind);
    assert lx[n] == x && Proper(lx[n]) && yr[0] == y && Proper(yr[0]);
    if n > 0 { assert Apart(lx[n - 1], lx[n]); }
    CanonicalConcat(l, [m]);
    if |r| > 0 { assert Apart(yr[0], yr[1]); }
    CanonicalConcat(l + [m], r);
  }

  /** The entries below and above a cut, together, exceed the list by at most one. */
  lemma CutGrowth(es: seq<Entry>, a: nat, b: nat)
    requires Canonical(es) && a <= b
    ensures |Below(es, a)| + |Above(es, b)| <= |es| + 1
  {
    var i, j := TouchedFrom(es, a, 0), BeyondFrom(es, b, 0);
    BelowAt(es, a, i);
    AboveAt(es, b, j);
  }

  lemma NewCanonical(start: nat, size: nat, kind: nat)
    requires size > 0 && start + size < WORD
    ensures Canonical(New(start, size, kind))
  {
  }

  lemma GlueEnds(l: seq<Entry>, r: seq<Entry>, b: nat)
    requires (forall k :: 0 <= k < |l| ==> l[k].End() <= b) && forall k :: 0 <= k < |r| ==> r[k].End() <= b
    ensures InOrder(l, r) ==> forall k :: 0 <= k < |Glue(l, r)| ==> Glue(l, r)[k].End() <= b
  {
  }

  /** The reference result is canonical and has at most two entries more. */
  lemma IdealCanonical(es: seq<Entry>, start: nat, size: nat, kind: nat)
    requires Canonical(es) && start + size < WORD
    ensures Canonical(Ideal(es, start, size, kind)) && |Ideal(es, start, size, kind)| <= |es| + 2
  {
    hide Below, Above, Glue, Canonical;
    if size > 0 {
      NewCanonical(start, size, kind);
      BelowCanonical(es, start);
      AboveCanonical(es, start + size);
      CutGrowth(es, start, start + size);
      var l := Glue(Below(es, start), New(start, size, kind));
      GlueCanonical(Below(es, start), New(start, size, kind));
      GlueEnds(Below(es, start), New(start, size, kind), start + size);
      GlueCanonical(l, Above(es, start + size));
    }
  }

  // ---- Sequences of calls ----

  datatype Call = Call(start: nat, size: nat, kind: nat)

  function Replay(calls: seq<Call>): seq<Entry> {
    if calls == [] then []
    else
      var c := calls[|calls| - 1];
      Ideal(Replay(calls[..|calls| - 1]), c.start, c.size, c.kind)
  }

  /** The type of an address after the calls: that of the last call that covers it. */
  function LastType(calls: seq<Call>, x: nat): Option<nat> {
    if calls == [] then None
    else
      var c := calls[|calls| - 1];
      if c.start <= x < c.start + c.size then (if c.kind == E820_HOLE then None else Some(c.kind))
      else LastType(calls[..|calls| - 1], x)
  }

  lemma {:induction false} ReplayIs(calls: seq<Call>)
    requires forall i :: 0 <= i < |calls| ==> calls[i].start + calls[i].size < WORD
    ensures Canonical(Replay(calls)) && forall x: nat :: TypeAt(Replay(calls), x) == LastType(calls, x)
  {
    if calls != [] {
      var c, rest := calls[|calls| - 1], calls[..|calls| - 1];
      ReplayIs(rest);
      IdealCanonical(Replay(rest), c.start, c.size, c.kind);
      forall x: nat ensures TypeAt(Replay(calls), x) == LastType(calls, x) {
        if c.size > 0 { IdealUpdates(Replay(rest), c.start, c.size, c.kind, x); }
      }
    }
  }

  /** The list depends on the map only, not on the calls that built it. */
  lemma HistoryIndependent(calls: seq<Call>, other: seq<Call>)
    requires forall i :: 0 <= i < |calls| ==> calls[i].start + calls[i].size < WORD
    requires forall i :: 0 <= i < |other| ==> other[i].start + other[i].size < WORD
    requires forall x: nat :: LastType(calls, x) == LastType(other, x)
    ensures Replay(calls) == Replay(other)
  {
    ReplayIs(calls);
    ReplayIs(other);
    Unique(Replay(calls), Replay(other));
  }
}
