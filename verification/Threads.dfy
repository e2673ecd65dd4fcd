/**
 The cooperative threads of bios/seabios/src/stacks.c: a circular list with back pointers, in which
 the running thread is the current position.
 */
module Threads {

  type Tid = nat
  const MAIN: Tid := 0

  /** The threads in the order in which they get their turns, the running one first. */
  type Ring = seq<Tid>

  function Set(r: Ring): set<Tid> { set t | t in r }

  ghost predicate Distinct(r: Ring) { forall i, j :: 0 <= i < j < |r| ==> r[i] != r[j] }

  // ---- What the operations do to the order ----

  datatype Op = Spawn(t: Tid) | Yield | Exit

  /** Threads come with a stack of their own that no live thread uses; the main thread never ends. */
  predicate Legal(r: Ring, op: Op) {
    && r != []
    && (op.Spawn? ==> op.t !in r && op.t != MAIN)
    && (op.Exit? ==> r[0] != MAIN)
  }

  function Apply(r: Ring, op: Op): Ring
    requires Legal(r, op)
  {
    match op
    case Spawn(t) => [t] + r
    case Yield => r[1..] + [r[0]]
    case Exit => r[1..]
  }

  ghost predicate Good(r: Ring) { Distinct(r) && MAIN in r }

  lemma HeadAndTail(r: Ring)
    requires r != [] && Distinct(r)
    ensures Distinct(r[1..]) && r[0] !in r[1..] && forall t :: t in r <==> t == r[0] || t in r[1..]
  {
    assert r == [r[0]] + r[1..];
  }

  lemma ApplyMembers(r: Ring, op: Op, x: Tid)
    requires Distinct(r) && Legal(r, op)
    ensures x in Apply(r, op) <==> (match op case Spawn(t) => x == t || x in r case Yield => x in r case Exit => x in r && x != r[0])
  {
    HeadAndTail(r);
  }

  lemma ApplyDistinct(r: Ring, op: Op)
    requires Distinct(r) && Legal(r, op)
    ensures Distinct(Apply(r, op))
  {
    HeadAndTail(r);
  }

  lemma ApplyGood(r: Ring, op: Op)
    requires Good(r) && Legal(r, op)
    ensures Good(Apply(r, op))
    ensures Set(Apply(r, op)) == (match op case Spawn(t) => Set(r) + {t} case Yield => Set(r) case Exit => Set(r) - {r[0]})
  {
    hide Apply, Distinct;
    ApplyDistinct(r, op);
    forall x ensures x in Apply(r, op) <==> (match op case Spawn(t) => x == t || x in r case Yield => x in r case Exit => x in r && x != r[0]) {
      ApplyMembers(r, op, x);
    }
  }

  // ---- The list itself ----

  function Succ(i: nat, n: nat): nat
    requires i < n
  {
    if i + 1 == n then 0 else i + 1
  }

  function Pred(i: nat, n: nat): nat
    requires i < n
  {
    if i == 0 then n - 1 else i - 1
  }

  /** `pprev` of a thread names the thread whose next field points to it. */
  ghost predicate LinkedAt(next: map<Tid, Tid>, pprev: map<Tid, Tid>, r: Ring, i: nat)
    requires i < |r|
  {
    && r[i] in next && next[r[i]] == r[Succ(i, |r|)]
    && r[i] in pprev && pprev[r[i]] == r[Pred(i, |r|)]
  }

  ghost predicate Linked(next: map<Tid, Tid>, pprev: map<Tid, Tid>, r: Ring) {
    && r != [] && Distinct(r) && next.Keys == Set(r) && pprev.Keys == Set(r)
    && forall i :: 0 <= i < |r| ==> LinkedAt(next, pprev, r, i)
  }

  lemma YieldLinked(next: map<Tid, Tid>, pprev: map<Tid, Tid>, r: Ring)
    requires Linked(next, pprev, r)
    ensures Linked(next, pprev, Apply(r, Yield)) && next[r[0]] == Apply(r, Yield)[0]
  {
    hide Apply, Set, Distinct;
    var r', n := Apply(r, Yield), |r|;
    RotatedAt(r);
    forall i | 0 <= i < n ensures LinkedAt(next, pprev, r', i) { assert LinkedAt(next, pprev, r, Succ(i, n)); }
    assert LinkedAt(next, pprev, r, 0);
  }

  lemma RotatedAt(r: Ring)
    requires r != [] && Distinct(r)
    ensures var r' := Apply(r, Yield); |r'| == |r| && Distinct(r') && Set(r') == Set(r) && forall i :: 0 <= i < |r| ==> r'[i] == r[Succ(i, |r|)]
  {
    assert r == [r[0]] + r[1..];
  }

  /** run_thread puts the new thread between the running one and its predecessor. */
  lemma SpawnLinked(next: map<Tid, Tid>, pprev: map<Tid, Tid>, r: Ring, t: Tid)
    requires Linked(next, pprev, r) && t !in r
    ensures r[0] in pprev && Linked(next[t := r[0]][pprev[r[0]] := t], pprev[t := pprev[r[0]]][r[0] := t], [t] + r)
  {
    var r', n := [t] + r, |r|;
    assert LinkedAt(next, pprev, r, 0);
    var last := pprev[r[0]];
    var next', pprev' := next[t := r[0]][last := t], pprev[t := last][r[0] := t];
    forall i | 0 <= i < n + 1 ensures LinkedAt(next', pprev', r', i) {
      if i > 0 { assert LinkedAt(next, pprev, r, i - 1) && r'[i] == r[i - 1]; }
    }
    assert forall x :: x in r' <==> x == t || x in r;
  }

  /** __end_thread takes the ended thread out of the list. */
  lemma ExitLinked(next: map<Tid, Tid>, pprev: map<Tid, Tid>, r: Ring)
    requires Linked(next, pprev, r) && |r| > 1
    ensures r[0] in next && r[0] in pprev
    ensures var old', after, before := r[0], next[r[0]], pprev[r[0]];
      after == r[1] && before == r[|r| - 1] && Linked(next[before := after] - {old'}, pprev[after := before] - {old'}, r[1..])
  {
    assert LinkedAt(next, pprev, r, 0);
    var after, before := next[r[0]], pprev[r[0]];
    var next', pprev' := next[before := after] - {r[0]}, pprev[after := before] - {r[0]};
    hide LinkedAt, Distinct, Set;
    forall i | 0 <= i < |r| - 1 ensures LinkedAt(next', pprev', r[1..], i) { ExitAt(next, pprev, r, i); }
    SetOfTail(r);
    InSet(r, |r| - 1);
    InSet(r, 1);
  }

  lemma ExitAt(next: map<Tid, Tid>, pprev: map<Tid, Tid>, r: Ring, i: nat)
    requires Distinct(r) && i + 1 < |r| && LinkedAt(next, pprev, r, 0) && LinkedAt(next, pprev, r, i + 1)
    ensures LinkedAt(next[pprev[r[0]] := next[r[0]]] - {r[0]}, pprev[next[r[0]] := pprev[r[0]]] - {r[0]}, r[1..], i)
  {
  }

  lemma SetOfTail(r: Ring)
    requires r != [] && Distinct(r)
    ensures Set(r[1..]) == Set(r) - {r[0]}
  {
    HeadAndTail(r);
  }

  lemma InSet(r: Ring, i: nat)
    requires i < |r|
    ensures r[i] in Set(r)
  {
  }

  /** The test of wait_threads: the main thread is its own successor only if it is alone. */
  lemma AloneIff(next: map<Tid, Tid>, pprev: map<Tid, Tid>, r: Ring)
    requires Linked(next, pprev, r) && Good(r)
    ensures MAIN in next && (next[MAIN] == MAIN <==> r == [MAIN])
  {
    var i :| 0 <= i < |r| && r[i] == MAIN;
    assert LinkedAt(next, pprev, r, i);
  }

  class ThreadList {
    var next: map<Tid, Tid>
    var pprev: map<Tid, Tid>
    var cur: Tid
    ghost var ring: Ring

    ghost predicate Valid()
      reads this
    {
      Linked(next, pprev, ring) && Good(ring) && cur == ring[0]
    }

    /** thread_setup */
    constructor ()
      ensures Valid() && ring == [MAIN]
    {
      next, pprev, cur, ring := map[MAIN := MAIN], map[MAIN := MAIN], MAIN, [MAIN];
      new;
      assert forall i :: 0 <= i < |ring| ==> LinkedAt(next, pprev, ring, i);
    }

    /** run_thread with a stack at `t`: the new thread runs at once. */
    method Spawn(t: Tid)
      requires Valid() && Legal(ring, Op.Spawn(t))
      modifies this
      ensures Valid() && ring == Apply(old(ring), Op.Spawn(t))
    {
      SpawnLinked(next, pprev, ring, t);
      ApplyGood(ring, Op.Spawn(t));
      next := next[t := cur];
      pprev := pprev[t := pprev[cur]];
      pprev := pprev[cur := t];
      next := next[pprev[t] := t];
      ring := [t] + ring;
      cur := t;
    }

    /** switch_next */
    method Yield()
      requires Valid()
      modifies this
      ensures Valid() && ring == Apply(old(ring), Op.Yield)
    {
      YieldLinked(next, pprev, ring);
      ApplyGood(ring, Op.Yield);
      ring := Apply(ring, Op.Yield);
      if next[cur] == cur { return; }
      cur := next[cur];
    }

    /** The end of a thread's function, and __end_thread on the next thread's stack. */
    method Exit()
      requires Valid() && Legal(ring, Op.Exit)
      modifies this
      ensures Valid() && ring == Apply(old(ring), Op.Exit)
    {
      MoreThanOne(ring);
      ExitLinked(next, pprev, ring);
      ApplyGood(ring, Op.Exit);
      var ended := cur;
      cur := next[ended];
      pprev := pprev[next[ended] := pprev[ended]];
      next := next[pprev[ended] := next[ended]];
      next, pprev := next - {ended}, pprev - {ended};
      ring := ring[1..];
    }

    /** The loop condition of wait_threads, negated. */
    method MainIsAlone() returns (alone: bool)
      requires Valid()
      ensures alone <==> ring == [MAIN]
    {
      AloneIff(next, pprev, ring);
      alone := next[MAIN] == MAIN;
    }
  }

  lemma MoreThanOne(r: Ring)
    requires Good(r) && r != [] && r[0] != MAIN
    ensures |r| > 1
  {
  }

  // ---- Turns over a run ----

  datatype Trace = Trace(rings: seq<Ring>, ops: seq<Op>)

  ghost predicate Takes(r: Ring, op: Op, r': Ring) { Legal(r, op) && r' == Apply(r, op) }

  ghost predicate IsRun(run: Trace) {
    && |run.rings| == |run.ops| + 1 && Good(run.rings[0])
    && forall i, j :: 0 <= i < |run.ops| && j == i + 1 ==> Takes(run.rings[i], run.ops[i], run.rings[j])
  }

  lemma {:induction false} AlwaysGood(run: Trace, m: nat)
    requires IsRun(run) && m <= |run.ops|
    ensures Good(run.rings[m])
  {
    if m > 0 {
      AlwaysGood(run, m - 1);
      assert Takes(run.rings[m - 1], run.ops[m - 1], run.rings[m]);
      ApplyGood(run.rings[m - 1], run.ops[m - 1]);
    }
  }

  ghost predicate Runs(run: Trace, k: nat, t: Tid) { k < |run.rings| && run.rings[k] != [] && run.rings[k][0] == t }

  ghost predicate HadTurn(run: Trace, i: nat, j: nat, t: Tid) { exists k :: i < k < j && Runs(run, k, t) }

  /** Everyone behind the thread that yielded at `i` has had a turn since. */
  ghost predicate BehindHadTurns(run: Trace, i: nat, m: nat, p: nat)
    requires m < |run.rings|
  {
    forall q :: p < q < |run.rings[m]| ==> HadTurn(run, i, m, run.rings[m][q])
  }

  lemma {:induction false} Behind(run: Trace, i: nat, m: nat, x: Tid) returns (p: nat)
    requires IsRun(run) && i < m <= |run.ops| && run.ops[i] == Yield && Runs(run, i, x)
    requires forall k :: i < k < m ==> !Runs(run, k, x)
    ensures p < |run.rings[m]| && run.rings[m][p] == x && BehindHadTurns(run, i, m, p)
    decreases m
  {
    assert Takes(run.rings[m - 1], run.ops[m - 1], run.rings[m]);
    if m == i + 1 {
      p := |run.rings[m]| - 1;
    } else {
      var p0 := Behind(run, i, m - 1, x);
      assert !Runs(run, m - 1, x);
      p := BehindNext(run, i, m - 1, x, p0);
    }
  }

  lemma BehindNext(run: Trace, i: nat, m: nat, x: Tid, p: nat) returns (p': nat)
    requires IsRun(run) && i < m < |run.ops| && 0 < p < |run.rings[m]| && run.rings[m][p] == x && BehindHadTurns(run, i, m, p)
    ensures p' < |run.rings[m + 1]| && run.rings[m + 1][p'] == x && BehindHadTurns(run, i, m + 1, p')
  {
    var r, r' := run.rings[m], run.rings[m + 1];
    assert Takes(r, run.ops[m], r');
    p' := if run.ops[m].Spawn? then p + 1 else p - 1;
    assert r'[p'] == x;
    forall q | p' < q < |r'| ensures HadTurn(run, i, m + 1, r'[q]) {
      if run.ops[m].Yield? && q == |r'| - 1 {
        assert Runs(run, m, r'[q]);
      } else {
        var q0 := if run.ops[m].Spawn? then q - 1 else q + 1;
        assert r'[q] == r[q0] && HadTurn(run, i, m, r[q0]);
      }
    }
  }

  /** A thread that yields does not run again before every other surviving thread has had a turn. */
  lemma EveryoneHasATurn(run: Trace, i: nat, j: nat, x: Tid, y: Tid)
    requires IsRun(run) && i < j <= |run.ops| && run.ops[i] == Yield && Runs(run, i, x) && Runs(run, j, x)
    requires forall k :: i < k < j ==> !Runs(run, k, x)
    requires y in run.rings[j] && y != x
    ensures HadTurn(run, i, j, y)
  {
    var p := Behind(run, i, j, x);
    AlwaysGood(run, j);
    var q :| 0 <= q < |run.rings[j]| && run.rings[j][q] == y;
    assert p == 0;
  }

  /** The threads there were when one of them started another: still together and in order, from position `p` on. */
  ghost predicate BlockAt(run: Trace, i: nat, m: nat, p: nat)
    requires i < |run.rings| && m < |run.rings|
  {
    p + |run.rings[i]| <= |run.rings[m]| && run.rings[m][p..p + |run.rings[i]|] == run.rings[i]
  }

  lemma {:induction false} Block(run: Trace, i: nat, m: nat, x: Tid) returns (p: nat)
    requires IsRun(run) && i < m <= |run.ops| && run.ops[i].Spawn? && Runs(run, i, x)
    requires forall k :: i < k < m ==> !Runs(run, k, x)
    ensures BlockAt(run, i, m, p)
    decreases m
  {
    assert Takes(run.rings[m - 1], run.ops[m - 1], run.rings[m]);
    if m == i + 1 {
      p := 1;
    } else {
      var p0 := Block(run, i, m - 1, x);
      assert !Runs(run, m - 1, x) && run.rings[m - 1][p0] == run.rings[i][0];
      p := if run.ops[m - 1].Spawn? then p0 + 1 else p0 - 1;
    }
  }

  /** Until the thread that started another one runs again, none of the threads there were has a turn. */
  lemma NobodyHasATurn(run: Trace, i: nat, k: nat, x: Tid, y: Tid)
    requires IsRun(run) && i < k <= |run.ops| && run.ops[i].Spawn? && Runs(run, i, x) && y in run.rings[i]
    requires forall m :: i < m <= k ==> !Runs(run, m, x)
    ensures !Runs(run, k, y)
  {
    var p := Block(run, i, k, x);
    AlwaysGood(run, k);
    var q :| 0 <= q < |run.rings[i]| && run.rings[i][q] == y;
    assert run.rings[k][p + q] == run.rings[i][q];
    assert run.rings[k][p] == run.rings[i][0];
  }

  /**
   Between two turns of a thread that survives the first one, another thread there throughout
   has a turn if and only if the first turn ended with a yield.
   */
  lemma TurnIffYield(run: Trace, i: nat, j: nat, x: Tid, y: Tid)
    requires IsRun(run) && i < j <= |run.ops| && run.ops[i] != Exit && Runs(run, i, x) && Runs(run, j, x)
    requires forall k :: i < k < j ==> !Runs(run, k, x)
    requires y in run.rings[i] && y in run.rings[j] && y != x
    ensures HadTurn(run, i, j, y) <==> run.ops[i] == Yield
  {
    if run.ops[i] == Yield {
      EveryoneHasATurn(run, i, j, x, y);
    } else {
      forall k | i < k < j ensures !Runs(run, k, y) { NobodyHasATurn(run, i, k, x, y); }
    }
  }

  /** A thread that starts another one comes back as soon as that one yields: the others need not have had a turn. */
  lemma StarterComesBack()
    ensures var run := Trace([[MAIN, 1], [2, MAIN, 1], [MAIN, 1, 2]], [Spawn(2), Yield]);
      IsRun(run) && Runs(run, 0, MAIN) && Runs(run, 2, MAIN) && 1 in run.rings[2] && !HadTurn(run, 0, 2, 1)
  {
    var run := Trace([[MAIN, 1], [2, MAIN, 1], [MAIN, 1, 2]], [Spawn(2), Yield]);
    assert Takes(run.rings[0], run.ops[0], run.rings[1]);
    assert Takes(run.rings[1], run.ops[1], run.rings[2]);
  }
}
