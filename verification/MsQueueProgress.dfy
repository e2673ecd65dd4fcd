/**
 Lock-freedom of the retry loops, with a bound.
 */
module MsQueueProgress {
  import opened Counting
  import opened MsQueue
  import opened MsQueueInvariant
  import opened MsQueueFifo

  /** The step sends its thread back to the top of its loop. */
  predicate Retries(s: State, lb: Label)
    requires Enabled(s, lb) && SafeLabel(s, lb)
  {
    lb.a.Exec? && RetriesAt(s.mem, s.threads[lb.t])
  }

  predicate RetriesAt(m: Mem, l: Local)
    requires Safe(m, l)
  {
    l.pc in {EnqHelp, DeqHelp} || (l.pc in {EnqCheck, EnqLink, DeqCheck, DeqSwing} && !Succeeds(m, l))
  }

  ghost function RetryCount(r: Trace, n: nat, t: Tid): nat
    requires IsRun(r) && n <= |r.steps|
  {
    if n == 0 then 0
    else
      assert Takes(r.states[n - 1], r.steps[n - 1], r.states[n]);
      RetryCount(r, n - 1, t) + (if r.steps[n - 1].t == t && Retries(r.states[n - 1], r.steps[n - 1]) then 1 else 0)
  }

  ghost function EnqueuesStarted(r: Trace, n: nat): nat
    requires IsRun(r) && n <= |r.steps|
  {
    if n == 0 then 0
    else EnqueuesStarted(r, n - 1) + (if r.steps[n - 1].a.StartEnq? then 1 else 0)
  }

  /** Successful changes of Head, of Tail and of next fields so far. */
  ghost function Changes(m: Mem, c: seq<Id>): nat
    requires Chain(m, c)
  {
    m.head.tag + m.tail.tag + |c| - 1
  }

  /** Everything loaded in this iteration is still what the memory holds. */
  ghost predicate UpToDate(m: Mem, l: Local) {
    && (l.pc in {EnqTail, EnqNext, EnqAgain, EnqCheck, EnqLink, EnqHelp} ==>
          Agrees(l.tail, m.tail) && NextAgrees(m, l.tail.ref, l.next))
    && (l.pc in {DeqHead, DeqTail, DeqNext, DeqAgain, DeqCheck, DeqHelp, DeqValue, DeqSwing} ==>
          Agrees(l.head, m.head) && Agrees(l.tail, m.tail) && NextAgrees(m, l.head.ref, l.next))
  }

  ghost predicate NextAgrees(m: Mem, from: Half<Ref>, next: Snap) {
    next != EMPTY ==> Valid(m.nodes, from) && Agrees(next, m.nodes[from.v.id].next)
  }

  /** If nothing has changed since `mark`, the iteration is up to date. */
  ghost predicate Undisturbed(m: Mem, c: seq<Id>, l: Local, mark: nat)
    requires Chain(m, c)
  {
    Changes(m, c) == mark ==> UpToDate(m, l)
  }

  lemma OtherKeeps(m: Mem, c: seq<Id>, m': Mem, c': seq<Id>, l: Local, mark: nat)
    requires Evolves(m, c, m', c') && Undisturbed(m, c, l, mark) && mark <= Changes(m, c)
    ensures Changes(m, c) <= Changes(m', c') && Undisturbed(m', c', l, mark)
  {
    if Changes(m', c') == Changes(m, c) { assert c' == c; }
  }

  lemma LoadKeeps(m: Mem, c: seq<Id>, l: Local, w: Snap, mark: nat)
    requires Chain(m, c) && LocalInv(m, c, l) && IsLoad(l.pc) && Safe(m, l) && Loaded(m, l, w)
    requires Undisturbed(m, c, l, mark)
    ensures Undisturbed(m, c, Store(l, w), mark)
  {
  }

  /** A failed iteration overlaps a successful change of Head, Tail or a next field. */
  lemma FailureHasCause(m: Mem, c: seq<Id>, l: Local, mark: nat)
    requires Chain(m, c) && LocalInv(m, c, l) && Safe(m, l) && RetriesAt(m, l)
    requires mark <= Changes(m, c) && Undisturbed(m, c, l, mark)
    ensures Good(m, c, l, Run(m, l))
    ensures mark < Changes(Run(m, l).mem, Grow(m, c, l))
  {
    hide Evolves;
    RunInv(m, c, l);
    if mark == Changes(m, c) {
      assert UpToDate(m, l);
      assert Succeeds(m, l);
    }
  }

  lemma ExecKeeps(m: Mem, c: seq<Id>, l: Local, mark: nat)
    requires Chain(m, c) && LocalInv(m, c, l) && Safe(m, l) && !IsLoad(l.pc) && !RetriesAt(m, l)
    requires mark <= Changes(m, c) && Undisturbed(m, c, l, mark)
    ensures Good(m, c, l, Run(m, l))
    ensures Run(m, l).Stay? ==> Undisturbed(Run(m, l).mem, Grow(m, c, l), Run(m, l).local, mark)
  {
    hide Evolves, LocalInv, UpToDate, Run, Safe;
    RunInv(m, c, l);
    OtherKeeps(m, c, Run(m, l).mem, Grow(m, c, l), l, mark);
    if Run(m, l).Stay? && UpToDate(m, l) { ExecUpToDate(m, c, l); }
  }

  lemma ExecUpToDate(m: Mem, c: seq<Id>, l: Local)
    requires LocalInv(m, c, l) && Safe(m, l) && !IsLoad(l.pc) && !RetriesAt(m, l) && Run(m, l).Stay? && UpToDate(m, l)
    ensures UpToDate(Run(m, l).mem, Run(m, l).local)
  {
  }

  // ---- Whole runs ----

  ghost function ChangesAt(r: Trace, n: nat): nat
    requires IsRun(r) && n <= |r.steps|
  {
    Reachable(r, n);
    Changes(r.states[n].mem, Order(r, n))
  }

  /** The number of changes when `t` last entered the top of a retry loop. */
  ghost function Mark(r: Trace, n: nat, t: Tid): nat
    requires IsRun(r) && n <= |r.steps|
  {
    if n == 0 then 0
    else
      assert Takes(r.states[n - 1], r.steps[n - 1], r.states[n]);
      if r.steps[n - 1].t == t && (t !in r.states[n - 1].threads || Retries(r.states[n - 1], r.steps[n - 1]))
      then ChangesAt(r, n)
      else Mark(r, n - 1, t)
  }

  ghost predicate Tracked(r: Trace, n: nat, t: Tid)
    requires IsRun(r) && n <= |r.steps|
  {
    Reachable(r, n);
    && RetryCount(r, n, t) <= Mark(r, n, t) <= ChangesAt(r, n)
    && (t in r.states[n].threads ==>
          Undisturbed(r.states[n].mem, Order(r, n), r.states[n].threads[t], Mark(r, n, t)))
  }

  lemma OtherTracked(r: Trace, n: nat, t: Tid)
    requires IsRun(r) && n < |r.steps| && Tracked(r, n, t) && r.steps[n].t != t
    ensures Tracked(r, n + 1, t)
  {
    Reachable(r, n);
    Reachable(r, n + 1);
    MemStep(r, n);
    if t in r.states[n].threads {
      OtherKeeps(r.states[n].mem, Order(r, n), r.states[n + 1].mem, Order(r, n + 1), r.states[n].threads[t], Mark(r, n, t));
    }
  }

  lemma StartTracked(r: Trace, n: nat, t: Tid)
    requires IsRun(r) && n < |r.steps| && Tracked(r, n, t) && r.steps[n].t == t && t !in r.states[n].threads
    ensures Tracked(r, n + 1, t)
  {
    hide LocalInv, EnqInv, DeqInv, Private, Run, Order;
    Reachable(r, n);
    Reachable(r, n + 1);
    MemStep(r, n);
  }

  lemma LoadTracked(r: Trace, n: nat, t: Tid)
    requires IsRun(r) && n < |r.steps| && Tracked(r, n, t) && r.steps[n].t == t && t in r.states[n].threads
    requires !r.steps[n].a.Exec?
    ensures Tracked(r, n + 1, t)
  {
    hide LocalInv, EnqInv, DeqInv, Private;
    MemStep(r, n);
    ThreadInv(r, n, t);
    ThreadInv(r, n + 1, t);
    var m, c, l := r.states[n].mem, Order(r, n), r.states[n].threads[t];
    var w := if r.steps[n].a.LoadRef? then Dest(l).(ref := Read(Source(m, l).ref))
             else Dest(l).(tag := Read(Source(m, l).tag));
    LoadKeeps(m, c, l, w, Mark(r, n, t));
  }

  lemma RetryTop(m: Mem, l: Local)
    requires Safe(m, l) && RetriesAt(m, l)
    ensures Run(m, l).Stay? && UpToDate(Run(m, l).mem, Run(m, l).local)
  {
  }

  lemma ExecResult(r: Trace, n: nat, t: Tid)
    requires IsRun(r) && n < |r.steps| && r.steps[n] == Label(t, Exec) && Takes(r.states[n], r.steps[n], r.states[n + 1])
    ensures t in r.states[n].threads && Safe(r.states[n].mem, r.states[n].threads[t])
    ensures var m, l := r.states[n].mem, r.states[n].threads[t];
      && r.states[n + 1].mem == Run(m, l).mem && Order(r, n + 1) == Grow(m, Order(r, n), l)
      && (Run(m, l).Stay? ==> t in r.states[n + 1].threads && r.states[n + 1].threads[t] == Run(m, l).local)
  {
    hide Run, Safe, IsRun;
  }

  lemma RetryCounts(r: Trace, n: nat, t: Tid)
    requires IsRun(r) && n < |r.steps| && r.steps[n].t == t && Takes(r.states[n], r.steps[n], r.states[n + 1])
    requires Retries(r.states[n], r.steps[n])
    ensures RetryCount(r, n + 1, t) == RetryCount(r, n, t) + 1 && Mark(r, n + 1, t) == ChangesAt(r, n + 1)
  {
    hide IsRun, Takes, Retries, ChangesAt;
  }

  lemma RetryTracked(r: Trace, n: nat, t: Tid)
    requires IsRun(r) && n < |r.steps| && Tracked(r, n, t) && r.steps[n] == Label(t, Exec)
    requires Takes(r.states[n], r.steps[n], r.states[n + 1]) && Retries(r.states[n], r.steps[n])
    ensures Tracked(r, n + 1, t)
  {
    hide Takes, Run, Safe, Order, Mark, RetryCount, LocalInv, Inv, Chain, Changes, UpToDate;
    ExecResult(r, n, t);
    RetryCounts(r, n, t);
    ThreadInv(r, n, t);
    Reachable(r, n + 1);
    var m, l := r.states[n].mem, r.states[n].threads[t];
    FailureHasCause(m, Order(r, n), l, Mark(r, n, t));
    RetryTop(m, l);
  }

  lemma ExecTracked(r: Trace, n: nat, t: Tid)
    requires IsRun(r) && n < |r.steps| && Tracked(r, n, t) && r.steps[n] == Label(t, Exec)
    requires Takes(r.states[n], r.steps[n], r.states[n + 1]) && !Retries(r.states[n], r.steps[n])
    ensures Tracked(r, n + 1, t)
  {
    hide LocalInv, EnqInv, DeqInv, Private;
    ThreadInv(r, n, t);
    Reachable(r, n + 1);
    ExecKeeps(r.states[n].mem, Order(r, n), r.states[n].threads[t], Mark(r, n, t));
  }

  lemma OwnTracked(r: Trace, n: nat, t: Tid)
    requires IsRun(r) && n < |r.steps| && Tracked(r, n, t) && r.steps[n] == Label(t, Exec)
    ensures Tracked(r, n + 1, t)
  {
    assert Takes(r.states[n], r.steps[n], r.states[n + 1]);
    if Retries(r.states[n], r.steps[n]) { RetryTracked(r, n, t); } else { ExecTracked(r, n, t); }
  }

  lemma FirstTracked(r: Trace, t: Tid)
    requires IsRun(r)
    ensures Tracked(r, 0, t)
  {
    Reachable(r, 0);
  }

  lemma {:induction false} AlwaysTracked(r: Trace, n: nat, t: Tid)
    requires IsRun(r) && n <= |r.steps|
    ensures Tracked(r, n, t)
  {
    hide Tracked;
    if n == 0 {
      FirstTracked(r, t);
    } else {
      AlwaysTracked(r, n - 1, t);
      if r.steps[n - 1].t != t { OtherTracked(r, n - 1, t); }
      else if r.steps[n - 1].a.Exec? { OwnTracked(r, n - 1, t); }
      else if t in r.states[n - 1].threads { LoadTracked(r, n - 1, t); }
      else { StartTracked(r, n - 1, t); }
    }
  }

  lemma {:induction false} NodesAllocated(r: Trace, n: nat)
    requires IsRun(r) && n <= |r.steps|
    ensures |r.states[n].mem.nodes| == 1 + EnqueuesStarted(r, n)
  {
    if n == 0 {
      assert |r.states[0].mem.nodes.Keys| == 1;
    } else {
      NodesAllocated(r, n - 1);
      assert Takes(r.states[n - 1], r.steps[n - 1], r.states[n]);
      OneNode(r.states[n - 1], r.steps[n - 1]);
    }
  }

  lemma OneNode(s: State, lb: Label)
    requires Enabled(s, lb) && SafeLabel(s, lb)
    ensures |Next(s, lb).mem.nodes| == |s.mem.nodes| + if lb.a.StartEnq? then 1 else 0
  {
    SameKeys(s, lb);
    var p, q := s.mem.nodes, Next(s, lb).mem.nodes;
    assert |q| == |q.Keys| && |p| == |p.Keys|;
  }

  lemma SameKeys(s: State, lb: Label)
    requires Enabled(s, lb) && SafeLabel(s, lb)
    ensures Next(s, lb).mem.nodes.Keys == s.mem.nodes.Keys + (if lb.a.StartEnq? then {lb.a.id} else {})
    ensures lb.a.StartEnq? ==> lb.a.id !in s.mem.nodes.Keys
  {
  }

  /** In a run with E started enqueues, no thread goes round its loops again more than 3E times in total. */
  lemma LockFree(r: Trace, n: nat, t: Tid)
    requires IsRun(r) && n <= |r.steps|
    ensures RetryCount(r, n, t) <= 3 * EnqueuesStarted(r, n)
  {
    AlwaysTracked(r, n, t);
    Reachable(r, n);
    NodesAllocated(r, n);
    DistinctFit(Order(r, n), r.states[n].mem.nodes.Keys);
  }
}
