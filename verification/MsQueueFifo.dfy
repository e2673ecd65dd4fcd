/**
 The lock-free queue refines a FIFO sequence: which steps change the abstract queue, and how.
 */
module MsQueueFifo {
  import opened Counting
  import opened MsQueue
  import opened MsQueueInvariant

  /** All nodes linked in the first `n` steps, in link order. */
  ghost function Order(r: Trace, n: nat): seq<Id>
    requires IsRun(r) && n <= |r.steps|
  {
    if n == 0 then [r.states[0].mem.head.ref.id]
    else
      assert Takes(r.states[n - 1], r.steps[n - 1], r.states[n]);
      Chain'(r.states[n - 1], Order(r, n - 1), r.steps[n - 1])
  }

  lemma InitInv(s: State)
    requires Init(s)
    ensures s.mem.head.ref.To? && Inv(s, [s.mem.head.ref.id])
  {
  }

  lemma {:induction false} Reachable(r: Trace, n: nat)
    requires IsRun(r) && n <= |r.steps|
    ensures Inv(r.states[n], Order(r, n))
  {
    hide Inv, Next, Chain';
    if n == 0 { InitInv(r.states[0]); } else {
      Reachable(r, n - 1);
      assert Takes(r.states[n - 1], r.steps[n - 1], r.states[n]);
      StepInv(r.states[n - 1], Order(r, n - 1), r.steps[n - 1]);
    }
  }

  lemma ThreadInv(r: Trace, n: nat, t: Tid)
    requires IsRun(r) && n <= |r.steps| && t in r.states[n].threads
    ensures Chain(r.states[n].mem, Order(r, n)) && LocalInv(r.states[n].mem, Order(r, n), r.states[n].threads[t])
  {
    Reachable(r, n);
  }

  lemma MemStep(r: Trace, n: nat)
    requires IsRun(r) && n < |r.steps|
    ensures Takes(r.states[n], r.steps[n], r.states[n + 1])
    ensures Evolves(r.states[n].mem, Order(r, n), r.states[n + 1].mem, Order(r, n + 1))
  {
    assert Takes(r.states[n], r.steps[n], r.states[n + 1]);
    Reachable(r, n);
    EffectInv(r.states[n], Order(r, n), r.steps[n]);
  }

  lemma AbsStep(r: Trace, n: nat)
    requires IsRun(r) && n < |r.steps|
    ensures Takes(r.states[n], r.steps[n], r.states[n + 1])
    ensures StepSpec(r.states[n], r.steps[n], Abs(r.states[n].mem), Abs(r.states[n + 1].mem))
  {
    assert Takes(r.states[n], r.steps[n], r.states[n + 1]);
    Reachable(r, n);
    Refines(r.states[n], Order(r, n), r.steps[n]);
  }

  /** The requirement in `Takes` that dereferences are safe excludes no behaviour. */
  lemma NoBadDereference(r: Trace, lb: Label)
    requires IsRun(r) && Enabled(r.states[|r.steps|], lb)
    ensures SafeLabel(r.states[|r.steps|], lb)
  {
    Reachable(r, |r.steps|);
    StepInv(r.states[|r.steps|], Order(r, |r.steps|), lb);
  }

  /** A path of distinct nodes from Head to a NULL end, with Tail at its last or last but one node. */
  ghost predicate WellShaped(m: Mem, path: seq<Id>) {
    && |path| > 0
    && m.head.ref == To(path[0])
    && (forall i :: 0 <= i < |path| ==> path[i] in m.nodes)
    && (forall i, j :: 0 <= i < j < |path| ==> path[i] != path[j])
    && (forall i, j :: 0 <= i < j < |path| && j == i + 1 ==> m.nodes[path[i]].next.ref == To(path[j]))
    && m.nodes[path[|path| - 1]].next.ref == Null
    && (m.tail.ref == To(path[|path| - 1]) || (|path| > 1 && m.tail.ref == To(path[|path| - 2])))
  }

  lemma ShapeOf(m: Mem, c: seq<Id>)
    requires Chain(m, c)
    ensures m.head.tag <= |c| && WellShaped(m, c[m.head.tag..])
  {
  }

  lemma Shape(r: Trace, n: nat)
    requires IsRun(r) && n <= |r.steps|
    ensures exists path :: WellShaped(r.states[n].mem, path)
  {
    hide WellShaped, Chain, LocalInv, Private;
    Reachable(r, n);
    ShapeOf(r.states[n].mem, Order(r, n));
  }

  // ---- The abstract queue in terms of the chain ----

  ghost function Values(nodes: map<Id, Node>, ids: seq<Id>): (vs: seq<Value>)
    requires forall i :: 0 <= i < |ids| ==> ids[i] in nodes
    ensures |vs| == |ids|
  {
    seq(|ids|, i requires 0 <= i < |ids| => nodes[ids[i]].value)
  }

  lemma {:induction false} WalkIs(m: Mem, c: seq<Id>, k: nat, fuel: nat)
    requires Chain(m, c) && k <= |c| && fuel >= |c| - k
    ensures Walk(m.nodes, if k < |c| then To(c[k]) else Null, fuel) == Values(m.nodes, c[k..])
    decreases |c| - k
  {
    if k < |c| {
      NextOf(m, c, k);
      WalkIs(m, c, k + 1, fuel - 1);
      assert c[k..] == [c[k]] + c[k + 1..];
    }
  }

  lemma AbsIs(m: Mem, c: seq<Id>)
    requires Chain(m, c)
    ensures Abs(m) == Values(m.nodes, c[m.head.tag + 1..])
  {
    DistinctFit(c, m.nodes.Keys);
    NextOf(m, c, m.head.tag);
    WalkIs(m, c, m.head.tag + 1, |m.nodes|);
  }

  // ---- Refinement, step by step ----

  /** The Head CAS of a dequeue succeeds. */
  predicate Unlinks(m: Mem, l: Local)
    requires Safe(m, l)
  {
    l.pc == DeqSwing && Succeeds(m, l)
  }

  ghost predicate StepSpec(s: State, lb: Label, q: seq<Value>, q': seq<Value>)
    requires Enabled(s, lb) && SafeLabel(s, lb)
  {
    if lb.t in s.threads && Links(s.mem, s.threads[lb.t]) then q' == q + [s.threads[lb.t].value]
    else if lb.t in s.threads && Unlinks(s.mem, s.threads[lb.t]) then q == [s.threads[lb.t].value] + q'
    else q' == q
  }

  /** Enqueue takes effect at the link CAS, dequeue at the Head CAS; no other step is visible. */
  lemma Refines(s: State, c: seq<Id>, lb: Label)
    requires Inv(s, c) && Enabled(s, lb)
    ensures SafeLabel(s, lb)
    ensures StepSpec(s, lb, Abs(s.mem), Abs(Next(s, lb).mem))
  {
    hide Abs, Chain, Run, EnqInv, DeqInv, Private;
    EffectInv(s, c, lb);
    if lb.t in s.threads && Links(s.mem, s.threads[lb.t]) {
      RefinesLink(s.mem, c, s.threads[lb.t]);
    } else if lb.t in s.threads && Unlinks(s.mem, s.threads[lb.t]) {
      RefinesUnlink(s.mem, c, s.threads[lb.t]);
    } else {
      HeadKept(s, c, lb);
      Silent(s.mem, c, Effect(s, lb).mem);
    }
  }

  lemma RefinesLink(m: Mem, c: seq<Id>, l: Local)
    requires Chain(m, c) && LocalInv(m, c, l) && Safe(m, l) && Links(m, l)
    ensures Abs(Run(m, l).mem) == Abs(m) + [l.value]
  {
    hide Abs, Values, Run, LocalInv, Chain, Evolves;
    LinkInv(m, c, l);
    EvolvesChain(m, c, Run(m, l).mem, c + [l.node]);
    AbsIs(m, c);
    AbsIs(Run(m, l).mem, c + [l.node]);
    LinkAppends(m, c, l);
  }

  lemma RefinesUnlink(m: Mem, c: seq<Id>, l: Local)
    requires Chain(m, c) && LocalInv(m, c, l) && Safe(m, l) && Unlinks(m, l)
    ensures Abs(m) == [l.value] + Abs(Run(m, l).mem)
  {
    hide Abs, Values, Run, LocalInv, Chain, Evolves;
    DeqSwingInv(m, c, l);
    EvolvesChain(m, c, Run(m, l).mem, c);
    AbsIs(m, c);
    AbsIs(Run(m, l).mem, c);
    UnlinkPops(m, c, l);
  }

  lemma HeadKept(s: State, c: seq<Id>, lb: Label)
    requires Inv(s, c) && Enabled(s, lb) && SafeLabel(s, lb)
    requires lb.t in s.threads ==> !Unlinks(s.mem, s.threads[lb.t])
    ensures Effect(s, lb).mem.head == s.mem.head
  {
    if lb.t in s.threads { assert LocalInv(s.mem, c, s.threads[lb.t]); }
  }

  lemma Silent(m: Mem, c: seq<Id>, m': Mem)
    requires Evolves(m, c, m', c) && m.head == m'.head
    ensures Abs(m') == Abs(m)
  {
    hide Abs;
    AbsIs(m, c);
    AbsIs(m', c);
    assert Values(m.nodes, c[m.head.tag + 1..]) == Values(m'.nodes, c[m.head.tag + 1..]);
  }

  lemma LinkAppends(m: Mem, c: seq<Id>, l: Local)
    requires Chain(m, c) && LocalInv(m, c, l) && Safe(m, l) && Links(m, l)
    requires Evolves(m, c, Run(m, l).mem, c + [l.node])
    ensures Values(Run(m, l).mem.nodes, (c + [l.node])[Run(m, l).mem.head.tag + 1..])
         == Values(m.nodes, c[m.head.tag + 1..]) + [l.value]
  {
    hide LocalInv, Run, Evolves;
    LinkSame(m, c, l);
    assert (c + [l.node])[m.head.tag + 1..] == c[m.head.tag + 1..] + [l.node];
  }

  lemma LinkSame(m: Mem, c: seq<Id>, l: Local)
    requires Chain(m, c) && LocalInv(m, c, l) && Safe(m, l) && Links(m, l)
    ensures var m' := Run(m, l).mem;
      && m'.head == m.head && l.node in m'.nodes && m'.nodes[l.node].value == l.value
      && forall id :: id in m.nodes ==> id in m'.nodes && m'.nodes[id].value == m.nodes[id].value
  {
  }

  lemma UnlinkSame(m: Mem, c: seq<Id>, l: Local)
    requires Chain(m, c) && LocalInv(m, c, l) && Safe(m, l) && Unlinks(m, l)
    ensures var m', k := Run(m, l).mem, m.head.tag;
      m'.nodes == m.nodes && m'.head.tag == k + 1 < |c| && m.nodes[c[k + 1]].value == l.value
  {
    hide EnqInv;
    NextOf(m, c, m.head.tag);
  }

  lemma UnlinkPops(m: Mem, c: seq<Id>, l: Local)
    requires Chain(m, c) && LocalInv(m, c, l) && Safe(m, l) && Unlinks(m, l)
    requires Evolves(m, c, Run(m, l).mem, c)
    ensures Values(m.nodes, c[m.head.tag + 1..])
         == [l.value] + Values(Run(m, l).mem.nodes, c[Run(m, l).mem.head.tag + 1..])
  {
    hide LocalInv, Run, Evolves;
    UnlinkSame(m, c, l);
    assert c[m.head.tag + 1..] == [c[m.head.tag + 1]] + c[m.head.tag + 2..];
  }
}
