/** What every interleaving of the producers and the consumer keeps. */
module LockQueueProofs {
  import opened Counting
  import opened LockQueue

  ghost predicate Chain(heap: map<Addr, Node>, c: seq<Addr>) {
    && |c| > 0
    && (forall i :: 0 <= i < |c| ==> c[i] in heap)
    && (forall i, j :: 0 <= i < j < |c| ==> c[i] != c[j])
    && (forall i, j :: 0 <= i < j < |c| && j == i + 1 ==> heap[c[i]].next == To(c[j]))
    && heap[c[|c| - 1]].next == Null
  }

  /** The producer has allocated its node and not linked it yet. */
  predicate Owns(p: Producer) { p.Spin? || p.Link? }

  predicate Critical(p: Producer) { !p.Spin? }

  ghost predicate OwnsOk(heap: map<Addr, Node>, c: seq<Addr>, p: Producer) {
    Owns(p) ==> p.node !in c && p.node in heap && heap[p.node] == Node(Null, p.v)
  }

  datatype Holder = Nobody | By(t: Tid)

  /** Witnesses: the linked addresses from Head on, and who holds the lock. */
  datatype View = View(c: seq<Addr>, holder: Holder)

  /** The lock is taken exactly when one producer, the holder, is between lock and unlock. */
  ghost predicate Exclusive(s: State, h: Holder) {
    && (s.locked <==> h.By?)
    && (h.By? ==> h.t in s.producers)
    && (forall t :: t in s.producers ==> (Critical(s.producers[t]) <==> h == By(t)))
  }

  ghost predicate Private(s: State) {
    && (forall t, u :: t in s.producers && u in s.producers && t != u && Owns(s.producers[t]) && Owns(s.producers[u]) ==>
          s.producers[t].node != s.producers[u].node)
    && (s.consumer.Free? ==>
          forall t :: t in s.producers && Owns(s.producers[t]) ==> s.producers[t].node != s.consumer.node)
  }

  /** Tail is the last node, except between the two link writes, when it may dangle. */
  ghost predicate TailOk(s: State, w: View)
    requires |w.c| > 0
  {
    var last := w.c[|w.c| - 1];
    if w.holder.By? && w.holder.t in s.producers && s.producers[w.holder.t].Swing?
    then s.producers[w.holder.t].node == last
    else s.tail == last
  }

  ghost predicate ConsumerOk(s: State, c: seq<Addr>)
    requires |c| > 0
  {
    match s.consumer
    case ReadNext(_, node) => node == c[0]
    case ReadValue(node, succ) => node == c[0] && |c| > 1 && succ == c[1]
    case SetHead(node, succ, v) => node == c[0] && |c| > 1 && succ == c[1] && succ in s.heap && v == s.heap[succ].value
    case Free(node, v) => node in s.heap && node !in c
    case _ => true
  }

  ghost predicate Inv(s: State, w: View) {
    && Chain(s.heap, w.c) && s.head == w.c[0]
    && Exclusive(s, w.holder) && Private(s) && TailOk(s, w) && ConsumerOk(s, w.c)
    && (forall t :: t in s.producers ==> OwnsOk(s.heap, w.c, s.producers[t]))
  }

  ghost predicate Links(s: State, lb: Label) {
    lb.Produce? && lb.t in s.producers && s.producers[lb.t].Link?
  }

  ghost predicate Unlinks(s: State, lb: Label) { lb.Consume? && s.consumer.SetHead? }

  ghost function View'(s: State, w: View, lb: Label): View
    requires Enabled(s, lb)
  {
    match lb
    case Produce(t) => (
      match s.producers[t]
      case Spin(_, _) => if s.locked then w else w.(holder := By(t))
      case Link(node, _) => w.(c := w.c + [node])
      case Unlock => w.(holder := Nobody)
      case _ => w)
    case Consume => if s.consumer.SetHead? && |w.c| > 0 then w.(c := w.c[1..]) else w
    case _ => w
  }

  /** No step ever dereferences or frees a node that is not allocated. */
  lemma AlwaysSafe(s: State, w: View, lb: Label)
    requires Inv(s, w) && Enabled(s, lb)
    ensures Safe(s, lb)
  {
  }

  /** Every step keeps the invariant. */
  lemma StepInv(s: State, w: View, lb: Label)
    requires Inv(s, w) && Enabled(s, lb)
    ensures Safe(s, lb) && Inv(Next(s, lb), View'(s, w, lb))
  {
    AlwaysSafe(s, w, lb);
    match lb {
      case Start(t, v, node) => StartInv(s, w, lb);
      case Produce(t) => if s.producers[t].Link? { LinkInv(s, w, t); } else { ProduceInv(s, w, t); }
      case GetSize =>
      case StartDeq =>
      case Consume => if s.consumer.SetHead? { UnlinkInv(s, w); } else { ConsumeInv(s, w); }
    }
  }

  lemma StartInv(s: State, w: View, lb: Label)
    requires Inv(s, w) && Enabled(s, lb) && lb.Start?
    ensures Inv(Next(s, lb), w)
  {
  }

  lemma LinkInv(s: State, w: View, t: Tid)
    requires Inv(s, w) && Enabled(s, Produce(t)) && Safe(s, Produce(t)) && s.producers[t].Link?
    ensures Inv(Next(s, Produce(t)), View'(s, w, Produce(t)))
  {
    hide Chain;
    LinkChain(s.heap, w.c, s.producers[t].node);
  }

  lemma LinkChain(heap: map<Addr, Node>, c: seq<Addr>, node: Addr)
    requires Chain(heap, c) && node !in c && node in heap && heap[node].next == Null
    ensures |c| > 0 && c[|c| - 1] in heap && c[|c| - 1] in c
    ensures Chain(heap[c[|c| - 1] := heap[c[|c| - 1]].(next := To(node))], c + [node])
  {
  }

  lemma ProduceInv(s: State, w: View, t: Tid)
    requires Inv(s, w) && Enabled(s, Produce(t)) && Safe(s, Produce(t)) && !s.producers[t].Link?
    ensures Inv(Next(s, Produce(t)), View'(s, w, Produce(t)))
  {
    hide Inv;
    match s.producers[t] {
      case Spin(_, _) => SpinInv(s, w, t);
      case Swing(_, _) => SwingInv(s, w, t);
      case Inc => CountingInv(s, w, t);
      case Unlock => UnlockInv(s, w, t);
    }
  }

  lemma SpinInv(s: State, w: View, t: Tid)
    requires Inv(s, w) && Enabled(s, Produce(t)) && Safe(s, Produce(t)) && s.producers[t].Spin?
    ensures Inv(Next(s, Produce(t)), View'(s, w, Produce(t)))
  {
    hide Chain;
  }

  lemma SwingInv(s: State, w: View, t: Tid)
    requires Inv(s, w) && Enabled(s, Produce(t)) && Safe(s, Produce(t)) && s.producers[t].Swing?
    ensures Inv(Next(s, Produce(t)), View'(s, w, Produce(t)))
  {
    hide Chain;
  }

  lemma CountingInv(s: State, w: View, t: Tid)
    requires Inv(s, w) && Enabled(s, Produce(t)) && Safe(s, Produce(t)) && s.producers[t].Inc?
    ensures Inv(Next(s, Produce(t)), View'(s, w, Produce(t)))
  {
    hide Chain;
  }

  lemma UnlockInv(s: State, w: View, t: Tid)
    requires Inv(s, w) && Enabled(s, Produce(t)) && Safe(s, Produce(t)) && s.producers[t].Unlock?
    ensures Inv(Next(s, Produce(t)), View'(s, w, Produce(t)))
  {
    hide Chain;
  }

  lemma UnlinkInv(s: State, w: View)
    requires Inv(s, w) && s.consumer.SetHead?
    ensures Inv(Next(s, Consume), View'(s, w, Consume))
  {
  }

  lemma ConsumeInv(s: State, w: View)
    requires Inv(s, w) && Enabled(s, Consume) && Safe(s, Consume) && !s.consumer.SetHead?
    ensures Inv(Next(s, Consume), w)
  {
    hide Inv;
    if s.consumer.Free? { FreeInv(s, w); } else { ReadInv(s, w); }
  }

  lemma FreeInv(s: State, w: View)
    requires Inv(s, w) && Safe(s, Consume) && s.consumer.Free?
    ensures Inv(Next(s, Consume), w)
  {
  }

  lemma ReadInv(s: State, w: View)
    requires Inv(s, w) && Enabled(s, Consume) && Safe(s, Consume) && !s.consumer.SetHead? && !s.consumer.Free?
    ensures Inv(Next(s, Consume), w)
  {
    hide OwnsOk;
  }

  // ---- The abstract queue ----

  ghost function Values(heap: map<Addr, Node>, c: seq<Addr>): (vs: seq<Value>)
    requires forall i :: 0 <= i < |c| ==> c[i] in heap
    ensures |vs| == |c|
  {
    seq(|c|, i requires 0 <= i < |c| => heap[c[i]].value)
  }

  lemma {:induction false} WalkIs(heap: map<Addr, Node>, c: seq<Addr>, k: nat, fuel: nat)
    requires Chain(heap, c) && k <= |c| && fuel >= |c| - k
    ensures Walk(heap, if k < |c| then To(c[k]) else Null, fuel) == Values(heap, c[k..])
    decreases |c| - k
  {
    if k < |c| {
      assert heap[c[k]].next == if k + 1 < |c| then To(c[k + 1]) else Null;
      WalkIs(heap, c, k + 1, fuel - 1);
      assert c[k..] == [c[k]] + c[k + 1..];
    }
  }

  lemma AbsIs(s: State, w: View)
    requires Chain(s.heap, w.c) && s.head == w.c[0]
    ensures Abs(s) == Values(s.heap, w.c[1..])
  {
    DistinctFit(w.c, s.heap.Keys);
    assert s.heap[w.c[0]].next == if 1 < |w.c| then To(w.c[1]) else Null;
    WalkIs(s.heap, w.c, 1, |s.heap|);
  }

  ghost predicate StepSpec(s: State, lb: Label, q: seq<Value>, q': seq<Value>)
    requires Safe(s, lb)
  {
    if Links(s, lb) then q' == q + [s.producers[lb.t].v]
    else if Unlinks(s, lb) then q == [s.consumer.v] + q'
    else q' == q && (ReturnsFalse(s, lb) ==> q == [])
  }

  /** Enqueue takes effect at its first link write, dequeue when Head moves; false means empty. */
  lemma Refines(s: State, w: View, lb: Label)
    requires Inv(s, w) && Enabled(s, lb)
    ensures Safe(s, lb) && StepSpec(s, lb, Abs(s), Abs(Next(s, lb)))
  {
    StepInv(s, w, lb);
    AbsIs(s, w);
    AbsIs(Next(s, lb), View'(s, w, lb));
    if Links(s, lb) {
      LinkAppends(s, w, lb.t);
    } else if Unlinks(s, lb) {
      UnlinkTakes(s, w);
    } else {
      Silent(s, w, lb);
    }
  }

  lemma UnlinkTakes(s: State, w: View)
    requires Inv(s, w) && s.consumer.SetHead?
    ensures |w.c| > 1 && forall i :: 0 <= i < |w.c| ==> w.c[i] in s.heap
    ensures Values(s.heap, w.c[1..]) == [s.consumer.v] + Values(s.heap, w.c[1..][1..])
  {
    assert w.c[1..] == [w.c[1]] + w.c[1..][1..];
  }

  lemma LinkAppends(s: State, w: View, t: Tid)
    requires Inv(s, w) && Enabled(s, Produce(t)) && Safe(s, Produce(t)) && s.producers[t].Link?
    requires Chain(Next(s, Produce(t)).heap, w.c + [s.producers[t].node])
    ensures Values(Next(s, Produce(t)).heap, (w.c + [s.producers[t].node])[1..])
         == Values(s.heap, w.c[1..]) + [s.producers[t].v]
  {
    assert (w.c + [s.producers[t].node])[1..] == w.c[1..] + [s.producers[t].node];
  }

  lemma Silent(s: State, w: View, lb: Label)
    requires Inv(s, w) && Enabled(s, lb) && Safe(s, lb) && !Links(s, lb) && !Unlinks(s, lb)
    requires Chain(Next(s, lb).heap, w.c)
    ensures View'(s, w, lb).c == w.c
    ensures Values(Next(s, lb).heap, w.c[1..]) == Values(s.heap, w.c[1..])
    ensures ReturnsFalse(s, lb) ==> w.c[1..] == []
  {
    assert forall i :: 0 <= i < |w.c| ==> Next(s, lb).heap[w.c[i]] == s.heap[w.c[i]];
    assert 1 < |w.c| ==> s.heap[w.c[0]].next == To(w.c[1]);
  }

  // ---- Whole runs ----

  ghost function Witness(r: Trace, n: nat): View
    requires IsRun(r) && n <= |r.steps|
  {
    if n == 0 then View([r.states[0].head], Nobody)
    else
      assert Takes(r.states[n - 1], r.steps[n - 1], r.states[n]);
      View'(r.states[n - 1], Witness(r, n - 1), r.steps[n - 1])
  }

  lemma {:induction false} Reachable(r: Trace, n: nat)
    requires IsRun(r) && n <= |r.steps|
    ensures Inv(r.states[n], Witness(r, n))
  {
    if n > 0 {
      Reachable(r, n - 1);
      assert Takes(r.states[n - 1], r.steps[n - 1], r.states[n]);
      StepInv(r.states[n - 1], Witness(r, n - 1), r.steps[n - 1]);
    }
  }

  /** The requirement in `Takes` that steps are safe excludes no behaviour: nothing freed is ever touched. */
  lemma NeverDangles(r: Trace, lb: Label)
    requires IsRun(r) && Enabled(r.states[|r.steps|], lb)
    ensures Safe(r.states[|r.steps|], lb)
  {
    Reachable(r, |r.steps|);
    AlwaysSafe(r.states[|r.steps|], Witness(r, |r.steps|), lb);
  }

  /** Mutual exclusion of the producers. */
  lemma OneInside(r: Trace, n: nat, t: Tid, u: Tid)
    requires IsRun(r) && n <= |r.steps| && t in r.states[n].producers && u in r.states[n].producers
    requires Critical(r.states[n].producers[t]) && Critical(r.states[n].producers[u])
    ensures t == u && r.states[n].locked
  {
    Reachable(r, n);
  }

  ghost function Enqueued(r: Trace, n: nat): seq<Value>
    requires IsRun(r) && n <= |r.steps|
  {
    if n == 0 then []
    else if Links(r.states[n - 1], r.steps[n - 1])
    then Enqueued(r, n - 1) + [r.states[n - 1].producers[r.steps[n - 1].t].v]
    else Enqueued(r, n - 1)
  }

  ghost function Dequeued(r: Trace, n: nat): seq<Value>
    requires IsRun(r) && n <= |r.steps|
  {
    if n == 0 then []
    else if Unlinks(r.states[n - 1], r.steps[n - 1])
    then Dequeued(r, n - 1) + [r.states[n - 1].consumer.v]
    else Dequeued(r, n - 1)
  }

  lemma StepAt(r: Trace, n: nat)
    requires IsRun(r) && n < |r.steps|
    ensures Takes(r.states[n], r.steps[n], r.states[n + 1])
    ensures StepSpec(r.states[n], r.steps[n], Abs(r.states[n]), Abs(r.states[n + 1]))
  {
    assert Takes(r.states[n], r.steps[n], r.states[n + 1]);
    Reachable(r, n);
    Refines(r.states[n], Witness(r, n), r.steps[n]);
  }

  lemma NothingYet(r: Trace)
    requires IsRun(r)
    ensures Abs(r.states[0]) == []
  {
  }

  /** First in, first out, nothing lost: what was linked is what was handed out, then what is queued. */
  lemma {:induction false} Fifo(r: Trace, n: nat)
    requires IsRun(r) && n <= |r.steps|
    ensures Enqueued(r, n) == Dequeued(r, n) + Abs(r.states[n])
  {
    hide Abs, Inv, Takes;
    if n == 0 {
      NothingYet(r);
    } else {
      Fifo(r, n - 1);
      StepAt(r, n - 1);
      var d, q, q' := Dequeued(r, n - 1), Abs(r.states[n - 1]), Abs(r.states[n]);
      if Links(r.states[n - 1], r.steps[n - 1]) {
        var v := r.states[n - 1].producers[r.steps[n - 1].t].v;
        assert d + (q + [v]) == (d + q) + [v];
      } else if Unlinks(r.states[n - 1], r.steps[n - 1]) {
        var v := r.states[n - 1].consumer.v;
        assert d + ([v] + q') == (d + [v]) + q';
      }
    }
  }

  // ---- The counter ----

  /** The holder has linked its node and not counted it. */
  ghost predicate Uncounted(s: State, h: Holder) {
    h.By? && h.t in s.producers && (s.producers[h.t].Swing? || s.producers[h.t].Inc?)
  }

  /** The consumer has unlinked a node and not counted it. */
  ghost predicate Overcounted(s: State) { s.consumer.Free? || s.consumer.Dec? }

  ghost predicate CountInv(s: State, w: View) {
    && Congruent(|w.c| - 1 - Bit(Uncounted(s, w.holder)) + Bit(Overcounted(s)), s.count)
    && ((s.consumer.ReadHead? || s.consumer.ReadNext?) && s.consumer.sized ==> |w.c| > 1)
  }

  /** There are not enough addresses for the counter to overflow. */
  lemma ChainFits(heap: map<Addr, Node>, c: seq<Addr>)
    requires Chain(heap, c)
    ensures |c| < 0x1000_0000_0000_0000
  {
    var d := seq(|c|, i requires 0 <= i < |c| => c[i] as int);
    Pigeonhole(d, 0x1000_0000_0000_0000 - 1);
  }

  lemma CountStep(s: State, w: View, lb: Label)
    requires Inv(s, w) && CountInv(s, w) && Enabled(s, lb) && Safe(s, lb)
    ensures CountInv(Next(s, lb), View'(s, w, lb))
  {
    var size := |w.c| - 1 - Bit(Uncounted(s, w.holder)) + Bit(Overcounted(s));
    var s', w' := Next(s, lb), View'(s, w, lb);
    var size' := |w'.c| - 1 - Bit(Uncounted(s', w'.holder)) + Bit(Overcounted(s'));
    if lb.GetSize? {
      ChainFits(s.heap, w.c);
      SignedIs(size, s.count);
    }
    if (lb.Produce? && s.producers[lb.t].Inc?) || (lb.Consume? && s.consumer.Dec?) {
      WrapStep(size, s.count, Bit(lb.Produce?), Bit(lb.Consume?), size', s'.count);
    } else {
      assert size' == size && s'.count == s.count;
    }
  }

  lemma {:induction false} Counted(r: Trace, n: nat)
    requires IsRun(r) && n <= |r.steps|
    ensures CountInv(r.states[n], Witness(r, n))
  {
    if n > 0 {
      Counted(r, n - 1);
      Reachable(r, n - 1);
      assert Takes(r.states[n - 1], r.steps[n - 1], r.states[n]);
      CountStep(r.states[n - 1], Witness(r, n - 1), r.steps[n - 1]);
    }
  }

  /** queue_get_size is the length, less a node linked but not counted, plus one unlinked but not counted. */
  lemma SizeIs(r: Trace, n: nat)
    requires IsRun(r) && n <= |r.steps|
    ensures Signed(r.states[n].count) ==
      |Abs(r.states[n])| - Bit(Uncounted(r.states[n], Witness(r, n).holder)) + Bit(Overcounted(r.states[n]))
  {
    Reachable(r, n);
    Counted(r, n);
    AbsIs(r.states[n], Witness(r, n));
    ChainFits(r.states[n].heap, Witness(r, n).c);
    SignedIs(|Abs(r.states[n])| - Bit(Uncounted(r.states[n], Witness(r, n).holder)) + Bit(Overcounted(r.states[n])),
             r.states[n].count);
  }

  /** coremu_get_intr: once the size was seen positive, the dequeue finds an element. */
  lemma PositiveSizeSuffices(r: Trace, n: nat)
    requires IsRun(r) && n < |r.steps| && Takes(r.states[n], r.steps[n], r.states[n + 1])
    requires r.states[n].consumer.ReadNext? && r.states[n].consumer.sized
    ensures !ReturnsFalse(r.states[n], r.steps[n])
  {
    Reachable(r, n);
    Counted(r, n);
    var c := Witness(r, n).c;
    assert r.states[n].heap[c[0]].next == To(c[1]);
  }

  // ---- Memory ----

  ghost predicate Owned(s: State, a: Addr) {
    exists t :: t in s.producers && Owns(s.producers[t]) && s.producers[t].node == a
  }

  /** Every allocated node is linked, or awaits linking, or awaits its free. */
  ghost predicate NoLeak(s: State, c: seq<Addr>) {
    forall a :: a in s.heap ==> a in c || Owned(s, a) || (s.consumer.Free? && s.consumer.node == a)
  }

  lemma NoLeakStep(s: State, w: View, lb: Label)
    requires Inv(s, w) && NoLeak(s, w.c) && Enabled(s, lb) && Safe(s, lb)
    ensures NoLeak(Next(s, lb), View'(s, w, lb).c)
  {
    hide Chain, Exclusive, Private, TailOk, ConsumerOk, OwnsOk;
    ChainNonEmpty(s, w);
    var s', c' := Next(s, lb), View'(s, w, lb).c;
    forall a | a in s'.heap ensures a in c' || Owned(s', a) || (s'.consumer.Free? && s'.consumer.node == a) {
      NoLeakAt(s, w, lb, a);
    }
  }

  lemma ChainNonEmpty(s: State, w: View)
    requires Inv(s, w)
    ensures |w.c| > 0 && ConsumerOk(s, w.c)
  {
  }

  lemma NoLeakAt(s: State, w: View, lb: Label, a: Addr)
    requires |w.c| > 0 && ConsumerOk(s, w.c) && NoLeak(s, w.c) && Enabled(s, lb) && Safe(s, lb) && a in Next(s, lb).heap
    ensures var s' := Next(s, lb); a in View'(s, w, lb).c || Owned(s', a) || (s'.consumer.Free? && s'.consumer.node == a)
  {
    var s' := Next(s, lb);
    if Owned(s, a) {
      var t :| t in s.producers && Owns(s.producers[t]) && s.producers[t].node == a;
      assert t in s'.producers;
    } else if lb.Start? && a == lb.node {
      assert s'.producers[lb.t].node == a;
    }
  }

  lemma FirstNoLeak(r: Trace)
    requires IsRun(r)
    ensures NoLeak(r.states[0], Witness(r, 0).c)
  {
  }

  lemma {:induction false} NothingLeaks(r: Trace, n: nat)
    requires IsRun(r) && n <= |r.steps|
    ensures NoLeak(r.states[n], Witness(r, n).c)
  {
    hide NoLeak, Inv;
    if n == 0 { FirstNoLeak(r); } else {
      NothingLeaks(r, n - 1);
      Reachable(r, n - 1);
      assert Takes(r.states[n - 1], r.steps[n - 1], r.states[n]);
      NoLeakStep(r.states[n - 1], Witness(r, n - 1), r.steps[n - 1]);
    }
  }

  /** With nobody in a call, exactly the queued nodes and one dummy are allocated. */
  lemma QuiescentMemory(r: Trace, n: nat)
    requires IsRun(r) && n <= |r.steps| && r.states[n].producers == map[] && r.states[n].consumer == Idle
    ensures |r.states[n].heap| == |Abs(r.states[n])| + 1 && Signed(r.states[n].count) == |Abs(r.states[n])|
  {
    Reachable(r, n);
    NothingLeaks(r, n);
    SizeIs(r, n);
    var s, w := r.states[n], Witness(r, n);
    AbsIs(s, w);
    DistinctFit(w.c, s.heap.Keys);
    CoverFits(w.c, s.heap.Keys);
  }
}
