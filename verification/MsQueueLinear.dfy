/**
 Linearizability of the lock-free queue, for every run of any number of threads.
 */
module MsQueueLinear {
  import opened MsQueue
  import opened MsQueueInvariant
  import opened MsQueueFifo

  datatype Event = Enq(t: Tid, v: Value) | Deq(t: Tid, v: Value) | DeqEmpty(t: Tid)

  // ---- The sequential FIFO ----

  datatype Fifo = Illegal | Queue(q: seq<Value>)

  function Apply(f: Fifo, e: Event): Fifo {
    match f
    case Illegal => Illegal
    case Queue(q) =>
      match e
      case Enq(_, v) => Queue(q + [v])
      case Deq(_, v) => if q != [] && q[0] == v then Queue(q[1..]) else Illegal
      case DeqEmpty(_) => if q == [] then Queue(q) else Illegal
  }

  function Replay(es: seq<Event>): Fifo {
    if es == [] then Queue([]) else Apply(Replay(es[..|es| - 1]), es[|es| - 1])
  }

  // ---- Where each call takes effect ----

  /** From position `n`, the next check of `t` makes its dequeue return false. */
  ghost predicate EmptyAhead(r: Trace, n: nat, t: Tid)
    requires IsRun(r)
  {
    exists k :: EmptyAt(r, n, k, t)
  }

  ghost predicate EmptyAt(r: Trace, n: nat, k: nat, t: Tid)
    requires IsRun(r)
  {
    && n <= k < |r.steps| && r.steps[k] == Label(t, Exec)
    && Takes(r.states[k], r.steps[k], r.states[k + 1])
    && ReturnsFalse(r.states[k].mem, r.states[k].threads[t])
    && forall j :: n <= j < k && r.steps[j].t == t ==> Waiting(r.states[j], t)
  }

  ghost predicate Waiting(s: State, t: Tid) {
    t in s.threads && s.threads[t].pc in {DeqNext, DeqAgain}
  }

  /** The step loads a NULL head->next. */
  predicate ReadsNull(s: State, lb: Label)
    requires SafeLabel(s, lb)
  {
    lb.a.LoadRef? && lb.t in s.threads && s.threads[lb.t].pc == DeqNext && Source(s.mem, s.threads[lb.t]).ref == Null
  }

  /** What takes effect at step `i`. */
  ghost function Point(r: Trace, i: nat): seq<Event>
    requires IsRun(r) && i < |r.steps|
  {
    var s, lb := r.states[i], r.steps[i];
    assert Takes(s, lb, r.states[i + 1]);
    if lb.t !in s.threads then []
    else if Links(s.mem, s.threads[lb.t]) then [Enq(lb.t, s.threads[lb.t].value)]
    else if Unlinks(s.mem, s.threads[lb.t]) then [Deq(lb.t, s.threads[lb.t].value)]
    else if ReadsNull(s, lb) && EmptyAhead(r, i + 1, lb.t) then [DeqEmpty(lb.t)]
    else []
  }

  ghost function Lin(r: Trace, n: nat): seq<Event>
    requires IsRun(r) && n <= |r.steps|
  {
    if n == 0 then [] else Lin(r, n - 1) + Point(r, n - 1)
  }

  // ---- What each thread gets back ----

  /** The call of `t` that returns at step `i`, as an event. */
  ghost function Response(r: Trace, i: nat, t: Tid): seq<Event>
    requires IsRun(r) && i < |r.steps|
  {
    var s, lb := r.states[i], r.steps[i];
    assert Takes(s, lb, r.states[i + 1]);
    if lb != Label(t, Exec) then []
    else
      var l := s.threads[t];
      if l.pc == EnqCount then [Enq(t, l.value)]
      else if l.pc == DeqCount then [Deq(t, l.value)]
      else if ReturnsFalse(s.mem, l) then [DeqEmpty(t)]
      else []
  }

  ghost function Responses(r: Trace, n: nat, t: Tid): seq<Event>
    requires IsRun(r) && n <= |r.steps|
  {
    if n == 0 then [] else Responses(r, n - 1, t) + Response(r, n - 1, t)
  }

  ghost function Of(es: seq<Event>, t: Tid): seq<Event> {
    if es == [] then []
    else Of(es[..|es| - 1], t) + (if es[|es| - 1].t == t then [es[|es| - 1]] else [])
  }

  /** The call of `t` that has taken effect and not returned. */
  ghost function Pending(r: Trace, n: nat, t: Tid): seq<Event>
    requires IsRun(r) && n <= |r.steps|
  {
    var s := r.states[n];
    if t !in s.threads then []
    else
      var l := s.threads[t];
      if l.pc in {EnqSwing, EnqCount} then [Enq(t, l.value)]
      else if l.pc == DeqCount then [Deq(t, l.value)]
      else if l.pc in {DeqNext, DeqAgain, DeqCheck} && l.next.ref == Read(Null) && EmptyAhead(r, n, t)
        then [DeqEmpty(t)]
      else []
  }

  // ---- Tags only grow, and a tag fixes the pointer ----

  lemma {:induction false} TagsGrow(r: Trace, i: nat, k: nat)
    requires IsRun(r) && i <= k <= |r.steps|
    ensures var p, q := r.states[i].mem, r.states[k].mem;
      && (p.head == q.head || p.head.tag < q.head.tag)
      && (p.tail == q.tail || p.tail.tag < q.tail.tag)
    decreases k - i
  {
    if i < k {
      TagsGrow(r, i, k - 1);
      MemStep(r, k - 1);
    }
  }

  lemma {:induction false} HeadLocalKept(r: Trace, n: nat, k: nat, t: Tid)
    requires IsRun(r) && EmptyAt(r, n, k, t)
    requires t in r.states[n].threads && r.states[n].threads[t].pc in {DeqNext, DeqAgain, DeqCheck}
    ensures r.states[k].threads[t].head == r.states[n].threads[t].head
    decreases k - n
  {
    if n < k {
      assert Takes(r.states[n], r.steps[n], r.states[n + 1]);
      assert EmptyAt(r, n + 1, k, t);
      assert t in r.states[n + 1].threads && r.states[n + 1].threads[t].pc in {DeqNext, DeqAgain, DeqCheck} by {
        if r.steps[n].t == t { assert Waiting(r.states[n], t); }
      }
      HeadLocalKept(r, n + 1, k, t);
    }
  }

  /** If the call ends with false, the queue was empty when it read head->next. */
  lemma EmptyWhenRead(r: Trace, i: nat)
    requires IsRun(r) && i < |r.steps| && Takes(r.states[i], r.steps[i], r.states[i + 1])
    requires ReadsNull(r.states[i], r.steps[i]) && EmptyAhead(r, i + 1, r.steps[i].t)
    ensures Abs(r.states[i].mem) == []
  {
    var t := r.steps[i].t;
    var k :| EmptyAt(r, i + 1, k, t);
    Reachable(r, i);
    assert LocalInv(r.states[i].mem, Order(r, i), r.states[i].threads[t]);
    HeadLocalKept(r, i + 1, k, t);
    TagsGrow(r, i, k);
    var m, c := r.states[i].mem, Order(r, i);
    assert m.head == r.states[i].threads[t].head.Get();
  }

  lemma ReplayMore(es: seq<Event>, p: seq<Event>)
    requires |p| <= 1
    ensures Replay(es + p) == if p == [] then Replay(es) else Apply(Replay(es), p[0])
  {
    if p == [] { assert es + p == es; } else { assert (es + p)[..|es|] == es; }
  }

  lemma PointSound(r: Trace, i: nat)
    requires IsRun(r) && i < |r.steps|
    ensures var q, q', p := Queue(Abs(r.states[i].mem)), Queue(Abs(r.states[i + 1].mem)), Point(r, i);
      |p| <= 1 && q' == if p == [] then q else Apply(q, p[0])
  {
    hide Abs, EmptyAhead, Run;
    AbsStep(r, i);
    if Point(r, i) != [] && Point(r, i)[0].DeqEmpty? { EmptyWhenRead(r, i); }
  }

  lemma StartsEmpty(r: Trace)
    requires IsRun(r)
    ensures Abs(r.states[0].mem) == []
  {
  }

  /** Main theorem, part one: the effects, in the order they take place, are a legal FIFO history. */
  lemma {:induction false} LegalHistory(r: Trace, n: nat)
    requires IsRun(r) && n <= |r.steps|
    ensures Replay(Lin(r, n)) == Queue(Abs(r.states[n].mem))
  {
    hide Point, Abs, Takes;
    if n == 0 {
      StartsEmpty(r);
    } else {
      LegalHistory(r, n - 1);
      PointSound(r, n - 1);
      ReplayMore(Lin(r, n - 1), Point(r, n - 1));
    }
  }

  // ---- Each call takes effect exactly once, while it runs ----

  lemma OfMore(es: seq<Event>, p: seq<Event>, t: Tid)
    requires |p| <= 1
    ensures Of(es + p, t) == Of(es, t) + Of(p, t)
    ensures Of(p, t) == if p != [] && p[0].t == t then p else []
  {
    if p == [] { assert es + p == es; } else { assert (es + p)[..|es|] == es; }
  }

  lemma AheadSame(r: Trace, n: nat, t: Tid)
    requires IsRun(r) && n < |r.steps|
    requires r.steps[n].t == t ==> Waiting(r.states[n], t)
    ensures EmptyAhead(r, n, t) == EmptyAhead(r, n + 1, t)
  {
    if EmptyAhead(r, n, t) { AheadLater(r, n, t); }
    if EmptyAhead(r, n + 1, t) { AheadSooner(r, n, t); }
  }

  lemma AheadLater(r: Trace, n: nat, t: Tid)
    requires IsRun(r) && n < |r.steps| && EmptyAhead(r, n, t)
    requires r.steps[n].t == t ==> Waiting(r.states[n], t)
    ensures EmptyAhead(r, n + 1, t)
  {
    var k: nat :| EmptyAt(r, n, k, t);
    assert EmptyAt(r, n + 1, k, t);
  }

  lemma AheadSooner(r: Trace, n: nat, t: Tid)
    requires IsRun(r) && n < |r.steps| && EmptyAhead(r, n + 1, t)
    requires r.steps[n].t == t ==> Waiting(r.states[n], t)
    ensures EmptyAhead(r, n, t)
  {
    var k: nat :| EmptyAt(r, n + 1, k, t);
    assert EmptyAt(r, n, k, t);
  }

  lemma AheadCheck(r: Trace, n: nat, t: Tid)
    requires IsRun(r) && n < |r.steps| && r.steps[n] == Label(t, Exec)
    requires Takes(r.states[n], r.steps[n], r.states[n + 1])
    requires r.states[n].threads[t].pc == DeqCheck
    ensures EmptyAhead(r, n, t) == ReturnsFalse(r.states[n].mem, r.states[n].threads[t])
  {
    if EmptyAhead(r, n, t) {
      var k: nat :| EmptyAt(r, n, k, t);
      assert k > n ==> Waiting(r.states[n], t);
    }
    if ReturnsFalse(r.states[n].mem, r.states[n].threads[t]) { assert EmptyAt(r, n, n, t); }
  }

  /** One step moves at most one event from the effects to the pending call, and from there to the responses. */
  ghost predicate Balanced(r: Trace, n: nat, t: Tid)
    requires IsRun(r) && n < |r.steps|
  {
    Pending(r, n, t) + Of(Point(r, n), t) == Response(r, n, t) + Pending(r, n + 1, t)
  }

  lemma OtherStep(r: Trace, n: nat, t: Tid)
    requires IsRun(r) && n < |r.steps| && r.steps[n].t != t
    ensures Balanced(r, n, t)
  {
    hide EmptyAhead, EmptyAt, Run, Abs;
    assert Takes(r.states[n], r.steps[n], r.states[n + 1]);
    AheadSame(r, n, t);
    OfMore([], Point(r, n), t);
  }

  lemma StartStep(r: Trace, n: nat, t: Tid)
    requires IsRun(r) && n < |r.steps| && r.steps[n].t == t && t !in r.states[n].threads
    requires Takes(r.states[n], r.steps[n], r.states[n + 1])
    ensures Balanced(r, n, t)
  {
    hide EmptyAhead, EmptyAt, Run, Abs, IsRun;
    OfMore([], Point(r, n), t);
  }

  /** What a load makes of the locals of its thread. */
  lemma Loaded(s: State, lb: Label)
    requires Enabled(s, lb) && SafeLabel(s, lb) && !lb.a.Exec? && lb.t in s.threads
    ensures IsLoad(s.threads[lb.t].pc) && lb.t in Next(s, lb).threads
    ensures var l, l' := s.threads[lb.t], Next(s, lb).threads[lb.t];
      && l'.pc !in {EnqSwing, EnqCount, DeqCount} && (IsEnq(l.pc) <==> IsEnq(l'.pc))
      && (l.pc in {DeqHead, DeqTail} ==> l'.pc in {DeqHead, DeqTail, DeqNext} && l'.next == l.next)
      && (l.pc == DeqNext ==>
            && l'.pc in {DeqNext, DeqAgain} && (lb.a.LoadRef? ==> l.next.ref.Unread?)
            && l'.next.ref == if lb.a.LoadRef? then Read(Source(s.mem, l).ref) else l.next.ref)
      && (l.pc == DeqAgain ==> l'.pc in {DeqAgain, DeqCheck} && l'.next == l.next)
  {
    hide Run;
  }

  lemma LoadPoint(r: Trace, n: nat, t: Tid)
    requires IsRun(r) && n < |r.steps| && r.steps[n].t == t && !r.steps[n].a.Exec? && t in r.states[n].threads
    requires Takes(r.states[n], r.steps[n], r.states[n + 1])
    ensures Response(r, n, t) == []
    ensures Of(Point(r, n), t) == if ReadsNull(r.states[n], r.steps[n]) && EmptyAhead(r, n + 1, t) then [DeqEmpty(t)] else []
  {
    hide EmptyAhead, Next, Source;
    OfMore([], Point(r, n), t);
  }

  lemma LoadStep(r: Trace, n: nat, t: Tid)
    requires IsRun(r) && n < |r.steps| && r.steps[n].t == t && !r.steps[n].a.Exec? && t in r.states[n].threads
    requires Takes(r.states[n], r.steps[n], r.states[n + 1])
    ensures Balanced(r, n, t)
  {
    hide EmptyAhead, Next, Point, Of, Response, Source;
    LoadPoint(r, n, t);
    Loaded(r.states[n], r.steps[n]);
    if Waiting(r.states[n], t) { AheadSame(r, n, t); }
    EarlyNull(r, n, t);
  }

  lemma StartOrLoad(r: Trace, n: nat, t: Tid)
    requires IsRun(r) && n < |r.steps| && r.steps[n].t == t && !r.steps[n].a.Exec?
    ensures Balanced(r, n, t)
  {
    hide Balanced;
    assert Takes(r.states[n], r.steps[n], r.states[n + 1]);
    if t in r.states[n].threads { LoadStep(r, n, t); } else { StartStep(r, n, t); }
  }

  /** Before its next field is loaded, a call has nothing to remember. */
  lemma EarlyNull(r: Trace, n: nat, t: Tid)
    requires IsRun(r) && n <= |r.steps| && t in r.states[n].threads
    ensures r.states[n].threads[t].pc in {DeqHead, DeqTail} ==> r.states[n].threads[t].next == EMPTY
  {
    Reachable(r, n);
    assert LocalInv(r.states[n].mem, Order(r, n), r.states[n].threads[t]);
  }

  lemma ExecStep(r: Trace, n: nat, t: Tid)
    requires IsRun(r) && n < |r.steps| && r.steps[n] == Label(t, Exec)
    ensures Balanced(r, n, t)
  {
    hide EmptyAhead, EmptyAt, Abs;
    assert Takes(r.states[n], r.steps[n], r.states[n + 1]);
    OfMore([], Point(r, n), t);
    if r.states[n].threads[t].pc == DeqCheck { AheadCheck(r, n, t); }
  }

  lemma NothingPending(r: Trace, t: Tid)
    requires IsRun(r)
    ensures Pending(r, 0, t) == [] && Lin(r, 0) == [] && Responses(r, 0, t) == []
  {
  }

  lemma {:induction false} Effects(r: Trace, n: nat, t: Tid)
    requires IsRun(r) && n <= |r.steps|
    ensures Of(Lin(r, n), t) == Responses(r, n, t) + Pending(r, n, t)
  {
    hide Pending, Response, Point, EmptyAhead, Takes, Abs;
    if n == 0 { NothingPending(r, t); } else {
      Effects(r, n - 1, t);
      PointSound(r, n - 1);
      OfMore(Lin(r, n - 1), Point(r, n - 1), t);
      if r.steps[n - 1].t != t { OtherStep(r, n - 1, t); }
      else if r.steps[n - 1].a.Exec? { ExecStep(r, n - 1, t); }
      else { StartOrLoad(r, n - 1, t); }
      Regroup(Responses(r, n - 1, t), Pending(r, n - 1, t), Of(Point(r, n - 1), t),
              Response(r, n - 1, t), Pending(r, n, t));
    }
  }

  lemma Regroup(a: seq<Event>, b: seq<Event>, c: seq<Event>, d: seq<Event>, e: seq<Event>)
    requires b + c == d + e
    ensures a + b + c == a + d + e
  {
    assert a + b + c == a + (b + c);
    assert a + d + e == a + (d + e);
  }

  /**
   Main theorem, part two. At every moment the effects of a thread are exactly the calls that
   have returned to it, with those results, plus at most the one call it is in. A thread that
   is in no call has none pending, so every effect falls between the start and the return of
   its own call.
   */
  lemma OnceWithinCall(r: Trace, n: nat, t: Tid)
    requires IsRun(r) && n <= |r.steps|
    ensures Of(Lin(r, n), t) == Responses(r, n, t) + Pending(r, n, t)
    ensures |Pending(r, n, t)| <= 1 && (t !in r.states[n].threads ==> Pending(r, n, t) == [])
  {
    hide Pending, Lin, Of, Responses;
    Effects(r, n, t);
    PendingAtMost(r, n, t);
  }

  lemma PendingAtMost(r: Trace, n: nat, t: Tid)
    requires IsRun(r) && n <= |r.steps|
    ensures |Pending(r, n, t)| <= 1 && (t !in r.states[n].threads ==> Pending(r, n, t) == [])
  {
    hide EmptyAhead, Abs;
  }

  // ---- Real-time order ----

  /** Where the i-th effect of `t` is in a history. */
  ghost function Nth(es: seq<Event>, t: Tid, i: nat): (p: nat)
    requires i < |Of(es, t)|
    ensures p < |es| && es[p] == Of(es, t)[i]
  {
    var rest := es[..|es| - 1];
    if i < |Of(rest, t)| then Nth(rest, t, i) else |es| - 1
  }

  /** A longer history keeps the place of what was there, and puts the rest after it. */
  lemma {:induction false} NthMore(es: seq<Event>, more: seq<Event>, t: Tid, i: nat)
    requires es <= more && i < |Of(more, t)|
    ensures |Of(es, t)| <= |Of(more, t)| && (Nth(more, t, i) < |es| <==> i < |Of(es, t)|)
    ensures i < |Of(es, t)| ==> Nth(more, t, i) == Nth(es, t, i)
    decreases |more|
  {
    if |es| == |more| {
      assert es == more;
    } else {
      var rest := more[..|more| - 1];
      assert es <= rest;
      OfPrefix(es, rest, t);
      if i < |Of(rest, t)| { NthMore(es, rest, t, i); }
    }
  }

  lemma {:induction false} OfPrefix(es: seq<Event>, more: seq<Event>, t: Tid)
    requires es <= more
    ensures |Of(es, t)| <= |Of(more, t)|
    decreases |more|
  {
    if |es| == |more| { assert es == more; } else { OfPrefix(es, more[..|more| - 1], t); }
  }

  lemma {:induction false} LinGrows(r: Trace, a: nat, n: nat)
    requires IsRun(r) && a <= n <= |r.steps|
    ensures Lin(r, a) <= Lin(r, n)
    decreases n
  {
    hide Point;
    if a < n { LinGrows(r, a, n - 1); }
  }

  lemma {:induction false} ResponsesGrow(r: Trace, a: nat, n: nat, t: Tid)
    requires IsRun(r) && a <= n <= |r.steps|
    ensures Responses(r, a, t) <= Responses(r, n, t)
    decreases n
  {
    hide Response;
    if a < n { ResponsesGrow(r, a, n - 1, t); }
  }

  /**
   Main theorem, part three: real-time order. Call `i` of thread `t` has returned by step `a`;
   call `j` of thread `u` starts at step `a` or later, when `u` has had fewer than `j + 1`
   responses. In the history of every later moment that has both, the first call comes first.
   */
  lemma RealTimeOrder(r: Trace, a: nat, b: nat, n: nat, t: Tid, i: nat, u: Tid, j: nat)
    requires IsRun(r) && a <= b <= n <= |r.steps|
    requires i < |Responses(r, a, t)|
    requires u !in r.states[b].threads && |Responses(r, b, u)| <= j < |Of(Lin(r, n), u)|
    ensures i < |Of(Lin(r, n), t)| && Nth(Lin(r, n), t, i) < Nth(Lin(r, n), u, j)
    ensures Of(Lin(r, n), t)[i] == Responses(r, a, t)[i]
  {
    hide Pending, Lin, Responses, Of, Nth;
    OnceWithinCall(r, a, t);
    OnceWithinCall(r, b, u);
    OnceWithinCall(r, n, t);
    ResponsesGrow(r, a, n, t);
    LinGrows(r, a, n);
    LinGrows(r, b, n);
    LinGrows(r, a, b);
    OfPrefix(Lin(r, a), Lin(r, n), t);
    NthMore(Lin(r, a), Lin(r, n), t, i);
    NthMore(Lin(r, b), Lin(r, n), u, j);
  }

  // ---- Snapshots and cmp128 ----

  /** cmp128 is a compare-and-swap, yet it never changes the word it compares. */
  lemma CompareWritesNothing(r: Trace, n: nat)
    requires IsRun(r) && n < |r.steps| && r.steps[n].a.Exec?
    requires Takes(r.states[n], r.steps[n], r.states[n + 1])
    requires r.states[n].threads[r.steps[n].t].pc in {EnqCheck, DeqCheck}
    ensures r.states[n + 1].mem == r.states[n].mem
  {
    hide Chain, LocalInv, Run;
    ThreadInv(r, n, r.steps[n].t);
    CheckSame(r.states[n].mem, Order(r, n), r.states[n].threads[r.steps[n].t]);
  }

  lemma CheckSame(m: Mem, c: seq<Id>, l: Local)
    requires LocalInv(m, c, l) && Safe(m, l) && l.pc in {EnqCheck, DeqCheck}
    ensures Run(m, l).mem == m
  {
  }

  /** The tag half of the snapshot that a check validates was loaded at step `i`, in the same iteration. */
  ghost predicate TagLoadedAt(r: Trace, i: nat, k: nat, t: Tid, load: Pc)
    requires IsRun(r)
  {
    && i < k < |r.steps|
    && r.steps[i] == Label(t, LoadTag) && t in r.states[i].threads && r.states[i].threads[t].pc == load
    && (forall j :: i < j < k && r.steps[j].t == t ==> !r.steps[j].a.Exec?)
  }

  ghost predicate Holds(s: State, t: Tid, load: Pc, tag: nat) {
    && t in s.threads
    && (if load == EnqTail
        then s.threads[t].pc in {EnqTail, EnqNext, EnqAgain, EnqCheck} && s.threads[t].tail.tag == Read(tag)
        else s.threads[t].pc in {DeqHead, DeqTail, DeqNext, DeqAgain, DeqCheck} && s.threads[t].head.tag == Read(tag))
  }

  lemma {:induction false} TagKept(r: Trace, i: nat, k: nat, t: Tid, load: Pc, j: nat)
    requires IsRun(r) && TagLoadedAt(r, i, k, t, load) && load in {EnqTail, DeqHead} && i < j <= k
    ensures Holds(r.states[j], t, load, if load == EnqTail then r.states[i].mem.tail.tag else r.states[i].mem.head.tag)
    decreases j
  {
    assert Takes(r.states[j - 1], r.steps[j - 1], r.states[j]);
    if i < j - 1 { TagKept(r, i, k, t, load, j - 1); }
  }

  ghost predicate Snapshot(w: Snap, p: Ptr) { w == Snap(Read(p.ref), Read(p.tag)) }

  /** A snapshot that passes validation was the true value at every moment since its tag was loaded. */
  lemma ValidatedSnapshot(r: Trace, i: nat, k: nat, t: Tid, load: Pc, n: nat)
    requires IsRun(r) && TagLoadedAt(r, i, k, t, load) && load in {EnqTail, DeqHead} && i <= n <= k
    requires r.steps[k] == Label(t, Exec) && Takes(r.states[k], r.steps[k], r.states[k + 1])
    requires Succeeds(r.states[k].mem, r.states[k].threads[t])
    ensures load == EnqTail ==> Snapshot(r.states[k].threads[t].tail, r.states[n].mem.tail)
    ensures load == DeqHead ==> Snapshot(r.states[k].threads[t].head, r.states[n].mem.head)
  {
    TagKept(r, i, k, t, load, k);
    TagsGrow(r, i, n);
    TagsGrow(r, n, k);
  }
}
