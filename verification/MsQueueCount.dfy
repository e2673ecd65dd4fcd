/**
 What the counter of the lock-free queue says about its length, and why a consumer that has
 seen a positive size cannot find the queue empty.
 */
module MsQueueCount {
  import opened Words
  import opened Counting
  import opened MsQueue
  import opened MsQueueInvariant
  import opened MsQueueFifo

  ghost predicate LinkedOnly(l: Local) { l.pc in {EnqSwing, EnqCount} }

  ghost predicate UnlinkedOnly(l: Local) { l.pc == DeqCount }

  /** Enqueues that are linked but not counted. */
  ghost function Uncounted(s: State): set<Tid> { set t | t in s.threads && LinkedOnly(s.threads[t]) }

  /** Dequeues that are unlinked but not counted. */
  ghost function Overcounted(s: State): set<Tid> { set t | t in s.threads && UnlinkedOnly(s.threads[t]) }

  ghost function Size(s: State): int {
    |Abs(s.mem)| - |Uncounted(s)| + |Overcounted(s)|
  }

  ghost predicate Was(s: State, t: Tid, pcs: set<Pc>) { t in s.threads && s.threads[t].pc in pcs }

  lemma SetsChange(s: State, lb: Label)
    requires Enabled(s, lb) && SafeLabel(s, lb)
    ensures var s' := Next(s, lb);
      && |Uncounted(s')| == |Uncounted(s)| - Bit(lb.t in Uncounted(s)) + Bit(lb.t in Uncounted(s'))
      && |Overcounted(s')| == |Overcounted(s)| - Bit(lb.t in Overcounted(s)) + Bit(lb.t in Overcounted(s'))
  {
    var s' := Next(s, lb);
    assert forall u :: u != lb.t ==> (u in s.threads <==> u in s'.threads);
    CardChange(Uncounted(s), Uncounted(s'), lb.t);
    CardChange(Overcounted(s), Overcounted(s'), lb.t);
  }

  ghost predicate Counts(s: State, lb: Label, pc: Pc) { lb.a.Exec? && Was(s, lb.t, {pc}) }

  lemma MembershipChange(s: State, lb: Label)
    requires Enabled(s, lb) && SafeLabel(s, lb)
    ensures var s', l := Next(s, lb), lb.t in s.threads;
      && Bit(lb.t in Uncounted(s')) - Bit(lb.t in Uncounted(s))
           == Bit(l && Links(s.mem, s.threads[lb.t])) - Bit(Counts(s, lb, EnqCount))
      && Bit(lb.t in Overcounted(s')) - Bit(lb.t in Overcounted(s))
           == Bit(l && Unlinks(s.mem, s.threads[lb.t])) - Bit(Counts(s, lb, DeqCount))
  {
  }

  /** Only the counting instructions change the size, each by one. */
  lemma SizeStep(s: State, c: seq<Id>, lb: Label)
    requires Inv(s, c) && Enabled(s, lb)
    ensures SafeLabel(s, lb)
    ensures Size(Next(s, lb)) == Size(s) + Bit(Counts(s, lb, EnqCount)) - Bit(Counts(s, lb, DeqCount))
  {
    Refines(s, c, lb);
    SetsChange(s, lb);
    MembershipChange(s, lb);
  }

  ghost predicate CountInv(s: State) {
    Congruent(Size(s), s.count)
  }

  lemma CountBase(s: State)
    requires Init(s)
    ensures CountInv(s)
  {
    assert Uncounted(s) == {} && Overcounted(s) == {} && Abs(s.mem) == [];
  }

  lemma CountStep(s: State, c: seq<Id>, lb: Label)
    requires Inv(s, c) && Enabled(s, lb) && CountInv(s)
    ensures SafeLabel(s, lb) && CountInv(Next(s, lb))
  {
    SizeStep(s, c, lb);
    CountValue(s, lb);
    WrapStep(Size(s), s.count, Bit(Counts(s, lb, EnqCount)), Bit(Counts(s, lb, DeqCount)), Size(Next(s, lb)), Next(s, lb).count);
  }

  lemma CountValue(s: State, lb: Label)
    requires Enabled(s, lb) && SafeLabel(s, lb)
    ensures !(Counts(s, lb, EnqCount) && Counts(s, lb, DeqCount))
    ensures Next(s, lb).count == Wrapped(s.count, Bit(Counts(s, lb, EnqCount)), Bit(Counts(s, lb, DeqCount)))
  {
  }

  /** Conservation: modulo 2^64 the counter is the length, less the uncounted, plus the overcounted. */
  lemma {:induction false} Conserved(r: Trace, n: nat)
    requires IsRun(r) && n <= |r.steps|
    ensures CountInv(r.states[n])
  {
    hide Inv, CountInv, Order, Next, Chain';
    if n == 0 {
      CountBase(r.states[0]);
    } else {
      Conserved(r, n - 1);
      Reachable(r, n - 1);
      assert Takes(r.states[n - 1], r.steps[n - 1], r.states[n]);
      CountStep(r.states[n - 1], Order(r, n - 1), r.steps[n - 1]);
    }
  }

  /** queue_get_size is exact whenever the true size fits a signed 64-bit integer. */
  lemma SizeIs(r: Trace, n: nat)
    requires IsRun(r) && n <= |r.steps| && -(WORD as int) / 2 <= Size(r.states[n]) < WORD / 2
    ensures r.states[n].count < WORD && Signed(r.states[n].count) == Size(r.states[n])
  {
    Conserved(r, n);
    SignedIs(Size(r.states[n]), r.states[n].count);
  }

  // ---- One consumer: coremu_get_intr reads the size, then dequeues ----

  /** From `a` up to `k`, nobody but `t` dequeues, and `t` has not returned from a call. */
  ghost predicate SoleConsumer(r: Trace, a: nat, k: nat, t: Tid)
    requires IsRun(r)
  {
    && a <= k < |r.steps|
    && t !in r.states[a].threads
    && (forall u :: u in r.states[a].threads ==> IsEnq(r.states[a].threads[u].pc))
    && (forall i :: a <= i < k && r.steps[i].a.StartDeq? ==> r.steps[i].t == t)
    && (forall i, j :: a <= i < k && j == i + 1 && r.steps[i].t == t ==> t in r.states[j].threads)
  }

  ghost predicate OthersEnqueue(s: State, t: Tid) {
    forall u :: u in s.threads && u != t ==> IsEnq(s.threads[u].pc)
  }

  /** Until `t` has unlinked a node, the queue stays non-empty and Head stays where it was. */
  ghost predicate StillThere(s: State, t: Tid, head: Ptr) {
    && OthersEnqueue(s, t)
    && ((t in s.threads && s.threads[t].pc == DeqCount) ||
        (s.mem.head == head && Abs(s.mem) != [] && (t in s.threads ==> NotFooled(s.mem, s.threads[t]))))
  }

  /** A NULL next that was loaded does not belong to the current Head. */
  ghost predicate NotFooled(m: Mem, l: Local) {
    l.pc in {DeqNext, DeqAgain, DeqCheck} && l.next.ref == Read(Null) ==> l.head.ref != Read(m.head.ref)
  }

  lemma StillThereStep(s: State, c: seq<Id>, lb: Label, t: Tid, head: Ptr)
    requires Inv(s, c) && Enabled(s, lb) && SafeLabel(s, lb) && StillThere(s, t, head)
    requires lb.a.StartDeq? ==> lb.t == t
    requires lb.t == t ==> t in Next(s, lb).threads
    ensures StillThere(Next(s, lb), t, head)
  {
    OthersStay(s, lb, t);
    if lb.t == t { OwnStillThere(s, c, lb, head); } else { OtherStillThere(s, c, lb, t, head); }
  }

  lemma OthersStay(s: State, lb: Label, t: Tid)
    requires Enabled(s, lb) && SafeLabel(s, lb) && OthersEnqueue(s, t)
    requires lb.a.StartDeq? ==> lb.t == t
    ensures OthersEnqueue(Next(s, lb), t)
  {
  }

  lemma OtherStillThere(s: State, c: seq<Id>, lb: Label, t: Tid, head: Ptr)
    requires Inv(s, c) && Enabled(s, lb) && SafeLabel(s, lb) && StillThere(s, t, head)
    requires lb.t != t && OthersEnqueue(Next(s, lb), t) && !lb.a.StartDeq?
    ensures StillThere(Next(s, lb), t, head)
  {
    Refines(s, c, lb);
    HeadKept(s, c, lb);
  }

  lemma OwnStillThere(s: State, c: seq<Id>, lb: Label, head: Ptr)
    requires Inv(s, c) && Enabled(s, lb) && SafeLabel(s, lb) && StillThere(s, lb.t, head)
    requires lb.t in Next(s, lb).threads && OthersEnqueue(Next(s, lb), lb.t)
    ensures StillThere(Next(s, lb), lb.t, head)
  {
    if lb.t in s.threads && Unlinks(s.mem, s.threads[lb.t]) {
    } else {
      Refines(s, c, lb);
      HeadKept(s, c, lb);
      NotFooledStep(s, c, lb);
    }
  }

  lemma NotFooledStep(s: State, c: seq<Id>, lb: Label)
    requires Inv(s, c) && Enabled(s, lb) && SafeLabel(s, lb) && Abs(s.mem) != []
    requires lb.t in s.threads ==> NotFooled(s.mem, s.threads[lb.t]) && s.threads[lb.t].pc != DeqCount
    requires Effect(s, lb).Stay? && Effect(s, lb).mem.head == s.mem.head
    ensures NotFooled(Effect(s, lb).mem, Effect(s, lb).local)
  {
    hide Inv, Abs, NotFooled, Run;
    match lb.a {
      case StartEnq(_, _, _) => StartNotFooled(s, lb);
      case StartDeq => StartNotFooled(s, lb);
      case LoadRef => LoadNotFooled(s, c, lb);
      case LoadTag => LoadNotFooled(s, c, lb);
      case Exec => RunNotFooled(s.mem, s.threads[lb.t]);
    }
  }

  lemma StartNotFooled(s: State, lb: Label)
    requires Enabled(s, lb) && SafeLabel(s, lb) && (lb.a.StartEnq? || lb.a.StartDeq?)
    ensures NotFooled(Effect(s, lb).mem, Effect(s, lb).local)
  {
  }

  /** The next field that the only consumer loads is not NULL. */
  lemma LoadNotFooled(s: State, c: seq<Id>, lb: Label)
    requires Inv(s, c) && Enabled(s, lb) && SafeLabel(s, lb) && (lb.a.LoadRef? || lb.a.LoadTag?) && Abs(s.mem) != []
    requires NotFooled(s.mem, s.threads[lb.t])
    ensures NotFooled(Effect(s, lb).mem, Effect(s, lb).local)
  {
    hide Private, EnqInv, Chain, LocalInv, NotBehind, Run;
    HasSuccessor(s.mem);
    if s.threads[lb.t].pc == DeqTail { EarlyLocal(s, c, lb.t); }
  }

  lemma HasSuccessor(m: Mem)
    requires Abs(m) != []
    ensures m.head.ref.To? && m.head.ref.id in m.nodes && m.nodes[m.head.ref.id].next.ref != Null
  {
  }

  lemma EarlyLocal(s: State, c: seq<Id>, t: Tid)
    requires Inv(s, c) && t in s.threads && s.threads[t].pc == DeqTail
    ensures s.threads[t].next == EMPTY
  {
    hide Private, Chain, Seen, NotBehind;
    assert LocalInv(s.mem, c, s.threads[t]);
  }

  lemma RunNotFooled(m: Mem, l: Local)
    requires !IsLoad(l.pc) && Safe(m, l) && l.pc != DeqCount && NotFooled(m, l)
    requires Run(m, l).Stay? && Run(m, l).mem.head == m.head
    ensures NotFooled(Run(m, l).mem, Run(m, l).local)
  {
  }

  lemma StaysThereNext(r: Trace, a: nat, k: nat, t: Tid, n: nat)
    requires IsRun(r) && SoleConsumer(r, a, k, t) && a <= n < k
    requires StillThere(r.states[n], t, r.states[a].mem.head)
    ensures StillThere(r.states[n + 1], t, r.states[a].mem.head)
  {
    Reachable(r, n);
    assert Takes(r.states[n], r.steps[n], r.states[n + 1]);
    StillThereStep(r.states[n], Order(r, n), r.steps[n], t, r.states[a].mem.head);
  }

  lemma {:induction false} StaysThere(r: Trace, a: nat, k: nat, t: Tid, n: nat)
    requires IsRun(r) && SoleConsumer(r, a, k, t) && a <= n <= k && Abs(r.states[a].mem) != []
    ensures StillThere(r.states[n], t, r.states[a].mem.head)
    decreases n
  {
    if a < n {
      StaysThere(r, a, k, t, n - 1);
      StaysThereNext(r, a, k, t, n - 1);
    }
  }

  /**
   The only consumer saw a positive size at `a` while in no call. The dequeue that it starts
   next cannot return false.
   */
  lemma PositiveSizeSuffices(r: Trace, a: nat, k: nat, t: Tid)
    requires IsRun(r) && SoleConsumer(r, a, k, t)
    requires -(WORD as int) / 2 <= Size(r.states[a]) < WORD / 2 && r.states[a].count < WORD && Signed(r.states[a].count) > 0
    requires r.steps[k] == Label(t, Exec) && Takes(r.states[k], r.steps[k], r.states[k + 1])
    ensures !ReturnsFalse(r.states[k].mem, r.states[k].threads[t])
  {
    SizeIs(r, a);
    assert Overcounted(r.states[a]) == {};
    StaysThere(r, a, k, t, k);
  }
}
