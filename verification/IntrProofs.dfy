/** No interrupt is lost, none is duplicated, and the protocol comes to rest. */
module IntrProofs {
  import opened Counting
  import opened Intr

  // ---- The counter against the queue ----

  ghost function Uncounted(s: State): set<Tid> { set t | t in s.senders && s.senders[t].Counting? }

  /** What the queue guarantees: the counter lags behind by the calls that have not counted yet. */
  ghost predicate CountInv(s: State) {
    && s.count == |s.queue| - |Uncounted(s)| - Bit(s.self.SelfCounting?) + Bit(s.main.Tally?)
    && (s.main.Pull? ==> s.queue != [])
  }

  lemma CountStep(s: State, lb: Label)
    requires CountInv(s) && Enabled(s, lb)
    ensures CountInv(Next(s, lb))
  {
    if lb.Send? || lb.Step? { SenderCount(s, lb); } else { assert Uncounted(Next(s, lb)) == Uncounted(s); }
  }

  lemma SenderCount(s: State, lb: Label)
    requires CountInv(s) && Enabled(s, lb) && (lb.Send? || lb.Step?)
    ensures CountInv(Next(s, lb))
  {
    CardChange(Uncounted(s), Uncounted(Next(s, lb)), lb.t);
  }

  // ---- No lost interrupt ----

  ghost predicate Threatens(s: State, t: Tid) {
    && t in s.senders
    && (s.senders[t].Reading? || (s.senders[t].Deciding? && s.senders[t].size >= s.count) || s.senders[t].Killing?)
  }

  ghost predicate AnyKilling(s: State) { exists t :: t in s.senders && s.senders[t].Killing? }

  /** The core itself is already due to look at its queue. */
  predicate Awake(s: State) {
    s.signals > 0 || !s.handler.Off? || s.notified || !s.main.Guest? || s.self.SelfNotifying?
  }

  ghost predicate Covered(s: State) {
    Awake(s) || exists t :: Threatens(s, t)
  }

  ghost predicate WakeInv(s: State) {
    && 0 <= s.thresh <= 2 * MAX_INTR_THRESHOLD
    && (s.handler.Reset? ==> s.notified)
    && (s.sigPending ==> s.signals > 0 || !s.handler.Off? || AnyKilling(s))
    && (s.count > s.thresh ==> Covered(s))
  }

  lemma WakeStep(s: State, lb: Label)
    requires CountInv(s) && WakeInv(s) && Enabled(s, lb)
    ensures WakeInv(Next(s, lb))
  {
    PendingStep(s, lb);
    CoveredStep(s, lb);
  }

  /** sig_pending promises a signal that is queued, about to be sent, or being handled. */
  lemma PendingStep(s: State, lb: Label)
    requires WakeInv(s) && Enabled(s, lb)
    ensures var s' := Next(s, lb); s'.sigPending ==> s'.signals > 0 || !s'.handler.Off? || AnyKilling(s')
  {
    var s' := Next(s, lb);
    if s'.sigPending {
      if !s.sigPending {
        assert s'.senders[lb.t].Killing?;
      } else if s.signals == 0 && s.handler.Off? {
        var u :| u in s.senders && s.senders[u].Killing?;
        assert !(lb.Step? && lb.t == u) ==> u in s'.senders && s'.senders[u].Killing?;
      }
    }
  }

  lemma CoveredStep(s: State, lb: Label)
    requires CountInv(s) && WakeInv(s) && Enabled(s, lb)
    ensures Next(s, lb).count > Next(s, lb).thresh ==> Covered(Next(s, lb))
  {
    var s' := Next(s, lb);
    if s'.count > s'.thresh && !Awake(s') {
      if lb.Step? && s.senders[lb.t].Counting? {
        assert Threatens(s', lb.t);
      } else {
        assert s.count > s.thresh && !Awake(s);
        var u :| Threatens(s, u);
        if lb.Step? && lb.t == u { Replaced(s, lb); } else { assert Threatens(s', u); }
      }
    }
  }

  /** A sender that gives up leaves somebody else in charge. */
  lemma Replaced(s: State, lb: Label)
    requires WakeInv(s) && Enabled(s, lb) && lb.Step? && Threatens(s, lb.t)
    requires Next(s, lb).count > Next(s, lb).thresh && !Awake(Next(s, lb))
    ensures Covered(Next(s, lb))
  {
    var s' := Next(s, lb);
    if s.senders[lb.t].Deciding? && s.sigPending {
      var u :| u in s.senders && s.senders[u].Killing?;
      assert Threatens(s', u);
    } else {
      assert Threatens(s', lb.t);
    }
  }

  // ---- Whole runs ----

  lemma {:induction false} Reachable(r: Trace, n: nat)
    requires IsRun(r) && n <= |r.steps|
    ensures CountInv(r.states[n]) && WakeInv(r.states[n])
  {
    if n == 0 {
      assert Uncounted(r.states[0]) == {};
    } else {
      Reachable(r, n - 1);
      assert Takes(r.states[n - 1], r.steps[n - 1], r.states[n]);
      CountStep(r.states[n - 1], r.steps[n - 1]);
      WakeStep(r.states[n - 1], r.steps[n - 1]);
    }
  }

  ghost predicate SendersBusy(s: State) {
    exists t :: t in s.senders && !s.senders[t].Linking? && !s.senders[t].Counting?
  }

  /**
   No lost interrupt: while more interrupts wait than the threshold allows, a sender has yet to
   decide or to signal, a signal is queued, the handler runs, or a notified drain is not over.
   */
  lemma NoLostInterrupt(r: Trace, n: nat)
    requires IsRun(r) && n <= |r.steps| && r.states[n].count > r.states[n].thresh
    ensures SendersBusy(r.states[n]) || Awake(r.states[n])
  {
    Reachable(r, n);
    if !Awake(r.states[n]) {
      var t :| Threatens(r.states[n], t);
      assert t in r.states[n].senders;
    }
  }

  predicate AtRest(s: State) {
    s.senders == map[] && s.self.Quiet? && !Awake(s)
  }

  /** A core at rest leaves at most `thresh`, hence at most 100, interrupts waiting, and the counter is exact. */
  lemma RestIsBounded(r: Trace, n: nat)
    requires IsRun(r) && n <= |r.steps| && AtRest(r.states[n])
    ensures r.states[n].count == |r.states[n].queue| <= r.states[n].thresh <= 100
  {
    Reachable(r, n);
    assert Uncounted(r.states[n]) == {};
    assert forall t :: !Threatens(r.states[n], t);
  }

  /** The dequeue in coremu_get_intr never finds the queue empty after the size was positive. */
  lemma PullSucceeds(r: Trace, n: nat)
    requires IsRun(r) && n <= |r.steps| && r.states[n].main.Pull?
    ensures r.states[n].queue != []
  {
    Reachable(r, n);
  }

  // ---- Conservation of interrupts ----

  /** The event that a step puts into the queue. */
  ghost function Puts(s: State, lb: Label): seq<Event>
    requires Enabled(s, lb)
  {
    if lb.Step? && s.senders[lb.t].Linking? then [s.senders[lb.t].e]
    else if lb.StepSelf? && s.self.SelfLinking? then [s.self.e]
    else []
  }

  /** The event whose handling a step completes. */
  ghost function Finishes(s: State, lb: Label): seq<Event> {
    if lb.Drain? && s.main.Handle? then [s.main.e] else []
  }

  ghost function Sent(r: Trace, n: nat): seq<Event>
    requires IsRun(r) && n <= |r.steps|
  {
    if n == 0 then []
    else
      assert Takes(r.states[n - 1], r.steps[n - 1], r.states[n]);
      Sent(r, n - 1) + Puts(r.states[n - 1], r.steps[n - 1])
  }

  ghost function Handled(r: Trace, n: nat): seq<Event>
    requires IsRun(r) && n <= |r.steps|
  {
    if n == 0 then [] else Handled(r, n - 1) + Finishes(r.states[n - 1], r.steps[n - 1])
  }

  ghost function InHand(s: State): seq<Event> {
    if s.main.Tally? || s.main.Handle? then [s.main.e] else []
  }

  lemma FlowStep(s: State, lb: Label)
    requires Enabled(s, lb)
    ensures InHand(s) + s.queue + Puts(s, lb) == Finishes(s, lb) + InHand(Next(s, lb)) + Next(s, lb).queue
  {
    if lb.Drain? { DrainFlow(s); }
    else { assert Finishes(s, lb) == [] && InHand(Next(s, lb)) == InHand(s) && Next(s, lb).queue == s.queue + Puts(s, lb); }
  }

  lemma DrainFlow(s: State)
    requires Enabled(s, Drain)
    ensures InHand(s) + s.queue == Finishes(s, Drain) + InHand(Next(s, Drain)) + Next(s, Drain).queue
  {
    if s.main.Pull? && s.queue != [] { assert s.queue == [s.queue[0]] + s.queue[1..]; }
  }

  lemma Regroup(a: seq<Event>, b: seq<Event>, c: seq<Event>, d: seq<Event>, e: seq<Event>, f: seq<Event>, g: seq<Event>)
    requires b + c + d == e + f + g
    ensures a + b + c + d == a + e + f + g
  {
    assert a + b + c + d == a + (b + c + d);
    assert a + e + f + g == a + (e + f + g);
  }

  /** Every interrupt put into the queue is handled exactly once, in order, or is still there. */
  lemma {:induction false} NoneLostNoneTwice(r: Trace, n: nat)
    requires IsRun(r) && n <= |r.steps|
    ensures Sent(r, n) == Handled(r, n) + InHand(r.states[n]) + r.states[n].queue
  {
    if n > 0 {
      NoneLostNoneTwice(r, n - 1);
      var s, lb := r.states[n - 1], r.steps[n - 1];
      assert Takes(s, lb, r.states[n]);
      FlowStep(s, lb);
      Regroup(Handled(r, n - 1), InHand(s), s.queue, Puts(s, lb), Finishes(s, lb), InHand(r.states[n]), r.states[n].queue);
    }
  }

  // ---- Coming to rest ----

  /** The steps that a sender still causes, counting those of the core that it sets off. */
  function SenderWork(p: Sender): nat {
    match p
    case Linking(_) => 15
    case Counting => 10
    case Reading => 9
    case Deciding(_) => 8
    case Killing => 7
  }

  ghost function SendersWork(m: map<Tid, Sender>): nat {
    if m == map[] then 0
    else
      var t :| t in m;
      SenderWork(m[t]) + SendersWork(m - {t})
  }

  function MainWork(p: Main): nat {
    match p
    case Guest => 0
    case Check => 1
    case Pull => 0
    case Tally(_) => 3
    case Handle(_) => 2
  }

  function SelfWork(p: Self): nat {
    match p
    case Quiet => 0
    case SelfLinking(_) => 9
    case SelfCounting => 4
    case SelfNotifying => 3
  }

  function HandlerWork(p: Handler): nat {
    match p
    case Off => 0
    case Adjust => 5
    case Notify => 4
    case Reset => 1
  }

  function Work(s: State): nat {
    6 * s.signals + 4 * |s.queue| + (if s.notified then 2 else 0) + MainWork(s.main) + SelfWork(s.self) + HandlerWork(s.handler)
  }

  ghost function TotalWork(s: State): nat { Work(s) + SendersWork(s.senders) }

  predicate NewSend(lb: Label) { lb.Send? || lb.SendSelf? }

  lemma {:induction false} WorkSplit(m: map<Tid, Sender>, t: Tid)
    requires t in m
    ensures SendersWork(m) == SenderWork(m[t]) + SendersWork(m - {t})
    decreases |m|
  {
    var u :| u in m && SendersWork(m) == SenderWork(m[u]) + SendersWork(m - {u});
    if u != t {
      WorkSplit(m - {u}, t);
      WorkSplit(m - {t}, u);
      assert m - {u} - {t} == m - {t} - {u};
    }
  }

  function WorkOf(m: map<Tid, Sender>, t: Tid): nat { if t in m then SenderWork(m[t]) else 0 }

  lemma SenderEffect(s: State, lb: Label)
    requires Enabled(s, lb) && lb.Step?
    ensures var s' := Next(s, lb); Work(s') + WorkOf(s'.senders, lb.t) < Work(s) + WorkOf(s.senders, lb.t)
  {
    var s' := Next(s, lb);
    assert s'.notified == s.notified && s'.main == s.main && s'.self == s.self && s'.handler == s.handler;
    match s.senders[lb.t] {
      case Linking(e) => assert |s'.queue| == |s.queue| + 1;
      case Counting =>
      case Reading =>
      case Deciding(size) => assert s'.queue == s.queue && s'.signals == s.signals && WorkOf(s'.senders, lb.t) <= 7;
      case Killing =>
    }
  }

  lemma OthersSame(s: State, lb: Label)
    requires Enabled(s, lb) && lb.Step?
    ensures Next(s, lb).senders - {lb.t} == s.senders - {lb.t}
  {
  }

  lemma WorkParts(m: map<Tid, Sender>, t: Tid)
    ensures SendersWork(m) == WorkOf(m, t) + SendersWork(m - {t})
  {
    if t in m { WorkSplit(m, t); } else { assert m - {t} == m; }
  }

  lemma SenderProgress(s: State, lb: Label)
    requires Enabled(s, lb) && lb.Step?
    ensures TotalWork(Next(s, lb)) < TotalWork(s)
  {
    SenderEffect(s, lb);
    OthersSame(s, lb);
    WorkParts(s.senders, lb.t);
    WorkParts(Next(s, lb).senders, lb.t);
  }

  /** Every step other than a new send brings the system nearer to rest. */
  lemma Progress(s: State, lb: Label)
    requires Enabled(s, lb) && !NewSend(lb) && CountInv(s)
    ensures TotalWork(Next(s, lb)) < TotalWork(s)
  {
    if lb.Step? { SenderProgress(s, lb); } else { CoreProgress(s, lb); }
  }

  lemma CoreProgress(s: State, lb: Label)
    requires Enabled(s, lb) && !NewSend(lb) && !lb.Step? && CountInv(s)
    ensures Next(s, lb).senders == s.senders && Work(Next(s, lb)) < Work(s)
  {
    hide CountInv;
    match lb {
      case StepSelf =>
      case Poll =>
      case Drain => DrainProgress(s);
      case Deliver =>
      case Handling(_, _) =>
    }
  }

  lemma DrainProgress(s: State)
    requires Enabled(s, Drain) && CountInv(s)
    ensures Next(s, Drain).senders == s.senders && Work(Next(s, Drain)) < Work(s)
  {
    if s.main.Pull? { assert |Next(s, Drain).queue| == |s.queue| - 1; }
  }

  /** Something can always move until the core is at rest. */
  lemma StuckMeansRest(s: State)
    requires forall lb :: Enabled(s, lb) ==> NewSend(lb)
    ensures AtRest(s)
  {
    forall t | t in s.senders ensures false { assert Enabled(s, Step(t, false)); }
    assert s.senders == map[];
    assert !Enabled(s, Handling(0, 0)) && !Enabled(s, Deliver) && !Enabled(s, StepSelf) && !Enabled(s, Drain) && !Enabled(s, Poll);
  }

  /** Without new sends a run is over after at most TotalWork steps. */
  lemma {:induction false} ComesToRest(r: Trace, a: nat, n: nat)
    requires IsRun(r) && a <= n <= |r.steps|
    requires forall i :: a <= i < n ==> !NewSend(r.steps[i])
    ensures TotalWork(r.states[n]) + (n - a) <= TotalWork(r.states[a])
    decreases n
  {
    if a < n {
      ComesToRest(r, a, n - 1);
      Reachable(r, n - 1);
      assert Takes(r.states[n - 1], r.steps[n - 1], r.states[n]);
      Progress(r.states[n - 1], r.steps[n - 1]);
    }
  }

  /** No sender is in flight, and the core is awake for as long as something is queued. */
  ghost predicate Draining(s: State) {
    s.senders == map[] && (s.queue != [] ==> Awake(s) || s.self.SelfCounting?)
  }

  lemma DrainingStep(s: State, lb: Label)
    requires Draining(s) && CountInv(s) && WakeInv(s) && Enabled(s, lb) && !NewSend(lb)
    ensures Draining(Next(s, lb))
  {
    assert Uncounted(s) == {};
  }

  lemma {:induction false} StaysDraining(r: Trace, a: nat, n: nat)
    requires IsRun(r) && a <= n <= |r.steps| && Draining(r.states[a])
    requires forall i :: a <= i < n ==> !NewSend(r.steps[i])
    ensures Draining(r.states[n])
    decreases n
  {
    if a < n {
      StaysDraining(r, a, n - 1);
      Reachable(r, n - 1);
      assert Takes(r.states[n - 1], r.steps[n - 1], r.states[n]);
      DrainingStep(r.states[n - 1], r.steps[n - 1]);
    }
  }

  /**
   The wake-up works: once more interrupts wait than the threshold allows and the senders are
   done, the core does not come to rest before it has handled every one of them.
   */
  lemma WakeUpDrainsAll(r: Trace, a: nat, n: nat)
    requires IsRun(r) && a <= n <= |r.steps|
    requires r.states[a].senders == map[] && r.states[a].count > r.states[a].thresh
    requires forall i :: a <= i < n ==> !NewSend(r.steps[i])
    requires AtRest(r.states[n])
    ensures r.states[n].queue == [] && Handled(r, n) == Sent(r, n)
  {
    NoLostInterrupt(r, a);
    StaysDraining(r, a, n);
    NoneLostNoneTwice(r, n);
  }
}
