/** What every step of the enumeration keeps, and what that means over whole runs. */
module UsbProofs {
  import opened Usb
  import T = Threads

  // ---- Invariants ----

  ghost predicate RingInv(s: State) { T.Good(s.ring) && s.running.Keys == T.Set(s.ring) }

  /** Tasks belong to live hubs. */
  ghost predicate TaskInv(s: State) {
    forall k :: k in s.tasks ==> k.hub < |s.hubs| && s.hubs[k.hub].live && k.index < s.hubs[k.hub].next
  }

  /** A thread runs a task or a hub that names it, and that is not waiting for a call to return. */
  ghost predicate RunOk(s: State, t: T.Tid)
    requires t in s.running
  {
    match s.running[t]
    case Other => true
    case Port(k) => k in s.tasks && s.tasks[k].thread == t && !s.tasks[k].pc.Nested?
    case Enum(h) => h < |s.hubs| && s.hubs[h].live && s.hubs[h].thread == t && NoCall(s, h)
  }

  /** No task of the hub has been called directly by its enumeration. */
  ghost predicate NoCall(s: State, h: nat) { forall k :: k in s.tasks && k.hub == h ==> s.tasks[k].own }

  ghost predicate RunInv(s: State) { forall t :: t in s.running ==> RunOk(s, t) }

  /** A task called directly is the last one launched, and runs on the thread of the enumeration. */
  ghost predicate CallInv(s: State) {
    forall k :: k in s.tasks && !s.tasks[k].own && k.hub < |s.hubs| ==>
      k.index + 1 == s.hubs[k.hub].next && s.tasks[k].thread == s.hubs[k.hub].thread
  }

  /** A live hub below the root is held by the task that found it, on an older hub. */
  ghost predicate NestOk(s: State, h: nat)
    requires h < |s.hubs|
  {
    match s.hubs[h].caller
    case Other => h == 0
    case Enum(_) => false
    case Port(k) => k in s.tasks && s.tasks[k].pc == Nested(h) && k.hub < h && s.tasks[k].thread == s.hubs[h].thread
  }

  ghost predicate NestInv(s: State) { forall h :: 0 <= h < |s.hubs| && s.hubs[h].live ==> NestOk(s, h) }

  function ActiveOf(tasks: map<Task, PortTask>, h: nat): set<Task> { set k | k in tasks && k.hub == h }

  /** hub->threads counts the ports not yet launched and the tasks not yet finished. */
  ghost predicate CountOk(s: State, h: nat)
    requires h < |s.hubs|
  {
    s.hubs[h].next <= s.hubs[h].portcount && s.hubs[h].threads == s.hubs[h].portcount - s.hubs[h].next + |ActiveOf(s.tasks, h)|
  }

  ghost predicate CountInv(s: State) { forall h :: 0 <= h < |s.hubs| && s.hubs[h].live ==> CountOk(s, h) }

  /** A task that has not read its port yet is running, and hub->port is still its own; the others have read theirs. */
  ghost predicate PortOk(s: State, k: Task)
    requires k in s.tasks && k.hub < |s.hubs|
  {
    if s.tasks[k].pc.ReadPort?
    then s.ring != [] && s.ring[0] in s.running && s.running[s.ring[0]] == Port(k) && s.hubs[k.hub].port == k.index == s.hubs[k.hub].next - 1
    else s.tasks[k].port == k.index
  }

  ghost predicate PortInv(s: State) { forall k :: k in s.tasks && k.hub < |s.hubs| ==> PortOk(s, k) }

  ghost predicate Pending(s: State, k: Task) { k in s.tasks && s.tasks[k].pc.ReadPort? }

  /** The ports read so far are 0, 1, 2 and so on, one for each launch. */
  ghost predicate ReadOk(s: State, h: nat)
    requires h < |s.hubs|
  {
    var hub := s.hubs[h];
    && |hub.read| == (if hub.next > 0 && Pending(s, Task(h, hub.next - 1)) then hub.next - 1 else hub.next)
    && forall i :: 0 <= i < |hub.read| ==> hub.read[i] == i
  }

  ghost predicate ReadInv(s: State) { forall h :: 0 <= h < |s.hubs| && s.hubs[h].live ==> ReadOk(s, h) }

  predicate Critical(pc: Pc) { pc.Reset? || pc.Address? || pc.Settle? || pc.Sending? || pc.Recover? || pc.Unlock? }

  ghost predicate Holds(s: State, k: Task) { k in s.tasks && Critical(s.tasks[k].pc) }

  /** The reset lock is held exactly when one task is between the reset and the end of set-address. */
  ghost predicate LockInv(s: State) {
    && (forall j, k :: Holds(s, j) && Holds(s, k) ==> j == k)
    && (s.locked <==> exists k :: Holds(s, k))
  }

  ghost predicate AddressOk(s: State, p: PortTask) {
    && (p.pc.Settle? || p.pc.Sending? || p.pc.Recover? ==> s.maxaddr < USB_MAXADDR)
    && (p.pc.Sending? || p.pc.Recover? ==> p.told == s.maxaddr + 1)
  }

  ghost predicate AddressInv(s: State) {
    && s.maxaddr == |s.grants| <= USB_MAXADDR
    && (forall i :: 0 <= i < |s.grants| ==> s.grants[i].addr == i + 1 && s.grants[i].told == i + 1)
    && (forall k :: k in s.tasks ==> AddressOk(s, s.tasks[k]))
  }

  /** Who runs what, and which hub and task hold which. */
  ghost predicate Shape(s: State) {
    RingInv(s) && TaskInv(s) && RunInv(s) && CallInv(s) && NestInv(s) && PortInv(s)
  }

  ghost predicate Inv(s: State) {
    Shape(s) && CountInv(s) && ReadInv(s) && LockInv(s) && AddressInv(s)
  }

  // ---- Other threads, and turns given up ----

  /** Only the ring and the threads outside the enumeration change. */
  ghost predicate Switched(s: State, s': State) {
    && Sane(s') && RingInv(s') && s'.hubs == s.hubs && s'.tasks == s.tasks
    && s'.maxaddr == s.maxaddr && s'.locked == s.locked && s'.grants == s.grants
    && forall t :: t in s'.running ==> s'.running[t].Other? || (t in s.running && s'.running[t] == s.running[t])
  }

  predicate Switching(l: Label) { l.Yields? || l.OtherSpawns? || l.OtherExits? }

  lemma SwitchedIs(s: State, l: Label)
    requires RingInv(s) && Enabled(s, l) && Switching(l)
    ensures Switched(s, Next(s, l))
  {
    hide T.Apply, T.Set, T.Good;
    match l {
      case Yields => T.ApplyGood(s.ring, T.Yield);
      case OtherSpawns(t) => T.ApplyGood(s.ring, T.Spawn(t));
      case OtherExits => T.ApplyGood(s.ring, T.Exit);
    }
    RingSane(Next(s, l));
  }

  lemma RingSane(s: State)
    requires RingInv(s)
    ensures Sane(s)
  {
    assert s.ring[0] in T.Set(s.ring);
  }

  /** The running thread is not about to read its port. */
  predicate NotReading(s: State)
    requires Sane(s)
  {
    Doing(s).Port? && Doing(s).task in s.tasks ==> !s.tasks[Doing(s).task].pc.ReadPort?
  }

  lemma SwitchShape(s: State, s': State)
    requires Shape(s) && Sane(s) && Switched(s, s') && NotReading(s)
    ensures Shape(s')
  {
    forall t | t in s'.running ensures RunOk(s', t) {
      if t in s.running { assert RunOk(s, t); }
    }
    forall k | k in s'.tasks && k.hub < |s'.hubs| ensures PortOk(s', k) { assert PortOk(s, k); }
    forall h | 0 <= h < |s'.hubs| && s'.hubs[h].live ensures NestOk(s', h) { assert NestOk(s, h); }
  }

  // ---- A task moves on ----

  ghost predicate SameHub(h: Hub, h': Hub) { h' == h.(read := h'.read) }

  /** Only the running task changes, and it does not start to wait for a hub. */
  ghost predicate MovedOn(s: State, s': State, p: PortTask) {
    && Sane(s) && InTask(s) && s'.ring == s.ring && s'.running == s.running
    && p.thread == Mine(s).thread && p.own == Mine(s).own && !p.pc.Nested? && !p.pc.ReadPort? && p.port == Doing(s).task.index
    && s'.tasks == s.tasks[Doing(s).task := p]
    && |s'.hubs| == |s.hubs| && forall h :: 0 <= h < |s.hubs| ==> SameHub(s.hubs[h], s'.hubs[h])
  }

  predicate Moving(l: Label) {
    l.Reads? || l.Detected? || l.Locks? || l.ResetDone? || l.Checks? || l.Tells? || l.Sent? || l.Assigns? || l.Unlocks? || l.Configured?
  }

  lemma MovedIs(s: State, l: Label)
    requires PortInv(s) && Enabled(s, l) && Moving(l)
    ensures InTask(Next(s, l)) && MovedOn(s, Next(s, l), Mine(Next(s, l)))
  {
    assert PortOk(s, Doing(s).task);
  }

  lemma MoveRun(s: State, s': State, p: PortTask, t: T.Tid)
    requires RunInv(s) && MovedOn(s, s', p) && t in s.running
    ensures RunOk(s', t)
  {
    assert RunOk(s, t) && RunOk(s, s.ring[0]);
  }

  lemma MoveNest(s: State, s': State, p: PortTask, h: nat)
    requires RunInv(s) && NestInv(s) && MovedOn(s, s', p) && h < |s.hubs| && s'.hubs[h].live
    ensures NestOk(s', h)
  {
    assert RunOk(s, s.ring[0]) && SameHub(s.hubs[h], s'.hubs[h]) && NestOk(s, h);
  }

  lemma MoveTasks(s: State, s': State, p: PortTask)
    requires TaskInv(s) && CallInv(s) && MovedOn(s, s', p)
    ensures TaskInv(s') && CallInv(s')
  {
    assert SameHub(s.hubs[Doing(s).task.hub], s'.hubs[Doing(s).task.hub]);
  }

  lemma MovePort(s: State, s': State, p: PortTask, k: Task)
    requires PortInv(s) && MovedOn(s, s', p) && k in s'.tasks && k.hub < |s'.hubs|
    ensures PortOk(s', k)
  {
    if k in s.tasks { assert PortOk(s, k) && SameHub(s.hubs[k.hub], s'.hubs[k.hub]); }
  }

  lemma MoveShape(s: State, s': State, p: PortTask)
    requires Shape(s) && MovedOn(s, s', p)
    ensures Shape(s')
  {
    hide RunOk, NestOk, PortOk, TaskInv, CallInv;
    forall t | t in s'.running ensures RunOk(s', t) { MoveRun(s, s', p, t); }
    forall h | 0 <= h < |s'.hubs| && s'.hubs[h].live ensures NestOk(s', h) { MoveNest(s, s', p, h); }
    forall k | k in s'.tasks && k.hub < |s'.hubs| ensures PortOk(s', k) { MovePort(s, s', p, k); }
    MoveTasks(s, s', p);
  }

  // ---- A port is launched ----

  /** A new task of the running enumeration, on thread `t`. */
  ghost predicate LaunchedOn(s: State, s': State, t: T.Tid, own: bool) {
    && Sane(s) && InEnum(s) && Sane(s') && s'.ring[0] == t
    && var h := Doing(s).hub; var k := Task(h, s.hubs[h].next);
       && s.hubs[h].next < s.hubs[h].portcount && (if own then t !in s.running else t == Cur(s))
       && s'.hubs == s.hubs[h := s.hubs[h].(port := s.hubs[h].next, next := s.hubs[h].next + 1)]
       && s'.tasks == s.tasks[k := PortTask(ReadPort, 0, 0, t, own)]
       && s'.running == s.running[t := Port(k)]
  }

  lemma LaunchIs(s: State, l: Label)
    requires RingInv(s) && Enabled(s, l) && (l.Launches? || l.Calls?)
    ensures RingInv(Next(s, l)) && LaunchedOn(s, Next(s, l), if l.Launches? then l.t else Cur(s), l.Launches?)
  {
    hide T.Set, T.Good;
    if l.Launches? {
      T.ApplyGood(s.ring, T.Spawn(l.t));
      NotIn(s.ring, l.t);
    }
    RingSane(Next(s, l));
  }

  lemma NotIn(r: T.Ring, t: T.Tid)
    requires t !in r
    ensures t !in T.Set(r)
  {
  }

  lemma LaunchFresh(s: State, s': State, t: T.Tid, own: bool)
    requires TaskInv(s) && RunInv(s) && LaunchedOn(s, s', t, own)
    ensures var h := Doing(s).hub; Task(h, s.hubs[h].next) !in s.tasks && s.hubs[h].live && s.hubs[h].thread == Cur(s) && NoCall(s, h)
  {
    assert RunOk(s, s.ring[0]);
  }

  lemma LaunchRun(s: State, s': State, t: T.Tid, own: bool, u: T.Tid)
    requires TaskInv(s) && RunInv(s) && LaunchedOn(s, s', t, own) && u in s'.running
    ensures RunOk(s', u)
  {
    LaunchFresh(s, s', t, own);
    if u != t { assert RunOk(s, u); }
  }

  lemma LaunchTasks(s: State, s': State, t: T.Tid, own: bool)
    requires TaskInv(s) && RunInv(s) && CallInv(s) && LaunchedOn(s, s', t, own)
    ensures TaskInv(s') && CallInv(s')
  {
    LaunchFresh(s, s', t, own);
  }

  lemma LaunchNest(s: State, s': State, t: T.Tid, own: bool, h: nat)
    requires TaskInv(s) && RunInv(s) && NestInv(s) && LaunchedOn(s, s', t, own) && h < |s'.hubs| && s'.hubs[h].live
    ensures NestOk(s', h)
  {
    LaunchFresh(s, s', t, own);
    assert NestOk(s, h);
  }

  lemma LaunchPort(s: State, s': State, t: T.Tid, own: bool, k: Task)
    requires TaskInv(s) && RunInv(s) && PortInv(s) && LaunchedOn(s, s', t, own) && k in s'.tasks && k.hub < |s'.hubs|
    ensures PortOk(s', k)
  {
    if k in s.tasks { assert PortOk(s, k); }
  }

  lemma LaunchShape(s: State, s': State, t: T.Tid, own: bool)
    requires Shape(s) && RingInv(s') && LaunchedOn(s, s', t, own)
    ensures Shape(s')
  {
    hide RunOk, NestOk, PortOk, TaskInv, CallInv, LaunchedOn, RingInv;
    forall u | u in s'.running ensures RunOk(s', u) { LaunchRun(s, s', t, own, u); }
    forall h | 0 <= h < |s'.hubs| && s'.hubs[h].live ensures NestOk(s', h) { LaunchNest(s, s', t, own, h); }
    forall k | k in s'.tasks && k.hub < |s'.hubs| ensures PortOk(s', k) { LaunchPort(s, s', t, own, k); }
    LaunchTasks(s, s', t, own);
  }

  // ---- A task finds a hub ----

  ghost predicate FoundHub(s: State, s': State, ports: nat) {
    Sane(s) && InTask(s) && Mine(s).pc.Configure? && s' == Found(s, ports)
  }

  lemma FoundRun(s: State, s': State, ports: nat, t: T.Tid)
    requires TaskInv(s) && RunInv(s) && FoundHub(s, s', ports) && t in s'.running
    ensures RunOk(s', t)
  {
    assert RunOk(s, s.ring[0]);
    if t != s.ring[0] { assert RunOk(s, t); }
  }

  lemma FoundNest(s: State, s': State, ports: nat, h: nat)
    requires TaskInv(s) && RunInv(s) && NestInv(s) && FoundHub(s, s', ports) && h < |s'.hubs| && s'.hubs[h].live
    ensures NestOk(s', h)
  {
    assert RunOk(s, s.ring[0]);
    if h < |s.hubs| { assert NestOk(s, h); }
  }

  lemma FoundPort(s: State, s': State, ports: nat, k: Task)
    requires PortInv(s) && TaskInv(s) && FoundHub(s, s', ports) && k in s'.tasks && k.hub < |s'.hubs|
    ensures PortOk(s', k)
  {
    assert PortOk(s, k);
  }

  lemma FoundTasks(s: State, s': State, ports: nat)
    requires TaskInv(s) && CallInv(s) && FoundHub(s, s', ports)
    ensures TaskInv(s') && CallInv(s')
  {
  }

  lemma FoundShape(s: State, s': State, ports: nat)
    requires Shape(s) && FoundHub(s, s', ports)
    ensures Shape(s')
  {
    assert RingInv(s') by { assert s'.running.Keys == s.running.Keys; }
    hide RunOk, NestOk, PortOk, TaskInv, CallInv, FoundHub, RingInv;
    forall t | t in s'.running ensures RunOk(s', t) { FoundRun(s, s', ports, t); }
    forall h | 0 <= h < |s'.hubs| && s'.hubs[h].live ensures NestOk(s', h) { FoundNest(s, s', ports, h); }
    forall k | k in s'.tasks && k.hub < |s'.hubs| ensures PortOk(s', k) { FoundPort(s, s', ports, k); }
    FoundTasks(s, s', ports);
  }

  // ---- usb_enumerate returns ----

  /** The running enumeration has nothing left to wait for. */
  ghost predicate Idle(s: State) {
    Sane(s) && InEnum(s) && s.hubs[Doing(s).hub].live && (forall k :: k in s.tasks ==> k.hub != Doing(s).hub)
  }

  /** hub->threads is zero only if no task of the hub is left. */
  lemma ZeroMeansIdle(s: State)
    requires RunInv(s) && CountInv(s) && Enabled(s, Returns)
    ensures Idle(s)
  {
    var h := Doing(s).hub;
    assert RunOk(s, s.ring[0]) && CountOk(s, h);
    assert ActiveOf(s.tasks, h) == {};
    forall k | k in s.tasks ensures k.hub != h { assert k.hub == h ==> k in ActiveOf(s.tasks, h); }
  }

  lemma ReturnRun(s: State, t: T.Tid)
    requires RunInv(s) && NestInv(s) && Idle(s) && t in s.running
    ensures RunOk(Returned(s), t)
  {
    assert RunOk(s, s.ring[0]) && NestOk(s, Doing(s).hub) && RunOk(s, t);
  }

  lemma ReturnNest(s: State, h: nat)
    requires RunInv(s) && NestInv(s) && Idle(s) && h < |s.hubs| && Returned(s).hubs[h].live
    ensures NestOk(Returned(s), h)
  {
    assert NestOk(s, Doing(s).hub) && NestOk(s, h);
  }

  lemma ReturnPort(s: State, k: Task)
    requires PortInv(s) && RunInv(s) && NestInv(s) && Idle(s) && k in s.tasks && k.hub < |s.hubs|
    ensures PortOk(Returned(s), k)
  {
    assert NestOk(s, Doing(s).hub) && PortOk(s, k);
  }

  lemma ReturnTasks(s: State)
    requires TaskInv(s) && CallInv(s) && NestInv(s) && Idle(s)
    ensures TaskInv(Returned(s)) && CallInv(Returned(s)) && Returned(s).tasks.Keys == s.tasks.Keys
  {
    hide Returned, NestInv;
    ReturnKeeps(s);
    var s' := Returned(s);
    assert s'.tasks.Keys == s.tasks.Keys;
    forall k | k in s'.tasks ensures k in s.tasks && k.hub < |s.hubs| && s'.hubs[k.hub] == s.hubs[k.hub] {
      assert k in s.tasks.Keys;
    }
  }

  /** Only the hub left dies, and only the task that found it moves on. */
  lemma ReturnKeeps(s: State)
    requires NestInv(s) && Idle(s)
    ensures var s', h := Returned(s), Doing(s).hub;
      && s'.tasks.Keys == s.tasks.Keys && |s'.hubs| == |s.hubs|
      && (forall k :: k in s.tasks ==> s'.tasks[k].own == s.tasks[k].own && s'.tasks[k].thread == s.tasks[k].thread)
      && forall g :: 0 <= g < |s.hubs| && g != h ==> s'.hubs[g] == s.hubs[g]
  {
    assert NestOk(s, Doing(s).hub);
  }

  lemma ReturnShape(s: State)
    requires Shape(s) && Idle(s)
    ensures Shape(Returned(s))
  {
    var s' := Returned(s);
    assert RingInv(s') by { assert s'.running.Keys == s.running.Keys; }
    ReturnTasks(s);
    hide RunOk, NestOk, PortOk, TaskInv, CallInv, RingInv, Idle;
    forall t | t in s'.running ensures RunOk(s', t) { ReturnRun(s, t); }
    forall h | 0 <= h < |s'.hubs| && s'.hubs[h].live ensures NestOk(s', h) { ReturnNest(s, h); }
    forall k | k in s'.tasks && k.hub < |s'.hubs| ensures PortOk(s', k) { ReturnPort(s, k); }
  }

  // ---- A task ends ----

  ghost predicate Ending(s: State) { Sane(s) && InTask(s) && Mine(s).pc.Finish? }

  lemma EndRun(s: State, t: T.Tid)
    requires TaskInv(s) && RunInv(s) && CallInv(s) && Ending(s) && t in s.running
    ensures RunOk(Ended(s), t)
  {
    assert RunOk(s, s.ring[0]) && RunOk(s, t);
  }

  lemma EndNest(s: State, h: nat)
    requires RunInv(s) && NestInv(s) && Ending(s) && h < |s.hubs| && Ended(s).hubs[h].live
    ensures NestOk(Ended(s), h)
  {
    assert NestOk(s, h);
  }

  lemma EndPort(s: State, k: Task)
    requires PortInv(s) && Ending(s) && k in Ended(s).tasks && k.hub < |s.hubs|
    ensures PortOk(Ended(s), k)
  {
    assert PortOk(s, k);
  }

  lemma EndTasks(s: State)
    requires TaskInv(s) && CallInv(s) && Ending(s)
    ensures TaskInv(Ended(s)) && CallInv(Ended(s))
  {
  }

  lemma EndShape(s: State)
    requires Shape(s) && Ending(s)
    ensures Shape(Ended(s))
  {
    var s' := Ended(s);
    assert RingInv(s') by { assert s'.running.Keys == s.running.Keys; }
    EndTasks(s);
    hide RunOk, NestOk, PortOk, TaskInv, CallInv, RingInv, Ending;
    forall t | t in s'.running ensures RunOk(s', t) { EndRun(s, t); }
    forall h | 0 <= h < |s'.hubs| && s'.hubs[h].live ensures NestOk(s', h) { EndNest(s, h); }
    forall k | k in s'.tasks && k.hub < |s'.hubs| ensures PortOk(s', k) { EndPort(s, k); }
  }

  // ---- Counting ----

  lemma SameActive(s: State, s': State)
    requires CountInv(s) && s'.tasks.Keys == s.tasks.Keys && |s'.hubs| == |s.hubs|
    requires forall h :: 0 <= h < |s.hubs| && s'.hubs[h].live ==>
      s.hubs[h].live && s'.hubs[h].next == s.hubs[h].next && s'.hubs[h].portcount == s.hubs[h].portcount && s'.hubs[h].threads == s.hubs[h].threads
    ensures CountInv(s')
  {
    forall h | 0 <= h < |s'.hubs| && s'.hubs[h].live ensures CountOk(s', h) {
      assert CountOk(s, h) && ActiveOf(s'.tasks, h) == ActiveOf(s.tasks, h);
    }
  }

  lemma LaunchCount(s: State, s': State, t: T.Tid, own: bool)
    requires TaskInv(s) && RunInv(s) && CountInv(s) && LaunchedOn(s, s', t, own)
    ensures CountInv(s')
  {
    hide CountOk, RunInv, TaskInv;
    LaunchFresh(s, s', t, own);
    forall h | 0 <= h < |s'.hubs| && s'.hubs[h].live ensures CountOk(s', h) {
      LaunchCountAt(s, s', Task(Doing(s).hub, s.hubs[Doing(s).hub].next), h);
    }
  }

  lemma LaunchCountAt(s: State, s': State, k: Task, h: nat)
    requires k !in s.tasks && s'.tasks.Keys == s.tasks.Keys + {k} && h < |s.hubs| && h < |s'.hubs| && CountOk(s, h)
    requires s'.hubs[h].portcount == s.hubs[h].portcount && s'.hubs[h].threads == s.hubs[h].threads
    requires if h == k.hub then s'.hubs[h].next == s.hubs[h].next + 1 <= s.hubs[h].portcount else s'.hubs[h].next == s.hubs[h].next
    ensures CountOk(s', h)
  {
    assert ActiveOf(s'.tasks, h) == if h == k.hub then ActiveOf(s.tasks, h) + {k} else ActiveOf(s.tasks, h);
  }

  lemma FoundCount(s: State, s': State, ports: nat)
    requires TaskInv(s) && CountInv(s) && FoundHub(s, s', ports)
    ensures CountInv(s')
  {
    forall h | 0 <= h < |s'.hubs| && s'.hubs[h].live ensures CountOk(s', h) {
      assert ActiveOf(s'.tasks, h) == if h < |s.hubs| then ActiveOf(s.tasks, h) else {};
      if h < |s.hubs| { assert CountOk(s, h); }
    }
  }

  lemma EndCount(s: State)
    requires CountInv(s) && Ending(s)
    ensures CountInv(Ended(s))
  {
    var s', k := Ended(s), Doing(s).task;
    forall h | 0 <= h < |s'.hubs| && s'.hubs[h].live ensures CountOk(s', h) {
      assert CountOk(s, h);
      assert ActiveOf(s'.tasks, h) == if h == k.hub then ActiveOf(s.tasks, h) - {k} else ActiveOf(s.tasks, h);
      if h == k.hub { assert k in ActiveOf(s.tasks, h); }
    }
  }

  // ---- The ports read ----

  lemma SameReads(s: State, s': State)
    requires ReadInv(s) && forall k :: Pending(s', k) <==> Pending(s, k)
    requires forall h :: 0 <= h < |s'.hubs| && s'.hubs[h].live ==>
      if h < |s.hubs| then s.hubs[h].live && s'.hubs[h].next == s.hubs[h].next && s'.hubs[h].read == s.hubs[h].read
      else s'.hubs[h].next == 0 && s'.hubs[h].read == []
    ensures ReadInv(s')
  {
    forall h | 0 <= h < |s'.hubs| && s'.hubs[h].live ensures ReadOk(s', h) {
      if h < |s.hubs| { assert ReadOk(s, h); }
    }
  }

  lemma LaunchReads(s: State, s': State, t: T.Tid, own: bool)
    requires ReadInv(s) && TaskInv(s) && RunInv(s) && PortInv(s) && LaunchedOn(s, s', t, own)
    ensures ReadInv(s')
  {
    LaunchFresh(s, s', t, own);
    forall k | k in s.tasks ensures !Pending(s, k) { assert PortOk(s, k); }
    forall h | 0 <= h < |s'.hubs| && s'.hubs[h].live ensures ReadOk(s', h) { assert ReadOk(s, h); }
  }

  lemma ReadsReads(s: State)
    requires ReadInv(s) && PortInv(s) && Enabled(s, Reads)
    ensures ReadInv(Next(s, Reads))
  {
    var s', me := Next(s, Reads), Doing(s).task;
    assert PortOk(s, me) && Pending(s, me);
    forall h | 0 <= h < |s'.hubs| && s'.hubs[h].live ensures ReadOk(s', h) {
      assert ReadOk(s, h);
    }
  }

  lemma MoveReads(s: State, l: Label)
    requires ReadInv(s) && PortInv(s) && Enabled(s, l) && Moving(l)
    ensures ReadInv(Next(s, l))
  {
    hide PortInv, ReadInv;
    if l.Reads? { ReadsReads(s); } else {
      var s' := Next(s, l);
      assert forall k :: Pending(s', k) <==> Pending(s, k);
      SameReads(s, s');
    }
  }

  // ---- The reset lock and the addresses ----

  /** No task enters, leaves or moves between the reset and the end of set-address. */
  ghost predicate Quiet(s: State, s': State) {
    && s'.locked == s.locked && s'.maxaddr == s.maxaddr && s'.grants == s.grants
    && (forall k :: Holds(s, k) ==> Holds(s', k))
    && (forall k :: Holds(s', k) ==> k in s.tasks && s'.tasks[k] == s.tasks[k])
  }

  lemma QuietLock(s: State, s': State)
    requires Quiet(s, s') && LockInv(s) && AddressInv(s)
    ensures LockInv(s') && AddressInv(s')
  {
    assert forall k :: Holds(s', k) <==> Holds(s, k);
    forall k | k in s'.tasks ensures AddressOk(s', s'.tasks[k]) {
      if Holds(s', k) { assert AddressOk(s, s.tasks[k]); }
    }
  }

  /** One task enters, leaves, or stays where it is. */
  lemma LockChange(s: State, s': State, me: Task)
    requires LockInv(s) && forall k :: k != me ==> (Holds(s', k) <==> Holds(s, k))
    requires
      || (Holds(s', me) == Holds(s, me) && s'.locked == s.locked)
      || (Holds(s', me) && !s.locked && s'.locked)
      || (Holds(s, me) && !Holds(s', me) && !s'.locked)
    ensures LockInv(s')
  {
    assert s'.locked ==> exists k :: Holds(s', k);
  }

  lemma MoveLock(s: State, l: Label)
    requires LockInv(s) && Enabled(s, l) && Moving(l)
    ensures LockInv(Next(s, l))
  {
    hide LockInv;
    var s', me := Next(s, l), Doing(s).task;
    assert forall k :: k != me ==> (Holds(s', k) <==> Holds(s, k));
    LockChange(s, s', me);
  }

  /** Addresses are handed out one after the other: whoever has been told one still holds the lock when it is assigned. */
  lemma MoveAddress(s: State, l: Label)
    requires LockInv(s) && AddressInv(s) && Enabled(s, l) && Moving(l)
    ensures AddressInv(Next(s, l))
  {
    var s', me := Next(s, l), Doing(s).task;
    assert AddressOk(s, s.tasks[me]);
    forall k | k in s'.tasks ensures AddressOk(s', s'.tasks[k]) {
      if k != me {
        assert AddressOk(s, s.tasks[k]);
        assert l.Assigns? ==> Holds(s, me) && !Holds(s, k);
      }
    }
  }

  // ---- Every step ----

  lemma SwitchInv(s: State, l: Label)
    requires Inv(s) && Enabled(s, l) && Switching(l)
    ensures Inv(Next(s, l))
  {
    SwitchedIs(s, l);
    var s' := Next(s, l);
    assert NotReading(s);
    hide Enabled, Next, Shape, CountInv, ReadInv, LockInv, AddressInv;
    SwitchShape(s, s');
    SameActive(s, s');
    SameReads(s, s');
    QuietLock(s, s');
  }

  lemma MoveInv(s: State, l: Label)
    requires Inv(s) && Enabled(s, l) && Moving(l)
    ensures Inv(Next(s, l))
  {
    hide Enabled, Next, RingInv, TaskInv, RunInv, CallInv, NestInv, PortInv, CountInv, ReadInv, LockInv, AddressInv;
    MovedIs(s, l);
    var s' := Next(s, l);
    MoveShape(s, s', Mine(s'));
    SameActive(s, s');
    MoveReads(s, l);
    MoveLock(s, l);
    MoveAddress(s, l);
  }

  lemma LaunchQuiet(s: State, s': State, t: T.Tid, own: bool)
    requires TaskInv(s) && RunInv(s) && LaunchedOn(s, s', t, own)
    requires s'.locked == s.locked && s'.maxaddr == s.maxaddr && s'.grants == s.grants
    ensures Quiet(s, s')
  {
    hide RunInv, TaskInv;
    LaunchFresh(s, s', t, own);
  }

  lemma LaunchInv(s: State, l: Label)
    requires Inv(s) && Enabled(s, l) && (l.Launches? || l.Calls?)
    ensures Inv(Next(s, l))
  {
    hide CountInv, ReadInv, LockInv, AddressInv, RingInv, TaskInv, RunInv, CallInv, NestInv, PortInv, Enabled, LaunchedOn, Quiet;
    LaunchRest(s, l);
    LaunchIs(s, l);
    var s', t := Next(s, l), if l.Launches? then l.t else Cur(s);
    LaunchShape(s, s', t, l.Launches?);
    LaunchCount(s, s', t, l.Launches?);
    LaunchReads(s, s', t, l.Launches?);
    LaunchQuiet(s, s', t, l.Launches?);
    QuietLock(s, s');
  }

  lemma LaunchRest(s: State, l: Label)
    requires Enabled(s, l) && (l.Launches? || l.Calls?)
    ensures var s' := Next(s, l); Sane(s) && s'.locked == s.locked && s'.maxaddr == s.maxaddr && s'.grants == s.grants
  {
  }

  lemma FoundReads(s: State, s': State, ports: nat)
    requires ReadInv(s) && FoundHub(s, s', ports)
    ensures ReadInv(s')
  {
    assert forall k :: Pending(s', k) <==> Pending(s, k);
    hide ReadInv, Pending;
    SameReads(s, s');
  }

  lemma FoundQuiet(s: State, s': State, ports: nat)
    requires FoundHub(s, s', ports)
    ensures Quiet(s, s')
  {
  }

  lemma FoundInv(s: State, ports: nat)
    requires Inv(s) && Enabled(s, FindsHub(ports))
    ensures Inv(Next(s, FindsHub(ports)))
  {
    hide CountInv, ReadInv, LockInv, AddressInv, RingInv, TaskInv, RunInv, CallInv, NestInv, PortInv, Quiet, Found;
    var s' := Next(s, FindsHub(ports));
    FoundShape(s, s', ports);
    FoundCount(s, s', ports);
    FoundReads(s, s', ports);
    FoundQuiet(s, s', ports);
    QuietLock(s, s');
  }

  lemma ReturnReads(s: State)
    requires ReadInv(s) && NestInv(s) && Idle(s)
    ensures ReadInv(Returned(s))
  {
    assert NestOk(s, Doing(s).hub);
    assert forall k :: Pending(Returned(s), k) <==> Pending(s, k);
    hide ReadInv, Pending;
    SameReads(s, Returned(s));
  }

  lemma ReturnQuiet(s: State)
    requires NestInv(s) && Idle(s)
    ensures Quiet(s, Returned(s))
  {
    assert NestOk(s, Doing(s).hub);
  }

  lemma ReturnInv(s: State)
    requires Inv(s) && Enabled(s, Returns)
    ensures Inv(Next(s, Returns))
  {
    hide CountInv, ReadInv, LockInv, AddressInv, RingInv, TaskInv, RunInv, CallInv, NestInv, PortInv, Quiet, Idle;
    ZeroMeansIdle(s);
    ReturnShape(s);
    ReturnTasks(s);
    ReturnReads(s);
    ReturnQuiet(s);
    SameActive(s, Returned(s));
    QuietLock(s, Returned(s));
  }

  lemma EndReads(s: State)
    requires ReadInv(s) && Ending(s)
    ensures ReadInv(Ended(s))
  {
    assert forall k :: Pending(Ended(s), k) <==> Pending(s, k);
    hide ReadInv, Pending;
    SameReads(s, Ended(s));
  }

  lemma EndQuiet(s: State)
    requires Ending(s)
    ensures Quiet(s, Ended(s))
  {
  }

  lemma EndInv(s: State)
    requires Inv(s) && Enabled(s, Ends)
    ensures Inv(Next(s, Ends))
  {
    hide CountInv, ReadInv, LockInv, AddressInv, RingInv, TaskInv, RunInv, CallInv, NestInv, PortInv, Quiet, Ended;
    EndShape(s);
    EndCount(s);
    EndReads(s);
    EndQuiet(s);
    QuietLock(s, Ended(s));
  }

  lemma StepInv(s: State, l: Label)
    requires Inv(s) && Enabled(s, l)
    ensures Inv(Next(s, l))
  {
    hide Inv, Enabled, Next;
    if Switching(l) { SwitchInv(s, l); }
    else if Moving(l) { MoveInv(s, l); }
    else if l.Launches? || l.Calls? { LaunchInv(s, l); }
    else {
      match l {
        case FindsHub(ports) => FoundInv(s, ports);
        case Returns => ReturnInv(s);
        case Ends => EndInv(s);
      }
    }
  }

  lemma InitInv(s: State, ports: nat)
    requires IsInit(s, ports)
    ensures Inv(s)
  {
    forall t | t in s.running ensures RunOk(s, t) {
      var i :| 0 <= i < |s.ring| && s.ring[i] == t;
    }
    assert ActiveOf(s.tasks, 0) == {};
  }

  lemma {:induction false} AlwaysInv(run: Trace, ports: nat, i: nat)
    requires IsRun(run, ports) && i < |run.states|
    ensures Inv(run.states[i])
  {
    hide Inv;
    if i == 0 {
      InitInv(run.states[0], ports);
    } else {
      AlwaysInv(run, ports, i - 1);
      assert Takes(run.states[i - 1], run.steps[i - 1], run.states[i]);
      StepInv(run.states[i - 1], run.steps[i - 1]);
    }
  }

  // ---- Over whole runs ----

  /** Devices get distinct addresses from 1 to 127, and each was told the address its pipe uses. */
  lemma AddressesDistinct(run: Trace, ports: nat, i: nat, a: nat, b: nat)
    requires IsRun(run, ports) && i < |run.states| && a < b < |run.states[i].grants|
    ensures var g := run.states[i].grants;
      1 <= g[a].addr == g[a].told < g[b].addr == g[b].told <= USB_MAXADDR
  {
    AlwaysInv(run, ports, i);
  }

  /** At most one task of the whole tree is between its port's reset and the end of set-address. */
  lemma OneAtAddressZero(run: Trace, ports: nat, i: nat, j: Task, k: Task)
    requires IsRun(run, ports) && i < |run.states| && Holds(run.states[i], j) && Holds(run.states[i], k)
    ensures j == k && run.states[i].locked
  {
    AlwaysInv(run, ports, i);
  }

  /** Although all tasks of a hub read the one field hub->port, each has its own port number. */
  lemma OwnPort(run: Trace, ports: nat, i: nat, k: Task)
    requires IsRun(run, ports) && i < |run.states| && k in run.states[i].tasks && !run.states[i].tasks[k].pc.ReadPort?
    ensures run.states[i].tasks[k].port == k.index
  {
    AlwaysInv(run, ports, i);
    assert PortOk(run.states[i], k);
  }

  /** When usb_enumerate returns, its tasks have read the ports 0 to portcount - 1, each exactly once. */
  lemma OneTaskPerPort(run: Trace, ports: nat, i: nat)
    requires IsRun(run, ports) && i < |run.steps| && run.steps[i] == Returns
    ensures Sane(run.states[i]) && InEnum(run.states[i])
    ensures var hub := run.states[i].hubs[Doing(run.states[i]).hub];
      |hub.read| == hub.portcount && forall p :: 0 <= p < hub.portcount ==> hub.read[p] == p
  {
    var s := run.states[i];
    AlwaysInv(run, ports, i);
    assert Takes(s, run.steps[i], run.states[i + 1]);
    ZeroMeansIdle(s);
    assert ReadOk(s, Doing(s).hub);
  }

  /** Hub `g` was found below hub `h`, directly or through others. */
  ghost predicate Below(s: State, g: nat, h: nat)
    decreases g
  {
    && g < |s.hubs| && s.hubs[g].caller.Port?
    && var f := s.hubs[g].caller.task.hub; f < g && (f == h || Below(s, f, h))
  }

  lemma {:induction false} NestedHeld(s: State, g: nat, h: nat)
    requires Inv(s) && g < |s.hubs| && s.hubs[g].live && Below(s, g, h)
    ensures exists k :: k in s.tasks && k.hub == h
    decreases g
  {
    assert NestOk(s, g);
    var k := s.hubs[g].caller.task;
    if k.hub != h { NestedHeld(s, k.hub, h); }
  }

  /** usb_enumerate returns only when every port of the hub has been launched and no task of it or of a hub below it is left. */
  lemma EnumerateWaitsForAll(run: Trace, ports: nat, i: nat, k: Task)
    requires IsRun(run, ports) && i < |run.steps| && run.steps[i] == Returns && k in run.states[i].tasks
    ensures var s := run.states[i];
      && Sane(s) && InEnum(s) && s.hubs[Doing(s).hub].next == s.hubs[Doing(s).hub].portcount
      && k.hub != Doing(s).hub && !Below(s, k.hub, Doing(s).hub)
  {
    var s := run.states[i];
    AlwaysInv(run, ports, i);
    assert Takes(s, run.steps[i], run.states[i + 1]);
    ZeroMeansIdle(s);
    if Below(s, k.hub, Doing(s).hub) { NestedHeld(s, k.hub, Doing(s).hub); }
  }

  // ---- A hub that has been left ----

  /** Every step leaves dead hubs alone, and starts no task on them. */
  lemma DeadStep(s: State, l: Label, h: nat)
    requires Inv(s) && Enabled(s, l) && h < |s.hubs| && !s.hubs[h].live
    ensures var s' := Next(s, l); h < |s'.hubs| && s'.hubs[h] == s.hubs[h]
  {
    hide RingInv, CallInv, NestInv, PortInv, CountInv, ReadInv, LockInv, AddressInv;
    assert RunOk(s, s.ring[0]);
  }

  /** Once usb_enumerate has returned, nothing reads or changes the hub again. */
  lemma {:induction false} NeverTouchedAgain(run: Trace, ports: nat, i: nat, j: nat, h: nat, k: Task)
    requires IsRun(run, ports) && i <= j < |run.states| && h < |run.states[i].hubs| && !run.states[i].hubs[h].live
    ensures h < |run.states[j].hubs| && run.states[j].hubs[h] == run.states[i].hubs[h]
    ensures k in run.states[j].tasks ==> k.hub != h
    decreases j
  {
    hide Inv, Enabled, Next;
    AlwaysInv(run, ports, j);
    if i < j {
      NeverTouchedAgain(run, ports, i, j - 1, h, k);
      AlwaysInv(run, ports, j - 1);
      assert Takes(run.states[j - 1], run.steps[j - 1], run.states[j]);
      DeadStep(run.states[j - 1], run.steps[j - 1], h);
    }
    DeadHasNone(run.states[j], h, k);
  }

  lemma DeadHasNone(s: State, h: nat, k: Task)
    requires Inv(s) && h < |s.hubs| && !s.hubs[h].live
    ensures k in s.tasks ==> k.hub != h
  {
    hide RingInv, RunInv, CallInv, NestInv, PortInv, CountInv, ReadInv, LockInv, AddressInv;
  }
}
