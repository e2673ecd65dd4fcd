/**
 The enumeration of one USB controller's hub tree, bios/seabios/src/usb.c and usb-hub.c, on the
 cooperative threads. Only the running thread takes steps, and it may give up its turn wherever
 the code waits. Answers of the hardware and of the memory allocator are part of the labels.
 */
module Usb {
  import T = Threads

  const USB_MAXADDR: nat := 127

  /** The task started for the index-th port of a hub. */
  datatype Task = Task(hub: nat, index: nat)

  /** What a thread is doing: usb_init_hub_port, the loops of usb_enumerate, or something else. */
  datatype Activity = Other | Port(task: Task) | Enum(hub: nat)

  datatype Pc =
    | ReadPort | Detect | Lock
    | Reset | Address | Settle | Sending | Recover | Unlock(ok: bool)
    | Configure | Nested(hub: nat) | Finish(count: nat)

  /** A call of usb_init_hub_port; without a thread of its own it was called directly by run_thread. */
  datatype PortTask = PortTask(pc: Pc, port: nat, told: nat, thread: T.Tid, own: bool)

  /**
   struct usbhub_s, with the locals of the usb_enumerate call on it: `next` is the loop counter,
   `caller` the task that found the hub. A hub lives until usb_enumerate returns. `read` records
   the port numbers that tasks took from the hub.
   */
  datatype Hub = Hub(portcount: nat, port: nat, threads: int, devcount: nat,
                     next: nat, caller: Activity, thread: T.Tid, live: bool, read: seq<nat>)

  /** The address that SET_ADDRESS told the device, and the one its pipe got. */
  datatype Grant = Grant(task: Task, told: nat, addr: nat)

  datatype State = State(ring: T.Ring, running: map<T.Tid, Activity>, hubs: seq<Hub>, tasks: map<Task, PortTask>,
                         maxaddr: nat, locked: bool, grants: seq<Grant>)

  datatype Label =
    | Yields | OtherSpawns(t: T.Tid) | OtherExits
    | Launches(t: T.Tid) | Calls
    | Reads | Detected(ok: bool) | Locks | ResetDone(ok: bool)
    | Checks(ok: bool) | Tells | Sent(ok: bool) | Assigns(ok: bool) | Unlocks
    | Configured(count: nat) | FindsHub(ports: nat) | Returns | Ends

  function NewHub(ports: nat, caller: Activity, thread: T.Tid): Hub {
    Hub(ports, 0, ports, 0, 0, caller, thread, true, [])
  }

  /** One thread has just called usb_enumerate on the root hub; the others have nothing to do with this controller. */
  ghost predicate IsInit(s: State, ports: nat) {
    && T.Good(s.ring) && s.running.Keys == T.Set(s.ring)
    && (forall i :: 0 <= i < |s.ring| ==> s.ring[i] in s.running && s.running[s.ring[i]] == if i == 0 then Enum(0) else Other)
    && s.hubs == [NewHub(ports, Other, s.ring[0])] && s.tasks == map[]
    && s.maxaddr == 0 && !s.locked && s.grants == []
  }

  // ---- Steps of the running thread ----

  predicate Sane(s: State) { s.ring != [] && s.ring[0] in s.running }

  function Cur(s: State): T.Tid
    requires Sane(s)
  {
    s.ring[0]
  }

  function Doing(s: State): Activity
    requires Sane(s)
  {
    s.running[s.ring[0]]
  }

  predicate InTask(s: State)
    requires Sane(s)
  {
    Doing(s).Port? && Doing(s).task in s.tasks && Doing(s).task.hub < |s.hubs|
  }

  predicate InEnum(s: State)
    requires Sane(s)
  {
    Doing(s).Enum? && Doing(s).hub < |s.hubs|
  }

  function Mine(s: State): PortTask
    requires Sane(s) && InTask(s)
  {
    s.tasks[Doing(s).task]
  }

  predicate Waiting(h: Hub) { h.next == h.portcount && h.threads != 0 }

  predicate Enabled(s: State, l: Label) {
    && Sane(s)
    && match l
       case Yields => Doing(s).Other? || (InTask(s) && !Mine(s).pc.ReadPort?) || (InEnum(s) && Waiting(s.hubs[Doing(s).hub]))
       case OtherSpawns(t) => Doing(s).Other? && T.Legal(s.ring, T.Spawn(t))
       case OtherExits => Doing(s).Other? && T.Legal(s.ring, T.Exit)
       case Launches(t) => InEnum(s) && s.hubs[Doing(s).hub].next < s.hubs[Doing(s).hub].portcount && T.Legal(s.ring, T.Spawn(t))
       case Calls => InEnum(s) && s.hubs[Doing(s).hub].next < s.hubs[Doing(s).hub].portcount
       case Returns => InEnum(s) && s.hubs[Doing(s).hub].next == s.hubs[Doing(s).hub].portcount && s.hubs[Doing(s).hub].threads == 0
       case Reads => InTask(s) && Mine(s).pc.ReadPort?
       case Detected(_) => InTask(s) && Mine(s).pc.Detect?
       case Locks => InTask(s) && Mine(s).pc.Lock? && !s.locked
       case ResetDone(_) => InTask(s) && Mine(s).pc.Reset?
       case Checks(_) => InTask(s) && Mine(s).pc.Address?
       case Tells => InTask(s) && Mine(s).pc.Settle?
       case Sent(_) => InTask(s) && Mine(s).pc.Sending?
       case Assigns(_) => InTask(s) && Mine(s).pc.Recover?
       case Unlocks => InTask(s) && Mine(s).pc.Unlock?
       case Configured(count) => InTask(s) && Mine(s).pc.Configure? && count <= 1
       case FindsHub(_) => InTask(s) && Mine(s).pc.Configure?
       case Ends => InTask(s) && Mine(s).pc.Finish?
  }

  function Moved(s: State, p: PortTask): State
    requires Sane(s) && InTask(s)
  {
    s.(tasks := s.tasks[Doing(s).task := p])
  }

  function GoTo(s: State, pc: Pc): State
    requires Sane(s) && InTask(s)
  {
    Moved(s, Mine(s).(pc := pc))
  }

  function SetHub(s: State, h: nat, hub: Hub): State
    requires h < |s.hubs|
  {
    s.(hubs := s.hubs[h := hub])
  }

  /** One round of the launch loop, for thread `t` on the given ring. */
  function Launched(s: State, t: T.Tid, own: bool): State
    requires Sane(s) && InEnum(s)
  {
    var h := Doing(s).hub;
    var k := Task(h, s.hubs[h].next);
    SetHub(s, h, s.hubs[h].(port := s.hubs[h].next, next := s.hubs[h].next + 1)).(
      tasks := s.tasks[k := PortTask(ReadPort, 0, 0, t, own)],
      running := s.running[t := Port(k)])
  }

  /** usb_enumerate returns: to the task that found the hub, which counts it if it has devices, or to the caller outside. */
  function Returned(s: State): State
    requires Sane(s) && InEnum(s)
  {
    var h := Doing(s).hub;
    var hub := s.hubs[h];
    var s' := SetHub(s, h, hub.(live := false)).(running := s.running[Cur(s) := hub.caller]);
    if hub.caller.Port? && hub.caller.task in s.tasks
    then s'.(tasks := s.tasks[hub.caller.task := s.tasks[hub.caller.task].(pc := Finish(if hub.devcount > 0 then 1 else 0))])
    else s'
  }

  function Ended(s: State): State
    requires Sane(s) && InTask(s) && Mine(s).pc.Finish?
  {
    var k := Doing(s).task;
    var hub := s.hubs[k.hub];
    SetHub(s, k.hub, hub.(devcount := hub.devcount + Mine(s).pc.count, threads := hub.threads - 1)).(
      tasks := s.tasks - {k},
      running := s.running[Cur(s) := if Mine(s).own then Other else Enum(k.hub)])
  }

  function Found(s: State, ports: nat): State
    requires Sane(s) && InTask(s)
  {
    GoTo(s, Nested(|s.hubs|)).(hubs := s.hubs + [NewHub(ports, Doing(s), Cur(s))], running := s.running[Cur(s) := Enum(|s.hubs|)])
  }

  function Next(s: State, l: Label): State
    requires Enabled(s, l)
  {
    match l
    case Yields => s.(ring := T.Apply(s.ring, T.Yield))
    case OtherSpawns(t) => s.(ring := T.Apply(s.ring, T.Spawn(t)), running := s.running[t := Other])
    case OtherExits => s.(ring := T.Apply(s.ring, T.Exit), running := s.running - {Cur(s)})
    case Launches(t) => Launched(s, t, true).(ring := T.Apply(s.ring, T.Spawn(t)))
    case Calls => Launched(s, Cur(s), false)
    case Returns => Returned(s)
    case Reads =>
      var h := Doing(s).task.hub;
      SetHub(Moved(s, Mine(s).(pc := Detect, port := s.hubs[h].port)), h, s.hubs[h].(read := s.hubs[h].read + [s.hubs[h].port]))
    case Detected(ok) => GoTo(s, if ok then Lock else Finish(0))
    case Locks => GoTo(s, Reset).(locked := true)
    case ResetDone(ok) => GoTo(s, if ok then Address else Unlock(false))
    case Checks(ok) => GoTo(s, if s.maxaddr >= USB_MAXADDR || !ok then Unlock(false) else Settle)
    case Tells => Moved(s, Mine(s).(pc := Sending, told := s.maxaddr + 1))
    case Sent(ok) => GoTo(s, if ok then Recover else Unlock(false))
    case Assigns(ok) =>
      GoTo(s, Unlock(ok)).(maxaddr := s.maxaddr + 1, grants := s.grants + [Grant(Doing(s).task, Mine(s).told, s.maxaddr + 1)])
    case Unlocks => GoTo(s, if Mine(s).pc.ok then Configure else Finish(0)).(locked := false)
    case Configured(count) => GoTo(s, Finish(count))
    case FindsHub(ports) => Found(s, ports)
    case Ends => Ended(s)
  }

  // ---- Runs ----

  datatype Trace = Trace(states: seq<State>, steps: seq<Label>)

  ghost predicate Takes(s: State, l: Label, s': State) { Enabled(s, l) && s' == Next(s, l) }

  ghost predicate IsRun(run: Trace, ports: nat) {
    && |run.states| == |run.steps| + 1 && IsInit(run.states[0], ports)
    && forall i, j :: 0 <= i < |run.steps| && j == i + 1 ==> Takes(run.states[i], run.steps[i], run.states[j])
  }
}
