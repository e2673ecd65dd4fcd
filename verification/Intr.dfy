/**
 Adaptive interrupt signalling of main/intr.c, for one core. Any number of sender threads put
 interrupts into the core's queue and decide whether to signal it. The core's own thread runs
 the guest, drains the queue when it has been notified, may send interrupts to itself, and can
 be interrupted at any point by the signal handler.

 The queue is the abstract FIFO together with its separately updated counter. The threshold
 test-and-update of coremu_send_signal is one step, and so is adjust_intr_threshold.
 */
module Intr {
  import opened Words
  import opened Counting

  type Tid = nat

  /** A non-NULL interrupt argument; coremu_send_intr asserts it. */
  type Event = e: int | e != 0 witness 1

  const MAX_INTR_THRESHOLD := 50

  datatype Sender =
    | Linking(e: Event)      // in enqueue, before the node is linked
    | Counting               // in enqueue, before the counter is incremented
    | Reading                // before the size is read
    | Deciding(size: int)    // before the threshold test
    | Killing                // before pthread_kill

  /** The core thread outside the signal handler. */
  datatype Main =
    | Guest                  // running guest code, between two looks at the notified flag
    | Check                  // coremu_intr_p
    | Pull                   // in dequeue, before an element is unlinked
    | Tally(e: Event)        // in dequeue, before the counter is decremented
    | Handle(e: Event)       // in event_handler

  /** The core sending to itself, from guest code or from its event handler. */
  datatype Self = Quiet | SelfLinking(e: Event) | SelfCounting | SelfNotifying

  datatype Handler = Off | Adjust | Notify | Reset

  datatype State = State(
    queue: seq<Event>, count: int, thresh: int, stamp: nat, sigPending: bool,
    signals: nat, notified: bool,
    senders: map<Tid, Sender>, main: Main, self: Self, handler: Handler)

  datatype Label =
    | Send(t: Tid, e: Event)
    | Step(t: Tid, forced: bool)          // forced: enough physical cores, or core halted or paused
    | SendSelf(e: Event)
    | StepSelf
    | Poll                                // the main loop consumes the notified flag
    | Drain
    | Deliver                             // a queued signal interrupts the core
    | Handling(tsc: nat, interval: nat)   // the clock and SIG_HANDLE_INTERVAL

  /** The handler runs on the core's thread, so the rest of that thread waits for it. */
  predicate Enabled(s: State, lb: Label) {
    match lb
    case Send(t, _) => t !in s.senders
    case Step(t, _) => t in s.senders
    case SendSelf(_) => s.handler.Off? && s.self.Quiet? && (s.main.Guest? || s.main.Handle?)
    case StepSelf => s.handler.Off? && !s.self.Quiet?
    case Poll => s.handler.Off? && s.self.Quiet? && s.main.Guest? && s.notified
    case Drain => s.handler.Off? && s.self.Quiet? && !s.main.Guest?
    case Deliver => s.handler.Off? && s.signals > 0
    case Handling(_, _) => !s.handler.Off?
  }

  function Next(s: State, lb: Label): State
    requires Enabled(s, lb)
  {
    match lb
    case Send(t, e) => s.(senders := s.senders[t := Linking(e)])
    case Step(t, forced) => SenderStep(s, t, forced)
    case SendSelf(e) => s.(self := SelfLinking(e))
    case StepSelf => SelfStep(s)
    case Poll => s.(notified := false, main := Check)
    case Drain => DrainStep(s)
    case Deliver => s.(signals := s.signals - 1, handler := Adjust)
    case Handling(tsc, interval) => HandlerStep(s, tsc, interval)
  }

  function SenderStep(s: State, t: Tid, forced: bool): State
    requires t in s.senders
  {
    match s.senders[t]
    case Linking(e) => s.(queue := s.queue + [e], senders := s.senders[t := Counting])
    case Counting => s.(count := s.count + 1, senders := s.senders[t := Reading])
    case Reading => s.(senders := s.senders[t := Deciding(s.count)])
    case Deciding(size) =>
      if size > s.thresh && !s.sigPending then s.(sigPending := true, senders := s.senders[t := Killing])
      else
        var raise := size > s.thresh && s.thresh < MAX_INTR_THRESHOLD;
        s.(thresh := if raise then (s.thresh + 1) * 2 else s.thresh,
           senders := if forced then s.senders[t := Killing] else s.senders - {t})
    case Killing => s.(signals := s.signals + 1, senders := s.senders - {t})
  }

  function SelfStep(s: State): State
    requires !s.self.Quiet?
  {
    match s.self
    case SelfLinking(e) => s.(queue := s.queue + [e], self := SelfCounting)
    case SelfCounting => s.(count := s.count + 1, self := SelfNotifying)
    case SelfNotifying => s.(notified := true, self := Quiet)
  }

  function DrainStep(s: State): State
    requires !s.main.Guest?
  {
    match s.main
    case Check => s.(main := if s.count > 0 then Pull else Guest)
    case Pull =>
      if s.queue == [] then s.(main := Guest)   // the early return that the source marks XXX
      else s.(queue := s.queue[1..], main := Tally(s.queue[0]))
    case Tally(e) => s.(count := s.count - 1, main := Handle(e))
    case Handle(e) => s.(main := Check)
  }

  function HandlerStep(s: State, tsc: nat, interval: nat): State
    requires !s.handler.Off?
  {
    match s.handler
    case Adjust => s.(thresh := Adjusted(s.thresh, s.stamp, tsc, interval), stamp := tsc, handler := Notify)
    case Notify => s.(notified := true, handler := Reset)
    case Reset => s.(sigPending := false, handler := Off)
  }

  /** adjust_intr_threshold; the difference of time stamps is unsigned 64-bit. */
  function Adjusted(thresh: int, stamp: nat, tsc: nat, interval: nat): int {
    if stamp == 0 then thresh
    else if (tsc - stamp) % WORD > interval then 0
    else if thresh > 0 then thresh - 1
    else thresh
  }

  /** coremu_core_init: a zeroed core with an empty queue. */
  predicate Init(s: State) {
    s == State([], 0, 0, 0, false, 0, false, map[], Guest, Quiet, Off)
  }

  datatype Trace = Trace(states: seq<State>, steps: seq<Label>)

  ghost predicate Takes(s: State, lb: Label, s': State) { Enabled(s, lb) && s' == Next(s, lb) }

  ghost predicate IsRun(r: Trace) {
    && |r.states| == |r.steps| + 1
    && Init(r.states[0])
    && forall i, j :: 0 <= i < |r.steps| && j == i + 1 ==> Takes(r.states[i], r.steps[i], r.states[j])
  }
}
