/**
 The lock-free FIFO of main/ms-queue.c as a transition system.

 The shared state is the queue header (Head, Tail, count) and the node memory. Any
 number of threads run enqueue and dequeue; every step below is one atomic access to
 shared memory: an 8-byte load, a 16-byte compare-and-swap, or a locked inc/dec. A C
 assignment of a `pointer_t` is two 8-byte loads that other threads may split, in
 either order. `cmp128` is such a pair of loads followed by a compare-and-swap that
 writes the loaded pair back.

 Node identities are never reused and tags are unbounded.
 */
module MsQueue {
  import opened Counting

  type Id = nat
  type Tid = nat
  type Value = int

  datatype Ref = Null | To(id: Id)

  /** `pointer_t`: a node reference with its tag. */
  datatype Ptr = Ptr(ref: Ref, tag: nat)

  datatype Node = Node(next: Ptr, value: Value)

  datatype Half<T> = Unread | Read(v: T)

  /** A local `pointer_t` that is being filled by two separate loads. */
  datatype Snap = Snap(ref: Half<Ref>, tag: Half<nat>) {
    predicate Full() { ref.Read? && tag.Read? }
    function Get(): Ptr requires Full() { Ptr(ref.v, tag.v) }
  }

  const EMPTY := Snap(Unread, Unread)

  datatype Pc =
    | EnqTail | EnqNext | EnqAgain | EnqCheck | EnqLink | EnqHelp | EnqSwing | EnqCount
    | DeqHead | DeqTail | DeqNext | DeqAgain | DeqCheck | DeqHelp | DeqValue | DeqSwing | DeqCount

  /** The locals of one call; `again` is the "new" argument that cmp128 loads. */
  datatype Local = Local(pc: Pc, node: Id, value: Value, head: Snap, tail: Snap, next: Snap, again: Snap)

  /** Head, Tail and the node memory. */
  datatype Mem = Mem(head: Ptr, tail: Ptr, nodes: map<Id, Node>)

  /** `count` is the 64-bit counter; a thread that is in no call is not in `threads`. */
  datatype State = State(mem: Mem, count: nat, threads: map<Tid, Local>)

  /** What one step leaves behind; `Gone` when the call has returned. */
  datatype Outcome = Stay(mem: Mem, local: Local) | Gone(mem: Mem)

  datatype Action =
    | StartEnq(v: Value, id: Id, junk: nat)   // new_node leaves next.count arbitrary
    | StartDeq
    | LoadRef
    | LoadTag
    | Exec

  datatype Label = Label(t: Tid, a: Action)

  predicate IsLoad(pc: Pc) {
    pc in {EnqTail, EnqNext, EnqAgain, DeqHead, DeqTail, DeqNext, DeqAgain}
  }

  predicate IsEnq(pc: Pc) {
    pc in {EnqTail, EnqNext, EnqAgain, EnqCheck, EnqLink, EnqHelp, EnqSwing, EnqCount}
  }

  /** The node is allocated and still private to the enqueuing thread. */
  predicate Owns(pc: Pc) {
    pc in {EnqTail, EnqNext, EnqAgain, EnqCheck, EnqLink, EnqHelp}
  }

  predicate Valid(nodes: map<Id, Node>, h: Half<Ref>) {
    h.Read? && h.v.To? && h.v.id in nodes
  }

  /** The locals that the instruction at `pc` reads have been set. */
  predicate Ready(l: Local) {
    && (l.pc in {EnqNext, EnqAgain, EnqCheck, EnqLink, EnqHelp, EnqSwing} ==> l.tail.Full())
    && (l.pc in {EnqAgain, EnqCheck, EnqLink, EnqHelp} ==> l.next.Full())
    && (l.pc in {DeqTail, DeqNext, DeqAgain, DeqCheck, DeqHelp, DeqValue, DeqSwing} ==> l.head.Full())
    && (l.pc in {DeqNext, DeqAgain, DeqCheck, DeqHelp, DeqValue, DeqSwing} ==> l.tail.Full())
    && (l.pc in {DeqAgain, DeqCheck, DeqHelp, DeqValue, DeqSwing} ==> l.next.Full())
    && (l.pc in {EnqCheck, DeqCheck} ==> l.again.Full())
  }

  /** Every dereference that the thread is about to make hits an allocated node. */
  predicate Safe(m: Mem, l: Local) {
    && Ready(l)
    && (l.pc in {EnqNext, EnqLink} ==> Valid(m.nodes, l.tail.ref))
    && (l.pc == DeqNext ==> Valid(m.nodes, l.head.ref))
    && (l.pc == DeqValue ==> Valid(m.nodes, l.next.ref))
  }

  /** The shared word being loaded. */
  function Source(m: Mem, l: Local): Ptr
    requires IsLoad(l.pc) && Safe(m, l)
  {
    match l.pc
    case EnqNext => m.nodes[l.tail.ref.v.id].next
    case DeqNext => m.nodes[l.head.ref.v.id].next
    case DeqHead => m.head
    case DeqAgain => m.head
    case _ => m.tail
  }

  /** The local being filled. */
  function Dest(l: Local): Snap
    requires IsLoad(l.pc)
  {
    match l.pc
    case DeqHead => l.head
    case EnqTail => l.tail
    case DeqTail => l.tail
    case EnqNext => l.next
    case DeqNext => l.next
    case _ => l.again
  }

  function Store(l: Local, w: Snap): Local
    requires IsLoad(l.pc)
  {
    match l.pc
    case DeqHead => l.(head := w, pc := if w.Full() then DeqTail else DeqHead)
    case EnqTail => l.(tail := w, pc := if w.Full() then EnqNext else EnqTail)
    case DeqTail => l.(tail := w, pc := if w.Full() then DeqNext else DeqTail)
    case EnqNext => l.(next := w, pc := if w.Full() then EnqAgain else EnqNext)
    case DeqNext => l.(next := w, pc := if w.Full() then DeqAgain else DeqNext)
    case EnqAgain => l.(again := w, pc := if w.Full() then EnqCheck else EnqAgain)
    case _ => l.(again := w, pc := if w.Full() then DeqCheck else DeqAgain)
  }

  /** The locals of a call that is at the top of its retry loop. */
  function Begin(pc: Pc, node: Id, v: Value): Local {
    Local(pc, node, v, EMPTY, EMPTY, EMPTY, EMPTY)
  }

  function Retry(l: Local): Local {
    Begin(if IsEnq(l.pc) then EnqTail else DeqHead, l.node, l.value)
  }

  function Swap(current: Ptr, expected: Ptr, replacement: Ptr): Ptr {
    if current == expected then replacement else current
  }

  /** Does the compare-and-swap (or cmp128) at this program counter succeed? */
  predicate Succeeds(m: Mem, l: Local)
    requires Safe(m, l)
  {
    match l.pc
    case EnqCheck => m.tail == l.tail.Get()
    case EnqLink => m.nodes[l.tail.ref.v.id].next == l.next.Get()
    case EnqHelp => m.tail == l.tail.Get()
    case EnqSwing => m.tail == l.tail.Get()
    case DeqCheck => m.head == l.head.Get()
    case DeqHelp => m.tail == l.tail.Get()
    case DeqSwing => m.head == l.head.Get()
    case _ => false
  }

  /** dequeue returns false here. */
  predicate ReturnsFalse(m: Mem, l: Local)
    requires Safe(m, l)
  {
    l.pc == DeqCheck && Succeeds(m, l) && l.head.ref == l.tail.ref && l.next.ref.v == Null
  }

  /** The instruction at a program counter that is not a load. */
  function Run(m: Mem, l: Local): Outcome
    requires !IsLoad(l.pc) && Safe(m, l)
  {
    match l.pc
    case EnqCheck =>
      var pc := if l.next.ref.v == Null then EnqLink else EnqHelp;
      Stay(m.(tail := Swap(m.tail, l.tail.Get(), l.again.Get())),
           if Succeeds(m, l) then l.(pc := pc) else Retry(l))
    case EnqLink =>
      var id := l.tail.ref.v.id;
      var n := m.nodes[id];
      var n' := n.(next := Swap(n.next, l.next.Get(), Ptr(To(l.node), l.next.tag.v + 1)));
      Stay(m.(nodes := m.nodes[id := n']),
           if Succeeds(m, l) then l.(pc := EnqSwing) else Retry(l))
    case EnqHelp =>
      Stay(m.(tail := Swap(m.tail, l.tail.Get(), Ptr(l.next.ref.v, l.tail.tag.v + 1))), Retry(l))
    case EnqSwing =>
      Stay(m.(tail := Swap(m.tail, l.tail.Get(), Ptr(To(l.node), l.tail.tag.v + 1))), l.(pc := EnqCount))
    case EnqCount =>
      Gone(m)
    case DeqCheck =>
      var m' := m.(head := Swap(m.head, l.head.Get(), l.again.Get()));
      if !Succeeds(m, l) then Stay(m', Retry(l))
      else if ReturnsFalse(m, l) then Gone(m')
      else Stay(m', l.(pc := if l.head.ref == l.tail.ref then DeqHelp else DeqValue))
    case DeqHelp =>
      Stay(m.(tail := Swap(m.tail, l.tail.Get(), Ptr(l.next.ref.v, l.tail.tag.v + 1))), Retry(l))
    case DeqValue =>
      Stay(m, l.(value := m.nodes[l.next.ref.v.id].value, pc := DeqSwing))
    case DeqSwing =>
      Stay(m.(head := Swap(m.head, l.head.Get(), Ptr(l.next.ref.v, l.head.tag.v + 1))),
           if Succeeds(m, l) then l.(pc := DeqCount) else Retry(l))
    case DeqCount =>
      Gone(m)
  }

  predicate Enabled(s: State, lb: Label) {
    match lb.a
    case StartEnq(v, id, junk) => lb.t !in s.threads && id !in s.mem.nodes
    case StartDeq => lb.t !in s.threads
    case LoadRef => lb.t in s.threads && IsLoad(s.threads[lb.t].pc) && Dest(s.threads[lb.t]).ref.Unread?
    case LoadTag => lb.t in s.threads && IsLoad(s.threads[lb.t].pc) && Dest(s.threads[lb.t]).tag.Unread?
    case Exec => lb.t in s.threads && !IsLoad(s.threads[lb.t].pc)
  }

  predicate SafeLabel(s: State, lb: Label) {
    lb.t in s.threads ==> Safe(s.mem, s.threads[lb.t])
  }

  /** What the step `lb` leaves of the shared memory and of its thread's locals. */
  function Effect(s: State, lb: Label): Outcome
    requires Enabled(s, lb) && SafeLabel(s, lb)
  {
    match lb.a
    case StartEnq(v, id, junk) =>
      Stay(s.mem.(nodes := s.mem.nodes[id := Node(Ptr(Null, junk), v)]), Begin(EnqTail, id, v))
    case StartDeq => Stay(s.mem, Begin(DeqHead, 0, 0))
    case LoadRef =>
      var l := s.threads[lb.t];
      Stay(s.mem, Store(l, Dest(l).(ref := Read(Source(s.mem, l).ref))))
    case LoadTag =>
      var l := s.threads[lb.t];
      Stay(s.mem, Store(l, Dest(l).(tag := Read(Source(s.mem, l).tag))))
    case Exec => Run(s.mem, s.threads[lb.t])
  }

  /** atomic_incq and atomic_decq wrap around. */
  function Counter(s: State, lb: Label): nat
    requires Enabled(s, lb)
  {
    if lb.a.Exec? && s.threads[lb.t].pc == EnqCount then Wrapped(s.count, 1, 0)
    else if lb.a.Exec? && s.threads[lb.t].pc == DeqCount then Wrapped(s.count, 0, 1)
    else s.count
  }

  function Next(s: State, lb: Label): State
    requires Enabled(s, lb) && SafeLabel(s, lb)
  {
    match Effect(s, lb)
    case Stay(m, l) => State(m, Counter(s, lb), s.threads[lb.t := l])
    case Gone(m) => State(m, Counter(s, lb), s.threads - {lb.t})
  }

  /** `initialize`: one dummy node, both tags nil, count 0. */
  ghost predicate Init(s: State) {
    && s.mem.head == s.mem.tail && s.mem.head.ref.To? && s.mem.head.tag == 0
    && s.mem.nodes.Keys == {s.mem.head.ref.id}
    && s.mem.nodes[s.mem.head.ref.id].next.ref == Null
    && s.count == 0
    && s.threads == map[]
  }

  /** A run: the states passed through and the step taken from each to the next. */
  datatype Trace = Trace(states: seq<State>, steps: seq<Label>)

  ghost predicate IsRun(r: Trace) {
    && |r.states| == |r.steps| + 1
    && Init(r.states[0])
    && forall i, j :: 0 <= i < |r.steps| && j == i + 1 ==> Takes(r.states[i], r.steps[i], r.states[j])
  }

  ghost predicate Takes(s: State, lb: Label, s': State) {
    Enabled(s, lb) && SafeLabel(s, lb) && s' == Next(s, lb)
  }

  /** The values from `r` to the end of the list, as print_queue walks it. */
  function Walk(nodes: map<Id, Node>, r: Ref, fuel: nat): seq<Value>
    decreases fuel
  {
    if fuel == 0 || r.Null? || r.id !in nodes then []
    else [nodes[r.id].value] + Walk(nodes, nodes[r.id].next.ref, fuel - 1)
  }

  /** The abstract queue: the values after the dummy node that Head points to. */
  function Abs(m: Mem): seq<Value> {
    if m.head.ref.To? && m.head.ref.id in m.nodes
    then Walk(m.nodes, m.nodes[m.head.ref.id].next.ref, |m.nodes|)
    else []
  }
}
