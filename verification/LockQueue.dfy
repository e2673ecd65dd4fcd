/**
 The spinlock FIFO of main/lock-queue.c: any number of producers take turns under the lock,
 one consumer dequeues without it and frees the nodes it has passed. `malloc` may hand out
 an address that was freed before, so addresses are reused and stale pointers can dangle.
 */
module LockQueue {
  import opened Counting

  type Tid = nat
  type Value = int

  /** The 16-byte slots of a 64-bit address space; NULL is not one of them. */
  newtype Addr = a: int | 0 < a < 0x1000_0000_0000_0000 witness 1

  datatype Ref = Null | To(addr: Addr)

  datatype Node = Node(next: Ref, value: Value)

  datatype Producer =
    | Spin(node: Addr, v: Value)
    | Link(node: Addr, v: Value)
    | Swing(node: Addr, v: Value)
    | Inc
    | Unlock

  /** `sized`: the call comes from coremu_get_intr, which has just seen a positive size. */
  datatype Consumer =
    | Idle
    | ReadHead(sized: bool)
    | ReadNext(sized: bool, node: Addr)
    | ReadValue(node: Addr, succ: Addr)
    | SetHead(node: Addr, succ: Addr, v: Value)
    | Free(node: Addr, v: Value)
    | Dec(v: Value)

  datatype State = State(
    heap: map<Addr, Node>, head: Addr, tail: Addr, count: nat, locked: bool,
    producers: map<Tid, Producer>, consumer: Consumer)

  datatype Label =
    | Start(t: Tid, v: Value, node: Addr)   // malloc picks any free address
    | Produce(t: Tid)
    | GetSize
    | StartDeq
    | Consume

  predicate Enabled(s: State, lb: Label) {
    match lb
    case Start(t, v, node) => t !in s.producers && node !in s.heap
    case Produce(t) => t in s.producers
    case GetSize => s.consumer.Idle?
    case StartDeq => s.consumer.Idle?
    case Consume => !s.consumer.Idle?
  }

  /** The step dereferences or frees only memory that is allocated. */
  predicate Safe(s: State, lb: Label) {
    match lb
    case Produce(t) => t in s.producers && s.producers[t].Link? ==> s.tail in s.heap
    case Consume =>
      && (s.consumer.ReadNext? ==> s.consumer.node in s.heap)
      && (s.consumer.ReadValue? ==> s.consumer.succ in s.heap)
      && (s.consumer.Free? ==> s.consumer.node in s.heap)
    case _ => true
  }

  function Next(s: State, lb: Label): State
    requires Enabled(s, lb) && Safe(s, lb)
  {
    match lb
    case Start(t, v, node) =>
      s.(heap := s.heap[node := Node(Null, v)], producers := s.producers[t := Spin(node, v)])
    case Produce(t) => ProducerStep(s, t)
    case GetSize => s.(consumer := if Signed(s.count) > 0 then ReadHead(true) else Idle)
    case StartDeq => s.(consumer := ReadHead(false))
    case Consume => ConsumerStep(s)
  }

  function ProducerStep(s: State, t: Tid): State
    requires Enabled(s, Produce(t)) && Safe(s, Produce(t))
  {
    match s.producers[t]
    case Spin(node, v) =>
      if s.locked then s else s.(locked := true, producers := s.producers[t := Link(node, v)])
    case Link(node, v) =>
      s.(heap := s.heap[s.tail := s.heap[s.tail].(next := To(node))], producers := s.producers[t := Swing(node, v)])
    case Swing(node, v) => s.(tail := node, producers := s.producers[t := Inc])
    case Inc => s.(count := Wrapped(s.count, 1, 0), producers := s.producers[t := Unlock])
    case Unlock => s.(locked := false, producers := s.producers - {t})
  }

  function ConsumerStep(s: State): State
    requires Enabled(s, Consume) && Safe(s, Consume)
  {
    match s.consumer
    case ReadHead(sized) => s.(consumer := ReadNext(sized, s.head))
    case ReadNext(sized, node) =>
      match s.heap[node].next {
        case Null => s.(consumer := Idle)   // dequeue returns false
        case To(succ) => s.(consumer := ReadValue(node, succ))
      }
    case ReadValue(node, succ) => s.(consumer := SetHead(node, succ, s.heap[succ].value))
    case SetHead(node, succ, v) => s.(head := succ, consumer := Free(node, v))
    case Free(node, v) => s.(heap := s.heap - {node}, consumer := Dec(v))
    case Dec(v) => s.(count := Wrapped(s.count, 0, 1), consumer := Idle)
  }

  predicate ReturnsFalse(s: State, lb: Label)
    requires Safe(s, lb)
  {
    lb.Consume? && s.consumer.ReadNext? && s.heap[s.consumer.node].next == Null
  }

  ghost predicate Init(s: State) {
    && s.heap.Keys == {s.head} && s.heap[s.head].next == Null
    && s.tail == s.head && s.count == 0 && !s.locked
    && s.producers == map[] && s.consumer == Idle
  }

  datatype Trace = Trace(states: seq<State>, steps: seq<Label>)

  ghost predicate Takes(s: State, lb: Label, s': State) {
    Enabled(s, lb) && Safe(s, lb) && s' == Next(s, lb)
  }

  ghost predicate IsRun(r: Trace) {
    && |r.states| == |r.steps| + 1
    && Init(r.states[0])
    && forall i, j :: 0 <= i < |r.steps| && j == i + 1 ==> Takes(r.states[i], r.steps[i], r.states[j])
  }

  function Walk(heap: map<Addr, Node>, ref: Ref, fuel: nat): seq<Value>
    decreases fuel
  {
    if fuel == 0 || ref.Null? || ref.addr !in heap then []
    else [heap[ref.addr].value] + Walk(heap, heap[ref.addr].next, fuel - 1)
  }

  /** The abstract queue: what follows the dummy node. */
  function Abs(s: State): seq<Value> {
    if s.head in s.heap then Walk(s.heap, s.heap[s.head].next, |s.heap|) else []
  }
}
