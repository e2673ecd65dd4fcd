/**
 What every interleaving keeps. The witness `c` is the list of all nodes ever linked, in
 link order: Head's tag is the position of Head in `c` and Tail's tag the position of Tail.
 */
module MsQueueInvariant {
  import opened MsQueue

  /** Linked from the first dummy to a NULL end, no node twice, Tail last or last but one. */
  ghost predicate Chain(m: Mem, c: seq<Id>) {
    && |c| > 0
    && (forall i :: 0 <= i < |c| ==> c[i] in m.nodes)
    && (forall i, j :: 0 <= i < j < |c| ==> c[i] != c[j])
    && (forall i, j :: 0 <= i < j < |c| && j == i + 1 ==> m.nodes[c[i]].next.ref == To(c[j]))
    && m.nodes[c[|c| - 1]].next.ref == Null
    && m.head.tag <= m.tail.tag < |c| <= m.tail.tag + 2
    && m.head.ref == To(c[m.head.tag])
    && m.tail.ref == To(c[m.tail.tag])
  }

  ghost predicate Linked(c: seq<Id>, h: Half<Ref>) {
    h.Read? ==> h.v.To? && h.v.id in c
  }

  /** A half of `w` that was loaded agrees with `p`. */
  ghost predicate Agrees(w: Snap, p: Ptr) {
    && (w.ref.Read? ==> w.ref.v == p.ref)
    && (w.tag.Read? ==> w.tag.v == p.tag)
  }

  ghost predicate At(c: seq<Id>, w: Snap) {
    w.Full() && w.tag.v < |c| && w.ref.v == To(c[w.tag.v])
  }

  /** `next` was loaded from the node `from`; a link, once there, stays. */
  ghost predicate Follows(m: Mem, from: Half<Ref>, next: Snap) {
    next.ref.Read? && next.ref.v.To? ==>
      Valid(m.nodes, from) && m.nodes[from.v.id].next.ref == next.ref.v
  }

  /** `w` is being loaded from a word that now holds `p`. */
  ghost predicate Seen(c: seq<Id>, w: Snap, p: Ptr) {
    Linked(c, w.ref) && (w.tag.Read? ==> w.tag.v <= p.tag)
  }

  /** If the word still has the tag of `w`, then `again` holds what it holds. */
  ghost predicate Current(w: Snap, again: Snap, p: Ptr) {
    w.Full() && (p.tag == w.tag.v ==> Agrees(again, p))
  }

  /** The node of an enqueue that has not linked it yet. */
  ghost predicate Mine(m: Mem, c: seq<Id>, l: Local) {
    && l.node in m.nodes && l.node !in c
    && m.nodes[l.node].next.ref == Null && m.nodes[l.node].value == l.value
  }

  ghost predicate EnqInv(m: Mem, c: seq<Id>, l: Local)
    requires IsEnq(l.pc)
  {
    match l.pc
    case EnqTail =>
      Mine(m, c, l) && Seen(c, l.tail, m.tail) && !l.tail.Full() && l.next == l.again == EMPTY
    case EnqNext =>
      && Mine(m, c, l) && Seen(c, l.tail, m.tail) && l.tail.Full()
      && Follows(m, l.tail.ref, l.next) && !l.next.Full() && l.again == EMPTY
    case EnqAgain =>
      && Mine(m, c, l) && Seen(c, l.tail, m.tail)
      && Follows(m, l.tail.ref, l.next) && l.next.Full()
      && Current(l.tail, l.again, m.tail) && !l.again.Full()
    case EnqCheck =>
      && Mine(m, c, l) && Seen(c, l.tail, m.tail)
      && Follows(m, l.tail.ref, l.next) && l.next.Full()
      && Current(l.tail, l.again, m.tail) && l.again.Full()
    case EnqLink =>
      && Mine(m, c, l) && Seen(c, l.tail, m.tail) && At(c, l.tail)
      && l.next.Full() && l.next.ref.v == Null
    case EnqHelp =>
      && Mine(m, c, l) && At(c, l.tail)
      && Follows(m, l.tail.ref, l.next) && l.next.Full() && l.next.ref.v.To?
    case EnqSwing =>
      At(c, l.tail) && l.tail.tag.v + 1 < |c| && c[l.tail.tag.v + 1] == l.node
    case EnqCount => true
  }

  /** The Tail that was loaded after Head is not behind Head, as long as Head is unchanged. */
  ghost predicate NotBehind(m: Mem, c: seq<Id>, l: Local) {
    && l.head.Full()
    && (l.tail.ref.Read? ==>
          forall j :: 0 <= j < |c| && l.tail.ref.v == To(c[j]) ==>
            j <= m.tail.tag && (m.head == l.head.Get() ==> l.head.tag.v <= j))
  }

  /** A Tail unequal to an unchanged Head means that Head has a successor. */
  ghost predicate Successor(m: Mem, l: Local) {
    && l.head.Full()
    && (m.head == l.head.Get() && l.head.ref != l.tail.ref && l.next.ref.Read? ==> l.next.ref.v.To?)
  }

  ghost predicate DeqInv(m: Mem, c: seq<Id>, l: Local)
    requires !IsEnq(l.pc)
  {
    match l.pc
    case DeqHead =>
      Seen(c, l.head, m.head) && !l.head.Full() && l.tail == l.next == l.again == EMPTY
    case DeqTail =>
      && Seen(c, l.head, m.head) && Seen(c, l.tail, m.tail) && NotBehind(m, c, l)
      && !l.tail.Full() && l.next == l.again == EMPTY
    case DeqNext =>
      && Seen(c, l.head, m.head) && Seen(c, l.tail, m.tail) && NotBehind(m, c, l) && l.tail.Full()
      && Follows(m, l.head.ref, l.next) && Successor(m, l) && !l.next.Full() && l.again == EMPTY
    case DeqAgain =>
      && Seen(c, l.head, m.head) && Seen(c, l.tail, m.tail) && NotBehind(m, c, l) && l.tail.Full()
      && Follows(m, l.head.ref, l.next) && Successor(m, l) && l.next.Full()
      && Current(l.head, l.again, m.head) && !l.again.Full()
    case DeqCheck =>
      && Seen(c, l.head, m.head) && Seen(c, l.tail, m.tail) && NotBehind(m, c, l) && l.tail.Full()
      && Follows(m, l.head.ref, l.next) && Successor(m, l) && l.next.Full()
      && Current(l.head, l.again, m.head) && l.again.Full()
    case DeqHelp =>
      && At(c, l.head) && l.tail.Full() && l.head.ref == l.tail.ref
      && Follows(m, l.head.ref, l.next) && l.next.Full() && l.next.ref.v.To?
    case DeqValue =>
      && At(c, l.head) && l.tail.Full() && l.head.tag.v < m.tail.tag
      && Follows(m, l.head.ref, l.next) && l.next.Full() && l.next.ref.v.To?
    case DeqSwing =>
      && At(c, l.head) && l.tail.Full() && l.head.tag.v < m.tail.tag
      && Follows(m, l.head.ref, l.next) && l.next.Full() && l.next.ref.v.To?
      && Valid(m.nodes, l.next.ref) && m.nodes[l.next.ref.v.id].value == l.value
    case DeqCount => true
  }

  ghost predicate LocalInv(m: Mem, c: seq<Id>, l: Local) {
    if IsEnq(l.pc) then EnqInv(m, c, l) else DeqInv(m, c, l)
  }

  ghost predicate Private(threads: map<Tid, Local>) {
    forall t, u :: t in threads && u in threads && t != u && Owns(threads[t].pc) && Owns(threads[u].pc) ==>
      threads[t].node != threads[u].node
  }

  ghost predicate Inv(s: State, c: seq<Id>) {
    && Chain(s.mem, c)
    && Private(s.threads)
    && (forall t :: t in s.threads ==> LocalInv(s.mem, c, s.threads[t]))
  }

  /** How one step may change what the other threads rely on. */
  ghost predicate Evolves(m: Mem, c: seq<Id>, m': Mem, c': seq<Id>) {
    && Chain(m, c) && Chain(m', c')
    && c <= c'
    && (forall id :: id in m.nodes ==> id in m'.nodes && m'.nodes[id].value == m.nodes[id].value)
    && (forall id :: id in m.nodes && m.nodes[id].next.ref.To? ==> m'.nodes[id].next.ref == m.nodes[id].next.ref)
    && (forall id :: id in m.nodes && (id !in c || c' == c) ==> m'.nodes[id] == m.nodes[id])
    && (m'.head == m.head || m'.head.tag > m.head.tag)
    && (m'.tail == m.tail || m'.tail.tag > m.tail.tag)
  }

  lemma EvolvesChain(m: Mem, c: seq<Id>, m': Mem, c': seq<Id>)
    requires Evolves(m, c, m', c')
    ensures Chain(m', c')
  {
  }

  lemma LocalStable(m: Mem, c: seq<Id>, m': Mem, c': seq<Id>, l: Local)
    requires LocalInv(m, c, l) && Evolves(m, c, m', c')
    requires Owns(l.pc) ==> l.node !in c'
    ensures LocalInv(m', c', l)
  {
    hide Evolves, EnqInv, DeqInv;
    if IsEnq(l.pc) { EnqStable(m, c, m', c', l); } else { DeqStable(m, c, m', c', l); }
  }

  lemma EnqStable(m: Mem, c: seq<Id>, m': Mem, c': seq<Id>, l: Local)
    requires IsEnq(l.pc) && EnqInv(m, c, l) && Evolves(m, c, m', c') && (Owns(l.pc) ==> l.node !in c')
    ensures EnqInv(m', c', l)
  {
    hide Chain, Linked;
    LinkedStable(c, c', l.tail.ref);
  }

  lemma DeqStable(m: Mem, c: seq<Id>, m': Mem, c': seq<Id>, l: Local)
    requires !IsEnq(l.pc) && DeqInv(m, c, l) && Evolves(m, c, m', c')
    ensures DeqInv(m', c', l)
  {
    hide Chain, Linked, NotBehind;
    LinkedStable(c, c', l.head.ref);
    LinkedStable(c, c', l.tail.ref);
    if l.pc in {DeqTail, DeqNext, DeqAgain, DeqCheck} { NotBehindFull(m, c, l); NotBehindStable(m, c, m', c', l); }
  }

  lemma NotBehindFull(m: Mem, c: seq<Id>, l: Local)
    requires NotBehind(m, c, l)
    ensures l.head.Full()
  {
  }

  lemma LinkedStable(c: seq<Id>, c': seq<Id>, h: Half<Ref>)
    requires c <= c'
    ensures Linked(c, h) ==> Linked(c', h)
  {
    if h.Read? && Linked(c, h) {
      var i :| 0 <= i < |c| && c[i] == h.v.id;
      assert c'[i] == h.v.id;
    }
  }

  lemma NotBehindStable(m: Mem, c: seq<Id>, m': Mem, c': seq<Id>, l: Local)
    requires Evolves(m, c, m', c') && NotBehind(m, c, l) && Linked(c, l.tail.ref)
    requires l.head.tag.v <= m.head.tag
    ensures NotBehind(m', c', l)
  {
    if l.tail.ref.Read? {
      var i :| 0 <= i < |c| && c[i] == l.tail.ref.v.id;
      assert c'[i] == l.tail.ref.v.id;
    }
  }

  lemma NextOf(m: Mem, c: seq<Id>, k: nat)
    requires Chain(m, c) && k < |c|
    ensures m.nodes[c[k]].next.ref == if k + 1 < |c| then To(c[k + 1]) else Null
  {
  }

  /** No thread ever dereferences NULL or an unallocated node. */
  lemma AlwaysSafe(m: Mem, c: seq<Id>, l: Local)
    requires Chain(m, c) && LocalInv(m, c, l)
    ensures Safe(m, l)
  {
    if l.pc == DeqValue {
      var k := l.head.tag.v;
      assert m.nodes[c[k]].next.ref == To(c[k + 1]);
    }
  }

  predicate Links(m: Mem, l: Local)
    requires Safe(m, l)
  {
    l.pc == EnqLink && Succeeds(m, l)
  }

  function Grow(m: Mem, c: seq<Id>, l: Local): seq<Id>
    requires Safe(m, l)
  {
    if Links(m, l) then c + [l.node] else c
  }

  ghost predicate Good(m: Mem, c: seq<Id>, l: Local, o: Outcome)
    requires Safe(m, l)
  {
    && Evolves(m, c, o.mem, Grow(m, c, l))
    && (o.Stay? ==> LocalInv(o.mem, Grow(m, c, l), o.local))
  }

  lemma EnqLoadInv(m: Mem, c: seq<Id>, l: Local, w: Snap)
    requires Chain(m, c) && LocalInv(m, c, l) && IsLoad(l.pc) && Safe(m, l) && IsEnq(l.pc)
    requires Loaded(m, l, w)
    ensures LocalInv(m, c, Store(l, w))
  {
    match l.pc {
      case EnqTail =>
      case EnqNext =>
      case EnqAgain =>
    }
  }

  lemma DeqLoadInv(m: Mem, c: seq<Id>, l: Local, w: Snap)
    requires Chain(m, c) && LocalInv(m, c, l) && IsLoad(l.pc) && Safe(m, l) && !IsEnq(l.pc)
    requires Loaded(m, l, w)
    ensures LocalInv(m, c, Store(l, w))
  {
    match l.pc {
      case DeqHead =>
      case DeqTail => DeqTailInv(m, c, l, w);
      case DeqNext => DeqNextInv(m, c, l, w);
      case DeqAgain =>
    }
  }

  /** `w` is the local being filled with one more half loaded. */
  predicate Loaded(m: Mem, l: Local, w: Snap)
    requires IsLoad(l.pc) && Safe(m, l)
  {
    || (Dest(l).ref.Unread? && w == Dest(l).(ref := Read(Source(m, l).ref)))
    || (Dest(l).tag.Unread? && w == Dest(l).(tag := Read(Source(m, l).tag)))
  }

  lemma DeqTailInv(m: Mem, c: seq<Id>, l: Local, w: Snap)
    requires Chain(m, c) && LocalInv(m, c, l) && Safe(m, l) && l.pc == DeqTail
    requires Loaded(m, l, w)
    ensures LocalInv(m, c, Store(l, w))
  {
  }

  lemma DeqNextInv(m: Mem, c: seq<Id>, l: Local, w: Snap)
    requires Chain(m, c) && LocalInv(m, c, l) && Safe(m, l) && l.pc == DeqNext
    requires Loaded(m, l, w)
    ensures LocalInv(m, c, Store(l, w))
  {
    if m.head == l.head.Get() && l.head.ref != l.tail.ref {
      var j :| 0 <= j < |c| && c[j] == l.tail.ref.v.id;
      var k := l.head.tag.v;
      assert k < j;
      assert m.nodes[c[k]].next.ref == To(c[k + 1]);
    }
  }

  lemma Unchanged(m: Mem, c: seq<Id>)
    requires Chain(m, c)
    ensures Evolves(m, c, m, c)
  {
  }

  lemma EnqCheckInv(m: Mem, c: seq<Id>, l: Local)
    requires Chain(m, c) && LocalInv(m, c, l) && Safe(m, l) && l.pc == EnqCheck
    ensures Good(m, c, l, Run(m, l))
  {
    assert Run(m, l).mem == m;
  }

  lemma DeqCheckInv(m: Mem, c: seq<Id>, l: Local)
    requires Chain(m, c) && LocalInv(m, c, l) && Safe(m, l) && l.pc == DeqCheck
    ensures Good(m, c, l, Run(m, l))
  {
    hide Chain, LocalInv, Evolves, Run;
    DeqCheckLocal(m, c, l);
    Unchanged(m, c);
  }

  lemma DeqCheckLocal(m: Mem, c: seq<Id>, l: Local)
    requires Chain(m, c) && LocalInv(m, c, l) && Safe(m, l) && l.pc == DeqCheck
    ensures Run(m, l).mem == m && (Run(m, l).Stay? ==> LocalInv(m, c, Run(m, l).local))
  {
    hide EnqInv;
  }

  lemma LinkInv(m: Mem, c: seq<Id>, l: Local)
    requires Chain(m, c) && LocalInv(m, c, l) && Safe(m, l) && l.pc == EnqLink
    ensures Good(m, c, l, Run(m, l))
  {
    if Links(m, l) {
      LinkOk(m, c, l);
    } else {
      LinkFails(m, c, l);
    }
  }

  lemma LinkFails(m: Mem, c: seq<Id>, l: Local)
    requires Chain(m, c) && LocalInv(m, c, l) && Safe(m, l) && l.pc == EnqLink && !Links(m, l)
    ensures Good(m, c, l, Run(m, l))
  {
    hide Chain, Evolves, DeqInv;
    assert Run(m, l).mem == m;
    Unchanged(m, c);
  }

  lemma LinkOk(m: Mem, c: seq<Id>, l: Local)
    requires Chain(m, c) && LocalInv(m, c, l) && Safe(m, l) && l.pc == EnqLink && Links(m, l)
    ensures Good(m, c, l, Run(m, l))
  {
    hide Chain, Evolves;
    LinkChain(m, c, l);
    LinkEvolves(m, c, l);
  }

  /** The Tail that was read is the last node, and the new node goes after it. */
  lemma LinkChain(m: Mem, c: seq<Id>, l: Local)
    requires Chain(m, c) && LocalInv(m, c, l) && Safe(m, l) && l.pc == EnqLink && Links(m, l)
    ensures l.tail.tag.v == |c| - 1 && Chain(Run(m, l).mem, c + [l.node])
  {
    hide DeqInv;
    NextOf(m, c, l.tail.tag.v);
  }

  lemma LinkEvolves(m: Mem, c: seq<Id>, l: Local)
    requires Chain(m, c) && LocalInv(m, c, l) && Safe(m, l) && l.pc == EnqLink && Links(m, l)
    requires l.tail.tag.v == |c| - 1 && Chain(Run(m, l).mem, c + [l.node])
    ensures Evolves(m, c, Run(m, l).mem, c + [l.node])
  {
    hide Chain, DeqInv;
    LastLinked(m, c);
  }

  lemma LastLinked(m: Mem, c: seq<Id>)
    requires Chain(m, c)
    ensures c[|c| - 1] in m.nodes && m.nodes[c[|c| - 1]].next.ref == Null
  {
  }

  lemma HelpInv(m: Mem, c: seq<Id>, l: Local)
    requires Chain(m, c) && LocalInv(m, c, l) && Safe(m, l) && l.pc in {EnqHelp, DeqHelp}
    ensures Good(m, c, l, Run(m, l))
  {
    if Succeeds(m, l) {
      HelpOk(m, c, l);
    } else {
      hide Chain, Evolves;
      assert Run(m, l).mem == m;
      Unchanged(m, c);
    }
  }

  lemma HelpOk(m: Mem, c: seq<Id>, l: Local)
    requires Chain(m, c) && LocalInv(m, c, l) && Safe(m, l) && l.pc in {EnqHelp, DeqHelp} && Succeeds(m, l)
    ensures Good(m, c, l, Run(m, l))
  {
    NextOf(m, c, m.tail.tag);
    assert l.next.ref.v == To(c[m.tail.tag + 1]);
  }

  lemma EnqSwingInv(m: Mem, c: seq<Id>, l: Local)
    requires Chain(m, c) && LocalInv(m, c, l) && Safe(m, l) && l.pc == EnqSwing
    ensures Good(m, c, l, Run(m, l))
  {
  }

  lemma DeqSwingInv(m: Mem, c: seq<Id>, l: Local)
    requires Chain(m, c) && LocalInv(m, c, l) && Safe(m, l) && l.pc in {DeqValue, DeqSwing}
    ensures Good(m, c, l, Run(m, l))
  {
    hide EnqInv;
    if l.pc == DeqSwing && Succeeds(m, l) {
      HeadMoves(m, c, l);
    } else {
      hide Chain, Evolves;
      assert Run(m, l).mem == m;
      Unchanged(m, c);
    }
  }

  lemma HeadMoves(m: Mem, c: seq<Id>, l: Local)
    requires Chain(m, c) && LocalInv(m, c, l) && Safe(m, l) && l.pc == DeqSwing && Succeeds(m, l)
    ensures Good(m, c, l, Run(m, l))
  {
    hide EnqInv;
    NextOf(m, c, l.head.tag.v);
  }

  lemma CountInv(m: Mem, c: seq<Id>, l: Local)
    requires Chain(m, c) && LocalInv(m, c, l) && Safe(m, l) && l.pc in {EnqCount, DeqCount}
    ensures Good(m, c, l, Run(m, l))
  {
  }

  lemma RunInv(m: Mem, c: seq<Id>, l: Local)
    requires Chain(m, c) && LocalInv(m, c, l) && Safe(m, l) && !IsLoad(l.pc)
    ensures Good(m, c, l, Run(m, l))
  {
    hide LocalInv, Chain, Evolves, Run, Good;
    match l.pc {
      case EnqCheck => EnqCheckInv(m, c, l);
      case DeqCheck => DeqCheckInv(m, c, l);
      case EnqLink => LinkInv(m, c, l);
      case EnqSwing => EnqSwingInv(m, c, l);
      case EnqCount => CountInv(m, c, l);
      case DeqCount => CountInv(m, c, l);
      case EnqHelp => HelpInv(m, c, l);
      case DeqHelp => HelpInv(m, c, l);
      case DeqValue => DeqSwingInv(m, c, l);
      case DeqSwing => DeqSwingInv(m, c, l);
    }
  }

  /** The witness after the step `lb`. */
  ghost function Chain'(s: State, c: seq<Id>, lb: Label): seq<Id>
    requires Enabled(s, lb) && SafeLabel(s, lb)
  {
    if lb.t in s.threads then Grow(s.mem, c, s.threads[lb.t]) else c
  }

  lemma EffectInv(s: State, c: seq<Id>, lb: Label)
    requires Inv(s, c) && Enabled(s, lb)
    ensures SafeLabel(s, lb)
    ensures var o, c' := Effect(s, lb), Chain'(s, c, lb);
      Evolves(s.mem, c, o.mem, c') && (o.Stay? ==> LocalInv(o.mem, c', o.local))
  {
    hide Chain, LocalInv, Evolves, Run, Private;
    if lb.t in s.threads {
      assert LocalInv(s.mem, c, s.threads[lb.t]);
      AlwaysSafe(s.mem, c, s.threads[lb.t]);
      if lb.a.Exec? { RunInv(s.mem, c, s.threads[lb.t]); } else { LoadInv(s, c, lb); Unchanged(s.mem, c); }
    } else if lb.a.StartEnq? {
      StartEnqInv(s.mem, c, lb.a.v, lb.a.id, lb.a.junk);
    } else {
      Unchanged(s.mem, c);
      StartDeqInv(s.mem, c);
    }
  }

  lemma StartDeqInv(m: Mem, c: seq<Id>)
    ensures LocalInv(m, c, Begin(DeqHead, 0, 0))
  {
  }

  lemma LoadInv(s: State, c: seq<Id>, lb: Label)
    requires Chain(s.mem, c) && Enabled(s, lb) && SafeLabel(s, lb) && (lb.a.LoadRef? || lb.a.LoadTag?)
    requires LocalInv(s.mem, c, s.threads[lb.t])
    ensures Effect(s, lb).mem == s.mem && Chain'(s, c, lb) == c
    ensures Effect(s, lb).Stay? && LocalInv(s.mem, c, Effect(s, lb).local)
  {
    hide LocalInv, Chain;
    var m, l := s.mem, s.threads[lb.t];
    var w := if lb.a.LoadRef? then Dest(l).(ref := Read(Source(m, l).ref))
             else Dest(l).(tag := Read(Source(m, l).tag));
    if IsEnq(l.pc) { EnqLoadInv(m, c, l, w); } else { DeqLoadInv(m, c, l, w); }
  }

  lemma StartEnqInv(m: Mem, c: seq<Id>, v: Value, id: Id, junk: nat)
    requires Chain(m, c) && id !in m.nodes
    ensures var m' := m.(nodes := m.nodes[id := Node(Ptr(Null, junk), v)]);
      Evolves(m, c, m', c) && LocalInv(m', c, Begin(EnqTail, id, v))
  {
  }

  /** Every step of every thread keeps the invariant. */
  lemma StepInv(s: State, c: seq<Id>, lb: Label)
    requires Inv(s, c) && Enabled(s, lb)
    ensures SafeLabel(s, lb) && Inv(Next(s, lb), Chain'(s, c, lb))
  {
    EffectInv(s, c, lb);
    var s', c' := Next(s, lb), Chain'(s, c, lb);
    forall u | u in s.threads && u != lb.t ensures LocalInv(s'.mem, c', s.threads[u]) {
      OtherInv(s, c, lb, u);
    }
    PrivateInv(s, c, lb);
  }

  lemma OtherInv(s: State, c: seq<Id>, lb: Label, u: Tid)
    requires Inv(s, c) && Enabled(s, lb) && SafeLabel(s, lb) && u in s.threads && u != lb.t
    requires Evolves(s.mem, c, Effect(s, lb).mem, Chain'(s, c, lb))
    ensures LocalInv(Effect(s, lb).mem, Chain'(s, c, lb), s.threads[u])
  {
    hide Chain, Evolves, EnqInv, DeqInv;
    assert LocalInv(s.mem, c, s.threads[u]);
    StillMine(s, c, lb, u);
    LocalStable(s.mem, c, Effect(s, lb).mem, Chain'(s, c, lb), s.threads[u]);
  }

  /** A node that another thread still owns is not linked by this step. */
  lemma StillMine(s: State, c: seq<Id>, lb: Label, u: Tid)
    requires Inv(s, c) && Enabled(s, lb) && SafeLabel(s, lb) && u in s.threads && u != lb.t
    ensures Owns(s.threads[u].pc) ==> s.threads[u].node !in Chain'(s, c, lb)
  {
    hide Chain, DeqInv;
    assert LocalInv(s.mem, c, s.threads[u]);
  }

  lemma PrivateInv(s: State, c: seq<Id>, lb: Label)
    requires Inv(s, c) && Enabled(s, lb) && SafeLabel(s, lb)
    ensures Private(Next(s, lb).threads)
  {
    OwnsBack(s, lb);
    forall u | u in s.threads && Owns(s.threads[u].pc) ensures s.threads[u].node in s.mem.nodes {
      assert LocalInv(s.mem, c, s.threads[u]);
    }
  }

  lemma OwnsBack(s: State, lb: Label)
    requires Enabled(s, lb) && SafeLabel(s, lb)
    ensures var o := Effect(s, lb);
      o.Stay? && Owns(o.local.pc) ==>
        if lb.t in s.threads then Owns(s.threads[lb.t].pc) && o.local.node == s.threads[lb.t].node
        else o.local.node !in s.mem.nodes
  {
  }
}
