/**
 A reference encoder for the format that bios/seabios/src/lzmadecode.c reads. It first writes a
 symbol as a list of binary decisions, each with the probability it is coded under, and then
 narrows an interval of integers by the decisions. Any number in the final interval, written in
 bytes, is the encoded stream. The encoder knows nothing of the decoder's words Range and Code.
 */
module LzmaEncoder {
  import opened Words
  import opened Lzma
  import opened LzmaOutput

  datatype Decision = Model(i: nat, b: nat) | Raw(b: nat)

  predicate DecisionOk(d: Decision, n: nat) { d.b <= 1 && (d.Model? ==> d.i < n) }

  predicate AllOk(ds: seq<Decision>, n: nat) { forall k :: 0 <= k < |ds| ==> DecisionOk(ds[k], n) }

  // ---- The interval ----

  /** The numbers of `count` bytes from `low` on, `range` of them. */
  datatype Interval = Interval(low: nat, range: nat, count: nat, probs: seq<nat>)

  predicate IntervalOk(e: Interval) {
    0x1_0000 <= e.range < U32 && forall i :: 0 <= i < |e.probs| ==> ProbOk(e.probs[i])
  }

  /** One more byte when the interval has become small. */
  function Widen(e: Interval): Interval {
    if e.range < TOP then e.(low := 256 * e.low, range := 256 * e.range, count := e.count + 1) else e
  }

  /** The part of the interval that stands for the decision. */
  function Narrow(e: Interval, d: Decision): (r: Interval)
    requires IntervalOk(e) && DecisionOk(d, |e.probs|)
    ensures IntervalOk(r) && |r.probs| == |e.probs|
  {
    var w := Widen(e);
    match d
    case Model(i, b) =>
      var p := w.probs[i];
      BoundSplits(w.range, p);
      ProbsStay(p);
      if b == 0 then w.(range := Bound(w.range, p), probs := w.probs[i := Up(p)])
      else w.(low := w.low + Bound(w.range, p), range := w.range - Bound(w.range, p), probs := w.probs[i := Down(p)])
    case Raw(b) => w.(low := w.low + b * (w.range / 2), range := w.range / 2)
  }

  function Narrowed(e: Interval, ds: seq<Decision>): (r: Interval)
    requires IntervalOk(e) && AllOk(ds, |e.probs|)
    ensures IntervalOk(r) && |r.probs| == |e.probs|
    decreases |ds|
  {
    if ds == [] then e else Narrowed(Narrow(e, ds[0]), ds[1..])
  }

  function Whole(p: Props): Interval { Interval(0, U32 - 1, 5, seq(NumProbs(p), _ => 1024)) }

  /** The first `n` bytes as a number. */
  ghost function Num(input: seq<byte>, n: nat): nat
    requires n <= |input|
  {
    if n == 0 then 0 else 256 * Num(input, n - 1) + input[n - 1]
  }

  ghost predicate Contains(e: Interval, input: seq<byte>) {
    e.count <= |input| && e.low <= Num(input, e.count) < e.low + e.range
  }

  /** The number in `n` bytes. */
  function Bytes(x: nat, n: nat): (r: seq<byte>)
    ensures |r| == n
  {
    if n == 0 then [] else Bytes(x / 256, n - 1) + [x % 256]
  }

  // ---- Decisions of a tree ----

  /** The child of node `m` on the way to node `n` of a binary tree with root 1. */
  function Child(m: nat, n: nat): nat
    requires m < n
    decreases n
  {
    if n / 2 <= m then n else Child(m, n / 2)
  }

  predicate Above(m: nat, n: nat)
    decreases n
  {
    m == n || (m < n && n > 0 && Above(m, n / 2))
  }

  lemma {:induction false} ChildIs(m: nat, n: nat)
    requires Above(m, n) && m < n
    ensures var ch := Child(m, n); m < ch <= n && ch / 2 == m && Above(ch, n)
    decreases n
  {
    if n / 2 > m { ChildIs(m, n / 2); }
  }

  lemma {:induction false} RootAbove(n: nat)
    requires n >= 1
    ensures Above(1, n)
    decreases n
  {
    if n > 1 { RootAbove(n / 2); }
  }

  /** The decisions from node `m` to the leaf `n` of a tree with `size` leaves. */
  function PathBits(base: nat, size: nat, m: nat, n: nat): (ds: seq<Decision>)
    requires 1 <= m <= n < 2 * size && Above(m, n)
    ensures AllOk(ds, base + size)
    decreases n - m
  {
    if m >= size || m == n then []
    else
      ChildIs(m, n);
      var ch := Child(m, n);
      [Model(base + m, ch % 2)] + PathBits(base, size, ch, n)
  }

  function LeafBits(base: nat, size: nat, v: nat): (ds: seq<Decision>)
    requires v < size
    ensures AllOk(ds, base + size)
  {
    RootAbove(size + v);
    PathBits(base, size, 1, size + v)
  }

  /** The `levels` low bits of `v`, from the lowest up. */
  function ReverseBits(first: nat, levels: nat, m: nat, v: nat): (ds: seq<Decision>)
    requires first + m >= 1
    ensures |ds| == levels
    decreases levels
  {
    if levels == 0 then []
    else [Model(first + m - 1, v % 2)] + ReverseBits(first, levels - 1, 2 * m + v % 2, v / 2)
  }

  function Halves(t: nat, n: nat): nat
    decreases n
  {
    if n == 0 then t else Halves(t / 2, n - 1)
  }

  /** The `n` low bits of `t`, from the highest down. */
  function DirectBits(n: nat, t: nat): (ds: seq<Decision>)
    ensures AllOk(ds, 0)
    decreases n
  {
    if n == 0 then [] else [Raw(Halves(t, n - 1) % 2)] + DirectBits(n - 1, t)
  }

  // ---- Decisions of a length and of a distance ----

  function LengthBits(base: nat, posState: nat, len: nat): (ds: seq<Decision>)
    requires posState < 16 && len < 272
    ensures AllOk(ds, base + NUM_LEN_PROBS)
  {
    if len < 8 then [Model(base, 0)] + LeafBits(base + LEN_LOW + 8 * posState, 8, len)
    else if len < 16 then [Model(base, 1), Model(base + 1, 0)] + LeafBits(base + LEN_MID + 8 * posState, 8, len - 8)
    else [Model(base, 1), Model(base + 1, 1)] + LeafBits(base + LEN_HIGH, 256, len - 16)
  }

  /** The two leading bits of a number from 4 on, and how many bits follow them. */
  function Lead(x: nat): (r: nat)
    ensures if x < 4 then r == x else 2 <= r <= 3
  {
    if x < 4 then x else Lead(x / 2)
  }

  function Rest(x: nat): nat { if x < 4 then 0 else 1 + Rest(x / 2) }

  function SlotOf(x: nat): nat { if x < 4 then x else 2 * (Rest(x) + 1) + Lead(x) % 2 }

  /** A number is its two leading bits followed by the rest. */
  lemma {:induction false} LeadAndRest(x: nat)
    requires x >= 4
    ensures Rest(x) >= 1 && Shl(Lead(x), Rest(x)) <= x < Shl(Lead(x), Rest(x)) + Shl(1, Rest(x))
  {
    if x >= 8 { LeadAndRest(x / 2); }
    ShlDouble(Lead(x), Rest(x) - 1);
    ShlDouble(1, Rest(x) - 1);
  }

  lemma {:induction false} ShlDouble(x: nat, n: nat)
    ensures Shl(x, n + 1) == 2 * Shl(x, n)
    decreases n
  {
    if n > 0 { ShlDouble(2 * x, n - 1); }
  }

  lemma {:induction false} RestMost(x: nat, n: nat)
    requires x < Shl(4, n)
    ensures Rest(x) <= n
    decreases n
  {
    if n == 0 { assert x < 4; } else if x >= 4 {
      ShlDouble(4, n - 1);
      RestMost(x / 2, n - 1);
    }
  }

  lemma SlotOfFits(x: nat)
    requires x < U32
    ensures SlotOf(x) < 64 && (x >= 4 ==> SlotOf(x) >= 4 && SlotOf(x) / 2 - 1 == Rest(x) && 2 + SlotOf(x) % 2 == Lead(x))
  {
    ShlIs(4, 30);
    Pow2Of30();
    RestMost(x, 30);
    if x >= 4 { LeadAndRest(x); }
  }

  lemma Pow2Of30()
    ensures Pow2(30) == 0x4000_0000
  {
    Pow2Add(26, 4);
    Pow2Of26();
    assert Pow2(4) == 16;
  }

  function FarBits(x: nat): (ds: seq<Decision>)
    requires 4 <= x < U32
  {
    LeadAndRest(x);
    SlotOfFits(x);
    var v := Shl(Lead(x), Rest(x));
    if SlotOf(x) < 14 then
      SlotFits(SlotOf(x));
      ReverseBits(SPEC_POS + v - SlotOf(x), Rest(x), 1, x - v)
    else DirectBits(Rest(x) - 4, x / 16) + ReverseBits(ALIGN + 1, 4, 1, x % 16)
  }

  /** The decisions of a distance that is one more than `x`. */
  function DistanceBits(len: nat, x: nat): (ds: seq<Decision>)
    requires x < U32
  {
    SlotOfFits(x);
    LeafBits(POS_SLOT + 64 * (if len < 4 then len else 3), 64, SlotOf(x)) + if x < 4 then [] else FarBits(x)
  }

  // ---- Decisions of a literal ----

  /** While the bits agree with those of `matchByte`, they have their own probabilities. */
  function MatchedBits(base: nat, m: nat, matchByte: nat, n: nat): (ds: seq<Decision>)
    requires 1 <= m < 256 <= n < 512 && Above(m, n)
    ensures AllOk(ds, base + LZMA_LIT_SIZE)
    decreases n - m
  {
    ChildIs(m, n);
    var bit, ch := matchByte / 128 % 2, Child(m, n);
    [Model(base + 0x100 + 0x100 * bit + m, ch % 2)] +
    (if ch % 2 == bit && ch < 256 then MatchedBits(base, ch, 2 * matchByte, n) else PathBits(base, 256, ch, n))
  }

  function LiteralBits(p: Props, k: Context, out: seq<byte>, b: byte): (ds: seq<Decision>)
    requires Proper(p) && ContextOk(k, |out|)
  {
    var base := LitBase(p, |out|, Last(out));
    RootAbove(256 + b);
    if k.state >= 7 then MatchedBits(base, 1, out[|out| - k.rep0], 256 + b) else PathBits(base, 256, 1, 256 + b)
  }

  // ---- Symbols ----

  /** How a token is coded: a distance may be new, or one of the last four. */
  datatype Sym = Literal(b: byte) | Match(distance: nat, length: nat) | Rep(j: nat, length: nat) | ShortRep | EndMark

  function RepAt(k: Context, j: nat): nat { if j == 0 then k.rep0 else if j == 1 then k.rep1 else if j == 2 then k.rep2 else k.rep3 }

  predicate SymOk(s: Sym, k: Context, written: nat) {
    match s
    case Match(d, n) => 1 <= d <= written && d < U32 && 2 <= n <= 273
    case Rep(j, n) => j < 4 && RepAt(k, j) <= written && 2 <= n <= 273
    case ShortRep => written >= 1
    case _ => true
  }

  function TokenOf(s: Sym, k: Context): Token {
    match s
    case Literal(b) => Byte(b)
    case Match(d, n) => Copy(d, n)
    case Rep(j, n) => Copy(RepAt(k, j), n)
    case ShortRep => Copy(k.rep0, 1)
    case EndMark => End
  }

  /** The last four distances and the kind of the last symbols. */
  function ContextAfter(s: Sym, k: Context): Context {
    match s
    case Literal(_) => k.(state := AfterLiteral(k.state))
    case Match(d, _) => Context(if k.state < 7 then 7 else 10, d, k.rep0, k.rep1, k.rep2)
    case EndMark => Context(if k.state < 7 then 7 else 10, 0, k.rep0, k.rep1, k.rep2)
    case ShortRep => k.(state := if k.state < 7 then 9 else 11)
    case Rep(j, _) =>
      Context(if k.state < 7 then 8 else 11, RepAt(k, j),
              if j == 0 then k.rep1 else k.rep0, if j <= 1 then k.rep2 else k.rep1, if j <= 2 then k.rep3 else k.rep2)
  }

  /** Which of the three older distances. */
  function OlderBits(k: Context, j: nat): (ds: seq<Decision>)
    requires 1 <= j < 4
  {
    if j == 1 then [Model(IS_REP_G1 + k.state, 0)] else [Model(IS_REP_G1 + k.state, 1), Model(IS_REP_G2 + k.state, j - 2)]
  }

  /** What distinguishes the ways to repeat a distance. */
  function RepBits(k: Context, posState: nat, s: Sym): (ds: seq<Decision>)
    requires s.ShortRep? || (s.Rep? && s.j < 4)
  {
    if s.Rep? && s.j > 0 then [Model(IS_REP_G0 + k.state, 1)] + OlderBits(k, s.j)
    else [Model(IS_REP_G0 + k.state, 0), Model(IS_REP0_LONG + 16 * k.state + posState, if s.Rep? then 1 else 0)]
  }

  function SymBits(p: Props, k: Context, out: seq<byte>, s: Sym): (ds: seq<Decision>)
    requires Proper(p) && ContextOk(k, |out|) && SymOk(s, k, |out|)
  {
    PosStateFits(p, |out|);
    var posState := PosState(p, |out|);
    var isMatch, isRep := IS_MATCH + 16 * k.state + posState, IS_REP + k.state;
    match s
    case Literal(b) => [Model(isMatch, 0)] + LiteralBits(p, k, out, b)
    case Match(d, n) => [Model(isMatch, 1), Model(isRep, 0)] + LengthBits(LEN_CODER, posState, n - 2) + DistanceBits(n - 2, d - 1)
    case EndMark => [Model(isMatch, 1), Model(isRep, 0)] + LengthBits(LEN_CODER, posState, 0) + DistanceBits(0, U32 - 1)
    case ShortRep => [Model(isMatch, 1), Model(isRep, 1)] + RepBits(k, posState, s)
    case Rep(_, n) => [Model(isMatch, 1), Model(isRep, 1)] + RepBits(k, posState, s) + LengthBits(REP_LEN_CODER, posState, n - 2)
  }

  lemma ContextAfterOk(s: Sym, k: Context, written: nat)
    requires ContextOk(k, written) && SymOk(s, k, written) && !s.EndMark?
    ensures TokenOk(TokenOf(s, k), written) && forall w :: w > written ==> ContextOk(ContextAfter(s, k), w)
  {
  }

  /** Symbols that produce exactly `limit` bytes, or end with the end marker. */
  ghost predicate StreamOk(k: Context, out: seq<byte>, syms: seq<Sym>, limit: nat)
    requires ContextOk(k, |out|)
    decreases |syms|
  {
    if syms == [] then |out| == limit
    else
      && |out| < limit && SymOk(syms[0], k, |out|)
      && if syms[0].EndMark? then |syms| == 1
         else
           ContextAfterOk(syms[0], k, |out|);
           StreamOk(ContextAfter(syms[0], k), Emit(out, TokenOf(syms[0], k), limit), syms[1..], limit)
  }

  ghost function StreamBits(p: Props, k: Context, out: seq<byte>, syms: seq<Sym>, limit: nat): seq<Decision>
    requires Proper(p) && ContextOk(k, |out|) && StreamOk(k, out, syms, limit)
    decreases |syms|
  {
    if syms == [] then []
    else if syms[0].EndMark? then SymBits(p, k, out, syms[0])
    else
      ContextAfterOk(syms[0], k, |out|);
      SymBits(p, k, out, syms[0]) + StreamBits(p, ContextAfter(syms[0], k), Emit(out, TokenOf(syms[0], k), limit), syms[1..], limit)
  }

  ghost function Tokens(k: Context, syms: seq<Sym>): seq<Token>
    decreases |syms|
  {
    if syms == [] then [] else [TokenOf(syms[0], k)] + Tokens(ContextAfter(syms[0], k), syms[1..])
  }

  // ---- All indices lie in the table ----

  lemma AllOkMore(ds: seq<Decision>, n: nat, m: nat)
    requires AllOk(ds, n) && n <= m
    ensures AllOk(ds, m)
  {
  }

  lemma AllOkConcat(xs: seq<Decision>, ys: seq<Decision>, n: nat)
    requires AllOk(xs, n) && AllOk(ys, n)
    ensures AllOk(xs + ys, n)
  {
  }

  lemma {:induction false} ReverseBitsOk(first: nat, levels: nat, m: nat, weight: nat, v: nat)
    requires weight <= m < 2 * weight && first + m >= 1
    ensures AllOk(ReverseBits(first, levels, m, v), first + Shl(weight, levels) - 1)
    decreases levels
  {
    if levels > 0 { ReverseBitsOk(first, levels - 1, 2 * m + v % 2, 2 * weight, v / 2); }
  }

  lemma FarBitsOk(x: nat)
    requires 4 <= x < U32
    ensures AllOk(FarBits(x), LITERAL)
  {
    hide Shl, Lead, Rest, ReverseBits, DirectBits;
    LeadAndRest(x);
    SlotOfFits(x);
    if SlotOf(x) < 14 {
      SlotFits(SlotOf(x));
      var first := SPEC_POS + Shl(Lead(x), Rest(x)) - SlotOf(x);
      ReverseBitsOk(first, Rest(x), 1, 1, x - Shl(Lead(x), Rest(x)));
    } else {
      ShlOf4();
      ReverseBitsOk(ALIGN + 1, 4, 1, 1, x % 16);
      AllOkMore(DirectBits(Rest(x) - 4, x / 16), 0, LITERAL);
      AllOkConcat(DirectBits(Rest(x) - 4, x / 16), ReverseBits(ALIGN + 1, 4, 1, x % 16), LITERAL);
    }
  }

  lemma DistanceBitsOk(len: nat, x: nat)
    requires x < U32
    ensures AllOk(DistanceBits(len, x), LITERAL)
  {
    SlotOfFits(x);
    if x >= 4 { FarBitsOk(x); }
    AllOkConcat(LeafBits(POS_SLOT + 64 * (if len < 4 then len else 3), 64, SlotOf(x)), if x < 4 then [] else FarBits(x), LITERAL);
  }

  lemma LiteralBitsOk(p: Props, k: Context, out: seq<byte>, b: byte)
    requires Proper(p) && ContextOk(k, |out|)
    ensures AllOk(LiteralBits(p, k, out, b), NumProbs(p))
  {
    LitBaseFits(p, |out|, Last(out));
    AllOkMore(LiteralBits(p, k, out, b), LitBase(p, |out|, Last(out)) + LZMA_LIT_SIZE, NumProbs(p));
  }

  lemma SymBitsOk(p: Props, k: Context, out: seq<byte>, s: Sym)
    requires Proper(p) && ContextOk(k, |out|) && SymOk(s, k, |out|)
    ensures AllOk(SymBits(p, k, out, s), NumProbs(p))
  {
    hide LengthBits, DistanceBits, LiteralBits, NumProbs, Pow2, PosState;
    PosStateFits(p, |out|);
    TableHasAll(p);
    var posState := PosState(p, |out|);
    match s
    case Literal(b) => LiteralBitsOk(p, k, out, b);
    case Match(d, n) =>
      DistanceBitsOk(n - 2, d - 1);
      AllOkMore(DistanceBits(n - 2, d - 1), LITERAL, NumProbs(p));
      AllOkMore(LengthBits(LEN_CODER, posState, n - 2), LEN_CODER + NUM_LEN_PROBS, NumProbs(p));
    case EndMark =>
      DistanceBitsOk(0, U32 - 1);
      AllOkMore(DistanceBits(0, U32 - 1), LITERAL, NumProbs(p));
      AllOkMore(LengthBits(LEN_CODER, posState, 0), LEN_CODER + NUM_LEN_PROBS, NumProbs(p));
    case ShortRep =>
    case Rep(_, n) => AllOkMore(LengthBits(REP_LEN_CODER, posState, n - 2), LITERAL, NumProbs(p));
  }

  lemma TableHasAll(p: Props)
    ensures NumProbs(p) >= LITERAL
  {
  }

  lemma {:induction false} StreamBitsOk(p: Props, k: Context, out: seq<byte>, syms: seq<Sym>, limit: nat)
    requires Proper(p) && ContextOk(k, |out|) && StreamOk(k, out, syms, limit)
    ensures AllOk(StreamBits(p, k, out, syms, limit), NumProbs(p))
    decreases |syms|
  {
    hide SymBits, NumProbs;
    if syms != [] {
      SymBitsOk(p, k, out, syms[0]);
      if !syms[0].EndMark? {
        ContextAfterOk(syms[0], k, |out|);
        StreamBitsOk(p, ContextAfter(syms[0], k), Emit(out, TokenOf(syms[0], k), limit), syms[1..], limit);
      }
    }
  }
}
