/**
 What bios/seabios/src/lzmadecode.c decodes, as functions: the adaptive range coder, the symbols
 built from it, and the output that the symbols stand for. The words of the coder are u32, the
 probabilities u16; the contracts bound them so that no operation wraps where it must not.
 */
module Lzma {
  import opened Words

  const TOP: nat := 0x100_0000          // kTopValue
  const MODEL_TOTAL: nat := 2048        // kBitModelTotal
  const LZMA_LIT_SIZE: nat := 768

  // The layout of the probability table.
  const IS_MATCH: nat := 0
  const IS_REP: nat := 192
  const IS_REP_G0: nat := 204
  const IS_REP_G1: nat := 216
  const IS_REP_G2: nat := 228
  const IS_REP0_LONG: nat := 240
  const POS_SLOT: nat := 432
  const SPEC_POS: nat := 688
  const ALIGN: nat := 802
  const LEN_CODER: nat := 818
  const REP_LEN_CODER: nat := 1332
  const LITERAL: nat := 1846

  const LEN_LOW: nat := 2
  const LEN_MID: nat := 130
  const LEN_HIGH: nat := 258
  const NUM_LEN_PROBS: nat := 514

  type byte = x: nat | x < 256

  datatype Props = Props(lc: nat, lp: nat, pb: nat)

  predicate Proper(p: Props) { p.lc <= 8 && p.lp <= 4 && p.pb <= 4 }

  function Pow2(n: nat): (r: nat)
    ensures r > 0
  {
    if n == 0 then 1 else 2 * Pow2(n - 1)
  }

  /** LzmaGetNumProbs */
  function NumProbs(p: Props): nat { LITERAL + LZMA_LIT_SIZE * Pow2(p.lc + p.lp) }

  // ---- The range coder ----

  /** `at` counts the input bytes read so far. */
  datatype Coder = Coder(range: nat, code: nat, at: nat, probs: seq<nat>)

  /** Bad is LZMA_RESULT_DATA_ERROR. */
  datatype Result<T> = Bad | Got(coder: Coder, value: T)

  predicate ProbOk(p: nat) { 31 <= p <= 2017 }

  /** A word is at most one 8-bit shift below kTopValue, and every probability is far from 0 and from 1. */
  ghost predicate Sound(c: Coder, input: seq<byte>) {
    && 0x1_0000 <= c.range < U32 && c.code < U32 && c.at <= |input|
    && forall i :: 0 <= i < |c.probs| ==> ProbOk(c.probs[i])
  }

  /** A later state of the same decoder. */
  ghost predicate Later(c: Coder, c': Coder, input: seq<byte>) {
    Sound(c', input) && |c'.probs| == |c.probs| && c.at <= c'.at
  }

  ghost predicate LaterIf<T>(c: Coder, r: Result<T>, input: seq<byte>) { r.Got? ==> Later(c, r.coder, input) }

  /** RC_NORMALIZE: one byte is always enough. */
  ghost function Normalize(input: seq<byte>, c: Coder): (r: Result<()>)
    requires Sound(c, input)
    ensures LaterIf(c, r, input) && (r.Got? ==> r.coder.range >= TOP && r.coder.probs == c.probs)
  {
    if c.range >= TOP then Got(c, ())
    else if c.at == |input| then Bad
    else Got(c.(range := c.range * 256, code := c.code * 256 % U32 + input[c.at], at := c.at + 1), ())
  }

  function Bound(range: nat, p: nat): nat { range / MODEL_TOTAL * p }

  /** The bound splits the range without overflow, and leaves both parts large enough. */
  lemma BoundSplits(range: nat, p: nat)
    requires TOP <= range < U32 && ProbOk(p)
    ensures 0x1_0000 <= Bound(range, p) && Bound(range, p) + 0x1_0000 <= range
  {
    var q := range / MODEL_TOTAL;
    MulBetween(q, 31, p);
    MulBetween(q, p, 2017);
  }

  lemma MulBetween(q: nat, a: nat, b: nat)
    requires a <= b
    ensures q * a <= q * b
  {
    assert q * (b - a) >= 0;
    assert q * b == q * a + q * (b - a);
  }

  function Up(p: nat): nat
    requires p <= MODEL_TOTAL
  {
    p + (MODEL_TOTAL - p) / 32
  }

  function Down(p: nat): nat { p - p / 32 }

  lemma ProbsStay(p: nat)
    requires ProbOk(p)
    ensures ProbOk(Up(p)) && ProbOk(Down(p)) && Down(p) <= p <= Up(p)
  {
  }

  /** IfBit0 with the update of the branch taken. */
  ghost function Bit(input: seq<byte>, c: Coder, i: nat): (r: Result<nat>)
    requires Sound(c, input) && i < |c.probs|
    ensures LaterIf(c, r, input) && (r.Got? ==> r.value <= 1)
  {
    match Normalize(input, c)
    case Bad => Bad
    case Got(n, _) =>
      var p := n.probs[i];
      var bound := Bound(n.range, p);
      BoundSplits(n.range, p);
      ProbsStay(p);
      if n.code < bound then Got(n.(range := bound, probs := n.probs[i := Up(p)]), 0)
      else Got(n.(range := n.range - bound, code := n.code - bound, probs := n.probs[i := Down(p)]), 1)
  }

  /** The rest of RangeDecoderBitTreeDecode over a tree of `size` leaves, at node `m`. */
  ghost function Tree(input: seq<byte>, c: Coder, base: nat, size: nat, m: nat): (r: Result<nat>)
    requires Sound(c, input) && base + size <= |c.probs| && 1 <= m < 2 * size
    ensures LaterIf(c, r, input) && (r.Got? ==> r.value < size)
    decreases 2 * size - m
  {
    if m >= size then Got(c, m - size)
    else match Bit(input, c, base + m)
      case Bad => Bad
      case Got(c', b) => Tree(input, c', base, size, 2 * m + b)
  }

  function Shl(x: nat, n: nat): (r: nat)
    ensures x <= r && (n > 0 ==> 2 * x <= r)
    decreases n
  {
    if n == 0 then x else Shl(2 * x, n - 1)
  }

  /** The same from the lowest bit up: `weight` is the value of the next bit, `first` is where node 1 is. */
  ghost function Reverse(input: seq<byte>, c: Coder, first: nat, levels: nat, m: nat, weight: nat): (r: Result<nat>)
    requires Sound(c, input) && weight <= m < 2 * weight && first + Shl(weight, levels) <= |c.probs| + 1
    ensures LaterIf(c, r, input) && (r.Got? ==> r.value + weight <= Shl(weight, levels))
    decreases levels
  {
    if levels == 0 then Got(c, 0)
    else match Bit(input, c, first + m - 1)
      case Bad => Bad
      case Got(c', b) =>
        match Reverse(input, c', first, levels - 1, 2 * m + b, 2 * weight)
        case Bad => Bad
        case Got(c'', v) => Got(c'', if b == 0 then v else weight + v)
  }

  /** A bit of fixed probability one half. */
  ghost function RawBit(input: seq<byte>, c: Coder): (r: Result<nat>)
    requires Sound(c, input)
    ensures LaterIf(c, r, input) && (r.Got? ==> r.value <= 1)
  {
    match Normalize(input, c)
    case Bad => Bad
    case Got(d, _) =>
      var half := d.range / 2;
      if d.code >= half then Got(d.(range := half, code := d.code - half), 1) else Got(d.(range := half), 0)
  }

  /** `n` such bits, the highest first, below the bits already in `v`; `w` bounds those. */
  ghost function Direct(input: seq<byte>, c: Coder, n: nat, v: nat, w: nat): (r: Result<nat>)
    requires Sound(c, input) && v < w
    ensures LaterIf(c, r, input) && (r.Got? ==> r.value < Shl(w, n))
    decreases n
  {
    if n == 0 then Got(c, v)
    else match RawBit(input, c)
      case Bad => Bad
      case Got(c', b) => Direct(input, c', n - 1, 2 * v + b, 2 * w)
  }

  // ---- Lengths and distances ----

  /** The length of a match above kMatchMinLen, with the coder at `base`. */
  ghost function Length(input: seq<byte>, c: Coder, base: nat, posState: nat): (r: Result<nat>)
    requires Sound(c, input) && base + NUM_LEN_PROBS <= |c.probs| && posState < 16
    ensures LaterIf(c, r, input) && (r.Got? ==> r.value < 272)
  {
    match Bit(input, c, base)
    case Bad => Bad
    case Got(c1, b) =>
      if b == 0 then Tree(input, c1, base + LEN_LOW + 8 * posState, 8, 1)
      else match Bit(input, c1, base + 1)
        case Bad => Bad
        case Got(c2, b') =>
          if b' == 0 then Plus(Tree(input, c2, base + LEN_MID + 8 * posState, 8, 1), 8)
          else Plus(Tree(input, c2, base + LEN_HIGH, 256, 1), 16)
  }

  ghost function Plus(r: Result<nat>, n: nat): Result<nat> {
    match r
    case Bad => Bad
    case Got(c, v) => Got(c, v + n)
  }

  /** The slots whose low bits have their own probabilities lie between SpecPos and Align. */
  lemma SlotFits(slot: nat)
    requires 4 <= slot < 14
    ensures var n := slot / 2 - 1; var v := Shl(2 + slot % 2, n);
      slot <= v && v - slot + Shl(1, n) <= ALIGN - SPEC_POS + 1 && v + Shl(1, n) <= 128
  {
    assert Shl(1, 1) == 2 && Shl(1, 2) == 4 && Shl(1, 3) == 8 && Shl(1, 4) == 16 && Shl(1, 5) == 32;
    assert Shl(2, 1) == 4 && Shl(2, 2) == 8 && Shl(2, 3) == 16 && Shl(2, 4) == 32 && Shl(2, 5) == 64;
    assert Shl(3, 1) == 6 && Shl(3, 2) == 12 && Shl(3, 3) == 24 && Shl(3, 4) == 48 && Shl(3, 5) == 96;
  }

  /** The remaining slots give 28 bits before the four aligned ones. */
  lemma DirectFits(slot: nat)
    requires 14 <= slot < 64
    ensures Shl(2 + slot % 2 + 1, slot / 2 - 5) <= 0x1000_0000
  {
    ShlMost(2 + slot % 2 + 1, slot / 2 - 5, 4, 26);
    ShlIs(4, 26);
    Pow2Of26();
  }

  lemma ShlOf4()
    ensures Shl(1, 3) == 8 && Shl(1, 4) == 16 && Shl(1, 6) == 64 && Shl(1, 8) == 256
  {
  }

  lemma {:induction false} ShlIs(x: nat, n: nat)
    ensures Shl(x, n) == x * Pow2(n)
    decreases n
  {
    if n > 0 {
      ShlIs(2 * x, n - 1);
      assert 2 * x * Pow2(n - 1) == x * (2 * Pow2(n - 1));
    }
  }

  lemma Pow2Of26()
    ensures Pow2(26) == 0x400_0000
  {
    assert Pow2(8) == 256;
    assert Pow2(17) == 0x2_0000;
  }

  lemma {:induction false} ShlMost(x: nat, n: nat, y: nat, m: nat)
    requires x <= y && n <= m
    ensures Shl(x, n) <= Shl(y, m)
    decreases m
  {
    if n > 0 { ShlMost(2 * x, n - 1, 2 * y, m - 1); }
  }

  /** The distance of a match of the given length, 0 for the end marker. */
  ghost function Distance(input: seq<byte>, c: Coder, len: nat): (r: Result<nat>)
    requires Sound(c, input) && LITERAL <= |c.probs|
    ensures LaterIf(c, r, input) && (r.Got? ==> r.value < U32)
  {
    match Tree(input, c, POS_SLOT + 64 * (if len < 4 then len else 3), 64, 1)
    case Bad => Bad
    case Got(c', slot) => if slot < 4 then Got(c', slot + 1) else FarDistance(input, c', slot)
  }

  ghost function FarDistance(input: seq<byte>, c: Coder, slot: nat): (r: Result<nat>)
    requires Sound(c, input) && LITERAL <= |c.probs| && 4 <= slot < 64
    ensures LaterIf(c, r, input) && (r.Got? ==> r.value < U32)
  {
    if slot < 14 then
      SlotFits(slot);
      var v := Shl(2 + slot % 2, slot / 2 - 1);
      Plus(Reverse(input, c, SPEC_POS + v - slot, slot / 2 - 1, 1, 1), v + 1)
    else
      DirectFits(slot);
      match Direct(input, c, slot / 2 - 5, 2 + slot % 2, 2 + slot % 2 + 1)
      case Bad => Bad
      case Got(c', d) =>
        ShlOf4();
        match Reverse(input, c', ALIGN + 1, 4, 1, 1)
        case Bad => Bad
        case Got(c'', low) => Got(c'', (16 * d + low + 1) % U32)
  }

  // ---- Literals ----

  /** The part of the table for a literal after `prev` at position `pos`. */
  function LitBase(p: Props, pos: nat, prev: byte): nat
    requires Proper(p)
  {
    LITERAL + LZMA_LIT_SIZE * (pos % Pow2(p.lp) * Pow2(p.lc) + prev / Pow2(8 - p.lc))
  }

  lemma LitBaseFits(p: Props, pos: nat, prev: byte)
    requires Proper(p)
    ensures LitBase(p, pos, prev) + LZMA_LIT_SIZE <= NumProbs(p)
  {
    hide Pow2;
    ColumnFits(p.lc, prev);
    Pow2Add(p.lc, p.lp);
    GridFits(pos % Pow2(p.lp), Pow2(p.lp), prev / Pow2(8 - p.lc), Pow2(p.lc));
  }

  lemma GridFits(row: nat, rows: nat, col: nat, cols: nat)
    requires row < rows && col < cols
    ensures row * cols + col + 1 <= cols * rows
  {
    MulBetween(cols, row + 1, rows);
    assert cols * (row + 1) == row * cols + cols;
  }

  lemma ColumnFits(lc: nat, prev: byte)
    requires lc <= 8
    ensures prev / Pow2(8 - lc) < Pow2(lc)
  {
    assert Pow2(1) == 2 && Pow2(2) == 4 && Pow2(3) == 8 && Pow2(4) == 16;
    assert Pow2(5) == 32 && Pow2(6) == 64 && Pow2(7) == 128 && Pow2(8) == 256;
  }

  lemma {:induction false} Pow2Add(a: nat, b: nat)
    ensures Pow2(a + b) == Pow2(a) * Pow2(b)
    decreases b
  {
    if b > 0 {
      Pow2Add(a, b - 1);
      TwiceProduct(Pow2(a), Pow2(b - 1));
    }
  }

  lemma TwiceProduct(x: nat, y: nat)
    ensures x * (2 * y) == 2 * (x * y)
  {
  }

  /** The bits below `symbol`, until it has its leading one and eight more. */
  ghost function Plain(input: seq<byte>, c: Coder, base: nat, symbol: nat): (r: Result<nat>)
    requires Sound(c, input) && base + LZMA_LIT_SIZE <= |c.probs| && 1 <= symbol < 512
    ensures LaterIf(c, r, input) && (r.Got? ==> 256 <= r.value < 512)
    decreases 512 - symbol
  {
    if symbol >= 256 then Got(c, symbol)
    else match Bit(input, c, base + symbol)
      case Bad => Bad
      case Got(c', b) => Plain(input, c', base, 2 * symbol + b)
  }

  /** The same as long as the bits agree with those of the byte at distance rep0. */
  ghost function Matched(input: seq<byte>, c: Coder, base: nat, symbol: nat, matchByte: nat): (r: Result<nat>)
    requires Sound(c, input) && base + LZMA_LIT_SIZE <= |c.probs| && 1 <= symbol < 256
    ensures LaterIf(c, r, input) && (r.Got? ==> 256 <= r.value < 512)
    decreases 512 - symbol
  {
    var bit := matchByte / 128 % 2;
    match Bit(input, c, base + 0x100 + 0x100 * bit + symbol)
    case Bad => Bad
    case Got(c', b) =>
      var symbol' := 2 * symbol + b;
      if b == bit && symbol' < 256 then Matched(input, c', base, symbol', 2 * matchByte)
      else Plain(input, c', base, symbol')
  }

  // ---- Symbols ----

  datatype Token = Byte(b: byte) | Copy(distance: nat, length: nat) | End

  datatype Context = Context(state: nat, rep0: nat, rep1: nat, rep2: nat, rep3: nat)

  predicate RepOk(rep: nat, written: nat) { 1 <= rep && (rep == 1 || rep <= written) }

  /** After a match there is a byte at distance rep0. */
  predicate ContextOk(k: Context, written: nat) {
    && k.state < 12 && (k.state >= 7 ==> written >= 1)
    && RepOk(k.rep0, written) && RepOk(k.rep1, written) && RepOk(k.rep2, written) && RepOk(k.rep3, written)
  }

  predicate TokenOk(t: Token, written: nat) { t.Copy? ==> 1 <= t.distance <= written && t.length >= 1 }

  function AfterLiteral(state: nat): nat { if state < 4 then 0 else if state < 10 then state - 3 else state - 6 }

  datatype Step = Step(token: Token, context: Context)

  ghost predicate StepOk(c: Coder, r: Result<Step>, input: seq<byte>, written: nat) {
    && LaterIf(c, r, input)
    && (r.Got? ==> TokenOk(r.value.token, written) && (r.value.token.End? || ContextOk(r.value.context, written + 1)))
  }

  ghost predicate Ready(input: seq<byte>, p: Props, c: Coder, k: Context, out: seq<byte>) {
    Proper(p) && Sound(c, input) && |c.probs| == NumProbs(p) && ContextOk(k, |out|)
  }

  function Last(out: seq<byte>): byte { if out == [] then 0 else out[|out| - 1] }

  ghost function LiteralStep(input: seq<byte>, p: Props, c: Coder, k: Context, out: seq<byte>): (r: Result<Step>)
    requires Ready(input, p, c, k, out)
    ensures StepOk(c, r, input, |out|)
  {
    var base := LitBase(p, |out|, Last(out));
    LitBaseFits(p, |out|, Last(out));
    var r := if k.state >= 7 then Matched(input, c, base, 1, out[|out| - k.rep0]) else Plain(input, c, base, 1);
    match r
    case Bad => Bad
    case Got(c', symbol) => Got(c', Step(Byte(symbol - 256), k.(state := AfterLiteral(k.state))))
  }

  /** A match whose distance is already in rep0. */
  ghost function RepeatStep(input: seq<byte>, c: Coder, k: Context, posState: nat, out: seq<byte>): (r: Result<Step>)
    requires Sound(c, input) && LITERAL <= |c.probs| && posState < 16 && ContextOk(k, |out|)
    ensures StepOk(c, r, input, |out|)
  {
    match Length(input, c, REP_LEN_CODER, posState)
    case Bad => Bad
    case Got(c', len) =>
      if k.rep0 > |out| then Bad
      else Got(c', Step(Copy(k.rep0, len + 2), k.(state := if k.state < 7 then 8 else 11)))
  }

  ghost function MatchStep(input: seq<byte>, c: Coder, k: Context, posState: nat, out: seq<byte>): (r: Result<Step>)
    requires Sound(c, input) && LITERAL <= |c.probs| && posState < 16 && ContextOk(k, |out|)
    ensures StepOk(c, r, input, |out|)
  {
    match Length(input, c, LEN_CODER, posState)
    case Bad => Bad
    case Got(c1, len) =>
      match Distance(input, c1, len)
      case Bad => Bad
      case Got(c2, d) => NewMatch(c2, k, d, len, |out|)
  }

  /** A match at a new distance, which becomes rep0. */
  ghost function NewMatch(c: Coder, k: Context, d: nat, len: nat, written: nat): (r: Result<Step>)
    requires ContextOk(k, written)
    ensures r.Got? ==> r.coder == c && TokenOk(r.value.token, written) && (r.value.token.End? || ContextOk(r.value.context, written + 1))
  {
    var k' := Context(if k.state < 7 then 7 else 10, d, k.rep0, k.rep1, k.rep2);
    if d == 0 then Got(c, Step(End, k'))
    else if d > written then Bad
    else Got(c, Step(Copy(d, len + 2), k'))
  }

  /** One of the three older distances comes to the front. */
  ghost function OlderStep(input: seq<byte>, c: Coder, k: Context, posState: nat, out: seq<byte>): (r: Result<Step>)
    requires Sound(c, input) && LITERAL <= |c.probs| && posState < 16 && ContextOk(k, |out|)
    ensures StepOk(c, r, input, |out|)
  {
    match Bit(input, c, IS_REP_G1 + k.state)
    case Bad => Bad
    case Got(c1, b1) =>
      if b1 == 0 then RepeatStep(input, c1, k.(rep0 := k.rep1, rep1 := k.rep0), posState, out)
      else match Bit(input, c1, IS_REP_G2 + k.state)
        case Bad => Bad
        case Got(c2, b2) =>
          var k' := if b2 == 0 then Context(k.state, k.rep2, k.rep0, k.rep1, k.rep3)
                    else Context(k.state, k.rep3, k.rep0, k.rep1, k.rep2);
          RepeatStep(input, c2, k', posState, out)
  }

  ghost function RepStep(input: seq<byte>, c: Coder, k: Context, posState: nat, out: seq<byte>): (r: Result<Step>)
    requires Sound(c, input) && LITERAL <= |c.probs| && posState < 16 && ContextOk(k, |out|)
    ensures StepOk(c, r, input, |out|)
  {
    match Bit(input, c, IS_REP_G0 + k.state)
    case Bad => Bad
    case Got(c1, b1) =>
      if b1 == 1 then OlderStep(input, c1, k, posState, out)
      else match Bit(input, c1, IS_REP0_LONG + 16 * k.state + posState)
        case Bad => Bad
        case Got(c2, b2) =>
          if b2 == 1 then RepeatStep(input, c2, k, posState, out)
          else if out == [] then Bad
          else Got(c2, Step(Copy(k.rep0, 1), k.(state := if k.state < 7 then 9 else 11)))
  }

  function PosState(p: Props, pos: nat): nat { pos % Pow2(p.pb) }

  lemma PosStateFits(p: Props, pos: nat)
    requires Proper(p)
    ensures PosState(p, pos) < 16
  {
    assert Pow2(1) == 2 && Pow2(2) == 4 && Pow2(3) == 8 && Pow2(4) == 16;
  }

  /** One round of the main loop: the next symbol of the stream. */
  ghost function Symbol(input: seq<byte>, p: Props, c: Coder, k: Context, out: seq<byte>): (r: Result<Step>)
    requires Ready(input, p, c, k, out)
    ensures StepOk(c, r, input, |out|)
  {
    PosStateFits(p, |out|);
    var posState := PosState(p, |out|);
    match Bit(input, c, IS_MATCH + 16 * k.state + posState)
    case Bad => Bad
    case Got(c1, b) =>
      if b == 0 then LiteralStep(input, p, c1, k, out)
      else match Bit(input, c1, IS_REP + k.state)
        case Bad => Bad
        case Got(c2, rep) =>
          if rep == 0 then MatchStep(input, c2, k, posState, out) else RepStep(input, c2, k, posState, out)
  }
}
