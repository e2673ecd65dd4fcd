/** The decoder undoes the reference encoder: every valid sequence of symbols comes back. */
module LzmaRoundTrip {
  import opened Words
  import opened Lzma
  import opened LzmaOutput
  import opened LzmaEncoder

  // ---- Decoding decisions ----

  ghost function Decide(input: seq<byte>, c: Coder, d: Decision): (r: Result<nat>)
    requires Sound(c, input) && DecisionOk(d, |c.probs|)
    ensures LaterIf(c, r, input)
  {
    if d.Model? then Bit(input, c, d.i) else RawBit(input, c)
  }

  /** The input holds these decisions from here on. */
  ghost function Play(input: seq<byte>, c: Coder, ds: seq<Decision>): (r: Result<()>)
    requires Sound(c, input) && AllOk(ds, |c.probs|)
    ensures LaterIf(c, r, input)
    decreases |ds|
  {
    if ds == [] then Got(c, ())
    else match Decide(input, c, ds[0])
      case Bad => Bad
      case Got(c', b) => if b != ds[0].b then Bad else Play(input, c', ds[1..])
  }

  lemma {:induction false} PlayConcat(input: seq<byte>, c: Coder, xs: seq<Decision>, ys: seq<Decision>)
    requires Sound(c, input) && AllOk(xs, |c.probs|) && AllOk(ys, |c.probs|)
    ensures AllOk(xs + ys, |c.probs|)
    ensures var r := Play(input, c, xs); Play(input, c, xs + ys) == if r.Bad? then Bad else Play(input, r.coder, ys)
    decreases |xs|
  {
    hide Sound;
    if xs == [] {
      assert xs + ys == ys;
    } else {
      assert (xs + ys)[1..] == xs[1..] + ys;
      var r := Decide(input, c, xs[0]);
      if r.Got? && r.value == xs[0].b { PlayConcat(input, r.coder, xs[1..], ys); }
    }
  }

  // ---- The decoder's words against the interval ----

  /** Code is the distance of the number read so far from the start of the interval. */
  ghost predicate Matches(c: Coder, e: Interval, input: seq<byte>) {
    && Contains(e, input) && IntervalOk(e)
    && c == Coder(e.range, Num(input, e.count) - e.low, e.count, e.probs)
  }

  lemma MatchesSound(c: Coder, e: Interval, input: seq<byte>)
    requires Matches(c, e, input)
    ensures Sound(c, input)
  {
  }

  lemma WidenBack(e: Interval, input: seq<byte>)
    requires Contains(Widen(e), input)
    ensures Contains(e, input)
  {
  }

  lemma NarrowBack(e: Interval, d: Decision, input: seq<byte>)
    requires IntervalOk(e) && DecisionOk(d, |e.probs|) && Contains(Narrow(e, d), input)
    ensures Contains(Widen(e), input) && Contains(e, input)
  {
    hide Bound, Num;
    if d.Model? { BoundSplits(Widen(e).range, e.probs[d.i]); }
    WidenBack(e, input);
  }

  lemma WidenNormal(c: Coder, e: Interval, input: seq<byte>)
    requires Matches(c, e, input) && Contains(Widen(e), input)
    ensures Sound(c, input)
    ensures var w := Widen(e); Normalize(input, c) == Got(Coder(w.range, Num(input, w.count) - w.low, w.count, w.probs), ())
  {
    MatchesSound(c, e, input);
    if e.range < TOP { assert c.code * 256 % U32 == c.code * 256; }
  }

  /** A number in the part of the interval for a decision is decoded to that decision. */
  lemma NarrowDecides(c: Coder, e: Interval, d: Decision, input: seq<byte>)
    requires Matches(c, e, input) && DecisionOk(d, |e.probs|) && Contains(Narrow(e, d), input)
    ensures Sound(c, input) && Decide(input, c, d).Got? && Decide(input, c, d).value == d.b
    ensures Matches(Decide(input, c, d).coder, Narrow(e, d), input)
  {
    hide Bound, Num, Normalize;
    NarrowBack(e, d, input);
    WidenNormal(c, e, input);
    if d.Model? { BoundSplits(Widen(e).range, e.probs[d.i]); }
  }

  lemma {:induction false} NarrowedBack(e: Interval, ds: seq<Decision>, input: seq<byte>)
    requires IntervalOk(e) && AllOk(ds, |e.probs|) && Contains(Narrowed(e, ds), input)
    ensures Contains(e, input)
    decreases |ds|
  {
    if ds != [] {
      NarrowedBack(Narrow(e, ds[0]), ds[1..], input);
      NarrowBack(e, ds[0], input);
    }
  }

  /** Range coding round trip: any number in the final interval is decoded to the decisions that led there. */
  lemma {:induction false} NarrowedPlays(c: Coder, e: Interval, ds: seq<Decision>, input: seq<byte>)
    requires Matches(c, e, input) && AllOk(ds, |e.probs|) && Contains(Narrowed(e, ds), input)
    ensures Sound(c, input) && Play(input, c, ds).Got? && Matches(Play(input, c, ds).coder, Narrowed(e, ds), input)
    decreases |ds|
  {
    MatchesSound(c, e, input);
    if ds != [] {
      var e' := Narrow(e, ds[0]);
      NarrowedBack(e', ds[1..], input);
      NarrowDecides(c, e, ds[0], input);
      NarrowedPlays(Decide(input, c, ds[0]).coder, e', ds[1..], input);
    }
  }

  // ---- What the decisions of a symbol are decoded to ----

  ghost predicate Plays(input: seq<byte>, c: Coder, ds: seq<Decision>, c': Coder) {
    Sound(c, input) && AllOk(ds, |c.probs|) && Play(input, c, ds).Got? && Play(input, c, ds).coder == c'
  }

  lemma PlaysFirst(input: seq<byte>, c: Coder, d: Decision, rest: seq<Decision>, c': Coder) returns (c1: Coder)
    requires Plays(input, c, [d] + rest, c')
    ensures DecisionOk(d, |c.probs|) && Sound(c, input) && Decide(input, c, d) == Got(c1, d.b) && Plays(input, c1, rest, c')
    ensures |c1.probs| == |c.probs|
  {
    var ds := [d] + rest;
    assert ds[0] == d && ds[1..] == rest;
    c1 := Decide(input, c, d).coder;
    assert forall k :: 0 <= k < |rest| ==> rest[k] == ds[k + 1];
  }

  lemma PlaysParts(input: seq<byte>, c: Coder, xs: seq<Decision>, ys: seq<Decision>, c': Coder) returns (c1: Coder)
    requires Plays(input, c, xs + ys, c')
    ensures Plays(input, c, xs, c1) && Plays(input, c1, ys, c') && |c1.probs| == |c.probs|
  {
    assert forall k :: 0 <= k < |xs| ==> xs[k] == (xs + ys)[k];
    assert forall k :: 0 <= k < |ys| ==> ys[k] == (xs + ys)[|xs| + k];
    PlayConcat(input, c, xs, ys);
    c1 := Play(input, c, xs).coder;
  }

  lemma LeafReached(size: nat, m: nat, n: nat)
    requires Above(m, n) && size <= m <= n < 2 * size
    ensures m == n
  {
    if m < n { ChildIs(m, n); }
  }

  lemma {:induction false} TreeOf(input: seq<byte>, c: Coder, base: nat, size: nat, m: nat, n: nat, c': Coder)
    requires Sound(c, input) && base + size <= |c.probs| && 1 <= m <= n && size <= n < 2 * size && Above(m, n)
    requires Plays(input, c, PathBits(base, size, m, n), c')
    ensures Tree(input, c, base, size, m) == Got(c', n - size)
    decreases n - m
  {
    hide Sound, Plays, Bit;
    if m >= size {
      LeafReached(size, m, n);
      PlaysNothing(input, c, c');
    } else {
      ChildIs(m, n);
      var ch := Child(m, n);
      var c1 := PlaysFirst(input, c, Model(base + m, ch % 2), PathBits(base, size, ch, n), c');
      PlaysSound(input, c1, PathBits(base, size, ch, n), c');
      TreeOf(input, c1, base, size, ch, n, c');
    }
  }

  lemma PlaysNothing(input: seq<byte>, c: Coder, c': Coder)
    requires Plays(input, c, [], c')
    ensures c' == c
  {
  }

  lemma PlaysSound(input: seq<byte>, c: Coder, ds: seq<Decision>, c': Coder)
    requires Plays(input, c, ds, c')
    ensures Sound(c, input) && |c'.probs| == |c.probs| && Sound(c', input)
  {
  }

  lemma LeafOf(input: seq<byte>, c: Coder, base: nat, size: nat, v: nat, c': Coder)
    requires Sound(c, input) && base + size <= |c.probs| && v < size && Plays(input, c, LeafBits(base, size, v), c')
    ensures Tree(input, c, base, size, 1) == Got(c', v)
  {
    hide Sound, Plays, Tree, PathBits, Above;
    RootAbove(size + v);
    TreeOf(input, c, base, size, 1, size + v, c');
  }

  lemma {:induction false} PlainOf(input: seq<byte>, c: Coder, base: nat, m: nat, n: nat, c': Coder)
    requires Sound(c, input) && base + LZMA_LIT_SIZE <= |c.probs| && 1 <= m <= n && 256 <= n < 512 && Above(m, n)
    requires Plays(input, c, PathBits(base, 256, m, n), c')
    ensures Plain(input, c, base, m) == Got(c', n)
    decreases n - m
  {
    hide Sound, Plays, Bit;
    if m >= 256 {
      LeafReached(256, m, n);
      PlaysNothing(input, c, c');
    } else {
      ChildIs(m, n);
      var ch := Child(m, n);
      var c1 := PlaysFirst(input, c, Model(base + m, ch % 2), PathBits(base, 256, ch, n), c');
      PlaysSound(input, c1, PathBits(base, 256, ch, n), c');
      PlainOf(input, c1, base, ch, n, c');
    }
  }

  lemma {:induction false} MatchedOf(input: seq<byte>, c: Coder, base: nat, m: nat, matchByte: nat, n: nat, c': Coder)
    requires Sound(c, input) && base + LZMA_LIT_SIZE <= |c.probs| && 1 <= m < 256 <= n < 512 && Above(m, n)
    requires Plays(input, c, MatchedBits(base, m, matchByte, n), c')
    ensures Matched(input, c, base, m, matchByte) == Got(c', n)
    decreases n - m
  {
    hide Sound, Plays, Bit;
    ChildIs(m, n);
    var bit, ch := matchByte / 128 % 2, Child(m, n);
    var d := Model(base + 0x100 + 0x100 * bit + m, ch % 2);
    if ch % 2 == bit && ch < 256 {
      var rest := MatchedBits(base, ch, 2 * matchByte, n);
      var c1 := PlaysFirst(input, c, d, rest, c');
      PlaysSound(input, c1, rest, c');
      MatchedOf(input, c1, base, ch, 2 * matchByte, n, c');
    } else {
      var rest := PathBits(base, 256, ch, n);
      var c1 := PlaysFirst(input, c, d, rest, c');
      PlaysSound(input, c1, rest, c');
      PlainOf(input, c1, base, ch, n, c');
    }
  }

  lemma {:induction false} ReverseOf(input: seq<byte>, c: Coder, first: nat, levels: nat, m: nat, weight: nat, v: nat, c': Coder)
    requires Sound(c, input) && weight <= m < 2 * weight && first + Shl(weight, levels) <= |c.probs| + 1
    requires v < Shl(1, levels) && Plays(input, c, ReverseBits(first, levels, m, v), c')
    ensures Reverse(input, c, first, levels, m, weight) == Got(c', weight * v)
    decreases levels
  {
    hide Sound, Plays, Bit, Shl;
    ShlStep(weight, levels);
    ShlStep(1, levels);
    if levels == 0 {
      PlaysNothing(input, c, c');
    } else {
      var rest := ReverseBits(first, levels - 1, 2 * m + v % 2, v / 2);
      var c1 := PlaysFirst(input, c, Model(first + m - 1, v % 2), rest, c');
      PlaysSound(input, c1, rest, c');
      ShlDouble(1, levels - 1);
      ReverseOf(input, c1, first, levels - 1, 2 * m + v % 2, 2 * weight, v / 2, c');
      Weighted(weight, v);
    }
  }

  lemma ShlStep(x: nat, n: nat)
    ensures Shl(x, n) == if n == 0 then x else Shl(2 * x, n - 1)
  {
  }

  lemma Weighted(weight: nat, v: nat)
    ensures weight * v == 2 * weight * (v / 2) + if v % 2 == 0 then 0 else weight
  {
    var q := v / 2;
    if v % 2 == 0 { assert v == 2 * q; assert weight * (2 * q) == 2 * weight * q; }
    else { assert v == 2 * q + 1; assert weight * (2 * q + 1) == 2 * weight * q + weight; }
  }

  lemma {:induction false} HalvesLast(t: nat, n: nat)
    ensures Halves(t, n + 1) == Halves(t, n) / 2
    decreases n
  {
    if n > 0 { HalvesLast(t / 2, n - 1); }
  }

  lemma {:induction false} DirectOf(input: seq<byte>, c: Coder, n: nat, v: nat, w: nat, t: nat, c': Coder)
    requires Sound(c, input) && v < w && Halves(t, n) == v && Plays(input, c, DirectBits(n, t), c')
    ensures Direct(input, c, n, v, w) == Got(c', t)
    decreases n
  {
    hide Sound, Plays, RawBit;
    if n == 0 {
      PlaysNothing(input, c, c');
    } else {
      HalvesLast(t, n - 1);
      var b := Halves(t, n - 1) % 2;
      var c1 := PlaysFirst(input, c, Raw(b), DirectBits(n - 1, t), c');
      PlaysSound(input, c1, DirectBits(n - 1, t), c');
      DirectOf(input, c1, n - 1, 2 * v + b, 2 * w, t, c');
    }
  }

  lemma LengthOf(input: seq<byte>, c: Coder, base: nat, posState: nat, len: nat, c': Coder)
    requires Sound(c, input) && base + NUM_LEN_PROBS <= |c.probs| && posState < 16 && len < 272
    requires Plays(input, c, LengthBits(base, posState, len), c')
    ensures Length(input, c, base, posState) == Got(c', len)
  {
    hide Sound, Plays, Bit, Tree, LeafBits;
    if len < 8 {
      var rest := LeafBits(base + LEN_LOW + 8 * posState, 8, len);
      var c1 := PlaysFirst(input, c, Model(base, 0), rest, c');
      PlaysSound(input, c1, rest, c');
      LeafOf(input, c1, base + LEN_LOW + 8 * posState, 8, len, c');
    } else {
      var low := len < 16;
      var rest := if low then LeafBits(base + LEN_MID + 8 * posState, 8, len - 8) else LeafBits(base + LEN_HIGH, 256, len - 16);
      var d1, d2 := Model(base, 1), Model(base + 1, if low then 0 else 1);
      assert [d1, d2] + rest == [d1] + ([d2] + rest);
      var c1 := PlaysFirst(input, c, d1, [d2] + rest, c');
      var c2 := PlaysFirst(input, c1, d2, rest, c');
      PlaysSound(input, c2, rest, c');
      if low { LeafOf(input, c2, base + LEN_MID + 8 * posState, 8, len - 8, c'); }
      else { LeafOf(input, c2, base + LEN_HIGH, 256, len - 16, c'); }
    }
  }

  lemma {:induction false} HalvesToLead(x: nat)
    requires x >= 4
    ensures Halves(x, Rest(x)) == Lead(x)
  {
    if x >= 8 { HalvesToLead(x / 2); }
  }

  lemma FarOf(input: seq<byte>, c: Coder, x: nat, c': Coder)
    requires Sound(c, input) && LITERAL <= |c.probs| && 4 <= x < U32 && Plays(input, c, FarBits(x), c')
    ensures SlotOf(x) < 64 && 4 <= SlotOf(x) && FarDistance(input, c, SlotOf(x)) == Got(c', (x + 1) % U32)
  {
    SlotOfFits(x);
    if SlotOf(x) < 14 { NearOf(input, c, x, c'); } else { DeepOf(input, c, x, c'); }
  }

  lemma NearOf(input: seq<byte>, c: Coder, x: nat, c': Coder)
    requires Sound(c, input) && LITERAL <= |c.probs| && 4 <= x < U32 && Plays(input, c, FarBits(x), c')
    requires 4 <= SlotOf(x) < 14
    ensures FarDistance(input, c, SlotOf(x)) == Got(c', (x + 1) % U32)
  {
    hide Sound, Plays, Reverse, Shl, ReverseBits, SlotOf, Lead, Rest;
    SlotOfFits(x);
    LeadAndRest(x);
    var slot, v := SlotOf(x), Shl(Lead(x), Rest(x));
    SlotFits(slot);
    ReverseOf(input, c, SPEC_POS + v - slot, Rest(x), 1, 1, x - v, c');
  }

  lemma DeepOf(input: seq<byte>, c: Coder, x: nat, c': Coder)
    requires Sound(c, input) && LITERAL <= |c.probs| && 4 <= x < U32 && Plays(input, c, FarBits(x), c')
    requires 14 <= SlotOf(x) < 64
    ensures FarDistance(input, c, SlotOf(x)) == Got(c', (x + 1) % U32)
  {
    hide Sound, Plays, Reverse, Direct, Shl, ReverseBits, DirectBits, SlotOf, Lead, Rest, Halves;
    SlotOfFits(x);
    var slot := SlotOf(x);
    DirectFits(slot);
    var c1 := PlaysParts(input, c, DirectBits(Rest(x) - 4, x / 16), ReverseBits(ALIGN + 1, 4, 1, x % 16), c');
    PlaysSound(input, c1, ReverseBits(ALIGN + 1, 4, 1, x % 16), c');
    SixteenthLead(x);
    DirectOf(input, c, slot / 2 - 5, 2 + slot % 2, 2 + slot % 2 + 1, x / 16, c1);
    ShlOf4();
    ReverseOf(input, c1, ALIGN + 1, 4, 1, 1, x % 16, c');
  }

  lemma SixteenthLead(x: nat)
    requires x >= 4 && Rest(x) >= 4
    ensures Halves(x / 16, Rest(x) - 4) == Lead(x)
  {
    hide Halves, Rest, Lead;
    HalvesToLead(x);
    HalvesTwo(x, Rest(x) - 2);
    HalvesTwo(x / 4, Rest(x) - 4);
    assert x / 4 / 4 == x / 16;
  }

  lemma HalvesTwo(x: nat, n: nat)
    ensures Halves(x, n + 2) == Halves(x / 4, n)
  {
    assert Halves(x, n + 2) == Halves(x / 2, n + 1) == Halves(x / 2 / 2, n);
    assert x / 2 / 2 == x / 4;
  }

  lemma DistanceOf(input: seq<byte>, c: Coder, len: nat, x: nat, c': Coder)
    requires Sound(c, input) && LITERAL <= |c.probs| && x < U32 && Plays(input, c, DistanceBits(len, x), c')
    ensures Distance(input, c, len) == Got(c', (x + 1) % U32)
  {
    hide Sound, Plays, Tree, LeafBits, FarBits, FarDistance, SlotOf;
    SlotOfFits(x);
    var base := POS_SLOT + 64 * (if len < 4 then len else 3);
    var far := if x < 4 then [] else FarBits(x);
    var c1 := PlaysParts(input, c, LeafBits(base, 64, SlotOf(x)), far, c');
    PlaysSound(input, c1, far, c');
    LeafOf(input, c, base, 64, SlotOf(x), c1);
    if x < 4 { SmallSlot(x); PlaysNothing(input, c1, c'); } else { FarOf(input, c1, x, c'); }
  }

  lemma SmallSlot(x: nat)
    requires x < 4
    ensures SlotOf(x) == x
  {
  }

  // ---- Symbols ----

  lemma LiteralOf(input: seq<byte>, p: Props, c: Coder, k: Context, out: seq<byte>, b: byte, c': Coder)
    requires Ready(input, p, c, k, out) && Plays(input, c, LiteralBits(p, k, out, b), c')
    ensures LiteralStep(input, p, c, k, out) == Got(c', Step(Byte(b), ContextAfter(Sym.Literal(b), k)))
  {
    hide Sound, Plays, Plain, Matched, LitBase, NumProbs, PathBits, MatchedBits;
    var base := LitBase(p, |out|, Last(out));
    LitBaseFits(p, |out|, Last(out));
    RootAbove(256 + b);
    if k.state >= 7 { MatchedOf(input, c, base, 1, out[|out| - k.rep0], 256 + b, c'); }
    else { PlainOf(input, c, base, 1, 256 + b, c'); }
  }

  /** A match at a new distance, or the end marker for x = 2^32 - 1. */
  lemma MatchOf(input: seq<byte>, c: Coder, k: Context, posState: nat, out: seq<byte>, len: nat, x: nat, c': Coder)
    requires Sound(c, input) && LITERAL <= |c.probs| && posState < 16 && ContextOk(k, |out|) && len < 272 && x < U32
    requires x < |out| || x == U32 - 1
    requires Plays(input, c, LengthBits(LEN_CODER, posState, len) + DistanceBits(len, x), c')
    ensures MatchStep(input, c, k, posState, out) == NewMatch(c', k, (x + 1) % U32, len, |out|)
  {
    hide Sound, Plays, Length, Distance, LengthBits, DistanceBits;
    var c1 := PlaysParts(input, c, LengthBits(LEN_CODER, posState, len), DistanceBits(len, x), c');
    PlaysSound(input, c1, DistanceBits(len, x), c');
    LengthOf(input, c, LEN_CODER, posState, len, c1);
    DistanceOf(input, c1, len, x, c');
  }

  lemma RepeatOf(input: seq<byte>, c: Coder, k: Context, posState: nat, out: seq<byte>, len: nat, c': Coder)
    requires Sound(c, input) && LITERAL <= |c.probs| && posState < 16 && ContextOk(k, |out|) && len < 272 && k.rep0 <= |out|
    requires Plays(input, c, LengthBits(REP_LEN_CODER, posState, len), c')
    ensures RepeatStep(input, c, k, posState, out) == Got(c', Step(Copy(k.rep0, len + 2), k.(state := if k.state < 7 then 8 else 11)))
  {
    hide Sound, Plays, Length, LengthBits;
    LengthOf(input, c, REP_LEN_CODER, posState, len, c');
  }

  /** The three older distances. */
  lemma OlderOf(input: seq<byte>, c: Coder, k: Context, posState: nat, out: seq<byte>, j: nat, len: nat, c': Coder)
    requires Sound(c, input) && LITERAL <= |c.probs| && posState < 16 && ContextOk(k, |out|) && len < 272
    requires 1 <= j < 4 && RepAt(k, j) <= |out|
    requires Plays(input, c, OlderBits(k, j) + LengthBits(REP_LEN_CODER, posState, len), c')
    ensures OlderStep(input, c, k, posState, out) == Got(c', Step(Copy(RepAt(k, j), len + 2), ContextAfter(Rep(j, len + 2), k)))
  {
    hide Sound, Plays, Bit, LengthBits, RepeatStep;
    var bits := LengthBits(REP_LEN_CODER, posState, len);
    var d1 := Model(IS_REP_G1 + k.state, if j == 1 then 0 else 1);
    if j == 1 {
      var c1 := PlaysFirst(input, c, d1, bits, c');
      PlaysSound(input, c1, bits, c');
      RepeatOf(input, c1, k.(rep0 := k.rep1, rep1 := k.rep0), posState, out, len, c');
    } else {
      var d2 := Model(IS_REP_G2 + k.state, j - 2);
      assert OlderBits(k, j) + bits == [d1] + ([d2] + bits);
      var c1 := PlaysFirst(input, c, d1, [d2] + bits, c');
      var c2 := PlaysFirst(input, c1, d2, bits, c');
      PlaysSound(input, c2, bits, c');
      var k' := if j == 2 then Context(k.state, k.rep2, k.rep0, k.rep1, k.rep3) else Context(k.state, k.rep3, k.rep0, k.rep1, k.rep2);
      RepeatOf(input, c2, k', posState, out, len, c');
    }
  }

  lemma RepOf(input: seq<byte>, c: Coder, k: Context, posState: nat, out: seq<byte>, s: Sym, c': Coder)
    requires Sound(c, input) && LITERAL <= |c.probs| && posState < 16 && ContextOk(k, |out|) && SymOk(s, k, |out|)
    requires s.Rep? || s.ShortRep?
    requires Plays(input, c, RepBits(k, posState, s) + (if s.Rep? then LengthBits(REP_LEN_CODER, posState, s.length - 2) else []), c')
    ensures RepStep(input, c, k, posState, out) == Got(c', Step(TokenOf(s, k), ContextAfter(s, k)))
  {
    hide Sound, Plays, Bit, LengthBits, RepeatStep, OlderStep;
    var bits := if s.Rep? then LengthBits(REP_LEN_CODER, posState, s.length - 2) else [];
    if s.Rep? && s.j > 0 {
      var d := Model(IS_REP_G0 + k.state, 1);
      assert RepBits(k, posState, s) + bits == [d] + (OlderBits(k, s.j) + bits);
      var c1 := PlaysFirst(input, c, d, OlderBits(k, s.j) + bits, c');
      PlaysSound(input, c1, OlderBits(k, s.j) + bits, c');
      OlderOf(input, c1, k, posState, out, s.j, s.length - 2, c');
    } else {
      var d1, d2 := Model(IS_REP_G0 + k.state, 0), Model(IS_REP0_LONG + 16 * k.state + posState, if s.Rep? then 1 else 0);
      assert RepBits(k, posState, s) + bits == [d1] + ([d2] + bits);
      var c1 := PlaysFirst(input, c, d1, [d2] + bits, c');
      var c2 := PlaysFirst(input, c1, d2, bits, c');
      PlaysSound(input, c2, bits, c');
      if s.Rep? { RepeatOf(input, c2, k, posState, out, s.length - 2, c'); } else { PlaysNothing(input, c2, c'); }
    }
  }

  lemma SymbolOf(input: seq<byte>, p: Props, c: Coder, k: Context, out: seq<byte>, s: Sym, c': Coder)
    requires Ready(input, p, c, k, out) && SymOk(s, k, |out|) && Plays(input, c, SymBits(p, k, out, s), c')
    ensures Symbol(input, p, c, k, out) == Got(c', Step(TokenOf(s, k), ContextAfter(s, k)))
  {
    hide Sound, Plays, Bit, LiteralStep, MatchStep, RepStep, PosState, Pow2, LengthBits, DistanceBits, LiteralBits, RepBits, OlderBits, RepAt;
    PosStateFits(p, |out|);
    var posState := PosState(p, |out|);
    var isMatch, isRep := IS_MATCH + 16 * k.state + posState, IS_REP + k.state;
    if s.Literal? {
      var bits := LiteralBits(p, k, out, s.b);
      var c1 := PlaysFirst(input, c, Model(isMatch, 0), bits, c');
      PlaysSound(input, c1, bits, c');
      LiteralOf(input, p, c1, k, out, s.b, c');
    } else {
      var rep := s.Rep? || s.ShortRep?;
      var d1, d2 := Model(isMatch, 1), Model(isRep, if rep then 1 else 0);
      var rest := AfterIsRep(k, posState, s);
      assert SymBits(p, k, out, s) == [d1] + ([d2] + rest);
      var c1 := PlaysFirst(input, c, d1, [d2] + rest, c');
      var c2 := PlaysFirst(input, c1, d2, rest, c');
      PlaysSound(input, c2, rest, c');
      if rep { RepOf(input, c2, k, posState, out, s, c'); }
      else if s.Match? { MatchOf(input, c2, k, posState, out, s.length - 2, s.distance - 1, c'); }
      else { MatchOf(input, c2, k, posState, out, 0, U32 - 1, c'); }
    }
  }

  /** The decisions after the first two. */
  ghost function AfterIsRep(k: Context, posState: nat, s: Sym): seq<Decision>
    requires posState < 16 && !s.Literal? && (s.Match? ==> 1 <= s.distance < U32 && 2 <= s.length <= 273)
    requires s.Rep? ==> s.j < 4 && 2 <= s.length <= 273
  {
    if s.Match? then LengthBits(LEN_CODER, posState, s.length - 2) + DistanceBits(s.length - 2, s.distance - 1)
    else if s.EndMark? then LengthBits(LEN_CODER, posState, 0) + DistanceBits(0, U32 - 1)
    else RepBits(k, posState, s) + (if s.Rep? then LengthBits(REP_LEN_CODER, posState, s.length - 2) else [])
  }

  // ---- Streams ----

  /** The main loop decodes a stream to its symbols. */
  lemma {:induction false} DecodeOf(input: seq<byte>, p: Props, c: Coder, k: Context, out: seq<byte>, syms: seq<Sym>, limit: nat, c': Coder)
    requires Ready(input, p, c, k, out) && |out| <= limit && StreamOk(k, out, syms, limit)
    requires Plays(input, c, StreamBits(p, k, out, syms, limit), c') && Sound(c', input) && Normalize(input, c').Got?
    ensures var r := Decode(input, p, c, k, out, limit); r.Got? && r.value.tokens == Tokens(k, syms)
    decreases |syms|
  {
    hide Sound, Plays, Symbol, SymBits, Normalize, Emit;
    if syms == [] {
      PlaysNothing(input, c, c');
    } else if syms[0].EndMark? {
      SymbolOf(input, p, c, k, out, syms[0], c');
      assert syms[1..] == [];
    } else {
      ContextAfterOk(syms[0], k, |out|);
      var k', out' := ContextAfter(syms[0], k), Emit(out, TokenOf(syms[0], k), limit);
      var rest := StreamBits(p, k', out', syms[1..], limit);
      var c1 := PlaysParts(input, c, SymBits(p, k, out, syms[0]), rest, c');
      PlaysSound(input, c1, rest, c');
      SymbolOf(input, p, c, k, out, syms[0], c1);
      DecodeOf(input, p, c1, k', out', syms[1..], limit, c');
    }
  }

  /** Every number in the final interval, as the input, is decoded to the symbols that led there. */
  lemma AnyNumberInside(input: seq<byte>, p: Props, syms: seq<Sym>, limit: nat)
    requires Proper(p) && StreamOk(FIRST, [], syms, limit) && AllOk(StreamBits(p, FIRST, [], syms, limit), NumProbs(p))
    requires IntervalOk(Whole(p)) && Contains(Narrowed(Whole(p), StreamBits(p, FIRST, [], syms, limit)), input)
    requires |input| > Narrowed(Whole(p), StreamBits(p, FIRST, [], syms, limit)).count
    ensures var r := DecodeAll(input, p, limit); r.Got? && r.value.tokens == Tokens(FIRST, syms)
  {
    hide StreamBits, NumProbs, Narrowed, StreamOk;
    var ds := StreamBits(p, FIRST, [], syms, limit);
    NarrowedBack(Whole(p), ds, input);
    StartMatches(input, p);
    var c := Start(input, p).coder;
    NarrowedPlays(c, Whole(p), ds, input);
    DecodeOf(input, p, c, FIRST, [], syms, limit, Play(input, c, ds).coder);
  }

  /** RC_INIT shifts the first byte out, which is 0. */
  lemma StartMatches(input: seq<byte>, p: Props)
    requires Contains(Whole(p), input) && IntervalOk(Whole(p))
    ensures Start(input, p).Got? && Matches(Start(input, p).coder, Whole(p), input)
  {
    assert Num(input, 5) == 0x1_0000_0000 * input[0] + BigEndian(input[1], input[2], input[3], input[4]) by { FiveBytes(input); }
  }

  lemma FiveBytes(input: seq<byte>)
    requires |input| >= 5
    ensures Num(input, 5) == 0x1_0000_0000 * input[0] + BigEndian(input[1], input[2], input[3], input[4])
  {
    var a: nat, b: nat, c: nat, d: nat := input[0], input[1], input[2], input[3];
    assert Num(input, 1) == a;
    assert Num(input, 2) == 256 * a + b;
    assert Num(input, 3) == 256 * (256 * a + b) + c;
    assert Num(input, 4) == 256 * (256 * (256 * a + b) + c) + d;
  }

  // ---- The encoded stream ----

  /** The number of values of `n` bytes. */
  ghost function Cap(n: nat): nat { if n == 0 then 1 else 256 * Cap(n - 1) }

  lemma NarrowCap(e: Interval, d: Decision)
    requires IntervalOk(e) && DecisionOk(d, |e.probs|) && e.low + e.range <= Cap(e.count)
    ensures var r := Narrow(e, d); r.low + r.range <= Cap(r.count) && r.count >= e.count
  {
    if d.Model? { BoundSplits(Widen(e).range, e.probs[d.i]); }
  }

  lemma {:induction false} NarrowedCap(e: Interval, ds: seq<Decision>)
    requires IntervalOk(e) && AllOk(ds, |e.probs|) && e.low + e.range <= Cap(e.count)
    ensures var r := Narrowed(e, ds); r.low + r.range <= Cap(r.count) && r.count >= e.count
    decreases |ds|
  {
    if ds != [] {
      NarrowCap(e, ds[0]);
      NarrowedCap(Narrow(e, ds[0]), ds[1..]);
    }
  }

  lemma {:induction false} NumPrefix(a: seq<byte>, b: seq<byte>, n: nat)
    requires n <= |a| && n <= |b| && forall i :: 0 <= i < n ==> a[i] == b[i]
    ensures Num(a, n) == Num(b, n)
  {
    if n > 0 { NumPrefix(a, b, n - 1); }
  }

  lemma {:induction false} NumOfBytes(x: nat, n: nat)
    requires x < Cap(n)
    ensures Num(Bytes(x, n), n) == x
  {
    if n > 0 {
      NumOfBytes(x / 256, n - 1);
      NumPrefix(Bytes(x, n), Bytes(x / 256, n - 1), n - 1);
    }
  }

  /** The start of the final interval, and one byte for the decoder's last normalisation. */
  ghost function Encoded(p: Props, syms: seq<Sym>, limit: nat): seq<byte>
    requires Proper(p) && StreamOk(FIRST, [], syms, limit)
  {
    StreamBitsOk(p, FIRST, [], syms, limit);
    WholeOk(p);
    var e := Narrowed(Whole(p), StreamBits(p, FIRST, [], syms, limit));
    Bytes(e.low, e.count) + [0]
  }

  lemma WholeOk(p: Props)
    ensures IntervalOk(Whole(p)) && |Whole(p).probs| == NumProbs(p) && Whole(p).range <= Cap(5)
  {
    hide NumProbs;
    assert Cap(1) == 256 && Cap(2) == 0x1_0000 && Cap(3) == 0x100_0000 && Cap(4) == U32;
  }

  /** Encoding and decoding: every valid sequence of symbols comes back, and with it the bytes it stands for. */
  lemma RoundTrip(p: Props, syms: seq<Sym>, limit: nat)
    requires Proper(p) && StreamOk(FIRST, [], syms, limit)
    ensures var r := DecodeAll(Encoded(p, syms, limit), p, limit);
      && r.Got? && r.value.tokens == Tokens(FIRST, syms)
      && Playable([], Tokens(FIRST, syms), limit) && r.value.bytes == Replay([], Tokens(FIRST, syms), limit)
  {
    hide StreamBits, StreamOk, NumProbs, Narrowed, Bytes;
    StreamBitsOk(p, FIRST, [], syms, limit);
    WholeOk(p);
    var ds := StreamBits(p, FIRST, [], syms, limit);
    NarrowedCap(Whole(p), ds);
    var e, input := Narrowed(Whole(p), ds), Encoded(p, syms, limit);
    NumOfBytes(e.low, e.count);
    NumPrefix(Bytes(e.low, e.count), input, e.count);
    AnyNumberInside(input, p, syms, limit);
    DecodeReplays(input, p, Start(input, p).coder, FIRST, [], limit);
  }

  ghost function Literals(data: seq<byte>, n: nat): seq<Sym>
    requires n <= |data|
    decreases |data| - n
  {
    if n == |data| then [] else [Sym.Literal(data[n])] + Literals(data, n + 1)
  }

  lemma {:induction false} LiteralsGive(k: Context, data: seq<byte>, n: nat)
    requires n <= |data| && ContextOk(k, n)
    ensures StreamOk(k, data[..n], Literals(data, n), |data|)
    ensures var ts := Tokens(k, Literals(data, n)); Playable(data[..n], ts, |data|) && Replay(data[..n], ts, |data|) == data
    decreases |data| - n
  {
    if n == |data| {
      assert data[..n] == data;
    } else {
      var s, out := Sym.Literal(data[n]), data[..n];
      ContextAfterOk(s, k, n);
      assert Literals(data, n)[1..] == Literals(data, n + 1);
      assert Emit(out, TokenOf(s, k), |data|) == data[..n + 1];
      LiteralsGive(ContextAfter(s, k), data, n + 1);
      assert Tokens(k, Literals(data, n))[1..] == Tokens(ContextAfter(s, k), Literals(data, n + 1));
    }
  }

  /** Every byte sequence is the output of some input, for all properties. */
  lemma EveryOutput(p: Props, data: seq<byte>)
    requires Proper(p)
    ensures StreamOk(FIRST, [], Literals(data, 0), |data|)
    ensures var r := DecodeAll(Encoded(p, Literals(data, 0), |data|), p, |data|); r.Got? && r.value.bytes == data
  {
    hide Encoded, DecodeAll, StreamOk, Replay, Tokens;
    assert data[..0] == [];
    LiteralsGive(FIRST, data, 0);
    RoundTrip(p, Literals(data, 0), |data|);
  }
}
