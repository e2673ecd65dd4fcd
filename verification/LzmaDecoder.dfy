/** The decoder in its own form: the coder's words, the table and the output buffer updated in place. */
module LzmaDecoder {
  import opened Words
  import opened Lzma
  import opened LzmaOutput
  import opened LzmaStream

  const LZMA_RESULT_OK := 0
  const LZMA_RESULT_DATA_ERROR := 1

  /** LzmaDecodeProperties: the one way to write the first byte as (pb * 5 + lp) * 9 + lc. */
  method DecodeProperties(data: seq<byte>) returns (ret: int, props: Props)
    ensures ret == LZMA_RESULT_OK <==> |data| >= 5 && data[0] < 225
    ensures ret == LZMA_RESULT_OK || ret == LZMA_RESULT_DATA_ERROR
    ensures ret == LZMA_RESULT_OK ==> Proper(props) && data[0] == (props.pb * 5 + props.lp) * 9 + props.lc
  {
    props := Props(0, 0, 0);
    if |data| < 5 { return LZMA_RESULT_DATA_ERROR, props; }
    var prop0: nat := data[0];
    if prop0 >= 9 * 5 * 5 { return LZMA_RESULT_DATA_ERROR, props; }
    var pb, lp := 0, 0;
    while prop0 >= 9 * 5
      invariant data[0] == pb * 45 + prop0
    {
      pb, prop0 := pb + 1, prop0 - 45;
    }
    while prop0 >= 9
      invariant data[0] == pb * 45 + lp * 9 + prop0
    {
      lp, prop0 := lp + 1, prop0 - 9;
    }
    return LZMA_RESULT_OK, Props(prop0, lp, pb);
  }

  /** A step that went through left the coder in the state of the result; one that did not ran into a data error. */
  ghost predicate Reached<T(!new)>(ok: bool, r: Result<T>, now: Coder, v: T) {
    ok == r.Got? && (ok ==> r == Got(now, v))
  }

  /** One more bit of a reverse tree, with `v` collected so far. */
  lemma ReverseNext(input: seq<byte>, c: Coder, first: nat, i: nat, m: nat, weight: nat, v: nat)
    requires Sound(c, input) && weight <= m < 2 * weight && first + Shl(weight, i + 1) <= |c.probs| + 1
    ensures Shl(weight, i + 1) == Shl(2 * weight, i) && first + m - 1 < |c.probs|
    ensures var r := Lzma.Bit(input, c, first + m - 1);
      Plus(Lzma.Reverse(input, c, first, i + 1, m, weight), v) ==
        if r.Bad? then Bad
        else Plus(Lzma.Reverse(input, r.coder, first, i, 2 * m + r.value, 2 * weight), if r.value == 1 then v + weight else v)
  {
    hide Lzma.Bit, Sound;
  }

  lemma ReverseEnd(input: seq<byte>, c: Coder, first: nat, m: nat, weight: nat)
    requires Sound(c, input) && weight <= m < 2 * weight && first + Shl(weight, 0) <= |c.probs| + 1
    ensures Lzma.Reverse(input, c, first, 0, m, weight) == Got(c, 0)
  {
  }

  /** One more direct bit. */
  lemma DirectNext(input: seq<byte>, c: Coder, i: nat, v: nat, w: nat)
    requires Sound(c, input) && v < w
    ensures var r := Lzma.Normalize(input, c);
      if r.Bad? then Lzma.Direct(input, c, i + 1, v, w) == Bad
      else
        var half := r.coder.range / 2;
        var d := if r.coder.code >= half then r.coder.(range := half, code := r.coder.code - half) else r.coder.(range := half);
        && Sound(d, input)
        && Lzma.Direct(input, c, i + 1, v, w) == Lzma.Direct(input, d, i, if r.coder.code >= half then 2 * v + 1 else 2 * v, 2 * w)
  {
    hide Lzma.Normalize;
  }

  lemma DirectEnd(input: seq<byte>, c: Coder, v: nat, w: nat)
    requires Sound(c, input) && v < w
    ensures Lzma.Direct(input, c, 0, v, w) == Got(c, v)
  {
  }

  class Decoder {
    const input: seq<byte>
    const probs: array<nat>
    const n: nat
    var range: nat
    var code: nat
    var at: nat

    ghost predicate Valid()
      reads this, probs
    {
      n <= probs.Length && Sound(Model(), input)
    }

    ghost function Model(): Coder
      requires n <= probs.Length
      reads this, probs
    {
      Coder(range, code, at, probs[..n])
    }

    constructor (input: seq<byte>, probs: array<nat>, n: nat, code: nat)
      requires n <= probs.Length && 5 <= |input| && code < U32 && forall i :: 0 <= i < n ==> probs[i] == 1024
      ensures this.input == input && this.probs == probs && this.n == n
      ensures Valid() && Model() == Coder(U32 - 1, code, 5, seq(n, _ => 1024))
    {
      this.input, this.probs, this.n := input, probs, n;
      range, this.code, at := U32 - 1, code, 5;
      new;
      assert probs[..n] == seq(n, _ => 1024);
    }

    /** RC_NORMALIZE */
    method Normalize() returns (ok: bool)
      requires Valid()
      modifies this
      ensures n <= probs.Length && (ok ==> Valid()) && Reached(ok, Lzma.Normalize(input, old(Model())), Model(), ())
    {
      if range < TOP {
        if at == |input| { return false; }
        range := range * 256;
        code := code * 256 % U32 + input[at];
        at := at + 1;
      }
      ok := true;
    }

    /** IfBit0, UpdateBit0 and UpdateBit1 */
    method Bit(i: nat) returns (ok: bool, b: nat)
      requires Valid() && i < n
      modifies this, probs
      ensures n <= probs.Length && (ok ==> Valid()) && Reached(ok, Lzma.Bit(input, old(Model()), i), Model(), b)
    {
      b := 0;
      ok := Normalize();
      if !ok { return; }
      ghost var before := probs[..n];
      assert before[i] == probs[i] && ProbOk(probs[i]);
      BoundSplits(range, probs[i]);
      ProbsStay(probs[i]);
      var bound := range / MODEL_TOTAL * probs[i];
      if code < bound {
        range := bound;
        probs[i] := probs[i] + (MODEL_TOTAL - probs[i]) / 32;
        assert probs[..n] == before[i := Up(before[i])];
      } else {
        range := range - bound;
        code := code - bound;
        probs[i] := probs[i] - probs[i] / 32;
        assert probs[..n] == before[i := Down(before[i])];
        b := 1;
      }
    }

    /** RangeDecoderBitTreeDecode */
    method Tree(base: nat, levels: nat, size: nat) returns (ok: bool, v: nat)
      requires Valid() && base + size <= n && Shl(1, levels) == size
      modifies this, probs
      ensures n <= probs.Length && (ok ==> Valid()) && Reached(ok, Lzma.Tree(input, old(Model()), base, size, 1), Model(), v)
    {
      hide Lzma.Bit, Sound;
      v := 1;
      ghost var w: nat := 1;
      for i: nat := levels downto 0
        invariant n <= probs.Length && Valid() && Shl(w, i) == size && w <= v < 2 * w
        invariant v < 2 * size
        invariant Lzma.Tree(input, old(Model()), base, size, 1) == Lzma.Tree(input, Model(), base, size, v)
      {
        var b;
        ok, b := Bit(base + v);
        if !ok { return; }
        v := 2 * v + b;
        w := 2 * w;
      }
      v := v - size;
      ok := true;
    }

    /** The low bits of a distance, from the lowest up; `first` is where node 1 is. */
    method Reverse(first: nat, levels: nat) returns (ok: bool, v: nat)
      requires Valid() && first + Shl(1, levels) <= n + 1
      modifies this, probs
      ensures n <= probs.Length && (ok ==> Valid()) && Reached(ok, Lzma.Reverse(input, old(Model()), first, levels, 1, 1), Model(), v)
    {
      hide Lzma.Bit, Lzma.Reverse, Sound, Shl;
      var m: nat, weight: nat := 1, 1;
      v := 0;
      for i: nat := levels downto 0
        invariant n <= probs.Length && Valid() && weight <= m < 2 * weight && Shl(weight, i) == Shl(1, levels)
        invariant Lzma.Reverse(input, old(Model()), first, levels, 1, 1) == Plus(Lzma.Reverse(input, Model(), first, i, m, weight), v)
      {
        ReverseNext(input, Model(), first, i, m, weight, v);
        var b;
        ok, b := Bit(first + m - 1);
        if !ok { return; }
        if b == 1 { v := v + weight; }
        m, weight := 2 * m + b, 2 * weight;
      }
      ReverseEnd(input, Model(), first, m, weight);
      ok := true;
    }

    /** Bits of fixed probability below those of `v0`. */
    method Direct(bits: nat, v0: nat, ghost w0: nat) returns (ok: bool, v: nat)
      requires Valid() && v0 < w0
      modifies this
      ensures n <= probs.Length && (ok ==> Valid()) && Reached(ok, Lzma.Direct(input, old(Model()), bits, v0, w0), Model(), v)
    {
      hide Lzma.Normalize, Lzma.Direct, Sound;
      v := v0;
      ghost var w := w0;
      for i: nat := bits downto 0
        invariant n <= probs.Length && Valid() && v < w && probs[..n] == old(probs[..n])
        invariant Lzma.Direct(input, old(Model()), bits, v0, w0) == Lzma.Direct(input, Model(), i, v, w)
      {
        DirectNext(input, Model(), i, v, w);
        ok := Normalize();
        if !ok { return; }
        range := range / 2;
        v := 2 * v;
        if code >= range {
          code := code - range;
          v := v + 1;
        }
        w := 2 * w;
      }
      DirectEnd(input, Model(), v, w);
      ok := true;
    }

    /** The length coder at `base`. */
    method Length(base: nat, posState: nat) returns (ok: bool, v: nat)
      requires Valid() && base + NUM_LEN_PROBS <= n && posState < 16
      modifies this, probs
      ensures n <= probs.Length && (ok ==> Valid()) && Reached(ok, Lzma.Length(input, old(Model()), base, posState), Model(), v)
    {
      hide Lzma.Bit, Lzma.Tree, Sound, Shl;
      ShlOf4();
      var b;
      v := 0;
      ok, b := Bit(base);
      if !ok { return; }
      if b == 0 {
        ok, v := Tree(base + LEN_LOW + 8 * posState, 3, 8);
        return;
      }
      ok, b := Bit(base + 1);
      if !ok { return; }
      if b == 0 {
        ok, v := Tree(base + LEN_MID + 8 * posState, 3, 8);
        v := v + 8;
      } else {
        ok, v := Tree(base + LEN_HIGH, 8, 256);
        v := v + 16;
      }
    }

    /** The distance of a match, 0 for the end marker. */
    method Distance(len: nat) returns (ok: bool, rep0: nat)
      requires Valid() && LITERAL <= n
      modifies this, probs
      ensures n <= probs.Length && (ok ==> Valid()) && Reached(ok, Lzma.Distance(input, old(Model()), len), Model(), rep0)
    {
      hide Lzma.Tree, Lzma.FarDistance, Sound, Shl;
      ShlOf4();
      ok, rep0 := Tree(POS_SLOT + 64 * (if len < 4 then len else 3), 6, 64);
      if !ok { return; }
      if rep0 >= 4 { ok, rep0 := FarDistance(rep0); } else { rep0 := rep0 + 1; }
    }

    method FarDistance(slot: nat) returns (ok: bool, rep0: nat)
      requires Valid() && LITERAL <= n && 4 <= slot < 64
      modifies this, probs
      ensures n <= probs.Length && (ok ==> Valid()) && Reached(ok, Lzma.FarDistance(input, old(Model()), slot), Model(), rep0)
    {
      hide Lzma.Reverse, Lzma.Direct, Sound, Shl;
      var low;
      if slot < 14 {
        SlotFits(slot);
        rep0 := Shl(2 + slot % 2, slot / 2 - 1);
        ok, low := Reverse(SPEC_POS + rep0 - slot, slot / 2 - 1);
        rep0 := rep0 + low + 1;
      } else {
        DirectFits(slot);
        ok, rep0 := Direct(slot / 2 - 5, 2 + slot % 2, 2 + slot % 2 + 1);
        if !ok { return; }
        ShlOf4();
        ok, low := Reverse(ALIGN + 1, 4);
        rep0 := (16 * rep0 + low + 1) % U32;
      }
    }

    /** A literal with the table at `base`; `matchByte` is the byte at distance rep0 after a match. */
    method Literal(base: nat, matched: bool, matchByte: nat) returns (ok: bool, symbol: nat)
      requires Valid() && base + LZMA_LIT_SIZE <= n
      modifies this, probs
      ensures n <= probs.Length && (ok ==> Valid())
      ensures Reached(ok, if matched then Matched(input, old(Model()), base, 1, matchByte) else Plain(input, old(Model()), base, 1),
                      Model(), symbol)
    {
      hide Lzma.Bit, Sound;
      symbol := 1;
      var b;
      if matched {
        var m := matchByte;
        while true
          invariant n <= probs.Length && Valid() && 1 <= symbol < 256
          invariant Matched(input, old(Model()), base, 1, matchByte) == Matched(input, Model(), base, symbol, m)
          decreases 256 - symbol
        {
          var bit := m / 128 % 2;
          ok, b := Bit(base + 0x100 + 0x100 * bit + symbol);
          if !ok { return; }
          symbol, m := 2 * symbol + b, 2 * m;
          if b != bit || symbol >= 256 { break; }
        }
      }
      ghost var c0, s0 := Model(), symbol;
      while symbol < 256
        invariant n <= probs.Length && Valid() && 1 <= symbol < 512
        invariant Plain(input, c0, base, s0) == Plain(input, Model(), base, symbol)
        decreases 512 - symbol
      {
        ok, b := Bit(base + symbol);
        if !ok { return; }
        symbol := 2 * symbol + b;
      }
      ok := true;
    }

    method LiteralStep(p: Props, k: Context, out: array<byte>, nowPos: nat, previousByte: byte) returns (ok: bool, step: Step)
      requires Valid() && n == NumProbs(p) && Proper(p) && nowPos <= out.Length && ContextOk(k, nowPos)
      requires previousByte == Last(out[..nowPos])
      modifies this, probs
      ensures n <= probs.Length && (ok ==> Valid()) && out[..] == old(out[..])
      ensures Reached(ok, Lzma.LiteralStep(input, p, old(Model()), k, old(out[..nowPos])), Model(), step)
    {
      hide Plain, Matched, Sound, LitBase, NumProbs;
      var base := LitBase(p, nowPos, previousByte);
      LitBaseFits(p, nowPos, previousByte);
      var matchByte: byte := if k.state >= 7 then out[nowPos - k.rep0] else 0;
      var symbol;
      ok, symbol := Literal(base, k.state >= 7, matchByte);
      if !ok { return false, Step(End, k); }
      step := Step(Byte(symbol - 256), k.(state := AfterLiteral(k.state)));
    }

    method RepeatStep(k: Context, posState: nat, ghost out: seq<byte>, nowPos: nat) returns (ok: bool, step: Step)
      requires Valid() && LITERAL <= n && posState < 16 && nowPos == |out| && ContextOk(k, nowPos)
      modifies this, probs
      ensures n <= probs.Length && (ok ==> Valid())
      ensures Reached(ok, Lzma.RepeatStep(input, old(Model()), k, posState, out), Model(), step)
    {
      hide Lzma.Length, Sound;
      var len;
      ok, len := Length(REP_LEN_CODER, posState);
      step := Step(Copy(k.rep0, len + 2), k.(state := if k.state < 7 then 8 else 11));
      ok := ok && k.rep0 <= nowPos;
    }

    method MatchStep(k: Context, posState: nat, ghost out: seq<byte>, nowPos: nat) returns (ok: bool, step: Step)
      requires Valid() && LITERAL <= n && posState < 16 && nowPos == |out| && ContextOk(k, nowPos)
      modifies this, probs
      ensures n <= probs.Length && (ok ==> Valid())
      ensures Reached(ok, Lzma.MatchStep(input, old(Model()), k, posState, out), Model(), step)
    {
      hide Lzma.Length, Lzma.Distance, Sound;
      var len, rep0;
      step := Step(End, k);
      ok, len := Length(LEN_CODER, posState);
      if !ok { return; }
      ok, rep0 := Distance(len);
      if !ok { return; }
      var k' := Context(if k.state < 7 then 7 else 10, rep0, k.rep0, k.rep1, k.rep2);
      if rep0 == 0 { return true, Step(End, k'); }
      step := Step(Copy(rep0, len + 2), k');
      ok := rep0 <= nowPos;
    }

    method OlderStep(k: Context, posState: nat, ghost out: seq<byte>, nowPos: nat) returns (ok: bool, step: Step)
      requires Valid() && LITERAL <= n && posState < 16 && nowPos == |out| && ContextOk(k, nowPos)
      modifies this, probs
      ensures n <= probs.Length && (ok ==> Valid())
      ensures Reached(ok, Lzma.OlderStep(input, old(Model()), k, posState, out), Model(), step)
    {
      hide Lzma.Bit, Lzma.RepeatStep, Sound;
      var b;
      step := Step(End, k);
      ok, b := Bit(IS_REP_G1 + k.state);
      if !ok { return; }
      var rep1, rep2, rep3, distance := k.rep1, k.rep2, k.rep3, k.rep1;
      if b == 1 {
        ok, b := Bit(IS_REP_G2 + k.state);
        if !ok { return; }
        if b == 0 {
          distance := rep2;
        } else {
          distance := rep3;
          rep3 := rep2;
        }
        rep2 := rep1;
      }
      rep1 := k.rep0;
      ok, step := RepeatStep(Context(k.state, distance, rep1, rep2, rep3), posState, out, nowPos);
    }

    method RepStep(k: Context, posState: nat, ghost out: seq<byte>, nowPos: nat) returns (ok: bool, step: Step)
      requires Valid() && LITERAL <= n && posState < 16 && nowPos == |out| && ContextOk(k, nowPos)
      modifies this, probs
      ensures n <= probs.Length && (ok ==> Valid())
      ensures Reached(ok, Lzma.RepStep(input, old(Model()), k, posState, out), Model(), step)
    {
      hide Lzma.Bit, Lzma.RepeatStep, Lzma.OlderStep, Sound;
      var b;
      step := Step(End, k);
      ok, b := Bit(IS_REP_G0 + k.state);
      if !ok { return; }
      if b == 1 {
        ok, step := OlderStep(k, posState, out, nowPos);
        return;
      }
      ok, b := Bit(IS_REP0_LONG + 16 * k.state + posState);
      if !ok { return; }
      if b == 1 {
        ok, step := RepeatStep(k, posState, out, nowPos);
      } else {
        step := Step(Copy(k.rep0, 1), k.(state := if k.state < 7 then 9 else 11));
        ok := nowPos != 0;
      }
    }

    /** The next symbol, with `nowPos` bytes written. */
    method Symbol(p: Props, k: Context, out: array<byte>, nowPos: nat, previousByte: byte) returns (ok: bool, step: Step)
      requires Valid() && n == NumProbs(p) && Proper(p) && nowPos <= out.Length && ContextOk(k, nowPos)
      requires previousByte == Last(out[..nowPos])
      modifies this, probs
      ensures n <= probs.Length && (ok ==> Valid()) && out[..] == old(out[..])
      ensures Reached(ok, Lzma.Symbol(input, p, old(Model()), k, old(out[..nowPos])), Model(), step)
    {
      hide Lzma.Bit, Lzma.LiteralStep, Lzma.MatchStep, Lzma.RepStep, Sound, PosState, Pow2;
      PosStateFits(p, nowPos);
      var posState := PosState(p, nowPos);
      var b;
      step := Step(End, k);
      ok, b := Bit(IS_MATCH + 16 * k.state + posState);
      if !ok { return; }
      if b == 0 {
        ok, step := LiteralStep(p, k, out, nowPos, previousByte);
        return;
      }
      ok, b := Bit(IS_REP + k.state);
      if !ok { return; }
      if b == 0 {
        ok, step := MatchStep(k, posState, out[..nowPos], nowPos);
      } else {
        ok, step := RepStep(k, posState, out[..nowPos], nowPos);
      }
    }

    /** The copy loop of a match, cut off at `outSize`. */
    method CopyMatch(out: array<byte>, nowPos0: nat, outSize: nat, distance: nat, length: nat) returns (nowPos: nat)
      requires 1 <= distance <= nowPos0 < outSize <= out.Length && length >= 1
      modifies out
      ensures nowPos0 < nowPos <= outSize && out[..nowPos] == Emit(old(out[..nowPos0]), Copy(distance, length), outSize)
      ensures forall i :: nowPos <= i < out.Length ==> out[i] == old(out[i])
    {
      hide Copied;
      nowPos := nowPos0;
      var len := length;
      ghost var start := out[..nowPos0];
      ghost var rest := Min(length, outSize - nowPos0);
      while len != 0 && nowPos < outSize
        invariant nowPos0 <= nowPos <= outSize && len + nowPos == length + nowPos0 && rest == Min(len, outSize - nowPos)
        invariant Copied(start, distance, Min(length, outSize - nowPos0)) == Copied(out[..nowPos], distance, rest)
        invariant forall i :: nowPos <= i < out.Length ==> out[i] == old(out[i])
      {
        ghost var before := out[..nowPos];
        CopiedNext(before, distance, rest);
        out[nowPos] := out[nowPos - distance];
        assert out[..nowPos + 1] == before + [before[|before| - distance]];
        nowPos, len, rest := nowPos + 1, len - 1, rest - 1;
      }
      CopiedNone(out[..nowPos], distance);
    }

    /** What a literal or a match writes. */
    method Write(out: array<byte>, nowPos0: nat, outSize: nat, token: Token) returns (nowPos: nat)
      requires nowPos0 < outSize <= out.Length && !token.End? && TokenOk(token, nowPos0)
      modifies out
      ensures nowPos0 < nowPos <= outSize && out[..nowPos] == Emit(old(out[..nowPos0]), token, outSize)
      ensures forall i :: nowPos <= i < out.Length ==> out[i] == old(out[i])
    {
      match token {
        case Byte(b) =>
          ghost var written := out[..nowPos0];
          out[nowPos0] := b;
          nowPos := nowPos0 + 1;
          EmitByte(written, token, outSize);
        case Copy(distance, length) => nowPos := CopyMatch(out, nowPos0, outSize, distance, length);
      }
    }

    /** LzmaDecode after RC_INIT: the main loop. On success the output is what the specification says, and nothing is written past it. */
    method Run(p: Props, out: array<byte>, outSize: nat) returns (ret: int, nowPos: nat, ghost tokens: seq<Token>)
      requires Valid() && n == NumProbs(p) && Proper(p) && outSize <= out.Length
      modifies this, probs, out
      ensures n <= probs.Length && (ret == LZMA_RESULT_OK || ret == LZMA_RESULT_DATA_ERROR) && nowPos <= outSize
      ensures Reached(ret == LZMA_RESULT_OK, Decode(input, p, old(Model()), FIRST, [], outSize), Model(), Output(out[..nowPos], tokens))
      ensures forall i :: nowPos <= i < out.Length ==> out[i] == old(out[i])
    {
      hide Lzma.Symbol, Emit, Sound, Lzma.Normalize, Decode, Prepend, Finish, NumProbs, Pow2;
      nowPos := 0;
      tokens := [];
      assert out[..0] == [];
      PrependNone(Decode(input, p, Model(), FIRST, [], outSize));
      var previousByte: byte := 0;
      var k := FIRST;
      var ok := true;
      while nowPos < outSize
        invariant n <= probs.Length && Valid() && nowPos <= outSize && ContextOk(k, nowPos) && previousByte == Last(out[..nowPos])
        invariant Decode(input, p, old(Model()), FIRST, [], outSize) == Prepend(tokens, Decode(input, p, Model(), k, out[..nowPos], outSize))
        invariant forall i :: nowPos <= i < out.Length ==> out[i] == old(out[i])
        decreases outSize - nowPos
      {
        ghost var c, written, k0 := Model(), out[..nowPos], k;
        DecodeNext(input, p, c, k, written, outSize, tokens);
        var step;
        ok, step := Symbol(p, k, out, nowPos, previousByte);
        if !ok { return LZMA_RESULT_DATA_ERROR, nowPos, tokens; }
        tokens := tokens + [step.token];
        if step.token.End? {
          FinishIs(input, Model(), written, tokens);
          ok := Normalize();
          return if ok then LZMA_RESULT_OK else LZMA_RESULT_DATA_ERROR, nowPos, tokens;
        }
        k := step.context;
        nowPos := Write(out, nowPos, outSize, step.token);
        previousByte := out[nowPos - 1];
      }
      DecodeDone(input, p, Model(), k, out[..nowPos], outSize, tokens);
      FinishIs(input, Model(), out[..nowPos], tokens);
      ok := Normalize();
      ret := if ok then LZMA_RESULT_OK else LZMA_RESULT_DATA_ERROR;
    }
  }

  lemma PrependNone(r: Result<Output>)
    ensures Prepend([], r) == r
  {
    assert r.Got? ==> [] + r.value.tokens == r.value.tokens;
  }

  /** One round of the loop, after the symbols `ts`. */
  lemma DecodeNext(input: seq<byte>, p: Props, c: Coder, k: Context, out: seq<byte>, limit: nat, ts: seq<Token>)
    requires Ready(input, p, c, k, out) && |out| < limit
    ensures var s := Lzma.Symbol(input, p, c, k, out); var r := Prepend(ts, Decode(input, p, c, k, out, limit));
      && (s.Bad? ==> r == Bad)
      && (s.Got? && s.value.token.End? ==> r == Finish(input, s.coder, out, ts + [End]))
      && (s.Got? && !s.value.token.End? ==>
            var out' := Emit(out, s.value.token, limit);
            && ContextOk(s.value.context, |out'|)
            && r == Prepend(ts + [s.value.token], Decode(input, p, s.coder, s.value.context, out', limit)))
  {
    hide Lzma.Symbol;
    var s := Lzma.Symbol(input, p, c, k, out);
    if s.Got? && !s.value.token.End? {
      var out' := Emit(out, s.value.token, limit);
      ContextLater(s.value.context, |out| + 1, |out'|);
      var r := Decode(input, p, s.coder, s.value.context, out', limit);
      if r.Got? { assert ts + ([s.value.token] + r.value.tokens) == ts + [s.value.token] + r.value.tokens; }
    }
  }

  lemma DecodeDone(input: seq<byte>, p: Props, c: Coder, k: Context, out: seq<byte>, limit: nat, ts: seq<Token>)
    requires Ready(input, p, c, k, out) && |out| == limit
    ensures Prepend(ts, Decode(input, p, c, k, out, limit)) == Finish(input, c, out, ts)
  {
    assert ts + [] == ts;
  }

  lemma FinishIs(input: seq<byte>, c: Coder, out: seq<byte>, ts: seq<Token>)
    requires Sound(c, input)
    ensures var r := Lzma.Normalize(input, c);
      Finish(input, c, out, ts) == if r.Bad? then Bad else Got(r.coder, Output(out, ts))
  {
  }

  lemma CopiedNext(out: seq<byte>, d: nat, n: nat)
    requires 1 <= d <= |out| && n > 0
    ensures Copied(out, d, n) == Copied(out + [out[|out| - d]], d, n - 1)
  {
  }

  lemma CopiedNone(out: seq<byte>, d: nat)
    requires 1 <= d <= |out|
    ensures Copied(out, d, 0) == out
  {
  }

  lemma EmitByte(out: seq<byte>, t: Token, limit: nat)
    requires t.Byte? && |out| < limit
    ensures Emit(out, t, limit) == out + [t.b]
  {
  }

  ghost function Prepend(ts: seq<Token>, r: Result<Output>): Result<Output> {
    match r
    case Bad => Bad
    case Got(c, v) => Got(c, Output(v.bytes, ts + v.tokens))
  }

  /** The words that RC_INIT has shifted in after `i` bytes. */
  ghost predicate Shifted(input: seq<byte>, i: nat, code: nat)
    requires i <= |input|
  {
    && (i == 0 ==> code == 0) && (i == 1 ==> code == input[0])
    && (i == 2 ==> code == BigEndian(0, 0, input[0], input[1]))
    && (i == 3 ==> code == BigEndian(0, input[0], input[1], input[2]))
    && (i >= 4 ==> code == BigEndian(input[i - 4], input[i - 3], input[i - 2], input[i - 1]))
  }

  lemma Shorter(input: seq<byte>, i: nat, code: nat)
    requires i < 4 && i <= |input| && Shifted(input, i, code)
    ensures code < 0x100_0000
  {
  }

  lemma SmallShift(code: nat)
    requires code < 0x100_0000
    ensures code * 256 % U32 == code * 256
  {
  }

  /** The fifth byte pushes the first one out. */
  lemma TopOut(input: seq<byte>, code: nat)
    requires 4 < |input| && Shifted(input, 4, code)
    ensures code * 256 % U32 == BigEndian(0, input[1], input[2], input[3]) * 256
  {
    var top: nat, low := input[0], BigEndian(0, input[1], input[2], input[3]);
    assert code == 0x100_0000 * top + low && low < 0x100_0000;
    assert code * 256 == U32 * top + low * 256;
  }

  lemma ShiftedNext(input: seq<byte>, i: nat, code: nat)
    requires i < 5 && i < |input| && Shifted(input, i, code)
    ensures Shifted(input, i + 1, code * 256 % U32 + input[i])
  {
    if i < 4 { Shorter(input, i, code); SmallShift(code); } else { TopOut(input, code); }
  }

  method InitTable(probs: array<nat>, n: nat)
    requires n <= probs.Length
    modifies probs
    ensures forall i :: 0 <= i < n ==> probs[i] == 1024
  {
    for i := 0 to n
      invariant forall j :: 0 <= j < i ==> probs[j] == 1024
    {
      probs[i] := MODEL_TOTAL / 2;
    }
  }

  /** RC_INIT */
  method InitCode(input: seq<byte>) returns (ok: bool, code: nat)
    ensures ok <==> |input| >= 5
    ensures ok ==> code == BigEndian(input[1], input[2], input[3], input[4])
  {
    code := 0;
    for i := 0 to 5
      invariant i <= |input| && Shifted(input, i, code)
    {
      if i == |input| { return false, 0; }
      ShiftedNext(input, i, code);
      code := code * 256 % U32 + input[i];
    }
    ok := true;
  }

  /** LzmaDecode: the whole function, on a caller's table and buffer. */
  method LzmaDecode(p: Props, probs: array<nat>, input: seq<byte>, out: array<byte>, outSize: nat)
    returns (ret: int, inProcessed: nat, outProcessed: nat)
    requires Proper(p) && NumProbs(p) <= probs.Length && outSize <= out.Length
    modifies probs, out
    ensures ret == LZMA_RESULT_OK || (ret == LZMA_RESULT_DATA_ERROR && inProcessed == 0 && outProcessed == 0)
    ensures ret == LZMA_RESULT_OK <==> DecodeAll(input, p, outSize).Got?
    ensures ret == LZMA_RESULT_OK ==>
      var r := DecodeAll(input, p, outSize);
      && outProcessed == |r.value.bytes| <= outSize && out[..outProcessed] == r.value.bytes && inProcessed == r.coder.at <= |input|
      && forall i :: outProcessed <= i < out.Length ==> out[i] == old(out[i])
    ensures forall i :: outSize <= i < out.Length ==> out[i] == old(out[i])
  {
    hide Decode, NumProbs, Pow2, BigEndian;
    inProcessed, outProcessed := 0, 0;
    InitTable(probs, NumProbs(p));
    var ok, code := InitCode(input);
    if !ok { return LZMA_RESULT_DATA_ERROR, 0, 0; }
    var d := new Decoder(input, probs, NumProbs(p), code);
    var written;
    ghost var tokens;
    ret, written, tokens := d.Run(p, out, outSize);
    if ret == LZMA_RESULT_OK { inProcessed, outProcessed := d.at, written; }
  }

  /** What LzmaDecode produced is the replay of the symbols it decoded, each distance within what was written before. */
  lemma OutputIsReplay(input: seq<byte>, p: Props, limit: nat)
    requires Proper(p) && DecodeAll(input, p, limit).Got?
    ensures var r := DecodeAll(input, p, limit).value;
      && Playable([], r.tokens, limit) && r.bytes == Replay([], r.tokens, limit)
      && |r.bytes| <= limit && (|r.bytes| == limit || (r.tokens != [] && r.tokens[|r.tokens| - 1] == End))
  {
    DecodeReplays(input, p, Start(input, p).coder, FIRST, [], limit);
  }

  /** The bytes LzmaDecode reports as processed are the only ones its result depends on. */
  lemma OnlyProcessed(a: seq<byte>, b: seq<byte>, p: Props, limit: nat)
    requires Proper(p) && DecodeAll(a, p, limit).Got? && Agree(a, b, DecodeAll(a, p, limit).coder.at)
    ensures DecodeAll(b, p, limit) == DecodeAll(a, p, limit)
  {
    DecodeSame(a, b, DecodeAll(a, p, limit).coder.at, p, Start(a, p).coder, FIRST, [], limit);
  }

  /** A smaller output buffer receives the first bytes of the same output. */
  lemma SmallerBuffer(input: seq<byte>, p: Props, limit: nat, more: nat)
    requires Proper(p) && limit <= more && DecodeAll(input, p, more).Got?
    ensures DecodeAll(input, p, limit).Got?
    ensures var all := DecodeAll(input, p, more).value.bytes; DecodeAll(input, p, limit).value.bytes == all[..Min(limit, |all|)]
  {
    TruncatedIsPrefix(input, p, Start(input, p).coder, FIRST, [], limit, more);
  }
}
