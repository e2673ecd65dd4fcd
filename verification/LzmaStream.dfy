/** The decoder looks at no byte it does not consume, and a smaller output buffer gets a prefix of the same output. */
module LzmaStream {
  import opened Lzma
  import opened LzmaOutput

  /** The two inputs have the same first `n` bytes. */
  ghost predicate Agree(a: seq<byte>, b: seq<byte>, n: nat) {
    n <= |a| && n <= |b| && forall i :: 0 <= i < n ==> a[i] == b[i]
  }

  /** The result came from the first `n` bytes. */
  ghost predicate Within<T(!new)>(r: Result<T>, n: nat) { r.Got? && r.coder.at <= n }

  lemma SoundToo(c: Coder, a: seq<byte>, b: seq<byte>, n: nat)
    requires Sound(c, a) && Agree(a, b, n) && c.at <= n
    ensures Sound(c, b)
  {
  }

  lemma NormalizeSame(a: seq<byte>, b: seq<byte>, n: nat, c: Coder)
    requires Sound(c, a) && Agree(a, b, n) && Within(Normalize(a, c), n)
    ensures Sound(c, b) && Normalize(b, c) == Normalize(a, c)
  {
  }

  lemma BitSame(a: seq<byte>, b: seq<byte>, n: nat, c: Coder, i: nat)
    requires Sound(c, a) && i < |c.probs| && Agree(a, b, n) && Within(Bit(a, c, i), n)
    ensures Sound(c, b) && Bit(b, c, i) == Bit(a, c, i)
  {
    hide Agree, Sound, Normalize;
    SoundToo(c, a, b, n);
    NormalizeSame(a, b, n, c);
  }

  lemma {:induction false} TreeSame(a: seq<byte>, b: seq<byte>, n: nat, c: Coder, base: nat, size: nat, m: nat)
    requires Sound(c, a) && base + size <= |c.probs| && 1 <= m < 2 * size && Agree(a, b, n) && Within(Tree(a, c, base, size, m), n)
    ensures Sound(c, b) && Tree(b, c, base, size, m) == Tree(a, c, base, size, m)
    decreases 2 * size - m
  {
    hide Agree, Sound, Bit, Normalize;
    SoundToo(c, a, b, n);
    if m < size {
      var r := Bit(a, c, base + m);
      TreeSame(a, b, n, r.coder, base, size, 2 * m + r.value);
      BitSame(a, b, n, c, base + m);
    }
  }

  lemma {:induction false} ReverseSame(a: seq<byte>, b: seq<byte>, n: nat, c: Coder, first: nat, levels: nat, m: nat, weight: nat)
    requires Sound(c, a) && weight <= m < 2 * weight && first + Shl(weight, levels) <= |c.probs| + 1
    requires Agree(a, b, n) && Within(Reverse(a, c, first, levels, m, weight), n)
    ensures Sound(c, b) && Reverse(b, c, first, levels, m, weight) == Reverse(a, c, first, levels, m, weight)
    decreases levels
  {
    hide Agree, Sound, Bit, Normalize;
    SoundToo(c, a, b, n);
    if levels > 0 {
      var r := Bit(a, c, first + m - 1);
      ReverseSame(a, b, n, r.coder, first, levels - 1, 2 * m + r.value, 2 * weight);
      BitSame(a, b, n, c, first + m - 1);
    }
  }

  lemma RawSame(a: seq<byte>, b: seq<byte>, n: nat, c: Coder)
    requires Sound(c, a) && Agree(a, b, n) && Within(RawBit(a, c), n)
    ensures Sound(c, b) && RawBit(b, c) == RawBit(a, c)
  {
    hide Agree, Sound, Normalize;
    SoundToo(c, a, b, n);
    NormalizeSame(a, b, n, c);
  }

  lemma {:induction false} DirectSame(a: seq<byte>, b: seq<byte>, n: nat, c: Coder, bits: nat, v: nat, w: nat)
    requires Sound(c, a) && v < w && Agree(a, b, n) && Within(Direct(a, c, bits, v, w), n)
    ensures Sound(c, b) && Direct(b, c, bits, v, w) == Direct(a, c, bits, v, w)
    decreases bits
  {
    hide Agree, Sound, RawBit;
    SoundToo(c, a, b, n);
    if bits > 0 {
      var r := RawBit(a, c);
      DirectSame(a, b, n, r.coder, bits - 1, 2 * v + r.value, 2 * w);
      RawSame(a, b, n, c);
    }
  }

  lemma LengthSame(a: seq<byte>, b: seq<byte>, n: nat, c: Coder, base: nat, posState: nat)
    requires Sound(c, a) && base + NUM_LEN_PROBS <= |c.probs| && posState < 16 && Agree(a, b, n) && Within(Length(a, c, base, posState), n)
    ensures Sound(c, b) && Length(b, c, base, posState) == Length(a, c, base, posState)
  {
    hide Agree, Sound, Bit, Normalize;
    SoundToo(c, a, b, n);
    var r := Bit(a, c, base);
    if r.value == 0 {
      TreeSame(a, b, n, r.coder, base + LEN_LOW + 8 * posState, 8, 1);
    } else {
      var r' := Bit(a, r.coder, base + 1);
      if r'.value == 0 { TreeSame(a, b, n, r'.coder, base + LEN_MID + 8 * posState, 8, 1); }
      else { TreeSame(a, b, n, r'.coder, base + LEN_HIGH, 256, 1); }
      BitSame(a, b, n, r.coder, base + 1);
    }
    BitSame(a, b, n, c, base);
  }

  lemma FarSame(a: seq<byte>, b: seq<byte>, n: nat, c: Coder, slot: nat)
    requires Sound(c, a) && LITERAL <= |c.probs| && 4 <= slot < 64 && Agree(a, b, n) && Within(FarDistance(a, c, slot), n)
    ensures Sound(c, b) && FarDistance(b, c, slot) == FarDistance(a, c, slot)
  {
    hide Agree, Sound, Bit, Normalize, Reverse, Direct, Shl;
    SoundToo(c, a, b, n);
    if slot < 14 {
      SlotFits(slot);
      ReverseSame(a, b, n, c, SPEC_POS + Shl(2 + slot % 2, slot / 2 - 1) - slot, slot / 2 - 1, 1, 1);
    } else {
      var r := Direct(a, c, slot / 2 - 5, 2 + slot % 2, 2 + slot % 2 + 1);
      ShlOf4();
      ReverseSame(a, b, n, r.coder, ALIGN + 1, 4, 1, 1);
      DirectSame(a, b, n, c, slot / 2 - 5, 2 + slot % 2, 2 + slot % 2 + 1);
    }
  }

  lemma DistanceSame(a: seq<byte>, b: seq<byte>, n: nat, c: Coder, len: nat)
    requires Sound(c, a) && LITERAL <= |c.probs| && Agree(a, b, n) && Within(Distance(a, c, len), n)
    ensures Sound(c, b) && Distance(b, c, len) == Distance(a, c, len)
  {
    hide Agree, Sound, Bit, Normalize;
    SoundToo(c, a, b, n);
    var base := POS_SLOT + 64 * (if len < 4 then len else 3);
    var r := Tree(a, c, base, 64, 1);
    if r.value >= 4 { FarSame(a, b, n, r.coder, r.value); }
    TreeSame(a, b, n, c, base, 64, 1);
  }

  lemma {:induction false} PlainSame(a: seq<byte>, b: seq<byte>, n: nat, c: Coder, base: nat, symbol: nat)
    requires Sound(c, a) && base + LZMA_LIT_SIZE <= |c.probs| && 1 <= symbol < 512 && Agree(a, b, n) && Within(Plain(a, c, base, symbol), n)
    ensures Sound(c, b) && Plain(b, c, base, symbol) == Plain(a, c, base, symbol)
    decreases 512 - symbol
  {
    hide Agree, Sound, Bit, Normalize;
    SoundToo(c, a, b, n);
    if symbol < 256 {
      var r := Bit(a, c, base + symbol);
      PlainSame(a, b, n, r.coder, base, 2 * symbol + r.value);
      BitSame(a, b, n, c, base + symbol);
    }
  }

  lemma {:induction false} MatchedSame(a: seq<byte>, b: seq<byte>, n: nat, c: Coder, base: nat, symbol: nat, matchByte: nat)
    requires Sound(c, a) && base + LZMA_LIT_SIZE <= |c.probs| && 1 <= symbol < 256
    requires Agree(a, b, n) && Within(Matched(a, c, base, symbol, matchByte), n)
    ensures Sound(c, b) && Matched(b, c, base, symbol, matchByte) == Matched(a, c, base, symbol, matchByte)
    decreases 512 - symbol
  {
    hide Agree, Sound, Bit, Normalize;
    SoundToo(c, a, b, n);
    var bit := matchByte / 128 % 2;
    var i := base + 0x100 + 0x100 * bit + symbol;
    var r := Bit(a, c, i);
    var symbol' := 2 * symbol + r.value;
    if r.value == bit && symbol' < 256 { MatchedSame(a, b, n, r.coder, base, symbol', 2 * matchByte); }
    else { PlainSame(a, b, n, r.coder, base, symbol'); }
    BitSame(a, b, n, c, i);
  }

  lemma LiteralSame(a: seq<byte>, b: seq<byte>, n: nat, p: Props, c: Coder, k: Context, out: seq<byte>)
    requires Ready(a, p, c, k, out) && Agree(a, b, n) && Within(LiteralStep(a, p, c, k, out), n)
    ensures Ready(b, p, c, k, out) && LiteralStep(b, p, c, k, out) == LiteralStep(a, p, c, k, out)
  {
    hide Agree, Sound, Bit, Normalize, Pow2, LitBase, NumProbs, Matched, Plain;
    SoundToo(c, a, b, n);
    var base := LitBase(p, |out|, Last(out));
    LitBaseFits(p, |out|, Last(out));
    if k.state >= 7 { MatchedSame(a, b, n, c, base, 1, out[|out| - k.rep0]); } else { PlainSame(a, b, n, c, base, 1); }
  }

  lemma RepeatSame(a: seq<byte>, b: seq<byte>, n: nat, c: Coder, k: Context, posState: nat, out: seq<byte>)
    requires Sound(c, a) && LITERAL <= |c.probs| && posState < 16 && ContextOk(k, |out|)
    requires Agree(a, b, n) && Within(RepeatStep(a, c, k, posState, out), n)
    ensures Sound(c, b) && RepeatStep(b, c, k, posState, out) == RepeatStep(a, c, k, posState, out)
  {
    hide Agree, Sound, Bit, Normalize;
    SoundToo(c, a, b, n);
    LengthSame(a, b, n, c, REP_LEN_CODER, posState);
  }

  lemma MatchSame(a: seq<byte>, b: seq<byte>, n: nat, c: Coder, k: Context, posState: nat, out: seq<byte>)
    requires Sound(c, a) && LITERAL <= |c.probs| && posState < 16 && ContextOk(k, |out|)
    requires Agree(a, b, n) && Within(MatchStep(a, c, k, posState, out), n)
    ensures Sound(c, b) && MatchStep(b, c, k, posState, out) == MatchStep(a, c, k, posState, out)
  {
    hide Agree, Sound, Bit, Normalize;
    SoundToo(c, a, b, n);
    var r := Length(a, c, LEN_CODER, posState);
    DistanceSame(a, b, n, r.coder, r.value);
    LengthSame(a, b, n, c, LEN_CODER, posState);
  }

  lemma OlderSame(a: seq<byte>, b: seq<byte>, n: nat, c: Coder, k: Context, posState: nat, out: seq<byte>)
    requires Sound(c, a) && LITERAL <= |c.probs| && posState < 16 && ContextOk(k, |out|)
    requires Agree(a, b, n) && Within(OlderStep(a, c, k, posState, out), n)
    ensures Sound(c, b) && OlderStep(b, c, k, posState, out) == OlderStep(a, c, k, posState, out)
  {
    hide Agree, Sound, Bit, Normalize, RepeatStep;
    SoundToo(c, a, b, n);
    var r := Bit(a, c, IS_REP_G1 + k.state);
    if r.value == 0 {
      RepeatSame(a, b, n, r.coder, k.(rep0 := k.rep1, rep1 := k.rep0), posState, out);
    } else {
      var r' := Bit(a, r.coder, IS_REP_G2 + k.state);
      var k' := if r'.value == 0 then Context(k.state, k.rep2, k.rep0, k.rep1, k.rep3)
                else Context(k.state, k.rep3, k.rep0, k.rep1, k.rep2);
      RepeatSame(a, b, n, r'.coder, k', posState, out);
      BitSame(a, b, n, r.coder, IS_REP_G2 + k.state);
    }
    BitSame(a, b, n, c, IS_REP_G1 + k.state);
  }

  lemma RepSame(a: seq<byte>, b: seq<byte>, n: nat, c: Coder, k: Context, posState: nat, out: seq<byte>)
    requires Sound(c, a) && LITERAL <= |c.probs| && posState < 16 && ContextOk(k, |out|)
    requires Agree(a, b, n) && Within(RepStep(a, c, k, posState, out), n)
    ensures Sound(c, b) && RepStep(b, c, k, posState, out) == RepStep(a, c, k, posState, out)
  {
    hide Agree, Sound, Bit, Normalize, OlderStep, RepeatStep;
    SoundToo(c, a, b, n);
    var r := Bit(a, c, IS_REP_G0 + k.state);
    if r.value == 1 {
      OlderSame(a, b, n, r.coder, k, posState, out);
    } else {
      var i := IS_REP0_LONG + 16 * k.state + posState;
      var r' := Bit(a, r.coder, i);
      if r'.value == 1 { RepeatSame(a, b, n, r'.coder, k, posState, out); }
      BitSame(a, b, n, r.coder, i);
    }
    BitSame(a, b, n, c, IS_REP_G0 + k.state);
  }

  lemma SymbolSame(a: seq<byte>, b: seq<byte>, n: nat, p: Props, c: Coder, k: Context, out: seq<byte>)
    requires Ready(a, p, c, k, out) && Agree(a, b, n) && Within(Symbol(a, p, c, k, out), n)
    ensures Ready(b, p, c, k, out) && Symbol(b, p, c, k, out) == Symbol(a, p, c, k, out)
  {
    hide Agree, Sound, Bit, Normalize, Pow2, PosState, LiteralStep, MatchStep, RepStep;
    SoundToo(c, a, b, n);
    PosStateFits(p, |out|);
    var posState := PosState(p, |out|);
    var i := IS_MATCH + 16 * k.state + posState;
    var r := Bit(a, c, i);
    if r.value == 0 {
      LiteralSame(a, b, n, p, r.coder, k, out);
    } else {
      var r' := Bit(a, r.coder, IS_REP + k.state);
      if r'.value == 0 { MatchSame(a, b, n, r'.coder, k, posState, out); } else { RepSame(a, b, n, r'.coder, k, posState, out); }
      BitSame(a, b, n, r.coder, IS_REP + k.state);
    }
    BitSame(a, b, n, c, i);
  }

  /** Two inputs that agree on the bytes consumed give the same result: nothing else is looked at. */
  lemma {:induction false} DecodeSame(a: seq<byte>, b: seq<byte>, n: nat, p: Props, c: Coder, k: Context, out: seq<byte>, limit: nat)
    requires Ready(a, p, c, k, out) && |out| <= limit && Agree(a, b, n) && Within(Decode(a, p, c, k, out, limit), n)
    ensures Ready(b, p, c, k, out) && Decode(b, p, c, k, out, limit) == Decode(a, p, c, k, out, limit)
    decreases limit - |out|
  {
    hide Agree, Sound, Bit, Normalize;
    SoundToo(c, a, b, n);
    if |out| == limit {
      NormalizeSame(a, b, n, c);
    } else {
      var s := Symbol(a, p, c, k, out);
      if s.value.token.End? {
        NormalizeSame(a, b, n, s.coder);
      } else {
        var out' := Emit(out, s.value.token, limit);
        ContextLater(s.value.context, |out| + 1, |out'|);
        DecodeSame(a, b, n, p, s.coder, s.value.context, out', limit);
      }
      SymbolSame(a, b, n, p, c, k, out);
    }
  }

  // ---- Truncation ----

  /** A copy cut off earlier gives a prefix. */
  lemma {:induction false} CopiedPrefix(out: seq<byte>, d: nat, n: nat, m: nat)
    requires 1 <= d <= |out| && n <= m
    ensures Copied(out, d, n) <= Copied(out, d, m)
    decreases n
  {
    if n > 0 { CopiedPrefix(out + [out[|out| - d]], d, n - 1, m - 1); }
    else { assert Copied(out, d, m)[..|out|] == out; }
  }

  lemma EmitPrefix(out: seq<byte>, t: Token, limit: nat, more: nat)
    requires TokenOk(t, |out|) && |out| < limit <= more
    ensures Emit(out, t, limit) <= Emit(out, t, more)
    ensures |Emit(out, t, limit)| < limit ==> Emit(out, t, limit) == Emit(out, t, more)
    ensures |Emit(out, t, more)| >= limit ==> |Emit(out, t, limit)| == limit
  {
    if t.Copy? { CopiedPrefix(out, t.distance, Min(t.length, limit - |out|), Min(t.length, more - |out|)); }
  }

  /** Going on from a state needs its normalisation first, whether to decode or to stop. */
  lemma NeedsNormalize(input: seq<byte>, p: Props, c: Coder, k: Context, out: seq<byte>, limit: nat)
    requires Ready(input, p, c, k, out) && |out| <= limit && Decode(input, p, c, k, out, limit).Got?
    ensures Normalize(input, c).Got?
  {
    PosStateFits(p, |out|);
  }

  /** With a smaller output buffer the decoder succeeds too, on the first bytes of the same output. */
  lemma {:induction false} TruncatedIsPrefix(input: seq<byte>, p: Props, c: Coder, k: Context, out: seq<byte>, limit: nat, more: nat)
    requires Ready(input, p, c, k, out) && |out| <= limit <= more && Decode(input, p, c, k, out, more).Got?
    ensures Decode(input, p, c, k, out, limit).Got?
    ensures var all := Decode(input, p, c, k, out, more).value.bytes;
      Decode(input, p, c, k, out, limit).value.bytes == all[..Min(limit, |all|)]
    decreases limit - |out|
  {
    DecodeReplays(input, p, c, k, out, more);
    if |out| == limit {
      NeedsNormalize(input, p, c, k, out, more);
    } else {
      var s := Symbol(input, p, c, k, out);
      if !s.value.token.End? { TruncatedStep(input, p, c, k, out, limit, more); }
    }
  }

  lemma {:induction false} TruncatedStep(input: seq<byte>, p: Props, c: Coder, k: Context, out: seq<byte>, limit: nat, more: nat)
    requires Ready(input, p, c, k, out) && |out| < limit <= more && Decode(input, p, c, k, out, more).Got?
    requires Symbol(input, p, c, k, out).Got? && !Symbol(input, p, c, k, out).value.token.End?
    ensures Decode(input, p, c, k, out, limit).Got?
    ensures var all := Decode(input, p, c, k, out, more).value.bytes;
      Decode(input, p, c, k, out, limit).value.bytes == all[..Min(limit, |all|)]
    decreases limit - |out|, 0
  {
    hide Symbol, Normalize, Sound, Emit, Playable, Replay;
    var s := Symbol(input, p, c, k, out).value;
    var c' := Symbol(input, p, c, k, out).coder;
    var o, o' := Emit(out, s.token, limit), Emit(out, s.token, more);
    EmitPrefix(out, s.token, limit, more);
    ContextLater(s.context, |out| + 1, |o|);
    ContextLater(s.context, |out| + 1, |o'|);
    DecodeReplays(input, p, c', s.context, o', more);
    if |o| < limit {
      TruncatedIsPrefix(input, p, c', s.context, o, limit, more);
    } else {
      NeedsNormalize(input, p, c', s.context, o', more);
      assert Decode(input, p, c', s.context, o', more).value.bytes[..|o'|] == o';
    }
  }
}
