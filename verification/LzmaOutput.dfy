/** The bytes that the decoded symbols stand for, and what a whole run of the decoder computes. */
module LzmaOutput {
  import opened Words
  import opened Lzma

  /** `n` more bytes, each the one `d` places back, so a copy may run into its own output. */
  function Copied(out: seq<byte>, d: nat, n: nat): (r: seq<byte>)
    requires 1 <= d <= |out|
    ensures |r| == |out| + n && r[..|out|] == out
    decreases n
  {
    if n == 0 then out else Copied(out + [out[|out| - d]], d, n - 1)
  }

  function Phase(j: nat, d: nat): (r: nat)
    requires d > 0
    ensures r < d
  {
    j % d
  }

  /** An overlapping copy repeats the last `d` bytes over and over. */
  lemma {:induction false} CopyRepeats(out: seq<byte>, d: nat, n: nat, j: nat)
    requires 1 <= d <= |out| && j < n
    ensures Copied(out, d, n)[|out| + j] == out[|out| - d + Phase(j, d)]
    decreases n
  {
    hide Phase;
    var out' := out + [out[|out| - d]];
    if j == 0 {
      assert Copied(out', d, n - 1)[..|out'|][|out|] == out'[|out|];
    } else {
      CopyRepeats(out', d, n - 1, j - 1);
    }
    WrapAround(j, d);
  }

  lemma WrapAround(j: nat, d: nat)
    requires d > 0
    ensures Phase(j, d) == if j == 0 || Phase(j - 1, d) == d - 1 then 0 else Phase(j - 1, d) + 1
  {
    if j > 0 {
      var q, r := (j - 1) / d, (j - 1) % d;
      assert j - 1 == d * q + r;
      if r == d - 1 { Remainder(j, d, q + 1, 0); } else { Remainder(j, d, q, r + 1); }
    }
  }

  lemma Remainder(x: nat, d: nat, q: nat, r: nat)
    requires r < d && x == d * q + r
    ensures x % d == r
  {
    var k := x / d;
    if k < q { MulBetween(d, k + 1, q); } else if q < k { MulBetween(d, q + 1, k); }
  }

  function Min(a: nat, b: nat): nat { if a < b then a else b }

  /** One symbol on the output, cut off at `limit`. */
  function Emit(out: seq<byte>, t: Token, limit: nat): (r: seq<byte>)
    requires TokenOk(t, |out|) && |out| < limit
    ensures |out| <= |r| <= limit && (!t.End? ==> |out| < |r|)
  {
    match t
    case Byte(b) => out + [b]
    case Copy(d, n) => Copied(out, d, Min(n, limit - |out|))
    case End => out
  }

  /** Every distance reaches back to a byte already there, and only the last symbol meets the limit or ends the stream. */
  ghost predicate Playable(out: seq<byte>, ts: seq<Token>, limit: nat)
    decreases |ts|
  {
    ts == [] || (|out| < limit && TokenOk(ts[0], |out|) && (ts[0].End? ==> |ts| == 1) && Playable(Emit(out, ts[0], limit), ts[1..], limit))
  }

  /** The output of a sequence of symbols. */
  ghost function Replay(out: seq<byte>, ts: seq<Token>, limit: nat): seq<byte>
    requires Playable(out, ts, limit)
    decreases |ts|
  {
    if ts == [] then out else Replay(Emit(out, ts[0], limit), ts[1..], limit)
  }

  datatype Output = Output(bytes: seq<byte>, tokens: seq<Token>)

  ghost function Finish(input: seq<byte>, c: Coder, out: seq<byte>, ts: seq<Token>): Result<Output>
    requires Sound(c, input)
  {
    match Normalize(input, c)
    case Bad => Bad
    case Got(c', _) => Got(c', Output(out, ts))
  }

  ghost function Before(t: Token, r: Result<Output>): Result<Output> {
    match r
    case Bad => Bad
    case Got(c, v) => Got(c, Output(v.bytes, [t] + v.tokens))
  }

  lemma ContextLater(k: Context, written: nat, written': nat)
    requires ContextOk(k, written) && written <= written'
    ensures ContextOk(k, written')
  {
  }

  /** The main loop with `out` written so far. */
  ghost function Decode(input: seq<byte>, p: Props, c: Coder, k: Context, out: seq<byte>, limit: nat): (r: Result<Output>)
    requires Ready(input, p, c, k, out) && |out| <= limit
    ensures LaterIf(c, r, input)
    decreases limit - |out|
  {
    if |out| == limit then Finish(input, c, out, [])
    else match Symbol(input, p, c, k, out)
      case Bad => Bad
      case Got(c', step) =>
        if step.token.End? then Finish(input, c', out, [End])
        else
          var out' := Emit(out, step.token, limit);
          ContextLater(step.context, |out| + 1, |out'|);
          Before(step.token, Decode(input, p, c', step.context, out', limit))
  }

  /** The output is the replay of the symbols, and it is complete unless the stream ended itself. */
  lemma {:induction false} DecodeReplays(input: seq<byte>, p: Props, c: Coder, k: Context, out: seq<byte>, limit: nat)
    requires Ready(input, p, c, k, out) && |out| <= limit && Decode(input, p, c, k, out, limit).Got?
    ensures var r := Decode(input, p, c, k, out, limit).value;
      && Playable(out, r.tokens, limit) && r.bytes == Replay(out, r.tokens, limit)
      && |out| <= |r.bytes| <= limit && r.bytes[..|out|] == out
      && (|r.bytes| == limit || (r.tokens != [] && r.tokens[|r.tokens| - 1] == End))
    decreases limit - |out|
  {
    if |out| < limit {
      var s := Symbol(input, p, c, k, out);
      if s.value.token.End? {
        assert [End][1..] == [];
      } else {
        var out' := Emit(out, s.value.token, limit);
        ContextLater(s.value.context, |out| + 1, |out'|);
        DecodeReplays(input, p, s.coder, s.value.context, out', limit);
        var r' := Decode(input, p, s.coder, s.value.context, out', limit).value;
        assert ([s.value.token] + r'.tokens)[1..] == r'.tokens;
        EmitKeeps(out, s.value.token, limit);
        assert r'.bytes[..|out|] == r'.bytes[..|out'|][..|out|];
      }
    }
  }

  lemma EmitKeeps(out: seq<byte>, t: Token, limit: nat)
    requires TokenOk(t, |out|) && |out| < limit
    ensures Emit(out, t, limit)[..|out|] == out
  {
  }

  // ---- From the first byte on ----

  function BigEndian(a: byte, b: byte, c: byte, d: byte): (r: nat)
    ensures r < U32
  {
    ((a * 256 + b) * 256 + c) * 256 + d
  }

  /** RC_INIT: the first byte is shifted out again. Every probability starts at one half. */
  ghost function Start(input: seq<byte>, p: Props): (r: Result<()>)
    ensures r.Got? ==> Sound(r.coder, input) && |r.coder.probs| == NumProbs(p)
  {
    if |input| < 5 then Bad
    else Got(Coder(U32 - 1, BigEndian(input[1], input[2], input[3], input[4]), 5, seq(NumProbs(p), _ => 1024)), ())
  }

  const FIRST: Context := Context(0, 1, 1, 1, 1)

  /** LzmaDecode on a whole input. */
  ghost function DecodeAll(input: seq<byte>, p: Props, limit: nat): Result<Output>
    requires Proper(p)
  {
    match Start(input, p)
    case Bad => Bad
    case Got(c, _) => Decode(input, p, c, FIRST, [], limit)
  }
}
