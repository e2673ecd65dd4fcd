/** Finite cardinalities and 64-bit counters, shared by the queue and signalling proofs. */
module Counting {
  import opened Words

  /** A 64-bit word read as int64_t. */
  function Signed(w: nat): int { if w < WORD / 2 then w else w - WORD }

  function Bit(b: bool): int { if b then 1 else 0 }

  lemma CardChange<T>(a: set<T>, b: set<T>, t: T)
    requires forall u :: u != t ==> (u in a <==> u in b)
    ensures |b| == |a| - Bit(t in a) + Bit(t in b)
  {
    assert a - {t} == b - {t};
    assert t in a ==> a == (a - {t}) + {t};
    assert t in b ==> b == (b - {t}) + {t};
  }

  lemma {:induction false} DistinctFit<T>(c: seq<T>, keys: set<T>)
    requires forall i :: 0 <= i < |c| ==> c[i] in keys
    requires forall i, j :: 0 <= i < j < |c| ==> c[i] != c[j]
    ensures |c| <= |keys|
  {
    if c != [] {
      var n := |c| - 1;
      DistinctFit(c[..n], keys - {c[n]});
    }
  }

  lemma {:induction false} CoverFits<T>(c: seq<T>, keys: set<T>)
    requires forall a :: a in keys ==> a in c
    ensures |keys| <= |c|
  {
    if c != [] {
      var n := |c| - 1;
      assert forall a :: a in keys - {c[n]} ==> a in c[..n];
      CoverFits(c[..n], keys - {c[n]});
    } else {
      assert keys == {};
    }
  }

  ghost function Upto(n: nat): (u: set<int>)
    ensures |u| == n && forall i :: i in u <==> 0 < i <= n
  {
    if n == 0 then {} else Upto(n - 1) + {n}
  }

  lemma Pigeonhole(d: seq<int>, n: nat)
    requires forall i :: 0 <= i < |d| ==> 0 < d[i] <= n
    requires forall i, j :: 0 <= i < j < |d| ==> d[i] != d[j]
    ensures |d| <= n
  {
    DistinctFit(d, Upto(n));
  }

  /** The word `count` stands for the integer `size`. */
  ghost predicate Congruent(size: int, count: nat) {
    count < WORD && (size - count) % WORD == 0
  }

  /** The word after `up` increments and `down` decrements, at most one in all. */
  function Wrapped(count: nat, up: int, down: int): nat {
    if up == 1 then (count + 1) % WORD else if down == 1 then (count + WORD - 1) % WORD else count
  }

  lemma WrapStep(size: int, count: nat, up: int, down: int, size': int, count': nat)
    requires Congruent(size, count)
    requires 0 <= up && 0 <= down && up + down <= 1
    requires size' == size + up - down && count' == Wrapped(count, up, down)
    ensures Congruent(size', count')
  {
  }

  lemma SignedIs(size: int, count: nat)
    requires Congruent(size, count) && -(WORD as int) / 2 <= size < WORD / 2
    ensures Signed(count) == size
  {
  }
}
