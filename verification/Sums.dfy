/**
 Sums of integer weights over sequences and over the values of finite maps.
 Every accounting invariant of the exchange is stated with these two sums.
 */
module Sums {

  /** The sum of `f` over the elements of a sequence, counted with multiplicity. */
  function SumSeq<T>(xs: seq<T>, f: T -> int): int {
    if xs == [] then 0 else f(xs[0]) + SumSeq(xs[1..], f)
  }

  lemma {:induction false} SumSeqConcat<T>(xs: seq<T>, ys: seq<T>, f: T -> int)
    ensures SumSeq(xs + ys, f) == SumSeq(xs, f) + SumSeq(ys, f)
  {
    if xs == [] {
      assert xs + ys == ys;
    } else {
      assert (xs + ys)[1..] == xs[1..] + ys;
      SumSeqConcat(xs[1..], ys, f);
    }
  }

  lemma SumSeqOne<T>(x: T, f: T -> int)
    ensures SumSeq([x], f) == f(x)
  {
  }

  lemma SumSeqAppend<T>(xs: seq<T>, x: T, f: T -> int)
    ensures SumSeq(xs + [x], f) == SumSeq(xs, f) + f(x)
  {
    SumSeqConcat(xs, [x], f);
  }

  lemma ConcatAssoc<T>(a: seq<T>, b: seq<T>, c: seq<T>)
    ensures a + (b + c) == a + b + c
  {
  }

  lemma ConcatNil<T>(a: seq<T>, b: seq<T>)
    requires b == []
    ensures a + b == a && b + a == a
  {
  }

  /** A sequence without its element at position i. */
  function RemoveAt<T>(xs: seq<T>, i: nat): seq<T>
    requires i < |xs|
  {
    xs[..i] + xs[i + 1..]
  }

  lemma RemoveAtConcat<T>(xs: seq<T>, ys: seq<T>, i: nat)
    requires i < |xs + ys|
    ensures RemoveAt(xs + ys, i) == if i < |xs| then RemoveAt(xs, i) + ys else xs + RemoveAt(ys, i - |xs|)
  {
  }

  lemma SumSeqRemove<T>(xs: seq<T>, i: nat, f: T -> int)
    requires i < |xs|
    ensures SumSeq(RemoveAt(xs, i), f) == SumSeq(xs, f) - f(xs[i])
  {
    assert xs == xs[..i] + ([xs[i]] + xs[i + 1..]);
    SumSeqConcat(xs[..i], [xs[i]] + xs[i + 1..], f);
    SumSeqConcat(xs[..i], xs[i + 1..], f);
  }

  /** With non-negative weights, no element outweighs the sum. */
  lemma {:induction false} SumSeqBounds<T>(xs: seq<T>, f: T -> int)
    requires forall x :: x in xs ==> f(x) >= 0
    ensures SumSeq(xs, f) >= 0
    ensures forall x :: x in xs ==> f(x) <= SumSeq(xs, f)
  {
    if xs != [] {
      assert forall x :: x in xs[1..] ==> x in xs;
      SumSeqBounds(xs[1..], f);
    }
  }

  /** Two different positions together do not outweigh the sum either. */
  lemma SumSeqTwo<T>(xs: seq<T>, i: nat, j: nat, f: T -> int)
    requires i < j < |xs|
    requires forall x :: x in xs ==> f(x) >= 0
    ensures f(xs[i]) + f(xs[j]) <= SumSeq(xs, f)
  {
    SumSeqRemove(xs, i, f);
    var ys := RemoveAt(xs, i);
    assert ys[j - 1] == xs[j];
    assert forall y :: y in ys ==> y in xs;
    SumSeqBounds(ys, f);
  }

  /** The sum of `f` over the values of a map. */
  ghost function SumMap<K, V>(m: map<K, V>, f: V -> int): int {
    if m == map[] then 0
    else
      var k :| k in m;
      f(m[k]) + SumMap(m - {k}, f)
  }

  /** The sum does not depend on the order in which the keys are taken. */
  lemma {:induction false} SumMapPick<K, V>(m: map<K, V>, k: K, f: V -> int)
    requires k in m
    ensures SumMap(m, f) == f(m[k]) + SumMap(m - {k}, f)
    decreases |m|
  {
    var j :| j in m && SumMap(m, f) == f(m[j]) + SumMap(m - {j}, f);
    if j != k {
      SumMapPick(m - {j}, k, f);
      SumMapPick(m - {k}, j, f);
      assert m - {j} - {k} == m - {k} - {j};
    }
  }

  lemma SumMapUpdate<K, V>(m: map<K, V>, k: K, v: V, f: V -> int)
    requires k in m
    ensures SumMap(m[k := v], f) == SumMap(m, f) - f(m[k]) + f(v)
  {
    SumMapPick(m, k, f);
    SumMapPick(m[k := v], k, f);
    assert m[k := v] - {k} == m - {k};
  }

  lemma {:induction false} SumMapBounds<K, V>(m: map<K, V>, f: V -> int)
    requires forall k :: k in m ==> f(m[k]) >= 0
    ensures SumMap(m, f) >= 0
    ensures forall k :: k in m ==> f(m[k]) <= SumMap(m, f)
    decreases |m|
  {
    if m != map[] {
      var j :| j in m;
      var others := m - {j};
      SumMapPick(m, j, f);
      SumMapBounds(others, f);
      forall k | k in m ensures f(m[k]) <= SumMap(m, f) {
        if k != j { assert k in others && others[k] == m[k]; }
      }
    }
  }

  /** If every value weighs zero, so does the map. */
  lemma {:induction false} SumMapZero<K, V>(m: map<K, V>, f: V -> int)
    requires forall k :: k in m ==> f(m[k]) == 0
    ensures SumMap(m, f) == 0
    decreases |m|
  {
    if m != map[] {
      var j :| j in m;
      SumMapPick(m, j, f);
      SumMapZero(m - {j}, f);
    }
  }

  /** The sum depends only on the weights. */
  lemma {:induction false} SumMapSame<K, V>(m: map<K, V>, n: map<K, V>, f: V -> int)
    requires m.Keys == n.Keys && forall k :: k in m ==> f(m[k]) == f(n[k])
    ensures SumMap(m, f) == SumMap(n, f)
    decreases |m|
  {
    if m != map[] {
      var j :| j in m;
      SumMapPick(m, j, f);
      SumMapPick(n, j, f);
      SumMapSame(m - {j}, n - {j}, f);
    } else {
      assert n == map[];
    }
  }
}
