// Sums over sequences and over the values of a finite map.
module Sums {

  function SumSeq(xs: seq<int>): int {
    if xs == [] then 0 else xs[0] + SumSeq(xs[1..])
  }

  lemma {:induction false} SumSeqConcat(xs: seq<int>, ys: seq<int>)
    ensures SumSeq(xs + ys) == SumSeq(xs) + SumSeq(ys)
  {
    if xs == [] {
      assert xs + ys == ys;
    } else {
      assert (xs + ys)[1..] == xs[1..] + ys;
      SumSeqConcat(xs[1..], ys);
    }
  }

  lemma {:induction false} SumSeqUpdate(xs: seq<int>, i: nat, x: int)
    requires i < |xs|
    ensures SumSeq(xs[i := x]) == SumSeq(xs) - xs[i] + x
  {
    if i == 0 {
      assert xs[0 := x][1..] == xs[1..];
    } else {
      assert xs[i := x][1..] == xs[1..][i - 1 := x];
      SumSeqUpdate(xs[1..], i - 1, x);
    }
  }

  ghost function SumMap<K(!new)>(m: map<K, int>): int
    decreases |m|
  {
    if m == map[] then 0 else
      var k :| k in m;
      assert |m - {k}| < |m| by { assert (m - {k}).Keys == m.Keys - {k}; }
      m[k] + SumMap(m - {k})
  }

  lemma {:induction false} SumMapRemove<K(!new)>(m: map<K, int>, k: K)
    requires k in m
    ensures SumMap(m) == m[k] + SumMap(m - {k})
    decreases |m|
  {
    var c :| c in m && SumMap(m) == m[c] + SumMap(m - {c});
    if c != k {
      assert (m - {c}).Keys == m.Keys - {c} && (m - {k}).Keys == m.Keys - {k};
      SumMapRemove(m - {c}, k);
      SumMapRemove(m - {k}, c);
      assert m - {c} - {k} == m - {k} - {c};
    }
  }

  lemma SumMapUpdate<K(!new)>(m: map<K, int>, k: K, v: int)
    ensures SumMap(m[k := v]) == SumMap(m) + v - (if k in m then m[k] else 0)
  {
    SumMapRemove(m[k := v], k);
    if k in m {
      SumMapRemove(m, k);
      assert m[k := v] - {k} == m - {k};
    } else {
      assert m[k := v] - {k} == m;
    }
  }

  lemma {:induction false} SumMapNonNegative<K(!new)>(m: map<K, int>)
    requires forall k | k in m :: m[k] >= 0
    ensures SumMap(m) >= 0
    ensures forall k | k in m :: m[k] <= SumMap(m)
    decreases |m|
  {
    forall k | k in m ensures 0 <= m[k] <= SumMap(m) {
      SumMapRemove(m, k);
      assert (m - {k}).Keys == m.Keys - {k};
      SumMapNonNegative(m - {k});
    }
  }
}
