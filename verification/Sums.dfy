/** Totals of sequences and of maps, whatever order the entries come in. */
module Sums {

  function SumSeq(s: seq<int>): int {
    if s == [] then 0 else s[0] + SumSeq(s[1..])
  }

  lemma {:induction false} SumSeqUpdate(s: seq<int>, i: nat, v: int)
    requires i < |s|
    ensures SumSeq(s[i := v]) == SumSeq(s) - s[i] + v
  {
    if i == 0 {
      assert s[i := v][1..] == s[1..];
    } else {
      assert s[i := v][1..] == s[1..][i - 1 := v];
      SumSeqUpdate(s[1..], i - 1, v);
    }
  }

  lemma {:induction false} SumSeqAppend(s: seq<int>, v: int)
    ensures SumSeq(s + [v]) == SumSeq(s) + v
  {
    if s == [] {
      assert s + [v] == [v];
    } else {
      assert (s + [v])[1..] == s[1..] + [v];
      SumSeqAppend(s[1..], v);
    }
  }

  lemma {:induction false} SumSeqAtLeast(s: seq<int>, i: nat)
    requires i < |s| && forall k | 0 <= k < |s| :: 0 <= s[k]
    ensures 0 <= s[i] <= SumSeq(s)
  {
    SumSeqNonNegative(s[1..]);
    if i > 0 {
      SumSeqAtLeast(s[1..], i - 1);
    }
  }

  lemma {:induction false} SumSeqNonNegative(s: seq<int>)
    requires forall k | 0 <= k < |s| :: 0 <= s[k]
    ensures 0 <= SumSeq(s)
  {
    if s != [] {
      SumSeqNonNegative(s[1..]);
    }
  }

  lemma {:induction false} SumSeqOfZeros(s: seq<int>)
    requires forall k | 0 <= k < |s| :: s[k] == 0
    ensures SumSeq(s) == 0
  {
    if s != [] {
      SumSeqOfZeros(s[1..]);
    }
  }

  /** The total of a map's values, picking the keys in some order. */
  ghost function SumMap<K>(m: map<K, int>): int {
    if m == map[] then 0 else
      var k :| k in m;
      m[k] + SumMap(m - {k})
  }

  /** The order does not matter: any key may go first. */
  lemma {:induction false} SumMapRemove<K>(m: map<K, int>, k: K)
    requires k in m
    ensures SumMap(m) == m[k] + SumMap(m - {k})
    decreases |m|
  {
    var first :| first in m && SumMap(m) == m[first] + SumMap(m - {first});
    if first != k {
      assert |m - {first}| < |m| && |m - {k}| < |m| by {
        assert (m - {first}).Keys == m.Keys - {first} && (m - {k}).Keys == m.Keys - {k};
      }
      SumMapRemove(m - {first}, k);
      SumMapRemove(m - {k}, first);
      assert m - {first} - {k} == m - {k} - {first};
    }
  }

  lemma SumMapUpdate<K>(m: map<K, int>, k: K, v: int)
    ensures SumMap(m[k := v]) == SumMap(m) + v - (if k in m then m[k] else 0)
  {
    SumMapRemove(m[k := v], k);
    assert m[k := v] - {k} == m - {k};
    if k in m {
      SumMapRemove(m, k);
    } else {
      assert m - {k} == m;
    }
  }

  lemma {:induction false} SumMapNonNegative<K>(m: map<K, int>)
    requires forall k | k in m :: 0 <= m[k]
    ensures 0 <= SumMap(m)
    decreases |m|
  {
    if m != map[] {
      var k :| k in m;
      assert (m - {k}).Keys == m.Keys - {k};
      SumMapNonNegative(m - {k});
      SumMapRemove(m, k);
    }
  }

  /** Termwise comparison of two maps over the same keys, with its case of equality. */
  lemma {:induction false} SumMapMonotone<K>(a: map<K, int>, b: map<K, int>)
    requires a.Keys == b.Keys && forall k | k in a :: a[k] <= b[k]
    ensures SumMap(a) <= SumMap(b)
    ensures SumMap(a) == SumMap(b) <==> a == b
    decreases |a|
  {
    if a == map[] {
      assert b == map[];
    } else {
      var k :| k in a;
      assert (a - {k}).Keys == a.Keys - {k} && (b - {k}).Keys == b.Keys - {k};
      SumMapMonotone(a - {k}, b - {k});
      SumMapRemove(a, k);
      SumMapRemove(b, k);
      if a - {k} == b - {k} && a[k] == b[k] {
        assert forall j | j in a :: j == k || (j in a - {k} && a[j] == (a - {k})[j] == (b - {k})[j] == b[j]);
        assert a == b;
      }
    }
  }

  /** Adding keys with value zero changes nothing. */
  lemma {:induction false} SumMapPadded<K>(m: map<K, int>, padded: map<K, int>)
    requires m.Keys <= padded.Keys
    requires forall k | k in padded :: padded[k] == if k in m then m[k] else 0
    ensures SumMap(padded) == SumMap(m)
    decreases |padded|
  {
    if padded.Keys == m.Keys {
      assert padded == m;
    } else {
      var k :| k in padded && k !in m;
      assert (padded - {k}).Keys == padded.Keys - {k};
      SumMapPadded(m, padded - {k});
      SumMapRemove(padded, k);
    }
  }

  /** Maps that balance key by key balance in total. */
  lemma {:induction false} SumMapBalance<K>(a: map<K, int>, b: map<K, int>, c: map<K, int>, d: map<K, int>)
    requires a.Keys == b.Keys == c.Keys == d.Keys && forall k | k in a :: a[k] + b[k] == c[k] + d[k]
    ensures SumMap(a) + SumMap(b) == SumMap(c) + SumMap(d)
    decreases |a|
  {
    if |a| == 0 {
      assert a == map[] && b == map[] && c == map[] && d == map[];
    } else {
      var k :| k in a;
      assert (a - {k}).Keys == a.Keys - {k} && (b - {k}).Keys == b.Keys - {k};
      assert (c - {k}).Keys == c.Keys - {k} && (d - {k}).Keys == d.Keys - {k};
      SumMapBalance(a - {k}, b - {k}, c - {k}, d - {k});
      SumMapRemove(a, k);
      SumMapRemove(b, k);
      SumMapRemove(c, k);
      SumMapRemove(d, k);
    }
  }
}
