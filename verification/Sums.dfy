/** Sums of naturals over sequences and over the values of maps. */
module Sums {
  function SumSeq(s: seq<nat>): nat {
    if s == [] then 0 else s[0] + SumSeq(s[1..])
  }

  lemma {:induction false} SumSeqAppend(a: seq<nat>, b: seq<nat>)
    ensures SumSeq(a + b) == SumSeq(a) + SumSeq(b)
  {
    if a == [] {
      assert a + b == b;
    } else {
      SumSeqAppend(a[1..], b);
      assert (a + b)[1..] == a[1..] + b;
    }
  }

  lemma {:induction false} SumSeqUpdate(s: seq<nat>, i: nat, x: nat)
    requires i < |s|
    ensures SumSeq(s[i := x]) == SumSeq(s) - s[i] + x
  {
    assert s == s[..i] + ([s[i]] + s[i + 1..]);
    assert s[i := x] == s[..i] + ([x] + s[i + 1..]);
    SumSeqAppend(s[..i], [s[i]] + s[i + 1..]);
    SumSeqAppend(s[..i], [x] + s[i + 1..]);
  }

  ghost function SumMap<K>(m: map<K, nat>): nat {
    if m == map[] then 0
    else
      var k :| k in m;
      m[k] + SumMap(m - {k})
  }

  lemma {:induction false} SumMapRemove<K>(m: map<K, nat>, k: K)
    requires k in m
    ensures SumMap(m) == m[k] + SumMap(m - {k})
    decreases |m|
  {
    var j :| j in m && SumMap(m) == m[j] + SumMap(m - {j});
    if j != k {
      SumMapRemove(m - {j}, k);
      SumMapRemove(m - {k}, j);
      assert m - {j} - {k} == m - {k} - {j};
    }
  }

  function At<K>(m: map<K, nat>, k: K): nat {
    if k in m then m[k] else 0
  }

  lemma {:induction false} SumMapUpdate<K>(m: map<K, nat>, k: K, x: nat)
    ensures SumMap(m[k := x]) == SumMap(m) - At(m, k) + x
  {
    SumMapRemove(m[k := x], k);
    assert m[k := x] - {k} == m - {k};
    if k in m {
      SumMapRemove(m, k);
    } else {
      assert m - {k} == m;
    }
  }

  lemma {:induction false} SumMapDrop<K>(m: map<K, nat>, k: K)
    ensures SumMap(m - {k}) == SumMap(m) - At(m, k)
  {
    if k in m {
      SumMapRemove(m, k);
    } else {
      assert m - {k} == m;
    }
  }
}
