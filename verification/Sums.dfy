/** Finite sums over maps and sequences of natural numbers, and how one update moves them. */
module Sums {

  ghost function MapSum<K>(m: map<K, nat>): nat
    decreases |m|
  {
    if m == map[] then 0
    else
      var k :| k in m;
      assert |m - {k}| < |m| by { SizeWithout(m, k); }
      m[k] + MapSum(m - {k})
  }

  lemma SizeWithout<K, V>(m: map<K, V>, k: K)
    requires k in m
    ensures |m - {k}| == |m| - 1
  {
    assert (m - {k}).Keys == m.Keys - {k};
    assert |m| == |m.Keys| && |m - {k}| == |(m - {k}).Keys|;
  }

  /** The sum does not depend on which key is taken out first. */
  lemma {:induction false} MapSumRemove<K>(m: map<K, nat>, k: K)
    requires k in m
    ensures MapSum(m) == m[k] + MapSum(m - {k})
    decreases |m|
  {
    var j :| j in m && MapSum(m) == m[j] + MapSum(m - {j});
    if j != k {
      SizeWithout(m, j);
      SizeWithout(m, k);
      MapSumRemove(m - {j}, k);
      MapSumRemove(m - {k}, j);
      assert m - {j} - {k} == m - {k} - {j};
    }
  }

  function At<K>(m: map<K, nat>, k: K): nat {
    if k in m then m[k] else 0
  }

  lemma MapSumUpdate<K>(m: map<K, nat>, k: K, v: nat)
    ensures MapSum(m[k := v]) + At(m, k) == MapSum(m) + v
  {
    MapSumRemove(m[k := v], k);
    if k in m {
      MapSumRemove(m, k);
      assert m[k := v] - {k} == m - {k};
    } else {
      assert m[k := v] - {k} == m;
    }
  }

  lemma MapSumWithout<K>(m: map<K, nat>, k: K)
    ensures MapSum(m - {k}) + At(m, k) == MapSum(m)
  {
    if k in m {
      MapSumRemove(m, k);
    } else {
      assert m - {k} == m;
    }
  }

  lemma MapSumAtLeast<K>(m: map<K, nat>, k: K)
    ensures At(m, k) <= MapSum(m)
  {
    MapSumWithout(m, k);
  }

  lemma MapSumAtLeastTwo<K>(m: map<K, nat>, j: K, k: K)
    requires j != k
    ensures At(m, j) + At(m, k) <= MapSum(m)
  {
    MapSumWithout(m, j);
    MapSumAtLeast(m - {j}, k);
  }

  lemma SizeWithoutAtMost<K, V>(m: map<K, V>, k: K)
    ensures |m - {k}| == |m| - (if k in m then 1 else 0)
  {
    if k in m { SizeWithout(m, k); } else { assert m - {k} == m; }
  }

  lemma SameWithout<K(!new)>(a: map<K, nat>, b: map<K, nat>, k: K)
    requires forall j :: At(a, j) == At(b, j)
    ensures forall j :: At(a - {k}, j) == At(b - {k}, j)
  {
    forall j ensures At(a - {k}, j) == At(b - {k}, j) {
      assert At(a, j) == At(b, j);
    }
  }

  /** Two maps that read the same everywhere, an absent key reading 0, have the same sum. */
  lemma {:induction false} MapSumSame<K(!new)>(a: map<K, nat>, b: map<K, nat>)
    requires forall k :: At(a, k) == At(b, k)
    ensures MapSum(a) == MapSum(b)
    decreases |a| + |b|
  {
    if k :| k in a {
      MapSumSameStep(a, b, k);
    } else if k :| k in b {
      MapSumSameStep(a, b, k);
    }
  }

  lemma {:induction false} MapSumSameStep<K(!new)>(a: map<K, nat>, b: map<K, nat>, k: K)
    requires forall j :: At(a, j) == At(b, j)
    requires k in a || k in b
    ensures MapSum(a) == MapSum(b)
    decreases |a| + |b|, 0
  {
    SizeWithoutAtMost(a, k);
    SizeWithoutAtMost(b, k);
    MapSumWithout(a, k);
    MapSumWithout(b, k);
    assert At(a, k) == At(b, k);
    SameWithout(a, b, k);
    MapSumSame(a - {k}, b - {k});
  }

  /** Sums of maps that add up pointwise add up. */
  lemma {:induction false} MapSumPlus<K(!new)>(a: map<K, nat>, b: map<K, nat>, c: map<K, nat>)
    requires forall k :: At(c, k) == At(a, k) + At(b, k)
    ensures MapSum(c) == MapSum(a) + MapSum(b)
    decreases |a|
  {
    if a == map[] {
      forall k ensures At(c, k) == At(b, k) {
        assert At(c, k) == At(a, k) + At(b, k);
      }
      MapSumSame(c, b);
    } else {
      var k :| k in a;
      SizeWithout(a, k);
      MapSumWithout(a, k);
      MapSumWithout(b, k);
      MapSumWithout(c, k);
      assert At(c, k) == At(a, k) + At(b, k);
      forall j ensures At(c - {k}, j) == At(a - {k}, j) + At(b - {k}, j) {
        assert At(c, j) == At(a, j) + At(b, j);
      }
      MapSumPlus(a - {k}, b - {k}, c - {k});
    }
  }

  /** Changing the reading at one key changes the sum by the same amount. */
  lemma MapSumChange<K(!new)>(a: map<K, nat>, b: map<K, nat>, k: K)
    requires forall j :: j != k ==> At(a, j) == At(b, j)
    ensures MapSum(a) + At(b, k) == MapSum(b) + At(a, k)
  {
    MapSumWithout(a, k);
    MapSumWithout(b, k);
    forall j ensures At(a - {k}, j) == At(b - {k}, j) {
      if j != k { assert At(a, j) == At(b, j); }
    }
    MapSumSame(a - {k}, b - {k});
  }

  function SeqSum(s: seq<nat>): nat {
    if s == [] then 0 else SeqSum(s[..|s| - 1]) + s[|s| - 1]
  }

  lemma {:induction false} SeqSumConcat(s: seq<nat>, t: seq<nat>)
    ensures SeqSum(s + t) == SeqSum(s) + SeqSum(t)
  {
    if t == [] {
      assert s + t == s;
    } else {
      assert (s + t)[..|s + t| - 1] == s + t[..|t| - 1];
      SeqSumConcat(s, t[..|t| - 1]);
    }
  }

  lemma SeqSumSplit(s: seq<nat>, i: nat)
    requires i < |s|
    ensures SeqSum(s) == SeqSum(s[..i]) + s[i] + SeqSum(s[i + 1..])
  {
    assert s == s[..i] + ([s[i]] + s[i + 1..]);
    SeqSumConcat(s[..i], [s[i]] + s[i + 1..]);
    SeqSumConcat([s[i]], s[i + 1..]);
  }

  /** Replacing one element moves the sum by the difference. */
  lemma SeqSumUpdate(s: seq<nat>, t: seq<nat>, i: nat)
    requires i < |s| == |t|
    requires forall j :: 0 <= j < |s| && j != i ==> s[j] == t[j]
    ensures SeqSum(s) + t[i] == SeqSum(t) + s[i]
  {
    SeqSumSplit(s, i);
    SeqSumSplit(t, i);
    assert s[..i] == t[..i];
    assert s[i + 1..] == t[i + 1..];
  }
}
