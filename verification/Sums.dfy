/** Sums over the values of a finite map, and the cardinality facts the counters rest on. */
module Sums {

  ghost function AnyKey<K>(m: map<K, nat>): (k: K)
    requires m != map[]
    ensures k in m
  {
    assert m.Keys != {};
    var k :| k in m; k
  }

  /** The sum of all values of `m`. */
  ghost function Total<K>(m: map<K, nat>): nat
    decreases |m|
  {
    if m == map[] then 0
    else
      var k := AnyKey(m);
      assert (m - {k}).Keys == m.Keys - {k};
      m[k] + Total(m - {k})
  }

  /** The sum does not depend on the order in which the keys are taken. */
  lemma {:induction false} TotalRemove<K>(m: map<K, nat>, k: K)
    requires k in m
    ensures Total(m) == m[k] + Total(m - {k})
    decreases |m|
  {
    var c := AnyKey(m);
    if c != k {
      assert (m - {c}).Keys == m.Keys - {c};
      assert (m - {k}).Keys == m.Keys - {k};
      TotalRemove(m - {c}, k);
      TotalRemove(m - {k}, c);
      assert m - {c} - {k} == m - {k} - {c};
    }
  }

  lemma TotalUpdate<K>(m: map<K, nat>, k: K, v: nat)
    ensures Total(m[k := v]) == Total(m) - (if k in m then m[k] else 0) + v
  {
    TotalRemove(m[k := v], k);
    if k in m {
      TotalRemove(m, k);
      assert m[k := v] - {k} == m - {k};
    } else {
      assert m[k := v] - {k} == m;
    }
  }

  lemma {:induction false} TotalSubmap<K>(part: map<K, nat>, whole: map<K, nat>)
    requires part.Keys <= whole.Keys
    requires forall k :: k in part ==> part[k] == whole[k]
    ensures Total(part) <= Total(whole)
    decreases |part|
  {
    if part != map[] {
      var k := AnyKey(part);
      TotalRemove(part, k);
      TotalRemove(whole, k);
      assert (part - {k}).Keys == part.Keys - {k};
      TotalSubmap(part - {k}, whole - {k});
    }
  }

  lemma {:induction false} SubsetSize<T>(a: set<T>, b: set<T>)
    requires a <= b
    ensures |a| <= |b|
    ensures |a| == |b| ==> a == b
  {
    assert b == a + (b - a);
    assert |b| == |a| + |b - a|;
  }

  /** Distinct naturals in a window are no more than the window is long. */
  lemma {:induction false} WindowSize(s: set<nat>, low: nat, length: nat)
    requires forall n :: n in s ==> low < n <= low + length
    ensures |s| <= length
    decreases length
  {
    if length == 0 {
      assert s == {};
    } else {
      var last := low + length;
      WindowSize(s - {last}, low, length - 1);
      SubsetSize(s, (s - {last}) + {last});
    }
  }
}
