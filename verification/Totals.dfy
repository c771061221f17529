/** Sums over the values of a finite map, used for every conservation law. */
module Totals {

  function Get<K>(m: map<K, nat>, k: K): nat {
    if k in m then m[k] else 0
  }

  ghost function Pick<K>(m: map<K, nat>): K
    requires m != map[]
    ensures Pick(m) in m
  {
    var k :| k in m;
    k
  }

  ghost function Total<K>(m: map<K, nat>): nat
    decreases |m|
  {
    if m == map[] then 0 else m[Pick(m)] + Total(m - {Pick(m)})
  }

  lemma {:induction false} TotalRemove<K>(m: map<K, nat>, k: K)
    requires k in m
    ensures Total(m) == m[k] + Total(m - {k})
    decreases |m|
  {
    var p := Pick(m);
    if k != p {
      TotalRemove(m - {p}, k);
      TotalRemove(m - {k}, p);
      assert m - {p} - {k} == m - {k} - {p};
    }
  }

  lemma {:induction false} TotalUpdate<K>(m: map<K, nat>, k: K, v: nat)
    ensures Total(m[k := v]) == Total(m) - Get(m, k) + v
  {
    TotalRemove(m[k := v], k);
    assert m[k := v] - {k} == m - {k};
    if k in m {
      TotalRemove(m, k);
    } else {
      assert m - {k} == m;
    }
  }

  lemma {:induction false} GetAtMostTotal<K>(m: map<K, nat>, k: K)
    ensures Get(m, k) <= Total(m)
  {
    if k in m {
      TotalRemove(m, k);
    }
  }

  lemma {:induction false} TotalZero<K>(m: map<K, nat>)
    requires forall k :: k in m ==> m[k] == 0
    ensures Total(m) == 0
    decreases |m|
  {
    if m != map[] {
      TotalZero(m - {Pick(m)});
    }
  }

  predicate Distinct<K(==)>(ks: seq<K>) {
    forall i, j :: 0 <= i < j < |ks| ==> ks[i] != ks[j]
  }

  function SumAt<K>(m: map<K, nat>, ks: seq<K>): nat {
    if ks == [] then 0 else Get(m, ks[0]) + SumAt(m, ks[1..])
  }

  /** Distinct keys are a part of the whole; all the keys that matter are the whole. */
  lemma {:induction false} SumAtPart<K>(m: map<K, nat>, ks: seq<K>)
    requires Distinct(ks)
    ensures SumAt(m, ks) <= Total(m)
    ensures (forall k :: k in m && m[k] > 0 ==> k in ks) ==> SumAt(m, ks) == Total(m)
    decreases |ks|
  {
    if ks == [] {
      if forall k :: k in m && m[k] > 0 ==> k in ks {
        TotalZero(m);
      }
    } else {
      var k, rest := ks[0], ks[1..];
      var m' := m - {k};
      SumAtPart(m', rest);
      SumAtSame(m, m', rest);
      if k in m {
        TotalRemove(m, k);
      } else {
        assert m' == m;
      }
      if forall x :: x in m && m[x] > 0 ==> x in ks {
        forall x | x in m' && m'[x] > 0 ensures x in rest {
          assert x in ks;
        }
      }
    }
  }

  lemma {:induction false} SumAtSame<K>(m: map<K, nat>, m': map<K, nat>, ks: seq<K>)
    requires forall k :: k in ks ==> Get(m, k) == Get(m', k)
    ensures SumAt(m, ks) == SumAt(m', ks)
  {
    if ks != [] {
      SumAtSame(m, m', ks[1..]);
    }
  }

  /** What the distinct keys leave over. */
  lemma {:induction false} SumAtRest<K>(m: map<K, nat>, ks: seq<K>)
    requires Distinct(ks)
    ensures Total(m) == SumAt(m, ks) + Total(m - (set k | k in ks))
    decreases |ks|
  {
    if ks == [] {
      assert m - (set k | k in ks) == m;
    } else {
      var k, rest := ks[0], ks[1..];
      var m' := m - {k};
      SumAtRest(m', rest);
      SumAtSame(m, m', rest);
      assert m - (set x | x in ks) == m' - (set x | x in rest);
      if k in m {
        TotalRemove(m, k);
      } else {
        assert m' == m;
      }
    }
  }
}
