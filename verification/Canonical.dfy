/** Python's stable `sorted(xs, key=...)` and what it forgets: scripts/verify_prsm_receipt.py. */
module Canonical {

  type Key = (int, int)

  /** Tuple comparison `a < b`. */
  predicate Before(a: Key, b: Key) {
    a.0 < b.0 || (a.0 == b.0 && a.1 < b.1)
  }

  /** Put `x` behind everything whose key is not larger. */
  function InsertLast<T>(key: T -> Key, s: seq<T>, x: T): seq<T> {
    if s == [] || !Before(key(x), key(s[|s| - 1])) then s + [x]
    else InsertLast(key, s[..|s| - 1], x) + [s[|s| - 1]]
  }

  function Sort<T>(key: T -> Key, xs: seq<T>): seq<T> {
    if xs == [] then [] else InsertLast(key, Sort(key, xs[..|xs| - 1]), xs[|xs| - 1])
  }

  ghost predicate InOrder<T>(key: T -> Key, s: seq<T>) {
    forall i, j :: 0 <= i < j < |s| ==> !Before(key(s[j]), key(s[i]))
  }

  /** The elements with key `k`, in the order they come. */
  ghost function Class<T>(key: T -> Key, xs: seq<T>, k: Key): seq<T> {
    if xs == [] then []
    else Class(key, xs[..|xs| - 1], k) + if key(xs[|xs| - 1]) == k then [xs[|xs| - 1]] else []
  }

  lemma {:induction false} ClassConcat<T>(key: T -> Key, a: seq<T>, b: seq<T>, k: Key)
    ensures Class(key, a + b, k) == Class(key, a, k) + Class(key, b, k)
  {
    if b == [] {
      assert a + b == a;
    } else {
      assert (a + b)[..|a + b| - 1] == a + b[..|b| - 1];
      ClassConcat(key, a, b[..|b| - 1], k);
    }
  }

  lemma {:induction false} ClassOne<T>(key: T -> Key, x: T, k: Key)
    ensures Class(key, [x], k) == if key(x) == k then [x] else []
  {
    assert [x][..0] == [];
  }

  lemma {:induction false} InsertElement<T>(key: T -> Key, s: seq<T>, x: T, j: nat)
    requires j < |InsertLast(key, s, x)|
    ensures InsertLast(key, s, x)[j] == x || InsertLast(key, s, x)[j] in s
    decreases |s|
  {
    if s != [] && Before(key(x), key(s[|s| - 1])) {
      var front := s[..|s| - 1];
      if j < |InsertLast(key, front, x)| {
        InsertElement(key, front, x, j);
      }
    }
  }

  lemma {:induction false} InsertFacts<T>(key: T -> Key, s: seq<T>, x: T)
    requires InOrder(key, s)
    ensures InOrder(key, InsertLast(key, s, x))
    decreases |s|
  {
    if s != [] && Before(key(x), key(s[|s| - 1])) {
      var front, last := s[..|s| - 1], s[|s| - 1];
      InsertFacts(key, front, x);
      var t := InsertLast(key, front, x);
      forall j | 0 <= j < |t| ensures !Before(key(last), key(t[j])) {
        InsertElement(key, front, x, j);
        if t[j] != x {
          var i :| 0 <= i < |front| && front[i] == t[j];
          assert s[i] == t[j];
        }
      }
    }
  }

  lemma {:induction false} InsertClass<T>(key: T -> Key, s: seq<T>, x: T, k: Key)
    requires InOrder(key, s)
    ensures Class(key, InsertLast(key, s, x), k) == Class(key, s, k) + Class(key, [x], k)
    decreases |s|
  {
    ClassOne(key, x, k);
    if s == [] || !Before(key(x), key(s[|s| - 1])) {
      ClassConcat(key, s, [x], k);
    } else {
      var front, last := s[..|s| - 1], s[|s| - 1];
      InsertClass(key, front, x, k);
      ClassConcat(key, InsertLast(key, front, x), [last], k);
      ClassOne(key, last, k);
      var c := Class(key, front, k);
      if key(last) == k {
        assert key(x) != k;
        assert c + [] == c && Class(key, s, k) + [] == Class(key, s, k);
      } else {
        assert Class(key, s, k) == c + [] == c;
        assert Class(key, InsertLast(key, front, x), k) + [] == Class(key, InsertLast(key, front, x), k);
      }
    }
  }

  /** Sorting orders by key and keeps every class as it was (stability). */
  lemma {:induction false} SortFacts<T>(key: T -> Key, xs: seq<T>)
    ensures InOrder(key, Sort(key, xs))
    ensures forall k: Key :: Class(key, Sort(key, xs), k) == Class(key, xs, k)
  {
    if xs != [] {
      var front, x := xs[..|xs| - 1], xs[|xs| - 1];
      SortFacts(key, front);
      InsertFacts(key, Sort(key, front), x);
      forall k: Key ensures Class(key, Sort(key, xs), k) == Class(key, xs, k) {
        InsertClass(key, Sort(key, front), x, k);
        ClassOne(key, x, k);
      }
    }
  }

  lemma {:induction false} ClassHas<T>(key: T -> Key, xs: seq<T>, i: nat)
    requires i < |xs|
    ensures Class(key, xs, key(xs[i])) != []
  {
    if i < |xs| - 1 {
      assert xs[..|xs| - 1][i] == xs[i];
      ClassHas(key, xs[..|xs| - 1], i);
    }
  }

  lemma {:induction false} ClassEmpty<T>(key: T -> Key, xs: seq<T>, k: Key)
    requires Class(key, xs, k) != []
    ensures exists i :: 0 <= i < |xs| && key(xs[i]) == k && xs[i] == Class(key, xs, k)[|Class(key, xs, k)| - 1]
  {
    var n := |xs| - 1;
    if key(xs[n]) != k {
      ClassEmpty(key, xs[..n], k);
      var i :| 0 <= i < |xs[..n]| && key(xs[..n][i]) == k && xs[..n][i] == Class(key, xs, k)[|Class(key, xs, k)| - 1];
      assert xs[i] == xs[..n][i];
    }
  }

  ghost predicate SameClasses<T(!new)>(key: T -> Key, xs: seq<T>, ys: seq<T>) {
    forall k: Key :: Class(key, xs, k) == Class(key, ys, k)
  }

  lemma {:induction false} LastInClass<T>(key: T -> Key, s: seq<T>)
    requires s != []
    ensures
      var x := s[|s| - 1];
      Class(key, s, key(x)) == Class(key, s[..|s| - 1], key(x)) + [x]
  {
  }

  /** The last elements agree: their keys bound each other, so they close the same class. */
  lemma {:induction false} SameLast<T(!new)>(key: T -> Key, s: seq<T>, t: seq<T>)
    requires InOrder(key, s) && InOrder(key, t) && SameClasses(key, s, t) && s != []
    ensures t != [] && s[|s| - 1] == t[|t| - 1]
  {
    var x := s[|s| - 1];
    LastInClass(key, s);
    assert Class(key, t, key(x)) == Class(key, s, key(x));
    ClassEmpty(key, t, key(x));
    var i :| 0 <= i < |t| && key(t[i]) == key(x);
    var y := t[|t| - 1];
    LastInClass(key, t);
    assert Class(key, s, key(y)) == Class(key, t, key(y));
    ClassEmpty(key, s, key(y));
    var j :| 0 <= j < |s| && key(s[j]) == key(y);
    assert !Before(key(y), key(x)) && !Before(key(x), key(y));
    assert key(x) == key(y);
    var c := Class(key, s, key(x));
    assert c[|c| - 1] == x && c[|c| - 1] == y;
  }

  lemma {:induction false} DropLastClasses<T(!new)>(key: T -> Key, s: seq<T>, t: seq<T>)
    requires SameClasses(key, s, t) && s != [] && t != [] && s[|s| - 1] == t[|t| - 1]
    ensures SameClasses(key, s[..|s| - 1], t[..|t| - 1])
  {
    var s', t', x := s[..|s| - 1], t[..|t| - 1], s[|s| - 1];
    forall k: Key ensures Class(key, s', k) == Class(key, t', k) {
      var a, b := Class(key, s', k), Class(key, t', k);
      assert Class(key, s, k) == Class(key, t, k);
      if k == key(x) {
        assert (a + [x])[..|a|] == a && (b + [x])[..|b|] == b;
      } else {
        assert a + [] == a && b + [] == b;
      }
    }
  }

  /** Ordered lists with the same classes are the same list. */
  lemma {:induction false} OrderedUnique<T(!new)>(key: T -> Key, s: seq<T>, t: seq<T>)
    requires InOrder(key, s) && InOrder(key, t) && SameClasses(key, s, t)
    ensures s == t
    decreases |s|
  {
    if s == [] {
      if t != [] {
        SameLast(key, t, s);
      }
    } else {
      SameLast(key, s, t);
      DropLastClasses(key, s, t);
      OrderedUnique(key, s[..|s| - 1], t[..|t| - 1]);
      assert s == s[..|s| - 1] + [s[|s| - 1]] && t == t[..|t| - 1] + [t[|t| - 1]];
    }
  }

  /**
   What the canonical order forgets, exactly: two lists sort to the same list if and only if, key by key,
   they hold the same elements in the same order.
   */
  lemma {:induction false} SameSortIff<T(!new)>(key: T -> Key, xs: seq<T>, ys: seq<T>)
    ensures Sort(key, xs) == Sort(key, ys) <==> SameClasses(key, xs, ys)
  {
    SortFacts(key, xs);
    SortFacts(key, ys);
    if SameClasses(key, xs, ys) {
      forall k: Key ensures Class(key, Sort(key, xs), k) == Class(key, Sort(key, ys), k) {
        assert Class(key, xs, k) == Class(key, ys, k);
      }
      OrderedUnique(key, Sort(key, xs), Sort(key, ys));
    }
    if Sort(key, xs) == Sort(key, ys) {
      forall k: Key ensures Class(key, xs, k) == Class(key, ys, k) {
        assert Class(key, Sort(key, xs), k) == Class(key, xs, k);
      }
    }
  }

  ghost predicate DistinctKeys<T>(key: T -> Key, xs: seq<T>) {
    forall i, j :: 0 <= i < j < |xs| ==> key(xs[i]) != key(xs[j])
  }

  lemma {:induction false} ClassSingle<T>(key: T -> Key, xs: seq<T>, k: Key)
    requires DistinctKeys(key, xs)
    ensures forall i :: 0 <= i < |xs| && key(xs[i]) == k ==> Class(key, xs, k) == [xs[i]]
    ensures (forall i :: 0 <= i < |xs| ==> key(xs[i]) != k) ==> Class(key, xs, k) == []
  {
    if xs != [] {
      var front, x := xs[..|xs| - 1], xs[|xs| - 1];
      ClassSingle(key, front, k);
      assert xs == front + [x];
    }
  }

  /** With distinct sort keys any permutation sorts to the same list, and only permutations do. */
  lemma {:induction false} PermutationInvariant<T(!new)>(key: T -> Key, xs: seq<T>, ys: seq<T>)
    requires DistinctKeys(key, xs) && DistinctKeys(key, ys)
    ensures Sort(key, xs) == Sort(key, ys) <==> (forall x :: x in xs <==> x in ys)
  {
    SameSortIff(key, xs, ys);
    if forall x :: x in xs <==> x in ys {
      forall k: Key ensures Class(key, xs, k) == Class(key, ys, k) {
        SameElementsSameClass(key, xs, ys, k);
      }
    }
    if Sort(key, xs) == Sort(key, ys) {
      SameClassesSameElements(key, xs, ys);
      SameClassesSameElements(key, ys, xs);
    }
  }

  lemma {:induction false} SameElementsSameClass<T>(key: T -> Key, xs: seq<T>, ys: seq<T>, k: Key)
    requires DistinctKeys(key, xs) && DistinctKeys(key, ys)
    requires forall x :: x in xs <==> x in ys
    ensures Class(key, xs, k) == Class(key, ys, k)
  {
    ClassSingle(key, xs, k);
    ClassSingle(key, ys, k);
    if Class(key, xs, k) != [] {
      ClassEmpty(key, xs, k);
      var i :| 0 <= i < |xs| && key(xs[i]) == k;
      assert xs[i] in ys;
      var j :| 0 <= j < |ys| && ys[j] == xs[i];
    } else if Class(key, ys, k) != [] {
      ClassEmpty(key, ys, k);
      var j :| 0 <= j < |ys| && key(ys[j]) == k;
      assert ys[j] in xs;
    }
  }

  lemma {:induction false} SameClassesSameElements<T(!new)>(key: T -> Key, xs: seq<T>, ys: seq<T>)
    requires DistinctKeys(key, xs) && SameClasses(key, xs, ys)
    ensures forall x :: x in xs ==> x in ys
  {
    forall x | x in xs ensures x in ys {
      var i :| 0 <= i < |xs| && xs[i] == x;
      ClassSingle(key, xs, key(x));
      assert Class(key, xs, key(x)) == [x] == Class(key, ys, key(x));
      ClassEmpty(key, ys, key(x));
    }
  }

  /** Two different entries under one key: swapping them changes the canonical list. */
  lemma {:induction false} EqualKeysMatter<T(!new)>(key: T -> Key, a: T, b: T)
    requires key(a) == key(b) && a != b
    ensures Sort(key, [a, b]) != Sort(key, [b, a])
  {
    SameSortIff(key, [a, b], [b, a]);
    var k := key(a);
    assert [a, b] == [a] + [b] && [b, a] == [b] + [a];
    ClassConcat(key, [a], [b], k);
    ClassConcat(key, [b], [a], k);
    ClassOne(key, a, k);
    ClassOne(key, b, k);
    assert Class(key, [a, b], k)[0] == a && Class(key, [b, a], k)[0] == b;
  }
}
