/** Column renames in several tables and why they may be undone in the order they were done: migration 016. */
module Renames {
  import opened Outcomes
  import opened Schema
  import opened Walks

  /** Renames only, each in another table. */
  predicate ApartRenames(p: seq<Op>) {
    && (forall i :: 0 <= i < |p| ==> p[i].RenameColumn?)
    && (forall i, j :: 0 <= i < j < |p| ==> p[i].on != p[j].on)
  }

  function UndoInOrder(p: seq<Op>): (r: seq<Op>)
    requires ApartRenames(p)
    ensures |r| == |p| && forall i :: 0 <= i < |p| ==> r[i] == Undo(p[i])
  {
    seq(|p|, i requires 0 <= i < |p| => Undo(p[i]))
  }

  /** A rename can be moved in front of or behind another one in a different table. */
  lemma {:induction false} SwapTwo(s: Schema, x: Op, y: Op)
    requires x.RenameColumn? && y.RenameColumn? && x.on != y.on && Legal(x, s)
    ensures Legal(y, Exec(x, s)) <==> Legal(y, s)
    ensures Legal(y, s) ==> Legal(x, Exec(y, s)) && Exec(y, Exec(x, s)) == Exec(x, Exec(y, s))
  {
    RenameKeepsOtherColumns(s, x.on, x.column, x.renamed, y.on, y.column);
    RenameKeepsOtherColumns(s, x.on, x.column, x.renamed, y.on, y.renamed);
    RenameKeepsOtherColumns(s, y.on, y.column, y.renamed, x.on, x.column);
    RenameKeepsOtherColumns(s, y.on, y.column, y.renamed, x.on, x.renamed);
    RenamesCommute(s, x.on, x.column, x.renamed, y.on, y.column, y.renamed);
  }

  /** Doing a rename first or last makes no difference when no other one is in its table. */
  lemma {:induction false} MoveLast(x: Op, rest: seq<Op>, s: Schema)
    requires ApartRenames([x] + rest) && Legal(x, s) && RunAll(rest, Exec(x, s)).Ok?
    ensures RunAll(rest, s).Ok? && Legal(x, RunAll(rest, s).value)
    ensures Exec(x, RunAll(rest, s).value) == RunAll(rest, Exec(x, s)).value
    decreases |rest|
  {
    if rest != [] {
      var y, tail := rest[0], rest[1..];
      assert ([x] + rest)[0] == x && ([x] + rest)[1] == y;
      SwapTwo(s, x, y);
      assert ApartRenames([x] + tail) by {
        DropSecond(x, rest);
      }
      MoveLast(x, tail, Exec(y, s));
    }
  }

  lemma {:induction false} DropSecond(x: Op, rest: seq<Op>)
    requires rest != [] && ApartRenames([x] + rest)
    ensures ApartRenames([x] + rest[1..])
  {
    var p, q := [x] + rest, [x] + rest[1..];
    assert forall i :: 0 <= i < |q| ==> q[i] == p[if i == 0 then 0 else i + 1];
  }

  /** The first rename can be undone first: what is left are the other ones. */
  lemma {:induction false} HeadUndone(x: Op, rest: seq<Op>, s: Schema)
    requires x.RenameColumn? && ApartRenames([x] + rest) && WellFormed(s)
    requires Legal(x, s) && RunAll(rest, Exec(x, s)).Ok?
    ensures RunAll(rest, s).Ok?
    ensures
      var last := RunAll(rest, Exec(x, s)).value;
      Legal(Undo(x), last) && Exec(Undo(x), last) == RunAll(rest, s).value
  {
    MoveLast(x, rest, s);
    RunWellFormed(rest, s);
    UndoExact(x, RunAll(rest, s).value);
  }

  lemma {:induction false} UndoInOrderParts(x: Op, rest: seq<Op>)
    requires x.RenameColumn? && ApartRenames([x] + rest)
    ensures ApartRenames(rest) && UndoInOrder([x] + rest) == [Undo(x)] + UndoInOrder(rest)
  {
    var p := [x] + rest;
    assert forall i :: 0 <= i < |rest| ==> rest[i] == p[i + 1];
  }

  /** Renames in different tables are undone exactly by the opposite renames in the same order. */
  lemma {:induction false} UndoneInOrder(p: seq<Op>, s: Schema)
    requires ApartRenames(p) && WellFormed(s) && RunAll(p, s).Ok?
    ensures RunAll(UndoInOrder(p), RunAll(p, s).value) == Ok(s)
    decreases |p|
  {
    if p != [] {
      var x, rest := p[0], p[1..];
      assert p == [x] + rest;
      HeadUndone(x, rest, s);
      UndoInOrderParts(x, rest);
      var undo := UndoInOrder(p);
      assert undo[0] == Undo(x) && undo[1..] == UndoInOrder(rest);
      UndoneInOrder(rest, s);
    }
  }

  lemma {:induction false} RenamesReversible(p: seq<Op>)
    requires ApartRenames(p)
    ensures Reversible(Migration(p, UndoInOrder(p)))
  {
    forall s | WellFormed(s) && RunAll(p, s).Ok? ensures RunAll(UndoInOrder(p), RunAll(p, s).value) == Ok(s) {
      UndoneInOrder(p, s);
    }
  }

  /** Renames in different tables run exactly where each of them could run alone. */
  lemma {:induction false} RenamesRunIff(p: seq<Op>, s: Schema)
    requires ApartRenames(p)
    ensures RunAll(p, s).Ok? <==> forall i :: 0 <= i < |p| ==> Legal(p[i], s)
    decreases |p|
  {
    if p != [] && Legal(p[0], s) {
      var s', rest := Exec(p[0], s), p[1..];
      RenamesRunIff(rest, s');
      forall i | 0 < i < |p| ensures Legal(p[i], s') <==> Legal(p[i], s) {
        SwapTwo(s, p[0], p[i]);
      }
      assert forall i :: 0 < i < |p| ==> p[i] == rest[i - 1];
      if forall i :: 0 <= i < |p| ==> Legal(p[i], s) {
        assert forall i :: 0 <= i < |rest| ==> rest[i] == p[i + 1];
      }
      if RunAll(p, s).Ok? {
        forall i | 0 < i < |p| ensures Legal(p[i], s) {
          assert Legal(rest[i - 1], s');
        }
      }
    }
  }

  /** After any number of renames every index still stands under its name on its table, and can be dropped by them. */
  lemma {:induction false} RenamesKeepIndexes(p: seq<Op>, s: Schema, i: nat)
    requires ApartRenames(p) && RunAll(p, s).Ok? && i < |s.indexes|
    ensures
      var xs := RunAll(p, s).value.indexes;
      |xs| == |s.indexes| && xs[i].name == s.indexes[i].name && xs[i].table == s.indexes[i].table
    decreases |p|
  {
    if p != [] {
      RenameCarriesIndexes(p[0], s, i);
      RenamesKeepIndexes(p[1..], Exec(p[0], s), i);
    }
  }

  lemma {:induction false} StillDroppable(p: seq<Op>, s: Schema, x: Index)
    requires ApartRenames(p) && RunAll(p, s).Ok? && x in s.indexes
    ensures Legal(DropIndex(x.name, x.table), RunAll(p, s).value)
  {
    var i :| 0 <= i < |s.indexes| && s.indexes[i] == x;
    RenamesKeepIndexes(p, s, i);
    assert RunAll(p, s).value.indexes[i] in RunAll(p, s).value.indexes;
  }
}
