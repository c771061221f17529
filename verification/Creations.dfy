/** Migrations that only create: tables with their indexes, dropped again table by table. alembic/versions. */
module Creations {
  import opened Outcomes
  import opened Schema
  import opened Walks

  /** An index of a known table: its name and columns. */
  type IndexSpec = (Name, seq<Name>)

  /** One `create_table`, the indexes its columns ask for, and the `create_index` calls behind it. */
  datatype Creation = Creation(table: Table, implicit: seq<IndexSpec>, indexes: seq<IndexSpec>)

  /** The `drop_index` calls of a table, in order, and the `drop_table` behind them. */
  datatype Removal = Removal(name: Name, indexes: seq<Name>)

  function On(table: Name, specs: seq<IndexSpec>): (xs: seq<Index>)
    ensures |xs| == |specs| && forall i :: 0 <= i < |specs| ==> xs[i] == Index(specs[i].0, table, specs[i].1)
  {
    seq(|specs|, i requires 0 <= i < |specs| => Index(specs[i].0, table, specs[i].1))
  }

  function IndexOps(xs: seq<Index>): seq<Op> {
    if xs == [] then [] else [CreateIndex(xs[0])] + IndexOps(xs[1..])
  }

  function TableOp(c: Creation): Op {
    CreateTable(c.table, On(c.table.name, c.implicit))
  }

  function UpOps(cs: seq<Creation>): seq<Op> {
    if cs == [] then [] else [TableOp(cs[0])] + IndexOps(On(cs[0].table.name, cs[0].indexes)) + UpOps(cs[1..])
  }

  function DropOps(name: Name, indexes: seq<Name>): seq<Op> {
    if indexes == [] then [DropTable(name)] else [DropIndex(indexes[0], name)] + DropOps(name, indexes[1..])
  }

  function DownOps(rs: seq<Removal>): seq<Op> {
    if rs == [] then [] else DropOps(rs[0].name, rs[0].indexes) + DownOps(rs[1..])
  }

  // ---- Downgrades that mirror their upgrade ----

  predicate Mirrored(c: Creation, r: Removal) {
    && c.table.name == r.name && |c.indexes| == |r.indexes|
    && forall i :: 0 <= i < |r.indexes| ==> r.indexes[i] == c.indexes[|r.indexes| - 1 - i].0
  }

  /** The removals name the same tables and indexes as the creations, in exactly the opposite order. */
  predicate AllMirrored(cs: seq<Creation>, rs: seq<Removal>) {
    |cs| == |rs| && forall i :: 0 <= i < |rs| ==> Mirrored(cs[|rs| - 1 - i], rs[i])
  }

  /** The names `drops` are those of the indexes on `name`, backwards. */
  predicate NamesBackwards(name: Name, xs: seq<Index>, drops: seq<Name>) {
    |drops| == |xs| && (forall i :: 0 <= i < |xs| ==> xs[i].table == name)
    && forall i :: 0 <= i < |drops| ==> drops[i] == xs[|drops| - 1 - i].name
  }

  lemma {:induction false} IndexOpsUndone(name: Name, xs: seq<Index>, drops: seq<Name>)
    requires NamesBackwards(name, xs, drops)
    ensures AllConstructive(IndexOps(xs))
    ensures DropOps(name, drops) == UndoProgram(IndexOps(xs)) + [DropTable(name)]
    decreases |xs|
  {
    if xs != [] {
      var n := |drops| - 1;
      IndexOpsUndone(name, xs[1..], drops[..n]);
      DropOpsSnoc(name, drops[..n], drops[n]);
      assert drops == drops[..n] + [drops[n]];
      var ops := IndexOps(xs);
      assert ops[0] == CreateIndex(xs[0]) && ops[1..] == IndexOps(xs[1..]);
      var u := UndoProgram(ops[1..]);
      assert DropOps(name, drops[..n]) == u + [DropTable(name)];
      SpliceLast(u, DropTable(name), DropIndex(drops[n], name));
    }
  }

  lemma {:induction false} SpliceLast(u: seq<Op>, last: Op, x: Op)
    ensures (u + [last])[..|u + [last]| - 1] + [x, last] == u + [x] + [last]
  {
  }

  lemma {:induction false} DropOpsSnoc(name: Name, drops: seq<Name>, x: Name)
    ensures
      var ops := DropOps(name, drops);
      ops != [] && DropOps(name, drops + [x]) == ops[..|ops| - 1] + [DropIndex(x, name), DropTable(name)]
    decreases |drops|
  {
    if drops == [] {
      assert [x][1..] == [];
      assert DropOps(name, [x]) == [DropIndex(x, name), DropTable(name)];
      assert drops + [x] == [x];
    } else {
      DropOpsSnoc(name, drops[1..], x);
      assert (drops + [x])[1..] == drops[1..] + [x];
      var rest := DropOps(name, drops[1..]);
      var all := [DropIndex(drops[0], name)] + rest;
      assert all[..|all| - 1] == [DropIndex(drops[0], name)] + rest[..|rest| - 1];
    }
  }

  lemma {:induction false} DownOpsSnoc(rs: seq<Removal>, r: Removal)
    ensures DownOps(rs + [r]) == DownOps(rs) + DropOps(r.name, r.indexes)
    decreases |rs|
  {
    if rs == [] {
      assert rs + [r] == [r] && [r][1..] == [];
    } else {
      DownOpsSnoc(rs[1..], r);
      assert (rs + [r])[1..] == rs[1..] + [r];
    }
  }

  function Block(c: Creation): seq<Op> {
    [TableOp(c)] + IndexOps(On(c.table.name, c.indexes))
  }

  lemma {:induction false} BlockUndone(c: Creation, r: Removal)
    requires Mirrored(c, r)
    ensures AllConstructive(Block(c)) && DropOps(r.name, r.indexes) == UndoProgram(Block(c))
  {
    var xs := On(c.table.name, c.indexes);
    IndexOpsUndone(r.name, xs, r.indexes);
    assert Block(c)[1..] == IndexOps(xs);
  }

  lemma {:induction false} MirrorUndoes(cs: seq<Creation>, rs: seq<Removal>)
    requires AllMirrored(cs, rs)
    ensures AllConstructive(UpOps(cs)) && DownOps(rs) == UndoProgram(UpOps(cs))
    decreases |cs|
  {
    if cs != [] {
      var n := |rs| - 1;
      MirrorUndoes(cs[1..], rs[..n]);
      assert Mirrored(cs[0], rs[n]);
      BlockUndone(cs[0], rs[n]);
      UndoConcat(Block(cs[0]), UpOps(cs[1..]));
      DownOpsSnoc(rs[..n], rs[n]);
      assert rs == rs[..n] + [rs[n]];
    }
  }

  /** Mirrored creations and removals make a reversible migration. */
  lemma {:induction false} MirrorReversible(cs: seq<Creation>, rs: seq<Removal>)
    requires AllMirrored(cs, rs)
    ensures Reversible(Migration(UpOps(cs), DownOps(rs)))
  {
    MirrorUndoes(cs, rs);
    MirrorIsReversible(Migration(UpOps(cs), DownOps(rs)));
  }

  /**
   A stretch of a migration: creations numbered from `first`, the removals that answer them, and earlier
   creations its foreign keys point at.
   */
  datatype Stage = Stage(first: Name, up: seq<Creation>, down: seq<Removal>, parents: seq<Creation>)

  function UpStages(ss: seq<Stage>): seq<Creation> {
    if ss == [] then [] else ss[0].up + UpStages(ss[1..])
  }

  function DownStages(ss: seq<Stage>): seq<Removal> {
    if ss == [] then [] else DownStages(ss[1..]) + ss[0].down
  }

  lemma {:induction false} MirroredConcat(a: seq<Creation>, ra: seq<Removal>, b: seq<Creation>, rb: seq<Removal>)
    requires AllMirrored(a, ra) && AllMirrored(b, rb)
    ensures AllMirrored(a + b, rb + ra)
  {
    forall i | 0 <= i < |rb + ra| ensures Mirrored((a + b)[|rb + ra| - 1 - i], (rb + ra)[i]) {
      if i < |rb| {
        assert Mirrored(b[|rb| - 1 - i], rb[i]);
      } else {
        assert Mirrored(a[|ra| - 1 - (i - |rb|)], ra[i - |rb|]);
      }
    }
  }

  lemma {:induction false} StagesMirrored(ss: seq<Stage>)
    requires AllOk(ss)
    ensures AllMirrored(UpStages(ss), DownStages(ss))
  {
    if ss != [] {
      assert StageOk(ss[0]);
      StagesMirrored(ss[1..]);
      MirroredConcat(ss[0].up, ss[0].down, UpStages(ss[1..]), DownStages(ss[1..]));
    }
  }

  function StagedMigration(ss: seq<Stage>): Migration {
    Migration(UpOps(UpStages(ss)), DownOps(DownStages(ss)))
  }

  lemma {:induction false} StagesReversible(ss: seq<Stage>)
    requires AllOk(ss)
    ensures Reversible(StagedMigration(ss))
  {
    StagesMirrored(ss);
    MirrorReversible(UpStages(ss), DownStages(ss));
  }

  // ---- Where a creating program runs ----

  const EMPTY := Schema([], [])

  predicate CreatesOnly(p: seq<Op>) {
    forall i :: 0 <= i < |p| ==> p[i].CreateTable? || p[i].CreateIndex?
  }

  /** No name of `d` is taken in `s`. */
  ghost predicate Disjoint(s: Schema, d: Schema) {
    && (forall t :: t in d.tables ==> !HasTable(s.tables, t.name))
    && (forall x :: x in d.indexes ==> !HasIndex(s.indexes, x.name))
  }

  function Merge(s: Schema, d: Schema): Schema {
    Schema(s.tables + d.tables, s.indexes + d.indexes)
  }

  /** `d'` holds everything `d` holds. */
  ghost predicate Extends(d: Schema, d': Schema) {
    && (forall t :: t in d.tables ==> t in d'.tables)
    && (forall x :: x in d.indexes ==> x in d'.indexes)
  }

  lemma {:induction false} RunGrows(p: seq<Op>, d: Schema)
    requires CreatesOnly(p) && RunAll(p, d).Ok?
    ensures Extends(d, RunAll(p, d).value)
    decreases |p|
  {
    if p != [] {
      assert Extends(d, Exec(p[0], d));
      RunGrows(p[1..], Exec(p[0], d));
    }
  }

  lemma {:induction false} MergedTables(s: Schema, d: Schema, n: Name, c: Name)
    ensures HasTable(Merge(s, d).tables, n) <==> HasTable(s.tables, n) || HasTable(d.tables, n)
    ensures HasColumn(Merge(s, d).tables, n, c) <==> HasColumn(s.tables, n, c) || HasColumn(d.tables, n, c)
  {
    var ts := Merge(s, d).tables;
    assert forall t :: t in ts <==> t in s.tables || t in d.tables;
  }

  lemma {:induction false} MergedIndexes(s: Schema, d: Schema, n: Name)
    ensures HasIndex(Merge(s, d).indexes, n) <==> HasIndex(s.indexes, n) || HasIndex(d.indexes, n)
  {
    assert forall x :: x in Merge(s, d).indexes <==> x in s.indexes || x in d.indexes;
  }

  lemma {:induction false} CreateTableLocal(o: Op, s: Schema, d: Schema)
    requires o.CreateTable? && Legal(o, d) && Disjoint(s, Exec(o, d))
    ensures Legal(o, Merge(s, d)) && Exec(o, Merge(s, d)) == Merge(s, Exec(o, d))
  {
    var t := o.table;
    assert t in Exec(o, d).tables;
    MergedTables(s, d, t.name, 0);
    forall r | r in t.refs ensures HasColumn(Merge(s, d).tables + [t], r.table, r.target) {
      assert HasColumn(d.tables + [t], r.table, r.target);
      MergedTables(s, Schema(d.tables + [t], []), r.table, r.target);
      assert s.tables + (d.tables + [t]) == Merge(s, d).tables + [t];
    }
    forall x | x in o.implicit ensures !HasIndex(Merge(s, d).indexes, x.name) {
      assert x in Exec(o, d).indexes;
      MergedIndexes(s, d, x.name);
    }
    assert s.tables + d.tables + [t] == s.tables + (d.tables + [t]);
    assert s.indexes + d.indexes + o.implicit == s.indexes + (d.indexes + o.implicit);
  }

  lemma {:induction false} CreateIndexLocal(o: Op, s: Schema, d: Schema)
    requires o.CreateIndex? && Legal(o, d) && Disjoint(s, Exec(o, d))
    ensures Legal(o, Merge(s, d)) && Exec(o, Merge(s, d)) == Merge(s, Exec(o, d))
  {
    var x := o.index;
    assert x in Exec(o, d).indexes;
    MergedIndexes(s, d, x.name);
    MergedTables(s, d, x.table, 0);
    forall c | c in x.columns ensures HasColumn(Merge(s, d).tables, x.table, c) {
      MergedTables(s, d, x.table, c);
    }
    assert s.indexes + d.indexes + [x] == s.indexes + (d.indexes + [x]);
  }

  lemma {:induction false} RunLocal(p: seq<Op>, s: Schema, d: Schema)
    requires CreatesOnly(p) && RunAll(p, d).Ok? && Disjoint(s, RunAll(p, d).value)
    ensures RunAll(p, Merge(s, d)) == Ok(Merge(s, RunAll(p, d).value))
    decreases |p|
  {
    if p != [] {
      RunGrows(p[1..], Exec(p[0], d));
      if p[0].CreateTable? {
        CreateTableLocal(p[0], s, d);
      } else {
        CreateIndexLocal(p[0], s, d);
      }
      RunLocal(p[1..], s, Exec(p[0], d));
    }
  }

  /** Whatever the program adds was missing wherever it runs. */
  lemma {:induction false} RunNeedsFresh(p: seq<Op>, s: Schema, d: Schema)
    requires CreatesOnly(p) && RunAll(p, d).Ok? && RunAll(p, s).Ok?
    ensures forall t :: t in RunAll(p, d).value.tables && t !in d.tables ==> !HasTable(s.tables, t.name)
    ensures forall x :: x in RunAll(p, d).value.indexes && x !in d.indexes ==> !HasIndex(s.indexes, x.name)
    decreases |p|
  {
    if p != [] {
      var s', d' := Exec(p[0], s), Exec(p[0], d);
      RunNeedsFresh(p[1..], s', d');
      MoreNames(s, s');
    }
  }

  lemma {:induction false} MoreNames(s: Schema, s': Schema)
    requires Extends(s, s')
    ensures forall n :: HasTable(s.tables, n) ==> HasTable(s'.tables, n)
    ensures forall n :: HasIndex(s.indexes, n) ==> HasIndex(s'.indexes, n)
  {
  }

  /**
   A creating program that runs on the empty schema runs on exactly those schemas that have none of its
   names, and adds to them just what it builds from nothing.
   */
  lemma {:induction false} CreationExactly(p: seq<Op>, s: Schema)
    requires CreatesOnly(p) && RunAll(p, EMPTY).Ok?
    ensures RunAll(p, s).Ok? <==> Disjoint(s, RunAll(p, EMPTY).value)
    ensures RunAll(p, s).Ok? ==> RunAll(p, s).value == Merge(s, RunAll(p, EMPTY).value)
  {
    if Disjoint(s, RunAll(p, EMPTY).value) {
      RunLocal(p, s, EMPTY);
      assert Merge(s, EMPTY) == s;
    }
    if RunAll(p, s).Ok? {
      RunNeedsFresh(p, s, EMPTY);
    }
  }

  // ---- A static check: the list runs on the empty schema ----

  predicate SpecsWithin(specs: seq<IndexSpec>, columns: seq<Name>) {
    forall k :: 0 <= k < |specs| ==> Within(specs[k].1, columns)
  }

  predicate KeysWithin(t: Table) {
    (forall k :: k in t.keys ==> Within(k, t.columns)) && forall r :: r in t.refs ==> r.column in t.columns
  }

  /** Keys, foreign keys and indexes speak of the table's own columns. */
  predicate Fitting(c: Creation) {
    KeysWithin(c.table) && SpecsWithin(c.implicit, c.table.columns) && SpecsWithin(c.indexes, c.table.columns)
  }

  /** No column of the first stretch is repeated behind it in the second. */
  predicate Differ(columns: seq<Name>, lo: nat, hi: nat, lo': nat, hi': nat)
    requires hi <= |columns| && hi' <= |columns|
  {
    forall i, j :: lo <= i < hi && lo' <= j < hi' && i < j ==> columns[i] != columns[j]
  }

  lemma {:induction false} UnrepeatedHalves(columns: seq<Name>, m: nat)
    requires m <= |columns| && Differ(columns, 0, m, 0, m)
    requires Differ(columns, m, |columns|, m, |columns|) && Differ(columns, 0, m, m, |columns|)
    ensures Unrepeated(columns)
  {
  }

  predicate WellMade(c: Creation) {
    Unrepeated(c.table.columns) && Fitting(c)
  }

  /** The indexes of a creation are numbered one after the other, from a number that tells their table. */
  predicate Owned(c: Creation) {
    && |c.implicit| + |c.indexes| <= 100
    && (forall k :: 0 <= k < |c.implicit| ==> c.implicit[k].0 == 100 * c.table.name + k)
    && (forall k :: 0 <= k < |c.indexes| ==> c.indexes[k].0 == 100 * c.table.name + |c.implicit| + k)
  }

  predicate SpecsDistinct(a: seq<IndexSpec>, b: seq<IndexSpec>) {
    && (forall j, k :: 0 <= j < k < |a| ==> a[j].0 != a[k].0)
    && (forall j, k :: 0 <= j < k < |b| ==> b[j].0 != b[k].0)
    && (forall j, k :: 0 <= j < |a| && 0 <= k < |b| ==> a[j].0 != b[k].0)
  }

  predicate SelfConsistent(c: Creation) {
    WellMade(c) && SpecsDistinct(c.implicit, c.indexes)
  }

  /** Some index of the creation is called `name`. */
  predicate Names(c: Creation, name: Name) {
    || (exists k :: 0 <= k < |c.implicit| && c.implicit[k].0 == name)
    || (exists k :: 0 <= k < |c.indexes| && c.indexes[k].0 == name)
  }

  predicate Apart(a: Creation, b: Creation) {
    && a.table.name != b.table.name
    && (forall k :: 0 <= k < |b.indexes| ==> !Names(a, b.indexes[k].0))
    && (forall k :: 0 <= k < |b.implicit| ==> !Names(a, b.implicit[k].0))
  }

  predicate RefMet(cs: seq<Creation>, k: nat, r: Ref) {
    exists j :: 0 <= j <= k < |cs| && cs[j].table.name == r.table && r.target in cs[j].table.columns
  }

  predicate AllApart(cs: seq<Creation>) {
    forall j, k :: 0 <= j < k < |cs| ==> Apart(cs[j], cs[k])
  }

  predicate AllRefsMet(cs: seq<Creation>, k: nat)
    requires k < |cs|
  {
    forall r :: r in cs[k].table.refs ==> RefMet(cs, k, r)
  }

  predicate Coherent(cs: seq<Creation>) {
    && AllApart(cs)
    && AllSelfConsistent(cs)
    && (forall k :: 0 <= k < |cs| ==> AllRefsMet(cs, k))
  }

  /** Some creation of the list has the column a foreign key points at. */
  predicate RefIn(cs: seq<Creation>, r: Ref) {
    exists p :: p in cs && p.table.name == r.table && r.target in p.table.columns
  }

  /** Foreign keys point at the given parents, at earlier creations of the list or at their own table. */
  predicate RefsFrom(parents: seq<Creation>, cs: seq<Creation>) {
    forall k, r :: 0 <= k < |cs| && r in cs[k].table.refs ==> RefIn(parents, r) || RefMet(cs, k, r)
  }

  predicate NumberedFrom(cs: seq<Creation>, first: Name) {
    forall k :: 0 <= k < |cs| ==> cs[k].table.name == first + k && Owned(cs[k])
  }

  lemma {:induction false} NumberedApart(cs: seq<Creation>, first: Name)
    requires NumberedFrom(cs, first)
    ensures AllApart(cs)
  {
    forall j, k | 0 <= j < k < |cs| ensures Apart(cs[j], cs[k]) {
      assert Owned(cs[j]) && Owned(cs[k]);
    }
  }

  lemma {:induction false} NumberedConcat(a: seq<Creation>, b: seq<Creation>, first: Name)
    requires NumberedFrom(a, first) && NumberedFrom(b, first + |a|)
    ensures NumberedFrom(a + b, first)
  {
    forall k | 0 <= k < |a + b| ensures (a + b)[k].table.name == first + k && Owned((a + b)[k]) {
      assert k >= |a| ==> (a + b)[k] == b[k - |a|];
    }
  }

  predicate AllWellMade(cs: seq<Creation>) {
    forall k :: 0 <= k < |cs| ==> WellMade(cs[k])
  }

  predicate AllSelfConsistent(cs: seq<Creation>) {
    forall k :: 0 <= k < |cs| ==> SelfConsistent(cs[k])
  }

  lemma {:induction false} RefsMetConcat(a: seq<Creation>, b: seq<Creation>, parents: seq<Creation>, k: nat)
    requires k < |b| && RefsFrom(parents, b) && forall p :: p in parents ==> p in a
    ensures AllRefsMet(a + b, |a| + k)
  {
    var cs := a + b;
    assert cs[|a| + k] == b[k];
    forall r | r in b[k].table.refs ensures RefMet(cs, |a| + k, r) {
      if RefIn(parents, r) {
        var p :| p in parents && p.table.name == r.table && r.target in p.table.columns;
        var j :| 0 <= j < |a| && a[j] == p;
        assert cs[j] == p;
      } else {
        assert RefMet(b, k, r);
        var j :| 0 <= j <= k < |b| && b[j].table.name == r.table && r.target in b[j].table.columns;
        assert cs[|a| + j] == b[j];
      }
    }
  }

  lemma {:induction false} RefsStillMet(a: seq<Creation>, b: seq<Creation>, k: nat)
    requires k < |a| && AllRefsMet(a, k)
    ensures AllRefsMet(a + b, k)
  {
    var cs := a + b;
    assert cs[k] == a[k];
    forall r | r in a[k].table.refs ensures RefMet(cs, k, r) {
      assert RefMet(a, k, r);
      var j :| 0 <= j <= k < |a| && a[j].table.name == r.table && r.target in a[j].table.columns;
      assert cs[j] == a[j];
    }
  }

  /** A further stretch, numbered on and pointing back at most at what is there, keeps a list coherent. */
  lemma {:induction false} CoherentConcat(a: seq<Creation>, b: seq<Creation>, parents: seq<Creation>, first: Name)
    requires Coherent(a) && NumberedFrom(a, first) && NumberedFrom(b, first + |a|)
    requires AllWellMade(b) && RefsFrom(parents, b) && forall p :: p in parents ==> p in a
    ensures Coherent(a + b) && NumberedFrom(a + b, first)
  {
    NumberedConcat(a, b, first);
    NumberedApart(a + b, first);
    forall k | 0 <= k < |a + b| ensures AllRefsMet(a + b, k) {
      if k < |a| {
        RefsStillMet(a, b, k);
      } else {
        RefsMetConcat(a, b, parents, k - |a|);
      }
    }
    forall k | 0 <= k < |a + b| ensures SelfConsistent((a + b)[k]) {
      if k >= |a| {
        assert (a + b)[k] == b[k - |a|] && Owned(b[k - |a|]);
      }
    }
  }

  // ---- Stretch by stretch ----

  /** Everything there is to check of one stretch by itself. */
  predicate StageOk(st: Stage) {
    && AllMirrored(st.up, st.down) && AllWellMade(st.up)
    && NumberedFrom(st.up, st.first) && RefsFrom(st.parents, st.up)
  }

  /** The stretches are numbered on from `first`, and their parents stand in earlier ones. */
  predicate InLine(ss: seq<Stage>, first: Name) {
    && (ss != [] ==> ss[0].first == first)
    && (forall k :: 0 <= k < |ss| - 1 ==> ss[k + 1].first == ss[k].first + |ss[k].up|)
    && (forall k :: 0 <= k < |ss| ==> ParentsIn(ss, k))
  }

  predicate ParentsIn(ss: seq<Stage>, k: nat)
    requires k < |ss|
  {
    forall p :: p in ss[k].parents ==> exists j :: 0 <= j < k && p in ss[j].up
  }

  predicate AllOk(ss: seq<Stage>) {
    forall k :: 0 <= k < |ss| ==> StageOk(ss[k])
  }

  lemma {:induction false} UpStagesConcat(a: seq<Stage>, b: seq<Stage>)
    ensures UpStages(a + b) == UpStages(a) + UpStages(b)
    decreases |a|
  {
    if a == [] {
      assert a + b == b;
    } else {
      assert (a + b)[0] == a[0] && (a + b)[1..] == a[1..] + b;
      UpStagesConcat(a[1..], b);
    }
  }

  lemma {:induction false} UpStagesSnoc(ss: seq<Stage>, n: nat)
    requires n < |ss|
    ensures UpStages(ss[..n + 1]) == UpStages(ss[..n]) + ss[n].up
  {
    assert ss[..n + 1] == ss[..n] + [ss[n]];
    UpStagesConcat(ss[..n], [ss[n]]);
    assert [ss[n]][1..] == [];
  }

  lemma {:induction false} UpIn(ss: seq<Stage>, n: nat, j: nat, p: Creation)
    requires j < n <= |ss| && p in ss[j].up
    ensures p in UpStages(ss[..n])
    decreases n
  {
    UpStagesSnoc(ss, n - 1);
    if j < n - 1 {
      UpIn(ss, n - 1, j, p);
    }
  }

  lemma {:induction false} NextFirst(ss: seq<Stage>, first: Name, n: nat)
    requires n < |ss| && InLine(ss, first)
    ensures ss[n].first == first + |UpStages(ss[..n])|
  {
    if n > 0 {
      NextFirst(ss, first, n - 1);
      UpStagesSnoc(ss, n - 1);
    } else {
      assert ss[..0] == [];
    }
  }

  /** Stretches that pass their own check and stand in line make one coherent list, numbered on. */
  lemma {:induction false} StagesCoherent(ss: seq<Stage>, first: Name, n: nat)
    requires n <= |ss| && InLine(ss, first) && AllOk(ss)
    ensures Coherent(UpStages(ss[..n])) && NumberedFrom(UpStages(ss[..n]), first)
  {
    if n > 0 {
      var a, st := UpStages(ss[..n - 1]), ss[n - 1];
      StagesCoherent(ss, first, n - 1);
      UpStagesSnoc(ss, n - 1);
      NextFirst(ss, first, n - 1);
      assert StageOk(st) && ParentsIn(ss, n - 1);
      forall p | p in st.parents ensures p in a {
        var j :| 0 <= j < n - 1 && p in ss[j].up;
        UpIn(ss, n - 1, j, p);
      }
      CoherentConcat(a, st.up, st.parents, first);
    } else {
      assert ss[..0] == [];
    }
  }

  /** The schema after the first `k` creations on nothing. */
  function After(cs: seq<Creation>, k: nat): Schema
    requires k <= |cs|
  {
    if k == 0 then EMPTY else AfterOne(cs[k - 1], After(cs, k - 1))
  }

  function AfterOne(c: Creation, s: Schema): Schema {
    Schema(s.tables + [c.table], s.indexes + On(c.table.name, c.implicit) + On(c.table.name, c.indexes))
  }

  lemma {:induction false} AfterTables(cs: seq<Creation>, k: nat)
    requires k <= |cs|
    ensures |After(cs, k).tables| == k && forall j :: 0 <= j < k ==> After(cs, k).tables[j] == cs[j].table
  {
    if k > 0 {
      AfterTables(cs, k - 1);
    }
  }

  lemma {:induction false} AfterIndexes(cs: seq<Creation>, k: nat, x: Index)
    requires k <= |cs| && x in After(cs, k).indexes
    ensures exists j :: 0 <= j < k && Names(cs[j], x.name)
  {
    var c, s := cs[k - 1], After(cs, k - 1);
    if x in s.indexes {
      AfterIndexes(cs, k - 1, x);
    } else {
      OnNames(c, x);
    }
  }

  lemma {:induction false} OnNames(c: Creation, x: Index)
    requires x in On(c.table.name, c.implicit) || x in On(c.table.name, c.indexes)
    ensures Names(c, x.name)
  {
    if x in On(c.table.name, c.implicit) {
      var i :| 0 <= i < |c.implicit| && On(c.table.name, c.implicit)[i] == x;
    } else {
      var i :| 0 <= i < |c.indexes| && On(c.table.name, c.indexes)[i] == x;
    }
  }

  lemma {:induction false} AfterHas(cs: seq<Creation>, k: nat, j: nat, n: Name)
    requires j < k <= |cs| && Names(cs[j], n)
    ensures HasIndex(After(cs, k).indexes, n)
  {
    var c, s, s' := cs[k - 1], After(cs, k - 1), After(cs, k);
    var implicit, explicit := On(c.table.name, c.implicit), On(c.table.name, c.indexes);
    assert forall x :: x in s'.indexes <==> x in s.indexes || x in implicit || x in explicit;
    if j < k - 1 {
      AfterHas(cs, k - 1, j, n);
    } else if i :| 0 <= i < |c.implicit| && c.implicit[i].0 == n {
      assert implicit[i] in implicit;
    } else {
      var i :| 0 <= i < |c.indexes| && c.indexes[i].0 == n;
      assert explicit[i] in explicit;
    }
  }

  /** What one creation needs of the schema it meets. */
  ghost predicate Fits(c: Creation, s: Schema) {
    && SelfConsistent(c)
    && !HasTable(s.tables, c.table.name)
    && RefsResolve(c.table, s.tables + [c.table])
    && forall n :: Names(c, n) ==> !HasIndex(s.indexes, n)
  }

  lemma {:induction false} IndexOpsRun(xs: seq<Index>, s: Schema)
    requires forall x :: x in xs ==> IndexOk(x, s.tables) && !HasIndex(s.indexes, x.name)
    requires forall i, j :: 0 <= i < j < |xs| ==> xs[i].name != xs[j].name
    ensures RunAll(IndexOps(xs), s) == Ok(s.(indexes := s.indexes + xs))
    decreases |xs|
  {
    if xs == [] {
      assert s.indexes + xs == s.indexes;
    } else {
      var x, rest := xs[0], xs[1..];
      var ops, s' := IndexOps(xs), s.(indexes := s.indexes + [xs[0]]);
      assert ops[0] == CreateIndex(x) && ops[1..] == IndexOps(rest);
      forall y | y in rest ensures IndexOk(y, s'.tables) && !HasIndex(s'.indexes, y.name) {
        RestStaysNew(xs, s.indexes, y);
      }
      IndexOpsRun(rest, s');
      assert s.indexes + [x] + rest == s.indexes + xs;
    }
  }

  lemma {:induction false} RestStaysNew(xs: seq<Index>, indexes: seq<Index>, y: Index)
    requires xs != [] && y in xs[1..]
    requires forall x :: x in xs ==> !HasIndex(indexes, x.name)
    requires forall i, j :: 0 <= i < j < |xs| ==> xs[i].name != xs[j].name
    ensures y in xs && !HasIndex(indexes + [xs[0]], y.name)
  {
    var j :| 0 <= j < |xs[1..]| && xs[1..][j] == y;
    assert xs[j + 1] == y && y in xs;
    assert forall z :: z in indexes + [xs[0]] ==> z in indexes || z == xs[0];
  }

  lemma {:induction false} TableOpRuns(c: Creation, s: Schema)
    requires Fits(c, s)
    ensures Legal(TableOp(c), s)
  {
    var xs := On(c.table.name, c.implicit);
    forall x | x in xs ensures Within(x.columns, c.table.columns) && !HasIndex(s.indexes, x.name) {
      var i :| 0 <= i < |xs| && xs[i] == x;
      assert Within(c.implicit[i].1, c.table.columns);
      OnNames(c, x);
    }
  }

  lemma {:induction false} ExplicitIndexesFit(c: Creation, s: Schema, x: Index)
    requires Fits(c, s) && x in On(c.table.name, c.indexes)
    ensures IndexOk(x, s.tables + [c.table])
    ensures !HasIndex(s.indexes + On(c.table.name, c.implicit), x.name)
  {
    var xs, ys := On(c.table.name, c.indexes), On(c.table.name, c.implicit);
    var i :| 0 <= i < |xs| && xs[i] == x;
    assert c.table in s.tables + [c.table];
    assert Within(c.indexes[i].1, c.table.columns);
    OnNames(c, x);
    forall y | y in s.indexes + ys ensures y.name != x.name {
      if y in ys {
        var j :| 0 <= j < |ys| && ys[j] == y;
      }
    }
  }

  lemma {:induction false} CreationRuns(c: Creation, rest: seq<Creation>, s: Schema)
    requires Fits(c, s)
    ensures RunAll(UpOps([c] + rest), s) == RunAll(UpOps(rest), AfterOne(c, s))
  {
    var o, xs := TableOp(c), On(c.table.name, c.indexes);
    assert ([c] + rest)[1..] == rest;
    assert UpOps([c] + rest) == [o] + (IndexOps(xs) + UpOps(rest));
    TableOpRuns(c, s);
    RunConcat([o], IndexOps(xs) + UpOps(rest), s);
    RunOne(o, s);
    forall x | x in xs ensures IndexOk(x, Exec(o, s).tables) && !HasIndex(Exec(o, s).indexes, x.name) {
      ExplicitIndexesFit(c, s, x);
    }
    IndexOpsRun(xs, Exec(o, s));
    RunConcat(IndexOps(xs), UpOps(rest), Exec(o, s));
  }

  lemma {:induction false} NextFits(cs: seq<Creation>, k: nat)
    requires AllApart(cs) && k < |cs| && SelfConsistent(cs[k]) && AllRefsMet(cs, k)
    ensures Fits(cs[k], After(cs, k))
  {
    var c, s := cs[k], After(cs, k);
    AfterTables(cs, k);
    forall t | t in s.tables ensures t.name != c.table.name {
      var j :| 0 <= j < |s.tables| && s.tables[j] == t;
      assert Apart(cs[j], c);
    }
    forall r | r in c.table.refs ensures HasColumn(s.tables + [c.table], r.table, r.target) {
      assert RefMet(cs, k, r);
      var j :| 0 <= j <= k < |cs| && cs[j].table.name == r.table && r.target in cs[j].table.columns;
      assert (s.tables + [c.table])[j] == cs[j].table;
    }
    forall n | Names(c, n) ensures !HasIndex(s.indexes, n) {
      NextNamesFree(cs, k, n);
    }
  }

  lemma {:induction false} NextNamesFree(cs: seq<Creation>, k: nat, n: Name)
    requires AllApart(cs) && k < |cs| && Names(cs[k], n)
    ensures !HasIndex(After(cs, k).indexes, n)
  {
    forall x | x in After(cs, k).indexes ensures x.name != n {
      AfterIndexes(cs, k, x);
      var j :| 0 <= j < k && Names(cs[j], x.name);
      assert Apart(cs[j], cs[k]);
    }
  }

  lemma {:induction false} CoherentStep(cs: seq<Creation>, k: nat)
    requires k < |cs| && Fits(cs[k], After(cs, k))
    ensures RunAll(UpOps(cs[k..]), After(cs, k)) == RunAll(UpOps(cs[k + 1..]), After(cs, k + 1))
  {
    var c, s, rest := cs[k], After(cs, k), cs[k + 1..];
    assert cs[k..] == [c] + rest;
    CreationRuns(c, rest, s);
    assert AfterOne(c, s) == After(cs, k + 1);
  }

  lemma {:induction false} Steady<T>(f: nat -> T, n: nat)
    requires forall k :: 0 <= k < n ==> f(k) == f(k + 1)
    ensures f(0) == f(n)
  {
    if n > 0 {
      Steady(f, n - 1);
    }
  }

  /** What is left to run from the schema after `k` creations. */
  ghost function Remaining(cs: seq<Creation>, k: nat): Result<Schema> {
    if k <= |cs| then RunAll(UpOps(cs[k..]), After(cs, k)) else Raised
  }

  lemma {:induction false} CoherentRuns(cs: seq<Creation>)
    requires Coherent(cs)
    ensures RunAll(UpOps(cs), EMPTY) == Ok(After(cs, |cs|))
  {
    forall k | 0 <= k < |cs| ensures Remaining(cs, k) == Remaining(cs, k + 1) {
      NextFits(cs, k);
      CoherentStep(cs, k);
    }
    Steady((k: nat) => Remaining(cs, k), |cs|);
    assert cs[0..] == cs && cs[|cs|..] == [];
  }

  lemma {:induction false} UpCreatesOnly(cs: seq<Creation>)
    ensures CreatesOnly(UpOps(cs))
  {
    if cs != [] {
      IndexOpsCreate(On(cs[0].table.name, cs[0].indexes));
      UpCreatesOnly(cs[1..]);
    }
  }

  lemma {:induction false} IndexOpsCreate(xs: seq<Index>)
    ensures CreatesOnly(IndexOps(xs))
  {
    if xs != [] {
      IndexOpsCreate(xs[1..]);
    }
  }

  /** The table and index names of a list of creations are all missing from the schema. */
  ghost predicate NamesFree(cs: seq<Creation>, s: Schema) {
    forall k :: 0 <= k < |cs| ==>
      !HasTable(s.tables, cs[k].table.name) && forall n :: Names(cs[k], n) ==> !HasIndex(s.indexes, n)
  }

  lemma {:induction false} NamesFreeIsDisjoint(cs: seq<Creation>, s: Schema)
    ensures NamesFree(cs, s) <==> Disjoint(s, After(cs, |cs|))
  {
    var n, d := |cs|, After(cs, |cs|);
    AfterTables(cs, n);
    if NamesFree(cs, s) {
      forall t | t in d.tables ensures !HasTable(s.tables, t.name) {
        var j :| 0 <= j < |d.tables| && d.tables[j] == t;
      }
      forall x | x in d.indexes ensures !HasIndex(s.indexes, x.name) {
        AfterIndexes(cs, n, x);
      }
    }
    if Disjoint(s, d) {
      forall k | 0 <= k < n ensures !HasTable(s.tables, cs[k].table.name) {
        assert d.tables[k] in d.tables;
      }
      forall k, i | 0 <= k < n && Names(cs[k], i) ensures !HasIndex(s.indexes, i) {
        AfterHas(cs, n, k, i);
        var x :| x in d.indexes && x.name == i;
      }
    }
  }

  /** A coherent upgrade succeeds on exactly the schemas that have none of its table and index names. */
  lemma {:induction false} CoherentExactly(cs: seq<Creation>, s: Schema)
    requires Coherent(cs)
    ensures RunAll(UpOps(cs), s).Ok? <==> NamesFree(cs, s)
    ensures RunAll(UpOps(cs), s).Ok? ==> RunAll(UpOps(cs), s).value == Merge(s, After(cs, |cs|))
  {
    CoherentRuns(cs);
    UpCreatesOnly(cs);
    CreationExactly(UpOps(cs), s);
    NamesFreeIsDisjoint(cs, s);
  }

  /**
   The same for a migration made of checked stretches: it succeeds on exactly the schemas without its names,
   adds just what it builds from nothing, and its downgrade takes just that away again.
   */
  lemma {:induction false} StagesExactly(ss: seq<Stage>, first: Name, s: Schema)
    requires InLine(ss, first) && AllOk(ss) && WellFormed(s)
    ensures
      var m, cs := StagedMigration(ss), UpStages(ss);
      && (RunAll(m.up, s).Ok? <==> NamesFree(cs, s))
      && (NamesFree(cs, s) ==> RunAll(m.up, s) == Ok(Merge(s, After(cs, |cs|))))
      && (NamesFree(cs, s) ==> RunAll(m.down, Merge(s, After(cs, |cs|))) == Ok(s))
  {
    StagesCoherent(ss, first, |ss|);
    assert ss[..|ss|] == ss;
    CoherentExactly(UpStages(ss), s);
    StagesReversible(ss);
  }
}
