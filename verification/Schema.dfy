/** The schema operations the migrations are written in, their legality and how each one is undone: alembic/versions. */
module Schema {
  import opened Outcomes

  /** Names of tables, columns and indexes. Nothing but their equality matters. */
  type Name = int

  /** A foreign key: own column, referenced table, referenced column. */
  datatype Ref = Ref(column: Name, table: Name, target: Name)

  /** Columns in order, key constraints (primary and unique) and foreign keys. */
  datatype Table = Table(name: Name, columns: seq<Name>, keys: seq<seq<Name>>, refs: seq<Ref>)

  datatype Index = Index(name: Name, table: Name, columns: seq<Name>)

  /** Tables and indexes in the order they were created. */
  datatype Schema = Schema(tables: seq<Table>, indexes: seq<Index>)

  datatype Op =
    | CreateTable(table: Table, implicit: seq<Index>)
    | DropTable(name: Name)
    | CreateIndex(index: Index)
    | DropIndex(name: Name, on: Name)
    | AddColumn(on: Name, column: Name)
    | DropColumn(on: Name, column: Name)
    | RenameColumn(on: Name, column: Name, renamed: Name)

  // ---- Well-formed schemas ----

  predicate HasTable(tables: seq<Table>, name: Name) {
    exists t :: t in tables && t.name == name
  }

  predicate HasColumn(tables: seq<Table>, table: Name, column: Name) {
    exists t :: t in tables && t.name == table && column in t.columns
  }

  predicate HasIndex(indexes: seq<Index>, name: Name) {
    exists x :: x in indexes && x.name == name
  }

  predicate Within(names: seq<Name>, columns: seq<Name>) {
    forall x :: x in names ==> x in columns
  }

  predicate Unrepeated(columns: seq<Name>) {
    forall i, j :: 0 <= i < j < |columns| ==> columns[i] != columns[j]
  }

  /** Keys and foreign keys of a table speak of its own columns. */
  predicate OwnColumns(t: Table) {
    && Unrepeated(t.columns)
    && (forall k :: k in t.keys ==> Within(k, t.columns))
    && (forall r :: r in t.refs ==> r.column in t.columns)
  }

  predicate RefsResolve(t: Table, tables: seq<Table>) {
    forall r :: r in t.refs ==> HasColumn(tables, r.table, r.target)
  }

  predicate IndexOk(x: Index, tables: seq<Table>) {
    HasTable(tables, x.table) && forall c :: c in x.columns ==> HasColumn(tables, x.table, c)
  }

  ghost predicate NamesUnique(s: Schema) {
    && (forall i, j :: 0 <= i < j < |s.tables| ==> s.tables[i].name != s.tables[j].name)
    && (forall i, j :: 0 <= i < j < |s.indexes| ==> s.indexes[i].name != s.indexes[j].name)
  }

  /** No dangling name: every key, foreign key and index speaks of columns that exist; table names are unique. */
  ghost predicate WellFormed(s: Schema) {
    && (forall t :: t in s.tables ==> OwnColumns(t) && RefsResolve(t, s.tables))
    && (forall x :: x in s.indexes ==> IndexOk(x, s.tables))
    && NamesUnique(s)
  }

  // ---- When the database accepts an operation ----

  predicate RefersTo(t: Table, name: Name) {
    exists r :: r in t.refs && r.table == name
  }

  predicate RefersToColumn(t: Table, name: Name, column: Name) {
    exists r :: r in t.refs && r.table == name && r.target == column
  }

  /** Indexes that may be created with table `t`. */
  predicate NewIndexes(xs: seq<Index>, t: Table, indexes: seq<Index>) {
    && (forall x :: x in xs ==> x.table == t.name && Within(x.columns, t.columns) && !HasIndex(indexes, x.name))
    && (forall i, j :: 0 <= i < j < |xs| ==> xs[i].name != xs[j].name)
  }

  predicate Legal(o: Op, s: Schema) {
    match o
    case CreateTable(t, implicit) =>
      && !HasTable(s.tables, t.name) && OwnColumns(t) && RefsResolve(t, s.tables + [t])
      && NewIndexes(implicit, t, s.indexes)
    case DropTable(n) =>
      HasTable(s.tables, n) && forall t :: t in s.tables && t.name != n ==> !RefersTo(t, n)
    case CreateIndex(x) =>
      !HasIndex(s.indexes, x.name) && IndexOk(x, s.tables)
    case DropIndex(n, t) =>
      exists x :: x in s.indexes && x.name == n && x.table == t
    case AddColumn(t, c) =>
      HasTable(s.tables, t) && !HasColumn(s.tables, t, c)
    case DropColumn(t, c) =>
      HasColumn(s.tables, t, c) && forall u :: u in s.tables ==> !RefersToColumn(u, t, c)
    case RenameColumn(t, a, b) =>
      HasColumn(s.tables, t, a) && !HasColumn(s.tables, t, b)
  }

  // ---- What it does ----

  function Sub(x: Name, a: Name, b: Name): Name {
    if x == a then b else x
  }

  function SubAll(xs: seq<Name>, a: Name, b: Name): (r: seq<Name>)
    ensures |r| == |xs| && forall i :: 0 <= i < |xs| ==> r[i] == Sub(xs[i], a, b)
  {
    seq(|xs|, i requires 0 <= i < |xs| => Sub(xs[i], a, b))
  }

  function RenameRef(r: Ref, own: bool, on: Name, a: Name, b: Name): Ref {
    Ref(if own then Sub(r.column, a, b) else r.column, r.table, if r.table == on then Sub(r.target, a, b) else r.target)
  }

  function RenameRefs(rs: seq<Ref>, own: bool, on: Name, a: Name, b: Name): (r: seq<Ref>)
    ensures |r| == |rs| && forall i :: 0 <= i < |rs| ==> r[i] == RenameRef(rs[i], own, on, a, b)
  {
    seq(|rs|, i requires 0 <= i < |rs| => RenameRef(rs[i], own, on, a, b))
  }

  function SubKeys(ks: seq<seq<Name>>, a: Name, b: Name): (r: seq<seq<Name>>)
    ensures |r| == |ks| && forall i :: 0 <= i < |ks| ==> r[i] == SubAll(ks[i], a, b)
  {
    seq(|ks|, i requires 0 <= i < |ks| => SubAll(ks[i], a, b))
  }

  /**
   One table under the renaming of a column of `on`: its own columns if it is that table, and its references to it.
   */
  function RenameInTable(t: Table, on: Name, a: Name, b: Name): Table {
    var own := t.name == on;
    Table(
      t.name,
      if own then SubAll(t.columns, a, b) else t.columns,
      if own then SubKeys(t.keys, a, b) else t.keys,
      RenameRefs(t.refs, own, on, a, b))
  }

  function RenameInIndex(x: Index, on: Name, a: Name, b: Name): Index {
    if x.table == on then x.(columns := SubAll(x.columns, a, b)) else x
  }

  function RenameTables(ts: seq<Table>, on: Name, a: Name, b: Name): (r: seq<Table>)
    ensures |r| == |ts| && forall i :: 0 <= i < |ts| ==> r[i] == RenameInTable(ts[i], on, a, b)
  {
    seq(|ts|, i requires 0 <= i < |ts| => RenameInTable(ts[i], on, a, b))
  }

  function RenameIndexes(xs: seq<Index>, on: Name, a: Name, b: Name): (r: seq<Index>)
    ensures |r| == |xs| && forall i :: 0 <= i < |xs| ==> r[i] == RenameInIndex(xs[i], on, a, b)
  {
    seq(|xs|, i requires 0 <= i < |xs| => RenameInIndex(xs[i], on, a, b))
  }

  function Rename(s: Schema, on: Name, a: Name, b: Name): Schema {
    Schema(RenameTables(s.tables, on, a, b), RenameIndexes(s.indexes, on, a, b))
  }

  function Keep<T>(xs: seq<T>, keep: T -> bool): seq<T> {
    if xs == [] then [] else Keep(xs[..|xs| - 1], keep) + if keep(xs[|xs| - 1]) then [xs[|xs| - 1]] else []
  }

  function WithColumn(t: Table, on: Name, c: Name): Table {
    if t.name == on then t.(columns := t.columns + [c]) else t
  }

  /** The table without a column and without the keys and foreign keys built on it. */
  function WithoutColumn(t: Table, on: Name, c: Name): Table {
    if t.name == on
    then Table(t.name, Keep(t.columns, x => x != c), Keep(t.keys, (k: seq<Name>) => c !in k),
               Keep(t.refs, (r: Ref) => r.column != c))
    else t
  }

  function AddToTables(ts: seq<Table>, on: Name, c: Name): (r: seq<Table>)
    ensures |r| == |ts| && forall i :: 0 <= i < |ts| ==> r[i] == WithColumn(ts[i], on, c)
  {
    seq(|ts|, i requires 0 <= i < |ts| => WithColumn(ts[i], on, c))
  }

  function DropFromTables(ts: seq<Table>, on: Name, c: Name): (r: seq<Table>)
    ensures |r| == |ts| && forall i :: 0 <= i < |ts| ==> r[i] == WithoutColumn(ts[i], on, c)
  {
    seq(|ts|, i requires 0 <= i < |ts| => WithoutColumn(ts[i], on, c))
  }

  function TablesBut(ts: seq<Table>, name: Name): seq<Table> {
    Keep(ts, (t: Table) => t.name != name)
  }

  function IndexesBut(xs: seq<Index>, name: Name): seq<Index> {
    Keep(xs, (x: Index) => x.name != name)
  }

  function IndexesOff(xs: seq<Index>, table: Name): seq<Index> {
    Keep(xs, (x: Index) => x.table != table)
  }

  function IndexesOffColumn(xs: seq<Index>, table: Name, c: Name): seq<Index> {
    Keep(xs, (x: Index) => !(x.table == table && c in x.columns))
  }

  function Exec(o: Op, s: Schema): Schema
    requires Legal(o, s)
  {
    match o
    case CreateTable(t, implicit) => Schema(s.tables + [t], s.indexes + implicit)
    case DropTable(n) => Schema(TablesBut(s.tables, n), IndexesOff(s.indexes, n))
    case CreateIndex(x) => s.(indexes := s.indexes + [x])
    case DropIndex(n, _) => s.(indexes := IndexesBut(s.indexes, n))
    case AddColumn(t, c) => s.(tables := AddToTables(s.tables, t, c))
    case DropColumn(t, c) => Schema(DropFromTables(s.tables, t, c), IndexesOffColumn(s.indexes, t, c))
    case RenameColumn(t, a, b) => Rename(s, t, a, b)
  }

  // ---- Which names there are behind an operation ----

  /** Tables come and go by creating and dropping them, and by nothing else. */
  lemma {:induction false} TablesAfter(o: Op, s: Schema, n: Name)
    requires Legal(o, s)
    ensures HasTable(Exec(o, s).tables, n) <==>
              match o
              case CreateTable(t, _) => HasTable(s.tables, n) || n == t.name
              case DropTable(name) => HasTable(s.tables, n) && n != name
              case _ => HasTable(s.tables, n)
  {
    match o
    case CreateTable(t, _) =>
      assert forall u :: u in s.tables + [t] <==> u in s.tables || u == t;
    case DropTable(name) =>
      KeepMembers(s.tables, (t: Table) => t.name != name);
    case AddColumn(on, c) => SameNames(s.tables, AddToTables(s.tables, on, c), n);
    case DropColumn(on, c) => SameNames(s.tables, DropFromTables(s.tables, on, c), n);
    case RenameColumn(on, a, b) => SameNames(s.tables, RenameTables(s.tables, on, a, b), n);
    case _ =>
  }

  lemma {:induction false} SameNames(ts: seq<Table>, us: seq<Table>, n: Name)
    requires |ts| == |us| && forall i :: 0 <= i < |ts| ==> us[i].name == ts[i].name
    ensures HasTable(us, n) <==> HasTable(ts, n)
  {
    if t :| t in ts && t.name == n {
      var i :| 0 <= i < |ts| && ts[i] == t;
      assert us[i] in us;
    }
    if u :| u in us && u.name == n {
      var i :| 0 <= i < |us| && us[i] == u;
      assert ts[i] in ts;
    }
  }

  /** Column `c` of table `n` changes as the operation says, and no other column does. */
  lemma {:induction false} ColumnsAfter(o: Op, s: Schema, n: Name, c: Name)
    requires Legal(o, s)
    ensures HasColumn(Exec(o, s).tables, n, c) <==>
              match o
              case CreateTable(t, _) => HasColumn(s.tables, n, c) || (n == t.name && c in t.columns)
              case DropTable(name) => HasColumn(s.tables, n, c) && n != name
              case AddColumn(on, added) => HasColumn(s.tables, n, c) || (n == on && c == added)
              case DropColumn(on, dropped) => HasColumn(s.tables, n, c) && !(n == on && c == dropped)
              case RenameColumn(on, a, b) => (HasColumn(s.tables, n, c) && !(n == on && c == a)) || (n == on && c == b)
              case _ => HasColumn(s.tables, n, c)
  {
    match o
    case CreateTable(t, _) =>
      assert forall u :: u in s.tables + [t] <==> u in s.tables || u == t;
    case DropTable(name) =>
      KeepMembers(s.tables, (t: Table) => t.name != name);
    case AddColumn(on, added) => AddedColumn(s.tables, on, added, n, c);
    case DropColumn(on, dropped) => DroppedColumn(s.tables, on, dropped, n, c);
    case RenameColumn(on, a, b) => RenamedNames(s.tables, on, a, b, n, c);
    case _ =>
  }

  lemma {:induction false} ColumnByColumn(ts: seq<Table>, us: seq<Table>, n: Name, c: Name)
    requires |ts| == |us|
    requires forall i :: 0 <= i < |ts| ==>
      us[i].name == ts[i].name && (ts[i].name == n ==> (c in us[i].columns <==> c in ts[i].columns))
    ensures HasColumn(us, n, c) <==> HasColumn(ts, n, c)
  {
    if t :| t in ts && t.name == n && c in t.columns {
      var i :| 0 <= i < |ts| && ts[i] == t;
      assert us[i] in us;
    }
    if u :| u in us && u.name == n && c in u.columns {
      var i :| 0 <= i < |us| && us[i] == u;
      assert ts[i] in ts;
    }
  }

  lemma {:induction false} AddedColumn(ts: seq<Table>, on: Name, added: Name, n: Name, c: Name)
    requires HasTable(ts, on)
    ensures HasColumn(AddToTables(ts, on, added), n, c) <==> HasColumn(ts, n, c) || (n == on && c == added)
  {
    var us := AddToTables(ts, on, added);
    if n == on && c == added {
      var t :| t in ts && t.name == on;
      var i :| 0 <= i < |ts| && ts[i] == t;
      assert us[i] in us && us[i].columns[|t.columns|] == added;
    } else {
      ColumnByColumn(ts, us, n, c);
    }
  }

  lemma {:induction false} DroppedColumn(ts: seq<Table>, on: Name, dropped: Name, n: Name, c: Name)
    ensures HasColumn(DropFromTables(ts, on, dropped), n, c) <==>
            HasColumn(ts, n, c) && !(n == on && c == dropped)
  {
    var us := DropFromTables(ts, on, dropped);
    forall i | 0 <= i < |ts| && ts[i].name == on
      ensures c in us[i].columns <==> c in ts[i].columns && c != dropped
    {
      KeepMembers(ts[i].columns, x => x != dropped);
    }
    if !(n == on && c == dropped) {
      ColumnByColumn(ts, us, n, c);
    }
  }

  lemma {:induction false} RenamedNames(ts: seq<Table>, on: Name, a: Name, b: Name, n: Name, c: Name)
    requires HasColumn(ts, on, a) && !HasColumn(ts, on, b)
    ensures HasColumn(RenameTables(ts, on, a, b), n, c) <==>
            (HasColumn(ts, n, c) && !(n == on && c == a)) || (n == on && c == b)
  {
    var us := RenameTables(ts, on, a, b);
    forall i | 0 <= i < |ts| && ts[i].name == on && c != b
      ensures c in us[i].columns <==> c in ts[i].columns && c != a
    {
      RenamedIn(ts[i].columns, a, b, c);
      assert ts[i] in ts;
    }
    if n == on && c == b {
      var t :| t in ts && t.name == on && a in t.columns;
      var i :| 0 <= i < |ts| && ts[i] == t;
      var k :| 0 <= k < |t.columns| && t.columns[k] == a;
      assert us[i] in us && us[i].columns[k] == b;
    } else if !(n == on && c == a) {
      ColumnByColumn(ts, us, n, c);
    }
  }

  lemma {:induction false} RenamedIn(columns: seq<Name>, a: Name, b: Name, c: Name)
    requires c != b
    ensures c in SubAll(columns, a, b) <==> c in columns && c != a
  {
    var r := SubAll(columns, a, b);
    if k :| 0 <= k < |columns| && columns[k] == c && c != a {
      assert r[k] == c;
    }
  }

  /** Indexes go with their table and with any of their columns; renames are in `RenameCarriesIndexes`. */
  lemma {:induction false} IndexesAfter(o: Op, s: Schema, x: Index)
    requires Legal(o, s) && !o.RenameColumn?
    ensures x in Exec(o, s).indexes <==>
              match o
              case CreateTable(_, implicit) => x in s.indexes || x in implicit
              case DropTable(name) => x in s.indexes && x.table != name
              case CreateIndex(y) => x in s.indexes || x == y
              case DropIndex(name, _) => x in s.indexes && x.name != name
              case DropColumn(on, c) => x in s.indexes && !(x.table == on && c in x.columns)
              case _ => x in s.indexes
  {
    match o
    case DropTable(name) => KeepMembers(s.indexes, (y: Index) => y.table != name);
    case DropIndex(name, _) => KeepMembers(s.indexes, (y: Index) => y.name != name);
    case DropColumn(on, c) => KeepMembers(s.indexes, (y: Index) => !(y.table == on && c in y.columns));
    case _ =>
  }

  // ---- Every operation keeps the schema well formed ----

  lemma {:induction false} KeepMembers<T>(xs: seq<T>, keep: T -> bool)
    ensures forall x :: x in Keep(xs, keep) <==> x in xs && keep(x)
  {
    if xs != [] {
      var front, last := xs[..|xs| - 1], xs[|xs| - 1];
      KeepMembers(front, keep);
      assert xs == front + [last];
    }
  }

  lemma {:induction false} KeepAll<T>(xs: seq<T>, keep: T -> bool)
    requires forall x :: x in xs ==> keep(x)
    ensures Keep(xs, keep) == xs
  {
    forall i | 0 <= i < |xs| ensures keep(xs[i]) {
      assert xs[i] in xs;
    }
    KeepAllAt(xs, keep);
  }

  lemma {:induction false} KeepAllAt<T>(xs: seq<T>, keep: T -> bool)
    requires forall i :: 0 <= i < |xs| ==> keep(xs[i])
    ensures Keep(xs, keep) == xs
  {
    if xs != [] {
      KeepAllAt(xs[..|xs| - 1], keep);
    }
  }

  lemma {:induction false} KeepNone<T>(xs: seq<T>, keep: T -> bool)
    requires forall x :: x in xs ==> !keep(x)
    ensures Keep(xs, keep) == []
  {
    if xs != [] {
      KeepNone(xs[..|xs| - 1], keep);
    }
  }

  lemma {:induction false} KeepOrigin<T>(xs: seq<T>, keep: T -> bool, i: nat) returns (j: nat)
    requires i < |Keep(xs, keep)|
    ensures j < |xs| && xs[j] == Keep(xs, keep)[i]
  {
    var n := |xs| - 1;
    if i < |Keep(xs[..n], keep)| {
      j := KeepOrigin(xs[..n], keep, i);
    } else {
      j := n;
    }
  }

  lemma {:induction false} KeepConcat<T>(xs: seq<T>, ys: seq<T>, keep: T -> bool)
    ensures Keep(xs + ys, keep) == Keep(xs, keep) + Keep(ys, keep)
    decreases |ys|
  {
    if ys == [] {
      assert xs + ys == xs;
    } else {
      var n := |ys| - 1;
      assert (xs + ys)[..|xs + ys| - 1] == xs + ys[..n];
      KeepConcat(xs, ys[..n], keep);
    }
  }

  lemma {:induction false} KeepSeparate<T>(xs: seq<T>, keep: T -> bool, name: T -> Name)
    requires forall i, j :: 0 <= i < j < |xs| ==> name(xs[i]) != name(xs[j])
    ensures forall i, j :: 0 <= i < j < |Keep(xs, keep)| ==> name(Keep(xs, keep)[i]) != name(Keep(xs, keep)[j])
  {
    if xs != [] {
      var front, last := xs[..|xs| - 1], xs[|xs| - 1];
      KeepSeparate(front, keep, name);
      var kept := Keep(front, keep);
      forall i | 0 <= i < |kept| ensures name(kept[i]) != name(last) {
        var j := KeepOrigin(front, keep, i);
        assert xs[j] == front[j];
      }
    }
  }

  lemma {:induction false} NamesStayUnique(o: Op, s: Schema)
    requires NamesUnique(s) && Legal(o, s)
    ensures NamesUnique(Exec(o, s))
  {
    match o
    case DropTable(n) =>
      KeepSeparate(s.tables, (t: Table) => t.name != n, (t: Table) => t.name);
      KeepSeparate(s.indexes, (x: Index) => x.table != n, (x: Index) => x.name);
    case DropIndex(n, _) =>
      KeepSeparate(s.indexes, (x: Index) => x.name != n, (x: Index) => x.name);
    case DropColumn(t, c) =>
      KeepSeparate(s.indexes, (x: Index) => !(x.table == t && c in x.columns), (x: Index) => x.name);
    case _ =>
  }

  /** Names found in some tables are found in any tables that keep them. */
  ghost predicate KeepsColumns(ts: seq<Table>, ts': seq<Table>) {
    && (forall n :: HasTable(ts, n) ==> HasTable(ts', n))
    && (forall n, c :: HasColumn(ts, n, c) ==> HasColumn(ts', n, c))
  }

  lemma {:induction false} AppendKeeps(ts: seq<Table>, t: Table)
    ensures KeepsColumns(ts, ts + [t])
  {
    forall n | HasTable(ts, n) ensures HasTable(ts + [t], n) {
      var u :| u in ts && u.name == n;
      assert u in ts + [t];
    }
    forall n, c | HasColumn(ts, n, c) ensures HasColumn(ts + [t], n, c) {
      var u :| u in ts && u.name == n && c in u.columns;
      assert u in ts + [t];
    }
  }

  lemma {:induction false} CreateTableWellFormed(o: Op, s: Schema)
    requires WellFormed(s) && o.CreateTable? && Legal(o, s)
    ensures WellFormed(Exec(o, s))
  {
    var s', t := Exec(o, s), o.table;
    AppendKeeps(s.tables, t);
    assert t in s'.tables;
    forall u | u in s'.tables ensures OwnColumns(u) && RefsResolve(u, s'.tables) {
      if u in s.tables {
        assert RefsResolve(u, s.tables);
      }
    }
    forall x | x in s'.indexes ensures IndexOk(x, s'.tables) {
      if x in s.indexes {
        assert IndexOk(x, s.tables);
      }
    }
    NamesStayUnique(o, s);
  }

  lemma {:induction false} DropTableWellFormed(o: Op, s: Schema)
    requires WellFormed(s) && o.DropTable? && Legal(o, s)
    ensures WellFormed(Exec(o, s))
  {
    var s', n := Exec(o, s), o.name;
    KeepMembers(s.tables, (t: Table) => t.name != n);
    KeepMembers(s.indexes, (x: Index) => x.table != n);
    forall m, c | m != n && HasColumn(s.tables, m, c) ensures HasColumn(s'.tables, m, c) {
      var u :| u in s.tables && u.name == m && c in u.columns;
      assert u in s'.tables;
    }
    forall u | u in s'.tables ensures OwnColumns(u) && RefsResolve(u, s'.tables) {
      assert u in s.tables && !RefersTo(u, n);
      forall r | r in u.refs ensures HasColumn(s'.tables, r.table, r.target) {
        assert HasColumn(s.tables, r.table, r.target) && r.table != n;
      }
    }
    forall x | x in s'.indexes ensures IndexOk(x, s'.tables) {
      assert IndexOk(x, s.tables) && x.table != n;
      var u :| u in s.tables && u.name == x.table;
      assert u in s'.tables;
    }
    NamesStayUnique(o, s);
  }

  lemma {:induction false} IndexOpsWellFormed(o: Op, s: Schema)
    requires WellFormed(s) && (o.CreateIndex? || o.DropIndex?) && Legal(o, s)
    ensures WellFormed(Exec(o, s))
  {
    if o.DropIndex? {
      KeepMembers(s.indexes, (x: Index) => x.name != o.name);
    }
    NamesStayUnique(o, s);
  }

  lemma {:induction false} AddColumnWellFormed(o: Op, s: Schema)
    requires WellFormed(s) && o.AddColumn? && Legal(o, s)
    ensures WellFormed(Exec(o, s))
  {
    var s' := Exec(o, s);
    assert KeepsColumns(s.tables, s'.tables) by {
      forall n | HasTable(s.tables, n) ensures HasTable(s'.tables, n) {
        var i :| 0 <= i < |s.tables| && s.tables[i].name == n;
        assert s'.tables[i] in s'.tables;
      }
      forall n, c | HasColumn(s.tables, n, c) ensures HasColumn(s'.tables, n, c) {
        var i :| 0 <= i < |s.tables| && s.tables[i].name == n && c in s.tables[i].columns;
        assert s'.tables[i] in s'.tables;
      }
    }
    forall u | u in s'.tables ensures OwnColumns(u) && RefsResolve(u, s'.tables) {
      var i :| 0 <= i < |s'.tables| && s'.tables[i] == u;
      assert s.tables[i] in s.tables;
      AddColumnTable(s.tables[i], s.tables, o.on, o.column);
      assert RefsResolve(s.tables[i], s.tables);
    }
    forall x | x in s'.indexes ensures IndexOk(x, s'.tables) {
      assert IndexOk(x, s.tables);
    }
    NamesStayUnique(o, s);
  }

  lemma {:induction false} AddColumnTable(t: Table, ts: seq<Table>, on: Name, c: Name)
    requires t in ts && OwnColumns(t) && !HasColumn(ts, on, c)
    ensures OwnColumns(WithColumn(t, on, c)) && WithColumn(t, on, c).refs == t.refs
  {
  }

  lemma {:induction false} RemainingColumns(t: Table, c: Name)
    requires Unrepeated(t.columns)
    ensures
      var columns := Keep(t.columns, x => x != c);
      Unrepeated(columns) && forall x :: x in columns <==> x in t.columns && x != c
  {
    KeepMembers(t.columns, x => x != c);
    KeepSeparate(t.columns, x => x != c, (x: Name) => x);
  }

  lemma {:induction false} RemainingRefs(t: Table, c: Name)
    ensures
      var refs := Keep(t.refs, (r: Ref) => r.column != c);
      forall r :: r in refs <==> r in t.refs && r.column != c
  {
    KeepMembers(t.refs, (r: Ref) => r.column != c);
  }

  lemma {:induction false} RemainingKeys(t: Table, c: Name)
    ensures
      var keys := Keep(t.keys, (k: seq<Name>) => c !in k);
      forall k :: k in keys <==> k in t.keys && c !in k
  {
    KeepMembers(t.keys, (k: seq<Name>) => c !in k);
  }

  lemma {:induction false} WithoutColumnFacts(t: Table, on: Name, c: Name)
    requires OwnColumns(t)
    ensures OwnColumns(WithoutColumn(t, on, c))
    ensures forall x :: x in WithoutColumn(t, on, c).columns <==> x in t.columns && !(t.name == on && x == c)
    ensures forall r :: r in WithoutColumn(t, on, c).refs ==> r in t.refs
  {
    RemainingColumns(t, c);
    RemainingRefs(t, c);
    RemainingKeys(t, c);
  }

  lemma {:induction false} DropColumnKeeps(o: Op, s: Schema, n: Name, c: Name)
    requires WellFormed(s) && o.DropColumn? && Legal(o, s) && HasColumn(s.tables, n, c) && !(n == o.on && c == o.column)
    ensures HasColumn(Exec(o, s).tables, n, c)
  {
    var s' := Exec(o, s);
    var i :| 0 <= i < |s.tables| && s.tables[i].name == n && c in s.tables[i].columns;
    assert s.tables[i] in s.tables;
    WithoutColumnFacts(s.tables[i], o.on, o.column);
    assert s'.tables[i] in s'.tables;
  }

  lemma {:induction false} DropColumnWellFormed(o: Op, s: Schema)
    requires WellFormed(s) && o.DropColumn? && Legal(o, s)
    ensures WellFormed(Exec(o, s))
  {
    var s', on, c := Exec(o, s), o.on, o.column;
    forall u | u in s'.tables ensures OwnColumns(u) && RefsResolve(u, s'.tables) {
      var i :| 0 <= i < |s'.tables| && s'.tables[i] == u;
      var t := s.tables[i];
      assert t in s.tables;
      WithoutColumnFacts(t, on, c);
      forall r | r in u.refs ensures HasColumn(s'.tables, r.table, r.target) {
        assert r in t.refs && !RefersToColumn(t, on, c);
        DropColumnKeeps(o, s, r.table, r.target);
      }
    }
    KeepMembers(s.indexes, (x: Index) => !(x.table == on && c in x.columns));
    forall x | x in s'.indexes ensures IndexOk(x, s'.tables) {
      assert IndexOk(x, s.tables);
      forall d | d in x.columns ensures HasColumn(s'.tables, x.table, d) {
        DropColumnKeeps(o, s, x.table, d);
      }
      var i :| 0 <= i < |s.tables| && s.tables[i].name == x.table;
      assert s'.tables[i] in s'.tables;
    }
    NamesStayUnique(o, s);
  }

  lemma {:induction false} SubIn(x: Name, columns: seq<Name>, a: Name, b: Name)
    requires x in columns
    ensures Sub(x, a, b) in SubAll(columns, a, b)
  {
    var j :| 0 <= j < |columns| && columns[j] == x;
    assert SubAll(columns, a, b)[j] == Sub(x, a, b);
  }

  lemma {:induction false} SubWithin(names: seq<Name>, columns: seq<Name>, a: Name, b: Name)
    requires Within(names, columns)
    ensures Within(SubAll(names, a, b), SubAll(columns, a, b))
  {
    forall x | x in SubAll(names, a, b) ensures x in SubAll(columns, a, b) {
      var i :| 0 <= i < |names| && SubAll(names, a, b)[i] == x;
      SubIn(names[i], columns, a, b);
    }
  }

  /** A column that exists keeps existing under its new name. */
  lemma {:induction false} RenamedColumn(ts: seq<Table>, on: Name, a: Name, b: Name, n: Name, c: Name)
    requires HasColumn(ts, n, c)
    ensures HasColumn(RenameTables(ts, on, a, b), n, if n == on then Sub(c, a, b) else c)
  {
    var ts' := RenameTables(ts, on, a, b);
    var i :| 0 <= i < |ts| && ts[i].name == n && c in ts[i].columns;
    assert ts'[i] in ts';
    if n == on {
      SubIn(c, ts[i].columns, a, b);
    }
  }

  lemma {:induction false} RenameInTableOwn(t: Table, on: Name, a: Name, b: Name)
    requires OwnColumns(t) && (t.name == on ==> b !in t.columns)
    ensures OwnColumns(RenameInTable(t, on, a, b))
  {
    var t' := RenameInTable(t, on, a, b);
    forall r' | r' in t'.refs ensures r'.column in t'.columns {
      var i :| 0 <= i < |t'.refs| && t'.refs[i] == r';
      assert t.refs[i] in t.refs;
      if t.name == on {
        SubIn(t.refs[i].column, t.columns, a, b);
      }
    }
    if t.name == on {
      forall k' | k' in t'.keys ensures Within(k', t'.columns) {
        var i :| 0 <= i < |t'.keys| && t'.keys[i] == k';
        assert t.keys[i] in t.keys;
        SubWithin(t.keys[i], t.columns, a, b);
      }
    }
  }

  lemma {:induction false} RenameWellFormed(o: Op, s: Schema)
    requires WellFormed(s) && o.RenameColumn? && Legal(o, s)
    ensures WellFormed(Exec(o, s))
  {
    var s', on, a, b := Exec(o, s), o.on, o.column, o.renamed;
    forall u | u in s'.tables ensures OwnColumns(u) && RefsResolve(u, s'.tables) {
      var i :| 0 <= i < |s'.tables| && s'.tables[i] == u;
      var t := s.tables[i];
      assert t in s.tables;
      RenameInTableOwn(t, on, a, b);
      forall r' | r' in u.refs ensures HasColumn(s'.tables, r'.table, r'.target) {
        var j :| 0 <= j < |u.refs| && u.refs[j] == r';
        assert t.refs[j] in t.refs;
        RenamedColumn(s.tables, on, a, b, t.refs[j].table, t.refs[j].target);
      }
    }
    forall x' | x' in s'.indexes ensures IndexOk(x', s'.tables) {
      var i :| 0 <= i < |s'.indexes| && s'.indexes[i] == x';
      RenamedIndexOk(s.indexes[i], s, on, a, b);
    }
    NamesStayUnique(o, s);
  }

  lemma {:induction false} RenamedIndexOk(x: Index, s: Schema, on: Name, a: Name, b: Name)
    requires IndexOk(x, s.tables)
    ensures IndexOk(RenameInIndex(x, on, a, b), RenameTables(s.tables, on, a, b))
  {
    var x', ts' := RenameInIndex(x, on, a, b), RenameTables(s.tables, on, a, b);
    var i :| 0 <= i < |s.tables| && s.tables[i].name == x.table;
    assert ts'[i] in ts';
    forall c' | c' in x'.columns ensures HasColumn(ts', x'.table, c') {
      var j :| 0 <= j < |x'.columns| && x'.columns[j] == c';
      RenamedColumn(s.tables, on, a, b, x.table, x.columns[j]);
    }
  }

  /** Every accepted operation keeps the schema free of dangling and repeated names. */
  lemma {:induction false} StaysWellFormed(o: Op, s: Schema)
    requires WellFormed(s) && Legal(o, s)
    ensures WellFormed(Exec(o, s))
  {
    match o
    case CreateTable(_, _) => CreateTableWellFormed(o, s);
    case DropTable(_) => DropTableWellFormed(o, s);
    case CreateIndex(_) => IndexOpsWellFormed(o, s);
    case DropIndex(_, _) => IndexOpsWellFormed(o, s);
    case AddColumn(_, _) => AddColumnWellFormed(o, s);
    case DropColumn(_, _) => DropColumnWellFormed(o, s);
    case RenameColumn(_, _, _) => RenameWellFormed(o, s);
  }

  // ---- Undoing ----

  /** The operations an upgrade is made of. */
  predicate Constructive(o: Op) {
    o.CreateTable? || o.CreateIndex? || o.AddColumn? || o.RenameColumn?
  }

  function Undo(o: Op): Op
    requires Constructive(o)
  {
    match o
    case CreateTable(t, _) => DropTable(t.name)
    case CreateIndex(x) => DropIndex(x.name, x.table)
    case AddColumn(t, c) => DropColumn(t, c)
    case RenameColumn(t, a, b) => RenameColumn(t, b, a)
  }

  lemma {:induction false} DropAppended<T>(xs: seq<T>, ys: seq<T>, keep: T -> bool)
    requires (forall x :: x in xs ==> keep(x)) && (forall y :: y in ys ==> !keep(y))
    ensures Keep(xs + ys, keep) == xs
  {
    KeepConcat(xs, ys, keep);
    KeepAll(xs, keep);
    KeepNone(ys, keep);
  }

  lemma {:induction false} UndoCreateTable(o: Op, s: Schema)
    requires WellFormed(s) && o.CreateTable? && Legal(o, s)
    ensures Legal(Undo(o), Exec(o, s)) && Exec(Undo(o), Exec(o, s)) == s
  {
    var s', n := Exec(o, s), o.table.name;
    assert o.table in s'.tables;
    forall t | t in s'.tables && t.name != n ensures !RefersTo(t, n) {
      assert t in s.tables && RefsResolve(t, s.tables);
      forall r | r in t.refs ensures r.table != n {
        assert HasColumn(s.tables, r.table, r.target);
      }
    }
    forall x | x in s.indexes ensures x.table != n {
      assert IndexOk(x, s.tables);
    }
    DropAppended(s.tables, [o.table], (t: Table) => t.name != n);
    DropAppended(s.indexes, o.implicit, (x: Index) => x.table != n);
  }

  lemma {:induction false} UndoCreateIndex(o: Op, s: Schema)
    requires o.CreateIndex? && Legal(o, s)
    ensures Legal(Undo(o), Exec(o, s)) && Exec(Undo(o), Exec(o, s)) == s
  {
    assert o.index in Exec(o, s).indexes;
    DropAppended(s.indexes, [o.index], (x: Index) => x.name != o.index.name);
  }

  lemma {:induction false} AddedColumnGoes(t: Table, on: Name, c: Name)
    requires OwnColumns(t) && (t.name == on ==> c !in t.columns)
    ensures WithoutColumn(WithColumn(t, on, c), on, c) == t
  {
    if t.name == on {
      DropAppended(t.columns, [c], x => x != c);
      forall k | k in t.keys ensures c !in k {
        assert Within(k, t.columns);
      }
      KeepAll(t.keys, (k: seq<Name>) => c !in k);
      KeepAll(t.refs, (r: Ref) => r.column != c);
    }
  }

  lemma {:induction false} UndoAddColumnLegal(o: Op, s: Schema)
    requires WellFormed(s) && o.AddColumn? && Legal(o, s)
    ensures Legal(DropColumn(o.on, o.column), Exec(o, s))
  {
    var s', on, c := Exec(o, s), o.on, o.column;
    var k :| 0 <= k < |s.tables| && s.tables[k].name == on;
    assert s'.tables[k] in s'.tables && c in s'.tables[k].columns;
    forall u | u in s'.tables ensures !RefersToColumn(u, on, c) {
      var i :| 0 <= i < |s'.tables| && s'.tables[i] == u;
      assert s.tables[i] in s.tables && u.refs == s.tables[i].refs;
      assert RefsResolve(s.tables[i], s.tables);
    }
  }

  lemma {:induction false} UndoAddColumn(o: Op, s: Schema)
    requires WellFormed(s) && o.AddColumn? && Legal(o, s)
    ensures Legal(Undo(o), Exec(o, s)) && Exec(Undo(o), Exec(o, s)) == s
  {
    var on, c := o.on, o.column;
    UndoAddColumnLegal(o, s);
    var back := DropFromTables(AddToTables(s.tables, on, c), on, c);
    forall i | 0 <= i < |s.tables| ensures back[i] == s.tables[i] {
      assert s.tables[i] in s.tables;
      AddedColumnGoes(s.tables[i], on, c);
    }
    assert back == s.tables;
    NoIndexOnNewColumn(s, on, c);
  }

  lemma {:induction false} NoIndexOnNewColumn(s: Schema, on: Name, c: Name)
    requires WellFormed(s) && !HasColumn(s.tables, on, c)
    ensures IndexesOffColumn(s.indexes, on, c) == s.indexes
  {
    forall x | x in s.indexes ensures !(x.table == on && c in x.columns) {
      assert IndexOk(x, s.tables);
    }
    KeepAll(s.indexes, (x: Index) => !(x.table == on && c in x.columns));
  }

  lemma {:induction false} SubBack(xs: seq<Name>, columns: seq<Name>, a: Name, b: Name)
    requires Within(xs, columns) && b !in columns
    ensures SubAll(SubAll(xs, a, b), b, a) == xs
  {
    forall i | 0 <= i < |xs| ensures Sub(Sub(xs[i], a, b), b, a) == xs[i] {
      assert xs[i] in xs;
    }
  }

  lemma {:induction false} RenameTableBack(t: Table, ts: seq<Table>, on: Name, a: Name, b: Name)
    requires OwnColumns(t) && RefsResolve(t, ts) && t in ts && !HasColumn(ts, on, b)
    ensures RenameInTable(RenameInTable(t, on, a, b), on, b, a) == t
  {
    var t' := RenameInTable(RenameInTable(t, on, a, b), on, b, a);
    forall i | 0 <= i < |t.refs| ensures t'.refs[i] == t.refs[i] {
      assert t.refs[i] in t.refs;
      assert HasColumn(ts, t.refs[i].table, t.refs[i].target);
    }
    if t.name == on {
      SubBack(t.columns, t.columns, a, b);
      forall i | 0 <= i < |t.keys| ensures t'.keys[i] == t.keys[i] {
        assert t.keys[i] in t.keys;
        SubBack(t.keys[i], t.columns, a, b);
      }
    }
    assert t'.refs == t.refs && t'.keys == t.keys;
  }

  lemma {:induction false} RenameIndexBack(x: Index, ts: seq<Table>, on: Name, a: Name, b: Name)
    requires IndexOk(x, ts) && !HasColumn(ts, on, b)
    ensures RenameInIndex(RenameInIndex(x, on, a, b), on, b, a) == x
  {
    if x.table == on {
      SubBack(x.columns, x.columns, a, b);
    }
  }

  lemma {:induction false} RenameUndoLegal(o: Op, s: Schema)
    requires o.RenameColumn? && Legal(o, s)
    ensures Legal(RenameColumn(o.on, o.renamed, o.column), Exec(o, s))
  {
    var ts, on, a, b := s.tables, o.on, o.column, o.renamed;
    var ts' := RenameTables(ts, on, a, b);
    RenamedColumn(ts, on, a, b, on, a);
    forall t' | t' in ts' && t'.name == on ensures a !in t'.columns {
      var i :| 0 <= i < |ts'| && ts'[i] == t';
      assert a !in SubAll(ts[i].columns, a, b) by {
        RenamedAway(ts, on, a, b);
      }
    }
  }

  lemma {:induction false} RenamedAway(ts: seq<Table>, on: Name, a: Name, b: Name)
    requires HasColumn(ts, on, a) && !HasColumn(ts, on, b)
    ensures a != b && forall xs: seq<Name> :: a !in SubAll(xs, a, b)
  {
  }

  lemma {:induction false} UndoRename(o: Op, s: Schema)
    requires WellFormed(s) && o.RenameColumn? && Legal(o, s)
    ensures Legal(Undo(o), Exec(o, s)) && Exec(Undo(o), Exec(o, s)) == s
  {
    var on, a, b := o.on, o.column, o.renamed;
    RenameUndoLegal(o, s);
    var back := Exec(Undo(o), Exec(o, s));
    forall i | 0 <= i < |s.tables| ensures back.tables[i] == s.tables[i] {
      assert s.tables[i] in s.tables;
      RenameTableBack(s.tables[i], s.tables, on, a, b);
    }
    forall i | 0 <= i < |s.indexes| ensures back.indexes[i] == s.indexes[i] {
      assert s.indexes[i] in s.indexes;
      RenameIndexBack(s.indexes[i], s.tables, on, a, b);
    }
    assert back.tables == s.tables && back.indexes == s.indexes;
  }

  /** Undoing an operation is accepted right after it and restores the schema exactly. */
  lemma {:induction false} UndoExact(o: Op, s: Schema)
    requires WellFormed(s) && Constructive(o) && Legal(o, s)
    ensures Legal(Undo(o), Exec(o, s)) && Exec(Undo(o), Exec(o, s)) == s
  {
    match o
    case CreateTable(_, _) => UndoCreateTable(o, s);
    case CreateIndex(_) => UndoCreateIndex(o, s);
    case AddColumn(_, _) => UndoAddColumn(o, s);
    case RenameColumn(_, _, _) => UndoRename(o, s);
  }

  /** Renaming a column keeps every index under its name and table, now listing the column's new name. */
  lemma {:induction false} RenameCarriesIndexes(o: Op, s: Schema, i: nat)
    requires o.RenameColumn? && Legal(o, s) && i < |s.indexes|
    ensures
      var x, x' := s.indexes[i], Exec(o, s).indexes[i];
      && |Exec(o, s).indexes| == |s.indexes| && x'.name == x.name && x'.table == x.table
      && Legal(DropIndex(x.name, x.table), Exec(o, s))
      && (x.table == o.on && o.column in x.columns ==> o.renamed in x'.columns)
  {
    var x, x' := s.indexes[i], Exec(o, s).indexes[i];
    assert x' in Exec(o, s).indexes;
    if x.table == o.on && o.column in x.columns {
      SubIn(o.column, x.columns, o.column, o.renamed);
    }
  }

  lemma {:induction false} RefRenamesCommute(x: Ref, n: Name, t: Name, a: Name, b: Name, u: Name, c: Name, d: Name)
    requires t != u
    ensures RenameRef(RenameRef(x, n == t, t, a, b), n == u, u, c, d)
         == RenameRef(RenameRef(x, n == u, u, c, d), n == t, t, a, b)
  {
  }

  lemma {:induction false} TableRenamesCommute(x: Table, t: Name, a: Name, b: Name, u: Name, c: Name, d: Name)
    requires t != u
    ensures RenameInTable(RenameInTable(x, t, a, b), u, c, d) == RenameInTable(RenameInTable(x, u, c, d), t, a, b)
  {
    var n := x.name;
    var l := RenameRefs(RenameRefs(x.refs, n == t, t, a, b), n == u, u, c, d);
    var r := RenameRefs(RenameRefs(x.refs, n == u, u, c, d), n == t, t, a, b);
    forall i | 0 <= i < |x.refs| ensures l[i] == r[i] {
      RefRenamesCommute(x.refs[i], n, t, a, b, u, c, d);
    }
    assert l == r;
  }

  /** Renames in two different tables may be done in either order. */
  lemma {:induction false} RenamesCommute(s: Schema, t: Name, a: Name, b: Name, u: Name, c: Name, d: Name)
    requires t != u
    ensures Rename(Rename(s, t, a, b), u, c, d) == Rename(Rename(s, u, c, d), t, a, b)
  {
    var l, r := Rename(Rename(s, t, a, b), u, c, d), Rename(Rename(s, u, c, d), t, a, b);
    forall i | 0 <= i < |s.tables| ensures l.tables[i] == r.tables[i] {
      TableRenamesCommute(s.tables[i], t, a, b, u, c, d);
    }
    assert l.tables == r.tables;
    assert l.indexes == r.indexes;
  }

  lemma {:induction false} RenameKeepsOtherColumns(s: Schema, t: Name, a: Name, b: Name, u: Name, c: Name)
    requires t != u
    ensures HasColumn(Rename(s, t, a, b).tables, u, c) <==> HasColumn(s.tables, u, c)
  {
    var ts, ts' := s.tables, RenameTables(s.tables, t, a, b);
    if HasColumn(ts, u, c) {
      RenamedColumn(ts, t, a, b, u, c);
    }
    if HasColumn(ts', u, c) {
      var i :| 0 <= i < |ts'| && ts'[i].name == u && c in ts'[i].columns;
      assert ts[i] in ts;
    }
  }
}
