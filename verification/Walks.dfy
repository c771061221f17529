/** Migration programs, the chain of revisions and the commands that walk it: scripts/migrate.py. */
module Walks {
  import opened Outcomes
  import opened Schema

  // ---- Programs ----

  /** Run the operations in order; the first one the database refuses fails the whole program. */
  function RunAll(p: seq<Op>, s: Schema): Result<Schema> {
    if p == [] then Ok(s)
    else if Legal(p[0], s) then RunAll(p[1..], Exec(p[0], s))
    else Raised
  }

  predicate AllConstructive(p: seq<Op>) {
    forall i :: 0 <= i < |p| ==> Constructive(p[i])
  }

  /** Undo every operation, last one first. */
  function UndoProgram(p: seq<Op>): seq<Op>
    requires AllConstructive(p)
  {
    if p == [] then [] else UndoProgram(p[1..]) + [Undo(p[0])]
  }

  lemma {:induction false} RunConcat(p: seq<Op>, q: seq<Op>, s: Schema)
    ensures RunAll(p + q, s) == if RunAll(p, s).Ok? then RunAll(q, RunAll(p, s).value) else Raised
    decreases |p|
  {
    if p == [] {
      assert p + q == q;
    } else {
      assert (p + q)[0] == p[0] && (p + q)[1..] == p[1..] + q;
      if Legal(p[0], s) {
        RunConcat(p[1..], q, Exec(p[0], s));
      }
    }
  }

  lemma {:induction false} RunOne(o: Op, s: Schema)
    ensures RunAll([o], s) == if Legal(o, s) then Ok(Exec(o, s)) else Raised
  {
    assert [o][1..] == [];
  }

  lemma {:induction false} RunWellFormed(p: seq<Op>, s: Schema)
    requires WellFormed(s) && RunAll(p, s).Ok?
    ensures WellFormed(RunAll(p, s).value)
    decreases |p|
  {
    if p != [] {
      StaysWellFormed(p[0], s);
      RunWellFormed(p[1..], Exec(p[0], s));
    }
  }

  /** Undoing a program that ran is accepted at every step and restores the schema it started from. */
  lemma {:induction false} UndoProgramExact(p: seq<Op>, s: Schema)
    requires WellFormed(s) && AllConstructive(p) && RunAll(p, s).Ok?
    ensures RunAll(UndoProgram(p), RunAll(p, s).value) == Ok(s)
    decreases |p|
  {
    if p != [] {
      var s1 := Exec(p[0], s);
      StaysWellFormed(p[0], s);
      UndoProgramExact(p[1..], s1);
      RunConcat(UndoProgram(p[1..]), [Undo(p[0])], RunAll(p, s).value);
      UndoExact(p[0], s);
      RunOne(Undo(p[0]), s1);
    }
  }

  lemma {:induction false} UndoConcat(p: seq<Op>, q: seq<Op>)
    requires AllConstructive(p) && AllConstructive(q)
    ensures AllConstructive(p + q) && UndoProgram(p + q) == UndoProgram(q) + UndoProgram(p)
    decreases |p|
  {
    if p == [] {
      assert p + q == q && UndoProgram(q) + [] == UndoProgram(q);
    } else {
      assert (p + q)[0] == p[0] && (p + q)[1..] == p[1..] + q;
      UndoConcat(p[1..], q);
      assert UndoProgram(q) + UndoProgram(p[1..]) + [Undo(p[0])]
        == UndoProgram(q) + (UndoProgram(p[1..]) + [Undo(p[0])]);
    }
  }

  // ---- The chain ----

  datatype Migration = Migration(up: seq<Op>, down: seq<Op>)

  /** The downgrade undoes the upgrade wherever the upgrade ran. */
  ghost predicate Reversible(m: Migration) {
    forall s :: WellFormed(s) && RunAll(m.up, s).Ok? ==> RunAll(m.down, RunAll(m.up, s).value) == Ok(s)
  }

  ghost predicate AllReversible(chain: seq<Migration>) {
    forall k :: 0 <= k < |chain| ==> Reversible(chain[k])
  }

  lemma {:induction false} MirrorIsReversible(m: Migration)
    requires AllConstructive(m.up) && m.down == UndoProgram(m.up)
    ensures Reversible(m)
  {
    forall s | WellFormed(s) && RunAll(m.up, s).Ok? ensures RunAll(m.down, RunAll(m.up, s).value) == Ok(s) {
      UndoProgramExact(m.up, s);
    }
  }

  /** The schema of revision `k` when the chain is built on top of `base`. */
  function SchemaAt(chain: seq<Migration>, base: Schema, k: nat): Result<Schema>
    requires k <= |chain|
  {
    if k == 0 then Ok(base)
    else
      var before :- SchemaAt(chain, base, k - 1);
      RunAll(chain[k - 1].up, before)
  }

  lemma {:induction false} SchemaAtFacts(chain: seq<Migration>, base: Schema, j: nat, k: nat)
    requires j <= k <= |chain| && WellFormed(base) && SchemaAt(chain, base, k).Ok?
    ensures SchemaAt(chain, base, j).Ok? && WellFormed(SchemaAt(chain, base, j).value)
    decreases k
  {
    if k > 0 {
      SchemaAtFacts(chain, base, if j < k then j else k - 1, k - 1);
      if j == k {
        RunWellFormed(chain[k - 1].up, SchemaAt(chain, base, k - 1).value);
      }
    }
  }

  // ---- Commands ----

  /** Upgrade from revision `i` to revision `n`. */
  function Climb(chain: seq<Migration>, s: Schema, i: nat, n: nat): Result<Schema>
    requires i <= n <= |chain|
    decreases n - i
  {
    if i == n then Ok(s)
    else
      var next :- RunAll(chain[i].up, s);
      Climb(chain, next, i + 1, n)
  }

  /** Downgrade from revision `i` to revision `n`. */
  function Descend(chain: seq<Migration>, s: Schema, i: nat, n: nat): Result<Schema>
    requires n <= i <= |chain|
    decreases i - n
  {
    if i == n then Ok(s)
    else
      var next :- RunAll(chain[i - 1].down, s);
      Descend(chain, next, i - 1, n)
  }

  datatype Db = Db(schema: Schema, position: nat)

  datatype Command = Upgrade | Rollback(steps: int) | Reset(confirmed: bool)

  /** Where a command leads, if it can be carried out. */
  function Target(chain: seq<Migration>, position: nat, c: Command): Option<nat>
    requires position <= |chain|
  {
    match c
    case Upgrade => Some(|chain|)
    case Rollback(n) => if 1 <= n <= position then Some(position - n) else None
    case Reset(confirmed) => Some(if confirmed then 0 else position)
  }

  function Moved(chain: seq<Migration>, db: Db, to: nat): Result<Schema>
    requires db.position <= |chain| && to <= |chain|
  {
    if db.position <= to then Climb(chain, db.schema, db.position, to) else Descend(chain, db.schema, db.position, to)
  }

  /** A command runs in one transaction: it happens as a whole or leaves the database as it was. */
  function Perform(chain: seq<Migration>, db: Db, c: Command): (r: (Db, bool))
    requires db.position <= |chain|
    ensures r.0.position <= |chain|
  {
    var to := Target(chain, db.position, c);
    if to.None? then (db, false)
    else
      var moved := Moved(chain, db, to.value);
      if moved.Ok? then (Db(moved.value, to.value), true) else (db, false)
  }

  function Walk(chain: seq<Migration>, db: Db, cs: seq<Command>): (r: Db)
    requires db.position <= |chain|
    ensures r.position <= |chain|
    decreases |cs|
  {
    if cs == [] then db else Walk(chain, Perform(chain, db, cs[0]).0, cs[1..])
  }

  // ---- Every walk ----

  /** The schema is the one its revision stands for. */
  ghost predicate OnChain(chain: seq<Migration>, base: Schema, db: Db) {
    db.position <= |chain| && SchemaAt(chain, base, db.position) == Ok(db.schema)
  }

  lemma {:induction false} ClimbReaches(chain: seq<Migration>, base: Schema, i: nat, n: nat)
    requires i <= n <= |chain| && SchemaAt(chain, base, i).Ok?
    ensures Climb(chain, SchemaAt(chain, base, i).value, i, n) == SchemaAt(chain, base, n)
    decreases n - i
  {
    if i < n {
      if SchemaAt(chain, base, i + 1).Ok? {
        ClimbReaches(chain, base, i + 1, n);
      } else {
        StaysFailed(chain, base, i + 1, n);
      }
    }
  }

  lemma {:induction false} StaysFailed(chain: seq<Migration>, base: Schema, i: nat, n: nat)
    requires i <= n <= |chain| && SchemaAt(chain, base, i).Raised?
    ensures SchemaAt(chain, base, n).Raised?
    decreases n
  {
    if i < n {
      StaysFailed(chain, base, i, n - 1);
    }
  }

  /** The downgrade of revision `i` leads back to the schema of the revision before. */
  ghost predicate LeadsBack(chain: seq<Migration>, base: Schema, i: nat)
    requires 0 < i <= |chain|
  {
    && SchemaAt(chain, base, i).Ok?
    && SchemaAt(chain, base, i - 1).Ok?
    && RunAll(chain[i - 1].down, SchemaAt(chain, base, i).value) == SchemaAt(chain, base, i - 1)
  }

  lemma {:induction false} DescendSteps(chain: seq<Migration>, base: Schema, i: nat, n: nat)
    requires n <= i <= |chain| && SchemaAt(chain, base, i).Ok?
    requires forall k :: n < k <= i ==> LeadsBack(chain, base, k)
    ensures Descend(chain, SchemaAt(chain, base, i).value, i, n) == SchemaAt(chain, base, n)
    decreases i - n
  {
    if n < i {
      assert LeadsBack(chain, base, i);
      DescendOne(chain, SchemaAt(chain, base, i).value, i, n);
      DescendSteps(chain, base, i - 1, n);
    }
  }

  lemma {:induction false} DescendReaches(chain: seq<Migration>, base: Schema, i: nat, n: nat)
    requires n <= i <= |chain| && WellFormed(base) && SchemaAt(chain, base, i).Ok? && AllReversible(chain)
    ensures Descend(chain, SchemaAt(chain, base, i).value, i, n) == SchemaAt(chain, base, n)
  {
    forall k | n < k <= i ensures LeadsBack(chain, base, k) {
      SchemaAtFacts(chain, base, k, i);
      DownOne(chain, base, k);
    }
    DescendSteps(chain, base, i, n);
  }

  lemma {:induction false} DescendOne(chain: seq<Migration>, s: Schema, i: nat, n: nat)
    requires n < i <= |chain| && RunAll(chain[i - 1].down, s).Ok?
    ensures Descend(chain, s, i, n) == Descend(chain, RunAll(chain[i - 1].down, s).value, i - 1, n)
  {
  }

  lemma {:induction false} DownOne(chain: seq<Migration>, base: Schema, i: nat)
    requires 0 < i <= |chain| && WellFormed(base) && SchemaAt(chain, base, i).Ok? && AllReversible(chain)
    ensures SchemaAt(chain, base, i - 1).Ok?
    ensures RunAll(chain[i - 1].down, SchemaAt(chain, base, i).value) == SchemaAt(chain, base, i - 1)
  {
    SchemaAtFacts(chain, base, i - 1, i);
    GoesBack(chain[i - 1], SchemaAt(chain, base, i - 1).value);
  }

  lemma {:induction false} GoesBack(m: Migration, s: Schema)
    requires Reversible(m) && WellFormed(s) && RunAll(m.up, s).Ok?
    ensures RunAll(m.down, RunAll(m.up, s).value) == Ok(s)
  {
  }

  /** One command: the schema stays the one its revision stands for, and only a bad rollback count is refused. */
  lemma {:induction false} CommandStaysOnChain(chain: seq<Migration>, base: Schema, db: Db, c: Command)
    requires WellFormed(base) && SchemaAt(chain, base, |chain|).Ok? && OnChain(chain, base, db)
    requires AllReversible(chain)
    ensures OnChain(chain, base, Perform(chain, db, c).0)
    ensures Perform(chain, db, c).1 <==> (c.Rollback? ==> 1 <= c.steps <= db.position)
    ensures Perform(chain, db, c).0.position ==
              if c.Upgrade? then |chain|
              else if c.Reset? then (if c.confirmed then 0 else db.position)
              else if 1 <= c.steps <= db.position then db.position - c.steps else db.position
  {
    var to := Target(chain, db.position, c);
    if to.Some? {
      SchemaAtFacts(chain, base, to.value, |chain|);
      if db.position <= to.value {
        ClimbReaches(chain, base, db.position, to.value);
      } else {
        DescendReaches(chain, base, db.position, to.value);
      }
    }
  }

  /**
   Any walk of the chain. If one upgrade from the base to the head goes through, then after every sequence of
   upgrades, rollbacks and resets the schema is a function of the current revision alone.
   */
  lemma {:induction false} WalkStaysOnChain(chain: seq<Migration>, base: Schema, db: Db, cs: seq<Command>)
    requires WellFormed(base) && SchemaAt(chain, base, |chain|).Ok? && OnChain(chain, base, db)
    requires AllReversible(chain)
    ensures OnChain(chain, base, Walk(chain, db, cs))
    decreases |cs|
  {
    if cs != [] {
      CommandStaysOnChain(chain, base, db, cs[0]);
      WalkStaysOnChain(chain, base, Perform(chain, db, cs[0]).0, cs[1..]);
    }
  }

  /**
   Two databases that started alike and stand at the same revision have the same schema, whatever happened between.
   */
  lemma {:induction false} SameRevisionSameSchema(
    chain: seq<Migration>, base: Schema, cs: seq<Command>, ds: seq<Command>)
    requires WellFormed(base) && SchemaAt(chain, base, |chain|).Ok?
    requires AllReversible(chain)
    ensures
      var a, b := Walk(chain, Db(base, 0), cs), Walk(chain, Db(base, 0), ds);
      a.position == b.position ==> a == b
    ensures Perform(chain, Walk(chain, Db(base, 0), cs), Reset(true)) == (Db(base, 0), true)
  {
    WalkStaysOnChain(chain, base, Db(base, 0), cs);
    WalkStaysOnChain(chain, base, Db(base, 0), ds);
    CommandStaysOnChain(chain, base, Walk(chain, Db(base, 0), cs), Reset(true));
  }

  /**
   The hypothesis is the outcome of the first upgrade: it succeeds on a fresh database exactly when every revision
   exists.
   */
  lemma {:induction false} FirstUpgradeDecides(chain: seq<Migration>, base: Schema)
    ensures Perform(chain, Db(base, 0), Upgrade).1 <==> SchemaAt(chain, base, |chain|).Ok?
  {
    ClimbReaches(chain, base, 0, |chain|);
  }

  // ---- The database the commands change ----

  class Database {
    const chain: seq<Migration>
    var schema: Schema
    var position: nat

    ghost predicate Valid()
      reads this
    {
      position <= |chain|
    }

    ghost function View(): Db
      reads this
    {
      Db(schema, position)
    }

    constructor (chain: seq<Migration>, base: Schema)
      ensures Valid() && this.chain == chain && View() == Db(base, 0)
    {
      this.chain := chain;
      schema := base;
      position := 0;
    }

    /** `op` calls of one migration, in order. */
    method RunOps(ops: seq<Op>) returns (ok: bool)
      modifies this`schema
      ensures ok == RunAll(ops, old(schema)).Ok?
      ensures ok ==> schema == RunAll(ops, old(schema)).value
    {
      for i := 0 to |ops|
        invariant RunAll(ops[i..], schema) == RunAll(ops, old(schema))
      {
        if !Legal(ops[i], schema) {
          return false;
        }
        assert ops[i..][1..] == ops[i + 1..];
        schema := Exec(ops[i], schema);
      }
      ok := true;
    }

    /** `alembic upgrade head`. */
    method Migrate() returns (ok: bool)
      requires Valid()
      modifies this
      ensures Valid() && (View(), ok) == Perform(chain, old(View()), Upgrade)
    {
      var saved, start := schema, position;
      while position < |chain|
        invariant start <= position <= |chain|
        invariant Climb(chain, schema, position, |chain|) == Climb(chain, saved, start, |chain|)
      {
        ok := RunOps(chain[position].up);
        if !ok {
          schema, position := saved, start;
          return;
        }
        position := position + 1;
      }
      ok := true;
    }

    /** Walk down to `target`, restoring everything if a step fails. */
    method Down(target: nat) returns (ok: bool)
      requires Valid() && target <= position
      modifies this
      ensures Valid()
      ensures
        var r := Descend(chain, old(schema), old(position), target);
        ok == r.Ok? && View() == if ok then Db(r.value, target) else old(View())
    {
      var saved, start := schema, position;
      while position > target
        invariant target <= position <= start
        invariant Descend(chain, schema, position, target) == Descend(chain, saved, start, target)
      {
        ok := RunOps(chain[position - 1].down);
        if !ok {
          schema, position := saved, start;
          return;
        }
        position := position - 1;
      }
      ok := true;
    }

    /** `alembic downgrade -steps`. */
    method RollbackBy(steps: int) returns (ok: bool)
      requires Valid()
      modifies this
      ensures Valid() && (View(), ok) == Perform(chain, old(View()), Rollback(steps))
    {
      if steps < 1 || steps > position {
        return false;
      }
      ok := Down(position - steps);
    }

    /** `alembic downgrade base`, after the operator confirmed. */
    method ResetAll(confirmed: bool) returns (ok: bool)
      requires Valid()
      modifies this
      ensures Valid() && (View(), ok) == Perform(chain, old(View()), Reset(confirmed))
    {
      if !confirmed {
        return true;
      }
      ok := Down(0);
    }
  }
}
