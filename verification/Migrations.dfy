/**
 The core migrations one by one: where each runs, what it leaves, and that its downgrade undoes it. alembic/versions.
 */
module Migrations {
  import opened Outcomes
  import opened Schema
  import opened Walks
  import opened Creations
  import opened Renames
  import opened Names
  import opened Tables
  import opened InitialTables
  import opened TableChecks

  // ---- 015: one column ----

  function Migration015(): Migration {
    Migration([AddColumn(CONTENT_PROVENANCE, PROVENANCE_HASH)], [DropColumn(CONTENT_PROVENANCE, PROVENANCE_HASH)])
  }

  /** 015 runs exactly where its table exists without the column, and the downgrade takes the column away again. */
  lemma {:induction false} Exactly015(s: Schema)
    ensures RunAll(Migration015().up, s).Ok? <==>
            HasTable(s.tables, CONTENT_PROVENANCE) && !HasColumn(s.tables, CONTENT_PROVENANCE, PROVENANCE_HASH)
    ensures Reversible(Migration015())
  {
    var m := Migration015();
    RunOne(m.up[0], s);
    assert m.up[1..] == [];
    assert UndoProgram(m.up) == m.down;
    MirrorIsReversible(m);
  }

  // ---- 016: three renames, undone in the order they were done ----

  function ContentCid(table: Name): Op {
    RenameColumn(table, IPFS_CID, CONTENT_CID)
  }

  function IpfsCid(table: Name): Op {
    RenameColumn(table, CONTENT_CID, IPFS_CID)
  }

  function Migration016(): Migration {
    Migration([ContentCid(FTNS_TRANSACTIONS), ContentCid(TEACHER_MODELS), ContentCid(MODEL_REGISTRY)],
              [IpfsCid(FTNS_TRANSACTIONS), IpfsCid(TEACHER_MODELS), IpfsCid(MODEL_REGISTRY)])
  }

  predicate Renamable(s: Schema, table: Name) {
    HasColumn(s.tables, table, IPFS_CID) && !HasColumn(s.tables, table, CONTENT_CID)
  }

  lemma {:induction false} ApartRenames016()
    ensures ApartRenames(Migration016().up) && UndoInOrder(Migration016().up) == Migration016().down
  {
  }

  lemma {:induction false} Runs016(s: Schema)
    ensures RunAll(Migration016().up, s).Ok? <==>
            Renamable(s, FTNS_TRANSACTIONS) && Renamable(s, TEACHER_MODELS) && Renamable(s, MODEL_REGISTRY)
  {
    ApartRenames016();
    ThreeRenames(s, ContentCid(FTNS_TRANSACTIONS), ContentCid(TEACHER_MODELS), ContentCid(MODEL_REGISTRY));
  }

  lemma {:induction false} ThreeRenames(s: Schema, x: Op, y: Op, z: Op)
    requires ApartRenames([x, y, z])
    ensures RunAll([x, y, z], s).Ok? <==> Legal(x, s) && Legal(y, s) && Legal(z, s)
  {
    var p := [x, y, z];
    RenamesRunIff(p, s);
    assert Legal(p[0], s) && Legal(p[1], s) && Legal(p[2], s) <==> forall i :: 0 <= i < |p| ==> Legal(p[i], s);
  }

  /**
   016 runs exactly where all three columns can be renamed, its downgrade restores the schema although it
   does not run backwards, and every index keeps its name and table, so it can still be dropped by them.
   */
  lemma {:induction false} Exactly016(s: Schema)
    ensures RunAll(Migration016().up, s).Ok? <==>
            Renamable(s, FTNS_TRANSACTIONS) && Renamable(s, TEACHER_MODELS) && Renamable(s, MODEL_REGISTRY)
    ensures Reversible(Migration016())
    ensures RunAll(Migration016().up, s).Ok? ==> forall x :: x in s.indexes ==>
              Legal(DropIndex(x.name, x.table), RunAll(Migration016().up, s).value)
  {
    ApartRenames016();
    RenamesReversible(Migration016().up);
    Runs016(s);
    if RunAll(Migration016().up, s).Ok? {
      forall x | x in s.indexes ensures Legal(DropIndex(x.name, x.table), RunAll(Migration016().up, s).value) {
        StillDroppable(Migration016().up, s, x);
      }
    }
  }

  // ---- Creating migrations: the initial one, 011, 013 and 014 ----

  /** Where a creating migration runs, what it leaves and what its downgrade restores. */
  ghost predicate CreatesExactly(ss: seq<Stage>, s: Schema) {
    var m, cs := StagedMigration(ss), UpStages(ss);
    && (RunAll(m.up, s).Ok? <==> NamesFree(cs, s))
    && (NamesFree(cs, s) ==> RunAll(m.up, s) == Ok(Merge(s, After(cs, |cs|))))
    && (NamesFree(cs, s) ==> RunAll(m.down, Merge(s, After(cs, |cs|))) == Ok(s))
  }

  function InitialStages(): seq<Stage> {
    [StageAccounts(), StageModels(), StageReasoning(), StageTeamWork(), StagePayments()]
  }

  lemma {:induction false} FiveStages(a: Stage, b: Stage, c: Stage, d: Stage, e: Stage, s: Schema)
    requires StageOk(a) && StageOk(b) && StageOk(c) && StageOk(d) && StageOk(e) && InLine([a, b, c, d, e], a.first)
    requires WellFormed(s)
    ensures CreatesExactly([a, b, c, d, e], s)
  {
    StagesExactly([a, b, c, d, e], a.first, s);
  }

  lemma {:induction false} InitialInLine()
    ensures InLine(InitialStages(), 0)
  {
    assert PrsmSessions() in StageModels().up && Teams() in StageModels().up;
    assert InitialStages()[1] == StageModels();
  }

  /**
   The initial migration runs on exactly the schemas without its names, adds its 19 tables, and takes just them away.
   */
  lemma {:induction false} ExactlyInitial(ss: seq<Stage>, s: Schema)
    requires ss == InitialStages() && WellFormed(s)
    ensures CreatesExactly(ss, s)
  {
    OkAccounts();
    OkModels();
    OkReasoning();
    OkTeamWork();
    OkPayments();
    InitialInLine();
    FiveStages(StageAccounts(), StageModels(), StageReasoning(), StageTeamWork(), StagePayments(), s);
  }

  lemma {:induction false} OneStage(st: Stage, s: Schema)
    requires StageOk(st) && st.parents == [] && WellFormed(s)
    ensures CreatesExactly([st], s)
  {
    StagesExactly([st], st.first, s);
  }

  lemma {:induction false} Exactly011(ss: seq<Stage>, s: Schema)
    requires ss == [Stage011()] && WellFormed(s)
    ensures CreatesExactly(ss, s)
  {
    Ok011();
    OneStage(Stage011(), s);
  }

  lemma {:induction false} Exactly013(ss: seq<Stage>, s: Schema)
    requires ss == [Stage013()] && WellFormed(s)
    ensures CreatesExactly(ss, s)
  {
    Ok013();
    OneStage(Stage013(), s);
  }

  lemma {:induction false} Exactly014(ss: seq<Stage>, s: Schema)
    requires ss == [Stage014()] && WellFormed(s)
    ensures CreatesExactly(ss, s)
  {
    Ok014();
    OneStage(Stage014(), s);
  }
}
