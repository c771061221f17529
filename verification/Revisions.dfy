/** The repository's own chain of thirteen revisions and every walk of it: alembic/versions, scripts/migrate.py. */
module Revisions {
  import opened Outcomes
  import opened Schema
  import opened Walks
  import opened Creations
  import opened Names
  import opened Tables
  import opened InitialTables
  import opened TableChecks
  import opened Migrations

  /** The stretches of the creating revisions: five of the initial migration, then one for each of 005 to 014. */
  function AllStages(): seq<Stage> {
    [StageAccounts(), StageModels(), StageReasoning(), StageTeamWork(), StagePayments(),
     Stage005(), Stage006(), Stage007(), Stage008(), Stage009(), Stage010(), Stage011(), Stage012(), Stage013(),
      Stage014()]
  }

  const INITIAL := 5

  /** The initial migration, one revision for each further stretch, 015 and 016. */
  function Chain(ss: seq<Stage>): (chain: seq<Migration>)
    requires |ss| >= INITIAL
    ensures |chain| == |ss| - INITIAL + 3
  {
    [StagedMigration(ss[..INITIAL])] + Singles(ss) + [Migration015(), Migration016()]
  }

  function Singles(ss: seq<Stage>): (chain: seq<Migration>)
    requires |ss| >= INITIAL
    ensures |chain| == |ss| - INITIAL
  {
    seq(|ss| - INITIAL, i requires 0 <= i < |ss| - INITIAL => StagedMigration([ss[INITIAL + i]]))
  }

  // ---- Every revision is reversible ----

  lemma {:induction false} ChainReversible(ss: seq<Stage>)
    requires |ss| >= INITIAL && AllOk(ss)
    ensures AllReversible(Chain(ss))
  {
    var chain := Chain(ss);
    forall k | 0 <= k < |chain| ensures Reversible(chain[k]) {
      if k == 0 {
        StagesReversible(ss[..INITIAL]);
      } else if k <= |ss| - INITIAL {
        assert chain[k] == StagedMigration([ss[INITIAL + k - 1]]);
        StagesReversible([ss[INITIAL + k - 1]]);
      } else if k == |chain| - 2 {
        Exactly015(EMPTY);
      } else {
        Exactly016(EMPTY);
      }
    }
  }

  // ---- The schemas of the creating revisions ----

  lemma {:induction false} UpOpsConcat(a: seq<Creation>, b: seq<Creation>)
    ensures UpOps(a + b) == UpOps(a) + UpOps(b)
    decreases |a|
  {
    if a == [] {
      assert a + b == b;
    } else {
      assert (a + b)[0] == a[0] && (a + b)[1..] == a[1..] + b;
      UpOpsConcat(a[1..], b);
      assert UpOps(a + b) == Block(a[0]) + (UpOps(a[1..]) + UpOps(b));
    }
  }

  /** Revision `k + 1` of a schema is what the first `k` further stretches make of it, run in one go. */
  lemma {:induction false} CreatingSchemas(ss: seq<Stage>, s: Schema, k: nat)
    requires INITIAL <= |ss| && k <= |ss| - INITIAL
    ensures SchemaAt(Chain(ss), s, k + 1) == RunAll(UpOps(UpStages(ss[..INITIAL + k])), s)
  {
    var chain := Chain(ss);
    if k == 0 {
      assert SchemaAt(chain, s, 0) == Ok(s);
      assert chain[0] == StagedMigration(ss[..INITIAL]);
    } else {
      var n := INITIAL + k - 1;
      CreatingSchemas(ss, s, k - 1);
      assert chain[k] == StagedMigration([ss[n]]);
      SingleUp(ss[n]);
      UpStagesSnoc(ss, n);
      UpOpsConcat(UpStages(ss[..n]), ss[n].up);
      RunConcat(UpOps(UpStages(ss[..n])), UpOps(ss[n].up), s);
    }
  }

  lemma {:induction false} SingleUp(st: Stage)
    ensures StagedMigration([st]).up == UpOps(st.up)
  {
    assert [st][1..] == [];
    assert UpStages([st]) == st.up + [];
    assert st.up + [] == st.up;
  }

  // ---- 015 and 016 find what they need ----

  /** The chain creates the four tables that 015 and 016 change, as they expect them. */
  predicate Prepared(cs: seq<Creation>) {
    && Prepares(cs, CONTENT_PROVENANCE, PROVENANCE_HASH)
    && PreparesRename(cs, FTNS_TRANSACTIONS) && PreparesRename(cs, TEACHER_MODELS) && PreparesRename(cs, MODEL_REGISTRY)
  }

  predicate Prepares(cs: seq<Creation>, table: Name, missing: Name) {
    exists c :: c in cs && c.table.name == table && missing !in c.table.columns
  }

  predicate PreparesRename(cs: seq<Creation>, table: Name) {
    exists c :: c in cs && c.table.name == table && CONTENT_CID !in c.table.columns && IPFS_CID in c.table.columns
  }

  lemma {:induction false} BuiltTable(cs: seq<Creation>, s: Schema, c: Creation, column: Name)
    requires NumberedFrom(cs, 0) && NamesFree(cs, s) && c in cs
    ensures
      var ts := Merge(s, After(cs, |cs|)).tables;
      HasTable(ts, c.table.name) && (HasColumn(ts, c.table.name, column) <==> column in c.table.columns)
  {
    var d := After(cs, |cs|);
    var ts := Merge(s, d).tables;
    AfterTables(cs, |cs|);
    var i :| 0 <= i < |cs| && cs[i] == c;
    assert d.tables[i] == c.table && c.table in ts;
    assert !HasTable(s.tables, cs[i].table.name);
    forall t | t in ts && t.name == c.table.name ensures t == c.table {
      assert t !in s.tables;
      var j :| 0 <= j < |d.tables| && d.tables[j] == t;
      assert cs[j].table.name == 0 + j && cs[i].table.name == 0 + i;
    }
  }

  lemma {:induction false} Runs015After(cs: seq<Creation>, s: Schema)
    requires NumberedFrom(cs, 0) && NamesFree(cs, s) && Prepared(cs)
    ensures RunAll(Migration015().up, Merge(s, After(cs, |cs|))).Ok?
  {
    var c :| c in cs && c.table.name == CONTENT_PROVENANCE && PROVENANCE_HASH !in c.table.columns;
    BuiltTable(cs, s, c, PROVENANCE_HASH);
    Exactly015(Merge(s, After(cs, |cs|)));
  }

  lemma {:induction false} RenamableAfter(cs: seq<Creation>, s: Schema, table: Name)
    requires NumberedFrom(cs, 0) && NamesFree(cs, s) && PreparesRename(cs, table)
    ensures Renamable(Merge(s, After(cs, |cs|)), table)
  {
    var c :| c in cs && c.table.name == table && CONTENT_CID !in c.table.columns && IPFS_CID in c.table.columns;
    BuiltTable(cs, s, c, CONTENT_CID);
    BuiltTable(cs, s, c, IPFS_CID);
  }

  lemma {:induction false} AddColumnKeepsOthers(s: Schema, on: Name, c: Name, table: Name, d: Name)
    requires table != on
    ensures HasColumn(AddToTables(s.tables, on, c), table, d) <==> HasColumn(s.tables, table, d)
  {
    var ts := AddToTables(s.tables, on, c);
    if HasColumn(s.tables, table, d) {
      var i :| 0 <= i < |s.tables| && s.tables[i].name == table && d in s.tables[i].columns;
      assert ts[i] in ts;
    }
    if HasColumn(ts, table, d) {
      var i :| 0 <= i < |ts| && ts[i].name == table && d in ts[i].columns;
      assert s.tables[i] in s.tables;
    }
  }

  lemma {:induction false} StillRenamable(s: Schema, table: Name)
    requires RunAll(Migration015().up, s).Ok? && Renamable(s, table) && table != CONTENT_PROVENANCE
    ensures Renamable(RunAll(Migration015().up, s).value, table)
  {
    RunOne(AddColumn(CONTENT_PROVENANCE, PROVENANCE_HASH), s);
    AddColumnKeepsOthers(s, CONTENT_PROVENANCE, PROVENANCE_HASH, table, IPFS_CID);
    AddColumnKeepsOthers(s, CONTENT_PROVENANCE, PROVENANCE_HASH, table, CONTENT_CID);
  }

  lemma {:induction false} LastTwoRun(cs: seq<Creation>, s: Schema)
    requires NumberedFrom(cs, 0) && NamesFree(cs, s) && Prepared(cs)
    ensures
      var m := Merge(s, After(cs, |cs|));
      RunAll(Migration015().up, m).Ok? && RunAll(Migration016().up, RunAll(Migration015().up, m).value).Ok?
  {
    var m := Merge(s, After(cs, |cs|));
    Runs015After(cs, s);
    RenamableAfter(cs, s, FTNS_TRANSACTIONS);
    RenamableAfter(cs, s, TEACHER_MODELS);
    RenamableAfter(cs, s, MODEL_REGISTRY);
    StillRenamable(m, FTNS_TRANSACTIONS);
    StillRenamable(m, TEACHER_MODELS);
    StillRenamable(m, MODEL_REGISTRY);
    Runs016(RunAll(Migration015().up, m).value);
  }

  // ---- The chain as a whole ----

  ghost predicate Sound(ss: seq<Stage>) {
    |ss| >= INITIAL && InLine(ss, 0) && AllOk(ss) && Prepared(UpStages(ss))
  }

  /** The revision behind the last creating one: it exists exactly where the names are free. */
  lemma {:induction false} CreatedSchema(ss: seq<Stage>, s: Schema)
    requires Sound(ss) && WellFormed(s)
    ensures
      var cs, at := UpStages(ss), SchemaAt(Chain(ss), s, |ss| - INITIAL + 1);
      && NumberedFrom(cs, 0) && (at.Ok? <==> NamesFree(cs, s))
      && (NamesFree(cs, s) ==> at == Ok(Merge(s, After(cs, |cs|))))
  {
    CreatingSchemas(ss, s, |ss| - INITIAL);
    assert ss[..INITIAL + (|ss| - INITIAL)] == ss && ss[..|ss|] == ss;
    StagesCoherent(ss, 0, |ss|);
    CoherentExactly(UpStages(ss), s);
  }

  lemma {:induction false} TwoMore(chain: seq<Migration>, s: Schema, n: nat)
    requires |chain| == n + 2 && SchemaAt(chain, s, n).Ok?
    requires RunAll(chain[n].up, SchemaAt(chain, s, n).value).Ok?
    requires RunAll(chain[n + 1].up, RunAll(chain[n].up, SchemaAt(chain, s, n).value).value).Ok?
    ensures SchemaAt(chain, s, n + 2).Ok?
  {
    assert SchemaAt(chain, s, n + 1) == RunAll(chain[n].up, SchemaAt(chain, s, n).value);
  }

  /** The whole upgrade goes through on exactly the schemas that have none of the names the chain creates. */
  lemma {:induction false} ChainRunsExactly(ss: seq<Stage>, s: Schema)
    requires Sound(ss) && WellFormed(s)
    ensures SchemaAt(Chain(ss), s, |Chain(ss)|).Ok? <==> NamesFree(UpStages(ss), s)
  {
    var chain, n := Chain(ss), |ss| - INITIAL + 1;
    CreatedSchema(ss, s);
    if NamesFree(UpStages(ss), s) {
      LastTwoRun(UpStages(ss), s);
      assert chain[n] == Migration015() && chain[n + 1] == Migration016();
      TwoMore(chain, s, n);
    } else {
      StaysFailed(chain, s, n, n + 2);
    }
  }

  /**
   What every walk promises: the schema is the one of the current revision, the next command is refused only for
   a bad rollback count, and a reset leads back to the schema it started from.
   */
  ghost predicate WalksRight(ss: seq<Stage>, s: Schema, cs: seq<Command>, c: Command)
    requires |ss| >= INITIAL
  {
    var chain := Chain(ss);
    var db := Walk(chain, Db(s, 0), cs);
    && OnChain(chain, s, db)
    && (Perform(chain, db, c).1 <==> (c.Rollback? ==> 1 <= c.steps <= db.position))
    && Perform(chain, db, Reset(true)) == (Db(s, 0), true)
  }

  /** Every walk of a sound chain, from every schema that has none of its names. */
  lemma {:induction false} ChainWalks(ss: seq<Stage>, s: Schema, cs: seq<Command>, c: Command)
    requires Sound(ss) && WellFormed(s) && NamesFree(UpStages(ss), s)
    ensures WalksRight(ss, s, cs, c)
  {
    var chain := Chain(ss);
    var db := Walk(chain, Db(s, 0), cs);
    ChainReversible(ss);
    ChainRunsExactly(ss, s);
    WalkStaysOnChain(chain, s, Db(s, 0), cs);
    CommandStaysOnChain(chain, s, db, c);
    CommandStaysOnChain(chain, s, db, Reset(true));
  }

  /** A program that ran was accepted operation by operation. */
  lemma {:induction false} EachStepLegal(p: seq<Op>, s: Schema, i: nat)
    requires RunAll(p, s).Ok? && i < |p|
    ensures RunAll(p[..i], s).Ok? && Legal(p[i], RunAll(p[..i], s).value)
  {
    RunConcat(p[..i], p[i..], s);
    assert p[..i] + p[i..] == p && p[i..][0] == p[i];
  }

  /** After a walk, operation `i` of the next downgrade is reached and legal when its turn comes. */
  ghost predicate DowngradeLegal(ss: seq<Stage>, s: Schema, cs: seq<Command>, i: nat)
    requires |ss| >= INITIAL
  {
    var chain := Chain(ss);
    var db := Walk(chain, Db(s, 0), cs);
    db.position > 0 && i < |chain[db.position - 1].down| ==>
      var down := chain[db.position - 1].down;
      RunAll(down[..i], db.schema).Ok? && Legal(down[i], RunAll(down[..i], db.schema).value)
  }

  lemma {:induction false} NextDowngradeLegal(chain: seq<Migration>, base: Schema, db: Db, i: nat)
    requires WellFormed(base) && AllReversible(chain) && OnChain(chain, base, db)
    requires db.position > 0 && i < |chain[db.position - 1].down|
    ensures
      var down := chain[db.position - 1].down;
      RunAll(down[..i], db.schema).Ok? && Legal(down[i], RunAll(down[..i], db.schema).value)
  {
    DownOne(chain, base, db.position);
    EachStepLegal(chain[db.position - 1].down, db.schema, i);
  }

  lemma {:induction false} DowngradesLegal(ss: seq<Stage>, s: Schema, cs: seq<Command>, i: nat)
    requires Sound(ss) && WellFormed(s) && NamesFree(UpStages(ss), s)
    ensures DowngradeLegal(ss, s, cs, i)
  {
    var chain := Chain(ss);
    var db := Walk(chain, Db(s, 0), cs);
    if db.position > 0 && i < |chain[db.position - 1].down| {
      ChainWalks(ss, s, cs, Upgrade);
      ChainReversible(ss);
      NextDowngradeLegal(chain, s, db, i);
    }
  }

  // ---- The repository's stretches ----

  lemma {:induction false} AllStagesOk()
    ensures AllOk(AllStages())
  {
    OkAccounts();
    OkModels();
    OkReasoning();
    OkTeamWork();
    OkPayments();
    Ok005();
    Ok006();
    Ok007();
    Ok008();
    Ok009();
    Ok010();
    Ok011();
    Ok012();
    Ok013();
    Ok014();
  }

  lemma {:induction false} StagesParents()
    ensures forall k :: 0 <= k < |AllStages()| ==> ParentsIn(AllStages(), k)
  {
    assert AllStages()[1] == StageModels();
    assert PrsmSessions() in StageModels().up && Teams() in StageModels().up;
  }

  lemma {:induction false} StagesAdjoin()
    ensures
      var ss := AllStages();
      ss[0].first == 0 && forall k :: 0 <= k < |ss| - 1 ==> ss[k + 1].first == ss[k].first + |ss[k].up|
  {
  }

  predicate Expected(c: Creation, table: Name) {
    c.table.name == table && CONTENT_CID !in c.table.columns && IPFS_CID in c.table.columns
  }

  lemma {:induction false} ExpectedTransactions()
    ensures Expected(FtnsTransactions(), FTNS_TRANSACTIONS) && FtnsTransactions() in StageAccounts().up
  {
  }

  lemma {:induction false} ExpectedRegistry()
    ensures Expected(ModelRegistry(), MODEL_REGISTRY) && ModelRegistry() in StageAccounts().up
  {
  }

  lemma {:induction false} ExpectedTeachers()
    ensures Expected(TeacherModels(), TEACHER_MODELS) && TeacherModels() in StageModels().up
  {
  }

  lemma {:induction false} ExpectedProvenance()
    ensures ContentProvenance().table.name == CONTENT_PROVENANCE
            && PROVENANCE_HASH !in ContentProvenance().table.columns
    ensures ContentProvenance() in Stage007().up
  {
  }

  lemma {:induction false} Places()
    ensures AllStages()[0] == StageAccounts() && AllStages()[1] == StageModels() && AllStages()[7] == Stage007()
  {
  }

  lemma {:induction false} PreparedBy(ss: seq<Stage>, a: Creation, b: Creation, c: Creation, d: Creation)
    requires |ss| >= 8 && a in ss[0].up && b in ss[0].up && c in ss[1].up && d in ss[7].up
    requires Expected(a, FTNS_TRANSACTIONS) && Expected(b, MODEL_REGISTRY) && Expected(c, TEACHER_MODELS)
    requires d.table.name == CONTENT_PROVENANCE && PROVENANCE_HASH !in d.table.columns
    ensures Prepared(UpStages(ss))
  {
    assert ss[..|ss|] == ss;
    UpIn(ss, |ss|, 0, a);
    UpIn(ss, |ss|, 0, b);
    UpIn(ss, |ss|, 1, c);
    UpIn(ss, |ss|, 7, d);
  }

  lemma {:induction false} StagesInLine()
    ensures InLine(AllStages(), 0)
  {
    StagesParents();
    StagesAdjoin();
  }

  lemma {:induction false} StagesPrepared(ss: seq<Stage>)
    requires ss == AllStages()
    ensures Prepared(UpStages(ss))
  {
    ExpectedTransactions();
    ExpectedRegistry();
    ExpectedTeachers();
    ExpectedProvenance();
    Places();
    PreparedBy(ss, FtnsTransactions(), ModelRegistry(), TeacherModels(), ContentProvenance());
  }

  /** The fifteen stretches pass every check. */
  lemma {:induction false} AllStagesSound(ss: seq<Stage>)
    requires ss == AllStages()
    ensures Sound(ss)
  {
    AllStagesOk();
    StagesInLine();
    StagesPrepared(ss);
  }

  // ---- Main results for the repository's chain ----

  lemma {:induction false} WalksFromEmpty(ss: seq<Stage>, cs: seq<Command>, c: Command)
    requires Sound(ss)
    ensures WalksRight(ss, EMPTY, cs, c)
  {
    ChainWalks(ss, EMPTY, cs, c);
  }

  lemma {:induction false} DowngradesFromEmpty(ss: seq<Stage>, cs: seq<Command>, i: nat)
    requires Sound(ss)
    ensures DowngradeLegal(ss, EMPTY, cs, i)
  {
    DowngradesLegal(ss, EMPTY, cs, i);
  }

  /**
   Every sequence of upgrades, rollbacks and resets of the repository's thirteen revisions, from an empty database.
   */
  lemma {:induction false} EveryWalk(ss: seq<Stage>, cs: seq<Command>, c: Command)
    requires ss == AllStages()
    ensures WalksRight(ss, EMPTY, cs, c)
  {
    AllStagesSound(ss);
    WalksFromEmpty(ss, cs, c);
  }

  lemma {:induction false} ThirteenRevisions()
    ensures |Chain(AllStages())| == 13
  {
  }

  /**
   Whether the chain can be put on a database: exactly when none of the chain's names is taken; else nothing happens.
   */
  ghost predicate UpgradesExactly(ss: seq<Stage>, s: Schema)
    requires |ss| >= INITIAL
  {
    var (db, ok) := Perform(Chain(ss), Db(s, 0), Upgrade);
    (ok <==> NamesFree(UpStages(ss), s)) && (!ok ==> db == Db(s, 0))
  }

  lemma {:induction false} ChainUpgrades(ss: seq<Stage>, s: Schema)
    requires Sound(ss) && WellFormed(s)
    ensures UpgradesExactly(ss, s)
  {
    ChainRunsExactly(ss, s);
    FirstUpgradeDecides(Chain(ss), s);
  }

  lemma {:induction false} UpgradeExactly(ss: seq<Stage>, s: Schema)
    requires ss == AllStages() && WellFormed(s)
    ensures UpgradesExactly(ss, s)
  {
    AllStagesSound(ss);
    ChainUpgrades(ss, s);
  }

  /**
   After any walk every operation of the next downgrade, down to the last drop of the initial one, is legal in its
   turn.
   */
  lemma {:induction false} EveryDowngradeStep(ss: seq<Stage>, cs: seq<Command>, i: nat)
    requires ss == AllStages()
    ensures DowngradeLegal(ss, EMPTY, cs, i)
  {
    AllStagesSound(ss);
    DowngradesFromEmpty(ss, cs, i);
  }
}
