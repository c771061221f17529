/** What the bench guarantees across phases: re-run safety, the skip mode, payments, success of phase 2. */
module BenchSafety {
  import opened Words
  import opened Outcomes
  import opened Totals
  import opened Shares
  import opened Ledger
  import opened Solvency
  import opened Bench

  // ---- Re-run safety ----

  predicate HasCommitted(w: World) {
    w.file.Some? && w.file.value.committed != []
  }

  /**
   Once a phase-1 run has recorded a committed share-batch, the state file stays as it is and no later
   phase-1 run, with whatever arguments, sends any transaction.
   */
  lemma {:induction false} GuardHolds(env: Env, w: World, cs: seq<Command>)
    requires HasCommitted(w)
    ensures Play(env, w, cs).file == w.file
    ensures forall c: Command :: c.Phase1? ==>
      EffectOf(env, Play(env, w, cs), c).ops == [] && EffectOf(env, Play(env, w, cs), c).code != 0
    decreases cs
  {
    if cs != [] {
      GuardHolds(env, Perform(env, w, cs[0]), cs[1..]);
    }
  }

  /** A run that recorded nothing leaves the guard exactly as open as no file at all. */
  lemma {:induction false} EmptyRecordLeavesGuardOpen(env: Env, w: World, c: Command, again: Command)
    requires c.Phase1? && again.Phase1? && !HasCommitted(w) && !HasCommitted(Perform(env, w, c))
    ensures Refusal(Perform(env, w, c).file, again.requester, again.nodes, again.total)
         == Refusal(None, again.requester, again.nodes, again.total)
  {
  }

  // ---- The skip-if-sufficient mode ----

  /** Value of the commits naming `r` that went through. */
  ghost function CommittedValue(env: Env, s: State, ops: seq<Op>, r: Account): nat
    decreases ops
  {
    if ops == [] then 0
    else (if ops[0].Commit? && ops[0].requester == r && Try(env, s, ops[0]).Done? then ops[0].total else 0)
         + CommittedValue(env, Next(env, s, ops[0]), ops[1..], r)
  }

  lemma {:induction false} CommitsOnly(
    env: Env, s: State, requester: Account, nodes: seq<Account>, shares: seq<nat>, fates: seq<Fate>, i: nat)
    requires |nodes| == |shares| && i <= |nodes|
    ensures forall op :: op in CommitFrom(env, s, requester, nodes, shares, fates, i).ops ==> op.Commit?
    decreases |nodes| - i
  {
    if i < |nodes| {
      CommitsOnly(env, s, requester, nodes, shares, fates, i + 1);
      if FateAt(fates, i).Sent? {
        var f := FateAt(fates, i);
        CommitsOnly(env, Next(env, s, CommitOp(requester, nodes[i], shares[i], f.id, f.root)), requester, nodes,
          shares, fates, i + 1);
      }
    }
  }

  lemma {:induction false} CommitsCost(env: Env, s: State, ops: seq<Op>, r: Account)
    requires forall op :: op in ops ==> op.Commit?
    ensures Slack(Run(env, s, ops), r) == Slack(s, r) - CommittedValue(env, s, ops, r)
    ensures Run(env, s, ops).balances == s.balances
    decreases ops
  {
    if ops != [] {
      assert ops[0] in ops;
      SlackStep(env, s, ops[0], r);
      OthersMoveNothing(env, s, ops[0]);
      CommitsCost(env, Next(env, s, ops[0]), ops[1..], r);
    }
  }

  /** What was recorded was committed. */
  lemma {:induction false} RecordedWasCommitted(
    env: Env, s: State, requester: Account, nodes: seq<Account>, shares: seq<nat>, fates: seq<Fate>, i: nat)
    requires |nodes| == |shares| && i <= |nodes|
    ensures
      var done := CommitFrom(env, s, requester, nodes, shares, fates, i);
      CommittedValue(env, s, done.ops, requester) >= RecordShares(done.records)
    decreases |nodes| - i
  {
    if i < |nodes| {
      var f := FateAt(fates, i);
      if f.Lost? {
        RecordedWasCommitted(env, s, requester, nodes, shares, fates, i + 1);
      } else if f.Sent? {
        var op := CommitOp(requester, nodes[i], shares[i], f.id, f.root);
        var n := Next(env, s, op);
        var rest := CommitFrom(env, n, requester, nodes, shares, fates, i + 1);
        RecordedWasCommitted(env, n, requester, nodes, shares, fates, i + 1);
        SentIsCommitted(env, s, op, rest, Record(i, f.id, nodes[i], shares[i]), requester);
      }
    }
  }

  lemma {:induction false} SentIsCommitted(
    env: Env, s: State, op: Op, rest: Commits, rec: Record, requester: Account)
    requires op.Commit? && op.requester == requester && op.total == rec.share
    requires CommittedValue(env, Next(env, s, op), rest.ops, requester) >= RecordShares(rest.records)
    ensures CommittedValue(env, s, [op] + rest.ops, requester) >= RecordShares([] + rest.records)
    ensures Try(env, s, op).Done? ==>
      CommittedValue(env, s, [op] + rest.ops, requester) >= RecordShares([rec] + rest.records)
  {
    CommittedCons(env, s, op, rest.ops, requester);
    RecordCons(rec, rest.records);
  }

  lemma {:induction false} CommittedCons(env: Env, s: State, op: Op, ops: seq<Op>, r: Account)
    ensures CommittedValue(env, s, [op] + ops, r)
         == (if op.Commit? && op.requester == r && Try(env, s, op).Done? then op.total else 0)
            + CommittedValue(env, Next(env, s, op), ops, r)
  {
    assert ([op] + ops)[1..] == ops;
  }

  lemma {:induction false} RecordCons(rec: Record, records: seq<Record>)
    ensures RecordShares([rec] + records) == rec.share + RecordShares(records) && [] + records == records
  {
    assert ([rec] + records)[1..] == records;
  }

  /**
   The skip mode judged before the call. Room in the pool for the old claims and the new total keeps it covered
   whatever happens to the commits; and if the run succeeds, nothing less does.
   */
  lemma {:induction false} SkipCoveredBefore(env: Env, w: World, c: Command)
    requires Skips(c) && Refusal(w.file, c.requester, c.nodes, c.total).None?
    ensures
      var enough := Claims(w.chain, c.requester) + c.total <= Get(w.chain.balances, c.requester);
      && (enough ==> Covered(Perform(env, w, c).chain, c.requester))
      && (EffectOf(env, w, c).code == 0 ==> (Covered(Perform(env, w, c).chain, c.requester) <==> enough))
  {
    SkipCoveredExactly(env, w, c);
    if EffectOf(env, w, c).code == 0 {
      SkippedAllCommitted(env, w, c);
    }
  }

  /** What a skipping run does, as its commit loop alone. */
  lemma {:induction false} SkippedEffect(env: Env, w: World, c: Command)
    requires Skips(c) && Refusal(w.file, c.requester, c.nodes, c.total).None?
    ensures
      var done := CommitFrom(env, w.chain, c.requester, c.nodes, EqualShares(c.total, |c.nodes|), c.fates, 0);
      var e := EffectOf(env, w, c);
      e.ops == done.ops && (e.code == 0 <==> !done.raised && |done.records| == |c.nodes|)
  {
    assert Run(env, w.chain, []) == w.chain;
    var done := CommitFrom(env, w.chain, c.requester, c.nodes, EqualShares(c.total, |c.nodes|), c.fates, 0);
    assert [] + done.ops == done.ops;
  }

  lemma {:induction false} SkippedAllCommitted(env: Env, w: World, c: Command)
    requires Skips(c) && Refusal(w.file, c.requester, c.nodes, c.total).None? && EffectOf(env, w, c).code == 0
    ensures CommittedValue(env, w.chain, EffectOf(env, w, c).ops, c.requester) >= c.total
  {
    var shares := EqualShares(c.total, |c.nodes|);
    SkippedEffect(env, w, c);
    AllRecorded(env, w.chain, c.requester, c.nodes, shares, c.fates, 0);
    RecordedWasCommitted(env, w.chain, c.requester, c.nodes, shares, c.fates, 0);
    EqualSharesSplit(c.total, |c.nodes|);
    assert shares[0..] == shares;
  }

  /**
   Skipping the deposit keeps the pool covered exactly when the claims already pending leave room for
   what is committed now. With no other batch pending that is the case; with others pending it need not be.
   */
  lemma {:induction false} SkipCoveredExactly(env: Env, w: World, c: Command)
    requires Skips(c) && Refusal(w.file, c.requester, c.nodes, c.total).None?
    ensures
      var ops := EffectOf(env, w, c).ops;
      && (Covered(Perform(env, w, c).chain, c.requester) <==>
          Claims(w.chain, c.requester) + CommittedValue(env, w.chain, ops, c.requester)
            <= Get(w.chain.balances, c.requester))
      && CommittedValue(env, w.chain, ops, c.requester) <= c.total
      && (Claims(w.chain, c.requester) == 0 && c.total <= Get(w.chain.balances, c.requester) ==>
          Covered(Perform(env, w, c).chain, c.requester))
  {
    var shares := EqualShares(c.total, |c.nodes|);
    EqualSharesSplit(c.total, |c.nodes|);
    var done := CommitFrom(env, w.chain, c.requester, c.nodes, shares, c.fates, 0);
    CommitsOnly(env, w.chain, c.requester, c.nodes, shares, c.fates, 0);
    CommitsSlack(env, w.chain, c.requester, c.nodes, shares, c.fates, 0, c.requester);
    assert shares[0..] == shares;
    SkippedEffect(env, w, c);
    CommitsCost(env, w.chain, done.ops, c.requester);
  }

  const ROOT: Bytes := [1]

  /** Requester 1 holds 10 in escrow, all of it backing a foreign pending batch of provider 9. */
  function SharedEscrow(): World {
    var foreign := Batch(9, 1, ROOT, 10, 0, 0, MIN_WINDOW, 0, MIN_LOOKBACK, 0, true, false, Pending);
    World(State(MIN_WINDOW, map[], 10, map[1 := 10], 10, false, map[0 := foreign], {},
                MIN_WINDOW, MIN_LOOKBACK, true, false, false, 0, 0), None)
  }

  function SkippingRun(): Command {
    Phase1(1, [2, 3], 10, true, 10, [], [Sent(1, ROOT, true), Sent(2, ROOT, true)])
  }

  lemma {:induction false} WitnessShares()
    ensures EqualShares(10, 2) == [5, 5]
    ensures Refusal(None, 1, [2, 3], 10).None?
  {
    var nodes: seq<Account> := [2, 3];
    assert EqualShares(10, 2)[0] == 5 && EqualShares(10, 2)[1] == 5;
    assert Pow256(16) > 10;
    assert nodes[1..] == [3] && [5, 5][1..] == [5];
    assert Overwritten(nodes, [5, 5]) == 0;
  }

  lemma {:induction false} WitnessClaims()
    ensures Claims(SharedEscrow().chain, 1) == 10
  {
    var s0 := SharedEscrow().chain;
    var none: map<BatchId, Batch> := map[];
    assert s0.batches == none[0 := s0.batches[0]];
    ClaimsUpdate(none, 0, s0.batches[0], 1);
    TotalZero(ClaimMap(none, 1));
  }

  lemma {:induction false} WitnessCommits(env: Env)
    ensures
      var s0, op1, op2 := SharedEscrow().chain, CommitOp(1, 2, 5, 1, ROOT), CommitOp(1, 3, 5, 2, ROOT);
      var s1 := Next(env, s0, op1);
      && Try(env, s0, op1).Done? && Try(env, s1, op2).Done?
      && CommitFrom(env, s0, 1, [2, 3], [5, 5], SkippingRun().fates, 0)
         == Commits([op1, op2], [Record(0, 1, 2, 5), Record(1, 2, 3, 5)], false)
  {
    var s0, op1, op2 := SharedEscrow().chain, CommitOp(1, 2, 5, 1, ROOT), CommitOp(1, 3, 5, 2, ROOT);
    assert |ROOT| != |Zeros(32)|;
    var s1 := Next(env, s0, op1);
    var s2 := Next(env, s1, op2);
    var fates := SkippingRun().fates;
    assert CommitFrom(env, s2, 1, [2, 3], [5, 5], fates, 2) == Commits([], [], false);
    assert CommitFrom(env, s1, 1, [2, 3], [5, 5], fates, 1) == Commits([op2], [Record(1, 2, 3, 5)], false);
  }

  /**
   The run where skipping fails: a covered pool is left short although the read was fresh and every step succeeded.
   */
  lemma {:induction false} SkipWitness(env: Env)
    ensures Skips(SkippingRun()) && SkippingRun().preRead == Get(SharedEscrow().chain.balances, 1)
    ensures Covered(SharedEscrow().chain, 1)
    ensures EffectOf(env, SharedEscrow(), SkippingRun()).code == 0
    ensures !Covered(Perform(env, SharedEscrow(), SkippingRun()).chain, 1)
  {
    var w, c := SharedEscrow(), SkippingRun();
    var s0, op1, op2 := w.chain, CommitOp(1, 2, 5, 1, ROOT), CommitOp(1, 3, 5, 2, ROOT);
    WitnessShares();
    WitnessClaims();
    WitnessCommits(env);
    assert Run(env, s0, []) == s0;
    assert EffectOf(env, w, c).ops == [op1, op2];
    SlackStep(env, s0, op1, 1);
    SlackStep(env, Next(env, s0, op1), op2, 1);
    TwoSteps(env, s0, op1, op2);
  }

  lemma {:induction false} TwoSteps(env: Env, s: State, a: Op, b: Op)
    ensures Run(env, s, [a, b]) == Next(env, Next(env, s, a), b)
  {
    assert [a, b][1..] == [b];
    assert [b][1..] == [];
    assert Run(env, Next(env, s, a), [b]) == Run(env, Next(env, Next(env, s, a), b), []);
  }

  // ---- Payments ----

  ghost function RecordShares(records: seq<Record>): nat {
    if records == [] then 0 else records[0].share + RecordShares(records[1..])
  }

  /** A record tells the truth about the chain. */
  ghost predicate OnChain(s: State, rec: Record, requester: Account) {
    && rec.id in s.batches
    && s.batches[rec.id].provider == rec.committer && s.batches[rec.id].requester == requester
    && s.batches[rec.id].total == rec.share && s.batches[rec.id].status.Pending? && s.batches[rec.id].invalidated == 0
  }

  lemma {:induction false} CommitsKeepBatches(env: Env, s: State, ops: seq<Op>, id: BatchId)
    requires forall op :: op in ops ==> op.Commit?
    requires id in s.batches
    ensures id in Run(env, s, ops).batches && Run(env, s, ops).batches[id] == s.batches[id]
    decreases ops
  {
    if ops != [] {
      CommitsKeepBatches(env, Next(env, s, ops[0]), ops[1..], id);
    }
  }

  ghost predicate DistinctIds(records: seq<Record>) {
    forall i, j :: 0 <= i < j < |records| ==> records[i].id != records[j].id
  }

  /** Records made between `s` and `s'`: new batches, each as recorded, no batch twice. */
  ghost predicate FreshRecords(s: State, s': State, records: seq<Record>, requester: Account) {
    DistinctIds(records) && forall rec :: rec in records ==> rec.id !in s.batches && OnChain(s', rec, requester)
  }

  lemma {:induction false} SentRecords(env: Env, s: State, op: Op, rest: Commits, rec: Record, requester: Account)
    requires op.Commit? && op == CommitOp(requester, rec.committer, rec.share, rec.id, op.root)
    requires forall o :: o in rest.ops ==> o.Commit?
    requires FreshRecords(Next(env, s, op), Run(env, Next(env, s, op), rest.ops), rest.records, requester)
    ensures FreshRecords(s, Run(env, s, [op] + rest.ops), rest.records, requester)
    ensures Try(env, s, op).Done? ==> FreshRecords(s, Run(env, s, [op] + rest.ops), [rec] + rest.records, requester)
  {
    var n := Next(env, s, op);
    assert ([op] + rest.ops)[1..] == rest.ops;
    if Try(env, s, op).Done? {
      CommitsKeepBatches(env, n, rest.ops, rec.id);
    }
  }

  lemma {:induction false} CommitRecords(
    env: Env, s: State, requester: Account, nodes: seq<Account>, shares: seq<nat>, fates: seq<Fate>, i: nat)
    requires |nodes| == |shares| && i <= |nodes|
    ensures
      var done := CommitFrom(env, s, requester, nodes, shares, fates, i);
      FreshRecords(s, Run(env, s, done.ops), done.records, requester) && |done.records| <= |nodes| - i
    decreases |nodes| - i
  {
    if i < |nodes| {
      var f := FateAt(fates, i);
      if f.Lost? {
        CommitRecords(env, s, requester, nodes, shares, fates, i + 1);
      } else if f.Sent? {
        var op := CommitOp(requester, nodes[i], shares[i], f.id, f.root);
        var n := Next(env, s, op);
        CommitRecords(env, n, requester, nodes, shares, fates, i + 1);
        CommitsOnly(env, n, requester, nodes, shares, fates, i + 1);
        SentRecords(env, s, op, CommitFrom(env, n, requester, nodes, shares, fates, i + 1),
                    Record(i, f.id, nodes[i], shares[i]), requester);
      }
    }
  }

  /** When every node is recorded the recorded shares are all the shares. */
  lemma {:induction false} AllRecorded(
    env: Env, s: State, requester: Account, nodes: seq<Account>, shares: seq<nat>, fates: seq<Fate>, i: nat)
    requires |nodes| == |shares| && i <= |nodes|
    requires |CommitFrom(env, s, requester, nodes, shares, fates, i).records| == |nodes| - i
    ensures RecordShares(CommitFrom(env, s, requester, nodes, shares, fates, i).records) == Sum(shares[i..])
    decreases |nodes| - i
  {
    if i < |nodes| {
      assert shares[i..][1..] == shares[i + 1..];
      var f := FateAt(fates, i);
      if f.Lost? {
        CommitRecords(env, s, requester, nodes, shares, fates, i + 1);
        assert false;
      } else if f.Sent? {
        var n := Next(env, s, CommitOp(requester, nodes[i], shares[i], f.id, f.root));
        var rest := CommitFrom(env, n, requester, nodes, shares, fates, i + 1);
        CommitRecords(env, n, requester, nodes, shares, fates, i + 1);
        AllRecorded(env, n, requester, nodes, shares, fates, i + 1);
        assert ([Record(i, f.id, nodes[i], shares[i])] + rest.records)[1..] == rest.records;
      }
    }
  }

  ghost function SumPaid(env: Env, s: State, ops: seq<Op>, records: seq<Record>): nat {
    if records == [] then 0 else PaidFor(env, s, ops, records[0].id) + SumPaid(env, s, ops, records[1..])
  }

  lemma {:induction false} SumPaidShares(env: Env, s: State, ops: seq<Op>, records: seq<Record>)
    requires forall rec :: rec in records ==> PaidFor(env, s, ops, rec.id) == rec.share
    ensures SumPaid(env, s, ops, records) == RecordShares(records)
  {
    if records != [] {
      SumPaidShares(env, s, ops, records[1..]);
    }
  }

  lemma {:induction false} Phase1Records(env: Env, w: World, c: Command)
    requires c.Phase1? && EffectOf(env, w, c).code == 0
    ensures
      var w1 := Perform(env, w, c);
      && w1.file.Some? && w1.file.value.requester == c.requester
      && |w1.file.value.committed| == |c.nodes| && RecordShares(w1.file.value.committed) == c.total
      && DistinctIds(w1.file.value.committed)
      && forall rec :: rec in w1.file.value.committed ==> OnChain(w1.chain, rec, c.requester)
  {
    var shares := EqualShares(c.total, |c.nodes|);
    EqualSharesSplit(c.total, |c.nodes|);
    assert shares[0..] == shares;
    var funding := if Skips(c) then [] else [Deposit(c.requester, c.total)];
    var funded := Run(env, w.chain, funding);
    CommitRecords(env, funded, c.requester, c.nodes, shares, c.fates, 0);
    AllRecorded(env, funded, c.requester, c.nodes, shares, c.fates, 0);
    RunConcat(env, w.chain, funding, CommitFrom(env, funded, c.requester, c.nodes, shares, c.fates, 0).ops);
  }

  /**
   Exactly-once payment of the whole arc. After a complete phase 1, over any later commands of anyone,
   every recorded batch is finalized at most once, pays nothing until then and its share (less what was
   invalidated) from then on; when all are final and none was challenged, the payments add up to the total.
   */
  lemma {:induction false} EachNodePaidItsShare(env: Env, w: World, c: Command, cs: seq<Command>)
    requires Inv(w.chain) && c.Phase1? && EffectOf(env, w, c).code == 0
    ensures
      var w1 := Perform(env, w, c);
      var ops := PlayOps(env, w1, cs);
      var last := Play(env, w1, cs).chain;
      && w1.file.Some?
      && (forall rec :: rec in w1.file.value.committed ==>
            && TimesFinalized(env, w1.chain, ops, rec.id) <= 1
            && rec.id in last.batches && last.batches[rec.id].provider == rec.committer
            && PaidFor(env, w1.chain, ops, rec.id) ==
               if IsFinal(last, rec.id) && rec.share > last.batches[rec.id].invalidated
               then rec.share - last.batches[rec.id].invalidated else 0)
      && ((forall rec :: rec in w1.file.value.committed ==>
             IsFinal(last, rec.id) && last.batches[rec.id].invalidated == 0) ==>
          SumPaid(env, w1.chain, ops, w1.file.value.committed) == c.total)
  {
    Phase1Records(env, w, c);
    var w1 := Perform(env, w, c);
    var ops := PlayOps(env, w1, cs);
    var last := Play(env, w1, cs).chain;
    RunFacts(env, w.chain, EffectOf(env, w, c).ops);
    PlayIsRun(env, w1, cs);
    RunFacts(env, w1.chain, ops);
    forall rec | rec in w1.file.value.committed
      ensures rec.id in last.batches && last.batches[rec.id].provider == rec.committer
      ensures TimesFinalized(env, w1.chain, ops, rec.id) <= 1
      ensures PaidFor(env, w1.chain, ops, rec.id) ==
              if IsFinal(last, rec.id) && rec.share > last.batches[rec.id].invalidated
              then rec.share - last.batches[rec.id].invalidated else 0
    {
      assert OnChain(w1.chain, rec, c.requester);
      ExactlyOnce(env, w1.chain, ops, rec.id);
    }
    if forall rec :: rec in w1.file.value.committed ==> IsFinal(last, rec.id) && last.batches[rec.id].invalidated == 0 {
      SumPaidShares(env, w1.chain, ops, w1.file.value.committed);
    }
  }

  /**
   And into the wallets: after a complete phase 1, over any later commands of anyone, a node that provides no other
   batch and moves no money itself has gained exactly its share, less what was invalidated, once its batch is final.
   */
  lemma {:induction false} NodeGainsItsShare(env: Env, w: World, c: Command, cs: seq<Command>, rec: Record)
    requires Inv(w.chain) && c.Phase1? && EffectOf(env, w, c).code == 0
    requires Perform(env, w, c).file.Some? && rec in Perform(env, w, c).file.value.committed
    requires
      var w1 := Perform(env, w, c);
      && ProvidedBy(Play(env, w1, cs).chain, rec.committer, [rec.id])
      && forall op :: op in PlayOps(env, w1, cs) ==> !((op.Deposit? || op.Withdraw?) && op.caller == rec.committer)
    ensures
      var w1 := Perform(env, w, c);
      var last := Play(env, w1, cs).chain;
      && rec.id in last.batches
      && Get(last.wallets, rec.committer) == Get(w1.chain.wallets, rec.committer)
         + if IsFinal(last, rec.id) && rec.share > last.batches[rec.id].invalidated
           then rec.share - last.batches[rec.id].invalidated else 0
  {
    var w1 := Perform(env, w, c);
    var ops := PlayOps(env, w1, cs);
    EachNodePaidItsShare(env, w, c, cs);
    PlayIsRun(env, w1, cs);
    WalletFromBatches(env, w1.chain, ops, rec.committer, [rec.id]);
    OnePaid(env, w1.chain, ops, rec.id);
  }

  lemma {:induction false} OnePaid(env: Env, s: State, ops: seq<Op>, id: BatchId)
    ensures PaidForAll(env, s, ops, [id]) == PaidFor(env, s, ops, id)
  {
    assert [id][1..] == [];
  }

  // ---- Success of phase 2 ----

  lemma {:induction false} FinalizeAllRecords(
    env: Env, s: State, records: seq<Record>, keys: set<Account>, r: Account, k: nat)
    requires k <= |records| && AccountsOk(s) && Covered(s, r) && DistinctIds(records)
    requires forall j :: k <= j < |records| ==>
      records[j].committer in keys && Ready(s, records[j].id) && s.batches[records[j].id].requester == r
    ensures FinalizeFrom(env, s, records, keys, [], k).ok
    ensures forall j :: k <= j < |records| ==>
      IsFinal(Run(env, s, FinalizeFrom(env, s, records, keys, [], k).ops), records[j].id)
    decreases |records| - k
  {
    if k < |records| {
      var id := records[k].id;
      var op := Finalize(id);
      var n := Next(env, s, op);
      FinalizeOne(env, s, id, r);
      forall j | k + 1 <= j < |records| ensures Ready(n, records[j].id) && n.batches[records[j].id].requester == r {
        FinalizeKeepsReady(env, s, id, records[j].id, r);
      }
      FinalizeAllRecords(env, n, records, keys, r, k + 1);
      FinalizeHead(env, s, records, keys, k);
      ExactlyOnce(env, n, FinalizeFrom(env, n, records, keys, [], k + 1).ops, id);
    }
  }

  /** On fresh reads the loop sends the transaction for a ready record and goes on from the state behind it. */
  lemma {:induction false} FinalizeHead(env: Env, s: State, records: seq<Record>, keys: set<Account>, k: nat)
    requires k < |records| && records[k].committer in keys && Ready(s, records[k].id)
    requires Try(env, s, Finalize(records[k].id)).Done? && IsFinal(Next(env, s, Finalize(records[k].id)), records[k].id)
    ensures
      var n := Next(env, s, Finalize(records[k].id));
      var all, rest := FinalizeFrom(env, s, records, keys, [], k), FinalizeFrom(env, n, records, keys, [], k + 1);
      all.ok == rest.ok && Run(env, s, all.ops) == Run(env, n, rest.ops)
  {
    var op := Finalize(records[k].id);
    var rest := FinalizeFrom(env, Next(env, s, op), records, keys, [], k + 1);
    assert ([op] + rest.ops)[1..] == rest.ops;
  }

  /** One ready batch of a covered requester: it finalizes and leaves the rest covered. */
  lemma {:induction false} FinalizeOne(env: Env, s: State, id: BatchId, r: Account)
    requires AccountsOk(s) && Covered(s, r) && Ready(s, id) && s.batches[id].requester == r
    ensures Try(env, s, Finalize(id)).Done? && IsFinal(Next(env, s, Finalize(id)), id)
    ensures AccountsOk(Next(env, s, Finalize(id))) && Covered(Next(env, s, Finalize(id)), r)
  {
    CoveredFinalizes(env, s, id);
    MoneyStep(env, s, Finalize(id));
    SlackStep(env, s, Finalize(id), r);
    SettledStep(env, s, Finalize(id), id);
  }

  /**
   With every key supplied, fresh reads, windows elapsed and a covered pool, phase 2 exits 0 and settles everything.
   */
  lemma {:induction false} Phase2Succeeds(env: Env, w: World, keys: set<Account>)
    requires Inv(w.chain) && HasCommitted(w) && Covered(w.chain, w.file.value.requester)
    requires DistinctIds(w.file.value.committed)
    requires forall rec :: rec in w.file.value.committed ==>
      rec.committer in keys && Ready(w.chain, rec.id) && w.chain.batches[rec.id].requester == w.file.value.requester
    ensures EffectOf(env, w, Phase2(keys, [])).code == 0
    ensures forall rec :: rec in w.file.value.committed ==> IsFinal(Perform(env, w, Phase2(keys, [])).chain, rec.id)
  {
    FinalizeAllRecords(env, w.chain, w.file.value.committed, keys, w.file.value.requester, 0);
  }

  /** Repeating phase 2 pays nothing more: with fresh reads everything final, it sends no transaction and exits 0. */
  lemma {:induction false} FinalizeAgain(env: Env, s: State, records: seq<Record>, keys: set<Account>, k: nat)
    requires k <= |records|
    requires forall j :: k <= j < |records| ==> records[j].committer in keys && IsFinal(s, records[j].id)
    ensures FinalizeFrom(env, s, records, keys, [], k) == Finals([], true)
    decreases |records| - k
  {
    if k < |records| {
      FinalizeAgain(env, s, records, keys, k + 1);
    }
  }
}
