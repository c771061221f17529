/** What the exit codes of the bench mean: scripts/per_stage_sepolia_bench.py, prsm/settlement/e2e_proof.py. */
module BenchExits {
  import opened Words
  import opened Outcomes
  import opened Totals
  import opened Shares
  import opened Ledger
  import opened Solvency
  import opened Bench
  import opened BenchSafety
  import opened Replicas

  // ---- Phase 2 ----

  /** Who answers for record `k`: the replicas given, or the chain itself past their end. */
  ghost function StatusRead(views: seq<Reads>, k: nat, s: State): State {
    if k < |views| then views[k].status else s
  }

  ghost function WindowRead(views: seq<Reads>, k: nat, s: State): State {
    if k < |views| then views[k].window else s
  }

  ghost function AfterRead(views: seq<Reads>, k: nat, s: State): State {
    if k < |views| then views[k].after else s
  }

  /** The chain in front of record `k` when every earlier record was read as final or has been finalized. */
  ghost function Before(env: Env, s: State, records: seq<Record>, views: seq<Reads>, k: nat): State
    requires k <= |records|
  {
    if k == 0 then s
    else
      var before := Before(env, s, records, views, k - 1);
      if IsFinal(StatusRead(views, k - 1, before), records[k - 1].id) then before
      else Next(env, before, Finalize(records[k - 1].id))
  }

  /** Record `k` was read as FINALIZED, or it was sent with its window over, mined, and then read as FINALIZED. */
  ghost predicate Reported(env: Env, s: State, records: seq<Record>, views: seq<Reads>, k: nat)
    requires k < |records|
  {
    var id, before := records[k].id, Before(env, s, records, views, k);
    var status, window := StatusRead(views, k, before), WindowRead(views, k, before);
    IsFinal(status, id) || (
      && id in status.batches
      && id in window.batches && window.batches[id].status.Pending?
      && Elapsed(window, window.batches[id]) >= window.batches[id].window
      && Try(env, before, Finalize(id)).Done?
      && IsFinal(AfterRead(views, k, Next(env, before, Finalize(id))), id))
  }

  ghost predicate Settles(
    env: Env, s: State, records: seq<Record>, keys: set<Account>, views: seq<Reads>, k: nat)
    requires k < |records|
  {
    records[k].committer in keys && Reported(env, s, records, views, k)
  }

  ghost predicate AllSettle(env: Env, s: State, records: seq<Record>, keys: set<Account>, views: seq<Reads>, k: nat)
    requires k <= |records|
    decreases |records| - k
  {
    k < |records| ==> Settles(env, s, records, keys, views, k) && AllSettle(env, s, records, keys, views, k + 1)
  }

  lemma {:induction false} AllSettleMeans(
    env: Env, s: State, records: seq<Record>, keys: set<Account>, views: seq<Reads>, k: nat)
    requires k <= |records|
    ensures AllSettle(env, s, records, keys, views, k) <==>
            forall j :: k <= j < |records| ==> Settles(env, s, records, keys, views, j)
    decreases |records| - k
  {
    if k < |records| {
      AllSettleMeans(env, s, records, keys, views, k + 1);
    }
  }

  /**
   Phase 2 exits 0 if and only if there are records, every committer's key is supplied, and every record is reported
   final in one of the two ways; otherwise it exits 1.
   */
  lemma {:induction false} Phase2ExitsZeroExactly(env: Env, w: World, keys: set<Account>, views: seq<Reads>)
    ensures
      var e := EffectOf(env, w, Phase2(keys, views));
      && e.code <= 1
      && (e.code == 0 <==>
            && w.file.Some? && w.file.value.committed != []
            && forall k :: 0 <= k < |w.file.value.committed| ==>
                 Settles(env, w.chain, w.file.value.committed, keys, views, k))
      && (e.code == 0 ==>
            Perform(env, w, Phase2(keys, views)).chain
            == Before(env, w.chain, w.file.value.committed, views, |w.file.value.committed|))
  {
    if HasCommitted(w) {
      LoopExactly(env, w.chain, w.file.value.committed, keys, views, 0);
      AllSettleMeans(env, w.chain, w.file.value.committed, keys, views, 0);
    }
  }

  lemma {:induction false} LoopExactly(
    env: Env, s: State, records: seq<Record>, keys: set<Account>, views: seq<Reads>, k: nat)
    requires k <= |records|
    ensures
      var before := Before(env, s, records, views, k);
      var done := FinalizeFrom(env, before, records, keys, views, k);
      && (done.ok <==> AllSettle(env, s, records, keys, views, k))
      && (done.ok ==> Run(env, before, done.ops) == Before(env, s, records, views, |records|))
    decreases |records| - k
  {
    if k < |records| {
      LoopHead(env, s, records, keys, views, k);
      LoopExactly(env, s, records, keys, views, k + 1);
    }
  }

  /** One round of the loop: the rest counts exactly when the record settles, and goes on from the state behind it. */
  lemma {:induction false} LoopHead(
    env: Env, s: State, records: seq<Record>, keys: set<Account>, views: seq<Reads>, k: nat)
    requires k < |records|
    ensures
      var before, next := Before(env, s, records, views, k), Before(env, s, records, views, k + 1);
      var done := FinalizeFrom(env, before, records, keys, views, k);
      var rest := FinalizeFrom(env, next, records, keys, views, k + 1);
      && (done.ok <==> Settles(env, s, records, keys, views, k) && rest.ok)
      && (done.ok ==> Run(env, before, done.ops) == Run(env, next, rest.ops))
  {
    var id, before := records[k].id, Before(env, s, records, views, k);
    var next := Next(env, before, Finalize(id));
    if IsFinal(StatusRead(views, k, before), id) {
      assert DecideAt(views, k, before, id).AlreadyFinal?;
    } else {
      RunCons(env, before, Finalize(id), FinalizeFrom(env, next, records, keys, views, k + 1).ops);
    }
  }

  // ---- Phase 2 on fresh reads ----

  ghost predicate WindowOpen(s: State, id: BatchId) {
    id in s.batches && s.batches[id].status.Pending? && Elapsed(s, s.batches[id]) < s.batches[id].window
  }

  lemma {:induction false} FinalizesKeepOpen(env: Env, s: State, ops: seq<Op>, id: BatchId)
    requires forall op :: op in ops ==> op.Finalize?
    ensures id !in s.batches ==> id !in Run(env, s, ops).batches
    ensures WindowOpen(s, id) ==> WindowOpen(Run(env, s, ops), id)
    decreases ops
  {
    if ops != [] {
      var op := ops[0];
      assert op in ops;
      OthersKeepTime(env, s, op);
      if id in s.batches {
        EvolveStep(env, s, op, id);
      } else if id in Next(env, s, op).batches {
        NewBatches(env, s, op, id);
      }
      FinalizesKeepOpen(env, Next(env, s, op), ops[1..], id);
    }
  }

  /**
   On fresh reads the exit code tells the truth in both directions: 0 if and only if there are records, every
   committer's key is supplied, and every recorded batch is FINALIZED on the chain phase 2 leaves behind.
   */
  lemma {:induction false} FreshZeroMeansFinal(env: Env, w: World, keys: set<Account>)
    ensures
      var last := Perform(env, w, Phase2(keys, [])).chain;
      EffectOf(env, w, Phase2(keys, [])).code == 0 <==>
        && w.file.Some? && w.file.value.committed != []
        && forall rec :: rec in w.file.value.committed ==> rec.committer in keys && IsFinal(last, rec.id)
  {
    if HasCommitted(w) {
      var records := w.file.value.committed;
      FreshLoop(env, w.chain, records, keys, 0);
      var last := Perform(env, w, Phase2(keys, [])).chain;
      assert (forall rec :: rec in records ==> rec.committer in keys && IsFinal(last, rec.id)) <==>
             (forall j :: 0 <= j < |records| ==> records[j].committer in keys && IsFinal(last, records[j].id));
    }
  }

  ghost predicate AllFinal(s: State, records: seq<Record>, keys: set<Account>, k: nat) {
    forall j :: k <= j < |records| ==> records[j].committer in keys && IsFinal(s, records[j].id)
  }

  /** A finalize that is mined on fresh reads counts, and what it settled stays settled. */
  lemma {:induction false} FreshSent(env: Env, s: State, records: seq<Record>, keys: set<Account>, k: nat)
    requires k < |records| && records[k].committer in keys && IsFinalizable(s, records[k].id)
    requires Try(env, s, Finalize(records[k].id)).Done?
    ensures
      var next := Next(env, s, Finalize(records[k].id));
      var all, rest := FinalizeFrom(env, s, records, keys, [], k), FinalizeFrom(env, next, records, keys, [], k + 1);
      && all.ok == rest.ok && Run(env, s, all.ops) == Run(env, next, rest.ops)
      && IsFinal(Run(env, s, all.ops), records[k].id)
  {
    var id := records[k].id;
    var next := Next(env, s, Finalize(id));
    FinalizeSettles(env, s, id, id);
    FinalizeHead(env, s, records, keys, k);
    ExactlyOnce(env, next, FinalizeFrom(env, next, records, keys, [], k + 1).ops, id);
  }

  /** An unknown batch or an open window makes the loop fail, and the batch is still not final behind it. */
  lemma {:induction false} FreshUnsettled(env: Env, s: State, records: seq<Record>, keys: set<Account>, k: nat)
    requires k < |records| && (records[k].id !in s.batches || WindowOpen(s, records[k].id))
    ensures !FinalizeFrom(env, s, records, keys, [], k).ok
    ensures !IsFinal(Run(env, s, FinalizeFrom(env, s, records, keys, [], k).ops), records[k].id)
  {
    FinalsAreFinalizes(env, s, records, keys, [], k);
    FinalizesKeepOpen(env, s, FinalizeFrom(env, s, records, keys, [], k).ops, records[k].id);
  }

  lemma {:induction false} FreshLoop(env: Env, s: State, records: seq<Record>, keys: set<Account>, k: nat)
    requires k <= |records|
    ensures
      var done := FinalizeFrom(env, s, records, keys, [], k);
      done.ok <==> AllFinal(Run(env, s, done.ops), records, keys, k)
    decreases |records| - k
  {
    if k < |records| && records[k].committer in keys {
      var id := records[k].id;
      var next := Next(env, s, Finalize(id));
      if IsFinal(s, id) {
        FreshLoop(env, s, records, keys, k + 1);
        ExactlyOnce(env, s, FinalizeFrom(env, s, records, keys, [], k + 1).ops, id);
      } else if id !in s.batches || WindowOpen(s, id) {
        FreshUnsettled(env, s, records, keys, k);
      } else if Try(env, s, Finalize(id)).Reverted? {
        assert Run(env, s, [Finalize(id)]) == s;
      } else {
        FreshLoop(env, next, records, keys, k + 1);
        FreshSent(env, s, records, keys, k);
      }
    }
  }

  /** One pending record whose window is still open makes phase 2 on fresh reads exit 1, and it stays pending. */
  lemma {:induction false} OpenWindowExitsOne(env: Env, w: World, keys: set<Account>, rec: Record)
    requires w.file.Some? && rec in w.file.value.committed && WindowOpen(w.chain, rec.id)
    ensures EffectOf(env, w, Phase2(keys, [])).code == 1
    ensures WindowOpen(Perform(env, w, Phase2(keys, [])).chain, rec.id)
  {
    FinalsAreFinalizes(env, w.chain, w.file.value.committed, keys, [], 0);
    FinalizesKeepOpen(env, w.chain, EffectOf(env, w, Phase2(keys, [])).ops, rec.id);
    FreshZeroMeansFinal(env, w, keys);
    Phase2ExitsZeroExactly(env, w, keys, []);
  }

  // ---- Phase 2 does what it can ----

  /** Every recorded batch that is over its window is ready and draws on the escrow of `r`. */
  ghost predicate Settleable(s: State, records: seq<Record>, r: Account, k: nat) {
    forall j :: k <= j < |records| && IsFinalizable(s, records[j].id) ==>
      Ready(s, records[j].id) && s.batches[records[j].id].requester == r
  }

  ghost predicate PastWindow(s: State, id: BatchId) {
    IsFinalizable(s, id) || IsFinal(s, id)
  }

  lemma {:induction false} FinalizeKeepsSettleable(
    env: Env, s: State, records: seq<Record>, r: Account, k: nat, id: BatchId)
    requires Settleable(s, records, r, k) && Ready(s, id) && s.batches[id].requester == r
    requires Try(env, s, Finalize(id)).Done?
    ensures Settleable(Next(env, s, Finalize(id)), records, r, k)
  {
    var n := Next(env, s, Finalize(id));
    OthersKeepTime(env, s, Finalize(id));
    FinalizeSettles(env, s, id, id);
    forall j | k <= j < |records| && IsFinalizable(n, records[j].id)
      ensures Ready(n, records[j].id) && n.batches[records[j].id].requester == r
    {
      var other := records[j].id;
      if other !in s.batches {
        NewBatches(env, s, Finalize(id), other);
      } else {
        EvolveStep(env, s, Finalize(id), other);
        FinalizeKeepsReady(env, s, id, other, r);
      }
    }
  }

  /**
   On fresh reads and a covered pool, no missing key, unknown batch or open window keeps phase 2 from the other records:
   whatever the exit code, every record that is over its window and whose key is supplied ends up FINALIZED.
   */
  lemma {:induction false} SettlesWhatItCan(env: Env, w: World, keys: set<Account>, r: Account)
    requires w.file.Some? && AccountsOk(w.chain) && Covered(w.chain, r)
    requires Settleable(w.chain, w.file.value.committed, r, 0)
    ensures forall rec :: rec in w.file.value.committed && rec.committer in keys && IsFinalizable(w.chain, rec.id) ==>
      IsFinal(Perform(env, w, Phase2(keys, [])).chain, rec.id)
  {
    var records := w.file.value.committed;
    SettlesFrom(env, w.chain, records, keys, r, 0);
    forall rec | rec in records && rec.committer in keys && IsFinalizable(w.chain, rec.id)
      ensures IsFinal(Perform(env, w, Phase2(keys, [])).chain, rec.id)
    {
      var j :| 0 <= j < |records| && records[j] == rec;
    }
  }

  lemma {:induction false} SettlesFrom(
    env: Env, s: State, records: seq<Record>, keys: set<Account>, r: Account, k: nat)
    requires k <= |records| && AccountsOk(s) && Covered(s, r) && Settleable(s, records, r, k)
    ensures
      var last := Run(env, s, FinalizeFrom(env, s, records, keys, [], k).ops);
      forall j :: k <= j < |records| && records[j].committer in keys && PastWindow(s, records[j].id) ==>
        IsFinal(last, records[j].id)
    decreases |records| - k
  {
    if k < |records| {
      var id := records[k].id;
      if records[k].committer in keys && IsFinalizable(s, id) {
        var n := Next(env, s, Finalize(id));
        FinalizeOne(env, s, id, r);
        FinalizeHead(env, s, records, keys, k);
        FinalizeKeepsSettleable(env, s, records, r, k + 1, id);
        SettlesFrom(env, n, records, keys, r, k + 1);
        ExactlyOnce(env, n, FinalizeFrom(env, n, records, keys, [], k + 1).ops, id);
        SettledOrOpen(env, s, records, id, k + 1);
      } else {
        SkipsRecord(env, s, records, keys, k);
        SettlesFrom(env, s, records, keys, r, k + 1);
        ExactlyOnce(env, s, FinalizeFrom(env, s, records, keys, [], k + 1).ops, id);
      }
    }
  }

  lemma {:induction false} SkipsRecord(env: Env, s: State, records: seq<Record>, keys: set<Account>, k: nat)
    requires k < |records| && !(records[k].committer in keys && IsFinalizable(s, records[k].id))
    ensures FinalizeFrom(env, s, records, keys, [], k).ops == FinalizeFrom(env, s, records, keys, [], k + 1).ops
  {
  }

  /** What could be finalized or was final still can be or is, behind a finalize of any batch. */
  lemma {:induction false} SettledOrOpen(env: Env, s: State, records: seq<Record>, id: BatchId, k: nat)
    ensures
      var n := Next(env, s, Finalize(id));
      forall j :: k <= j < |records| && PastWindow(s, records[j].id) ==>
        PastWindow(n, records[j].id)
  {
    var n := Next(env, s, Finalize(id));
    OthersKeepTime(env, s, Finalize(id));
    forall j | k <= j < |records| && PastWindow(s, records[j].id)
      ensures PastWindow(n, records[j].id)
    {
      EvolveStep(env, s, Finalize(id), records[j].id);
    }
  }

  /** Phase 2 sends nothing but finalizes of recorded batches whose committer's key is supplied. */
  lemma {:induction false} OnlyOwnBatches(env: Env, w: World, keys: set<Account>, views: seq<Reads>, op: Op)
    requires op in EffectOf(env, w, Phase2(keys, views)).ops
    ensures w.file.Some?
    ensures exists rec :: rec in w.file.value.committed && rec.committer in keys && op == Finalize(rec.id)
  {
    OwnFrom(env, w.chain, w.file.value.committed, keys, views, 0, op);
  }

  lemma {:induction false} OwnFrom(
    env: Env, s: State, records: seq<Record>, keys: set<Account>, views: seq<Reads>, k: nat, op: Op)
    requires k <= |records| && op in FinalizeFrom(env, s, records, keys, views, k).ops
    ensures exists rec :: rec in records && rec.committer in keys && op == Finalize(rec.id)
    decreases |records| - k
  {
    var first := Finalize(records[k].id);
    if records[k].committer in keys && op == first {
      assert records[k] in records;
    } else if op in FinalizeFrom(env, s, records, keys, views, k + 1).ops {
      OwnFrom(env, s, records, keys, views, k + 1, op);
    } else {
      OwnFrom(env, Next(env, s, first), records, keys, views, k + 1, op);
    }
  }

  // ---- Phase 2 on stale reads ----

  /**
   However stale the status reads are, exit 0 is right: if each of them shows some state of the history up to the end
   of the phase, every recorded batch is FINALIZED on the chain left behind. The other two reads may show anything.
   */
  lemma {:induction false} ZeroMeansFinal(
    env: Env, start: State, history: seq<Op>, w: World, keys: set<Account>, views: seq<Reads>)
    requires w.chain == Run(env, start, history)
    requires forall k :: 0 <= k < |views| ==>
      Stale(env, start, history + EffectOf(env, w, Phase2(keys, views)).ops, views[k].status)
    requires EffectOf(env, w, Phase2(keys, views)).code == 0
    ensures forall rec :: rec in w.file.value.committed ==>
      IsFinal(Perform(env, w, Phase2(keys, views)).chain, rec.id)
  {
    var ops := EffectOf(env, w, Phase2(keys, views)).ops;
    var records := w.file.value.committed;
    RunConcat(env, start, history, ops);
    Phase2ExitsZeroExactly(env, w, keys, views);
    forall k | 0 <= k < |records| ensures IsFinal(Run(env, w.chain, ops), records[k].id) {
      assert Settles(env, w.chain, records, keys, views, k);
      if k < |views| && IsFinal(views[k].status, records[k].id) {
        StaleFinalIsFinal(env, start, history + ops, views[k].status, records[k].id);
      } else {
        SentIsFinal(env, w.chain, records, views, k);
      }
    }
  }

  lemma {:induction false} SentIsFinal(env: Env, s: State, records: seq<Record>, views: seq<Reads>, k: nat)
    requires k < |records| && Reported(env, s, records, views, k)
    requires !(k < |views| && IsFinal(views[k].status, records[k].id))
    ensures IsFinal(Before(env, s, records, views, |records|), records[k].id)
  {
    FinalBehind(env, s, records, views, k);
    FinalFromHere(env, s, records, views, k + 1, records[k].id);
  }

  lemma {:induction false} FinalBehind(env: Env, s: State, records: seq<Record>, views: seq<Reads>, k: nat)
    requires k < |records| && Reported(env, s, records, views, k)
    requires !(k < |views| && IsFinal(views[k].status, records[k].id))
    ensures IsFinal(Before(env, s, records, views, k + 1), records[k].id)
  {
    var id, before := records[k].id, Before(env, s, records, views, k);
    if !IsFinal(before, id) {
      FinalizeSettles(env, before, id, id);
    } else {
      EvolveStep(env, before, Finalize(id), id);
    }
  }

  lemma {:induction false} FinalFromHere(
    env: Env, s: State, records: seq<Record>, views: seq<Reads>, k: nat, id: BatchId)
    requires k <= |records| && IsFinal(Before(env, s, records, views, k), id)
    ensures IsFinal(Before(env, s, records, views, |records|), id)
    decreases |records| - k
  {
    if k < |records| {
      EvolveStep(env, Before(env, s, records, views, k), Finalize(records[k].id), id);
      FinalFromHere(env, s, records, views, k + 1, id);
    }
  }

  // ---- Phase 1 and the top-up ----

  /** The deposit is left out on a sufficient read, or it is mined and one of six reads shows it on top. */
  ghost predicate FundingHolds(env: Env, w: World, c: Command)
    requires c.Phase1? && c.total > 0
  {
    || (c.dedicated && c.preRead >= c.total)
    || (&& Try(env, w.chain, Deposit(c.requester, c.total)).Done?
        && exists i :: 0 <= i < |c.polls| && i < 6 && c.polls[i] >= c.preRead + c.total)
  }

  ghost function FundedChain(env: Env, w: World, c: Command): State
    requires c.Phase1? && c.total > 0
  {
    if c.dedicated && c.preRead >= c.total then w.chain else Next(env, w.chain, Deposit(c.requester, c.total))
  }

  /** The chain in front of node `i` when every earlier node's commit was sent. */
  ghost function Committing(env: Env, s: State, c: Command, shares: seq<nat>, i: nat): State
    requires c.Phase1? && i <= |c.nodes| == |shares|
  {
    if i == 0 then s
    else
      var before, fate := Committing(env, s, c, shares, i - 1), FateAt(c.fates, i - 1);
      if fate.Sent? then Next(env, before, CommitOp(c.requester, c.nodes[i - 1], shares[i - 1], fate.id, fate.root))
      else before
  }

  /** Node `i`'s own commit of its share for the requester was mined and seen confirmed. */
  ghost predicate NodeCommitted(env: Env, s: State, c: Command, shares: seq<nat>, i: nat)
    requires c.Phase1? && i < |c.nodes| == |shares|
  {
    var fate := FateAt(c.fates, i);
    && fate.Sent? && fate.confirmed
    && Try(env, Committing(env, s, c, shares, i),
           Commit(c.nodes[i], fate.id, c.requester, fate.root, 1, shares[i], 0, 0)).Done?
  }

  ghost predicate AllCommitted(env: Env, s: State, c: Command, shares: seq<nat>, i: nat)
    requires c.Phase1? && |c.nodes| == |shares|
  {
    forall j :: i <= j < |c.nodes| ==> NodeCommitted(env, s, c, shares, j)
  }

  /** The record of node `j`'s commit. */
  ghost predicate RecordOf(c: Command, shares: seq<nat>, j: nat, rec: Record)
    requires c.Phase1? && j < |c.nodes| == |shares|
  {
    FateAt(c.fates, j).Sent? && rec == Record(j, FateAt(c.fates, j).id, c.nodes[j], shares[j])
  }

  lemma {:induction false} CommitsExactly(env: Env, s: State, c: Command, shares: seq<nat>, i: nat)
    requires c.Phase1? && i <= |c.nodes| == |shares|
    ensures
      var done := CommitFrom(env, Committing(env, s, c, shares, i), c.requester, c.nodes, shares, c.fates, i);
      && |done.records| <= |c.nodes| - i
      && (!done.raised && |done.records| == |c.nodes| - i <==> AllCommitted(env, s, c, shares, i))
      && (AllCommitted(env, s, c, shares, i) ==>
            forall m :: 0 <= m < |done.records| ==> RecordOf(c, shares, i + m, done.records[m]))
    decreases |c.nodes| - i
  {
    if i < |c.nodes| {
      var before, fate := Committing(env, s, c, shares, i), FateAt(c.fates, i);
      assert AllCommitted(env, s, c, shares, i) <==>
             NodeCommitted(env, s, c, shares, i) && AllCommitted(env, s, c, shares, i + 1);
      if fate.Lost? {
        CommitsExactly(env, s, c, shares, i + 1);
      } else if fate.Sent? {
        CommitsExactly(env, s, c, shares, i + 1);
        var op := CommitOp(c.requester, c.nodes[i], shares[i], fate.id, fate.root);
        var rest := CommitFrom(env, Next(env, before, op), c.requester, c.nodes, shares, c.fates, i + 1);
        var done := CommitFrom(env, before, c.requester, c.nodes, shares, c.fates, i);
        var mine := if fate.confirmed && Try(env, before, op).Done?
                    then [Record(i, fate.id, c.nodes[i], shares[i])] else [];
        assert done == Commits([op] + rest.ops, mine + rest.records, rest.raised);
        if AllCommitted(env, s, c, shares, i) {
          forall m | 0 <= m < |done.records| ensures RecordOf(c, shares, i + m, done.records[m]) {
            if m > 0 {
              assert done.records[m] == rest.records[m - 1] && i + m == i + 1 + (m - 1);
            }
          }
        }
      }
    }
  }

  /** No attempt ends the run with an exception. */
  ghost predicate NothingRaised(c: Command)
    requires c.Phase1?
  {
    forall j :: 0 <= j < |c.nodes| ==> !FateAt(c.fates, j).RaisedBefore? && !FateAt(c.fates, j).SentThenRaised?
  }

  /** Without an exception exactly the nodes whose commit was mined and confirmed are recorded. */
  lemma {:induction false} RecordedExactly(env: Env, s: State, c: Command, shares: seq<nat>, i: nat, rec: Record)
    requires c.Phase1? && i <= |c.nodes| == |shares| && NothingRaised(c)
    ensures
      var done := CommitFrom(env, Committing(env, s, c, shares, i), c.requester, c.nodes, shares, c.fates, i);
      && !done.raised
      && (rec in done.records <==>
            exists j :: i <= j < |c.nodes| && NodeCommitted(env, s, c, shares, j) && RecordOf(c, shares, j, rec))
    decreases |c.nodes| - i
  {
    if i < |c.nodes| {
      RecordedExactly(env, s, c, shares, i + 1, rec);
      var fate := FateAt(c.fates, i);
      if fate.Sent? {
        assert RecordOf(c, shares, i, Record(i, fate.id, c.nodes[i], shares[i]));
      }
    }
  }

  /**
   A funded phase 1 in which nothing raises always saves the file, complete or not: it lists exactly the nodes whose
   commit was mined and confirmed. An exception leaves the file as it was, whatever was committed before it.
   */
  lemma {:induction false} SavedExactly(env: Env, w: World, c: Command)
    requires c.Phase1? && Refusal(w.file, c.requester, c.nodes, c.total).None? && FundingHolds(env, w, c)
    ensures NothingRaised(c) ==>
              var file := Perform(env, w, c).file;
              && file.Some? && file.value.requester == c.requester && file.value.total == c.total
              && forall rec :: rec in file.value.committed <==>
                   exists j :: 0 <= j < |c.nodes|
                     && NodeCommitted(env, FundedChain(env, w, c), c, EqualShares(c.total, |c.nodes|), j)
                     && RecordOf(c, EqualShares(c.total, |c.nodes|), j, rec)
    ensures !NothingRaised(c) ==> Perform(env, w, c).file == w.file && EffectOf(env, w, c).code == 1
  {
    FundingExactly(env, w, c);
    CommitEffectFile(env, w, c);
    var shares, funded := EqualShares(c.total, |c.nodes|), FundedChain(env, w, c);
    if NothingRaised(c) {
      forall rec
        ensures rec in Perform(env, w, c).file.value.committed <==>
                exists j :: 0 <= j < |c.nodes|
                  && NodeCommitted(env, funded, c, shares, j) && RecordOf(c, shares, j, rec)
      {
        RecordedExactly(env, funded, c, shares, 0, rec);
      }
    } else {
      RaisesSomewhere(env, funded, c, shares, 0);
    }
  }

  lemma {:induction false} CommitEffectFile(env: Env, w: World, c: Command)
    requires c.Phase1? && c.total > 0 && c.nodes != []
    ensures
      var shares, funded := EqualShares(c.total, |c.nodes|), FundedChain(env, w, c);
      var done := CommitFrom(env, Committing(env, funded, c, shares, 0), c.requester, c.nodes, shares, c.fates, 0);
      var e := CommitEffect(env, w, c, Funding(c));
      && e.file == (if done.raised then w.file else Some(Saved(c.requester, c.total, done.records)))
      && (done.raised ==> e.code == 1)
      && (NothingRaised(c) ==> !done.raised)
  {
    assert Run(env, w.chain, Funding(c)) == FundedChain(env, w, c);
    var shares := EqualShares(c.total, |c.nodes|);
    if NothingRaised(c) {
      RecordedExactly(env, FundedChain(env, w, c), c, shares, 0, Record(0, 0, c.nodes[0], 0));
    }
  }

  lemma {:induction false} RaisesSomewhere(env: Env, s: State, c: Command, shares: seq<nat>, i: nat)
    requires c.Phase1? && i <= |c.nodes| == |shares|
    requires exists j :: i <= j < |c.nodes| && (FateAt(c.fates, j).RaisedBefore? || FateAt(c.fates, j).SentThenRaised?)
    ensures CommitFrom(env, Committing(env, s, c, shares, i), c.requester, c.nodes, shares, c.fates, i).raised
    decreases |c.nodes| - i
  {
    if FateAt(c.fates, i).Lost? || FateAt(c.fates, i).Sent? {
      RaisesSomewhere(env, s, c, shares, i + 1);
    }
  }

  /** The exit codes of phase 1: 2 for a requester among the nodes or no amount, 1 for everything else that fails. */
  lemma {:induction false} Phase1Codes(env: Env, w: World, c: Command)
    requires c.Phase1?
    ensures EffectOf(env, w, c).code <= 2
    ensures EffectOf(env, w, c).code == 2 <==> c.requester in c.nodes || c.total <= 0
    ensures c.requester in c.nodes || c.total <= 0 || HasCommitted(w) || |c.nodes| < 2 ==> Perform(env, w, c) == w
  {
  }

  function Funding(c: Command): seq<Op>
    requires c.Phase1? && c.total > 0
  {
    if c.dedicated && c.preRead >= c.total then [] else [Deposit(c.requester, c.total)]
  }

  /** The saved file lists the commits node by node. */
  ghost predicate SavedInOrder(file: Option<Saved>, c: Command)
    requires c.Phase1? && c.total > 0 && c.nodes != []
  {
    && file.Some? && file.value.requester == c.requester && file.value.total == c.total
    && |file.value.committed| == |c.nodes|
    && forall i :: 0 <= i < |c.nodes| ==>
         RecordOf(c, EqualShares(c.total, |c.nodes|), i, file.value.committed[i])
  }

  lemma {:induction false} CommitEffectExactly(env: Env, w: World, c: Command)
    requires c.Phase1? && c.total > 0 && c.nodes != []
    ensures
      var e := CommitEffect(env, w, c, Funding(c));
      && e.code <= 1
      && (e.code == 0 <==> AllCommitted(env, FundedChain(env, w, c), c, EqualShares(c.total, |c.nodes|), 0))
      && (e.code == 0 ==> SavedInOrder(e.file, c))
  {
    assert Run(env, w.chain, Funding(c)) == FundedChain(env, w, c);
    var shares := EqualShares(c.total, |c.nodes|);
    CommitsExactly(env, FundedChain(env, w, c), c, shares, 0);
    var done := CommitFrom(env, FundedChain(env, w, c), c.requester, c.nodes, shares, c.fates, 0);
    assert Committing(env, FundedChain(env, w, c), c, shares, 0) == FundedChain(env, w, c);
    if !done.raised && |done.records| == |c.nodes| {
      forall i | 0 <= i < |c.nodes| ensures RecordOf(c, shares, i, done.records[i]) {
        assert RecordOf(c, shares, 0 + i, done.records[i]);
      }
    }
  }

  lemma {:induction false} FundingExactly(env: Env, w: World, c: Command)
    requires c.Phase1? && Refusal(w.file, c.requester, c.nodes, c.total).None?
    ensures EffectOf(env, w, c) ==
            if FundingHolds(env, w, c) then CommitEffect(env, w, c, Funding(c)) else Effect(Funding(c), w.file, 1)
  {
  }

  /**
   Phase 1 exits 0 if and only if nothing was recorded before, at least two nodes other than the requester share a
   positive uint128 amount without overwriting each other, the escrow was funded, and every node's commit was mined and
   confirmed; then the saved records are those commits, node by node.
   */
  lemma {:induction false} Phase1ExitsZeroExactly(env: Env, w: World, c: Command)
    requires c.Phase1?
    ensures EffectOf(env, w, c).code == 0 <==>
              && c.requester !in c.nodes && 2 <= |c.nodes| && 0 < c.total < Pow256(16)
              && (w.file.Some? ==> w.file.value.committed == [])
              && Overwritten(c.nodes, EqualShares(c.total, |c.nodes|)) == 0
              && FundingHolds(env, w, c)
              && AllCommitted(env, FundedChain(env, w, c), c, EqualShares(c.total, |c.nodes|), 0)
    ensures EffectOf(env, w, c).code == 0 ==> SavedInOrder(Perform(env, w, c).file, c)
  {
    if Refusal(w.file, c.requester, c.nodes, c.total).None? {
      FundingExactly(env, w, c);
      CommitEffectExactly(env, w, c);
    }
  }

  /** The top-up exits 2 for no amount, and 0 exactly when the deposit is mined and one of six reads shows it. */
  lemma {:induction false} TopUpCodes(env: Env, w: World, c: Command)
    requires c.TopUp?
    ensures
      var code := EffectOf(env, w, c).code;
      && (code == 2 <==> c.amount <= 0)
      && (code == 0 <==>
            && 0 < c.amount <= Get(w.chain.wallets, c.requester) && !w.chain.poolPaused
            && exists i :: 0 <= i < |c.polls| && i < 6 && c.polls[i] >= c.preRead + c.amount)
      && code <= 2
      && Perform(env, w, c) ==
           if c.amount <= 0 then w else World(Next(env, w.chain, Deposit(c.requester, c.amount)), w.file)
  {
    if c.amount > 0 {
      assert Run(env, w.chain, [Deposit(c.requester, c.amount)])
          == Next(env, w.chain, Deposit(c.requester, c.amount));
    }
  }
}
