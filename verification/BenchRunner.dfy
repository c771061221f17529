/** The phases as the script runs them: loops over nodes and records that send transactions and save the state file. */
module BenchRunner {
  import opened Words
  import opened Outcomes
  import opened Totals
  import opened Shares
  import opened Ledger
  import opened Solvency
  import opened Bench
  import opened BenchSafety
  import Chain

  method PollBalance(polls: seq<nat>, target: nat) returns (confirmed: bool)
    ensures confirmed <==> Confirmed(polls, target)
  {
    for i := 0 to POLLS
      invariant forall j :: 0 <= j < i && j < |polls| ==> polls[j] < target
    {
      if i < |polls| && polls[i] >= target {
        return true;
      }
    }
    confirmed := false;
  }

  // ---- The loops in accumulating form ----

  datatype CommitRun = CommitRun(state: State, records: seq<Record>, raised: bool)

  ghost function CommitLoop(
    env: Env, s: State, requester: Account, nodes: seq<Account>, shares: seq<nat>, fates: seq<Fate>,
    i: nat, records: seq<Record>): CommitRun
    requires |nodes| == |shares| && i <= |nodes|
    decreases |nodes| - i
  {
    if i == |nodes| then CommitRun(s, records, false)
    else match FateAt(fates, i)
      case Lost => CommitLoop(env, s, requester, nodes, shares, fates, i + 1, records)
      case RaisedBefore => CommitRun(s, records, true)
      case SentThenRaised(id, root) =>
        CommitRun(Next(env, s, CommitOp(requester, nodes[i], shares[i], id, root)), records, true)
      case Sent(id, root, confirmed) =>
        var op := CommitOp(requester, nodes[i], shares[i], id, root);
        var records' :=
          if confirmed && Try(env, s, op).Done? then records + [Record(i, id, nodes[i], shares[i])] else records;
        CommitLoop(env, Next(env, s, op), requester, nodes, shares, fates, i + 1, records')
  }

  lemma {:induction false} CommitLoopMeaning(
    env: Env, s: State, requester: Account, nodes: seq<Account>, shares: seq<nat>, fates: seq<Fate>,
    i: nat, records: seq<Record>)
    requires |nodes| == |shares| && i <= |nodes|
    ensures
      var done := CommitFrom(env, s, requester, nodes, shares, fates, i);
      CommitLoop(env, s, requester, nodes, shares, fates, i, records)
      == CommitRun(Run(env, s, done.ops), records + done.records, done.raised)
    decreases |nodes| - i
  {
    if i == |nodes| {
      assert records + [] == records;
    } else {
      match FateAt(fates, i)
      case Lost => CommitLoopMeaning(env, s, requester, nodes, shares, fates, i + 1, records);
      case RaisedBefore => assert records + [] == records;
      case SentThenRaised(id, root) =>
        var op := CommitOp(requester, nodes[i], shares[i], id, root);
        assert Run(env, s, [op]) == Next(env, s, op);
        assert records + [] == records;
      case Sent(id, root, confirmed) =>
        var op := CommitOp(requester, nodes[i], shares[i], id, root);
        var n := Next(env, s, op);
        var rest := CommitFrom(env, n, requester, nodes, shares, fates, i + 1);
        var mine := if confirmed && Try(env, s, op).Done? then [Record(i, id, nodes[i], shares[i])] else [];
        CommitLoopMeaning(env, n, requester, nodes, shares, fates, i + 1, records + mine);
        assert ([op] + rest.ops)[1..] == rest.ops;
        assert records + (mine + rest.records) == records + mine + rest.records;
        assert mine == [] ==> records + mine == records;
    }
  }

  datatype FinalRun = FinalRun(state: State, ok: bool)

  ghost function FinalizeLoop(
    env: Env, s: State, records: seq<Record>, keys: set<Account>, views: seq<Reads>, k: nat, ok: bool): FinalRun
    requires k <= |records|
    decreases |records| - k
  {
    if k == |records| then FinalRun(s, ok)
    else
      var id := records[k].id;
      if records[k].committer !in keys then FinalizeLoop(env, s, records, keys, views, k + 1, false)
      else match DecideAt(views, k, s, id)
        case AlreadyFinal => FinalizeLoop(env, s, records, keys, views, k + 1, ok)
        case Missing => FinalizeLoop(env, s, records, keys, views, k + 1, false)
        case NotYet => FinalizeLoop(env, s, records, keys, views, k + 1, false)
        case Submit =>
          var next := Next(env, s, Finalize(id));
          if Try(env, s, Finalize(id)).Reverted? then FinalRun(s, false)
          else FinalizeLoop(env, next, records, keys, views, k + 1,
            ok && IsFinal(if k < |views| then views[k].after else next, id))
  }

  lemma {:induction false} FinalizeLoopMeaning(
    env: Env, s: State, records: seq<Record>, keys: set<Account>, views: seq<Reads>, k: nat, ok: bool)
    requires k <= |records|
    ensures
      var done := FinalizeFrom(env, s, records, keys, views, k);
      FinalizeLoop(env, s, records, keys, views, k, ok) == FinalRun(Run(env, s, done.ops), ok && done.ok)
    decreases |records| - k
  {
    if k < |records| {
      var id := records[k].id;
      if records[k].committer !in keys {
        FinalizeLoopMeaning(env, s, records, keys, views, k + 1, false);
      } else {
        match DecideAt(views, k, s, id)
        case AlreadyFinal => FinalizeLoopMeaning(env, s, records, keys, views, k + 1, ok);
        case Missing => FinalizeLoopMeaning(env, s, records, keys, views, k + 1, false);
        case NotYet => FinalizeLoopMeaning(env, s, records, keys, views, k + 1, false);
        case Submit =>
          var n := Next(env, s, Finalize(id));
          if Try(env, s, Finalize(id)).Reverted? {
            assert Run(env, s, [Finalize(id)]) == s;
          } else {
            FinalizeLoopMeaning(env, n, records, keys, views, k + 1,
              ok && IsFinal(if k < |views| then views[k].after else n, id));
            RunCons(env, s, Finalize(id), FinalizeFrom(env, n, records, keys, views, k + 1).ops);
          }
      }
    }
  }

  // ---- What each exit of phase 1 leaves behind ----

  lemma {:induction false} Refused(env: Env, w: World, c: Command)
    requires c.Phase1? && Refusal(w.file, c.requester, c.nodes, c.total).Some?
    ensures Perform(env, w, c) == w
    ensures EffectOf(env, w, c).code == Refusal(w.file, c.requester, c.nodes, c.total).value
  {
  }

  lemma {:induction false} FundingFailed(env: Env, w: World, c: Command)
    requires c.Phase1? && !Skips(c) && Refusal(w.file, c.requester, c.nodes, c.total).None?
    requires Try(env, w.chain, Deposit(c.requester, c.total)).Reverted? || !Confirmed(c.polls, c.preRead + c.total)
    ensures Perform(env, w, c) == World(Next(env, w.chain, Deposit(c.requester, c.total)), w.file)
    ensures EffectOf(env, w, c).code == 1
  {
    assert Run(env, w.chain, [Deposit(c.requester, c.total)]) == Next(env, w.chain, Deposit(c.requester, c.total));
  }

  ghost predicate Funded(env: Env, w: World, c: Command, funded: State)
    requires c.Phase1? && c.total >= 0
  {
    if Skips(c) then funded == w.chain
    else && Try(env, w.chain, Deposit(c.requester, c.total)).Done?
         && Confirmed(c.polls, c.preRead + c.total)
         && funded == Next(env, w.chain, Deposit(c.requester, c.total))
  }

  lemma {:induction false} AfterCommits(env: Env, w: World, c: Command, funded: State)
    requires c.Phase1? && Refusal(w.file, c.requester, c.nodes, c.total).None? && Funded(env, w, c, funded)
    ensures
      var run := CommitLoop(env, funded, c.requester, c.nodes, EqualShares(c.total, |c.nodes|), c.fates, 0, []);
      && Perform(env, w, c)
        == World(run.state, if run.raised then w.file else Some(Saved(c.requester, c.total, run.records)))
      && EffectOf(env, w, c).code == if !run.raised && |run.records| == |c.nodes| then 0 else 1
  {
    var shares := EqualShares(c.total, |c.nodes|);
    var funding := if Skips(c) then [] else [Deposit(c.requester, c.total)];
    assert Run(env, w.chain, funding) == funded;
    var done := CommitFrom(env, funded, c.requester, c.nodes, shares, c.fates, 0);
    CommitLoopMeaning(env, funded, c.requester, c.nodes, shares, c.fates, 0, []);
    assert [] + done.records == done.records;
    RunConcat(env, w.chain, funding, done.ops);
  }

  class Runner {
    const chain: Chain.Contracts
    var file: Option<Saved>

    ghost function TheWorld(): World
      reads this, chain
    {
      World(chain.View(), file)
    }

    constructor (chain: Chain.Contracts, file: Option<Saved>)
      ensures this.chain == chain && this.file == file
    {
      this.chain := chain;
      this.file := file;
    }

    /** Each node commits its own share-batch, in order; what was confirmed is recorded. */
    method CommitShares(requester: Account, nodes: seq<Account>, shares: seq<nat>, fates: seq<Fate>)
      returns (records: seq<Record>, raised: bool)
      requires |nodes| == |shares|
      modifies chain
      ensures CommitRun(chain.View(), records, raised)
           == CommitLoop(chain.env, old(chain.View()), requester, nodes, shares, fates, 0, [])
    {
      records := [];
      for i := 0 to |nodes|
        invariant CommitLoop(chain.env, old(chain.View()), requester, nodes, shares, fates, 0, [])
               == CommitLoop(chain.env, chain.View(), requester, nodes, shares, fates, i, records)
      {
        var fate := FateAt(fates, i);
        if fate.RaisedBefore? {
          return records, true;
        }
        if fate.Sent? || fate.SentThenRaised? {
          var ok := chain.CommitBatch(nodes[i], fate.id, requester, fate.root, 1, shares[i], 0, 0);
          if fate.SentThenRaised? {
            return records, true;
          }
          if ok && fate.confirmed {
            records := records + [Record(i, fate.id, nodes[i], shares[i])];
          }
        }
      }
      raised := false;
    }

    method RunPhase1(c: Command) returns (code: nat)
      requires c.Phase1?
      modifies this, chain
      ensures TheWorld() == Perform(chain.env, old(TheWorld()), c)
      ensures code == EffectOf(chain.env, old(TheWorld()), c).code
    {
      ghost var w := TheWorld();
      var refusal := CheckArguments(c);
      if refusal.Some? {
        Refused(chain.env, w, c);
        return refusal.value;
      }
      if !(c.dedicated && c.preRead >= c.total) {
        var deposited := chain.Deposit(c.requester, c.total);
        var confirmed := PollBalance(c.polls, c.preRead + c.total);
        if !deposited || !confirmed {
          FundingFailed(chain.env, w, c);
          return 1;
        }
      }
      AfterCommits(chain.env, w, c, chain.View());
      var records, raised := CommitShares(c.requester, c.nodes, EqualShares(c.total, |c.nodes|), c.fates);
      if raised {
        return 1;
      }
      file := Some(Saved(c.requester, c.total, records));
      code := if |records| == |c.nodes| then 0 else 1;
    }

    /** The idempotency guard and the offline assembly, before anything touches the chain. */
    method CheckArguments(c: Command) returns (refusal: Option<nat>)
      requires c.Phase1?
      ensures refusal == Refusal(file, c.requester, c.nodes, c.total)
    {
      if c.requester in c.nodes || c.total <= 0 {
        return Some(2);
      }
      if file.Some? && file.value.committed != [] {
        return Some(1);
      }
      var assembled := AssembleOffline(c.nodes, c.total);
      refusal := if assembled then None else Some(1);
    }

    /** Whether the shares and the expected payouts can be computed. */
    method AssembleOffline(nodes: seq<Account>, total: int) returns (ok: bool)
      requires total > 0
      ensures ok <==> 2 <= |nodes| && total < Pow256(16) && Overwritten(nodes, EqualShares(total, |nodes|)) == 0
    {
      if |nodes| < 2 {
        return false;
      }
      var split := ComputePerStageShares(total, |nodes|);
      if split.Raised? {
        return false;
      }
      var expected := ComputeExpectedPayouts(nodes, split.value, total);
      ok := expected.Ok?;
    }

    /** Each recorded batch is finalized by its own committer's key, straight from what the replica shows. */
    method RunPhase2(keys: set<Account>, views: seq<Reads>) returns (code: nat)
      modifies chain
      ensures TheWorld() == Perform(chain.env, old(TheWorld()), Phase2(keys, views))
      ensures code == EffectOf(chain.env, old(TheWorld()), Phase2(keys, views)).code
    {
      if file.None? || file.value.committed == [] {
        return 1;
      }
      var records := file.value.committed;
      FinalizeLoopMeaning(chain.env, chain.View(), records, keys, views, 0, true);
      var ok := FinalizeRecords(records, keys, views);
      code := if ok then 0 else 1;
    }

    method FinalizeRecords(records: seq<Record>, keys: set<Account>, views: seq<Reads>) returns (ok: bool)
      modifies chain
      ensures FinalRun(chain.View(), ok) == FinalizeLoop(chain.env, old(chain.View()), records, keys, views, 0, true)
    {
      ok := true;
      for k := 0 to |records|
        invariant FinalizeLoop(chain.env, old(chain.View()), records, keys, views, 0, true)
               == FinalizeLoop(chain.env, chain.View(), records, keys, views, k, ok)
      {
        var id := records[k].id;
        if records[k].committer !in keys {
          ok := false;
        } else {
          var now := DecideNow(id);
          var report := if k < |views| then Decide(views[k].status, views[k].window, id) else now;
          if report.Submit? {
            var done := chain.FinalizeBatch(id);
            if !done {
              return false;
            }
            var settled := if k < |views| then IsFinal(views[k].after, id)
                           else id in chain.batches && chain.batches[id].status.Finalized?;
            ok := ok && settled;
          } else if !report.AlreadyFinal? {
            ok := false;
          }
        }
      }
    }

    method DecideNow(id: BatchId) returns (r: Report)
      ensures r == Decide(chain.View(), chain.View(), id)
    {
      if id !in chain.batches {
        return Missing;
      }
      var b := chain.batches[id];
      if b.status.Finalized? {
        return AlreadyFinal;
      }
      var elapsed := chain.EffectiveElapsed(b);
      r := if elapsed >= b.window then Submit else NotYet;
    }

    method RunDepositTopup(c: Command) returns (code: nat)
      requires c.TopUp?
      modifies chain
      ensures TheWorld() == Perform(chain.env, old(TheWorld()), c)
      ensures code == EffectOf(chain.env, old(TheWorld()), c).code
    {
      if c.amount <= 0 {
        return 2;
      }
      ghost var before := chain.View();
      var deposited := chain.Deposit(c.requester, c.amount);
      assert Run(chain.env, before, [Deposit(c.requester, c.amount)]) == chain.View();
      if !deposited {
        return 1;
      }
      var confirmed := PollBalance(c.polls, c.preRead + c.amount);
      code := if confirmed then 0 else 1;
    }
  }

  // ---- The read-only verify phase ----

  /** Sum of the on-chain values of the recorded batches still pending. */
  function KnownClaims(s: State, records: seq<Record>): nat {
    if records == [] then 0 else PendingValue(s, records[0].id) + KnownClaims(s, records[1..])
  }

  function PendingValue(s: State, id: BatchId): nat {
    if id in s.batches && s.batches[id].status.Pending? then s.batches[id].total else 0
  }

  method RunVerify(s: State, requester: Account, records: seq<Record>) returns (known: nat, sufficient: bool)
    ensures known == KnownClaims(s, records)
    ensures sufficient <==> Get(s.balances, requester) >= KnownClaims(s, records)
  {
    known := 0;
    for k := 0 to |records|
      invariant known + KnownClaims(s, records[k..]) == KnownClaims(s, records)
    {
      assert records[k..][1..] == records[k + 1..];
      known := known + PendingValue(s, records[k].id);
    }
    sufficient := Get(s.balances, requester) >= known;
  }

  function Ids(records: seq<Record>): (ids: seq<BatchId>)
    ensures |ids| == |records|
  {
    seq(|records|, i requires 0 <= i < |records| => records[i].id)
  }

  /** What the verdict counts too much for one batch: the invalidated part of a pending one. */
  function InvalidPart(s: State, id: BatchId): nat {
    if id in s.batches && s.batches[id].status.Pending?
    then if s.batches[id].invalidated < s.batches[id].total then s.batches[id].invalidated else s.batches[id].total
    else 0
  }

  function InvalidParts(s: State, records: seq<Record>): nat {
    if records == [] then 0 else InvalidPart(s, records[0].id) + InvalidParts(s, records[1..])
  }

  /** Claims of the batches that are not recorded. */
  ghost function OutsideClaims(s: State, records: seq<Record>, r: Account): nat {
    Total(ClaimMap(s.batches, r) - (set id | id in Ids(records)))
  }

  /** The pending recorded batches draw on the escrow of `r`. */
  ghost predicate DrawOn(s: State, records: seq<Record>, r: Account) {
    forall rec :: rec in records && rec.id in s.batches && s.batches[rec.id].status.Pending? ==>
      s.batches[rec.id].requester == r
  }

  lemma {:induction false} KnownIsSum(s: State, records: seq<Record>, r: Account)
    requires DrawOn(s, records, r)
    ensures KnownClaims(s, records) == SumAt(ClaimMap(s.batches, r), Ids(records)) + InvalidParts(s, records)
  {
    if records != [] {
      KnownIsSum(s, records[1..], r);
      assert records[0] in records;
      assert Ids(records)[1..] == Ids(records[1..]);
    }
  }

  /**
   What the verdict is worth, exactly. The pool is covered when its balance reaches the known claims less their
   invalidated parts plus the claims of batches that are not recorded; the verdict compares with the known claims only.
   */
  lemma {:induction false} VerdictExactly(s: State, records: seq<Record>, r: Account)
    requires DistinctIds(records) && DrawOn(s, records, r)
    ensures
      var known, invalid, outside, balance :=
        KnownClaims(s, records), InvalidParts(s, records), OutsideClaims(s, records, r), Get(s.balances, r);
      && Claims(s, r) == known - invalid + outside
      && (Covered(s, r) <==> known - invalid + outside <= balance)
      && (balance >= known && !Covered(s, r) <==> known <= balance < known - invalid + outside)
      && (balance < known && Covered(s, r) <==> known - invalid + outside <= balance < known)
      && (invalid == 0 && balance < known ==> !Covered(s, r))
      && (invalid == 0 && balance >= known ==> (Covered(s, r) <==> known + outside <= balance))
  {
    KnownIsSum(s, records, r);
    SumAtRest(ClaimMap(s.batches, r), Ids(records));
  }

  /** The state where SHORT is wrong: one recorded batch of 10 with 5 invalidated, and 5 in escrow. */
  function HalfInvalid(): State {
    var b := Batch(2, 1, ROOT, 10, 5, 0, MIN_WINDOW, 0, MIN_LOOKBACK, 0, true, false, Pending);
    State(MIN_WINDOW, map[], 5, map[1 := 5], 5, false, map[0 := b], {}, MIN_WINDOW, MIN_LOOKBACK,
      true, false, false, 0, 0)
  }

  lemma {:induction false} ShortWitness()
    ensures
      var s, records := HalfInvalid(), [Record(0, 0, 2, 10)];
      Get(s.balances, 1) < KnownClaims(s, records) && Covered(s, 1)
  {
    var s, records := HalfInvalid(), [Record(0, 0, 2, 10)];
    var none: map<BatchId, Batch> := map[];
    assert s.batches == none[0 := s.batches[0]];
    ClaimsUpdate(none, 0, s.batches[0], 1);
    TotalZero(ClaimMap(none, 1));
    assert records[1..] == [];
  }
}
