/**
 The two-phase settlement bench: scripts/per_stage_sepolia_bench.py, with the finalize path of
 prsm/settlement/e2e_proof.py and the commit loop of prsm/settlement/per_stage_commit.py.
 Reads that may come from a lagging replica are arguments; transactions act on the real chain.
 */
module Bench {
  import opened Words
  import opened Outcomes
  import opened Totals
  import opened Shares
  import opened Ledger
  import opened Solvency

  /** One entry of the state file's `committed` dictionary, in insertion order. */
  datatype Record = Record(node: nat, id: BatchId, committer: Account, share: nat)
  datatype Saved = Saved(requester: Account, total: nat, committed: seq<Record>)
  datatype World = World(chain: State, file: Option<Saved>)

  /** What becomes of one node's commit attempt. */
  datatype Fate =
    | Lost                                              // never reached the chain
    | Sent(id: BatchId, root: Bytes, confirmed: bool)   // mined; recorded only if the client saw it confirmed
    | SentThenRaised(id: BatchId, root: Bytes)          // mined, then an exception ended the run
    | RaisedBefore                                      // an exception ended the run

  /** The replicas that answer for one record: status, window, and status again behind the transaction. */
  datatype Reads = Reads(status: State, window: State, after: State)

  datatype Command =
    | Phase1(requester: Account, nodes: seq<Account>, total: int, dedicated: bool,
             preRead: nat, polls: seq<nat>, fates: seq<Fate>)
    | Phase2(keys: set<Account>, views: seq<Reads>)
    | TopUp(requester: Account, amount: int, preRead: nat, polls: seq<nat>)
    | Foreign(op: Op)

  const POLLS := 6

  /** Some of the first six balance reads reached the target. */
  predicate Confirmed(polls: seq<nat>, target: nat) {
    exists i :: 0 <= i < |polls| && i < POLLS && polls[i] >= target
  }

  // ---- Phase 1 ----

  /** The checks in front of any transaction; the exit code when one of them stops the run. */
  function Refusal(file: Option<Saved>, requester: Account, nodes: seq<Account>, total: int): Option<nat> {
    if requester in nodes || total <= 0 then Some(2)
    else if file.Some? && file.value.committed != [] then Some(1)
    else if |nodes| < 2 || total >= Pow256(16) then Some(1)
    else if Overwritten(nodes, EqualShares(total, |nodes|)) > 0 then Some(1)
    else None
  }

  function FateAt(fates: seq<Fate>, i: nat): Fate {
    if i < |fates| then fates[i] else Lost
  }

  function CommitOp(requester: Account, node: Account, share: nat, id: BatchId, root: Bytes): Op {
    Commit(node, id, requester, root, 1, share, 0, 0)
  }

  datatype Commits = Commits(ops: seq<Op>, records: seq<Record>, raised: bool)

  /** The commit loop from node `i` on. */
  function CommitFrom(
    env: Env, s: State, requester: Account, nodes: seq<Account>, shares: seq<nat>, fates: seq<Fate>, i: nat): Commits
    requires |nodes| == |shares| && i <= |nodes|
    decreases |nodes| - i
  {
    if i == |nodes| then Commits([], [], false)
    else match FateAt(fates, i)
      case Lost => CommitFrom(env, s, requester, nodes, shares, fates, i + 1)
      case RaisedBefore => Commits([], [], true)
      case SentThenRaised(id, root) => Commits([CommitOp(requester, nodes[i], shares[i], id, root)], [], true)
      case Sent(id, root, confirmed) =>
        var op := CommitOp(requester, nodes[i], shares[i], id, root);
        var rest := CommitFrom(env, Next(env, s, op), requester, nodes, shares, fates, i + 1);
        var mine := if confirmed && Try(env, s, op).Done? then [Record(i, id, nodes[i], shares[i])] else [];
        Commits([op] + rest.ops, mine + rest.records, rest.raised)
  }

  datatype Effect = Effect(ops: seq<Op>, file: Option<Saved>, code: nat)

  function Phase1Effect(env: Env, w: World, c: Command): Effect
    requires c.Phase1?
  {
    var refusal := Refusal(w.file, c.requester, c.nodes, c.total);
    if refusal.Some? then Effect([], w.file, refusal.value)
    else if c.dedicated && c.preRead >= c.total then CommitEffect(env, w, c, [])
    else if Try(env, w.chain, Deposit(c.requester, c.total)).Reverted? then
      Effect([Deposit(c.requester, c.total)], w.file, 1)
    else if !Confirmed(c.polls, c.preRead + c.total) then Effect([Deposit(c.requester, c.total)], w.file, 1)
    else CommitEffect(env, w, c, [Deposit(c.requester, c.total)])
  }

  function CommitEffect(env: Env, w: World, c: Command, funding: seq<Op>): Effect
    requires c.Phase1? && c.total > 0 && c.nodes != []
  {
    var shares := EqualShares(c.total, |c.nodes|);
    var done := CommitFrom(env, Run(env, w.chain, funding), c.requester, c.nodes, shares, c.fates, 0);
    if done.raised then Effect(funding + done.ops, w.file, 1)
    else Effect(funding + done.ops, Some(Saved(c.requester, c.total, done.records)),
                if |done.records| == |c.nodes| then 0 else 1)
  }

  // ---- Phase 2 ----

  datatype Report = Missing | AlreadyFinal | NotYet | Submit

  /** The decision of `run_finalize_by_batch_id`: the status from one replica, the window from another. */
  function Decide(status: State, window: State, id: BatchId): Report {
    if id !in status.batches then Missing
    else if status.batches[id].status.Finalized? then AlreadyFinal
    else if IsFinalizable(window, id) then Submit
    else NotYet
  }

  function DecideAt(views: seq<Reads>, k: nat, s: State, id: BatchId): Report {
    if k < |views| then Decide(views[k].status, views[k].window, id) else Decide(s, s, id)
  }

  datatype Finals = Finals(ops: seq<Op>, ok: bool)

  /**
   The finalize loop from record `k` on; a reverted transaction raises and ends it. `views[k]` are the
   states that answered its reads; past their end reads are fresh.
   */
  function FinalizeFrom(env: Env, s: State, records: seq<Record>, keys: set<Account>, views: seq<Reads>, k: nat): Finals
    requires k <= |records|
    decreases |records| - k
  {
    if k == |records| then Finals([], true)
    else
      var id := records[k].id;
      if records[k].committer !in keys then FinalizeFrom(env, s, records, keys, views, k + 1).(ok := false)
      else match DecideAt(views, k, s, id)
        case AlreadyFinal => FinalizeFrom(env, s, records, keys, views, k + 1)
        case Missing => FinalizeFrom(env, s, records, keys, views, k + 1).(ok := false)
        case NotYet => FinalizeFrom(env, s, records, keys, views, k + 1).(ok := false)
        case Submit =>
          if Try(env, s, Finalize(id)).Reverted? then Finals([Finalize(id)], false)
          else
            var next := Next(env, s, Finalize(id));
            var done := FinalizeFrom(env, next, records, keys, views, k + 1);
            Finals([Finalize(id)] + done.ops, IsFinal(if k < |views| then views[k].after else next, id) && done.ok)
  }

  function Phase2Effect(env: Env, w: World, keys: set<Account>, views: seq<Reads>): Effect {
    if w.file.None? || w.file.value.committed == [] then Effect([], w.file, 1)
    else
      var done := FinalizeFrom(env, w.chain, w.file.value.committed, keys, views, 0);
      Effect(done.ops, w.file, if done.ok then 0 else 1)
  }

  function TopUpEffect(env: Env, w: World, c: Command): Effect
    requires c.TopUp?
  {
    if c.amount <= 0 then Effect([], w.file, 2)
    else Effect([Deposit(c.requester, c.amount)], w.file,
                if Try(env, w.chain, Deposit(c.requester, c.amount)).Done? && Confirmed(c.polls, c.preRead + c.amount)
                then 0 else 1)
  }

  function EffectOf(env: Env, w: World, c: Command): Effect {
    match c
    case Phase1(_, _, _, _, _, _, _) => Phase1Effect(env, w, c)
    case Phase2(keys, views) => Phase2Effect(env, w, keys, views)
    case TopUp(_, _, _, _) => TopUpEffect(env, w, c)
    case Foreign(op) => Effect([op], w.file, 0)
  }

  function Perform(env: Env, w: World, c: Command): World {
    var e := EffectOf(env, w, c);
    World(Run(env, w.chain, e.ops), e.file)
  }

  function Play(env: Env, w: World, cs: seq<Command>): World
    decreases cs
  {
    if cs == [] then w else Play(env, Perform(env, w, cs[0]), cs[1..])
  }

  /** All transactions of a play, in order. */
  ghost function PlayOps(env: Env, w: World, cs: seq<Command>): seq<Op>
    decreases cs
  {
    if cs == [] then [] else EffectOf(env, w, cs[0]).ops + PlayOps(env, Perform(env, w, cs[0]), cs[1..])
  }

  lemma {:induction false} PlayIsRun(env: Env, w: World, cs: seq<Command>)
    ensures Play(env, w, cs).chain == Run(env, w.chain, PlayOps(env, w, cs))
    decreases cs
  {
    if cs != [] {
      var ops := EffectOf(env, w, cs[0]).ops;
      var w' := Perform(env, w, cs[0]);
      PlayIsRun(env, w', cs[1..]);
      RunConcat(env, w.chain, ops, PlayOps(env, w', cs[1..]));
    }
  }

  // ---- Solvency of every interleaving ----

  lemma {:induction false} CommitsSlack(
    env: Env, s: State, requester: Account, nodes: seq<Account>, shares: seq<nat>, fates: seq<Fate>, i: nat,
    r: Account)
    requires |nodes| == |shares| && i <= |nodes|
    ensures
      var done := CommitFrom(env, s, requester, nodes, shares, fates, i);
      Slack(Run(env, s, done.ops), r) >= Slack(s, r) - (if r == requester then Sum(shares[i..]) else 0)
    decreases |nodes| - i
  {
    if i < |nodes| {
      assert shares[i..][1..] == shares[i + 1..];
      match FateAt(fates, i)
      case Lost => CommitsSlack(env, s, requester, nodes, shares, fates, i + 1, r);
      case RaisedBefore =>
      case SentThenRaised(id, root) =>
        var op := CommitOp(requester, nodes[i], shares[i], id, root);
        SlackStep(env, s, op, r);
        assert Run(env, s, [op]) == Next(env, s, op);
      case Sent(id, root, confirmed) =>
        var op := CommitOp(requester, nodes[i], shares[i], id, root);
        SlackStep(env, s, op, r);
        CommitsSlack(env, Next(env, s, op), requester, nodes, shares, fates, i + 1, r);
        var rest := CommitFrom(env, Next(env, s, op), requester, nodes, shares, fates, i + 1);
        assert ([op] + rest.ops)[1..] == rest.ops;
    }
  }

  /** A phase-1 command that leaves out the deposit because one read showed enough money. */
  predicate Skips(c: Command) {
    c.Phase1? && c.dedicated && c.preRead >= c.total
  }

  lemma {:induction false} FinalsAreFinalizes(
    env: Env, s: State, records: seq<Record>, keys: set<Account>, views: seq<Reads>, k: nat)
    requires k <= |records|
    ensures forall op :: op in FinalizeFrom(env, s, records, keys, views, k).ops ==> op.Finalize?
    decreases |records| - k
  {
    if k < |records| {
      FinalsAreFinalizes(env, s, records, keys, views, k + 1);
      FinalsAreFinalizes(env, Next(env, s, Finalize(records[k].id)), records, keys, views, k + 1);
    }
  }

  lemma {:induction false} HarmlessRun(env: Env, s: State, ops: seq<Op>, r: Account)
    requires forall op :: op in ops ==> Harmless(op, r)
    ensures Slack(Run(env, s, ops), r) >= Slack(s, r)
    decreases ops
  {
    if ops != [] {
      HarmlessStep(env, s, ops[0], r);
      HarmlessRun(env, Next(env, s, ops[0]), ops[1..], r);
    }
  }

  lemma {:induction false} Phase1Slack(env: Env, w: World, c: Command, r: Account)
    requires c.Phase1? && !Skips(c)
    ensures Slack(Perform(env, w, c).chain, r) >= Slack(w.chain, r)
  {
    if Refusal(w.file, c.requester, c.nodes, c.total).None? {
      var deposit := Deposit(c.requester, c.total);
      SlackStep(env, w.chain, deposit, r);
      assert Run(env, w.chain, [deposit]) == Next(env, w.chain, deposit);
      var e := Phase1Effect(env, w, c);
      if e.ops != [deposit] {
        var funded := Next(env, w.chain, deposit);
        var shares := EqualShares(c.total, |c.nodes|);
        EqualSharesSplit(c.total, |c.nodes|);
        var done := CommitFrom(env, funded, c.requester, c.nodes, shares, c.fates, 0);
        CommitsSlack(env, funded, c.requester, c.nodes, shares, c.fates, 0, r);
        assert shares[0..] == shares;
        RunConcat(env, w.chain, [deposit], done.ops);
      }
    }
  }

  /**
   No command of the bench, whatever the replicas showed and whichever commits landed, ever lowers the
   slack of any requester, unless it skipped the deposit.
   */
  lemma {:induction false} BenchKeepsSlack(env: Env, w: World, c: Command, r: Account)
    requires !c.Foreign? && !Skips(c)
    ensures Slack(Perform(env, w, c).chain, r) >= Slack(w.chain, r)
  {
    match c
    case Phase1(_, _, _, _, _, _, _) => Phase1Slack(env, w, c, r);
    case Phase2(keys, views) =>
      if w.file.Some? {
        FinalsAreFinalizes(env, w.chain, w.file.value.committed, keys, views, 0);
      }
      HarmlessRun(env, w.chain, EffectOf(env, w, c).ops, r);
    case TopUp(_, _, _, _) => HarmlessRun(env, w.chain, EffectOf(env, w, c).ops, r);
  }

  ghost function ForeignChange(env: Env, w: World, cs: seq<Command>, r: Account): int
    decreases cs
  {
    if cs == [] then 0
    else (if cs[0].Foreign? then SlackEffect(env, w.chain, cs[0].op, r) else 0)
         + ForeignChange(env, Perform(env, w, cs[0]), cs[1..], r)
  }

  /** Over every interleaving only other people's transactions can lower the slack, by exactly their effect. */
  lemma {:induction false} PlayKeepsSlack(env: Env, w: World, cs: seq<Command>, r: Account)
    requires forall c :: c in cs ==> !Skips(c)
    ensures Slack(Play(env, w, cs).chain, r) >= Slack(w.chain, r) + ForeignChange(env, w, cs, r)
    decreases cs
  {
    if cs != [] {
      if cs[0].Foreign? {
        SlackStep(env, w.chain, cs[0].op, r);
        assert Run(env, w.chain, [cs[0].op]) == Next(env, w.chain, cs[0].op);
      } else {
        BenchKeepsSlack(env, w, cs[0], r);
      }
      PlayKeepsSlack(env, Perform(env, w, cs[0]), cs[1..], r);
    }
  }

  /**
   Solvency over every run: from a covered pool, additive phase 1, top-ups, finalizes and foreign
   transactions that do not themselves take `r`'s cover away leave it covered, and every batch of `r`
   that is otherwise ready finalizes.
   */
  lemma {:induction false} SolventForever(env: Env, w: World, cs: seq<Command>, r: Account)
    requires Inv(w.chain) && Covered(w.chain, r)
    requires forall c :: c in cs ==> !Skips(c)
    requires ForeignChange(env, w, cs, r) >= 0
    ensures Covered(Play(env, w, cs).chain, r)
    ensures forall id :: Ready(Play(env, w, cs).chain, id) && Play(env, w, cs).chain.batches[id].requester == r ==>
      Try(env, Play(env, w, cs).chain, Finalize(id)).Done?
  {
    PlayKeepsSlack(env, w, cs, r);
    PlayIsRun(env, w, cs);
    RunFacts(env, w.chain, PlayOps(env, w, cs));
    var last := Play(env, w, cs).chain;
    forall id | Ready(last, id) && last.batches[id].requester == r ensures Try(env, last, Finalize(id)).Done? {
      CoveredFinalizes(env, last, id);
    }
  }
}
