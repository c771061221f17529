/**
 On-chain settlement as a transition system: the token balances, the shared escrow pool
 (contracts/contracts/EscrowPool.sol) and the batch registry
 (contracts/contracts/BatchSettlementRegistry.sol). `Try` is one transaction; a revert changes nothing.
 */
module Ledger {
  import opened Words
  import opened Merkle
  import opened Receipts
  import opened Totals

  /** `msg.sender` is never the zero address. */
  type Account = n: nat | 0 < n witness 1
  type BatchId = nat

  const MIN_WINDOW := 3600
  const MAX_WINDOW := 30 * 86400
  const MIN_LOOKBACK := 86400
  const MAX_LOOKBACK := 365 * 86400

  datatype Status = Pending | Finalized

  datatype Batch = Batch(
    provider: Account, requester: Account, root: Bytes, total: nat, invalidated: nat,
    committedAt: nat, window: nat, pausedAtOrigin: nat, lookback: nat, group: nat,
    poolSet: bool, verifierSet: bool, status: Status)

  datatype State = State(
    now: nat,
    wallets: map<Account, nat>, poolTokens: nat,
    balances: map<Account, nat>, totalEscrowed: nat, poolPaused: bool,
    batches: map<BatchId, Batch>, invalid: set<(BatchId, Bytes)>,
    window: nat, lookback: nat, poolSet: bool, verifierSet: bool,
    paused: bool, pauseStartedAt: nat, totalPaused: nat)

  /** The world outside: the hash and the pluggable signature verifier. */
  datatype Env = Env(hash: Hash, verify: (Bytes, Bytes, Bytes) -> bool)

  datatype Evidence =
    | DoubleSpend(other: BatchId, otherProof: seq<Bytes>)
    | InvalidSignature(publicKey: Bytes, signature: Bytes)
    | NoEscrow
    | Expired
    | ConsensusMismatch(conflicting: BatchId, majorityProof: seq<Bytes>, majority: ReceiptLeaf)
    | Malformed

  datatype Op =
    | Deposit(caller: Account, amount: nat)
    | Withdraw(caller: Account, amount: nat)
    | Commit(caller: Account, id: BatchId, requester: nat, root: Bytes, receiptCount: nat,
             total: nat, slashBps: nat, group: nat)
    | Challenge(caller: Account, id: BatchId, leaf: ReceiptLeaf, proof: seq<Bytes>, evidence: Evidence)
    | Finalize(id: BatchId)
    | PauseRegistry | UnpauseRegistry | PausePool | UnpausePool
    | SetWindow(seconds: nat) | SetLookback(seconds: nat)
    | SetEscrowPool(configured: bool) | SetVerifier(configured: bool)
    | Tick(seconds: nat)

  datatype Reason =
    | ZeroAmount | TransferFailed | InsufficientBalance | EnforcedPause | ExpectedPause
    | ZeroRequester | EmptyRoot | ZeroReceipts | BadSlashRate | AlreadyCommitted
    | NotFound | NotPending | WindowOpen | WindowElapsed | Underflow | PoolNotConfigured
    | AlreadyInvalidated | InvalidProof | NotProven | BadWindow

  datatype Outcome = Done(next: State) | Reverted(reason: Reason)

  /** `_effectiveElapsed`: wall-clock time since the commit minus completed pauses, clamped at zero. */
  function Elapsed(s: State, b: Batch): nat {
    var wall, paused := s.now - b.committedAt, s.totalPaused - b.pausedAtOrigin;
    if wall > paused then wall - paused else 0
  }

  predicate IsFinalizable(s: State, id: BatchId) {
    id in s.batches && s.batches[id].status.Pending? && Elapsed(s, s.batches[id]) >= s.batches[id].window
  }

  function SecondsUntilFinalizable(s: State, id: BatchId): nat {
    if id in s.batches && s.batches[id].status.Pending? && Elapsed(s, s.batches[id]) < s.batches[id].window
    then s.batches[id].window - Elapsed(s, s.batches[id]) else 0
  }

  // ---- EscrowPool ----

  function TryDeposit(s: State, caller: Account, amount: nat): Outcome {
    if s.poolPaused then Reverted(EnforcedPause)
    else if amount == 0 then Reverted(ZeroAmount)
    else if Get(s.wallets, caller) < amount then Reverted(TransferFailed)
    else Done(s.(balances := s.balances[caller := Get(s.balances, caller) + amount],
                 totalEscrowed := s.totalEscrowed + amount,
                 wallets := s.wallets[caller := Get(s.wallets, caller) - amount],
                 poolTokens := s.poolTokens + amount))
  }

  function TryWithdraw(s: State, caller: Account, amount: nat): Outcome {
    if s.poolPaused then Reverted(EnforcedPause)
    else if amount == 0 then Reverted(ZeroAmount)
    else if Get(s.balances, caller) < amount then Reverted(InsufficientBalance)
    else PayOut(s, caller, caller, amount)
  }

  /** Debit an escrow balance and send the tokens on; both steps are checked subtractions. */
  function PayOut(s: State, from: Account, recipient: Account, amount: nat): Outcome
    requires amount <= Get(s.balances, from)
  {
    if s.totalEscrowed < amount then Reverted(Underflow)
    else if s.poolTokens < amount then Reverted(TransferFailed)
    else Done(s.(balances := s.balances[from := Get(s.balances, from) - amount],
                 totalEscrowed := s.totalEscrowed - amount,
                 wallets := s.wallets[recipient := Get(s.wallets, recipient) + amount],
                 poolTokens := s.poolTokens - amount))
  }

  function TrySettle(s: State, requester: Account, recipient: Account, amount: nat): Outcome {
    if s.poolPaused then Reverted(EnforcedPause)
    else if amount == 0 then Reverted(ZeroAmount)
    else if Get(s.balances, requester) < amount then Reverted(InsufficientBalance)
    else PayOut(s, requester, recipient, amount)
  }

  // ---- BatchSettlementRegistry ----

  function NewBatch(s: State, op: Op): Batch
    requires op.Commit? && op.requester > 0
  {
    Batch(op.caller, op.requester, op.root, op.total, 0, s.now, s.window, s.totalPaused, s.lookback,
          op.group, s.poolSet, s.verifierSet, Pending)
  }

  function TryCommit(s: State, op: Op): Outcome
    requires op.Commit?
  {
    if s.paused then Reverted(EnforcedPause)
    else if op.requester == 0 then Reverted(ZeroRequester)
    else if op.root == Zeros(32) then Reverted(EmptyRoot)
    else if op.receiptCount == 0 then Reverted(ZeroReceipts)
    else if op.slashBps > 10000 then Reverted(BadSlashRate)
    else if op.id in s.batches then Reverted(AlreadyCommitted)
    else Done(s.(batches := s.batches[op.id := NewBatch(s, op)]))
  }

  function TryFinalize(s: State, id: BatchId): Outcome {
    if s.paused then Reverted(EnforcedPause)
    else if id !in s.batches then Reverted(NotFound)
    else
      var b := s.batches[id];
      if !b.status.Pending? then Reverted(NotPending)
      else if Elapsed(s, b) < b.window then Reverted(WindowOpen)
      else if b.total < b.invalidated then Reverted(Underflow)
      else
        if b.total == b.invalidated then Done(Closed(s, id))
        else if !b.poolSet then Reverted(PoolNotConfigured)
        else TrySettle(Closed(s, id), b.requester, b.provider, b.total - b.invalidated)
  }

  function Closed(s: State, id: BatchId): State
    requires id in s.batches
  {
    s.(batches := s.batches[id := s.batches[id].(status := Finalized)])
  }

  function LeafHash(env: Env, leaf: ReceiptLeaf): Bytes {
    env.hash(EncodeLeaf(leaf))
  }

  predicate Verifies(env: Env, leaf: ReceiptLeaf, proof: seq<Bytes>, root: Bytes) {
    Fold(env.hash, LeafHash(env, leaf), proof) == root
  }

  /** The five reason-code handlers; a handler that reverts proves nothing. */
  predicate Proves(env: Env, s: State, caller: Account, id: BatchId, leaf: ReceiptLeaf, e: Evidence)
    requires id in s.batches
  {
    var b := s.batches[id];
    match e
    case DoubleSpend(other, otherProof) =>
      && other != id && other in s.batches
      && s.batches[other].committedAt < b.committedAt
      && Verifies(env, leaf, otherProof, s.batches[other].root)
    case InvalidSignature(publicKey, signature) =>
      && b.verifierSet
      && env.hash(publicKey) == leaf.providerPubkeyHash
      && env.hash(signature) == leaf.signatureHash
      && !env.verify(leaf.signingMessageHash, signature, publicKey)
    case NoEscrow => caller == b.requester
    case Expired => leaf.executedAt <= s.now && s.now - leaf.executedAt > b.lookback
    case ConsensusMismatch(conflicting, majorityProof, majority) =>
      && conflicting != id && b.group != 0
      && leaf.jobIdHash == majority.jobIdHash && leaf.shardIndex == majority.shardIndex
      && leaf.outputHash != majority.outputHash
      && conflicting in s.batches
      && b.group == s.batches[conflicting].group
      && b.provider != s.batches[conflicting].provider
      && Verifies(env, majority, majorityProof, s.batches[conflicting].root)
    case Malformed => false
  }

  function TryChallenge(env: Env, s: State, op: Op): Outcome
    requires op.Challenge?
  {
    if s.paused then Reverted(EnforcedPause)
    else if op.id !in s.batches then Reverted(NotFound)
    else
      var b := s.batches[op.id];
      var hash := LeafHash(env, op.leaf);
      if !b.status.Pending? then Reverted(NotPending)
      else if Elapsed(s, b) >= b.window then Reverted(WindowElapsed)
      else if (op.id, hash) in s.invalid then Reverted(AlreadyInvalidated)
      else if !Verifies(env, op.leaf, op.proof, b.root) then Reverted(InvalidProof)
      else if !Proves(env, s, op.caller, op.id, op.leaf, op.evidence) then Reverted(NotProven)
      else Done(s.(invalid := s.invalid + {(op.id, hash)},
                   batches := s.batches[op.id := b.(invalidated := b.invalidated + op.leaf.value)]))
  }

  function Try(env: Env, s: State, op: Op): Outcome {
    match op
    case Deposit(caller, amount) => TryDeposit(s, caller, amount)
    case Withdraw(caller, amount) => TryWithdraw(s, caller, amount)
    case Commit(_, _, _, _, _, _, _, _) => TryCommit(s, op)
    case Challenge(_, _, _, _, _) => TryChallenge(env, s, op)
    case Finalize(id) => TryFinalize(s, id)
    case PauseRegistry =>
      if s.paused then Reverted(EnforcedPause) else Done(s.(paused := true, pauseStartedAt := s.now))
    case UnpauseRegistry =>
      if !s.paused then Reverted(ExpectedPause)
      else if s.now < s.pauseStartedAt then Reverted(Underflow)
      else Done(s.(paused := false, totalPaused := s.totalPaused + (s.now - s.pauseStartedAt), pauseStartedAt := 0))
    case PausePool => if s.poolPaused then Reverted(EnforcedPause) else Done(s.(poolPaused := true))
    case UnpausePool => if !s.poolPaused then Reverted(ExpectedPause) else Done(s.(poolPaused := false))
    case SetWindow(seconds) =>
      if MIN_WINDOW <= seconds <= MAX_WINDOW then Done(s.(window := seconds)) else Reverted(BadWindow)
    case SetLookback(seconds) =>
      if MIN_LOOKBACK <= seconds <= MAX_LOOKBACK then Done(s.(lookback := seconds)) else Reverted(BadWindow)
    case SetEscrowPool(configured) => Done(s.(poolSet := configured))
    case SetVerifier(configured) => Done(s.(verifierSet := configured))
    case Tick(seconds) => Done(s.(now := s.now + seconds))
  }

  function Next(env: Env, s: State, op: Op): State {
    match Try(env, s, op)
    case Done(next) => next
    case Reverted(_) => s
  }

  function Run(env: Env, s: State, ops: seq<Op>): State
    decreases ops
  {
    if ops == [] then s else Run(env, Next(env, s, ops[0]), ops[1..])
  }

  lemma {:induction false} RunConcat(env: Env, s: State, a: seq<Op>, b: seq<Op>)
    ensures Run(env, s, a + b) == Run(env, Run(env, s, a), b)
    decreases a
  {
    if a == [] {
      assert a + b == b;
    } else {
      assert (a + b)[1..] == a[1..] + b;
      RunConcat(env, Next(env, s, a[0]), a[1..], b);
    }
  }

  lemma {:induction false} RunCons(env: Env, s: State, op: Op, ops: seq<Op>)
    ensures Run(env, s, [op] + ops) == Run(env, Next(env, s, op), ops)
  {
    assert ([op] + ops)[1..] == ops;
  }

  // ---- Invariant: token accounting and clocks ----

  /** Seconds of a pause still in progress. */
  function PauseInProgress(s: State): int {
    if s.paused then s.now - s.pauseStartedAt else 0
  }

  /** Seconds of unpaused chain time since the commit. */
  function TrueElapsed(s: State, b: Batch): int {
    s.now - b.committedAt - (s.totalPaused - b.pausedAtOrigin) - PauseInProgress(s)
  }

  ghost predicate ClockOk(s: State, b: Batch) {
    b.committedAt <= s.now && b.pausedAtOrigin <= s.totalPaused && TrueElapsed(s, b) >= 0
  }

  ghost predicate AccountsOk(s: State) {
    s.totalEscrowed == Total(s.balances) == s.poolTokens
  }

  ghost predicate ClocksOk(s: State) {
    PauseInProgress(s) >= 0 && forall id :: id in s.batches ==> ClockOk(s, s.batches[id])
  }

  ghost predicate Inv(s: State) {
    AccountsOk(s) && ClocksOk(s)
  }

  ghost function Supply(s: State): nat {
    Total(s.wallets) + s.poolTokens
  }

  /** What may change in a committed batch. */
  ghost predicate Evolves(b: Batch, b': Batch) {
    && b' == b.(invalidated := b'.invalidated, status := b'.status)
    && b.invalidated <= b'.invalidated
    && (b.status.Finalized? ==> b' == b)
  }

  lemma {:induction false} PayOutFacts(s: State, from: Account, recipient: Account, amount: nat)
    requires amount <= Get(s.balances, from) && AccountsOk(s)
    ensures PayOut(s, from, recipient, amount).Done?
    ensures
      var n := PayOut(s, from, recipient, amount).next;
      AccountsOk(n) && Supply(n) == Supply(s)
  {
    GetAtMostTotal(s.balances, from);
    TotalUpdate(s.balances, from, Get(s.balances, from) - amount);
    TotalUpdate(s.wallets, recipient, Get(s.wallets, recipient) + amount);
  }

  lemma {:induction false} DepositFacts(s: State, caller: Account, amount: nat)
    requires AccountsOk(s) && TryDeposit(s, caller, amount).Done?
    ensures AccountsOk(TryDeposit(s, caller, amount).next)
    ensures Supply(TryDeposit(s, caller, amount).next) == Supply(s)
  {
    TotalUpdate(s.balances, caller, Get(s.balances, caller) + amount);
    TotalUpdate(s.wallets, caller, Get(s.wallets, caller) - amount);
  }

  lemma {:induction false} FinalizeFacts(s: State, id: BatchId)
    requires AccountsOk(s) && TryFinalize(s, id).Done?
    ensures AccountsOk(TryFinalize(s, id).next)
    ensures Supply(TryFinalize(s, id).next) == Supply(s)
  {
    var b := s.batches[id];
    if b.total > b.invalidated {
      PayOutFacts(Closed(s, id), b.requester, b.provider, b.total - b.invalidated);
    }
  }

  ghost predicate MovesMoney(op: Op) {
    op.Deposit? || op.Withdraw? || op.Finalize?
  }

  lemma {:induction false} OthersMoveNothing(env: Env, s: State, op: Op)
    requires !MovesMoney(op)
    ensures
      var n := Next(env, s, op);
      && n.wallets == s.wallets && n.balances == s.balances
      && n.totalEscrowed == s.totalEscrowed && n.poolTokens == s.poolTokens
  {
    if op.Commit? && TryCommit(s, op).Done? {
      CommitMovesNothing(s, op);
    } else if op.Challenge? && TryChallenge(env, s, op).Done? {
      ChallengeMovesNothing(env, s, op);
    }
  }

  lemma {:induction false} CommitMovesNothing(s: State, op: Op)
    requires op.Commit? && TryCommit(s, op).Done?
    ensures
      var n := TryCommit(s, op).next;
      && n.wallets == s.wallets && n.balances == s.balances
      && n.totalEscrowed == s.totalEscrowed && n.poolTokens == s.poolTokens
  {
  }

  lemma {:induction false} ChallengeMovesNothing(env: Env, s: State, op: Op)
    requires op.Challenge? && TryChallenge(env, s, op).Done?
    ensures
      var n := TryChallenge(env, s, op).next;
      && n.wallets == s.wallets && n.balances == s.balances
      && n.totalEscrowed == s.totalEscrowed && n.poolTokens == s.poolTokens
  {
  }

  lemma {:induction false} MoneyStep(env: Env, s: State, op: Op)
    requires AccountsOk(s)
    ensures AccountsOk(Next(env, s, op)) && Supply(Next(env, s, op)) == Supply(s)
  {
    if !MovesMoney(op) {
      OthersMoveNothing(env, s, op);
    } else if Try(env, s, op).Done? {
      match op
      case Deposit(caller, amount) => DepositFacts(s, caller, amount);
      case Withdraw(caller, amount) => PayOutFacts(s, caller, caller, amount);
      case Finalize(id) => FinalizeFacts(s, id);
    }
  }

  lemma {:induction false} CommitEvolves(s: State, op: Op, id: BatchId)
    requires id in s.batches && op.Commit? && TryCommit(s, op).Done?
    ensures id in TryCommit(s, op).next.batches && TryCommit(s, op).next.batches[id] == s.batches[id]
  {
  }

  lemma {:induction false} ChallengeEvolves(env: Env, s: State, op: Op, id: BatchId)
    requires id in s.batches && op.Challenge? && TryChallenge(env, s, op).Done?
    ensures
      var n := TryChallenge(env, s, op).next;
      id in n.batches && Evolves(s.batches[id], n.batches[id])
  {
  }

  lemma {:induction false} FinalizeEvolves(s: State, other: BatchId, id: BatchId)
    requires id in s.batches && TryFinalize(s, other).Done?
    ensures
      var n := TryFinalize(s, other).next;
      id in n.batches && Evolves(s.batches[id], n.batches[id])
  {
  }

  lemma {:induction false} DepositKeepsBatches(env: Env, s: State, op: Op)
    requires op.Deposit? || op.Withdraw?
    ensures Next(env, s, op).batches == s.batches && Next(env, s, op).invalid == s.invalid
  {
  }

  lemma {:induction false} OthersKeepBatches(env: Env, s: State, op: Op)
    requires !op.Commit? && !op.Challenge? && !op.Finalize?
    ensures Next(env, s, op).batches == s.batches && Next(env, s, op).invalid == s.invalid
  {
    if op.Deposit? || op.Withdraw? {
      DepositKeepsBatches(env, s, op);
    }
  }

  lemma {:induction false} EvolveStep(env: Env, s: State, op: Op, id: BatchId)
    requires id in s.batches
    ensures id in Next(env, s, op).batches && Evolves(s.batches[id], Next(env, s, op).batches[id])
  {
    if op.Commit? {
      if TryCommit(s, op).Done? {
        CommitEvolves(s, op, id);
      }
    } else if op.Challenge? {
      if TryChallenge(env, s, op).Done? {
        ChallengeEvolves(env, s, op, id);
      }
    } else if op.Finalize? {
      if TryFinalize(s, op.id).Done? {
        FinalizeEvolves(s, op.id, id);
      }
    } else {
      OthersKeepBatches(env, s, op);
    }
  }

  lemma {:induction false} OthersKeepTime(env: Env, s: State, op: Op)
    requires !op.Tick? && !op.PauseRegistry? && !op.UnpauseRegistry?
    ensures
      var n := Next(env, s, op);
      n.now == s.now && n.paused == s.paused && n.pauseStartedAt == s.pauseStartedAt && n.totalPaused == s.totalPaused
  {
  }

  lemma {:induction false} TimeStep(env: Env, s: State, op: Op)
    requires ClocksOk(s) && (op.Tick? || op.PauseRegistry? || op.UnpauseRegistry?)
    ensures ClocksOk(Next(env, s, op))
  {
  }

  lemma {:induction false} ClockStep(env: Env, s: State, op: Op)
    requires ClocksOk(s)
    ensures ClocksOk(Next(env, s, op))
  {
    if op.Tick? || op.PauseRegistry? || op.UnpauseRegistry? {
      TimeStep(env, s, op);
    } else {
      OthersKeepTime(env, s, op);
      var n := Next(env, s, op);
      forall id | id in n.batches ensures ClockOk(n, n.batches[id]) {
        if id in s.batches {
          EvolveStep(env, s, op, id);
          assert ClockOk(s, s.batches[id]);
        } else {
          NewBatches(env, s, op, id);
        }
      }
    }
  }

  /** A batch that was not there is the one committed, stamped with the clocks of the commit. */
  lemma {:induction false} NewBatches(env: Env, s: State, op: Op, id: BatchId)
    requires id !in s.batches && id in Next(env, s, op).batches
    ensures op.Commit? && op.requester > 0 && Next(env, s, op).batches[id] == NewBatch(s, op)
  {
    if !op.Commit? && !op.Challenge? && !op.Finalize? {
      OthersKeepBatches(env, s, op);
    }
  }

  /** Every transaction keeps the accounts and clocks in order, the supply fixed and the batches growing. */
  lemma {:induction false} StepFacts(env: Env, s: State, op: Op)
    requires Inv(s)
    ensures Inv(Next(env, s, op))
    ensures Supply(Next(env, s, op)) == Supply(s)
    ensures forall id :: id in s.batches ==>
      id in Next(env, s, op).batches && Evolves(s.batches[id], Next(env, s, op).batches[id])
  {
    MoneyStep(env, s, op);
    ClockStep(env, s, op);
    forall id | id in s.batches
      ensures id in Next(env, s, op).batches && Evolves(s.batches[id], Next(env, s, op).batches[id])
    {
      EvolveStep(env, s, op, id);
    }
  }

  /** Conservation over every run: wallets plus pool never change in total, and the pool backs every balance. */
  lemma {:induction false} RunFacts(env: Env, s: State, ops: seq<Op>)
    requires Inv(s)
    ensures Inv(Run(env, s, ops))
    ensures Supply(Run(env, s, ops)) == Supply(s)
    ensures forall id :: id in s.batches ==>
      id in Run(env, s, ops).batches && Evolves(s.batches[id], Run(env, s, ops).batches[id])
    decreases ops
  {
    if ops != [] {
      StepFacts(env, s, ops[0]);
      RunFacts(env, Next(env, s, ops[0]), ops[1..]);
    }
  }

  /** No balance, wallet or batch payment can exceed the token supply, so checked additions never overflow. */
  lemma {:induction false} BoundedBySupply(env: Env, s: State, ops: seq<Op>, a: Account)
    requires Inv(s)
    ensures Get(Run(env, s, ops).balances, a) + Get(Run(env, s, ops).wallets, a) <= Supply(s)
  {
    RunFacts(env, s, ops);
    GetAtMostTotal(Run(env, s, ops).balances, a);
    GetAtMostTotal(Run(env, s, ops).wallets, a);
  }
}
