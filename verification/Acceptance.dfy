/**
 When the money, commit and owner transactions go through, and what they leave behind:
 contracts/contracts/EscrowPool.sol, contracts/contracts/BatchSettlementRegistry.sol.
 */
module Acceptance {
  import opened Words
  import opened Totals
  import opened Ledger

  /**
   Whatever happened before, a deposit goes through exactly when the pool is open, the amount is not zero and the
   wallet holds it; it moves the amount from the caller's wallet to the caller's balance and nothing else.
   */
  lemma {:induction false} DepositExactly(env: Env, s: State, caller: Account, amount: nat)
    ensures
      var op := Deposit(caller, amount);
      && (Try(env, s, op).Done? <==> !s.poolPaused && 0 < amount <= Get(s.wallets, caller))
      && (Try(env, s, op).Done? ==> MovesInto(s, Next(env, s, op), caller, amount))
  {
  }

  /** `amount` went from the wallet of `a` into its escrow balance; for a negative one, the other way. */
  ghost predicate MovesInto(s: State, n: State, a: Account, amount: int) {
    && Get(n.balances, a) == Get(s.balances, a) + amount
    && Get(n.wallets, a) == Get(s.wallets, a) - amount
    && n.totalEscrowed == s.totalEscrowed + amount && n.poolTokens == s.poolTokens + amount
    && (forall other: Account :: other != a ==>
          Get(n.balances, other) == Get(s.balances, other) && Get(n.wallets, other) == Get(s.wallets, other))
    && n == s.(balances := n.balances, wallets := n.wallets,
               totalEscrowed := n.totalEscrowed, poolTokens := n.poolTokens)
  }

  /**
   After any run the caller can withdraw any positive amount up to its balance whenever the pool is open: the checked
   subtractions behind the balance check never get in the way.
   */
  lemma {:induction false} WithdrawExactly(env: Env, start: State, ops: seq<Op>, caller: Account, amount: nat)
    requires Inv(start)
    ensures
      var s, op := Run(env, start, ops), Withdraw(caller, amount);
      && (Try(env, s, op).Done? <==> !s.poolPaused && 0 < amount <= Get(s.balances, caller))
      && (Try(env, s, op).Done? ==> MovesInto(s, Next(env, s, op), caller, 0 - amount))
  {
    var s := Run(env, start, ops);
    RunFacts(env, start, ops);
    GetAtMostTotal(s.balances, caller);
  }

  /**
   After any run a finalize goes through exactly when the registry is unpaused, the batch is pending, the unpaused
   seconds since its commit reach its window, and what is left to pay, if anything, is in the requester's balance of an
   open and configured pool.
   */
  lemma {:induction false} FinalizeConditions(env: Env, start: State, ops: seq<Op>, id: BatchId)
    requires Inv(start)
    ensures
      var s := Run(env, start, ops);
      Try(env, s, Finalize(id)).Done? <==>
        && !s.paused && id in s.batches && s.batches[id].status.Pending?
        && s.now - s.batches[id].committedAt - (s.totalPaused - s.batches[id].pausedAtOrigin) >= s.batches[id].window
        && s.batches[id].invalidated <= s.batches[id].total
        && (s.batches[id].invalidated < s.batches[id].total ==>
              && s.batches[id].poolSet && !s.poolPaused
              && s.batches[id].total - s.batches[id].invalidated <= Get(s.balances, s.batches[id].requester))
  {
    var s := Run(env, start, ops);
    RunFacts(env, start, ops);
    if id in s.batches {
      GetAtMostTotal(s.balances, s.batches[id].requester);
      assert ClockOk(s, s.batches[id]);
    }
  }

  /** It closes the batch and moves the rest from the requester's balance to the provider's wallet, nothing else. */
  lemma {:induction false} FinalizeEffect(env: Env, s: State, id: BatchId)
    requires Try(env, s, Finalize(id)).Done?
    ensures
      var n, b := Next(env, s, Finalize(id)), s.batches[id];
      var rest := b.total - b.invalidated;
      && n.batches == s.batches[id := b.(status := Finalized)]
      && Get(n.balances, b.requester) == Get(s.balances, b.requester) - rest
      && Get(n.wallets, b.provider) == Get(s.wallets, b.provider) + rest
      && n.totalEscrowed == s.totalEscrowed - rest && n.poolTokens == s.poolTokens - rest
      && (forall a: Account :: a != b.requester ==> Get(n.balances, a) == Get(s.balances, a))
      && (forall a: Account :: a != b.provider ==> Get(n.wallets, a) == Get(s.wallets, a))
      && n == s.(batches := n.batches, balances := n.balances, wallets := n.wallets,
                 totalEscrowed := n.totalEscrowed, poolTokens := n.poolTokens)
  {
  }

  /** A commit goes through exactly on well-formed arguments under a fresh id, and adds just that batch. */
  lemma {:induction false} CommitExactly(env: Env, s: State, op: Op)
    requires op.Commit?
    ensures Try(env, s, op).Done? <==>
              && !s.paused && op.requester != 0 && op.receiptCount != 0 && op.slashBps <= 10000
              && !(|op.root| == 32 && forall i :: 0 <= i < 32 ==> op.root[i] == 0)
              && op.id !in s.batches
    ensures Try(env, s, op).Done? ==>
              var n := Next(env, s, op);
              && op.id in n.batches && n == s.(batches := s.batches[op.id := n.batches[op.id]])
              && n.batches[op.id].status.Pending? && n.batches[op.id].invalidated == 0
  {
    if |op.root| == 32 && forall i :: 0 <= i < 32 ==> op.root[i] == 0 {
      assert op.root == Zeros(32);
    }
  }

  /** The owner sets windows between an hour and 30 days and lookbacks between a day and a year, and nothing else. */
  lemma {:induction false} SettingsExactly(env: Env, s: State, seconds: nat, on: bool)
    ensures Try(env, s, SetWindow(seconds)).Done? <==> 60 * 60 <= seconds <= 30 * 24 * 60 * 60
    ensures Try(env, s, SetWindow(seconds)).Done? ==> Next(env, s, SetWindow(seconds)) == s.(window := seconds)
    ensures Try(env, s, SetLookback(seconds)).Done? <==> 24 * 60 * 60 <= seconds <= 365 * 24 * 60 * 60
    ensures Try(env, s, SetLookback(seconds)).Done? ==> Next(env, s, SetLookback(seconds)) == s.(lookback := seconds)
    ensures Next(env, s, SetEscrowPool(on)) == s.(poolSet := on)
    ensures Next(env, s, SetVerifier(on)) == s.(verifierSet := on)
  {
  }

  /** Pausing and unpausing take turns; the registry's clock of pauses grows by the length of each finished one. */
  lemma {:induction false} PausesExactly(env: Env, s: State)
    requires Inv(s)
    ensures Try(env, s, PauseRegistry).Done? <==> !s.paused
    ensures Try(env, s, UnpauseRegistry).Done? <==> s.paused
    ensures !s.paused ==> Next(env, s, PauseRegistry) == s.(paused := true, pauseStartedAt := s.now)
    ensures s.paused ==>
              var total := s.totalPaused + (s.now - s.pauseStartedAt);
              Next(env, s, UnpauseRegistry) == s.(paused := false, pauseStartedAt := 0, totalPaused := total)
  {
  }

  lemma {:induction false} PoolPausesExactly(env: Env, s: State, seconds: nat)
    ensures Try(env, s, PausePool).Done? <==> !s.poolPaused
    ensures Try(env, s, UnpausePool).Done? <==> s.poolPaused
    ensures Next(env, s, PausePool) == s.(poolPaused := true) && Next(env, s, UnpausePool) == s.(poolPaused := false)
    ensures Next(env, s, Tick(seconds)) == s.(now := s.now + seconds)
  {
  }
}
