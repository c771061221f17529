/** The two contracts as they are written: storage that the calls update in place. */
module Chain {
  import opened Words
  import opened Merkle
  import opened Receipts
  import opened Totals
  import L = Ledger

  class Contracts {
    const env: L.Env
    var now: nat
    // the FTNS token
    var wallets: map<L.Account, nat>
    var poolTokens: nat
    // EscrowPool
    var balances: map<L.Account, nat>
    var totalEscrowed: nat
    var poolPaused: bool
    // BatchSettlementRegistry
    var batches: map<L.BatchId, L.Batch>
    var invalid: set<(L.BatchId, Bytes)>
    var window: nat
    var lookback: nat
    var poolSet: bool
    var verifierSet: bool
    var paused: bool
    var pauseStartedAt: nat
    var totalPaused: nat

    ghost function View(): L.State
      reads this
    {
      L.State(now, wallets, poolTokens, balances, totalEscrowed, poolPaused, batches, invalid,
              window, lookback, poolSet, verifierSet, paused, pauseStartedAt, totalPaused)
    }

    constructor (env: L.Env, s: L.State)
      ensures View() == s && this.env == env
    {
      this.env := env;
      now, wallets, poolTokens := s.now, s.wallets, s.poolTokens;
      balances, totalEscrowed, poolPaused := s.balances, s.totalEscrowed, s.poolPaused;
      batches, invalid, window, lookback := s.batches, s.invalid, s.window, s.lookback;
      poolSet, verifierSet := s.poolSet, s.verifierSet;
      paused, pauseStartedAt, totalPaused := s.paused, s.pauseStartedAt, s.totalPaused;
    }

    method Deposit(caller: L.Account, amount: nat) returns (ok: bool)
      modifies this
      ensures ok == L.Try(env, old(View()), L.Deposit(caller, amount)).Done?
      ensures View() == L.Next(env, old(View()), L.Deposit(caller, amount))
    {
      if poolPaused || amount == 0 || Get(wallets, caller) < amount {
        return false;
      }
      balances := balances[caller := Get(balances, caller) + amount];
      totalEscrowed := totalEscrowed + amount;
      wallets := wallets[caller := Get(wallets, caller) - amount];
      poolTokens := poolTokens + amount;
      ok := true;
    }

    method Withdraw(caller: L.Account, amount: nat) returns (ok: bool)
      modifies this
      ensures ok == L.Try(env, old(View()), L.Withdraw(caller, amount)).Done?
      ensures View() == L.Next(env, old(View()), L.Withdraw(caller, amount))
    {
      ok := SettleFromRequester(caller, caller, amount);
    }

    method SettleFromRequester(requester: L.Account, recipient: L.Account, amount: nat) returns (ok: bool)
      modifies this
      ensures ok == L.TrySettle(old(View()), requester, recipient, amount).Done?
      ensures View() == if ok then L.TrySettle(old(View()), requester, recipient, amount).next else old(View())
    {
      var bal := Get(balances, requester);
      if poolPaused || amount == 0 || bal < amount || totalEscrowed < amount || poolTokens < amount {
        return false;
      }
      balances := balances[requester := bal - amount];
      totalEscrowed := totalEscrowed - amount;
      wallets := wallets[recipient := Get(wallets, recipient) + amount];
      poolTokens := poolTokens - amount;
      ok := true;
    }

    method CommitBatch(caller: L.Account, id: L.BatchId, requester: nat, root: Bytes, receiptCount: nat,
                       total: nat, slashBps: nat, group: nat) returns (ok: bool)
      modifies this
      ensures ok == L.Try(env, old(View()),
              L.Commit(caller, id, requester, root, receiptCount, total, slashBps, group)).Done?
      ensures View() == L.Next(env, old(View()),
              L.Commit(caller, id, requester, root, receiptCount, total, slashBps, group))
    {
      if paused || requester == 0 || root == Zeros(32) || receiptCount == 0 || slashBps > 10000 || id in batches {
        return false;
      }
      batches := batches[id := L.Batch(caller, requester, root, total, 0, now, window, totalPaused, lookback,
                                       group, poolSet, verifierSet, L.Pending)];
      ok := true;
    }

    /** A failing settlement undoes the status change made before it, as a revert does. */
    method FinalizeBatch(id: L.BatchId) returns (ok: bool)
      modifies this
      ensures ok == L.Try(env, old(View()), L.Finalize(id)).Done?
      ensures View() == L.Next(env, old(View()), L.Finalize(id))
    {
      if paused || id !in batches {
        return false;
      }
      var b := batches[id];
      var elapsed := EffectiveElapsed(b);
      if !b.status.Pending? || elapsed < b.window || b.total < b.invalidated {
        return false;
      }
      var before := batches;
      batches := batches[id := b.(status := L.Finalized)];
      if b.total > b.invalidated {
        ok := false;
        if b.poolSet {
          ok := SettleFromRequester(b.requester, b.provider, b.total - b.invalidated);
        }
        if !ok {
          batches := before;
          return;
        }
      }
      ok := true;
    }

    method EffectiveElapsed(b: L.Batch) returns (elapsed: nat)
      ensures elapsed == L.Elapsed(View(), b)
    {
      var wall, pausedSinceCommit := now - b.committedAt, totalPaused - b.pausedAtOrigin;
      elapsed := if wall > pausedSinceCommit then wall - pausedSinceCommit else 0;
    }

    method ChallengeReceipt(
      caller: L.Account, id: L.BatchId, leaf: ReceiptLeaf, proof: seq<Bytes>, evidence: L.Evidence)
      returns (ok: bool)
      modifies this
      ensures ok == L.Try(env, old(View()), L.Challenge(caller, id, leaf, proof, evidence)).Done?
      ensures View() == L.Next(env, old(View()), L.Challenge(caller, id, leaf, proof, evidence))
    {
      if paused || id !in batches {
        return false;
      }
      var b := batches[id];
      var elapsed := EffectiveElapsed(b);
      var hash := L.LeafHash(env, leaf);
      if !b.status.Pending? || elapsed >= b.window || (id, hash) in invalid {
        return false;
      }
      var verified := VerifyMerkleProof(env.hash, proof, b.root, hash);
      var proven := EvidenceHolds(caller, id, leaf, evidence);
      if !verified || !proven {
        return false;
      }
      invalid := invalid + {(id, hash)};
      batches := batches[id := b.(invalidated := b.invalidated + leaf.value)];
      ok := true;
    }

    method EvidenceHolds(
      caller: L.Account, id: L.BatchId, leaf: ReceiptLeaf, evidence: L.Evidence) returns (proven: bool)
      requires id in batches
      ensures proven == L.Proves(env, View(), caller, id, leaf, evidence)
    {
      var b := batches[id];
      match evidence
      case DoubleSpend(other, otherProof) =>
        if other == id || other !in batches || batches[other].committedAt >= b.committedAt {
          return false;
        }
        proven := VerifyMerkleProof(env.hash, otherProof, batches[other].root, L.LeafHash(env, leaf));
      case InvalidSignature(publicKey, signature) =>
        if !b.verifierSet || env.hash(publicKey) != leaf.providerPubkeyHash
          || env.hash(signature) != leaf.signatureHash {
          return false;
        }
        var valid := env.verify(leaf.signingMessageHash, signature, publicKey);
        proven := !valid;
      case NoEscrow =>
        proven := caller == b.requester;
      case Expired =>
        proven := leaf.executedAt <= now && now - leaf.executedAt > b.lookback;
      case ConsensusMismatch(conflicting, majorityProof, majority) =>
        if conflicting == id || b.group == 0 || conflicting !in batches {
          return false;
        }
        var other := batches[conflicting];
        if leaf.jobIdHash != majority.jobIdHash || leaf.shardIndex != majority.shardIndex
           || leaf.outputHash == majority.outputHash || b.group != other.group || b.provider == other.provider {
          return false;
        }
        proven := VerifyMerkleProof(env.hash, majorityProof, other.root, L.LeafHash(env, majority));
      case Malformed =>
        proven := false;
    }

    method Pause() returns (ok: bool)
      modifies this
      ensures ok == L.Try(env, old(View()), L.PauseRegistry).Done?
      ensures View() == L.Next(env, old(View()), L.PauseRegistry)
    {
      if paused {
        return false;
      }
      pauseStartedAt := now;
      paused := true;
      ok := true;
    }

    method Unpause() returns (ok: bool)
      modifies this
      ensures ok == L.Try(env, old(View()), L.UnpauseRegistry).Done?
      ensures View() == L.Next(env, old(View()), L.UnpauseRegistry)
    {
      if !paused || now < pauseStartedAt {
        return false;
      }
      totalPaused := totalPaused + (now - pauseStartedAt);
      pauseStartedAt := 0;
      paused := false;
      ok := true;
    }
  }
}
