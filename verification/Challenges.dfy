/**
 What each reason for a challenge has to show, and what an honest receipt is safe from:
 contracts/contracts/BatchSettlementRegistry.sol.
 */
module Challenges {
  import opened Words
  import opened Merkle
  import opened Receipts
  import opened Ledger

  /** What is left of a commit at the end of any run: the stored batch, with every snapshot taken at the commit. */
  lemma {:induction false} CommitSnapshot(env: Env, s: State, commit: Op, ops: seq<Op>)
    requires Inv(s) && commit.Commit? && Try(env, s, commit).Done?
    ensures
      var last := Run(env, Next(env, s, commit), ops);
      && s.now <= last.now && commit.id in last.batches
      && var b := last.batches[commit.id];
         && b.provider == commit.caller && b.requester == commit.requester && b.root == commit.root
         && b.total == commit.total && b.group == commit.group && b.committedAt == s.now
         && b.window == s.window && b.lookback == s.lookback && b.pausedAtOrigin == s.totalPaused
         && b.poolSet == s.poolSet && b.verifierSet == s.verifierSet
  {
    var n := Next(env, s, commit);
    StepFacts(env, s, commit);
    RunFacts(env, n, ops);
    NowGrows(env, n, ops);
  }

  lemma {:induction false} NowGrows(env: Env, s: State, ops: seq<Op>)
    ensures s.now <= Run(env, s, ops).now
    decreases ops
  {
    if ops != [] {
      if !ops[0].Tick? && !ops[0].PauseRegistry? && !ops[0].UnpauseRegistry? {
        OthersKeepTime(env, s, ops[0]);
      }
      NowGrows(env, Next(env, s, ops[0]), ops[1..]);
    }
  }

  /** The receipt can be challenged: an open batch, not invalidated before, and it folds into the root. */
  ghost predicate Challengeable(env: Env, s: State, id: BatchId, leaf: ReceiptLeaf, proof: seq<Bytes>) {
    && !s.paused && id in s.batches && s.batches[id].status.Pending?
    && Elapsed(s, s.batches[id]) < s.batches[id].window
    && (id, env.hash(EncodeLeaf(leaf))) !in s.invalid
    && Fold(env.hash, env.hash(EncodeLeaf(leaf)), proof) == s.batches[id].root
  }

  /** A challenge needs a challengeable receipt, and one that goes through costs the batch exactly its value. */
  lemma {:induction false} ChallengeEffect(env: Env, s: State, op: Op)
    requires op.Challenge? && Try(env, s, op).Done?
    ensures Challengeable(env, s, op.id, op.leaf, op.proof)
    ensures
      var b := s.batches[op.id];
      Next(env, s, op) == s.(
        invalid := s.invalid + {(op.id, env.hash(EncodeLeaf(op.leaf)))},
        batches := s.batches[op.id := b.(invalidated := b.invalidated + op.leaf.value)])
  {
  }

  // ---- The five reasons, each exactly, however long after the commit ----

  /**
   INVALID_SIGNATURE: the verifier was configured at the commit, key and signature are the ones the leaf is bound
   to, and the verifier rejects them over the leaf's own message.
   */
  lemma {:induction false} SignatureChallengeExactly(
    env: Env, s: State, commit: Op, ops: seq<Op>, caller: Account, leaf: ReceiptLeaf, proof: seq<Bytes>,
    publicKey: Bytes, signature: Bytes)
    requires Inv(s) && commit.Commit? && Try(env, s, commit).Done?
    requires Challengeable(env, Run(env, Next(env, s, commit), ops), commit.id, leaf, proof)
    ensures
      var now := Run(env, Next(env, s, commit), ops);
      Try(env, now, Challenge(caller, commit.id, leaf, proof, InvalidSignature(publicKey, signature))).Done? <==>
        && s.verifierSet
        && env.hash(publicKey) == leaf.providerPubkeyHash && env.hash(signature) == leaf.signatureHash
        && env.verify(leaf.signingMessageHash, signature, publicKey) == false
  {
    CommitSnapshot(env, s, commit, ops);
  }

  /** NO_ESCROW: nothing but the word of the requester named in the commit. */
  lemma {:induction false} NoEscrowChallengeExactly(
    env: Env, s: State, commit: Op, ops: seq<Op>, caller: Account, leaf: ReceiptLeaf, proof: seq<Bytes>)
    requires Inv(s) && commit.Commit? && Try(env, s, commit).Done?
    requires Challengeable(env, Run(env, Next(env, s, commit), ops), commit.id, leaf, proof)
    ensures
      var now := Run(env, Next(env, s, commit), ops);
      Try(env, now, Challenge(caller, commit.id, leaf, proof, NoEscrow)).Done? <==> caller == commit.requester
  {
    CommitSnapshot(env, s, commit, ops);
  }

  /** EXPIRED: older than the lookback of the commit, whatever the owner set since. */
  lemma {:induction false} ExpiredChallengeExactly(
    env: Env, s: State, commit: Op, ops: seq<Op>, caller: Account, leaf: ReceiptLeaf, proof: seq<Bytes>)
    requires Inv(s) && commit.Commit? && Try(env, s, commit).Done?
    requires Challengeable(env, Run(env, Next(env, s, commit), ops), commit.id, leaf, proof)
    ensures
      var now := Run(env, Next(env, s, commit), ops);
      Try(env, now, Challenge(caller, commit.id, leaf, proof, Expired)).Done? <==>
        leaf.executedAt + s.lookback < now.now
  {
    CommitSnapshot(env, s, commit, ops);
  }

  /** DOUBLE_SPEND: another batch, committed strictly before this one, in which the same leaf is provable. */
  lemma {:induction false} DoubleSpendChallengeExactly(
    env: Env, s: State, commit: Op, ops: seq<Op>, caller: Account, leaf: ReceiptLeaf, proof: seq<Bytes>,
    other: BatchId, otherProof: seq<Bytes>)
    requires Inv(s) && commit.Commit? && Try(env, s, commit).Done?
    requires Challengeable(env, Run(env, Next(env, s, commit), ops), commit.id, leaf, proof)
    ensures
      var now := Run(env, Next(env, s, commit), ops);
      Try(env, now, Challenge(caller, commit.id, leaf, proof, DoubleSpend(other, otherProof))).Done? <==>
        && other in now.batches && now.batches[other].committedAt < s.now
        && Fold(env.hash, env.hash(EncodeLeaf(leaf)), otherProof) == now.batches[other].root
  {
    CommitSnapshot(env, s, commit, ops);
  }

  /**
   CONSENSUS_MISMATCH: a batch of another provider in the same nonzero group, in which a leaf of the same job and
   shard with a different output is provable.
   */
  lemma {:induction false} ConsensusChallengeExactly(
    env: Env, s: State, commit: Op, ops: seq<Op>, caller: Account, leaf: ReceiptLeaf, proof: seq<Bytes>,
    other: BatchId, otherProof: seq<Bytes>, majority: ReceiptLeaf)
    requires Inv(s) && commit.Commit? && Try(env, s, commit).Done?
    requires Challengeable(env, Run(env, Next(env, s, commit), ops), commit.id, leaf, proof)
    ensures
      var now := Run(env, Next(env, s, commit), ops);
      var evidence := ConsensusMismatch(other, otherProof, majority);
      Try(env, now, Challenge(caller, commit.id, leaf, proof, evidence)).Done? <==>
        && commit.group != 0
        && other in now.batches && now.batches[other].group == commit.group
        && now.batches[other].provider != commit.caller
        && majority.jobIdHash == leaf.jobIdHash && majority.shardIndex == leaf.shardIndex
        && majority.outputHash != leaf.outputHash
        && Fold(env.hash, env.hash(EncodeLeaf(majority)), otherProof) == now.batches[other].root
  {
    CommitSnapshot(env, s, commit, ops);
  }

  /** MALFORMED is reserved: no such challenge ever goes through. */
  lemma {:induction false} MalformedNeverProves(
    env: Env, s: State, caller: Account, id: BatchId, leaf: ReceiptLeaf, proof: seq<Bytes>)
    ensures Try(env, s, Challenge(caller, id, leaf, proof, Malformed)).Reverted?
  {
  }

  // ---- What an honest receipt is safe from, over whole runs ----

  /** Key and signature offered for `leaf` are the bound ones only if the verifier accepts them. */
  ghost predicate WellSigned(env: Env, leaf: ReceiptLeaf, publicKey: Bytes, signature: Bytes) {
    env.hash(publicKey) == leaf.providerPubkeyHash && env.hash(signature) == leaf.signatureHash ==>
      env.verify(leaf.signingMessageHash, signature, publicKey)
  }

  /** The two byte strings do not collide. */
  ghost predicate Apart(env: Env, x: Bytes, y: Bytes) {
    env.hash(x) == env.hash(y) ==> x == y
  }

  /**
   A receipt whose bound signature the verifier accepts is never invalidated by INVALID_SIGNATURE, at any step of
   any run, whatever key and signature the challenger brings.
   */
  lemma {:induction false} SignedReceiptStands(
    env: Env, s: State, ops: seq<Op>, k: nat, leaf: ReceiptLeaf, publicKey: Bytes, signature: Bytes)
    requires env.hash(publicKey) == leaf.providerPubkeyHash && env.hash(signature) == leaf.signatureHash
    requires env.verify(leaf.signingMessageHash, signature, publicKey)
    requires k < |ops| && ops[k].Challenge? && ops[k].leaf == leaf && ops[k].evidence.InvalidSignature?
    requires Apart(env, ops[k].evidence.publicKey, publicKey) && Apart(env, ops[k].evidence.signature, signature)
    ensures Try(env, Run(env, s, ops[..k]), ops[k]).Reverted?
  {
  }

  /**
   What a challenge would need is missing: it names this very leaf, the signature is good, the caller of NO_ESCROW is
   not the requester, no majority of a consensus group has another output, and no older batch has the leaf.
   */
  ghost predicate Unfounded(env: Env, s: State, id: BatchId, leaf: ReceiptLeaf, op: Op)
    requires id in s.batches
  {
    op.Challenge? && op.id == id && env.hash(EncodeLeaf(op.leaf)) == env.hash(EncodeLeaf(leaf)) ==>
      && op.leaf == leaf
      && (op.evidence.InvalidSignature? ==> WellSigned(env, leaf, op.evidence.publicKey, op.evidence.signature))
      && (op.evidence.NoEscrow? ==> op.caller != s.batches[id].requester)
      && (op.evidence.ConsensusMismatch? ==>
            s.batches[id].group == 0 || op.evidence.majority.outputHash == leaf.outputHash)
      && (op.evidence.DoubleSpend? ==> NoOlderHolds(env, s, id, leaf, op.evidence.otherProof))
  }

  ghost predicate NoOlderHolds(env: Env, s: State, id: BatchId, leaf: ReceiptLeaf, proof: seq<Bytes>)
    requires id in s.batches
  {
    forall o :: o in s.batches && s.batches[o].committedAt < s.batches[id].committedAt ==>
      Fold(env.hash, env.hash(EncodeLeaf(leaf)), proof) != s.batches[o].root
  }

  /**
   Over any run an honest receipt stays valid: signed, young enough until the end of the run, disowned by nobody who
   may, outvoted by no consensus group, and in no older batch. Batches committed later are no double spend of it.
   */
  lemma {:induction false} HonestReceiptStands(
    env: Env, s: State, ops: seq<Op>, id: BatchId, leaf: ReceiptLeaf)
    requires Inv(s) && id in s.batches && (id, env.hash(EncodeLeaf(leaf))) !in s.invalid
    requires Run(env, s, ops).now <= leaf.executedAt + s.batches[id].lookback
    requires forall op :: op in ops ==> Unfounded(env, s, id, leaf, op)
    ensures (id, env.hash(EncodeLeaf(leaf))) !in Run(env, s, ops).invalid
    decreases ops
  {
    if ops != [] {
      var n := Next(env, s, ops[0]);
      assert ops[0] in ops;
      StepFacts(env, s, ops[0]);
      NowGrows(env, s, ops);
      UnfoundedStep(env, s, id, leaf, ops[0]);
      forall op | op in ops[1..] ensures Unfounded(env, n, id, leaf, op) {
        assert Unfounded(env, s, id, leaf, op);
        UnfoundedStays(env, s, id, leaf, ops[0], op);
      }
      HonestReceiptStands(env, n, ops[1..], id, leaf);
    }
  }

  lemma {:induction false} UnfoundedStep(env: Env, s: State, id: BatchId, leaf: ReceiptLeaf, op: Op)
    requires id in s.batches && (id, env.hash(EncodeLeaf(leaf))) !in s.invalid
    requires s.now <= leaf.executedAt + s.batches[id].lookback
    requires Unfounded(env, s, id, leaf, op)
    ensures (id, env.hash(EncodeLeaf(leaf))) !in Next(env, s, op).invalid
  {
    if op.Challenge? && Try(env, s, op).Done? {
      ChallengeEffect(env, s, op);
    } else if !op.Challenge? {
      OnlyChallengesInvalidate(env, s, op);
    }
  }

  lemma {:induction false} OnlyChallengesInvalidate(env: Env, s: State, op: Op)
    requires !op.Challenge?
    ensures Next(env, s, op).invalid == s.invalid
  {
    if !op.Commit? && !op.Finalize? {
      OthersKeepBatches(env, s, op);
    }
  }

  /** A batch committed now is not older than one that is there already. */
  lemma {:induction false} UnfoundedStays(env: Env, s: State, id: BatchId, leaf: ReceiptLeaf, step: Op, op: Op)
    requires Inv(s) && id in s.batches && Unfounded(env, s, id, leaf, op)
    ensures id in Next(env, s, step).batches && Unfounded(env, Next(env, s, step), id, leaf, op)
  {
    var n := Next(env, s, step);
    StepFacts(env, s, step);
    if op.Challenge? && op.evidence.DoubleSpend? && NoOlderHolds(env, s, id, leaf, op.evidence.otherProof) {
      forall o | o in n.batches && n.batches[o].committedAt < n.batches[id].committedAt
        ensures Fold(env.hash, env.hash(EncodeLeaf(leaf)), op.evidence.otherProof) != n.batches[o].root
      {
        if o !in s.batches {
          NewBatches(env, s, step, o);
        }
      }
    }
  }
}
