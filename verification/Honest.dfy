/**
 Challenges against an honestly built batch: the Merkle tree, the leaf encoding and the registry together.
 prsm/settlement/merkle.py with BatchSettlementRegistry.sol.
 */
module Honest {
  import opened Words
  import opened Merkle
  import opened Receipts
  import opened Ledger
  import opened Totals
  import opened Solvency

  function Encodings(leaves: seq<ReceiptLeaf>): (es: seq<Bytes>)
    ensures |es| == |leaves|
  {
    seq(|leaves|, i requires 0 <= i < |leaves| => EncodeLeaf(leaves[i]))
  }

  function SumValues(leaves: seq<ReceiptLeaf>): nat {
    if leaves == [] then 0 else leaves[0].value + SumValues(leaves[1..])
  }

  /** A batch whose root and total are those of a list of distinct valid receipts. */
  ghost predicate HonestBatch(env: Env, b: Batch, leaves: seq<ReceiptLeaf>) {
    && leaves != [] && Distinct(leaves)
    && (forall l :: l in leaves ==> l.Valid())
    && b.root == Root(env.hash, Leaves(env.hash, Encodings(leaves)))
    && b.total == SumValues(leaves)
  }

  /** The values of the receipts of `leaves` recorded as invalidated for batch `id`. */
  ghost function InvalidSum(env: Env, invalid: set<(BatchId, Bytes)>, id: BatchId, leaves: seq<ReceiptLeaf>): nat {
    if leaves == [] then 0
    else (if (id, LeafHash(env, leaves[0])) in invalid then leaves[0].value else 0)
         + InvalidSum(env, invalid, id, leaves[1..])
  }

  lemma {:induction false} InvalidAtMostTotal(
    env: Env, invalid: set<(BatchId, Bytes)>, id: BatchId, leaves: seq<ReceiptLeaf>)
    ensures InvalidSum(env, invalid, id, leaves) <= SumValues(leaves)
  {
    if leaves != [] {
      InvalidAtMostTotal(env, invalid, id, leaves[1..]);
    }
  }

  /** The strings hashed on behalf of a batch and by the challenges of a run all lie in `d`. */
  ghost predicate HashesWithin(env: Env, d: set<Bytes>, leaves: seq<ReceiptLeaf>, ops: seq<Op>) {
    && (forall e :: e in Encodings(leaves) ==> e in d)
    && TreeInputs(env.hash, Leaves(env.hash, Encodings(leaves))) <= d
    && forall op: Op :: op in ops && op.Challenge? ==> ChallengeWithin(env, d, op)
  }

  /** A challenge transaction carries typed fields: a valid leaf and bytes32 siblings. */
  ghost predicate ChallengeWithin(env: Env, d: set<Bytes>, op: Op)
    requires op.Challenge?
  {
    && op.leaf.Valid()
    && (forall s :: s in op.proof ==> |s| == 32)
    && EncodeLeaf(op.leaf) in d
    && FoldInputs(env.hash, LeafHash(env, op.leaf), op.proof) <= d
  }

  /** Whoever gets a receipt invalidated in an honest batch has named one of its receipts. */
  lemma {:induction false} ChallengedLeafIsListed(env: Env, d: set<Bytes>, b: Batch, leaves: seq<ReceiptLeaf>, op: Op)
    requires GoodHash(env.hash, d) && HonestBatch(env, b, leaves) && HashesWithin(env, d, leaves, [op])
    requires op.Challenge? && Verifies(env, op.leaf, op.proof, b.root)
    ensures op.leaf in leaves
  {
    var es := Encodings(leaves);
    assert op in [op];
    assert ChallengeWithin(env, d, op);
    forall e | e in es ensures |e| > 64 {
      var i :| 0 <= i < |es| && es[i] == e;
      assert leaves[i] in leaves;
      LeafLength(leaves[i]);
    }
    LeafLength(op.leaf);
    InclusionSound(env.hash, d, es, EncodeLeaf(op.leaf), op.proof);
    var i :| 0 <= i < |es| && es[i] == EncodeLeaf(op.leaf);
    assert leaves[i] in leaves;
    LeafInjective(leaves[i], op.leaf);
  }

  lemma {:induction false} InvalidSumUnchanged(env: Env, d: set<Bytes>, invalid: set<(BatchId, Bytes)>, id: BatchId,
                                               leaves: seq<ReceiptLeaf>, other: BatchId, l: ReceiptLeaf)
    requires GoodHash(env.hash, d) && EncodeLeaf(l) in d && l.Valid()
    requires forall k :: k in leaves ==> k.Valid() && EncodeLeaf(k) in d
    requires other != id || l !in leaves
    ensures InvalidSum(env, invalid + {(other, LeafHash(env, l))}, id, leaves) == InvalidSum(env, invalid, id, leaves)
    decreases leaves
  {
    if leaves != [] {
      if LeafHash(env, leaves[0]) == LeafHash(env, l) {
        LeafInjective(leaves[0], l);
      }
      InvalidSumUnchanged(env, d, invalid, id, leaves[1..], other, l);
    }
  }

  lemma {:induction false} InvalidSumGrows(env: Env, d: set<Bytes>, invalid: set<(BatchId, Bytes)>, id: BatchId,
                                           leaves: seq<ReceiptLeaf>, l: ReceiptLeaf)
    requires GoodHash(env.hash, d) && Distinct(leaves) && l in leaves
    requires forall k :: k in leaves ==> k.Valid() && EncodeLeaf(k) in d
    requires (id, LeafHash(env, l)) !in invalid
    ensures InvalidSum(env, invalid + {(id, LeafHash(env, l))}, id, leaves)
            == InvalidSum(env, invalid, id, leaves) + l.value
    decreases leaves
  {
    var head, rest := leaves[0], leaves[1..];
    if head == l {
      assert l !in rest;
      InvalidSumUnchanged(env, d, invalid, id, rest, id, l);
    } else {
      assert l in rest;
      if LeafHash(env, head) == LeafHash(env, l) {
        LeafInjective(head, l);
      }
      InvalidSumGrows(env, d, invalid, id, rest, l);
    }
  }

  ghost predicate BooksExact(env: Env, s: State, id: BatchId, leaves: seq<ReceiptLeaf>) {
    id in s.batches && HonestBatch(env, s.batches[id], leaves)
    && s.batches[id].invalidated == InvalidSum(env, s.invalid, id, leaves)
  }

  lemma {:induction false} ListedEncodings(env: Env, d: set<Bytes>, leaves: seq<ReceiptLeaf>, ops: seq<Op>)
    requires HashesWithin(env, d, leaves, ops)
    ensures forall k :: k in leaves ==> EncodeLeaf(k) in d
  {
    forall k | k in leaves ensures EncodeLeaf(k) in d {
      var i :| 0 <= i < |leaves| && leaves[i] == k;
      assert Encodings(leaves)[i] in Encodings(leaves);
    }
  }

  lemma {:induction false} BooksStep(env: Env, d: set<Bytes>, s: State, op: Op, id: BatchId, leaves: seq<ReceiptLeaf>)
    requires GoodHash(env.hash, d) && HashesWithin(env, d, leaves, [op]) && BooksExact(env, s, id, leaves)
    ensures BooksExact(env, Next(env, s, op), id, leaves)
  {
    EvolveStep(env, s, op, id);
    if op.Challenge? && TryChallenge(env, s, op).Done? {
      assert op in [op];
      assert ChallengeWithin(env, d, op);
      ChallengeBooks(env, d, s, op, id, leaves);
    } else {
      NoChallengeKeepsBooks(env, s, op, id);
    }
  }

  lemma {:induction false} ChallengeBooks(
    env: Env, d: set<Bytes>, s: State, op: Op, id: BatchId, leaves: seq<ReceiptLeaf>)
    requires GoodHash(env.hash, d) && HashesWithin(env, d, leaves, [op]) && BooksExact(env, s, id, leaves)
    requires op.Challenge? && ChallengeWithin(env, d, op) && TryChallenge(env, s, op).Done?
    ensures
      var n := TryChallenge(env, s, op).next;
      id in n.batches && n.batches[id].invalidated == InvalidSum(env, n.invalid, id, leaves)
  {
    ListedEncodings(env, d, leaves, [op]);
    if op.id == id {
      ChallengedLeafIsListed(env, d, s.batches[id], leaves, op);
      InvalidSumGrows(env, d, s.invalid, id, leaves, op.leaf);
    } else {
      InvalidSumUnchanged(env, d, s.invalid, id, leaves, op.id, op.leaf);
    }
  }

  lemma {:induction false} NoChallengeKeepsBooks(env: Env, s: State, op: Op, id: BatchId)
    requires id in s.batches && !(op.Challenge? && Try(env, s, op).Done?)
    ensures Next(env, s, op).invalid == s.invalid
    ensures id in Next(env, s, op).batches && Next(env, s, op).batches[id].invalidated == s.batches[id].invalidated
  {
    match op
    case Finalize(other) =>
      if TryFinalize(s, other).Done? {
        FinalizeKeepsBooks(s, other, id);
      }
    case Challenge(_, _, _, _, _) =>
    case Commit(_, _, _, _, _, _, _, _) =>
    case _ =>
  }

  lemma {:induction false} FinalizeKeepsBooks(s: State, other: BatchId, id: BatchId)
    requires id in s.batches && TryFinalize(s, other).Done?
    ensures TryFinalize(s, other).next.invalid == s.invalid
    ensures id in TryFinalize(s, other).next.batches
    ensures TryFinalize(s, other).next.batches[id].invalidated == s.batches[id].invalidated
  {
  }

  /**
   Over every run of challenges and other transactions an honest batch is charged exactly for its own
   receipts that were invalidated, each once; so its payable value never underflows.
   */
  lemma {:induction false} HonestNeverUnderflows(
    env: Env, d: set<Bytes>, s: State, ops: seq<Op>, id: BatchId, leaves: seq<ReceiptLeaf>)
    requires GoodHash(env.hash, d) && HashesWithin(env, d, leaves, ops) && BooksExact(env, s, id, leaves)
    ensures BooksExact(env, Run(env, s, ops), id, leaves)
    ensures Run(env, s, ops).batches[id].invalidated <= Run(env, s, ops).batches[id].total
    decreases ops
  {
    if ops == [] {
      InvalidAtMostTotal(env, s.invalid, id, leaves);
    } else {
      assert HashesWithin(env, d, leaves, [ops[0]]) && HashesWithin(env, d, leaves, ops[1..]);
      BooksStep(env, d, s, ops[0], id, leaves);
      HonestNeverUnderflows(env, d, Next(env, s, ops[0]), ops[1..], id, leaves);
    }
  }

  /** Only committed batches have invalidated receipts; every transaction keeps that. */
  ghost predicate InvalidKnown(s: State) {
    forall p :: p in s.invalid ==> p.0 in s.batches
  }

  lemma {:induction false} InvalidKnownStep(env: Env, s: State, op: Op)
    requires InvalidKnown(s)
    ensures InvalidKnown(Next(env, s, op))
  {
    forall p | p in Next(env, s, op).invalid ensures p.0 in Next(env, s, op).batches {
      if p.0 in s.batches {
        EvolveStep(env, s, op, p.0);
      }
    }
  }

  lemma {:induction false} InvalidKnownRun(env: Env, s: State, ops: seq<Op>)
    requires InvalidKnown(s)
    ensures InvalidKnown(Run(env, s, ops))
    decreases ops
  {
    if ops != [] {
      InvalidKnownStep(env, s, ops[0]);
      InvalidKnownRun(env, Next(env, s, ops[0]), ops[1..]);
    }
  }

  /** A fresh honest commit starts with exact books. */
  lemma {:induction false} HonestCommit(env: Env, s: State, op: Op, leaves: seq<ReceiptLeaf>)
    requires op.Commit? && Try(env, s, op).Done? && HonestBatch(env, NewBatch(s, op), leaves)
    requires InvalidKnown(s)
    ensures BooksExact(env, Next(env, s, op), op.id, leaves)
  {
    NothingInvalid(env, s.invalid, op.id, leaves);
  }

  lemma {:induction false} NothingInvalid(
    env: Env, invalid: set<(BatchId, Bytes)>, id: BatchId, leaves: seq<ReceiptLeaf>)
    requires forall p :: p in invalid ==> p.0 != id
    ensures InvalidSum(env, invalid, id, leaves) == 0
  {
    if leaves != [] {
      NothingInvalid(env, invalid, id, leaves[1..]);
    }
  }

  /** The values of the receipts of `leaves` that were never invalidated. */
  ghost function StandingSum(env: Env, invalid: set<(BatchId, Bytes)>, id: BatchId, leaves: seq<ReceiptLeaf>): nat {
    if leaves == [] then 0
    else (if (id, LeafHash(env, leaves[0])) in invalid then 0 else leaves[0].value)
         + StandingSum(env, invalid, id, leaves[1..])
  }

  lemma {:induction false} StandingAndInvalid(
    env: Env, invalid: set<(BatchId, Bytes)>, id: BatchId, leaves: seq<ReceiptLeaf>)
    ensures StandingSum(env, invalid, id, leaves) + InvalidSum(env, invalid, id, leaves) == SumValues(leaves)
  {
    if leaves != [] {
      StandingAndInvalid(env, invalid, id, leaves[1..]);
    }
  }

  /**
   From commit to payment. An honest batch committed after any history and followed by any run pays, once it is
   final, exactly the receipts of its list that were not invalidated, each once; before that it pays nothing.
   */
  lemma {:induction false} HonestBatchPays(
    env: Env, d: set<Bytes>, s0: State, history: seq<Op>, commit: Op, ops: seq<Op>, leaves: seq<ReceiptLeaf>)
    requires InvalidKnown(s0) && GoodHash(env.hash, d) && HashesWithin(env, d, leaves, ops) && commit.Commit?
    requires
      var s := Run(env, s0, history);
      Try(env, s, commit).Done? && HonestBatch(env, NewBatch(s, commit), leaves)
    ensures
      var first := Next(env, Run(env, s0, history), commit);
      var last := Run(env, first, ops);
      && TimesFinalized(env, first, ops, commit.id) == (if IsFinal(last, commit.id) then 1 else 0)
      && PaidFor(env, first, ops, commit.id)
         == if IsFinal(last, commit.id) then StandingSum(env, last.invalid, commit.id, leaves) else 0
  {
    var s := Run(env, s0, history);
    var first := Next(env, s, commit);
    var last := Run(env, first, ops);
    InvalidKnownRun(env, s0, history);
    HonestCommit(env, s, commit, leaves);
    HonestNeverUnderflows(env, d, first, ops, commit.id, leaves);
    ExactlyOnce(env, first, ops, commit.id);
    StandingAndInvalid(env, last.invalid, commit.id, leaves);
  }

  /**
   An understated total is the one way into the underflow: a receipt worth more than the batch total,
   once invalidated, leaves a batch that no later transaction can ever finalize.
   */
  lemma {:induction false} UnderstatedStaysStuck(env: Env, s: State, ops: seq<Op>, id: BatchId)
    requires Inv(s) && id in s.batches && s.batches[id].status.Pending?
             && s.batches[id].invalidated > s.batches[id].total
    ensures Try(env, Run(env, s, ops), Finalize(id)).Reverted?
    ensures TimesFinalized(env, s, ops, id) == 0
    decreases ops
  {
    if ops != [] {
      EvolveStep(env, s, ops[0], id);
      StepFacts(env, s, ops[0]);
      SettledStep(env, s, ops[0], id);
      UnderstatedStaysStuck(env, Next(env, s, ops[0]), ops[1..], id);
    }
  }

  /** First committer wins: of two batches holding a receipt at most the later can be double-spend challenged. */
  lemma {:induction false} FirstCommitterWins(env: Env, s: State, ops: seq<Op>, op: Op, reply: Op)
    requires Inv(s)
    requires op.Challenge? && op.evidence.DoubleSpend? && Try(env, s, op).Done?
    requires reply.Challenge? && reply.evidence.DoubleSpend?
    requires reply.id == op.evidence.other && reply.evidence.other == op.id
    ensures Try(env, Run(env, Next(env, s, op), ops), reply).Reverted?
  {
    EvolveStep(env, s, op, op.id);
    EvolveStep(env, s, op, reply.id);
    StepFacts(env, s, op);
    RunFacts(env, Next(env, s, op), ops);
  }
}
