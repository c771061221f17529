/** The canonical receipt leaf and its ABI encoding: prsm/settlement/merkle.py, BatchSettlementRegistry.sol. */
module Receipts {
  import opened Words
  import opened UserOps

  datatype ReceiptLeaf = ReceiptLeaf(
    jobIdHash: Bytes, shardIndex: nat, providerIdHash: Bytes, providerPubkeyHash: Bytes,
    outputHash: Bytes, executedAt: nat, value: nat, signatureHash: Bytes, signingMessageHash: Bytes)
  {
    /** The checks of `ReceiptLeaf.__post_init__`: bytes32, uint32, uint64 and uint128 fields. */
    predicate Valid() {
      && |jobIdHash| == |providerIdHash| == |providerPubkeyHash| == |outputHash| == 32
      && |signatureHash| == |signingMessageHash| == 32
      && shardIndex < Pow256(4) && executedAt < Pow256(8) && value < Pow256(16)
    }
  }

  function LeafWords(l: ReceiptLeaf): (ws: seq<Bytes>)
    ensures |ws| == 9
  {
    [l.jobIdHash, Big(l.shardIndex, 32), l.providerIdHash, l.providerPubkeyHash, l.outputHash,
     Big(l.executedAt, 32), Big(l.value, 32), l.signatureHash, l.signingMessageHash]
  }

  function EncodeLeaf(l: ReceiptLeaf): Bytes {
    Concat(LeafWords(l))
  }

  lemma {:induction false} LeafLength(l: ReceiptLeaf)
    requires l.Valid()
    ensures |EncodeLeaf(l)| == 288
  {
    ConcatLength(LeafWords(l));
  }

  lemma {:induction false} PowMonotone(m: nat, n: nat)
    requires m <= n
    ensures Pow256(m) <= Pow256(n)
  {
    if m < n {
      PowMonotone(m, n - 1);
    }
  }

  /** Valid leaves with the same encoding are the same leaf. */
  lemma {:induction false} LeafInjective(l: ReceiptLeaf, k: ReceiptLeaf)
    requires l.Valid() && k.Valid()
    requires EncodeLeaf(l) == EncodeLeaf(k)
    ensures l == k
  {
    var ws, vs := LeafWords(l), LeafWords(k);
    ConcatInjective(ws, vs);
    PowMonotone(4, 32);
    PowMonotone(8, 32);
    PowMonotone(16, 32);
    assert ws[0] == vs[0] && ws[2] == vs[2] && ws[3] == vs[3] && ws[4] == vs[4] && ws[7] == vs[7] && ws[8] == vs[8];
    assert ws[1] == vs[1];
    BigInjective(l.shardIndex, k.shardIndex, 32);
    assert ws[5] == vs[5];
    BigInjective(l.executedAt, k.executedAt, 32);
    assert ws[6] == vs[6];
    BigInjective(l.value, k.value, 32);
  }
}
