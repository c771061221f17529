/** The shared escrow: exact slack accounting, solvency, and exactly-once payment over every run. */
module Solvency {
  import opened Ledger
  import opened Totals

  /** What a batch may still draw from the escrow of `r`. */
  function Claim(b: Batch, r: Account): nat {
    if b.status.Pending? && b.requester == r && b.total > b.invalidated then b.total - b.invalidated else 0
  }

  /** Every batch with its claim. */
  ghost function ClaimMap(batches: map<BatchId, Batch>, r: Account): (m: map<BatchId, nat>)
    ensures m.Keys == batches.Keys && forall id :: id in batches ==> m[id] == Claim(batches[id], r)
    decreases |batches|
  {
    if batches == map[] then map[]
    else
      var id :| id in batches;
      ClaimMap(batches - {id}, r)[id := Claim(batches[id], r)]
  }

  ghost function Claims(s: State, r: Account): nat {
    Total(ClaimMap(s.batches, r))
  }

  /** Escrow beyond all pending claims; negative when the shared pool is short. */
  ghost function Slack(s: State, r: Account): int {
    Get(s.balances, r) - Claims(s, r)
  }

  ghost predicate Covered(s: State, r: Account) {
    Claims(s, r) <= Get(s.balances, r)
  }

  lemma {:induction false} ClaimsUpdate(batches: map<BatchId, Batch>, id: BatchId, b: Batch, r: Account)
    ensures Total(ClaimMap(batches[id := b], r))
         == Total(ClaimMap(batches, r)) - (if id in batches then Claim(batches[id], r) else 0) + Claim(b, r)
  {
    assert ClaimMap(batches[id := b], r) == ClaimMap(batches, r)[id := Claim(b, r)];
    TotalUpdate(ClaimMap(batches, r), id, Claim(b, r));
  }

  /** The exact effect of one transaction on the slack of `r`. */
  ghost function SlackEffect(env: Env, s: State, op: Op, r: Account): int {
    if Try(env, s, op).Reverted? then 0
    else match op
      case Deposit(caller, amount) => if caller == r then amount else 0
      case Withdraw(caller, amount) => if caller == r then -(amount as int) else 0
      case Commit(_, _, requester, _, _, total, _, _) => if requester == r then -(total as int) else 0
      case Challenge(_, id, leaf, _, _) =>
        if leaf.value < Claim(s.batches[id], r) then leaf.value else Claim(s.batches[id], r)
      case _ => 0
  }

  lemma {:induction false} FinalizeSlack(s: State, id: BatchId, r: Account)
    requires TryFinalize(s, id).Done?
    ensures Slack(TryFinalize(s, id).next, r) == Slack(s, r)
  {
    ClaimsUpdate(s.batches, id, s.batches[id].(status := Finalized), r);
  }

  lemma {:induction false} ChallengeSlack(env: Env, s: State, op: Op, r: Account)
    requires op.Challenge? && TryChallenge(env, s, op).Done?
    ensures
      var open := Claim(s.batches[op.id], r);
      Slack(TryChallenge(env, s, op).next, r) == Slack(s, r) + if op.leaf.value < open then op.leaf.value else open
  {
    ClaimsUpdate(s.batches, op.id, TryChallenge(env, s, op).next.batches[op.id], r);
  }

  lemma {:induction false} CommitSlack(s: State, op: Op, r: Account)
    requires op.Commit? && TryCommit(s, op).Done?
    ensures Slack(TryCommit(s, op).next, r) == Slack(s, r) - (if op.requester == r then op.total else 0)
  {
    ClaimsUpdate(s.batches, op.id, NewBatch(s, op), r);
  }

  lemma {:induction false} SlackStep(env: Env, s: State, op: Op, r: Account)
    ensures Slack(Next(env, s, op), r) == Slack(s, r) + SlackEffect(env, s, op, r)
  {
    if Try(env, s, op).Done? {
      match op
      case Commit(_, _, _, _, _, _, _, _) => CommitSlack(s, op, r);
      case Challenge(_, _, _, _, _) => ChallengeSlack(env, s, op, r);
      case Finalize(id) => FinalizeSlack(s, id, r);
      case _ =>
    }
  }

  ghost function SlackChange(env: Env, s: State, ops: seq<Op>, r: Account): int
    decreases ops
  {
    if ops == [] then 0
    else SlackEffect(env, s, ops[0], r) + SlackChange(env, Next(env, s, ops[0]), ops[1..], r)
  }

  /**
   Exact law of the shared pool, over every run: slack grows by deposits and by the value of every invalidated
   receipt, as far as its batch still had an open claim, shrinks by withdrawals and committed value, and finalizing (of
   anyone's batch, in any order) never moves it.
   */
  lemma {:induction false} SlackRun(env: Env, s: State, ops: seq<Op>, r: Account)
    ensures Slack(Run(env, s, ops), r) == Slack(s, r) + SlackChange(env, s, ops, r)
    decreases ops
  {
    if ops != [] {
      SlackStep(env, s, ops[0], r);
      SlackRun(env, Next(env, s, ops[0]), ops[1..], r);
    }
  }

  /** Steps that cannot hurt `r`: everything but its own withdrawals and commits in its name. */
  ghost predicate Harmless(op: Op, r: Account) {
    !(op.Withdraw? && op.caller == r) && !(op.Commit? && op.requester == r)
  }

  lemma {:induction false} HarmlessStep(env: Env, s: State, op: Op, r: Account)
    requires Harmless(op, r)
    ensures Slack(Next(env, s, op), r) >= Slack(s, r)
  {
    SlackStep(env, s, op, r);
  }

  // ---- Finalizing ----

  /** Everything finalization asks for except money. */
  predicate Ready(s: State, id: BatchId) {
    && !s.paused && id in s.batches && s.batches[id].status.Pending?
    && Elapsed(s, s.batches[id]) >= s.batches[id].window
    && s.batches[id].total >= s.batches[id].invalidated
    && (s.batches[id].total > s.batches[id].invalidated ==> s.batches[id].poolSet && !s.poolPaused)
  }

  lemma {:induction false} FinalizeExactly(env: Env, s: State, id: BatchId)
    requires AccountsOk(s)
    ensures Try(env, s, Finalize(id)).Done? <==>
      Ready(s, id) && Claim(s.batches[id], s.batches[id].requester) <= Get(s.balances, s.batches[id].requester)
    ensures Ready(s, id) && Try(env, s, Finalize(id)).Reverted? ==>
      Try(env, s, Finalize(id)).reason == InsufficientBalance
  {
    if Ready(s, id) {
      var b := s.batches[id];
      if Claim(b, b.requester) <= Get(s.balances, b.requester) {
        PayOutFacts(Closed(s, id), b.requester, b.provider, b.total - b.invalidated);
      }
    }
  }

  lemma {:induction false} ClaimAtMostClaims(s: State, id: BatchId, r: Account)
    requires id in s.batches
    ensures Claim(s.batches[id], r) <= Claims(s, r)
  {
    GetAtMostTotal(ClaimMap(s.batches, r), id);
  }

  /** With a covered pool a ready batch always finalizes: lack of funds is never the reason for a revert. */
  lemma {:induction false} CoveredFinalizes(env: Env, s: State, id: BatchId)
    requires AccountsOk(s) && Ready(s, id) && Covered(s, s.batches[id].requester)
    ensures Try(env, s, Finalize(id)).Done?
  {
    ClaimAtMostClaims(s, id, s.batches[id].requester);
    FinalizeExactly(env, s, id);
  }

  ghost predicate AllFinalize(env: Env, s: State, ids: seq<BatchId>)
    decreases ids
  {
    ids == [] || (Try(env, s, Finalize(ids[0])).Done? && AllFinalize(env, Next(env, s, Finalize(ids[0])), ids[1..]))
  }

  lemma {:induction false} FinalizeKeepsReady(env: Env, s: State, id: BatchId, other: BatchId, r: Account)
    requires Try(env, s, Finalize(id)).Done? && Ready(s, other) && other != id
    ensures Ready(Next(env, s, Finalize(id)), other)
    ensures Next(env, s, Finalize(id)).batches[other] == s.batches[other]
  {
  }

  /**
   Order does not matter: any listing of ready batches of `r` finalizes to the end if and only if their
   claims together fit in the balance of `r`.
   */
  lemma {:induction false} AnyOrder(env: Env, s: State, ids: seq<BatchId>, r: Account)
    requires AccountsOk(s) && Distinct(ids)
    requires forall id :: id in ids ==> Ready(s, id) && s.batches[id].requester == r
    ensures AllFinalize(env, s, ids) <==> SumAt(ClaimMap(s.batches, r), ids) <= Get(s.balances, r)
    decreases ids
  {
    if ids != [] {
      var id, rest := ids[0], ids[1..];
      FinalizeExactly(env, s, id);
      if Try(env, s, Finalize(id)).Done? {
        var n := Next(env, s, Finalize(id));
        MoneyStep(env, s, Finalize(id));
        forall other | other in rest
          ensures Ready(n, other) && n.batches[other] == s.batches[other]
        {
          FinalizeKeepsReady(env, s, id, other, r);
        }
        AnyOrder(env, n, rest, r);
        SumAtSame(ClaimMap(s.batches, r), ClaimMap(n.batches, r), rest);
      }
    }
  }

  /** All pending batches of `r` can be paid, in whatever order, if and only if the pool is covered. */
  lemma {:induction false} AllPayableIffCovered(env: Env, s: State, ids: seq<BatchId>, r: Account)
    requires AccountsOk(s) && Distinct(ids)
    requires forall id :: id in ids ==> Ready(s, id) && s.batches[id].requester == r
    requires forall id :: id in s.batches && s.batches[id].status.Pending? && s.batches[id].requester == r ==> id in ids
    ensures AllFinalize(env, s, ids) <==> Covered(s, r)
  {
    AnyOrder(env, s, ids, r);
    SumAtPart(ClaimMap(s.batches, r), ids);
  }

  // ---- Exactly-once payment ----

  ghost function SettledValue(s: State, id: BatchId): nat {
    if id in s.batches && s.batches[id].status.Finalized? && s.batches[id].total > s.batches[id].invalidated
    then s.batches[id].total - s.batches[id].invalidated else 0
  }

  /** What one transaction pays out for batch `id`. */
  ghost function PaidBy(env: Env, s: State, op: Op, id: BatchId): nat {
    if op == Finalize(id) && Try(env, s, op).Done? then s.batches[id].total - s.batches[id].invalidated else 0
  }

  ghost function PaidFor(env: Env, s: State, ops: seq<Op>, id: BatchId): nat
    decreases ops
  {
    if ops == [] then 0 else PaidBy(env, s, ops[0], id) + PaidFor(env, Next(env, s, ops[0]), ops[1..], id)
  }

  ghost function TimesFinalized(env: Env, s: State, ops: seq<Op>, id: BatchId): nat
    decreases ops
  {
    if ops == [] then 0
    else (if ops[0] == Finalize(id) && Try(env, s, ops[0]).Done? then 1 else 0)
         + TimesFinalized(env, Next(env, s, ops[0]), ops[1..], id)
  }

  predicate IsFinal(s: State, id: BatchId) {
    id in s.batches && s.batches[id].status.Finalized?
  }

  lemma {:induction false} SettledStep(env: Env, s: State, op: Op, id: BatchId)
    ensures SettledValue(Next(env, s, op), id) == SettledValue(s, id) + PaidBy(env, s, op, id)
    ensures IsFinal(Next(env, s, op), id) <==> IsFinal(s, id) || (op == Finalize(id) && Try(env, s, op).Done?)
    ensures op == Finalize(id) && Try(env, s, op).Done? ==> !IsFinal(s, id)
  {
    if op.Finalize? {
      FinalizeSettles(env, s, op.id, id);
    } else if op.Commit? || op.Challenge? {
      UnsettledStep(env, s, op, id);
    } else {
      OthersKeepBatches(env, s, op);
    }
  }

  lemma {:induction false} FinalizeSettles(env: Env, s: State, other: BatchId, id: BatchId)
    ensures SettledValue(Next(env, s, Finalize(other)), id) == SettledValue(s, id) + PaidBy(env, s, Finalize(other), id)
    ensures IsFinal(Next(env, s, Finalize(other)), id) <==>
            IsFinal(s, id) || (other == id && Try(env, s, Finalize(id)).Done?)
    ensures other == id && Try(env, s, Finalize(id)).Done? ==> !IsFinal(s, id)
  {
    if TryFinalize(s, other).Done? && id in s.batches {
      FinalizeEvolves(s, other, id);
    }
  }

  lemma {:induction false} UnsettledStep(env: Env, s: State, op: Op, id: BatchId)
    requires op.Commit? || op.Challenge?
    ensures SettledValue(Next(env, s, op), id) == SettledValue(s, id)
    ensures IsFinal(Next(env, s, op), id) <==> IsFinal(s, id)
  {
    if id in s.batches {
      EvolveStep(env, s, op, id);
    }
  }

  /**
   Exactly once: over any run, with finalize attempts repeated by anyone any number of times, a batch is
   paid for at most one time, and what has been paid is its value less what was invalidated.
   */
  lemma {:induction false} ExactlyOnce(env: Env, s: State, ops: seq<Op>, id: BatchId)
    ensures PaidFor(env, s, ops, id) == SettledValue(Run(env, s, ops), id) - SettledValue(s, id)
    ensures TimesFinalized(env, s, ops, id) == if IsFinal(Run(env, s, ops), id) && !IsFinal(s, id) then 1 else 0
    ensures IsFinal(s, id) ==> IsFinal(Run(env, s, ops), id)
    decreases ops
  {
    if ops != [] {
      SettledStep(env, s, ops[0], id);
      ExactlyOnce(env, Next(env, s, ops[0]), ops[1..], id);
    }
  }

  /** The exact effect of one transaction on the wallet of `a`. */
  ghost function WalletEffect(env: Env, s: State, op: Op, a: Account): int {
    if Try(env, s, op).Reverted? then 0
    else match op
      case Deposit(caller, amount) => if caller == a then -(amount as int) else 0
      case Withdraw(caller, amount) => if caller == a then amount else 0
      case Finalize(id) => if s.batches[id].provider == a then PaidBy(env, s, op, id) else 0
      case _ => 0
  }

  ghost function WalletChange(env: Env, s: State, ops: seq<Op>, a: Account): int
    decreases ops
  {
    if ops == [] then 0
    else WalletEffect(env, s, ops[0], a) + WalletChange(env, Next(env, s, ops[0]), ops[1..], a)
  }

  /** Only its own deposits and withdrawals and the payments of batches it provided move a wallet. */
  lemma {:induction false} WalletRun(env: Env, s: State, ops: seq<Op>, a: Account)
    ensures Get(Run(env, s, ops).wallets, a) == Get(s.wallets, a) + WalletChange(env, s, ops, a)
    decreases ops
  {
    if ops != [] {
      WalletStep(env, s, ops[0], a);
      WalletRun(env, Next(env, s, ops[0]), ops[1..], a);
    }
  }

  /** What a run pays for a list of batches. */
  ghost function PaidForAll(env: Env, s: State, ops: seq<Op>, ids: seq<BatchId>): nat {
    if ids == [] then 0 else PaidFor(env, s, ops, ids[0]) + PaidForAll(env, s, ops, ids[1..])
  }

  ghost function PaidByAll(env: Env, s: State, op: Op, ids: seq<BatchId>): nat {
    if ids == [] then 0 else PaidBy(env, s, op, ids[0]) + PaidByAll(env, s, op, ids[1..])
  }

  lemma {:induction false} PaidForAllStep(env: Env, s: State, ops: seq<Op>, ids: seq<BatchId>)
    requires ops != []
    ensures PaidForAll(env, s, ops, ids)
            == PaidByAll(env, s, ops[0], ids) + PaidForAll(env, Next(env, s, ops[0]), ops[1..], ids)
  {
    if ids != [] {
      PaidForAllStep(env, s, ops, ids[1..]);
    }
  }

  lemma {:induction false} NothingPaidForAll(env: Env, s: State, ids: seq<BatchId>)
    ensures PaidForAll(env, s, [], ids) == 0
  {
    if ids != [] {
      NothingPaidForAll(env, s, ids[1..]);
    }
  }

  lemma {:induction false} PaidByOne(env: Env, s: State, op: Op, ids: seq<BatchId>)
    requires Distinct(ids)
    ensures PaidByAll(env, s, op, ids) == if op.Finalize? && op.id in ids then PaidBy(env, s, op, op.id) else 0
  {
    if ids != [] {
      assert forall i, j :: 0 < i < j < |ids| ==> ids[1..][i - 1] == ids[i] && ids[1..][j - 1] == ids[j];
      PaidByOne(env, s, op, ids[1..]);
      if op.Finalize? && op.id == ids[0] {
        assert op.id !in ids[1..];
      }
    }
  }

  /** The batches that `a` provides, exactly, as they stand in `s`. */
  ghost predicate ProvidedBy(s: State, a: Account, ids: seq<BatchId>) {
    forall id :: id in s.batches ==> (s.batches[id].provider == a <==> id in ids)
  }

  /**
   A wallet whose owner neither deposits nor withdraws grows over a run by exactly what the run pays for the
   batches the owner provides.
   */
  lemma {:induction false} WalletFromBatches(env: Env, s: State, ops: seq<Op>, a: Account, ids: seq<BatchId>)
    requires Distinct(ids) && ProvidedBy(Run(env, s, ops), a, ids)
    requires forall op :: op in ops ==> !((op.Deposit? || op.Withdraw?) && op.caller == a)
    ensures Get(Run(env, s, ops).wallets, a) == Get(s.wallets, a) + PaidForAll(env, s, ops, ids)
    decreases ops
  {
    if ops == [] {
      NothingPaidForAll(env, s, ids);
    } else {
      var op, n := ops[0], Next(env, s, ops[0]);
      assert op in ops;
      WalletStep(env, s, op, a);
      PaidForAllStep(env, s, ops, ids);
      PaidByOne(env, s, op, ids);
      if op.Finalize? && op.id in s.batches {
        EvolveStep(env, s, op, op.id);
        BatchesStay(env, n, ops[1..], op.id);
      }
      WalletFromBatches(env, n, ops[1..], a, ids);
    }
  }

  lemma {:induction false} BatchesStay(env: Env, s: State, ops: seq<Op>, id: BatchId)
    requires id in s.batches
    ensures id in Run(env, s, ops).batches && Run(env, s, ops).batches[id].provider == s.batches[id].provider
    decreases ops
  {
    if ops != [] {
      EvolveStep(env, s, ops[0], id);
      BatchesStay(env, Next(env, s, ops[0]), ops[1..], id);
    }
  }

  lemma {:induction false} WalletStep(env: Env, s: State, op: Op, a: Account)
    ensures Get(Next(env, s, op).wallets, a) == Get(s.wallets, a) + WalletEffect(env, s, op, a)
  {
    if !MovesMoney(op) {
      OthersMoveNothing(env, s, op);
    }
  }
}
