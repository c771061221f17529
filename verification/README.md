# PRSM settlement, codecs, migrations and monitoring, verified

A Dafny model of the parts of PRSM whose correctness spans many steps:

* **Shared escrow settlement.** `Ledger` is the transition system of the FTNS token, the escrow pool and the batch
  registry; `Chain` is the same contracts as storage updated in place. `Solvency`, `Windows` and `Honest` prove what
  holds over every run: exact slack of a shared pool, conservation, payment exactly once, the challenge window under
  pauses, and challenges against honestly built batches (with `Merkle` and `Receipts` underneath). `Challenges` and
  `Acceptance` say exactly when each transaction goes through. `Bench`, `BenchSafety`, `BenchExits` and `BenchRunner`
  put the two-phase settlement script with its durable state file and its exit codes on top, `Shares` the split it pays
  by. `Totals` sums over maps, and `Outcomes` is the result type for raised exceptions.
* **Lagging reads.** `Replicas` (finalize countdown, single-batch finalizer) and `Anchor` (negative cache in front of
  a write-once key registry): every read may come from an arbitrary earlier state of the run.
* **Codecs.** `Words` (big-endian numbers) and `Hex` underneath `Abi`, `UserOps`, `Events`, `Payload`, `Canonical` and
  `Verifier`, with the numbers of its JSON in `JsonNumbers`: byte-exact encoders and decoders, the packed ERC-4337
  v0.7 operation, the CREATE2 preimage of EIP-1014, event logs, the line-based signing payload and the receipt
  verifier. `Layouts` says where each field stands in the bytes. Encodings follow the "Formal Specification of the
  Encoding" of the Solidity Contract ABI Specification.
* **Migrations.** `Schema` interprets the operations of the migrations, `Walks` chains of revisions and the commands
  that walk them, `Creations` and `Renames` the two families of migrations. `InitialTables`, `Tables` and `TableChecks`
  hold all thirteen migrations with their real tables, keys, foreign keys and indexes, `Migrations` and `Revisions`
  the results about them. `Names` gives every name a constant of its own.
* **Monitoring.** `Sla` and `Regression`: pairs of functions that must reach the same verdict.

Hash functions, signatures, base64 and JSON texts are parameters; hexadecimal text is written out in `Hex`. A hash is
only ever assumed to be collision-free, and a JSON text injective, on the finitely many values a statement names.
Reads, polls, crashes and the fate of each commit attempt are inputs, so the theorems range over all of them.

## Where the code and its comments disagree

* `contracts/contracts/BatchSettlementRegistry.sol:1217-1219` says the views under-report during a pause. They
  over-report: a running pause counts as elapsed time. `Windows.ViewOverReportsExactly` says exactly when, and
  `Replicas.PausedReadWitness` gives a run in which the countdown script prints "now" wrongly because of it.
* `alembic/versions/016_rename_ipfs_cid_to_content_cid.py:12-18` says indexes are recreated under the new name. The
  code only renames columns; indexes keep their names, which is what lets the initial migration drop them.
* The downgrade of 016 does its renames in the same order as the upgrade. It is still exact, because renames in
  different tables commute.
* The skip-if-sufficient mode of phase 1 keeps a covered pool covered only under the condition of
  `BenchSafety.SkipCoveredBefore`; `BenchSafety.SkipWitness` is a run where it does not.
* The verify phase (`scripts/per_stage_sepolia_bench.py:640-673`) adds up full batch values without taking off what was
  invalidated, so SHORT can be wrong; `BenchRunner.VerdictExactly` says exactly when, `BenchRunner.ShortWitness` where.
* The speed and memory thresholds of the regression detector can never be the reason for a report after a stored
  test run: a clean row replaces its own baseline first (`Regression.CleanRowsHideRegressions`).
* A newline in a signed field makes the signed bytes ambiguous, and the verifier does not look for one. From any valid
  receipt with a prompt hash and a stage chain a receipt without the chain can be made that is valid too
  (`Verifier.ForgeryPasses`); `Verifier.TamperEvidentExactly` says exactly when a valid receipt is one that was issued.
* The noise-trace check says it compares the sum of the stages with the total. A NaN anywhere in it, which the JSON
  reader accepts, makes the comparison false, so the trace passes (`Verifier.BalancesExactly`), and a total that is no
  number ends the verifier with an exception instead of a finding (`Verifier.CheckTrace`).

## Model

| member | source | states |
|---|---|---|
| Solvency.SlackRun | contracts/contracts/EscrowPool.sol:119-200 | over every run the escrow of a requester minus its pending claims changes by exactly its deposits and the values of its invalidated receipts (as far as their batch had an open claim) less its withdrawals and committed value; finalizing anything in any order never moves it |
| Solvency.SlackStep | contracts/contracts/BatchSettlementRegistry.sol:633-680 | the same law for one transaction, reverted ones included |
| Solvency.FinalizeExactly | contracts/contracts/BatchSettlementRegistry.sol:633-680 | finalize goes through if and only if the batch is ready and the shared balance holds its value; for a ready batch a short balance is the only reason to revert |
| Solvency.CoveredFinalizes | scripts/per_stage_sepolia_bench.py:447-457 | a pool that covers all pending claims never lets a ready batch revert |
| Solvency.AnyOrder | scripts/per_stage_sepolia_bench.py:579-602 | any listing of ready batches of one requester finalizes to its end if and only if their claims together fit its balance, so the order is irrelevant |
| Solvency.AllPayableIffCovered | scripts/per_stage_sepolia_bench.py:447-457 | all pending batches can be paid exactly when the pool is covered, batches committed elsewhere included |
| Solvency.ExactlyOnce | scripts/finalize_batch_base_sepolia.py:101-134 | over any run, with finalize repeated by anyone, a batch is settled at most once and the amount paid is its settled value |
| Solvency.SettledStep | contracts/contracts/BatchSettlementRegistry.sol:633-680 | one transaction: settled value grows by what it pays, and final stays final |
| Solvency.WalletRun | contracts/contracts/EscrowPool.sol:168-200 | a wallet moves over a run only by its own deposits, withdrawals and the payments of batches it provided |
| Solvency.WalletStep | contracts/contracts/EscrowPool.sol:119-200 | the same for one transaction |
| Solvency.WalletFromBatches | contracts/contracts/EscrowPool.sol:168-200 | a wallet whose owner moves no money itself grows over a run by exactly what is paid for the batches the owner provides |
| Ledger.RunFacts | contracts/contracts/EscrowPool.sol:119-200 | conservation over every run: wallets plus pool are constant, the pool backs the sum of all balances, and a committed batch only ever gains invalidated value and finality |
| Ledger.StepFacts | contracts/contracts/BatchSettlementRegistry.sol:468-760 | every transaction keeps accounts, clocks, supply and the immutable fields of every batch |
| Ledger.MoneyStep | contracts/contracts/EscrowPool.sol:119-200 | deposit, withdraw and settlement keep totalEscrowed equal to the tokens held and to the sum of the balances |
| Ledger.ClockStep | contracts/contracts/BatchSettlementRegistry.sol:1222-1254 | no transaction makes the unpaused age of a batch negative |
| Ledger.EvolveStep | contracts/contracts/BatchSettlementRegistry.sol:633-760 | the requester, provider, root, total and window of a batch never change; a final batch never changes at all |
| Ledger.BoundedBySupply | contracts/contracts/EscrowPool.sol:119-135 | no balance can exceed the token supply, so the checked additions cannot overflow |
| Chain.Contracts.Deposit | contracts/contracts/EscrowPool.sol:119-135 | the storage after the call is the transition system's, and it succeeds in the same cases |
| Chain.Contracts.Withdraw | contracts/contracts/EscrowPool.sol:143-158 | as above |
| Chain.Contracts.SettleFromRequester | contracts/contracts/EscrowPool.sol:168-200 | as above |
| Chain.Contracts.CommitBatch | contracts/contracts/BatchSettlementRegistry.sol:468-600 | as above, with the window, lookback and pause snapshots taken at commit |
| Chain.Contracts.FinalizeBatch | contracts/contracts/BatchSettlementRegistry.sol:633-680 | as above; the status set before a failing settlement is undone |
| Chain.Contracts.ChallengeReceipt | contracts/contracts/BatchSettlementRegistry.sol:703-800 | as above, for all five reason codes |
| Chain.Contracts.EvidenceHolds | contracts/contracts/BatchSettlementRegistry.sol:845-1050 | each reason-code handler proves exactly what its specification predicate says |
| Chain.Contracts.EffectiveElapsed | contracts/contracts/BatchSettlementRegistry.sol:1222-1232 | elapsed time less completed pauses, clamped at zero |
| Chain.Contracts.Pause | contracts/contracts/BatchSettlementRegistry.sol:1238-1248 | start of a pause |
| Chain.Contracts.Unpause | contracts/contracts/BatchSettlementRegistry.sol:1249-1254 | end of a pause: its length joins the total |
| Acceptance.DepositExactly | contracts/contracts/EscrowPool.sol:119-135 | a deposit goes through exactly on an open pool for a positive amount the wallet holds, and moves just that from the wallet to the balance |
| Acceptance.WithdrawExactly | contracts/contracts/EscrowPool.sol:143-158 | after any run every positive amount up to the balance can be withdrawn from an open pool, nothing else, and moves back to the wallet |
| Acceptance.CommitExactly | contracts/contracts/BatchSettlementRegistry.sol:468-500 | a commit goes through exactly on an unpaused registry with a requester, a nonzero root, receipts, a slash rate up to 10000 and a fresh id, and adds one pending batch |
| Acceptance.FinalizeConditions | contracts/contracts/BatchSettlementRegistry.sol:633-680 | after any run a finalize goes through exactly when the registry is unpaused, the batch pending, its unpaused age at least its window, and the open, configured pool holds what is left to pay |
| Acceptance.FinalizeEffect | contracts/contracts/BatchSettlementRegistry.sol:656-680 | it closes the batch and moves what is left from the balance of the requester to the wallet of the provider, and nothing else |
| Acceptance.SettingsExactly | contracts/contracts/BatchSettlementRegistry.sol:1061-1165 | windows from an hour to 30 days and lookbacks from a day to a year are accepted, no others; pool and verifier are set as given |
| Acceptance.PausesExactly | contracts/contracts/BatchSettlementRegistry.sol:1238-1254 | pausing and unpausing take turns, and each finished pause adds its length to the total |
| Acceptance.PoolPausesExactly | contracts/contracts/EscrowPool.sol:248-256 | the pool is paused and unpaused in turn |
| Challenges.SignatureChallengeExactly | contracts/contracts/BatchSettlementRegistry.sol:895-920 | at any time after the commit, a challengeable receipt is invalidated by a key and a signature if and only if the verifier was configured at the commit, both hash to the fields of the leaf, and the verifier rejects them over the message of the leaf |
| Challenges.NoEscrowChallengeExactly | contracts/contracts/BatchSettlementRegistry.sol:929-934 | by NO_ESCROW if and only if the caller is the requester named in the commit |
| Challenges.ExpiredChallengeExactly | contracts/contracts/BatchSettlementRegistry.sol:946-957 | by EXPIRED if and only if it is older than the lookback of the time of the commit |
| Challenges.DoubleSpendChallengeExactly | contracts/contracts/BatchSettlementRegistry.sol:845-877 | by DOUBLE_SPEND if and only if a batch committed strictly before has the same leaf provably |
| Challenges.ConsensusChallengeExactly | contracts/contracts/BatchSettlementRegistry.sol:1004-1050 | by CONSENSUS_MISMATCH if and only if a batch of another provider in the same nonzero group has, provably, a leaf of the same job and shard with another output |
| Challenges.MalformedNeverProves | contracts/contracts/BatchSettlementRegistry.sol:748-751 | the reserved reason never goes through |
| Challenges.ChallengeEffect | contracts/contracts/BatchSettlementRegistry.sol:703-757 | a challenge needs an open batch, a leaf not yet invalidated and a proof; it adds the leaf to the invalidated ones and its value to the batch, and changes nothing else |
| Challenges.CommitSnapshot | contracts/contracts/BatchSettlementRegistry.sol:500-540 | after any run a batch still has the parties, root, total and group of its commit and the window, lookback, pause total and pointers of that moment |
| Challenges.SignedReceiptStands | contracts/contracts/BatchSettlementRegistry.sol:895-920 | a receipt whose bound signature is accepted is not invalidated by INVALID_SIGNATURE at any step of any run, whatever the challenger brings |
| Challenges.HonestReceiptStands | contracts/contracts/BatchSettlementRegistry.sol:703-757 | over every run a receipt that is signed, young enough, not disowned by its requester, not outvoted and in no older batch stays valid; batches committed later cannot be used against it |
| Windows.WindowPromise | contracts/contracts/BatchSettlementRegistry.sol:1140-1232 | whatever anyone does after a commit, the batch keeps the window of its commit, finalizes only after that many unpaused seconds and can be challenged only before |
| Windows.ViewOverReportsExactly | contracts/contracts/BatchSettlementRegistry.sol:1187-1232 | isFinalizable says yes too early exactly while a pause is running whose counted part covers the missing seconds |
| Windows.ElapsedForever | contracts/contracts/BatchSettlementRegistry.sol:1222-1232 | a window that has truly elapsed never reopens |
| Windows.ViewsAgree | contracts/contracts/BatchSettlementRegistry.sol:1187-1210 | the two views never contradict each other, and unpaused the remaining time is exact |
| Windows.ElapsedIsTrue | contracts/contracts/BatchSettlementRegistry.sol:1222-1232 | what the contract computes is the unpaused age plus the pause in progress |
| Honest.HonestNeverUnderflows | contracts/contracts/BatchSettlementRegistry.sol:703-800 | over every run of challenges an honestly built batch is charged exactly for its own receipts, each once, so its payable value never underflows |
| Honest.ChallengedLeafIsListed | contracts/contracts/BatchSettlementRegistry.sol:703-800 | whoever gets a receipt of an honest batch invalidated has named a receipt that is in it |
| Honest.HonestCommit | contracts/contracts/BatchSettlementRegistry.sol:468-560 | a fresh honest commit starts with exact books |
| Honest.InvalidKnownRun | contracts/contracts/BatchSettlementRegistry.sol:703-800 | over every run only committed batches have invalidated receipts |
| Honest.HonestBatchPays | contracts/contracts/BatchSettlementRegistry.sol:468-800 | an honest batch committed after any history pays over any run, once final, exactly the values of its receipts that were not invalidated, one time, and nothing before |
| Honest.UnderstatedStaysStuck | contracts/contracts/BatchSettlementRegistry.sol:633-680 | a batch invalidated for more than its stated total can never be finalized again, by anyone, in any run |
| Honest.FirstCommitterWins | contracts/contracts/BatchSettlementRegistry.sol:845-890 | after a successful double-spend challenge the mirror-image challenge against the earlier batch reverts forever |
| Merkle.ProofVerifies | prsm/settlement/merkle.py:202-283 | the proof built for any position of any non-empty list verifies against its root |
| Merkle.InclusionSound | prsm/settlement/merkle.py:268-283 | with a collision-free hash no proof of 32-byte siblings verifies for an encoding outside the batch |
| Merkle.InclusionExact | prsm/settlement/merkle.py:202-283 | an encoding has a verifying proof if and only if it is in the batch |
| Merkle.FoldStaysInTree | prsm/settlement/merkle.py:191-222 | a fold that reaches a node of the tree started at one of its leaves |
| Merkle.SmallerFirst | prsm/settlement/merkle.py:191-199 | for nodes of one length the pair is hashed with the smaller big-endian number in front, as a root and as a proof step from either side |
| Merkle.LayerSmallerFirst | prsm/settlement/merkle.py:191-222 | so for every pair of every layer, and a lone last node goes up unchanged |
| Merkle.FoldSmallerFirst | prsm/settlement/merkle.py:268-283 | and for every step of every proof |
| Merkle.BuildMerkleRoot | prsm/settlement/merkle.py:202-222 | the layer loop computes the recursive root; an empty list raises |
| Merkle.BuildNextLayer | prsm/settlement/merkle.py:191-222 | one pass over a layer, a lone last node promoted |
| Merkle.BuildMerkleProof | prsm/settlement/merkle.py:225-265 | the sibling loop computes the recursive proof; an index out of range raises |
| Merkle.VerifyMerkleProof | prsm/settlement/merkle.py:268-283 | the fold loop decides equality with the root |
| Receipts.LeafLength | prsm/settlement/merkle.py:162-180 | every leaf encoding has the same length, above 64 bytes |
| Layouts.LeafBytes | prsm/settlement/merkle.py:162-180 | the 288 bytes of a valid leaf hold its nine fields at their positions |
| Receipts.LeafInjective | prsm/settlement/merkle.py:162-180 | valid leaves with the same encoding are equal |
| Bench.SolventForever | scripts/per_stage_sepolia_bench.py:447-490 | from a covered pool, any interleaving of additive phase 1 (partial commits and crashes included), top-ups, finalizes and foreign transactions that do not eat the cover leaves it covered and every ready batch payable |
| Bench.PlayKeepsSlack | scripts/per_stage_sepolia_bench.py:447-550 | over every interleaving only other people's transactions can lower the slack, by exactly their effect |
| Bench.BenchKeepsSlack | scripts/per_stage_sepolia_bench.py:402-724 | no command of the bench lowers any requester's slack unless it skipped the deposit |
| Bench.PlayIsRun | scripts/per_stage_sepolia_bench.py:402-724 | a play of commands is a run of its transactions, so every run theorem applies |
| BenchSafety.SkipCoveredExactly | scripts/per_stage_sepolia_bench.py:447-490 | the skip mode leaves the pool covered exactly when the claims already pending leave room for what the run commits |
| BenchSafety.SkipCoveredBefore | scripts/per_stage_sepolia_bench.py:447-490 | judged before the call: room for the old claims and the whole new total keeps the pool covered whatever happens to the commits, and for a run that succeeds nothing less does |
| BenchSafety.SkipWitness | scripts/per_stage_sepolia_bench.py:447-490 | a run where skipping leaves a covered pool short although the read was fresh and every step succeeded |
| BenchSafety.GuardHolds | scripts/per_stage_sepolia_bench.py:428-437 | once a phase-1 run recorded a share-batch, no later phase 1 sends anything and the state file never changes |
| BenchSafety.EmptyRecordLeavesGuardOpen | scripts/per_stage_sepolia_bench.py:525-549 | a run that recorded nothing leaves the guard as open as no file |
| BenchSafety.EachNodePaidItsShare | scripts/per_stage_sepolia_bench.py:579-602 | after a complete phase 1, over anything that follows, each recorded batch is final at most once and has paid its committer its share less invalidated value; all final and unchallenged, the payments sum to the total |
| BenchSafety.NodeGainsItsShare | scripts/per_stage_sepolia_bench.py:579-602 | the wallet of a node that provides no other batch and moves no money itself has grown by exactly its share less invalidated value once its batch is final |
| BenchSafety.Phase1Records | scripts/per_stage_sepolia_bench.py:525-549 | a complete phase 1 records every node once, with shares summing to the total, each true of the chain |
| BenchSafety.Phase2Succeeds | scripts/per_stage_sepolia_bench.py:552-602 | with every key, fresh reads, open windows and a covered pool phase 2 exits 0 and settles everything |
| BenchSafety.FinalizeAgain | scripts/per_stage_sepolia_bench.py:579-602 | repeating phase 2 on settled batches sends nothing and exits 0 |
| BenchExits.Phase2ExitsZeroExactly | scripts/per_stage_sepolia_bench.py:552-602 | phase 2 exits 0 if and only if there are records, every committer's key is supplied, and each record was read as FINALIZED or was sent with its window over, mined and then read as FINALIZED |
| BenchExits.FreshZeroMeansFinal | scripts/per_stage_sepolia_bench.py:579-602 | on fresh reads it exits 0 if and only if there are records, all keys are supplied and every recorded batch is FINALIZED on the chain left behind |
| BenchExits.OpenWindowExitsOne | prsm/settlement/e2e_proof.py:351-358 | on fresh reads one pending record with an open window makes it exit 1, and stays pending |
| BenchExits.ZeroMeansFinal | scripts/per_stage_sepolia_bench.py:579-602 | however stale the status reads, exit 0 means every recorded batch is FINALIZED |
| BenchExits.SettlesWhatItCan | scripts/per_stage_sepolia_bench.py:579-602 | a missing key, an unknown batch or an open window does not keep the other records from being settled |
| BenchExits.OnlyOwnBatches | scripts/per_stage_sepolia_bench.py:579-602 | nothing is sent but finalizes of recorded batches whose key is supplied |
| BenchExits.Phase1Codes | scripts/per_stage_sepolia_bench.py:412-441 | phase 1 exits 2 exactly for a requester among the nodes or no amount, and these, a recorded run and fewer than two nodes leave everything as it was |
| BenchExits.Phase1ExitsZeroExactly | scripts/per_stage_sepolia_bench.py:402-549 | phase 1 exits 0 if and only if nothing was recorded, the arguments can be assembled, the escrow was funded and every node's commit was mined and confirmed; the file then lists them node by node |
| BenchExits.SavedExactly | scripts/per_stage_sepolia_bench.py:513-549 | a funded run without exception saves exactly the confirmed commits, complete or not; an exception leaves the file as it was |
| BenchExits.TopUpCodes | scripts/per_stage_sepolia_bench.py:684-724 | the top-up exits 2 for no amount and 0 exactly when the deposit is mined and one of six reads shows it; it deposits and does nothing else |
| BenchRunner.Runner.RunPhase1 | scripts/per_stage_sepolia_bench.py:402-549 | the guard, deposit, polling, commit loop and state save have exactly the effect and exit code of the specification |
| BenchRunner.Runner.CommitShares | prsm/settlement/per_stage_commit.py:162-235 | the commit loop, with lost, unconfirmed and raising attempts |
| BenchRunner.Runner.CheckArguments | scripts/per_stage_sepolia_bench.py:417-441 | which check refuses a run before any transaction |
| BenchRunner.Runner.RunPhase2 | scripts/per_stage_sepolia_bench.py:552-602 | the finalize phase, effect and exit code |
| BenchRunner.Runner.FinalizeRecords | scripts/per_stage_sepolia_bench.py:579-602 | the finalize loop over the recorded batches |
| BenchRunner.Runner.DecideNow | prsm/settlement/e2e_proof.py:321-376 | the decision taken on a fresh read |
| BenchRunner.Runner.RunDepositTopup | scripts/per_stage_sepolia_bench.py:684-724 | the top-up command |
| BenchRunner.PollBalance | scripts/per_stage_sepolia_bench.py:470-490 | the balance poll succeeds exactly when one of the first six reads reached the target |
| BenchRunner.RunVerify | scripts/per_stage_sepolia_bench.py:640-673 | the verdict loop sums the values of the pending recorded batches |
| BenchRunner.VerdictExactly | scripts/per_stage_sepolia_bench.py:640-680 | the true claims are the known ones less their invalidated parts plus those of batches outside the bench; when SUFFICIENT and when SHORT are wrong, exactly; without invalidated receipts SHORT is always right |
| BenchRunner.ShortWitness | scripts/per_stage_sepolia_bench.py:648-672 | a state where SHORT is wrong: half of the one recorded batch was invalidated and the balance covers the rest |
| Shares.ComputePerStageShares | prsm/settlement/per_stage_settlement_split.py:149-199 | rejects a bad total or no nodes, else an equal split that conserves every wei |
| Shares.EqualSharesSplit | prsm/settlement/per_stage_settlement_split.py:149-199 | shares sum to the total, differ by at most one wei and never increase |
| Shares.ComputeExpectedPayouts | scripts/per_stage_sepolia_bench.py:286-296 | the dictionary filled in order; it raises exactly when overwritten shares break the total |
| Shares.PayoutTotal | scripts/per_stage_sepolia_bench.py:286-296 | the map sums to the total less the overwritten shares |
| Shares.PayoutConservesIff | scripts/per_stage_sepolia_bench.py:225-232 | with positive shares the map sums to the total exactly when the addresses are distinct |
| Replicas.ResolveFinalizableEta | scripts/settlement_sepolia_e2e.py:75-131 | the polling loop: at most max(1, retries) attempts, "now" and the countdown only from a read that said so, all earlier attempts invisible |
| Replicas.LoopNow | scripts/settlement_sepolia_e2e.py:75-131 | when every read comes from some prefix of the run, the answer "now" rests on one stale view and is right about the chain as it is now exactly when the batch is final or the seconds truly elapsed at the read plus the unpaused ones since reach the window; only a view inside a pause can be wrong |
| Replicas.LoopCountdown | scripts/settlement_sepolia_e2e.py:75-131 | a countdown of the loop is the remainder at some stale view whose window was really open |
| Replicas.NowExactly | contracts/contracts/BatchSettlementRegistry.sol:1187-1232 | the same for one finalizable view behind any prefix of the run |
| Replicas.NowIsSound | contracts/contracts/BatchSettlementRegistry.sol:1187-1232 | a finalizable view outside a pause stays right forever; inside a pause it is wrong at that state exactly when the running pause covers the missing seconds |
| Replicas.CountdownIsSound | scripts/settlement_sepolia_e2e.py:75-131 | a countdown is printed only from a state whose window was really open |
| Replicas.UnseenIsInvisible | scripts/settlement_sepolia_e2e.py:75-131 | a batch no replica has seen never yields "now" or a countdown |
| Replicas.SeenIsVisible | scripts/settlement_sepolia_e2e.py:75-131 | a pending batch both replicas have seen is polled again exactly when the first still has the window open and the second has it over |
| Replicas.PausedReadWitness | contracts/contracts/BatchSettlementRegistry.sol:1187-1232 | the run where "now" is wrong: paused with the window open, read later, taken back by the unpause |
| Replicas.FinalizeScript | scripts/finalize_batch_base_sepolia.py:101-169 | on stale views of two replicas: a FINALIZED batch exits 0 and sends nothing; it sends exactly when the batch reads pending and finalizable, without --check, for its provider; 2 exactly without a key; else 0 exactly for --check on a known batch; after sending 0 only on a seen final status |
| Replicas.ScriptPaysSigner | scripts/finalize_batch_base_sepolia.py:101-134 | however stale the two views, a successful submission pays the unpaid value to the signer |
| Replicas.StaleFinalIsFinal | scripts/finalize_batch_base_sepolia.py:109-111 | a stale FINALIZED is FINALIZED now |
| Anchor.Client.Lookup | prsm/security/publisher_key_anchor/client.py:260-337 | a live cache entry answers, negative ones too; otherwise the retried chain read does and is cached |
| Anchor.Client.Invalidate | prsm/security/publisher_key_anchor/client.py:339-348 | removes exactly the one entry |
| Anchor.FreshReadExactly | prsm/security/publisher_key_anchor/client.py:291-332 | by the first answer within the attempts: no bytes mean not registered, 32 are the key, any other length raises, as does no answer |
| Anchor.ApplyExactly | contracts/contracts/PublisherKeyAnchor.sol:85-116 | a transaction changes one node only: a 32-byte key is registered where none is, or overridden where one is |
| Anchor.FreshAnchorLookup | scripts/sprint_675_register_operator_pubkey.py:51-71 | the loop's result depends on the chain reads only, whatever the cache held |
| Anchor.StaleAnchorLookup | scripts/sprint_675_register_operator_pubkey.py:51-71 | the same loop without invalidation returns the cached miss |
| Anchor.FreshIsSound | scripts/sprint_675_register_operator_pubkey.py:51-71 | a key returned was registered, the node is registered now, and without an admin override it is the current key |
| Anchor.FreshExactly | scripts/sprint_675_register_operator_pubkey.py:51-71 | the loop ends with a key, or with an error, exactly when its first round that is not a miss does; it ends with a miss exactly when all rounds are misses |
| Anchor.FreshIsComplete | scripts/sprint_675_register_operator_pubkey.py:219-239 | once a round reaches a replica that has seen the registration and the earlier ones were misses, the key registered there is returned |
| Anchor.WriteOnce | contracts/contracts/PublisherKeyAnchor.sol:85-101 | without an override a registered key stays |
| Abi.ExecuteRoundTrip | scripts/sprint_867_paymaster_live_exec.py:102-124 | a standard ABI decoder recovers target, value and inner bytes; encoding fails exactly on numbers of 2^256 and above |
| Abi.ExecuteLength | scripts/sprint_867_paymaster_live_exec.py:102-124 | the calldata is 4 bytes plus whole words |
| Abi.AddressUintRoundTrip | scripts/sprint_867_paymaster_live_exec.py:84-99 | approve and createAccount calldata decode back, 68 bytes each |
| Abi.GetSenderRoundTrip | scripts/sprint_867_paymaster_live_exec.py:140-148 | the initCode is recovered from the getSenderAddress call |
| Abi.ApproveInExecute | scripts/sprint_867_paymaster_live_exec.py:93-124 | decoding composes: target, value, spender and amount come back out of the nested calldata |
| Abi.CreateAccountInInitCode | scripts/sprint_867_paymaster_live_exec.py:84-148 | decoding composes through the initCode wrapper |
| Abi.StringRoundTrip | scripts/foundation-safe-health-check.py:176-181 | the string decoder recovers any ABI-encoded string |
| Abi.OwnersRoundTrip | scripts/foundation-safe-health-check.py:196-202 | the owners decoder recovers any ABI-encoded address array |
| Layouts.StaticCallBytes | scripts/sprint_867_paymaster_live_exec.py:84-99 | approve and createAccount calldata: selector, zeros, address and number at their positions |
| Layouts.ExecuteBytes | scripts/sprint_867_paymaster_live_exec.py:102-124 | execute calldata by position: selector, target, value, offset 96, length, inner bytes, then only zeros up to a whole word |
| Layouts.GetSenderBytes | scripts/sprint_867_paymaster_live_exec.py:140-148 | the same for the initCode call: offset 32, length, factory and data, zeros |
| Layouts.StringReading | scripts/foundation-safe-health-check.py:176-181 | on any bytes, the string decoder takes as many behind the first two words as the second says and there are |
| Layouts.OwnersExactly | scripts/foundation-safe-health-check.py:196-202 | on any bytes, the owners are the last 20 bytes of each word behind the first two, as many as the second says, or the decoder raises because one is missing |
| Layouts.PackedBytes | scripts/sprint_867_paymaster_live_exec.py:270-312 | the 256 packed bytes hold each field at the position the EntryPoint hashes it |
| Layouts.OuterBytes | scripts/sprint_867_paymaster_live_exec.py:315-326 | what is hashed last: hash of the packing, entry point, chain id, in 96 bytes |
| Layouts.Create2Bytes | scripts/generate_safe_deploy_payload.py:90-100 | 0xff, factory, salt and initcode hash in the preimage; bytecode, zeros and admin in the initcode |
| UserOps.PackedLength | scripts/sprint_867_paymaster_live_exec.py:270-312 | packing fails exactly on a nonce or preVerificationGas outside 256 bits and otherwise yields 256 bytes |
| UserOps.PackInjective | scripts/sprint_867_paymaster_live_exec.py:270-312 | two operations pack alike if and only if they agree on everything, gas numbers modulo 2^128 |
| UserOps.GasWordHalves | scripts/sprint_867_paymaster_live_exec.py:294-299 | the gas word is the two masked numbers side by side, for all integers |
| UserOps.WordBounds | scripts/sprint_867_paymaster_live_exec.py:294-299 | the mask is the remainder modulo 2^128, and a 32-byte word holds exactly the numbers below 2^256 |
| UserOps.UserOpHashBinds | scripts/sprint_867_paymaster_live_exec.py:315-326 | with gas below 2^128 the hash pins down the operation, the entry point and the chain |
| UserOps.PaymasterAndDataParts | scripts/sprint_867_paymaster_live_exec.py:482-491 | the four parts come back at the offsets the EntryPoint reads |
| UserOps.Create2Binds | scripts/generate_safe_deploy_payload.py:95-100 | the CREATE2 preimage determines factory, salt, bytecode and constructor argument |
| Words.NatOfBig | scripts/sprint_867_paymaster_live_exec.py:71-77 | reading a big-endian number back gives the number |
| Words.BigOfNat | scripts/foundation-safe-health-check.py:170-171 | and writing a byte string read as a number gives the bytes |
| Words.BigHalves | scripts/sprint_867_paymaster_live_exec.py:294-299 | a shifted-and-or'ed word is the concatenation of its halves |
| Payload.PayloadUnambiguous | scripts/verify_prsm_receipt.py:82-145 | newline-free contents have equal payloads if and only if they agree on all twelve fields and on the presence and value of every section |
| Payload.NewlineCollides | scripts/verify_prsm_receipt.py:95-108 | any content with a newline in one of the twelve fields shares its payload with a different one |
| Payload.SectionsSpliced | scripts/verify_prsm_receipt.py:128-145 | a newline in the prompt hash can hide the stage chain section: the bytes are the same |
| Payload.PinnedExactly | scripts/verify_prsm_receipt.py:82-145 | among all contents the payload pins one down exactly when it has no section and no newline in a field |
| Payload.AppendOnly | scripts/verify_prsm_receipt.py:109-145 | a section behind every present one only appends to the bytes signed before it existed |
| Payload.JoinInjective | scripts/verify_prsm_receipt.py:145 | newline-free lines are recovered from their join |
| Verifier.BuildSigningPayload | scripts/verify_prsm_receipt.py:82-145 | the appending code builds the payload: without newlines in the fields, lines 0 to 11 are the twelve fields in the order named, and from line 12 on come exactly the sections present with their tags |
| Verifier.PayloadLines | scripts/verify_prsm_receipt.py:94-145 | the same of the specified payload, read with an independent line reader |
| Verifier.PositionsSorted | scripts/verify_prsm_receipt.py:75-77 | the positions are hashed by stage and slot, stably |
| Verifier.ProofsSorted | scripts/verify_prsm_receipt.py:131-134 | the proofs are hashed by stage index, stably |
| Verifier.SamePayloadIff | scripts/verify_prsm_receipt.py:82-145 | two receipts have the same signed bytes if and only if they agree on everything signed |
| Verifier.TopologyDigest | scripts/verify_prsm_receipt.py:71-79 | equal digests exactly for lists that agree place by place; with distinct places, exactly for permutations |
| Verifier.ChainSection | scripts/verify_prsm_receipt.py:131-144 | the chain section pins the request id and, with distinct stage indices, exactly the set of proofs |
| Verifier.Verify | scripts/verify_prsm_receipt.py:252-351 | valid exactly when all checks hold; every finding in order, the key and the envelope reported; raises exactly when, past the key lookup, the signature text is malformed or the trace raises |
| Verifier.FindingsExactly | scripts/verify_prsm_receipt.py:266-345 | each finding by name: exactly when it is reported |
| Verifier.CheckTrace | scripts/verify_prsm_receipt.py:228-249 | raises exactly when the stages are numbers and the total is none; clean exactly when both are numbers whose difference does not exceed 1e-6; which finding otherwise |
| Verifier.BalancesExactly | scripts/verify_prsm_receipt.py:239-249 | what passes: finite numbers adding up to the total within 1e-6, and every trace whose difference is not a number (a NaN, infinities of both signs, or an infinite total that the sum reaches) |
| JsonNumbers.SumExactly | scripts/verify_prsm_receipt.py:242 | a sum is not a number, infinite or finite by what is in the list, in whatever order; finite it is the sum of the values |
| Verifier.EnvelopeRoundTrip | scripts/verify_prsm_receipt.py:208-225 | whatever the JSON codec, an envelope encoded by the settler (prefix, JSON, hexadecimal) is decoded to itself, and bytes with another prefix are not accepted |
| Hex.HexRoundTrip | scripts/verify_prsm_receipt.py:216 | every byte string comes back from its hexadecimal text |
| Hex.NibbleExactly | scripts/verify_prsm_receipt.py:216 | the sixteen digits in either case and nothing else |
| Verifier.TamperEvidentExactly | scripts/verify_prsm_receipt.py:252-351 | every receipt called valid has the signed bytes of an issued one, and agrees with one on everything signed if and only if no field copied into the payload holds a newline |
| Verifier.ForgeryPasses | scripts/verify_prsm_receipt.py:128-145 | the newline condition is not checked: from every valid receipt with prompt hash and stage chain a different one without the chain is made that is still valid under the same signature |
| Canonical.SameSortIff | scripts/verify_prsm_receipt.py:71-79 | two lists sort alike if and only if key by key they hold the same entries in the same order |
| Canonical.PermutationInvariant | scripts/verify_prsm_receipt.py:131-144 | with distinct keys, exactly permutations sort alike |
| Canonical.SortFacts | scripts/verify_prsm_receipt.py:71-79 | the sort orders by key and is stable |
| Canonical.EqualKeysMatter | scripts/verify_prsm_receipt.py:131-144 | two different entries under one key: swapping them changes the canonical form |
| Events.DecodeRoyaltyPaid | scripts/exercise_canonical_workflow_base_sepolia.py:549-602 | returns the first log that matches, None exactly if none does, and raises exactly when a malformed log of the contract comes first |
| Events.RoyaltyReadingExactly | scripts/exercise_canonical_workflow_base_sepolia.py:549-602 | what one log says by topics and byte ranges, and when it raises |
| Events.TransferReadingExactly | scripts/exercise_canonical_workflow_base_sepolia.py:605-640 | the same for transfers |
| Events.RoyaltyRoundTrip | scripts/exercise_canonical_workflow_base_sepolia.py:549-602 | the reading of an emitted log is the emitted event |
| Events.DecodeTransfers | scripts/exercise_canonical_workflow_base_sepolia.py:605-640 | the loop collects the readings of all logs in order |
| Events.TransfersRecovered | scripts/exercise_canonical_workflow_base_sepolia.py:605-640 | however transfers and foreign logs interleave, exactly the transfers come back, in order |
| Events.CollectRaisedIff | scripts/exercise_canonical_workflow_base_sepolia.py:605-640 | the decoder raises exactly when some log of the token is malformed |
| Schema.UndoExact | alembic/versions/014_add_federation_distillation_tables.py:26-153 | the inverse of create table, create index, add column or rename column is legal right after it and restores the schema exactly |
| Schema.StaysWellFormed | alembic/versions/8377a6cba565_initial_migration_create_all_prsm_tables.py:188-206 | every accepted operation leaves no dangling key, foreign key or index |
| Schema.TablesAfter | alembic/versions/8377a6cba565_initial_migration_create_all_prsm_tables.py:23-40 | which tables exist behind an operation |
| Schema.ColumnsAfter | alembic/versions/016_rename_ipfs_cid_to_content_cid.py:34-53 | which columns each table has behind an operation, for every table and name |
| Schema.IndexesAfter | alembic/versions/8377a6cba565_initial_migration_create_all_prsm_tables.py:188-206 | which indexes exist behind an operation |
| Schema.RenameCarriesIndexes | alembic/versions/016_rename_ipfs_cid_to_content_cid.py:34-53 | a rename keeps every index under its name and table, listing the new column name |
| Schema.RenamesCommute | alembic/versions/016_rename_ipfs_cid_to_content_cid.py:34-53 | renames in two tables may be done in either order, foreign keys between them included |
| Walks.UndoProgramExact | alembic/versions/014_add_federation_distillation_tables.py:26-153 | the reversed inverse of any upgrade that ran is accepted at every step and restores the schema |
| Walks.WalkStaysOnChain | scripts/migrate.py:38-78 | for any chain of reversible migrations whose whole upgrade succeeds: after every sequence of upgrades, rollbacks and resets the schema is a function of the revision alone |
| Walks.CommandStaysOnChain | scripts/migrate.py:38-78 | on such a chain each command moves to the revision it names; only a bad rollback count is refused |
| Walks.SameRevisionSameSchema | scripts/migrate.py:38-78 | on such a chain two histories that end at one revision end with one schema, and a reset restores the base |
| Walks.FirstUpgradeDecides | scripts/migrate.py:38-42 | the first upgrade succeeds exactly when every revision exists |
| Walks.Database.RunOps | alembic/versions/014_add_federation_distillation_tables.py:26-153 | the op calls in order, stopping at the first refused one |
| Walks.Database.Migrate | scripts/migrate.py:38-42 | upgrade to head: all of it or nothing |
| Walks.Database.Down | scripts/migrate.py:44-48 | downgrade to a revision: all of it or nothing |
| Walks.Database.RollbackBy | scripts/migrate.py:44-48 | rollback by a count |
| Walks.Database.ResetAll | scripts/migrate.py:68-78 | reset to the base, if confirmed |
| Creations.MirrorReversible | alembic/versions/011_add_bittorrent_tables.py:26-81 | a downgrade that names the tables and indexes of its upgrade in the opposite order undoes it |
| Creations.CreationExactly | alembic/versions/014_add_federation_distillation_tables.py:26-110 | a creating program runs on exactly the schemas without its names and adds just what it builds from nothing |
| Creations.CoherentExactly | alembic/versions/014_add_federation_distillation_tables.py:26-110 | the same, decided by a static check of the list of tables |
| Creations.StagesExactly | alembic/versions/8377a6cba565_initial_migration_create_all_prsm_tables.py:23-538 | for a migration made of checked stretches: where it runs, what it adds, and that its downgrade takes just that away |
| Creations.StagesReversible | alembic/versions/8377a6cba565_initial_migration_create_all_prsm_tables.py:450-538 | a migration made of checked stretches is reversible |
| Creations.StagesCoherent | alembic/versions/8377a6cba565_initial_migration_create_all_prsm_tables.py:188-206 | stretches whose foreign keys point at most back make one coherent list |
| Renames.UndoneInOrder | alembic/versions/016_rename_ipfs_cid_to_content_cid.py:45-53 | renames in different tables are undone by the opposite renames in the same order |
| Renames.RenamesRunIff | alembic/versions/016_rename_ipfs_cid_to_content_cid.py:34-43 | they run exactly where each could run alone |
| Renames.RenamesKeepIndexes | alembic/versions/016_rename_ipfs_cid_to_content_cid.py:34-53 | every index keeps its name and table through all of them |
| Migrations.ExactlyInitial | alembic/versions/8377a6cba565_initial_migration_create_all_prsm_tables.py:23-538 | the initial migration runs exactly where its names are free, adds its 19 tables with their foreign keys and indexes, and its downgrade removes just them |
| Migrations.Exactly011 | alembic/versions/011_add_bittorrent_tables.py:26-81 | 011 runs exactly where its names are free, adds its two tables, and its downgrade removes just them |
| Migrations.Exactly013 | alembic/versions/013_add_improvement_tables.py:26-77 | the same for 013 |
| Migrations.Exactly014 | alembic/versions/014_add_federation_distillation_tables.py:26-153 | the same for 014 and its five tables |
| Migrations.Exactly015 | alembic/versions/015_add_provenance_hash_column.py:34-56 | 015 runs exactly where the table exists without the column, and is reversible |
| Migrations.Exactly016 | alembic/versions/016_rename_ipfs_cid_to_content_cid.py:34-53 | 016 runs exactly where all three columns can be renamed, is reversible although its downgrade does not run backwards, and leaves every index droppable by its old name |
| Revisions.AllStagesSound | alembic/versions/8377a6cba565_initial_migration_create_all_prsm_tables.py:23-538 | the 41 tables of the creating revisions pass every check: downgrades mirror upgrades, names are distinct, every key, foreign key and index speaks of existing columns |
| Revisions.ChainReversible | alembic/versions/016_rename_ipfs_cid_to_content_cid.py:45-53 | every downgrade of the chain undoes its upgrade wherever the upgrade ran |
| Revisions.ChainRunsExactly | scripts/migrate.py:38-42 | the thirteen upgrades go through on exactly the schemas that have none of the names the chain creates |
| Revisions.EveryWalk | scripts/migrate.py:38-78 | from an empty database every sequence of upgrades, rollbacks and resets of the thirteen revisions leaves the schema of the current revision, refuses nothing but a bad rollback count, and a reset empties the database |
| Revisions.ThirteenRevisions | scripts/migrate.py:38-42 | the fifteen stretches and the last two migrations are the thirteen revisions of the repository |
| Revisions.ChainWalks | scripts/migrate.py:38-78 | the same from every schema that has none of the names |
| Revisions.UpgradeExactly | scripts/migrate.py:38-42 | the first upgrade succeeds exactly on schemas without the names of the chain and changes nothing on others |
| Revisions.EveryDowngradeStep | alembic/versions/8377a6cba565_initial_migration_create_all_prsm_tables.py:450-538 | after any walk every single operation of the next downgrade is legal in its turn, down to the last index and table of the initial migration after the renames of 016 were undone |
| Sla.SlaVerdictsAgree | scripts/establish_performance_baselines.py:678-751 | some metric's maximum is over its threshold exactly when some measurement is |
| Sla.Establish | scripts/establish_performance_baselines.py:678-751 | a PASS is compliant, and compliance is exactly that no metric fails its SLA check |
| Sla.ValidateAgainstBaseline | scripts/establish_performance_baselines.py:678-722 | which metrics are validated; each check compares its own percentile with its own target and the SLA check every value; PASS exactly when all of them hold, an issue exactly for each metric where one fails |
| Sla.Group | scripts/establish_performance_baselines.py:686-692 | the grouping loop holds each metric's values in order |
| Sla.CheckSlaCompliance | scripts/establish_performance_baselines.py:724-751 | the violations in order, and a percentage between 0 and 100 that is 100 exactly when compliant |
| Sla.ViolationsExactly | scripts/establish_performance_baselines.py:736-746 | the violations are the measurements above the threshold of their metric |
| Regression.ReportedIff | scripts/performance_monitoring_dashboard.py:324-401 | a stored newest row is worse than its baseline exactly when it is not clean and an earlier clean row exists; a clean row is its own baseline |
| Regression.Monitor.RunAndCompare | scripts/performance_monitoring_dashboard.py:239-243 | store, then compare: reported exactly then, and always with a success-rate or gap regression |
| Regression.Monitor.DetectRegression | scripts/performance_monitoring_dashboard.py:324-401 | the list names exactly a lower success rate, more gaps, a speed more than 10 percent down and memory more than 20 percent up, against a positive baseline |
| Regression.Monitor.GetBaseline | scripts/performance_monitoring_dashboard.py:148-168 | a row of the branch with rate 1 and no gaps, as new as any such row, or none if there is none |
| Regression.CleanRowsHideRegressions | scripts/performance_monitoring_dashboard.py:324-401 | in any database a clean row is never reported, however far its speed or memory falls behind the baseline that stood before it was stored |

## Left out

- Stake slashing, its forensic events and `StakeBond`: they move no escrow money.
- `setFtnsToken`, a change of the escrow pool address to a different pool, ownership checks and reentrancy guards.
- uint64 and uint128 narrowing of timestamps and amounts; amounts are bounded by the supply (`Ledger.BoundedBySupply`).
- The batch id is an argument of the commit; its derivation by hashing is not modelled.
- The requester's EIP-712 payment authorization and its verification before the commit loop.
- Transaction gas, nonces, and reorganisations of the chain.
- Column types, defaults, comments, uniqueness of indexes and cascade rules of foreign keys; tables and indexes have separate name spaces.
- Rows of data: a migration acts on the schema only. A failed command is rolled back as one transaction, as `alembic/env.py` sets it up on a database with transactional DDL.
- A rollback count below one is treated as refused.
- Names of tables, columns and indexes are numbered constants rather than strings; `Names` gives every identifier of the migrations a number of its own.
- Text encodings: strings are sequences of characters, decoded strings are bytes; checksum case of addresses and the optional 0x prefix are not modelled.
- Formatting of floating-point fields in receipts: they are held as formatted text. Sums and thresholds are over the reals, with NaN and the infinities in `JsonNumbers` and without rounding or overflow.
- Missing keys in a receipt dictionary and the base64 text of the report.
- The percentile formulas: any functions of the values.
- Rows of one timestamp in the performance database: any of them may be the baseline.
- The system health dashboard. Its status and its alerts are two functions, and the alerts take a memory sample of their own, so the two can disagree; nothing is stated about it.
- The retry loop and anomaly counter of the Safe health check: the calls it repeats are reads without effect on anything modelled.
- Migrations are modelled as lists of operations; the alter blocks for SQLite, which copy the table, are the column operations they stand for.
- Argument parsing, environment reading, HTTP and RPC transport, JWT building and printing.
