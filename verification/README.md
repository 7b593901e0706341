# LSSA: chain state, privacy circuit, peer acceptance and client choice in Dafny

This project models the parts of the LSSA rollup in which a mistake would be a consensus or
custody fault, and proves what those parts are for. It has four cores, and one result that joins
them: an applied privacy-preserving transaction settles a circuit run on the ledger (`Spending.dfy`).

- **Two-tier chain state.** A node keeps a reorg-able head over an irreversible final tier and is
  fed adopted, produced, orphaned, finalized and restored blocks. `Chain.dfy` defines every event on
  a value that holds block lists only, with each ledger state *defined* as a replay from scratch.
  `ChainState.dfy` is the node's class, which caches those states and updates them in place; every
  method is proved to reach exactly the value the definition gives. `ChainRuns.dfy` lifts that to
  runs. The theorems about runs (`ChainEvents`, `ChainAgreement`, `ChainViews`, `ChainRestart`) are
  about the value. `LedgerEffects.dfy` says what blocks write, `ChainOutcomes.dfy` exactly when each
  event applies, parks or is taken for a re-delivery.
- **Privacy circuit.** `Execution.dfy` defines what one program output does to the execution state,
  `CallTree.dfy` the worklist over chained calls and, independently of it, recursive execution of a
  call tree. `ExecutionState.dfy` and `CircuitOutput.dfy` are the circuit's imperative code.
  `ExecutionInvariants`, `Threading`, `Provenance`, `Bindings`, `Derivation`, `Ownership` and
  `CircuitSoundness` prove what acceptance guarantees, from one account of one call up to the revealed
  output. `Admission.dfy` and `Acceptance.dfy` say exactly what is accepted, of the call tree alone.
- **Peer acceptance and the startup check.** `PeerAcceptance.dfy` folds block streams through the
  acceptance policy; `PeerReaders.dfy` is the watcher's pass and the verifier's cache in place;
  `ReaderAgreement.dfy` compares readers of one channel that each read parts of it again.
  `Consistency.dfy` folds a channel through the anchor check.
- **Transactions and client statistics.** `Validation.dfy` validates privacy-preserving transactions,
  `Transaction.dfy` follows system accounts over runs of guarded ones. `Statistics.dfy` and
  `Leaders.dfy` cover the wallet's incremental mean and variance and its choice of sequencers.

## Conventions

- What lies outside the model is a parameter, never an axiom: program execution, bytecode loading,
  signatures, proof verification, hashes, commitment roots, key derivations, encapsulation and
  encryption are function fields of the records `Runtime`, `Verifier`, `Ledger`, `Crypto` and
  `Sealing`. A theorem holds for all of them unless it names a hypothesis, and collision hypotheses
  cover only the values at hand.
- A panic, a failed assertion or an error return is a value (`None`, an error, `Panics`), so
  acceptance is stated in both directions.
- 32-byte values are natural numbers read big-endian, so array order is number order. Balances are
  below 2^128 and the two-word balance sum is modelled with its overflow. Block ids, nonces and slots
  are unbounded naturals.
- Floats are reals together with not-a-number.

## Where the code does not do what it says

- `lez/chain_state/src/apply.rs:53-54` describes `AlreadyApplied` as a re-delivery without a state
  change. A finalized delivery can first finalize a held prefix and then report `AlreadyApplied`.
  `AlreadyAppliedChangesIff` says for which deliveries, `AlreadyAppliedCanFinalize` gives an example.
- `lez/chain_state/src/consistency.rs:43-44` counts a block at the anchor's id past the anchor slot
  as re-inscribed. The code refuses lower ids there and a different block at the anchor's id, but takes
  the anchor block itself for the same chain (`ResetVerdicts`, `ReinscribedAnchorPasses`).
- `lez/cross_zone/src/acceptance.rs:3-6` says that the watcher and the verifier cannot disagree about
  which block holds an id. They agree on what each is served in the same order
  (`VerifierAgreesWithWatcher`), but a reader that ends a pass early reads the slot again, and a block
  that came too early the first time is then taken ahead of its competitor (`RetryPartsReaders`,
  `RetryExample`). A reader accepts what reading once accepts exactly when nothing it reads again
  follows its run at that moment (`RetriesHarmlessIff`), and readers with such histories agree
  (`ReadersAgree`). No readers whatever can disagree about an id exactly when the channel does not fork
  (`NoConflictIff`).
- The common validity window of a transaction is refused when it is empty, except for the window that
  has no start and ends at zero (`CommonWindowExact`, `EmptyWindowPasses`).
- On an empty sample, a batch of failures makes the latency average not-a-number for good, so
  splitting updates into batches matters exactly then (`BatchesMatterIff`, `FailedFirstBatchRuins`).
- Choosing among several clients of the same height panics exactly when one of them has neither
  errors nor samples (`ChooseLeaders`, `UnmeasuredClientPanics`). This and the empty sample come only
  from a statistics file that holds such an entry: calibration never hands out an empty sample, and a
  table that starts without one never gets one (`SampledNeverPanics`).

## What holds under a condition

- The guards of `lez/common/src/transaction.rs:78-83` read public diff entries, while applying a diff
  also bumps the nonces of signers and installs deployed programs. System accounts are safe because
  no key and no bytecode hashes to a system id; `RestrictedAccountUnchangedIff` gives the exact
  condition and `SystemAccountsAreSafe` the promise.
- A restarted node names held blocks by hash. `RestartShowsIff` and `RunsAlikeIff` say exactly when it
  behaves like the node it replaces; `ReusedMessageIdShowsRestart` shows two nodes parting.
- Given the same block, the verifier's cache and the watcher part only if it continues the run and
  collides with the stray block held at its id (`CacheFollowsWatcherIff`).
- That a proof of an output exists is taken to mean that the circuit produces the output
  (`SoundProofs`) in `Settles` and nowhere else.
- The output order is canonical exactly when no two actions share a nullifier with different roots or
  notes (`CanonicalOrderIff`); an accepted transaction meets that (`RevealedIsCanonical`).

## Model

| member | source | states |
|---|---|---|
| LedgerState.V03State.ApplyStateDiff | lee/state_machine/src/state/mod.rs:207-232 | the in-place loops write the public entries, then count signatures into nonces, then install the program, and record commitments and nullifiers, so that the ledger is the old one with the diff written |
| LedgerState.ApplyDiffIff | lee/state_machine/src/state/mod.rs:207-232 | a ledger is the result of a diff exactly if, account by account, a deployed id holds the storage account with its bytecode, any other account is its entry or as it was with one nonce step per signature, no other account appears, the new commitments follow the old ones, and a nullifier is spent exactly if it was or is new |
| LedgerState.BumpNoncesEffect | lee/state_machine/src/state/mod.rs:207-232 | the signature loop moves only nonces, each by the number of times the account signed |
| Validation.VerifiedIff | lee/state_machine/src/validated_state_diff/mod.rs:350-461 | a privacy-preserving transaction is valid exactly if it has private actions, repeats no account, nullifier or commitment, is signed with the current nonces, lies in its windows, is proven for the ledger's public accounts, spends unspent nullifiers under known roots and adds new commitments; it then asks for exactly what its message says |
| Transactions.ComputedDiffIff | lez/common/src/transaction.rs:106-140 | the diff of each kind of transaction: only privacy-preserving ones spend and commit, only deployments install a program, where none is, and signers are the accounts of the keys |
| Transactions.ValidatedIff | lez/common/src/transaction.rs:78-104 | a computed diff passes the guards exactly if it leaves the clock and faucet accounts and at most lets a public transaction raise the bridge balance; otherwise the error is that of the first guard that fails |
| Transactions.FirstModified | lez/common/src/transaction.rs:267-283 | none is reported exactly when no listed account is changed by a public entry; a reported one is the first that is |
| Transactions.ExecuteCheckOnState | lez/common/src/transaction.rs:142-158 | a transaction that passes the guards has its diff applied, a refused one changes nothing and returns the guard's error |
| Transactions.ExecuteOnState | lez/common/src/transaction.rs:160-171 | the same without guards |
| GuardedRuns.DiffEffect | lee/state_machine/src/state/mod.rs:207-232 | what a computed diff does to one account: deployment turns a non-storage account into a storage account, otherwise the written or old account with its nonce raised by its signatures |
| GuardedRuns.RestrictedAccountOverRun | lez/common/src/transaction.rs:84-104 | over any guarded run a clock or faucet account is taken over by a deployment or keeps every field but a nonce that counts its signatures |
| GuardedRuns.RestrictedAccountUnchangedIff | lez/common/src/transaction.rs:84-104 | such an account is unchanged over a run exactly when no submission signs with a key whose account it is or deploys bytecode whose id it is |
| GuardedRuns.SystemAccountsAreSafe | lez/common/src/transaction.rs:78-104 | over any run of accepted transactions, if no key used and no bytecode deployed hashes to a system id, clock and faucet accounts never change and the bridge account changes only by gaining balance |
| GuardedRuns.ExecuteGuarded | lez/common/src/transaction.rs:142-158 | executing submissions in place and passing over refused ones leaves exactly the ledger of the accepted ones, each validated on what its predecessors left, and keeps system accounts, bar a rising bridge balance, if no submission derives a system id |
| GuardedRuns.BridgeAccountOverRun | lez/common/src/transaction.rs:173-205 | over any guarded run the bridge account keeps owner and data, its balance never falls, and it stays equal exactly when nothing writes the account |
| GuardedRuns.BridgeWritersArePublic | lez/common/src/transaction.rs:173-205 | whatever writes the bridge account in a run is a public transaction that strictly raises its balance at that point |
| GuardedRuns.GuardedRunReplays | lez/common/src/transaction.rs:142-171 | unguarded replay of an accepted run applies the same diffs |
| Applying.ValidateAgainstTip | lez/chain_state/src/apply.rs:82-122 | no error exactly when the block carries its own hash, has the next id and names the tip as parent |
| Applying.ApplyBlockToState | lez/chain_state/src/apply.rs:125-172 | the transaction loop leaves the ledger and error of the recursive definition, including the partial ledger on an error |
| Applying.ApplyBlockInPlace | lez/chain_state/src/apply.rs:69-79 | validation first, then application, with the same ledger and error |
| Applying.BlockAppliesIff | lez/chain_state/src/apply.rs:69-172 | a block applies with a given result exactly when it continues the tip, ends in its clock invocation, and a trace of single transaction steps leads there |
| Applying.FailureIndexIsFirst | lez/chain_state/src/apply.rs:125-172 | the reported index is that of the first failing transaction, and the ledger is what the earlier ones made it |
| Applying.StopsAt | lez/chain_state/src/apply.rs:125-172 | nothing runs after the first failure |
| LedgerEffects.ExtendIff | lez/chain_state/src/apply.rs:69-172 | a block applies exactly if it is the next one, ends in its clock invocation and every transaction computes a diff on what the earlier ones left, and the ledger is then the old one with these diffs applied |
| LedgerEffects.RefusedIff | lez/chain_state/src/apply.rs:69-172 | each error is reported exactly when its condition on block, tip and ledger holds, and then the block does not apply |
| LedgerEffects.DiffsWrote | lee/state_machine/src/state/mod.rs:207-232 | diffs applied in order spend exactly their nullifiers besides the old ones, append their commitments, leave a program deployed last at an account there, and leave accounts none of them mentions |
| LedgerEffects.BlockWrote | lez/chain_state/src/apply.rs:125-172 | after a block a nullifier is spent exactly if it was or a valid privacy-preserving transaction of the block spends it, and everything else is what the diffs wrote |
| LedgerEffects.ReplayWrote | lez/chain_state/src/chain.rs:300-309 | after a replay a nullifier is spent exactly if it was or one of the blocks spends it, and commitments only get successors |
| LedgerEffects.FinalLedgerOnlyGrows | lez/chain_state/src/chain.rs:21-35 | over every run the spent nullifiers and commitments of the final ledger only grow, and the head ledger has all of them |
| Spending.SpentOnce | lee/state_machine/src/state/mod.rs:371-386 | over any history a nullifier is spent by at most one block, and by none if it was spent before |
| Spending.OnceInBlock | lee/state_machine/src/validated_state_diff/mod.rs:377-387 | within a block a nullifier is spent, and a commitment added, by at most one transaction, and not if it was there before |
| Spending.ReplayKeepsCommittedOnce | lee/state_machine/src/state/mod.rs:359-369 | no commitment is ever added twice |
| Spending.MessageAppliesOnce | lee/state_machine/src/validated_state_diff/mod.rs:350-461 | no privacy-preserving message is applied twice in any history, even if signed anew |
| Spending.OnceOverRuns | lez/chain_state/src/chain.rs:21-35 | all of this over every run of events, of the whole chain a node then holds |
| Spending.Settles | lee/state_machine/src/validated_state_diff/mod.rs:526-555 | if only what the circuit produces can be proven, an applied privacy-preserving transaction settles a circuit run: ledger balances before plus spent private balances are ledger balances after plus sealed ones, every update is opened against a root the ledger has had, and every program run allows the block |
| Spending.PublicAccountsAreTheLedgers | lee/state_machine/src/validated_state_diff/mod.rs:420-443 | the public accounts of a settled run were found as the ledger has them, and authorized exactly if they signed |
| Spending.PublicAccountNeedsSignature | lee/state_machine/src/validated_state_diff/mod.rs:420-443 | a public account that any call of a settled run presents as authorized signed the transaction, or a seed given to that call, or to an ancestor that reads it, derives it |
| Chains.ReplayLinks | lez/chain_state/src/apply.rs:82-122 | whatever replays is self-hashed, hash-linked and numbered consecutively from the tip |
| Chains.ReplayTip | lez/chain_state/src/chain.rs:300-309 | the tip reached by a replay is that of the last block |
| Chains.HeadIdsContiguous | lez/chain_state/src/chain.rs:21-35 | in a well-formed chain the head ids count up from the final tip or genesis, and the head tip is the last held block or the final tip |
| Chains.HeadPosition | lez/chain_state/src/chain.rs:97-102 | the first held entry of the same height with the same message id or hash, or none if there is none |
| Chains.ReorgParent | lez/chain_state/src/chain.rs:132-145 | a reorg to a height cuts the head after exactly the lower entries, and these replay to the tip of the last of them |
| Chains.EarliestOrphan | lez/chain_state/src/chain.rs:195-198 | the least position any orphan names, or none exactly if no orphan is held |
| Chains.FinalizePrefixKeepsHead | lez/chain_state/src/chain.rs:250-258 | finalizing a held prefix keeps both tiers replayable and the head where it was |
| Chains.AdoptWellFormed | lez/chain_state/src/chain.rs:111-162 | adoption keeps both tiers replayable, and the new head is the replayed parent extended by the block |
| Chains.FinalizeBlockWellFormed | lez/chain_state/src/chain.rs:225-247 | a finalized delivery keeps both tiers replayable |
| Chains.RestoreWellFormed | lez/chain_state/src/chain.rs:215-220 | a successful restore extends the head by the block and leaves the final tier |
| ChainStates.ReorgPosition | lez/chain_state/src/chain.rs:136-139 | the first entry at or above the height, with everything before it below |
| ChainStates.ReorgKeepsBelow | lez/chain_state/src/chain.rs:136-152 | cutting there keeps exactly the entries below the competitor |
| ChainStates.ChainState.FromFinal | lez/chain_state/src/chain.rs:46-54 | a valid state whose head mirrors the given final tier |
| ChainStates.ChainState.HeadTip | lez/chain_state/src/chain.rs:76-81 | the tip of the replayed head |
| ChainStates.ChainState.ReplayHeadPrefix | lez/chain_state/src/chain.rs:300-309 | replaying a held prefix cannot fail and gives the replayed point |
| ChainStates.ChainState.RederiveHead | lez/chain_state/src/chain.rs:295-297 | restores the head cache from the final tier and the held blocks |
| ChainStates.ChainState.ApplyAdopted | lez/chain_state/src/chain.rs:111-162 | in place, the adoption the value-level definition prescribes, outcome included, with the caches still those of a replay |
| ChainStates.ChainState.ApplyProduced | lez/chain_state/src/chain.rs:170-178 | the same for a produced block |
| ChainStates.ChainState.RevertOrphaned | lez/chain_state/src/chain.rs:181-186 | the same for an orphan |
| ChainStates.ChainState.ApplyChannelUpdate | lez/chain_state/src/chain.rs:190-207 | the same for a batch: one truncation, then the adoptions in order with aligned outcomes |
| ChainStates.ChainState.RestoreHeadBlock | lez/chain_state/src/chain.rs:215-220 | on success the restored value and valid caches; on an error the block lists are kept and the head state is what the failed application left |
| ChainStates.ChainState.ApplyFinalized | lez/chain_state/src/chain.rs:225-247 | the same for a finalized delivery |
| ChainStates.ChainState.FinalizeThrough | lez/chain_state/src/chain.rs:250-258 | draining a held prefix cannot fail, finalizes exactly that prefix and clears the stall |
| ChainStates.ChainState.ApplyFinalizedDirect | lez/chain_state/src/chain.rs:262-292 | the same for a direct application, rebasing the head or recording the stall |
| ChainRuns.Handle | lez/chain_state/src/chain.rs:111-292 | one event in place equals one step of the value-level machine |
| ChainRuns.HandleAll | lez/chain_state/src/chain.rs:21-35 | after every run the cached head state and tip are those of the final tier replayed through the held blocks, whose ids count up from the final tip |
| ChainEvents.AdoptReorgsExactly | lez/chain_state/src/chain.rs:104-162 | an applied adoption makes the head the entries below the block followed by the block, on which it chains; any other outcome changes nothing |
| ChainOutcomes.AdoptOutcomeIff | lez/chain_state/src/chain.rs:104-162 | an adopted block is taken for a re-delivery exactly if a held entry of its height has its message id or hash or it is at or below the final tip, applies exactly if otherwise it applies to the held blocks below it, and parks with an error exactly if it is refused there for that reason |
| ChainOutcomes.ProduceOutcomeIff | lez/chain_state/src/chain.rs:164-178 | a produced block is stale exactly at or below the head tip, applies exactly if it applies to the head, and parks with the reason for which the head refuses it |
| ChainOutcomes.RestoreIff | lez/chain_state/src/chain.rs:215-220 | a block is restored exactly if it applies to the head, under its hash as message id |
| ChainOutcomes.RevertDropsExactly | lez/chain_state/src/chain.rs:181-207 | a revert keeps the longest beginning of the head none of whose entries an orphan names |
| ChainOutcomes.UpdateIsEvents | lez/chain_state/src/chain.rs:188-207 | a channel update is its orphan events followed by its adoption events, outcome for outcome |
| ChainOutcomes.FinalizeHeld | lez/chain_state/src/chain.rs:231-235 | a finalized block that is held is moved, with everything held before it, into the final tier, which clears the stall |
| ChainOutcomes.FinalizeUnheldIff | lez/chain_state/src/chain.rs:237-292 | one that is not held finalizes the held blocks up to its parent; on these it is a re-delivery exactly if the final tip is past it or is it, applies exactly if it applies, and parks with the reason for which it is refused; with the whole chain it leaves |
| ChainEvents.ProduceNeverDrops | lez/chain_state/src/chain.rs:164-178 | a produced block never drops a held one and on success is appended |
| ChainEvents.RevertAllIsSequential | lez/chain_state/src/chain.rs:188-207 | one truncation at the earliest orphan equals reverting the orphans one at a time |
| ChainEvents.RevertOrderIrrelevant | lez/chain_state/src/chain.rs:188-207 | order, repetitions and unknown orphans make no difference |
| ChainEvents.FinalizeDirectExact | lez/chain_state/src/chain.rs:262-292 | a direct application finalizes the block and rebases the head on it, or changes nothing but the stall |
| ChainEvents.FinalizeExact | lez/chain_state/src/chain.rs:225-292 | a finalized delivery moves the held blocks up to the first one it names, or else up to the first that is its parent, across the boundary; a held block is then done, and otherwise either the head point stays as it was, whatever is reported, or the block is appended and the head rebased |
| ChainEvents.FinalityIsAppendOnly | lez/chain_state/src/chain.rs:21-27 | over every run the finalized history only grows at its end |
| ChainEvents.StepFinality | lez/chain_state/src/chain.rs:104-292 | one event appends to the finalized history, and only finalized deliveries touch it or the stall |
| ChainEvents.StallHistory | lez/chain_state/src/chain.rs:311-317 | after every run the stall is the first failure since the final tier last grew, with the saturating count of the later ones, and absent without one |
| ChainEvents.AlreadyAppliedChangesIff | lez/chain_state/src/chain.rs:231-271 | exactly which finalized deliveries are reported as already applied although they change the chain: the unheld ones whose parent is held and whose height the parent has reached |
| ChainRestart.AlreadyAppliedCanFinalize | lez/chain_state/src/chain.rs:237-271 | a re-delivery reported as already applied that finalizes two held blocks |
| ChainAgreement.ContentsAgree | lez/common/src/block.rs:84-92 | two replayed histories from one base with the same tip have the same hashed contents, if none of their blocks collide |
| ChainAgreement.StatesAgree | lez/chain_state/src/apply.rs:125-172 | equal hashed contents replay to equal ledgers: nothing outside the hash matters |
| ChainAgreement.Agreement | lez/chain_state/src/chain.rs:111-309 | any two runs from one starting point that end at the same head tip hold the same contents at every height and the same head state, whatever each saw on the way |
| ChainAgreement.AgreedFinality | lez/chain_state/src/chain.rs:225-292 | with equal head tips the shorter finalized history is a prefix of the longer one |
| ChainRestart.RestoreRebuildsHead | lez/chain_state/src/chain.rs:209-220 | restoring held blocks in order on the stored final tier succeeds and rebuilds the head |
| ChainViews.AdoptAlikeIff | lez/chain_state/src/chain.rs:97-162 | two nodes with the same tiers adopt a message with the same outcome exactly when, at its height, an entry with another hash carries its message id on both or on neither; then the tiers stay the same |
| ChainViews.OrphanAlikeIff | lez/chain_state/src/chain.rs:181-186 | they revert an orphan to the same tiers under exactly that condition |
| ChainViews.FinalizeAlikeIff | lez/chain_state/src/chain.rs:225-292 | they finalize a delivery with the same outcome and tiers under exactly that condition |
| ChainViews.StepAlikeIff | lez/chain_state/src/chain.rs:97-292 | the condition for every event, produced and restored ones always alike; necessary as well for every event but a batch that both reverts and adopts |
| ChainViews.RunsAlikeIff | lez/chain_state/src/chain.rs:97-292 | two nodes answer alike and keep the same tiers throughout a run exactly when every event meets its condition at the moment it is delivered |
| ChainViews.UpdateSplits | lez/chain_state/src/chain.rs:190-207 | a batch that reverts and adopts is a revert followed by a batch of adoptions |
| ChainRestart.RestartShowsIff | lez/chain_state/src/chain.rs:93-102 | exactly which messages a node and its restarted copy take differently: those for which a held block of the same height with another hash is held under the message id or hashes to it, but not both |
| ChainRestart.RestartIsTransparent | lez/sequencer/core/src/lib.rs:230-243 | the rebuilt node shows the same tiers, and every later run gives the same outcomes and tiers at every point, if at each height a message id carries one block hash |
| ChainRestart.ReusedMessageIdShowsRestart | lez/chain_state/src/chain.rs:93-102 | with a reused message id the running node ignores a block the restarted one adopts |
| PeerAcceptance.NextIffFollows | lez/cross_zone/src/acceptance.rs:206-234 | a block links to the tip of a run exactly when it has the next id and, above genesis, the tip as parent |
| PeerAcceptance.ScreenedIff | lez/cross_zone/src/acceptance.rs:236-256 | a block passes exactly if it carries the hash of its contents and, with a key configured, a signature of it valid under the key; otherwise the refusal names the hash first, then the key |
| PeerAcceptance.LinkExact | lez/cross_zone/src/acceptance.rs:206-234 | every answer to a block exactly: next, seen and whether it equivocates, skipping ahead, not linking, not the genesis |
| PeerReaders.PlaceBlock | lez/sequencer/core/src/cross_zone_watcher.rs:335-408 | one block is placed on the run, passed over, seen before, or fails to be recorded, exactly as the policy folds it; a placed one is self-hashed and signed by the configured key |
| PeerReaders.ConsumePeerStream | lez/sequencer/core/src/cross_zone_watcher.rs:288-430 | a pass resumed from a stored tip and cursor handles the messages up to the first one that does not decode or cannot be recorded, delivers exactly what folding everything read in all passes adds, all of it self-hashed and signed by the configured key, ends at that run's tip, holds the cursor before the failing slot, and reports why it ended |
| PeerReaders.NothingIsLost | lez/sequencer/core/src/cross_zone_watcher.rs:285-315 | in a slot-ordered stream a message lies at or below the cursor a pass leaves exactly if the pass drained or the message is of an earlier slot than the one it stopped in, so the next pass is served every unhandled message and no slot read whole |
| PeerReaders.PassedOrFailing | lez/sequencer/core/src/cross_zone_watcher.rs:335-408 | a block ends the pass exactly if it is authentic, follows the run and cannot be recorded, and is read past exactly if it is not authentic or neither follows the run nor lies within it |
| PeerAcceptance.AcceptedIsLinkedRun | lez/cross_zone/src/acceptance.rs:206-256 | from any stream the accepted blocks are blocks of the stream, self-hashed, signed by the configured key, hash-linked and numbered from genesis without gaps |
| PeerAcceptance.FirstDifferenceIsEquivocation | lez/cross_zone/src/acceptance.rs:182-256 | where the contents of two readers' runs first differ the peer produced two screened blocks with different contents, one id and, above genesis, one parent, and with different hashes unless the two collide |
| PeerAcceptance.SameTipSameRun | lez/cross_zone/src/acceptance.rs:206-256 | readers at the same tip accepted the same contents, if no accepted blocks collide |
| PeerAcceptance.HonestRunIsAccepted | lez/sequencer/core/src/cross_zone_watcher.rs:329-335 | if copies of the peer's blocks, however signed, can be read off the stream in order and nothing with other contents competes with them, the accepted run begins with the whole chain, whatever else is inscribed |
| PeerAcceptance.CacheFollowsWatcherIff | lez/indexer/core/src/cross_zone_verifier.rs:174-249 | the verifier's cache takes the same step as the watcher exactly unless the held stray block hashes like a block that continues the run; and which stray block it then holds |
| PeerAcceptance.VerifierAgreesWithWatcher | lez/indexer/core/src/cross_zone_verifier.rs:174-249 | served the same blocks in the same order, without colliding ones, cache and watcher verify the same run |
| ReaderAgreement.NothingNewIff | lez/cross_zone/src/acceptance.rs:206-256 | reading more blocks after a stream accepts nothing new exactly when no screened one of them follows the run |
| ReaderAgreement.RetriesHarmlessIff | lez/sequencer/core/src/cross_zone_watcher.rs:281-315 | a reader that reads parts of a channel again has, after every step, accepted what reading that far once accepts, exactly when nothing it reads again follows its run at that moment |
| ReaderAgreement.ReadersAgree | lez/cross_zone/src/acceptance.rs:1-6 | of two readers of a channel with such histories of their own, the one that got less far accepted a beginning of what the other did, the same if they got equally far, and a cache holds its reader's run if no blocks of the channel collide |
| ReaderAgreement.NoConflictIff | lez/cross_zone/src/acceptance.rs:1-6 | no two readers of a channel, whatever each is served and however often, disagree about the contents at an id exactly when no two blocks of the channel with different contents follow one linked run of its blocks |
| ReaderAgreement.RetryPartsReaders | lez/sequencer/core/src/cross_zone_watcher.rs:374-405 | for any two blocks competing for the third place: served the first block, one of them early, the second block and the other, a reader that reads once accepts the other, while one that could not record it reads the slot again and accepts the early one |
| ReaderAgreement.RetryExample | lez/cross_zone/src/acceptance.rs:1-6 | such a channel, without colliding blocks |
| PeerReaders.PeerChain.ExtendPrefix | lez/indexer/core/src/cross_zone_verifier.rs:110-124 | the walk extends the run by the cached next block exactly if it follows, and stops |
| PeerReaders.PeerChain.Insert | lez/indexer/core/src/cross_zone_verifier.rs:174-249 | caching in place equals the value-level insertion, and the result says whether anything changed |
| PeerReaders.PeerChain.Resolve | lez/indexer/core/src/cross_zone_verifier.rs:273-290 | a lookup answers from the verified run only: its block, inside the run but absent, or behind |
| PeerReaders.CachePeerStream | lez/indexer/core/src/cross_zone_verifier.rs:678-736 | a pass of the verifier's reader stops at the first inscription that does not decode; after any number of passes the cache is that of everything this reader was served and, without colliding blocks, its verified run is what the acceptance policy folds from that |
| Consistency.AnchorConsistencyCheck.CheckFrontier | lez/chain_state/src/consistency.rs:191-198 | a standing verdict stays; otherwise the channel is refused exactly when it is missing or ends before the anchor slot, saying which |
| Consistency.AnchorConsistencyCheck.Observe | lez/chain_state/src/consistency.rs:200-213 | a standing verdict stays; otherwise the message gives consistent exactly if it shows the anchor, inconsistent exactly if it contradicts it, saying how, and inconclusive exactly if it is past it |
| Consistency.VerifyChainConsistency | lez/chain_state/src/consistency.rs:252-300 | the driver stops at the first verdict and returns that of the whole scan, inconclusive without one, and never scans for an anchor at slot zero |
| Consistency.VerdictIsFinal | lez/chain_state/src/consistency.rs:191-226 | a verdict, once reached, never changes |
| Consistency.FirstDecisiveMessage | lez/chain_state/src/consistency.rs:119-165 | the first message that is not passed over decides |
| Consistency.SameChainNeverInconsistent | lez/chain_state/src/consistency.rs:119-226 | while the anchor inscription stands at its slot with only lower ids ahead of it there, no prefix of any slot-ordered stream is refused, and reading the anchor gives consistent |
| Consistency.ResetVerdicts | lez/chain_state/src/consistency.rs:119-165 | a channel that serves only later slots is judged by its first block: refused exactly if it has a lower id or is another block at the anchor's id, undecided exactly if its id is higher, and consistent exactly if it is the anchor block |
| Consistency.ReinscribedAnchorPasses | lez/chain_state/src/consistency.rs:43-49 | a channel that re-inscribes the anchor block first, at a later slot, is taken for the same chain |
| Consistency.FrontierRefuses | lez/chain_state/src/consistency.rs:306-315 | a missing channel or one that ends before the anchor slot is refused whatever it serves |
| Programs.WindowIsIntersection | lee/privacy_preserving_circuit/src/execution_state.rs:80-107 | the latest start and earliest end describe the intersection of the windows |
| Programs.CommonWindowExact | lee/state_machine/core/src/program/mod.rs:395-433 | an accepted common window is exactly the intersection; it is refused exactly when that is empty, bar the window that ends at zero without a start |
| Programs.EmptyWindowPasses | lee/state_machine/core/src/program/mod.rs:395-433 | the window that ends at zero without a start holds nothing and is accepted |
| Programs.FromBalances | lee/state_machine/core/src/program/mod.rs:585-598 | the two-word sum is the exact total, refused exactly when it needs a third word |
| Programs.WrappedSumsEqualIff | lee/state_machine/core/src/program/mod.rs:574-598 | two-word sums are equal exactly when the totals are |
| Programs.DistinctIffSetSize | lee/state_machine/core/src/program/mod.rs:813-822 | ids are distinct exactly when collecting them into a set loses none |
| Programs.FirstAccountFault | lee/state_machine/core/src/program/mod.rs:738-788 | no fault exactly when no account breaks a per-account rule; a reported one is that of the first account that does |
| Programs.AccountFaultExact | lee/state_machine/core/src/program/mod.rs:738-788 | an account passes exactly if nonce and owner stay, its balance falls and its data changes only in the hands of its owner or from the default account, and it is the default account if it has no owner; a fault is the first of these rules broken |
| Programs.WellBehavedIff | lee/state_machine/core/src/program/mod.rs:714-811 | no fault exactly if ids are distinct, every account has a post state, the program behaves on each, and the totals are equal and fit two words |
| Programs.ValidateExecution | lee/state_machine/core/src/program/mod.rs:714-811 | the checks in order give the verdict defined by distinct ids, equal lengths, the first account fault and equal totals, and none exactly for well-behaved executions |
| Execution.MatchPublic | lee/privacy_preserving_circuit/src/execution_state.rs:583-599 | a found seed is the first of the caller's that derives the account publicly; none is found exactly when none does |
| Execution.MatchPrivate | lee/privacy_preserving_circuit/src/execution_state.rs:601-618 | the same for private derivation under the supplied keys |
| ExecutionInvariants.SyncOneKeepsInvariant | lee/privacy_preserving_circuit/src/execution_state.rs:276-493 | syncing one account keeps ids distinct and equal to the known accounts, global authorizations journaled and all bindings sound, and only appends to the journal |
| ExecutionInvariants.AdmitJournals | lee/privacy_preserving_circuit/src/execution_state.rs:321-409 | a new account is journaled once, at the end, masked as unauthorized only when a caller seed granted it publicly |
| Admission.AuthorizationIff | lee/privacy_preserving_circuit/src/execution_state.rs:659-704 | the check passes exactly if the account is presented as authorized exactly when a seed grants it, it is authorized for good or the caller had it, and the granting seed contradicts no binding; exactly that binding is then recorded |
| Admission.AdmitIff | lee/privacy_preserving_circuit/src/execution_state.rs:276-409 | an account is admitted exactly if it is as last left, its authority is right, a binding its witness names derives it, and no binding contradicts the record; and what is then journaled and recorded |
| Admission.ClaimIff | lee/privacy_preserving_circuit/src/execution_state.rs:411-485 | a claim is honoured exactly on an account without an owner, public ones only if authorized or derived by the claimed seed, private ones as they are or by a seed that derives them from their keys, and without contradicting a binding |
| Admission.HandleIff | lee/privacy_preserving_circuit/src/execution_state.rs:266-498 | a call may leave an account as it says exactly if admission and claim are allowed together, and what is then on record |
| ExecutionStates.ExecutionState.AssertFamilyBinding | lee/privacy_preserving_circuit/src/execution_state.rs:542-561 | records the binding or refuses a second account for it |
| ExecutionStates.ExecutionState.BindPrivatePdaPosition | lee/privacy_preserving_circuit/src/execution_state.rs:563-579 | records the binding or refuses a second one for the position |
| ExecutionStates.ExecutionState.AssertAuthorizationAndRecordBindings | lee/privacy_preserving_circuit/src/execution_state.rs:659-704 | in place, the value-level authorization check and its bindings |
| ExecutionStates.ExecutionState.AuthorizeFirstSight | lee/privacy_preserving_circuit/src/execution_state.rs:625-657 | the same for a first sight without a PDA witness, saying whether the entry is masked |
| ExecutionStates.ExecutionState.SeeFirst | lee/privacy_preserving_circuit/src/execution_state.rs:321-409 | the same for a whole first sight |
| ExecutionStates.ExecutionState.HonourClaim | lee/privacy_preserving_circuit/src/execution_state.rs:411-485 | the same for a claim |
| ExecutionStates.ExecutionState.ValidateAndSyncStates | lee/privacy_preserving_circuit/src/execution_state.rs:266-498 | the loop over account pairs reaches the value-level state and returns what the call presented as authorized plus what it inherited |
| ExecutionStates.PushCalls | lee/privacy_preserving_circuit/src/execution_state.rs:203-212 | pushing in reverse to the front puts the made calls, in order, before the pending ones |
| ExecutionStates.RunCalls | lee/privacy_preserving_circuit/src/execution_state.rs:124-221 | the queue loop accepts exactly what the recursive worklist does, with its state |
| ExecutionStates.DeriveFromOutputs | lee/privacy_preserving_circuit/src/execution_state.rs:61-260 | the whole derivation accepts exactly what is specified, with that state and those windows |
| CallTrees.WorklistIsRecursion | lee/privacy_preserving_circuit/src/execution_state.rs:124-221 | an output list is accepted with a result exactly when it is the preorder of a call tree of at most eleven calls with matching programs, data and callers whose recursive execution gives that result |
| CallTrees.WorklistFindsTree | lee/privacy_preserving_circuit/src/execution_state.rs:140-221 | from any stack, what the worklist accepts is a tree executed recursively |
| CallTrees.TreeRunsOnWorklist | lee/privacy_preserving_circuit/src/execution_state.rs:140-221 | from any stack, every matching tree within the limit runs on the worklist with the same result |
| CallTrees.TreeIsUnique | lee/privacy_preserving_circuit/src/execution_state.rs:140-221 | no output list can be read as two different call trees |
| CallTrees.InheritedIsFromAncestors | lee/privacy_preserving_circuit/src/execution_state.rs:203-212 | what a call inherits is exactly the union of what its ancestors presented as authorized, never a sibling's, and its caller is its parent |
| CallTrees.WorklistVisitsTree | lee/privacy_preserving_circuit/src/execution_state.rs:140-216 | the worklist pops the calls of the tree in preorder with the caller data the recursion gives them |
| Acceptance.HistoryRunsIff | lee/privacy_preserving_circuit/src/execution_state.rs:266-498 | a sequence of handled accounts goes through exactly if each is in order given those before it: found as last left, authorized as it must be, claimed as allowed, with bindings that agree; the execution state is then exactly what the sequence amounts to |
| Acceptance.ExecuteIsHandle | lee/privacy_preserving_circuit/src/execution_state.rs:124-221 | executing a call tree is handling the accounts of its calls in preorder |
| Acceptance.DerivedIff | lee/privacy_preserving_circuit/src/execution_state.rs:61-260 | the derivation accepts exactly the outputs of a call tree of at most eleven proven, well-behaved calls as made, with windows that are not refused, that handles its accounts in order, binds every private program-derived account and leaves no account without an owner changed but unclaimed |
| Acceptance.CircuitAcceptsIff | lee/privacy_preserving_circuit/src/main.rs:7-24 | the circuit accepts exactly that, if moreover there are as many identities as accounts and every private account passes its checks, all said of the call tree and the witnesses |
| Threading.WorkAccounts | lee/privacy_preserving_circuit/src/execution_state.rs:182-201 | over a whole worklist run every account is found as last left, the journal is the first states, and no value is gained |
| Provenance.AuthorizationProvenance | lee/privacy_preserving_circuit/src/execution_state.rs:275-409 | an account a call of an executed tree reads is presented as authorized exactly when it is journaled as authorized and no private PDA, or a seed given to that call, or to an ancestor that reads it, derives it |
| Bindings.OneAccountPerSeed | lee/privacy_preserving_circuit/src/execution_state.rs:542-561 | across all calls of a run, a program and seed used by a grant, a claim or a witness resolve to one account |
| Bindings.BoundPositionsInjective | lee/privacy_preserving_circuit/src/execution_state.rs:563-579 | no two positions share a binding |
| Derivation.AcceptedHasOneTree | lee/privacy_preserving_circuit/src/execution_state.rs:124-221 | an accepted output list is the preorder of exactly one call tree |
| Derivation.AcceptedAuthority | lee/privacy_preserving_circuit/src/execution_state.rs:275-409 | every call of an accepted transaction inherits from its ancestors only, and an account it reads is presented as authorized exactly when it is journaled as authorized and no private PDA, or a seed given to that call, or to an ancestor that reads it, derives it |
| Derivation.AcceptedThreading | lee/privacy_preserving_circuit/src/execution_state.rs:276-319 | exit pairs are each account as first found and last left, lookups cannot fail, and the total balance is conserved over the whole tree |
| Derivation.AcceptedBindings | lee/privacy_preserving_circuit/src/execution_state.rs:223-236 | every private PDA is bound, a bound position re-derives its account from its keys, and bindings are one-to-one |
| Ownership.AcceptedTouches | lee/state_machine/core/src/program/mod.rs:738-788 | every call of an accepted transaction is proven and well behaved, and each touch keeps the nonce, lowers a balance or changes the data of a used account only as its owner, and changes an owner only by claiming the default account |
| Ownership.OwnersGovern | lee/privacy_preserving_circuit/src/execution_state.rs:238-257 | over a whole accepted transaction nonces stay, a used account keeps its owner and loses balance or changes data only if its owner ran and touched it, an account changes owner exactly by a claim of the default account and then belongs to the claimer, and an account without an owner is the default account and ends unchanged or claimed |
| Ownership.AcceptedCallsAreAsMade | lee/privacy_preserving_circuit/src/execution_state.rs:140-212 | every call of the tree is the top-level call or one its parent asked for, and its output a proven run of that program on that instruction for that caller |
| Ownership.AcceptedWindows | lee/privacy_preserving_circuit/src/execution_state.rs:80-107 | the revealed windows contain a height or time exactly if those of all outputs do |
| Ordering.ObfuscateOrdering | lee/privacy_preserving_circuit/src/output.rs:167-182 | actions sorted by nullifier, rejoined with the separately sorted commitments |
| Ordering.ObfuscationPreserves | lee/privacy_preserving_circuit/src/output.rs:167-182 | commitments are permuted, every nullifier keeps its root and note, and both lists come out sorted |
| Ordering.CanonicalOrderIff | lee/privacy_preserving_circuit/src/output.rs:167-182 | every order of the actions, sorted in any way, gives one sequence exactly when no two share a nullifier with different roots or notes |
| CircuitOutputs.IntoParts | lee/privacy_preserving_circuit/src/execution_state.rs:508-532 | every removal finds its account, so the parts are the exit pairs |
| CircuitOutputs.ComputeCircuitOutput | lee/privacy_preserving_circuit/src/output.rs:13-165 | accepts exactly when every account has an identity and every private one passes its written-out checks: id from its keys, authorized exactly with a key that derives the nullifier key, a binding if program-derived, and the default account if new; reveals the public pairs, the sealed and padding actions in their final order, and the windows |
| CircuitOutputs.SealableIff | lee/privacy_preserving_circuit/src/output.rs:30-127 | the same checks as a condition on the execution state |
| CircuitOutputs.RunCircuit | lee/privacy_preserving_circuit/src/main.rs:7-24 | the circuit as a whole accepts exactly what derivation and sealing accept, and reveals their output |
| CircuitSoundness.KindRederivesId | lee/privacy_preserving_circuit/src/output.rs:129-141 | the kind sealed into every private note re-derives the account id from the account's keys |
| CircuitSoundness.PrivateAccountIsRevealed | lee/privacy_preserving_circuit/src/output.rs:93-165 | each private account is revealed under its nullifier and root, new ones under the given root and updated ones under the root their old commitment opens, with the note and commitment of exactly its new state and next nonce |
| CircuitSoundness.DummyIsRevealed | lee/privacy_preserving_circuit/src/output.rs:184-205 | padding is revealed as given, under the hashes of its seeds |
| CircuitSoundness.RevealedExactly | lee/privacy_preserving_circuit/src/output.rs:34-50 | nothing else is revealed: public accounts in order as first found and last left, and one private action per private account and padding input |
| CircuitSoundness.NewAccountsAreEmpty | lee/privacy_preserving_circuit/src/output.rs:93-102 | a private account that brings no commitment was found as the default account |
| CircuitSoundness.OwnerRecoversAccount | lez/wallet/src/lib.rs:1044-1088 | the holder of the viewing key finds, under the spent nullifier, a note from which the wallet reads the account id and new state, the commitment to exactly that is revealed, and a new account's note has the tag the wallet scans for |
| CircuitSoundness.UpdateUsesOwnersKey | lee/privacy_preserving_circuit/src/output.rs:50-67 | an accepted update of an account is witnessed with the owner's nullifier key, if neither account ids nor nullifier keys collide |
| CircuitSoundness.NextUpdateIsAwaited | lez/wallet/src/storage/key_chain.rs:64-90 | a later accepted transaction that updates an account from the state its owner read reveals the nullifier the owner's wallet awaits, computed with the wallet's own key, under the root opened by the commitment revealed earlier |
| CircuitSoundness.RegularAccountNeedsItsKey | lee/privacy_preserving_circuit/src/output.rs:69-91 | if any call presents a regular private account as authorized, the transaction holds a key that derives the account's id, or a seed given to that call or an ancestor collides with it |
| CircuitSoundness.DraftNullifiersDistinct | lee/privacy_preserving_circuit/src/output.rs:93-127 | no nullifier is drafted twice, if the values hashed in the transaction do not collide |
| CircuitSoundness.RevealedIsCanonical | lee/privacy_preserving_circuit/src/output.rs:158-182 | what an accepted transaction reveals depends neither on ties in the sorts nor on the order of the padding |
| CircuitSoundness.ValueIsConserved | lee/privacy_preserving_circuit/src/output.rs:207-243 | public balances before plus the balances of updated private accounts, each opened against a revealed root by its old commitment, equal public balances after plus the balances sealed into notes; new private accounts bring none |
| ClientStatistics.FromMetricUpdates | lez/wallet/src/multi_client.rs:393-427 | the fold gives the failures, the highest block id, the sum, the sum of squares and the number of successful measurements |
| ClientStatistics.Statistics.ApplyUpdates | lez/wallet/src/multi_client.rs:45-81 | in place, the statistics the formulas give for the batch |
| ClientStatistics.BatchIsExact | lez/wallet/src/multi_client.rs:728-776 | from the statistics of a sample, a batch gives exactly the mean and variance of the sample with the new latencies added |
| ClientStatistics.RunIsExact | lez/wallet/src/multi_client.rs:45-81 | over any run of batches the statistics are those of everything measured, if the first batch does not leave the sample empty |
| ClientStatistics.CountsIgnoreBatches | lez/wallet/src/multi_client.rs:45-81 | error count and sample size do not depend on the batches, saturation included |
| ClientStatistics.BatchesMatterIff | lez/wallet/src/multi_client.rs:45-81 | batches and one joined batch give the same statistics exactly unless the sample is empty, the first batch has no success and a later one has |
| ClientStatistics.FailedFirstBatchRuins | lez/wallet/src/multi_client.rs:45-81 | on an empty sample a failure followed by a batch with a success leaves not-a-number, the joined batch the success |
| ClientStatistics.NaNIsSticky | lez/wallet/src/multi_client.rs:728-776 | not-a-number is never left again |
| ClientStatistics.LatestBlockIsOfLastBatch | lez/wallet/src/multi_client.rs:55-58 | after every run the latest block id is the highest of the last batch with a success, not of the run, and the starting id without such a batch |
| ClientStatistics.CalibrateClient | lez/wallet/src/multi_client.rs:482-524 | statistics of exactly the successful measurements, and none exactly when there are none, so never those of an empty sample |
| Leaders.GreatestHeight | lez/wallet/src/multi_client.rs:629-644 | the fold finds the greatest height |
| Leaders.CutAtAverage | lez/wallet/src/multi_client.rs:656-690 | sorting by ratio and cutting at the first one above average keeps exactly the clients not above average |
| Leaders.SomeoneIsReliable | lez/wallet/src/multi_client.rs:656-690 | someone is not above average |
| Leaders.ChooseLeaders | lez/wallet/src/multi_client.rs:613-714 | no choice exactly without a measured client, a panic exactly when several clients of the greatest height include one without a ratio, otherwise the first of the reliable clients in order of average latency plus standard deviation |
| Leaders.ChosenAreBest | lez/wallet/src/multi_client.rs:613-714 | every leader is measured, of the greatest height and not above the average error ratio, leaders are in order of average plus deviation, no qualified client passed over has a lower one, a positive limit yields a leader, and below the limit all who qualify are leaders |
| Leaders.UnmeasuredClientPanics | lez/wallet/src/multi_client.rs:656-690 | a table with an unmeasured client among two of the same height, on which the choice panics |
| Leaders.SampledNeverPanics | lez/wallet/src/multi_client.rs:96-151 | over any run of calibrations and updates, a table whose entries all have a sample keeps one in every entry, with numbers for average and variance, and no choice among its clients panics |
| Leaders.TableDescribesHistory | lez/wallet/src/multi_client.rs:96-151 | over any run that starts without a table, each entry holds the mean, variance, sample size and failures of everything measured of that client since the calibration that let it in |
| Leaders.RankedByHistory | lez/wallet/src/multi_client.rs:613-714 | so clients are ranked by the mean plus deviation of everything measured of them, and judged by the share of failures in it |

## Left out

- Overflow of 64-bit block ids and 128-bit nonces, where the original panics or saturates.
- `head_state_mut`, which bypasses the invariant by design.
- Validation and execution of public transactions, which are one parameter; commitment trees, of which only the test for a known root is one.
- The accounts a caller lists for a chained call, which the circuit does not compare with those the program read.
- Cryptography and encodings: hashes, signatures, proofs, key encapsulation, encryption, borsh.
- Asynchronous reading, timeouts, stores and locks around the peer readers and the startup check; the watcher's stall counter and the repair of a missing tip.
- The retryable outcome of a finalized delivery, log messages and displays.
- Rounding of 32-bit floats, and the order of two not-a-numbers with different payloads; the square root and the sign of a not-a-number are parameters of `ChooseLeaders`.
- The wallet beyond reading one note, and storage, RPC, command line, FFI, explorer and tooling.
- StepAlikeIff: gives its second direction for every event but a batch that both reverts and adopts, for the reason given next.
- RunsAlikeIff: claims only the first direction for a batch that both reverts and adopts, because its adoptions can bring parted heads together again; `UpdateSplits` turns such a batch into two events for which both directions hold.
- RestoreHeadBlock: promises valid caches on success only, because on an error the original leaves the head state half applied and its caller stops.
- TableDescribesHistory: covers clients with at most 2^64 - 1 measurements, for the reason given for `RunIsExact`; `SampledNeverPanics` has no such bound.
- VerifiedIff: says when validation succeeds, not which of several applicable errors is reported.
- RunIsExact: covers samples of at most 2^64 - 1 latencies; beyond that the sample size saturates and the average is no longer that of the sample.
- ComputeCircuitOutput: takes an execution state with distinct, known accounts, which is what every derived state has by `AcceptedThreading`.
