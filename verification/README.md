# Verimus: a verified model

Verimus is a storage network in which nodes keep files for pay and agree on a chain of blocks.
This project models the parts of it whose correctness is a matter of logic rather than of
input and output, and proves what they keep.

| module | part of the system |
|---|---|
| `Consensus`, `Quorum`, `Readiness`, `ChainSafety`, `Provenance`, `Stalls`, `ArrivalOrder`, `Proposal`, `Bft` | the coordinator that verifies, proposes, adopts and commits blocks, over the shared mempool |
| `Ledger`, `InitialSync` | the block collection with its unique height index, and catching up with other nodes |
| `KeyedMutex` | the promise chain that serialises handlers per key |
| `Accounts`, `Payments`, `Vesting`, `Wallet` | balances, escrow, collateral, stakes and the rest toll |
| `Merkle`, `ProofOfStorage`, `AuditorElection` | Merkle trees, chunking, challenges and the election of the auditor |
| `Json`, `JsonText`, `CanonicalText`, `PayloadFields` | the text of blocks: serialising, hydrating, normalising, hashing, as a whole and property by property |
| `Gossip` | duplicate cache and message floods |
| `Arith`, `Sums`, `Wrappers`, `Platform` | arithmetic, sums over maps and sequences, options and distinctness, what the platform fixes |

How it is built. Code that changes state in place is a class whose methods are tied, field by
field, to functions on values (`Bft.BftCoordinator`, `Ledger.Ledger`, `InitialSync.SyncEngine`,
`Wallet.WalletManager`, `KeyedMutex.KeyedMutex`, `Gossip.Peer`, `CanonicalText.BlockObject`,
`ProofOfStorage.StreamChunker`); the theorems are about those functions and about all runs made
of them. The hash is an arbitrary function. Results about hashes have the form "or here are two
inputs with one hash", with the two inputs computed; injectivity is never assumed.

Asynchrony. In `Consensus` a step is what one handler does between two awaits, so handlers
interleave at every await; only handlers of one fork id, or of one block id, exclude each other,
which is what `KeyedMutex` is proved to provide. The answer of a database query and the code that
runs on it up to the next await form one step, except in `_commitFork`, whose reads of the tip and
of the signatures are steps of their own, and for the chain tip, which any handler may have read
at an earlier moment. Messages, validator sets, refreshes of their cached number, timers and clock
values come from outside at any time. Steps may also happen where the code would not make them (a
timeout of a fork that was never proposed here, say), so what holds of all runs holds of the code's.

## What the proofs brought to light

- Interleaved commits are safe without collision-freedom of the hash and without the tip check
  of `_commitFork`: the unique height index and the signature search suffice
  (`ChainSafety.InsertedOnTop`). It does need that no checkpoint is pruned between: pruning makes
  exactly the heights below the checkpoint free again (`ChainSafety.PruningFreesHeights`).
- `handleProposeFork` computes the block named by the message that completes the majority, while
  the commit clears the block named by the first message. If their signatures differ, the first
  message's block leaves the mempool as settled although no block with its signature was added. The
  completing message's block is on the chain and leaves too, taken out by its signature when the
  ledger announces it, unless an earlier pending block has that signature and goes instead
  (`ChainSafety.ConfirmingMessageDecides`, `ChainSafety.SurvivesAnnouncement`).
- The node counts itself under its network address, on top of the validators. Any two quorums
  share a voter exactly when the number of validators is even (`Quorum.QuorumsMeet`).
- The majority is one vote while no validators are cached, as on a node that grows from genesis, and
  anyone's vote counts then. A quorum is therefore one by the number in force when the fork was
  confirmed or its adoptions were counted (`ChainSafety.NewBlocksHaveQuorums`); while a number above
  zero stays cached it is the majority by that number (`ChainSafety.SteadyBlocksHaveMajorities`).
- Votes are held against the majority in force when they are counted and not again. When the
  cached number of validators falls, a fork can have its block and as many adoptions as now make a
  majority while nothing commits it (`Readiness.FallingCountLeavesForkWaiting`); a commit is under
  way exactly for forks that reached the majority in force when some adoption was counted
  (`Readiness.CommitsExactlyWhenReady`).
- `verifyMerkleProof` never looks at the length of a proof. For a shard of two chunks or more, the
  two digests below the root, with no siblings, pass every challenge
  (`ProofOfStorage.TwoDigestsPassEveryAudit`). The answers that pass are exactly the honest one, the
  texts of inner nodes with their siblings, and what hashes into a chunk that is itself the text of
  a step; or a collision is given away (`ProofOfStorage.PassingReplyIsExplained`,
  `ProofOfStorage.ExplainedReplyPasses`). Asking for a proof of the tree's depth leaves the honest
  answer alone (`ProofOfStorage.PassingReplyIsHonest`).
- A pending block is filed under the hash of what was received, but verifying its signature
  normalises it in place. A block sent without `previousHash`, which the signature does not cover,
  or with a fragment that lacks its physical id, is stored under an id that is not its hash
  (`Proposal.FiledUnderItsHash`, `CanonicalText.NormalisingKeepsDoc`).
- After a rebroadcast the node's own signature is added without looking at eligibility; with at
  most one validator the block then has its majority and waits for nobody
  (`Stalls.ResignedBlockIsNotJudged`).
- `isChainValid` does not look at the first block or at heights, so it accepts gaps; gaplessness
  is kept because every append goes to the next height.
- The two genesis blocks carry one signature, so signatures are unique only among the blocks
  added after them.
- The 105% reserve pays for the escrow and the broker's fee of every contract of at least 20 wei
  exactly up to 500 basis points, while admission allows 1500 (`Accounts.ReserveCoversFees`); and
  a contract owned by the zero address is admitted whatever that address holds, and what it does
  not hold is unpaid (`Wallet.ZeroOwnerIsUnbacked`).
- A fee of zero means one percent as a BigInt and one wei as text. A node that syncs a contract with
  an explicit zero fee therefore charges another amount than the nodes that committed it
  (`Accounts.SyncingChargesTheSame`).
- A rest toll is paid in full by the expiry exactly when it exceeds the number of blocks, or the
  contract lasts one block (`Vesting.VestingIsExact`).
- Some replies (bids and retrieved shards) are sent on a connection before they are ever broadcast, so
  they may travel 20 links, where a message that starts with a broadcast travels
  at most 19 (`Gossip.HopsAreBounded`, `Gossip.BidsTravelTwentyHops`).
- Leaf lists of different lengths can have one Merkle root (`Merkle.OddTailIsAmbiguous`), so the
  length has to be known, as it is from the contract.
- Hydrating changes text that is not a canonical decimal, such as "007", " 7", "+7" or "0x7"
  (`CanonicalText.HydrationKeepsCanonicalText`), and normalising a block for signature writes
  default physical ids into the caller's fragments (`CanonicalText.NormalisingKeepsPayload`).

## Model

| member | source | states |
|---|---|---|
| ChainSafety.InterleavedCommitsAreSafe | peer_handlers/bft_coordinator/BftCoordinator.ts:414-456 | from a gapless chain, after any run of any steps, while validators and their cached number change, the chain is the old one followed by blocks each at the next height, hashed, linked to its predecessor, and with a signature and hash that no earlier block has |
| ChainSafety.NewBlocksHaveQuorums | peer_handlers/bft_coordinator/BftCoordinator.ts:254-456 | every block the chain gained has a moment of the run when it was inserted, and until then: each vote it was committed with was the node's own or came in a message from a validator active when it was counted (anyone while none were cached) and was held since; and the proposals at one moment, the adoptions at another, had become a majority by the number then in force, which decided the fork from then on |
| ChainSafety.SteadyBlocksHaveMajorities | peer_node/PeerNode.ts:406-411 | while n > 0 validators stay cached, every block the chain gained had at least the majority by n of proposals and of adoptions, each the node's own or from a validator active when it was counted and held since |
| ChainSafety.StepKeepsInv | peer_handlers/bft_coordinator/BftCoordinator.ts:292-456 | every step keeps: computed blocks stand on a block of the chain, searched prefixes lack the signature, the chain is its start plus the log of commits |
| ChainSafety.InsertedOnTop | ledger/Ledger.ts:59-130 | if the insert of a computed block succeeds, nothing was inserted since its signature search, and the block is the next one with a fresh signature; otherwise its height is taken |
| ChainSafety.MadeBlockFits | peer_handlers/bft_coordinator/BftCoordinator.ts:297-325 | the block computed on a tip read at any earlier moment is hashed, linked to that tip and one higher |
| Provenance.ComputedContent | peer_handlers/bft_coordinator/BftCoordinator.ts:297-328 | the computed block has signer, payload and signature of the pending block that the completing message named, its kind or that of a storage contract, and its time, else that of its submission, else the clock's; nothing but the fork's entry changes |
| Provenance.MissingBlock | peer_handlers/bft_coordinator/BftCoordinator.ts:304-308 | without that block the adoption is given back and nothing is computed |
| Provenance.NewBlocksWereReceived | peer_handlers/bft_coordinator/BftCoordinator.ts:302-456 | every block the chain gained was received in the run and named by a proposal for its fork; signer, signature, kind and time are the received ones where set, and the payload is the received one as verifying the signature left it |
| Provenance.StepKeepsInv | peer_handlers/bft_coordinator/BftCoordinator.ts:254-456 | every step keeps that of pending entries, computed blocks and the log |
| ChainSafety.MovedTipDropsFork | peer_handlers/bft_coordinator/BftCoordinator.ts:426-437 | a commit goes on if and only if its block stands on the tip read; else the fork and its votes are dropped and blocks and chain stay |
| ChainSafety.TipIsRead | peer_handlers/bft_coordinator/BftCoordinator.ts:426-427 | the tip read is the hash of the last block, and only the commit's place changes |
| ChainSafety.TimeoutForgetsFork | peer_handlers/bft_coordinator/BftCoordinator.ts:169-217 | a timeout forgets its fork and the fork's votes and touches no other block or fork |
| ChainSafety.PruningFreesHeights | ledger/Ledger.ts:120-125 | after pruning, a height the chain once held can be inserted again if and only if it is below the checkpoint and no kept block has the hash |
| ChainSafety.ConfirmingMessageDecides | peer_handlers/bft_coordinator/BftCoordinator.ts:254-514 | a whole commit from the message that completes the majority, the adoptions being there: the chain gains that message's block; the block the fork was opened for leaves the mempool, and if its signature was not on the chain, it is now if and only if the two blocks have one signature; the completing message's block stays pending if and only if the fork was opened for another and its signature is empty or an earlier entry has it |
| ChainSafety.SurvivesAnnouncement | peer_node/PeerNode.ts:379-393 | a pending block survives the announcement of a block with its signature if and only if that is empty or an earlier entry of the map has it |
| ChainSafety.AddingForkClears | peer_handlers/bft_coordinator/BftCoordinator.ts:456-514 | in any state with an insert due that succeeds, the commit takes out the first entry with the added block's signature and the block the fork was opened for, and no other |
| ChainSafety.RefusedForkClears | peer_handlers/bft_coordinator/BftCoordinator.ts:519-528 | if it hits a duplicate key, nothing is added and only the block the fork was opened for goes, with the fork |
| ChainSafety.FoundForkClears | peer_handlers/bft_coordinator/BftCoordinator.ts:440-514 | if the signature is on the chain already, nothing is added, and what goes is the block the fork was opened for and the entry under the computed block's hash |
| Quorum.StepKeepsInv | peer_handlers/bft_coordinator/BftCoordinator.ts:84-107 | every step, timeouts and the rebroadcast reset among them, keeps: all votes of pending blocks and forks trace back to messages counted in the run and held since, and eligible entries, adopted or computed forks, and scheduled or running commits reached the majority in force at a moment since when that has stood |
| Quorum.RunKeepsInv | peer_handlers/bft_coordinator/BftCoordinator.ts:72-442 | the same over whole runs, while validators come and go and their number is refreshed |
| Quorum.RunKeepsLog | peer_handlers/bft_coordinator/BftCoordinator.ts:414-456 | and over whole runs every logged commit had its quorums of that kind when its block was inserted |
| Quorum.ProposalAdds | peer_handlers/bft_coordinator/BftCoordinator.ts:254-288 | a proposal on an allowed tip opens its fork for the block it names and adds its sender, if that is heard and new, and the node itself if it has the block, and no other voter |
| Quorum.ProposalConfirms | peer_handlers/bft_coordinator/BftCoordinator.ts:291-294 | it adopts the fork and has its block computed if and only if it adds a vote and the votes are then a majority |
| Quorum.AdoptionAdds | peer_handlers/bft_coordinator/BftCoordinator.ts:374-394 | an adoption on an allowed tip adds its sender if that is heard, new and names the fork's final tip, and no other voter |
| Quorum.AdoptionSettles | peer_handlers/bft_coordinator/BftCoordinator.ts:400-407 | it starts the commit, or schedules it without a computed block, if and only if it adds a vote and the votes are then a majority |
| Quorum.ForeignTipIsIgnored | peer_handlers/bft_coordinator/BftCoordinator.ts:235-255 | on any other tip neither changes anything |
| Quorum.ProposeKeeps | peer_handlers/bft_coordinator/BftCoordinator.ts:254-294 | counting a proposal, with the node's own agreeing vote, newly adopts a fork only at the majority then in force |
| Quorum.AdoptKeeps | peer_handlers/bft_coordinator/BftCoordinator.ts:374-407 | counting an adoption starts or schedules a commit only at the majority then in force |
| Quorum.CompareTipKeeps | peer_handlers/bft_coordinator/BftCoordinator.ts:426-437 | a fork is marked committed only with its majority; on a moved tip it is dropped with its votes |
| Quorum.TimeoutKeeps | peer_handlers/bft_coordinator/BftCoordinator.ts:169-217 | demotion, purge and reset leave nothing eligible or adopted without its majority |
| Quorum.QuorumsMeet | peer_node/PeerNode.ts:406-411 | for voters out of n validators and the node itself, any two majorities share a voter if and only if n is even |
| Readiness.CommitsExactlyWhenReady | peer_handlers/bft_coordinator/BftCoordinator.ts:292-407 | in every reachable state a commit is under way for a fork if and only if it has its block and reached the majority in force when some adoption was counted, and a fork is adopted if and only if its block is computed or being computed |
| Readiness.SteadyCommits | peer_handlers/bft_coordinator/BftCoordinator.ts:400-407 | while the cached number never changes, that is: if and only if it has its block and a majority of adoptions |
| Readiness.FallingCountLeavesForkWaiting | peer_handlers/bft_coordinator/BftCoordinator.ts:400-407 | eight steps after which a fork has its block and a majority of adoptions, of the node itself and one validator, by the number now cached, and no commit is under way |
| Readiness.StepKeepsInv | peer_handlers/bft_coordinator/BftCoordinator.ts:337-437 | whichever of block and adoptions comes last starts the commit, and failures take both back |
| Stalls.StalledForksStop | peer_handlers/bft_coordinator/BftCoordinator.ts:169-217 | in any run without a fresh submission a pending foreign block meets at most 3 fork timeouts and an own one at most 12; after that many it is out of the mempool, and an own one is in failedBlocks |
| Stalls.TimeoutSpends | peer_handlers/bft_coordinator/BftCoordinator.ts:175-212 | a timeout lowers 3·(3−rebroadcasts)+(3−strikes) by exactly one, and the block leaves exactly at zero, an own one into failedBlocks |
| Stalls.StepSpends | peer_handlers/bft_coordinator/BftCoordinator.ts:36-531 | no other step but a fresh submission raises that measure or changes the block |
| Stalls.TimeoutsInARow | peer_handlers/bft_coordinator/BftCoordinator.ts:175-212 | n timeouts in a row leave the measure n lower and the block pending if and only if n is below it, so the bounds are reached |
| Stalls.ResignedBlockIsNotJudged | peer_handlers/bft_coordinator/BftCoordinator.ts:189-200 | a resubmitted block is not eligible once re-signed, though it has its majority if and only if there is at most one validator |
| ArrivalOrder.OutcomeOfArrivals | peer_handlers/bft_coordinator/BftCoordinator.ts:36-107 | however a block's arrival, verifications, waits for the own signature and replays of orphans interleave, in the end the verifiers are the node and all accepted senders, and the block is eligible if and only if they are a majority |
| ArrivalOrder.ArrivalOrderIsIrrelevant | peer_handlers/bft_coordinator/BftCoordinator.ts:42-66 | two runs with the same senders end with the same verifiers and eligibility |
| ArrivalOrder.StepKeepsInv | peer_handlers/bft_coordinator/BftCoordinator.ts:55-107 | no verification is lost or counted twice between the orphans, the replays and the entry |
| Proposal.NodesProposeTheSame | peer_handlers/bft_coordinator/BftCoordinator.ts:129-156 | nodes with one tip and the same eligible ids propose the same block and fork id, or some id stands for two received blocks with one hash |
| Proposal.ChooseBlock | peer_handlers/bft_coordinator/BftCoordinator.ts:129-153 | whatever the order of the map, the chosen block has the least timestamp of the eligible ones and the least id among those, and there is one if and only if any is eligible |
| Proposal.CompareIsTotal | peer_handlers/bft_coordinator/BftCoordinator.ts:138-147 | on different ids the sort's comparator is antisymmetric and never zero |
| Proposal.PrecedesIsTransitive | peer_handlers/bft_coordinator/BftCoordinator.ts:138-147 | and transitive |
| Proposal.FirstIsUnique | peer_handlers/bft_coordinator/BftCoordinator.ts:152-153 | a set of ids has at most one first |
| Proposal.FirstIsOldest | peer_handlers/bft_coordinator/BftCoordinator.ts:138-153 | the first is the one of least timestamp, and of several the one of least id |
| Proposal.LessAt | peer_handlers/bft_coordinator/BftCoordinator.ts:147-147 | ids are compared at their first difference |
| Proposal.ForkIdsAgree | peer_handlers/bft_coordinator/BftCoordinator.ts:155-156 | two fork ids are equal if and only if the hashes of the block ids agree in 32 characters and the tips in 16 |
| Proposal.SortIds | peer_handlers/bft_coordinator/BftCoordinator.ts:138-147 | the sorted list has the same ids, each before all that it precedes |
| Proposal.ProposalNamesTip | peer_handlers/bft_coordinator/BftCoordinator.ts:155-239 | a fork id made on one tip passes another node's tip check if and only if the tips agree in their first 16 characters |
| Proposal.RunKeepsKeys | peer_handlers/mempool_manager/MempoolManager.ts:55-256 | in every run pending blocks are filed under the hash of what was received, and are what verifying the signature made of that |
| Proposal.FiledUnderItsHash | crypto_utils/EIP712Types.ts:158-180 | a pending block has the hash it is filed under if and only if it came with a previous hash and complete fragments or was the system's own, or it collides with what was received |
| Consensus.RunKeepsListed | models/mempool/Mempool.ts:29-36 | in every run the insertion order of the map of pending blocks lists each of them once |
| Bft.BftCoordinator.AdmitBlock | peer_handlers/mempool_manager/MempoolManager.ts:55-258 | is the arrival step: a new entry without votes for the normalised block under the id of the received one, unless that is pending |
| Bft.BftCoordinator.HandleVerifyBlock | peer_handlers/bft_coordinator/BftCoordinator.ts:55-98 | is the verification step, up to the wait for the own signature: parked, refused, repeated, or counted and judged |
| Bft.BftCoordinator.AddOwnVerification | peer_handlers/bft_coordinator/BftCoordinator.ts:98-107 | is the step after that wait |
| Bft.BftCoordinator.TakeOrphans | peer_handlers/bft_coordinator/BftCoordinator.ts:42-45 | is the step that takes the parked verifications out |
| Bft.BftCoordinator.ReplayOrphan | peer_handlers/bft_coordinator/BftCoordinator.ts:45-47 | is the step that handles one of them |
| Bft.BftCoordinator.CheckAndProposeFork | peer_handlers/bft_coordinator/BftCoordinator.ts:126-159 | the proposal is the first eligible block with its fork id on the tip, and none during a sync, if nothing is eligible or if the fork is adopted |
| Bft.BftCoordinator.HandleProposeFork | peer_handlers/bft_coordinator/BftCoordinator.ts:227-294 | is the proposal step: tip check, opening the fork, voter check, votes, adoption; during a sync, or on a tip never heard of, the message is put off, and the latter starts a sync |
| Bft.BftCoordinator.ComputeBlocks | peer_handlers/bft_coordinator/BftCoordinator.ts:297-340 | is the computing step: the block on the tip read, or giving the adoption back, and a commit if one is pending |
| Bft.BftCoordinator.HandleAdoptFork | peer_handlers/bft_coordinator/BftCoordinator.ts:347-408 | is the adoption step: tip check, final tip check, voter check, votes, commit now or later; putting off as for proposals |
| Bft.BftCoordinator.ReadTip | peer_handlers/bft_coordinator/BftCoordinator.ts:426-427 | is the step that reads the tip for a commit |
| Bft.BftCoordinator.CompareWithTip | peer_handlers/bft_coordinator/BftCoordinator.ts:429-437 | is the step that drops the fork or marks it committed |
| Bft.BftCoordinator.LookUpSignature | peer_handlers/bft_coordinator/BftCoordinator.ts:440-454 | is the step that searches the chain for the signature |
| Bft.BftCoordinator.AddToChain | peer_handlers/bft_coordinator/BftCoordinator.ts:456-529 | is the insert step, at an epoch start the refresh of the cached number, then the subscribers' change of validators; or on a duplicate key the step that drops fork and block |
| Bft.BftCoordinator.FinishCommit | peer_handlers/bft_coordinator/BftCoordinator.ts:494-514 | is the step that clears the fork, its votes and its block |
| Bft.BftCoordinator.TimeOut | peer_handlers/bft_coordinator/BftCoordinator.ts:169-216 | is the timeout step: a strike for the block, purge, resubmission or failure at the third, and the fork forgotten |
| Bft.BftCoordinator.CountRebroadcastSignature | peer_handlers/bft_coordinator/BftCoordinator.ts:198-200 | is the step that adds the signature of a rebroadcast |
| Bft.BftCoordinator.AddOwnedBlockToCache | peer_node/PeerNode.ts:379-393 | drops the first pending block, in the map's order, with the added block's signature, if there is one, and changes nothing else |
| Bft.BftCoordinator.AnnounceBlock | ledger/Ledger.ts:139-139 | is the announcing step of a commit |
| Ledger.Ledger.AddBlockToChain | ledger/Ledger.ts:127-141 | inserts at the block's height unless height or hash is taken, refreshes the cached count at epoch starts before the subscribers change the validators, and otherwise changes nothing |
| Ledger.Ledger.IsChainValid | ledger/Ledger.ts:191-217 | true if and only if every block but the first has the hash of its content and names the hash of its predecessor |
| Ledger.Ledger.PruneHistory | ledger/Ledger.ts:120-125 | leaves the blocks from the checkpoint on, and keeps validity and gaplessness |
| Ledger.Ledger.PurgeChain | ledger/Ledger.ts:103-118 | leaves genesis and no validators; the cached count stays |
| Ledger.Ledger.GetLatestBlock | ledger/Ledger.ts:93-97 | the one block above all others, if there is any |
| Ledger.Ledger.SyncValidatorCache | ledger/Ledger.ts:81-84 | caches the number of active validators |
| Ledger.Ledger.constructor | ledger/Ledger.ts:69-78 | genesis on an empty database, and the cache from the stored validators |
| Ledger.InsertAppends | ledger/Ledger.ts:59-130 | on a gapless chain, a block at or below the next height is accepted if and only if it is at the next height with a new hash, and then appended |
| Ledger.InsertKeepsOrder | ledger/Ledger.ts:59-130 | inserting keeps heights unique and in order |
| Ledger.PruningKeepsValidity | ledger/Ledger.ts:120-125 | the pruned chain is valid if and only if all links above the checkpoint are good |
| Ledger.PruningKeepsContiguity | ledger/Ledger.ts:120-125 | pruning keeps gaplessness and, up to the tip's height, the tip |
| Ledger.ExtendingKeepsValidity | ledger/Ledger.ts:191-217 | sound blocks added to a chain leave its validity as it was |
| Ledger.GenesisIsSound | constants.ts:38-91 | the two genesis blocks form a valid gapless chain under any hash |
| Ledger.EpochFreezesCount | ledger/Ledger.ts:127-138 | on a chain grown from genesis, after height i the cached count is the number of validators after height 100·⌊i/100⌋−1, whatever the blocks do to stakes |
| Ledger.MajorityIsConstantInEpoch | peer_node/PeerNode.ts:406-411 | so the majority is the same after any two heights of one epoch |
| Ledger.MajorityCount | peer_node/PeerNode.ts:406-411 | more than half of the cached count, by less than one vote, and at least one |
| InitialSync.SyncOnlyExtends | peer_handlers/sync_engine/SyncEngine.ts:556-620 | whatever peers answer, the result is the old chain, or genesis if that was invalid, followed by blocks each hashed, linked and at the next height; it is valid and gapless |
| InitialSync.HonestPeersAreFollowed | peer_handlers/sync_engine/SyncEngine.ts:567-620 | if the chosen peers all answer with the blocks of one valid gapless chain that continues the node's, the node ends up with exactly that chain |
| InitialSync.AcceptedExactly | peer_handlers/sync_engine/SyncEngine.ts:587-608 | a block is taken for a height if and only if it is the first peer's answer, no second peer's answer has another hash, and it is hashed and linked to the tip |
| InitialSync.SyncTakesAgreed | peer_handlers/sync_engine/SyncEngine.ts:567-613 | every block a sync appends is the first peer's answer for its height, and no second answer for it has another hash |
| InitialSync.DisputeEndsSync | peer_handlers/sync_engine/SyncEngine.ts:595-598 | a height at which the two answers differ leaves the chain below it |
| InitialSync.SyncEnds | peer_handlers/sync_engine/SyncEngine.ts:567-620 | a sync ends below its target only where no answer is agreed, hashed and linked, or the database refuses it |
| InitialSync.LastAnswerStays | peer_handlers/sync_engine/SyncEngine.ts:183-188 | of several answers of one peer for one height the last is kept |
| InitialSync.AppendedExtends | peer_handlers/sync_engine/SyncEngine.ts:567-620 | a loop of sound turns only extends the chain |
| InitialSync.TurnIsGood | peer_handlers/sync_engine/SyncEngine.ts:587-613 | each turn adds at most one block, the next one, hashed and linked |
| InitialSync.ChooseTarget | peer_handlers/sync_engine/SyncEngine.ts:529-554 | the greatest claimed height above -1 and exactly the peers who claimed it |
| InitialSync.SyncEngine.FetchBlock | peer_handlers/sync_engine/SyncEngine.ts:568-611 | the main peer's answer if it is there, no second peer's answer disputes it, and it has the hash of its content and links to the tip; otherwise none |
| InitialSync.SyncEngine.TakeTurn | peer_handlers/sync_engine/SyncEngine.ts:567-620 | one turn of the loop on the ledger, or none |
| InitialSync.SyncEngine.AppendBlocks | peer_handlers/sync_engine/SyncEngine.ts:567-620 | the ledger after the loop |
| InitialSync.SyncEngine.PerformInitialSync | peer_handlers/sync_engine/SyncEngine.ts:508-629 | the ledger after a sync towards the chosen target, and when nothing is done; the engine ends active |
| InitialSync.SyncEngine.HandleChainStatusResponse | peer_handlers/sync_engine/SyncEngine.ts:170-174 | claims are kept unless offline |
| InitialSync.SyncEngine.HandleBlockSyncResponse | peer_handlers/sync_engine/SyncEngine.ts:183-188 | a block is filed under its own height and its sender, the last one staying |
| KeyedMutex.RunsKeepInv | utils/KeyedMutex.ts:4-25 | every run keeps the invariant of the promise chain |
| KeyedMutex.AcquireEnqueues | utils/KeyedMutex.ts:4-13 | an acquire joins the end of its key's queue and no other |
| KeyedMutex.ResumeKeepsQueues | utils/KeyedMutex.ts:15-19 | being granted changes no queue |
| KeyedMutex.ReleaseDequeues | utils/KeyedMutex.ts:19-24 | a holder's release takes exactly the head off its key's queue |
| KeyedMutex.ReleaseKeepsOtherQueues | utils/KeyedMutex.ts:19-24 | and leaves the queues of other keys |
| KeyedMutex.HolderIsHead | utils/KeyedMutex.ts:10-19 | only the head of a key's queue can hold the key, so at most one task does |
| KeyedMutex.GrantedInOrder | utils/KeyedMutex.ts:10-19 | a grant means that all earlier tickets on the key are released |
| KeyedMutex.MapHoldsLiveKeys | utils/KeyedMutex.ts:12-23 | the map has a key if and only if some ticket on it is unreleased |
| KeyedMutex.RepeatedReleaseIsHarmless | utils/KeyedMutex.ts:19-24 | releasing again changes nothing |
| KeyedMutex.QuietMeansServed | utils/KeyedMutex.ts:4-25 | when no waiter can go on and no holder is left to release, every ticket has been granted and released |
| KeyedMutex.DrainingEnds | utils/KeyedMutex.ts:4-25 | without new acquires only finitely many grants and releases are left |
| KeyedMutex.KeyedMutex.Begin | utils/KeyedMutex.ts:4-15 | is the acquire step |
| KeyedMutex.KeyedMutex.Awake | utils/KeyedMutex.ts:15-19 | is the step of a resumed waiter |
| KeyedMutex.KeyedMutex.ReleaseClosure | utils/KeyedMutex.ts:19-24 | is the release step |
| Accounts.BlockAccounting | wallet_manager/WalletManager.ts:53-153 | for every block and all books, balances, escrow, toll, stakes and collateral together change by exactly what the block mints, burns, brings as toll, forfeits or takes unpaid |
| Accounts.TickAccounting | wallet_manager/WalletManager.ts:321-358 | a tick moves toll to fragment holders and loses only the remainders |
| Accounts.DustIsSmall | wallet_manager/WalletManager.ts:332-352 | per paying contract less than its number of fragments |
| Accounts.EgressAccounting | wallet_manager/WalletManager.ts:247-276 | an egress charge keeps the total |
| Accounts.RunAccounting | wallet_manager/WalletManager.ts:22-358 | over any run of blocks, ticks and charges the total changes by exactly these flows |
| Accounts.UnbackedOnlyWhenUncovered | wallet_manager/WalletManager.ts:41-153 | no value comes from nowhere in a run if and only if every debit is covered and every contract with escrow names an owner |
| Payments.BlockPays | wallet_manager/WalletManager.ts:53-153 | for every block and address, the balance afterwards is what its charge leaves of it, never below zero, and its credit; so recipients, brokers and payers, and nobody else, are the ones paid and charged |
| Payments.BlockStakes | wallet_manager/WalletManager.ts:134-148 | for every block and address, the stake afterwards: set by a stake, gone by leaving or slashing, else as it was |
| Payments.BlockCollateral | wallet_manager/WalletManager.ts:95-133 | the same for collateral: added to, burnt, dropped below the minimum, else as it was |
| Payments.BlockContracts | wallet_manager/WalletManager.ts:68-81 | a contract block writes its own contract, keeping when it was last paid, and no block touches another |
| Payments.FeeIsShare | wallet_manager/WalletManager.ts:85-87 | the fee is the rounded share of the escrow, or one wei; the rate is one percent for no fee or a BigInt zero |
| Payments.EscrowOf | wallet_manager/WalletManager.ts:82-83 | the remaining escrow counts, else the allocated one |
| Payments.TickPays | wallet_manager/WalletManager.ts:321-358 | a tick pays every address one share of each paying contract for each fragment it holds, and nothing else |
| Payments.TickContracts | wallet_manager/WalletManager.ts:336-347 | and lowers the toll of each paying contract by its payout, and changes no other |
| Payments.PayoutIsShare | wallet_manager/WalletManager.ts:327-337 | the payout is the toll divided by the blocks from the last payment to the expiry, rounded down, up to that height |
| Payments.EgressPays | wallet_manager/WalletManager.ts:247-276 | an egress charge pays the contract's signer what the escrow has of it, and nobody else |
| Payments.EgressContracts | wallet_manager/WalletManager.ts:262-271 | and lowers that contract's escrow alone |
| Payments.RunPays | wallet_manager/WalletManager.ts:22-358 | over any run the balance of an address follows from its own charges and credits alone |
| Accounts.ReserveCoversFees | peer_handlers/mempool_manager/MempoolManager.ts:103-119 | the 105% reserve pays for all escrows of 20 wei and more if and only if the fee is at most 500 basis points |
| Accounts.SmallEscrowIsUnreserved | peer_handlers/mempool_manager/MempoolManager.ts:103-107 | below 20 wei the reserve never pays for the fee |
| Wallet.AdmissionCoversContract | peer_handlers/mempool_manager/MempoolManager.ts:101-119 | an admitted contract in those bounds, not owned by the zero address, applied to the books it was admitted in, takes nothing unpaid |
| Wallet.ZeroOwnerIsUnbacked | wallet_manager/WalletManager.ts:194-196 | a contract owned by the zero address is admitted if and only if its fee is, and what that address does not hold of its debit is unpaid |
| Wallet.AdmittedExactly | peer_handlers/mempool_manager/MempoolManager.ts:101-129 | admission if and only if the owner, unless absent or the zero address, has 105% of the allocated egress left besides what is frozen for other markets, the fee is at most 15% and the signer is staked |
| Wallet.ContractFollowsTollRule | wallet_manager/WalletManager.ts:332-340 | a contract's tick is the toll rule of the vesting results |
| Wallet.ExcludingIsReleasing | wallet_manager/WalletManager.ts:155-192 | funds asked for with a market excluded are those after releasing it |
| Wallet.FreezeLowersOneBalance | wallet_manager/WalletManager.ts:295-302 | a freeze takes its amount and toll from its address alone |
| Wallet.ReleaseUndoesFreeze | wallet_manager/WalletManager.ts:308-319 | releasing a request undoes all freezes made for it |
| Wallet.WalletManager.ApplyBalanceDelta | wallet_manager/WalletManager.ts:41-51 | one balance changes by the delta, never below zero |
| Wallet.WalletManager.UpdateIncrementalState | wallet_manager/WalletManager.ts:53-153 | the books after a block, hydrated or not, are those of the accounted rules |
| Accounts.SyncingChargesTheSame | wallet_manager/WalletManager.ts:82-92 | a contract leaves the same balances hydrated and not, if and only if its fee is no explicit zero, or its escrow is below 200 wei, or it has no owner, or the owner pays itself out of enough funds |
| Wallet.WalletManager.ProcessEpochTick | wallet_manager/WalletManager.ts:321-358 | the books after a tick are those of the accounted rules |
| Wallet.WalletManager.DeductEgressEscrow | wallet_manager/WalletManager.ts:247-276 | the books after a charge are those of the accounted rules |
| Wallet.WalletManager.FreezeFunds | wallet_manager/WalletManager.ts:295-302 | one escrow is added to its request; it lowers the funds of its address alone, and not for requests that exclude that market; nothing for the zero address |
| Wallet.WalletManager.ReleaseFunds | wallet_manager/WalletManager.ts:308-310 | the request has no escrows left, all others keep theirs, and every address has the funds it had with that market excluded |
| Wallet.WalletManager.CalculateBalance | wallet_manager/WalletManager.ts:155-192 | balance less frozen amounts and tolls, the excluded market's not counted |
| Wallet.WalletManager.VerifyFunds | wallet_manager/WalletManager.ts:194-200 | whether that suffices; always for the zero address |
| Wallet.WalletManager.AdmitStorageContract | peer_handlers/mempool_manager/MempoolManager.ts:101-129 | the admission rule |
| Vesting.VestingIsExact | wallet_manager/WalletManager.ts:332-340 | ticked at every height from start to expiry, a toll ends at zero if and only if it exceeds the number of blocks, or that is one |
| Vesting.VestingPaysInFull | wallet_manager/WalletManager.ts:332-340 | then from the second tick on payouts never fall and all equal q or q+1 for one q ≥ 1 |
| Vesting.SmallTollIsFrozen | wallet_manager/WalletManager.ts:337-340 | a toll below its remaining blocks never changes again |
| Merkle.BuildMerkleTree | crypto_utils/CryptoUtils.ts:172-191 | the layers of the tree over the leaf hashes, odd layers pairing their last node with itself, and the root |
| Merkle.GetMerkleProof | crypto_utils/CryptoUtils.ts:196-215 | the siblings on the way up |
| Merkle.VerifyMerkleProof | crypto_utils/CryptoUtils.ts:220-235 | whether climbing from the leaf gives the root |
| Merkle.HonestProofAccepted | crypto_utils/CryptoUtils.ts:196-235 | the proof made for a leaf is accepted |
| Merkle.RootOfHalves | crypto_utils/CryptoUtils.ts:176-189 | over two full trees of one depth stands the hash of left root and right root, in that order |
| Merkle.RootOfOneLeaf | crypto_utils/CryptoUtils.ts:176-176 | over one leaf stands its hash |
| Merkle.AcceptedProofBinds | crypto_utils/CryptoUtils.ts:220-235 | an accepted answer, at any index and with a proof of any length, is the honest data and siblings of its seat, the text of an inner node with that node's siblings, or what hashes into a leaf that is the text of a step, as the length tells; or two inputs of one hash are given |
| Merkle.ExplainedProofAccepted | crypto_utils/CryptoUtils.ts:220-235 | and all those answers are accepted |
| Merkle.FullProofBinds | crypto_utils/CryptoUtils.ts:196-235 | at a leaf's index an accepted proof of the tree's depth is the one read from the tree, with the leaf's data; or two inputs of one hash are given |
| Merkle.RootTextAccepted | crypto_utils/CryptoUtils.ts:220-235 | with two leaves or more, the two digests below the root are accepted at every index without siblings |
| Merkle.EqualRootsBind | crypto_utils/CryptoUtils.ts:172-191 | equally long layers under one root are equal, or two inputs of one hash are given |
| Merkle.EqualRootsBindLeaves | crypto_utils/CryptoUtils.ts:172-191 | equally long lists of leaves under one root are equal, or two inputs of one hash are given |
| Merkle.OddTailIsAmbiguous | crypto_utils/CryptoUtils.ts:180-184 | an odd layer of three or more and the same with its last node doubled have one root |
| ProofOfStorage.HonestHostPassesAudit | peer_handlers/sync_engine/SyncEngine.ts:392-421 | for every non-empty file, 0 < K ≤ N, shard, cutting of the stream and challenge, the auditor's index is in range and the host's reply verifies against the recorded root |
| ProofOfStorage.PassingReplyIsExplained | peer_handlers/global_auditor/GlobalAuditor.ts:296-310 | a passing reply is of one of the three kinds above for the stored chunks, or two inputs of one hash are given |
| ProofOfStorage.ExplainedReplyPasses | peer_handlers/global_auditor/GlobalAuditor.ts:296-310 | and every such reply with data passes |
| ProofOfStorage.PassingReplyIsHonest | route_handlers/upload_handler/UploadHandler.ts:205-212 | a passing reply is the honest one if and only if its proof has the tree's depth, or two inputs of one hash are given |
| ProofOfStorage.TwoDigestsPassEveryAudit | peer_handlers/global_auditor/GlobalAuditor.ts:296-310 | for a shard of two chunks or more a reply of two digests and no siblings passes every challenge, and is not the honest one |
| ProofOfStorage.HonestReplyPasses | peer_handlers/sync_engine/SyncEngine.ts:456-488 | the same for any index below the host's number of chunks, as the uploader draws it |
| ProofOfStorage.ChunkCountsAgree | peer_handlers/global_auditor/GlobalAuditor.ts:184-195 | the auditor's number of chunks, from the contract alone, is the host's |
| ProofOfStorage.TargetOf | peer_handlers/global_auditor/GlobalAuditor.ts:193-195 | a challenge asks for chunk k if and only if the number in its first eight digits is k plus a multiple of the chunk count |
| ProofOfStorage.EveryChunkIsATarget | peer_handlers/global_auditor/GlobalAuditor.ts:193-195 | every chunk below 16^8 is asked for by some challenge, and none above |
| ProofOfStorage.ChunkStream | peer_handlers/sync_engine/SyncEngine.ts:392-410 | however the stream is cut, the chunks are the bundler's |
| ProofOfStorage.ChunksFlatten | bundler/Bundler.ts:306-318 | the chunks put together are the data |
| ProofOfStorage.ChunkAt | bundler/Bundler.ts:311-315 | chunk k is what stands from k times 64 KB on, up to 64 KB |
| ProofOfStorage.ChunkShard | bundler/Bundler.ts:306-318 | the bundler's 64 KB chunks |
| ProofOfStorage.StreamChunker.OnData | peer_handlers/sync_engine/SyncEngine.ts:396-402 | after each piece the full chunks of all data received so far are emitted and the rest is held |
| ProofOfStorage.StreamChunker.Flush | peer_handlers/sync_engine/SyncEngine.ts:404-406 | at the end the rest is emitted |
| ProofOfStorage.AnswerChallenge | peer_handlers/sync_engine/SyncEngine.ts:392-421 | the host's reply, and the refusal of an index out of range |
| ProofOfStorage.EncodeErasureShards | bundler/Bundler.ts:23-54 | N shards of one size, the data shards cut from the padded buffer; errors as the source |
| ProofOfStorage.DataShardsHoldTheFile | bundler/Bundler.ts:31-54 | every byte of the file is at its place in a data shard |
| ProofOfStorage.StreamPreEncryptedErasureBundle | bundler/Bundler.ts:296-318 | per shard the Merkle root over its chunks |
| AuditorElection.ExactlyOneAuditor | peer_handlers/global_auditor/GlobalAuditor.ts:98-124 | among fully connected nodes with distinct id hashes, whatever the challenge and peer orders, exactly one elects itself |
| AuditorElection.ComputeDeterministicAuditor | peer_handlers/global_auditor/GlobalAuditor.ts:98-124 | true if and only if no peer's id is nearer |
| AuditorElection.ComputeXORDistance | peer_handlers/global_auditor/GlobalAuditor.ts:70-78 | the digit-wise distance |
| AuditorElection.DistanceInjective | peer_handlers/global_auditor/GlobalAuditor.ts:70-78 | different hashes are at different distances from a challenge |
| AuditorElection.XorBits | peer_handlers/global_auditor/GlobalAuditor.ts:75-75 | a bit of the result is set if and only if the two numbers differ in it |
| AuditorElection.DistanceBits | peer_handlers/global_auditor/GlobalAuditor.ts:70-78 | digit by digit and bit by bit the distance shows where two hashes differ |
| AuditorElection.ZeroDistance | peer_handlers/global_auditor/GlobalAuditor.ts:70-78 | only the challenge itself is at distance zero |
| AuditorElection.LongerPrefixIsNearer | peer_handlers/global_auditor/GlobalAuditor.ts:70-88 | a hash that shares a longer prefix with the challenge is nearer |
| AuditorElection.LongestPrefixWins | peer_handlers/global_auditor/GlobalAuditor.ts:98-124 | so a node that shares a prefix which no peer shares elects itself, and no peer that lists it does |
| AuditorElection.XorInvolution | peer_handlers/global_auditor/GlobalAuditor.ts:75-75 | xor twice gives the number back |
| AuditorElection.IsSmallerDistance | peer_handlers/global_auditor/GlobalAuditor.ts:80-88 | the comparison of distances |
| AuditorElection.SmallerIsNumeric | peer_handlers/global_auditor/GlobalAuditor.ts:80-88 | which for equal lengths is that of the numbers they denote |
| AuditorElection.ValueInjective | peer_handlers/global_auditor/GlobalAuditor.ts:80-88 | equally long hex texts of one value are equal |
| CanonicalText.PayloadRoundTrip | crypto_utils/EIP712Types.ts:225-265 | for every block type, hydrating a serialised payload whose listed amounts are BigInts gives it back |
| PayloadFields.StrictHydration | crypto_utils/EIP712Types.ts:216-223 | BigInts stay, decimal text becomes the BigInt it denotes, numbers and null are refused |
| PayloadFields.TransactionHydrates | crypto_utils/EIP712Types.ts:244-246 | exactly `amount` is hydrated, which fails if and only if it cannot be read; the other properties and their order stay |
| PayloadFields.StakingHydrates | crypto_utils/EIP712Types.ts:247-250 | the same for `collateralAmount` and `minEpochTimelineDays` |
| PayloadFields.SlashingHydrates | crypto_utils/EIP712Types.ts:251-253 | the same for `burntAmount` |
| PayloadFields.RegistrationHydrates | crypto_utils/EIP712Types.ts:254-256 | the same for `stakeAmount` |
| PayloadFields.CheckpointHydrates | crypto_utils/EIP712Types.ts:257-259 | the same for `epochIndex` |
| PayloadFields.RenewalHydrates | crypto_utils/EIP712Types.ts:260-264 | the same for `additionalEscrow` and `additionalBlocks` |
| PayloadFields.ContractHydrates | crypto_utils/EIP712Types.ts:226-243 | for storage contracts: five amounts, `n`, `k` and `originalSize` of the erasure parameters, `shardIndex` of each fragment, and nothing else |
| PayloadFields.ContractReads | crypto_utils/EIP712Types.ts:226-243 | which fails if and only if one of these cannot be read |
| PayloadFields.TransactionSigns | crypto_utils/EIP712Types.ts:185-187 | exactly `amount` is signed as text, zero or nothing as "0", and the other properties as on the wire |
| PayloadFields.StakingSigns | crypto_utils/EIP712Types.ts:189-192 | the same for `collateralAmount` and `minEpochTimelineDays` |
| PayloadFields.SlashingSigns | crypto_utils/EIP712Types.ts:194-196 | the same for `burntAmount` |
| PayloadFields.RenewalSigns | crypto_utils/EIP712Types.ts:198-201 | the same for `additionalEscrow` and `additionalBlocks` |
| PayloadFields.OthersSign | crypto_utils/EIP712Types.ts:203-210 | registrations and checkpoints are signed as on the wire |
| PayloadFields.ContractSigns | crypto_utils/EIP712Types.ts:165-182 | what is signed of each property of a storage contract: five amounts as text, five texts, two lists, owner, erasure parameters and fragments with their defaults, and the others as on the wire |
| CanonicalText.RenewalTextHydrates | crypto_utils/EIP712Types.ts:260-264 | a renewal, whose type declares its amounts as text, hydrates to BigInts that print as they were written |
| CanonicalText.StoredBlockHydrates | ledger/Ledger.ts:128-130 | a stored block loads with its _id in front and hydrates to itself |
| CanonicalText.StoredBlockKeepsHashText | ledger/Ledger.ts:195-204 | so the text that isChainValid hashes is the text that was hashed before storing |
| CanonicalText.WireKeepsHashText | peer_handlers/sync_engine/SyncEngine.ts:602-608 | the hashed text is the same over the wire before hydration |
| CanonicalText.HashTextTells | peer_handlers/sync_engine/SyncEngine.ts:602-608 | two blocks are hashed from one text if and only if they are equal on the wire but for hash and _id |
| CanonicalText.HydrationKeepsCanonicalText | crypto_utils/EIP712Types.ts:216-223 | hydrating any text that BigInt accepts, with space, sign or prefix or none, keeps the hashed text if and only if it is a canonical decimal |
| CanonicalText.SignedViewSurvivesWire | crypto_utils/EIP712Types.ts:158-211 | the normalised signed view is the same before and after the wire where no zero BigInt meets a default |
| CanonicalText.TypedViewSurvivesWire | crypto_utils/EIP712Types.ts:158-211 | which is so for every payload with BigInts in the listed amounts and nowhere else |
| CanonicalText.NormalisingKeepsPayload | crypto_utils/EIP712Types.ts:163-180 | normalising leaves the caller's payload alone if and only if no fragment lacks its physical id |
| CanonicalText.NormalisingKeepsDoc | crypto_utils/EIP712Types.ts:158-180 | and the hashed document if and only if it has a previous hash besides |
| CanonicalText.BlockObject.HydrateBlockBigInts | crypto_utils/EIP712Types.ts:225-265 | the payload hydrated in place, or the exception |
| CanonicalText.BlockObject.NormalizeBlockForSignature | crypto_utils/EIP712Types.ts:158-211 | the signed payload, and what stays changed in the argument |
| Json.ParsePrint | crypto_utils/EIP712Types.ts:216-223 | parsing the decimal text of an integer gives the integer |
| Json.TextSurvivesWire | ledger/Ledger.ts:128-129 | serialising BigInts to text does not change the serialised text |
| JsonText.TextTellsWireForm | ledger/Ledger.ts:128-129 | two values have one text if and only if they are equal on the wire |
| JsonText.QuoteIsLiteral | ledger/Ledger.ts:128-129 | string literals as JSON.stringify writes them say where they end and what they stand for |
| Gossip.FloodTerminates | p2p/lib/Peer.js:778-808 | in a network of bounded degree, deliveries made and messages in flight never exceed the cost of the first messages, so a flood ends |
| Gossip.HopsAreBounded | p2p/lib/Peer.js:784-790 | a message that starts with a broadcast travels at most 19 links, one that was first sent on a connection at most 20 |
| Gossip.BidsTravelTwentyHops | peer_handlers/sync_engine/SyncEngine.ts:263-270 | and some bid travels 20 |
| Gossip.FilterApproximatesSeenSet | p2p/lib/Peer.js:693-706 | in every run the cache holds at most 5000 ids, a suffix of the insertion history of at least 4501 or all of it, and an id passes again only after 4501 others |
| Gossip.Peer.OnClientMessage | p2p/lib/Peer.js:693-706 | a message passes if it has no id or a new one, which is then remembered |
| Gossip.Peer.Broadcast | p2p/lib/Peer.js:778-808 | the ttl falls by one and the message goes to all trusted peers unless it is spent |

## Left out

- Agreement between nodes: a node may vote for several forks on one tip, and the committed hash is never compared with the adopted final tip hash; the results are about one node.
- Forks of several blocks: the code's own proposals carry one; a missing or stored block in the middle would shift the others.
- Checkpoints: their formation and `buildStateRoot` are not part of this model, and the commit machine has no checkpoint blocks, since pruning between commits breaks gaplessness as shown.
- ChainSafety.InterleavedCommitsAreSafe: does not cover runs with checkpoint pruning, restarts, purges or a sync beside the commits.
- ChainSafety.ConfirmingMessageDecides: is about messages that name one block, and puts one run together, in which the adoptions come first and no other handler changes the mempool between; ChainSafety.AddingForkClears, ChainSafety.RefusedForkClears and ChainSafety.FoundForkClears are about any state. The `settled` events are not modelled.
- Quorum.StepKeepsInv: voters are checked against the validators at the moment they are counted; the database answer a moment earlier is not told apart.
- Readiness.CommitsExactlyWhenReady: says nothing of how long a commit takes or whether the messages that would complete a majority arrive.
- Bft.BftCoordinator.AddToChain: a checkpoint's pruning and formation after the insert are left out.
- Bft.BftCoordinator.CheckAndProposeFork: the timer it sets and the messages it broadcasts are left out.
- Bft.BftCoordinator.HandleProposeFork: messages that name several blocks are left out.
- InitialSync.SyncEngine.PerformInitialSync: the replay of stored messages at its end is left out; the handlers take them as new messages.
- Wallet.WalletManager.DeductEgressEscrow: the stored block in the chain, which it rewrites as well, belongs to another model.
- CanonicalText.BlockObject.HydrateBlockBigInts: what is already hydrated inside a nested object when a later property throws is not stated.
- CanonicalText.PayloadRoundTrip: for renewals it is about payloads that already hold BigInts; for declared text see CanonicalText.RenewalTextHydrates.
- Ledger.EpochFreezesCount: is about a chain grown without restart or purge, both of which refresh or leave the cache at other moments.
- InitialSync.SyncOnlyExtends: no commit runs beside the sync; claimed heights are integers printed in full, and a subscriber that throws is not modelled.
- Which messages the handlers broadcast, and the timers that call them, are left out; steps come from outside in any order.
- Detached entries: a handler that still holds an entry which has left the mempool changes something nobody reads; the model lets such a step do nothing or act on a new entry of the same id.
- The effect of `deductEgressEscrow` on the stored contract block inside the hash chain: accounting and chain are separate models.
- Unstake refunds and the application of CONTRACT_RENEWAL: the code does not implement them.
- Rewards, decay, pricing and other floating-point arithmetic; the ceilings of chunk counts are those of exact division, as they are for sizes below 2^53.
- Signatures, encryption, SHA-256 and Reed-Solomon themselves: library calls; parity is an arbitrary function.
- MongoDB, WebSockets, HTTP, storage providers, logging and credentials: collections are sequences and maps, streams are sequences of pieces.
- Address checksums and normalisation: addresses are taken as normalised.
- The printing and parsing of JSON by the library: values are trees, and only BigInt, text and structure matter; numbers are integers, and base64 is left out.
- ProofOfStorage.EncodeErasureShards: the parity bytes are whatever the library computes.
- Admission checks other than the funds, fee and stake of storage contracts; reputation, the bid market, the spam tracker and message classes.
- The whole user interface.
