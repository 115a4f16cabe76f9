/** peer_handlers/bft_coordinator/BftCoordinator.ts: the coordinator's handlers, cut at their
    awaits, working in place on the mempool and the ledger. Each is one step of the machine in
    Consensus. */
module Bft {
  import opened Wrappers
  import opened L = Ledger
  import opened Consensus
  import Proposal

  lemma {:induction false} VotesCounted(c: Node, agrees: bool, fork: Fork, sender: string)
    ensures Voted(c, agrees, fork, sender) ==
            if c.self in fork.proposals + {sender} || !agrees then fork.proposals + {sender}
            else fork.proposals + {sender} + {c.self}
  {
    var counted := fork.proposals + {sender};
    assert counted + {} == counted;
    assert c.self in counted ==> counted + {c.self} == counted;
  }

  /** The refresh of the cached count at the start of an epoch. */
  function AfterInsert(s: State, block: Block): State {
    if block.Index() % EPOCH_LENGTH == 0 then SyncCount(s) else s
  }

  lemma {:induction false} InsertCases(s: State, f: string, block: Block)
    requires Committing(s.mempool, f) && block == s.mempool.forks[f].computed.value
    ensures InsertOne(s.db, block).None? ==> Insert(s, f) == Finish(s, f)
    ensures InsertOne(s.db, block).Some? ==>
              Insert(s, f) == s.(db := InsertOne(s.db, block).value, tasks := s.tasks[f := Announcing],
                log := s.log + [Commit(f, block, s.mempool.forks[f].proposals, s.mempool.settled[f].adoptions)])
  {
  }

  lemma {:induction false} ProposalCases(c: Node, m: Mempool, v: Electorate, f: string, b: string,
      sender: string)
    ensures var fork := ForkEntry(m, f, b);
            var votes := Voted(c, b in m.pendings, fork, sender);
            var confirmed := |votes| >= Majority(v) && !fork.adopted;
            if !Accepts(c, v, sender) || sender in fork.proposals then
              Propose(c, m, v, f, b, sender).forks == m.forks[f := fork] && !Confirms(c, m, v, f, b, sender)
            else
              && Propose(c, m, v, f, b, sender).forks
                 == m.forks[f := fork.(proposals := votes, adopted := fork.adopted || confirmed)]
              && Confirms(c, m, v, f, b, sender) == confirmed
  {
  }

  lemma {:induction false} AdoptionCases(c: Node, m: Mempool, v: Electorate, f: string, tip: string, sender: string)
    ensures var entry := SettledEntry(m, f, tip);
            var voted := entry.(adoptions := entry.adoptions + {sender}, majorities := entry.majorities
                + [Majority(v)]);
            var settles := |voted.adoptions| >= Majority(v) && !entry.committed;
            if entry.finalTipHash != tip || !Accepts(c, v, sender) || sender in entry.adoptions then
              Adopt(c, m, v, f, tip, sender).settled == m.settled[f := entry] && !Settles(c, m, v, f, tip, sender)
            else
              && Adopt(c, m, v, f, tip, sender).settled
                 == m.settled[f := voted.(pendingCommit := entry.pendingCommit || (settles && !Computed(m, f)))]
              && Settles(c, m, v, f, tip, sender) == settles
  {
  }

  datatype Shelved = ShelvedProposal(forkId: string, blockId: string, proposerId: string)
    | ShelvedAdoption(forkId: string, finalTipHash: string, adopterId: string)

  /** Some stored block's hash starts with the tip that a fork id names. */
  predicate KnownTip(f: string, db: seq<Block>) {
    var tip := TipConstraint(f).GetOr("");
    exists k :: 0 <= k < |db| && tip <= db[k].hash
  }

  class BftCoordinator {
    const myAddress: string
    const walletAddress: string
    const hasPeer: bool
    const fill: Content -> string
    const ledger: Ledger

    // The mempool; the pending blocks are a map that keeps the order in which they were added.
    var pendingBlocks: map<string, Pending>
    var pendingOrder: seq<string>
    var eligibleForks: map<string, Fork>
    var settledForks: map<string, Settled>
    var orphanedVerifications: map<string, seq<string>>
    var failedBlocks: map<string, Pending>

    // Messages put off until a sync is over.
    var shelf: seq<Shelved>

    // Where suspended handlers stand.
    var replays: map<string, seq<string>>
    var signing: map<string, nat>
    var tasks: map<string, Task>

    // History, for the proofs only.
    ghost var counts: set<nat>
    ghost var log: seq<Commit>

    function Config(): Node {
      Node(myAddress, walletAddress, hasPeer, ledger.digest, fill)
    }

    ghost function Voters(): Electorate
      reads ledger
    {
      Electorate(ledger.activeValidators, ledger.activeValidatorCountCache)
    }

    ghost function Memory(): Mempool
      reads this
    {
      Mempool(pendingBlocks, pendingOrder, eligibleForks, settledForks, orphanedVerifications, failedBlocks)
    }

    ghost function Model(): State
      reads this, ledger
    {
      State(Memory(), replays, signing, tasks, Voters(), counts, ledger.collection, log)
    }

    constructor (myAddress: string, walletAddress: string, hasPeer: bool, fill: Content -> string, ledger: Ledger)
      ensures this.myAddress == myAddress && this.walletAddress == walletAddress
      ensures this.hasPeer == hasPeer && this.fill == fill && this.ledger == ledger
      ensures Model() == Start(ledger.collection, Voters()) && shelf == []
    {
      this.myAddress := myAddress;
      this.walletAddress := walletAddress;
      this.hasPeer := hasPeer;
      this.fill := fill;
      this.ledger := ledger;
      pendingBlocks := map[];
      pendingOrder := [];
      eligibleForks := map[];
      settledForks := map[];
      orphanedVerifications := map[];
      failedBlocks := map[];
      replays := map[];
      signing := map[];
      tasks := map[];
      counts := {ledger.activeValidatorCountCache};
      shelf := [];
      log := [];
    }

    function GetMajorityCount(): nat
      reads ledger
    {
      MajorityCount(ledger.activeValidatorCountCache)
    }

    /** The check every handler makes of its sender. */
    predicate IsVoter(sender: string)
      reads ledger
    {
      sender == myAddress || ledger.activeValidatorCountCache == 0 || sender in ledger.activeValidators
    }

    // ---------- Blocks and verifications ----------

    /** The end of admission into pendingBlocks. */
    method AdmitBlock(received: Content, originalTimestamp: int) returns (isNewBlock: bool)
      modifies this`pendingBlocks, this`pendingOrder
      ensures Model() == Next(Config(), old(Model()), ArriveStep(received, originalTimestamp))
      ensures isNewBlock == (ledger.digest(received) !in old(pendingBlocks))
    {
      var blockId := ledger.digest(received);
      var block := Verified(Config(), received);
      isNewBlock := false;
      if blockId !in pendingBlocks {
        pendingBlocks := pendingBlocks[blockId := Pending(block, received, originalTimestamp, {}, false, 0, 0)];
        pendingOrder := pendingOrder + [blockId];
        isNewBlock := true;
      }
    }

    method DeletePending(blockId: string)
      modifies this`pendingBlocks, this`pendingOrder
      ensures Memory() == DropPending(old(Memory()), blockId)
    {
      pendingBlocks := pendingBlocks - {blockId};
      pendingOrder := Without(pendingOrder, blockId);
    }

    method CheckEligible(blockId: string, majority: nat)
      requires blockId in pendingBlocks
      modifies this`pendingBlocks
      ensures pendingBlocks == old(pendingBlocks)[blockId := Judged(majority, old(pendingBlocks[blockId]))]
    {
      var entry := pendingBlocks[blockId];
      if |entry.verifications| >= majority && !entry.eligible {
        pendingBlocks := pendingBlocks[blockId := entry.(eligible := true)];
      }
    }

    /** handleVerifyBlock, up to the wait for the node's own signature if there is one. */
    method HandleVerifyBlock(blockId: string, verifierId: string)
      requires Enabled(Model(), VerifyStep(blockId, verifierId))
      modifies this
      ensures Model() == Next(Config(), old(Model()), VerifyStep(blockId, verifierId))
    {
      if blockId == "" {
        return;
      }
      if blockId !in pendingBlocks {
        if blockId !in orphanedVerifications {
          orphanedVerifications := orphanedVerifications[blockId := []];
        }
        orphanedVerifications := orphanedVerifications[blockId := orphanedVerifications[blockId] + [verifierId]];
        return;
      }
      var pendingEntry := pendingBlocks[blockId];
      if !IsVoter(verifierId) {
        return;
      }
      if verifierId in pendingEntry.verifications {
        return;
      }
      pendingEntry := pendingEntry.(verifications := pendingEntry.verifications + {verifierId});
      pendingBlocks := pendingBlocks[blockId := pendingEntry];
      var majority := GetMajorityCount();
      if verifierId != myAddress && myAddress !in pendingEntry.verifications {
        signing := signing[blockId := majority];
        return;
      }
      CheckEligible(blockId, majority);
    }

    /** The rest of handleVerifyBlock, once the own signature is made. */
    method AddOwnVerification(blockId: string)
      requires Enabled(Model(), SelfSignedStep(blockId))
      modifies this
      ensures Model() == Next(Config(), old(Model()), SelfSignedStep(blockId))
    {
      var majority := signing[blockId];
      signing := signing - {blockId};
      if blockId in pendingBlocks {
        var entry := pendingBlocks[blockId];
        pendingBlocks := pendingBlocks[blockId := entry.(verifications := entry.verifications + {myAddress})];
        CheckEligible(blockId, majority);
      }
    }

    /** The orphans leave the mempool before they are replayed. */
    method TakeOrphans(blockId: string)
      modifies this
      ensures Model() == Next(Config(), old(Model()), TakeOrphansStep(blockId))
    {
      if blockId in orphanedVerifications {
        var orphans := orphanedVerifications[blockId];
        orphanedVerifications := orphanedVerifications - {blockId};
        var waiting := if blockId in replays then replays[blockId] else [];
        replays := replays[blockId := waiting + orphans];
      }
    }

    method ReplayOrphan(blockId: string)
      requires Enabled(Model(), ReplayStep(blockId))
      modifies this
      ensures Model() == Next(Config(), old(Model()), ReplayStep(blockId))
    {
      var orphan := replays[blockId][0];
      replays := replays[blockId := replays[blockId][1..]];
      HandleVerifyBlock(blockId, orphan);
    }

    // ---------- Proposals ----------

    /** The block and fork id that _checkAndProposeFork hands to handleProposeFork and broadcasts. */
    method CheckAndProposeFork(sha256: string -> string, syncing: bool)
        returns (proposal: Option<string>, forkId: string)
      requires Ascending(ledger.collection) && Listed(Memory())
      ensures proposal.None? ==>
                syncing || Proposal.Eligible(Memory()) == {} || (forkId in eligibleForks
                    && eligibleForks[forkId].adopted)
      ensures proposal.Some? ==>
                && !syncing
                && Proposal.IsFirst(Proposal.Times(Memory()), Proposal.Eligible(Memory()), proposal.value)
                && forkId == Proposal.ForkId(sha256, proposal.value, TipHash(ledger.collection))
                && !(forkId in eligibleForks && eligibleForks[forkId].adopted)
    {
      forkId := "";
      if syncing {
        return None, forkId;
      }
      var memory := Mempool(pendingBlocks, pendingOrder, eligibleForks, settledForks, orphanedVerifications,
          failedBlocks);
      proposal := Proposal.ChooseBlock(memory);
      if proposal.None? {
        return;
      }
      var latestBlock := ledger.GetLatestBlock();
      var previousHash := if latestBlock.Some? then latestBlock.value.hash else NO_HASH;
      forkId := Proposal.ForkId(sha256, proposal.value, previousHash);
      if forkId in eligibleForks && eligibleForks[forkId].adopted {
        proposal := None;
      }
    }

    /** At the majority the fork is adopted, and its block is computed next. */
    method RecordProposals(forkId: string, forkEntry: Fork, proposals: set<string>, blockId: string)
      modifies this`eligibleForks, this`tasks
      ensures var confirmed := |proposals| >= Majority(Voters()) && !forkEntry.adopted;
              && eligibleForks == old(eligibleForks)[forkId :=
                   forkEntry.(proposals := proposals, adopted := forkEntry.adopted || confirmed)]
              && tasks == if confirmed then old(tasks)[forkId := Computing(blockId)] else old(tasks)
    {
      if |proposals| >= GetMajorityCount() && !forkEntry.adopted {
        eligibleForks := eligibleForks[forkId := forkEntry.(proposals := proposals, adopted := true)];
        tasks := tasks[forkId := Computing(blockId)];
      } else {
        eligibleForks := eligibleForks[forkId := forkEntry.(proposals := proposals)];
      }
    }

    /** The proposer's vote, and the node's own if it agrees. */
    method CastVotes(forkEntry: Fork, blockId: string, proposerId: string) returns (proposals: set<string>)
      ensures proposals == Voted(Config(), blockId in pendingBlocks, forkEntry, proposerId)
    {
      VotesCounted(Config(), blockId in pendingBlocks, forkEntry, proposerId);
      proposals := forkEntry.proposals + {proposerId};
      if myAddress !in proposals {
        var agree := blockId in pendingBlocks;
        if agree {
          proposals := proposals + {myAddress};
        }
      }
    }

    method CountProposal(forkId: string, blockId: string, proposerId: string)
      modifies this`eligibleForks, this`tasks
      ensures eligibleForks == Propose(Config(), old(Memory()), Voters(), forkId, blockId, proposerId).forks
      ensures tasks == if Confirms(Config(), old(Memory()), Voters(), forkId, blockId, proposerId)
                       then old(tasks)[forkId := Computing(blockId)] else old(tasks)
    {
      ProposalCases(Config(), Memory(), Voters(), forkId, blockId, proposerId);
      var entry := if forkId in eligibleForks then eligibleForks[forkId] else Fork(blockId, {}, false, None);
      if !IsVoter(proposerId) || proposerId in entry.proposals {
        eligibleForks := eligibleForks[forkId := entry];
        return;
      }
      var proposals := CastVotes(entry, blockId, proposerId);
      RecordProposals(forkId, entry, proposals, blockId);
    }

    /** handleProposeFork, up to the computation of the block if the majority is complete. During a
        sync, and on a tip not heard of, the message is put off; the latter starts a sync. */
    method HandleProposeFork(forkId: string, blockId: string, proposerId: string, seen: nat, syncing: bool,
        retryCount: nat)
        returns (startSync: bool)
      requires Enabled(Model(), ProposeStep(forkId, blockId, proposerId, seen))
      modifies this`eligibleForks, this`tasks, this`shelf
      ensures Model() == if syncing then old(Model())
                         else Next(Config(), old(Model()), ProposeStep(forkId, blockId, proposerId, seen))
      ensures startSync <==> !syncing && !TipAllows(forkId, ledger.collection[..seen])
                             && !KnownTip(forkId, ledger.collection)
                             && !(forkId in eligibleForks && eligibleForks[forkId].adopted) && retryCount < 3
      ensures shelf == old(shelf) + if syncing || startSync then [ShelvedProposal(forkId, blockId, proposerId)] else []
    {
      startSync := false;
      if syncing {
        shelf := shelf + [ShelvedProposal(forkId, blockId, proposerId)];
        return;
      }
      if !TipAllows(forkId, ledger.collection[..seen]) {
        if KnownTip(forkId, ledger.collection) || (forkId in eligibleForks && eligibleForks[forkId].adopted) {
          return;
        }
        if retryCount < 3 {
          shelf := shelf + [ShelvedProposal(forkId, blockId, proposerId)];
          startSync := true;
        }
        return;
      }
      CountProposal(forkId, blockId, proposerId);
    }

    /** The rest of handleProposeFork, on the tip that was read. */
    method ComputeBlocks(forkId: string, seen: nat, now: int)
      requires Enabled(Model(), ComputeStep(forkId, seen, now))
      modifies this`eligibleForks, this`tasks
      ensures Model() == Next(Config(), old(Model()), ComputeStep(forkId, seen, now))
    {
      var blockId := tasks[forkId].blockId;
      var forkEntry := eligibleForks[forkId];
      if blockId !in pendingBlocks {
        eligibleForks := eligibleForks[forkId := forkEntry.(adopted := false, computed := None)];
        tasks := tasks - {forkId};
        return;
      }
      var newBlock := MakeBlock(Config(), pendingBlocks[blockId], ledger.collection[..seen], now);
      eligibleForks := eligibleForks[forkId := forkEntry.(computed := Some(newBlock))];
      if forkId in settledForks && settledForks[forkId].pendingCommit && !settledForks[forkId].committed {
        tasks := tasks[forkId := ReadingTip];
      } else {
        tasks := tasks - {forkId};
      }
    }

    // ---------- Adoptions ----------

    method CountAdoption(forkId: string, finalTipHash: string, adopterId: string)
      modifies this`settledForks, this`tasks
      ensures settledForks == Adopt(Config(), old(Memory()), Voters(), forkId, finalTipHash, adopterId).settled
      ensures tasks == if Settles(Config(), old(Memory()), Voters(), forkId, finalTipHash, adopterId)
                          && Computed(old(Memory()), forkId)
                       then old(tasks)[forkId := ReadingTip] else old(tasks)
    {
      AdoptionCases(Config(), Memory(), Voters(), forkId, finalTipHash, adopterId);
      var settledEntry := if forkId in settledForks then settledForks[forkId] else Settled(finalTipHash, {}, false,
          false, []);
      if settledEntry.finalTipHash != finalTipHash || !IsVoter(adopterId) || adopterId in settledEntry.adoptions {
        settledForks := settledForks[forkId := settledEntry];
        return;
      }
      settledEntry := settledEntry.(adoptions := settledEntry.adoptions + {adopterId},
                                     majorities := settledEntry.majorities + [GetMajorityCount()]);
      if |settledEntry.adoptions| >= GetMajorityCount() && !settledEntry.committed {
        if forkId in eligibleForks && eligibleForks[forkId].computed.Some? {
          tasks := tasks[forkId := ReadingTip];
        } else {
          settledEntry := settledEntry.(pendingCommit := true);
        }
      }
      settledForks := settledForks[forkId := settledEntry];
    }

    method HandleAdoptFork(forkId: string, finalTipHash: string, adopterId: string, seen: nat, syncing: bool,
        retryCount: nat) returns (startSync: bool)
      requires Enabled(Model(), AdoptStep(forkId, finalTipHash, adopterId, seen))
      modifies this`settledForks, this`tasks, this`shelf
      ensures Model() == if syncing then old(Model())
                         else Next(Config(), old(Model()), AdoptStep(forkId, finalTipHash, adopterId, seen))
      ensures startSync <==> !syncing && !TipAllows(forkId, ledger.collection[..seen])
                             && !KnownTip(forkId, ledger.collection)
                             && !(forkId in settledForks && settledForks[forkId].finalTipHash == finalTipHash)
                             && retryCount < 3
      ensures shelf == old(shelf) + if syncing || startSync then [ShelvedAdoption(forkId, finalTipHash,
          adopterId)] else []
    {
      startSync := false;
      if syncing {
        shelf := shelf + [ShelvedAdoption(forkId, finalTipHash, adopterId)];
        return;
      }
      if !TipAllows(forkId, ledger.collection[..seen]) {
        if KnownTip(forkId, ledger.collection)
           || (forkId in settledForks && settledForks[forkId].finalTipHash == finalTipHash) {
          return;
        }
        if retryCount < 3 {
          shelf := shelf + [ShelvedAdoption(forkId, finalTipHash, adopterId)];
          startSync := true;
        }
        return;
      }
      CountAdoption(forkId, finalTipHash, adopterId);
    }

    // ---------- _commitFork ----------

    method ForgetFork(forkId: string)
      modifies this`eligibleForks, this`settledForks, this`tasks
      ensures eligibleForks == old(eligibleForks) - {forkId}
      ensures settledForks == old(settledForks) - {forkId}
      ensures tasks == old(tasks) - {forkId}
    {
      eligibleForks := eligibleForks - {forkId};
      settledForks := settledForks - {forkId};
      tasks := tasks - {forkId};
    }

    method ForgetForkAndBlock(forkId: string)
      requires forkId in eligibleForks
      modifies this`eligibleForks, this`settledForks, this`tasks, this`pendingBlocks, this`pendingOrder
      ensures Model() == Finish(old(Model()), forkId)
    {
      var bId := eligibleForks[forkId].blockId;
      DeletePending(bId);
      ForgetFork(forkId);
    }

    method ReadTip(forkId: string)
      requires Enabled(Model(), ReadTipStep(forkId)) && Ascending(ledger.collection)
      modifies this`tasks
      ensures Model() == Next(Config(), old(Model()), ReadTipStep(forkId))
    {
      var latestBlock := ledger.GetLatestBlock();
      var lastHash := if latestBlock.Some? then latestBlock.value.hash else NO_HASH;
      tasks := tasks[forkId := ComparingTip(lastHash)];
    }

    method CompareWithTip(forkId: string)
      requires Enabled(Model(), CompareTipStep(forkId))
      modifies this
      ensures Model() == Next(Config(), old(Model()), CompareTipStep(forkId))
    {
      var computed := eligibleForks[forkId].computed.value;
      if computed.content.previousHash != Some(tasks[forkId].lastHash) {
        ForgetFork(forkId);
        return;
      }
      settledForks := settledForks[forkId := settledForks[forkId].(committed := true)];
      tasks := tasks[forkId := ReadingSignature];
    }

    method LookUpSignature(forkId: string)
      requires Enabled(Model(), ReadSignatureStep(forkId))
      modifies this`pendingBlocks, this`pendingOrder, this`tasks
      ensures Model() == Next(Config(), old(Model()), ReadSignatureStep(forkId))
    {
      var block := eligibleForks[forkId].computed.value;
      var n := |ledger.collection|;
      for k := 0 to n
        invariant Model() == old(Model())
        invariant forall i :: 0 <= i < k ==> ledger.collection[i].content.signature != block.content.signature
      {
        if ledger.collection[k].content.signature == block.content.signature {
          DeletePending(ledger.digest(block.content));
          tasks := tasks[forkId := Finishing];
          return;
        }
      }
      tasks := tasks[forkId := Inserting(n)];
    }

    method Append(block: Block) returns (ok: bool)
      requires Ascending(ledger.collection)
      modifies ledger
      ensures Ascending(ledger.collection)
      ensures ok == InsertOne(old(ledger.collection), block).Some?
      ensures ledger.collection == InsertOne(old(ledger.collection), block).GetOr(old(ledger.collection))
      ensures !ok ==> Voters() == old(Voters())
      ensures ok ==> ledger.activeValidatorCountCache ==
                     if block.Index() % EPOCH_LENGTH == 0 then |old(ledger.activeValidators)|
                     else old(ledger.activeValidatorCountCache)
    {
      ok := ledger.AddBlockToChain(block);
    }

    /** Adding a block refreshes the cached count at epoch starts and then runs the ledger's
        subscribers, which may change the validators; false is the insert error, after the catch
        clause. */
    method AddToChain(forkId: string) returns (ok: bool)
      requires Enabled(Model(), InsertStep(forkId)) && Ascending(ledger.collection)
      modifies this, ledger
      ensures Ascending(ledger.collection)
      ensures !ok ==> Model() == Next(Config(), old(Model()), InsertStep(forkId))
      ensures ok ==> Model() == SetValidators(
                AfterInsert(Next(Config(), old(Model()), InsertStep(forkId)),
                    old(Memory()).forks[forkId].computed.value),
                ledger.activeValidators)
    {
      var forkEntry := eligibleForks[forkId];
      var block := forkEntry.computed.value;
      InsertCases(Model(), forkId, block);
      ghost var count := |ledger.activeValidators|;
      ok := Append(block);
      if ok {
        log := log + [Commit(forkId, block, forkEntry.proposals, settledForks[forkId].adoptions)];
        counts := if block.Index() % EPOCH_LENGTH == 0 then counts + {count} else counts;
        tasks := tasks[forkId := Announcing];
      } else {
        ForgetForkAndBlock(forkId);
      }
    }

    /** peer_node/PeerNode.ts: what it does to the pending blocks, here and after a sync. */
    method AddOwnedBlockToCache(block: Block)
      requires Listed(Memory())
      modifies this`pendingBlocks, this`pendingOrder
      ensures Model() == old(Model()).(mempool := Evict(old(Memory()), block.content.signature))
    {
      if block.content.signature == "" {
        return;
      }
      ghost var first := FirstSigned(Memory(), pendingOrder, block.content.signature);
      for n := 0 to |pendingOrder|
        invariant Model() == old(Model())
        invariant FirstSigned(Memory(), pendingOrder[n..], block.content.signature) == first
      {
        var pId := pendingOrder[n];
        assert pId in pendingOrder;
        if pendingBlocks[pId].block.signature == block.content.signature {
          DeletePending(pId);
          return;
        }
      }
    }

    /** Told of the new block, the node takes the first pending one with its signature out. */
    method AnnounceBlock(forkId: string)
      requires Enabled(Model(), AnnounceStep(forkId)) && Listed(Memory())
      modifies this`pendingBlocks, this`pendingOrder, this`tasks
      ensures Model() == Next(Config(), old(Model()), AnnounceStep(forkId))
    {
      AddOwnedBlockToCache(eligibleForks[forkId].computed.value);
      tasks := tasks[forkId := Finishing];
    }

    method FinishCommit(forkId: string)
      requires Enabled(Model(), FinishStep(forkId))
      modifies this
      ensures Model() == Next(Config(), old(Model()), FinishStep(forkId))
    {
      ForgetForkAndBlock(forkId);
    }

    // ---------- Timeouts ----------

    method StrikeEntry(bId: string)
      requires bId in pendingBlocks
      modifies this`pendingBlocks, this`pendingOrder, this`failedBlocks
      ensures Memory() == StrikeBlock(Config(), old(Memory()), bId)
    {
      var pEntry := pendingBlocks[bId];
      pEntry := pEntry.(strikes := pEntry.strikes + 1);
      if pEntry.strikes < 3 {
        pendingBlocks := pendingBlocks[bId := pEntry];
        return;
      }
      DeletePending(bId);
      if pEntry.block.signer == walletAddress && hasPeer {
        pEntry := pEntry.(rebroadcasts := pEntry.rebroadcasts + 1);
        if pEntry.rebroadcasts <= 3 {
          pEntry := pEntry.(strikes := 0, eligible := false, verifications := {});
          pendingBlocks := pendingBlocks[bId := pEntry];
          pendingOrder := pendingOrder + [bId];
        } else {
          failedBlocks := failedBlocks[bId := pEntry];
        }
      }
    }

    /** The fork timeout. */
    method TimeOut(forkId: string, bId: string)
      requires Enabled(Model(), TimeoutStep(forkId, bId))
      modifies this
      ensures Model() == Next(Config(), old(Model()), TimeoutStep(forkId, bId))
    {
      if bId in pendingBlocks {
        StrikeEntry(bId);
      }
      ForgetFork(forkId);
      assert tasks == old(tasks);
    }

    /** Once the signature of a rebroadcast is made. */
    method CountRebroadcastSignature(bId: string)
      modifies this`pendingBlocks
      ensures Model() == Next(Config(), old(Model()), ResignStep(bId))
    {
      if bId in pendingBlocks {
        var pEntry := pendingBlocks[bId];
        pendingBlocks := pendingBlocks[bId := pEntry.(verifications := pEntry.verifications + {myAddress})];
      }
    }
  }
}
