/** Any number of interleaved commits, with no checkpoint pruning between, only append to the
    chain: each new block at the next height, hashed, linked, with a fresh signature, and voted
    for by a majority. */
module ChainSafety {
  import opened Wrappers
  import opened L = Ledger
  import opened Consensus
  import Quorum

  /** The computed block stands on a block of the chain. */
  ghost predicate Fits(digest: Digest, db: seq<Block>, block: Block) {
    && db != []
    && GoodHash(digest, block)
    && 0 < block.Index() - db[0].Index() <= |db|
    && block.content.previousHash == Some(db[block.Index() - db[0].Index() - 1].hash)
  }

  /** The search of the first `searched` blocks, all below the computed one, found no such signature. */
  ghost predicate Searched(db: seq<Block>, block: Block, searched: nat) {
    && db != [] && block.Index() - db[0].Index() <= searched <= |db|
    && !Signed(db[..searched], block.content.signature)
  }

  ghost predicate Fresh(db: seq<Block>, k: nat)
    requires k < |db|
  {
    forall i :: 0 <= i < k ==>
      db[i].content.signature != db[k].content.signature && db[i].hash != db[k].hash
  }

  /** What the chain has become. */
  ghost predicate Sound(digest: Digest, first: seq<Block>, db: seq<Block>) {
    && Extends(digest, first, db) && Contiguous(db)
    && forall k :: |first| <= k < |db| ==> Fresh(db, k)
  }

  ghost predicate ForksFit(digest: Digest, db: seq<Block>, m: Mempool) {
    forall f :: f in m.forks && m.forks[f].computed.Some? ==> Fits(digest, db, m.forks[f].computed.value)
  }

  ghost predicate TasksFit(db: seq<Block>, m: Mempool, tasks: map<string, Task>) {
    forall f :: f in tasks && tasks[f].Inserting? ==>
      Computed(m, f) && Searched(db, m.forks[f].computed.value, tasks[f].searched)
  }

  function Blocks(log: seq<Commit>): seq<Block> {
    if log == [] then [] else Blocks(log[..|log| - 1]) + [log[|log| - 1].block]
  }

  ghost predicate Inv(c: Node, first: seq<Block>, s: State) {
    && Sound(c.digest, first, s.db)
    && s.db == first + Blocks(s.log)
    && ForksFit(c.digest, s.db, s.mempool)
    && TasksFit(s.db, s.mempool, s.tasks)
  }

  // ---------- Appending ----------

  lemma {:induction false} FitsPersists(digest: Digest, db: seq<Block>, b: Block, block: Block)
    requires Fits(digest, db, block)
    ensures Fits(digest, db + [b], block)
  {
  }

  lemma {:induction false} SearchedPersists(db: seq<Block>, b: Block, block: Block, searched: nat)
    requires Searched(db, block, searched)
    ensures Searched(db + [b], block, searched)
  {
    assert (db + [b])[..searched] == db[..searched];
  }

  /** If nothing has been inserted since the search, the block goes on top; otherwise its height is taken. */
  lemma {:induction false} InsertedOnTop(digest: Digest, db: seq<Block>, block: Block, searched: nat)
    requires Contiguous(db) && Fits(digest, db, block) && Searched(db, block, searched)
    requires InsertOne(db, block).Some?
    ensures InsertOne(db, block) == Some(db + [block])
    ensures Extends(digest, db, db + [block]) && Contiguous(db + [block]) && Fresh(db + [block], |db|)
  {
    InsertAppends(db, block);
    assert searched == |db| && db[..searched] == db;
    var longer := db + [block];
    assert GoodStep(digest, longer, |db|);
    assert longer[..|db|] == db;
    ExtendingKeepsContiguity(digest, db, longer);
    forall i | 0 <= i < |db|
      ensures longer[i].content.signature != block.content.signature && longer[i].hash != block.hash
    {
      assert longer[i] == db[i];
    }
  }

  lemma {:induction false} SoundGrows(digest: Digest, first: seq<Block>, db: seq<Block>, block: Block)
    requires Sound(digest, first, db)
    requires Extends(digest, db, db + [block]) && Contiguous(db + [block]) && Fresh(db + [block], |db|)
    ensures Sound(digest, first, db + [block])
  {
    ExtendsTransitive(digest, first, db, db + [block]);
    forall k | |first| <= k < |db + [block]| ensures Fresh(db + [block], k) {
      if k < |db| {
        assert Fresh(db, k);
      }
    }
  }

  lemma {:induction false} ForksFitLonger(digest: Digest, db: seq<Block>, b: Block, m: Mempool)
    requires ForksFit(digest, db, m)
    ensures ForksFit(digest, db + [b], m)
  {
    forall f | f in m.forks && m.forks[f].computed.Some? ensures Fits(digest, db + [b], m.forks[f].computed.value) {
      FitsPersists(digest, db, b, m.forks[f].computed.value);
    }
  }

  lemma {:induction false} TasksFitLonger(db: seq<Block>, b: Block, m: Mempool, tasks: map<string, Task>)
    requires TasksFit(db, m, tasks)
    ensures TasksFit(db + [b], m, tasks)
  {
    forall f | f in tasks && tasks[f].Inserting?
      ensures Computed(m, f) && Searched(db + [b], m.forks[f].computed.value, tasks[f].searched)
    {
      SearchedPersists(db, b, m.forks[f].computed.value, tasks[f].searched);
    }
  }

  lemma {:induction false} LogGrows(first: seq<Block>, log: seq<Commit>, commit: Commit)
    ensures first + Blocks(log + [commit]) == (first + Blocks(log)) + [commit.block]
  {
    assert (log + [commit])[..|log|] == log;
  }

  lemma {:induction false} InsertGrowsChain(c: Node, first: seq<Block>, s: State, f: string)
    requires Inv(c, first, s) && Enabled(s, InsertStep(f)) && InsertOne(s.db, s.mempool.forks[f].computed.value).Some?
    ensures InsertOne(s.db, s.mempool.forks[f].computed.value) == Some(s.db + [s.mempool.forks[f].computed.value])
    ensures Sound(c.digest, first, s.db + [s.mempool.forks[f].computed.value])
  {
    var block := s.mempool.forks[f].computed.value;
    InsertedOnTop(c.digest, s.db, block, s.tasks[f].searched);
    SoundGrows(c.digest, first, s.db, block);
  }

  lemma {:induction false} AnnouncingFits(db: seq<Block>, m: Mempool, tasks: map<string, Task>, f: string)
    requires TasksFit(db, m, tasks)
    ensures TasksFit(db, m, tasks[f := Announcing])
  {
  }

  lemma {:induction false} GrownKeeps(c: Node, first: seq<Block>, s: State, f: string, commit: Commit)
    requires Inv(c, first, s) && Sound(c.digest, first, s.db + [commit.block])
    ensures Inv(c, first, s.(db := s.db + [commit.block], tasks := s.tasks[f := Announcing], log := s.log + [commit]))
  {
    LogGrows(first, s.log, commit);
    ForksFitLonger(c.digest, s.db, commit.block, s.mempool);
    TasksFitLonger(s.db, commit.block, s.mempool, s.tasks);
    AnnouncingFits(s.db + [commit.block], s.mempool, s.tasks, f);
  }

  lemma {:induction false} InsertKeeps(c: Node, first: seq<Block>, s: State, f: string)
    requires Inv(c, first, s) && Enabled(s, InsertStep(f)) && InsertOne(s.db, s.mempool.forks[f].computed.value).Some?
    ensures Inv(c, first, Insert(s, f))
  {
    var fork := s.mempool.forks[f];
    InsertGrowsChain(c, first, s, f);
    GrownKeeps(c, first, s, f, Commit(f, fork.computed.value, fork.proposals, s.mempool.settled[f].adoptions));
  }

  // ---------- The other steps ----------

  lemma {:induction false} MadeBlockFits(c: Node, db: seq<Block>, e: Pending, seen: nat, now: int)
    requires Contiguous(db) && 0 < seen <= |db|
    ensures Fits(c.digest, db, MakeBlock(c, e, db[..seen], now))
  {
    assert db[..seen][seen - 1] == db[seen - 1];
  }

  lemma {:induction false} ComputeKeeps(c: Node, first: seq<Block>, s: State, f: string, seen: nat, now: int)
    requires Inv(c, first, s) && Enabled(s, ComputeStep(f, seen, now))
    ensures Inv(c, first, ComputeNext(c, s, f, seen, now))
  {
    var b := s.tasks[f].blockId;
    if b in s.mempool.pendings {
      MadeBlockFits(c, s.db, s.mempool.pendings[b], seen, now);
    }
  }

  lemma {:induction false} ReadSignatureKeeps(c: Node, first: seq<Block>, s: State, f: string)
    requires Inv(c, first, s) && Enabled(s, ReadSignatureStep(f))
    ensures Inv(c, first, ReadSignature(c, s, f))
  {
    assert s.db[..|s.db|] == s.db;
    assert Fits(c.digest, s.db, s.mempool.forks[f].computed.value);
  }

  /** Steps that leave the chain alone, and computed blocks as they are or drop them. */
  lemma {:induction false} QuietStepKeeps(c: Node, first: seq<Block>, s: State, after: State)
    requires Inv(c, first, s) && after.db == s.db && after.log == s.log
    requires forall f :: f in after.mempool.forks && after.mempool.forks[f].computed.Some? ==>
               f in s.mempool.forks && s.mempool.forks[f].computed == after.mempool.forks[f].computed
    requires forall f :: f in after.tasks && after.tasks[f].Inserting? ==>
               f in s.tasks && s.tasks[f] == after.tasks[f] && f in after.mempool.forks && f in s.mempool.forks
               && after.mempool.forks[f].computed == s.mempool.forks[f].computed
    ensures Inv(c, first, after)
  {
  }

  lemma {:induction false} DroppingForkKeeps(c: Node, first: seq<Block>, s: State, m: Mempool, f: string)
    requires Inv(c, first, s) && m.forks == s.mempool.forks
    ensures Inv(c, first, s.(mempool := DropFork(m, f), tasks := s.tasks - {f}))
    ensures f !in s.tasks ==> Inv(c, first, s.(mempool := DropFork(m, f)))
  {
    QuietStepKeeps(c, first, s, s.(mempool := DropFork(m, f), tasks := s.tasks - {f}));
    if f !in s.tasks {
      assert s.tasks - {f} == s.tasks;
    }
  }

  lemma {:induction false} ProposingComputesNothing(c: Node, m: Mempool, v: Electorate, f: string, b: string,
      sender: string)
    ensures var after := Propose(c, m, v, f, b, sender);
            after.forks.Keys == m.forks.Keys + {f}
            && forall g :: g in after.forks ==> after.forks[g].computed == if g in m.forks
                then m.forks[g].computed else None
  {
  }

  lemma {:induction false} ProposeKeeps(c: Node, first: seq<Block>, s: State, f: string, b: string, sender: string,
      seen: nat)
    requires Inv(c, first, s) && Enabled(s, ProposeStep(f, b, sender, seen))
    ensures Inv(c, first, ProposeNext(c, s, f, b, sender, seen))
  {
    ProposingComputesNothing(c, s.mempool, s.electorate, f, b, sender);
    QuietStepKeeps(c, first, s, ProposeNext(c, s, f, b, sender, seen));
  }

  lemma {:induction false} AdoptKeeps(c: Node, first: seq<Block>, s: State, f: string, tip: string, sender: string,
      seen: nat)
    requires Inv(c, first, s) && Enabled(s, AdoptStep(f, tip, sender, seen))
    ensures Inv(c, first, AdoptNext(c, s, f, tip, sender, seen))
  {
    QuietStepKeeps(c, first, s, AdoptNext(c, s, f, tip, sender, seen));
  }

  lemma {:induction false} CompareTipKeeps(c: Node, first: seq<Block>, s: State, f: string)
    requires Inv(c, first, s) && Enabled(s, CompareTipStep(f))
    ensures Inv(c, first, CompareTip(s, f))
  {
    DroppingForkKeeps(c, first, s, s.mempool, f);
  }

  lemma {:induction false} FinishKeeps(c: Node, first: seq<Block>, s: State, f: string)
    requires Inv(c, first, s) && f in s.mempool.forks
    ensures Inv(c, first, Finish(s, f))
  {
    DroppingForkKeeps(c, first, s, DropPending(s.mempool, s.mempool.forks[f].blockId), f);
  }

  lemma {:induction false} AnnounceKeeps(c: Node, first: seq<Block>, s: State, f: string)
    requires Inv(c, first, s) && Enabled(s, AnnounceStep(f))
    ensures Inv(c, first, Announce(s, f))
  {
    QuietStepKeeps(c, first, s, Announce(s, f));
  }

  lemma {:induction false} InsertStepKeeps(c: Node, first: seq<Block>, s: State, f: string)
    requires Inv(c, first, s) && Enabled(s, InsertStep(f))
    ensures Inv(c, first, Insert(s, f))
  {
    if InsertOne(s.db, s.mempool.forks[f].computed.value).Some? {
      InsertKeeps(c, first, s, f);
    } else {
      FinishKeeps(c, first, s, f);
    }
  }

  lemma {:induction false} VerifyKeeps(c: Node, first: seq<Block>, s: State, b: string, sender: string)
    requires Inv(c, first, s)
    ensures Inv(c, first, VerifyNext(c, s, b, sender))
  {
    QuietStepKeeps(c, first, s, VerifyNext(c, s, b, sender));
  }

  /** Steps on pending blocks, orphans and validators. */
  lemma {:induction false} OtherStepKeeps(c: Node, first: seq<Block>, s: State, step: Step)
    requires Inv(c, first, s) && Enabled(s, step)
    requires step.ArriveStep? || step.SelfSignedStep? || step.TakeOrphansStep? || step.ResignStep? || step.EvictStep?
             || step.ValidatorsStep? || step.SyncCountStep?
    ensures Inv(c, first, Next(c, s, step))
  {
    QuietStepKeeps(c, first, s, Next(c, s, step));
  }

  lemma {:induction false} CommitStepKeeps(c: Node, first: seq<Block>, s: State, step: Step)
    requires Inv(c, first, s) && Enabled(s, step)
    requires step.ReadTipStep? || step.CompareTipStep? || step.ReadSignatureStep? || step.InsertStep?
             || step.AnnounceStep? || step.FinishStep?
    ensures Inv(c, first, Next(c, s, step))
  {
    match step
    case ReadTipStep(f) =>
      QuietStepKeeps(c, first, s, s.(tasks := s.tasks[f := ComparingTip(TipHash(s.db))]));
    case CompareTipStep(f) => CompareTipKeeps(c, first, s, f);
    case ReadSignatureStep(f) => ReadSignatureKeeps(c, first, s, f);
    case InsertStep(f) => InsertStepKeeps(c, first, s, f);
    case AnnounceStep(f) => AnnounceKeeps(c, first, s, f);
    case FinishStep(f) => FinishKeeps(c, first, s, f);
  }

  lemma {:induction false} ForkStepKeeps(c: Node, first: seq<Block>, s: State, step: Step)
    requires Inv(c, first, s) && Enabled(s, step) && IsForkStep(step)
    ensures Inv(c, first, Next(c, s, step))
  {
    if step.ProposeStep? {
      ProposeKeeps(c, first, s, step.f, step.b, step.sender, step.seen);
    } else if step.AdoptStep? {
      AdoptKeeps(c, first, s, step.f, step.tip, step.sender, step.seen);
    } else if step.ComputeStep? {
      ComputeKeeps(c, first, s, step.f, step.seen, step.now);
    } else if step.TimeoutStep? {
      DroppingForkKeeps(c, first, s, StrikeBlock(c, s.mempool, step.b), step.f);
    } else {
      CommitStepKeeps(c, first, s, step);
    }
  }

  lemma {:induction false} StepKeepsInv(c: Node, first: seq<Block>, s: State, step: Step)
    requires Inv(c, first, s) && Enabled(s, step)
    ensures Inv(c, first, Next(c, s, step))
  {
    if IsForkStep(step) {
      ForkStepKeeps(c, first, s, step);
    } else if step.VerifyStep? {
      VerifyKeeps(c, first, s, step.b, step.sender);
    } else if step.ReplayStep? {
      var b := step.b;
      VerifyKeeps(c, first, s.(replays := s.replays[b := s.replays[b][1..]]), b, s.replays[b][0]);
    } else {
      OtherStepKeeps(c, first, s, step);
    }
  }

  lemma {:induction false} RunKeepsInv(c: Node, first: seq<Block>, s: State, steps: seq<Step>)
    requires Inv(c, first, s) && CanRun(c, s, steps)
    ensures Inv(c, first, Run(c, s, steps))
    decreases |steps|
  {
    if steps == [] {
    } else {
      StepKeepsInv(c, first, s, steps[0]);
      RunKeepsInv(c, first, Next(c, s, steps[0]), steps[1..]);
    }
  }

  /** Whatever steps run in whatever order on a gapless chain, and however validators and their
      cached number change, it is only appended to, soundly. */
  lemma {:induction false} InterleavedCommitsAreSafe(c: Node, db: seq<Block>, v: Electorate, steps: seq<Step>)
    requires db != [] && Contiguous(db) && CanRun(c, Start(db, v), steps)
    ensures Sound(c.digest, db, Run(c, Start(db, v), steps).db)
  {
    assert db[..|db|] == db && db + [] == db;
    RunKeepsInv(c, db, Start(db, v), steps);
  }

  lemma {:induction false} BlocksAt(log: seq<Commit>, k: nat)
    requires k < |log|
    ensures |Blocks(log)| == |log| && Blocks(log)[k] == log[k].block
  {
    var n := |log| - 1;
    if n == 0 {
      assert log[..0] == [];
    } else {
      BlocksAt(log[..n], if k < n then k else 0);
    }
  }

  /** The log tells the new blocks, in order. */
  lemma {:induction false} LogTellsChain(c: Node, db: seq<Block>, v: Electorate, steps: seq<Step>)
    requires db != [] && Contiguous(db) && CanRun(c, Start(db, v), steps)
    ensures var s := Run(c, Start(db, v), steps);
            && |s.db| == |db| + |s.log|
            && forall k :: 0 <= k < |s.log| ==> s.db[|db| + k] == s.log[k].block
  {
    assert db[..|db|] == db && db + [] == db;
    RunKeepsInv(c, db, Start(db, v), steps);
    var log := Run(c, Start(db, v), steps).log;
    forall k | 0 <= k < |log| ensures |Blocks(log)| == |log| && Blocks(log)[k] == log[k].block {
      BlocksAt(log, k);
    }
    assert log == [] ==> Blocks(log) == [];
  }

  /** And for every block it gained there is the moment n it was inserted. By then every vote it was
      committed with was the node's own or had come in a message from a voter acceptable when it was
      counted, and had been held since; and at some moment the proposals, at another the adoptions,
      had become a majority by the number then in force, which decided the fork until the insert. */
  lemma {:induction false} NewBlocksHaveQuorums(c: Node, db: seq<Block>, v: Electorate, steps: seq<Step>, k: nat)
      returns (n: nat)
    requires db != [] && Contiguous(db) && CanRun(c, Start(db, v), steps)
    requires k < |Run(c, Start(db, v), steps).log|
    ensures var s, done := Run(c, Start(db, v), steps), Quorum.Moments(c, Start(db, v), steps);
            && |s.db| == |db| + |s.log|
            && s.db[|db| + k] == s.log[k].block
            && n < |done| && done[n].step == InsertStep(s.log[k].forkId)
            && var ev := Quorum.EvidenceOf(c, done[..n]);
               && Quorum.HasQuorum(ev, Quorum.ProposalOf(s.log[k].forkId), s.log[k].proposals)
               && Quorum.HasQuorum(ev, Quorum.AdoptionOf(s.log[k].forkId), s.log[k].adoptions)
  {
    LogTellsChain(c, db, v, steps);
    n := Quorum.CommitsHaveQuorums(c, db, v, steps, k);
  }

  /** While a number above zero stays in the cache, every new block has at least the majority by it
      of proposals and of adoptions, each the node's own or from a validator active when it was
      counted. */
  lemma {:induction false} SteadyBlocksHaveMajorities(c: Node, db: seq<Block>, v: Electorate, steps: seq<Step>,
      k: nat) returns (n: nat)
    requires db != [] && Contiguous(db) && CanRun(c, Start(db, v), steps)
    requires v.cachedCount > 0 && Run(c, Start(db, v), steps).counts == {v.cachedCount}
    requires k < |Run(c, Start(db, v), steps).log|
    ensures n < |Quorum.Moments(c, Start(db, v), steps)|
    ensures var commit := Run(c, Start(db, v), steps).log[k];
            var done := Quorum.Moments(c, Start(db, v), steps)[..n];
            && |commit.proposals| >= MajorityCount(v.cachedCount)
            && |commit.adoptions| >= MajorityCount(v.cachedCount)
            && (forall p :: p in commit.proposals ==> Quorum.Qualified(c, done, Quorum.ProposalOf(commit.forkId), p))
            && (forall p :: p in commit.adoptions ==> Quorum.Qualified(c, done, Quorum.AdoptionOf(commit.forkId), p))
  {
    var start := Start(db, v);
    var commit, all := Run(c, start, steps).log[k], Quorum.Moments(c, start, steps);
    n := NewBlocksHaveQuorums(c, db, v, steps, k);
    Quorum.RunNotesCounts(c, [], start, steps);
    assert [] + all == all;
    assert forall m :: m in all[..n] ==> m in all;
    Quorum.SteadyQuorum(c, all[..n], v.cachedCount, Quorum.ProposalOf(commit.forkId), commit.proposals);
    Quorum.SteadyQuorum(c, all[..n], v.cachedCount, Quorum.AdoptionOf(commit.forkId), commit.adoptions);
  }

  // ---------- Which block a fork commits ----------

  predicate IsSigned(m: Mempool, b: string, signature: string) {
    b in m.pendings && m.pendings[b].block.signature == signature
  }

  /** An entry before b in the map's order has the signature. */
  ghost predicate HasEarlier(m: Mempool, b: string, signature: string) {
    exists i, j :: 0 <= i < j < |m.order| && m.order[j] == b && IsSigned(m, m.order[i], signature)
  }

  lemma {:induction false} FirstSignedAt(m: Mempool, order: seq<string>, signature: string, j: nat)
    requires j < |order| && IsSigned(m, order[j], signature)
    requires forall i :: 0 <= i < j ==> !IsSigned(m, order[i], signature)
    ensures FirstSigned(m, order, signature) == Some(order[j])
  {
    if j == 0 {
    } else {
      assert !IsSigned(m, order[0], signature);
      FirstSignedAt(m, order[1..], signature, j - 1);
    }
  }

  lemma {:induction false} FirstSignedBefore(m: Mempool, order: seq<string>, signature: string, i: nat)
    requires i < |order| && IsSigned(m, order[i], signature)
    ensures exists k :: 0 <= k <= i && FirstSigned(m, order, signature) == Some(order[k])
  {
    if IsSigned(m, order[0], signature) {
    } else {
      FirstSignedBefore(m, order[1..], signature, i - 1);
      var k :| 0 <= k <= i - 1 && FirstSigned(m, order[1..], signature) == Some(order[1..][k]);
      assert order[1..][k] == order[k + 1];
    }
  }

  /** A pending block survives the announcement of a block with its signature exactly if the signature
      is empty or an earlier entry has it, which then goes instead. */
  lemma {:induction false} SurvivesAnnouncement(m: Mempool, b: string, signature: string)
    requires Listed(m) && IsSigned(m, b, signature)
    ensures b in Evict(m, signature).pendings <==> signature == "" || HasEarlier(m, b, signature)
  {
    var j :| 0 <= j < |m.order| && m.order[j] == b;
    if HasEarlier(m, b, signature) {
      var i, l :| 0 <= i < l < |m.order| && m.order[l] == b && IsSigned(m, m.order[i], signature);
      FirstSignedBefore(m, m.order, signature, i);
    } else {
      FirstSignedAt(m, m.order, signature, j);
    }
  }

  lemma {:induction false} TwoSteps(c: Node, s: State, one: Step, two: Step)
    requires Enabled(s, one) && Enabled(Next(c, s, one), two)
    ensures Reaches(c, s, [one, two], Next(c, Next(c, s, one), two))
  {
    Onward(c, s, [], s, one);
    Onward(c, s, [] + [one], Next(c, s, one), two);
    assert [] + [one] + [two] == [one, two];
  }

  /** A commit goes on exactly if its block still stands on the tip that it read; if not, the fork and
      its votes are dropped, and blocks and chain stay as they are. */
  lemma {:induction false} MovedTipDropsFork(c: Node, s: State, f: string)
    requires Enabled(s, CompareTipStep(f))
    ensures var t, block := Next(c, s, CompareTipStep(f)), s.mempool.forks[f].computed.value;
            && t.db == s.db && t.mempool.pendings == s.mempool.pendings && t.mempool.order == s.mempool.order
            && if block.content.previousHash == Some(s.tasks[f].lastHash)
               then Enabled(t, ReadSignatureStep(f)) && t.mempool.forks == s.mempool.forks
                    && t.mempool.settled[f].committed
               else t.mempool.forks == s.mempool.forks - {f} && t.mempool.settled == s.mempool.settled - {f}
                    && t.tasks == s.tasks - {f}
  {
  }

  /** The tip that a commit reads is the hash of the last block. */
  lemma {:induction false} TipIsRead(c: Node, s: State, f: string)
    requires Enabled(s, ReadTipStep(f)) && s.db != []
    ensures Next(c, s, ReadTipStep(f)) == s.(tasks := s.tasks[f := ComparingTip(s.db[|s.db| - 1].hash)])
  {
  }

  lemma {:induction false} StrikeElsewhere(c: Node, m: Mempool, b: string, x: string)
    requires x != b
    ensures var after := StrikeBlock(c, m, b);
            && after.forks == m.forks && after.settled == m.settled
            && (x in after.pendings <==> x in m.pendings)
            && (x in m.pendings ==> after.pendings[x] == m.pendings[x])
  {
    if b in m.pendings {
      var verdict := Strike(c, m.pendings[b]);
      assert StrikeBlock(c, m, b).pendings ==
             if verdict.Stays? || verdict.Resubmitted? then m.pendings[b := verdict.entry] else m.pendings - {b};
    }
  }

  /** A timeout forgets the fork and its votes, whatever becomes of its block, and touches no other. */
  lemma {:induction false} TimeoutForgetsFork(c: Node, s: State, f: string, b: string, x: string)
    requires Enabled(s, TimeoutStep(f, b)) && x != b
    ensures var t := Next(c, s, TimeoutStep(f, b));
            && t.mempool.forks == s.mempool.forks - {f} && t.mempool.settled == s.mempool.settled - {f}
            && t.db == s.db && t.tasks == s.tasks
            && (x in t.mempool.pendings <==> x in s.mempool.pendings)
            && (x in s.mempool.pendings ==> t.mempool.pendings[x] == s.mempool.pendings[x])
  {
    StrikeElsewhere(c, s.mempool, b, x);
  }

  lemma {:induction false} AddingAnnounces(c: Node, s: State, f: string) returns (t: State)
    requires Enabled(s, InsertStep(f)) && InsertOne(s.db, s.mempool.forks[f].computed.value).Some?
    ensures Reaches(c, s, [InsertStep(f), AnnounceStep(f)], t)
    ensures Enabled(t, FinishStep(f)) && t.mempool.forks == s.mempool.forks
    ensures t.mempool.settled == s.mempool.settled && t.tasks - {f} == s.tasks - {f}
    ensures Some(t.db) == InsertOne(s.db, s.mempool.forks[f].computed.value)
    ensures t.mempool.pendings
            == Evict(s.mempool, s.mempool.forks[f].computed.value.content.signature).pendings
  {
    var inserted := Insert(s, f);
    assert Enabled(inserted, AnnounceStep(f));
    t := Announce(inserted, f);
    TwoSteps(c, s, InsertStep(f), AnnounceStep(f));
  }

  /** What a commit that adds its block takes out of the mempool: the first entry with the block's
      signature, and the block that the fork was opened for. */
  lemma {:induction false} AddingForkClears(c: Node, s: State, f: string) returns (steps: seq<Step>, t: State)
    requires Enabled(s, InsertStep(f)) && InsertOne(s.db, s.mempool.forks[f].computed.value).Some?
    ensures steps == [InsertStep(f), AnnounceStep(f), FinishStep(f)] && Reaches(c, s, steps, t)
    ensures Some(t.db) == InsertOne(s.db, s.mempool.forks[f].computed.value)
    ensures t.mempool.forks == s.mempool.forks - {f} && t.mempool.settled == s.mempool.settled - {f}
            && t.tasks == s.tasks - {f}
    ensures var signature := s.mempool.forks[f].computed.value.content.signature;
            t.mempool.pendings == Evict(s.mempool, signature).pendings - {s.mempool.forks[f].blockId}
  {
    var announced := AddingAnnounces(c, s, f);
    t := Finish(announced, f);
    Onward(c, s, [InsertStep(f), AnnounceStep(f)], announced, FinishStep(f));
    steps := [InsertStep(f), AnnounceStep(f)] + [FinishStep(f)];
  }

  /** With a duplicate key nothing is added or announced, and only the block the fork was opened for
      goes. */
  lemma {:induction false} RefusedForkClears(c: Node, s: State, f: string)
    requires Enabled(s, InsertStep(f)) && InsertOne(s.db, s.mempool.forks[f].computed.value).None?
    ensures var t := Next(c, s, InsertStep(f));
            && t.db == s.db && t.mempool.forks == s.mempool.forks - {f}
            && t.mempool.settled == s.mempool.settled - {f} && t.tasks == s.tasks - {f}
            && t.mempool.pendings == s.mempool.pendings - {s.mempool.forks[f].blockId}
  {
  }

  /** With the signature already on the chain nothing is added or announced either; an entry filed
      under the hash of the computed block goes as well. */
  lemma {:induction false} FoundForkClears(c: Node, s: State, f: string)
    requires Enabled(s, ReadSignatureStep(f)) && Signed(s.db, s.mempool.forks[f].computed.value.content.signature)
    ensures var found := Next(c, s, ReadSignatureStep(f));
            && Enabled(found, FinishStep(f))
            && var t := Next(c, found, FinishStep(f));
               && t.db == s.db && t.mempool.forks == s.mempool.forks - {f}
               && t.mempool.settled == s.mempool.settled - {f} && t.tasks == s.tasks - {f}
               && t.mempool.pendings == s.mempool.pendings
                    - {c.digest(s.mempool.forks[f].computed.value.content)} - {s.mempool.forks[f].blockId}
  {
  }

  /** The fork's state when its block is about to be inserted. */
  ghost predicate AboutToInsert(s: State, t: State, f: string, block: Block, named: string) {
    && Enabled(t, InsertStep(f)) && t.db == s.db
    && t.mempool.pendings == s.mempool.pendings && t.mempool.order == s.mempool.order
    && t.mempool.forks[f].computed == Some(block) && t.mempool.forks[f].blockId == named
  }

  lemma {:induction false} ConfirmingComputes(c: Node, s: State, f: string, b: string, sender: string, now: int)
      returns (t: State)
    requires f !in s.tasks && s.db != [] && TipAllows(f, s.db) && Confirms(c, s.mempool, s.electorate, f, b, sender)
    requires b in s.mempool.pendings
    requires f in s.mempool.settled && s.mempool.settled[f].pendingCommit && !s.mempool.settled[f].committed
    ensures Reaches(c, s, [ProposeStep(f, b, sender, |s.db|), ComputeStep(f, |s.db|, now)], t)
    ensures Enabled(t, ReadTipStep(f)) && t.db == s.db
    ensures t.mempool.pendings == s.mempool.pendings && t.mempool.order == s.mempool.order
    ensures t.mempool.forks[f].computed == Some(MakeBlock(c, s.mempool.pendings[b], s.db, now))
    ensures t.mempool.forks[f].blockId == ForkEntry(s.mempool, f, b).blockId
  {
    assert s.db[..|s.db|] == s.db;
    var propose, compute := ProposeStep(f, b, sender, |s.db|), ComputeStep(f, |s.db|, now);
    var confirmed := Next(c, s, propose);
    assert Enabled(confirmed, compute);
    t := Next(c, confirmed, compute);
    TwoSteps(c, s, propose, compute);
  }

  lemma {:induction false} FreshTipStands(c: Node, s: State, f: string) returns (t: State)
    requires Enabled(s, ReadTipStep(f))
    requires s.mempool.forks[f].computed.value.content.previousHash == Some(TipHash(s.db))
    ensures Reaches(c, s, [ReadTipStep(f), CompareTipStep(f)], t)
    ensures Enabled(t, ReadSignatureStep(f)) && t.db == s.db
    ensures t.mempool == s.mempool.(settled := t.mempool.settled)
  {
    var read := Next(c, s, ReadTipStep(f));
    assert Enabled(read, CompareTipStep(f));
    t := Next(c, read, CompareTipStep(f));
    TwoSteps(c, s, ReadTipStep(f), CompareTipStep(f));
  }

  lemma {:induction false} FreshForkInserts(c: Node, s: State, f: string) returns (t: State)
    requires Enabled(s, ReadTipStep(f)) && s.db != []
    requires s.mempool.forks[f].computed.value.content.previousHash == Some(TipHash(s.db))
    requires !Signed(s.db, s.mempool.forks[f].computed.value.content.signature)
    ensures Reaches(c, s, [ReadTipStep(f), CompareTipStep(f), ReadSignatureStep(f)], t)
    ensures AboutToInsert(s, t, f, s.mempool.forks[f].computed.value, s.mempool.forks[f].blockId)
  {
    var compared := FreshTipStands(c, s, f);
    t := Next(c, compared, ReadSignatureStep(f));
    Onward(c, s, [ReadTipStep(f), CompareTipStep(f)], compared, ReadSignatureStep(f));
    assert [ReadTipStep(f), CompareTipStep(f)] + [ReadSignatureStep(f)]
           == [ReadTipStep(f), CompareTipStep(f), ReadSignatureStep(f)];
  }

  lemma {:induction false} Joined(c: Node, first: State, one: seq<Step>, s: State, two: seq<Step>, t: State)
    requires Reaches(c, first, one, s) && Reaches(c, s, two, t)
    ensures Reaches(c, first, one + two, t)
    decreases |two|
  {
    if two == [] {
      assert one + two == one;
    } else {
      var next := Next(c, s, two[0]);
      Onward(c, first, one, s, two[0]);
      assert one + two == (one + [two[0]]) + two[1..];
      Joined(c, first, one + [two[0]], next, two[1..], t);
    }
  }

  /** Whether the chain knows a signature after one more block. */
  lemma {:induction false} SignedWithOneMore(db: seq<Block>, block: Block, signature: string)
    ensures Signed(db + [block], signature) <==> Signed(db, signature) || block.content.signature == signature
  {
    var longer := db + [block];
    if Signed(db, signature) {
      var k :| 0 <= k < |db| && db[k].content.signature == signature;
      assert longer[k] == db[k];
    }
    assert longer[|db|] == block;
  }

  lemma {:induction false} SameFirst(m: Mempool, n: Mempool, order: seq<string>, signature: string)
    requires m.pendings == n.pendings
    ensures FirstSigned(m, order, signature) == FirstSigned(n, order, signature)
  {
    if order == [] {
    } else {
      SameFirst(m, n, order[1..], signature);
    }
  }

  /** The announcement looks at nothing but the entries and their order. */
  lemma {:induction false} SameOrderSame(m: Mempool, n: Mempool, signature: string, b: string)
    requires m.pendings == n.pendings && m.order == n.order
    ensures Evict(m, signature).pendings == Evict(n, signature).pendings
  {
    SameFirst(m, n, m.order, signature);
  }

  lemma {:induction false} CommitOutcome(c: Node, s: State, ready: State, t: State, f: string, b: string, block: Block)
    requires Listed(s.mempool) && Contiguous(s.db) && s.db != [] && IsSigned(s.mempool, b, block.content.signature)
    requires f in ready.mempool.forks
    requires AboutToInsert(s, ready, f, block, ready.mempool.forks[f].blockId)
    requires block.Index() == s.db[|s.db| - 1].Index() + 1 && InsertOne(s.db, block) == Some(t.db)
    requires t.mempool.pendings
             == Evict(ready.mempool, block.content.signature).pendings - {ready.mempool.forks[f].blockId}
    ensures var named, signature := ready.mempool.forks[f].blockId, block.content.signature;
            && t.db == s.db + [block] && named !in t.mempool.pendings
            && (named in s.mempool.pendings && !Signed(s.db, s.mempool.pendings[named].block.signature) ==>
                  (Signed(t.db, s.mempool.pendings[named].block.signature) <==>
                   s.mempool.pendings[named].block.signature == signature))
            && (b in t.mempool.pendings <==> named != b && (signature == "" || HasEarlier(s.mempool, b, signature)))
  {
    InsertAppends(s.db, block);
    var named := ready.mempool.forks[f].blockId;
    if named in s.mempool.pendings {
      SignedWithOneMore(s.db, block, s.mempool.pendings[named].block.signature);
    }
    SameOrderSame(s.mempool, ready.mempool, block.content.signature, b);
    SurvivesAnnouncement(s.mempool, b, block.content.signature);
  }

  /** A whole commit, from the message that completes the majority to its end. That message's block
      is the one that goes onto the chain. The first message's block leaves the mempool: without
      being on the chain, exactly if the two messages name blocks of different signatures. The
      block on the chain leaves as well, unless it is another than the first message's and an
      earlier entry has its signature (or that is empty). */
  lemma {:induction false} ConfirmingMessageDecides(c: Node, s: State, f: string, b: string, sender: string, now: int)
      returns (steps: seq<Step>, t: State)
    requires Listed(s.mempool) && Contiguous(s.db)
    requires f !in s.tasks && s.db != [] && TipAllows(f, s.db) && Confirms(c, s.mempool, s.electorate, f, b, sender)
    requires b in s.mempool.pendings && !Signed(s.db, s.mempool.pendings[b].block.signature)
    requires f in s.mempool.settled && s.mempool.settled[f].pendingCommit && !s.mempool.settled[f].committed
    requires InsertOne(s.db, MakeBlock(c, s.mempool.pendings[b], s.db, now)).Some?
    ensures Reaches(c, s, steps, t)
    ensures steps == [ProposeStep(f, b, sender, |s.db|), ComputeStep(f, |s.db|, now)]
                     + [ReadTipStep(f), CompareTipStep(f), ReadSignatureStep(f)]
                     + [InsertStep(f), AnnounceStep(f), FinishStep(f)]
    ensures var block, named := MakeBlock(c, s.mempool.pendings[b], s.db, now), ForkEntry(s.mempool, f, b).blockId;
            var signature := s.mempool.pendings[b].block.signature;
            && t.db == s.db + [block] && block.content.signature == signature
            && named !in t.mempool.pendings
            && (named in s.mempool.pendings && !Signed(s.db, s.mempool.pendings[named].block.signature) ==>
                  (Signed(t.db, s.mempool.pendings[named].block.signature) <==>
                   s.mempool.pendings[named].block.signature == signature))
            && (b in t.mempool.pendings <==> named != b && (signature == "" || HasEarlier(s.mempool, b, signature)))
  {
    var block := MakeBlock(c, s.mempool.pendings[b], s.db, now);
    var computed := ConfirmingComputes(c, s, f, b, sender, now);
    var ready := FreshForkInserts(c, computed, f);
    var last;
    last, t := AddingForkClears(c, ready, f);
    var early := [ProposeStep(f, b, sender, |s.db|), ComputeStep(f, |s.db|, now)];
    var middle := [ReadTipStep(f), CompareTipStep(f), ReadSignatureStep(f)];
    Joined(c, s, early, computed, middle, ready);
    Joined(c, s, early + middle, ready, last, t);
    steps := early + middle + last;
    CommitOutcome(c, s, ready, t, f, b, block);
  }

  // ---------- Why pruning is left out ----------

  lemma {:induction false} HeightsKept(db: seq<Block>, checkpoint: int, k: nat)
    requires k < |db| && Ascending(db)
    ensures db[k].Index() < checkpoint <==> k < Position(db, checkpoint)
  {
    var p := Position(db, checkpoint);
    if p < k {
      assert db[p].Index() < db[k].Index();
    }
  }

  /** After a checkpoint has pruned the chain, a height it once held is free again exactly below the
      checkpoint: a commit that has passed its tip check may then put its block under the chain. */
  lemma {:induction false} PruningFreesHeights(db: seq<Block>, block: Block, checkpoint: int)
    requires db != [] && Contiguous(db) && Ascending(db)
    requires db[0].Index() <= block.Index() <= db[|db| - 1].Index()
    ensures InsertOne(Kept(db, checkpoint), block).Some? <==>
              block.Index() < checkpoint && forall b :: b in Kept(db, checkpoint) ==> b.hash != block.hash
  {
    KeptIsSuffix(db, checkpoint);
    var p, k := Position(db, checkpoint), block.Index() - db[0].Index();
    assert db[k].Index() == block.Index();
    HeightsKept(db, checkpoint, k);
    if p <= k {
      assert db[p..][k - p] == db[k];
    } else {
      forall i | 0 <= i < |db[p..]| ensures db[p..][i].Index() != block.Index() && db[p..][i] in db[p..] {
        assert db[p..][i] == db[p + i];
      }
    }
  }
}
