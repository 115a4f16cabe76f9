/** Where the content of a committed block comes from: what a computation copies out of a pending
    entry, and, over runs, that every new block of the chain was received and named in a proposal. */
module Provenance {
  import opened Platform
  import opened L = Ledger
  import opened Consensus
  import ChainSafety
  import Quorum
  import Stalls

  // ---------- One computation ----------

  /** All that a computed block takes over as it is; an empty kind means a storage contract. */
  predicate Copies(content: Content, block: Content) {
    && content.signer == block.signer
    && content.payload == block.payload
    && content.signature == block.signature
    && content.kind == (if block.kind == "" then "STORAGE_CONTRACT" else block.kind)
  }

  /** The block's own time, else that of its submission, else the clock's. */
  predicate Timed(content: Content, timestamp: int, originalTimestamp: int, now: int) {
    content.timestamp == if timestamp != 0 then timestamp else if originalTimestamp != 0 then originalTimestamp else now
  }

  /** The block computed for a fork copies the pending block that the completing message named, and
      nothing else changes but the fork's entry. */
  lemma {:induction false} ComputedContent(c: Node, s: State, f: string, seen: nat, now: int)
    requires Enabled(s, ComputeStep(f, seen, now)) && s.tasks[f].blockId in s.mempool.pendings
    ensures var e, after := s.mempool.pendings[s.tasks[f].blockId], Next(c, s, ComputeStep(f, seen, now)).mempool;
            && f in after.forks && after.forks[f].computed.Some?
            && Copies(after.forks[f].computed.value.content, e.block)
            && Timed(after.forks[f].computed.value.content, e.block.timestamp, e.originalTimestamp, now)
            && after.forks[f].adopted == s.mempool.forks[f].adopted
            && after == s.mempool.(forks := s.mempool.forks[f := after.forks[f]])
  {
  }

  /** Without that block the adoption is given back. */
  lemma {:induction false} MissingBlock(c: Node, s: State, f: string, seen: nat, now: int)
    requires Enabled(s, ComputeStep(f, seen, now)) && s.tasks[f].blockId !in s.mempool.pendings
    ensures var after := Next(c, s, ComputeStep(f, seen, now)).mempool;
            && f in after.forks && after.forks[f].computed.None? && !after.forks[f].adopted
            && after == s.mempool.(forks := s.mempool.forks[f := after.forks[f]])
  {
  }

  // ---------- Runs ----------

  predicate IsSystem(received: Content) {
    received.signature == "SYSTEM_SIG" && received.signer == ZERO_ADDRESS
  }

  /** What is pending is what was received, but for the previous hash and what normalising fills in. */
  predicate Renders(c: Node, block: Content, received: Content) {
    && block.signer == received.signer
    && block.signature == received.signature
    && block.kind == received.kind
    && block.timestamp == received.timestamp
    && block.payload == (if IsSystem(received) then received.payload else c.fill(received))
  }

  ghost predicate EntryOk(c: Node, done: seq<Step>, b: string, e: Pending) {
    && c.digest(e.received) == b
    && ArriveStep(e.received, e.originalTimestamp) in done
    && Renders(c, e.block, e.received)
  }

  ghost predicate Named(done: seq<Step>, f: string, b: string) {
    exists sender, seen :: ProposeStep(f, b, sender, seen) in done
  }

  /** The content of a committed block, from what was received. */
  predicate Stems(c: Node, content: Content, received: Content, originalTimestamp: int) {
    && content.signer == received.signer
    && content.signature == received.signature
    && content.payload == (if IsSystem(received) then received.payload else c.fill(received))
    && content.kind == (if received.kind == "" then "STORAGE_CONTRACT" else received.kind)
    && (received.timestamp != 0 ==> content.timestamp == received.timestamp)
    && (received.timestamp == 0 && originalTimestamp != 0 ==> content.timestamp == originalTimestamp)
  }

  /** A block of the run that a proposal for the fork named. */
  ghost predicate Comes(c: Node, done: seq<Step>, f: string, content: Content, received: Content,
      originalTimestamp: int)
  {
    && ArriveStep(received, originalTimestamp) in done
    && Named(done, f, c.digest(received))
    && Stems(c, content, received, originalTimestamp)
  }

  ghost predicate BlockOk(c: Node, done: seq<Step>, f: string, block: Block) {
    exists received, originalTimestamp :: Comes(c, done, f, block.content, received, originalTimestamp)
  }

  ghost predicate EntriesOk(c: Node, done: seq<Step>, m: Mempool) {
    forall b :: b in m.pendings ==> EntryOk(c, done, b, m.pendings[b])
  }

  ghost predicate ForksOk(c: Node, done: seq<Step>, m: Mempool) {
    forall f :: f in m.forks && m.forks[f].computed.Some? ==> BlockOk(c, done, f, m.forks[f].computed.value)
  }

  ghost predicate TasksOk(done: seq<Step>, tasks: map<string, Task>) {
    forall f :: f in tasks && tasks[f].Computing? ==> Named(done, f, tasks[f].blockId)
  }

  ghost predicate LogOk(c: Node, done: seq<Step>, log: seq<Commit>) {
    forall k :: 0 <= k < |log| ==> BlockOk(c, done, log[k].forkId, log[k].block)
  }

  ghost predicate Inv(c: Node, done: seq<Step>, s: State) {
    EntriesOk(c, done, s.mempool) && ForksOk(c, done, s.mempool) && TasksOk(done, s.tasks) && LogOk(c, done, s.log)
  }

  // ---------- Later in the run ----------

  lemma {:induction false} NamedLater(done: seq<Step>, step: Step, f: string, b: string)
    requires Named(done, f, b)
    ensures Named(done + [step], f, b)
  {
    var sender, seen :| ProposeStep(f, b, sender, seen) in done;
    assert ProposeStep(f, b, sender, seen) in done + [step];
  }

  lemma {:induction false} BlockLater(c: Node, done: seq<Step>, step: Step, f: string, block: Block)
    requires BlockOk(c, done, f, block)
    ensures BlockOk(c, done + [step], f, block)
  {
    var received, originalTimestamp :| Comes(c, done, f, block.content, received, originalTimestamp);
    NamedLater(done, step, f, c.digest(received));
    assert Comes(c, done + [step], f, block.content, received, originalTimestamp);
  }

  lemma {:induction false} InvLater(c: Node, done: seq<Step>, s: State, step: Step)
    requires Inv(c, done, s)
    ensures Inv(c, done + [step], s)
  {
    forall f | f in s.mempool.forks && s.mempool.forks[f].computed.Some?
      ensures BlockOk(c, done + [step], f, s.mempool.forks[f].computed.value)
    {
      BlockLater(c, done, step, f, s.mempool.forks[f].computed.value);
    }
    forall f | f in s.tasks && s.tasks[f].Computing? ensures Named(done + [step], f, s.tasks[f].blockId) {
      NamedLater(done, step, f, s.tasks[f].blockId);
    }
    forall k | 0 <= k < |s.log| ensures BlockOk(c, done + [step], s.log[k].forkId, s.log[k].block) {
      BlockLater(c, done, step, s.log[k].forkId, s.log[k].block);
    }
  }

  // ---------- Entries ----------

  lemma {:induction false} ArrivalOk(c: Node, done: seq<Step>, received: Content, originalTimestamp: int)
    requires ArriveStep(received, originalTimestamp) in done
    ensures EntryOk(c, done, c.digest(received), NewPending(c, received, originalTimestamp))
  {
  }

  lemma {:induction false} StrikeOk(c: Node, done: seq<Step>, m: Mempool, b: string)
    requires EntriesOk(c, done, m)
    ensures EntriesOk(c, done, StrikeBlock(c, m, b))
  {
    if b in m.pendings {
      assert EntryOk(c, done, b, m.pendings[b]);
    }
  }

  lemma {:induction false} OldEntriesOk(c: Node, done: seq<Step>, m: Mempool, after: Mempool)
    requires EntriesOk(c, done, m) && Stalls.NoNewEntries(m, after)
    ensures EntriesOk(c, done, after)
  {
    forall b | b in after.pendings ensures EntryOk(c, done, b, after.pendings[b]) {
      assert EntryOk(c, done, b, m.pendings[b]);
    }
  }

  lemma {:induction false} EntriesStayOk(c: Node, done: seq<Step>, s: State, step: Step)
    requires EntriesOk(c, done, s.mempool) && Enabled(s, step) && step in done
    ensures EntriesOk(c, done, Next(c, s, step).mempool)
  {
    if step.ArriveStep? {
      ArrivalOk(c, done, step.received, step.originalTimestamp);
    } else if step.TimeoutStep? {
      StrikeOk(c, done, s.mempool, step.b);
    } else {
      Stalls.QuietStepAddsNoEntries(c, s, step);
      OldEntriesOk(c, done, s.mempool, Next(c, s, step).mempool);
    }
  }

  // ---------- Forks and tasks ----------

  /** The computed blocks are those there were, or fewer. */
  predicate NoNewBlocks(s: State, after: State) {
    forall f :: f in after.mempool.forks && after.mempool.forks[f].computed.Some? ==>
      f in s.mempool.forks && s.mempool.forks[f].computed == after.mempool.forks[f].computed
  }

  predicate NoNewTasks(s: State, after: State) {
    forall f :: f in after.tasks && after.tasks[f].Computing? ==> f in s.tasks && s.tasks[f] == after.tasks[f]
  }

  lemma {:induction false} CommitStepsBringNothing(c: Node, s: State, step: Step)
    requires Enabled(s, step)
    requires step.ReadTipStep? || step.CompareTipStep? || step.ReadSignatureStep? || step.InsertStep?
        || step.AnnounceStep? || step.FinishStep?
    ensures NoNewBlocks(s, Next(c, s, step)) && NoNewTasks(s, Next(c, s, step))
  {
  }

  lemma {:induction false} TimeoutBringsNothing(c: Node, s: State, f: string, b: string)
    requires Enabled(s, TimeoutStep(f, b))
    ensures NoNewBlocks(s, Next(c, s, TimeoutStep(f, b))) && NoNewTasks(s, Next(c, s, TimeoutStep(f, b)))
  {
  }

  lemma {:induction false} AdoptionBringsNothing(c: Node, s: State, step: Step)
    requires Enabled(s, step) && step.AdoptStep?
    ensures NoNewBlocks(s, Next(c, s, step)) && NoNewTasks(s, Next(c, s, step))
  {
  }

  lemma {:induction false} VotesBringNothing(c: Node, s: State, step: Step)
    requires Enabled(s, step) && !IsForkStep(step)
    ensures NoNewBlocks(s, Next(c, s, step)) && NoNewTasks(s, Next(c, s, step))
  {
    assert Next(c, s, step).mempool.forks == s.mempool.forks && Next(c, s, step).tasks == s.tasks;
  }

  lemma {:induction false} ProposalBringsTask(c: Node, s: State, f: string, b: string, sender: string, seen: nat)
    requires Enabled(s, ProposeStep(f, b, sender, seen))
    ensures var after := Next(c, s, ProposeStep(f, b, sender, seen));
            && NoNewBlocks(s, after)
            && forall g :: g in after.tasks && after.tasks[g].Computing? ==>
                 (g in s.tasks && s.tasks[g] == after.tasks[g]) || (g == f && after.tasks[g].blockId == b)
  {
  }

  lemma {:induction false} EntryGivesBlock(c: Node, done: seq<Step>, f: string, b: string, e: Pending, block: Block,
      now: int)
    requires EntryOk(c, done, b, e) && Named(done, f, b)
    requires Copies(block.content, e.block) && Timed(block.content, e.block.timestamp, e.originalTimestamp, now)
    ensures BlockOk(c, done, f, block)
  {
    assert Comes(c, done, f, block.content, e.received, e.originalTimestamp);
  }

  lemma {:induction false} ComputedOk(c: Node, done: seq<Step>, s: State, f: string, seen: nat, now: int)
    requires Inv(c, done, s) && Enabled(s, ComputeStep(f, seen, now))
    ensures var after := Next(c, s, ComputeStep(f, seen, now));
            ForksOk(c, done, after.mempool) && NoNewTasks(s, after)
  {
    var b := s.tasks[f].blockId;
    var after := Next(c, s, ComputeStep(f, seen, now)).mempool;
    if b in s.mempool.pendings {
      ComputedContent(c, s, f, seen, now);
      assert EntryOk(c, done, b, s.mempool.pendings[b]);
      EntryGivesBlock(c, done, f, b, s.mempool.pendings[b], after.forks[f].computed.value, now);
    } else {
      MissingBlock(c, s, f, seen, now);
    }
  }

  lemma {:induction false} ForksStayOk(c: Node, done: seq<Step>, s: State, step: Step)
    requires Inv(c, done, s) && Enabled(s, step) && step in done
    ensures ForksOk(c, done, Next(c, s, step).mempool) && TasksOk(done, Next(c, s, step).tasks)
  {
    if step.ProposeStep? {
      ProposalBringsTask(c, s, step.f, step.b, step.sender, step.seen);
      assert ProposeStep(step.f, step.b, step.sender, step.seen) in done;
    } else if step.ComputeStep? {
      ComputedOk(c, done, s, step.f, step.seen, step.now);
    } else if step.AdoptStep? {
      AdoptionBringsNothing(c, s, step);
    } else if step.TimeoutStep? {
      TimeoutBringsNothing(c, s, step.f, step.b);
    } else if IsForkStep(step) {
      CommitStepsBringNothing(c, s, step);
    } else {
      VotesBringNothing(c, s, step);
    }
  }

  // ---------- The chain ----------

  lemma {:induction false} LogStaysOk(c: Node, done: seq<Step>, s: State, step: Step)
    requires Inv(c, done, s) && Enabled(s, step)
    ensures LogOk(c, done, Next(c, s, step).log)
  {
    Quorum.OnlyInsertsAreLogged(c, s, step);
  }

  lemma {:induction false} StepKeepsInv(c: Node, done: seq<Step>, s: State, step: Step)
    requires Inv(c, done, s) && Enabled(s, step)
    ensures Inv(c, done + [step], Next(c, s, step))
  {
    InvLater(c, done, s, step);
    EntriesStayOk(c, done + [step], s, step);
    ForksStayOk(c, done + [step], s, step);
    LogStaysOk(c, done + [step], s, step);
  }

  lemma {:induction false} RunKeepsInv(c: Node, done: seq<Step>, s: State, steps: seq<Step>)
    requires Inv(c, done, s) && CanRun(c, s, steps)
    ensures Inv(c, done + steps, Run(c, s, steps))
    decreases |steps|
  {
    if steps == [] {
      assert done + [] == done;
    } else {
      StepKeepsInv(c, done, s, steps[0]);
      RunKeepsInv(c, done + [steps[0]], Next(c, s, steps[0]), steps[1..]);
      assert done + [steps[0]] + steps[1..] == done + steps;
    }
  }

  /** Every block that a run adds to the chain was received in it and named in a proposal for its
      fork. Signer, signature, kind and time are the received ones, where those are set, and the
      payload is the received one as verifying the signature left it. */
  lemma {:induction false} NewBlocksWereReceived(c: Node, db: seq<Block>, v: Electorate, steps: seq<Step>, k: nat)
      returns (received: Content, originalTimestamp: int)
    requires db != [] && Contiguous(db) && CanRun(c, Start(db, v), steps)
    requires |db| <= k < |Run(c, Start(db, v), steps).db|
    ensures |Run(c, Start(db, v), steps).log| == |Run(c, Start(db, v), steps).db| - |db|
    ensures var s := Run(c, Start(db, v), steps);
            Comes(c, steps, s.log[k - |db|].forkId, s.db[k].content, received, originalTimestamp)
  {
    var start := Start(db, v);
    var s := Run(c, start, steps);
    RunKeepsInv(c, [], start, steps);
    assert [] + steps == steps;
    ChainSafety.LogTellsChain(c, db, v, steps);
    assert BlockOk(c, steps, s.log[k - |db|].forkId, s.log[k - |db|].block);
    received, originalTimestamp :| Comes(c, steps, s.log[k - |db|].forkId, s.db[k].content, received,
        originalTimestamp);
  }
}
