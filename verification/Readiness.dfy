/** The other half of quorum safety: what has its majority is acted upon. A fork is being committed
    exactly when it has its block and has reached its majority of adoptions, in every state of every
    run. An adoption is held against the majority in force when it is counted, and never again. */
module Readiness {
  import opened Wrappers
  import opened L = Ledger
  import opened Consensus
  import Quorum

  predicate IsComputing(s: State, f: string) {
    f in s.tasks && s.tasks[f].Computing?
  }

  predicate IsCommitting(s: State, f: string) {
    f in s.tasks && !s.tasks[f].Computing?
  }

  predicate IsAdopted(s: State, f: string) {
    f in s.mempool.forks && s.mempool.forks[f].adopted
  }

  /** Some adoption, when it was counted, made the majority then in force. */
  predicate Reached(entry: Settled) {
    exists k :: 0 <= k < |entry.majorities| && k + 1 >= entry.majorities[k]
  }

  predicate HasAdoptions(s: State, f: string) {
    f in s.mempool.settled && Reached(s.mempool.settled[f])
  }

  predicate InForce(counts: set<nat>, majority: nat) {
    exists n :: n in counts && majority == MajorityCount(n)
  }

  /** The history of an entry: one majority for each adoption. */
  predicate Counted(counts: set<nat>, entry: Settled) {
    && |entry.majorities| == |entry.adoptions|
    && forall k :: 0 <= k < |entry.majorities| ==> InForce(counts, entry.majorities[k])
  }

  /** An adopted fork has its block or is computing it. */
  predicate ForkReady(s: State, f: string) {
    && (Computed(s.mempool, f) ==> IsAdopted(s, f) && !IsComputing(s, f))
    && (IsComputing(s, f) ==> IsAdopted(s, f))
    && (IsAdopted(s, f) && !Computed(s.mempool, f) ==> IsComputing(s, f))
  }

  /** A majority of adoptions is being committed, or is marked and waits for the block. */
  predicate EntryReady(s: State, f: string) {
    && (HasAdoptions(s, f) ==> s.mempool.settled[f].pendingCommit || IsCommitting(s, f))
    && (f in s.mempool.settled && s.mempool.settled[f].committed ==> IsCommitting(s, f))
    && (f in s.mempool.settled && s.mempool.settled[f].pendingCommit && Computed(s.mempool, f) ==> IsCommitting(s, f))
    && (IsCommitting(s, f) ==> Committing(s.mempool, f) && HasAdoptions(s, f))
    && (f in s.mempool.settled && s.mempool.settled[f].pendingCommit ==> HasAdoptions(s, f))
    && (f in s.mempool.settled ==> Counted(s.counts, s.mempool.settled[f]))
  }

  ghost predicate Inv(s: State) {
    s.electorate.cachedCount in s.counts && forall f :: ForkReady(s, f) && EntryReady(s, f)
  }

  // ---------- Steps ----------

  predicate SameFork(s: State, after: State, f: string) {
    && s.counts <= after.counts
    && (f in s.mempool.forks <==> f in after.mempool.forks)
    && (f in s.mempool.forks ==> s.mempool.forks[f] == after.mempool.forks[f])
    && (f in s.mempool.settled <==> f in after.mempool.settled)
    && (f in s.mempool.settled ==> s.mempool.settled[f] == after.mempool.settled[f])
    && (f in s.tasks <==> f in after.tasks)
    && (f in s.tasks ==> s.tasks[f] == after.tasks[f])
  }

  lemma {:induction false} CountedLater(counts: set<nat>, later: set<nat>, entry: Settled)
    requires Counted(counts, entry) && counts <= later
    ensures Counted(later, entry)
  {
    forall k | 0 <= k < |entry.majorities| ensures InForce(later, entry.majorities[k]) {
      assert InForce(counts, entry.majorities[k]);
      var n :| n in counts && entry.majorities[k] == MajorityCount(n);
      assert n in later;
    }
  }

  lemma {:induction false} SameForkKeeps(c: Node, s: State, after: State, f: string)
    requires ForkReady(s, f) && EntryReady(s, f) && SameFork(s, after, f)
    ensures ForkReady(after, f) && EntryReady(after, f)
  {
    if f in s.mempool.settled {
      CountedLater(s.counts, after.counts, s.mempool.settled[f]);
    }
  }

  /** A step on one fork leaves the others alone. */
  lemma {:induction false} OneForkKeeps(c: Node, s: State, after: State, f: string)
    requires Inv(s) && ForkReady(after, f) && EntryReady(after, f)
    requires after.electorate.cachedCount in after.counts
    requires forall g :: g != f ==> SameFork(s, after, g)
    ensures Inv(after)
  {
    forall g ensures ForkReady(after, g) && EntryReady(after, g) {
      if g != f {
        SameForkKeeps(c, s, after, g);
      }
    }
  }

  lemma {:induction false} ProposedFork(c: Node, s: State, f: string, b: string, sender: string, seen: nat)
    requires ForkReady(s, f) && EntryReady(s, f) && Enabled(s, ProposeStep(f, b, sender, seen))
    ensures ForkReady(ProposeNext(c, s, f, b, sender, seen), f)
    ensures EntryReady(ProposeNext(c, s, f, b, sender, seen), f)
  {
  }

  lemma {:induction false} ProposeKeeps(c: Node, s: State, f: string, b: string, sender: string, seen: nat)
    requires Inv(s) && Enabled(s, ProposeStep(f, b, sender, seen))
    ensures Inv(ProposeNext(c, s, f, b, sender, seen))
  {
    assert ForkReady(s, f) && EntryReady(s, f);
    ProposedFork(c, s, f, b, sender, seen);
    OneForkKeeps(c, s, ProposeNext(c, s, f, b, sender, seen), f);
  }

  lemma {:induction false} ComputeKeeps(c: Node, s: State, f: string, seen: nat, now: int)
    requires Inv(s) && Enabled(s, ComputeStep(f, seen, now))
    ensures Inv(ComputeNext(c, s, f, seen, now))
  {
    assert ForkReady(s, f) && EntryReady(s, f);
    OneForkKeeps(c, s, ComputeNext(c, s, f, seen, now), f);
  }

  lemma {:induction false} CountingOne(counts: set<nat>, entry: Settled, v: Electorate, sender: string)
    requires Counted(counts, entry) && v.cachedCount in counts && sender !in entry.adoptions
    ensures var voted := entry.(adoptions := entry.adoptions + {sender}, majorities := entry.majorities
        + [Majority(v)]);
            && Counted(counts, voted)
            && (Reached(voted) <==> Reached(entry) || |entry.adoptions + {sender}| >= Majority(v))
  {
    var voted := entry.(adoptions := entry.adoptions + {sender}, majorities := entry.majorities + [Majority(v)]);
    var n := |entry.majorities|;
    assert InForce(counts, Majority(v));
    assert voted.majorities[n] == Majority(v);
    if Reached(entry) {
      var k :| 0 <= k < n && k + 1 >= entry.majorities[k];
      assert voted.majorities[k] == entry.majorities[k];
    }
  }

  lemma {:induction false} AdoptedEntry(c: Node, s: State, f: string, tip: string, sender: string)
    requires s.electorate.cachedCount in s.counts && EntryReady(s, f) && f !in s.tasks
    ensures var entry := SettledEntry(s.mempool, f, tip);
            var after := Adopt(c, s.mempool, s.electorate, f, tip, sender).settled[f];
            && Counted(s.counts, after)
            && (Reached(after) <==> Reached(entry) || Settles(c, s.mempool, s.electorate, f, tip, sender))
  {
    var entry := SettledEntry(s.mempool, f, tip);
    if CountsAdoption(c, s.mempool, s.electorate, f, tip, sender) {
      CountingOne(s.counts, entry, s.electorate, sender);
    }
  }

  lemma {:induction false} AdoptedFork(c: Node, s: State, f: string, tip: string, sender: string, seen: nat)
    requires s.electorate.cachedCount in s.counts
    requires ForkReady(s, f) && EntryReady(s, f) && Enabled(s, AdoptStep(f, tip, sender, seen))
    ensures ForkReady(AdoptNext(c, s, f, tip, sender, seen), f)
    ensures EntryReady(AdoptNext(c, s, f, tip, sender, seen), f)
  {
    AdoptedEntry(c, s, f, tip, sender);
  }

  lemma {:induction false} AdoptKeeps(c: Node, s: State, f: string, tip: string, sender: string, seen: nat)
    requires Inv(s) && Enabled(s, AdoptStep(f, tip, sender, seen))
    ensures Inv(AdoptNext(c, s, f, tip, sender, seen))
  {
    assert ForkReady(s, f) && EntryReady(s, f);
    AdoptedFork(c, s, f, tip, sender, seen);
    OneForkKeeps(c, s, AdoptNext(c, s, f, tip, sender, seen), f);
  }

  lemma {:induction false} CompareTipKeeps(c: Node, s: State, f: string)
    requires Inv(s) && Enabled(s, CompareTipStep(f))
    ensures Inv(CompareTip(s, f))
  {
    assert ForkReady(s, f) && EntryReady(s, f);
    OneForkKeeps(c, s, CompareTip(s, f), f);
  }

  lemma {:induction false} FinishKeeps(c: Node, s: State, f: string)
    requires Inv(s) && f in s.mempool.forks
    ensures Inv(Finish(s, f))
  {
    OneForkKeeps(c, s, Finish(s, f), f);
  }

  lemma {:induction false} AdvancingKeeps(c: Node, s: State, after: State, f: string)
    requires Inv(s) && IsCommitting(s, f) && IsCommitting(after, f)
    requires after.tasks == s.tasks[f := after.tasks[f]] && after.counts == s.counts && after.electorate == s.electorate
    requires after.mempool.forks == s.mempool.forks && after.mempool.settled == s.mempool.settled
    ensures Inv(after)
  {
    assert ForkReady(s, f) && EntryReady(s, f);
    OneForkKeeps(c, s, after, f);
  }

  lemma {:induction false} ReadSignatureKeeps(c: Node, s: State, f: string)
    requires Inv(s) && Enabled(s, ReadSignatureStep(f))
    ensures Inv(ReadSignature(c, s, f))
  {
    AdvancingKeeps(c, s, ReadSignature(c, s, f), f);
  }

  lemma {:induction false} InsertKeeps(c: Node, s: State, f: string)
    requires Inv(s) && Enabled(s, InsertStep(f))
    ensures Inv(Insert(s, f))
  {
    if InsertOne(s.db, s.mempool.forks[f].computed.value).None? {
      FinishKeeps(c, s, f);
    } else {
      AdvancingKeeps(c, s, Insert(s, f), f);
    }
  }

  lemma {:induction false} StrikingKeepsForks(c: Node, m: Mempool, b: string)
    ensures StrikeBlock(c, m, b).forks == m.forks && StrikeBlock(c, m, b).settled == m.settled
  {
  }

  lemma {:induction false} TimeoutKeeps(c: Node, s: State, f: string, b: string)
    requires Inv(s) && f !in s.tasks
    ensures Inv(s.(mempool := DropFork(StrikeBlock(c, s.mempool, b), f)))
  {
    StrikingKeepsForks(c, s.mempool, b);
    OneForkKeeps(c, s, s.(mempool := DropFork(StrikeBlock(c, s.mempool, b), f)), f);
  }

  lemma {:induction false} BystanderKeeps(c: Node, s: State, after: State)
    requires Inv(s) && after.tasks == s.tasks
    requires s.counts <= after.counts && after.electorate.cachedCount in after.counts
    requires after.mempool.forks == s.mempool.forks && after.mempool.settled == s.mempool.settled
    ensures Inv(after)
  {
    forall f ensures ForkReady(after, f) && EntryReady(after, f) {
      SameForkKeeps(c, s, after, f);
    }
  }

  lemma {:induction false} VerifyKeeps(c: Node, s: State, b: string, sender: string)
    requires Inv(s)
    ensures Inv(VerifyNext(c, s, b, sender))
  {
    BystanderKeeps(c, s, VerifyNext(c, s, b, sender));
  }

  lemma {:induction false} ForkStepKeeps(c: Node, s: State, step: Step)
    requires Inv(s) && Enabled(s, step) && IsForkStep(step)
    ensures Inv(Next(c, s, step))
  {
    match step
    case ProposeStep(f, b, sender, seen) => ProposeKeeps(c, s, f, b, sender, seen);
    case ComputeStep(f, seen, now) => ComputeKeeps(c, s, f, seen, now);
    case AdoptStep(f, tip, sender, seen) => AdoptKeeps(c, s, f, tip, sender, seen);
    case ReadTipStep(f) => AdvancingKeeps(c, s, s.(tasks := s.tasks[f := ComparingTip(TipHash(s.db))]), f);
    case CompareTipStep(f) => CompareTipKeeps(c, s, f);
    case ReadSignatureStep(f) => ReadSignatureKeeps(c, s, f);
    case InsertStep(f) => InsertKeeps(c, s, f);
    case AnnounceStep(f) => AdvancingKeeps(c, s, Announce(s, f), f);
    case FinishStep(f) => FinishKeeps(c, s, f);
    case TimeoutStep(f, b) => TimeoutKeeps(c, s, f, b);
  }

  lemma {:induction false} OtherStepKeeps(c: Node, s: State, step: Step)
    requires Inv(s) && Enabled(s, step)
    requires step.ArriveStep? || step.SelfSignedStep? || step.TakeOrphansStep? || step.ResignStep? || step.EvictStep?
             || step.ValidatorsStep? || step.SyncCountStep?
    ensures Inv(Next(c, s, step))
  {
    BystanderKeeps(c, s, Next(c, s, step));
  }

  lemma {:induction false} StepKeepsInv(c: Node, s: State, step: Step)
    requires Inv(s) && Enabled(s, step)
    ensures Inv(Next(c, s, step))
  {
    if IsForkStep(step) {
      ForkStepKeeps(c, s, step);
    } else if step.VerifyStep? {
      VerifyKeeps(c, s, step.b, step.sender);
    } else if step.ReplayStep? {
      var taken := s.(replays := s.replays[step.b := s.replays[step.b][1..]]);
      BystanderKeeps(c, s, taken);
      VerifyKeeps(c, taken, step.b, s.replays[step.b][0]);
    } else {
      OtherStepKeeps(c, s, step);
    }
  }

  lemma {:induction false} RunKeepsInv(c: Node, s: State, steps: seq<Step>)
    requires Inv(s) && CanRun(c, s, steps)
    ensures Inv(Run(c, s, steps))
    decreases |steps|
  {
    if steps == [] {
    } else {
      StepKeepsInv(c, s, steps[0]);
      RunKeepsInv(c, Next(c, s, steps[0]), steps[1..]);
    }
  }

  /** In every reachable state a commit is under way for exactly the forks that have their block and
      have reached the majority in force when some adoption was counted, and a block is had or being
      computed for exactly the adopted forks. */
  lemma {:induction false} CommitsExactlyWhenReady(c: Node, db: seq<Block>, v: Electorate, steps: seq<Step>, f: string)
    requires CanRun(c, Start(db, v), steps)
    ensures var s := Run(c, Start(db, v), steps);
            && (IsCommitting(s, f) <==> Computed(s.mempool, f) && HasAdoptions(s, f))
            && (IsAdopted(s, f) <==> Computed(s.mempool, f) || IsComputing(s, f))
            && (IsCommitting(s, f) ==>
                  Quorum.Backed(Quorum.EvidenceOfRun(c, db, v, steps), Quorum.ProposalOf(f),
                                s.mempool.forks[f].proposals))
  {
    var start := Start(db, v);
    RunKeepsInv(c, start, steps);
    Quorum.DecisionsHaveQuorums(c, db, v, steps);
    var s := Run(c, start, steps);
    assert ForkReady(s, f) && EntryReady(s, f);
    if f in s.mempool.forks {
      assert Quorum.ForkOk(Quorum.EvidenceOfRun(c, db, v, steps), f, s.mempool.forks[f]);
    }
  }

  /** While the cached number of validators never changes, that is the plain majority. */
  lemma {:induction false} SteadyMajority(counts: set<nat>, entry: Settled, n: nat)
    requires Counted(counts, entry) && counts == {n}
    ensures Reached(entry) <==> |entry.adoptions| >= MajorityCount(n)
  {
    assert forall k :: 0 <= k < |entry.majorities| ==> InForce(counts, entry.majorities[k]);
    if |entry.adoptions| >= MajorityCount(n) {
      var k := |entry.majorities| - 1;
      assert entry.majorities[k] == MajorityCount(n);
    }
  }

  lemma {:induction false} SteadyCommits(c: Node, db: seq<Block>, v: Electorate, steps: seq<Step>, f: string)
    requires CanRun(c, Start(db, v), steps) && Run(c, Start(db, v), steps).counts == {v.cachedCount}
    ensures var s := Run(c, Start(db, v), steps);
            IsCommitting(s, f) <==>
            Computed(s.mempool, f) && f in s.mempool.settled && |s.mempool.settled[f].adoptions| >= Majority(v)
  {
    CommitsExactlyWhenReady(c, db, v, steps, f);
    RunKeepsInv(c, Start(db, v), steps);
    var s := Run(c, Start(db, v), steps);
    assert EntryReady(s, f);
    if f in s.mempool.settled {
      SteadyMajority(s.counts, s.mempool.settled[f], v.cachedCount);
    }
  }

  // ---------- When the count falls ----------

  /** No fork is busy, and nothing but the given number of proposals of one block has been seen. */
  predicate Proposed(s: State, f: string, b: string, voters: set<string>) {
    && s.tasks == map[] && b in s.mempool.pendings && s.mempool.settled == map[]
    && s.mempool.forks == if voters == {} then map[] else map[f := Fork(b, voters, false, None)]
  }

  lemma {:induction false} Arriving(c: Node, first: State, block: Content, f: string) returns (s: State)
    requires first.mempool == Mempool(map[], [], map[], map[], map[], map[]) && first.tasks == map[]
    ensures Reaches(c, first, [ArriveStep(block, 0)], s) && Proposed(s, f, c.digest(block), {})
    ensures s.db == first.db && s.electorate == first.electorate
  {
    s := Next(c, first, ArriveStep(block, 0));
    Onward(c, first, [], first, ArriveStep(block, 0));
    assert [] + [ArriveStep(block, 0)] == [ArriveStep(block, 0)];
  }

  lemma {:induction false} FirstProposal(c: Node, s: State, f: string, b: string, p: string)
    requires Proposed(s, f, b, {}) && s.db != [] && TipAllows(f, s.db)
    requires s.electorate.cachedCount == 4 && p in s.electorate.validators && p != c.self
    ensures Enabled(s, ProposeStep(f, b, p, |s.db|))
    ensures var t := Next(c, s, ProposeStep(f, b, p, |s.db|));
            Proposed(t, f, b, {p, c.self}) && t.db == s.db && t.electorate == s.electorate
  {
    assert s.db[..|s.db|] == s.db;
    var votes := Voted(c, true, Fork(b, {}, false, None), p);
    assert votes == {p, c.self} && |votes| == 2;
  }

  lemma {:induction false} SecondProposal(c: Node, s: State, f: string, b: string, p: string, q: string)
    requires Proposed(s, f, b, {p, c.self}) && s.db != [] && TipAllows(f, s.db)
    requires s.electorate.cachedCount == 4 && q in s.electorate.validators && p != c.self && q !in {p, c.self}
    ensures Enabled(s, ProposeStep(f, b, q, |s.db|))
    ensures var t := Next(c, s, ProposeStep(f, b, q, |s.db|));
            && t.tasks == map[f := Computing(b)] && f in t.mempool.forks && b in t.mempool.pendings
            && t.mempool.settled == map[] && t.db == s.db && t.electorate == s.electorate
  {
    assert s.db[..|s.db|] == s.db;
    var votes := Voted(c, true, s.mempool.forks[f], q);
    assert votes == {p, c.self, q} && |votes| == 3;
  }

  /** The fork has its block and some adoptions that are no majority. */
  predicate Adopted(s: State, f: string, tip: string, voters: set<string>) {
    && s.tasks == map[] && Computed(s.mempool, f)
    && if voters == {} then s.mempool.settled == map[]
       else
         && f in s.mempool.settled && s.mempool.settled[f].finalTipHash == tip && !s.mempool.settled[f].committed
         && s.mempool.settled[f].adoptions == voters
  }

  lemma {:induction false} ComputingBlock(c: Node, s: State, f: string, b: string, tip: string)
    requires s.tasks == map[f := Computing(b)] && f in s.mempool.forks && b in s.mempool.pendings
    requires s.mempool.settled == map[] && s.db != []
    ensures Enabled(s, ComputeStep(f, |s.db|, 0))
    ensures var t := Next(c, s, ComputeStep(f, |s.db|, 0));
            Adopted(t, f, tip, {}) && t.db == s.db && t.electorate == s.electorate
  {
    assert s.tasks - {f} == map[];
  }

  lemma {:induction false} OneAdoption(c: Node, s: State, f: string, tip: string, voters: set<string>, p: string)
    requires Adopted(s, f, tip, voters) && s.db != [] && TipAllows(f, s.db)
    requires s.electorate.cachedCount == 4 && Accepts(c, s.electorate, p) && p !in voters && |voters| < 2
    ensures Enabled(s, AdoptStep(f, tip, p, |s.db|))
    ensures var t := Next(c, s, AdoptStep(f, tip, p, |s.db|));
            Adopted(t, f, tip, voters + {p}) && t.db == s.db && t.electorate == s.electorate
  {
    assert s.db[..|s.db|] == s.db;
    assert |voters + {p}| == |voters| + 1 < Majority(s.electorate);
    assert {} + {p} == {p};
  }

  lemma {:induction false} ReachingABlock(c: Node, db: seq<Block>, block: Content, f: string, tip: string,
      v: Electorate,
      p: string, q: string) returns (steps: seq<Step>, s: State)
    requires db != [] && TipAllows(f, db) && v.cachedCount == 4
    requires p != q && c.self !in {p, q} && {p, q} <= v.validators
    ensures Reaches(c, Start(db, v), steps, s) && Adopted(s, f, tip, {}) && s.db == db && s.electorate == v
  {
    var b, n, first := c.digest(block), |db|, Start(db, v);
    s := Arriving(c, first, block, f);
    steps := [ArriveStep(block, 0)];
    FirstProposal(c, s, f, b, p);
    steps, s := Take(c, first, steps, s, ProposeStep(f, b, p, n));
    SecondProposal(c, s, f, b, p, q);
    steps, s := Take(c, first, steps, s, ProposeStep(f, b, q, n));
    ComputingBlock(c, s, f, b, tip);
    steps, s := Take(c, first, steps, s, ComputeStep(f, n, 0));
  }

  /** Adoptions are not looked at again when the cached number falls: a fork may have its block and
      as many adoptions as are now a majority while nothing commits it. Here four validators
      became two after the node itself and one of them had adopted the fork. */
  lemma {:induction false} FallingCountLeavesForkWaiting(c: Node, db: seq<Block>, block: Content, f: string,
      tip: string,
      v: Electorate, p: string, q: string) returns (steps: seq<Step>, s: State)
    requires db != [] && TipAllows(f, db) && v.cachedCount == 4
    requires p != q && c.self !in {p, q} && {p, q} <= v.validators
    ensures Reaches(c, Start(db, v), steps, s)
    ensures Computed(s.mempool, f) && f in s.mempool.settled && !IsCommitting(s, f)
    ensures s.mempool.settled[f].adoptions == {c.self, p} && 2 >= Majority(s.electorate)
  {
    var n, first := |db|, Start(db, v);
    steps, s := ReachingABlock(c, db, block, f, tip, v, p, q);
    OneAdoption(c, s, f, tip, {}, c.self);
    steps, s := Take(c, first, steps, s, AdoptStep(f, tip, c.self, n));
    OneAdoption(c, s, f, tip, {} + {c.self}, p);
    steps, s := Take(c, first, steps, s, AdoptStep(f, tip, p, n));
    assert {} + {c.self} + {p} == {c.self, p} && |{c.self, p}| == 2;
    assert |{p, q}| == 2;
    steps, s := Take(c, first, steps, s, ValidatorsStep({p, q}));
    steps, s := Take(c, first, steps, s, SyncCountStep);
  }
}
