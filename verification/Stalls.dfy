/** Stalled forks stop being retried: how often a block can survive a fork timeout. */
module Stalls {
  import opened L = Ledger
  import opened Consensus

  /** The node's own block, while it has a peer to send it to. */
  predicate Own(c: Node, e: Pending) {
    e.block.signer == c.wallet && c.hasPeer
  }

  function Left(used: nat): nat {
    if used < 3 then 3 - used else 0
  }

  /** The timeouts an entry can still go through. */
  function Patience(c: Node, e: Pending): nat {
    (if Own(c, e) then 3 * Left(e.rebroadcasts) else 0) + Left(e.strikes)
  }

  function PatienceOf(c: Node, m: Mempool, b: string): nat {
    if b in m.pendings then Patience(c, m.pendings[b]) else 0
  }

  predicate EntryOk(e: Pending) {
    e.strikes < 3 && e.rebroadcasts <= 3
  }

  predicate EntriesOk(m: Mempool) {
    forall b :: b in m.pendings ==> EntryOk(m.pendings[b])
  }

  /** Entries that differ at most in their verifications. */
  predicate SameStanding(e: Pending, w: Pending) {
    && e.block == w.block && e.received == w.received && e.originalTimestamp == w.originalTimestamp
    && e.strikes == w.strikes && e.rebroadcasts == w.rebroadcasts
  }

  predicate NoNewEntries(m: Mempool, after: Mempool) {
    && (forall b :: b in after.pendings ==> b in m.pendings && SameStanding(after.pendings[b], m.pendings[b]))
    && after.failed == m.failed
  }

  // ---------- One timeout ----------

  lemma {:induction false} StrikeSpends(c: Node, e: Pending)
    requires EntryOk(e)
    ensures match Strike(c, e)
            case Stays(w) => EntryOk(w) && w.block == e.block && Patience(c, w) == Patience(c, e) - 1 > 0
            case Resubmitted(w) => EntryOk(w) && w.block == e.block && Patience(c, w) == Patience(c, e) - 1 > 0
                && Own(c, e)
            case Purged => Patience(c, e) == 1 && !Own(c, e)
            case Failed(w) => w.block == e.block && Patience(c, e) == 1 && Own(c, e)
  {
  }

  /** A timeout costs its block one, and the last one takes it out: own blocks into failedBlocks. */
  lemma {:induction false} TimeoutSpends(c: Node, m: Mempool, b: string)
    requires EntriesOk(m) && b in m.pendings
    ensures var after := StrikeBlock(c, m, b);
            && EntriesOk(after)
            && PatienceOf(c, after, b) == PatienceOf(c, m, b) - 1
            && (PatienceOf(c, m, b) == 1 <==> b !in after.pendings)
            && (b in after.pendings ==> after.pendings[b].block == m.pendings[b].block)
            && (b !in after.pendings && Own(c, m.pendings[b]) ==> b in after.failed)
  {
    StrikeSpends(c, m.pendings[b]);
  }

  lemma {:induction false} TimeoutElsewhere(c: Node, m: Mempool, b: string, other: string)
    requires EntriesOk(m) && b != other
    ensures var after := StrikeBlock(c, m, other);
            && EntriesOk(after)
            && (b in after.pendings <==> b in m.pendings)
            && (b in m.pendings ==> after.pendings[b] == m.pendings[b])
            && (b in m.failed ==> b in after.failed)
  {
    if other in m.pendings {
      StrikeSpends(c, m.pendings[other]);
    }
  }

  // ---------- All other steps ----------

  predicate IsArrival(c: Node, step: Step, b: string) {
    step.ArriveStep? && c.digest(step.received) == b
  }

  lemma {:induction false} CommitsAddNoEntries(c: Node, s: State, step: Step)
    requires Enabled(s, step)
    requires step.ReadTipStep? || step.CompareTipStep? || step.ReadSignatureStep? || step.InsertStep?
        || step.AnnounceStep? || step.FinishStep?
    ensures NoNewEntries(s.mempool, Next(c, s, step).mempool)
  {
  }

  lemma {:induction false} ForksAddNoEntries(c: Node, s: State, step: Step)
    requires Enabled(s, step) && IsForkStep(step) && !step.TimeoutStep?
    ensures NoNewEntries(s.mempool, Next(c, s, step).mempool)
  {
    if step.ProposeStep? || step.AdoptStep? || step.ComputeStep? {
      assert Next(c, s, step).mempool.pendings == s.mempool.pendings;
    } else {
      CommitsAddNoEntries(c, s, step);
    }
  }

  lemma {:induction false} VotesAddNoEntries(c: Node, s: State, step: Step)
    requires Enabled(s, step) && !IsForkStep(step) && !step.ArriveStep? && !step.VerifyStep? && !step.ReplayStep?
    ensures NoNewEntries(s.mempool, Next(c, s, step).mempool)
  {
  }

  lemma {:induction false} VerifyAddsNoEntries(c: Node, m: Mempool, v: Electorate, b: string, sender: string)
    ensures NoNewEntries(m, Verify(c, m, v, b, sender))
  {
  }

  lemma {:induction false} QuietStepAddsNoEntries(c: Node, s: State, step: Step)
    requires Enabled(s, step) && !step.ArriveStep? && !step.TimeoutStep?
    ensures NoNewEntries(s.mempool, Next(c, s, step).mempool)
  {
    if step.VerifyStep? {
      VerifyAddsNoEntries(c, s.mempool, s.electorate, step.b, step.sender);
    } else if step.ReplayStep? {
      VerifyAddsNoEntries(c, s.mempool, s.electorate, step.b, s.replays[step.b][0]);
    } else if IsForkStep(step) {
      ForksAddNoEntries(c, s, step);
    } else {
      VotesAddNoEntries(c, s, step);
    }
  }

  lemma {:induction false} NoNewEntriesKeep(c: Node, m: Mempool, after: Mempool, b: string)
    requires EntriesOk(m) && NoNewEntries(m, after)
    ensures EntriesOk(after) && PatienceOf(c, after, b) <= PatienceOf(c, m, b)
    ensures b in after.pendings ==> PatienceOf(c, after, b) == PatienceOf(c, m, b)
  {
  }

  lemma {:induction false} ArrivalKeeps(c: Node, m: Mempool, received: Content, originalTimestamp: int, b: string)
    requires EntriesOk(m) && (c.digest(received) == b ==> b in m.pendings)
    ensures var after := Arrive(c, m, received, originalTimestamp);
            && EntriesOk(after) && after.failed == m.failed
            && (b in after.pendings <==> b in m.pendings)
            && (b in m.pendings ==> after.pendings[b] == m.pendings[b])
  {
  }

  // ---------- Runs ----------

  /** The block is not submitted afresh: it only arrives while it is pending. */
  predicate NotAfresh(c: Node, s: State, steps: seq<Step>, b: string)
    requires CanRun(c, s, steps)
    decreases |steps|
  {
    steps == [] ||
    ((IsArrival(c, steps[0], b) ==> b in s.mempool.pendings) && NotAfresh(c, Next(c, s, steps[0]), steps[1..], b))
  }

  predicate IsTimeoutOf(s: State, step: Step, b: string) {
    step.TimeoutStep? && step.b == b && b in s.mempool.pendings
  }

  /** The fork timeouts that found the block pending. */
  function Timeouts(c: Node, s: State, steps: seq<Step>, b: string): nat
    requires CanRun(c, s, steps)
    decreases |steps|
  {
    if steps == [] then 0
    else (if IsTimeoutOf(s, steps[0], b) then 1 else 0) + Timeouts(c, Next(c, s, steps[0]), steps[1..], b)
  }

  predicate Exhausts(c: Node, m: Mempool, b: string, timeouts: nat) {
    b in m.pendings && Own(c, m.pendings[b]) && 0 < timeouts == PatienceOf(c, m, b)
  }

  /** What a step does to the patience left, and to an own block that runs out of it. */
  ghost predicate Spent(c: Node, s: State, after: State, b: string, timeouts: nat) {
    && EntriesOk(after.mempool)
    && PatienceOf(c, after.mempool, b) + timeouts <= PatienceOf(c, s.mempool, b)
    && (b in s.mempool.failed ==> b in after.mempool.failed)
    && (b in s.mempool.pendings && b in after.mempool.pendings ==>
          after.mempool.pendings[b].block == s.mempool.pendings[b].block)
    && (b !in s.mempool.pendings ==> b !in after.mempool.pendings)
    && (Exhausts(c, s.mempool, b, timeouts) ==> b in after.mempool.failed)
  }

  lemma {:induction false} EntryHasPatience(c: Node, e: Pending)
    requires EntryOk(e)
    ensures 0 < Patience(c, e) <= if Own(c, e) then 12 else 3
  {
  }

  lemma {:induction false} QuietStepSpends(c: Node, s: State, step: Step, b: string)
    requires EntriesOk(s.mempool) && Enabled(s, step) && !step.ArriveStep? && !step.TimeoutStep?
    ensures Spent(c, s, Next(c, s, step), b, 0)
  {
    QuietStepAddsNoEntries(c, s, step);
    NoNewEntriesKeep(c, s.mempool, Next(c, s, step).mempool, b);
    if b in s.mempool.pendings {
      EntryHasPatience(c, s.mempool.pendings[b]);
    }
  }

  lemma {:induction false} StepSpends(c: Node, s: State, step: Step, b: string)
    requires EntriesOk(s.mempool) && Enabled(s, step)
    requires IsArrival(c, step, b) ==> b in s.mempool.pendings
    ensures Spent(c, s, Next(c, s, step), b, if IsTimeoutOf(s, step, b) then 1 else 0)
  {
    var m := s.mempool;
    match step
    case ArriveStep(received, originalTimestamp) => ArrivalKeeps(c, m, received, originalTimestamp, b);
    case TimeoutStep(f, other) =>
      if other == b {
        if b in m.pendings {
          TimeoutSpends(c, m, b);
        }
      } else {
        TimeoutElsewhere(c, m, b, other);
      }
    case _ => QuietStepSpends(c, s, step, b);
  }

  lemma {:induction false} SpentInTurn(c: Node, s: State, mid: State, after: State, b: string, t: nat, u: nat)
    requires EntriesOk(s.mempool) && Spent(c, s, mid, b, t) && Spent(c, mid, after, b, u)
    ensures Spent(c, s, after, b, t + u)
  {
    if b in mid.mempool.pendings {
      EntryHasPatience(c, mid.mempool.pendings[b]);
    }
  }

  lemma {:induction false} RunSpends(c: Node, s: State, steps: seq<Step>, b: string)
    requires EntriesOk(s.mempool) && CanRun(c, s, steps) && NotAfresh(c, s, steps, b)
    ensures Spent(c, s, Run(c, s, steps), b, Timeouts(c, s, steps, b))
    decreases |steps|
  {
    if steps == [] {
    } else {
      var mid := Next(c, s, steps[0]);
      StepSpends(c, s, steps[0], b);
      RunSpends(c, mid, steps[1..], b);
      SpentInTurn(c, s, mid, Run(c, mid, steps[1..]), b, if IsTimeoutOf(s, steps[0], b) then 1 else 0,
                  Timeouts(c, mid, steps[1..], b));
    }
  }

  /** In any run a foreign block meets at most three timeouts and an own block at most twelve, and
      is then out of the mempool, an own one in failedBlocks. */
  lemma {:induction false} StalledForksStop(c: Node, s: State, steps: seq<Step>, b: string)
    requires EntriesOk(s.mempool) && CanRun(c, s, steps) && NotAfresh(c, s, steps, b)
    requires b in s.mempool.pendings
    ensures var n, bound := Timeouts(c, s, steps, b), if Own(c, s.mempool.pendings[b]) then 12 else 3;
            var after := Run(c, s, steps).mempool;
            && n <= bound
            && (n == bound ==> b !in after.pendings)
            && (n == bound && Own(c, s.mempool.pendings[b]) ==> b in after.failed)
  {
    RunSpends(c, s, steps, b);
    EntryHasPatience(c, s.mempool.pendings[b]);
    var after := Run(c, s, steps).mempool;
    if b in after.pendings {
      EntryHasPatience(c, after.pendings[b]);
    }
  }

  function Struck(c: Node, m: Mempool, b: string, n: nat): Mempool
    decreases n
  {
    if n == 0 then m else Struck(c, StrikeBlock(c, m, b), b, n - 1)
  }

  /** A fresh entry's full patience, so the bounds are met by that many timeouts in a row. */
  lemma {:induction false} TimeoutsInARow(c: Node, m: Mempool, b: string, n: nat)
    requires EntriesOk(m) && b in m.pendings && n <= PatienceOf(c, m, b)
    ensures PatienceOf(c, Struck(c, m, b, n), b) == PatienceOf(c, m, b) - n
    ensures b in Struck(c, m, b, n).pendings <==> n < PatienceOf(c, m, b)
    decreases n
  {
    if n > 0 {
      TimeoutSpends(c, m, b);
      if b in StrikeBlock(c, m, b).pendings {
        TimeoutsInARow(c, StrikeBlock(c, m, b), b, n - 1);
      }
    } else {
      EntryHasPatience(c, m.pendings[b]);
    }
  }

  /** After a rebroadcast the node's own signature is counted but not judged: with at most one
      validator it is a majority by itself, and still the block is not eligible. */
  lemma {:induction false} ResignedBlockIsNotJudged(c: Node, m: Mempool, v: Electorate, b: string)
    requires b in m.pendings && Strike(c, m.pendings[b]).Resubmitted?
    ensures var e := Resign(c, StrikeBlock(c, m, b), b).pendings[b];
            && !e.eligible
            && (|e.verifications| >= Majority(v) <==> v.cachedCount <= 1)
  {
    assert {} + {c.self} == {c.self};
  }
}
