/** A block and the verifications of it may arrive in any order: those that come first are parked
    and replayed, and the outcome is the same. */
module ArrivalOrder {
  import opened L = Ledger
  import opened Consensus

  /** The steps of one block's arrival and of verifying it; no timeout, commit or change of stakes. */
  predicate Concerns(c: Node, block: Content, step: Step) {
    var b := c.digest(block);
    match step
    case ArriveStep(content, _) => content == block
    case VerifyStep(id, _) => id == b
    case SelfSignedStep(id) => id == b
    case TakeOrphansStep(id) => id == b
    case ReplayStep(id) => id == b
    case _ => false
  }

  function Sender(step: Step): set<string> {
    if step.VerifyStep? then {step.sender} else {}
  }

  /** Who sent a verification. */
  function Senders(steps: seq<Step>): set<string> {
    if steps == [] then {}
    else Senders(steps[..|steps| - 1]) + Sender(steps[|steps| - 1])
  }

  function Accepted(c: Node, v: Electorate, senders: set<string>): set<string> {
    set p | p in senders && Accepts(c, v, p)
  }

  function Elements(parked: map<string, seq<string>>, b: string): set<string> {
    if b in parked then set p | p in parked[b] else {}
  }

  /** Whose verifications are parked or taken out to be replayed. */
  function Waiting(s: State, b: string): set<string> {
    Elements(s.mempool.orphans, b) + Elements(s.replays, b)
  }

  ghost predicate EntryInv(c: Node, v: Electorate, e: Pending, signing: bool, senders: set<string>,
      waiting: set<string>) {
    && e.verifications <= Accepted(c, v, senders) + {c.self}
    && Accepted(c, v, senders) <= e.verifications + waiting
    && (signing ==> !e.eligible)
    && (!signing ==> (e.eligible <==> |e.verifications| >= Majority(v)))
    && (!signing && e.verifications != {} ==> c.self in e.verifications)
  }

  ghost predicate Inv(c: Node, b: string, s: State, senders: set<string>) {
    && Waiting(s, b) <= senders
    && (b in s.signing ==> s.signing[b] == Majority(s.electorate))
    && if b in s.mempool.pendings then
         EntryInv(c, s.electorate, s.mempool.pendings[b], b in s.signing, senders, Waiting(s, b))
       else
         b !in s.signing && Waiting(s, b) == senders
  }

  // ---------- Steps ----------

  lemma {:induction false} Parking(parked: map<string, seq<string>>, b: string, sender: string)
    ensures Elements(parked[b := (if b in parked then parked[b] else []) + [sender]], b) == Elements(parked, b)
        + {sender}
  {
  }

  lemma {:induction false} CountingKeeps(c: Node, v: Electorate, e: Pending, senders: set<string>,
      waiting: set<string>, sender: string)
    requires EntryInv(c, v, e, false, senders, waiting + {sender})
    ensures !Accepts(c, v, sender) || sender in e.verifications ==>
              EntryInv(c, v, e, false, senders, waiting)
    ensures Accepts(c, v, sender) && sender in senders && sender !in e.verifications ==>
              var counted := e.(verifications := e.verifications + {sender});
              if c.self in counted.verifications then
                EntryInv(c, v, Judged(Majority(v), counted), false, senders, waiting)
              else
                EntryInv(c, v, counted, true, senders, waiting)
  {
    if Accepts(c, v, sender) && sender !in e.verifications && c.self !in e.verifications + {sender} {
      assert e.verifications == {};
    } else if Accepts(c, v, sender) && sender !in e.verifications {
      assert |e.verifications + {sender}| == |e.verifications| + 1;
    }
  }

  /** Handling one verification, new or replayed; until then its sender counts as waiting. */
  lemma {:induction false} VerifyKeeps(c: Node, s: State, b: string, sender: string, senders: set<string>)
    requires b != "" && b !in s.signing && sender in senders && Waiting(s, b) <= senders
    requires if b in s.mempool.pendings then
               EntryInv(c, s.electorate, s.mempool.pendings[b], false, senders, Waiting(s, b) + {sender})
             else Waiting(s, b) + {sender} == senders
    ensures Inv(c, b, VerifyNext(c, s, b, sender), senders)
  {
    if b in s.mempool.pendings {
      CountingKeeps(c, s.electorate, s.mempool.pendings[b], senders, Waiting(s, b), sender);
    } else {
      Parking(s.mempool.orphans, b, sender);
    }
  }

  lemma {:induction false} NewVerifyKeeps(c: Node, s: State, b: string, sender: string, senders: set<string>)
    requires b != "" && Inv(c, b, s, senders) && b !in s.signing
    ensures Inv(c, b, VerifyNext(c, s, b, sender), senders + {sender})
  {
    VerifyKeeps(c, s, b, sender, senders + {sender});
  }

  lemma {:induction false} ReplayKeeps(c: Node, s: State, b: string, senders: set<string>)
    requires b != "" && Inv(c, b, s, senders) && Enabled(s, ReplayStep(b))
    ensures Inv(c, b, Replay(c, s, b), senders)
  {
    var sender, rest := s.replays[b][0], s.replays[b][1..];
    var taken := s.(replays := s.replays[b := rest]);
    assert s.replays[b] == [sender] + rest;
    assert Elements(s.replays, b) == Elements(taken.replays, b) + {sender};
    assert Waiting(s, b) == Waiting(taken, b) + {sender};
    VerifyKeeps(c, taken, b, sender, senders);
  }

  lemma {:induction false} TakeOrphansKeeps(c: Node, s: State, b: string, senders: set<string>)
    requires Inv(c, b, s, senders)
    ensures Inv(c, b, TakeOrphans(s, b), senders)
  {
    if b in s.mempool.orphans {
      var after := TakeOrphans(s, b);
      assert Elements(after.replays, b) == Elements(s.replays, b) + Elements(s.mempool.orphans, b);
      assert Waiting(after, b) == Waiting(s, b);
    }
  }

  lemma {:induction false} SelfSignedKeeps(c: Node, s: State, b: string, senders: set<string>)
    requires Inv(c, b, s, senders) && b in s.signing
    ensures Inv(c, b, Next(c, s, SelfSignedStep(b)), senders)
  {
  }

  lemma {:induction false} ArriveKeeps(c: Node, s: State, block: Content, originalTimestamp: int, senders: set<string>)
    requires Inv(c, c.digest(block), s, senders)
    ensures Inv(c, c.digest(block), Next(c, s, ArriveStep(block, originalTimestamp)), senders)
  {
  }

  lemma {:induction false} StepKeepsInv(c: Node, block: Content, s: State, step: Step, senders: set<string>)
    requires c.digest(block) != "" && Inv(c, c.digest(block), s, senders)
    requires Enabled(s, step) && Concerns(c, block, step)
    ensures Inv(c, c.digest(block), Next(c, s, step), senders + Sender(step))
    ensures Next(c, s, step).electorate == s.electorate
  {
    var b := c.digest(block);
    assert senders + {} == senders;
    match step
    case ArriveStep(_, originalTimestamp) => ArriveKeeps(c, s, block, originalTimestamp, senders);
    case VerifyStep(_, sender) => NewVerifyKeeps(c, s, b, sender, senders);
    case SelfSignedStep(_) => SelfSignedKeeps(c, s, b, senders);
    case TakeOrphansStep(_) => TakeOrphansKeeps(c, s, b, senders);
    case ReplayStep(_) => ReplayKeeps(c, s, b, senders);
  }

  // ---------- Runs ----------

  lemma {:induction false} RunKeepsInv(c: Node, block: Content, s: State, done: seq<Step>, steps: seq<Step>)
    requires c.digest(block) != "" && Inv(c, c.digest(block), s, Senders(done)) && CanRun(c, s, steps)
    requires forall k :: 0 <= k < |steps| ==> Concerns(c, block, steps[k])
    ensures Inv(c, c.digest(block), Run(c, s, steps), Senders(done + steps))
    ensures Run(c, s, steps).electorate == s.electorate
    decreases |steps|
  {
    if steps == [] {
      assert done + steps == done;
    } else {
      StepKeepsInv(c, block, s, steps[0], Senders(done));
      assert (done + [steps[0]])[..|done|] == done;
      assert done + steps == (done + [steps[0]]) + steps[1..];
      RunKeepsInv(c, block, Next(c, s, steps[0]), done + [steps[0]], steps[1..]);
    }
  }

  /** The block is unknown to the node. */
  predicate Unknown(s: State, b: string) {
    b !in s.mempool.pendings && b !in s.mempool.orphans && b !in s.replays && b !in s.signing
  }

  /** Every handler has run to its end. */
  predicate Quiet(s: State, b: string) {
    b in s.mempool.pendings && b !in s.signing && Waiting(s, b) == {}
  }

  /** In the end the verifiers are the node itself and all accepted senders, and the block is
      eligible exactly if they are a majority. The node's own verification is one of the run's. */
  lemma {:induction false} OutcomeOfArrivals(c: Node, block: Content, s: State, steps: seq<Step>)
    requires c.digest(block) != "" && Unknown(s, c.digest(block)) && CanRun(c, s, steps)
    requires forall k :: 0 <= k < |steps| ==> Concerns(c, block, steps[k])
    requires Quiet(Run(c, s, steps), c.digest(block)) && c.self in Senders(steps)
    ensures var e := Run(c, s, steps).mempool.pendings[c.digest(block)];
            && e.verifications == {c.self} + Accepted(c, s.electorate, Senders(steps))
            && (e.eligible <==> |e.verifications| >= Majority(s.electorate))
  {
    assert [] + steps == steps;
    RunKeepsInv(c, block, s, [], steps);
    assert c.self in Accepted(c, s.electorate, Senders(steps));
  }

  /** So two orders of the same verifications agree. */
  lemma {:induction false} ArrivalOrderIsIrrelevant(c: Node, block: Content, s: State, one: seq<Step>, two: seq<Step>)
    requires c.digest(block) != "" && Unknown(s, c.digest(block)) && CanRun(c, s, one) && CanRun(c, s, two)
    requires forall k :: 0 <= k < |one| ==> Concerns(c, block, one[k])
    requires forall k :: 0 <= k < |two| ==> Concerns(c, block, two[k])
    requires Quiet(Run(c, s, one), c.digest(block)) && Quiet(Run(c, s, two), c.digest(block))
    requires Senders(one) == Senders(two) && c.self in Senders(one)
    ensures var d, e := Run(c, s, one).mempool.pendings[c.digest(block)], Run(c, s,
        two).mempool.pendings[c.digest(block)];
            d.verifications == e.verifications && d.eligible == e.eligible
  {
    OutcomeOfArrivals(c, block, s, one);
    OutcomeOfArrivals(c, block, s, two);
  }
}
