/** Quorum safety of the consensus machine: every vote that an eligible block, an adopted fork or a
    commit has is the node's own, or came in a message of the run from a voter acceptable at that
    moment and has been held ever since; and at some moment, since when the decision has stood, the
    votes were a majority by the number then in force. */
module Quorum {
  import opened L = Ledger
  import opened Consensus

  /** A step of a run and the state it was taken in. */
  datatype Moment = Moment(state: State, step: Step)

  function Moments(c: Node, s: State, steps: seq<Step>): (done: seq<Moment>)
    requires CanRun(c, s, steps)
    ensures |done| == |steps|
    decreases |steps|
  {
    if steps == [] then [] else [Moment(s, steps[0])] + Moments(c, Next(c, s, steps[0]), steps[1..])
  }

  /** What is voted on. */
  datatype Poll = VerificationOf(b: string) | ProposalOf(f: string) | AdoptionOf(f: string)

  /** The moment a message of the sender for this poll was handled. */
  predicate Handled(m: Moment, poll: Poll, sender: string) {
    match poll
    case VerificationOf(b) =>
      || m.step == VerifyStep(b, sender)
      || (m.step == ReplayStep(b) && b in m.state.replays && m.state.replays[b] != []
          && m.state.replays[b][0] == sender)
    case ProposalOf(f) => m.step.ProposeStep? && m.step.f == f && m.step.sender == sender
    case AdoptionOf(f) => m.step.AdoptStep? && m.step.f == f && m.step.sender == sender
  }

  function VotesIn(m: Mempool, poll: Poll): set<string> {
    match poll
    case VerificationOf(b) => if b in m.pendings then m.pendings[b].verifications else {}
    case ProposalOf(f) => if f in m.forks then m.forks[f].proposals else {}
    case AdoptionOf(f) => if f in m.settled then m.settled[f].adoptions else {}
  }

  /** From moment i on the vote has been held without a break. */
  ghost predicate HeldSince(done: seq<Moment>, i: nat, poll: Poll, voter: string) {
    forall j :: i < j < |done| ==> voter in VotesIn(done[j].state.mempool, poll)
  }

  /** The voter is the node itself, or its message was handled while it was an active validator or
      while the cached number of validators was zero, and its vote has been held since. */
  ghost predicate Counted(c: Node, done: seq<Moment>, poll: Poll, voter: string) {
    || voter == c.self
    || exists i :: 0 <= i < |done| && HeldSince(done, i, poll, voter)
         && Handled(done[i], poll, voter) && Accepts(c, done[i].state.electorate, voter)
  }

  predicate TipHeard(s: State, f: string, seen: nat) {
    seen <= |s.db| && TipAllows(f, s.db[..seen])
  }

  /** The moment the majority was read for the poll, and for forks was reached. */
  predicate Decides(c: Node, m: Moment, poll: Poll) {
    match poll
    case VerificationOf(b) => (m.step.VerifyStep? || m.step.ReplayStep?) && m.step.b == b
    case ProposalOf(f) =>
      && m.step.ProposeStep? && m.step.f == f && TipHeard(m.state, f, m.step.seen)
      && Confirms(c, m.state.mempool, m.state.electorate, f, m.step.b, m.step.sender)
    case AdoptionOf(f) =>
      && m.step.AdoptStep? && m.step.f == f && TipHeard(m.state, f, m.step.seen)
      && Settles(c, m.state.mempool, m.state.electorate, f, m.step.tip, m.step.sender)
  }

  /** The poll is decided: the block eligible or about to be judged, the fork adopted, its commit
      scheduled or under way. */
  predicate Stands(s: State, poll: Poll) {
    match poll
    case VerificationOf(b) => b in s.signing || (b in s.mempool.pendings && s.mempool.pendings[b].eligible)
    case ProposalOf(f) => f in s.mempool.forks && s.mempool.forks[f].adopted
    case AdoptionOf(f) =>
      || (f in s.tasks && !s.tasks[f].Computing?)
      || (f in s.mempool.settled && (s.mempool.settled[f].pendingCommit || s.mempool.settled[f].committed))
  }

  ghost predicate StoodSince(done: seq<Moment>, i: nat, poll: Poll) {
    forall j :: i < j < |done| ==> Stands(done[j].state, poll)
  }

  /** Some moment decided the poll by a majority of at most n, and that has stood since. */
  ghost predicate Reached(c: Node, done: seq<Moment>, poll: Poll, n: nat) {
    exists i :: 0 <= i < |done| && StoodSince(done, i, poll)
      && Decides(c, done[i], poll) && n >= Majority(done[i].state.electorate)
  }

  /** What a run attests: which votes were counted, and for which numbers of votes a majority was
      reached. */
  datatype Evidence = Evidence(counted: (Poll, string) -> bool, reached: (Poll, nat) -> bool)

  ghost function EvidenceOf(c: Node, done: seq<Moment>): Evidence {
    Evidence((poll, voter) => Counted(c, done, poll, voter), (poll, n: nat) => Reached(c, done, poll, n))
  }

  /** The node's own votes always count, and more votes are a majority as well. */
  ghost predicate Sane(c: Node, ev: Evidence) {
    && (forall poll :: ev.counted(poll, c.self))
    && (forall poll, n: nat, more: nat :: ev.reached(poll, n) && n <= more ==> ev.reached(poll, more))
  }

  ghost predicate Attests(c: Node, ev: Evidence, m: Moment) {
    && (forall poll, voter :: Handled(m, poll, voter) && Accepts(c, m.state.electorate, voter) ==>
          ev.counted(poll, voter))
    && (forall poll, n: nat :: Decides(c, m, poll) && n >= Majority(m.state.electorate) ==> ev.reached(poll, n))
  }

  /** Of what holds in a state, the later evidence shows all that the earlier shows. */
  ghost predicate Carries(later: Evidence, ev: Evidence, s: State) {
    && (forall poll, voter :: ev.counted(poll, voter) && voter in VotesIn(s.mempool, poll) ==>
          later.counted(poll, voter))
    && (forall poll, n: nat :: ev.reached(poll, n) && Stands(s, poll) ==> later.reached(poll, n))
  }

  ghost predicate Known(ev: Evidence, poll: Poll, voters: set<string>) {
    forall voter :: voter in voters ==> ev.counted(poll, voter)
  }

  ghost predicate Backed(ev: Evidence, poll: Poll, voters: set<string>) {
    ev.reached(poll, |voters|)
  }

  ghost predicate HasQuorum(ev: Evidence, poll: Poll, voters: set<string>) {
    Known(ev, poll, voters) && Backed(ev, poll, voters)
  }

  ghost predicate PendingOk(ev: Evidence, b: string, e: Pending) {
    && Known(ev, VerificationOf(b), e.verifications)
    && (e.eligible ==> Backed(ev, VerificationOf(b), e.verifications))
  }

  ghost predicate ForkOk(ev: Evidence, f: string, fork: Fork) {
    && Known(ev, ProposalOf(f), fork.proposals)
    && (fork.computed.Some? ==> fork.adopted)
    && (fork.adopted ==> Backed(ev, ProposalOf(f), fork.proposals))
  }

  ghost predicate SettledOk(ev: Evidence, f: string, entry: Settled) {
    && Known(ev, AdoptionOf(f), entry.adoptions)
    && (entry.pendingCommit || entry.committed ==> Backed(ev, AdoptionOf(f), entry.adoptions))
  }

  ghost predicate CommitOk(ev: Evidence, commit: Commit) {
    && HasQuorum(ev, ProposalOf(commit.forkId), commit.proposals)
    && HasQuorum(ev, AdoptionOf(commit.forkId), commit.adoptions)
  }

  ghost predicate MempoolOk(ev: Evidence, m: Mempool) {
    && (forall b :: b in m.pendings ==> PendingOk(ev, b, m.pendings[b]))
    && (forall f :: f in m.forks ==> ForkOk(ev, f, m.forks[f]))
    && (forall f :: f in m.settled ==> SettledOk(ev, f, m.settled[f]))
  }

  ghost predicate TaskOk(ev: Evidence, m: Mempool, f: string, t: Task) {
    if t.Computing? then f in m.forks && m.forks[f].adopted
    else Committing(m, f) && Backed(ev, AdoptionOf(f), m.settled[f].adoptions)
  }

  /** The majority kept for the time the own signature takes was read in the run. */
  ghost predicate WasRead(ev: Evidence, b: string, majority: nat) {
    ev.reached(VerificationOf(b), majority)
  }

  ghost predicate Inv(ev: Evidence, s: State) {
    && MempoolOk(ev, s.mempool)
    && (forall b :: b in s.signing ==> WasRead(ev, b, s.signing[b]))
    && (forall f :: f in s.tasks ==> TaskOk(ev, s.mempool, f, s.tasks[f]))
  }

  // ---------- Votes ----------

  lemma {:induction false} Within(part: set<string>, whole: set<string>)
    requires part <= whole
    ensures |part| <= |whole|
  {
    assert whole == part + (whole - part);
    assert |whole| == |part| + |whole - part|;
  }

  lemma {:induction false} MoreIsBacked(c: Node, ev: Evidence, poll: Poll, voters: set<string>, more: set<string>)
    requires Sane(c, ev) && Backed(ev, poll, voters) && voters <= more
    ensures Backed(ev, poll, more)
  {
    Within(voters, more);
  }

  // ---------- Later in the run ----------

  lemma {:induction false} EvidenceIsSane(c: Node, done: seq<Moment>)
    ensures Sane(c, EvidenceOf(c, done))
  {
    var ev := EvidenceOf(c, done);
    forall poll, n: nat, more: nat | ev.reached(poll, n) && n <= more ensures ev.reached(poll, more) {
      assert Reached(c, done, poll, n);
      var i :| 0 <= i < |done| && StoodSince(done, i, poll)
               && Decides(c, done[i], poll) && n >= Majority(done[i].state.electorate);
      assert Reached(c, done, poll, more);
    }
  }

  lemma {:induction false} VoteStaysCounted(c: Node, done: seq<Moment>, m: Moment, poll: Poll, voter: string)
    requires Counted(c, done, poll, voter) && voter in VotesIn(m.state.mempool, poll)
    ensures Counted(c, done + [m], poll, voter)
  {
    if voter != c.self {
      var i :| 0 <= i < |done| && HeldSince(done, i, poll, voter)
               && Handled(done[i], poll, voter) && Accepts(c, done[i].state.electorate, voter);
      assert (done + [m])[i] == done[i];
      assert HeldSince(done + [m], i, poll, voter);
    }
  }

  lemma {:induction false} MajorityStaysReached(c: Node, done: seq<Moment>, m: Moment, poll: Poll, n: nat)
    requires Reached(c, done, poll, n) && Stands(m.state, poll)
    ensures Reached(c, done + [m], poll, n)
  {
    var i :| 0 <= i < |done| && StoodSince(done, i, poll)
             && Decides(c, done[i], poll) && n >= Majority(done[i].state.electorate);
    assert (done + [m])[i] == done[i];
    assert StoodSince(done + [m], i, poll);
  }

  lemma {:induction false} EvidenceCarries(c: Node, done: seq<Moment>, m: Moment)
    ensures Carries(EvidenceOf(c, done + [m]), EvidenceOf(c, done), m.state)
  {
    forall poll, voter | Counted(c, done, poll, voter) && voter in VotesIn(m.state.mempool, poll)
      ensures Counted(c, done + [m], poll, voter)
    {
      VoteStaysCounted(c, done, m, poll, voter);
    }
    forall poll, n: nat | Reached(c, done, poll, n) && Stands(m.state, poll)
      ensures Reached(c, done + [m], poll, n)
    {
      MajorityStaysReached(c, done, m, poll, n);
    }
  }

  lemma {:induction false} MomentAttests(c: Node, done: seq<Moment>, m: Moment)
    ensures Attests(c, EvidenceOf(c, done + [m]), m)
  {
    var later, i := done + [m], |done|;
    assert later[i] == m;
    forall poll, voter | Handled(m, poll, voter) && Accepts(c, m.state.electorate, voter)
      ensures Counted(c, later, poll, voter)
    {
      assert HeldSince(later, i, poll, voter);
    }
    forall poll, n: nat | Decides(c, m, poll) && n >= Majority(m.state.electorate)
      ensures Reached(c, later, poll, n)
    {
      assert StoodSince(later, i, poll);
    }
  }

  lemma {:induction false} LaterPending(ev: Evidence, later: Evidence, s: State, b: string)
    requires Inv(ev, s) && Carries(later, ev, s) && b in s.mempool.pendings
    ensures PendingOk(later, b, s.mempool.pendings[b])
  {
    assert PendingOk(ev, b, s.mempool.pendings[b]);
    assert VotesIn(s.mempool, VerificationOf(b)) == s.mempool.pendings[b].verifications;
    assert s.mempool.pendings[b].eligible ==> Stands(s, VerificationOf(b));
  }

  lemma {:induction false} LaterFork(ev: Evidence, later: Evidence, s: State, f: string)
    requires Inv(ev, s) && Carries(later, ev, s) && f in s.mempool.forks
    ensures ForkOk(later, f, s.mempool.forks[f])
  {
    assert ForkOk(ev, f, s.mempool.forks[f]);
    assert VotesIn(s.mempool, ProposalOf(f)) == s.mempool.forks[f].proposals;
    assert s.mempool.forks[f].adopted ==> Stands(s, ProposalOf(f));
  }

  lemma {:induction false} LaterSettled(ev: Evidence, later: Evidence, s: State, f: string)
    requires Inv(ev, s) && Carries(later, ev, s) && f in s.mempool.settled
    ensures SettledOk(later, f, s.mempool.settled[f])
  {
    var entry := s.mempool.settled[f];
    assert SettledOk(ev, f, entry);
    assert VotesIn(s.mempool, AdoptionOf(f)) == entry.adoptions;
    assert entry.pendingCommit || entry.committed ==> Stands(s, AdoptionOf(f));
  }

  /** What has been counted and reached stays so. */
  lemma {:induction false} LaterInv(ev: Evidence, later: Evidence, s: State)
    requires Inv(ev, s) && Carries(later, ev, s)
    ensures Inv(later, s)
  {
    forall b | b in s.mempool.pendings ensures PendingOk(later, b, s.mempool.pendings[b]) {
      LaterPending(ev, later, s, b);
    }
    forall f | f in s.mempool.forks ensures ForkOk(later, f, s.mempool.forks[f]) {
      LaterFork(ev, later, s, f);
    }
    forall f | f in s.mempool.settled ensures SettledOk(later, f, s.mempool.settled[f]) {
      LaterSettled(ev, later, s, f);
    }
    forall b | b in s.signing ensures WasRead(later, b, s.signing[b]) {
      assert WasRead(ev, b, s.signing[b]) && Stands(s, VerificationOf(b));
    }
    forall f | f in s.tasks ensures TaskOk(later, s.mempool, f, s.tasks[f]) {
      assert TaskOk(ev, s.mempool, f, s.tasks[f]);
      assert !s.tasks[f].Computing? ==> Stands(s, AdoptionOf(f));
    }
  }

  // ---------- Mempool changes ----------

  /** The moment at which a verification is handled. */
  predicate Verifies(m: Moment, v: Electorate, b: string, sender: string) {
    && m.state.electorate == v && Handled(m, VerificationOf(b), sender)
    && (m.step.VerifyStep? || m.step.ReplayStep?) && m.step.b == b
  }

  lemma {:induction false} CountedOk(c: Node, ev: Evidence, m: Moment, v: Electorate, b: string, e: Pending,
      sender: string)
    requires PendingOk(ev, b, e) && Accepts(c, v, sender)
    requires Sane(c, ev) && Attests(c, ev, m) && Verifies(m, v, b, sender)
    ensures var counted := e.(verifications := e.verifications + {sender});
            PendingOk(ev, b, counted) && PendingOk(ev, b, Judged(Majority(v), counted))
  {
    var poll, voters := VerificationOf(b), e.verifications + {sender};
    if e.eligible {
      MoreIsBacked(c, ev, poll, e.verifications, voters);
    }
  }

  lemma {:induction false} VerifyKeeps(c: Node, ev: Evidence, at: Moment, m: Mempool, v: Electorate, b: string,
      sender: string)
    requires MempoolOk(ev, m) && Sane(c, ev) && Attests(c, ev, at) && Verifies(at, v, b, sender)
    ensures MempoolOk(ev, Verify(c, m, v, b, sender))
    ensures Verify(c, m, v, b, sender).forks == m.forks && Verify(c, m, v, b, sender).settled == m.settled
  {
    if b in m.pendings && Accepts(c, v, sender) {
      CountedOk(c, ev, at, v, b, m.pendings[b], sender);
    }
  }

  lemma {:induction false} OwnVoteOk(c: Node, ev: Evidence, b: string, e: Pending, majority: nat)
    requires Sane(c, ev) && PendingOk(ev, b, e) && WasRead(ev, b, majority)
    ensures PendingOk(ev, b, Judged(majority, e.(verifications := e.verifications + {c.self})))
  {
    var poll, voters := VerificationOf(b), e.verifications + {c.self};
    if e.eligible {
      MoreIsBacked(c, ev, poll, e.verifications, voters);
    }
  }

  lemma {:induction false} SelfSignedKeeps(c: Node, ev: Evidence, m: Mempool, b: string, majority: nat)
    requires Sane(c, ev) && MempoolOk(ev, m) && WasRead(ev, b, majority)
    ensures MempoolOk(ev, SelfSigned(c, m, b, majority))
  {
    if b in m.pendings {
      OwnVoteOk(c, ev, b, m.pendings[b], majority);
    }
  }

  lemma {:induction false} ResignedOk(c: Node, ev: Evidence, b: string, e: Pending)
    requires Sane(c, ev) && PendingOk(ev, b, e)
    ensures PendingOk(ev, b, e.(verifications := e.verifications + {c.self}))
  {
    if e.eligible {
      MoreIsBacked(c, ev, VerificationOf(b), e.verifications, e.verifications + {c.self});
    }
  }

  lemma {:induction false} ResignKeeps(c: Node, ev: Evidence, m: Mempool, b: string)
    requires Sane(c, ev) && MempoolOk(ev, m)
    ensures MempoolOk(ev, Resign(c, m, b))
  {
    if b in m.pendings {
      ResignedOk(c, ev, b, m.pendings[b]);
    }
  }

  lemma {:induction false} NewEntryOk(c: Node, ev: Evidence, b: string, received: Content, originalTimestamp: int)
    ensures PendingOk(ev, b, NewPending(c, received, originalTimestamp))
  {
  }

  /** The moment at which a proposal is handled on a tip that allows it. */
  predicate Proposes(m: Moment, s: State, f: string, b: string, sender: string) {
    && m.state == s && m.step.ProposeStep? && m.step.f == f && m.step.b == b && m.step.sender == sender
    && TipHeard(s, f, m.step.seen)
  }

  lemma {:induction false} ProposedFork(c: Node, ev: Evidence, at: Moment, s: State, f: string, b: string,
      sender: string)
    requires ForkOk(ev, f, ForkEntry(s.mempool, f, b))
    requires Sane(c, ev) && Attests(c, ev, at) && Proposes(at, s, f, b, sender)
    ensures ForkOk(ev, f, Propose(c, s.mempool, s.electorate, f, b, sender).forks[f])
  {
    var m, v, poll := s.mempool, s.electorate, ProposalOf(f);
    var fork := ForkEntry(m, f, b);
    var votes := Voted(c, b in m.pendings, fork, sender);
    if CountsProposal(c, m, v, f, b, sender) {
      assert Known(ev, poll, votes);
      if fork.adopted {
        MoreIsBacked(c, ev, poll, fork.proposals, votes);
      }
      assert Decides(c, at, poll) <==> Confirms(c, m, v, f, b, sender);
    }
  }

  lemma {:induction false} ReplacingFork(c: Node, ev: Evidence, m: Mempool, f: string, fork: Fork)
    requires MempoolOk(ev, m) && ForkOk(ev, f, fork)
    ensures MempoolOk(ev, m.(forks := m.forks[f := fork]))
  {
  }

  lemma {:induction false} NoForkOk(c: Node, ev: Evidence, m: Mempool, f: string, b: string)
    requires MempoolOk(ev, m)
    ensures ForkOk(ev, f, ForkEntry(m, f, b))
  {
    assert f in m.forks ==> ForkOk(ev, f, m.forks[f]);
  }

  /** An adoption is new exactly when the majority now in force is reached. */
  lemma {:induction false} ProposeKeeps(c: Node, ev: Evidence, at: Moment, s: State, f: string, b: string,
      sender: string)
    requires MempoolOk(ev, s.mempool) && Sane(c, ev) && Attests(c, ev, at) && Proposes(at, s, f, b, sender)
    ensures var after := Propose(c, s.mempool, s.electorate, f, b, sender);
            && MempoolOk(ev, after)
            && (Confirms(c, s.mempool, s.electorate, f, b, sender) <==>
                !ForkEntry(s.mempool, f, b).adopted && after.forks[f].adopted)
            && (Confirms(c, s.mempool, s.electorate, f, b, sender) ==>
                  |after.forks[f].proposals| >= Majority(s.electorate))
  {
    NoForkOk(c, ev, s.mempool, f, b);
    ProposedFork(c, ev, at, s, f, b, sender);
    ReplacingFork(c, ev, s.mempool, f, Propose(c, s.mempool, s.electorate, f, b, sender).forks[f]);
  }

  lemma {:induction false} ComputeKeeps(c: Node, ev: Evidence, m: Mempool, f: string, b: string, db: seq<Block>,
      now: int)
    requires MempoolOk(ev, m) && f in m.forks && m.forks[f].adopted
    ensures MempoolOk(ev, Compute(c, m, f, b, db, now))
  {
    assert ForkOk(ev, f, m.forks[f]);
    ReplacingFork(c, ev, m, f, Compute(c, m, f, b, db, now).forks[f]);
  }

  /** The moment at which an adoption is handled on a tip that allows it. */
  predicate Adopts(m: Moment, s: State, f: string, tip: string, sender: string) {
    && m.state == s && m.step.AdoptStep? && m.step.f == f && m.step.tip == tip && m.step.sender == sender
    && TipHeard(s, f, m.step.seen)
  }

  lemma {:induction false} AdoptedEntry(c: Node, ev: Evidence, at: Moment, s: State, f: string, tip: string,
      sender: string)
    requires SettledOk(ev, f, SettledEntry(s.mempool, f, tip))
    requires Sane(c, ev) && Attests(c, ev, at) && Adopts(at, s, f, tip, sender)
    ensures var after := Adopt(c, s.mempool, s.electorate, f, tip, sender).settled[f];
            && SettledOk(ev, f, after)
            && (Settles(c, s.mempool, s.electorate, f, tip, sender) ==> Backed(ev, AdoptionOf(f), after.adoptions))
  {
    var poll, entry := AdoptionOf(f), SettledEntry(s.mempool, f, tip);
    var votes := entry.adoptions + {sender};
    if CountsAdoption(c, s.mempool, s.electorate, f, tip, sender) {
      if entry.pendingCommit || entry.committed {
        MoreIsBacked(c, ev, poll, entry.adoptions, votes);
      }
      assert Decides(c, at, poll) <==> Settles(c, s.mempool, s.electorate, f, tip, sender);
    }
  }

  lemma {:induction false} ReplacingEntry(c: Node, ev: Evidence, m: Mempool, f: string, entry: Settled)
    requires MempoolOk(ev, m) && SettledOk(ev, f, entry)
    ensures MempoolOk(ev, m.(settled := m.settled[f := entry]))
  {
  }

  /** A commit is started or scheduled only when the majority now in force is reached. */
  lemma {:induction false} AdoptKeeps(c: Node, ev: Evidence, at: Moment, s: State, f: string, tip: string,
      sender: string)
    requires MempoolOk(ev, s.mempool) && Sane(c, ev) && Attests(c, ev, at) && Adopts(at, s, f, tip, sender)
    ensures var after := Adopt(c, s.mempool, s.electorate, f, tip, sender);
            && MempoolOk(ev, after)
            && (Settles(c, s.mempool, s.electorate, f, tip, sender) ==>
                  && Backed(ev, AdoptionOf(f), after.settled[f].adoptions)
                  && |after.settled[f].adoptions| >= Majority(s.electorate))
  {
    assert f in s.mempool.settled ==> SettledOk(ev, f, s.mempool.settled[f]);
    AdoptedEntry(c, ev, at, s, f, tip, sender);
    ReplacingEntry(c, ev, s.mempool, f, Adopt(c, s.mempool, s.electorate, f, tip, sender).settled[f]);
  }

  lemma {:induction false} StruckOk(c: Node, ev: Evidence, b: string, e: Pending)
    requires PendingOk(ev, b, e)
    ensures match Strike(c, e)
            case Stays(w) => PendingOk(ev, b, w)
            case Resubmitted(w) => PendingOk(ev, b, w)
            case _ => true
  {
  }

  lemma {:induction false} StrikeKeeps(c: Node, ev: Evidence, m: Mempool, b: string)
    requires MempoolOk(ev, m)
    ensures MempoolOk(ev, StrikeBlock(c, m, b))
    ensures StrikeBlock(c, m, b).forks == m.forks && StrikeBlock(c, m, b).settled == m.settled
  {
    if b in m.pendings {
      StruckOk(c, ev, b, m.pendings[b]);
    }
  }

  // ---------- What a message adds ----------

  /** A sender is heard if it is the node itself or an active validator, or if none are cached. */
  predicate Heard(c: Node, s: State, sender: string) {
    sender == c.self || s.electorate.cachedCount == 0 || sender in s.electorate.validators
  }

  /** A proposal on an allowed tip opens its fork for the block it names, adds its sender if that is
      heard and has not proposed, and with it the node itself if it has the block; and nothing else. */
  lemma {:induction false} ProposalAdds(c: Node, s: State, f: string, b: string, sender: string, seen: nat,
      voter: string)
    requires Enabled(s, ProposeStep(f, b, sender, seen)) && TipHeard(s, f, seen)
    ensures var before, after := VotesIn(s.mempool, ProposalOf(f)), Next(c, s, ProposeStep(f, b, sender, seen)).mempool;
            && f in after.forks
            && after.forks[f].blockId == (if f in s.mempool.forks then s.mempool.forks[f].blockId else b)
            && (voter in after.forks[f].proposals <==>
                  || voter in before
                  || (Heard(c, s, sender) && sender !in before
                      && (voter == sender || (voter == c.self && b in s.mempool.pendings))))
            && after == s.mempool.(forks := s.mempool.forks[f := after.forks[f]])
  {
  }

  /** It adopts the fork, and has the block that it names computed, exactly if it adds a vote and the
      votes are then a majority by the cached number. */
  lemma {:induction false} ProposalConfirms(c: Node, s: State, f: string, b: string, sender: string, seen: nat)
    requires Enabled(s, ProposeStep(f, b, sender, seen)) && TipHeard(s, f, seen)
    ensures var before, t := VotesIn(s.mempool, ProposalOf(f)), Next(c, s, ProposeStep(f, b, sender, seen));
            var adopted := f in s.mempool.forks && s.mempool.forks[f].adopted;
            var confirmed := Heard(c, s, sender) && sender !in before && !adopted
                             && |t.mempool.forks[f].proposals| >= MajorityCount(s.electorate.cachedCount);
            && t.mempool.forks[f].adopted == (adopted || confirmed)
            && t.tasks == if confirmed then s.tasks[f := Computing(b)] else s.tasks
  {
  }

  /** An adoption on an allowed tip adds its sender if that is heard, has not adopted and names the final
      tip that the fork's first adoption named; and nothing else. */
  lemma {:induction false} AdoptionAdds(c: Node, s: State, f: string, tip: string, sender: string, seen: nat,
      voter: string)
    requires Enabled(s, AdoptStep(f, tip, sender, seen)) && TipHeard(s, f, seen)
    ensures var before, after := VotesIn(s.mempool, AdoptionOf(f)), Next(c, s, AdoptStep(f, tip, sender, seen)).mempool;
            && f in after.settled
            && after.settled[f].finalTipHash
               == (if f in s.mempool.settled then s.mempool.settled[f].finalTipHash else tip)
            && (voter in after.settled[f].adoptions <==>
                  || voter in before
                  || (voter == sender && Heard(c, s, sender) && after.settled[f].finalTipHash == tip))
            && after == s.mempool.(settled := s.mempool.settled[f := after.settled[f]])
  {
  }

  /** It starts the commit, or schedules it if the block is not computed yet, exactly if it adds a vote
      and the votes are then a majority by the cached number. */
  lemma {:induction false} AdoptionSettles(c: Node, s: State, f: string, tip: string, sender: string, seen: nat)
    requires Enabled(s, AdoptStep(f, tip, sender, seen)) && TipHeard(s, f, seen)
    ensures var before, t := VotesIn(s.mempool, AdoptionOf(f)), Next(c, s, AdoptStep(f, tip, sender, seen));
            var scheduled := f in s.mempool.settled && s.mempool.settled[f].pendingCommit;
            var after := t.mempool.settled[f];
            var settled := Heard(c, s, sender) && sender !in before && after.finalTipHash == tip && !after.committed
                           && |after.adoptions| >= MajorityCount(s.electorate.cachedCount);
            && after.pendingCommit == (scheduled || (settled && !Computed(s.mempool, f)))
            && t.tasks == if settled && Computed(s.mempool, f) then s.tasks[f := ReadingTip] else s.tasks
  {
  }

  /** On any other tip neither changes anything. */
  lemma {:induction false} ForeignTipIsIgnored(c: Node, s: State, step: Step)
    requires Enabled(s, step) && (step.ProposeStep? || step.AdoptStep?) && !TipHeard(s, step.f, step.seen)
    ensures Next(c, s, step) == s
  {
  }

  // ---------- Steps ----------

  lemma {:induction false} VerifyStepKeeps(c: Node, ev: Evidence, at: Moment, s: State, b: string, sender: string)
    requires Inv(ev, s) && Sane(c, ev) && Attests(c, ev, at) && Verifies(at, s.electorate, b, sender)
    ensures Inv(ev, VerifyNext(c, s, b, sender))
  {
    VerifyKeeps(c, ev, at, s.mempool, s.electorate, b, sender);
    assert WasRead(ev, b, Majority(s.electorate));
  }

  lemma {:induction false} ReplayKeeps(c: Node, ev: Evidence, s: State, b: string)
    requires Inv(ev, s) && Enabled(s, ReplayStep(b)) && Sane(c, ev) && Attests(c, ev, Moment(s, ReplayStep(b)))
    ensures Inv(ev, Replay(c, s, b))
  {
    var taken := s.(replays := s.replays[b := s.replays[b][1..]]);
    VerifyStepKeeps(c, ev, Moment(s, ReplayStep(b)), taken, b, s.replays[b][0]);
  }

  lemma {:induction false} ProposeStepKeeps(c: Node, ev: Evidence, s: State, f: string, b: string, sender: string,
      seen: nat)
    requires Inv(ev, s) && Enabled(s, ProposeStep(f, b, sender, seen))
    requires Sane(c, ev) && Attests(c, ev, Moment(s, ProposeStep(f, b, sender, seen)))
    ensures Inv(ev, ProposeNext(c, s, f, b, sender, seen))
  {
    if !TipAllows(f, s.db[..seen]) {
      return;
    }
    ProposeKeeps(c, ev, Moment(s, ProposeStep(f, b, sender, seen)), s, f, b, sender);
    var after := ProposeNext(c, s, f, b, sender, seen);
    forall g | g in after.tasks ensures TaskOk(ev, after.mempool, g, after.tasks[g]) {
      if g != f {
        assert TaskOk(ev, s.mempool, g, s.tasks[g]);
      }
    }
  }

  lemma {:induction false} ComputeStepKeeps(c: Node, ev: Evidence, s: State, f: string, seen: nat, now: int)
    requires Inv(ev, s) && Enabled(s, ComputeStep(f, seen, now))
    ensures Inv(ev, ComputeNext(c, s, f, seen, now))
  {
    assert TaskOk(ev, s.mempool, f, s.tasks[f]);
    ComputeKeeps(c, ev, s.mempool, f, s.tasks[f].blockId, s.db[..seen], now);
    var after := ComputeNext(c, s, f, seen, now);
    forall g | g in after.tasks ensures TaskOk(ev, after.mempool, g, after.tasks[g]) {
      if g == f {
        assert SettledOk(ev, f, after.mempool.settled[f]);
      } else {
        assert TaskOk(ev, s.mempool, g, s.tasks[g]);
      }
    }
  }

  lemma {:induction false} AdoptStepKeeps(c: Node, ev: Evidence, s: State, f: string, tip: string, sender: string,
      seen: nat)
    requires Inv(ev, s) && Enabled(s, AdoptStep(f, tip, sender, seen))
    requires Sane(c, ev) && Attests(c, ev, Moment(s, AdoptStep(f, tip, sender, seen)))
    ensures Inv(ev, AdoptNext(c, s, f, tip, sender, seen))
  {
    if !TipAllows(f, s.db[..seen]) {
      return;
    }
    AdoptKeeps(c, ev, Moment(s, AdoptStep(f, tip, sender, seen)), s, f, tip, sender);
    var after := AdoptNext(c, s, f, tip, sender, seen);
    forall g | g in after.tasks ensures TaskOk(ev, after.mempool, g, after.tasks[g]) {
      if g != f {
        assert TaskOk(ev, s.mempool, g, s.tasks[g]);
      }
    }
  }

  lemma {:induction false} DroppingForkKeeps(c: Node, ev: Evidence, s: State, f: string)
    requires Inv(ev, s)
    ensures Inv(ev, s.(mempool := DropFork(s.mempool, f), tasks := s.tasks - {f}))
  {
    var m := DropFork(s.mempool, f);
    forall g | g in s.tasks && g != f ensures TaskOk(ev, m, g, s.tasks[g]) {
      assert TaskOk(ev, s.mempool, g, s.tasks[g]);
    }
  }

  lemma {:induction false} MarkingCommittedKeeps(c: Node, ev: Evidence, s: State, f: string)
    requires Inv(ev, s) && f in s.tasks && !s.tasks[f].Computing?
    ensures var marked := s.mempool.settled[f := s.mempool.settled[f].(committed := true)];
            Inv(ev, s.(mempool := s.mempool.(settled := marked), tasks := s.tasks[f := ReadingSignature]))
  {
    assert TaskOk(ev, s.mempool, f, s.tasks[f]);
    var entry := s.mempool.settled[f].(committed := true);
    assert SettledOk(ev, f, s.mempool.settled[f]) && SettledOk(ev, f, entry);
    ReplacingEntry(c, ev, s.mempool, f, entry);
    var m := s.mempool.(settled := s.mempool.settled[f := entry]);
    forall g | g in s.tasks ensures TaskOk(ev, m, g, s.tasks[g]) {
      assert TaskOk(ev, s.mempool, g, s.tasks[g]);
    }
  }

  lemma {:induction false} CompareTipKeeps(c: Node, ev: Evidence, s: State, f: string)
    requires Inv(ev, s) && Enabled(s, CompareTipStep(f))
    ensures Inv(ev, CompareTip(s, f))
  {
    DroppingForkKeeps(c, ev, s, f);
    MarkingCommittedKeeps(c, ev, s, f);
  }

  lemma {:induction false} ReadsKeep(c: Node, ev: Evidence, s: State, f: string, t: Task)
    requires Inv(ev, s) && f in s.tasks && !s.tasks[f].Computing? && !t.Computing?
    ensures Inv(ev, s.(tasks := s.tasks[f := t]))
  {
    assert TaskOk(ev, s.mempool, f, s.tasks[f]);
  }

  lemma {:induction false} DroppingKeeps(c: Node, ev: Evidence, s: State, b: string)
    requires Inv(ev, s)
    ensures Inv(ev, s.(mempool := DropPending(s.mempool, b)))
  {
    var m := DropPending(s.mempool, b);
    forall g | g in s.tasks ensures TaskOk(ev, m, g, s.tasks[g]) {
      assert TaskOk(ev, s.mempool, g, s.tasks[g]);
    }
  }

  lemma {:induction false} EvictingKeeps(c: Node, ev: Evidence, s: State, signature: string)
    requires Inv(ev, s)
    ensures Inv(ev, s.(mempool := Evict(s.mempool, signature)))
  {
    var first := FirstSigned(s.mempool, s.mempool.order, signature);
    if signature != "" && first.Some? {
      DroppingKeeps(c, ev, s, first.value);
    }
  }

  lemma {:induction false} ReadSignatureKeeps(c: Node, ev: Evidence, s: State, f: string)
    requires Inv(ev, s) && Enabled(s, ReadSignatureStep(f))
    ensures Inv(ev, ReadSignature(c, s, f))
  {
    ReadsKeep(c, ev, s, f, Finishing);
    ReadsKeep(c, ev, s, f, Inserting(|s.db|));
    DroppingKeeps(c, ev, s.(tasks := s.tasks[f := Finishing]), c.digest(s.mempool.forks[f].computed.value.content));
  }

  lemma {:induction false} FinishKeeps(c: Node, ev: Evidence, s: State, f: string)
    requires Inv(ev, s) && f in s.mempool.forks
    ensures Inv(ev, Finish(s, f))
  {
    var dropped := s.(mempool := DropPending(s.mempool, s.mempool.forks[f].blockId));
    DroppingKeeps(c, ev, s, s.mempool.forks[f].blockId);
    DroppingForkKeeps(c, ev, dropped, f);
  }

  lemma {:induction false} InsertKeeps(c: Node, ev: Evidence, s: State, f: string)
    requires Inv(ev, s) && Enabled(s, InsertStep(f))
    ensures Inv(ev, Insert(s, f))
  {
    assert TaskOk(ev, s.mempool, f, s.tasks[f]);
    match InsertOne(s.db, s.mempool.forks[f].computed.value) {
      case None => FinishKeeps(c, ev, s, f);
      case Some(_) => ReadsKeep(c, ev, s, f, Announcing);
    }
  }

  lemma {:induction false} AnnounceKeeps(c: Node, ev: Evidence, s: State, f: string)
    requires Inv(ev, s) && Enabled(s, AnnounceStep(f))
    ensures Inv(ev, Announce(s, f))
  {
    ReadsKeep(c, ev, s, f, Finishing);
    EvictingKeeps(c, ev, s.(tasks := s.tasks[f := Finishing]), s.mempool.forks[f].computed.value.content.signature);
  }

  lemma {:induction false} TimeoutKeeps(c: Node, ev: Evidence, s: State, f: string, b: string)
    requires Inv(ev, s) && f !in s.tasks
    ensures Inv(ev, s.(mempool := DropFork(StrikeBlock(c, s.mempool, b), f)))
  {
    StrikeKeeps(c, ev, s.mempool, b);
    var struck := s.(mempool := StrikeBlock(c, s.mempool, b));
    forall g | g in s.tasks ensures TaskOk(ev, struck.mempool, g, s.tasks[g]) {
      assert TaskOk(ev, s.mempool, g, s.tasks[g]);
    }
    DroppingForkKeeps(c, ev, struck, f);
    assert s.tasks - {f} == s.tasks;
  }

  lemma {:induction false} ArriveKeeps(c: Node, ev: Evidence, s: State, received: Content, originalTimestamp: int)
    requires Inv(ev, s)
    ensures Inv(ev, s.(mempool := Arrive(c, s.mempool, received, originalTimestamp)))
  {
    NewEntryOk(c, ev, c.digest(received), received, originalTimestamp);
    var m := Arrive(c, s.mempool, received, originalTimestamp);
    forall g | g in s.tasks ensures TaskOk(ev, m, g, s.tasks[g]) {
      assert TaskOk(ev, s.mempool, g, s.tasks[g]);
    }
  }

  lemma {:induction false} SignedKeeps(c: Node, ev: Evidence, s: State, b: string)
    requires Sane(c, ev) && Inv(ev, s) && b in s.signing
    ensures Inv(ev, Next(c, s, SelfSignedStep(b)))
  {
    SelfSignedKeeps(c, ev, s.mempool, b, s.signing[b]);
  }

  lemma {:induction false} ResignStepKeeps(c: Node, ev: Evidence, s: State, b: string)
    requires Sane(c, ev) && Inv(ev, s)
    ensures Inv(ev, s.(mempool := Resign(c, s.mempool, b)))
  {
    ResignKeeps(c, ev, s.mempool, b);
  }

  lemma {:induction false} OrphansKeep(c: Node, ev: Evidence, s: State, b: string)
    requires Inv(ev, s)
    ensures Inv(ev, TakeOrphans(s, b))
  {
  }

  lemma {:induction false} ForkStepKeeps(c: Node, ev: Evidence, s: State, step: Step)
    requires Inv(ev, s) && Enabled(s, step) && Sane(c, ev) && Attests(c, ev, Moment(s, step)) && IsForkStep(step)
    ensures Inv(ev, Next(c, s, step))
  {
    match step
    case ProposeStep(f, b, sender, seen) => ProposeStepKeeps(c, ev, s, f, b, sender, seen);
    case ComputeStep(f, seen, now) => ComputeStepKeeps(c, ev, s, f, seen, now);
    case AdoptStep(f, tip, sender, seen) => AdoptStepKeeps(c, ev, s, f, tip, sender, seen);
    case ReadTipStep(f) => ReadsKeep(c, ev, s, f, ComparingTip(TipHash(s.db)));
    case CompareTipStep(f) => CompareTipKeeps(c, ev, s, f);
    case ReadSignatureStep(f) => ReadSignatureKeeps(c, ev, s, f);
    case InsertStep(f) => InsertKeeps(c, ev, s, f);
    case AnnounceStep(f) => AnnounceKeeps(c, ev, s, f);
    case FinishStep(f) => FinishKeeps(c, ev, s, f);
    case TimeoutStep(f, b) => TimeoutKeeps(c, ev, s, f, b);
  }

  lemma {:induction false} OtherStepKeeps(c: Node, ev: Evidence, s: State, step: Step)
    requires Inv(ev, s) && Enabled(s, step) && Sane(c, ev) && Attests(c, ev, Moment(s, step)) && !IsForkStep(step)
    ensures Inv(ev, Next(c, s, step))
  {
    match step
    case ArriveStep(received, originalTimestamp) => ArriveKeeps(c, ev, s, received, originalTimestamp);
    case VerifyStep(b, sender) => VerifyStepKeeps(c, ev, Moment(s, step), s, b, sender);
    case SelfSignedStep(b) => SignedKeeps(c, ev, s, b);
    case TakeOrphansStep(b) => OrphansKeep(c, ev, s, b);
    case ReplayStep(b) => ReplayKeeps(c, ev, s, b);
    case ResignStep(b) => ResignStepKeeps(c, ev, s, b);
    case EvictStep(signature) => EvictingKeeps(c, ev, s, signature);
    case ValidatorsStep(_) =>
    case SyncCountStep =>
  }

  /** Every step keeps the evidence for all that has been decided. */
  lemma {:induction false} StepKeepsInv(c: Node, done: seq<Moment>, s: State, step: Step)
    requires Inv(EvidenceOf(c, done), s) && Enabled(s, step)
    ensures Inv(EvidenceOf(c, done + [Moment(s, step)]), Next(c, s, step))
  {
    var at := Moment(s, step);
    var later := EvidenceOf(c, done + [at]);
    EvidenceCarries(c, done, at);
    EvidenceIsSane(c, done + [at]);
    MomentAttests(c, done, at);
    LaterInv(EvidenceOf(c, done), later, s);
    if IsForkStep(step) {
      ForkStepKeeps(c, later, s, step);
    } else {
      OtherStepKeeps(c, later, s, step);
    }
  }

  lemma {:induction false} RunKeepsInv(c: Node, done: seq<Moment>, s: State, steps: seq<Step>)
    requires Inv(EvidenceOf(c, done), s) && CanRun(c, s, steps)
    ensures Inv(EvidenceOf(c, done + Moments(c, s, steps)), Run(c, s, steps))
    decreases |steps|
  {
    if steps == [] {
      assert done + [] == done;
    } else {
      var next := Next(c, s, steps[0]);
      StepKeepsInv(c, done, s, steps[0]);
      RunKeepsInv(c, done + [Moment(s, steps[0])], next, steps[1..]);
      assert done + [Moment(s, steps[0])] + Moments(c, next, steps[1..]) == done + Moments(c, s, steps);
    }
  }

  /** What a run from an empty mempool attests. */
  ghost function EvidenceOfRun(c: Node, db: seq<Block>, v: Electorate, steps: seq<Step>): Evidence
    requires CanRun(c, Start(db, v), steps)
  {
    EvidenceOf(c, Moments(c, Start(db, v), steps))
  }

  /** In every such run all that has been decided is backed by the moments of the run. */
  lemma {:induction false} DecisionsHaveQuorums(c: Node, db: seq<Block>, v: Electorate, steps: seq<Step>)
    requires CanRun(c, Start(db, v), steps)
    ensures Inv(EvidenceOfRun(c, db, v, steps), Run(c, Start(db, v), steps))
  {
    RunKeepsInv(c, [], Start(db, v), steps);
    assert [] + Moments(c, Start(db, v), steps) == Moments(c, Start(db, v), steps);
  }

  // ---------- The log ----------

  /** The moment the block was inserted, the votes it was committed with had their quorums. */
  ghost predicate BackedAt(c: Node, done: seq<Moment>, commit: Commit, n: nat) {
    && n < |done| && done[n].step == InsertStep(commit.forkId)
    && CommitOk(EvidenceOf(c, done[..n]), commit)
  }

  ghost predicate IsBacked(c: Node, done: seq<Moment>, commit: Commit) {
    exists n: nat :: BackedAt(c, done, commit, n)
  }

  ghost predicate LogOk(c: Node, done: seq<Moment>, log: seq<Commit>) {
    forall k :: 0 <= k < |log| ==> IsBacked(c, done, log[k])
  }

  lemma {:induction false} BackedLater(c: Node, done: seq<Moment>, m: Moment, commit: Commit)
    requires IsBacked(c, done, commit)
    ensures IsBacked(c, done + [m], commit)
  {
    var n: nat :| BackedAt(c, done, commit, n);
    assert (done + [m])[..n] == done[..n];
    assert BackedAt(c, done + [m], commit, n);
  }

  lemma {:induction false} LogLater(c: Node, done: seq<Moment>, m: Moment, log: seq<Commit>)
    requires LogOk(c, done, log)
    ensures LogOk(c, done + [m], log)
  {
    forall k | 0 <= k < |log| ensures IsBacked(c, done + [m], log[k]) {
      BackedLater(c, done, m, log[k]);
    }
  }

  lemma {:induction false} OnlyInsertsAreLogged(c: Node, s: State, step: Step)
    requires Enabled(s, step)
    ensures Next(c, s, step).log == s.log
            || (step.InsertStep? && Next(c, s, step).log == s.log + [CommitOf(s.mempool, step.f)])
  {
  }

  lemma {:induction false} InsertIsBacked(c: Node, done: seq<Moment>, s: State, f: string)
    requires Inv(EvidenceOf(c, done), s) && Enabled(s, InsertStep(f))
    ensures IsBacked(c, done + [Moment(s, InsertStep(f))], CommitOf(s.mempool, f))
  {
    var ev := EvidenceOf(c, done);
    assert TaskOk(ev, s.mempool, f, s.tasks[f]);
    assert ForkOk(ev, f, s.mempool.forks[f]) && SettledOk(ev, f, s.mempool.settled[f]);
    var later := done + [Moment(s, InsertStep(f))];
    assert later[..|done|] == done;
    assert BackedAt(c, later, CommitOf(s.mempool, f), |done|);
  }

  lemma {:induction false} StepKeepsLog(c: Node, done: seq<Moment>, s: State, step: Step)
    requires Inv(EvidenceOf(c, done), s) && LogOk(c, done, s.log) && Enabled(s, step)
    ensures LogOk(c, done + [Moment(s, step)], Next(c, s, step).log)
  {
    LogLater(c, done, Moment(s, step), s.log);
    OnlyInsertsAreLogged(c, s, step);
    if step.InsertStep? {
      InsertIsBacked(c, done, s, step.f);
    }
  }

  lemma {:induction false} RunKeepsLog(c: Node, done: seq<Moment>, s: State, steps: seq<Step>)
    requires Inv(EvidenceOf(c, done), s) && LogOk(c, done, s.log) && CanRun(c, s, steps)
    ensures LogOk(c, done + Moments(c, s, steps), Run(c, s, steps).log)
    decreases |steps|
  {
    if steps == [] {
      assert done + [] == done;
    } else {
      var next := Next(c, s, steps[0]);
      StepKeepsInv(c, done, s, steps[0]);
      StepKeepsLog(c, done, s, steps[0]);
      RunKeepsLog(c, done + [Moment(s, steps[0])], next, steps[1..]);
      assert done + [Moment(s, steps[0])] + Moments(c, next, steps[1..]) == done + Moments(c, s, steps);
    }
  }

  /** In every run from an empty mempool each commit had its quorums when its block was inserted. */
  lemma {:induction false} CommitsHaveQuorums(c: Node, db: seq<Block>, v: Electorate, steps: seq<Step>, k: nat)
      returns (n: nat)
    requires CanRun(c, Start(db, v), steps) && k < |Run(c, Start(db, v), steps).log|
    ensures BackedAt(c, Moments(c, Start(db, v), steps), Run(c, Start(db, v), steps).log[k], n)
  {
    var start := Start(db, v);
    var done := Moments(c, start, steps);
    RunKeepsLog(c, [], start, steps);
    assert [] + done == done;
    assert IsBacked(c, done, Run(c, start, steps).log[k]);
    n :| BackedAt(c, done, Run(c, start, steps).log[k], n);
  }

  // ---------- While the cached number does not change ----------

  ghost predicate Noted(done: seq<Moment>, s: State) {
    s.electorate.cachedCount in s.counts && forall m :: m in done ==> m.state.electorate.cachedCount in s.counts
  }

  lemma {:induction false} RunNotesCounts(c: Node, done: seq<Moment>, s: State, steps: seq<Step>)
    requires Noted(done, s) && CanRun(c, s, steps)
    ensures Noted(done + Moments(c, s, steps), Run(c, s, steps))
    decreases |steps|
  {
    if steps == [] {
      assert done + [] == done;
    } else {
      var next := Next(c, s, steps[0]);
      assert s.counts <= next.counts && next.electorate.cachedCount in next.counts;
      RunNotesCounts(c, done + [Moment(s, steps[0])], next, steps[1..]);
      assert done + [Moment(s, steps[0])] + Moments(c, next, steps[1..]) == done + Moments(c, s, steps);
    }
  }

  /** The voter is the node itself, or was an active validator when its message was handled, and its
      vote has been held since. */
  ghost predicate Qualified(c: Node, done: seq<Moment>, poll: Poll, voter: string) {
    || voter == c.self
    || exists i :: 0 <= i < |done| && HeldSince(done, i, poll, voter)
         && Handled(done[i], poll, voter) && voter in done[i].state.electorate.validators
  }

  lemma {:induction false} SteadyQuorum(c: Node, done: seq<Moment>, n: nat, poll: Poll, voters: set<string>)
    requires HasQuorum(EvidenceOf(c, done), poll, voters)
    requires forall m :: m in done ==> m.state.electorate.cachedCount == n
    ensures |voters| >= MajorityCount(n)
    ensures n > 0 ==> forall voter :: voter in voters ==> Qualified(c, done, poll, voter)
  {
    assert Reached(c, done, poll, |voters|);
    forall voter | n > 0 && voter in voters ensures Qualified(c, done, poll, voter) {
      assert Counted(c, done, poll, voter);
    }
  }

  // ---------- Whether two quorums meet ----------

  /** The voters a node counts: every validator, and itself under its network address besides. */
  ghost predicate IsQuorum(self: string, validators: set<string>, voters: set<string>) {
    voters <= validators + {self} && |voters| >= MajorityCount(|validators|)
  }

  lemma {:induction false} Part(whole: set<string>, n: nat) returns (part: set<string>)
    requires n <= |whole|
    ensures part <= whole && |part| == n && |whole - part| == |whole| - n
  {
    if n == 0 {
      part := {};
      assert whole - {} == whole;
    } else {
      var x: string :| x in whole;
      var rest := Part(whole - {x}, n - 1);
      part := rest + {x};
      assert whole - part == (whole - {x}) - rest;
    }
  }

  lemma {:induction false} Meeting(whole: set<string>, p: set<string>, q: set<string>)
    requires p <= whole && q <= whole && p !! q
    ensures |p| + |q| <= |whole|
  {
    assert |p + q| == |p| + |q|;
    Within(p + q, whole);
  }

  /** With the node itself as one voter more, any two quorums share a voter exactly when the number
      of validators is even. */
  lemma {:induction false} QuorumsMeet(self: string, validators: set<string>)
    requires self !in validators
    ensures |validators| % 2 == 0 <==>
              forall p, q :: IsQuorum(self, validators, p) && IsQuorum(self, validators, q) ==> !(p !! q)
  {
    var all := validators + {self};
    assert |all| == |validators| + 1;
    if |validators| % 2 == 0 {
      forall p, q | IsQuorum(self, validators, p) && IsQuorum(self, validators, q) ensures !(p !! q) {
        if p !! q {
          Meeting(all, p, q);
        }
      }
    } else {
      var p := Part(all, MajorityCount(|validators|));
      assert IsQuorum(self, validators, p) && IsQuorum(self, validators, all - p) && p !! (all - p);
    }
  }
}
