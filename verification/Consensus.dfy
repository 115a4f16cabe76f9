/** peer_handlers/bft_coordinator/BftCoordinator.ts over models/mempool/Mempool.ts: one node's
    consensus state, changed by one step at a time.

    A step is what runs between two awaits, so steps of different handlers interleave freely. The
    mutex allows one handler per fork id or block id: a fork with a task is held by the handler
    that the task belongs to, and a block in `signing` by the handler that awaits its signature,
    with the majority that it read before.
    A read of the chain that was answered some steps earlier saw a prefix of it, whose length is
    the parameter `seen`. Forks carry one block, as the code's own proposals do.
 */
module Consensus {
  import opened Platform
  import opened Wrappers
  import opened L = Ledger

  /** An entry is dropped as soon as it is marked committed, so that mark is not kept. What was
      received is history. */
  datatype Pending = Pending(
    block: Content,
    received: Content,
    originalTimestamp: int,
    verifications: set<string>,
    eligible: bool,
    strikes: nat,
    rebroadcasts: nat)

  datatype Fork = Fork(blockId: string, proposals: set<string>, adopted: bool, computed: Option<Block>)

  /** The majorities in force when the adoptions were counted, one after the other, are history. */
  datatype Settled = Settled(
    finalTipHash: string,
    adoptions: set<string>,
    committed: bool,
    pendingCommit: bool,
    majorities: seq<nat>)

  /** Where the handler that holds a fork's mutex is suspended. Inserting remembers how long the
      chain was when its signatures were searched. */
  datatype Task = Computing(blockId: string) | ReadingTip | ComparingTip(lastHash: string)
    | ReadingSignature | Inserting(searched: nat) | Announcing | Finishing

  /** What a block was committed with. */
  datatype Commit = Commit(forkId: string, block: Block, proposals: set<string>, adoptions: set<string>)

  /** `order` is the insertion order of the map of pending blocks. */
  datatype Mempool = Mempool(
    pendings: map<string, Pending>,
    order: seq<string>,
    forks: map<string, Fork>,
    settled: map<string, Settled>,
    orphans: map<string, seq<string>>,
    failed: map<string, Pending>)

  /** The active validators, and their number as it was last cached. */
  datatype Electorate = Electorate(validators: set<string>, cachedCount: nat)

  /** Which numbers of validators have been in the cache is history, and so is the log. */
  datatype State = State(
    mempool: Mempool,
    replays: map<string, seq<string>>,
    signing: map<string, nat>,
    tasks: map<string, Task>,
    electorate: Electorate,
    counts: set<nat>,
    db: seq<Block>,
    log: seq<Commit>)

  /** The node's own addresses; `fill` is what normalising a block for its signature makes of the
      payload. */
  datatype Node = Node(self: string, wallet: string, hasPeer: bool, digest: Digest, fill: Content -> string)

  function Majority(v: Electorate): (majority: nat)
    ensures majority >= 1
  {
    MajorityCount(v.cachedCount)
  }

  predicate Accepts(c: Node, v: Electorate, sender: string) {
    sender == c.self || v.cachedCount == 0 || sender in v.validators
  }

  // ---------- Verifications ----------

  /** The block after its signature was verified, which normalises it in place; the system's own
      blocks are not looked at. */
  function Verified(c: Node, block: Content): Content {
    if block.signature == "SYSTEM_SIG" && block.signer == ZERO_ADDRESS then block
    else block.(previousHash := Some(block.previousHash.GetOr("")), payload := c.fill(block))
  }

  function NewPending(c: Node, received: Content, originalTimestamp: int): Pending {
    Pending(Verified(c, received), received, originalTimestamp, {}, false, 0, 0)
  }

  /** A changed entry keeps its place in the map. */
  function WithPending(m: Mempool, b: string, e: Pending): Mempool {
    m.(pendings := m.pendings[b := e])
  }

  /** A new entry goes to the end. */
  function AddPending(m: Mempool, b: string, e: Pending): Mempool {
    m.(pendings := m.pendings[b := e], order := m.order + [b])
  }

  function Without(order: seq<string>, b: string): seq<string> {
    if order == [] then []
    else (if order[0] == b then [] else [order[0]]) + Without(order[1..], b)
  }

  function DropPending(m: Mempool, b: string): Mempool {
    m.(pendings := m.pendings - {b}, order := Without(m.order, b))
  }

  /** The first pending block in the map's order that has the signature. */
  function FirstSigned(m: Mempool, order: seq<string>, signature: string): Option<string> {
    if order == [] then None
    else if order[0] in m.pendings && m.pendings[order[0]].block.signature == signature then Some(order[0])
    else FirstSigned(m, order[1..], signature)
  }

  /** peer_node/PeerNode.ts: what addOwnedBlockToCache, told of a new block, does to the mempool. */
  function Evict(m: Mempool, signature: string): Mempool {
    if signature == "" then m
    else
      match FirstSigned(m, m.order, signature)
      case None => m
      case Some(b) => DropPending(m, b)
  }

  /** The id is hashed before the signature is verified. */
  function Arrive(c: Node, m: Mempool, received: Content, originalTimestamp: int): Mempool {
    var b := c.digest(received);
    if b in m.pendings then m else AddPending(m, b, NewPending(c, received, originalTimestamp))
  }

  /** The eligibility check that ends handleVerifyBlock. */
  function Judged(majority: nat, e: Pending): Pending {
    e.(eligible := e.eligible || |e.verifications| >= majority)
  }

  /** Whether the handler has to await its own signature before the check. */
  predicate NeedsOwn(c: Node, m: Mempool, v: Electorate, b: string, sender: string) {
    && b != "" && b in m.pendings && Accepts(c, v, sender)
    && sender !in m.pendings[b].verifications
    && c.self !in m.pendings[b].verifications + {sender}
  }

  function Verify(c: Node, m: Mempool, v: Electorate, b: string, sender: string): Mempool {
    if b == "" then m
    else if b !in m.pendings then
      m.(orphans := m.orphans[b := (if b in m.orphans then m.orphans[b] else []) + [sender]])
    else
      var e := m.pendings[b];
      if !Accepts(c, v, sender) || sender in e.verifications then m
      else
        var counted := e.(verifications := e.verifications + {sender});
        WithPending(m, b, if NeedsOwn(c, m, v, b, sender) then counted else Judged(Majority(v), counted))
  }

  /** The majority was read before the wait. */
  function SelfSigned(c: Node, m: Mempool, b: string, majority: nat): Mempool {
    if b !in m.pendings then m
    else WithPending(m, b, Judged(majority, m.pendings[b].(verifications := m.pendings[b].verifications + {c.self})))
  }

  // ---------- Proposals ----------

  function TipHash(db: seq<Block>): string {
    if db == [] then NO_HASH else db[|db| - 1].hash
  }

  function Slice(text: string, n: nat): string {
    if |text| <= n then text else text[..n]
  }

  function BeforeUnderscore(text: string): string {
    if text == "" || text[0] == '_' then "" else [text[0]] + BeforeUnderscore(text[1..])
  }

  /** The part of a fork id between its first two underscores. */
  function TipConstraint(f: string): Option<string> {
    if f == "" then None
    else if f[0] == '_' then Some(BeforeUnderscore(f[1..]))
    else TipConstraint(f[1..])
  }

  predicate TipAllows(f: string, db: seq<Block>) {
    var hash := TipHash(db);
    TipConstraint(f).GetOr("") in {"", Slice(if hash == "" then NO_HASH else hash, 16)}
  }

  function Voted(c: Node, agrees: bool, fork: Fork, sender: string): set<string> {
    fork.proposals + {sender} + if agrees then {c.self} else {}
  }

  function ForkEntry(m: Mempool, f: string, b: string): Fork {
    if f in m.forks then m.forks[f] else Fork(b, {}, false, None)
  }

  predicate CountsProposal(c: Node, m: Mempool, v: Electorate, f: string, b: string, sender: string) {
    Accepts(c, v, sender) && sender !in ForkEntry(m, f, b).proposals
  }

  /** The proposal that completes the majority. */
  predicate Confirms(c: Node, m: Mempool, v: Electorate, f: string, b: string, sender: string) {
    var fork := ForkEntry(m, f, b);
    && CountsProposal(c, m, v, f, b, sender)
    && |Voted(c, b in m.pendings, fork, sender)| >= Majority(v) && !fork.adopted
  }

  function Propose(c: Node, m: Mempool, v: Electorate, f: string, b: string, sender: string): Mempool {
    var fork := ForkEntry(m, f, b);
    m.(forks := m.forks[f :=
      if !CountsProposal(c, m, v, f, b, sender) then fork
      else
        fork.(proposals := Voted(c, b in m.pendings, fork, sender),
              adopted := fork.adopted || Confirms(c, m, v, f, b, sender))])
  }

  function OrElse(a: int, b: int, c: int): int {
    if a != 0 then a else if b != 0 then b else c
  }

  function MakeBlock(c: Node, e: Pending, db: seq<Block>, now: int): Block {
    var content := Content(
      if db == [] then 0 else db[|db| - 1].Index() + 1,
      OrElse(e.block.timestamp, e.originalTimestamp, now),
      if e.block.kind == "" then "STORAGE_CONTRACT" else e.block.kind,
      Some(TipHash(db)),
      e.block.signer,
      e.block.payload,
      e.block.signature);
    Block(content, c.digest(content))
  }

  /** The block is that of the confirming message, which need not be the entry's. */
  function Compute(c: Node, m: Mempool, f: string, b: string, db: seq<Block>, now: int): Mempool
    requires f in m.forks
  {
    m.(forks := m.forks[f :=
      if b in m.pendings then m.forks[f].(computed := Some(MakeBlock(c, m.pendings[b], db, now)))
      else m.forks[f].(adopted := false, computed := None)])
  }

  // ---------- Adoptions ----------

  function SettledEntry(m: Mempool, f: string, tip: string): Settled {
    if f in m.settled then m.settled[f] else Settled(tip, {}, false, false, [])
  }

  predicate CountsAdoption(c: Node, m: Mempool, v: Electorate, f: string, tip: string, sender: string) {
    var entry := SettledEntry(m, f, tip);
    entry.finalTipHash == tip && Accepts(c, v, sender) && sender !in entry.adoptions
  }

  predicate Settles(c: Node, m: Mempool, v: Electorate, f: string, tip: string, sender: string) {
    var entry := SettledEntry(m, f, tip);
    && CountsAdoption(c, m, v, f, tip, sender)
    && |entry.adoptions + {sender}| >= Majority(v) && !entry.committed
  }

  predicate Computed(m: Mempool, f: string) {
    f in m.forks && m.forks[f].computed.Some?
  }

  function Adopt(c: Node, m: Mempool, v: Electorate, f: string, tip: string, sender: string): Mempool {
    var entry := SettledEntry(m, f, tip);
    m.(settled := m.settled[f :=
      if !CountsAdoption(c, m, v, f, tip, sender) then entry
      else
        entry.(adoptions := entry.adoptions + {sender},
               majorities := entry.majorities + [Majority(v)],
               pendingCommit := entry.pendingCommit || (Settles(c, m, v, f, tip, sender) && !Computed(m, f)))])
  }

  // ---------- Commit ----------

  function DropFork(m: Mempool, f: string): Mempool {
    m.(forks := m.forks - {f}, settled := m.settled - {f})
  }

  /** The entries a commit works with; its handler holds the fork's mutex, so they stay. */
  predicate Committing(m: Mempool, f: string) {
    Computed(m, f) && f in m.settled
  }

  function CommitOf(m: Mempool, f: string): Commit
    requires Committing(m, f)
  {
    Commit(f, m.forks[f].computed.value, m.forks[f].proposals, m.settled[f].adoptions)
  }

  predicate Signed(db: seq<Block>, signature: string) {
    exists k :: 0 <= k < |db| && db[k].content.signature == signature
  }

  // ---------- Timeout ----------

  datatype Verdict = Stays(entry: Pending) | Resubmitted(entry: Pending) | Purged | Failed(entry: Pending)

  /** One strike; at the third the entry goes, unless it is the node's own and may be sent again. */
  function Strike(c: Node, e: Pending): Verdict {
    var struck := e.(strikes := e.strikes + 1);
    if struck.strikes < 3 then Stays(struck)
    else if e.block.signer != c.wallet || !c.hasPeer then Purged
    else
      var again := struck.(rebroadcasts := e.rebroadcasts + 1);
      if again.rebroadcasts <= 3 then Resubmitted(again.(strikes := 0, eligible := false, verifications := {}))
      else Failed(again)
  }

  function StrikeBlock(c: Node, m: Mempool, b: string): Mempool {
    if b !in m.pendings then m
    else
      match Strike(c, m.pendings[b])
      case Stays(e) => WithPending(m, b, e)
      case Resubmitted(e) => AddPending(DropPending(m, b), b, e)
      case Purged => DropPending(m, b)
      case Failed(e) => DropPending(m, b).(failed := m.failed[b := e])
  }

  /** The signature made after a rebroadcast; eligibility is not looked at. */
  function Resign(c: Node, m: Mempool, b: string): Mempool {
    if b !in m.pendings then m
    else WithPending(m, b, m.pendings[b].(verifications := m.pendings[b].verifications + {c.self}))
  }

  // ---------- Steps ----------

  datatype Step =
    | ArriveStep(received: Content, originalTimestamp: int)
    | VerifyStep(b: string, sender: string)
    | SelfSignedStep(b: string)
    | TakeOrphansStep(b: string)
    | ReplayStep(b: string)
    | ProposeStep(f: string, b: string, sender: string, seen: nat)
    | ComputeStep(f: string, seen: nat, now: int)
    | AdoptStep(f: string, tip: string, sender: string, seen: nat)
    | ReadTipStep(f: string)
    | CompareTipStep(f: string)
    | ReadSignatureStep(f: string)
    | InsertStep(f: string)
    | AnnounceStep(f: string)
    | FinishStep(f: string)
    | TimeoutStep(f: string, b: string)
    | ResignStep(b: string)
    | EvictStep(signature: string)
    | ValidatorsStep(validators: set<string>)
    | SyncCountStep

  /** Steps of a fork's handlers, and its timeout. */
  predicate IsForkStep(step: Step) {
    || step.ProposeStep? || step.AdoptStep? || step.ComputeStep? || step.ReadTipStep? || step.CompareTipStep?
    || step.ReadSignatureStep? || step.InsertStep? || step.AnnounceStep? || step.FinishStep? || step.TimeoutStep?
  }

  predicate Waits(s: State, f: string, t: Task) {
    f in s.tasks && s.tasks[f] == t && (!t.Computing? ==> Committing(s.mempool, f))
  }

  /** A read saw a prefix of the chain; the chain has held its first blocks from the start. */
  predicate Seen(s: State, seen: nat) {
    seen <= |s.db| && (s.db != [] ==> seen > 0)
  }

  predicate Enabled(s: State, step: Step) {
    match step
    case VerifyStep(b, _) => b !in s.signing
    case SelfSignedStep(b) => b in s.signing
    case ReplayStep(b) => b !in s.signing && b in s.replays && s.replays[b] != []
    case ProposeStep(f, _, _, seen) => f !in s.tasks && Seen(s, seen)
    case ComputeStep(f, seen, _) => f in s.tasks && s.tasks[f].Computing? && f in s.mempool.forks && Seen(s, seen)
    case AdoptStep(f, _, _, seen) => f !in s.tasks && Seen(s, seen)
    case ReadTipStep(f) => Waits(s, f, ReadingTip)
    case CompareTipStep(f) => f in s.tasks && s.tasks[f].ComparingTip? && Committing(s.mempool, f)
    case ReadSignatureStep(f) => Waits(s, f, ReadingSignature)
    case InsertStep(f) => f in s.tasks && s.tasks[f].Inserting? && Committing(s.mempool, f)
    case AnnounceStep(f) => Waits(s, f, Announcing)
    case FinishStep(f) => Waits(s, f, Finishing)
    case TimeoutStep(f, _) => f !in s.tasks
    case EvictStep(signature) => Signed(s.db, signature)
    case _ => true
  }

  function VerifyNext(c: Node, s: State, b: string, sender: string): State {
    s.(mempool := Verify(c, s.mempool, s.electorate, b, sender),
       signing := if NeedsOwn(c, s.mempool, s.electorate, b, sender)
           then s.signing[b := Majority(s.electorate)] else s.signing)
  }

  function TakeOrphans(s: State, b: string): State {
    if b !in s.mempool.orphans then s
    else
      var waiting := if b in s.replays then s.replays[b] else [];
      s.(mempool := s.mempool.(orphans := s.mempool.orphans - {b}),
         replays := s.replays[b := waiting + s.mempool.orphans[b]])
  }

  function Replay(c: Node, s: State, b: string): State
    requires b in s.replays && s.replays[b] != []
  {
    VerifyNext(c, s.(replays := s.replays[b := s.replays[b][1..]]), b, s.replays[b][0])
  }

  function ProposeNext(c: Node, s: State, f: string, b: string, sender: string, seen: nat): State
    requires seen <= |s.db|
  {
    if !TipAllows(f, s.db[..seen]) then s
    else
      s.(mempool := Propose(c, s.mempool, s.electorate, f, b, sender),
         tasks := if Confirms(c, s.mempool, s.electorate, f, b, sender) then s.tasks[f := Computing(b)] else s.tasks)
  }

  function ComputeNext(c: Node, s: State, f: string, seen: nat, now: int): State
    requires f in s.tasks && s.tasks[f].Computing? && f in s.mempool.forks && seen <= |s.db|
  {
    var m := Compute(c, s.mempool, f, s.tasks[f].blockId, s.db[..seen], now);
    var commits := Committing(m, f) && m.settled[f].pendingCommit && !m.settled[f].committed;
    s.(mempool := m, tasks := if commits then s.tasks[f := ReadingTip] else s.tasks - {f})
  }

  function AdoptNext(c: Node, s: State, f: string, tip: string, sender: string, seen: nat): State
    requires seen <= |s.db|
  {
    if !TipAllows(f, s.db[..seen]) then s
    else
      var commits := Settles(c, s.mempool, s.electorate, f, tip, sender) && Computed(s.mempool, f);
      s.(mempool := Adopt(c, s.mempool, s.electorate, f, tip, sender),
         tasks := if commits then s.tasks[f := ReadingTip] else s.tasks)
  }

  function CompareTip(s: State, f: string): State
    requires f in s.tasks && s.tasks[f].ComparingTip? && Committing(s.mempool, f)
  {
    var m := s.mempool;
    if m.forks[f].computed.value.content.previousHash != Some(s.tasks[f].lastHash) then
      s.(mempool := DropFork(m, f), tasks := s.tasks - {f})
    else
      s.(mempool := m.(settled := m.settled[f := m.settled[f].(committed := true)]),
         tasks := s.tasks[f := ReadingSignature])
  }

  function ReadSignature(c: Node, s: State, f: string): State
    requires Computed(s.mempool, f)
  {
    var block := s.mempool.forks[f].computed.value;
    if Signed(s.db, block.content.signature) then
      s.(mempool := DropPending(s.mempool, c.digest(block.content)), tasks := s.tasks[f := Finishing])
    else
      s.(tasks := s.tasks[f := Inserting(|s.db|)])
  }

  function Finish(s: State, f: string): State
    requires f in s.mempool.forks
  {
    s.(mempool := DropFork(DropPending(s.mempool, s.mempool.forks[f].blockId), f), tasks := s.tasks - {f})
  }

  /** A duplicate key throws, and the handler's catch clause drops the fork and its block. */
  function Insert(s: State, f: string): State
    requires Committing(s.mempool, f)
  {
    match InsertOne(s.db, s.mempool.forks[f].computed.value)
    case None => Finish(s, f)
    case Some(after) =>
      s.(db := after, tasks := s.tasks[f := Announcing],
         log := s.log + [CommitOf(s.mempool, f)])
  }

  /** When the subscribers have run, the new block is announced. */
  function Announce(s: State, f: string): State
    requires Computed(s.mempool, f)
  {
    var signature := s.mempool.forks[f].computed.value.content.signature;
    s.(mempool := Evict(s.mempool, signature), tasks := s.tasks[f := Finishing])
  }

  function SetValidators(s: State, validators: set<string>): State {
    s.(electorate := s.electorate.(validators := validators))
  }

  /** syncValidatorCache. */
  function SyncCount(s: State): State {
    var count := |s.electorate.validators|;
    s.(electorate := s.electorate.(cachedCount := count), counts := s.counts + {count})
  }

  function Next(c: Node, s: State, step: Step): State
    requires Enabled(s, step)
  {
    var m := s.mempool;
    match step
    case ArriveStep(received, originalTimestamp) => s.(mempool := Arrive(c, m, received, originalTimestamp))
    case VerifyStep(b, sender) => VerifyNext(c, s, b, sender)
    case SelfSignedStep(b) => s.(mempool := SelfSigned(c, m, b, s.signing[b]), signing := s.signing - {b})
    case TakeOrphansStep(b) => TakeOrphans(s, b)
    case ReplayStep(b) => Replay(c, s, b)
    case ProposeStep(f, b, sender, seen) => ProposeNext(c, s, f, b, sender, seen)
    case ComputeStep(f, seen, now) => ComputeNext(c, s, f, seen, now)
    case AdoptStep(f, tip, sender, seen) => AdoptNext(c, s, f, tip, sender, seen)
    case ReadTipStep(f) => s.(tasks := s.tasks[f := ComparingTip(TipHash(s.db))])
    case CompareTipStep(f) => CompareTip(s, f)
    case ReadSignatureStep(f) => ReadSignature(c, s, f)
    case InsertStep(f) => Insert(s, f)
    case AnnounceStep(f) => Announce(s, f)
    case FinishStep(f) => Finish(s, f)
    case TimeoutStep(f, b) => s.(mempool := DropFork(StrikeBlock(c, m, b), f))
    case ResignStep(b) => s.(mempool := Resign(c, m, b))
    case EvictStep(signature) => s.(mempool := Evict(m, signature))
    case ValidatorsStep(validators) => SetValidators(s, validators)
    case SyncCountStep => SyncCount(s)
  }

  // ---------- Runs ----------

  predicate CanRun(c: Node, s: State, steps: seq<Step>)
    decreases |steps|
  {
    steps == [] || (Enabled(s, steps[0]) && CanRun(c, Next(c, s, steps[0]), steps[1..]))
  }

  function Run(c: Node, s: State, steps: seq<Step>): State
    requires CanRun(c, s, steps)
    decreases |steps|
  {
    if steps == [] then s else Run(c, Next(c, s, steps[0]), steps[1..])
  }

  /** Nothing in the mempool yet. */
  function Start(db: seq<Block>, v: Electorate): State {
    State(Mempool(map[], [], map[], map[], map[], map[]), map[], map[], map[], v, {v.cachedCount}, db, [])
  }

  predicate Reaches(c: Node, first: State, steps: seq<Step>, s: State) {
    CanRun(c, first, steps) && Run(c, first, steps) == s
  }

  lemma {:induction false} Onward(c: Node, first: State, steps: seq<Step>, s: State, step: Step)
    requires Reaches(c, first, steps, s) && Enabled(s, step)
    ensures Reaches(c, first, steps + [step], Next(c, s, step))
    decreases |steps|
  {
    if steps == [] {
      assert [step][1..] == [];
    } else {
      assert (steps + [step])[1..] == steps[1..] + [step];
      Onward(c, Next(c, first, steps[0]), steps[1..], s, step);
    }
  }

  /** One step further in a run that is being put together. */
  lemma {:induction false} Take(c: Node, first: State, steps: seq<Step>, s: State, step: Step)
      returns (more: seq<Step>, after: State)
    requires Reaches(c, first, steps, s) && Enabled(s, step)
    ensures more == steps + [step] && after == Next(c, s, step) && Reaches(c, first, more, after)
  {
    Onward(c, first, steps, s, step);
    more, after := steps + [step], Next(c, s, step);
  }

  // ---------- The order of the map ----------

  /** The order lists every pending block once. */
  ghost predicate Listed(m: Mempool) {
    Distinct(m.order) && forall b :: b in m.order <==> b in m.pendings
  }

  lemma {:induction false} WithoutMembers(order: seq<string>, b: string, x: string)
    ensures x in Without(order, b) <==> x in order && x != b
  {
    if order == [] {
    } else {
      WithoutMembers(order[1..], b, x);
      assert order == [order[0]] + order[1..];
    }
  }

  lemma {:induction false} WithoutDistinct(order: seq<string>, b: string)
    requires Distinct(order)
    ensures Distinct(Without(order, b))
  {
    if order == [] {
    } else {
      var rest := order[1..];
      WithoutDistinct(rest, b);
      WithoutMembers(rest, b, order[0]);
      assert order[0] !in rest;
    }
  }

  lemma {:induction false} DroppingKeepsListed(m: Mempool, b: string)
    requires Listed(m)
    ensures Listed(DropPending(m, b))
  {
    WithoutDistinct(m.order, b);
    forall x ensures x in Without(m.order, b) <==> x in m.order && x != b {
      WithoutMembers(m.order, b, x);
    }
  }

  lemma {:induction false} AddingKeepsListed(m: Mempool, b: string, e: Pending)
    requires Listed(m) && b !in m.pendings
    ensures Listed(AddPending(m, b, e))
  {
    assert forall i :: 0 <= i < |m.order| ==> m.order[i] in m.order;
  }

  lemma {:induction false} FirstSignedFits(m: Mempool, order: seq<string>, signature: string)
    ensures FirstSigned(m, order, signature).Some? ==>
              var b := FirstSigned(m, order, signature).value;
              b in order && b in m.pendings && m.pendings[b].block.signature == signature
    ensures FirstSigned(m, order, signature).None? ==>
              forall b :: b in order && b in m.pendings ==> m.pendings[b].block.signature != signature
  {
    if order == [] {
    } else {
      FirstSignedFits(m, order[1..], signature);
    }
  }

  lemma {:induction false} EvictingKeepsListed(m: Mempool, signature: string)
    requires Listed(m)
    ensures Listed(Evict(m, signature))
  {
    if FirstSigned(m, m.order, signature).Some? {
      DroppingKeepsListed(m, FirstSigned(m, m.order, signature).value);
    }
  }

  lemma {:induction false} StrikingKeepsListed(c: Node, m: Mempool, b: string)
    requires Listed(m)
    ensures Listed(StrikeBlock(c, m, b))
  {
    if b in m.pendings {
      DroppingKeepsListed(m, b);
      match Strike(c, m.pendings[b]) {
        case Resubmitted(e) => AddingKeepsListed(DropPending(m, b), b, e);
        case _ =>
      }
    }
  }

  predicate SameEntries(m: Mempool, after: Mempool) {
    after.pendings.Keys == m.pendings.Keys && after.order == m.order
  }

  lemma {:induction false} VerifyingKeepsEntries(c: Node, s: State, step: Step)
    requires Enabled(s, step) && (step.VerifyStep? || step.ReplayStep? || step.SelfSignedStep? || step.ResignStep?)
    ensures SameEntries(s.mempool, Next(c, s, step).mempool)
  {
  }

  lemma {:induction false} ForkStepKeepsListed(c: Node, s: State, step: Step)
    requires Listed(s.mempool) && Enabled(s, step) && IsForkStep(step)
    ensures Listed(Next(c, s, step).mempool)
  {
    var m := s.mempool;
    if step.TimeoutStep? {
      StrikingKeepsListed(c, m, step.b);
    } else if step.ReadSignatureStep? {
      DroppingKeepsListed(m, c.digest(m.forks[step.f].computed.value.content));
    } else if step.InsertStep? || step.FinishStep? {
      DroppingKeepsListed(m, m.forks[step.f].blockId);
    } else if step.AnnounceStep? {
      EvictingKeepsListed(m, m.forks[step.f].computed.value.content.signature);
    } else {
      assert SameEntries(m, Next(c, s, step).mempool);
    }
  }

  lemma {:induction false} StepKeepsListed(c: Node, s: State, step: Step)
    requires Listed(s.mempool) && Enabled(s, step)
    ensures Listed(Next(c, s, step).mempool)
  {
    var m := s.mempool;
    if IsForkStep(step) {
      ForkStepKeepsListed(c, s, step);
    } else if step.ArriveStep? {
      if c.digest(step.received) !in m.pendings {
        AddingKeepsListed(m, c.digest(step.received), NewPending(c, step.received, step.originalTimestamp));
      }
    } else if step.EvictStep? {
      EvictingKeepsListed(m, step.signature);
    } else if step.VerifyStep? || step.ReplayStep? || step.SelfSignedStep? || step.ResignStep? {
      VerifyingKeepsEntries(c, s, step);
    }
  }

  /** In every run. */
  lemma {:induction false} RunKeepsListed(c: Node, s: State, steps: seq<Step>)
    requires Listed(s.mempool) && CanRun(c, s, steps)
    ensures Listed(Run(c, s, steps).mempool)
    decreases |steps|
  {
    if steps == [] {
    } else {
      StepKeepsListed(c, s, steps[0]);
      RunKeepsListed(c, Next(c, s, steps[0]), steps[1..]);
    }
  }
}
