/** peer_handlers/sync_engine/SyncEngine.ts: performInitialSync, with the messages that arrive
    during its waits as inputs and no other writer of the chain. */
module InitialSync {
  import opened Wrappers
  import opened L = Ledger

  datatype SyncState = OFFLINE | SYNCING_HEADERS | SYNCING_BLOCKS | ACTIVE

  datatype Status = Status(latestIndex: int, peer: string)

  datatype Arrival = Arrival(peer: string, block: Block)

  /** The text "index_peer" under which an answer is filed. */
  datatype Key = Key(index: int, peer: string)

  // ---------- Choosing a target ----------

  function PeersAt(statuses: seq<Status>, index: int): seq<string> {
    if statuses == [] then []
    else
      var last := |statuses| - 1;
      PeersAt(statuses[..last], index) + if statuses[last].latestIndex == index then [statuses[last].peer] else []
  }

  /** The greatest claim, if any is above -1, and those who made it. */
  ghost predicate IsTarget(statuses: seq<Status>, highest: int, peers: seq<string>) {
    && (forall k :: 0 <= k < |statuses| ==> statuses[k].latestIndex <= highest)
    && -1 <= highest
    && peers == (if highest == -1 then [] else PeersAt(statuses, highest))
    && (highest > -1 ==> peers != [])
  }

  function Counted(counts: map<int, seq<string>>, status: Status): map<int, seq<string>> {
    counts[status.latestIndex :=
      (if status.latestIndex in counts then counts[status.latestIndex] else []) + [status.peer]]
  }

  /** All claims by claimed height. */
  function Counts(statuses: seq<Status>): map<int, seq<string>> {
    if statuses == [] then map[]
    else Counted(Counts(statuses[..|statuses| - 1]), statuses[|statuses| - 1])
  }

  lemma {:induction false} CountsByHeight(statuses: seq<Status>, i: int)
    ensures i in Counts(statuses) <==> PeersAt(statuses, i) != []
    ensures i in Counts(statuses) ==> Counts(statuses)[i] == PeersAt(statuses, i)
  {
    if statuses == [] {
    } else {
      CountsByHeight(statuses[..|statuses| - 1], i);
    }
  }

  lemma {:induction false} ClaimCounts(statuses: seq<Status>, k: nat)
    requires k < |statuses|
    ensures statuses[k].latestIndex in Counts(statuses)
  {
    if k < |statuses| - 1 {
      ClaimCounts(statuses[..|statuses| - 1], k);
    }
  }

  method CountIndices(statuses: seq<Status>) returns (indexCounts: map<int, seq<string>>)
    ensures indexCounts == Counts(statuses)
  {
    indexCounts := map[];
    for n := 0 to |statuses|
      invariant indexCounts == Counts(statuses[..n])
    {
      assert statuses[..n + 1][..n] == statuses[..n];
      var index := statuses[n].latestIndex;
      if index !in indexCounts {
        indexCounts := indexCounts[index := []];
      }
      indexCounts := indexCounts[index := indexCounts[index] + [statuses[n].peer]];
    }
    assert statuses[..|statuses|] == statuses;
  }

  /** The keys of the counts are visited in the order of the claims. */
  method ChooseTarget(statuses: seq<Status>) returns (highest: int, peers: seq<string>)
    ensures IsTarget(statuses, highest, peers)
  {
    var indexCounts := CountIndices(statuses);
    highest, peers := -1, [];
    for n := 0 to |statuses|
      invariant -1 <= highest && forall k :: 0 <= k < n ==> statuses[k].latestIndex <= highest
      invariant peers == (if highest == -1 then [] else PeersAt(statuses, highest))
      invariant highest > -1 ==> peers != []
    {
      var index := statuses[n].latestIndex;
      ClaimCounts(statuses, n);
      if index > highest {
        CountsByHeight(statuses, index);
        highest, peers := index, indexCounts[index];
      }
    }
  }

  // ---------- Fetching one block ----------

  function Filed(arrivals: seq<Arrival>): (responses: map<Key, Block>)
    ensures forall key :: key in responses ==> responses[key].Index() == key.index
  {
    if arrivals == [] then map[]
    else
      var last := arrivals[|arrivals| - 1];
      Filed(arrivals[..|arrivals| - 1])[Key(last.block.Index(), last.peer) := last.block]
  }

  lemma {:induction false} FiledKey(arrivals: seq<Arrival>, key: Key)
    ensures key in Filed(arrivals) <==>
              exists k :: 0 <= k < |arrivals| && Key(arrivals[k].block.Index(), arrivals[k].peer) == key
  {
    if arrivals == [] {
    } else {
      FiledKey(arrivals[..|arrivals| - 1], key);
    }
  }

  /** Of several answers by one peer for one height the last one stays. */
  lemma {:induction false} LastAnswerStays(arrivals: seq<Arrival>, k: nat)
    requires k < |arrivals|
    requires forall j :: k < j < |arrivals| ==>
               arrivals[j].block.Index() != arrivals[k].block.Index() || arrivals[j].peer != arrivals[k].peer
    ensures var key := Key(arrivals[k].block.Index(), arrivals[k].peer);
            key in Filed(arrivals) && Filed(arrivals)[key] == arrivals[k].block
  {
    if k < |arrivals| - 1 {
      LastAnswerStays(arrivals[..|arrivals| - 1], k);
    }
  }

  /** Two peers are asked for the block at a height, if there are two, and their answers differ. */
  predicate Disputed(peers: seq<string>, responses: map<Key, Block>, i: nat) {
    && |peers| >= 2
    && Key(i, peers[i % |peers|]) in responses
    && Key(i, peers[(i + 1) % |peers|]) in responses
    && responses[Key(i, peers[i % |peers|])].hash != responses[Key(i, peers[(i + 1) % |peers|])].hash
  }

  /** The first peer's answer, undisputed, hashed and linked to the tip. */
  predicate Undisputed(digest: Digest, tip: Block, i: nat, peers: seq<string>, responses: map<Key, Block>,
      block: Block)
  {
    && peers != []
    && Key(i, peers[i % |peers|]) in responses && responses[Key(i, peers[i % |peers|])] == block
    && !Disputed(peers, responses, i)
    && digest(block.content) == block.hash && block.content.previousHash == Some(tip.hash)
  }

  /** The block taken for height i on top of the given tip, if nothing is wrong with it. */
  function Accepted(digest: Digest, tip: Block, i: nat, peers: seq<string>, responses: map<Key, Block>): Option<Block> {
    if peers == [] then None
    else
      var primary := Key(i, peers[i % |peers|]);
      var second := Key(i, peers[(i + 1) % |peers|]);
      if primary !in responses then None
      else
        var main := responses[primary];
        if |peers| >= 2 && second in responses && main.hash != responses[second].hash then None
        else if !GoodHash(digest, main) || main.content.previousHash != Some(tip.hash) then None
        else Some(main)
  }

  lemma {:induction false} AcceptedExactly(digest: Digest, tip: Block, i: nat, peers: seq<string>,
      responses: map<Key, Block>, block: Block)
    ensures Accepted(digest, tip, i, peers, responses) == Some(block) <==>
              Undisputed(digest, tip, i, peers, responses, block)
  {
  }

  // ---------- The append loop ----------

  /** What one turn of the loop makes of the ledger at a height; None ends the loop. */
  type Turn = (LedgerState, int) -> Option<LedgerState>

  function Appended(turn: Turn, s: LedgerState, i: int, top: int): LedgerState
    decreases top - i + 1
  {
    if i > top then s
    else
      match turn(s, i)
      case None => s
      case Some(after) => Appended(turn, after, i + 1, top)
  }

  function TurnAt(digest: Digest, subscriber: Subscriber, peers: seq<string>, answers: int -> seq<Arrival>,
      s: LedgerState, i: int): Option<LedgerState>
  {
    if s.collection == [] || i < 0 then None
    else
      match Accepted(digest, s.collection[|s.collection| - 1], i, peers, Filed(answers(i)))
      case None => None
      case Some(block) => Added(digest, subscriber, s, block)
  }

  function TurnOf(digest: Digest, subscriber: Subscriber, peers: seq<string>, answers: int -> seq<Arrival>): Turn {
    (s, i) => TurnAt(digest, subscriber, peers, answers, s, i)
  }

  /** The next height is i. */
  ghost predicate Ready(s: LedgerState, i: int) {
    s.collection != [] && Contiguous(s.collection) && i == s.collection[0].Index() + |s.collection|
  }

  ghost predicate Advances(digest: Digest, s: LedgerState, i: int, after: LedgerState) {
    Extends(digest, s.collection, after.collection) && Ready(after, i + 1)
  }

  ghost predicate GoodTurn(digest: Digest, turn: Turn) {
    forall s, i :: Ready(s, i) && turn(s, i).Some? ==> Advances(digest, s, i, turn(s, i).value)
  }

  lemma {:induction false} AppendedExtends(digest: Digest, turn: Turn, s: LedgerState, i: int, top: int)
    requires GoodTurn(digest, turn) && Ready(s, i)
    ensures Extends(digest, s.collection, Appended(turn, s, i, top).collection)
    decreases top - i + 1
  {
    if i <= top && turn(s, i).Some? {
      var after := turn(s, i).value;
      assert Advances(digest, s, i, after);
      AppendedExtends(digest, turn, after, i + 1, top);
      ExtendsTransitive(digest, s.collection, after.collection, Appended(turn, after, i + 1, top).collection);
    }
  }

  lemma {:induction false} AcceptedFits(digest: Digest, tip: Block, i: nat, peers: seq<string>, arrivals: seq<Arrival>)
    requires Accepted(digest, tip, i, peers, Filed(arrivals)).Some?
    ensures var block := Accepted(digest, tip, i, peers, Filed(arrivals)).value;
            block.Index() == i && GoodHash(digest, block) && block.content.previousHash == Some(tip.hash)
  {
  }

  lemma {:induction false} AddedExtends(digest: Digest, subscriber: Subscriber, s: LedgerState, block: Block)
    requires Ready(s, block.Index())
    requires GoodHash(digest, block) && block.content.previousHash == Some(s.collection[|s.collection| - 1].hash)
    requires Added(digest, subscriber, s, block).Some?
    ensures Advances(digest, s, block.Index(), Added(digest, subscriber, s, block).value)
  {
    InsertAppends(s.collection, block);
    var longer := s.collection + [block];
    assert longer[..|s.collection|] == s.collection;
    assert GoodStep(digest, longer, |s.collection|);
    ExtendingKeepsContiguity(digest, s.collection, longer);
  }

  lemma {:induction false} TurnIsGood(digest: Digest, subscriber: Subscriber, peers: seq<string>,
      answers: int -> seq<Arrival>)
    ensures GoodTurn(digest, TurnOf(digest, subscriber, peers, answers))
  {
    var turn := TurnOf(digest, subscriber, peers, answers);
    forall s, i | Ready(s, i) && turn(s, i).Some? ensures Advances(digest, s, i, turn(s, i).value) {
      var tip := s.collection[|s.collection| - 1];
      AcceptedFits(digest, tip, i, peers, answers(i));
      AddedExtends(digest, subscriber, s, Accepted(digest, tip, i, peers, Filed(answers(i))).value);
    }
  }

  /** A chain that fails its check is thrown away; its cached validator count is not. */
  ghost function Base(digest: Digest, s: LedgerState): LedgerState {
    if ValidChain(digest, s.collection) then s else LedgerState(Genesis(digest), {}, s.cachedCount)
  }

  /** The append loop from the tip on. */
  function CaughtUp(turn: Turn, base: LedgerState, highest: int): LedgerState {
    if base.collection == [] then base
    else Appended(turn, base, base.collection[|base.collection| - 1].Index() + 1, highest)
  }

  ghost function Synced(digest: Digest, turn: Turn, s: LedgerState, highest: int): LedgerState {
    CaughtUp(turn, Base(digest, s), highest)
  }

  lemma {:induction false} CatchUpCases(turn: Turn, base: LedgerState, highest: int)
    ensures base.collection == [] ==> CaughtUp(turn, base, highest) == base
    ensures base.collection != [] ==>
              var top := base.collection[|base.collection| - 1].Index();
              CaughtUp(turn, base, highest) == if highest > top then Appended(turn, base, top + 1, highest) else base
  {
  }

  lemma {:induction false} CatchingUpExtends(digest: Digest, turn: Turn, base: LedgerState, highest: int)
    requires GoodTurn(digest, turn) && base.collection != [] && Contiguous(base.collection)
    ensures Extends(digest, base.collection, CaughtUp(turn, base, highest).collection)
  {
    var first := base.collection[|base.collection| - 1].Index() + 1;
    assert Ready(base, first);
    AppendedExtends(digest, turn, base, first, highest);
  }

  /** Whatever the peers answer, the old chain (or genesis) is only extended, and the result is valid. */
  lemma {:induction false} SyncOnlyExtends(digest: Digest, subscriber: Subscriber, s: LedgerState, highest: int,
      peers: seq<string>, answers: int -> seq<Arrival>)
    requires s.collection != [] && Contiguous(s.collection)
    ensures var after := Synced(digest, TurnOf(digest, subscriber, peers, answers), s, highest).collection;
            && Extends(digest, if ValidChain(digest, s.collection) then s.collection else Genesis(digest), after)
            && ValidChain(digest, after) && Contiguous(after)
  {
    GenesisIsSound(digest);
    TurnIsGood(digest, subscriber, peers, answers);
    var turn, base := TurnOf(digest, subscriber, peers, answers), Base(digest, s);
    CatchingUpExtends(digest, turn, base, highest);
    ExtendingKeepsValidity(digest, base.collection, CaughtUp(turn, base, highest).collection);
    ExtendingKeepsContiguity(digest, base.collection, CaughtUp(turn, base, highest).collection);
  }

  // ---------- Disputed heights ----------

  /** The block is the first peer's answer for the height, and no second answer speaks against it. */
  predicate Agreed(peers: seq<string>, answers: int -> seq<Arrival>, i: int, block: Block) {
    && 0 <= i && peers != []
    && Key(i, peers[i % |peers|]) in Filed(answers(i)) && Filed(answers(i))[Key(i, peers[i % |peers|])] == block
    && !Disputed(peers, Filed(answers(i)), i)
  }

  function AgreedOn(peers: seq<string>, answers: int -> seq<Arrival>): (int, Block) -> bool {
    (i, block) => Agreed(peers, answers, i, block)
  }

  /** A turn at the next height adds one block, which is fit. */
  ghost predicate TakesOnly(turn: Turn, fit: (int, Block) -> bool) {
    forall s, i :: Ready(s, i) && turn(s, i).Some? ==>
      var after := turn(s, i).value.collection;
      |after| == |s.collection| + 1 && fit(i, after[|s.collection|])
  }

  lemma {:induction false} AppendedIsFit(digest: Digest, turn: Turn, fit: (int, Block) -> bool, s: LedgerState,
      i: int, top: int, k: nat)
    requires GoodTurn(digest, turn) && TakesOnly(turn, fit) && Ready(s, i)
    requires |s.collection| <= k < |Appended(turn, s, i, top).collection|
    ensures var block := Appended(turn, s, i, top).collection[k]; fit(block.Index(), block)
    decreases top - i + 1
  {
    if i <= top && turn(s, i).Some? {
      var after := turn(s, i).value;
      assert Advances(digest, s, i, after);
      AppendedExtends(digest, turn, after, i + 1, top);
      if k == |s.collection| {
        assert Appended(turn, s, i, top).collection[..|after.collection|][k] == after.collection[k];
      } else {
        AppendedIsFit(digest, turn, fit, after, i + 1, top, k);
      }
    }
  }

  lemma {:induction false} AddedBlock(digest: Digest, subscriber: Subscriber, s: LedgerState, i: int, block: Block)
    requires Ready(s, i) && block.Index() == i && Added(digest, subscriber, s, block).Some?
    ensures Added(digest, subscriber, s, block).value.collection == s.collection + [block]
  {
    InsertAppends(s.collection, block);
  }

  lemma {:induction false} TurnsTakeAgreed(digest: Digest, subscriber: Subscriber, peers: seq<string>,
      answers: int -> seq<Arrival>)
    ensures TakesOnly(TurnOf(digest, subscriber, peers, answers), AgreedOn(peers, answers))
  {
    var turn := TurnOf(digest, subscriber, peers, answers);
    forall s, i | Ready(s, i) && turn(s, i).Some?
      ensures var after := turn(s, i).value.collection;
              |after| == |s.collection| + 1 && Agreed(peers, answers, i, after[|s.collection|])
    {
      var tip := s.collection[|s.collection| - 1];
      var block := Accepted(digest, tip, i, peers, Filed(answers(i))).value;
      AcceptedExactly(digest, tip, i, peers, Filed(answers(i)), block);
      AcceptedFits(digest, tip, i, peers, answers(i));
      AddedBlock(digest, subscriber, s, i, block);
    }
  }

  /** Every block that a sync appends is the first peer's answer for its height, and no second answer
      for that height has another hash. */
  lemma {:induction false} SyncTakesAgreed(digest: Digest, subscriber: Subscriber, s: LedgerState, highest: int,
      peers: seq<string>, answers: int -> seq<Arrival>, k: nat)
    requires s.collection != [] && Contiguous(s.collection)
    requires |Base(digest, s).collection| <= k
    requires k < |Synced(digest, TurnOf(digest, subscriber, peers, answers), s, highest).collection|
    ensures var block := Synced(digest, TurnOf(digest, subscriber, peers, answers), s, highest).collection[k];
            Agreed(peers, answers, block.Index(), block)
  {
    var turn, base := TurnOf(digest, subscriber, peers, answers), Base(digest, s);
    GenesisIsSound(digest);
    TurnIsGood(digest, subscriber, peers, answers);
    TurnsTakeAgreed(digest, subscriber, peers, answers);
    var first := base.collection[|base.collection| - 1].Index() + 1;
    assert Ready(base, first);
    AppendedIsFit(digest, turn, AgreedOn(peers, answers), base, first, highest, k);
  }

  /** So a height at which the two answers differ leaves the chain below it, if it was. */
  lemma {:induction false} DisputeEndsSync(digest: Digest, subscriber: Subscriber, s: LedgerState, highest: int,
      peers: seq<string>, answers: int -> seq<Arrival>, i: nat)
    requires s.collection != [] && Contiguous(s.collection)
    requires Disputed(peers, Filed(answers(i)), i)
    ensures var base := Base(digest, s).collection;
            var after := Synced(digest, TurnOf(digest, subscriber, peers, answers), s, highest).collection;
            base != [] && after != [] &&
            (base[|base| - 1].Index() < i ==> after[|after| - 1].Index() < i)
  {
    GenesisIsSound(digest);
    SyncOnlyExtends(digest, subscriber, s, highest, peers, answers);
    var base := Base(digest, s).collection;
    var after := Synced(digest, TurnOf(digest, subscriber, peers, answers), s, highest).collection;
    if base[|base| - 1].Index() < i <= after[|after| - 1].Index() {
      assert base[|base| - 1] == after[..|base|][|base| - 1] == after[|base| - 1];
      var k := i - after[0].Index();
      assert after[k].Index() == i;
      SyncTakesAgreed(digest, subscriber, s, highest, peers, answers, k);
    }
  }

  /** Where the loop ends: at the top, or at a height whose turn fails. */
  lemma {:induction false} AppendedEnds(digest: Digest, turn: Turn, s: LedgerState, i: int, top: int)
    requires GoodTurn(digest, turn) && Ready(s, i)
    ensures var after := Appended(turn, s, i, top);
            && after.collection != []
            && var next := after.collection[|after.collection| - 1].Index() + 1;
               Ready(after, next) && (next > top || turn(after, next).None?)
    decreases top - i + 1
  {
    if i <= top && turn(s, i).Some? {
      assert Advances(digest, s, i, turn(s, i).value);
      AppendedEnds(digest, turn, turn(s, i).value, i + 1, top);
    }
  }

  /** For this height no answer is agreed, hashed and linked to the tip, or the database refuses it. */
  ghost predicate Stuck(digest: Digest, peers: seq<string>, answers: int -> seq<Arrival>, chain: seq<Block>, i: nat)
    requires chain != []
  {
    forall block :: Undisputed(digest, chain[|chain| - 1], i, peers, Filed(answers(i)), block) ==>
      InsertOne(chain, block).None?
  }

  lemma {:induction false} FailedTurn(digest: Digest, subscriber: Subscriber, peers: seq<string>,
      answers: int -> seq<Arrival>, s: LedgerState, i: nat)
    requires s.collection != [] && TurnAt(digest, subscriber, peers, answers, s, i).None?
    ensures Stuck(digest, peers, answers, s.collection, i)
  {
    var tip := s.collection[|s.collection| - 1];
    forall block | Undisputed(digest, tip, i, peers, Filed(answers(i)), block)
      ensures InsertOne(s.collection, block).None?
    {
      AcceptedExactly(digest, tip, i, peers, Filed(answers(i)), block);
    }
  }

  lemma {:induction false} ReadyTip(s: LedgerState, i: int)
    requires Ready(s, i)
    ensures s.collection[|s.collection| - 1].Index() == i - 1 >= s.collection[0].Index()
  {
  }

  lemma {:induction false} CaughtUpEnds(digest: Digest, turn: Turn, base: LedgerState, highest: int)
      returns (after: LedgerState, next: nat)
    requires GoodTurn(digest, turn) && base.collection != [] && Contiguous(base.collection)
    requires 0 <= base.collection[0].Index()
    ensures after == CaughtUp(turn, base, highest) && Ready(after, next)
    ensures 0 <= after.collection[0].Index() && (next > highest || turn(after, next).None?)
  {
    var first := base.collection[|base.collection| - 1].Index() + 1;
    assert Ready(base, first);
    AppendedExtends(digest, turn, base, first, highest);
    AppendedEnds(digest, turn, base, first, highest);
    after := Appended(turn, base, first, highest);
    assert after.collection[..|base.collection|][0] == base.collection[0];
    ReadyTip(after, after.collection[|after.collection| - 1].Index() + 1);
    next := after.collection[|after.collection| - 1].Index() + 1;
  }

  lemma {:induction false} BaseFits(digest: Digest, s: LedgerState)
    requires s.collection != [] && Contiguous(s.collection) && 0 <= s.collection[0].Index()
    ensures var base := Base(digest, s).collection;
            base != [] && Contiguous(base) && 0 <= base[0].Index()
  {
    GenesisIsSound(digest);
  }

  /** And a sync ends below its target only at a height where it is stuck. */
  lemma {:induction false} SyncEnds(digest: Digest, subscriber: Subscriber, s: LedgerState, highest: int,
      peers: seq<string>, answers: int -> seq<Arrival>) returns (after: LedgerState, next: nat)
    requires s.collection != [] && Contiguous(s.collection) && 0 <= s.collection[0].Index()
    ensures after == Synced(digest, TurnOf(digest, subscriber, peers, answers), s, highest)
    ensures after.collection != [] && after.collection[|after.collection| - 1].Index() == next - 1
    ensures next > highest || Stuck(digest, peers, answers, after.collection, next)
  {
    var turn, base := TurnOf(digest, subscriber, peers, answers), Base(digest, s);
    BaseFits(digest, s);
    TurnIsGood(digest, subscriber, peers, answers);
    after, next := CaughtUpEnds(digest, turn, base, highest);
    ReadyTip(after, next);
    if next <= highest {
      FailedTurn(digest, subscriber, peers, answers, after, next);
    }
  }

  // ---------- Honest peers ----------

  /** Every chosen peer's last answer for a height is the block of one chain. */
  ghost predicate Serve(peers: seq<string>, answers: int -> seq<Arrival>, chain: seq<Block>) {
    forall k, p :: 0 <= k < |chain| && p in peers ==>
      var i := chain[k].Index();
      Key(i, p) in Filed(answers(i)) && Filed(answers(i))[Key(i, p)] == chain[k]
  }

  ghost predicate DistinctHashes(chain: seq<Block>) {
    forall j, k :: 0 <= j < k < |chain| ==> chain[j].hash != chain[k].hash
  }

  lemma {:induction false} HonestBlockAccepted(digest: Digest, chain: seq<Block>, k: nat, peers: seq<string>,
      answers: int -> seq<Arrival>)
    requires 0 < k < |chain| && 0 <= chain[k].Index() && GoodLink(digest, chain, k)
    requires peers != [] && Serve(peers, answers, chain)
    ensures Accepted(digest, chain[k - 1], chain[k].Index(), peers, Filed(answers(chain[k].Index()))) == Some(chain[k])
  {
    var i := chain[k].Index();
    assert peers[i % |peers|] in peers && peers[(i + 1) % |peers|] in peers;
  }

  /** The ledger holds the chain below height i. */
  ghost predicate Along(s: LedgerState, i: int, chain: seq<Block>) {
    && 0 < |s.collection| <= |chain|
    && chain[..|s.collection|] == s.collection
    && i == chain[0].Index() + |s.collection|
  }

  ghost predicate Follows(turn: Turn, chain: seq<Block>) {
    forall s, i :: Along(s, i, chain) && |s.collection| < |chain| ==>
      turn(s, i).Some? && Along(turn(s, i).value, i + 1, chain)
  }

  lemma {:induction false} NextBlockFits(chain: seq<Block>, longer: seq<Block>)
    requires 0 < |chain| < |longer| && longer[..|chain|] == chain && Contiguous(longer) && DistinctHashes(longer)
    ensures InsertOne(chain, longer[|chain|]) == Some(longer[..|chain| + 1])
  {
    var n := |chain|;
    forall k | 0 <= k < n
      ensures chain[k].hash != longer[n].hash && chain[k].Index() == chain[0].Index() + k
    {
      assert chain[k] == longer[..n][k] && chain[0] == longer[..n][0];
    }
    InsertAppends(chain, longer[n]);
    assert longer[..n + 1] == chain + [longer[n]];
  }

  lemma {:induction false} HonestTurn(digest: Digest, subscriber: Subscriber, peers: seq<string>,
      answers: int -> seq<Arrival>, chain: seq<Block>, s: LedgerState, i: int)
    requires chain != [] && 0 <= chain[0].Index()
    requires Contiguous(chain) && ValidChain(digest, chain) && DistinctHashes(chain)
    requires peers != [] && Serve(peers, answers, chain)
    requires Along(s, i, chain) && |s.collection| < |chain|
    ensures TurnAt(digest, subscriber, peers, answers, s, i).Some?
    ensures Along(TurnAt(digest, subscriber, peers, answers, s, i).value, i + 1, chain)
  {
    var n := |s.collection|;
    assert GoodLink(digest, chain, n);
    HonestBlockAccepted(digest, chain, n, peers, answers);
    assert s.collection[n - 1] == chain[..n][n - 1];
    NextBlockFits(s.collection, chain);
  }

  lemma {:induction false} HonestTurnsFollow(digest: Digest, subscriber: Subscriber, peers: seq<string>,
      answers: int -> seq<Arrival>, chain: seq<Block>)
    requires chain != [] && 0 <= chain[0].Index()
    requires Contiguous(chain) && ValidChain(digest, chain) && DistinctHashes(chain)
    requires peers != [] && Serve(peers, answers, chain)
    ensures Follows(TurnOf(digest, subscriber, peers, answers), chain)
  {
    var turn := TurnOf(digest, subscriber, peers, answers);
    forall s, i | Along(s, i, chain) && |s.collection| < |chain|
      ensures turn(s, i).Some? && Along(turn(s, i).value, i + 1, chain)
    {
      HonestTurn(digest, subscriber, peers, answers, chain, s, i);
    }
  }

  lemma {:induction false} FollowingArrives(turn: Turn, s: LedgerState, i: int, chain: seq<Block>, top: int)
    requires Follows(turn, chain) && Along(s, i, chain) && top == chain[0].Index() + |chain| - 1
    ensures Appended(turn, s, i, top).collection == chain
    decreases chain[0].Index() + |chain| - i
  {
    if |s.collection| == |chain| {
      assert chain[..|chain|] == chain;
    } else {
      FollowingArrives(turn, turn(s, i).value, i + 1, chain, top);
    }
  }

  lemma {:induction false} FollowingCatchesUp(turn: Turn, s: LedgerState, chain: seq<Block>)
    requires chain != [] && Contiguous(chain) && Follows(turn, chain)
    requires 0 < |s.collection| <= |chain| && chain[..|s.collection|] == s.collection
    ensures CaughtUp(turn, s, chain[|chain| - 1].Index()).collection == chain
  {
    assert s.collection[|s.collection| - 1] == chain[|s.collection| - 1];
    FollowingArrives(turn, s, chain[0].Index() + |s.collection|, chain, chain[|chain| - 1].Index());
  }

  /** Then the node ends up with exactly that chain, up to the claimed height. */
  lemma {:induction false} HonestPeersAreFollowed(digest: Digest, subscriber: Subscriber, peers: seq<string>,
      answers: int -> seq<Arrival>, chain: seq<Block>, s: LedgerState)
    requires chain != [] && 0 <= chain[0].Index()
    requires Contiguous(chain) && ValidChain(digest, chain) && DistinctHashes(chain)
    requires peers != [] && Serve(peers, answers, chain)
    requires 0 < |s.collection| <= |chain| && chain[..|s.collection|] == s.collection
    ensures CaughtUp(TurnOf(digest, subscriber, peers, answers), s, chain[|chain| - 1].Index()).collection == chain
  {
    var turn := TurnOf(digest, subscriber, peers, answers);
    HonestTurnsFollow(digest, subscriber, peers, answers, chain);
    FollowingCatchesUp(turn, s, chain);
  }

  // ---------- The engine ----------

  class SyncEngine {
    const ledger: Ledger
    var currentState: SyncState
    var chainStatusResponses: seq<Status>
    var blockSyncResponses: map<Key, Block>

    constructor (ledger: Ledger)
      ensures this.ledger == ledger && currentState == OFFLINE
    {
      this.ledger := ledger;
      currentState := OFFLINE;
      chainStatusResponses := [];
      blockSyncResponses := map[];
    }

    method HandleChainStatusResponse(status: Status)
      modifies this`chainStatusResponses
      ensures chainStatusResponses ==
              old(chainStatusResponses) + if currentState == OFFLINE then [] else [status]
    {
      if currentState != OFFLINE {
        chainStatusResponses := chainStatusResponses + [status];
      }
    }

    method HandleBlockSyncResponse(arrival: Arrival)
      modifies this`blockSyncResponses
      ensures blockSyncResponses ==
              if currentState == OFFLINE then old(blockSyncResponses)
              else old(blockSyncResponses)[Key(arrival.block.Index(), arrival.peer) := arrival.block]
    {
      if currentState != OFFLINE {
        blockSyncResponses := blockSyncResponses[Key(arrival.block.Index(), arrival.peer) := arrival.block];
      }
    }

    /** The wait for the answers to one block request. */
    method AwaitBlocks(arrivals: seq<Arrival>)
      requires currentState != OFFLINE
      modifies this`blockSyncResponses
      ensures blockSyncResponses == Filed(arrivals)
    {
      blockSyncResponses := map[];
      for n := 0 to |arrivals|
        invariant blockSyncResponses == Filed(arrivals[..n])
      {
        assert arrivals[..n + 1][..n] == arrivals[..n];
        HandleBlockSyncResponse(arrivals[n]);
      }
      assert arrivals[..|arrivals|] == arrivals;
    }

    /** The wait for the claims of other nodes. */
    method AwaitStatuses(statuses: seq<Status>)
      requires currentState != OFFLINE
      modifies this`chainStatusResponses
      ensures chainStatusResponses == statuses
    {
      chainStatusResponses := [];
      for n := 0 to |statuses|
        invariant chainStatusResponses == statuses[..n]
      {
        HandleChainStatusResponse(statuses[n]);
      }
    }

    /** The body of the loop up to the checks: the block to append, if any. */
    method FetchBlock(i: nat, peers: seq<string>, arrivals: seq<Arrival>) returns (block: Option<Block>)
      requires currentState != OFFLINE
      requires Ascending(ledger.collection) && ledger.collection != []
      modifies this`blockSyncResponses
      ensures block == Accepted(ledger.digest, ledger.collection[|ledger.collection| - 1], i, peers, Filed(arrivals))
      ensures Disputed(peers, Filed(arrivals), i) ==> block == None
      ensures block.Some? ==> Key(i, peers[i % |peers|]) in Filed(arrivals)
                              && block.value == Filed(arrivals)[Key(i, peers[i % |peers|])]
    {
      AwaitBlocks(arrivals);
      if |peers| == 0 {
        return None;
      }
      var primary := Key(i, peers[i % |peers|]);
      if primary !in blockSyncResponses {
        return None;
      }
      var mainBlock := blockSyncResponses[primary];
      if |peers| >= 2 {
        var second := Key(i, peers[(i + 1) % |peers|]);
        if second in blockSyncResponses && mainBlock.hash != blockSyncResponses[second].hash {
          return None;
        }
      }
      var structuralPrevious := ledger.GetLatestBlock();
      assert structuralPrevious.value == ledger.collection[|ledger.collection| - 1];
      if ledger.digest(mainBlock.content) != mainBlock.hash
         || mainBlock.content.previousHash != Some(structuralPrevious.value.hash) {
        return None;
      }
      block := Some(mainBlock);
    }

    /** One turn of the loop; false is a break or the insert error. */
    method TakeTurn(i: nat, peers: seq<string>, answers: int -> seq<Arrival>) returns (taken: bool)
      requires currentState != OFFLINE
      requires Ascending(ledger.collection) && ledger.collection != []
      modifies this`blockSyncResponses, ledger
      ensures Ascending(ledger.collection) && ledger.collection != []
      ensures var after := TurnAt(ledger.digest, ledger.subscriber, peers, answers, old(ledger.Snapshot()), i);
              taken == after.Some? && ledger.Snapshot() == after.GetOr(old(ledger.Snapshot()))
    {
      var block := FetchBlock(i, peers, answers(i));
      if block.None? {
        return false;
      }
      taken := ledger.AddBlockToChain(block.value);
    }

    method AppendBlocks(first: nat, highest: int, peers: seq<string>, answers: int -> seq<Arrival>)
      requires currentState != OFFLINE
      requires Ascending(ledger.collection) && ledger.collection != []
      modifies this`blockSyncResponses, ledger
      ensures ledger.Snapshot()
              == Appended(TurnOf(ledger.digest, ledger.subscriber, peers, answers), old(ledger.Snapshot()), first,
                  highest)
      ensures Ascending(ledger.collection)
    {
      var i := first;
      ghost var turn := TurnOf(ledger.digest, ledger.subscriber, peers, answers);
      while i <= highest
        invariant Ascending(ledger.collection) && ledger.collection != []
        invariant Appended(turn, ledger.Snapshot(), i, highest) == Appended(turn, old(ledger.Snapshot()), first,
            highest)
        decreases highest - i
      {
        var taken := TakeTurn(i, peers, answers);
        if !taken {
          break;
        }
        i := i + 1;
      }
    }

    method WipeIfInvalid()
      requires Ascending(ledger.collection)
      requires ledger.collection != [] ==> 0 <= ledger.collection[|ledger.collection| - 1].Index()
      modifies ledger
      ensures ledger.Snapshot() == Base(ledger.digest, old(ledger.Snapshot())) && Ascending(ledger.collection)
      ensures ledger.collection != [] ==> 0 <= ledger.collection[|ledger.collection| - 1].Index()
    {
      var isLocalValid := ledger.IsChainValid();
      if !isLocalValid {
        GenesisIsSound(ledger.digest);
        ledger.PurgeChain();
      }
    }

    method CatchUp(highest: int, peers: seq<string>, answers: int -> seq<Arrival>)
      requires Ascending(ledger.collection) && currentState == SYNCING_HEADERS
      requires ledger.collection != [] ==> 0 <= ledger.collection[|ledger.collection| - 1].Index()
      modifies this`blockSyncResponses, this`currentState, ledger
      ensures ledger.Snapshot()
              == CaughtUp(TurnOf(ledger.digest, ledger.subscriber, peers, answers), old(ledger.Snapshot()), highest)
      ensures Ascending(ledger.collection) && currentState in {SYNCING_HEADERS, SYNCING_BLOCKS}
    {
      ghost var turn, base := TurnOf(ledger.digest, ledger.subscriber, peers, answers), ledger.Snapshot();
      CatchUpCases(turn, base, highest);
      var localLatest := ledger.GetLatestBlock();
      if localLatest.None? {
        return;
      }
      var top := localLatest.value.Index();
      assert top == ledger.collection[|ledger.collection| - 1].Index();
      if highest > top {
        currentState := SYNCING_BLOCKS;
        AppendBlocks(top + 1, highest, peers, answers);
      }
    }

    /** Wiping the chain if it fails its check, then the append loop; an empty database ends in the
        caught exception. */
    method WipeAndCatchUp(highest: int, peers: seq<string>, answers: int -> seq<Arrival>)
      requires Ascending(ledger.collection) && currentState == SYNCING_HEADERS
      requires ledger.collection != [] ==> 0 <= ledger.collection[|ledger.collection| - 1].Index()
      modifies this`blockSyncResponses, this`currentState, ledger
      ensures ledger.Snapshot()
              == Synced(ledger.digest, TurnOf(ledger.digest, ledger.subscriber, peers, answers),
                  old(ledger.Snapshot()), highest)
      ensures Ascending(ledger.collection) && currentState in {SYNCING_HEADERS, SYNCING_BLOCKS}
    {
      WipeIfInvalid();
      CatchUp(highest, peers, answers);
    }

    /** No peer object, no peers and a sync already under way all end at once. */
    method PerformInitialSync(peerCount: Option<nat>, statuses: seq<Status>, answers: int -> seq<Arrival>)
        returns (ghost highest: int, ghost peers: seq<string>)
      requires Ascending(ledger.collection)
      requires ledger.collection != [] ==> 0 <= ledger.collection[|ledger.collection| - 1].Index()
      modifies this, ledger
      ensures Ascending(ledger.collection)
      ensures if peerCount.None? || peerCount == Some(0) || old(currentState) !in {OFFLINE, ACTIVE} then
                && ledger.Snapshot() == old(ledger.Snapshot())
                && currentState == if peerCount == Some(0) then ACTIVE else old(currentState)
              else
                && currentState == ACTIVE
                && IsTarget(statuses, highest, peers)
                && ledger.Snapshot()
                   == Synced(ledger.digest, TurnOf(ledger.digest, ledger.subscriber, peers, answers),
                       old(ledger.Snapshot()), highest)
    {
      highest, peers := -1, [];
      if peerCount.None? {
        return;
      }
      if peerCount.value == 0 {
        currentState := ACTIVE;
        return;
      }
      if currentState != OFFLINE && currentState != ACTIVE {
        return;
      }
      currentState := SYNCING_HEADERS;
      AwaitStatuses(statuses);
      var highestConsensusIndex, highestConsensusPeers := ChooseTarget(chainStatusResponses);
      highest, peers := highestConsensusIndex, highestConsensusPeers;
      WipeAndCatchUp(highestConsensusIndex, highestConsensusPeers, answers);
      currentState := ACTIVE;
    }
  }
}
