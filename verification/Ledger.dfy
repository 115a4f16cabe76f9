/** ledger/Ledger.ts: the block collection, read in order of its unique height index.

    The text that is hashed is that of CanonicalText; here the hash of a block without its own
    hash is an arbitrary function of its content.
 */
module Ledger {
  import opened Platform
  import opened Wrappers

  /** What is hashed. A block off the wire may lack its previous hash. */
  datatype Content = Content(
    index: int,
    timestamp: int,
    kind: string,
    previousHash: Option<string>,
    signer: string,
    payload: string,
    signature: string)

  datatype Block = Block(content: Content, hash: string) {
    function Index(): int { content.index }
  }

  type Digest = Content -> string

  /** What the subscribers of new blocks do to the registered validators. */
  type Subscriber = (set<string>, Block) -> set<string>

  const EPOCH_LENGTH := 100
  const NO_HASH: string := "0000000000000000000000000000000000000000000000000000000000000000"

  /** No two stored blocks have the same height, and the collection is listed by height. */
  ghost predicate Ascending(chain: seq<Block>) {
    forall i, j :: 0 <= i < j < |chain| ==> chain[i].Index() < chain[j].Index()
  }

  ghost predicate Contiguous(chain: seq<Block>) {
    forall k :: 0 <= k < |chain| ==> chain[k].Index() == chain[0].Index() + k
  }

  predicate GoodHash(digest: Digest, b: Block) {
    b.hash == digest(b.content)
  }

  predicate GoodLink(digest: Digest, chain: seq<Block>, k: nat)
    requires 0 < k < |chain|
  {
    GoodHash(digest, chain[k]) && chain[k].content.previousHash == Some(chain[k - 1].hash)
  }

  predicate GoodStep(digest: Digest, chain: seq<Block>, k: nat)
    requires 0 < k < |chain|
  {
    GoodLink(digest, chain, k) && chain[k].Index() == chain[k - 1].Index() + 1
  }

  /** What isChainValid looks at: not the first block, and not the heights. */
  ghost predicate ValidChain(digest: Digest, chain: seq<Block>) {
    forall k :: 0 < k < |chain| ==> GoodLink(digest, chain, k)
  }

  /** Every block beyond the old ones is hashed, linked and at the next height. */
  ghost predicate Extends(digest: Digest, chain: seq<Block>, longer: seq<Block>) {
    && 0 < |chain| <= |longer|
    && longer[..|chain|] == chain
    && forall k :: |chain| <= k < |longer| ==> GoodStep(digest, longer, k)
  }

  lemma {:induction false} ExtendingKeepsValidity(digest: Digest, chain: seq<Block>, longer: seq<Block>)
    requires Extends(digest, chain, longer)
    ensures ValidChain(digest, chain) <==> ValidChain(digest, longer)
  {
    forall k | 0 < k < |chain|
      ensures GoodLink(digest, chain, k) <==> GoodLink(digest, longer, k)
    {
      assert longer[k] == longer[..|chain|][k] && longer[k - 1] == longer[..|chain|][k - 1];
    }
    forall k | |chain| <= k < |longer| ensures GoodLink(digest, longer, k) {
      assert GoodStep(digest, longer, k);
    }
  }

  lemma {:induction false} ExtendingKeepsHeights(digest: Digest, chain: seq<Block>, longer: seq<Block>, k: nat)
    requires Extends(digest, chain, longer) && Contiguous(chain) && k < |longer|
    ensures longer[k].Index() == longer[0].Index() + k
  {
    if k < |chain| {
      assert longer[k] == longer[..|chain|][k] && longer[0] == longer[..|chain|][0];
    } else {
      assert GoodStep(digest, longer, k);
      ExtendingKeepsHeights(digest, chain, longer, k - 1);
    }
  }

  lemma {:induction false} ExtendingKeepsContiguity(digest: Digest, chain: seq<Block>, longer: seq<Block>)
    requires Extends(digest, chain, longer) && Contiguous(chain)
    ensures Contiguous(longer)
  {
    forall k | 0 <= k < |longer| ensures longer[k].Index() == longer[0].Index() + k {
      ExtendingKeepsHeights(digest, chain, longer, k);
    }
  }

  lemma {:induction false} ExtendsTransitive(digest: Digest, a: seq<Block>, b: seq<Block>, c: seq<Block>)
    requires Extends(digest, a, b) && Extends(digest, b, c)
    ensures Extends(digest, a, c)
  {
    assert c[..|a|] == c[..|b|][..|a|];
    forall k | |a| <= k < |c|
      ensures GoodStep(digest, c, k)
    {
      if k < |b| {
        assert GoodStep(digest, b, k);
        assert c[k] == c[..|b|][k] && c[k - 1] == c[..|b|][k - 1];
      }
    }
  }

  // ---------- Collection operations ----------

  predicate Taken(chain: seq<Block>, b: Block) {
    exists k :: 0 <= k < |chain| && (chain[k].Index() == b.Index() || chain[k].hash == b.hash)
  }

  /** How many leading blocks are lower. */
  function Position(chain: seq<Block>, index: int): (p: nat)
    ensures p <= |chain|
    ensures forall k :: 0 <= k < p ==> chain[k].Index() < index
    ensures p < |chain| ==> index <= chain[p].Index()
  {
    if chain == [] || index <= chain[0].Index() then 0 else 1 + Position(chain[1..], index)
  }

  /** insertOne: None is the duplicate-key error of the height index or of _id, which is the hash. */
  function InsertOne(chain: seq<Block>, b: Block): Option<seq<Block>> {
    if Taken(chain, b) then None
    else
      var p := Position(chain, b.Index());
      Some(chain[..p] + [b] + chain[p..])
  }

  lemma {:induction false} InsertKeepsOrder(chain: seq<Block>, b: Block)
    requires Ascending(chain) && InsertOne(chain, b).Some?
    ensures Ascending(InsertOne(chain, b).value)
  {
    var p := Position(chain, b.Index());
    var after := InsertOne(chain, b).value;
    assert forall k :: 0 <= k < |after| ==> after[k] == if k < p then chain[k] else if k == p then b else chain[k - 1];
    assert p < |chain| ==> b.Index() < chain[p].Index();
    forall i, j | 0 <= i < j < |after| ensures after[i].Index() < after[j].Index() {
      if j == p {
      } else if i == p {
        assert chain[p].Index() <= chain[j - 1].Index();
      }
    }
  }

  /** On a gapless chain the height index lets a block in above the tip only as the last one. */
  lemma {:induction false} InsertAppends(chain: seq<Block>, b: Block)
    requires chain != [] && Contiguous(chain) && chain[0].Index() <= b.Index() <= chain[|chain| - 1].Index() + 1
    ensures InsertOne(chain, b).Some? ==>
              b.Index() == chain[0].Index() + |chain| && InsertOne(chain, b) == Some(chain + [b])
    ensures InsertOne(chain, b).Some? <==>
              b.Index() == chain[0].Index() + |chain| && forall k :: 0 <= k < |chain| ==> chain[k].hash != b.hash
  {
    var k := b.Index() - chain[0].Index();
    if k < |chain| {
      assert chain[k].Index() == b.Index();
    } else {
      var p := Position(chain, b.Index());
      if p < |chain| {
        assert false;
      }
      assert chain[..p] + [b] + chain[p..] == chain + [b];
    }
  }

  /** What deleteMany leaves of blocks below the checkpoint's height. */
  function Kept(chain: seq<Block>, checkpoint: int): seq<Block> {
    if chain == [] then []
    else (if chain[0].Index() < checkpoint then [] else [chain[0]]) + Kept(chain[1..], checkpoint)
  }

  lemma {:induction false} KeptIsSuffix(chain: seq<Block>, checkpoint: int)
    requires Ascending(chain)
    ensures Kept(chain, checkpoint) == chain[Position(chain, checkpoint)..]
  {
    if chain == [] {
    } else {
      assert Ascending(chain[1..]) by {
        forall i, j | 0 <= i < j < |chain[1..]| ensures chain[1..][i].Index() < chain[1..][j].Index() {
          assert chain[i + 1].Index() < chain[j + 1].Index();
        }
      }
      KeptIsSuffix(chain[1..], checkpoint);
      if checkpoint <= chain[0].Index() {
        var rest := chain[1..];
        if rest != [] {
          assert chain[0].Index() < chain[1].Index();
        }
        assert Position(rest, checkpoint) == 0;
        assert chain == [chain[0]] + rest;
      }
    }
  }

  lemma {:induction false} SuffixLinks(digest: Digest, chain: seq<Block>, p: nat)
    requires p <= |chain|
    ensures ValidChain(digest, chain[p..]) <==> forall k :: p < k < |chain| ==> GoodLink(digest, chain, k)
  {
    var kept := chain[p..];
    forall k | p < k < |chain| ensures GoodLink(digest, kept, k - p) <==> GoodLink(digest, chain, k) {
      assert kept[k - p] == chain[k] && kept[k - p - 1] == chain[k - 1];
    }
    if ValidChain(digest, kept) {
      forall k | p < k < |chain| ensures GoodLink(digest, chain, k) {
        assert GoodLink(digest, kept, k - p);
      }
    } else {
      var k :| 0 < k < |kept| && !GoodLink(digest, kept, k);
      assert !GoodLink(digest, chain, p + k);
    }
  }

  lemma {:induction false} KeptStart(chain: seq<Block>, checkpoint: int, k: nat)
    requires Ascending(chain) && 0 < k < |chain|
    ensures checkpoint <= chain[k - 1].Index() <==> Position(chain, checkpoint) < k
  {
    var p := Position(chain, checkpoint);
    if p < k - 1 {
      assert chain[p].Index() < chain[k - 1].Index();
    }
  }

  /** Pruning keeps every link above the checkpoint and hides the others. */
  lemma {:induction false} PruningKeepsValidity(digest: Digest, chain: seq<Block>, checkpoint: int)
    requires Ascending(chain)
    ensures ValidChain(digest, Kept(chain, checkpoint)) <==>
            forall k :: 0 < k < |chain| && checkpoint <= chain[k - 1].Index() ==> GoodLink(digest, chain, k)
  {
    KeptIsSuffix(chain, checkpoint);
    SuffixLinks(digest, chain, Position(chain, checkpoint));
    forall k | 0 < k < |chain|
      ensures (checkpoint <= chain[k - 1].Index() ==> GoodLink(digest, chain, k)) <==>
              (Position(chain, checkpoint) < k ==> GoodLink(digest, chain, k))
    {
      KeptStart(chain, checkpoint, k);
    }
  }

  lemma {:induction false} PruningKeepsContiguity(chain: seq<Block>, checkpoint: int)
    requires Ascending(chain)
    ensures Ascending(Kept(chain, checkpoint))
    ensures Contiguous(chain) ==> Contiguous(Kept(chain, checkpoint))
    ensures chain != [] && checkpoint <= chain[|chain| - 1].Index() ==>
              Kept(chain, checkpoint) != [] && Kept(chain, checkpoint)[|Kept(chain,
                  checkpoint)| - 1] == chain[|chain| - 1]
  {
    KeptIsSuffix(chain, checkpoint);
  }

  // ---------- Genesis ----------

  const GENESIS_TIMESTAMP := 1776557439851
  const GENESIS_FUNDING := Content(0, GENESIS_TIMESTAMP, "TRANSACTION", Some(""), ZERO_ADDRESS, "FUNDING",
      "GENESIS_SIG")

  function GenesisContract(fundingHash: string): Content {
    Content(1, GENESIS_TIMESTAMP, "STORAGE_CONTRACT", Some(fundingHash), ZERO_ADDRESS, "SEED", "GENESIS_SIG")
  }

  function Genesis(digest: Digest): seq<Block> {
    var funding := Block(GENESIS_FUNDING, digest(GENESIS_FUNDING));
    var seed := GenesisContract(funding.hash);
    [funding, Block(seed, digest(seed))]
  }

  lemma {:induction false} GenesisIsSound(digest: Digest)
    ensures ValidChain(digest, Genesis(digest)) && Contiguous(Genesis(digest)) && Ascending(Genesis(digest))
  {
  }

  // ---------- Adding a block ----------

  datatype LedgerState = LedgerState(collection: seq<Block>, validators: set<string>, cachedCount: nat)

  function Added(digest: Digest, subscriber: Subscriber, s: LedgerState, block: Block): Option<LedgerState> {
    match InsertOne(s.collection, block)
    case None => None
    case Some(after) =>
      Some(LedgerState(after, subscriber(s.validators, block),
                 if block.Index() % EPOCH_LENGTH == 0 then |s.validators| else s.cachedCount))
  }

  // ---------- The ledger object ----------

  class Ledger {
    const digest: Digest
    const subscriber: Subscriber
    var collection: seq<Block>
    var activeValidators: set<string>
    var activeValidatorCountCache: nat

    /** init: genesis on an empty database, and the cache from whatever is stored. */
    constructor (digest: Digest, subscriber: Subscriber, stored: seq<Block>, storedValidators: set<string>)
      requires Ascending(stored)
      ensures this.digest == digest && this.subscriber == subscriber
      ensures collection == (if stored == [] then Genesis(digest) else stored) && Ascending(collection)
      ensures activeValidators == storedValidators && activeValidatorCountCache == |storedValidators|
    {
      this.digest := digest;
      this.subscriber := subscriber;
      collection := if stored == [] then Genesis(digest) else stored;
      activeValidators := storedValidators;
      activeValidatorCountCache := |storedValidators|;
      GenesisIsSound(digest);
    }

    method SyncValidatorCache()
      modifies this`activeValidatorCountCache
      ensures activeValidatorCountCache == |activeValidators|
    {
      activeValidatorCountCache := |activeValidators|;
    }

    method GetLatestBlock() returns (latest: Option<Block>)
      requires Ascending(collection)
      ensures latest.None? <==> collection == []
      ensures latest.Some? ==> latest.value == collection[|collection| - 1]
      ensures latest.Some? ==> forall b :: b in collection && b != latest.value ==> b.Index() < latest.value.Index()
    {
      latest := if collection == [] then None else Some(collection[|collection| - 1]);
    }

    method PurgeChain()
      modifies this`collection, this`activeValidators
      ensures collection == Genesis(digest) && activeValidators == {}
    {
      collection := Genesis(digest);
      activeValidators := {};
    }

    method PruneHistory(checkpoint: int)
      requires Ascending(collection)
      modifies this`collection
      ensures collection == Kept(old(collection), checkpoint) && Ascending(collection)
      ensures ValidChain(digest, old(collection)) ==> ValidChain(digest, collection)
      ensures Contiguous(old(collection)) ==> Contiguous(collection)
    {
      PruningKeepsValidity(digest, collection, checkpoint);
      PruningKeepsContiguity(collection, checkpoint);
      collection := Kept(collection, checkpoint);
    }

    function Snapshot(): LedgerState
      reads this
    {
      LedgerState(collection, activeValidators, activeValidatorCountCache)
    }

    /** The epoch's cache is taken before the subscribers apply the block; false is the insert error. */
    method AddBlockToChain(block: Block) returns (ok: bool)
      requires Ascending(collection)
      modifies this
      ensures Ascending(collection)
      ensures match Added(digest, subscriber, old(Snapshot()), block)
              case None => !ok && Snapshot() == old(Snapshot())
              case Some(after) => ok && Snapshot() == after
    {
      var inserted := InsertOne(collection, block);
      if inserted.None? {
        return false;
      }
      InsertKeepsOrder(collection, block);
      collection := inserted.value;
      if block.Index() % EPOCH_LENGTH == 0 {
        SyncValidatorCache();
      }
      activeValidators := subscriber(activeValidators, block);
      ok := true;
    }

    method IsChainValid() returns (valid: bool)
      ensures valid <==> ValidChain(digest, collection)
    {
      var previousBlock: Option<Block> := None;
      for i := 0 to |collection|
        invariant previousBlock == if i == 0 then None else Some(collection[i - 1])
        invariant forall k :: 0 < k < i ==> GoodLink(digest, collection, k)
      {
        var currentBlock := collection[i];
        if previousBlock.Some? {
          if currentBlock.hash != digest(currentBlock.content) {
            assert !GoodLink(digest, collection, i);
            return false;
          }
          if currentBlock.content.previousHash != Some(previousBlock.value.hash) {
            assert !GoodLink(digest, collection, i);
            return false;
          }
        }
        previousBlock := Some(currentBlock);
      }
      valid := true;
    }
  }

  // ---------- The epoch's frozen count ----------

  /** A fresh node after adding the blocks one after the other. */
  function Grown(digest: Digest, subscriber: Subscriber, blocks: seq<Block>): Option<LedgerState> {
    if blocks == [] then Some(LedgerState(Genesis(digest), {}, 0))
    else
      match Grown(digest, subscriber, blocks[..|blocks| - 1])
      case None => None
      case Some(s) => Added(digest, subscriber, s, blocks[|blocks| - 1])
  }

  const FIRST_HEIGHT := 2

  ghost predicate InOrder(blocks: seq<Block>) {
    forall k :: 0 <= k < |blocks| ==> blocks[k].Index() == FIRST_HEIGHT + k
  }

  /** The validators once the block at the given height has been applied; genesis registers none. */
  function LiveAt(subscriber: Subscriber, blocks: seq<Block>, height: int): set<string>
    requires height < FIRST_HEIGHT + |blocks|
  {
    if height < FIRST_HEIGHT then {}
    else subscriber(LiveAt(subscriber, blocks, height - 1), blocks[height - FIRST_HEIGHT])
  }

  /** The last multiple of the epoch length. */
  function EpochStart(height: nat): nat {
    height - height % EPOCH_LENGTH
  }

  lemma {:induction false} EpochStep(height: nat)
    ensures EpochStart(height) <= height
    ensures height % EPOCH_LENGTH == 0 ==> EpochStart(height) == height
    ensures height > 0 && height % EPOCH_LENGTH != 0 ==> EpochStart(height) == EpochStart(height - 1)
  {
  }

  lemma {:induction false} LiveAtPrefix(subscriber: Subscriber, blocks: seq<Block>, n: nat, height: int)
    requires n <= |blocks| && height < FIRST_HEIGHT + n
    ensures LiveAt(subscriber, blocks[..n], height) == LiveAt(subscriber, blocks, height)
  {
    if height >= FIRST_HEIGHT {
      LiveAtPrefix(subscriber, blocks, n, height - 1);
    }
  }

  /** How many validators there were just before the epoch of the given height began. */
  function FrozenCount(subscriber: Subscriber, blocks: seq<Block>, height: nat): nat
    requires height < FIRST_HEIGHT + |blocks|
  {
    |LiveAt(subscriber, blocks, EpochStart(height) - 1)|
  }

  lemma {:induction false} FrozenStep(subscriber: Subscriber, blocks: seq<Block>, height: nat)
    requires 0 < height < FIRST_HEIGHT + |blocks|
    ensures FrozenCount(subscriber, blocks, height) ==
            if height % EPOCH_LENGTH == 0 then |LiveAt(subscriber, blocks, height - 1)|
            else FrozenCount(subscriber, blocks, height - 1)
  {
    EpochStep(height);
  }

  lemma {:induction false} FrozenPrefix(subscriber: Subscriber, blocks: seq<Block>, n: nat, height: nat)
    requires n <= |blocks| && height < FIRST_HEIGHT + n
    ensures FrozenCount(subscriber, blocks[..n], height) == FrozenCount(subscriber, blocks, height)
  {
    EpochStep(height);
    LiveAtPrefix(subscriber, blocks, n, EpochStart(height) - 1);
  }

  lemma {:induction false} AddedCount(digest: Digest, subscriber: Subscriber, s: LedgerState, block: Block)
    requires Added(digest, subscriber, s, block).Some?
    ensures var after := Added(digest, subscriber, s, block).value;
            && after.validators == subscriber(s.validators, block)
            && after.cachedCount == if block.Index() % EPOCH_LENGTH == 0 then |s.validators| else s.cachedCount
  {
  }

  lemma {:induction false} GrownFromPrefix(digest: Digest, subscriber: Subscriber, blocks: seq<Block>)
    requires blocks != [] && Grown(digest, subscriber, blocks).Some?
    ensures Grown(digest, subscriber, blocks[..|blocks| - 1]).Some?
    ensures Grown(digest, subscriber, blocks)
            == Added(digest, subscriber, Grown(digest, subscriber, blocks[..|blocks| - 1]).value, blocks[|blocks| - 1])
  {
  }

  /** After the block at height i, the cached count is that of the validators just before the
      last multiple of the epoch length. */
  lemma {:induction false} EpochFreezesCount(digest: Digest, subscriber: Subscriber, blocks: seq<Block>)
    requires InOrder(blocks) && Grown(digest, subscriber, blocks).Some?
    ensures var s, height := Grown(digest, subscriber, blocks).value, |blocks| + 1;
            && s.validators == LiveAt(subscriber, blocks, height)
            && s.cachedCount == FrozenCount(subscriber, blocks, height)
  {
    if blocks == [] {
      assert EpochStart(1) == 0;
    } else {
      var n, height := |blocks| - 1, |blocks| + 1;
      var block := blocks[n];
      assert block.Index() == height;
      GrownFromPrefix(digest, subscriber, blocks);
      var before := Grown(digest, subscriber, blocks[..n]).value;
      EpochFreezesCount(digest, subscriber, blocks[..n]);
      AddedCount(digest, subscriber, before, block);
      LiveAtPrefix(subscriber, blocks, n, height - 1);
      FrozenPrefix(subscriber, blocks, n, height - 1);
      FrozenStep(subscriber, blocks, height);
    }
  }

  /** peer_node/PeerNode.ts: getMajorityCount. */
  function MajorityCount(cachedCount: nat): (majority: nat)
    ensures majority >= 1
    ensures 2 * majority > cachedCount && (cachedCount > 0 ==> 2 * (majority - 1) <= cachedCount)
  {
    (if cachedCount > 0 then cachedCount else 1) / 2 + 1
  }

  lemma {:induction false} CountIsFrozen(digest: Digest, subscriber: Subscriber, blocks: seq<Block>)
    requires InOrder(blocks) && Grown(digest, subscriber, blocks).Some?
    ensures Grown(digest, subscriber, blocks).value.cachedCount == FrozenCount(subscriber, blocks, |blocks| + 1)
  {
    EpochFreezesCount(digest, subscriber, blocks);
  }

  lemma {:induction false} FrozenInEpoch(subscriber: Subscriber, blocks: seq<Block>, n: nat)
    requires n <= |blocks| && EpochStart(n + 1) == EpochStart(|blocks| + 1)
    ensures FrozenCount(subscriber, blocks[..n], n + 1) == FrozenCount(subscriber, blocks, |blocks| + 1)
  {
    FrozenPrefix(subscriber, blocks, n, n + 1);
  }

  /** So the count, and with it the majority, is the same after any two heights of an epoch,
      whatever stakes change there. */
  lemma {:induction false} CountIsConstantInEpoch(digest: Digest, subscriber: Subscriber, blocks: seq<Block>, n: nat)
    requires InOrder(blocks) && n <= |blocks| && EpochStart(n + 1) == EpochStart(|blocks| + 1)
    requires Grown(digest, subscriber, blocks).Some? && Grown(digest, subscriber, blocks[..n]).Some?
    ensures Grown(digest, subscriber, blocks[..n]).value.cachedCount == Grown(digest, subscriber,
        blocks).value.cachedCount
  {
    FrozenInEpoch(subscriber, blocks, n);
    CountIsFrozen(digest, subscriber, blocks);
    CountIsFrozen(digest, subscriber, blocks[..n]);
  }

  lemma {:induction false} MajorityIsConstantInEpoch(digest: Digest, subscriber: Subscriber, blocks: seq<Block>, n: nat)
    requires InOrder(blocks) && n <= |blocks| && EpochStart(n + 1) == EpochStart(|blocks| + 1)
    requires Grown(digest, subscriber, blocks).Some? && Grown(digest, subscriber, blocks[..n]).Some?
    ensures MajorityCount(Grown(digest, subscriber, blocks[..n]).value.cachedCount)
            == MajorityCount(Grown(digest, subscriber, blocks).value.cachedCount)
  {
    CountIsConstantInEpoch(digest, subscriber, blocks, n);
  }
}
