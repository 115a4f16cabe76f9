/** Proof of storage end to end: erasure sharding and 64 KB chunking in bundler/Bundler.ts,
    the host's streaming chunker in peer_handlers/sync_engine/SyncEngine.ts, and the chunk
    index arithmetic of peer_handlers/global_auditor/GlobalAuditor.ts and
    route_handlers/upload_handler/UploadHandler.ts.

    A buffer is a sequence of characters, one per byte. Base64 on the wire is the identity.
 */
module ProofOfStorage {
  import opened Arith
  import opened AuditorElection
  import opened Merkle

  const CHUNK_SIZE: nat := 65536

  datatype ShardError = NegativeParity | InvalidBufferSize | EncodingFailed
  datatype ShardResult = Shards(shards: seq<string>) | Failed(error: ShardError)

  // ---------- Chunks ----------

  function CeilDiv(a: nat, b: nat): (q: nat)
    requires b > 0
    ensures a <= q * b < a + b
  {
    (a + b - 1) / b
  }

  function Chunks(data: string): (chunks: seq<string>)
    ensures |chunks| == CeilDiv(|data|, CHUNK_SIZE)
    ensures forall k :: 0 <= k < |chunks| ==> 0 < |chunks[k]| <= CHUNK_SIZE
    decreases |data|
  {
    if data == "" then []
    else if |data| <= CHUNK_SIZE then [data]
    else [data[..CHUNK_SIZE]] + Chunks(data[CHUNK_SIZE..])
  }

  function Flatten(pieces: seq<string>): string {
    if pieces == [] then "" else pieces[0] + Flatten(pieces[1..])
  }

  /** What a streaming chunker has emitted after `data`, and what it still holds. */
  function Emitted(data: string): seq<string>
    decreases |data|
  {
    if |data| < CHUNK_SIZE then [] else [data[..CHUNK_SIZE]] + Emitted(data[CHUNK_SIZE..])
  }

  function Held(data: string): (rest: string)
    ensures |rest| < CHUNK_SIZE
    decreases |data|
  {
    if |data| < CHUNK_SIZE then data else Held(data[CHUNK_SIZE..])
  }

  /** Where the stream is cut does not matter. */
  lemma {:induction false} EmittedAppend(a: string, b: string)
    ensures Emitted(a + b) == Emitted(a) + Emitted(Held(a) + b)
    ensures Held(a + b) == Held(Held(a) + b)
    decreases |a|
  {
    if |a| >= CHUNK_SIZE {
      EmittedAppend(a[CHUNK_SIZE..], b);
      assert (a + b)[..CHUNK_SIZE] == a[..CHUNK_SIZE];
      assert (a + b)[CHUNK_SIZE..] == a[CHUNK_SIZE..] + b;
    }
  }

  lemma {:induction false} FlushCompletes(data: string)
    ensures Chunks(data) == Emitted(data) + (if Held(data) == "" then [] else [Held(data)])
    decreases |data|
  {
    if |data| == CHUNK_SIZE {
      assert data[..CHUNK_SIZE] == data;
      assert data[CHUNK_SIZE..] == "";
    } else if |data| > CHUNK_SIZE {
      FlushCompletes(data[CHUNK_SIZE..]);
    }
  }

  lemma {:induction false} ChunksFlatten(data: string)
    ensures Flatten(Chunks(data)) == data
    decreases |data|
  {
    if data != "" && |data| <= CHUNK_SIZE {
      assert Chunks(data)[1..] == [];
    } else if data != "" {
      ChunksFlatten(data[CHUNK_SIZE..]);
      assert Chunks(data)[1..] == Chunks(data[CHUNK_SIZE..]);
    }
  }

  function Least(a: nat, b: nat): nat {
    if a < b then a else b
  }

  lemma {:induction false} SliceOfRest(data: string, n: nat, i: nat, j: nat)
    requires n <= |data| && i <= j <= |data| - n
    ensures data[n..][i..j] == data[n + i..n + j]
  {
  }

  /** Chunk k is what stands in the data from k times 64 KB on, up to 64 KB of it. */
  lemma {:induction false} ChunkAt(data: string, k: nat)
    requires k < |Chunks(data)|
    ensures k * CHUNK_SIZE < |data|
    ensures Chunks(data)[k] == data[k * CHUNK_SIZE..Least((k + 1) * CHUNK_SIZE, |data|)]
    decreases k
  {
    if k == 0 {
      assert |data| <= CHUNK_SIZE ==> data[0..|data|] == data;
      assert |data| > CHUNK_SIZE ==> Chunks(data)[0] == data[..CHUNK_SIZE];
    } else {
      var rest := data[CHUNK_SIZE..];
      ChunkAt(rest, k - 1);
      SliceOfRest(data, CHUNK_SIZE, (k - 1) * CHUNK_SIZE, Least(k * CHUNK_SIZE, |rest|));
      assert Chunks(data)[k] == Chunks(rest)[k - 1];
      assert CHUNK_SIZE + Least(k * CHUNK_SIZE, |rest|) == Least((k + 1) * CHUNK_SIZE, |data|);
    }
  }

  /** The bundler's loop over offsets. */
  method ChunkShard(shard: string) returns (chunkBuffers: seq<string>)
    ensures chunkBuffers == Chunks(shard)
  {
    chunkBuffers := [];
    var offset := 0;
    assert shard[0..] == shard;
    while offset < |shard|
      invariant 0 <= offset
      invariant chunkBuffers + Chunks(if offset <= |shard| then shard[offset..] else "") == Chunks(shard)
      decreases |shard| - offset
    {
      var end := if offset + CHUNK_SIZE < |shard| then offset + CHUNK_SIZE else |shard|;
      var rest := shard[offset..];
      assert shard[offset..end] == if |rest| <= CHUNK_SIZE then rest else rest[..CHUNK_SIZE];
      if offset + CHUNK_SIZE <= |shard| {
        assert rest[CHUNK_SIZE..] == shard[offset + CHUNK_SIZE..];
      }
      chunkBuffers := chunkBuffers + [shard[offset..end]];
      offset := offset + CHUNK_SIZE;
    }
  }

  /** The stream listeners of the two challenge handlers, with the buffers they share. */
  class StreamChunker {
    var chunks: seq<string>
    var currentChunk: string

    /** `received` is all the stream delivered so far. */
    ghost predicate Holds(received: string)
      reads this
    {
      chunks == Emitted(received) && currentChunk == Held(received)
    }

    constructor ()
      ensures Holds("")
    {
      chunks := [];
      currentChunk := "";
    }

    method OnData(c: string, ghost received: string)
      requires Holds(received)
      modifies this
      ensures Holds(received + c)
    {
      EmittedAppend(received, c);
      currentChunk := currentChunk + c;
      while |currentChunk| >= CHUNK_SIZE
        invariant chunks + Emitted(currentChunk) == Emitted(received + c)
        invariant Held(currentChunk) == Held(received + c)
        decreases |currentChunk|
      {
        chunks := chunks + [currentChunk[..CHUNK_SIZE]];
        currentChunk := currentChunk[CHUNK_SIZE..];
      }
    }

    method Flush(ghost received: string)
      requires Holds(received)
      modifies this
      ensures chunks == Chunks(received) && currentChunk == ""
    {
      FlushCompletes(received);
      if |currentChunk| > 0 {
        chunks := chunks + [currentChunk];
      }
      currentChunk := "";
    }
  }

  // ---------- The host's reply ----------

  datatype Reply = Refused | Answer(chunkData: string, merkleSiblings: seq<string>)

  function HostReply(h: Hash, stored: string, chunkIndex: nat): Reply {
    var chunks := Chunks(stored);
    if chunkIndex >= |chunks| then Refused
    else Answer(chunks[chunkIndex], Siblings(Tree(h, LeafLayer(h, chunks)), chunkIndex))
  }

  method ChunkStream(pieces: seq<string>) returns (chunks: seq<string>)
    ensures chunks == Chunks(Flatten(pieces))
  {
    var chunker := new StreamChunker();
    ghost var received := "";
    var k := 0;
    assert pieces[0..] == pieces;
    while k < |pieces|
      invariant 0 <= k <= |pieces|
      invariant chunker.Holds(received)
      invariant received + Flatten(pieces[k..]) == Flatten(pieces)
    {
      assert pieces[k..][1..] == pieces[k + 1..];
      assert received + Flatten(pieces[k..]) == (received + pieces[k]) + Flatten(pieces[k + 1..]);
      chunker.OnData(pieces[k], received);
      received := received + pieces[k];
      k := k + 1;
    }
    chunker.Flush(received);
    assert received + "" == received;
    chunks := chunker.chunks;
  }

  /** Both challenge handlers, fed the stored shard in arbitrary pieces. */
  method AnswerChallenge(h: Hash, pieces: seq<string>, chunkIndex: nat) returns (reply: Reply)
    ensures reply == HostReply(h, Flatten(pieces), chunkIndex)
  {
    var chunks := ChunkStream(pieces);
    if |chunks| == 0 || chunkIndex >= |chunks| {
      return Refused;
    }
    var tree, _ := BuildMerkleTree(h, chunks);
    var merkleSiblings := GetMerkleProof(tree, chunkIndex);
    reply := Answer(chunks[chunkIndex], merkleSiblings);
  }

  /** The check of the auditor and of the uploader: an answer with data whose proof verifies. */
  predicate Passes(h: Hash, reply: Reply, merkleRoot: string, targetIndex: nat) {
    reply.Answer? && reply.chunkData != "" && Accepts(h, reply.chunkData, reply.merkleSiblings, merkleRoot, targetIndex)
  }

  // ---------- Erasure shards ----------

  /** The buffer the code allocates: the file, zeroes up to K shards, then parity bytes. */
  function ShardByte(buffer: string, K: nat, N: nat, parity: nat -> char, j: nat): char
    requires 0 < K <= N
  {
    if j < |buffer| then buffer[j]
    else if j < CeilDiv(|buffer|, K) * K || N == K then 0 as char
    else parity(j)
  }

  predicate IsShard(shard: string, buffer: string, K: nat, N: nat, parity: nat -> char, i: nat)
    requires 0 < K <= N
  {
    && |shard| == CeilDiv(|buffer|, K)
    && forall j :: 0 <= j < |shard| ==> shard[j] == ShardByte(buffer, K, N, parity, i * |shard| + j)
  }

  lemma {:induction false} SliceInside(i: nat, n: nat, size: nat)
    requires i < n
    ensures 0 <= i * size && i * size + size <= n * size
  {
    MulMonotone(size, i + 1, n);
    assert (i + 1) * size == i * size + size;
  }

  /** Allocation, copy, padding and parity, before the buffer is cut into shards. */
  method FillShardBuffer(buffer: string, K: nat, N: nat, parity: nat -> char) returns (shardsBuf: array<char>)
    requires 0 < K <= N
    ensures shardsBuf.Length == N * CeilDiv(|buffer|, K)
    ensures forall j :: 0 <= j < shardsBuf.Length ==> shardsBuf[j] == ShardByte(buffer, K, N, parity, j)
  {
    var shardSize := CeilDiv(|buffer|, K);
    var paddedLength := shardSize * K;
    MulMonotone(shardSize, K, N);
    shardsBuf := new char[N * shardSize](_ => 0 as char);
    forall j | 0 <= j < |buffer| {
      shardsBuf[j] := buffer[j];
    }
    if N > K {
      forall j | paddedLength <= j < shardsBuf.Length {
        shardsBuf[j] := parity(j);
      }
    }
  }

  lemma {:induction false} CutIsShard(all: string, buffer: string, K: nat, N: nat, parity: nat -> char, i: nat)
    requires 0 < K <= N && i < N && |all| == N * CeilDiv(|buffer|, K)
    requires forall j :: 0 <= j < |all| ==> all[j] == ShardByte(buffer, K, N, parity, j)
    ensures var size := CeilDiv(|buffer|, K);
            && 0 <= i * size && i * size + size <= |all|
            && IsShard(all[i * size..i * size + size], buffer, K, N, parity, i)
  {
    SliceInside(i, N, CeilDiv(|buffer|, K));
  }

  /** The closing loop of encodeErasureShards. */
  method SliceShards(shardsBuf: array<char>, shardSize: nat, N: nat, ghost buffer: string, ghost K: nat,
      ghost parity: nat -> char)
    returns (shards: seq<string>)
    requires 0 < K <= N && shardSize == CeilDiv(|buffer|, K) && shardsBuf.Length == N * shardSize
    requires forall j :: 0 <= j < shardsBuf.Length ==> shardsBuf[j] == ShardByte(buffer, K, N, parity, j)
    ensures |shards| == N && forall i :: 0 <= i < N ==> IsShard(shards[i], buffer, K, N, parity, i)
  {
    shards := [];
    var i := 0;
    while i < N
      invariant 0 <= i <= N && |shards| == i
      invariant forall k :: 0 <= k < i ==> IsShard(shards[k], buffer, K, N, parity, k)
    {
      CutIsShard(shardsBuf[..], buffer, K, N, parity, i);
      var from := i * shardSize;
      assert shardsBuf[from..from + shardSize] == shardsBuf[..][from..from + shardSize];
      shards := shards + [shardsBuf[from..from + shardSize]];
      i := i + 1;
    }
  }

  /** `encodes` says whether the encoder reports success; `parity` is what it then writes. */
  method EncodeErasureShards(buffer: string, K: nat, N: nat, encodes: bool,
      parity: nat -> char) returns (r: ShardResult)
    ensures N < K ==> r == Failed(NegativeParity)
    ensures K == 0 ==> r.Failed?
    ensures 0 < K <= N ==> (r.Failed? <==> K < N && !encodes)
    ensures 0 < K <= N && r.Shards? ==>
              |r.shards| == N && forall i :: 0 <= i < N ==> IsShard(r.shards[i], buffer, K, N, parity, i)
  {
    if N < K {
      return Failed(NegativeParity);
    }
    if K == 0 {
      return Failed(InvalidBufferSize);
    }
    if N > K && !encodes {
      return Failed(EncodingFailed);
    }
    var shardsBuf := FillShardBuffer(buffer, K, N, parity);
    var shards := SliceShards(shardsBuf, CeilDiv(|buffer|, K), N, buffer, K, parity);
    r := Shards(shards);
  }

  /** The first K shards laid end to end start with the file: byte p is byte p mod size of
      shard p div size. */
  lemma {:induction false} DataShardsHoldTheFile(buffer: string, K: nat, N: nat, parity: nat -> char,
      shard: string, i: nat, p: nat)
    requires 0 < K <= N && p < |buffer|
    requires i == p / CeilDiv(|buffer|, K) && IsShard(shard, buffer, K, N, parity, i)
    ensures i < K && shard[p % |shard|] == buffer[p]
  {
    var size := CeilDiv(|buffer|, K);
    assert p == i * size + p % size;
    if i >= K {
      MulMonotone(size, K, i);
    }
  }

  function ShardRoot(h: Hash, shard: string): string {
    if Chunks(shard) == [] then "" else Root(h, LeafLayer(h, Chunks(shard)))
  }

  method StreamPreEncryptedErasureBundle(
      h: Hash, encryptedBuffer: string, K: nat, N: nat, encodes: bool, parity: nat -> char)
    returns (r: ShardResult, merkleRoots: seq<string>)
    requires encryptedBuffer != ""
    ensures K == 1 && N == 1 ==> r == Shards([encryptedBuffer])
    ensures 0 < K <= N && N > 1 && r.Shards? ==>
              |r.shards| == N && forall i :: 0 <= i < N ==> IsShard(r.shards[i], encryptedBuffer, K, N, parity, i)
    ensures 0 < K <= N && (N == K || encodes) ==> r.Shards?
    ensures r.Shards? ==> |merkleRoots| == |r.shards|
    ensures r.Shards? ==> forall i :: 0 <= i < |r.shards| ==> merkleRoots[i] == ShardRoot(h, r.shards[i])
  {
    merkleRoots := [];
    if K == 1 && N == 1 {
      r := Shards([encryptedBuffer]);
    } else {
      r := EncodeErasureShards(encryptedBuffer, K, N, encodes, parity);
    }
    if r.Failed? {
      return;
    }
    var i := 0;
    while i < |r.shards|
      invariant 0 <= i <= |r.shards| && |merkleRoots| == i
      invariant forall k :: 0 <= k < i ==> merkleRoots[k] == ShardRoot(h, r.shards[k])
    {
      var chunkBuffers := ChunkShard(r.shards[i]);
      var _, root := BuildMerkleTree(h, chunkBuffers);
      merkleRoots := merkleRoots + [root];
      i := i + 1;
    }
  }

  // ---------- Challenge indices ----------

  /** The auditor works from the contract's originalSize and k, never from the shard. */
  function AuditTotalChunks(originalSize: nat, K: nat): nat
    requires K > 0
  {
    var paddedSize := CeilDiv(originalSize, K) * K;
    var shardSize := paddedSize / K;
    CeilDiv(shardSize, CHUNK_SIZE)
  }

  function AuditTarget(numericHash: nat, totalChunks: nat): nat {
    if totalChunks > 0 then numericHash % totalChunks else 0
  }

  /** The number in the first eight digits of the challenge hash. */
  function NumericHash(challenge: HexDigest): nat {
    Value(challenge[..8])
  }

  /** Which challenges ask for a chunk. */
  lemma {:induction false} TargetOf(challenge: HexDigest, totalChunks: nat, k: nat)
    requires k < totalChunks
    ensures AuditTarget(NumericHash(challenge), totalChunks) == k <==>
              exists turns: nat :: NumericHash(challenge) == turns * totalChunks + k
  {
    var n := NumericHash(challenge);
    if AuditTarget(n, totalChunks) == k {
      assert n == n / totalChunks * totalChunks + k;
    }
    if turns: nat :| n == turns * totalChunks + k {
      RemainderUnique(n, totalChunks, turns, k);
    }
  }

  lemma {:induction false} ChallengeFor(n: nat) returns (challenge: HexDigest)
    requires n < Pow16(8)
    ensures NumericHash(challenge) == n
  {
    var head := HexText(n, 8);
    ValueOfHexText(n, 8);
    challenge := head + seq(56, _ => '0');
    assert challenge[..8] == head;
  }

  lemma {:induction false} NumericHashBound(challenge: HexDigest)
    ensures NumericHash(challenge) < Pow16(8)
  {
    ValueBound(challenge[..8]);
  }

  lemma {:induction false} SmallTarget(n: nat, totalChunks: nat)
    requires totalChunks > 0
    ensures AuditTarget(n, totalChunks) <= n
    ensures n < totalChunks ==> AuditTarget(n, totalChunks) == n
  {
  }

  /** Every chunk below 16^8 is asked for by some challenge, and none above. */
  lemma {:induction false} EveryChunkIsATarget(totalChunks: nat, k: nat)
    requires k < totalChunks
    ensures k < Pow16(8) <==> exists challenge: HexDigest :: AuditTarget(NumericHash(challenge), totalChunks) == k
  {
    if k < Pow16(8) {
      var challenge := ChallengeFor(k);
      SmallTarget(k, totalChunks);
      assert AuditTarget(NumericHash(challenge), totalChunks) == k;
    } else {
      forall challenge: HexDigest ensures AuditTarget(NumericHash(challenge), totalChunks) != k {
        NumericHashBound(challenge);
        SmallTarget(NumericHash(challenge), totalChunks);
      }
    }
  }

  lemma {:induction false} CeilDivPositive(a: nat, b: nat)
    requires b > 0 && a > 0
    ensures CeilDiv(a, b) > 0
  {
  }

  /** What the auditor computes from the contract is the host's number of chunks. */
  lemma {:induction false} ChunkCountsAgree(originalSize: nat, K: nat, shard: string)
    requires K > 0 && |shard| == CeilDiv(originalSize, K)
    ensures AuditTotalChunks(originalSize, K) == |Chunks(shard)|
  {
    DivMulIdentity(|shard|, K);
  }

  /** The uploader draws its index below the chunk count of the shard it holds. */
  lemma {:induction false} HonestReplyPasses(h: Hash, shard: string, target: nat)
    requires target < |Chunks(shard)|
    ensures Passes(h, HostReply(h, shard, target), ShardRoot(h, shard), target)
  {
    HonestProofAccepted(h, Chunks(shard), target);
  }

  /** A host that kept its shard passes every audit: any file, any 0 < K <= N, any shard, any
      challenge hash, any cutting of the stored shard into stream pieces. */
  lemma {:induction false} HonestHostPassesAudit(
      h: Hash, file: string, K: nat, N: nat, parity: nat -> char, shard: string, i: nat, pieces: seq<string>,
          numericHash: nat)
    requires file != "" && 0 < K <= N && i < N
    requires if K == 1 && N == 1 then shard == file else IsShard(shard, file, K, N, parity, i)
    requires Flatten(pieces) == shard
    ensures var target := AuditTarget(numericHash, AuditTotalChunks(|file|, K));
            && target < |Chunks(shard)|
            && Passes(h, HostReply(h, Flatten(pieces), target), ShardRoot(h, shard), target)
  {
    assert K == 1 ==> CeilDiv(|file|, K) == |file|;
    assert |shard| == CeilDiv(|file|, K);
    CeilDivPositive(|file|, K);
    CeilDivPositive(|shard|, CHUNK_SIZE);
    ChunkCountsAgree(|file|, K, shard);
    HonestReplyPasses(h, shard, AuditTarget(numericHash, AuditTotalChunks(|file|, K)));
  }

  /** Conversely an answer that passes shows the stored chunk at its place; or the text of an inner
      node; or what hashes into a stored chunk that happens to be the text of a step; or it gives
      away a hash collision. */
  lemma {:induction false} PassingReplyIsExplained(h: Hash, shard: string, target: nat, reply: Reply)
    requires target < |Chunks(shard)|
    requires Passes(h, reply, ShardRoot(h, shard), target)
    ensures
      || Explained(h, Chunks(shard), target, reply.chunkData, reply.merkleSiblings)
      || Collision(h, ForgeryEvidence(h, Chunks(shard), target, reply.chunkData, reply.merkleSiblings))
  {
    AcceptedProofBinds(h, Chunks(shard), target, reply.chunkData, reply.merkleSiblings);
  }

  /** All those answers with data pass, so they are exactly the ones that do. */
  lemma {:induction false} ExplainedReplyPasses(h: Hash, shard: string, target: nat, reply: Reply)
    requires target < |Chunks(shard)| && reply.Answer? && reply.chunkData != ""
    requires Explained(h, Chunks(shard), target, reply.chunkData, reply.merkleSiblings)
    ensures Passes(h, reply, ShardRoot(h, shard), target)
  {
    ExplainedProofAccepted(h, Chunks(shard), target, reply.chunkData, reply.merkleSiblings);
  }

  /** A passing answer is the honest one exactly if its proof has the tree's depth, which neither
      auditor nor uploader asks for; or a collision is given away. */
  lemma {:induction false} PassingReplyIsHonest(h: Hash, shard: string, target: nat, reply: Reply)
    requires target < |Chunks(shard)|
    requires Passes(h, reply, ShardRoot(h, shard), target)
    ensures
      || (reply == HostReply(h, shard, target) <==> |reply.merkleSiblings| == Depth(|Chunks(shard)|))
      || Collision(h, ForgeryEvidence(h, Chunks(shard), target, reply.chunkData, reply.merkleSiblings))
  {
    var chunks := Chunks(shard);
    TreeDepth(h, LeafLayer(h, chunks));
    OwnSiblings(h, LeafLayer(h, chunks), target);
    AcceptedProofBinds(h, chunks, target, reply.chunkData, reply.merkleSiblings);
  }

  /** What a dishonest answer may look like: for a shard of two chunks or more, the two digests below
      the root pass every challenge, and none of the shard is needed to keep them. */
  lemma {:induction false} TwoDigestsPassEveryAudit(h: Hash, shard: string, target: nat)
    requires |Chunks(shard)| > 1
    ensures Passes(h, Answer(RootText(h, Chunks(shard)), []), ShardRoot(h, shard), target)
    ensures target < |Chunks(shard)| ==> Answer(RootText(h, Chunks(shard)), []) != HostReply(h, shard, target)
  {
    RootTextAccepted(h, Chunks(shard), target);
    TreeDepth(h, LeafLayer(h, Chunks(shard)));
  }
}
