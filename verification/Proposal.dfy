/** peer_handlers/bft_coordinator/BftCoordinator.ts: which block and fork id _checkAndProposeFork
    proposes. */
module Proposal {
  import opened Platform
  import opened Wrappers
  import opened L = Ledger
  import opened Consensus
  import Stalls

  // ---------- The order of the candidates ----------

  /** The order of strings. */
  predicate Less(a: string, b: string) {
    b != "" && (a == "" || a[0] < b[0] || (a[0] == b[0] && Less(a[1..], b[1..])))
  }

  lemma {:induction false} LessIsTotal(a: string, b: string)
    ensures a != b ==> (Less(a, b) <==> !Less(b, a))
    ensures !Less(a, a)
  {
    if a == "" {
    } else {
      LessIsTotal(a[1..], a[1..]);
      if b != "" && a[0] == b[0] {
        assert a == [a[0]] + a[1..] && b == [b[0]] + b[1..];
        LessIsTotal(a[1..], b[1..]);
      }
    }
  }

  lemma {:induction false} LessIsTransitive(a: string, b: string, c: string)
    requires Less(a, b) && Less(b, c)
    ensures Less(a, c)
  {
    if a != "" && a[0] == b[0] && b[0] == c[0] {
      LessIsTransitive(a[1..], b[1..], c[1..]);
    }
  }

  /** The first difference decides, and a proper prefix comes first. */
  predicate DiffersAt(a: string, b: string, k: nat) {
    k <= |a| && k < |b| && a[..k] == b[..k] && (k == |a| || a[k] < b[k])
  }

  lemma {:induction false} LessAt(a: string, b: string)
    ensures Less(a, b) <==> exists k: nat :: DiffersAt(a, b, k)
  {
    if a == "" || b == "" || a[0] != b[0] {
      assert Less(a, b) ==> DiffersAt(a, b, 0);
      if k: nat :| DiffersAt(a, b, k) && k > 0 {
        assert a[..k][0] == b[..k][0];
      }
    } else {
      LessAt(a[1..], b[1..]);
      assert a == [a[0]] + a[1..] && b == [b[0]] + b[1..];
      if k: nat :| DiffersAt(a[1..], b[1..], k) {
        assert a[..k + 1] == [a[0]] + a[1..][..k] && b[..k + 1] == [b[0]] + b[1..][..k];
        assert DiffersAt(a, b, k + 1);
      }
      if k: nat :| DiffersAt(a, b, k) {
        assert a[1..][..k - 1] == a[..k][1..] && b[1..][..k - 1] == b[..k][1..];
        assert DiffersAt(a[1..], b[1..], k - 1);
      }
    }
  }

  /** The comparator handed to sort. */
  function Compare(times: string -> int, a: string, b: string): int {
    if times(a) != times(b) then times(a) - times(b) else if Less(a, b) then -1 else 1
  }

  predicate Precedes(times: string -> int, a: string, b: string) {
    Compare(times, a, b) < 0
  }

  /** On different ids the comparator is a strict total order. */
  lemma {:induction false} CompareIsTotal(times: string -> int, a: string, b: string)
    ensures a != b ==> (Compare(times, a, b) < 0 <==> 0 < Compare(times, b, a))
    ensures Compare(times, a, b) != 0 && !Precedes(times, a, a)
  {
    LessIsTotal(a, b);
  }

  lemma {:induction false} PrecedesIsTransitive(times: string -> int, a: string, b: string, c: string)
    requires Precedes(times, a, b) && Precedes(times, b, c)
    ensures Precedes(times, a, c)
  {
    if times(a) == times(b) == times(c) {
      LessIsTransitive(a, b, c);
    }
  }

  // ---------- Sorting ----------

  ghost predicate Sorted(times: string -> int, ids: seq<string>) {
    forall i, j :: 0 <= i < j < |ids| ==> Precedes(times, ids[i], ids[j])
  }

  /** What any sort by the comparator returns for distinct ids. */
  ghost predicate SortOf(times: string -> int, ids: seq<string>, sorted: seq<string>) {
    Sorted(times, sorted) && forall b :: b in sorted <==> b in ids
  }

  lemma {:induction false} InsertedIsSorted(times: string -> int, sorted: seq<string>, b: string, i: nat)
    requires Sorted(times, sorted) && i <= |sorted|
    requires forall k :: 0 <= k < i ==> Precedes(times, sorted[k], b)
    requires forall k :: i <= k < |sorted| ==> Precedes(times, b, sorted[k])
    ensures Sorted(times, sorted[..i] + [b] + sorted[i..])
    ensures forall x :: x in sorted[..i] + [b] + sorted[i..] <==> x in sorted || x == b
  {
    var longer := sorted[..i] + [b] + sorted[i..];
    assert sorted == sorted[..i] + sorted[i..];
    forall j, k | 0 <= j < k < |longer| ensures Precedes(times, longer[j], longer[k]) {
      assert longer[j] == if j < i then sorted[j] else if j == i then b else sorted[j - 1];
      assert longer[k] == if k < i then sorted[k] else if k == i then b else sorted[k - 1];
    }
  }

  method InsertId(times: string -> int, sorted: seq<string>, b: string) returns (longer: seq<string>)
    requires Sorted(times, sorted) && b !in sorted
    ensures Sorted(times, longer)
    ensures forall x :: x in longer <==> x in sorted || x == b
  {
    var i := 0;
    while i < |sorted| && Precedes(times, sorted[i], b)
      invariant 0 <= i <= |sorted|
      invariant forall k :: 0 <= k < i ==> Precedes(times, sorted[k], b)
    {
      i := i + 1;
    }
    longer := sorted[..i] + [b] + sorted[i..];
    forall k | i <= k < |sorted| ensures Precedes(times, b, sorted[k]) {
      CompareIsTotal(times, sorted[i], b);
      assert sorted[i] in sorted;
      if i < k {
        PrecedesIsTransitive(times, b, sorted[i], sorted[k]);
      }
    }
    InsertedIsSorted(times, sorted, b, i);
  }

  method SortIds(times: string -> int, ids: seq<string>) returns (sorted: seq<string>)
    requires Distinct(ids)
    ensures SortOf(times, ids, sorted)
  {
    sorted := [];
    for n := 0 to |ids|
      invariant Sorted(times, sorted) && forall b :: b in sorted <==> b in ids[..n]
    {
      assert ids[n] !in ids[..n];
      assert ids[..n + 1] == ids[..n] + [ids[n]];
      sorted := InsertId(times, sorted, ids[n]);
    }
    assert ids[..|ids|] == ids;
  }

  ghost predicate IsFirst(times: string -> int, ids: set<string>, b: string) {
    b in ids && forall x :: x in ids && x != b ==> Precedes(times, b, x)
  }

  /** The head of any such sort is the one minimum. */
  lemma {:induction false} HeadIsMinimum(times: string -> int, ids: seq<string>, sorted: seq<string>)
    requires SortOf(times, ids, sorted) && ids != []
    ensures sorted != [] && IsFirst(times, (set b | b in ids), sorted[0])
  {
    assert ids[0] in sorted;
    forall b | b in ids && b != sorted[0] ensures Precedes(times, sorted[0], b) {
      var k :| 0 <= k < |sorted| && sorted[k] == b;
    }
    assert sorted[0] in sorted;
  }

  /** The first is the oldest, and of several the least id. */
  lemma {:induction false} FirstIsOldest(times: string -> int, ids: set<string>, b: string)
    ensures IsFirst(times, ids, b) <==>
              && b in ids
              && (forall x :: x in ids ==> times(b) <= times(x))
              && (forall x :: x in ids && times(x) == times(b) && x != b ==> Less(b, x))
  {
    if IsFirst(times, ids, b) {
      forall x | x in ids ensures times(b) <= times(x) && (times(x) == times(b) && x != b ==> Less(b, x)) {
        assert x != b ==> Precedes(times, b, x);
      }
    }
  }

  lemma {:induction false} FirstIsUnique(times: string -> int, ids: set<string>, a: string, b: string)
    requires IsFirst(times, ids, a) && IsFirst(times, ids, b)
    ensures a == b
  {
    CompareIsTotal(times, a, b);
  }

  // ---------- The proposal ----------

  function Eligible(m: Mempool): set<string> {
    set b | b in m.pendings && m.pendings[b].eligible
  }

  function Times(m: Mempool): string -> int {
    b => if b in m.pendings then m.pendings[b].block.timestamp else 0
  }

  function ForkId(sha256: string -> string, b: string, tipHash: string): string {
    Slice(sha256(b), 32) + "_" + Slice(if tipHash == "" then NO_HASH else tipHash, 16)
  }

  /** The ids of the map in its insertion order, filtered, sorted and cut to the first. */
  method ChooseBlock(m: Mempool) returns (target: Option<string>)
    requires Listed(m)
    ensures target.None? <==> Eligible(m) == {}
    ensures target.Some? ==>
              && IsFirst(Times(m), Eligible(m), target.value)
              && (forall x :: x in Eligible(m) ==>
                    m.pendings[target.value].block.timestamp <= m.pendings[x].block.timestamp)
              && (forall x :: x in Eligible(m) && x != target.value ==>
                    m.pendings[x].block.timestamp == m.pendings[target.value].block.timestamp ==>
                      Less(target.value, x))
  {
    var order, eligibleBlockIds := m.order, [];
    for n := 0 to |order|
      invariant forall b :: b in eligibleBlockIds <==> b in order[..n] && b in Eligible(m)
      invariant Distinct(eligibleBlockIds)
    {
      assert order[..n + 1] == order[..n] + [order[n]];
      assert order[n] in order && order[n] !in order[..n];
      if m.pendings[order[n]].eligible {
        eligibleBlockIds := eligibleBlockIds + [order[n]];
      }
    }
    assert order[..|order|] == order;
    if |eligibleBlockIds| == 0 {
      return None;
    }
    assert eligibleBlockIds[0] in Eligible(m);
    var sorted := SortIds(Times(m), eligibleBlockIds);
    HeadIsMinimum(Times(m), eligibleBlockIds, sorted);
    assert Eligible(m) == set b | b in eligibleBlockIds;
    FirstIsOldest(Times(m), Eligible(m), sorted[0]);
    target := Some(sorted[0]);
  }

  // ---------- Agreement ----------

  predicate KeyedEntry(c: Node, b: string, e: Pending) {
    c.digest(e.received) == b && e.block == Verified(c, e.received)
  }

  /** Pending blocks are filed under the hash of what was received, and are what verifying its
      signature made of that. */
  ghost predicate Keyed(c: Node, m: Mempool) {
    forall b :: b in m.pendings ==> KeyedEntry(c, b, m.pendings[b])
  }

  lemma {:induction false} StrikeKeepsKeys(c: Node, m: Mempool, b: string)
    requires Keyed(c, m)
    ensures Keyed(c, StrikeBlock(c, m, b))
  {
    if b in m.pendings {
      assert KeyedEntry(c, b, m.pendings[b]);
    }
  }

  lemma {:induction false} NoNewEntriesKeepKeys(c: Node, m: Mempool, after: Mempool)
    requires Keyed(c, m) && Stalls.NoNewEntries(m, after)
    ensures Keyed(c, after)
  {
    forall b | b in after.pendings ensures KeyedEntry(c, b, after.pendings[b]) {
      assert KeyedEntry(c, b, m.pendings[b]);
    }
  }

  lemma {:induction false} StepKeepsKeys(c: Node, s: State, step: Step)
    requires Keyed(c, s.mempool) && Enabled(s, step)
    ensures Keyed(c, Next(c, s, step).mempool)
  {
    match step
    case ArriveStep(received, originalTimestamp) =>
      assert KeyedEntry(c, c.digest(received), NewPending(c, received, originalTimestamp));
    case TimeoutStep(_, b) => StrikeKeepsKeys(c, s.mempool, b);
    case _ =>
      Stalls.QuietStepAddsNoEntries(c, s, step);
      NoNewEntriesKeepKeys(c, s.mempool, Next(c, s, step).mempool);
  }

  lemma {:induction false} RunKeepsKeys(c: Node, s: State, steps: seq<Step>)
    requires Keyed(c, s.mempool) && CanRun(c, s, steps)
    ensures Keyed(c, Run(c, s, steps).mempool)
    decreases |steps|
  {
    if steps == [] {
    } else {
      StepKeepsKeys(c, s, steps[0]);
      RunKeepsKeys(c, Next(c, s, steps[0]), steps[1..]);
    }
  }

  /** Verifying the signature leaves the block as it was received. */
  predicate Untouched(c: Node, received: Content) {
    || (received.signature == "SYSTEM_SIG" && received.signer == ZERO_ADDRESS)
    || (received.previousHash.Some? && c.fill(received) == received.payload)
  }

  /** Two block contents with one id. */
  ghost predicate Collide(digest: Digest, a: Content, b: Content) {
    a != b && digest(a) == digest(b)
  }

  /** A pending block has the hash it is filed under exactly if it came with a previous hash and
      complete fragments, or was the system's; or it collides with what was received. */
  lemma {:induction false} FiledUnderItsHash(c: Node, m: Mempool, b: string)
    requires Keyed(c, m) && b in m.pendings
    ensures var e := m.pendings[b];
            c.digest(e.block) == b <==> Untouched(c, e.received) || Collide(c.digest, e.block, e.received)
  {
    assert KeyedEntry(c, b, m.pendings[b]);
  }

  /** Nodes with the same tip and the same eligible ids propose the same block and fork, in whatever
      order the blocks came; or some id stands for two blocks. */
  lemma {:induction false} NodesProposeTheSame(sha256: string -> string, c: Node, d: Node, m: Mempool, n: Mempool,
      a: string, b: string, tipHash: string)
    requires c.digest == d.digest && Keyed(c, m) && Keyed(d, n) && Eligible(m) == Eligible(n)
    requires IsFirst(Times(m), Eligible(m), a) && IsFirst(Times(n), Eligible(n), b)
    ensures (a == b && ForkId(sha256, a, tipHash) == ForkId(sha256, b, tipHash))
            || exists x :: x in Eligible(m) && Collide(c.digest, m.pendings[x].received, n.pendings[x].received)
  {
    if a != b && forall x :: x in Eligible(m) ==> !Collide(c.digest, m.pendings[x].received, n.pendings[x].received) {
      forall x | x in Eligible(m) ensures Times(m)(x) == Times(n)(x) {
        assert KeyedEntry(c, x, m.pendings[x]) && KeyedEntry(d, x, n.pendings[x]);
        assert !Collide(c.digest, m.pendings[x].received, n.pendings[x].received);
        assert x in Eligible(n);
      }
      CompareIsTotal(Times(m), a, b);
    }
  }

  // ---------- The fork id against the tip check ----------

  predicate Plain(text: string) {
    '_' !in text
  }

  lemma {:induction false} BeforePlain(text: string)
    requires Plain(text)
    ensures BeforeUnderscore(text) == text
  {
    if text == "" {
    } else {
      assert text == [text[0]] + text[1..];
      assert forall ch :: ch in text[1..] ==> ch in text;
      BeforePlain(text[1..]);
    }
  }

  lemma {:induction false} ConstraintAfterPlain(head: string, tail: string)
    requires Plain(head) && Plain(tail)
    ensures TipConstraint(head + "_" + tail) == Some(tail)
  {
    var f := head + "_" + tail;
    if head == "" {
      assert f[1..] == tail;
      BeforePlain(tail);
    } else {
      assert f[0] == head[0] && f[0] in head;
      assert f[1..] == head[1..] + "_" + tail;
      assert forall ch :: ch in head[1..] ==> ch in head;
      ConstraintAfterPlain(head[1..], tail);
    }
  }

  lemma {:induction false} HeadsAgree(a: string, b: string, s: string, t: string)
    requires |a| == |b|
    ensures a + "_" + s == b + "_" + t <==> a == b && s == t
  {
    var x, y := a + "_" + s, b + "_" + t;
    assert x[..|a|] == a && y[..|a|] == b && x[|a| + 1..] == s && y[|a| + 1..] == t;
  }

  /** Two fork ids are equal exactly if the blocks' hashes agree in their first 32 characters and the
      tips in their first 16. */
  lemma {:induction false} ForkIdsAgree(sha256: string -> string, a: string, b: string, mine: string, theirs: string)
    requires |sha256(a)| >= 32 && |sha256(b)| >= 32 && |mine| >= 16 && |theirs| >= 16
    ensures ForkId(sha256, a, mine) == ForkId(sha256, b, theirs) <==>
              sha256(a)[..32] == sha256(b)[..32] && mine[..16] == theirs[..16]
  {
    HeadsAgree(sha256(a)[..32], sha256(b)[..32], mine[..16], theirs[..16]);
    assert Slice(sha256(a), 32) == sha256(a)[..32] && Slice(sha256(b), 32) == sha256(b)[..32];
    assert Slice(mine, 16) == mine[..16] && Slice(theirs, 16) == theirs[..16];
  }

  /** A proposal passes the tip check of exactly those nodes whose tip starts with the same 16 digits. */
  lemma {:induction false} ProposalNamesTip(sha256: string -> string, b: string, mine: seq<Block>, theirs: seq<Block>)
    requires Plain(sha256(b)) && Plain(TipHash(mine)) && TipHash(mine) != "" && TipHash(theirs) != ""
    ensures TipAllows(ForkId(sha256, b, TipHash(mine)), theirs) <==>
              Slice(TipHash(mine), 16) == Slice(TipHash(theirs), 16)
  {
    var head, tail := Slice(sha256(b), 32), Slice(TipHash(mine), 16);
    assert forall ch :: ch in head ==> ch in sha256(b);
    assert forall ch :: ch in tail ==> ch in TipHash(mine);
    ConstraintAfterPlain(head, tail);
  }
}
