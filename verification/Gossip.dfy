/** p2p/lib/Peer.js: the bounded duplicate filter and the TTL-limited flood, with the relaying
    handlers of peer_handlers/sync_engine/SyncEngine.ts.
 */
module Gossip {
  import opened Arith
  import opened Wrappers

  const MAX_SEEN: nat := 5000
  const EVICTED: nat := 500
  const DEFAULT_TTL: int := 20

  // ---------- Duplicate filter ----------

  /** The cache's keys in insertion order after one more tracking id. */
  function AfterSeeing(keys: seq<string>, id: string): seq<string> {
    if id in keys then keys
    else
      var inserted := keys + [id];
      if |inserted| > MAX_SEEN then inserted[EVICTED..] else inserted
  }

  /** The keys are the most recent insertions, and enough of them. */
  predicate Remembers(keys: seq<string>, history: seq<string>) {
    && |keys| <= |history|
    && keys == history[|history| - |keys|..]
    && Distinct(keys)
    && |keys| <= MAX_SEEN
    && (|keys| == |history| || |keys| >= MAX_SEEN + 1 - EVICTED)
  }

  predicate SpacedAt(history: seq<string>, i: nat, j: nat)
    requires i < j < |history|
  {
    var n := MAX_SEEN + 1 - EVICTED;
    && i + n < j
    && Distinct(history[j - n..j])
    && history[j] !in history[j - n..j]
  }

  /** Between two insertions of one id there are at least 4501 insertions, the last 4501 of
      them of pairwise different other ids. */
  predicate Spaced(history: seq<string>) {
    forall i, j :: 0 <= i < j < |history| && history[i] == history[j] ==> SpacedAt(history, i, j)
  }

  /** The insertions made by a sequence of calls, and the cache at its end. */
  function Replay(keys: seq<string>, history: seq<string>, calls: seq<string>): (seq<string>, seq<string>)
    decreases |calls|
  {
    if calls == [] then (keys, history)
    else if calls[0] in keys then Replay(keys, history, calls[1..])
    else Replay(AfterSeeing(keys, calls[0]), history + [calls[0]], calls[1..])
  }

  lemma {:induction false} InsertRemembers(keys: seq<string>, history: seq<string>, id: string)
    requires Remembers(keys, history) && id !in keys
    ensures Remembers(AfterSeeing(keys, id), history + [id])
  {
    var inserted := keys + [id];
    assert Distinct(inserted);
    assert inserted == (history + [id])[|history| - |keys|..];
    if |inserted| > MAX_SEEN {
      assert inserted[EVICTED..] == (history + [id])[|history| - |keys| + EVICTED..];
    }
  }

  lemma {:induction false} InsertKeepsSpacing(keys: seq<string>, history: seq<string>, id: string)
    requires Remembers(keys, history) && id !in keys && Spaced(history)
    ensures Spaced(history + [id])
  {
    var longer := history + [id];
    var n := MAX_SEEN + 1 - EVICTED;
    forall i, j | 0 <= i < j < |longer| && longer[i] == longer[j]
      ensures SpacedAt(longer, i, j)
    {
      if j < |history| {
        assert SpacedAt(history, i, j);
        assert longer[j - n..j] == history[j - n..j];
      } else {
        assert longer[j - n..j] == keys[|keys| - n..];
      }
    }
  }

  /** Every run of the filter: bounded size, a suffix of the insertions, and no tracking id
      inserted again before 4501 other ids were. */
  lemma {:induction false} FilterApproximatesSeenSet(keys: seq<string>, history: seq<string>, calls: seq<string>)
    requires Remembers(keys, history) && Spaced(history)
    ensures var (keys', history') := Replay(keys, history, calls);
            Remembers(keys', history') && Spaced(history')
    decreases |calls|
  {
    if calls == [] {
    } else {
      if calls[0] in keys {
        FilterApproximatesSeenSet(keys, history, calls[1..]);
      } else {
        InsertRemembers(keys, history, calls[0]);
        InsertKeepsSpacing(keys, history, calls[0]);
        FilterApproximatesSeenSet(AfterSeeing(keys, calls[0]), history + [calls[0]], calls[1..]);
      }
    }
  }

  // ---------- Relaying ----------

  datatype Kind = Request | Reply

  /** A message on a link. `direct` marks a reply that its author handed to one connection with
      send, which leaves the ttl alone; `hops` counts the links travelled, this one included. */
  datatype Flight = Flight(kind: Kind, direct: bool, ttl: int, hops: nat)

  function Copies(f: Flight, n: nat): (fs: seq<Flight>)
    ensures |fs| == n && forall i :: 0 <= i < n ==> fs[i] == f
  {
    seq(n, _ => f)
  }

  /** What a node with the given number of trusted peers sends on when it rebroadcasts. */
  function Relayed(f: Flight, peers: nat): seq<Flight> {
    if peers == 0 || f.ttl - 1 <= 0 then [] else Copies(f.(ttl := f.ttl - 1, hops := f.hops + 1), peers)
  }

  // ---------- The peer ----------

  class Message {
    var ttl: Option<int>

    constructor (ttl: Option<int>)
      ensures this.ttl == ttl
    {
      this.ttl := ttl;
    }
  }

  class Peer {
    var seenMessageHashes: seq<string>
    var trustedPeers: seq<string>

    constructor (trusted: seq<string>)
      ensures seenMessageHashes == [] && trustedPeers == trusted
    {
      seenMessageHashes := [];
      trustedPeers := trusted;
    }

    /** onClientMessage up to the handlers. A message without a header hash is never filtered. */
    method OnClientMessage(trackingId: Option<string>) returns (passes: bool)
      modifies this`seenMessageHashes
      ensures passes <==> trackingId.None? || trackingId.value !in old(seenMessageHashes)
      ensures seenMessageHashes ==
              if trackingId.None? then old(seenMessageHashes) else AfterSeeing(old(seenMessageHashes), trackingId.value)
    {
      if trackingId.Some? {
        var id := trackingId.value;
        if id in seenMessageHashes {
          return false;
        }
        seenMessageHashes := seenMessageHashes + [id];
        if |seenMessageHashes| > MAX_SEEN {
          seenMessageHashes := seenMessageHashes[EVICTED..];
        }
      }
      passes := true;
    }

    /** broadcast: the message's own ttl is lowered, and each peer gets it with the new ttl. */
    method Broadcast(message: Message) returns (sentTo: seq<string>)
      modifies message
      ensures message.ttl.Some? == old(message.ttl.Some?)
      ensures old(message.ttl).Some? ==>
                && message.ttl.value == old(message.ttl).value - (if trustedPeers == [] then 0 else 1)
                && |sentTo| == |Relayed(Flight(Reply, false, old(message.ttl).value, 0), |trustedPeers|)|
      ensures old(message.ttl).None? ==> sentTo == trustedPeers
      ensures sentTo == [] || sentTo == trustedPeers
    {
      sentTo := [];
      if |trustedPeers| < 1 {
        return;
      }
      if message.ttl.Some? {
        message.ttl := Some(message.ttl.value - 1);
        if message.ttl.value <= 0 {
          return;
        }
      }
      var k := 0;
      while k < |trustedPeers|
        invariant 0 <= k <= |trustedPeers| && sentTo == trustedPeers[..k]
      {
        sentTo := sentTo + [trustedPeers[k]];
        k := k + 1;
      }
    }
  }

  // ---------- Floods ----------

  /** How a handler answers a request: not at all, by send on the connection (a bid, a retrieved
      shard), or by a broadcast of its own (a Merkle proof). Receipts of shards, which nobody relays,
      are not looked at. */
  datatype Answer = Silent | SendBack | BroadcastBack

  function Answered(answer: Answer, peers: nat): seq<Flight> {
    match answer
    case Silent => []
    case SendBack => [Flight(Reply, true, DEFAULT_TTL, 1)]
    case BroadcastBack => Relayed(Flight(Reply, false, DEFAULT_TTL, 0), peers)
  }

  /** One delivery: the node drops the message, or relays it and perhaps answers a request. */
  datatype Delivery = Delivery(index: nat, dropped: bool, peers: nat, answer: Answer)

  predicate CanDeliver(flights: seq<Flight>, d: Delivery, degree: nat) {
    && d.index < |flights|
    && d.peers <= degree
    && (flights[d.index].kind == Reply ==> d.answer == Silent)
  }

  function Deliver(flights: seq<Flight>, d: Delivery): seq<Flight>
    requires d.index < |flights|
  {
    var f := flights[d.index];
    var rest := flights[..d.index] + flights[d.index + 1..];
    if d.dropped then rest else rest + Relayed(f, d.peers) + Answered(d.answer, d.peers)
  }

  ghost predicate Flood(flights: seq<Flight>, deliveries: seq<Delivery>, degree: nat, final: seq<Flight>)
    decreases |deliveries|
  {
    if deliveries == [] then final == flights
    else
      && CanDeliver(flights, deliveries[0], degree)
      && Flood(Deliver(flights, deliveries[0]), deliveries[1..], degree, final)
  }

  /** All deliveries that a reply with this ttl can still cause, itself included. */
  function ReplyCost(degree: nat, ttl: int): (c: nat)
    ensures c >= 1
    decreases if ttl > 0 then ttl else 0
  {
    if ttl <= 1 then 1 else 1 + degree * ReplyCost(degree, ttl - 1)
  }

  function RequestCost(degree: nat, ttl: int): (c: nat)
    ensures c >= 1
    decreases if ttl > 0 then ttl else 0
  {
    1 + ReplyCost(degree, DEFAULT_TTL) + (if ttl <= 1 then 0 else degree * RequestCost(degree, ttl - 1))
  }

  function Cost(degree: nat, f: Flight): (c: nat)
    ensures c >= 1
  {
    match f.kind
    case Request => RequestCost(degree, f.ttl)
    case Reply => ReplyCost(degree, f.ttl)
  }

  function TotalCost(degree: nat, flights: seq<Flight>): (c: nat)
    ensures c >= |flights|
  {
    if flights == [] then 0 else Cost(degree, flights[0]) + TotalCost(degree, flights[1..])
  }

  lemma {:induction false} TotalCostAppend(degree: nat, a: seq<Flight>, b: seq<Flight>)
    ensures TotalCost(degree, a + b) == TotalCost(degree, a) + TotalCost(degree, b)
  {
    if a == [] {
      assert a + b == b;
    } else {
      TotalCostAppend(degree, a[1..], b);
      assert (a + b)[1..] == a[1..] + b;
    }
  }

  lemma {:induction false} TotalCostCopies(degree: nat, f: Flight, n: nat)
    ensures TotalCost(degree, Copies(f, n)) == n * Cost(degree, f)
  {
    if n == 0 {
    } else {
      TotalCostCopies(degree, f, n - 1);
      assert Copies(f, n)[1..] == Copies(f, n - 1);
      assert (n - 1) * Cost(degree, f) + Cost(degree, f) == n * Cost(degree, f);
    }
  }

  lemma {:induction false} RelayCost(degree: nat, f: Flight, peers: nat)
    requires peers <= degree
    ensures TotalCost(degree, Relayed(f, peers))
            <= Cost(degree, f) - 1 - (if f.kind == Request then ReplyCost(degree, DEFAULT_TTL) else 0)
  {
    if peers > 0 && f.ttl > 1 {
      var next := f.(ttl := f.ttl - 1, hops := f.hops + 1);
      TotalCostCopies(degree, next, peers);
      MulMonotone(Cost(degree, next), peers, degree);
    }
  }

  lemma {:induction false} AnswerCost(degree: nat, answer: Answer, peers: nat)
    requires peers <= degree
    ensures TotalCost(degree, Answered(answer, peers)) <= ReplyCost(degree, DEFAULT_TTL)
  {
    match answer {
      case Silent =>
      case SendBack =>
        assert Answered(answer, peers)[1..] == [];
      case BroadcastBack =>
        RelayCost(degree, Flight(Reply, false, DEFAULT_TTL, 0), peers);
    }
  }

  lemma {:induction false} DeliveryLowersCost(flights: seq<Flight>, d: Delivery, degree: nat)
    requires CanDeliver(flights, d, degree)
    ensures TotalCost(degree, Deliver(flights, d)) < TotalCost(degree, flights)
  {
    var f := flights[d.index];
    var front, back := flights[..d.index], flights[d.index + 1..];
    assert flights == front + ([f] + back);
    TotalCostAppend(degree, front, [f] + back);
    TotalCostAppend(degree, [f], back);
    TotalCostAppend(degree, front, back);
    if !d.dropped {
      TotalCostAppend(degree, front + back + Relayed(f, d.peers), Answered(d.answer, d.peers));
      TotalCostAppend(degree, front + back, Relayed(f, d.peers));
      RelayCost(degree, f, d.peers);
      AnswerCost(degree, d.answer, d.peers);
    }
  }

  /** A flood in a network of bounded degree ends: deliveries made and messages still on their
      way together never exceed the cost of the messages it started with. */
  lemma {:induction false} FloodTerminates(flights: seq<Flight>, deliveries: seq<Delivery>, degree: nat,
      final: seq<Flight>)
    requires Flood(flights, deliveries, degree, final)
    ensures |deliveries| + |final| <= |deliveries| + TotalCost(degree, final) <= TotalCost(degree, flights)
    decreases |deliveries|
  {
    if deliveries == [] {
    } else {
      DeliveryLowersCost(flights, deliveries[0], degree);
      FloodTerminates(Deliver(flights, deliveries[0]), deliveries[1..], degree, final);
    }
  }

  // ---------- Hops ----------

  /** A broadcast message starts its first link with ttl 19, a directly sent one with ttl 20. */
  predicate OnSchedule(f: Flight) {
    && f.ttl >= 1
    && f.hops >= 1
    && f.hops + f.ttl == (if f.direct then DEFAULT_TTL + 1 else DEFAULT_TTL)
  }

  predicate AllOnSchedule(flights: seq<Flight>) {
    forall i :: 0 <= i < |flights| ==> OnSchedule(flights[i])
  }

  lemma {:induction false} DeliveryKeepsSchedule(flights: seq<Flight>, d: Delivery, degree: nat)
    requires CanDeliver(flights, d, degree) && AllOnSchedule(flights)
    ensures AllOnSchedule(Deliver(flights, d))
  {
    var f := flights[d.index];
    assert OnSchedule(f);
    assert AllOnSchedule(flights[..d.index] + flights[d.index + 1..]);
    assert AllOnSchedule(Relayed(f, d.peers));
    assert AllOnSchedule(Answered(d.answer, d.peers));
  }

  /** No message of a flood started by broadcasts travels more than 19 links, except that a
      reply that is sent before it is broadcast may travel 20. */
  lemma {:induction false} HopsAreBounded(flights: seq<Flight>, deliveries: seq<Delivery>, degree: nat,
      final: seq<Flight>, i: nat)
    requires Flood(flights, deliveries, degree, final) && AllOnSchedule(flights)
    requires i < |final|
    ensures final[i].hops <= (if final[i].direct then DEFAULT_TTL else DEFAULT_TTL - 1)
    decreases |deliveries|
  {
    if deliveries == [] {
      assert OnSchedule(final[i]);
    } else {
      DeliveryKeepsSchedule(flights, deliveries[0], degree);
      HopsAreBounded(Deliver(flights, deliveries[0]), deliveries[1..], degree, final, i);
    }
  }

  /** A message can use up its whole ttl, one link per unit, already with one peer per node. */
  lemma {:induction false} TtlCanBeSpent(f: Flight) returns (deliveries: seq<Delivery>)
    requires f.ttl >= 1
    ensures Flood([f], deliveries, 1, [f.(ttl := 1, hops := f.hops + f.ttl - 1)])
    decreases f.ttl
  {
    if f.ttl == 1 {
      deliveries := [];
    } else {
      var first := Delivery(0, false, 1, Silent);
      var next := f.(ttl := f.ttl - 1, hops := f.hops + 1);
      var rest := TtlCanBeSpent(next);
      deliveries := [first] + rest;
      assert Deliver([f], first) == [next];
      assert deliveries[1..] == rest;
    }
  }

  lemma {:induction false} FloodStep(flights: seq<Flight>, d: Delivery, rest: seq<Delivery>, degree: nat,
      final: seq<Flight>)
    requires CanDeliver(flights, d, degree) && Flood(Deliver(flights, d), rest, degree, final)
    ensures Flood(flights, [d] + rest, degree, final)
  {
    assert ([d] + rest)[1..] == rest;
  }

  /** So 19 hops is not a bound for all messages: some bid reaches its twentieth link, and retrieved
      shards, sent and then broadcast in the same way, may do so too. */
  lemma {:induction false} BidsTravelTwentyHops() returns (deliveries: seq<Delivery>, final: seq<Flight>)
    ensures Flood([Flight(Request, false, DEFAULT_TTL - 1, 1)], deliveries, 1, final)
    ensures exists i :: 0 <= i < |final| && final[i].hops == DEFAULT_TTL
  {
    var request := Flight(Request, false, DEFAULT_TTL - 1, 1);
    var relayed := Flight(Request, false, DEFAULT_TTL - 2, 2);
    var bid := Flight(Reply, true, DEFAULT_TTL, 1);
    var answer := Delivery(0, false, 1, SendBack);
    var drop := Delivery(0, true, 1, Silent);
    var rest := TtlCanBeSpent(bid);
    final := [bid.(ttl := 1, hops := DEFAULT_TTL)];
    assert Deliver([relayed, bid], drop) == [bid];
    FloodStep([relayed, bid], drop, rest, 1, final);
    assert Relayed(request, 1) == [relayed];
    assert Deliver([request], answer) == [relayed, bid];
    deliveries := [answer] + ([drop] + rest);
    FloodStep([request], answer, [drop] + rest, 1, final);
    assert final[0].hops == DEFAULT_TTL;
  }
}
