/** utils/KeyedMutex.ts: a chain of promises per key.

    A ticket stands for one call of acquire: the promise it found in the map, whether its
    caller has been resumed with the release closure, and whether the closure has run. The
    promise that a ticket puts into the map is resolved once the ticket is released and the
    promise before it is resolved.
 */
module KeyedMutex {
  import opened Wrappers

  datatype Ticket = Ticket(key: string, previous: Option<nat>, granted: bool, released: bool)

  datatype State = State(chains: map<string, nat>, tickets: seq<Ticket>)

  const EMPTY := State(map[], [])

  /** Promises only point back. */
  predicate Ordered(tickets: seq<Ticket>) {
    forall t :: 0 <= t < |tickets| && tickets[t].previous.Some? ==> tickets[t].previous.value < t
  }

  predicate Resolved(tickets: seq<Ticket>, t: nat)
    requires t < |tickets| && Ordered(tickets)
  {
    tickets[t].released && (tickets[t].previous.Some? ==> Resolved(tickets, tickets[t].previous.value))
  }

  // ---------- Steps ----------

  datatype Step = AcquireStep(key: string) | ResumeStep(t: nat) | ReleaseStep(t: nat)

  function Acquire(s: State, key: string): State {
    var previous := if key in s.chains then Some(s.chains[key]) else None;
    State(s.chains[key := |s.tickets|], s.tickets + [Ticket(key, previous, previous.None?, false)])
  }

  /** A waiter can go on once the promise it awaits is resolved. */
  predicate CanResume(s: State, t: nat)
    requires Ordered(s.tickets)
  {
    && t < |s.tickets|
    && !s.tickets[t].granted
    && s.tickets[t].previous.Some?
    && Resolved(s.tickets, s.tickets[t].previous.value)
  }

  function Resume(s: State, t: nat): State
    requires t < |s.tickets|
  {
    s.(tickets := s.tickets[t := s.tickets[t].(granted := true)])
  }

  function Release(s: State, t: nat): State
    requires t < |s.tickets|
  {
    var key := s.tickets[t].key;
    State(
      if key in s.chains && s.chains[key] == t then s.chains - {key} else s.chains,
      s.tickets[t := s.tickets[t].(released := true)])
  }

  /** The closure exists only in the hands of a task that was granted. */
  predicate Enabled(s: State, step: Step)
    requires Ordered(s.tickets)
  {
    match step
    case AcquireStep(_) => true
    case ResumeStep(t) => CanResume(s, t)
    case ReleaseStep(t) => t < |s.tickets| && s.tickets[t].granted
  }

  function Apply(s: State, step: Step): State
    requires Ordered(s.tickets) && Enabled(s, step)
  {
    match step
    case AcquireStep(key) => Acquire(s, key)
    case ResumeStep(t) => Resume(s, t)
    case ReleaseStep(t) => Release(s, t)
  }

  // ---------- Invariant ----------

  predicate AllReleasedBefore(tickets: seq<Ticket>, key: string, t: nat)
    requires t <= |tickets|
  {
    forall u :: 0 <= u < t && tickets[u].key == key ==> tickets[u].released
  }

  /** p is the last ticket on its key before t. */
  predicate IsLastBefore(tickets: seq<Ticket>, p: nat, t: nat)
    requires t <= |tickets|
  {
    p < t && forall u :: p < u < t ==> tickets[u].key != tickets[p].key
  }

  predicate TicketInv(tickets: seq<Ticket>, t: nat)
    requires t < |tickets|
  {
    var me := tickets[t];
    && (me.released ==> me.granted)
    && (me.granted ==> AllReleasedBefore(tickets, me.key, t))
    && (me.previous.None? ==> me.granted)
    && (me.previous.Some? ==> IsLastBefore(tickets, me.previous.value, t) && tickets[me.previous.value].key == me.key)
  }

  predicate Inv(s: State) {
    && Ordered(s.tickets)
    && (forall t :: 0 <= t < |s.tickets| ==> TicketInv(s.tickets, t))
    && (forall key :: key in s.chains ==>
          && IsLastBefore(s.tickets, s.chains[key], |s.tickets|)
          && s.tickets[s.chains[key]].key == key
          && !s.tickets[s.chains[key]].released)
    && (forall t :: 0 <= t < |s.tickets| && !s.tickets[t].released ==> s.tickets[t].key in s.chains)
  }

  /** A resolved promise means that its ticket and every earlier one on the key are released. */
  lemma {:induction false} ResolvedMeansReleased(s: State, t: nat)
    requires Inv(s) && t < |s.tickets|
    ensures Resolved(s.tickets, t) <==> AllReleasedBefore(s.tickets, s.tickets[t].key, t) && s.tickets[t].released
    decreases t
  {
    assert TicketInv(s.tickets, t);
    if s.tickets[t].previous.Some? {
      ResolvedMeansReleased(s, s.tickets[t].previous.value);
    }
  }

  lemma {:induction false} AcquireKeepsInv(s: State, key: string)
    requires Inv(s)
    ensures Inv(Acquire(s, key))
  {
    var s' := Acquire(s, key);
    var n := |s.tickets|;
    forall t | 0 <= t < n + 1
      ensures TicketInv(s'.tickets, t)
    {
      if t < n {
        assert TicketInv(s.tickets, t);
      }
    }
  }

  lemma {:induction false} ResumeKeepsInv(s: State, t: nat)
    requires Inv(s) && CanResume(s, t)
    ensures Inv(Resume(s, t))
  {
    var s' := Resume(s, t);
    var p := s.tickets[t].previous.value;
    ResolvedMeansReleased(s, p);
    assert TicketInv(s.tickets, t);
    forall u | 0 <= u < |s.tickets|
      ensures TicketInv(s'.tickets, u)
    {
      assert TicketInv(s.tickets, u);
    }
  }

  lemma {:induction false} ReleaseKeepsInv(s: State, t: nat)
    requires Inv(s) && t < |s.tickets| && s.tickets[t].granted
    ensures Inv(Release(s, t))
  {
    var s' := Release(s, t);
    assert TicketInv(s.tickets, t);
    forall u | 0 <= u < |s.tickets|
      ensures TicketInv(s'.tickets, u)
    {
      assert TicketInv(s.tickets, u);
    }
    forall u | 0 <= u < |s'.tickets| && !s'.tickets[u].released
      ensures s'.tickets[u].key in s'.chains
    {
      assert s.tickets[u].key in s.chains;
    }
  }

  /** States reached by a sequence of enabled steps. */
  ghost predicate Reaches(s: State, steps: seq<Step>, s': State)
    decreases |steps|
  {
    if steps == [] then s == s'
    else Ordered(s.tickets) && Enabled(s, steps[0]) && Reaches(Apply(s, steps[0]), steps[1..], s')
  }

  lemma {:induction false} RunsKeepInv(s: State, steps: seq<Step>, s': State)
    requires Inv(s) && Reaches(s, steps, s')
    ensures Inv(s')
    decreases |steps|
  {
    if steps == [] {
    } else {
      match steps[0] {
        case AcquireStep(key) => AcquireKeepsInv(s, key);
        case ResumeStep(t) => ResumeKeepsInv(s, t);
        case ReleaseStep(t) => ReleaseKeepsInv(s, t);
      }
      RunsKeepInv(Apply(s, steps[0]), steps[1..], s');
    }
  }

  // ---------- Refinement of a queue per key ----------

  /** The unreleased tickets on a key, oldest first. */
  function Queue(tickets: seq<Ticket>, key: string): (q: seq<nat>)
    ensures forall i :: 0 <= i < |q| ==> q[i] < |tickets| && tickets[q[i]].key == key && !tickets[q[i]].released
    ensures forall i, j :: 0 <= i < j < |q| ==> q[i] < q[j]
    ensures forall t :: 0 <= t < |tickets| && tickets[t].key == key && !tickets[t].released ==> t in q
  {
    if tickets == [] then []
    else
      var n := |tickets| - 1;
      var front := Queue(tickets[..n], key);
      if tickets[n].key == key && !tickets[n].released then front + [n] else front
  }

  /** Strictly increasing sequences with the same members are equal. */
  lemma {:induction false} SameMembersSameQueue(p: seq<nat>, q: seq<nat>)
    requires forall i, j :: 0 <= i < j < |p| ==> p[i] < p[j]
    requires forall i, j :: 0 <= i < j < |q| ==> q[i] < q[j]
    requires forall x :: x in p <==> x in q
    ensures p == q
  {
    assert p != [] ==> p[0] in q;
    assert q != [] ==> q[0] in p;
    if p != [] && q != [] {
      assert p[0] == q[0];
      forall x
        ensures x in p[1..] <==> x in q[1..]
      {
        assert x in p[1..] ==> x in p && x != p[0];
        assert x in q[1..] ==> x in q && x != q[0];
      }
      SameMembersSameQueue(p[1..], q[1..]);
      assert p == [p[0]] + p[1..] && q == [q[0]] + q[1..];
    }
  }

  lemma {:induction false} AcquireEnqueues(s: State, key: string, other: string)
    ensures Queue(Acquire(s, key).tickets, key) == Queue(s.tickets, key) + [|s.tickets|]
    ensures other != key ==> Queue(Acquire(s, key).tickets, other) == Queue(s.tickets, other)
  {
    assert Acquire(s, key).tickets[..|s.tickets|] == s.tickets;
  }

  lemma {:induction false} ResumeKeepsQueues(s: State, t: nat, key: string)
    requires t < |s.tickets|
    ensures Queue(Resume(s, t).tickets, key) == Queue(s.tickets, key)
  {
    SameMembersSameQueue(Queue(Resume(s, t).tickets, key), Queue(s.tickets, key));
  }

  predicate IsHead(q: seq<nat>, t: nat) {
    q != [] && q[0] == t
  }

  /** The first release of a ticket removes the head of its queue. */
  lemma {:induction false} ReleaseDequeues(s: State, t: nat)
    requires Inv(s) && t < |s.tickets| && s.tickets[t].granted && !s.tickets[t].released
    ensures Queue(s.tickets, s.tickets[t].key) == [t] + Queue(Release(s, t).tickets, s.tickets[t].key)
  {
    var key := s.tickets[t].key;
    var before, after := Queue(s.tickets, key), Queue(Release(s, t).tickets, key);
    assert TicketInv(s.tickets, t);
    forall x
      ensures x in before <==> x in [t] + after
    {
      assert x in [t] + after <==> x == t || x in after;
    }
    forall i | 0 <= i < |after|
      ensures t < after[i]
    {
      assert !s.tickets[after[i]].released;
    }
    SameMembersSameQueue(before, [t] + after);
  }

  lemma {:induction false} ReleaseKeepsOtherQueues(s: State, t: nat, other: string)
    requires t < |s.tickets| && other != s.tickets[t].key
    ensures Queue(Release(s, t).tickets, other) == Queue(s.tickets, other)
  {
    SameMembersSameQueue(Queue(Release(s, t).tickets, other), Queue(s.tickets, other));
  }

  /** Calling the closure again changes nothing. */
  lemma {:induction false} RepeatedReleaseIsHarmless(s: State, t: nat)
    requires Inv(s) && t < |s.tickets| && s.tickets[t].released
    ensures Release(s, t) == s
  {
    assert s.tickets[t].(released := true) == s.tickets[t];
  }

  /** Only the head of a queue holds the key, so no two tasks ever do. */
  lemma {:induction false} HolderIsHead(s: State, t: nat)
    requires Inv(s) && t < |s.tickets| && s.tickets[t].granted && !s.tickets[t].released
    ensures IsHead(Queue(s.tickets, s.tickets[t].key), t)
  {
    ReleaseDequeues(s, t);
  }

  lemma {:induction false} HeadMeansEarlierReleased(tickets: seq<Ticket>, t: nat)
    requires t < |tickets| && !tickets[t].released
    ensures IsHead(Queue(tickets, tickets[t].key), t) <==> AllReleasedBefore(tickets, tickets[t].key, t)
  {
    var q := Queue(tickets, tickets[t].key);
    assert t in q;
    assert forall u :: 0 <= u < t && tickets[u].key == tickets[t].key && !tickets[u].released ==> u in q;
  }

  /** A waiter is resumable exactly when it has become the head of its queue. */
  lemma {:induction false} GrantedInOrder(s: State, t: nat)
    requires Inv(s) && t < |s.tickets| && !s.tickets[t].granted
    ensures CanResume(s, t) <==> IsHead(Queue(s.tickets, s.tickets[t].key), t)
  {
    assert TicketInv(s.tickets, t);
    HeadMeansEarlierReleased(s.tickets, t);
    ResolvedMeansReleased(s, s.tickets[t].previous.value);
  }

  /** The map holds a key exactly while some ticket on it is unreleased. */
  lemma {:induction false} MapHoldsLiveKeys(s: State, key: string)
    requires Inv(s)
    ensures key in s.chains <==> Queue(s.tickets, key) != []
  {
    var q := Queue(s.tickets, key);
    if key in s.chains {
      assert s.chains[key] in q;
    }
    assert q != [] ==> !s.tickets[q[0]].released;
  }

  /** No waiter is ever stuck: when every task that was granted has released and no waiter
      can be resumed, every ticket has been granted. */
  lemma {:induction false} QuietMeansServed(s: State)
    requires Inv(s)
    requires forall t :: 0 <= t < |s.tickets| && s.tickets[t].granted ==> s.tickets[t].released
    requires forall t :: 0 <= t < |s.tickets| ==> !CanResume(s, t)
    ensures forall t :: 0 <= t < |s.tickets| ==> s.tickets[t].granted && s.tickets[t].released
    ensures s.chains == map[]
  {
    forall t | 0 <= t < |s.tickets|
      ensures s.tickets[t].released
    {
      if !s.tickets[t].released {
        var q := Queue(s.tickets, s.tickets[t].key);
        assert t in q;
        GrantedInOrder(s, q[0]);
      }
    }
    forall t | 0 <= t < |s.tickets|
      ensures s.tickets[t].granted
    {
      assert TicketInv(s.tickets, t);
    }
    assert forall key :: key !in s.chains;
  }

  /** Resumptions and first releases still to come. */
  function Work(tickets: seq<Ticket>): nat {
    if tickets == [] then 0
    else Work(tickets[1..]) + (if tickets[0].granted then 0 else 1) + (if tickets[0].released then 0 else 1)
  }

  lemma {:induction false} WorkDrops(tickets: seq<Ticket>, t: nat, ticket: Ticket)
    requires t < |tickets|
    requires
      || (!tickets[t].granted && ticket == tickets[t].(granted := true))
      || (!tickets[t].released && ticket == tickets[t].(released := true))
    ensures Work(tickets[t := ticket]) == Work(tickets) - 1
  {
    if t == 0 {
      assert tickets[t := ticket][1..] == tickets[1..];
    } else {
      WorkDrops(tickets[1..], t - 1, ticket);
      assert tickets[t := ticket][1..] == tickets[1..][t - 1 := ticket];
    }
  }

  /** No new call and no repeated release. */
  predicate Effective(s: State, step: Step) {
    match step
    case AcquireStep(_) => false
    case ResumeStep(t) => true
    case ReleaseStep(t) => t < |s.tickets| && !s.tickets[t].released
  }

  ghost predicate Drains(s: State, steps: seq<Step>, s': State)
    decreases |steps|
  {
    if steps == [] then s == s'
    else Ordered(s.tickets) && Enabled(s, steps[0]) && Effective(s, steps[0]) && Drains(Apply(s, steps[0]),
        steps[1..], s')
  }

  /** Once calls stop, at most Work(s) steps remain, and QuietMeansServed describes their end. */
  lemma {:induction false} DrainingEnds(s: State, steps: seq<Step>, s': State)
    requires Drains(s, steps, s')
    ensures |steps| + Work(s'.tickets) == Work(s.tickets)
    decreases |steps|
  {
    if steps == [] {
    } else {
      var t := steps[0].t;
      WorkDrops(s.tickets, t, Apply(s, steps[0]).tickets[t]);
      DrainingEnds(Apply(s, steps[0]), steps[1..], s');
    }
  }

  // ---------- The class ----------

  class KeyedMutex {
    var chains: map<string, nat>
    var tickets: seq<Ticket>

    function Model(): State
      reads this
    {
      State(chains, tickets)
    }

    constructor ()
      ensures Model() == EMPTY && Inv(Model())
    {
      chains := map[];
      tickets := [];
    }

    /** acquire up to its await. Without a previous lock the caller goes straight on. */
    method Begin(key: string) returns (t: nat)
      requires Inv(Model())
      modifies this
      ensures t == old(|tickets|)
      ensures Model() == Acquire(old(Model()), key) && Inv(Model())
    {
      AcquireKeepsInv(Model(), key);
      t := |tickets|;
      var previousLock := if key in chains then Some(chains[key]) else None;
      chains := chains[key := t];
      tickets := tickets + [Ticket(key, previousLock, false, false)];
      if previousLock.None? {
        tickets := tickets[t := tickets[t].(granted := true)];
      }
    }

    /** acquire after its await. */
    method Awake(t: nat)
      requires Inv(Model()) && CanResume(Model(), t)
      modifies this`tickets
      ensures Model() == Resume(old(Model()), t) && Inv(Model())
    {
      ResumeKeepsInv(Model(), t);
      tickets := tickets[t := tickets[t].(granted := true)];
    }

    /** The closure returned by acquire. */
    method ReleaseClosure(t: nat)
      requires Inv(Model()) && t < |tickets| && tickets[t].granted
      modifies this
      ensures Model() == Release(old(Model()), t) && Inv(Model())
    {
      ReleaseKeepsInv(Model(), t);
      var key := tickets[t].key;
      if key in chains && chains[key] == t {
        chains := chains - {key};
      }
      tickets := tickets[t := tickets[t].(released := true)];
    }
  }
}
