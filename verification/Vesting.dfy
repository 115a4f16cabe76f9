/** The rest-toll rule of processEpochTick in wallet_manager/WalletManager.ts, for one contract
    with at least one fragment: every tick divides what is left of the toll by the blocks left
    since the previous payment. */
module Vesting {
  import opened Arith

  /** What is left of a toll, and the height of the last payment (at first, of the contract). */
  datatype Toll = Toll(left: nat, start: int)

  lemma {:induction false} DivAtMost(a: nat, b: nat)
    requires b > 0
    ensures a / b <= a
  {
    var q := a / b;
    assert a == q * b + a % b;
    MulMonotone(q, 1, b);
  }

  function Payout(t: Toll, expiry: int, height: int): (p: nat)
    ensures p <= t.left
  {
    if t.left > 0 && expiry > t.start && height <= expiry then
      DivAtMost(t.left, expiry - t.start);
      t.left / (expiry - t.start)
    else 0
  }

  function Tick(t: Toll, expiry: int, height: int): Toll {
    var p := Payout(t, expiry, height);
    if p > 0 then Toll(t.left - p, height) else t
  }

  /** n ticks at consecutive heights from `height` on. */
  function Run(t: Toll, expiry: int, height: int, n: nat): Toll
    decreases n
  {
    if n == 0 then t else Run(Tick(t, expiry, height), expiry, height + 1, n - 1)
  }

  function Payouts(t: Toll, expiry: int, height: int, n: nat): (ps: seq<nat>)
    ensures |ps| == n
    decreases n
  {
    if n == 0 then [] else [Payout(t, expiry, height)] + Payouts(Tick(t, expiry, height), expiry, height + 1, n - 1)
  }

  // ---------- One division ----------

  /** With at least n left over n blocks, a payment of the n-th part leaves at least n - 1 for
      the other n - 1, and within the same pair of levels q and q + 1. */
  lemma {:induction false} LevelsPersist(left: nat, n: nat, q: nat)
    requires n >= 1 && q * n <= left <= (q + 1) * n
    ensures q <= left / n <= q + 1
    ensures q * (n - 1) <= left - left / n <= (q + 1) * (n - 1)
    ensures left / n == q + 1 ==> left == (q + 1) * n
  {
    assert (q + 1) * n == q * n + n;
    if left == (q + 1) * n {
      DivMulIdentity(q + 1, n);
      assert (q + 1) * (n - 1) == (q + 1) * n - (q + 1);
      assert q * (n - 1) == q * n - q;
    } else {
      QuotientUnique(left, n, q);
      assert (q + 1) * (n - 1) == q * n - q + (n - 1);
      assert q * (n - 1) == q * n - q;
    }
  }

  /** From the second payment on: everything is paid, at two neighbouring levels. */
  lemma {:induction false} LevelPhase(t: Toll, expiry: int, height: int, n: nat, q: nat)
    requires height == t.start + 1 && expiry == t.start + n && n >= 1 && q >= 1
    requires q * n <= t.left <= (q + 1) * n
    ensures Run(t, expiry, height, n).left == 0
    ensures forall i :: 0 <= i < n ==> q <= Payouts(t, expiry, height, n)[i] <= q + 1
    ensures forall i, j :: 0 <= i <= j < n ==> Payouts(t, expiry, height, n)[i] <= Payouts(t, expiry, height, n)[j]
    decreases n
  {
    LevelsPersist(t.left, n, q);
    MulMonotone(q, 1, n);
    var p := Payout(t, expiry, height);
    var t' := Tick(t, expiry, height);
    assert p == t.left / n && t' == Toll(t.left - p, height);
    if n == 1 {
      assert Payouts(t, expiry, height, n) == [p];
      DivMulIdentity(t.left, 1);
    } else {
      if p == q + 1 {
        DivMulIdentity(q + 1, n);
        assert (q + 1) * (n - 1) == (q + 1) * n - (q + 1);
        assert (q + 2) * (n - 1) == (q + 1) * (n - 1) + (n - 1);
        LevelPhase(t', expiry, height + 1, n - 1, q + 1);
        LevelPhase(t', expiry, height + 1, n - 1, q);
      } else {
        LevelPhase(t', expiry, height + 1, n - 1, q);
      }
      var rest := Payouts(t', expiry, height + 1, n - 1);
      assert Payouts(t, expiry, height, n) == [p] + rest;
    }
  }

  // ---------- Whole contracts ----------

  /** A toll too small for its remaining blocks is never paid out again, at any heights. */
  lemma {:induction false} SmallTollIsFrozen(t: Toll, expiry: int, height: int, n: nat)
    requires t.left < expiry - t.start
    ensures Run(t, expiry, height, n) == t
    ensures forall i :: 0 <= i < n ==> Payouts(t, expiry, height, n)[i] == 0
    decreases n
  {
    if n == 0 {
    } else {
      QuotientUnique(t.left, expiry - t.start, 0);
      assert Tick(t, expiry, height) == t;
      SmallTollIsFrozen(t, expiry, height + 1, n - 1);
    }
  }

  /** The first two ticks divide by the same D: the one in the contract's own block leaves the
      start where it was. */
  lemma {:induction false} FirstTick(toll: nat, start: int, blocks: nat)
    requires blocks >= 2 && toll > blocks
    ensures Tick(Toll(toll, start), start + blocks, start) == Toll(toll - toll / blocks, start)
    ensures toll - toll / blocks >= blocks
  {
    var q := toll / blocks;
    assert toll == q * blocks + toll % blocks;
    if q >= 2 {
      assert q * blocks - q == q * (blocks - 1);
      MulMonotone(blocks - 1, 2, q);
    }
  }

  /** A toll above the number of blocks is paid out in full by the tick at its expiry, and from
      the second tick on the payments never fall and stay at two neighbouring levels. */
  lemma {:induction false} VestingPaysInFull(toll: nat, start: int, blocks: nat) returns (q: nat)
    requires blocks >= 2 && toll > blocks
    ensures q >= 1
    ensures Run(Toll(toll, start), start + blocks, start, blocks + 1).left == 0
    ensures var ps := Payouts(Toll(toll, start), start + blocks, start, blocks + 1);
            && (forall i :: 1 <= i <= blocks ==> q <= ps[i] <= q + 1)
            && (forall i, j :: 1 <= i <= j <= blocks ==> ps[i] <= ps[j])
  {
    var expiry := start + blocks;
    FirstTick(toll, start, blocks);
    var t1 := Tick(Toll(toll, start), expiry, start);
    q := t1.left / blocks;
    assert t1.left == q * blocks + t1.left % blocks;
    assert (q + 1) * blocks == q * blocks + blocks;
    LevelPhase(t1, expiry, start + 1, blocks, q);
    var ps := Payouts(Toll(toll, start), expiry, start, blocks + 1);
    assert ps[1..] == Payouts(t1, expiry, start + 1, blocks);
    forall i | 1 <= i <= blocks
      ensures ps[i] == ps[1..][i - 1]
    {
    }
  }

  /** The toll is used up by its expiry exactly when it exceeds the number of blocks (or the
      contract lasts one block). */
  lemma {:induction false} VestingIsExact(toll: nat, start: int, blocks: nat)
    requires blocks >= 1 && toll >= 1
    ensures Run(Toll(toll, start), start + blocks, start, blocks + 1).left == 0 <==> toll > blocks || blocks == 1
  {
    var expiry := start + blocks;
    var t := Toll(toll, start);
    if blocks == 1 {
      assert Tick(t, expiry, start) == Toll(0, start);
      SmallTollIsFrozen(Toll(0, start), expiry, start + 1, 1);
    } else if toll > blocks {
      var _ := VestingPaysInFull(toll, start, blocks);
    } else if toll == blocks {
      DivMulIdentity(1, blocks);
      assert Tick(t, expiry, start) == Toll(toll - 1, start);
      SmallTollIsFrozen(Toll(toll - 1, start), expiry, start + 1, blocks);
    } else {
      SmallTollIsFrozen(t, expiry, start, blocks + 1);
    }
  }
}
