/** The class of wallet_manager/WalletManager.ts over its Mongo collections, proved against
    the rules in Accounts, with the local freezes and the admission reserve of
    peer_handlers/mempool_manager/MempoolManager.ts.
 */
module Wallet {
  import opened Accounts
  import opened Platform
  import opened Sums
  import opened Vesting
  import opened Wrappers

  const UNLIMITED: int := 999999999999_000000000000000000
  const MAX_BROKER_FEE: nat := 1500

  // ---------- Freezes ----------

  datatype FrozenEscrow = FrozenEscrow(address: Address, amount: nat, allocatedRestToll: nat)

  /** The entries of the frozenEscrows map in insertion order. */
  datatype Freeze = Freeze(requestId: string, escrows: seq<FrozenEscrow>)

  function FrozenIn(escrows: seq<FrozenEscrow>, a: Address): nat {
    if escrows == [] then 0
    else FrozenIn(escrows[1..], a) + (if escrows[0].address == a then escrows[0].amount
        + escrows[0].allocatedRestToll else 0)
  }

  predicate Excluded(requestId: string, excludeMarketId: string) {
    excludeMarketId != "" && requestId == excludeMarketId
  }

  function FrozenFor(frozen: seq<Freeze>, a: Address, excludeMarketId: string): nat {
    if frozen == [] then 0
    else
      FrozenFor(frozen[1..], a, excludeMarketId)
      + (if Excluded(frozen[0].requestId, excludeMarketId) then 0 else FrozenIn(frozen[0].escrows, a))
  }

  function AddFreeze(frozen: seq<Freeze>, requestId: string, e: FrozenEscrow): seq<Freeze> {
    if frozen == [] then [Freeze(requestId, [e])]
    else if frozen[0].requestId == requestId then [Freeze(requestId, frozen[0].escrows + [e])] + frozen[1..]
    else [frozen[0]] + AddFreeze(frozen[1..], requestId, e)
  }

  function DropFreeze(frozen: seq<Freeze>, requestId: string): seq<Freeze> {
    if frozen == [] then []
    else if frozen[0].requestId == requestId then DropFreeze(frozen[1..], requestId)
    else [frozen[0]] + DropFreeze(frozen[1..], requestId)
  }

  /** Asking for funds with a market excluded is asking as if that market were released. */
  lemma {:induction false} ExcludingIsReleasing(frozen: seq<Freeze>, a: Address, marketId: string)
    requires marketId != ""
    ensures FrozenFor(frozen, a, marketId) == FrozenFor(DropFreeze(frozen, marketId), a, "")
  {
    if frozen == [] {
    } else {
      ExcludingIsReleasing(frozen[1..], a, marketId);
    }
  }

  lemma {:induction false} FrozenInAppend(escrows: seq<FrozenEscrow>, e: FrozenEscrow, a: Address)
    ensures FrozenIn(escrows + [e], a) == FrozenIn(escrows, a) + FrozenIn([e], a)
  {
    if escrows == [] {
      assert escrows + [e] == [e];
    } else {
      FrozenInAppend(escrows[1..], e, a);
      assert (escrows + [e])[1..] == escrows[1..] + [e];
    }
  }

  /** A freeze takes its amount and toll from its address alone. */
  lemma {:induction false} FreezeLowersOneBalance(frozen: seq<Freeze>, requestId: string, e: FrozenEscrow, a: Address)
    ensures FrozenFor(AddFreeze(frozen, requestId, e), a, "") == FrozenFor(frozen, a, "") + FrozenIn([e], a)
  {
    if frozen == [] {
    } else if frozen[0].requestId == requestId {
      FrozenInAppend(frozen[0].escrows, e, a);
    } else {
      FreezeLowersOneBalance(frozen[1..], requestId, e, a);
    }
  }

  /** Releasing a request undoes all freezes made for it. */
  lemma {:induction false} ReleaseUndoesFreeze(frozen: seq<Freeze>, requestId: string, e: FrozenEscrow)
    ensures DropFreeze(AddFreeze(frozen, requestId, e), requestId) == DropFreeze(frozen, requestId)
  {
    if frozen != [] && frozen[0].requestId != requestId {
      ReleaseUndoesFreeze(frozen[1..], requestId, e);
    }
  }

  /** A market's own freezes are not held against a request that excludes it. */
  lemma {:induction false} FreezeSparesItsMarket(frozen: seq<Freeze>, requestId: string, e: FrozenEscrow, a: Address)
    requires requestId != ""
    ensures FrozenFor(AddFreeze(frozen, requestId, e), a, requestId) == FrozenFor(frozen, a, requestId)
  {
    if frozen == [] {
    } else if frozen[0].requestId != requestId {
      FreezeSparesItsMarket(frozen[1..], requestId, e, a);
    }
  }

  /** frozenEscrows.get, with nothing for an unknown request. */
  function EscrowsOf(frozen: seq<Freeze>, requestId: string): seq<FrozenEscrow> {
    if frozen == [] then []
    else if frozen[0].requestId == requestId then frozen[0].escrows
    else EscrowsOf(frozen[1..], requestId)
  }

  lemma {:induction false} EscrowsAfterFreeze(frozen: seq<Freeze>, requestId: string, e: FrozenEscrow, r: string)
    ensures EscrowsOf(AddFreeze(frozen, requestId, e), r) == EscrowsOf(frozen, r) + if r == requestId then [e] else []
  {
    if frozen == [] {
    } else if frozen[0].requestId == requestId {
      assert ([Freeze(requestId, frozen[0].escrows + [e])] + frozen[1..])[1..] == frozen[1..];
    } else {
      EscrowsAfterFreeze(frozen[1..], requestId, e, r);
    }
  }

  lemma {:induction false} EscrowsAfterRelease(frozen: seq<Freeze>, requestId: string, r: string)
    ensures EscrowsOf(DropFreeze(frozen, requestId), r) == if r == requestId then [] else EscrowsOf(frozen, r)
  {
    if frozen == [] {
    } else {
      EscrowsAfterRelease(frozen[1..], requestId, r);
    }
  }

  function Available(balances: map<Address, nat>, frozen: seq<Freeze>, a: Address, excludeMarketId: string): int {
    if a == ZERO_ADDRESS then UNLIMITED else At(balances, a) - FrozenFor(frozen, a, excludeMarketId)
  }

  predicate HasFunds(balances: map<Address, nat>, frozen: seq<Freeze>, a: Address, minimum: nat,
      excludeMarketId: string) {
    a == ZERO_ADDRESS || Available(balances, frozen, a, excludeMarketId) >= minimum
  }

  // ---------- Admission of storage contracts ----------

  predicate Admits(balances: map<Address, nat>, frozen: seq<Freeze>, c: Contract, marketId: string,
      signerStaked: bool) {
    && (c.owner != "" && c.allocatedEgress.Some? ==>
          HasFunds(balances, frozen, c.owner, Reserve(c.allocatedEgress.value), marketId))
    && c.brokerFee.basis <= MAX_BROKER_FEE
    && signerStaked
  }

  /** A contract is admitted exactly if its owner, when that is neither absent nor the zero address,
      has 105% of the allocated egress left besides what is frozen for other markets, its fee is at
      most 15%, and its signer is staked. */
  lemma {:induction false} AdmittedExactly(balances: map<Address, nat>, frozen: seq<Freeze>, c: Contract,
      marketId: string, signerStaked: bool)
    ensures Admits(balances, frozen, c, marketId, signerStaked) <==>
              && (c.owner in {"", ZERO_ADDRESS} || c.allocatedEgress.None?
                  || At(balances, c.owner)
                     >= c.allocatedEgress.value * 105 / 100 + FrozenFor(frozen, c.owner, marketId))
              && c.brokerFee.basis <= 1500
              && signerStaked
  {
  }

  /** An admitted contract is paid for when it is applied to the books it was admitted in. */
  lemma {:induction false} AdmissionCoversContract(b: Books, frozen: seq<Freeze>, c: Contract, marketId: string,
      signerStaked: bool)
    requires Admits(b.balances, frozen, c, marketId, signerStaked)
    requires c.owner != "" && c.owner != ZERO_ADDRESS
    requires c.allocatedEgress.Some? && c.remainingEgress in {None, c.allocatedEgress}
    requires c.allocatedEgress.value >= 20 && c.brokerFee.basis <= 500
    ensures ContractFlow(b, c).unbacked == 0
  {
    LowFeeIsReserved(Escrow(c), c.brokerFee);
  }

  /** The zero address always has funds for admission, but its debit is clamped like any other: what
      its own record does not hold is unpaid, and nobody is asked for more than the fee's ceiling. */
  lemma {:induction false} ZeroOwnerIsUnbacked(c: Contract, b: Books, frozen: seq<Freeze>, marketId: string)
    requires c.owner == ZERO_ADDRESS && Escrow(c) > 0
    ensures Admits(b.balances, frozen, c, marketId, true) <==> c.brokerFee.basis <= MAX_BROKER_FEE
    ensures ContractFlow(b, c).unbacked == Shortfall(b.balances, ZERO_ADDRESS, DebitOf(Escrow(c), c.brokerFee))
  {
  }

  // ---------- The class ----------

  class WalletManager {
    var balances: map<Address, nat>
    var activeContracts: seq<Contract>
    var activeValidators: map<Address, nat>
    var activeStorageProviders: map<Address, nat>
    var frozenEscrows: seq<Freeze>

    function Model(): Books
      reads this
    {
      Books(balances, activeContracts, activeValidators, activeStorageProviders)
    }

    constructor (b: Books)
      ensures Model() == b && frozenEscrows == []
    {
      balances := b.balances;
      activeContracts := b.contracts;
      activeValidators := b.validators;
      activeStorageProviders := b.providers;
      frozenEscrows := [];
    }

    method ApplyBalanceDelta(address: Address, deltaWei: int)
      modifies this`balances
      ensures balances == ApplyDelta(old(balances), address, deltaWei)
    {
      var current := if address in balances then balances[address] else 0;
      current := current + deltaWei;
      if current < 0 {
        current := 0;
      }
      balances := balances[address := current];
    }

    method UpdateIncrementalState(block: Block)
      modifies this`balances, this`activeContracts, this`activeValidators, this`activeStorageProviders
      ensures Model() == ApplyBlock(old(Model()), block)
    {
      match block {
        case Transaction(sender, recipient, txAmt) =>
          if sender != ZERO_ADDRESS {
            ApplyBalanceDelta(sender, 0 - txAmt);
          }
          if recipient != ZERO_ADDRESS {
            ApplyBalanceDelta(recipient, txAmt);
          }
        case StorageContract(c) =>
          activeContracts := Upsert(activeContracts, c);
          var escrowToDeduct := Escrow(c);
          if escrowToDeduct > 0 && c.owner != "" {
            var findersFee := FindersFee(escrowToDeduct, c.brokerFee);
            var totalCost: int := escrowToDeduct + findersFee;
            ApplyBalanceDelta(c.owner, 0 - totalCost);
            ApplyBalanceDelta(c.signer, findersFee);
          }
        case Staking(operator, colAmt) =>
          if colAmt > 0 {
            ApplyBalanceDelta(operator, 0 - colAmt);
            var currentAmt := if operator in activeStorageProviders then activeStorageProviders[operator] else 0;
            activeStorageProviders := activeStorageProviders[operator := currentAmt + colAmt];
          }
        case Slashing(penalized, burnAmt) =>
          if burnAmt > 0 {
            ApplyBalanceDelta(penalized, 0 - burnAmt);
            activeValidators := activeValidators - {penalized};
            if penalized in activeStorageProviders {
              var newAmt: int := activeStorageProviders[penalized] - burnAmt;
              if newAmt < MIN_COLLATERAL {
                activeStorageProviders := activeStorageProviders - {penalized};
              } else {
                activeStorageProviders := activeStorageProviders[penalized := newAmt];
              }
            }
          }
        case Stake(validator, stakeAmt) =>
          if stakeAmt > 0 {
            ApplyBalanceDelta(validator, 0 - stakeAmt);
            activeValidators := activeValidators[validator := stakeAmt];
          }
        case Unstake(validator) =>
          activeValidators := activeValidators - {validator};
        case Other =>
      }
    }

    /** The loop over the fragment holders of a paying contract. */
    method PayFragments(fragments: seq<Address>, nodeShare: nat)
      modifies this`balances
      ensures balances == Credit(old(balances), fragments, nodeShare)
    {
      var k := 0;
      assert fragments[0..] == fragments;
      while k < |fragments|
        invariant 0 <= k <= |fragments|
        invariant Credit(balances, fragments[k..], nodeShare) == Credit(old(balances), fragments, nodeShare)
      {
        assert fragments[k..][1..] == fragments[k + 1..];
        ApplyBalanceDelta(fragments[k], nodeShare);
        k := k + 1;
      }
    }

    method ProcessEpochTick(currentBlockIndex: int)
      modifies this`balances, this`activeContracts
      ensures Model() == TickFrom(old(Model()), currentBlockIndex, 0)
    {
      var i := 0;
      while i < |activeContracts|
        invariant 0 <= i <= |activeContracts|
        invariant TickFrom(Model(), currentBlockIndex, i) == TickFrom(old(Model()), currentBlockIndex, 0)
        decreases |activeContracts| - i
      {
        ghost var before := Model();
        var c := activeContracts[i];
        var payoutWei := ContractPayout(c, currentBlockIndex);
        if payoutWei > 0 {
          activeContracts := activeContracts[i := c.(restToll := c.restToll - payoutWei,
              paidUpTo := Some(currentBlockIndex))];
          var nodeShare := payoutWei / |c.fragments|;
          if nodeShare > 0 {
            PayFragments(c.fragments, nodeShare);
          }
        } else {
          assert activeContracts[i := c] == activeContracts;
        }
        assert Model() == before.(balances := TickBalances(before.balances, c, currentBlockIndex),
                                  contracts := before.contracts[i := TickContract(c, currentBlockIndex)]);
        i := i + 1;
      }
    }

    method DeductEgressEscrow(blockHash: string, calculatedCost: int)
      modifies this`balances, this`activeContracts
      ensures Model() == if calculatedCost <= 0 then old(Model()) else DeductEgress(old(Model()), blockHash,
          calculatedCost)
    {
      if calculatedCost <= 0 {
        return;
      }
      var found := Find(activeContracts, blockHash);
      if found.None? {
        return;
      }
      var c := activeContracts[found.value];
      var currentRemaining := Escrow(c);
      var diff := currentRemaining - calculatedCost;
      var newRemaining := if diff < 0 then 0 else diff;
      var actualDeduction := currentRemaining - newRemaining;
      activeContracts := activeContracts[found.value := c.(remainingEgress := Some(newRemaining))];
      if actualDeduction > 0 {
        ApplyBalanceDelta(c.signer, actualDeduction);
      }
    }

    /** A freeze is added to its request and counts against its address alone, except for requests
        that exclude that market. The zero address freezes nothing. */
    method FreezeFunds(address: Address, amount: nat, requestId: string, allocatedRestToll: nat)
      modifies this`frozenEscrows
      ensures var frozen := FrozenEscrow(address, amount, allocatedRestToll);
              forall r :: EscrowsOf(frozenEscrows, r)
                          == old(EscrowsOf(frozenEscrows, r)) + if r == requestId
                              && address != ZERO_ADDRESS then [frozen] else []
      ensures forall a :: FrozenFor(frozenEscrows, a, "")
                          == old(FrozenFor(frozenEscrows, a, ""))
                             + if a == address && address != ZERO_ADDRESS then amount + allocatedRestToll else 0
      ensures requestId != "" ==>
                forall a :: FrozenFor(frozenEscrows, a, requestId) == old(FrozenFor(frozenEscrows, a, requestId))
    {
      if address == ZERO_ADDRESS {
        return;
      }
      var frozen := FrozenEscrow(address, amount, allocatedRestToll);
      forall r {
        EscrowsAfterFreeze(frozenEscrows, requestId, frozen, r);
      }
      forall a
        ensures FrozenFor(AddFreeze(frozenEscrows, requestId, frozen), a, "")
                == FrozenFor(frozenEscrows, a, "") + if a == address then amount + allocatedRestToll else 0
      {
        FreezeLowersOneBalance(frozenEscrows, requestId, frozen, a);
        assert [frozen][1..] == [];
      }
      if requestId != "" {
        forall a {
          FreezeSparesItsMarket(frozenEscrows, requestId, frozen, a);
        }
      }
      frozenEscrows := AddFreeze(frozenEscrows, requestId, frozen);
    }

    /** The request's freezes are gone, all others stay, and every address has the funds it had with
        that market excluded. commitFunds does the same. */
    method ReleaseFunds(requestId: string)
      modifies this`frozenEscrows
      ensures forall r :: EscrowsOf(frozenEscrows, r) == if r == requestId then [] else old(EscrowsOf(frozenEscrows, r))
      ensures requestId != "" ==>
                forall a :: FrozenFor(frozenEscrows, a, "") == old(FrozenFor(frozenEscrows, a, requestId))
    {
      forall r {
        EscrowsAfterRelease(frozenEscrows, requestId, r);
      }
      if requestId != "" {
        forall a {
          ExcludingIsReleasing(frozenEscrows, a, requestId);
        }
      }
      frozenEscrows := DropFreeze(frozenEscrows, requestId);
    }

    method CalculateBalance(address: Address, excludeMarketId: string) returns (balance: int)
      ensures balance == Available(balances, frozenEscrows, address, excludeMarketId)
    {
      if address == ZERO_ADDRESS {
        return UNLIMITED;
      }
      balance := if address in balances then balances[address] else 0;
      var k := 0;
      assert frozenEscrows[0..] == frozenEscrows;
      while k < |frozenEscrows|
        invariant 0 <= k <= |frozenEscrows|
        invariant balance - FrozenFor(frozenEscrows[k..], address, excludeMarketId)
                  == Available(balances, frozenEscrows, address, excludeMarketId)
      {
        assert frozenEscrows[k..][1..] == frozenEscrows[k + 1..];
        if !Excluded(frozenEscrows[k].requestId, excludeMarketId) {
          var escrows := frozenEscrows[k].escrows;
          var j := 0;
          ghost var start := balance;
          assert escrows[0..] == escrows;
          while j < |escrows|
            invariant 0 <= j <= |escrows|
            invariant balance - FrozenIn(escrows[j..], address) == start - FrozenIn(escrows, address)
          {
            assert escrows[j..][1..] == escrows[j + 1..];
            if escrows[j].address == address {
              balance := balance - escrows[j].amount;
              balance := balance - escrows[j].allocatedRestToll;
            }
            j := j + 1;
          }
        }
        k := k + 1;
      }
    }

    method VerifyFunds(address: Address, minimumRequired: nat, excludeMarketId: string) returns (ok: bool)
      ensures ok == HasFunds(balances, frozenEscrows, address, minimumRequired, excludeMarketId)
    {
      if address == ZERO_ADDRESS {
        return true;
      }
      var balance := CalculateBalance(address, excludeMarketId);
      ok := balance >= minimumRequired;
    }

    /** The storage-contract checks of handlePendingBlock. */
    method AdmitStorageContract(c: Contract, marketId: string, signerStaked: bool) returns (ok: bool)
      ensures ok == Admits(balances, frozenEscrows, c, marketId, signerStaked)
    {
      if c.owner != "" && c.allocatedEgress.Some? {
        var totalCost := c.allocatedEgress.value * 105 / 100;
        var hasUserFunds := VerifyFunds(c.owner, totalCost, marketId);
        if !hasUserFunds {
          return false;
        }
      }
      if c.brokerFee.basis > MAX_BROKER_FEE {
        return false;
      }
      ok := signerStaked;
    }
  }

  // ---------- A contract on its own clock ----------

  /** A contract with fragments vests by the toll rule: its toll after a tick is the toll rule's. */
  lemma {:induction false} ContractFollowsTollRule(c: Contract, height: int)
    requires c.expiry.Some? && c.fragments != []
    ensures TollOf(TickContract(c, height)) == Tick(TollOf(c), c.expiry.value, height)
  {
  }
}
