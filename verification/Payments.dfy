/** Who is paid and who pays in wallet_manager/WalletManager.ts: what a block, a tick or an egress
    charge leaves at one address, in balance, stake and collateral, and in one contract. */
module Payments {
  import opened Accounts
  import opened Arith
  import opened Platform
  import opened Sums
  import opened Wrappers

  // ---------- Fees ----------

  /** The fee is the share of the escrow that the rate names, rounded down, and one wei instead of
      nothing. Only a number zero, or no fee at all, means one percent. */
  lemma {:induction false} FeeIsShare(escrow: nat, brokerFee: Fee)
    ensures var rate := if brokerFee.AsNumber? && brokerFee.basis == 0 then 100 else brokerFee.basis;
            var fee := FindersFee(escrow, brokerFee);
            if escrow * rate < 10000 then fee == 1 else fee * 10000 <= escrow * rate < (fee + 1) * 10000
  {
  }

  // ---------- Blocks ----------

  /** What a block takes from an address. */
  function Charged(block: Block, a: Address): nat {
    match block
    case Transaction(s, _, amount) => if a == s && s != ZERO_ADDRESS then amount else 0
    case StorageContract(c) =>
      if a == c.owner && c.owner != "" && Escrow(c) > 0 then Escrow(c) + FindersFee(Escrow(c), c.brokerFee) else 0
    case Staking(operator, collateral) => if a == operator then collateral else 0
    case Slashing(penalized, burnt) => if a == penalized then burnt else 0
    case Stake(validator, stake) => if a == validator then stake else 0
    case Unstake(_) => 0
    case Other => 0
  }

  /** What it then gives to it. */
  function Credited(block: Block, a: Address): nat {
    match block
    case Transaction(_, r, amount) => if a == r && r != ZERO_ADDRESS then amount else 0
    case StorageContract(c) =>
      if a == c.signer && c.owner != "" && Escrow(c) > 0 then FindersFee(Escrow(c), c.brokerFee) else 0
    case _ => 0
  }

  /** A charge takes no more than is there. */
  function Left(balance: nat, charge: nat): nat {
    if balance < charge then 0 else balance - charge
  }

  /** One change of one balance, and of no other. */
  lemma {:induction false} DeltaAt(balances: map<Address, nat>, to: Address, delta: int, a: Address)
    ensures At(ApplyDelta(balances, to, delta), a) ==
            if a != to then At(balances, a)
            else if delta < 0 then Left(At(balances, a), -delta) else At(balances, a) + delta
  {
  }

  lemma {:induction false} TransactionPays(b: Books, s: Address, r: Address, amount: nat, a: Address)
    ensures At(ApplyTransaction(b, s, r, amount).balances, a) ==
            Left(At(b.balances, a), Charged(Transaction(s, r, amount), a)) + Credited(Transaction(s, r, amount), a)
  {
    var debited := if s != ZERO_ADDRESS then ApplyDelta(b.balances, s, 0 - amount) else b.balances;
    DeltaAt(b.balances, s, 0 - amount, a);
    DeltaAt(debited, r, amount, a);
  }

  lemma {:induction false} ContractPays(b: Books, c: Contract, a: Address)
    ensures At(ApplyContract(b, c).balances, a) ==
            Left(At(b.balances, a), Charged(StorageContract(c), a)) + Credited(StorageContract(c), a)
  {
    if Escrow(c) > 0 && c.owner != "" {
      var fee := FindersFee(Escrow(c), c.brokerFee);
      DeltaAt(b.balances, c.owner, -(Escrow(c) + fee), a);
      DeltaAt(ApplyDelta(b.balances, c.owner, -(Escrow(c) + fee)), c.signer, fee, a);
    }
  }

  /** For every block and every address: what is left of its balance after its charge, and its credit. */
  lemma {:induction false} BlockPays(b: Books, block: Block, a: Address)
    ensures At(ApplyBlock(b, block).balances, a) == Left(At(b.balances, a), Charged(block, a)) + Credited(block, a)
  {
    match block {
      case Transaction(s, r, amount) => TransactionPays(b, s, r, amount, a);
      case StorageContract(c) => ContractPays(b, c, a);
      case Staking(operator, collateral) => DeltaAt(b.balances, operator, 0 - collateral, a);
      case Slashing(penalized, burnt) => DeltaAt(b.balances, penalized, 0 - burnt, a);
      case Stake(v, amount) => DeltaAt(b.balances, v, 0 - amount, a);
      case Unstake(_) =>
      case Other =>
    }
  }

  // ---------- Stakes, collateral and contracts ----------

  function Held(m: map<Address, nat>, a: Address): Option<nat> {
    if a in m then Some(m[a]) else None
  }

  /** A stake is the last one sent by its validator, until that leaves or is slashed. */
  lemma {:induction false} BlockStakes(b: Books, block: Block, a: Address)
    ensures Held(ApplyBlock(b, block).validators, a) ==
            match block
            case Stake(v, amount) => if a == v && amount > 0 then Some(amount) else Held(b.validators, a)
            case Unstake(v) => if a == v then None else Held(b.validators, a)
            case Slashing(v, burnt) => if a == v && burnt > 0 then None else Held(b.validators, a)
            case _ => Held(b.validators, a)
  {
  }

  /** Collateral grows by what its operator adds, and falls by what is burnt, to nothing if less than
      the minimum would be left. */
  lemma {:induction false} BlockCollateral(b: Books, block: Block, a: Address)
    ensures Held(ApplyBlock(b, block).providers, a) ==
            match block
            case Staking(operator, collateral) =>
              if a == operator && collateral > 0 then Some(At(b.providers, a) + collateral) else Held(b.providers, a)
            case Slashing(penalized, burnt) =>
              if a == penalized && burnt > 0 && a in b.providers then
                (if b.providers[a] - burnt < MIN_COLLATERAL then None else Some(b.providers[a] - burnt))
              else Held(b.providers, a)
            case _ => Held(b.providers, a)
  {
  }

  /** Where a contract block puts its contract. */
  function PlaceOf(contracts: seq<Contract>, id: string): nat {
    match Find(contracts, id)
    case Some(i) => i
    case None => |contracts|
  }

  /** A contract block writes its own contract, keeping when it was last paid, and no block touches
      another contract. */
  lemma {:induction false} BlockContracts(b: Books, block: Block, i: nat)
    requires i < |ApplyBlock(b, block).contracts|
    ensures |b.contracts| <= |ApplyBlock(b, block).contracts| <= |b.contracts| + 1
    ensures block.StorageContract? && i == PlaceOf(b.contracts, block.contract.id) ==>
              ApplyBlock(b, block).contracts[i]
              == block.contract.(paidUpTo := if i < |b.contracts| then b.contracts[i].paidUpTo else None)
    ensures !(block.StorageContract? && i == PlaceOf(b.contracts, block.contract.id)) ==>
              i < |b.contracts| && ApplyBlock(b, block).contracts[i] == b.contracts[i]
  {
  }

  // ---------- Ticks ----------

  /** A contract with fragments and an expiry pays, up to that height, its toll divided by the blocks
      from its last payment to the expiry, rounded down; any other pays nothing. */
  lemma {:induction false} PayoutIsShare(c: Contract, height: int)
    ensures var paid := ContractPayout(c, height);
            if c.fragments != [] && c.expiry.Some?
               && c.paidUpTo.GetOr(c.index) < c.expiry.value && height <= c.expiry.value
            then (var blocks := c.expiry.value - c.paidUpTo.GetOr(c.index);
                  paid * blocks <= c.restToll < (paid + 1) * blocks)
            else paid == 0
  {
  }

  /** What the paying contracts from i on owe an address: a share for each fragment it holds. */
  function SharesFrom(contracts: seq<Contract>, height: int, i: nat, a: Address): nat
    requires i <= |contracts|
    decreases |contracts| - i
  {
    if i == |contracts| then 0
    else
      var c := contracts[i];
      var share := if c.fragments == [] then 0 else ContractPayout(c, height) / |c.fragments|;
      multiset(c.fragments)[a] * share + SharesFrom(contracts, height, i + 1, a)
  }

  lemma {:induction false} CountFirst(to: seq<Address>, a: Address)
    requires to != []
    ensures multiset(to)[a] == multiset(to[1..])[a] + if a == to[0] then 1 else 0
  {
    assert to == [to[0]] + to[1..];
  }

  lemma {:induction false} CreditPays(balances: map<Address, nat>, to: seq<Address>, share: nat, a: Address)
    ensures At(Credit(balances, to, share), a) == At(balances, a) + multiset(to)[a] * share
    decreases |to|
  {
    if to == [] {
    } else {
      CountFirst(to, a);
      DeltaAt(balances, to[0], share, a);
      CreditPays(ApplyDelta(balances, to[0], share), to[1..], share, a);
      if a == to[0] {
        MulStep(multiset(to)[a], share);
      }
    }
  }

  lemma {:induction false} ContractCredits(balances: map<Address, nat>, c: Contract, height: int, a: Address)
    ensures At(TickBalances(balances, c, height), a)
            == At(balances, a) + multiset(c.fragments)[a] * NodeShare(c, height)
  {
    CreditPays(balances, c.fragments, NodeShare(c, height), a);
  }

  lemma {:induction false} SharesOfSuffix(one: seq<Contract>, two: seq<Contract>, height: int, i: nat, a: Address)
    requires |one| == |two| && i <= |one| && one[i..] == two[i..]
    ensures SharesFrom(one, height, i, a) == SharesFrom(two, height, i, a)
    decreases |one| - i
  {
    if i == |one| {
    } else {
      assert one[i] == one[i..][0] == two[i..][0] == two[i];
      assert one[i + 1..] == one[i..][1..] && two[i + 1..] == two[i..][1..];
      SharesOfSuffix(one, two, height, i + 1, a);
    }
  }

  lemma {:induction false} SharesIgnoreEarlier(contracts: seq<Contract>, height: int, i: nat, a: Address, c: Contract)
    requires i < |contracts|
    ensures SharesFrom(contracts[i := c], height, i + 1, a) == SharesFrom(contracts, height, i + 1, a)
  {
    SharesOfSuffix(contracts[i := c], contracts, height, i + 1, a);
  }

  /** A tick pays every address its shares, and nobody anything else. */
  lemma {:induction false} TickPays(b: Books, height: int, i: nat, a: Address)
    requires i <= |b.contracts|
    ensures At(TickFrom(b, height, i).balances, a) == At(b.balances, a) + SharesFrom(b.contracts, height, i, a)
    ensures TickFrom(b, height, i).validators == b.validators && TickFrom(b, height, i).providers == b.providers
    decreases |b.contracts| - i
  {
    if i == |b.contracts| {
    } else {
      var c := b.contracts[i];
      var next := b.(balances := TickBalances(b.balances, c, height),
                     contracts := b.contracts[i := TickContract(c, height)]);
      ContractCredits(b.balances, c, height, a);
      SharesIgnoreEarlier(b.contracts, height, i, a, TickContract(c, height));
      TickPays(next, height, i + 1, a);
      assert TickFrom(b, height, i) == TickFrom(next, height, i + 1);
    }
  }

  /** And every contract's toll falls by its payout. */
  lemma {:induction false} TickContracts(b: Books, height: int, i: nat, k: nat)
    requires i <= |b.contracts| && k < |b.contracts|
    ensures |TickFrom(b, height, i).contracts| == |b.contracts|
    ensures var c, payout := b.contracts[k], ContractPayout(b.contracts[k], height);
            TickFrom(b, height, i).contracts[k] ==
            if k < i || payout == 0 then c else c.(restToll := c.restToll - payout, paidUpTo := Some(height))
    decreases |b.contracts| - i
  {
    if i == |b.contracts| {
    } else {
      var c := b.contracts[i];
      TickContracts(b.(balances := TickBalances(b.balances, c, height),
                       contracts := b.contracts[i := TickContract(c, height)]), height, i + 1, k);
    }
  }

  // ---------- Egress ----------

  /** An egress charge moves what the contract's escrow has of it to the contract's signer. */
  lemma {:induction false} EgressPays(b: Books, id: string, cost: nat, a: Address)
    ensures var after, found := DeductEgress(b, id, cost), Find(b.contracts, id);
            && At(after.balances, a) == At(b.balances, a)
                 + (if found.Some? && a == b.contracts[found.value].signer
                    then (var escrow := Escrow(b.contracts[found.value]); if escrow < cost then escrow else cost)
                    else 0)
            && after.validators == b.validators && after.providers == b.providers
  {
  }

  lemma {:induction false} EgressContracts(b: Books, id: string, cost: nat, k: nat)
    requires k < |b.contracts|
    ensures var after, c := DeductEgress(b, id, cost).contracts, b.contracts[k];
            && |after| == |b.contracts|
            && after[k] == if cost > 0 && Find(b.contracts, id) == Some(k)
                           then c.(remainingEgress := Some(Left(Escrow(c), cost))) else c
  {
  }

  /** The remaining escrow counts if there is one, else the allocated one. */
  lemma {:induction false} EscrowOf(c: Contract)
    ensures match (c.remainingEgress, c.allocatedEgress)
            case (Some(left), _) => Escrow(c) == left
            case (None, Some(allocatedEgress)) => Escrow(c) == allocatedEgress
            case (None, None) => Escrow(c) == 0
  {
  }

  // ---------- Runs ----------

  /** What an event charges an address and then credits it with; a tick follows its block. */
  function ChargedBy(e: Event, a: Address): nat {
    match e
    case Added(block, _) => Charged(block, a)
    case Egress(_, _) => 0
  }

  function CreditedBy(b: Books, e: Event, a: Address): nat {
    match e
    case Added(block, height) => Credited(block, a) + SharesFrom(ApplyBlock(b, block).contracts, height, 0, a)
    case Egress(id, cost) =>
      match Find(b.contracts, id)
      case None => 0
      case Some(i) =>
        if a == b.contracts[i].signer then (if Escrow(b.contracts[i]) < cost then Escrow(b.contracts[i]) else cost)
        else 0
  }

  /** The balance of one address over a run, from its own charges and credits alone. */
  function BalanceAfter(balance: nat, b: Books, events: seq<Event>, a: Address): nat
    decreases |events|
  {
    if events == [] then balance
    else
      BalanceAfter(Left(balance, ChargedBy(events[0], a)) + CreditedBy(b, events[0], a),
                   Apply(b, events[0]), events[1..], a)
  }

  lemma {:induction false} EventPays(b: Books, e: Event, a: Address)
    ensures At(Apply(b, e).balances, a) == Left(At(b.balances, a), ChargedBy(e, a)) + CreditedBy(b, e, a)
  {
    match e {
      case Added(block, height) =>
        BlockPays(b, block, a);
        TickPays(ApplyBlock(b, block), height, 0, a);
      case Egress(id, cost) =>
        EgressPays(b, id, cost, a);
    }
  }

  lemma {:induction false} RunPays(b: Books, events: seq<Event>, a: Address)
    ensures At(RunBooks(b, events).balances, a) == BalanceAfter(At(b.balances, a), b, events, a)
    decreases |events|
  {
    if events == [] {
    } else {
      EventPays(b, events[0], a);
      RunPays(Apply(b, events[0]), events[1..], a);
    }
  }
}
