/** Token accounting of wallet_manager/WalletManager.ts: what each block, tick and egress
    charge does to the books, and where value enters or leaves them.

    Addresses are taken as already normalised, amounts as naturals.
 */
module Accounts {
  import opened Arith
  import opened Platform
  import opened Sums
  import opened Vesting
  import opened Wrappers

  type Address = string
  const MIN_COLLATERAL: nat := 5000_000000000000000000

  /** A broker fee in basis points: hydrated, or the text of a block that came unhydrated. */
  datatype Fee = AsNumber(basis: nat) | AsText(basis: nat)

  /** An active contract: the fields of its payload that carry value, and its index.
      An absent owner is the empty string, an absent toll or fee is the number zero. */
  datatype Contract = Contract(
    id: string,
    signer: Address,
    index: int,
    owner: Address,
    allocatedEgress: Option<nat>,
    remainingEgress: Option<nat>,
    brokerFee: Fee,
    restToll: nat,
    expiry: Option<nat>,
    fragments: seq<Address>,
    paidUpTo: Option<int>)

  datatype Block =
    | Transaction(sender: Address, recipient: Address, amount: nat)
    | StorageContract(contract: Contract)
    | Staking(operator: Address, collateral: nat)
    | Slashing(penalized: Address, burnt: nat)
    | Stake(validator: Address, stake: nat)
    | Unstake(leaver: Address)
    | Other

  datatype Books = Books(
    balances: map<Address, nat>,
    contracts: seq<Contract>,
    validators: map<Address, nat>,
    providers: map<Address, nat>)

  // ---------- The rules ----------

  /** A debit below zero is clamped to zero. */
  function ApplyDelta(balances: map<Address, nat>, a: Address, delta: int): map<Address, nat> {
    var current := At(balances, a) + delta;
    balances[a := if current < 0 then 0 else current]
  }

  function Escrow(c: Contract): nat {
    if c.remainingEgress.Some? then c.remainingEgress.value else c.allocatedEgress.GetOr(0)
  }

  /** One percent unless the contract says otherwise; the number zero says nothing, its text does. */
  function FeeRate(brokerFee: Fee): nat {
    if brokerFee == AsNumber(0) then 100 else brokerFee.basis
  }

  /** Never less than one wei. */
  function FindersFee(escrow: nat, brokerFee: Fee): (fee: nat)
    ensures fee >= 1
  {
    var raw := escrow * FeeRate(brokerFee) / 10000;
    if raw == 0 then 1 else raw
  }

  function Find(contracts: seq<Contract>, id: string): (r: Option<nat>)
    ensures r.Some? ==> r.value < |contracts| && contracts[r.value].id == id
    ensures r.None? ==> forall i :: 0 <= i < |contracts| ==> contracts[i].id != id
  {
    if contracts == [] then None
    else if contracts[0].id == id then Some(0)
    else
      var r := Find(contracts[1..], id);
      if r.Some? then Some(r.value + 1) else None
  }

  /** updateOne with upsert; a replaced document keeps the height of its last payment. */
  function Upsert(contracts: seq<Contract>, c: Contract): seq<Contract> {
    match Find(contracts, c.id)
    case Some(i) => contracts[i := c.(paidUpTo := contracts[i].paidUpTo)]
    case None => contracts + [c.(paidUpTo := None)]
  }

  function ApplyContract(b: Books, c: Contract): Books {
    var contracts := Upsert(b.contracts, c);
    if Escrow(c) > 0 && c.owner != "" then
      var fee := FindersFee(Escrow(c), c.brokerFee);
      var debited := ApplyDelta(b.balances, c.owner, -(Escrow(c) + fee));
      b.(contracts := contracts, balances := ApplyDelta(debited, c.signer, fee))
    else b.(contracts := contracts)
  }

  /** Collateral that would fall below the minimum is dropped altogether. */
  function SlashProviders(providers: map<Address, nat>, a: Address, burnt: nat): map<Address, nat> {
    if a !in providers then providers
    else if providers[a] < burnt + MIN_COLLATERAL then providers - {a}
    else providers[a := providers[a] - burnt]
  }

  function ApplySlash(b: Books, a: Address, burnt: nat): Books {
    if burnt == 0 then b
    else Books(ApplyDelta(b.balances, a, 0 - burnt), b.contracts, b.validators - {a}, SlashProviders(b.providers, a,
        burnt))
  }

  function ApplyTransaction(b: Books, s: Address, r: Address, amount: nat): Books {
    var debited := if s != ZERO_ADDRESS then ApplyDelta(b.balances, s, 0 - amount) else b.balances;
    b.(balances := if r != ZERO_ADDRESS then ApplyDelta(debited, r, amount) else debited)
  }

  function ApplyStaking(b: Books, operator: Address, collateral: nat): Books {
    if collateral == 0 then b
    else b.(balances := ApplyDelta(b.balances, operator, 0 - collateral),
            providers := b.providers[operator := At(b.providers, operator) + collateral])
  }

  function ApplyStake(b: Books, v: Address, amount: nat): Books {
    if amount == 0 then b
    else b.(balances := ApplyDelta(b.balances, v, 0 - amount), validators := b.validators[v := amount])
  }

  function ApplyUnstake(b: Books, v: Address): Books {
    b.(validators := b.validators - {v})
  }

  function ApplyBlock(b: Books, block: Block): Books {
    match block
    case Transaction(s, r, amount) => ApplyTransaction(b, s, r, amount)
    case StorageContract(c) => ApplyContract(b, c)
    case Staking(operator, collateral) => ApplyStaking(b, operator, collateral)
    case Slashing(penalized, burnt) => ApplySlash(b, penalized, burnt)
    case Stake(v, amount) => ApplyStake(b, v, amount)
    case Unstake(v) => ApplyUnstake(b, v)
    case Other => b
  }

  function TollOf(c: Contract): Toll {
    Toll(c.restToll, c.paidUpTo.GetOr(c.index))
  }

  function ContractPayout(c: Contract, height: int): nat {
    if c.expiry.None? || c.fragments == [] then 0 else Payout(TollOf(c), c.expiry.value, height)
  }

  function TickContract(c: Contract, height: int): Contract {
    var p := ContractPayout(c, height);
    if p > 0 then c.(restToll := c.restToll - p, paidUpTo := Some(height)) else c
  }

  function Credit(balances: map<Address, nat>, to: seq<Address>, share: nat): map<Address, nat>
    decreases |to|
  {
    if to == [] then balances else Credit(ApplyDelta(balances, to[0], share), to[1..], share)
  }

  function NodeShare(c: Contract, height: int): nat {
    if c.fragments == [] then 0 else ContractPayout(c, height) / |c.fragments|
  }

  function TickBalances(balances: map<Address, nat>, c: Contract, height: int): map<Address, nat> {
    if NodeShare(c, height) > 0 then Credit(balances, c.fragments, NodeShare(c, height)) else balances
  }

  /** The tick from contract i on. */
  function TickFrom(b: Books, height: int, i: nat): Books
    requires i <= |b.contracts|
    decreases |b.contracts| - i
  {
    if i == |b.contracts| then b
    else
      var c := b.contracts[i];
      TickFrom(
        b.(balances := TickBalances(b.balances, c, height), contracts := b.contracts[i := TickContract(c, height)]),
        height, i + 1)
  }

  function DeductEgress(b: Books, id: string, cost: nat): Books {
    match Find(b.contracts, id)
    case None => b
    case Some(i) =>
      if cost == 0 then b
      else
        var c := b.contracts[i];
        var left := if Escrow(c) < cost then 0 else Escrow(c) - cost;
        var paid := Escrow(c) - left;
        Books(if paid > 0 then ApplyDelta(b.balances, c.signer, paid) else b.balances,
              b.contracts[i := c.(remainingEgress := Some(left))], b.validators, b.providers)
  }

  // ---------- The ledger of value ----------

  /** Egress escrow and toll held by a contract. */
  function Locked(c: Contract): nat {
    Escrow(c) + c.restToll
  }

  function LockedAmounts(contracts: seq<Contract>): (s: seq<nat>)
    ensures |s| == |contracts| && forall i :: 0 <= i < |s| ==> s[i] == Locked(contracts[i])
  {
    seq(|contracts|, i requires 0 <= i < |contracts| => Locked(contracts[i]))
  }

  ghost function Total(b: Books): nat {
    SumMap(b.balances) + SumSeq(LockedAmounts(b.contracts)) + SumMap(b.validators) + SumMap(b.providers)
  }

  /** What an event lets into the books and out of them. `unbacked` is value that enters
      without anyone paying: the uncovered part of a debit and the escrow of a contract
      without an owner. */
  datatype Flow = Flow(minted: nat, tolls: nat, unbacked: nat, burned: nat, forfeited: nat, dust: nat) {
    function Net(): int { minted + tolls + unbacked - burned - forfeited - dust }
    function Plus(f: Flow): Flow {
      Flow(minted + f.minted, tolls + f.tolls, unbacked + f.unbacked,
           burned + f.burned, forfeited + f.forfeited, dust + f.dust)
    }
  }

  const NO_FLOW := Flow(0, 0, 0, 0, 0, 0)

  /** The books changed from b to b' by exactly this flow. */
  ghost predicate Balanced(b: Books, b': Books, flow: Flow) {
    Total(b') == Total(b) + flow.Net()
  }

  function Shortfall(balances: map<Address, nat>, a: Address, amount: nat): nat {
    if At(balances, a) < amount then amount - At(balances, a) else 0
  }

  function ContractFlow(b: Books, c: Contract): Flow {
    var lost := match Find(b.contracts, c.id) case Some(i) => Locked(b.contracts[i]) case None => 0;
    var unbacked :=
      if Escrow(c) == 0 then 0
      else if c.owner == "" then Escrow(c)
      else Shortfall(b.balances, c.owner, Escrow(c) + FindersFee(Escrow(c), c.brokerFee));
    Flow(0, c.restToll, unbacked, 0, lost, 0)
  }

  function CollateralLost(providers: map<Address, nat>, a: Address, burnt: nat): nat {
    if At(providers, a) < burnt + MIN_COLLATERAL then At(providers, a) else burnt
  }

  function SlashFlow(b: Books, a: Address, burnt: nat): Flow {
    if burnt == 0 then NO_FLOW
    else
      var taken := burnt - Shortfall(b.balances, a, burnt);
      Flow(0, 0, 0, 0, taken + At(b.validators, a) + CollateralLost(b.providers, a, burnt), 0)
  }

  function TransactionFlow(b: Books, s: Address, r: Address, amount: nat): Flow {
    if s == ZERO_ADDRESS then (if r == ZERO_ADDRESS then NO_FLOW else Flow(amount, 0, 0, 0, 0, 0))
    else if r == ZERO_ADDRESS then Flow(0, 0, 0, amount - Shortfall(b.balances, s, amount), 0, 0)
    else Flow(0, 0, Shortfall(b.balances, s, amount), 0, 0, 0)
  }

  function StakingFlow(b: Books, operator: Address, collateral: nat): Flow {
    if collateral == 0 then NO_FLOW else Flow(0, 0, Shortfall(b.balances, operator, collateral), 0, 0, 0)
  }

  /** Staking again replaces the old stake, which is then lost. */
  function StakeFlow(b: Books, v: Address, amount: nat): Flow {
    if amount == 0 then NO_FLOW
    else Flow(0, 0, Shortfall(b.balances, v, amount), 0, At(b.validators, v), 0)
  }

  function UnstakeFlow(b: Books, v: Address): Flow {
    Flow(0, 0, 0, 0, At(b.validators, v), 0)
  }

  function FlowOf(b: Books, block: Block): Flow {
    match block
    case Transaction(s, r, amount) => TransactionFlow(b, s, r, amount)
    case StorageContract(c) => ContractFlow(b, c)
    case Staking(operator, collateral) => StakingFlow(b, operator, collateral)
    case Slashing(a, burnt) => SlashFlow(b, a, burnt)
    case Stake(v, amount) => StakeFlow(b, v, amount)
    case Unstake(v) => UnstakeFlow(b, v)
    case Other => NO_FLOW
  }

  /** A block moves value exactly as its flow says. */
  ghost predicate BlockBalanced(b: Books, block: Block) {
    Balanced(b, ApplyBlock(b, block), FlowOf(b, block))
  }

  function Dust(c: Contract, height: int): nat {
    if c.fragments == [] then 0 else ContractPayout(c, height) % |c.fragments|
  }

  function DustFrom(contracts: seq<Contract>, height: int, i: nat): nat
    requires i <= |contracts|
    decreases |contracts| - i
  {
    if i == |contracts| then 0 else Dust(contracts[i], height) + DustFrom(contracts, height, i + 1)
  }

  // ---------- Accounting of one event ----------

  lemma {:induction false} DeltaSum(balances: map<Address, nat>, a: Address, delta: int)
    ensures SumMap(ApplyDelta(balances, a, delta)) ==
            SumMap(balances) + delta + (if delta < 0 then Shortfall(balances, a, -delta) else 0)
  {
    var current := At(balances, a) + delta;
    SumMapUpdate(balances, a, if current < 0 then 0 else current);
  }

  lemma {:induction false} UpsertSum(contracts: seq<Contract>, c: Contract)
    ensures SumSeq(LockedAmounts(Upsert(contracts, c))) ==
            SumSeq(LockedAmounts(contracts)) + Locked(c)
            - (match Find(contracts, c.id) case Some(i) => Locked(contracts[i]) case None => 0)
  {
    match Find(contracts, c.id) {
      case Some(i) =>
        SumSeqUpdate(LockedAmounts(contracts), i, Locked(c));
        assert LockedAmounts(Upsert(contracts, c)) == LockedAmounts(contracts)[i := Locked(c)];
      case None =>
        SumSeqAppend(LockedAmounts(contracts), [Locked(c)]);
        assert LockedAmounts(Upsert(contracts, c)) == LockedAmounts(contracts) + [Locked(c)];
    }
  }

  lemma {:induction false} ContractAccounting(b: Books, c: Contract)
    ensures BlockBalanced(b, StorageContract(c))
  {
    UpsertSum(b.contracts, c);
    if Escrow(c) > 0 && c.owner != "" {
      var fee := FindersFee(Escrow(c), c.brokerFee);
      DeltaSum(b.balances, c.owner, -(Escrow(c) + fee));
      DeltaSum(ApplyDelta(b.balances, c.owner, -(Escrow(c) + fee)), c.signer, fee);
    }
  }

  lemma {:induction false} CollateralSum(providers: map<Address, nat>, a: Address, burnt: nat)
    ensures SumMap(SlashProviders(providers, a, burnt)) + CollateralLost(providers, a, burnt) == SumMap(providers)
  {
    SumMapDrop(providers, a);
    if a in providers && providers[a] >= burnt + MIN_COLLATERAL {
      SumMapUpdate(providers, a, providers[a] - burnt);
    }
  }

  lemma {:induction false} SlashAccounting(b: Books, a: Address, burnt: nat)
    ensures BlockBalanced(b, Slashing(a, burnt))
  {
    if burnt > 0 {
      DeltaSum(b.balances, a, 0 - burnt);
      SumMapDrop(b.validators, a);
      CollateralSum(b.providers, a, burnt);
    }
  }

  lemma {:induction false} TransactionAccounting(b: Books, s: Address, r: Address, amount: nat)
    ensures BlockBalanced(b, Transaction(s, r, amount))
  {
    DeltaSum(b.balances, s, 0 - amount);
    DeltaSum(if s != ZERO_ADDRESS then ApplyDelta(b.balances, s, 0 - amount) else b.balances, r, amount);
  }

  lemma {:induction false} BalanceToProvider(b: Books, balances: map<Address, nat>, providers: map<Address, nat>,
      x: int)
    requires SumMap(balances) + SumMap(providers) == SumMap(b.balances) + SumMap(b.providers) + x
    ensures Total(Books(balances, b.contracts, b.validators, providers)) == Total(b) + x
  {
  }

  lemma {:induction false} StakingTotal(b: Books, operator: Address, collateral: nat)
    requires collateral > 0
    ensures Total(ApplyStaking(b, operator, collateral)) == Total(b) + Shortfall(b.balances, operator, collateral)
  {
    var balances := ApplyDelta(b.balances, operator, 0 - collateral);
    var providers := b.providers[operator := At(b.providers, operator) + collateral];
    DeltaSum(b.balances, operator, 0 - collateral);
    SumMapUpdate(b.providers, operator, At(b.providers, operator) + collateral);
    BalanceToProvider(b, balances, providers, Shortfall(b.balances, operator, collateral));
  }

  lemma {:induction false} StakingAccounting(b: Books, operator: Address, collateral: nat)
    requires collateral > 0
    ensures BlockBalanced(b, Staking(operator, collateral))
  {
    StakingTotal(b, operator, collateral);
  }

  lemma {:induction false} StakeAccounting(b: Books, v: Address, amount: nat)
    ensures BlockBalanced(b, Stake(v, amount))
  {
    DeltaSum(b.balances, v, 0 - amount);
    SumMapUpdate(b.validators, v, amount);
  }

  lemma {:induction false} UnstakeTotal(b: Books, v: Address)
    ensures Total(ApplyUnstake(b, v)) == Total(b) - At(b.validators, v)
  {
    SumMapDrop(b.validators, v);
  }

  lemma {:induction false} UnstakeAccounting(b: Books, v: Address)
    ensures BlockBalanced(b, Unstake(v))
  {
    UnstakeTotal(b, v);
  }

  lemma {:induction false} NothingAccounting(b: Books, block: Block)
    requires block == Other || (block.Staking? && block.collateral == 0)
    ensures BlockBalanced(b, block)
  {
  }

  /** Every block moves value exactly as its flow says, whatever the books. */
  lemma {:induction false} BlockAccounting(b: Books, block: Block)
    ensures BlockBalanced(b, block)
  {
    match block {
      case Transaction(s, r, amount) => TransactionAccounting(b, s, r, amount);
      case StorageContract(c) => ContractAccounting(b, c);
      case Slashing(a, burnt) => SlashAccounting(b, a, burnt);
      case Staking(operator, collateral) =>
        if collateral > 0 {
          StakingAccounting(b, operator, collateral);
        } else {
          NothingAccounting(b, block);
        }
      case Stake(v, amount) => StakeAccounting(b, v, amount);
      case Unstake(v) => UnstakeAccounting(b, v);
      case Other => NothingAccounting(b, block);
    }
  }

  lemma {:induction false} CreditSum(balances: map<Address, nat>, to: seq<Address>, share: nat)
    ensures SumMap(Credit(balances, to, share)) == SumMap(balances) + |to| * share
    decreases |to|
  {
    if to == [] {
    } else {
      DeltaSum(balances, to[0], share);
      CreditSum(ApplyDelta(balances, to[0], share), to[1..], share);
      MulStep(|to|, share);
    }
  }

  lemma {:induction false} TickContractSum(balances: map<Address, nat>, c: Contract, height: int)
    ensures SumMap(TickBalances(balances, c, height)) + Locked(TickContract(c, height)) + Dust(c, height)
            == SumMap(balances) + Locked(c)
  {
    if c.fragments != [] {
      var p, n := ContractPayout(c, height), |c.fragments|;
      assert p == p / n * n + p % n;
      CreditSum(balances, c.fragments, p / n);
    }
  }

  lemma {:induction false} DustUnaffected(a: seq<Contract>, b: seq<Contract>, height: int, i: nat)
    requires |a| == |b| && i <= |a| && a[i..] == b[i..]
    ensures DustFrom(a, height, i) == DustFrom(b, height, i)
    decreases |a| - i
  {
    if i < |a| {
      assert a[i] == a[i..][0] && b[i] == b[i..][0];
      assert a[i + 1..] == a[i..][1..] && b[i + 1..] == b[i..][1..];
      DustUnaffected(a, b, height, i + 1);
    }
  }

  /** A tick only moves toll to the fragment holders, and loses the remainders of its divisions. */
  lemma {:induction false} TickAccounting(b: Books, height: int, i: nat)
    requires i <= |b.contracts|
    ensures Total(TickFrom(b, height, i)) + DustFrom(b.contracts, height, i) == Total(b)
    decreases |b.contracts| - i
  {
    if i < |b.contracts| {
      var c := b.contracts[i];
      var ticked := b.contracts[i := TickContract(c, height)];
      var b' := b.(balances := TickBalances(b.balances, c, height), contracts := ticked);
      TickContractSum(b.balances, c, height);
      SumSeqUpdate(LockedAmounts(b.contracts), i, Locked(TickContract(c, height)));
      assert LockedAmounts(ticked) == LockedAmounts(b.contracts)[i := Locked(TickContract(c, height))];
      TickAccounting(b', height, i + 1);
      DustUnaffected(b.contracts, ticked, height, i + 1);
    }
  }

  /** Per paying contract the dust stays below its number of fragments. */
  lemma {:induction false} DustIsSmall(c: Contract, height: int)
    ensures Dust(c, height) > 0 ==> ContractPayout(c, height) > 0 && Dust(c, height) < |c.fragments|
  {
  }

  lemma {:induction false} ChargeContract(contracts: seq<Contract>, i: nat, left: nat)
    requires i < |contracts| && left <= Escrow(contracts[i])
    ensures SumSeq(LockedAmounts(contracts[i := contracts[i].(remainingEgress := Some(left))]))
            == SumSeq(LockedAmounts(contracts)) - (Escrow(contracts[i]) - left)
  {
    var c' := contracts[i].(remainingEgress := Some(left));
    SumSeqUpdate(LockedAmounts(contracts), i, Locked(c'));
    assert LockedAmounts(contracts[i := c']) == LockedAmounts(contracts)[i := Locked(c')];
  }

  /** An egress charge hands escrow to the signer and neither makes nor loses value. */
  lemma {:induction false} EgressAccounting(b: Books, id: string, cost: nat)
    ensures Total(DeductEgress(b, id, cost)) == Total(b)
  {
    if Find(b.contracts, id).Some? && cost > 0 {
      var i := Find(b.contracts, id).value;
      var c := b.contracts[i];
      var left := if Escrow(c) < cost then 0 else Escrow(c) - cost;
      DeltaSum(b.balances, c.signer, Escrow(c) - left);
      ChargeContract(b.contracts, i, left);
    }
  }

  // ---------- Accounting of runs ----------

  /** blockAdded runs the block's effect and then the tick at its height. */
  datatype Event = Added(block: Block, height: int) | Egress(id: string, cost: nat)

  function Apply(b: Books, e: Event): Books {
    match e
    case Added(block, height) => TickFrom(ApplyBlock(b, block), height, 0)
    case Egress(id, cost) => DeductEgress(b, id, cost)
  }

  function EventFlow(b: Books, e: Event): Flow {
    match e
    case Added(block, height) =>
      FlowOf(b, block).Plus(Flow(0, 0, 0, 0, 0, DustFrom(ApplyBlock(b, block).contracts, height, 0)))
    case Egress(_, _) => NO_FLOW
  }

  function RunBooks(b: Books, events: seq<Event>): Books
    decreases |events|
  {
    if events == [] then b else RunBooks(Apply(b, events[0]), events[1..])
  }

  function RunFlow(b: Books, events: seq<Event>): Flow
    decreases |events|
  {
    if events == [] then NO_FLOW else EventFlow(b, events[0]).Plus(RunFlow(Apply(b, events[0]), events[1..]))
  }

  /** Over any run, the books change by exactly what flowed in and out. */
  lemma {:induction false} RunAccounting(b: Books, events: seq<Event>)
    ensures Balanced(b, RunBooks(b, events), RunFlow(b, events))
    decreases |events|
  {
    if events == [] {
    } else {
      match events[0] {
        case Added(block, height) =>
          BlockAccounting(b, block);
          TickAccounting(ApplyBlock(b, block), height, 0);
        case Egress(id, cost) =>
          EgressAccounting(b, id, cost);
      }
      RunAccounting(Apply(b, events[0]), events[1..]);
    }
  }

  /** The debit of a block finds its whole amount, and a contract with escrow names an owner. */
  predicate Covered(b: Books, block: Block) {
    match block
    case Transaction(s, r, amount) => s != ZERO_ADDRESS && r != ZERO_ADDRESS ==> At(b.balances, s) >= amount
    case StorageContract(c) =>
      Escrow(c) > 0 ==> c.owner != "" && At(b.balances, c.owner) >= Escrow(c) + FindersFee(Escrow(c), c.brokerFee)
    case Staking(operator, collateral) => At(b.balances, operator) >= collateral
    case Stake(v, amount) => At(b.balances, v) >= amount
    case _ => true
  }

  ghost predicate AllCovered(b: Books, events: seq<Event>)
    decreases |events|
  {
    events != [] ==>
      && (events[0].Added? ==> Covered(b, events[0].block))
      && AllCovered(Apply(b, events[0]), events[1..])
  }

  /** No value appears from nowhere in a run exactly when every debit was covered. */
  lemma {:induction false} UnbackedOnlyWhenUncovered(b: Books, events: seq<Event>)
    ensures RunFlow(b, events).unbacked == 0 <==> AllCovered(b, events)
    decreases |events|
  {
    if events == [] {
    } else {
      if events[0].Added? {
        assert FlowOf(b, events[0].block).unbacked == 0 <==> Covered(b, events[0].block);
      }
      UnbackedOnlyWhenUncovered(Apply(b, events[0]), events[1..]);
    }
  }

  // ---------- The admission reserve ----------

  /** handlePendingBlock asks for 105% of the allocated escrow. */
  function Reserve(escrow: nat): nat {
    escrow * 105 / 100
  }

  function DebitOf(escrow: nat, brokerFee: Fee): nat {
    escrow + FindersFee(escrow, brokerFee)
  }

  lemma {:induction false} ReserveInTwentieths(escrow: nat)
    ensures Reserve(escrow) == escrow + escrow / 20
  {
  }

  lemma {:induction false} LowFeeIsReserved(escrow: nat, brokerFee: Fee)
    requires escrow >= 20 && brokerFee.basis <= 500
    ensures DebitOf(escrow, brokerFee) <= Reserve(escrow)
  {
    MulMonotone(escrow, FeeRate(brokerFee), 500);
    assert escrow * 500 / 10000 == escrow / 20;
  }

  /** Up to 500 basis points the reserve pays for escrows of 20 wei and more; above, and up to
      the 1500 that admission allows, it does not pay for all of them. */
  lemma {:induction false} ReserveCoversFees(brokerFee: Fee)
    ensures (forall escrow: nat :: escrow >= 20 ==> DebitOf(escrow, brokerFee) <= Reserve(escrow))
            <==> brokerFee.basis <= 500
  {
    if brokerFee.basis <= 500 {
      forall escrow: nat | escrow >= 20
        ensures DebitOf(escrow, brokerFee) <= Reserve(escrow)
      {
        LowFeeIsReserved(escrow, brokerFee);
      }
    } else {
      ReserveInTwentieths(10000);
      assert FindersFee(10000, brokerFee) == brokerFee.basis;
      assert DebitOf(10000, brokerFee) > Reserve(10000);
    }
  }

  /** Below 20 wei the reserve holds no fee at all. */
  lemma {:induction false} SmallEscrowIsUnreserved(escrow: nat, brokerFee: Fee)
    requires escrow < 20
    ensures DebitOf(escrow, brokerFee) > Reserve(escrow)
  {
  }

  // ---------- Committed and synced ----------

  /** A node that commits a contract has hydrated it; one that syncs it has not. */
  function Hydrated(c: Contract): Contract {
    c.(brokerFee := AsNumber(c.brokerFee.basis))
  }

  lemma {:induction false} SameFee(escrow: nat, basis: nat)
    ensures FindersFee(escrow, AsText(basis)) == FindersFee(escrow, AsNumber(basis)) <==> basis != 0 || escrow < 200
  {
    if basis == 0 {
      assert escrow * 100 / 10000 == escrow / 100;
    }
  }

  /** Whoever pays a fee to itself out of enough funds is not changed by it. */
  predicate PaysItself(b: Books, c: Contract) {
    c.owner == c.signer && At(b.balances, c.owner) >= DebitOf(Escrow(c), Hydrated(c).brokerFee)
  }

  /** What a contract leaves of its owner's and its signer's funds. */
  lemma {:induction false} ChargeOfContract(b: Books, c: Contract)
    requires Escrow(c) > 0 && c.owner != ""
    ensures var debit, fee := DebitOf(Escrow(c), c.brokerFee), FindersFee(Escrow(c), c.brokerFee);
            var left := if At(b.balances, c.owner) < debit then 0 else At(b.balances, c.owner) - debit;
            var balances := ApplyContract(b, c).balances;
            && c.signer in balances
            && balances[c.signer] == (if c.owner == c.signer then left else At(b.balances, c.signer)) + fee
            && (c.owner == c.signer ==> balances == b.balances[c.owner := left + fee])
  {
  }

  /** Committing and syncing a contract leave the same balances, unless its fee is an explicit zero
      that anyone is charged for. */
  lemma {:induction false} SyncingChargesTheSame(b: Books, c: Contract)
    ensures ApplyContract(b, c).balances == ApplyContract(b, Hydrated(c)).balances
            <==> c.brokerFee != AsText(0) || Escrow(c) < 200 || c.owner == "" || PaysItself(b, c)
  {
    var hydrated := Hydrated(c);
    SameFee(Escrow(c), c.brokerFee.basis);
    if Escrow(c) == 0 || c.owner == "" {
      assert ApplyContract(b, c).balances == b.balances == ApplyContract(b, hydrated).balances;
    } else {
      ChargeOfContract(b, c);
      ChargeOfContract(b, hydrated);
      if FindersFee(Escrow(c), c.brokerFee) == FindersFee(Escrow(c), hydrated.brokerFee) {
        assert ApplyContract(b, c).balances == ApplyContract(b, hydrated).balances;
      } else {
        assert FindersFee(Escrow(c), c.brokerFee) == 1 < FindersFee(Escrow(c), hydrated.brokerFee);
      }
    }
  }
}
