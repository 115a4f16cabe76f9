/** crypto_utils/EIP712Types.ts property by property: for each type of block, which properties of its
    payload hydrating turns into BigInts, and which text normalising signs for each. */
module PayloadFields {
  import opened CanonicalText
  import opened Json
  import opened Platform
  import opened Wrappers

  // ---------- One value ----------

  /** BigInts stay, decimal text becomes the BigInt it denotes, numbers and null are refused. */
  lemma {:induction false} StrictHydration(v: Json, n: int)
    ensures v == Big(n) ==> StrictHydrate(v) == Some(v)
    ensures v == Str(Decimal(n)) ==> StrictHydrate(v) == Some(Big(n))
    ensures v.Number? || v.Null? ==> StrictHydrate(v) == None
    ensures StrictHydrate(v).Some? ==> StrictHydrate(v).value.Big?
  {
    ParsePrint(n);
  }

  predicate Readable(fields: Fields, key: string) {
    Get(fields, key).Some? ==> StrictHydrate(Get(fields, key).value).Some?
  }

  /** A property once hydrated; an absent one stays absent. */
  function ReadAt(fields: Fields, key: string): Option<Json> {
    match Get(fields, key)
    case None => None
    case Some(v) => StrictHydrate(v)
  }

  predicate SameKeys(p: Fields, q: Fields) {
    |p| == |q| && forall i :: 0 <= i < |p| ==> p[i].key == q[i].key
  }

  lemma {:induction false} SetKeepsKeys(fields: Fields, key: string, v: Json)
    requires Get(fields, key).Some?
    ensures SameKeys(fields, Set(fields, key, v))
  {
    if fields[0].key == key {
    } else {
      SetKeepsKeys(fields[1..], key, v);
      assert forall i :: 0 < i < |fields| ==> fields[i] == fields[1..][i - 1];
    }
  }

  // ---------- Listed properties ----------

  lemma {:induction false} OneKeyHydrated(fields: Fields, key: string, other: string)
    requires ReadAt(fields, key).Some?
    ensures var r := Set(fields, key, ReadAt(fields, key).value);
            && SameKeys(fields, r)
            && Get(r, other) == if other == key then ReadAt(fields, key) else Get(fields, other)
  {
    GetSet(fields, key, ReadAt(fields, key).value, other);
    SetKeepsKeys(fields, key, ReadAt(fields, key).value);
  }

  /** The listed properties are hydrated, all or none, and the others stay. */
  lemma {:induction false} KeysHydrated(fields: Fields, keys: seq<string>, key: string)
    requires Distinct(keys)
    ensures HydrateKeys(fields, keys).Some? <==> forall i :: 0 <= i < |keys| ==> Readable(fields, keys[i])
    ensures HydrateKeys(fields, keys).Some? ==>
              var r := HydrateKeys(fields, keys).value;
              SameKeys(fields, r) && Get(r, key) == if key in keys then ReadAt(fields, key) else Get(fields, key)
    decreases |keys|
  {
    if keys == [] {
    } else {
      var first, rest := keys[0], keys[1..];
      assert keys == [first] + rest;
      var next := if ReadAt(fields, first).Some? then Set(fields, first, ReadAt(fields, first).value) else fields;
      if ReadAt(fields, first).Some? {
        OneKeyHydrated(fields, first, key);
        forall i | 0 <= i < |rest| ensures Readable(next, rest[i]) <==> Readable(fields, rest[i]) {
          OneKeyHydrated(fields, first, rest[i]);
        }
      }
      assert forall i :: 0 <= i < |rest| ==> rest[i] == keys[i + 1];
      KeysHydrated(next, rest, key);
    }
  }

  predicate ItemsReadable(items: seq<Json>, keys: seq<string>) {
    forall i, k :: 0 <= i < |items| && items[i].Obj? && 0 <= k < |keys| ==> Readable(items[i].fields, keys[k])
  }

  /** In an object the named properties are hydrated and the others stay. */
  predicate ItemHydrated(v: Json, w: Json, keys: seq<string>, key: string) {
    if v.Obj? then
      && w.Obj? && SameKeys(v.fields, w.fields)
      && Get(w.fields, key) == if key in keys then ReadAt(v.fields, key) else Get(v.fields, key)
    else w == v
  }

  lemma {:induction false} ItemsReadableSplit(items: seq<Json>, keys: seq<string>)
    requires items != []
    ensures ItemsReadable(items, keys) <==> ItemsReadable(items[..1], keys) && ItemsReadable(items[1..], keys)
  {
    var first, rest := items[..1], items[1..];
    assert items == first + rest;
    assert forall i :: 0 < i < |items| ==> items[i] == rest[i - 1];
    assert forall i :: 0 <= i < |rest| ==> rest[i] == items[i + 1];
  }

  lemma {:induction false} FirstItemHydrated(items: seq<Json>, keys: seq<string>, key: string)
    requires Distinct(keys) && items != []
    ensures HydrateItems(items, keys).Some? <==>
              ItemsReadable(items[..1], keys) && HydrateItems(items[1..], keys).Some?
    ensures HydrateItems(items, keys).Some? ==>
              var r := HydrateItems(items, keys).value;
              r != [] && r[1..] == HydrateItems(items[1..], keys).value && ItemHydrated(items[0], r[0], keys, key)
  {
    if items[0].Obj? {
      KeysHydrated(items[0].fields, keys, key);
    }
  }

  /** The same in each object of an array. */
  lemma {:induction false} ItemsHydrated(items: seq<Json>, keys: seq<string>, n: nat, key: string)
    requires Distinct(keys)
    ensures HydrateItems(items, keys).Some? <==> ItemsReadable(items, keys)
    ensures HydrateItems(items, keys).Some? ==> |HydrateItems(items, keys).value| == |items|
    ensures HydrateItems(items, keys).Some? && n < |items| ==>
              ItemHydrated(items[n], HydrateItems(items, keys).value[n], keys, key)
  {
    if items == [] {
    } else {
      ItemsReadableSplit(items, keys);
      FirstItemHydrated(items, keys, key);
      ItemsHydrated(items[1..], keys, if n == 0 then 0 else n - 1, key);
      if HydrateItems(items, keys).Some? && 0 < n < |items| {
        var r := HydrateItems(items, keys).value;
        assert items[n] == items[1..][n - 1] && r[n] == r[1..][n - 1];
      }
    }
  }

  // ---------- Slots ----------

  predicate SlotReadable(payload: Fields, slot: Slot) {
    Get(payload, slot.key).Some? ==> HydrateValue(Get(payload, slot.key).value, slot).Some?
  }

  function SlotValue(payload: Fields, slot: Slot): Option<Json> {
    match Get(payload, slot.key)
    case None => None
    case Some(v) => HydrateValue(v, slot)
  }

  lemma {:induction false} OneSlotHydrated(payload: Fields, slot: Slot, key: string)
    ensures HydrateSlot(payload, slot).Some? <==> SlotReadable(payload, slot)
    ensures HydrateSlot(payload, slot).Some? ==>
              var r := HydrateSlot(payload, slot).value;
              && SameKeys(payload, r)
              && Get(r, key) == if key == slot.key then SlotValue(payload, slot) else Get(payload, key)
  {
    if Get(payload, slot.key).Some? && SlotReadable(payload, slot) {
      GetSet(payload, slot.key, SlotValue(payload, slot).value, key);
      SetKeepsKeys(payload, slot.key, SlotValue(payload, slot).value);
    }
  }

  lemma {:induction false} OtherSlot(payload: Fields, slot: Slot, other: Slot)
    requires slot.key != other.key && HydrateSlot(payload, slot).Some?
    ensures SlotReadable(HydrateSlot(payload, slot).value, other) <==> SlotReadable(payload, other)
    ensures SlotValue(HydrateSlot(payload, slot).value, other) == SlotValue(payload, other)
  {
    OneSlotHydrated(payload, slot, other.key);
  }

  lemma {:induction false} SlotsHydrated(payload: Fields, slots: seq<Slot>, key: string)
    requires DistinctSlots(slots)
    ensures HydrateSlots(payload, slots).Some? <==> forall i :: 0 <= i < |slots| ==> SlotReadable(payload, slots[i])
    ensures HydrateSlots(payload, slots).Some? ==>
              var r := HydrateSlots(payload, slots).value;
              && SameKeys(payload, r)
              && (forall i :: 0 <= i < |slots| && slots[i].key == key ==> Get(r, key) == SlotValue(payload, slots[i]))
              && ((forall i :: 0 <= i < |slots| ==> slots[i].key != key) ==> Get(r, key) == Get(payload, key))
    decreases |slots|
  {
    if slots == [] {
    } else {
      var slot, rest := slots[0], slots[1..];
      OneSlotHydrated(payload, slot, key);
      assert forall i :: 0 <= i < |rest| ==> rest[i] == slots[i + 1];
      if SlotReadable(payload, slot) {
        var next := HydrateSlot(payload, slot).value;
        SlotsHydrated(next, rest, key);
        forall i | 0 <= i < |rest|
          ensures SlotReadable(next, rest[i]) <==> SlotReadable(payload, rest[i])
          ensures SlotValue(next, rest[i]) == SlotValue(payload, rest[i])
        {
          OtherSlot(payload, slot, rest[i]);
        }
        assert forall i :: 0 < i < |slots| ==> slots[i] == rest[i - 1];
      }
    }
  }

  // ---------- Each type ----------

  /** Exactly the named properties are hydrated, and that fails exactly if one of them cannot be read. */
  ghost predicate HydratesOnly(r: Option<Fields>, payload: Fields, names: seq<string>) {
    && (r.Some? <==> forall i :: 0 <= i < |names| ==> Readable(payload, names[i]))
    && (r.Some? ==>
          && SameKeys(payload, r.value)
          && forall key :: Get(r.value, key) == if key in names then ReadAt(payload, key) else Get(payload, key))
  }

  predicate ArePlain(slots: seq<Slot>, names: seq<string>) {
    |slots| == |names| && forall i :: 0 <= i < |slots| ==> slots[i] == Plain(names[i])
  }

  lemma {:induction false} PlainHydrated(payload: Fields, slots: seq<Slot>, names: seq<string>)
    requires DistinctSlots(slots) && ArePlain(slots, names)
    ensures HydratesOnly(HydrateSlots(payload, slots), payload, names)
  {
    SlotsHydrated(payload, slots, "");
    assert forall i :: 0 <= i < |slots| ==> (SlotReadable(payload, slots[i]) <==> Readable(payload, names[i]));
    var r := HydrateSlots(payload, slots);
    if r.Some? {
      forall key ensures Get(r.value, key) == if key in names then ReadAt(payload, key) else Get(payload, key) {
        SlotsHydrated(payload, slots, key);
        if key in names {
          var i :| 0 <= i < |names| && names[i] == key;
          assert slots[i].key == key;
        }
      }
    }
  }

  /** All types but one list properties of the payload itself. */
  lemma {:induction false} TransactionHydrates(payload: Fields)
    ensures HydratesOnly(Hydrate(TRANSACTION, payload), payload, ["amount"])
  {
    SlotsAreDistinct(TRANSACTION);
    PlainHydrated(payload, Slots(TRANSACTION), ["amount"]);
  }

  lemma {:induction false} StakingHydrates(payload: Fields)
    ensures HydratesOnly(Hydrate(STAKING_CONTRACT, payload), payload, ["collateralAmount", "minEpochTimelineDays"])
  {
    SlotsAreDistinct(STAKING_CONTRACT);
    PlainHydrated(payload, Slots(STAKING_CONTRACT), ["collateralAmount", "minEpochTimelineDays"]);
  }

  lemma {:induction false} SlashingHydrates(payload: Fields)
    ensures HydratesOnly(Hydrate(SLASHING_TRANSACTION, payload), payload, ["burntAmount"])
  {
    SlotsAreDistinct(SLASHING_TRANSACTION);
    PlainHydrated(payload, Slots(SLASHING_TRANSACTION), ["burntAmount"]);
  }

  lemma {:induction false} RegistrationHydrates(payload: Fields)
    ensures HydratesOnly(Hydrate(VALIDATOR_REGISTRATION, payload), payload, ["stakeAmount"])
  {
    SlotsAreDistinct(VALIDATOR_REGISTRATION);
    PlainHydrated(payload, Slots(VALIDATOR_REGISTRATION), ["stakeAmount"]);
  }

  lemma {:induction false} CheckpointHydrates(payload: Fields)
    ensures HydratesOnly(Hydrate(CHECKPOINT, payload), payload, ["epochIndex"])
  {
    SlotsAreDistinct(CHECKPOINT);
    PlainHydrated(payload, Slots(CHECKPOINT), ["epochIndex"]);
  }

  lemma {:induction false} RenewalHydrates(payload: Fields)
    ensures HydratesOnly(Hydrate(CONTRACT_RENEWAL, payload), payload, ["additionalEscrow", "additionalBlocks"])
  {
    SlotsAreDistinct(CONTRACT_RENEWAL);
    PlainHydrated(payload, Slots(CONTRACT_RENEWAL), ["additionalEscrow", "additionalBlocks"]);
  }

  const AMOUNTS: seq<string> := ["allocatedEgressEscrow", "remainingEgressEscrow", "allocatedRestToll",
                                 "expirationBlockHeight", "brokerFeePercentage"]

  const ERASURE_NUMBERS: seq<string> := ["n", "k", "originalSize"]

  /** Whether the erasure parameters, if they are an object, can be read. */
  predicate ErasureReadable(payload: Fields) {
    match Get(payload, "erasureParams")
    case Some(Obj(fields)) => forall i :: 0 <= i < |ERASURE_NUMBERS| ==> Readable(fields, ERASURE_NUMBERS[i])
    case _ => true
  }

  /** Whether the shard indices of all fragments can be read. */
  predicate FragmentsReadable(payload: Fields) {
    match Get(payload, "fragmentMap")
    case Some(Arr(items)) => forall i :: 0 <= i < |items| && items[i].Obj? ==> Readable(items[i].fields, "shardIndex")
    case _ => true
  }

  ghost predicate ObjectHydrated(v: Json, w: Json, names: seq<string>) {
    forall key :: ItemHydrated(v, w, names, key)
  }

  ghost predicate ErasureHydrated(before: Option<Json>, after: Option<Json>) {
    match before
    case None => after == None
    case Some(v) => after.Some? && ObjectHydrated(v, after.value, ERASURE_NUMBERS)
  }

  ghost predicate FragmentsHydrated(before: Option<Json>, after: Option<Json>) {
    match before
    case Some(Arr(items)) =>
      && after.Some? && after.value.Arr? && |after.value.items| == |items|
      && forall i :: 0 <= i < |items| ==> ObjectHydrated(items[i], after.value.items[i], ["shardIndex"])
    case _ => after == before
  }

  lemma {:induction false} ObjectKeysHydrate(fields: Fields, keys: seq<string>)
    requires Distinct(keys)
    ensures HydrateKeys(fields, keys).Some? <==> forall i :: 0 <= i < |keys| ==> Readable(fields, keys[i])
    ensures HydrateKeys(fields, keys).Some? ==>
              ObjectHydrated(Obj(fields), Obj(HydrateKeys(fields, keys).value), keys)
  {
    KeysHydrated(fields, keys, "");
    if HydrateKeys(fields, keys).Some? {
      var r := HydrateKeys(fields, keys).value;
      forall key ensures ItemHydrated(Obj(fields), Obj(r), keys, key) {
        KeysHydrated(fields, keys, key);
      }
    }
  }

  lemma {:induction false} ErasureSlot(payload: Fields)
    ensures var slot := Inside("erasureParams", ["n", "k", "originalSize"]);
            && (SlotReadable(payload, slot) <==> ErasureReadable(payload))
            && (SlotReadable(payload, slot) ==>
                  ErasureHydrated(Get(payload, "erasureParams"), SlotValue(payload, slot)))
  {
    match Get(payload, "erasureParams") {
      case Some(Obj(fields)) => ObjectKeysHydrate(fields, ERASURE_NUMBERS);
      case _ =>
    }
  }

  lemma {:induction false} ShardIndicesHydrate(items: seq<Json>)
    ensures HydrateItems(items, ["shardIndex"]).Some? <==>
              forall i :: 0 <= i < |items| && items[i].Obj? ==> Readable(items[i].fields, "shardIndex")
    ensures HydrateItems(items, ["shardIndex"]).Some? ==>
              var r := HydrateItems(items, ["shardIndex"]).value;
              |r| == |items| && forall i :: 0 <= i < |items| ==> ObjectHydrated(items[i], r[i], ["shardIndex"])
  {
    var keys := ["shardIndex"];
    ItemsHydrated(items, keys, 0, "");
    assert keys[0] == "shardIndex";
    if HydrateItems(items, keys).Some? {
      var r := HydrateItems(items, keys).value;
      forall n, key | 0 <= n < |items| ensures ItemHydrated(items[n], r[n], keys, key) {
        ItemsHydrated(items, keys, n, key);
      }
    }
  }

  lemma {:induction false} FragmentSlotHydrates(payload: Fields)
    ensures var slot := Each("fragmentMap", ["shardIndex"]);
            && (SlotReadable(payload, slot) <==> FragmentsReadable(payload))
            && (SlotReadable(payload, slot) ==>
                  FragmentsHydrated(Get(payload, "fragmentMap"), SlotValue(payload, slot)))
  {
    match Get(payload, "fragmentMap") {
      case Some(Arr(items)) => ShardIndicesHydrate(items);
      case _ =>
    }
  }

  lemma {:induction false} ContractSlots(i: nat)
    requires i < 7
    ensures |Slots(STORAGE_CONTRACT)| == 7
    ensures Slots(STORAGE_CONTRACT)[i] ==
            if i < 5 then Plain(AMOUNTS[i])
            else if i == 5 then Inside("erasureParams", ["n", "k", "originalSize"])
            else Each("fragmentMap", ["shardIndex"])
  {
  }

  /** A storage contract lists five amounts, three numbers of its erasure parameters and the shard
      index of each fragment; nothing else changes. */
  ghost predicate ContractHydrated(payload: Fields, r: Fields) {
    && SameKeys(payload, r)
    && (forall key :: key !in AMOUNTS + ["erasureParams", "fragmentMap"] ==> Get(r, key) == Get(payload, key))
    && (forall i :: 0 <= i < |AMOUNTS| ==> Get(r, AMOUNTS[i]) == ReadAt(payload, AMOUNTS[i]))
    && ErasureHydrated(Get(payload, "erasureParams"), Get(r, "erasureParams"))
    && FragmentsHydrated(Get(payload, "fragmentMap"), Get(r, "fragmentMap"))
  }

  lemma {:induction false} ContractReads(payload: Fields)
    ensures Hydrate(STORAGE_CONTRACT, payload).Some? <==>
              && (forall i :: 0 <= i < |AMOUNTS| ==> Readable(payload, AMOUNTS[i]))
              && ErasureReadable(payload) && FragmentsReadable(payload)
  {
    var slots := Slots(STORAGE_CONTRACT);
    SlotsAreDistinct(STORAGE_CONTRACT);
    SlotsHydrated(payload, slots, "");
    ErasureSlot(payload);
    FragmentSlotHydrates(payload);
    forall i | 0 <= i < 7 {
      ContractSlots(i);
    }
    forall i | 0 <= i < 5 ensures SlotReadable(payload, slots[i]) <==> Readable(payload, AMOUNTS[i]) {
    }
    assert SlotReadable(payload, slots[5]) <==> ErasureReadable(payload);
    assert SlotReadable(payload, slots[6]) <==> FragmentsReadable(payload);
  }

  lemma {:induction false} ContractAt(payload: Fields, r: Fields, i: nat)
    requires i < 7 && Hydrate(STORAGE_CONTRACT, payload) == Some(r)
    ensures Get(r, Slots(STORAGE_CONTRACT)[i].key) == SlotValue(payload, Slots(STORAGE_CONTRACT)[i])
  {
    SlotsAreDistinct(STORAGE_CONTRACT);
    ContractSlots(i);
    SlotsHydrated(payload, Slots(STORAGE_CONTRACT), Slots(STORAGE_CONTRACT)[i].key);
  }

  lemma {:induction false} ContractElsewhere(payload: Fields, r: Fields, key: string)
    requires Hydrate(STORAGE_CONTRACT, payload) == Some(r)
    requires key !in AMOUNTS + ["erasureParams", "fragmentMap"]
    ensures Get(r, key) == Get(payload, key) && SameKeys(payload, r)
  {
    var slots := Slots(STORAGE_CONTRACT);
    SlotsAreDistinct(STORAGE_CONTRACT);
    forall i | 0 <= i < |slots| ensures slots[i].key != key {
      ContractSlots(i);
      assert slots[i].key == (AMOUNTS + ["erasureParams", "fragmentMap"])[i];
    }
    SlotsHydrated(payload, slots, key);
  }

  lemma {:induction false} AmountHydrates(payload: Fields, r: Fields, i: nat)
    requires i < |AMOUNTS| && Hydrate(STORAGE_CONTRACT, payload) == Some(r)
    ensures Get(r, AMOUNTS[i]) == ReadAt(payload, AMOUNTS[i])
  {
    ContractSlots(i);
    ContractAt(payload, r, i);
  }

  lemma {:induction false} NestedHydrate(payload: Fields, r: Fields)
    requires Hydrate(STORAGE_CONTRACT, payload) == Some(r)
    ensures ErasureHydrated(Get(payload, "erasureParams"), Get(r, "erasureParams"))
    ensures FragmentsHydrated(Get(payload, "fragmentMap"), Get(r, "fragmentMap"))
  {
    ContractReads(payload);
    ErasureSlot(payload);
    FragmentSlotHydrates(payload);
    ContractSlots(5);
    ContractAt(payload, r, 5);
    ContractSlots(6);
    ContractAt(payload, r, 6);
  }

  lemma {:induction false} ContractHydrates(payload: Fields, r: Fields)
    requires Hydrate(STORAGE_CONTRACT, payload) == Some(r)
    ensures ContractHydrated(payload, r)
  {
    NestedHydrate(payload, r);
    forall i | 0 <= i < |AMOUNTS| ensures Get(r, AMOUNTS[i]) == ReadAt(payload, AMOUNTS[i]) {
      AmountHydrates(payload, r, i);
    }
    forall key | key !in AMOUNTS + ["erasureParams", "fragmentMap"] ensures Get(r, key) == Get(payload, key) {
      ContractElsewhere(payload, r, key);
    }
    SlotsAreDistinct(STORAGE_CONTRACT);
    SlotsHydrated(payload, Slots(STORAGE_CONTRACT), "");
  }

  // ---------- What is signed ----------

  /** What one assignment makes of its property. */
  function RuleEffect(v: Option<Json>, rule: Rule): Option<Json> {
    match rule
    case Numeric(_) => Some(Str(if Truthy(v) then PrimitiveText(v.value) else "0"))
    case Default(_, value) => Some(if Truthy(v) then v.value else value)
    case DefaultInEach(_, inner, value) =>
      match v
      case Some(Arr(items)) => Some(Arr(FillItems(items, inner, value)))
      case _ => v
  }

  lemma {:induction false} RuleAt(payload: Fields, rule: Rule, key: string)
    ensures Get(ApplyRule(payload, rule), key) ==
            if key == rule.key then RuleEffect(Get(payload, key), rule) else Get(payload, key)
  {
    if RuleEffect(Get(payload, rule.key), rule).Some? {
      GetSet(payload, rule.key, RuleEffect(Get(payload, rule.key), rule).value, key);
    }
  }

  function Effects(v: Option<Json>, rules: seq<Rule>, key: string): Option<Json>
    decreases |rules|
  {
    if rules == [] then v
    else Effects(if rules[0].key == key then RuleEffect(v, rules[0]) else v, rules[1..], key)
  }

  lemma {:induction false} RulesAt(payload: Fields, rules: seq<Rule>, key: string)
    ensures Get(ApplyRules(payload, rules), key) == Effects(Get(payload, key), rules, key)
    decreases |rules|
  {
    if rules == [] {
    } else {
      RuleAt(payload, rules[0], key);
      RulesAt(ApplyRule(payload, rules[0]), rules[1..], key);
    }
  }

  lemma {:induction false} NoEffect(v: Option<Json>, rules: seq<Rule>, key: string)
    requires forall i :: 0 <= i < |rules| ==> rules[i].key != key
    ensures Effects(v, rules, key) == v
    decreases |rules|
  {
    if rules == [] {
    } else {
      NoEffect(v, rules[1..], key);
    }
  }

  /** From the first rule for the property on. */
  lemma {:induction false} EffectsFrom(v: Option<Json>, rules: seq<Rule>, i: nat, key: string)
    requires i <= |rules| && forall j :: 0 <= j < i ==> rules[j].key != key
    ensures Effects(v, rules, key) == Effects(v, rules[i..], key)
    decreases i
  {
    if i == 0 {
      assert rules[0..] == rules;
    } else {
      EffectsFrom(v, rules[1..], i - 1, key);
      assert rules[1..][i - 1..] == rules[i..];
    }
  }

  lemma {:induction false} EffectAlone(v: Option<Json>, rules: seq<Rule>, i: nat, key: string)
    requires i < |rules| && rules[i].key == key
    requires forall j :: 0 <= j < |rules| && j != i ==> rules[j].key != key
    ensures Effects(v, rules, key) == RuleEffect(v, rules[i])
  {
    EffectsFrom(v, rules, i, key);
    assert rules[i..][0] == rules[i] && rules[i..][1..] == rules[i + 1..];
    NoEffect(RuleEffect(v, rules[i]), rules[i + 1..], key);
  }

  lemma {:induction false} EffectOfTwo(v: Option<Json>, rules: seq<Rule>, i: nat, key: string)
    requires i + 1 < |rules| && rules[i].key == key && rules[i + 1].key == key
    requires forall j :: 0 <= j < |rules| && j != i && j != i + 1 ==> rules[j].key != key
    ensures Effects(v, rules, key) == RuleEffect(RuleEffect(v, rules[i]), rules[i + 1])
  {
    EffectsFrom(v, rules, i, key);
    assert rules[i..][0] == rules[i] && rules[i..][1..] == rules[i + 1..];
    assert rules[i + 1..][0] == rules[i + 1] && rules[i + 1..][1..] == rules[i + 2..];
    NoEffect(RuleEffect(RuleEffect(v, rules[i]), rules[i + 1]), rules[i + 2..], key);
  }

  function Wired(v: Option<Json>): Option<Json> {
    match v
    case None => None
    case Some(w) => Some(Wire(w))
  }

  lemma {:induction false} SignedAt(t: BlockType, payload: Fields, key: string)
    ensures Get(SignedPayload(t, payload), key) == Wired(Effects(Get(payload, key), Rules(t), key))
  {
    RulesAt(payload, Rules(t), key);
    GetWire(ApplyRules(payload, Rules(t)), key);
  }

  /** The text that is signed for an amount: nothing and zero are "0". */
  function AmountText(v: Option<Json>): Option<Json> {
    Some(Str(if Truthy(v) then PrimitiveText(v.value) else "0"))
  }

  /** Exactly the named properties are signed as text, and the others as they are on the wire. */
  ghost predicate SignsAmounts(t: BlockType, payload: Fields, names: seq<string>) {
    forall key :: Get(SignedPayload(t, payload), key) ==
      if key in names then AmountText(Get(payload, key)) else Wired(Get(payload, key))
  }

  predicate AreNumeric(rules: seq<Rule>, names: seq<string>) {
    |rules| == |names| && forall i :: 0 <= i < |rules| ==> rules[i] == Numeric(names[i])
  }

  /** The i-th rule is the only one for its property. */
  predicate Alone(rules: seq<Rule>, i: nat)
    requires i < |rules|
  {
    forall j :: 0 <= j < |rules| && j != i ==> rules[j].key != rules[i].key
  }

  lemma {:induction false} NumericSigned(t: BlockType, payload: Fields, key: string, i: nat)
    requires i < |Rules(t)| && Rules(t)[i] == Numeric(key) && Alone(Rules(t), i)
    ensures Get(SignedPayload(t, payload), key) == AmountText(Get(payload, key))
  {
    EffectAlone(Get(payload, key), Rules(t), i, key);
    SignedAt(t, payload, key);
  }

  lemma {:induction false} UnruledSigned(t: BlockType, payload: Fields, key: string)
    requires forall i :: 0 <= i < |Rules(t)| ==> Rules(t)[i].key != key
    ensures Get(SignedPayload(t, payload), key) == Wired(Get(payload, key))
  {
    NoEffect(Get(payload, key), Rules(t), key);
    SignedAt(t, payload, key);
  }

  lemma {:induction false} AmountsAlone(rules: seq<Rule>, names: seq<string>, i: nat)
    requires AreNumeric(rules, names) && Distinct(names) && i < |names|
    ensures Alone(rules, i)
  {
    forall j | 0 <= j < |rules| && j != i ensures rules[j].key != rules[i].key {
      assert names[j] != names[i];
    }
  }

  lemma {:induction false} AmountsSigned(t: BlockType, payload: Fields, names: seq<string>)
    requires AreNumeric(Rules(t), names) && Distinct(names)
    ensures SignsAmounts(t, payload, names)
  {
    forall key
      ensures Get(SignedPayload(t, payload), key) ==
              if key in names then AmountText(Get(payload, key)) else Wired(Get(payload, key))
    {
      if i :| 0 <= i < |names| && names[i] == key {
        AmountsAlone(Rules(t), names, i);
        NumericSigned(t, payload, key, i);
      } else {
        UnruledSigned(t, payload, key);
      }
    }
  }

  lemma {:induction false} TransactionSigns(payload: Fields)
    ensures SignsAmounts(TRANSACTION, payload, ["amount"])
  {
    AmountsSigned(TRANSACTION, payload, ["amount"]);
  }

  lemma {:induction false} StakingSigns(payload: Fields)
    ensures SignsAmounts(STAKING_CONTRACT, payload, ["collateralAmount", "minEpochTimelineDays"])
  {
    AmountsSigned(STAKING_CONTRACT, payload, ["collateralAmount", "minEpochTimelineDays"]);
  }

  lemma {:induction false} SlashingSigns(payload: Fields)
    ensures SignsAmounts(SLASHING_TRANSACTION, payload, ["burntAmount"])
  {
    AmountsSigned(SLASHING_TRANSACTION, payload, ["burntAmount"]);
  }

  lemma {:induction false} RenewalSigns(payload: Fields)
    ensures SignsAmounts(CONTRACT_RENEWAL, payload, ["additionalEscrow", "additionalBlocks"])
  {
    RenewalKeysDiffer();
    AmountsSigned(CONTRACT_RENEWAL, payload, ["additionalEscrow", "additionalBlocks"]);
  }

  /** Registrations and checkpoints are signed as they are on the wire. */
  lemma {:induction false} OthersSign(payload: Fields)
    ensures SignsAmounts(VALIDATOR_REGISTRATION, payload, []) && SignsAmounts(CHECKPOINT, payload, [])
  {
    AmountsSigned(VALIDATOR_REGISTRATION, payload, []);
    AmountsSigned(CHECKPOINT, payload, []);
  }

  const TEXTS: seq<string> := ["encryptedKeyBase64", "encryptedIvBase64", "encryptedAuthTagBase64", "marketId",
                               "ownerSignature"]

  const LISTS: seq<string> := ["activeHosts", "merkleRoots"]

  const OTHERS: seq<string> := ["ownerAddress", "erasureParams", "fragmentMap"]

  /** The property as it is on the wire, or its default. */
  function Defaulted(v: Option<Json>, value: Json): Option<Json> {
    Some(Wire(if Truthy(v) then v.value else value))
  }

  /** A fragment gets an empty physical id if it has none. */
  ghost predicate FragmentSigned(v: Json, w: Json) {
    if v.Obj? then
      && w.Obj?
      && forall key :: Get(w.fields, key) ==
           if key == "physicalId" then Defaulted(Get(v.fields, key), Str("")) else Wired(Get(v.fields, key))
    else w == Wire(v)
  }

  ghost predicate FragmentsSigned(v: Option<Json>, w: Option<Json>) {
    match v
    case Some(Arr(items)) =>
      && w.Some? && w.value.Arr? && |w.value.items| == |items|
      && forall i :: 0 <= i < |items| ==> FragmentSigned(items[i], w.value.items[i])
    case _ => w == Defaulted(v, Arr([]))
  }

  /** What is signed of a storage contract, property by property. */
  ghost predicate ContractSigned(payload: Fields, signed: Fields) {
    && (forall i :: 0 <= i < |AMOUNTS| ==> Get(signed, AMOUNTS[i]) == AmountText(Get(payload, AMOUNTS[i])))
    && (forall i :: 0 <= i < |TEXTS| ==> Get(signed, TEXTS[i]) == Defaulted(Get(payload, TEXTS[i]), Str("")))
    && (forall i :: 0 <= i < |LISTS| ==> Get(signed, LISTS[i]) == Defaulted(Get(payload, LISTS[i]), Arr([])))
    && Get(signed, "ownerAddress") == Defaulted(Get(payload, "ownerAddress"), Str(ZERO_ADDRESS))
    && Get(signed, "erasureParams") == Defaulted(Get(payload, "erasureParams"),
         Obj([Field("n", Number(0)), Field("k", Number(0)), Field("originalSize", Number(0))]))
    && FragmentsSigned(Get(payload, "fragmentMap"), Get(signed, "fragmentMap"))
    && forall key :: key !in AMOUNTS + TEXTS + LISTS + OTHERS ==> Get(signed, key) == Wired(Get(payload, key))
  }

  /** Where the rules for the listed properties stand. */
  const AMOUNT_RULES: seq<nat> := [5, 6, 3, 4, 15]
  const TEXT_RULES: seq<nat> := [0, 1, 2, 7, 14]
  const LIST_RULES: seq<nat> := [8, 12]

  lemma {:induction false} AmountRule(i: nat)
    requires i < |AMOUNTS|
    ensures |Rules(STORAGE_CONTRACT)| == 16 && Rules(STORAGE_CONTRACT)[AMOUNT_RULES[i]] == Numeric(AMOUNTS[i])
  {
  }

  lemma {:induction false} TextRule(i: nat)
    requires i < |TEXTS|
    ensures |Rules(STORAGE_CONTRACT)| == 16 && Rules(STORAGE_CONTRACT)[TEXT_RULES[i]] == Default(TEXTS[i], Str(""))
  {
  }

  lemma {:induction false} ListRule(i: nat)
    requires i < |LISTS|
    ensures |Rules(STORAGE_CONTRACT)| == 16 && Rules(STORAGE_CONTRACT)[LIST_RULES[i]] == Default(LISTS[i], Arr([]))
  {
  }

  lemma {:induction false} OtherRules()
    ensures |Rules(STORAGE_CONTRACT)| == 16
    ensures Rules(STORAGE_CONTRACT)[9] == Default("erasureParams",
              Obj([Field("n", Number(0)), Field("k", Number(0)), Field("originalSize", Number(0))]))
    ensures Rules(STORAGE_CONTRACT)[10] == Default("fragmentMap", Arr([]))
    ensures Rules(STORAGE_CONTRACT)[11] == DefaultInEach("fragmentMap", "physicalId", Str(""))
    ensures Rules(STORAGE_CONTRACT)[13] == Default("ownerAddress", Str(ZERO_ADDRESS))
  {
  }

  lemma {:induction false} ContractAlone(i: nat)
    requires i < |Rules(STORAGE_CONTRACT)| && i !in [10, 11]
    ensures Alone(Rules(STORAGE_CONTRACT), i)
  {
    var rules := Rules(STORAGE_CONTRACT);
    ContractRulesInPlace(i);
    forall j | 0 <= j < |rules| && j != i ensures rules[j].key != rules[i].key {
      ContractRulesInPlace(j);
    }
  }

  lemma {:induction false} DefaultSigned(t: BlockType, payload: Fields, key: string, value: Json, i: nat)
    requires i < |Rules(t)| && Rules(t)[i] == Default(key, value) && Alone(Rules(t), i)
    ensures Get(SignedPayload(t, payload), key) == Defaulted(Get(payload, key), value)
  {
    EffectAlone(Get(payload, key), Rules(t), i, key);
    SignedAt(t, payload, key);
  }

  lemma {:induction false} FragmentEffect(payload: Fields)
    ensures Get(SignedPayload(STORAGE_CONTRACT, payload), "fragmentMap") ==
            Wired(RuleEffect(RuleEffect(Get(payload, "fragmentMap"), Default("fragmentMap", Arr([]))),
                             DefaultInEach("fragmentMap", "physicalId", Str(""))))
  {
    var rules := Rules(STORAGE_CONTRACT);
    OtherRules();
    ContractRulesInPlace(10);
    forall j | 0 <= j < |rules| && j != 10 && j != 11 ensures rules[j].key != "fragmentMap" {
      ContractRulesInPlace(j);
    }
    EffectOfTwo(Get(payload, "fragmentMap"), rules, 10, "fragmentMap");
    SignedAt(STORAGE_CONTRACT, payload, "fragmentMap");
  }

  lemma {:induction false} FragmentIsSigned(v: Json)
    requires v.Obj?
    ensures FragmentSigned(v, Wire(Obj(FillIn(v.fields, "physicalId", Str("")))))
  {
    var id := Get(v.fields, "physicalId");
    var filled := FillIn(v.fields, "physicalId", Str(""));
    forall key
      ensures Get(WireFields(filled), key) ==
              if key == "physicalId" then Defaulted(id, Str("")) else Wired(Get(v.fields, key))
    {
      GetWire(filled, key);
      GetSet(v.fields, "physicalId", if Truthy(id) then id.value else Str(""), key);
    }
  }

  lemma {:induction false} ItemSigned(items: seq<Json>, i: nat)
    requires i < |items|
    ensures FragmentSigned(items[i], WireItems(FillItems(items, "physicalId", Str("")))[i])
  {
    var filled := FillItems(items, "physicalId", Str(""));
    assert WireItems(filled)[1..] == WireItems(filled[1..]);
    assert filled[1..] == FillItems(items[1..], "physicalId", Str(""));
    if i > 0 {
      ItemSigned(items[1..], i - 1);
    } else if items[0].Obj? {
      FragmentIsSigned(items[0]);
    }
  }

  lemma {:induction false} FragmentsAreSigned(payload: Fields)
    ensures FragmentsSigned(Get(payload, "fragmentMap"),
                            Get(SignedPayload(STORAGE_CONTRACT, payload), "fragmentMap"))
  {
    FragmentEffect(payload);
    match Get(payload, "fragmentMap") {
      case Some(Arr(items)) =>
        forall i | 0 <= i < |items| {
          ItemSigned(items, i);
        }
      case _ =>
    }
  }

  lemma {:induction false} ElsewhereSigned(payload: Fields, key: string)
    requires key !in AMOUNTS + TEXTS + LISTS + OTHERS
    ensures Get(SignedPayload(STORAGE_CONTRACT, payload), key) == Wired(Get(payload, key))
  {
    var rules := Rules(STORAGE_CONTRACT);
    forall j | 0 <= j < |rules| ensures rules[j].key != key {
      assert rules[j].key in AMOUNTS + TEXTS + LISTS + OTHERS;
    }
    UnruledSigned(STORAGE_CONTRACT, payload, key);
  }

  lemma {:induction false} AmountSigned(payload: Fields, i: nat)
    requires i < |AMOUNTS|
    ensures Get(SignedPayload(STORAGE_CONTRACT, payload), AMOUNTS[i]) == AmountText(Get(payload, AMOUNTS[i]))
  {
    AmountRule(i);
    ContractAlone(AMOUNT_RULES[i]);
    NumericSigned(STORAGE_CONTRACT, payload, AMOUNTS[i], AMOUNT_RULES[i]);
  }

  lemma {:induction false} TextSigned(payload: Fields, i: nat)
    requires i < |TEXTS|
    ensures Get(SignedPayload(STORAGE_CONTRACT, payload), TEXTS[i]) == Defaulted(Get(payload, TEXTS[i]), Str(""))
  {
    TextRule(i);
    ContractAlone(TEXT_RULES[i]);
    DefaultSigned(STORAGE_CONTRACT, payload, TEXTS[i], Str(""), TEXT_RULES[i]);
  }

  lemma {:induction false} ListSigned(payload: Fields, i: nat)
    requires i < |LISTS|
    ensures Get(SignedPayload(STORAGE_CONTRACT, payload), LISTS[i]) == Defaulted(Get(payload, LISTS[i]), Arr([]))
  {
    ListRule(i);
    ContractAlone(LIST_RULES[i]);
    DefaultSigned(STORAGE_CONTRACT, payload, LISTS[i], Arr([]), LIST_RULES[i]);
  }

  lemma {:induction false} OwnerAndErasureSigned(payload: Fields)
    ensures var signed := SignedPayload(STORAGE_CONTRACT, payload);
            && Get(signed, "ownerAddress") == Defaulted(Get(payload, "ownerAddress"), Str(ZERO_ADDRESS))
            && Get(signed, "erasureParams") == Defaulted(Get(payload, "erasureParams"),
                 Obj([Field("n", Number(0)), Field("k", Number(0)), Field("originalSize", Number(0))]))
  {
    OtherRules();
    ContractAlone(9);
    ContractAlone(13);
    DefaultSigned(STORAGE_CONTRACT, payload, "ownerAddress", Str(ZERO_ADDRESS), 13);
    DefaultSigned(STORAGE_CONTRACT, payload, "erasureParams",
        Obj([Field("n", Number(0)), Field("k", Number(0)), Field("originalSize", Number(0))]), 9);
  }

  lemma {:induction false} ContractSigns(payload: Fields)
    ensures ContractSigned(payload, SignedPayload(STORAGE_CONTRACT, payload))
  {
    var signed := SignedPayload(STORAGE_CONTRACT, payload);
    forall i | 0 <= i < |AMOUNTS| ensures Get(signed, AMOUNTS[i]) == AmountText(Get(payload, AMOUNTS[i])) {
      AmountSigned(payload, i);
    }
    forall i | 0 <= i < |TEXTS| ensures Get(signed, TEXTS[i]) == Defaulted(Get(payload, TEXTS[i]), Str("")) {
      TextSigned(payload, i);
    }
    forall i | 0 <= i < |LISTS| ensures Get(signed, LISTS[i]) == Defaulted(Get(payload, LISTS[i]), Arr([])) {
      ListSigned(payload, i);
    }
    OwnerAndErasureSigned(payload);
    FragmentsAreSigned(payload);
    forall key | key !in AMOUNTS + TEXTS + LISTS + OTHERS ensures Get(signed, key) == Wired(Get(payload, key)) {
      ElsewhereSigned(payload, key);
    }
  }
}
