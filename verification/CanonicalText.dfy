/** crypto_utils/EIP712Types.ts: hydrating BigInts and normalising a block for signature, with
    the hash text of ledger/Ledger.ts. */
module CanonicalText {
  import opened Json
  import opened JsonText
  import opened Platform
  import opened Wrappers

  datatype BlockType = TRANSACTION | STORAGE_CONTRACT | STAKING_CONTRACT | SLASHING_TRANSACTION
    | CHECKPOINT | VALIDATOR_REGISTRATION | CONTRACT_RENEWAL

  // ---------- Hydration ----------

  /** Where a BigInt sits: in a property, or in listed properties of a nested object, or of
      each object of a nested array. */
  datatype Slot = Plain(key: string) | Inside(key: string, keys: seq<string>) | Each(key: string, keys: seq<string>)

  function Slots(t: BlockType): seq<Slot> {
    match t
    case STORAGE_CONTRACT =>
      [Plain("allocatedEgressEscrow"), Plain("remainingEgressEscrow"), Plain("allocatedRestToll"),
       Plain("expirationBlockHeight"), Plain("brokerFeePercentage"),
       Inside("erasureParams", ["n", "k", "originalSize"]), Each("fragmentMap", ["shardIndex"])]
    case TRANSACTION => [Plain("amount")]
    case STAKING_CONTRACT => [Plain("collateralAmount"), Plain("minEpochTimelineDays")]
    case SLASHING_TRANSACTION => [Plain("burntAmount")]
    case VALIDATOR_REGISTRATION => [Plain("stakeAmount")]
    case CHECKPOINT => [Plain("epochIndex")]
    case CONTRACT_RENEWAL => [Plain("additionalEscrow"), Plain("additionalBlocks")]
  }

  /** A number is refused, since JavaScript may have truncated it; text must denote an integer. */
  function StrictHydrate(v: Json): Option<Json> {
    match v
    case Big(_) => Some(v)
    case Str(s) => (match ParseBig(s) case Some(n) => Some(Big(n)) case None => None)
    case Bool(b) => Some(Big(if b then 1 else 0))
    case Number(_) => None
    case Null => None
    case _ => (match ParseBig(PrimitiveText(v)) case Some(n) => Some(Big(n)) case None => None)
  }

  function HydrateKeys(fields: Fields, keys: seq<string>): Option<Fields>
    decreases |keys|
  {
    if keys == [] then Some(fields)
    else
      match Get(fields, keys[0])
      case None => HydrateKeys(fields, keys[1..])
      case Some(v) =>
        match StrictHydrate(v)
        case None => None
        case Some(big) => HydrateKeys(Set(fields, keys[0], big), keys[1..])
  }

  function HydrateItems(items: seq<Json>, keys: seq<string>): Option<seq<Json>> {
    if items == [] then Some([])
    else
      var rest := HydrateItems(items[1..], keys);
      if items[0].Obj? then
        var first := HydrateKeys(items[0].fields, keys);
        if first.None? || rest.None? then None else Some([Obj(first.value)] + rest.value)
      else if rest.None? then None else Some([items[0]] + rest.value)
  }

  function HydrateValue(v: Json, slot: Slot): Option<Json> {
    match slot
    case Plain(_) => StrictHydrate(v)
    case Inside(_, keys) =>
      if !v.Obj? then Some(v)
      else (match HydrateKeys(v.fields, keys) case Some(r) => Some(Obj(r)) case None => None)
    case Each(_, keys) =>
      if !v.Arr? then Some(v)
      else (match HydrateItems(v.items, keys) case Some(r) => Some(Arr(r)) case None => None)
  }

  function HydrateSlot(payload: Fields, slot: Slot): Option<Fields> {
    match Get(payload, slot.key)
    case None => Some(payload)
    case Some(v) => (match HydrateValue(v, slot) case Some(w) => Some(Set(payload, slot.key, w)) case None => None)
  }

  function HydrateSlots(payload: Fields, slots: seq<Slot>): Option<Fields>
    decreases |slots|
  {
    if slots == [] then Some(payload)
    else
      match HydrateSlot(payload, slots[0])
      case None => None
      case Some(p) => HydrateSlots(p, slots[1..])
  }

  function Hydrate(t: BlockType, payload: Fields): Option<Fields> {
    HydrateSlots(payload, Slots(t))
  }

  // ---------- Round trip ----------

  /** BigInts in the listed properties and nowhere else. */
  predicate TypedKeys(fields: Fields, keys: seq<string>) {
    && UniqueKeys(fields)
    && forall i :: 0 <= i < |fields| ==> if fields[i].key in keys then fields[i].value.Big?
        else BigFree(fields[i].value)
  }

  predicate TypedItems(items: seq<Json>, keys: seq<string>) {
    forall i :: 0 <= i < |items| ==> if items[i].Obj? then TypedKeys(items[i].fields, keys) else BigFree(items[i])
  }

  predicate TypedSlot(v: Json, slot: Slot) {
    match slot
    case Plain(_) => v.Big?
    case Inside(_, keys) => if v.Obj? then TypedKeys(v.fields, keys) else BigFree(v)
    case Each(_, keys) => if v.Arr? then TypedItems(v.items, keys) else BigFree(v)
  }

  function SlotFor(slots: seq<Slot>, key: string): (r: Option<Slot>)
    ensures r.Some? ==> r.value in slots && r.value.key == key
  {
    if slots == [] then None else if slots[0].key == key then Some(slots[0]) else SlotFor(slots[1..], key)
  }

  /** A payload as the block types declare it. */
  predicate Typed(payload: Fields, slots: seq<Slot>) {
    && UniqueKeys(payload)
    && forall i :: 0 <= i < |payload| ==>
         match SlotFor(slots, payload[i].key)
         case Some(slot) => TypedSlot(payload[i].value, slot)
         case None => BigFree(payload[i].value)
  }

  /** A payload off the wire with only the given properties restored. */
  function Mixed(fields: Fields, done: set<string>): Fields {
    if fields == [] then []
    else
      [Field(fields[0].key, if fields[0].key in done then fields[0].value else Wire(fields[0].value))]
      + Mixed(fields[1..], done)
  }

  lemma {:induction false} MixedNothing(fields: Fields)
    ensures Mixed(fields, {}) == WireFields(fields)
  {
    if fields == [] {
    } else {
      MixedNothing(fields[1..]);
    }
  }

  lemma {:induction false} MixedGet(fields: Fields, done: set<string>, key: string)
    ensures Get(Mixed(fields, done), key) ==
            (match Get(fields, key) case Some(v) => Some(if key in done then v else Wire(v)) case None => None)
  {
    if fields == [] {
    } else {
      MixedGet(fields[1..], done, key);
      assert Mixed(fields, done)[1..] == Mixed(fields[1..], done);
    }
  }

  lemma {:induction false} MixedUntouched(fields: Fields, done: set<string>, key: string)
    requires forall i :: 0 <= i < |fields| ==> fields[i].key != key
    ensures Mixed(fields, done + {key}) == Mixed(fields, done)
  {
    if fields == [] {
    } else {
      MixedUntouched(fields[1..], done, key);
    }
  }

  lemma {:induction false} MixedSet(fields: Fields, done: set<string>, key: string, v: Json)
    requires UniqueKeys(fields) && Get(fields, key) == Some(v)
    ensures Set(Mixed(fields, done), key, v) == Mixed(fields, done + {key})
  {
    var mixed := Mixed(fields, done);
    assert mixed[1..] == Mixed(fields[1..], done) && mixed[0].key == fields[0].key;
    if fields[0].key == key {
      assert v == fields[0].value;
      MixedUntouched(fields[1..], done, key);
    } else {
      MixedSet(fields[1..], done, key, v);
    }
  }

  /** Once every property that changes on the wire is restored, so is the whole. */
  lemma {:induction false} MixedAll(fields: Fields, done: set<string>)
    requires forall i :: 0 <= i < |fields| && fields[i].key !in done ==> BigFree(fields[i].value)
    ensures Mixed(fields, done) == fields
  {
    if fields == [] {
    } else {
      if fields[0].key !in done {
        WireKeepsBigFree(fields[0].value);
      }
      MixedAll(fields[1..], done);
    }
  }

  lemma {:induction false} KeysRoundTrip(fields: Fields, all: seq<string>, n: nat, done: set<string>)
    requires TypedKeys(fields, all) && n <= |all|
    requires done == set i | 0 <= i < n :: all[i]
    ensures HydrateKeys(Mixed(fields, done), all[n..]) == Some(fields)
    decreases |all| - n
  {
    if n == |all| {
      MixedAll(fields, done);
    } else {
      var key := all[n];
      assert all[n..][0] == key && all[n..][1..] == all[n + 1..];
      assert done + {key} == set i | 0 <= i < n + 1 :: all[i];
      MixedGet(fields, done, key);
      match Get(fields, key) {
        case None =>
          MixedUntouched(fields, done, key);
        case Some(v) =>
          MixedSet(fields, done, key, v);
          ParsePrint(v.big);
      }
      KeysRoundTrip(fields, all, n + 1, done + {key});
    }
  }

  lemma {:induction false} ObjectRoundTrip(fields: Fields, keys: seq<string>)
    requires TypedKeys(fields, keys)
    ensures HydrateKeys(WireFields(fields), keys) == Some(fields)
  {
    MixedNothing(fields);
    assert keys[0..] == keys;
    KeysRoundTrip(fields, keys, 0, {});
  }

  lemma {:induction false} ItemsRoundTrip(items: seq<Json>, keys: seq<string>)
    requires TypedItems(items, keys)
    ensures HydrateItems(WireItems(items), keys) == Some(items)
  {
    if items == [] {
    } else {
      assert WireItems(items)[1..] == WireItems(items[1..]);
      ItemsRoundTrip(items[1..], keys);
      if items[0].Obj? {
        ObjectRoundTrip(items[0].fields, keys);
      } else {
        WireKeepsBigFree(items[0]);
      }
      assert items == [items[0]] + items[1..];
    }
  }

  lemma {:induction false} ValueRoundTrip(v: Json, slot: Slot)
    requires TypedSlot(v, slot)
    ensures HydrateValue(Wire(v), slot) == Some(v)
  {
    if v.Big? {
      ParsePrint(v.big);
    } else if slot.Inside? && v.Obj? {
      ObjectRoundTrip(v.fields, slot.keys);
    } else if slot.Each? && v.Arr? {
      ItemsRoundTrip(v.items, slot.keys);
    } else {
      WireKeepsBigFree(v);
    }
  }

  /** One slot brings one property back. */
  lemma {:induction false} SlotRoundTrip(payload: Fields, done: set<string>, slot: Slot)
    requires UniqueKeys(payload) && slot.key !in done
    requires Get(payload, slot.key).Some? ==> TypedSlot(Get(payload, slot.key).value, slot)
    ensures HydrateSlot(Mixed(payload, done), slot) == Some(Mixed(payload, done + {slot.key}))
  {
    MixedGet(payload, done, slot.key);
    match Get(payload, slot.key) {
      case None =>
        MixedUntouched(payload, done, slot.key);
      case Some(v) =>
        MixedSet(payload, done, slot.key, v);
        ValueRoundTrip(v, slot);
    }
  }

  predicate DistinctSlots(slots: seq<Slot>) {
    forall i, j :: 0 <= i < j < |slots| ==> slots[i].key != slots[j].key
  }

  lemma {:induction false} SlotForFinds(slots: seq<Slot>, n: nat)
    requires DistinctSlots(slots) && n < |slots|
    ensures SlotFor(slots, slots[n].key) == Some(slots[n])
  {
    if n == 0 {
    } else {
      SlotForFinds(slots[1..], n - 1);
    }
  }

  lemma {:induction false} SlotForMissing(slots: seq<Slot>, key: string)
    requires forall i :: 0 <= i < |slots| ==> slots[i].key != key
    ensures SlotFor(slots, key) == None
  {
    if slots == [] {
    } else {
      SlotForMissing(slots[1..], key);
    }
  }

  lemma {:induction false} SlotsRoundTrip(payload: Fields, slots: seq<Slot>, n: nat, done: set<string>)
    requires Typed(payload, slots) && DistinctSlots(slots) && n <= |slots|
    requires done == set i | 0 <= i < n :: slots[i].key
    ensures HydrateSlots(Mixed(payload, done), slots[n..]) == Some(payload)
    decreases |slots| - n
  {
    if n == |slots| {
      forall i | 0 <= i < |payload| && payload[i].key !in done
        ensures BigFree(payload[i].value)
      {
        SlotForMissing(slots, payload[i].key);
      }
      MixedAll(payload, done);
    } else {
      var slot := slots[n];
      assert slots[n..][0] == slot && slots[n..][1..] == slots[n + 1..];
      SlotForFinds(slots, n);
      SlotRoundTrip(payload, done, slot);
      assert done + {slot.key} == set i | 0 <= i < n + 1 :: slots[i].key;
      SlotsRoundTrip(payload, slots, n + 1, done + {slot.key});
    }
  }

  lemma {:induction false} SlotsAreDistinct(t: BlockType)
    ensures DistinctSlots(Slots(t))
  {
  }

  /** Serialise, then hydrate: every payload of every block type is back. */
  lemma {:induction false} PayloadRoundTrip(t: BlockType, payload: Fields)
    requires Typed(payload, Slots(t))
    ensures Hydrate(t, WireFields(payload)) == Some(payload)
  {
    MixedNothing(payload);
    SlotsAreDistinct(t);
    var slots := Slots(t);
    assert slots[0..] == slots;
    SlotsRoundTrip(payload, slots, 0, {});
  }

  lemma {:induction false} SetSame(fields: Fields, key: string, v: Json)
    requires Get(fields, key) == Some(v)
    ensures Set(fields, key, v) == fields
  {
    if fields[0].key != key {
      SetSame(fields[1..], key, v);
    }
  }

  lemma {:induction false} TextSlotHydrates(fields: Fields, key: string, n: int)
    requires Get(fields, key) == Some(Str(Decimal(n)))
    ensures HydrateSlot(fields, Plain(key)) == Some(Set(fields, key, Big(n)))
    ensures WireFields(Set(fields, key, Big(n))) == WireFields(fields)
  {
    ParsePrint(n);
    SetWire(fields, key, Big(n));
    GetWire(fields, key);
    SetSame(WireFields(fields), key, Str(Decimal(n)));
  }

  lemma {:induction false} TwoSlots(payload: Fields, first: Fields, second: Fields, one: Slot, two: Slot)
    requires HydrateSlot(payload, one) == Some(first) && HydrateSlot(first, two) == Some(second)
    ensures HydrateSlots(payload, [one, two]) == Some(second)
  {
    assert [one, two][1..] == [two] && [two][1..] == [];
    assert HydrateSlots(first, [two]) == HydrateSlots(second, []);
  }

  lemma {:induction false} TwoTextsHydrate(payload: Fields, one: string, two: string, n: int,
      m: int) returns (hydrated: Fields)
    requires one != two
    requires Get(payload, one) == Some(Str(Decimal(n))) && Get(payload, two) == Some(Str(Decimal(m)))
    ensures HydrateSlots(payload, [Plain(one), Plain(two)]) == Some(hydrated)
    ensures WireFields(hydrated) == WireFields(payload)
    ensures Get(hydrated, one) == Some(Big(n)) && Get(hydrated, two) == Some(Big(m))
  {
    var first := Set(payload, one, Big(n));
    hydrated := Set(first, two, Big(m));
    TextSlotHydrates(payload, one, n);
    GetSet(payload, one, Big(n), two);
    TextSlotHydrates(first, two, m);
    TwoSlots(payload, first, hydrated, Plain(one), Plain(two));
    GetSet(payload, one, Big(n), one);
    GetSet(first, two, Big(m), one);
    GetSet(first, two, Big(m), two);
  }

  lemma {:induction false} RenewalSlots(payload: Fields)
    ensures Hydrate(CONTRACT_RENEWAL, payload)
            == HydrateSlots(payload, [Plain("additionalEscrow"), Plain("additionalBlocks")])
  {
  }

  lemma {:induction false} RenewalKeysDiffer()
    ensures "additionalEscrow" != "additionalBlocks"
  {
    assert "additionalEscrow"[10] != "additionalBlocks"[10];
  }

  /** A renewal declares its amounts as text. Hydrating turns them into BigInts that print as they
      were written, so the wire form stays. */
  lemma {:induction false} RenewalTextHydrates(payload: Fields, escrow: int, blocks: int) returns (hydrated: Fields)
    requires Get(payload, "additionalEscrow") == Some(Str(Decimal(escrow)))
    requires Get(payload, "additionalBlocks") == Some(Str(Decimal(blocks)))
    ensures Hydrate(CONTRACT_RENEWAL, payload) == Some(hydrated) && WireFields(hydrated) == WireFields(payload)
    ensures Get(hydrated, "additionalEscrow") == Some(Big(escrow)) && Get(hydrated,
        "additionalBlocks") == Some(Big(blocks))
  {
    RenewalKeysDiffer();
    RenewalSlots(payload);
    hydrated := TwoTextsHydrate(payload, "additionalEscrow", "additionalBlocks", escrow, blocks);
  }

  // ---------- Hash text ----------

  /** A block as a document: `type`, `payload` and the rest of its properties. */
  function HashText(quote: string -> string, doc: Fields): string {
    Text(quote, Obj(Remove(Remove(doc, "hash"), "_id")))
  }

  /** Two documents are hashed from one text exactly if they are equal on the wire but for their hash
      and _id. */
  lemma {:induction false} HashTextTells(quote: string -> string, doc: Fields, other: Fields)
    requires Literals(quote)
    ensures HashText(quote, doc) == HashText(quote, other) <==>
              WireFields(Remove(Remove(doc, "hash"), "_id")) == WireFields(Remove(Remove(other, "hash"), "_id"))
  {
    TextTellsWireForm(quote, Obj(Remove(Remove(doc, "hash"), "_id")), Obj(Remove(Remove(other, "hash"), "_id")));
  }

  function HydrateDoc(t: BlockType, doc: Fields): Option<Fields> {
    match Get(doc, "payload")
    case Some(Obj(payload)) =>
      (match Hydrate(t, payload) case Some(p) => Some(Set(doc, "payload", Obj(p))) case None => None)
    case _ => None
  }

  predicate TypedDoc(t: BlockType, doc: Fields) {
    && UniqueKeys(doc)
    && Get(doc, "_id") == None
    && (forall i :: 0 <= i < |doc| && doc[i].key != "payload" ==> BigFree(doc[i].value))
    && match Get(doc, "payload")
       case Some(Obj(payload)) => Typed(payload, Slots(t))
       case _ => false
  }

  /** addBlockToChain stores the block with its hash as _id, serialised; the database keeps _id first. */
  function Stored(doc: Fields, hash: string): Fields {
    WireFields([Field("_id", Str(hash))] + doc)
  }

  lemma {:induction false} IdentifiedDoc(doc: Fields, id: Field, payload: Fields)
    requires UniqueKeys(doc) && Get(doc, "payload") == Some(Obj(payload))
    requires Get(doc, "_id") == None && id.key == "_id" && BigFree(id.value)
    requires forall i :: 0 <= i < |doc| && doc[i].key != "payload" ==> BigFree(doc[i].value)
    ensures UniqueKeys([id] + doc) && Get([id] + doc, "payload") == Some(Obj(payload))
    ensures forall i :: 0 <= i < |[id] + doc| && ([id] + doc)[i].key != "payload" ==> BigFree(([id] + doc)[i].value)
  {
    var stored := [id] + doc;
    assert stored[1..] == doc;
    assert forall i :: 0 < i < |stored| ==> stored[i] == doc[i - 1];
  }

  lemma {:induction false} PayloadRestoresDoc(doc: Fields, payload: Fields)
    requires UniqueKeys(doc) && Get(doc, "payload") == Some(Obj(payload))
    requires forall i :: 0 <= i < |doc| && doc[i].key != "payload" ==> BigFree(doc[i].value)
    ensures Set(WireFields(doc), "payload", Obj(payload)) == doc
  {
    MixedNothing(doc);
    MixedSet(doc, {}, "payload", Obj(payload));
    MixedAll(doc, {} + {"payload"});
  }

  lemma {:induction false} WiredDocHydrates(t: BlockType, doc: Fields, payload: Fields)
    requires UniqueKeys(doc) && Get(doc, "payload") == Some(Obj(payload)) && Typed(payload, Slots(t))
    requires forall i :: 0 <= i < |doc| && doc[i].key != "payload" ==> BigFree(doc[i].value)
    ensures HydrateDoc(t, WireFields(doc)) == Some(doc)
  {
    GetWire(doc, "payload");
    PayloadRoundTrip(t, payload);
    PayloadRestoresDoc(doc, payload);
  }

  /** Loading and hydrating gives the block back, with its _id. */
  lemma {:induction false} StoredBlockHydrates(t: BlockType, doc: Fields, hash: string)
    requires TypedDoc(t, doc)
    ensures HydrateDoc(t, Stored(doc, hash)) == Some([Field("_id", Str(hash))] + doc)
  {
    var payload := Get(doc, "payload").value.fields;
    IdentifiedDoc(doc, Field("_id", Str(hash)), payload);
    WiredDocHydrates(t, [Field("_id", Str(hash))] + doc, payload);
  }

  lemma {:induction false} RemovePrepended(doc: Fields, id: Field)
    requires id.key == "_id"
    ensures Remove(Remove([id] + doc, "hash"), "_id") == Remove(Remove(doc, "hash"), "_id")
  {
    assert ([id] + doc)[1..] == doc;
    assert Remove([id] + doc, "hash") == [id] + Remove(doc, "hash");
    assert ([id] + Remove(doc, "hash"))[1..] == Remove(doc, "hash");
  }

  /** So isChainValid hashes the text that was hashed when the block was made. */
  lemma {:induction false} StoredBlockKeepsHashText(quote: string -> string, t: BlockType, doc: Fields, hash: string)
    requires TypedDoc(t, doc)
    ensures HydrateDoc(t, Stored(doc, hash)).Some?
    ensures HashText(quote, HydrateDoc(t, Stored(doc, hash)).value) == HashText(quote, doc)
  {
    StoredBlockHydrates(t, doc, hash);
    RemovePrepended(doc, Field("_id", Str(hash)));
  }

  /** Over the wire the text is the same even before hydration. */
  lemma {:induction false} WireKeepsHashText(quote: string -> string, doc: Fields)
    ensures HashText(quote, WireFields(doc)) == HashText(quote, doc)
  {
    RemoveWire(doc, "hash");
    RemoveWire(Remove(doc, "hash"), "_id");
    FieldsTextSurvivesWire(quote, Remove(Remove(doc, "hash"), "_id"));
  }

  /** For a text property, hydrating keeps the hashed text exactly when it was the canonical decimal:
      "007", " 7", "+7", "0x7" and the empty text are hydrated into something else. */
  lemma {:induction false} HydrationKeepsCanonicalText(quote: string -> string, s: string)
    requires forall x, y :: quote(x) == quote(y) ==> x == y
    requires StrictHydrate(Str(s)).Some?
    ensures Text(quote, StrictHydrate(Str(s)).value) == Text(quote, Str(s)) <==> exists n: int :: s == Decimal(n)
  {
    var n := ParseBig(s).value;
    if s == Decimal(n) {
    } else if exists m: int :: s == Decimal(m) {
      var m: int :| s == Decimal(m);
      ParsePrint(m);
    }
  }

  // ---------- Normalising for signature ----------

  /** Falsy values of JavaScript. */
  predicate Truthy(v: Option<Json>) {
    match v
    case None => false
    case Some(Null) => false
    case Some(Bool(b)) => b
    case Some(Number(n)) => n != 0
    case Some(Big(n)) => n != 0
    case Some(Str(s)) => s != ""
    case Some(_) => true
  }

  /** One assignment of normalizeBlockForSignature: x ? x.toString() : "0", or x || default, or
      the same default inside every object of an array. */
  datatype Rule = Numeric(key: string) | Default(key: string, value: Json) | DefaultInEach(key: string,
      inner: string, value: Json)

  function ToText(v: Json): Json {
    Str(PrimitiveText(v))
  }

  function FillIn(fields: Fields, key: string, value: Json): Fields {
    Set(fields, key, if Truthy(Get(fields, key)) then Get(fields, key).value else value)
  }

  function FillItems(items: seq<Json>, key: string, value: Json): (r: seq<Json>)
    ensures |r| == |items|
  {
    if items == [] then []
    else [if items[0].Obj? then Obj(FillIn(items[0].fields, key, value)) else items[0]] + FillItems(items[1..], key,
        value)
  }

  function ApplyRule(payload: Fields, rule: Rule): Fields {
    match rule
    case Numeric(key) =>
      Set(payload, key, if Truthy(Get(payload, key)) then ToText(Get(payload, key).value) else Str("0"))
    case Default(key, value) => FillIn(payload, key, value)
    case DefaultInEach(key, inner, value) =>
      match Get(payload, key)
      case Some(Arr(items)) => Set(payload, key, Arr(FillItems(items, inner, value)))
      case _ => payload
  }

  function ApplyRules(payload: Fields, rules: seq<Rule>): Fields
    decreases |rules|
  {
    if rules == [] then payload else ApplyRules(ApplyRule(payload, rules[0]), rules[1..])
  }

  const NO_ERASURE: Json := Obj([Field("n", Number(0)), Field("k", Number(0)), Field("originalSize", Number(0))])
  function Rules(t: BlockType): seq<Rule> {
    match t
    case STORAGE_CONTRACT =>
      [Default("encryptedKeyBase64", Str("")), Default("encryptedIvBase64", Str("")),
          Default("encryptedAuthTagBase64", Str("")),
       Numeric("allocatedRestToll"), Numeric("expirationBlockHeight"),
       Numeric("allocatedEgressEscrow"), Numeric("remainingEgressEscrow"),
       Default("marketId", Str("")), Default("activeHosts", Arr([])), Default("erasureParams", NO_ERASURE),
       Default("fragmentMap", Arr([])), DefaultInEach("fragmentMap", "physicalId", Str("")),
       Default("merkleRoots", Arr([])), Default("ownerAddress", Str(ZERO_ADDRESS)), Default("ownerSignature", Str("")),
       Numeric("brokerFeePercentage")]
    case TRANSACTION => [Numeric("amount")]
    case STAKING_CONTRACT => [Numeric("collateralAmount"), Numeric("minEpochTimelineDays")]
    case SLASHING_TRANSACTION => [Numeric("burntAmount")]
    case CONTRACT_RENEWAL => [Numeric("additionalEscrow"), Numeric("additionalBlocks")]
    case VALIDATOR_REGISTRATION => []
    case CHECKPOINT => []
  }

  /** The payload that is signed. */
  function SignedPayload(t: BlockType, payload: Fields): Fields {
    WireFields(ApplyRules(payload, Rules(t)))
  }

  /** A zero BigInt is falsy and its text is not, so it must not sit where a default applies. */
  predicate NoZeroBig(fields: Fields, key: string) {
    Get(fields, key) != Some(Big(0))
  }

  predicate NoZeroBigs(items: seq<Json>, key: string) {
    forall i :: 0 <= i < |items| && items[i].Obj? ==> NoZeroBig(items[i].fields, key)
  }

  predicate RuleFits(payload: Fields, rule: Rule) {
    match rule
    case Numeric(key) => true
    case Default(key, value) => NoZeroBig(payload, key)
    case DefaultInEach(key, inner, value) =>
      match Get(payload, key)
      case Some(Arr(items)) => NoZeroBigs(items, inner)
      case _ => true
  }

  /** Two payloads that look the same on the wire, neither with a zero BigInt in the way. */
  predicate SameOnWire(p: Fields, q: Fields, rules: seq<Rule>) {
    && WireFields(p) == WireFields(q)
    && forall i :: 0 <= i < |rules| ==> RuleFits(p, rules[i]) && RuleFits(q, rules[i])
  }

  lemma {:induction false} SameValueOnWire(p: Fields, q: Fields, key: string)
    requires WireFields(p) == WireFields(q)
    ensures Get(p, key).Some? <==> Get(q, key).Some?
    ensures Get(p, key).Some? ==> Wire(Get(p, key).value) == Wire(Get(q, key).value)
  {
    GetWire(p, key);
    GetWire(q, key);
  }

  lemma {:induction false} DecimalZero(n: int)
    ensures Decimal(n) != ""
    ensures Decimal(n) == "0" <==> n == 0
  {
    ParsePrint(n);
    ParsePrint(0);
  }

  lemma {:induction false} FillInSame(p: Fields, q: Fields, key: string, value: Json)
    requires WireFields(p) == WireFields(q) && NoZeroBig(p, key) && NoZeroBig(q, key)
    ensures WireFields(FillIn(p, key, value)) == WireFields(FillIn(q, key, value))
  {
    SameValueOnWire(p, q, key);
    var v, w := Get(p, key), Get(q, key);
    if v.Some? {
      if v.value.Big? { DecimalZero(v.value.big); }
      if w.value.Big? { DecimalZero(w.value.big); }
    }
    SetWire(p, key, if Truthy(v) then v.value else value);
    SetWire(q, key, if Truthy(w) then w.value else value);
  }

  lemma {:induction false} FillItemsSame(a: seq<Json>, b: seq<Json>, key: string, value: Json)
    requires WireItems(a) == WireItems(b) && NoZeroBigs(a, key) && NoZeroBigs(b, key)
    ensures WireItems(FillItems(a, key, value)) == WireItems(FillItems(b, key, value))
  {
    assert |a| == |b|;
    if a == [] {
    } else {
      assert WireItems(a)[0] == WireItems(b)[0] && WireItems(a)[1..] == WireItems(b)[1..];
      FillItemsSame(a[1..], b[1..], key, value);
      if a[0].Obj? {
        FillInSame(a[0].fields, b[0].fields, key, value);
      }
      assert FillItems(a, key, value)[1..] == FillItems(a[1..], key, value);
      assert FillItems(b, key, value)[1..] == FillItems(b[1..], key, value);
    }
  }

  lemma {:induction false} RuleSame(p: Fields, q: Fields, rule: Rule)
    requires WireFields(p) == WireFields(q) && RuleFits(p, rule) && RuleFits(q, rule)
    ensures WireFields(ApplyRule(p, rule)) == WireFields(ApplyRule(q, rule))
  {
    SameValueOnWire(p, q, rule.key);
    var v, w := Get(p, rule.key), Get(q, rule.key);
    match rule {
      case Numeric(key) =>
        if v.Some? {
          if v.value.Big? { DecimalZero(v.value.big); }
          if w.value.Big? { DecimalZero(w.value.big); }
        }
        if v.Some? {
          PrimitiveTextSurvivesWire(v.value);
          PrimitiveTextSurvivesWire(w.value);
        }
        var x := if Truthy(v) then ToText(v.value) else Str("0");
        var y := if Truthy(w) then ToText(w.value) else Str("0");
        assert Wire(x) == Wire(y);
        SetWire(p, key, x);
        SetWire(q, key, y);
      case Default(key, value) =>
        FillInSame(p, q, key, value);
      case DefaultInEach(key, inner, value) =>
        if v.Some? && v.value.Arr? {
          FillItemsSame(v.value.items, w.value.items, inner, value);
          SetWire(p, key, Arr(FillItems(v.value.items, inner, value)));
          SetWire(q, key, Arr(FillItems(w.value.items, inner, value)));
        }
    }
  }

  /** Later rules are undisturbed by earlier ones. */
  predicate Compatible(earlier: Rule, later: Rule) {
    earlier.key != later.key || (later.DefaultInEach? && earlier.Default? && earlier.value == Arr([]))
  }

  predicate CompatibleRules(rules: seq<Rule>) {
    forall i, j :: 0 <= i < j < |rules| ==> Compatible(rules[i], rules[j])
  }

  lemma {:induction false} FitsPersists(payload: Fields, earlier: Rule, later: Rule)
    requires Compatible(earlier, later) && RuleFits(payload, later)
    ensures RuleFits(ApplyRule(payload, earlier), later)
  {
    var v := Get(payload, earlier.key);
    match earlier {
      case Numeric(key) =>
        GetSet(payload, key, if Truthy(v) then ToText(v.value) else Str("0"), later.key);
      case Default(key, value) =>
        GetSet(payload, key, if Truthy(v) then v.value else value, later.key);
      case DefaultInEach(key, inner, value) =>
        if v.Some? && v.value.Arr? {
          GetSet(payload, key, Arr(FillItems(v.value.items, inner, value)), later.key);
        }
    }
  }

  lemma {:induction false} RulesSame(p: Fields, q: Fields, rules: seq<Rule>)
    requires SameOnWire(p, q, rules) && CompatibleRules(rules)
    ensures WireFields(ApplyRules(p, rules)) == WireFields(ApplyRules(q, rules))
    decreases |rules|
  {
    if rules == [] {
    } else {
      RuleSame(p, q, rules[0]);
      forall i | 0 <= i < |rules[1..]|
        ensures RuleFits(ApplyRule(p, rules[0]), rules[1..][i]) && RuleFits(ApplyRule(q, rules[0]), rules[1..][i])
      {
        assert Compatible(rules[0], rules[i + 1]);
        FitsPersists(p, rules[0], rules[i + 1]);
        FitsPersists(q, rules[0], rules[i + 1]);
      }
      RulesSame(ApplyRule(p, rules[0]), ApplyRule(q, rules[0]), rules[1..]);
    }
  }

  /** Where the rule for a property of a storage contract stands; length and first letter tell. */
  function Place(key: string): int {
    if key == "" then -1
    else
      match |key|
      case 18 => 0
      case 17 => if key[0] == 'e' then 1 else 3
      case 22 => 2
      case 21 => if key[0] == 'e' then 4 else if key[0] == 'a' then 5 else 6
      case 8 => 7
      case 11 => if key[0] == 'a' then 8 else if key[0] == 'f' then 10 else 12
      case 13 => 9
      case 12 => 13
      case 14 => 14
      case 19 => 15
      case _ => -1
  }

  const FRAGMENT_DEFAULT: int := 10

  predicate InPlace(rule: Rule, i: int) {
    Place(rule.key) == if i == FRAGMENT_DEFAULT + 1 then FRAGMENT_DEFAULT else i
  }

  lemma {:induction false} ContractRulesInPlace(i: nat)
    requires i < |Rules(STORAGE_CONTRACT)|
    ensures InPlace(Rules(STORAGE_CONTRACT)[i], i)
  {
  }

  lemma {:induction false} RulesAreCompatible(t: BlockType)
    ensures CompatibleRules(Rules(t))
  {
    var rules := Rules(t);
    if t == STORAGE_CONTRACT {
      forall i, j | 0 <= i < j < |rules| ensures Compatible(rules[i], rules[j]) {
        ContractRulesInPlace(i);
        ContractRulesInPlace(j);
      }
    }
  }

  lemma {:induction false} WireFits(payload: Fields, rule: Rule)
    ensures RuleFits(WireFields(payload), rule)
  {
    WireFieldsBigFree(payload);
    var v := Get(WireFields(payload), rule.key);
    if rule.DefaultInEach? && v.Some? && v.value.Arr? {
      assert BigFree(v.value);
      forall i | 0 <= i < |v.value.items| && v.value.items[i].Obj?
        ensures NoZeroBig(v.value.items[i].fields, rule.inner)
      {
        assert BigFree(v.value.items[i]);
      }
    }
  }

  /** The signed view is the same before and after the wire. */
  lemma {:induction false} SignedViewSurvivesWire(t: BlockType, payload: Fields)
    requires forall i :: 0 <= i < |Rules(t)| ==> RuleFits(payload, Rules(t)[i])
    ensures SignedPayload(t, WireFields(payload)) == SignedPayload(t, payload)
  {
    var rules := Rules(t);
    forall i | 0 <= i < |rules|
      ensures RuleFits(WireFields(payload), rules[i])
    {
      WireFits(payload, rules[i]);
    }
    WireFieldsBigFree(payload);
    WireKeepsFields(WireFields(payload));
    RulesAreCompatible(t);
    RulesSame(WireFields(payload), payload, rules);
  }

  lemma {:induction false} TypedKeyIsBigFree(fields: Fields, key: string)
    requires TypedKeys(fields, ["shardIndex"]) && key != "shardIndex"
    ensures NoZeroBig(fields, key)
  {
    var v := Get(fields, key);
    if v.Some? {
      var i :| 0 <= i < |fields| && fields[i] == Field(key, v.value);
      assert fields[i].key !in ["shardIndex"];
    }
  }

  /** A default never falls on a plain BigInt, and the array rule on the array slot. */
  predicate RuleSuits(slots: seq<Slot>, rule: Rule) {
    match rule
    case Numeric(_) => true
    case Default(key, _) => !(SlotFor(slots, key).Some? && SlotFor(slots, key).value.Plain?)
    case DefaultInEach(key, inner, _) => SlotFor(slots, key) == Some(Each(key, ["shardIndex"])) && inner != "shardIndex"
  }

  /** Payloads as declared never have a zero BigInt where a default applies. */
  lemma {:induction false} TypedFits(payload: Fields, slots: seq<Slot>, rule: Rule)
    requires Typed(payload, slots) && RuleSuits(slots, rule)
    ensures RuleFits(payload, rule)
  {
    var v := Get(payload, rule.key);
    if v.Some? {
      var i :| 0 <= i < |payload| && payload[i] == Field(rule.key, v.value);
      assert match SlotFor(slots, payload[i].key)
             case Some(slot) => TypedSlot(payload[i].value, slot)
             case None => BigFree(payload[i].value);
      if rule.DefaultInEach? && v.value.Arr? {
        forall k | 0 <= k < |v.value.items| && v.value.items[k].Obj?
          ensures NoZeroBig(v.value.items[k].fields, rule.inner)
        {
          TypedKeyIsBigFree(v.value.items[k].fields, rule.inner);
        }
      }
    }
  }

  lemma {:induction false} DefaultPlaces(i: nat)
    requires i < |Rules(STORAGE_CONTRACT)| && Rules(STORAGE_CONTRACT)[i].Default?
    ensures i !in [3, 4, 5, 6, 11, 15]
  {
  }

  lemma {:induction false} EachPlace(i: nat)
    requires i < |Rules(STORAGE_CONTRACT)| && Rules(STORAGE_CONTRACT)[i].DefaultInEach?
    ensures Rules(STORAGE_CONTRACT)[i] == DefaultInEach("fragmentMap", "physicalId", Str(""))
  {
  }

  lemma {:induction false} PlainPlaces(slot: Slot)
    requires slot in Slots(STORAGE_CONTRACT) && slot.Plain?
    ensures Place(slot.key) in [3, 4, 5, 6, 15]
  {
  }

  lemma {:induction false} NotPlain(key: string)
    requires Place(key) !in [3, 4, 5, 6, 15]
    ensures !(SlotFor(Slots(STORAGE_CONTRACT), key).Some? && SlotFor(Slots(STORAGE_CONTRACT), key).value.Plain?)
  {
    var found := SlotFor(Slots(STORAGE_CONTRACT), key);
    if found.Some? && found.value.Plain? {
      PlainPlaces(found.value);
    }
  }

  lemma {:induction false} SlotForFirst(slots: seq<Slot>, k: nat)
    requires k < |slots| && forall i :: 0 <= i < k ==> slots[i].key != slots[k].key
    ensures SlotFor(slots, slots[k].key) == Some(slots[k])
  {
    if k == 0 {
    } else {
      SlotForFirst(slots[1..], k - 1);
    }
  }

  lemma {:induction false} FragmentSlot()
    ensures SlotFor(Slots(STORAGE_CONTRACT), "fragmentMap") == Some(Each("fragmentMap", ["shardIndex"]))
  {
    SlotForFirst(Slots(STORAGE_CONTRACT), 6);
  }

  lemma {:induction false} ContractRulesMeetSlots(rule: Rule, i: nat)
    requires i < |Rules(STORAGE_CONTRACT)| && rule == Rules(STORAGE_CONTRACT)[i]
    ensures RuleSuits(Slots(STORAGE_CONTRACT), rule)
  {
    match rule {
      case Numeric(_) =>
      case Default(key, _) =>
        ContractRulesInPlace(i);
        DefaultPlaces(i);
        NotPlain(key);
      case DefaultInEach(key, inner, _) =>
        EachPlace(i);
        FragmentSlot();
    }
  }

  lemma {:induction false} RulesMeetSlots(t: BlockType, i: nat)
    requires i < |Rules(t)|
    ensures RuleSuits(Slots(t), Rules(t)[i])
  {
    if t == STORAGE_CONTRACT {
      ContractRulesMeetSlots(Rules(t)[i], i);
    }
  }

  /** So for every block type, what is verified after the wire is what was signed before it. */
  lemma {:induction false} TypedViewSurvivesWire(t: BlockType, payload: Fields)
    requires Typed(payload, Slots(t))
    ensures SignedPayload(t, WireFields(payload)) == SignedPayload(t, payload)
  {
    var rules := Rules(t);
    forall i | 0 <= i < |rules|
      ensures RuleFits(payload, rules[i])
    {
      RulesMeetSlots(t, i);
      TypedFits(payload, Slots(t), rules[i]);
    }
    SignedViewSurvivesWire(t, payload);
  }

  // ---------- What normalising does to its argument ----------

  /** The copy is shallow: the default physicalId is written into the caller's own fragments. */
  function AfterNormalising(t: BlockType, payload: Fields): Fields {
    if t == STORAGE_CONTRACT then ApplyRule(payload, DefaultInEach("fragmentMap", "physicalId", Str(""))) else payload
  }

  predicate Filled(fields: Fields, key: string, value: Json) {
    Truthy(Get(fields, key)) || Get(fields, key) == Some(value)
  }

  lemma {:induction false} FillInFixed(fields: Fields, key: string, value: Json)
    ensures FillIn(fields, key, value) == fields <==> Filled(fields, key, value)
  {
    var v := Get(fields, key);
    GetSet(fields, key, value, key);
    if v.Some? {
      SetSame(fields, key, v.value);
    }
  }

  lemma {:induction false} FillItemsFixed(items: seq<Json>, key: string, value: Json)
    ensures FillItems(items, key, value) == items <==>
            forall i :: 0 <= i < |items| && items[i].Obj? ==> Filled(items[i].fields, key, value)
  {
    if items == [] {
    } else {
      var filled := FillItems(items, key, value);
      FillItemsFixed(items[1..], key, value);
      assert filled[1..] == FillItems(items[1..], key, value);
      if items[0].Obj? {
        FillInFixed(items[0].fields, key, value);
      }
      assert items == [items[0]] + items[1..] && filled == [filled[0]] + filled[1..];
      assert filled == items <==> filled[0] == items[0] && filled[1..] == items[1..];
      assert forall i :: 0 < i < |items| ==> items[i] == items[1..][i - 1];
    }
  }

  lemma {:induction false} SetFixed(fields: Fields, key: string, v: Json, w: Json)
    requires Get(fields, key) == Some(v)
    ensures Set(fields, key, w) == fields <==> w == v
  {
    GetSet(fields, key, w, key);
    SetSame(fields, key, v);
  }

  /** Verifying a signature leaves the payload alone exactly when no fragment lacks its physicalId. */
  lemma {:induction false} NormalisingKeepsPayload(payload: Fields, items: seq<Json>)
    requires Get(payload, "fragmentMap") == Some(Arr(items))
    ensures AfterNormalising(STORAGE_CONTRACT, payload) == payload <==>
            forall i :: 0 <= i < |items| && items[i].Obj? ==> Filled(items[i].fields, "physicalId", Str(""))
  {
    FillItemsFixed(items, "physicalId", Str(""));
    SetFixed(payload, "fragmentMap", Arr(items), Arr(FillItems(items, "physicalId", Str(""))));
  }

  /** The whole block as a document: its previous hash is defaulted in place as well. */
  function DocAfterNormalising(t: BlockType, doc: Fields, payload: Fields): Fields {
    Set(FillIn(doc, "previousHash", Str("")), "payload", Obj(AfterNormalising(t, payload)))
  }

  /** So the document that is hashed stays as it was exactly if it has a previous hash, if only the
      empty one, and its payload stays. */
  lemma {:induction false} NormalisingKeepsDoc(t: BlockType, doc: Fields, payload: Fields)
    requires Get(doc, "payload") == Some(Obj(payload))
    ensures DocAfterNormalising(t, doc, payload) == doc <==>
            Filled(doc, "previousHash", Str("")) && AfterNormalising(t, payload) == payload
  {
    var filled, after := FillIn(doc, "previousHash", Str("")), Obj(AfterNormalising(t, payload));
    FillInFixed(doc, "previousHash", Str(""));
    GetSet(doc, "previousHash", if Truthy(Get(doc, "previousHash")) then Get(doc,
        "previousHash").value else Str(""), "payload");
    GetSet(filled, "payload", after, "payload");
    SetFixed(filled, "payload", Obj(payload), after);
  }

  // ---------- The mutable block ----------

  class BlockObject {
    const blockType: BlockType
    var previousHash: Option<string>
    var payload: Fields

    constructor (t: BlockType, previousHash: Option<string>, payload: Fields)
      ensures blockType == t && this.previousHash == previousHash && this.payload == payload
    {
      blockType := t;
      this.previousHash := previousHash;
      this.payload := payload;
    }

    /** hydrateBlockBigInts; false stands for the exception of the first bad property. */
    method HydrateBlockBigInts() returns (ok: bool)
      modifies this`payload
      ensures ok ==> Hydrate(blockType, old(payload)) == Some(payload)
      ensures !ok ==> Hydrate(blockType, old(payload)) == None
    {
      var slots := Slots(blockType);
      var i := 0;
      assert slots[0..] == slots;
      while i < |slots|
        invariant 0 <= i <= |slots|
        invariant HydrateSlots(payload, slots[i..]) == HydrateSlots(old(payload), slots)
      {
        assert slots[i..][1..] == slots[i + 1..];
        var hydrated := HydrateSlot(payload, slots[i]);
        if hydrated.None? {
          return false;
        }
        payload := hydrated.value;
        i := i + 1;
      }
      ok := true;
    }

    /** normalizeBlockForSignature: the signed payload, and its traces on the block itself. */
    method NormalizeBlockForSignature() returns (signedPayload: Fields)
      modifies this`previousHash, this`payload
      ensures signedPayload == SignedPayload(blockType, old(payload))
      ensures previousHash == Some(old(previousHash).GetOr(""))
      ensures payload == AfterNormalising(blockType, old(payload))
    {
      if previousHash.None? || previousHash.value == "" {
        previousHash := Some("");
      }
      var rules := Rules(blockType);
      var p := payload;
      var i := 0;
      assert rules[0..] == rules;
      while i < |rules|
        invariant 0 <= i <= |rules|
        invariant ApplyRules(p, rules[i..]) == ApplyRules(payload, rules)
      {
        assert rules[i..][1..] == rules[i + 1..];
        p := ApplyRule(p, rules[i]);
        i := i + 1;
      }
      signedPayload := WireFields(p);
      payload := AfterNormalising(blockType, payload);
    }
  }
}
