/** JSON values as JavaScript holds them, with BigInts, and what the wire and the database do
    to them: JSON.stringify with the BigInt replacer, then JSON.parse. */
module Json {
  import opened Platform
  import opened Wrappers

  datatype Json =
    | Null
    | Bool(b: bool)
    | Number(n: int)
    | Big(big: int)
    | Str(s: string)
    | Arr(items: seq<Json>)
    | Obj(fields: Fields)

  /** Own properties in insertion order. A property that is undefined is absent. */
  datatype Field = Field(key: string, value: Json)

  type Fields = seq<Field>

  // ---------- Decimal text ----------

  function PrintNat(n: nat): (s: string)
    ensures s != "" && forall i :: 0 <= i < |s| ==> '0' <= s[i] <= '9'
  {
    var digit := '0' + (n % 10) as char;
    if n < 10 then [digit] else PrintNat(n / 10) + [digit]
  }

  /** BigInt.prototype.toString. */
  function Decimal(n: int): string {
    if n < 0 then "-" + PrintNat(-n) else PrintNat(n)
  }

  /** String.prototype.trim. */
  function Trim(s: string): string
    decreases |s|
  {
    if s == "" then ""
    else if IsSpace(s[0]) then Trim(s[1..])
    else if IsSpace(s[|s| - 1]) then Trim(s[..|s| - 1])
    else s
  }

  function DigitValue(c: char): Option<nat> {
    if '0' <= c <= '9' then Some((c - '0') as nat)
    else if 'a' <= c <= 'f' then Some((c - 'a') as nat + 10)
    else if 'A' <= c <= 'F' then Some((c - 'A') as nat + 10)
    else None
  }

  function ParseNat(s: string, radix: nat): Option<nat> {
    if s == "" then Some(0)
    else
      var digit := DigitValue(s[|s| - 1]);
      var front := ParseNat(s[..|s| - 1], radix);
      if digit.Some? && digit.value < radix && front.Some? then Some(radix * front.value + digit.value) else None
  }

  function RadixOf(c: char): Option<nat> {
    if c == 'x' || c == 'X' then Some(16)
    else if c == 'o' || c == 'O' then Some(8)
    else if c == 'b' || c == 'B' then Some(2)
    else None
  }

  /** A sign needs digits. */
  function ParseSigned(s: string): Option<int>
    requires s != ""
  {
    if s[0] == '-' || s[0] == '+' then
      match ParseNat(s[1..], 10)
      case Some(n) => if |s| == 1 then None else Some(if s[0] == '-' then 0 - n else n)
      case None => None
    else
      match ParseNat(s, 10)
      case Some(n) => Some(n)
      case None => None
  }

  /** BigInt(text): surrounding space is ignored, the empty text is zero, a prefix gives the radix. */
  function ParseBig(s: string): Option<int> {
    var t := Trim(s);
    if t == "" then Some(0)
    else if |t| > 2 && t[0] == '0' && RadixOf(t[1]).Some? then
      match ParseNat(t[2..], RadixOf(t[1]).value)
      case Some(n) => Some(n)
      case None => None
    else ParseSigned(t)
  }

  lemma {:induction false} ParsePrintNat(n: nat)
    ensures ParseNat(PrintNat(n), 10) == Some(n)
    decreases n
  {
    var digit := '0' + (n % 10) as char;
    assert DigitValue(digit) == Some(n % 10);
    if n < 10 {
      assert [digit][..0] == "";
      assert ParseNat("", 10) == Some(0);
    } else {
      ParsePrintNat(n / 10);
      assert (PrintNat(n / 10) + [digit])[..|PrintNat(n / 10)|] == PrintNat(n / 10);
    }
  }

  lemma {:induction false} DecimalIsPlain(n: int)
    ensures var s := Decimal(n); s != "" && Trim(s) == s && (|s| > 2 ==> RadixOf(s[1]).None?)
  {
    var s := Decimal(n);
    assert forall i :: 0 < i < |s| ==> '0' <= s[i] <= '9';
    assert !IsSpace(s[0]) && !IsSpace(s[|s| - 1]);
  }

  lemma {:induction false} ParseNegative(n: nat)
    requires n > 0
    ensures ParseSigned("-" + PrintNat(n)) == Some(0 - n)
  {
    ParsePrintNat(n);
    var s := "-" + PrintNat(n);
    assert s[0] == '-' && s[1..] == PrintNat(n) && |s| > 1;
  }

  lemma {:induction false} ParsePrintSigned(n: int)
    ensures ParseSigned(Decimal(n)) == Some(n)
  {
    if n < 0 {
      ParseNegative(-n);
    } else {
      ParsePrintNat(n);
      assert PrintNat(n)[0] != '-' && PrintNat(n)[0] != '+';
    }
  }

  /** Printing and parsing undo each other on every integer. */
  lemma {:induction false} ParsePrint(n: int)
    ensures ParseBig(Decimal(n)) == Some(n)
  {
    DecimalIsPlain(n);
    ParsePrintSigned(n);
  }

  /** What an array or an object is turned into before it is parsed. */
  function PrimitiveText(v: Json): string {
    match v
    case Null => ""
    case Bool(b) => if b then "true" else "false"
    case Number(n) => Decimal(n)
    case Big(n) => Decimal(n)
    case Str(s) => s
    case Arr(items) => JoinedText(items)
    case Obj(_) => "[object Object]"
  }

  function JoinedText(items: seq<Json>): string {
    if items == [] then ""
    else if |items| == 1 then PrimitiveText(items[0])
    else PrimitiveText(items[0]) + "," + JoinedText(items[1..])
  }

  // ---------- The wire ----------

  function Wire(v: Json): Json {
    match v
    case Big(n) => Str(Decimal(n))
    case Arr(items) => Arr(WireItems(items))
    case Obj(fields) => Obj(WireFields(fields))
    case _ => v
  }

  function WireItems(items: seq<Json>): (r: seq<Json>)
    ensures |r| == |items|
  {
    if items == [] then [] else [Wire(items[0])] + WireItems(items[1..])
  }

  function WireFields(fields: Fields): (r: Fields)
    ensures |r| == |fields|
  {
    if fields == [] then []
    else
      [Field(fields[0].key, Wire(fields[0].value))] + WireFields(fields[1..])
  }

  lemma {:induction false} PrimitiveTextSurvivesWire(v: Json)
    ensures PrimitiveText(Wire(v)) == PrimitiveText(v)
    decreases v, 1
  {
    match v {
      case Arr(items) => JoinedTextSurvivesWire(items);
      case _ =>
    }
  }

  lemma {:induction false} JoinedTextSurvivesWire(items: seq<Json>)
    ensures JoinedText(WireItems(items)) == JoinedText(items)
    decreases items, 0
  {
    if items == [] {
    } else {
      PrimitiveTextSurvivesWire(items[0]);
      JoinedTextSurvivesWire(items[1..]);
      assert WireItems(items)[1..] == WireItems(items[1..]);
    }
  }

  predicate BigFree(v: Json) {
    match v
    case Big(_) => false
    case Arr(items) => forall i :: 0 <= i < |items| ==> BigFree(items[i])
    case Obj(fields) => forall i :: 0 <= i < |fields| ==> BigFree(fields[i].value)
    case _ => true
  }

  /** A value without BigInts comes back as it was. */
  lemma {:induction false} WireKeepsBigFree(v: Json)
    requires BigFree(v)
    ensures Wire(v) == v
    decreases v, 1
  {
    match v {
      case Arr(items) => WireKeepsItems(items);
      case Obj(fields) => WireKeepsFields(fields);
      case _ =>
    }
  }

  lemma {:induction false} WireKeepsItems(items: seq<Json>)
    requires forall i :: 0 <= i < |items| ==> BigFree(items[i])
    ensures WireItems(items) == items
    decreases items, 0
  {
    if items == [] {
    } else {
      WireKeepsBigFree(items[0]);
      WireKeepsItems(items[1..]);
    }
  }

  lemma {:induction false} WireKeepsFields(fields: Fields)
    requires forall i :: 0 <= i < |fields| ==> BigFree(fields[i].value)
    ensures WireFields(fields) == fields
    decreases fields, 0
  {
    if fields == [] {
    } else {
      WireKeepsBigFree(fields[0].value);
      WireKeepsFields(fields[1..]);
    }
  }

  /** What went over the wire once is not changed by going again. */
  lemma {:induction false} WireIsBigFree(v: Json)
    ensures BigFree(Wire(v))
    decreases v, 1
  {
    match v {
      case Arr(items) => WireItemsBigFree(items);
      case Obj(fields) => WireFieldsBigFree(fields);
      case _ =>
    }
  }

  lemma {:induction false} WireItemsBigFree(items: seq<Json>)
    ensures forall i :: 0 <= i < |items| ==> BigFree(WireItems(items)[i])
    decreases items, 0
  {
    if items == [] {
    } else {
      WireIsBigFree(items[0]);
      WireItemsBigFree(items[1..]);
    }
  }

  lemma {:induction false} WireFieldsBigFree(fields: Fields)
    ensures forall i :: 0 <= i < |fields| ==> BigFree(WireFields(fields)[i].value)
    decreases fields, 0
  {
    if fields == [] {
    } else {
      WireIsBigFree(fields[0].value);
      WireFieldsBigFree(fields[1..]);
    }
  }

  // ---------- Text ----------

  /** JSON.stringify with the replacer; `quote` writes a string literal. */
  function Text(quote: string -> string, v: Json): string {
    match v
    case Null => "null"
    case Bool(b) => if b then "true" else "false"
    case Number(n) => Decimal(n)
    case Big(n) => quote(Decimal(n))
    case Str(s) => quote(s)
    case Arr(items) => "[" + ItemsText(quote, items) + "]"
    case Obj(fields) => "{" + FieldsText(quote, fields) + "}"
  }

  function ItemsText(quote: string -> string, items: seq<Json>): string {
    if items == [] then ""
    else if |items| == 1 then Text(quote, items[0])
    else Text(quote, items[0]) + "," + ItemsText(quote, items[1..])
  }

  function FieldsText(quote: string -> string, fields: Fields): string {
    if fields == [] then ""
    else
      var head := quote(fields[0].key) + ":" + Text(quote, fields[0].value);
      if |fields| == 1 then head else head + "," + FieldsText(quote, fields[1..])
  }

  /** The text of a value is the text of what arrives. */
  lemma {:induction false} TextSurvivesWire(quote: string -> string, v: Json)
    ensures Text(quote, Wire(v)) == Text(quote, v)
    decreases v, 1
  {
    match v {
      case Arr(items) => ItemsTextSurvivesWire(quote, items);
      case Obj(fields) => FieldsTextSurvivesWire(quote, fields);
      case _ =>
    }
  }

  lemma {:induction false} ItemsTextSurvivesWire(quote: string -> string, items: seq<Json>)
    ensures ItemsText(quote, WireItems(items)) == ItemsText(quote, items)
    decreases items, 0
  {
    if items == [] {
    } else {
      TextSurvivesWire(quote, items[0]);
      ItemsTextSurvivesWire(quote, items[1..]);
      assert WireItems(items)[1..] == WireItems(items[1..]);
    }
  }

  lemma {:induction false} FieldsTextSurvivesWire(quote: string -> string, fields: Fields)
    ensures FieldsText(quote, WireFields(fields)) == FieldsText(quote, fields)
    decreases fields, 0
  {
    if fields == [] {
    } else {
      TextSurvivesWire(quote, fields[0].value);
      FieldsTextSurvivesWire(quote, fields[1..]);
      assert WireFields(fields)[1..] == WireFields(fields[1..]);
    }
  }

  // ---------- Properties ----------

  function Get(fields: Fields, key: string): (r: Option<Json>)
    ensures r.Some? ==> exists i :: 0 <= i < |fields| && fields[i] == Field(key, r.value)
    ensures r.None? ==> forall i :: 0 <= i < |fields| ==> fields[i].key != key
  {
    if fields == [] then None
    else if fields[0].key == key then
      assert fields[0] == Field(key, fields[0].value);
      Some(fields[0].value)
    else
      var r := Get(fields[1..], key);
      assert r.Some? ==> Field(key, r.value) in fields[1..];
      r
  }

  /** Assignment: in place if the property exists, else at the end. */
  function Set(fields: Fields, key: string, v: Json): Fields {
    if fields == [] then [Field(key, v)]
    else if fields[0].key == key then [Field(key, v)] + fields[1..]
    else [fields[0]] + Set(fields[1..], key, v)
  }

  function Remove(fields: Fields, key: string): Fields {
    if fields == [] then []
    else if fields[0].key == key then Remove(fields[1..], key)
    else [fields[0]] + Remove(fields[1..], key)
  }

  lemma {:induction false} GetRemove(fields: Fields, key: string, other: string)
    ensures Get(Remove(fields, key), other) == if other == key then None else Get(fields, other)
  {
    if fields == [] {
    } else {
      GetRemove(fields[1..], key, other);
      if fields[0].key != key {
        assert Remove(fields, key)[1..] == Remove(fields[1..], key);
      }
    }
  }

  predicate UniqueKeys(fields: Fields) {
    forall i, j :: 0 <= i < j < |fields| ==> fields[i].key != fields[j].key
  }

  lemma {:induction false} GetWire(fields: Fields, key: string)
    ensures Get(WireFields(fields), key) == (match Get(fields, key) case Some(v) => Some(Wire(v)) case None => None)
  {
    if fields == [] {
    } else {
      GetWire(fields[1..], key);
      assert WireFields(fields)[1..] == WireFields(fields[1..]);
    }
  }

  lemma {:induction false} SetWire(fields: Fields, key: string, v: Json)
    ensures WireFields(Set(fields, key, v)) == Set(WireFields(fields), key, Wire(v))
  {
    if fields != [] {
      SetWire(fields[1..], key, v);
      assert WireFields(fields)[1..] == WireFields(fields[1..]);
      if fields[0].key == key {
        assert Set(fields, key, v)[1..] == fields[1..];
      } else {
        assert Set(fields, key, v)[1..] == Set(fields[1..], key, v);
      }
    } else {
      assert WireFields([Field(key, v)]) == [Field(key, Wire(v))] + WireFields([Field(key, v)][1..]);
    }
  }

  lemma {:induction false} RemoveWire(fields: Fields, key: string)
    ensures WireFields(Remove(fields, key)) == Remove(WireFields(fields), key)
  {
    if fields == [] {
    } else {
      RemoveWire(fields[1..], key);
      assert WireFields(fields)[1..] == WireFields(fields[1..]);
      if fields[0].key != key {
        assert Remove(fields, key)[1..] == Remove(fields[1..], key);
      }
    }
  }

  lemma {:induction false} GetSet(fields: Fields, key: string, v: Json, other: string)
    ensures Get(Set(fields, key, v), other) == if other == key then Some(v) else Get(fields, other)
  {
    if fields == [] {
    } else {
      GetSet(fields[1..], key, v, other);
      if fields[0].key == key {
        assert Set(fields, key, v)[1..] == fields[1..];
      } else {
        assert Set(fields, key, v)[1..] == Set(fields[1..], key, v);
      }
    }
  }
}
