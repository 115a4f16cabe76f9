/** The text of a value, which is what blocks are hashed from, tells the value up to what the wire
    does to it. */
module JsonText {
  import opened Json

  /** A string literal says where it ends and what it stands for. */
  ghost predicate Literals(quote: string -> string) {
    && (forall s :: quote(s) != "" && quote(s)[0] == '"')
    && (forall s, t, x, y :: quote(s) + x == quote(t) + y ==> s == t && x == y)
  }

  const HEX := "0123456789abcdef"

  /** One character of a string literal, as JSON.stringify writes it. */
  function Escape(c: char): string {
    if c == '"' then "\\\""
    else if c == '\\' then "\\\\"
    else if c as int == 8 then "\\b"
    else if c as int == 9 then "\\t"
    else if c as int == 10 then "\\n"
    else if c as int == 12 then "\\f"
    else if c as int == 13 then "\\r"
    else if c < ' ' then "\\u00" + [HEX[c as int / 16], HEX[c as int % 16]]
    else [c]
  }

  function Escaped(s: string): string {
    if s == "" then "" else Escape(s[0]) + Escaped(s[1..])
  }

  function Quote(s: string): string {
    "\"" + Escaped(s) + "\""
  }

  lemma {:induction false} HexTells(i: nat, j: nat)
    requires i < 16 && j < 16 && HEX[i] == HEX[j]
    ensures i == j
  {
  }

  /** An escaped character can be read off the front of a text in one way only. */
  lemma {:induction false} EscapeTells(c: char, d: char, x: string, y: string)
    requires Escape(c) + x == Escape(d) + y
    ensures c == d && x == y
  {
    var a, b, whole := Escape(c), Escape(d), Escape(c) + x;
    assert a[0] == whole[0] == b[0];
    if a[0] == '\\' {
      assert a[1] == whole[1] == b[1];
      if a[1] == 'u' {
        assert a[4] == whole[4] == b[4] && a[5] == whole[5] == b[5];
        HexTells(c as int / 16, d as int / 16);
        HexTells(c as int % 16, d as int % 16);
      }
    }
    assert whole[|a|..] == x && (b + y)[|b|..] == y;
  }

  lemma {:induction false} Regrouped(a: string, b: string, x: string)
    ensures (a + b) + "\"" + x == a + (b + "\"" + x)
    ensures a != "" ==> ((a + b) + "\"" + x)[0] == a[0]
  {
  }

  /** What follows the opening quote: the closing one, or the first character of the string. */
  lemma {:induction false} LiteralContinues(s: string, x: string)
    ensures var rest := Escaped(s) + "\"" + x;
            if s == "" then rest[0] == '"' && rest[1..] == x
            else rest[0] != '"' && rest == Escape(s[0]) + (Escaped(s[1..]) + "\"" + x)
  {
    if s != "" {
      Regrouped(Escape(s[0]), Escaped(s[1..]), x);
    }
  }

  lemma {:induction false} EscapedTells(s: string, t: string, x: string, y: string)
    requires Escaped(s) + "\"" + x == Escaped(t) + "\"" + y
    ensures s == t && x == y
    decreases |s|
  {
    LiteralContinues(s, x);
    LiteralContinues(t, y);
    if s != "" && t != "" {
      EscapeTells(s[0], t[0], Escaped(s[1..]) + "\"" + x, Escaped(t[1..]) + "\"" + y);
      EscapedTells(s[1..], t[1..], x, y);
      assert s == [s[0]] + s[1..] && t == [t[0]] + t[1..];
    }
  }

  lemma {:induction false} Opened(escaped: string, x: string)
    ensures (("\"" + escaped + "\"") + x)[1..] == escaped + "\"" + x
  {
  }

  lemma {:induction false} QuoteTells(s: string, t: string, x: string, y: string)
    requires Quote(s) + x == Quote(t) + y
    ensures s == t && x == y
  {
    Opened(Escaped(s), x);
    Opened(Escaped(t), y);
    EscapedTells(s, t, x, y);
  }

  /** JSON's string literals are such. */
  lemma {:induction false} QuoteIsLiteral()
    ensures Literals(Quote)
  {
    forall s, t, x, y | Quote(s) + x == Quote(t) + y ensures s == t && x == y {
      QuoteTells(s, t, x, y);
    }
  }

  predicate IsDigit(c: char) {
    '0' <= c <= '9'
  }

  /** What can follow a value: nothing, or the end of an item or of its container. */
  predicate Ends(rest: string) {
    rest == "" || rest[0] in {',', ']', '}'}
  }

  // ---------- Numbers ----------

  /** The digits of a number end where no digit follows. */
  lemma {:induction false} DigitsEnd(a: string, b: string, x: string, y: string)
    requires forall i :: 0 <= i < |a| ==> IsDigit(a[i])
    requires forall i :: 0 <= i < |b| ==> IsDigit(b[i])
    requires Ends(x) && Ends(y) && a + x == b + y
    ensures a == b && x == y
  {
    var whole := a + x;
    assert a == "" ==> whole == x;
    assert b == "" ==> whole == y;
    assert a != "" ==> whole[0] == a[0];
    assert b != "" ==> whole[0] == b[0];
    if a != "" && b != "" {
      assert whole[1..] == a[1..] + x == b[1..] + y;
      DigitsEnd(a[1..], b[1..], x, y);
      assert a == [a[0]] + a[1..] && b == [b[0]] + b[1..];
    }
  }

  lemma {:induction false} NumbersEnd(n: int, m: int, x: string, y: string)
    requires Ends(x) && Ends(y) && Decimal(n) + x == Decimal(m) + y
    ensures n == m && x == y
  {
    var a, b := Decimal(n), Decimal(m);
    assert a[0] == (a + x)[0] == (b + y)[0] == b[0];
    var digitsA, digitsB := if n < 0 then a[1..] else a, if m < 0 then b[1..] else b;
    if n < 0 {
      assert (a + x)[1..] == digitsA + x && (b + y)[1..] == digitsB + y;
    }
    DigitsEnd(digitsA, digitsB, x, y);
    assert a == b;
    ParsePrint(n);
    ParsePrint(m);
  }

  // ---------- Values ----------

  /** The first character tells the kind of a value. */
  lemma {:induction false} TextHead(quote: string -> string, v: Json)
    requires Literals(quote)
    ensures Text(quote, v) != ""
    ensures var c := Text(quote, v)[0];
            match v
            case Null => c == 'n'
            case Bool(b) => c == if b then 't' else 'f'
            case Number(_) => c == '-' || IsDigit(c)
            case Big(_) => c == '"'
            case Str(_) => c == '"'
            case Arr(_) => c == '['
            case Obj(_) => c == '{'
  {
  }

  /** What follows an item, with the bracket that ends its list. */
  function AfterItem(quote: string -> string, items: seq<Json>): string
    requires items != []
  {
    if |items| == 1 then "]" else "," + ItemsText(quote, items[1..]) + "]"
  }

  function AfterField(quote: string -> string, fields: Fields): string
    requires fields != []
  {
    if |fields| == 1 then "}" else "," + FieldsText(quote, fields[1..]) + "}"
  }

  lemma {:induction false} ItemsInParts(quote: string -> string, items: seq<Json>, x: string)
    requires items != []
    ensures ItemsText(quote, items) + "]" + x == Text(quote, items[0]) + (AfterItem(quote, items) + x)
    ensures Ends(AfterItem(quote, items) + x)
  {
  }

  lemma {:induction false} FieldsInParts(quote: string -> string, fields: Fields, x: string)
    requires fields != []
    ensures FieldsText(quote, fields) + "}" + x
            == quote(fields[0].key) + (":" + (Text(quote, fields[0].value) + (AfterField(quote, fields) + x)))
    ensures Ends(AfterField(quote, fields) + x)
  {
  }

  lemma {:induction false} SomeItems(quote: string -> string, items: seq<Json>, y: string)
    requires Literals(quote) && items != []
    ensures (ItemsText(quote, items) + "]" + y)[0] != ']'
  {
    TextHead(quote, items[0]);
    ItemsInParts(quote, items, y);
  }

  lemma {:induction false} NoItems(quote: string -> string, items: seq<Json>, x: string, y: string)
    requires Literals(quote) && "]" + x == ItemsText(quote, items) + "]" + y
    ensures items == [] && x == y
  {
    assert ("]" + x)[0] == ']' && ("]" + x)[1..] == x && ("]" + y)[1..] == y;
    if items != [] {
      SomeItems(quote, items, y);
    }
  }

  lemma {:induction false} RestOfItems(quote: string -> string, items: seq<Json>, x: string)
    requires items != []
    ensures (AfterItem(quote, items) + x)[0] == if |items| == 1 then ']' else ','
    ensures (AfterItem(quote, items) + x)[1..]
            == if |items| == 1 then x else ItemsText(quote, items[1..]) + "]" + x
  {
  }

  lemma {:induction false} MoreItems(quote: string -> string, a: seq<Json>, b: seq<Json>, x: string, y: string)
    requires a != [] && b != [] && AfterItem(quote, a) + x == AfterItem(quote, b) + y
    ensures |a| == 1 <==> |b| == 1
    ensures |a| == 1 ==> x == y
    ensures |a| > 1 ==> ItemsText(quote, a[1..]) + "]" + x == ItemsText(quote, b[1..]) + "]" + y
  {
    RestOfItems(quote, a, x);
    RestOfItems(quote, b, y);
  }

  lemma {:induction false} SomeFields(quote: string -> string, fields: Fields, y: string)
    requires Literals(quote) && fields != []
    ensures (FieldsText(quote, fields) + "}" + y)[0] != '}'
  {
    FieldsInParts(quote, fields, y);
  }

  lemma {:induction false} NoFields(quote: string -> string, fields: Fields, x: string, y: string)
    requires Literals(quote) && "}" + x == FieldsText(quote, fields) + "}" + y
    ensures fields == [] && x == y
  {
    assert ("}" + x)[0] == '}' && ("}" + x)[1..] == x && ("}" + y)[1..] == y;
    if fields != [] {
      SomeFields(quote, fields, y);
    }
  }

  lemma {:induction false} RestOfFields(quote: string -> string, fields: Fields, x: string)
    requires fields != []
    ensures (AfterField(quote, fields) + x)[0] == if |fields| == 1 then '}' else ','
    ensures (AfterField(quote, fields) + x)[1..]
            == if |fields| == 1 then x else FieldsText(quote, fields[1..]) + "}" + x
  {
  }

  lemma {:induction false} MoreFields(quote: string -> string, a: Fields, b: Fields, x: string, y: string)
    requires a != [] && b != [] && AfterField(quote, a) + x == AfterField(quote, b) + y
    ensures |a| == 1 <==> |b| == 1
    ensures |a| == 1 ==> x == y
    ensures |a| > 1 ==> FieldsText(quote, a[1..]) + "}" + x == FieldsText(quote, b[1..]) + "}" + y
  {
    RestOfFields(quote, a, x);
    RestOfFields(quote, b, y);
  }

  lemma {:induction false} SameFirstKey(quote: string -> string, a: Fields, b: Fields, x: string, y: string)
    requires Literals(quote) && a != [] && b != []
    requires FieldsText(quote, a) + "}" + x == FieldsText(quote, b) + "}" + y
    ensures a[0].key == b[0].key
    ensures Text(quote, a[0].value) + (AfterField(quote, a) + x) == Text(quote, b[0].value) + (AfterField(quote, b) + y)
    ensures Ends(AfterField(quote, a) + x) && Ends(AfterField(quote, b) + y)
  {
    FieldsInParts(quote, a, x);
    FieldsInParts(quote, b, y);
    var valueA := Text(quote, a[0].value) + (AfterField(quote, a) + x);
    var valueB := Text(quote, b[0].value) + (AfterField(quote, b) + y);
    assert quote(a[0].key) + (":" + valueA) == quote(b[0].key) + (":" + valueB);
    assert (":" + valueA)[1..] == valueA && (":" + valueB)[1..] == valueB;
  }

  /** Equal texts, each up to something that ends a value, are of values that are equal on the wire. */
  lemma {:induction false} TextTells(quote: string -> string, v: Json, w: Json, x: string, y: string)
    requires Literals(quote) && Ends(x) && Ends(y) && Text(quote, v) + x == Text(quote, w) + y
    ensures Wire(v) == Wire(w) && x == y
    decreases v, 1
  {
    TextHead(quote, v);
    TextHead(quote, w);
    assert Text(quote, v)[0] == (Text(quote, v) + x)[0] == (Text(quote, w) + y)[0] == Text(quote, w)[0];
    if v.Arr? {
      var a, b := ItemsText(quote, v.items), ItemsText(quote, w.items);
      assert ("[" + a + "]" + x)[1..] == a + "]" + x && ("[" + b + "]" + y)[1..] == b + "]" + y;
      ItemsTell(quote, v.items, w.items, x, y);
    } else if v.Obj? {
      var a, b := FieldsText(quote, v.fields), FieldsText(quote, w.fields);
      assert ("{" + a + "}" + x)[1..] == a + "}" + x && ("{" + b + "}" + y)[1..] == b + "}" + y;
      FieldsTell(quote, v.fields, w.fields, x, y);
    } else if v.Number? {
      NumbersEnd(v.n, w.n, x, y);
    } else if v.Null? || v.Bool? {
      var text := Text(quote, v);
      assert (text + x)[|text|..] == x && (text + y)[|text|..] == y;
    }
  }

  lemma {:induction false} ItemsTell(quote: string -> string, a: seq<Json>, b: seq<Json>, x: string, y: string)
    requires Literals(quote) && ItemsText(quote, a) + "]" + x == ItemsText(quote, b) + "]" + y && Ends(x) && Ends(y)
    ensures WireItems(a) == WireItems(b) && x == y
    decreases a, 0
  {
    if a == [] {
      assert ItemsText(quote, a) + "]" + x == "]" + x;
      NoItems(quote, b, x, y);
    } else if b == [] {
      assert ItemsText(quote, b) + "]" + y == "]" + y;
      NoItems(quote, a, y, x);
    } else {
      ItemsInParts(quote, a, x);
      ItemsInParts(quote, b, y);
      TextTells(quote, a[0], b[0], AfterItem(quote, a) + x, AfterItem(quote, b) + y);
      MoreItems(quote, a, b, x, y);
      if |a| > 1 {
        ItemsTell(quote, a[1..], b[1..], x, y);
      } else {
        assert a[1..] == [] && b[1..] == [];
      }
    }
  }

  lemma {:induction false} FieldsTell(quote: string -> string, a: Fields, b: Fields, x: string, y: string)
    requires Literals(quote) && FieldsText(quote, a) + "}" + x == FieldsText(quote, b) + "}" + y && Ends(x) && Ends(y)
    ensures WireFields(a) == WireFields(b) && x == y
    decreases a, 0
  {
    if a == [] {
      assert FieldsText(quote, a) + "}" + x == "}" + x;
      NoFields(quote, b, x, y);
    } else if b == [] {
      assert FieldsText(quote, b) + "}" + y == "}" + y;
      NoFields(quote, a, y, x);
    } else {
      SameFirstKey(quote, a, b, x, y);
      TextTells(quote, a[0].value, b[0].value, AfterField(quote, a) + x, AfterField(quote, b) + y);
      MoreFields(quote, a, b, x, y);
      if |a| > 1 {
        FieldsTell(quote, a[1..], b[1..], x, y);
      } else {
        assert a[1..] == [] && b[1..] == [];
      }
    }
  }

  /** Two values have one text exactly if they are equal on the wire. */
  lemma {:induction false} TextTellsWireForm(quote: string -> string, v: Json, w: Json)
    requires Literals(quote)
    ensures Text(quote, v) == Text(quote, w) <==> Wire(v) == Wire(w)
  {
    TextSurvivesWire(quote, v);
    TextSurvivesWire(quote, w);
    if Text(quote, v) == Text(quote, w) {
      assert Text(quote, v) + "" == Text(quote, w) + "";
      TextTells(quote, v, w, "", "");
    }
  }
}
