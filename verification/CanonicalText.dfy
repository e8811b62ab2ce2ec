/** The canonical text of a JSON value: how it is printed, and a parser that recovers the value. */
module CanonicalText {
  import opened Common

  /** A UTF-16 code unit, and a string of them. */
  type Unit = c: nat | c < 0x10000
  type Text = seq<Unit>

  const QUOTE: Unit := 34
  const BACKSLASH: Unit := 92
  const COMMA: Unit := 44
  const COLON: Unit := 58
  const OPEN_ARRAY: Unit := 91
  const CLOSE_ARRAY: Unit := 93
  const OPEN_OBJECT: Unit := 123
  const CLOSE_OBJECT: Unit := 125

  const NULL_TEXT: Text := [110, 117, 108, 108]
  const TRUE_TEXT: Text := [116, 114, 117, 101]
  const FALSE_TEXT: Text := [102, 97, 108, 115, 101]
  const ZERO_TEXT: Text := [48]

  /** A digit, a sign, a point or an exponent mark. */
  predicate NumberUnit(c: Unit) {
    48 <= c <= 57 || c == 45 || c == 43 || c == 46 || c == 101
  }

  /** A finite number is its shortest decimal text, as ECMAScript prints it: it starts with a digit or a minus. */
  predicate IsNumberText(t: Text) {
    && |t| > 0
    && (48 <= t[0] <= 57 || t[0] == 45)
    && forall i :: 0 <= i < |t| ==> NumberUnit(t[i])
  }

  type NumberText = t: Text | IsNumberText(t) witness ZERO_TEXT

  /** A JSON value up to what the text does not show: the fields of an object are in the order of their keys. */
  datatype Json =
    | JNull
    | JBool(value: bool)
    | JNumber(text: NumberText)
    | JString(s: Text)
    | JArray(items: seq<Json>)
    | JObject(fields: seq<Field>)

  datatype Field = Field(key: Text, value: Json)

  // ---------------------------------------------------------------------------
  // Strings.
  // ---------------------------------------------------------------------------

  predicate HighSurrogate(c: Unit) {
    0xD800 <= c < 0xDC00
  }

  predicate LowSurrogate(c: Unit) {
    0xDC00 <= c < 0xE000
  }

  function HexDigit(n: nat): Unit
    requires n < 16
  {
    if n < 10 then 48 + n else 87 + n
  }

  function HexEscape(c: Unit): Text {
    [BACKSLASH, 117, HexDigit(c / 4096), HexDigit(c / 256 % 16), HexDigit(c / 16 % 16), HexDigit(c % 16)]
  }

  /** One code unit inside a string: section 7 of RFC 8259, with the short escapes where there is one. */
  function EscapeUnit(c: Unit): Text {
    if c == QUOTE then [BACKSLASH, QUOTE]
    else if c == BACKSLASH then [BACKSLASH, BACKSLASH]
    else if c == 8 then [BACKSLASH, 98]
    else if c == 12 then [BACKSLASH, 102]
    else if c == 10 then [BACKSLASH, 110]
    else if c == 13 then [BACKSLASH, 114]
    else if c == 9 then [BACKSLASH, 116]
    else if c < 32 || HighSurrogate(c) || LowSurrogate(c) then HexEscape(c)
    else [c]
  }

  /** A surrogate pair stands as it is; a surrogate on its own is escaped. */
  predicate StartsPair(s: Text) {
    |s| >= 2 && HighSurrogate(s[0]) && LowSurrogate(s[1])
  }

  function Escape(s: Text): Text {
    if |s| == 0 then []
    else if StartsPair(s) then s[..2] + Escape(s[2..])
    else EscapeUnit(s[0]) + Escape(s[1..])
  }

  /** `JSON.stringify` of a string. */
  function Quote(s: Text): Text {
    [QUOTE] + Escape(s) + [QUOTE]
  }

  // ---------------------------------------------------------------------------
  // The printer.
  // ---------------------------------------------------------------------------

  function Print(j: Json): Text {
    match j
    case JNull => NULL_TEXT
    case JBool(b) => if b then TRUE_TEXT else FALSE_TEXT
    case JNumber(t) => t
    case JString(s) => Quote(s)
    case JArray(items) => [OPEN_ARRAY] + PrintItems(items) + [CLOSE_ARRAY]
    case JObject(fields) => [OPEN_OBJECT] + PrintFields(fields) + [CLOSE_OBJECT]
  }

  function PrintItems(items: seq<Json>): Text {
    if |items| == 0 then []
    else if |items| == 1 then Print(items[0])
    else Print(items[0]) + [COMMA] + PrintItems(items[1..])
  }

  function PrintField(f: Field): Text {
    Quote(f.key) + [COLON] + Print(f.value)
  }

  function PrintFields(fields: seq<Field>): Text {
    if |fields| == 0 then []
    else if |fields| == 1 then PrintField(fields[0])
    else PrintField(fields[0]) + [COMMA] + PrintFields(fields[1..])
  }

  // ---------------------------------------------------------------------------
  // The parser.
  // ---------------------------------------------------------------------------

  datatype Parsed<+T> = Parsed(value: T, rest: Text)

  function HexValue(c: Unit): Option<nat> {
    if 48 <= c <= 57 then Some(c - 48)
    else if 97 <= c <= 102 then Some(c - 87)
    else None
  }

  /** The unit that an escape stands for, after its backslash. */
  function ParseEscape(s: Text): (r: Option<Parsed<Unit>>)
    ensures r.Some? ==> |r.value.rest| < |s|
  {
    if |s| == 0 then None
    else if s[0] == QUOTE || s[0] == BACKSLASH then Some(Parsed(s[0], s[1..]))
    else if s[0] == 98 then Some(Parsed(8, s[1..]))
    else if s[0] == 102 then Some(Parsed(12, s[1..]))
    else if s[0] == 110 then Some(Parsed(10, s[1..]))
    else if s[0] == 114 then Some(Parsed(13, s[1..]))
    else if s[0] == 116 then Some(Parsed(9, s[1..]))
    else if s[0] == 117 && |s| >= 5
            && HexValue(s[1]).Some? && HexValue(s[2]).Some? && HexValue(s[3]).Some? && HexValue(s[4]).Some? then
      Some(Parsed(HexValue(s[1]).value * 4096 + HexValue(s[2]).value * 256 + HexValue(s[3]).value * 16
          + HexValue(s[4]).value,
                  s[5..]))
    else None
  }

  /** The rest of a string, after its opening quote. */
  function ParseString(s: Text): (r: Option<Parsed<Text>>)
    ensures r.Some? ==> |r.value.rest| < |s|
    decreases |s|
  {
    if |s| == 0 then None
    else if s[0] == QUOTE then Some(Parsed([], s[1..]))
    else if s[0] == BACKSLASH then
      var unit := ParseEscape(s[1..]);
      if unit.None? then None
      else
        var more := ParseString(unit.value.rest);
        if more.None? then None else Some(Parsed([unit.value.value] + more.value.value, more.value.rest))
    else
      var more := ParseString(s[1..]);
      if more.None? then None else Some(Parsed([s[0]] + more.value.value, more.value.rest))
  }

  /** The length of the number at the start. */
  function NumberLength(s: Text): (n: nat)
    ensures n <= |s|
    ensures forall i :: 0 <= i < n ==> NumberUnit(s[i])
  {
    if |s| > 0 && NumberUnit(s[0]) then 1 + NumberLength(s[1..]) else 0
  }

  predicate Begins(word: Text, s: Text) {
    |word| <= |s| && s[..|word|] == word
  }

  function ParseValue(s: Text): (r: Option<Parsed<Json>>)
    ensures r.Some? ==> |r.value.rest| < |s|
    decreases |s|, 1
  {
    if |s| == 0 then None
    else if s[0] == 110 then if Begins(NULL_TEXT, s) then Some(Parsed(JNull, s[4..])) else None
    else if s[0] == 116 then if Begins(TRUE_TEXT, s) then Some(Parsed(JBool(true), s[4..])) else None
    else if s[0] == 102 then if Begins(FALSE_TEXT, s) then Some(Parsed(JBool(false), s[5..])) else None
    else if 48 <= s[0] <= 57 || s[0] == 45 then
      var n := NumberLength(s);
      Some(Parsed(JNumber(s[..n]), s[n..]))
    else if s[0] == QUOTE then
      var text := ParseString(s[1..]);
      if text.None? then None else Some(Parsed(JString(text.value.value), text.value.rest))
    else if s[0] == OPEN_ARRAY then
      if |s| > 1 && s[1] == CLOSE_ARRAY then Some(Parsed(JArray([]), s[2..]))
      else
        var items := ParseItems(s[1..]);
        if items.None? then None else Some(Parsed(JArray(items.value.value), items.value.rest))
    else if s[0] == OPEN_OBJECT then
      if |s| > 1 && s[1] == CLOSE_OBJECT then Some(Parsed(JObject([]), s[2..]))
      else
        var fields := ParseFields(s[1..]);
        if fields.None? then None else Some(Parsed(JObject(fields.value.value), fields.value.rest))
    else None
  }

  /** The items of an array, to its end. */
  function ParseItems(s: Text): (r: Option<Parsed<seq<Json>>>)
    ensures r.Some? ==> |r.value.rest| < |s|
    decreases |s|, 2
  {
    var first := ParseValue(s);
    if first.None? || |first.value.rest| == 0 then None
    else
      var rest := first.value.rest;
      if rest[0] == CLOSE_ARRAY then Some(Parsed([first.value.value], rest[1..]))
      else if rest[0] != COMMA then None
      else
        var more := ParseItems(rest[1..]);
        if more.None? then None else Some(Parsed([first.value.value] + more.value.value, more.value.rest))
  }

  function ParseField(s: Text): (r: Option<Parsed<Field>>)
    ensures r.Some? ==> |r.value.rest| < |s|
    decreases |s|, 0
  {
    if |s| == 0 || s[0] != QUOTE then None
    else
      var key := ParseString(s[1..]);
      if key.None? || |key.value.rest| == 0 || key.value.rest[0] != COLON then None
      else
        var value := ParseValue(key.value.rest[1..]);
        if value.None? then None else Some(Parsed(Field(key.value.value, value.value.value), value.value.rest))
  }

  /** The fields of an object, to its end. */
  function ParseFields(s: Text): (r: Option<Parsed<seq<Field>>>)
    ensures r.Some? ==> |r.value.rest| < |s|
    decreases |s|, 2
  {
    var first := ParseField(s);
    if first.None? || |first.value.rest| == 0 then None
    else
      var rest := first.value.rest;
      if rest[0] == CLOSE_OBJECT then Some(Parsed([first.value.value], rest[1..]))
      else if rest[0] != COMMA then None
      else
        var more := ParseFields(rest[1..]);
        if more.None? then None else Some(Parsed([first.value.value] + more.value.value, more.value.rest))
  }

  // ---------------------------------------------------------------------------
  // The parser is the printer's inverse.
  // ---------------------------------------------------------------------------

  /** What may follow a value. */
  predicate Delimited(rest: Text) {
    |rest| > 0 ==> !NumberUnit(rest[0])
  }

  lemma HexDigitRoundTrip()
    ensures forall n: nat :: n < 16 ==> HexValue(HexDigit(n)) == Some(n)
  {
  }

  lemma HexRoundTrip(c: Unit)
    ensures c / 4096 < 16 && c == c / 4096 * 4096 + c / 256 % 16 * 256 + c / 16 % 16 * 16 + c % 16
  {
    var x, y := c / 16, c / 256;
    assert c == x * 16 + c % 16;
    assert y == x / 16;
    assert x == y * 16 + x % 16;
    assert c / 4096 == y / 16;
    assert y == y / 16 * 16 + y % 16;
  }

  lemma HexEscapeRoundTrip(c: Unit, rest: Text)
    ensures ParseEscape(HexEscape(c)[1..] + rest) == Some(Parsed(c, rest))
  {
    HexRoundTrip(c);
    HexDigitRoundTrip();
    hide HexDigit, HexValue;
    var s := HexEscape(c)[1..] + rest;
    assert s[5..] == rest;
    assert s[1] == HexDigit(c / 4096) && s[2] == HexDigit(c / 256 % 16) && s[3] == HexDigit(c / 16 % 16)
           && s[4] == HexDigit(c % 16);
  }

  /** The parser reads back one escaped unit. */
  lemma UnitRoundTrip(c: Unit, rest: Text)
    ensures (EscapeUnit(c) == [c] && c != QUOTE && c != BACKSLASH)
         || (&& |EscapeUnit(c)| > 1 && EscapeUnit(c)[0] == BACKSLASH
             && ParseEscape(EscapeUnit(c)[1..] + rest) == Some(Parsed(c, rest)))
  {
    HexEscapeRoundTrip(c, rest);
    hide HexEscape, HexDigit, HexValue;
    if |EscapeUnit(c)| == 2 {
      assert (EscapeUnit(c)[1..] + rest)[1..] == rest;
    }
    HexEscapeShape(c);
  }

  lemma HexEscapeShape(c: Unit)
    ensures |HexEscape(c)| == 6 && HexEscape(c)[0] == BACKSLASH
  {
  }

  lemma ParseRaw(c: Unit, rest: Text, s: Text, after: Text)
    requires c != QUOTE && c != BACKSLASH && ParseString(rest) == Some(Parsed(s, after))
    ensures ParseString([c] + rest) == Some(Parsed([c] + s, after))
  {
    assert ([c] + rest)[1..] == rest;
  }

  lemma ParseUnit(c: Unit, rest: Text, s: Text, after: Text)
    requires ParseString(rest) == Some(Parsed(s, after))
    ensures ParseString(EscapeUnit(c) + rest) == Some(Parsed([c] + s, after))
  {
    UnitRoundTrip(c, rest);
    var text := EscapeUnit(c) + rest;
    if EscapeUnit(c) == [c] && c != QUOTE && c != BACKSLASH {
      ParseRaw(c, rest, s, after);
    } else {
      assert text[1..] == EscapeUnit(c)[1..] + rest;
    }
    hide EscapeUnit, ParseEscape;
  }

  /** The escaped text of a string, to its closing quote and beyond. */
  function Escaped(s: Text, rest: Text): Text {
    Escape(s) + [QUOTE] + rest
  }

  lemma EscapedPair(s: Text, rest: Text)
    requires StartsPair(s)
    ensures Escaped(s, rest) == [s[0]] + ([s[1]] + Escaped(s[2..], rest))
    ensures s == [s[0]] + ([s[1]] + s[2..])
  {
    assert Escape(s) == [s[0]] + ([s[1]] + Escape(s[2..]));
  }

  lemma EscapedUnit(s: Text, rest: Text)
    requires |s| > 0 && !StartsPair(s)
    ensures Escaped(s, rest) == EscapeUnit(s[0]) + Escaped(s[1..], rest)
    ensures s == [s[0]] + s[1..]
  {
  }

  lemma {:induction false} StringRoundTrip(s: Text, rest: Text)
    ensures ParseString(Escaped(s, rest)) == Some(Parsed(s, rest))
    decreases |s|
  {
    if |s| == 0 {
      assert Escaped(s, rest) == [QUOTE] + rest;
      assert ([QUOTE] + rest)[1..] == rest;
    } else {
      hide Escaped, Escape, EscapeUnit, ParseString;
      if StartsPair(s) {
        EscapedPair(s, rest);
        StringRoundTrip(s[2..], rest);
        ParseRaw(s[1], Escaped(s[2..], rest), s[2..], rest);
        ParseRaw(s[0], [s[1]] + Escaped(s[2..], rest), [s[1]] + s[2..], rest);
      } else {
        EscapedUnit(s, rest);
        StringRoundTrip(s[1..], rest);
        ParseUnit(s[0], Escaped(s[1..], rest), s[1..], rest);
      }
    }
  }

  lemma {:induction false} NumberEnds(t: Text, rest: Text)
    requires Delimited(rest) && forall i :: 0 <= i < |t| ==> NumberUnit(t[i])
    ensures NumberLength(t + rest) == |t|
  {
    if |t| == 0 {
      assert t + rest == rest;
    } else {
      assert (t + rest)[1..] == t[1..] + rest;
      NumberEnds(t[1..], rest);
    }
  }

  lemma QuotedText(s: Text, rest: Text)
    ensures Quote(s) + rest == [QUOTE] + Escaped(s, rest)
    ensures ([QUOTE] + Escaped(s, rest))[1..] == Escaped(s, rest)
  {
  }

  /** A printed value starts as no delimiter does. */
  lemma PrintedStart(j: Json)
    ensures |Print(j)| > 0 && Print(j)[0] != CLOSE_ARRAY && Print(j)[0] != CLOSE_OBJECT
  {
  }

  lemma ParseScalar(j: Json, rest: Text)
    requires Delimited(rest) && (j.JNull? || j.JBool? || j.JNumber? || j.JString?)
    ensures ParseValue(Print(j) + rest) == Some(Parsed(j, rest))
  {
    var s := Print(j) + rest;
    match j {
      case JNull =>
        assert s[..4] == NULL_TEXT;
        assert s[4..] == rest;
      case JBool(b) =>
        if b {
          assert s[..4] == TRUE_TEXT;
          assert s[4..] == rest;
        } else {
          assert s[..5] == FALSE_TEXT;
          assert s[5..] == rest;
        }
      case JNumber(t) =>
        NumberEnds(t, rest);
        assert s[..|t|] == t && s[|t|..] == rest;
      case JString(text) =>
        hide ParseString, Escaped;
        QuotedText(text, rest);
        StringRoundTrip(text, rest);
    }
  }

  /** The text after the opening bracket of an array. */
  function ItemsText(items: seq<Json>, rest: Text): Text {
    PrintItems(items) + [CLOSE_ARRAY] + rest
  }

  function FieldsText(fields: seq<Field>, rest: Text): Text {
    PrintFields(fields) + [CLOSE_OBJECT] + rest
  }

  /** What follows the first item of an array, or the first field of an object. */
  lemma ItemsSplit(items: seq<Json>, rest: Text)
    requires |items| > 0
    ensures ItemsText(items, rest)
            == Print(items[0]) + (if |items| == 1 then [CLOSE_ARRAY] + rest else [COMMA] + ItemsText(items[1..], rest))
    ensures items == [items[0]] + items[1..]
  {
  }

  lemma FieldsSplit(fields: seq<Field>, rest: Text)
    requires |fields| > 0
    ensures FieldsText(fields, rest)
         == PrintField(fields[0])
            + (if |fields| == 1 then [CLOSE_OBJECT] + rest else [COMMA] + FieldsText(fields[1..], rest))
    ensures fields == [fields[0]] + fields[1..]
  {
  }

  lemma ContainerText(j: Json, rest: Text)
    ensures j.JArray? ==> Print(j) + rest == [OPEN_ARRAY] + ItemsText(j.items, rest)
    ensures j.JObject? ==> Print(j) + rest == [OPEN_OBJECT] + FieldsText(j.fields, rest)
  {
  }

  lemma FieldText(f: Field, rest: Text)
    ensures PrintField(f) + rest == [QUOTE] + Escaped(f.key, [COLON] + (Print(f.value) + rest))
    ensures PrintField(f) != [] && PrintField(f)[0] == QUOTE
  {
    var after := [COLON] + (Print(f.value) + rest);
    QuotedText(f.key, after);
    assert PrintField(f) + rest == Quote(f.key) + after;
  }

  /** The parser recovers a value from its text, whatever follows. */
  lemma {:induction false} ParsePrinted(j: Json, rest: Text)
    requires Delimited(rest)
    ensures ParseValue(Print(j) + rest) == Some(Parsed(j, rest))
    decreases j
  {
    match j {
      case JArray(items) => ArrayRoundTrip(items, rest);
      case JObject(fields) => ObjectRoundTrip(fields, rest);
      case _ => ParseScalar(j, rest);
    }
  }

  lemma {:induction false} ArrayRoundTrip(items: seq<Json>, rest: Text)
    ensures ParseValue(Print(JArray(items)) + rest) == Some(Parsed(JArray(items), rest))
    decreases JArray(items), 0
  {
    hide Print, ItemsText, PrintItems;
    ContainerText(JArray(items), rest);
    var text := ItemsText(items, rest);
    assert ([OPEN_ARRAY] + text)[1..] == text;
    if |items| == 0 {
      NoItems(rest);
      assert items == [] && ([OPEN_ARRAY] + text)[2..] == rest;
    } else {
      ItemsSplit(items, rest);
      PrintedStart(items[0]);
      ItemsRoundTrip(items, rest);
    }
  }

  lemma NoItems(rest: Text)
    ensures ItemsText([], rest) == [CLOSE_ARRAY] + rest
    ensures FieldsText([], rest) == [CLOSE_OBJECT] + rest
  {
  }

  lemma {:induction false} ItemsRoundTrip(items: seq<Json>, rest: Text)
    requires |items| > 0
    ensures ParseItems(ItemsText(items, rest)) == Some(Parsed(items, rest))
    decreases items
  {
    hide Print, ItemsText, PrintItems, ParseValue;
    ItemsSplit(items, rest);
    if |items| == 1 {
      ParsePrinted(items[0], [CLOSE_ARRAY] + rest);
      assert items == [items[0]] && ([CLOSE_ARRAY] + rest)[1..] == rest;
    } else {
      var more := ItemsText(items[1..], rest);
      ParsePrinted(items[0], [COMMA] + more);
      assert ([COMMA] + more)[1..] == more;
      ItemsRoundTrip(items[1..], rest);
    }
  }

  lemma {:induction false} ObjectRoundTrip(fields: seq<Field>, rest: Text)
    ensures ParseValue(Print(JObject(fields)) + rest) == Some(Parsed(JObject(fields), rest))
    decreases JObject(fields), 0
  {
    hide Print, FieldsText, PrintFields, PrintField;
    ContainerText(JObject(fields), rest);
    var text := FieldsText(fields, rest);
    assert ([OPEN_OBJECT] + text)[1..] == text;
    if |fields| == 0 {
      NoItems(rest);
      assert fields == [] && ([OPEN_OBJECT] + text)[2..] == rest;
    } else {
      FieldsSplit(fields, rest);
      FieldText(fields[0], []);
      FieldsRoundTrip(fields, rest);
    }
  }

  lemma {:induction false} FieldRoundTrip(f: Field, rest: Text)
    requires Delimited(rest)
    ensures ParseField(PrintField(f) + rest) == Some(Parsed(f, rest))
    decreases f
  {
    hide Print, PrintField, ParseValue, ParseString, Escaped;
    var value := Print(f.value) + rest;
    FieldText(f, rest);
    StringRoundTrip(f.key, [COLON] + value);
    assert ([QUOTE] + Escaped(f.key, [COLON] + value))[1..] == Escaped(f.key, [COLON] + value);
    assert ([COLON] + value)[1..] == value;
    ParsePrinted(f.value, rest);
  }

  lemma {:induction false} FieldsRoundTrip(fields: seq<Field>, rest: Text)
    requires |fields| > 0
    ensures ParseFields(FieldsText(fields, rest)) == Some(Parsed(fields, rest))
    decreases fields
  {
    hide PrintField, FieldsText, PrintFields, ParseField;
    FieldsSplit(fields, rest);
    if |fields| == 1 {
      FieldRoundTrip(fields[0], [CLOSE_OBJECT] + rest);
      assert fields == [fields[0]] && ([CLOSE_OBJECT] + rest)[1..] == rest;
    } else {
      var more := FieldsText(fields[1..], rest);
      FieldRoundTrip(fields[0], [COMMA] + more);
      assert ([COMMA] + more)[1..] == more;
      FieldsRoundTrip(fields[1..], rest);
    }
  }

  /** Different values have different texts. */
  lemma PrintIsInjective(a: Json, b: Json)
    ensures Print(a) == Print(b) <==> a == b
  {
    ParsePrinted(a, []);
    ParsePrinted(b, []);
    hide Print, ParseValue;
  }
}
