/** The text itself: which units a printed value holds, and that each string has one strict spelling, the one
    printed.  The reader here takes nothing that `JSON.stringify` would not write. */
module StrictText {
  import opened Common
  import opened CanonicalText

  // ---------------------------------------------------------------------------
  // A strict reader of strings.
  // ---------------------------------------------------------------------------

  /** The unit that a one-letter escape stands for. */
  function ShortEscape(letter: char): Option<Unit> {
    match letter
    case '\"' => Some(0x22)
    case '\\' => Some(0x5C)
    case 'b' => Some(0x08)
    case 'f' => Some(0x0C)
    case 'n' => Some(0x0A)
    case 'r' => Some(0x0D)
    case 't' => Some(0x09)
    case _ => None
  }

  function CharOf(c: Unit): char {
    if c < 0x80 then c as char else '?'
  }

  /** A control character without a letter of its own, or half of a pair. */
  predicate NeedsHex(c: Unit) {
    (c < 0x20 && c !in {0x08, 0x09, 0x0A, 0x0C, 0x0D}) || 0xD800 <= c <= 0xDFFF
  }

  /** A lower-case hexadecimal digit. */
  function Nibble(c: Unit): Option<nat> {
    if '0' as int <= c <= '9' as int then Some(c - '0' as int)
    else if 'a' as int <= c <= 'f' as int then Some(c - 'a' as int + 10)
    else None
  }

  function HexUnit(s: Text): Option<Unit>
    requires |s| == 4
  {
    var a, b, c, d := Nibble(s[0]), Nibble(s[1]), Nibble(s[2]), Nibble(s[3]);
    if a.None? || b.None? || c.None? || d.None? then None
    else Some(((a.value * 16 + b.value) * 16 + c.value) * 16 + d.value)
  }

  /** One unit or one pair inside a string: no raw control character, no half of a pair on its own, and a
      six-unit escape only where nothing shorter would do. */
  function ReadUnit(s: Text): (r: Option<Parsed<Text>>)
    ensures r.Some? ==> |r.value.rest| < |s| && 1 <= |r.value.value| <= 2
  {
    if |s| == 0 || s[0] < 0x20 || s[0] == 0x22 then None
    else if s[0] == 0x5C then
      if |s| >= 2 && ShortEscape(CharOf(s[1])).Some? then Some(Parsed([ShortEscape(CharOf(s[1])).value], s[2..]))
      else if |s| >= 6 && CharOf(s[1]) == 'u' && HexUnit(s[2..6]).Some? && NeedsHex(HexUnit(s[2..6]).value) then
        Some(Parsed([HexUnit(s[2..6]).value], s[6..]))
      else None
    else if 0xD800 <= s[0] <= 0xDBFF then
      if |s| >= 2 && 0xDC00 <= s[1] <= 0xDFFF then Some(Parsed(s[..2], s[2..])) else None
    else if 0xDC00 <= s[0] <= 0xDFFF then None
    else Some(Parsed(s[..1], s[1..]))
  }

  /** Two escaped halves that would make a pair. */
  predicate SplitPair(first: Text, more: Text) {
    |first| == 1 && |more| > 0 && 0xD800 <= first[0] <= 0xDBFF && 0xDC00 <= more[0] <= 0xDFFF
  }

  /** The rest of a string, after its opening quote. */
  function ReadString(s: Text): (r: Option<Parsed<Text>>)
    ensures r.Some? ==> |r.value.rest| < |s|
    decreases |s|
  {
    if |s| > 0 && s[0] == 0x22 then Some(Parsed([], s[1..]))
    else
      var first := ReadUnit(s);
      if first.None? then None
      else
        var more := ReadString(first.value.rest);
        if more.None? || SplitPair(first.value.value, more.value.value) then None
        else Some(Parsed(first.value.value + more.value.value, more.value.rest))
  }

  // ---------------------------------------------------------------------------
  // Every string has one strict spelling.
  // ---------------------------------------------------------------------------

  lemma NibbleOfDigit(n: nat)
    requires n < 16
    ensures Nibble(HexDigit(n)) == Some(n)
  {
  }

  lemma DigitOfNibble(c: Unit)
    requires Nibble(c).Some?
    ensures Nibble(c).value < 16 && HexDigit(Nibble(c).value) == c
  {
  }

  lemma FourDigits(a: nat, b: nat, c: nat, d: nat)
    requires a < 16 && b < 16 && c < 16 && d < 16
    ensures var u := ((a * 16 + b) * 16 + c) * 16 + d;
            u < 0x10000 && u / 4096 == a && u / 256 % 16 == b && u / 16 % 16 == c && u % 16 == d
  {
    var x := a * 16 + b;
    var y := x * 16 + c;
    var u := y * 16 + d;
    assert u / 16 == y && y / 16 == x && x / 16 == a;
    assert u / 256 == x && u / 4096 == a;
  }

  lemma HexUnitReads(c: Unit)
    ensures |HexEscape(c)| == 6 && HexUnit(HexEscape(c)[2..]) == Some(c)
  {
    HexRoundTrip(c);
    NibbleOfDigit(c / 4096);
    NibbleOfDigit(c / 256 % 16);
    NibbleOfDigit(c / 16 % 16);
    NibbleOfDigit(c % 16);
    var s := HexEscape(c)[2..];
    assert s == [HexDigit(c / 4096), HexDigit(c / 256 % 16), HexDigit(c / 16 % 16), HexDigit(c % 16)];
  }

  lemma HexUnitSpells(s: Text)
    requires |s| == 4 && HexUnit(s).Some?
    ensures HexEscape(HexUnit(s).value) == [BACKSLASH, 117] + s
  {
    DigitOfNibble(s[0]);
    DigitOfNibble(s[1]);
    DigitOfNibble(s[2]);
    DigitOfNibble(s[3]);
    hide HexDigit;
    FourDigits(Nibble(s[0]).value, Nibble(s[1]).value, Nibble(s[2]).value, Nibble(s[3]).value);
  }

  /** What is printed for one unit that starts no pair is what the reader reads as that unit. */
  lemma UnitReads(c: Unit, rest: Text)
    ensures ReadUnit(EscapeUnit(c) + rest) == Some(Parsed([c], rest))
    ensures EscapeUnit(c) != [] && EscapeUnit(c)[0] != 0x22
  {
    hide HexEscape, HexUnit;
    var text := EscapeUnit(c) + rest;
    if EscapeUnit(c) == HexEscape(c) {
      HexUnitReads(c);
      HexEscapeShape(c);
      HexLetter(c);
      assert text[2..6] == HexEscape(c)[2..];
      assert text[6..] == rest;
    } else if |EscapeUnit(c)| == 2 {
      assert text[2..] == rest;
    } else {
      assert text[1..] == rest && text[..1] == [c];
    }
  }

  lemma HexLetter(c: Unit)
    ensures |HexEscape(c)| == 6 && HexEscape(c)[1] == 117
  {
  }

  lemma PairReads(s: Text, rest: Text)
    requires StartsPair(s)
    ensures ReadUnit(s[..2] + rest) == Some(Parsed(s[..2], rest))
  {
    assert (s[..2] + rest)[2..] == rest && (s[..2] + rest)[..2] == s[..2];
  }

  lemma PairText(s: Text, rest: Text)
    requires StartsPair(s)
    ensures Escaped(s, rest) == s[..2] + Escaped(s[2..], rest)
  {
    EscapedPair(s, rest);
    assert [s[0]] + ([s[1]] + Escaped(s[2..], rest)) == s[..2] + Escaped(s[2..], rest);
  }

  /** One more item of a string. */
  lemma ReadsOn(t: Text, item: Text, rest: Text, more: Text, after: Text)
    requires |t| > 0 && t[0] != 0x22 && ReadUnit(t) == Some(Parsed(item, rest))
    requires ReadString(rest) == Some(Parsed(more, after)) && !SplitPair(item, more)
    ensures ReadString(t) == Some(Parsed(item + more, after))
  {
    hide ReadUnit;
  }

  lemma PairFirst(s: Text, rest: Text)
    requires StartsPair(s)
    ensures var t := s[..2] + rest; |t| > 0 && t[0] != 0x22 && !SplitPair(s[..2], s[2..]) && s == s[..2] + s[2..]
  {
  }

  lemma UnitFirst(s: Text, rest: Text)
    requires |s| > 0 && !StartsPair(s)
    ensures var t := EscapeUnit(s[0]) + rest;
            |t| > 0 && t[0] != 0x22 && !SplitPair([s[0]], s[1..]) && s == [s[0]] + s[1..]
  {
    UnitReads(s[0], rest);
    hide EscapeUnit;
  }

  /** The strict reader reads every string back. */
  lemma {:induction false} StrictRoundTrip(s: Text, rest: Text)
    ensures ReadString(Escaped(s, rest)) == Some(Parsed(s, rest))
    decreases |s|
  {
    if |s| == 0 {
      assert Escaped(s, rest) == [QUOTE] + rest;
      assert ([QUOTE] + rest)[1..] == rest;
    } else {
      hide Escaped, Escape, EscapeUnit, ReadUnit, ReadString, SplitPair, StartsPair;
      if StartsPair(s) {
        PairText(s, rest);
        var text := Escaped(s[2..], rest);
        PairReads(s, text);
        StrictRoundTrip(s[2..], rest);
        PairFirst(s, text);
        ReadsOn(s[..2] + text, s[..2], text, s[2..], rest);
      } else {
        EscapedUnit(s, rest);
        var text := Escaped(s[1..], rest);
        UnitReads(s[0], text);
        StrictRoundTrip(s[1..], rest);
        UnitFirst(s, text);
        ReadsOn(EscapeUnit(s[0]) + text, [s[0]], text, s[1..], rest);
      }
    }
  }

  /** What the reader takes as one unit is what is printed for it. */
  lemma UnitSpells(s: Text)
    requires ReadUnit(s).Some?
    ensures var r := ReadUnit(s).value;
            if |r.value| == 1 then s == EscapeUnit(r.value[0]) + r.rest
            else StartsPair(r.value) && s == r.value + r.rest
  {
    var r := ReadUnit(s).value;
    if s[0] == 0x5C && |r.rest| == |s| - 6 {
      HexUnitSpells(s[2..6]);
      hide HexEscape, HexUnit;
      assert s == [BACKSLASH, 117] + s[2..6] + s[6..];
    } else if s[0] == 0x5C {
      assert s == s[..2] + s[2..];
      assert s[..2] == EscapeUnit(r.value[0]);
    } else {
      assert s == r.value + r.rest;
    }
  }

  /** And takes no other spelling: a text it reads as a string is the printed text of that string. */
  lemma {:induction false} StrictIsUnique(t: Text)
    requires ReadString(t).Some?
    ensures t == Escaped(ReadString(t).value.value, ReadString(t).value.rest)
    decreases |t|
  {
    var r := ReadString(t).value;
    if t[0] == 0x22 {
      assert t == [t[0]] + t[1..];
      assert Escape([]) == [];
      assert Escaped([], t[1..]) == [QUOTE] + t[1..];
    } else {
      var first := ReadUnit(t).value;
      StrictIsUnique(first.rest);
      UnitSpells(t);
      var more := ReadString(first.rest).value;
      hide Escape, EscapeUnit, ReadUnit, ReadString, Escaped;
      if |first.value| == 1 {
        assert (first.value + more.value)[1..] == more.value;
        EscapedUnit(r.value, r.rest);
      } else {
        assert (first.value + more.value)[2..] == more.value;
        EscapedPair(r.value, r.rest);
        assert [r.value[0]] + ([r.value[1]] + Escaped(more.value, r.rest)) == first.value + Escaped(more.value, r.rest);
      }
    }
  }

  // ---------------------------------------------------------------------------
  // The units of a printed value.
  // ---------------------------------------------------------------------------

  predicate IsHigh(c: Unit) {
    0xD800 <= c <= 0xDBFF
  }

  predicate IsLow(c: Unit) {
    0xDC00 <= c <= 0xDFFF
  }

  /** Unit `i` is no control character, and no half of a pair on its own. */
  predicate WellAt(t: Text, i: nat)
    requires i < |t|
  {
    && t[i] >= 0x20
    && (IsHigh(t[i]) ==> i + 1 < |t| && IsLow(t[i + 1]))
    && (IsLow(t[i]) ==> i > 0 && IsHigh(t[i - 1]))
  }

  ghost predicate WellFormed(t: Text) {
    forall i: nat :: i < |t| ==> WellAt(t, i)
  }

  lemma JoinedWellFormed(a: Text, b: Text)
    requires WellFormed(a) && WellFormed(b)
    ensures WellFormed(a + b)
  {
    forall i: nat | i < |a + b| ensures WellAt(a + b, i) {
      if i < |a| {
        assert WellAt(a, i);
      } else {
        assert WellAt(b, i - |a|);
      }
    }
  }

  lemma PlainWellFormed(t: Text)
    requires forall i :: 0 <= i < |t| ==> 0x20 <= t[i] < 0x80
    ensures WellFormed(t)
  {
  }

  lemma UnitWellFormed(c: Unit)
    ensures WellFormed(EscapeUnit(c))
  {
    if |EscapeUnit(c)| == 6 {
      PlainWellFormed(EscapeUnit(c));
    }
  }

  lemma {:induction false} EscapeWellFormed(s: Text)
    ensures WellFormed(Escape(s))
    decreases |s|
  {
    if |s| > 0 {
      hide WellFormed, EscapeUnit;
      if StartsPair(s) {
        EscapeWellFormed(s[2..]);
        PairWellFormed(s);
        JoinedWellFormed(s[..2], Escape(s[2..]));
      } else {
        EscapeWellFormed(s[1..]);
        UnitWellFormed(s[0]);
        JoinedWellFormed(EscapeUnit(s[0]), Escape(s[1..]));
      }
    } else {
      PlainWellFormed([]);
    }
  }

  lemma PairWellFormed(s: Text)
    requires StartsPair(s)
    ensures WellFormed(s[..2])
  {
  }

  lemma QuoteWellFormed(s: Text)
    ensures WellFormed(Quote(s))
  {
    hide WellFormed;
    EscapeWellFormed(s);
    PlainWellFormed([QUOTE]);
    JoinedWellFormed([QUOTE], Escape(s));
    JoinedWellFormed([QUOTE] + Escape(s), [QUOTE]);
  }

  /** The text of every value holds no control character, and every half of a pair in it is in a pair. */
  lemma {:induction false} PrintedIsWellFormed(j: Json)
    ensures WellFormed(Print(j))
    decreases j, 0
  {
    match j {
      case JNull => PlainWellFormed(NULL_TEXT);
      case JBool(b) => PlainWellFormed(if b then TRUE_TEXT else FALSE_TEXT);
      case JNumber(t) => PlainWellFormed(t);
      case JString(s) => QuoteWellFormed(s);
      case JArray(items) =>
        hide WellFormed;
        ItemsWellFormed(items);
        Bracketed(OPEN_ARRAY, PrintItems(items), CLOSE_ARRAY);
      case JObject(fields) =>
        hide WellFormed;
        FieldsWellFormed(fields);
        Bracketed(OPEN_OBJECT, PrintFields(fields), CLOSE_OBJECT);
    }
  }

  lemma Bracketed(open: Unit, text: Text, close: Unit)
    requires WellFormed(text) && 0x20 <= open < 0x80 && 0x20 <= close < 0x80
    ensures WellFormed([open] + text + [close])
  {
    hide WellFormed;
    PlainWellFormed([open]);
    PlainWellFormed([close]);
    JoinedWellFormed([open], text);
    JoinedWellFormed([open] + text, [close]);
  }

  lemma {:induction false} ItemsWellFormed(items: seq<Json>)
    ensures WellFormed(PrintItems(items))
    decreases items, 1
  {
    hide WellFormed, Print;
    PlainWellFormed([]);
    PlainWellFormed([COMMA]);
    if |items| > 0 {
      PrintedIsWellFormed(items[0]);
      if |items| > 1 {
        ItemsWellFormed(items[1..]);
        JoinedWellFormed(Print(items[0]), [COMMA]);
        JoinedWellFormed(Print(items[0]) + [COMMA], PrintItems(items[1..]));
      }
    }
  }

  lemma {:induction false} FieldsWellFormed(fields: seq<Field>)
    ensures WellFormed(PrintFields(fields))
    decreases fields, 1
  {
    hide WellFormed, Print, PrintField;
    PlainWellFormed([]);
    PlainWellFormed([COMMA]);
    if |fields| > 0 {
      FieldWellFormed(fields[0]);
      if |fields| > 1 {
        FieldsWellFormed(fields[1..]);
        JoinedWellFormed(PrintField(fields[0]), [COMMA]);
        JoinedWellFormed(PrintField(fields[0]) + [COMMA], PrintFields(fields[1..]));
      }
    }
  }

  lemma {:induction false} FieldWellFormed(f: Field)
    ensures WellFormed(PrintField(f))
    decreases f, 1
  {
    hide WellFormed, Print, Quote;
    QuoteWellFormed(f.key);
    PlainWellFormed([COLON]);
    PrintedIsWellFormed(f.value);
    JoinedWellFormed(Quote(f.key), [COLON]);
    JoinedWellFormed(Quote(f.key) + [COLON], Print(f.value));
  }

  // ---------------------------------------------------------------------------
  // The words and the punctuation.
  // ---------------------------------------------------------------------------

  function Units(s: string): Text
    requires forall i :: 0 <= i < |s| ==> s[i] <= '~'
  {
    seq(|s|, i requires 0 <= i < |s| => s[i] as int)
  }

  /** The words and the punctuation are those of JSON. */
  lemma WordsAreJson()
    ensures NULL_TEXT == Units("null") && TRUE_TEXT == Units("true") && FALSE_TEXT == Units("false")
    ensures [OPEN_ARRAY, COMMA, CLOSE_ARRAY] == Units("[,]")
    ensures [OPEN_OBJECT, COLON, CLOSE_OBJECT] == Units("{:}")
    ensures [QUOTE, BACKSLASH] == Units("\"\\")
  {
  }
}
