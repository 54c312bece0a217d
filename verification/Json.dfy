/** JSON text as the curriculum contract prints it (scripts/curriculum-evidence.ts): compact
    printing, then every unit outside printable ASCII replaced by its escape. Text is a sequence
    of UTF-16 code units. */
module Json {
  type Unit = x: int | 0 <= x < 0x1_0000

  type Text = seq<Unit>

  /** A number is the decimal text the engine prints for it, which determines it. Fields keep
      their order. */
  datatype Json = Null | Bool(flag: bool) | Number(token: Token) | Str(text: Text) | Arr(items: seq<Json>)
                | Obj(fields: seq<Field>)

  datatype Field = Field(key: Text, value: Json)

  type Token = t: Text | IsNumber(t) witness [ZERO]

  /** A literal as text; characters beyond one unit do not occur in any. */
  function Units(s: string): (r: Text)
    ensures |r| == |s|
  { seq(|s|, i requires 0 <= i < |s| => if s[i] as int < 0x1_0000 then s[i] as int else 0xfffd) }

  const QUOTE: Unit := 0x22
  const PLUS: Unit := 0x2b
  const COMMA: Unit := 0x2c
  const MINUS: Unit := 0x2d
  const DOT: Unit := 0x2e
  const SLASH: Unit := 0x2f
  const ZERO: Unit := 0x30
  const COLON: Unit := 0x3a
  const OPEN_BRACKET: Unit := 0x5b
  const BACKSLASH: Unit := 0x5c
  const CLOSE_BRACKET: Unit := 0x5d
  const UPPER_E: Unit := 0x45
  const LOWER_A: Unit := 0x61
  const LOWER_E: Unit := 0x65
  const LOWER_U: Unit := 0x75
  const OPEN_BRACE: Unit := 0x7b
  const CLOSE_BRACE: Unit := 0x7d
  const NULL_TEXT: Text := [0x6e, 0x75, 0x6c, 0x6c]
  const TRUE_TEXT: Text := [0x74, 0x72, 0x75, 0x65]
  const FALSE_TEXT: Text := [0x66, 0x61, 0x6c, 0x73, 0x65]

  predicate Printable(c: Unit) { 0x20 <= c <= 0x7e }

  predicate AllPrintable(s: Text) { forall i :: 0 <= i < |s| ==> Printable(s[i]) }

  predicate High(c: Unit) { 0xd800 <= c <= 0xdbff }

  predicate Low(c: Unit) { 0xdc00 <= c <= 0xdfff }

  /** A surrogate pair, one code point, starts here. */
  predicate PairAt(s: Text) { |s| > 1 && High(s[0]) && Low(s[1]) }

  // ---- Numbers: the grammar of section 6 of RFC 8259 ----

  predicate Digit(c: Unit) { ZERO <= c < ZERO + 10 }

  /** How many digits a text starts with. */
  function Leading(s: Text): (n: nat)
    ensures n <= |s| && forall i :: 0 <= i < n ==> Digit(s[i])
  { if s != [] && Digit(s[0]) then 1 + Leading(s[1..]) else 0 }

  /** An optional exponent and no more. */
  predicate IsExponent(s: Text) {
    s == [] || ((s[0] == LOWER_E || s[0] == UPPER_E) && |s| > 1 &&
                var digits := if s[1] == PLUS || s[1] == MINUS then s[2..] else s[1..];
                digits != [] && Leading(digits) == |digits|)
  }

  /** An optional fraction, then an optional exponent, and no more. */
  predicate IsFraction(s: Text) {
    if s != [] && s[0] == DOT then Leading(s[1..]) > 0 && IsExponent(s[1 + Leading(s[1..])..]) else IsExponent(s)
  }

  /** An integer part without needless zeros, fraction and exponent. */
  predicate IsNumber(s: Text) {
    var t := if s != [] && s[0] == MINUS then s[1..] else s;
    Leading(t) > 0 && (t[0] == ZERO ==> Leading(t) == 1) && IsFraction(t[Leading(t)..])
  }

  /** The units a number can hold. */
  predicate Numeric(c: Unit) { Digit(c) || c == MINUS || c == PLUS || c == DOT || c == LOWER_E || c == UPPER_E }

  predicate AllNumeric(s: Text) { forall i :: 0 <= i < |s| ==> Numeric(s[i]) }

  lemma NumericJoins(s: Text, k: nat)
    requires k <= |s| && (forall i :: 0 <= i < k ==> Numeric(s[i])) && AllNumeric(s[k..])
    ensures AllNumeric(s)
  {
    hide Numeric;
    forall i | 0 <= i < |s| ensures Numeric(s[i]) {
      if i >= k { assert s[i] == s[k..][i - k]; }
    }
  }

  lemma DigitsNumeric(s: Text)
    requires AllNumeric(s[Leading(s)..])
    ensures AllNumeric(s)
  {
    hide Leading, AllNumeric;
    NumericJoins(s, Leading(s));
  }

  lemma NumericPrints(s: Text)
    requires AllNumeric(s)
    ensures AllPrintable(s)
  {
  }

  lemma ExponentNumeric(s: Text)
    requires IsExponent(s)
    ensures AllNumeric(s)
  {
    if s != [] {
      var k := if s[1] == PLUS || s[1] == MINUS then 2 else 1;
      hide Leading;
      DigitsNumeric(s[k..]);
      NumericJoins(s, k);
    }
  }

  lemma FractionNumeric(s: Text)
    requires IsFraction(s)
    ensures AllNumeric(s)
  {
    hide IsExponent, Leading, AllNumeric;
    if s != [] && s[0] == DOT {
      var k := Leading(s[1..]);
      assert s[1..][k..] == s[1 + k..];
      ExponentNumeric(s[1 + k..]);
      DigitsNumeric(s[1..]);
      NumericJoins(s, 1);
    } else {
      ExponentNumeric(s);
    }
  }

  /** A number starts with a sign or a digit and holds numeric units only. */
  lemma NumberNumeric(s: Text)
    requires IsNumber(s)
    ensures s != [] && (s[0] == MINUS || Digit(s[0])) && AllNumeric(s) && AllPrintable(s)
  {
    hide IsFraction, Leading, AllNumeric, AllPrintable;
    var m := if s[0] == MINUS then 1 else 0;
    assert s[m..] == if m == 1 then s[1..] else s;
    FractionNumeric(s[m..][Leading(s[m..])..]);
    DigitsNumeric(s[m..]);
    NumericJoins(s, m);
    NumericPrints(s);
  }

  // ---- Escapes ----

  function HexDigit(d: nat): Unit
    requires d < 16
  { if d < 10 then ZERO + d else LOWER_A + (d - 10) }

  /** A number in base sixteen, without leading zeros. */
  function Hex(n: nat): Text { if n < 16 then [HexDigit(n)] else Hex(n / 16) + [HexDigit(n % 16)] }

  function PadStart(s: Text, width: nat, fill: Unit): Text
    decreases width - |s|
  { if |s| >= width then s else PadStart([fill] + s, width, fill) }

  function UnicodeEscape(c: Unit): Text { [BACKSLASH, LOWER_U] + PadStart(Hex(c), 4, ZERO) }

  function Nibbles(c: Unit): Text {
    [HexDigit(c / 0x1000), HexDigit(c / 0x100 % 16), HexDigit(c / 16 % 16), HexDigit(c % 16)]
  }

  lemma HexUpTo3(c: Unit)
    ensures c < 0x10 ==> Hex(c) == [HexDigit(c)]
    ensures 0x10 <= c < 0x100 ==> Hex(c) == [HexDigit(c / 16), HexDigit(c % 16)]
    ensures 0x100 <= c < 0x1000 ==> Hex(c) == [HexDigit(c / 0x100), HexDigit(c / 16 % 16), HexDigit(c % 16)]
  {
    if 0x100 <= c < 0x1000 {
      assert c / 16 / 16 == c / 0x100;
      assert Hex(c / 16) == [HexDigit(c / 0x100), HexDigit(c / 16 % 16)];
    }
  }

  /** Padding gives the four base-sixteen digits. */
  lemma PadIsNibbles(c: Unit)
    ensures PadStart(Hex(c), 4, ZERO) == Nibbles(c)
  {
    HexUpTo3(c);
    HexUpTo3(c / 16);
    assert HexDigit(0) == ZERO;
    if c >= 0x1000 {
      assert c / 16 / 16 == c / 0x100 && c / 16 / 0x100 == c / 0x1000;
      assert Hex(c) == Hex(c / 16) + [HexDigit(c % 16)];
    }
    hide Hex, HexDigit;
    if c < 0x10 {
      assert c / 0x1000 == 0 && c / 0x100 % 16 == 0 && c / 16 % 16 == 0;
      PadThree(Hex(c));
    } else if c < 0x100 {
      assert c / 0x1000 == 0 && c / 0x100 % 16 == 0 && c / 16 % 16 == c / 16;
      PadTwo(Hex(c));
    } else if c < 0x1000 {
      assert c / 0x1000 == 0 && c / 0x100 % 16 == c / 0x100;
      PadOne(Hex(c));
    }
  }

  lemma PadOne(s: Text)
    requires |s| == 3
    ensures PadStart(s, 4, ZERO) == [ZERO] + s
  {
    assert PadStart(s, 4, ZERO) == PadStart([ZERO] + s, 4, ZERO);
  }

  lemma PadTwo(s: Text)
    requires |s| == 2
    ensures PadStart(s, 4, ZERO) == [ZERO, ZERO] + s
  {
    assert PadStart(s, 4, ZERO) == PadStart([ZERO] + s, 4, ZERO) == PadStart([ZERO] + ([ZERO] + s), 4, ZERO);
  }

  lemma PadThree(s: Text)
    requires |s| == 1
    ensures PadStart(s, 4, ZERO) == [ZERO, ZERO, ZERO] + s
  {
    PadTwo([ZERO] + s);
    assert PadStart(s, 4, ZERO) == PadStart([ZERO] + s, 4, ZERO);
  }

  // ---- Printing ----

  /** The letter of a two-unit escape, if the unit has one. */
  function ShortEscape(c: Unit): Text {
    if c == 0x08 then [0x62] else if c == 0x09 then [0x74] else if c == 0x0a then [0x6e]
    else if c == 0x0c then [0x66] else if c == 0x0d then [0x72]
    else if c == QUOTE then [QUOTE] else if c == BACKSLASH then [BACKSLASH] else []
  }

  function QuoteUnit(c: Unit): Text {
    if ShortEscape(c) != [] then [BACKSLASH] + ShortEscape(c) else if c < 0x20 then UnicodeEscape(c) else [c]
  }

  /** A string's body: surrogate pairs stay, lone surrogates are escaped. */
  function QuoteBody(s: Text): Text {
    if s == [] then []
    else if PairAt(s) then s[..2] + QuoteBody(s[2..])
    else (if High(s[0]) || Low(s[0]) then UnicodeEscape(s[0]) else QuoteUnit(s[0])) + QuoteBody(s[1..])
  }

  function Quote(s: Text): Text { [QUOTE] + QuoteBody(s) + [QUOTE] }

  function Stringify(v: Json): Text
    decreases v
  {
    match v
    case Null => NULL_TEXT
    case Bool(b) => if b then TRUE_TEXT else FALSE_TEXT
    case Number(token) => token
    case Str(s) => Quote(s)
    case Arr(items) => [OPEN_BRACKET] + StringifyItems(items) + [CLOSE_BRACKET]
    case Obj(fields) => [OPEN_BRACE] + StringifyFields(fields) + [CLOSE_BRACE]
  }

  function StringifyItems(items: seq<Json>): Text
    decreases items
  {
    if items == [] then []
    else if |items| == 1 then Stringify(items[0])
    else Stringify(items[0]) + [COMMA] + StringifyItems(items[1..])
  }

  function StringifyField(f: Field): Text
    decreases f
  { Quote(f.key) + [COLON] + Stringify(f.value) }

  function StringifyFields(fields: seq<Field>): Text
    decreases fields
  {
    if fields == [] then []
    else if |fields| == 1 then StringifyField(fields[0])
    else StringifyField(fields[0]) + [COMMA] + StringifyFields(fields[1..])
  }

  // ---- The replacement ----

  /** The replacement of one match: every unit of it, escaped. */
  function EscapeUnits(value: Text): Text {
    if value == [] then [] else EscapeUnits(value[..|value| - 1]) + UnicodeEscape(value[|value| - 1])
  }

  method EscapeMatch(value: Text) returns (escaped: Text)
    ensures escaped == EscapeUnits(value)
  {
    hide UnicodeEscape;
    escaped := [];
    for index := 0 to |value|
      invariant escaped == EscapeUnits(value[..index])
    {
      assert value[..index + 1][..index] == value[..index];
      escaped := escaped + UnicodeEscape(value[index]);
    }
    assert value[..|value|] == value;
  }

  /** The replacement over a text, code point by code point. */
  function Escape(s: Text): Text {
    if s == [] then []
    else if PairAt(s) then EscapeUnits(s[..2]) + Escape(s[2..])
    else (if Printable(s[0]) then [s[0]] else EscapeUnits([s[0]])) + Escape(s[1..])
  }

  /** The same, unit by unit. */
  function EscapeUnit(c: Unit): Text { if Printable(c) then [c] else UnicodeEscape(c) }

  function EachUnit(s: Text): Text { if s == [] then [] else EscapeUnit(s[0]) + EachUnit(s[1..]) }

  lemma EscapeOne(c: Unit)
    ensures EscapeUnits([c]) == UnicodeEscape(c)
  {
    assert EscapeUnits([c]) == EscapeUnits([]) + UnicodeEscape(c);
  }

  lemma EscapeTwo(s: Text)
    requires PairAt(s)
    ensures EscapeUnits(s[..2]) == EscapeUnit(s[0]) + EscapeUnit(s[1])
  {
    assert s[..2][..1] == [s[0]];
    EscapeOne(s[0]);
  }

  lemma EachUnitTwo(s: Text)
    requires |s| >= 2
    ensures EachUnit(s) == EscapeUnit(s[0]) + EscapeUnit(s[1]) + EachUnit(s[2..])
  {
    hide EscapeUnit;
    assert s[1..][1..] == s[2..];
    assert EachUnit(s[1..]) == EscapeUnit(s[1]) + EachUnit(s[2..]);
  }

  /** Code points do not matter: the replacement works unit by unit. */
  lemma {:induction false} EscapeIsUnitwise(s: Text)
    ensures Escape(s) == EachUnit(s)
  {
    if s == [] {
    } else if PairAt(s) {
      EscapeIsUnitwise(s[2..]);
      EscapeTwo(s);
      EachUnitTwo(s);
      hide EscapeUnit, EscapeUnits, EachUnit;
    } else {
      hide UnicodeEscape, EscapeUnits;
      EscapeIsUnitwise(s[1..]);
      EscapeOne(s[0]);
    }
  }

  lemma {:induction false} EachUnitJoins(a: Text, b: Text)
    ensures EachUnit(a + b) == EachUnit(a) + EachUnit(b)
  {
    hide EscapeUnit;
    if a == [] {
      assert a + b == b;
    } else {
      EachUnitJoins(a[1..], b);
      assert (a + b)[1..] == a[1..] + b;
      assert EachUnit(a + b) == EscapeUnit(a[0]) + EachUnit(a[1..] + b);
    }
  }

  lemma {:induction false} EachUnitKeeps(s: Text)
    requires AllPrintable(s)
    ensures EachUnit(s) == s
  {
    if s != [] { EachUnitKeeps(s[1..]); }
  }

  lemma NibblesPrintable(c: Unit)
    ensures AllPrintable(UnicodeEscape(c)) && |UnicodeEscape(c)| == 6 && UnicodeEscape(c)[2..] == Nibbles(c)
  {
    PadIsNibbles(c);
  }

  lemma {:induction false} EachUnitPrintable(s: Text)
    ensures AllPrintable(EachUnit(s))
  {
    hide UnicodeEscape;
    if s != [] {
      NibblesPrintable(s[0]);
      EachUnitPrintable(s[1..]);
    }
  }

  // ---- The printed and escaped text, in one pass ----

  function AsciiUnit(c: Unit): Text {
    if ShortEscape(c) != [] then [BACKSLASH] + ShortEscape(c) else EscapeUnit(c)
  }

  function AsciiBody(s: Text): Text { if s == [] then [] else AsciiUnit(s[0]) + AsciiBody(s[1..]) }

  function AsciiQuote(s: Text): Text { [QUOTE] + AsciiBody(s) + [QUOTE] }

  function Ascii(v: Json): Text
    decreases v
  {
    match v
    case Null => NULL_TEXT
    case Bool(b) => if b then TRUE_TEXT else FALSE_TEXT
    case Number(token) => token
    case Str(s) => AsciiQuote(s)
    case Arr(items) => [OPEN_BRACKET] + AsciiItems(items) + [CLOSE_BRACKET]
    case Obj(fields) => [OPEN_BRACE] + AsciiFields(fields) + [CLOSE_BRACE]
  }

  function AsciiItems(items: seq<Json>): Text
    decreases items
  {
    if items == [] then []
    else if |items| == 1 then Ascii(items[0])
    else Ascii(items[0]) + [COMMA] + AsciiItems(items[1..])
  }

  function AsciiField(f: Field): Text
    decreases f
  { AsciiQuote(f.key) + [COLON] + Ascii(f.value) }

  function AsciiFields(fields: seq<Field>): Text
    decreases fields
  {
    if fields == [] then []
    else if |fields| == 1 then AsciiField(fields[0])
    else AsciiField(fields[0]) + [COMMA] + AsciiFields(fields[1..])
  }

  lemma QuotedUnit(c: Unit)
    ensures EachUnit(QuoteUnit(c)) == AsciiUnit(c)
    ensures High(c) || Low(c) ==> EachUnit(UnicodeEscape(c)) == AsciiUnit(c)
  {
    NibblesPrintable(c);
    EachUnitKeeps(UnicodeEscape(c));
    if ShortEscape(c) != [] { EachUnitKeeps(QuoteUnit(c)); }
    hide UnicodeEscape;
    if ShortEscape(c) == [] && c >= 0x20 { assert EachUnit([c]) == EscapeUnit(c) + EachUnit([]); }
  }

  lemma AsciiBodyTwo(s: Text)
    requires |s| >= 2
    ensures AsciiBody(s) == AsciiUnit(s[0]) + AsciiUnit(s[1]) + AsciiBody(s[2..])
  {
    hide AsciiUnit;
    assert s[1..][1..] == s[2..];
    assert AsciiBody(s[1..]) == AsciiUnit(s[1]) + AsciiBody(s[2..]);
  }

  lemma {:induction false} QuotedBody(s: Text)
    ensures EachUnit(QuoteBody(s)) == AsciiBody(s)
  {
    hide UnicodeEscape, QuoteUnit, AsciiUnit, EachUnit;
    if s == [] {
      assert EachUnit([]) == [] by { EachUnitKeeps([]); }
    } else if PairAt(s) {
      QuotedBody(s[2..]);
      EachUnitJoins(s[..2], QuoteBody(s[2..]));
      PairUnits(s);
      AsciiBodyTwo(s);
    } else {
      QuotedBody(s[1..]);
      QuotedUnit(s[0]);
      EachUnitJoins(if High(s[0]) || Low(s[0]) then UnicodeEscape(s[0]) else QuoteUnit(s[0]), QuoteBody(s[1..]));
    }
  }

  lemma PairUnits(s: Text)
    requires PairAt(s)
    ensures EachUnit(s[..2]) == AsciiUnit(s[0]) + AsciiUnit(s[1])
  {
    hide UnicodeEscape;
    assert s[..2][1..] == [s[1]];
    assert EachUnit([s[1]]) == EscapeUnit(s[1]) + EachUnit([]);
  }

  lemma Quoted(s: Text)
    ensures EachUnit(Quote(s)) == AsciiQuote(s)
  {
    hide QuoteBody, AsciiBody;
    QuotedBody(s);
    Framed(QUOTE, QuoteBody(s), QUOTE);
  }

  lemma Framed(open: Unit, s: Text, close: Unit)
    requires Printable(open) && Printable(close)
    ensures EachUnit([open] + s + [close]) == [open] + EachUnit(s) + [close]
  {
    EachUnitJoins([open] + s, [close]);
    EachUnitJoins([open], s);
    EachUnitKeeps([open]);
    EachUnitKeeps([close]);
  }

  lemma Separated(a: Text, c: Unit, b: Text)
    requires Printable(c)
    ensures EachUnit(a + [c] + b) == EachUnit(a) + [c] + EachUnit(b)
  {
    EachUnitJoins(a + [c], b);
    EachUnitJoins(a, [c]);
    EachUnitKeeps([c]);
  }

  /** The two steps together print what the one pass prints. */
  lemma {:induction false} EscapedValue(v: Json)
    ensures EachUnit(Stringify(v)) == Ascii(v)
    decreases v
  {
    hide EachUnit, Quote, AsciiQuote;
    match v
    case Null => EachUnitKeeps(NULL_TEXT);
    case Bool(b) => EachUnitKeeps(Stringify(v));
    case Number(token) => NumberNumeric(token); EachUnitKeeps(token);
    case Str(s) => Quoted(s);
    case Arr(items) => EscapedItems(items); Framed(OPEN_BRACKET, StringifyItems(items), CLOSE_BRACKET);
    case Obj(fields) => EscapedFields(fields); Framed(OPEN_BRACE, StringifyFields(fields), CLOSE_BRACE);
  }

  lemma {:induction false} EscapedItems(items: seq<Json>)
    ensures EachUnit(StringifyItems(items)) == AsciiItems(items)
    decreases items
  {
    hide EachUnit, Stringify, Ascii;
    if items == [] {
      EachUnitKeeps([]);
    } else {
      EscapedValue(items[0]);
      if |items| > 1 {
        EscapedItems(items[1..]);
        Separated(Stringify(items[0]), COMMA, StringifyItems(items[1..]));
      }
    }
  }

  lemma {:induction false} EscapedField(f: Field)
    ensures EachUnit(StringifyField(f)) == AsciiField(f)
    decreases f
  {
    hide EachUnit, Stringify, Ascii, Quote, AsciiQuote;
    Quoted(f.key);
    EscapedValue(f.value);
    Separated(Quote(f.key), COLON, Stringify(f.value));
  }

  lemma {:induction false} EscapedFields(fields: seq<Field>)
    ensures EachUnit(StringifyFields(fields)) == AsciiFields(fields)
    decreases fields
  {
    hide EachUnit, StringifyField, AsciiField;
    if fields == [] {
      EachUnitKeeps([]);
    } else {
      EscapedField(fields[0]);
      if |fields| > 1 {
        EscapedFields(fields[1..]);
        Separated(StringifyField(fields[0]), COMMA, StringifyFields(fields[1..]));
      }
    }
  }

  /** Printing, then the replacement. */
  function Print(v: Json): Text { Escape(Stringify(v)) }

  lemma PrintIsAscii(v: Json)
    ensures Print(v) == Ascii(v) && AllPrintable(Print(v))
  {
    hide Stringify, Ascii, EachUnit, Escape;
    EscapeIsUnitwise(Stringify(v));
    EscapedValue(v);
    EachUnitPrintable(Stringify(v));
  }

  // ---- The printed text, spelled out ----

  /** One unit of a printed string: quote and backslash after a backslash, five controls by letter,
      other printable ASCII as itself, anything else by its four hexadecimal digits. */
  lemma PrintedUnit(c: Unit)
    ensures AsciiUnit(c) ==
      if c == 0x22 then Units("\\\"") else if c == 0x5c then Units("\\\\")
      else if c == 8 then Units("\\b") else if c == 9 then Units("\\t") else if c == 10 then Units("\\n")
      else if c == 12 then Units("\\f") else if c == 13 then Units("\\r")
      else if 0x20 <= c <= 0x7e then [c]
      else Units("\\u") + [HexAt(c / 4096), HexAt(c / 256 % 16), HexAt(c / 16 % 16), HexAt(c % 16)]
  {
    NibblesPrintable(c);
    HexDigits(c / 4096);
    HexDigits(c / 256 % 16);
    HexDigits(c / 16 % 16);
    HexDigits(c % 16);
    assert UnicodeEscape(c)[..2] == [BACKSLASH, LOWER_U];
    assert UnicodeEscape(c) == UnicodeEscape(c)[..2] + UnicodeEscape(c)[2..];
    hide UnicodeEscape, HexDigit, HexAt;
  }

  function HexAt(d: nat): Unit
    requires d < 16
  { Units("0123456789abcdef")[d] }

  lemma HexDigits(d: nat)
    requires d < 16
    ensures HexDigit(d) == HexAt(d)
  {
  }

  /** Texts one after another with commas between them. */
  function Commas(parts: seq<Text>): Text {
    if parts == [] then [] else if |parts| == 1 then parts[0] else parts[0] + Units(",") + Commas(parts[1..])
  }

  function Concat(parts: seq<Text>): Text { if parts == [] then [] else parts[0] + Concat(parts[1..]) }

  function QuotedText(s: Text): Text {
    Units("\"") + Concat(seq(|s|, i requires 0 <= i < |s| => AsciiUnit(s[i]))) + Units("\"")
  }

  lemma {:induction false} BodyIs(s: Text)
    ensures AsciiBody(s) == Concat(seq(|s|, i requires 0 <= i < |s| => AsciiUnit(s[i])))
  {
    hide AsciiUnit;
    if s != [] {
      BodyIs(s[1..]);
      var parts := seq(|s|, i requires 0 <= i < |s| => AsciiUnit(s[i]));
      assert parts[1..] == seq(|s[1..]|, i requires 0 <= i < |s[1..]| => AsciiUnit(s[1..][i]));
    }
  }

  lemma QuotedIs(s: Text)
    ensures AsciiQuote(s) == QuotedText(s)
  {
    hide AsciiUnit;
    BodyIs(s);
    hide AsciiBody, Concat;
  }

  lemma {:induction false} ItemsAre(items: seq<Json>)
    ensures AsciiItems(items) == Commas(seq(|items|, i requires 0 <= i < |items| => Ascii(items[i])))
  {
    hide Ascii;
    if items != [] {
      ItemsAre(items[1..]);
      var parts := seq(|items|, i requires 0 <= i < |items| => Ascii(items[i]));
      assert parts[1..] == seq(|items[1..]|, i requires 0 <= i < |items[1..]| => Ascii(items[1..][i]));
    }
  }

  lemma {:induction false} FieldsAre(fields: seq<Field>)
    ensures AsciiFields(fields) ==
      Commas(seq(|fields|, i requires 0 <= i < |fields| =>
        QuotedText(fields[i].key) + Units(":") + Ascii(fields[i].value)))
  {
    hide Ascii, QuotedText, AsciiQuote;
    if fields != [] {
      FieldsAre(fields[1..]);
      QuotedIs(fields[0].key);
      var parts := seq(|fields|, i requires 0 <= i < |fields| =>
        QuotedText(fields[i].key) + Units(":") + Ascii(fields[i].value));
      assert parts[1..] == seq(|fields[1..]|, i requires 0 <= i < |fields[1..]| =>
        QuotedText(fields[1..][i].key) + Units(":") + Ascii(fields[1..][i].value));
    }
  }

  function PrintedItems(items: seq<Json>): seq<Text> { seq(|items|, i requires 0 <= i < |items| => Print(items[i])) }

  function PrintedFields(fields: seq<Field>): seq<Text> {
    seq(|fields|, i requires 0 <= i < |fields| => QuotedText(fields[i].key) + Units(":") + Print(fields[i].value))
  }

  lemma PrintedItemsAre(items: seq<Json>)
    ensures AsciiItems(items) == Commas(PrintedItems(items))
  {
    hide Print, Ascii;
    ItemsAre(items);
    forall i | 0 <= i < |items| ensures Print(items[i]) == Ascii(items[i]) { PrintIsAscii(items[i]); }
    hide Commas, AsciiItems;
    assert PrintedItems(items) == seq(|items|, i requires 0 <= i < |items| => Ascii(items[i]));
  }

  lemma PrintedFieldsAre(fields: seq<Field>)
    ensures AsciiFields(fields) == Commas(PrintedFields(fields))
  {
    hide Print, Ascii, QuotedText, Units;
    FieldsAre(fields);
    forall i | 0 <= i < |fields| ensures Print(fields[i].value) == Ascii(fields[i].value) {
      PrintIsAscii(fields[i].value);
    }
    hide Commas, AsciiFields;
    assert PrintedFields(fields) == seq(|fields|, i requires 0 <= i < |fields| =>
      QuotedText(fields[i].key) + Units(":") + Ascii(fields[i].value));
  }

  lemma WordsAre()
    ensures NULL_TEXT == Units("null") && TRUE_TEXT == Units("true") && FALSE_TEXT == Units("false")
    ensures [OPEN_BRACKET] == Units("[") && [CLOSE_BRACKET] == Units("]")
    ensures [OPEN_BRACE] == Units("{") && [CLOSE_BRACE] == Units("}")
  {
  }

  /** Main result on form: what every kind of value is printed as. */
  lemma PrintIs(v: Json)
    ensures Print(v) ==
      match v
      case Null => Units("null")
      case Bool(b) => if b then Units("true") else Units("false")
      case Number(token) => token
      case Str(s) => QuotedText(s)
      case Arr(items) => Units("[") + Commas(PrintedItems(items)) + Units("]")
      case Obj(fields) => Units("{") + Commas(PrintedFields(fields)) + Units("}")
  {
    PrintIsAscii(v);
    WordsAre();
    hide Print, Units, QuotedText, Commas, PrintedItems, PrintedFields, AsciiItems, AsciiFields, AsciiQuote;
    match v
    case Str(s) => QuotedIs(s);
    case Arr(items) => PrintedItemsAre(items);
    case Obj(fields) => PrintedFieldsAre(fields);
    case _ =>
  }

  // ---- Parsing, as RFC 8259 reads text without insignificant whitespace ----

  datatype Parsed<+T> = Fail | Done(value: T, rest: Text)

  function HexValue(c: Unit): int {
    if Digit(c) then c - ZERO
    else if LOWER_A <= c < LOWER_A + 6 then c - LOWER_A + 10
    else if 0x41 <= c < 0x47 then c - 0x41 + 10
    else -1
  }

  /** The unit that four hexadecimal digits name (section 7), or -1. */
  function FourHex(s: Text): (r: int)
    requires |s| == 4
    ensures -1 <= r < 0x1_0000
  {
    var a, b, c, d := HexValue(s[0]), HexValue(s[1]), HexValue(s[2]), HexValue(s[3]);
    if a < 0 || b < 0 || c < 0 || d < 0 then -1 else a * 0x1000 + b * 0x100 + c * 16 + d
  }

  /** What a two-unit escape stands for (section 7), or -1. */
  function Unescape(c: Unit): (r: int)
    ensures -1 <= r < 0x1_0000
  {
    if c == QUOTE || c == BACKSLASH || c == SLASH then c
    else if c == 0x62 then 0x08 else if c == 0x66 then 0x0c else if c == 0x6e then 0x0a
    else if c == 0x72 then 0x0d else if c == 0x74 then 0x09 else -1
  }

  /** One unit of a string body; the closing quote and controls are no units. */
  function ParseUnit(s: Text): (r: Parsed<Unit>)
    ensures r.Done? ==> |r.rest| < |s|
  {
    if s == [] || s[0] == QUOTE || s[0] < 0x20 then Fail
    else if s[0] != BACKSLASH then Done(s[0], s[1..])
    else if |s| < 2 then Fail
    else if s[1] == LOWER_U then
      if |s| < 6 || FourHex(s[2..6]) < 0 then Fail else Done(FourHex(s[2..6]), s[6..])
    else if Unescape(s[1]) < 0 then Fail
    else Done(Unescape(s[1]), s[2..])
  }

  function ParseBody(s: Text): (r: Parsed<Text>)
    ensures r.Done? ==> |r.rest| < |s|
    decreases |s|
  {
    if s != [] && s[0] == QUOTE then Done([], s[1..])
    else match ParseUnit(s)
      case Fail => Fail
      case Done(c, rest) =>
        match ParseBody(rest)
        case Fail => Fail
        case Done(body, end) => Done([c] + body, end)
  }

  function ParseQuoted(s: Text): (r: Parsed<Text>)
    ensures r.Done? ==> |r.rest| < |s|
  { if s != [] && s[0] == QUOTE then ParseBody(s[1..]) else Fail }

  function Run(s: Text, value: nat): (r: (nat, Text))
    ensures |r.1| <= |s|
    decreases |s|
  { if s != [] && Digit(s[0]) then Run(s[1..], value * 10 + (s[0] - ZERO)) else (value, s) }

  function ParseDigits(s: Text): (r: Parsed<int>)
    ensures r.Done? ==> |r.rest| < |s|
  {
    if s == [] || !Digit(s[0]) then Fail
    else if s[0] == ZERO then Done(0, s[1..])
    else var r := Run(s[1..], s[0] - ZERO); Done(r.0, r.1)
  }

  /** The numeric units a text starts with. */
  function Munch(s: Text): (t: Text)
    ensures t <= s
  { if s != [] && Numeric(s[0]) then [s[0]] + Munch(s[1..]) else [] }

  /** A number is as long as its units go on; nothing that may follow one continues it. */
  function ParseNumber(s: Text): (r: Parsed<Token>)
    ensures r.Done? ==> |r.rest| < |s|
  {
    var token := Munch(s);
    if IsNumber(token) then NumberNumeric(token); Done(token, s[|token|..]) else Fail
  }

  function ParseWord(s: Text, word: Text, value: Json): (r: Parsed<Json>)
    requires word != []
    ensures r.Done? ==> |r.rest| < |s|
  { if word <= s then Done(value, s[|word|..]) else Fail }

  function Parse(s: Text): (r: Parsed<Json>)
    ensures r.Done? ==> |r.rest| < |s|
    decreases |s|, 0
  {
    if s == [] then Fail
    else if s[0] == QUOTE then
      match ParseQuoted(s)
      case Fail => Fail
      case Done(text, rest) => Done(Str(text), rest)
    else if s[0] == OPEN_BRACKET then
      ParseArray(s[1..])
    else if s[0] == OPEN_BRACE then
      ParseObject(s[1..])
    else if s[0] == NULL_TEXT[0] then ParseWord(s, NULL_TEXT, Null)
    else if s[0] == TRUE_TEXT[0] then ParseWord(s, TRUE_TEXT, Bool(true))
    else if s[0] == FALSE_TEXT[0] then ParseWord(s, FALSE_TEXT, Bool(false))
    else match ParseNumber(s)
      case Fail => Fail
      case Done(token, rest) => Done(Number(token), rest)
  }

  /** What follows an opening bracket. */
  function ParseArray(s: Text): (r: Parsed<Json>)
    ensures r.Done? ==> |r.rest| < |s|
    decreases |s|, 3
  {
    if s != [] && s[0] == CLOSE_BRACKET then Done(Arr([]), s[1..])
    else match ParseItems(s)
      case Fail => Fail
      case Done(items, rest) => Done(Arr(items), rest)
  }

  /** What follows an opening brace. */
  function ParseObject(s: Text): (r: Parsed<Json>)
    ensures r.Done? ==> |r.rest| < |s|
    decreases |s|, 3
  {
    if s != [] && s[0] == CLOSE_BRACE then Done(Obj([]), s[1..])
    else match ParseFields(s)
      case Fail => Fail
      case Done(fields, rest) => Done(Obj(fields), rest)
  }

  function ParseItems(s: Text): (r: Parsed<seq<Json>>)
    ensures r.Done? ==> |r.rest| < |s|
    decreases |s|, 1
  {
    match Parse(s)
    case Fail => Fail
    case Done(v, rest) =>
      if rest == [] then Fail
      else if rest[0] == CLOSE_BRACKET then Done([v], rest[1..])
      else if rest[0] == COMMA then
        match ParseItems(rest[1..])
        case Fail => Fail
        case Done(more, end) => Done([v] + more, end)
      else Fail
  }

  function ParseField(s: Text): (r: Parsed<Field>)
    ensures r.Done? ==> |r.rest| < |s|
    decreases |s|, 1
  {
    match ParseQuoted(s)
    case Fail => Fail
    case Done(key, rest) =>
      if rest == [] || rest[0] != COLON then Fail
      else match Parse(rest[1..])
        case Fail => Fail
        case Done(v, end) => Done(Field(key, v), end)
  }

  function ParseFields(s: Text): (r: Parsed<seq<Field>>)
    ensures r.Done? ==> |r.rest| < |s|
    decreases |s|, 2
  {
    match ParseField(s)
    case Fail => Fail
    case Done(f, rest) =>
      if rest == [] then Fail
      else if rest[0] == CLOSE_BRACE then Done([f], rest[1..])
      else if rest[0] == COMMA then
        match ParseFields(rest[1..])
        case Fail => Fail
        case Done(more, end) => Done([f] + more, end)
      else Fail
  }

  // ---- Round trip ----

  lemma HexBack(d: nat)
    requires d < 16
    ensures HexValue(HexDigit(d)) == d
  {
  }

  lemma QuarterSteps(c: Unit)
    ensures c / 0x100 == c / 16 / 16 && c / 0x1000 == c / 16 / 16 / 16
  {
  }

  lemma NibblesAdd(c: Unit)
    ensures c == c / 0x1000 * 0x1000 + c / 0x100 % 16 * 0x100 + c / 16 % 16 * 16 + c % 16
  {
    QuarterSteps(c);
    var x := c / 16;
    var y := x / 16;
    assert y == y / 16 * 16 + y % 16;
    assert x == y * 16 + x % 16;
    assert c == x * 16 + c % 16;
  }

  lemma NibblesBack(c: Unit)
    ensures FourHex(Nibbles(c)) == c
  {
    NibblesAdd(c);
    HexBack(c / 0x1000);
    HexBack(c / 0x100 % 16);
    HexBack(c / 16 % 16);
    HexBack(c % 16);
    hide HexValue, HexDigit;
  }

  lemma EscapeBack(c: Unit, rest: Text)
    ensures ParseUnit(UnicodeEscape(c) + rest) == Done(c, rest)
  {
    NibblesPrintable(c);
    NibblesBack(c);
    var e := UnicodeEscape(c);
    assert e[0] == BACKSLASH && e[1] == LOWER_U;
    assert (e + rest)[2..6] == e[2..] && (e + rest)[6..] == rest;
  }

  lemma UnitBack(c: Unit, rest: Text)
    ensures ParseUnit(AsciiUnit(c) + rest) == Done(c, rest) && AsciiUnit(c)[0] != QUOTE
  {
    EscapeBack(c, rest);
    assert UnicodeEscape(c)[0] == BACKSLASH;
    hide UnicodeEscape;
    var e := AsciiUnit(c);
    if ShortEscape(c) != [] {
      assert (e + rest)[2..] == rest;
    } else if Printable(c) {
      assert (e + rest)[1..] == rest;
    }
  }

  lemma {:induction false} BodyBack(s: Text, rest: Text)
    ensures ParseBody(AsciiBody(s) + [QUOTE] + rest) == Done(s, rest)
  {
    hide AsciiUnit, ParseUnit;
    if s == [] {
      assert (AsciiBody(s) + [QUOTE] + rest)[1..] == rest;
    } else {
      var tail := AsciiBody(s[1..]) + [QUOTE] + rest;
      BodyBack(s[1..], rest);
      UnitBack(s[0], tail);
      UnitNonempty(s[0]);
      assert AsciiBody(s) == AsciiUnit(s[0]) + AsciiBody(s[1..]);
      hide AsciiBody;
      assert AsciiBody(s) + [QUOTE] + rest == AsciiUnit(s[0]) + tail;
      assert s == [s[0]] + s[1..];
    }
  }

  lemma UnitNonempty(c: Unit)
    ensures AsciiUnit(c) != []
  {
    NibblesPrintable(c);
  }

  lemma QuotedBack(s: Text, rest: Text)
    ensures ParseQuoted(AsciiQuote(s) + rest) == Done(s, rest)
  {
    BodyBack(s, rest);
    hide AsciiBody, ParseBody;
    assert (AsciiQuote(s) + rest)[1..] == AsciiBody(s) + [QUOTE] + rest;
  }

  predicate Ends(rest: Text) { rest == [] || !Numeric(rest[0]) }

  lemma {:induction false} MunchBack(s: Text, rest: Text)
    requires AllNumeric(s) && Ends(rest)
    ensures Munch(s + rest) == s
  {
    if s == [] {
      assert s + rest == rest;
    } else {
      MunchBack(s[1..], rest);
      assert (s + rest)[1..] == s[1..] + rest;
      assert s == [s[0]] + s[1..];
    }
  }

  lemma NumberBack(token: Token, rest: Text)
    requires Ends(rest)
    ensures ParseNumber(token + rest) == Done(token, rest)
    ensures token != [] && (token[0] == MINUS || Digit(token[0]))
  {
    NumberNumeric(token);
    MunchBack(token, rest);
    hide IsNumber, Munch;
    assert (token + rest)[|token|..] == rest;
  }

  // ---- Plain integers ----

  function Digits(n: nat): Text { if n < 10 then [ZERO + n] else Digits(n / 10) + [ZERO + n % 10] }

  /** The integer a number's text names when it is a plain decimal, or -1. */
  function IntegerOf(token: Text): int {
    var r := ParseDigits(token);
    if r.Done? && r.rest == [] then r.value else -1
  }

  lemma {:induction false} RunBack(n: nat, rest: Text)
    ensures Run(Digits(n) + rest, 0) == Run(rest, n)
    ensures Digits(n) != [] && Digit(Digits(n)[0]) && (n > 0 ==> Digits(n)[0] != ZERO)
  {
    if n < 10 {
      assert (Digits(n) + rest)[1..] == rest;
    } else {
      var last := [ZERO + n % 10];
      RunBack(n / 10, last + rest);
      assert Digits(n) + rest == Digits(n / 10) + (last + rest);
      assert (last + rest)[1..] == rest;
      assert n / 10 * 10 + n % 10 == n;
    }
  }

  lemma DigitsBack(n: nat, rest: Text)
    requires rest == [] || !Digit(rest[0])
    ensures ParseDigits(Digits(n) + rest) == Done(n, rest)
  {
    RunBack(n, rest);
    var s := Digits(n) + rest;
    if n == 0 {
      assert s[1..] == rest;
    } else {
      assert Run(s, 0) == Run(s[1..], s[0] - ZERO);
    }
  }

  lemma DigitsGrow(n: nat, d: nat)
    requires n > 0 && d < 10
    ensures Digits(n * 10 + d) == Digits(n) + [ZERO + d]
  {
    assert (n * 10 + d) / 10 == n && (n * 10 + d) % 10 == d;
  }

  /** Reading digits on appends them to the decimal read so far. */
  lemma {:induction false} RunDigits(s: Text, n: nat)
    requires n > 0 && Run(s, n).1 == []
    ensures Digits(Run(s, n).0) == Digits(n) + s
    decreases |s|
  {
    if s == [] {
      assert Digits(n) + s == Digits(n);
    } else {
      DigitsGrow(n, s[0] - ZERO);
      RunDigits(s[1..], n * 10 + (s[0] - ZERO));
      hide Digits, Run;
      assert s == [s[0]] + s[1..];
    }
  }

  /** A text that reads as a plain decimal is that number's digits: there is one for each. */
  lemma DigitsRead(s: Text)
    requires ParseDigits(s).Done? && ParseDigits(s).rest == []
    ensures ParseDigits(s).value >= 0 && s == Digits(ParseDigits(s).value)
  {
    if s[0] == ZERO {
      assert s == [ZERO];
    } else {
      RunDigits(s[1..], s[0] - ZERO);
      assert s == [s[0]] + s[1..];
    }
  }

  lemma {:induction false} DigitsLead(n: nat)
    ensures Leading(Digits(n)) == |Digits(n)|
  {
    if n >= 10 {
      DigitsLead(n / 10);
      LeadingJoins(Digits(n / 10), [ZERO + n % 10]);
    }
  }

  lemma {:induction false} LeadingJoins(s: Text, t: Text)
    requires Leading(s) == |s|
    ensures Leading(s + t) == |s| + Leading(t)
  {
    if s == [] {
      assert s + t == t;
    } else {
      LeadingJoins(s[1..], t);
      assert (s + t)[1..] == s[1..] + t;
    }
  }

  /** Decimal digits are a number, and name the integer they were made from. */
  lemma IntegerBack(n: nat)
    ensures IsNumber(Digits(n)) && IntegerOf(Digits(n)) == n
  {
    DigitsLead(n);
    RunBack(n, []);
    DigitsBack(n, []);
    assert Digits(n) + [] == Digits(n);
    hide ParseDigits, Run;
    if n > 0 { assert Digits(n)[0] != ZERO; }
  }

  /** A printed value starts with no closing bracket. */
  lemma Opens(v: Json)
    ensures Ascii(v) != [] && Ascii(v)[0] != CLOSE_BRACKET
  {
    if v.Number? { NumberBack(v.token, []); }
  }

  lemma WordBack(word: Text, value: Json, rest: Text)
    requires word != []
    ensures ParseWord(word + rest, word, value) == Done(value, rest)
  {
  }

  /** A printed value, followed by anything that does not continue a number, parses to itself
      and leaves the rest. */
  lemma {:induction false} ValueBack(v: Json, rest: Text)
    requires Ends(rest)
    ensures Parse(Ascii(v) + rest) == Done(v, rest)
    decreases v, 0
  {
    hide ParseQuoted, ParseNumber, ParseWord, AsciiQuote, ParseArray, ParseObject, AsciiItems, AsciiFields;
    match v
    case Null => WordBack(NULL_TEXT, Null, rest);
    case Bool(b) => if b { WordBack(TRUE_TEXT, v, rest); } else { WordBack(FALSE_TEXT, v, rest); }
    case Number(token) => NumberBack(token, rest); ParseByFirst(token + rest); hide Parse;
    case Str(s) => QuotedBack(s, rest); QuoteOpens(s); ParseByFirst(AsciiQuote(s) + rest); hide Parse;
    case Arr(items) =>
      ArrayBack(items, rest);
      Bracketed(AsciiItems(items), rest);
    case Obj(fields) =>
      ObjectBack(fields, rest);
      Bracketed(AsciiFields(fields), rest);
  }

  lemma ParseByFirst(s: Text)
    requires s != []
    ensures s[0] == QUOTE && ParseQuoted(s).Done? ==> Parse(s) == Done(Str(ParseQuoted(s).value), ParseQuoted(s).rest)
    ensures (s[0] == MINUS || Digit(s[0])) && ParseNumber(s).Done? ==>
      Parse(s) == Done(Number(ParseNumber(s).value), ParseNumber(s).rest)
  {
    hide ParseQuoted, ParseNumber, ParseArray, ParseObject, ParseWord;
  }

  lemma Bracketed(body: Text, rest: Text)
    ensures Parse([OPEN_BRACKET] + body + [CLOSE_BRACKET] + rest) == ParseArray(body + [CLOSE_BRACKET] + rest)
    ensures Parse([OPEN_BRACE] + body + [CLOSE_BRACE] + rest) == ParseObject(body + [CLOSE_BRACE] + rest)
  {
    hide ParseArray, ParseObject;
    Regroup([], OPEN_BRACKET, body, CLOSE_BRACKET, rest);
    Regroup([], OPEN_BRACE, body, CLOSE_BRACE, rest);
    assert ([OPEN_BRACKET] + body + [CLOSE_BRACKET] + rest)[1..] == body + [CLOSE_BRACKET] + rest;
    assert ([OPEN_BRACE] + body + [CLOSE_BRACE] + rest)[1..] == body + [CLOSE_BRACE] + rest;
  }

  lemma QuoteOpens(s: Text)
    ensures AsciiQuote(s) != [] && AsciiQuote(s)[0] == QUOTE
  {
  }

  lemma {:induction false} ArrayBack(items: seq<Json>, rest: Text)
    ensures ParseArray(AsciiItems(items) + [CLOSE_BRACKET] + rest) == Done(Arr(items), rest)
    decreases items, 1
  {
    if items == [] {
      assert (AsciiItems(items) + [CLOSE_BRACKET] + rest)[1..] == rest;
    } else {
      ItemsBack(items, rest);
      ItemsOpen(items);
      hide ParseItems, AsciiItems;
    }
  }

  lemma Regroup(a: Text, c: Unit, b: Text, d: Unit, rest: Text)
    ensures a + [c] + b + [d] + rest == a + ([c] + (b + [d] + rest))
    ensures b + [d] + rest == b + ([d] + rest)
  {
  }

  lemma ItemsOpen(items: seq<Json>)
    requires items != []
    ensures AsciiItems(items) != [] && AsciiItems(items)[0] != CLOSE_BRACKET
  {
    Opens(items[0]);
  }

  lemma {:induction false} ItemsBack(items: seq<Json>, rest: Text)
    requires items != []
    ensures ParseItems(AsciiItems(items) + [CLOSE_BRACKET] + rest) == Done(items, rest)
    decreases items, 0
  {
    hide Ascii, Parse;
    if |items| == 1 {
      ValueBack(items[0], [CLOSE_BRACKET] + rest);
      Regroup([], CLOSE_BRACKET, Ascii(items[0]), CLOSE_BRACKET, rest);
      assert items == [items[0]];
    } else {
      var more := AsciiItems(items[1..]) + [CLOSE_BRACKET] + rest;
      ItemsBack(items[1..], rest);
      ValueBack(items[0], [COMMA] + more);
      Regroup(Ascii(items[0]), COMMA, AsciiItems(items[1..]), CLOSE_BRACKET, rest);
      assert items == [items[0]] + items[1..];
    }
  }

  lemma {:induction false} FieldBack(f: Field, rest: Text)
    requires Ends(rest)
    ensures ParseField(AsciiField(f) + rest) == Done(f, rest)
    decreases f, 0
  {
    hide Ascii, Parse, ParseQuoted, AsciiQuote;
    QuotedBack(f.key, [COLON] + (Ascii(f.value) + rest));
    ValueBack(f.value, rest);
    assert AsciiField(f) + rest == AsciiQuote(f.key) + ([COLON] + (Ascii(f.value) + rest));
  }

  lemma {:induction false} ObjectBack(fields: seq<Field>, rest: Text)
    ensures ParseObject(AsciiFields(fields) + [CLOSE_BRACE] + rest) == Done(Obj(fields), rest)
    decreases fields, 1
  {
    if fields == [] {
      assert (AsciiFields(fields) + [CLOSE_BRACE] + rest)[1..] == rest;
    } else {
      FieldsBack(fields, rest);
      FieldsOpen(fields);
      hide ParseFields, AsciiFields;
    }
  }

  lemma FieldsOpen(fields: seq<Field>)
    requires fields != []
    ensures AsciiFields(fields) != [] && AsciiFields(fields)[0] == QUOTE
  {
    hide AsciiQuote, Ascii;
    QuoteOpens(fields[0].key);
  }

  lemma {:induction false} FieldsBack(fields: seq<Field>, rest: Text)
    requires fields != []
    ensures ParseFields(AsciiFields(fields) + [CLOSE_BRACE] + rest) == Done(fields, rest)
    decreases fields, 0
  {
    hide AsciiField, ParseField;
    if |fields| == 1 {
      FieldBack(fields[0], [CLOSE_BRACE] + rest);
      Regroup([], CLOSE_BRACE, AsciiField(fields[0]), CLOSE_BRACE, rest);
      assert fields == [fields[0]];
    } else {
      var more := AsciiFields(fields[1..]) + [CLOSE_BRACE] + rest;
      FieldsBack(fields[1..], rest);
      FieldBack(fields[0], [COMMA] + more);
      Regroup(AsciiField(fields[0]), COMMA, AsciiFields(fields[1..]), CLOSE_BRACE, rest);
      assert fields == [fields[0]] + fields[1..];
    }
  }

  /** Main result: the printed text is printable ASCII and parses back to the value. */
  lemma PrintParses(v: Json)
    ensures AllPrintable(Print(v)) && Parse(Print(v)) == Done(v, [])
  {
    hide Print, Ascii, Parse;
    PrintIsAscii(v);
    ValueBack(v, []);
    assert Ascii(v) + [] == Ascii(v);
  }

  lemma PrintIsInjective(v: Json, w: Json)
    ensures Print(v) == Print(w) <==> v == w
  {
    hide Print, Parse;
    PrintParses(v);
    PrintParses(w);
  }
}
