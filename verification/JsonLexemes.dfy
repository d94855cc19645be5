/** Characters, strings, numbers and tokens, read back from their texts. A scanned token is what the grammar
    takes from the front of the input, so each statement is about a text with more text after it. The second
    part is about escapes of code points, which the printer never writes but the lexer reads. */
module JsonLexemes {
  import opened Collections
  import opened Decimal
  import opened JsonDump
  import opened JsonLexer
  import opened JsonValue
  import opened Modular
  import opened Wrappers

  // ---- Tokens ------------------------------------------------------------------------------------------

  lemma ScanBlank(c: char, x: string)
    requires IsBlank(c)
    ensures Scanned([c] + x) == Scanned(x)
  {
    assert ([c] + x)[1..] == x;
  }

  lemma {:induction false} ScanSpaces(n: nat, x: string)
    ensures Scanned(Spaces(n) + x) == Scanned(x)
  {
    if n == 0 {
      assert Spaces(0) + x == x;
    } else {
      ScanSpaces(n - 1, x);
      ScanBlank(' ', Spaces(n - 1) + x);
      assert Spaces(n) + x == [' '] + (Spaces(n - 1) + x);
    }
  }

  lemma ScanNewline(pretty: bool, x: string)
    ensures Scanned(Newline(pretty) + x) == Scanned(x)
  {
    if pretty {
      ScanBlank('\n', x);
      assert "\n" + x == ['\n'] + x;
    } else {
      assert "" + x == x;
    }
  }

  function Punctuation(kind: Kind): string {
    match kind
    case BeginArray => "["
    case EndArray => "]"
    case BeginObject => "{"
    case EndObject => "}"
    case NameSeparator => ":"
    case ValueSeparator => ","
    case _ => ""
  }

  lemma ScanPunctuation(kind: Kind, x: string)
    requires Punctuation(kind) != ""
    ensures Scanned(Punctuation(kind) + x) == Token(kind, Punctuation(kind), x)
  {
    var s := Punctuation(kind) + x;
    assert s[..1] == Punctuation(kind) && s[1..] == x && MARK[0] == '\U{EF}';
  }

  lemma ScanWord(kind: Kind, word: string, x: string)
    requires (kind == LiteralTrue && word == "true") || (kind == LiteralFalse && word == "false")
          || (kind == LiteralNull && word == "null")
    ensures Scanned(word + x) == Token(kind, word, x)
  {
    var s := word + x;
    assert word <= s && s[..|word|] == word && s[|word|..] == x && MARK[0] == '\U{EF}';
  }

  // ---- Strings -----------------------------------------------------------------------------------------

  lemma HexOfHexify(v: nat)
    requires v < 16
    ensures IsHex(Hexify(v)) && HexValue(Hexify(v)) == v
  {
  }

  lemma ControlUnit(c: char, y: string)
    requires c < ' ' && ShortEscape(c) == ' '
    ensures UnitLength(EscapedChar(c) + y) == 6 && Unit(EscapedChar(c) + y) == Success(([c], 6))
  {
    var e, s := EscapedChar(c), EscapedChar(c) + y;
    var hi, lo := c as nat / 16, c as nat % 16;
    HexOfHexify(hi);
    HexOfHexify(lo);
    HexOfHexify(0);
    assert s[2..][0] == '0' && s[2..][1] == '0' && s[2..][2] == Hexify(hi) && s[2..][3] == Hexify(lo);
    assert CodeUnit(s[2..]) == c as nat;
    assert ToUnicode(c as nat, 0) == Success([c]);
  }

  /** What is written for a character is one unit of a string, and stands for that character. */
  lemma EscapedCharUnit(c: char, y: string)
    ensures UnitLength(EscapedChar(c) + y) == |EscapedChar(c)|
    ensures Unit(EscapedChar(c) + y) == Success(([c], |EscapedChar(c)|))
  {
    if ShortEscape(c) == ' ' && c < ' ' { ControlUnit(c, y); }
  }

  lemma {:induction false} EscapedBody(s: string, x: string)
    ensures BodyLength(EscapedString(s) + ("\"" + x)) == |EscapedString(s)|
  {
    var q := "\"" + x;
    if s == "" {
      assert EscapedString(s) + q == q;
    } else {
      var e, r := EscapedChar(s[0]), EscapedString(s[1..]);
      EscapedBody(s[1..], x);
      EscapedCharUnit(s[0], r + q);
      Associative(e, r, q);
      assert (e + (r + q))[|e|..] == r + q;
    }
  }

  lemma {:induction false} UnquotedEscaped(s: string)
    ensures Unquoted(EscapedString(s)) == Success(s)
  {
    if s != "" {
      var e, r := EscapedChar(s[0]), EscapedString(s[1..]);
      UnquotedEscaped(s[1..]);
      EscapedCharUnit(s[0], r);
      assert (e + r)[|e|..] == r;
      assert [s[0]] + s[1..] == s;
    }
  }

  function QuotedString(s: string): string { "\"" + EscapedString(s) + "\"" }

  lemma ScanString(s: string, x: string)
    ensures Scanned(QuotedString(s) + x) == Token(ValueString, QuotedString(s), x)
    ensures QuotedString(s)[1..|QuotedString(s)| - 1] == EscapedString(s)
  {
    var e, q, t := EscapedString(s), QuotedString(s), QuotedString(s) + x;
    EscapedBody(s, x);
    assert t[1..] == e + ("\"" + x);
    assert t[|e| + 1] == '"' && t[..|e| + 2] == q && t[|e| + 2..] == x && MARK[0] == '\U{EF}';
  }

  // ---- Unicode escapes ---------------------------------------------------------------------------------

  /** The code point that UTF-8 bytes stand for: section 3 of RFC 3629. */
  function CodePointOf(s: string): int {
    if |s| == 1 then s[0] as int
    else if |s| == 2 then (s[0] as int - 0xC0) * 0x40 + (s[1] as int - 0x80)
    else if |s| == 3 then ((s[0] as int - 0xE0) * 0x40 + (s[1] as int - 0x80)) * 0x40 + (s[2] as int - 0x80)
    else if |s| == 4 then
      (((s[0] as int - 0xF0) * 0x40 + (s[1] as int - 0x80)) * 0x40 + (s[2] as int - 0x80)) * 0x40 + (s[3] as int - 0x80)
    else -1
  }

  /** The bytes stand for the code point, and no shorter ones do. */
  lemma Utf8IsShortest(c: nat)
    requires c <= 0x10FFFF
    ensures Utf8(c).Success? && CodePointOf(Utf8(c).value) == c
    ensures |Utf8(c).value| == if c < 0x80 then 1 else if c < 0x800 then 2 else if c < 0x1_0000 then 3 else 4
  {
    if c <= 0x7FF { TwoGroups(c); } else if c <= 0xFFFF { ThreeGroups(c); } else { FourGroups(c); }
  }

  /** Examples from section 7 of RFC 3629. */
  lemma Utf8Examples()
    ensures Utf8(0x41) == Success("A") && Utf8(0x391) == Success(['\U{CE}', '\U{91}'])
    ensures Utf8(0x2262) == Success(['\U{E2}', '\U{89}', '\U{A2}'])
    ensures Utf8(0x233B4) == Success(['\U{F0}', '\U{A3}', '\U{8E}', '\U{B4}'])
  {
  }

  lemma TwoGroups(c: nat)
    requires c <= 0x7FF
    ensures c == c / 0x40 % 0x20 * 0x40 + c % 0x40
  {
    assert c / 0x40 < 0x20;
  }

  lemma ThreeGroups(c: nat)
    requires c <= 0xFFFF
    ensures c == (c / 0x1000 % 0x10 * 0x40 + c / 0x40 % 0x40) * 0x40 + c % 0x40
  {
    QuotientTwice(c, 0x40, 0x40);
    assert c / 0x1000 < 0x10;
  }

  lemma FourGroups(c: nat)
    requires c <= 0x10FFFF
    ensures c == ((c / 0x4_0000 % 8 * 0x40 + c / 0x1000 % 0x40) * 0x40 + c / 0x40 % 0x40) * 0x40 + c % 0x40
  {
    QuotientTwice(c, 0x40, 0x40);
    QuotientTwice(c, 0x1000, 0x40);
    assert c / 0x4_0000 < 8;
  }

  lemma Regroup(q: int, b: int, r: int, a: int)
    ensures (q * b + r) * a == q * (a * b) + r * a
  {
    assert q * b * a == q * (b * a);
  }

  lemma QuotientTwice(n: nat, a: nat, b: nat)
    requires a > 0 && b > 0
    ensures a * b > 0 && n / a / b == n / (a * b)
  {
    var q := n / a / b;
    var r := n / a % b * a + n % a;
    assert n / a == q * b + n / a % b;
    assert n == n / a * a + n % a;
    Regroup(q, b, n / a % b, a);
    NonNegativeProduct(n / a % b, a);
    ProductGrows(n / a % b, b - 1, a);
    assert (b - 1) * a == a * b - a;
    DivModUnique(n, a * b, q, r);
  }

  function HexText(u: nat): string
    requires u < 0x1_0000
  {
    [Hexify(u / 0x1000), Hexify(u / 0x100 % 16), Hexify(u / 16 % 16), Hexify(u % 16)]
  }

  /** A code point as an escape, or as two of them: section 7 of RFC 7159. */
  function UnicodeEscape(c: nat): string
    requires c <= 0x10FFFF
  {
    if c < 0x1_0000 then "\\u" + HexText(c)
    else "\\u" + HexText(0xD800 + (c - 0x1_0000) / 0x400) + "\\u" + HexText(0xDC00 + (c - 0x1_0000) % 0x400)
  }

  lemma HexTextReads(u: nat, y: string)
    requires u < 0x1_0000
    ensures FourHex(HexText(u) + y) && CodeUnit(HexText(u) + y) == u
  {
    var s := HexText(u) + y;
    HexOfHexify(u / 0x1000);
    HexOfHexify(u / 0x100 % 16);
    HexOfHexify(u / 16 % 16);
    HexOfHexify(u % 16);
    assert s[0] == Hexify(u / 0x1000) && s[1] == Hexify(u / 0x100 % 16) && s[2] == Hexify(u / 16 % 16) && s[3] == Hexify(u % 16);
    Nibbles(u);
  }

  lemma Nibbles(u: nat)
    requires u < 0x1_0000
    ensures u == ((u / 0x1000 * 16 + u / 0x100 % 16) * 16 + u / 16 % 16) * 16 + u % 16
  {
    QuotientTwice(u, 16, 16);
    QuotientTwice(u, 0x100, 16);
  }

  lemma EscapeStarts(u: nat, y: string)
    requires u < 0x1_0000
    ensures var s := "\\u" + HexText(u) + y;
      StartsEscape(s) && FourHex(s[2..]) && CodeUnit(s[2..]) == u && s[6..] == y && UnitLength(s) == 6
  {
    var s := "\\u" + HexText(u) + y;
    HexTextReads(u, y);
    assert s[2..] == HexText(u) + y;
  }

  /** An escape stands for the bytes of its code point. */
  lemma EscapeReads(c: nat, y: string)
    requires c < 0x1_0000 && !IsHigh(c)
    ensures Unit(UnicodeEscape(c) + y) == Success((Utf8(c).value, 6))
  {
    EscapeStarts(c, y);
  }

  /** A pair of escapes stands for the bytes of one code point. */
  lemma PairReads(c: nat, y: string)
    requires 0x1_0000 <= c <= 0x10FFFF
    ensures Unit(UnicodeEscape(c) + y) == Success((Utf8(c).value, 12))
  {
    var high, low := 0xD800 + (c - 0x1_0000) / 0x400, 0xDC00 + (c - 0x1_0000) % 0x400;
    var second := "\\u" + HexText(low) + y;
    var s := UnicodeEscape(c) + y;
    assert s == "\\u" + HexText(high) + second;
    EscapeStarts(high, second);
    EscapeStarts(low, y);
    assert s[8..] == second[2..];
    SurrogatesMakeUp(c);
  }

  lemma SurrogatesMakeUp(c: nat)
    requires 0x1_0000 <= c <= 0x10FFFF
    ensures var high, low := 0xD800 + (c - 0x1_0000) / 0x400, 0xDC00 + (c - 0x1_0000) % 0x400;
      IsHigh(high) && IsLow(low) && ToUnicode(high, low) == Utf8(c)
  {
    var d := c - 0x1_0000;
    assert d == d / 0x400 * 0x400 + d % 0x400 && d / 0x400 < 0x400;
  }

  // ---- Numbers -----------------------------------------------------------------------------------------

  /** Nothing that would go on with a number. */
  predicate Delimited(x: string) {
    x == "" || !(IsDigit(x[0]) || x[0] == '.' || x[0] == 'e' || x[0] == 'E')
  }

  lemma {:induction false} DigitsThenOther(d: string, x: string)
    requires AllDigits(d) && Delimited(x)
    ensures DigitsLength(d + x) == |d|
  {
    if d == "" {
      assert d + x == x;
    } else {
      DigitsThenOther(d[1..], x);
      assert (d + x)[1..] == d[1..] + x;
    }
  }

  lemma NumeralLength(n: nat, x: string)
    requires Delimited(x)
    ensures IntLength(ToDigits(n) + x) == |ToDigits(n)|
  {
    DigitsThenOther(ToDigits(n), x);
    ValueOfDigits(n);
  }

  lemma IntegerLength(i: int, x: string)
    requires Delimited(x)
    ensures NumberLength(IntegerText(i) + x) == |IntegerText(i)|
  {
    SignedIntegerLength(i, x);
    assert (IntegerText(i) + x)[|IntegerText(i)|..] == x;
    assert TailLength(x) == 0;
  }

  lemma SignedIntegerLength(i: int, x: string)
    requires Delimited(x)
    ensures SignedLength(IntegerText(i) + x) == |IntegerText(i)| > 0
  {
    var n := if i < 0 then -i else i;
    NumeralLength(n, x);
    assert IsDigit(ToDigits(n)[0]);
    if i < 0 { MinusLength(ToDigits(n), x); } else { PlainLength(ToDigits(n), x); }
  }

  lemma MinusLength(d: string, x: string)
    requires IntLength(d + x) == |d| > 0
    ensures SignedLength("-" + d + x) == 1 + |d|
  {
    assert ("-" + d + x)[1..] == d + x;
  }

  lemma PlainLength(d: string, x: string)
    requires d != "" && d[0] != '-' && IntLength(d + x) == |d|
    ensures SignedLength(d + x) == |d|
  {
    assert (d + x)[0..] == d + x;
  }

  lemma ScanInteger(i: int, x: string)
    requires Delimited(x)
    ensures Scanned(IntegerText(i) + x) == Token(ValueNumber, IntegerText(i), x)
  {
    var t := IntegerText(i);
    IntegerLength(i, x);
    assert IsDigit(ToDigits(if i < 0 then -i else i)[0]);
    ScanNumber(t, x);
  }

  lemma ScanNumber(t: string, x: string)
    requires t != "" && (IsDigit(t[0]) || t[0] == '-') && NumberLength(t + x) == |t|
    ensures Scanned(t + x) == Token(ValueNumber, t, x)
  {
    ScanPlain(t + x);
    assert (t + x)[..|t|] == t && (t + x)[|t|..] == x;
  }

  lemma ScanPlain(s: string)
    requires s != "" && (IsDigit(s[0]) || s[0] == '-')
    ensures Scanned(s) == NumberToken(s)
  {
    assert MARK[0] == '\U{EF}';
  }

  lemma {:induction false} ValueOfStart(s: string, n: nat)
    requires AllDigits(s) && n <= |s|
    ensures Value(s[..n]) <= Value(s)
    decreases |s|
  {
    if n < |s| {
      ValueOfStart(s[..|s| - 1], n);
      assert s[..|s| - 1][..n] == s[..n];
    } else {
      assert s[..n] == s;
    }
  }

  lemma {:induction false} AccumulatesValue(s: string, n: nat, max: Uint64)
    requires AllDigits(s) && n <= |s| && Value(s) <= max
    ensures Value(s[..n]) <= max && Accumulated(Value(s[..n]), s[n..], max) == Success(Value(s))
    decreases |s| - n
  {
    ValueOfStart(s, n);
    if n == |s| {
      assert s[..n] == s;
    } else {
      AccumulatesValue(s, n + 1, max);
      ValueStep(s, n);
      DropDrop(s, n, 1);
      AccumulatesStep(Value(s[..n]), s[n..], max);
    }
  }

  lemma ValueStep(s: string, n: nat)
    requires AllDigits(s) && n < |s|
    ensures Value(s[..n + 1]) == Value(s[..n]) * 10 + DigitValue(s[n])
  {
    assert s[..n + 1][..n] == s[..n];
  }

  lemma AccumulatesStep(value: Uint64, s: string, max: Uint64)
    requires s != "" && IsDigit(s[0]) && value * 10 + DigitValue(s[0]) <= max
    ensures Accumulated(value, s, max) == Accumulated(value * 10 + DigitValue(s[0]), s[1..], max)
  {
  }

  lemma AccumulatesDigits(n: nat, max: Uint64)
    requires n <= max
    ensures Accumulated(0, ToDigits(n), max) == Success(n)
  {
    var s := ToDigits(n);
    ValueOfDigits(n);
    AccumulatesValue(s, 0, max);
    assert s[0..] == s && Value(s[..0]) == 0;
  }

  /** Every number of 64 bits comes back, the negative ones as signed and the others as unsigned. */
  lemma NumberOfText(i: int)
    requires -0x8000_0000_0000_0000 <= i < 0x1_0000_0000_0000_0000
    ensures NumberOf(IntegerText(i)) == Success(if i < 0 then Integer(i) else Unsigned(i))
  {
    var t := IntegerText(i);
    if i < 0 {
      AccumulatesDigits(-i, MAX_NEGATIVE);
      assert t[1..] == ToDigits(-i);
    } else {
      AccumulatesDigits(i, MAX_UNSIGNED);
      assert IsDigit(t[0]);
    }
  }
}
