/** What the parser makes of texts that the printer does not write: blanks of every kind, longer escapes, leading
    zeros, and text that goes on after a value. And why the printer writes the escapes it does: no text that the
    standard allows for a string is shorter. */
module JsonReading {
  import opened Collections
  import opened Decimal
  import opened JsonDump
  import opened JsonLayout
  import opened JsonLexemes
  import opened JsonLexer
  import opened JsonParser
  import opened JsonRoundTrip
  import opened JsonValue
  import opened Wrappers

  // ---- Strings -----------------------------------------------------------------------------------------

  const LOWER := "0123456789abcdef"
  const UPPER := "0123456789ABCDEF"

  /** Hexadecimal digits are read in either case. */
  lemma HexDigits(v: nat)
    requires v < 16
    ensures IsHex(LOWER[v]) && HexValue(LOWER[v]) == v
    ensures IsHex(UPPER[v]) && HexValue(UPPER[v]) == v
  {
  }

  /** An escape of any four hexadecimal digits stands for the bytes of the code point that they spell. */
  lemma AnyHexReads(a: char, b: char, c: char, d: char, y: string)
    requires IsHex(a) && IsHex(b) && IsHex(c) && IsHex(d)
    requires var u := 0x1000 * HexValue(a) + 0x100 * HexValue(b) + 0x10 * HexValue(c) + HexValue(d); !IsHigh(u)
    ensures var u := 0x1000 * HexValue(a) + 0x100 * HexValue(b) + 0x10 * HexValue(c) + HexValue(d);
      Utf8(u).Success? && Unit(['\\', 'u', a, b, c, d] + y) == Success((Utf8(u).value, 6))
  {
    var s := ['\\', 'u', a, b, c, d] + y;
    assert s[2..] == [a, b, c, d] + y;
    assert FourHex(s[2..]);
  }

  /** The escapes of two characters; a slash may be escaped, though the printer never does. */
  lemma ShortEscapes(y: string)
    ensures Unit("\\\"" + y) == Success(("\"", 2)) && Unit("\\\\" + y) == Success(("\\", 2))
    ensures Unit("\\/" + y) == Success(("/", 2))
    ensures Unit("\\b" + y) == Success((['\U{08}'], 2)) && Unit("\\f" + y) == Success((['\U{0C}'], 2))
    ensures Unit("\\n" + y) == Success(("\n", 2)) && Unit("\\r" + y) == Success(("\r", 2))
    ensures Unit("\\t" + y) == Success(("\t", 2))
  {
  }

  /** A character by itself is a string exactly when it is neither a quote nor a backslash nor one of the first 16
      control characters. The standard excludes all 32 of them. */
  lemma RawCharIff(c: char, x: string)
    requires c != '"' && c != '\\'
    ensures Scanned("\"" + ([c] + ("\"" + x))).kind == ValueString <==> c >= '\U{10}'
    ensures c >= '\U{10}' ==> Unquoted([c]) == Success([c])
  {
    var q := "\"" + x;
    var s := [c] + q;
    assert s[1..] == q && UnitLength(q) == 0 && RepeatedLength(UnitLength, q) == 0;
    assert UnitLength(s) == if c >= '\U{10}' then 1 else 0;
    assert RepeatedLength(UnitLength, s) == if c >= '\U{10}' then 1 else 0;
    var t := "\"" + s;
    assert t[1..] == s && MARK[0] == '\U{EF}';
    assert t[2] == '"' && t[1] == c;
    assert [c][1..] == "" && Decoded(Unit, "") == Success("") && Unit([c]) == Success(([c], 1));
    assert Decoded(Unit, [c]) == Prepend([c], Success("")) && [c] + "" == [c];
  }

  /** No control character stands in a text by itself. */
  predicate NoControl(t: string) { forall i :: 0 <= i < |t| ==> t[i] >= ' ' }

  lemma {:induction false} CostOfPlain(s: string)
    requires forall i :: 0 <= i < |s| ==> s[i] >= '\U{80}'
    ensures EscapedString(s) == s
  {
    if s != "" {
      CostOfPlain(s[1..]);
      assert [s[0]] + s[1..] == s;
    }
  }

  lemma CostOfCodePoint(u: nat)
    requires u <= 0x10FFFF
    ensures |EscapedString(Utf8(u).value)| <= 6
  {
    if u < 0x80 { EscapedOne(u as char); } else { CostOfPlain(Utf8(u).value); }
  }

  /** What a unit stands for is not written in more characters than the unit has. */
  ghost predicate Costs(t: string, o: string, n: nat) {
    0 < n <= |t| && |EscapedString(o)| <= n && (BodyLength(t) == |t| ==> BodyLength(t[n..]) == |t| - n)
  }

  lemma UnitCost(t: string)
    requires UnitLength(t) > 0 && NoControl(t) && Unit(t).Success?
    ensures Costs(t, Unit(t).value.0, Unit(t).value.1)
  {
    if t[0] != '\\' {
      EscapedOne(t[0]);
    } else if t[1] != 'u' {
      EscapedOne(SimpleEscape(t[1]));
    } else if IsHigh(CodeUnit(t[2..])) {
      PairCost(t);
    } else {
      CostOfCodePoint(CodeUnit(t[2..]));
    }
  }

  lemma PairCost(t: string)
    requires StartsEscape(t) && IsHigh(CodeUnit(t[2..])) && Unit(t).Success?
    ensures Unit(t).value.1 == 12 && Costs(t, Unit(t).value.0, 12)
  {
    PairUnit(t);
    PairBody(t);
    PairIsCodePoint(CodeUnit(t[2..]), CodeUnit(t[8..]));
    CostOfCodePoint(CodeUnit(t[2..]) * 0x400 + CodeUnit(t[8..]) - 0x35FDC00);
  }

  lemma PairUnit(t: string)
    requires StartsEscape(t) && IsHigh(CodeUnit(t[2..])) && Unit(t).Success?
    ensures StartsEscape(t[6..]) && FourHex(t[8..]) && IsLow(CodeUnit(t[8..]))
    ensures var u := CodeUnit(t[2..]) * 0x400 + CodeUnit(t[8..]) - 0x35FDC00;
      0 <= u <= 0x10FFFF && Unit(t) == Success((Utf8(u).value, 12))
  {
    assert t[8..] == t[6..][2..];
  }

  lemma PairBody(t: string)
    requires StartsEscape(t) && StartsEscape(t[6..])
    ensures |t| >= 12 && (BodyLength(t) == |t| ==> BodyLength(t[12..]) == |t| - 12)
  {
    assert UnitLength(t) == 6 && UnitLength(t[6..]) == 6;
    assert t[6..][6..] == t[12..];
    assert BodyLength(t) == 6 + RepeatedLength(UnitLength, t[6..]);
    assert RepeatedLength(UnitLength, t[6..]) == 6 + RepeatedLength(UnitLength, t[12..]);
  }

  lemma PairIsCodePoint(first: nat, second: nat)
    requires IsHigh(first) && IsLow(second)
    ensures 0x1_0000 <= first * 0x400 + second - 0x35FDC00 <= 0x10FFFF
  {
  }

  /** No text that stands for the same string, and has no control characters by themselves, is shorter than the one
      that is printed. */
  lemma {:induction false} EscapedIsShortest(t: string, s: string)
    requires Body(t) && NoControl(t) && Unquoted(t) == Success(s)
    ensures |EscapedString(s)| <= |t|
    decreases |t|
  {
    if t != "" {
      UnitCost(t);
      var (o, n) := Unit(t).value;
      var rest := Unquoted(t[n..]).value;
      EscapedIsShortest(t[n..], rest);
      assert s == o + rest;
      ExpandConcat(EscapedChar, o, rest);
    }
  }

  // ---- Whole texts -------------------------------------------------------------------------------------

  /** Blanks, tabs, line feeds, carriage returns and byte order marks before a value do not matter. */
  lemma BlankSkipped(c: char, x: string)
    requires c == ' ' || c == '\t' || c == '\n' || c == '\r'
    ensures ParseText([c] + x) == ParseText(x)
    ensures ParseText(['\U{EF}', '\U{BB}', '\U{BF}'] + x) == ParseText(x)
  {
    ScanBlank(c, x);
    var s := ['\U{EF}', '\U{BB}', '\U{BF}'] + x;
    assert s[3..] == x && MARK <= s;
  }

  /** After the text of a value there may be nothing but the end of the input. */
  lemma TextGoesOn(v: Json, indent: Int32, x: string)
    requires Delimited(x)
    ensures ParseText(Text(v, indent) + x)
         == if Scanned(x).kind == EndOfInput then Success(Canon(v)) else Failure(Unexpected)
  {
    if indent >= 0 { DumpedReads(v, true, indent, 0, x); } else { DumpedReads(v, false, 0, 0, x); }
    PartReads(Text(v, indent), x, Canon(v));
  }

  lemma PartReads(text: string, x: string, v: Json)
    requires Reads(text, x, v)
    ensures ParseText(text + x) == if Scanned(x).kind == EndOfInput then Success(v) else Failure(Unexpected)
  {
    assert JsonRoundTrip.Opened(x);
  }

  predicate AllBlank(x: string) { forall i :: 0 <= i < |x| ==> x[i] == ' ' || x[i] == '\t' || x[i] == '\n' || x[i] == '\r' }

  lemma {:induction false} BlanksScanned(b: string, x: string)
    requires AllBlank(b)
    ensures Scanned(b + x) == Scanned(x)
  {
    if b == "" {
      assert b + x == x;
    } else {
      var rest := b[1..];
      BlanksScanned(rest, x);
      ScanBlank(b[0], rest + x);
      assert b == [b[0]] + rest;
      Associative([b[0]], rest, x);
    }
  }

  /** Blanks after a value are taken, and any other character after them is not, but for the zero byte and the
      start of a byte order mark. */
  lemma OnlyBlanksFollow(v: Json, indent: Int32, b: string, c: char, y: string)
    requires AllBlank(b) && !AllBlank([c]) && c != '\0' && c != '\U{EF}'
    requires Delimited(b + ([c] + y))
    ensures ParseText(Text(v, indent) + b) == Success(Canon(v))
    ensures ParseText(Text(v, indent) + (b + ([c] + y))) == Failure(Unexpected)
  {
    assert Delimited(b);
    TextGoesOn(v, indent, b);
    BlanksScanned(b, "");
    assert b + "" == b;
    TextGoesOn(v, indent, b + ([c] + y));
    BlanksScanned(b, [c] + y);
    CharIsNoEnd(c, y);
  }

  lemma CharIsNoEnd(c: char, y: string)
    requires !AllBlank([c]) && c != '\0' && c != '\U{EF}'
    ensures Scanned([c] + y).kind != EndOfInput
  {
    var s := [c] + y;
    assert s[0] == c && MARK[0] == '\U{EF}';
    assert !IsBlank(c) by { assert [c][0] == c; }
  }

  lemma ZeroToken(d: char, x: string)
    requires IsDigit(d)
    ensures Scanned("0" + ([d] + x)) == Token(ValueNumber, "0", [d] + x)
  {
    var rest := [d] + x;
    var s := "0" + rest;
    assert s[0..] == s && s[1..] == rest;
    assert SignedLength(s) == 1 && TailLength(rest) == 0 && NumberLength(s) == 1;
    ScanPlain(s);
    assert s[..1] == "0";
  }

  lemma NumberGoesOn(t: Token)
    requires t.kind == ValueNumber && WellFormed(t) && t.lexeme != "" && Scanned(t.rest).kind != EndOfInput
    requires NumberOf(t.lexeme).Success?
    ensures ParseWhole(t) == Failure(Unexpected)
  {
  }

  /** A number does not start with a zero that another digit follows. */
  lemma LeadingZeroRejected(d: char, x: string)
    requires IsDigit(d)
    ensures ParseText("0" + ([d] + x)) == Failure(Unexpected)
  {
    ZeroToken(d, x);
    NumberOfText(0);
    ScanPlain([d] + x);
    NumberGoesOn(Token(ValueNumber, "0", [d] + x));
  }
}
