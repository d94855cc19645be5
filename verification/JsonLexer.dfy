/** Reading text token by token. */
module JsonLexer {
  import opened Collections
  import opened Decimal
  import opened JsonValue
  import opened Wrappers

  datatype Kind =
    | LiteralTrue | LiteralFalse | LiteralNull | ValueString | ValueNumber | BeginArray | BeginObject
    | EndArray | EndObject | NameSeparator | ValueSeparator | ParseFailure | EndOfInput

  /** A token, its text, and the text after it. */
  datatype Token = Token(kind: Kind, lexeme: string, rest: string)

  /** The exceptions of the parser, and the one thing that is left out of the values. */
  datatype ParseError = Unexpected | MissingLowSurrogate | BadCodePoint | FloatNotModelled

  // ---- The grammar of tokens ---------------------------------------------------------------------------

  predicate IsBlank(c: char) { c == ' ' || c == '\t' || c == '\n' || c == '\r' }

  predicate IsHex(c: char) { IsDigit(c) || 'a' <= c <= 'f' || 'A' <= c <= 'F' }

  predicate IsSimpleEscape(c: char) {
    c == '"' || c == '\\' || c == '/' || c == 'b' || c == 'f' || c == 'n' || c == 'r' || c == 't'
  }

  predicate FourHex(s: string) { |s| >= 4 && IsHex(s[0]) && IsHex(s[1]) && IsHex(s[2]) && IsHex(s[3]) }

  /** The length of the string character or escape at the start of s, or 0. */
  function UnitLength(s: string): (n: nat)
    ensures n <= |s|
  {
    if s == "" || s[0] == '"' || s[0] < '\U{10}' then 0
    else if s[0] != '\\' then 1
    else if |s| >= 2 && IsSimpleEscape(s[1]) then 2
    else if |s| >= 2 && s[1] == 'u' && FourHex(s[2..]) then 6
    else 0
  }

  /** The length of the longest start of s that can stand between quotes. */
  function BodyLength(s: string): (n: nat)
    ensures n <= |s|
  {
    RepeatedLength(UnitLength, s)
  }

  /** As many units as there are, one after the other. */
  function RepeatedLength(unit: string -> nat, s: string): (n: nat)
    ensures n <= |s|
    decreases |s|
  {
    var n := unit(s);
    if n == 0 || n > |s| then 0 else n + RepeatedLength(unit, s[n..])
  }

  function DigitsLength(s: string): (n: nat)
    ensures n <= |s|
  {
    if s != "" && IsDigit(s[0]) then 1 + DigitsLength(s[1..]) else 0
  }

  /** Zero, or digits that do not start with a zero. */
  function IntLength(s: string): (n: nat)
    ensures n <= |s|
  {
    if s != "" && s[0] == '0' then 1 else DigitsLength(s)
  }

  /** A point and at least one digit, or nothing. */
  function FractionLength(s: string): (n: nat)
    ensures n <= |s|
  {
    if s != "" && s[0] == '.' && DigitsLength(s[1..]) > 0 then 1 + DigitsLength(s[1..]) else 0
  }

  function ExponentLength(s: string): (n: nat)
    ensures n <= |s|
  {
    if s == "" || (s[0] != 'e' && s[0] != 'E') then 0
    else
      var signed := if |s| >= 2 && (s[1] == '+' || s[1] == '-') then 2 else 1;
      var digits := DigitsLength(s[signed..]);
      if digits > 0 then signed + digits else 0
  }

  /** The longest number at the start of s, or 0. */
  function NumberLength(s: string): (n: nat)
    ensures n <= |s|
  {
    var n := SignedLength(s);
    if n == 0 then 0 else n + TailLength(s[n..])
  }

  function SignedLength(s: string): (n: nat)
    ensures n <= |s|
  {
    var sign := if s != "" && s[0] == '-' then 1 else 0;
    var digits := IntLength(s[sign..]);
    if digits == 0 then 0 else sign + digits
  }

  function TailLength(s: string): (n: nat)
    ensures n <= |s|
  {
    var n := FractionLength(s);
    n + ExponentLength(s[n..])
  }

  function Take(kind: Kind, s: string, n: nat): Token
    requires n <= |s|
  {
    Token(kind, s[..n], s[n..])
  }

  function Literal(kind: Kind, word: string, s: string): Token
    requires s != ""
  {
    if word <= s then Take(kind, s, |word|) else Take(ParseFailure, s, 1)
  }

  function NumberToken(s: string): Token
    requires s != ""
  {
    if NumberLength(s) > 0 then Take(ValueNumber, s, NumberLength(s)) else Take(ParseFailure, s, 1)
  }

  const MARK := "\U{EF}\U{BB}\U{BF}"

  /** The next token. White space and byte order marks are skipped, and a zero byte or the end of the text
      ends the input. */
  function Scanned(s: string): (t: Token)
    ensures |t.lexeme| + |t.rest| <= |s| && (t.lexeme == "" ==> t.kind == EndOfInput && t.rest == "")
    decreases |s|
  {
    if s == "" then Token(EndOfInput, "", "")
    else if IsBlank(s[0]) then Scanned(s[1..])
    else if MARK <= s then Scanned(s[3..])
    else if s[0] == '-' || IsDigit(s[0]) then NumberToken(s)
    else match s[0]
      case '\0' => Take(EndOfInput, s, 1)
      case '[' => Take(BeginArray, s, 1)
      case ']' => Take(EndArray, s, 1)
      case '{' => Take(BeginObject, s, 1)
      case '}' => Take(EndObject, s, 1)
      case ':' => Take(NameSeparator, s, 1)
      case ',' => Take(ValueSeparator, s, 1)
      case 't' => Literal(LiteralTrue, "true", s)
      case 'f' => Literal(LiteralFalse, "false", s)
      case 'n' => Literal(LiteralNull, "null", s)
      case '"' =>
        var n := BodyLength(s[1..]);
        if n + 1 < |s| && s[n + 1] == '"' then Take(ValueString, s, n + 2) else Take(ParseFailure, s, 1)
      case _ => Take(ParseFailure, s, 1)
  }

  // ---- The value of a string token ---------------------------------------------------------------------

  function HexValue(c: char): nat
    requires IsHex(c)
  {
    if IsDigit(c) then DigitValue(c) else if c >= 'a' then c as nat - 'a' as nat + 10 else c as nat - 'A' as nat + 10
  }

  function CodeUnit(s: string): (u: nat)
    requires FourHex(s)
    ensures u < 0x1_0000
  {
    ((HexValue(s[0]) * 16 + HexValue(s[1])) * 16 + HexValue(s[2])) * 16 + HexValue(s[3])
  }

  predicate IsHigh(u: nat) { 0xD800 <= u <= 0xDBFF }

  predicate IsLow(u: nat) { 0xDC00 <= u <= 0xDFFF }

  /** to_unicode: the UTF-8 bytes of a code point, or of a pair of surrogates. */
  function ToUnicode(first: nat, second: nat): Result<string, ParseError> {
    if IsHigh(first) && !IsLow(second) then Failure(MissingLowSurrogate)
    else Utf8(if IsHigh(first) then first * 0x400 + second - 0x35FDC00 else first)
  }

  function Utf8(c: int): Result<string, ParseError>
    requires c >= 0
  {
    if c < 0x80 then Success([c as char])
    else if c <= 0x7FF then Success([(0xC0 + c / 0x40 % 0x20) as char, (0x80 + c % 0x40) as char])
    else if c <= 0xFFFF then
      Success([(0xE0 + c / 0x1000 % 0x10) as char, (0x80 + c / 0x40 % 0x40) as char, (0x80 + c % 0x40) as char])
    else if c <= 0x10FFFF then
      Success([(0xF0 + c / 0x4_0000 % 8) as char, (0x80 + c / 0x1000 % 0x40) as char,
               (0x80 + c / 0x40 % 0x40) as char, (0x80 + c % 0x40) as char])
    else Failure(BadCodePoint)
  }

  predicate Body(s: string) { BodyLength(s) == |s| }

  lemma {:induction false} BodyOfStart(s: string)
    ensures Body(s[..BodyLength(s)])
  {
    var n := UnitLength(s);
    if n > 0 {
      BodyOfStart(s[n..]);
      var b := s[..BodyLength(s)];
      UnitOfStart(s, BodyLength(s));
      assert b[n..] == s[n..][..BodyLength(s[n..])];
    }
  }

  lemma UnitOfStart(s: string, n: nat)
    requires UnitLength(s) > 0 && UnitLength(s) <= n <= |s|
    ensures UnitLength(s[..n]) == UnitLength(s)
  {
    if s[0] == '\\' && n >= 6 { assert s[..n][2..] == s[2..n]; }
  }

  function SimpleEscape(c: char): char {
    match c
    case 't' => '\t'
    case 'b' => '\U{08}'
    case 'f' => '\U{0C}'
    case 'n' => '\n'
    case 'r' => '\r'
    case _ => c
  }

  function Prepend(s: string, r: Result<string, ParseError>): Result<string, ParseError> {
    if r.Failure? then r else Success(s + r.value)
  }

  predicate StartsEscape(s: string) { |s| >= 2 && s[0] == '\\' && s[1] == 'u' && FourHex(s[2..]) }

  /** What the character or escape at the start of a string body stands for, and how long it is; a high
      surrogate takes the escape after it along. A string token has no other units. */
  function Unit(s: string): Result<(string, nat), ParseError> {
    if s == "" then Success(("", 0))
    else if s[0] != '\\' then Success(([s[0]], 1))
    else if |s| >= 2 && s[1] != 'u' then Success(([SimpleEscape(s[1])], 2))
    else if !StartsEscape(s) then Success(("", 0))
    else
      var first := CodeUnit(s[2..]);
      if !IsHigh(first) then
        var t :- ToUnicode(first, 0);
        Success((t, 6))
      else if !StartsEscape(s[6..]) then Failure(MissingLowSurrogate)
      else
        var t :- ToUnicode(first, CodeUnit(s[8..]));
        Success((t, 12))
  }

  /** The values of the units one after the other. */
  function Decoded(unit: string -> Result<(string, nat), ParseError>, s: string): Result<string, ParseError>
    decreases |s|
  {
    if s == "" then Success("")
    else
      var u :- unit(s);
      if u.1 == 0 || u.1 > |s| then Success(u.0) else Prepend(u.0, Decoded(unit, s[u.1..]))
  }

  /** The value of what stands between quotes. */
  function Unquoted(s: string): Result<string, ParseError> {
    Decoded(Unit, s)
  }

  // ---- The value of a number token ---------------------------------------------------------------------

  /** The digits are added up modulo 2^64; an overflow is noticed if the sum gets smaller or passes the
      maximum. */
  function Accumulated(value: Uint64, s: string, max: Uint64): Result<Uint64, ParseError>
    decreases s
  {
    if s == "" then Success(value)
    else if !IsDigit(s[0]) then Failure(FloatNotModelled)
    else
      var temp := (value * 10 + DigitValue(s[0])) % 0x1_0000_0000_0000_0000;
      if temp < value || temp > max then Failure(FloatNotModelled) else Accumulated(temp, s[1..], max)
  }

  const MAX_NEGATIVE: Uint64 := 0x8000_0000_0000_0000
  const MAX_UNSIGNED: Uint64 := 0xFFFF_FFFF_FFFF_FFFF

  lemma {:induction false} AccumulatedBounded(value: Uint64, s: string, max: Uint64)
    requires value <= max
    ensures Accumulated(value, s, max).Success? ==> Accumulated(value, s, max).value <= max
    decreases s
  {
    if s != "" && IsDigit(s[0]) {
      var temp := (value * 10 + DigitValue(s[0])) % 0x1_0000_0000_0000_0000;
      if temp <= max { AccumulatedBounded(temp, s[1..], max); }
    }
  }

  function NumberOf(s: string): Result<Json, ParseError>
    requires s != ""
  {
    if s[0] == '-' then
      AccumulatedBounded(0, s[1..], MAX_NEGATIVE);
      var v :- Accumulated(0, s[1..], MAX_NEGATIVE);
      var n: int := v;
      Success(Integer(-n))
    else
      var v :- Accumulated(0, s, MAX_UNSIGNED);
      Success(Unsigned(v))
  }

  // ---- The lexer ---------------------------------------------------------------------------------------

  /** The text of a string token between its quotes. */
  predicate WellFormed(t: Token) {
    && (t.lexeme == "" ==> t.kind == EndOfInput)
    && (t.kind == ValueString ==>
          && |t.lexeme| >= 2 && t.lexeme[0] == '"' && t.lexeme[|t.lexeme| - 1] == '"'
          && Body(t.lexeme[1..|t.lexeme| - 1]))
  }

  lemma {:induction false} ScannedIsWellFormed(s: string)
    ensures WellFormed(Scanned(s))
    decreases |s|
  {
    if s == "" {
    } else if IsBlank(s[0]) {
      ScannedIsWellFormed(s[1..]);
    } else if MARK <= s {
      ScannedIsWellFormed(s[3..]);
    } else if s[0] == '"' {
      var n := BodyLength(s[1..]);
      if n + 1 < |s| && s[n + 1] == '"' { StringToken(s, n); }
    }
  }

  lemma StringToken(s: string, n: nat)
    requires s != "" && s[0] == '"' && n == BodyLength(s[1..]) && n + 1 < |s| && s[n + 1] == '"'
    ensures WellFormed(Take(ValueString, s, n + 2))
  {
    var t := s[..n + 2];
    BodyOfStart(s[1..]);
    assert t[1..|t| - 1] == s[1..][..n];
  }

  class Lexer {
    const buffer: string
    var start: nat
    var cursor: nat

    ghost predicate Valid()
      reads this
    {
      start <= cursor <= |buffer| + 1
    }

    /** The text after the cursor; behind the last character there is a zero byte. */
    ghost function Rest(): string
      reads this
    {
      if cursor <= |buffer| then buffer[cursor..] else ""
    }

    function Lexeme(): string
      requires Valid()
      reads this
    {
      if cursor <= |buffer| then buffer[start..cursor] else if start <= |buffer| then buffer[start..] else ""
    }

    constructor (buffer: string)
      ensures Valid() && Rest() == buffer && this.buffer == buffer && cursor == 0
    {
      this.buffer := buffer;
      start, cursor := 0, 0;
    }

    /** Reads the next token. */
    method Scan() returns (kind: Kind)
      requires Valid() && cursor <= |buffer|
      modifies this
      ensures Valid() && Token(kind, Lexeme(), Rest()) == Scanned(old(Rest()))
      ensures kind != EndOfInput ==> cursor <= |buffer|
    {
      SkipBlanks();
      start := cursor;
      ghost var s := Rest();
      if cursor == |buffer| {
        cursor := cursor + 1;
        return EndOfInput;
      }
      var n := 1;
      kind, n := Recognize(cursor);
      cursor := cursor + n;
      assert buffer[start..cursor] == s[..n] && buffer[cursor..] == s[n..];
    }

    method SkipBlanks()
      requires Valid() && cursor <= |buffer|
      modifies this
      ensures Valid() && cursor <= |buffer| && Scanned(Rest()) == Scanned(old(Rest()))
      ensures Rest() != "" ==> !IsBlank(Rest()[0]) && !(MARK <= Rest())
    {
      while cursor < |buffer| && (IsBlank(buffer[cursor]) || MARK <= buffer[cursor..])
        invariant Valid() && cursor <= |buffer| && Scanned(Rest()) == Scanned(old(Rest()))
        decreases |buffer| - cursor
      {
        ghost var s := Rest();
        cursor := cursor + if IsBlank(buffer[cursor]) then 1 else 3;
        assert Rest() == s[if IsBlank(s[0]) then 1 else 3..];
      }
    }

    /** The token at a position that holds neither a blank nor a byte order mark, and its length. */
    method Recognize(at: nat) returns (kind: Kind, n: nat)
      requires at < |buffer| && !IsBlank(buffer[at]) && !(MARK <= buffer[at..])
      ensures 0 < n <= |buffer| - at && Take(kind, buffer[at..], n) == Scanned(buffer[at..])
    {
      ghost var s := buffer[at..];
      n := 1;
      if buffer[at] == '-' || IsDigit(buffer[at]) {
        kind, n := RecognizeNumber(at);
        return;
      }
      match buffer[at]
      case '\0' => kind := EndOfInput;
      case '[' => kind := BeginArray;
      case ']' => kind := EndArray;
      case '{' => kind := BeginObject;
      case '}' => kind := EndObject;
      case ':' => kind := NameSeparator;
      case ',' => kind := ValueSeparator;
      case 't' => kind, n := RecognizeWord(LiteralTrue, "true", at);
      case 'f' => kind, n := RecognizeWord(LiteralFalse, "false", at);
      case 'n' => kind, n := RecognizeWord(LiteralNull, "null", at);
      case '"' =>
        assert s[1..] == buffer[at + 1..];
        var length := BodyLength(buffer[at + 1..]);
        kind := ParseFailure;
        if at + 1 + length < |buffer| && buffer[at + 1 + length] == '"' { kind, n := ValueString, length + 2; }
      case _ => kind := ParseFailure;
    }

    method RecognizeNumber(at: nat) returns (kind: Kind, n: nat)
      requires at < |buffer|
      ensures 0 < n <= |buffer| - at && Take(kind, buffer[at..], n) == NumberToken(buffer[at..])
    {
      kind, n := ParseFailure, 1;
      var length := NumberLength(buffer[at..]);
      if length > 0 { kind, n := ValueNumber, length; }
    }

    method RecognizeWord(literal: Kind, word: string, at: nat) returns (kind: Kind, n: nat)
      requires at < |buffer| && word != ""
      ensures 0 < n <= |buffer| - at && Take(kind, buffer[at..], n) == Literal(literal, word, buffer[at..])
    {
      if word <= buffer[at..] { return literal, |word|; } else { return ParseFailure, 1; }
    }

    /** The value of a string token: what stands between the quotes, with the escapes resolved. */
    method GetString() returns (r: Result<string, ParseError>)
      requires Valid() && WellFormed(Token(ValueString, Lexeme(), Rest()))
      ensures r == Unquoted(Lexeme()[1..|Lexeme()| - 1])
    {
      var token := Lexeme();
      r := DecodeUnits(Unit, token[1..|token| - 1]);
    }

    method DecodeUnits(unit: string -> Result<(string, nat), ParseError>, body: string) returns (r: Result<string, ParseError>)
      ensures r == Decoded(unit, body)
    {
      var result, i := "", 0;
      PrependNothing(Decoded(unit, body));
      while i < |body|
        invariant i <= |body| && Decoded(unit, body) == Prepend(result, Decoded(unit, body[i..]))
      {
        var u := unit(body[i..]);
        if u.Failure? { return Failure(u.error); }
        if u.value.1 == 0 || u.value.1 > |body| - i { return Success(result + u.value.0); }
        DropDrop(body, i, u.value.1);
        PrependMore(result, u.value.0, Decoded(unit, body[i + u.value.1..]));
        result := result + u.value.0;
        i := i + u.value.1;
      }
      PrependNothing(Success(result));
      return Success(result);
    }

    /** The value of a number token. Whatever is not an integer of 64 bits is left to the floats. */
    method GetNumber() returns (r: Result<Json, ParseError>)
      requires Valid() && Lexeme() != ""
      ensures r == NumberOf(Lexeme())
    {
      var token := Lexeme();
      var value: Uint64, max, negative, isFloat, i := 0, MAX_UNSIGNED, false, false, 0;
      if token[0] == '-' { max, negative, i := MAX_NEGATIVE, true, 1; }
      ghost var digits := token[i..];
      while i < |token|
        invariant i <= |token| && value <= max
        invariant Accumulated(0, digits, max) == if isFloat then Failure(FloatNotModelled) else Accumulated(value, token[i..], max)
      {
        DropDrop(token, i, 1);
        if !IsDigit(token[i]) {
          isFloat := true;
          if token[i] != '.' { break; }
        } else if !isFloat {
          var temp := (value * 10 + DigitValue(token[i])) % 0x1_0000_0000_0000_0000;
          if temp < value || temp > max { isFloat := true; } else { value := temp; }
        }
        i := i + 1;
      }
      if isFloat { return Failure(FloatNotModelled); }
      if negative {
        var magnitude: int := value;
        return Success(Integer(-magnitude));
      }
      return Success(Unsigned(value));
    }
  }

  lemma PrependNothing(r: Result<string, ParseError>)
    ensures Prepend("", r) == r
    ensures r.Success? ==> Prepend(r.value, Success("")) == r
  {
    if r.Success? { assert "" + r.value == r.value && r.value + "" == r.value; }
  }

  lemma PrependMore(a: string, b: string, r: Result<string, ParseError>)
    ensures Prepend(a, Prepend(b, r)) == Prepend(a + b, r)
  {
    if r.Success? { Associative(a, b, r.value); }
  }
}
