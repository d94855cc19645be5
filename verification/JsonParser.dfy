/** Building values from text by recursive descent. */
module JsonParser {
  import opened JsonLexer
  import opened JsonValue
  import opened Wrappers

  // ---- The grammar of values ---------------------------------------------------------------------------

  function Next(t: Token): Token { Scanned(t.rest) }

  function Size(t: Token): nat { |t.lexeme| + |t.rest| }

  /** A value and the token after it. */
  type Parsed = Result<(Json, Token), ParseError>

  ghost predicate Shrinks(r: Parsed, t: Token) {
    r.Success? ==> WellFormed(r.value.1) && Size(r.value.1) < Size(t)
  }

  function ParseValue(t: Token): (r: Parsed)
    requires WellFormed(t)
    ensures Shrinks(r, t)
    decreases Size(t), 0
  {
    ScannedIsWellFormed(t.rest);
    match t.kind
    case BeginObject =>
      var u := Next(t);
      ScannedIsWellFormed(u.rest);
      if u.kind == EndObject then Success((Obj(map[]), Next(u)))
      else if u.kind == ValueSeparator then Failure(Unexpected)
      else ParseMembers(u, map[])
    case BeginArray =>
      var u := Next(t);
      ScannedIsWellFormed(u.rest);
      if u.kind == EndArray then Success((Arr([]), Next(u)))
      else if u.kind == ValueSeparator then Failure(Unexpected)
      else ParseElements(u, [])
    case LiteralNull => Success((Null, Next(t)))
    case LiteralTrue => Success((Bool(true), Next(t)))
    case LiteralFalse => Success((Bool(false), Next(t)))
    case ValueString =>
      var s :- Unquoted(t.lexeme[1..|t.lexeme| - 1]);
      Success((Str(s), Next(t)))
    case ValueNumber =>
      var v :- NumberOf(t.lexeme);
      Success((v, Next(t)))
    case _ => Failure(Unexpected)
  }

  /** The token is the first of an element or the comma before it. */
  function ParseElements(t: Token, elems: seq<Json>): (r: Parsed)
    requires WellFormed(t)
    ensures Shrinks(r, t)
    decreases Size(t), 1
  {
    var (v, w) :- ParseValue(AfterComma(t));
    AfterElement(w, elems + [v])
  }

  function AfterElement(t: Token, elems: seq<Json>): (r: Parsed)
    requires WellFormed(t)
    ensures r.Success? ==> WellFormed(r.value.1) && Size(r.value.1) <= Size(t)
    decreases Size(t), 2
  {
    ScannedIsWellFormed(t.rest);
    if t.kind == ValueSeparator then ParseElements(t, elems)
    else if t.kind == EndArray then Success((Arr(elems), Next(t)))
    else Failure(Unexpected)
  }

  /** The key of a member, with the comma before it and the colon after it, and the token of its value. */
  function Keyed(t: Token): (r: Result<(string, Token), ParseError>)
    requires WellFormed(t)
    ensures r.Success? ==> WellFormed(r.value.1) && Size(r.value.1) < Size(t)
  {
    var u := AfterComma(t);
    if u.kind != ValueString then Failure(Unexpected)
    else
      var key :- Unquoted(u.lexeme[1..|u.lexeme| - 1]);
      ScannedIsWellFormed(u.rest);
      var v :- AfterColon(Next(u));
      Success((key, v))
  }

  function AfterComma(t: Token): (u: Token)
    requires WellFormed(t)
    ensures WellFormed(u) && Size(u) <= Size(t)
  {
    ScannedIsWellFormed(t.rest);
    if t.kind == ValueSeparator then Next(t) else t
  }

  function AfterColon(t: Token): (r: Result<Token, ParseError>)
    requires WellFormed(t)
    ensures r.Success? ==> WellFormed(r.value) && Size(r.value) < Size(t)
  {
    ScannedIsWellFormed(t.rest);
    if t.kind == NameSeparator then Success(Next(t)) else Failure(Unexpected)
  }

  /** The token is the key of a member or the comma before it. */
  function ParseMembers(t: Token, members: map<string, Json>): (r: Parsed)
    requires WellFormed(t)
    ensures Shrinks(r, t)
    decreases Size(t), 1
  {
    var (key, u) :- Keyed(t);
    var (v, w) :- ParseValue(u);
    AfterMember(w, members[key := v])
  }

  function AfterMember(t: Token, members: map<string, Json>): (r: Parsed)
    requires WellFormed(t)
    ensures r.Success? ==> WellFormed(r.value.1) && Size(r.value.1) <= Size(t)
    decreases Size(t), 2
  {
    ScannedIsWellFormed(t.rest);
    if t.kind == ValueSeparator then ParseMembers(t, members)
    else if t.kind == EndObject then Success((Obj(members), Next(t)))
    else Failure(Unexpected)
  }

  /** One value and nothing after it. */
  function ParseWhole(t: Token): Result<Json, ParseError>
    requires WellFormed(t)
  {
    var (v, u) :- ParseValue(t);
    if u.kind == EndOfInput then Success(v) else Failure(Unexpected)
  }

  /** The value of a whole text. */
  function ParseText(s: string): Result<Json, ParseError> {
    ScannedIsWellFormed(s);
    ParseWhole(Scanned(s))
  }

  // ---- The parser --------------------------------------------------------------------------------------

  class Parser {
    const lexer: Lexer
    var lastToken: Kind

    ghost predicate Valid()
      reads this, lexer
    {
      lexer.Valid() && WellFormed(Current()) && (lastToken != EndOfInput ==> lexer.cursor <= |lexer.buffer|)
    }

    ghost function Current(): Token
      requires lexer.Valid()
      reads this, lexer
    {
      Token(lastToken, lexer.Lexeme(), lexer.Rest())
    }

    constructor (s: string)
      ensures Valid() && fresh(lexer) && Current() == Scanned(s)
    {
      var l := new Lexer(s);
      var kind := l.Scan();
      lexer, lastToken := l, kind;
      ScannedIsWellFormed(s);
    }

    method GetToken()
      requires Valid() && lastToken != EndOfInput
      modifies this, lexer
      ensures Valid() && Current() == Next(old(Current()))
    {
      ScannedIsWellFormed(lexer.Rest());
      lastToken := lexer.Scan();
    }

    /** The public interface: one value and nothing after it. */
    method Parse() returns (r: Result<Json, ParseError>)
      requires Valid()
      modifies this, lexer
      ensures r == ParseWhole(old(Current()))
    {
      r := ParseInternal();
      if r.Success? && lastToken != EndOfInput { return Failure(Unexpected); }
    }

    ghost predicate Agrees(r: Result<Json, ParseError>, p: Parsed)
      requires lexer.Valid()
      reads this, lexer
    {
      if p.Failure? then r == Failure(p.error) else r == Success(p.value.0) && Current() == p.value.1
    }

    method ParseInternal() returns (r: Result<Json, ParseError>)
      requires Valid()
      modifies this, lexer
      ensures Valid() && Agrees(r, ParseValue(old(Current())))
      decreases Size(Current()), 2
    {
      ghost var t := Current();
      match lastToken
      case BeginObject => r := ParseObject();
      case BeginArray => r := ParseArray();
      case LiteralNull =>
        GetToken();
        r := Success(Null);
      case ValueString =>
        var s := lexer.GetString();
        if s.Failure? { return Failure(s.error); }
        GetToken();
        r := Success(Str(s.value));
      case LiteralTrue =>
        GetToken();
        r := Success(Bool(true));
      case LiteralFalse =>
        GetToken();
        r := Success(Bool(false));
      case ValueNumber =>
        r := lexer.GetNumber();
        if r.Success? { GetToken(); }
      case _ => r := Failure(Unexpected);
    }

    method ParseArray() returns (r: Result<Json, ParseError>)
      requires Valid() && lastToken == BeginArray
      modifies this, lexer
      ensures Valid() && Agrees(r, ParseValue(old(Current())))
      decreases Size(Current()), 1
    {
      GetToken();
      if lastToken == EndArray {
        GetToken();
        return Success(Arr([]));
      }
      if lastToken == ValueSeparator { return Failure(Unexpected); }
      ghost var first := Current();
      var elems: seq<Json>, more := [], true;
      while more
        invariant Valid() && Size(Current()) <= Size(first)
        invariant ParseElements(first, []) == if more then ParseElements(Current(), elems) else AfterElement(Current(), elems)
        invariant !more ==> lastToken != ValueSeparator
        decreases more, Size(Current())
      {
        var v := ParseElement(elems);
        if v.Failure? { return v; }
        elems := elems + [v.value];
        more := lastToken == ValueSeparator;
      }
      if lastToken != EndArray { return Failure(Unexpected); }
      GetToken();
      r := Success(Arr(elems));
    }

    /** A comma if there is one, and an element. */
    method ParseElement(ghost elems: seq<Json>) returns (r: Result<Json, ParseError>)
      requires Valid()
      modifies this, lexer
      ensures Valid()
      ensures r.Failure? ==> ParseElements(old(Current()), elems) == Failure(r.error)
      ensures r.Success? ==> Size(Current()) < Size(old(Current()))
      ensures r.Success? ==> ParseElements(old(Current()), elems) == AfterElement(Current(), elems + [r.value])
      decreases Size(Current()), 3
    {
      SkipComma();
      r := ParseInternal();
    }

    method ParseObject() returns (r: Result<Json, ParseError>)
      requires Valid() && lastToken == BeginObject
      modifies this, lexer
      ensures Valid() && Agrees(r, ParseValue(old(Current())))
      decreases Size(Current()), 1
    {
      GetToken();
      if lastToken == EndObject {
        GetToken();
        return Success(Obj(map[]));
      }
      if lastToken == ValueSeparator { return Failure(Unexpected); }
      ghost var first := Current();
      var members: map<string, Json>, more := map[], true;
      while more
        invariant Valid() && Size(Current()) <= Size(first)
        invariant ParseMembers(first, map[]) == if more then ParseMembers(Current(), members) else AfterMember(Current(), members)
        invariant !more ==> lastToken != ValueSeparator
        decreases more, Size(Current())
      {
        var m := ParseMember(members);
        if m.Failure? { return Failure(m.error); }
        members := members[m.value.0 := m.value.1];
        more := lastToken == ValueSeparator;
      }
      if lastToken != EndObject { return Failure(Unexpected); }
      GetToken();
      r := Success(Obj(members));
    }

    /** A comma if there is one, a key, a colon and a value. */
    method ParseMember(ghost members: map<string, Json>) returns (r: Result<(string, Json), ParseError>)
      requires Valid()
      modifies this, lexer
      ensures Valid()
      ensures r.Failure? ==> ParseMembers(old(Current()), members) == Failure(r.error)
      ensures r.Success? ==> Size(Current()) < Size(old(Current()))
      ensures r.Success? ==> ParseMembers(old(Current()), members) == AfterMember(Current(), members[r.value.0 := r.value.1])
      decreases Size(Current()), 3
    {
      var key := ParseKey();
      if key.Failure? { return Failure(key.error); }
      var v := ParseInternal();
      if v.Failure? { return Failure(v.error); }
      r := Success((key.value, v.value));
    }

    method ParseKey() returns (r: Result<string, ParseError>)
      requires Valid()
      modifies this, lexer
      ensures Valid()
      ensures var p := Keyed(old(Current())); if p.Failure? then r == Failure(p.error) else r == Success(p.value.0) && Current() == p.value.1
    {
      SkipComma();
      if lastToken != ValueString { return Failure(Unexpected); }
      r := ParseQuoted();
      if r.Failure? { return; }
      var colon := ExpectColon();
      if !colon { return Failure(Unexpected); }
    }

    /** The string that is the current token. */
    method ParseQuoted() returns (r: Result<string, ParseError>)
      requires Valid() && lastToken == ValueString
      modifies this, lexer
      ensures Valid() && r == Unquoted(old(Current().lexeme[1..|Current().lexeme| - 1]))
      ensures r.Success? ==> Current() == Next(old(Current()))
    {
      r := lexer.GetString();
      if r.Success? { GetToken(); }
    }

    method SkipComma()
      requires Valid()
      modifies this, lexer
      ensures Valid() && Current() == AfterComma(old(Current()))
    {
      if lastToken == ValueSeparator { GetToken(); }
    }

    method ExpectColon() returns (ok: bool)
      requires Valid()
      modifies this, lexer
      ensures Valid() && ok == AfterColon(old(Current())).Success?
      ensures ok ==> Current() == AfterColon(old(Current())).value
    {
      ok := lastToken == NameSeparator;
      if ok { GetToken(); }
    }
  }
}
