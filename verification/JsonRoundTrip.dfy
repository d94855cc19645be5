/** Reading back what was written, by induction over values. A statement about the text of a value names the
    text that comes after it, since the lexer sees both at once; what was written for a value reads the same
    whatever that is, unless it goes on with a number. The statements are kept closed where they are only
    passed on, from the last element or member of a container to the first. */
module JsonRoundTrip {
  import opened Collections
  import opened JsonDump
  import opened JsonLexemes
  import opened JsonLexer
  import opened JsonParser
  import opened JsonValue
  import opened Wrappers

  // ---- Values ------------------------------------------------------------------------------------------

  /** The value as it comes back: a number that is not negative has become unsigned. */
  function Canon(v: Json): Json {
    match v
    case Integer(i) => if i < 0 then v else Unsigned(i)
    case Arr(s) => Arr(seq(|s|, i requires 0 <= i < |s| => Canon(s[i])))
    case Obj(m) => Obj(map k | k in m :: Canon(m[k]))
    case _ => v
  }

  lemma {:induction false} CanonIsEqual(v: Json)
    ensures Eq(Canon(v), v)
  {
    match v
    case Arr(s) => forall i | 0 <= i < |s| ensures Eq(Canon(s[i]), s[i]) { CanonIsEqual(s[i]); }
    case Obj(m) => forall k | k in m ensures Eq(Canon(m[k]), m[k]) { CanonIsEqual(m[k]); }
    case _ =>
  }

  predicate StartsValue(kind: Kind) {
    match kind
    case EndArray => false
    case EndObject => false
    case ValueSeparator => false
    case NameSeparator => false
    case EndOfInput => false
    case ParseFailure => false
    case _ => true
  }

  ghost predicate Opened(text: string) { true }

  ghost predicate ValueAt(t: Token, v: Json, x: string) {
    WellFormed(t) && StartsValue(t.kind) && ParseValue(t) == Success((v, Scanned(x)))
  }

  ghost predicate ElementsAt(t: Token, elems: seq<Json>, v: Json, later: bool, x: string) {
    && WellFormed(t) && ParseElements(t, elems) == Success((v, Scanned(x)))
    && if later then t.kind == ValueSeparator else StartsValue(t.kind)
  }

  ghost predicate MembersAt(t: Token, members: map<string, Json>, v: Json, later: bool, x: string) {
    && WellFormed(t) && ParseMembers(t, members) == Success((v, Scanned(x)))
    && t.kind == if later then ValueSeparator else ValueString
  }

  /** The text stands for the value, and leaves what follows it alone. The triggers keep the definitions out
      of proofs that only pass the statements on. */
  ghost predicate Reads(text: string, x: string, v: Json) {
    forall y {:trigger Opened(y)} :: y == x ==> ValueAt(Scanned(text + y), v, y)
  }

  /** After the elements read so far, the text goes on to the end of the array, with a comma first if later. */
  ghost predicate ReadsElements(text: string, x: string, elems: seq<Json>, v: Json, later: bool) {
    forall y {:trigger Opened(y)} :: y == x ==> ElementsAt(Scanned(text), elems, v, later, y)
  }

  ghost predicate ReadsMembers(text: string, x: string, members: map<string, Json>, v: Json, later: bool) {
    forall y {:trigger Opened(y)} :: y == x ==> MembersAt(Scanned(text), members, v, later, y)
  }

  lemma ShowReads(text: string, x: string, v: Json)
    requires ValueAt(Scanned(text + x), v, x)
    ensures Reads(text, x, v)
  {
    forall y | y == x
      ensures ValueAt(Scanned(text + y), v, y)
    {
    }
  }

  lemma WordReads(v: Json, text: string, x: string)
    requires (v == Null && text == "null") || (v == Bool(true) && text == "true") || (v == Bool(false) && text == "false")
    ensures Reads(text, x, v)
  {
    ScanWord(if v == Null then LiteralNull else if v == Bool(true) then LiteralTrue else LiteralFalse, text, x);
    ShowReads(text, x, v);
  }

  lemma NumberReads(i: int, x: string)
    requires -0x8000_0000_0000_0000 <= i < 0x1_0000_0000_0000_0000 && Delimited(x)
    ensures Reads(IntegerText(i), x, if i < 0 then Integer(i) else Unsigned(i))
  {
    ScanInteger(i, x);
    NumberOfText(i);
    ScannedIsWellFormed(IntegerText(i) + x);
    ShowReads(IntegerText(i), x, if i < 0 then Integer(i) else Unsigned(i));
  }

  lemma StringReads(s: string, x: string)
    ensures Reads(QuotedString(s), x, Str(s))
  {
    ScanString(s, x);
    UnquotedEscaped(s);
    ScannedIsWellFormed(QuotedString(s) + x);
    ShowReads(QuotedString(s), x, Str(s));
  }

  lemma EmptyArrayReads(v: Json, x: string)
    requires v == Arr([])
    ensures Reads("[]", x, Canon(v))
  {
    assert "[]" + x == "[" + ("]" + x) && Canon(v).elems == [];
    ScanPunctuation(BeginArray, "]" + x);
    ScanPunctuation(EndArray, x);
    ShowReads("[]", x, Canon(v));
  }

  lemma EmptyObjectReads(v: Json, x: string)
    requires v == Obj(map[])
    ensures Reads("{}", x, Canon(v))
  {
    assert "{}" + x == "{" + ("}" + x) && Canon(v).members == map[];
    ScanPunctuation(BeginObject, "}" + x);
    ScanPunctuation(EndObject, x);
    ShowReads("{}", x, Canon(v));
  }

  /** The comma before an element, if it is not the first, and the white space are skipped. */
  lemma ComesNext(pretty: bool, i: nat, indent: Uint32, y: string)
    requires StartsValue(Scanned(y).kind)
    ensures WellFormed(Scanned(Separator(pretty, i) + (Spaces(indent) + y)))
    ensures AfterComma(Scanned(Separator(pretty, i) + (Spaces(indent) + y))) == Scanned(y)
    ensures i > 0 ==> Scanned(Separator(pretty, i) + (Spaces(indent) + y)).kind == ValueSeparator
    ensures i == 0 ==> Scanned(Separator(pretty, i) + (Spaces(indent) + y)) == Scanned(y)
  {
    var z := Spaces(indent) + y;
    ScannedIsWellFormed(Separator(pretty, i) + z);
    ScanSpaces(indent, y);
    if i == 0 {
      assert "" + z == z;
    } else {
      ScanNewline(pretty, z);
      ScanPunctuation(ValueSeparator, Newline(pretty) + z);
      Associative(",", Newline(pretty), z);
    }
  }

  /** A text that ends an array or an object. */
  ghost predicate Closes(y: string, x: string, kind: Kind) {
    Delimited(y) && Scanned(y) == Token(kind, Punctuation(kind), x)
  }

  lemma EndCloses(pretty: bool, indent: Uint32, kind: Kind, x: string)
    requires kind == EndArray || kind == EndObject
    ensures Closes(Newline(pretty) + Spaces(indent) + Punctuation(kind) + x, x, kind)
  {
    var c, z := Punctuation(kind), Spaces(indent) + (Punctuation(kind) + x);
    assert Newline(pretty) + Spaces(indent) + c + x == Newline(pretty) + z;
    ScanNewline(pretty, z);
    ScanSpaces(indent, c + x);
    ScanPunctuation(kind, x);
    assert (c + x)[0] == c[0];
  }

  /** An element is read, and then what follows decides. */
  lemma ElementStep(t: Token, text: string, y: string, c: Json, elems: seq<Json>)
    requires WellFormed(t) && AfterComma(t) == Scanned(text + y) && Reads(text, y, c)
    ensures WellFormed(Scanned(y)) && ParseElements(t, elems) == AfterElement(Scanned(y), elems + [c])
  {
    assert Opened(y);
  }

  /** The comma and the white space before an element, and the element. */
  lemma ElementComes(pretty: bool, i: nat, indent: Uint32, text: string, y: string, x: string, c: Json,
                     elems: seq<Json>, v: Json)
    requires Reads(text, y, c)
    requires ReadsElements(y, x, elems + [c], v, true) || (Closes(y, x, EndArray) && v == Arr(elems + [c]))
    ensures ReadsElements(Separator(pretty, i) + (Spaces(indent) + (text + y)), x, elems, v, i > 0)
  {
    var all := Separator(pretty, i) + (Spaces(indent) + (text + y));
    assert StartsValue(Scanned(text + y).kind) by { assert Opened(y); }
    ComesNext(pretty, i, indent, text + y);
    ElementStep(Scanned(all), text, y, c, elems);
    assert Opened(x);
  }

  /** Elements from i on, up to the end of the array. */
  lemma {:induction false} ElementsRead(v: Json, s: seq<Json>, i: nat, pretty: bool, step: Uint32, indent: Uint32,
                                        last: string, x: string)
    requires v == Arr(s) && i < |s| && Closes(last + x, x, EndArray)
    ensures var c := Canon(v).elems;
      ReadsElements(DumpedElements(v, s, i, pretty, step, indent) + (last + x), x, c[..i], Canon(v), i > 0)
    decreases v, 0, |s| - i
  {
    var c, text := Canon(v).elems, Dumped(s[i], pretty, step, indent);
    var rest := DumpedElements(v, s, i + 1, pretty, step, indent);
    var y := rest + (last + x);
    Regrouped(Separator(pretty, i), Spaces(indent), text, rest, last + x);
    if i + 1 < |s| {
      ElementsRead(v, s, i + 1, pretty, step, indent, last, x);
      MoreDelimited(Separator(pretty, i + 1), rest, last + x);
    } else {
      assert y == last + x;
    }
    CanonSlices(v, s, i);
    DumpedReads(s[i], pretty, step, indent, y);
    ElementComes(pretty, i, indent, text, y, x, c[i], c[..i], Canon(v));
  }

  lemma CanonSlices(v: Json, s: seq<Json>, i: nat)
    requires v == Arr(s) && i < |s|
    ensures var c := Canon(v).elems;
      && Canon(v) == Arr(c) && |c| == |s| && c[i] == Canon(s[i]) && c[..i] + [c[i]] == c[..i + 1]
      && (i + 1 == |s| ==> c[..i] + [c[i]] == c)
  {
  }

  lemma MoreDelimited(separator: string, rest: string, x: string)
    requires separator != "" && separator[0] == ',' && separator <= rest
    ensures Delimited(rest + x)
  {
  }

  lemma Regrouped(a: string, b: string, c: string, d: string, e: string)
    ensures a + (b + (c + d)) + e == a + (b + (c + (d + e)))
  {
  }

  /** What was written for a value reads as that value, whatever stands after it. */
  lemma {:induction false} DumpedReads(v: Json, pretty: bool, step: Uint32, indent: Uint32, x: string)
    requires Delimited(x)
    ensures Reads(Dumped(v, pretty, step, indent), x, Canon(v))
    decreases v, 1, 0
  {
    match v
    case Null => WordReads(v, "null", x);
    case Bool(b) => WordReads(v, if b then "true" else "false", x);
    case Integer(i) => NumberReads(i, x);
    case Unsigned(u) => NumberReads(u, x);
    case Str(s) => StringReads(s, x);
    case Arr(s) => if s == [] { EmptyArrayReads(v, x); } else { ArrayReads(v, s, pretty, step, indent, x); }
    case Obj(m) => if m == map[] { EmptyObjectReads(v, x); } else { ObjectReads(v, m, pretty, step, indent, x); }
  }

  lemma {:induction false} ArrayReads(v: Json, s: seq<Json>, pretty: bool, step: Uint32, indent: Uint32, x: string)
    requires v == Arr(s) && s != []
    ensures Reads(Dumped(v, pretty, step, indent), x, Canon(v))
    decreases v, 0, |s| + 1
  {
    var inner := Deeper(pretty, step, indent);
    var last := Newline(pretty) + Spaces(indent) + "]";
    var elements := DumpedElements(v, s, 0, pretty, step, inner);
    var y := elements + (last + x);
    EndCloses(pretty, indent, EndArray, x);
    ElementsRead(v, s, 0, pretty, step, inner, last, x);
    Regrouped("[", Newline(pretty), elements, last, x);
    assert Canon(v).elems[..0] == [];
    ArrayOpens(pretty, y, x, Canon(v));
    ShowReads(Dumped(v, pretty, step, indent), x, Canon(v));
  }

  lemma ArrayOpens(pretty: bool, y: string, x: string, v: Json)
    requires ReadsElements(y, x, [], v, false)
    ensures Scanned("[" + (Newline(pretty) + y)).kind == BeginArray && WellFormed(Scanned("[" + (Newline(pretty) + y)))
    ensures ParseValue(Scanned("[" + (Newline(pretty) + y))) == Success((v, Scanned(x)))
  {
    assert Opened(x);
    ScanNewline(pretty, y);
    ScanPunctuation(BeginArray, Newline(pretty) + y);
    ScannedIsWellFormed("[" + (Newline(pretty) + y));
  }

  // ---- Objects -----------------------------------------------------------------------------------------

  lemma SpaceSkipped(pretty: bool, x: string)
    ensures Scanned((if pretty then " " else "") + x) == Scanned(x)
  {
    if pretty { ScanBlank(' ', x); } else { assert "" + x == x; }
  }

  lemma ColonReads(pretty: bool, x: string)
    ensures WellFormed(Scanned(":" + ((if pretty then " " else "") + x)))
    ensures AfterColon(Scanned(":" + ((if pretty then " " else "") + x))) == Success(Scanned(x))
  {
    ScanPunctuation(NameSeparator, (if pretty then " " else "") + x);
    SpaceSkipped(pretty, x);
  }

  lemma KeyedToken(t: Token, k: string, u: Token)
    requires t.kind == ValueString && WellFormed(t) && Unquoted(t.lexeme[1..|t.lexeme| - 1]) == Success(k)
    requires WellFormed(Next(t)) && AfterColon(Next(t)) == Success(u)
    ensures Keyed(t) == Success((k, u))
  {
  }

  lemma KeyReads(pretty: bool, k: string, x: string)
    ensures Scanned(KeyText(pretty, k) + x).kind == ValueString && WellFormed(Scanned(KeyText(pretty, k) + x))
    ensures Keyed(Scanned(KeyText(pretty, k) + x)) == Success((k, Scanned(x)))
  {
    var z := ":" + ((if pretty then " " else "") + x);
    assert KeyText(pretty, k) + x == QuotedString(k) + z;
    ScanString(k, z);
    ScannedIsWellFormed(KeyText(pretty, k) + x);
    UnquotedEscaped(k);
    ColonReads(pretty, x);
    KeyedToken(Scanned(KeyText(pretty, k) + x), k, Scanned(x));
  }

  lemma KeyComes(pretty: bool, i: nat, indent: Uint32, k: string, x: string)
    ensures var t := Scanned(Separator(pretty, i) + (Spaces(indent) + (KeyText(pretty, k) + x)));
      && WellFormed(t) && Keyed(t) == Success((k, Scanned(x)))
      && t.kind == if i > 0 then ValueSeparator else ValueString
  {
    var y := KeyText(pretty, k) + x;
    KeyReads(pretty, k, x);
    ComesNext(pretty, i, indent, y);
  }

  lemma MemberStep(t: Token, k: string, text: string, y: string, c: Json, members: map<string, Json>)
    requires WellFormed(t) && Keyed(t) == Success((k, Scanned(text + y))) && Reads(text, y, c)
    ensures WellFormed(Scanned(y)) && ParseMembers(t, members) == AfterMember(Scanned(y), members[k := c])
  {
    assert Opened(y);
    ScannedIsWellFormed(y);
  }

  lemma MemberParsed(t: Token, k: string, text: string, y: string, x: string, c: Json, members: map<string, Json>, v: Json)
    requires WellFormed(t) && Keyed(t) == Success((k, Scanned(text + y))) && Reads(text, y, c)
    requires ReadsMembers(y, x, members[k := c], v, true) || (Closes(y, x, EndObject) && v == Obj(members[k := c]))
    ensures ParseMembers(t, members) == Success((v, Scanned(x)))
  {
    MemberStep(t, k, text, y, c, members);
    assert Opened(x);
  }

  /** The comma and the white space before a member, its key, and its value. */
  lemma MemberComes(pretty: bool, i: nat, indent: Uint32, k: string, text: string, y: string, x: string, c: Json,
                    members: map<string, Json>, v: Json)
    requires Reads(text, y, c)
    requires ReadsMembers(y, x, members[k := c], v, true) || (Closes(y, x, EndObject) && v == Obj(members[k := c]))
    ensures ReadsMembers(Separator(pretty, i) + (Spaces(indent) + (KeyText(pretty, k) + (text + y))), x, members, v, i > 0)
  {
    var all := Separator(pretty, i) + (Spaces(indent) + (KeyText(pretty, k) + (text + y)));
    KeyComes(pretty, i, indent, k, text + y);
    MemberParsed(Scanned(all), k, text, y, x, c, members, v);
    assert MembersAt(Scanned(all), members, v, i > 0, x);
  }

  /** The first i members, as they come back. */
  function CanonTo(m: map<string, Json>, i: nat): map<string, Json>
    requires i <= |SortedKeys(m.Keys)|
  {
    if i == 0 then map[]
    else
      var k := SortedKeys(m.Keys)[i - 1];
      CanonTo(m, i - 1)[k := Canon(m[k])]
  }

  lemma {:induction false} CanonToHas(m: map<string, Json>, i: nat, k: string)
    requires i <= |SortedKeys(m.Keys)|
    ensures k in CanonTo(m, i) <==> exists j :: 0 <= j < i && SortedKeys(m.Keys)[j] == k
    ensures k in CanonTo(m, i) ==> k in m && CanonTo(m, i)[k] == Canon(m[k])
  {
    if i > 0 {
      CanonToHas(m, i - 1, k);
      assert SortedKeys(m.Keys)[i - 1] == k || (k in CanonTo(m, i) <==> k in CanonTo(m, i - 1));
    }
  }

  lemma CanonToAll(m: map<string, Json>)
    ensures CanonTo(m, |SortedKeys(m.Keys)|) == Canon(Obj(m)).members
  {
    var all, c := CanonTo(m, |SortedKeys(m.Keys)|), Canon(Obj(m)).members;
    forall k
      ensures (k in all <==> k in c) && (k in all ==> all[k] == c[k])
    {
      CanonToHas(m, |SortedKeys(m.Keys)|, k);
      if k in m { var j := PositionOf(m.Keys, k); }
    }
    assert all == c;
  }

  lemma RegroupedMore(a: string, b: string, c: string, d: string, e: string, f: string)
    ensures a + (b + (c + (d + e))) + f == a + (b + (c + (d + (e + f))))
  {
  }

  /** Members from i on, up to the end of the object. */
  lemma {:induction false} MembersRead(v: Json, m: map<string, Json>, i: nat, pretty: bool, step: Uint32, indent: Uint32,
                                       last: string, x: string)
    requires v == Obj(m) && i < |SortedKeys(m.Keys)| && Closes(last + x, x, EndObject)
    ensures ReadsMembers(DumpedMembers(v, m, i, pretty, step, indent) + (last + x), x, CanonTo(m, i),
                         Obj(CanonTo(m, |SortedKeys(m.Keys)|)), i > 0)
    decreases v, 0, |SortedKeys(m.Keys)| - i
  {
    var k, all := SortedKeys(m.Keys)[i], Obj(CanonTo(m, |SortedKeys(m.Keys)|));
    var text, rest := Dumped(m[k], pretty, step, indent), DumpedMembers(v, m, i + 1, pretty, step, indent);
    var y := rest + (last + x);
    RegroupedMore(Separator(pretty, i), Spaces(indent), KeyText(pretty, k), text, rest, last + x);
    if i + 1 < |SortedKeys(m.Keys)| {
      MembersRead(v, m, i + 1, pretty, step, indent, last, x);
      MoreDelimited(Separator(pretty, i + 1), rest, last + x);
    } else {
      assert y == last + x;
    }
    DumpedReads(m[k], pretty, step, indent, y);
    MemberComes(pretty, i, indent, k, text, y, x, Canon(m[k]), CanonTo(m, i), all);
  }

  lemma ObjectOpens(pretty: bool, y: string, x: string, v: Json)
    requires ReadsMembers(y, x, map[], v, false)
    ensures Scanned("{" + (Newline(pretty) + y)).kind == BeginObject && WellFormed(Scanned("{" + (Newline(pretty) + y)))
    ensures ParseValue(Scanned("{" + (Newline(pretty) + y))) == Success((v, Scanned(x)))
  {
    assert Opened(x);
    ScanNewline(pretty, y);
    ScanPunctuation(BeginObject, Newline(pretty) + y);
    ScannedIsWellFormed("{" + (Newline(pretty) + y));
  }

  lemma {:induction false} ObjectReads(v: Json, m: map<string, Json>, pretty: bool, step: Uint32, indent: Uint32, x: string)
    requires v == Obj(m) && m != map[]
    ensures Reads(Dumped(v, pretty, step, indent), x, Canon(v))
    decreases v, 0, |SortedKeys(m.Keys)| + 1
  {
    var inner := Deeper(pretty, step, indent);
    var last := Newline(pretty) + Spaces(indent) + "}";
    var members := DumpedMembers(v, m, 0, pretty, step, inner);
    var y := members + (last + x);
    EndCloses(pretty, indent, EndObject, x);
    SomeKey(m);
    MembersRead(v, m, 0, pretty, step, inner, last, x);
    CanonToAll(m);
    Regrouped("{", Newline(pretty), members, last, x);
    ObjectOpens(pretty, y, x, Canon(v));
    ShowReads(Dumped(v, pretty, step, indent), x, Canon(v));
  }

  lemma SomeKey(m: map<string, Json>)
    requires m != map[]
    ensures SortedKeys(m.Keys) != []
  {
    assert m.Keys != {};
  }

  // ---- The theorem -------------------------------------------------------------------------------------

  /** In compact form and at every indentation, the text of a value parses, to an equal value. */
  lemma ParseUndoesDump(v: Json, indent: Int32)
    ensures ParseText(Text(v, indent)) == Success(Canon(v)) && Eq(Canon(v), v) && Signed(Canon(v)) == Signed(v)
  {
    CanonIsEqual(v);
    EqIsSigned(Canon(v), v);
    if indent >= 0 {
      DumpedReads(v, true, indent, 0, "");
      WholeReads(Text(v, indent), Canon(v));
    } else {
      DumpedReads(v, false, 0, 0, "");
      WholeReads(Text(v, indent), Canon(v));
    }
  }

  lemma WholeReads(text: string, v: Json)
    requires Reads(text, "", v)
    ensures ParseText(text) == Success(v)
  {
    assert Opened("");
    assert text + "" == text;
  }
}
