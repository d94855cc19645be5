/** What printed text looks like. Compact text is that of the parts with commas between them; indented text is
    the compact one with line breaks and blanks put in by a rule that knows nothing about values: it goes over
    the characters, keeps string literals, and indents each line by its depth. */
module JsonLayout {
  import opened Collections
  import opened Decimal
  import opened JsonDump
  import opened JsonValue

  // ---- Compact text ------------------------------------------------------------------------------------

  /** The texts of values that are not containers. */
  lemma CompactPrimitives(i: int, u: Uint64, s: string)
    requires -0x8000_0000_0000_0000 <= i < 0x8000_0000_0000_0000
    ensures Compact(Null) == "null" && Compact(Bool(true)) == "true" && Compact(Bool(false)) == "false"
    ensures Compact(Unsigned(u)) == ToDigits(u)
    ensures Compact(Integer(i)) == if i < 0 then "-" + ToDigits(-i) else ToDigits(i)
    ensures Compact(Str(s)) == "\"" + EscapedString(s) + "\""
  {
  }

  lemma EscapedOne(c: char)
    ensures EscapedString([c]) == EscapedChar(c)
  {
    assert [c][1..] == "";
    assert Expand(EscapedChar, [c]) == EscapedChar(c) + "";
  }

  /** How characters are printed inside quotes, by examples: the short escapes, lower-case hexadecimal digits, and what
      is left as it is. */
  lemma EscapedExamples()
    ensures EscapedString("\"") == "\\\"" && EscapedString("\\") == "\\\\"
    ensures EscapedString(['\U{08}']) == "\\b" && EscapedString(['\U{0C}']) == "\\f"
    ensures EscapedString("\n") == "\\n" && EscapedString("\r") == "\\r" && EscapedString("\t") == "\\t"
    ensures EscapedString(['\U{01}']) == "\\u0001" && EscapedString(['\U{1F}']) == "\\u001f"
    ensures EscapedString("/") == "/" && EscapedString(" ") == " " && EscapedString(['\U{7F}']) == ['\U{7F}']
  {
    EscapedOne('"');
    EscapedOne('\\');
    EscapedOne('\U{08}');
    EscapedOne('\U{0C}');
    EscapedOne('\n');
    EscapedOne('\r');
    EscapedOne('\t');
    EscapedOne('\U{01}');
    EscapedOne('\U{1F}');
    EscapedOne('/');
    EscapedOne(' ');
    EscapedOne('\U{7F}');
  }

  function Joined(parts: seq<string>): string {
    if parts == [] then "" else if |parts| == 1 then parts[0] else parts[0] + "," + Joined(parts[1..])
  }

  function Compact(v: Json): string { Dumped(v, false, 0, 0) }

  /** The texts of the elements from i on. */
  function ElementTexts(s: seq<Json>, i: nat): seq<string>
    requires i <= |s|
  {
    seq(|s| - i, j requires 0 <= j < |s| - i => Compact(s[i + j]))
  }

  lemma JoinedMore(part: string, parts: seq<string>)
    ensures Joined([part] + parts) == part + if parts == [] then "" else "," + Joined(parts)
  {
    assert ([part] + parts)[1..] == parts;
    assert part + "" == part;
  }

  lemma ElementsStep(v: Json, s: seq<Json>, i: nat)
    requires v == Arr(s) && i < |s|
    ensures DumpedElements(v, s, i, false, 0, 0)
         == (if i == 0 then "" else ",") + (Compact(s[i]) + DumpedElements(v, s, i + 1, false, 0, 0))
  {
    assert Spaces(0) == "";
    Nothing(Compact(s[i]) + DumpedElements(v, s, i + 1, false, 0, 0));
  }

  lemma Nothing(s: string)
    ensures "" + s == s == s + ""
  {
  }

  lemma {:induction false} ElementsJoined(v: Json, s: seq<Json>, i: nat)
    requires v == Arr(s) && i < |s|
    ensures DumpedElements(v, s, i, false, 0, 0) == (if i == 0 then "" else ",") + Joined(ElementTexts(s, i))
    decreases |s| - i
  {
    assert ElementTexts(s, i) == [Compact(s[i])] + ElementTexts(s, i + 1);
    JoinedMore(Compact(s[i]), ElementTexts(s, i + 1));
    ElementsStep(v, s, i);
    if i + 1 < |s| { ElementsJoined(v, s, i + 1); }
  }

  /** The compact text of an array. */
  lemma CompactArray(s: seq<Json>)
    ensures Compact(Arr(s)) == "[" + Joined(seq(|s|, j requires 0 <= j < |s| => Compact(s[j]))) + "]"
  {
    var texts := seq(|s|, j requires 0 <= j < |s| => Compact(s[j]));
    if s != [] {
      ElementsJoined(Arr(s), s, 0);
      assert ElementTexts(s, 0) == texts;
      assert Spaces(0) == "";
    }
  }

  /** A member: the key in quotes, a colon, and the value. */
  function MemberText(m: map<string, Json>, k: string): string
    requires k in m
  {
    "\"" + EscapedString(k) + "\":" + Compact(m[k])
  }

  function MemberTexts(m: map<string, Json>, i: nat): seq<string>
    requires i <= |SortedKeys(m.Keys)|
  {
    var keys := SortedKeys(m.Keys);
    seq(|keys| - i, j requires 0 <= j < |keys| - i => MemberText(m, keys[i + j]))
  }

  lemma {:induction false} MembersJoined(v: Json, m: map<string, Json>, i: nat)
    requires v == Obj(m) && i < |SortedKeys(m.Keys)|
    ensures DumpedMembers(v, m, i, false, 0, 0) == (if i == 0 then "" else ",") + Joined(MemberTexts(m, i))
    decreases |SortedKeys(m.Keys)| - i
  {
    MemberTextsStep(m, i);
    JoinedMore(MemberText(m, SortedKeys(m.Keys)[i]), MemberTexts(m, i + 1));
    MembersStep(v, m, i);
    if i + 1 < |SortedKeys(m.Keys)| { MembersJoined(v, m, i + 1); }
  }

  lemma MemberTextsStep(m: map<string, Json>, i: nat)
    requires i < |SortedKeys(m.Keys)|
    ensures MemberTexts(m, i) == [MemberText(m, SortedKeys(m.Keys)[i])] + MemberTexts(m, i + 1)
    ensures i + 1 == |SortedKeys(m.Keys)| ==> MemberTexts(m, i + 1) == []
  {
  }

  lemma MembersStep(v: Json, m: map<string, Json>, i: nat)
    requires v == Obj(m) && i < |SortedKeys(m.Keys)|
    ensures DumpedMembers(v, m, i, false, 0, 0)
         == (if i == 0 then "" else ",") + (MemberText(m, SortedKeys(m.Keys)[i]) + DumpedMembers(v, m, i + 1, false, 0, 0))
  {
    var k, rest := SortedKeys(m.Keys)[i], DumpedMembers(v, m, i + 1, false, 0, 0);
    assert Spaces(0) == "";
    MemberApart(if i == 0 then "" else ",", EscapedString(k), Compact(m[k]), rest);
    Nothing(",");
  }

  lemma MemberApart(separator: string, e: string, text: string, rest: string)
    ensures separator + ("" + (("\"" + e + "\":" + "") + (text + rest))) == separator + (("\"" + e + "\":" + text) + rest)
  {
  }

  /** The compact text of an object: its members in the order of their keys. */
  lemma CompactObject(m: map<string, Json>)
    ensures Compact(Obj(m)) == "{" + Joined(MemberTexts(m, 0)) + "}"
  {
    if m == map[] {
      assert MemberTexts(m, 0) == [];
    } else {
      assert m.Keys != {};
      MembersJoined(Obj(m), m, 0);
      Nothing(Joined(MemberTexts(m, 0)));
      CompactText("{", DumpedMembers(Obj(m), m, 0, false, 0, 0), "}");
    }
  }

  // ---- Indented text -----------------------------------------------------------------------------------

  /** How much comes before the closing quote of a string literal: a backslash takes the character after it along. */
  function BodyEnd(s: string): (n: nat)
    ensures n <= |s|
  {
    if s == "" || s[0] == '"' then 0
    else if s[0] == '\\' && |s| >= 2 then 2 + BodyEnd(s[2..])
    else 1 + BodyEnd(s[1..])
  }

  function LiteralEnd(s: string): (n: nat)
    requires s != ""
    ensures 0 < n <= |s|
  {
    var n := BodyEnd(s[1..]) + 2;
    if n <= |s| then n else |s|
  }

  predicate Opening(c: char) { c == '[' || c == '{' }

  predicate Closing(c: char) { c == ']' || c == '}' }

  function In(step: Uint32, indent: Uint32): Uint32 { (indent + step) % 0x1_0000_0000 }

  function Out(step: Uint32, indent: Uint32): Uint32 { (indent - step) % 0x1_0000_0000 }

  /** The compact text t laid out. The widths wrap around as unsigned integers do. */
  function Indented(t: string, step: Uint32, indent: Uint32): string {
    if t == "" then ""
    else if t[0] == '"' then t[..LiteralEnd(t)] + Indented(t[LiteralEnd(t)..], step, indent)
    else if Opening(t[0]) && |t| >= 2 && Closing(t[1]) then t[..2] + Indented(t[2..], step, indent)
    else if Opening(t[0]) then
      [t[0]] + ("\n" + (Spaces(In(step, indent)) + Indented(t[1..], step, In(step, indent))))
    else if Closing(t[0]) then
      "\n" + Spaces(Out(step, indent)) + ([t[0]] + Indented(t[1..], step, Out(step, indent)))
    else if t[0] == ',' then ",\n" + (Spaces(indent) + Indented(t[1..], step, indent))
    else if t[0] == ':' then ": " + Indented(t[1..], step, indent)
    else [t[0]] + Indented(t[1..], step, indent)
  }

  lemma OutOfIn(step: Uint32, indent: Uint32)
    ensures Out(step, In(step, indent)) == indent
  {
    if indent + step < 0x1_0000_0000 {
      assert In(step, indent) == indent + step;
    } else {
      assert In(step, indent) == indent + step - 0x1_0000_0000;
    }
  }

  predicate Ordinary(c: char) { c != '"' && !Opening(c) && !Closing(c) && c != ',' && c != ':' }

  lemma {:induction false} OrdinaryStays(w: string, x: string, step: Uint32, indent: Uint32)
    requires forall i :: 0 <= i < |w| ==> Ordinary(w[i])
    ensures Indented(w + x, step, indent) == w + Indented(x, step, indent)
  {
    if w == "" {
      assert w + x == x;
    } else {
      OrdinaryStays(w[1..], x, step, indent);
      assert (w + x)[1..] == w[1..] + x && [w[0]] + w[1..] == w;
      Associative([w[0]], w[1..], Indented(x, step, indent));
    }
  }

  lemma {:induction false} BodyEndEscaped(s: string, x: string)
    ensures BodyEnd(EscapedString(s) + ("\"" + x)) == |EscapedString(s)|
  {
    var q := "\"" + x;
    if s == "" {
      assert EscapedString(s) + q == q;
    } else {
      var e, r := EscapedChar(s[0]), EscapedString(s[1..]);
      BodyEndEscaped(s[1..], x);
      CharPasses(s[0], r + q);
      Associative(e, r, q);
    }
  }

  lemma CharPasses(c: char, y: string)
    ensures BodyEnd(EscapedChar(c) + y) == |EscapedChar(c)| + BodyEnd(y)
  {
    var e := EscapedChar(c);
    if |e| == 1 {
      PlainPasses(c, y);
    } else if |e| == 2 {
      assert (e + y)[2..] == y;
    } else {
      var h, l := Hexify(c as nat / 16), Hexify(c as nat % 16);
      HexIsOrdinary(c as nat / 16);
      HexIsOrdinary(c as nat % 16);
      PlainPasses(l, y);
      PlainPasses(h, [l] + y);
      PlainPasses('0', [h] + ([l] + y));
      PlainPasses('0', ['0'] + ([h] + ([l] + y)));
      assert (e + y)[2..] == ['0'] + (['0'] + ([h] + ([l] + y)));
    }
  }

  lemma PlainPasses(c: char, y: string)
    requires c != '"' && c != '\\'
    ensures BodyEnd([c] + y) == 1 + BodyEnd(y)
  {
    assert ([c] + y)[1..] == y;
  }

  lemma HexIsOrdinary(v: nat)
    requires v < 16
    ensures Ordinary(Hexify(v)) && Hexify(v) != '\\'
  {
  }

  lemma LiteralStays(s: string, x: string, step: Uint32, indent: Uint32)
    ensures Indented("\"" + EscapedString(s) + "\"" + x, step, indent)
         == "\"" + EscapedString(s) + "\"" + Indented(x, step, indent)
  {
    var e := EscapedString(s);
    var q := "\"" + e + "\"";
    var t := q + x;
    BodyEndEscaped(s, x);
    assert t[1..] == e + ("\"" + x);
    assert LiteralEnd(t) == |q| && t[..|q|] == q && t[|q|..] == x;
  }

  lemma NumberStays(n: int, x: string, step: Uint32, indent: Uint32)
    ensures Indented(IntegerText(n) + x, step, indent) == IntegerText(n) + Indented(x, step, indent)
  {
    OrdinaryStays(IntegerText(n), x, step, indent);
  }

  // ---- The theorem -------------------------------------------------------------------------------------

  /** The first character of a compact text is not one that closes. */
  lemma StartsOpen(v: Json)
    ensures Compact(v) != "" && !Closing(Compact(v)[0])
  {
  }

  lemma Opens(c: char, t: string, step: Uint32, indent: Uint32)
    requires Opening(c) && t != "" && !Closing(t[0])
    ensures Indented([c] + t, step, indent)
         == [c] + ("\n" + (Spaces(In(step, indent)) + Indented(t, step, In(step, indent))))
  {
    assert ([c] + t)[1..] == t && ([c] + t)[1] == t[0];
  }

  lemma Closes(c: char, t: string, step: Uint32, indent: Uint32)
    requires Closing(c)
    ensures Indented([c] + t, step, In(step, indent)) == "\n" + Spaces(indent) + ([c] + Indented(t, step, indent))
  {
    OutOfIn(step, indent);
    assert ([c] + t)[1..] == t;
  }

  lemma Separates(t: string, step: Uint32, indent: Uint32)
    ensures Indented("," + t, step, indent) == ",\n" + (Spaces(indent) + Indented(t, step, indent))
    ensures Indented(":" + t, step, indent) == ": " + Indented(t, step, indent)
  {
    assert ("," + t)[1..] == t && (":" + t)[1..] == t;
  }

  /** Laying out the compact text of a value gives its indented text, whatever comes after it. */
  lemma {:induction false} ValueIndented(v: Json, step: Uint32, indent: Uint32, x: string)
    ensures Indented(Compact(v) + x, step, indent) == Dumped(v, true, step, indent) + Indented(x, step, indent)
    decreases v, 1, 0
  {
    match v
    case Null => OrdinaryStays("null", x, step, indent);
    case Bool(b) => OrdinaryStays(if b then "true" else "false", x, step, indent);
    case Integer(i) => NumberStays(i, x, step, indent);
    case Unsigned(u) => NumberStays(u, x, step, indent);
    case Str(s) => LiteralStays(s, x, step, indent);
    case Arr(s) =>
      if s == [] { EmptyStays('[', ']', x, step, indent); } else { ArrayIndented(v, s, step, indent, x); }
    case Obj(m) =>
      if m == map[] { EmptyStays('{', '}', x, step, indent); } else { ObjectIndented(v, m, step, indent, x); }
  }

  lemma EmptyStays(a: char, b: char, x: string, step: Uint32, indent: Uint32)
    requires Opening(a) && Closing(b)
    ensures Indented([a, b] + x, step, indent) == [a, b] + Indented(x, step, indent)
  {
    var t := [a, b] + x;
    assert t[2..] == x && t[..2] == [a, b];
  }

  /** A container whose parts are laid out right is. */
  lemma ContainerIndented(a: char, first: string, rest: string, b: char, text: string, more: string,
                          step: Uint32, indent: Uint32, x: string)
    requires Opening(a) && Closing(b) && first != "" && !Closing(first[0])
    requires Indented(first + (rest + ([b] + x)), step, In(step, indent))
          == text + (more + Indented([b] + x, step, In(step, indent)))
    ensures Indented([a] + (first + rest) + [b] + x, step, indent)
         == [a] + ("\n" + (Spaces(In(step, indent)) + (text + more) + ("\n" + Spaces(indent) + [b])))
            + Indented(x, step, indent)
  {
    Apart([a], first, rest, [b], x);
    Opens(a, first + (rest + ([b] + x)), step, indent);
    Closes(b, x, step, indent);
    Laid([a], Spaces(In(step, indent)), text, more, "\n" + Spaces(indent), [b], Indented(x, step, indent));
  }

  lemma Apart(a: string, first: string, rest: string, b: string, x: string)
    ensures a + (first + rest) + b + x == a + (first + (rest + (b + x)))
  {
  }

  lemma Laid(a: string, i: string, text: string, more: string, n: string, b: string, x: string)
    ensures a + ("\n" + (i + (text + (more + (n + (b + x)))))) == a + ("\n" + (i + (text + more) + (n + b))) + x
  {
  }

  lemma ArrayTexts(v: Json, s: seq<Json>, step: Uint32, indent: Uint32)
    requires v == Arr(s) && s != []
    ensures Compact(v) == "[" + (Compact(s[0]) + DumpedElements(v, s, 1, false, 0, 0)) + "]"
    ensures Dumped(v, true, step, indent)
         == "[" + ("\n" + (Spaces(In(step, indent))
            + (Dumped(s[0], true, step, In(step, indent)) + DumpedElements(v, s, 1, true, step, In(step, indent)))
            + ("\n" + Spaces(indent) + "]")))
  {
    ElementsStep(v, s, 0);
    PrettyElementsStep(v, s, 0, step, In(step, indent));
    CompactText("[", Compact(s[0]) + DumpedElements(v, s, 1, false, 0, 0), "]");
    var part := Spaces(In(step, indent))
              + (Dumped(s[0], true, step, In(step, indent)) + DumpedElements(v, s, 1, true, step, In(step, indent)));
    Nothing(part);
  }

  lemma CompactText(a: string, parts: string, b: string)
    ensures a + ("" + ("" + parts + ("" + Spaces(0) + b))) == a + parts + b
    ensures a + ("" + (parts + ("" + Spaces(0) + b))) == a + parts + b
  {
    assert Spaces(0) == "";
    assert "" + (parts + ("" + "" + b)) == parts + b;
    Nothing(parts);
    Associative(a, parts, b);
  }

  lemma PrettyElementsStep(v: Json, s: seq<Json>, i: nat, step: Uint32, indent: Uint32)
    requires v == Arr(s) && i < |s|
    ensures DumpedElements(v, s, i, true, step, indent)
         == (if i == 0 then "" else ",\n")
            + (Spaces(indent) + (Dumped(s[i], true, step, indent) + DumpedElements(v, s, i + 1, true, step, indent)))
  {
  }

  lemma {:induction false} ArrayIndented(v: Json, s: seq<Json>, step: Uint32, indent: Uint32, x: string)
    requires v == Arr(s) && s != []
    ensures Indented(Compact(v) + x, step, indent) == Dumped(v, true, step, indent) + Indented(x, step, indent)
    decreases v, 0, |s| + 1
  {
    var inner := In(step, indent);
    ArrayTexts(v, s, step, indent);
    StartsOpen(s[0]);
    ElementsIndented(v, s, 0, step, inner, "]" + x);
    ContainerIndented('[', Compact(s[0]), DumpedElements(v, s, 1, false, 0, 0), ']', Dumped(s[0], true, step, inner),
                      DumpedElements(v, s, 1, true, step, inner), step, indent, x);
  }

  /** A part, and what follows it. */
  lemma NextIndented(next: string, far: string, text: string, more: string, step: Uint32, indent: Uint32, y: string)
    requires Indented(next + (far + y), step, indent) == text + (more + Indented(y, step, indent))
    ensures Indented("," + (next + far) + y, step, indent)
         == ",\n" + (Spaces(indent) + (text + more)) + Indented(y, step, indent)
  {
    Associative3(",", next, far, y);
    Separates(next + (far + y), step, indent);
    Associative4(",\n", Spaces(indent), text, more, Indented(y, step, indent));
  }

  /** The elements from i on, without what stands before the first of them. */
  lemma {:induction false} ElementsIndented(v: Json, s: seq<Json>, i: nat, step: Uint32, indent: Uint32, y: string)
    requires v == Arr(s) && i < |s|
    ensures Indented(Compact(s[i]) + (DumpedElements(v, s, i + 1, false, 0, 0) + y), step, indent)
         == Dumped(s[i], true, step, indent) + (DumpedElements(v, s, i + 1, true, step, indent) + Indented(y, step, indent))
    decreases v, 0, |s| - i
  {
    ValueIndented(s[i], step, indent, DumpedElements(v, s, i + 1, false, 0, 0) + y);
    if i + 1 < |s| {
      ElementsStep(v, s, i + 1);
      PrettyElementsStep(v, s, i + 1, step, indent);
      ElementsIndented(v, s, i + 1, step, indent, y);
      NextIndented(Compact(s[i + 1]), DumpedElements(v, s, i + 2, false, 0, 0), Dumped(s[i + 1], true, step, indent),
                   DumpedElements(v, s, i + 2, true, step, indent), step, indent, y);
    } else {
      NoMoreElements(v, s, step, indent);
      Nothing(y);
      Nothing(Indented(y, step, indent));
    }
  }

  lemma NoMoreElements(v: Json, s: seq<Json>, step: Uint32, indent: Uint32)
    requires v == Arr(s)
    ensures DumpedElements(v, s, |s|, false, 0, 0) == "" == DumpedElements(v, s, |s|, true, step, indent)
  {
  }

  lemma Associative3(a: string, b: string, c: string, d: string)
    ensures a + (b + c) + d == a + (b + (c + d))
  {
  }

  lemma Associative4(a: string, b: string, c: string, d: string, e: string)
    ensures a + (b + (c + d)) + e == a + (b + (c + (d + e)))
  {
  }

  lemma ObjectTexts(v: Json, m: map<string, Json>, step: Uint32, indent: Uint32)
    requires v == Obj(m) && m != map[]
    ensures SortedKeys(m.Keys) != []
    ensures var k := SortedKeys(m.Keys)[0];
      && Compact(v) == "{" + (MemberText(m, k) + DumpedMembers(v, m, 1, false, 0, 0)) + "}"
      && Dumped(v, true, step, indent)
         == "{" + ("\n" + (Spaces(In(step, indent))
            + (PrettyMember(m, k, step, In(step, indent)) + DumpedMembers(v, m, 1, true, step, In(step, indent)))
            + ("\n" + Spaces(indent) + "}")))
  {
    assert m.Keys != {};
    var k := SortedKeys(m.Keys)[0];
    MembersStep(v, m, 0);
    PrettyStep(v, m, 0, step, In(step, indent));
    CompactText("{", MemberText(m, k) + DumpedMembers(v, m, 1, false, 0, 0), "}");
    var part := Spaces(In(step, indent))
              + (PrettyMember(m, k, step, In(step, indent)) + DumpedMembers(v, m, 1, true, step, In(step, indent)));
    Nothing(part);
    Nothing(MemberText(m, k) + DumpedMembers(v, m, 1, false, 0, 0));
  }

  lemma {:induction false} ObjectIndented(v: Json, m: map<string, Json>, step: Uint32, indent: Uint32, x: string)
    requires v == Obj(m) && m != map[]
    ensures Indented(Compact(v) + x, step, indent) == Dumped(v, true, step, indent) + Indented(x, step, indent)
    decreases v, 0, |SortedKeys(m.Keys)| + 1
  {
    var inner := In(step, indent);
    ObjectTexts(v, m, step, indent);
    var k := SortedKeys(m.Keys)[0];
    MembersIndented(v, m, 0, step, inner, "}" + x);
    ContainerIndented('{', MemberText(m, k), DumpedMembers(v, m, 1, false, 0, 0), '}', PrettyMember(m, k, step, inner),
                      DumpedMembers(v, m, 1, true, step, inner), step, indent, x);
  }

  function PrettyMember(m: map<string, Json>, k: string, step: Uint32, indent: Uint32): string
    requires k in m
  {
    KeyText(true, k) + Dumped(m[k], true, step, indent)
  }

  lemma PrettyStep(v: Json, m: map<string, Json>, i: nat, step: Uint32, indent: Uint32)
    requires v == Obj(m) && i < |SortedKeys(m.Keys)|
    ensures DumpedMembers(v, m, i, true, step, indent)
         == (if i == 0 then "" else ",\n") + (Spaces(indent) + (PrettyMember(m, SortedKeys(m.Keys)[i], step, indent)
            + DumpedMembers(v, m, i + 1, true, step, indent)))
  {
    var k := SortedKeys(m.Keys)[i];
    Associative(KeyText(true, k), Dumped(m[k], true, step, indent), DumpedMembers(v, m, i + 1, true, step, indent));
  }

  lemma {:induction false} MemberIndented(m: map<string, Json>, k: string, step: Uint32, indent: Uint32, x: string)
    requires k in m
    ensures Indented(MemberText(m, k) + x, step, indent) == PrettyMember(m, k, step, indent) + Indented(x, step, indent)
    decreases m[k], 2, 0
  {
    var e, z := EscapedString(k), Compact(m[k]) + x;
    KeyApart(e, Compact(m[k]), x);
    LiteralStays(k, ":" + z, step, indent);
    Separates(z, step, indent);
    ValueIndented(m[k], step, indent, x);
    KeyTogether(e, Dumped(m[k], true, step, indent), Indented(x, step, indent));
  }

  lemma KeyApart(e: string, text: string, x: string)
    ensures "\"" + e + "\":" + text + x == "\"" + e + "\"" + (":" + (text + x))
  {
  }

  lemma KeyTogether(e: string, text: string, x: string)
    ensures "\"" + e + "\"" + (": " + (text + x)) == ("\"" + e + "\":" + " ") + text + x
  {
  }

  lemma {:induction false} MembersIndented(v: Json, m: map<string, Json>, i: nat, step: Uint32, indent: Uint32, y: string)
    requires v == Obj(m) && i < |SortedKeys(m.Keys)|
    ensures var k := SortedKeys(m.Keys)[i];
      Indented(MemberText(m, k) + (DumpedMembers(v, m, i + 1, false, 0, 0) + y), step, indent)
      == PrettyMember(m, k, step, indent) + (DumpedMembers(v, m, i + 1, true, step, indent) + Indented(y, step, indent))
    decreases v, 0, |SortedKeys(m.Keys)| - i
  {
    var rest := DumpedMembers(v, m, i + 1, false, 0, 0);
    MemberIndented(m, SortedKeys(m.Keys)[i], step, indent, rest + y);
    if i + 1 < |SortedKeys(m.Keys)| {
      var l := SortedKeys(m.Keys)[i + 1];
      MembersStep(v, m, i + 1);
      PrettyStep(v, m, i + 1, step, indent);
      MembersIndented(v, m, i + 1, step, indent, y);
      NextIndented(MemberText(m, l), DumpedMembers(v, m, i + 2, false, 0, 0), PrettyMember(m, l, step, indent),
                   DumpedMembers(v, m, i + 2, true, step, indent), step, indent, y);
    } else {
      Nothing(y);
      Nothing(Indented(y, step, indent));
    }
  }

  /** What lines are indented with. */
  lemma SpacesAreBlanks(n: nat)
    ensures |Spaces(n)| == n && forall i :: 0 <= i < n ==> Spaces(n)[i] == ' '
  {
  }

  /** The printed text at an indentation is the compact text, laid out. */
  lemma PrettyIsIndented(v: Json, indent: Int32)
    requires indent >= 0
    ensures Text(v, indent) == Indented(Text(v, -1), indent, 0)
  {
    ValueIndented(v, indent, 0, "");
    Nothing(Compact(v));
    Nothing(Text(v, indent));
  }
}
