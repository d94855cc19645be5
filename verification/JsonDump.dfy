/** Writing values as text. */
module JsonDump {
  import opened Collections
  import opened Decimal
  import opened JsonValue

  // ---- Strings -----------------------------------------------------------------------------------------

  function Hexify(v: nat): char
    requires v < 16
  {
    if v < 10 then '0' + v as char else 'a' + (v - 10) as char
  }

  /** The letter that stands for the character after a backslash, and a space if there is none. */
  function ShortEscape(c: char): char {
    match c
    case '"' => '"'
    case '\\' => '\\'
    case '\U{08}' => 'b'
    case '\U{0C}' => 'f'
    case '\n' => 'n'
    case '\r' => 'r'
    case '\t' => 't'
    case _ => ' '
  }

  /** How one character appears inside quotes. */
  function EscapedChar(c: char): (r: string)
    ensures |r| == if ShortEscape(c) != ' ' then 2 else if c < ' ' then 6 else 1
  {
    if ShortEscape(c) != ' ' then ['\\', ShortEscape(c)]
    else if c < ' ' then ['\\', 'u', '0', '0', Hexify(c as nat / 16), Hexify(c as nat % 16)]
    else [c]
  }

  function EscapedString(s: string): (r: string) { Expand(EscapedChar, s) }

  function Expand(f: char -> string, s: string): string {
    if s == "" then "" else f(s[0]) + Expand(f, s[1..])
  }

  lemma {:induction false} ExpandConcat(f: char -> string, s: string, t: string)
    ensures Expand(f, s + t) == Expand(f, s) + Expand(f, t)
  {
    if s == "" {
      assert s + t == t;
    } else {
      ExpandConcat(f, s[1..], t);
      assert (s + t)[0] == s[0] && (s + t)[1..] == s[1..] + t;
      Associative(f(s[0]), Expand(f, s[1..]), Expand(f, t));
    }
  }

  lemma EscapedSnoc(s: string, i: nat)
    requires i < |s|
    ensures EscapedString(s[..i + 1]) == EscapedString(s[..i]) + EscapedChar(s[i])
  {
    assert s[..i + 1] == s[..i] + [s[i]] && [s[i]][1..] == "";
    ExpandConcat(EscapedChar, s[..i], [s[i]]);
    assert Expand(EscapedChar, [s[i]]) == EscapedChar(s[i]) + "";
  }

  /** How much longer the escaped string is. */
  method ExtraSpace(s: string) returns (result: nat)
    ensures |EscapedString(s)| == |s| + result
  {
    result := 0;
    for i := 0 to |s|
      invariant |EscapedString(s[..i])| == i + result
    {
      EscapedSnoc(s, i);
      if ShortEscape(s[i]) != ' ' {
        result := result + 1;
      } else if s[i] < ' ' {
        result := result + 5;
      }
    }
    assert s[..|s|] == s;
  }

  lemma {:induction false} NothingToEscape(s: string)
    requires |EscapedString(s)| <= |s|
    ensures EscapedString(s) == s
  {
    if s != "" {
      EscapedNotShorter(s[1..]);
      NothingToEscape(s[1..]);
    }
  }

  lemma {:induction false} EscapedNotShorter(s: string)
    ensures |EscapedString(s)| >= |s|
  {
    if s != "" { EscapedNotShorter(s[1..]); }
  }

  /** The result starts out full of backslashes, and only what follows each of them is written. */
  method EscapeString(s: string) returns (r: string)
    ensures r == EscapedString(s)
  {
    var space := ExtraSpace(s);
    if space == 0 {
      NothingToEscape(s);
      return s;
    }
    var result := new char[|s| + space](_ => '\\');
    var pos := 0;
    for i := 0 to |s|
      invariant pos == |EscapedString(s[..i])| <= result.Length && result[..pos] == EscapedString(s[..i])
      invariant forall j :: pos <= j < result.Length ==> result[j] == '\\'
    {
      EscapedSnoc(s, i);
      EscapedPrefix(s, i + 1);
      pos := WriteEscaped(result, pos, s[i]);
    }
    assert s[..|s|] == s && result[..] == result[..pos];
    return result[..];
  }

  lemma EscapedPrefix(s: string, n: nat)
    requires n <= |s|
    ensures |EscapedString(s[..n])| <= |EscapedString(s)|
  {
    assert s == s[..n] + s[n..];
    ExpandConcat(EscapedChar, s[..n], s[n..]);
  }

  method WriteEscaped(result: array<char>, pos: nat, c: char) returns (end: nat)
    requires pos + |EscapedChar(c)| <= result.Length
    requires forall j :: pos <= j < result.Length ==> result[j] == '\\'
    modifies result
    ensures end == pos + |EscapedChar(c)| && result[..end] == old(result[..pos]) + EscapedChar(c)
    ensures forall j :: end <= j < result.Length ==> result[j] == '\\'
  {
    end := pos;
    if ShortEscape(c) != ' ' {
      if c != '\\' { result[end + 1] := ShortEscape(c); }
      end := end + 2;
    } else if c < ' ' {
      result[end + 1], result[end + 2], result[end + 3] := 'u', '0', '0';
      result[end + 4], result[end + 5] := Hexify(c as nat / 16), Hexify(c as nat % 16);
      end := end + 6;
    } else {
      result[end] := c;
      end := end + 1;
    }
    assert result[..end] == result[..pos] + result[pos..end];
    assert result[pos..end] == EscapedChar(c);
  }

  // ---- Values ------------------------------------------------------------------------------------------

  function Spaces(n: nat): string { seq(n, _ => ' ') }

  /** The text of a number. */
  function IntegerText(i: int): string {
    if i < 0 then "-" + ToDigits(-i) else ToDigits(i)
  }

  type Uint32 = x: int | 0 <= x < 0x1_0000_0000

  /** The indentation is an unsigned int and wraps around. */
  function Deeper(pretty: bool, step: Uint32, indent: Uint32): Uint32 {
    if pretty then (indent + step) % 0x1_0000_0000 else indent
  }

  function Newline(pretty: bool): string { if pretty then "\n" else "" }

  function KeyText(pretty: bool, k: string): string {
    "\"" + EscapedString(k) + "\":" + if pretty then " " else ""
  }

  function Dumped(v: Json, pretty: bool, step: Uint32, indent: Uint32): string
    decreases v, 1, 0
  {
    match v
    case Null => "null"
    case Bool(b) => if b then "true" else "false"
    case Integer(i) => IntegerText(i)
    case Unsigned(u) => IntegerText(u)
    case Str(s) => "\"" + EscapedString(s) + "\""
    case Arr(s) =>
      if s == [] then "[]"
      else
        "[" + (Newline(pretty) + (DumpedElements(v, s, 0, pretty, step, Deeper(pretty, step, indent))
        + (Newline(pretty) + Spaces(indent) + "]")))
    case Obj(m) =>
      if m == map[] then "{}"
      else
        "{" + (Newline(pretty) + (DumpedMembers(v, m, 0, pretty, step, Deeper(pretty, step, indent))
        + (Newline(pretty) + Spaces(indent) + "}")))
  }

  function Separator(pretty: bool, i: nat): string {
    if i == 0 then "" else "," + Newline(pretty)
  }

  /** The elements from i on, with what stands before each of them. */
  function DumpedElements(v: Json, s: seq<Json>, i: nat, pretty: bool, step: Uint32, indent: Uint32): string
    requires v == Arr(s) && i <= |s|
    decreases v, 0, |s| - i
  {
    if i == |s| then ""
    else
      Separator(pretty, i) + (Spaces(indent) + (Dumped(s[i], pretty, step, indent)
      + DumpedElements(v, s, i + 1, pretty, step, indent)))
  }

  function DumpedMembers(v: Json, m: map<string, Json>, i: nat, pretty: bool, step: Uint32, indent: Uint32): string
    requires v == Obj(m) && i <= |SortedKeys(m.Keys)|
    decreases v, 0, |SortedKeys(m.Keys)| - i
  {
    if i == |SortedKeys(m.Keys)| then ""
    else
      var k := SortedKeys(m.Keys)[i];
      Separator(pretty, i) + (Spaces(indent) + (KeyText(pretty, k) + (Dumped(m[k], pretty, step, indent)
      + DumpedMembers(v, m, i + 1, pretty, step, indent))))
  }

  /** Appends the text of a value to a stream. */
  method DumpTo(o: string, v: Json, pretty: bool, step: Uint32, indent: Uint32) returns (out: string)
    ensures out == o + Dumped(v, pretty, step, indent)
    decreases v, 1, 0
  {
    match v
    case Null => return o + "null";
    case Bool(b) => return o + if b then "true" else "false";
    case Integer(i) => return o + IntegerText(i);
    case Unsigned(u) => return o + IntegerText(u);
    case Str(s) =>
      var e := EscapeString(s);
      return o + ("\"" + e + "\"");
    case Arr(s) =>
      if s == [] { return o + "[]"; }
      var inner := Deeper(pretty, step, indent);
      out := o + "[" + Newline(pretty);
      ghost var start := out;
      out := DumpElements(out, v, s, pretty, step, inner);
      ghost var last := Newline(pretty) + Spaces(indent) + "]";
      ghost var elements := DumpedElements(v, s, 0, pretty, step, inner);
      out := out + (Newline(pretty) + Spaces(indent) + "]");
      Associative(start, elements, last);
      Associative(o + "[", Newline(pretty), elements + last);
      Associative(o, "[", Newline(pretty) + (elements + last));
    case Obj(m) =>
      if m == map[] { return o + "{}"; }
      var inner := Deeper(pretty, step, indent);
      out := o + "{" + Newline(pretty);
      ghost var start := out;
      out := DumpMembers(out, v, m, pretty, step, inner);
      ghost var last := Newline(pretty) + Spaces(indent) + "}";
      ghost var members := DumpedMembers(v, m, 0, pretty, step, inner);
      out := out + (Newline(pretty) + Spaces(indent) + "}");
      Associative(start, members, last);
      Associative(o + "{", Newline(pretty), members + last);
      Associative(o, "{", Newline(pretty) + (members + last));
  }

  method DumpElements(o: string, v: Json, s: seq<Json>, pretty: bool, step: Uint32, indent: Uint32) returns (out: string)
    requires v == Arr(s)
    ensures out == o + DumpedElements(v, s, 0, pretty, step, indent)
    decreases v, 0, 0
  {
    out := o;
    for i := 0 to |s|
      invariant out + DumpedElements(v, s, i, pretty, step, indent) == o + DumpedElements(v, s, 0, pretty, step, indent)
    {
      ghost var before, text, rest := out, Dumped(s[i], pretty, step, indent), DumpedElements(v, s, i + 1, pretty, step, indent);
      out := out + Separator(pretty, i) + Spaces(indent);
      out := DumpTo(out, s[i], pretty, step, indent);
      Regroup(before, Separator(pretty, i), Spaces(indent), text, rest);
    }
  }

  lemma Regroup(a: string, b: string, c: string, d: string, e: string)
    ensures a + b + c + d + e == a + (b + (c + (d + e)))
  {
  }

  method DumpMembers(o: string, v: Json, m: map<string, Json>, pretty: bool, step: Uint32, indent: Uint32)
    returns (out: string)
    requires v == Obj(m)
    ensures out == o + DumpedMembers(v, m, 0, pretty, step, indent)
    decreases v, 0, 0
  {
    var keys := SortedKeys(m.Keys);
    out := o;
    for i := 0 to |keys|
      invariant out + DumpedMembers(v, m, i, pretty, step, indent) == o + DumpedMembers(v, m, 0, pretty, step, indent)
    {
      var k, before := keys[i], out;
      ghost var text, rest := Dumped(m[k], pretty, step, indent), DumpedMembers(v, m, i + 1, pretty, step, indent);
      var key := EscapeString(k);
      var keyText := "\"" + key + "\":" + if pretty then " " else "";
      out := out + Separator(pretty, i) + Spaces(indent) + keyText;
      out := DumpTo(out, m[k], pretty, step, indent);
      Regroup(before, Separator(pretty, i), Spaces(indent), keyText, text + rest);
      Associative(before + Separator(pretty, i) + Spaces(indent) + keyText, text, rest);
    }
  }

  type Int32 = x: int | -0x8000_0000 <= x < 0x8000_0000

  /** The public function: a negative indentation means compact. */
  function Text(v: Json, indent: Int32): string {
    if indent >= 0 then Dumped(v, true, indent, 0) else Dumped(v, false, 0, 0)
  }

  method Dump(v: Json, indent: Int32) returns (s: string)
    ensures s == Text(v, indent)
  {
    if indent >= 0 {
      s := DumpTo("", v, true, indent, 0);
    } else {
      s := DumpTo("", v, false, 0, 0);
    }
  }
}
