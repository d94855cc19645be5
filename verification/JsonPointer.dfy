/** The text of JSON pointers: lists of reference tokens, escaped and joined by slashes. */
module JsonPointer {
  import opened Decimal
  import opened Wrappers

  /** The exceptions that the JSON functions throw, and a failed assertion. */
  datatype JsonError = OutOfRange | DomainError | InvalidArgument | OutOfMemory | Aborted

  // ---- Replacing substrings ----------------------------------------------------------------------------

  predicate OccursAt(s: string, f: string, pos: nat) { pos + |f| <= |s| && s[pos..pos + |f|] == f }

  /** Every occurrence of f from the left is replaced by t. */
  function Replaced(s: string, f: string, t: string): string
    requires f != ""
  {
    if s == "" then ""
    else if OccursAt(s, f, 0) then t + Replaced(s[|f|..], f, t)
    else [s[0]] + Replaced(s[1..], f, t)
  }

  /** std::string::find; -1 stands for npos. */
  method Find(s: string, f: string, from: nat) returns (pos: int)
    requires f != "" && from <= |s|
    ensures pos == -1 || from <= pos <= |s|
    ensures pos != -1 ==> OccursAt(s, f, pos) && forall i :: from <= i < pos ==> !OccursAt(s, f, i)
    ensures pos == -1 ==> forall i :: from <= i ==> !OccursAt(s, f, i)
  {
    for i := from to |s|
      invariant forall j :: from <= j < i ==> !OccursAt(s, f, j)
    {
      if OccursAt(s, f, i) { return i; }
    }
    pos := -1;
  }

  lemma OccursInTail(s: string, f: string, n: nat)
    requires s != "" && forall i :: 0 <= i < n ==> !OccursAt(s, f, i)
    ensures forall i :: 0 <= i < n - 1 ==> !OccursAt(s[1..], f, i)
  {
    forall i | 0 <= i < n - 1
      ensures !OccursAt(s[1..], f, i)
    {
      assert !OccursAt(s, f, i + 1);
      assert i + 1 + |f| <= |s| ==> s[1..][i..i + |f|] == s[i + 1..i + 1 + |f|];
    }
  }

  lemma {:induction false} ReplacedSkips(s: string, f: string, t: string, n: nat)
    requires f != "" && n <= |s| && forall i :: 0 <= i < n ==> !OccursAt(s, f, i)
    ensures Replaced(s, f, t) == s[..n] + Replaced(s[n..], f, t)
  {
    if n == 0 {
      assert s[0..] == s;
    } else {
      assert !OccursAt(s, f, 0);
      var tail := s[1..];
      OccursInTail(s, f, n);
      ReplacedSkips(tail, f, t, n - 1);
      assert tail[n - 1..] == s[n..];
      assert [s[0]] + (tail[..n - 1] + Replaced(s[n..], f, t)) == s[..n] + Replaced(s[n..], f, t);
    }
  }

  lemma ReplacedHead(c: char, s: string, f: string, t: string)
    requires f != "" && f[0] != c
    ensures Replaced([c] + s, f, t) == [c] + Replaced(s, f, t)
  {
    var r := [c] + s;
    assert |f| <= |r| ==> r[0..|f|][0] == c;
    assert r[1..] == s;
  }

  lemma ReplacedMatch(s: string, f: string, t: string)
    requires f != ""
    ensures Replaced(f + s, f, t) == t + Replaced(s, f, t)
  {
    assert (f + s)[0..|f|] == f && (f + s)[|f|..] == s;
  }

  /** Replaces in place, going on after each replacement. */
  method ReplaceSubstring(s: string, f: string, t: string) returns (r: string)
    requires f != ""
    ensures r == Replaced(s, f, t)
  {
    r := s;
    ghost var done, rest := "", s;
    var pos := Find(r, f, 0);
    while pos != -1
      invariant r == done + rest && Replaced(s, f, t) == done + Replaced(rest, f, t)
      invariant pos == -1 || |done| <= pos <= |r|
      invariant pos != -1 ==> OccursAt(r, f, pos) && forall i :: |done| <= i < pos ==> !OccursAt(r, f, i)
      invariant pos == -1 ==> forall i :: |done| <= i ==> !OccursAt(r, f, i)
      decreases |rest|
    {
      done, rest := ReplaceFirst(done, rest, f, t, pos);
      r := r[..pos] + t + r[pos + |f|..];
      pos := Find(r, f, pos + |t|);
    }
    ReplacedNowhere(done, rest, f, t);
  }

  lemma ReplaceFirst(done: string, rest: string, f: string, t: string, pos: nat)
    returns (done': string, rest': string)
    requires f != "" && |done| <= pos && OccursAt(done + rest, f, pos)
    requires forall i :: |done| <= i < pos ==> !OccursAt(done + rest, f, i)
    ensures done' == (done + rest)[..pos] + t && rest' == (done + rest)[pos + |f|..] && |rest'| < |rest|
    ensures done + Replaced(rest, f, t) == done' + Replaced(rest', f, t)
  {
    var n := pos - |done|;
    RestOccurs(done, rest, f);
    forall i | 0 <= i < n
      ensures !OccursAt(rest, f, i)
    {
      assert !OccursAt(done + rest, f, |done| + i);
    }
    assert OccursAt(rest, f, n);
    ReplacedSkips(rest, f, t, n);
    done', rest' := done + rest[..n] + t, rest[n + |f|..];
    assert rest[n..] == f + rest';
    ReplacedMatch(rest', f, t);
    assert done + (rest[..n] + (t + Replaced(rest', f, t))) == done' + Replaced(rest', f, t);
  }

  lemma ReplacedNowhere(done: string, rest: string, f: string, t: string)
    requires f != "" && forall i :: |done| <= i ==> !OccursAt(done + rest, f, i)
    ensures done + Replaced(rest, f, t) == done + rest
  {
    RestOccurs(done, rest, f);
    forall i | 0 <= i
      ensures !OccursAt(rest, f, i)
    {
      assert !OccursAt(done + rest, f, |done| + i);
    }
    ReplacedSkips(rest, f, t, |rest|);
  }

  lemma RestOccurs(done: string, rest: string, f: string)
    ensures forall i: nat {:trigger OccursAt(rest, f, i)} ::
      OccursAt(rest, f, i) <==> OccursAt(done + rest, f, |done| + i)
  {
    forall i: nat
      ensures OccursAt(rest, f, i) <==> OccursAt(done + rest, f, |done| + i)
    {
      assert i + |f| <= |rest| ==> rest[i..i + |f|] == (done + rest)[|done| + i..|done| + i + |f|];
    }
  }

  // ---- Escaping ----------------------------------------------------------------------------------------

  /** The text of a token, character by character: section 3 of RFC 6901. */
  function Escaped(s: string): string {
    if s == "" then ""
    else (if s[0] == '~' then "~0" else if s[0] == '/' then "~1" else [s[0]]) + Escaped(s[1..])
  }

  /** Every tilde is followed by 0 or 1. */
  predicate WellEscaped(s: string) {
    forall i :: 0 <= i < |s| && s[i] == '~' ==> i + 1 < |s| && (s[i + 1] == '0' || s[i + 1] == '1')
  }

  function Unescaped(s: string): string
    requires WellEscaped(s)
  {
    if s == "" then ""
    else if s[0] == '~' then [if s[1] == '0' then '~' else '/'] + Unescaped(s[2..])
    else [s[0]] + Unescaped(s[1..])
  }

  method Escape(s: string) returns (r: string)
    ensures r == Escaped(s)
  {
    r := ReplaceSubstring(s, "~", "~0");
    r := ReplaceSubstring(r, "/", "~1");
    EscapedInTwoPasses(s);
  }

  lemma {:induction false} EscapedInTwoPasses(s: string)
    ensures Replaced(Replaced(s, "~", "~0"), "/", "~1") == Escaped(s)
  {
    if s != "" {
      EscapedInTwoPasses(s[1..]);
      var c, r := s[0], Replaced(s[1..], "~", "~0");
      assert s == [c] + s[1..];
      if c == '~' {
        ReplacedMatch(s[1..], "~", "~0");
        assert "~0" + r == ['~'] + (['0'] + r);
        ReplacedHead('~', ['0'] + r, "/", "~1");
        ReplacedHead('0', r, "/", "~1");
      } else {
        ReplacedHead(c, s[1..], "~", "~0");
        if c == '/' {
          ReplacedMatch(r, "/", "~1");
        } else {
          ReplacedHead(c, r, "/", "~1");
        }
      }
    }
  }

  /** Transforms ~1 first and then ~0, so that ~01 becomes ~1 and not a slash. */
  method Unescape(s: string) returns (r: string)
    requires WellEscaped(s)
    ensures r == Unescaped(s)
  {
    r := ReplaceSubstring(s, "~1", "/");
    r := ReplaceSubstring(r, "~0", "~");
    UnescapedInTwoPasses(s);
  }

  lemma TildeInTwoPasses(rest: string)
    ensures Replaced(Replaced("~0" + rest, "~1", "/"), "~0", "~")
         == "~" + Replaced(Replaced(rest, "~1", "/"), "~0", "~")
  {
    var s, r := "~0" + rest, Replaced(rest, "~1", "/");
    assert !OccursAt(s, "~1", 0) && s[1..] == ['0'] + rest;
    ReplacedHead('0', rest, "~1", "/");
    assert Replaced(s, "~1", "/") == ['~'] + (['0'] + r) == "~0" + r;
    ReplacedMatch(r, "~0", "~");
  }

  lemma {:induction false} UnescapedInTwoPasses(s: string)
    requires WellEscaped(s)
    ensures Replaced(Replaced(s, "~1", "/"), "~0", "~") == Unescaped(s)
  {
    if s == "" {
    } else if s[0] == '~' && s[1] == '1' {
      UnescapedInTwoPasses(s[2..]);
      assert s == "~1" + s[2..];
      ReplacedMatch(s[2..], "~1", "/");
      ReplacedHead('/', Replaced(s[2..], "~1", "/"), "~0", "~");
    } else if s[0] == '~' {
      UnescapedInTwoPasses(s[2..]);
      assert s == "~0" + s[2..];
      TildeInTwoPasses(s[2..]);
    } else {
      UnescapedInTwoPasses(s[1..]);
      assert s == [s[0]] + s[1..];
      ReplacedHead(s[0], s[1..], "~1", "/");
      ReplacedHead(s[0], Replaced(s[1..], "~1", "/"), "~0", "~");
    }
  }

  predicate NoSlash(s: string) {
    forall i :: 0 <= i < |s| ==> s[i] != '/'
  }

  lemma {:induction false} EscapeThenUnescape(s: string)
    ensures WellEscaped(Escaped(s)) && NoSlash(Escaped(s)) && Unescaped(Escaped(s)) == s
  {
    if s != "" {
      EscapeThenUnescape(s[1..]);
      var r := Escaped(s[1..]);
      if s[0] == '~' || s[0] == '/' {
        assert Escaped(s) == ['~', if s[0] == '~' then '0' else '1'] + r;
        assert Escaped(s)[2..] == r;
      } else {
        assert Escaped(s)[1..] == r;
      }
    }
  }

  lemma {:induction false} UnescapeThenEscape(s: string)
    requires WellEscaped(s) && NoSlash(s)
    ensures Escaped(Unescaped(s)) == s
  {
    if s == "" {
    } else if s[0] == '~' {
      UnescapeThenEscape(s[2..]);
      assert s == ['~', s[1]] + s[2..];
    } else {
      UnescapeThenEscape(s[1..]);
      assert s == [s[0]] + s[1..];
    }
  }

  // ---- Joining and splitting ---------------------------------------------------------------------------

  function Text(tokens: seq<string>): string {
    if tokens == [] then ""
    else Text(tokens[..|tokens| - 1]) + "/" + Escaped(tokens[|tokens| - 1])
  }

  method ToString(tokens: seq<string>) returns (r: string)
    ensures r == Text(tokens)
  {
    r := "";
    for i := 0 to |tokens|
      invariant r == Text(tokens[..i])
    {
      var e := Escape(tokens[i]);
      assert tokens[..i + 1][..i] == tokens[..i];
      r := r + "/" + e;
    }
    assert tokens[..|tokens|] == tokens;
  }

  /** The pieces between slashes. */
  function Pieces(s: string): (r: seq<string>)
    ensures r != []
  {
    if s == "" then [""]
    else
      var r := Pieces(s[1..]);
      if s[0] == '/' then [""] + r else [[s[0]] + r[0]] + r[1..]
  }

  function UnescapeAll(pieces: seq<string>): Result<seq<string>, JsonError> {
    if pieces == [] then Success([])
    else if !WellEscaped(pieces[0]) then Failure(DomainError)
    else
      var rest :- UnescapeAll(pieces[1..]);
      Success([Unescaped(pieces[0])] + rest)
  }

  /** The reference tokens of a pointer's text. */
  function Tokens(s: string): Result<seq<string>, JsonError> {
    if s == "" then Success([])
    else if s[0] != '/' then Failure(DomainError)
    else UnescapeAll(Pieces(s[1..]))
  }

  lemma {:induction false} PiecesAt(s: string, n: nat)
    requires n <= |s| && NoSlash(s[..n])
    ensures n == |s| ==> Pieces(s) == [s]
    ensures n < |s| && s[n] == '/' ==> Pieces(s) == [s[..n]] + Pieces(s[n + 1..])
  {
    if n > 0 {
      assert s[0] == s[..n][0] && s[..n][1..] == s[1..][..n - 1];
      assert s == [s[0]] + s[1..];
      PiecesAt(s[1..], n - 1);
      assert n < |s| ==> s[1..][n..] == s[n + 1..] && s[..n] == [s[0]] + s[1..][..n - 1];
    }
  }

  lemma OccursChar(s: string, c: char)
    ensures forall i: nat {:trigger OccursAt(s, [c], i)} :: OccursAt(s, [c], i) <==> i < |s| && s[i] == c
  {
    forall i: nat
      ensures OccursAt(s, [c], i) <==> i < |s| && s[i] == c
    {
      assert i < |s| ==> s[i..i + 1] == [s[i]];
    }
  }

  /** std::string::find_first_of with one character. */
  method FindFirstOf(s: string, c: char, from: nat) returns (pos: int)
    requires from <= |s|
    ensures pos == -1 || (from <= pos < |s| && s[pos] == c)
    ensures forall i :: from <= i < (if pos == -1 then |s| else pos) ==> s[i] != c
  {
    OccursChar(s, c);
    pos := Find(s, [c], from);
    forall i | from <= i < (if pos == -1 then |s| else pos)
      ensures s[i] != c
    {
      assert !OccursAt(s, [c], i);
    }
  }

  /** Checks that every tilde starts an escape. */
  method CheckEscapes(token: string) returns (ok: bool)
    ensures ok <==> WellEscaped(token)
  {
    var pos := FindFirstOf(token, '~', 0);
    while pos != -1
      invariant pos == -1 || (0 <= pos < |token| && token[pos] == '~')
      invariant WellEscapedUpTo(token, if pos == -1 then |token| else pos)
      decreases if pos == -1 then 0 else 1 + |token| - pos
    {
      if pos == |token| - 1 || (token[pos + 1] != '0' && token[pos + 1] != '1') { return false; }
      pos := FindFirstOf(token, '~', pos + 1);
    }
    return true;
  }

  ghost predicate WellEscapedUpTo(s: string, n: nat)
    requires n <= |s|
  {
    forall i :: 0 <= i < n && s[i] == '~' ==> i + 1 < |s| && (s[i + 1] == '0' || s[i + 1] == '1')
  }

  function Prepend(tokens: seq<string>, rest: Result<seq<string>, JsonError>): Result<seq<string>, JsonError> {
    if rest.Failure? then rest else Success(tokens + rest.value)
  }

  /** Cuts at the slashes, checks and unescapes each piece. */
  method Split(reference: string) returns (r: Result<seq<string>, JsonError>)
    ensures r == Tokens(reference)
  {
    if reference == "" { return Success([]); }
    if reference[0] != '/' { return Failure(DomainError); }
    var result := [];
    var start := 1;
    var slash := FindFirstOf(reference, '/', 1);
    PrependNothing([], UnescapeAll(Pieces(reference[1..])));
    while start != 0
      invariant 0 <= start <= |reference|
      invariant start != 0 ==> (slash == -1 || (start <= slash < |reference| && reference[slash] == '/'))
      invariant start != 0 ==>
        forall i :: start <= i < (if slash == -1 then |reference| else slash) ==> reference[i] != '/'
      invariant Tokens(reference)
             == Prepend(result, if start == 0 then Success([]) else UnescapeAll(Pieces(reference[start..])))
      decreases if start == 0 then 0 else 1 + |reference| - start
    {
      ghost var rest, n := reference[start..], (if slash == -1 then |reference| else slash) - start;
      SplitStep(result, rest, n);
      var token := reference[start..if slash == -1 then |reference| else slash];
      assert token == rest[..n];
      var ok := CheckEscapes(token);
      if !ok { return Failure(DomainError); }
      assert slash != -1 ==> rest[n + 1..] == reference[slash + 1..];
      token := Unescape(token);
      result := result + [token];
      start := slash + 1;
      slash := FindFirstOf(reference, '/', start);
    }
    PrependNothing(result, Success([]));
    return Success(result);
  }

  lemma UnescapeAllHead(tokens: seq<string>, piece: string, pieces: seq<string>)
    requires WellEscaped(piece)
    ensures Prepend(tokens, UnescapeAll([piece] + pieces)) == Prepend(tokens + [Unescaped(piece)], UnescapeAll(pieces))
  {
    assert ([piece] + pieces)[1..] == pieces;
    var u, rest := Unescaped(piece), UnescapeAll(pieces);
    if rest.Success? { assert tokens + ([u] + rest.value) == tokens + [u] + rest.value; }
  }

  lemma SplitStep(tokens: seq<string>, rest: string, n: nat)
    requires n <= |rest| && NoSlash(rest[..n]) && (n < |rest| ==> rest[n] == '/')
    ensures !WellEscaped(rest[..n]) ==> UnescapeAll(Pieces(rest)) == Failure(DomainError)
    ensures WellEscaped(rest[..n]) ==>
      Prepend(tokens, UnescapeAll(Pieces(rest)))
      == Prepend(tokens + [Unescaped(rest[..n])],
                 if n == |rest| then Success([]) else UnescapeAll(Pieces(rest[n + 1..])))
  {
    var piece, pieces := rest[..n], if n == |rest| then [] else Pieces(rest[n + 1..]);
    PiecesAt(rest, n);
    assert n == |rest| ==> piece == rest && [piece] + pieces == [rest];
    assert Pieces(rest) == [piece] + pieces;
    if WellEscaped(piece) { UnescapeAllHead(tokens, piece, pieces); }
  }

  lemma PrependNothing(tokens: seq<string>, rest: Result<seq<string>, JsonError>)
    ensures Prepend([], rest) == rest && Prepend(tokens, Success([])) == Success(tokens)
  {
    assert tokens + [] == tokens;
    if rest.Success? { assert [] + rest.value == rest.value; }
  }

  // ---- Round trips -------------------------------------------------------------------------------------

  function EscapeAll(tokens: seq<string>): seq<string> { seq(|tokens|, i requires 0 <= i < |tokens| => Escaped(tokens[i])) }

  lemma {:induction false} PiecesAppend(s: string, e: string)
    requires NoSlash(e)
    ensures Pieces(s + "/" + e) == Pieces(s) + [e]
  {
    if s == "" {
      PiecesAt("/" + e, 0);
      assert "" + "/" + e == "/" + e && ("/" + e)[1..] == e;
      PiecesAt(e, |e|);
    } else {
      PiecesAppend(s[1..], e);
      assert (s + "/" + e)[1..] == s[1..] + "/" + e;
    }
  }

  lemma {:induction false} PiecesOfText(tokens: seq<string>)
    requires tokens != []
    ensures Text(tokens) != "" && Text(tokens)[0] == '/' && Pieces(Text(tokens)[1..]) == EscapeAll(tokens)
  {
    var n := |tokens| - 1;
    var init, e := tokens[..n], Escaped(tokens[n]);
    EscapeThenUnescape(tokens[n]);
    assert EscapeAll(tokens) == EscapeAll(init) + [e];
    if init == [] {
      assert Text(tokens)[1..] == e && EscapeAll(tokens) == [e];
      PiecesAt(e, |e|);
    } else {
      PiecesOfText(init);
      assert Text(tokens)[1..] == Text(init)[1..] + "/" + e;
      PiecesAppend(Text(init)[1..], e);
    }
  }

  lemma {:induction false} UnescapeAllUndoes(tokens: seq<string>)
    ensures UnescapeAll(EscapeAll(tokens)) == Success(tokens)
  {
    if tokens != [] {
      EscapeThenUnescape(tokens[0]);
      UnescapeAllUndoes(tokens[1..]);
      assert EscapeAll(tokens)[1..] == EscapeAll(tokens[1..]);
      assert [tokens[0]] + tokens[1..] == tokens;
    }
  }

  /** Splitting undoes joining, for every list of tokens. */
  lemma TokensOfText(tokens: seq<string>)
    ensures Tokens(Text(tokens)) == Success(tokens)
  {
    if tokens != [] {
      PiecesOfText(tokens);
      UnescapeAllUndoes(tokens);
    }
  }

  lemma {:induction false} TextHead(tokens: seq<string>)
    requires tokens != []
    ensures Text(tokens) == "/" + Escaped(tokens[0]) + Text(tokens[1..])
  {
    var n := |tokens| - 1;
    if n > 0 {
      TextHead(tokens[..n]);
      assert tokens[..n][1..] == tokens[1..][..n - 1];
    }
  }

  function Join(pieces: seq<string>): string {
    if pieces == [] then "" else "/" + pieces[0] + Join(pieces[1..])
  }

  ghost predicate AllNoSlash(pieces: seq<string>) {
    forall i :: 0 <= i < |pieces| ==> NoSlash(pieces[i])
  }

  lemma {:induction false} JoinPieces(s: string)
    ensures Join(Pieces(s)) == "/" + s && AllNoSlash(Pieces(s))
  {
    if s != "" {
      JoinPieces(s[1..]);
      var r := Pieces(s[1..]);
      assert s == [s[0]] + s[1..];
      if s[0] == '/' {
        assert Pieces(s)[1..] == r;
      } else {
        assert r == [r[0]] + r[1..];
        JoinCons(s[0], r[0], r[1..], s[1..]);
        NoSlashCons(s[0], r);
      }
    }
  }

  lemma JoinCons(c: char, head: string, rest: seq<string>, s: string)
    requires Join([head] + rest) == "/" + s
    ensures Join([[c] + head] + rest) == "/" + ([c] + s)
  {
    JoinHead(head, rest);
    JoinHead([c] + head, rest);
    assert s == ("/" + s)[1..] == ("/" + (head + Join(rest)))[1..] == head + Join(rest);
    assert [c] + head + Join(rest) == [c] + s;
  }

  lemma JoinHead(head: string, rest: seq<string>)
    ensures Join([head] + rest) == "/" + (head + Join(rest))
  {
    assert ([head] + rest)[1..] == rest;
    assert "/" + head + Join(rest) == "/" + (head + Join(rest));
  }

  lemma NoSlashCons(c: char, r: seq<string>)
    requires r != [] && c != '/' && AllNoSlash(r)
    ensures AllNoSlash([[c] + r[0]] + r[1..])
  {
    var q := [[c] + r[0]] + r[1..];
    forall i | 0 <= i < |q|
      ensures NoSlash(q[i])
    {
      assert NoSlash(r[i]);
    }
  }

  lemma {:induction false} TextOfUnescaped(pieces: seq<string>)
    requires AllNoSlash(pieces) && UnescapeAll(pieces).Success?
    ensures Text(UnescapeAll(pieces).value) == Join(pieces)
  {
    if pieces != [] {
      assert NoSlash(pieces[0]);
      UnescapeThenEscape(pieces[0]);
      TextOfUnescaped(pieces[1..]);
      var tokens := UnescapeAll(pieces).value;
      TextHead(tokens);
      assert tokens[1..] == UnescapeAll(pieces[1..]).value;
    }
  }

  /** Joining undoes splitting, for every text that splits. */
  lemma TextOfTokens(s: string)
    requires Tokens(s).Success?
    ensures Text(Tokens(s).value) == s
  {
    if s != "" {
      JoinPieces(s[1..]);
      TextOfUnescaped(Pieces(s[1..]));
      assert s == "/" + s[1..];
    }
  }

  lemma {:induction false} TextIsWellEscaped(tokens: seq<string>)
    ensures WellEscaped(Text(tokens)) && (tokens != [] ==> Text(tokens) != "" && Text(tokens)[0] == '/')
  {
    if tokens != [] {
      TextHead(tokens);
      TextIsWellEscaped(tokens[1..]);
      EscapeThenUnescape(tokens[0]);
    }
  }

  lemma {:induction false} PiecesAreWellEscaped(s: string)
    requires WellEscaped(s)
    ensures UnescapeAll(Pieces(s)).Success?
    ensures WellEscaped(Pieces(s)[0])
  {
    if s == "" {
    } else if s[0] == '~' {
      PiecesAreWellEscaped(s[2..]);
      var r := Pieces(s[2..]);
      assert s[1..][1..] == s[2..] && Pieces(s[1..]) == [[s[1]] + r[0]] + r[1..];
      assert Pieces(s)[0] == [s[0], s[1]] + r[0] && Pieces(s)[1..] == r[1..];
    } else {
      PiecesAreWellEscaped(s[1..]);
      var r := Pieces(s[1..]);
      assert s[0] == '/' ==> Pieces(s)[1..] == r;
      assert s[0] != '/' ==> Pieces(s)[1..] == r[1..];
    }
  }

  /** What the constructor accepts: the empty text, or a slash first and every tilde escaped. */
  lemma TokensAcceptsIff(s: string)
    ensures Tokens(s).Success? <==> s == "" || (s[0] == '/' && WellEscaped(s))
  {
    if Tokens(s).Success? {
      TextOfTokens(s);
      TextIsWellEscaped(Tokens(s).value);
    } else if s[0] == '/' && WellEscaped(s) {
      PiecesAreWellEscaped(s[1..]);
    }
  }

  // ---- Longer paths ------------------------------------------------------------------------------------

  function IndexPath(path: string, i: nat): string { path + "/" + ToDigits(i) }

  function KeyPath(path: string, k: string): string { path + "/" + Escaped(k) }

  lemma TextAppend(p: seq<string>, k: string)
    ensures Text(p + [k]) == KeyPath(Text(p), k)
  {
    assert (p + [k])[..|p|] == p;
  }

  lemma {:induction false} EscapedDigits(s: string)
    requires AllDigits(s)
    ensures Escaped(s) == s
  {
    if s != "" {
      assert IsDigit(s[0]);
      EscapedDigits(s[1..]);
    }
  }

  lemma TextIndex(p: seq<string>, n: nat)
    ensures Text(p + [ToDigits(n)]) == IndexPath(Text(p), n)
  {
    TextAppend(p, ToDigits(n));
    EscapedDigits(ToDigits(n));
  }

  lemma TextOfOne(token: string)
    ensures Text([token]) == "/" + Escaped(token)
  {
    assert [token][..0] == [] && Text([]) == "";
  }

  /** Examples from section 5 of RFC 6901. */
  lemma PointerExamples()
    ensures Tokens("") == Success([]) && Tokens("/") == Success([""])
    ensures Tokens("/a~1b") == Success(["a/b"]) && Tokens("/m~0n") == Success(["m~n"])
  {
    PointerExample("", "/");
    LettersExample("a/b", "a", "~1", "b", "/a~1b");
    LettersExample("m~n", "m", "~0", "n", "/m~0n");
  }

  /** The example of section 4 about the order of the two replacements. */
  lemma OrderExample()
    ensures Tokens("/~01") == Success(["~1"])
  {
    assert "~1"[1..] == "1" && "1"[1..] == "";
    PointerExample("~1", "/~01");
  }

  lemma LettersExample(s: string, a: string, b: string, c: string, text: string)
    requires |s| == 3 && text == "/" + (a + (b + c))
    requires a == [s[0]] != "~" && a != "/" && c == [s[2]] != "~" && c != "/"
    requires b == if s[1] == '~' then "~0" else if s[1] == '/' then "~1" else [s[1]]
    ensures Tokens(text) == Success([s])
  {
    assert s[1..][1..] == c && c[1..] == "" && s[1..][0] == s[1];
    assert Escaped(c) == c + "";
    PointerExample(s, text);
  }

  lemma PointerExample(token: string, text: string)
    requires text == "/" + Escaped(token)
    ensures Tokens(text) == Success([token])
  {
    TextOfOne(token);
    TokensOfText([token]);
  }
}
