/** Following a JSON pointer into a document, with and without range checks. A reference into a document
    is modelled by the path to it: changing the value there makes a new document. */
module JsonAccess {
  import opened Decimal
  import opened JsonPointer
  import opened JsonValue
  import opened Wrappers

  // ---- Array indices -----------------------------------------------------------------------------------

  predicate IsSpace(c: char) { c == ' ' || '\t' <= c <= '\r' }

  function SkipSpaces(s: string): string {
    if s != "" && IsSpace(s[0]) then SkipSpaces(s[1..]) else s
  }

  function LeadingDigits(s: string): (d: string)
    ensures AllDigits(d)
  {
    if s != "" && IsDigit(s[0]) then [s[0]] + LeadingDigits(s[1..]) else ""
  }

  /** std::stoi: white space and a sign may come first, and what follows the digits is ignored. */
  function Stoi(s: string): Result<int, JsonError> {
    var t := SkipSpaces(s);
    var signed := t != "" && (t[0] == '-' || t[0] == '+');
    var digits := LeadingDigits(if signed then t[1..] else t);
    if digits == "" then Failure(InvalidArgument)
    else
      var v: int := Value(digits);
      var n := if signed && t[0] == '-' then -v else v;
      if -0x8000_0000 <= n < 0x8000_0000 then Success(n) else Failure(OutOfRange)
  }

  lemma {:induction false} AllAreLeading(s: string)
    requires AllDigits(s)
    ensures LeadingDigits(s) == s
  {
    if s != "" { AllAreLeading(s[1..]); }
  }

  lemma StoiOfDigits(n: nat)
    ensures Stoi(ToDigits(n)) == if n < 0x8000_0000 then Success(n) else Failure(OutOfRange)
  {
    var s := ToDigits(n);
    assert IsDigit(s[0]);
    AllAreLeading(s);
    ValueOfDigits(n);
  }

  lemma {:induction false} LeadingDigitsStop(s: string, x: string)
    requires AllDigits(s) && (x == "" || !IsDigit(x[0]))
    ensures LeadingDigits(s + x) == s
  {
    if s == "" {
      assert s + x == x;
    } else {
      LeadingDigitsStop(s[1..], x);
      assert (s + x)[1..] == s[1..] + x;
    }
  }

  lemma {:induction false} SpacesSkipped(b: string, t: string)
    requires (forall i :: 0 <= i < |b| ==> IsSpace(b[i])) && t != "" && !IsSpace(t[0])
    ensures SkipSpaces(b + t) == t
  {
    if b == "" {
      assert b + t == t;
    } else {
      SpacesSkipped(b[1..], t);
      assert (b + t)[1..] == b[1..] + t;
    }
  }

  /** A numeral is read with white space and a sign before it, and whatever comes after it; so all of these texts are
      taken for array indices, although section 4 of RFC 6901 allows digits only. */
  lemma StoiIsLoose(b: string, sign: string, n: nat, x: string)
    requires (forall i :: 0 <= i < |b| ==> IsSpace(b[i])) && (sign == "" || sign == "+" || sign == "-")
    requires x == "" || !IsDigit(x[0])
    ensures var i := if sign == "-" then -(n as int) else n;
      Stoi(b + (sign + (ToDigits(n) + x)))
      == if -0x8000_0000 <= i < 0x8000_0000 then Success(i) else Failure(OutOfRange)
  {
    var d := ToDigits(n);
    var t := sign + (d + x);
    assert IsDigit(d[0]);
    SpacesSkipped(b, t);
    LeadingDigitsStop(d, x);
    ValueOfDigits(n);
    assert sign == "" ==> t == d + x;
    assert sign != "" ==> t[1..] == d + x;
  }

  predicate LeadingZero(token: string) { |token| > 1 && token[0] == '0' }

  /** The index that a token stands for in an array, for at(). */
  function IndexChecked(token: string, size: nat): (r: Result<nat, JsonError>)
    ensures r.Success? ==> r.value < size
  {
    if token == "-" then Failure(OutOfRange)
    else if LeadingZero(token) then Failure(DomainError)
    else
      var i :- Stoi(token);
      if 0 <= i < size then Success(i) else Failure(OutOfRange)
  }

  /** The index that operator[] uses; a negative one is so large that making room for it never ends well. */
  function IndexUnchecked(token: string, size: nat): Result<nat, JsonError> {
    if LeadingZero(token) then Failure(DomainError)
    else if token == "-" then Success(size)
    else
      var i :- Stoi(token);
      if i < 0 then Failure(OutOfMemory) else Success(i)
  }

  lemma IndexOfDigits(n: nat, size: nat)
    ensures n < size && n < 0x8000_0000 ==> IndexChecked(ToDigits(n), size) == Success(n)
    ensures n >= 0x8000_0000 ==> IndexChecked(ToDigits(n), size).Failure? && IndexUnchecked(ToDigits(n), size).Failure?
  {
    StoiOfDigits(n);
    ValueOfDigits(n);
    assert IsDigit(ToDigits(n)[0]);
  }

  // ---- Checked access ----------------------------------------------------------------------------------

  /** at(): every token must lead somewhere. */
  function GetChecked(doc: Json, tokens: seq<string>): Result<Json, JsonError>
    decreases tokens
  {
    if tokens == [] then Success(doc)
    else match doc
      case Obj(m) =>
        if tokens[0] in m then GetChecked(m[tokens[0]], tokens[1..]) else Failure(OutOfRange)
      case Arr(s) =>
        var i :- IndexChecked(tokens[0], |s|);
        GetChecked(s[i], tokens[1..])
      case _ => Failure(OutOfRange)
  }

  /** The loop moves a pointer down the document. */
  method At(doc: Json, tokens: seq<string>) returns (r: Result<Json, JsonError>)
    ensures r == GetChecked(doc, tokens)
  {
    var at := doc;
    for i := 0 to |tokens|
      invariant GetChecked(doc, tokens) == GetChecked(at, tokens[i..])
    {
      assert tokens[i..][1..] == tokens[i + 1..];
      match at
      case Obj(m) =>
        if tokens[i] !in m { return Failure(OutOfRange); }
        at := m[tokens[i]];
      case Arr(s) =>
        var index := IndexChecked(tokens[i], |s|);
        if index.Failure? { return Failure(index.error); }
        at := s[index.value];
      case _ => return Failure(OutOfRange);
    }
    return Success(at);
  }

  ghost predicate Leads(doc: Json, tokens: seq<string>) { GetChecked(doc, tokens).Success? }

  /** The document with another value at the end of the path. */
  function Put(doc: Json, tokens: seq<string>, v: Json): Json
    requires GetChecked(doc, tokens).Success?
    decreases tokens
  {
    if tokens == [] then v
    else match doc
      case Obj(m) => Obj(m[tokens[0] := Put(m[tokens[0]], tokens[1..], v)])
      case Arr(s) =>
        var i := IndexChecked(tokens[0], |s|).value;
        Arr(s[i := Put(s[i], tokens[1..], v)])
  }

  lemma {:induction false} GetConcat(doc: Json, p: seq<string>, q: seq<string>)
    ensures GetChecked(doc, p + q)
         == if Leads(doc, p) then GetChecked(GetChecked(doc, p).value, q) else Failure(GetChecked(doc, p).error)
    decreases p
  {
    if p == [] {
      assert p + q == q;
    } else {
      assert (p + q)[1..] == p[1..] + q;
      match doc
      case Obj(m) => if p[0] in m { GetConcat(m[p[0]], p[1..], q); }
      case Arr(s) =>
        var index := IndexChecked(p[0], |s|);
        if index.Success? { GetConcat(s[index.value], p[1..], q); }
      case _ =>
    }
  }

  /** What was put is there, and putting twice is putting once. */
  lemma {:induction false} PutLaws(doc: Json, p: seq<string>, v: Json, w: Json)
    requires Leads(doc, p)
    ensures GetChecked(Put(doc, p, v), p) == Success(v)
    ensures Put(Put(doc, p, v), p, w) == Put(doc, p, w)
    ensures Put(doc, p, GetChecked(doc, p).value) == doc
    decreases p
  {
    if p != [] {
      match doc
      case Obj(m) =>
        PutLaws(m[p[0]], p[1..], v, w);
        assert m[p[0] := m[p[0]]] == m;
        var u := Put(m[p[0]], p[1..], v);
        assert m[p[0] := u][p[0] := Put(u, p[1..], w)] == m[p[0] := Put(u, p[1..], w)];
      case Arr(s) =>
        var i := IndexChecked(p[0], |s|).value;
        PutLaws(s[i], p[1..], v, w);
        assert s[i := s[i]] == s;
        var u := Put(s[i], p[1..], v);
        assert s[i := u][i := Put(u, p[1..], w)] == s[i := Put(u, p[1..], w)];
    }
  }

  /** Putting something deeper changes only what is at the prefix. */
  lemma {:induction false} PutConcat(doc: Json, p: seq<string>, q: seq<string>, v: Json)
    requires Leads(doc, p) && Leads(GetChecked(doc, p).value, q)
    ensures Leads(doc, p + q) && Put(doc, p + q, v) == Put(doc, p, Put(GetChecked(doc, p).value, q, v))
    decreases p
  {
    GetConcat(doc, p, q);
    if p == [] {
      assert p + q == q;
    } else {
      assert (p + q)[1..] == p[1..] + q;
      match doc
      case Obj(m) => PutConcat(m[p[0]], p[1..], q, v);
      case Arr(s) => PutConcat(s[IndexChecked(p[0], |s|).value], p[1..], q, v);
    }
  }

  // ---- Changes -----------------------------------------------------------------------------------------

  /** What the patch operations do to the value that they have found. */
  datatype Edit = Become(v: Json) | Insert(key: string, v: Json) | Erase(key: string)

  function Edited(x: Json, edit: Edit): Result<Json, JsonError> {
    match edit
    case Become(v) => Success(v)
    case Insert(k, v) => Inserted(x, k, v)
    case Erase(k) => Erased(x, k)
  }

  function Inserted(x: Json, k: string, v: Json): Result<Json, JsonError> {
    match x
    case Null => Success(Obj(map[k := v]))
    case Obj(m) => Success(Obj(m[k := v]))
    case Arr(s) =>
      if k == "-" then Success(Arr(s + [v]))
      else
        var i :- Stoi(k);
        if 0 <= i <= |s| then Success(Arr(s[..i] + [v] + s[i..])) else Failure(OutOfRange)
    case _ => Failure(Aborted)
  }

  function Erased(x: Json, k: string): Result<Json, JsonError> {
    match x
    case Obj(m) => if k in m then Success(Obj(m - {k})) else Failure(OutOfRange)
    case Arr(s) =>
      var i :- Stoi(k);
      if 0 <= i < |s| then Success(Arr(s[..i] + s[i + 1..])) else Failure(OutOfRange)
    case _ => Success(x)
  }

  function Placed(doc: Json, p: seq<string>, y: Result<Json, JsonError>): Result<Json, JsonError>
    requires Leads(doc, p)
  {
    if y.Failure? then y else Success(Put(doc, p, y.value))
  }

  /** Changes the value that the path leads to. */
  function EditChecked(doc: Json, tokens: seq<string>, edit: Edit): Result<Json, JsonError> {
    var x :- GetChecked(doc, tokens);
    var y :- Edited(x, edit);
    Success(Put(doc, tokens, y))
  }

  function Filled(s: seq<Json>, size: nat): (r: seq<Json>)
    ensures |r| >= size && |r| >= |s|
  {
    if size <= |s| then s else s + seq(size - |s|, _ => Null)
  }

  /** operator[]: members and elements that are missing on the way are made. */
  function EditUnchecked(doc: Json, tokens: seq<string>, edit: Edit): Result<Json, JsonError>
    decreases tokens
  {
    if tokens == [] then Edited(doc, edit)
    else match doc
      case Obj(m) =>
        var y :- EditUnchecked(if tokens[0] in m then m[tokens[0]] else Null, tokens[1..], edit);
        Success(Obj(m[tokens[0] := y]))
      case Arr(s) =>
        var i :- IndexUnchecked(tokens[0], |s|);
        var y :- EditUnchecked(Filled(s, i + 1)[i], tokens[1..], edit);
        Success(Arr(Filled(s, i + 1)[i := y]))
      case _ => Failure(OutOfRange)
  }

  lemma CheckedIsUnchecked(token: string, size: nat)
    requires IndexChecked(token, size).Success?
    ensures IndexUnchecked(token, size) == IndexChecked(token, size)
  {
  }

  /** Where a path leads somewhere, unchecked access goes there too and makes nothing. */
  lemma {:induction false} UncheckedConcat(doc: Json, p: seq<string>, q: seq<string>, edit: Edit)
    requires Leads(doc, p)
    ensures EditUnchecked(doc, p + q, edit) == Placed(doc, p, EditUnchecked(GetChecked(doc, p).value, q, edit))
    decreases p
  {
    if p == [] {
      assert p + q == q;
    } else {
      assert (p + q)[1..] == p[1..] + q;
      match doc
      case Obj(m) => UncheckedConcat(m[p[0]], p[1..], q, edit);
      case Arr(s) =>
        CheckedIsUnchecked(p[0], |s|);
        UncheckedConcat(s[IndexChecked(p[0], |s|).value], p[1..], q, edit);
    }
  }

  lemma UncheckedWhereItLeads(doc: Json, p: seq<string>, edit: Edit)
    requires Leads(doc, p)
    ensures EditUnchecked(doc, p, edit) == EditChecked(doc, p, edit)
  {
    UncheckedConcat(doc, p, [], edit);
    assert p + [] == p;
  }

  /** Nothing that lies beyond index 2^31 - 1 of an array can be reached. */
  lemma OutOfReach(doc: Json, p: seq<string>, n: nat, q: seq<string>, edit: Edit)
    requires Leads(doc, p) && GetChecked(doc, p).value.Arr? && n >= 0x8000_0000
    ensures !Leads(doc, p + [ToDigits(n)] + q) && EditUnchecked(doc, p + [ToDigits(n)] + q, edit).Failure?
  {
    var r := [ToDigits(n)] + q;
    IndexOfDigits(n, |GetChecked(doc, p).value.elems|);
    assert p + [ToDigits(n)] + q == p + r;
    GetConcat(doc, p, r);
    UncheckedConcat(doc, p, r, edit);
  }
}
