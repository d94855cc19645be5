/** Flattening a value to a map from pointers to primitives, and building it up again. */
module JsonFlatten {
  import opened Collections
  import opened Decimal
  import opened JsonAccess
  import opened JsonPatch
  import opened JsonPointer
  import opened JsonValue
  import opened Wrappers

  type Path = seq<string>

  predicate Primitive(v: Json) { !v.Arr? && !v.Obj? }

  predicate EmptyContainer(v: Json) { v == Arr([]) || v == Obj(map[]) }

  // ---- Flattening --------------------------------------------------------------------------------------

  /** The flattened value is put into r under the given text. */
  function FlatInto(path: string, v: Json, r: map<string, Json>): map<string, Json>
    decreases v, 1, 0
  {
    match v
    case Arr(s) => if s == [] then r[path := Null] else FlatElements(v, s, path, |s|, r)
    case Obj(m) => if m == map[] then r[path := Null] else FlatMembers(v, m, path, |SortedKeys(m.Keys)|, r)
    case _ => r[path := v]
  }

  function FlatElements(v: Json, s: seq<Json>, path: string, n: nat, r: map<string, Json>): map<string, Json>
    requires v == Arr(s) && n <= |s|
    decreases v, 0, n
  {
    if n == 0 then r else FlatInto(IndexPath(path, n - 1), s[n - 1], FlatElements(v, s, path, n - 1, r))
  }

  function FlatMembers(v: Json, m: map<string, Json>, path: string, n: nat, r: map<string, Json>): map<string, Json>
    requires v == Obj(m) && n <= |SortedKeys(m.Keys)|
    decreases v, 0, n
  {
    if n == 0 then r
    else
      var k := SortedKeys(m.Keys)[n - 1];
      FlatInto(KeyPath(path, k), m[k], FlatMembers(v, m, path, n - 1, r))
  }

  method Flatten(path: string, v: Json, r: map<string, Json>) returns (result: map<string, Json>)
    ensures result == FlatInto(path, v, r)
    decreases v, 1, 0
  {
    match v
    case Arr(s) =>
      if s == [] { return r[path := Null]; }
      result := r;
      for i := 0 to |s|
        invariant result == FlatElements(v, s, path, i, r)
      {
        result := Flatten(IndexPath(path, i), s[i], result);
      }
    case Obj(m) =>
      if m == map[] { return r[path := Null]; }
      var keys := SortedKeys(m.Keys);
      result := r;
      for i := 0 to |keys|
        invariant result == FlatMembers(v, m, path, i, r)
      {
        var key := Escape(keys[i]);
        result := Flatten(path + "/" + key, m[keys[i]], result);
      }
    case _ =>
      result := r[path := v];
  }

  // ---- Building up -------------------------------------------------------------------------------------

  /** Puts a value where the tokens lead, making arrays and objects on the way: out of null, an array if the
      token is 0 and an object otherwise. */
  function CreatePut(d: Json, p: Path, w: Json): Result<Json, JsonError>
    decreases p
  {
    if p == [] then Success(w)
    else match d
      case Null =>
        var y :- CreatePut(Null, p[1..], w);
        Success(if p[0] == "0" then Arr([y]) else Obj(map[p[0] := y]))
      case Obj(m) =>
        var y :- CreatePut(if p[0] in m then m[p[0]] else Null, p[1..], w);
        Success(Obj(m[p[0] := y]))
      case Arr(s) =>
        var i :- Stoi(p[0]);
        if i < 0 then Failure(OutOfMemory)
        else
          var y :- CreatePut(Filled(s, i + 1)[i], p[1..], w);
          Success(Arr(Filled(s, i + 1)[i := y]))
      case _ => Failure(DomainError)
  }

  function Entered(d: Json, k: string, w: Json): Result<Json, JsonError> {
    if !Primitive(w) then Failure(DomainError)
    else
      var p :- Tokens(k);
      CreatePut(d, p, w)
  }

  /** The value built from the first n entries, in the order of their texts. */
  function BuiltUp(m: map<string, Json>, n: nat): Result<Json, JsonError>
    requires n <= |SortedKeys(m.Keys)|
  {
    if n == 0 then Success(Null)
    else
      var d :- BuiltUp(m, n - 1);
      var k := SortedKeys(m.Keys)[n - 1];
      Entered(d, k, m[k])
  }

  method Unflatten(v: Json) returns (r: Result<Json, JsonError>)
    ensures r == if v.Obj? then BuiltUp(v.members, |SortedKeys(v.members.Keys)|) else Failure(DomainError)
  {
    if !v.Obj? { return Failure(DomainError); }
    var keys := SortedKeys(v.members.Keys);
    r := Success(Null);
    for i := 0 to |keys|
      invariant r.Success? && r == BuiltUp(v.members, i)
    {
      r := Entered(r.value, keys[i], v.members[keys[i]]);
      if r.Failure? {
        BuildStops(v.members, i + 1, |keys|);
        return;
      }
    }
  }

  lemma {:induction false} BuildStops(m: map<string, Json>, i: nat, n: nat)
    requires i <= n <= |SortedKeys(m.Keys)| && BuiltUp(m, i).Failure?
    ensures BuiltUp(m, n) == BuiltUp(m, i)
  {
    if i < n { BuildStops(m, i, n - 1); }
  }

  // ---- Leaves ------------------------------------------------------------------------------------------

  ghost predicate HasChild(v: Json, k: string) {
    match v
    case Obj(m) => k in m
    case Arr(s) => exists i :: 0 <= i < |s| && ToDigits(i) == k
    case _ => false
  }

  ghost function ChildOf(v: Json, k: string): (c: Json)
    requires HasChild(v, k)
    ensures c < v
  {
    match v
    case Obj(m) => m[k]
    case Arr(s) =>
      var i :| 0 <= i < |s| && ToDigits(i) == k;
      s[i]
  }

  lemma ChildAt(s: seq<Json>, i: nat)
    requires i < |s|
    ensures HasChild(Arr(s), ToDigits(i)) && ChildOf(Arr(s), ToDigits(i)) == s[i]
  {
    var j :| 0 <= j < |s| && ToDigits(j) == ToDigits(i) && ChildOf(Arr(s), ToDigits(i)) == s[j];
    DigitsInjective(i, j);
  }

  /** Paths to primitives and to empty containers. */
  ghost predicate IsLeaf(v: Json, p: Path)
    decreases p
  {
    if p == [] then Primitive(v) || EmptyContainer(v)
    else HasChild(v, p[0]) && IsLeaf(ChildOf(v, p[0]), p[1..])
  }

  ghost function LeafValue(v: Json, p: Path): Json
    requires IsLeaf(v, p)
    decreases p
  {
    if p == [] then if Primitive(v) then v else Null
    else LeafValue(ChildOf(v, p[0]), p[1..])
  }

  lemma TextInjective(p: Path, q: Path)
    ensures Text(p) == Text(q) <==> p == q
  {
    TokensOfText(p);
    TokensOfText(q);
  }

  /** Some leaf of v, which lies at q, has this text. */
  ghost predicate LeafText(v: Json, q: Path, t: string) {
    exists p :: IsLeaf(v, p) && Text(q + p) == t
  }

  lemma OtherBranch(c: Json, q: Path, k: string, l: string, p: Path)
    requires k != l
    ensures !LeafText(c, q + [l], Text(q + [k] + p))
  {
    forall r | IsLeaf(c, r)
      ensures Text(q + [l] + r) != Text(q + [k] + p)
    {
      TextInjective(q + [l] + r, q + [k] + p);
      assert (q + [l] + r)[|q|] == l && (q + [k] + p)[|q|] == k;
    }
  }

  lemma DigitsDiffer(i: nat, j: nat)
    requires i != j
    ensures ToDigits(i) != ToDigits(j)
  {
    if ToDigits(i) == ToDigits(j) { DigitsInjective(i, j); }
  }

  // ---- What flattening gives ---------------------------------------------------------------------------

  lemma {:induction false} FlatLeaf(q: Path, v: Json, r: map<string, Json>, p: Path)
    requires IsLeaf(v, p)
    ensures var f := FlatInto(Text(q), v, r); Text(q + p) in f && f[Text(q + p)] == LeafValue(v, p)
    decreases v, 1, 0
  {
    if p == [] {
      assert q + p == q;
    } else {
      var k := p[0];
      assert q + [k] + p[1..] == q + p;
      match v
      case Arr(s) =>
        var i :| 0 <= i < |s| && ToDigits(i) == k;
        ChildAt(s, i);
        FlatElementsLeaf(q, v, s, |s|, r, i, p[1..]);
      case Obj(m) =>
        var i := PositionOf(m.Keys, k);
        FlatMembersLeaf(q, v, m, |SortedKeys(m.Keys)|, r, i, p[1..]);
      case _ =>
    }
  }

  lemma {:induction false} FlatElementsLeaf(q: Path, v: Json, s: seq<Json>, n: nat, r: map<string, Json>, i: nat, p: Path)
    requires v == Arr(s) && i < n <= |s| && IsLeaf(s[i], p)
    ensures var f, t := FlatElements(v, s, Text(q), n, r), Text(q + [ToDigits(i)] + p); t in f && f[t] == LeafValue(s[i], p)
    decreases v, 0, n
  {
    var l := ToDigits(n - 1);
    TextIndex(q, n - 1);
    if i == n - 1 {
      FlatLeaf(q + [l], s[i], FlatElements(v, s, Text(q), n - 1, r), p);
    } else {
      FlatElementsLeaf(q, v, s, n - 1, r, i, p);
      DigitsDiffer(i, n - 1);
      OtherBranch(s[n - 1], q, ToDigits(i), l, p);
      FlatOther(q + [l], s[n - 1], FlatElements(v, s, Text(q), n - 1, r), Text(q + [ToDigits(i)] + p));
    }
  }

  lemma {:induction false} FlatMembersLeaf(q: Path, v: Json, m: map<string, Json>, n: nat, r: map<string, Json>, i: nat, p: Path)
    requires v == Obj(m) && i < n <= |SortedKeys(m.Keys)| && IsLeaf(m[SortedKeys(m.Keys)[i]], p)
    ensures var k := SortedKeys(m.Keys)[i];
      var f, t := FlatMembers(v, m, Text(q), n, r), Text(q + [k] + p); t in f && f[t] == LeafValue(m[k], p)
    decreases v, 0, n
  {
    var keys := SortedKeys(m.Keys);
    var l := keys[n - 1];
    TextAppend(q, l);
    if i == n - 1 {
      FlatLeaf(q + [l], m[l], FlatMembers(v, m, Text(q), n - 1, r), p);
    } else {
      FlatMembersLeaf(q, v, m, n - 1, r, i, p);
      KeysDiffer(m.Keys, i, n - 1);
      OtherBranch(m[l], q, keys[i], l, p);
      FlatOther(q + [l], m[l], FlatMembers(v, m, Text(q), n - 1, r), Text(q + [keys[i]] + p));
    }
  }

  ghost predicate SameAt(f: map<string, Json>, r: map<string, Json>, t: string) {
    (t in f <==> t in r) && (t in f && t in r ==> f[t] == r[t])
  }

  /** Nothing but the leaves is entered. */
  lemma {:induction false} FlatOther(q: Path, v: Json, r: map<string, Json>, t: string)
    requires !LeafText(v, q, t)
    ensures SameAt(FlatInto(Text(q), v, r), r, t)
    decreases v, 1, 0
  {
    assert q + [] == q;
    assert IsLeaf(v, []) ==> Text(q + []) != t;
    match v
    case Arr(s) => if s != [] { FlatElementsOther(q, v, s, |s|, r, t); }
    case Obj(m) => if m != map[] { FlatMembersOther(q, v, m, |SortedKeys(m.Keys)|, r, t); }
    case _ =>
  }

  lemma NotInBranch(q: Path, v: Json, k: string, t: string)
    requires HasChild(v, k) && !LeafText(v, q, t)
    ensures !LeafText(ChildOf(v, k), q + [k], t)
  {
    forall p | IsLeaf(ChildOf(v, k), p)
      ensures Text(q + [k] + p) != t
    {
      assert ([k] + p)[1..] == p && q + ([k] + p) == q + [k] + p;
      assert IsLeaf(v, [k] + p);
    }
  }

  lemma {:induction false} FlatElementsOther(q: Path, v: Json, s: seq<Json>, n: nat, r: map<string, Json>, t: string)
    requires v == Arr(s) && n <= |s| && !LeafText(v, q, t)
    ensures SameAt(FlatElements(v, s, Text(q), n, r), r, t)
    decreases v, 0, n
  {
    if n > 0 {
      FlatElementsOther(q, v, s, n - 1, r, t);
      ChildAt(s, n - 1);
      NotInBranch(q, v, ToDigits(n - 1), t);
      TextIndex(q, n - 1);
      FlatOther(q + [ToDigits(n - 1)], s[n - 1], FlatElements(v, s, Text(q), n - 1, r), t);
    }
  }

  lemma {:induction false} FlatMembersOther(q: Path, v: Json, m: map<string, Json>, n: nat, r: map<string, Json>, t: string)
    requires v == Obj(m) && n <= |SortedKeys(m.Keys)| && !LeafText(v, q, t)
    ensures SameAt(FlatMembers(v, m, Text(q), n, r), r, t)
    decreases v, 0, n
  {
    if n > 0 {
      var k := SortedKeys(m.Keys)[n - 1];
      FlatMembersOther(q, v, m, n - 1, r, t);
      NotInBranch(q, v, k, t);
      TextAppend(q, k);
      FlatOther(q + [k], m[k], FlatMembers(v, m, Text(q), n - 1, r), t);
    }
  }

  function Flat(v: Json): map<string, Json> { FlatInto("", v, map[]) }

  lemma FlatHas(v: Json, p: Path)
    requires IsLeaf(v, p)
    ensures Text(p) in Flat(v) && Flat(v)[Text(p)] == LeafValue(v, p)
  {
    assert Text([]) == "" && [] + p == p;
    FlatLeaf([], v, map[], p);
  }

  lemma FlatHasOnly(v: Json, t: string) returns (p: Path)
    requires t in Flat(v)
    ensures IsLeaf(v, p) && Text(p) == t
  {
    assert Text([]) == "";
    if !LeafText(v, [], t) { FlatOther([], v, map[], t); }
    p :| IsLeaf(v, p) && Text([] + p) == t;
    assert [] + p == p;
  }

  /** The flattened value has an entry for every leaf, with its value, and no other entries. */
  lemma FlatIsLeaves(v: Json)
    ensures forall p :: IsLeaf(v, p) ==> Text(p) in Flat(v) && Flat(v)[Text(p)] == LeafValue(v, p)
    ensures forall t :: t in Flat(v) ==> LeafText(v, [], t)
  {
    forall p | IsLeaf(v, p)
      ensures Text(p) in Flat(v) && Flat(v)[Text(p)] == LeafValue(v, p)
    {
      FlatHas(v, p);
    }
    forall t | t in Flat(v)
      ensures LeafText(v, [], t)
    {
      var p := FlatHasOnly(v, t);
      assert [] + p == p;
    }
  }
}
