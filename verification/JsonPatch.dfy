/** JSON patches: applying them, and making the one that leads from a value to another. */
module JsonPatch {
  import opened Collections
  import opened Decimal
  import opened JsonAccess
  import opened JsonPointer
  import opened JsonValue
  import opened Wrappers

  // ---- Applying ----------------------------------------------------------------------------------------

  datatype Operation =
    | Add(path: seq<string>, value: Json)
    | Remove(path: seq<string>)
    | Replace(path: seq<string>, value: Json)
    | Move(path: seq<string>, from: seq<string>)
    | Copy(path: seq<string>, from: seq<string>)
    | Test(path: seq<string>, value: Json)

  /** A mandatory member of an operation object. */
  function Member(m: map<string, Json>, key: string, stringType: bool): Result<Json, JsonError> {
    if key !in m || (stringType && !m[key].Str?) then Failure(InvalidArgument) else Success(m[key])
  }

  function PathMember(m: map<string, Json>, key: string): Result<seq<string>, JsonError> {
    var s :- Member(m, key, true);
    Tokens(s.s)
  }

  function Decode(v: Json): Result<Operation, JsonError> {
    if !v.Obj? then Failure(InvalidArgument)
    else
      var op :- Member(v.members, "op", true);
      var path :- PathMember(v.members, "path");
      match op.s
      case "add" => var value :- Member(v.members, "value", false); Success(Add(path, value))
      case "remove" => Success(Remove(path))
      case "replace" => var value :- Member(v.members, "value", false); Success(Replace(path, value))
      case "move" => var from :- PathMember(v.members, "from"); Success(Move(path, from))
      case "copy" => var from :- PathMember(v.members, "from"); Success(Copy(path, from))
      case "test" => var value :- Member(v.members, "value", false); Success(Test(path, value))
      case _ => Failure(InvalidArgument)
  }

  function OperationAdd(doc: Json, path: seq<string>, v: Json): Result<Json, JsonError> {
    if path == [] then Success(v)
    else if |path| > 1 && GetChecked(doc, path[..1]).Failure? then Failure(GetChecked(doc, path[..1]).error)
    else EditUnchecked(doc, path[..|path| - 1], Insert(path[|path| - 1], v))
  }

  function OperationRemove(doc: Json, path: seq<string>): Result<Json, JsonError> {
    if path == [] then Failure(DomainError)
    else EditChecked(doc, path[..|path| - 1], Erase(path[|path| - 1]))
  }

  function Apply(doc: Json, op: Operation): Result<Json, JsonError> {
    match op
    case Add(path, v) => OperationAdd(doc, path, v)
    case Remove(path) => OperationRemove(doc, path)
    case Replace(path, v) => EditChecked(doc, path, Become(v))
    case Move(path, from) =>
      var v :- GetChecked(doc, from);
      var rest :- OperationRemove(doc, from);
      OperationAdd(rest, path, v)
    case Copy(path, from) =>
      var v :- GetChecked(doc, from);
      EditUnchecked(doc, path, Become(v))
    case Test(path, v) =>
      var x := GetChecked(doc, path);
      if x.Success? && Eq(x.value, v) then Success(doc)
      else Failure(if x.Failure? && x.error != OutOfRange then x.error else DomainError)
  }

  function ApplyObject(doc: Json, v: Json): Result<Json, JsonError> {
    var op :- Decode(v);
    Apply(doc, op)
  }

  /** One object of the patch after the other. */
  function Applied(doc: Json, patch: seq<Json>): Result<Json, JsonError> {
    if patch == [] then Success(doc)
    else
      var before :- Applied(doc, patch[..|patch| - 1]);
      ApplyObject(before, patch[|patch| - 1])
  }

  method Patch(doc: Json, patch: Json) returns (r: Result<Json, JsonError>)
    ensures r == if patch.Arr? then Applied(doc, patch.elems) else Failure(InvalidArgument)
  {
    if !patch.Arr? { return Failure(InvalidArgument); }
    var result := Success(doc);
    var ops := patch.elems;
    for i := 0 to |ops|
      invariant result.Success? && Applied(doc, ops[..i]) == result
    {
      assert ops[..i + 1][..i] == ops[..i];
      result := ApplyObject(result.value, ops[i]);
      if result.Failure? {
        assert ops[..i + 1] + ops[i + 1..] == ops;
        AppliedConcat(doc, ops[..i + 1], ops[i + 1..]);
        return result;
      }
    }
    assert ops[..|ops|] == ops;
    return result;
  }

  lemma {:induction false} AppliedConcat(doc: Json, p: seq<Json>, q: seq<Json>)
    ensures Applied(doc, p + q)
         == if Applied(doc, p).Success? then Applied(Applied(doc, p).value, q) else Applied(doc, p)
  {
    if q == [] {
      assert p + q == p;
    } else {
      var n := |q| - 1;
      assert (p + q)[..|p + q| - 1] == p + q[..n];
      AppliedConcat(doc, p, q[..n]);
    }
  }

  // ---- Making a patch ----------------------------------------------------------------------------------

  function AddAt(path: string, v: Json): Json {
    Obj(map["op" := Str("add"), "path" := Str(path), "value" := v])
  }

  function RemoveAt(path: string): Json {
    Obj(map["op" := Str("remove"), "path" := Str(path)])
  }

  function ReplaceAt(path: string, v: Json): Json {
    Obj(map["op" := Str("replace"), "path" := Str(path), "value" := v])
  }

  /** The operations that lead from source to target, where source lies at the path. */
  function Difference(source: Json, target: Json, path: string): seq<Json>
    decreases source, 2, 0
  {
    if Eq(source, target) then []
    else if !SameType(source, target) then [ReplaceAt(path, target)]
    else match source
      case Arr(s) =>
        var t := target.elems;
        var n := if |s| < |t| then |s| else |t|;
        CommonElements(source, s, t, path, n) + Removals(path, n, |s|) + Additions(t, path, n, |t|)
      case Obj(m) =>
        var n := target.members;
        OwnMembers(source, m, n, path, |SortedKeys(m.Keys)|) + NewMembers(m, n, path, |SortedKeys(n.Keys)|)
      case _ => [ReplaceAt(path, target)]
  }

  function CommonElements(source: Json, s: seq<Json>, t: seq<Json>, path: string, n: nat): seq<Json>
    requires source == Arr(s) && n <= |s| && n <= |t|
    decreases source, 1, n
  {
    if n == 0 then []
    else CommonElements(source, s, t, path, n - 1) + Difference(s[n - 1], t[n - 1], IndexPath(path, n - 1))
  }

  /** The elements from lo to hi, last one first. */
  function Removals(path: string, lo: nat, hi: nat): seq<Json> {
    if hi <= lo then [] else [RemoveAt(IndexPath(path, hi - 1))] + Removals(path, lo, hi - 1)
  }

  function Additions(t: seq<Json>, path: string, lo: nat, hi: nat): seq<Json>
    requires hi <= |t|
  {
    if hi <= lo then [] else Additions(t, path, lo, hi - 1) + [AddAt(IndexPath(path, hi - 1), t[hi - 1])]
  }

  /** For the first count members of the source. */
  function OwnMembers(source: Json, m: map<string, Json>, n: map<string, Json>, path: string, count: nat): seq<Json>
    requires source == Obj(m) && count <= |SortedKeys(m.Keys)|
    decreases source, 1, count
  {
    if count == 0 then []
    else
      OwnMembers(source, m, n, path, count - 1) + OwnMember(source, m, n, path, SortedKeys(m.Keys)[count - 1])
  }

  function OwnMember(source: Json, m: map<string, Json>, n: map<string, Json>, path: string, k: string): seq<Json>
    requires source == Obj(m) && k in m
    decreases source, 0, 0
  {
    if k in n then Difference(m[k], n[k], KeyPath(path, k)) else [RemoveAt(KeyPath(path, k))]
  }

  /** For the first count members of the target. */
  function NewMembers(m: map<string, Json>, n: map<string, Json>, path: string, count: nat): seq<Json>
    requires count <= |SortedKeys(n.Keys)|
  {
    if count == 0 then []
    else NewMembers(m, n, path, count - 1) + NewMember(m, n, path, SortedKeys(n.Keys)[count - 1])
  }

  function NewMember(m: map<string, Json>, n: map<string, Json>, path: string, k: string): seq<Json>
    requires k in n
  {
    if k in m then [] else [AddAt(KeyPath(path, k), n[k])]
  }

  ghost predicate Looked(count: nat) { true }

  /** The trigger keeps the operations out of proofs that only pass the statement on. */
  ghost predicate HasNew(m: map<string, Json>, n: map<string, Json>, path: string, count: nat)
    requires count <= |SortedKeys(n.Keys)|
  {
    forall c {:trigger Looked(c)} :: c == count ==> |NewMembers(m, n, path, c)| > 0
  }

  lemma NewMembersGrow(m: map<string, Json>, n: map<string, Json>, path: string, count: nat)
    requires count < |SortedKeys(n.Keys)|
    ensures |NewMembers(m, n, path, count)| <= |NewMembers(m, n, path, count + 1)|
    ensures SortedKeys(n.Keys)[count] !in m ==> |NewMembers(m, n, path, count + 1)| > 0
  {
  }

  lemma NewStays(m: map<string, Json>, n: map<string, Json>, path: string, count: nat)
    requires count < |SortedKeys(n.Keys)|
    ensures HasNew(m, n, path, count) || SortedKeys(n.Keys)[count] !in m ==> HasNew(m, n, path, count + 1)
  {
    assert Looked(count);
    NewMembersGrow(m, n, path, count);
  }

  lemma {:induction false} NewUpTo(m: map<string, Json>, n: map<string, Json>, path: string, count: nat, i: nat)
    requires i < count <= |SortedKeys(n.Keys)| && SortedKeys(n.Keys)[i] !in m
    ensures HasNew(m, n, path, count)
  {
    if i < count - 1 { NewUpTo(m, n, path, count - 1, i); }
    NewStays(m, n, path, count - 1);
  }

  /** A member that the source does not have is added. */
  lemma NewNonempty(m: map<string, Json>, n: map<string, Json>, path: string, count: nat, i: nat)
    requires i < count <= |SortedKeys(n.Keys)| && SortedKeys(n.Keys)[i] !in m
    ensures |NewMembers(m, n, path, count)| > 0
  {
    NewUpTo(m, n, path, count, i);
    assert Looked(count);
  }

  method Diff(source: Json, target: Json, path: string) returns (result: seq<Json>)
    ensures result == Difference(source, target, path)
    decreases source, 2, 0
  {
    if Eq(source, target) {
      result := [];
    } else if !SameType(source, target) {
      result := [ReplaceAt(path, target)];
    } else {
      match source
      case Arr(s) => result := DiffElements(source, s, target.elems, path);
      case Obj(m) => result := DiffMembers(source, m, target.members, path);
      case _ => result := [ReplaceAt(path, target)];
    }
  }

  method DiffElements(source: Json, s: seq<Json>, t: seq<Json>, path: string) returns (result: seq<Json>)
    requires source == Arr(s)
    ensures var n := if |s| < |t| then |s| else |t|;
      result == CommonElements(source, s, t, path, n) + Removals(path, n, |s|) + Additions(t, path, n, |t|)
    decreases source, 1, 0
  {
    result := [];
    var i := 0;
    while i < |s| && i < |t|
      invariant i <= |s| && i <= |t|
      invariant result == CommonElements(source, s, t, path, i)
    {
      var part := Diff(s[i], t[i], IndexPath(path, i));
      result := result + part;
      i := i + 1;
    }
    result := InsertRemovals(result, path, i, |s|);
    result := AppendAdditions(result, t, path, i);
  }

  /** Every removal goes before the earlier ones, so that the indices still to come stay valid. */
  method InsertRemovals(common: seq<Json>, path: string, n: nat, size: nat) returns (result: seq<Json>)
    requires n <= size
    ensures result == common + Removals(path, n, size)
  {
    result := common;
    var endIndex := |result|;
    for i := n to size
      invariant result == common + Removals(path, n, i)
    {
      var removals := result[endIndex..];
      assert result[..endIndex] == common && removals == Removals(path, n, i);
      result := result[..endIndex] + [RemoveAt(IndexPath(path, i))] + removals;
      Associative(common, [RemoveAt(IndexPath(path, i))], removals);
    }
  }

  method AppendAdditions(before: seq<Json>, t: seq<Json>, path: string, n: nat) returns (result: seq<Json>)
    requires n <= |t|
    ensures result == before + Additions(t, path, n, |t|)
  {
    result := before;
    for i := n to |t|
      invariant result == before + Additions(t, path, n, i)
    {
      var addition := [AddAt(IndexPath(path, i), t[i])];
      Associative(before, Additions(t, path, n, i), addition);
      result := result + addition;
    }
  }

  method DiffMembers(source: Json, m: map<string, Json>, n: map<string, Json>, path: string) returns (result: seq<Json>)
    requires source == Obj(m)
    ensures result == OwnMembers(source, m, n, path, |SortedKeys(m.Keys)|)
                    + NewMembers(m, n, path, |SortedKeys(n.Keys)|)
    decreases source, 1, 0
  {
    var keys := SortedKeys(m.Keys);
    result := [];
    for i := 0 to |keys|
      invariant result == OwnMembers(source, m, n, path, i)
    {
      var part := DiffMember(source, m, n, keys[i], path);
      result := result + part;
    }
    result := AppendNewMembers(result, m, n, path);
  }

  method DiffMember(source: Json, m: map<string, Json>, n: map<string, Json>, k: string, path: string)
    returns (part: seq<Json>)
    requires source == Obj(m) && k in m
    ensures part == OwnMember(source, m, n, path, k)
    decreases source, 0, 0
  {
    var key := Escape(k);
    if k in n {
      part := Diff(m[k], n[k], path + "/" + key);
    } else {
      part := [RemoveAt(path + "/" + key)];
    }
  }

  method AppendNewMembers(own: seq<Json>, m: map<string, Json>, n: map<string, Json>, path: string)
    returns (result: seq<Json>)
    ensures result == own + NewMembers(m, n, path, |SortedKeys(n.Keys)|)
  {
    var keys := SortedKeys(n.Keys);
    result := own;
    for i := 0 to |keys|
      invariant result == own + NewMembers(m, n, path, i)
    {
      ghost var before, part := NewMembers(m, n, path, i), NewMember(m, n, path, keys[i]);
      result := AppendNewMember(result, m, n, path, keys[i]);
      Associative(own, before, part);
    }
  }

  method AppendNewMember(before: seq<Json>, m: map<string, Json>, n: map<string, Json>, path: string, k: string)
    returns (result: seq<Json>)
    requires k in n
    ensures result == before + NewMember(m, n, path, k)
  {
    result := before;
    if k !in m {
      var key := Escape(k);
      result := result + [AddAt(path + "/" + key, n[k])];
    }
  }
}
