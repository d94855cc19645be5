/** What the operations of a patch do one by one, by section 4 of RFC 6902, and where copy departs from it. A
    difference uses add, remove and replace only, and changes arrays at the end. */
module JsonOperations {
  import opened Decimal
  import opened JsonAccess
  import opened JsonDiff
  import opened JsonPatch
  import opened JsonPointer
  import opened JsonValue
  import opened Wrappers

  function MoveAt(path: string, from: string): Json {
    Obj(map["op" := Str("move"), "path" := Str(path), "from" := Str(from)])
  }

  function CopyAt(path: string, from: string): Json {
    Obj(map["op" := Str("copy"), "path" := Str(path), "from" := Str(from)])
  }

  function TestAt(path: string, v: Json): Json {
    Obj(map["op" := Str("test"), "path" := Str(path), "value" := v])
  }

  /** The texts of the operations that a difference is made of. */
  lemma DifferenceNames(path: string, v: Json)
    ensures AddAt(path, v) == Obj(map["op" := Str("add"), "path" := Str(path), "value" := v])
    ensures RemoveAt(path) == Obj(map["op" := Str("remove"), "path" := Str(path)])
    ensures ReplaceAt(path, v) == Obj(map["op" := Str("replace"), "path" := Str(path), "value" := v])
  {
  }

  lemma DecodeMove(p: seq<string>, from: seq<string>)
    ensures Decode(MoveAt(Text(p), Text(from))) == Success(Move(p, from))
  {
    TokensOfText(p);
    TokensOfText(from);
  }

  lemma DecodeCopy(p: seq<string>, from: seq<string>)
    ensures Decode(CopyAt(Text(p), Text(from))) == Success(Copy(p, from))
  {
    TokensOfText(p);
    TokensOfText(from);
  }

  lemma DecodeTest(p: seq<string>, v: Json)
    ensures Decode(TestAt(Text(p), v)) == Success(Test(p, v))
  {
    TokensOfText(p);
  }

  // ---- Arrays ------------------------------------------------------------------------------------------

  /** The array with an element inserted: what is there from index i on moves up by one. */
  ghost predicate IsInserted(t: seq<Json>, s: seq<Json>, i: nat, v: Json) {
    && i <= |s| && |t| == |s| + 1 && t[i] == v
    && (forall j :: 0 <= j < i ==> t[j] == s[j]) && (forall j :: i <= j < |s| ==> t[j + 1] == s[j])
  }

  /** Adding at an index inserts there, up to the end of the array and not beyond. */
  lemma InsertShifts(s: seq<Json>, i: nat, v: Json)
    requires i < REACH
    ensures var r := Inserted(Arr(s), ToDigits(i), v);
      if i > |s| then r == Failure(OutOfRange) else r.Success? && r.value.Arr? && IsInserted(r.value.elems, s, i, v)
  {
    StoiOfDigits(i);
    NotADash(i);
    if i <= |s| { SpreadIsInserted(s, i, v); }
    InsertedAtIndex(s, ToDigits(i), i, v);
  }

  lemma SpreadIsInserted(s: seq<Json>, i: nat, v: Json)
    requires i <= |s|
    ensures IsInserted(s[..i] + [v] + s[i..], s, i, v)
  {
  }

  lemma InsertedAtIndex(s: seq<Json>, k: string, i: nat, v: Json)
    requires k != "-" && Stoi(k) == Success(i)
    ensures Inserted(Arr(s), k, v)
         == if i <= |s| then Success(Arr(s[..i] + [v] + s[i..])) else Failure(OutOfRange)
  {
  }

  /** Adding at the end has a name of its own. */
  lemma DashAppends(s: seq<Json>, v: Json)
    ensures Inserted(Arr(s), "-", v) == Success(Arr(s + [v]))
  {
  }

  /** Removing takes back what adding put in, and needs an index that is there. */
  lemma EraseShifts(t: seq<Json>, i: nat)
    requires i < REACH
    ensures var r := Erased(Arr(t), ToDigits(i));
      if i >= |t| then r == Failure(OutOfRange) else r.Success? && r.value.Arr? && IsInserted(t, r.value.elems, i, t[i])
  {
    StoiOfDigits(i);
    if i < |t| { ClosedIsErased(t, i); }
    ErasedAtIndex(t, ToDigits(i), i);
  }

  lemma ClosedIsErased(t: seq<Json>, i: nat)
    requires i < |t|
    ensures IsInserted(t, t[..i] + t[i + 1..], i, t[i])
  {
  }

  lemma ErasedAtIndex(t: seq<Json>, k: string, i: nat)
    requires Stoi(k) == Success(i)
    ensures Erased(Arr(t), k) == if i < |t| then Success(Arr(t[..i] + t[i + 1..])) else Failure(OutOfRange)
  {
  }

  lemma InsertedOnce(t: seq<Json>, s: seq<Json>, r: seq<Json>, i: nat, v: Json)
    requires IsInserted(t, s, i, v) && IsInserted(t, r, i, v)
    ensures s == r
  {
    forall j | 0 <= j < |s|
      ensures s[j] == r[j]
    {
      assert if j < i then t[j] == s[j] == r[j] else t[j + 1] == s[j] == r[j];
    }
  }

  /** In any document: adding an element to an array and removing it again changes nothing. */
  lemma RemoveUndoesAdd(doc: Json, p: seq<string>, s: seq<Json>, i: nat, v: Json)
    requires IsAt(doc, p, Arr(s)) && i <= |s| && i < REACH
    ensures var path := Text(p + [ToDigits(i)]); Applied(doc, [AddAt(path, v), RemoveAt(path)]) == Success(doc)
  {
    var path := Text(p + [ToDigits(i)]);
    AddUnderParent(doc, p, ToDigits(i), v);
    InsertShifts(s, i, v);
    var t := Inserted(Arr(s), ToDigits(i), v).value.elems;
    var more := Put(doc, p, Arr(t));
    PutLaws(doc, p, Arr(t), Arr(s));
    RemoveUnderParent(more, p, ToDigits(i));
    EraseShifts(t, i);
    InsertedOnce(t, s, Erased(Arr(t), ToDigits(i)).value.elems, i, v);
    AppliedConcat(doc, [AddAt(path, v)], [RemoveAt(path)]);
    assert [AddAt(path, v)] + [RemoveAt(path)] == [AddAt(path, v), RemoveAt(path)];
  }

  // ---- Test --------------------------------------------------------------------------------------------

  /** A test succeeds exactly when the path leads to the value, up to the signedness of numbers; then it changes
      nothing. */
  lemma TestIff(doc: Json, p: seq<string>, v: Json)
    ensures var r := Applied(doc, [TestAt(Text(p), v)]);
      && (r.Success? <==> Leads(doc, p) && Signed(GetChecked(doc, p).value) == Signed(v))
      && (r.Success? ==> r.value == doc)
  {
    DecodeTest(p, v);
    DecodedApplies(doc, TestAt(Text(p), v), Test(p, v));
    if Leads(doc, p) { EqIsSigned(GetChecked(doc, p).value, v); }
  }

  // ---- Move --------------------------------------------------------------------------------------------

  /** A move is a removal, followed by the addition of what was removed; without an origin it fails. */
  lemma MoveIsRemoveThenAdd(doc: Json, p: seq<string>, from: seq<string>)
    ensures !Leads(doc, from) ==> Applied(doc, [MoveAt(Text(p), Text(from))]).Failure?
    ensures Leads(doc, from) ==>
      Applied(doc, [MoveAt(Text(p), Text(from))])
      == Applied(doc, [RemoveAt(Text(from)), AddAt(Text(p), GetChecked(doc, from).value)])
  {
    DecodeMove(p, from);
    DecodedApplies(doc, MoveAt(Text(p), Text(from)), Move(p, from));
    if Leads(doc, from) {
      var v := GetChecked(doc, from).value;
      DecodeRemove(from);
      DecodedApplies(doc, RemoveAt(Text(from)), Remove(from));
      DecodeAdd(p, v);
      var rest := OperationRemove(doc, from);
      if rest.Success? { DecodedApplies(rest.value, AddAt(Text(p), v), Add(p, v)); }
      AppliedConcat(doc, [RemoveAt(Text(from))], [AddAt(Text(p), v)]);
      assert [RemoveAt(Text(from))] + [AddAt(Text(p), v)] == [RemoveAt(Text(from)), AddAt(Text(p), v)];
    }
  }

  // ---- Copy --------------------------------------------------------------------------------------------

  lemma CopyUnderParent(doc: Json, p: seq<string>, k: string, from: seq<string>)
    requires Leads(doc, p) && Leads(doc, from)
    ensures Applied(doc, [CopyAt(Text(p + [k]), Text(from))])
         == Placed(doc, p, EditUnchecked(GetChecked(doc, p).value, [k], Become(GetChecked(doc, from).value)))
  {
    CopyApplies(doc, p + [k], from);
    UncheckedConcat(doc, p, [k], Become(GetChecked(doc, from).value));
  }

  lemma CopyApplies(doc: Json, p: seq<string>, from: seq<string>)
    requires Leads(doc, from)
    ensures Applied(doc, [CopyAt(Text(p), Text(from))]) == EditUnchecked(doc, p, Become(GetChecked(doc, from).value))
  {
    DecodeCopy(p, from);
    DecodedApplies(doc, CopyAt(Text(p), Text(from)), Copy(p, from));
  }

  lemma DecodedApplies(doc: Json, v: Json, op: Operation)
    requires Decode(v) == Success(op)
    ensures Applied(doc, [v]) == Apply(doc, op)
  {
    AppliedOne(doc, v);
  }

  lemma CopyNeedsOrigin(doc: Json, p: seq<string>, from: seq<string>)
    requires !Leads(doc, from)
    ensures Applied(doc, [CopyAt(Text(p), Text(from))]).Failure?
  {
    DecodeCopy(p, from);
    DecodedApplies(doc, CopyAt(Text(p), Text(from)), Copy(p, from));
  }

  /** To a member of an object, a copy is the addition of the value at the origin. */
  lemma CopyToMember(doc: Json, p: seq<string>, m: map<string, Json>, k: string, from: seq<string>, v: Json)
    requires IsAt(doc, p, Obj(m)) && IsAt(doc, from, v)
    ensures Applied(doc, [CopyAt(Text(p + [k]), Text(from))]) == Applied(doc, [AddAt(Text(p + [k]), v)])
    ensures Applied(doc, [CopyAt(Text(p + [k]), Text(from))]) == Success(Put(doc, p, Obj(m[k := v])))
  {
    CopyUnderParent(doc, p, k, from);
    AddUnderParent(doc, p, k, v);
    MemberBecomes(m, k, v);
  }

  lemma MemberBecomes(m: map<string, Json>, k: string, v: Json)
    ensures EditUnchecked(Obj(m), [k], Become(v)) == Success(Obj(m[k := v]))
  {
    assert [k][1..] == [];
  }

  lemma IndexOfNumeral(i: nat, size: nat)
    requires i < REACH
    ensures IndexUnchecked(ToDigits(i), size) == Success(i)
  {
    StoiOfDigits(i);
    NotADash(i);
    ValueOfDigits(i);
  }

  lemma ElementBecomes(s: seq<Json>, i: nat, v: Json)
    requires i < REACH
    ensures EditUnchecked(Arr(s), [ToDigits(i)], Become(v)) == Success(Arr(Filled(s, i + 1)[i := v]))
  {
    IndexOfNumeral(i, |s|);
    EditAtIndex(s, ToDigits(i), i, v);
  }

  lemma EditAtIndex(s: seq<Json>, k: string, i: nat, v: Json)
    requires IndexUnchecked(k, |s|) == Success(i)
    ensures EditUnchecked(Arr(s), [k], Become(v)) == Success(Arr(Filled(s, i + 1)[i := v]))
  {
    assert [k][1..] == [];
  }

  lemma ElementBecomesIff(s: seq<Json>, i: nat, v: Json)
    ensures EditUnchecked(Arr(s), [ToDigits(i)], Become(v)) == Inserted(Arr(s), ToDigits(i), v)
      <==> i == |s| || i >= REACH
  {
    if i < REACH {
      ElementBecomes(s, i, v);
      InsertShifts(s, i, v);
      var t := Filled(s, i + 1)[i := v];
      if i == |s| {
        InsertLast(s, v);
        assert t == s + [v];
      } else if i < |s| {
        assert |t| == |s|;
      }
    } else {
      StoiOfDigits(i);
      NotADash(i);
      IndexOfDigits(i, |s|);
      ValueOfDigits(i);
    }
  }

  lemma PlacedInjective(doc: Json, p: seq<string>, y: Result<Json, JsonError>, z: Result<Json, JsonError>)
    requires Leads(doc, p)
    ensures Placed(doc, p, y) == Placed(doc, p, z) <==> y == z
  {
    if y.Success? { PutLaws(doc, p, y.value, y.value); }
    if z.Success? { PutLaws(doc, p, z.value, z.value); }
  }

  /** The standard makes copy an addition, which inserts. The source assigns, so that a copy onto an element of an
      array replaces it, and one beyond the end fills up with nulls. The two agree exactly at the end of the array,
      and where no index can be read. */
  lemma CopyIsAddIff(doc: Json, p: seq<string>, s: seq<Json>, i: nat, from: seq<string>, v: Json)
    requires IsAt(doc, p, Arr(s)) && IsAt(doc, from, v)
    ensures var path := Text(p + [ToDigits(i)]);
      Applied(doc, [CopyAt(path, Text(from))]) == Applied(doc, [AddAt(path, v)]) <==> i == |s| || i >= REACH
  {
    CopyUnderParent(doc, p, ToDigits(i), from);
    AddUnderParent(doc, p, ToDigits(i), v);
    ElementBecomesIff(s, i, v);
    PlacedInjective(doc, p, EditUnchecked(Arr(s), [ToDigits(i)], Become(v)), Inserted(Arr(s), ToDigits(i), v));
  }

  /** Copying onto an element of an array replaces it. */
  lemma CopyReplaces(doc: Json, p: seq<string>, s: seq<Json>, i: nat, from: seq<string>)
    requires IsAt(doc, p, Arr(s)) && Leads(doc, from) && i < |s| && i < REACH
    ensures Applied(doc, [CopyAt(Text(p + [ToDigits(i)]), Text(from))])
         == Success(Put(doc, p, Arr(s[i := GetChecked(doc, from).value])))
  {
    CopyUnderParent(doc, p, ToDigits(i), from);
    ElementBecomes(s, i, GetChecked(doc, from).value);
  }
}
