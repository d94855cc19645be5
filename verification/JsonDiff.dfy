/** Applying the difference of two values to the first gives the second: when that is so, and that the
    operations of a part change that part alone. The loops of diff are followed one by one: elements that
    both arrays have, removals from the end, additions at the end, the members of the first object, and those
    that only the second has. */
module JsonDiff {
  import opened Collections
  import opened Decimal
  import opened JsonAccess
  import opened JsonPatch
  import opened JsonPointer
  import opened JsonValue
  import opened Wrappers

  // ---- When it works, and the result -------------------------------------------------------------------

  const REACH := 0x8000_0000

  /** No two arrays differ at or beyond the last index that std::stoi can read. */
  predicate Fits(s: Json, t: Json)
    decreases s
  {
    || Eq(s, t) || !SameType(s, t)
    || match s
       case Arr(a) =>
         var b := t.elems;
         && (|a| == |b| || (|a| <= REACH && |b| <= REACH))
         && (forall i :: 0 <= i < |a| && i < |b| ==> Eq(a[i], b[i]) || (i < REACH && Fits(a[i], b[i])))
       case Obj(m) => forall k :: k in m && k in t.members ==> Fits(m[k], t.members[k])
       case _ => true
  }

  predicate ElementFits(a: seq<Json>, b: seq<Json>, i: nat)
    requires i < |a| && i < |b|
  {
    Eq(a[i], b[i]) || (i < REACH && Fits(a[i], b[i]))
  }

  /** What the source turns into. Parts that compare equal stay as they are. */
  function Patched(s: Json, t: Json): Json
    decreases s, 1
  {
    if Eq(s, t) then s
    else if !SameType(s, t) then t
    else match s
      case Arr(a) =>
        var n := if |a| < |t.elems| then |a| else |t.elems|;
        Arr(seq(n, i requires 0 <= i < n => Patched(a[i], t.elems[i])) + t.elems[n..])
      case Obj(m) => Obj(PatchedMembers(s, m, t.members))
      case _ => t
  }

  function PatchedMembers(source: Json, m: map<string, Json>, n: map<string, Json>): map<string, Json>
    requires source == Obj(m)
    decreases source, 0
  {
    map k | k in n :: if k in m then Patched(m[k], n[k]) else n[k]
  }

  lemma {:induction false} PatchedIsTarget(s: Json, t: Json)
    ensures Eq(Patched(s, t), t)
    decreases s
  {
    EqReflexive(t);
    if !Eq(s, t) && SameType(s, t) {
      match s
      case Arr(a) =>
        forall i | 0 <= i < |t.elems|
          ensures Eq(Patched(s, t).elems[i], t.elems[i])
        {
          if i < |a| { PatchedIsTarget(a[i], t.elems[i]); } else { EqReflexive(t.elems[i]); }
        }
      case Obj(m) =>
        forall k | k in t.members
          ensures Eq(Patched(s, t).members[k], t.members[k])
        {
          if k in m { PatchedIsTarget(m[k], t.members[k]); } else { EqReflexive(t.members[k]); }
        }
      case _ =>
    }
  }

  /** The patched value is the target, up to the signedness of numbers. */
  lemma PatchedIsSigned(s: Json, t: Json)
    ensures Signed(Patched(s, t)) == Signed(t)
  {
    PatchedIsTarget(s, t);
    EqIsSigned(Patched(s, t), t);
  }

  // ---- Runs of operations ------------------------------------------------------------------------------

  ghost predicate IsAt(doc: Json, p: seq<string>, v: Json) { GetChecked(doc, p) == Success(v) }

  ghost predicate Opened(doc: Json) { true }

  /** The operations put v at the path if it fits, and fail if not. The trigger keeps the definition out of
      proofs that only pass the statement on. */
  ghost predicate Turns(doc: Json, p: seq<string>, ops: seq<Json>, fits: bool, v: Json)
    requires Leads(doc, p)
  {
    forall d {:trigger Opened(d)} :: d == doc ==>
      if fits then Applied(d, ops) == Success(Put(doc, p, v)) else Applied(d, ops).Failure?
  }

  // ---- Single operations -------------------------------------------------------------------------------

  lemma DecodeEncoded(p: seq<string>, v: Json)
    ensures Decode(AddAt(Text(p), v)) == Success(Add(p, v))
    ensures Decode(RemoveAt(Text(p))) == Success(Remove(p))
    ensures Decode(ReplaceAt(Text(p), v)) == Success(Replace(p, v))
  {
    DecodeAdd(p, v);
    DecodeRemove(p);
    DecodeReplace(p, v);
  }

  lemma DecodeAdd(p: seq<string>, v: Json)
    ensures Decode(AddAt(Text(p), v)) == Success(Add(p, v))
  {
    TokensOfText(p);
  }

  lemma DecodeRemove(p: seq<string>)
    ensures Decode(RemoveAt(Text(p))) == Success(Remove(p))
  {
    TokensOfText(p);
  }

  lemma DecodeReplace(p: seq<string>, v: Json)
    ensures Decode(ReplaceAt(Text(p), v)) == Success(Replace(p, v))
  {
    TokensOfText(p);
  }

  lemma AppliedOne(doc: Json, v: Json)
    ensures Applied(doc, [v]) == ApplyObject(doc, v)
  {
    assert [v][..0] == [] && Applied(doc, []) == Success(doc);
  }

  lemma ShowTurns(doc: Json, p: seq<string>, ops: seq<Json>, y: Result<Json, JsonError>, v: Json)
    requires Leads(doc, p) && Applied(doc, ops) == Placed(doc, p, y) && (y.Success? ==> y.value == v)
    ensures Turns(doc, p, ops, y.Success?, v)
  {
  }

  lemma ReplaceApplies(doc: Json, p: seq<string>, v: Json)
    requires Leads(doc, p)
    ensures Turns(doc, p, [ReplaceAt(Text(p), v)], true, v)
  {
    AppliedOne(doc, ReplaceAt(Text(p), v));
    DecodeEncoded(p, v);
  }

  /** The check of the first token passes when the parent is there. */
  lemma AddUnderParent(doc: Json, p: seq<string>, k: string, v: Json)
    requires Leads(doc, p)
    ensures Applied(doc, [AddAt(Text(p + [k]), v)]) == Placed(doc, p, Inserted(GetChecked(doc, p).value, k, v))
  {
    var path := p + [k];
    AppliedOne(doc, AddAt(Text(path), v));
    DecodeEncoded(path, v);
    assert path[..|path| - 1] == p && path[|path| - 1] == k;
    if p != [] {
      assert path[..1] == p[..1] && p[..1] + p[1..] == p;
      GetConcat(doc, p[..1], p[1..]);
    }
    UncheckedWhereItLeads(doc, p, Insert(k, v));
  }

  lemma RemoveUnderParent(doc: Json, p: seq<string>, k: string)
    requires Leads(doc, p)
    ensures Applied(doc, [RemoveAt(Text(p + [k]))]) == Placed(doc, p, Erased(GetChecked(doc, p).value, k))
  {
    var path := p + [k];
    AppliedOne(doc, RemoveAt(Text(path)));
    DecodeEncoded(path, Null);
    assert path[..|path| - 1] == p && path[|path| - 1] == k;
  }

  lemma RemoveLast(doc: Json, p: seq<string>, s: seq<Json>)
    requires IsAt(doc, p, Arr(s)) && s != []
    ensures var n := |s| - 1;
      Turns(doc, p, [RemoveAt(IndexPath(Text(p), n))], n < REACH, Arr(s[..n]))
  {
    var n := |s| - 1;
    TextIndex(p, n);
    RemoveUnderParent(doc, p, ToDigits(n));
    EraseLast(s);
    ShowTurns(doc, p, [RemoveAt(IndexPath(Text(p), n))], Erased(Arr(s), ToDigits(n)), Arr(s[..n]));
  }

  lemma EraseLast(s: seq<Json>)
    requires s != []
    ensures var n := |s| - 1;
      Erased(Arr(s), ToDigits(n)) == if n < REACH then Success(Arr(s[..n])) else Failure(OutOfRange)
  {
    var n := |s| - 1;
    StoiOfDigits(n);
    assert s[..n] + s[n + 1..] == s[..n];
  }

  lemma AddLast(doc: Json, p: seq<string>, s: seq<Json>, v: Json)
    requires IsAt(doc, p, Arr(s))
    ensures var n := |s|;
      Turns(doc, p, [AddAt(IndexPath(Text(p), n), v)], n < REACH, Arr(s + [v]))
  {
    var n := |s|;
    TextIndex(p, n);
    AddUnderParent(doc, p, ToDigits(n), v);
    InsertLast(s, v);
    ShowTurns(doc, p, [AddAt(IndexPath(Text(p), n), v)], Inserted(Arr(s), ToDigits(n), v), Arr(s + [v]));
  }

  lemma InsertLast(s: seq<Json>, v: Json)
    ensures Inserted(Arr(s), ToDigits(|s|), v) == if |s| < REACH then Success(Arr(s + [v])) else Failure(OutOfRange)
  {
    StoiOfDigits(|s|);
    NotADash(|s|);
    InsertedByStoi(s, ToDigits(|s|), v);
  }

  lemma InsertedByStoi(s: seq<Json>, k: string, v: Json)
    requires k != "-"
    ensures Stoi(k) == Failure(OutOfRange) ==> Inserted(Arr(s), k, v) == Failure(OutOfRange)
    ensures Stoi(k) == Success(|s|) ==> Inserted(Arr(s), k, v) == Success(Arr(s + [v]))
  {
    InsertAtEnd(s, v);
  }

  lemma NotADash(n: nat)
    ensures ToDigits(n) != "-"
  {
    assert IsDigit(ToDigits(n)[0]);
  }

  lemma RemoveMember(doc: Json, p: seq<string>, m: map<string, Json>, k: string)
    requires IsAt(doc, p, Obj(m)) && k in m
    ensures Turns(doc, p, [RemoveAt(KeyPath(Text(p), k))], true, Obj(m - {k}))
  {
    TextAppend(p, k);
    RemoveUnderParent(doc, p, k);
  }

  lemma AddMember(doc: Json, p: seq<string>, m: map<string, Json>, k: string, v: Json)
    requires IsAt(doc, p, Obj(m))
    ensures Turns(doc, p, [AddAt(KeyPath(Text(p), k), v)], true, Obj(m[k := v]))
  {
    TextAppend(p, k);
    AddUnderParent(doc, p, k, v);
  }

  // ---- Operations out of reach -------------------------------------------------------------------------

  ghost predicate Under(path: seq<string>, q: seq<string>) { |q| <= |path| && path[..|q|] == q }

  /** An operation on something under the path. */
  ghost predicate Touches(op: Operation, q: seq<string>) {
    match op
    case Replace(path, _) => Under(path, q)
    case Remove(path) => path != [] && Under(path[..|path| - 1], q)
    case Add(path, _) => path != [] && Under(path[..|path| - 1], q)
    case _ => false
  }

  ghost predicate Below(v: Json, q: seq<string>) {
    exists op :: Decode(v) == Success(op) && Touches(op, q)
  }

  ghost predicate AllBelow(ops: seq<Json>, q: seq<string>) {
    forall i :: 0 <= i < |ops| ==> Below(ops[i], q)
  }

  lemma UnderPrefix(path: seq<string>, q: seq<string>, k: string)
    requires Under(path, q + [k])
    ensures Under(path, q)
  {
    assert path[..|q|] == path[..|q + [k]|][..|q|] == q;
  }

  lemma AllBelowPrefix(ops: seq<Json>, q: seq<string>, k: string)
    requires AllBelow(ops, q + [k])
    ensures AllBelow(ops, q)
  {
    forall i | 0 <= i < |ops|
      ensures Below(ops[i], q)
    {
      assert Below(ops[i], q + [k]);
      var op :| Decode(ops[i]) == Success(op) && Touches(op, q + [k]);
      UnderPrefix(if op.Replace? then op.path else op.path[..|op.path| - 1], q, k);
      assert Touches(op, q);
    }
  }

  lemma ParentOutOfReach(doc: Json, p: seq<string>, n: nat, parent: seq<string>, edit: Edit)
    requires Leads(doc, p) && GetChecked(doc, p).value.Arr? && n >= REACH
    requires Under(parent, p + [ToDigits(n)])
    ensures EditChecked(doc, parent, edit).Failure? && EditUnchecked(doc, parent, edit).Failure?
  {
    var q := p + [ToDigits(n)];
    assert parent == q + parent[|q|..];
    OutOfReach(doc, p, n, parent[|q|..], edit);
  }

  /** Nothing under an index that cannot be read can be changed. */
  lemma TouchFails(doc: Json, p: seq<string>, n: nat, op: Operation)
    requires Leads(doc, p) && GetChecked(doc, p).value.Arr? && n >= REACH
    requires Touches(op, p + [ToDigits(n)])
    ensures Apply(doc, op).Failure?
  {
    match op
    case Replace(path, v) => ParentOutOfReach(doc, p, n, path, Become(v));
    case Remove(path) => RemoveFails(doc, p, n, path);
    case Add(path, v) => AddFails(doc, p, n, path, v);
  }

  lemma RemoveFails(doc: Json, p: seq<string>, n: nat, path: seq<string>)
    requires Leads(doc, p) && GetChecked(doc, p).value.Arr? && n >= REACH
    requires path != [] && Under(path[..|path| - 1], p + [ToDigits(n)])
    ensures OperationRemove(doc, path).Failure?
  {
    ParentOutOfReach(doc, p, n, path[..|path| - 1], Erase(path[|path| - 1]));
  }

  lemma AddFails(doc: Json, p: seq<string>, n: nat, path: seq<string>, v: Json)
    requires Leads(doc, p) && GetChecked(doc, p).value.Arr? && n >= REACH
    requires path != [] && Under(path[..|path| - 1], p + [ToDigits(n)])
    ensures OperationAdd(doc, path, v).Failure?
  {
    ParentOutOfReach(doc, p, n, path[..|path| - 1], Insert(path[|path| - 1], v));
  }

  lemma BelowFails(doc: Json, p: seq<string>, n: nat, v: Json)
    requires Leads(doc, p) && GetChecked(doc, p).value.Arr? && n >= REACH
    requires Below(v, p + [ToDigits(n)])
    ensures ApplyObject(doc, v).Failure?
  {
    var op :| Decode(v) == Success(op) && Touches(op, p + [ToDigits(n)]);
    TouchFails(doc, p, n, op);
  }

  lemma ReplaceIsBelow(q: seq<string>, v: Json)
    ensures AllBelow([ReplaceAt(Text(q), v)], q)
  {
    DecodeEncoded(q, v);
    assert Touches(Replace(q, v), q);
  }

  lemma MemberIsBelow(q: seq<string>, k: string, v: Json)
    ensures AllBelow([AddAt(KeyPath(Text(q), k), v)], q)
    ensures AllBelow([RemoveAt(KeyPath(Text(q), k))], q)
  {
    var path := q + [k];
    TextAppend(q, k);
    DecodeEncoded(path, v);
    assert path[..|path| - 1] == q;
    assert Touches(Add(path, v), q) && Touches(Remove(path), q);
  }

  lemma AllBelowConcat(a: seq<Json>, b: seq<Json>, q: seq<string>)
    requires AllBelow(a, q) && AllBelow(b, q)
    ensures AllBelow(a + b, q)
  {
  }

  lemma {:induction false} RemovalsAreBelow(q: seq<string>, lo: nat, hi: nat)
    ensures AllBelow(Removals(Text(q), lo, hi), q)
  {
    if lo < hi {
      RemovalsAreBelow(q, lo, hi - 1);
      EscapedDigits(ToDigits(hi - 1));
      MemberIsBelow(q, ToDigits(hi - 1), Null);
      AllBelowConcat([RemoveAt(IndexPath(Text(q), hi - 1))], Removals(Text(q), lo, hi - 1), q);
    }
  }

  lemma {:induction false} AdditionsAreBelow(t: seq<Json>, q: seq<string>, lo: nat, hi: nat)
    requires hi <= |t|
    ensures AllBelow(Additions(t, Text(q), lo, hi), q)
  {
    if lo < hi {
      AdditionsAreBelow(t, q, lo, hi - 1);
      EscapedDigits(ToDigits(hi - 1));
      MemberIsBelow(q, ToDigits(hi - 1), t[hi - 1]);
      AllBelowConcat(Additions(t, Text(q), lo, hi - 1), [AddAt(IndexPath(Text(q), hi - 1), t[hi - 1])], q);
    }
  }

  lemma {:induction false} CommonIsBelow(source: Json, s: seq<Json>, t: seq<Json>, q: seq<string>, n: nat)
    requires source == Arr(s) && n <= |s| && n <= |t|
    ensures AllBelow(CommonElements(source, s, t, Text(q), n), q)
    decreases source, 1, n
  {
    if n > 0 {
      CommonIsBelow(source, s, t, q, n - 1);
      TextIndex(q, n - 1);
      DifferenceIsBelow(s[n - 1], t[n - 1], q + [ToDigits(n - 1)]);
      AllBelowPrefix(Difference(s[n - 1], t[n - 1], IndexPath(Text(q), n - 1)), q, ToDigits(n - 1));
      AllBelowConcat(CommonElements(source, s, t, Text(q), n - 1),
                     Difference(s[n - 1], t[n - 1], IndexPath(Text(q), n - 1)), q);
    }
  }

  lemma {:induction false} OwnIsBelow(source: Json, m: map<string, Json>, n: map<string, Json>, q: seq<string>, count: nat)
    requires source == Obj(m) && count <= |SortedKeys(m.Keys)|
    ensures AllBelow(OwnMembers(source, m, n, Text(q), count), q)
    decreases source, 1, count
  {
    if count > 0 {
      OwnIsBelow(source, m, n, q, count - 1);
      var k := SortedKeys(m.Keys)[count - 1];
      if k in n {
        TextAppend(q, k);
        DifferenceIsBelow(m[k], n[k], q + [k]);
        AllBelowPrefix(Difference(m[k], n[k], KeyPath(Text(q), k)), q, k);
      } else {
        MemberIsBelow(q, k, Null);
      }
      AllBelowConcat(OwnMembers(source, m, n, Text(q), count - 1), OwnMember(source, m, n, Text(q), k), q);
    }
  }

  lemma {:induction false} NewIsBelow(m: map<string, Json>, n: map<string, Json>, q: seq<string>, count: nat)
    requires count <= |SortedKeys(n.Keys)|
    ensures AllBelow(NewMembers(m, n, Text(q), count), q)
  {
    if count > 0 {
      NewIsBelow(m, n, q, count - 1);
      var k := SortedKeys(n.Keys)[count - 1];
      NewMemberIsBelow(m, n, q, k);
      AllBelowConcat(NewMembers(m, n, Text(q), count - 1), NewMember(m, n, Text(q), k), q);
    }
  }

  lemma NewMemberIsBelow(m: map<string, Json>, n: map<string, Json>, q: seq<string>, k: string)
    requires k in n
    ensures AllBelow(NewMember(m, n, Text(q), k), q)
  {
    MemberIsBelow(q, k, n[k]);
  }

  /** The operations for a part stay under the path to it. */
  lemma {:induction false} DifferenceIsBelow(s: Json, t: Json, q: seq<string>)
    ensures AllBelow(Difference(s, t, Text(q)), q)
    decreases s, 2, 0
  {
    ReplaceIsBelow(q, t);
    if !Eq(s, t) && SameType(s, t) {
      match s
      case Arr(a) =>
        var b := t.elems;
        var n := if |a| < |b| then |a| else |b|;
        CommonIsBelow(s, a, b, q, n);
        RemovalsAreBelow(q, n, |a|);
        AdditionsAreBelow(b, q, n, |b|);
        AllBelowConcat(CommonElements(s, a, b, Text(q), n), Removals(Text(q), n, |a|), q);
        AllBelowConcat(CommonElements(s, a, b, Text(q), n) + Removals(Text(q), n, |a|), Additions(b, Text(q), n, |b|), q);
      case Obj(m) =>
        var n := t.members;
        OwnIsBelow(s, m, n, q, |SortedKeys(m.Keys)|);
        NewIsBelow(m, n, q, |SortedKeys(n.Keys)|);
        AllBelowConcat(OwnMembers(s, m, n, Text(q), |SortedKeys(m.Keys)|),
                       NewMembers(m, n, Text(q), |SortedKeys(n.Keys)|), q);
      case _ =>
    }
  }

  // ---- A difference has operations ---------------------------------------------------------------------

  lemma NotEmpty(a: seq<Json>, b: seq<Json>)
    ensures a + b == [] <==> a == [] && b == []
  {
    assert |a + b| == |a| + |b|;
  }

  lemma {:induction false} CommonNonempty(source: Json, s: seq<Json>, t: seq<Json>, path: string, n: nat, i: nat)
    requires source == Arr(s) && i < n <= |s| && n <= |t|
    requires Difference(s[i], t[i], IndexPath(path, i)) != []
    ensures CommonElements(source, s, t, path, n) != []
  {
    if i < n - 1 { CommonNonempty(source, s, t, path, n - 1, i); }
  }

  lemma {:induction false} OwnNonempty(source: Json, m: map<string, Json>, n: map<string, Json>, path: string,
                                       count: nat, i: nat)
    requires source == Obj(m) && i < count <= |SortedKeys(m.Keys)|
    requires OwnMember(source, m, n, path, SortedKeys(m.Keys)[i]) != []
    ensures OwnMembers(source, m, n, path, count) != []
  {
    var init, last := OwnMembers(source, m, n, path, count - 1),
                      OwnMember(source, m, n, path, SortedKeys(m.Keys)[count - 1]);
    if i < count - 1 { OwnNonempty(source, m, n, path, count - 1, i); }
    assert OwnMembers(source, m, n, path, count) == init + last;
    NotEmpty(init, last);
  }

  lemma {:induction false} DifferenceNonempty(s: Json, t: Json, path: string)
    requires !Eq(s, t)
    ensures Difference(s, t, path) != []
    decreases s
  {
    if SameType(s, t) {
      match s
      case Arr(a) =>
        var b := t.elems;
        if |a| == |b| {
          var i :| 0 <= i < |a| && !Eq(a[i], b[i]);
          DifferenceNonempty(a[i], b[i], IndexPath(path, i));
          CommonNonempty(s, a, b, path, |a|, i);
        }
      case Obj(m) =>
        MembersNonempty(s, m, t.members, path);
      case _ =>
    }
  }

  lemma {:induction false} MembersNonempty(s: Json, m: map<string, Json>, n: map<string, Json>, path: string)
    requires s == Obj(m) && !Eq(s, Obj(n))
    ensures OwnMembers(s, m, n, path, |SortedKeys(m.Keys)|) != [] || NewMembers(m, n, path, |SortedKeys(n.Keys)|) != []
    decreases s, 0
  {
    if k :| k in m && (k !in n || !Eq(m[k], n[k])) {
      if k in n { DifferenceNonempty(m[k], n[k], KeyPath(path, k)); }
      var i := PositionOf(m.Keys, k);
      OwnNonempty(s, m, n, path, |SortedKeys(m.Keys)|, i);
    } else {
      assert m.Keys <= n.Keys;
      var k :| k in n && k !in m;
      var i := PositionOf(n.Keys, k);
      NewNonempty(m, n, path, |SortedKeys(n.Keys)|, i);
    }
  }

  lemma {:induction false} AppliedFails(doc: Json, ops: seq<Json>)
    requires ops != [] && ApplyObject(doc, ops[0]).Failure?
    ensures Applied(doc, ops).Failure?
  {
    AppliedOne(doc, ops[0]);
    assert ops == ops[..1] + ops[1..] && ops[..1] == [ops[0]];
    AppliedConcat(doc, ops[..1], ops[1..]);
  }

  /** A difference under an index out of reach cannot be applied. */
  lemma BeyondReach(doc: Json, p: seq<string>, n: nat, s: Json, t: Json)
    requires Leads(doc, p) && GetChecked(doc, p).value.Arr? && n >= REACH && !Eq(s, t)
    ensures forall v :: Turns(doc, p, Difference(s, t, IndexPath(Text(p), n)), false, v)
  {
    var q := p + [ToDigits(n)];
    TextIndex(p, n);
    DifferenceIsBelow(s, t, q);
    DifferenceNonempty(s, t, Text(q));
    BelowFails(doc, p, n, Difference(s, t, Text(q))[0]);
    AppliedFails(doc, Difference(s, t, Text(q)));
  }

  // ---- Arrays ------------------------------------------------------------------------------------------

  /** The array after its first n elements have been patched. */
  function PatchedTo(a: seq<Json>, b: seq<Json>, n: nat): seq<Json>
    requires n <= |a| && n <= |b|
  {
    seq(n, i requires 0 <= i < n => Patched(a[i], b[i])) + a[n..]
  }

  ghost predicate AllFit(a: seq<Json>, b: seq<Json>, n: nat)
    requires n <= |a| && n <= |b|
  {
    forall i :: 0 <= i < n ==> ElementFits(a, b, i)
  }

  /** More operations after some. */
  lemma TurnsThen(doc: Json, p: seq<string>, ops: seq<Json>, fits: bool, v: Json, more: seq<Json>, fit: bool, w: Json)
    requires Leads(doc, p) && Turns(doc, p, ops, fits, v)
    requires fits ==> Leads(Put(doc, p, v), p) && Turns(Put(doc, p, v), p, more, fit, w)
    ensures Turns(doc, p, ops + more, fits && fit, w)
  {
    assert Opened(doc);
    AppliedConcat(doc, ops, more);
    if fits {
      assert Opened(Put(doc, p, v));
      PutLaws(doc, p, v, w);
    }
  }

  /** What turns a part, turns the whole at the part. */
  lemma TurnsAt(doc: Json, p: seq<string>, x: Json, k: string, ops: seq<Json>, fits: bool, v: Json)
    requires IsAt(doc, p, x) && Leads(x, [k]) && Leads(doc, p + [k]) && Turns(doc, p + [k], ops, fits, v)
    ensures Turns(doc, p, ops, fits, Put(x, [k], v))
  {
    assert Opened(doc);
    PutConcat(doc, p, [k], v);
  }

  lemma NothingTurns(doc: Json, p: seq<string>, x: Json)
    requires IsAt(doc, p, x)
    ensures Turns(doc, p, [], true, x)
  {
    PutLaws(doc, p, x, x);
    assert Applied(doc, []) == Success(Put(doc, p, x));
  }

  lemma ElementAt(doc: Json, p: seq<string>, s: seq<Json>, i: nat, v: Json)
    requires IsAt(doc, p, Arr(s)) && i < |s| && i < REACH
    ensures Leads(Arr(s), [ToDigits(i)]) && IsAt(doc, p + [ToDigits(i)], s[i])
    ensures Put(Arr(s), [ToDigits(i)], v) == Arr(s[i := v])
  {
    IndexOfDigits(i, |s|);
    GetConcat(doc, p, [ToDigits(i)]);
    assert [ToDigits(i)][1..] == [];
  }

  /** One element: the inner difference is applied at its path. */
  lemma {:induction false} ElementTurns(doc: Json, p: seq<string>, source: Json, a: seq<Json>, b: seq<Json>,
                                        c: seq<Json>, i: nat)
    requires source == Arr(a) && i < |a| && i < |b| && IsAt(doc, p, Arr(c)) && |c| == |a| && c[i] == a[i]
    ensures Turns(doc, p, Difference(a[i], b[i], IndexPath(Text(p), i)), ElementFits(a, b, i),
                  Arr(c[i := Patched(a[i], b[i])]))
    decreases source, 1, 0
  {
    if Eq(a[i], b[i]) {
      assert c[i := a[i]] == c;
      NothingTurns(doc, p, Arr(c));
    } else if i >= REACH {
      BeyondReach(doc, p, i, a[i], b[i]);
    } else {
      var q := p + [ToDigits(i)];
      ElementAt(doc, p, c, i, Patched(a[i], b[i]));
      TextIndex(p, i);
      DifferenceTurns(doc, q, a[i], b[i]);
      TurnsAt(doc, p, Arr(c), ToDigits(i), Difference(a[i], b[i], Text(q)), Fits(a[i], b[i]), Patched(a[i], b[i]));
    }
  }

  lemma {:induction false} CommonTurns(doc: Json, p: seq<string>, source: Json, a: seq<Json>, b: seq<Json>, n: nat)
    requires source == Arr(a) && n <= |a| && n <= |b| && IsAt(doc, p, source)
    ensures Turns(doc, p, CommonElements(source, a, b, Text(p), n), AllFit(a, b, n), Arr(PatchedTo(a, b, n)))
    decreases source, 1, n
  {
    if n == 0 {
      assert PatchedTo(a, b, 0) == a;
      NothingTurns(doc, p, source);
    } else {
      var i := n - 1;
      var c := PatchedTo(a, b, i);
      CommonTurns(doc, p, source, a, b, i);
      if AllFit(a, b, i) {
        PutLaws(doc, p, Arr(c), Null);
        ElementTurns(Put(doc, p, Arr(c)), p, source, a, b, c, i);
      }
      TurnsThen(doc, p, CommonElements(source, a, b, Text(p), i), AllFit(a, b, i), Arr(c),
                Difference(a[i], b[i], IndexPath(Text(p), i)), ElementFits(a, b, i), Arr(c[i := Patched(a[i], b[i])]));
      assert c[i := Patched(a[i], b[i])] == PatchedTo(a, b, n);
      assert AllFit(a, b, n) <==> AllFit(a, b, i) && ElementFits(a, b, i);
    }
  }

  lemma {:induction false} RemovalsTurn(doc: Json, p: seq<string>, s: seq<Json>, lo: nat)
    requires IsAt(doc, p, Arr(s)) && lo <= |s|
    ensures Turns(doc, p, Removals(Text(p), lo, |s|), lo == |s| || |s| <= REACH, Arr(s[..lo]))
    decreases |s|
  {
    if lo == |s| {
      assert s[..lo] == s;
      NothingTurns(doc, p, Arr(s));
    } else {
      var n := |s| - 1;
      var first, more, rest := [RemoveAt(IndexPath(Text(p), n))], Removals(Text(p), lo, n), Arr(s[..n]);
      RemoveLast(doc, p, s);
      PutLaws(doc, p, rest, Null);
      RemovalsTurn(Put(doc, p, rest), p, s[..n], lo);
      assert s[..n][..lo] == s[..lo];
      TurnsThen(doc, p, first, n < REACH, rest, more, lo == n || n <= REACH, Arr(s[..lo]));
    }
  }

  /** The array with elements lo to hi of another appended. */
  function Appended(s: seq<Json>, b: seq<Json>, lo: nat, hi: nat): seq<Json>
    requires hi <= |b|
  {
    if hi <= lo then s else Appended(s, b, lo, hi - 1) + [b[hi - 1]]
  }

  lemma {:induction false} AppendedIs(s: seq<Json>, b: seq<Json>, lo: nat, hi: nat)
    requires lo <= hi <= |b|
    ensures Appended(s, b, lo, hi) == s + b[lo..hi]
  {
    if lo < hi {
      AppendedIs(s, b, lo, hi - 1);
      SliceGrows(s, b, lo, hi);
    }
  }

  lemma {:induction false} AdditionsTurn(doc: Json, p: seq<string>, s: seq<Json>, b: seq<Json>, lo: nat, hi: nat)
    requires IsAt(doc, p, Arr(s)) && lo == |s| <= hi <= |b|
    ensures Turns(doc, p, Additions(b, Text(p), lo, hi), lo == hi || hi <= REACH, Arr(Appended(s, b, lo, hi)))
    decreases hi
  {
    if lo == hi {
      NothingTurns(doc, p, Arr(s));
    } else {
      AdditionsTurn(doc, p, s, b, lo, hi - 1);
      AppendedIs(s, b, lo, hi - 1);
      AppendTurns(doc, p, Additions(b, Text(p), lo, hi - 1), lo == hi - 1 || hi - 1 <= REACH,
                  Appended(s, b, lo, hi - 1), b[hi - 1], hi - 1);
    }
  }

  lemma AppendTurns(doc: Json, p: seq<string>, ops: seq<Json>, fits: bool, c: seq<Json>, v: Json, n: nat)
    requires Leads(doc, p) && Turns(doc, p, ops, fits, Arr(c)) && n == |c|
    ensures Turns(doc, p, ops + [AddAt(IndexPath(Text(p), n), v)], fits && n < REACH, Arr(c + [v]))
  {
    PutLaws(doc, p, Arr(c), Null);
    AddLast(Put(doc, p, Arr(c)), p, c, v);
    TurnsThen(doc, p, ops, fits, Arr(c), [AddAt(IndexPath(Text(p), n), v)], n < REACH, Arr(c + [v]));
  }

  // ---- Objects -----------------------------------------------------------------------------------------

  /** The members after the first count of the source's own have been patched or removed. */
  function OwnPatched(m: map<string, Json>, n: map<string, Json>, count: nat): map<string, Json>
    requires count <= |SortedKeys(m.Keys)|
  {
    if count == 0 then m
    else
      var r, k := OwnPatched(m, n, count - 1), SortedKeys(m.Keys)[count - 1];
      if k in n then r[k := Patched(m[k], n[k])] else r - {k}
  }

  ghost predicate Among(keys: seq<string>, count: nat, k: string)
    requires count <= |keys|
  {
    exists i :: 0 <= i < count && keys[i] == k
  }

  lemma {:induction false} OwnPatchedAt(m: map<string, Json>, n: map<string, Json>, count: nat, k: string)
    requires count <= |SortedKeys(m.Keys)|
    ensures Among(SortedKeys(m.Keys), count, k) ==>
      (k in OwnPatched(m, n, count) <==> k in n) && (k in n && k in m ==> OwnPatched(m, n, count)[k] == Patched(m[k], n[k]))
    ensures !Among(SortedKeys(m.Keys), count, k) ==>
      (k in OwnPatched(m, n, count) <==> k in m) && (k in m ==> OwnPatched(m, n, count)[k] == m[k])
  {
    if count > 0 {
      OwnPatchedAt(m, n, count - 1, k);
      var keys := SortedKeys(m.Keys);
      assert keys[count - 1] == k ==> Among(keys, count, k);
      assert Among(keys, count, k) && keys[count - 1] != k ==> Among(keys, count - 1, k);
    }
  }

  /** The keys are different, so the next one has not been touched. */
  lemma NextIsUntouched(m: map<string, Json>, n: map<string, Json>, count: nat)
    requires count < |SortedKeys(m.Keys)|
    ensures var k := SortedKeys(m.Keys)[count]; k in OwnPatched(m, n, count) && OwnPatched(m, n, count)[k] == m[k]
  {
    var keys := SortedKeys(m.Keys);
    OwnPatchedAt(m, n, count, keys[count]);
    forall i | 0 <= i < count
      ensures keys[i] != keys[count]
    {
      KeysDiffer(m.Keys, i, count);
    }
  }

  /** And after the first count members of the target have been added where they were missing. */
  function NewPatched(r: map<string, Json>, m: map<string, Json>, n: map<string, Json>, count: nat): map<string, Json>
    requires count <= |SortedKeys(n.Keys)|
  {
    if count == 0 then r
    else
      var q, k := NewPatched(r, m, n, count - 1), SortedKeys(n.Keys)[count - 1];
      if k in m then q else q[k := n[k]]
  }

  lemma {:induction false} NewPatchedAt(r: map<string, Json>, m: map<string, Json>, n: map<string, Json>, count: nat, k: string)
    requires count <= |SortedKeys(n.Keys)|
    ensures var q := NewPatched(r, m, n, count);
      if Among(SortedKeys(n.Keys), count, k) && k !in m then k in q && k in n && q[k] == n[k]
      else (k in q <==> k in r) && (k in q ==> q[k] == r[k])
  {
    if count > 0 {
      NewPatchedAt(r, m, n, count - 1, k);
      var keys := SortedKeys(n.Keys);
      assert keys[count - 1] == k ==> Among(keys, count, k);
      assert Among(keys, count, k) && keys[count - 1] != k ==> Among(keys, count - 1, k);
    }
  }

  lemma AllAmong(ks: set<string>, k: string)
    ensures Among(SortedKeys(ks), |SortedKeys(ks)|, k) <==> k in ks
  {
    if k in ks { var i := PositionOf(ks, k); }
  }

  lemma MemberPatched(m: map<string, Json>, n: map<string, Json>, k: string)
    ensures var q, e := NewPatched(OwnPatched(m, n, |SortedKeys(m.Keys)|), m, n, |SortedKeys(n.Keys)|), PatchedMembers(Obj(m), m, n);
      (k in q <==> k in e) && (k in q ==> q[k] == e[k])
  {
    OwnPatchedAt(m, n, |SortedKeys(m.Keys)|, k);
    NewPatchedAt(OwnPatched(m, n, |SortedKeys(m.Keys)|), m, n, |SortedKeys(n.Keys)|, k);
    AllAmong(m.Keys, k);
    AllAmong(n.Keys, k);
  }

  /** Both passes together arrive at the patched object. */
  lemma MembersPatched(m: map<string, Json>, n: map<string, Json>)
    ensures NewPatched(OwnPatched(m, n, |SortedKeys(m.Keys)|), m, n, |SortedKeys(n.Keys)|)
         == PatchedMembers(Obj(m), m, n)
  {
    forall k {
      MemberPatched(m, n, k);
    }
    SameMaps(NewPatched(OwnPatched(m, n, |SortedKeys(m.Keys)|), m, n, |SortedKeys(n.Keys)|), PatchedMembers(Obj(m), m, n));
  }

  ghost predicate MembersFit(m: map<string, Json>, n: map<string, Json>, count: nat)
    requires count <= |SortedKeys(m.Keys)|
  {
    forall i :: 0 <= i < count ==> MemberFits(m, n, SortedKeys(m.Keys)[i])
  }

  ghost predicate MemberFits(m: map<string, Json>, n: map<string, Json>, k: string) {
    k in m && k in n ==> Fits(m[k], n[k])
  }

  lemma MemberAt(doc: Json, p: seq<string>, m: map<string, Json>, k: string, v: Json)
    requires IsAt(doc, p, Obj(m)) && k in m
    ensures Leads(Obj(m), [k]) && IsAt(doc, p + [k], m[k]) && Put(Obj(m), [k], v) == Obj(m[k := v])
  {
    GetConcat(doc, p, [k]);
    assert [k][1..] == [];
  }

  /** One member of the source: the inner difference at its path, or the removal. */
  lemma {:induction false} MemberTurns(doc: Json, p: seq<string>, source: Json, m: map<string, Json>,
                                       n: map<string, Json>, r: map<string, Json>, k: string)
    requires source == Obj(m) && k in m && k in r && r[k] == m[k] && IsAt(doc, p, Obj(r))
    ensures Turns(doc, p, OwnMember(source, m, n, Text(p), k), MemberFits(m, n, k),
                  Obj(if k in n then r[k := Patched(m[k], n[k])] else r - {k}))
    decreases source, 0, 0
  {
    if k in n {
      MemberAt(doc, p, r, k, Patched(m[k], n[k]));
      TextAppend(p, k);
      DifferenceTurns(doc, p + [k], m[k], n[k]);
      TurnsAt(doc, p, Obj(r), k, Difference(m[k], n[k], Text(p + [k])), Fits(m[k], n[k]), Patched(m[k], n[k]));
    } else {
      RemoveMember(doc, p, r, k);
    }
  }

  lemma {:induction false} OwnTurn(doc: Json, p: seq<string>, source: Json, m: map<string, Json>,
                                   n: map<string, Json>, count: nat)
    requires source == Obj(m) && count <= |SortedKeys(m.Keys)| && IsAt(doc, p, source)
    ensures Turns(doc, p, OwnMembers(source, m, n, Text(p), count), MembersFit(m, n, count), Obj(OwnPatched(m, n, count)))
    decreases source, 1, count
  {
    if count == 0 {
      NothingTurns(doc, p, source);
    } else {
      var k, r := SortedKeys(m.Keys)[count - 1], Obj(OwnPatched(m, n, count - 1));
      var ops, more := OwnMembers(source, m, n, Text(p), count - 1), OwnMember(source, m, n, Text(p), k);
      OwnTurn(doc, p, source, m, n, count - 1);
      PutLaws(doc, p, r, Null);
      NextIsUntouched(m, n, count - 1);
      MemberTurns(Put(doc, p, r), p, source, m, n, r.members, k);
      TurnsThen(doc, p, ops, MembersFit(m, n, count - 1), r, more, MemberFits(m, n, k), Obj(OwnPatched(m, n, count)));
      MembersFitStep(m, n, count - 1);
    }
  }

  lemma MembersFitStep(m: map<string, Json>, n: map<string, Json>, count: nat)
    requires count < |SortedKeys(m.Keys)|
    ensures MembersFit(m, n, count + 1) <==> MembersFit(m, n, count) && MemberFits(m, n, SortedKeys(m.Keys)[count])
  {
  }

  lemma {:induction false} NewTurn(doc: Json, p: seq<string>, r: map<string, Json>, m: map<string, Json>,
                                   n: map<string, Json>, count: nat)
    requires count <= |SortedKeys(n.Keys)| && IsAt(doc, p, Obj(r))
    ensures Turns(doc, p, NewMembers(m, n, Text(p), count), true, Obj(NewPatched(r, m, n, count)))
  {
    if count == 0 {
      NothingTurns(doc, p, Obj(r));
    } else {
      var k, q := SortedKeys(n.Keys)[count - 1], NewPatched(r, m, n, count - 1);
      NewTurn(doc, p, r, m, n, count - 1);
      PutLaws(doc, p, Obj(q), Null);
      if k in m {
        NothingTurns(Put(doc, p, Obj(q)), p, Obj(q));
      } else {
        AddMember(Put(doc, p, Obj(q)), p, q, k, n[k]);
      }
      TurnsThen(doc, p, NewMembers(m, n, Text(p), count - 1), true, Obj(q), NewMember(m, n, Text(p), k), true,
                Obj(NewPatched(r, m, n, count)));
    }
  }

  // ---- The theorem -------------------------------------------------------------------------------------

  predicate SizesFit(a: seq<Json>, b: seq<Json>) { |a| == |b| || (|a| <= REACH && |b| <= REACH) }

  lemma {:induction false} ArrayTurns(doc: Json, p: seq<string>, s: Json, a: seq<Json>, b: seq<Json>)
    requires s == Arr(a) && IsAt(doc, p, s) && !Eq(s, Arr(b))
    ensures Turns(doc, p, Difference(s, Arr(b), Text(p)), Fits(s, Arr(b)), Patched(s, Arr(b)))
    decreases s, 1, |a| + 1
  {
    var n := if |a| < |b| then |a| else |b|;
    var c, end := PatchedTo(a, b, n), Patched(s, Arr(b));
    var common, rest := CommonElements(s, a, b, Text(p), n), Removals(Text(p), n, |a|) + Additions(b, Text(p), n, |b|);
    ArrayEnd(a, b, n);
    CommonTurns(doc, p, s, a, b, n);
    PutLaws(doc, p, Arr(c), Null);
    RestTurns(Put(doc, p, Arr(c)), p, c, b, n);
    TurnsThen(doc, p, common, AllFit(a, b, n), Arr(c), rest, SizesFit(a, b), end);
    Associative(common, Removals(Text(p), n, |a|), Additions(b, Text(p), n, |b|));
  }

  lemma ArrayEnd(a: seq<Json>, b: seq<Json>, n: nat)
    requires n == if |a| < |b| then |a| else |b|
    requires !Eq(Arr(a), Arr(b))
    ensures Arr(PatchedTo(a, b, n)[..n] + b[n..]) == Patched(Arr(a), Arr(b))
    ensures Fits(Arr(a), Arr(b)) <==> AllFit(a, b, n) && SizesFit(a, b)
  {
    assert PatchedTo(a, b, n)[..n] + b[n..] == Patched(Arr(a), Arr(b)).elems;
    if AllFit(a, b, n) {
      forall i | 0 <= i < |a| && i < |b|
        ensures Eq(a[i], b[i]) || (i < REACH && Fits(a[i], b[i]))
      {
        assert ElementFits(a, b, i);
      }
    }
  }

  /** The elements that only one of the arrays has. */
  lemma RestTurns(doc: Json, p: seq<string>, c: seq<Json>, b: seq<Json>, n: nat)
    requires IsAt(doc, p, Arr(c)) && n == if |c| < |b| then |c| else |b|
    ensures Turns(doc, p, Removals(Text(p), n, |c|) + Additions(b, Text(p), n, |b|),
                  SizesFit(c, b), Arr(c[..n] + b[n..]))
  {
    var removals, additions := Removals(Text(p), n, |c|), Additions(b, Text(p), n, |b|);
    RemovalsTurn(doc, p, c, n);
    PutLaws(doc, p, Arr(c[..n]), Null);
    AdditionsTurn(Put(doc, p, Arr(c[..n])), p, c[..n], b, n, |b|);
    AppendedIs(c[..n], b, n, |b|);
    assert b[n..|b|] == b[n..];
    TurnsThen(doc, p, removals, n == |c| || |c| <= REACH, Arr(c[..n]), additions, n == |b| || |b| <= REACH,
              Arr(c[..n] + b[n..]));
  }

  lemma {:induction false} ObjectTurns(doc: Json, p: seq<string>, s: Json, m: map<string, Json>, n: map<string, Json>)
    requires s == Obj(m) && IsAt(doc, p, s) && !Eq(s, Obj(n))
    ensures Turns(doc, p, Difference(s, Obj(n), Text(p)), Fits(s, Obj(n)), Patched(s, Obj(n)))
    decreases s, 1, |SortedKeys(m.Keys)| + 1
  {
    var own, added := OwnMembers(s, m, n, Text(p), |SortedKeys(m.Keys)|), NewMembers(m, n, Text(p), |SortedKeys(n.Keys)|);
    var r := OwnPatched(m, n, |SortedKeys(m.Keys)|);
    OwnTurn(doc, p, s, m, n, |SortedKeys(m.Keys)|);
    MembersFitAll(m, n);
    MembersPatched(m, n);
    PutLaws(doc, p, Obj(r), Null);
    NewTurn(Put(doc, p, Obj(r)), p, r, m, n, |SortedKeys(n.Keys)|);
    TurnsThen(doc, p, own, MembersFit(m, n, |SortedKeys(m.Keys)|), Obj(r), added, true, Patched(s, Obj(n)));
  }

  lemma MembersFitAll(m: map<string, Json>, n: map<string, Json>)
    ensures MembersFit(m, n, |SortedKeys(m.Keys)|) <==> forall k :: k in m && k in n ==> Fits(m[k], n[k])
  {
    SortedKeysAscend(m.Keys);
    if MembersFit(m, n, |SortedKeys(m.Keys)|) {
      forall k | k in m && k in n
        ensures Fits(m[k], n[k])
      {
        var i := PositionOf(m.Keys, k);
        assert MemberFits(m, n, SortedKeys(m.Keys)[i]);
      }
    }
  }

  /** The difference of a part, applied to the whole at the path of the part, changes that part into the
      patched one, which is the target up to the signedness of numbers, and leaves the rest; or it fails, exactly
      when the part does not fit. */
  lemma {:induction false} DifferenceTurns(doc: Json, p: seq<string>, s: Json, t: Json)
    requires IsAt(doc, p, s)
    ensures Turns(doc, p, Difference(s, t, Text(p)), Fits(s, t), Patched(s, t))
    ensures Signed(Patched(s, t)) == Signed(t)
    decreases s, 2, 0
  {
    PatchedIsSigned(s, t);
    if Eq(s, t) {
      NothingTurns(doc, p, s);
    } else if !SameType(s, t) {
      ReplaceApplies(doc, p, t);
    } else {
      match s
      case Arr(a) => ArrayTurns(doc, p, s, a, t.elems);
      case Obj(m) => ObjectTurns(doc, p, s, m, t.members);
      case _ => ReplaceApplies(doc, p, t);
    }
  }

  /** Applying the difference gives a value equal to the target exactly when no difference lies out of the
      reach of an index; otherwise it fails. */
  lemma PatchUndoesDiffIff(s: Json, t: Json)
    ensures var r := Applied(s, Difference(s, t, ""));
      && (Fits(s, t) <==> r.Success?)
      && (r.Success? ==> Eq(r.value, t) && Signed(r.value) == Signed(t))
  {
    assert Text([]) == "";
    DifferenceTurns(s, [], s, t);
    assert Opened(s);
    PatchedIsTarget(s, t);
  }

  /** Without unsigned numbers the patched value is the target itself. */
  lemma PatchGivesTarget(s: Json, t: Json)
    requires NoUnsigned(s) && NoUnsigned(t) && Fits(s, t)
    ensures Applied(s, Difference(s, t, "")) == Success(t)
  {
    PatchUndoesDiffIff(s, t);
    SignedKeeps(t);
    PatchedHasNoUnsigned(s, t);
    SignedKeeps(Patched(s, t));
    PatchedIsSigned(s, t);
    assert Text([]) == "";
    DifferenceTurns(s, [], s, t);
    assert Opened(s);
  }

  lemma {:induction false} PatchedHasNoUnsigned(s: Json, t: Json)
    requires NoUnsigned(s) && NoUnsigned(t)
    ensures NoUnsigned(Patched(s, t))
    decreases s
  {
    if !Eq(s, t) && SameType(s, t) {
      match s
      case Arr(a) =>
        forall i | 0 <= i < |a| && i < |t.elems|
          ensures NoUnsigned(Patched(a[i], t.elems[i]))
        {
          PatchedHasNoUnsigned(a[i], t.elems[i]);
        }
      case Obj(m) =>
        forall k | k in m && k in t.members
          ensures NoUnsigned(Patched(m[k], t.members[k]))
        {
          PatchedHasNoUnsigned(m[k], t.members[k]);
        }
      case _ =>
    }
  }

  /** An array too long to be emptied by its own difference. */
  lemma LongArrayIsNotEmptied()
    ensures var s := Arr(seq(REACH + 1, _ => Null));
      Applied(s, Difference(s, Arr([]), "")).Failure?
  {
    var s := Arr(seq(REACH + 1, _ => Null));
    assert |s.elems| == REACH + 1 && !Fits(s, Arr([]));
    PatchUndoesDiffIff(s, Arr([]));
  }
}
