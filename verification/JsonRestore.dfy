/** When building up undoes flattening: what the value looks like after some of its leaves have been
    entered, and which leaf must not come first. Entering the next leaf either adds it, and nothing else, or
    goes wrong for good; the order of the leaves is that of their texts, so it is known beforehand which
    of the two happens. */
module JsonRestore {
  import opened Collections
  import opened Decimal
  import opened JsonAccess
  import opened JsonFlatten
  import opened JsonPointer
  import opened JsonValue
  import opened Wrappers

  /** No array and no object in the value is empty. */
  ghost predicate NoEmpties(v: Json) {
    match v
    case Arr(s) => s != [] && forall i :: 0 <= i < |s| ==> NoEmpties(s[i])
    case Obj(m) => m.Keys != {} && forall k :: k in m ==> NoEmpties(m[k])
    case _ => true
  }

  lemma ChildHasNoEmpties(v: Json, k: string)
    requires NoEmpties(v) && HasChild(v, k)
    ensures NoEmpties(ChildOf(v, k))
  {
    match v
    case Arr(s) => var i :| 0 <= i < |s| && ToDigits(i) == k && ChildOf(v, k) == s[i];
    case Obj(m) =>
  }

  /** The entered leaves that lie under a child, seen from there. */
  ghost function Sub(S: set<Path>, k: string): set<Path> {
    set q | q in S && q != [] && q[0] == k :: q[1..]
  }

  lemma SubHas(S: set<Path>, k: string, q: Path)
    ensures q in Sub(S, k) <==> [k] + q in S
  {
    assert ([k] + q)[1..] == q;
    if q in Sub(S, k) {
      var r :| r in S && r != [] && r[0] == k && r[1..] == q;
      assert r == [k] + q;
    }
  }

  lemma SubGrows(S: set<Path>, p: Path, k: string)
    requires p != []
    ensures Sub(S + {p}, k) == if p[0] == k then Sub(S, k) + {p[1..]} else Sub(S, k)
  {
    forall q
      ensures q in Sub(S + {p}, k) <==> q in Sub(S, k) || (p[0] == k && q == p[1..])
    {
      SubHas(S, k, q);
      SubHas(S + {p}, k, q);
      assert [k] + q == p <==> p[0] == k && q == p[1..];
    }
  }

  /** The value after exactly the leaves in S have been entered. */
  ghost predicate Partial(d: Json, v: Json, S: set<Path>)
    decreases v, 1
  {
    if S == {} then d == Null
    else match v
      case Arr(s) => d.Arr? && |d.elems| <= |s| && forall i :: 0 <= i < |s| ==> PartialAt(d.elems, s, S, i)
      case Obj(m) => d.Obj? && forall k :: PartialIn(d.members, v, m, S, k)
      case _ => d == v
  }

  ghost predicate PartialAt(t: seq<Json>, s: seq<Json>, S: set<Path>, i: nat)
    requires i < |s|
    decreases s[i], 2
  {
    if i < |t| then Partial(t[i], s[i], Sub(S, ToDigits(i))) else Sub(S, ToDigits(i)) == {}
  }

  ghost predicate PartialIn(r: map<string, Json>, v: Json, m: map<string, Json>, S: set<Path>, k: string)
    requires v == Obj(m)
    decreases v, 0
  {
    && (k in r <==> k in m && Sub(S, k) != {})
    && (k in r && k in m ==> Partial(r[k], m[k], Sub(S, k)))
  }

  /** An object stands where an array should, or an array where an object should. */
  ghost predicate Wrong(d: Json, v: Json)
    decreases v
  {
    match (d, v)
    case (Obj(_), Arr(_)) => true
    case (Arr(_), Obj(_)) => true
    case (Arr(t), Arr(s)) => exists i :: 0 <= i < |t| && i < |s| && Wrong(t[i], s[i])
    case (Obj(r), Obj(m)) => exists k :: k in r && k in m && Wrong(r[k], m[k])
    case _ => false
  }

  lemma {:induction false} WrongIsNot(v: Json)
    ensures !Wrong(v, v)
  {
    match v
    case Arr(s) => forall i | 0 <= i < |s| ensures !Wrong(s[i], s[i]) { WrongIsNot(s[i]); }
    case Obj(m) => forall k | k in m ensures !Wrong(m[k], m[k]) { WrongIsNot(m[k]); }
    case _ =>
  }

  /** Where nothing has been entered yet, the first token must be 0 in an array and must not be in an object;
      and an index must be one that std::stoi can read. */
  ghost predicate OkNext(v: Json, S: set<Path>, p: Path)
    requires IsLeaf(v, p)
    decreases p
  {
    || p == []
    || (&& (if S == {} then (v.Arr? <==> p[0] == "0") else (v.Arr? ==> Stoi(p[0]).Success?))
        && OkNext(ChildOf(v, p[0]), Sub(S, p[0]), p[1..]))
  }

  // ---- Entering one leaf -------------------------------------------------------------------------------

  ghost predicate AllLeaves(S: set<Path>, v: Json) {
    forall q :: q in S ==> IsLeaf(v, q)
  }

  lemma SubLeaves(S: set<Path>, v: Json, k: string)
    requires AllLeaves(S, v) && HasChild(v, k)
    ensures AllLeaves(Sub(S, k), ChildOf(v, k))
  {
    forall q | q in Sub(S, k)
      ensures IsLeaf(ChildOf(v, k), q)
    {
      SubHas(S, k, q);
      assert ([k] + q)[1..] == q;
      assert IsLeaf(v, [k] + q);
    }
  }

  /** How entering a leaf turns out: as it should, or not at all, or wrong. */
  ghost predicate Enters(r: Result<Json, JsonError>, v: Json, S: set<Path>, p: Path, ok: bool) {
    if ok then r.Success? && Partial(r.value, v, S + {p}) else r.Failure? || Wrong(r.value, v)
  }

  /** The first leaf of an array, once it has been entered in its element. */
  lemma ArrFirst(v: Json, s: seq<Json>, p: Path, i: nat, y: Result<Json, JsonError>, ok: bool)
    requires v == Arr(s) && i < |s| && p != [] && p[0] == ToDigits(i) && Enters(y, s[i], {}, p[1..], ok)
    requires IsLeaf(v, p) && ChildOf(v, p[0]) == s[i] && y == CreatePut(Null, p[1..], LeafValue(s[i], p[1..]))
    ensures Enters(CreatePut(Null, p, LeafValue(v, p)), v, {}, p, p[0] == "0" && ok)
  {
    assert ToDigits(0) == "0";
    if p[0] == "0" {
      DigitsInjective(0, i);
      if ok {
        var t := [y.value];
        forall j | 0 <= j < |s|
          ensures PartialAt(t, s, {p}, j)
        {
          assert {} + {p} == {p} && Sub({}, ToDigits(j)) == {};
          SubGrows({}, p, ToDigits(j));
          DigitsInjectiveAll(0, j);
        }
        assert {} + {p} == {p} && {} + {p[1..]} == {p[1..]};
      }
    }
  }

  lemma DigitsInjectiveAll(i: nat, j: nat)
    ensures ToDigits(i) == ToDigits(j) <==> i == j
  {
    if ToDigits(i) == ToDigits(j) { DigitsInjective(i, j); }
  }

  /** The first leaf of an object, once it has been entered in its member. */
  lemma ObjFirst(v: Json, m: map<string, Json>, p: Path, y: Result<Json, JsonError>, ok: bool)
    requires v == Obj(m) && p != [] && p[0] in m && Enters(y, m[p[0]], {}, p[1..], ok)
    requires IsLeaf(v, p) && y == CreatePut(Null, p[1..], LeafValue(m[p[0]], p[1..]))
    ensures Enters(CreatePut(Null, p, LeafValue(v, p)), v, {}, p, p[0] != "0" && ok)
  {
    if p[0] != "0" && ok {
      var r := map[p[0] := y.value];
      assert {} + {p} == {p} && {} + {p[1..]} == {p[1..]};
      forall k
        ensures PartialIn(r, v, m, {p}, k)
      {
        assert Sub({}, k) == {};
        SubGrows({}, p, k);
      }
    }
  }

  /** A later leaf of an array. */
  lemma ArrNext(d: Json, t: seq<Json>, v: Json, s: seq<Json>, S: set<Path>, p: Path, i: nat, y: Result<Json, JsonError>, ok: bool)
    requires v == Arr(s) && d == Arr(t) && S != {} && Partial(d, v, S) && i < |s| && i < 0x8000_0000
    requires p != [] && p[0] == ToDigits(i) && IsLeaf(v, p) && ChildOf(v, p[0]) == s[i]
    requires y == CreatePut(Filled(t, i + 1)[i], p[1..], LeafValue(s[i], p[1..]))
    requires Enters(y, s[i], Sub(S, p[0]), p[1..], ok)
    ensures Enters(CreatePut(d, p, LeafValue(v, p)), v, S, p, ok)
  {
    StoiOfDigits(i);
    if ok {
      var t' := Filled(t, i + 1)[i := y.value];
      forall j | 0 <= j < |s|
        ensures PartialAt(t', s, S + {p}, j)
      {
        SubGrows(S, p, ToDigits(j));
        DigitsInjectiveAll(i, j);
        assert PartialAt(t, s, S, j);
      }
    }
  }

  /** A later leaf of an object. */
  lemma ObjNext(d: Json, r: map<string, Json>, v: Json, m: map<string, Json>, S: set<Path>, p: Path, y: Result<Json, JsonError>, ok: bool)
    requires v == Obj(m) && d == Obj(r) && S != {} && Partial(d, v, S)
    requires p != [] && p[0] in m && IsLeaf(v, p)
    requires y == CreatePut(if p[0] in r then r[p[0]] else Null, p[1..], LeafValue(m[p[0]], p[1..]))
    requires Enters(y, m[p[0]], Sub(S, p[0]), p[1..], ok)
    ensures Enters(CreatePut(d, p, LeafValue(v, p)), v, S, p, ok)
  {
    if ok {
      var r' := r[p[0] := y.value];
      forall k
        ensures PartialIn(r', v, m, S + {p}, k)
      {
        SubGrows(S, p, k);
        assert PartialIn(r, v, m, S, k);
      }
    }
  }

  /** Entering a leaf that has not been entered goes well exactly when it may come next. */
  lemma {:induction false} Enter(d: Json, v: Json, S: set<Path>, p: Path)
    requires NoEmpties(v) && IsLeaf(v, p) && p !in S && AllLeaves(S, v) && Partial(d, v, S)
    ensures Enters(CreatePut(d, p, LeafValue(v, p)), v, S, p, OkNext(v, S, p))
    decreases p
  {
    if p == [] {
      LeafOnly(S, v);
    } else {
      var k, q := p[0], p[1..];
      var c, T := ChildOf(v, k), Sub(S, k);
      ChildHasNoEmpties(v, k);
      SubLeaves(S, v, k);
      SubHas(S, k, q);
      assert [k] + q == p;
      var e := Place(d, v, S, k);
      Enter(e, c, T, q);
      match v
      case Arr(s) => EnterArr(d, v, s, S, p, e);
      case Obj(m) => EnterObj(d, v, m, S, p, e);
      case _ =>
    }
  }

  lemma LeafOnly(S: set<Path>, v: Json)
    requires AllLeaves(S, v) && Primitive(v) && [] !in S
    ensures S == {}
  {
    assert forall q :: q in S ==> IsLeaf(v, q) && q == [];
  }

  /** What is now at the place of a child, and what will be entered into. */
  lemma Place(d: Json, v: Json, S: set<Path>, k: string) returns (e: Json)
    requires HasChild(v, k) && Partial(d, v, S)
    ensures Partial(e, ChildOf(v, k), Sub(S, k))
    ensures e == match d
      case Arr(t) => if v.Arr? then PlaceIn(t, v.elems, k) else Null
      case Obj(r) => if k in r then r[k] else Null
      case _ => Null
  {
    if S == {} {
      e := Null;
      assert Sub(S, k) == {};
    } else {
      match v
      case Arr(s) =>
        var i :| 0 <= i < |s| && ToDigits(i) == k;
        ChildAt(s, i);
        PlaceInIs(d.elems, s, i);
        e := PlaceIn(d.elems, s, k);
        assert PartialAt(d.elems, s, S, i);
      case Obj(m) =>
        e := if k in d.members then d.members[k] else Null;
        assert PartialIn(d.members, v, m, S, k);
    }
  }

  ghost function PlaceIn(t: seq<Json>, s: seq<Json>, k: string): Json
    requires HasChild(Arr(s), k)
  {
    var i :| 0 <= i < |s| && ToDigits(i) == k;
    if i < |t| then t[i] else Null
  }

  lemma PlaceInIs(t: seq<Json>, s: seq<Json>, i: nat)
    requires i < |s|
    ensures HasChild(Arr(s), ToDigits(i)) && PlaceIn(t, s, ToDigits(i)) == if i < |t| then t[i] else Null
  {
    var j :| 0 <= j < |s| && ToDigits(j) == ToDigits(i) && PlaceIn(t, s, ToDigits(i)) == if j < |t| then t[j] else Null;
    DigitsInjective(i, j);
  }

  lemma EnterArr(d: Json, v: Json, s: seq<Json>, S: set<Path>, p: Path, e: Json)
    requires v == Arr(s) && p != [] && IsLeaf(v, p) && Partial(d, v, S)
    requires e == if d.Arr? then PlaceIn(d.elems, s, p[0]) else Null
    requires var c := ChildOf(v, p[0]);
      Enters(CreatePut(e, p[1..], LeafValue(c, p[1..])), c, Sub(S, p[0]), p[1..], OkNext(c, Sub(S, p[0]), p[1..]))
    ensures Enters(CreatePut(d, p, LeafValue(v, p)), v, S, p, OkNext(v, S, p))
  {
    var c, q := ChildOf(v, p[0]), p[1..];
    var i :| 0 <= i < |s| && ToDigits(i) == p[0];
    ChildAt(s, i);
    StoiOfDigits(i);
    var y, ok := CreatePut(e, q, LeafValue(c, q)), OkNext(c, Sub(S, p[0]), q);
    if S == {} {
      assert Sub(S, p[0]) == {};
      ArrFirst(v, s, p, i, y, ok);
    } else if i < 0x8000_0000 {
      PlaceInIs(d.elems, s, i);
      ArrNext(d, d.elems, v, s, S, p, i, y, ok);
    }
  }

  lemma EnterObj(d: Json, v: Json, m: map<string, Json>, S: set<Path>, p: Path, e: Json)
    requires v == Obj(m) && p != [] && IsLeaf(v, p) && Partial(d, v, S)
    requires e == if d.Obj? && p[0] in d.members then d.members[p[0]] else Null
    requires var c := ChildOf(v, p[0]);
      Enters(CreatePut(e, p[1..], LeafValue(c, p[1..])), c, Sub(S, p[0]), p[1..], OkNext(c, Sub(S, p[0]), p[1..]))
    ensures Enters(CreatePut(d, p, LeafValue(v, p)), v, S, p, OkNext(v, S, p))
  {
    var c, q := m[p[0]], p[1..];
    var y, ok := CreatePut(e, q, LeafValue(c, q)), OkNext(c, Sub(S, p[0]), q);
    if S == {} {
      assert Sub(S, p[0]) == {};
      ObjFirst(v, m, p, y, ok);
    } else {
      ObjNext(d, d.members, v, m, S, p, y, ok);
    }
  }

  /** Once it has gone wrong it stays wrong, or fails. */
  lemma {:induction false} WrongStays(d: Json, v: Json, p: Path, w: Json)
    requires NoEmpties(v) && IsLeaf(v, p) && Wrong(d, v)
    ensures var r := CreatePut(d, p, w); r.Failure? || Wrong(r.value, v)
    decreases p
  {
    var k := p[0];
    ChildHasNoEmpties(v, k);
    match v
    case Arr(s) => if d.Arr? { WrongStaysArr(d, d.elems, v, s, p, w); }
    case Obj(m) => if d.Obj? { WrongStaysObj(d, d.members, v, m, p, w); }
  }

  lemma {:induction false} WrongStaysArr(d: Json, t: seq<Json>, v: Json, s: seq<Json>, p: Path, w: Json)
    requires v == Arr(s) && d == Arr(t) && Wrong(d, v) && NoEmpties(v) && IsLeaf(v, p) && p != []
    requires NoEmpties(ChildOf(v, p[0]))
    ensures var r := CreatePut(d, p, w); r.Failure? || Wrong(r.value, v)
    decreases p, 0
  {
    var i :| 0 <= i < |s| && ToDigits(i) == p[0];
    var j :| 0 <= j < |t| && j < |s| && Wrong(t[j], s[j]);
    StoiOfDigits(i);
    ChildAt(s, i);
    if i == j { WrongStays(t[i], s[i], p[1..], w); }
    var r := CreatePut(d, p, w);
    if r.Success? { assert Wrong(r.value.elems[j], s[j]); }
  }

  lemma {:induction false} WrongStaysObj(d: Json, q: map<string, Json>, v: Json, m: map<string, Json>, p: Path, w: Json)
    requires v == Obj(m) && d == Obj(q) && Wrong(d, v) && NoEmpties(v) && IsLeaf(v, p) && p != []
    requires NoEmpties(ChildOf(v, p[0]))
    ensures var r := CreatePut(d, p, w); r.Failure? || Wrong(r.value, v)
    decreases p, 0
  {
    var k :| k in q && k in m && Wrong(q[k], m[k]);
    if k == p[0] { WrongStays(q[k], m[k], p[1..], w); }
    var r := CreatePut(d, p, w);
    if r.Success? { assert Wrong(r.value.members[k], m[k]); }
  }

  // ---- All leaves --------------------------------------------------------------------------------------

  lemma {:induction false} SomeLeaf(v: Json) returns (p: Path)
    ensures IsLeaf(v, p)
  {
    if Primitive(v) || EmptyContainer(v) {
      p := [];
    } else {
      match v
      case Arr(s) =>
        var q := SomeLeaf(s[0]);
        ChildAt(s, 0);
        p := [ToDigits(0)] + q;
      case Obj(m) =>
        var k := Nonempty(m.Keys);
        var q := SomeLeaf(m[k]);
        p := [k] + q;
    }
  }

  ghost predicate SameElement(t: seq<Json>, s: seq<Json>, i: nat) { i < |t| && i < |s| && t[i] == s[i] }

  /** With all leaves entered the value is complete. */
  lemma {:induction false} Complete(d: Json, v: Json, S: set<Path>)
    requires NoEmpties(v) && Partial(d, v, S) && forall q :: q in S <==> IsLeaf(v, q)
    ensures d == v
    decreases v
  {
    var p := SomeLeaf(v);
    assert p in S;
    match v
    case Arr(s) =>
      forall i | 0 <= i < |s|
        ensures SameElement(d.elems, s, i)
      {
        ChildAt(s, i);
        SubOfAll(v, S, ToDigits(i));
        assert PartialAt(d.elems, s, S, i);
        var q := SomeLeaf(s[i]);
        assert q in Sub(S, ToDigits(i));
        Complete(d.elems[i], s[i], Sub(S, ToDigits(i)));
      }
      assert SameElement(d.elems, s, |s| - 1);
      forall i | 0 <= i < |s|
        ensures d.elems[i] == s[i]
      {
        assert SameElement(d.elems, s, i);
      }
      assert d.elems == s;
    case Obj(m) =>
      forall k
        ensures (k in d.members <==> k in m) && (k in m ==> d.members[k] == m[k])
      {
        assert PartialIn(d.members, v, m, S, k);
        if k in m {
          SubOfAll(v, S, k);
          var q := SomeLeaf(m[k]);
          assert q in Sub(S, k);
          Complete(d.members[k], m[k], Sub(S, k));
        }
      }
      assert d.members == m;
    case _ =>
  }

  lemma SubOfAll(v: Json, S: set<Path>, k: string)
    requires HasChild(v, k) && forall q :: q in S <==> IsLeaf(v, q)
    ensures forall q :: q in Sub(S, k) <==> IsLeaf(ChildOf(v, k), q)
  {
    forall q
      ensures q in Sub(S, k) <==> IsLeaf(ChildOf(v, k), q)
    {
      SubHas(S, k, q);
      assert ([k] + q)[1..] == q;
      assert [k] + q in S <==> IsLeaf(v, [k] + q);
    }
  }

  // ---- The run -----------------------------------------------------------------------------------------

  ghost predicate Leaves(v: Json, ps: seq<Path>) {
    forall i :: 0 <= i < |ps| ==> IsLeaf(v, ps[i])
  }

  ghost predicate InOrder(ps: seq<Path>) {
    forall i, j :: 0 <= i < j < |ps| ==> Less(Text(ps[i]), Text(ps[j]))
  }

  ghost predicate NoRepeats(ps: seq<Path>) {
    forall i, j :: 0 <= i < j < |ps| ==> ps[i] != ps[j]
  }

  /** The value after some leaves have been entered one after the other. */
  ghost function Run(v: Json, ps: seq<Path>): Result<Json, JsonError>
    requires Leaves(v, ps)
  {
    if ps == [] then Success(Null)
    else
      var d :- Run(v, ps[..|ps| - 1]);
      CreatePut(d, ps[|ps| - 1], LeafValue(v, ps[|ps| - 1]))
  }

  ghost function Visited(ps: seq<Path>): set<Path> {
    if ps == [] then {} else Visited(ps[..|ps| - 1]) + {ps[|ps| - 1]}
  }

  lemma {:induction false} VisitedHas(ps: seq<Path>, q: Path)
    ensures q in Visited(ps) <==> q in ps
  {
    if ps != [] {
      VisitedHas(ps[..|ps| - 1], q);
      assert ps == ps[..|ps| - 1] + [ps[|ps| - 1]];
    }
  }

  /** Every leaf came when it could. */
  ghost predicate AllOk(v: Json, ps: seq<Path>)
    requires Leaves(v, ps)
  {
    ps == [] || (AllOk(v, ps[..|ps| - 1]) && OkNext(v, Visited(ps[..|ps| - 1]), ps[|ps| - 1]))
  }

  ghost predicate Opened(v: Json) { true }

  /** The trigger keeps the definition out of proofs that only pass the statement on. */
  ghost predicate Outcome(r: Result<Json, JsonError>, v: Json, S: set<Path>, ok: bool) {
    forall x {:trigger Opened(x)} :: x == v ==>
      if ok then r.Success? && Partial(r.value, x, S) else r.Failure? || Wrong(r.value, x)
  }

  lemma NothingYet(v: Json)
    ensures Outcome(Success(Null), v, {}, true)
  {
    var S: set<Path>, d := {}, Null;
    assert Partial(d, v, S);
  }

  lemma NextLeaf(v: Json, r: Result<Json, JsonError>, S: set<Path>, ok: bool, p: Path)
    requires NoEmpties(v) && AllLeaves(S, v) && IsLeaf(v, p) && p !in S && Outcome(r, v, S, ok)
    ensures Outcome(if r.Failure? then r else CreatePut(r.value, p, LeafValue(v, p)), v, S + {p}, ok && OkNext(v, S, p))
  {
    assert Opened(v);
    if r.Success? {
      if ok {
        Enter(r.value, v, S, p);
      } else {
        WrongStays(r.value, v, p, LeafValue(v, p));
      }
    }
  }

  /** As it should be if all of them came when they could, and wrong or failed otherwise. */
  lemma {:induction false} RunsTo(v: Json, ps: seq<Path>)
    requires NoEmpties(v) && Leaves(v, ps) && NoRepeats(ps)
    ensures Outcome(Run(v, ps), v, Visited(ps), AllOk(v, ps))
  {
    if ps == [] {
      NothingYet(v);
    } else {
      var init, p := ps[..|ps| - 1], ps[|ps| - 1];
      RunsTo(v, init);
      VisitedHas(init, p);
      VisitedLeaves(v, init);
      NextLeaf(v, Run(v, init), Visited(init), AllOk(v, init), p);
    }
  }

  lemma VisitedLeaves(v: Json, ps: seq<Path>)
    requires Leaves(v, ps)
    ensures AllLeaves(Visited(ps), v)
  {
    forall q | q in Visited(ps)
      ensures IsLeaf(v, q)
    {
      VisitedHas(ps, q);
    }
  }

  ghost predicate AllThere(v: Json, ps: seq<Path>) {
    forall q :: IsLeaf(v, q) ==> q in ps
  }

  /** A run over all leaves gives the value back exactly when every leaf came when it could. */
  lemma RunRestoresIff(v: Json, ps: seq<Path>)
    requires NoEmpties(v) && Leaves(v, ps) && NoRepeats(ps) && AllThere(v, ps)
    ensures Run(v, ps) == Success(v) <==> AllOk(v, ps)
  {
    RunsTo(v, ps);
    assert Opened(v);
    WrongIsNot(v);
    if AllOk(v, ps) {
      forall q
        ensures q in Visited(ps) <==> IsLeaf(v, q)
      {
        VisitedHas(ps, q);
      }
      Complete(Run(v, ps).value, v, Visited(ps));
    }
  }

  // ---- The order of the entries ------------------------------------------------------------------------


  function Texts(v: Json): seq<string> { SortedKeys(Flat(v).Keys) }

  ghost function PathWith(v: Json, t: string): (p: Path)
    requires t in Flat(v)
    ensures IsLeaf(v, p) && Text(p) == t
  {
    TextHasLeaf(v, t);
    var p :| IsLeaf(v, p) && Text(p) == t;
    p
  }

  lemma TextHasLeaf(v: Json, t: string)
    requires t in Flat(v)
    ensures exists p :: IsLeaf(v, p) && Text(p) == t
  {
    var p := FlatHasOnly(v, t);
  }

  /** The paths of the entries of the flattened value, in the order of their texts. */
  ghost function Paths(v: Json): (ps: seq<Path>)
    ensures |ps| == |Texts(v)| && Leaves(v, ps)
    ensures forall i :: 0 <= i < |ps| ==> Text(ps[i]) == Texts(v)[i]
  {
    seq(|Texts(v)|, i requires 0 <= i < |Texts(v)| => PathWith(v, Texts(v)[i]))
  }

  lemma PathsInOrder(v: Json)
    ensures InOrder(Paths(v)) && NoRepeats(Paths(v)) && AllThere(v, Paths(v))
  {
    var ps, texts := Paths(v), Texts(v);
    SortedKeysAscend(Flat(v).Keys);
    forall i, j | 0 <= i < j < |ps|
      ensures Less(Text(ps[i]), Text(ps[j])) && ps[i] != ps[j]
    {
      assert Less(texts[i], texts[j]);
      LessTotal(texts[i], texts[i]);
    }
    forall q | IsLeaf(v, q)
      ensures q in ps
    {
      FlatHas(v, q);
      var i := PositionOf(Flat(v).Keys, Text(q));
      TextInjective(ps[i], q);
    }
  }

  lemma EntryIsLeaf(v: Json, p: Path, t: string, d: Json)
    requires IsLeaf(v, p) && Text(p) == t
    ensures t in Flat(v) && Entered(d, t, Flat(v)[t]) == CreatePut(d, p, LeafValue(v, p))
  {
    FlatHas(v, p);
    TokensOfText(p);
    LeafValueIsPrimitive(v, p);
  }

  lemma {:induction false} LeafValueIsPrimitive(v: Json, p: Path)
    requires IsLeaf(v, p)
    ensures Primitive(LeafValue(v, p))
    decreases p
  {
    if p != [] { LeafValueIsPrimitive(ChildOf(v, p[0]), p[1..]); }
  }

  lemma {:induction false} BuiltUpIsRun(v: Json, n: nat)
    requires n <= |Texts(v)|
    ensures BuiltUp(Flat(v), n) == Run(v, Paths(v)[..n])
  {
    if n > 0 {
      BuiltUpIsRun(v, n - 1);
      var p, t, d := Paths(v)[n - 1], Texts(v)[n - 1], Run(v, Paths(v)[..n - 1]);
      RunStep(v, Paths(v), n - 1);
      BuiltUpStep(Flat(v), n - 1);
      if d.Success? { EntryIsLeaf(v, p, t, d.value); }
    }
  }

  lemma BuiltUpStep(m: map<string, Json>, n: nat)
    requires n < |SortedKeys(m.Keys)|
    ensures var d, k := BuiltUp(m, n), SortedKeys(m.Keys)[n];
      BuiltUp(m, n + 1) == if d.Failure? then d else Entered(d.value, k, m[k])
  {
  }

  lemma RunStep(v: Json, ps: seq<Path>, i: nat)
    requires Leaves(v, ps) && i < |ps|
    ensures Run(v, ps[..i + 1])
         == var d := Run(v, ps[..i]); if d.Failure? then d else CreatePut(d.value, ps[i], LeafValue(v, ps[i]))
  {
    assert ps[..i + 1][..i] == ps[..i];
  }

  /** The leaves with smaller texts. */
  ghost predicate IsBefore(S: set<Path>, v: Json, p: Path) {
    forall q :: q in S <==> IsLeaf(v, q) && Less(Text(q), Text(p))
  }

  /** When an entry comes, the leaves with smaller texts have been entered, and no others. */
  lemma VisitedIsBefore(v: Json, ps: seq<Path>, i: nat)
    requires Leaves(v, ps) && InOrder(ps) && AllThere(v, ps) && i < |ps|
    ensures IsBefore(Visited(ps[..i]), v, ps[i])
  {
    forall q
      ensures q in Visited(ps[..i]) <==> IsLeaf(v, q) && Less(Text(q), Text(ps[i]))
    {
      VisitedHas(ps[..i], q);
      if q in ps[..i] {
        var j :| 0 <= j < i && ps[j] == q;
      }
      if IsLeaf(v, q) && Less(Text(q), Text(ps[i])) {
        var j :| 0 <= j < |ps| && ps[j] == q;
        LessTotal(Text(q), Text(ps[i]));
        assert j < i && ps[..i][j] == q;
      }
    }
  }

  /** Every leaf comes when it can, the leaves with smaller texts having been entered. */
  ghost predicate GoodOrder(v: Json) {
    forall p, S :: IsLeaf(v, p) && IsBefore(S, v, p) ==> OkNext(v, S, p)
  }

  lemma IsBeforeUnique(S: set<Path>, T: set<Path>, v: Json, p: Path)
    requires IsBefore(S, v, p) && IsBefore(T, v, p)
    ensures S == T
  {
  }

  ghost predicate OkAt(v: Json, ps: seq<Path>, i: nat)
    requires Leaves(v, ps) && i < |ps|
  {
    OkNext(v, Visited(ps[..i]), ps[i])
  }

  lemma {:induction false} AllOkAt(v: Json, ps: seq<Path>, i: nat)
    requires Leaves(v, ps) && i < |ps| && AllOk(v, ps)
    ensures OkAt(v, ps, i)
  {
    if i < |ps| - 1 {
      AllOkAt(v, ps[..|ps| - 1], i);
      assert ps[..|ps| - 1][..i] == ps[..i];
    }
  }

  lemma {:induction false} AllOkFrom(v: Json, ps: seq<Path>)
    requires Leaves(v, ps) && forall i :: 0 <= i < |ps| ==> OkAt(v, ps, i)
    ensures AllOk(v, ps)
  {
    if ps != [] {
      var init := ps[..|ps| - 1];
      forall i | 0 <= i < |init|
        ensures OkAt(v, init, i)
      {
        assert OkAt(v, ps, i) && init[..i] == ps[..i];
      }
      AllOkFrom(v, init);
      assert OkAt(v, ps, |ps| - 1);
    }
  }

  lemma AllOkIsGoodOrder(v: Json, ps: seq<Path>)
    requires Leaves(v, ps) && InOrder(ps) && AllThere(v, ps)
    ensures AllOk(v, ps) <==> GoodOrder(v)
  {
    if AllOk(v, ps) {
      forall p, S | IsLeaf(v, p) && IsBefore(S, v, p)
        ensures OkNext(v, S, p)
      {
        var i :| 0 <= i < |ps| && ps[i] == p;
        AllOkAt(v, ps, i);
        VisitedIsBefore(v, ps, i);
        IsBeforeUnique(S, Visited(ps[..i]), v, p);
      }
    }
    if GoodOrder(v) {
      forall i | 0 <= i < |ps|
        ensures OkAt(v, ps, i)
      {
        VisitedIsBefore(v, ps, i);
      }
      AllOkFrom(v, ps);
    }
  }

  lemma RestoredIffGoodOrder(v: Json)
    requires NoEmpties(v)
    ensures BuiltUp(Flat(v), |Texts(v)|) == Success(v) <==> GoodOrder(v)
  {
    var ps := Paths(v);
    PathsInOrder(v);
    BuiltUpIsRun(v, |Texts(v)|);
    assert ps[..|Texts(v)|] == ps;
    RunRestoresIff(v, ps);
    AllOkIsGoodOrder(v, ps);
  }

  // ---- The condition -----------------------------------------------------------------------------------

  /** Some leaf under member k comes before all leaves under member 0: its text is smaller. A slash in a key
      is escaped and so does not count as small. */
  predicate Beats(k: string, zero: Json) {
    || k == "" || k[0] < '/'
    || (!Primitive(zero) && |k| >= 2 && k[0] == '0' && k[1] < '/')
  }

  /** No empty array or object, no index out of reach, and no object whose first entry has the key 0. */
  predicate Restores(v: Json) {
    match v
    case Arr(s) => 0 < |s| <= 0x8000_0000 && forall i :: 0 <= i < |s| ==> Restores(s[i])
    case Obj(m) =>
      && m.Keys != {} && (forall k :: k in m ==> Restores(m[k]))
      && ("0" in m ==> exists k :: k in m && Beats(k, m["0"]))
    case _ => true
  }

  lemma {:induction false} RestoresNoEmpties(v: Json)
    requires Restores(v)
    ensures NoEmpties(v)
  {
    match v
    case Arr(s) => forall i | 0 <= i < |s| ensures NoEmpties(s[i]) { RestoresNoEmpties(s[i]); }
    case Obj(m) => forall k | k in m ensures NoEmpties(m[k]) { RestoresNoEmpties(m[k]); }
    case _ =>
  }

  lemma LessHead(s: string, t: string)
    requires t != "" && (s == "" || s[0] < t[0])
    ensures Less(s, t)
  {
  }

  lemma {:induction false} LessPrefix(a: string, s: string, t: string)
    ensures Less(a + s, a + t) <==> Less(s, t)
  {
    if a == "" {
      assert a + s == s && a + t == t;
    } else {
      LessPrefix(a[1..], s, t);
      assert (a + s)[1..] == a[1..] + s && (a + t)[1..] == a[1..] + t;
    }
  }

  lemma TextUnder(k: string, q: Path)
    ensures Text([k] + q) == "/" + (Escaped(k) + Text(q))
  {
    TextHead([k] + q);
    assert ([k] + q)[1..] == q;
    assert "/" + Escaped(k) + Text(q) == "/" + (Escaped(k) + Text(q));
  }

  lemma LessUnder(k: string, q: Path, l: string, p: Path)
    ensures Less(Text([k] + q), Text([l] + p)) <==> Less(Escaped(k) + Text(q), Escaped(l) + Text(p))
    ensures k == l ==> (Less(Text([k] + q), Text([l] + p)) <==> Less(Text(q), Text(p)))
  {
    TextUnder(k, q);
    TextUnder(l, p);
    LessPrefix("/", Escaped(k) + Text(q), Escaped(l) + Text(p));
    if k == l { LessPrefix(Escaped(k), Text(q), Text(p)); }
  }

  lemma TextStarts(q: Path)
    ensures q == [] ==> Text(q) == ""
    ensures q != [] ==> Text(q) != "" && Text(q)[0] == '/'
  {
    TextIsWellEscaped(q);
  }

  lemma EscapedStarts(k: string)
    requires k != ""
    ensures Escaped(k) != "" && Escaped(k)[0] == if k[0] == '/' then '~' else k[0]
  {
  }

  lemma EscapedZero(k: string)
    requires k != "" && k[0] == '0'
    ensures Escaped(k) == "0" + Escaped(k[1..])
  {
  }

  lemma LeafOfContainer(v: Json, p: Path)
    requires IsLeaf(v, p) && !EmptyContainer(v)
    ensures p == [] <==> Primitive(v)
  {
  }

  lemma BeatsIsLess(k: string, q: Path, zero: Json, p: Path)
    requires Beats(k, zero) && IsLeaf(zero, p) && !EmptyContainer(zero)
    ensures Less(Text([k] + q), Text(["0"] + p))
  {
    LessUnder(k, q, "0", p);
    LeafOfContainer(zero, p);
    TextStarts(q);
    TextStarts(p);
    assert Escaped("0") == "0";
    if k == "" {
      assert Escaped(k) + Text(q) == Text(q);
      LessHead(Text(q), "0" + Text(p));
    } else if k[0] < '/' {
      EscapedStarts(k);
      LessHead(Escaped(k) + Text(q), "0" + Text(p));
    } else {
      SecondIsLess(k, Text(q), Text(p));
    }
  }

  lemma SecondIsLess(k: string, s: string, t: string)
    requires |k| >= 2 && k[0] == '0' && k[1] < '/' && t != "" && t[0] == '/'
    ensures Less(Escaped(k) + s, "0" + t)
  {
    var rest := Escaped(k[1..]);
    EscapedZero(k);
    EscapedStarts(k[1..]);
    assert "0" + rest + s == "0" + (rest + s);
    LessPrefix("0", rest + s, t);
    LessHead(rest + s, t);
  }

  lemma BeatenInSecond(k: string, tail: string, text: string)
    requires |k| >= 2 && k[0] == '0' && (text == "" || (text[0] == '/' && k[1] >= '/'))
    ensures Less("0" + text, Escaped(k) + tail)
  {
    EscapedZero(k);
    EscapedStarts(k[1..]);
    assert Escaped(k) + tail == "0" + (Escaped(k[1..]) + tail);
    LessPrefix("0", text, Escaped(k[1..]) + tail);
    LessHead(text, Escaped(k[1..]) + tail);
  }

  lemma BeatenIsMore(k: string, q: Path, zero: Json, p: Path)
    requires !Beats(k, zero) && k != "0" && IsLeaf(zero, p) && !EmptyContainer(zero)
    ensures Less(Text(["0"] + p), Text([k] + q))
  {
    LessUnder("0", p, k, q);
    LeafOfContainer(zero, p);
    TextStarts(p);
    EscapedStarts(k);
    assert Escaped("0") == "0";
    if k[0] == '0' {
      BeatenInSecond(k, Text(q), Text(p));
    } else {
      LessHead("0" + Text(p), Escaped(k) + Text(q));
    }
  }

  lemma LeafUnder(v: Json, k: string, q: Path)
    requires HasChild(v, k) && IsLeaf(ChildOf(v, k), q)
    ensures IsLeaf(v, [k] + q)
  {
    assert ([k] + q)[1..] == q;
  }

  lemma SubIsBefore(S: set<Path>, v: Json, k: string, p: Path)
    requires HasChild(v, k) && IsBefore(S, v, [k] + p)
    ensures IsBefore(Sub(S, k), ChildOf(v, k), p)
  {
    forall q
      ensures q in Sub(S, k) <==> IsLeaf(ChildOf(v, k), q) && Less(Text(q), Text(p))
    {
      SubHas(S, k, q);
      LessUnder(k, q, k, p);
      assert ([k] + q)[1..] == q;
      assert IsLeaf(v, [k] + q) <==> IsLeaf(ChildOf(v, k), q);
    }
  }

  /** In a value that meets the condition every leaf comes when it can. */
  lemma {:induction false} RestoresInOrder(v: Json, S: set<Path>, p: Path)
    requires Restores(v) && IsLeaf(v, p) && IsBefore(S, v, p)
    ensures OkNext(v, S, p)
    decreases p
  {
    if p != [] {
      var k, q := p[0], p[1..];
      assert p == [k] + q;
      SubIsBefore(S, v, k, q);
      match v
      case Arr(s) =>
        ZeroIsFirst(v, s, S, p);
        var i :| 0 <= i < |s| && ToDigits(i) == k && ChildOf(v, k) == s[i];
        StoiOfDigits(i);
        RestoresInOrder(s[i], Sub(S, k), q);
      case Obj(m) =>
        ZeroIsNotFirst(v, m, S, p);
        RestoresInOrder(m[k], Sub(S, k), q);
      case _ =>
    }
  }

  lemma ZeroIsFirst(v: Json, s: seq<Json>, S: set<Path>, p: Path)
    requires v == Arr(s) && s != [] && p != [] && IsLeaf(v, p) && IsBefore(S, v, p)
    ensures S == {} ==> p[0] == "0"
  {
    if p[0] != "0" {
      var q := SomeLeaf(s[0]);
      assert ToDigits(0) == "0";
      ChildAt(s, 0);
      LeafUnder(v, "0", q);
      var i :| 0 <= i < |s| && ToDigits(i) == p[0];
      ZeroBeforeDigits(q, i, p[1..]);
      assert p == [p[0]] + p[1..];
      assert ["0"] + q in S;
    }
  }

  lemma ZeroBeforeDigits(q: Path, i: nat, p: Path)
    requires ToDigits(i) != "0"
    ensures Less(Text(["0"] + q), Text([ToDigits(i)] + p))
  {
    var k := ToDigits(i);
    ValueOfDigits(i);
    assert IsDigit(k[0]) && Escaped("0") == "0";
    EscapedStarts(k);
    LessUnder("0", q, k, p);
    LessHead("0" + Text(q), Escaped(k) + Text(p));
  }

  lemma ZeroIsNotFirst(v: Json, m: map<string, Json>, S: set<Path>, p: Path)
    requires v == Obj(m) && Restores(v) && p != [] && IsLeaf(v, p) && IsBefore(S, v, p)
    ensures S == {} ==> p[0] != "0"
  {
    if p[0] == "0" {
      var k :| k in m && Beats(k, m["0"]);
      var q := SomeLeaf(m[k]);
      LeafUnder(v, k, q);
      assert p == ["0"] + p[1..];
      RestoresNoEmpties(m["0"]);
      BeatsIsLess(k, q, m["0"], p[1..]);
      assert [k] + q in S;
    }
  }

  ghost function LeavesBefore(v: Json, p: Path): (S: set<Path>)
    ensures IsBefore(S, v, p)
  {
    PathsInOrder(v);
    set q | q in Paths(v) && Less(Text(q), Text(p))
  }

  /** In a value that does not meet it some leaf comes too early. */
  lemma {:induction false} SomeLeafTooEarly(v: Json) returns (p: Path)
    requires NoEmpties(v) && !Restores(v)
    ensures IsLeaf(v, p) && !OkNext(v, LeavesBefore(v, p), p)
    decreases v
  {
    match v
    case Arr(s) =>
      if i :| 0 <= i < |s| && !Restores(s[i]) {
        var q := SomeLeafTooEarly(s[i]);
        ChildAt(s, i);
        p := TooEarlyUnder(v, ToDigits(i), q);
      } else {
        p := OutOfReachIsTooEarly(v, s);
      }
    case Obj(m) =>
      if k :| k in m && !Restores(m[k]) {
        var q := SomeLeafTooEarly(m[k]);
        p := TooEarlyUnder(v, k, q);
      } else {
        p := ZeroIsTooEarly(v, m);
      }
  }

  lemma TooEarlyUnder(v: Json, k: string, q: Path) returns (p: Path)
    requires HasChild(v, k) && IsLeaf(ChildOf(v, k), q) && !OkNext(ChildOf(v, k), LeavesBefore(ChildOf(v, k), q), q)
    ensures IsLeaf(v, p) && !OkNext(v, LeavesBefore(v, p), p)
  {
    p := [k] + q;
    LeafUnder(v, k, q);
    SubIsBefore(LeavesBefore(v, p), v, k, q);
    IsBeforeUnique(Sub(LeavesBefore(v, p), k), LeavesBefore(ChildOf(v, k), q), ChildOf(v, k), q);
    assert p[0] == k && p[1..] == q;
  }

  lemma OutOfReachIsTooEarly(v: Json, s: seq<Json>) returns (p: Path)
    requires v == Arr(s) && |s| > 0x8000_0000
    ensures IsLeaf(v, p) && !OkNext(v, LeavesBefore(v, p), p)
  {
    var n := 0x8000_0000;
    var q := SomeLeaf(s[n]);
    ChildAt(s, n);
    p := [ToDigits(n)] + q;
    LeafUnder(v, ToDigits(n), q);
    StoiOfDigits(n);
    DigitsInjectiveAll(0, n);
    assert ToDigits(0) == "0" && p[0] == ToDigits(n);
  }

  lemma ZeroIsTooEarly(v: Json, m: map<string, Json>) returns (p: Path)
    requires v == Obj(m) && NoEmpties(v) && "0" in m && forall k :: k in m ==> !Beats(k, m["0"])
    ensures IsLeaf(v, p) && !OkNext(v, LeavesBefore(v, p), p)
  {
    var zero := m["0"];
    var q := FirstLeaf(zero);
    p := ["0"] + q;
    LeafUnder(v, "0", q);
    forall r | IsLeaf(v, r)
      ensures !Less(Text(r), Text(p))
    {
      assert r == [r[0]] + r[1..];
      if r[0] == "0" {
        LessUnder("0", r[1..], "0", q);
      } else {
        BeatenIsMore(r[0], r[1..], zero, q);
        LessTotal(Text(r), Text(p));
      }
    }
    assert LeavesBefore(v, p) == {} && p[0] == "0";
  }

  lemma FirstLeaf(v: Json) returns (p: Path)
    ensures IsLeaf(v, p) && forall q :: IsLeaf(v, q) ==> !Less(Text(q), Text(p))
  {
    PathsInOrder(v);
    var ps := Paths(v);
    var any := SomeLeaf(v);
    assert any in ps;
    p := ps[0];
    forall q | IsLeaf(v, q)
      ensures !Less(Text(q), Text(p))
    {
      var i :| 0 <= i < |ps| && ps[i] == q;
      LessTotal(Text(q), Text(p));
      assert i > 0 ==> Less(Text(ps[0]), Text(ps[i]));
    }
  }

  lemma GoodOrderIff(v: Json)
    requires NoEmpties(v)
    ensures GoodOrder(v) <==> Restores(v)
  {
    if Restores(v) {
      forall p, S | IsLeaf(v, p) && IsBefore(S, v, p)
        ensures OkNext(v, S, p)
      {
        RestoresInOrder(v, S, p);
      }
    } else {
      var p := SomeLeafTooEarly(v);
      assert IsBefore(LeavesBefore(v, p), v, p);
    }
  }

  // ---- Empty containers --------------------------------------------------------------------------------

  lemma {:induction false} NeverEmpty(d: Json, p: Path, w: Json)
    requires NoEmpties(d) && Primitive(w)
    ensures var r := CreatePut(d, p, w); r.Success? ==> NoEmpties(r.value)
    decreases p
  {
    if p != [] {
      match d
      case Null =>
        NeverEmpty(Null, p[1..], w);
        var y := CreatePut(Null, p[1..], w);
        if y.Success? { assert p[0] in map[p[0] := y.value].Keys && NoEmpties(Arr([y.value])); }
      case Obj(m) => NeverEmpty(if p[0] in m then m[p[0]] else Null, p[1..], w);
      case Arr(s) =>
        var i := Stoi(p[0]);
        if i.Success? && i.value >= 0 { NeverEmpty(Filled(s, i.value + 1)[i.value], p[1..], w); }
      case _ =>
    }
  }

  lemma {:induction false} BuiltUpNeverEmpty(m: map<string, Json>, n: nat)
    requires n <= |SortedKeys(m.Keys)|
    ensures BuiltUp(m, n).Success? ==> NoEmpties(BuiltUp(m, n).value)
  {
    if n > 0 {
      BuiltUpNeverEmpty(m, n - 1);
      var k := SortedKeys(m.Keys)[n - 1];
      if BuiltUp(m, n - 1).Success? && Primitive(m[k]) && Tokens(k).Success? {
        NeverEmpty(BuiltUp(m, n - 1).value, Tokens(k).value, m[k]);
      }
    }
  }

  // ---- The theorem -------------------------------------------------------------------------------------

  /** Building up what was flattened gives the value back exactly when it meets the condition. */
  lemma UnflattenUndoesFlattenIff(v: Json)
    ensures BuiltUp(Flat(v), |Texts(v)|) == Success(v) <==> Restores(v)
  {
    if NoEmpties(v) {
      RestoredIffGoodOrder(v);
      GoodOrderIff(v);
    } else {
      BuiltUpNeverEmpty(Flat(v), |Texts(v)|);
      if Restores(v) { RestoresNoEmpties(v); }
    }
  }

  /** An object with the key 0 alone does not come back, whatever its value. */
  lemma ZeroKeyIsLost(w: Json)
    ensures BuiltUp(Flat(Obj(map["0" := w])), |Texts(Obj(map["0" := w]))|) != Success(Obj(map["0" := w]))
  {
    var v := Obj(map["0" := w]);
    assert !Beats("0", w) && !Restores(v);
    UnflattenUndoesFlattenIff(v);
  }
}
