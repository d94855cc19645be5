/** JSON values without floating-point numbers. */
module JsonValue {
  import opened Collections

  type Int64 = x: int | -0x8000_0000_0000_0000 <= x < 0x8000_0000_0000_0000

  type Uint64 = x: int | 0 <= x < 0x1_0000_0000_0000_0000

  /** The constructors are the cases of value_t. A string is a sequence of bytes. */
  datatype Json =
    | Null
    | Bool(b: bool)
    | Integer(i: Int64)
    | Unsigned(u: Uint64)
    | Str(s: string)
    | Arr(elems: seq<Json>)
    | Obj(members: map<string, Json>)

  predicate SameType(a: Json, b: Json) {
    match (a, b)
    case (Null, Null) => true
    case (Bool(_), Bool(_)) => true
    case (Integer(_), Integer(_)) => true
    case (Unsigned(_), Unsigned(_)) => true
    case (Str(_), Str(_)) => true
    case (Arr(_), Arr(_)) => true
    case (Obj(_), Obj(_)) => true
    case _ => false
  }

  /** static_cast from the unsigned to the signed type. */
  function AsSigned(u: Uint64): Int64 {
    if u < 0x8000_0000_0000_0000 then u else u - 0x1_0000_0000_0000_0000
  }

  /** operator==. Numbers of different types are compared as signed ones. */
  predicate Eq(a: Json, b: Json) {
    match (a, b)
    case (Integer(x), Unsigned(y)) => x == AsSigned(y)
    case (Unsigned(x), Integer(y)) => AsSigned(x) == y
    case (Arr(s), Arr(t)) => |s| == |t| && forall i :: 0 <= i < |s| ==> Eq(s[i], t[i])
    case (Obj(m), Obj(n)) => m.Keys == n.Keys && forall k :: k in m && k in n ==> Eq(m[k], n[k])
    case _ => a == b
  }

  lemma {:induction false} EqReflexive(a: Json)
    ensures Eq(a, a)
  {
    match a
    case Arr(s) => forall i | 0 <= i < |s| ensures Eq(s[i], s[i]) { EqReflexive(s[i]); }
    case Obj(m) => forall k | k in m ensures Eq(m[k], m[k]) { EqReflexive(m[k]); }
    case _ =>
  }

  /** The conversion keeps the number modulo 2^64, and only one signed number does. */
  lemma AsSignedIsCongruent(u: Uint64, x: Int64)
    ensures x == AsSigned(u) <==> (x - u) % 0x1_0000_0000_0000_0000 == 0
  {
    var y: int := AsSigned(u);
    if (x - u) % 0x1_0000_0000_0000_0000 == 0 {
      var q := (x - u) / 0x1_0000_0000_0000_0000;
      assert x - u == 0x1_0000_0000_0000_0000 * q;
      assert y == u || y == u - 0x1_0000_0000_0000_0000;
    }
  }

  /** The value with every number as a signed one. */
  function Signed(v: Json): Json {
    match v
    case Unsigned(u) => Integer(AsSigned(u))
    case Arr(s) => Arr(seq(|s|, i requires 0 <= i < |s| => Signed(s[i])))
    case Obj(m) => Obj(map k | k in m :: Signed(m[k]))
    case _ => v
  }

  /** No number anywhere in the value is unsigned. */
  predicate NoUnsigned(v: Json) {
    match v
    case Unsigned(_) => false
    case Arr(s) => forall i :: 0 <= i < |s| ==> NoUnsigned(s[i])
    case Obj(m) => forall k :: k in m ==> NoUnsigned(m[k])
    case _ => true
  }

  /** Making numbers signed changes nothing else, and leaves nothing to change. */
  lemma {:induction false} SignedKeeps(v: Json)
    ensures NoUnsigned(Signed(v)) && (NoUnsigned(v) ==> Signed(v) == v)
  {
    match v
    case Arr(s) =>
      forall i | 0 <= i < |s|
        ensures NoUnsigned(Signed(s[i])) && (NoUnsigned(s[i]) ==> Signed(s[i]) == s[i])
      {
        SignedKeeps(s[i]);
      }
      if NoUnsigned(v) { assert Signed(v).elems == s; }
    case Obj(m) =>
      forall k | k in m
        ensures NoUnsigned(Signed(m[k])) && (NoUnsigned(m[k]) ==> Signed(m[k]) == m[k])
      {
        SignedKeeps(m[k]);
      }
      if NoUnsigned(v) { assert Signed(v).members == m; }
    case _ =>
  }

  /** Two values are equal exactly when they are the same with all numbers signed. */
  lemma {:induction false} EqIsSigned(a: Json, b: Json)
    ensures Eq(a, b) <==> Signed(a) == Signed(b)
  {
    match (a, b)
    case (Arr(s), Arr(t)) =>
      var f, g := Signed(a).elems, Signed(b).elems;
      forall i | 0 <= i < |s| && i < |t|
        ensures Eq(s[i], t[i]) <==> f[i] == g[i]
      {
        EqIsSigned(s[i], t[i]);
      }
      if Eq(a, b) { assert f == g; }
    case (Obj(m), Obj(n)) =>
      var f, g := Signed(a).members, Signed(b).members;
      assert f.Keys == m.Keys && g.Keys == n.Keys;
      forall k | k in m && k in n
        ensures Eq(m[k], n[k]) <==> f[k] == g[k]
      {
        EqIsSigned(m[k], n[k]);
      }
      if Eq(a, b) { assert f == g; }
    case _ =>
  }

  // ---- The order of the members of an object -----------------------------------------------------------

  /** std::less on strings. */
  predicate Less(s: string, t: string) {
    if t == "" then false
    else if s == "" then true
    else s[0] < t[0] || (s[0] == t[0] && Less(s[1..], t[1..]))
  }

  /** The strings agree up to index i, and there s ends or has the smaller character. */
  predicate FirstDiffers(s: string, t: string, i: nat) {
    && i <= |s| && i < |t| && s[..i] == t[..i]
    && (i == |s| || s[i] < t[i])
  }

  /** It is the lexicographical order. */
  lemma {:induction false} LessIff(s: string, t: string)
    ensures Less(s, t) <==> exists i: nat :: FirstDiffers(s, t, i)
  {
    if s == "" || t == "" {
      if t != "" { assert FirstDiffers(s, t, 0); }
    } else {
      LessIff(s[1..], t[1..]);
      if Less(s, t) {
        if s[0] < t[0] {
          assert FirstDiffers(s, t, 0);
        } else {
          var i: nat :| FirstDiffers(s[1..], t[1..], i);
          DiffersLater(s, t, i);
        }
      } else if i: nat :| FirstDiffers(s, t, i) {
        if i > 0 {
          assert s[0] == s[..i][0] == t[..i][0] == t[0];
          DiffersLater(s, t, i - 1);
        }
      }
    }
  }

  lemma DiffersLater(s: string, t: string, i: nat)
    requires s != "" && t != "" && s[0] == t[0]
    ensures FirstDiffers(s, t, i + 1) <==> FirstDiffers(s[1..], t[1..], i)
  {
    if i + 1 <= |s| && i + 1 < |t| {
      assert s[..i + 1] == [s[0]] + s[1..][..i] && t[..i + 1] == [t[0]] + t[1..][..i];
      assert s[1..][..i] == s[..i + 1][1..] && t[1..][..i] == t[..i + 1][1..];
    }
  }

  lemma {:induction false} LessTotal(s: string, t: string)
    ensures s == t || Less(s, t) || Less(t, s)
    ensures !(Less(s, t) && Less(t, s)) && !Less(s, s)
  {
    if s != "" && t != "" {
      LessTotal(s[1..], t[1..]);
      LessTotal(s[1..], s[1..]);
      assert s[0] == t[0] && s[1..] == t[1..] ==> s == [s[0]] + s[1..] == t;
    } else if s != "" {
      LessTotal(s[1..], s[1..]);
    }
  }

  lemma {:induction false} LessTransitive(s: string, t: string, u: string)
    requires Less(s, t) && Less(t, u)
    ensures Less(s, u)
  {
    if s != "" && s[0] == t[0] && t[0] == u[0] { LessTransitive(s[1..], t[1..], u[1..]); }
  }

  predicate IsLeast(k: string, ks: set<string>) {
    k in ks && forall j :: j in ks ==> j == k || Less(k, j)
  }

  lemma {:induction false} LeastExists(ks: set<string>) returns (k: string)
    requires ks != {}
    ensures IsLeast(k, ks)
    decreases |ks|
  {
    var j := Nonempty(ks);
    var rest := ks - {j};
    assert forall i :: i in ks ==> i == j || i in rest;
    if rest == {} {
      k := j;
    } else {
      k := LeastExists(rest);
      LessTotal(j, k);
      if Less(j, k) {
        forall i | i in ks
          ensures i == j || Less(j, i)
        {
          if i != j && i != k { LessTransitive(j, k, i); }
        }
        k := j;
      }
    }
  }

  function Least(ks: set<string>): (k: string)
    requires ks != {}
    ensures k in ks
  {
    LeastUnique(ks);
    var k :| k in ks && IsLeast(k, ks);
    k
  }

  lemma LeastUnique(ks: set<string>)
    requires ks != {}
    ensures exists k :: k in ks && IsLeast(k, ks)
    ensures forall j, k :: IsLeast(j, ks) && IsLeast(k, ks) ==> j == k
  {
    var least := LeastExists(ks);
    forall j, k | IsLeast(j, ks) && IsLeast(k, ks)
      ensures j == k
    {
      LessTotal(j, k);
    }
  }

  ghost predicate Ascends(ks: seq<string>) {
    forall i, j :: 0 <= i < j < |ks| ==> Less(ks[i], ks[j])
  }

  /** The keys in the order of iteration. */
  function SortedKeys(ks: set<string>): (r: seq<string>)
    ensures forall i :: 0 <= i < |r| ==> r[i] in ks
    decreases |ks|
  {
    if ks == {} then []
    else
      var k := Least(ks);
      [k] + SortedKeys(ks - {k})
  }

  lemma {:induction false} SortedKeysAscend(ks: set<string>)
    ensures forall k :: k in ks <==> k in SortedKeys(ks)
    ensures Ascends(SortedKeys(ks))
    decreases |ks|
  {
    if ks != {} {
      LeastUnique(ks);
      var k := Least(ks);
      assert IsLeast(k, ks);
      SortedKeysAscend(ks - {k});
    }
  }

  lemma PositionOf(ks: set<string>, k: string) returns (i: nat)
    requires k in ks
    ensures i < |SortedKeys(ks)| && SortedKeys(ks)[i] == k
  {
    SortedKeysAscend(ks);
    i :| 0 <= i < |SortedKeys(ks)| && SortedKeys(ks)[i] == k;
  }

  lemma KeysDiffer(ks: set<string>, i: nat, j: nat)
    requires i < j < |SortedKeys(ks)|
    ensures SortedKeys(ks)[i] != SortedKeys(ks)[j]
  {
    SortedKeysAscend(ks);
    LessTotal(SortedKeys(ks)[i], SortedKeys(ks)[j]);
  }
}
