/** How many elements of a sequence have a property. */
module Counting {

  function Count<T>(p: T -> bool, s: seq<T>): nat {
    if s == [] then 0 else (if p(s[0]) then 1 else 0) + Count(p, s[1..])
  }

  lemma {:induction false} CountConcat<T>(p: T -> bool, s: seq<T>, t: seq<T>)
    ensures Count(p, s + t) == Count(p, s) + Count(p, t)
  {
    if s == [] {
      assert s + t == t;
    } else {
      CountConcat(p, s[1..], t);
      assert (s + t)[1..] == s[1..] + t;
    }
  }

  /** The places where the property holds. */
  ghost function Places<T(!new)>(p: T -> bool, s: seq<T>): set<nat> {
    set i: nat | i < |s| && p(s[i])
  }

  lemma PlacesGrow<T(!new)>(p: T -> bool, s: seq<T>, x: T)
    ensures |Places(p, s + [x])| == |Places(p, s)| + if p(x) then 1 else 0
  {
    assert Places(p, s + [x]) == Places(p, s) + if p(x) then {|s|} else {};
  }

  lemma CountGrows<T>(p: T -> bool, s: seq<T>, x: T)
    ensures Count(p, s + [x]) == Count(p, s) + if p(x) then 1 else 0
  {
    CountConcat(p, s, [x]);
    assert [x][1..] == [];
  }

  /** The count is the number of these places. */
  lemma {:induction false} CountIsSize<T(!new)>(p: T -> bool, s: seq<T>)
    ensures Count(p, s) == |Places(p, s)|
    decreases |s|
  {
    if s == [] {
      assert Places(p, s) == {};
    } else {
      var n := |s| - 1;
      CountIsSize(p, s[..n]);
      CountGrows(p, s[..n], s[n]);
      PlacesGrow(p, s[..n], s[n]);
      assert s == s[..n] + [s[n]];
    }
  }

  lemma {:induction false} CountUniform<T>(p: T -> bool, s: seq<T>, all: bool)
    requires forall i :: 0 <= i < |s| ==> (p(s[i]) <==> all)
    ensures Count(p, s) == if all then |s| else 0
  {
    if s != [] { CountUniform(p, s[1..], all); }
  }

  /** When exactly the elements of one range have the property, the count is its length. */
  lemma CountRange<T>(p: T -> bool, s: seq<T>, first: nat, last: nat)
    requires first <= last <= |s|
    requires forall i :: 0 <= i < |s| ==> (p(s[i]) <==> first <= i < last)
    ensures Count(p, s) == last - first
  {
    assert s == s[..first] + s[first..last] + s[last..];
    CountConcat(p, s[..first] + s[first..last], s[last..]);
    CountConcat(p, s[..first], s[first..last]);
    CountUniform(p, s[..first], false);
    CountUniform(p, s[first..last], true);
    CountUniform(p, s[last..], false);
  }

  lemma CountRemoves<T>(p: T -> bool, s: seq<T>, j: nat)
    requires j < |s|
    ensures Count(p, s) == Count(p, s[..j] + s[j + 1..]) + if p(s[j]) then 1 else 0
  {
    var a, x, b := s[..j], s[j], s[j + 1..];
    assert s == a + ([x] + b);
    CountConcat(p, a, b);
    CountConcat(p, a, [x] + b);
    assert ([x] + b)[1..] == b;
  }

  lemma RemoveOne<T>(s: seq<T>, j: nat)
    requires j < |s|
    ensures multiset(s[..j] + s[j + 1..]) == multiset(s) - multiset{s[j]}
  {
    assert s == s[..j] + ([s[j]] + s[j + 1..]);
  }

  lemma {:induction false} CountPermutes<T>(p: T -> bool, s: seq<T>, t: seq<T>)
    requires multiset(s) == multiset(t)
    ensures Count(p, s) == Count(p, t)
  {
    SameMembers(s, t);
    if s == [] {
      assert t == [];
    } else {
      assert s[0] in t;
      var j :| 0 <= j < |t| && t[j] == s[0];
      var rest, others := s[..0] + s[1..], t[..j] + t[j + 1..];
      RemoveOne(s, 0);
      RemoveOne(t, j);
      CountPermutes(p, rest, others);
      CountRemoves(p, s, 0);
      CountRemoves(p, t, j);
    }
  }

  lemma SameMembers<T>(s: seq<T>, t: seq<T>)
    requires multiset(s) == multiset(t)
    ensures forall x :: x in s <==> x in t
    ensures |s| == |t|
  {
    assert forall x :: x in s <==> x in multiset(s);
    assert forall x :: x in t <==> x in multiset(t);
    assert |multiset(s)| == |multiset(t)|;
  }

  lemma {:induction false} CountPositive<T>(p: T -> bool, s: seq<T>)
    ensures Count(p, s) > 0 <==> exists i :: 0 <= i < |s| && p(s[i])
  {
    if s != [] {
      CountPositive(p, s[1..]);
      if Count(p, s[1..]) > 0 {
        var i :| 0 <= i < |s[1..]| && p(s[1..][i]);
        assert p(s[i + 1]);
      } else {
        assert forall i :: 0 < i < |s| ==> s[i] == s[1..][i - 1];
      }
    }
  }

  /** At least two elements have the property when two positions do, and the other way round. */
  lemma {:induction false} CountTwice<T>(p: T -> bool, s: seq<T>)
    ensures Count(p, s) >= 2 <==> exists i, j :: 0 <= i < j < |s| && p(s[i]) && p(s[j])
  {
    if s != [] {
      CountTwice(p, s[1..]);
      CountPositive(p, s[1..]);
      assert forall i :: 0 < i < |s| ==> s[i] == s[1..][i - 1];
      assert forall i :: 0 <= i < |s| - 1 ==> s[1..][i] == s[i + 1];
    }
  }

  /** When the elements with the property come first, the count says where they end. */
  lemma {:induction false} CountPrefix<T>(p: T -> bool, s: seq<T>)
    requires forall i, j :: 0 <= i < j < |s| && p(s[j]) ==> p(s[i])
    ensures Count(p, s) <= |s|
    ensures forall i :: 0 <= i < |s| ==> (p(s[i]) <==> i < Count(p, s))
  {
    if s != [] {
      if p(s[0]) {
        CountPrefix(p, s[1..]);
        assert forall i :: 0 < i < |s| ==> s[i] == s[1..][i - 1];
      } else {
        CountUniform(p, s, false);
      }
    }
  }
}
