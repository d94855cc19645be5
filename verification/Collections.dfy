/** Facts about finite collections. */
module Collections {

  /** A nonempty set has an element. */
  lemma Nonempty<T>(s: set<T>) returns (x: T)
    requires s != {}
    ensures x in s
  {
    x :| x in s;
  }

  lemma Associative<T>(a: seq<T>, b: seq<T>, c: seq<T>)
    ensures a + b + c == a + (b + c)
  {
  }

  lemma SameMaps<K, V>(a: map<K, V>, b: map<K, V>)
    requires forall k :: (k in a <==> k in b) && (k in a ==> a[k] == b[k])
    ensures a == b
  {
  }

  lemma InsertAtEnd<T>(s: seq<T>, v: T)
    ensures s[..|s|] + [v] + s[|s|..] == s + [v]
  {
  }

  lemma DropDrop<T>(s: seq<T>, a: nat, b: nat)
    requires a + b <= |s|
    ensures s[a..][b..] == s[a + b..]
  {
  }

  lemma SliceGrows<T>(s: seq<T>, b: seq<T>, lo: nat, hi: nat)
    requires lo < hi <= |b|
    ensures s + b[lo..hi - 1] + [b[hi - 1]] == s + b[lo..hi]
  {
    assert b[lo..hi] == b[lo..hi - 1] + [b[hi - 1]];
  }

  /** The numbers below n. */
  function Below(n: nat): (s: set<nat>)
    ensures forall i :: i in s <==> 0 <= i < n
  {
    if n == 0 then {} else Below(n - 1) + {n - 1}
  }

  lemma UpdateSize<K, V>(m: map<K, V>, k: K, v: V)
    ensures |m[k := v]| == |m| + if k in m then 0 else 1
  {
    assert m[k := v].Keys == m.Keys + {k};
    assert |m[k := v].Keys| == |m.Keys| + if k in m.Keys then 0 else 1;
  }

  lemma RemoveSize<K, V>(m: map<K, V>, k: K)
    requires k in m
    ensures |m - {k}| == |m| - 1
  {
    assert (m - {k}).Keys == m.Keys - {k};
    assert |(m - {k}).Keys| == |m.Keys| - 1;
  }
}
