/** The algorithms of the C++ standard library that the sources call, as verified methods over
    arrays. A half-open range [lo, hi) of an array stands for a pair of iterators. */
module Algorithms {

  /** What std::sort and the binary searches demand of a comparison. */
  ghost predicate StrictWeak<T(!new)>(less: (T, T) -> bool) {
    && (forall x :: !less(x, x))
    && (forall x, y, z :: less(x, y) && less(y, z) ==> less(x, z))
    && (forall x, y, z :: !less(x, y) && !less(y, z) ==> !less(x, z))
  }

  ghost predicate Sorted<T>(less: (T, T) -> bool, s: seq<T>) {
    forall i, j :: 0 <= i < j < |s| ==> !less(s[j], s[i])
  }

  function Insert<T>(less: (T, T) -> bool, x: T, s: seq<T>): seq<T> {
    if s == [] then [x]
    else if less(x, s[0]) then [x] + s
    else [s[0]] + Insert(less, x, s[1..])
  }

  function Arrange<T>(less: (T, T) -> bool, s: seq<T>): seq<T> {
    if s == [] then [] else Insert(less, s[0], Arrange(less, s[1..]))
  }

  lemma {:induction false} InsertPermutes<T>(less: (T, T) -> bool, x: T, s: seq<T>)
    ensures multiset(Insert(less, x, s)) == multiset(s) + multiset{x}
    ensures |Insert(less, x, s)| == |s| + 1
  {
    if s != [] && !less(x, s[0]) {
      InsertPermutes(less, x, s[1..]);
      assert s == [s[0]] + s[1..];
    }
  }

  lemma {:induction false} InsertSorts<T(!new)>(less: (T, T) -> bool, x: T, s: seq<T>)
    requires StrictWeak(less) && Sorted(less, s)
    ensures Sorted(less, Insert(less, x, s))
  {
    if s != [] {
      if less(x, s[0]) {
        SortedCons(less, x, s);
      } else {
        InsertSorts(less, x, s[1..]);
        InsertPermutes(less, x, s[1..]);
        var r := Insert(less, x, s[1..]);
        forall y | y in r
          ensures !less(y, s[0])
        {
          assert y in multiset(r);
        }
        SortedCons(less, s[0], r);
      }
    }
  }

  lemma SortedCons<T(!new)>(less: (T, T) -> bool, x: T, s: seq<T>)
    requires StrictWeak(less) && Sorted(less, s)
    requires (s != [] && less(x, s[0])) || forall y :: y in s ==> !less(y, x)
    ensures Sorted(less, [x] + s)
  {
    forall j | 0 <= j < |s|
      ensures !less(s[j], x)
    {
      assert s != [] && less(x, s[0]) ==> !less(s[j], x);
    }
  }

  lemma {:induction false} ArrangeSorts<T(!new)>(less: (T, T) -> bool, s: seq<T>)
    requires StrictWeak(less)
    ensures Sorted(less, Arrange(less, s))
    ensures multiset(Arrange(less, s)) == multiset(s)
    ensures |Arrange(less, s)| == |s|
  {
    if s != [] {
      ArrangeSorts(less, s[1..]);
      InsertSorts(less, s[0], Arrange(less, s[1..]));
      InsertPermutes(less, s[0], Arrange(less, s[1..]));
      assert s == [s[0]] + s[1..];
    }
  }

  /** std::sort. Callers learn that the range is ordered and a permutation, not which one of the
      orderings of equivalent elements they got. */
  method Sort<T(!new)>(a: array<T>, lo: nat, hi: nat, less: (T, T) -> bool)
    requires lo <= hi <= a.Length
    requires StrictWeak(less)
    modifies a
    ensures Sorted(less, a[lo..hi])
    ensures multiset(a[lo..hi]) == multiset(old(a[lo..hi]))
    ensures a[..lo] == old(a[..lo]) && a[hi..] == old(a[hi..])
  {
    ArrangeSorts(less, a[lo..hi]);
    WriteRange(a, lo, hi, Arrange(less, a[lo..hi]));
  }

  method WriteRange<T>(a: array<T>, lo: nat, hi: nat, s: seq<T>)
    requires lo <= hi <= a.Length && |s| == hi - lo
    modifies a
    ensures a[lo..hi] == s && a[..lo] == old(a[..lo]) && a[hi..] == old(a[hi..])
  {
    forall i | lo <= i < hi {
      a[i] := s[i - lo];
    }
  }

  /** std::lower_bound: the first position whose element is not before the key. */
  method LowerBound<T(!new)>(a: array<T>, lo: nat, hi: nat, key: T, less: (T, T) -> bool) returns (pos: nat)
    requires lo <= hi <= a.Length
    requires StrictWeak(less) && Sorted(less, a[lo..hi])
    ensures lo <= pos <= hi
    ensures forall i :: lo <= i < pos ==> less(a[i], key)
    ensures forall i :: pos <= i < hi ==> !less(a[i], key)
  {
    var first, last := lo, hi;
    while first < last
      invariant lo <= first <= last <= hi
      invariant forall i :: lo <= i < first ==> less(a[i], key)
      invariant forall i :: last <= i < hi ==> !less(a[i], key)
    {
      var mid := first + (last - first) / 2;
      assert forall i :: lo <= i < hi ==> a[i] == a[lo..hi][i - lo];
      if less(a[mid], key) {
        forall i | lo <= i < mid + 1 ensures less(a[i], key) {
          if i < mid { assert !less(a[lo..hi][mid - lo], a[lo..hi][i - lo]); }
        }
        first := mid + 1;
      } else {
        forall i | mid <= i < hi ensures !less(a[i], key) {
          if mid < i { assert !less(a[lo..hi][i - lo], a[lo..hi][mid - lo]); }
        }
        last := mid;
      }
    }
    pos := first;
  }

  /** std::upper_bound: the first position whose element is after the key. */
  method UpperBound<T(!new)>(a: array<T>, lo: nat, hi: nat, key: T, less: (T, T) -> bool) returns (pos: nat)
    requires lo <= hi <= a.Length
    requires StrictWeak(less) && Sorted(less, a[lo..hi])
    ensures lo <= pos <= hi
    ensures forall i :: lo <= i < pos ==> !less(key, a[i])
    ensures forall i :: pos <= i < hi ==> less(key, a[i])
  {
    var first, last := lo, hi;
    while first < last
      invariant lo <= first <= last <= hi
      invariant forall i :: lo <= i < first ==> !less(key, a[i])
      invariant forall i :: last <= i < hi ==> less(key, a[i])
    {
      var mid := first + (last - first) / 2;
      assert forall i :: lo <= i < hi ==> a[i] == a[lo..hi][i - lo];
      if !less(key, a[mid]) {
        forall i | lo <= i < mid + 1 ensures !less(key, a[i]) {
          if i < mid { assert !less(a[lo..hi][mid - lo], a[lo..hi][i - lo]); }
        }
        first := mid + 1;
      } else {
        forall i | mid <= i < hi ensures less(key, a[i]) {
          if mid < i { assert !less(a[lo..hi][i - lo], a[lo..hi][mid - lo]); }
        }
        last := mid;
      }
    }
    pos := first;
  }

  /** std::equal_range: the elements equivalent to the key are exactly those in [first, last). */
  method EqualRange<T(!new)>(a: array<T>, lo: nat, hi: nat, key: T, less: (T, T) -> bool)
    returns (first: nat, last: nat)
    requires lo <= hi <= a.Length
    requires StrictWeak(less) && Sorted(less, a[lo..hi])
    ensures lo <= first <= last <= hi
    ensures forall i :: lo <= i < first ==> less(a[i], key)
    ensures forall i :: first <= i < last ==> !less(a[i], key) && !less(key, a[i])
    ensures forall i :: last <= i < hi ==> less(key, a[i])
  {
    first := LowerBound(a, lo, hi, key, less);
    last := UpperBound(a, lo, hi, key, less);
    assert last < hi ==> less(key, a[last]) && !less(a[last], key);
  }

  /** The elements that std::unique_copy keeps: an element goes when it matches the last one kept. */
  function Unique<T>(same: (T, T) -> bool, s: seq<T>): seq<T> {
    if s == [] then []
    else
      var u := Unique(same, s[..|s| - 1]);
      if u != [] && same(u[|u| - 1], s[|s| - 1]) then u else u + [s[|s| - 1]]
  }

  /** std::unique_copy from a range into the front of another array; returns the end of the output. */
  method UniqueCopy<T>(src: array<T>, lo: nat, hi: nat, dst: array<T>, same: (T, T) -> bool) returns (end: nat)
    requires lo <= hi <= src.Length && hi - lo <= dst.Length && src != dst
    modifies dst
    ensures end <= hi - lo && dst[..end] == Unique(same, src[lo..hi])
  {
    end := 0;
    for i := lo to hi
      invariant end <= i - lo
      invariant dst[..end] == Unique(same, src[lo..i])
    {
      assert src[lo..i + 1][..i - lo] == src[lo..i];
      if !(end > 0 && same(dst[end - 1], src[i])) {
        dst[end] := src[i];
        end := end + 1;
        assert dst[..end] == Unique(same, src[lo..i]) + [src[i]];
      }
    }
  }

  /** What std::partial_sum writes: every element is combined with the one that was just written. */
  function PartialSums<T>(op: (T, T) -> T, s: seq<T>): seq<T> {
    if |s| <= 1 then s
    else
      var p := PartialSums(op, s[..|s| - 1]);
      if p == [] then [] else p + [op(p[|p| - 1], s[|s| - 1])]
  }

  lemma {:induction false} PartialSumsLength<T>(op: (T, T) -> T, s: seq<T>)
    ensures |PartialSums(op, s)| == |s|
  {
    if |s| > 1 { PartialSumsLength(op, s[..|s| - 1]); }
  }

  /** std::partial_sum over a whole array, either in place or into another array from a position on. */
  method PartialSum<T>(src: array<T>, dst: array<T>, at: nat, op: (T, T) -> T)
    requires at + src.Length <= dst.Length && (src == dst ==> at == 0)
    modifies dst
    ensures dst[at..at + src.Length] == PartialSums(op, old(src[..]))
    ensures dst[..at] == old(dst[..at]) && dst[at + src.Length..] == old(dst[at + src.Length..])
  {
    ghost var s := src[..];
    if src.Length == 0 { return; }
    dst[at] := src[0];
    for i := 1 to src.Length
      invariant dst[at..at + i] == PartialSums(op, s[..i])
      invariant src[i..] == s[i..]
      invariant dst[..at] == old(dst[..at]) && dst[at + src.Length..] == old(dst[at + src.Length..])
    {
      PartialSumsLength(op, s[..i]);
      assert s[..i + 1][..i] == s[..i];
      assert src[i] == src[i..][0] == s[i];
      assert dst[at + i - 1] == dst[at..at + i][i - 1];
      dst[at + i] := op(dst[at + i - 1], src[i]);
      assert dst[at..at + i + 1] == dst[at..at + i] + [dst[at + i]];
      assert src[i + 1..] == s[i + 1..];
    }
    assert s == s[..src.Length];
  }
}
