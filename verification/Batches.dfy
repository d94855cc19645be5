/** Ranges of edges, and the preprocessing that the sort modes apply to them. */
module Batches {
  import opened Algorithms
  import opened Counting
  import opened Edges
  import opened Threads

  // ---- Orders ----------------------------------------------------------------------------------------

  predicate ByTimestamp(a: Edge, b: Edge) { a.timestamp < b.timestamp }

  predicate BySrc(a: Edge, b: Edge) { a.src < b.src }

  predicate SameEnds(a: Edge, b: Edge) { a.src == b.src && a.dst == b.dst }

  predicate EndsBefore(a: Edge, b: Edge) { a.src < b.src || (a.src == b.src && a.dst < b.dst) }

  /** Source ascending, then destination ascending, then timestamp descending. */
  predicate BySrcDestTime(a: Edge, b: Edge) {
    if a.src != b.src then a.src < b.src
    else if a.dst != b.dst then a.dst < b.dst
    else a.timestamp > b.timestamp
  }

  function DegreeIn(degrees: seq<int>, v: int): int {
    if 0 <= v < |degrees| then degrees[v] else 0
  }

  /** Out-degree of the source descending, then of the destination descending. */
  predicate HigherDegree(degrees: seq<int>, a: Edge, b: Edge) {
    if DegreeIn(degrees, a.src) != DegreeIn(degrees, b.src)
    then DegreeIn(degrees, a.src) > DegreeIn(degrees, b.src)
    else DegreeIn(degrees, a.dst) > DegreeIn(degrees, b.dst)
  }

  function ByOutDegree(degrees: seq<int>): (Edge, Edge) -> bool {
    (a: Edge, b: Edge) => HigherDegree(degrees, a, b)
  }

  // ---- Meanings --------------------------------------------------------------------------------------

  /** The edges at or after a time. */
  function Recent(es: seq<Edge>, threshold: int): seq<Edge> {
    if es == [] then []
    else
      var r, e := Recent(es[..|es| - 1], threshold), es[|es| - 1];
      if e.timestamp >= threshold then r + [e] else r
  }

  /** The number of edges with a given source. */
  function OutDegree(es: seq<Edge>, v: int): nat {
    Count(Leaves(v), es)
  }

  function Leaves(v: int): Edge -> bool {
    (e: Edge) => e.src == v
  }

  /** One edge of es for each pair of endpoints in es, and it is a most recent one. */
  ghost predicate Dedup(es: seq<Edge>, r: seq<Edge>) {
    (forall e :: e in r ==> e in es) && Latest(r) == Latest(es) && Distinct(r)
  }

  /** Ordered as the sort by out-degree promises, with degrees counted in the batch itself. */
  ghost predicate DegreeSorted(r: seq<Edge>) {
    forall i, j :: 0 <= i < j < |r| ==>
      || OutDegree(r, r[i].src) > OutDegree(r, r[j].src)
      || (OutDegree(r, r[i].src) == OutDegree(r, r[j].src) && OutDegree(r, r[i].dst) >= OutDegree(r, r[j].dst))
  }

  ghost predicate MaxVertexOf(es: seq<Edge>, v: int) {
    && (exists i :: 0 <= i < |es| && (es[i].src == v || es[i].dst == v))
    && (forall i :: 0 <= i < |es| ==> es[i].src <= v && es[i].dst <= v)
  }

  // ---- Filtering -------------------------------------------------------------------------------------

  /** Dropping a prefix of old edges, with only recent ones after it, is filtering. */
  lemma {:induction false} RecentSuffix(es: seq<Edge>, threshold: int, n: nat)
    requires n <= |es|
    requires forall i :: 0 <= i < n ==> es[i].timestamp < threshold
    requires forall i :: n <= i < |es| ==> es[i].timestamp >= threshold
    ensures Recent(es, threshold) == es[n..]
  {
    if es != [] {
      var init, e := es[..|es| - 1], es[|es| - 1];
      if n < |es| {
        RecentSuffix(init, threshold, n);
        assert es[n..] == init[n..] + [e];
      } else {
        RecentSuffix(init, threshold, n - 1);
        assert init[n - 1..] == [] && es[n..] == [];
      }
    }
  }

  lemma {:induction false} RecentMembers(es: seq<Edge>, threshold: int, e: Edge)
    ensures e in Recent(es, threshold) <==> e in es && e.timestamp >= threshold
  {
    if es != [] {
      RecentMembers(es[..|es| - 1], threshold, e);
      assert es == es[..|es| - 1] + [es[|es| - 1]];
    }
  }

  // ---- Deduplication ---------------------------------------------------------------------------------

  ghost predicate EndsOrdered(es: seq<Edge>) {
    forall i, j :: 0 <= i < j < |es| ==> EndsBefore(es[i], es[j])
  }

  /** An edge that repeats the endpoints of an earlier, not older one adds nothing. */
  lemma RepeatAddsNothing(es: seq<Edge>, l: Edge, x: Edge)
    requires l in es && SameEnds(l, x) && x.timestamp <= l.timestamp
    ensures Latest(es + [x]) == Latest(es)
  {
    LatestGrows(es, x);
    LatestIsMaximum(es);
    assert l.timestamp <= Latest(es)[l.Key()];
  }

  lemma SortedNeighbours(s: seq<Edge>, l: Edge)
    requires Sorted(BySrcDestTime, s) && s != [] && l in s[..|s| - 1]
    ensures var x := s[|s| - 1]; EndsBefore(l, x) || (SameEnds(l, x) && x.timestamp <= l.timestamp)
  {
    var k :| 0 <= k < |s| - 1 && s[k] == l;
    assert !BySrcDestTime(s[|s| - 1], s[k]);
  }

  lemma EndsOrderedGrows(es: seq<Edge>, x: Edge)
    requires EndsOrdered(es) && (es != [] ==> EndsBefore(es[|es| - 1], x))
    ensures EndsOrdered(es + [x])
  {
    var r := es + [x];
    forall i, j | 0 <= i < j < |r|
      ensures EndsBefore(r[i], r[j])
    {
      assert j == |es| && i < |es| - 1 ==> EndsBefore(es[i], es[|es| - 1]);
    }
  }

  /** Over a sorted range unique_copy keeps the most recent edge for every pair of endpoints, in order. */
  lemma {:induction false} UniqueOfSorted(s: seq<Edge>)
    requires Sorted(BySrcDestTime, s)
    ensures var u := Unique(SameEnds, s);
      && (s != [] ==> u != [] && SameEnds(u[|u| - 1], s[|s| - 1]))
      && EndsOrdered(u) && Latest(u) == Latest(s) && forall e :: e in u ==> e in s
  {
    if s != [] {
      var init, x := s[..|s| - 1], s[|s| - 1];
      UniqueOfSorted(init);
      var v := Unique(SameEnds, init);
      assert s == init + [x];
      if v != [] { SortedNeighbours(s, v[|v| - 1]); }
      if v != [] && SameEnds(v[|v| - 1], x) {
        RepeatAddsNothing(init, v[|v| - 1], x);
      } else {
        EndsOrderedGrows(v, x);
        LatestGrows(init, x);
        LatestGrows(v, x);
      }
    }
  }

  lemma OrderedIsDistinct(es: seq<Edge>)
    requires EndsOrdered(es)
    ensures Distinct(es)
  {
    forall i, j | 0 <= i < j < |es|
      ensures es[i].Key() != es[j].Key()
    {
      assert EndsBefore(es[i], es[j]);
    }
  }

  lemma UniqueDedups(es: seq<Edge>, s: seq<Edge>)
    requires Sorted(BySrcDestTime, s) && multiset(s) == multiset(es)
    ensures Dedup(es, Unique(SameEnds, s))
    ensures EndsOrdered(Unique(SameEnds, s)) && Sorted(BySrc, Unique(SameEnds, s))
  {
    UniqueOfSorted(s);
    OrderedIsDistinct(Unique(SameEnds, s));
    OrderedBySrc(Unique(SameEnds, s));
    SameMembers(es, s);
    LatestSameMembers(es, s);
  }

  /** Reordering does not undo deduplication. */
  lemma DedupPermutes(es: seq<Edge>, r: seq<Edge>, t: seq<Edge>)
    requires Dedup(es, r) && multiset(t) == multiset(r)
    ensures Dedup(es, t)
  {
    SameMembers(r, t);
    LatestSameMembers(r, t);
    DistinctByCount(r);
    DistinctByCount(t);
  }

  /** What Dedup means edge by edge. */
  lemma DedupKeepsMostRecent(es: seq<Edge>, r: seq<Edge>, f: Edge)
    requires Dedup(es, r) && f in es
    ensures exists i :: 0 <= i < |r| && r[i].Key() == f.Key() && f.timestamp <= r[i].timestamp
    ensures forall i, j :: 0 <= i < j < |r| ==> r[i].Key() != r[j].Key()
    ensures forall e :: e in r ==> e in es
  {
    LatestIsMaximum(es);
    LatestIsMaximum(r);
    var j :| 0 <= j < |es| && es[j] == f;
    assert Occurs(r, f.Key(), Latest(r)[f.Key()]);
  }

  /** The out-degree is the number of edges that leave a vertex. */
  lemma OutDegreeCounts(es: seq<Edge>, v: int)
    ensures OutDegree(es, v) == |set i: nat | i < |es| && es[i].src == v|
  {
    CountIsSize(Leaves(v), es);
    assert Places(Leaves(v), es) == set i: nat | i < |es| && es[i].src == v;
  }

  /** What the order by degree means for two edges, the first before the second: the source of the first has more
      edges, or as many, and then its destination has no fewer. */
  lemma DegreesDescend(r: seq<Edge>, i: nat, j: nat)
    requires DegreeSorted(r) && i < j < |r|
    ensures var a, b := |set k: nat | k < |r| && r[k].src == r[i].src|, |set k: nat | k < |r| && r[k].src == r[j].src|;
      var c, d := |set k: nat | k < |r| && r[k].src == r[i].dst|, |set k: nat | k < |r| && r[k].src == r[j].dst|;
      a > b || (a == b && c >= d)
  {
    OutDegreeCounts(r, r[i].src);
    OutDegreeCounts(r, r[j].src);
    OutDegreeCounts(r, r[i].dst);
    OutDegreeCounts(r, r[j].dst);
  }

  // ---- Degrees ---------------------------------------------------------------------------------------

  /** In a range ordered by source, the degree of v is the length of its equal range. */
  lemma EqualRangeIsDegree(es: seq<Edge>, v: int, first: nat, last: nat)
    requires first <= last <= |es|
    requires forall i :: 0 <= i < first ==> es[i].src < v
    requires forall i :: first <= i < last ==> es[i].src == v
    requires forall i :: last <= i < |es| ==> v < es[i].src
    ensures OutDegree(es, v) == last - first
  {
    CountRange(Leaves(v), es, first, last);
  }

  lemma ByOutDegreeIsStrictWeak(degrees: seq<int>)
    ensures StrictWeak(ByOutDegree(degrees))
  {
  }

  lemma BySrcDestTimeIsStrictWeak()
    ensures StrictWeak(BySrcDestTime)
  {
  }

  /** One thread of the loop that counts degrees, with its own copy of pos. */
  class DegreeWorker {
    const indices: seq<nat>
    var pos: nat
    var done: nat

    /** Every edge before pos has a source that lies before the thread's next index. */
    ghost predicate OnCourse(es: seq<Edge>)
      reads this
    {
      && pos <= |es| && done <= |indices|
      && forall i :: 0 <= i < pos ==> es[i].src < Reached(indices, done)
    }

    /** The degrees of the indices that are done have been counted. */
    ghost predicate Counted(es: seq<Edge>, degrees: seq<int>)
      requires done <= |indices| && Ascending(indices, |degrees|)
      reads this
    {
      forall j :: 0 <= j < done ==> degrees[indices[j]] == OutDegree(es, indices[j])
    }

    constructor (indices: seq<nat>)
      ensures this.indices == indices && pos == 0 && done == 0
    {
      this.indices := indices;
      pos, done := 0, 0;
    }

    /** The loop body for the thread's next source vertex. Positions count from the start of the batch. */
    method Iteration(edges: array<Edge>, lo: nat, hi: nat, degrees: array<int>)
      requires lo <= hi <= edges.Length && Sorted(BySrc, edges[lo..hi])
      requires OnCourse(edges[lo..hi])
      requires done < |indices| && Ascending(indices, degrees.Length)
      modifies this, degrees
      ensures OnCourse(edges[lo..hi]) && done == old(done) + 1
      ensures degrees[..] == old(degrees[..])[indices[old(done)] := OutDegree(edges[lo..hi], indices[old(done)])]
    {
      var src := indices[done];
      var first, last := Locate(edges, lo, hi, src);
      EqualRangeIsDegree(edges[lo..hi], src, first, last);
      degrees[src] := last - first;
      pos := last;
      done := done + 1;
    }

    /** The range of the edges with a source, searched for from pos on. */
    method Locate(edges: array<Edge>, lo: nat, hi: nat, src: int) returns (first: nat, last: nat)
      requires lo <= hi <= edges.Length && Sorted(BySrc, edges[lo..hi])
      requires pos <= hi - lo && forall i :: 0 <= i < pos ==> edges[lo..hi][i].src < src
      ensures first <= last <= hi - lo
      ensures forall i :: 0 <= i < first ==> edges[lo..hi][i].src < src
      ensures forall i :: first <= i < last ==> edges[lo..hi][i].src == src
      ensures forall i :: last <= i < hi - lo ==> src < edges[lo..hi][i].src
    {
      var key := Edge(src, 0, 0, 0);
      assert edges[lo + pos..hi] == edges[lo..hi][pos..];
      var f, l := EqualRange(edges, lo + pos, hi, key, BySrc);
      first, last := f - lo, l - lo;
    }
  }

  /** The threads of the degree loop: every vertex is some thread's. */
  ghost predicate Team(workers: seq<DegreeWorker>, size: nat) {
    && (forall t :: 0 <= t < |workers| ==> Ascending(workers[t].indices, size))
    && (forall t, u :: 0 <= t < u < |workers| ==> workers[t] != workers[u])
    && (forall i: nat :: i < size ==> Owned(workers, i))
  }

  ghost predicate Owned(workers: seq<DegreeWorker>, i: nat) {
    exists t, j :: 0 <= t < |workers| && 0 <= j < |workers[t].indices| && workers[t].indices[j] == i
  }

  ghost predicate TeamOnCourse(workers: seq<DegreeWorker>, es: seq<Edge>, degrees: seq<int>)
    requires Team(workers, |degrees|)
    reads workers
  {
    forall t :: 0 <= t < |workers| ==> workers[t].OnCourse(es) && workers[t].Counted(es, degrees)
  }

  ghost function Pending(workers: seq<DegreeWorker>): set<(nat, nat)>
    reads workers
  {
    set t: nat, j: nat | t < |workers| && workers[t].done <= j < |workers[t].indices| :: (t, j)
  }

  method Round(workers: seq<DegreeWorker>, t: nat, edges: array<Edge>, lo: nat, hi: nat, degrees: array<int>)
    requires lo <= hi <= edges.Length && Sorted(BySrc, edges[lo..hi])
    requires Team(workers, degrees.Length) && TeamOnCourse(workers, edges[lo..hi], degrees[..])
    requires t < |workers| && workers[t].done < |workers[t].indices|
    modifies degrees, workers[t]
    ensures TeamOnCourse(workers, edges[lo..hi], degrees[..])
    ensures Pending(workers) < old(Pending(workers))
  {
    workers[t].Iteration(edges, lo, hi, degrees);
    assert (t, old(workers[t].done)) in old(Pending(workers));
    forall u | 0 <= u < |workers|
      ensures workers[u].OnCourse(edges[lo..hi]) && workers[u].Counted(edges[lo..hi], degrees[..])
    {
      if u != t {
        assert workers[u] != workers[t];
        assert workers[u].OnCourse(edges[lo..hi]);
      }
    }
  }

  /** Counts every vertex's degree, with the threads' iterations interleaved in any way. */
  method CountDegrees(edges: array<Edge>, lo: nat, hi: nat, degrees: array<int>, shares: seq<seq<nat>>)
    requires lo <= hi <= edges.Length && Sorted(BySrc, edges[lo..hi])
    requires Schedule(shares, degrees.Length)
    modifies degrees
    ensures forall v :: 0 <= v < degrees.Length ==> degrees[v] == OutDegree(edges[lo..hi], v)
  {
    var workers: seq<DegreeWorker> := [];
    for t := 0 to |shares|
      invariant |workers| == t
      invariant forall u :: 0 <= u < t ==>
        fresh(workers[u]) && workers[u].indices == shares[u] && workers[u].pos == 0 && workers[u].done == 0
      invariant forall u, v :: 0 <= u < v < t ==> workers[u] != workers[v]
    {
      var worker := new DegreeWorker(shares[t]);
      workers := workers + [worker];
    }
    SharesAreOwned(workers, shares, degrees.Length);
    while exists t :: 0 <= t < |workers| && workers[t].done < |workers[t].indices|
      invariant TeamOnCourse(workers, edges[lo..hi], degrees[..])
      decreases Pending(workers)
    {
      var t: nat :| t < |workers| && workers[t].done < |workers[t].indices|;
      Round(workers, t, edges, lo, hi, degrees);
    }
    forall v | 0 <= v < degrees.Length
      ensures degrees[v] == OutDegree(edges[lo..hi], v)
    {
      assert Owned(workers, v);
    }
  }

  lemma SharesAreOwned(workers: seq<DegreeWorker>, shares: seq<seq<nat>>, size: nat)
    requires Schedule(shares, size) && |workers| == |shares|
    requires forall t :: 0 <= t < |workers| ==> workers[t].indices == shares[t]
    ensures forall i: nat :: i < size ==> Owned(workers, i)
  {
    forall i: nat | i < size
      ensures Owned(workers, i)
    {
      assert Shared(shares, i);
      var t, j :| 0 <= t < |shares| && 0 <= j < |shares[t]| && shares[t][j] == i;
      assert workers[t].indices[j] == i;
    }
  }

  /** A range of edges inside some array. */
  class Batch {
    const edges: array<Edge>
    var beginIter: nat
    var endIter: nat

    ghost predicate Valid()
      reads this
    {
      beginIter <= endIter <= edges.Length
    }

    ghost function View(): seq<Edge>
      requires Valid()
      reads this, edges
    {
      edges[beginIter..endIter]
    }

    constructor (edges: array<Edge>, begin: nat, end: nat)
      requires begin <= end <= edges.Length
      ensures Valid() && this.edges == edges && beginIter == begin && endIter == end
    {
      this.edges, beginIter, endIter := edges, begin, end;
    }

    /** A batch that owns a copy of the edges. */
    constructor Concrete(batch: Batch)
      requires batch.Valid()
      ensures Valid() && fresh(edges) && View() == batch.View()
    {
      var n := batch.endIter - batch.beginIter;
      var copy := new Edge[n](i requires 0 <= i < n && batch.Valid() && n == batch.endIter - batch.beginIter
                              reads batch, batch.edges => batch.edges[batch.beginIter + i]);
      edges := copy;
      beginIter, endIter := 0, n;
      new;
      assert edges[..] == batch.View();
    }

    /** The largest vertex that occurs in the batch. */
    method MaxVertexId() returns (v: int)
      requires Valid() && View() != []
      ensures MaxVertexOf(View(), v)
      ensures exists i :: 0 <= i < |View()| && (View()[i].src == v || View()[i].dst == v)
      ensures forall i :: 0 <= i < |View()| ==> View()[i].src <= v && View()[i].dst <= v
    {
      v := Max(edges[beginIter].src, edges[beginIter].dst);
      assert View()[0] == edges[beginIter];
      for i := beginIter + 1 to endIter
        invariant MaxVertexOf(View()[..i - beginIter], v)
      {
        assert View()[i - beginIter] == edges[i];
        var w := Max(edges[i].src, edges[i].dst);
        ghost var before := View()[..i - beginIter];
        ghost var k :| 0 <= k < |before| && (before[k].src == v || before[k].dst == v);
        assert View()[..i + 1 - beginIter] == before + [edges[i]];
        assert (before + [edges[i]])[k] == before[k];
        assert (before + [edges[i]])[|before|] == edges[i];
        if v < w { v := w; }
      }
      assert View()[..endIter - beginIter] == View();
    }

    /** Drops the edges before the threshold by moving the start of the range. */
    method Filter(threshold: int)
      requires Valid() && Sorted(ByTimestamp, View())
      modifies `beginIter
      ensures Valid() && View() == Recent(old(View()), threshold)
    {
      var key := Edge(0, 0, 0, threshold);
      ghost var es := View();
      var pos := LowerBound(edges, beginIter, endIter, key, ByTimestamp);
      forall i | 0 <= i < |es|
        ensures es[i].timestamp < threshold <==> i < pos - beginIter
      {
        assert es[i] == edges[beginIter + i];
      }
      RecentSuffix(es, threshold, pos - beginIter);
      beginIter := pos;
      assert View() == es[pos - old(beginIter)..];
    }

    /** Removes repeated edges and orders the rest by out-degree. */
    method DedupAndSortByOutDegree(scheduler: Scheduler)
      requires Valid() && View() != [] && Schedules(scheduler)
      requires forall e :: e in View() ==> e.src >= 0 && e.dst >= 0
      modifies `endIter, edges
      ensures Valid() && Dedup(old(View()), View()) && DegreeSorted(View())
      ensures edges[..beginIter] == old(edges[..beginIter]) && edges[old(endIter)..] == old(edges[endIter..])
    {
      ghost var es := View();
      DedupSorted();
      SortDeduped(scheduler, es);
    }

    method SortDeduped(scheduler: Scheduler, ghost es: seq<Edge>)
      requires Valid() && es != [] && Dedup(es, View()) && Sorted(BySrc, View()) && Schedules(scheduler)
      requires forall e :: e in es ==> e.src >= 0 && e.dst >= 0
      modifies edges
      ensures Dedup(es, View()) && DegreeSorted(View())
      ensures edges[..beginIter] == old(edges[..beginIter]) && edges[endIter..] == old(edges[endIter..])
    {
      DedupNonempty(es, View());
      ghost var r := View();
      SortByOutDegree(scheduler);
      DedupPermutes(es, r, View());
    }

    /** The second part: count degrees and sort by them. */
    method SortByOutDegree(scheduler: Scheduler)
      requires Valid() && View() != [] && Schedules(scheduler) && Sorted(BySrc, View())
      requires forall e :: e in View() ==> e.src >= 0 && e.dst >= 0
      modifies edges
      ensures multiset(View()) == multiset(old(View())) && DegreeSorted(View())
      ensures edges[..beginIter] == old(edges[..beginIter]) && edges[endIter..] == old(edges[endIter..])
    {
      ghost var r := View();
      var maxVertex := MaxVertexId();
      MaxVertexNonnegative(r, maxVertex);
      var degrees := new int[maxVertex + 1](i => i);
      CountDegrees(edges, beginIter, endIter, degrees, scheduler(maxVertex + 1));
      ByOutDegreeIsStrictWeak(degrees[..]);
      Sort(edges, beginIter, endIter, ByOutDegree(degrees[..]));
      SortedByDegree(r, View(), degrees[..]);
    }

    /** The first part: sort, copy the unique edges out and back, and shrink the range. */
    method DedupSorted()
      requires Valid() && View() != []
      modifies `endIter, edges
      ensures Valid() && Dedup(old(View()), View()) && EndsOrdered(View()) && Sorted(BySrc, View())
      ensures endIter <= old(endIter)
      ensures edges[..beginIter] == old(edges[..beginIter]) && edges[old(endIter)..] == old(edges[endIter..])
    {
      ghost var es := View();
      BySrcDestTimeIsStrictWeak();
      Sort(edges, beginIter, endIter, BySrcDestTime);
      UniqueDedups(es, View());
      KeepUnique();
    }

    /** Only the first of each run of edges with the same endpoints stays. */
    method KeepUnique()
      requires Valid() && View() != []
      modifies `endIter, edges
      ensures Valid() && View() == Unique(SameEnds, old(View())) && endIter <= old(endIter)
      ensures edges[..beginIter] == old(edges[..beginIter]) && edges[old(endIter)..] == old(edges[endIter..])
    {
      var deduped := new Edge[endIter - beginIter](_ => Edge(0, 0, 0, 0));
      var end := UniqueCopy(edges, beginIter, endIter, deduped, SameEnds);
      CopyBack(deduped, end);
      endIter := beginIter + end;
    }

    /** std::transform with the identity: copies the first n elements of src over the front of the range. */
    method CopyBack(src: array<Edge>, n: nat)
      requires Valid() && n <= src.Length && n <= endIter - beginIter && src != edges
      modifies edges
      ensures edges[beginIter..beginIter + n] == src[..n]
      ensures edges[..beginIter] == old(edges[..beginIter]) && edges[endIter..] == old(edges[endIter..])
    {
      for i := 0 to n
        invariant edges[beginIter..beginIter + i] == src[..i]
        invariant edges[..beginIter] == old(edges[..beginIter]) && edges[endIter..] == old(edges[endIter..])
      {
        edges[beginIter + i] := src[i];
        assert edges[beginIter..beginIter + i + 1] == edges[beginIter..beginIter + i] + [src[i]];
      }
    }
  }

  lemma OrderedBySrc(es: seq<Edge>)
    requires EndsOrdered(es)
    ensures Sorted(BySrc, es)
  {
    forall i, j | 0 <= i < j < |es|
      ensures !BySrc(es[j], es[i])
    {
      assert EndsBefore(es[i], es[j]);
    }
  }

  lemma DedupNonempty(es: seq<Edge>, r: seq<Edge>)
    requires Dedup(es, r) && es != []
    requires forall e :: e in es ==> e.src >= 0 && e.dst >= 0
    ensures r != [] && forall e :: e in r ==> e.src >= 0 && e.dst >= 0
  {
    LatestIsMaximum(es);
    assert es[0].Key() in Latest(es);
  }

  lemma MaxVertexNonnegative(r: seq<Edge>, v: int)
    requires MaxVertexOf(r, v) && r != []
    requires forall e :: e in r ==> e.src >= 0 && e.dst >= 0
    ensures v >= 0 && forall e :: e in r ==> e.src <= v && e.dst <= v
  {
    assert r[0] in r;
  }

  /** The second sort compares true degrees, before and after it. */
  lemma SortedByDegree(r: seq<Edge>, t: seq<Edge>, degrees: seq<int>)
    requires multiset(t) == multiset(r) && Sorted(ByOutDegree(degrees), t)
    requires forall v :: 0 <= v < |degrees| ==> degrees[v] == OutDegree(r, v)
    requires forall e :: e in r ==> 0 <= e.src < |degrees| && 0 <= e.dst < |degrees|
    ensures DegreeSorted(t)
  {
    SameMembers(r, t);
    forall i, j | 0 <= i < j < |t|
      ensures
        || OutDegree(t, t[i].src) > OutDegree(t, t[j].src)
        || (OutDegree(t, t[i].src) == OutDegree(t, t[j].src) && OutDegree(t, t[i].dst) >= OutDegree(t, t[j].dst))
    {
      assert t[i] in r && t[j] in r;
      CountPermutes(Leaves(t[i].src), r, t);
      CountPermutes(Leaves(t[j].src), r, t);
      CountPermutes(Leaves(t[i].dst), r, t);
      CountPermutes(Leaves(t[j].dst), r, t);
      assert !ByOutDegree(degrees)(t[j], t[i]);
    }
  }
}
