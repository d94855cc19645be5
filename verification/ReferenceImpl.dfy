/** The reference graph: a map of neighbour maps, with an edge count kept beside it. */
module ReferenceImpl {
  import opened Collections
  import opened Edges

  datatype EdgeProp = EdgeProp(weight: int, timestamp: int)

  type AdjacencyList = map<int, map<int, EdgeProp>>

  /** The same graph as one map from pairs of endpoints. */
  type View = map<Ends, EdgeProp>

  ghost function Pairs(g: AdjacencyList): set<Ends> {
    set v, n | v in g && n in g[v] :: Ends(v, n)
  }

  ghost function ViewOf(g: AdjacencyList): View {
    map k | k in Pairs(g) :: g[k.src][k.dst]
  }

  ghost predicate NoEmptyVertex(g: AdjacencyList) {
    forall v :: v in g ==> g[v] != map[]
  }

  // ---- What the operations do to the map of pairs --------------------------------------------------

  /** Weight -1 marks an entry that the lookup has just created. */
  function Insert(m: View, e: Edge): View {
    var k := e.Key();
    if k in m && m[k].weight != -1
    then m[k := EdgeProp(m[k].weight + e.weight, Max(m[k].timestamp, e.timestamp))]
    else m[k := EdgeProp(e.weight, e.timestamp)]
  }

  function InsertAll(m: View, es: seq<Edge>): View {
    if es == [] then m else Insert(InsertAll(m, es[..|es| - 1]), es[|es| - 1])
  }

  function Prune(m: View, threshold: int): View {
    map k | k in m && m[k].timestamp >= threshold :: m[k]
  }

  ghost predicate Positive(m: View) {
    forall k :: k in m ==> m[k].weight > 0
  }

  ghost predicate PositiveWeights(es: seq<Edge>) {
    forall i :: 0 <= i < |es| ==> es[i].weight > 0
  }

  /** The summed weight of the edges between two endpoints. */
  function WeightSum(es: seq<Edge>, k: Ends): int {
    if es == [] then 0
    else WeightSum(es[..|es| - 1], k) + if es[|es| - 1].Key() == k then es[|es| - 1].weight else 0
  }

  /** What a pair should hold after a batch: weights added up, and the latest of the times. */
  function Combined(m: View, es: seq<Edge>, k: Ends): EdgeProp
    requires k in m || k in Latest(es)
  {
    if k !in m then EdgeProp(WeightSum(es, k), Latest(es)[k])
    else if k !in Latest(es) then m[k]
    else EdgeProp(m[k].weight + WeightSum(es, k), Max(m[k].timestamp, Latest(es)[k]))
  }

  /** Whether inserting an edge finds its pair stored with weight -1 and takes the pair for a fresh entry. */
  predicate Hit(m: View, e: Edge) { e.Key() in m && m[e.Key()].weight == -1 }

  /** How many insertions of a batch do. */
  function Hits(m: View, es: seq<Edge>): nat {
    if es == [] then 0
    else Hits(m, es[..|es| - 1]) + if Hit(InsertAll(m, es[..|es| - 1]), es[|es| - 1]) then 1 else 0
  }

  /** As long as that does not happen, inserting a batch adds up weights and keeps the latest time for
      each pair. */
  lemma {:induction false} InsertAllCombined(m: View, es: seq<Edge>, k: Ends)
    requires Hits(m, es) == 0
    ensures k in InsertAll(m, es) <==> k in m || k in Latest(es)
    ensures k in InsertAll(m, es) ==> InsertAll(m, es)[k] == Combined(m, es, k)
    ensures k !in Latest(es) ==> WeightSum(es, k) == 0
  {
    if es != [] { InsertAllCombined(m, es[..|es| - 1], k); }
  }

  lemma {:induction false} PositiveNeverHits(m: View, es: seq<Edge>)
    requires Positive(m) && PositiveWeights(es)
    ensures Positive(InsertAll(m, es)) && Hits(m, es) == 0
  {
    if es != [] { PositiveNeverHits(m, es[..|es| - 1]); }
  }

  /** With positive weights, inserting a batch adds up weights and keeps the latest time for each pair. */
  lemma InsertAllSums(m: View, es: seq<Edge>)
    requires Positive(m) && PositiveWeights(es)
    ensures Positive(InsertAll(m, es)) && InsertAll(m, es).Keys == m.Keys + Latest(es).Keys
    ensures forall k :: k in InsertAll(m, es) ==> InsertAll(m, es)[k] == Combined(m, es, k)
    ensures forall k :: k !in Latest(es) ==> WeightSum(es, k) == 0
  {
    PositiveNeverHits(m, es);
    forall k
      ensures k in InsertAll(m, es) <==> k in m || k in Latest(es)
      ensures k in InsertAll(m, es) ==> InsertAll(m, es)[k] == Combined(m, es, k)
      ensures k !in Latest(es) ==> WeightSum(es, k) == 0
    {
      InsertAllCombined(m, es, k);
    }
  }

  lemma {:induction false} WeightSumConcat(es: seq<Edge>, fs: seq<Edge>, k: Ends)
    ensures WeightSum(es + fs, k) == WeightSum(es, k) + WeightSum(fs, k)
  {
    if fs == [] {
      assert es + fs == es;
    } else {
      var n := |fs| - 1;
      WeightSumConcat(es, fs[..n], k);
      assert (es + fs)[..|es| + n] == es + fs[..n];
    }
  }

  lemma WeightSumRemoves(es: seq<Edge>, j: nat, k: Ends)
    requires j < |es|
    ensures WeightSum(es, k) == WeightSum(es[..j] + es[j + 1..], k) + if es[j].Key() == k then es[j].weight else 0
    ensures multiset(es[..j] + es[j + 1..]) == multiset(es) - multiset{es[j]}
  {
    assert es == es[..j] + ([es[j]] + es[j + 1..]);
    WeightSumConcat(es[..j], es[j + 1..], k);
    WeightSumConcat(es[..j], [es[j]] + es[j + 1..], k);
    WeightSumConcat([es[j]], es[j + 1..], k);
    assert WeightSum([es[j]], k) == if es[j].Key() == k then es[j].weight else 0;
  }

  lemma {:induction false} WeightSumPermutes(es: seq<Edge>, fs: seq<Edge>, k: Ends)
    requires multiset(es) == multiset(fs)
    ensures WeightSum(es, k) == WeightSum(fs, k)
  {
    assert |multiset(es)| == |multiset(fs)|;
    if es != [] {
      assert es[0] in multiset(fs);
      var j :| 0 <= j < |fs| && fs[j] == es[0];
      WeightSumRemoves(es, 0, k);
      WeightSumRemoves(fs, j, k);
      WeightSumPermutes(es[..0] + es[1..], fs[..j] + fs[j + 1..], k);
    }
  }

  /** The order of a batch with positive weights does not matter. */
  lemma InsertAllPermutes(m: View, es: seq<Edge>, fs: seq<Edge>)
    requires Positive(m) && PositiveWeights(es) && multiset(es) == multiset(fs)
    ensures InsertAll(m, es) == InsertAll(m, fs)
  {
    PositivePermutes(es, fs);
    InsertAllSums(m, es);
    InsertAllSums(m, fs);
    forall k | k in m.Keys + Latest(es).Keys
      ensures Combined(m, es, k) == Combined(m, fs, k)
    {
      WeightSumPermutes(es, fs, k);
    }
  }

  lemma PositivePermutes(es: seq<Edge>, fs: seq<Edge>)
    requires PositiveWeights(es) && multiset(es) == multiset(fs)
    ensures PositiveWeights(fs) && Latest(es) == Latest(fs)
  {
    assert forall e :: e in es <==> e in multiset(es);
    assert forall e :: e in fs <==> e in multiset(fs);
    LatestSameMembers(es, fs);
    forall i | 0 <= i < |fs|
      ensures fs[i].weight > 0
    {
      assert fs[i] in es;
    }
  }

  /** Inserting a batch in two parts is inserting it at once. */
  lemma {:induction false} InsertAllSplits(m: View, es: seq<Edge>, fs: seq<Edge>)
    ensures InsertAll(m, es + fs) == InsertAll(InsertAll(m, es), fs)
  {
    if fs == [] {
      assert es + fs == es;
    } else {
      var n := |fs| - 1;
      InsertAllSplits(m, es, fs[..n]);
      assert (es + fs)[..|es| + n] == es + fs[..n];
    }
  }

  // ---- The edge count --------------------------------------------------------------------------------

  /** How many pairs the count claims to have been added by inserting an edge. */
  function Counted(m: View, e: Edge): int {
    if e.Key() in m && m[e.Key()].weight != -1 then 0 else 1
  }

  function CountedAll(m: View, es: seq<Edge>): int {
    if es == [] then 0
    else CountedAll(m, es[..|es| - 1]) + Counted(InsertAll(m, es[..|es| - 1]), es[|es| - 1])
  }

  /** The count runs ahead by one for every hit. */
  lemma {:induction false} HitsAreCountedTwice(m: View, es: seq<Edge>)
    ensures |m| + CountedAll(m, es) == |InsertAll(m, es)| + Hits(m, es)
  {
    if es != [] {
      var init, e := es[..|es| - 1], es[|es| - 1];
      HitsAreCountedTwice(m, init);
      var r, k := InsertAll(m, init), e.Key();
      UpdateSize(r, k, Insert(r, e)[k]);
      assert Insert(r, e) == r[k := Insert(r, e)[k]];
    }
  }

  /** Edge i comes when the weights of its pair, stored and in the batch before it, add up to -1. */
  predicate MeetsMark(m: View, es: seq<Edge>, i: nat)
    requires i < |es|
  {
    var k, before := es[i].Key(), es[..i];
    (k in m || k in Latest(before)) && Combined(m, before, k).weight == -1
  }

  ghost predicate NeverMeetsMark(m: View, es: seq<Edge>) {
    forall i :: 0 <= i < |es| ==> !MeetsMark(m, es, i)
  }

  lemma {:induction false} HitsIffMeetsMark(m: View, es: seq<Edge>)
    ensures Hits(m, es) == 0 <==> NeverMeetsMark(m, es)
  {
    if es != [] {
      var n := |es| - 1;
      var init := es[..n];
      HitsIffMeetsMark(m, init);
      forall i | 0 <= i < n
        ensures MeetsMark(m, init, i) <==> MeetsMark(m, es, i)
      {
        assert init[..i] == es[..i];
      }
      if Hits(m, init) == 0 {
        InsertAllCombined(m, init, es[n].Key());
        assert Hit(InsertAll(m, init), es[n]) <==> MeetsMark(m, es, n);
      } else {
        var i :| 0 <= i < n && MeetsMark(m, init, i);
        assert MeetsMark(m, es, i);
      }
    }
  }

  /** The count stays right over a batch exactly when no edge comes while the weights of its pair add up
      to -1. */
  lemma CountStaysRightIff(m: View, es: seq<Edge>)
    ensures |m| + CountedAll(m, es) == |InsertAll(m, es)| <==> NeverMeetsMark(m, es)
  {
    HitsAreCountedTwice(m, es);
    HitsIffMeetsMark(m, es);
  }

  /** An edge of weight -1 and another one for the same pair: one pair, counted twice, and the first edge is
      forgotten together with its time. */
  lemma MarkedWeightIsCountedTwice(w: int, t: int, u: int)
    ensures var es := [Edge(0, 1, -1, t), Edge(0, 1, w, u)];
      CountedAll(map[], es) == 2 && InsertAll(map[], es) == map[Ends(0, 1) := EdgeProp(w, u)]
  {
    var e, f := Edge(0, 1, -1, t), Edge(0, 1, w, u);
    var es := [e, f];
    assert es[..1] == [e] && [e][..0] == [] && e.Key() == f.Key() == Ends(0, 1);
    assert InsertAll(map[], [e]) == map[Ends(0, 1) := EdgeProp(-1, t)];
    assert CountedAll(map[], [e]) == 1;
  }

  /** Any stored pair of weight -1 is replaced, and any other one is added to. */
  lemma HitForgets(m: View, e: Edge, f: Edge)
    requires f.Key() == e.Key() && !(e.Key() in m && m[e.Key()].weight != -1)
    ensures InsertAll(m, [e, f])
         == m[e.Key() := if e.weight == -1 then EdgeProp(f.weight, f.timestamp)
                         else EdgeProp(e.weight + f.weight, Max(e.timestamp, f.timestamp))]
  {
    assert [e, f][..1] == [e] && [e][..0] == [];
    assert InsertAll(m, [e]) == m[e.Key() := EdgeProp(e.weight, e.timestamp)];
  }

  /** What may happen to a graph, and what it makes of the stored pairs and of the count. */
  datatype Change = Added(batch: seq<Edge>) | Expired(threshold: int)

  function After(m: View, changes: seq<Change>): View {
    if changes == [] then m
    else
      match changes[|changes| - 1]
      case Added(es) => InsertAll(After(m, changes[..|changes| - 1]), es)
      case Expired(t) => Prune(After(m, changes[..|changes| - 1]), t)
  }

  function CountAfter(m: View, count: int, changes: seq<Change>): int {
    if changes == [] then count
    else
      var r, n := After(m, changes[..|changes| - 1]), CountAfter(m, count, changes[..|changes| - 1]);
      match changes[|changes| - 1]
      case Added(es) => n + CountedAll(r, es)
      case Expired(t) => n - |r| + |Prune(r, t)|
  }

  ghost predicate RunNeverMeetsMark(m: View, changes: seq<Change>) {
    forall i :: 0 <= i < |changes| && changes[i].Added? ==> NeverMeetsMark(After(m, changes[..i]), changes[i].batch)
  }

  lemma RunStep(m: View, init: seq<Change>, last: Change)
    ensures RunNeverMeetsMark(m, init + [last])
       <==> RunNeverMeetsMark(m, init) && (last.Added? ==> NeverMeetsMark(After(m, init), last.batch))
  {
    var changes, n := init + [last], |init|;
    assert changes[..n] == init && changes[n] == last;
    assert forall i :: 0 <= i < n ==> init[..i] == changes[..i] && init[i] == changes[i];
    if RunNeverMeetsMark(m, changes) {
      forall i | 0 <= i < n && init[i].Added?
        ensures NeverMeetsMark(After(m, init[..i]), init[i].batch)
      {
        assert changes[i].Added?;
      }
    }
  }

  lemma {:induction false} RunCounts(m: View, count: int, changes: seq<Change>)
    ensures CountAfter(m, count, changes) - |After(m, changes)| >= count - |m|
    ensures CountAfter(m, count, changes) - |After(m, changes)| == count - |m| <==> RunNeverMeetsMark(m, changes)
  {
    if changes != [] {
      var init, last := changes[..|changes| - 1], changes[|changes| - 1];
      RunCounts(m, count, init);
      assert changes == init + [last];
      RunStep(m, init, last);
      if last.Added? {
        HitsAreCountedTwice(After(m, init), last.batch);
        HitsIffMeetsMark(After(m, init), last.batch);
      }
    }
  }

  /** Over any run of insertions and deletions the count of an empty graph ends up right exactly when no
      edge of any batch comes while the weights of its pair add up to -1: deleting repairs nothing. */
  lemma RunCountIsRightIff(changes: seq<Change>)
    ensures CountAfter(map[], 0, changes) == |After(map[], changes)| <==> RunNeverMeetsMark(map[], changes)
  {
    RunCounts(map[], 0, changes);
  }

  // ---- Times -----------------------------------------------------------------------------------------

  function Times(m: View): map<Ends, int> {
    map k | k in m :: m[k].timestamp
  }

  /** The later of two times wherever both maps have one. */
  function Later(m: map<Ends, int>, n: map<Ends, int>): map<Ends, int> {
    map k | k in m.Keys + n.Keys :: if k !in n then m[k] else if k !in m then n[k] else Max(m[k], n[k])
  }

  lemma TimesOfInsertAll(m: View, es: seq<Edge>)
    requires Positive(m) && PositiveWeights(es)
    ensures Times(InsertAll(m, es)) == Later(Times(m), Latest(es))
  {
    InsertAllSums(m, es);
  }

  // ---- The graph -------------------------------------------------------------------------------------

  function Neighbours(g: AdjacencyList, v: int): map<int, EdgeProp> {
    if v in g then g[v] else map[]
  }

  lemma ViewOfUpdate(g: AdjacencyList, v: int, n: int, p: EdgeProp)
    ensures ViewOf(g[v := Neighbours(g, v)[n := p]]) == ViewOf(g)[Ends(v, n) := p]
  {
    var h := g[v := Neighbours(g, v)[n := p]];
    assert Pairs(h) == Pairs(g) + {Ends(v, n)};
  }

  /** How the number of pairs changes with the neighbours of one vertex. */
  lemma ViewSize(g: AdjacencyList, v: int, ns: map<int, EdgeProp>)
    ensures |ViewOf(g[v := ns])| == |ViewOf(g)| - |Neighbours(g, v)| + |ns|
  {
    var others := set k | k in Pairs(g) && k.src != v;
    PairsAt(g, v, others);
    PairsAt(g[v := ns], v, others);
    assert ViewOf(g).Keys == Pairs(g) && ViewOf(g[v := ns]).Keys == Pairs(g[v := ns]);
    assert |ViewOf(g)| == |ViewOf(g).Keys| && |ViewOf(g[v := ns])| == |ViewOf(g[v := ns]).Keys|;
  }

  lemma PairsAt(g: AdjacencyList, v: int, others: set<Ends>)
    requires others == set k | k in Pairs(g) && k.src != v
    ensures |Pairs(g)| == |others| + |Neighbours(g, v)|
  {
    var mine := set k | k in Pairs(g) && k.src == v;
    SameSize(Neighbours(g, v).Keys, mine, v);
    assert Pairs(g) == others + mine && others !! mine;
    assert |Neighbours(g, v)| == |Neighbours(g, v).Keys|;
  }

  lemma {:induction false} SameSize(ns: set<int>, s: set<Ends>, v: int)
    requires forall k :: k in s <==> k.src == v && k.dst in ns
    ensures |s| == |ns|
  {
    if ns == {} {
      assert s == {};
    } else {
      var n := Nonempty(ns);
      SameSize(ns - {n}, s - {Ends(v, n)}, v);
      assert Ends(v, n) in s;
    }
  }

  lemma ViewOfDropEmpty(g: AdjacencyList, v: int)
    requires v in g && g[v] == map[]
    ensures ViewOf(g - {v}) == ViewOf(g)
  {
    assert Pairs(g - {v}) == Pairs(g);
  }

  /** The neighbours that are recent enough. */
  ghost function Kept(ns: map<int, EdgeProp>, threshold: int): map<int, EdgeProp> {
    map n | n in ns && ns[n].timestamp >= threshold :: ns[n]
  }

  /** The graph during a deletion that has still to visit some of the vertices. */
  ghost function Swept(g: AdjacencyList, rest: set<int>, threshold: int): AdjacencyList {
    map v | v in g && (v in rest || Kept(g[v], threshold) != map[]) ::
      if v in rest then g[v] else Kept(g[v], threshold)
  }

  lemma SweptStep(g: AdjacencyList, rest: set<int>, threshold: int, v: int)
    requires v in rest && rest <= g.Keys
    ensures Swept(g, rest - {v}, threshold)
         == if Kept(g[v], threshold) == map[] then Swept(g, rest, threshold) - {v}
            else Swept(g, rest, threshold)[v := Kept(g[v], threshold)]
  {
  }

  lemma SweptAll(g: AdjacencyList, threshold: int)
    ensures ViewOf(Swept(g, {}, threshold)) == Prune(ViewOf(g), threshold)
    ensures NoEmptyVertex(Swept(g, {}, threshold))
  {
    var h := Swept(g, {}, threshold);
    forall k: Ends
      ensures k in Pairs(h) <==> k in Pairs(g) && g[k.src][k.dst].timestamp >= threshold
    {
      if k.src in g && k.dst in g[k.src] && g[k.src][k.dst].timestamp >= threshold {
        assert k.dst in Kept(g[k.src], threshold);
      }
    }
  }

  /** Pruning keeps exactly the pairs at or after the threshold, as they are. */
  lemma PrunedAt(m: View, threshold: int, k: Ends)
    ensures k in Prune(m, threshold) <==> k in m && threshold <= m[k].timestamp
    ensures k in Prune(m, threshold) ==> Prune(m, threshold)[k] == m[k]
  {
  }

  /** The fields of a graph at some time. */
  datatype State = State(graph: AdjacencyList, numEdges: int)

  class ReferenceImpl {
    var graph: AdjacencyList
    var numEdges: int

    ghost function Now(): State
      reads this
    {
      State(graph, numEdges)
    }

    /** The edge count is right and no vertex is kept without neighbours. */
    ghost predicate Consistent()
      reads this
    {
      numEdges == |ViewOf(graph)| && NoEmptyVertex(graph)
    }

    ghost function View(): View
      reads this
    {
      ViewOf(graph)
    }

    constructor ()
      ensures Consistent() && View() == map[] && Now() == State(map[], 0)
    {
      graph, numEdges := map[], 0;
      new;
      assert Pairs(graph) == {};
      assert View() == map[] && |View()| == 0;
    }

    /** Erases a vertex's old neighbours one by one. */
    method DeleteOldNeighbours(v: int, threshold: int)
      requires v in graph
      modifies this
      ensures graph == old(graph)[v := Kept(old(graph)[v], threshold)]
      ensures numEdges == old(numEdges) - |old(graph)[v]| + |graph[v]|
    {
      ghost var g := graph;
      var neighbours := graph[v];
      var rest := neighbours.Keys;
      while rest != {}
        invariant rest <= neighbours.Keys <= g[v].Keys
        invariant neighbours == map n | n in g[v] && (n in rest || g[v][n].timestamp >= threshold) :: g[v][n]
        invariant numEdges == old(numEdges) - |g[v]| + |neighbours| && graph == g
        decreases rest
      {
        ghost var some := Nonempty(rest);
        var n :| n in rest;
        if neighbours[n].timestamp < threshold {
          RemoveSize(neighbours, n);
          neighbours := neighbours - {n};
          numEdges := numEdges - 1;
        }
        rest := rest - {n};
      }
      assert neighbours == Kept(g[v], threshold);
      graph := graph[v := neighbours];
    }

    /** Deletes at one vertex, and removes the vertex when no neighbour is left. */
    method DeleteAt(v: int, threshold: int)
      requires v in graph
      modifies this
      ensures numEdges - |View()| == old(numEdges - |View()|)
      ensures var kept := Kept(old(graph)[v], threshold);
        graph == if kept == map[] then old(graph) - {v} else old(graph)[v := kept]
    {
      ViewSize(graph, v, Kept(graph[v], threshold));
      DeleteOldNeighbours(v, threshold);
      if |graph[v]| == 0 {
        ViewOfDropEmpty(graph, v);
        graph := graph - {v};
      }
    }

    /** However far the count is off, deleting leaves it off by as much. */
    method DeleteEdgesOlderThan(threshold: int)
      modifies this
      ensures View() == Prune(old(View()), threshold) && NoEmptyVertex(graph)
      ensures forall v :: v in graph ==> graph[v] != map[]
      ensures numEdges - |View()| == old(numEdges - |View()|)
    {
      ghost var g := graph;
      var rest := graph.Keys;
      while rest != {}
        invariant rest <= g.Keys && graph == Swept(g, rest, threshold)
        invariant numEdges - |View()| == old(numEdges - |View()|)
        decreases rest
      {
        ghost var some := Nonempty(rest);
        var v :| v in rest;
        DeleteAt(v, threshold);
        SweptStep(g, rest, threshold, v);
        rest := rest - {v};
      }
      SweptAll(g, threshold);
    }

    method InsertEdge(e: Edge)
      modifies this
      ensures View() == Insert(old(View()), e) && numEdges == old(numEdges) + Counted(old(View()), e)
      ensures old(NoEmptyVertex(graph)) ==> NoEmptyVertex(graph)
    {
      // graph[e.src][e.dst] creates an entry with weight -1 when there is none
      var neighbours := Neighbours(graph, e.src);
      var edge := if e.dst in neighbours then neighbours[e.dst] else EdgeProp(-1, -1);
      assert e.Key() in ViewOf(graph) <==> e.dst in neighbours;
      if edge.weight == -1 {
        edge := EdgeProp(e.weight, e.timestamp);
        numEdges := numEdges + 1;
      } else {
        edge := EdgeProp(edge.weight + e.weight, Max(edge.timestamp, e.timestamp));
      }
      ViewOfUpdate(graph, e.src, e.dst, edge);
      graph := graph[e.src := neighbours[e.dst := edge]];
    }

    /** The count ends up ahead by one more for every edge that finds its pair stored with weight -1. */
    method InsertBatch(batch: seq<Edge>)
      modifies this
      ensures View() == InsertAll(old(View()), batch)
      ensures numEdges == old(numEdges) + CountedAll(old(View()), batch)
      ensures numEdges - |View()| == old(numEdges - |View()|) + Hits(old(View()), batch)
      ensures old(NoEmptyVertex(graph)) ==> NoEmptyVertex(graph)
      ensures old(numEdges == |View()|) ==> (numEdges == |View()| <==> NeverMeetsMark(old(View()), batch))
    {
      ghost var m := View();
      for i := 0 to |batch|
        invariant View() == InsertAll(m, batch[..i]) && numEdges == old(numEdges) + CountedAll(m, batch[..i])
        invariant old(NoEmptyVertex(graph)) ==> NoEmptyVertex(graph)
      {
        InsertEdge(batch[i]);
        assert batch[..i + 1][..i] == batch[..i];
      }
      assert batch[..|batch|] == batch;
      HitsAreCountedTwice(m, batch);
      HitsIffMeetsMark(m, batch);
    }

    function GetOutDegree(v: int): (d: int)
      reads this
      ensures d == |set k | k in Pairs(graph) && k.src == v|
    {
      DegreeCountsPairs(graph, v);
      if v in graph then |graph[v]| else 0
    }
  }

  lemma DegreeCountsPairs(g: AdjacencyList, v: int)
    ensures |set k | k in Pairs(g) && k.src == v| == |Neighbours(g, v)|
  {
    SameSize(Neighbours(g, v).Keys, (set k | k in Pairs(g) && k.src == v), v);
    assert |Neighbours(g, v)| == |Neighbours(g, v).Keys|;
  }
}
