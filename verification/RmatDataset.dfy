/** Batches of generated edges: a parallel loop in which every thread keeps its own copy of the
    generator and skips ahead over the indices that other threads own. */
module RmatDataset {
  import opened Edges
  import opened Modular
  import opened PrngEngine
  import opened Rmat
  import opened Threads

  // ---- The edges of a stream, by index -------------------------------------------------------------

  /** The endpoints that successive calls of next_edge yield from a position on. */
  type EdgeStream = nat -> Ends

  ghost predicate Yields(m: RmatParams, p: Pos, s: EdgeStream)
    requires m.scale >= 1
  {
    forall i: nat {:trigger Src(m, AfterEdges(m, p, i))} ::
      s(i) == Ends(Src(m, AfterEdges(m, p, i)), Dst(m, AfterEdges(m, p, i)))
  }

  ghost function StreamFrom(m: RmatParams, p: Pos): (s: EdgeStream)
    requires m.scale >= 1
    ensures Yields(m, p, s)
  {
    (i: nat) => Ends(Src(m, AfterEdges(m, p, i)), Dst(m, AfterEdges(m, p, i)))
  }

  ghost function EdgeAt(s: EdgeStream, at: nat, timestamp: int): Edge {
    Edge(s(at).src, s(at).dst, 1, timestamp)
  }

  /** What one serial loop generates from place at of the stream on. */
  ghost function SerialEdges(s: EdgeStream, at: nat, timestamp: int, n: nat): seq<Edge> {
    if n == 0 then [] else SerialEdges(s, at, timestamp, n - 1) + [EdgeAt(s, at + n - 1, timestamp + n - 1)]
  }

  lemma {:induction false} SerialEdge(s: EdgeStream, at: nat, timestamp: int, n: nat, i: nat)
    requires i < n
    ensures |SerialEdges(s, at, timestamp, n)| == n
    ensures SerialEdges(s, at, timestamp, n)[i] == EdgeAt(s, at + i, timestamp + i)
  {
    if n > 1 { SerialEdge(s, at, timestamp, n - 1, if i < n - 1 then i else 0); }
  }

  // ---- Re-rolling self-edges -----------------------------------------------------------------------

  ghost predicate SelfEdge(s: EdgeStream, at: nat) { s(at).src == s(at).dst }

  /** Some edge from a place on is not a self-edge: the condition under which drawing again there ends. */
  ghost predicate EscapesAt(s: EdgeStream, at: nat) {
    exists i: nat :: at <= i && !SelfEdge(s, i)
  }

  /** The first place from at on whose edge is not a self-edge. */
  ghost predicate IsNextProper(s: EdgeStream, at: nat, i: nat) {
    at <= i && !SelfEdge(s, i) && forall j: nat :: at <= j < i ==> SelfEdge(s, j)
  }

  lemma {:induction false} NextProperExists(s: EdgeStream, at: nat, i: nat)
    requires at <= i && !SelfEdge(s, i)
    ensures exists j: nat :: IsNextProper(s, at, j)
  {
    if j: nat :| at <= j < i && !SelfEdge(s, j) {
      NextProperExists(s, at, j);
    } else {
      assert IsNextProper(s, at, i);
    }
  }

  ghost function NextProper(s: EdgeStream, at: nat): (i: nat)
    requires EscapesAt(s, at)
    ensures IsNextProper(s, at, i)
  {
    var k: nat :| at <= k && !SelfEdge(s, k);
    NextProperExists(s, at, k);
    var i: nat :| IsNextProper(s, at, i);
    i
  }

  /** A batch and the place of the stream where its construction stopped. */
  datatype Generated = Generated(edges: seq<Edge>, end: nat)

  /** Whether the serial second pass over freshly generated edges comes to an end, with the stream going on at
      place at: whenever it draws again, some edge to come is not a self-edge. */
  ghost predicate Stops(s: EdgeStream, es: seq<Edge>, at: nat)
    decreases |es|, 0
  {
    es != [] ==>
      var init, e := es[..|es| - 1], es[|es| - 1];
      Stops(s, init, at) && (e.src == e.dst ==> EscapesAt(s, Rerolled(s, init, at).end))
  }

  /** What the second pass makes of them. */
  ghost function Rerolled(s: EdgeStream, es: seq<Edge>, at: nat): Generated
    requires Stops(s, es, at)
    decreases |es|, 1
  {
    if es == [] then Generated([], at)
    else
      var b, e := Rerolled(s, es[..|es| - 1], at), es[|es| - 1];
      if e.src != e.dst then Generated(b.edges + [e], b.end)
      else
        var i := NextProper(s, b.end);
        Generated(b.edges + [Edge(s(i).src, s(i).dst, e.weight, e.timestamp)], i + 1)
  }

  lemma {:induction false} StopsBefore(s: EdgeStream, es: seq<Edge>, at: nat, n: nat)
    requires Stops(s, es, at) && n <= |es|
    ensures Stops(s, es[..n], at)
  {
    if n < |es| {
      StopsBefore(s, es[..|es| - 1], at, n);
      assert es[..|es| - 1][..n] == es[..n];
    } else {
      assert es[..n] == es;
    }
  }

  /** After the second pass no edge is a self-edge; weights, timestamps and proper edges stay. */
  lemma {:induction false} RerolledEdges(s: EdgeStream, es: seq<Edge>, at: nat)
    requires Stops(s, es, at)
    ensures var r := Rerolled(s, es, at).edges;
      && |r| == |es|
      && forall i :: 0 <= i < |es| ==>
           && r[i].src != r[i].dst
           && r[i].weight == es[i].weight && r[i].timestamp == es[i].timestamp
           && (es[i].src != es[i].dst ==> r[i] == es[i])
  {
    if es != [] { RerolledEdges(s, es[..|es| - 1], at); }
  }

  ghost predicate NoSelfEdges(es: seq<Edge>) {
    forall i :: 0 <= i < |es| ==> es[i].src != es[i].dst
  }

  /** It draws from the stream exactly when there are self-edges. */
  lemma {:induction false} RerolledEnd(s: EdgeStream, es: seq<Edge>, at: nat)
    requires Stops(s, es, at)
    ensures Rerolled(s, es, at).end >= at
    ensures Rerolled(s, es, at).end == at <==> NoSelfEdges(es)
    ensures NoSelfEdges(es) ==> Rerolled(s, es, at).edges == es
  {
    if es != [] {
      var init := es[..|es| - 1];
      RerolledEnd(s, init, at);
      assert es == init + [es[|es| - 1]];
      assert NoSelfEdges(es) <==> NoSelfEdges(init) && es[|es| - 1].src != es[|es| - 1].dst;
    }
  }

  /** Constructing a batch of the given size at a place of the stream comes to an end. */
  ghost predicate BatchStops(s: EdgeStream, at: nat, size: nat, timestamp: int) {
    Stops(s, SerialEdges(s, at, timestamp, size), at + size)
  }

  /** What it amounts to. */
  ghost function BatchFrom(s: EdgeStream, at: nat, size: nat, timestamp: int): Generated
    requires BatchStops(s, at, size, timestamp)
  {
    Rerolled(s, SerialEdges(s, at, timestamp, size), at + size)
  }

  // ---- The parallel loop ---------------------------------------------------------------------------

  /** A generator that has gone i edges on from position p. */
  ghost predicate Gone(g: RmatEdgeGenerator, m: RmatParams, p: Pos, i: nat)
    requires m.scale >= 1
    reads g.engine
  {
    g.Valid() && g.Params() == m && g.Position() == AfterEdges(m, p, i)
  }

  /** No 64-bit overflow happens while a batch of this size is generated. */
  ghost predicate Fits(m: RmatParams, size: nat) {
    size < 0x1_0000_0000_0000_0000 && size * m.PerEdge() < 0x1_0000_0000_0000_0000
  }

  lemma SkipFits(m: RmatParams, n: nat, size: nat)
    requires m.scale >= 1 && n <= size && Fits(m, size)
    ensures Fits(m, n)
  {
    NonNegativeProduct(m.Draws(), m.k);
    ProductGrows(n, size, m.PerEdge());
  }

  /** Skipping n edges, when the engine calls they take fit in 64 bits. */
  method Skip(g: RmatEdgeGenerator, n: nat, ghost m: RmatParams, ghost p: Pos, ghost i: nat)
    requires m.scale >= 1 && Gone(g, m, p, i)
    requires Fits(m, n)
    modifies g.engine
    ensures Gone(g, m, p, i + n)
  {
    AfterEdgesIsSteps(m, AfterEdges(m, p, i), n);
    AfterEdgesCompose(m, p, i, n);
    NonNegativeProduct(m.Draws(), m.k);
    NonNegativeProduct(n, m.PerEdge());
    g.Discard(n);
  }

  method Draw(g: RmatEdgeGenerator, ghost m: RmatParams, ghost p: Pos, ghost s: EdgeStream, ghost i: nat)
    returns (src: nat, dst: nat)
    requires m.scale >= 1 && Yields(m, p, s) && Gone(g, m, p, i)
    modifies g.engine
    ensures Gone(g, m, p, i + 1)
    ensures Ends(src, dst) == s(i)
  {
    src, dst := g.NextEdge();
  }

  /** The variables of one thread: its copies of the firstprivate ones, and how many of the indices
      that the schedule gave it are done. */
  class Worker {
    const localRng: RmatEdgeGenerator
    const indices: seq<nat>
    var pos: nat
    var firstTimestamp: int
    var done: nat

    /** The thread stands where the serial loop stands after its last index. */
    ghost predicate OnCourse(m: RmatParams, p: Pos, timestamp: int)
      requires m.scale >= 1
      reads this, localRng.engine
    {
      && Gone(localRng, m, p, pos) && firstTimestamp == timestamp + pos
      && done <= |indices| && pos == Reached(indices, done)
    }

    /** The indices that are done hold the edges of the serial loop. */
    ghost predicate Wrote(es: seq<Edge>, s: EdgeStream, timestamp: int)
      requires done <= |indices| && Ascending(indices, |es|)
      reads this
    {
      forall j :: 0 <= j < done ==> es[indices[j]] == EdgeAt(s, indices[j], timestamp + indices[j])
    }

    constructor (generator: RmatEdgeGenerator, firstTimestamp: int, indices: seq<nat>)
      requires generator.Valid() && generator.scale >= 1
      ensures fresh(localRng.engine) && localRng.CloneOf(generator) && this.indices == indices && done == 0
      ensures OnCourse(generator.Params(), generator.Position(), firstTimestamp)
    {
      localRng := new RmatEdgeGenerator.Copy(generator);
      this.indices := indices;
      pos, done := 0, 0;
      this.firstTimestamp := firstTimestamp;
    }

    /** The body of the parallel loop, executed for the thread's next index. */
    method Iteration(edges: array<Edge>, ghost m: RmatParams, ghost p: Pos, ghost s: EdgeStream, ghost timestamp: int)
      requires m.scale >= 1 && Yields(m, p, s) && OnCourse(m, p, timestamp)
      requires done < |indices| && Ascending(indices, edges.Length) && Fits(m, edges.Length)
      modifies this, localRng.engine, edges
      ensures OnCourse(m, p, timestamp) && done == old(done) + 1
      ensures edges[..] == old(edges[..])[indices[old(done)] := EdgeAt(s, indices[old(done)], timestamp + indices[old(done)])]
    {
      var i := indices[done];
      assert pos <= i;
      if pos < i {
        var skipDistance := i - pos;
        SkipFits(m, skipDistance, edges.Length);
        Skip(localRng, skipDistance, m, p, pos);
        firstTimestamp := firstTimestamp + skipDistance;
      }
      var src, dst := Draw(localRng, m, p, s, i);
      edges[i] := Edge(src, dst, 1, firstTimestamp);
      firstTimestamp := firstTimestamp + 1;
      pos := i + 1;
      done := done + 1;
    }
  }

  /** The threads of one parallel region: no shared generator, and every index is some thread's. */
  ghost predicate Team(workers: seq<Worker>, size: nat) {
    && (forall t :: 0 <= t < |workers| ==> Ascending(workers[t].indices, size))
    && (forall t, u :: 0 <= t < u < |workers| ==>
          workers[t] != workers[u] && workers[t].localRng.engine != workers[u].localRng.engine)
    && (forall i: nat :: i < size ==> Owned(workers, i))
  }

  ghost predicate Owned(workers: seq<Worker>, i: nat) {
    exists t, j :: 0 <= t < |workers| && 0 <= j < |workers[t].indices| && workers[t].indices[j] == i
  }

  /** The iterations that threads have still to do. */
  ghost function Pending(workers: seq<Worker>): set<(nat, nat)>
    reads workers
  {
    set t: nat, j: nat | t < |workers| && workers[t].done <= j < |workers[t].indices| :: (t, j)
  }

  ghost function Private(workers: seq<Worker>): set<object> {
    (set t | 0 <= t < |workers| :: workers[t] as object) + (set t | 0 <= t < |workers| :: workers[t].localRng.engine)
  }

  /** All threads stand where the serial loop stood after their last index, and wrote what it wrote. */
  ghost predicate TeamOnCourse(workers: seq<Worker>, es: seq<Edge>,
                               m: RmatParams, p: Pos, s: EdgeStream, timestamp: int)
    requires m.scale >= 1 && Team(workers, |es|)
    reads workers, set t | 0 <= t < |workers| :: workers[t].localRng.engine
  {
    forall t :: 0 <= t < |workers| ==>
      workers[t].OnCourse(m, p, timestamp) && workers[t].Wrote(es, s, timestamp)
  }

  /** One thread does its next iteration. */
  method Round(workers: seq<Worker>, t: nat, edges: array<Edge>,
               ghost m: RmatParams, ghost p: Pos, ghost s: EdgeStream, ghost timestamp: int)
    requires m.scale >= 1 && Yields(m, p, s) && Fits(m, edges.Length)
    requires Team(workers, edges.Length) && TeamOnCourse(workers, edges[..], m, p, s, timestamp)
    requires t < |workers| && workers[t].done < |workers[t].indices|
    modifies edges, workers[t], workers[t].localRng.engine
    ensures TeamOnCourse(workers, edges[..], m, p, s, timestamp)
    ensures Pending(workers) < old(Pending(workers))
  {
    ghost var i := workers[t].indices[workers[t].done];
    workers[t].Iteration(edges, m, p, s, timestamp);
    assert (t, old(workers[t].done)) in old(Pending(workers));
    forall u | 0 <= u < |workers|
      ensures workers[u].OnCourse(m, p, timestamp) && workers[u].Wrote(edges[..], s, timestamp)
    {
      if u != t {
        assert workers[u] != workers[t] && workers[u].localRng.engine != workers[t].localRng.engine;
        assert workers[u].OnCourse(m, p, timestamp);
      }
    }
  }

  lemma AllWritten(workers: seq<Worker>, es: seq<Edge>, s: EdgeStream, timestamp: int)
    requires Team(workers, |es|)
    requires forall t :: 0 <= t < |workers| ==> workers[t].done == |workers[t].indices|
    requires forall t :: 0 <= t < |workers| ==> workers[t].Wrote(es, s, timestamp)
    ensures es == SerialEdges(s, 0, timestamp, |es|)
  {
    if |es| > 0 { SerialEdge(s, 0, timestamp, |es|, 0); }
    forall i | 0 <= i < |es|
      ensures es[i] == SerialEdges(s, 0, timestamp, |es|)[i]
    {
      SerialEdge(s, 0, timestamp, |es|, i);
      assert Owned(workers, i);
    }
  }

  /** Threads execute their iterations in any interleaving: each round lets some thread that is not
      finished do its next index. The outcome is that of the serial loop. */
  method ParallelFill(workers: seq<Worker>, edges: array<Edge>,
                      ghost m: RmatParams, ghost p: Pos, ghost s: EdgeStream, ghost timestamp: int)
    requires Team(workers, edges.Length) && m.scale >= 1 && Yields(m, p, s) && Fits(m, edges.Length)
    requires forall t :: 0 <= t < |workers| ==> workers[t].OnCourse(m, p, timestamp) && workers[t].done == 0
    modifies edges, Private(workers)
    ensures edges[..] == SerialEdges(s, 0, timestamp, edges.Length)
    ensures forall t :: 0 <= t < |workers| ==> workers[t].OnCourse(m, p, timestamp)
    ensures forall t :: 0 <= t < |workers| ==> workers[t].done == |workers[t].indices|
  {
    while exists t :: 0 <= t < |workers| && workers[t].done < |workers[t].indices|
      invariant TeamOnCourse(workers, edges[..], m, p, s, timestamp)
      decreases Pending(workers)
    {
      var t: nat :| t < |workers| && workers[t].done < |workers[t].indices|;
      Round(workers, t, edges, m, p, s, timestamp);
    }
    AllWritten(workers, edges[..], s, timestamp);
  }

  // ---- A batch ---------------------------------------------------------------------------------------

  /** Each thread starts with its own copy of the generator. */
  method StartThreads(generator: RmatEdgeGenerator, firstTimestamp: int, shares: seq<seq<nat>>, ghost size: nat)
    returns (workers: seq<Worker>)
    requires generator.Valid() && generator.scale >= 1 && Schedule(shares, size)
    ensures |workers| == |shares| && Team(workers, size) && fresh(Private(workers))
    ensures forall t :: 0 <= t < |workers| ==>
      && workers[t].OnCourse(generator.Params(), generator.Position(), firstTimestamp)
      && workers[t].done == 0 && workers[t].indices == shares[t] && workers[t].localRng.CloneOf(generator)
  {
    workers := [];
    for t := 0 to |shares|
      invariant |workers| == t
      invariant forall u :: 0 <= u < t ==> fresh(workers[u]) && fresh(workers[u].localRng.engine)
      invariant forall u :: 0 <= u < t ==>
        && workers[u].OnCourse(generator.Params(), generator.Position(), firstTimestamp)
        && workers[u].done == 0 && workers[u].indices == shares[u] && workers[u].localRng.CloneOf(generator)
      invariant forall u, v :: 0 <= u < v < t ==>
        workers[u] != workers[v] && workers[u].localRng.engine != workers[v].localRng.engine
    {
      var worker := new Worker(generator, firstTimestamp, shares[t]);
      workers := workers + [worker];
    }
    forall i: nat | i < size
      ensures Owned(workers, i)
    {
      assert Shared(shares, i);
      var t, j :| 0 <= t < |shares| && 0 <= j < |shares[t]| && shares[t][j] == i;
      assert workers[t].indices[j] == i;
    }
  }

  /** Draws again until an edge is no self-edge. */
  method RerollOne(e: Edge, localRng: RmatEdgeGenerator,
                   ghost m: RmatParams, ghost p: Pos, ghost s: EdgeStream, ghost at: nat)
    returns (e': Edge, ghost end: nat)
    requires m.scale >= 1 && Yields(m, p, s) && Gone(localRng, m, p, at)
    requires e.src == e.dst ==> EscapesAt(s, at)
    modifies localRng.engine
    ensures Gone(localRng, m, p, end)
    ensures e.src != e.dst ==> e' == e && end == at
    ensures e.src == e.dst ==>
      var i := NextProper(s, at);
      e' == Edge(s(i).src, s(i).dst, e.weight, e.timestamp) && end == i + 1
  {
    e', end := e, at;
    ghost var goal := if e.src == e.dst then NextProper(s, at) else at;
    while e'.src == e'.dst
      invariant Gone(localRng, m, p, end) && at <= end <= goal + 1
      invariant end == at ==> e' == e
      invariant end > at ==> e' == Edge(s(end - 1).src, s(end - 1).dst, e.weight, e.timestamp)
      invariant end > at ==> e.src == e.dst && (e'.src == e'.dst <==> end <= goal)
      decreases goal + 1 - end
    {
      assert SelfEdge(s, end) <==> end < goal;
      var src, dst := Draw(localRng, m, p, s, end);
      e' := e'.(src := src, dst := dst);
      end := end + 1;
    }
  }

  lemma RerolledStep(s: EdgeStream, es: seq<Edge>, at: nat, i: nat)
    requires i < |es| && Stops(s, es[..i + 1], at)
    ensures Stops(s, es[..i], at) && (es[i].src == es[i].dst ==> EscapesAt(s, Rerolled(s, es[..i], at).end))
    ensures var b, e := Rerolled(s, es[..i], at), es[i];
      Rerolled(s, es[..i + 1], at)
      == if e.src != e.dst then Generated(b.edges + [e], b.end)
         else
           var j := NextProper(s, b.end);
           Generated(b.edges + [Edge(s(j).src, s(j).dst, e.weight, e.timestamp)], j + 1)
  {
    assert es[..i + 1][..i] == es[..i];
  }

  /** The second pass: a generator that has gone at edges on re-rolls the self-edges in order. */
  method RerollSelfEdges(edges: array<Edge>, localRng: RmatEdgeGenerator,
                         ghost m: RmatParams, ghost p: Pos, ghost s: EdgeStream, ghost at: nat,
                         ghost es: seq<Edge>)
    returns (ghost end: nat)
    requires m.scale >= 1 && Yields(m, p, s) && Gone(localRng, m, p, at)
    requires edges[..] == es && Stops(s, es, at)
    modifies edges, localRng.engine
    ensures Generated(edges[..], end) == Rerolled(s, es, at)
    ensures Gone(localRng, m, p, end)
  {
    end := at;
    for i := 0 to edges.Length
      invariant Stops(s, es[..i], at) && Generated(edges[..i], end) == Rerolled(s, es[..i], at)
      invariant (forall j :: i <= j < edges.Length ==> edges[j] == es[j]) && Gone(localRng, m, p, end)
    {
      StopsBefore(s, es, at, i + 1);
      RerolledStep(s, es, at, i);
      var e;
      e, end := RerollOne(edges[i], localRng, m, p, s, end);
      edges[i] := e;
      assert edges[..i + 1] == edges[..i] + [e];
    }
    assert edges[..edges.Length] == edges[..] && es[..edges.Length] == es;
  }

  lemma {:induction false} SerialEdgesShift(s: EdgeStream, t: EdgeStream, at: nat, timestamp: int, n: nat)
    requires forall i: nat :: t(i) == s(at + i)
    ensures SerialEdges(t, 0, timestamp, n) == SerialEdges(s, at, timestamp, n)
  {
    if n > 0 { SerialEdgesShift(s, t, at, timestamp, n - 1); }
  }

  /** Going on from where at edges have been drawn. */
  lemma StreamFromLater(m: RmatParams, p: Pos, at: nat)
    requires m.scale >= 1
    ensures forall i: nat :: StreamFrom(m, AfterEdges(m, p, at))(i) == StreamFrom(m, p)(at + i)
  {
    forall i: nat
      ensures StreamFrom(m, AfterEdges(m, p, at))(i) == StreamFrom(m, p)(at + i)
    {
      AfterEdgesCompose(m, p, at, i);
    }
  }

  /** The generator that executed the last index is handed on. */
  method LastPrivate(workers: seq<Worker>, size: nat, ghost m: RmatParams, ghost p: Pos, ghost timestamp: int)
    returns (localRng: RmatEdgeGenerator, ghost t: nat)
    requires size >= 1 && Team(workers, size) && m.scale >= 1
    requires forall t :: 0 <= t < |workers| ==>
      workers[t].OnCourse(m, p, timestamp) && workers[t].done == |workers[t].indices|
    ensures t < |workers| && localRng == workers[t].localRng && Gone(localRng, m, p, size)
  {
    assert Owned(workers, size - 1);
    var u, j :| 0 <= u < |workers| && 0 <= j < |workers[u].indices| && workers[u].indices[j] == size - 1;
    Climb(workers[u].indices, size, j, |workers[u].indices| - 1);
    localRng, t := workers[u].localRng, u;
  }

  /** The parallel region: fresh edges, and the generator that the loop leaves behind. */
  method Fill(generator: RmatEdgeGenerator, size: nat, firstTimestamp: int, shares: seq<seq<nat>>,
              ghost s: EdgeStream)
    returns (edges: array<Edge>, localRng: RmatEdgeGenerator)
    requires size >= 1 && Schedule(shares, size)
    requires generator.Valid() && generator.scale >= 1 && Fits(generator.Params(), size)
    requires Yields(generator.Params(), generator.Position(), s)
    ensures fresh(edges) && edges.Length == size && fresh(localRng.engine) && localRng.CloneOf(generator)
    ensures edges[..] == SerialEdges(s, 0, firstTimestamp, size)
    ensures Gone(localRng, generator.Params(), generator.Position(), size)
  {
    ghost var m, p := generator.Params(), generator.Position();
    edges := new Edge[size](_ => Edge(0, 0, 0, 0));
    var workers := StartThreads(generator, firstTimestamp, shares, size);
    ParallelFill(workers, edges, m, p, s, firstTimestamp);
    ghost var t;
    localRng, t := LastPrivate(workers, size, m, p, firstTimestamp);
    assert localRng.engine in Private(workers);
  }

  lemma SerialEdgesLater(m: RmatParams, p: Pos, at: nat, timestamp: int, n: nat)
    requires m.scale >= 1
    ensures SerialEdges(StreamFrom(m, AfterEdges(m, p, at)), 0, timestamp, n)
         == SerialEdges(StreamFrom(m, p), at, timestamp, n)
  {
    StreamFromLater(m, p, at);
    SerialEdgesShift(StreamFrom(m, p), StreamFrom(m, AfterEdges(m, p, at)), at, timestamp, n);
  }

  /** The parallel pass, seen from where the caller's stream began. */
  method FillFrom(generator: RmatEdgeGenerator, size: nat, firstTimestamp: int, shares: seq<seq<nat>>,
                  ghost m: RmatParams, ghost p: Pos, ghost at: nat)
    returns (edges: array<Edge>, localRng: RmatEdgeGenerator)
    requires size >= 1 && Schedule(shares, size) && m.scale >= 1
    requires generator.Valid() && m == generator.Params() && Gone(generator, m, p, at) && Fits(m, size)
    ensures fresh(edges) && fresh(localRng.engine) && localRng.CloneOf(generator)
    ensures edges[..] == SerialEdges(StreamFrom(m, p), at, firstTimestamp, size)
    ensures Gone(localRng, m, p, at + size)
  {
    edges, localRng := Fill(generator, size, firstTimestamp, shares, StreamFrom(m, generator.Position()));
    SerialEdgesLater(m, p, at, firstTimestamp, size);
    AfterEdgesCompose(m, p, at, size);
  }

  /** Constructs a batch. Its edges, and where the caller's generator ends, do not depend on how the
      indices were shared out or on how the threads took turns. */
  method RmatBatch(generator: RmatEdgeGenerator, size: nat, firstTimestamp: int, shares: seq<seq<nat>>,
                   ghost p: Pos, ghost at: nat)
    returns (edges: array<Edge>, ghost end: nat)
    requires size >= 1 && Schedule(shares, size)
    requires generator.scale >= 1 && Gone(generator, generator.Params(), p, at)
    requires Fits(generator.Params(), size) && BatchStops(StreamFrom(generator.Params(), p), at, size, firstTimestamp)
    modifies generator.engine
    ensures fresh(edges)
    ensures Generated(edges[..], end) == BatchFrom(StreamFrom(generator.Params(), p), at, size, firstTimestamp)
    ensures Gone(generator, generator.Params(), p, end)
  {
    ghost var m, s := generator.Params(), StreamFrom(generator.Params(), p);
    var localRng;
    edges, localRng := FillFrom(generator, size, firstTimestamp, shares, m, p, at);
    end := RerollSelfEdges(edges, localRng, m, p, s, at + size, SerialEdges(s, at, firstTimestamp, size));
    generator.Assign(localRng);
  }

  // ---- The dataset -----------------------------------------------------------------------------------

  /** Making the first b batches in order comes to an end. */
  ghost predicate Reaches(s: EdgeStream, size: nat, b: nat)
    decreases b, 0
  {
    b > 0 ==> Reaches(s, size, b - 1) && BatchStops(s, StartOfBatch(s, size, b - 1), size, (b - 1) * size)
  }

  /** The place of the stream where batch b starts when all batches before it were made in order. */
  ghost function StartOfBatch(s: EdgeStream, size: nat, b: nat): nat
    requires Reaches(s, size, b)
    decreases b, 1
  {
    if b == 0 then 0 else BatchFrom(s, StartOfBatch(s, size, b - 1), size, (b - 1) * size).end
  }

  ghost function InOrderBatch(s: EdgeStream, size: nat, b: nat): Generated
    requires Reaches(s, size, b + 1)
  {
    BatchFrom(s, StartOfBatch(s, size, b), size, b * size)
  }

  /** Batch b as it comes out when the dataset has to jump to it. */
  ghost function JumpBatch(s: EdgeStream, size: nat, b: nat): Generated
    requires BatchStops(s, b * size, size, 0)
  {
    BatchFrom(s, b * size, size, 0)
  }

  /** Jumping to a batch gives what making it in order gives for the first batch alone: a jump starts
      the timestamps over. */
  lemma JumpMatchesIff(s: EdgeStream, size: nat, b: nat)
    requires Reaches(s, size, b + 1) && BatchStops(s, b * size, size, 0) && size >= 1
    ensures JumpBatch(s, size, b).edges == InOrderBatch(s, size, b).edges <==> b == 0
  {
    BatchTimestamps(s, b * size, size, 0);
    BatchTimestamps(s, StartOfBatch(s, size, b), size, b * size);
    NonNegativeProduct(b, size);
    if b > 0 { ProductGrows(1, b, size); }
    assert JumpBatch(s, size, b).edges[0].timestamp == 0;
    assert InOrderBatch(s, size, b).edges[0].timestamp == b * size;
  }

  /** Batch b starts where a jump would go exactly when nothing before that place had to be drawn again. */
  lemma {:induction false} StartsAtJumpIff(s: EdgeStream, size: nat, b: nat)
    requires Reaches(s, size, b)
    ensures b * size <= StartOfBatch(s, size, b)
    ensures StartOfBatch(s, size, b) == b * size <==> forall i: nat :: i < b * size ==> !SelfEdge(s, i)
  {
    if b > 0 {
      var at, t := StartOfBatch(s, size, b - 1), (b - 1) * size;
      var es := SerialEdges(s, at, t, size);
      assert b * size == t + size;
      StartsAtJumpIff(s, size, b - 1);
      RerolledEnd(s, es, at + size);
      if at == t {
        SerialSelfEdges(s, at, t, size);
      }
    }
  }

  /** A stream that starts with a self-edge: batches of one edge are shifted from the second on. */
  lemma OneRerollShifts(s: EdgeStream)
    requires SelfEdge(s, 0) && !SelfEdge(s, 1)
    ensures Reaches(s, 1, 1) && StartOfBatch(s, 1, 1) == 2
  {
    var es := SerialEdges(s, 0, 0, 1);
    assert SerialEdges(s, 0, 0, 0) == [] && es == [EdgeAt(s, 0, 0)];
    assert es[..0] == [] && Rerolled(s, [], 1).end == 1;
    assert EscapesAt(s, 1);
    assert NextProper(s, 1) == 1;
    assert StartOfBatch(s, 1, 0) == 0 && Reaches(s, 1, 0);
    assert BatchStops(s, 0, 1, 0);
  }

  lemma SerialSelfEdges(s: EdgeStream, at: nat, timestamp: int, size: nat)
    ensures NoSelfEdges(SerialEdges(s, at, timestamp, size)) <==> forall i: nat :: at <= i < at + size ==> !SelfEdge(s, i)
  {
    var es := SerialEdges(s, at, timestamp, size);
    if size > 0 { SerialEdge(s, at, timestamp, size, 0); }
    forall i: nat | i < size
      ensures es[i].src == es[i].dst <==> SelfEdge(s, at + i)
    {
      SerialEdge(s, at, timestamp, size, i);
    }
    if NoSelfEdges(es) {
      forall i: nat | at <= i < at + size
        ensures !SelfEdge(s, i)
      {
        assert es[i - at].src != es[i - at].dst;
      }
    }
  }

  /** Then the endpoints of the batch agree too, and the stream goes on at the same place; the times are those of
      a first batch. */
  lemma JumpEndpoints(s: EdgeStream, size: nat, b: nat)
    requires Reaches(s, size, b + 1) && BatchStops(s, b * size, size, 0)
    requires forall i: nat :: i < b * size ==> !SelfEdge(s, i)
    ensures var jumped, made := JumpBatch(s, size, b), InOrderBatch(s, size, b);
      && jumped.end == made.end && |jumped.edges| == |made.edges| == size
      && forall i :: 0 <= i < size ==>
           && jumped.edges[i].Key() == made.edges[i].Key()
           && made.edges[i].timestamp == b * size + i && jumped.edges[i].timestamp == i
  {
    StartsAtJumpIff(s, size, b);
    BatchTimestamps(s, b * size, size, 0);
    BatchTimestamps(s, b * size, size, b * size);
    TimesDoNotMatter(s, b * size, size, 0, b * size);
  }

  /** Two lists of edges with the same endpoints. */
  ghost predicate SameKeys(es: seq<Edge>, fs: seq<Edge>) {
    |es| == |fs| && forall i :: 0 <= i < |es| ==> es[i].Key() == fs[i].Key()
  }

  lemma {:induction false} RerollsAlike(s: EdgeStream, es: seq<Edge>, fs: seq<Edge>, at: nat)
    requires SameKeys(es, fs) && Stops(s, es, at) && Stops(s, fs, at)
    ensures Rerolled(s, es, at).end == Rerolled(s, fs, at).end
    ensures SameKeys(Rerolled(s, es, at).edges, Rerolled(s, fs, at).edges)
  {
    if es != [] {
      var n := |es| - 1;
      assert es[n].Key() == fs[n].Key();
      assert forall i :: 0 <= i < n ==> es[..n][i].Key() == fs[..n][i].Key();
      RerollsAlike(s, es[..n], fs[..n], at);
    }
  }

  lemma TimesDoNotMatter(s: EdgeStream, at: nat, size: nat, t: int, u: int)
    requires BatchStops(s, at, size, t) && BatchStops(s, at, size, u)
    ensures BatchFrom(s, at, size, t).end == BatchFrom(s, at, size, u).end
    ensures SameKeys(BatchFrom(s, at, size, t).edges, BatchFrom(s, at, size, u).edges)
  {
    if size > 0 {
      SerialEdge(s, at, t, size, 0);
      SerialEdge(s, at, u, size, 0);
    }
    forall i | 0 <= i < size
      ensures SerialEdges(s, at, t, size)[i].Key() == SerialEdges(s, at, u, size)[i].Key()
    {
      SerialEdge(s, at, t, size, i);
      SerialEdge(s, at, u, size, i);
    }
    RerollsAlike(s, SerialEdges(s, at, t, size), SerialEdges(s, at, u, size), at + size);
  }

  /** A batch has the asked-for size, consecutive timestamps and no self-edges. */
  lemma BatchTimestamps(s: EdgeStream, at: nat, size: nat, timestamp: int)
    requires BatchStops(s, at, size, timestamp)
    ensures var es := BatchFrom(s, at, size, timestamp).edges;
      && |es| == size
      && forall i :: 0 <= i < size ==> es[i].timestamp == timestamp + i && es[i].src != es[i].dst && es[i].weight == 1
  {
    var es := SerialEdges(s, at, timestamp, size);
    RerolledEdges(s, es, at + size);
    if size > 0 { SerialEdge(s, at, timestamp, size, 0); }
    forall i | 0 <= i < size
      ensures es[i].timestamp == timestamp + i && es[i].weight == 1
    {
      SerialEdge(s, at, timestamp, size, i);
    }
  }

  lemma NextInOrder(s: EdgeStream, size: nat, b: nat)
    requires Reaches(s, size, b) && BatchStops(s, StartOfBatch(s, size, b), size, b * size)
    ensures Reaches(s, size, b + 1) && StartOfBatch(s, size, b + 1) == InOrderBatch(s, size, b).end
    ensures InOrderBatch(s, size, b) == BatchFrom(s, StartOfBatch(s, size, b), size, b * size)
    ensures (b + 1) * size == b * size + size
  {
  }

  /** An edge that is no self-edge is in the batch as next_edge yields it: source and destination of its place in
      the stream, weight 1, and the time of its index. */
  lemma BatchEdgeAt(m: RmatParams, p: Pos, at: nat, size: nat, timestamp: int, i: nat)
    requires m.scale >= 1 && i < size && BatchStops(StreamFrom(m, p), at, size, timestamp)
    requires var q := AfterEdges(m, p, at + i); Src(m, q) != Dst(m, q)
    ensures var q, es := AfterEdges(m, p, at + i), BatchFrom(StreamFrom(m, p), at, size, timestamp).edges;
      |es| == size && es[i] == Edge(Src(m, q), Dst(m, q), 1, timestamp + i)
  {
    var s := StreamFrom(m, p);
    SerialEdge(s, at, timestamp, size, i);
    RerolledEdges(s, SerialEdges(s, at, timestamp, size), at + size);
  }

  /** Where the second pass finds the edge that takes the place of a self-edge: the first one that is none, from
      where the edges before it have left the stream. */
  lemma {:induction false} RerolledAt(s: EdgeStream, es: seq<Edge>, at: nat, i: nat) returns (from: nat, j: nat)
    requires Stops(s, es, at) && i < |es| && es[i].src == es[i].dst
    ensures at <= from <= j && IsNextProper(s, from, j)
    ensures Stops(s, es[..i], at) && from == Rerolled(s, es[..i], at).end
    ensures var r := Rerolled(s, es, at).edges; |r| == |es| && r[i].Key() == s(j)
  {
    RerolledEdges(s, es, at);
    var init := es[..|es| - 1];
    if i < |es| - 1 {
      from, j := RerolledAt(s, init, at, i);
      RerolledEdges(s, init, at);
      assert init[..i] == es[..i];
    } else {
      RerolledEdges(s, init, at);
      RerolledEnd(s, init, at);
      from := Rerolled(s, init, at).end;
      j := NextProper(s, from);
    }
  }

  /** Every edge of a batch is an edge of the stream: the one of its index, or one after those of the first pass. */
  lemma BatchEdgeFrom(s: EdgeStream, at: nat, size: nat, timestamp: int, i: nat) returns (j: nat)
    requires i < size && BatchStops(s, at, size, timestamp)
    ensures j == at + i || at + size <= j
    ensures var es := BatchFrom(s, at, size, timestamp).edges;
      |es| == size && es[i] == Edge(s(j).src, s(j).dst, 1, timestamp + i) && es[i].src != es[i].dst
  {
    var es := SerialEdges(s, at, timestamp, size);
    SerialEdge(s, at, timestamp, size, i);
    BatchTimestamps(s, at, size, timestamp);
    RerolledEdges(s, es, at + size);
    j := at + i;
    if es[i].src == es[i].dst {
      var from;
      from, j := RerolledAt(s, es, at + size, i);
    }
  }

  /** So it has source and destination as next_edge yields them somewhere, and vertices below 2^SCALE. */
  lemma BatchEdgeSomewhere(m: RmatParams, p: Pos, at: nat, size: nat, timestamp: int, i: nat) returns (j: nat)
    requires m.scale >= 1 && i < size && BatchStops(StreamFrom(m, p), at, size, timestamp)
    ensures j == at + i || at + size <= j
    ensures var q, es := AfterEdges(m, p, j), BatchFrom(StreamFrom(m, p), at, size, timestamp).edges;
      && |es| == size && es[i] == Edge(Src(m, q), Dst(m, q), 1, timestamp + i)
      && Src(m, q) != Dst(m, q) && Src(m, q) < Pow2(m.scale) && Dst(m, q) < Pow2(m.scale)
  {
    j := BatchEdgeFrom(StreamFrom(m, p), at, size, timestamp, i);
    EndpointsInRange(m, AfterEdges(m, p, j));
  }

  class RmatDataset {
    const numVertices: nat
    const batchSize: nat
    const cipher: Cipher
    const canonical: seq<Chunk> -> real
    const quadrant: seq<real> -> Quadrant
    const k: nat
    var currentBatch: nat
    var nextTimestamp: nat
    var generator: RmatEdgeGenerator
    /** How many edges the generator has gone on from its seed. */
    ghost var place: nat

    ghost function Params(): RmatParams {
      RmatParams(NumbersOf(Stream(cipher, ZERO), canonical, k), quadrant, k, Log2(numVertices))
    }

    ghost function EdgesOf(): EdgeStream
      requires Params().scale >= 1
    {
      StreamFrom(Params(), ORIGIN)
    }

    ghost predicate Valid()
      reads this, generator.engine
    {
      && numVertices >= 2 && batchSize >= 1 && Params().scale >= 1 && Fits(Params(), batchSize)
      && Gone(generator, Params(), ORIGIN, place)
    }

    /** The dataset has made batches 0 to currentBatch - 1, in order. */
    ghost predicate InOrder()
      reads this, generator.engine
    {
      && Valid() && Reaches(EdgesOf(), batchSize, currentBatch)
      && place == StartOfBatch(EdgesOf(), batchSize, currentBatch) && nextTimestamp == currentBatch * batchSize
    }

    constructor (numVertices: nat, batchSize: nat, cipher: Cipher, canonical: seq<Chunk> -> real,
                 quadrant: seq<real> -> Quadrant, k: nat)
      requires numVertices >= 2 && batchSize >= 1
      requires var m := RmatParams(NumbersOf(Stream(cipher, ZERO), canonical, k), quadrant, k, Log2(numVertices));
        m.scale >= 1 && Fits(m, batchSize)
      ensures this.numVertices == numVertices && this.batchSize == batchSize && this.cipher == cipher
      ensures this.canonical == canonical && this.quadrant == quadrant && this.k == k
      ensures InOrder() && currentBatch == 0
    {
      this.numVertices, this.batchSize, this.cipher, this.canonical := numVertices, batchSize, cipher, canonical;
      this.quadrant, this.k := quadrant, k;
      currentBatch, nextTimestamp, place := 0, 0, 0;
      generator := new RmatEdgeGenerator(numVertices, cipher, canonical, quadrant, k, 0);
    }

    method Reset()
      requires Valid()
      modifies this
      ensures InOrder() && currentBatch == 0 && place == 0 && fresh(generator.engine)
    {
      currentBatch, nextTimestamp, place := 0, 0, 0;
      generator := new RmatEdgeGenerator(numVertices, cipher, canonical, quadrant, k, 0);
    }

    /** Starts over and skips all earlier batches. */
    method Jump(batchId: nat)
      requires Valid() && Fits(Params(), batchId * batchSize)
      modifies this
      ensures Valid() && place == batchId * batchSize && nextTimestamp == 0 && fresh(generator.engine)
    {
      Reset();
      NonNegativeProduct(batchId, batchSize);
      Skip(generator, batchId * batchSize, Params(), ORIGIN, 0);
      place := batchId * batchSize;
    }

    /** Makes a batch with the generator where it stands. */
    method MakeBatch(firstTimestamp: nat, shares: seq<seq<nat>>)
      returns (edges: array<Edge>)
      requires Valid() && Schedule(shares, batchSize) && BatchStops(EdgesOf(), place, batchSize, firstTimestamp)
      modifies this`place, generator.engine
      ensures Valid()
      ensures Generated(edges[..], place) == BatchFrom(EdgesOf(), old(place), batchSize, firstTimestamp)
    {
      ghost var end;
      edges, end := RmatBatch(generator, batchSize, firstTimestamp, shares, ORIGIN, place);
      place := end;
    }

    /** Where the stream and the times of a batch start when it is asked for: where the last call left them if it
        comes next, and otherwise where a reset and a skip lead to. */
    ghost function PlaceFor(batchId: nat): nat
      reads this
    {
      if batchId == currentBatch then place else batchId * batchSize
    }

    ghost function TimeFor(batchId: nat): nat
      reads this
    {
      if batchId == currentBatch then nextTimestamp else 0
    }

    /** Makes the next batch, or jumps to another one, whatever was asked for before. */
    method GetBatch(batchId: nat, shares: seq<seq<nat>>) returns (edges: array<Edge>)
      requires Valid() && Schedule(shares, batchSize)
      requires batchId != currentBatch ==> Fits(Params(), batchId * batchSize)
      requires BatchStops(EdgesOf(), PlaceFor(batchId), batchSize, TimeFor(batchId))
      modifies this, generator.engine
      ensures Valid() && currentBatch == batchId + 1 && nextTimestamp == old(TimeFor(batchId)) + batchSize
      ensures Generated(edges[..], place)
           == BatchFrom(EdgesOf(), old(PlaceFor(batchId)), batchSize, old(TimeFor(batchId)))
      ensures old(InOrder() && currentBatch == batchId) ==>
        InOrder() && edges[..] == InOrderBatch(EdgesOf(), batchSize, batchId).edges
    {
      ghost var s := EdgesOf();
      ghost var orderly := InOrder() && currentBatch == batchId;
      if currentBatch != batchId {
        Jump(batchId);
      }
      currentBatch := batchId + 1;
      var firstTimestamp := nextTimestamp;
      nextTimestamp := nextTimestamp + batchSize;
      edges := MakeBatch(firstTimestamp, shares);
      if orderly { NextInOrder(s, batchSize, batchId); }
    }
  }
}
