/** A dataset read from an edge list: its checks, its batches, and its sliding time window. */
module EdgeListDataset {
  import opened Algorithms
  import opened Batches
  import opened Edges
  import opened Wrappers

  datatype LoadError = BatchTooLarge | TooManyEpochs | NotSorted | HasSelfEdge

  /** The window threshold for a batch whose last edge has the given time. */
  function Threshold(windowSize: real, minTimestamp: int, maxTimestamp: int, latestTime: int): int {
    var windowTime := (windowSize * (maxTimestamp - minTimestamp) as real).Floor;
    Max(minTimestamp, latestTime - windowTime)
  }

  lemma PartOf(w: real, x: real)
    requires 0.0 <= w <= 1.0 && x >= 0.0
    ensures 0.0 <= w * x <= x
  {
    assert x - w * x == (1.0 - w) * x;
    NonNegativeProduct(w, x);
    NonNegativeProduct(1.0 - w, x);
  }

  lemma NonNegativeProduct(x: real, y: real)
    requires x >= 0.0 && y >= 0.0
    ensures x * y >= 0.0
  {
  }

  /** Thresholds follow the batch's last time, and stay between the first time and it. */
  lemma ThresholdBounds(windowSize: real, lo: int, hi: int, latest: int, later: int)
    requires 0.0 <= windowSize <= 1.0 && lo <= latest <= later <= hi
    ensures lo <= Threshold(windowSize, lo, hi, latest) <= latest
    ensures Threshold(windowSize, lo, hi, latest) <= Threshold(windowSize, lo, hi, later)
  {
    PartOf(windowSize, (hi - lo) as real);
  }

  /** Exactly the times from the first one on that lie back from the latest by at most the given part of the whole
      time span are in the window. */
  lemma InWindowIff(windowSize: real, lo: int, hi: int, latest: int, u: int)
    ensures u >= Threshold(windowSize, lo, hi, latest)
      <==> u >= lo && (latest - u) as real <= windowSize * (hi - lo) as real
  {
    var width := windowSize * (hi - lo) as real;
    assert width.Floor as real <= width < (width.Floor + 1) as real;
  }

  /** A full window keeps everything. */
  lemma FullWindow(lo: int, hi: int, latest: int)
    requires lo <= latest <= hi
    ensures Threshold(1.0, lo, hi, latest) == lo
  {
    assert 1.0 * (hi - lo) as real == (hi - lo) as real;
  }

  /** std::is_sorted by timestamp. */
  method IsSorted(edges: array<Edge>) returns (sorted: bool)
    requires edges.Length >= 1
    ensures sorted <==> Sorted(ByTimestamp, edges[..])
  {
    for i := 1 to edges.Length
      invariant forall j :: 0 < j < i ==> edges[j - 1].timestamp <= edges[j].timestamp
    {
      if ByTimestamp(edges[i], edges[i - 1]) {
        assert ByTimestamp(edges[..][i], edges[..][i - 1]);
        return false;
      }
    }
    NeighboursSorted(edges[..]);
    return true;
  }

  /** std::find_if for an edge from a vertex to itself. */
  method HasSelfEdges(edges: array<Edge>) returns (found: bool)
    ensures found <==> exists e :: e in edges[..] && e.src == e.dst
  {
    for i := 0 to edges.Length
      invariant forall j :: 0 <= j < i ==> edges[j].src != edges[j].dst
    {
      if edges[i].src == edges[i].dst {
        assert edges[i] in edges[..];
        return true;
      }
    }
    return false;
  }

  /** Rounding down the number of batches keeps every one of them inside the edges. */
  lemma BatchesFit(n: nat, batchSize: nat)
    requires 1 <= batchSize <= n
    ensures n / batchSize >= 1
    ensures forall b :: 0 <= b <= n / batchSize ==> b * batchSize <= n
  {
    var q := n / batchSize;
    assert n == q * batchSize + n % batchSize;
    forall b | 0 <= b <= q
      ensures b * batchSize <= n
    {
      assert b * batchSize <= q * batchSize;
    }
  }

  class EdgeListDataset {
    const edges: array<Edge>
    const batchSize: nat
    const windowSize: real
    const numBatches: nat
    const minTimestamp: int
    const maxTimestamp: int
    const maxVertexId: int
    /** The edges as they were loaded. */
    ghost const contents: seq<Edge>

    /** What the loader has checked and computed. */
    ghost predicate Checked() {
      && batchSize >= 1 && 0.0 <= windowSize <= 1.0
      && batchSize <= |contents| && numBatches >= 1
      && (forall b {:trigger Start(b)} :: 0 <= b <= numBatches ==> Start(b) <= |contents|)
      && Sorted(ByTimestamp, contents)
      && minTimestamp == contents[0].timestamp && maxTimestamp == contents[|contents| - 1].timestamp
      && MaxVertexOf(contents, maxVertexId)
      && forall i :: 0 <= i < |contents| ==> contents[i].src != contents[i].dst
    }

    /** Nobody has written to the edges since. */
    ghost predicate Valid()
      reads edges
    {
      Checked() && edges[..] == contents
    }

    ghost predicate InRange(batchId: nat) {
      batchId < numBatches
    }

    ghost function Start(batchId: nat): nat { batchId * batchSize }

    constructor (edges: array<Edge>, batchSize: nat, windowSize: real, maxVertexId: int)
      requires batchSize >= 1 && 0.0 <= windowSize <= 1.0 && batchSize <= edges.Length
      requires Sorted(ByTimestamp, edges[..]) && MaxVertexOf(edges[..], maxVertexId)
      requires forall i :: 0 <= i < edges.Length ==> edges[i].src != edges[i].dst
      ensures Valid() && numBatches == edges.Length / batchSize
      ensures this.edges == edges && this.batchSize == batchSize && this.windowSize == windowSize
    {
      this.edges, this.batchSize, this.windowSize, this.maxVertexId := edges, batchSize, windowSize, maxVertexId;
      numBatches := edges.Length / batchSize;
      minTimestamp, maxTimestamp := edges[0].timestamp, edges[edges.Length - 1].timestamp;
      contents := edges[..];
      BatchesFit(edges.Length, batchSize);
    }

    /** Loads a dataset, or says which check it fails first. */
    static method Load(edges: array<Edge>, batchSize: nat, windowSize: real, numEpochs: nat)
      returns (r: Result<EdgeListDataset, LoadError>)
      requires batchSize >= 1 && 0.0 <= windowSize <= 1.0
      ensures r.Success? ==> fresh(r.value) && r.value.Valid() && numEpochs <= r.value.numBatches
      ensures r.Success? ==>
        && r.value.edges == edges && r.value.batchSize == batchSize && r.value.windowSize == windowSize
        && r.value.numBatches == edges.Length / batchSize
      ensures (r.Failure? && r.error == BatchTooLarge) <==> batchSize > edges.Length
      ensures (r.Failure? && r.error == TooManyEpochs) <==> batchSize <= edges.Length && numEpochs > edges.Length / batchSize
      ensures (r.Failure? && r.error == NotSorted) <==>
        && batchSize <= edges.Length && numEpochs <= edges.Length / batchSize && !Sorted(ByTimestamp, edges[..])
      ensures (r.Failure? && r.error == HasSelfEdge) <==>
        && batchSize <= edges.Length && numEpochs <= edges.Length / batchSize && Sorted(ByTimestamp, edges[..])
        && exists e :: e in edges[..] && e.src == e.dst
    {
      if batchSize > edges.Length { return Failure(BatchTooLarge); }
      if numEpochs > edges.Length / batchSize { return Failure(TooManyEpochs); }
      var all := new Batch(edges, 0, edges.Length);
      assert all.View() == edges[..];
      var maxVertexId := all.MaxVertexId();
      var sorted := IsSorted(edges);
      if !sorted { return Failure(NotSorted); }
      var selfEdge := HasSelfEdges(edges);
      if selfEdge { return Failure(HasSelfEdge); }
      var dataset := new EdgeListDataset(edges, batchSize, windowSize, maxVertexId);
      return Success(dataset);
    }

    lemma BatchBounds(batchId: nat)
      requires Checked() && InRange(batchId)
      ensures 0 <= Start(batchId) < Start(batchId + 1) <= |contents|
    {
      assert Start(batchId + 1) == Start(batchId) + batchSize;
    }

    /** All edges up to and including a batch. */
    ghost function UpTo(batchId: nat): seq<Edge>
      requires Checked() && InRange(batchId)
    {
      BatchBounds(batchId);
      contents[..Start(batchId + 1)]
    }

    ghost function BatchEdges(batchId: nat): seq<Edge>
      requires Checked() && InRange(batchId)
    {
      BatchBounds(batchId);
      contents[Start(batchId)..Start(batchId + 1)]
    }

    /** The time from which on edges are in the window of a batch. */
    ghost function WindowStart(batchId: nat): int
      requires Checked() && InRange(batchId)
    {
      BatchBounds(batchId);
      Threshold(windowSize, minTimestamp, maxTimestamp, contents[Start(batchId + 1) - 1].timestamp)
    }

    function GetTimestampForWindow(batchId: nat): (t: int)
      requires Valid() && InRange(batchId)
      reads edges
      ensures t == WindowStart(batchId)
    {
      BatchBounds(batchId);
      var latestTime := edges[batchId * batchSize + batchSize - 1].timestamp;
      assert latestTime == edges[..][Start(batchId + 1) - 1].timestamp;
      Threshold(windowSize, minTimestamp, maxTimestamp, latestTime)
    }

    /** The window starts between the first edge's time and the batch's last one. */
    lemma WindowStartBounds(batchId: nat)
      requires Checked() && InRange(batchId)
      ensures minTimestamp <= WindowStart(batchId) <= UpTo(batchId)[|UpTo(batchId)| - 1].timestamp
      ensures windowSize == 1.0 ==> WindowStart(batchId) == minTimestamp
    {
      BatchBounds(batchId);
      var i := Start(batchId + 1) - 1;
      assert contents[0].timestamp <= contents[i].timestamp <= contents[|contents| - 1].timestamp;
      ThresholdBounds(windowSize, minTimestamp, maxTimestamp, contents[i].timestamp, contents[i].timestamp);
      FullWindow(minTimestamp, maxTimestamp, contents[i].timestamp);
    }

    /** The window only moves forward. */
    lemma WindowsAscend(b: nat, c: nat)
      requires Checked() && InRange(c) && b <= c
      ensures WindowStart(b) <= WindowStart(c)
    {
      BatchBounds(b);
      BatchBounds(c);
      assert (b + 1) * batchSize <= (c + 1) * batchSize;
      var i, j := Start(b + 1) - 1, Start(c + 1) - 1;
      assert contents[0].timestamp <= contents[i].timestamp <= contents[j].timestamp;
      assert contents[j].timestamp <= contents[|contents| - 1].timestamp;
      ThresholdBounds(windowSize, minTimestamp, maxTimestamp, contents[i].timestamp, contents[j].timestamp);
    }

    /** The window of a batch always keeps the batch's last edge. */
    lemma WindowNotEmpty(batchId: nat)
      requires Checked() && InRange(batchId)
      ensures Recent(BatchEdges(batchId), WindowStart(batchId)) != []
      ensures Recent(UpTo(batchId), WindowStart(batchId)) != []
    {
      BatchBounds(batchId);
      WindowStartBounds(batchId);
      var last := contents[Start(batchId + 1) - 1];
      assert last == UpTo(batchId)[|UpTo(batchId)| - 1];
      assert last == BatchEdges(batchId)[|BatchEdges(batchId)| - 1];
      RecentMembers(UpTo(batchId), WindowStart(batchId), last);
      RecentMembers(BatchEdges(batchId), WindowStart(batchId), last);
    }

    method GetBatch(batchId: nat) returns (batch: Batch)
      requires Valid() && InRange(batchId)
      ensures fresh(batch) && batch.Valid() && batch.edges == edges && batch.View() == BatchEdges(batchId)
      ensures Sorted(ByTimestamp, batch.View())
    {
      BatchBounds(batchId);
      batch := new Batch(edges, batchId * batchSize, batchId * batchSize + batchSize);
      SortedPart(contents, Start(batchId), Start(batchId + 1));
      assert edges[..][Start(batchId)..Start(batchId + 1)] == batch.View();
    }

    method GetBatchesUpTo(batchId: nat) returns (batch: Batch)
      requires Valid() && InRange(batchId)
      ensures fresh(batch) && batch.Valid() && batch.edges == edges && batch.View() == UpTo(batchId)
      ensures Sorted(ByTimestamp, batch.View())
    {
      BatchBounds(batchId);
      batch := new Batch(edges, 0, batchId * batchSize + batchSize);
      SortedPart(contents, 0, Start(batchId + 1));
      assert edges[..][0..Start(batchId + 1)] == batch.View();
    }
  }

  lemma NeighboursSorted(es: seq<Edge>)
    requires forall j :: 0 < j < |es| ==> es[j - 1].timestamp <= es[j].timestamp
    ensures Sorted(ByTimestamp, es)
  {
    forall i, j | 0 <= i < j < |es|
      ensures !ByTimestamp(es[j], es[i])
    {
      TimesClimb(es, i, j);
    }
  }

  lemma {:induction false} TimesClimb(es: seq<Edge>, i: nat, j: nat)
    requires forall j :: 0 < j < |es| ==> es[j - 1].timestamp <= es[j].timestamp
    requires i <= j < |es|
    ensures es[i].timestamp <= es[j].timestamp
  {
    if i < j { TimesClimb(es, i, j - 1); }
  }

  lemma SortedPart(es: seq<Edge>, lo: nat, hi: nat)
    requires Sorted(ByTimestamp, es) && lo <= hi <= |es|
    ensures Sorted(ByTimestamp, es[lo..hi])
  {
  }
}
