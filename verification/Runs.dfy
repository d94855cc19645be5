/** What a whole run of the benchmark is, on values: the states of the graph, the batches that led from one to the
    next, and the epochs with their trials. What holds for every such run is proved here. */
module Runs {
  import opened AlgDataManager
  import opened Algorithms
  import opened Batches
  import opened EdgeListDataset
  import opened Edges
  import opened EpochSchedule
  import opened ReferenceImpl
  import opened Windows

  datatype SortMode = Unsorted | Presort | Snapshot

  /** The arguments that the loops go by. */
  datatype Args = Args(sortMode: SortMode, numEpochs: nat, numTrials: nat, algNames: seq<string>)

  /** A checked edge list whose vertex numbers can index an array. */
  ghost predicate Indexed(dataset: EdgeListDataset) {
    dataset.Checked() && forall e :: e in dataset.contents ==> e.src >= 0 && e.dst >= 0
  }

  /** What the documentation asks of an edge list besides. */
  ghost predicate Usable(dataset: EdgeListDataset) {
    Indexed(dataset) && forall e :: e in dataset.contents ==> e.weight > 0
  }

  // ---- Preprocessed batches ----------------------------------------------------------------------------

  /** The edges that a preprocessed batch stands for. */
  ghost function Selected(dataset: EdgeListDataset, batchId: nat, mode: SortMode): seq<Edge>
    requires dataset.Checked() && dataset.InRange(batchId)
  {
    Recent(if mode == Snapshot then dataset.UpTo(batchId) else dataset.BatchEdges(batchId),
           dataset.WindowStart(batchId))
  }

  /** They are edges of the dataset, and there are some. */
  lemma SelectedEdges(dataset: EdgeListDataset, batchId: nat, mode: SortMode)
    requires dataset.Checked() && dataset.InRange(batchId)
    ensures Selected(dataset, batchId, mode) != []
    ensures forall e :: e in Selected(dataset, batchId, mode) ==> e in dataset.contents
  {
    dataset.WindowNotEmpty(batchId);
    dataset.BatchBounds(batchId);
    var from := if mode == Snapshot then dataset.UpTo(batchId) else dataset.BatchEdges(batchId);
    forall e | e in Selected(dataset, batchId, mode)
      ensures e in dataset.contents
    {
      RecentMembers(from, dataset.WindowStart(batchId), e);
    }
  }

  /** The last edge of a batch, and where the edges begin that a mode selects from. */
  ghost function LastOf(dataset: EdgeListDataset, batchId: nat): Edge
    requires dataset.Checked() && dataset.InRange(batchId)
  {
    dataset.BatchBounds(batchId);
    dataset.contents[(batchId + 1) * dataset.batchSize - 1]
  }

  /** The edge has a time in the window of a batch: not before the first edge, and not further back from the last
      edge of the batch than the given part of the time between the first edge and the last of all. */
  ghost predicate InWindow(dataset: EdgeListDataset, batchId: nat, e: Edge)
    requires dataset.Checked() && dataset.InRange(batchId)
  {
    var es := dataset.contents;
    && es[0].timestamp <= e.timestamp
    && (LastOf(dataset, batchId).timestamp - e.timestamp) as real
       <= dataset.windowSize * (es[|es| - 1].timestamp - es[0].timestamp) as real
  }

  lemma InWindowIsRecent(dataset: EdgeListDataset, batchId: nat, e: Edge)
    requires dataset.Checked() && dataset.InRange(batchId)
    ensures InWindow(dataset, batchId, e) <==> e.timestamp >= dataset.WindowStart(batchId)
  {
    dataset.BatchBounds(batchId);
    InWindowIff(dataset.windowSize, dataset.minTimestamp, dataset.maxTimestamp, LastOf(dataset, batchId).timestamp,
                e.timestamp);
  }

  lemma RecentPart(es: seq<Edge>, lo: nat, hi: nat, threshold: int) returns (first: nat)
    requires Sorted(ByTimestamp, es) && lo <= hi <= |es|
    ensures lo <= first <= hi && Recent(es[lo..hi], threshold) == es[first..hi]
    ensures forall i :: lo <= i < hi ==> (es[i].timestamp >= threshold <==> first <= i)
  {
    SortedPart(es, lo, hi);
    var part := es[lo..hi];
    var n := FirstRecent(part, threshold);
    RecentSuffix(part, threshold, n);
    first := lo + n;
    assert part[n..] == es[first..hi];
    assert forall i :: lo <= i < hi ==> part[i - lo] == es[i];
  }

  /** Of the batch, or in a snapshot of everything up to its end, the edges in the window are selected. They are the
      last ones, in order and with repetitions. */
  lemma SelectedIs(dataset: EdgeListDataset, batchId: nat, mode: SortMode) returns (first: nat)
    requires dataset.Checked() && dataset.InRange(batchId)
    ensures var lo, hi := if mode == Snapshot then 0 else batchId * dataset.batchSize, (batchId + 1) * dataset.batchSize;
      && lo <= first < hi <= |dataset.contents|
      && Selected(dataset, batchId, mode) == dataset.contents[first..hi]
      && forall i :: lo <= i < hi ==> (InWindow(dataset, batchId, dataset.contents[i]) <==> first <= i)
  {
    dataset.BatchBounds(batchId);
    var es, t := dataset.contents, dataset.WindowStart(batchId);
    var lo, hi := if mode == Snapshot then 0 else dataset.Start(batchId), dataset.Start(batchId + 1);
    first := RecentPart(es, lo, hi, t);
    SelectedEdges(dataset, batchId, mode);
    assert es[0..hi] == es[..hi];
    forall i | lo <= i < hi
      ensures InWindow(dataset, batchId, es[i]) <==> first <= i
    {
      InWindowIsRecent(dataset, batchId, es[i]);
    }
  }

  lemma {:induction false} FirstRecent(es: seq<Edge>, threshold: int) returns (n: nat)
    requires Sorted(ByTimestamp, es)
    ensures n <= |es| && forall i :: 0 <= i < |es| ==> (es[i].timestamp >= threshold <==> n <= i)
  {
    if es == [] || es[|es| - 1].timestamp < threshold {
      n := |es|;
      forall i | 0 <= i < |es| - 1
        ensures es[i].timestamp < threshold
      {
        assert !ByTimestamp(es[|es| - 1], es[i]);
      }
    } else {
      var init := es[..|es| - 1];
      n := FirstRecent(init, threshold);
      assert forall i :: 0 <= i < |init| ==> init[i] == es[i];
    }
  }

  /** The edges as they are, or deduplicated and in order. */
  ghost predicate Preprocessed(dataset: EdgeListDataset, batchId: nat, mode: SortMode, es: seq<Edge>)
    requires dataset.Checked() && dataset.InRange(batchId)
  {
    if mode == Unsorted then es == Selected(dataset, batchId, mode)
    else Dedup(Selected(dataset, batchId, mode), es) && DegreeSorted(es)
  }

  lemma PreprocessedWeights(dataset: EdgeListDataset, batchId: nat, mode: SortMode, es: seq<Edge>)
    requires Usable(dataset) && dataset.InRange(batchId) && Preprocessed(dataset, batchId, mode, es)
    ensures PositiveWeights(es) && Latest(es) == Latest(Selected(dataset, batchId, mode))
  {
    SelectedEdges(dataset, batchId, mode);
    forall i | 0 <= i < |es|
      ensures es[i].weight > 0
    {
      assert es[i] in es;
    }
  }

  // ---- The window --------------------------------------------------------------------------------------

  /** For each pair of endpoints, its most recent time among all edges up to batch b that are still in
      that batch's window. */
  ghost function WindowOf(dataset: EdgeListDataset, batchId: nat): map<Ends, int>
    requires dataset.Checked() && dataset.InRange(batchId)
  {
    WindowTimes(dataset.UpTo(batchId), dataset.WindowStart(batchId))
  }

  /** The window after the first n batches. */
  ghost function WindowAfter(dataset: EdgeListDataset, n: nat): map<Ends, int>
    requires dataset.Checked() && n <= dataset.numBatches
  {
    if n == 0 then map[] else WindowOf(dataset, n - 1)
  }

  lemma UpToGrows(dataset: EdgeListDataset, batchId: nat)
    requires dataset.Checked() && dataset.InRange(batchId)
    ensures dataset.UpTo(batchId)
         == (if batchId == 0 then [] else dataset.UpTo(batchId - 1)) + dataset.BatchEdges(batchId)
  {
    dataset.BatchBounds(batchId);
    if batchId > 0 { dataset.BatchBounds(batchId - 1); }
  }

  /** The threshold before batch b, or any earlier one when there is none. */
  ghost function ThresholdBefore(dataset: EdgeListDataset, batchId: nat): (t: int)
    requires dataset.Checked() && dataset.InRange(batchId)
    ensures t <= dataset.WindowStart(batchId)
  {
    if batchId == 0 then dataset.WindowStart(0)
    else
      dataset.WindowsAscend(batchId - 1, batchId);
      dataset.WindowStart(batchId - 1)
  }

  /** Deleting what is too old and inserting the batch moves the window on, in every sort mode. */
  lemma WindowMoves(dataset: EdgeListDataset, batchId: nat, mode: SortMode)
    requires dataset.Checked() && dataset.InRange(batchId)
    ensures Later(Since(WindowAfter(dataset, batchId), dataset.WindowStart(batchId)),
                  Latest(Selected(dataset, batchId, mode)))
         == WindowOf(dataset, batchId)
  {
    var past := if batchId == 0 then [] else dataset.UpTo(batchId - 1);
    var batch := dataset.BatchEdges(batchId);
    var t, u := ThresholdBefore(dataset, batchId), dataset.WindowStart(batchId);
    UpToGrows(dataset, batchId);
    assert WindowAfter(dataset, batchId) == WindowTimes(past, t);
    WindowAdvances(past, batch, t, u);
    WindowAbsorbsSnapshot(past, batch, t, u);
  }

  /** With a full window nothing is ever too old. */
  lemma NothingExpires(dataset: EdgeListDataset, batchId: nat)
    requires dataset.Checked() && dataset.InRange(batchId) && dataset.windowSize == 1.0
    ensures Since(WindowAfter(dataset, batchId), dataset.WindowStart(batchId))
         == WindowAfter(dataset, batchId)
  {
    var t := dataset.WindowStart(batchId);
    if batchId > 0 {
      var past := dataset.UpTo(batchId - 1);
      dataset.WindowStartBounds(batchId - 1);
      dataset.WindowStartBounds(batchId);
      SinceLatest(Recent(past, t), t);
      RecentTwice(past, t, t);
    }
  }

  ghost predicate Looked(s: State) { true }

  /** The graph is in order and holds these times. */
  ghost predicate HoldsTimes(s: State, times: map<Ends, int>) {
    match s
    case State(graph, numEdges) =>
      && NoEmptyVertex(graph) && numEdges == |ViewOf(graph)|
      && Positive(ViewOf(graph)) && Times(ViewOf(graph)) == times
  }

  /** The graph holds exactly the window after n batches. The trigger keeps the definition out of proofs that only
      pass it on, here and below. */
  ghost predicate HoldsWindow(s: State, dataset: EdgeListDataset, n: nat)
    requires dataset.Checked() && n <= dataset.numBatches
  {
    forall t {:trigger Looked(t)} :: t == s ==> HoldsTimes(t, WindowAfter(dataset, n))
  }

  lemma ShowHolds(s: State, times: map<Ends, int>, dataset: EdgeListDataset, n: nat)
    requires dataset.Checked() && n <= dataset.numBatches && times == WindowAfter(dataset, n) && HoldsTimes(s, times)
    ensures HoldsWindow(s, dataset, n)
  {
  }

  lemma SeeHolds(s: State, dataset: EdgeListDataset, n: nat)
    requires dataset.Checked() && n <= dataset.numBatches && HoldsWindow(s, dataset, n)
    ensures HoldsTimes(s, WindowAfter(dataset, n))
  {
    assert Looked(s);
  }

  /** Two graphs have the same pairs, the same times and the same counts. */
  ghost predicate Alike(s: State, t: State) {
    match s
    case State(graph, numEdges) =>
      && ViewOf(graph).Keys == ViewOf(t.graph).Keys && numEdges == t.numEdges
      && (forall k :: k in ViewOf(graph) ==> ViewOf(graph)[k].timestamp == ViewOf(t.graph)[k].timestamp)
      && (forall v :: |Neighbours(graph, v)| == |Neighbours(t.graph, v)|)
  }

  lemma SameTimesAlike(s: State, t: State, times: map<Ends, int>)
    requires HoldsTimes(s, times) && HoldsTimes(t, times)
    ensures Alike(s, t)
  {
    SameTimes(ViewOf(s.graph), ViewOf(t.graph));
    assert ViewOf(s.graph).Keys == Pairs(s.graph) && ViewOf(t.graph).Keys == Pairs(t.graph);
    forall v
      ensures |Neighbours(s.graph, v)| == |Neighbours(t.graph, v)|
    {
      DegreeCountsPairs(s.graph, v);
      DegreeCountsPairs(t.graph, v);
    }
  }

  lemma SameWindowAlike(s: State, t: State, dataset: EdgeListDataset, n: nat)
    requires dataset.Checked() && n <= dataset.numBatches
    requires HoldsWindow(s, dataset, n) && HoldsWindow(t, dataset, n)
    ensures Alike(s, t)
  {
    SeeHolds(s, dataset, n);
    SeeHolds(t, dataset, n);
    SameTimesAlike(s, t, WindowAfter(dataset, n));
  }

  /** Two graphs that hold the same window have the same pairs, times, counts and degrees. */
  lemma SameWindowSameGraph(s: State, t: State, dataset: EdgeListDataset, n: nat)
    requires dataset.Checked() && n <= dataset.numBatches
    requires HoldsWindow(s, dataset, n) && HoldsWindow(t, dataset, n)
    ensures s.numEdges == t.numEdges
    ensures forall k :: k in ViewOf(s.graph) <==> k in ViewOf(t.graph)
    ensures forall k :: k in ViewOf(s.graph) ==> ViewOf(s.graph)[k].timestamp == ViewOf(t.graph)[k].timestamp
    ensures forall v :: |Neighbours(s.graph, v)| == |Neighbours(t.graph, v)|
  {
    SameWindowAlike(s, t, dataset, n);
  }

  /** The window of a batch holds a pair if some edge up to the end of the batch has these ends and is in the window,
      with the time of the latest such edge. */
  lemma WindowIs(dataset: EdgeListDataset, batchId: nat, k: Ends)
    requires dataset.Checked() && dataset.InRange(batchId)
    ensures (batchId + 1) * dataset.batchSize <= |dataset.contents|
    ensures var es, w := dataset.contents[..(batchId + 1) * dataset.batchSize], WindowOf(dataset, batchId);
      && (forall e :: e in es && e.Key() == k && InWindow(dataset, batchId, e) ==> k in w && e.timestamp <= w[k])
      && (k in w ==> exists e :: e in es && e.Key() == k && InWindow(dataset, batchId, e) && e.timestamp == w[k])
  {
    dataset.BatchBounds(batchId);
    var es, t := dataset.UpTo(batchId), dataset.WindowStart(batchId);
    var recent := Recent(es, t);
    LatestIsMaximum(recent);
    forall e
      ensures e in recent <==> e in es && InWindow(dataset, batchId, e)
    {
      RecentMembers(es, t, e);
      InWindowIsRecent(dataset, batchId, e);
    }
    if k in Latest(recent) {
      assert Occurs(recent, k, Latest(recent)[k]);
      var i :| 0 <= i < |recent| && recent[i].Key() == k && recent[i].timestamp == Latest(recent)[k];
      assert recent[i] in recent;
    }
  }

  lemma SameTimes(m: View, n: View)
    requires Times(m) == Times(n)
    ensures m.Keys == n.Keys && |m| == |n|
    ensures forall k :: k in m ==> m[k].timestamp == n[k].timestamp
  {
    assert Times(m).Keys == m.Keys && Times(n).Keys == n.Keys;
    assert |m| == |m.Keys| && |n| == |n.Keys|;
    forall k | k in m
      ensures m[k].timestamp == n[k].timestamp
    {
      assert Times(m)[k] == Times(n)[k];
    }
  }

  // ---- Incremental runs --------------------------------------------------------------------------------

  /** Sorting by degree needs vertex numbers that can index an array. */
  ghost predicate Suits(dataset: EdgeListDataset, mode: SortMode) {
    dataset.Checked() && (mode != Unsorted ==> Indexed(dataset))
  }

  /** What is left of a graph when batch b comes. Nothing is deleted when the window is full. */
  ghost function StillIn(m: View, dataset: EdgeListDataset, batchId: nat): View
    requires dataset.Checked() && dataset.InRange(batchId)
  {
    if dataset.windowSize == 1.0 then m else Prune(m, dataset.WindowStart(batchId))
  }

  datatype Step = Step(before: State, batch: seq<Edge>, after: State)

  /** One batch of an incremental run: delete what is too old, then insert the batch. */
  ghost predicate Updates(x: Step, dataset: EdgeListDataset, batchId: nat, mode: SortMode)
    requires dataset.Checked() && dataset.InRange(batchId)
  {
    match x
    case Step(s, es, t) =>
      var m := StillIn(ViewOf(s.graph), dataset, batchId);
      && Preprocessed(dataset, batchId, mode, es)
      && NoEmptyVertex(t.graph) && ViewOf(t.graph) == InsertAll(m, es)
      && t.numEdges == s.numEdges - |ViewOf(s.graph)| + |m| + CountedAll(m, es)
  }

  ghost predicate Opened(x: Step) { true }

  /** The trigger keeps the definition out of proofs that only pass it on. */
  ghost predicate Takes(x: Step, dataset: EdgeListDataset, batchId: nat, mode: SortMode)
    requires dataset.Checked() && dataset.InRange(batchId)
  {
    forall y {:trigger Opened(y)} :: y == x ==> Updates(y, dataset, batchId, mode)
  }

  lemma ShowTakes(s: State, es: seq<Edge>, t: State, m: View, dataset: EdgeListDataset, batchId: nat, mode: SortMode)
    requires dataset.Checked() && dataset.InRange(batchId) && Preprocessed(dataset, batchId, mode, es)
    requires m == StillIn(ViewOf(s.graph), dataset, batchId)
    requires NoEmptyVertex(t.graph) && ViewOf(t.graph) == InsertAll(m, es)
    requires t.numEdges == s.numEdges - |ViewOf(s.graph)| + |m| + CountedAll(m, es)
    ensures Takes(Step(s, es, t), dataset, batchId, mode)
  {
    var x := Step(s, es, t);
    assert Updates(x, dataset, batchId, mode);
  }

  function StateAfter(run: seq<Step>, n: nat): State
    requires n <= |run|
  {
    if n == 0 then State(map[], 0) else run[n - 1].after
  }

  /** The graph starts out empty and goes through one step for each batch. */
  ghost predicate Incremental(run: seq<Step>, dataset: EdgeListDataset, mode: SortMode)
    requires dataset.Checked()
  {
    && |run| <= dataset.numBatches
    && forall b {:trigger StateAfter(run, b)} :: 0 <= b < |run| ==>
         run[b].before == StateAfter(run, b) && Takes(run[b], dataset, b, mode)
  }

  lemma IncrementalGrows(run: seq<Step>, dataset: EdgeListDataset, mode: SortMode, x: Step)
    requires dataset.Checked() && Incremental(run, dataset, mode) && dataset.InRange(|run|)
    requires x.before == StateAfter(run, |run|) && Takes(x, dataset, |run|, mode)
    ensures Incremental(run + [x], dataset, mode) && StateAfter(run + [x], |run| + 1) == x.after
  {
    var more := run + [x];
    forall b | 0 <= b < |more|
      ensures more[b].before == StateAfter(more, b) && Takes(more[b], dataset, b, mode)
    {
      assert StateAfter(more, b) == StateAfter(run, b);
    }
  }

  /** What inserting a batch makes of the times. */
  lemma InsertTimes(t: State, m: View, es: seq<Edge>)
    requires NoEmptyVertex(t.graph) && ViewOf(t.graph) == InsertAll(m, es) && t.numEdges == |m| + CountedAll(m, es)
    requires Positive(m) && PositiveWeights(es)
    ensures HoldsTimes(t, Later(Times(m), Latest(es)))
  {
    PositiveNeverHits(m, es);
    TimesOfInsertAll(m, es);
    HitsAreCountedTwice(m, es);
  }

  lemma StillInTimes(m: View, dataset: EdgeListDataset, b: nat)
    requires dataset.Checked() && dataset.InRange(b) && Times(m) == WindowAfter(dataset, b)
    ensures Times(StillIn(m, dataset, b)) == Since(WindowAfter(dataset, b), dataset.WindowStart(b))
  {
    if dataset.windowSize == 1.0 {
      NothingExpires(dataset, b);
    } else {
      TimesOfPrune(m, dataset.WindowStart(b));
    }
  }

  lemma TimesMove(m: View, dataset: EdgeListDataset, b: nat, mode: SortMode, latest: map<Ends, int>)
    requires dataset.Checked() && dataset.InRange(b) && Times(m) == WindowAfter(dataset, b)
    requires latest == Latest(Selected(dataset, b, mode))
    ensures Later(Times(StillIn(m, dataset, b)), latest) == WindowAfter(dataset, b + 1)
  {
    StillInTimes(m, dataset, b);
    WindowMoves(dataset, b, mode);
  }

  lemma UpdateHolds(x: Step, dataset: EdgeListDataset, b: nat, mode: SortMode, times: map<Ends, int>)
    requires Usable(dataset) && dataset.InRange(b) && HoldsTimes(x.before, WindowAfter(dataset, b))
    requires Takes(x, dataset, b, mode) && times == WindowAfter(dataset, b + 1)
    ensures HoldsTimes(x.after, times)
  {
    assert Opened(x);
    var m := StillIn(ViewOf(x.before.graph), dataset, b);
    PreprocessedWeights(dataset, b, mode, x.batch);
    TimesMove(ViewOf(x.before.graph), dataset, b, mode, Latest(x.batch));
    InsertTimes(x.after, m, x.batch);
  }

  lemma EmptyHolds(dataset: EdgeListDataset)
    requires dataset.Checked()
    ensures HoldsWindow(State(map[], 0), dataset, 0)
  {
    assert ViewOf(map[]) == map[];
    ShowHolds(State(map[], 0), map[], dataset, 0);
  }

  /** After every batch of every incremental run the graph holds exactly the window of all edges so far. */
  lemma {:induction false} IncrementalHolds(run: seq<Step>, dataset: EdgeListDataset, mode: SortMode, n: nat)
    requires Usable(dataset) && Incremental(run, dataset, mode) && n <= |run|
    ensures HoldsWindow(StateAfter(run, n), dataset, n)
  {
    if n == 0 {
      EmptyHolds(dataset);
    } else {
      IncrementalHolds(run, dataset, mode, n - 1);
      StepHolds(run[n - 1], dataset, n - 1, mode);
    }
  }

  lemma StepHolds(x: Step, dataset: EdgeListDataset, b: nat, mode: SortMode)
    requires Usable(dataset) && dataset.InRange(b) && HoldsWindow(x.before, dataset, b) && Takes(x, dataset, b, mode)
    ensures HoldsWindow(x.after, dataset, b + 1)
  {
    var times := WindowAfter(dataset, b + 1);
    SeeHolds(x.before, dataset, b);
    UpdateHolds(x, dataset, b, mode, times);
    ShowHolds(x.after, times, dataset, b + 1);
  }

  lemma InsertSlices(es: seq<Edge>, lo: nat, hi: nat)
    requires lo <= hi <= |es|
    ensures InsertAll(InsertAll(map[], es[..lo]), es[lo..hi]) == InsertAll(map[], es[..hi])
  {
    InsertAllSplits(map[], es[..lo], es[lo..hi]);
    assert es[..lo] + es[lo..hi] == es[..hi];
  }

  /** The graph is what inserting all edges of the first n batches in one go would make it. */
  ghost predicate AddedUp(s: State, dataset: EdgeListDataset, n: nat) {
    match s
    case State(graph, _) =>
      && n * dataset.batchSize <= |dataset.contents|
      && ViewOf(graph) == InsertAll(map[], dataset.contents[..n * dataset.batchSize])
  }

  /** With a full window an incremental run that does not sort has, after n batches, added up all their edges, one
      after the other: no edge is lost and none is taken twice, whatever the weights. */
  lemma {:induction false} FullWindowAddsUp(run: seq<Step>, dataset: EdgeListDataset, n: nat)
    requires dataset.Checked() && dataset.windowSize == 1.0 && Incremental(run, dataset, Unsorted) && n <= |run|
    ensures AddedUp(StateAfter(run, n), dataset, n)
  {
    if n == 0 {
      NothingAddedUp(dataset);
    } else {
      FullWindowAddsUp(run, dataset, n - 1);
      assert run[n - 1].before == StateAfter(run, n - 1);
      StepAddsUp(run[n - 1], dataset, n - 1);
    }
  }

  lemma NothingAddedUp(dataset: EdgeListDataset)
    ensures AddedUp(State(map[], 0), dataset, 0)
  {
    assert ViewOf(map[]) == map[];
  }

  lemma StepAddsUp(x: Step, dataset: EdgeListDataset, b: nat)
    requires dataset.Checked() && dataset.InRange(b) && dataset.windowSize == 1.0 && Takes(x, dataset, b, Unsorted)
    requires AddedUp(x.before, dataset, b)
    ensures AddedUp(x.after, dataset, b + 1)
  {
    dataset.BatchBounds(b);
    FullWindowSelects(dataset, b);
    StepInserts(x, dataset, b);
    InsertSlices(dataset.contents, dataset.Start(b), dataset.Start(b + 1));
  }

  lemma StepInserts(x: Step, dataset: EdgeListDataset, b: nat)
    requires dataset.Checked() && dataset.InRange(b) && dataset.windowSize == 1.0 && Takes(x, dataset, b, Unsorted)
    ensures ViewOf(x.after.graph) == InsertAll(ViewOf(x.before.graph), Selected(dataset, b, Unsorted))
  {
    assert Opened(x);
  }

  lemma FullWindowSelects(dataset: EdgeListDataset, b: nat)
    requires dataset.Checked() && dataset.InRange(b) && dataset.windowSize == 1.0
    ensures Selected(dataset, b, Unsorted) == dataset.BatchEdges(b)
  {
    dataset.BatchBounds(b);
    dataset.WindowStartBounds(b);
    var es := dataset.BatchEdges(b);
    forall i | 0 <= i < |es|
      ensures es[i].timestamp >= dataset.WindowStart(b)
    {
      assert !ByTimestamp(es[i], dataset.contents[0]) || es[i] == dataset.contents[0];
    }
    RecentSuffix(es, dataset.WindowStart(b), 0);
  }

  /** With positive weights, every pair has the summed weight and the latest time of its edges so far. */
  lemma FullWindowSums(run: seq<Step>, dataset: EdgeListDataset, n: nat, k: Ends)
    requires Usable(dataset) && dataset.windowSize == 1.0 && Incremental(run, dataset, Unsorted) && n <= |run|
    ensures n * dataset.batchSize <= |dataset.contents|
    ensures var es, m := dataset.contents[..n * dataset.batchSize], ViewOf(StateAfter(run, n).graph);
      (k in m <==> k in Latest(es)) && (k in m ==> m[k] == EdgeProp(WeightSum(es, k), Latest(es)[k]))
  {
    FullWindowAddsUp(run, dataset, n);
    var es := dataset.contents[..n * dataset.batchSize];
    assert forall i :: 0 <= i < |es| ==> es[i] in dataset.contents;
    InsertAllSums(map[], es);
  }

  // ---- Graphs built from a snapshot ----------------------------------------------------------------------

  ghost predicate Builds(s: State, es: seq<Edge>) {
    NoEmptyVertex(s.graph) && ViewOf(s.graph) == InsertAll(map[], es) && s.numEdges == CountedAll(map[], es)
  }

  /** The graph was made of the cumulative snapshot up to a batch. */
  ghost predicate BuiltAt(s: State, dataset: EdgeListDataset, batchId: nat)
    requires dataset.Checked() && dataset.InRange(batchId)
  {
    exists es :: Preprocessed(dataset, batchId, Snapshot, es) && Builds(s, es)
  }

  lemma BuiltHolds(s: State, es: seq<Edge>)
    requires Builds(s, es) && PositiveWeights(es)
    ensures HoldsTimes(s, Latest(es))
  {
    InsertTimes(s, map[], es);
    assert Later(Times(map[]), Latest(es)) == Latest(es);
  }

  lemma SnapshotHolds(s: State, dataset: EdgeListDataset, batchId: nat)
    requires Usable(dataset) && dataset.InRange(batchId) && BuiltAt(s, dataset, batchId)
    ensures HoldsWindow(s, dataset, batchId + 1)
  {
    var es :| Preprocessed(dataset, batchId, Snapshot, es) && Builds(s, es);
    PreprocessedWeights(dataset, batchId, Snapshot, es);
    BuiltHolds(s, es);
    ShowHolds(s, Latest(es), dataset, batchId + 1);
  }

  // ---- Trials --------------------------------------------------------------------------------------------

  /** An algorithm turns its old results on a graph into new ones. Which source vertices it starts from
      is part of the function. */
  type Update = (string, AdjacencyList, seq<int>) -> seq<int>

  ghost predicate HasAll(data: Data, algNames: seq<string>) {
    forall i :: 0 <= i < |algNames| ==> algNames[i] in data
  }

  /** What one trial makes of the results it starts with. */
  function Trial(update: Update, graph: AdjacencyList, start: Data, algNames: seq<string>): (end: Data)
    requires HasAll(start, algNames)
    ensures end.Keys == start.Keys
  {
    if algNames == [] then start
    else
      var n := |algNames| - 1;
      var data := Trial(update, graph, start, algNames[..n]);
      data[algNames[n] := update(algNames[n], graph, data[algNames[n]])]
  }

  /** An algorithm run n times in a row on a graph. */
  function Again(update: Update, alg: string, graph: AdjacencyList, data: seq<int>, n: nat): seq<int> {
    if n == 0 then data else update(alg, graph, Again(update, alg, graph, data, n - 1))
  }

  /** In a trial every algorithm is run on its own old results, as often as it is named, and nothing else changes. */
  lemma {:induction false} TrialAt(update: Update, graph: AdjacencyList, start: Data, algNames: seq<string>, a: string)
    requires HasAll(start, algNames) && a in start
    ensures Trial(update, graph, start, algNames)[a] == Again(update, a, graph, start[a], multiset(algNames)[a])
  {
    if algNames != [] {
      var n := |algNames| - 1;
      TrialAt(update, graph, start, algNames[..n], a);
      assert algNames == algNames[..n] + [algNames[n]];
    }
  }

  /** Once, when no name is there twice. */
  lemma TrialOnce(update: Update, graph: AdjacencyList, start: Data, algNames: seq<string>, a: string)
    requires HasAll(start, algNames) && a in start
    requires forall i, j :: 0 <= i < j < |algNames| ==> algNames[i] != algNames[j]
    ensures Trial(update, graph, start, algNames)[a] == if a in algNames then update(a, graph, start[a]) else start[a]
  {
    TrialAt(update, graph, start, algNames, a);
    NamedOnce(algNames, a);
    assert Again(update, a, graph, start[a], 0) == start[a];
  }

  lemma {:induction false} NamedOnce(algNames: seq<string>, a: string)
    requires forall i, j :: 0 <= i < j < |algNames| ==> algNames[i] != algNames[j]
    ensures multiset(algNames)[a] == if a in algNames then 1 else 0
  {
    if algNames != [] {
      var n := |algNames| - 1;
      NamedOnce(algNames[..n], a);
      assert algNames == algNames[..n] + [algNames[n]];
    }
  }

  /** The results at hand, and those of the epoch before. */
  datatype Results = Results(current: Data, last: Data)

  ghost function Held(manager: AlgDataManager): Results
    reads manager
  {
    Results(manager.currentEpochData, manager.lastEpochData)
  }

  /** One epoch: the batch that it follows, the graph, what each trial started with and ended with, and the
      results that are kept. */
  datatype EpochRun = EpochRun(batchId: nat, state: State, starts: seq<Data>, ends: seq<Data>, result: Data)

  /** The first trial goes on with the results at hand, and every other starts with those of the last epoch. */
  ghost predicate Tried(run: EpochRun, args: Args, update: Update, before: Results) {
    match run
    case EpochRun(_, state, starts, ends, result) =>
      && |starts| == |ends| == args.numTrials >= 1 && result == ends[args.numTrials - 1]
      && forall t {:trigger starts[t]} {:trigger ends[t]} :: 0 <= t < args.numTrials ==>
           && starts[t] == (if t == 0 then before.current else before.last) && HasAll(starts[t], args.algNames)
           && ends[t] == Trial(update, state.graph, starts[t], args.algNames)
  }

  /** The results that n epochs leave behind. */
  function Leave(epochs: seq<EpochRun>, n: nat, before: Results): Results
    requires n <= |epochs|
  {
    if n == 0 then before else Results(epochs[n - 1].result, epochs[n - 1].result)
  }

  ghost predicate AllTried(epochs: seq<EpochRun>, args: Args, update: Update, before: Results) {
    forall e {:trigger Leave(epochs, e, before)} :: 0 <= e < |epochs| ==>
      Tried(epochs[e], args, update, Leave(epochs, e, before))
  }

  lemma AllTriedGrows(epochs: seq<EpochRun>, args: Args, update: Update, before: Results, run: EpochRun)
    requires AllTried(epochs, args, update, before)
    requires Tried(run, args, update, Leave(epochs, |epochs|, before))
    ensures AllTried(epochs + [run], args, update, before)
  {
    var more := epochs + [run];
    forall e | 0 <= e < |more|
      ensures Tried(more[e], args, update, Leave(more, e, before))
    {
      assert Leave(more, e, before) == Leave(epochs, e, before);
      if e < |epochs| { assert Tried(epochs[e], args, update, Leave(epochs, e, before)); }
    }
  }

  /** In every epoch but the first, all trials start with what the epoch before left, and so end with the same
      results. */
  lemma TrialsRepeat(epochs: seq<EpochRun>, args: Args, update: Update, before: Results, e: nat, t: nat)
    requires AllTried(epochs, args, update, before) && 0 < e < |epochs| && t < args.numTrials
    ensures |epochs[e].starts| == |epochs[e].ends| == args.numTrials
    ensures epochs[e].starts[t] == epochs[e - 1].result && epochs[e].ends[t] == epochs[e].result
  {
    assert Tried(epochs[e], args, update, Leave(epochs, e, before));
    assert epochs[e].starts[t] == epochs[e].starts[args.numTrials - 1];
  }

  /** The algorithms, run once on the graph of each of the first n epochs in turn. */
  function OnEach(update: Update, epochs: seq<EpochRun>, n: nat, start: Data, algNames: seq<string>): (end: Data)
    requires n <= |epochs| && HasAll(start, algNames)
    ensures end.Keys == start.Keys
  {
    if n == 0 then start
    else Trial(update, epochs[n - 1].state.graph, OnEach(update, epochs, n - 1, start, algNames), algNames)
  }

  /** An algorithm run on the graph of each of the first n epochs in turn, every time as often as it is named. */
  function AgainOnEach(update: Update, alg: string, epochs: seq<EpochRun>, n: nat, data: seq<int>, times: nat): seq<int>
    requires n <= |epochs|
  {
    if n == 0 then data
    else Again(update, alg, epochs[n - 1].state.graph, AgainOnEach(update, alg, epochs, n - 1, data, times), times)
  }

  lemma {:induction false} OnEachAt(update: Update, epochs: seq<EpochRun>, n: nat, start: Data, algNames: seq<string>,
                                    a: string)
    requires n <= |epochs| && HasAll(start, algNames) && a in start
    ensures OnEach(update, epochs, n, start, algNames)[a]
         == AgainOnEach(update, a, epochs, n, start[a], multiset(algNames)[a])
  {
    if n > 0 {
      OnEachAt(update, epochs, n - 1, start, algNames, a);
      TrialAt(update, epochs[n - 1].state.graph, OnEach(update, epochs, n - 1, start, algNames), algNames, a);
    }
  }

  /** What the trial starts with that counts, the last one. */
  function LastStart(args: Args, before: Results): Data { if args.numTrials == 1 then before.current else before.last }

  lemma TriedLeaves(run: EpochRun, args: Args, update: Update, before: Results)
    requires Tried(run, args, update, before)
    ensures HasAll(LastStart(args, before), args.algNames)
    ensures run.result == Trial(update, run.state.graph, LastStart(args, before), args.algNames)
  {
    var t := args.numTrials - 1;
    assert run.starts[t] == (if t == 0 then before.current else before.last);
    assert run.ends[t] == Trial(update, run.state.graph, run.starts[t], args.algNames);
  }

  lemma EpochLeaves(epochs: seq<EpochRun>, args: Args, update: Update, before: Results, n: nat)
    requires AllTried(epochs, args, update, before) && n < |epochs|
    ensures HasAll(LastStart(args, Leave(epochs, n, before)), args.algNames)
    ensures LastStart(args, Leave(epochs, n + 1, before))
         == Trial(update, epochs[n].state.graph, LastStart(args, Leave(epochs, n, before)), args.algNames)
  {
    TriedLeaves(epochs[n], args, update, Leave(epochs, n, before));
  }

  /** However many trials there are, n epochs leave what one trial on each epoch's graph makes of the results that
      the run starts from: those at hand, or with several trials those of the last epoch. */
  lemma {:induction false} EpochsLeave(epochs: seq<EpochRun>, args: Args, update: Update, before: Results, n: nat)
    requires AllTried(epochs, args, update, before) && n <= |epochs| && HasAll(LastStart(args, before), args.algNames)
    ensures LastStart(args, Leave(epochs, n, before))
         == OnEach(update, epochs, n, LastStart(args, before), args.algNames)
  {
    if n > 0 {
      EpochsLeave(epochs, args, update, before, n - 1);
      EpochLeaves(epochs, args, update, before, n - 1);
    }
  }

  /** So does a whole run. */
  lemma RunLeaves(epochs: seq<EpochRun>, args: Args, update: Update, before: Results)
    requires AllTried(epochs, args, update, before) && HasAll(LastStart(args, before), args.algNames) && epochs != []
    ensures epochs[|epochs| - 1].result
         == OnEach(update, epochs, |epochs|, LastStart(args, before), args.algNames)
  {
    EpochsLeave(epochs, args, update, before, |epochs|);
  }

  // ---- The schedule ----------------------------------------------------------------------------------------

  /** Epoch e is due after a batch. */
  ghost predicate OnTime(batchId: nat, e: nat, numBatches: nat, numEpochs: nat)
    requires numBatches >= 1 && numEpochs >= 1
  {
    && batchId < numBatches && EnableAlgsForBatch(batchId, numBatches, numEpochs)
    && EpochsRun(batchId, numBatches, numEpochs) == e
  }

  ghost predicate Scheduled(epochs: seq<EpochRun>, numBatches: nat, numEpochs: nat)
    requires numBatches >= 1 && numEpochs >= 1
  {
    |epochs| == numEpochs && forall e :: 0 <= e < |epochs| ==> OnTime(epochs[e].batchId, e, numBatches, numEpochs)
  }

  lemma {:induction false} EpochsRunGrows(b: nat, c: nat, numBatches: nat, numEpochs: nat)
    requires numBatches >= 1 && numEpochs >= 1 && b <= c
    ensures EpochsRun(b, numBatches, numEpochs) <= EpochsRun(c, numBatches, numEpochs)
  {
    if b < c { EpochsRunGrows(b, c - 1, numBatches, numEpochs); }
  }

  lemma OnTimeOnce(b: nat, c: nat, e: nat, numBatches: nat, numEpochs: nat)
    requires numBatches >= 1 && numEpochs >= 1
    requires OnTime(b, e, numBatches, numEpochs) && OnTime(c, e, numBatches, numEpochs)
    ensures b == c
  {
    if b < c { EpochsRunGrows(b + 1, c, numBatches, numEpochs); }
    if c < b { EpochsRunGrows(c + 1, b, numBatches, numEpochs); }
  }

  /** No batch that is to be followed by an epoch is left out. */
  lemma NoneIsMissed(epochs: seq<EpochRun>, numBatches: nat, numEpochs: nat, b: nat)
    requires 1 <= numEpochs <= numBatches && Scheduled(epochs, numBatches, numEpochs)
    requires b < numBatches && EnableAlgsForBatch(b, numBatches, numEpochs)
    ensures exists e :: 0 <= e < |epochs| && epochs[e].batchId == b
  {
    var e := EpochsRun(b, numBatches, numEpochs);
    NeverTooMany(b + 1, numBatches, numEpochs);
    assert OnTime(b, e, numBatches, numEpochs);
    OnTimeOnce(b, epochs[e].batchId, e, numBatches, numEpochs);
  }

  /** The epochs after the first n batches, by the calendar. */
  ghost predicate Recorded(epochs: seq<EpochRun>, calendar: Calendar, n: nat) {
    && |epochs| == calendar.due(n)
    && forall e :: 0 <= e < |epochs| ==>
         && epochs[e].batchId < n
         && calendar.due(epochs[e].batchId) == e && calendar.due(epochs[e].batchId + 1) == e + 1
  }

  lemma RecordedStays(epochs: seq<EpochRun>, calendar: Calendar, b: nat)
    requires Recorded(epochs, calendar, b) && b < calendar.numBatches
    requires !EnableAlgsForBatch(b, calendar.numBatches, calendar.numEpochs)
    ensures Recorded(epochs, calendar, b + 1)
  {
    EnabledWhenShareGrows(b, calendar.numBatches, calendar.numEpochs);
  }

  lemma RecordedIsScheduled(epochs: seq<EpochRun>, calendar: Calendar)
    requires Recorded(epochs, calendar, calendar.numBatches)
    ensures Scheduled(epochs, calendar.numBatches, calendar.numEpochs)
  {
    forall e | 0 <= e < |epochs|
      ensures OnTime(epochs[e].batchId, e, calendar.numBatches, calendar.numEpochs)
    {
      DueIsOnTime(epochs[e].batchId, e, calendar);
    }
  }

  lemma DueIsOnTime(b: nat, e: nat, calendar: Calendar)
    requires b < calendar.numBatches && calendar.due(b) == e && calendar.due(b + 1) == e + 1
    ensures OnTime(b, e, calendar.numBatches, calendar.numEpochs)
  {
    EnabledWhenShareGrows(b, calendar.numBatches, calendar.numEpochs);
    EpochsRunOnTime(b, calendar.numBatches, calendar.numEpochs);
  }

  // ---- Whole runs --------------------------------------------------------------------------------------------

  /** Every epoch saw the graph as it was after its batch. */
  ghost predicate OnStates(epochs: seq<EpochRun>, run: seq<Step>) {
    forall e :: 0 <= e < |epochs| ==>
      epochs[e].batchId < |run| && epochs[e].state == StateAfter(run, epochs[e].batchId + 1)
  }

  lemma OnStatesStay(epochs: seq<EpochRun>, run: seq<Step>, x: Step)
    requires OnStates(epochs, run)
    ensures OnStates(epochs, run + [x])
  {
    forall e | 0 <= e < |epochs|
      ensures epochs[e].batchId < |run| && StateAfter(run + [x], epochs[e].batchId + 1) == epochs[e].state
    {
    }
  }

  ghost predicate SawSnapshot(run: EpochRun, dataset: EdgeListDataset)
    requires dataset.Checked()
  {
    && dataset.InRange(run.batchId)
    && forall s {:trigger Looked(s)} :: s == run.state ==> BuiltAt(s, dataset, run.batchId)
  }

  /** Every epoch saw a graph made of the snapshot of its batch. */
  ghost predicate OnSnapshots(epochs: seq<EpochRun>, dataset: EdgeListDataset)
    requires dataset.Checked()
  {
    forall e :: 0 <= e < |epochs| ==> SawSnapshot(epochs[e], dataset)
  }

  lemma AllHold(run: seq<Step>, dataset: EdgeListDataset, mode: SortMode)
    requires dataset.Checked() && Incremental(run, dataset, mode)
    ensures Usable(dataset) ==> forall n :: 0 <= n <= |run| ==> HoldsWindow(StateAfter(run, n), dataset, n)
  {
    if Usable(dataset) {
      forall n | 0 <= n <= |run|
        ensures HoldsWindow(StateAfter(run, n), dataset, n)
      {
        IncrementalHolds(run, dataset, mode, n);
      }
    }
  }

  lemma SnapshotsHold(epochs: seq<EpochRun>, dataset: EdgeListDataset)
    requires dataset.Checked() && OnSnapshots(epochs, dataset)
    ensures Usable(dataset) ==>
      forall e :: 0 <= e < |epochs| ==> HoldsWindow(epochs[e].state, dataset, epochs[e].batchId + 1)
  {
    if Usable(dataset) {
      forall e | 0 <= e < |epochs|
        ensures HoldsWindow(epochs[e].state, dataset, epochs[e].batchId + 1)
      {
        assert Looked(epochs[e].state);
        SnapshotHolds(epochs[e].state, dataset, epochs[e].batchId);
      }
    }
  }

  lemma SameBatch(epochs: seq<EpochRun>, others: seq<EpochRun>, numBatches: nat, numEpochs: nat, e: nat)
    requires numBatches >= 1 && numEpochs >= 1 && e < numEpochs
    requires Scheduled(epochs, numBatches, numEpochs) && Scheduled(others, numBatches, numEpochs)
    ensures epochs[e].batchId == others[e].batchId
  {
    OnTimeOnce(epochs[e].batchId, others[e].batchId, e, numBatches, numEpochs);
  }

  /** Incrementally or from a snapshot, the graphs after a batch are alike. */
  lemma UpdatedIsRebuilt(run: seq<Step>, t: State, dataset: EdgeListDataset, mode: SortMode, batchId: nat)
    requires Usable(dataset) && Incremental(run, dataset, mode) && batchId < |run| && BuiltAt(t, dataset, batchId)
    ensures Alike(StateAfter(run, batchId + 1), t)
  {
    IncrementalHolds(run, dataset, mode, batchId + 1);
    SnapshotHolds(t, dataset, batchId);
    SameWindowAlike(StateAfter(run, batchId + 1), t, dataset, batchId + 1);
  }

  lemma EpochsAlike(run: seq<Step>, epochs: seq<EpochRun>, rebuilt: seq<EpochRun>,
                    dataset: EdgeListDataset, mode: SortMode, numEpochs: nat, e: nat)
    requires Usable(dataset) && numEpochs >= 1 && e < numEpochs
    requires Incremental(run, dataset, mode) && OnStates(epochs, run) && OnSnapshots(rebuilt, dataset)
    requires Scheduled(epochs, dataset.numBatches, numEpochs) && Scheduled(rebuilt, dataset.numBatches, numEpochs)
    ensures epochs[e].batchId == rebuilt[e].batchId && Alike(epochs[e].state, rebuilt[e].state)
  {
    SameBatch(epochs, rebuilt, dataset.numBatches, numEpochs, e);
    assert SawSnapshot(rebuilt[e], dataset) && Looked(rebuilt[e].state);
    UpdatedIsRebuilt(run, rebuilt[e].state, dataset, mode, epochs[e].batchId);
  }

  lemma SeeAlike(s: State, t: State)
    requires Alike(s, t)
    ensures s.numEdges == t.numEdges
    ensures forall k :: k in ViewOf(s.graph) <==> k in ViewOf(t.graph)
    ensures forall k :: k in ViewOf(s.graph) ==> ViewOf(s.graph)[k].timestamp == ViewOf(t.graph)[k].timestamp
    ensures forall v :: |Neighbours(s.graph, v)| == |Neighbours(t.graph, v)|
  {
  }

  /** Processing a dataset incrementally and rebuilding a graph for every epoch come to the same: in every epoch,
      after the same batch, the graphs have the same pairs with the same times, and the same counts and degrees. */
  lemma IncrementalEqualsSnapshot(run: seq<Step>, epochs: seq<EpochRun>, rebuilt: seq<EpochRun>,
                                  dataset: EdgeListDataset, mode: SortMode, numEpochs: nat, e: nat)
    requires Usable(dataset) && numEpochs >= 1 && e < numEpochs
    requires Incremental(run, dataset, mode) && OnStates(epochs, run) && OnSnapshots(rebuilt, dataset)
    requires Scheduled(epochs, dataset.numBatches, numEpochs) && Scheduled(rebuilt, dataset.numBatches, numEpochs)
    ensures var s, t := epochs[e].state, rebuilt[e].state;
      && epochs[e].batchId == rebuilt[e].batchId && s.numEdges == t.numEdges
      && (forall k :: k in ViewOf(s.graph) <==> k in ViewOf(t.graph))
      && (forall k :: k in ViewOf(s.graph) ==> ViewOf(s.graph)[k].timestamp == ViewOf(t.graph)[k].timestamp)
      && (forall v :: |Neighbours(s.graph, v)| == |Neighbours(t.graph, v)|)
  {
    EpochsAlike(run, epochs, rebuilt, dataset, mode, numEpochs, e);
    SeeAlike(epochs[e].state, rebuilt[e].state);
  }
}
