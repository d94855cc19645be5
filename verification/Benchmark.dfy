/** The benchmark's main loops: preprocess a batch, move the window, insert, and run the algorithms
    when an epoch is due. */
module Benchmark {
  import opened AlgDataManager
  import opened Algorithms
  import opened Batches
  import opened EdgeListDataset
  import opened Edges
  import opened EpochSchedule
  import opened ReferenceImpl
  import opened Runs
  import opened Threads

  /** A filtered batch, as it is or deduplicated. Sorting works on a copy, so the dataset stays. */
  method GetPreprocessedBatch(batchId: nat, dataset: EdgeListDataset, mode: SortMode, scheduler: Scheduler)
    returns (batch: Batch)
    requires dataset.Valid() && Suits(dataset, mode) && dataset.InRange(batchId) && Schedules(scheduler)
    ensures fresh(batch) && batch.Valid() && Preprocessed(dataset, batchId, mode, batch.View())
    ensures mode != Unsorted ==> fresh(batch.edges)
  {
    var threshold := dataset.GetTimestampForWindow(batchId);
    if mode == Unsorted {
      batch := dataset.GetBatch(batchId);
      batch.Filter(threshold);
    } else {
      SelectedEdges(dataset, batchId, mode);
      if mode == Presort {
        batch := dataset.GetBatch(batchId);
      } else {
        batch := dataset.GetBatchesUpTo(batchId);
      }
      batch := FilterAndDedup(batch, threshold, scheduler);
    }
  }

  /** Works on an owned copy. */
  method FilterAndDedup(original: Batch, threshold: int, scheduler: Scheduler) returns (batch: Batch)
    requires original.Valid() && Sorted(ByTimestamp, original.View()) && Schedules(scheduler)
    requires Recent(original.View(), threshold) != []
    requires forall e :: e in Recent(original.View(), threshold) ==> e.src >= 0 && e.dst >= 0
    ensures fresh(batch) && fresh(batch.edges) && batch.Valid()
    ensures Dedup(Recent(original.View(), threshold), batch.View()) && DegreeSorted(batch.View())
  {
    batch := new Batch.Concrete(original);
    batch.Filter(threshold);
    batch.DedupAndSortByOutDegree(scheduler);
  }

  // ---- The graph ---------------------------------------------------------------------------------------

  method DeleteOld(graph: ReferenceImpl, batchId: nat, dataset: EdgeListDataset)
    requires dataset.Valid() && dataset.InRange(batchId) && NoEmptyVertex(graph.graph)
    modifies graph
    ensures NoEmptyVertex(graph.graph) && graph.View() == StillIn(old(graph.View()), dataset, batchId)
    ensures graph.numEdges - |graph.View()| == old(graph.numEdges - |graph.View()|)
  {
    var threshold := dataset.GetTimestampForWindow(batchId);
    if dataset.windowSize != 1.0 {
      graph.DeleteEdgesOlderThan(threshold);
    }
  }

  /** One batch of the incremental run: delete what is too old, then insert. */
  method UpdateGraph(graph: ReferenceImpl, batchId: nat, dataset: EdgeListDataset, mode: SortMode,
                     scheduler: Scheduler)
    returns (ghost x: Step)
    requires dataset.Valid() && Suits(dataset, mode) && dataset.InRange(batchId) && Schedules(scheduler)
    requires NoEmptyVertex(graph.graph)
    modifies graph
    ensures x.before == old(graph.Now()) && x.after == graph.Now() && Takes(x, dataset, batchId, mode)
    ensures NoEmptyVertex(graph.graph)
  {
    ghost var s := graph.Now();
    var batch := GetPreprocessedBatch(batchId, dataset, mode, scheduler);
    DeleteOld(graph, batchId, dataset);
    ghost var m := graph.View();
    var es := batch.edges[batch.beginIter..batch.endIter];
    graph.InsertBatch(es);
    x := Step(s, es, graph.Now());
    ShowTakes(s, es, graph.Now(), m, dataset, batchId, mode);
  }

  /** A graph built from scratch out of the cumulative snapshot. */
  method BuildSnapshot(batchId: nat, dataset: EdgeListDataset, scheduler: Scheduler) returns (graph: ReferenceImpl)
    requires dataset.Valid() && Indexed(dataset) && dataset.InRange(batchId) && Schedules(scheduler)
    ensures fresh(graph) && BuiltAt(graph.Now(), dataset, batchId)
  {
    var batch := GetPreprocessedBatch(batchId, dataset, Snapshot, scheduler);
    graph := new ReferenceImpl();
    var es := batch.edges[batch.beginIter..batch.endIter];
    graph.InsertBatch(es);
    assert Preprocessed(dataset, batchId, Snapshot, es) && Builds(graph.Now(), es);
  }

  // ---- Epochs and trials -------------------------------------------------------------------------------

  /** The trials of one epoch. All but the first are rolled back to the last epoch's results. */
  method RunTrials(batchId: nat, manager: AlgDataManager, graph: ReferenceImpl, update: Update, args: Args)
    returns (ghost run: EpochRun)
    requires manager.Valid() && args.numTrials >= 1 && HasAll(manager.currentEpochData, args.algNames)
    modifies manager
    ensures manager.Valid() && HasAll(manager.currentEpochData, args.algNames)
    ensures run.batchId == batchId && run.state == graph.Now()
    ensures Tried(run, args, update, old(Held(manager))) && Held(manager) == Results(run.result, run.result)
    ensures run.result.Keys == run.starts[args.numTrials - 1].Keys
    ensures forall a :: a in run.result ==>
      run.result[a]
      == Again(update, a, graph.graph, run.starts[args.numTrials - 1][a], multiset(args.algNames)[a])
  {
    ghost var keys, starts, ends := manager.currentEpochData.Keys, [], [];
    for trial := 0 to args.numTrials
      invariant manager.Valid() && manager.currentEpochData.Keys == keys
      invariant manager.lastEpochData == old(manager.lastEpochData)
      invariant |starts| == |ends| == trial && (trial == 0 ==> manager.currentEpochData == old(manager.currentEpochData))
      invariant trial > 0 ==> manager.currentEpochData == ends[trial - 1]
      invariant forall t {:trigger starts[t]} {:trigger ends[t]} :: 0 <= t < trial ==>
        && starts[t] == old(if t == 0 then manager.currentEpochData else manager.lastEpochData)
        && HasAll(starts[t], args.algNames)
        && ends[t] == Trial(update, graph.graph, starts[t], args.algNames)
    {
      if trial != 0 { manager.Rollback(); }
      starts := starts + [manager.currentEpochData];
      RunAlgs(manager, graph.graph, update, args.algNames);
      ends := ends + [manager.currentEpochData];
    }
    manager.NextEpoch();
    run := EpochRun(batchId, graph.Now(), starts, ends, manager.currentEpochData);
    ghost var start := starts[args.numTrials - 1];
    forall a | a in start
      ensures Trial(update, graph.graph, start, args.algNames)[a]
           == Again(update, a, graph.graph, start[a], multiset(args.algNames)[a])
    {
      TrialAt(update, graph.graph, start, args.algNames, a);
    }
  }

  method RunAlgs(manager: AlgDataManager, graph: AdjacencyList, update: Update, algNames: seq<string>)
    requires manager.Valid()
    requires HasAll(manager.currentEpochData, algNames)
    modifies manager
    ensures manager.Valid() && manager.lastEpochData == old(manager.lastEpochData)
    ensures manager.currentEpochData == Trial(update, graph, old(manager.currentEpochData), algNames)
  {
    ghost var start := manager.currentEpochData;
    for i := 0 to |algNames|
      invariant manager.Valid() && manager.lastEpochData == old(manager.lastEpochData)
      invariant manager.currentEpochData == Trial(update, graph, start, algNames[..i])
    {
      var alg := algNames[i];
      assert algNames[..i + 1][..i] == algNames[..i];
      manager.SetDataForAlg(alg, update(alg, graph, manager.currentEpochData[alg]));
    }
    assert algNames[..|algNames|] == algNames;
  }

  /** The epochs after n batches are on record, and their results at hand. */
  ghost predicate OnRecord(manager: AlgDataManager, epochs: seq<EpochRun>, n: nat, args: Args, update: Update,
                           before: Results, calendar: Calendar)
    reads manager
  {
    && manager.Valid() && HasAll(manager.currentEpochData, args.algNames)
    && Recorded(epochs, calendar, n) && AllTried(epochs, args, update, before)
    && Held(manager) == Leave(epochs, |epochs|, before)
  }

  /** Runs the epoch that is due after a batch; the assertion on the number of epochs holds. */
  method RunEpoch(batchId: nat, numBatches: nat, epoch: nat, manager: AlgDataManager, graph: ReferenceImpl,
                  update: Update, args: Args, ghost epochs: seq<EpochRun>, ghost before: Results,
                  ghost calendar: Calendar)
    returns (epoch': nat, ghost epochs': seq<EpochRun>)
    requires calendar.numBatches == numBatches && calendar.numEpochs == args.numEpochs && batchId < numBatches
    requires args.numTrials >= 1 && EnableAlgsForBatch(batchId, numBatches, args.numEpochs)
    requires epoch == |epochs| && OnRecord(manager, epochs, batchId, args, update, before, calendar)
    modifies manager
    ensures epoch' == |epochs'| && OnRecord(manager, epochs', batchId + 1, args, update, before, calendar)
    ensures exists run :: epochs' == epochs + [run] && run.batchId == batchId && run.state == graph.Now()
  {
    EnabledWhenShareGrows(batchId, numBatches, args.numEpochs);
    ghost var run := RunTrials(batchId, manager, graph, update, args);
    AllTriedGrows(epochs, args, update, before, run);
    epochs' := epochs + [run];
    epoch' := epoch + 1;
    assert epoch' <= args.numEpochs;
  }

  // ---- The incremental benchmark -------------------------------------------------------------------------

  /** The graph has gone through a step for each of n batches, and every epoch saw it after its batch. */
  ghost predicate OnCourse(graph: ReferenceImpl, run: seq<Step>, epochs: seq<EpochRun>, n: nat,
                           dataset: EdgeListDataset, mode: SortMode)
    requires dataset.Checked()
    reads graph
  {
    && Incremental(run, dataset, mode) && |run| == n && OnStates(epochs, run)
    && graph.Now() == StateAfter(run, n) && NoEmptyVertex(graph.graph)
  }

  method DynamicStep(batchId: nat, dataset: EdgeListDataset, scheduler: Scheduler, graph: ReferenceImpl,
                     manager: AlgDataManager, update: Update, args: Args, epoch: nat,
                     ghost run: seq<Step>, ghost epochs: seq<EpochRun>, ghost before: Results, ghost calendar: Calendar)
    returns (epoch': nat, ghost run': seq<Step>, ghost epochs': seq<EpochRun>)
    requires dataset.Valid() && Suits(dataset, args.sortMode) && dataset.InRange(batchId) && Schedules(scheduler)
    requires calendar.numBatches == dataset.numBatches && calendar.numEpochs == args.numEpochs && args.numTrials >= 1
    requires OnCourse(graph, run, epochs, batchId, dataset, args.sortMode)
    requires epoch == |epochs| && OnRecord(manager, epochs, batchId, args, update, before, calendar)
    modifies graph, manager
    ensures OnCourse(graph, run', epochs', batchId + 1, dataset, args.sortMode)
    ensures epoch' == |epochs'| && OnRecord(manager, epochs', batchId + 1, args, update, before, calendar)
  {
    ghost var x := UpdateGraph(graph, batchId, dataset, args.sortMode, scheduler);
    IncrementalGrows(run, dataset, args.sortMode, x);
    run' := run + [x];
    OnStatesStay(epochs, run, x);
    epoch', epochs' := epoch, epochs;
    if EnableAlgsForBatch(batchId, dataset.numBatches, args.numEpochs) {
      epoch', epochs' := RunEpoch(batchId, dataset.numBatches, epoch, manager, graph, update, args, epochs, before,
                                  calendar);
    } else {
      RecordedStays(epochs, calendar, batchId);
    }
  }

  /** The incremental benchmark. The graph goes through one step for each batch; every epoch that is due sees it
      after its batch; and the results that are left are those of the algorithms on these graphs in turn. */
  method RunDynamic(dataset: EdgeListDataset, scheduler: Scheduler, manager: AlgDataManager, update: Update, args: Args)
    returns (graph: ReferenceImpl, ghost run: seq<Step>, ghost epochs: seq<EpochRun>)
    requires dataset.Valid() && Suits(dataset, args.sortMode) && Schedules(scheduler)
    requires manager.Valid() && HasAll(manager.currentEpochData, args.algNames)
    requires 1 <= args.numEpochs <= dataset.numBatches && args.numTrials >= 1
    modifies manager
    ensures Incremental(run, dataset, args.sortMode) && |run| == dataset.numBatches
    ensures graph.Now() == StateAfter(run, |run|)
    ensures Scheduled(epochs, dataset.numBatches, args.numEpochs) && OnStates(epochs, run)
    ensures AllTried(epochs, args, update, old(Held(manager)))
    ensures manager.lastEpochData == manager.currentEpochData
         == OnEach(update, epochs, args.numEpochs, LastStart(args, old(Held(manager))), args.algNames)
    ensures Usable(dataset) ==> forall n :: 0 <= n <= |run| ==> HoldsWindow(StateAfter(run, n), dataset, n)
  {
    graph := new ReferenceImpl();
    ghost var calendar, before := CalendarOf(dataset.numBatches, args.numEpochs), Held(manager);
    run, epochs := [], [];
    var epoch := 0;
    for batchId := 0 to dataset.numBatches
      invariant fresh(graph) && OnCourse(graph, run, epochs, batchId, dataset, args.sortMode)
      invariant epoch == |epochs| && OnRecord(manager, epochs, batchId, args, update, before, calendar)
    {
      epoch, run, epochs := DynamicStep(batchId, dataset, scheduler, graph, manager, update, args, epoch,
                                        run, epochs, before, calendar);
    }
    assert epoch == args.numEpochs;
    RecordedIsScheduled(epochs, calendar);
    RunLeaves(epochs, args, update, before);
    AllHold(run, dataset, args.sortMode);
  }

  // ---- The static benchmark ------------------------------------------------------------------------------

  /** One batch of the static benchmark: an epoch gets a graph of its own. */
  method StaticStep(batchId: nat, dataset: EdgeListDataset, scheduler: Scheduler,
                    manager: AlgDataManager, update: Update, args: Args, epoch: nat,
                    ghost epochs: seq<EpochRun>, ghost before: Results, ghost calendar: Calendar)
    returns (epoch': nat, ghost epochs': seq<EpochRun>)
    requires dataset.Valid() && Indexed(dataset) && dataset.InRange(batchId) && Schedules(scheduler)
    requires calendar.numBatches == dataset.numBatches && calendar.numEpochs == args.numEpochs && args.numTrials >= 1
    requires epoch == |epochs| && OnSnapshots(epochs, dataset)
    requires OnRecord(manager, epochs, batchId, args, update, before, calendar)
    modifies manager
    ensures epoch' == |epochs'| && OnSnapshots(epochs', dataset)
    ensures OnRecord(manager, epochs', batchId + 1, args, update, before, calendar)
  {
    epoch', epochs' := epoch, epochs;
    if EnableAlgsForBatch(batchId, dataset.numBatches, args.numEpochs) {
      var graph := BuildSnapshot(batchId, dataset, scheduler);
      epoch', epochs' := RunEpoch(batchId, dataset.numBatches, epoch, manager, graph, update, args, epochs, before,
                                  calendar);
    } else {
      RecordedStays(epochs, calendar, batchId);
    }
  }

  /** The loop over the batches, started with the results at hand. */
  method RunSnapshots(dataset: EdgeListDataset, scheduler: Scheduler, manager: AlgDataManager, update: Update,
                      args: Args, ghost before: Results, ghost calendar: Calendar)
    returns (epoch: nat, ghost epochs: seq<EpochRun>)
    requires dataset.Valid() && Indexed(dataset) && Schedules(scheduler)
    requires calendar.numBatches == dataset.numBatches && calendar.numEpochs == args.numEpochs && args.numTrials >= 1
    requires OnRecord(manager, [], 0, args, update, before, calendar)
    modifies manager
    ensures epoch == |epochs| && OnSnapshots(epochs, dataset)
    ensures OnRecord(manager, epochs, dataset.numBatches, args, update, before, calendar)
  {
    epoch, epochs := 0, [];
    for batchId := 0 to dataset.numBatches
      invariant epoch == |epochs| && OnSnapshots(epochs, dataset)
      invariant OnRecord(manager, epochs, batchId, args, update, before, calendar)
    {
      epoch, epochs := StaticStep(batchId, dataset, scheduler, manager, update, args, epoch, epochs, before, calendar);
    }
  }

  /** The static benchmark builds a graph anew for every epoch. */
  method RunStatic(dataset: EdgeListDataset, scheduler: Scheduler, manager: AlgDataManager, update: Update, args: Args)
    returns (ghost epochs: seq<EpochRun>)
    requires dataset.Valid() && Indexed(dataset) && Schedules(scheduler)
    requires manager.Valid() && HasAll(manager.currentEpochData, args.algNames)
    requires 1 <= args.numEpochs <= dataset.numBatches && args.numTrials >= 1
    modifies manager
    ensures Scheduled(epochs, dataset.numBatches, args.numEpochs) && OnSnapshots(epochs, dataset)
    ensures AllTried(epochs, args, update, old(Held(manager)))
    ensures manager.lastEpochData == manager.currentEpochData
         == OnEach(update, epochs, args.numEpochs, LastStart(args, old(Held(manager))), args.algNames)
    ensures Usable(dataset) ==>
      forall e :: 0 <= e < |epochs| ==> HoldsWindow(epochs[e].state, dataset, epochs[e].batchId + 1)
  {
    ghost var calendar, before := CalendarOf(dataset.numBatches, args.numEpochs), Held(manager);
    var epoch;
    epoch, epochs := RunSnapshots(dataset, scheduler, manager, update, args, before, calendar);
    assert epoch == args.numEpochs;
    RecordedIsScheduled(epochs, calendar);
    RunLeaves(epochs, args, update, before);
    SnapshotsHold(epochs, dataset);
  }
}
