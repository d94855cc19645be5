/** The results of the algorithms, kept for the epoch that is running and for the one before. */
module AlgDataManager {
  import opened Collections

  /** One array of results for each algorithm. */
  type Data = map<string, seq<int>>

  class AlgDataManager {
    var lastEpochData: Data
    var currentEpochData: Data

    ghost predicate Valid()
      reads this
    {
      lastEpochData.Keys == currentEpochData.Keys
    }

    /** The arrays start out with whatever the allocator hands over. */
    constructor (nv: nat, algNames: seq<string>)
      ensures Valid() && currentEpochData.Keys == set i | 0 <= i < |algNames| :: algNames[i]
    {
      var last: Data, current: Data := map[], map[];
      for i := 0 to |algNames|
        invariant last.Keys == current.Keys == set j | 0 <= j < i :: algNames[j]
      {
        var a: seq<int> := *;
        var b: seq<int> := *;
        // emplace does nothing when the name is there already
        if algNames[i] !in last { last := last[algNames[i] := a]; }
        if algNames[i] !in current { current := current[algNames[i] := b]; }
      }
      lastEpochData, currentEpochData := last, current;
    }

    method NextEpoch()
      requires Valid()
      modifies this
      ensures Valid() && currentEpochData == old(currentEpochData) && lastEpochData == currentEpochData
    {
      var rest := currentEpochData.Keys;
      while rest != {}
        invariant Valid() && currentEpochData == old(currentEpochData) && rest <= currentEpochData.Keys
        invariant forall a :: a in currentEpochData && a !in rest ==> lastEpochData[a] == currentEpochData[a]
        decreases rest
      {
        ghost var some := Nonempty(rest);
        var alg :| alg in rest;
        lastEpochData := lastEpochData[alg := currentEpochData[alg]];
        rest := rest - {alg};
      }
    }

    method Rollback()
      requires Valid()
      modifies this
      ensures Valid() && lastEpochData == old(lastEpochData) && currentEpochData == lastEpochData
    {
      var rest := currentEpochData.Keys;
      while rest != {}
        invariant Valid() && lastEpochData == old(lastEpochData) && rest <= currentEpochData.Keys
        invariant forall a :: a in currentEpochData && a !in rest ==> lastEpochData[a] == currentEpochData[a]
        decreases rest
      {
        ghost var some := Nonempty(rest);
        var alg :| alg in rest;
        currentEpochData := currentEpochData[alg := lastEpochData[alg]];
        rest := rest - {alg};
      }
    }

    /** Lets an algorithm overwrite its array. */
    method SetDataForAlg(alg: string, data: seq<int>)
      requires Valid() && alg in currentEpochData
      modifies `currentEpochData
      ensures Valid() && currentEpochData == old(currentEpochData)[alg := data]
    {
      currentEpochData := currentEpochData[alg := data];
    }
  }
}
