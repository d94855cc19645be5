/** An edge as it is read from a dataset or generated. */
module Edges {
  import opened Collections

  datatype Ends = Ends(src: int, dst: int)

  datatype Edge = Edge(src: int, dst: int, weight: int, timestamp: int) {
    function Key(): Ends { Ends(src, dst) }
  }

  function Max(x: int, y: int): int { if x < y then y else x }

  /** The time of the most recent edge between each pair of endpoints. */
  function Latest(es: seq<Edge>): map<Ends, int> {
    if es == [] then map[]
    else
      var m, e := Latest(es[..|es| - 1]), es[|es| - 1];
      m[e.Key() := if e.Key() in m then Max(m[e.Key()], e.timestamp) else e.timestamp]
  }

  /** Some edge of es has these endpoints and this time. */
  ghost predicate Occurs(es: seq<Edge>, k: Ends, timestamp: int) {
    exists i :: 0 <= i < |es| && es[i].Key() == k && es[i].timestamp == timestamp
  }

  lemma {:induction false} LatestIsMaximum(es: seq<Edge>)
    ensures forall i :: 0 <= i < |es| ==> es[i].Key() in Latest(es) && es[i].timestamp <= Latest(es)[es[i].Key()]
    ensures forall k :: k in Latest(es) ==> Occurs(es, k, Latest(es)[k])
  {
    if es != [] {
      var n := |es| - 1;
      var init := es[..n];
      LatestIsMaximum(init);
      forall k | k in Latest(es)
        ensures Occurs(es, k, Latest(es)[k])
      {
        if k in Latest(init) && Latest(es)[k] == Latest(init)[k] {
          assert Occurs(init, k, Latest(init)[k]);
          var i :| 0 <= i < n && init[i].Key() == k && init[i].timestamp == Latest(init)[k];
          assert es[i] == init[i];
        } else {
          assert es[n].Key() == k && es[n].timestamp == Latest(es)[k];
        }
      }
    }
  }

  /** The map depends on which edges there are, not on their order. */
  lemma LatestSameMembers(es: seq<Edge>, fs: seq<Edge>)
    requires forall e :: e in es <==> e in fs
    ensures Latest(es) == Latest(fs)
  {
    LatestNotBelow(es, fs);
    LatestNotBelow(fs, es);
  }

  lemma LatestNotBelow(es: seq<Edge>, fs: seq<Edge>)
    requires forall e :: e in es ==> e in fs
    ensures forall k :: k in Latest(es) ==> k in Latest(fs) && Latest(es)[k] <= Latest(fs)[k]
  {
    LatestIsMaximum(es);
    LatestIsMaximum(fs);
    forall k | k in Latest(es)
      ensures k in Latest(fs) && Latest(es)[k] <= Latest(fs)[k]
    {
      assert Occurs(es, k, Latest(es)[k]);
      var i :| 0 <= i < |es| && es[i].Key() == k && es[i].timestamp == Latest(es)[k];
      assert es[i] in fs;
      var j :| 0 <= j < |fs| && fs[j] == es[i];
    }
  }

  /** No two edges have the same endpoints. */
  ghost predicate Distinct(es: seq<Edge>) {
    forall i, j :: 0 <= i < j < |es| ==> es[i].Key() != es[j].Key()
  }

  lemma DistinctGrows(es: seq<Edge>, e: Edge)
    ensures Distinct(es + [e]) <==> Distinct(es) && forall i :: 0 <= i < |es| ==> es[i].Key() != e.Key()
  {
    var fs := es + [e];
    assert fs[|es|] == e && forall i :: 0 <= i < |es| ==> fs[i] == es[i];
    if Distinct(fs) {
      assert forall i :: 0 <= i < |es| ==> fs[i].Key() != fs[|es|].Key();
      assert forall i, j :: 0 <= i < j < |es| ==> fs[i].Key() != fs[j].Key();
    }
  }

  /** There are as many edges as pairs of endpoints exactly when no pair occurs twice. */
  lemma {:induction false} DistinctByCount(es: seq<Edge>)
    ensures |Latest(es)| <= |es|
    ensures Distinct(es) <==> |Latest(es)| == |es|
  {
    if es != [] {
      var init, e := es[..|es| - 1], es[|es| - 1];
      DistinctByCount(init);
      DistinctGrows(init, e);
      assert es == init + [e];
      KeysGrow(init, e);
    }
  }

  lemma KeysGrow(es: seq<Edge>, e: Edge)
    ensures e.Key() in Latest(es) <==> exists i :: 0 <= i < |es| && es[i].Key() == e.Key()
    ensures |Latest(es + [e])| == |Latest(es)| + if e.Key() in Latest(es) then 0 else 1
  {
    LatestIsMaximum(es);
    if e.Key() in Latest(es) {
      assert Occurs(es, e.Key(), Latest(es)[e.Key()]);
    }
    LatestGrows(es, e);
    var m := Latest(es);
    UpdateSize(m, e.Key(), if e.Key() in m then Max(m[e.Key()], e.timestamp) else e.timestamp);
  }

  lemma LatestGrows(es: seq<Edge>, e: Edge)
    ensures Latest(es + [e])
         == Latest(es)[e.Key() := if e.Key() in Latest(es) then Max(Latest(es)[e.Key()], e.timestamp) else e.timestamp]
  {
    assert (es + [e])[..|es|] == es;
  }
}
