/** What a sliding time window over a growing list of edges holds: for each pair of endpoints the time
    of its most recent edge that is still in the window. */
module Windows {
  import opened Batches
  import opened Edges
  import opened ReferenceImpl

  /** The contents of the window over es that starts at the threshold. */
  function WindowTimes(es: seq<Edge>, threshold: int): map<Ends, int> {
    Latest(Recent(es, threshold))
  }

  function Since(m: map<Ends, int>, threshold: int): map<Ends, int> {
    map k | k in m && m[k] >= threshold :: m[k]
  }

  lemma {:induction false} RecentConcat(es: seq<Edge>, fs: seq<Edge>, threshold: int)
    ensures Recent(es + fs, threshold) == Recent(es, threshold) + Recent(fs, threshold)
  {
    if fs == [] {
      assert es + fs == es;
    } else {
      var n := |fs| - 1;
      RecentConcat(es, fs[..n], threshold);
      assert (es + fs)[..|es| + n] == es + fs[..n];
    }
  }

  lemma {:induction false} RecentTwice(es: seq<Edge>, t: int, u: int)
    requires t <= u
    ensures Recent(Recent(es, t), u) == Recent(es, u)
  {
    if es != [] {
      var init, e := es[..|es| - 1], es[|es| - 1];
      RecentTwice(init, t, u);
      if e.timestamp >= t { assert Recent(es, t)[..|Recent(es, t)| - 1] == Recent(init, t); }
    }
  }

  lemma {:induction false} LatestConcat(es: seq<Edge>, fs: seq<Edge>)
    ensures Latest(es + fs) == Later(Latest(es), Latest(fs))
  {
    if fs == [] {
      assert es + fs == es;
    } else {
      var init, e := fs[..|fs| - 1], fs[|fs| - 1];
      LatestConcat(es, init);
      assert es + fs == (es + init) + [e];
      LatestGrows(es + init, e);
      LaterGrows(Latest(es), Latest(init), e);
    }
  }

  function Grown(m: map<Ends, int>, e: Edge): map<Ends, int> {
    m[e.Key() := if e.Key() in m then Max(m[e.Key()], e.timestamp) else e.timestamp]
  }

  lemma LaterGrows(m: map<Ends, int>, n: map<Ends, int>, e: Edge)
    ensures Grown(Later(m, n), e) == Later(m, Grown(n, e))
  {
  }

  lemma SinceGrows(m: map<Ends, int>, e: Edge, threshold: int)
    ensures Since(Grown(m, e), threshold)
         == if e.timestamp >= threshold then Grown(Since(m, threshold), e) else Since(m, threshold)
  {
  }

  /** Forgetting old pairs is the same before and after taking the latest times. */
  lemma {:induction false} SinceLatest(es: seq<Edge>, threshold: int)
    ensures Since(Latest(es), threshold) == Latest(Recent(es, threshold))
  {
    if es != [] {
      var init, e := es[..|es| - 1], es[|es| - 1];
      SinceLatest(init, threshold);
      assert Latest(es) == Grown(Latest(init), e);
      SinceGrows(Latest(init), e, threshold);
      LatestGrows(Recent(init, threshold), e);
    }
  }

  /** Moving the window on: drop what became too old, then add the new batch. */
  lemma WindowAdvances(past: seq<Edge>, batch: seq<Edge>, t: int, u: int)
    requires t <= u
    ensures Later(Since(WindowTimes(past, t), u), WindowTimes(batch, u)) == WindowTimes(past + batch, u)
  {
    SinceLatest(Recent(past, t), u);
    RecentTwice(past, t, u);
    RecentConcat(past, batch, u);
    LatestConcat(Recent(past, u), Recent(batch, u));
  }

  /** Adding a whole new snapshot gives the same. */
  lemma WindowAbsorbsSnapshot(past: seq<Edge>, batch: seq<Edge>, t: int, u: int)
    requires t <= u
    ensures Later(Since(WindowTimes(past, t), u), WindowTimes(past + batch, u)) == WindowTimes(past + batch, u)
  {
    WindowAdvances(past, batch, t, u);
  }

  lemma TimesOfPrune(m: View, threshold: int)
    ensures Times(Prune(m, threshold)) == Since(Times(m), threshold)
  {
  }
}
