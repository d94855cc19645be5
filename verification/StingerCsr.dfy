/** The compressed sparse row lists that a STINGER graph is first filled from. Every edge takes a slot at
    its source and one at its target, and a slot that is both is merged into one. */
module StingerCsr {
  import opened Algorithms
  import opened Batches
  import opened Collections
  import opened Counting
  import opened Edges

  /** The header with the constants is not part of this model; the source asserts their order. */
  datatype Direction = In | Out | Both {
    function Rank(): nat { match this case In => 1 case Out => 2 case Both => 3 }

    function Swapped(): Direction { match this case In => Out case Out => In case Both => Both }
  }

  datatype DirectedEdge = DirectedEdge(edge: Edge, dir: Direction) {
    function Key(): Ends { edge.Key() }
  }

  // ---- The comparisons and the merge -------------------------------------------------------------------

  /** operator<: source, then destination, then direction descending. */
  predicate Before(a: DirectedEdge, b: DirectedEdge) {
    if a.edge.src != b.edge.src then a.edge.src < b.edge.src
    else if a.edge.dst != b.edge.dst then a.edge.dst < b.edge.dst
    else a.dir.Rank() > b.dir.Rank()
  }

  predicate SameSlot(a: DirectedEdge, b: DirectedEdge) {
    a.edge.src == b.edge.src && a.edge.dst == b.edge.dst
  }

  predicate ByVertex(a: DirectedEdge, b: DirectedEdge) { a.edge.src < b.edge.src }

  function Merge(a: DirectedEdge, b: DirectedEdge): DirectedEdge {
    if SameSlot(a, b) then b.(dir := Both) else b
  }

  function Flipped(e: Edge): Edge { Edge(e.dst, e.src, e.weight, e.timestamp) }

  function Back(k: Ends): Ends { Ends(k.dst, k.src) }

  // ---- Meanings ----------------------------------------------------------------------------------------

  function Outs(es: seq<Edge>): seq<DirectedEdge> {
    seq(|es|, i requires 0 <= i < |es| => DirectedEdge(es[i], Out))
  }

  function Ins(es: seq<Edge>): seq<DirectedEdge> {
    seq(|es|, i requires 0 <= i < |es| => DirectedEdge(Flipped(es[i]), In))
  }

  function HasKey(k: Ends): DirectedEdge -> bool { (x: DirectedEdge) => x.Key() == k }

  function HasEnds(k: Ends): Edge -> bool { (e: Edge) => e.Key() == k }

  function GoesOut(k: Ends): DirectedEdge -> bool { (x: DirectedEdge) => x.Key() == k && x.dir == Out }

  /** How often the batch has an edge with these endpoints. */
  function Occurrences(es: seq<Edge>, k: Ends): nat { Count(HasEnds(k), es) }

  /** How often it has an edge between them in either direction. */
  function Links(es: seq<Edge>, k: Ends): nat { Occurrences(es, k) + Occurrences(es, Back(k)) }

  /** The label that the merge arrives at. */
  function Label(es: seq<Edge>, k: Ends): Direction {
    if Links(es, k) >= 2 then Both
    else if Occurrences(es, k) > 0 then Out
    else In
  }

  ghost predicate HasSlot(slots: seq<DirectedEdge>, k: Ends) {
    exists i :: 0 <= i < |slots| && slots[i].Key() == k
  }

  predicate KeyBefore(j: Ends, k: Ends) { j.src < k.src || (j.src == k.src && j.dst < k.dst) }

  ghost predicate Increasing(slots: seq<DirectedEdge>) {
    forall i, j :: 0 <= i < j < |slots| ==> KeyBefore(slots[i].Key(), slots[j].Key())
  }

  /** A slot has its label and the weight and time of an edge it stands for; a merged slot has those of
      the edge that comes in. */
  ghost predicate FaithfulSlot(es: seq<Edge>, x: DirectedEdge) {
    && x.dir == Label(es, x.Key())
    && (x.dir == Out ==> x.edge in es)
    && (x.dir == In ==> Flipped(x.edge) in es)
    && (x.dir == Both && Occurrences(es, x.Key()) <= 1 ==> Flipped(x.edge) in es)
  }

  /** One slot for each pair of endpoints in either direction, in order. */
  ghost predicate Represents(es: seq<Edge>, slots: seq<DirectedEdge>) {
    && Increasing(slots)
    && (forall k :: HasSlot(slots, k) <==> Links(es, k) > 0)
    && (forall i :: 0 <= i < |slots| ==> FaithfulSlot(es, slots[i]))
  }

  // ---- Splitting ---------------------------------------------------------------------------------------

  lemma {:induction false} CountOuts(es: seq<Edge>, k: Ends)
    ensures Count(HasKey(k), Outs(es)) == Occurrences(es, k) == Count(GoesOut(k), Outs(es))
  {
    if es != [] {
      CountOuts(es[1..], k);
      assert Outs(es)[1..] == Outs(es[1..]);
    }
  }

  lemma {:induction false} CountIns(es: seq<Edge>, k: Ends)
    ensures Count(HasKey(k), Ins(es)) == Occurrences(es, Back(k)) && Count(GoesOut(k), Ins(es)) == 0
  {
    if es != [] {
      CountIns(es[1..], k);
      assert Ins(es)[1..] == Ins(es[1..]);
    }
  }

  lemma CountHalves(es: seq<Edge>, k: Ends)
    ensures Count(HasKey(k), Outs(es) + Ins(es)) == Links(es, k)
    ensures Count(GoesOut(k), Outs(es) + Ins(es)) == Occurrences(es, k)
  {
    CountConcat(HasKey(k), Outs(es), Ins(es));
    CountConcat(GoesOut(k), Outs(es), Ins(es));
    CountOuts(es, k);
    CountIns(es, k);
  }

  /** Where the elements of the split list come from. */
  lemma MemberOfHalves(es: seq<Edge>, x: DirectedEdge)
    requires x in Outs(es) + Ins(es)
    ensures x.dir == Out ==> x.edge in es
    ensures x.dir == In ==> Flipped(x.edge) in es
    ensures x.dir != Both
  {
    var s := Outs(es) + Ins(es);
    var i :| 0 <= i < |s| && s[i] == x;
    if i < |es| {
      assert x == Outs(es)[i];
    } else {
      assert x == Ins(es)[i - |es|] && Flipped(Flipped(es[i - |es|])) == es[i - |es|];
    }
  }

  // ---- Merging -----------------------------------------------------------------------------------------

  /** An element is marked as both when the one before it has the same endpoints. */
  lemma {:induction false} MergedAt(s: seq<DirectedEdge>, i: nat)
    requires i < |s|
    ensures |PartialSums(Merge, s)| == |s|
    ensures PartialSums(Merge, s)[i] == if i > 0 && SameSlot(s[i - 1], s[i]) then s[i].(dir := Both) else s[i]
  {
    PartialSumsLength(Merge, s);
    var n := |s| - 1;
    if n > 0 {
      PartialSumsLength(Merge, s[..n]);
      if i < n {
        MergedAt(s[..n], i);
      } else {
        MergedAt(s[..n], n - 1);
      }
    }
  }

  /** Elements with the same endpoints are neighbours in a sorted list. */
  lemma SortedBetween(s: seq<DirectedEdge>, i: nat, j: nat)
    requires Sorted(Before, s) && i < j < |s| && s[i].Key() == s[j].Key()
    ensures s[j - 1].Key() == s[j].Key() && s[j - 1].dir.Rank() >= s[j].dir.Rank()
  {
    assert !Before(s[j], s[j - 1]);
    if i < j - 1 { assert !Before(s[j - 1], s[i]); }
  }

  /** s is the sorted list of halves. */
  ghost predicate Arranged(es: seq<Edge>, s: seq<DirectedEdge>) {
    Sorted(Before, s) && multiset(s) == multiset(Outs(es) + Ins(es))
  }

  /** What is known of an element after the merge. */
  ghost predicate MergedFrom(es: seq<Edge>, x: DirectedEdge) {
    && (x.dir == Both ==> Links(es, x.Key()) >= 2)
    && (x.dir == Out ==> x.edge in es)
    && (x.dir == In ==> Flipped(x.edge) in es)
    && (x.dir == Both && Occurrences(es, x.Key()) <= 1 ==> Flipped(x.edge) in es)
  }

  lemma CountArranged(es: seq<Edge>, s: seq<DirectedEdge>, k: Ends)
    requires Arranged(es, s)
    ensures Count(HasKey(k), s) == Links(es, k) && Count(GoesOut(k), s) == Occurrences(es, k)
  {
    CountPermutes(HasKey(k), s, Outs(es) + Ins(es));
    CountPermutes(GoesOut(k), s, Outs(es) + Ins(es));
    CountHalves(es, k);
  }

  lemma ArrangedMember(es: seq<Edge>, s: seq<DirectedEdge>, i: nat)
    requires Arranged(es, s) && i < |s|
    ensures s[i].dir != Both && MergedFrom(es, s[i])
  {
    SameMembers(s, Outs(es) + Ins(es));
    MemberOfHalves(es, s[i]);
  }

  lemma MergedPair(es: seq<Edge>, s: seq<DirectedEdge>, i: nat)
    requires Arranged(es, s) && 0 < i < |s| && SameSlot(s[i - 1], s[i])
    ensures MergedFrom(es, s[i].(dir := Both))
  {
    var k := s[i].Key();
    assert HasKey(k)(s[i - 1]) && HasKey(k)(s[i]);
    CountTwice(HasKey(k), s);
    CountArranged(es, s, k);
    ArrangedMember(es, s, i - 1);
    ArrangedMember(es, s, i);
    SortedBetween(s, i - 1, i);
    if s[i].dir == Out {
      assert GoesOut(k)(s[i - 1]) && GoesOut(k)(s[i]);
      CountTwice(GoesOut(k), s);
    }
  }

  lemma MergedMember(es: seq<Edge>, s: seq<DirectedEdge>, x: DirectedEdge)
    requires Arranged(es, s) && x in PartialSums(Merge, s)
    ensures MergedFrom(es, x) && Links(es, x.Key()) > 0
  {
    PartialSumsLength(Merge, s);
    var i :| 0 <= i < |s| && PartialSums(Merge, s)[i] == x;
    MergedAt(s, i);
    assert HasKey(x.Key())(s[i]);
    CountPositive(HasKey(x.Key()), s);
    CountArranged(es, s, x.Key());
    if i > 0 && SameSlot(s[i - 1], s[i]) {
      MergedPair(es, s, i);
    } else {
      ArrangedMember(es, s, i);
    }
  }

  lemma MergedAppears(es: seq<Edge>, s: seq<DirectedEdge>, k: Ends) returns (x: DirectedEdge)
    requires Arranged(es, s) && Links(es, k) > 0
    ensures x in PartialSums(Merge, s) && x.Key() == k
  {
    CountArranged(es, s, k);
    CountPositive(HasKey(k), s);
    var i :| 0 <= i < |s| && HasKey(k)(s[i]);
    MergedAt(s, i);
    x := PartialSums(Merge, s)[i];
  }

  /** Two elements with the same endpoints leave one that is marked as both. */
  lemma TwiceIsMerged(es: seq<Edge>, s: seq<DirectedEdge>, k: Ends) returns (x: DirectedEdge)
    requires Arranged(es, s) && Links(es, k) >= 2
    ensures x in PartialSums(Merge, s) && x.Key() == k && x.dir == Both
  {
    CountArranged(es, s, k);
    CountTwice(HasKey(k), s);
    var i, j :| 0 <= i < j < |s| && HasKey(k)(s[i]) && HasKey(k)(s[j]);
    SortedBetween(s, i, j);
    MergedAt(s, j);
    x := PartialSums(Merge, s)[j];
  }

  // ---- Removing duplicates -----------------------------------------------------------------------------

  /** The first of the elements with the same endpoints is kept, so the one with the greatest label. */
  ghost predicate Keeps(u: seq<DirectedEdge>, x: DirectedEdge) {
    exists i :: 0 <= i < |u| && u[i].Key() == x.Key() && u[i].dir.Rank() >= x.dir.Rank()
  }

  lemma {:induction false} UniqueSlots(s: seq<DirectedEdge>)
    requires Sorted(Before, s)
    ensures var u := Unique(SameSlot, s);
      && Increasing(u) && (s != [] ==> u != [] && u[|u| - 1].Key() == s[|s| - 1].Key())
      && (forall x :: x in u ==> x in s)
      && (forall x :: x in s ==> Keeps(u, x))
  {
    if s != [] {
      var init, x := s[..|s| - 1], s[|s| - 1];
      UniqueSlots(init);
      var v, u := Unique(SameSlot, init), Unique(SameSlot, s);
      assert s == init + [x];
      if v != [] { LastIsBefore(s, v); }
      if u == v {
        assert Keeps(u, x);
      } else {
        IncreasingGrows(v, x);
        KeepsGrows(init, v, x);
      }
    }
  }

  lemma KeepsGrows(init: seq<DirectedEdge>, v: seq<DirectedEdge>, x: DirectedEdge)
    requires forall y :: y in init ==> Keeps(v, y)
    ensures forall y :: y in init + [x] ==> Keeps(v + [x], y)
  {
    var u := v + [x];
    assert u[|v|] == x;
    forall y | y in init
      ensures Keeps(u, y)
    {
      assert Keeps(v, y);
      var i :| 0 <= i < |v| && v[i].Key() == y.Key() && v[i].dir.Rank() >= y.dir.Rank();
      assert u[i] == v[i];
    }
  }

  lemma LastIsBefore(s: seq<DirectedEdge>, v: seq<DirectedEdge>)
    requires Sorted(Before, s) && s != [] && v != [] && v[|v| - 1] in s[..|s| - 1]
    ensures var l, x := v[|v| - 1], s[|s| - 1];
      KeyBefore(l.Key(), x.Key()) || (SameSlot(l, x) && l.dir.Rank() >= x.dir.Rank())
  {
    var k :| 0 <= k < |s| - 1 && s[k] == v[|v| - 1];
    assert !Before(s[|s| - 1], s[k]);
  }

  lemma IncreasingGrows(v: seq<DirectedEdge>, x: DirectedEdge)
    requires Increasing(v) && (v != [] ==> KeyBefore(v[|v| - 1].Key(), x.Key()))
    ensures Increasing(v + [x])
  {
    var r := v + [x];
    forall i, j | 0 <= i < j < |r|
      ensures KeyBefore(r[i].Key(), r[j].Key())
    {
      assert j == |v| && i < |v| - 1 ==> KeyBefore(v[i].Key(), v[|v| - 1].Key());
    }
  }

  // ---- The whole pipeline ------------------------------------------------------------------------------

  /** s is the split list after the first sort, t the merged list after the second. */
  lemma PipelineRepresents(es: seq<Edge>, s: seq<DirectedEdge>, t: seq<DirectedEdge>)
    requires Arranged(es, s) && Sorted(Before, t) && multiset(t) == multiset(PartialSums(Merge, s))
    ensures Represents(es, Unique(SameSlot, t))
  {
    var p, u := PartialSums(Merge, s), Unique(SameSlot, t);
    UniqueSlots(t);
    SameMembers(t, p);
    forall i | 0 <= i < |u|
      ensures FaithfulSlot(es, u[i])
    {
      MergedMember(es, s, u[i]);
      PipelineSlot(es, s, u, i);
    }
    forall k
      ensures HasSlot(u, k) <==> Links(es, k) > 0
    {
      if HasSlot(u, k) {
        var i :| 0 <= i < |u| && u[i].Key() == k;
        MergedMember(es, s, u[i]);
      }
      if Links(es, k) > 0 {
        var x := MergedAppears(es, s, k);
        assert Keeps(u, x);
      }
    }
  }

  lemma PipelineSlot(es: seq<Edge>, s: seq<DirectedEdge>, u: seq<DirectedEdge>, i: nat)
    requires Arranged(es, s) && Increasing(u) && i < |u| && MergedFrom(es, u[i])
    requires forall x :: x in PartialSums(Merge, s) ==> Keeps(u, x)
    ensures FaithfulSlot(es, u[i])
  {
    var k := u[i].Key();
    if Links(es, k) >= 2 {
      var y := TwiceIsMerged(es, s, k);
      assert Keeps(u, y);
      var j :| 0 <= j < |u| && u[j].Key() == k && u[j].dir.Rank() >= y.dir.Rank();
      KeysDiffer(u);
    } else {
      OccursSomewhere(es, u[i]);
    }
  }

  lemma KeysDiffer(u: seq<DirectedEdge>)
    requires Increasing(u)
    ensures forall i, j :: 0 <= i < |u| && 0 <= j < |u| && u[i].Key() == u[j].Key() ==> i == j
  {
    forall i, j | 0 <= i < j < |u|
      ensures u[i].Key() != u[j].Key()
    {
      assert KeyBefore(u[i].Key(), u[j].Key());
    }
  }

  lemma OccursSomewhere(es: seq<Edge>, x: DirectedEdge)
    requires MergedFrom(es, x) && Links(es, x.Key()) < 2
    ensures x.dir == Label(es, x.Key())
  {
    var e := if x.dir == Out then x.edge else Flipped(x.edge);
    var k := if x.dir == Out then x.Key() else Back(x.Key());
    assert e in es && HasEnds(k)(e);
    var i :| 0 <= i < |es| && es[i] == e;
    CountPositive(HasEnds(k), es);
  }

  // ---- What the slots mean -----------------------------------------------------------------------------

  ghost predicate Has(es: seq<Edge>, k: Ends) {
    exists i :: 0 <= i < |es| && es[i].Key() == k
  }

  /** The direction that a slot should have. */
  ghost predicate TrueDirection(es: seq<Edge>, x: DirectedEdge) {
    && (x.dir == Both <==> Has(es, x.Key()) && Has(es, Back(x.Key())))
    && (x.dir == Out <==> Has(es, x.Key()) && !Has(es, Back(x.Key())))
    && (x.dir == In <==> !Has(es, x.Key()) && Has(es, Back(x.Key())))
  }

  ghost predicate NoLoneRepeats(es: seq<Edge>) {
    forall k :: Occurrences(es, k) >= 2 ==> Has(es, Back(k))
  }

  lemma HasOccurs(es: seq<Edge>, k: Ends)
    ensures Has(es, k) <==> Occurrences(es, k) > 0
  {
    CountPositive(HasEnds(k), es);
    assert Has(es, k) ==> exists i :: 0 <= i < |es| && HasEnds(k)(es[i]);
  }

  /** The directions are right exactly when every pair that the batch repeats is also there in reverse.
      A batch without repetitions is of that kind. */
  lemma DirectionsAreTrueIff(es: seq<Edge>, slots: seq<DirectedEdge>)
    requires Represents(es, slots)
    ensures (forall i :: 0 <= i < |slots| ==> TrueDirection(es, slots[i])) <==> NoLoneRepeats(es)
  {
    if NoLoneRepeats(es) {
      forall i | 0 <= i < |slots|
        ensures TrueDirection(es, slots[i])
      {
        LabelIsTrue(es, slots, i);
      }
    } else {
      var k :| Occurrences(es, k) >= 2 && !Has(es, Back(k));
      HasOccurs(es, k);
      HasOccurs(es, Back(k));
      assert HasSlot(slots, k);
      var i :| 0 <= i < |slots| && slots[i].Key() == k;
      assert FaithfulSlot(es, slots[i]) && !TrueDirection(es, slots[i]);
    }
  }

  lemma LabelIsTrue(es: seq<Edge>, slots: seq<DirectedEdge>, i: nat)
    requires Represents(es, slots) && NoLoneRepeats(es) && i < |slots|
    ensures TrueDirection(es, slots[i])
  {
    var k := slots[i].Key();
    assert FaithfulSlot(es, slots[i]) && HasSlot(slots, k) && Back(Back(k)) == k;
    HasOccurs(es, k);
    HasOccurs(es, Back(k));
    assert Occurrences(es, k) >= 2 ==> Has(es, Back(k));
    assert Occurrences(es, Back(k)) >= 2 ==> Has(es, Back(Back(k)));
  }

  lemma DistinctOccursOnce(es: seq<Edge>, k: Ends)
    requires Distinct(es)
    ensures Occurrences(es, k) <= 1
  {
    CountTwice(HasEnds(k), es);
  }

  lemma DistinctHasNoLoneRepeats(es: seq<Edge>)
    requires Distinct(es)
    ensures NoLoneRepeats(es)
  {
    forall k
      ensures Occurrences(es, k) <= 1
    {
      DistinctOccursOnce(es, k);
    }
  }

  /** The source's assertion: no edge repeats the endpoints of the one right before it. */
  ghost predicate NoAdjacentRepeats(es: seq<Edge>) {
    forall i :: 0 < i < |es| ==> es[i - 1].Key() != es[i].Key()
  }

  /** The assertion lets a batch through for which a direction comes out wrong. */
  lemma LoneRepeatPassesAssertion() returns (es: seq<Edge>)
    ensures NoAdjacentRepeats(es)
    ensures forall slots | Represents(es, slots) :: exists i :: 0 <= i < |slots| && !TrueDirection(es, slots[i])
    ensures forall e :: e in es ==> e.src >= 0 && e.dst >= 0 && e.weight > 0
  {
    es := [Edge(0, 1, 1, 0), Edge(0, 2, 1, 0), Edge(0, 1, 1, 0)];
    var k := Ends(0, 1);
    assert HasEnds(k)(es[0]) && HasEnds(k)(es[2]);
    CountTwice(HasEnds(k), es);
    assert Occurrences(es, k) >= 2 && !Has(es, Back(k));
    forall slots | Represents(es, slots)
      ensures exists i :: 0 <= i < |slots| && !TrueDirection(es, slots[i])
    {
      DirectionsAreTrueIff(es, slots);
    }
  }

  /** A slot has the weight and the time of an edge of the batch: of one out if it goes out, and of one in if it comes
      in; a slot that was merged keeps those of the edge in, unless the batch repeats the pair. */
  lemma PayloadsAreTrue(es: seq<Edge>, slots: seq<DirectedEdge>, i: nat)
    requires Represents(es, slots) && i < |slots|
    ensures var x, d := slots[i].edge, slots[i].dir;
      && (d == Out ==> Edge(x.src, x.dst, x.weight, x.timestamp) in es)
      && (d == In ==> Edge(x.dst, x.src, x.weight, x.timestamp) in es)
      && (d == Both && Occurrences(es, Ends(x.src, x.dst)) <= 1 ==> Edge(x.dst, x.src, x.weight, x.timestamp) in es)
  {
    assert FaithfulSlot(es, slots[i]);
  }

  /** Every slot has its mirror at the other end, with the directions swapped. */
  lemma SlotsMirror(es: seq<Edge>, slots: seq<DirectedEdge>, i: nat)
    requires Represents(es, slots) && i < |slots|
    ensures exists j ::
      0 <= j < |slots| && slots[j].Key() == Back(slots[i].Key()) && slots[j].dir == slots[i].dir.Swapped()
  {
    var k := slots[i].Key();
    assert Back(Back(k)) == k && HasSlot(slots, k) && HasSlot(slots, Back(k));
    var j :| 0 <= j < |slots| && slots[j].Key() == Back(k);
    assert FaithfulSlot(es, slots[i]) && FaithfulSlot(es, slots[j]);
  }

  predicate CarriesOut(x: DirectedEdge) { x.dir != In }

  predicate CarriesIn(x: DirectedEdge) { x.dir != Out }

  /** The pairs whose slots have a property. */
  function KeysWith(p: DirectedEdge -> bool, slots: seq<DirectedEdge>): set<Ends> {
    set i | 0 <= i < |slots| && p(slots[i]) :: slots[i].Key()
  }

  lemma {:induction false} KeysWithSize(p: DirectedEdge -> bool, slots: seq<DirectedEdge>)
    requires Increasing(slots)
    ensures |KeysWith(p, slots)| == Count(p, slots)
  {
    if slots != [] {
      var rest, k := slots[1..], slots[0].Key();
      KeysWithSize(p, rest);
      forall i | 0 <= i < |rest|
        ensures rest[i].Key() != k
      {
        assert KeyBefore(slots[0].Key(), slots[i + 1].Key());
      }
      assert forall i :: 0 < i < |slots| ==> slots[i] == rest[i - 1];
      assert forall i :: 0 <= i < |rest| ==> rest[i] == slots[i + 1];
      assert KeysWith(p, slots) == KeysWith(p, rest) + if p(slots[0]) then {k} else {};
    }
  }

  function AllKeys(es: seq<Edge>): set<Ends> { Latest(es).Keys }

  lemma KeysAre(es: seq<Edge>, k: Ends)
    ensures k in AllKeys(es) <==> Has(es, k)
  {
    LatestIsMaximum(es);
    assert k in Latest(es) ==> Occurs(es, k, Latest(es)[k]);
  }

  /** As many slots carry the out bit as the batch has edges, and as many the in bit. */
  lemma BitsAreConserved(es: seq<Edge>, slots: seq<DirectedEdge>)
    requires Represents(es, slots) && Distinct(es)
    ensures Count(CarriesOut, slots) == |es| && Count(CarriesIn, slots) == |es|
  {
    KeysWithSize(CarriesOut, slots);
    KeysWithSize(CarriesIn, slots);
    DistinctByCount(es);
    var outs, ins := KeysWith(CarriesOut, slots), KeysWith(CarriesIn, slots);
    forall k
      ensures (k in outs <==> k in AllKeys(es)) && (k in ins <==> Back(k) in AllKeys(es))
    {
      BitsOf(es, slots, k);
    }
    assert outs == AllKeys(es);
    BackSize(ins, outs);
  }

  lemma BitsOf(es: seq<Edge>, slots: seq<DirectedEdge>, k: Ends)
    requires Represents(es, slots) && Distinct(es)
    ensures k in KeysWith(CarriesOut, slots) <==> k in AllKeys(es)
    ensures k in KeysWith(CarriesIn, slots) <==> Back(k) in AllKeys(es)
  {
    DistinctHasNoLoneRepeats(es);
    DirectionsAreTrueIff(es, slots);
    KeysAre(es, k);
    KeysAre(es, Back(k));
    HasOccurs(es, k);
    HasOccurs(es, Back(k));
    if HasSlot(slots, k) {
      var i :| 0 <= i < |slots| && slots[i].Key() == k;
      assert TrueDirection(es, slots[i]);
      KeysDiffer(slots);
    }
  }

  /** Reversing pairs does not change how many there are. */
  lemma {:induction false} BackSize(a: set<Ends>, b: set<Ends>)
    requires forall k :: k in a <==> Back(k) in b
    ensures |a| == |b|
    decreases |a|
  {
    forall k | k in b
      ensures Back(k) in a
    {
      assert Back(Back(k)) == k;
    }
    assert a == {} ==> b == {};
    if a != {} {
      var k := Nonempty(a);
      BackInjective();
      BackSize(a - {k}, b - {Back(k)});
    }
  }

  lemma BackInjective()
    ensures forall j, k :: Back(j) == Back(k) ==> j == k
  {
  }

  // ---- Offsets -----------------------------------------------------------------------------------------

  function LiesBelow(v: int): DirectedEdge -> bool { (x: DirectedEdge) => x.edge.src < v }

  /** Where the slots of a vertex start. */
  function Start(slots: seq<DirectedEdge>, v: int): nat { Count(LiesBelow(v), slots) }

  lemma IncreasingBySource(slots: seq<DirectedEdge>)
    requires Increasing(slots)
    ensures Sorted(ByVertex, slots)
  {
    forall i, j | 0 <= i < j < |slots|
      ensures !ByVertex(slots[j], slots[i])
    {
      assert KeyBefore(slots[i].Key(), slots[j].Key());
    }
  }

  lemma StartSplits(slots: seq<DirectedEdge>, v: int)
    requires Sorted(ByVertex, slots)
    ensures Start(slots, v) <= |slots|
    ensures forall i :: 0 <= i < |slots| ==> (slots[i].edge.src < v <==> i < Start(slots, v))
  {
    forall i, j | 0 <= i < j < |slots| && LiesBelow(v)(slots[j])
      ensures LiesBelow(v)(slots[i])
    {
      assert !ByVertex(slots[j], slots[i]);
    }
    CountPrefix(LiesBelow(v), slots);
    forall i | 0 <= i < |slots|
      ensures slots[i].edge.src < v <==> i < Start(slots, v)
    {
      assert LiesBelow(v)(slots[i]) <==> i < Start(slots, v);
    }
  }

  lemma EqualRangeIsDegree(slots: seq<DirectedEdge>, v: int, first: nat, last: nat)
    requires Sorted(ByVertex, slots) && first <= last <= |slots|
    requires forall i :: 0 <= i < first ==> slots[i].edge.src < v
    requires forall i :: first <= i < last ==> slots[i].edge.src == v
    requires forall i :: last <= i < |slots| ==> slots[i].edge.src > v
    ensures Start(slots, v) == first && Start(slots, v + 1) == last
  {
    CountRange(LiesBelow(v), slots, 0, first);
    CountRange(LiesBelow(v + 1), slots, 0, last);
  }

  lemma StartsAscend(slots: seq<DirectedEdge>, v: int)
    requires Sorted(ByVertex, slots)
    ensures Start(slots, v) <= Start(slots, v + 1) <= |slots|
  {
    StartSplits(slots, v);
    StartSplits(slots, v + 1);
    if Start(slots, v) > 0 { assert slots[Start(slots, v) - 1].edge.src < v; }
  }

  function Plus(a: int, b: int): int { a + b }

  /** The running sum of the degrees is where the next vertex starts. */
  lemma {:induction false} RunningSum(slots: seq<DirectedEdge>, degrees: seq<int>, v: nat)
    requires forall u :: 0 <= u < |degrees| ==> degrees[u] == Start(slots, u + 1) - Start(slots, u)
    requires Start(slots, 0) == 0 && v < |degrees|
    ensures |PartialSums(Plus, degrees)| == |degrees| && PartialSums(Plus, degrees)[v] == Start(slots, v + 1)
    decreases |degrees|
  {
    PartialSumsLength(Plus, degrees);
    var n := |degrees| - 1;
    if n > 0 {
      PartialSumsLength(Plus, degrees[..n]);
      RunningSum(slots, degrees[..n], if v < n then v else n - 1);
    }
  }

  method CountSlots(merged: array<DirectedEdge>, n: nat, degrees: array<int>)
    requires n <= merged.Length && Sorted(ByVertex, merged[..n])
    modifies degrees
    ensures forall v :: 0 <= v < degrees.Length ==> degrees[v] == Start(merged[..n], v + 1) - Start(merged[..n], v)
  {
    var todo := Below(degrees.Length);
    assert merged[0..n] == merged[..n];
    while todo != {}
      invariant forall v :: v in todo ==> 0 <= v < degrees.Length
      invariant forall v :: 0 <= v < degrees.Length && v !in todo ==>
        degrees[v] == Start(merged[..n], v + 1) - Start(merged[..n], v)
      decreases |todo|
    {
      // The iterations are independent: the threads may do them in any order.
      var v :| v in todo;
      var key := DirectedEdge(Edge(v, 0, 0, 0), In);
      var first, last := EqualRange(merged, 0, n, key, ByVertex);
      EqualRangeIsDegree(merged[..n], v, first, last);
      degrees[v] := last - first;
      todo := todo - {v};
    }
  }

  /** The offsets of the slots of each vertex, with the end of the list in the last place. */
  ghost predicate AreOffsets(offsets: seq<int>, slots: seq<DirectedEdge>, nv: nat) {
    && |offsets| == nv + 1
    && forall v :: 0 <= v <= nv ==> offsets[v] == Start(slots, v)
  }

  method ComputeOffsets(merged: array<DirectedEdge>, n: nat, nv: nat) returns (offsets: array<int>)
    requires n <= merged.Length && Sorted(ByVertex, merged[..n])
    requires forall i :: 0 <= i < n ==> 0 <= merged[i].edge.src
    ensures fresh(offsets) && AreOffsets(offsets[..], merged[..n], nv)
  {
    ghost var slots := merged[..n];
    var degrees := new int[nv](_ => 0);
    CountSlots(merged, n, degrees);
    assert merged[..n] == slots;
    ghost var counts := degrees[..];
    assert forall v :: 0 <= v < nv ==> counts[v] == Start(slots, v + 1) - Start(slots, v);
    offsets := new int[nv + 1](_ => 0);
    offsets[0] := 0;
    PartialSum(degrees, offsets, 1, Plus);
    CountUniform(LiesBelow(0), slots, false);
    assert offsets[..1][0] == 0;
    forall v | 0 < v <= nv
      ensures offsets[v] == Start(slots, v)
    {
      RunningSum(slots, counts, v - 1);
      assert offsets[v] == offsets[1..1 + nv][v - 1];
    }
  }

  /** What stinger_set_initial_edges is called with. */
  datatype Csr = Csr(nv: nat, offsets: seq<int>, adjacent: seq<int>, weights: seq<int>,
                     timestamps: seq<int>, directions: seq<Direction>)

  /** The slots of vertex v lie from offset v to offset v + 1, and the lists spell the slots out. */
  ghost predicate Lists(csr: Csr, slots: seq<DirectedEdge>) {
    && |csr.offsets| == csr.nv + 1 && csr.offsets[0] == 0 && csr.offsets[csr.nv] == |slots|
    && |csr.adjacent| == |csr.weights| == |csr.timestamps| == |csr.directions| == |slots|
    && (forall v :: 0 <= v < csr.nv ==> csr.offsets[v] <= csr.offsets[v + 1])
    && (forall v, i :: 0 <= v < csr.nv && 0 <= i < |slots| ==>
          (csr.offsets[v] <= i < csr.offsets[v + 1] <==> slots[i].edge.src == v))
    && (forall i :: 0 <= i < |slots| ==>
          && csr.adjacent[i] == slots[i].edge.dst && csr.weights[i] == slots[i].edge.weight
          && csr.timestamps[i] == slots[i].edge.timestamp && csr.directions[i] == slots[i].dir)
  }

  lemma OffsetsSplitSlots(slots: seq<DirectedEdge>, offsets: seq<int>, nv: nat)
    requires Sorted(ByVertex, slots) && AreOffsets(offsets, slots, nv)
    requires forall i :: 0 <= i < |slots| ==> 0 <= slots[i].edge.src < nv
    ensures offsets[0] == 0 && offsets[nv] == |slots|
    ensures forall v :: 0 <= v < nv ==> offsets[v] <= offsets[v + 1]
    ensures forall v, i :: 0 <= v < nv && 0 <= i < |slots| ==>
      (offsets[v] <= i < offsets[v + 1] <==> slots[i].edge.src == v)
  {
    CountUniform(LiesBelow(0), slots, false);
    CountUniform(LiesBelow(nv), slots, true);
    forall v | 0 <= v < nv
      ensures offsets[v] <= offsets[v + 1]
      ensures forall i :: 0 <= i < |slots| ==> (offsets[v] <= i < offsets[v + 1] <==> slots[i].edge.src == v)
    {
      StartSplits(slots, v);
      StartSplits(slots, v + 1);
      StartsAscend(slots, v);
    }
  }

  // ---- The method --------------------------------------------------------------------------------------

  method SplitEdges(batch: Batch) returns (halves: array<DirectedEdge>)
    requires batch.Valid()
    ensures fresh(halves) && halves[..] == Outs(batch.View()) + Ins(batch.View())
  {
    var n := batch.endIter - batch.beginIter;
    ghost var es := batch.View();
    halves := new DirectedEdge[2 * n](_ => DirectedEdge(Edge(0, 0, 0, 0), In));
    for i := 0 to n
      invariant forall j :: 0 <= j < i ==> halves[j] == DirectedEdge(es[j], Out)
    {
      halves[i] := DirectedEdge(batch.edges[batch.beginIter + i], Out);
    }
    for i := 0 to n
      invariant forall j :: 0 <= j < n ==> halves[j] == DirectedEdge(es[j], Out)
      invariant forall j :: 0 <= j < i ==> halves[n + j] == DirectedEdge(Flipped(es[j]), In)
    {
      halves[n + i] := DirectedEdge(Flipped(batch.edges[batch.beginIter + i]), In);
    }
    assert halves[..n] == Outs(es);
    assert halves[n..] == Ins(es);
    assert halves[..] == halves[..n] + halves[n..];
  }

  lemma BeforeIsStrictWeak()
    ensures StrictWeak(Before) && StrictWeak(ByVertex)
  {
  }

  /** Split and sort. */
  method ArrangeHalves(batch: Batch) returns (halves: array<DirectedEdge>)
    requires batch.Valid()
    ensures fresh(halves) && Arranged(batch.View(), halves[..])
  {
    halves := SplitEdges(batch);
    BeforeIsStrictWeak();
    SortAll(halves);
  }

  /** Merge and sort again. */
  method SortAndMerge(batch: Batch) returns (halves: array<DirectedEdge>, ghost s: seq<DirectedEdge>)
    requires batch.Valid()
    ensures fresh(halves) && Arranged(batch.View(), s)
    ensures Sorted(Before, halves[..]) && multiset(halves[..]) == multiset(PartialSums(Merge, s))
  {
    halves := ArrangeHalves(batch);
    s := halves[..];
    MergeAll(halves);
    BeforeIsStrictWeak();
    SortAll(halves);
  }

  method MergeAll(a: array<DirectedEdge>)
    modifies a
    ensures a[..] == PartialSums(Merge, old(a[..]))
  {
    PartialSum(a, a, 0, Merge);
    assert a[0..a.Length] == a[..];
  }

  method SortAll(a: array<DirectedEdge>)
    requires StrictWeak(Before)
    modifies a
    ensures Sorted(Before, a[..]) && multiset(a[..]) == multiset(old(a[..]))
  {
    assert a[0..a.Length] == a[..];
    Sort(a, 0, a.Length, Before);
    assert a[0..a.Length] == a[..];
  }

  /** Copies the slots without duplicates to the front of a list. */
  method MergeSlots(batch: Batch) returns (merged: array<DirectedEdge>, n: nat)
    requires batch.Valid()
    ensures fresh(merged) && n <= merged.Length && Represents(batch.View(), merged[..n])
  {
    var halves;
    ghost var s;
    halves, s := SortAndMerge(batch);
    assert halves[0..halves.Length] == halves[..];
    PipelineRepresents(batch.View(), s, halves[..]);
    merged := new DirectedEdge[halves.Length](_ => DirectedEdge(Edge(0, 0, 0, 0), In));
    n := UniqueCopy(halves, 0, halves.Length, merged, SameSlot);
  }

  /** The slots of a batch with vertices in [0, nv) have them too. */
  lemma SlotsInRange(es: seq<Edge>, slots: seq<DirectedEdge>, nv: nat)
    requires Represents(es, slots)
    requires forall e :: e in es ==> 0 <= e.src < nv && 0 <= e.dst < nv
    ensures forall i :: 0 <= i < |slots| ==> 0 <= slots[i].edge.src < nv && 0 <= slots[i].edge.dst < nv
  {
    forall i | 0 <= i < |slots|
      ensures 0 <= slots[i].edge.src < nv && 0 <= slots[i].edge.dst < nv
    {
      var k := slots[i].Key();
      assert HasSlot(slots, k);
      HasOccurs(es, k);
      HasOccurs(es, Back(k));
      var j :| 0 <= j < |es| && (es[j].Key() == k || es[j].Key() == Back(k));
      assert es[j] in es;
    }
  }

  method InsertUsingSetInitialEdges(batch: Batch) returns (csr: Csr, ghost slots: seq<DirectedEdge>)
    requires batch.Valid() && batch.View() != [] && NoAdjacentRepeats(batch.View())
    requires forall e :: e in batch.View() ==> e.src >= 0 && e.dst >= 0
    ensures Represents(batch.View(), slots) && Lists(csr, slots)
    ensures MaxVertexOf(batch.View(), csr.nv - 1)
  {
    var maxVertex := batch.MaxVertexId();
    MaxVertexNonnegative(batch.View(), maxVertex);
    var merged, n := MergeSlots(batch);
    slots := merged[..n];
    IncreasingBySource(slots);
    SlotsInRange(batch.View(), slots, maxVertex + 1);
    csr := ListSlots(merged, n, maxVertex + 1);
  }

  /** The offsets and the lists of slots in order. */
  method ListSlots(merged: array<DirectedEdge>, n: nat, nv: nat) returns (csr: Csr)
    requires n <= merged.Length && Sorted(ByVertex, merged[..n])
    requires forall i :: 0 <= i < n ==> 0 <= merged[..n][i].edge.src < nv
    ensures Lists(csr, merged[..n]) && csr.nv == nv
  {
    ghost var slots := merged[..n];
    var offsets := ComputeOffsets(merged, n, nv);
    OffsetsSplitSlots(slots, offsets[..], nv);
    csr := SpellOut(merged, n, nv, offsets[..]);
  }

  method SpellOut(merged: array<DirectedEdge>, n: nat, nv: nat, offsets: seq<int>) returns (csr: Csr)
    requires n <= merged.Length
    ensures csr.nv == nv && csr.offsets == offsets
    ensures |csr.adjacent| == |csr.weights| == |csr.timestamps| == |csr.directions| == n
    ensures forall i :: 0 <= i < n ==>
      && csr.adjacent[i] == merged[i].edge.dst && csr.weights[i] == merged[i].edge.weight
      && csr.timestamps[i] == merged[i].edge.timestamp && csr.directions[i] == merged[i].dir
  {
    var slots := merged[..n];
    var adjacent := seq(n, i requires 0 <= i < n => slots[i].edge.dst);
    var directions := seq(n, i requires 0 <= i < n => slots[i].dir);
    var weights := seq(n, i requires 0 <= i < n => slots[i].edge.weight);
    var timestamps := seq(n, i requires 0 <= i < n => slots[i].edge.timestamp);
    csr := Csr(nv, offsets, adjacent, weights, timestamps, directions);
  }

  /** Reading a list back: the neighbours of v are increasing, and w is among them with a direction
      exactly as the batch has edges between v and w. */
  lemma NeighboursAreFaithful(es: seq<Edge>, slots: seq<DirectedEdge>, csr: Csr, v: nat)
    requires Represents(es, slots) && Lists(csr, slots) && NoLoneRepeats(es) && v < csr.nv
    ensures 0 <= csr.offsets[v] <= csr.offsets[v + 1] <= |slots|
    ensures forall i, j :: csr.offsets[v] <= i < j < csr.offsets[v + 1] ==> csr.adjacent[i] < csr.adjacent[j]
    ensures forall w: int ::
      (exists i :: csr.offsets[v] <= i < csr.offsets[v + 1] && csr.adjacent[i] == w)
      <==> Has(es, Ends(v, w)) || Has(es, Ends(w, v))
    ensures forall i :: csr.offsets[v] <= i < csr.offsets[v + 1] ==>
      var w := csr.adjacent[i];
      && (csr.directions[i] != In <==> Has(es, Ends(v, w)))
      && (csr.directions[i] != Out <==> Has(es, Ends(w, v)))
  {
    OffsetsAscend(csr, slots, v);
    OffsetsAscend(csr, slots, v + 1);
    forall i, j | csr.offsets[v] <= i < j < csr.offsets[v + 1]
      ensures csr.adjacent[i] < csr.adjacent[j]
    {
      assert KeyBefore(slots[i].Key(), slots[j].Key());
    }
    forall i | csr.offsets[v] <= i < csr.offsets[v + 1]
      ensures csr.directions[i] != In <==> Has(es, Ends(v, csr.adjacent[i]))
      ensures csr.directions[i] != Out <==> Has(es, Ends(csr.adjacent[i], v))
      ensures Has(es, Ends(v, csr.adjacent[i])) || Has(es, Ends(csr.adjacent[i], v))
    {
      LabelIsTrue(es, slots, i);
      assert slots[i].Key() == Ends(v, csr.adjacent[i]);
    }
    forall w: int | Has(es, Ends(v, w)) || Has(es, Ends(w, v))
      ensures exists i :: csr.offsets[v] <= i < csr.offsets[v + 1] && csr.adjacent[i] == w
    {
      HasOccurs(es, Ends(v, w));
      HasOccurs(es, Ends(w, v));
      assert Back(Ends(v, w)) == Ends(w, v) && HasSlot(slots, Ends(v, w));
      var i :| 0 <= i < |slots| && slots[i].Key() == Ends(v, w);
      assert csr.adjacent[i] == w;
    }
  }

  /** The offsets start at 0, ascend and end at the number of slots. */
  lemma OffsetsSpan(csr: Csr, slots: seq<DirectedEdge>)
    requires Lists(csr, slots)
    ensures |csr.offsets| == csr.nv + 1 && csr.offsets[0] == 0 && csr.offsets[csr.nv] == |csr.adjacent| == |slots|
    ensures forall v :: 0 <= v < csr.nv ==> csr.offsets[v] <= csr.offsets[v + 1]
  {
  }

  /** The same of the lists: the weight and the time at a place are those of an edge between the two vertices. */
  lemma PayloadsOfNeighbours(es: seq<Edge>, slots: seq<DirectedEdge>, csr: Csr, v: nat, i: nat)
    requires Represents(es, slots) && Lists(csr, slots) && v < csr.nv
    requires i < |slots| && csr.offsets[v] <= i < csr.offsets[v + 1]
    ensures var w, out, in_ := csr.adjacent[i], Edge(v, csr.adjacent[i], csr.weights[i], csr.timestamps[i]),
                               Edge(csr.adjacent[i], v, csr.weights[i], csr.timestamps[i]);
      && (csr.directions[i] == Out ==> out in es)
      && (csr.directions[i] == In ==> in_ in es)
      && (csr.directions[i] == Both && Occurrences(es, Ends(v, w)) <= 1 ==> in_ in es)
  {
    PayloadsAreTrue(es, slots, i);
  }

  lemma {:induction false} OffsetsAscend(csr: Csr, slots: seq<DirectedEdge>, v: nat)
    requires Lists(csr, slots) && v <= csr.nv
    ensures 0 <= csr.offsets[v] <= |slots|
  {
    OffsetsFromStart(csr, slots, v);
    OffsetsToEnd(csr, slots, v);
  }

  lemma {:induction false} OffsetsFromStart(csr: Csr, slots: seq<DirectedEdge>, v: nat)
    requires Lists(csr, slots) && v <= csr.nv
    ensures 0 <= csr.offsets[v]
  {
    if v > 0 { OffsetsFromStart(csr, slots, v - 1); }
  }

  lemma {:induction false} OffsetsToEnd(csr: Csr, slots: seq<DirectedEdge>, v: nat)
    requires Lists(csr, slots) && v <= csr.nv
    ensures csr.offsets[v] <= |slots|
    decreases csr.nv - v
  {
    if v < csr.nv { OffsetsToEnd(csr, slots, v + 1); }
  }
}
