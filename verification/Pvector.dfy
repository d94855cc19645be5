/** A growable array that leaves new cells uninitialised. */
module Pvectors {
  import opened Edges

  // ---- Sizes, and what the operations copy -------------------------------------------------------------

  datatype Shape = Shape(size: nat, capacity: nat)

  datatype Op = PushBack | Reserve(n: nat) | Resize(n: nat) | Clear

  function Grown(shape: Shape, n: nat): Shape {
    if n > shape.capacity then shape.(capacity := n) else shape
  }

  /** The capacity that push_back asks for. */
  function Wanted(shape: Shape): nat {
    if shape.size < shape.capacity then shape.capacity
    else if shape.capacity == 0 then 1
    else shape.capacity * 2
  }

  function Step(shape: Shape, op: Op): Shape {
    match op
    case PushBack => Grown(shape, Wanted(shape)).(size := shape.size + 1)
    case Reserve(n) => Grown(shape, n)
    case Resize(n) => Grown(shape, n).(size := n)
    case Clear => shape.(size := 0)
  }

  /** The number of elements that the operation moves to a new range. */
  function Moved(shape: Shape, op: Op): nat {
    var n := match op case PushBack => Wanted(shape) case Reserve(n) => n case Resize(n) => n case Clear => 0;
    if n > shape.capacity then shape.size else 0
  }

  function StepAll(shape: Shape, ops: seq<Op>): Shape
    decreases ops
  {
    if ops == [] then shape else StepAll(Step(shape, ops[0]), ops[1..])
  }

  function MovedByAll(shape: Shape, ops: seq<Op>): nat
    decreases ops
  {
    if ops == [] then 0 else Moved(shape, ops[0]) + MovedByAll(Step(shape, ops[0]), ops[1..])
  }

  /** Twice the elements that were pushed or asked for. */
  function Asked(ops: seq<Op>): nat {
    if ops == [] then 0
    else (match ops[0] case PushBack => 2 case Reserve(n) => n case Resize(n) => 2 * n case Clear => 0) + Asked(ops[1..])
  }

  /** What has been paid for and not yet moved. */
  function Potential(shape: Shape): nat { Max(0, 2 * shape.size - shape.capacity) }

  lemma StepPays(shape: Shape, op: Op)
    requires shape.size <= shape.capacity
    ensures Step(shape, op).size <= Step(shape, op).capacity
    ensures Moved(shape, op) + Potential(Step(shape, op)) <= Potential(shape) + Asked([op])
  {
    assert [op][1..] == [];
  }

  /** Whatever the operations are and in whatever order, the moves are paid for by what was asked for. */
  lemma {:induction false} RunPays(shape: Shape, ops: seq<Op>)
    requires shape.size <= shape.capacity
    ensures StepAll(shape, ops).size <= StepAll(shape, ops).capacity
    ensures MovedByAll(shape, ops) + Potential(StepAll(shape, ops)) <= Potential(shape) + Asked(ops)
    decreases ops
  {
    if ops != [] {
      StepPays(shape, ops[0]);
      assert Asked(ops) == Asked([ops[0]]) + Asked(ops[1..]) by { assert [ops[0]][1..] == []; }
      RunPays(Step(shape, ops[0]), ops[1..]);
    }
  }

  function Pushes(n: nat): seq<Op> { seq(n, _ => PushBack) }

  lemma {:induction false} AskedByPushes(shape: Shape, n: nat)
    ensures Asked(Pushes(n)) == 2 * n && StepAll(shape, Pushes(n)).size == shape.size + n
    decreases n
  {
    if n > 0 {
      assert Pushes(n)[1..] == Pushes(n - 1);
      AskedByPushes(Step(shape, PushBack), n - 1);
    }
  }

  lemma {:induction false} PushesStayTight(shape: Shape, n: nat)
    requires shape.size <= shape.capacity && (shape.capacity < 2 * shape.size || shape.capacity == 0)
    ensures var end := StepAll(shape, Pushes(n)); n > 0 ==> end.capacity < 2 * end.size
    decreases n
  {
    if n > 0 {
      assert Pushes(n)[1..] == Pushes(n - 1);
      PushesStayTight(Step(shape, PushBack), n - 1);
      assert n == 1 ==> Pushes(n - 1) == [];
    }
  }

  /** The amortised bound: n pushes from empty move fewer than 2n elements in all. */
  lemma PushesAreAmortised(n: nat)
    requires n > 0
    ensures MovedByAll(Shape(0, 0), Pushes(n)) < 2 * n
  {
    RunPays(Shape(0, 0), Pushes(n));
    AskedByPushes(Shape(0, 0), n);
    PushesStayTight(Shape(0, 0), n);
  }

  predicate PowerOfTwo(n: nat) { n == 1 || (n > 0 && n % 2 == 0 && PowerOfTwo(n / 2)) }

  lemma {:induction false} PushesDouble(shape: Shape, n: nat)
    requires shape.size <= shape.capacity && PowerOfTwo(shape.capacity)
    ensures var end := StepAll(shape, Pushes(n));
      && end.size == shape.size + n <= end.capacity && PowerOfTwo(end.capacity)
      && MovedByAll(shape, Pushes(n)) == end.capacity - shape.capacity
    decreases n
  {
    if n > 0 {
      assert Pushes(n)[1..] == Pushes(n - 1);
      PushesDouble(Step(shape, PushBack), n - 1);
    }
  }

  /** What n pushes from empty do exactly: the capacity ends up as the least power of two that is enough, and one
      element less than that has been moved. */
  lemma PushesFromEmpty(n: nat)
    requires n > 0
    ensures var end := StepAll(Shape(0, 0), Pushes(n));
      && end.size == n <= end.capacity < 2 * n && PowerOfTwo(end.capacity)
      && MovedByAll(Shape(0, 0), Pushes(n)) == end.capacity - 1
  {
    assert Pushes(n)[1..] == Pushes(n - 1);
    PushesDouble(Step(Shape(0, 0), PushBack), n - 1);
    PushesStayTight(Shape(0, 0), n);
  }

  /** An operation makes the capacity as large as was asked for if it was smaller, and then moves every element. */
  lemma StepGrows(shape: Shape, op: Op)
    ensures op.Reserve? || op.Resize? ==> Step(shape, op).capacity == Max(shape.capacity, op.n)
    ensures Step(shape, op).capacity >= shape.capacity
    ensures Moved(shape, op) == if Step(shape, op).capacity > shape.capacity then shape.size else 0
  {
  }

  // ---- The class ---------------------------------------------------------------------------------------

  class Pvector<T(0)> {
    var start: array?<T>
    var size: nat
    ghost var moved: nat

    function Storage(): set<object>
      reads this
    {
      if start == null then {} else {start}
    }

    function Capacity(): nat
      reads this
    {
      if start == null then 0 else start.Length
    }

    ghost function Sizes(): Shape
      reads this
    {
      Shape(size, Capacity())
    }

    ghost predicate Valid()
      reads this
    {
      size <= Capacity()
    }

    ghost function View(): seq<T>
      requires Valid()
      reads this, Storage()
    {
      if start == null then [] else start[..size]
    }

    constructor ()
      ensures Valid() && View() == [] && Sizes() == Shape(0, 0) && moved == 0
    {
      start, size, moved := null, 0, 0;
    }

    method Reserve(n: nat)
      requires Valid()
      modifies this
      ensures Valid() && fresh(Storage() - old(Storage())) && View() == old(View())
      ensures Sizes() == Step(old(Sizes()), Op.Reserve(n)) && moved == old(moved) + Moved(old(Sizes()), Op.Reserve(n))
    {
      if n > Capacity() {
        var newRange := new T[n];
        for i := 0 to size
          invariant start == old(start) && size == old(size) && moved == old(moved) + i
          invariant newRange[..i] == View()[..i]
        {
          newRange[i] := start[i];
          moved := moved + 1;
          assert newRange[..i + 1] == newRange[..i] + [start[i]];
        }
        start := newRange;
      }
    }

    method Empty() returns (b: bool)
      requires Valid()
      ensures b <==> View() == []
    {
      b := size == 0;
    }

    method Clear()
      requires Valid()
      modifies `size
      ensures Valid() && View() == [] && Sizes() == Step(old(Sizes()), Op.Clear)
    {
      size := 0;
    }

    /** The elements that are there stay; cells that the new size brings in hold anything. */
    method Resize(n: nat)
      requires Valid()
      modifies this
      ensures Valid() && fresh(Storage() - old(Storage())) && |View()| == n
      ensures forall i :: 0 <= i < n && i < |old(View())| ==> View()[i] == old(View())[i]
      ensures Sizes() == Step(old(Sizes()), Op.Resize(n)) && moved == old(moved) + Moved(old(Sizes()), Op.Resize(n))
    {
      Reserve(n);
      ghost var s := View();
      size := n;
      assert forall i :: 0 <= i < n && i < |s| ==> View()[i] == s[i];
    }

    function At(i: nat): T
      requires Valid() && i < size
      reads this, Storage()
      ensures At(i) == View()[i]
    {
      start[i]
    }

    method Set(i: nat, x: T)
      requires Valid() && i < size
      modifies Storage()
      ensures View() == old(View())[i := x]
    {
      start[i] := x;
    }

    method PushBack(x: T)
      requires Valid()
      modifies this, Storage()
      ensures Valid() && fresh(Storage() - old(Storage())) && View() == old(View()) + [x]
      ensures Sizes() == Step(old(Sizes()), Op.PushBack) && moved == old(moved) + Moved(old(Sizes()), Op.PushBack)
    {
      if size == Capacity() {
        Reserve(if Capacity() == 0 then 1 else Capacity() * 2);
      }
      start[size] := x;
      size := size + 1;
      assert View() == old(View()) + [x];
    }

    /** Copy assignment; the two may be the same object but do not share storage otherwise. */
    method Assign(other: Pvector<T>)
      requires Valid() && other.Valid()
      requires this == other || Storage() !! other.Storage()
      modifies this, Storage()
      ensures Valid() && fresh(Storage() - old(Storage())) && View() == old(other.View())
      ensures this != other ==> other.Valid() && other.View() == old(other.View())
      ensures Sizes() == Step(old(Sizes()), Op.Resize(old(other.size)))
    {
      ghost var s := other.View();
      Resize(other.size);
      ghost var cells := start;
      for i := 0 to size
        invariant Valid() && size == |s| && other.Valid() && other.View() == s
        invariant start == cells && moved == old(moved) + Moved(old(Sizes()), Op.Resize(old(other.size)))
        invariant Sizes() == Step(old(Sizes()), Op.Resize(old(other.size)))
        invariant View()[..i] == s[..i]
      {
        Set(i, other.At(i));
        assert View()[..i + 1] == View()[..i] + [s[i]];
      }
    }
  }
}
