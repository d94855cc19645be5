/** The recursive-matrix edge generator: what an edge is made of, and how far the engine moves. Converting
    output to a real number and choosing a quadrant are parameters. */
module Rmat {
  import opened Modular
  import opened PrngEngine

  datatype Quadrant = Q1 | Q2 | Q3 | Q4

  /** Everything about a generator that never changes while it runs. */
  datatype RmatParams = RmatParams(
    number: Pos -> real,               // the number that the distribution draws at a position
    quadrant: seq<real> -> Quadrant,   // the comparisons with A, A+B and A+B+C
    k: nat,                            // engine calls per number
    scale: nat)                        // SCALE
  {
    /** Numbers drawn per edge. */
    function Draws(): int { 5 * (scale - 1) + 1 }

    /** Engine calls per edge. */
    function PerEdge(): int { Draws() * k }
  }

  // ---- Powers of two and single bits ---------------------------------------------------------------

  function Pow2(n: nat): nat {
    if n == 0 then 1 else 2 * Pow2(n - 1)
  }

  lemma HalfPow2(n: nat)
    ensures Pow2(n) == 1 <==> n == 0
    ensures n > 0 ==> Pow2(n) / 2 == Pow2(n - 1)
  {
  }

  function Log2(n: nat): nat {
    if n < 2 then 0 else 1 + Log2(n / 2)
  }

  lemma {:induction false} Log2Bounds(n: nat)
    requires n > 0
    ensures Pow2(Log2(n)) <= n < Pow2(Log2(n) + 1)
  {
    if n >= 2 { Log2Bounds(n / 2); }
  }

  predicate Bit(x: nat, n: nat) {
    if n == 0 then x % 2 == 1 else Bit(x / 2, n - 1)
  }

  function BitOr(x: nat, y: nat): nat {
    if x == 0 && y == 0 then 0 else 2 * BitOr(x / 2, y / 2) + if x % 2 == 1 || y % 2 == 1 then 1 else 0
  }

  /** The lowest n bits are clear. */
  predicate Clear(x: nat, n: nat) {
    n == 0 || (x % 2 == 0 && Clear(x / 2, n - 1))
  }

  lemma {:induction false} BitOrZero(x: nat)
    ensures BitOr(x, 0) == x
  {
    if x > 0 { BitOrZero(x / 2); }
  }

  lemma {:induction false} ClearIsWeaker(x: nat, n: nat)
    requires Clear(x, n + 1)
    ensures Clear(x, n)
  {
    if n > 0 { ClearIsWeaker(x / 2, n - 1); }
  }

  /** Setting a bit below all the bits set so far adds it and disturbs no other. */
  lemma {:induction false} SetFreshBit(x: nat, n: nat, other: nat)
    requires Clear(x, n + 1)
    ensures BitOr(x, Pow2(n)) == x + Pow2(n)
    ensures Clear(x + Pow2(n), n)
    ensures Bit(x + Pow2(n), other) <==> other == n || Bit(x, other)
    ensures other <= n ==> !Bit(x, other)
  {
    if n == 0 {
      BitOrZero(x / 2);
      if other > 0 { assert (x + 1) / 2 == x / 2; }
    } else {
      assert (x + Pow2(n)) / 2 == x / 2 + Pow2(n - 1);
      SetFreshBit(x / 2, n - 1, if other > 0 then other - 1 else 0);
    }
  }

  /** The number whose bit scale-1-level is set at those of the first n levels that pick holds of. */
  function Placed(pick: nat -> bool, scale: nat, n: nat): nat
    requires n <= scale
  {
    if n == 0 then 0 else Placed(pick, scale, n - 1) + if pick(n - 1) then Pow2(scale - n) else 0
  }

  lemma {:induction false} PlacedClear(pick: nat -> bool, scale: nat, n: nat)
    requires n <= scale
    ensures Clear(Placed(pick, scale, n), scale - n)
    ensures Placed(pick, scale, n) + Pow2(scale - n) <= Pow2(scale)
  {
    if n == 0 {
      ZeroClear(scale);
    } else {
      PlacedClear(pick, scale, n - 1);
      SetFreshBit(Placed(pick, scale, n - 1), scale - n, 0);
      ClearIsWeaker(Placed(pick, scale, n - 1), scale - n);
    }
  }

  lemma PlaceBit(pick: nat -> bool, scale: nat, n: nat, x: nat, bit: nat)
    requires n < scale && x == Placed(pick, scale, n) && bit == Pow2(scale - 1 - n)
    ensures Placed(pick, scale, n + 1) == if pick(n) then BitOr(x, bit) else x
  {
    PlacedClear(pick, scale, n);
    SetFreshBit(x, scale - 1 - n, 0);
  }

  lemma {:induction false} ZeroClear(n: nat)
    ensures Clear(0, n)
  {
    if n > 0 { ZeroClear(n - 1); }
  }

  lemma {:induction false} BitOfLevel(pick: nat -> bool, scale: nat, n: nat, level: nat)
    requires level < n <= scale
    ensures Bit(Placed(pick, scale, n), scale - 1 - level) <==> pick(level)
  {
    PlacedClear(pick, scale, n - 1);
    SetFreshBit(Placed(pick, scale, n - 1), scale - n, scale - 1 - level);
    if level < n - 1 { BitOfLevel(pick, scale, n - 1, level); }
  }

  // ---- The edge at a position of the random stream -----------------------------------------------

  function Chunks(stream: Pos -> Chunk, p: Pos, n: nat): seq<Chunk> {
    if n == 0 then [] else Chunks(stream, p, n - 1) + [stream(Steps(p, n - 1))]
  }

  /** std::uniform_real_distribution<double> makes one number of k chunks. */
  function NumberAt(stream: Pos -> Chunk, canonical: seq<Chunk> -> real, k: nat, p: Pos): real {
    canonical(Chunks(stream, p, k))
  }

  ghost function NumbersOf(stream: Pos -> Chunk, canonical: seq<Chunk> -> real, k: nat): Pos -> real {
    (p: Pos) => NumberAt(stream, canonical, k, p)
  }

  /** The position after n numbers. */
  function AfterNumbers(m: RmatParams, p: Pos, n: nat): Pos {
    if n == 0 then p else Steps(AfterNumbers(m, p, n - 1), m.k)
  }

  /** The first n numbers drawn from a position. */
  function Numbers(m: RmatParams, p: Pos, n: nat): seq<real> {
    if n == 0 then [] else Numbers(m, p, n - 1) + [m.number(AfterNumbers(m, p, n - 1))]
  }

  /** The quadrant chosen at a level of the recursion; five numbers are drawn between two levels. */
  function Level(m: RmatParams, p: Pos, level: nat): Quadrant {
    m.quadrant(Numbers(m, p, 5 * level + 1))
  }

  /** At which levels the source, or the destination, is in the second half of its range. */
  ghost function Lower(m: RmatParams, p: Pos): nat -> bool {
    (level: nat) => Level(m, p, level) in {Q3, Q4}
  }

  ghost function Right(m: RmatParams, p: Pos): nat -> bool {
    (level: nat) => Level(m, p, level) in {Q2, Q4}
  }

  ghost function Src(m: RmatParams, p: Pos): nat { Placed(Lower(m, p), m.scale, m.scale) }

  ghost function Dst(m: RmatParams, p: Pos): nat { Placed(Right(m, p), m.scale, m.scale) }

  /** Sets the bit of a level in the endpoints that the quadrant says. */
  method SetBits(q: Quadrant, i: nat, j: nat, bit: nat,
                 ghost lower: nat -> bool, ghost right: nat -> bool,
                 ghost scale: nat, ghost level: nat, ghost rest: nat)
    returns (i': nat, j': nat)
    requires level + 1 + rest == scale && bit == Pow2(rest)
    requires i == Placed(lower, scale, level) && j == Placed(right, scale, level)
    requires lower(level) <==> q in {Q3, Q4}
    requires right(level) <==> q in {Q2, Q4}
    ensures i' == Placed(lower, scale, level + 1) && j' == Placed(right, scale, level + 1)
  {
    PlaceBit(lower, scale, level, i, bit);
    PlaceBit(right, scale, level, j, bit);
    i', j' := i, j;
    if q != Q1 {
      if q == Q2 {
        j' := BitOr(j, bit);
      } else if q == Q3 {
        i' := BitOr(i, bit);
      } else {
        j' := BitOr(j, bit);
        i' := BitOr(i, bit);
      }
    }
  }

  lemma QuadrantAt(m: RmatParams, p: Pos, level: nat, q: Quadrant, drawn: seq<real>)
    requires drawn == Numbers(m, p, 5 * level + 1) && q == m.quadrant(drawn)
    ensures Lower(m, p)(level) <==> q in {Q3, Q4}
    ensures Right(m, p)(level) <==> q in {Q2, Q4}
  {
  }

  // ---- The generator -------------------------------------------------------------------------------

  class RmatEdgeGenerator {
    const engine: PrngEngine
    const canonical: seq<Chunk> -> real
    const quadrant: seq<real> -> Quadrant
    const k: nat
    const scale: nat

    ghost const number: Pos -> real

    ghost predicate Valid()
      reads engine
    {
      && engine.Valid()
      && forall p {:trigger NumberAt(engine.stream, canonical, k, p)} ::
           number(p) == NumberAt(engine.stream, canonical, k, p)
    }

    ghost function Params(): RmatParams {
      RmatParams(number, quadrant, k, scale)
    }

    ghost function Position(): Pos
      reads engine
    {
      engine.position
    }

    /** SCALE is the logarithm of the number of vertices, rounded down. */
    constructor (nv: nat, cipher: Cipher, canonical: seq<Chunk> -> real, quadrant: seq<real> -> Quadrant, k: nat,
                 seed: Chunk)
      ensures Valid() && fresh(engine) && Position() == ORIGIN
      ensures nv > 0 ==> Pow2(scale) <= nv < Pow2(scale + 1)
      ensures Params() == RmatParams(NumbersOf(Stream(cipher, ZERO.(w0 := seed)), canonical, k), quadrant, k, Log2(nv))
    {
      engine := new PrngEngine.Seeded(cipher, seed);
      this.canonical, this.quadrant, this.k := canonical, quadrant, k;
      number := NumbersOf(Stream(cipher, ZERO.(w0 := seed)), canonical, k);
      var n: nat, log: nat := nv / 2, 0;
      while n != 0
        invariant Log2(nv) == if n == 0 then log else log + 1 + Log2(n)
        decreases n
      {
        log := log + 1;
        n := n / 2;
      }
      scale := log;
      if nv > 0 { Log2Bounds(nv); }
    }

    /** What a copy has in common with the original for good. */
    ghost predicate CloneOf(g: RmatEdgeGenerator) {
      engine.cipher == g.engine.cipher && canonical == g.canonical && Params() == g.Params() && k == g.k
    }

    constructor Copy(g: RmatEdgeGenerator)
      requires g.Valid()
      ensures Valid() && fresh(engine) && CloneOf(g) && Position() == g.Position()
    {
      engine := new PrngEngine.Copy(g.engine);
      canonical, quadrant, k, scale, number := g.canonical, g.quadrant, g.k, g.scale, g.number;
    }

    method Assign(g: RmatEdgeGenerator)
      requires g.Valid() && g.CloneOf(this)
      modifies engine
      ensures Valid() && Position() == old(g.Position())
    {
      engine.Assign(g.engine);
    }

    /** One number from the distribution: k engine calls. */
    method Rng() returns (r: real)
      requires Valid()
      modifies engine
      ensures Valid()
      ensures r == number(old(Position()))
      ensures Position() == Steps(old(Position()), k)
    {
      var drawn: seq<Chunk> := [];
      ghost var p := Position();
      for i := 0 to k
        invariant Valid() && engine.stream == old(engine.stream)
        invariant drawn == Chunks(engine.stream, p, i) && Position() == Steps(p, i)
      {
        var c := engine.Next();
        drawn := drawn + [c];
      }
      r := canonical(drawn);
      assert r == NumberAt(engine.stream, canonical, k, p);
    }

    /** Draws one number and keeps it with those drawn before it for the same edge. */
    method Draw(drawn: seq<real>, ghost p: Pos, ghost n: nat) returns (more: seq<real>)
      requires Valid() && drawn == Numbers(Params(), p, n) && Position() == AfterNumbers(Params(), p, n)
      modifies engine
      ensures Valid()
      ensures more == Numbers(Params(), p, n + 1) && Position() == AfterNumbers(Params(), p, n + 1)
    {
      var r := Rng();
      more := drawn + [r];
    }

    /** Draws the numbers that perturb A, B, C and D between two levels. */
    method Perturb(drawn: seq<real>, ghost p: Pos, ghost n: nat) returns (more: seq<real>)
      requires Valid() && drawn == Numbers(Params(), p, n) && Position() == AfterNumbers(Params(), p, n)
      modifies engine
      ensures Valid()
      ensures more == Numbers(Params(), p, n + 4) && Position() == AfterNumbers(Params(), p, n + 4)
    {
      more := Draw(drawn, p, n);
      more := Draw(more, p, n + 1);
      more := Draw(more, p, n + 2);
      more := Draw(more, p, n + 3);
    }

    /** Draws the number of one level and sets that level's bit in the endpoints. */
    method DrawLevel(drawn: seq<real>, i: nat, j: nat, bit: nat, ghost p: Pos, ghost level: nat, ghost rest: nat)
      returns (more: seq<real>, i': nat, j': nat)
      requires Valid() && level + 1 + rest == scale && bit == Pow2(rest)
      requires drawn == Numbers(Params(), p, 5 * level) && Position() == AfterNumbers(Params(), p, 5 * level)
      requires i == Placed(Lower(Params(), p), scale, level) && j == Placed(Right(Params(), p), scale, level)
      modifies engine
      ensures Valid()
      ensures more == Numbers(Params(), p, 5 * level + 1) && Position() == AfterNumbers(Params(), p, 5 * level + 1)
      ensures i' == Placed(Lower(Params(), p), scale, level + 1)
      ensures j' == Placed(Right(Params(), p), scale, level + 1)
    {
      ghost var m := Params();
      more := Draw(drawn, p, 5 * level);
      var q := quadrant(more);
      QuadrantAt(m, p, level, q, more);
      i', j' := SetBits(q, i, j, bit, Lower(m, p), Right(m, p), scale, level, rest);
    }

    /** Draws the endpoints of the next edge. */
    method NextEdge() returns (src: nat, dst: nat)
      requires Valid() && scale >= 1
      modifies engine
      ensures Valid()
      ensures src == Src(Params(), old(Position())) && dst == Dst(Params(), old(Position()))
      ensures Position() == AfterNumbers(Params(), old(Position()), Params().Draws())
    {
      ghost var m, p := Params(), Position();
      ghost var lower, right := Lower(m, p), Right(m, p);
      var i: nat, j: nat, bit: nat := 0, 0, Pow2(scale - 1);
      var drawn: seq<real> := [];
      ghost var level: nat, rest: nat := 0, scale - 1;
      while true
        invariant Valid()
        invariant level + rest == scale - 1 && bit == Pow2(rest)
        invariant drawn == Numbers(m, p, 5 * level) && Position() == AfterNumbers(m, p, 5 * level)
        invariant i == Placed(lower, scale, level) && j == Placed(right, scale, level)
        decreases rest
      {
        drawn, i, j := DrawLevel(drawn, i, j, bit, p, level, rest);
        HalfPow2(rest);
        if bit == 1 { break; }
        drawn := Perturb(drawn, p, 5 * level + 1);
        bit := bit / 2;
        assert 5 * level + 1 + 4 == 5 * (level + 1);
        level, rest := level + 1, rest - 1;
      }
      assert 5 * level + 1 == m.Draws() && level + 1 == scale;
      src, dst := i, j;
    }

    /** Skips n edges in constant time. The two multiplications wrap around at 2^64. */
    method Discard(n: Word)
      requires Valid() && scale >= 1
      modifies engine
      ensures Valid()
      ensures Position() == Steps(old(Position()), n * Params().PerEdge() % 0x1_0000_0000_0000_0000)
    {
      var x := n * (5 * (scale - 1) + 1) % 0x1_0000_0000_0000_0000;
      x := x * k % 0x1_0000_0000_0000_0000;
      WrapTwice(n, Params());
      engine.Discard(x);
    }
  }

  lemma WrapTwice(n: nat, m: RmatParams)
    ensures (n * (5 * (m.scale - 1) + 1) % 0x1_0000_0000_0000_0000) * m.k % 0x1_0000_0000_0000_0000
         == n * m.PerEdge() % 0x1_0000_0000_0000_0000
  {
    ModMulMod(n * m.Draws(), m.k, 0x1_0000_0000_0000_0000);
    assert n * m.Draws() * m.k == n * (m.Draws() * m.k);
  }

  lemma {:induction false} BitIsRemainder(x: nat, n: nat)
    ensures Pow2(n) > 0 && (Bit(x, n) <==> x / Pow2(n) % 2 == 1)
  {
    if n > 0 {
      BitIsRemainder(x / 2, n - 1);
      HalvedQuotient(x, Pow2(n - 1));
    }
  }

  lemma HalvedQuotient(x: nat, y: nat)
    requires y > 0
    ensures x / (2 * y) == x / 2 / y
  {
    var q, r := x / 2 / y, x / 2 % y;
    assert x / 2 == q * y + r;
    assert x == 2 * (x / 2) + x % 2;
    assert x == 2 * (q * y) + (2 * r + x % 2);
    assert 2 * (q * y) == q * (2 * y);
    DivModUnique(x, 2 * y, q, 2 * r + x % 2);
  }

  /** Which quadrant is chosen at a level decides one bit of each endpoint. */
  lemma QuadrantDecidesBits(m: RmatParams, p: Pos, level: nat)
    requires level < m.scale
    ensures var unit := Pow2(m.scale - 1 - level);
      && unit > 0
      && (Src(m, p) / unit % 2 == 1 <==> Level(m, p, level) in {Q3, Q4})
      && (Dst(m, p) / unit % 2 == 1 <==> Level(m, p, level) in {Q2, Q4})
  {
    BitOfLevel(Lower(m, p), m.scale, m.scale, level);
    BitOfLevel(Right(m, p), m.scale, m.scale, level);
    BitIsRemainder(Src(m, p), m.scale - 1 - level);
    BitIsRemainder(Dst(m, p), m.scale - 1 - level);
  }

  lemma {:induction false} ChunksAt(stream: Pos -> Chunk, p: Pos, n: nat, i: nat)
    requires i < n
    ensures |Chunks(stream, p, n)| == n && Chunks(stream, p, n)[i] == stream(Steps(p, i))
  {
    if n > 1 { ChunksAt(stream, p, n - 1, if i < n - 1 then i else 0); }
  }

  lemma {:induction false} NumbersAt(m: RmatParams, p: Pos, n: nat, i: nat)
    requires i < n
    ensures |Numbers(m, p, n)| == n && Numbers(m, p, n)[i] == m.number(Steps(p, i * m.k))
  {
    AfterNumbersIsSteps(m, p, n - 1);
    if n > 1 { NumbersAt(m, p, n - 1, if i < n - 1 then i else 0); }
  }

  /** The number at a position is made of the k outputs from there on. */
  lemma NumberOfChunks(stream: Pos -> Chunk, canonical: seq<Chunk> -> real, k: nat, p: Pos, chunks: seq<Chunk>)
    requires |chunks| == k && forall i :: 0 <= i < k ==> chunks[i] == stream(Steps(p, i))
    ensures NumberAt(stream, canonical, k, p) == canonical(chunks)
  {
    if k > 0 { ChunksAt(stream, p, k, 0); }
    forall i | 0 <= i < k
      ensures Chunks(stream, p, k)[i] == chunks[i]
    {
      ChunksAt(stream, p, k, i);
    }
    assert Chunks(stream, p, k) == chunks;
  }

  /** The quadrant of a level is chosen by the numbers drawn for the edge so far: one for each level, and four
      between two levels, each k engine calls after the one before. */
  lemma LevelOfNumbers(m: RmatParams, p: Pos, level: nat, drawn: seq<real>)
    requires |drawn| == 5 * level + 1 && forall i :: 0 <= i < |drawn| ==> drawn[i] == m.number(Steps(p, i * m.k))
    ensures Level(m, p, level) == m.quadrant(drawn)
  {
    NumbersAt(m, p, 5 * level + 1, 0);
    forall i | 0 <= i < |drawn|
      ensures Numbers(m, p, 5 * level + 1)[i] == drawn[i]
    {
      NumbersAt(m, p, 5 * level + 1, i);
    }
    assert Numbers(m, p, 5 * level + 1) == drawn;
  }

  /** Both endpoints are below 2^SCALE. */
  lemma EndpointsInRange(m: RmatParams, p: Pos)
    ensures Src(m, p) < Pow2(m.scale) && Dst(m, p) < Pow2(m.scale)
  {
    PlacedClear(Lower(m, p), m.scale, m.scale);
    PlacedClear(Right(m, p), m.scale, m.scale);
  }

  // ---- Skipping edges ------------------------------------------------------------------------------

  /** The position after n edges have been drawn one at a time. */
  function AfterEdges(m: RmatParams, p: Pos, n: nat): Pos
    requires m.scale >= 1
  {
    if n == 0 then p else AfterNumbers(m, AfterEdges(m, p, n - 1), m.Draws())
  }

  lemma {:induction false} AfterNumbersIsSteps(m: RmatParams, p: Pos, n: nat)
    ensures AfterNumbers(m, p, n) == Steps(p, n * m.k)
  {
    if n > 0 {
      AfterNumbersIsSteps(m, p, n - 1);
      StepsCompose(p, (n - 1) * m.k, m.k);
      assert (n - 1) * m.k + m.k == n * m.k;
    }
  }

  lemma {:induction false} AfterEdgesIsSteps(m: RmatParams, p: Pos, n: nat)
    requires m.scale >= 1
    ensures m.PerEdge() == (5 * (m.scale - 1) + 1) * m.k
    ensures AfterEdges(m, p, n) == Steps(p, n * m.PerEdge())
  {
    if n > 0 {
      AfterEdgesIsSteps(m, p, n - 1);
      AfterNumbersIsSteps(m, AfterEdges(m, p, n - 1), m.Draws());
      StepsCompose(p, (n - 1) * m.PerEdge(), m.PerEdge());
      assert (n - 1) * m.PerEdge() + m.PerEdge() == n * m.PerEdge();
    }
  }

  lemma {:induction false} AfterEdgesCompose(m: RmatParams, p: Pos, y: nat, z: nat)
    requires m.scale >= 1
    ensures AfterEdges(m, AfterEdges(m, p, y), z) == AfterEdges(m, p, y + z)
  {
    if z > 0 { AfterEdgesCompose(m, p, y, z - 1); }
  }

  /** Skipping n edges reaches the position of drawing n edges exactly when the number of engine calls
      they take fits in 64 bits. */
  lemma DiscardReachesIff(m: RmatParams, p: Pos, n: Word)
    requires p.index < 0x8_0000_0000_0000_0000_0000_0000_0000_0000_0000_0000_0000_0000_0000_0000_0000_0000
    requires m.scale >= 1 && m.PerEdge() <= 0x1_0000_0000_0000_0000
    ensures Steps(p, n * m.PerEdge() % 0x1_0000_0000_0000_0000) == AfterEdges(m, p, n)
      <==> n * m.PerEdge() < 0x1_0000_0000_0000_0000
  {
    AfterEdgesIsSteps(m, p, n);
    var calls: int := m.PerEdge();
    NonNegativeProduct(m.Draws(), m.k);
    NonNegativeProduct(n, calls);
    ProductGrows(n, 0x1_0000_0000_0000_0000, calls);
    WrapReachesIff(p, n * calls);
  }

  lemma WrapReachesIff(p: Pos, x: nat)
    requires p.index < 0x8_0000_0000_0000_0000_0000_0000_0000_0000_0000_0000_0000_0000_0000_0000_0000_0000
    requires x <= 0x1_0000_0000_0000_0000_0000_0000_0000_0000
    ensures Steps(p, x % 0x1_0000_0000_0000_0000) == Steps(p, x) <==> x < 0x1_0000_0000_0000_0000
  {
    DistinctSteps(p, x % 0x1_0000_0000_0000_0000, x);
  }

  /** With SCALE 1 and two engine calls per number, skipping 2^63 edges wraps around and goes nowhere. */
  lemma LongSkipFails(number: Pos -> real, quadrant: seq<real> -> Quadrant, p: Pos)
    requires p.index < 0x8_0000_0000_0000_0000_0000_0000_0000_0000_0000_0000_0000_0000_0000_0000_0000_0000
    ensures var m, n := RmatParams(number, quadrant, 2, 1), 0x8000_0000_0000_0000;
      Steps(p, n * m.PerEdge() % 0x1_0000_0000_0000_0000) == p != AfterEdges(m, p, n)
  {
    var m := RmatParams(number, quadrant, 2, 1);
    assert m.PerEdge() == 2;
    DiscardReachesIff(m, p, 0x8000_0000_0000_0000);
  }

  /** Runs of different lengths below the period end in different places. */
  lemma DistinctSteps(p: Pos, y: nat, z: nat)
    requires p.index < 0x8_0000_0000_0000_0000_0000_0000_0000_0000_0000_0000_0000_0000_0000_0000_0000_0000 && y <= z < 0x8_0000_0000_0000_0000_0000_0000_0000_0000_0000_0000_0000_0000_0000_0000_0000_0000
    ensures Steps(p, y) == Steps(p, z) ==> y == z
  {
    StepsWrap(p, y);
    StepsWrap(p, z);
  }
}
