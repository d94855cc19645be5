/** The counter-based random number engine: 256 bits of counter are encrypted under a key, and the
    four 64-bit words of the result are handed out as eight 32-bit chunks. */
module PrngEngine {
  import opened Modular

  type Word = x: int | 0 <= x < 0x1_0000_0000_0000_0000
  type Chunk = x: int | 0 <= x < 0x1_0000_0000
  /** A place in the output, which repeats itself after 8 * 2^256 chunks. */
  datatype Pos = Pos(index: nat)

  const ORIGIN := Pos(0)

  /** A member array of four 64-bit words; it is copied whenever the engine is. */
  datatype Words = Words(w0: Word, w1: Word, w2: Word, w3: Word) {
    function At(i: nat): Word
      requires i < 4
    {
      if i == 0 then w0 else if i == 1 then w1 else if i == 2 then w2 else w3
    }
  }

  const ZERO := Words(0, 0, 0, 0)

  /** The block cipher, as a function of key and counter. */
  type Cipher = (Words, Words) -> Words

  /** Addition modulo m of numbers whose sum stays below 2 * m. */
  function Wrap(x: int, m: int): int {
    if x < m then x else x - m
  }

  /** The number that the words of a counter from index i on stand for, lowest word first. */
  function CounterFrom(s: Words, i: nat): nat
    requires i <= 4
    decreases 4 - i
  {
    if i == 4 then 0 else s.At(i) + 0x1_0000_0000_0000_0000 * CounterFrom(s, i + 1)
  }

  function Counter(s: Words): nat { CounterFrom(s, 0) }

  /** Digit i of a number in base 2^64. */
  function Digit(c: nat, i: nat): Word {
    if i == 0 then c % 0x1_0000_0000_0000_0000 else Digit(c / 0x1_0000_0000_0000_0000, i - 1)
  }

  function CounterWords(c: nat): Words {
    Words(Digit(c, 0), Digit(c, 1), Digit(c, 2), Digit(c, 3))
  }

  function Sum(s: Words): nat {
    s.w0 + 0x1_0000_0000_0000_0000 * (s.w1 + 0x1_0000_0000_0000_0000 * (s.w2 + 0x1_0000_0000_0000_0000 * s.w3))
  }

  lemma CounterSum(s: Words)
    ensures Counter(s) == Sum(s)
  {
    assert CounterFrom(s, 3) == s.w3;
    assert CounterFrom(s, 2) == s.w2 + 0x1_0000_0000_0000_0000 * s.w3;
    assert CounterFrom(s, 1) == s.w1 + 0x1_0000_0000_0000_0000 * (s.w2 + 0x1_0000_0000_0000_0000 * s.w3);
  }

  lemma CounterBound(s: Words)
    ensures Counter(s) < 0x1_0000_0000_0000_0000_0000_0000_0000_0000_0000_0000_0000_0000_0000_0000_0000_0000
  {
    CounterSum(s);
  }

  lemma CounterWordsOfCounter(s: Words)
    ensures CounterWords(Counter(s)) == s
  {
    CounterSum(s);
    var c2 := s.w2 + 0x1_0000_0000_0000_0000 * s.w3;
    var c1 := s.w1 + 0x1_0000_0000_0000_0000 * c2;
    DivModUnique(Counter(s), 0x1_0000_0000_0000_0000, c1, s.w0);
    DivModUnique(c1, 0x1_0000_0000_0000_0000, c2, s.w1);
    DivModUnique(c2, 0x1_0000_0000_0000_0000, s.w3, s.w2);
    assert Digit(Counter(s), 1) == Digit(c1, 0);
    assert Digit(Counter(s), 2) == Digit(c1, 1) == Digit(c2, 0);
    assert Digit(Counter(s), 3) == Digit(c1, 2) == Digit(c2, 1) == Digit(s.w3, 0);
  }

  function Low(w: Word): Chunk { w % 0x1_0000_0000 }

  function High(w: Word): Chunk { w / 0x1_0000_0000 }

  /** The chunk of a block with the given index: words in order, low half before high half. */
  function ChunkOf(o: Words, chunk: nat): Chunk
    requires chunk < 8
  {
    if chunk % 2 == 0 then Low(o.At(chunk / 2)) else High(o.At(chunk / 2))
  }

  /** The engine's whole output, starting from the block whose counter is zero. */
  function Output(cipher: Cipher, key: Words, p: Pos): Chunk {
    ChunkOf(cipher(key, CounterWords(p.index / 8)), p.index % 8)
  }

  ghost function Stream(cipher: Cipher, key: Words): Pos -> Chunk {
    (p: Pos) => Output(cipher, key, p)
  }

  /** The position after one single call. */
  function Step(p: Pos): Pos {
    Pos(Wrap(p.index + 1, 0x8_0000_0000_0000_0000_0000_0000_0000_0000_0000_0000_0000_0000_0000_0000_0000_0000))
  }

  lemma StepIsAddition(x: nat)
    ensures Step(Pos(x % 0x8_0000_0000_0000_0000_0000_0000_0000_0000_0000_0000_0000_0000_0000_0000_0000_0000)) == Pos((x + 1) % 0x8_0000_0000_0000_0000_0000_0000_0000_0000_0000_0000_0000_0000_0000_0000_0000_0000)
  {
    ModAddMod(x, 1, 0x8_0000_0000_0000_0000_0000_0000_0000_0000_0000_0000_0000_0000_0000_0000_0000_0000);
  }

  /** The position after z single calls. */
  function Steps(p: Pos, z: nat): Pos {
    if z == 0 then p else Step(Steps(p, z - 1))
  }

  lemma {:induction false} StepsAdd(p: Pos, z: nat)
    requires p.index < 0x8_0000_0000_0000_0000_0000_0000_0000_0000_0000_0000_0000_0000_0000_0000_0000_0000
    ensures Steps(p, z) == Pos((p.index + z) % 0x8_0000_0000_0000_0000_0000_0000_0000_0000_0000_0000_0000_0000_0000_0000_0000_0000)
  {
    if z > 0 {
      StepsAdd(p, z - 1);
      StepIsAddition(p.index + z - 1);
    }
  }

  /** Skipping twice is skipping once by the sum. */
  lemma {:induction false} StepsCompose(p: Pos, y: nat, z: nat)
    ensures Steps(Steps(p, y), z) == Steps(p, y + z)
  {
    if z > 0 { StepsCompose(p, y, z - 1); }
  }

  /** ++ on a counter held in four words: the carry goes on while words wrap to zero. */
  function Incremented(s: Words): Words {
    var w0 := Wrap(s.w0 + 1, 0x1_0000_0000_0000_0000);
    if w0 != 0 then s.(w0 := w0)
    else
      var w1 := Wrap(s.w1 + 1, 0x1_0000_0000_0000_0000);
      if w1 != 0 then s.(w0 := w0, w1 := w1)
      else
        var w2 := Wrap(s.w2 + 1, 0x1_0000_0000_0000_0000);
        if w2 != 0 then s.(w0 := w0, w1 := w1, w2 := w2)
        else Words(w0, w1, w2, Wrap(s.w3 + 1, 0x1_0000_0000_0000_0000))
  }

  lemma IncrementedSum(s: Words)
    ensures Sum(Incremented(s)) == Wrap(Sum(s) + 1, 0x1_0000_0000_0000_0000_0000_0000_0000_0000_0000_0000_0000_0000_0000_0000_0000_0000)
  {
  }

  lemma IncrementedCounts(s: Words)
    ensures Counter(Incremented(s)) == Wrap(Counter(s) + 1, 0x1_0000_0000_0000_0000_0000_0000_0000_0000_0000_0000_0000_0000_0000_0000_0000_0000)
  {
    IncrementedSum(s);
    CounterSum(s);
    CounterSum(Incremented(s));
  }

  /** Adding z by a carry into the three upper words. */
  function Added(s: Words, z: Word): Words {
    var c := if z > 0xFFFF_FFFF_FFFF_FFFF - s.w0 then Carried(s) else s;
    c.(w0 := Wrap(s.w0 + z, 0x1_0000_0000_0000_0000))
  }

  function Carried(s: Words): Words {
    var w1 := Wrap(s.w1 + 1, 0x1_0000_0000_0000_0000);
    if w1 != 0 then s.(w1 := w1)
    else
      var w2 := Wrap(s.w2 + 1, 0x1_0000_0000_0000_0000);
      if w2 != 0 then s.(w1 := w1, w2 := w2) else s.(w1 := w1, w2 := w2, w3 := Wrap(s.w3 + 1, 0x1_0000_0000_0000_0000))
  }

  lemma AddedCounts(s: Words, z: Word)
    ensures Counter(Added(s, z)) == Wrap(Counter(s) + z, 0x1_0000_0000_0000_0000_0000_0000_0000_0000_0000_0000_0000_0000_0000_0000_0000_0000)
  {
    AddedSum(s, z);
    CounterSum(s);
    CounterSum(Added(s, z));
  }

  lemma AddedSum(s: Words, z: Word)
    ensures Sum(Added(s, z)) == Wrap(Sum(s) + z, 0x1_0000_0000_0000_0000_0000_0000_0000_0000_0000_0000_0000_0000_0000_0000_0000_0000)
  {
    var low := Wrap(s.w0 + z, 0x1_0000_0000_0000_0000);
    if z > 0xFFFF_FFFF_FFFF_FFFF - s.w0 {
      assert low == s.w0 + z - 0x1_0000_0000_0000_0000;
      var u, v := s.(w0 := low), Added(s, z);
      assert Sum(v) == Wrap(Sum(u) + 0x1_0000_0000_0000_0000, 0x1_0000_0000_0000_0000_0000_0000_0000_0000_0000_0000_0000_0000_0000_0000_0000_0000);
    } else {
      assert low == s.w0 + z;
    }
  }

  /** The position of an engine at counter c that has handed out some chunks of its block. */
  function PositionAt(c: nat, chunks: nat): Pos {
    Steps(ORIGIN, 8 * c + chunks)
  }

  lemma StepsWrap(p: Pos, z: nat)
    requires p.index < 0x8_0000_0000_0000_0000_0000_0000_0000_0000_0000_0000_0000_0000_0000_0000_0000_0000 && z <= 0x8_0000_0000_0000_0000_0000_0000_0000_0000_0000_0000_0000_0000_0000_0000_0000_0000
    ensures Steps(p, z) == Pos(Wrap(p.index + z, 0x8_0000_0000_0000_0000_0000_0000_0000_0000_0000_0000_0000_0000_0000_0000_0000_0000))
  {
    StepsAdd(p, z);
    var x := p.index + z;
    if x < 0x8_0000_0000_0000_0000_0000_0000_0000_0000_0000_0000_0000_0000_0000_0000_0000_0000 {
      DivModUnique(x, 0x8_0000_0000_0000_0000_0000_0000_0000_0000_0000_0000_0000_0000_0000_0000_0000_0000, 0, x);
    } else {
      DivModUnique(x, 0x8_0000_0000_0000_0000_0000_0000_0000_0000_0000_0000_0000_0000_0000_0000_0000_0000, 1, x - 0x8_0000_0000_0000_0000_0000_0000_0000_0000_0000_0000_0000_0000_0000_0000_0000_0000);
    }
  }

  lemma OutputAt(cipher: Cipher, key: Words, c: nat, chunks: nat)
    requires c < 0x1_0000_0000_0000_0000_0000_0000_0000_0000_0000_0000_0000_0000_0000_0000_0000_0000 && chunks < 8
    ensures Output(cipher, key, PositionAt(c, chunks)) == ChunkOf(cipher(key, CounterWords(c)), chunks)
  {
    StepsWrap(ORIGIN, 8 * c + chunks);
    DivModUnique(8 * c + chunks, 8, c, chunks);
  }

  /** The words of counter c, lowest first, stand for c. */
  lemma CounterWordsStandFor(c: nat)
    requires c < 0x1_0000_0000_0000_0000_0000_0000_0000_0000_0000_0000_0000_0000_0000_0000_0000_0000
    ensures var s := CounterWords(c);
      s.w0 + 0x1_0000_0000_0000_0000 * (s.w1 + 0x1_0000_0000_0000_0000 * (s.w2 + 0x1_0000_0000_0000_0000 * s.w3)) == c
  {
    var c1 := c / 0x1_0000_0000_0000_0000;
    var c2 := c1 / 0x1_0000_0000_0000_0000;
    var c3 := c2 / 0x1_0000_0000_0000_0000;
    assert Digit(c, 1) == Digit(c1, 0);
    assert Digit(c, 2) == Digit(c1, 1) == Digit(c2, 0);
    assert Digit(c, 3) == Digit(c1, 2) == Digit(c2, 1) == Digit(c3, 0);
    assert c3 < 0x1_0000_0000_0000_0000;
  }

  /** Two chunks after each other put a word of a block together again, the low half first; and the words of the
      block of counter c come in order. */
  lemma ChunksMakeWords(cipher: Cipher, key: Words, c: nat, i: nat)
    requires i < 4
    ensures Output(cipher, key, Pos(8 * c + 2 * i)) + 0x1_0000_0000 * Output(cipher, key, Pos(8 * c + 2 * i + 1))
         == var o := cipher(key, CounterWords(c)); [o.w0, o.w1, o.w2, o.w3][i]
  {
    DivModUnique(8 * c + 2 * i, 8, c, 2 * i);
    DivModUnique(8 * c + 2 * i + 1, 8, c, 2 * i + 1);
  }

  lemma StepWithinBlock(c: nat, chunks: nat)
    ensures Step(PositionAt(c, chunks)) == PositionAt(c, chunks + 1)
  {
  }

  /** The first chunk of the block of a counter. */
  lemma BlockStarts(cipher: Cipher, key: Words, s: Words)
    ensures Output(cipher, key, PositionAt(Counter(s), 0)) == Low(cipher(key, s).At(0))
    ensures Step(PositionAt(Counter(s), 0)) == PositionAt(Counter(s), 1)
  {
    CounterBound(s);
    CounterWordsOfCounter(s);
    OutputAt(cipher, key, Counter(s), 0);
    StepWithinBlock(Counter(s), 0);
  }

  /** A used-up block stands at the same position as the untouched next one. */
  lemma UsedUpBlock(c: nat)
    requires c < 0x1_0000_0000_0000_0000_0000_0000_0000_0000_0000_0000_0000_0000_0000_0000_0000_0000
    ensures PositionAt(c, 8) == PositionAt(Wrap(c + 1, 0x1_0000_0000_0000_0000_0000_0000_0000_0000_0000_0000_0000_0000_0000_0000_0000_0000), 0)
  {
    LeavesBlock(c, 8, 0, 0);
  }

  /** Leaving a block, passing q whole blocks and stopping r chunks into the next one. */
  lemma LeavesBlock(c: nat, chunks: nat, q: nat, r: nat)
    requires c < 0x1_0000_0000_0000_0000_0000_0000_0000_0000_0000_0000_0000_0000_0000_0000_0000_0000 && chunks <= 8 && q < 0x1_0000_0000_0000_0000 && r < 8
    ensures Steps(PositionAt(c, chunks), 8 - chunks + 8 * q + r) == PositionAt(Wrap(c + q + 1, 0x1_0000_0000_0000_0000_0000_0000_0000_0000_0000_0000_0000_0000_0000_0000_0000_0000), r)
  {
    StepsCompose(ORIGIN, 8 * c + chunks, 8 - chunks + 8 * q + r);
    var d := Wrap(c + q + 1, 0x1_0000_0000_0000_0000_0000_0000_0000_0000_0000_0000_0000_0000_0000_0000_0000_0000);
    StepsWrap(ORIGIN, 8 * d + r);
    if d != c + q + 1 {
      StepsWrap(ORIGIN, 0x8_0000_0000_0000_0000_0000_0000_0000_0000_0000_0000_0000_0000_0000_0000_0000_0000);
      StepsCompose(ORIGIN, 0x8_0000_0000_0000_0000_0000_0000_0000_0000_0000_0000_0000_0000_0000_0000_0000_0000, 8 * d + r);
    }
  }

  /** The engine's operator== compares fields. Two engines with one key stand at the same position,
      and so have the same future, when their fields agree or when one has used up a block and the
      other stands at the start of the next: in that case operator== calls equal streams different. */
  lemma SamePosition(s: Words, m: nat, t: Words, n: nat)
    requires m <= 8 && n <= 8
    ensures PositionAt(Counter(s), m) == PositionAt(Counter(t), n) <==>
      || (s == t && m == n)
      || (m == 8 && n == 0 && t == Incremented(s))
      || (n == 8 && m == 0 && s == Incremented(t))
  {
    IncrementedCounts(s);
    IncrementedCounts(t);
    CounterWordsOfCounter(s);
    CounterWordsOfCounter(t);
    CounterWordsOfCounter(Incremented(s));
    CounterWordsOfCounter(Incremented(t));
    CounterBound(s);
    CounterBound(t);
    SamePlace(Counter(s), m, Counter(t), n);
  }

  lemma SamePlace(c: nat, m: nat, d: nat, n: nat)
    requires c < 0x1_0000_0000_0000_0000_0000_0000_0000_0000_0000_0000_0000_0000_0000_0000_0000_0000 && d < 0x1_0000_0000_0000_0000_0000_0000_0000_0000_0000_0000_0000_0000_0000_0000_0000_0000 && m <= 8 && n <= 8
    ensures PositionAt(c, m) == PositionAt(d, n) <==>
      || (c == d && m == n)
      || (m == 8 && n == 0 && d == Wrap(c + 1, 0x1_0000_0000_0000_0000_0000_0000_0000_0000_0000_0000_0000_0000_0000_0000_0000_0000))
      || (n == 8 && m == 0 && c == Wrap(d + 1, 0x1_0000_0000_0000_0000_0000_0000_0000_0000_0000_0000_0000_0000_0000_0000_0000_0000))
  {
    PlaceInBlock(c, m);
    PlaceInBlock(d, n);
    var x, i := if m == 8 then Wrap(c + 1, 0x1_0000_0000_0000_0000_0000_0000_0000_0000_0000_0000_0000_0000_0000_0000_0000_0000) else c, if m == 8 then 0 else m;
    var y, j := if n == 8 then Wrap(d + 1, 0x1_0000_0000_0000_0000_0000_0000_0000_0000_0000_0000_0000_0000_0000_0000_0000_0000) else d, if n == 8 then 0 else n;
    SameBlock(x, i, y, j);
  }

  lemma PlaceInBlock(c: nat, m: nat)
    requires c < 0x1_0000_0000_0000_0000_0000_0000_0000_0000_0000_0000_0000_0000_0000_0000_0000_0000 && m <= 8
    ensures PositionAt(c, m)
         == if m == 8 then Pos(8 * Wrap(c + 1, 0x1_0000_0000_0000_0000_0000_0000_0000_0000_0000_0000_0000_0000_0000_0000_0000_0000)) else Pos(8 * c + m)
  {
    StepsWrap(ORIGIN, 8 * c + m);
  }

  lemma SameBlock(x: nat, i: nat, y: nat, j: nat)
    requires i < 8 && j < 8
    ensures 8 * x + i == 8 * y + j <==> x == y && i == j
  {
  }

  class PrngEngine {
    const cipher: Cipher
    var k: Words
    var s: Words
    var o: Words
    var oCounter: nat

    /** What the engine hands out from each position, and the position it has reached. */
    ghost var stream: Pos -> Chunk
    ghost var position: Pos

    /** The two ghost fields are functions of the real ones; the triggers keep the definitions out of
        proofs that only speak of the stream. */
    ghost predicate Valid()
      reads this
    {
      && oCounter <= 8
      && o == cipher(k, s)
      && (forall p {:trigger Output(cipher, k, p)} :: stream(p) == Output(cipher, k, p))
      && (forall c {:trigger PositionAt(c, oCounter)} :: c == Counter(s) ==> position == PositionAt(c, oCounter))
    }

    /** The seeding constructor. */
    constructor Seeded(cipher: Cipher, seed: Chunk)
      ensures Valid() && position == ORIGIN
      ensures stream == Stream(cipher, ZERO.(w0 := seed))
    {
      this.cipher := cipher;
      k := ZERO.(w0 := seed);
      s := ZERO;
      o := cipher(ZERO.(w0 := seed), ZERO);
      oCounter := 0;
      position := ORIGIN;
      stream := Stream(cipher, ZERO.(w0 := seed));
      CounterSum(ZERO);
    }

    /** The copy constructor. */
    constructor Copy(x: PrngEngine)
      requires x.Valid()
      ensures Valid() && cipher == x.cipher && stream == x.stream && position == x.position
    {
      cipher := x.cipher;
      k, s, o, oCounter := x.k, x.s, x.o, x.oCounter;
      stream, position := x.stream, x.position;
    }

    method Assign(x: PrngEngine)
      requires x.Valid() && x.cipher == cipher
      modifies this
      ensures Valid() && stream == old(x.stream) && position == old(x.position)
    {
      k, s, o, oCounter := x.k, x.s, x.o, x.oCounter;
      stream, position := x.stream, x.position;
    }

    method IncCounter()
      modifies `s
      ensures Counter(s) == Wrap(Counter(old(s)) + 1, 0x1_0000_0000_0000_0000_0000_0000_0000_0000_0000_0000_0000_0000_0000_0000_0000_0000)
    {
      IncrementedCounts(s);
      s := s.(w0 := Wrap(s.w0 + 1, 0x1_0000_0000_0000_0000));
      if s.w0 != 0 { return; }
      s := s.(w1 := Wrap(s.w1 + 1, 0x1_0000_0000_0000_0000));
      if s.w1 != 0 { return; }
      s := s.(w2 := Wrap(s.w2 + 1, 0x1_0000_0000_0000_0000));
      if s.w2 != 0 { return; }
      s := s.(w3 := Wrap(s.w3 + 1, 0x1_0000_0000_0000_0000));
    }

    method IncCounterBy(z: Word)
      modifies `s
      ensures Counter(s) == Wrap(Counter(old(s)) + z, 0x1_0000_0000_0000_0000_0000_0000_0000_0000_0000_0000_0000_0000_0000_0000_0000_0000)
    {
      AddedCounts(s, z);
      if z > 0xFFFF_FFFF_FFFF_FFFF - s.w0 {
        s := s.(w1 := Wrap(s.w1 + 1, 0x1_0000_0000_0000_0000));
        if s.w1 == 0 {
          s := s.(w2 := Wrap(s.w2 + 1, 0x1_0000_0000_0000_0000));
          if s.w2 == 0 {
            s := s.(w3 := Wrap(s.w3 + 1, 0x1_0000_0000_0000_0000));
          }
        }
      }
      s := s.(w0 := Wrap(s.w0 + z, 0x1_0000_0000_0000_0000));
    }

    /** Returns the next chunk of the current block. */
    method TakeChunk() returns (r: Chunk)
      requires Valid() && oCounter < 8
      modifies this
      ensures Valid() && stream == old(stream) && position == Step(old(position))
      ensures r == stream(old(position))
    {
      ghost var c := Counter(s);
      CounterBound(s);
      CounterWordsOfCounter(s);
      assert position == PositionAt(c, oCounter);
      OutputAt(cipher, k, c, oCounter);
      StepWithinBlock(c, oCounter);
      var oIndex := oCounter / 2;
      oCounter := oCounter + 1;
      if oCounter % 2 == 1 {
        r := Low(o.At(oIndex));
      } else {
        r := High(o.At(oIndex));
      }
      assert r == ChunkOf(o, old(oCounter));
      position := Step(position);
    }

    /** Encrypts the next counter and returns the first chunk of the new block. */
    method NewBlock() returns (r: Chunk)
      requires Valid() && oCounter == 8
      modifies this
      ensures Valid() && stream == old(stream) && position == Step(old(position))
      ensures r == stream(old(position))
    {
      ghost var p := position;
      CounterBound(s);
      assert p == PositionAt(Counter(s), oCounter);
      UsedUpBlock(Counter(s));
      IncCounter();
      BlockStarts(cipher, k, s);
      assert p == PositionAt(Counter(s), 0) && stream(p) == Output(cipher, k, p);
      o := cipher(k, s);
      oCounter := 1;
      r := Low(o.At(0));
      position := Step(p);
    }

    /** One call of the engine. */
    method Next() returns (r: Chunk)
      requires Valid()
      modifies this
      ensures Valid() && stream == old(stream)
      ensures r == stream(old(position))
      ensures position == Step(old(position))
    {
      if oCounter < 8 {
        r := TakeChunk();
      } else {
        r := NewBlock();
      }
    }

    /** Skips z outputs: the engine ends where z single calls would have left it. */
    method Discard(z: Word)
      requires Valid()
      modifies this
      ensures Valid() && stream == old(stream)
      ensures position == Steps(old(position), z)
    {
      ghost var c, p := Counter(s), position;
      CounterBound(s);
      assert p == PositionAt(c, oCounter);
      position := Steps(position, z);
      if z < 8 - oCounter {
        StepsCompose(ORIGIN, 8 * c + oCounter, z);
        oCounter := oCounter + z;
        assert position == PositionAt(c, oCounter);
        return;
      }
      var y := z - (8 - oCounter);
      ghost var whole, part := y / 8, y % 8;
      LeavesBlock(c, oCounter, whole, part);
      assert z == 8 - oCounter + 8 * whole + part;
      oCounter := y % 8;
      y := y - oCounter;
      y := y / 8;
      y := y + 1;
      assert y == whole + 1;
      IncCounterBy(y);
      o := cipher(k, s);
      assert position == PositionAt(Counter(s), oCounter);
    }
  }
}
