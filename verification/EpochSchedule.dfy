/** Which batches are followed by a run of the algorithms. Quotients are exact rationals here. */
module EpochSchedule {
  import opened Modular

  function RoundDown(x: real): int { x.Floor }

  function TrueDiv(x: int, y: int): real
    requires y != 0
  {
    x as real / y as real
  }

  /** How many epochs should have run before batch b. */
  function Due(b: nat, numBatches: nat, numEpochs: nat): int
    requires numBatches >= 1 && numEpochs >= 1
  {
    var batchesPerEpoch := TrueDiv(numBatches, numEpochs);
    assert batchesPerEpoch > 0.0;
    RoundDown(b as real / batchesPerEpoch)
  }

  predicate EnableAlgsForBatch(b: nat, numBatches: nat, numEpochs: nat)
    requires numBatches >= 1 && numEpochs >= 1
  {
    Due(b + 1, numBatches, numEpochs) - Due(b, numBatches, numEpochs) > 0
  }

  /** The epochs that run during the first n batches. */
  function EpochsRun(n: nat, numBatches: nat, numEpochs: nat): nat
    requires numBatches >= 1 && numEpochs >= 1
  {
    if n == 0 then 0
    else EpochsRun(n - 1, numBatches, numEpochs) + if EnableAlgsForBatch(n - 1, numBatches, numEpochs) then 1 else 0
  }

  lemma QuotientOfQuotient(b: real, n: real, e: real)
    requires n > 0.0 && e > 0.0
    ensures n / e > 0.0 && b / (n / e) == b * e / n
  {
    var d := n / e;
    assert d * e == n;
    assert d > 0.0;
    var x := b / d;
    assert x * d == b;
    assert x * n == x * (d * e) == (x * d) * e == b * e;
  }

  /** The rounded quotient of quotients is one integer division. */
  lemma DueIsDivision(b: nat, numBatches: nat, numEpochs: nat)
    requires numBatches >= 1 && numEpochs >= 1
    ensures Due(b, numBatches, numEpochs) == b * numEpochs / numBatches
  {
    QuotientOfQuotient(b as real, numBatches as real, numEpochs as real);
    FloorOfDivision(b * numEpochs, numBatches);
    assert (b * numEpochs) as real == b as real * numEpochs as real;
  }

  lemma FloorOfDivision(x: nat, n: nat)
    requires n >= 1
    ensures (x as real / n as real).Floor == x / n
  {
    var q, r := x / n, x % n;
    assert (q * n) as real == q as real * n as real;
    assert x as real == q as real * n as real + r as real;
    RealQuotient(q as real, r as real, n as real);
    assert x as real / n as real == q as real + r as real / n as real;
  }

  lemma RealQuotient(q: real, r: real, n: real)
    requires 0.0 <= r < n
    ensures (q * n + r) / n == q + r / n
    ensures 0.0 <= r / n < 1.0
  {
    var f := r / n;
    assert f * n == r;
    assert (q + f) * n == q * n + r;
  }

  lemma DivisionStep(x: nat, d: nat, n: nat)
    requires n >= 1 && d <= n
    ensures x / n <= (x + d) / n <= x / n + 1
  {
    var q, r := x / n, x % n;
    if r + d < n {
      DivModUnique(x + d, n, q, r + d);
    } else {
      DivModUnique(x + d, n, q + 1, r + d - n);
    }
  }

  /** After n batches exactly the share n / numBatches of the epochs has run, rounded down. */
  lemma {:induction false} EpochsRunOnTime(n: nat, numBatches: nat, numEpochs: nat)
    requires 1 <= numEpochs <= numBatches
    ensures EpochsRun(n, numBatches, numEpochs) == n * numEpochs / numBatches
  {
    if n > 0 {
      EpochsRunOnTime(n - 1, numBatches, numEpochs);
      DueIsDivision(n - 1, numBatches, numEpochs);
      DueIsDivision(n, numBatches, numEpochs);
      assert n * numEpochs == (n - 1) * numEpochs + numEpochs;
      DivisionStep((n - 1) * numEpochs, numEpochs, numBatches);
    } else {
      assert 0 * numEpochs == 0;
    }
  }

  lemma {:induction false} AtMostOneEach(n: nat, numBatches: nat, numEpochs: nat)
    requires numBatches >= 1 && numEpochs >= 1
    ensures EpochsRun(n, numBatches, numEpochs) <= n
  {
    if n > 0 { AtMostOneEach(n - 1, numBatches, numEpochs); }
  }

  /** The share of the epochs that n batches make up, rounded down. */
  function Share(n: nat, numBatches: nat, numEpochs: nat): nat
    requires numBatches >= 1
  {
    n * numEpochs / numBatches
  }

  /** A batch is followed by an epoch exactly when the share goes up there, and then it goes up by one. */
  lemma EnabledWhenShareGrows(b: nat, numBatches: nat, numEpochs: nat)
    requires 1 <= numEpochs <= numBatches
    ensures Share(b + 1, numBatches, numEpochs)
         == Share(b, numBatches, numEpochs) + if EnableAlgsForBatch(b, numBatches, numEpochs) then 1 else 0
    ensures b < numBatches ==> Share(b + 1, numBatches, numEpochs) <= numEpochs
  {
    EpochsRunOnTime(b, numBatches, numEpochs);
    EpochsRunOnTime(b + 1, numBatches, numEpochs);
    if b < numBatches { NeverTooMany(b + 1, numBatches, numEpochs); }
  }

  lemma ShareEnds(numBatches: nat, numEpochs: nat)
    requires 1 <= numEpochs <= numBatches
    ensures Share(0, numBatches, numEpochs) == 0 && Share(numBatches, numBatches, numEpochs) == numEpochs
  {
    DivModUnique(0 * numEpochs, numBatches, 0, 0);
    DivModUnique(numBatches * numEpochs, numBatches, numEpochs, 0);
  }

  /** A schedule and a table of how many epochs are due after each number of batches. */
  datatype Table = Table(numBatches: nat, numEpochs: nat, due: nat -> nat)

  /** The table lists the shares. The trigger keeps the division out of proofs that only use the table. */
  ghost predicate IsCalendar(c: Table) {
    && 1 <= c.numEpochs <= c.numBatches && c.due(0) == 0 && c.due(c.numBatches) == c.numEpochs
    && forall n: nat {:trigger Share(n, c.numBatches, c.numEpochs)} :: c.due(n) == Share(n, c.numBatches, c.numEpochs)
  }

  type Calendar = c: Table | IsCalendar(c) ghost witness Table(1, 1, (n: nat) => Share(n, 1, 1))

  ghost function CalendarOf(numBatches: nat, numEpochs: nat): (c: Calendar)
    requires 1 <= numEpochs <= numBatches
    ensures c.numBatches == numBatches && c.numEpochs == numEpochs
  {
    ShareEnds(numBatches, numEpochs);
    Table(numBatches, numEpochs, (n: nat) => Share(n, numBatches, numEpochs))
  }

  lemma NeverTooMany(n: nat, numBatches: nat, numEpochs: nat)
    requires 1 <= numEpochs <= numBatches && n <= numBatches
    ensures EpochsRun(n, numBatches, numEpochs) <= numEpochs
  {
    EpochsRunOnTime(n, numBatches, numEpochs);
    NonNegativeProduct(n, numEpochs);
    ProductGrows(n, numBatches, numEpochs);
    assert (numEpochs + 1) * numBatches == numBatches * numEpochs + numBatches;
    QuotientBelow(n * numEpochs, numBatches, numEpochs + 1);
  }

  lemma AllRunInTheEnd(numBatches: nat, numEpochs: nat)
    requires 1 <= numEpochs <= numBatches
    ensures EpochsRun(numBatches, numBatches, numEpochs) == numEpochs
  {
    EpochsRunOnTime(numBatches, numBatches, numEpochs);
    DivModUnique(numBatches * numEpochs, numBatches, numEpochs, 0);
  }

  lemma OneIsLeftForTheLast(numBatches: nat, numEpochs: nat)
    requires 1 <= numEpochs <= numBatches
    ensures EpochsRun(numBatches - 1, numBatches, numEpochs) < numEpochs
  {
    EpochsRunOnTime(numBatches - 1, numBatches, numEpochs);
    assert (numBatches - 1) * numEpochs == numEpochs * numBatches - numEpochs;
    NonNegativeProduct(numBatches - 1, numEpochs);
    QuotientBelow((numBatches - 1) * numEpochs, numBatches, numEpochs);
  }

  /** A whole run has the asked-for number of epochs exactly when there are batches enough for them;
      then the count never gets past it, and the last batch is followed by an epoch. */
  lemma AllEpochsRunIff(numBatches: nat, numEpochs: nat)
    requires numBatches >= 1 && numEpochs >= 1
    ensures EpochsRun(numBatches, numBatches, numEpochs) == numEpochs <==> numEpochs <= numBatches
    ensures numEpochs <= numBatches ==> EnableAlgsForBatch(numBatches - 1, numBatches, numEpochs)
    ensures numEpochs <= numBatches ==>
      forall n: nat :: n <= numBatches ==> EpochsRun(n, numBatches, numEpochs) <= numEpochs
  {
    AtMostOneEach(numBatches, numBatches, numEpochs);
    if numEpochs <= numBatches {
      AllRunInTheEnd(numBatches, numEpochs);
      OneIsLeftForTheLast(numBatches, numEpochs);
      forall n: nat | n <= numBatches
        ensures EpochsRun(n, numBatches, numEpochs) <= numEpochs
      {
        NeverTooMany(n, numBatches, numEpochs);
      }
    }
  }

  /** One batch is followed by one epoch, not by two. */
  lemma OneBatchOneEpoch()
    ensures EpochsRun(1, 1, 2) == 1 < 2
  {
    DueIsDivision(0, 1, 2);
    DueIsDivision(1, 1, 2);
    assert EpochsRun(0, 1, 2) == 0;
  }

  lemma QuotientBelow(x: nat, n: nat, q: nat)
    requires n >= 1 && x < q * n
    ensures x / n < q
  {
    var y := x / n;
    assert x == y * n + x % n;
    if y >= q { ProductGrows(q, y, n); }
  }

  /** b and c are batches with an epoch after them and none in between. */
  predicate Consecutive(b: nat, c: nat, numBatches: nat, numEpochs: nat)
    requires numBatches >= 1 && numEpochs >= 1
  {
    && b < c && EnableAlgsForBatch(b, numBatches, numEpochs) && EnableAlgsForBatch(c, numBatches, numEpochs)
    && EpochsRun(c, numBatches, numEpochs) == EpochsRun(b + 1, numBatches, numEpochs)
  }

  /** Consecutive epochs are numBatches / numEpochs batches apart, rounded down or up. */
  lemma EvenlySpaced(b: nat, c: nat, numBatches: nat, numEpochs: nat)
    requires 1 <= numEpochs <= numBatches && Consecutive(b, c, numBatches, numEpochs)
    ensures c - b == numBatches / numEpochs || c - b == (numBatches + numEpochs - 1) / numEpochs
  {
    EpochsRunOnTime(b, numBatches, numEpochs);
    EpochsRunOnTime(b + 1, numBatches, numEpochs);
    EpochsRunOnTime(c, numBatches, numEpochs);
    EpochsRunOnTime(c + 1, numBatches, numEpochs);
    var q := (b + 1) * numEpochs / numBatches;
    GapBounds(b, c, numBatches, numEpochs, q);
    GapIsRounded(c - b, numBatches, numEpochs);
  }

  /** From b*e < q*n <= (b+1)*e and c*e < (q+1)*n <= (c+1)*e. */
  lemma GapBounds(b: nat, c: nat, n: nat, e: nat, q: nat)
    requires 1 <= e <= n && b < c
    requires b * e / n == q - 1 && (b + 1) * e / n == q && c * e / n == q && (c + 1) * e / n == q + 1
    ensures n - e < (c - b) * e < n + e
  {
    assert b * e < q * n && (b + 1) * e >= q * n;
    assert c * e < (q + 1) * n && (c + 1) * e >= (q + 1) * n;
    assert (c - b) * e == c * e - b * e;
  }

  lemma GapIsRounded(g: nat, n: nat, e: nat)
    requires 1 <= e <= n && n - e < g * e < n + e
    ensures g == n / e || g == (n + e - 1) / e
  {
    if g * e <= n {
      DivModUnique(n, e, g, n - g * e);
    } else {
      DivModUnique(n + e - 1, e, g, n + e - 1 - g * e);
    }
  }
}
