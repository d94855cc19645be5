/** Facts about division and remainder that the engine arithmetic needs for its large moduli. */
module Modular {

  lemma NonNegativeProduct(x: int, y: int)
    requires x >= 0 && y >= 0
    ensures x * y >= 0
  {
  }

  lemma ProductGrows(x: int, y: int, z: int)
    requires x <= y && z >= 0
    ensures x * z <= y * z
  {
    NonNegativeProduct(y - x, z);
    assert (y - x) * z == y * z - x * z;
  }

  /** Quotient and remainder are unique. */
  lemma DivModUnique(x: int, m: int, q: int, r: int)
    requires m > 0 && x == q * m + r && 0 <= r < m
    ensures x / m == q && x % m == r
  {
    var d := x / m - q;
    assert d * m == r - x % m;
    assert d >= 1 ==> d * m >= m;
    assert d <= -1 ==> d * m <= -m;
  }

  lemma ModAddMod(x: int, y: int, m: int)
    requires m > 0
    ensures (x % m + y) % m == (x + y) % m
  {
    var s := x % m + y;
    assert x + y == (x / m) * m + s;
    assert x + y == (x / m + s / m) * m + s % m;
    DivModUnique(x + y, m, x / m + s / m, s % m);
  }

  lemma ModMulMod(x: int, y: int, m: int)
    requires m > 0
    ensures (x % m) * y % m == x * y % m
  {
    var s := (x % m) * y;
    assert x * y == (x / m) * m * y + s;
    assert (x / m) * m * y == ((x / m) * y) * m;
    DivModUnique(x * y, m, (x / m) * y + s / m, s % m);
  }
}
