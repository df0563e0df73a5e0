/** Products and quotients of numbers, for the round robin and the time windows. */
module Arithmetic {

  lemma ProductGrows(a: int, b: int, factor: nat)
    requires a <= b
    ensures a * factor <= b * factor
  {
  }

  lemma Distributes(a: int, b: int, factor: int)
    ensures a * factor + b * factor == (a + b) * factor
  {
  }

  lemma FactorsOrder(a: int, b: int, factor: nat)
    requires a * factor < b * factor
    ensures a < b
  {
    if a >= b { ProductGrows(b, a, factor); }
  }

  lemma FloorBounds(x: nat, length: nat)
    requires length > 0
    ensures (x / length) * length <= x < (x / length + 1) * length
  {
    assert x == (x / length) * length + x % length;
    Distributes(x / length, 1, length);
  }

  lemma QuotientsGrow(x: nat, y: nat, length: nat)
    requires length > 0 && x <= y
    ensures x / length <= y / length
  {
    var a, b := x / length, y / length;
    FloorBounds(x, length);
    FloorBounds(y, length);
    FactorsOrder(a, b + 1, length);
  }

  /** The quotient and remainder of a division are the only ones. */
  lemma RemainderIsUnique(t: nat, length: nat, q: nat, m: nat)
    requires length > 0 && t == q * length + m && m < length
    ensures t / length == q && t % length == m
  {
    var p := t / length;
    FloorBounds(t, length);
    Distributes(q, 1, length);
    FactorsOrder(p, q + 1, length);
    FactorsOrder(q, p + 1, length);
  }
}
