/** Division with remainder, shared by the other modules. */
module Quotients {
  lemma Unique(x: nat, size: nat, q: nat, r: nat)
    requires size > 0 && x == q * size + r && r < size
    ensures x / size == q && x % size == r
  {
    var d := x / size - q;
    assert d * size == x / size * size - q * size;
    assert x == x / size * size + x % size;
    assert (d >= 1 ==> d * size >= size) && (d <= -1 ==> d * size + size <= 0);
  }

  lemma Bounds(x: nat, size: nat)
    requires size > 0
    ensures x / size * size <= x < (x / size + 1) * size
  {
    assert x == x / size * size + x % size;
  }

  lemma ModShift(x: nat, size: nat)
    requires size > 0
    ensures (x + size) % size == x % size && (x + size) / size == x / size + 1
  {
    Unique(x + size, size, x / size + 1, x % size);
  }
}
