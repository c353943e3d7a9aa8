/** Integer facts that the solver needs spelled out. */
module Arithmetic {

  function Min(a: int, b: int): (r: int)
    ensures r <= a && r <= b && (r == a || r == b)
  {
    if a <= b then a else b
  }

  lemma MulMonotone(a: nat, x: nat, y: nat)
    requires x <= y
    ensures a * x <= a * y
  {
    assert a * y == a * x + a * (y - x);
  }

  lemma QuotientBounds(room: nat, d: nat)
    requires d > 0
    ensures d * (room / d) <= room < d * (room / d) + d
  {
    assert room == d * (room / d) + room % d;
  }
}
