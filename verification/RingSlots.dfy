/**
 Cell indexing of the ring (cpp/include/infersched/concurrency/mpsc_ring.hpp): capacities are powers of
 two, and masking a position is taking its remainder.
 */
module RingSlots {
  function Pow2(k: nat): (r: nat)
    ensures r > 0
  {
    if k == 0 then 1 else 2 * Pow2(k - 1)
  }

  /** Bitwise conjunction. */
  function And(a: nat, b: nat): nat {
    if a == 0 || b == 0 then 0
    else (if a % 2 == 1 && b % 2 == 1 then 1 else 0) + 2 * And(a / 2, b / 2)
  }

  predicate HasSingleBit(n: nat) {
    n == 1 || (n > 1 && n % 2 == 0 && HasSingleBit(n / 2))
  }

  lemma {:induction false} SingleBitIsPower(n: nat) returns (k: nat)
    requires HasSingleBit(n)
    ensures n == Pow2(k)
  {
    if n == 1 {
      k := 0;
    } else {
      k := SingleBitIsPower(n / 2);
      k := k + 1;
    }
  }

  lemma {:induction false} PowerIsSingleBit(k: nat)
    ensures HasSingleBit(Pow2(k))
  {
    if k > 0 {
      PowerIsSingleBit(k - 1);
    }
  }

  lemma Lap(c: nat, x: nat, y: nat)
    requires x < y
    ensures c * y >= c * x + c
  {
    var d := y - x - 1;
    assert c * y == c * x + c * d + c;
  }

  lemma RemainderIs(p: nat, c: nat, q: nat, r: nat)
    requires 0 <= r < c && p == c * q + r
    ensures p % c == r && p / c == q
  {
    var q' := p / c;
    assert p == c * q' + p % c;
    if q' > q {
      Lap(c, q, q');
    } else if q' < q {
      Lap(c, q', q);
    }
  }

  lemma HalveRemainder(p: nat, c: nat)
    requires c > 0
    ensures p % (2 * c) == 2 * (p / 2 % c) + p % 2
  {
    var h := p / 2;
    var q, r := h / c, h % c;
    assert h == c * q + r;
    assert (2 * c) * q == 2 * (c * q);
    RemainderIs(p, 2 * c, q, 2 * r + p % 2);
  }

  lemma AndOdd(p: nat, c: nat)
    requires c > 0
    ensures And(p, 2 * c - 1) == p % 2 + 2 * And(p / 2, c - 1)
  {
    assert (2 * c - 1) / 2 == c - 1 && (2 * c - 1) % 2 == 1;
  }

  /** Masking with a power of two less one is the remainder. */
  lemma {:induction false} MaskIsRemainder(p: nat, k: nat)
    ensures And(p, Pow2(k) - 1) == p % Pow2(k)
  {
    if k > 0 {
      hide And;
      MaskIsRemainder(p / 2, k - 1);
      AndOdd(p, Pow2(k - 1));
      HalveRemainder(p, Pow2(k - 1));
    }
  }

  /** The cell that a position uses: `position & mask`. */
  function Slot(capacity: nat, position: nat): (slot: nat)
    requires HasSingleBit(capacity)
    ensures slot < capacity
  {
    MaskBound(capacity, position);
    And(position, capacity - 1)
  }

  lemma MaskBound(capacity: nat, position: nat)
    requires HasSingleBit(capacity)
    ensures And(position, capacity - 1) == position % capacity
  {
    var k := SingleBitIsPower(capacity);
    MaskIsRemainder(position, k);
  }

  lemma SlotIsRemainder(capacity: nat, position: nat)
    requires HasSingleBit(capacity)
    ensures Slot(capacity, position) == position % capacity
  {
    MaskBound(capacity, position);
  }

  lemma SlotWraps(capacity: nat, p: nat)
    requires HasSingleBit(capacity)
    ensures Slot(capacity, p + capacity) == Slot(capacity, p)
  {
    hide Slot, HasSingleBit;
    SlotIsRemainder(capacity, p);
    SlotIsRemainder(capacity, p + capacity);
    RemainderIs(p + capacity, capacity, p / capacity + 1, p % capacity);
  }

  /** Positions less than a lap apart use different cells. */
  lemma SlotsDiffer(capacity: nat, p: nat, q: nat)
    requires HasSingleBit(capacity) && p < q < p + capacity
    ensures Slot(capacity, p) != Slot(capacity, q)
  {
    hide Slot, HasSingleBit;
    SlotIsRemainder(capacity, p);
    SlotIsRemainder(capacity, q);
    var x, y, r := p / capacity, q / capacity, p % capacity;
    assert p == capacity * x + r && q == capacity * y + q % capacity;
    if y > x {
      Lap(capacity, x, y);
    } else if x > y {
      Lap(capacity, y, x);
    }
  }

  /** The position of the lap starting at `lo` that shares a cell with `p`. */
  function Representative(capacity: nat, lo: nat, p: nat): (r: nat)
    requires HasSingleBit(capacity) && p <= lo + capacity
    ensures lo <= r < lo + capacity
    ensures p < lo ==> r > p
    ensures lo <= p < lo + capacity ==> r == p
    decreases lo + capacity - p
  {
    if p == lo + capacity then lo else if p >= lo then p
    else Representative(capacity, lo, p + capacity)
  }

  lemma {:induction false} RepresentativeSlot(capacity: nat, lo: nat, p: nat)
    requires HasSingleBit(capacity) && p <= lo + capacity
    ensures Slot(capacity, Representative(capacity, lo, p)) == Slot(capacity, p)
    decreases lo + capacity - p
  {
    hide Slot;
    if p == lo + capacity {
      SlotWraps(capacity, lo);
    } else if p < lo {
      SlotWraps(capacity, p);
      RepresentativeSlot(capacity, lo, p + capacity);
    }
  }
}
