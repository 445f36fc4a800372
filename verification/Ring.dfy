/**
  Arithmetic of a circular buffer. The C code writes `x % n` for values that never leave
  [0, 2n); Wrap is that remainder without `%`, so that no other proof has to reason about it.
 */
module Ring {

  /** `x % n` where x is at most one turn ahead. */
  function Wrap(x: int, n: int): (r: int) {
    if x < n then x else x - n
  }

  lemma WrapIsRemainder(x: int, n: int)
    requires 0 < n && 0 <= x < 2 * n
    ensures Wrap(x, n) == x % n
  {
    var q, r := x / n, x % n;
    assert x == q * n + r;
  }

  /** The array index that is k places after `start` in a buffer of n cells. */
  function Slot(start: int, k: int, n: int): (r: int) {
    Wrap(start + k, n)
  }

  /** Stepping forwards and backwards through the ring, as the C loops do. */
  lemma SlotNeighbours(start: int, k: int, n: int)
    requires 0 <= start < n && 0 <= k < n
    ensures 0 <= Slot(start, k, n) < n && 0 <= Slot(start, k + 1, n) < n
    ensures Wrap(Slot(start, k, n) + 1, n) == Slot(start, k + 1, n)
    ensures Wrap(Slot(start, k + 1, n) - 1 + n, n) == Slot(start, k, n)
  {
  }

  /** Starting one cell earlier moves every logical position up by one. */
  lemma SlotFromBefore(start: int, k: int, n: int)
    requires 0 <= start < n && 0 <= k < n
    ensures var before := Wrap(start - 1 + n, n);
            && 0 <= before < n && Slot(before, 1, n) == start
            && Slot(before, k + 1, n) == Slot(start, k, n)
  {
  }

  /** Starting one cell later moves every logical position down by one. */
  lemma SlotFromNext(start: int, k: int, n: int)
    requires 0 <= start < n && 0 <= k < n
    ensures 0 <= Wrap(start + 1, n) < n && Slot(Wrap(start + 1, n), k, n) == Slot(start, k + 1, n)
  {
  }

  /** How many places after `start` the array index i lies: the inverse of Slot. */
  function Distance(start: int, i: int, n: int): (d: int) {
    if i >= start then i - start else i - start + n
  }
}
