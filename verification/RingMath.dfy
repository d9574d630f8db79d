/** Positions in a ring: REL_POS, the remainder of an absolute position. */
module RingMath {

  /** The slot of absolute position i in a ring of s slots, by going round. */
  function Slot(i: nat, s: nat): (r: nat)
    requires 0 < s
    ensures r < s
  {
    if i < s then i else Slot(i - s, s)
  }

  lemma {:induction false} SlotIsRemainder(i: nat, s: nat)
    requires 0 < s
    ensures Slot(i, s) == i % s
  {
    if i >= s {
      SlotIsRemainder(i - s, s);
      var q, r := (i - s) / s, (i - s) % s;
      assert (q + 1) * s == q * s + s;
      RemainderUnique(i, q + 1, s, r);
    }
  }

  lemma RemainderUnique(x: int, q: int, s: nat, r: nat)
    requires r < s && x == q * s + r
    ensures x % s == r
  {
    var q', r' := x / s, x % s;
    assert x == q' * s + r';
    assert (q - q') * s == r' - r;
    assert q - q' >= 1 ==> (q - q') * s >= s;
    assert q - q' <= -1 ==> (q - q') * s <= -1 * s;
  }

  function Wrap(i: nat, s: nat): (r: nat)
    requires i < 2 * s
    ensures r < s
  {
    if i < s then i else i - s
  }

  /** Adding at most one turn to a position. */
  lemma {:induction false} SlotAdd(b: nat, k: nat, s: nat)
    requires 0 < s && k <= s
    ensures Slot(b + k, s) == Wrap(Slot(b, s) + k, s)
  {
    if b >= s {
      SlotAdd(b - s, k, s);
      assert b + k - s == b - s + k;
    } else if b + k >= s {
      assert Slot(b + k, s) == Slot(b + k - s, s);
    }
  }

  /** Positions less than one turn apart have distinct slots. */
  lemma SlotDistinct(i: nat, j: nat, s: nat)
    requires 0 < s && i < j < i + s
    ensures Slot(i, s) != Slot(j, s)
  {
    SlotAdd(i, j - i, s);
  }
}
