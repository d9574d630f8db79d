/** The two rings behind the log: raft_log.c's growable ring with absolute positions, and
    circular_log.h's fixed persistent ring, which the callbacks of cyclone.cpp drive. */
module Rings {
  import opened RingMath

  // ----- the persistent ring -----

  /** The n elements of a ring from slot p on. */
  function Window<T>(ring: seq<T>, p: nat, n: nat): (w: seq<T>)
    requires p < |ring| && n <= |ring|
    ensures |w| == n && forall k :: 0 <= k < n ==> w[k] == ring[Wrap(p + k, |ring|)]
  {
    seq(n, k requires 0 <= k < n => ring[Wrap(p + k, |ring|)])
  }

  class CircularLog<T(0)> {
    const slots: array<T>
    var head: nat
    var tail: nat

    ghost predicate Valid()
      reads this
    {
      head < slots.Length && tail < slots.Length
    }

    function Length(): nat
      requires Valid()
      reads this
    {
      if head <= tail then tail - head else tail + slots.Length - head
    }

    /** Head to tail. */
    ghost function Contents(): (c: seq<T>)
      requires Valid()
      reads this, slots
    {
      Window(slots[..], head, Length())
    }

    constructor (n: nat)
      requires 0 < n
      ensures Valid() && slots.Length == n && fresh(slots) && Contents() == []
    {
      slots := new T[n];
      head, tail := 0, 0;
    }

    /** Writes at a tail of the caller's and returns the next one; -1 when that would
        make the ring full. */
    method Offer(x: T, at: nat) returns (next: int)
      requires Valid() && at < slots.Length
      modifies slots
      ensures slots[..] == old(slots[..])[at := x]
      ensures next == if Wrap(at + 1, slots.Length) == head then -1 else Wrap(at + 1, slots.Length)
    {
      slots[at] := x;
      next := at + 1;
      if next == slots.Length {
        next := 0;
      }
      if next == head {
        next := -1;
      }
    }

    method PollBatch(cnt: nat)
      requires Valid() && cnt <= Length()
      modifies this
      ensures Valid() && Contents() == old(Contents())[cnt..] && Length() == old(Length()) - cnt
    {
      var newHead := head + cnt;
      if newHead >= slots.Length {
        newHead := newHead - slots.Length;
      }
      head := newHead;
      WindowDrop(slots[..], old(head), old(Length()), cnt);
    }

    method Pop()
      requires Valid() && 0 < Length()
      modifies this
      ensures Valid() && Length() == old(Length()) - 1
      ensures Contents() == old(Contents())[..old(Length()) - 1]
    {
      if tail == 0 {
        tail := slots.Length - 1;
      } else {
        tail := tail - 1;
      }
    }

    method Persist(newTail: nat)
      requires Valid() && newTail < slots.Length
      modifies this
      ensures Valid() && tail == newTail && head == old(head)
    {
      tail := newTail;
    }

    /** The log-offer callback: all entries, then the tail; false when the ring fills
        up, which ends the process. */
    method OfferBatch(es: seq<T>) returns (ok: bool)
      requires Valid()
      modifies this, slots
      ensures ok <==> old(Length()) + |es| < slots.Length
      ensures ok ==> Valid() && Contents() == old(Contents()) + es && Length() == old(Length()) + |es|
    {
      var t := tail;
      ghost var n0 := Length();
      for i := 0 to |es|
        invariant Valid() && t < slots.Length && head == old(head) && tail == old(tail)
        invariant n0 + i < slots.Length && t == Wrap(head + n0 + i, slots.Length)
        invariant Window(slots[..], head, n0 + i) == old(Contents()) + es[..i]
      {
        ghost var before := slots[..];
        var next := Offer(es[i], t);
        WindowGrow(before, head, n0 + i, es[i]);
        if next == -1 {
          return false;
        }
        t := next;
        assert es[..i] + [es[i]] == es[..i + 1];
      }
      Persist(t);
      assert es[..|es|] == es;
      ok := true;
    }
  }

  /** Writing just after the window extends it. */
  lemma WindowGrow<T>(ring: seq<T>, p: nat, n: nat, x: T)
    requires p < |ring| && n < |ring|
    ensures Window(ring[Wrap(p + n, |ring|) := x], p, n + 1) == Window(ring, p, n) + [x]
  {
    var ring' := ring[Wrap(p + n, |ring|) := x];
    forall k | 0 <= k < n + 1
      ensures Window(ring', p, n + 1)[k] == (Window(ring, p, n) + [x])[k]
    {
      assert k < n ==> Wrap(p + k, |ring|) != Wrap(p + n, |ring|);
    }
  }

  lemma WindowDrop<T>(ring: seq<T>, p: nat, n: nat, cnt: nat)
    requires p < |ring| && cnt <= n < |ring|
    ensures Window(ring, Wrap(p + cnt, |ring|), n - cnt) == Window(ring, p, n)[cnt..]
  {
    forall k | 0 <= k < n - cnt
      ensures Window(ring, Wrap(p + cnt, |ring|), n - cnt)[k] == Window(ring, p, n)[cnt..][k]
    {
      assert Wrap(Wrap(p + cnt, |ring|) + k, |ring|) == Wrap(p + (cnt + k), |ring|);
    }
  }
}
