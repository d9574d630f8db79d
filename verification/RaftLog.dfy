/** raft_log.c over its array, with the callbacks that keep the persistent ring in step. */
module RaftLog {
  import opened LogModel
  import opened RingMath
  import opened Rings

  /** The entries at absolute positions front .. front+n of a ring. */
  function Span<T>(ring: seq<T>, front: nat, n: nat): (w: seq<T>)
    requires 0 < |ring|
    ensures |w| == n && forall k :: 0 <= k < n ==> w[k] == ring[Slot(front + k, |ring|)]
  {
    seq(n, k requires 0 <= k < n => ring[Slot(front + k, |ring|)])
  }

  /** Two rings hold the same entry at every position from `front` up to `to`. */
  ghost predicate SameSpan<T>(a: seq<T>, b: seq<T>, front: nat, to: nat)
    requires 0 < |a| && 0 < |b|
  {
    forall j :: front <= j < to ==> a[Slot(j, |a|)] == b[Slot(j, |b|)]
  }

  lemma SameSpanSpan<T>(a: seq<T>, b: seq<T>, front: nat, n: nat)
    requires 0 < |a| && 0 < |b| && SameSpan(a, b, front, front + n)
    ensures Span(a, front, n) == Span(b, front, n)
  {
    forall k | 0 <= k < n
      ensures Span(a, front, n)[k] == Span(b, front, n)[k]
    {
      assert a[Slot(front + k, |a|)] == b[Slot(front + k, |b|)];
    }
  }

  /** Writing position i leaves the other positions within one turn alone. */
  lemma WriteOne<T>(a: seq<T>, front: nat, i: nat, x: T)
    requires 0 < |a| && front <= i < front + |a|
    ensures forall j :: front <= j < i ==> a[Slot(i, |a|) := x][Slot(j, |a|)] == a[Slot(j, |a|)]
  {
    forall j | front <= j < i
      ensures Slot(j, |a|) != Slot(i, |a|)
    {
      SlotDistinct(j, i, |a|);
    }
  }

  /** Slot x is one of the n slots from `start` on, going round. */
  ghost predicate InRun(x: nat, start: nat, n: nat, size: nat) {
    start <= x < start + n || x + size < start + n
  }

  /** The array a' is a with the batch written from position `back` on, going round. */
  ghost predicate Written<T>(a: seq<T>, a': seq<T>, back: nat, es: seq<T>)
    requires 0 < |a| && |es| <= |a|
  {
    && |a'| == |a|
    && (forall k :: 0 <= k < |es| ==> a'[Wrap(Slot(back, |a|) + k, |a|)] == es[k])
    && (forall x :: 0 <= x < |a| && !InRun(x, Slot(back, |a|), |es|, |a|) ==> a'[x] == a[x])
  }

  lemma WrittenNew<T>(a: seq<T>, a': seq<T>, back: nat, es: seq<T>, k: nat)
    requires 0 < |a| && |es| <= |a| && Written(a, a', back, es) && k < |es|
    ensures a'[Slot(back + k, |a|)] == es[k]
  {
    SlotAdd(back, k, |a|);
  }

  lemma WrittenOld<T>(a: seq<T>, a': seq<T>, back: nat, es: seq<T>, i: nat)
    requires 0 < |a| && |es| <= |a| && Written(a, a', back, es) && i < back && back + |es| <= i + |a|
    ensures a'[Slot(i, |a|)] == a[Slot(i, |a|)]
  {
    NotInRun(i, back, |es|, |a|);
  }

  /** REL_POS of the last of n positions from i on. The position before 0 has remainder
      -1, as in C. */
  function LastSlot(i: nat, n: nat, size: nat): int
    requires 0 < size
  {
    if i + n == 0 then -1 else Slot(i + n - 1, size)
  }

  /** A position, other than the very first, at which the ring starts again. */
  predicate BeginsTurn(i: nat, size: nat)
    requires 0 < size
  {
    0 < i && Slot(i, size) == 0
  }

  /** The test for a split, on the last slot, is right for every run but the empty one. */
  lemma RunEnd(i: nat, n: nat, size: nat)
    requires 0 < size && n <= size
    ensures 0 < n ==> (LastSlot(i, n, size) >= Slot(i, size) <==> Slot(i, size) + n <= size)
    ensures n == 0 ==> (LastSlot(i, n, size) >= Slot(i, size) <==> BeginsTurn(i, size))
  {
    if 0 < n {
      SlotAdd(i, n - 1, size);
    } else if 0 < i {
      SlotAdd(i - 1, 1, size);
    }
  }

  /** A batch written from position `back` on, in one or two pieces, extends the span. */
  lemma WriteBatch<T>(a: seq<T>, a': seq<T>, front: nat, back: nat, es: seq<T>)
    requires 0 < |a| && front <= back && back - front + |es| <= |a| && Written(a, a', back, es)
    ensures Span(a', front, back - front + |es|) == Span(a, front, back - front) + es
  {
    var n := back - front;
    var l, r := Span(a', front, n + |es|), Span(a, front, n) + es;
    forall i | 0 <= i < n + |es|
      ensures l[i] == r[i]
    {
      if i < n {
        WrittenOld(a, a', back, es, front + i);
      } else {
        WrittenNew(a, a', back, es, i - n);
        assert front + i == back + (i - n);
      }
    }
  }

  /** A position before `back` is not hit by a run that stays within one turn of it. */
  lemma NotInRun(i: nat, back: nat, n: nat, size: nat)
    requires 0 < size && i < back && back + n <= i + size
    ensures !InRun(Slot(i, size), Slot(back, size), n, size)
  {
    SlotAdd(i, back - i, size);
  }

  lemma SpanDrop<T>(ring: seq<T>, front: nat, n: nat, cnt: nat)
    requires 0 < |ring| && cnt <= n
    ensures Span(ring, front + cnt, n - cnt) == Span(ring, front, n)[cnt..]
  {
    forall k | 0 <= k < n - cnt
      ensures Span(ring, front + cnt, n - cnt)[k] == Span(ring, front, n)[cnt..][k]
    {
      assert front + cnt + k == front + (cnt + k);
    }
  }

  /** Consecutive slots that do not pass the end hold consecutive positions. */
  lemma SpanSlice<T>(ring: seq<T>, front: nat, count: nat, i: nat, n: nat)
    requires 0 < |ring| && front <= i && i + n <= front + count && Slot(i, |ring|) + n <= |ring|
    ensures ring[Slot(i, |ring|)..Slot(i, |ring|) + n] == Span(ring, front, count)[i - front..i - front + n]
  {
    var at := Slot(i, |ring|);
    var l, r := ring[at..at + n], Span(ring, front, count)[i - front..i - front + n];
    forall k | 0 <= k < n
      ensures l[k] == r[k]
    {
      SlotAdd(i, k, |ring|);
      assert front + (i - front + k) == i + k;
    }
  }

  class RaftLog<T(0)> {
    var entries: array<T>
    var front: nat
    var back: nat
    var count: nat
    const plog: CircularLog<T>

    ghost predicate Valid()
      reads this
    {
      0 < entries.Length && front <= back && count == back - front <= entries.Length && entries != plog.slots
    }

    ghost function Model(): (m: Log<T>)
      requires Valid()
      reads this, entries
    {
      Log(front, Span(entries[..], front, count))
    }

    /** The persistent ring, head to tail, holds the same entries in the same order. */
    ghost predicate InStep()
      requires Valid()
      reads this, entries, plog, plog.slots
    {
      plog.Valid() && plog.Contents() == Model().entries
    }

    constructor (persistent: CircularLog<T>)
      requires persistent.Valid() && persistent.Contents() == []
      ensures Valid() && fresh(entries) && plog == persistent && Model() == Log(0, []) && InStep()
    {
      entries := new T[10];
      front, back, count := 0, 0, 0;
      plog := persistent;
    }

    /** Moves every entry to its slot in an array of twice the size. */
    method Grow()
      requires Valid()
      modifies this`entries
      ensures Valid() && Model() == old(Model()) && entries.Length == 2 * old(entries.Length) && fresh(entries)
    {
      var temp := new T[2 * entries.Length];
      for i := front to back
        invariant entries == old(entries) && temp.Length == 2 * entries.Length && fresh(temp)
        invariant SameSpan(temp[..], entries[..], front, i)
      {
        WriteOne(temp[..], front, i, entries[Slot(i, entries.Length)]);
        ghost var before := temp[..];
        temp[Slot(i, 2 * entries.Length)] := entries[Slot(i, entries.Length)];
        assert temp[..] == before[Slot(i, |before|) := entries[Slot(i, entries.Length)]];
      }
      SameSpanSpan(temp[..], entries[..], front, count);
      entries := temp;
    }

    method EnsureCapacity(n: nat)
      requires Valid()
      modifies this`entries
      ensures Valid() && Model() == old(Model()) && count + n <= entries.Length
      ensures entries == old(entries) || (fresh(entries) && count + n > old(entries.Length))
    {
      while count + n > entries.Length
        invariant Valid() && Model() == old(Model())
        invariant entries == old(entries) || (fresh(entries) && count + n > old(entries.Length))
        decreases count + n - entries.Length
      {
        Grow();
      }
    }

    /** memcpy of a slice of the batch to consecutive slots. */
    method CopyIn(es: seq<T>, at: nat)
      requires Valid() && at + |es| <= entries.Length
      modifies entries
      ensures forall k :: 0 <= k < |es| ==> entries[at + k] == es[k]
      ensures forall x :: 0 <= x < entries.Length && !(at <= x < at + |es|) ==> entries[x] == old(entries[x])
    {
      forall k | 0 <= k < |es| {
        entries[at + k] := es[k];
      }
    }

    /** Places the batch from `back` on, split in two where it passes the end. An empty
        batch passes the test for the split unless `back` begins a turn; false when the
        first piece would then be read from beyond the batch. */
    method CopyBatch(es: seq<T>) returns (ok: bool)
      requires Valid() && count + |es| <= entries.Length
      modifies entries
      ensures ok <==> 0 < |es| || BeginsTurn(back, entries.Length)
      ensures ok ==> Span(entries[..], front, count + |es|) == old(Model()).entries + es
    {
      var size := entries.Length;
      ghost var before := entries[..];
      var start := Slot(back, size);
      RunEnd(back, |es|, size);
      if LastSlot(back, |es|, size) >= start {
        CopyIn(es, start);
      } else {
        var part1 := size - start;
        if |es| < part1 {
          return false;
        }
        CopyIn(es[..part1], start);
        CopyIn(es[part1..], 0);
      }
      WriteBatch(before, entries[..], front, back, es);
      ok := true;
    }

    /** Appends a batch to both rings; false when the persistent ring is full, or for an
        empty batch in the middle of a turn, which end the process. */
    method AppendBatch(es: seq<T>) returns (ok: bool)
      requires Valid() && InStep()
      modifies this, entries, plog, plog.slots
      ensures ok <==> old(CanAppend(|es|))
      ensures ok ==> Valid() && Model() == old(Model()).Append(es) && InStep()
      ensures entries == old(entries) || fresh(entries)
    {
      EnsureCapacity(|es|);
      ok := plog.OfferBatch(es);
      if !ok {
        return;
      }
      ok := CopyBatch(es);
      if !ok {
        return;
      }
      count := count + |es|;
      back := back + |es|;
    }

    ghost predicate CanAppend(n: nat)
      requires Valid()
      reads this
    {
      count + n < plog.slots.Length && (0 < n || BeginsTurn(back, entries.Length))
    }

    /** The entries that are contiguous in memory from index idx on: a non-empty slice of
        the log, or none when idx is not in the log. */
    method GetFromIdx(idx: nat) returns (at: nat, n: nat)
      requires Valid()
      ensures n == 0 <==> !Model().Has(idx)
      ensures 0 < n ==> at + n <= entries.Length && Model().Has(idx + n - 1)
      ensures 0 < n ==> entries[at..at + n] == Model().entries[idx - 1 - front..idx - 1 - front + n]
      ensures 0 < n ==> idx + n - 1 == back || at + n == entries.Length
    {
      if idx == 0 {
        return 0, 0;
      }
      var i := idx - 1;
      if front > i || i >= back {
        return 0, 0;
      }
      at := Slot(i, entries.Length);
      var b := Slot(back, entries.Length);
      n := if at < b then b - at else entries.Length - at;
      SlotAdd(i, back - i, entries.Length);
      SpanSlice(entries[..], front, count, i, n);
      assert entries[at..at + n] == entries[..][at..at + n];
    }

    method GetAtIdx(idx: nat) returns (present: bool, at: nat)
      requires Valid()
      ensures present == Model().Has(idx)
      ensures present ==> at < entries.Length && entries[at] == Model().At(idx)
    {
      if idx == 0 || front > idx - 1 || idx - 1 >= back {
        return false, 0;
      }
      assert front + (idx - 1 - front) == idx - 1;
      return true, Slot(idx - 1, entries.Length);
    }

    /** Pops both rings until index idx and everything after it is gone. */
    method Delete(idx: nat)
      requires Valid() && InStep() && front < idx <= back + 1
      modifies this, plog
      ensures Valid() && Model() == old(Model()).TruncateTo(idx - 1) && InStep()
      ensures entries == old(entries)
    {
      while back != idx - 1
        invariant Valid() && InStep() && front == old(front) && entries == old(entries)
        invariant idx - 1 <= back <= old(back)
        invariant Model() == old(Model()).TruncateTo(back)
        decreases back
      {
        back := back - 1;
        plog.Pop();
        count := count - 1;
      }
    }

    /** Drops the oldest entries from both rings. The callback gets each piece that is
        contiguous in memory; false when nothing is to be dropped in the middle of a turn,
        and the callback would get entries that stay. */
    method PollBatch(cnt: nat) returns (ok: bool)
      requires Valid() && InStep()
      modifies this, plog
      ensures ok <==> (0 < cnt && 0 < old(count)) || BeginsTurn(old(front), old(entries.Length))
      ensures entries == old(entries)
      ensures ok ==> Valid() && InStep() && Model() == old(Model()).Poll(if cnt > old(count) then old(count) else cnt)
    {
      var n := if cnt > count then count else cnt;
      ok := PollParts(n);
      if !ok {
        return;
      }
      SpanDrop(entries[..], front, count, n);
      front := front + n;
      count := count - n;
    }

    /** Hands the polled entries to the callback, in two parts where they wrap around. */
    method PollParts(n: nat) returns (ok: bool)
      requires Valid() && plog.Valid() && n <= count == |plog.Contents()|
      modifies plog
      ensures ok <==> 0 < n || BeginsTurn(front, entries.Length)
      ensures ok ==> plog.Valid() && plog.Contents() == old(plog.Contents())[n..]
    {
      var size := entries.Length;
      RunEnd(front, n, size);
      if LastSlot(front, n, size) >= Slot(front, size) {
        plog.PollBatch(n);
      } else {
        var part1 := size - Slot(front, size);
        if n < part1 {
          return false;
        }
        plog.PollBatch(part1);
        plog.PollBatch(n - part1);
      }
      ok := true;
    }
  }
}
