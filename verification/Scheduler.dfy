/** The operation scheduler: a doubly linked list with the newest operation first, split
    at next_schedule into operations still waiting and operations handed to executors. */
module Scheduler {
  import opened Common

  datatype Outcome = Ok | BufferFull | NonCommute

  /** The log record of an operation; an executor marks it when it is done. */
  class Wal {
    var marked: bool

    constructor ()
      ensures !marked
    {
      marked := false;
    }
  }

  class Cell<T> {
    const op: Option<T>
    const wal: Wal
    var next: Cell?<T>
    var prev: Cell?<T>

    constructor (op: Option<T>, wal: Wal)
      ensures this.op == op && this.wal == wal && next == null && prev == null
    {
      this.op, this.wal := op, wal;
      next, prev := null, null;
    }
  }

  /** The cells of s, linked both ways in this order, up to the last one. */
  ghost predicate Chain<T>(s: seq<Cell<T>>)
    reads s
  {
    && 0 < |s| && s[|s| - 1].next == null
    && (forall i {:trigger s[i].next} :: 0 <= i < |s| - 1 ==> s[i].next == s[i + 1])
    && (forall i {:trigger s[i].prev} :: 0 < i < |s| ==> s[i].prev == s[i - 1])
    && (forall i, j {:trigger s[i], s[j]} :: 0 <= i < j < |s| ==> s[i] != s[j])
  }

  /** Links a new cell behind the first one. */
  method Splice<T>(first: Cell<T>, newest: Cell<T>, ghost s: seq<Cell<T>>)
    requires 2 <= |s| && s[0] == first && Chain(s) && newest !in s
    modifies first, s[1], newest
    ensures Chain([first, newest] + s[1..])
  {
    var top := first.next;
    assert top == s[1];
    newest.next := top;
    newest.prev := first;
    first.next := newest;
    top.prev := newest;
    ghost var t := [first, newest] + s[1..];
    assert forall i {:trigger t[i]} :: 2 <= i < |t| ==> t[i] == s[i - 1];
  }

  /** Unlinks the cell at position i and hands back the one behind it. */
  method Detach<T>(cell: Cell<T>, ghost s: seq<Cell<T>>, ghost i: nat) returns (behind: Cell<T>)
    requires 0 < i < |s| - 1 && s[i] == cell && Chain(s)
    modifies s[i - 1], s[i + 1]
    ensures Chain(s[..i] + s[i + 1..]) && behind == s[i + 1]
  {
    var front := cell.prev;
    behind := cell.next;
    assert front == s[i - 1] && behind == s[i + 1];
    front.next := behind;
    behind.prev := front;
    ghost var t := s[..i] + s[i + 1..];
    assert forall k {:trigger t[k]} :: 0 <= k < |t| ==> t[k] == s[if k < i then k else k + 1];
  }

  /** The operations of the cells, oldest first. */
  ghost function OldestFirst<T>(s: seq<Cell<T>>): (r: seq<T>)
  {
    if s == [] then []
    else OldestFirst(s[1..]) + if s[0].op.Some? then [s[0].op.value] else []
  }

  lemma {:induction false} OldestOut<T>(s: seq<Cell<T>>)
    requires s != [] && s[|s| - 1].op.Some?
    ensures OldestFirst(s) == [s[|s| - 1].op.value] + OldestFirst(s[..|s| - 1])
  {
    if |s| == 1 {
      assert s[1..] == [] && s[..0] == [];
    } else {
      OldestOut(s[1..]);
      assert s[1..][..|s| - 2] == s[..|s| - 1][1..];
    }
  }

  /** What was enqueued for one executor, out of everything enqueued. */
  ghost function SentTo<T>(sent: seq<(nat, T)>, core: nat): (r: seq<T>)
  {
    if sent == [] then []
    else
      var last := sent[|sent| - 1];
      SentTo(sent[..|sent| - 1], core) + if last.0 == core then [last.1] else []
  }

  /** Executors take turns, on a counter of 32 bits. */
  ghost predicate RoundRobin<T>(sent: seq<(nat, T)>, counter: nat, threads: nat)
    requires 0 < threads
  {
    && counter == |sent| % 0x1_0000_0000
    && forall i {:trigger sent[i]} :: 0 <= i < |sent| ==> sent[i].0 == (i % 0x1_0000_0000) % threads
  }

  ghost function Ops<T>(sent: seq<(nat, T)>): (r: seq<T>)
    ensures |r| == |sent| && forall i :: 0 <= i < |r| ==> r[i] == sent[i].1
  {
    seq(|sent|, i requires 0 <= i < |sent| => sent[i].1)
  }

  /** The operation commutes with every unfinished one of the cells. */
  ghost predicate Clear<T>(op: T, s: seq<Cell<T>>, commute: (T, T) -> bool)
    reads set c | c in s :: c.wal
  {
    forall c :: c in s && !c.wal.marked ==> c.op.Some? && commute(op, c.op.value)
  }

  /** Every cell commutes with every older one that is unfinished. */
  ghost predicate Compatible<T>(s: seq<Cell<T>>, commute: (T, T) -> bool)
    reads set c | c in s :: c.wal
  {
    s != [] ==> s[0].op.Some? && Clear(s[0].op.value, s[1..], commute) && Compatible(s[1..], commute)
  }

  ghost function Marks<T>(s: seq<Cell<T>>): (r: seq<bool>)
    reads set c | c in s :: c.wal
    ensures |r| == |s| && forall i :: 0 <= i < |s| ==> r[i] == s[i].wal.marked
  {
    if s == [] then [] else [s[0].wal.marked] + Marks(s[1..])
  }

  /** The elements that are not marked, in order. */
  ghost function Unmarked<T>(s: seq<T>, marks: seq<bool>): (r: seq<T>)
    requires |s| == |marks|
    ensures |r| <= |s|
  {
    if s == [] then []
    else (if marks[0] then [] else [s[0]]) + Unmarked(s[1..], marks[1..])
  }

  lemma {:induction false} UnmarkedSnoc<T>(s: seq<T>, marks: seq<bool>, k: nat)
    requires k < |s| == |marks|
    ensures Unmarked(s[..k + 1], marks[..k + 1]) == Unmarked(s[..k], marks[..k]) + if marks[k] then [] else [s[k]]
  {
    if k == 0 {
      assert s[..1][1..] == [];
    } else {
      UnmarkedSnoc(s[1..], marks[1..], k - 1);
      assert s[1..][..k] == s[..k + 1][1..] && marks[1..][..k] == marks[..k + 1][1..];
      assert s[1..][..k - 1] == s[..k][1..] && marks[1..][..k - 1] == marks[..k][1..];
    }
  }

  /** The first j of now are what is left of the first k of before; the rest is untouched. */
  ghost predicate SweptTo<T>(before: seq<T>, marks: seq<bool>, k: nat, now: seq<T>, j: nat)
  {
    && j <= k <= |before| == |marks| && |before| - k == |now| - j
    && Unmarked(before[..k], marks[..k]) == now[..j]
    && before[k..] == now[j..]
  }

  lemma SweptNone<T>(s: seq<T>, marks: seq<bool>)
    requires |s| == |marks|
    ensures SweptTo(s, marks, 0, s, 0)
  {
  }

  lemma SweptAll<T>(before: seq<T>, marks: seq<bool>, now: seq<T>, j: nat)
    requires SweptTo(before, marks, |before|, now, j)
    ensures now == Unmarked(before, marks)
  {
    assert before[..|before|] == before && marks[..|before|] == marks && now[..j] == now;
  }

  lemma SweptOne<T>(before: seq<T>, marks: seq<bool>, k: nat, now: seq<T>, j: nat, then': seq<T>)
    requires SweptTo(before, marks, k, now, j) && k < |before|
    requires then' == if marks[k] then now[..j] + now[j + 1..] else now
    ensures SweptTo(before, marks, k + 1, then', if marks[k] then j else j + 1)
  {
    UnmarkedSnoc(before, marks, k);
    assert now[j] == before[k..][0] == before[k];
    assert before[k + 1..] == before[k..][1..] == now[j + 1..];
    if !marks[k] {
      assert now[..j + 1] == now[..j] + [before[k]];
    }
  }

  lemma {:induction false} UnmarkedMembers<T>(s: seq<Cell<T>>, c: Cell<T>)
    ensures c in Unmarked(s, Marks(s)) <==> c in s && !c.wal.marked
  {
    if s != [] {
      UnmarkedMembers(s[1..], c);
      assert Marks(s)[1..] == Marks(s[1..]);
      assert s == [s[0]] + s[1..];
    }
  }

  /** Freeing finished operations keeps the others compatible. */
  lemma {:induction false} UnmarkedCompatible<T>(s: seq<Cell<T>>, commute: (T, T) -> bool)
    requires Compatible(s, commute)
    ensures Compatible(Unmarked(s, Marks(s)), commute)
  {
    if s != [] {
      UnmarkedCompatible(s[1..], commute);
      var rest := Unmarked(s[1..], Marks(s[1..]));
      assert Marks(s)[1..] == Marks(s[1..]);
      if s[0].wal.marked {
        assert Unmarked(s, Marks(s)) == rest;
      } else {
        forall c | c in rest && !c.wal.marked
          ensures c in s[1..]
        {
          UnmarkedMembers(s[1..], c);
        }
        assert Unmarked(s, Marks(s))[1..] == rest;
      }
    }
  }

  class Scheduler<T> {
    const head: Cell<T>
    const tail: Cell<T>
    const threads: nat
    const maxLength: nat
    var nextSchedule: Cell<T>
    var size: nat
    var rbCounter: nat
    /** What has been enqueued for each executor, oldest first. */
    var rings: seq<seq<T>>
    /** Every operation accepted, in order. */
    ghost var added: seq<T>
    /** Everything enqueued, in order, with its executor. */
    ghost var sent: seq<(nat, T)>
    /** Operations not yet enqueued, newest first. */
    ghost var waiting: seq<Cell<T>>
    /** Operations enqueued and not yet freed, newest first. */
    ghost var issued: seq<Cell<T>>
    ghost var list: seq<Cell<T>>
    /** Every cell ever in the list. */
    ghost var cells: set<Cell<T>>

    ghost predicate Valid()
      reads this, cells
    {
      && list == [head] + (waiting + (issued + [tail]))
      && (forall c :: c in list ==> c in cells)
      && Chain(list)
      && (forall c :: c in waiting ==> c.op.Some?)
      && (forall c :: c in issued ==> c.op.Some?)
      && nextSchedule == (if waiting == [] then head else waiting[|waiting| - 1])
      && size == |waiting| + |issued| <= maxLength
      && 0 < threads == |rings|
    }

    /** Accepted operations are enqueued in the order of acceptance, once each, executor
        after executor, and each executor's ring holds its share in that order. */
    ghost predicate Conserved()
      reads this
    {
      && added == Ops(sent) + OldestFirst(waiting)
      && 0 < threads && RoundRobin(sent, rbCounter, threads)
      && (forall c: nat :: c < |rings| ==> rings[c] == SentTo(sent, c))
    }

    constructor (threads: nat, maxLength: nat)
      requires 0 < threads
      ensures Valid() && Conserved() && waiting == [] && issued == [] && added == []
      ensures this.threads == threads && this.maxLength == maxLength
      ensures fresh(cells)
    {
      this.threads, this.maxLength := threads, maxLength;
      var w := new Wal();
      var h := new Cell<T>(None, w);
      var t := new Cell<T>(None, w);
      head, tail := h, t;
      nextSchedule := h;
      size, rbCounter := 0, 0;
      rings := seq(threads, _ => []);
      added, sent, waiting, issued := [], [], [], [];
      list, cells := [h, t], {h, t};
      new;
      head.next := tail;
      tail.prev := head;
    }

    lemma NextIsHead()
      requires Valid()
      ensures nextSchedule == head <==> waiting == []
    {
      if waiting != [] {
        assert list[0] == head && list[|waiting|] == nextSchedule;
      }
    }

    /** Adds an operation in front; refused when the buffer is full. */
    method Add(op: T, wal: Wal) returns (r: Outcome)
      requires Valid() && Conserved()
      modifies this`nextSchedule, this`size, this`waiting, this`added, this`list, this`cells, cells
      ensures Valid() && Conserved()
      ensures r == if old(size) == maxLength then BufferFull else Ok
      ensures r == BufferFull ==> waiting == old(waiting) && added == old(added) && cells == old(cells)
      ensures r == Ok ==> added == old(added) + [op] && |waiting| == |old(waiting)| + 1
                          && waiting[1..] == old(waiting) && fresh(waiting[0])
                          && cells == old(cells) + {waiting[0]} && waiting[0].op == Some(op) && waiting[0].wal == wal
    {
      if size == maxLength {
        return BufferFull;
      }
      var newest := new Cell<T>(Some(op), wal);
      PutFirst(newest);
      r := Ok;
    }

    /** Links a new cell in front of the list. */
    method PutFirst(newest: Cell<T>)
      requires Valid() && Conserved() && size < maxLength && newest !in cells && newest.op.Some?
      modifies this`nextSchedule, this`size, this`waiting, this`added, this`list, this`cells, cells, newest
      ensures Valid() && Conserved()
      ensures waiting == [newest] + old(waiting) && added == old(added) + [newest.op.value]
      ensures cells == old(cells) + {newest}
    {
      NextIsHead();
      assert list[0] == head && list[1] in cells;
      Splice(head, newest, list);
      if nextSchedule == head {
        nextSchedule := newest;
      }
      size := size + 1;
      Accept(newest);
    }

    /** The ghost side of Add. */
    ghost method Accept(newest: Cell<T>)
      requires list == [head] + (waiting + (issued + [tail])) && newest.op.Some?
      requires added == Ops(sent) + OldestFirst(waiting)
      modifies this`waiting, this`added, this`list, this`cells
      ensures waiting == [newest] + old(waiting) && cells == old(cells) + {newest}
      ensures list == [head, newest] + old(list)[1..] == [head] + (waiting + (issued + [tail]))
      ensures added == old(added) + [newest.op.value] == Ops(sent) + OldestFirst(waiting)
    {
      assert ([newest] + waiting)[1..] == waiting;
      list, cells := [head, newest] + list[1..], cells + {newest};
      waiting := [newest] + waiting;
      added := added + [newest.op.value];
    }

    /** Does the next operation commute with every unfinished one already issued? */
    method Ready(commute: (T, T) -> bool) returns (ok: bool)
      requires Valid() && waiting != []
      ensures ok <==> Clear(waiting[|waiting| - 1].op.value, issued, commute)
    {
      var op := nextSchedule.op.value;
      ghost var k := 0;
      assert list[|waiting|] == nextSchedule;
      var cell := nextSchedule.next;
      while cell.next != null
        invariant k <= |issued| && cell == list[|waiting| + 1 + k]
        invariant Clear(op, issued[..k], commute)
        decreases |issued| - k
      {
        assert k < |issued| && cell == issued[k];
        if !cell.wal.marked && !commute(op, cell.op.value) {
          return false;
        }
        cell := cell.next;
        assert issued[..k + 1] == issued[..k] + [issued[k]];
        k := k + 1;
      }
      assert k == |issued| && issued[..k] == issued;
      ok := true;
    }

    method PickCore(ghost op: T) returns (core: nat)
      requires 0 < threads && RoundRobin(sent, rbCounter, threads)
      modifies this`rbCounter
      ensures core < threads && RoundRobin(sent + [(core, op)], rbCounter, threads)
    {
      core := rbCounter % threads;
      rbCounter := (rbCounter + 1) % 0x1_0000_0000;
    }

    /** Hands the next operation to the next executor in turn. */
    method Enqueue()
      requires Valid() && Conserved() && waiting != []
      modifies this
      ensures Valid() && Conserved() && added == old(added) && cells == old(cells)
      ensures waiting == old(waiting)[..|old(waiting)| - 1]
      ensures issued == [old(waiting)[|old(waiting)| - 1]] + old(issued)
      ensures |sent| == |old(sent)| + 1
    {
      var op := nextSchedule.op.value;
      var core := PickCore(op);
      rings := rings[core := rings[core] + [op]];
      ghost var n := |waiting| - 1;
      ghost var oldest := waiting[n];
      assert list[n + 1] == oldest && list[n] == if n == 0 then head else waiting[n - 1];
      nextSchedule := nextSchedule.prev;
      Issue(core, op);
    }

    /** The ghost side of Enqueue. */
    ghost method Issue(core: nat, op: T)
      requires waiting != [] && waiting[|waiting| - 1].op == Some(op)
      requires 0 < threads && core < |rings| && added == Ops(sent) + OldestFirst(waiting)
      requires RoundRobin(sent + [(core, op)], rbCounter, threads)
      requires forall c: nat :: c < |rings| ==> rings[c] == SentTo(sent, c) + if c == core then [op] else []
      modifies this`waiting, this`issued, this`sent
      ensures Conserved() && |sent| == |old(sent)| + 1
      ensures waiting == old(waiting)[..|old(waiting)| - 1]
      ensures issued == [old(waiting)[|old(waiting)| - 1]] + old(issued)
      ensures waiting + (issued + [tail]) == old(waiting + (issued + [tail]))
    {
      OldestOut(waiting);
      ghost var n := |waiting| - 1;
      issued := [waiting[n]] + issued;
      waiting := waiting[..n];
      ghost var all := sent + [(core, op)];
      assert all[..|sent|] == sent;
      assert Ops(all) == Ops(sent) + [op];
      sent := all;
    }

    /** Enqueues waiting operations, oldest first, until one does not commute with an
        unfinished one. */
    method Schedule(commute: (T, T) -> bool) returns (r: Outcome)
      requires Valid() && Conserved() && Compatible(issued, commute)
      modifies this
      ensures Valid() && Conserved() && Compatible(issued, commute)
      ensures added == old(added) && cells == old(cells)
      ensures waiting + issued == old(waiting + issued) && waiting <= old(waiting)
      ensures r == if waiting == [] then Ok else NonCommute
      ensures waiting != [] ==> !Clear(waiting[|waiting| - 1].op.value, issued, commute)
    {
      NextIsHead();
      while nextSchedule != head
        invariant Valid() && Conserved() && Compatible(issued, commute)
        invariant nextSchedule == head <==> waiting == []
        invariant added == old(added) && cells == old(cells)
        invariant waiting + issued == old(waiting + issued) && waiting <= old(waiting)
        decreases |waiting|
      {
        var ready := Advance(commute);
        if !ready {
          return NonCommute;
        }
      }
      r := Ok;
    }

    /** One turn of the loop of Schedule. */
    method Advance(commute: (T, T) -> bool) returns (ready: bool)
      requires Valid() && Conserved() && Compatible(issued, commute) && waiting != []
      modifies this
      ensures Valid() && Conserved() && Compatible(issued, commute)
      ensures added == old(added) && cells == old(cells) && waiting + issued == old(waiting + issued)
      ensures nextSchedule == head <==> waiting == []
      ensures ready ==> waiting == old(waiting)[..|old(waiting)| - 1]
      ensures !ready ==> waiting == old(waiting) && !Clear(waiting[|waiting| - 1].op.value, issued, commute)
    {
      ready := Ready(commute);
      if ready {
        ghost var was, n := issued, |waiting| - 1;
        assert waiting + issued == waiting[..n] + ([waiting[n]] + issued);
        Enqueue();
        assert issued[1..] == was;
      }
      NextIsHead();
    }

    /** Frees the issued operations that are finished, and nothing else. */
    method Gc()
      requires Valid() && Conserved()
      modifies this`size, this`issued, this`list, cells
      ensures Valid() && Conserved()
      ensures issued == Unmarked(old(issued), old(Marks(issued)))
      ensures size == old(size) - (|old(issued)| - |issued|)
    {
      ghost var before, marks := issued, Marks(issued);
      ghost var j: nat, k: nat := 0, 0;
      Follows(0);
      assert list[|waiting|] == nextSchedule;
      var cell: Cell<T> := nextSchedule.next;
      SweptNone(before, marks);
      while cell.next != null
        invariant Valid() && SweptTo(before, marks, k, issued, j) && cell == (issued + [tail])[j]
        invariant cell.next == null <==> k == |before|
        invariant size == old(size) - (|before| - |issued|)
        decreases |before| - k
      {
        cell, j := SweepNext(cell, before, marks, k, j);
        k := k + 1;
      }
      SweptAll(before, marks, issued, j);
    }

    /** One turn of the loop of Gc. */
    method SweepNext(cell: Cell<T>, ghost before: seq<Cell<T>>, ghost marks: seq<bool>, ghost k: nat, ghost j: nat)
      returns (behind: Cell<T>, ghost j': nat)
      requires Valid() && SweptTo(before, marks, k, issued, j) && k < |before|
      requires cell == (issued + [tail])[j] && marks[k] == before[k].wal.marked
      modifies this`size, this`issued, this`list, cells
      ensures Valid() && SweptTo(before, marks, k + 1, issued, j') && behind == (issued + [tail])[j']
      ensures behind.next == null <==> k + 1 == |before|
      ensures size == old(size) - (|old(issued)| - |issued|)
    {
      assert cell == issued[j] == issued[j..][0] == before[k..][0] == before[k];
      ghost var was := issued;
      behind := Sweep(cell, j);
      SweptOne(before, marks, k, was, j, issued);
      j' := if marks[k] then j else j + 1;
    }

    /** Where the list goes from an issued operation. */
    lemma Follows(j: nat)
      requires Valid() && j <= |issued|
      ensures j < |issued| ==> issued[j].next == (issued + [tail])[j + 1]
      ensures (issued + [tail])[j].next == null <==> j == |issued|
      ensures list[|waiting| + 1 + j] == (issued + [tail])[j]
    {
      assert list[|waiting| + 1 + j] == (issued + [tail])[j];
    }

    /** Frees the operation if it is finished, and goes on to the next. */
    method Sweep(cell: Cell<T>, ghost k: nat) returns (behind: Cell<T>)
      requires Valid() && k < |issued| && issued[k] == cell
      modifies this`size, this`issued, this`list, cells
      ensures Valid()
      ensures issued == if cell.wal.marked then old(issued)[..k] + old(issued)[k + 1..] else old(issued)
      ensures size == old(size) - (|old(issued)| - |issued|)
      ensures behind == (issued + [tail])[if cell.wal.marked then k else k + 1]
      ensures behind.next == null <==> (if cell.wal.marked then k else k + 1) == |issued|
    {
      Follows(k);
      if cell.wal.marked {
        behind := Free(cell, k);
        Follows(k);
      } else {
        behind := cell.next;
        Follows(k + 1);
      }
    }

    /** Unlinks and frees one issued operation. */
    method Free(cell: Cell<T>, ghost k: nat) returns (behind: Cell<T>)
      requires Valid() && k < |issued| && issued[k] == cell
      modifies this`size, this`issued, this`list, cells
      ensures Valid() && issued == old(issued)[..k] + old(issued)[k + 1..]
      ensures size == old(size) - 1 && behind == (old(issued) + [tail])[k + 1]
    {
      ghost var i := 1 + |waiting| + k;
      behind := Detach(cell, list, i);
      size := size - 1;
      list := list[..i] + list[i + 1..];
      issued := issued[..k] + issued[k + 1..];
      assert list == [head] + (waiting + (issued + [tail]));
    }
  }
}
