/** The leaf as an object: the in-place code of insert, erase and find. Every write to the
    leaf goes through one store, recorded in `trace`, so that the crash results apply to
    exactly the sequence of stores this code performs. */
module LeafNode {
  import opened LeafModel
  import opened LeafCrash

  lemma OneMore(done: seq<Store>, sts: seq<Store>, k: nat)
    requires k < |sts|
    ensures (done + sts[..k]) + [sts[k]] == done + sts[..k + 1]
  {
    assert sts[..k + 1] == sts[..k] + [sts[k]];
  }

  class LeafNode {
    const entries: array<Kv>
    const idx0: array<nat>
    const idx1: array<nat>
    var n0: nat
    var n1: nat
    var cid: nat
    var pcid: nat
    ghost var trace: seq<Store>

    ghost predicate Shape()
      reads this
    {
      && entries.Length == idx0.Length == idx1.Length && idx0 != idx1
      && cid < 2 && pcid < 2
    }

    ghost function State(): (l: Leaf)
      requires Shape()
      reads this, entries, idx0, idx1
      ensures l.Shaped()
    {
      Leaf(entries[..], [Index(idx0[..], n0), Index(idx1[..], n1)], cid, pcid)
    }

    ghost predicate Ok()
      reads this, entries, idx0, idx1
    {
      Shape() && Valid(State())
    }

    /** An empty leaf. */
    constructor (slots: nat, filler: Kv)
      ensures Ok() && Contents(State()) == [] && entries.Length == slots && trace == []
      ensures fresh(entries) && fresh(idx0) && fresh(idx1)
    {
      entries := new Kv[slots](_ => filler);
      idx0 := new nat[slots](i => i);
      idx1 := new nat[slots](i => i);
      n0, n1, cid, pcid := 0, 0, 0, 0;
      trace := [];
      new;
      BuiltValid(slots, [], filler);
      assert idx0[..] == Built(slots, [], filler).v[0].idxs;
      assert idx1[..] == Built(slots, [], filler).v[1].idxs;
      assert entries[..] == Built(slots, [], filler).entries;
    }

    /** One store. */
    method Exec(st: Store)
      requires Shape() && Fits(State(), st)
      modifies this, entries, idx0, idx1
      ensures Shape() && State() == Apply(old(State()), st) && trace == old(trace) + [st]
    {
      match st {
        case WriteEntry(slot, e) => entries[slot] := e;
        case WriteIdx(c, pos, slot) =>
          if c == 0 {
            idx0[pos] := slot;
          } else {
            idx1[pos] := slot;
          }
        case WriteSize(c, n) =>
          if c == 0 {
            n0 := n;
          } else {
            n1 := n;
          }
        case SetConsistent(c) => cid := c;
        case SetPersistent(c) => pcid := c;
      }
      trace := trace + [st];
    }

    method Size() returns (n: nat)
      requires Shape()
      ensures n == State().Size()
    {
      n := if cid == 0 then n0 else n1;
    }

    /** An element of the index array in force. */
    method SlotOf(pos: nat) returns (slot: nat)
      requires Shape() && pos < entries.Length
      ensures slot == State().v[cid].idxs[pos]
    {
      slot := if cid == 0 then idx0[pos] else idx1[pos];
    }

    /** The entry at a position of the contents. */
    method EntryAt(pos: nat) returns (e: Kv)
      requires Ok() && pos < |Contents(State())|
      ensures e == Contents(State())[pos]
    {
      var slot := SlotOf(pos);
      assert slot == SlotAt(State(), pcid, pos);
      e := entries[slot];
    }

    /** The first position whose key is not below `key`. */
    method Search(key: int) returns (p: nat)
      requires Ok()
      ensures p == LowerBound(Contents(State()), key)
    {
      var size := Size();
      ghost var s := Contents(State());
      var lo, hi := 0, size;
      while lo < hi
        invariant 0 <= lo <= hi <= size == |s|
        invariant lo <= LowerBound(s, key) <= hi
      {
        var mid := (lo + hi) / 2;
        var e := EntryAt(mid);
        if e.key < key {
          lo := mid + 1;
        } else {
          hi := mid;
        }
      }
      p := lo;
    }

    method Locate(key: int) returns (present: bool, p: nat)
      requires Ok()
      ensures p == LowerBound(Contents(State()), key) && present == Present(Contents(State()), key)
    {
      p := Search(key);
      var size := Size();
      present := false;
      if p < size {
        var e := EntryAt(p);
        present := e.key == key;
      }
    }

    /** The position of the key, if it is there. */
    method Find(key: int) returns (found: bool, p: nat)
      requires Ok()
      ensures found <==> exists e :: e in Contents(State()) && e.key == key
      ensures found ==> p < |Contents(State())| && Contents(State())[p].key == key
    {
      found, p := Locate(key);
      assert found ==> Contents(State())[p] in Contents(State());
    }

    /** Since state `before` and trace `start`, exactly the stores `done` were performed. */
    ghost predicate Progress(before: Leaf, start: seq<Store>, done: seq<Store>)
      requires before.Shaped()
      reads this, entries, idx0, idx1
    {
      Shape() && AllFit(before, done) && State() == Run(before, done) && trace == start + done
    }

    method Next(ghost before: Leaf, ghost start: seq<Store>, ghost done: seq<Store>, st: Store)
      requires before.Shaped() && Progress(before, start, done) && Fits(before, st)
      modifies this, entries, idx0, idx1
      ensures Progress(before, start, done + [st])
    {
      RunSnoc(before, done, st);
      Exec(st);
      assert start + done + [st] == start + (done + [st]);
    }

    method WriteIdxs(ghost before: Leaf, ghost start: seq<Store>, ghost done: seq<Store>, w: nat, idxs: seq<nat>)
      requires before.Shaped() && Progress(before, start, done)
      requires w < 2 && |idxs| <= |before.entries|
      modifies this, entries, idx0, idx1
      ensures Progress(before, start, done + IdxStores(w, idxs))
    {
      ghost var sts := IdxStores(w, idxs);
      assert done + sts[..0] == done;
      for k := 0 to |idxs|
        invariant Progress(before, start, done + sts[..k])
      {
        Next(before, start, done + sts[..k], WriteIdx(w, k, idxs[k]));
        OneMore(done, sts, k);
      }
      assert sts[..|idxs|] == sts;
    }

    /** A new index array, its size and the switch. */
    method PublishIdxs(ghost before: Leaf, ghost start: seq<Store>, ghost done: seq<Store>,
                       w: nat, idxs: seq<nat>, n: nat)
      requires before.Shaped() && Progress(before, start, done)
      requires w < 2 && |idxs| <= |before.entries|
      modifies this, entries, idx0, idx1
      ensures Progress(before, start, done + Publish(w, idxs, n))
    {
      WriteIdxs(before, start, done, w, idxs);
      ghost var d := done + IdxStores(w, idxs);
      Next(before, start, d, WriteSize(w, n));
      Next(before, start, d + [WriteSize(w, n)], SetConsistent(w));
      Next(before, start, d + [WriteSize(w, n)] + [SetConsistent(w)], SetPersistent(w));
      assert d + [WriteSize(w, n)] + [SetConsistent(w)] + [SetPersistent(w)] == done + Publish(w, idxs, n);
    }

    /** Copies positions lo..hi of the index array in force. */
    method Copied(lo: nat, hi: nat) returns (s: seq<nat>)
      requires Shape() && lo <= hi <= entries.Length
      ensures s == State().v[cid].idxs[lo..hi]
    {
      if cid == 0 {
        s := idx0[lo..hi];
      } else {
        s := idx1[lo..hi];
      }
    }

    /** The stores of an insert at position p. */
    method InsertAt(p: nat, e: Kv)
      requires Shape() && p <= State().Size() < entries.Length && SlotAt(State(), cid, State().Size()) < entries.Length
      modifies this, entries, idx0, idx1
      ensures Progress(old(State()), old(trace), InsertStores(old(State()), p, e))
    {
      ghost var l, start := State(), trace;
      var size := Size();
      var slot := SlotOf(size);
      var before := Copied(0, p);
      var after := Copied(p, size);
      var idxs := before + [slot] + after;
      assert idxs == InsertIdxs(l, p);
      var w := 1 - cid;
      assert Progress(l, start, []);
      Next(l, start, [], WriteEntry(slot, e));
      assert [] + [WriteEntry(slot, e)] == [WriteEntry(slot, e)];
      PublishIdxs(l, start, [WriteEntry(slot, e)], w, idxs, size + 1);
    }

    method EraseAt(p: nat)
      requires Shape() && p < State().Size() <= entries.Length
      modifies this, entries, idx0, idx1
      ensures Progress(old(State()), old(trace), EraseStores(old(State()), p))
    {
      ghost var l, start := State(), trace;
      var size := Size();
      var slot := SlotOf(p);
      var before := Copied(0, p);
      var after := Copied(p + 1, size);
      var idxs := before + after + [slot];
      assert idxs == EraseIdxs(l, p);
      assert Progress(l, start, []);
      assert [] + EraseStores(l, p) == EraseStores(l, p);
      PublishIdxs(l, start, [], 1 - cid, idxs, size - 1);
    }

    /** Adds an entry, unless its key is present. The caller makes sure there is room. */
    method Insert(e: Kv) returns (inserted: bool, p: nat)
      requires Ok() && State().Size() < entries.Length
      modifies this, entries, idx0, idx1
      ensures Ok() && inserted == !Present(old(Contents(State())), e.key)
      ensures Contents(State()) == Put(old(Contents(State())), e)
      ensures trace == old(trace) + StoresOf(old(State()), Op.Insert(e))
      ensures p == LowerBound(old(Contents(State())), e.key)
    {
      Completed(State(), Op.Insert(e));
      var present;
      present, p := Locate(e.key);
      if !present {
        InsertAt(p, e);
      }
      inserted := !present;
    }

    /** Removes the key if present. */
    method Erase(key: int) returns (removed: nat)
      requires Ok()
      modifies this, entries, idx0, idx1
      ensures Ok() && removed == if Present(old(Contents(State())), key) then 1 else 0
      ensures Contents(State()) == Del(old(Contents(State())), key)
      ensures trace == old(trace) + StoresOf(old(State()), Op.Erase(key))
    {
      Completed(State(), Op.Erase(key));
      var present, p := Locate(key);
      if !present {
        return 0;
      }
      EraseAt(p);
      removed := 1;
    }
  }
}
