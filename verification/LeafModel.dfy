/** A leaf of the persistent B+ tree, down to its single stores. Entries never move: two
    index arrays give their order, one word says which array counts, and the slots beyond
    the size form an implicit free list that alternates between the two arrays. */
module LeafModel {

  datatype Kv = Kv(key: int, val: int)

  datatype Index = Index(idxs: seq<nat>, size: nat)

  /** `cid` is consistent_id, `pcid` is p_consistent_id, the word recovery trusts. */
  datatype Leaf = Leaf(entries: seq<Kv>, v: seq<Index>, cid: nat, pcid: nat) {

    predicate Shaped() {
      && |v| == 2 && cid < 2 && pcid < 2
      && |v[0].idxs| == |entries| && |v[1].idxs| == |entries|
    }

    function Size(): nat
      requires Shaped()
    {
      v[cid].size
    }
  }

  // ----- stores -----

  datatype Store =
    | WriteEntry(slot: nat, e: Kv)
    | WriteIdx(copy: nat, pos: nat, slot: nat)
    | WriteSize(copy: nat, n: nat)
    | SetConsistent(copy: nat)
    | SetPersistent(copy: nat)

  /** A store that stays inside the leaf. */
  predicate Fits(l: Leaf, st: Store)
    requires l.Shaped()
  {
    match st
    case WriteEntry(slot, _) => slot < |l.entries|
    case WriteIdx(c, pos, _) => c < 2 && pos < |l.entries|
    case WriteSize(c, _) => c < 2
    case SetConsistent(c) => c < 2
    case SetPersistent(c) => c < 2
  }

  function Apply(l: Leaf, st: Store): (r: Leaf)
    requires l.Shaped() && Fits(l, st)
    ensures r.Shaped() && |r.entries| == |l.entries|
  {
    match st
    case WriteEntry(slot, e) => l.(entries := l.entries[slot := e])
    case WriteIdx(c, pos, slot) => l.(v := l.v[c := l.v[c].(idxs := l.v[c].idxs[pos := slot])])
    case WriteSize(c, n) => l.(v := l.v[c := l.v[c].(size := n)])
    case SetConsistent(c) => l.(cid := c)
    case SetPersistent(c) => l.(pcid := c)
  }

  ghost predicate AllFit(l: Leaf, sts: seq<Store>)
    requires l.Shaped()
  {
    forall i :: 0 <= i < |sts| ==> Fits(l, sts[i])
  }

  ghost function Run(l: Leaf, sts: seq<Store>): (r: Leaf)
    requires l.Shaped() && AllFit(l, sts)
    ensures r.Shaped() && |r.entries| == |l.entries|
    decreases |sts|
  {
    if sts == [] then l
    else
      var front := sts[..|sts| - 1];
      assert forall i :: 0 <= i < |front| ==> front[i] == sts[i];
      var l1 := Run(l, front);
      assert Fits(l, sts[|sts| - 1]);
      Apply(l1, sts[|sts| - 1])
  }

  /** After a restart the leaf goes back to the copy the persistent word names. */
  function Recover(l: Leaf): Leaf {
    l.(cid := l.pcid)
  }

  // ----- contents and free slots, as seen through one copy -----

  /** The slots of copy c in key order, then the free slots: position t beyond the size
      is kept in copy c or in the other copy, by the parity of its distance. */
  function SlotAt(l: Leaf, c: nat, t: nat): nat
    requires l.Shaped() && c < 2 && t < |l.entries|
  {
    var s := l.v[c].size;
    if t < s || (t - s) % 2 == 0 then l.v[c].idxs[t] else l.v[1 - c].idxs[t]
  }

  /** The slots are a permutation of all slots, so those beyond the size are free. */
  ghost predicate SlotsOk(l: Leaf, c: nat)
    requires l.Shaped() && c < 2
  {
    && l.v[c].size <= |l.entries|
    && (forall t :: 0 <= t < |l.entries| ==> SlotAt(l, c, t) < |l.entries|)
    && (forall t, u :: 0 <= t < u < |l.entries| ==> SlotAt(l, c, t) != SlotAt(l, c, u))
  }

  function ContentsOf(l: Leaf, c: nat): (s: seq<Kv>)
    requires l.Shaped() && c < 2 && SlotsOk(l, c)
    ensures |s| == l.v[c].size
    ensures forall t :: 0 <= t < |s| ==> s[t] == l.entries[SlotAt(l, c, t)]
  {
    seq(l.v[c].size, t requires 0 <= t < l.v[c].size => l.entries[SlotAt(l, c, t)])
  }

  ghost predicate Sorted(s: seq<Kv>) {
    forall i, j :: 0 <= i < j < |s| ==> s[i].key < s[j].key
  }

  /** What survives a crash is in order. */
  ghost predicate Durable(l: Leaf) {
    l.Shaped() && SlotsOk(l, l.pcid) && Sorted(ContentsOf(l, l.pcid))
  }

  ghost predicate Valid(l: Leaf) {
    Durable(l) && l.cid == l.pcid
  }

  function Contents(l: Leaf): seq<Kv>
    requires Valid(l)
  {
    ContentsOf(l, l.pcid)
  }

  // ----- the store sequences of insert and erase -----

  /** std::lower_bound over the keys of a sorted sequence. */
  function LowerBound(s: seq<Kv>, key: int): (p: nat)
    ensures p <= |s|
    ensures forall i :: 0 <= i < p ==> s[i].key < key
    ensures p < |s| ==> key <= s[p].key
    decreases |s|
  {
    if s == [] || key <= s[0].key then 0
    else
      var q := LowerBound(s[1..], key);
      assert forall i :: 0 < i < q + 1 ==> s[i] == s[1..][i - 1];
      q + 1
  }

  /** The index array written by an insert at position p. */
  function InsertIdxs(l: Leaf, p: nat): (r: seq<nat>)
    requires l.Shaped() && p <= l.Size() < |l.entries|
    ensures |r| == l.Size() + 1
  {
    var cur := l.v[l.cid].idxs;
    cur[..p] + [cur[l.Size()]] + cur[p..l.Size()]
  }

  /** The index array written by an erase at position p: the freed slot goes last. */
  function EraseIdxs(l: Leaf, p: nat): (r: seq<nat>)
    requires l.Shaped() && p < l.Size() <= |l.entries|
    ensures |r| == l.Size()
  {
    var cur := l.v[l.cid].idxs;
    cur[..p] + cur[p + 1..l.Size()] + [cur[p]]
  }

  ghost function IdxStores(c: nat, idxs: seq<nat>): (r: seq<Store>)
    ensures |r| == |idxs| && forall k :: 0 <= k < |idxs| ==> r[k] == WriteIdx(c, k, idxs[k])
  {
    seq(|idxs|, k requires 0 <= k < |idxs| => WriteIdx(c, k, idxs[k]))
  }

  /** The new index array goes to copy c, then its size, then the two words. */
  ghost function Publish(c: nat, idxs: seq<nat>, n: nat): seq<Store> {
    IdxStores(c, idxs) + [WriteSize(c, n), SetConsistent(c), SetPersistent(c)]
  }

  ghost function InsertStores(l: Leaf, p: nat, e: Kv): seq<Store>
    requires l.Shaped() && p <= l.Size() < |l.entries|
  {
    [WriteEntry(l.v[l.cid].idxs[l.Size()], e)] + Publish(1 - l.cid, InsertIdxs(l, p), l.Size() + 1)
  }

  ghost function EraseStores(l: Leaf, p: nat): seq<Store>
    requires l.Shaped() && p < l.Size() <= |l.entries|
  {
    Publish(1 - l.cid, EraseIdxs(l, p), l.Size() - 1)
  }

  // ----- stores that leave what is durable alone -----

  /** A store that touches only a free slot's entry, the other copy up to the position
      just past the size, or the volatile word. */
  ghost predicate Background(l: Leaf, st: Store)
    requires l.Shaped() && l.v[l.pcid].size <= |l.entries|
  {
    var w, s := 1 - l.pcid, l.v[l.pcid].size;
    match st
    case WriteEntry(slot, _) => slot < |l.entries| && forall t :: 0 <= t < s ==> slot != SlotAt(l, l.pcid, t)
    case WriteIdx(c, pos, _) => c == w && pos <= s && pos < |l.entries|
    case WriteSize(c, _) => c == w
    case SetConsistent(c) => c < 2
    case SetPersistent(_) => false
  }

  /** Two leaves that recovery cannot tell apart, free slots included. */
  ghost predicate SameDurable(l: Leaf, r: Leaf)
    requires l.Shaped() && r.Shaped()
  {
    && |r.entries| == |l.entries| && r.pcid == l.pcid && r.v[r.pcid] == l.v[l.pcid]
    && (forall t :: 0 <= t < |l.entries| ==> SlotAt(r, r.pcid, t) == SlotAt(l, l.pcid, t))
    && (l.v[l.pcid].size <= |l.entries| ==>
          forall t :: 0 <= t < l.v[l.pcid].size && SlotAt(l, l.pcid, t) < |l.entries| ==>
            r.entries[SlotAt(l, l.pcid, t)] == l.entries[SlotAt(l, l.pcid, t)])
  }
}
