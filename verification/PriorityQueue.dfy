/** The two-heap priority queue of a shard and its index from keys to positions. The top
    elements sit in a heap of fixed size, all others in an overflow heap behind it. */
module PriorityQueue {

  const NTOP_K: nat := 8
  const WORD: nat := 0x1_0000_0000_0000_0000

  datatype Elem = Elem(key: nat, prio: nat)

  datatype Heap = MIN_HEAP | MAX_HEAP

  datatype Status = Ok | NotFound | Thrown

  /** Every element's key is indexed. */
  ghost predicate Mapped(es: seq<Elem>, m: map<nat, nat>) {
    forall i {:trigger es[i]} :: 0 <= i < |es| ==> es[i].key in m
  }

  /** The index sends every element's key to its global position. */
  ghost predicate Placed(es: seq<Elem>, m: map<nat, nat>, base: nat) {
    forall i {:trigger es[i]} :: 0 <= i < |es| ==> es[i].key in m && m[es[i].key] == base + i
  }

  /** The element at global position g has this key. */
  ghost predicate Holds(lo: seq<Elem>, hi: seq<Elem>, k: nat, g: nat, key: nat) {
    || (g < |lo| && lo[g].key == key)
    || (k <= g < k + |hi| && hi[g - k].key == key)
  }

  /** The index and the positions agree both ways, and the overflow heap is used only
      once the top heap is full. */
  ghost predicate Coherent(lo: seq<Elem>, hi: seq<Elem>, k: nat, m: map<nat, nat>) {
    && |lo| <= k && (hi != [] ==> 0 < k == |lo|)
    && Placed(lo, m, 0) && Placed(hi, m, k)
    && forall key {:trigger m[key]} :: key in m ==> Holds(lo, hi, k, m[key], key)
  }

  /** The elements carry the priorities on record for their keys. */
  ghost predicate Recorded(es: seq<Elem>, c: map<nat, nat>) {
    forall i {:trigger es[i]} :: 0 <= i < |es| ==> es[i].key in c && c[es[i].key] == es[i].prio
  }

  lemma RecordedShuffle(es: seq<Elem>, es': seq<Elem>, c: map<nat, nat>)
    requires Recorded(es, c) && multiset(es') == multiset(es)
    ensures Recorded(es', c)
  {
    forall i | 0 <= i < |es'|
      ensures es'[i].key in c && c[es'[i].key] == es'[i].prio
    {
      assert es'[i] in multiset(es);
      assert es'[i] in es;
    }
  }

  /** A record for a new key leaves the others alone. */
  lemma RecordNew(es: seq<Elem>, c: map<nat, nat>, e: Elem)
    requires Recorded(es, c) && e.key !in c
    ensures Recorded(es, c[e.key := e.prio]) && Recorded(es + [e], c[e.key := e.prio])
    ensures es != [] ==> Recorded(es[0 := e], c[e.key := e.prio])
  {
  }

  lemma RecordEvicted(lo: seq<Elem>, hi: seq<Elem>, hi': seq<Elem>, c: map<nat, nat>, e: Elem)
    requires lo != [] && Recorded(lo, c) && Recorded(hi, c) && e.key !in c
    requires multiset(hi') == multiset(hi + [lo[0]])
    ensures Recorded(lo[0 := e], c[e.key := e.prio]) && Recorded(hi', c[e.key := e.prio])
  {
    RecordNew(lo, c, e);
    RecordedShuffle(hi + [lo[0]], hi', c);
    RecordNew(hi', c, e);
  }

  lemma DistinctKeys(lo: seq<Elem>, hi: seq<Elem>, k: nat, m: map<nat, nat>, i: nat, j: nat)
    requires Coherent(lo, hi, k, m) && i < j < |lo + hi|
    ensures (lo + hi)[i].key != (lo + hi)[j].key
  {
    assert j >= |lo| ==> (lo + hi)[j] == hi[j - |lo|];
    assert i >= |lo| ==> (lo + hi)[i] == hi[i - |lo|];
  }

  /** A queue that holds a key twice is not coherent. */
  lemma KeyTwice(lo: seq<Elem>, hi: seq<Elem>, k: nat, m: map<nat, nat>, a: Elem, b: Elem)
    requires a.key == b.key && multiset{a, b} <= multiset(lo) + multiset(hi)
    ensures !Coherent(lo, hi, k, m)
  {
    var es := lo + hi;
    assert multiset(es) == multiset(lo) + multiset(hi);
    var i, j := TwoPlaces(es, a, b);
    if Coherent(lo, hi, k, m) {
      DistinctKeys(lo, hi, k, m, i, j);
    }
  }

  lemma TwoPlaces(es: seq<Elem>, a: Elem, b: Elem) returns (i: nat, j: nat)
    requires multiset{a, b} <= multiset(es)
    ensures i < j < |es| && {es[i], es[j]} == {a, b}
  {
    assert multiset(es)[a] >= multiset{a, b}[a] && multiset(es)[b] >= multiset{a, b}[b];
    if a == b {
      Twice(es, a);
      i, j :| 0 <= i < j < |es| && es[i] == a && es[j] == a;
    } else {
      assert a in es && b in es;
      var x :| 0 <= x < |es| && es[x] == a;
      var y :| 0 <= y < |es| && es[y] == b;
      i, j := if x < y then x else y, if x < y then y else x;
    }
  }

  lemma {:induction false} Twice(es: seq<Elem>, a: Elem)
    requires multiset(es)[a] >= 2
    ensures exists i, j :: 0 <= i < j < |es| && es[i] == a && es[j] == a
  {
    var n := |es| - 1;
    assert es == es[..n] + [es[n]];
    if es[n] != a {
      Twice(es[..n], a);
      var i, j :| 0 <= i < j < n && es[..n][i] == a && es[..n][j] == a;
      assert es[i] == a && es[j] == a;
    } else {
      assert multiset(es[..n])[a] >= 1;
      assert a in es[..n];
      var i :| 0 <= i < n && es[..n][i] == a;
      assert es[i] == a && es[n] == a;
    }
  }

  // ----- exchanging two elements of a heap -----

  function Exchange(es: seq<Elem>, i: nat, j: nat): (r: seq<Elem>)
    requires i < |es| && j < |es|
    ensures |r| == |es|
  {
    es[i := es[j]][j := es[i]]
  }

  lemma ExchangeElems(es: seq<Elem>, i: nat, j: nat)
    requires i < |es| && j < |es|
    ensures multiset(Exchange(es, i, j)) == multiset(es)
  {
  }

  function Repoint(es: seq<Elem>, m: map<nat, nat>, base: nat, i: nat, j: nat): (r: map<nat, nat>)
    requires i < |es| && j < |es|
  {
    m[es[i].key := base + j][es[j].key := base + i]
  }

  lemma ExchangePlaced(es: seq<Elem>, m: map<nat, nat>, base: nat, i: nat, j: nat)
    requires i < |es| && j < |es| && Placed(es, m, base)
    ensures Placed(Exchange(es, i, j), Repoint(es, m, base, i, j), base)
  {
    assert forall x, y :: 0 <= x < |es| && 0 <= y < |es| && x != y ==> es[x].key != es[y].key;
  }

  ghost predicate HasKey(es: seq<Elem>, key: nat) {
    exists i :: 0 <= i < |es| && es[i].key == key
  }

  /** One heap's elements in another order, the index following them and nothing else. */
  ghost predicate Rearranged(es: seq<Elem>, m: map<nat, nat>, es': seq<Elem>, m': map<nat, nat>, base: nat) {
    && multiset(es') == multiset(es) && m'.Keys == m.Keys
    && Placed(es', m', base)
    && forall key {:trigger m'[key]} :: key in m && !HasKey(es, key) ==> m'[key] == m[key]
  }

  lemma SameKeys(es: seq<Elem>, es': seq<Elem>, key: nat)
    requires multiset(es') == multiset(es) && HasKey(es, key)
    ensures HasKey(es', key)
  {
    var i :| 0 <= i < |es| && es[i].key == key;
    assert es[i] in multiset(es');
    assert es[i] in es';
  }

  lemma ExchangeRearranges(es: seq<Elem>, m: map<nat, nat>, base: nat, i: nat, j: nat)
    requires i < |es| && j < |es| && Placed(es, m, base)
    ensures Rearranged(es, m, Exchange(es, i, j), Repoint(es, m, base, i, j), base)
  {
    ExchangePlaced(es, m, base, i, j);
    ExchangeElems(es, i, j);
    assert HasKey(es, es[i].key) && HasKey(es, es[j].key);
  }

  lemma RearrangeTwice(es: seq<Elem>, m: map<nat, nat>, es1: seq<Elem>, m1: map<nat, nat>,
                       es2: seq<Elem>, m2: map<nat, nat>, base: nat)
    requires Rearranged(es, m, es1, m1, base) && Rearranged(es1, m1, es2, m2, base)
    ensures Rearranged(es, m, es2, m2, base)
  {
    forall key | key in m && !HasKey(es, key)
      ensures m2[key] == m[key]
    {
      if HasKey(es1, key) {
        SameKeys(es1, es, key);
      }
    }
  }

  lemma RearrangeLow(lo: seq<Elem>, hi: seq<Elem>, k: nat, m: map<nat, nat>, lo': seq<Elem>, m': map<nat, nat>)
    requires Coherent(lo, hi, k, m) && Rearranged(lo, m, lo', m', 0)
    ensures Coherent(lo', hi, k, m')
  {
    assert |lo| == |multiset(lo)| == |lo'|;
    forall i | 0 <= i < |hi|
      ensures m'[hi[i].key] == k + i
    {
      assert !HasKey(lo, hi[i].key);
    }
    forall key | key in m'
      ensures Holds(lo', hi, k, m'[key], key)
    {
      if HasKey(lo, key) {
        SameKeys(lo, lo', key);
      } else {
        assert Holds(lo, hi, k, m[key], key);
      }
    }
  }

  lemma RearrangeHigh(lo: seq<Elem>, hi: seq<Elem>, k: nat, m: map<nat, nat>, hi': seq<Elem>, m': map<nat, nat>)
    requires Coherent(lo, hi, k, m) && Rearranged(hi, m, hi', m', k)
    ensures Coherent(lo, hi', k, m')
  {
    assert |hi| == |multiset(hi)| == |hi'|;
    forall i | 0 <= i < |lo|
      ensures m'[lo[i].key] == i
    {
      assert !HasKey(hi, lo[i].key);
    }
    forall key | key in m'
      ensures Holds(lo, hi', k, m'[key], key)
    {
      if HasKey(hi, key) {
        SameKeys(hi, hi', key);
      } else {
        assert Holds(lo, hi, k, m[key], key);
      }
    }
  }

  /** What moving elements inside one heap does to the heap and the index. */
  ghost predicate Shuffled(es: seq<Elem>, m: map<nat, nat>, es': seq<Elem>, m': map<nat, nat>, base: nat) {
    && m'.Keys == m.Keys && multiset(es') == multiset(es)
    && (Placed(es, m, base) ==> Rearranged(es, m, es', m', base))
  }

  ghost predicate Moved(h: Heap, k: nat, lo: seq<Elem>, hi: seq<Elem>, m: map<nat, nat>,
                        lo': seq<Elem>, hi': seq<Elem>, m': map<nat, nat>)
  {
    if h == MIN_HEAP then hi' == hi && Shuffled(lo, m, lo', m', 0)
    else lo' == lo && Shuffled(hi, m, hi', m', k)
  }

  lemma MovedTwice(h: Heap, k: nat, lo: seq<Elem>, hi: seq<Elem>, m: map<nat, nat>,
                   lo1: seq<Elem>, hi1: seq<Elem>, m1: map<nat, nat>,
                   lo2: seq<Elem>, hi2: seq<Elem>, m2: map<nat, nat>)
    requires Moved(h, k, lo, hi, m, lo1, hi1, m1) && Moved(h, k, lo1, hi1, m1, lo2, hi2, m2)
    ensures Moved(h, k, lo, hi, m, lo2, hi2, m2)
  {
    if h == MIN_HEAP {
      if Placed(lo, m, 0) {
        RearrangeTwice(lo, m, lo1, m1, lo2, m2, 0);
      }
    } else if Placed(hi, m, k) {
      RearrangeTwice(hi, m, hi1, m1, hi2, m2, k);
    }
  }

  lemma MovedCoherent(h: Heap, k: nat, lo: seq<Elem>, hi: seq<Elem>, m: map<nat, nat>,
                      lo': seq<Elem>, hi': seq<Elem>, m': map<nat, nat>)
    requires Moved(h, k, lo, hi, m, lo', hi', m') && Coherent(lo, hi, k, m)
    ensures Coherent(lo', hi', k, m')
  {
    if h == MIN_HEAP {
      RearrangeLow(lo, hi, k, m, lo', m');
    } else {
      RearrangeHigh(lo, hi, k, m, hi', m');
    }
  }

  // ----- sifting -----

  /** Does priority a belong above priority b? */
  predicate Above(h: Heap, a: nat, b: nat) {
    if h == MIN_HEAP then a < b else a > b
  }

  function ParentOf(i: nat): nat { i / 2 }

  /** Moves the element at i up while it belongs above the element at half its index. */
  function Up(h: Heap, es: seq<Elem>, i: nat): (r: seq<Elem>)
    requires i < |es|
    ensures |r| == |es|
    decreases i
  {
    if i > 0 && Above(h, es[i].prio, es[ParentOf(i)].prio) then Up(h, Exchange(es, i, ParentOf(i)), ParentOf(i)) else es
  }

  /** The one of i and its two children that belongs on top. */
  function Top(h: Heap, es: seq<Elem>, i: nat): (r: nat)
    ensures r == i || i < r < |es|
  {
    var right, left := 2 * i + 1, 2 * i + 2;
    var top := if right < |es| && Above(h, es[right].prio, es[i].prio) then right else i;
    if left < |es| && Above(h, es[left].prio, es[top].prio) then left else top
  }

  /** Moves the element at i down while a child belongs above it. */
  function Down(h: Heap, es: seq<Elem>, i: nat): (r: seq<Elem>)
    ensures |r| == |es|
    decreases |es| - i
  {
    var top := Top(h, es, i);
    if top != i then Down(h, Exchange(es, top, i), top) else es
  }

  lemma {:induction false} UpElems(h: Heap, es: seq<Elem>, i: nat)
    requires i < |es|
    ensures multiset(Up(h, es, i)) == multiset(es)
    decreases i
  {
    if i > 0 && Above(h, es[i].prio, es[ParentOf(i)].prio) {
      ExchangeElems(es, i, ParentOf(i));
      UpElems(h, Exchange(es, i, ParentOf(i)), ParentOf(i));
    }
  }

  lemma {:induction false} DownElems(h: Heap, es: seq<Elem>, i: nat)
    ensures multiset(Down(h, es, i)) == multiset(es)
    decreases |es| - i
  {
    var top := Top(h, es, i);
    if top != i {
      ExchangeElems(es, top, i);
      DownElems(h, Exchange(es, top, i), top);
    }
  }

  // ----- changing a priority -----

  function Bump(es: seq<Elem>, i: nat, prio: nat): (r: seq<Elem>)
    requires i < |es|
  {
    es[i := Elem(es[i].key, prio)]
  }

  lemma BumpLow(lo: seq<Elem>, hi: seq<Elem>, k: nat, m: map<nat, nat>, i: nat, prio: nat)
    requires Coherent(lo, hi, k, m) && i < |lo|
    ensures Coherent(Bump(lo, i, prio), hi, k, m)
  {
  }

  lemma BumpHigh(lo: seq<Elem>, hi: seq<Elem>, k: nat, m: map<nat, nat>, i: nat, prio: nat)
    requires Coherent(lo, hi, k, m) && i < |hi|
    ensures Coherent(lo, Bump(hi, i, prio), k, m)
  {
  }

  function SwapIndex(lo: seq<Elem>, hi: seq<Elem>, k: nat, m: map<nat, nat>): map<nat, nat>
    requires lo != [] && hi != []
  {
    m[lo[0].key := k][hi[0].key := 0]
  }

  lemma SwapRoots(lo: seq<Elem>, hi: seq<Elem>, k: nat, m: map<nat, nat>)
    requires Coherent(lo, hi, k, m) && hi != []
    ensures Coherent(lo[0 := hi[0]], hi[0 := lo[0]], k, SwapIndex(lo, hi, k, m))
  {
    var m', a, b := SwapIndex(lo, hi, k, m), lo[0].key, hi[0].key;
    assert m[a] == 0 && m[b] == k;
    assert Placed(lo[0 := hi[0]], m', 0);
    assert Placed(hi[0 := lo[0]], m', k);
    forall key | key in m'
      ensures Holds(lo[0 := hi[0]], hi[0 := lo[0]], k, m'[key], key)
    {
      if key != a && key != b {
        assert m'[key] == m[key] && Holds(lo, hi, k, m[key], key);
      }
    }
  }

  /** The two heaps after the overflow root took the place of a smaller top root. */
  function Promoted(lo: seq<Elem>, hi: seq<Elem>): (r: (seq<Elem>, seq<Elem>))
    requires lo != [] && hi != []
  {
    if hi[0].prio > lo[0].prio then (Down(MIN_HEAP, lo[0 := hi[0]], 0), hi[0 := lo[0]]) else (lo, hi)
  }

  /** The two heaps after the top root made way for a greater overflow root. */
  function Demoted(lo: seq<Elem>, hi: seq<Elem>): (r: (seq<Elem>, seq<Elem>))
    requires lo != [] && hi != []
  {
    if lo[0].prio < hi[0].prio then (lo[0 := hi[0]], Down(MAX_HEAP, hi[0 := lo[0]], 0)) else (lo, hi)
  }

  /** The two heaps after the priority at global position g went up. */
  function Raised(lo: seq<Elem>, hi: seq<Elem>, k: nat, g: nat, prio: nat): (r: (seq<Elem>, seq<Elem>))
    requires if g < k then g < |lo| else g < k + |hi| && lo != []
  {
    if g < k then (Down(MIN_HEAP, Bump(lo, g, prio), g), hi)
    else Promoted(lo, Up(MAX_HEAP, Bump(hi, g - k, prio), g - k))
  }

  /** The two heaps after the priority at global position g went down. */
  function Lowered(lo: seq<Elem>, hi: seq<Elem>, k: nat, g: nat, prio: nat): (r: (seq<Elem>, seq<Elem>))
    requires if g < k then g < |lo| else g < k + |hi|
  {
    if g >= k then (lo, Down(MAX_HEAP, Bump(hi, g - k, prio), g - k))
    else
      var lo' := Up(MIN_HEAP, Bump(lo, g, prio), g);
      if hi == [] then (lo', hi) else Demoted(lo', hi)
  }

  // ----- inserting -----

  /** An index insert never replaces an entry. */
  function AddKey(m: map<nat, nat>, key: nat, g: nat): map<nat, nat> {
    if key in m then m else m[key := g]
  }

  lemma PushLow(lo: seq<Elem>, hi: seq<Elem>, k: nat, m: map<nat, nat>, e: Elem)
    requires Coherent(lo, hi, k, m) && |lo| < k && e.key !in m
    ensures Coherent(lo + [e], hi, k, AddKey(m, e.key, |lo|))
  {
    forall key | key in m
      ensures Holds(lo + [e], hi, k, m[key], key)
    {
      assert Holds(lo, hi, k, m[key], key);
    }
  }

  lemma PushHigh(lo: seq<Elem>, hi: seq<Elem>, k: nat, m: map<nat, nat>, e: Elem)
    requires Coherent(lo, hi, k, m) && 0 < k == |lo| && e.key !in m
    ensures Coherent(lo, hi + [e], k, AddKey(m, e.key, k + |hi|))
  {
    forall key | key in m
      ensures Holds(lo, hi + [e], k, m[key], key)
    {
      assert Holds(lo, hi, k, m[key], key);
    }
  }

  /** The top root goes to the end of the overflow heap and the new element takes its place. */
  lemma Replace(lo: seq<Elem>, hi: seq<Elem>, k: nat, m: map<nat, nat>, e: Elem)
    requires Coherent(lo, hi, k, m) && 0 < k == |lo| && e.key !in m
    ensures Coherent(lo[0 := e], hi + [lo[0]], k, m[lo[0].key := k + |hi|][e.key := 0])
  {
    var m', a := m[lo[0].key := k + |hi|][e.key := 0], lo[0].key;
    assert m[a] == 0;
    assert Placed(lo[0 := e], m', 0);
    assert Placed(hi + [lo[0]], m', k);
    forall key | key in m'
      ensures Holds(lo[0 := e], hi + [lo[0]], k, m'[key], key)
    {
      if key == a {
        assert (hi + [lo[0]])[|hi|].key == a;
      } else if key != e.key {
        assert m'[key] == m[key] && Holds(lo, hi, k, m[key], key);
      }
    }
  }

  /** The same with the overflow heap rearranged in between. */
  lemma ReplaceRearranged(lo: seq<Elem>, hi: seq<Elem>, k: nat, m: map<nat, nat>, e: Elem,
                          hi': seq<Elem>, m': map<nat, nat>)
    requires Coherent(lo, hi, k, m) && 0 < k == |lo| && e.key !in m
    requires Shuffled(hi + [lo[0]], m[lo[0].key := k + |hi|], hi', m', k)
    ensures Coherent(lo[0 := e], hi', k, AddKey(m', e.key, 0))
  {
    var last, m1 := hi + [lo[0]], m[lo[0].key := k + |hi|];
    assert Placed(last, m1, k);
    Replace(lo, hi, k, m, e);
    assert !HasKey(last, e.key);
    assert Rearranged(last, m1[e.key := 0], hi', m'[e.key := 0], k);
    RearrangeHigh(lo[0 := e], last, k, m1[e.key := 0], hi', m'[e.key := 0]);
  }

  /** The two heaps after an insertion. */
  function Inserted(lo: seq<Elem>, hi: seq<Elem>, k: nat, e: Elem): (r: (seq<Elem>, seq<Elem>))
    requires |lo| < k || lo != []
  {
    if |lo| < k then (Up(MIN_HEAP, lo + [e], |lo|), hi)
    else if lo[0].prio > e.prio then (lo, Up(MAX_HEAP, hi + [e], |hi|))
    else (Down(MIN_HEAP, lo[0 := e], 0), Up(MAX_HEAP, hi + [lo[0]], |hi|))
  }

  /** An insertion adds one element and loses none. */
  lemma InsertedElems(lo: seq<Elem>, hi: seq<Elem>, k: nat, e: Elem)
    requires |lo| < k || lo != []
    ensures var r := Inserted(lo, hi, k, e);
            multiset(r.0) + multiset(r.1) == multiset(lo) + multiset(hi) + multiset{e}
  {
    if |lo| < k {
      UpElems(MIN_HEAP, lo + [e], |lo|);
    } else if lo[0].prio > e.prio {
      UpElems(MAX_HEAP, hi + [e], |hi|);
    } else {
      assert lo[0 := e] == [e] + lo[1..] && lo == [lo[0]] + lo[1..];
      DownElems(MIN_HEAP, lo[0 := e], 0);
      UpElems(MAX_HEAP, hi + [lo[0]], |hi|);
    }
  }

  lemma InsertedTwice(lo: seq<Elem>, hi: seq<Elem>, k: nat, e: Elem, twin: Elem, m: map<nat, nat>)
    requires |lo| < k || lo != []
    requires twin.key == e.key && multiset{twin} <= multiset(lo) + multiset(hi)
    ensures !Coherent(Inserted(lo, hi, k, e).0, Inserted(lo, hi, k, e).1, k, m)
  {
    InsertedElems(lo, hi, k, e);
    KeyTwice(Inserted(lo, hi, k, e).0, Inserted(lo, hi, k, e).1, k, m, twin, e);
  }

  class PriorityQueue {
    const minheapSize: nat
    var minElems: seq<Elem>
    var maxElems: seq<Elem>
    var keymap: map<nat, nat>

    /** The abstract queue: the priority of every key in it. */
    ghost var contents: map<nat, nat>

    ghost predicate Valid()
      reads this
    {
      && Coherent(minElems, maxElems, minheapSize, keymap)
      && contents.Keys == keymap.Keys
      && Recorded(minElems, contents) && Recorded(maxElems, contents)
    }

    function HeapOf(h: Heap): seq<Elem>
      reads this
    {
      if h == MIN_HEAP then minElems else maxElems
    }

    constructor (npartitions: nat)
      requires 0 < npartitions
      ensures Valid() && minheapSize == NTOP_K / npartitions && contents == map[]
    {
      minheapSize := NTOP_K / npartitions;
      minElems, maxElems, keymap, contents := [], [], map[], map[];
    }

    /** Exchanges two elements and their index entries; nothing happens if a key is not indexed. */
    method Swap(h: Heap, i: nat, j: nat)
      requires i < |HeapOf(h)| && j < |HeapOf(h)|
      modifies this`minElems, this`maxElems, this`keymap
      ensures Moved(h, minheapSize, old(minElems), old(maxElems), old(keymap), minElems, maxElems, keymap)
      ensures HeapOf(h) == if old(HeapOf(h)[i].key in keymap && HeapOf(h)[j].key in keymap)
                           then old(Exchange(HeapOf(h), i, j)) else old(HeapOf(h))
      ensures old(Mapped(HeapOf(h), keymap)) ==> Mapped(HeapOf(h), keymap)
    {
      var es := HeapOf(h);
      if es[i].key !in keymap || es[j].key !in keymap {
        return;
      }
      ghost var m := keymap;
      var base := if h == MIN_HEAP then 0 else minheapSize;
      keymap := Repoint(es, keymap, base, i, j);
      if h == MIN_HEAP {
        minElems := Exchange(es, i, j);
      } else {
        maxElems := Exchange(es, i, j);
      }
      ExchangeElems(es, i, j);
      if Placed(es, m, base) {
        ExchangeRearranges(es, m, base, i, j);
      }
    }

    method SiftUp(h: Heap, start: nat)
      requires start < |HeapOf(h)| && Mapped(HeapOf(h), keymap)
      modifies this`minElems, this`maxElems, this`keymap
      ensures Moved(h, minheapSize, old(minElems), old(maxElems), old(keymap), minElems, maxElems, keymap)
      ensures Mapped(HeapOf(h), keymap) && HeapOf(h) == old(Up(h, HeapOf(h), start))
    {
      var i: nat := start;
      ghost var lo0, hi0, m0, goal := minElems, maxElems, keymap, Up(h, HeapOf(h), start);
      while i > 0 && Above(h, HeapOf(h)[i].prio, HeapOf(h)[ParentOf(i)].prio)
        invariant i < |HeapOf(h)| && Mapped(HeapOf(h), keymap)
        invariant Moved(h, minheapSize, lo0, hi0, m0, minElems, maxElems, keymap)
        invariant Up(h, HeapOf(h), i) == goal
      {
        ghost var lo, hi, m := minElems, maxElems, keymap;
        Swap(h, i, ParentOf(i));
        MovedTwice(h, minheapSize, lo0, hi0, m0, lo, hi, m, minElems, maxElems, keymap);
        i := ParentOf(i);
      }
    }

    /** The one of i and its two children that belongs on top. */
    method Topmost(h: Heap, i: nat) returns (top: nat)
      ensures top == Top(h, HeapOf(h), i)
    {
      var right, left := 2 * i + 1, 2 * i + 2;
      top := i;
      if right < |HeapOf(h)| && Above(h, HeapOf(h)[right].prio, HeapOf(h)[i].prio) {
        top := right;
      }
      if left < |HeapOf(h)| && Above(h, HeapOf(h)[left].prio, HeapOf(h)[top].prio) {
        top := left;
      }
    }

    method Heapify(h: Heap, i: nat)
      requires Mapped(HeapOf(h), keymap)
      modifies this`minElems, this`maxElems, this`keymap
      ensures Moved(h, minheapSize, old(minElems), old(maxElems), old(keymap), minElems, maxElems, keymap)
      ensures Mapped(HeapOf(h), keymap) && HeapOf(h) == old(Down(h, HeapOf(h), i))
      decreases |HeapOf(h)| - i
    {
      var top := Topmost(h, i);
      if top != i {
        ghost var lo0, hi0, m0 := minElems, maxElems, keymap;
        Swap(h, top, i);
        ghost var lo, hi, m := minElems, maxElems, keymap;
        Heapify(h, top);
        MovedTwice(h, minheapSize, lo0, hi0, m0, lo, hi, m, minElems, maxElems, keymap);
      }
    }

    /** Moves elements inside a heap of a coherent queue: the queue stays as it was. */
    lemma MovedValid(h: Heap, lo: seq<Elem>, hi: seq<Elem>, m: map<nat, nat>)
      requires Coherent(lo, hi, minheapSize, m) && contents.Keys == m.Keys
      requires Recorded(lo, contents) && Recorded(hi, contents)
      requires Moved(h, minheapSize, lo, hi, m, minElems, maxElems, keymap)
      ensures Valid()
    {
      MovedCoherent(h, minheapSize, lo, hi, m, minElems, maxElems, keymap);
      RecordedShuffle(lo, minElems, contents);
      RecordedShuffle(hi, maxElems, contents);
    }

    method SiftUpIn(h: Heap, start: nat)
      requires Valid() && start < |HeapOf(h)|
      modifies this
      ensures Valid() && contents == old(contents) && keymap.Keys == old(keymap.Keys)
      ensures HeapOf(h) == old(Up(h, HeapOf(h), start))
      ensures if h == MIN_HEAP then maxElems == old(maxElems) else minElems == old(minElems)
    {
      ghost var lo, hi, m := minElems, maxElems, keymap;
      SiftUp(h, start);
      MovedValid(h, lo, hi, m);
    }

    method HeapifyIn(h: Heap, i: nat)
      requires Valid()
      modifies this
      ensures Valid() && contents == old(contents) && keymap.Keys == old(keymap.Keys)
      ensures HeapOf(h) == old(Down(h, HeapOf(h), i))
      ensures if h == MIN_HEAP then maxElems == old(maxElems) else minElems == old(minElems)
    {
      ghost var lo, hi, m := minElems, maxElems, keymap;
      Heapify(h, i);
      MovedValid(h, lo, hi, m);
    }

    method ExchangeRoots()
      requires Valid() && maxElems != []
      modifies this
      ensures Valid() && contents == old(contents) && keymap.Keys == old(keymap.Keys)
      ensures minElems == old(minElems[0 := maxElems[0]]) && maxElems == old(maxElems[0 := minElems[0]])
    {
      SwapRoots(minElems, maxElems, minheapSize, keymap);
      keymap := SwapIndex(minElems, maxElems, minheapSize, keymap);
      minElems, maxElems := minElems[0 := maxElems[0]], maxElems[0 := minElems[0]];
    }

    method SetPrio(key: nat, prio: nat)
      requires Valid() && key in keymap
      modifies this
      ensures Valid() && contents == old(contents)[key := prio] && keymap == old(keymap)
      ensures var g := keymap[key];
              if g < minheapSize then minElems == old(Bump(minElems, g, prio)) && maxElems == old(maxElems)
              else minElems == old(minElems) && maxElems == old(Bump(maxElems, g - minheapSize, prio))
    {
      var g := keymap[key];
      assert Holds(minElems, maxElems, minheapSize, g, key);
      if g < minheapSize {
        BumpLow(minElems, maxElems, minheapSize, keymap, g, prio);
        contents := contents[key := prio];
        minElems := Bump(minElems, g, prio);
      } else {
        BumpHigh(minElems, maxElems, minheapSize, keymap, g - minheapSize, prio);
        contents := contents[key := prio];
        maxElems := Bump(maxElems, g - minheapSize, prio);
      }
    }

    method PromoteRoot()
      requires Valid() && maxElems != []
      modifies this
      ensures Valid() && contents == old(contents) && keymap.Keys == old(keymap.Keys)
      ensures (minElems, maxElems) == old(Promoted(minElems, maxElems))
    {
      if maxElems[0].prio > minElems[0].prio {
        ExchangeRoots();
        HeapifyIn(MIN_HEAP, 0);
      }
    }

    method DemoteRoot()
      requires Valid() && maxElems != []
      modifies this
      ensures Valid() && contents == old(contents) && keymap.Keys == old(keymap.Keys)
      ensures (minElems, maxElems) == old(Demoted(minElems, maxElems))
    {
      if minElems[0].prio < maxElems[0].prio {
        ExchangeRoots();
        HeapifyIn(MAX_HEAP, 0);
      }
    }

    function PrioAt(g: nat): nat
      requires if g < minheapSize then g < |minElems| else g < minheapSize + |maxElems|
      reads this
    {
      if g < minheapSize then minElems[g].prio else maxElems[g - minheapSize].prio
    }

    lemma Located(key: nat)
      requires Valid() && key in keymap
      ensures var g := keymap[key];
              && (if g < minheapSize then g < |minElems| else g < minheapSize + |maxElems| && minElems != [])
              && PrioAt(g) == contents[key]
    {
      assert Holds(minElems, maxElems, minheapSize, keymap[key], key);
    }

    method IncreasePrio(key: nat, delta: nat) returns (r: Status)
      requires Valid()
      modifies this
      ensures Valid() && keymap.Keys == old(keymap.Keys)
      ensures r == if key in old(keymap) then Ok else NotFound
      ensures r == NotFound ==> unchanged(this)
      ensures r == Ok ==> contents == old(contents[key := (contents[key] + delta) % WORD])
      ensures r == Ok ==> (minElems, maxElems) ==
                          old(Raised(minElems, maxElems, minheapSize, keymap[key], (contents[key] + delta) % WORD))
    {
      if key !in keymap {
        return NotFound;
      }
      var g := keymap[key];
      Located(key);
      Raise(key, (PrioAt(g) + delta) % WORD);
      r := Ok;
    }

    method Raise(key: nat, prio: nat)
      requires Valid() && key in keymap
      modifies this
      ensures Valid() && keymap.Keys == old(keymap.Keys) && contents == old(contents)[key := prio]
      ensures (minElems, maxElems) == old(Raised(minElems, maxElems, minheapSize, keymap[key], prio))
    {
      var g := keymap[key];
      Located(key);
      SetPrio(key, prio);
      if g < minheapSize {
        HeapifyIn(MIN_HEAP, g);
      } else {
        SiftUpIn(MAX_HEAP, g - minheapSize);
        PromoteRoot();
      }
    }

    /** Lowering a top element looks at the root of the overflow heap, which throws when
        there is none; the priority has been changed by then. */
    method DecreasePrio(key: nat, delta: nat) returns (r: Status)
      requires Valid()
      modifies this
      ensures Valid() && keymap.Keys == old(keymap.Keys)
      ensures r == if key !in old(keymap) then NotFound
                   else if old(keymap)[key] < minheapSize && old(maxElems) == [] then Thrown else Ok
      ensures r == NotFound ==> unchanged(this)
      ensures r != NotFound ==> contents == old(contents[key := (contents[key] - delta) % WORD])
      ensures r != NotFound ==> (minElems, maxElems) ==
                                old(Lowered(minElems, maxElems, minheapSize, keymap[key],
                                    (contents[key] - delta) % WORD))
    {
      if key !in keymap {
        return NotFound;
      }
      var g := keymap[key];
      Located(key);
      r := Lower(key, (PrioAt(g) - delta) % WORD);
    }

    method Lower(key: nat, prio: nat) returns (r: Status)
      requires Valid() && key in keymap
      modifies this
      ensures Valid() && keymap.Keys == old(keymap.Keys) && contents == old(contents)[key := prio]
      ensures (minElems, maxElems) == old(Lowered(minElems, maxElems, minheapSize, keymap[key], prio))
      ensures r == if old(keymap)[key] < minheapSize && old(maxElems) == [] then Thrown else Ok
    {
      var g := keymap[key];
      Located(key);
      if g >= minheapSize {
        LowerOverflow(key, prio);
        r := Ok;
      } else {
        r := LowerTop(key, prio);
      }
    }

    method LowerOverflow(key: nat, prio: nat)
      requires Valid() && key in keymap && minheapSize <= keymap[key] < minheapSize + |maxElems|
      modifies this
      ensures Valid() && keymap.Keys == old(keymap.Keys) && contents == old(contents)[key := prio]
      ensures (minElems, maxElems) == old(Lowered(minElems, maxElems, minheapSize, keymap[key], prio))
    {
      var g := keymap[key];
      SetPrio(key, prio);
      HeapifyIn(MAX_HEAP, g - minheapSize);
    }

    method LowerTop(key: nat, prio: nat) returns (r: Status)
      requires Valid() && key in keymap && keymap[key] < minheapSize && keymap[key] < |minElems|
      modifies this
      ensures Valid() && keymap.Keys == old(keymap.Keys) && contents == old(contents)[key := prio]
      ensures (minElems, maxElems) == old(Lowered(minElems, maxElems, minheapSize, keymap[key], prio))
      ensures r == if old(maxElems) == [] then Thrown else Ok
    {
      var g := keymap[key];
      SetPrio(key, prio);
      SiftUpIn(MIN_HEAP, g);
      if maxElems == [] {
        r := Thrown;
      } else {
        DemoteRoot();
        r := Ok;
      }
    }

    /** Appends an element to the top heap and indexes its key. */
    method PushTop(e: Elem)
      requires Valid() && |minElems| < minheapSize
      modifies this
      ensures minElems == old(minElems) + [e] && Mapped(minElems, keymap) && maxElems == old(maxElems)
      ensures keymap.Keys == old(keymap.Keys) + {e.key} && contents == old(contents)[e.key := e.prio]
      ensures e.key !in old(keymap) ==> Valid()
    {
      if e.key !in keymap {
        PushLow(minElems, maxElems, minheapSize, keymap, e);
        RecordNew(minElems, contents, e);
        RecordNew(maxElems, contents, e);
      }
      keymap := AddKey(keymap, e.key, |minElems|);
      minElems := minElems + [e];
      contents := contents[e.key := e.prio];
    }

    /** Appends an element to the overflow heap and indexes its key. */
    method PushOverflow(e: Elem)
      requires Valid() && 0 < minheapSize == |minElems|
      modifies this
      ensures maxElems == old(maxElems) + [e] && Mapped(maxElems, keymap) && minElems == old(minElems)
      ensures keymap.Keys == old(keymap.Keys) + {e.key} && contents == old(contents)[e.key := e.prio]
      ensures e.key !in old(keymap) ==> Valid()
    {
      if e.key !in keymap {
        PushHigh(minElems, maxElems, minheapSize, keymap, e);
        RecordNew(minElems, contents, e);
        RecordNew(maxElems, contents, e);
      }
      keymap := AddKey(keymap, e.key, minheapSize + |maxElems|);
      maxElems := maxElems + [e];
      contents := contents[e.key := e.prio];
    }

    method Push(h: Heap, e: Elem)
      requires Valid() && (if h == MIN_HEAP then |minElems| < minheapSize else 0 < minheapSize == |minElems|)
      modifies this
      ensures HeapOf(h) == old(HeapOf(h)) + [e] && Mapped(HeapOf(h), keymap)
      ensures if h == MIN_HEAP then maxElems == old(maxElems) else minElems == old(minElems)
      ensures keymap.Keys == old(keymap.Keys) + {e.key} && contents == old(contents)[e.key := e.prio]
      ensures e.key !in old(keymap) ==> Valid()
    {
      if h == MIN_HEAP {
        PushTop(e);
      } else {
        PushOverflow(e);
      }
    }

    /** Appends an element to a heap and moves it up. */
    method InsertInto(h: Heap, e: Elem)
      requires Valid() && (if h == MIN_HEAP then |minElems| < minheapSize else 0 < minheapSize == |minElems|)
      modifies this
      ensures HeapOf(h) == Up(h, old(HeapOf(h)) + [e], |old(HeapOf(h))|)
      ensures if h == MIN_HEAP then maxElems == old(maxElems) else minElems == old(minElems)
      ensures keymap.Keys == old(keymap.Keys) + {e.key} && contents == old(contents)[e.key := e.prio]
      ensures e.key !in old(keymap) ==> Valid()
    {
      ghost var isNew := e.key !in keymap;
      Push(h, e);
      ghost var lo, hi, m := minElems, maxElems, keymap;
      SiftUp(h, |HeapOf(h)| - 1);
      if isNew {
        MovedValid(h, lo, hi, m);
      }
    }

    /** Copies the top root to the overflow heap and moves it up there. */
    method EvictRoot()
      requires minElems != [] && minElems[0].key in keymap && Mapped(maxElems, keymap)
      modifies this`minElems, this`maxElems, this`keymap
      ensures minElems == old(minElems) && maxElems == old(Up(MAX_HEAP, maxElems + [minElems[0]], |maxElems|))
      ensures keymap.Keys == old(keymap.Keys)
      ensures Shuffled(old(maxElems + [minElems[0]]), old(keymap[minElems[0].key := minheapSize + |maxElems|]),
                       maxElems, keymap, minheapSize)
    {
      var minimum := minElems[0];
      maxElems := maxElems + [minimum];
      keymap := keymap[minimum.key := minheapSize + |maxElems| - 1];
      SiftUp(MAX_HEAP, |maxElems| - 1);
    }

    /** Replaces the top root by an element and moves it down. */
    method SeatRoot(e: Elem)
      requires minElems != [] && Mapped(minElems, keymap)
      modifies this`minElems, this`maxElems, this`keymap
      ensures minElems == old(Down(MIN_HEAP, minElems[0 := e], 0)) && maxElems == old(maxElems)
      ensures keymap.Keys == old(keymap.Keys) + {e.key}
      ensures Moved(MIN_HEAP, minheapSize, old(minElems[0 := e]), old(maxElems), old(AddKey(keymap, e.key, 0)),
                    minElems, maxElems, keymap)
    {
      keymap := AddKey(keymap, e.key, 0);
      minElems := minElems[0 := e];
      Heapify(MIN_HEAP, 0);
    }

    method InsertReplacing(e: Elem)
      requires Valid() && 0 < minheapSize == |minElems| && minElems[0].prio <= e.prio
      modifies this
      ensures (minElems, maxElems) == old(Inserted(minElems, maxElems, minheapSize, e))
      ensures keymap.Keys == old(keymap.Keys) + {e.key} && contents == old(contents)[e.key := e.prio]
      ensures e.key !in old(keymap) ==> Valid()
    {
      ghost var lo, hi, m, c := minElems, maxElems, keymap, contents;
      EvictRoot();
      ghost var hi1, m1 := maxElems, keymap;
      SeatRoot(e);
      contents := contents[e.key := e.prio];
      if e.key !in m {
        Reseated(lo, hi, m, c, e, hi1, m1);
      }
    }

    lemma Reseated(lo: seq<Elem>, hi: seq<Elem>, m: map<nat, nat>, c: map<nat, nat>, e: Elem,
                   hi1: seq<Elem>, m1: map<nat, nat>)
      requires Coherent(lo, hi, minheapSize, m) && 0 < minheapSize == |lo| && e.key !in m
      requires c.Keys == m.Keys && Recorded(lo, c) && Recorded(hi, c) && contents == c[e.key := e.prio]
      requires Shuffled(hi + [lo[0]], m[lo[0].key := minheapSize + |hi|], hi1, m1, minheapSize)
      requires Moved(MIN_HEAP, minheapSize, lo[0 := e], hi1, AddKey(m1, e.key, 0), minElems, maxElems, keymap)
      ensures Valid()
    {
      ReplaceRearranged(lo, hi, minheapSize, m, e, hi1, m1);
      RecordEvicted(lo, hi, hi1, c, e);
      MovedValid(MIN_HEAP, lo[0 := e], hi1, AddKey(m1, e.key, 0));
    }

    /** The element already there under the same key, if any. */
    lemma Twin(e: Elem) returns (twin: Elem)
      requires Valid()
      ensures e.key in keymap ==> twin.key == e.key && multiset{twin} <= multiset(minElems) + multiset(maxElems)
    {
      twin := e;
      if e.key in keymap {
        Located(e.key);
        twin := Elem(e.key, contents[e.key]);
        assert Holds(minElems, maxElems, minheapSize, keymap[e.key], e.key);
        assert twin in minElems || twin in maxElems;
      }
    }

    /** Inserts an element. The queue stays coherent exactly when the key is new. */
    method Insert(key: nat, prio: nat) returns (r: Status)
      requires Valid()
      modifies this
      ensures r == if minheapSize == 0 then Thrown else Ok
      ensures r == Thrown ==> unchanged(this)
      ensures r == Ok ==> (minElems, maxElems) == old(Inserted(minElems, maxElems, minheapSize, Elem(key, prio)))
      ensures r == Ok ==> (Valid() <==> key !in old(keymap))
      ensures r == Ok ==> keymap.Keys == old(keymap.Keys) + {key} && contents == old(contents)[key := prio]
    {
      if minheapSize == 0 {
        return Thrown;
      }
      ghost var lo, hi, e := minElems, maxElems, Elem(key, prio);
      ghost var twin := Twin(e);
      if |minElems| < minheapSize {
        InsertInto(MIN_HEAP, Elem(key, prio));
      } else if minElems[0].prio > prio {
        InsertInto(MAX_HEAP, Elem(key, prio));
      } else {
        InsertReplacing(Elem(key, prio));
      }
      if key in old(keymap) {
        InsertedTwice(lo, hi, minheapSize, e, twin, keymap);
      }
      r := Ok;
    }
  }
}
