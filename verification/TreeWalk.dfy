/** Walking the tree with its iterator. Incrementing steps from the last entry of a leaf to
    the first position of the next leaf, whether or not that leaf holds an entry; erasing
    leaves emptied leaves in the chain. */
module TreeWalk {
  import opened LeafModel
  import opened TreeModel
  import opened TreeTheorems

  /** A leaf and a position in it, as the iterator stores them. */
  datatype Iter = Iter(node: nat, pos: nat)

  predicate OnLeaf(t: Tree, it: Iter) {
    it.node in t.pool && t.pool[it.node].LeafRec? && t.pool[it.node].leaf.Shaped()
  }

  /** operator++, over the `next` fields of the pool. */
  function Next(t: Tree, it: Iter): Iter
    requires OnLeaf(t, it)
  {
    var n := t.pool[it.node];
    if it.pos + 1 == n.leaf.Size() && n.next != NULL then Iter(n.next, 0) else Iter(it.node, it.pos + 1)
  }

  /** The iterator points to an entry of its leaf. */
  ghost predicate Live(t: Tree, it: Iter) {
    OnLeaf(t, it) && Valid(t.pool[it.node].leaf) && it.pos < t.pool[it.node].leaf.Size()
  }

  function Deref(t: Tree, it: Iter): Kv
    requires Live(t, it)
  {
    Contents(t.pool[it.node].leaf)[it.pos]
  }

  /** The iterator after n increments. */
  ghost function Steps(t: Tree, it: Iter, n: nat): Iter {
    if n == 0 then it
    else
      var before := Steps(t, it, n - 1);
      if OnLeaf(t, before) then Next(t, before) else before
  }

  /** After k increments the iterator has not reached `end`, and points to entry e. */
  ghost predicate Meets(t: Tree, start: Iter, end: Iter, k: nat, e: Kv) {
    var it := Steps(t, start, k);
    it != end && Live(t, it) && Deref(t, it) == e
  }

  ghost function First(sh: Shape): Iter
    requires 0 < |sh.chain|
  {
    Iter(sh.chain[0], 0)
  }

  /** Behind the last entry of the last leaf. */
  ghost function Last(t: Tree, sh: Shape): Iter
    requires 0 < |sh.chain|
  {
    var p := sh.chain[|sh.chain| - 1];
    Iter(p, |Held(t, p)|)
  }

  /** Every leaf but the last one holds an entry. */
  ghost predicate NoneEmptied(t: Tree) {
    forall p <- t.pool :: t.pool[p].LeafRec? && t.pool[p].next != NULL ==> Held(t, p) != []
  }

  // ----- positions in the chain -----

  lemma LeafAt(t: Tree, sh: Shape, slots: nat, i: nat)
    requires TreeOk(t, sh, slots) && i < |sh.chain|
    ensures var p := sh.chain[i];
            && p in t.pool && t.pool[p].LeafRec? && Valid(t.pool[p].leaf)
            && Held(t, p) == Contents(t.pool[p].leaf) && |Held(t, p)| == t.pool[p].leaf.Size()
            && t.pool[p].next == (if i == |sh.chain| - 1 then NULL else sh.chain[i + 1])
            && p != NULL
  {
    assert LinkOk(t, sh, i);
    assert NodeOk(t, sh, slots, sh.chain[i]);
  }

  /** How many entries come before part i. */
  ghost function Before(parts: seq<seq<Kv>>, i: nat): nat
    requires i <= |parts|
  {
    if i == 0 then 0 else Before(parts, i - 1) + |parts[i - 1]|
  }

  lemma {:induction false} FlatAt(parts: seq<seq<Kv>>, i: nat)
    requires i <= |parts|
    ensures Before(parts, i) + |Flat(parts, i)| == |Flat(parts, 0)|
    ensures Flat(parts, 0)[Before(parts, i)..] == Flat(parts, i)
  {
    if i > 0 {
      FlatAt(parts, i - 1);
      var whole, b, head := Flat(parts, 0), Before(parts, i - 1), parts[i - 1];
      assert whole[b..] == head + Flat(parts, i);
      assert whole[b..][|head|..] == whole[b + |head|..];
    }
  }

  lemma EntryAt(parts: seq<seq<Kv>>, i: nat, j: nat)
    requires i < |parts| && j < |parts[i]|
    ensures Before(parts, i) + j < |Flat(parts, 0)| && Flat(parts, 0)[Before(parts, i) + j] == parts[i][j]
  {
    FlatAt(parts, i);
    assert Flat(parts, i)[j] == parts[i][j];
    assert Flat(parts, 0)[Before(parts, i)..][j] == Flat(parts, 0)[Before(parts, i) + j];
  }

  lemma {:induction false} Locate(parts: seq<seq<Kv>>, m: nat, k: nat) returns (i: nat, j: nat)
    requires m <= |parts| && k < Before(parts, m)
    ensures i < m && j < |parts[i]| && k == Before(parts, i) + j
  {
    if k < Before(parts, m - 1) {
      i, j := Locate(parts, m - 1, k);
    } else {
      i, j := m - 1, k - Before(parts, m - 1);
    }
  }

  /** Positions an iterator can take in leaf i: its entries, the first position in any
      case, any position once it is in an empty leaf, and the end of the last leaf. */
  ghost predicate Spot(parts: seq<seq<Kv>>, i: nat, j: nat)
    requires i < |parts|
  {
    j < |parts[i]| || j == 0 || parts[i] == [] || (i == |parts| - 1 && j == |parts[i]|)
  }

  ghost predicate Filled(parts: seq<seq<Kv>>, n: nat)
    requires n <= |parts|
  {
    forall x :: 0 <= x < n ==> parts[x] != []
  }

  /** Incrementing at position j of leaf i leads where the chain and the parts say. */
  ghost predicate Moves(t: Tree, chain: seq<nat>, parts: seq<seq<Kv>>, i: nat, j: nat)
    requires i < |chain| == |parts|
  {
    && OnLeaf(t, Iter(chain[i], j))
    && Next(t, Iter(chain[i], j))
       == if j + 1 == |parts[i]| && i + 1 < |parts| then Iter(chain[i + 1], 0) else Iter(chain[i], j + 1)
  }

  lemma NextAt(t: Tree, sh: Shape, slots: nat, parts: seq<seq<Kv>>, i: nat, j: nat)
    requires TreeOk(t, sh, slots) && parts == Parts(t, sh.chain) && i < |parts|
    ensures Moves(t, sh.chain, parts, i, j)
  {
    LeafAt(t, sh, slots, i);
    if i + 1 < |parts| {
      LeafAt(t, sh, slots, i + 1);
    }
  }

  lemma OneMore(t: Tree, start: Iter, n: nat, chain: seq<nat>, parts: seq<seq<Kv>>, i: nat, j: nat)
    requires i < |parts| == |chain| && Moves(t, chain, parts, i, j) && Steps(t, start, n) == Iter(chain[i], j)
    ensures Steps(t, start, n + 1)
         == if j + 1 == |parts[i]| && i + 1 < |parts| then Iter(chain[i + 1], 0) else Iter(chain[i], j + 1)
  {
  }

  /** The leaves of the chain, with what they hold, as the iterator sees them. */
  ghost predicate Line(t: Tree, chain: seq<nat>, parts: seq<seq<Kv>>) {
    && 0 < |parts| == |chain|
    && forall x: nat, y: nat {:trigger Moves(t, chain, parts, x, y)} :: x < |parts| ==> Moves(t, chain, parts, x, y)
  }

  lemma LineOf(t: Tree, sh: Shape, slots: nat, parts: seq<seq<Kv>>)
    requires TreeOk(t, sh, slots) && parts == Parts(t, sh.chain)
    ensures Line(t, sh.chain, parts)
  {
    forall x: nat, y: nat {:trigger Moves(t, sh.chain, parts, x, y)} | x < |parts|
      ensures Moves(t, sh.chain, parts, x, y)
    {
      NextAt(t, sh, slots, parts, x, y);
    }
  }

  /** Up to the first emptied leaf, the iterator goes through the leaves in order. */
  lemma {:induction false} StepsTo(t: Tree, chain: seq<nat>, parts: seq<seq<Kv>>, i: nat, j: nat, n: nat)
    requires Line(t, chain, parts) && i < |parts| && Filled(parts, i) && Spot(parts, i, j)
    requires n == Before(parts, i) + j
    ensures Steps(t, Iter(chain[0], 0), n) == Iter(chain[i], j)
    decreases i, j
  {
    if j > 0 {
      StepsTo(t, chain, parts, i, j - 1, n - 1);
      OneMore(t, Iter(chain[0], 0), n - 1, chain, parts, i, j - 1);
    } else if i > 0 {
      var k := |parts[i - 1]| - 1;
      StepsTo(t, chain, parts, i - 1, k, n - 1);
      OneMore(t, Iter(chain[0], 0), n - 1, chain, parts, i - 1, k);
    }
  }

  // ----- the walk ends exactly when no leaf but the last is empty -----

  lemma FilledExactly(t: Tree, sh: Shape, slots: nat, parts: seq<seq<Kv>>)
    requires TreeOk(t, sh, slots) && parts == Parts(t, sh.chain)
    ensures Filled(parts, |parts| - 1) <==> NoneEmptied(t)
  {
    if Filled(parts, |parts| - 1) {
      forall p <- t.pool | t.pool[p].LeafRec? && t.pool[p].next != NULL
        ensures Held(t, p) != []
      {
        assert p in sh.chain;
        var i :| 0 <= i < |sh.chain| && sh.chain[i] == p;
        LeafAt(t, sh, slots, i);
        assert parts[i] != [];
      }
    }
    if NoneEmptied(t) {
      forall x | 0 <= x < |parts| - 1
        ensures parts[x] != []
      {
        LeafAt(t, sh, slots, x);
        LeafAt(t, sh, slots, x + 1);
      }
    }
  }

  /** Where the walk is after k increments, before it has passed leaf m. */
  lemma WalkAt(t: Tree, sh: Shape, slots: nat, parts: seq<seq<Kv>>, m: nat, k: nat)
    requires TreeOk(t, sh, slots) && parts == Parts(t, sh.chain) && m <= |parts|
    requires Filled(parts, if m == |parts| then m - 1 else m) && k < Before(parts, m)
    ensures k < |Spelled(t, sh)| && Meets(t, First(sh), Last(t, sh), k, Spelled(t, sh)[k])
  {
    var i, j := Locate(parts, m, k);
    LineOf(t, sh, slots, parts);
    StepsTo(t, sh.chain, parts, i, j, k);
    LeafAt(t, sh, slots, i);
    EntryAt(parts, i, j);
  }

  /** When no leaf but the last is empty, the walk from begin to end meets the entries of
      the map, once each, in key order. */
  lemma WalkYieldsMap(t: Tree, sh: Shape, slots: nat) returns (out: seq<Kv>)
    requires TreeOk(t, sh, slots) && NoneEmptied(t)
    ensures Steps(t, First(sh), |out|) == Last(t, sh)
    ensures forall k :: 0 <= k < |out| ==> Meets(t, First(sh), Last(t, sh), k, out[k])
    ensures Sorted(out) && forall e: Kv :: e in out <==> e.key in sh.content && sh.content[e.key] == e.val
  {
    var parts := Parts(t, sh.chain);
    out := Spelled(t, sh);
    ChainSpellsMap(t, sh, slots);
    FilledExactly(t, sh, slots, parts);
    FlatAt(parts, |parts|);
    forall k | 0 <= k < |out|
      ensures Meets(t, First(sh), Last(t, sh), k, out[k])
    {
      WalkAt(t, sh, slots, parts, |parts|, k);
    }
    LineOf(t, sh, slots, parts);
    WalkEnds(t, sh.chain, parts);
  }

  lemma WalkEnds(t: Tree, chain: seq<nat>, parts: seq<seq<Kv>>)
    requires Line(t, chain, parts) && Filled(parts, |parts| - 1)
    ensures Steps(t, Iter(chain[0], 0), |Flat(parts, 0)|) == Iter(chain[|chain| - 1], |parts[|parts| - 1]|)
  {
    var last := |parts| - 1;
    FlatAt(parts, |parts|);
    StepsTo(t, chain, parts, last, |parts[last]|, |Flat(parts, 0)|);
  }

  lemma {:induction false} FirstEmpty(parts: seq<seq<Kv>>, n: nat) returns (i: nat)
    requires n <= |parts| && !Filled(parts, n)
    ensures i < n && parts[i] == [] && Filled(parts, i)
  {
    if Filled(parts, n - 1) {
      i := n - 1;
    } else {
      i := FirstEmpty(parts, n - 1);
    }
  }

  lemma StuckAt(t: Tree, sh: Shape, slots: nat, parts: seq<seq<Kv>>, i: nat, n: nat)
    requires TreeOk(t, sh, slots) && parts == Parts(t, sh.chain)
    requires i < |parts| - 1 && parts[i] == [] && Filled(parts, i)
    ensures Steps(t, First(sh), n) != Last(t, sh)
    ensures Live(t, Steps(t, First(sh), n)) <==> n < Before(parts, i)
  {
    if n < Before(parts, i) {
      WalkAt(t, sh, slots, parts, i, n);
    } else {
      LineOf(t, sh, slots, parts);
      StepsTo(t, sh.chain, parts, i, n - Before(parts, i), n);
      NotLive(t, sh, slots, i, n - Before(parts, i));
    }
  }

  lemma NotLive(t: Tree, sh: Shape, slots: nat, i: nat, j: nat)
    requires TreeOk(t, sh, slots) && i < |sh.chain| - 1 && Held(t, sh.chain[i]) == []
    ensures !Live(t, Iter(sh.chain[i], j)) && Iter(sh.chain[i], j) != Last(t, sh)
  {
    LeafAt(t, sh, slots, i);
  }

  /** Once a leaf before the last one is empty, the walk never ends: it enters that leaf,
      where there is no entry to point to, and never leaves it. */
  lemma StuckInEmptyLeaf(t: Tree, sh: Shape, slots: nat) returns (m: nat)
    requires TreeOk(t, sh, slots) && !NoneEmptied(t)
    ensures forall n: nat :: Steps(t, First(sh), n) != Last(t, sh)
    ensures forall n: nat :: Live(t, Steps(t, First(sh), n)) <==> n < m
  {
    var parts := Parts(t, sh.chain);
    FilledExactly(t, sh, slots, parts);
    var i := FirstEmpty(parts, |parts| - 1);
    m := Before(parts, i);
    forall n: nat
      ensures Steps(t, First(sh), n) != Last(t, sh)
      ensures Live(t, Steps(t, First(sh), n)) <==> n < m
    {
      StuckAt(t, sh, slots, parts, i, n);
    }
  }

  /** The walk reaches the end if and only if every leaf but the last holds an entry. */
  lemma WalkEndsExactly(t: Tree, sh: Shape, slots: nat)
    requires TreeOk(t, sh, slots)
    ensures (exists n: nat :: Steps(t, First(sh), n) == Last(t, sh)) <==> NoneEmptied(t)
  {
    if NoneEmptied(t) {
      var out := WalkYieldsMap(t, sh, slots);
    } else {
      var m := StuckInEmptyLeaf(t, sh, slots);
    }
  }
}
