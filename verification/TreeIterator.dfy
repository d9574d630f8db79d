/** The tree's iterator as an object, the loop from begin to end, and the calls after which
    that loop does not end. */
module TreeIterator {
  import opened LeafModel
  import opened TreeModel
  import opened TreeTheorems
  import opened TreeWalk
  import BT = BTree

  class Cursor {
    const tree: BT.BTree
    var node: nat
    var pos: nat

    function At(): Iter
      reads this
    {
      Iter(node, pos)
    }

    /** begin(): the first position of the leftmost leaf. */
    constructor Begin(t: BT.BTree)
      requires t.Ok()
      ensures tree == t && At() == if t.root == NULL then Iter(NULL, 0) else First(t.sh)
    {
      tree, pos := t, 0;
      node := NULL;
      new;
      if t.root != NULL {
        node := t.LeftmostLeaf();
      }
    }

    /** end(): behind the last entry of the rightmost leaf. */
    constructor End(t: BT.BTree)
      requires t.Ok()
      ensures tree == t && At() == if t.root == NULL then Iter(NULL, 0) else Last(t.Now(), t.sh)
    {
      tree, pos, node := t, 0, NULL;
      new;
      if t.root != NULL {
        node := t.RightmostLeaf();
        LeafAt(t.Now(), t.sh, t.slots, |t.sh.chain| - 1);
        pos := t.pool[node].leaf.Size();
      }
    }

    method Increment()
      requires OnLeaf(tree.Now(), At())
      modifies this
      ensures At() == Next(tree.Now(), old(At()))
    {
      pos := pos + 1;
      if pos == tree.pool[node].leaf.Size() {
        var next := tree.pool[node].next;
        if next != NULL {
          node, pos := next, 0;
        }
      }
    }
  }

  /** for (it = begin(); it != end(); ++it): the entries met are the map in key order. It
      ends only in a tree none of whose leaves but the last is empty (WalkEndsExactly). */
  method Collect(tree: BT.BTree) returns (out: seq<Kv>)
    requires tree.Ok() && NoneEmptied(tree.Now())
    ensures Sorted(out)
    ensures forall e: Kv :: e in out <==> e.key in tree.Content() && tree.Content()[e.key] == e.val
  {
    var it := new Cursor.Begin(tree);
    var end := new Cursor.End(tree);
    if tree.root == NULL {
      return [];
    }
    ghost var walk := WalkYieldsMap(tree.Now(), tree.sh, tree.slots);
    ghost var its := Trail(tree.Now(), it.At(), end.At(), walk);
    out := CollectBetween(it, end, its, walk);
  }

  /** Iterator k points to entry k, is not the last one, and leads to the next. */
  ghost predicate Trails(t: Tree, its: seq<Iter>, walk: seq<Kv>, k: nat)
    requires k < |walk| && |its| == |walk| + 1
  {
    its[k] != its[|walk|] && Live(t, its[k]) && Deref(t, its[k]) == walk[k] && Next(t, its[k]) == its[k + 1]
  }

  ghost predicate AllTrail(t: Tree, its: seq<Iter>, walk: seq<Kv>) {
    && |its| == |walk| + 1
    && forall k: nat {:trigger Trails(t, its, walk, k)} :: k < |walk| ==> Trails(t, its, walk, k)
  }

  lemma Trail(t: Tree, first: Iter, last: Iter, walk: seq<Kv>) returns (its: seq<Iter>)
    requires Steps(t, first, |walk|) == last
    requires forall k :: 0 <= k < |walk| ==> Meets(t, first, last, k, walk[k])
    ensures AllTrail(t, its, walk) && its[0] == first && its[|walk|] == last
  {
    its := seq(|walk| + 1, k requires 0 <= k => Steps(t, first, k));
    forall k: nat {:trigger Trails(t, its, walk, k)} | k < |walk|
      ensures Trails(t, its, walk, k)
    {
      assert Meets(t, first, last, k, walk[k]);
    }
  }

  lemma EndsOnce(t: Tree, its: seq<Iter>, walk: seq<Kv>, k: nat)
    requires AllTrail(t, its, walk) && k <= |walk|
    ensures its[k] == its[|walk|] <==> k == |walk|
  {
    if k < |walk| {
      assert Trails(t, its, walk, k);
    }
  }

  method StepOver(it: Cursor, ghost its: seq<Iter>, ghost walk: seq<Kv>, ghost k: nat) returns (e: Kv)
    requires AllTrail(it.tree.Now(), its, walk) && k < |walk| && it.At() == its[k]
    modifies it
    ensures e == walk[k] && it.At() == its[k + 1]
  {
    assert Trails(it.tree.Now(), its, walk, k);
    e := Deref(it.tree.Now(), it.At());
    it.Increment();
  }

  /** The loop, between two iterators of which the first leads to the second. */
  method CollectBetween(it: Cursor, end: Cursor, ghost its: seq<Iter>, ghost walk: seq<Kv>) returns (out: seq<Kv>)
    requires it != end && AllTrail(it.tree.Now(), its, walk) && its[0] == it.At() && its[|walk|] == end.At()
    modifies it
    ensures out == walk
  {
    out := [];
    EndsOnce(it.tree.Now(), its, walk, 0);
    while it.At() != end.At()
      invariant |out| <= |walk| && out == walk[..|out|] && it.At() == its[|out|]
      invariant it.At() == end.At() <==> |out| == |walk|
      decreases |walk| - |out|
    {
      var e := StepOver(it, its, walk, |out|);
      out := out + [e];
      EndsOnce(it.tree.Now(), its, walk, |out|);
    }
  }

  /** Erases every key of the first leaf of a tree with several leaves. The leaf stays. */
  method EmptyFirstLeaf(tree: BT.BTree)
    requires tree.Ok() && tree.root != NULL && 2 <= |tree.sh.chain|
    modifies tree
    ensures tree.Ok() && tree.root != NULL && !NoneEmptied(tree.Now())
    ensures tree.Content().Keys <= old(tree.Content()).Keys
  {
    var first := tree.LeftmostLeaf();
    LeafAt(tree.Now(), tree.sh, tree.slots, 0);
    while tree.pool[first].leaf.Size() > 0
      invariant tree.Ok() && tree.root != NULL && 2 <= |tree.sh.chain| && first == tree.sh.chain[0]
      invariant OnLeaf(tree.Now(), Iter(first, 0))
      invariant tree.Content().Keys <= old(tree.Content()).Keys
      decreases |tree.Content()|
    {
      LeafAt(tree.Now(), tree.sh, tree.slots, 0);
      var e := Contents(tree.pool[first].leaf)[0];
      LeafTruthful(tree.Now(), tree.sh, 0, e);
      ghost var was := tree.Content();
      var _ := tree.Erase(e.key);
      assert |was - {e.key}| < |was| by {
        assert was == (was - {e.key})[e.key := was[e.key]];
      }
      LeafAt(tree.Now(), tree.sh, tree.slots, 0);
    }
    LeafAt(tree.Now(), tree.sh, tree.slots, 0);
    LeafAt(tree.Now(), tree.sh, tree.slots, 1);
  }

  lemma KeysOf(s: seq<Kv>)
    ensures |set e <- s :: e.key| <= |s|
  {
    if s != [] {
      KeysOf(s[1..]);
      assert s == [s[0]] + s[1..];
      assert (set e <- s :: e.key) == {s[0].key} + (set e <- s[1..] :: e.key);
    }
  }

  /** A tree of one leaf has no more entries than the leaf has places. */
  lemma OneLeafHolds(t: Tree, sh: Shape, slots: nat)
    requires TreeOk(t, sh, slots)
    ensures 0 < |sh.chain| && (|sh.chain| == 1 ==> |sh.content| <= slots)
  {
    if |sh.chain| == 1 {
      LeafAt(t, sh, slots, 0);
      assert NodeOk(t, sh, slots, sh.chain[0]);
      var s := Held(t, sh.chain[0]);
      forall key <- sh.content
        ensures key in set e <- s :: e.key
      {
        var i := LeafFor(t, sh, slots, key);
        var k :| 0 <= k < |s| && s[k].key == key;
        assert s[k] in s;
      }
      KeysOf(s);
      var keys := set e <- s :: e.key;
      assert keys == sh.content.Keys + (keys - sh.content.Keys);
    }
  }

  /** Three insertions into a tree of degree 3, then the first leaf is erased entry by
      entry: from begin(), no number of increments leads to end(). */
  method EndlessWalk() returns (tree: BT.BTree)
    ensures fresh(tree) && tree.Ok() && tree.root != NULL && tree.Content().Keys <= {1, 2, 3}
    ensures forall n: nat :: Steps(tree.Now(), First(tree.sh), n) != Last(tree.Now(), tree.sh)
  {
    tree := new BT.BTree(3);
    var _ := tree.Insert(Kv(1, 1));
    var _ := tree.Insert(Kv(2, 2));
    var _ := tree.Insert(Kv(3, 3));
    assert tree.Content() == map[1 := 1, 2 := 2, 3 := 3];
    assert tree.root != NULL;
    assert |tree.Content()| == 3;
    OneLeafHolds(tree.Now(), tree.sh, tree.slots);
    EmptyFirstLeaf(tree);
    ghost var _ := StuckInEmptyLeaf(tree.Now(), tree.sh, tree.slots);
  }
}
