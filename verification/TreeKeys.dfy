/** Inner nodes keep a separator. A node without one is left only by a split of a node with
    two, i.e. in a tree of degree 3, and for a moment by a new root. */
module TreeKeys {
  import opened LeafModel
  import opened TreeModel
  import opened TreeSplit
  import opened TreeLeafSplit
  import opened TreePath

  /** From degree 4 on, every inner node but q has a separator. */
  ghost predicate KeyedBut(pool: map<nat, Node>, slots: nat, q: nat) {
    3 <= slots ==> forall p <- pool :: p != q && pool[p].InnerRec? ==> 0 < |pool[p].keys|
  }

  /** The halves of a full node are of equal size or one apart, and both have a separator
      exactly from degree 4 on. */
  lemma HalvesKeyed(n: Node, slots: nat)
    requires n.InnerRec? && |n.kids| == |n.keys| + 1 && 0 < |n.keys| == slots
    ensures 0 < |LeftHalf(n).keys| && 0 < |RightHalf(n).keys| <==> 3 <= slots
    ensures |LeftHalf(n).keys| + 1 + |RightHalf(n).keys| == slots
    ensures |RightHalf(n).keys| <= |LeftHalf(n).keys| <= |RightHalf(n).keys| + 1
  {
  }

  lemma InnerSplitKeyed(t: Tree, sh: Shape, t': Tree, sh': Shape, slots: nat, src: nat, parent: nat, k: nat)
    requires src in t.pool && parent in t.pool && t.pool[src].InnerRec? && t.pool[parent].InnerRec?
    requires 0 < |t.pool[src].keys| == slots && |t.pool[src].kids| == |t.pool[src].keys| + 1
    requires k < |t.pool[parent].kids| == |t.pool[parent].keys| + 1
    requires SplitResult(t, sh, t', sh', src, parent, k) && KeyedBut(t.pool, slots, parent)
    ensures KeyedBut(t'.pool, slots, NULL)
  {
    HalvesKeyed(t.pool[src], slots);
    forall p <- t'.pool | 3 <= slots && t'.pool[p].InnerRec?
      ensures 0 < |t'.pool[p].keys|
    {
      if p != t.brk && p != t.brk + 1 && p != parent {
        assert Kept(t, sh, t', sh', p);
      }
    }
  }

  lemma LeafSplitKeyed(t: Tree, slots: nat, src: nat, parent: nat, k: nat, left: seq<Kv>, right: seq<Kv>, filler: Kv)
    requires src in t.pool && parent in t.pool && t.pool[src].LeafRec? && t.pool[parent].InnerRec?
    requires 0 < |left| <= slots && |right| <= slots && parent < t.brk && 0 < t.brk
    requires k < |t.pool[parent].kids| == |t.pool[parent].keys| + 1
    requires Neighbour(t, src, t.pool[src].prev) && Neighbour(t, src, t.pool[src].next)
    requires KeyedBut(t.pool, slots, parent)
    ensures KeyedBut(SplitSteps(t, slots, src, parent, k, left, right, filler), slots, NULL)
  {
  }
}
