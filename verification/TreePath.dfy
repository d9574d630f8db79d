/** The search path of a key, and how splitting its nodes from the top changes it. */
module TreePath {
  import opened TreeModel
  import opened TreeOrder
  import opened TreeSplit
  import opened TreeLeafSplit

  function Child(n: Node, key: int): nat
    requires n.InnerRec? && |n.kids| == |n.keys| + 1
  {
    n.kids[ChildPos(n.keys, key)]
  }

  /** Step j of a descent: an inner node responsible for the key, whose child for the key
      comes next; the last node is a leaf. */
  ghost predicate DescentStep(t: Tree, sh: Shape, key: int, nodes: seq<nat>, j: nat)
    requires j < |nodes|
  {
    var p := nodes[j];
    && p in t.pool && p in sh.box && In(sh.box[p], key)
    && Level(t.pool[p]) == |nodes| - 1 - j
    && (j == |nodes| - 1 ==> t.pool[p].LeafRec?)
    && (j < |nodes| - 1 ==>
          && t.pool[p].InnerRec? && |t.pool[p].kids| == |t.pool[p].keys| + 1
          && Child(t.pool[p], key) == nodes[j + 1])
  }

  ghost predicate Descends(t: Tree, sh: Shape, key: int, nodes: seq<nat>) {
    && 0 < |nodes|
    && forall j {:trigger DescentStep(t, sh, key, nodes, j)} :: 0 <= j < |nodes| ==> DescentStep(t, sh, key, nodes, j)
  }

  lemma {:induction false} ChildPosIs(keys: seq<int>, key: int, p: nat)
    requires SortedKeys(keys) && p <= |keys|
    requires 0 < p ==> keys[p - 1] < key
    requires p < |keys| ==> key <= keys[p]
    ensures ChildPos(keys, key) == p
  {
  }

  /** The child for the key, its position, level and box. */
  lemma {:induction false} ChildFacts(t: Tree, sh: Shape, slots: nat, p: nat, key: int)
    requires NodesOk(t, sh, slots) && p in t.pool && t.pool[p].InnerRec? && In(sh.box[p], key)
    ensures |t.pool[p].kids| == |t.pool[p].keys| + 1 && SortedKeys(t.pool[p].keys)
    ensures var c := Child(t.pool[p], key);
            && c in t.pool && c in sh.box && In(sh.box[c], key)
            && Level(t.pool[c]) + 1 == Level(t.pool[p])
            && sh.box[c] == KidBox(sh.box[p], t.pool[p].keys, ChildPos(t.pool[p].keys, key))
  {
    assert NodeOk(t, sh, slots, p);
    var i := ChildPos(t.pool[p].keys, key);
    assert KidOk(t, sh, p, i);
    ChildInBox(sh.box[p], t.pool[p].keys, key);
  }

  lemma {:induction false} PosAfterInsert(b: Box, keys: seq<int>, key: int, m: int)
    requires SortedKeys(keys) && Strictly(KidBox(b, keys, ChildPos(keys, key)), m)
    requires forall i :: 0 <= i < |keys| ==> Strictly(b, keys[i])
    ensures var k := ChildPos(keys, key);
            ChildPos(keys[..k] + [m] + keys[k..], key) == if key <= m then k else k + 1
  {
    var k := ChildPos(keys, key);
    InsertKeys(b, keys, k, m);
    ChildPosIs(keys[..k] + [m] + keys[k..], key, if key <= m then k else k + 1);
  }

  /** In the parent, the separator sends the key to the half that is responsible for it. */
  lemma {:induction false} ChildAfterInsert(b: Box, n: Node, key: int, m: int, l: nat, r: nat)
    requires n.InnerRec? && |n.kids| == |n.keys| + 1 && SortedKeys(n.keys)
    requires Strictly(KidBox(b, n.keys, ChildPos(n.keys, key)), m)
    requires forall i :: 0 <= i < |n.keys| ==> Strictly(b, n.keys[i])
    ensures Child(InsertKid(n, ChildPos(n.keys, key), m, l, r), key) == if key <= m then l else r
  {
    PosAfterInsert(b, n.keys, key, m);
  }

  lemma {:induction false} ChildOfLeft(n: Node, key: int)
    requires n.InnerRec? && |n.kids| == |n.keys| + 1 && SortedKeys(n.keys) && 0 < |n.keys|
    requires key <= Middle(n)
    ensures Child(LeftHalf(n), key) == Child(n, key)
  {
    var p, mid := ChildPos(n.keys, key), |n.keys| / 2;
    assert p <= mid;
    ChildPosIs(n.keys[..mid], key, p);
  }

  lemma {:induction false} ChildOfRight(n: Node, key: int)
    requires n.InnerRec? && |n.kids| == |n.keys| + 1 && SortedKeys(n.keys) && 0 < |n.keys|
    requires Middle(n) < key
    ensures Child(RightHalf(n), key) == Child(n, key)
  {
    var p, mid := ChildPos(n.keys, key), |n.keys| / 2;
    assert p > mid;
    ChildPosIs(n.keys[mid + 1..], key, p - (mid + 1));
  }

  /** What the pool holds after the split of src below its parent. */
  ghost predicate SplitResult(t: Tree, sh: Shape, t': Tree, sh': Shape, src: nat, parent: nat, k: nat)
    requires src in t.pool && parent in t.pool && t.pool[src].InnerRec? && t.pool[parent].InnerRec?
    requires 0 < |t.pool[src].keys| && |t.pool[src].kids| == |t.pool[src].keys| + 1
    requires k < |t.pool[parent].kids| == |t.pool[parent].keys| + 1
  {
    var n, l, r := t.pool[src], t.brk, t.brk + 1;
    && src in sh.box && l in t'.pool && t'.pool[l] == LeftHalf(n) && r in t'.pool && t'.pool[r] == RightHalf(n)
    && l in sh'.box && sh'.box[l] == Box(sh.box[src].lo, At(Middle(n)))
    && r in sh'.box && sh'.box[r] == Box(At(Middle(n)), sh.box[src].hi)
    && parent in t'.pool && t'.pool[parent] == InsertKid(t.pool[parent], k, Middle(n), l, r)
    && t'.pool.Keys == t.pool.Keys - {src} + {l, r}
    && forall p {:trigger Kept(t, sh, t', sh', p)} :: p in t.pool && p != src && p != parent ==> Kept(t, sh, t', sh', p)
  }

  ghost predicate Kept(t: Tree, sh: Shape, t': Tree, sh': Shape, p: nat) {
    && p in t.pool && p in t'.pool && t'.pool[p] == t.pool[p]
    && p in sh.box && p in sh'.box && sh'.box[p] == sh.box[p]
  }

  lemma {:induction false} SplitPool(t: Tree, sh: Shape, slots: nat, src: nat, parent: nat, k: nat)
    requires InnerCase(t, sh, slots, src, parent, k)
    ensures SplitResult(t, sh, SplitInner(t, src, parent, k), SplitInnerShape(t, sh, src, parent), src, parent, k)
  {
    SplitFacts(t, sh, slots, src, parent, k);
  }

  /** Node q heads the rest of a descent: it is responsible for the key and has room. */
  ghost predicate Heads(t: Tree, sh: Shape, slots: nat, key: int, q: nat) {
    && q in t.pool && q in sh.box && In(sh.box[q], key)
    && t.pool[q].InnerRec? && |t.pool[q].kids| == |t.pool[q].keys| + 1 && |t.pool[q].keys| < slots
  }

  /** The half that is responsible for the key has room and leads to the same child. */
  lemma {:induction false} LeftHeads(n: Node, b: Box, slots: nat, key: int, t': Tree, sh': Shape, l: nat)
    requires n.InnerRec? && |n.kids| == |n.keys| + 1 && SortedKeys(n.keys) && 0 < |n.keys| <= slots
    requires In(b, key) && key <= Middle(n)
    requires l in t'.pool && t'.pool[l] == LeftHalf(n) && l in sh'.box && sh'.box[l] == Box(b.lo, At(Middle(n)))
    ensures Heads(t', sh', slots, key, l) && t'.pool[l].level == n.level && Child(t'.pool[l], key) == Child(n, key)
  {
    ChildOfLeft(n, key);
  }

  lemma {:induction false} RightHeads(n: Node, b: Box, slots: nat, key: int, t': Tree, sh': Shape, r: nat)
    requires n.InnerRec? && |n.kids| == |n.keys| + 1 && SortedKeys(n.keys) && 0 < |n.keys| <= slots
    requires In(b, key) && Middle(n) < key
    requires r in t'.pool && t'.pool[r] == RightHalf(n) && r in sh'.box && sh'.box[r] == Box(At(Middle(n)), b.hi)
    ensures Heads(t', sh', slots, key, r) && t'.pool[r].level == n.level && Child(t'.pool[r], key) == Child(n, key)
  {
    ChildOfRight(n, key);
  }

  lemma {:induction false} HeadFacts(t: Tree, sh: Shape, slots: nat, key: int, parent: nat, src: nat)
    requires NodesOk(t, sh, slots) && Heads(t, sh, slots, key, parent)
    requires src == Child(t.pool[parent], key) && src in t.pool && t.pool[src].InnerRec? && 0 < |t.pool[src].keys|
    ensures src in sh.box && In(sh.box[src], key)
    ensures SortedKeys(t.pool[src].keys) && |t.pool[src].keys| <= slots
    ensures SortedKeys(t.pool[parent].keys)
    ensures forall i :: 0 <= i < |t.pool[parent].keys| ==> Strictly(sh.box[parent], t.pool[parent].keys[i])
    ensures Strictly(KidBox(sh.box[parent], t.pool[parent].keys, ChildPos(t.pool[parent].keys, key)),
              Middle(t.pool[src]))
  {
    ChildFacts(t, sh, slots, parent, key);
    assert NodeOk(t, sh, slots, src) && NodeOk(t, sh, slots, parent);
    assert Strictly(sh.box[src], Middle(t.pool[src]));
  }

  /** Splitting the child of a node for a key: the half that is responsible for the key
      becomes the child, has room, and leads to the same grandchild. */
  lemma {:induction false} SplitHead(t: Tree, sh: Shape, t': Tree, sh': Shape, slots: nat, key: int, parent: nat,
                                     src: nat)
    requires NodesOk(t, sh, slots) && Heads(t, sh, slots, key, parent)
    requires src == Child(t.pool[parent], key) && src in t.pool && t.pool[src].InnerRec?
    requires 0 < |t.pool[src].keys| && |t.pool[src].kids| == |t.pool[src].keys| + 1
    requires SplitResult(t, sh, t', sh', src, parent, ChildPos(t.pool[parent].keys, key))
    ensures |t'.pool[parent].kids| == |t'.pool[parent].keys| + 1
    ensures var q := Child(t'.pool[parent], key);
            && Heads(t', sh', slots, key, q) && t'.pool[q].level == t.pool[src].level
            && Child(t'.pool[q], key) == Child(t.pool[src], key)
  {
    var n := t.pool[src];
    HeadFacts(t, sh, slots, key, parent, src);
    ChildAfterInsert(sh.box[parent], t.pool[parent], key, Middle(n), t.brk, t.brk + 1);
    if key <= Middle(n) {
      LeftHeads(n, sh.box[src], slots, key, t', sh', t.brk);
    } else {
      RightHeads(n, sh.box[src], slots, key, t', sh', t.brk + 1);
    }
  }

  lemma {:induction false} HeadCanSplit(t: Tree, sh: Shape, slots: nat, key: int, parent: nat, src: nat)
    requires NodesOk(t, sh, slots) && Heads(t, sh, slots, key, parent)
    requires src == Child(t.pool[parent], key)
    ensures src in t.pool && CanSplit(t, sh, slots, src, parent, ChildPos(t.pool[parent].keys, key))
    ensures t.pool[src].InnerRec? && 0 < |t.pool[src].keys| ==>
              InnerCase(t, sh, slots, src, parent, ChildPos(t.pool[parent].keys, key))
  {
    ChildFacts(t, sh, slots, parent, key);
    assert NodeOk(t, sh, slots, src);
  }

  lemma {:induction false} SplitDescends(t: Tree, sh: Shape, t': Tree, sh': Shape, slots: nat, key: int,
                                         nodes: seq<nat>, q: nat)
    requires NodesOk(t, sh, slots) && 3 <= |nodes| && Descends(t, sh, key, nodes)
    requires Heads(t, sh, slots, key, nodes[0]) && nodes[1] in t.pool && t.pool[nodes[1]].InnerRec?
    requires 0 < |t.pool[nodes[1]].keys| && |t.pool[nodes[1]].kids| == |t.pool[nodes[1]].keys| + 1
    requires SplitResult(t, sh, t', sh', nodes[1], nodes[0], ChildPos(t.pool[nodes[0]].keys, key))
    requires |t'.pool[nodes[0]].kids| == |t'.pool[nodes[0]].keys| + 1 && q == Child(t'.pool[nodes[0]], key)
    requires Heads(t', sh', slots, key, q) && t'.pool[q].level == t.pool[nodes[1]].level
    requires Child(t'.pool[q], key) == Child(t.pool[nodes[1]], key)
    ensures Descends(t', sh', key, [q] + nodes[2..])
    ensures forall j :: 2 <= j < |nodes| ==> Kept(t, sh, t', sh', nodes[j])
  {
    var nodes' := [q] + nodes[2..];
    assert DescentStep(t, sh, key, nodes, 0) && DescentStep(t, sh, key, nodes, 1);
    forall j | 2 <= j < |nodes|
      ensures Kept(t, sh, t', sh', nodes[j])
    {
      assert DescentStep(t, sh, key, nodes, j);
    }
    forall j | 0 <= j < |nodes'|
      ensures DescentStep(t', sh', key, nodes', j)
    {
      if j > 0 {
        assert DescentStep(t, sh, key, nodes, j + 1);
        assert Kept(t, sh, t', sh', nodes[j + 1]);
      }
    }
  }

  /** A root above the root heads the same descent. */
  lemma {:induction false} GrowDescends(t: Tree, sh: Shape, slots: nat, key: int, nodes: seq<nat>)
    requires NodesOk(t, sh, slots) && Descends(t, sh, key, nodes) && nodes[0] == t.root
    ensures Descends(GrowRoot(t), GrowRootShape(t, sh), key, [t.brk] + nodes)
  {
    var t', sh', nodes' := GrowRoot(t), GrowRootShape(t, sh), [t.brk] + nodes;
    forall j | 0 <= j < |nodes'|
      ensures DescentStep(t', sh', key, nodes', j)
    {
      assert DescentStep(t, sh, key, nodes, if j == 0 then 0 else j - 1);
    }
  }
}
