/** Splitting a node below a parent that has room. */
module TreeSplit {
  import opened TreeModel

  // ----- the parent -----

  /** update_splitted_child: a separator and two nodes take the place of child k. */
  function InsertKid(n: Node, k: nat, m: int, l: nat, r: nat): Node
    requires n.InnerRec? && k < |n.kids| == |n.keys| + 1
  {
    InnerRec(n.level, n.keys[..k] + [m] + n.keys[k..], n.kids[..k] + [l, r] + n.kids[k + 1..])
  }

  /** The position found by searching for the separator is that of the split child. */
  lemma SeparatorPos(b: Box, keys: seq<int>, k: nat, m: int)
    requires SortedKeys(keys) && k <= |keys| && Strictly(KidBox(b, keys, k), m)
    ensures ChildPos(keys, m) == k
  {
  }

  lemma InsertKeys(b: Box, keys: seq<int>, k: nat, m: int)
    requires SortedKeys(keys) && k <= |keys| && Strictly(KidBox(b, keys, k), m)
    requires forall i :: 0 <= i < |keys| ==> Strictly(b, keys[i])
    ensures var keys' := keys[..k] + [m] + keys[k..];
            SortedKeys(keys') && forall i :: 0 <= i < |keys'| ==> Strictly(b, keys'[i])
  {
  }

  /** The boxes of the new children: those of the old ones, and the two halves. */
  lemma InsertBoxes(b: Box, keys: seq<int>, k: nat, m: int, i: nat)
    requires k <= |keys| && i <= |keys| + 1
    ensures var keys' := keys[..k] + [m] + keys[k..];
            KidBox(b, keys', i) ==
              if i < k then KidBox(b, keys, i)
              else if i == k then Box(KidBox(b, keys, k).lo, At(m))
              else if i == k + 1 then Box(At(m), KidBox(b, keys, k).hi)
              else KidBox(b, keys, i - 1)
  {
  }

  /** Node c looks the same to its parent in both trees. */
  ghost predicate SameKid(t: Tree, sh: Shape, t': Tree, sh': Shape, c: nat) {
    && c in t.pool && c in t'.pool && Level(t'.pool[c]) == Level(t.pool[c])
    && c in sh.box && c in sh'.box && sh'.box[c] == sh.box[c]
    && c in sh.up && c in sh'.up && sh'.up[c] == sh.up[c]
  }

  /** l and r stand where src stood, with its box cut at m. */
  ghost predicate Halves(t: Tree, sh: Shape, t': Tree, sh': Shape, src: nat, parent: nat, m: int, l: nat, r: nat) {
    && src in t.pool && src in sh.box && Strictly(sh.box[src], m)
    && l in t'.pool && r in t'.pool && l in sh'.box && r in sh'.box && l in sh'.up && r in sh'.up
    && Level(t'.pool[l]) == Level(t'.pool[r]) == Level(t.pool[src])
    && sh'.box[l] == Box(sh.box[src].lo, At(m)) && sh'.box[r] == Box(At(m), sh.box[src].hi)
    && sh'.up[l] == sh'.up[r] == parent
  }

  lemma ParentOk(t: Tree, sh: Shape, t': Tree, sh': Shape, slots: nat,
                 parent: nat, k: nat, m: int, l: nat, r: nat)
    requires parent in t.pool && parent in sh.box && NodeOk(t, sh, slots, parent)
    requires var n := t.pool[parent];
             n.InnerRec? && |n.keys| < slots && k < |n.kids|
    requires Halves(t, sh, t', sh', t.pool[parent].kids[k], parent, m, l, r)
    requires forall i :: 0 <= i < |t.pool[parent].kids| && i != k ==> SameKid(t, sh, t', sh', t.pool[parent].kids[i])
    requires parent in t'.pool && t'.pool[parent] == InsertKid(t.pool[parent], k, m, l, r)
    requires parent in sh'.box && sh'.box[parent] == sh.box[parent]
    ensures NodeOk(t', sh', slots, parent)
  {
    var n, n', b := t.pool[parent], t'.pool[parent], sh.box[parent];
    assert KidOk(t, sh, parent, k);
    InsertKeys(b, n.keys, k, m);
    forall i | 0 <= i < |n'.kids|
      ensures KidOk(t', sh', parent, i)
    {
      InsertBoxes(b, n.keys, k, m, i);
      if i < k {
        assert n'.kids[i] == n.kids[i];
        assert KidOk(t, sh, parent, i);
      } else if i > k + 1 {
        assert n'.kids[i] == n.kids[i - 1];
        assert KidOk(t, sh, parent, i - 1);
      }
    }
  }

  /** A node whose record, box and children are untouched. */
  lemma OtherOk(t: Tree, sh: Shape, t': Tree, sh': Shape, slots: nat, p: nat)
    requires p in t.pool && p in sh.box && NodeOk(t, sh, slots, p)
    requires p in t'.pool && t'.pool[p] == t.pool[p] && p in sh'.box && sh'.box[p] == sh.box[p]
    requires t.pool[p].InnerRec? ==> forall c <- t.pool[p].kids :: SameKid(t, sh, t', sh', c)
    ensures NodeOk(t', sh', slots, p)
  {
    if t.pool[p].InnerRec? {
      forall i | 0 <= i < |t.pool[p].kids|
        ensures KidOk(t', sh', p, i)
      {
        assert KidOk(t, sh, p, i);
        assert SameKid(t, sh, t', sh', t.pool[p].kids[i]);
      }
    }
  }

  // ----- splitting an inner node -----

  function LeftHalf(n: Node): Node
    requires n.InnerRec? && |n.kids| == |n.keys| + 1
  {
    InnerRec(n.level, n.keys[..|n.keys| / 2], n.kids[..|n.keys| / 2 + 1])
  }

  function RightHalf(n: Node): Node
    requires n.InnerRec? && |n.kids| == |n.keys| + 1 && 0 < |n.keys|
  {
    InnerRec(n.level, n.keys[|n.keys| / 2 + 1..], n.kids[|n.keys| / 2 + 1..])
  }

  function Middle(n: Node): int
    requires n.InnerRec? && 0 < |n.keys|
  {
    n.keys[|n.keys| / 2]
  }

  ghost predicate CanSplit(t: Tree, sh: Shape, slots: nat, src: nat, parent: nat, k: nat) {
    && NodesOk(t, sh, slots)
    && parent in t.pool && t.pool[parent].InnerRec? && |t.pool[parent].keys| < slots
    && k < |t.pool[parent].kids| && t.pool[parent].kids[k] == src
  }

  function SplitInner(t: Tree, src: nat, parent: nat, k: nat): Tree
    requires src in t.pool && parent in t.pool && t.pool[src].InnerRec? && t.pool[parent].InnerRec?
    requires 0 < |t.pool[src].keys| && |t.pool[src].kids| == |t.pool[src].keys| + 1
    requires k < |t.pool[parent].kids| == |t.pool[parent].keys| + 1
  {
    var n, l, r := t.pool[src], t.brk, t.brk + 1;
    Tree((t.pool - {src})[l := LeftHalf(n)][r := RightHalf(n)]
                         [parent := InsertKid(t.pool[parent], k, Middle(n), l, r)],
         t.root, t.brk + 2)
  }

  ghost function SplitInnerShape(t: Tree, sh: Shape, src: nat, parent: nat): Shape
    requires src in t.pool && src in sh.box && t.pool[src].InnerRec? && 0 < |t.pool[src].keys|
    requires |t.pool[src].kids| == |t.pool[src].keys| + 1
  {
    var n, l, r, b := t.pool[src], t.brk, t.brk + 1, sh.box[src];
    sh.(box := (sh.box - {src})[l := Box(b.lo, At(Middle(n)))][r := Box(At(Middle(n)), b.hi)],
        up := (map c <- sh.up :: if c in LeftHalf(n).kids then l else if c in RightHalf(n).kids then r else sh.up[c])
              [l := parent][r := parent])
  }

  lemma KidUp(t: Tree, sh: Shape, slots: nat, p: nat, c: nat)
    requires NodesOk(t, sh, slots) && p in t.pool && t.pool[p].InnerRec? && c in t.pool[p].kids
    ensures c in t.pool && c in sh.box && c in sh.up && sh.up[c] == p && 0 < c < t.brk && c != t.root
  {
    assert NodeOk(t, sh, slots, p);
    var i :| 0 <= i < |t.pool[p].kids| && t.pool[p].kids[i] == c;
    assert KidOk(t, sh, p, i);
    assert Attached(t, sh, t.root);
  }

  lemma KidsDistinct(t: Tree, sh: Shape, slots: nat, p: nat, i: nat, j: nat)
    requires NodesOk(t, sh, slots) && p in t.pool && t.pool[p].InnerRec?
    requires i < j < |t.pool[p].kids|
    ensures t.pool[p].kids[i] != t.pool[p].kids[j]
  {
    assert NodeOk(t, sh, slots, p);
    assert KidOk(t, sh, p, i) && KidOk(t, sh, p, j);
  }

  lemma LeftBoxes(b: Box, keys: seq<int>, mid: nat, i: nat)
    requires mid < |keys| && i <= mid
    ensures KidBox(Box(b.lo, At(keys[mid])), keys[..mid], i) == KidBox(b, keys, i)
  {
  }

  lemma RightBoxes(b: Box, keys: seq<int>, mid: nat, i: nat)
    requires mid < |keys| && i < |keys| - mid
    ensures KidBox(Box(At(keys[mid]), b.hi), keys[mid + 1..], i) == KidBox(b, keys, mid + 1 + i)
  {
  }

  /** Everything the inner-split lemmas start from. */
  ghost predicate InnerCase(t: Tree, sh: Shape, slots: nat, src: nat, parent: nat, k: nat) {
    && CanSplit(t, sh, slots, src, parent, k)
    && src in t.pool && t.pool[src].InnerRec? && 0 < |t.pool[src].keys|
    && |t.pool[src].kids| == |t.pool[src].keys| + 1 && |t.pool[parent].kids| == |t.pool[parent].keys| + 1
    && src in sh.box
  }

  lemma SplitFacts(t: Tree, sh: Shape, slots: nat, src: nat, parent: nat, k: nat)
    requires InnerCase(t, sh, slots, src, parent, k)
    ensures src != parent && src != t.root && src in sh.up && sh.up[src] == parent
    ensures Level(t.pool[src]) + 1 == Level(t.pool[parent])
    ensures Strictly(sh.box[src], Middle(t.pool[src]))
    ensures sh.box[src] == KidBox(sh.box[parent], t.pool[parent].keys, k)
    ensures NodeOk(t, sh, slots, src) && NodeOk(t, sh, slots, parent)
  {
    KidUp(t, sh, slots, parent, src);
    assert NodeOk(t, sh, slots, parent);
    assert KidOk(t, sh, parent, k);
    assert NodeOk(t, sh, slots, src);
  }

  lemma LeftOk(t: Tree, sh: Shape, slots: nat, src: nat, parent: nat, k: nat)
    requires InnerCase(t, sh, slots, src, parent, k)
    ensures var t', sh' := SplitInner(t, src, parent, k), SplitInnerShape(t, sh, src, parent);
            t.brk in t'.pool && t.brk in sh'.box && NodeOk(t', sh', slots, t.brk)
  {
    SplitFacts(t, sh, slots, src, parent, k);
    var t', sh' := SplitInner(t, src, parent, k), SplitInnerShape(t, sh, src, parent);
    var n, l, mid := t.pool[src], t.brk, |t.pool[src].keys| / 2;
    assert t'.pool[l] == LeftHalf(n) by {
      assert parent < t.brk;
    }
    forall i | 0 <= i < |t'.pool[l].kids|
      ensures KidOk(t', sh', l, i)
    {
      assert KidOk(t, sh, src, i);
      var c := n.kids[i];
      KidUp(t, sh, slots, src, c);
      assert t'.pool[l].kids[i] == c;
      LeftBoxes(sh.box[src], n.keys, mid, i);
    }
  }

  lemma RightOk(t: Tree, sh: Shape, slots: nat, src: nat, parent: nat, k: nat)
    requires InnerCase(t, sh, slots, src, parent, k)
    ensures var t', sh' := SplitInner(t, src, parent, k), SplitInnerShape(t, sh, src, parent);
            t.brk + 1 in t'.pool && t.brk + 1 in sh'.box && NodeOk(t', sh', slots, t.brk + 1)
  {
    SplitFacts(t, sh, slots, src, parent, k);
    var t', sh' := SplitInner(t, src, parent, k), SplitInnerShape(t, sh, src, parent);
    var n, r, mid := t.pool[src], t.brk + 1, |t.pool[src].keys| / 2;
    assert t'.pool[r] == RightHalf(n) by {
      assert parent < t.brk;
    }
    forall i | 0 <= i < |t'.pool[r].kids|
      ensures KidOk(t', sh', r, i)
    {
      assert KidOk(t, sh, src, mid + 1 + i);
      var c := n.kids[mid + 1 + i];
      KidUp(t, sh, slots, src, c);
      assert t'.pool[r].kids[i] == c;
      RightBoxes(sh.box[src], n.keys, mid, i);
      forall j | 0 <= j < |LeftHalf(n).kids|
        ensures LeftHalf(n).kids[j] != c
      {
        KidsDistinct(t, sh, slots, src, j, mid + 1 + i);
      }
    }
  }

  /** A child of any other node is seen unchanged. */
  lemma KidUnchanged(t: Tree, sh: Shape, slots: nat, src: nat, parent: nat, k: nat, p: nat, c: nat)
    requires InnerCase(t, sh, slots, src, parent, k)
    requires p in t.pool && t.pool[p].InnerRec? && p != src && c in t.pool[p].kids && c != src
    ensures SameKid(t, sh, SplitInner(t, src, parent, k), SplitInnerShape(t, sh, src, parent), c)
  {
    SplitFacts(t, sh, slots, src, parent, k);
    KidUp(t, sh, slots, p, c);
    var n := t.pool[src];
    if c in LeftHalf(n).kids || c in RightHalf(n).kids {
      assert c in n.kids;
      KidUp(t, sh, slots, src, c);
    }
  }

  lemma SplitInnerNode(t: Tree, sh: Shape, slots: nat, src: nat, parent: nat, k: nat, p: nat)
    requires InnerCase(t, sh, slots, src, parent, k)
    requires p in SplitInner(t, src, parent, k).pool && p in SplitInnerShape(t, sh, src, parent).box
    ensures NodeOk(SplitInner(t, src, parent, k), SplitInnerShape(t, sh, src, parent), slots, p)
  {
    SplitFacts(t, sh, slots, src, parent, k);
    var t', sh' := SplitInner(t, src, parent, k), SplitInnerShape(t, sh, src, parent);
    if p == t.brk {
      LeftOk(t, sh, slots, src, parent, k);
    } else if p == t.brk + 1 {
      RightOk(t, sh, slots, src, parent, k);
    } else if p == parent {
      forall i | 0 <= i < |t.pool[parent].kids| && i != k
        ensures SameKid(t, sh, t', sh', t.pool[parent].kids[i])
      {
        if i < k {
          KidsDistinct(t, sh, slots, parent, i, k);
        } else {
          KidsDistinct(t, sh, slots, parent, k, i);
        }
        KidUnchanged(t, sh, slots, src, parent, k, parent, t.pool[parent].kids[i]);
      }
      ParentOk(t, sh, t', sh', slots, parent, k, Middle(t.pool[src]), t.brk, t.brk + 1);
    } else {
      assert NodeOk(t, sh, slots, p);
      if t.pool[p].InnerRec? {
        forall c <- t.pool[p].kids
          ensures SameKid(t, sh, t', sh', c)
        {
          KidUp(t, sh, slots, p, c);
          KidUnchanged(t, sh, slots, src, parent, k, p, c);
        }
      }
      OtherOk(t, sh, t', sh', slots, p);
    }
  }

  lemma SplitInnerAttached(t: Tree, sh: Shape, slots: nat, src: nat, parent: nat, k: nat, p: nat)
    requires InnerCase(t, sh, slots, src, parent, k)
    requires p in SplitInner(t, src, parent, k).pool
    ensures Attached(SplitInner(t, src, parent, k), SplitInnerShape(t, sh, src, parent), p)
  {
    SplitFacts(t, sh, slots, src, parent, k);
    var t', sh' := SplitInner(t, src, parent, k), SplitInnerShape(t, sh, src, parent);
    var n, n' := t.pool[parent], t'.pool[parent];
    assert n'.kids[k] == t.brk && n'.kids[k + 1] == t.brk + 1;
    if p != t.brk && p != t.brk + 1 {
      assert Attached(t, sh, p);
      if p != t.root && sh.up[p] == parent {
        var i :| 0 <= i < |n.kids| && n.kids[i] == p;
        assert n'.kids[if i < k then i else i + 1] == p;
        KidUnchanged(t, sh, slots, src, parent, k, parent, p);
      } else if p != t.root && sh.up[p] != src {
        KidUnchanged(t, sh, slots, src, parent, k, sh.up[p], p);
      } else if p != t.root {
        var m := t.pool[src];
        assert m.kids == LeftHalf(m).kids + RightHalf(m).kids;
      }
    }
  }

  lemma SplitInnerAllNodes(t: Tree, sh: Shape, slots: nat, src: nat, parent: nat, k: nat, t': Tree, sh': Shape)
    requires InnerCase(t, sh, slots, src, parent, k)
    requires t' == SplitInner(t, src, parent, k) && sh' == SplitInnerShape(t, sh, src, parent)
    ensures sh'.box.Keys == t'.pool.Keys
    ensures forall p {:trigger NodeOk(t', sh', slots, p)} :: p in t'.pool ==> NodeOk(t', sh', slots, p)
  {
    SplitFacts(t, sh, slots, src, parent, k);
    assert sh'.box.Keys == t'.pool.Keys;
    forall p | p in t'.pool
      ensures NodeOk(t', sh', slots, p)
    {
      SplitInnerNode(t, sh, slots, src, parent, k, p);
    }
  }

  lemma SplitInnerAllAttached(t: Tree, sh: Shape, slots: nat, src: nat, parent: nat, k: nat, t': Tree, sh': Shape)
    requires InnerCase(t, sh, slots, src, parent, k)
    requires t' == SplitInner(t, src, parent, k) && sh' == SplitInnerShape(t, sh, src, parent)
    ensures forall p {:trigger Attached(t', sh', p)} :: p in t'.pool ==> Attached(t', sh', p)
  {
    forall p | p in t'.pool
      ensures Attached(t', sh', p)
    {
      SplitInnerAttached(t, sh, slots, src, parent, k, p);
    }
  }

  lemma SplitInnerNodes(t: Tree, sh: Shape, slots: nat, src: nat, parent: nat, k: nat)
    requires InnerCase(t, sh, slots, src, parent, k)
    ensures NodesOk(SplitInner(t, src, parent, k), SplitInnerShape(t, sh, src, parent), slots)
  {
    SplitFacts(t, sh, slots, src, parent, k);
    var t', sh' := SplitInner(t, src, parent, k), SplitInnerShape(t, sh, src, parent);
    SplitInnerAllNodes(t, sh, slots, src, parent, k, t', sh');
    SplitInnerAllAttached(t, sh, slots, src, parent, k, t', sh');
  }

  lemma SplitInnerOk(t: Tree, sh: Shape, slots: nat, src: nat, parent: nat, k: nat)
    requires InnerCase(t, sh, slots, src, parent, k) && ChainOk(t, sh) && ContentOk(t, sh)
    ensures TreeOk(SplitInner(t, src, parent, k), SplitInnerShape(t, sh, src, parent), slots)
  {
    SplitInnerNodes(t, sh, slots, src, parent, k);
    LeavesUntouched(t, sh, SplitInner(t, src, parent, k), SplitInnerShape(t, sh, src, parent));
  }

  /** Changes above the leaves concern neither the chain nor the contents. */
  lemma LeavesUntouched(t: Tree, sh: Shape, t': Tree, sh': Shape)
    requires ChainOk(t, sh) && ContentOk(t, sh) && t.pool.Keys == sh.box.Keys
    requires sh'.chain == sh.chain && sh'.content == sh.content
    requires forall p <- t'.pool :: t'.pool[p].LeafRec? ==> p in t.pool && t.pool[p] == t'.pool[p]
    requires forall p <- t.pool :: t.pool[p].LeafRec? ==>
               p in t'.pool && t'.pool[p] == t.pool[p] && p in sh'.box && sh'.box[p] == sh.box[p]
    ensures ChainOk(t', sh') && ContentOk(t', sh')
  {
    forall i | 0 <= i < |sh'.chain|
      ensures LinkOk(t', sh', i)
    {
      assert LinkOk(t, sh, i);
      if i < |sh.chain| - 1 {
        assert LinkOk(t, sh, i + 1);
      }
    }
    forall p <- t'.pool | t'.pool[p].LeafRec? && p in sh'.box
      ensures Covers(sh'.content, sh'.box[p], Held(t', p))
    {
      assert Covers(sh.content, sh.box[p], Held(t, p));
    }
  }
}
