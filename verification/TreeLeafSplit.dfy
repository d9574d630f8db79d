/** Splitting a full leaf into two, with a new entry in one of them, and a new root. */
module TreeLeafSplit {
  import opened LeafModel
  import LC = LeafCrash
  import opened TreeModel
  import opened TreeOrder
  import opened TreeSplit

  function LastKey(s: seq<Kv>): int
    requires 0 < |s|
  {
    s[|s| - 1].key
  }

  /** correct_leaf_node_links: the neighbours of the old leaf point to the new ones. */
  function Relinked(p: nat, n: Node, prev: nat, next: nat, l: nat, r: nat): Node
    requires n.LeafRec?
  {
    var n1 := if p == prev then n.(next := l) else n;
    if p == next then n1.(prev := r) else n1
  }

  function SplitLeaf(t: Tree, slots: nat, src: nat, parent: nat, k: nat, left: seq<Kv>, right: seq<Kv>,
                     filler: Kv): Tree
    requires src in t.pool && parent in t.pool && t.pool[src].LeafRec? && t.pool[parent].InnerRec?
    requires 0 < |left| <= slots && |right| <= slots
    requires k < |t.pool[parent].kids| == |t.pool[parent].keys| + 1
  {
    var n, l, r := t.pool[src], t.brk, t.brk + 1;
    Tree((map p | p in t.pool && p != src ::
            if t.pool[p].LeafRec? then Relinked(p, t.pool[p], n.prev, n.next, l, r) else t.pool[p])
         [l := LeafRec(LC.Built(slots, left, filler), n.prev, r)]
         [r := LeafRec(LC.Built(slots, right, filler), l, n.next)]
         [parent := InsertKid(t.pool[parent], k, LastKey(left), l, r)],
         t.root, t.brk + 2)
  }

  ghost function SplitLeafShape(t: Tree, sh: Shape, src: nat, parent: nat, i: nat, m: int, e: Kv): Shape
    requires src in sh.box && i < |sh.chain|
  {
    var l, r, b := t.brk, t.brk + 1, sh.box[src];
    Shape((sh.box - {src})[l := Box(b.lo, At(m))][r := Box(At(m), b.hi)],
          sh.up[l := parent][r := parent],
          sh.chain[..i] + [l, r] + sh.chain[i + 1..],
          sh.content[e.key := e.val])
  }

  /** The two halves of a full leaf's entries and a new one: in order, neither empty. */
  ghost predicate Halved(s: seq<Kv>, e: Kv, left: seq<Kv>, right: seq<Kv>, slots: nat) {
    && 0 < |left| <= slots && 0 < |right| <= slots
    && left + right == LC.Put(s, e) && Sorted(left + right) && !HasKey(s, e.key)
  }

  ghost predicate LeafCase(t: Tree, sh: Shape, slots: nat, src: nat, parent: nat, k: nat, i: nat,
                           e: Kv, left: seq<Kv>, right: seq<Kv>)
  {
    && CanSplit(t, sh, slots, src, parent, k) && ChainOk(t, sh) && ContentOk(t, sh)
    && src in t.pool && t.pool[src].LeafRec? && src in sh.box
    && |t.pool[parent].kids| == |t.pool[parent].keys| + 1
    && i < |sh.chain| && sh.chain[i] == src
    && In(sh.box[src], e.key) && Halved(Held(t, src), e, left, right, slots)
  }

  lemma PutMembers(s: seq<Kv>, e: Kv)
    requires !HasKey(s, e.key)
    ensures forall x :: x in LC.Put(s, e) <==> x in s || x == e
  {
    var p := LowerBound(s, e.key);
    assert s == s[..p] + s[p..];
  }

  lemma LeafFacts(t: Tree, sh: Shape, slots: nat, src: nat, parent: nat, k: nat, i: nat,
                  e: Kv, left: seq<Kv>, right: seq<Kv>)
    requires LeafCase(t, sh, slots, src, parent, k, i, e, left, right)
    ensures src != parent && src != t.root && src in sh.up && sh.up[src] == parent
    ensures NodeOk(t, sh, slots, src) && NodeOk(t, sh, slots, parent)
    ensures sh.box[src] == KidBox(sh.box[parent], t.pool[parent].keys, k)
    ensures forall x :: 0 <= x < |left| ==> In(Box(sh.box[src].lo, At(LastKey(left))), left[x].key)
    ensures forall x :: 0 <= x < |right| ==> In(Box(At(LastKey(left)), sh.box[src].hi), right[x].key)
    ensures Strictly(sh.box[src], LastKey(left)) && Sorted(left) && Sorted(right)
  {
    KidUp(t, sh, slots, parent, src);
    assert NodeOk(t, sh, slots, parent);
    assert KidOk(t, sh, parent, k);
    assert NodeOk(t, sh, slots, src);
    HalvesInBox(Held(t, src), e, left, right, slots, sh.box[src]);
  }

  lemma HalvesInBox(s: seq<Kv>, e: Kv, left: seq<Kv>, right: seq<Kv>, slots: nat, b: Box)
    requires Halved(s, e, left, right, slots) && In(b, e.key)
    requires forall x :: 0 <= x < |s| ==> In(b, s[x].key)
    ensures forall x :: 0 <= x < |left| ==> In(Box(b.lo, At(LastKey(left))), left[x].key)
    ensures forall x :: 0 <= x < |right| ==> In(Box(At(LastKey(left)), b.hi), right[x].key)
    ensures Strictly(b, LastKey(left)) && Sorted(left) && Sorted(right)
  {
    var all := left + right;
    PutMembers(s, e);
    forall x | 0 <= x < |all|
      ensures In(b, all[x].key)
    {
      assert all[x] in LC.Put(s, e);
    }
    assert forall x :: 0 <= x < |left| ==> left[x] == all[x];
    assert forall x :: 0 <= x < |right| ==> right[x] == all[|left| + x];
    assert all[|left| - 1].key < all[|left|].key && In(b, all[|left|].key);
  }

  /** Any child other than the split leaf is seen unchanged. */
  lemma KidKept(t: Tree, sh: Shape, slots: nat, src: nat, parent: nat, k: nat, i: nat,
                e: Kv, left: seq<Kv>, right: seq<Kv>, filler: Kv, p: nat, c: nat)
    requires LeafCase(t, sh, slots, src, parent, k, i, e, left, right)
    requires p in t.pool && t.pool[p].InnerRec? && c in t.pool[p].kids && c != src
    ensures SameKid(t, sh, SplitLeaf(t, slots, src, parent, k, left, right, filler),
                    SplitLeafShape(t, sh, src, parent, i, LastKey(left), e), c)
  {
    LeafFacts(t, sh, slots, src, parent, k, i, e, left, right);
    KidUp(t, sh, slots, p, c);
  }

  lemma SplitLeafParent(t: Tree, sh: Shape, slots: nat, src: nat, parent: nat, k: nat, i: nat,
                        e: Kv, left: seq<Kv>, right: seq<Kv>, filler: Kv)
    requires LeafCase(t, sh, slots, src, parent, k, i, e, left, right)
    ensures var t' := SplitLeaf(t, slots, src, parent, k, left, right, filler);
            var sh' := SplitLeafShape(t, sh, src, parent, i, LastKey(left), e);
            parent in t'.pool && parent in sh'.box && NodeOk(t', sh', slots, parent)
  {
    LeafFacts(t, sh, slots, src, parent, k, i, e, left, right);
    var t' := SplitLeaf(t, slots, src, parent, k, left, right, filler);
    var sh' := SplitLeafShape(t, sh, src, parent, i, LastKey(left), e);
    forall j | 0 <= j < |t.pool[parent].kids| && j != k
      ensures SameKid(t, sh, t', sh', t.pool[parent].kids[j])
    {
      if j < k {
        KidsDistinct(t, sh, slots, parent, j, k);
      } else {
        KidsDistinct(t, sh, slots, parent, k, j);
      }
      KidKept(t, sh, slots, src, parent, k, i, e, left, right, filler, parent, t.pool[parent].kids[j]);
    }
    ParentOk(t, sh, t', sh', slots, parent, k, LastKey(left), t.brk, t.brk + 1);
  }

  lemma SplitLeafNode(t: Tree, sh: Shape, slots: nat, src: nat, parent: nat, k: nat, i: nat,
                      e: Kv, left: seq<Kv>, right: seq<Kv>, filler: Kv, p: nat)
    requires LeafCase(t, sh, slots, src, parent, k, i, e, left, right)
    requires p in SplitLeaf(t, slots, src, parent, k, left, right, filler).pool
    requires p in SplitLeafShape(t, sh, src, parent, i, LastKey(left), e).box
    ensures NodeOk(SplitLeaf(t, slots, src, parent, k, left, right, filler),
                   SplitLeafShape(t, sh, src, parent, i, LastKey(left), e), slots, p)
  {
    LeafFacts(t, sh, slots, src, parent, k, i, e, left, right);
    var t' := SplitLeaf(t, slots, src, parent, k, left, right, filler);
    var sh' := SplitLeafShape(t, sh, src, parent, i, LastKey(left), e);
    if p == t.brk {
      LC.BuiltValid(slots, left, filler);
    } else if p == t.brk + 1 {
      LC.BuiltValid(slots, right, filler);
    } else if p == parent {
      SplitLeafParent(t, sh, slots, src, parent, k, i, e, left, right, filler);
    } else {
      assert NodeOk(t, sh, slots, p);
      if t.pool[p].InnerRec? {
        forall c <- t.pool[p].kids
          ensures SameKid(t, sh, t', sh', c)
        {
          KidUp(t, sh, slots, p, c);
          KidKept(t, sh, slots, src, parent, k, i, e, left, right, filler, p, c);
        }
        OtherOk(t, sh, t', sh', slots, p);
      }
    }
  }

  lemma SplitLeafAttached(t: Tree, sh: Shape, slots: nat, src: nat, parent: nat, k: nat, i: nat,
                          e: Kv, left: seq<Kv>, right: seq<Kv>, filler: Kv, p: nat)
    requires LeafCase(t, sh, slots, src, parent, k, i, e, left, right)
    requires p in SplitLeaf(t, slots, src, parent, k, left, right, filler).pool
    ensures Attached(SplitLeaf(t, slots, src, parent, k, left, right, filler),
                     SplitLeafShape(t, sh, src, parent, i, LastKey(left), e), p)
  {
    LeafFacts(t, sh, slots, src, parent, k, i, e, left, right);
    var t' := SplitLeaf(t, slots, src, parent, k, left, right, filler);
    var n, n' := t.pool[parent], t'.pool[parent];
    assert n'.kids[k] == t.brk && n'.kids[k + 1] == t.brk + 1;
    if p != t.brk && p != t.brk + 1 {
      assert Attached(t, sh, p);
      if p != t.root && sh.up[p] == parent {
        var j :| 0 <= j < |n.kids| && n.kids[j] == p;
        assert n'.kids[if j < k then j else j + 1] == p;
      }
    }
  }

  lemma SplitLeafAllNodes(t: Tree, sh: Shape, slots: nat, src: nat, parent: nat, k: nat, i: nat,
                          e: Kv, left: seq<Kv>, right: seq<Kv>, filler: Kv, t': Tree, sh': Shape)
    requires LeafCase(t, sh, slots, src, parent, k, i, e, left, right)
    requires t' == SplitLeaf(t, slots, src, parent, k, left, right, filler)
    requires sh' == SplitLeafShape(t, sh, src, parent, i, LastKey(left), e)
    ensures sh'.box.Keys == t'.pool.Keys
    ensures forall p {:trigger NodeOk(t', sh', slots, p)} :: p in t'.pool ==> NodeOk(t', sh', slots, p)
  {
    LeafFacts(t, sh, slots, src, parent, k, i, e, left, right);
    assert sh'.box.Keys == t'.pool.Keys;
    forall p | p in t'.pool
      ensures NodeOk(t', sh', slots, p)
    {
      SplitLeafNode(t, sh, slots, src, parent, k, i, e, left, right, filler, p);
    }
  }

  lemma SplitLeafAllAttached(t: Tree, sh: Shape, slots: nat, src: nat, parent: nat, k: nat, i: nat,
                             e: Kv, left: seq<Kv>, right: seq<Kv>, filler: Kv, t': Tree, sh': Shape)
    requires LeafCase(t, sh, slots, src, parent, k, i, e, left, right)
    requires t' == SplitLeaf(t, slots, src, parent, k, left, right, filler)
    requires sh' == SplitLeafShape(t, sh, src, parent, i, LastKey(left), e)
    ensures forall p {:trigger Attached(t', sh', p)} :: p in t'.pool ==> Attached(t', sh', p)
  {
    forall p | p in t'.pool
      ensures Attached(t', sh', p)
    {
      SplitLeafAttached(t, sh, slots, src, parent, k, i, e, left, right, filler, p);
    }
  }

  lemma SplitLeafNodes(t: Tree, sh: Shape, slots: nat, src: nat, parent: nat, k: nat, i: nat,
                       e: Kv, left: seq<Kv>, right: seq<Kv>, filler: Kv)
    requires LeafCase(t, sh, slots, src, parent, k, i, e, left, right)
    ensures NodesOk(SplitLeaf(t, slots, src, parent, k, left, right, filler),
                    SplitLeafShape(t, sh, src, parent, i, LastKey(left), e), slots)
  {
    LeafFacts(t, sh, slots, src, parent, k, i, e, left, right);
    var t' := SplitLeaf(t, slots, src, parent, k, left, right, filler);
    var sh' := SplitLeafShape(t, sh, src, parent, i, LastKey(left), e);
    SplitLeafAllNodes(t, sh, slots, src, parent, k, i, e, left, right, filler, t', sh');
    SplitLeafAllAttached(t, sh, slots, src, parent, k, i, e, left, right, filler, t', sh');
  }

  // ----- the chain -----

  /** The new chain: the old one with the leaf replaced by the pair. */
  lemma NewChain(chain: seq<nat>, i: nat, l: nat, r: nat, j: nat)
    requires i < |chain| && j < |chain| + 1
    ensures var chain' := chain[..i] + [l, r] + chain[i + 1..];
            && |chain'| == |chain| + 1
            && chain'[j] == if j < i then chain[j] else if j == i then l else if j == i + 1 then r else chain[j - 1]
  {
  }

  lemma LinkLeft(t: Tree, sh: Shape, slots: nat, src: nat, parent: nat, k: nat, i: nat,
                 e: Kv, left: seq<Kv>, right: seq<Kv>, filler: Kv)
    requires LeafCase(t, sh, slots, src, parent, k, i, e, left, right)
    ensures LinkOk(SplitLeaf(t, slots, src, parent, k, left, right, filler),
                   SplitLeafShape(t, sh, src, parent, i, LastKey(left), e), i)
  {
    LeafFacts(t, sh, slots, src, parent, k, i, e, left, right);
    assert LinkOk(t, sh, i);
  }

  lemma LinkRight(t: Tree, sh: Shape, slots: nat, src: nat, parent: nat, k: nat, i: nat,
                  e: Kv, left: seq<Kv>, right: seq<Kv>, filler: Kv)
    requires LeafCase(t, sh, slots, src, parent, k, i, e, left, right)
    ensures LinkOk(SplitLeaf(t, slots, src, parent, k, left, right, filler),
                   SplitLeafShape(t, sh, src, parent, i, LastKey(left), e), i + 1)
  {
    LeafFacts(t, sh, slots, src, parent, k, i, e, left, right);
    assert LinkOk(t, sh, i);
    assert i < |sh.chain| - 1 ==> LinkOk(t, sh, i + 1);
  }

  /** A leaf that stays, at place x of the chain: its record, box and links when the leaf at
      place i became the two at brk and brk + 1. */
  ghost predicate Stays(t: Tree, sh: Shape, t': Tree, sh': Shape, i: nat, x: nat)
    requires x < |sh.chain|
  {
    var p := sh.chain[x];
    && p in t.pool && p in t'.pool && p in sh.box && p in sh'.box && sh'.box[p] == sh.box[p]
    && t.pool[p].LeafRec? && t'.pool[p].LeafRec?
    && t'.pool[p].next == (if x + 1 == i then t.brk else t.pool[p].next)
    && t'.pool[p].prev == (if x == i + 1 then t.brk + 1 else t.pool[p].prev)
  }

  /** Every other leaf: its record, box and links after the split. */
  lemma OtherLeaf(t: Tree, sh: Shape, slots: nat, src: nat, parent: nat, k: nat, i: nat,
                  e: Kv, left: seq<Kv>, right: seq<Kv>, filler: Kv, x: nat)
    requires LeafCase(t, sh, slots, src, parent, k, i, e, left, right)
    requires x < |sh.chain| && x != i
    ensures Stays(t, sh, SplitLeaf(t, slots, src, parent, k, left, right, filler),
                  SplitLeafShape(t, sh, src, parent, i, LastKey(left), e), i, x)
  {
    LeafFacts(t, sh, slots, src, parent, k, i, e, left, right);
    assert LinkOk(t, sh, x) && LinkOk(t, sh, i);
    assert sh.chain[x] != src;
    assert 0 < i && x + 1 != i ==> sh.chain[i - 1] != sh.chain[x];
    assert i < |sh.chain| - 1 && x != i + 1 ==> sh.chain[i + 1] != sh.chain[x];
  }

  /** A leaf before the split one, */
  lemma LinkBefore(t: Tree, sh: Shape, t': Tree, sh': Shape, i: nat, x: nat)
    requires x < i < |sh.chain| && LinkOk(t, sh, x) && Stays(t, sh, t', sh', i, x)
    requires sh'.chain == sh.chain[..i] + [t.brk, t.brk + 1] + sh.chain[i + 1..]
    requires if x + 1 == i then t.brk in sh'.box && sh'.box[t.brk].lo == sh.box[sh.chain[i]].lo
             else Stays(t, sh, t', sh', i, x + 1)
    ensures LinkOk(t', sh', x)
  {
    NewChain(sh.chain, i, t.brk, t.brk + 1, x);
    NewChain(sh.chain, i, t.brk, t.brk + 1, x + 1);
    if 0 < x {
      NewChain(sh.chain, i, t.brk, t.brk + 1, x - 1);
    }
  }

  /** and one behind it. */
  lemma LinkBehind(t: Tree, sh: Shape, t': Tree, sh': Shape, i: nat, x: nat)
    requires i < x < |sh.chain| && LinkOk(t, sh, x) && Stays(t, sh, t', sh', i, x)
    requires sh'.chain == sh.chain[..i] + [t.brk, t.brk + 1] + sh.chain[i + 1..]
    requires x + 1 < |sh.chain| ==> Stays(t, sh, t', sh', i, x + 1)
    ensures LinkOk(t', sh', x + 1)
  {
    NewChain(sh.chain, i, t.brk, t.brk + 1, x + 1);
    NewChain(sh.chain, i, t.brk, t.brk + 1, x);
    if x + 1 < |sh.chain| {
      NewChain(sh.chain, i, t.brk, t.brk + 1, x + 2);
    }
  }

  lemma LinkOther(t: Tree, sh: Shape, slots: nat, src: nat, parent: nat, k: nat, i: nat,
                  e: Kv, left: seq<Kv>, right: seq<Kv>, filler: Kv, x: nat)
    requires LeafCase(t, sh, slots, src, parent, k, i, e, left, right)
    requires x < |sh.chain| && x != i
    ensures LinkOk(SplitLeaf(t, slots, src, parent, k, left, right, filler),
                   SplitLeafShape(t, sh, src, parent, i, LastKey(left), e), if x < i then x else x + 1)
  {
    var t' := SplitLeaf(t, slots, src, parent, k, left, right, filler);
    var sh' := SplitLeafShape(t, sh, src, parent, i, LastKey(left), e);
    assert LinkOk(t, sh, x);
    OtherLeaf(t, sh, slots, src, parent, k, i, e, left, right, filler, x);
    if x + 1 < |sh.chain| && x + 1 != i {
      OtherLeaf(t, sh, slots, src, parent, k, i, e, left, right, filler, x + 1);
    }
    if x < i {
      LinkBefore(t, sh, t', sh', i, x);
    } else {
      LinkBehind(t, sh, t', sh', i, x);
    }
  }

  lemma SplitLeafLink(t: Tree, sh: Shape, slots: nat, src: nat, parent: nat, k: nat, i: nat,
                      e: Kv, left: seq<Kv>, right: seq<Kv>, filler: Kv, t': Tree, sh': Shape, j: nat)
    requires LeafCase(t, sh, slots, src, parent, k, i, e, left, right)
    requires t' == SplitLeaf(t, slots, src, parent, k, left, right, filler)
    requires sh' == SplitLeafShape(t, sh, src, parent, i, LastKey(left), e)
    requires j < |sh.chain| + 1 && |sh'.chain| == |sh.chain| + 1
    ensures LinkOk(t', sh', j)
  {
    if j == i {
      LinkLeft(t, sh, slots, src, parent, k, i, e, left, right, filler);
    } else if j == i + 1 {
      LinkRight(t, sh, slots, src, parent, k, i, e, left, right, filler);
    } else {
      LinkOther(t, sh, slots, src, parent, k, i, e, left, right, filler, if j < i then j else j - 1);
    }
  }

  /** The new chain lists each leaf of the new pool, each once. */
  lemma SplitLeafListed(t: Tree, sh: Shape, slots: nat, src: nat, parent: nat, k: nat, i: nat,
                        e: Kv, left: seq<Kv>, right: seq<Kv>, filler: Kv, t': Tree, sh': Shape)
    requires LeafCase(t, sh, slots, src, parent, k, i, e, left, right)
    requires t' == SplitLeaf(t, slots, src, parent, k, left, right, filler)
    requires sh' == SplitLeafShape(t, sh, src, parent, i, LastKey(left), e)
    ensures forall x, y :: 0 <= x < y < |sh'.chain| ==> sh'.chain[x] != sh'.chain[y]
    ensures forall p <- t'.pool :: t'.pool[p].LeafRec? ==> p in sh'.chain
  {
    forall x | 0 <= x < |sh.chain|
      ensures sh.chain[x] < t.brk
    {
      assert LinkOk(t, sh, x);
    }
    forall p <- t'.pool | t'.pool[p].LeafRec?
      ensures p in sh'.chain
    {
      if p == t.brk || p == t.brk + 1 {
        assert sh'.chain[i] == t.brk && sh'.chain[i + 1] == t.brk + 1;
      } else {
        var x :| 0 <= x < |sh.chain| && sh.chain[x] == p;
        assert sh'.chain[if x < i then x else x + 1] == p;
      }
    }
  }

  lemma SplitLeafChain(t: Tree, sh: Shape, slots: nat, src: nat, parent: nat, k: nat, i: nat,
                       e: Kv, left: seq<Kv>, right: seq<Kv>, filler: Kv)
    requires LeafCase(t, sh, slots, src, parent, k, i, e, left, right)
    ensures ChainOk(SplitLeaf(t, slots, src, parent, k, left, right, filler),
                    SplitLeafShape(t, sh, src, parent, i, LastKey(left), e))
  {
    var t' := SplitLeaf(t, slots, src, parent, k, left, right, filler);
    var sh' := SplitLeafShape(t, sh, src, parent, i, LastKey(left), e);
    forall j | 0 <= j < |sh'.chain|
      ensures LinkOk(t', sh', j)
    {
      SplitLeafLink(t, sh, slots, src, parent, k, i, e, left, right, filler, t', sh', j);
    }
    SplitLeafListed(t, sh, slots, src, parent, k, i, e, left, right, filler, t', sh');
  }

  // ----- the split, store by store -----

  /** The two links of the neighbours, when there are neighbours. */
  function Relink(pool: map<nat, Node>, prev: nat, next: nat, l: nat, r: nat): map<nat, Node>
    requires prev != NULL ==> prev in pool && pool[prev].LeafRec?
    requires next != NULL ==> next in pool && pool[next].LeafRec?
  {
    var pool1 := if prev != NULL then pool[prev := pool[prev].(next := l)] else pool;
    if next != NULL then pool1[next := pool1[next].(prev := r)] else pool1
  }

  /** A neighbour of the leaf: none, or another leaf of the pool. */
  ghost predicate Neighbour(t: Tree, src: nat, p: nat) {
    p == NULL || (p in t.pool && t.pool[p].LeafRec? && p != src && p < t.brk)
  }

  /** The pool after the stores of split_leaf_node, in its order: two new leaves, the
      links of the neighbours, the parent, and the old leaf freed. */
  function SplitSteps(t: Tree, slots: nat, src: nat, parent: nat, k: nat, left: seq<Kv>, right: seq<Kv>,
                      filler: Kv): map<nat, Node>
    requires src in t.pool && parent in t.pool && t.pool[src].LeafRec? && t.pool[parent].InnerRec?
    requires 0 < |left| <= slots && |right| <= slots && parent < t.brk && 0 < t.brk
    requires k < |t.pool[parent].kids| == |t.pool[parent].keys| + 1
    requires Neighbour(t, src, t.pool[src].prev) && Neighbour(t, src, t.pool[src].next)
  {
    var n, l, r := t.pool[src], t.brk, t.brk + 1;
    var a := t.pool[l := LeafRec(LC.Built(slots, left, filler), n.prev, r)]
                   [r := LeafRec(LC.Built(slots, right, filler), l, n.next)];
    var b := Relink(a, n.prev, n.next, l, r);
    b[parent := InsertKid(b[parent], k, LastKey(left), l, r)] - {src}
  }

  lemma StepsAreSplit(t: Tree, slots: nat, src: nat, parent: nat, k: nat, left: seq<Kv>, right: seq<Kv>, filler: Kv)
    requires src in t.pool && parent in t.pool && t.pool[src].LeafRec? && t.pool[parent].InnerRec?
    requires 0 < |left| <= slots && |right| <= slots && src < t.brk && parent < t.brk && 0 < t.brk
    requires k < |t.pool[parent].kids| == |t.pool[parent].keys| + 1
    requires Neighbour(t, src, t.pool[src].prev) && Neighbour(t, src, t.pool[src].next)
    requires NULL !in t.pool
    ensures SplitSteps(t, slots, src, parent, k, left, right, filler)
         == SplitLeaf(t, slots, src, parent, k, left, right, filler).pool
  {
  }

  lemma NeighboursOf(t: Tree, sh: Shape, slots: nat, src: nat, i: nat)
    requires NodesOk(t, sh, slots) && ChainOk(t, sh) && i < |sh.chain| && sh.chain[i] == src
    ensures src in t.pool && t.pool[src].LeafRec? && src < t.brk && 0 < t.brk
    ensures Neighbour(t, src, t.pool[src].prev) && Neighbour(t, src, t.pool[src].next)
  {
    assert LinkOk(t, sh, i);
    assert 0 < i ==> LinkOk(t, sh, i - 1) && sh.chain[i - 1] != src;
    assert i < |sh.chain| - 1 ==> LinkOk(t, sh, i + 1) && sh.chain[i + 1] != src;
  }

  // ----- the contents -----

  lemma AllCovered(content: map<int, int>, b: Box, s: seq<Kv>, e: Kv)
    requires Covers(content, b, s) && !HasKey(s, e.key)
    ensures Covers(content[e.key := e.val], b, LC.Put(s, e))
  {
    var content', all := content[e.key := e.val], LC.Put(s, e);
    PutMembers(s, e);
    forall x | 0 <= x < |all|
      ensures all[x].key in content' && content'[all[x].key] == all[x].val
    {
      assert all[x] in all;
      if all[x] != e {
        var y :| 0 <= y < |s| && s[y] == all[x];
      }
    }
    forall key <- content' | In(b, key)
      ensures HasKey(all, key)
    {
      var y := if key == e.key then e else KeyIn(s, key);
      assert y in all;
    }
  }

  lemma HalvesCover(content: map<int, int>, b: Box, s: seq<Kv>, e: Kv, left: seq<Kv>, right: seq<Kv>, slots: nat)
    requires Covers(content, b, s) && Halved(s, e, left, right, slots) && In(b, e.key)
    requires forall x :: 0 <= x < |s| ==> In(b, s[x].key)
    ensures Covers(content[e.key := e.val], Box(b.lo, At(LastKey(left))), left)
    ensures Covers(content[e.key := e.val], Box(At(LastKey(left)), b.hi), right)
  {
    HalvesInBox(s, e, left, right, slots, b);
    AllCovered(content, b, s, e);
    CutCover(content[e.key := e.val], b, left, right);
  }

  lemma CutCover(content: map<int, int>, b: Box, left: seq<Kv>, right: seq<Kv>)
    requires 0 < |left| && Sorted(left + right) && Covers(content, b, left + right) && Strictly(b, LastKey(left))
    ensures Covers(content, Box(b.lo, At(LastKey(left))), left)
    ensures Covers(content, Box(At(LastKey(left)), b.hi), right)
  {
    var all := left + right;
    assert forall x :: 0 <= x < |left| ==> left[x] == all[x];
    assert forall x :: 0 <= x < |right| ==> right[x] == all[|left| + x];
    forall key <- content | In(Box(b.lo, At(LastKey(left))), key)
      ensures HasKey(left, key)
    {
      assert In(b, key);
      var x :| 0 <= x < |all| && all[x].key == key;
      assert x < |left|;
    }
    forall key <- content | In(Box(At(LastKey(left)), b.hi), key)
      ensures HasKey(right, key)
    {
      assert In(b, key);
      var x :| 0 <= x < |all| && all[x].key == key;
      assert x >= |left| && right[x - |left|].key == key;
    }
  }

  ghost function KeyIn(s: seq<Kv>, key: int): (e: Kv)
    requires HasKey(s, key)
    ensures e in s && e.key == key
  {
    var k :| 0 <= k < |s| && s[k].key == key;
    s[k]
  }

  /** Leaves other than p keep what they cover when only a key of p's box changes. */
  lemma OthersCover(t: Tree, sh: Shape, slots: nat, p: nat, q: nat, key: int, content': map<int, int>)
    requires NodesOk(t, sh, slots) && ChainOk(t, sh) && ContentOk(t, sh)
    requires p in t.pool && q in t.pool && t.pool[p].LeafRec? && t.pool[q].LeafRec? && p != q
    requires In(sh.box[p], key)
    requires forall x :: x != key ==>
               (x in content' <==> x in sh.content) && (x in content' ==> content'[x] == sh.content[x])
    ensures Covers(content', sh.box[q], Held(t, q))
  {
    var i :| 0 <= i < |sh.chain| && sh.chain[i] == p;
    var j :| 0 <= j < |sh.chain| && sh.chain[j] == q;
    if In(sh.box[q], key) {
      OneLeaf(t, sh, slots, i, j, key);
    }
    assert Covers(sh.content, sh.box[q], Held(t, q));
    assert NodeOk(t, sh, slots, q);
  }

  /** The contents of one leaf after the split. */
  lemma SplitLeafHeld(t: Tree, sh: Shape, slots: nat, src: nat, parent: nat, k: nat, i: nat,
                      e: Kv, left: seq<Kv>, right: seq<Kv>, filler: Kv, t': Tree, q: nat)
    requires LeafCase(t, sh, slots, src, parent, k, i, e, left, right)
    requires t' == SplitLeaf(t, slots, src, parent, k, left, right, filler)
    requires q in t'.pool && t'.pool[q].LeafRec? && Sorted(left) && Sorted(right)
    ensures Held(t', q) == if q == t.brk then left else if q == t.brk + 1 then right else Held(t, q)
    ensures q != t.brk && q != t.brk + 1 ==> q in t.pool && t.pool[q].LeafRec? && q != src
  {
    LC.BuiltValid(slots, left, filler);
    LC.BuiltValid(slots, right, filler);
  }

  lemma SplitLeafContent(t: Tree, sh: Shape, slots: nat, src: nat, parent: nat, k: nat, i: nat,
                         e: Kv, left: seq<Kv>, right: seq<Kv>, filler: Kv)
    requires LeafCase(t, sh, slots, src, parent, k, i, e, left, right)
    ensures ContentOk(SplitLeaf(t, slots, src, parent, k, left, right, filler),
                      SplitLeafShape(t, sh, src, parent, i, LastKey(left), e))
  {
    LeafFacts(t, sh, slots, src, parent, k, i, e, left, right);
    var t' := SplitLeaf(t, slots, src, parent, k, left, right, filler);
    var sh' := SplitLeafShape(t, sh, src, parent, i, LastKey(left), e);
    assert Covers(sh.content, sh.box[src], Held(t, src));
    HalvesCover(sh.content, sh.box[src], Held(t, src), e, left, right, slots);
    forall q | q in t'.pool && t'.pool[q].LeafRec? && q in sh'.box
      ensures Covers(sh'.content, sh'.box[q], Held(t', q))
    {
      SplitLeafHeld(t, sh, slots, src, parent, k, i, e, left, right, filler, t', q);
      if q != t.brk && q != t.brk + 1 {
        OthersCover(t, sh, slots, src, q, e.key, sh'.content);
      }
    }
  }

  lemma SplitLeafOk(t: Tree, sh: Shape, slots: nat, src: nat, parent: nat, k: nat, i: nat,
                    e: Kv, left: seq<Kv>, right: seq<Kv>, filler: Kv)
    requires LeafCase(t, sh, slots, src, parent, k, i, e, left, right)
    ensures TreeOk(SplitLeaf(t, slots, src, parent, k, left, right, filler),
                   SplitLeafShape(t, sh, src, parent, i, LastKey(left), e), slots)
  {
    SplitLeafNodes(t, sh, slots, src, parent, k, i, e, left, right, filler);
    SplitLeafChain(t, sh, slots, src, parent, k, i, e, left, right, filler);
    SplitLeafContent(t, sh, slots, src, parent, k, i, e, left, right, filler);
  }

  // ----- a new root -----

  /** A root with the old root as its only child: splitting that child below it is what
      create_new_root does. */
  function GrowRoot(t: Tree): Tree
    requires t.root in t.pool
  {
    Tree(t.pool[t.brk := InnerRec(Level(t.pool[t.root]) + 1, [], [t.root])], t.brk, t.brk + 1)
  }

  ghost function GrowRootShape(t: Tree, sh: Shape): Shape {
    sh.(box := sh.box[t.brk := WHOLE], up := sh.up[t.root := t.brk])
  }

  lemma GrowRootNode(t: Tree, sh: Shape, slots: nat, p: nat)
    requires NodesOk(t, sh, slots) && p in GrowRoot(t).pool
    requires p in GrowRootShape(t, sh).box
    ensures NodeOk(GrowRoot(t), GrowRootShape(t, sh), slots, p)
  {
    var t', sh' := GrowRoot(t), GrowRootShape(t, sh);
    if p == t.brk {
      assert KidBox(WHOLE, [], 0) == WHOLE;
    } else {
      assert NodeOk(t, sh, slots, p);
      if t.pool[p].InnerRec? {
        forall c <- t.pool[p].kids
          ensures SameKid(t, sh, t', sh', c)
        {
          KidUp(t, sh, slots, p, c);
        }
      }
      OtherOk(t, sh, t', sh', slots, p);
    }
  }

  lemma GrowRootNodes(t: Tree, sh: Shape, slots: nat)
    requires NodesOk(t, sh, slots)
    ensures NodesOk(GrowRoot(t), GrowRootShape(t, sh), slots)
  {
    var t', sh' := GrowRoot(t), GrowRootShape(t, sh);
    assert t.root < t.brk;
    forall p | p in t'.pool
      ensures NodeOk(t', sh', slots, p)
    {
      GrowRootNode(t, sh, slots, p);
    }
    forall p | p in t'.pool
      ensures Attached(t', sh', p)
    {
      assert p in t.pool ==> Attached(t, sh, p);
    }
  }

  lemma GrowRootOk(t: Tree, sh: Shape, slots: nat)
    requires TreeOk(t, sh, slots)
    ensures TreeOk(GrowRoot(t), GrowRootShape(t, sh), slots)
  {
    GrowRootNodes(t, sh, slots);
    LeavesUntouched(t, sh, GrowRoot(t), GrowRootShape(t, sh));
  }

  // ----- a leaf changes in place -----

  function SetLeaf(t: Tree, p: nat, leaf: Leaf): Tree
    requires p in t.pool && t.pool[p].LeafRec?
  {
    t.(pool := t.pool[p := t.pool[p].(leaf := leaf)])
  }

  lemma SetLeafNodes(t: Tree, sh: Shape, slots: nat, p: nat, leaf: Leaf)
    requires NodesOk(t, sh, slots) && p in t.pool && t.pool[p].LeafRec?
    requires Valid(leaf) && |leaf.entries| == slots
    requires forall k :: 0 <= k < |Contents(leaf)| ==> In(sh.box[p], Contents(leaf)[k].key)
    ensures NodesOk(SetLeaf(t, p, leaf), sh, slots)
  {
    var t' := SetLeaf(t, p, leaf);
    forall q | q in t'.pool
      ensures NodeOk(t', sh, slots, q)
    {
      assert NodeOk(t, sh, slots, q);
      if t.pool[q].InnerRec? {
        forall c <- t.pool[q].kids
          ensures SameKid(t, sh, t', sh, c)
        {
          KidUp(t, sh, slots, q, c);
        }
        OtherOk(t, sh, t', sh, slots, q);
      }
    }
    forall q | q in t'.pool
      ensures Attached(t', sh, q)
    {
      assert Attached(t, sh, q);
    }
  }

  /** Changing one key of the leaf responsible for it changes that key of the map. */
  lemma SetLeafOk(t: Tree, sh: Shape, slots: nat, p: nat, leaf: Leaf, key: int, content': map<int, int>)
    requires TreeOk(t, sh, slots) && p in t.pool && t.pool[p].LeafRec? && In(sh.box[p], key)
    requires Valid(leaf) && |leaf.entries| == slots
    requires forall k :: 0 <= k < |Contents(leaf)| ==> In(sh.box[p], Contents(leaf)[k].key)
    requires Covers(content', sh.box[p], Contents(leaf))
    requires forall x :: x != key ==>
               (x in content' <==> x in sh.content) && (x in content' ==> content'[x] == sh.content[x])
    ensures TreeOk(SetLeaf(t, p, leaf), sh.(content := content'), slots)
  {
    var t', sh' := SetLeaf(t, p, leaf), sh.(content := content');
    SetLeafNodes(t, sh, slots, p, leaf);
    ContentApart(t', sh, sh', slots);
    forall i | 0 <= i < |sh'.chain|
      ensures LinkOk(t', sh', i)
    {
      assert LinkOk(t, sh, i);
    }
    forall q | q in t'.pool && t'.pool[q].LeafRec? && q in sh'.box
      ensures Covers(sh'.content, sh'.box[q], Held(t', q))
    {
      if q != p {
        OthersCover(t, sh, slots, p, q, key, content');
        assert Held(t', q) == Held(t, q);
      }
    }
  }

  /** The node conditions do not look at the contents. */
  lemma ContentApart(t: Tree, sh: Shape, sh': Shape, slots: nat)
    requires NodesOk(t, sh, slots) && sh'.box == sh.box && sh'.up == sh.up
    ensures NodesOk(t, sh', slots)
  {
    forall p | p in t.pool
      ensures NodeOk(t, sh', slots, p)
    {
      assert NodeOk(t, sh, slots, p);
      if t.pool[p].InnerRec? {
        forall i | 0 <= i < |t.pool[p].kids|
          ensures KidOk(t, sh', p, i)
        {
          assert KidOk(t, sh, p, i);
        }
      }
    }
    forall p | p in t.pool
      ensures Attached(t, sh', p)
    {
      assert Attached(t, sh, p);
    }
  }
}
