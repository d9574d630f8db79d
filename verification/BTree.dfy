/** The persistent B+ tree as an object over its pool of nodes. The map it stands for is
    `Content()`; a full node is split on the way before anything is inserted below it. */
module BTree {
  import opened LeafModel
  import LC = LeafCrash
  import opened TreeModel
  import opened TreeOrder
  import opened TreeSplit
  import opened TreeLeafSplit
  import opened TreePath
  import opened TreeKeys

  class BTree {
    /** degree - 1: the capacity of a leaf and the number of separators of an inner node. */
    const slots: nat
    const filler: Kv
    var pool: map<nat, Node>
    var root: nat
    var brk: nat
    ghost var sh: Shape

    function Now(): Tree
      reads this
    {
      Tree(pool, root, brk)
    }

    ghost predicate Ok()
      reads this
    {
      && 2 <= slots && 0 < brk
      && if root == NULL then pool == map[] && sh.content == map[] else TreeOk(Now(), sh, slots)
    }

    ghost function Content(): map<int, int>
      reads this
    {
      sh.content
    }

    /** From degree 4 on, every inner node has a separator, as back() and the split need. */
    ghost predicate Keyed()
      reads this
    {
      KeyedBut(pool, slots, NULL)
    }

    constructor (degree: nat)
      requires 3 <= degree
      ensures Ok() && Keyed() && Content() == map[] && slots == degree - 1
    {
      slots, filler := degree - 1, Kv(0, 0);
      pool, root, brk := map[], NULL, 1;
      sh := Shape(map[], map[], [], map[]);
    }

    // ----- reading -----

    /** Walks from the root to the leaf responsible for the key. */
    method FindLeaf(key: int) returns (path: seq<nat>, leaf: nat)
      requires Ok() && root != NULL
      ensures Descends(Now(), sh, key, path + [leaf]) && (path + [leaf])[0] == root
    {
      path := [];
      leaf := root;
      ghost var t := Now();
      ghost var top := Level(pool[root]);
      while pool[leaf].InnerRec?
        invariant leaf in pool && leaf in sh.box && In(sh.box[leaf], key)
        invariant Level(pool[leaf]) + |path| == top
        invariant (path + [leaf])[0] == root
        invariant forall j :: 0 <= j < |path| ==> PathStep(t, sh, key, path + [leaf], top, j)
        decreases Level(pool[leaf])
      {
        ChildFacts(t, sh, slots, leaf, key);
        ghost var before := path + [leaf];
        path := path + [leaf];
        leaf := Child(pool[leaf], key);
        forall j | 0 <= j < |path|
          ensures PathStep(t, sh, key, path + [leaf], top, j)
        {
          if j < |path| - 1 {
            assert PathStep(t, sh, key, before, top, j);
          }
        }
      }
      assert NodeOk(t, sh, slots, leaf);
      forall j | 0 <= j < |path + [leaf]|
        ensures DescentStep(t, sh, key, path + [leaf], j)
      {
        if j < |path| {
          assert PathStep(t, sh, key, path + [leaf], top, j);
        }
      }
    }

    /** The value stored for a key, if any. */
    method Find(key: int) returns (found: bool, val: int)
      requires Ok()
      ensures found <==> key in Content()
      ensures found ==> val == Content()[key]
    {
      if root == NULL {
        return false, 0;
      }
      var path, leaf := FindLeaf(key);
      LeafDecides(Now(), sh, slots, path + [leaf], key);
      var s := Contents(pool[leaf].leaf);
      PresentHasKey(s, key);
      found := LC.Present(s, key);
      val := if found then s[LowerBound(s, key)].val else 0;
    }

    /** The leaf at the left end of the chain, found from the root. */
    method LeftmostLeaf() returns (leaf: nat)
      requires Ok() && root != NULL
      ensures leaf == sh.chain[0]
    {
      leaf := root;
      while pool[leaf].InnerRec?
        invariant leaf in pool && sh.box[leaf].lo == Open
        decreases Level(pool[leaf])
      {
        assert NodeOk(Now(), sh, slots, leaf);
        assert KidOk(Now(), sh, leaf, 0);
        leaf := pool[leaf].kids[0];
      }
      OpenEnds(Now(), sh, slots, leaf);
    }

    /** The leaf at the right end of the chain. */
    method RightmostLeaf() returns (leaf: nat)
      requires Ok() && root != NULL
      ensures leaf == sh.chain[|sh.chain| - 1]
    {
      leaf := root;
      while pool[leaf].InnerRec?
        invariant leaf in pool && sh.box[leaf].hi == Open
        decreases Level(pool[leaf])
      {
        assert NodeOk(Now(), sh, slots, leaf);
        assert KidOk(Now(), sh, leaf, |pool[leaf].keys|);
        leaf := pool[leaf].kids[|pool[leaf].keys|];
      }
      OpenEnds(Now(), sh, slots, leaf);
    }

    // ----- erasing -----

    /** Removes the key from its leaf; the leaf may become empty and stays in place. */
    method Erase(key: int) returns (removed: nat)
      requires Ok()
      modifies this
      ensures Ok() && Content() == old(Content()) - {key}
      ensures removed == if key in old(Content()) then 1 else 0
      ensures root == old(root) && sh.chain == old(sh.chain)
      ensures old(Keyed()) ==> Keyed()
    {
      if root == NULL {
        return 0;
      }
      var path, leaf := FindLeaf(key);
      LeafDecides(Now(), sh, slots, path + [leaf], key);
      var s := Contents(pool[leaf].leaf);
      PresentHasKey(s, key);
      if !LC.Present(s, key) {
        assert sh.content == sh.content - {key};
        return 0;
      }
      EraseFromLeaf(leaf, key);
      removed := 1;
    }

    method EraseFromLeaf(leaf: nat, key: int)
      requires Ok() && root != NULL && leaf in pool && pool[leaf].LeafRec? && leaf in sh.box && In(sh.box[leaf], key)
      requires Valid(pool[leaf].leaf) && LC.Present(Contents(pool[leaf].leaf), key)
      modifies this
      ensures Ok() && root == old(root) && sh == old(sh).(content := old(Content()) - {key})
      ensures old(Keyed()) ==> Keyed()
    {
      EraseOk(Now(), sh, slots, leaf, key);
      var l := pool[leaf].leaf;
      pool := pool[leaf := pool[leaf].(leaf := LC.Erased(l, LowerBound(Contents(l), key)))];
      sh := sh.(content := sh.content - {key});
    }

    // ----- inserting -----

    method InsertIntoLeaf(leaf: nat, e: Kv, ghost nodes: seq<nat>) returns (inserted: bool)
      requires Ok() && root != NULL && Descends(Now(), sh, e.key, nodes) && nodes[|nodes| - 1] == leaf
      requires leaf in pool && pool[leaf].LeafRec? && Valid(pool[leaf].leaf)
      requires |Contents(pool[leaf].leaf)| < slots
      modifies this
      ensures Ok() && root == old(root) && inserted == (e.key !in old(Content()))
      ensures Content() == if inserted then old(Content())[e.key := e.val] else old(Content())
      ensures old(Keyed()) ==> Keyed()
    {
      LeafDecides(Now(), sh, slots, nodes, e.key);
      var l := pool[leaf].leaf;
      var s := Contents(l);
      PresentHasKey(s, e.key);
      if LC.Present(s, e.key) {
        return false;
      }
      InsertOk(Now(), sh, slots, leaf, e);
      pool := pool[leaf := pool[leaf].(leaf := LC.Inserted(l, LowerBound(s, e.key), e))];
      sh := sh.(content := sh.content[e.key := e.val]);
      inserted := true;
    }

    /** Puts a node above the root whose only child is the old root: the first half of
        create_new_root. */
    method NewRoot()
      requires Ok() && root != NULL
      modifies this
      ensures Ok() && root == old(brk) && Content() == old(Content())
      ensures Now() == GrowRoot(old(Now())) && sh == GrowRootShape(old(Now()), old(sh))
    {
      GrowRootOk(Now(), sh, slots);
      sh := GrowRootShape(Now(), sh);
      pool := pool[brk := InnerRec(Level(pool[root]) + 1, [], [root])];
      root := brk;
      brk := brk + 1;
    }

    /** Splits a full inner node below a parent with room. */
    method SplitInnerNode(parent: nat, src: nat, ghost key: int)
      requires Ok() && root != NULL && Heads(Now(), sh, slots, key, parent)
      requires src == Child(pool[parent], key) && src in pool && pool[src].InnerRec? && |pool[src].keys| == slots
      modifies this
      ensures Ok() && root == old(root) && Content() == old(Content())
      ensures InnerCase(old(Now()), old(sh), slots, src, parent, ChildPos(old(pool[parent].keys), key))
      ensures SplitResult(old(Now()), old(sh), Now(), sh, src, parent, ChildPos(old(pool[parent].keys), key))
    {
      InnerSplit(Now(), sh, slots, key, parent, src);
      var n, m, l, r := pool[src], Middle(pool[src]), brk, brk + 1;
      var k := ChildPos(pool[parent].keys, m);
      sh := SplitInnerShape(Now(), sh, src, parent);
      pool := (pool - {src})[l := LeftHalf(n)][r := RightHalf(n)][parent := InsertKid(pool[parent], k, m, l, r)];
      brk := brk + 2;
    }

    /** Splits a full leaf below a parent with room, and adds the entry to one half. */
    method SplitLeafNode(parent: nat, src: nat, e: Kv)
      requires Ok() && root != NULL && Heads(Now(), sh, slots, e.key, parent)
      requires src == Child(pool[parent], e.key) && src in pool && pool[src].LeafRec? && Valid(pool[src].leaf)
      requires |Contents(pool[src].leaf)| == slots && e.key !in Content()
      modifies this
      ensures Ok() && Content() == old(Content())[e.key := e.val]
      ensures old(KeyedBut(pool, slots, parent)) ==> Keyed()
    {
      var left, right := Sides(Contents(pool[src].leaf), e);
      SplitInto(parent, src, e, left, right);
    }

    method SplitInto(parent: nat, src: nat, e: Kv, left: seq<Kv>, right: seq<Kv>)
      requires Ok() && root != NULL && Heads(Now(), sh, slots, e.key, parent)
      requires src == Child(pool[parent], e.key) && src in pool && pool[src].LeafRec? && Valid(pool[src].leaf)
      requires |Contents(pool[src].leaf)| == slots && e.key !in Content()
      requires SplitSides(Contents(pool[src].leaf), e, left, right)
      modifies this
      ensures Ok() && Content() == old(Content())[e.key := e.val]
      ensures old(KeyedBut(pool, slots, parent)) ==> Keyed()
    {
      ghost var t', sh' := LeafSplit(Now(), sh, slots, src, parent, e, left, right, filler);
      LinkHalves(src, parent, left, right);
      sh := sh';
      assert Now() == t';
    }

    /** The entries of the two new leaves: the halves, one of them with the new entry. */
    method Sides(s: seq<Kv>, e: Kv) returns (left: seq<Kv>, right: seq<Kv>)
      requires 0 < |s|
      ensures SplitSides(s, e, left, right)
    {
      var mid := |s| / 2;
      left, right := s[..mid], s[mid..];
      if e.key < s[mid].key {
        left := LC.Put(left, e);
      } else {
        right := LC.Put(right, e);
      }
    }

    /** Allocates the two leaves, links them, updates the parent and frees the old leaf. */
    method LinkHalves(src: nat, parent: nat, left: seq<Kv>, right: seq<Kv>)
      requires parent in pool && pool[parent].InnerRec? && 0 < |left|
      requires StepsDefined(Now(), slots, src, parent, ChildPos(pool[parent].keys, LastKey(left)), left, right)
      modifies this`pool, this`brk
      ensures Now() == Tree(SplitSteps(old(Now()), slots, src, parent, ChildPos(old(pool[parent].keys), LastKey(left)),
                                       left, right, filler), old(root), old(brk) + 2)
    {
      var n, l, r := pool[src], brk, brk + 1;
      var m := LastKey(left);
      var k := ChildPos(pool[parent].keys, m);
      pool := pool[l := LeafRec(LC.Built(slots, left, filler), n.prev, r)]
                  [r := LeafRec(LC.Built(slots, right, filler), l, n.next)];
      pool := Relink(pool, n.prev, n.next, l, r);
      pool := pool[parent := InsertKid(pool[parent], k, m, l, r)];
      pool := pool - {src};
      brk := brk + 2;
    }

    /** The lowest node of the path that has room, or the first one. */
    method FindFullNode(path: seq<nat>) returns (i: nat)
      requires 0 < |path| && forall j :: 0 <= j < |path| ==> path[j] in pool && pool[path[j]].InnerRec?
      ensures i < |path| && (0 < i ==> |pool[path[i]].keys| != slots)
      ensures forall j :: i < j < |path| ==> |pool[path[j]].keys| == slots
    {
      i := |path| - 1;
      while i > 0
        invariant 0 <= i < |path|
        invariant forall j :: i < j < |path| ==> |pool[path[j]].keys| == slots
      {
        if |pool[path[i]].keys| != slots {
          return;
        }
        i := i - 1;
      }
    }

    /** Splits the second node of a descent and steps into the half that leads on. */
    method SplitStep(parent: nat, src: nat, key: int, ghost rest: seq<nat>) returns (q: nat)
      requires Ok() && root != NULL && Heads(Now(), sh, slots, key, parent)
      requires 0 < |rest| && Descends(Now(), sh, key, [parent, src] + rest)
      requires src in pool && pool[src].InnerRec? && |pool[src].keys| == slots
      modifies this
      ensures Ok() && root != NULL && Content() == old(Content())
      ensures Heads(Now(), sh, slots, key, q) && Descends(Now(), sh, key, [q] + rest)
      ensures old(KeyedBut(pool, slots, parent)) ==> Keyed()
      ensures forall p <- rest :: p in old(pool) && p in pool && pool[p] == old(pool)[p]
    {
      ghost var nodes := [parent, src] + rest;
      assert DescentStep(Now(), sh, key, nodes, 0);
      ghost var t, s := Now(), sh;
      SplitInnerNode(parent, src, key);
      if KeyedBut(t.pool, slots, parent) {
        InnerSplitKeyed(t, s, Now(), sh, slots, src, parent, ChildPos(t.pool[parent].keys, key));
      }
      SplitHead(t, s, Now(), sh, slots, key, parent, src);
      q := Child(pool[parent], key);
      SplitDescends(t, s, Now(), sh, slots, key, nodes, q);
      assert nodes[2..] == rest;
      forall p <- rest
        ensures Kept(t, s, Now(), sh, p)
      {
        var j :| 0 <= j < |rest| && rest[j] == p;
        assert nodes[2 + j] == p;
      }
    }

    /** Splits the nodes of the path from position i on, below a parent with room. */
    method SplitRest(head: nat, path: seq<nat>, leaf: nat, from: nat, key: int) returns (parent: nat)
      requires Ok() && root != NULL && from <= |path|
      requires Heads(Now(), sh, slots, key, head) && Descends(Now(), sh, key, [head] + (path + [leaf])[from..])
      requires forall j :: from <= j < |path| ==>
                 path[j] in pool && pool[path[j]].InnerRec? && |pool[path[j]].keys| == slots
      modifies this
      ensures Ok() && root != NULL && Content() == old(Content())
      ensures Heads(Now(), sh, slots, key, parent) && Descends(Now(), sh, key, [parent, leaf])
      ensures Untouched(old(pool), pool, [leaf])
      ensures old(KeyedBut(pool, slots, head)) ==> KeyedBut(pool, slots, parent)
    {
      ghost var nodes := path + [leaf];
      parent := head;
      var i := from;
      UntouchedAtStart(Now(), sh, key, head, nodes[i..]);
      while i < |path|
        invariant from <= i <= |path|
        invariant Ok() && root != NULL && Content() == old(Content())
        invariant Heads(Now(), sh, slots, key, parent) && Descends(Now(), sh, key, [parent] + nodes[i..])
        invariant Untouched(old(pool), pool, nodes[i..])
        invariant old(KeyedBut(pool, slots, head)) ==> KeyedBut(pool, slots, parent)
      {
        NextOfPath(path, leaf, i, parent);
        parent := SplitStep(parent, path[i], key, nodes[i + 1..]);
        i := i + 1;
      }
      assert [parent] + nodes[i..] == [parent, leaf];
      assert nodes[i..] == [leaf];
    }

    /** Makes room along the path: from a new root when all of it is full, otherwise from
        its lowest node with room. */
    method MakeRoom(path: seq<nat>, leaf: nat, key: int) returns (parent: nat)
      requires Ok() && root != NULL && Descends(Now(), sh, key, path + [leaf]) && (path + [leaf])[0] == root
      modifies this
      ensures Ok() && root != NULL && Content() == old(Content())
      ensures Heads(Now(), sh, slots, key, parent) && Descends(Now(), sh, key, [parent, leaf])
      ensures Untouched(old(pool), pool, [leaf])
      ensures old(Keyed()) ==> KeyedBut(pool, slots, parent)
    {
      ghost var nodes := path + [leaf];
      PathInner(Now(), sh, key, path, leaf);
      if path == [] {
        parent := RootAbove(path, leaf, key);
        assert [parent] + (path + [leaf])[0..] == [parent, leaf];
        return;
      }
      var i := FindFullNode(path);
      if |pool[path[i]].keys| == slots {
        parent := RootAbove(path, leaf, key);
        parent := SplitRest(parent, path, leaf, 0, key);
      } else {
        DescendsTail(Now(), sh, key, nodes, i);
        assert nodes[i..] == [path[i]] + nodes[i + 1..];
        assert DescentStep(Now(), sh, key, nodes, i);
        assert NodeOk(Now(), sh, slots, path[i]);
        parent := SplitRest(path[i], path, leaf, i + 1, key);
      }
    }

    /** A new root heads the path. */
    method RootAbove(path: seq<nat>, leaf: nat, key: int) returns (parent: nat)
      requires Ok() && root != NULL && Descends(Now(), sh, key, path + [leaf]) && (path + [leaf])[0] == root
      modifies this
      ensures Ok() && root != NULL && Content() == old(Content())
      ensures Heads(Now(), sh, slots, key, parent) && Descends(Now(), sh, key, [parent] + (path + [leaf])[0..])
      ensures Untouched(old(pool), pool, path + [leaf])
      ensures old(Keyed()) ==> KeyedBut(pool, slots, parent)
    {
      ghost var nodes := path + [leaf];
      GrowDescends(Now(), sh, slots, key, nodes);
      forall p <- nodes
        ensures p in pool && p < brk
      {
        var j :| 0 <= j < |nodes| && nodes[j] == p;
        assert DescentStep(Now(), sh, key, nodes, j);
      }
      NewRoot();
      assert DescentStep(Now(), sh, key, [root] + nodes, 0);
      assert nodes[0..] == nodes;
      parent := root;
    }

    /** A full leaf: room is made along its path, then it is split. */
    method SplitPath(path: seq<nat>, leaf: nat, e: Kv)
      requires Ok() && root != NULL && Descends(Now(), sh, e.key, path + [leaf]) && (path + [leaf])[0] == root
      requires leaf in pool && pool[leaf].LeafRec? && Valid(pool[leaf].leaf)
      requires |Contents(pool[leaf].leaf)| == slots && e.key !in Content()
      modifies this
      ensures Ok() && Content() == old(Content())[e.key := e.val]
      ensures old(Keyed()) ==> Keyed()
    {
      var parent := MakeRoom(path, leaf, e.key);
      assert leaf in [leaf];
      assert DescentStep(Now(), sh, e.key, [parent, leaf], 0);
      SplitLeafNode(parent, leaf, e);
    }

    method InsertDescend(e: Kv) returns (inserted: bool)
      requires Ok() && root != NULL
      modifies this
      ensures Ok() && inserted == (e.key !in old(Content()))
      ensures Content() == if inserted then old(Content())[e.key := e.val] else old(Content())
      ensures old(Keyed()) ==> Keyed()
    {
      var path, leaf := FindLeaf(e.key);
      LeafDecides(Now(), sh, slots, path + [leaf], e.key);
      var s := Contents(pool[leaf].leaf);
      if |s| == slots {
        PresentHasKey(s, e.key);
        if LC.Present(s, e.key) {
          return false;
        }
        SplitPath(path, leaf, e);
        return true;
      }
      inserted := InsertIntoLeaf(leaf, e, path + [leaf]);
    }

    /** Adds an entry; a key that is present is reported and nothing changes. */
    method Insert(e: Kv) returns (inserted: bool)
      requires Ok()
      modifies this
      ensures Ok() && inserted == (e.key !in old(Content()))
      ensures Content() == if inserted then old(Content())[e.key := e.val] else old(Content())
      ensures old(Keyed()) ==> Keyed()
    {
      if root == NULL {
        FirstLeaf(slots, brk, filler);
        sh := Shape(map[brk := WHOLE], map[], [brk], map[]);
        pool := map[brk := LeafRec(LC.Built(slots, [], filler), NULL, NULL)];
        root := brk;
        brk := brk + 1;
      }
      inserted := InsertDescend(e);
    }
  }

  lemma NextOfPath(path: seq<nat>, leaf: nat, i: nat, parent: nat)
    requires i < |path|
    ensures var nodes := path + [leaf];
            && nodes[i..] == [path[i]] + nodes[i + 1..] && path[i] in nodes[i..]
            && [parent] + nodes[i..] == [parent, path[i]] + nodes[i + 1..]
  {
  }

  /** Only the ends of the chain have a box that is open on their side. */
  lemma OpenEnds(t: Tree, sh: Shape, slots: nat, leaf: nat)
    requires TreeOk(t, sh, slots) && leaf in t.pool && t.pool[leaf].LeafRec?
    ensures sh.box[leaf].lo == Open ==> leaf == sh.chain[0]
    ensures sh.box[leaf].hi == Open ==> leaf == sh.chain[|sh.chain| - 1]
  {
    assert leaf in sh.chain;
    var i :| 0 <= i < |sh.chain| && sh.chain[i] == leaf;
    LinkBox(t, sh, slots, i);
    assert LinkOk(t, sh, i);
  }

  /** The nodes are the same in both pools. */
  ghost predicate Untouched(a: map<nat, Node>, b: map<nat, Node>, nodes: seq<nat>) {
    forall p <- nodes :: p in a && p in b && b[p] == a[p]
  }

  lemma {:induction false} UntouchedAtStart(t: Tree, sh: Shape, key: int, head: nat, nodes: seq<nat>)
    requires Descends(t, sh, key, [head] + nodes)
    ensures Untouched(t.pool, t.pool, nodes)
  {
    forall p <- nodes
      ensures p in t.pool
    {
      var j :| 0 <= j < |nodes| && nodes[j] == p;
      assert DescentStep(t, sh, key, [head] + nodes, j + 1);
    }
  }

  lemma {:induction false} FirstLeaf(slots: nat, p: nat, filler: Kv)
    requires 0 < p
    ensures TreeOk(Tree(map[p := LeafRec(LC.Built(slots, [], filler), NULL, NULL)], p, p + 1),
                   Shape(map[p := WHOLE], map[], [p], map[]), slots)
  {
    LC.BuiltValid(slots, [], filler);
    var t := Tree(map[p := LeafRec(LC.Built(slots, [], filler), NULL, NULL)], p, p + 1);
    var sh := Shape(map[p := WHOLE], map[], [p], map[]);
    assert Held(t, p) == [];
    assert LinkOk(t, sh, 0);
  }

  lemma {:induction false} PathInner(t: Tree, sh: Shape, key: int, path: seq<nat>, leaf: nat)
    requires Descends(t, sh, key, path + [leaf])
    ensures forall j :: 0 <= j < |path| ==> path[j] in t.pool && t.pool[path[j]].InnerRec?
  {
    forall j | 0 <= j < |path|
      ensures path[j] in t.pool && t.pool[path[j]].InnerRec?
    {
      assert DescentStep(t, sh, key, path + [leaf], j);
    }
  }

  lemma {:induction false} DescendsTail(t: Tree, sh: Shape, key: int, nodes: seq<nat>, i: nat)
    requires Descends(t, sh, key, nodes) && i < |nodes|
    ensures Descends(t, sh, key, nodes[i..])
  {
    forall j | 0 <= j < |nodes[i..]|
      ensures DescentStep(t, sh, key, nodes[i..], j)
    {
      assert DescentStep(t, sh, key, nodes, i + j);
    }
  }

  ghost predicate PathStep(t: Tree, sh: Shape, key: int, nodes: seq<nat>, top: nat, j: nat)
    requires j + 1 < |nodes|
  {
    var p := nodes[j];
    && p in t.pool && p in sh.box && In(sh.box[p], key) && Level(t.pool[p]) + j == top
    && t.pool[p].InnerRec? && |t.pool[p].kids| == |t.pool[p].keys| + 1
    && Child(t.pool[p], key) == nodes[j + 1]
  }

  /** The leaf at the end of a descent holds the key exactly when the map has it. */
  lemma LeafDecides(t: Tree, sh: Shape, slots: nat, nodes: seq<nat>, key: int)
    requires TreeOk(t, sh, slots) && Descends(t, sh, key, nodes)
    ensures var p := nodes[|nodes| - 1];
            && p in t.pool && t.pool[p].LeafRec? && Valid(t.pool[p].leaf) && p in sh.box && In(sh.box[p], key)
            && Held(t, p) == Contents(t.pool[p].leaf)
            && |t.pool[p].leaf.entries| == slots
            && Covers(sh.content, sh.box[p], Held(t, p))
            && (key in sh.content <==> HasKey(Held(t, p), key))
  {
    assert DescentStep(t, sh, key, nodes, |nodes| - 1);
    var p := nodes[|nodes| - 1];
    assert NodeOk(t, sh, slots, p);
    assert Covers(sh.content, sh.box[p], Held(t, p));
  }

  lemma PresentHasKey(s: seq<Kv>, key: int)
    requires Sorted(s)
    ensures LC.Present(s, key) <==> HasKey(s, key)
  {
  }

  lemma PutInBox(s: seq<Kv>, e: Kv, b: Box)
    requires In(b, e.key) && forall k :: 0 <= k < |s| ==> In(b, s[k].key)
    ensures forall k :: 0 <= k < |LC.Put(s, e)| ==> In(b, LC.Put(s, e)[k].key)
  {
  }

  /** An erase keeps every other key, */
  lemma DelKeeps(s: seq<Kv>, key: int, x: int)
    requires LC.Present(s, key) && HasKey(s, x) && x != key
    ensures HasKey(LC.Del(s, key), x)
  {
    var p, s' := LowerBound(s, key), LC.Del(s, key);
    var k :| 0 <= k < |s| && s[k].key == x;
    if k < p {
      assert s'[k] == s[k];
    } else {
      assert s'[k - 1] == s[p + 1..][k - 1 - p] == s[k];
    }
  }

  /** and leaves nothing but other entries. */
  lemma DelOnly(s: seq<Kv>, key: int, k: nat)
    requires Sorted(s) && LC.Present(s, key) && k < |LC.Del(s, key)|
    ensures LC.Del(s, key)[k] in s && LC.Del(s, key)[k].key != key
  {
    var p := LowerBound(s, key);
    if k >= p {
      assert LC.Del(s, key)[k] == s[p + 1..][k - p] == s[k + 1];
    }
  }

  lemma DelCovers(content: map<int, int>, b: Box, s: seq<Kv>, key: int)
    requires Covers(content, b, s) && Sorted(s) && LC.Present(s, key)
    ensures Covers(content - {key}, b, LC.Del(s, key))
    ensures forall k :: 0 <= k < |LC.Del(s, key)| ==> LC.Del(s, key)[k] in s
  {
    forall x <- content - {key} | In(b, x)
      ensures HasKey(LC.Del(s, key), x)
    {
      DelKeeps(s, key, x);
    }
    forall k | 0 <= k < |LC.Del(s, key)|
      ensures LC.Del(s, key)[k] in s && LC.Del(s, key)[k].key != key
    {
      DelOnly(s, key, k);
    }
  }

  /** Cutting a full leaf in the middle and adding the entry on its side gives two halves
      that together are the leaf with the entry. */
  lemma {:induction false} HalvesOf(s: seq<Kv>, e: Kv, slots: nat)
    requires Sorted(s) && |s| == slots && 2 <= slots && !HasKey(s, e.key)
    ensures var mid := |s| / 2;
            Halved(s, e,
                   if e.key < s[mid].key then LC.Put(s[..mid], e) else s[..mid],
                   if e.key < s[mid].key then s[mid..] else LC.Put(s[mid..], e), slots)
  {
    var mid := |s| / 2;
    LC.PutSorted(s, e);
    if e.key < s[mid].key {
      PutLeft(s, e, mid);
    } else {
      PutRight(s, e, mid);
    }
  }

  lemma {:induction false} PutLeft(s: seq<Kv>, e: Kv, mid: nat)
    requires Sorted(s) && mid < |s| && e.key < s[mid].key && !HasKey(s, e.key)
    ensures LC.Put(s[..mid], e) + s[mid..] == LC.Put(s, e) && |LC.Put(s[..mid], e)| == mid + 1
  {
    var p := LowerBound(s, e.key);
    assert p <= mid;
    LowerBoundIs(s[..mid], e.key, p);
    CutTwice(s, p, mid);
    Regroup(s[..p] + [e], s[..mid][p..], s[mid..]);
  }

  lemma CutTwice<T>(s: seq<T>, p: nat, mid: nat)
    requires p <= mid <= |s|
    ensures s[..mid][..p] == s[..p] && s[..mid][p..] + s[mid..] == s[p..]
  {
  }

  lemma Regroup<T>(a: seq<T>, b: seq<T>, c: seq<T>)
    ensures (a + b) + c == a + (b + c)
  {
  }

  lemma {:induction false} PutRight(s: seq<Kv>, e: Kv, mid: nat)
    requires Sorted(s) && mid < |s| && s[mid].key <= e.key && !HasKey(s, e.key)
    ensures s[..mid] + LC.Put(s[mid..], e) == LC.Put(s, e) && |LC.Put(s[mid..], e)| == |s| - mid + 1
  {
    var p := LowerBound(s, e.key);
    assert p > mid;
    LowerBoundIs(s[mid..], e.key, p - mid);
    assert s[..mid] + (s[mid..][..p - mid] + [e] + s[mid..][p - mid..]) == s[..p] + [e] + s[p..];
  }

  lemma {:induction false} LowerBoundIs(s: seq<Kv>, key: int, p: nat)
    requires Sorted(s) && p <= |s|
    requires 0 < p ==> s[p - 1].key < key
    requires p < |s| ==> key <= s[p].key
    ensures LowerBound(s, key) == p
  {
  }

  lemma {:induction false} EraseOk(t: Tree, sh: Shape, slots: nat, p: nat, key: int)
    requires TreeOk(t, sh, slots) && p in t.pool && t.pool[p].LeafRec? && p in sh.box && In(sh.box[p], key)
    requires Valid(t.pool[p].leaf) && LC.Present(Contents(t.pool[p].leaf), key)
    ensures var l := t.pool[p].leaf;
            TreeOk(SetLeaf(t, p, LC.Erased(l, LowerBound(Contents(l), key))), sh.(content := sh.content - {key}), slots)
  {
    var l := t.pool[p].leaf;
    assert NodeOk(t, sh, slots, p);
    assert Covers(sh.content, sh.box[p], Held(t, p));
    LC.ErasedValid(l, key);
    DelCovers(sh.content, sh.box[p], Contents(l), key);
    DelInBox(Contents(l), key, sh.box[p]);
    SetLeafOk(t, sh, slots, p, LC.Erased(l, LowerBound(Contents(l), key)), key, sh.content - {key});
  }

  lemma {:induction false} DelInBox(s: seq<Kv>, key: int, b: Box)
    requires forall k :: 0 <= k < |s| ==> In(b, s[k].key)
    ensures forall k :: 0 <= k < |LC.Del(s, key)| ==> In(b, LC.Del(s, key)[k].key)
  {
  }

  lemma {:induction false} InsertOk(t: Tree, sh: Shape, slots: nat, p: nat, e: Kv)
    requires TreeOk(t, sh, slots) && p in t.pool && t.pool[p].LeafRec? && p in sh.box && In(sh.box[p], e.key)
    requires Valid(t.pool[p].leaf) && !LC.Present(Contents(t.pool[p].leaf), e.key)
    requires |Contents(t.pool[p].leaf)| < slots
    ensures var l := t.pool[p].leaf;
            l.Size() < |l.entries| && SlotAt(l, l.cid, l.Size()) < |l.entries|
    ensures var l := t.pool[p].leaf;
            TreeOk(SetLeaf(t, p, LC.Inserted(l, LowerBound(Contents(l), e.key), e)),
                   sh.(content := sh.content[e.key := e.val]), slots)
  {
    var l := t.pool[p].leaf;
    var s := Contents(l);
    assert NodeOk(t, sh, slots, p);
    assert Covers(sh.content, sh.box[p], Held(t, p));
    PresentHasKey(s, e.key);
    LC.InsertedValid(l, e);
    PutInBox(s, e, sh.box[p]);
    AllCovered(sh.content, sh.box[p], s, e);
    SetLeafOk(t, sh, slots, p, LC.Inserted(l, LowerBound(s, e.key), e), e.key, sh.content[e.key := e.val]);
  }

  /** Splitting the child of a node for a key: the separator finds it in its parent. */
  lemma {:induction false} InnerSplit(t: Tree, sh: Shape, slots: nat, key: int, parent: nat, src: nat)
    requires TreeOk(t, sh, slots) && 2 <= slots && Heads(t, sh, slots, key, parent)
    requires src == Child(t.pool[parent], key) && src in t.pool && t.pool[src].InnerRec? && |t.pool[src].keys| == slots
    ensures var k := ChildPos(t.pool[parent].keys, key);
            && InnerCase(t, sh, slots, src, parent, k) && ChildPos(t.pool[parent].keys, Middle(t.pool[src])) == k
            && TreeOk(SplitInner(t, src, parent, k), SplitInnerShape(t, sh, src, parent), slots)
            && SplitResult(t, sh, SplitInner(t, src, parent, k), SplitInnerShape(t, sh, src, parent), src, parent, k)
  {
    HeadCanSplit(t, sh, slots, key, parent, src);
    var k := ChildPos(t.pool[parent].keys, key);
    SplitFacts(t, sh, slots, src, parent, k);
    SeparatorPos(sh.box[parent], t.pool[parent].keys, k, Middle(t.pool[src]));
    SplitInnerOk(t, sh, slots, src, parent, k);
    SplitPool(t, sh, slots, src, parent, k);
  }

  /** The two new leaves of a split, chosen as the code does. */
  ghost predicate SplitSides(s: seq<Kv>, e: Kv, left: seq<Kv>, right: seq<Kv>)
    requires 0 < |s|
  {
    var mid := |s| / 2;
    && left == (if e.key < s[mid].key then LC.Put(s[..mid], e) else s[..mid])
    && right == (if e.key < s[mid].key then s[mid..] else LC.Put(s[mid..], e))
  }

  lemma {:induction false} LeafReady(t: Tree, sh: Shape, slots: nat, src: nat, parent: nat, e: Kv, left: seq<Kv>,
                                     right: seq<Kv>)
    returns (i: nat)
    requires TreeOk(t, sh, slots) && 2 <= slots && Heads(t, sh, slots, e.key, parent)
    requires src == Child(t.pool[parent], e.key) && src in t.pool && t.pool[src].LeafRec? && Valid(t.pool[src].leaf)
    requires |Contents(t.pool[src].leaf)| == slots && e.key !in sh.content
    requires SplitSides(Contents(t.pool[src].leaf), e, left, right)
    ensures LeafCase(t, sh, slots, src, parent, ChildPos(t.pool[parent].keys, e.key), i, e, left, right)
  {
    HeadCanSplit(t, sh, slots, e.key, parent, src);
    ChildFacts(t, sh, slots, parent, e.key);
    var s := Contents(t.pool[src].leaf);
    assert Covers(sh.content, sh.box[src], Held(t, src));
    assert !HasKey(s, e.key);
    HalvesOf(s, e, slots);
    i :| 0 <= i < |sh.chain| && sh.chain[i] == src;
  }

  /** The separator finds the leaf in its parent. */
  lemma {:induction false} LeafSplitPos(t: Tree, sh: Shape, slots: nat, src: nat, parent: nat, e: Kv,
                                        left: seq<Kv>, right: seq<Kv>) returns (i: nat)
    requires TreeOk(t, sh, slots) && 2 <= slots && Heads(t, sh, slots, e.key, parent)
    requires src == Child(t.pool[parent], e.key) && src in t.pool && t.pool[src].LeafRec? && Valid(t.pool[src].leaf)
    requires |Contents(t.pool[src].leaf)| == slots && e.key !in sh.content
    requires SplitSides(Contents(t.pool[src].leaf), e, left, right)
    ensures 0 < |left|
    ensures LeafCase(t, sh, slots, src, parent, ChildPos(t.pool[parent].keys, LastKey(left)), i, e, left, right)
  {
    i := LeafReady(t, sh, slots, src, parent, e, left, right);
    var at := ChildPos(t.pool[parent].keys, e.key);
    LeafFacts(t, sh, slots, src, parent, at, i, e, left, right);
    assert NodeOk(t, sh, slots, parent);
    SeparatorPos(sh.box[parent], t.pool[parent].keys, at, LastKey(left));
  }

  /** What the stores of a leaf split may rely on. */
  ghost predicate StepsDefined(t: Tree, slots: nat, src: nat, parent: nat, k: nat, left: seq<Kv>, right: seq<Kv>) {
    && src in t.pool && parent in t.pool && t.pool[src].LeafRec? && t.pool[parent].InnerRec?
    && 0 < |left| <= slots && |right| <= slots && src < t.brk && parent < t.brk && 0 < t.brk
    && k < |t.pool[parent].kids| == |t.pool[parent].keys| + 1 && t.pool[parent].kids[k] == src
    && Neighbour(t, src, t.pool[src].prev) && Neighbour(t, src, t.pool[src].next) && NULL !in t.pool
  }

  lemma {:induction false} LeafStepsDefined(t: Tree, sh: Shape, slots: nat, src: nat, parent: nat, k: nat, i: nat,
                                            e: Kv, left: seq<Kv>, right: seq<Kv>)
    requires LeafCase(t, sh, slots, src, parent, k, i, e, left, right)
    ensures StepsDefined(t, slots, src, parent, k, left, right)
  {
    NeighboursOf(t, sh, slots, src, i);
  }

  /** The stores of a leaf split leave a good tree. */
  lemma {:induction false} LeafStepsOk(t: Tree, sh: Shape, slots: nat, src: nat, parent: nat, k: nat, i: nat,
                                       e: Kv, left: seq<Kv>, right: seq<Kv>, filler: Kv)
    requires LeafCase(t, sh, slots, src, parent, k, i, e, left, right)
    requires StepsDefined(t, slots, src, parent, k, left, right)
    ensures TreeOk(Tree(SplitSteps(t, slots, src, parent, k, left, right, filler), t.root, t.brk + 2),
                   SplitLeafShape(t, sh, src, parent, i, LastKey(left), e), slots)
  {
    SplitLeafOk(t, sh, slots, src, parent, k, i, e, left, right, filler);
    StepsAreSplit(t, slots, src, parent, k, left, right, filler);
    assert Tree(SplitSteps(t, slots, src, parent, k, left, right, filler), t.root, t.brk + 2)
        == SplitLeaf(t, slots, src, parent, k, left, right, filler);
  }

  lemma {:induction false} LeafSplit(t: Tree, sh: Shape, slots: nat, src: nat, parent: nat, e: Kv,
                                     left: seq<Kv>, right: seq<Kv>, filler: Kv) returns (t': Tree, sh': Shape)
    requires TreeOk(t, sh, slots) && 2 <= slots && Heads(t, sh, slots, e.key, parent)
    requires src == Child(t.pool[parent], e.key) && src in t.pool && t.pool[src].LeafRec? && Valid(t.pool[src].leaf)
    requires |Contents(t.pool[src].leaf)| == slots && e.key !in sh.content
    requires SplitSides(Contents(t.pool[src].leaf), e, left, right)
    ensures 0 < |left| && sh'.content == sh.content[e.key := e.val] && TreeOk(t', sh', slots)
    ensures var k := ChildPos(t.pool[parent].keys, LastKey(left));
            && StepsDefined(t, slots, src, parent, k, left, right)
            && t' == Tree(SplitSteps(t, slots, src, parent, k, left, right, filler), t.root, t.brk + 2)
    ensures KeyedBut(t.pool, slots, parent) ==> KeyedBut(t'.pool, slots, NULL)
  {
    var i := LeafSplitPos(t, sh, slots, src, parent, e, left, right);
    var k := ChildPos(t.pool[parent].keys, LastKey(left));
    LeafStepsDefined(t, sh, slots, src, parent, k, i, e, left, right);
    LeafStepsOk(t, sh, slots, src, parent, k, i, e, left, right, filler);
    sh' := SplitLeafShape(t, sh, src, parent, i, LastKey(left), e);
    t' := Tree(SplitSteps(t, slots, src, parent, k, left, right, filler), t.root, t.brk + 2);
    if KeyedBut(t.pool, slots, parent) {
      LeafSplitKeyed(t, slots, src, parent, k, left, right, filler);
    }
  }

  /** The two new leaves hold the old entries and the new one in order, each at least half as
      many as the full leaf. */
  lemma SidesBalanced(s: seq<Kv>, e: Kv, left: seq<Kv>, right: seq<Kv>)
    requires Sorted(s) && 2 <= |s| && !HasKey(s, e.key) && SplitSides(s, e, left, right)
    ensures left + right == LC.Put(s, e) && |s| / 2 <= |left| && |s| / 2 <= |right| && |left| + |right| == |s| + 1
  {
    var mid := |s| / 2;
    if e.key < s[mid].key {
      PutLeft(s, e, mid);
    } else {
      PutRight(s, e, mid);
    }
  }
}
