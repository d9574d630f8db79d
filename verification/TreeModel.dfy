/** The persistent B+ tree: a pool of nodes addressed by persistent pointers, and what it
    means for the nodes to form a search tree. Every node has a box, the interval of keys
    it is responsible for (above `lo`, up to and including `hi`); a separator is the
    largest key of its left side. All conditions are local to a node and its children, or
    to a leaf and its neighbours in the chain. */
module TreeModel {
  import opened LeafModel

  datatype Node =
    | LeafRec(leaf: Leaf, prev: nat, next: nat)
    | InnerRec(level: nat, keys: seq<int>, kids: seq<nat>)

  const NULL: nat := 0

  datatype Bound = Open | At(key: int)

  datatype Box = Box(lo: Bound, hi: Bound)

  const WHOLE := Box(Open, Open)

  ghost predicate In(b: Box, key: int) {
    (b.lo.Open? || b.lo.key < key) && (b.hi.Open? || key <= b.hi.key)
  }

  ghost predicate Strictly(b: Box, key: int) {
    (b.lo.Open? || b.lo.key < key) && (b.hi.Open? || key < b.hi.key)
  }

  ghost predicate BoxOk(b: Box) {
    b.lo.Open? || b.hi.Open? || b.lo.key < b.hi.key
  }

  /** `pool` is the persistent heap, `brk` the next unused address. */
  datatype Tree = Tree(pool: map<nat, Node>, root: nat, brk: nat)

  /** What the proof knows about each node: its box, its parent; the leaves in order; and
      the map the tree stands for. */
  datatype Shape = Shape(box: map<nat, Box>, up: map<nat, nat>, chain: seq<nat>, content: map<int, int>)

  function Level(n: Node): nat {
    if n.LeafRec? then 0 else n.level
  }

  ghost predicate SortedKeys(keys: seq<int>) {
    forall i, j :: 0 <= i < j < |keys| ==> keys[i] < keys[j]
  }

  /** std::lower_bound over separators: the position of the child for a key. */
  function ChildPos(keys: seq<int>, key: int): (p: nat)
    ensures p <= |keys|
    ensures forall i :: 0 <= i < p ==> keys[i] < key
    ensures p < |keys| ==> key <= keys[p]
    decreases |keys|
  {
    if keys == [] || key <= keys[0] then 0
    else
      var q := ChildPos(keys[1..], key);
      assert forall i :: 0 < i < q + 1 ==> keys[i] == keys[1..][i - 1];
      q + 1
  }

  ghost function KidBox(b: Box, keys: seq<int>, i: nat): Box
    requires i <= |keys|
  {
    Box(if i == 0 then b.lo else At(keys[i - 1]), if i == |keys| then b.hi else At(keys[i]))
  }

  // ----- well-formed trees -----

  ghost predicate LeafOk(n: Node, b: Box, slots: nat)
    requires n.LeafRec?
  {
    && Valid(n.leaf) && |n.leaf.entries| == slots
    && forall k :: 0 <= k < |Contents(n.leaf)| ==> In(b, Contents(n.leaf)[k].key)
  }

  ghost predicate InnerOk(n: Node, b: Box, slots: nat)
    requires n.InnerRec?
  {
    && 0 < n.level && |n.kids| == |n.keys| + 1 && |n.keys| <= slots
    && SortedKeys(n.keys)
    && forall i :: 0 <= i < |n.keys| ==> Strictly(b, n.keys[i])
  }

  /** Child i of inner node p: below p, one level down, with the box between its
      separators, and with p as its only parent. */
  ghost predicate KidOk(t: Tree, sh: Shape, p: nat, i: nat)
    requires p in t.pool && t.pool[p].InnerRec? && p in sh.box
    requires i < |t.pool[p].kids| == |t.pool[p].keys| + 1
  {
    var n, c := t.pool[p], t.pool[p].kids[i];
    && c in t.pool && c in sh.box && c in sh.up
    && Level(t.pool[c]) + 1 == n.level
    && sh.box[c] == KidBox(sh.box[p], n.keys, i)
    && sh.up[c] == p
  }

  ghost predicate NodeOk(t: Tree, sh: Shape, slots: nat, p: nat)
    requires p in t.pool && p in sh.box
  {
    var n := t.pool[p];
    && BoxOk(sh.box[p])
    && (n.LeafRec? ==> LeafOk(n, sh.box[p], slots))
    && (n.InnerRec? ==>
          InnerOk(n, sh.box[p], slots)
          && forall i {:trigger KidOk(t, sh, p, i)} :: 0 <= i < |n.kids| ==> KidOk(t, sh, p, i))
  }

  /** The root has no parent; every other node hangs below its parent. */
  ghost predicate Attached(t: Tree, sh: Shape, p: nat) {
    if p == t.root then p !in sh.up
    else p in sh.up && sh.up[p] in t.pool && t.pool[sh.up[p]].InnerRec? && p in t.pool[sh.up[p]].kids
  }

  ghost predicate NodesOk(t: Tree, sh: Shape, slots: nat) {
    && sh.box.Keys == t.pool.Keys
    && t.root in t.pool && sh.box[t.root] == WHOLE
    && (forall p <- t.pool :: 0 < p < t.brk)
    && (forall p <- sh.up :: p < t.brk)
    && (forall p {:trigger NodeOk(t, sh, slots, p)} :: p in t.pool ==> NodeOk(t, sh, slots, p))
    && (forall p {:trigger Attached(t, sh, p)} :: p in t.pool ==> Attached(t, sh, p))
  }

  /** Position i of the chain: a leaf, linked to its neighbours, whose box begins where
      the previous one ends. */
  ghost predicate LinkOk(t: Tree, sh: Shape, i: nat)
    requires i < |sh.chain|
  {
    var p, last := sh.chain[i], |sh.chain| - 1;
    && p in t.pool && t.pool[p].LeafRec? && p in sh.box
    && t.pool[p].prev == (if i == 0 then NULL else sh.chain[i - 1])
    && t.pool[p].next == (if i == last then NULL else sh.chain[i + 1])
    && (i == 0 ==> sh.box[p].lo == Open)
    && (i == last ==> sh.box[p].hi == Open)
    && (i < last ==> sh.chain[i + 1] in sh.box && sh.box[p].hi == sh.box[sh.chain[i + 1]].lo && sh.box[p].hi.At?)
  }

  /** The prev/next chain lists exactly the leaves of the pool, each once, in key order. */
  ghost predicate ChainOk(t: Tree, sh: Shape) {
    && 0 < |sh.chain|
    && (forall i {:trigger LinkOk(t, sh, i)} :: 0 <= i < |sh.chain| ==> LinkOk(t, sh, i))
    && (forall i, j :: 0 <= i < j < |sh.chain| ==> sh.chain[i] != sh.chain[j])
    && (forall p <- t.pool :: t.pool[p].LeafRec? ==> p in sh.chain)
  }

  ghost function Held(t: Tree, p: nat): seq<Kv> {
    if p in t.pool && t.pool[p].LeafRec? && Valid(t.pool[p].leaf) then Contents(t.pool[p].leaf) else []
  }

  ghost predicate HasKey(s: seq<Kv>, key: int) {
    exists k :: 0 <= k < |s| && s[k].key == key
  }

  /** Within a box, the entries s are exactly those of the map. */
  ghost predicate Covers(content: map<int, int>, b: Box, s: seq<Kv>) {
    && (forall k :: 0 <= k < |s| ==> s[k].key in content && content[s[k].key] == s[k].val)
    && (forall key <- content :: In(b, key) ==> HasKey(s, key))
  }

  /** Every leaf holds exactly the part of the map that falls into its box. */
  ghost predicate ContentOk(t: Tree, sh: Shape) {
    forall p {:trigger Covers(sh.content, sh.box[p], Held(t, p))} ::
      p in t.pool && t.pool[p].LeafRec? && p in sh.box ==> Covers(sh.content, sh.box[p], Held(t, p))
  }

  ghost predicate TreeOk(t: Tree, sh: Shape, slots: nat) {
    NodesOk(t, sh, slots) && ChainOk(t, sh) && ContentOk(t, sh)
  }
}
