/** What a well-formed tree says as a whole: the chain spells out the map in key order, and
    all leaves are equally deep. */
module TreeTheorems {
  import opened LeafModel
  import opened TreeModel
  import opened TreeOrder

  ghost function Flat(parts: seq<seq<Kv>>, i: nat): seq<Kv>
    requires i <= |parts|
    decreases |parts| - i
  {
    if i == |parts| then [] else parts[i] + Flat(parts, i + 1)
  }

  /** What the leaves of the chain hold, in chain order. */
  ghost function Parts(t: Tree, chain: seq<nat>): (r: seq<seq<Kv>>)
    ensures |r| == |chain|
  {
    seq(|chain|, i requires 0 <= i < |chain| => Held(t, chain[i]))
  }

  /** What all leaves hold, one leaf after the other. */
  ghost function Spelled(t: Tree, sh: Shape): seq<Kv> {
    Flat(Parts(t, sh.chain), 0)
  }

  lemma {:induction false} FlatMembers(parts: seq<seq<Kv>>, i: nat, e: Kv)
    requires i <= |parts|
    ensures e in Flat(parts, i) <==> exists j :: i <= j < |parts| && e in parts[j]
    decreases |parts| - i
  {
    if i < |parts| {
      FlatMembers(parts, i + 1, e);
    }
  }

  ghost predicate AllIn(s: seq<Kv>, b: Box) {
    Sorted(s) && forall k :: 0 <= k < |s| ==> In(b, s[k].key)
  }

  ghost predicate Above(s: seq<Kv>, lo: Bound) {
    forall k :: 0 <= k < |s| ==> lo.Open? || lo.key < s[k].key
  }

  /** Sorted parts in adjacent boxes make a sorted whole. */
  lemma {:induction false} FlatSorted(parts: seq<seq<Kv>>, bs: seq<Box>, i: nat)
    requires |parts| == |bs| && Adjacent(bs) && i < |parts|
    requires forall j :: 0 <= j < |parts| ==> AllIn(parts[j], bs[j])
    ensures Sorted(Flat(parts, i)) && Above(Flat(parts, i), bs[i].lo)
    decreases |parts| - i
  {
    var head, rest := parts[i], Flat(parts, i + 1);
    assert AllIn(head, bs[i]);
    if i + 1 < |parts| {
      FlatSorted(parts, bs, i + 1);
      assert bs[i + 1].lo == bs[i + 1 - 1].hi;
      assert BoxOk(bs[i]);
    }
    assert Flat(parts, i) == head + rest;
  }

  lemma {:induction false} LeafAllIn(t: Tree, sh: Shape, slots: nat, i: nat)
    requires NodesOk(t, sh, slots) && ChainOk(t, sh) && i < |sh.chain|
    ensures AllIn(Held(t, sh.chain[i]), BoxAt(sh, i))
  {
    assert LinkOk(t, sh, i);
    assert NodeOk(t, sh, slots, sh.chain[i]);
  }

  /** Adjacent boxes that begin and end open leave no key out. */
  lemma {:induction false} BoxesCover(bs: seq<Box>, key: int, n: nat) returns (i: nat)
    requires Adjacent(bs) && 0 < n <= |bs| && bs[0].lo == Open
    requires bs[n - 1].hi.Open? || key <= bs[n - 1].hi.key
    ensures i < |bs| && In(bs[i], key)
    decreases n
  {
    if bs[n - 1].lo.Open? || bs[n - 1].lo.key < key {
      i := n - 1;
    } else {
      assert bs[n - 1].lo == bs[n - 2].hi;
      i := BoxesCover(bs, key, n - 1);
    }
  }

  /** The leaves hold exactly the entries of the map, once each, in increasing key order. */
  lemma {:induction false} ChainSpellsMap(t: Tree, sh: Shape, slots: nat)
    requires TreeOk(t, sh, slots)
    ensures Sorted(Spelled(t, sh))
    ensures forall e: Kv :: e in Spelled(t, sh) <==> e.key in sh.content && sh.content[e.key] == e.val
  {
    var bs := ChainBoxes(t, sh, slots);
    var parts := Parts(t, sh.chain);
    forall j | 0 <= j < |parts|
      ensures AllIn(parts[j], bs[j])
    {
      LeafAllIn(t, sh, slots, j);
    }
    FlatSorted(parts, bs, 0);
    forall e: Kv
      ensures e in Spelled(t, sh) <==> e.key in sh.content && sh.content[e.key] == e.val
    {
      FlatMembers(parts, 0, e);
      if e.key in sh.content && sh.content[e.key] == e.val {
        var i := Stored(t, sh, slots, e);
        assert e in parts[i];
      }
      if e in Spelled(t, sh) {
        var j :| 0 <= j < |parts| && e in parts[j];
        LeafTruthful(t, sh, j, e);
      }
    }
  }

  lemma {:induction false} LeafTruthful(t: Tree, sh: Shape, j: nat, e: Kv)
    requires ChainOk(t, sh) && ContentOk(t, sh) && j < |sh.chain| && e in Held(t, sh.chain[j])
    ensures e.key in sh.content && sh.content[e.key] == e.val
  {
    assert LinkOk(t, sh, j);
    assert Covers(sh.content, sh.box[sh.chain[j]], Held(t, sh.chain[j]));
  }

  lemma {:induction false} Stored(t: Tree, sh: Shape, slots: nat, e: Kv) returns (i: nat)
    requires TreeOk(t, sh, slots) && e.key in sh.content && sh.content[e.key] == e.val
    ensures i < |sh.chain| && e in Held(t, sh.chain[i])
  {
    i := LeafFor(t, sh, slots, e.key);
    var s := Held(t, sh.chain[i]);
    var k :| 0 <= k < |s| && s[k].key == e.key;
    LeafTruthful(t, sh, i, s[k]);
    assert s[k] == e;
  }

  /** Some leaf of the chain is responsible for the key, and holds it if the map does. */
  lemma {:induction false} LeafFor(t: Tree, sh: Shape, slots: nat, key: int) returns (i: nat)
    requires TreeOk(t, sh, slots)
    ensures i < |sh.chain| && sh.chain[i] in sh.box && In(sh.box[sh.chain[i]], key)
    ensures key in sh.content ==> HasKey(Held(t, sh.chain[i]), key)
  {
    var bs := ChainBoxes(t, sh, slots);
    assert LinkOk(t, sh, 0) && LinkOk(t, sh, |sh.chain| - 1);
    i := BoxesCover(bs, key, |bs|);
    assert LinkOk(t, sh, i);
    assert Covers(sh.content, sh.box[sh.chain[i]], Held(t, sh.chain[i]));
  }

  /** A way down: each node is a child of the one before. */
  ghost predicate WayDown(t: Tree, nodes: seq<nat>) {
    && 0 < |nodes|
    && (forall j :: 0 <= j < |nodes| ==> nodes[j] in t.pool)
    && forall j :: 0 <= j < |nodes| - 1 ==> t.pool[nodes[j]].InnerRec? && nodes[j + 1] in t.pool[nodes[j]].kids
  }

  /** Every way down from one node to a leaf has the same length. */
  lemma {:induction false} EqualDepth(t: Tree, sh: Shape, slots: nat, nodes: seq<nat>)
    requires NodesOk(t, sh, slots) && WayDown(t, nodes) && t.pool[nodes[|nodes| - 1]].LeafRec?
    ensures |nodes| == Level(t.pool[nodes[0]]) + 1
    decreases |nodes|
  {
    if |nodes| > 1 {
      var p := nodes[0];
      assert NodeOk(t, sh, slots, p);
      var i :| 0 <= i < |t.pool[p].kids| && t.pool[p].kids[i] == nodes[1];
      assert KidOk(t, sh, p, i);
      var rest := nodes[1..];
      forall j | 0 <= j < |rest| - 1
        ensures t.pool[rest[j]].InnerRec? && rest[j + 1] in t.pool[rest[j]].kids
      {
        assert rest[j] == nodes[j + 1];
      }
      EqualDepth(t, sh, slots, rest);
    }
  }
}
