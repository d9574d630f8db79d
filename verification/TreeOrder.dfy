/** The boxes of a well-formed tree: children's boxes, and the order of the leaves' boxes
    along the chain. */
module TreeOrder {
  import opened TreeModel

  lemma ChildInBox(b: Box, keys: seq<int>, key: int)
    requires SortedKeys(keys) && In(b, key)
    ensures In(KidBox(b, keys, ChildPos(keys, key)), key)
  {
  }

  /** Adjacent boxes: each begins where the one before ends. */
  ghost predicate Adjacent(bs: seq<Box>) {
    && (forall i :: 0 <= i < |bs| ==> BoxOk(bs[i]))
    && (forall i :: 0 < i < |bs| ==> bs[i].lo.At? && bs[i].lo == bs[i - 1].hi)
  }

  lemma {:induction false} AdjacentOrder(bs: seq<Box>, i: nat, j: nat)
    requires Adjacent(bs) && i < j < |bs|
    ensures bs[i].hi.At? && bs[j].lo.At? && bs[i].hi.key <= bs[j].lo.key
    decreases j - i
  {
    assert bs[j].lo.At? && bs[j].lo == bs[j - 1].hi;
    if i + 1 < j {
      AdjacentOrder(bs, i, j - 1);
    }
  }

  lemma LinkBox(t: Tree, sh: Shape, slots: nat, i: nat)
    requires NodesOk(t, sh, slots) && ChainOk(t, sh) && i < |sh.chain|
    ensures sh.chain[i] in sh.box && BoxOk(sh.box[sh.chain[i]])
    ensures 0 < i ==> sh.chain[i - 1] in sh.box && sh.box[sh.chain[i]].lo.At?
                      && sh.box[sh.chain[i]].lo == sh.box[sh.chain[i - 1]].hi
  {
    assert LinkOk(t, sh, i);
    assert NodeOk(t, sh, slots, sh.chain[i]);
    if 0 < i {
      assert LinkOk(t, sh, i - 1);
    }
  }

  ghost function BoxAt(sh: Shape, i: nat): Box {
    if i < |sh.chain| && sh.chain[i] in sh.box then sh.box[sh.chain[i]] else WHOLE
  }

  lemma ChainBoxes(t: Tree, sh: Shape, slots: nat) returns (bs: seq<Box>)
    requires NodesOk(t, sh, slots) && ChainOk(t, sh)
    ensures |bs| == |sh.chain| && Adjacent(bs)
    ensures forall i :: 0 <= i < |bs| ==> bs[i] == BoxAt(sh, i)
  {
    bs := seq(|sh.chain|, i requires 0 <= i < |sh.chain| => BoxAt(sh, i));
    forall i | 0 <= i < |bs|
      ensures BoxOk(bs[i])
    {
      LinkBox(t, sh, slots, i);
    }
    forall i | 0 < i < |bs|
      ensures bs[i].lo.At? && bs[i].lo == bs[i - 1].hi
    {
      LinkBox(t, sh, slots, i);
    }
  }

  /** Boxes along the chain are disjoint and increasing. */
  lemma ChainOrder(t: Tree, sh: Shape, slots: nat, i: nat, j: nat)
    requires NodesOk(t, sh, slots) && ChainOk(t, sh) && i < j < |sh.chain|
    ensures sh.chain[i] in sh.box && sh.chain[j] in sh.box
    ensures sh.box[sh.chain[i]].hi.At? && sh.box[sh.chain[j]].lo.At?
    ensures sh.box[sh.chain[i]].hi.key <= sh.box[sh.chain[j]].lo.key
  {
    var bs := ChainBoxes(t, sh, slots);
    AdjacentOrder(bs, i, j);
    LinkBox(t, sh, slots, i);
    LinkBox(t, sh, slots, j);
  }

  lemma OneLeaf(t: Tree, sh: Shape, slots: nat, i: nat, j: nat, key: int)
    requires NodesOk(t, sh, slots) && ChainOk(t, sh) && i < |sh.chain| && j < |sh.chain|
    requires sh.chain[i] in sh.box && sh.chain[j] in sh.box
    requires In(sh.box[sh.chain[i]], key) && In(sh.box[sh.chain[j]], key)
    ensures i == j
  {
    if i < j {
      ChainOrder(t, sh, slots, i, j);
    } else if j < i {
      ChainOrder(t, sh, slots, j, i);
    }
  }
}
