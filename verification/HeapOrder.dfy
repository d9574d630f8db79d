/** Which order the two ways of moving an element keep. Moving up compares with the
    element at half the index; moving down compares with those at 2i + 1 and 2i + 2.
    Each keeps the order of its own tree, and the two trees are not the same. */
module HeapOrder {
  import opened PriorityQueue

  predicate Fits(h: Heap, es: seq<Elem>, j: nat, p: nat)
    requires j < |es| && p < |es|
  {
    !Above(h, es[j].prio, es[p].prio)
  }

  /** No element belongs above the one at half its index. */
  ghost predicate HalfOrder(h: Heap, es: seq<Elem>) {
    forall j {:trigger ParentOf(j)} :: 0 < j < |es| ==> Fits(h, es, j, ParentOf(j))
  }

  /** The same but for the element at i, whose successors also fit above i. */
  ghost predicate HalfOrderBut(h: Heap, es: seq<Elem>, i: nat)
    requires i < |es|
  {
    forall j {:trigger ParentOf(j)} :: 0 < j < |es| && j != i ==>
      && Fits(h, es, j, ParentOf(j))
      && (ParentOf(j) == i ==> Fits(h, es, j, ParentOf(i)))
  }

  lemma {:induction false} UpOrders(h: Heap, es: seq<Elem>, i: nat)
    requires i < |es| && HalfOrderBut(h, es, i)
    ensures HalfOrder(h, Up(h, es, i))
    decreases i
  {
    var p := ParentOf(i);
    if i > 0 && Above(h, es[i].prio, es[p].prio) {
      var es' := Exchange(es, i, p);
      forall j | 0 < j < |es'| && j != p
        ensures Fits(h, es', j, ParentOf(j))
        ensures ParentOf(j) == p ==> Fits(h, es', j, ParentOf(p))
      {
        assert p > 0 ==> Fits(h, es, p, ParentOf(p));
        assert j != i ==> Fits(h, es, j, ParentOf(j));
      }
      UpOrders(h, es', p);
    }
  }

  /** Appending an element and moving it up keeps the order. */
  lemma AppendOrders(h: Heap, es: seq<Elem>, e: Elem)
    requires HalfOrder(h, es)
    ensures HalfOrder(h, Up(h, es + [e], |es|))
  {
    forall j | 0 < j < |es|
      ensures Fits(h, es + [e], j, ParentOf(j)) && ParentOf(j) != |es|
    {
      assert Fits(h, es, j, ParentOf(j));
    }
    UpOrders(h, es + [e], |es|);
  }

  /** In this order the root is the extreme element. */
  lemma {:induction false} RootExtreme(h: Heap, es: seq<Elem>, j: nat)
    requires HalfOrder(h, es) && j < |es|
    ensures Fits(h, es, j, 0)
    decreases j
  {
    if j > 0 {
      assert Fits(h, es, j, ParentOf(j));
      RootExtreme(h, es, ParentOf(j));
    }
  }

  /** The index whose children 2i + 1 and 2i + 2 include c. */
  function ChildOf(c: nat): nat
    requires 0 < c
  {
    (c - 1) / 2
  }

  /** No element belongs above the one it is a child of, from a given index on. */
  ghost predicate ChildOrder(h: Heap, es: seq<Elem>, from: nat) {
    forall c {:trigger ChildOf(c)} :: 0 < c < |es| && from <= ChildOf(c) ==> Fits(h, es, c, ChildOf(c))
  }

  /** The same but for the element at i, whose children also fit below i's own parent. */
  ghost predicate ChildOrderBut(h: Heap, es: seq<Elem>, from: nat, i: nat)
    requires i < |es|
  {
    forall c {:trigger ChildOf(c)} :: 0 < c < |es| && from <= ChildOf(c) ==>
      && (ChildOf(c) != i ==> Fits(h, es, c, ChildOf(c)))
      && (ChildOf(c) == i && 0 < i && from <= ChildOf(i) ==> Fits(h, es, c, ChildOf(i)))
  }

  /** The one on top belongs below none of the three. */
  lemma TopFits(h: Heap, es: seq<Elem>, i: nat, c: nat)
    requires i < |es| && 0 < c < |es| && ChildOf(c) == i
    ensures Fits(h, es, c, Top(h, es, i)) && Fits(h, es, i, Top(h, es, i))
    ensures Top(h, es, i) != i ==> ChildOf(Top(h, es, i)) == i && Above(h, es[Top(h, es, i)].prio, es[i].prio)
  {
    assert c == 2 * i + 1 || c == 2 * i + 2;
  }

  lemma {:induction false} DownOrders(h: Heap, es: seq<Elem>, from: nat, i: nat)
    requires from <= i < |es| && ChildOrderBut(h, es, from, i)
    ensures ChildOrder(h, Down(h, es, i), from)
    decreases |es| - i
  {
    var top := Top(h, es, i);
    if top == i {
      forall c | 0 < c < |es| && from <= ChildOf(c)
        ensures Fits(h, es, c, ChildOf(c))
      {
        if ChildOf(c) == i {
          TopFits(h, es, i, c);
        }
      }
    } else {
      var es' := Exchange(es, top, i);
      forall c | 0 < c < |es| && from <= ChildOf(c)
        ensures ChildOf(c) != top ==> Fits(h, es', c, ChildOf(c))
        ensures ChildOf(c) == top && from <= ChildOf(top) ==> Fits(h, es', c, ChildOf(top))
      {
        DownStep(h, es, from, i, c);
      }
      DownOrders(h, es', from, top);
    }
  }

  lemma DownStep(h: Heap, es: seq<Elem>, from: nat, i: nat, c: nat)
    requires from <= i < |es| && ChildOrderBut(h, es, from, i) && Top(h, es, i) != i
    requires 0 < c < |es| && from <= ChildOf(c)
    ensures var top := Top(h, es, i);
            && (ChildOf(c) != top ==> Fits(h, Exchange(es, top, i), c, ChildOf(c)))
            && (ChildOf(c) == top && from <= ChildOf(top) ==> Fits(h, Exchange(es, top, i), c, ChildOf(top)))
  {
    var top := Top(h, es, i);
    assert top == 2 * i + 1 || top == 2 * i + 2;
    TopFits(h, es, i, top);
    if ChildOf(c) == i {
      TopFits(h, es, i, c);
    }
  }
}
