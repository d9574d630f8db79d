/** While neither heap has more than four elements the two trees, the one that moving up
    follows and the one that moving down follows, do not get in each other's way: then all
    three operations keep the greatest priorities in the top heap. */
module TopKSmall {
  import opened PriorityQueue
  import opened HeapOrder
  import opened TopK

  /** Child order in both heaps, neither of more than four elements. */
  ghost predicate Small(lo: seq<Elem>, hi: seq<Elem>, k: nat) {
    && |lo| <= k <= 4 && |hi| <= 4 && (hi != [] ==> 0 < k == |lo| && hi[0].prio <= lo[0].prio)
    && ChildOrder(MIN_HEAP, lo, 0) && ChildOrder(MAX_HEAP, hi, 0)
  }

  lemma {:induction false} RootOnTop(h: Heap, es: seq<Elem>, j: nat)
    requires ChildOrder(h, es, 0) && j < |es|
    ensures Fits(h, es, j, 0)
    decreases j
  {
    if j > 0 {
      assert Fits(h, es, j, ChildOf(j));
      RootOnTop(h, es, ChildOf(j));
    }
  }

  lemma SmallIsTop(lo: seq<Elem>, hi: seq<Elem>, k: nat)
    requires Small(lo, hi, k)
    ensures TopHeapIsTop(lo, hi)
  {
    forall i, j | 0 <= i < |lo| && 0 <= j < |hi|
      ensures hi[j].prio <= lo[i].prio
    {
      RootOnTop(MIN_HEAP, lo, i);
      RootOnTop(MAX_HEAP, hi, j);
    }
  }

  // ----- moving up among four -----

  /** Child order, but the element at i may belong further up. */
  ghost predicate MayRise(h: Heap, es: seq<Elem>, i: nat) {
    && i < |es| <= 4
    && (1 < |es| && i != 1 ==> Fits(h, es, 1, 0))
    && (2 < |es| && i != 2 ==> Fits(h, es, 2, 0))
    && (3 < |es| && i != 3 ==> Fits(h, es, 3, 1))
    && (3 < |es| && i == 1 ==> Fits(h, es, 3, 0))
  }

  lemma FourInOrder(h: Heap, es: seq<Elem>)
    requires |es| <= 4
    ensures ChildOrder(h, es, 0) <==>
              && (1 < |es| ==> Fits(h, es, 1, 0)) && (2 < |es| ==> Fits(h, es, 2, 0))
              && (3 < |es| ==> Fits(h, es, 3, 1))
  {
    assert ChildOf(1) == 0 && ChildOf(2) == 0 && ChildOf(3) == 1;
  }

  lemma RisesFirst(h: Heap, es: seq<Elem>)
    requires MayRise(h, es, 1)
    ensures ChildOrder(h, Up(h, es, 1), 0)
  {
    assert ParentOf(1) == 0;
    var up := if Above(h, es[1].prio, es[0].prio) then Exchange(es, 1, 0) else es;
    assert Up(h, es, 1) == up;
    FourInOrder(h, up);
  }

  lemma Rises(h: Heap, es: seq<Elem>, i: nat)
    requires MayRise(h, es, i)
    ensures ChildOrder(h, Up(h, es, i), 0)
  {
    if i == 0 {
      FourInOrder(h, es);
    } else if i == 1 {
      RisesFirst(h, es);
    } else {
      assert ParentOf(i) == 1;
      if Above(h, es[i].prio, es[1].prio) {
        RisesFirst(h, Exchange(es, i, 1));
      } else {
        FourInOrder(h, es);
      }
    }
  }

  lemma AppendRises(h: Heap, es: seq<Elem>, e: Elem)
    requires |es| < 4 && ChildOrder(h, es, 0)
    ensures ChildOrder(h, Up(h, es + [e], |es|), 0)
  {
    FourInOrder(h, es);
    Rises(h, es + [e], |es|);
  }

  lemma BetterRises(h: Heap, es: seq<Elem>, i: nat, e: Elem)
    requires i < |es| <= 4 && ChildOrder(h, es, 0) && !Above(h, es[i].prio, e.prio)
    ensures ChildOrder(h, Up(h, es[i := e], i), 0)
  {
    FourInOrder(h, es);
    Rises(h, es[i := e], i);
  }

  // ----- moving down -----

  lemma WorseSinks(h: Heap, es: seq<Elem>, i: nat, e: Elem)
    requires i < |es| && ChildOrder(h, es, 0) && !Above(h, e.prio, es[i].prio)
    ensures ChildOrder(h, Down(h, es[i := e], i), 0)
  {
    var es' := es[i := e];
    forall c | 0 < c < |es|
      ensures ChildOf(c) != i ==> Fits(h, es', c, ChildOf(c))
      ensures ChildOf(c) == i && 0 < i ==> Fits(h, es', c, ChildOf(i))
    {
      assert Fits(h, es, c, ChildOf(c));
      if ChildOf(c) == i && 0 < i {
        assert Fits(h, es, i, ChildOf(i));
      }
    }
    DownOrders(h, es', 0, i);
  }

  lemma InUp(h: Heap, es: seq<Elem>, i: nat, j: nat) returns (x: nat)
    requires i < |es| && j < |es|
    ensures x < |es| && Up(h, es, i)[j] == es[x]
  {
    UpElems(h, es, i);
    assert Up(h, es, i)[j] in multiset(Up(h, es, i));
    assert Up(h, es, i)[j] in es;
    x :| 0 <= x < |es| && es[x] == Up(h, es, i)[j];
  }

  lemma InDown(h: Heap, es: seq<Elem>, i: nat, j: nat) returns (x: nat)
    requires j < |es|
    ensures x < |es| && Down(h, es, i)[j] == es[x]
  {
    DownElems(h, es, i);
    assert Down(h, es, i)[j] in multiset(Down(h, es, i));
    assert Down(h, es, i)[j] in es;
    x :| 0 <= x < |es| && es[x] == Down(h, es, i)[j];
  }

  /** The root may be replaced by anything that belongs above all others. */
  lemma NewRoot(h: Heap, es: seq<Elem>, e: Elem)
    requires es != [] && ChildOrder(h, es, 0) && forall j :: 0 < j < |es| ==> !Above(h, es[j].prio, e.prio)
    ensures ChildOrder(h, es[0 := e], 0)
  {
    forall c | 0 < c < |es|
      ensures Fits(h, es[0 := e], c, ChildOf(c))
    {
      assert Fits(h, es, c, ChildOf(c));
    }
  }

  /** When all but the element at i are on one side of a bound, moving it up leaves all but one
      there, and that one is the root if the root is not. */
  lemma {:induction false} OnlyRootBeyond(h: Heap, es: seq<Elem>, i: nat, bound: nat)
    requires i < |es| && forall j :: 0 <= j < |es| && j != i ==> !Above(h, es[j].prio, bound)
    ensures var r := Up(h, es, i);
            Above(h, r[0].prio, bound) ==> forall j :: 0 < j < |es| ==> !Above(h, r[j].prio, bound)
    decreases i
  {
    if i > 0 && Above(h, es[i].prio, es[ParentOf(i)].prio) {
      OnlyRootBeyond(h, Exchange(es, i, ParentOf(i)), ParentOf(i), bound);
    }
  }

  // ----- the three operations -----

  /** A raised element of the top heap sinks, and the least one does not become less. */
  lemma SinksTop(lo: seq<Elem>, i: nat, e: Elem)
    requires i < |lo| && ChildOrder(MIN_HEAP, lo, 0) && lo[i].prio <= e.prio
    ensures ChildOrder(MIN_HEAP, Down(MIN_HEAP, lo[i := e], i), 0)
    ensures lo[0].prio <= Down(MIN_HEAP, lo[i := e], i)[0].prio
  {
    WorseSinks(MIN_HEAP, lo, i, e);
    var x := InDown(MIN_HEAP, lo[i := e], i, 0);
    RootOnTop(MIN_HEAP, lo, x);
    RootOnTop(MIN_HEAP, lo, i);
  }

  /** A lowered element of the overflow heap sinks, and the greatest one does not become greater. */
  lemma SinksOverflow(hi: seq<Elem>, i: nat, e: Elem)
    requires i < |hi| && ChildOrder(MAX_HEAP, hi, 0) && e.prio <= hi[i].prio
    ensures ChildOrder(MAX_HEAP, Down(MAX_HEAP, hi[i := e], i), 0)
    ensures Down(MAX_HEAP, hi[i := e], i)[0].prio <= hi[0].prio
  {
    WorseSinks(MAX_HEAP, hi, i, e);
    var x := InDown(MAX_HEAP, hi[i := e], i, 0);
    RootOnTop(MAX_HEAP, hi, x);
    RootOnTop(MAX_HEAP, hi, i);
  }

  lemma AppendsOverflow(hi: seq<Elem>, e: Elem, bound: nat)
    requires |hi| < 4 && ChildOrder(MAX_HEAP, hi, 0) && e.prio <= bound && (hi != [] ==> hi[0].prio <= bound)
    ensures ChildOrder(MAX_HEAP, Up(MAX_HEAP, hi + [e], |hi|), 0)
    ensures Up(MAX_HEAP, hi + [e], |hi|)[0].prio <= bound
  {
    AppendRises(MAX_HEAP, hi, e);
    var x := InUp(MAX_HEAP, hi + [e], |hi|, 0);
    if x < |hi| {
      RootOnTop(MAX_HEAP, hi, x);
    }
  }

  lemma InsertSmall(lo: seq<Elem>, hi: seq<Elem>, k: nat, e: Elem)
    requires Small(lo, hi, k) && 0 < k && (|lo| < k || |hi| < 4)
    ensures Small(Inserted(lo, hi, k, e).0, Inserted(lo, hi, k, e).1, k)
  {
    if |lo| < k {
      AppendRises(MIN_HEAP, lo, e);
    } else if lo[0].prio > e.prio {
      AppendsOverflow(hi, e, lo[0].prio);
    } else {
      SinksTop(lo, 0, e);
      AppendsOverflow(hi, lo[0], lo[0].prio);
    }
  }

  lemma RaiseSmall(lo: seq<Elem>, hi: seq<Elem>, k: nat, i: nat, prio: nat)
    requires Small(lo, hi, k) && i < |hi| && hi[i].prio <= prio
    ensures Small(Raised(lo, hi, k, k + i, prio).0, Raised(lo, hi, k, k + i, prio).1, k)
  {
    var es := Bump(hi, i, prio);
    var up := Up(MAX_HEAP, es, i);
    BetterRises(MAX_HEAP, hi, i, Elem(hi[i].key, prio));
    forall j | 0 <= j < |hi| && j != i
      ensures !Above(MAX_HEAP, es[j].prio, lo[0].prio)
    {
      RootOnTop(MAX_HEAP, hi, j);
    }
    OnlyRootBeyond(MAX_HEAP, es, i, lo[0].prio);
    if up[0].prio > lo[0].prio {
      NewRoot(MAX_HEAP, up, lo[0]);
      SinksTop(lo, 0, up[0]);
    }
  }

  lemma LowerSmall(lo: seq<Elem>, hi: seq<Elem>, k: nat, g: nat, prio: nat)
    requires Small(lo, hi, k) && g < |lo| && hi != [] && prio <= lo[g].prio
    ensures Small(Lowered(lo, hi, k, g, prio).0, Lowered(lo, hi, k, g, prio).1, k)
  {
    var es := Bump(lo, g, prio);
    var up := Up(MIN_HEAP, es, g);
    BetterRises(MIN_HEAP, lo, g, Elem(lo[g].key, prio));
    forall j | 0 <= j < |lo| && j != g
      ensures !Above(MIN_HEAP, es[j].prio, hi[0].prio)
    {
      RootOnTop(MIN_HEAP, lo, j);
    }
    OnlyRootBeyond(MIN_HEAP, es, g, hi[0].prio);
    if up[0].prio < hi[0].prio {
      NewRoot(MIN_HEAP, up, hi[0]);
      SinksOverflow(hi, 0, up[0]);
    }
  }

  // ----- who is in the top heap -----

  ghost predicate Among(lo: seq<Elem>, key: nat) {
    exists i :: 0 <= i < |lo| && lo[i].key == key
  }

  lemma AmongUp(h: Heap, es: seq<Elem>, i: nat, key: nat)
    requires i < |es|
    ensures Among(Up(h, es, i), key) <==> Among(es, key)
  {
    UpElems(h, es, i);
    SameElems(es, Up(h, es, i), key);
  }

  lemma AmongDown(h: Heap, es: seq<Elem>, i: nat, key: nat)
    ensures Among(Down(h, es, i), key) <==> Among(es, key)
  {
    DownElems(h, es, i);
    SameElems(es, Down(h, es, i), key);
  }

  lemma SameElems(a: seq<Elem>, b: seq<Elem>, key: nat)
    requires multiset(a) == multiset(b)
    ensures Among(a, key) <==> Among(b, key)
  {
    if Among(a, key) {
      var i :| 0 <= i < |a| && a[i].key == key;
      assert a[i] in multiset(b);
    }
    if Among(b, key) {
      var i :| 0 <= i < |b| && b[i].key == key;
      assert b[i] in multiset(a);
    }
  }

  /** A newcomer enters the top heap exactly when there is room or it is not less than the
      least one there. */
  lemma NewcomerPlaced(lo: seq<Elem>, hi: seq<Elem>, k: nat, e: Elem)
    requires (|lo| < k || lo != []) && !Among(lo, e.key)
    ensures Among(Inserted(lo, hi, k, e).0, e.key) <==> |lo| < k || lo[0].prio <= e.prio
  {
    if |lo| < k {
      assert (lo + [e])[|lo|].key == e.key;
      AmongUp(MIN_HEAP, lo + [e], |lo|, e.key);
    } else if lo[0].prio <= e.prio {
      assert lo[0 := e][0].key == e.key;
      AmongDown(MIN_HEAP, lo[0 := e], 0, e.key);
    }
  }

  /** An element of the overflow heap whose priority is raised enters the top heap exactly when
      it is then greater than the least one there. */
  lemma RaisedPlaced(lo: seq<Elem>, hi: seq<Elem>, k: nat, i: nat, prio: nat)
    requires Small(lo, hi, k) && i < |hi| && hi[i].prio <= prio && !Among(lo, hi[i].key)
    ensures Among(Raised(lo, hi, k, k + i, prio).0, hi[i].key) <==> lo[0].prio < prio
  {
    var es, key := Bump(hi, i, prio), hi[i].key;
    var up := Up(MAX_HEAP, es, i);
    BetterRises(MAX_HEAP, hi, i, Elem(key, prio));
    var x := InUp(MAX_HEAP, es, i, 0);
    if x != i {
      RootOnTop(MAX_HEAP, hi, x);
    }
    var y := StillIn(MAX_HEAP, es, i, i);
    RootOnTop(MAX_HEAP, up, y);
    if up[0].prio > lo[0].prio {
      assert up[0] == es[x] && x == i;
      assert lo[0 := up[0]][0].key == key;
      AmongDown(MIN_HEAP, lo[0 := up[0]], 0, key);
    }
  }

  lemma StillIn(h: Heap, es: seq<Elem>, i: nat, j: nat) returns (y: nat)
    requires i < |es| && j < |es|
    ensures y < |es| && Up(h, es, i)[y] == es[j]
  {
    UpElems(h, es, i);
    assert es[j] in multiset(es);
    assert es[j] in Up(h, es, i);
    y :| 0 <= y < |es| && Up(h, es, i)[y] == es[j];
  }

  /** An element of the top heap whose priority is lowered goes to the overflow heap exactly when
      it is then less than the greatest one there. */
  lemma LoweredPlaced(lo: seq<Elem>, hi: seq<Elem>, k: nat, g: nat, prio: nat)
    requires Small(lo, hi, k) && g < |lo| && hi != [] && prio <= lo[g].prio && !Among(hi, lo[g].key)
    ensures Among(Lowered(lo, hi, k, g, prio).1, lo[g].key) <==> prio < hi[0].prio
  {
    var es, key := Bump(lo, g, prio), lo[g].key;
    var up := Up(MIN_HEAP, es, g);
    BetterRises(MIN_HEAP, lo, g, Elem(key, prio));
    var x := InUp(MIN_HEAP, es, g, 0);
    if x != g {
      RootOnTop(MIN_HEAP, lo, x);
    }
    var y := StillIn(MIN_HEAP, es, g, g);
    RootOnTop(MIN_HEAP, up, y);
    if up[0].prio < hi[0].prio {
      assert up[0] == es[x] && x == g;
      assert hi[0 := up[0]][0].key == key;
      AmongDown(MAX_HEAP, hi[0 := up[0]], 0, key);
    }
  }

  lemma StepSmall(lo: seq<Elem>, hi: seq<Elem>, k: nat, op: Op)
    requires Small(lo, hi, k) && Proper(lo, hi, k, op) && |After(lo, hi, k, op).1| <= 4
    ensures Small(After(lo, hi, k, op).0, After(lo, hi, k, op).1, k)
  {
    match op
    case Insert(e) => InsertSmall(lo, hi, k, e);
    case Raise(g, prio) =>
      if g < k {
        SinksTop(lo, g, Elem(lo[g].key, prio));
      } else {
        RaiseSmall(lo, hi, k, g - k, prio);
      }
    case Lower(g, prio) =>
      if g < k {
        LowerSmall(lo, hi, k, g, prio);
      } else {
        SinksOverflow(hi, g - k, Elem(hi[g - k].key, prio));
      }
  }

  lemma {:induction false} RunSmall(k: nat, los: seq<seq<Elem>>, his: seq<seq<Elem>>, ops: seq<Op>, i: nat)
    requires IsRun(k, true, los, his, ops) && i < |los| && k <= 4 && forall x :: 0 <= x <= i ==> |his[x]| <= 4
    ensures Small(los[i], his[i], k)
  {
    if i > 0 {
      RunSmall(k, los, his, ops, i - 1);
      assert StepTo(k, los[i - 1], his[i - 1], ops[i - 1], los[i], his[i]);
      StepSmall(los[i - 1], his[i - 1], k, ops[i - 1]);
    }
  }

  /** With at most four places in the top heap and never more than four elements beyond them,
      the top heap holds the greatest priorities at every moment of every run, whatever is
      inserted, raised and lowered. */
  lemma FewElementsHold(k: nat, los: seq<seq<Elem>>, his: seq<seq<Elem>>, ops: seq<Op>, i: nat)
    requires IsRun(k, true, los, his, ops) && i < |los| && k <= 4 && forall x :: 0 <= x <= i ==> |his[x]| <= 4
    ensures TopHeapIsTop(los[i], his[i])
  {
    RunSmall(k, los, his, ops, i);
    SmallIsTop(los[i], his[i], k);
  }
}
