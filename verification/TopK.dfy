/** The promise of the two heaps: the top heap holds the greatest priorities. Insertions and
    raises keep it as long as the top heap has at most four places, and break it with
    eight. Lowering a priority breaks it with any number of places (TopKLower). */
module TopK {
  import opened PriorityQueue
  import opened HeapOrder

  /** The order the queue lives by. */
  ghost predicate Ordered(lo: seq<Elem>, hi: seq<Elem>, k: nat) {
    && |lo| <= k && (hi != [] ==> 0 < k == |lo| && hi[0].prio <= lo[0].prio)
    && ChildOrder(MIN_HEAP, lo, 0)
    && HalfOrder(MAX_HEAP, hi)
  }

  /** No overflow element has a greater priority than a top element. */
  ghost predicate TopHeapIsTop(lo: seq<Elem>, hi: seq<Elem>) {
    forall i, j {:trigger lo[i], hi[j]} :: 0 <= i < |lo| && 0 <= j < |hi| ==> hi[j].prio <= lo[i].prio
  }

  lemma {:induction false} RootLeast(es: seq<Elem>, j: nat)
    requires ChildOrder(MIN_HEAP, es, 0) && j < |es|
    ensures es[0].prio <= es[j].prio
    decreases j
  {
    if j > 0 {
      assert Fits(MIN_HEAP, es, j, ChildOf(j));
      RootLeast(es, ChildOf(j));
    }
  }

  lemma OrderedIsTop(lo: seq<Elem>, hi: seq<Elem>, k: nat)
    requires Ordered(lo, hi, k)
    ensures TopHeapIsTop(lo, hi)
  {
    forall i, j | 0 <= i < |lo| && 0 <= j < |hi|
      ensures hi[j].prio <= lo[i].prio
    {
      RootLeast(lo, i);
      RootExtreme(MAX_HEAP, hi, j);
    }
  }

  // ----- moving down from a raised element of the top heap -----

  lemma RaisedDown(es: seq<Elem>, i: nat, e: Elem)
    requires i < |es| && ChildOrder(MIN_HEAP, es, 0) && es[i].prio <= e.prio
    ensures ChildOrder(MIN_HEAP, Down(MIN_HEAP, es[i := e], i), 0)
  {
    var es' := es[i := e];
    forall c | 0 < c < |es|
      ensures ChildOf(c) != i ==> Fits(MIN_HEAP, es', c, ChildOf(c))
      ensures ChildOf(c) == i && 0 < i ==> Fits(MIN_HEAP, es', c, ChildOf(i))
    {
      assert Fits(MIN_HEAP, es, c, ChildOf(c));
      if ChildOf(c) == i && 0 < i {
        assert Fits(MIN_HEAP, es, i, ChildOf(i));
      }
    }
    DownOrders(MIN_HEAP, es', 0, i);
  }

  /** The least priority of the new heap is one of the old ones or the new one. */
  lemma DownRoot(es: seq<Elem>, i: nat, e: Elem)
    requires i < |es| && ChildOrder(MIN_HEAP, es, 0) && es[i].prio <= e.prio
    ensures es[0].prio <= Down(MIN_HEAP, es[i := e], i)[0].prio
  {
    var down := Down(MIN_HEAP, es[i := e], i);
    DownElems(MIN_HEAP, es[i := e], i);
    assert down[0] in multiset(es[i := e]);
    assert down[0] in es[i := e];
    var j :| 0 <= j < |es| && es[i := e][j] == down[0];
    RootLeast(es, i);
    RootLeast(es, j);
  }

  // ----- moving up in the overflow heap -----

  lemma RaisedUp(es: seq<Elem>, i: nat, e: Elem)
    requires i < |es| && HalfOrder(MAX_HEAP, es) && es[i].prio <= e.prio
    ensures HalfOrder(MAX_HEAP, Up(MAX_HEAP, es[i := e], i))
  {
    var es' := es[i := e];
    forall j | 0 < j < |es| && j != i
      ensures Fits(MAX_HEAP, es', j, ParentOf(j))
      ensures ParentOf(j) == i ==> Fits(MAX_HEAP, es', j, ParentOf(i))
    {
      assert Fits(MAX_HEAP, es, j, ParentOf(j));
      if 0 < i {
        assert Fits(MAX_HEAP, es, i, ParentOf(i));
      }
    }
    UpOrders(MAX_HEAP, es', i);
  }

  /** When all but the element at i are within a bound, moving it up leaves all but one
      within it, and that one is the root if the root is not. */
  lemma {:induction false} UpBound(es: seq<Elem>, i: nat, bound: nat)
    requires i < |es| && forall j :: 0 <= j < |es| && j != i ==> es[j].prio <= bound
    ensures var r := Up(MAX_HEAP, es, i);
            r[0].prio > bound ==> forall j :: 0 < j < |es| ==> r[j].prio <= bound
    decreases i
  {
    if i > 0 && Above(MAX_HEAP, es[i].prio, es[ParentOf(i)].prio) {
      UpBound(Exchange(es, i, ParentOf(i)), ParentOf(i), bound);
    }
  }

  lemma RootReplaced(hi: seq<Elem>, e: Elem)
    requires hi != [] && HalfOrder(MAX_HEAP, hi) && forall j :: 0 < j < |hi| ==> hi[j].prio <= e.prio
    ensures HalfOrder(MAX_HEAP, hi[0 := e])
  {
    forall j | 0 < j < |hi|
      ensures Fits(MAX_HEAP, hi[0 := e], j, ParentOf(j))
    {
      assert Fits(MAX_HEAP, hi, j, ParentOf(j));
    }
  }

  // ----- appending to a top heap of at most four -----

  /** Child order but for the element at i, whose children fit below i's parent. */
  ghost predicate OrderedBut(es: seq<Elem>, i: nat)
    requires i < |es|
  {
    forall c {:trigger ChildOf(c)} :: 0 < c < |es| && c != i ==>
      && Fits(MIN_HEAP, es, c, ChildOf(c))
      && (0 < i && ChildOf(c) == i ==> Fits(MIN_HEAP, es, c, ChildOf(i)))
  }

  /** From the places whose way to the root is the same in both trees, moving up keeps
      the child order. */
  lemma {:induction false} UpSameWay(es: seq<Elem>, i: nat)
    requires i < |es| && (i == 0 || i == 1 || i == 3) && OrderedBut(es, i)
    ensures ChildOrder(MIN_HEAP, Up(MIN_HEAP, es, i), 0)
    decreases i
  {
    if i > 0 {
      var p := ChildOf(i);
      assert p == ParentOf(i);
      if Above(MIN_HEAP, es[i].prio, es[p].prio) {
        var es' := Exchange(es, i, p);
        forall c | 0 < c < |es| && c != p
          ensures Fits(MIN_HEAP, es', c, ChildOf(c))
          ensures 0 < p && ChildOf(c) == p ==> Fits(MIN_HEAP, es', c, ChildOf(p))
        {
          assert c != i ==> Fits(MIN_HEAP, es, c, ChildOf(c));
          assert 0 < p ==> Fits(MIN_HEAP, es, p, ChildOf(p));
        }
        UpSameWay(es', p);
      }
    }
  }

  /** Up to the fourth place, moving up keeps the child order. */
  lemma AppendTop(lo: seq<Elem>, e: Elem)
    requires |lo| < 4 && ChildOrder(MIN_HEAP, lo, 0)
    ensures ChildOrder(MIN_HEAP, Up(MIN_HEAP, lo + [e], |lo|), 0)
  {
    var n, es := |lo|, lo + [e];
    forall c | 0 < c < n
      ensures Fits(MIN_HEAP, es, c, ChildOf(c)) && ChildOf(c) < n
    {
      assert Fits(MIN_HEAP, lo, c, ChildOf(c));
    }
    if n == 2 {
      AppendThird(lo, e);
    } else {
      UpSameWay(es, n);
    }
  }

  lemma AppendThird(lo: seq<Elem>, e: Elem)
    requires |lo| == 2 && ChildOrder(MIN_HEAP, lo, 0)
    ensures ChildOrder(MIN_HEAP, Up(MIN_HEAP, lo + [e], 2), 0)
  {
    var es := lo + [e];
    assert ChildOf(1) == 0 == ChildOf(2) && ParentOf(2) == 1;
    assert Fits(MIN_HEAP, lo, 1, ChildOf(1));
    if e.prio < lo[1].prio {
      UpSameWay(Exchange(es, 2, 1), 1);
    }
  }

  // ----- runs -----

  /** An insertion, or a new priority for the element at a global position. */
  datatype Op = Insert(e: Elem) | Raise(g: nat, prio: nat) | Lower(g: nat, prio: nat)

  /** The call neither throws nor runs out of the 64 bits of a priority. */
  ghost predicate Proper(lo: seq<Elem>, hi: seq<Elem>, k: nat, op: Op) {
    match op
    case Insert(_) => 0 < k
    case Raise(g, prio) =>
      if g < k then g < |lo| && lo[g].prio <= prio
      else g < k + |hi| && lo != [] && hi[g - k].prio <= prio
    case Lower(g, prio) =>
      if g < k then g < |lo| && hi != [] && prio <= lo[g].prio
      else g < k + |hi| && prio <= hi[g - k].prio
  }

  ghost function After(lo: seq<Elem>, hi: seq<Elem>, k: nat, op: Op): (r: (seq<Elem>, seq<Elem>))
    requires Proper(lo, hi, k, op) && |lo| <= k
  {
    match op
    case Insert(e) => Inserted(lo, hi, k, e)
    case Raise(g, prio) => Raised(lo, hi, k, g, prio)
    case Lower(g, prio) => Lowered(lo, hi, k, g, prio)
  }

  lemma InsertOrdered(lo: seq<Elem>, hi: seq<Elem>, k: nat, e: Elem)
    requires Ordered(lo, hi, k) && 0 < k <= 4
    ensures Ordered(Inserted(lo, hi, k, e).0, Inserted(lo, hi, k, e).1, k)
  {
    if |lo| < k {
      AppendTop(lo, e);
    } else if lo[0].prio > e.prio {
      AppendOrders(MAX_HEAP, hi, e);
      AppendRoot(hi, e, lo[0].prio);
    } else {
      RaisedDown(lo, 0, e);
      DownRoot(lo, 0, e);
      AppendOrders(MAX_HEAP, hi, lo[0]);
      AppendRoot(hi, lo[0], lo[0].prio);
    }
  }

  lemma AppendRoot(hi: seq<Elem>, e: Elem, bound: nat)
    requires HalfOrder(MAX_HEAP, hi) && e.prio <= bound && (hi != [] ==> hi[0].prio <= bound)
    ensures Up(MAX_HEAP, hi + [e], |hi|)[0].prio <= bound
  {
    var up := Up(MAX_HEAP, hi + [e], |hi|);
    UpElems(MAX_HEAP, hi + [e], |hi|);
    assert up[0] in multiset(hi + [e]);
    assert up[0] in hi + [e];
    var j :| 0 <= j < |hi + [e]| && (hi + [e])[j] == up[0];
    if j < |hi| {
      RootExtreme(MAX_HEAP, hi, j);
    }
  }

  lemma RaiseTopOrdered(lo: seq<Elem>, hi: seq<Elem>, k: nat, g: nat, prio: nat)
    requires Ordered(lo, hi, k) && g < |lo| && lo[g].prio <= prio
    ensures Ordered(Raised(lo, hi, k, g, prio).0, Raised(lo, hi, k, g, prio).1, k)
  {
    RaisedDown(lo, g, Elem(lo[g].key, prio));
    DownRoot(lo, g, Elem(lo[g].key, prio));
  }

  lemma RaiseOverflowOrdered(lo: seq<Elem>, hi: seq<Elem>, k: nat, i: nat, prio: nat)
    requires Ordered(lo, hi, k) && i < |hi| && hi[i].prio <= prio
    ensures Ordered(Raised(lo, hi, k, k + i, prio).0, Raised(lo, hi, k, k + i, prio).1, k)
  {
    var es := Bump(hi, i, prio);
    var up := Up(MAX_HEAP, es, i);
    RaisedUp(hi, i, Elem(hi[i].key, prio));
    forall j | 0 <= j < |hi| && j != i
      ensures es[j].prio <= lo[0].prio
    {
      RootExtreme(MAX_HEAP, hi, j);
    }
    UpBound(es, i, lo[0].prio);
    if up[0].prio > lo[0].prio {
      RootReplaced(up, lo[0]);
      RaisedDown(lo, 0, up[0]);
      DownRoot(lo, 0, up[0]);
    }
  }

  lemma StepOrdered(lo: seq<Elem>, hi: seq<Elem>, k: nat, op: Op)
    requires Ordered(lo, hi, k) && Proper(lo, hi, k, op) && k <= 4 && !op.Lower?
    ensures Ordered(After(lo, hi, k, op).0, After(lo, hi, k, op).1, k)
  {
    match op
    case Insert(e) => InsertOrdered(lo, hi, k, e);
    case Raise(g, prio) =>
      if g < k {
        RaiseTopOrdered(lo, hi, k, g, prio);
      } else {
        RaiseOverflowOrdered(lo, hi, k, g - k, prio);
      }
  }

  ghost predicate StepTo(k: nat, lo: seq<Elem>, hi: seq<Elem>, op: Op, lo': seq<Elem>, hi': seq<Elem>) {
    |lo| <= k && Proper(lo, hi, k, op) && (lo', hi') == After(lo, hi, k, op)
  }

  /** A run of a new queue; priorities are lowered only if `lowers`. */
  ghost predicate IsRun(k: nat, lowers: bool, los: seq<seq<Elem>>, his: seq<seq<Elem>>, ops: seq<Op>) {
    && (forall op <- ops :: op.Lower? ==> lowers)
    && |los| == |his| == |ops| + 1 && los[0] == [] && his[0] == []
    && forall i {:trigger ops[i]} :: 0 <= i < |ops| ==> StepTo(k, los[i], his[i], ops[i], los[i + 1], his[i + 1])
  }

  lemma {:induction false} RunOrdered(k: nat, los: seq<seq<Elem>>, his: seq<seq<Elem>>, ops: seq<Op>, i: nat)
    requires IsRun(k, false, los, his, ops) && i < |los| && k <= 4
    ensures Ordered(los[i], his[i], k)
  {
    if i > 0 {
      RunOrdered(k, los, his, ops, i - 1);
      assert StepTo(k, los[i - 1], his[i - 1], ops[i - 1], los[i], his[i]);
      StepOrdered(los[i - 1], his[i - 1], k, ops[i - 1]);
    }
  }

  /** With at most four places, i.e. with two or more partitions, the top heap holds the
      greatest priorities at every moment of every run of insertions and raises. */
  lemma SmallTopHolds(k: nat, los: seq<seq<Elem>>, his: seq<seq<Elem>>, ops: seq<Op>, i: nat)
    requires IsRun(k, false, los, his, ops) && i < |los| && k <= 4
    ensures TopHeapIsTop(los[i], his[i])
  {
    RunOrdered(k, los, his, ops, i);
    OrderedIsTop(los[i], his[i], k);
  }

  ghost predicate Reachable(k: nat, lowers: bool, lo: seq<Elem>, hi: seq<Elem>) {
    exists los, his, ops :: IsRun(k, lowers, los, his, ops) && los[|ops|] == lo && his[|ops|] == hi
  }

  lemma ReachStart(k: nat, lowers: bool)
    ensures Reachable(k, lowers, [], [])
  {
    assert IsRun(k, lowers, [[]], [[]], []);
  }

  lemma ReachStep(k: nat, lowers: bool, lo: seq<Elem>, hi: seq<Elem>, op: Op, lo': seq<Elem>, hi': seq<Elem>)
    requires Reachable(k, lowers, lo, hi) && StepTo(k, lo, hi, op, lo', hi') && (op.Lower? ==> lowers)
    ensures Reachable(k, lowers, lo', hi')
  {
    var los, his, ops :| IsRun(k, lowers, los, his, ops) && los[|ops|] == lo && his[|ops|] == hi;
    var los', his', ops' := los + [lo'], his + [hi'], ops + [op];
    forall i | 0 <= i < |ops'|
      ensures StepTo(k, los'[i], his'[i], ops'[i], los'[i + 1], his'[i + 1])
    {
      if i < |ops| {
        assert StepTo(k, los[i], his[i], ops[i], los[i + 1], his[i + 1]);
      }
    }
    assert IsRun(k, lowers, los', his', ops') && los'[|ops'|] == lo' && his'[|ops'|] == hi';
  }

  // ----- eight places are too many -----

  /** Elements that are their own keys. */
  ghost function Es(ps: seq<nat>): (r: seq<Elem>)
    ensures |r| == |ps| && forall i {:trigger r[i]} :: 0 <= i < |r| ==> r[i] == Elem(ps[i], ps[i])
  {
    seq(|ps|, i requires 0 <= i < |ps| => Elem(ps[i], ps[i]))
  }

  /** Filling the top heap with an element that stays where it is put. */
  lemma Fill(ps: seq<nat>, p: nat)
    requires |ps| < 8 && (ps == [] || ps[ParentOf(|ps|)] <= p) && Reachable(8, false, Es(ps), [])
    ensures Reachable(8, false, Es(ps + [p]), [])
  {
    assert Es(ps) + [Elem(p, p)] == Es(ps + [p]);
    ReachStep(8, false, Es(ps), [], Insert(Elem(p, p)), Es(ps + [p]), []);
  }

  // Moving down in the top heap and up in the overflow heap, on priorities alone.

  function TopOf(ps: seq<nat>, i: nat): (r: nat)
    ensures r == i || i < r < |ps|
  {
    var right, left := 2 * i + 1, 2 * i + 2;
    var top := if right < |ps| && ps[right] < ps[i] then right else i;
    if left < |ps| && ps[left] < ps[top] then left else top
  }

  function Sunk(ps: seq<nat>, i: nat): (r: seq<nat>)
    decreases |ps| - i
  {
    var t := TopOf(ps, i);
    if t != i then Sunk(ps[t := ps[i]][i := ps[t]], t) else ps
  }

  function Risen(ps: seq<nat>, i: nat): (r: seq<nat>)
    requires i < |ps|
    decreases i
  {
    if i > 0 && ps[i] > ps[i / 2] then Risen(ps[i := ps[i / 2]][i / 2 := ps[i]], i / 2) else ps
  }

  lemma {:induction false} SunkDown(ps: seq<nat>, i: nat)
    ensures Down(MIN_HEAP, Es(ps), i) == Es(Sunk(ps, i))
    decreases |ps| - i
  {
    var t := TopOf(ps, i);
    assert Top(MIN_HEAP, Es(ps), i) == t;
    if t != i {
      assert Exchange(Es(ps), t, i) == Es(ps[t := ps[i]][i := ps[t]]);
      SunkDown(ps[t := ps[i]][i := ps[t]], t);
    }
  }

  lemma {:induction false} RisenUp(ps: seq<nat>, i: nat)
    requires i < |ps|
    ensures Up(MAX_HEAP, Es(ps), i) == Es(Risen(ps, i))
    decreases i
  {
    if i > 0 && ps[i] > ps[i / 2] {
      assert Exchange(Es(ps), i, ParentOf(i)) == Es(ps[i := ps[i / 2]][i / 2 := ps[i]]);
      RisenUp(ps[i := ps[i / 2]][i / 2 := ps[i]], i / 2);
    }
  }

  lemma Sink(ps: seq<nat>, i: nat, t: nat, ps': seq<nat>)
    requires i < |ps| && i != t < |ps| && TopOf(ps, i) == t && ps' == ps[t := ps[i]][i := ps[t]]
    ensures Sunk(ps, i) == Sunk(ps', t)
  {
  }

  lemma Rise(ps: seq<nat>, i: nat, ps': seq<nat>)
    requires 0 < i < |ps| && ps[i] > ps[i / 2] && ps' == ps[i := ps[i / 2]][i / 2 := ps[i]]
    ensures Risen(ps, i) == Risen(ps', i / 2)
  {
  }

  lemma InsertedPrios(ps: seq<nat>, qs: seq<nat>, p: nat, ps': seq<nat>, qs': seq<nat>)
    requires |ps| == 8 && ps[0] <= p && ps' == Sunk(ps[0 := p], 0) && qs' == Risen(qs + [ps[0]], |qs|)
    ensures Inserted(Es(ps), Es(qs), 8, Elem(p, p)) == (Es(ps'), Es(qs'))
  {
    var lo, hi, e := Es(ps), Es(qs), Elem(p, p);
    assert lo[0 := e] == Es(ps[0 := p]);
    assert hi + [lo[0]] == Es(qs + [ps[0]]);
    SunkDown(ps[0 := p], 0);
    RisenUp(qs + [ps[0]], |qs|);
  }

  /** An element that takes the place of the root of a full top heap. */
  lemma Replacing(ps: seq<nat>, qs: seq<nat>, p: nat, ps': seq<nat>, qs': seq<nat>)
    requires |ps| == 8 && ps[0] <= p && Reachable(8, false, Es(ps), Es(qs))
    requires ps' == Sunk(ps[0 := p], 0) && qs' == Risen(qs + [ps[0]], |qs|)
    ensures Reachable(8, false, Es(ps'), Es(qs'))
  {
    InsertedPrios(ps, qs, p, ps', qs');
    ReachStep(8, false, Es(ps), Es(qs), Insert(Elem(p, p)), Es(ps'), Es(qs'));
  }

  lemma Filled()
    ensures Reachable(8, false, Es([0, 1, 5, 2, 6, 7, 3, 4]), [])
  {
    ReachStart(8, false);
    assert Es([]) == [];
    Fill([], 0);
    assert [] + [0] == [0];
    Fill([0], 1);
    Fill([0, 1], 5);
    Fill([0, 1, 5], 2);
    Fill([0, 1, 5, 2], 6);
    Fill([0, 1, 5, 2, 6], 7);
    Fill([0, 1, 5, 2, 6, 7], 3);
    Fill([0, 1, 5, 2, 6, 7, 3], 4);
  }

  lemma FirstSinks()
    ensures Sunk([0, 1, 5, 2, 6, 7, 3, 4][0 := 10], 0) == [1, 2, 5, 4, 6, 7, 3, 10]
    ensures Risen([] + [0], 0) == [0]
  {
    Sink([0, 1, 5, 2, 6, 7, 3, 4][0 := 10], 0, 1, [1, 10, 5, 2, 6, 7, 3, 4]);
    Sink([1, 10, 5, 2, 6, 7, 3, 4], 1, 3, [1, 2, 5, 10, 6, 7, 3, 4]);
    Sink([1, 2, 5, 10, 6, 7, 3, 4], 3, 7, [1, 2, 5, 4, 6, 7, 3, 10]);
    assert TopOf([1, 2, 5, 4, 6, 7, 3, 10], 7) == 7;
  }

  lemma SecondSinks()
    ensures Sunk([1, 2, 5, 4, 6, 7, 3, 10][0 := 11], 0) == [2, 4, 5, 10, 6, 7, 3, 11]
    ensures Risen([0] + [1], 1) == [1, 0]
  {
    Sink([1, 2, 5, 4, 6, 7, 3, 10][0 := 11], 0, 1, [2, 11, 5, 4, 6, 7, 3, 10]);
    Sink([2, 11, 5, 4, 6, 7, 3, 10], 1, 3, [2, 4, 5, 11, 6, 7, 3, 10]);
    Sink([2, 4, 5, 11, 6, 7, 3, 10], 3, 7, [2, 4, 5, 10, 6, 7, 3, 11]);
    assert TopOf([2, 4, 5, 10, 6, 7, 3, 11], 7) == 7;
    Rise([0] + [1], 1, [1, 0]);
  }

  lemma ThirdSinks()
    ensures Sunk([2, 4, 5, 10, 6, 7, 3, 11][0 := 12], 0) == [4, 6, 5, 10, 12, 7, 3, 11]
    ensures Risen([1, 0] + [2], 2) == [2, 1, 0]
  {
    Sink([2, 4, 5, 10, 6, 7, 3, 11][0 := 12], 0, 1, [4, 12, 5, 10, 6, 7, 3, 11]);
    Sink([4, 12, 5, 10, 6, 7, 3, 11], 1, 4, [4, 6, 5, 10, 12, 7, 3, 11]);
    assert TopOf([4, 6, 5, 10, 12, 7, 3, 11], 4) == 4;
    Rise([1, 0] + [2], 2, [1, 2, 0]);
    Rise([1, 2, 0], 1, [2, 1, 0]);
  }

  lemma FourthSinks()
    ensures Sunk([4, 6, 5, 10, 12, 7, 3, 11][0 := 13], 0) == [5, 6, 3, 10, 12, 7, 13, 11]
    ensures Risen([2, 1, 0] + [4], 3) == [4, 2, 0, 1]
  {
    Sink([4, 6, 5, 10, 12, 7, 3, 11][0 := 13], 0, 2, [5, 6, 13, 10, 12, 7, 3, 11]);
    Sink([5, 6, 13, 10, 12, 7, 3, 11], 2, 6, [5, 6, 3, 10, 12, 7, 13, 11]);
    assert TopOf([5, 6, 3, 10, 12, 7, 13, 11], 6) == 6;
    Rise([2, 1, 0] + [4], 3, [2, 4, 0, 1]);
    Rise([2, 4, 0, 1], 1, [4, 2, 0, 1]);
  }

  /** Twelve insertions after which the overflow heap holds a greater priority than the
      top heap: 4 is out, 3 is in. */
  lemma TwelveInsertions()
    ensures Reachable(8, false, Es([5, 6, 3, 10, 12, 7, 13, 11]), Es([4, 2, 0, 1]))
  {
    Filled();
    assert Es([]) == [];
    FirstSinks();
    Replacing([0, 1, 5, 2, 6, 7, 3, 4], [], 10, [1, 2, 5, 4, 6, 7, 3, 10], [0]);
    SecondSinks();
    Replacing([1, 2, 5, 4, 6, 7, 3, 10], [0], 11, [2, 4, 5, 10, 6, 7, 3, 11], [1, 0]);
    ThirdSinks();
    Replacing([2, 4, 5, 10, 6, 7, 3, 11], [1, 0], 12, [4, 6, 5, 10, 12, 7, 3, 11], [2, 1, 0]);
    FourthSinks();
    Replacing([4, 6, 5, 10, 12, 7, 3, 11], [2, 1, 0], 13, [5, 6, 3, 10, 12, 7, 13, 11], [4, 2, 0, 1]);
  }

  /** The top heap holds the greatest priorities in every state that insertions and raises
      can reach, exactly when there is more than one partition. */
  lemma TopExactly(npartitions: nat)
    requires 0 < npartitions
    ensures (forall lo, hi :: Reachable(NTOP_K / npartitions, false, lo, hi) ==> TopHeapIsTop(lo, hi)) <==>
              2 <= npartitions
  {
    var k := NTOP_K / npartitions;
    if npartitions == 1 {
      TwelveInsertions();
      assert !TopHeapIsTop(Es([5, 6, 3, 10, 12, 7, 13, 11]), Es([4, 2, 0, 1])) by {
        assert Es([5, 6, 3, 10, 12, 7, 13, 11])[2] == Elem(3, 3) && Es([4, 2, 0, 1])[0] == Elem(4, 4);
      }
    } else {
      AtMostFour(npartitions);
      forall lo, hi | Reachable(k, false, lo, hi)
        ensures TopHeapIsTop(lo, hi)
      {
        var los, his, ops :| IsRun(k, false, los, his, ops) && los[|ops|] == lo && his[|ops|] == hi;
        SmallTopHolds(k, los, his, ops, |ops|);
      }
    }
  }

  lemma AtMostFour(n: nat)
    requires 2 <= n
    ensures NTOP_K / n <= 4
  {
    var q := NTOP_K / n;
    assert q * n <= NTOP_K;
    assert q >= 5 ==> q * n >= 5 * n;
  }
}
