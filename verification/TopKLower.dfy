/** Lowering a priority. It moves an element down the children's tree, while insertions and
    raises of the overflow heap look up the tree of half indices; so the root of the
    overflow heap need not be its greatest element, and the one comparison with that root
    misses an element that belongs into the top heap. */
module TopKLower {
  import opened PriorityQueue
  import opened TopK

  /** A top heap of n elements in the order in which they were inserted. */
  ghost function Full(n: nat): (r: seq<Elem>)
    ensures |r| == n && forall i {:trigger r[i]} :: 0 <= i < n ==> r[i] == Elem(200 + i, 200 + i)
  {
    seq(n, (i: nat) => Elem(200 + i, 200 + i))
  }

  lemma {:induction false} TopFilled(k: nat, n: nat)
    requires n <= k
    ensures Reachable(k, true, Full(n), [])
  {
    if n == 0 {
      ReachStart(k, true);
      assert Full(0) == [];
    } else {
      TopFilled(k, n - 1);
      var e := Elem(199 + n, 199 + n);
      assert Full(n - 1) + [e] == Full(n);
      ReachStep(k, true, Full(n - 1), [], Insert(e), Full(n), []);
    }
  }

  /** An element of the overflow heap that stays where it is put. */
  lemma Overflow(k: nat, ps: seq<nat>, p: nat)
    requires 0 < k && p < 200 && (ps == [] || p <= ps[|ps| / 2])
    requires Reachable(k, true, Full(k), Es(ps))
    ensures Reachable(k, true, Full(k), Es(ps + [p]))
  {
    assert Es(ps) + [Elem(p, p)] == Es(ps + [p]);
    ReachStep(k, true, Full(k), Es(ps), Insert(Elem(p, p)), Full(k), Es(ps + [p]));
  }

  lemma OverflowFilled(k: nat)
    requires 0 < k
    ensures Reachable(k, true, Full(k), Es([100, 90, 10, 80, 1, 2, 70]))
  {
    TopFilled(k, k);
    assert Es([]) == [] && [] + [100] == [100];
    Overflow(k, [], 100);
    Overflow(k, [100], 90);
    Overflow(k, [100, 90], 10);
    Overflow(k, [100, 90, 10], 80);
    Overflow(k, [100, 90, 10, 80], 1);
    Overflow(k, [100, 90, 10, 80, 1], 2);
    Overflow(k, [100, 90, 10, 80, 1, 2], 70);
  }

  lemma Sinks(es: seq<Elem>, i: nat, t: nat, es': seq<Elem>)
    requires i < |es| && i != t < |es| && Top(MAX_HEAP, es, i) == t && es' == Exchange(es, t, i)
    ensures Down(MAX_HEAP, es, i) == Down(MAX_HEAP, es', t)
  {
  }

  /** The root of the overflow heap loses all its priority. */
  lemma RootLowered(k: nat, hi: seq<Elem>, hi': seq<Elem>)
    requires 0 < k && hi != [] && Reachable(k, true, Full(k), hi) && hi' == Down(MAX_HEAP, Bump(hi, 0, 0), 0)
    ensures Reachable(k, true, Full(k), hi')
  {
    ReachStep(k, true, Full(k), hi, Lower(k, 0), Full(k), hi');
  }

  function Sole(p: nat): Elem {
    Elem(p, p)
  }

  /** The overflow heap after its root was lowered once, twice and three times. */
  const ONCE := [Sole(90), Sole(80), Sole(10), Elem(100, 0), Sole(1), Sole(2), Sole(70)]
  const TWICE := [Sole(80), Sole(1), Sole(10), Elem(100, 0), Elem(90, 0), Sole(2), Sole(70)]
  const THRICE := [Sole(10), Sole(1), Sole(70), Elem(100, 0), Elem(90, 0), Sole(2), Elem(80, 0)]

  lemma LoweredOnce()
    ensures Down(MAX_HEAP, Bump(Es([100, 90, 10, 80, 1, 2, 70]), 0, 0), 0) == ONCE
  {
    var a := [Elem(100, 0), Sole(90), Sole(10), Sole(80), Sole(1), Sole(2), Sole(70)];
    assert Bump(Es([100, 90, 10, 80, 1, 2, 70]), 0, 0) == a;
    var b := [Sole(90), Elem(100, 0), Sole(10), Sole(80), Sole(1), Sole(2), Sole(70)];
    Sinks(a, 0, 1, b);
    Sinks(b, 1, 3, ONCE);
    assert Top(MAX_HEAP, ONCE, 3) == 3;
  }

  lemma LoweredTwice()
    ensures Down(MAX_HEAP, Bump(ONCE, 0, 0), 0) == TWICE
  {
    var b := [Sole(80), Elem(90, 0), Sole(10), Elem(100, 0), Sole(1), Sole(2), Sole(70)];
    Sinks(Bump(ONCE, 0, 0), 0, 1, b);
    Sinks(b, 1, 4, TWICE);
    assert Top(MAX_HEAP, TWICE, 4) == 4;
  }

  lemma LoweredThrice()
    ensures Down(MAX_HEAP, Bump(TWICE, 0, 0), 0) == THRICE
  {
    var b := [Sole(10), Sole(1), Elem(80, 0), Elem(100, 0), Elem(90, 0), Sole(2), Sole(70)];
    Sinks(Bump(TWICE, 0, 0), 0, 2, b);
    Sinks(b, 2, 6, THRICE);
    assert Top(MAX_HEAP, THRICE, 6) == 6;
  }

  /** With any number of places: 50 is in the top heap, 70 in the overflow heap behind
      its root of 10. */
  lemma LoweredOut(k: nat)
    requires 0 < k
    ensures Reachable(k, true, Full(k)[0 := Elem(200, 50)], THRICE)
  {
    OverflowFilled(k);
    LoweredOnce();
    RootLowered(k, Es([100, 90, 10, 80, 1, 2, 70]), ONCE);
    LoweredTwice();
    RootLowered(k, ONCE, TWICE);
    LoweredThrice();
    RootLowered(k, TWICE, THRICE);
    ReachStep(k, true, Full(k), THRICE, Lower(0, 50), Full(k)[0 := Elem(200, 50)], THRICE);
  }

  lemma NothingProper(op: Op)
    ensures !Proper([], [], 0, op)
  {
  }

  /** With no place at all, the first call throws or finds no key. */
  lemma NoCalls(los: seq<seq<Elem>>, his: seq<seq<Elem>>, ops: seq<Op>)
    requires IsRun(0, true, los, his, ops)
    ensures ops == []
  {
    if ops != [] {
      NothingProper(ops[0]);
    }
  }

  lemma SomePlace(n: nat)
    requires 0 < n
    ensures 0 < NTOP_K / n <==> n <= NTOP_K
  {
  }

  lemma PlacesExactly(k: nat)
    ensures (forall lo, hi :: Reachable(k, true, lo, hi) ==> TopHeapIsTop(lo, hi)) <==> k == 0
  {
    if k > 0 {
      LoweredOut(k);
      var lo := Full(k)[0 := Elem(200, 50)];
      assert lo[0] == Elem(200, 50) && THRICE[2] == Sole(70);
      assert !TopHeapIsTop(lo, THRICE);
    } else {
      forall lo, hi | Reachable(k, true, lo, hi)
        ensures TopHeapIsTop(lo, hi)
      {
        var los, his, ops :| IsRun(k, true, los, his, ops) && los[|ops|] == lo && his[|ops|] == hi;
        NoCalls(los, his, ops);
      }
    }
  }

  /** Once priorities may be lowered, the top heap holds the greatest priorities in every
      reachable state exactly when a shard has no place at all and takes no element. */
  lemma LoweringExactly(npartitions: nat)
    requires 0 < npartitions
    ensures (forall lo, hi :: Reachable(NTOP_K / npartitions, true, lo, hi) ==> TopHeapIsTop(lo, hi))
            <==> NTOP_K < npartitions
  {
    SomePlace(npartitions);
    PlacesExactly(NTOP_K / npartitions);
  }
}
