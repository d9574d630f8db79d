/** How many elements the overflow heap may have when priorities may be lowered: four. With
    five of them an element can hide behind one that is less. */
module TopKFew {
  import opened PriorityQueue
  import opened TopK
  import opened TopKLower
  import opened TopKSmall

  /** Some run leads to these heaps and never has more than m elements in the overflow heap. */
  ghost predicate ReachableFew(k: nat, m: nat, lo: seq<Elem>, hi: seq<Elem>) {
    exists los, his, ops ::
      && IsRun(k, true, los, his, ops) && los[|ops|] == lo && his[|ops|] == hi
      && forall x {:trigger his[x]} :: 0 <= x < |his| ==> |his[x]| <= m
  }

  lemma FewStart(k: nat, m: nat)
    ensures ReachableFew(k, m, [], [])
  {
    var los: seq<seq<Elem>>, his: seq<seq<Elem>>, ops: seq<Op> := [[]], [[]], [];
    assert IsRun(k, true, los, his, ops) && los[|ops|] == [] && his[|ops|] == [];
    assert forall x {:trigger his[x]} :: 0 <= x < |his| ==> |his[x]| <= m;
  }

  lemma FewStep(k: nat, m: nat, lo: seq<Elem>, hi: seq<Elem>, op: Op, lo': seq<Elem>, hi': seq<Elem>)
    requires ReachableFew(k, m, lo, hi) && StepTo(k, lo, hi, op, lo', hi') && |hi'| <= m
    ensures ReachableFew(k, m, lo', hi')
  {
    var los, his, ops :|
      && IsRun(k, true, los, his, ops) && los[|ops|] == lo && his[|ops|] == hi
      && forall x {:trigger his[x]} :: 0 <= x < |his| ==> |his[x]| <= m;
    var los', his', ops' := los + [lo'], his + [hi'], ops + [op];
    forall i | 0 <= i < |ops'|
      ensures StepTo(k, los'[i], his'[i], ops'[i], los'[i + 1], his'[i + 1])
    {
      if i < |ops| {
        assert StepTo(k, los[i], his[i], ops[i], los[i + 1], his[i + 1]);
      }
    }
    assert IsRun(k, true, los', his', ops') && los'[|ops'|] == lo' && his'[|ops'|] == hi';
    assert forall x {:trigger his'[x]} :: 0 <= x < |his'| ==> |his'[x]| <= m;
  }

  lemma {:induction false} FewFilled(k: nat, m: nat, n: nat)
    requires n <= k
    ensures ReachableFew(k, m, Full(n), [])
  {
    if n == 0 {
      FewStart(k, m);
      assert Full(0) == [];
    } else {
      FewFilled(k, m, n - 1);
      var e := Elem(199 + n, 199 + n);
      assert Full(n - 1) + [e] == Full(n);
      FewStep(k, m, Full(n - 1), [], Insert(e), Full(n), []);
    }
  }

  lemma FewOverflow(k: nat, m: nat, hi: seq<Elem>, p: nat, hi': seq<Elem>)
    requires 0 < k && |hi| < m && p < 200 && (hi == [] || p <= hi[|hi| / 2].prio) && hi' == hi + [Sole(p)]
    requires ReachableFew(k, m, Full(k), hi)
    ensures ReachableFew(k, m, Full(k), hi')
  {
    assert Up(MAX_HEAP, hi', |hi|) == hi';
    FewStep(k, m, Full(k), hi, Insert(Sole(p)), Full(k), hi');
  }

  lemma FewLowered(k: nat, m: nat, hi: seq<Elem>, hi': seq<Elem>)
    requires 0 < k && hi != [] && |hi| <= m && ReachableFew(k, m, Full(k), hi)
    requires hi' == Down(MAX_HEAP, Bump(hi, 0, 0), 0)
    ensures ReachableFew(k, m, Full(k), hi')
  {
    FewStep(k, m, Full(k), hi, Lower(k, 0), Full(k), hi');
  }

  const FOUR := [Sole(100), Sole(90), Sole(80), Sole(10)]
  const SUNK := [Sole(90), Sole(10), Sole(80), Elem(100, 0)]
  const FIVE := [Sole(90), Sole(10), Sole(80), Elem(100, 0), Sole(70)]
  const HALF := [Sole(80), Sole(10), Elem(90, 0), Elem(100, 0), Sole(70)]
  const HIDDEN := [Sole(10), Sole(70), Elem(90, 0), Elem(100, 0), Elem(80, 0)]

  lemma FourSunk()
    ensures Down(MAX_HEAP, Bump(FOUR, 0, 0), 0) == SUNK
  {
    var b := [Sole(90), Elem(100, 0), Sole(80), Sole(10)];
    Sinks(Bump(FOUR, 0, 0), 0, 1, b);
    Sinks(b, 1, 3, SUNK);
    assert Top(MAX_HEAP, SUNK, 3) == 3;
  }

  lemma FiveSunk()
    ensures Down(MAX_HEAP, Bump(FIVE, 0, 0), 0) == HALF
  {
    Sinks(Bump(FIVE, 0, 0), 0, 2, HALF);
    assert Top(MAX_HEAP, HALF, 2) == 2;
  }

  lemma HalfSunk()
    ensures Down(MAX_HEAP, Bump(HALF, 0, 0), 0) == HIDDEN
  {
    var b := [Sole(10), Elem(80, 0), Elem(90, 0), Elem(100, 0), Sole(70)];
    Sinks(Bump(HALF, 0, 0), 0, 1, b);
    Sinks(b, 1, 4, HIDDEN);
    assert Top(MAX_HEAP, HIDDEN, 4) == 4;
  }

  lemma FourReached(k: nat, m: nat)
    requires 0 < k && 5 <= m
    ensures ReachableFew(k, m, Full(k), FOUR)
  {
    FewFilled(k, m, k);
    FewOverflow(k, m, [], 100, [Sole(100)]);
    FewOverflow(k, m, [Sole(100)], 90, [Sole(100), Sole(90)]);
    FewOverflow(k, m, [Sole(100), Sole(90)], 80, [Sole(100), Sole(90), Sole(80)]);
    FewOverflow(k, m, [Sole(100), Sole(90), Sole(80)], 10, FOUR);
  }

  /** With any number of places: 50 is in the top heap, 70 in an overflow heap of five elements
      behind its root of 10. */
  lemma HiddenReached(k: nat, m: nat)
    requires 0 < k && 5 <= m
    ensures ReachableFew(k, m, Full(k)[0 := Elem(200, 50)], HIDDEN)
  {
    FourReached(k, m);
    FourSunk();
    FewLowered(k, m, FOUR, SUNK);
    FewOverflow(k, m, SUNK, 70, FIVE);
    FiveSunk();
    FewLowered(k, m, FIVE, HALF);
    HalfSunk();
    FewLowered(k, m, HALF, HIDDEN);
    FewStep(k, m, Full(k), HIDDEN, Lower(0, 50), Full(k)[0 := Elem(200, 50)], HIDDEN);
  }

  /** With one to four places, and whatever is inserted, raised and lowered: the top heap holds
      the greatest priorities in every run that keeps the overflow heap to m elements exactly
      when m is at most four. */
  lemma FewExactly(k: nat, m: nat)
    requires 0 < k <= 4
    ensures (forall lo, hi :: ReachableFew(k, m, lo, hi) ==> TopHeapIsTop(lo, hi)) <==> m <= 4
  {
    if m <= 4 {
      forall lo, hi | ReachableFew(k, m, lo, hi)
        ensures TopHeapIsTop(lo, hi)
      {
        var los, his, ops :|
          && IsRun(k, true, los, his, ops) && los[|ops|] == lo && his[|ops|] == hi
          && forall x {:trigger his[x]} :: 0 <= x < |his| ==> |his[x]| <= m;
        FewElementsHold(k, los, his, ops, |ops|);
      }
    } else {
      HiddenReached(k, m);
      var lo := Full(k)[0 := Elem(200, 50)];
      assert lo[0] == Elem(200, 50) && HIDDEN[1] == Sole(70);
      assert !TopHeapIsTop(lo, HIDDEN);
    }
  }
}
