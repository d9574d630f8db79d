/** Which of the two excluded steps State Machine Safety needs excluded. */
module RaftExact {
  import opened RaftTypes
  import opened RaftCluster
  import opened RaftComplete
  import opened RaftStateMachine
  import opened RaftRuns
  import RaftCut
  import RaftOver

  /** Of what two servers have delivered one is a prefix of the other. */
  ghost predicate Agree(s: Server, s': Server) {
    s.delivered <= s'.delivered || s'.delivered <= s.delivered
  }

  /** Any two servers agree, at any two times. */
  ghost predicate Agreeing(run: seq<Cluster>) {
    forall p, q, a, b {:trigger Agree(run[p].servers[a], run[q].servers[b])} ::
      0 <= p < |run| && 0 <= q < |run| && 0 <= a < |run[p].servers| && 0 <= b < |run[q].servers| ==>
        Agree(run[p].servers[a], run[q].servers[b])
  }

  ghost predicate AvoidsAll(kinds: set<Avoid>, run: seq<Cluster>, steps: seq<Step>) {
    forall av <- kinds :: AvoidedThrough(av, run, steps)
  }

  /** Every run that avoids the steps of these kinds delivers the same everywhere. */
  ghost predicate Safe(kinds: set<Avoid>) {
    forall run: seq<Cluster>, steps: seq<Step> :: IsRun(run, steps) && AvoidsAll(kinds, run, steps) ==> Agreeing(run)
  }

  lemma BothSafe()
    ensures Safe({NoDrop, NoOvercommit})
  {
    forall run: seq<Cluster>, steps: seq<Step> | IsRun(run, steps) && AvoidsAll({NoDrop, NoOvercommit}, run, steps)
      ensures Agreeing(run)
    {
      CarefulRun(run, steps);
      forall p, q, a, b | 0 <= p < |run| && 0 <= q < |run| && 0 <= a < |run[p].servers| && 0 <= b < |run[q].servers|
        ensures Agree(run[p].servers[a], run[q].servers[b])
      {
        StateMachineSafety(run, steps, p, q, a, b);
      }
    }
  }

  lemma CarefulRun(run: seq<Cluster>, steps: seq<Step>)
    requires AvoidsAll({NoDrop, NoOvercommit}, run, steps)
    ensures Careful(run, steps)
  {
    assert AvoidedThrough(NoDrop, run, steps) && AvoidedThrough(NoOvercommit, run, steps);
    forall k | 0 <= k < |steps| && k < |run|
      ensures !Drops(run[k], steps[k]) && !Overcommits(run[k], steps[k])
    {
      assert Avoided(NoDrop, run[k], steps[k]) && Avoided(NoOvercommit, run[k], steps[k]);
    }
  }

  /** A state with two deliveries that disagree, reached without steps of one kind. */
  lemma Unsafe(kinds: set<Avoid>, av: Avoid, c: Cluster, a: nat, b: nat)
    requires kinds <= {av} && Reached(av, c)
    requires a < |c.servers| && b < |c.servers| && !Agree(c.servers[a], c.servers[b])
    ensures !Safe(kinds)
  {
    var run: seq<Cluster>, steps: seq<Step> :| IsRun(run, steps) && AvoidedThrough(av, run, steps) && run[|steps|] == c;
    assert AvoidsAll(kinds, run, steps);
    assert !Agree(run[|steps|].servers[a], run[|steps|].servers[b]);
  }

  /** Deliveries agree in every run that avoids the steps of these kinds exactly when both
      kinds are avoided. */
  lemma SafeExactly(kinds: set<Avoid>)
    ensures Safe(kinds) <==> kinds == {NoDrop, NoOvercommit}
  {
    BothSafe();
    if NoDrop !in kinds {
      var c := RaftCut.TwoDeliveries();
      OnlyOther(kinds, NoDrop);
      assert c.servers[0].delivered[1] != c.servers[1].delivered[1];
      Unsafe(kinds, NoOvercommit, c, 0, 1);
    } else if NoOvercommit !in kinds {
      var c := RaftOver.TwoDeliveries();
      OnlyOther(kinds, NoOvercommit);
      assert c.servers[0].delivered[1] != c.servers[2].delivered[1];
      Unsafe(kinds, NoDrop, c, 0, 2);
    } else {
      forall av | av in kinds
        ensures av in {NoDrop, NoOvercommit}
      {
        assert av.NoDrop? || av.NoOvercommit?;
      }
      assert kinds == {NoDrop, NoOvercommit};
    }
  }

  lemma OnlyOther(kinds: set<Avoid>, av: Avoid)
    requires av !in kinds
    ensures kinds <= {if av == NoDrop then NoOvercommit else NoDrop}
  {
    forall k | k in kinds
      ensures k == if av == NoDrop then NoOvercommit else NoDrop
    {
      assert k.NoDrop? || k.NoOvercommit?;
    }
  }
}
