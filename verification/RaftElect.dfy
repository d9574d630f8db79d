/** Who can be elected. From any state of any run, a candidate whose log is at least as up to
    date as the logs of a majority that has not voted in its term can become leader. */
module RaftElect {
  import opened LogModel
  import opened RaftTypes
  import opened RaftServer
  import opened RaftCluster
  import opened RaftInvariant
  import opened RaftSafety
  import opened RaftTheorems
  import opened RaftMoves
  import opened RaftPast
  import opened RaftAnswers

  // ----- continuing a run -----

  /** A step that neither brings nor answers entries. */
  predicate Voting(st: Step) {
    st.Timer? || (st.Deliver? && (st.m.VoteReq? || st.m.VoteRep?))
  }

  /** The run goes on, by votes and timers only. */
  ghost predicate Canvasses(run: seq<Cluster>, steps: seq<Step>, run': seq<Cluster>, steps': seq<Step>) {
    && IsRun(run', steps') && run <= run' && steps <= steps'
    && forall k {:trigger steps'[k]} :: |steps| <= k < |steps'| ==> Voting(steps'[k])
  }

  lemma StepOn(run: seq<Cluster>, steps: seq<Step>, st: Step) returns (run': seq<Cluster>, steps': seq<Step>)
    requires IsRun(run, steps) && EffectOf(run[|steps|], st).Effect?
    requires EffectOf(run[|steps|], st).i < |run[|steps|].servers|
    ensures IsRun(run', steps') && run <= run' && steps' == steps + [st]
    ensures run'[|steps'|] == Apply(run[|steps|], EffectOf(run[|steps|], st))
  {
    var c' := Apply(run[|steps|], EffectOf(run[|steps|], st));
    run', steps' := run + [c'], steps + [st];
    RunOn(run, steps, st, c');
  }

  lemma Joined(run: seq<Cluster>, steps: seq<Step>, run1: seq<Cluster>, steps1: seq<Step>, run2: seq<Cluster>,
               steps2: seq<Step>)
    requires Canvasses(run, steps, run1, steps1) && Canvasses(run1, steps1, run2, steps2)
    ensures Canvasses(run, steps, run2, steps2)
  {
    forall k {:trigger steps2[k]} | |steps| <= k < |steps2|
      ensures Voting(steps2[k])
    {
      assert k < |steps1| ==> steps2[k] == steps1[k];
    }
  }

  // ----- one vote -----

  /** What candidate i asks the others, from its term and its log's entries. */
  function Ask(i: nat, t: nat, log: seq<Entry>): VoteRequest {
    VoteRequest(t, i, |log|, LastTermOf(log))
  }

  lemma AskOf(s: Server)
    requires s.log.front == 0
    ensures VoteRequestOf(s) == Ask(s.me, s.term, s.log.entries)
  {
  }

  lemma NoneAtFirst(run: seq<Cluster>, steps: seq<Step>, i: nat)
    requires IsRun(run, steps) && i < |run[0].servers|
    ensures run[0].servers[i].role == Follower
  {
  }

  /** As long as a server is a candidate, its request is out to every other one. */
  lemma {:induction false} Asked(run: seq<Cluster>, steps: seq<Step>, k: nat, i: nat, j: nat)
    requires IsRun(run, steps) && k < |run| && i < |run[k].servers| && j < |run[k].servers| && j != i
    requires run[k].servers[i].role == Candidate
    ensures VoteReq(i, j, Ask(i, run[k].servers[i].term, run[k].servers[i].log.entries)) in run[k].net
  {
    if k == 0 {
      NoneAtFirst(run, steps, i);
    }
    var still := StillCandidate(run, steps, k - 1, i);
    if still {
      Asked(run, steps, k - 1, i, j);
      NetGrows(run, steps, k - 1);
    } else {
      AskedNow(run, steps, k - 1, i, j);
    }
  }

  /** A candidate was one before, with the same log and term, or has just timed out. */
  lemma StillCandidate(run: seq<Cluster>, steps: seq<Step>, k: nat, i: nat) returns (still: bool)
    requires IsRun(run, steps) && k < |steps| && i < |run[k + 1].servers| && run[k + 1].servers[i].role == Candidate
    ensures |run[k].servers| == |run[k + 1].servers|
    ensures var s, s' := run[k].servers[i], run[k + 1].servers[i];
            if still then s.role == Candidate && s'.term == s.term && s'.log == s.log
            else steps[k].Timer? && steps[k].i == i && s'.term == s.term + 1
  {
    var mover := MovesAt(run, steps, k);
    still := run[k].servers[i].role == Candidate && run[k].servers[i].term == run[k + 1].servers[i].term;
  }

  lemma AskedNow(run: seq<Cluster>, steps: seq<Step>, k: nat, i: nat, j: nat)
    requires IsRun(run, steps) && k < |steps| && steps[k].Timer? && steps[k].i == i
    requires i < |run[k].servers| && j < |run[k].servers| && j != i && i < |run[k + 1].servers|
    requires run[k + 1].servers[i].term == run[k].servers[i].term + 1
    ensures VoteReq(i, j, Ask(i, run[k + 1].servers[i].term, run[k + 1].servers[i].log.entries)) in run[k + 1].net
  {
    CandidateAt(run, steps, k + 1, i);
    NetGrows(run, steps, k);
    AskOf(run[k + 1].servers[i]);
    Asks(run[k], steps[k], run[k + 1], i, j);
  }

  lemma Asks(c: Cluster, st: Step, c': Cluster, i: nat, j: nat)
    requires Next(c, st, c') && st.Timer? && st.i == i < |c.servers| == |c'.servers|
    requires c'.servers[i].term != c.servers[i].term && j < |c'.servers[i].peers| && j != c'.servers[i].me
    ensures VoteReq(c'.servers[i].me, j, VoteRequestOf(c'.servers[i])) in c'.net
  {
    var s := c'.servers[i];
    assert VoteReq(s.me, j, VoteRequestOf(s)) in VoteReqs(s);
  }

  lemma CandidateAt(run: seq<Cluster>, steps: seq<Step>, k: nat, i: nat)
    requires IsRun(run, steps) && k < |run| && i < |run[k].servers|
    ensures var s := run[k].servers[i];
            && s.me == i && |s.peers| == |run[k].servers| >= 2 && s.log.front == 0
            && (s.role != Follower ==> s.votedFor == i)
  {
    InvAt(run, steps, k);
    assert ServerInv(i, |run[k].servers|, run[k].servers[i], HistoryAt(run, steps, k));
  }

  /** Server i is a candidate of term t with the votes of `done`, which do not make it leader
      yet, or it leads the term; its log is `log`. */
  ghost predicate Stands(c: Cluster, i: nat, t: nat, log: seq<Entry>, done: set<nat>) {
    i < |c.servers| && Standing(c.servers[i], i, t, log, done)
  }

  ghost predicate Standing(s: Server, i: nat, t: nat, log: seq<Entry>, done: set<nat>) {
    && s.me == i && s.term == t && s.log == Log(0, log)
    && (|| JustElected(s)
        || (&& s.role == Candidate && done <= Granters(s)
            && (done == {} || 2 * |Granters(s) + {i}| <= |s.peers|)))
  }

  /** A leader that has just been elected. */
  ghost predicate JustElected(s: Server) {
    && s.role == Leader
    && forall j :: 0 <= j < |s.peers| && j != s.me ==>
                     s.peers[j].nextIdx == s.log.Back() + 1 && s.peers[j].matchIdx == 0
  }

  /** Server j has given its vote and is otherwise as it was. */
  ghost predicate Gave(s: Server, s': Server, t: nat, i: nat) {
    s' == s.(term := t, role := Follower, votedFor := i)
  }

  /** All servers but i are as they were, except that some of q have voted for i in term t. */
  ghost predicate Polled(c: Cluster, c': Cluster, i: nat, t: nat, q: set<nat>) {
    && |c'.servers| == |c.servers|
    && forall x {:trigger c'.servers[x]} :: 0 <= x < |c.servers| && x != i ==>
         c'.servers[x] == c.servers[x] || (x in q && Gave(c.servers[x], c'.servers[x], t, i))
  }

  lemma PolledOn(c: Cluster, c1: Cluster, c2: Cluster, i: nat, t: nat, j: nat, q: set<nat>)
    requires Polled(c, c1, i, t, {j}) && Polled(c1, c2, i, t, q) && j !in q
    ensures Polled(c, c2, i, t, q + {j})
  {
    forall x {:trigger c2.servers[x]} | 0 <= x < |c.servers| && x != i
      ensures c2.servers[x] == c.servers[x] || (x in q + {j} && Gave(c.servers[x], c2.servers[x], t, i))
    {
      assert c1.servers[x] == c1.servers[x];
    }
  }

  /** The request reaches member j, which may vote. */
  lemma Grants(run: seq<Cluster>, steps: seq<Step>, i: nat, j: nat) returns (run': seq<Cluster>, steps': seq<Step>)
    requires IsRun(run, steps)
    requires var c := run[|steps|];
             && i < |c.servers| && j < |c.servers| && j != i && c.servers[i].role == Candidate
             && MayVote(c.servers[j], Ask(i, c.servers[i].term, c.servers[i].log.entries))
    ensures Canvasses(run, steps, run', steps')
    ensures var c, c' := run[|steps|], run'[|steps'|];
            var t := c.servers[i].term;
            && |c'.servers| == |c.servers| && VoteRep(j, i, VoteReply(t, true)) in c'.net
            && Gave(c.servers[j], c'.servers[j], t, i)
            && forall x :: 0 <= x < |c.servers| && x != j ==> c'.servers[x] == c.servers[x]
  {
    var c := run[|steps|];
    InvAt(run, steps, |steps|);
    var s, vr := c.servers[j], Ask(i, c.servers[i].term, c.servers[i].log.entries);
    assert ServerInv(j, |c.servers|, s, HistoryAt(run, steps, |steps|));
    Asked(run, steps, |steps|, i, j);
    VoteExactly(s, vr);
    run', steps' := StepOn(run, steps, Deliver(VoteReq(i, j, vr)));
  }

  /** The vote of member j reaches the candidate. */
  lemma Counts(run: seq<Cluster>, steps: seq<Step>, i: nat, j: nat, t: nat, log: seq<Entry>, done: set<nat>)
    returns (run': seq<Cluster>, steps': seq<Step>)
    requires IsRun(run, steps)
    requires var c := run[|steps|];
             && Stands(c, i, t, log, done) && c.servers[i].role == Candidate && j < |c.servers| && j != i
             && VoteRep(j, i, VoteReply(t, true)) in c.net
    ensures Canvasses(run, steps, run', steps')
    ensures var c, c' := run[|steps|], run'[|steps'|];
            && |c'.servers| == |c.servers| && Stands(c', i, t, log, done + {j})
            && forall x :: 0 <= x < |c.servers| && x != i ==> c'.servers[x] == c.servers[x]
  {
    var c := run[|steps|];
    CandidateAt(run, steps, |steps|, i);
    Counted(c.servers[i], i, j, t, log, done);
    run', steps' := StepOn(run, steps, Deliver(VoteRep(j, i, VoteReply(t, true))));
  }

  lemma Counted(s: Server, i: nat, j: nat, t: nat, log: seq<Entry>, done: set<nat>)
    requires Standing(s, i, t, log, done) && s.role == Candidate && s.votedFor == i < |s.peers|
    requires j < |s.peers| && j != i
    ensures Standing(RecvVoteReply(s, j, VoteReply(t, true)), i, t, log, done + {j})
  {
    var r := VoteReply(t, true);
    ElectedExactly(s, j, r);
    VotersNow(s, i, j);
    assert RecvVoteReply(s, j, r).me == i;
  }

  lemma VotersNow(s: Server, i: nat, j: nat)
    requires s.me == i == s.votedFor && i < |s.peers| && j < |s.peers| && j != i
    ensures Voters(s, j) == (Granters(s) + {j}) + {i}
  {
  }

  /** One member more has voted, unless the candidate leads already. */
  lemma OneVote(run: seq<Cluster>, steps: seq<Step>, i: nat, j: nat, t: nat, log: seq<Entry>, done: set<nat>)
    returns (run': seq<Cluster>, steps': seq<Step>)
    requires IsRun(run, steps)
    requires var c := run[|steps|];
             Stands(c, i, t, log, done) && j < |c.servers| && j != i && MayVote(c.servers[j], Ask(i, t, log))
    ensures Canvasses(run, steps, run', steps')
    ensures var c, c' := run[|steps|], run'[|steps'|];
            && |c'.servers| == |c.servers| && Stands(c', i, t, log, done + {j})
            && Polled(c, c', i, t, {j})
  {
    if run[|steps|].servers[i].role == Leader {
      run', steps' := run, steps;
    } else {
      var run1, steps1 := Grants(run, steps, i, j);
      assert Stands(run1[|steps1|], i, t, log, done);
      run', steps' := Counts(run1, steps1, i, j, t, log, done);
      Joined(run, steps, run1, steps1, run', steps');
    }
  }

  /** One member after the other. */
  lemma {:induction false} AllVotes(run: seq<Cluster>, steps: seq<Step>, i: nat, t: nat, log: seq<Entry>,
                                    done: set<nat>, q: set<nat>)
    returns (run': seq<Cluster>, steps': seq<Step>)
    requires IsRun(run, steps) && Stands(run[|steps|], i, t, log, done) && i !in q
    requires var c := run[|steps|];
             forall j <- q :: j < |c.servers| && MayVote(c.servers[j], Ask(i, t, log))
    ensures Canvasses(run, steps, run', steps')
    ensures var c, c' := run[|steps|], run'[|steps'|];
            && |c'.servers| == |c.servers| && Stands(c', i, t, log, done + q)
            && Polled(c, c', i, t, q)
    decreases |q|
  {
    if q == {} {
      run', steps' := run, steps;
      assert done + q == done;
    } else {
      var j :| j in q;
      var run1, steps1 := OneVote(run, steps, i, j, t, log, done);
      var rest := q - {j};
      StillMayVote(run[|steps|], run1[|steps1|], i, t, log, j, rest);
      run', steps' := AllVotes(run1, steps1, i, t, log, done + {j}, rest);
      Joined(run, steps, run1, steps1, run', steps');
      assert done + {j} + rest == done + q && q == rest + {j};
      PolledOn(run[|steps|], run1[|steps1|], run'[|steps'|], i, t, j, rest);
    }
  }

  lemma StillMayVote(c: Cluster, c': Cluster, i: nat, t: nat, log: seq<Entry>, j: nat, rest: set<nat>)
    requires Polled(c, c', i, t, {j}) && j !in rest && i !in rest
    requires forall x <- rest :: x < |c.servers| && MayVote(c.servers[x], Ask(i, t, log))
    ensures forall x <- rest :: x < |c'.servers| && MayVote(c'.servers[x], Ask(i, t, log))
  {
    forall x | x in rest
      ensures x < |c'.servers| && MayVote(c'.servers[x], Ask(i, t, log))
    {
      assert c'.servers[x] == c.servers[x];
    }
  }

  /** Enough votes elect. */
  lemma Elected(s: Server, i: nat, t: nat, log: seq<Entry>, q: set<nat>)
    requires Standing(s, i, t, log, q) && i !in q && |s.peers| < 2 * (|q| + 1) && 2 <= |s.peers|
    ensures JustElected(s)
  {
    if s.role == Candidate && !JustElected(s) {
      assert q + {i} <= Granters(s) + {i} && |q + {i}| == |q| + 1;
      Subset(q + {i}, Granters(s) + {i});
      assert false;
    }
  }

  lemma {:induction false} Subset(a: set<nat>, b: set<nat>)
    requires a <= b
    ensures |a| <= |b|
  {
    assert b == a + (b - a);
  }

  /** From any state of any run: a candidate is elected by a continuation of the run, if a
      majority with itself may still vote in its term and has logs not ahead of its own. It then
      sends what comes after its log, and no log has changed. */
  lemma Electable(run: seq<Cluster>, steps: seq<Step>, i: nat, q: set<nat>)
    returns (run': seq<Cluster>, steps': seq<Step>)
    requires IsRun(run, steps)
    requires var c := run[|steps|];
             && i < |c.servers| && c.servers[i].role == Candidate && i !in q && |c.servers| < 2 * (|q| + 1)
             && forall j <- q :: j < |c.servers|
                                 && MayVote(c.servers[j], Ask(i, c.servers[i].term, c.servers[i].log.entries))
    ensures Canvasses(run, steps, run', steps')
    ensures var c, c' := run[|steps|], run'[|steps'|];
            var t := c.servers[i].term;
            && |c'.servers| == |c.servers| && Leads(c', i, t) && JustElected(c'.servers[i])
            && c'.servers[i].log == c.servers[i].log
            && Polled(c, c', i, t, q)
  {
    var c := run[|steps|];
    var t, log := c.servers[i].term, c.servers[i].log.entries;
    InvAt(run, steps, |steps|);
    assert ServerInv(i, |c.servers|, c.servers[i], HistoryAt(run, steps, |steps|));
    assert Stands(c, i, t, log, {});
    run', steps' := AllVotes(run, steps, i, t, log, {}, q);
    assert {} + q == q;
    InvAt(run', steps', |steps'|);
    var s := run'[|steps'|].servers[i];
    assert ServerInv(i, |c.servers|, s, HistoryAt(run', steps', |steps'|));
    Elected(s, i, t, log, q);
  }

  /** From any state of any run: a server that does not lead can lead the next term, if a
      majority with itself is of no later term and has logs not ahead of its own. */
  lemma CanLead(run: seq<Cluster>, steps: seq<Step>, i: nat, q: set<nat>)
    returns (run': seq<Cluster>, steps': seq<Step>)
    requires IsRun(run, steps)
    requires var c := run[|steps|];
             && i < |c.servers| && c.servers[i].role != Leader && i !in q && |c.servers| < 2 * (|q| + 1)
             && forall j <- q :: && j < |c.servers| && c.servers[j].term <= c.servers[i].term
                                 && NotAhead(c.servers[j].log, LastTermOf(c.servers[i].log.entries),
                                             |c.servers[i].log.entries|)
    ensures Canvasses(run, steps, run', steps')
    ensures var c, c' := run[|steps|], run'[|steps'|];
            var t := c.servers[i].term + 1;
            && |c'.servers| == |c.servers| && Leads(c', i, t) && JustElected(c'.servers[i])
            && c'.servers[i].log == c.servers[i].log
            && Polled(c, c', i, t, q)
  {
    var run1, steps1 := TimesOut(run, steps, i);
    run', steps' := Electable(run1, steps1, i, q);
    Joined(run, steps, run1, steps1, run', steps');
  }

  lemma TimesOut(run: seq<Cluster>, steps: seq<Step>, i: nat) returns (run': seq<Cluster>, steps': seq<Step>)
    requires IsRun(run, steps)
    requires var c := run[|steps|]; i < |c.servers| && c.servers[i].role != Leader
    ensures Canvasses(run, steps, run', steps')
    ensures var c, c' := run[|steps|], run'[|steps'|];
            && |c'.servers| == |c.servers| && c'.servers[i].role == Candidate
            && c'.servers[i].term == c.servers[i].term + 1 && c'.servers[i].log == c.servers[i].log
            && forall x :: 0 <= x < |c.servers| && x != i ==> c'.servers[x] == c.servers[x]
  {
    var c := run[|steps|];
    InvAt(run, steps, |steps|);
    assert ServerInv(i, |c.servers|, c.servers[i], HistoryAt(run, steps, |steps|));
    TickRequests(c.servers[i], true);
    TickStands(c.servers[i]);
    run', steps' := StepOn(run, steps, Timer(i, true));
  }

  lemma TickStands(s: Server)
    requires 2 <= |s.peers| && s.role != Leader && s.logBase == 0
    ensures Tick(s, true, NoCheckpoint()).role == Candidate && Tick(s, true, NoCheckpoint()).term == s.term + 1
  {
    ApplyAllKeeps(BecomeCandidate(s));
  }
}
