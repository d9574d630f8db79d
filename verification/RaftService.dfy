/** What a cluster can always still do for a client. From any state of a run without the two
    steps that break safety, a server whose log is not behind a majority's can be elected,
    bring that majority up to date, take an entry, and have all of them deliver it. */
module RaftService {
  import opened Common
  import opened LogModel
  import opened RaftTypes
  import opened RaftServer
  import opened RaftCluster
  import opened RaftInvariant
  import opened RaftTheorems
  import opened RaftPast
  import opened RaftComplete
  import opened RaftStateMachine
  import opened ServerOrder
  import opened RaftAnswers
  import opened RaftElect
  import opened RaftCatchUp
  import opened RaftProgress

  // ----- a client's entry -----

  /** The follower lacks the leader's last entry and nothing else. */
  ghost predicate OneBehind(p: Pair, j: nat) {
    && p.leader.log.entries != [] && Paired(p, j, |p.leader.log.entries| - 1)
    && NextOf(p, j) == |p.leader.log.entries| && MatchOf(p, j) == |p.leader.log.entries| - 1
  }

  ghost predicate Part(p: Pair, j: nat, behind: bool) {
    if behind then OneBehind(p, j) else InStep(p, j)
  }

  /** Server i leads with this log; of the members q, those in `todo` lack its last entry and
      the others are up to date. */
  ghost predicate Offering(c: Cluster, i: nat, l: seq<Entry>, q: set<nat>, todo: set<nat>) {
    && i < |c.servers| && c.servers[i].role == Leader && c.servers[i].log.entries == l && i !in q
    && forall j {:trigger j in q} :: j in q ==> j < |c.servers| && Part(PairAt(c, i, j), j, j in todo)
  }

  /** No log has an entry of the leader's term beyond the leader's log. */
  lemma NoneBeyond(run: seq<Cluster>, steps: seq<Step>, i: nat, t: nat, j: nat)
    requires IsRun(run, steps) && Leads(run[|steps|], i, t) && j < |run[|steps|].servers|
    ensures var f, l := run[|steps|].servers[j].log.entries, run[|steps|].servers[i].log.entries;
            |l| < |f| ==> f[|l|].term != t
  {
    var k := |steps|;
    var c, h := run[k], HistoryAt(run, steps, k);
    InvAt(run, steps, k);
    assert ServerInv(i, |c.servers|, c.servers[i], h) && ServerInv(j, |c.servers|, c.servers[j], h);
    var f, l := c.servers[j].log.entries, c.servers[i].log.entries;
    if |l| < |f| {
      assert JustifiedAt(f, |l|, h);
    }
  }

  lemma NowBehind(p: Pair, j: nat, s': Server, e: Entry)
    requires InStep(p, j) && e.term == p.leader.term && Ordered(s')
    requires s' == p.leader.(log := Log(0, p.leader.log.entries + [e]))
    requires |p.leader.log.entries| < |p.follower.log.entries| ==>
               p.follower.log.entries[|p.leader.log.entries|].term != e.term
    ensures OneBehind(Pair(s', p.follower), j)
  {
    var f, l := p.follower.log.entries, p.leader.log.entries;
    assert Agrees(f, l + [e], |l|);
  }

  lemma ClientStep(run: seq<Cluster>, steps: seq<Step>, i: nat, t: nat, d: int)
    returns (run': seq<Cluster>, steps': seq<Step>, s': Server)
    requires GoesOn(run, steps, run, steps, i, t)
    ensures GoesOn(run, steps, run', steps', i, t) && run'[|steps'|].servers == run[|steps|].servers[i := s']
    ensures var s := run[|steps|].servers[i];
            s' == s.(log := Log(0, s.log.entries + [Entry(t, d)])) && Ordered(s')
  {
    var c := run[|steps|];
    var s := c.servers[i];
    InvAt(run, steps, |steps|);
    assert ServerInv(i, |c.servers|, s, HistoryAt(run, steps, |steps|));
    OrderedAt(run, steps, |steps|, i);
    s' := ClientTakes(s, t, d);
    run', steps' := StepOn(run, steps, Client(i, [d]));
  }

  lemma ClientTakes(s: Server, t: nat, d: int) returns (s': Server)
    requires Ordered(s) && s.role == Leader && s.term == t && s.log.front == 0 && 2 <= |s.peers|
    ensures s' == RecvEntries(s, [d]) == s.(log := Log(0, s.log.entries + [Entry(t, d)])) && Ordered(s')
  {
    EntriesOrdered(s, [d]);
    TakenExactly(s, [d]);
    s' := RecvEntries(s, [d]);
    assert s'.log.entries == s.log.entries + [Entry(t, d)];
  }

  lemma TakesEntry(run: seq<Cluster>, steps: seq<Step>, i: nat, t: nat, l: seq<Entry>, q: set<nat>, d: int)
    returns (run': seq<Cluster>, steps': seq<Step>)
    requires GoesOn(run, steps, run, steps, i, t) && Leading(run[|steps|], i, l, q, {})
    ensures GoesOn(run, steps, run', steps', i, t) && Offering(run'[|steps'|], i, l + [Entry(t, d)], q, q)
    ensures |run'[|steps'|].servers| == |run[|steps|].servers|
  {
    var c := run[|steps|];
    var s';
    run', steps', s' := ClientStep(run, steps, i, t, d);
    var c' := run'[|steps'|];
    forall j {:trigger j in q} | j in q
      ensures j < |c'.servers| && Part(PairAt(c', i, j), j, true)
    {
      NoneBeyond(run, steps, i, t, j);
      EntryBehind(c, i, l, q, j, s', Entry(t, d));
    }
  }

  lemma EntryBehind(c: Cluster, i: nat, l: seq<Entry>, q: set<nat>, j: nat, s': Server, e: Entry)
    requires Leading(c, i, l, q, {}) && j in q && e.term == c.servers[i].term && Ordered(s')
    requires s' == c.servers[i].(log := Log(0, l + [e]))
    requires |l| < |c.servers[j].log.entries| ==> c.servers[j].log.entries[|l|].term != e.term
    ensures Part(Pair(s', c.servers[j]), j, true)
  {
    assert Stage(PairAt(c, i, j), j, false);
    NowBehind(PairAt(c, i, j), j, s', e);
  }

  lemma OtherParts(s: Server, s': Server, j: nat, f: Server, x: nat, behind: bool)
    requires LeaderKept(s, s', j) && x != j && Part(Pair(s, f), x, behind)
    ensures Part(Pair(s', f), x, behind)
  {
    OtherPairs(s, s', j, f, x);
  }

  lemma OfferingOn(c: Cluster, c': Cluster, i: nat, l: seq<Entry>, q: set<nat>, todo: set<nat>, j: nat, p': Pair)
    requires Offering(c, i, l, q, todo) && j in q && InStep(p', j)
    requires c'.servers == c.servers[i := p'.leader][j := p'.follower] && LeaderKept(c.servers[i], p'.leader, j)
    ensures Offering(c', i, l, q, todo - {j})
  {
    forall x {:trigger x in q} | x in q
      ensures x < |c'.servers| && Part(PairAt(c', i, x), x, x in todo - {j})
    {
      if x != j {
        OtherParts(c.servers[i], p'.leader, j, c.servers[x], x, x in todo);
        assert PairAt(c', i, x) == Pair(p'.leader, c.servers[x]);
      }
    }
  }

  /** A round with one entry brings a follower that is one behind in step, and commits the entry
      if a majority has it now. */
  lemma RoundTakes(p: Pair, j: nat, n: nat, sent: nat) returns (p': Pair)
    requires OneBehind(p, j)
    ensures Round(p, j, n, sent) == Some(p') && InStep(p', j) && LeaderKept(p.leader, p'.leader, j)
    ensures var all := |p.leader.log.entries|;
            |p.leader.peers| < 2 * (1 + |Behind(p'.leader, all)|) ==> all <= p'.leader.commit
  {
    p' := RoundAccepted(p, j, n, sent, |p.leader.log.entries| - 1);
    MovedTakes(p, p', j, n);
  }

  lemma MovedTakes(p: Pair, p': Pair, j: nat, n: nat)
    requires OneBehind(p, j)
    requires Moved(p, p', j, |p.leader.log.entries| - 1, NextOf(p, j) - 1, NextOf(p, j) - 1 + Size(p.leader, j, n))
    ensures InStep(p', j) && LeaderKept(p.leader, p'.leader, j)
    ensures var all := |p.leader.log.entries|;
            |p.leader.peers| < 2 * (1 + |Behind(p'.leader, all)|) ==> all <= p'.leader.commit
  {
    var all := |p.leader.log.entries|;
    assert Size(p.leader, j, n) == 1;
    var a' := AcceptedOn(p, p', j, all - 1, all - 1, all);
  }

  lemma TakesOne(run: seq<Cluster>, steps: seq<Step>, i: nat, t: nat, l: seq<Entry>, q: set<nat>, todo: set<nat>,
                 j: nat)
    returns (run': seq<Cluster>, steps': seq<Step>)
    requires GoesOn(run, steps, run, steps, i, t) && Offering(run[|steps|], i, l, q, todo) && j in todo && j in q
    ensures GoesOn(run, steps, run', steps', i, t) && Offering(run'[|steps'|], i, l, q, todo - {j})
    ensures |run'[|steps'|].servers| == |run[|steps|].servers|
    ensures var s' := run'[|steps'|].servers[i];
            |s'.peers| < 2 * (1 + |Behind(s', |l|)|) ==> |l| <= s'.commit
  {
    var c := run[|steps|];
    Placed(run, steps, i);
    assert Part(PairAt(c, i, j), j, true);
    var p' := RoundTakes(PairAt(c, i, j), j, 1, 1);
    run', steps' := RoundInRun(run, steps, i, j, 1, 1, p');
    OfferingOn(c, run'[|steps'|], i, l, q, todo, j, p');
  }

  /** Followers in step with a last entry of the leader's own term are behind it. */
  lemma AllBehind(c: Cluster, i: nat, t: nat, l: seq<Entry>, q: set<nat>)
    requires Offering(c, i, l, q, {}) && c.servers[i].term == t && c.servers[i].me == i
    requires l != [] && l[|l| - 1].term == t
    ensures |q| <= |Behind(c.servers[i], |l|)|
  {
    var s := c.servers[i];
    forall j | j in q
      ensures j in Behind(s, |l|)
    {
      assert Part(PairAt(c, i, j), j, false);
    }
    Subset(q, Behind(s, |l|));
  }

  lemma {:induction false} TakesAll(run: seq<Cluster>, steps: seq<Step>, i: nat, t: nat, l: seq<Entry>, q: set<nat>,
                                    todo: set<nat>)
    returns (run': seq<Cluster>, steps': seq<Step>)
    requires GoesOn(run, steps, run, steps, i, t) && Offering(run[|steps|], i, l, q, todo) && todo <= q && todo != {}
    requires l != [] && l[|l| - 1].term == t && |run[|steps|].servers| < 2 * (1 + |q|)
    ensures GoesOn(run, steps, run', steps', i, t) && Offering(run'[|steps'|], i, l, q, {})
    ensures |l| <= run'[|steps'|].servers[i].commit
    decreases |todo|
  {
    var j :| j in todo;
    var run1, steps1 := TakesOne(run, steps, i, t, l, q, todo, j);
    if todo == {j} {
      run', steps' := run1, steps1;
      assert todo - {j} == {};
      InvAt(run', steps', |steps'|);
      var c' := run'[|steps'|];
      assert ServerInv(i, |c'.servers|, c'.servers[i], HistoryAt(run', steps', |steps'|));
      AllBehind(c', i, t, l, q);
    } else {
      run', steps' := TakesAll(run1, steps1, i, t, l, q, todo - {j});
      GoesOnOn(run, steps, run1, steps1, run', steps', i, t);
    }
  }

  // ----- telling the followers -----

  /** Those of q that are not in `todo` know that the whole log is committed. */
  ghost predicate Knowing(c: Cluster, l: seq<Entry>, q: set<nat>, todo: set<nat>) {
    forall j {:trigger j in q} :: j in q && j !in todo ==> j < |c.servers| && |l| <= c.servers[j].commit
  }

  /** A round with nothing to send carries the commit index. */
  lemma RoundTells(p: Pair, j: nat, n: nat, sent: nat) returns (p': Pair)
    requires InStep(p, j)
    ensures Round(p, j, n, sent) == Some(p') && InStep(p', j) && LeaderKept(p.leader, p'.leader, j)
    ensures var all := |p.leader.log.entries|;
            all <= p.leader.commit ==> all <= p'.leader.commit && all <= p'.follower.commit
  {
    p' := RoundAccepted(p, j, n, sent, |p.leader.log.entries|);
    MovedTells(p, p', j, n);
  }

  lemma MovedTells(p: Pair, p': Pair, j: nat, n: nat)
    requires InStep(p, j)
    requires Moved(p, p', j, |p.leader.log.entries|, NextOf(p, j) - 1, NextOf(p, j) - 1 + Size(p.leader, j, n))
    ensures InStep(p', j) && LeaderKept(p.leader, p'.leader, j)
    ensures var all := |p.leader.log.entries|;
            all <= p.leader.commit ==> all <= p'.leader.commit && all <= p'.follower.commit
  {
    var all := |p.leader.log.entries|;
    assert Size(p.leader, j, n) == 0;
    var a' := AcceptedOn(p, p', j, all, all, all);
    assert all <= |Taken(p.follower.log.entries, p.leader.log.entries, all, all, all)|;
  }

  lemma TellsOne(run: seq<Cluster>, steps: seq<Step>, i: nat, t: nat, l: seq<Entry>, q: set<nat>, todo: set<nat>,
                 j: nat)
    returns (run': seq<Cluster>, steps': seq<Step>)
    requires GoesOn(run, steps, run, steps, i, t) && Offering(run[|steps|], i, l, q, {}) && j in todo && j in q
    requires Knowing(run[|steps|], l, q, todo) && |l| <= run[|steps|].servers[i].commit
    ensures GoesOn(run, steps, run', steps', i, t) && Offering(run'[|steps'|], i, l, q, {})
    ensures Knowing(run'[|steps'|], l, q, todo - {j}) && |l| <= run'[|steps'|].servers[i].commit
  {
    var c := run[|steps|];
    Placed(run, steps, i);
    assert Part(PairAt(c, i, j), j, false);
    var p' := RoundTells(PairAt(c, i, j), j, 1, 1);
    run', steps' := RoundInRun(run, steps, i, j, 1, 1, p');
    OfferingOn(c, run'[|steps'|], i, l, q, {}, j, p');
    assert {} - {j} == {};
    KnowingOn(c, run'[|steps'|], i, l, q, todo, j, p');
  }

  lemma KnowingOn(c: Cluster, c': Cluster, i: nat, l: seq<Entry>, q: set<nat>, todo: set<nat>, j: nat, p': Pair)
    requires Knowing(c, l, q, todo) && i < |c.servers| && j < |c.servers| && i !in q && |l| <= p'.follower.commit
    requires c'.servers == c.servers[i := p'.leader][j := p'.follower]
    ensures Knowing(c', l, q, todo - {j})
  {
  }

  lemma {:induction false} TellsAll(run: seq<Cluster>, steps: seq<Step>, i: nat, t: nat, l: seq<Entry>, q: set<nat>,
                                    todo: set<nat>)
    returns (run': seq<Cluster>, steps': seq<Step>)
    requires GoesOn(run, steps, run, steps, i, t) && Offering(run[|steps|], i, l, q, {}) && todo <= q
    requires Knowing(run[|steps|], l, q, todo) && |l| <= run[|steps|].servers[i].commit
    ensures GoesOn(run, steps, run', steps', i, t) && Offering(run'[|steps'|], i, l, q, {})
    ensures Knowing(run'[|steps'|], l, q, {}) && |l| <= run'[|steps'|].servers[i].commit
    decreases |todo|
  {
    if todo == {} {
      run', steps' := run, steps;
    } else {
      var j :| j in todo;
      var run1, steps1 := TellsOne(run, steps, i, t, l, q, todo, j);
      run', steps' := TellsAll(run1, steps1, i, t, l, q, todo - {j});
      GoesOnOn(run, steps, run1, steps1, run', steps', i, t);
    }
  }

  // ----- delivering -----

  /** The server has all of l committed, and delivered unless it is still to come. */
  ghost predicate Committed(s: Server, l: seq<Entry>, toCome: bool) {
    l <= s.log.entries && |l| <= s.commit && (toCome || l <= s.delivered)
  }

  ghost predicate AllCommitted(c: Cluster, l: seq<Entry>, q: set<nat>, todo: set<nat>) {
    forall j {:trigger j in q} :: j in q ==> j < |c.servers| && Committed(c.servers[j], l, j in todo)
  }

  lemma TickDelivers(s: Server, l: seq<Entry>)
    requires Ordered(s) && Committed(s, l, true) && s.log.front == 0 && s.logBase == 0 && 2 <= |s.peers|
    ensures Committed(Tick(s, false, NoCheckpoint()), l, false)
  {
    var s' := Tick(s, false, NoCheckpoint());
    TickCompacts(s, false, NoCheckpoint());
    TickRequests(s, false);
    DeliveredPrefix(s');
  }

  lemma DeliversOne(run: seq<Cluster>, steps: seq<Step>, l: seq<Entry>, q: set<nat>, todo: set<nat>, j: nat)
    returns (run': seq<Cluster>, steps': seq<Step>)
    requires IsRun(run, steps) && AllCommitted(run[|steps|], l, q, todo) && j in q
    ensures IsRun(run', steps') && run <= run' && steps <= steps' && AllCommitted(run'[|steps'|], l, q, todo - {j})
  {
    var c := run[|steps|];
    InvAt(run, steps, |steps|);
    assert ServerInv(j, |c.servers|, c.servers[j], HistoryAt(run, steps, |steps|));
    OrderedAt(run, steps, |steps|, j);
    TickDelivers(c.servers[j], l);
    run', steps' := StepOn(run, steps, Timer(j, false));
  }

  lemma {:induction false} DeliversAll(run: seq<Cluster>, steps: seq<Step>, l: seq<Entry>, q: set<nat>, todo: set<nat>)
    returns (run': seq<Cluster>, steps': seq<Step>)
    requires IsRun(run, steps) && AllCommitted(run[|steps|], l, q, todo) && todo <= q
    ensures IsRun(run', steps') && run <= run' && steps <= steps' && AllCommitted(run'[|steps'|], l, q, {})
    decreases |todo|
  {
    if todo == {} {
      run', steps' := run, steps;
    } else {
      var j :| j in todo;
      var run1, steps1 := DeliversOne(run, steps, l, q, todo, j);
      run', steps' := DeliversAll(run1, steps1, l, q, todo - {j});
    }
  }

  lemma NowCommitted(c: Cluster, i: nat, l: seq<Entry>, q: set<nat>)
    requires Offering(c, i, l, q, {}) && Knowing(c, l, q, {}) && |l| <= c.servers[i].commit
    ensures AllCommitted(c, l, q + {i}, q + {i})
  {
    forall j {:trigger j in q + {i}} | j in q + {i}
      ensures j < |c.servers| && Committed(c.servers[j], l, true)
    {
      if j != i {
        assert j in q && Part(PairAt(c, i, j), j, false);
      }
    }
  }

  // ----- the theorem -----

  /** Votes and timers do not harm. */
  lemma CanvassCareful(run: seq<Cluster>, steps: seq<Step>, run': seq<Cluster>, steps': seq<Step>)
    requires IsRun(run, steps) && Careful(run, steps) && Canvasses(run, steps, run', steps')
    ensures Careful(run', steps')
  {
    forall k {:trigger steps'[k]} | 0 <= k < |steps'| && k < |run'|
      ensures !Drops(run'[k], steps'[k]) && !Overcommits(run'[k], steps'[k])
    {
      if k < |steps| {
        assert steps'[k] == steps[k] && run'[k] == run[k];
      } else {
        assert Voting(steps'[k]);
      }
    }
  }

  /** A server that times out often enough is in no earlier term than any other. */
  lemma {:induction false} RaisesTerm(run: seq<Cluster>, steps: seq<Step>, i: nat, top: nat)
    returns (run': seq<Cluster>, steps': seq<Step>)
    requires IsRun(run, steps) && i < |run[|steps|].servers| && run[|steps|].servers[i].role != Leader
    ensures Canvasses(run, steps, run', steps')
    ensures var c, c' := run[|steps|], run'[|steps'|];
            && |c'.servers| == |c.servers| && c'.servers[i].role != Leader && top <= c'.servers[i].term
            && c'.servers[i].log == c.servers[i].log
            && forall x {:trigger c'.servers[x]} :: 0 <= x < |c.servers| && x != i ==> c'.servers[x] == c.servers[x]
    decreases top - run[|steps|].servers[i].term
  {
    if top <= run[|steps|].servers[i].term {
      run', steps' := run, steps;
    } else {
      var run1, steps1 := TimesOut(run, steps, i);
      run', steps' := RaisesTerm(run1, steps1, i, top);
      Joined(run, steps, run1, steps1, run', steps');
    }
  }

  lemma {:induction false} GreatestTerm(ss: seq<Server>) returns (top: nat)
    ensures forall x {:trigger ss[x]} :: 0 <= x < |ss| ==> ss[x].term <= top
  {
    if ss == [] {
      top := 0;
    } else {
      var n := |ss| - 1;
      var rest := GreatestTerm(ss[..n]);
      top := Later(rest, ss[n].term);
      assert forall x {:trigger ss[x]} :: 0 <= x < n ==> ss[x] == ss[..n][x];
    }
  }

  /** The members of q, which with server i are a majority, have logs not ahead of its log. */
  ghost predicate Preferred(c: Cluster, i: nat, q: set<nat>) {
    && i < |c.servers| && c.servers[i].role != Leader && i !in q && |c.servers| < 2 * (|q| + 1)
    && forall j {:trigger j in q} :: j in q ==>
         && j < |c.servers|
         && NotAhead(c.servers[j].log, LastTermOf(c.servers[i].log.entries), |c.servers[i].log.entries|)
  }

  /** Such a server can lead a term that is later than all. */
  lemma TakesOffice(run: seq<Cluster>, steps: seq<Step>, i: nat, q: set<nat>)
    returns (run': seq<Cluster>, steps': seq<Step>, t: nat)
    requires IsRun(run, steps) && Preferred(run[|steps|], i, q)
    ensures Canvasses(run, steps, run', steps')
    ensures var c, c' := run[|steps|], run'[|steps'|];
            && |c'.servers| == |c.servers| && LeadsLatest(c', i, t) && JustElected(c'.servers[i])
            && c'.servers[i].log == c.servers[i].log
  {
    var top := GreatestTerm(run[|steps|].servers);
    var run1, steps1 := RaisesTerm(run, steps, i, top);
    var c1 := run1[|steps1|];
    forall j {:trigger j in q} | j in q
      ensures && j < |c1.servers| && c1.servers[j].term <= c1.servers[i].term
              && NotAhead(c1.servers[j].log, LastTermOf(c1.servers[i].log.entries), |c1.servers[i].log.entries|)
    {
      assert c1.servers[j] == run[|steps|].servers[j];
    }
    run', steps' := CanLead(run1, steps1, i, q);
    Joined(run, steps, run1, steps1, run', steps');
    t := c1.servers[i].term + 1;
    LatestNow(run[|steps|], c1, run'[|steps'|], i, q, t, top);
  }

  lemma LatestNow(c: Cluster, c1: Cluster, c': Cluster, i: nat, q: set<nat>, t: nat, top: nat)
    requires |c'.servers| == |c1.servers| == |c.servers| && Leads(c', i, t) && Polled(c1, c', i, t, q) && top <= t
    requires forall x {:trigger c.servers[x]} :: 0 <= x < |c.servers| ==> c.servers[x].term <= top
    requires forall x {:trigger c1.servers[x]} :: 0 <= x < |c.servers| && x != i ==> c1.servers[x] == c.servers[x]
    ensures LeadsLatest(c', i, t)
  {
    forall x {:trigger c'.servers[x]} | 0 <= x < |c'.servers|
      ensures c'.servers[x].term <= t
    {
      assert x != i ==> c1.servers[x] == c.servers[x];
    }
  }

  lemma NowLeading(run: seq<Cluster>, steps: seq<Step>, i: nat, t: nat, q: set<nat>)
    requires IsRun(run, steps) && Careful(run, steps) && LeadsLatest(run[|steps|], i, t)
    requires JustElected(run[|steps|].servers[i]) && i !in q && forall j <- q :: j < |run[|steps|].servers|
    ensures Leading(run[|steps|], i, run[|steps|].servers[i].log.entries, q, q)
  {
    var c := run[|steps|];
    InvAt(run, steps, |steps|);
    assert ServerInv(i, |c.servers|, c.servers[i], HistoryAt(run, steps, |steps|));
    forall j {:trigger j in q} | j in q
      ensures j < |c.servers| && Stage(PairAt(c, i, j), j, true)
    {
      var a := PairedInRun(run, steps, i, t, j);
      assert Untried(PairAt(c, i, j), j);
    }
  }

  lemma EntryOffered(run: seq<Cluster>, steps: seq<Step>, i: nat, t: nat, l: seq<Entry>, q: set<nat>, d: int)
    returns (run': seq<Cluster>, steps': seq<Step>)
    requires GoesOn(run, steps, run, steps, i, t) && Leading(run[|steps|], i, l, q, q)
    ensures GoesOn(run, steps, run', steps', i, t) && Offering(run'[|steps'|], i, l + [Entry(t, d)], q, q)
  {
    var run1, steps1 := BringsAllUp(run, steps, i, t, l, q, q);
    run', steps' := TakesEntry(run1, steps1, i, t, l, q, d);
    GoesOnOn(run, steps, run1, steps1, run', steps', i, t);
  }

  lemma EntryCommitted(run: seq<Cluster>, steps: seq<Step>, i: nat, t: nat, l: seq<Entry>, q: set<nat>)
    returns (run': seq<Cluster>, steps': seq<Step>)
    requires GoesOn(run, steps, run, steps, i, t) && Offering(run[|steps|], i, l, q, q)
    requires l != [] && l[|l| - 1].term == t && |run[|steps|].servers| < 2 * (1 + |q|) && q != {}
    ensures GoesOn(run, steps, run', steps', i, t) && AllCommitted(run'[|steps'|], l, q + {i}, q + {i})
  {
    var run1, steps1 := TakesAll(run, steps, i, t, l, q, q);
    run', steps' := TellsAll(run1, steps1, i, t, l, q, q);
    GoesOnOn(run, steps, run1, steps1, run', steps', i, t);
    NowCommitted(run'[|steps'|], i, l, q);
  }

  lemma EntryServed(run: seq<Cluster>, steps: seq<Step>, i: nat, t: nat, l: seq<Entry>, q: set<nat>, d: int)
    returns (run': seq<Cluster>, steps': seq<Step>)
    requires GoesOn(run, steps, run, steps, i, t) && Leading(run[|steps|], i, l, q, q)
    requires |run[|steps|].servers| < 2 * (1 + |q|) && q != {}
    ensures IsRun(run', steps') && run <= run' && steps <= steps'
    ensures AllCommitted(run'[|steps'|], l + [Entry(t, d)], q + {i}, {})
  {
    var run1, steps1 := EntryOffered(run, steps, i, t, l, q, d);
    SameCount(run, steps, run1, steps1);
    var run2, steps2 := EntryCommitted(run1, steps1, i, t, l + [Entry(t, d)], q);
    GoesOnOn(run, steps, run1, steps1, run2, steps2, i, t);
    run', steps' := DeliversAll(run2, steps2, l + [Entry(t, d)], q + {i}, q + {i});
  }

  lemma SameCount(run: seq<Cluster>, steps: seq<Step>, run': seq<Cluster>, steps': seq<Step>)
    requires IsRun(run, steps) && IsRun(run', steps') && run <= run' && steps <= steps'
    ensures |run'[|steps'|].servers| == |run[|steps|].servers|
  {
    ServersCount(run, steps, |steps|);
    ServersCount(run', steps', |steps'|);
  }

  /** From any state of a run without the two steps that break safety: if the logs of a majority
      are not ahead of a server's, the run can go on so that all of them deliver what that
      server has and, after it, whatever a client brings. */
  lemma CanServe(run: seq<Cluster>, steps: seq<Step>, i: nat, q: set<nat>, d: int)
    returns (run': seq<Cluster>, steps': seq<Step>, t: nat)
    requires IsRun(run, steps) && Careful(run, steps) && Preferred(run[|steps|], i, q)
    ensures IsRun(run', steps') && run <= run' && steps <= steps'
    ensures var l := run[|steps|].servers[i].log.entries;
            forall j {:trigger j in q + {i}} :: j in q + {i} ==>
              j < |run'[|steps'|].servers| && l + [Entry(t, d)] <= run'[|steps'|].servers[j].delivered
  {
    InvAt(run, steps, |steps|);
    var run1, steps1;
    run1, steps1, t := TakesOffice(run, steps, i, q);
    CanvassCareful(run, steps, run1, steps1);
    NowLeading(run1, steps1, i, t, q);
    run', steps' := EntryServed(run1, steps1, i, t, run[|steps|].servers[i].log.entries, q, d);
  }
}
