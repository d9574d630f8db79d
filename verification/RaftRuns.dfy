/** Explicit runs of three servers, step by step, that avoid one of the two steps a careful
    run excludes. */
module RaftRuns {
  import opened LogModel
  import opened RaftTypes
  import opened RaftServer
  import opened RaftCluster
  import opened RaftComplete
  import opened RaftStateMachine
  import RT = RaftTheorems

  datatype Avoid = NoDrop | NoOvercommit

  ghost predicate Avoided(av: Avoid, c: Cluster, st: Step) {
    if av == NoDrop then !Drops(c, st) else !Overcommits(c, st)
  }

  ghost predicate AvoidedThrough(av: Avoid, run: seq<Cluster>, steps: seq<Step>) {
    forall k {:trigger steps[k]} :: 0 <= k < |steps| && k < |run| ==> Avoided(av, run[k], steps[k])
  }

  ghost predicate Reached(av: Avoid, c: Cluster) {
    exists run, steps :: IsRun(run, steps) && AvoidedThrough(av, run, steps) && run[|steps|] == c
  }

  lemma AvoidOn(av: Avoid, run: seq<Cluster>, steps: seq<Step>, st: Step, c': Cluster)
    requires |run| == |steps| + 1 && AvoidedThrough(av, run, steps) && Avoided(av, run[|steps|], st)
    ensures AvoidedThrough(av, run + [c'], steps + [st])
  {
    var run', steps' := run + [c'], steps + [st];
    forall k {:trigger steps'[k]} | 0 <= k < |steps'|
      ensures Avoided(av, run'[k], steps'[k])
    {
      if k < |steps| {
        assert steps'[k] == steps[k];
      }
    }
  }

  /** Server i takes a step of the run and becomes s'. */
  lemma Then(av: Avoid, c: Cluster, st: Step, i: nat, s': Server, out: set<Message>, c': Cluster)
    requires Reached(av, c) && i < |c.servers| && EffectOf(c, st) == Effect(i, s', out) && Avoided(av, c, st)
    requires |c'.servers| == |c.servers| && c'.net == c.net + out
    requires forall j :: 0 <= j < |c.servers| ==> c'.servers[j] == if j == i then s' else c.servers[j]
    ensures Reached(av, c')
  {
    assert c'.servers == c.servers[i := s'];
    var run, steps :| IsRun(run, steps) && AvoidedThrough(av, run, steps) && run[|steps|] == c;
    RT.RunOn(run, steps, st, c');
    AvoidOn(av, run, steps, st, c');
    assert (run + [c'])[|steps + [st]|] == c';
  }

  // ----- three servers -----

  ghost predicate At(av: Avoid, a: Server, b: Server, c: Server, net: set<Message>) {
    Reached(av, Cluster([a, b, c], net))
  }

  lemma MoveA(av: Avoid, a: Server, b: Server, c: Server, net: set<Message>, st: Step, a': Server, out: set<Message>)
    requires At(av, a, b, c, net) && EffectOf(Cluster([a, b, c], net), st) == Effect(0, a', out)
    requires Avoided(av, Cluster([a, b, c], net), st)
    ensures At(av, a', b, c, net + out)
  {
    Then(av, Cluster([a, b, c], net), st, 0, a', out, Cluster([a', b, c], net + out));
  }

  lemma MoveB(av: Avoid, a: Server, b: Server, c: Server, net: set<Message>, st: Step, b': Server, out: set<Message>)
    requires At(av, a, b, c, net) && EffectOf(Cluster([a, b, c], net), st) == Effect(1, b', out)
    requires Avoided(av, Cluster([a, b, c], net), st)
    ensures At(av, a, b', c, net + out)
  {
    Then(av, Cluster([a, b, c], net), st, 1, b', out, Cluster([a, b', c], net + out));
  }

  lemma MoveC(av: Avoid, a: Server, b: Server, c: Server, net: set<Message>, st: Step, c': Server, out: set<Message>)
    requires At(av, a, b, c, net) && EffectOf(Cluster([a, b, c], net), st) == Effect(2, c', out)
    requires Avoided(av, Cluster([a, b, c], net), st)
    ensures At(av, a, b, c', net + out)
  {
    Then(av, Cluster([a, b, c], net), st, 2, c', out, Cluster([a, b, c'], net + out));
  }

  function Srv(me: nat, term: nat, vote: int, role: Role, log: seq<Entry>, commit: nat, peers: seq<Peer>,
               delivered: seq<Entry>): Server
  {
    Server(me, term, vote, role, Log(0, log), commit, |delivered|, 0, 0, 10, peers, delivered)
  }

  const NEW := Peer(1, 0, false)

  function Follows(me: nat, term: nat, vote: int, log: seq<Entry>): Server {
    Srv(me, term, vote, Follower, log, 0, [NEW, NEW, NEW], [])
  }

  lemma Starts(av: Avoid)
    ensures At(av, Follows(0, 0, -1, []), Follows(1, 0, -1, []), Follows(2, 0, -1, []), {})
  {
    var c := Cluster([Follows(0, 0, -1, []), Follows(1, 0, -1, []), Follows(2, 0, -1, [])], {});
    assert seq(3, _ => NEW) == [NEW, NEW, NEW];
    var none: seq<Step> := [];
    assert IsRun([c], none) && AvoidedThrough(av, [c], none) && [c][|none|] == c;
  }

  // ----- server 0 leads term 1 -----

  /** Server 0 as the leader of term 1, with next indices n1 and n2 for the others. */
  function Zero(log: seq<Entry>, n1: nat, n2: nat): Server {
    Srv(0, 1, 0, Leader, log, 0, [NEW, Peer(n1, 0, true), Peer(n2, 0, false)], [])
  }

  lemma Wins(a: Server)
    requires a == Srv(0, 1, 0, Candidate, [], 0, [NEW, NEW, NEW], [])
    ensures RecvVoteReply(a, 1, VoteReply(1, true)) == Zero([], 1, 1)
  {
    var a1 := a.(peers := a.peers[1 := a.peers[1].(granted := true)]);
    assert Granters(a1) == {1};
    assert BecomeLeader(a1).peers == Zero([], 1, 1).peers;
  }

  lemma Elected(av: Avoid) returns (net: set<Message>)
    ensures At(av, Zero([], 1, 1), Follows(1, 1, 0, []), Follows(2, 0, -1, []), net)
  {
    Starts(av);
    var a, b, c := Follows(0, 0, -1, []), Follows(1, 0, -1, []), Follows(2, 0, -1, []);
    var a1 := Srv(0, 1, 0, Candidate, [], 0, [NEW, NEW, NEW], []);
    assert BecomeCandidate(a).peers == a1.peers;
    MoveA(av, a, b, c, {}, Timer(0, true), a1, VoteReqs(a1));
    net := {} + VoteReqs(a1);
    var m := VoteReq(0, 1, VoteRequest(1, 0, 0, 0));
    assert VoteRequestOf(a1) == m.vr && m in net;
    var v := VoteRep(1, 0, VoteReply(1, true));
    MoveB(av, a1, b, c, net, Deliver(m), Follows(1, 1, 0, []), {v});
    net := net + {v};
    Wins(a1);
    MoveA(av, a1, Follows(1, 1, 0, []), c, net, Deliver(v), Zero([], 1, 1), {});
    net := net + {};
  }

  // ----- sending and receiving entries -----

  const E7 := Entry(1, 7)

  /** The messages of term 1 with which both runs begin: entry 7 for each follower, and an
      empty message for what follows it. */
  const SEVEN := AppendEntries(1, 0, 0, 0, [E7])
  const EMPTY := AppendEntries(1, 1, 1, 0, [])

  /** Neither of the two steps, for lack of an empty message or of a commit index. */
  lemma Quiet(av: Avoid, c: Cluster, m: Message)
    requires m.AppendReq? && m.dst < |c.servers|
    requires av == NoDrop ==> m.ae.entries != [] || m.ae.term < c.servers[m.dst].term
    requires av == NoOvercommit ==> m.ae.leaderCommit == 0
    ensures Avoided(av, c, Deliver(m))
  {
  }

  lemma Asked(av: Avoid, a: Server, b: Server, c: Server, net: set<Message>, data: seq<int>, a': Server)
    requires At(av, a, b, c, net) && RecvEntries(a, data) == a'
    ensures At(av, a', b, c, net)
  {
    assert net + {} == net;
    MoveA(av, a, b, c, net, Client(0, data), a', {});
  }

  /** What server 0 sends to server j when it offers n entries. */
  ghost predicate Builds(a: Server, j: nat, n: nat, ae: AppendEntries) {
    && a.role == Leader && a.me == 0 && |a.peers| == 3 && 0 < j < 3
    && (a.log.Has(a.peers[j].nextIdx) ==> 0 < n && a.log.Has(a.peers[j].nextIdx + n - 1))
    && ae == BuildAppend(a, j, n)
  }

  lemma Sends(c: Cluster, j: nat, n: nat, ae: AppendEntries, a: Server)
    requires |c.servers| == 3 && c.servers[0] == a && Builds(a, j, n, ae)
    ensures SendEffect(c, 0, j, n, |ae.entries|) == Effect(0, SendAppend(a, j, |ae.entries|), Wire(0, j, ae))
  {
  }

  lemma SendsWire(c: Cluster, j: nat, n: nat, ae: AppendEntries, a: Server)
    requires |c.servers| == 3 && c.servers[0] == a && Builds(a, j, n, ae)
    ensures EffectOf(c, Send(0, j, n, |ae.entries|)) == Effect(0, SendAppend(a, j, |ae.entries|), Wire(0, j, ae))
  {
    Sends(c, j, n, ae, a);
  }

  lemma Offers(av: Avoid, a: Server, b: Server, c: Server, net: set<Message>, j: nat, n: nat, ae: AppendEntries,
               a': Server)
    returns (net': set<Message>)
    requires At(av, a, b, c, net) && Builds(a, j, n, ae) && a' == SendAppend(a, j, |ae.entries|)
    ensures At(av, a', b, c, net') && net' == net + Wire(0, j, ae) && AppendReq(0, j, ae) in net'
  {
    SendsWire(Cluster([a, b, c], net), j, n, ae, a);
    MoveA(av, a, b, c, net, Send(0, j, n, |ae.entries|), a', Wire(0, j, ae));
    net' := net + Wire(0, j, ae);
  }

  lemma TakesB(av: Avoid, a: Server, b: Server, c: Server, net: set<Message>, ae: AppendEntries, b': Server,
               r: AppendReply)
    requires At(av, a, b, c, net) && AppendReq(0, 1, ae) in net && RecvAppendEntries(b, ae) == Done(b', r)
    requires av == NoDrop ==> ae.entries != []
    requires av == NoOvercommit ==> ae.leaderCommit == 0
    ensures At(av, a, b', c, net + {AppendRep(1, 0, r)})
  {
    Quiet(av, Cluster([a, b, c], net), AppendReq(0, 1, ae));
    MoveB(av, a, b, c, net, Deliver(AppendReq(0, 1, ae)), b', {AppendRep(1, 0, r)});
  }

  lemma TakesC(av: Avoid, a: Server, b: Server, c: Server, net: set<Message>, src: nat, ae: AppendEntries, c': Server,
               r: AppendReply)
    requires At(av, a, b, c, net) && AppendReq(src, 2, ae) in net && RecvAppendEntries(c, ae) == Done(c', r)
    requires av == NoDrop ==> ae.entries != [] || ae.term < c.term
    requires av == NoOvercommit ==> ae.leaderCommit == 0
    ensures At(av, a, b, c', net + {AppendRep(2, src, r)})
  {
    Quiet(av, Cluster([a, b, c], net), AppendReq(src, 2, ae));
    MoveC(av, a, b, c, net, Deliver(AppendReq(src, 2, ae)), c', {AppendRep(2, src, r)});
  }

  lemma BuildsSeven()
    ensures RecvEntries(Zero([], 1, 1), [7]) == Zero([E7], 1, 1)
    ensures Builds(Zero([E7], 1, 1), 1, 1, SEVEN) && SendAppend(Zero([E7], 1, 1), 1, 1) == Zero([E7], 2, 1)
    ensures Builds(Zero([E7], 2, 1), 2, 1, SEVEN) && SendAppend(Zero([E7], 2, 1), 2, 1) == Zero([E7], 2, 2)
  {
    assert seq(1, i requires 0 <= i < 1 => Entry(1, [7][i])) == [E7];
    assert [] + [E7] == [E7] && [E7][0..][..1] == [E7];
    assert Zero([E7], 1, 1).peers[1 := Peer(2, 0, true)] == Zero([E7], 2, 1).peers;
    assert Zero([E7], 2, 1).peers[2 := Peer(2, 0, false)] == Zero([E7], 2, 2).peers;
  }

  lemma BuildsEmpty()
    ensures Builds(Zero([E7], 2, 2), 1, 1, EMPTY) && SendAppend(Zero([E7], 2, 2), 1, 0) == Zero([E7], 2, 2)
    ensures Builds(Zero([E7], 2, 2), 2, 1, EMPTY) && SendAppend(Zero([E7], 2, 2), 2, 0) == Zero([E7], 2, 2)
  {
    assert Zero([E7], 2, 2).peers[1 := Peer(2, 0, true)] == Zero([E7], 2, 2).peers;
    assert Zero([E7], 2, 2).peers[2 := Peer(2, 0, false)] == Zero([E7], 2, 2).peers;
  }

  lemma TakesSeven(j: nat, term: nat, vote: int)
    requires (j == 1 && term == 1) || (j == 2 && term == 0 && vote == -1)
    ensures RecvAppendEntries(Follows(j, term, vote, []), SEVEN)
         == Done(Follows(j, 1, vote, [E7]), AppendReply(1, true, 1, 1))
  {
    var s := Follows(j, 1, vote, []);
    assert AdoptTerm(Follows(j, term, vote, []), 1) == s;
    assert Agreeing(s.log, 0, [E7]) == 0;
    assert [] + [E7][0..] == [E7];
  }

  /** All three hold entry 7, and the empty messages are still under way. */
  lemma Begun(av: Avoid) returns (net: set<Message>)
    ensures At(av, Zero([E7], 2, 2), Follows(1, 1, 0, [E7]), Follows(2, 1, -1, [E7]), net)
    ensures AppendReq(0, 1, EMPTY) in net && AppendReq(0, 2, EMPTY) in net
    ensures AppendRep(1, 0, AppendReply(1, true, 1, 1)) in net
  {
    net := Elected(av);
    var b, c := Follows(1, 1, 0, []), Follows(2, 0, -1, []);
    BuildsSeven();
    Asked(av, Zero([], 1, 1), b, c, net, [7], Zero([E7], 1, 1));
    net := Offers(av, Zero([E7], 1, 1), b, c, net, 1, 1, SEVEN, Zero([E7], 2, 1));
    net := Offers(av, Zero([E7], 2, 1), b, c, net, 2, 1, SEVEN, Zero([E7], 2, 2));
    BuildsEmpty();
    var a := Zero([E7], 2, 2);
    net := Offers(av, a, b, c, net, 1, 1, EMPTY, a);
    net := Offers(av, a, b, c, net, 2, 1, EMPTY, a);
    TakesSeven(1, 1, 0);
    TakesB(av, a, b, c, net, SEVEN, Follows(1, 1, 0, [E7]), AppendReply(1, true, 1, 1));
    net := net + {AppendRep(1, 0, AppendReply(1, true, 1, 1))};
    TakesSeven(2, 0, -1);
    TakesC(av, a, Follows(1, 1, 0, [E7]), c, net, 0, SEVEN, Follows(2, 1, -1, [E7]), AppendReply(1, true, 1, 1));
    net := net + {AppendRep(2, 0, AppendReply(1, true, 1, 1))};
  }

  // ----- delivering to the application -----

  lemma Delivers(s: Server, n: nat, ds: seq<Entry>)
    requires s.log.front == 0 && s.commit == n == |ds| && ds == s.log.entries && s.applied == 0 && s.delivered == []
    ensures ApplyAll(s, NoCheckpoint()) == s.(applied := n, delivered := ds)
  {
    DeliversFrom(s, 0);
    assert s.log.entries[..0] == [];
    assert s.log.entries[..n] == ds;
  }

  lemma {:induction false} DeliversFrom(s: Server, k: nat)
    requires s.log.front == 0 && k <= s.commit == |s.log.entries|
    ensures ApplyAll(s.(applied := k, delivered := s.log.entries[..k]), NoCheckpoint())
         == s.(applied := s.commit, delivered := s.log.entries[..s.commit])
    decreases s.commit - k
  {
    if k < s.commit {
      assert s.log.entries[..k] + [s.log.entries[k]] == s.log.entries[..k + 1];
      DeliversFrom(s, k + 1);
    }
  }
}
