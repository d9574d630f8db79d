/** A run of three servers in which nobody drops entries on an empty message, and two servers
    still deliver different entries at one index. An answer to a message of an old term makes
    the leader start over at a lower index; the first packet it then sends covers less
    than its commit index, and the receiver commits its own stale entry. */
module RaftOver {
  import opened RaftTypes
  import opened RaftServer
  import opened RaftCluster
  import opened RaftRuns

  const E9 := Entry(2, 9)
  const E5 := Entry(3, 5)

  // ----- server 2 leads term 2 and keeps an entry to itself -----

  function Two(log: seq<Entry>): Server {
    Srv(2, 2, 2, Leader, log, 0, [Peer(2, 0, false), Peer(2, 0, true), NEW], [])
  }

  lemma WinsTwo(c: Server)
    requires c == Srv(2, 2, 2, Candidate, [E7], 0, [NEW, NEW, NEW], [])
    ensures RecvVoteReply(c, 1, VoteReply(2, true)) == Two([E7])
  {
    var c1 := c.(peers := c.peers[1 := c.peers[1].(granted := true)]);
    assert Granters(c1) == {1};
    assert BecomeLeader(c1).peers == Two([E7]).peers;
  }

  lemma TwoLeads() returns (net: set<Message>)
    ensures At(NoDrop, Zero([E7], 2, 2), Follows(1, 2, 2, [E7]), Two([E7, E9]), net)
    ensures AppendReq(0, 2, EMPTY) in net && VoteReq(2, 0, VoteRequest(2, 2, 1, 1)) in net
  {
    net := Begun(NoDrop);
    var a, b, c := Zero([E7], 2, 2), Follows(1, 1, 0, [E7]), Follows(2, 1, -1, [E7]);
    var c1 := Srv(2, 2, 2, Candidate, [E7], 0, [NEW, NEW, NEW], []);
    assert BecomeCandidate(c).peers == c1.peers;
    MoveC(NoDrop, a, b, c, net, Timer(2, true), c1, VoteReqs(c1));
    net := net + VoteReqs(c1);
    var m := VoteReq(2, 1, VoteRequest(2, 2, 1, 1));
    assert VoteRequestOf(c1) == m.vr && m in net && VoteReq(2, 0, m.vr) in net;
    var v := VoteRep(1, 2, VoteReply(2, true));
    MoveB(NoDrop, a, b, c1, net, Deliver(m), Follows(1, 2, 2, [E7]), {v});
    net := net + {v};
    WinsTwo(c1);
    MoveC(NoDrop, a, Follows(1, 2, 2, [E7]), c1, net, Deliver(v), Two([E7]), {});
    net := net + {};
    assert seq(1, i requires 0 <= i < 1 => Entry(2, [9][i])) == [E9];
    assert [E7] + [E9] == [E7, E9];
    MoveC(NoDrop, a, Follows(1, 2, 2, [E7]), Two([E7]), net, Client(2, [9]), Two([E7, E9]), {});
    net := net + {};
  }

  // ----- server 0 leads term 3 -----

  /** Server 0 in term 3, with next index n1 and n2 for the others. */
  function Three(log: seq<Entry>, n1: nat, n2: nat): Server {
    Srv(0, 3, 0, Leader, log, 0, [NEW, Peer(n1, 0, true), Peer(n2, 0, false)], [])
  }

  /** Server 2 after it has heard of term 3. */
  const STALE := Srv(2, 3, -1, Follower, [E7, E9], 0, [Peer(2, 0, false), Peer(2, 0, true), NEW], [])

  lemma WinsThree(a: Server)
    requires a == Srv(0, 3, 0, Candidate, [E7], 0, [NEW, Peer(2, 0, false), Peer(2, 0, false)], [])
    ensures RecvVoteReply(a, 1, VoteReply(3, true)) == Three([E7], 2, 2)
  {
    var a1 := a.(peers := a.peers[1 := a.peers[1].(granted := true)]);
    assert Granters(a1) == {1};
    assert BecomeLeader(a1).peers == Three([E7], 2, 2).peers;
  }

  lemma StepsDown() returns (net: set<Message>)
    ensures At(NoDrop, Srv(0, 3, 0, Candidate, [E7], 0, [NEW, Peer(2, 0, false), Peer(2, 0, false)], []),
               Follows(1, 2, 2, [E7]), Two([E7, E9]), net)
    ensures AppendReq(0, 2, EMPTY) in net
    ensures VoteReq(0, 1, VoteRequest(3, 0, 1, 1)) in net && VoteReq(0, 2, VoteRequest(3, 0, 1, 1)) in net
  {
    net := TwoLeads();
    var a, b, c := Zero([E7], 2, 2), Follows(1, 2, 2, [E7]), Two([E7, E9]);
    var a1 := Srv(0, 2, 2, Follower, [E7], 0, a.peers, []);
    var v := VoteRep(0, 2, VoteReply(2, true));
    MoveA(NoDrop, a, b, c, net, Deliver(VoteReq(2, 0, VoteRequest(2, 2, 1, 1))), a1, {v});
    net := net + {v};
    var a2 := Srv(0, 3, 0, Candidate, [E7], 0, [NEW, Peer(2, 0, false), Peer(2, 0, false)], []);
    assert BecomeCandidate(a1).peers == a2.peers;
    MoveA(NoDrop, a1, b, c, net, Timer(0, true), a2, VoteReqs(a2));
    net := net + VoteReqs(a2);
    var vr := VoteRequest(3, 0, 1, 1);
    assert VoteRequestOf(a2) == vr && VoteReq(0, 1, vr) in net && VoteReq(0, 2, vr) in net;
  }

  lemma ThreeLeads() returns (net: set<Message>)
    ensures At(NoDrop, Three([E7], 2, 2), Follows(1, 3, 0, [E7]), STALE, net) && AppendReq(0, 2, EMPTY) in net
  {
    net := StepsDown();
    var a := Srv(0, 3, 0, Candidate, [E7], 0, [NEW, Peer(2, 0, false), Peer(2, 0, false)], []);
    var vr := VoteRequest(3, 0, 1, 1);
    var v, refused := VoteRep(1, 0, VoteReply(3, true)), VoteRep(2, 0, VoteReply(3, false));
    MoveB(NoDrop, a, Follows(1, 2, 2, [E7]), Two([E7, E9]), net, Deliver(VoteReq(0, 1, vr)), Follows(1, 3, 0, [E7]),
        {v});
    net := net + {v};
    MoveC(NoDrop, a, Follows(1, 3, 0, [E7]), Two([E7, E9]), net, Deliver(VoteReq(0, 2, vr)), STALE, {refused});
    net := net + {refused};
    WinsThree(a);
    MoveA(NoDrop, a, Follows(1, 3, 0, [E7]), STALE, net, Deliver(v), Three([E7], 2, 2), {});
    net := net + {};
  }

  // ----- the answer to an old message -----

  /** Server 2 answers the empty message of term 1 in term 3, and server 0 starts over. */
  lemma StartsOver() returns (net: set<Message>)
    ensures At(NoDrop, Three([E7], 2, 1), Follows(1, 3, 0, [E7]), STALE, net)
  {
    net := ThreeLeads();
    var b, r := Follows(1, 3, 0, [E7]), AppendReply(3, false, 2, 0);
    TakesC(NoDrop, Three([E7], 2, 2), b, STALE, net, 0, EMPTY, STALE, r);
    net := net + {AppendRep(2, 0, r)};
    assert Three([E7], 2, 2).peers[2 := Peer(1, 0, false)] == Three([E7], 2, 1).peers;
    MoveA(NoDrop, Three([E7], 2, 2), b, STALE, net, Deliver(AppendRep(2, 0, r)), Three([E7], 2, 1), {});
    net := net + {};
  }

  // ----- server 0 commits with server 1 -----

  const FIVE := AppendEntries(3, 1, 1, 0, [E5])

  lemma BuildsFive()
    ensures RecvEntries(Three([E7], 2, 1), [5]) == Three([E7, E5], 2, 1)
    ensures Builds(Three([E7, E5], 2, 1), 1, 1, FIVE)
    ensures SendAppend(Three([E7, E5], 2, 1), 1, 1) == Three([E7, E5], 3, 1)
  {
    assert seq(1, i requires 0 <= i < 1 => Entry(3, [5][i])) == [E5];
    assert [E7] + [E5] == [E7, E5] && [E7, E5][1..][..1] == [E5];
    assert Three([E7, E5], 2, 1).peers[1 := Peer(3, 0, true)] == Three([E7, E5], 3, 1).peers;
  }

  lemma TakesFive()
    ensures RecvAppendEntries(Follows(1, 3, 0, [E7]), FIVE)
         == Done(Follows(1, 3, 0, [E7, E5]), AppendReply(3, true, 2, 2))
  {
    var s := Follows(1, 3, 0, [E7]);
    assert Agreeing(s.log, 1, [E5]) == 0;
    assert [E7] + [E5][0..] == [E7, E5];
  }

  const COMMITTED := Srv(0, 3, 0, Leader, [E7, E5], 2, [NEW, Peer(3, 2, true), Peer(1, 0, false)], [E7, E5])

  lemma Commits()
    ensures RecvAppendReply(Three([E7, E5], 3, 1), 1, AppendReply(3, true, 2, 2), NoCheckpoint()) == Done(COMMITTED, ())
  {
    var a := Three([E7, E5], 3, 1);
    var a1 := Srv(0, 3, 0, Leader, [E7, E5], 0, [NEW, Peer(3, 2, true), Peer(1, 0, false)], []);
    assert a.peers[1 := Peer(3, 2, true)] == a1.peers;
    assert Acked(a1, 2) == {1};
    Delivers(a1.(commit := 2), 2, [E7, E5]);
  }

  lemma ZeroCommits() returns (net: set<Message>)
    ensures At(NoDrop, COMMITTED, Follows(1, 3, 0, [E7, E5]), STALE, net)
  {
    net := StartsOver();
    var b, b1, r := Follows(1, 3, 0, [E7]), Follows(1, 3, 0, [E7, E5]), AppendReply(3, true, 2, 2);
    BuildsFive();
    Asked(NoDrop, Three([E7], 2, 1), b, STALE, net, [5], Three([E7, E5], 2, 1));
    net := Offers(NoDrop, Three([E7, E5], 2, 1), b, STALE, net, 1, 1, FIVE, Three([E7, E5], 3, 1));
    TakesFive();
    TakesB(NoDrop, Three([E7, E5], 3, 1), b, STALE, net, FIVE, b1, r);
    net := net + {AppendRep(1, 0, r)};
    Commits();
    MoveA(NoDrop, Three([E7, E5], 3, 1), b1, STALE, net, Deliver(AppendRep(1, 0, r)), COMMITTED, {});
    net := net + {};
  }

  // ----- a packet that covers less than the commit index -----

  const BOTH := AppendEntries(3, 0, 0, 2, [E7, E5])
  const FIRST := AppendEntries(3, 0, 0, 2, [E7])

  lemma BuildsBoth()
    ensures Builds(COMMITTED, 2, 2, BOTH) && AppendReq(0, 2, FIRST) in Wire(0, 2, BOTH)
  {
    assert [E7, E5][0..][..2] == [E7, E5];
    assert Packet(BOTH, 0) == FIRST;
  }

  const MISLED := STALE.(commit := 2)

  lemma TakesFirst()
    ensures RecvAppendEntries(STALE, FIRST) == Done(MISLED, AppendReply(3, true, 1, 1))
  {
    assert Agreeing(STALE.log, 0, [E7]) == 1;
  }

  /** Two servers have delivered different entries at index 2. */
  lemma TwoDeliveries() returns (c: Cluster)
    ensures Reached(NoDrop, c) && |c.servers| == 3
    ensures c.servers[0].delivered == [E7, E5] && c.servers[2].delivered == [E7, E9]
  {
    var net := ZeroCommits();
    var a, b := SendAppend(COMMITTED, 2, 2), Follows(1, 3, 0, [E7, E5]);
    BuildsBoth();
    net := Offers(NoDrop, COMMITTED, b, STALE, net, 2, 2, BOTH, a);
    TakesFirst();
    TakesC(NoDrop, a, b, STALE, net, 0, FIRST, MISLED, AppendReply(3, true, 1, 1));
    net := net + {AppendRep(2, 0, AppendReply(3, true, 1, 1))};
    var done := MISLED.(applied := 2, delivered := [E7, E9]);
    Delivers(MISLED, 2, [E7, E9]);
    MoveC(NoDrop, a, b, MISLED, net, Timer(2, false), done, {});
    c := Cluster([a, b, done], net + {});
  }
}
