/** A run of three servers in which a follower loses entries it has acknowledged, in the
    term in which it acknowledged them and after the leader has committed them. The next
    leader then commits another entry at the same index. Nobody commits beyond what a
    message covers. */
module RaftCut {
  import opened RaftTypes
  import opened RaftServer
  import opened RaftCluster
  import opened RaftRuns

  const E8 := Entry(1, 8)
  const E9 := Entry(1, 9)
  const E5 := Entry(2, 5)

  // ----- the follower acknowledges, the leader commits -----

  const REST := AppendEntries(1, 1, 1, 0, [E8, E9])

  lemma BuildsRest()
    ensures RecvEntries(Zero([E7], 2, 2), [8, 9]) == Zero([E7, E8, E9], 2, 2)
    ensures Builds(Zero([E7, E8, E9], 2, 2), 1, 2, REST)
    ensures SendAppend(Zero([E7, E8, E9], 2, 2), 1, 2) == Zero([E7, E8, E9], 4, 2)
  {
    assert seq(2, i requires 0 <= i < 2 => Entry(1, [8, 9][i])) == [E8, E9];
    assert [E7] + [E8, E9] == [E7, E8, E9] && [E7, E8, E9][1..][..2] == [E8, E9];
    assert Zero([E7, E8, E9], 2, 2).peers[1 := Peer(4, 0, true)] == Zero([E7, E8, E9], 4, 2).peers;
  }

  /** The two packets that carry the message. */
  const EIGHT := AppendEntries(1, 1, 1, 0, [E8])
  const NINE := AppendEntries(1, 2, 1, 0, [E9])

  lemma RestPackets()
    ensures AppendReq(0, 1, EIGHT) in Wire(0, 1, REST) && AppendReq(0, 1, NINE) in Wire(0, 1, REST)
  {
    assert Packet(REST, 0) == EIGHT && Packet(REST, 1) == NINE;
  }

  lemma TakesEight()
    ensures RecvAppendEntries(Follows(1, 1, 0, [E7]), EIGHT)
         == Done(Follows(1, 1, 0, [E7, E8]), AppendReply(1, true, 2, 2))
  {
    var s := Follows(1, 1, 0, [E7]);
    assert Agreeing(s.log, 1, [E8]) == 0;
    assert [E7] + [E8][0..] == [E7, E8];
  }

  lemma TakesNine()
    ensures RecvAppendEntries(Follows(1, 1, 0, [E7, E8]), NINE)
         == Done(Follows(1, 1, 0, [E7, E8, E9]), AppendReply(1, true, 3, 3))
  {
    var s := Follows(1, 1, 0, [E7, E8]);
    assert Agreeing(s.log, 2, [E9]) == 0;
    assert [E7, E8] + [E9][0..] == [E7, E8, E9];
  }

  lemma TakesEmpty()
    ensures RecvAppendEntries(Follows(1, 1, 0, [E7, E8, E9]), EMPTY)
         == Done(Follows(1, 1, 0, [E7]), AppendReply(1, true, 1, 2))
  {
    assert [E7, E8, E9][..1] == [E7];
  }

  lemma Replicated() returns (net: set<Message>)
    ensures At(NoOvercommit, Zero([E7, E8, E9], 4, 2), Follows(1, 1, 0, [E7, E8, E9]), Follows(2, 1, -1, [E7]), net)
    ensures AppendReq(0, 1, EMPTY) in net && AppendRep(1, 0, AppendReply(1, true, 3, 3)) in net
  {
    net := Begun(NoOvercommit);
    var b, c := Follows(1, 1, 0, [E7]), Follows(2, 1, -1, [E7]);
    BuildsRest();
    Asked(NoOvercommit, Zero([E7], 2, 2), b, c, net, [8, 9], Zero([E7, E8, E9], 2, 2));
    net := Offers(NoOvercommit, Zero([E7, E8, E9], 2, 2), b, c, net, 1, 2, REST, Zero([E7, E8, E9], 4, 2));
    var a, b1 := Zero([E7, E8, E9], 4, 2), Follows(1, 1, 0, [E7, E8]);
    RestPackets();
    TakesEight();
    TakesB(NoOvercommit, a, b, c, net, EIGHT, b1, AppendReply(1, true, 2, 2));
    net := net + {AppendRep(1, 0, AppendReply(1, true, 2, 2))};
    TakesNine();
    TakesB(NoOvercommit, a, b1, c, net, NINE, Follows(1, 1, 0, [E7, E8, E9]), AppendReply(1, true, 3, 3));
    net := net + {AppendRep(1, 0, AppendReply(1, true, 3, 3))};
  }

  /** Server 0 once it has committed and delivered all three entries. */
  const COMMITTED := Srv(0, 1, 0, Leader, [E7, E8, E9], 3, [NEW, Peer(4, 3, true), Peer(2, 0, false)], [E7, E8, E9])

  lemma Commits()
    ensures RecvAppendReply(Zero([E7, E8, E9], 4, 2), 1, AppendReply(1, true, 3, 3), NoCheckpoint())
              == Done(COMMITTED, ())
  {
    var a := Zero([E7, E8, E9], 4, 2);
    var a1 := Srv(0, 1, 0, Leader, [E7, E8, E9], 0, [NEW, Peer(4, 3, true), Peer(2, 0, false)], []);
    assert a.peers[1 := Peer(4, 3, true)] == a1.peers;
    assert Acked(a1, 3) == {1};
    Delivers(a1.(commit := 3), 3, [E7, E8, E9]);
  }

  /** Entries 8 and 9 are committed and delivered at server 0, server 1 has acknowledged
      them, and now server 0 alone holds them. */
  lemma CommittedThenCut() returns (net: set<Message>)
    ensures At(NoOvercommit, COMMITTED, Follows(1, 1, 0, [E7]), Follows(2, 1, -1, [E7]), net)
    ensures AppendRep(1, 0, AppendReply(1, true, 3, 3)) in net
  {
    net := Replicated();
    var a, b, c := Zero([E7, E8, E9], 4, 2), Follows(1, 1, 0, [E7, E8, E9]), Follows(2, 1, -1, [E7]);
    Commits();
    MoveA(NoOvercommit, a, b, c, net, Deliver(AppendRep(1, 0, AppendReply(1, true, 3, 3))), COMMITTED, {});
    net := net + {};
    TakesEmpty();
    var r := AppendReply(1, true, 1, 2);
    TakesB(NoOvercommit, COMMITTED, b, c, net, EMPTY, Follows(1, 1, 0, [E7]), r);
    net := net + {AppendRep(1, 0, r)};
  }

  // ----- server 1 leads term 2 and commits another entry -----

  function One(log: seq<Entry>, n2: nat): Server {
    Srv(1, 2, 1, Leader, log, 0, [Peer(2, 0, false), NEW, Peer(n2, 0, true)], [])
  }

  lemma WinsAgain(b: Server)
    requires b == Srv(1, 2, 1, Candidate, [E7], 0, [NEW, NEW, NEW], [])
    ensures RecvVoteReply(b, 2, VoteReply(2, true)) == One([E7], 2)
  {
    var b1 := b.(peers := b.peers[2 := b.peers[2].(granted := true)]);
    assert Granters(b1) == {2};
    assert BecomeLeader(b1).peers == One([E7], 2).peers;
  }

  lemma ElectedAgain() returns (net: set<Message>)
    ensures At(NoOvercommit, COMMITTED, One([E7], 2), Follows(2, 2, 1, [E7]), net)
  {
    net := CommittedThenCut();
    var b, c := Follows(1, 1, 0, [E7]), Follows(2, 1, -1, [E7]);
    var b1 := Srv(1, 2, 1, Candidate, [E7], 0, [NEW, NEW, NEW], []);
    assert BecomeCandidate(b).peers == b1.peers;
    MoveB(NoOvercommit, COMMITTED, b, c, net, Timer(1, true), b1, VoteReqs(b1));
    net := net + VoteReqs(b1);
    var m := VoteReq(1, 2, VoteRequest(2, 1, 1, 1));
    assert VoteRequestOf(b1) == m.vr && m in net;
    var c1 := Follows(2, 2, 1, [E7]);
    var v := VoteRep(2, 1, VoteReply(2, true));
    MoveC(NoOvercommit, COMMITTED, b1, c, net, Deliver(m), c1, {v});
    net := net + {v};
    WinsAgain(b1);
    MoveB(NoOvercommit, COMMITTED, b1, c1, net, Deliver(v), One([E7], 2), {});
    net := net + {};
  }

  const FIVE := AppendEntries(2, 1, 1, 0, [E5])

  lemma TakesFive()
    ensures RecvAppendEntries(Follows(2, 2, 1, [E7]), FIVE)
         == Done(Follows(2, 2, 1, [E7, E5]), AppendReply(2, true, 2, 2))
  {
    var s := Follows(2, 2, 1, [E7]);
    assert Agreeing(s.log, 1, [E5]) == 0;
    assert [E7] + [E5][0..] == [E7, E5];
  }

  const OTHER := Srv(1, 2, 1, Leader, [E7, E5], 2, [Peer(2, 0, false), NEW, Peer(3, 2, true)], [E7, E5])

  lemma CommitsOther()
    ensures RecvAppendReply(One([E7, E5], 3), 2, AppendReply(2, true, 2, 2), NoCheckpoint()) == Done(OTHER, ())
  {
    var b := One([E7, E5], 3);
    var b1 := Srv(1, 2, 1, Leader, [E7, E5], 0, [Peer(2, 0, false), NEW, Peer(3, 2, true)], []);
    assert b.peers[2 := Peer(3, 2, true)] == b1.peers;
    assert Acked(b1, 2) == {2};
    Delivers(b1.(commit := 2), 2, [E7, E5]);
  }

  lemma Replicates() returns (net: set<Message>)
    ensures At(NoOvercommit, COMMITTED, One([E7, E5], 3), Follows(2, 2, 1, [E7, E5]), net)
    ensures AppendRep(2, 1, AppendReply(2, true, 2, 2)) in net
  {
    net := ElectedAgain();
    var c := Follows(2, 2, 1, [E7]);
    assert seq(1, i requires 0 <= i < 1 => Entry(2, [5][i])) == [E5];
    assert [E7] + [E5] == [E7, E5];
    var b := One([E7, E5], 2);
    MoveB(NoOvercommit, COMMITTED, One([E7], 2), c, net, Client(1, [5]), b, {});
    net := net + {};
    assert b.log.entries[1..][..1] == [E5];
    MoveB(NoOvercommit, COMMITTED, b, c, net, Send(1, 2, 1, 1), One([E7, E5], 3), Wire(1, 2, FIVE));
    net := net + Wire(1, 2, FIVE);
    TakesFive();
    var r := AppendReply(2, true, 2, 2);
    TakesC(NoOvercommit, COMMITTED, One([E7, E5], 3), c, net, 1, FIVE, Follows(2, 2, 1, [E7, E5]), r);
    net := net + {AppendRep(2, 1, r)};
  }

  /** Two servers have delivered different entries at index 2. */
  lemma TwoDeliveries() returns (c: Cluster)
    ensures Reached(NoOvercommit, c) && |c.servers| == 3
    ensures c.servers[0].delivered == [E7, E8, E9] && c.servers[1].delivered == [E7, E5]
  {
    var net := Replicates();
    CommitsOther();
    MoveB(NoOvercommit, COMMITTED, One([E7, E5], 3), Follows(2, 2, 1, [E7, E5]), net,
          Deliver(AppendRep(2, 1, AppendReply(2, true, 2, 2))), OTHER, {});
    c := Cluster([COMMITTED, OTHER, Follows(2, 2, 1, [E7, E5])], net + {});
  }
}
