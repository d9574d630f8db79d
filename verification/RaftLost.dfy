/** A run of three servers in which one lost packet keeps a follower behind for as long as the
    leader's term lasts: it has acknowledged the first entry, and every answer that shows that
    it lacks the second is taken for an old one. */
module RaftLost {
  import opened RaftTypes
  import opened RaftServer
  import opened RaftCluster
  import opened RaftRuns
  import opened ServerOrder
  import CU = RaftCatchUp

  const E8 := Entry(1, 8)

  /** Server 0 once server 1 has acknowledged entry 7, with next index n for it. */
  function Acknowledged(log: seq<Entry>, n: nat): Server {
    Srv(0, 1, 0, Leader, log, 1, [NEW, Peer(n, 1, true), Peer(2, 0, false)], [E7])
  }

  lemma TakesAck()
    ensures RecvAppendReply(Zero([E7], 2, 2), 1, AppendReply(1, true, 1, 1), NoCheckpoint())
         == Done(Acknowledged([E7], 2), ())
  {
    var a1 := Srv(0, 1, 0, Leader, [E7], 0, [NEW, Peer(2, 1, true), Peer(2, 0, false)], []);
    assert Zero([E7], 2, 2).peers[1 := Peer(2, 1, true)] == a1.peers;
    assert Acked(a1, 1) == {1};
    Delivers(a1.(commit := 1), 1, [E7]);
  }

  lemma TakesEight()
    ensures RecvEntries(Acknowledged([E7], 2), [8]) == Acknowledged([E7, E8], 2)
  {
    assert seq(1, i requires 0 <= i < 1 => Entry(1, [8][i])) == [E8];
    assert [E7] + [E8] == [E7, E8];
  }

  const EIGHT := AppendEntries(1, 1, 1, 1, [E8])

  lemma SendsEight()
    ensures Builds(Acknowledged([E7, E8], 2), 1, 1, EIGHT)
    ensures SendAppend(Acknowledged([E7, E8], 2), 1, 1) == Acknowledged([E7, E8], 3)
  {
    assert [E7, E8][1..][..1] == [E8];
    assert Acknowledged([E7, E8], 2).peers[1 := Peer(3, 1, true)] == Acknowledged([E7, E8], 3).peers;
  }

  /** The packet with entry 8 is under way, and may never arrive. */
  lemma Sent(av: Avoid) returns (net: set<Message>)
    ensures At(av, Acknowledged([E7, E8], 3), Follows(1, 1, 0, [E7]), Follows(2, 1, -1, [E7]), net)
  {
    net := Begun(av);
    var b, c := Follows(1, 1, 0, [E7]), Follows(2, 1, -1, [E7]);
    TakesAck();
    MoveA(av, Zero([E7], 2, 2), b, c, net, Deliver(AppendRep(1, 0, AppendReply(1, true, 1, 1))),
          Acknowledged([E7], 2), {});
    net := net + {};
    TakesEight();
    Asked(av, Acknowledged([E7], 2), b, c, net, [8], Acknowledged([E7, E8], 2));
    SendsEight();
    net := Offers(av, Acknowledged([E7, E8], 2), b, c, net, 1, 1, EIGHT, Acknowledged([E7, E8], 3));
  }

  lemma StillPaired()
    ensures CU.Paired(CU.Pair(Acknowledged([E7, E8], 3), Follows(1, 1, 0, [E7])), 1, 1)
  {
    var a := Acknowledged([E7, E8], 3);
    assert DeliveredAt(a, 1);
    assert Ordered(a);
  }

  /** In whichever rounds the two go on, the follower never gets entry 8. */
  lemma NeverResent(av: Avoid) returns (c: Cluster)
    ensures Reached(av, c) && |c.servers| == 3
    ensures c.servers[0].role == Leader && c.servers[0].log.entries == [E7, E8]
    ensures forall plan: seq<(nat, nat)> {:trigger CU.Rounds(CU.Pair(c.servers[0], c.servers[1]), 1, plan)} ::
              CU.Rounds(CU.Pair(c.servers[0], c.servers[1]), 1, plan).Some?
              && !([E7, E8] <= CU.Rounds(CU.Pair(c.servers[0], c.servers[1]), 1, plan).value.follower.log.entries)
  {
    var net := Sent(av);
    c := Cluster([Acknowledged([E7, E8], 3), Follows(1, 1, 0, [E7]), Follows(2, 1, -1, [E7])], net);
    var p := CU.Pair(c.servers[0], c.servers[1]);
    StillPaired();
    forall plan: seq<(nat, nat)> {:trigger CU.Rounds(p, 1, plan)}
      ensures CU.Rounds(p, 1, plan).Some?
      ensures !([E7, E8] <= CU.Rounds(p, 1, plan).value.follower.log.entries)
    {
      CU.NeverFinds(p, 1, plan, 1);
    }
  }
}
