/** The invariant behind the safety of a cluster, stated with a history of who voted for
    whom, who led each term, and how far that leader's log had grown. */
module RaftInvariant {
  import opened Common
  import opened RaftTypes
  import opened RaftServer
  import opened RaftCluster

  datatype History = History(
    votes: map<(nat, nat), int>,
    leader: map<nat, nat>,
    quorum: map<nat, set<nat>>,
    logs: map<nat, seq<Entry>>)

  const NO_HISTORY := History(map[], map[], map[], map[])

  /** Records the new state of one server. */
  function Observe(h: History, s: Server): History {
    var votes := if s.votedFor == NOBODY then h.votes else h.votes[(s.me, s.term) := s.votedFor];
    if s.role == Leader then
      History(votes,
              h.leader[s.term := s.me],
              if s.term in h.quorum then h.quorum else h.quorum[s.term := Granters(s) + {s.me}],
              h.logs[s.term := s.log.entries])
    else h.(votes := votes)
  }

  /** History only grows. */
  ghost predicate Extends(h: History, h': History) {
    && (forall k <- h.votes :: k in h'.votes && h'.votes[k] == h.votes[k])
    && (forall t <- h.leader :: t in h'.leader && h'.leader[t] == h.leader[t])
    && (forall t <- h.logs :: t in h'.logs && h.logs[t] <= h'.logs[t])
  }

  // ----- justified logs -----

  /** The log up to position k is the one the leader of that entry's term had. */
  ghost predicate JustifiedAt(log: seq<Entry>, k: nat, h: History)
    requires k < |log|
  {
    var t := log[k].term;
    t in h.logs && k < |h.logs[t]| && log[..k + 1] == h.logs[t][..k + 1]
  }

  ghost predicate Justified(log: seq<Entry>, h: History) {
    forall k :: 0 <= k < |log| ==> JustifiedAt(log, k, h)
  }

  lemma JustifiedPrefix(log: seq<Entry>, n: nat, h: History)
    requires n <= |log| && Justified(log, h)
    ensures Justified(log[..n], h)
  {
    forall k | 0 <= k < n
      ensures JustifiedAt(log[..n], k, h)
    {
      assert JustifiedAt(log, k, h);
      assert log[..n][..k + 1] == log[..k + 1];
    }
  }

  lemma JustifiedExtends(log: seq<Entry>, h: History, h': History)
    requires Justified(log, h) && Extends(h, h')
    ensures Justified(log, h')
  {
    forall k | 0 <= k < |log|
      ensures JustifiedAt(log, k, h')
    {
      assert JustifiedAt(log, k, h);
      var t := log[k].term;
      assert h.logs[t][..k + 1] == h'.logs[t][..k + 1];
    }
  }

  /** Two justified logs that hold entries of one term at one position agree up to it. */
  lemma JustifiedAgree(a: seq<Entry>, b: seq<Entry>, k: nat, h: History)
    requires Justified(a, h) && Justified(b, h)
    requires k < |a| && k < |b| && a[k].term == b[k].term
    ensures a[..k + 1] == b[..k + 1]
  {
    assert JustifiedAt(a, k, h) && JustifiedAt(b, k, h);
  }

  // ----- the invariant -----

  ghost predicate HistoryInv(n: nat, h: History) {
    && h.leader.Keys == h.quorum.Keys == h.logs.Keys
    && (forall t <- h.leader :: ElectedBy(n, h, t))
    && (forall t <- h.logs :: Justified(h.logs[t], h))
  }

  /** The leader of term t was voted for, in t, by a majority. */
  ghost predicate ElectedBy(n: nat, h: History, t: nat)
    requires t in h.leader && t in h.quorum
  {
    && n < 2 * |h.quorum[t]|
    && (forall v <- h.quorum[t] :: v < n && (v, t) in h.votes && h.votes[(v, t)] == h.leader[t])
  }

  ghost predicate VotesInv(s: Server, h: History) {
    && (s.votedFor != NOBODY <==> (s.me, s.term) in h.votes)
    && (forall t: nat :: (s.me, t) in h.votes ==>
          t <= s.term && (t == s.term ==> s.votedFor == h.votes[(s.me, t)]))
    && (s.role != Follower ==> s.votedFor == s.me)
  }

  ghost predicate CandidateInv(s: Server, h: History) {
    && (forall j <- Granters(s) :: (j, s.term) in h.votes && h.votes[(j, s.term)] == s.me)
    && !(s.term in h.leader && h.leader[s.term] == s.me)
  }

  ghost predicate PeersInv(s: Server) {
    forall j :: 0 <= j < |s.peers| && j != s.me ==> 1 <= s.peers[j].nextIdx <= |s.log.entries| + 1
  }

  ghost predicate LeaderInv(s: Server, h: History) {
    && s.term in h.leader && h.leader[s.term] == s.me
    && s.term in h.logs && h.logs[s.term] == s.log.entries
    && PeersInv(s)
  }

  ghost predicate ServerInv(i: nat, n: nat, s: Server, h: History) {
    && s.me == i && |s.peers| == n && s.log.front == 0 && s.logBase == 0 && s.compacted == 0
    && VotesInv(s, h)
    && (s.role == Candidate ==> CandidateInv(s, h))
    && (s.role == Leader ==> LeaderInv(s, h))
    && (forall t <- h.leader :: h.leader[t] == i ==> t <= s.term)
    && Justified(s.log.entries, h)
  }

  /** The message describes a slice of its term's leader log. */
  ghost predicate SliceOf(ae: AppendEntries, log: seq<Entry>) {
    && ae.prevIdx + |ae.entries| <= |log|
    && ae.entries == log[ae.prevIdx..ae.prevIdx + |ae.entries|]
    && ae.prevTerm == (if ae.prevIdx == 0 then 0 else log[ae.prevIdx - 1].term)
  }

  ghost predicate MessageInv(n: nat, m: Message, h: History) {
    match m
    case VoteReq(src, dst, vr) => vr.candidate == src
    case VoteRep(src, dst, r) =>
      r.granted ==> (src, r.term) in h.votes && h.votes[(src, r.term)] == dst
    case AppendReq(src, dst, ae) =>
      && src != dst
      && ae.term in h.leader && h.leader[ae.term] == src
      && ae.term in h.logs && SliceOf(ae, h.logs[ae.term])
    case AppendRep(src, dst, r) =>
      r.success ==>
        && r.term in h.leader && h.leader[r.term] == dst
        && r.term in h.logs && r.currentIdx <= |h.logs[r.term]|
  }

  /** Member j has acknowledged index m to server i in term t. */
  ghost predicate AckSent(net: set<Message>, j: nat, i: nat, t: nat, m: nat) {
    exists f: nat :: AppendRep(j, i, AppendReply(t, true, m, f)) in net
  }

  /** What a leader has noted about its peers, it was told in this term. */
  ghost predicate MatchInv(s: Server, net: set<Message>) {
    s.role == Leader ==>
      forall j: nat :: j < |s.peers| && j != s.me && 0 < s.peers[j].matchIdx ==>
        AckSent(net, j, s.me, s.term, s.peers[j].matchIdx)
  }

  ghost predicate Inv(c: Cluster, h: History) {
    && 2 <= |c.servers|
    && HistoryInv(|c.servers|, h)
    && (forall i :: 0 <= i < |c.servers| ==> ServerInv(i, |c.servers|, c.servers[i], h))
    && (forall m <- c.net :: MessageInv(|c.servers|, m, h))
    && (forall i :: 0 <= i < |c.servers| ==> MatchInv(c.servers[i], c.net))
  }

  // ----- majorities meet -----

  lemma MajoritiesMeet(a: set<nat>, b: set<nat>, n: nat) returns (v: nat)
    requires forall x <- a :: x < n
    requires forall x <- b :: x < n
    requires n < 2 * |a| && n < 2 * |b|
    ensures v in a && v in b
  {
    if a * b == {} {
      BelowSize(a + b, n);
      assert false;
    }
    v :| v in a * b;
  }

  // ----- one server changes -----

  /** The history after a change of server s' extends the one before, and the invariant
      of that server and of the history holds again. */
  ghost predicate Updated(i: nat, n: nat, s': Server, h: History) {
    var h' := Observe(h, s');
    Extends(h, h') && HistoryInv(n, h') && ServerInv(i, n, s', h')
  }

  ghost predicate SameStatics(s: Server, s': Server) {
    s'.me == s.me && |s'.peers| == |s.peers| && s'.log.front == s.log.front
    && s'.logBase == s.logBase && s'.compacted == s.compacted
  }

  lemma ElectedExtends(n: nat, h: History, h': History)
    requires HistoryInv(n, h) && Extends(h, h') && h'.leader == h.leader && h'.quorum == h.quorum && h'.logs == h.logs
    ensures HistoryInv(n, h')
  {
    forall t <- h.leader
      ensures ElectedBy(n, h', t)
    {
      assert ElectedBy(n, h, t);
    }
    forall t <- h.logs
      ensures Justified(h'.logs[t], h')
    {
      JustifiedExtends(h.logs[t], h, h');
    }
  }

  lemma UpdateNonLeader(i: nat, n: nat, s: Server, s': Server, h: History)
    requires ServerInv(i, n, s, h) && HistoryInv(n, h) && SameStatics(s, s')
    requires s'.role != Leader && s.term <= s'.term
    requires s'.term == s.term && s.votedFor != NOBODY ==> s'.votedFor == s.votedFor
    requires s'.role == Candidate ==> s'.votedFor == i && CandidateInv(s', h)
    requires Justified(s'.log.entries, h)
    ensures Updated(i, n, s', h)
  {
    var h' := Observe(h, s');
    assert Extends(h, h');
    ElectedExtends(n, h, h');
    JustifiedExtends(s'.log.entries, h, h');
  }

  lemma UpdateLeader(i: nat, n: nat, s: Server, s': Server, h: History)
    requires ServerInv(i, n, s, h) && HistoryInv(n, h) && SameStatics(s, s')
    requires s.role == Leader == s'.role && s'.term == s.term && s'.votedFor == s.votedFor
    requires s.log.entries <= s'.log.entries
    requires forall k :: |s.log.entries| <= k < |s'.log.entries| ==> s'.log.entries[k].term == s.term
    requires PeersInv(s')
    ensures Updated(i, n, s', h)
  {
    var h' := Observe(h, s');
    assert Extends(h, h');
    assert h'.leader == h.leader && h'.quorum == h.quorum && h'.votes == h.votes;
    forall t <- h'.leader
      ensures ElectedBy(n, h', t)
    {
      assert ElectedBy(n, h, t);
    }
    var log, log' := s.log.entries, s'.log.entries;
    JustifiedExtends(log, h, h');
    forall k | 0 <= k < |log'|
      ensures JustifiedAt(log', k, h')
    {
      if k < |log| {
        assert JustifiedAt(log, k, h');
        assert log'[..k + 1] == log[..k + 1];
      }
    }
    forall t <- h'.logs
      ensures Justified(h'.logs[t], h')
    {
      if t != s.term {
        JustifiedExtends(h.logs[t], h, h');
      }
    }
  }

  /** The granters and the candidate itself are a majority that voted for it. */
  lemma WinningQuorum(i: nat, n: nat, s': Server, h: History)
    requires s'.me == i < n == |s'.peers| && s'.votedFor == i && VotesInv(s', h) && CandidateInv(s', h)
    requires IsMajority(n, VoteCount(s'))
    ensures n < 2 * |Granters(s') + {i}|
    ensures forall v <- Granters(s') + {i} :: v < n && (v, s'.term) in h.votes && h.votes[(v, s'.term)] == i
  {
    assert i !in Granters(s');
  }

  /** Two winners of one term would share a voter. */
  lemma NoLeaderYet(i: nat, n: nat, s': Server, h: History)
    requires s'.me == i < n == |s'.peers| && s'.votedFor == i && VotesInv(s', h) && CandidateInv(s', h)
    requires IsMajority(n, VoteCount(s')) && HistoryInv(n, h)
    ensures s'.term !in h.leader
  {
    WinningQuorum(i, n, s', h);
    if s'.term in h.leader {
      assert ElectedBy(n, h, s'.term);
      var v := MajoritiesMeet(Granters(s') + {i}, h.quorum[s'.term], n);
      assert false;
    }
  }

  lemma NewLeaderHistory(i: nat, n: nat, s': Server, h: History, h': History)
    requires s'.me == i < n == |s'.peers| && s'.votedFor == i && s'.role == Leader && s'.term !in h.leader
    requires VotesInv(s', h) && CandidateInv(s', h) && IsMajority(n, VoteCount(s'))
    requires HistoryInv(n, h) && Justified(s'.log.entries, h) && h' == Observe(h, s')
    ensures Extends(h, h') && HistoryInv(n, h') && Justified(s'.log.entries, h') && h'.votes == h.votes
  {
    WinningQuorum(i, n, s', h);
    assert h'.votes == h.votes;
    assert Extends(h, h');
    forall t <- h'.leader
      ensures ElectedBy(n, h', t)
    {
      if t != s'.term {
        assert ElectedBy(n, h, t);
      }
    }
    JustifiedExtends(s'.log.entries, h, h');
    forall t <- h'.logs
      ensures Justified(h'.logs[t], h')
    {
      if t != s'.term {
        JustifiedExtends(h.logs[t], h, h');
      }
    }
  }

  lemma UpdateNewLeader(i: nat, n: nat, s: Server, s': Server, h: History)
    requires ServerInv(i, n, s, h) && HistoryInv(n, h) && SameStatics(s, s') && i < n
    requires s.role == Candidate && CandidateInv(s', h) && s'.role == Leader
    requires s'.term == s.term && s'.votedFor == s.votedFor && s'.log == s.log
    requires IsMajority(n, VoteCount(s')) && PeersInv(s')
    ensures Updated(i, n, s', h)
  {
    NoLeaderYet(i, n, s', h);
    NewLeaderHistory(i, n, s', h, Observe(h, s'));
  }
}
