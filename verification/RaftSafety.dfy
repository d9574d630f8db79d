/** Every step of the cluster keeps the invariant. */
module RaftSafety {
  import opened RaftTypes
  import opened RaftServer
  import opened RaftCluster
  import opened RaftInvariant

  // ----- what the handlers leave alone -----

  lemma {:induction false} ApplyAllKeeps(s: Server)
    ensures var s' := ApplyAll(s, NoCheckpoint());
            s' == s.(applied := s'.applied, delivered := s'.delivered)
    decreases s.commit - s.applied
  {
    if s.applied < s.commit && s.log.Has(s.applied + 1) {
      var s1 := s.(applied := s.applied + 1, delivered := s.delivered + [s.log.At(s.applied + 1)]);
      ApplyAllKeeps(Checkpoint(s1, NoCheckpoint()(s1.applied)));
    }
  }

  // ----- elections -----

  lemma TickOk(i: nat, n: nat, s: Server, timeout: bool, h: History)
    requires ServerInv(i, n, s, h) && HistoryInv(n, h) && 2 <= n
    ensures Updated(i, n, Tick(s, timeout, NoCheckpoint()), h)
  {
    var s' := Tick(s, timeout, NoCheckpoint());
    var s2 := if s.role != Leader && timeout then BecomeCandidate(s) else s;
    ApplyAllKeeps(s2);
    assert s' == ApplyAll(s2, NoCheckpoint());
    assert Granters(s') == Granters(s2);
    if s.role == Leader {
      UpdateLeader(i, n, s, s', h);
    } else {
      UpdateNonLeader(i, n, s, s', h);
    }
  }

  lemma VoteRequestOk(i: nat, n: nat, s: Server, vr: VoteRequest, h: History)
    requires ServerInv(i, n, s, h) && HistoryInv(n, h)
    requires RecvVoteRequest(s, vr).Done?
    ensures Updated(i, n, RecvVoteRequest(s, vr).server, h)
    ensures var r := RecvVoteRequest(s, vr).reply;
            var h' := Observe(h, RecvVoteRequest(s, vr).server);
            r.granted ==> (i, r.term) in h'.votes && h'.votes[(i, r.term)] == vr.candidate
  {
    var s' := RecvVoteRequest(s, vr).server;
    if s'.role == Leader {
      UpdateLeader(i, n, s, s', h);
    } else {
      UpdateNonLeader(i, n, s, s', h);
    }
  }

  lemma VoteReplyOk(i: nat, n: nat, s: Server, src: nat, r: VoteReply, h: History)
    requires ServerInv(i, n, s, h) && HistoryInv(n, h) && i < n
    requires MessageInv(n, VoteRep(src, i, r), h)
    ensures Updated(i, n, RecvVoteReply(s, src, r), h)
  {
    var s' := RecvVoteReply(s, src, r);
    if s.role == Leader {
      UpdateLeader(i, n, s, s', h);
    } else if s'.role != Leader {
      if s'.role == Candidate && s' != s {
        assert Granters(s') <= Granters(s) + {src};
      }
      UpdateNonLeader(i, n, s, s', h);
    } else {
      var s1 := if src < n then s.(peers := s.peers[src := s.peers[src].(granted := true)]) else s;
      assert Granters(s1) <= Granters(s) + if src < n then {src} else {};
      assert Granters(s') == Granters(s1);
      UpdateNewLeader(i, n, s, s', h);
    }
  }

  // ----- the follower's log after an accepted message -----

  /** The log a follower keeps: its own, cut, or the leader's up to the last entry sent. */
  ghost predicate Accepted(log: seq<Entry>, log': seq<Entry>, ae: AppendEntries, ldr: seq<Entry>) {
    var cur := ae.prevIdx + |ae.entries|;
    && cur <= |ldr| && cur <= |log'| && log'[..cur] == ldr[..cur]
    && (log' <= log || log' == ldr[..cur])
  }

  lemma MergeOk(s: Server, ae: AppendEntries, h: History)
    requires s.log.front == 0 && Justified(s.log.entries, h)
    requires ae.term in h.logs && SliceOf(ae, h.logs[ae.term]) && Justified(h.logs[ae.term], h)
    requires ae.prevIdx <= |s.log.entries| && s.log.entries[..ae.prevIdx] == h.logs[ae.term][..ae.prevIdx]
    requires Merge(s, ae.prevIdx, ae.entries).Done?
    ensures var s' := Merge(s, ae.prevIdx, ae.entries).server;
            s' == s.(log := s'.log) && s'.log.front == 0
            && Accepted(s.log.entries, s'.log.entries, ae, h.logs[ae.term])
  {
    var log, ldr, prev, es := s.log.entries, h.logs[ae.term], ae.prevIdx, ae.entries;
    var k := Agreeing(s.log, prev, es);
    assert prev + k <= |log| && log[..prev + k] == ldr[..prev + k] by {
      if k > 0 {
        assert Same(s.log, prev, es, k - 1);
        JustifiedAgree(log, ldr, prev + k - 1, h);
      }
    }
    if k < |es| {
      assert ldr[..prev + k] + es[k..] == ldr[..prev + |es|];
      if !s.log.Has(prev + 1 + k) {
        assert log[..prev + k] == log;
      }
    }
  }

  lemma CutOk(s: Server, ae: AppendEntries, h: History)
    requires s.log.front == 0 && Justified(s.log.entries, h) && CutAfter(s, ae).Done?
    requires ae.prevIdx <= |s.log.entries|
    ensures var s' := CutAfter(s, ae).server;
            && s' == s.(log := s'.log) && s'.log.front == 0
            && ae.prevIdx <= |s'.log.entries| <= |s.log.entries|
            && s'.log.entries == s.log.entries[..|s'.log.entries|]
            && Justified(s'.log.entries, h)
  {
    JustifiedPrefix(s.log.entries, |CutAfter(s, ae).server.log.entries|, h);
  }

  lemma AcceptShape(s: Server, ae: AppendEntries)
    requires Accept(s, ae).Done?
    ensures CutAfter(s, ae).Done? && Merge(CutAfter(s, ae).server, ae.prevIdx, ae.entries).Done?
    ensures var s2 := Merge(CutAfter(s, ae).server, ae.prevIdx, ae.entries).server;
            var s' := Accept(s, ae).server;
            s' == s2.(commit := s'.commit)
  {
  }

  lemma AcceptOk(s: Server, ae: AppendEntries, h: History)
    requires s.log.front == 0 && Justified(s.log.entries, h)
    requires ae.term in h.logs && SliceOf(ae, h.logs[ae.term]) && Justified(h.logs[ae.term], h)
    requires 0 < ae.prevIdx ==> s.log.Has(ae.prevIdx) && s.log.At(ae.prevIdx).term == ae.prevTerm
    requires Accept(s, ae).Done?
    ensures var s' := Accept(s, ae).server;
            s' == s.(log := s'.log, commit := s'.commit) && s'.log.front == 0
            && Accepted(s.log.entries, s'.log.entries, ae, h.logs[ae.term])
            && Justified(s'.log.entries, h)
  {
    var log, ldr := s.log.entries, h.logs[ae.term];
    assert log[..ae.prevIdx] == ldr[..ae.prevIdx] by {
      if 0 < ae.prevIdx {
        JustifiedAgree(log, ldr, ae.prevIdx - 1, h);
      }
    }
    CutOk(s, ae, h);
    var s1 := CutAfter(s, ae).server;
    assert s1.log.entries[..ae.prevIdx] == log[..ae.prevIdx];
    MergeOk(s1, ae, h);
    AcceptedJustified(log, s1.log.entries, Merge(s1, ae.prevIdx, ae.entries).server.log.entries, ae, h);
  }

  lemma AcceptedJustified(log: seq<Entry>, cut: seq<Entry>, log': seq<Entry>, ae: AppendEntries, h: History)
    requires Justified(log, h) && ae.term in h.logs && Justified(h.logs[ae.term], h)
    requires cut <= log && Accepted(cut, log', ae, h.logs[ae.term])
    ensures Accepted(log, log', ae, h.logs[ae.term]) && Justified(log', h)
  {
    if log' <= cut {
      assert log' == log[..|log'|];
      JustifiedPrefix(log, |log'|, h);
    } else {
      JustifiedPrefix(h.logs[ae.term], ae.prevIdx + |ae.entries|, h);
    }
  }

  /** Apart from the term and role, only the log and the commit index change. */
  lemma AppendEntriesShape(s: Server, ae: AppendEntries)
    requires RecvAppendEntries(s, ae).Done?
    ensures var s' := RecvAppendEntries(s, ae).server;
            s' == AdoptTerm(s, ae.term).(log := s'.log, commit := s'.commit)
  {
    var s1 := AdoptTerm(s, ae.term);
    if Accept(s1, ae).Done? {
      AcceptShape(s1, ae);
    }
  }

  /** A refused message at most cuts the log. */
  lemma RefusedLog(s: Server, ae: AppendEntries, h: History)
    requires RecvAppendEntries(s, ae).Done? && !RecvAppendEntries(s, ae).reply.success
    requires s.log.front == 0 && Justified(s.log.entries, h)
    ensures var s' := RecvAppendEntries(s, ae).server;
            && s' == AdoptTerm(s, ae.term).(log := s'.log)
            && s'.log.front == 0 && Justified(s'.log.entries, h)
            && (ae.term < AdoptTerm(s, ae.term).term ==> s'.log == s.log)
  {
    var s' := RecvAppendEntries(s, ae).server;
    assert s'.log.entries == s.log.entries[..|s'.log.entries|];
    JustifiedPrefix(s.log.entries, |s'.log.entries|, h);
  }

  lemma AcceptedLog(s: Server, ae: AppendEntries, h: History)
    requires RecvAppendEntries(s, ae).Done? && RecvAppendEntries(s, ae).reply.success
    requires s.log.front == 0 && s.logBase == 0 && Justified(s.log.entries, h)
    requires ae.term in h.logs && SliceOf(ae, h.logs[ae.term]) && Justified(h.logs[ae.term], h)
    ensures var rd := RecvAppendEntries(s, ae); var s' := rd.server; var cur := rd.reply.currentIdx;
            && s' == AdoptTerm(s, ae.term).(log := s'.log, commit := s'.commit)
            && s'.log.front == 0 && Justified(s'.log.entries, h)
            && rd.reply.term == ae.term == s'.term && cur == ae.prevIdx + |ae.entries| <= |h.logs[ae.term]|
            && cur <= |s'.log.entries| && s'.log.entries[..cur] == h.logs[ae.term][..cur]
  {
    AcceptOk(AdoptTerm(s, ae.term), ae, h);
  }

  lemma AppendEntriesOk(i: nat, n: nat, s: Server, src: nat, ae: AppendEntries, h: History)
    requires ServerInv(i, n, s, h) && HistoryInv(n, h)
    requires MessageInv(n, AppendReq(src, i, ae), h)
    requires RecvAppendEntries(s, ae).Done?
    ensures Updated(i, n, RecvAppendEntries(s, ae).server, h)
    ensures RecvAppendEntries(s, ae).reply.success ==> RecvAppendEntries(s, ae).reply.term == ae.term
    ensures RecvAppendEntries(s, ae).reply.success ==>
              RecvAppendEntries(s, ae).reply.currentIdx <= |h.logs[ae.term]|
  {
    var s' := RecvAppendEntries(s, ae).server;
    assert s.role == Leader ==> ae.term != s.term;
    if RecvAppendEntries(s, ae).reply.success {
      AcceptedLog(s, ae, h);
      UpdateNonLeader(i, n, s, s', h);
    } else {
      RefusedLog(s, ae, h);
      if s'.role == Leader {
        UpdateLeader(i, n, s, s', h);
      } else {
        assert Granters(s') == Granters(s);
        UpdateNonLeader(i, n, s, s', h);
      }
    }
  }

  // ----- the leader -----

  lemma AppendReplyOk(i: nat, n: nat, s: Server, src: nat, r: AppendReply, h: History)
    requires ServerInv(i, n, s, h) && HistoryInv(n, h)
    requires RecvAppendReply(s, src, r, NoCheckpoint()).Done?
    ensures Updated(i, n, RecvAppendReply(s, src, r, NoCheckpoint()).server, h)
  {
    var s' := RecvAppendReply(s, src, r, NoCheckpoint()).server;
    if s' == s {
      if s.role == Leader {
        UpdateLeader(i, n, s, s, h);
      } else {
        UpdateNonLeader(i, n, s, s, h);
      }
    } else if s.term < r.term {
      UpdateNonLeader(i, n, s, s', h);
    } else {
      if r.success {
        RecvSuccessKeeps(s, src, r.currentIdx);
      }
      UpdateLeader(i, n, s, s', h);
    }
  }

  lemma RecvSuccessKeeps(s: Server, src: nat, cur: nat)
    requires src < |s.peers| && RecvSuccess(s, src, cur, NoCheckpoint()).Done?
    ensures var s' := RecvSuccess(s, src, cur, NoCheckpoint()).server;
            var p := s.peers[src];
            var next := if p.nextIdx < cur + 1 then cur + 1 else p.nextIdx;
            && cur <= s.log.Back()
            && s' == s.(commit := s'.commit, applied := s'.applied, delivered := s'.delivered,
                        peers := s.peers[src := p.(nextIdx := next, matchIdx := cur)])
            && (s'.commit != s.commit ==> s.commit < s'.commit == cur && |s.peers| / 2 < 1 + |Acked(s', cur)|)
  {
    var p := s.peers[src];
    var next := if p.nextIdx < cur + 1 then cur + 1 else p.nextIdx;
    var s1 := s.(peers := s.peers[src := p.(nextIdx := next, matchIdx := cur)]);
    var s2 := if |s.peers| / 2 < 1 + |Acked(s1, cur)| && s.commit < cur then s1.(commit := cur) else s1;
    ApplyAllKeeps(s2);
    assert Acked(ApplyAll(s2, NoCheckpoint()), cur) == Acked(s1, cur);
  }

  lemma ClientOk(i: nat, n: nat, s: Server, data: seq<int>, h: History)
    requires ServerInv(i, n, s, h) && HistoryInv(n, h) && 2 <= n
    ensures Updated(i, n, RecvEntries(s, data), h)
  {
    var s' := RecvEntries(s, data);
    if s.role == Leader {
      UpdateLeader(i, n, s, s', h);
    } else {
      UpdateNonLeader(i, n, s, s', h);
    }
  }

  lemma SendOk(i: nat, n: nat, s: Server, j: nat, k: nat, sent: nat, h: History)
    requires ServerInv(i, n, s, h) && HistoryInv(n, h)
    requires s.role == Leader && j < n && j != i
    requires s.log.Has(s.peers[j].nextIdx) ==> 0 < k && s.log.Has(s.peers[j].nextIdx + k - 1)
    requires sent <= |BuildAppend(s, j, k).entries|
    ensures Updated(i, n, SendAppend(s, j, sent), h)
  {
    UpdateLeader(i, n, s, SendAppend(s, j, sent), h);
  }

  lemma BuiltSlice(s: Server, j: nat, k: nat)
    requires s.log.front == 0 && PeersInv(s) && j < |s.peers| && j != s.me
    requires s.log.Has(s.peers[j].nextIdx) ==> 0 < k && s.log.Has(s.peers[j].nextIdx + k - 1)
    ensures SliceOf(BuildAppend(s, j, k), s.log.entries)
  {
  }

  lemma WireOk(n: nat, s: Server, j: nat, ae: AppendEntries, h: History)
    requires LeaderInv(s, h) && ae.term == s.term && j != s.me && SliceOf(ae, s.log.entries)
    ensures forall m <- Wire(s.me, j, ae) :: MessageInv(n, m, h)
  {
    forall x: nat | x < |ae.entries|
      ensures SliceOf(Packet(ae, x), s.log.entries)
    {
      assert ae.entries[x] == s.log.entries[ae.prevIdx + x];
    }
  }

  // ----- a whole step -----

  ghost function After(c: Cluster, st: Step, h: History): History {
    if EffectOf(c, st).Effect? then Observe(h, EffectOf(c, st).server) else h
  }

  lemma StepServer(c: Cluster, st: Step, h: History)
    requires Inv(c, h) && EffectOf(c, st).Effect?
    ensures var e := EffectOf(c, st);
            e.i < |c.servers| && Updated(e.i, |c.servers|, e.server, h)
  {
    var n := |c.servers|;
    match st
    case Timer(i, timeout) => TickOk(i, n, c.servers[i], timeout, h);
    case Client(i, data) => ClientOk(i, n, c.servers[i], data, h);
    case Send(i, j, k, sent) => SendOk(i, n, c.servers[i], j, k, sent, h);
    case Deliver(m) =>
      assert MessageInv(n, m, h);
      match m {
        case VoteReq(src, i, vr) => VoteRequestOk(i, n, c.servers[i], vr, h);
        case VoteRep(src, i, r) => VoteReplyOk(i, n, c.servers[i], src, r, h);
        case AppendReq(src, i, ae) => AppendEntriesOk(i, n, c.servers[i], src, ae, h);
        case AppendRep(src, i, r) => AppendReplyOk(i, n, c.servers[i], src, r, h);
      }
  }

  lemma MessageExtends(n: nat, m: Message, h: History, h': History)
    requires MessageInv(n, m, h) && Extends(h, h')
    ensures MessageInv(n, m, h')
  {
  }

  lemma SendMessages(n: nat, out: set<Message>, h: History, h': History)
    requires forall m <- out :: MessageInv(n, m, h)
    requires Extends(h, h')
    ensures forall m <- out :: MessageInv(n, m, h')
  {
    forall m <- out
      ensures MessageInv(n, m, h')
    {
      MessageExtends(n, m, h, h');
    }
  }

  lemma DeliverVoteRequest(c: Cluster, m: Message, h: History)
    requires Inv(c, h) && m.VoteReq? && m in c.net && m.dst < |c.servers| && DeliverEffect(c, m).Effect?
    ensures var e := DeliverEffect(c, m);
            forall x <- e.out :: MessageInv(|c.servers|, x, Observe(h, e.server))
  {
    assert MessageInv(|c.servers|, m, h);
    VoteRequestOk(m.dst, |c.servers|, c.servers[m.dst], m.vr, h);
  }

  /** A success reply carries what the message said into the new history. */
  lemma AckInv(n: nat, i: nat, src: nat, ae: AppendEntries, ack: AppendReply, h: History, h': History)
    requires MessageInv(n, AppendReq(src, i, ae), h) && Extends(h, h')
    requires ack.success ==> ack.term == ae.term && ack.currentIdx <= |h.logs[ae.term]|
    ensures MessageInv(n, AppendRep(i, src, ack), h')
  {
  }

  lemma DeliverAppend(c: Cluster, m: Message, h: History)
    requires Inv(c, h) && m.AppendReq? && m in c.net && m.dst < |c.servers| && DeliverEffect(c, m).Effect?
    ensures var e := DeliverEffect(c, m);
            forall x <- e.out :: MessageInv(|c.servers|, x, Observe(h, e.server))
  {
    var n, s := |c.servers|, c.servers[m.dst];
    assert MessageInv(n, m, h);
    assert ServerInv(m.dst, n, s, h);
    AppendEntriesOk(m.dst, n, s, m.src, m.ae, h);
    var res := RecvAppendEntries(s, m.ae);
    AckInv(n, m.dst, m.src, m.ae, res.reply, h, Observe(h, res.server));
    assert DeliverEffect(c, m).out == {AppendRep(m.dst, m.src, res.reply)};
  }

  lemma DeliverMessages(c: Cluster, m: Message, h: History)
    requires Inv(c, h) && EffectOf(c, Deliver(m)).Effect?
    ensures var e := EffectOf(c, Deliver(m));
            forall x <- e.out :: MessageInv(|c.servers|, x, Observe(h, e.server))
  {
    match m
    case VoteReq(_, _, _) => DeliverVoteRequest(c, m, h);
    case AppendReq(_, _, _) => DeliverAppend(c, m, h);
    case VoteRep(_, _, _) =>
    case AppendRep(_, _, _) =>
  }

  lemma StepMessages(c: Cluster, st: Step, h: History)
    requires Inv(c, h) && EffectOf(c, st).Effect?
    ensures forall m <- EffectOf(c, st).out :: MessageInv(|c.servers|, m, After(c, st, h))
  {
    match st
    case Timer(i, timeout) =>
    case Client(i, data) =>
    case Send(i, j, k, sent) =>
      SendOk(i, |c.servers|, c.servers[i], j, k, sent, h);
      BuiltSlice(c.servers[i], j, k);
      WireOk(|c.servers|, c.servers[i], j, BuildAppend(c.servers[i], j, k), h);
      SendMessages(|c.servers|, EffectOf(c, st).out, h, After(c, st, h));
    case Deliver(m) => DeliverMessages(c, m, h);
  }

  /** The invariant of a server that did not move. */
  lemma OtherServer(i: nat, n: nat, s: Server, s': Server, h: History)
    requires ServerInv(i, n, s, h)
    requires s'.me != i && Extends(h, Observe(h, s'))
    requires s'.role == Leader && s'.term in h.leader ==> h.leader[s'.term] == s'.me
    ensures ServerInv(i, n, s, Observe(h, s'))
  {
    JustifiedExtends(s.log.entries, h, Observe(h, s'));
  }

  lemma AckSentMono(net: set<Message>, net': set<Message>, s: Server)
    requires net <= net' && MatchInv(s, net)
    ensures MatchInv(s, net')
  {
    if s.role == Leader {
      forall j: nat | j < |s.peers| && j != s.me && 0 < s.peers[j].matchIdx
        ensures AckSent(net', j, s.me, s.term, s.peers[j].matchIdx)
      {
        assert AckSent(net, j, s.me, s.term, s.peers[j].matchIdx);
      }
    }
  }

  /** A server that leads the same term with the same acknowledgements, or does not lead,
      or leads with none. */
  ghost predicate MatchKept(s: Server, s': Server) {
    s'.role == Leader ==>
      && s'.me == s.me && |s'.peers| == |s.peers|
      && (|| (s.role == Leader && s'.term == s.term
              && forall j :: 0 <= j < |s.peers| ==> s'.peers[j].matchIdx == s.peers[j].matchIdx)
          || forall j :: 0 <= j < |s.peers| && j != s.me ==> s'.peers[j].matchIdx == 0)
  }

  lemma MatchKeptInv(s: Server, s': Server, net: set<Message>)
    requires MatchInv(s, net) && MatchKept(s, s')
    ensures MatchInv(s', net)
  {
    if s'.role == Leader {
      forall j: nat | j < |s'.peers| && j != s'.me && 0 < s'.peers[j].matchIdx
        ensures AckSent(net, j, s'.me, s'.term, s'.peers[j].matchIdx)
      {
        assert AckSent(net, j, s.me, s.term, s.peers[j].matchIdx);
      }
    }
  }

  lemma StepMatch(c: Cluster, st: Step, h: History)
    requires Inv(c, h) && EffectOf(c, st).Effect?
    ensures MatchInv(EffectOf(c, st).server, c.net)
  {
    StepServer(c, st, h);
    if st.Deliver? && st.m.AppendRep? {
      MatchAfterReply(c, st.m.src, st.m.dst, st.m.ack, h);
    } else {
      var e := EffectOf(c, st);
      StepMatchKept(c, st, h);
      MatchKeptInv(c.servers[e.i], e.server, c.net);
    }
  }

  lemma StepMatchKept(c: Cluster, st: Step, h: History)
    requires Inv(c, h) && EffectOf(c, st).Effect? && EffectOf(c, st).i < |c.servers|
    requires !(st.Deliver? && st.m.AppendRep?)
    ensures MatchKept(c.servers[EffectOf(c, st).i], EffectOf(c, st).server)
  {
    match st
    case Timer(i, timeout) => TickMatch(c.servers[i], timeout);
    case Client(i, data) =>
    case Send(i, j, k, sent) =>
    case Deliver(m) =>
      if m.AppendReq? {
        AppendEntriesMatch(c.servers[m.dst], m.ae);
      }
  }

  lemma TickMatch(s: Server, timeout: bool)
    requires 2 <= |s.peers| && s.logBase == 0
    ensures MatchKept(s, Tick(s, timeout, NoCheckpoint()))
  {
    ApplyAllKeeps(if s.role != Leader && timeout then BecomeCandidate(s) else s);
  }

  lemma AppendEntriesMatch(s: Server, ae: AppendEntries)
    requires RecvAppendEntries(s, ae).Done?
    ensures MatchKept(s, RecvAppendEntries(s, ae).server)
  {
    AppendEntriesShape(s, ae);
  }

  lemma MatchAfterReply(c: Cluster, src: nat, i: nat, r: AppendReply, h: History)
    requires i < |c.servers| && MatchInv(c.servers[i], c.net) && c.servers[i].me == i
    requires AppendRep(src, i, r) in c.net
    requires RecvAppendReply(c.servers[i], src, r, NoCheckpoint()).Done?
    ensures MatchInv(RecvAppendReply(c.servers[i], src, r, NoCheckpoint()).server, c.net)
  {
    var s := c.servers[i];
    var s' := RecvAppendReply(s, src, r, NoCheckpoint()).server;
    if s'.role == Leader && s' != s {
      if r.success {
        RecvSuccessKeeps(s, src, r.currentIdx);
        assert AppendReply(s.term, true, r.currentIdx, r.firstIdx) == r;
        assert AckSent(c.net, src, i, s.term, r.currentIdx);
      }
      forall j: nat | j < |s'.peers| && j != i && 0 < s'.peers[j].matchIdx
        ensures AckSent(c.net, j, i, s'.term, s'.peers[j].matchIdx)
      {
        if j != src {
          assert s'.peers[j] == s.peers[j];
        }
      }
    }
  }

  lemma StepInv(c: Cluster, st: Step, c': Cluster, h: History)
    requires Inv(c, h) && Next(c, st, c')
    ensures Inv(c', After(c, st, h)) && Extends(h, After(c, st, h))
  {
    var e, h', n := EffectOf(c, st), After(c, st, h), |c.servers|;
    StepServer(c, st, h);
    StepMessages(c, st, h);
    StepMatch(c, st, h);
    forall i | 0 <= i < n
      ensures ServerInv(i, n, c'.servers[i], h') && MatchInv(c'.servers[i], c'.net)
    {
      AckSentMono(c.net, c'.net, c'.servers[i]);
      if i != e.i {
        OtherServer(i, n, c.servers[i], e.server, h);
      }
    }
    forall m <- c'.net
      ensures MessageInv(n, m, h')
    {
      if m in c.net {
        MessageExtends(n, m, h, h');
      }
    }
  }

  lemma InitInv(c: Cluster)
    requires Init(c)
    ensures Inv(c, NO_HISTORY)
  {
  }
}
