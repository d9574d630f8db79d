/** Where things in a run come from: a message was sent, a leader was a candidate whose log
    it started from, a vote was cast once, an empty message closed its leader's log. */
module RaftPast {
  import opened RaftTypes
  import opened RaftServer
  import opened RaftCluster
  import opened RaftInvariant
  import opened RaftSafety
  import opened RaftTheorems
  import opened RaftAck
  import opened RaftMoves

  // ----- messages -----

  lemma {:induction false} SentBefore(run: seq<Cluster>, steps: seq<Step>, k: nat, m: Message) returns (a: nat)
    requires IsRun(run, steps) && k < |run| && m in run[k].net
    ensures a < k && a < |steps| && EffectOf(run[a], steps[a]).Effect? && m in EffectOf(run[a], steps[a]).out
  {
    assert k > 0;
    assert Next(run[k - 1], steps[k - 1], run[k - 1 + 1]);
    if m in run[k - 1].net {
      a := SentBefore(run, steps, k - 1, m);
    } else {
      a := k - 1;
    }
  }

  // ----- candidates -----

  function LastTermOf(log: seq<Entry>): nat {
    if log == [] then 0 else log[|log| - 1].term
  }

  /** At step v, server i becomes a candidate of term u with this log. */
  ghost predicate Became(run: seq<Cluster>, steps: seq<Step>, v: nat, i: nat, u: nat, log: seq<Entry>) {
    && v < |steps| && v + 1 < |run| && i < |run[v].servers| && i < |run[v + 1].servers|
    && run[v].servers[i].term + 1 == u == run[v + 1].servers[i].term
    && run[v].servers[i].log.entries == log == run[v + 1].servers[i].log.entries
  }

  lemma {:induction false} CandidateSince(run: seq<Cluster>, steps: seq<Step>, k: nat, i: nat) returns (v: nat)
    requires IsRun(run, steps) && k < |run| && i < |run[k].servers| && run[k].servers[i].role == Candidate
    ensures v < k && Became(run, steps, v, i, run[k].servers[i].term, run[k].servers[i].log.entries)
  {
    assert k > 0;
    var mover := MovesAt(run, steps, k - 1);
    if run[k - 1].servers[i].role == Candidate && run[k - 1].servers[i].term == run[k].servers[i].term {
      v := CandidateSince(run, steps, k - 1, i);
    } else {
      v := k - 1;
    }
  }

  lemma BecameOnce(run: seq<Cluster>, steps: seq<Step>, v: nat, w: nat, i: nat, u: nat, a: seq<Entry>, b: seq<Entry>)
    requires IsRun(run, steps) && Became(run, steps, v, i, u, a) && Became(run, steps, w, i, u, b)
    ensures v == w && a == b
  {
    if v < w {
      TermsGrowAlong(run, steps, v + 1, w, i);
    } else if w < v {
      TermsGrowAlong(run, steps, w + 1, v, i);
    }
  }

  lemma TickRequests(s: Server, timeout: bool)
    requires 2 <= |s.peers| && s.logBase == 0 && s.log.front == 0
    ensures var s' := Tick(s, timeout, NoCheckpoint());
            && s'.log == s.log && s'.me == s.me && (s'.term != s.term ==> s'.term == s.term + 1)
            && VoteRequestOf(s') == VoteRequest(s'.term, s.me, |s.log.entries|, LastTermOf(s.log.entries))
  {
    ApplyAllKeeps(s);
    ApplyAllKeeps(BecomeCandidate(s));
  }

  lemma RequestStep(c: Cluster, st: Step, c': Cluster, m: Message, h: History)
    requires Inv(c, h) && Next(c, st, c') && m in EffectOf(c, st).out && m.VoteReq?
    ensures m.src < |c.servers| == |c'.servers| && m.dst != m.src
    ensures var s, s' := c.servers[m.src], c'.servers[m.src];
            && s.term + 1 == m.vr.term == s'.term && s'.log == s.log
            && m.vr == VoteRequest(s'.term, m.src, |s.log.entries|, LastTermOf(s.log.entries))
  {
    if st.Timer? {
      var s := c.servers[st.i];
      assert ServerInv(st.i, |c.servers|, s, h);
      TickRequests(s, st.timeout);
    }
  }

  /** A vote request describes the log of a server when it became a candidate. */
  lemma RequestMade(run: seq<Cluster>, steps: seq<Step>, k: nat, m: Message) returns (v: nat, log: seq<Entry>)
    requires IsRun(run, steps) && k < |run| && m in run[k].net && m.VoteReq?
    ensures v < k && m.dst != m.src && Became(run, steps, v, m.src, m.vr.term, log)
    ensures m.vr == VoteRequest(m.vr.term, m.src, |log|, LastTermOf(log))
  {
    v := SentBefore(run, steps, k, m);
    InvAt(run, steps, v);
    assert Next(run[v], steps[v], run[v + 1]);
    RequestStep(run[v], steps[v], run[v + 1], m, HistoryAt(run, steps, v));
    log := run[v].servers[m.src].log.entries;
  }

  /** Who takes office was a candidate with that log. */
  lemma NewLeaderStep(c: Cluster, st: Step, c': Cluster, h: History, u: nat) returns (i: nat)
    requires Inv(c, h) && Next(c, st, c') && u !in h.logs && u in After(c, st, h).logs
    ensures i < |c.servers| == |c'.servers| && c.servers[i].role == Candidate && c.servers[i].term == u
    ensures var h' := After(c, st, h);
            u in h'.leader && h'.leader[u] == i && h'.logs[u] == c.servers[i].log.entries
  {
    i := EffectOf(c, st).i;
    ServerMoves(c, st, h);
    StepServer(c, st, h);
    assert ServerInv(i, |c.servers|, c.servers[i], h);
  }

  lemma NewLeaderAt(run: seq<Cluster>, steps: seq<Step>, x: nat, u: nat) returns (i: nat)
    requires IsRun(run, steps) && x + 1 < |run|
    requires u !in HistoryAt(run, steps, x).logs && u in HistoryAt(run, steps, x + 1).logs
    ensures i < |run[x].servers| && run[x].servers[i].role == Candidate && run[x].servers[i].term == u
    ensures var h' := HistoryAt(run, steps, x + 1);
            u in h'.leader && h'.leader[u] == i && h'.logs[u] == run[x].servers[i].log.entries
  {
    InvAt(run, steps, x);
    assert Next(run[x], steps[x], run[x + 1]);
    i := NewLeaderStep(run[x], steps[x], run[x + 1], HistoryAt(run, steps, x), u);
  }

  /** hs is the history of the run, state by state. */
  ghost predicate Told(run: seq<Cluster>, steps: seq<Step>, hs: seq<History>) {
    && IsRun(run, steps) && Recorded(run, hs)
    && forall k {:trigger hs[k]} :: 0 <= k < |run| ==> hs[k] == HistoryAt(run, steps, k)
  }

  lemma Tell(run: seq<Cluster>, steps: seq<Step>) returns (hs: seq<History>)
    requires IsRun(run, steps)
    ensures Told(run, steps, hs)
  {
    hs := Record(run, steps);
  }

  lemma ToldInv(run: seq<Cluster>, steps: seq<Step>, hs: seq<History>, k: nat)
    requires Told(run, steps, hs) && k < |run|
    ensures Inv(run[k], hs[k])
  {
    InvAt(run, steps, k);
  }

  lemma ToldStep(run: seq<Cluster>, steps: seq<Step>, hs: seq<History>, k: nat)
    requires Told(run, steps, hs) && k < |steps|
    ensures Inv(run[k], hs[k]) && Next(run[k], steps[k], run[k + 1]) && hs[k + 1] == After(run[k], steps[k], hs[k])
  {
    InvAt(run, steps, k);
  }

  lemma ToldKeys(run: seq<Cluster>, steps: seq<Step>, hs: seq<History>, k: nat)
    requires Told(run, steps, hs) && k < |run|
    ensures hs[k].leader.Keys == hs[k].quorum.Keys == hs[k].logs.Keys
    ensures k == 0 ==> hs[k] == NO_HISTORY
    ensures 0 < k ==> Extends(hs[k - 1], hs[k])
  {
    ToldInv(run, steps, hs, k);
    assert 0 < k ==> RecordedAt(run[k], hs[k - 1], hs[k]);
  }

  lemma {:induction false} FirstLed(run: seq<Cluster>, hs: seq<History>, x: nat, u: nat) returns (y: nat)
    requires Recorded(run, hs) && x < |run| && u in hs[x].logs
    ensures y < x && u !in hs[y].logs && u in hs[y + 1].logs
  {
    if u in hs[x - 1].logs {
      y := FirstLed(run, hs, x - 1, u);
    } else {
      y := x - 1;
    }
  }

  /** A leader's log begins with the one it had as a candidate. */
  lemma ElectedWith(run: seq<Cluster>, steps: seq<Step>, hs: seq<History>, x: nat, u: nat) returns (v: nat,
                    log: seq<Entry>)
    requires Told(run, steps, hs) && x < |run| && u in hs[x].logs
    ensures u in hs[x].leader && v < x && Became(run, steps, v, hs[x].leader[u], u, log) && log <= hs[x].logs[u]
  {
    var y := FirstLed(run, hs, x, u);
    v, log := NewlyElected(run, steps, hs, y, u);
    HistoryGrows(run, hs, y + 1, x);
  }

  lemma NewlyElected(run: seq<Cluster>, steps: seq<Step>, hs: seq<History>, x: nat, u: nat) returns (v: nat,
                     log: seq<Entry>)
    requires Told(run, steps, hs) && x + 1 < |run| && u !in hs[x].logs && u in hs[x + 1].logs
    ensures u in hs[x + 1].leader && v <= x && Became(run, steps, v, hs[x + 1].leader[u], u, log)
            && log <= hs[x + 1].logs[u]
  {
    var i := NewLeaderAt(run, steps, x, u);
    v := CandidateSince(run, steps, x, i);
    log := run[x].servers[i].log.entries;
  }

  // ----- votes -----

  /** The quorum behind a leader stays on record. */
  lemma {:induction false} QuorumStays(run: seq<Cluster>, hs: seq<History>, p: nat, q: nat, u: nat)
    requires Recorded(run, hs) && p <= q < |run| && u in hs[p].quorum
    ensures u in hs[q].quorum && hs[q].quorum[u] == hs[p].quorum[u]
    decreases q - p
  {
    if p < q {
      QuorumStays(run, hs, p, q - 1, u);
      assert RecordedAt(run[q], hs[q - 1], hs[q]);
    }
  }

  lemma {:induction false} FirstVote(run: seq<Cluster>, hs: seq<History>, x: nat, j: nat, u: nat) returns (v: nat)
    requires Recorded(run, hs) && x < |run| && (j, u) in hs[x].votes
    ensures v < x && (j, u) !in hs[v].votes && (j, u) in hs[v + 1].votes
    ensures hs[v + 1].votes[(j, u)] == hs[x].votes[(j, u)]
  {
    assert x > 0;
    assert RecordedAt(run[x], hs[x - 1], hs[x]);
    if (j, u) in hs[x - 1].votes {
      v := FirstVote(run, hs, x - 1, j, u);
    } else {
      v := x - 1;
    }
  }

  /** The step delivers a vote request that is granted: the candidate's log, as the request
      describes it, is at least as up to date as the voter's. */
  ghost predicate Granted(c: Cluster, st: Step, j: nat, u: nat, cand: int, log: seq<Entry>) {
    && st.Deliver? && st.m.VoteReq? && st.m in c.net && st.m.dst == j && st.m.src == cand && st.m.vr.term == u
    && (|| log == []
        || LastTermOf(log) < st.m.vr.lastTerm
        || (LastTermOf(log) == st.m.vr.lastTerm && |log| <= st.m.vr.lastIdx))
  }

  /** A vote is cast by a new candidate for itself, or in answer to a request. */
  lemma VoteStep(c: Cluster, st: Step, c': Cluster, h: History, j: nat, u: nat)
    requires Inv(c, h) && Next(c, st, c') && (j, u) !in h.votes && (j, u) in After(c, st, h).votes
    ensures j < |c.servers| == |c'.servers| && c.servers[j].term <= u == c'.servers[j].term
    ensures c'.servers[j].log == c.servers[j].log
    ensures var cand := After(c, st, h).votes[(j, u)]; var log := c.servers[j].log.entries;
            (cand == j && c.servers[j].term + 1 == u) || Granted(c, st, j, u, cand, log)
  {
    var i := EffectOf(c, st).i;
    StepServer(c, st, h);
    var s, s' := c.servers[i], c'.servers[i];
    assert ServerInv(i, |c.servers|, s, h);
    assert i == j && s'.term == u && s'.votedFor != NOBODY;
    VoteServe(c, st, h);
  }

  lemma RequestVotes(s: Server, vr: VoteRequest)
    requires RecvVoteRequest(s, vr).Done? && s.log.front == 0
    ensures var s' := RecvVoteRequest(s, vr).server; var log := s.log.entries;
            (s'.votedFor != NOBODY && (s'.term != s.term || s'.votedFor != s.votedFor)) ==>
              && s'.log == s.log && s.term <= s'.term == vr.term && s'.votedFor == vr.candidate
              && (log == [] || LastTermOf(log) < vr.lastTerm || (LastTermOf(log) == vr.lastTerm && |log| <= vr.lastIdx))
  {
  }

  lemma VoteServe(c: Cluster, st: Step, h: History)
    requires Inv(c, h) && EffectOf(c, st).Effect? && EffectOf(c, st).i < |c.servers|
    ensures var s, s' := c.servers[EffectOf(c, st).i], EffectOf(c, st).server;
            (s'.votedFor != NOBODY && (s'.term != s.term || s'.votedFor != s.votedFor)) ==>
              && s'.log == s.log && s.term <= s'.term
              && ((s'.votedFor == s.me && s.term + 1 == s'.term)
                  || Granted(c, st, EffectOf(c, st).i, s'.term, s'.votedFor, s.log.entries))
  {
    var i := EffectOf(c, st).i;
    var s := c.servers[i];
    assert ServerInv(i, |c.servers|, s, h);
    match st
    case Timer(_, timeout) =>
      ApplyAllKeeps(s);
      ApplyAllKeeps(BecomeCandidate(s));
    case Client(_, data) =>
    case Send(_, _, _, _) =>
    case Deliver(m) =>
      match m
      case VoteReq(_, _, vr) =>
        assert MessageInv(|c.servers|, m, h);
        RequestVotes(s, vr);
      case VoteRep(_, _, _) =>
      case AppendReq(_, _, ae) => AppendVote(s, ae);
      case AppendRep(src, _, r) => ReplyVote(s, src, r);
  }

  lemma AppendVote(s: Server, ae: AppendEntries)
    requires RecvAppendEntries(s, ae).Done?
    ensures var s' := RecvAppendEntries(s, ae).server;
            s'.votedFor == NOBODY || (s'.term == s.term && s'.votedFor == s.votedFor)
  {
    AppendEntriesShape(s, ae);
  }

  lemma ReplyVote(s: Server, src: nat, r: AppendReply)
    requires RecvAppendReply(s, src, r, NoCheckpoint()).Done?
    ensures var s' := RecvAppendReply(s, src, r, NoCheckpoint()).server;
            s'.votedFor == NOBODY || (s'.term == s.term && s'.votedFor == s.votedFor)
  {
    if src < |s.peers| && RecvSuccess(s, src, r.currentIdx, NoCheckpoint()).Done? {
      RecvSuccessKeeps(s, src, r.currentIdx);
    }
  }

  // ----- append-entries messages -----

  lemma WireShape(src: nat, dst: nat, ae: AppendEntries, m: Message)
    requires m in Wire(src, dst, ae)
    ensures m.AppendReq? && m.src == src && m.ae.term == ae.term && m.ae.leaderCommit == ae.leaderCommit
    ensures m.ae.entries == [] ==> m.ae == ae
  {
  }

  lemma OnlySends(c: Cluster, st: Step, m: Message)
    requires EffectOf(c, st).Effect? && m in EffectOf(c, st).out && m.AppendReq?
    ensures st.Send? && st.i < |c.servers|
  {
  }

  /** An append-entries message comes from a leader, with its term and commit index. */
  lemma AppendSent(c: Cluster, st: Step, m: Message, h: History)
    requires Inv(c, h) && EffectOf(c, st).Effect? && m in EffectOf(c, st).out && m.AppendReq?
    ensures Leads(c, m.src, m.ae.term) && m.ae.leaderCommit == c.servers[m.src].commit
    ensures m.ae.entries == [] ==> |c.servers[m.src].log.entries| == m.ae.prevIdx
  {
    OnlySends(c, st, m);
    var s := c.servers[st.i];
    assert ServerInv(st.i, |c.servers|, s, h);
    var ae := BuildAppend(s, st.j, st.n);
    WireShape(st.i, st.j, ae, m);
  }

  /** An empty message was built for the end of its leader's log. */
  lemma EmptySent(run: seq<Cluster>, steps: seq<Step>, k: nat, m: Message) returns (g: nat)
    requires IsRun(run, steps) && k < |run| && m in run[k].net && m.AppendReq? && m.ae.entries == []
    ensures g < k && Leads(run[g], m.src, m.ae.term) && |run[g].servers[m.src].log.entries| == m.ae.prevIdx
  {
    g := SentBefore(run, steps, k, m);
    InvAt(run, steps, g);
    AppendSent(run[g], steps[g], m, HistoryAt(run, steps, g));
  }
}
