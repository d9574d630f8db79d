/** Leader Completeness (section 5.4.3 of the Raft paper): what a majority has acknowledged
    in a term, up to an entry of that term, is in the log of every later leader. It needs
    that no server drops entries of a term on an empty message of that term. */
module RaftComplete {
  import opened RaftTypes
  import opened RaftServer
  import opened RaftCluster
  import opened RaftInvariant
  import opened RaftSafety
  import opened RaftTheorems
  import opened RaftMoves
  import opened RaftAck
  import opened RaftPast
  import opened ServerOrder

  // ----- terms of entries -----

  ghost predicate UpTo(log: seq<Entry>, t: nat) {
    forall e <- log :: e.term <= t
  }

  /** No log has an entry of a later term than its server or leader. */
  ghost predicate TermsInv(c: Cluster, h: History) {
    && (forall i {:trigger c.servers[i]} :: 0 <= i < |c.servers| ==> UpTo(c.servers[i].log.entries, c.servers[i].term))
    && (forall t <- h.logs :: UpTo(h.logs[t], t))
  }

  lemma UpToPrefix(log: seq<Entry>, log': seq<Entry>, t: nat)
    requires UpTo(log, t) && log' <= log
    ensures UpTo(log', t)
  {
    forall e <- log'
      ensures e.term <= t
    {
      assert e in log;
    }
  }

  lemma AppendUpTo(s: Server, ae: AppendEntries, h: History)
    requires RecvAppendEntries(s, ae).Done? && s.log.front == 0 && s.logBase == 0 && Justified(s.log.entries, h)
    requires ae.term in h.logs && SliceOf(ae, h.logs[ae.term]) && Justified(h.logs[ae.term], h)
    requires UpTo(s.log.entries, s.term) && UpTo(h.logs[ae.term], ae.term)
    ensures UpTo(RecvAppendEntries(s, ae).server.log.entries, RecvAppendEntries(s, ae).server.term)
  {
    var s' := RecvAppendEntries(s, ae).server;
    AppendEntriesShape(s, ae);
    if RecvAppendEntries(s, ae).reply.success {
      AcceptOk(AdoptTerm(s, ae.term), ae, h);
      if s'.log.entries <= s.log.entries {
        UpToPrefix(s.log.entries, s'.log.entries, s.term);
      } else {
        UpToPrefix(h.logs[ae.term], s'.log.entries, ae.term);
      }
    } else {
      assert s'.log.entries == s.log.entries[..|s'.log.entries|];
      UpToPrefix(s.log.entries, s'.log.entries, s.term);
    }
  }

  lemma MovedUpTo(c: Cluster, st: Step, c': Cluster, h: History)
    requires Inv(c, h) && Next(c, st, c') && TermsInv(c, h)
    ensures var s' := EffectOf(c, st).server; UpTo(s'.log.entries, s'.term)
  {
    var i := EffectOf(c, st).i;
    var s, s' := c.servers[i], c'.servers[i];
    StepMoves(c, st, c', h);
    assert ServerInv(i, |c.servers|, s, h) && UpTo(s.log.entries, s.term);
    if s'.log != s.log && EventOf(st).AppendIn? {
      assert MessageInv(|c.servers|, st.m, h);
      AppendUpTo(s, st.m.ae, h);
    }
  }

  lemma TermsStep(c: Cluster, st: Step, c': Cluster, h: History)
    requires Inv(c, h) && Next(c, st, c') && TermsInv(c, h)
    ensures TermsInv(c', After(c, st, h))
  {
    MovedUpTo(c, st, c', h);
  }

  lemma TermsInit(c: Cluster)
    requires Init(c)
    ensures TermsInv(c, NO_HISTORY)
  {
  }

  lemma {:induction false} TermsAt(run: seq<Cluster>, steps: seq<Step>, hs: seq<History>, k: nat)
    requires Told(run, steps, hs) && k < |run|
    ensures TermsInv(run[k], hs[k])
  {
    if k == 0 {
      TermsInit(run[0]);
    } else {
      TermsAt(run, steps, hs, k - 1);
      ToldStep(run, steps, hs, k - 1);
      TermsStep(run[k - 1], steps[k - 1], run[k], hs[k - 1]);
    }
  }

  /** The last entry of a justified log has the greatest term. */
  lemma LastTermGreatest(log: seq<Entry>, x: nat, h: History)
    requires Justified(log, h) && x < |log| && forall t <- h.logs :: UpTo(h.logs[t], t)
    ensures log[x].term <= LastTermOf(log)
  {
    var last := |log| - 1;
    assert JustifiedAt(log, last, h);
    var ldr := h.logs[log[last].term];
    assert log[x] == log[..last + 1][x] == ldr[..last + 1][x] == ldr[x];
    assert ldr[x] in ldr;
  }

  // ----- a step that keeps a prefix -----

  /** An empty message that would cut the log of s within its first n entries. */
  predicate CutsWithin(s: Server, ae: AppendEntries, n: nat) {
    ae.entries == [] && 0 < ae.prevIdx < n && ae.prevIdx + 1 < |s.log.entries|
  }

  lemma AppendHolds(s: Server, ae: AppendEntries, p: seq<Entry>, h: History)
    requires s.log.front == 0 && s.logBase == 0 && Justified(s.log.entries, h) && p <= s.log.entries
    requires s.role == Leader ==> ae.term != s.term
    requires ae.term in h.logs && Justified(h.logs[ae.term], h) && SliceOf(ae, h.logs[ae.term])
    requires s.term <= ae.term ==> p <= h.logs[ae.term] && !CutsWithin(s, ae, |p|)
    requires RecvAppendEntries(s, ae).Done?
    ensures p <= RecvAppendEntries(s, ae).server.log.entries
  {
    if s.term <= ae.term {
      var s1 := AdoptTerm(s, ae.term);
      AdoptedTwice(s, ae);
      assert s1.log.entries[..|p|] == p == h.logs[ae.term][..|p|];
      AcknowledgedPrefixKept(s1, ae, |p|, h);
    }
  }

  /** The step delivers to j an append-entries message that is not out of date. */
  predicate Current(c: Cluster, st: Step, j: nat) {
    j < |c.servers| && st.Deliver? && st.m.AppendReq? && st.m.dst == j && c.servers[j].term <= st.m.ae.term
  }

  lemma StepHolds(c: Cluster, st: Step, c': Cluster, j: nat, p: seq<Entry>, h: History)
    requires Inv(c, h) && Next(c, st, c') && Holds(c, j, p)
    requires Current(c, st, j) ==>
               st.m.ae.term in h.logs && p <= h.logs[st.m.ae.term] && !CutsWithin(c.servers[j], st.m.ae, |p|)
    ensures |c'.servers| == |c.servers| && Holds(c', j, p)
  {
    StepMoves(c, st, c', h);
    StepServes(c, st, c');
    var s := c.servers[j];
    assert ServerInv(j, |c.servers|, s, h);
    if EffectOf(c, st).i == j && EventOf(st).AppendIn? {
      assert MessageInv(|c.servers|, st.m, h);
      AppendHolds(s, st.m.ae, p, h);
    }
  }

  // ----- the condition -----

  /** The step hands a server an empty message that it accepts, and that makes it drop
      entries of the message's own term. */
  predicate Drops(c: Cluster, st: Step) {
    && st.Deliver? && st.m.AppendReq? && st.m.dst < |c.servers|
    && var s, ae := c.servers[st.m.dst], st.m.ae;
    && s.term <= ae.term && ae.entries == [] && 0 < ae.prevIdx && ae.prevIdx + 1 < |s.log.entries|
    && s.log.Has(ae.prevIdx) && s.log.At(ae.prevIdx).term == ae.prevTerm && LastTermOf(s.log.entries) == ae.term
  }

  ghost predicate NothingDropped(run: seq<Cluster>, steps: seq<Step>) {
    forall k {:trigger steps[k]} :: 0 <= k < |steps| && k < |run| ==> !Drops(run[k], steps[k])
  }

  // ----- a prefix is held until the vote -----

  /** p ends with an entry of term t. */
  ghost predicate EndsIn(p: seq<Entry>, t: nat) {
    p != [] && p[|p| - 1].term == t
  }

  /** Whenever term w has a leader, its log begins with p. */
  ghost predicate Complete(hs: seq<History>, p: seq<Entry>, w: nat) {
    forall y {:trigger hs[y]} :: 0 <= y < |hs| && w in hs[y].logs ==> p <= hs[y].logs[w]
  }

  /** A leader of a term between has p, so no empty message of it cuts into p. */
  lemma LaterLeaderHas(run: seq<Cluster>, steps: seq<Step>, hs: seq<History>, k: nat, m: Message, p: seq<Entry>)
    requires Told(run, steps, hs) && k < |run| && m in run[k].net && m.AppendReq? && Complete(hs, p, m.ae.term)
    ensures m.ae.term in hs[k].logs && p <= hs[k].logs[m.ae.term]
    ensures m.ae.entries == [] ==> |p| <= m.ae.prevIdx
  {
    ToldInv(run, steps, hs, k);
    assert MessageInv(|run[k].servers|, m, hs[k]);
    if m.ae.entries == [] {
      var g := EmptySent(run, steps, k, m);
      ToldInv(run, steps, hs, g);
      assert ServerInv(m.src, |run[g].servers|, run[g].servers[m.src], hs[g]);
    }
  }

  /** In the term in which p was recorded, only dropping entries of that term cuts p. */
  lemma SameTermCut(c: Cluster, st: Step, j: nat, t: nat, p: seq<Entry>, h: History)
    requires Inv(c, h) && TermsInv(c, h) && Current(c, st, j) && st.m in c.net && st.m.ae.term == t
    requires Holds(c, j, p) && EndsIn(p, t) && t in h.logs && p <= h.logs[t]
    requires CutsWithin(c.servers[j], st.m.ae, |p|)
    ensures Drops(c, st)
  {
    var s, ae := c.servers[j], st.m.ae;
    var log := s.log.entries;
    assert ServerInv(j, |c.servers|, s, h) && MessageInv(|c.servers|, st.m, h);
    assert log[|p| - 1] == p[|p| - 1] && log[ae.prevIdx - 1] == p[ae.prevIdx - 1] == h.logs[t][ae.prevIdx - 1];
    LastTermGreatest(log, |p| - 1, h);
    assert log[|log| - 1] in log;
  }

  /** No message of term u reaches a voter of its leader before the vote. */
  lemma NoLeaderBeforeVote(run: seq<Cluster>, steps: seq<Step>, hs: seq<History>, k: nat, v: nat, x: nat, j: nat,
                           u: nat)
    requires Told(run, steps, hs) && k <= v <= x < |run| && u in hs[x].quorum && j in hs[x].quorum[u]
    requires (j, u) !in hs[v].votes
    ensures u !in hs[k].leader
  {
    if u in hs[k].leader {
      ToldKeys(run, steps, hs, k);
      QuorumStays(run, hs, k, x, u);
      ToldInv(run, steps, hs, k);
      assert ElectedBy(|run[k].servers|, hs[k], u);
      HistoryGrows(run, hs, k, v);
    }
  }

  /** What is known of a voter j of term u that held p in term t at state s0. */
  ghost predicate Voter(run: seq<Cluster>, steps: seq<Step>, hs: seq<History>, t: nat, p: seq<Entry>, s0: nat, v: nat,
                        x: nat, j: nat, u: nat) {
    && Told(run, steps, hs) && NothingDropped(run, steps) && s0 <= v <= x < |run| && t < u
    && j < |run[s0].servers| && Holds(run[s0], j, p) && t <= run[s0].servers[j].term
    && EndsIn(p, t) && t in hs[s0].logs && p <= hs[s0].logs[t]
    && u in hs[x].quorum && j in hs[x].quorum[u] && (j, u) !in hs[v].votes
    && j < |run[v].servers| && run[v].servers[j].term <= u
    && (forall w {:trigger Complete(hs, p, w)} :: t < w < u ==> Complete(hs, p, w))
  }

  lemma VoterStep(run: seq<Cluster>, steps: seq<Step>, hs: seq<History>, t: nat, p: seq<Entry>, s0: nat, v: nat,
                  x: nat, j: nat, u: nat, k: nat)
    requires Voter(run, steps, hs, t, p, s0, v, x, j, u) && s0 <= k < v && Holds(run[k], j, p)
    ensures Holds(run[k + 1], j, p)
  {
    var c, st, h := run[k], steps[k], hs[k];
    ToldStep(run, steps, hs, k);
    if Current(c, st, j) {
      var w := st.m.ae.term;
      TermsGrowAlong(run, steps, s0, k, j);
      TermsGrowAlong(run, steps, k + 1, v, j);
      DeliveredTerm(c, st, run[k + 1], j, h);
      HistoryGrows(run, hs, s0, k);
      if w == u {
        assert MessageInv(|c.servers|, st.m, h);
        NoLeaderBeforeVote(run, steps, hs, k, v, x, j, u);
      } else if t < w {
        assert Complete(hs, p, w);
        LaterLeaderHas(run, steps, hs, k, st.m, p);
      } else if CutsWithin(c.servers[j], st.m.ae, |p|) {
        TermsAt(run, steps, hs, k);
        SameTermCut(c, st, j, t, p, h);
      }
    }
    StepHolds(c, st, run[k + 1], j, p, h);
  }

  /** A current message leaves its receiver in the message's term. */
  lemma DeliveredTerm(c: Cluster, st: Step, c': Cluster, j: nat, h: History)
    requires Inv(c, h) && Next(c, st, c') && Current(c, st, j)
    ensures st.m in c.net && j < |c'.servers| && c'.servers[j].term == st.m.ae.term
  {
    AppendEntriesShape(c.servers[j], st.m.ae);
  }

  lemma HeldUntilVote(run: seq<Cluster>, steps: seq<Step>, hs: seq<History>, t: nat, p: seq<Entry>,
                      s0: nat, v: nat, x: nat, j: nat, u: nat)
    requires Voter(run, steps, hs, t, p, s0, v, x, j, u)
    ensures Holds(run[v], j, p)
  {
    for k := s0 to v
      invariant Holds(run[k], j, p)
    {
      VoterStep(run, steps, hs, t, p, s0, v, x, j, u, k);
    }
  }

  // ----- the election restriction -----

  /** A log at least as up to date as one that holds p holds p too, when the leaders of
      the terms between do. */
  lemma UpToDateHolds(a: seq<Entry>, b: seq<Entry>, p: seq<Entry>, t: nat, u: nat, h: History)
    requires Justified(a, h) && Justified(b, h) && (forall w <- h.logs :: UpTo(h.logs[w], w))
    requires p <= a && EndsIn(p, t) && (forall e <- b :: e.term < u)
    requires LastTermOf(a) < LastTermOf(b) || (LastTermOf(a) == LastTermOf(b) && |a| <= |b|)
    requires forall w :: t < w < u && w in h.logs ==> p <= h.logs[w]
    ensures p <= b
  {
    LastTermGreatest(a, |p| - 1, h);
    assert a[|p| - 1] == p[|p| - 1];
    var n, w := |b|, LastTermOf(b);
    assert b != [];
    assert JustifiedAt(b, n - 1, h) && b[n - 1] in b;
    assert b == b[..n] == h.logs[w][..n];
    if LastTermOf(a) == w {
      assert JustifiedAt(a, |a| - 1, h);
      assert a == a[..|a|] == h.logs[w][..|a|];
    } else {
      assert t < w < u && p <= h.logs[w];
      if n < |p| {
        assert b[n - 1] == h.logs[w][n - 1] == p[n - 1] == a[n - 1];
        LastTermGreatest(a, n - 1, h);
      }
    }
  }

  // ----- the theorem -----

  /** Server j once held p in term t, at a time when p was in the log of t's leader. */
  ghost predicate HeldOnce(run: seq<Cluster>, hs: seq<History>, j: nat, t: nat, p: seq<Entry>, s0: nat) {
    && s0 < |run| && s0 < |hs| && Holds(run[s0], j, p) && run[s0].servers[j].term == t
    && t in hs[s0].logs && p <= hs[s0].logs[t]
  }

  /** A majority q has held p, which ends with an entry of term t, in term t. */
  ghost predicate Backed(run: seq<Cluster>, hs: seq<History>, t: nat, p: seq<Entry>, q: set<nat>) {
    && 0 < |run| && EndsIn(p, t) && |run[0].servers| < 2 * |q|
    && forall j <- q :: j < |run[0].servers| && exists s0 :: HeldOnce(run, hs, j, t, p, s0)
  }

  lemma ServersCount(run: seq<Cluster>, steps: seq<Step>, k: nat)
    requires IsRun(run, steps) && k < |run|
    ensures |run[k].servers| == |run[0].servers|
  {
    TermsGrowAlong(run, steps, 0, k, 0);
  }

  /** The candidate's log holds p, because one of its voters held it when it voted. */
  lemma CandidateHolds(run: seq<Cluster>, steps: seq<Step>, hs: seq<History>, t: nat, p: seq<Entry>, s0: nat, v: nat,
                       x: nat,
                       j: nat, u: nat, v0: nat, log: seq<Entry>)
    requires Voter(run, steps, hs, t, p, s0, v, x, j, u) && v < x
    requires (j, u) in hs[v + 1].votes && u in hs[x].leader && hs[v + 1].votes[(j, u)] == hs[x].leader[u]
    requires Became(run, steps, v0, hs[x].leader[u], u, log) && v0 < x
    ensures p <= log
  {
    var c, st := run[v], steps[v];
    ToldStep(run, steps, hs, v);
    VoteStep(c, st, run[v + 1], hs[v], j, u);
    HeldUntilVote(run, steps, hs, t, p, s0, v, x, j, u);
    var mine := c.servers[j].log.entries;
    if hs[x].leader[u] == j && c.servers[j].term + 1 == u {
      BecameOnce(run, steps, v, v0, j, u, mine, log);
    } else {
      var v1, asked := RequestMade(run, steps, v, st.m);
      BecameOnce(run, steps, v1, v0, st.m.src, u, asked, log);
      LogJustified(run, steps, v, x, j);
      LogJustified(run, steps, v0, x, st.m.src);
      TermsAt(run, steps, hs, x);
      TermsAt(run, steps, hs, v0);
      BelowTerm(run[v0], hs[v0], st.m.src, u);
      forall w | t < w < u && w in hs[x].logs
        ensures p <= hs[x].logs[w]
      {
        assert Complete(hs, p, w);
      }
      UpToDateHolds(mine, log, p, t, u, hs[x]);
    }
  }

  lemma BelowTerm(c: Cluster, h: History, i: nat, u: nat)
    requires TermsInv(c, h) && i < |c.servers| && c.servers[i].term + 1 == u
    ensures forall e <- c.servers[i].log.entries :: e.term < u
  {
    assert UpTo(c.servers[i].log.entries, c.servers[i].term);
  }

  /** Some member of the majority voted for the leader of term u. */
  lemma CommonVoter(run: seq<Cluster>, steps: seq<Step>, hs: seq<History>, t: nat, p: seq<Entry>, q: set<nat>, x: nat,
                    u: nat)
    returns (j: nat, v: nat)
    requires Told(run, steps, hs) && Backed(run, hs, t, p, q) && x < |run| && u in hs[x].logs
    ensures u in hs[x].leader && u in hs[x].quorum && j in q && j in hs[x].quorum[u]
    ensures v < x && (j, u) !in hs[v].votes && (j, u) in hs[v + 1].votes && hs[v + 1].votes[(j, u)] == hs[x].leader[u]
  {
    ToldInv(run, steps, hs, x);
    ServersCount(run, steps, x);
    assert ElectedBy(|run[x].servers|, hs[x], u);
    j := MajoritiesMeet(q, hs[x].quorum[u], |run[0].servers|);
    v := FirstVote(run, hs, x, j, u);
  }

  /** The vote came after the moment at which the voter held p. */
  lemma VotesLater(run: seq<Cluster>, steps: seq<Step>, hs: seq<History>, t: nat, u: nat, s0: nat, v: nat, j: nat)
    requires Told(run, steps, hs) && t < u && s0 < |run| && v < |steps|
    requires j < |run[s0].servers| && run[s0].servers[j].term == t
    requires (j, u) !in hs[v].votes && (j, u) in hs[v + 1].votes
    ensures s0 <= v && j < |run[v].servers| && run[v].servers[j].term <= u
  {
    ToldStep(run, steps, hs, v);
    VoteStep(run[v], steps[v], run[v + 1], hs[v], j, u);
    if v < s0 {
      TermsGrowAlong(run, steps, v + 1, s0, j);
    }
  }

  /** Every leader of a later term has in its log what a majority has held. */
  lemma {:induction false} LeaderCompleteness(run: seq<Cluster>, steps: seq<Step>, hs: seq<History>, t: nat,
                                              p: seq<Entry>, q: set<nat>, u: nat)
    requires Told(run, steps, hs) && NothingDropped(run, steps) && Backed(run, hs, t, p, q) && t < u
    ensures Complete(hs, p, u)
    decreases u
  {
    forall w {:trigger Complete(hs, p, w)} | t < w < u
      ensures Complete(hs, p, w)
    {
      LeaderCompleteness(run, steps, hs, t, p, q, w);
    }
    forall x {:trigger hs[x]} | 0 <= x < |hs| && u in hs[x].logs
      ensures p <= hs[x].logs[u]
    {
      LeaderHas(run, steps, hs, t, p, q, u, x);
    }
  }

  lemma LeaderHas(run: seq<Cluster>, steps: seq<Step>, hs: seq<History>, t: nat, p: seq<Entry>, q: set<nat>, u: nat,
                  x: nat)
    requires Told(run, steps, hs) && NothingDropped(run, steps) && Backed(run, hs, t, p, q) && t < u
    requires forall w {:trigger Complete(hs, p, w)} :: t < w < u ==> Complete(hs, p, w)
    requires x < |run| && u in hs[x].logs
    ensures p <= hs[x].logs[u]
  {
    var v0, log := ElectedWith(run, steps, hs, x, u);
    var j, v := CommonVoter(run, steps, hs, t, p, q, x, u);
    var s0 :| HeldOnce(run, hs, j, t, p, s0);
    VotesLater(run, steps, hs, t, u, s0, v, j);
    CandidateHolds(run, steps, hs, t, p, s0, v, x, j, u, v0, log);
  }
}
