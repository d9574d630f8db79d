/** Safety over whole runs: Election Safety, Log Matching, truthful acknowledgements and
    the commit rule (sections 5.2 to 5.4 of the Raft paper). */
module RaftTheorems {
  import opened RaftTypes
  import opened RaftServer
  import opened RaftCluster
  import opened RaftInvariant
  import opened RaftSafety

  // ----- runs -----

  /** A step more. */
  lemma RunOn(run: seq<Cluster>, steps: seq<Step>, st: Step, c': Cluster)
    requires IsRun(run, steps) && Next(run[|steps|], st, c')
    ensures IsRun(run + [c'], steps + [st])
  {
    var run', steps' := run + [c'], steps + [st];
    forall k | 0 <= k < |steps'|
      ensures Next(run'[k], steps'[k], run'[k + 1])
    {
      if k < |steps| {
        assert Next(run[k], steps[k], run[k + 1]);
      }
    }
  }

  /** Messages and members stay. */
  lemma NetGrows(run: seq<Cluster>, steps: seq<Step>, k: nat)
    requires IsRun(run, steps) && k < |steps|
    ensures run[k].net <= run[k + 1].net && |run[k + 1].servers| == |run[k].servers| && 2 <= |run[k].servers|
  {
    assert Next(run[k], steps[k], run[k + 1]);
    InvAt(run, steps, k);
  }

  // ----- histories along a run -----

  ghost function HistoryAt(run: seq<Cluster>, steps: seq<Step>, k: nat): History
    requires IsRun(run, steps) && k < |run|
  {
    if k == 0 then NO_HISTORY else After(run[k - 1], steps[k - 1], HistoryAt(run, steps, k - 1))
  }

  lemma {:induction false} InvAt(run: seq<Cluster>, steps: seq<Step>, k: nat)
    requires IsRun(run, steps) && k < |run|
    ensures Inv(run[k], HistoryAt(run, steps, k))
    ensures 0 < k ==> Extends(HistoryAt(run, steps, k - 1), HistoryAt(run, steps, k))
  {
    if k == 0 {
      InitInv(run[0]);
    } else {
      InvAt(run, steps, k - 1);
      StepInv(run[k - 1], steps[k - 1], run[k], HistoryAt(run, steps, k - 1));
    }
  }

  lemma MovedServer(run: seq<Cluster>, steps: seq<Step>, k: nat) returns (s: Server)
    requires IsRun(run, steps) && 0 < k < |run|
    ensures s.me < |run[k].servers| && run[k].servers[s.me] == s
    ensures HistoryAt(run, steps, k) == Observe(HistoryAt(run, steps, k - 1), s)
  {
    InvAt(run, steps, k - 1);
    assert Next(run[k - 1], steps[k - 1], run[k]);
    s := MovedBy(run[k - 1], steps[k - 1], run[k], HistoryAt(run, steps, k - 1));
  }

  lemma MovedBy(c: Cluster, st: Step, c': Cluster, h: History) returns (s: Server)
    requires Inv(c, h) && Next(c, st, c')
    ensures s.me < |c'.servers| && c'.servers[s.me] == s && After(c, st, h) == Observe(h, s)
  {
    StepServer(c, st, h);
    var e := EffectOf(c, st);
    assert ServerInv(e.i, |c.servers|, e.server, Observe(h, e.server));
    s := e.server;
  }

  /** hs records, state by state, what the servers of the run did. */
  ghost predicate Recorded(run: seq<Cluster>, hs: seq<History>) {
    && |hs| == |run| && 0 < |run| && hs[0] == NO_HISTORY
    && forall k :: 0 < k < |run| ==> RecordedAt(run[k], hs[k - 1], hs[k])
  }

  ghost predicate RecordedAt(c: Cluster, h: History, h': History) {
    && Extends(h, h')
    && exists s :: s in c.servers && MovedAt(c, s, h, h')
  }

  ghost predicate MovedAt(c: Cluster, s: Server, h: History, h': History) {
    s.me < |c.servers| && c.servers[s.me] == s && h' == Observe(h, s)
  }

  lemma RecordStep(run: seq<Cluster>, steps: seq<Step>, k: nat)
    requires IsRun(run, steps) && 0 < k < |run|
    ensures RecordedAt(run[k], HistoryAt(run, steps, k - 1), HistoryAt(run, steps, k))
  {
    InvAt(run, steps, k);
    var s := MovedServer(run, steps, k);
    assert MovedAt(run[k], s, HistoryAt(run, steps, k - 1), HistoryAt(run, steps, k));
  }

  lemma Record(run: seq<Cluster>, steps: seq<Step>) returns (hs: seq<History>)
    requires IsRun(run, steps)
    ensures Recorded(run, hs)
    ensures forall k :: 0 <= k < |run| ==> hs[k] == HistoryAt(run, steps, k)
  {
    hs := seq(|run|, k requires 0 <= k < |run| => HistoryAt(run, steps, k));
    forall k | 0 < k < |run|
      ensures RecordedAt(run[k], hs[k - 1], hs[k])
    {
      RecordStep(run, steps, k);
    }
  }

  lemma {:induction false} HistoryGrows(run: seq<Cluster>, hs: seq<History>, i: nat, j: nat)
    requires Recorded(run, hs) && i <= j < |run|
    ensures Extends(hs[i], hs[j])
    decreases j - i
  {
    if i < j {
      HistoryGrows(run, hs, i, j - 1);
      assert RecordedAt(run[j], hs[j - 1], hs[j]);
      ExtendsTransitive(hs[i], hs[j - 1], hs[j]);
    }
  }

  lemma ExtendsTransitive(a: History, b: History, c: History)
    requires Extends(a, b) && Extends(b, c)
    ensures Extends(a, c)
  {
  }

  // ----- Election Safety -----

  ghost predicate Leads(c: Cluster, i: nat, t: nat) {
    i < |c.servers| && c.servers[i].role == Leader && c.servers[i].term == t
  }

  lemma LeaderRecorded(run: seq<Cluster>, steps: seq<Step>, p: nat, a: nat, t: nat)
    requires IsRun(run, steps) && p < |run| && Leads(run[p], a, t)
    ensures t in HistoryAt(run, steps, p).leader && HistoryAt(run, steps, p).leader[t] == a
  {
    InvAt(run, steps, p);
    assert ServerInv(a, |run[p].servers|, run[p].servers[a], HistoryAt(run, steps, p));
  }

  /** At most one server ever leads a term, over the whole run. */
  lemma ElectionSafety(run: seq<Cluster>, steps: seq<Step>, p: nat, q: nat, a: nat, b: nat, t: nat)
    requires IsRun(run, steps) && p < |run| && q < |run|
    requires Leads(run[p], a, t) && Leads(run[q], b, t)
    ensures a == b
  {
    var last := |run| - 1;
    LeaderRecorded(run, steps, p, a, t);
    LeaderRecorded(run, steps, q, b, t);
    var hs := Record(run, steps);
    HistoryGrows(run, hs, p, last);
    HistoryGrows(run, hs, q, last);
  }

  // ----- Log Matching -----

  lemma LogJustified(run: seq<Cluster>, steps: seq<Step>, p: nat, q: nat, a: nat)
    requires IsRun(run, steps) && p <= q < |run| && a < |run[p].servers|
    ensures run[p].servers[a].log.front == 0
    ensures Justified(run[p].servers[a].log.entries, HistoryAt(run, steps, q))
  {
    InvAt(run, steps, p);
    assert ServerInv(a, |run[p].servers|, run[p].servers[a], HistoryAt(run, steps, p));
    var hs := Record(run, steps);
    HistoryGrows(run, hs, p, q);
    JustifiedExtends(run[p].servers[a].log.entries, hs[p], hs[q]);
  }

  /** Two logs, of any two states of a run, that hold an entry of the same term at the
      same index agree on that entry and on all earlier ones. */
  lemma LogMatching(run: seq<Cluster>, steps: seq<Step>, p: nat, q: nat, a: nat, b: nat, idx: nat)
    requires IsRun(run, steps) && p < |run| && q < |run| && a < |run[p].servers| && b < |run[q].servers|
    requires var la, lb := run[p].servers[a].log, run[q].servers[b].log;
             la.Has(idx) && lb.Has(idx) && la.At(idx).term == lb.At(idx).term
    ensures var la, lb := run[p].servers[a].log, run[q].servers[b].log;
            la.front == 0 && lb.front == 0 && la.entries[..idx] == lb.entries[..idx]
  {
    var last := |run| - 1;
    LogJustified(run, steps, p, last, a);
    LogJustified(run, steps, q, last, b);
    JustifiedAgree(run[p].servers[a].log.entries, run[q].servers[b].log.entries, idx - 1, HistoryAt(run, steps, last));
  }

  // ----- truthful acknowledgements -----

  /** At state q of the run, server d led term t with log `log`. */
  ghost predicate LedWith(run: seq<Cluster>, q: nat, d: nat, t: nat, log: seq<Entry>) {
    q < |run| && Leads(run[q], d, t) && run[q].servers[d].log.entries == log
  }

  /** The recorded log of a term is one its leader really had. */
  lemma {:induction false} LogOfTerm(run: seq<Cluster>, hs: seq<History>, k: nat, t: nat) returns (q: nat)
    requires Recorded(run, hs) && k < |run|
    requires t in hs[k].logs && t in hs[k].leader
    ensures q <= k && LedWith(run, q, hs[k].leader[t], t, hs[k].logs[t])
  {
    assert 0 < k;
    assert RecordedAt(run[k], hs[k - 1], hs[k]);
    var s :| s in run[k].servers && MovedAt(run[k], s, hs[k - 1], hs[k]);
    if s.role == Leader && s.term == t {
      q := k;
    } else {
      q := LogOfTerm(run, hs, k - 1, t);
    }
  }

  /** Whenever a success reply with index c for term t is sent, be it again, the replier's
      first c entries are the first c entries of a log that the leader of t had. */
  lemma TruthfulAcknowledgement(run: seq<Cluster>, steps: seq<Step>, k: nat, src: nat, dst: nat, r: AppendReply)
    returns (q: nat)
    requires IsRun(run, steps) && k < |steps| && r.success
    requires EffectOf(run[k], steps[k]).Effect? && AppendRep(src, dst, r) in EffectOf(run[k], steps[k]).out
    ensures src < |run[k + 1].servers| && q <= k && Leads(run[q], dst, r.term)
    ensures r.currentIdx <= |run[q].servers[dst].log.entries|
    ensures r.currentIdx <= |run[k + 1].servers[src].log.entries|
    ensures run[k + 1].servers[src].log.entries[..r.currentIdx] == run[q].servers[dst].log.entries[..r.currentIdx]
  {
    var c, st, h := run[k], steps[k], HistoryAt(run, steps, k);
    InvAt(run, steps, k);
    assert Next(c, st, run[k + 1]);
    assert MessageInv(|c.servers|, st.m, h);
    AcceptedLog(c.servers[src], st.m.ae, h);
    var hs := Record(run, steps);
    q := LogOfTerm(run, hs, k, st.m.ae.term);
  }

  // ----- the commit rule -----

  /** Member j told server i, in term t, that it holds an entry of that term at or
      beyond `point` in the leader's log. */
  ghost predicate Backs(net: set<Message>, s: Server, j: nat, point: nat) {
    exists m: nat :: point <= m && s.log.Has(m) && s.log.At(m).term == s.term && AckSent(net, j, s.me, s.term, m)
  }

  /** A leader that keeps its term raises its commit index only when a majority, itself
      included, has acknowledged that index with an entry of the leader's own term. */
  lemma CommitNeedsMajority(run: seq<Cluster>, steps: seq<Step>, k: nat, i: nat) returns (q: set<nat>)
    requires IsRun(run, steps) && k < |steps| && i < |run[k].servers| && i < |run[k + 1].servers|
    requires var s, s' := run[k].servers[i], run[k + 1].servers[i];
             s.role == Leader == s'.role && s.term == s'.term && s.commit < s'.commit
    ensures var s' := run[k + 1].servers[i];
            && i in q && |run[k].servers| < 2 * |q|
            && (forall j <- q :: j < |run[k].servers| && (j != i ==> Backs(run[k].net, s', j, s'.commit)))
  {
    var c, st, h := run[k], steps[k], HistoryAt(run, steps, k);
    var s, s' := c.servers[i], run[k + 1].servers[i];
    InvAt(run, steps, k);
    assert ServerInv(i, |c.servers|, s, h);
    OnlyRepliesCommit(c, st, i);
    var src, r := st.m.src, st.m.ack;
    RecvSuccessKeeps(s, src, r.currentIdx);
    q := Acked(s', s'.commit) + {i};
    assert i !in Acked(s', s'.commit);
    MatchAfterReply(c, src, i, r, h);
    forall j <- q | j != i
      ensures j < |c.servers| && Backs(c.net, s', j, s'.commit)
    {
      assert CountsFor(s', j, s'.commit);
      assert AckSent(c.net, j, i, s.term, s'.peers[j].matchIdx);
    }
  }

  /** No other step moves a leader's commit index. */
  lemma OnlyRepliesCommit(c: Cluster, st: Step, i: nat)
    requires EffectOf(c, st).Effect? && EffectOf(c, st).i < |c.servers| && i < |c.servers|
    requires forall j :: 0 <= j < |c.servers| ==>
               c.servers[j].me == j && 2 <= |c.servers[j].peers| && c.servers[j].logBase == 0
    requires forall m <- c.net :: m.AppendReq? && m.dst == i && m.ae.term == c.servers[i].term ==>
               c.servers[i].role != Leader
    requires var s, s' := c.servers[i], Apply(c, EffectOf(c, st)).servers[i];
             s.role == Leader == s'.role && s.term == s'.term && s.commit < s'.commit
    ensures st.Deliver? && st.m.AppendRep? && st.m.dst == i
    ensures st.m.src < |c.servers[i].peers| && st.m.ack.success && st.m.ack.term == c.servers[i].term
    ensures RecvSuccess(c.servers[i], st.m.src, st.m.ack.currentIdx, NoCheckpoint()).Done?
    ensures Apply(c, EffectOf(c, st)).servers[i]
         == RecvSuccess(c.servers[i], st.m.src, st.m.ack.currentIdx, NoCheckpoint()).server
  {
    var s := c.servers[i];
    match st
    case Timer(_, timeout) => ApplyAllKeeps(s);
    case Client(_, _) =>
    case Send(_, _, _, _) =>
    case Deliver(m) =>
      if m.AppendReq? {
        LeaderIgnores(s, m.ae);
      }
  }

  lemma LeaderIgnores(s: Server, ae: AppendEntries)
    requires s.role == Leader && RecvAppendEntries(s, ae).Done? && ae.term != s.term
    ensures var s' := RecvAppendEntries(s, ae).server;
            s' == s || (s'.role == Follower && s.term < s'.term)
  {
    AppendEntriesShape(s, ae);
  }

  // ----- one vote per term -----

  lemma VoteRecorded(run: seq<Cluster>, steps: seq<Step>, p: nat, src: nat, dst: nat, r: VoteReply)
    requires IsRun(run, steps) && p < |run| && r.granted && VoteRep(src, dst, r) in run[p].net
    ensures (src, r.term) in HistoryAt(run, steps, p).votes && HistoryAt(run, steps, p).votes[(src, r.term)] == dst
  {
    InvAt(run, steps, p);
    assert MessageInv(|run[p].servers|, VoteRep(src, dst, r), HistoryAt(run, steps, p));
  }

  /** Over a whole run, the votes one server grants in one term go to one candidate. */
  lemma OneVotePerTerm(run: seq<Cluster>, steps: seq<Step>, p: nat, q: nat,
                       src: nat, a: nat, b: nat, ra: VoteReply, rb: VoteReply)
    requires IsRun(run, steps) && p < |run| && q < |run| && ra.granted && rb.granted && ra.term == rb.term
    requires VoteRep(src, a, ra) in run[p].net && VoteRep(src, b, rb) in run[q].net
    ensures a == b
  {
    var last := |run| - 1;
    VoteRecorded(run, steps, p, src, a, ra);
    VoteRecorded(run, steps, q, src, b, rb);
    var hs := Record(run, steps);
    HistoryGrows(run, hs, p, last);
    HistoryGrows(run, hs, q, last);
  }

  /** Without compaction no message tells its receiver to shut down. */
  lemma NoShutdownMessage(run: seq<Cluster>, steps: seq<Step>, p: nat, m: Message)
    requires IsRun(run, steps) && p < |run| && m in run[p].net && m.AppendReq?
    ensures m.ae.prevTerm != -1
  {
    InvAt(run, steps, p);
    assert MessageInv(|run[p].servers|, m, HistoryAt(run, steps, p));
  }
}
