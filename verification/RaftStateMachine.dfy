/** State Machine Safety (section 5.4.3 of the Raft paper): no two servers deliver different
    entries at one index. It holds in every run in which no server drops entries of a term
    on an empty message of that term, and none commits, beyond what a message covers, an
    entry that is not of the message's term. RaftCut and RaftOver are runs without it. */
module RaftStateMachine {
  import opened RaftTypes
  import opened RaftServer
  import opened RaftCluster
  import opened RaftInvariant
  import opened RaftSafety
  import opened RaftTheorems
  import opened RaftMoves
  import opened RaftAck
  import opened RaftPast
  import opened RaftComplete
  import opened ServerOrder

  // ----- the second condition -----

  /** The message is accepted as it is, ends before both the log and the leader's commit
      index, and the entry up to which the server now commits is not of its term. */
  ghost predicate CommitsBeyond(s: Server, ae: AppendEntries) {
    var top := if ae.leaderCommit < |s.log.entries| then ae.leaderCommit else |s.log.entries|;
    && s.term <= ae.term && s.commit < top && ae.prevIdx + |ae.entries| < top
    && (ae.prevIdx == 0 || (s.log.Has(ae.prevIdx) && s.log.At(ae.prevIdx).term == ae.prevTerm))
    && (forall k :: 0 <= k < |ae.entries| ==> Same(s.log, ae.prevIdx, ae.entries, k))
    && s.log.front == 0 && s.log.At(top).term != ae.term
  }

  ghost predicate Overcommits(c: Cluster, st: Step) {
    st.Deliver? && st.m.AppendReq? && st.m.dst < |c.servers| && CommitsBeyond(c.servers[st.m.dst], st.m.ae)
  }

  /** A run without the two steps that break safety. */
  ghost predicate Careful(run: seq<Cluster>, steps: seq<Step>) {
    && NothingDropped(run, steps)
    && forall k {:trigger steps[k]} :: 0 <= k < |steps| && k < |run| ==> !Overcommits(run[k], steps[k])
  }

  // ----- a follower commits what its leader has committed -----

  lemma AdvanceShape(s: Server, ae: AppendEntries)
    requires s.log.front == 0 && Accept(s, ae).Done? && Accept(s, ae).server.log.front == 0
    ensures var s' := Accept(s, ae).server; var n := |s'.log.entries|;
            s'.commit == s.commit || s.commit < s'.commit == if ae.leaderCommit < n then ae.leaderCommit else n
  {
    AcceptShape(s, ae);
  }

  lemma AcceptCommit(s: Server, ae: AppendEntries, h: History)
    requires s.log.front == 0 && s.logBase == 0 && Justified(s.log.entries, h) && s.term == ae.term
    requires ae.term in h.logs && Justified(h.logs[ae.term], h) && SliceOf(ae, h.logs[ae.term])
    requires 0 < ae.prevIdx ==> s.log.Has(ae.prevIdx) && s.log.At(ae.prevIdx).term == ae.prevTerm
    requires Accept(s, ae).Done? && !CommitsBeyond(s, ae)
    ensures var s' := Accept(s, ae).server; s'.commit == s.commit || FromLeader(s', ae, h.logs[ae.term])
  {
    var s' := Accept(s, ae).server;
    var n := ae.prevIdx + |ae.entries|;
    AcceptOk(s, ae, h);
    AdvanceShape(s, ae);
    if s'.commit != s.commit {
      if s'.commit <= n {
        assert s'.log.entries[..s'.commit] == s'.log.entries[..n][..s'.commit];
      } else {
        BeyondMessage(s, ae, s', h);
      }
    }
  }

  lemma BeyondMessage(s: Server, ae: AppendEntries, s': Server, h: History)
    requires s.log.front == 0 && Justified(s.log.entries, h) && s.term == ae.term && ae.term in h.logs
    requires 0 < ae.prevIdx ==> s.log.Has(ae.prevIdx) && s.log.At(ae.prevIdx).term == ae.prevTerm
    requires Accept(s, ae).Done? && s' == Accept(s, ae).server && !CommitsBeyond(s, ae)
    requires var n := |s'.log.entries|; s.commit < s'.commit == if ae.leaderCommit < n then ae.leaderCommit else n
    requires ae.prevIdx + |ae.entries| < s'.commit
    ensures FromLeader(s', ae, h.logs[ae.term])
  {
    UnchangedBeyond(s, ae, h);
    assert JustifiedAt(s.log.entries, s'.commit - 1, h);
  }

  /** The committed prefix is one the leader had committed when it sent the message. */
  ghost predicate FromLeader(s: Server, ae: AppendEntries, ldr: seq<Entry>) {
    && s.commit <= ae.leaderCommit && s.commit <= |s.log.entries| && s.commit <= |ldr|
    && s.log.entries[..s.commit] == ldr[..s.commit]
  }

  lemma FollowerCommit(s: Server, ae: AppendEntries, h: History)
    requires s.log.front == 0 && s.logBase == 0 && Justified(s.log.entries, h)
    requires ae.term in h.logs && Justified(h.logs[ae.term], h) && SliceOf(ae, h.logs[ae.term])
    requires RecvAppendEntries(s, ae).Done? && !CommitsBeyond(s, ae)
    ensures var s' := RecvAppendEntries(s, ae).server; s'.commit == s.commit || FromLeader(s', ae, h.logs[ae.term])
  {
    var s1 := AdoptTerm(s, ae.term);
    if RecvAppendEntries(s, ae).server.commit != s.commit {
      AcceptCommit(s1, ae, h);
    }
  }

  /** A log that reaches beyond an accepted message agreed with it and was left alone. */
  lemma UnchangedBeyond(s: Server, ae: AppendEntries, h: History)
    requires s.log.front == 0 && Accept(s, ae).Done?
    requires ae.prevIdx <= |s.log.entries| && ae.prevIdx + |ae.entries| < |Accept(s, ae).server.log.entries|
    ensures Accept(s, ae).server.log == s.log
    ensures forall k :: 0 <= k < |ae.entries| ==> Same(s.log, ae.prevIdx, ae.entries, k)
  {
    AcceptShape(s, ae);
    var s1 := CutAfter(s, ae).server;
    var i := Agreeing(s1.log, ae.prevIdx, ae.entries);
  }

  // ----- what is committed is backed by a majority -----

  ghost predicate Sealed(run: seq<Cluster>, hs: seq<History>, x: seq<Entry>) {
    x == [] || exists t, p, q :: Backed(run, hs, t, p, q) && x <= p
  }

  ghost predicate ServerSealed(run: seq<Cluster>, hs: seq<History>, s: Server) {
    s.commit <= |s.log.entries| && Sealed(run, hs, s.log.entries[..s.commit])
  }

  lemma SealedPrefix(run: seq<Cluster>, hs: seq<History>, x: seq<Entry>, y: seq<Entry>)
    requires Sealed(run, hs, x) && y <= x
    ensures Sealed(run, hs, y)
  {
    if y != [] {
      var t, p, q :| Backed(run, hs, t, p, q) && x <= p;
      assert Backed(run, hs, t, p, q) && y <= p;
    }
  }

  /** Two sealed prefixes of one run agree as far as both go. */
  lemma SealedAgree(run: seq<Cluster>, steps: seq<Step>, hs: seq<History>, x: seq<Entry>, y: seq<Entry>)
    requires Told(run, steps, hs) && NothingDropped(run, steps) && Sealed(run, hs, x) && Sealed(run, hs, y)
    ensures x <= y || y <= x
  {
    if x != [] && y != [] {
      var t, p, q :| Backed(run, hs, t, p, q) && x <= p;
      var t', p', q' :| Backed(run, hs, t', p', q') && y <= p';
      BackedAgree(run, steps, hs, t, p, q, t', p', q');
    }
  }

  lemma BackedAgree(run: seq<Cluster>, steps: seq<Step>, hs: seq<History>, t: nat, p: seq<Entry>, q: set<nat>,
                    t': nat, p': seq<Entry>, q': set<nat>)
    requires Told(run, steps, hs) && NothingDropped(run, steps) && Backed(run, hs, t, p, q)
             && Backed(run, hs, t', p', q')
    ensures p <= p' || p' <= p
  {
    BackedRecorded(run, steps, hs, t, p, q);
    BackedRecorded(run, steps, hs, t', p', q');
    if t < t' {
      LaterRecorded(run, steps, hs, t, p, q, t');
    } else if t' < t {
      LaterRecorded(run, steps, hs, t', p', q', t);
    }
  }

  lemma LaterRecorded(run: seq<Cluster>, steps: seq<Step>, hs: seq<History>, t: nat, p: seq<Entry>, q: set<nat>, u: nat)
    requires Told(run, steps, hs) && NothingDropped(run, steps) && Backed(run, hs, t, p, q)
    requires t < u && u in hs[|run| - 1].logs
    ensures p <= hs[|run| - 1].logs[u]
  {
    LeaderCompleteness(run, steps, hs, t, p, q, u);
    assert hs[|run| - 1] == hs[|run| - 1];
  }

  /** What is backed in a term is in the log of that term's leader. */
  lemma BackedRecorded(run: seq<Cluster>, steps: seq<Step>, hs: seq<History>, t: nat, p: seq<Entry>, q: set<nat>)
    requires Told(run, steps, hs) && Backed(run, hs, t, p, q)
    ensures t in hs[|run| - 1].logs && p <= hs[|run| - 1].logs[t]
  {
    assert q != {};
    var j :| j in q;
    var s0 :| HeldOnce(run, hs, j, t, p, s0);
    HistoryGrows(run, hs, s0, |run| - 1);
  }

  // ----- a leader's commit index -----

  /** The least of the acknowledged indices that count. */
  lemma {:induction false} LeastAck(net: set<Message>, s: Server, js: set<nat>, point: nat) returns (m: nat)
    requires js != {} && forall j <- js :: Backs(net, s, j, point)
    ensures point <= m && s.log.Has(m) && s.log.At(m).term == s.term
    ensures forall j <- js :: exists m' :: m <= m' && AckSent(net, j, s.me, s.term, m')
  {
    var j :| j in js;
    var mj: nat :| point <= mj && s.log.Has(mj) && s.log.At(mj).term == s.term && AckSent(net, j, s.me, s.term, mj);
    var rest := js - {j};
    if rest == {} {
      m := mj;
    } else {
      m := LeastAck(net, s, rest, point);
      m := if mj < m then mj else m;
    }
    forall i <- js
      ensures exists m' :: m <= m' && AckSent(net, i, s.me, s.term, m')
    {
      if i == j {
        assert m <= mj && AckSent(net, i, s.me, s.term, mj);
      } else {
        assert i in rest;
      }
    }
  }

  /** A member that acknowledged index m held, then, the leader's first m entries. */
  lemma AckHeldOnce(run: seq<Cluster>, steps: seq<Step>, hs: seq<History>, k: nat, j: nat, i: nat, t: nat, m: nat,
                    p: seq<Entry>) returns (s0: nat)
    requires Told(run, steps, hs) && k < |run| && AckSent(run[k].net, j, i, t, m)
    requires t in hs[k].logs && p <= hs[k].logs[t] && |p| <= m
    ensures HeldOnce(run, hs, j, t, p, s0)
  {
    var f: nat :| AppendRep(j, i, AppendReply(t, true, m, f)) in run[k].net;
    var r := AppendReply(t, true, m, f);
    var a := SentBefore(run, steps, k, AppendRep(j, i, r));
    AcknowledgedLog(run, steps, a, j, i, r, a + 1);
    s0 := a + 1;
    HistoryGrows(run, hs, s0, k);
  }

  lemma LeaderLogAt(run: seq<Cluster>, steps: seq<Step>, hs: seq<History>, k: nat, i: nat, t: nat)
    requires Told(run, steps, hs) && k < |run| && Leads(run[k], i, t)
    ensures var s := run[k].servers[i];
            && s.me == i && s.log.front == 0 && t in hs[k].logs && hs[k].logs[t] == s.log.entries
  {
    ToldInv(run, steps, hs, k);
    assert ServerInv(i, |run[k].servers|, run[k].servers[i], hs[k]);
  }

  /** Everyone in q but the leader i has acknowledged index m or more. */
  ghost predicate AckedBy(net: set<Message>, q: set<nat>, i: nat, t: nat, m: nat) {
    forall j <- q :: j != i ==> exists m' :: m <= m' && AckSent(net, j, i, t, m')
  }

  lemma LeaderHeld(run: seq<Cluster>, steps: seq<Step>, hs: seq<History>, k: nat, i: nat, t: nat, j: nat, m: nat,
                   q: set<nat>) returns (s0: nat)
    requires Told(run, steps, hs) && k < |run| && Leads(run[k], i, t)
    requires m <= |run[k].servers[i].log.entries| && j in q && AckedBy(run[k].net, q, i, t, m)
    ensures HeldOnce(run, hs, j, t, run[k].servers[i].log.entries[..m], s0)
  {
    LeaderLogAt(run, steps, hs, k, i, t);
    if j == i {
      s0 := k;
    } else {
      var m' :| m <= m' && AckSent(run[k].net, j, i, t, m');
      s0 := AckHeldOnce(run, steps, hs, k, j, i, t, m', run[k].servers[i].log.entries[..m]);
    }
  }

  lemma MajorityHeld(run: seq<Cluster>, steps: seq<Step>, hs: seq<History>, k: nat, i: nat, t: nat, q: set<nat>, m: nat)
    requires Told(run, steps, hs) && k < |run| && Leads(run[k], i, t) && AckedBy(run[k].net, q, i, t, m)
    requires 0 < m <= |run[k].servers[i].log.entries| && run[k].servers[i].log.entries[m - 1].term == t
    requires (forall j <- q :: j < |run[0].servers|) && |run[0].servers| < 2 * |q|
    ensures Backed(run, hs, t, run[k].servers[i].log.entries[..m], q)
  {
    var p := run[k].servers[i].log.entries[..m];
    forall j <- q
      ensures exists s0 :: HeldOnce(run, hs, j, t, p, s0)
    {
      var s0 := LeaderHeld(run, steps, hs, k, i, t, j, m, q);
    }
  }

  /** Of a majority that backs a commit index, the least acknowledgement. */
  lemma MajorityAck(net: set<Message>, net': set<Message>, s: Server, q: set<nat>, n: nat) returns (m: nat)
    requires net <= net' && s.me in q && n < 2 * |q| && 2 <= n
    requires forall j <- q :: j < n && (j != s.me ==> Backs(net, s, j, s.commit))
    ensures s.commit <= m && s.log.Has(m) && s.log.At(m).term == s.term && AckedBy(net', q, s.me, s.term, m)
  {
    var js := q - {s.me};
    assert q == js + {s.me};
    m := LeastAck(net, s, js, s.commit);
    forall j <- q | j != s.me
      ensures exists m' :: m <= m' && AckSent(net', j, s.me, s.term, m')
    {
      assert j in js;
      var m' :| m <= m' && AckSent(net, j, s.me, s.term, m');
      AckStays(net, net', j, s.me, s.term, m');
    }
  }

  lemma CommitAck(run: seq<Cluster>, steps: seq<Step>, k: nat, i: nat) returns (q: set<nat>, m: nat)
    requires IsRun(run, steps) && k < |steps| && i < |run[k].servers| && i < |run[k + 1].servers|
             && run[k + 1].servers[i].me == i
    requires var s, s' := run[k].servers[i], run[k + 1].servers[i];
             s.role == Leader == s'.role && s.term == s'.term && s.commit < s'.commit
    ensures (forall j <- q :: j < |run[0].servers|) && |run[0].servers| < 2 * |q|
    ensures var s' := run[k + 1].servers[i];
            s'.commit <= m && s'.log.Has(m) && s'.log.At(m).term == s'.term && AckedBy(run[k + 1].net, q, i, s'.term, m)
  {
    q := CommitNeedsMajority(run, steps, k, i);
    NetGrows(run, steps, k);
    ServersCount(run, steps, k);
    m := MajorityAck(run[k].net, run[k + 1].net, run[k + 1].servers[i], q, |run[k].servers|);
  }

  /** What a leader newly commits is sealed. */
  lemma LeaderSeals(run: seq<Cluster>, steps: seq<Step>, hs: seq<History>, k: nat, i: nat)
    requires Told(run, steps, hs) && k < |steps| && i < |run[k].servers| && i < |run[k + 1].servers|
    requires var s, s' := run[k].servers[i], run[k + 1].servers[i];
             s.role == Leader == s'.role && s.term == s'.term && s.commit < s'.commit
    ensures ServerSealed(run, hs, run[k + 1].servers[i])
  {
    LeaderLogAt(run, steps, hs, k + 1, i, run[k + 1].servers[i].term);
    var q, m := CommitAck(run, steps, k, i);
    SealsCommit(run, steps, hs, k + 1, i, q, m);
  }

  lemma SealsCommit(run: seq<Cluster>, steps: seq<Step>, hs: seq<History>, k: nat, i: nat, q: set<nat>, m: nat)
    requires Told(run, steps, hs) && k < |run| && i < |run[k].servers| && run[k].servers[i].role == Leader
    requires (forall j <- q :: j < |run[0].servers|) && |run[0].servers| < 2 * |q|
    requires var s := run[k].servers[i];
             s.commit <= m && s.log.Has(m) && s.log.At(m).term == s.term && AckedBy(run[k].net, q, i, s.term, m)
    ensures ServerSealed(run, hs, run[k].servers[i])
  {
    var s := run[k].servers[i];
    LeaderLogAt(run, steps, hs, k, i, s.term);
    SealsUpTo(run, steps, hs, k, i, s.term, q, m, s.commit);
  }

  lemma SealsUpTo(run: seq<Cluster>, steps: seq<Step>, hs: seq<History>, k: nat, i: nat, t: nat, q: set<nat>, m: nat,
                  n: nat)
    requires Told(run, steps, hs) && k < |run| && Leads(run[k], i, t) && AckedBy(run[k].net, q, i, t, m)
    requires 0 < m <= |run[k].servers[i].log.entries| && run[k].servers[i].log.entries[m - 1].term == t && n <= m
    requires (forall j <- q :: j < |run[0].servers|) && |run[0].servers| < 2 * |q|
    ensures Sealed(run, hs, run[k].servers[i].log.entries[..n])
  {
    var log := run[k].servers[i].log.entries;
    MajorityHeld(run, steps, hs, k, i, t, q, m);
    assert Backed(run, hs, t, log[..m], q) && log[..n] <= log[..m];
  }

  lemma AckStays(net: set<Message>, net': set<Message>, j: nat, i: nat, t: nat, m: nat)
    requires AckSent(net, j, i, t, m) && net <= net'
    ensures AckSent(net', j, i, t, m)
  {
  }

  // ----- the order of positions on each server of a cluster -----

  lemma InitOrdered(c: Cluster, i: nat)
    requires Init(c) && i < |c.servers|
    ensures Ordered(c.servers[i])
  {
    assert c.servers[i] == InitServer(i, |c.servers|, c.servers[i].logTarget);
  }

  lemma OrderedAt(run: seq<Cluster>, steps: seq<Step>, k: nat, i: nat)
    requires IsRun(run, steps) && k < |run| && i < |run[k].servers|
    ensures Ordered(run[k].servers[i])
  {
    ServersCount(run, steps, k);
    InitOrdered(run[0], i);
    for x := 0 to k
      invariant i < |run[x].servers| && Ordered(run[x].servers[i])
    {
      assert Next(run[x], steps[x], run[x + 1]);
      OrderedStep(run[x], steps[x], run[x + 1], i);
    }
  }

  lemma OrderedStep(c: Cluster, st: Step, c': Cluster, i: nat)
    requires Next(c, st, c') && i < |c.servers| && Ordered(c.servers[i])
    ensures i < |c'.servers| && Ordered(c'.servers[i])
  {
    StepServes(c, st, c');
    if i == EffectOf(c, st).i {
      ServeOrdered(c.servers[i], EventOf(st));
    }
  }

  // ----- every committed prefix is sealed -----

  ghost predicate MessageSealed(run: seq<Cluster>, hs: seq<History>, h: History, m: Message) {
    m.AppendReq? ==>
      && m.ae.term in h.logs && m.ae.leaderCommit <= |h.logs[m.ae.term]|
      && Sealed(run, hs, h.logs[m.ae.term][..m.ae.leaderCommit])
  }

  ghost predicate SealedAt(run: seq<Cluster>, hs: seq<History>, k: nat)
    requires k < |run| && k < |hs|
  {
    && (forall i {:trigger run[k].servers[i]} :: 0 <= i < |run[k].servers| ==> ServerSealed(run, hs, run[k].servers[i]))
    && (forall m {:trigger m in run[k].net} :: m in run[k].net ==> MessageSealed(run, hs, hs[k], m))
  }

  /** A call that leaves the commit index alone leaves the committed prefix alone. */
  lemma SamePrefix(s: Server, ev: Event, s': Server)
    requires Ordered(s) && s.log.front == 0 && s.compacted == 0 && Serve(s, ev) == Running(s')
    requires Moves(s, ev, s') && s'.commit == s.commit && s'.log.front == 0
    ensures s'.commit <= |s'.log.entries| && s'.log.entries[..s'.commit] == s.log.entries[..s.commit]
  {
    if ev.AppendIn? {
      AppendOrdered(s, ev.ae);
    }
  }

  /** Who may raise a commit index: a follower on a message, a leader on a reply. */
  lemma CommitMoves(c: Cluster, st: Step, c': Cluster, i: nat, h: History)
    requires Inv(c, h) && Next(c, st, c') && i < |c.servers| == |c'.servers|
             && c'.servers[i].commit != c.servers[i].commit
    ensures EffectOf(c, st).i == i
    ensures EventOf(st).AppendIn? ||
            (c.servers[i].role == Leader == c'.servers[i].role && c.servers[i].term == c'.servers[i].term)
  {
    var s := c.servers[i];
    assert ServerInv(i, |c.servers|, s, h);
    match st
    case Timer(_, timeout) =>
      ApplyAllKeeps(s);
      ApplyAllKeeps(BecomeCandidate(s));
    case Client(_, _) =>
    case Send(_, _, _, _) =>
    case Deliver(m) =>
      if m.AppendRep? && m.dst == i && m.src < |s.peers|
          && RecvSuccess(s, m.src, m.ack.currentIdx, NoCheckpoint()).Done? {
        RecvSuccessKeeps(s, m.src, m.ack.currentIdx);
      }
  }

  lemma MovedSealed(run: seq<Cluster>, steps: seq<Step>, hs: seq<History>, k: nat, i: nat)
    requires Told(run, steps, hs) && Careful(run, steps) && k < |steps| && SealedAt(run, hs, k)
    requires i < |run[k].servers| == |run[k + 1].servers| && i == EffectOf(run[k], steps[k]).i
    ensures ServerSealed(run, hs, run[k + 1].servers[i])
  {
    var c, st, c', h := run[k], steps[k], run[k + 1], hs[k];
    var s, s' := c.servers[i], c'.servers[i];
    ToldStep(run, steps, hs, k);
    assert ServerSealed(run, hs, s);
    if s'.commit == s.commit {
      StepMoves(c, st, c', h);
      StepServes(c, st, c');
      OrderedAt(run, steps, k, i);
      Fronts(run, steps, hs, k, i);
      Fronts(run, steps, hs, k + 1, i);
      SamePrefix(s, EventOf(st), s');
    } else {
      CommitMoves(c, st, c', i, h);
      if EventOf(st).AppendIn? {
        FollowerSealed(run, hs, c, st, c', i, h);
      } else {
        ForwardCommit(run, steps, k, i);
        LeaderSeals(run, steps, hs, k, i);
      }
    }
  }

  lemma Fronts(run: seq<Cluster>, steps: seq<Step>, hs: seq<History>, k: nat, i: nat)
    requires Told(run, steps, hs) && k < |run| && i < |run[k].servers|
    ensures run[k].servers[i].log.front == 0 && run[k].servers[i].compacted == 0
  {
    ToldInv(run, steps, hs, k);
    assert ServerInv(i, |run[k].servers|, run[k].servers[i], hs[k]);
  }

  lemma ForwardCommit(run: seq<Cluster>, steps: seq<Step>, k: nat, i: nat)
    requires IsRun(run, steps) && k < |steps| && i < |run[k].servers| == |run[k + 1].servers|
             && i == EffectOf(run[k], steps[k]).i
    ensures run[k].servers[i].commit <= run[k + 1].servers[i].commit
  {
    assert Next(run[k], steps[k], run[k + 1]);
    StepServes(run[k], steps[k], run[k + 1]);
    OrderedAt(run, steps, k, i);
    ServeOrdered(run[k].servers[i], EventOf(steps[k]));
  }

  lemma FollowerSealed(run: seq<Cluster>, hs: seq<History>, c: Cluster, st: Step, c': Cluster, i: nat, h: History)
    requires Inv(c, h) && Next(c, st, c') && i < |c.servers| == |c'.servers| && i == EffectOf(c, st).i
             && EventOf(st).AppendIn?
    requires !Overcommits(c, st) && MessageSealed(run, hs, h, st.m) && c'.servers[i].commit != c.servers[i].commit
    ensures ServerSealed(run, hs, c'.servers[i])
  {
    var s, s', ae := c.servers[i], c'.servers[i], st.m.ae;
    assert ServerInv(i, |c.servers|, s, h) && MessageInv(|c.servers|, st.m, h);
    FollowerCommit(s, ae, h);
    var ldr := h.logs[ae.term];
    assert s'.log.entries[..s'.commit] <= ldr[..ae.leaderCommit];
    SealedPrefix(run, hs, ldr[..ae.leaderCommit], s'.log.entries[..s'.commit]);
  }

  lemma OldMessageSealed(run: seq<Cluster>, hs: seq<History>, h: History, h': History, m: Message)
    requires MessageSealed(run, hs, h, m) && Extends(h, h')
    ensures MessageSealed(run, hs, h', m)
  {
    if m.AppendReq? {
      assert h.logs[m.ae.term][..m.ae.leaderCommit] == h'.logs[m.ae.term][..m.ae.leaderCommit];
    }
  }

  /** A message carries the commit index of its sender. */
  lemma NewMessage(c: Cluster, st: Step, m: Message, h: History)
    requires Inv(c, h) && EffectOf(c, st).Effect? && m in EffectOf(c, st).out && m.AppendReq?
    ensures Leads(c, m.src, m.ae.term) && m.ae.leaderCommit == c.servers[m.src].commit
    ensures m.ae.term in h.logs && h.logs[m.ae.term] == c.servers[m.src].log.entries
  {
    AppendSent(c, st, m, h);
    assert ServerInv(m.src, |c.servers|, c.servers[m.src], h);
  }

  lemma MessagesSealed(run: seq<Cluster>, steps: seq<Step>, hs: seq<History>, k: nat, m: Message)
    requires Told(run, steps, hs) && k < |steps| && SealedAt(run, hs, k) && m in run[k + 1].net
    ensures MessageSealed(run, hs, hs[k + 1], m)
  {
    ToldStep(run, steps, hs, k);
    ToldKeys(run, steps, hs, k + 1);
    if m !in run[k].net && m.AppendReq? {
      NewMessage(run[k], steps[k], m, hs[k]);
      assert ServerSealed(run, hs, run[k].servers[m.src]);
    }
    OldMessageSealed(run, hs, hs[k], hs[k + 1], m);
  }

  lemma {:induction false} SealedAlong(run: seq<Cluster>, steps: seq<Step>, hs: seq<History>, k: nat)
    requires Told(run, steps, hs) && Careful(run, steps) && k < |run|
    ensures SealedAt(run, hs, k)
  {
    if k == 0 {
      assert Init(run[0]);
    } else {
      SealedAlong(run, steps, hs, k - 1);
      SealedStep(run, steps, hs, k - 1);
    }
  }

  lemma SealedStep(run: seq<Cluster>, steps: seq<Step>, hs: seq<History>, k: nat)
    requires Told(run, steps, hs) && Careful(run, steps) && k < |steps| && SealedAt(run, hs, k)
    ensures SealedAt(run, hs, k + 1)
  {
    var mover := MovesAt(run, steps, k);
    MovedSealed(run, steps, hs, k, mover);
    forall i {:trigger run[k + 1].servers[i]} | 0 <= i < |run[k + 1].servers|
      ensures ServerSealed(run, hs, run[k + 1].servers[i])
    {
      if i != mover {
        assert run[k + 1].servers[i] == run[k].servers[i];
      }
    }
    forall m {:trigger m in run[k + 1].net} | m in run[k + 1].net
      ensures MessageSealed(run, hs, hs[k + 1], m)
    {
      MessagesSealed(run, steps, hs, k, m);
    }
  }

  // ----- the theorem -----

  /** What a server has delivered is a prefix of what it has committed. */
  lemma DeliveredSealed(run: seq<Cluster>, steps: seq<Step>, hs: seq<History>, k: nat, i: nat)
    requires Told(run, steps, hs) && Careful(run, steps) && k < |run| && i < |run[k].servers|
    ensures Sealed(run, hs, run[k].servers[i].delivered)
  {
    var s := run[k].servers[i];
    SealedAlong(run, steps, hs, k);
    OrderedAt(run, steps, k, i);
    Fronts(run, steps, hs, k, i);
    assert ServerSealed(run, hs, s);
    DeliveredPrefix(s);
    SealedPrefix(run, hs, s.log.entries[..s.commit], s.delivered);
  }

  lemma DeliveredPrefix(s: Server)
    requires Ordered(s) && s.log.front == 0 && s.compacted == 0
    ensures s.commit <= |s.log.entries| && s.delivered <= s.log.entries[..s.commit]
  {
    forall x | 0 <= x < |s.delivered|
      ensures s.delivered[x] == s.log.entries[x]
    {
      assert DeliveredAt(s, x + 1);
    }
  }

  /** In a careful run, of what any two servers have delivered at any two times, one is a
      prefix of the other. */
  lemma StateMachineSafety(run: seq<Cluster>, steps: seq<Step>, p: nat, q: nat, a: nat, b: nat)
    requires IsRun(run, steps) && Careful(run, steps)
    requires p < |run| && q < |run| && a < |run[p].servers| && b < |run[q].servers|
    ensures run[p].servers[a].delivered <= run[q].servers[b].delivered
         || run[q].servers[b].delivered <= run[p].servers[a].delivered
  {
    var hs := Tell(run, steps);
    DeliveredSealed(run, steps, hs, p, a);
    DeliveredSealed(run, steps, hs, q, b);
    SealedAgree(run, steps, hs, run[p].servers[a].delivered, run[q].servers[b].delivered);
  }
}
