/** A step of the cluster as a call into one server, and what such a call may do to the
    server's role, term and log. */
module RaftMoves {
  import opened RaftTypes
  import opened RaftServer
  import opened RaftCluster
  import opened RaftInvariant
  import opened RaftSafety
  import opened RaftTheorems
  import opened ServerOrder

  ghost function EventOf(st: Step): Event {
    match st
    case Timer(_, timeout) => Period(timeout, NoCheckpoint())
    case Client(_, data) => EntriesIn(data)
    case Send(_, j, _, sent) => SendOut(j, sent)
    case Deliver(m) =>
      match m
      case VoteReq(_, _, vr) => VoteRequestIn(vr)
      case VoteRep(src, _, r) => VoteReplyIn(src, r)
      case AppendReq(_, _, ae) => AppendIn(ae)
      case AppendRep(src, _, r) => AppendReplyIn(src, r, NoCheckpoint())
  }

  lemma DeliverServes(c: Cluster, m: Message)
    requires m.dst < |c.servers| && DeliverEffect(c, m).Effect?
    ensures DeliverEffect(c, m).i == m.dst
    ensures Serve(c.servers[m.dst], EventOf(Deliver(m))) == Running(DeliverEffect(c, m).server)
  {
  }

  lemma EffectServes(c: Cluster, st: Step)
    requires EffectOf(c, st).Effect? && EffectOf(c, st).i < |c.servers|
    ensures Serve(c.servers[EffectOf(c, st).i], EventOf(st)) == Running(EffectOf(c, st).server)
  {
    match st
    case Deliver(m) => DeliverServes(c, m);
    case Send(i, j, n, sent) => SendServes(c, i, j, n, sent);
    case Timer(_, _) =>
    case Client(_, _) =>
  }

  lemma SendServes(c: Cluster, i: nat, j: nat, n: nat, sent: nat)
    requires i < |c.servers| && SendEffect(c, i, j, n, sent).Effect?
    ensures SendEffect(c, i, j, n, sent).i == i
    ensures Serve(c.servers[i], SendOut(j, sent)) == Running(SendEffect(c, i, j, n, sent).server)
  {
  }

  lemma StepServes(c: Cluster, st: Step, c': Cluster)
    requires Next(c, st, c')
    ensures |c'.servers| == |c.servers|
    ensures var i := EffectOf(c, st).i; Serve(c.servers[i], EventOf(st)) == Running(c'.servers[i])
    ensures forall j :: 0 <= j < |c.servers| && j != EffectOf(c, st).i ==> c'.servers[j] == c.servers[j]
  {
    EffectServes(c, st);
  }

  /** The log grew by entries of one term. */
  ghost predicate Stamped(log: seq<Entry>, log': seq<Entry>, t: nat) {
    log <= log' && forall x :: |log| <= x < |log'| ==> log'[x].term == t
  }

  /** What a call may do to role, term and log of a member of a cluster. */
  ghost predicate Moves(s: Server, ev: Event, s': Server) {
    && s.term <= s'.term
    && (s'.role == Candidate ==>
          s'.log == s.log && ((s.role == Candidate && s'.term == s.term) || (ev.Period? && s'.term == s.term + 1)))
    && (s'.role == Leader ==>
          s'.term == s.term && (s.role == Leader || (s.role == Candidate && s'.log == s.log)))
    && (s'.log != s.log ==> ev.AppendIn? || (s.role == Leader && Stamped(s.log.entries, s'.log.entries, s.term)))
  }

  lemma TickMoves(s: Server, timeout: bool)
    requires 2 <= |s.peers| && s.logBase == 0
    ensures Moves(s, Period(timeout, NoCheckpoint()), Tick(s, timeout, NoCheckpoint()))
  {
    ApplyAllKeeps(s);
    ApplyAllKeeps(BecomeCandidate(s));
  }

  lemma AppendMoves(s: Server, ae: AppendEntries)
    requires RecvAppendEntries(s, ae).Done? && (s.role == Leader ==> ae.term != s.term)
    ensures Moves(s, AppendIn(ae), RecvAppendEntries(s, ae).server)
  {
    AppendEntriesShape(s, ae);
  }

  lemma ReplyMoves(s: Server, src: nat, r: AppendReply)
    requires RecvAppendReply(s, src, r, NoCheckpoint()).Done?
    ensures Moves(s, AppendReplyIn(src, r, NoCheckpoint()), RecvAppendReply(s, src, r, NoCheckpoint()).server)
  {
    if src < |s.peers| && RecvSuccess(s, src, r.currentIdx, NoCheckpoint()).Done? {
      RecvSuccessKeeps(s, src, r.currentIdx);
    }
  }

  lemma EntriesMove(s: Server, data: seq<int>)
    ensures Moves(s, EntriesIn(data), RecvEntries(s, data))
  {
  }

  lemma ServerMoves(c: Cluster, st: Step, h: History)
    requires Inv(c, h) && EffectOf(c, st).Effect? && EffectOf(c, st).i < |c.servers|
    ensures Moves(c.servers[EffectOf(c, st).i], EventOf(st), EffectOf(c, st).server)
  {
    var i := EffectOf(c, st).i;
    var s := c.servers[i];
    assert ServerInv(i, |c.servers|, s, h);
    if st.Deliver? && st.m.AppendReq? {
      assert MessageInv(|c.servers|, st.m, h);
    }
    EffectServes(c, st);
    EventMoves(s, EventOf(st), EffectOf(c, st).server);
  }

  lemma EventMoves(s: Server, ev: Event, s': Server)
    requires 2 <= |s.peers| && s.logBase == 0 && Serve(s, ev) == Running(s')
    requires (ev.Period? || ev.AppendReplyIn?) ==> ev.cp == NoCheckpoint()
    requires ev.AppendIn? && s.role == Leader ==> ev.ae.term != s.term
    requires ev.SendOut? ==> ev.j < |s.peers|
    ensures Moves(s, ev, s')
  {
    match ev
    case Period(timeout, _) => TickMoves(s, timeout);
    case EntriesIn(data) => EntriesMove(s, data);
    case AppendIn(ae) => AppendMoves(s, ae);
    case AppendReplyIn(src, r, _) => ReplyMoves(s, src, r);
    case _ =>
  }

  lemma StepMoves(c: Cluster, st: Step, c': Cluster, h: History)
    requires Inv(c, h) && Next(c, st, c')
    ensures |c'.servers| == |c.servers|
    ensures var i := EffectOf(c, st).i; Moves(c.servers[i], EventOf(st), c'.servers[i])
  {
    ServerMoves(c, st, h);
  }

  lemma MovesAt(run: seq<Cluster>, steps: seq<Step>, k: nat) returns (i: nat)
    requires IsRun(run, steps) && k < |steps|
    ensures |run[k + 1].servers| == |run[k].servers| && i < |run[k].servers| && i == EffectOf(run[k], steps[k]).i
    ensures Next(run[k], steps[k], run[k + 1]) && Moves(run[k].servers[i], EventOf(steps[k]), run[k + 1].servers[i])
    ensures forall j :: 0 <= j < |run[k].servers| && j != i ==> run[k + 1].servers[j] == run[k].servers[j]
    ensures HistoryAt(run, steps, k + 1) == Observe(HistoryAt(run, steps, k), run[k + 1].servers[i])
    ensures run[k + 1].servers[i].me == i
  {
    InvAt(run, steps, k);
    InvAt(run, steps, k + 1);
    assert Next(run[k], steps[k], run[k + 1]);
    StepMoves(run[k], steps[k], run[k + 1], HistoryAt(run, steps, k));
    StepServes(run[k], steps[k], run[k + 1]);
    i := EffectOf(run[k], steps[k]).i;
    assert ServerInv(i, |run[k + 1].servers|, run[k + 1].servers[i], HistoryAt(run, steps, k + 1));
  }
}
