/** A cluster of servers and a network that may lose, duplicate and reorder messages:
    a message once sent stays available for ever and may be delivered any number of
    times, in any order, or not at all. Membership is fixed, at least two servers, no
    restart, no checkpoint. */
module RaftCluster {
  import opened RaftTypes
  import opened RaftServer

  datatype Message =
    | VoteReq(src: nat, dst: nat, vr: VoteRequest)
    | VoteRep(src: nat, dst: nat, rep: VoteReply)
    | AppendReq(src: nat, dst: nat, ae: AppendEntries)
    | AppendRep(src: nat, dst: nat, ack: AppendReply)

  datatype Cluster = Cluster(servers: seq<Server>, net: set<Message>)

  datatype Step =
    | Timer(i: nat, timeout: bool)
    | Deliver(m: Message)
    | Client(i: nat, data: seq<int>)
    | Send(i: nat, j: nat, n: nat, sent: nat)

  /** What a step does: it is disabled, or server `i` changes and messages go out. */
  datatype Effect = Disabled | Effect(i: nat, server: Server, out: set<Message>)

  function NoCheckpoint(): nat -> int {
    (_: nat) => -1
  }

  function VoteReqs(s: Server): set<Message> {
    set j: nat | 0 <= j < |s.peers| && j != s.me :: VoteReq(s.me, j, VoteRequestOf(s))
  }

  /** The message as built, and the single-entry packets that carry it. */
  function Wire(src: nat, dst: nat, ae: AppendEntries): set<Message> {
    {AppendReq(src, dst, ae)} +
    set k: nat | 0 <= k < |ae.entries| :: AppendReq(src, dst, Packet(ae, k))
  }

  function TimerEffect(c: Cluster, i: nat, timeout: bool): Effect
    requires i < |c.servers|
  {
    var s := c.servers[i];
    var s1 := Tick(s, timeout, NoCheckpoint());
    Effect(i, s1, if s1.term != s.term then VoteReqs(s1) else {})
  }

  function DeliverEffect(c: Cluster, m: Message): Effect
    requires m.dst < |c.servers|
  {
    var s := c.servers[m.dst];
    match m
    case VoteReq(src, dst, vr) =>
      (match RecvVoteRequest(s, vr)
       case Abort => Disabled
       case Done(s1, r) => Effect(dst, s1, {VoteRep(dst, src, r)}))
    case VoteRep(src, dst, rep) =>
      Effect(dst, RecvVoteReply(s, src, rep), {})
    case AppendReq(src, dst, ae) =>
      (match RecvAppendEntries(s, ae)
       case Abort => Disabled
       case Done(s1, r) => Effect(dst, s1, {AppendRep(dst, src, r)}))
    case AppendRep(src, dst, ack) =>
      (match RecvAppendReply(s, src, ack, NoCheckpoint())
       case Abort => Disabled
       case Done(s1, _) => Effect(dst, s1, {}))
  }

  /** A leader may send to any other member; between none and all of the entries count
      as transmitted. */
  function SendEffect(c: Cluster, i: nat, j: nat, n: nat, sent: nat): Effect
    requires i < |c.servers|
  {
    var s := c.servers[i];
    if s.role != Leader || |s.peers| <= j || j == s.me then Disabled
    else if s.log.Has(s.peers[j].nextIdx) && !(0 < n && s.log.Has(s.peers[j].nextIdx + n - 1)) then Disabled
    else
      var ae := BuildAppend(s, j, n);
      if |ae.entries| < sent then Disabled
      else Effect(i, SendAppend(s, j, sent), Wire(i, j, ae))
  }

  function EffectOf(c: Cluster, st: Step): Effect {
    match st
    case Timer(i, timeout) => if i < |c.servers| then TimerEffect(c, i, timeout) else Disabled
    case Deliver(m) => if m in c.net && m.dst < |c.servers| then DeliverEffect(c, m) else Disabled
    case Client(i, data) =>
      if i < |c.servers| then Effect(i, RecvEntries(c.servers[i], data), {}) else Disabled
    case Send(i, j, n, sent) => if i < |c.servers| then SendEffect(c, i, j, n, sent) else Disabled
  }

  function Apply(c: Cluster, e: Effect): Cluster
    requires e.Effect? && e.i < |c.servers|
  {
    Cluster(c.servers[e.i := e.server], c.net + e.out)
  }

  ghost predicate Next(c: Cluster, st: Step, c': Cluster) {
    var e := EffectOf(c, st);
    e.Effect? && e.i < |c.servers| && c' == Apply(c, e)
  }

  ghost predicate Init(c: Cluster) {
    && 2 <= |c.servers|
    && c.net == {}
    && forall i :: 0 <= i < |c.servers| ==>
         c.servers[i] == InitServer(i, |c.servers|, c.servers[i].logTarget)
  }

  /** A run: consecutive states, each reached from the one before by some step. */
  ghost predicate IsRun(run: seq<Cluster>, steps: seq<Step>) {
    && |run| == |steps| + 1
    && Init(run[0])
    && forall k :: 0 <= k < |steps| ==> Next(run[k], steps[k], run[k + 1])
  }
}
