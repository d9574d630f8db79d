/** The handlers of raft_server.c as functions on a server value. Membership is fixed
    and every member votes, so a node is its position in `peers`. Sending is a separate
    operation (SendAppend): a handler that sends changes nothing else while doing so. */
module RaftServer {
  import opened LogModel
  import opened RaftTypes

  // ----- terms and roles -----

  function InitServer(me: nat, n: nat, target: nat): Server {
    Server(me, 0, NOBODY, Follower, Log(0, []), 0, 0, 0, 0, target,
           seq(n, _ => Peer(1, 0, false)), [])
  }

  function SetTerm(s: Server, t: nat): Server {
    if s.term < t then s.(term := t, votedFor := NOBODY) else s
  }

  function BecomeFollower(s: Server): Server {
    s.(role := Follower)
  }

  function BecomeCandidate(s: Server): Server {
    SetTerm(s, s.term + 1).(
      peers := seq(|s.peers|, j requires 0 <= j < |s.peers| => s.peers[j].(granted := false)),
      votedFor := s.me,
      role := Candidate)
  }

  /** Peers restart from the end of the new leader's log with nothing acknowledged. */
  function BecomeLeader(s: Server): Server {
    s.(role := Leader,
       peers := seq(|s.peers|, j requires 0 <= j < |s.peers| =>
         if j == s.me then s.peers[j]
         else s.peers[j].(nextIdx := s.log.Back() + 1, matchIdx := 0)))
  }

  // ----- elections -----

  function LastTerm(s: Server): nat {
    if s.log.Has(s.log.Back()) then s.log.At(s.log.Back()).term else 0
  }

  function VoteRequestOf(s: Server): VoteRequest {
    VoteRequest(s.term, s.me, s.log.Back(), LastTerm(s))
  }

  predicate ShouldGrant(s: Server, vr: VoteRequest) {
    && s.term <= vr.term
    && s.votedFor == NOBODY
    && (|| s.log.Back() == 0
        || LastTerm(s) < vr.lastTerm
        || (LastTerm(s) == vr.lastTerm && s.log.Back() <= vr.lastIdx))
  }

  function RecvVoteRequest(s: Server, vr: VoteRequest): Outcome<VoteReply> {
    var s1 := if s.term < vr.term then BecomeFollower(SetTerm(s, vr.term)) else s;
    // the last entry of a non-empty log is dereferenced
    if vr.term >= s1.term && s1.votedFor == NOBODY && 0 < s1.log.Back() && !s1.log.Has(s1.log.Back()) then
      Abort
    else if !ShouldGrant(s1, vr) then
      Done(s1, VoteReply(s1.term, false))
    else if s1.role != Follower then
      Abort
    else
      Done(s1.(votedFor := vr.candidate), VoteReply(s1.term, true))
  }

  /** The members other than the server itself whose vote flag is set. */
  function Granters(s: Server): set<nat> {
    set j: nat | 0 <= j < |s.peers| && j != s.me && s.peers[j].granted
  }

  function VoteCount(s: Server): nat {
    |Granters(s)| + if s.votedFor == s.me then 1 else 0
  }

  predicate IsMajority(nodes: nat, votes: nat) {
    nodes / 2 + 1 <= votes <= nodes
  }

  function RecvVoteReply(s: Server, src: nat, r: VoteReply): Server {
    if s.role != Candidate then s
    else if s.term < r.term then BecomeFollower(SetTerm(s, r.term))
    else if s.term != r.term || !r.granted then s
    else
      var s1 := if src < |s.peers| then s.(peers := s.peers[src := s.peers[src].(granted := true)]) else s;
      if IsMajority(|s1.peers|, VoteCount(s1)) then BecomeLeader(s1) else s1
  }

  // ----- log replication, follower side -----

  function AdoptTerm(s: Server, t: nat): Server {
    if s.role == Candidate && s.term == t then BecomeFollower(s)
    else if s.term < t then BecomeFollower(SetTerm(s, t))
    else s
  }

  /** The log holds, at the position of the k-th new entry, an entry of the same term. */
  predicate Same(log: Log<Entry>, prev: nat, es: seq<Entry>, k: nat)
    requires k < |es|
  {
    log.Has(prev + 1 + k) && log.At(prev + 1 + k).term == es[k].term
  }

  /** The first of the entries for positions prev+1, prev+2, ... that the log lacks or
      holds with another term. */
  function Agreeing(log: Log<Entry>, prev: nat, es: seq<Entry>, from: nat := 0): (n: nat)
    requires from <= |es|
    ensures from <= n <= |es|
    ensures forall k :: from <= k < n ==> Same(log, prev, es, k)
    ensures n < |es| ==> !Same(log, prev, es, n)
    decreases |es| - from
  {
    if from == |es| || !Same(log, prev, es, from) then from
    else Agreeing(log, prev, es, from + 1)
  }

  /** Drops a conflicting suffix and appends what the log lacks. */
  function Merge(s: Server, prev: nat, es: seq<Entry>): Outcome<()> {
    var i := Agreeing(s.log, prev, es);
    if i == |es| then
      Done(s, ())
    else if !s.log.Has(prev + 1 + i) then
      Done(s.(log := s.log.Append(es[i..])), ())
    else if prev + 1 + i <= s.commit then
      Abort
    else
      Done(s.(log := s.log.TruncateTo(prev + i).Append(es[i..])), ())
  }

  function SetCommit(s: Server, idx: nat): Outcome<()> {
    if s.commit <= idx <= s.log.Back() then Done(s.(commit := idx), ()) else Abort
  }

  function AdvanceCommit(s: Server, leaderCommit: nat): Outcome<()> {
    if s.commit < leaderCommit then
      var last := if 1 < s.log.Back() then s.log.Back() else 1;
      SetCommit(s, if last < leaderCommit then last else leaderCommit)
    else Done(s, ())
  }

  function Fail(s: Server, cur: nat): Outcome<AppendReply> {
    Done(s, AppendReply(s.term, false, cur, 0))
  }

  /** An empty message cuts the log just after its previous index. */
  function CutAfter(s: Server, ae: AppendEntries): Outcome<()> {
    if ae.entries == [] && 0 < ae.prevIdx && ae.prevIdx + 1 < s.log.Back() then
      if ae.prevIdx + 1 <= s.commit || ae.prevIdx < s.log.front then Abort
      else Done(s.(log := s.log.TruncateTo(ae.prevIdx)), ())
    else Done(s, ())
  }

  /** The part of raft_recv_appendentries after the previous-entry check. */
  function Accept(s: Server, ae: AppendEntries): Outcome<AppendReply> {
    match CutAfter(s, ae)
    case Abort => Abort
    case Done(s1, _) =>
      match Merge(s1, ae.prevIdx, ae.entries)
      case Abort => Abort
      case Done(s2, _) =>
        match AdvanceCommit(s2, ae.leaderCommit)
        case Abort => Abort
        case Done(s3, _) =>
          Done(s3, AppendReply(s3.term, true, ae.prevIdx + |ae.entries|, ae.prevIdx + 1))
  }

  function RecvAppendEntries(s: Server, ae: AppendEntries): Outcome<AppendReply> {
    if ae.prevTerm == -1 then Abort
    else
      var s1 := AdoptTerm(s, ae.term);
      if ae.term < s1.term then Fail(s1, s1.log.Back())
      else if !(0 < ae.prevIdx && s1.logBase <= ae.prevIdx) then Accept(s1, ae)
      else if !s1.log.Has(ae.prevIdx) then Fail(s1, s1.log.Back())
      else if s1.log.At(ae.prevIdx).term == ae.prevTerm then Accept(s1, ae)
      else if ae.prevIdx <= s1.commit then Abort
      else Fail(s1.(log := s1.log.TruncateTo(ae.prevIdx - 1)), ae.prevIdx - 1)
  }

  // ----- log replication, leader side -----

  function ClampNext(idx: int): nat {
    if idx < 1 then 1 else idx
  }

  /** The other members that have acknowledged at least `point` with an entry of the
      leader's own term. */
  function Acked(s: Server, point: nat): set<nat> {
    set j: nat | 0 <= j < |s.peers| && j != s.me && CountsFor(s, j, point)
  }

  predicate CountsFor(s: Server, j: nat, point: nat)
    requires j < |s.peers|
  {
    var m := s.peers[j].matchIdx;
    0 < m && s.log.Has(m) && s.log.At(m).term == s.term && point <= m
  }

  /** raft_checkpoint, as called from the applylog callback: -1 means no checkpoint. */
  function Checkpoint(s: Server, idx: int): Server {
    if idx < 0 then s
    else if s.applied < idx + 1 then s.(logBase := s.applied)
    else s.(logBase := idx + 1)
  }

  /** Applies committed entries in order; `cp(i)` is the checkpoint index the callback
      reads when index i is applied. Stops at a missing entry. */
  function ApplyAll(s: Server, cp: nat -> int): Server
    decreases s.commit - s.applied
  {
    if s.commit <= s.applied || !s.log.Has(s.applied + 1) then s
    else
      var s1 := s.(applied := s.applied + 1, delivered := s.delivered + [s.log.At(s.applied + 1)]);
      ApplyAll(Checkpoint(s1, cp(s1.applied)), cp)
  }

  function RecvSuccess(s: Server, src: nat, cur: nat, cp: nat -> int): Outcome<()>
    requires src < |s.peers|
  {
    if s.log.Back() < cur then Abort
    else
      var p := s.peers[src];
      var next := if p.nextIdx < cur + 1 then cur + 1 else p.nextIdx;
      var s1 := s.(peers := s.peers[src := p.(nextIdx := next, matchIdx := cur)]);
      var votes := 1 + |Acked(s1, cur)|;
      if |s.peers| / 2 < votes && s.commit < cur then
        match SetCommit(s1, cur)
        case Abort => Abort
        case Done(s2, _) => Done(ApplyAll(s2, cp), ())
      else
        Done(ApplyAll(s1, cp), ())
  }

  function RecvAppendReply(s: Server, src: nat, r: AppendReply, cp: nat -> int): Outcome<()> {
    if |s.peers| <= src then Done(s, ())
    else
      var p := s.peers[src];
      if r.currentIdx <= p.matchIdx && p.matchIdx != 0 then Done(s, ())
      else if s.role != Leader then Done(s, ())
      else if s.term < r.term then Done(BecomeFollower(SetTerm(s, r.term)), ())
      else if s.term != r.term then Done(s, ())
      else if r.success then RecvSuccess(s, src, r.currentIdx, cp)
      else
        var wanted := if r.currentIdx + 1 < s.log.Back() then r.currentIdx + 1 else s.log.Back();
        var next := ClampNext(wanted);
        if p.matchIdx < next then Done(s.(peers := s.peers[src := p.(nextIdx := next)]), ())
        else Abort
  }

  /** Client entries are stamped with the leader's term; a follower or candidate refuses. */
  function RecvEntries(s: Server, data: seq<int>): Server {
    if s.role != Leader then s
    else
      var es := seq(|data|, i requires 0 <= i < |data| => Entry(s.term, data[i]));
      var s1 := s.(log := s.log.Append(es));
      if |s.peers| == 1 then s1.(commit := s1.log.Back()) else s1
  }

  /** `n` entries from an index on (how many are contiguous in memory is up to the ring);
      none when the log does not reach it. */
  function Outgoing(log: Log<Entry>, next: nat, n: nat): (es: seq<Entry>)
    requires log.Has(next) ==> 0 < n && log.Has(next + n - 1)
    ensures if log.Has(next) then |es| == n && forall i :: 0 <= i < n ==> es[i] == log.At(next + i) else es == []
  {
    if log.Has(next) then log.entries[next - 1 - log.front..][..n] else []
  }

  /** The message built for member j: the entries from its next index on, and what
      precedes them. */
  function BuildAppend(s: Server, j: nat, n: nat): AppendEntries
    requires j < |s.peers|
    requires s.log.Has(s.peers[j].nextIdx) ==> 0 < n && s.log.Has(s.peers[j].nextIdx + n - 1)
  {
    var next := s.peers[j].nextIdx;
    var es := Outgoing(s.log, next, n);
    if 1 < next then
      AppendEntries(s.term, next - 1, if s.log.Has(next - 1) then s.log.At(next - 1).term else -1, s.commit, es)
    else
      AppendEntries(s.term, 0, 0, s.commit, es)
  }

  /** `sent` entries were handed to the network; the next index moves past them. */
  function SendAppend(s: Server, j: nat, sent: nat): Server
    requires j < |s.peers|
  {
    s.(peers := s.peers[j := s.peers[j].(nextIdx := ClampNext(s.peers[j].nextIdx + sent))])
  }

  /** The i-th single-entry packet that carries the message over the wire. */
  function Packet(ae: AppendEntries, i: nat): AppendEntries
    requires i < |ae.entries|
  {
    AppendEntries(ae.term, ae.prevIdx + i,
                  if i == 0 then ae.prevTerm else ae.entries[i - 1].term,
                  ae.leaderCommit, [ae.entries[i]])
  }

  // ----- compaction and the periodic tick -----

  function Compact(s: Server): Server {
    if s.logBase <= s.compacted + 2 * s.logTarget then s
    else
      var cnt := if |s.log.entries| < s.logTarget then |s.log.entries| else s.logTarget;
      s.(log := s.log.Poll(cnt), compacted := s.compacted + s.logTarget)
  }

  /** raft_periodic: `timeout` says that the election timeout has elapsed. */
  function Tick(s: Server, timeout: bool, cp: nat -> int): Server {
    var s1 := if |s.peers| == 1 && s.role != Leader then BecomeLeader(s) else s;
    var s2 := if s1.role != Leader && timeout && 1 < |s1.peers| then BecomeCandidate(s1) else s1;
    var s3 := ApplyAll(s2, cp);
    if s3.applied < s3.commit then s3 else Compact(s3)
  }
}
