/** Apply order and compaction on one voting server, whatever it receives. A run is any
    sequence of calls into the server, in any order, with any arguments, of which none
    stops the process. */
module ServerOrder {
  import opened RaftTypes
  import opened RaftServer

  datatype Event =
    | Period(timeout: bool, cp: nat -> int)
    | VoteRequestIn(vr: VoteRequest)
    | VoteReplyIn(src: nat, vote: VoteReply)
    | AppendIn(ae: AppendEntries)
    | AppendReplyIn(src: nat, ack: AppendReply, cp: nat -> int)
    | EntriesIn(data: seq<int>)
    | SendOut(j: nat, sent: nat)

  /** The server after an event, or Stopped when the call stops the process. */
  datatype Result = Stopped | Running(server: Server)

  function Serve(s: Server, ev: Event): Result {
    match ev
    case Period(timeout, cp) => Running(Tick(s, timeout, cp))
    case VoteRequestIn(vr) => (match RecvVoteRequest(s, vr) case Abort => Stopped case Done(s1, _) => Running(s1))
    case VoteReplyIn(src, r) => Running(RecvVoteReply(s, src, r))
    case AppendIn(ae) => (match RecvAppendEntries(s, ae) case Abort => Stopped case Done(s1, _) => Running(s1))
    case AppendReplyIn(src, r, cp) =>
      (match RecvAppendReply(s, src, r, cp) case Abort => Stopped case Done(s1, _) => Running(s1))
    case EntriesIn(data) => Running(RecvEntries(s, data))
    case SendOut(j, sent) => if j < |s.peers| then Running(SendAppend(s, j, sent)) else Stopped
  }

  ghost predicate ServerRun(run: seq<Server>, evs: seq<Event>) {
    && |run| == |evs| + 1
    && (exists me, n, target :: run[0] == InitServer(me, n, target))
    && forall k :: 0 <= k < |evs| ==> Serve(run[k], evs[k]) == Running(run[k + 1])
  }

  /** The order of the four positions, and: whatever was delivered is still in the log
      at its index, unless compacted. */
  ghost predicate Ordered(s: Server) {
    && s.log.front == s.compacted <= s.applied <= s.commit <= s.log.Back()
    && (s.compacted == 0 || s.compacted < s.applied)
    && s.logBase <= s.applied
    && |s.delivered| == s.applied
    && forall idx :: s.compacted < idx <= s.applied ==> DeliveredAt(s, idx)
  }

  ghost predicate DeliveredAt(s: Server, idx: int)
    requires s.log.Has(idx) && 0 < idx <= |s.delivered|
  {
    s.delivered[idx - 1] == s.log.At(idx)
  }

  /** One step: deliveries only grow, positions only move forward. */
  ghost predicate Forward(s: Server, s': Server) {
    && s.delivered <= s'.delivered
    && s.applied <= s'.applied && s.commit <= s'.commit && s.compacted <= s'.compacted
  }

  // ----- one operation after another -----

  /** A change that touches the log only beyond the commit index. */
  ghost predicate BeyondCommit(s: Server, s': Server) {
    && s'.log.front == s.log.front && s'.compacted == s.compacted && s'.logBase == s.logBase
    && s'.applied == s.applied && s'.delivered == s.delivered
    && s.commit <= s'.commit <= s'.log.Back()
    && s.commit <= s.log.Back()
    && forall k :: 0 <= k < s.commit - s.log.front ==> s'.log.entries[k] == s.log.entries[k]
  }

  lemma BeyondCommitOrdered(s: Server, s': Server)
    requires Ordered(s) && BeyondCommit(s, s')
    ensures Ordered(s') && Forward(s, s')
  {
    forall idx | s'.compacted < idx <= s'.applied
      ensures DeliveredAt(s', idx)
    {
      assert DeliveredAt(s, idx);
    }
  }

  lemma {:induction false} ApplyAllOrdered(s: Server, cp: nat -> int)
    requires Ordered(s)
    ensures Ordered(ApplyAll(s, cp)) && Forward(s, ApplyAll(s, cp)) && ApplyAll(s, cp).applied == s.commit
    decreases s.commit - s.applied
  {
    if s.applied < s.commit {
      var s1 := s.(applied := s.applied + 1, delivered := s.delivered + [s.log.At(s.applied + 1)]);
      var s2 := Checkpoint(s1, cp(s1.applied));
      forall idx | s2.compacted < idx <= s2.applied
        ensures DeliveredAt(s2, idx)
      {
        if idx <= s.applied {
          assert DeliveredAt(s, idx);
        }
      }
      ApplyAllOrdered(s2, cp);
    }
  }

  /** When a compaction is due, and only then, it drops exactly logTarget entries, all below
      the checkpoint base, keeps every other entry at its index, and leaves more than
      logTarget entries below the base. */
  lemma CompactionLeavesTarget(s: Server)
    requires Ordered(s)
    ensures var s' := Compact(s);
            && Ordered(s') && Forward(s, s')
            && if s.log.front + 2 * s.logTarget < s.logBase then
                 && s'.log.front == s.log.front + s.logTarget
                 && s'.log.front + s.logTarget < s.logBase
                 && s'.log.Back() == s.log.Back()
                 && forall idx :: s'.log.Has(idx) ==> s.log.Has(idx) && s'.log.At(idx) == s.log.At(idx)
               else s' == s
  {
    var s' := Compact(s);
    forall idx | s'.compacted < idx <= s'.applied
      ensures DeliveredAt(s', idx)
    {
      assert DeliveredAt(s, idx);
    }
  }

  /** A change of term, vote, role and peers alone. */
  lemma RoleOrdered(s: Server, s': Server)
    requires Ordered(s) && s' == s.(term := s'.term, votedFor := s'.votedFor, role := s'.role, peers := s'.peers)
    ensures Ordered(s') && Forward(s, s')
  {
    BeyondCommitOrdered(s, s');
  }

  lemma TickOrdered(s: Server, timeout: bool, cp: nat -> int)
    requires Ordered(s)
    ensures Ordered(Tick(s, timeout, cp)) && Forward(s, Tick(s, timeout, cp))
  {
    var s1 := if |s.peers| == 1 && s.role != Leader then BecomeLeader(s) else s;
    var s2 := if s1.role != Leader && timeout && 1 < |s1.peers| then BecomeCandidate(s1) else s1;
    RoleOrdered(s, s1);
    RoleOrdered(s1, s2);
    TickRest(s2, cp);
  }

  lemma TickRest(s: Server, cp: nat -> int)
    requires Ordered(s)
    ensures var s3 := ApplyAll(s, cp);
            var s4 := if s3.applied < s3.commit then s3 else Compact(s3);
            Ordered(s4) && Forward(s, s4)
  {
    ApplyAllOrdered(s, cp);
    CompactionLeavesTarget(ApplyAll(s, cp));
  }

  lemma AcceptBeyond(s: Server, ae: AppendEntries)
    requires s.log.front <= s.commit <= s.log.Back() && Accept(s, ae).Done?
    ensures BeyondCommit(s, Accept(s, ae).server)
  {
    var s1 := CutAfter(s, ae).server;
    assert BeyondCommit(s, s1);
    var s2 := Merge(s1, ae.prevIdx, ae.entries).server;
    assert BeyondCommit(s1, s2);
  }

  lemma AppendOrdered(s: Server, ae: AppendEntries)
    requires Ordered(s) && RecvAppendEntries(s, ae).Done?
    ensures BeyondCommit(s, RecvAppendEntries(s, ae).server)
  {
    var s1 := AdoptTerm(s, ae.term);
    assert BeyondCommit(s, s1);
    if Accept(s1, ae).Done? {
      AcceptBeyond(s1, ae);
    }
  }

  lemma SuccessOrdered(s: Server, src: nat, cur: nat, cp: nat -> int)
    requires Ordered(s) && src < |s.peers| && RecvSuccess(s, src, cur, cp).Done?
    ensures var s' := RecvSuccess(s, src, cur, cp).server; Ordered(s') && Forward(s, s')
  {
    var p := s.peers[src];
    var next := if p.nextIdx < cur + 1 then cur + 1 else p.nextIdx;
    var s1 := s.(peers := s.peers[src := p.(nextIdx := next, matchIdx := cur)]);
    var s2 := if |s.peers| / 2 < 1 + |Acked(s1, cur)| && s.commit < cur then s1.(commit := cur) else s1;
    BeyondCommitOrdered(s, s2);
    ApplyAllOrdered(s2, cp);
  }

  lemma AppendReplyOrdered(s: Server, src: nat, r: AppendReply, cp: nat -> int)
    requires Ordered(s) && RecvAppendReply(s, src, r, cp).Done?
    ensures var s' := RecvAppendReply(s, src, r, cp).server; Ordered(s') && Forward(s, s')
  {
    var s' := RecvAppendReply(s, src, r, cp).server;
    if s' == s.(term := s'.term, votedFor := s'.votedFor, role := s'.role, peers := s'.peers) {
      RoleOrdered(s, s');
    } else {
      SuccessOrdered(s, src, r.currentIdx, cp);
    }
  }

  lemma EntriesOrdered(s: Server, data: seq<int>)
    requires Ordered(s)
    ensures Ordered(RecvEntries(s, data)) && Forward(s, RecvEntries(s, data))
  {
    BeyondCommitOrdered(s, RecvEntries(s, data));
  }

  lemma VoteRequestOrdered(s: Server, vr: VoteRequest)
    requires Ordered(s) && RecvVoteRequest(s, vr).Done?
    ensures Ordered(RecvVoteRequest(s, vr).server) && Forward(s, RecvVoteRequest(s, vr).server)
  {
    RoleOrdered(s, RecvVoteRequest(s, vr).server);
  }

  lemma VoteReplyOrdered(s: Server, src: nat, r: VoteReply)
    requires Ordered(s)
    ensures Ordered(RecvVoteReply(s, src, r)) && Forward(s, RecvVoteReply(s, src, r))
  {
    RoleOrdered(s, RecvVoteReply(s, src, r));
  }

  lemma ServeOrdered(s: Server, ev: Event)
    requires Ordered(s) && Serve(s, ev).Running?
    ensures Ordered(Serve(s, ev).server) && Forward(s, Serve(s, ev).server)
  {
    match ev
    case Period(timeout, cp) => TickOrdered(s, timeout, cp);
    case AppendReplyIn(src, r, cp) => AppendReplyOrdered(s, src, r, cp);
    case AppendIn(ae) =>
      AppendOrdered(s, ae);
      BeyondCommitOrdered(s, Serve(s, ev).server);
    case EntriesIn(data) => EntriesOrdered(s, data);
    case VoteRequestIn(vr) => VoteRequestOrdered(s, vr);
    case VoteReplyIn(src, r) => VoteReplyOrdered(s, src, r);
    case SendOut(j, sent) => RoleOrdered(s, Serve(s, ev).server);
  }

  // ----- one vote per term -----

  /** Terms only grow, and a vote once cast stands as long as the term lasts. */
  ghost predicate OneVote(s: Server, s': Server) {
    && s.term <= s'.term
    && (s.term == s'.term && s.votedFor != NOBODY ==> s'.votedFor == s.votedFor)
  }

  ghost predicate SameVote(s: Server, s': Server) {
    s'.term == s.term && s'.votedFor == s.votedFor
  }

  /** Applying changes nothing but what it is for. */
  lemma {:induction false} ApplyAllFrame(s: Server, cp: nat -> int)
    ensures var s' := ApplyAll(s, cp);
            s' == s.(applied := s'.applied, delivered := s'.delivered, logBase := s'.logBase)
    decreases s.commit - s.applied
  {
    if s.applied < s.commit && s.log.Has(s.applied + 1) {
      var s1 := s.(applied := s.applied + 1, delivered := s.delivered + [s.log.At(s.applied + 1)]);
      ApplyAllFrame(Checkpoint(s1, cp(s1.applied)), cp);
    }
  }

  lemma TickVote(s: Server, timeout: bool, cp: nat -> int)
    ensures OneVote(s, Tick(s, timeout, cp))
  {
    var s1 := if |s.peers| == 1 && s.role != Leader then BecomeLeader(s) else s;
    var s2 := if s1.role != Leader && timeout && 1 < |s1.peers| then BecomeCandidate(s1) else s1;
    ApplyAllFrame(s2, cp);
  }

  lemma AcceptVote(s: Server, ae: AppendEntries)
    requires Accept(s, ae).Done?
    ensures SameVote(s, Accept(s, ae).server)
  {
    var s1 := CutAfter(s, ae).server;
    var s2 := Merge(s1, ae.prevIdx, ae.entries).server;
    assert SameVote(s, s1) && SameVote(s1, s2);
  }

  lemma AppendVote(s: Server, ae: AppendEntries)
    requires RecvAppendEntries(s, ae).Done?
    ensures OneVote(s, RecvAppendEntries(s, ae).server)
  {
    var s1 := AdoptTerm(s, ae.term);
    assert OneVote(s, s1);
    if Accept(s1, ae).Done? {
      AcceptVote(s1, ae);
    }
  }

  lemma AppendReplyVote(s: Server, src: nat, r: AppendReply, cp: nat -> int)
    requires RecvAppendReply(s, src, r, cp).Done?
    ensures OneVote(s, RecvAppendReply(s, src, r, cp).server)
  {
    if src < |s.peers| {
      var p, cur := s.peers[src], r.currentIdx;
      var next := if p.nextIdx < cur + 1 then cur + 1 else p.nextIdx;
      var s1 := s.(peers := s.peers[src := p.(nextIdx := next, matchIdx := cur)]);
      ApplyAllFrame(s1, cp);
      ApplyAllFrame(s1.(commit := cur), cp);
    }
  }

  lemma ServeVote(s: Server, ev: Event)
    requires Serve(s, ev).Running?
    ensures OneVote(s, Serve(s, ev).server)
  {
    match ev
    case Period(timeout, cp) => TickVote(s, timeout, cp);
    case AppendIn(ae) => AppendVote(s, ae);
    case AppendReplyIn(src, r, cp) => AppendReplyVote(s, src, r, cp);
    case _ =>
  }

  /** What every call that does not stop the process keeps. */
  ghost predicate Kept(s: Server, s': Server) {
    Ordered(s') && Forward(s, s') && OneVote(s, s')
  }

  lemma ServeKeeps(s: Server, ev: Event)
    requires Ordered(s)
    ensures Serve(s, ev).Running? ==> Kept(s, Serve(s, ev).server)
  {
    if Serve(s, ev).Running? {
      ServeOrdered(s, ev);
      ServeVote(s, ev);
    }
  }

  /** Adopting the term of a message a second time changes nothing. */
  lemma AdoptedTwice(s: Server, ae: AppendEntries)
    requires s.term <= ae.term
    ensures var s1 := AdoptTerm(s, ae.term);
            AdoptTerm(s1, ae.term) == s1 && RecvAppendEntries(s1, ae) == RecvAppendEntries(s, ae)
  {
  }

  // ----- whole runs -----

  lemma {:induction false} RunOrdered(run: seq<Server>, evs: seq<Event>, k: nat)
    requires ServerRun(run, evs) && k < |run|
    ensures Ordered(run[k])
  {
    if k > 0 {
      RunOrdered(run, evs, k - 1);
      ServeOrdered(run[k - 1], evs[k - 1]);
    }
  }

  /** Over a run, index idx is delivered once, in order, and for good: what the applylog
      callback got at that index never changes, and it is the log's entry there in every
      later state that has not compacted it. */
  lemma {:induction false} DeliveredForGood(run: seq<Server>, evs: seq<Event>, i: nat, j: nat, idx: nat)
    requires ServerRun(run, evs) && i <= j < |run| && 0 < idx <= run[i].applied
    ensures run[i].applied == |run[i].delivered| && run[j].applied == |run[j].delivered|
    ensures idx <= run[j].applied && run[j].delivered[idx - 1] == run[i].delivered[idx - 1]
    ensures run[j].compacted < idx ==> run[j].log.Has(idx) && run[j].log.At(idx) == run[i].delivered[idx - 1]
    decreases j - i
  {
    if i < j {
      DeliveredForGood(run, evs, i, j - 1, idx);
      StepForward(run, evs, j - 1);
    }
    RunOrdered(run, evs, i);
    RunOrdered(run, evs, j);
    if run[j].compacted < idx {
      assert DeliveredAt(run[j], idx);
    }
  }

  lemma StepForward(run: seq<Server>, evs: seq<Event>, k: nat)
    requires ServerRun(run, evs) && k + 1 < |run|
    ensures Forward(run[k], run[k + 1])
  {
    RunOrdered(run, evs, k);
    assert Serve(run[k], evs[k]) == Running(run[k + 1]);
    ServeOrdered(run[k], evs[k]);
  }

  /** Over a run, a server votes for at most one candidate in a term. */
  lemma {:induction false} VoteStands(run: seq<Server>, evs: seq<Event>, i: nat, j: nat)
    requires ServerRun(run, evs) && i <= j < |run|
    ensures OneVote(run[i], run[j])
    decreases j - i
  {
    if i < j {
      VoteStands(run, evs, i, j - 1);
      assert Serve(run[j - 1], evs[j - 1]) == Running(run[j - 1 + 1]);
      ServeVote(run[j - 1], evs[j - 1]);
    }
  }
}
