/** What a server answers and when it acts, both ways, in terms of its log's entries and of
    the message: which votes are granted, what a refusal names, where entries land, when a
    leader commits and when the log is compacted. */
module RaftAnswers {
  import opened Common
  import opened LogModel
  import opened RaftTypes
  import opened RaftServer
  import opened ServerOrder

  // ----- votes -----

  /** A log that ends with an entry of lastTerm at lastIdx is at least as up to date. */
  predicate NotAhead(log: Log<Entry>, lastTerm: nat, lastIdx: nat) {
    || log.front + |log.entries| == 0
    || (&& log.entries != []
        && var last := log.entries[|log.entries| - 1].term;
        last < lastTerm || (last == lastTerm && log.front + |log.entries| <= lastIdx))
  }

  /** The server has not voted in the request's term, which is not behind its own, and its
      log is not ahead of the candidate's. */
  predicate MayVote(s: Server, vr: VoteRequest) {
    && s.term <= vr.term
    && (s.term == vr.term ==> s.votedFor == NOBODY)
    && NotAhead(s.log, vr.lastTerm, vr.lastIdx)
  }

  function Later(a: nat, b: nat): nat {
    if a < b then b else a
  }

  /** A vote is granted exactly when the server may vote, and it goes to the candidate. The
      call stops the process exactly when a leader or candidate of the term may vote. */
  lemma VoteExactly(s: Server, vr: VoteRequest)
    requires s.log.Back() == 0 || s.log.entries != []
    ensures RecvVoteRequest(s, vr).Abort? <==> MayVote(s, vr) && s.term == vr.term && s.role != Follower
    ensures RecvVoteRequest(s, vr).Done? ==>
              && RecvVoteRequest(s, vr).reply == VoteReply(Later(s.term, vr.term), MayVote(s, vr))
              && RecvVoteRequest(s, vr).server ==
                 s.(term := Later(s.term, vr.term),
                    role := if s.term < vr.term then Follower else s.role,
                    votedFor := if MayVote(s, vr) then vr.candidate
                                else if s.term < vr.term then NOBODY else s.votedFor)
  {
  }

  /** The members whose vote the candidate has once the reply is counted. */
  ghost function Voters(s: Server, src: nat): set<nat> {
    set j: nat | j < |s.peers| && (if j == s.me then s.votedFor == j else s.peers[j].granted || j == src)
  }

  lemma VotersCounted(s: Server, src: nat, s': Server)
    requires s.me < |s.peers|
    requires s' == if src < |s.peers| then s.(peers := s.peers[src := s.peers[src].(granted := true)]) else s
    ensures VoteCount(s') == |Voters(s, src)| <= |s.peers|
  {
    var others, voters := Granters(s'), Voters(s, src);
    assert voters == others + if s.votedFor == s.me then {s.me} else {};
    BelowSize(voters, |s.peers|);
  }

  /** A candidate becomes leader exactly on a vote of its term that completes a majority of
      the members; then every other member is to be sent what comes after the leader's log,
      with nothing acknowledged. Only a later term makes it a follower. */
  lemma ElectedExactly(s: Server, src: nat, r: VoteReply)
    requires s.me < |s.peers| && s.role == Candidate
    ensures var s' := RecvVoteReply(s, src, r);
            && (s'.role == Leader <==> s.term == r.term && r.granted && |s.peers| < 2 * |Voters(s, src)|)
            && (s'.role == Follower <==> s.term < r.term)
            && s'.term == Later(s.term, r.term) && s'.log == s.log && |s'.peers| == |s.peers|
            && (s'.role == Leader ==> forall j :: 0 <= j < |s.peers| && j != s.me ==>
                  s'.peers[j].nextIdx == s.log.Back() + 1 && s'.peers[j].matchIdx == 0)
            && (s'.role == Candidate ==>
                  Granters(s') == Granters(s) + if s.term == r.term && r.granted && src < |s.peers| && src != s.me
                                                then {src} else {})
  {
    if s.term == r.term && r.granted {
      var s1 := if src < |s.peers| then s.(peers := s.peers[src := s.peers[src].(granted := true)]) else s;
      VotersCounted(s, src, s1);
    }
  }

  // ----- what a follower answers -----

  /** The entry before the new ones is at hand with the right term, or needs no check. */
  predicate Anchored(s: Server, ae: AppendEntries) {
    || ae.prevIdx == 0
    || ae.prevIdx < s.logBase
    || (s.log.Has(ae.prevIdx) && s.log.At(ae.prevIdx).term == ae.prevTerm)
  }

  lemma AcceptAnswers(s: Server, ae: AppendEntries)
    requires Accept(s, ae).Done?
    ensures Accept(s, ae).reply == AppendReply(s.term, true, ae.prevIdx + |ae.entries|, ae.prevIdx + 1)
    ensures Accept(s, ae).server.term == s.term && Accept(s, ae).server.role == s.role
  {
    AcceptVote(s, ae);
    var s1 := CutAfter(s, ae).server;
    var s2 := Merge(s1, ae.prevIdx, ae.entries).server;
    assert s1.role == s.role && s2.role == s1.role;
  }

  /** A message is accepted exactly when it is of no earlier term and the entry before its
      own is right. Whoever is not the leader of the message's term follows it. */
  lemma AnsweredExactly(s: Server, ae: AppendEntries)
    requires RecvAppendEntries(s, ae).Done?
    ensures var s', r := RecvAppendEntries(s, ae).server, RecvAppendEntries(s, ae).reply;
            && (r.success <==> s.term <= ae.term && Anchored(s, ae))
            && r.term == s'.term == Later(s.term, ae.term)
            && (s'.role == Follower <==>
                  s.role == Follower || s.term < ae.term || (s.term == ae.term && s.role == Candidate))
            && (r.success ==> r.currentIdx == ae.prevIdx + |ae.entries|)
  {
    var s1 := AdoptTerm(s, ae.term);
    if Accept(s1, ae).Done? {
      AcceptAnswers(s1, ae);
    }
  }

  /** A refusal names the last index the replier then has. In the message's own term it is an
      index below the one asked for, unless that one has been compacted away. */
  lemma RefusedExactly(s: Server, ae: AppendEntries)
    requires RecvAppendEntries(s, ae).Done? && !RecvAppendEntries(s, ae).reply.success
    ensures var s', r := RecvAppendEntries(s, ae).server, RecvAppendEntries(s, ae).reply;
            && r.currentIdx == s'.log.Back() && s'.commit == s.commit
            && (ae.term < s.term || !s.log.Has(ae.prevIdx) ==> s'.log == s.log)
            && (s.term <= ae.term && s.log.Has(ae.prevIdx) ==>
                  && s'.log.front == s.log.front && r.currentIdx == ae.prevIdx - 1
                  && s'.log.entries == s.log.entries[..ae.prevIdx - 1 - s.log.front])
            && (s.term <= ae.term ==> (r.currentIdx < ae.prevIdx <==> s.log.front < ae.prevIdx))
  {
    var s1 := AdoptTerm(s, ae.term);
    if Accept(s1, ae).Done? {
      AcceptAnswers(s1, ae);
    }
  }

  /** Both at once, as a caller sees them. */
  lemma AppendAnswers(s: Server, ae: AppendEntries)
    ensures RecvAppendEntries(s, ae).Done? ==>
              var s', r := RecvAppendEntries(s, ae).server, RecvAppendEntries(s, ae).reply;
              && (r.success <==> s.term <= ae.term && Anchored(s, ae))
              && (!r.success ==> r.currentIdx == s'.log.Back())
  {
    if RecvAppendEntries(s, ae).Done? {
      AnsweredExactly(s, ae);
      if !RecvAppendEntries(s, ae).reply.success {
        RefusedExactly(s, ae);
      }
    }
  }

  // ----- where entries land -----

  /** The log holds entries of the terms of the new ones, at their positions, up to the k-th. */
  ghost predicate SameUpTo(log: Log<Entry>, prev: nat, es: seq<Entry>, k: nat)
    requires k <= |es|
  {
    forall j :: 0 <= j < k ==> Same(log, prev, es, j)
  }

  /** The k-th new entry is at its index; if the log already had entries of the right terms up
      to there, the one it had. */
  ghost predicate Landed(log: Log<Entry>, log': Log<Entry>, prev: nat, es: seq<Entry>, k: nat)
    requires k < |es|
  {
    && Same(log', prev, es, k)
    && log'.At(prev + 1 + k) ==
       if Same(log, prev, es, k) && SameUpTo(log, prev, es, k) then log.At(prev + 1 + k) else es[k]
  }

  /** Merging writes each new entry at its own index, from the first on that the log lacks or
      holds with another term, and ends the log behind them; if there is none the log stays. */
  lemma MergedExactly(s: Server, prev: nat, es: seq<Entry>)
    requires s.log.front <= prev <= s.log.Back() && Merge(s, prev, es).Done?
    ensures var log, log' := s.log, Merge(s, prev, es).server.log;
            && log'.front == log.front
            && (SameUpTo(log, prev, es, |es|) ==> log' == log)
            && (!SameUpTo(log, prev, es, |es|) ==> log'.Back() == prev + |es|)
            && (forall idx :: log.front < idx <= prev ==> log'.Has(idx) && log'.At(idx) == log.At(idx))
            && forall k :: 0 <= k < |es| ==> Landed(log, log', prev, es, k)
  {
    var i := Agreeing(s.log, prev, es);
    assert SameUpTo(s.log, prev, es, i);
    if i < |es| {
      assert !Same(s.log, prev, es, i);
      MergedFrom(s, prev, es, i);
    }
    forall k | 0 <= k < |es|
      ensures Landed(s.log, Merge(s, prev, es).server.log, prev, es, k)
    {
      if k < i {
        assert Same(s.log, prev, es, k);
      }
    }
  }

  lemma MergedFrom(s: Server, prev: nat, es: seq<Entry>, i: nat)
    requires s.log.front <= prev <= s.log.Back() && Merge(s, prev, es).Done? && i == Agreeing(s.log, prev, es) < |es|
    ensures prev + i <= s.log.Back()
    ensures Merge(s, prev, es).server.log == Log(s.log.front, s.log.entries[..prev + i - s.log.front] + es[i..])
  {
    assert i > 0 ==> Same(s.log, prev, es, i - 1);
  }

  /** The entries of an accepted message land at their indices exactly when the message does
      not reach below the front of the log. Otherwise they are appended at its end. */
  lemma LandsExactly(s: Server, ae: AppendEntries)
    requires Ordered(s) && RecvAppendEntries(s, ae).Done? && RecvAppendEntries(s, ae).reply.success && ae.entries != []
    ensures var log' := RecvAppendEntries(s, ae).server.log;
            && (SameUpTo(log', ae.prevIdx, ae.entries, |ae.entries|) <==> s.log.front <= ae.prevIdx)
            && (ae.prevIdx < s.log.front ==> log' == Log(s.log.front, s.log.entries + ae.entries))
  {
    var s1 := AdoptTerm(s, ae.term);
    AnsweredExactly(s, ae);
    assert RecvAppendEntries(s, ae) == Accept(s1, ae) && CutAfter(s1, ae) == Done(s1, ());
    MergeLands(s1, ae.prevIdx, ae.entries);
  }

  lemma MergeLands(s: Server, prev: nat, es: seq<Entry>)
    requires prev <= s.log.Back() && Merge(s, prev, es).Done? && es != []
    ensures var log' := Merge(s, prev, es).server.log;
            && (SameUpTo(log', prev, es, |es|) <==> s.log.front <= prev)
            && (prev < s.log.front ==> log' == Log(s.log.front, s.log.entries + es))
  {
    var log' := Merge(s, prev, es).server.log;
    if s.log.front <= prev {
      MergedExactly(s, prev, es);
      forall k | 0 <= k < |es|
        ensures Same(log', prev, es, k)
      {
        assert Landed(s.log, log', prev, es, k);
      }
    } else {
      assert !Same(s.log, prev, es, 0) && !Same(log', prev, es, 0);
    }
  }

  /** A follower's commit index moves exactly to the leader's, as far as its own log goes. */
  lemma FollowerCommitsExactly(s: Server, ae: AppendEntries)
    requires Ordered(s) && RecvAppendEntries(s, ae).Done?
    ensures var s', r := RecvAppendEntries(s, ae).server, RecvAppendEntries(s, ae).reply;
            s'.commit == if r.success && s.commit < ae.leaderCommit
                         then (if s'.log.Back() < ae.leaderCommit then s'.log.Back() else ae.leaderCommit)
                         else s.commit
  {
    var s1 := AdoptTerm(s, ae.term);
    if RecvAppendEntries(s, ae).reply.success {
      assert RecvAppendEntries(s, ae) == Accept(s1, ae);
      AcceptCommits(s1, ae);
    }
  }

  lemma AcceptCommits(s: Server, ae: AppendEntries)
    requires Accept(s, ae).Done?
    ensures var s' := Accept(s, ae).server;
            s'.commit == if s.commit < ae.leaderCommit
                         then (if s'.log.Back() < ae.leaderCommit then s'.log.Back() else ae.leaderCommit)
                         else s.commit
  {
    var s1 := CutAfter(s, ae).server;
    var s2 := Merge(s1, ae.prevIdx, ae.entries).server;
    assert s1.commit == s.commit && s2.commit == s.commit;
    assert Accept(s, ae).server == AdvanceCommit(s2, ae.leaderCommit).server;
  }

  // ----- when a leader commits -----

  /** The other members whose match index reaches the point with an entry of the leader's own
      term there. */
  ghost function Behind(s: Server, point: nat): set<nat> {
    set j: nat | j < |s.peers| && j != s.me && MatchesOwn(s, j, point)
  }

  ghost predicate MatchesOwn(s: Server, j: nat, point: nat)
    requires j < |s.peers|
  {
    var m := s.peers[j].matchIdx;
    && point <= m && s.log.front < m <= s.log.front + |s.log.entries|
    && s.log.entries[m - 1 - s.log.front].term == s.term
  }

  /** A reply that is not older than what the member has acknowledged already. */
  predicate Fresh(s: Server, src: nat, r: AppendReply) {
    src < |s.peers| && (s.peers[src].matchIdx == 0 || s.peers[src].matchIdx < r.currentIdx)
  }

  /** On an acknowledgement of its term the leader notes it, commits the index exactly when it
      and the members behind it are more than half and it is not committed yet, and applies
      all that is committed. It never takes back what it has sent to the member. */
  lemma CommitsExactly(s: Server, src: nat, r: AppendReply, cp: nat -> int)
    requires Ordered(s) && s.role == Leader && Fresh(s, src, r) && r.success && r.term == s.term
    ensures RecvAppendReply(s, src, r, cp).Done? <==> r.currentIdx <= s.log.Back()
    ensures RecvAppendReply(s, src, r, cp).Done? ==>
              var s' := RecvAppendReply(s, src, r, cp).server;
              && s'.peers == s.peers[src := Peer(Later(s.peers[src].nextIdx, r.currentIdx + 1), r.currentIdx,
                                                 s.peers[src].granted)]
              && s'.commit == (if s.commit < r.currentIdx && |s.peers| < 2 * (1 + |Behind(s', r.currentIdx)|)
                               then r.currentIdx else s.commit)
              && s'.applied == s'.commit && Ordered(s') && s'.log == s.log && s'.role == Leader && s'.term == s.term
  {
    if r.currentIdx <= s.log.Back() {
      var s2 := Noted(s, src, r.currentIdx);
      NotedApplied(s, src, r, cp);
      BeyondCommitOrdered(s, s2);
      ApplyAllOrdered(s2, cp);
      ApplyAllFrame(s2, cp);
      SameBehind(s2, ApplyAll(s2, cp), r.currentIdx);
    }
  }

  /** The leader with the acknowledgement noted and what it newly commits. */
  ghost function Noted(s: Server, src: nat, cur: nat): (s2: Server)
    requires src < |s.peers|
    ensures s2 == s.(peers := s2.peers, commit := s2.commit)
    ensures s2.commit == if s.commit < cur && |s.peers| < 2 * (1 + |Behind(s2, cur)|) then cur else s.commit
  {
    var p := s.peers[src];
    var s1 := s.(peers := s.peers[src := p.(nextIdx := Later(p.nextIdx, cur + 1), matchIdx := cur)]);
    SameBehind(s1, s1.(commit := cur), cur);
    if s.commit < cur && |s.peers| < 2 * (1 + |Behind(s1, cur)|) then s1.(commit := cur) else s1
  }

  lemma SameBehind(s: Server, s': Server, point: nat)
    requires s'.peers == s.peers && s'.log == s.log && s'.term == s.term && s'.me == s.me
    ensures Behind(s', point) == Behind(s, point)
  {
    assert forall j: nat :: j < |s.peers| ==> (MatchesOwn(s', j, point) <==> MatchesOwn(s, j, point));
  }

  lemma NotedApplied(s: Server, src: nat, r: AppendReply, cp: nat -> int)
    requires s.role == Leader && Fresh(s, src, r) && r.success && r.term == s.term && s.commit <= s.log.Back()
    requires r.currentIdx <= s.log.Back()
    ensures RecvAppendReply(s, src, r, cp) == Done(ApplyAll(Noted(s, src, r.currentIdx), cp), ())
  {
    var cur := r.currentIdx;
    var p := s.peers[src];
    var s1 := s.(peers := s.peers[src := p.(nextIdx := Later(p.nextIdx, cur + 1), matchIdx := cur)]);
    assert forall j: nat :: j < |s1.peers| && j != s1.me ==> (MatchesOwn(s1, j, cur) <==> CountsFor(s1, j, cur));
    assert Acked(s1, cur) == Behind(s1, cur);
  }

  /** On a refusal of its term the leader goes back to just behind the index it names, within
      its log; the call stops the process exactly when that is acknowledged already. */
  lemma BacksUpExactly(s: Server, src: nat, r: AppendReply, cp: nat -> int)
    requires s.role == Leader && Fresh(s, src, r) && !r.success && r.term == s.term
    ensures var back := if r.currentIdx + 1 <= s.log.Back() then r.currentIdx + 1 else Later(s.log.Back(), 1);
            && (RecvAppendReply(s, src, r, cp).Done? <==> s.peers[src].matchIdx < back)
            && (RecvAppendReply(s, src, r, cp).Done? ==>
                  RecvAppendReply(s, src, r, cp).server == s.(peers := s.peers[src := s.peers[src].(nextIdx := back)]))
  {
  }

  /** A leader steps down exactly on a reply of a later term that is not stale; any other reply
      that is stale, or of another term, or for another role, changes nothing. */
  lemma OtherReplies(s: Server, src: nat, r: AppendReply, cp: nat -> int)
    requires !(s.role == Leader && Fresh(s, src, r) && r.term == s.term)
    ensures RecvAppendReply(s, src, r, cp) ==
            Done(if s.role == Leader && Fresh(s, src, r) && s.term < r.term
                 then s.(term := r.term, votedFor := NOBODY, role := Follower) else s, ())
  {
  }

  // ----- what a leader takes in and sends -----

  /** The log gains exactly the client's items, in order and stamped with the server's term. */
  ghost predicate Takes(s: Server, data: seq<int>, s': Server) {
    && s'.log.front == s.log.front && |s'.log.entries| == |s.log.entries| + |data| && s.log.entries <= s'.log.entries
    && forall k :: 0 <= k < |data| ==> s'.log.entries[|s.log.entries| + k] == Entry(s.term, data[k])
  }

  /** A leader takes what clients bring, and on its own commits it at once; any other server
      refuses. */
  lemma TakenExactly(s: Server, data: seq<int>)
    ensures var s' := RecvEntries(s, data);
            if s.role == Leader
            then Takes(s, data, s') && s'.commit == if |s.peers| == 1 then s'.log.Back() else s.commit
            else s' == s
  {
  }

  /** A message takes up exactly at the member's next index, says of which term the entry
      before it is (-1 exactly when that is compacted away), and carries the commit index. */
  lemma SentExactly(s: Server, j: nat, n: nat)
    requires j < |s.peers| && 1 <= s.peers[j].nextIdx <= s.log.Back() + 1
    requires s.log.Has(s.peers[j].nextIdx) ==> 0 < n && s.log.Has(s.peers[j].nextIdx + n - 1)
    ensures var ae := BuildAppend(s, j, n);
            && ae.prevIdx + 1 == s.peers[j].nextIdx && ae.term == s.term && ae.leaderCommit == s.commit
            && (ae.prevTerm == -1 <==> 0 < ae.prevIdx <= s.log.front)
            && (s.log.front < ae.prevIdx ==> ae.prevTerm == s.log.entries[ae.prevIdx - 1 - s.log.front].term)
            && (s.log.front <= ae.prevIdx < s.log.Back() ==>
                  |ae.entries| == n && ae.entries <= s.log.entries[ae.prevIdx - s.log.front..])
            && (ae.prevIdx < s.log.front || ae.prevIdx == s.log.Back() ==> ae.entries == [])
  {
  }

  // ----- timers and checkpoints -----

  /** A server on its own takes the lead at once; any other that does not lead stands for the
      next term exactly when its timeout has elapsed, with its own vote and no other. Nothing
      else about terms, votes and roles changes at a tick. */
  lemma TickRoles(s: Server, timeout: bool, cp: nat -> int)
    ensures var s' := Tick(s, timeout, cp);
            if |s.peers| == 1 then
              s'.role == Leader && s'.term == s.term && s'.votedFor == s.votedFor
            else if s.role != Leader && timeout && 1 < |s.peers| then
              && s'.role == Candidate && s'.term == s.term + 1 && s'.votedFor == s.me && Granters(s') == {}
            else
              && s'.role == s.role && s'.term == s.term && s'.votedFor == s.votedFor && s'.peers == s.peers
  {
    var s1 := if |s.peers| == 1 && s.role != Leader then BecomeLeader(s) else s;
    var s2 := if s1.role != Leader && timeout && 1 < |s1.peers| then BecomeCandidate(s1) else s1;
    ApplyAllFrame(s2, cp);
  }

  /** The last index, among those applied from now on, at which the application has a
      checkpoint. */
  ghost predicate LastCheckpoint(s: Server, cp: nat -> int, i: nat) {
    s.applied < i <= s.commit && 0 <= cp(i) && forall x :: i < x <= s.commit ==> cp(x) < 0
  }

  /** After all that is committed has been applied, the base is the index that the last
      checkpoint covers, counted from one and as far as applied then; without one it stays. */
  lemma {:induction false} CheckpointCovers(s: Server, cp: nat -> int)
    requires Ordered(s)
    ensures var s' := ApplyAll(s, cp);
            && (forall i: nat :: LastCheckpoint(s, cp, i) ==> s'.logBase == if cp(i) + 1 < i then cp(i) + 1 else i)
            && ((forall x: nat :: s.applied < x <= s.commit ==> cp(x) < 0) ==> s'.logBase == s.logBase)
    decreases s.commit - s.applied
  {
    if s.applied < s.commit {
      var s1 := s.(applied := s.applied + 1, delivered := s.delivered + [s.log.At(s.applied + 1)]);
      var s2 := Checkpoint(s1, cp(s1.applied));
      OneApplied(s, cp);
      CheckpointCovers(s2, cp);
      forall i: nat | LastCheckpoint(s, cp, i)
        ensures ApplyAll(s, cp).logBase == if cp(i) + 1 < i then cp(i) + 1 else i
      {
        if i != s1.applied {
          assert LastCheckpoint(s2, cp, i);
        }
      }
    }
  }

  lemma OneApplied(s: Server, cp: nat -> int)
    requires Ordered(s) && s.applied < s.commit
    ensures var s1 := s.(applied := s.applied + 1, delivered := s.delivered + [s.log.At(s.applied + 1)]);
            Ordered(Checkpoint(s1, cp(s1.applied)))
  {
    var s1 := s.(applied := s.applied + 1, delivered := s.delivered + [s.log.At(s.applied + 1)]);
    var s2 := Checkpoint(s1, cp(s1.applied));
    forall idx | s2.compacted < idx <= s2.applied
      ensures DeliveredAt(s2, idx)
    {
      if idx <= s.applied {
        assert DeliveredAt(s, idx);
      }
    }
  }

  // ----- when the log is compacted -----

  /** The log is compacted exactly when the checkpoint base is more than two targets beyond
      its front, and then by one target. */
  lemma CompactsExactly(s: Server)
    requires Ordered(s)
    ensures Compact(s).log.front == s.log.front + if s.log.front + 2 * s.logTarget < s.logBase then s.logTarget else 0
    ensures Compact(s) == s.(log := Compact(s).log, compacted := Compact(s).log.front)
  {
  }

  /** Ticks of a server whose applications take no checkpoint; each tick's election timeout
      may have elapsed or not. */
  ghost function Ticks(s: Server, timeouts: seq<bool>): Server
    decreases |timeouts|
  {
    if timeouts == [] then s else Ticks(Tick(s, timeouts[0], (_: nat) => -1), timeouts[1..])
  }

  lemma {:induction false} ApplyKeepsBase(s: Server)
    ensures ApplyAll(s, (_: nat) => -1).logBase == s.logBase
    decreases s.commit - s.applied
  {
    if s.applied < s.commit && s.log.Has(s.applied + 1) {
      var s1 := s.(applied := s.applied + 1, delivered := s.delivered + [s.log.At(s.applied + 1)]);
      ApplyKeepsBase(Checkpoint(s1, -1));
    }
  }

  /** One tick applies all that is committed and compacts what is due, whatever role the server
      takes. */
  lemma TickCompacts(s: Server, timeout: bool, cp: nat -> int)
    requires Ordered(s)
    ensures var s' := Tick(s, timeout, cp);
            && Ordered(s') && s'.logTarget == s.logTarget && s'.applied == s'.commit == s.commit
            && s'.logBase == ApplyAll(s, cp).logBase
            && s'.log.front == s.log.front + if s.log.front + 2 * s.logTarget < s'.logBase then s.logTarget else 0
  {
    TickOrdered(s, timeout, cp);
    var s1 := if |s.peers| == 1 && s.role != Leader then BecomeLeader(s) else s;
    var s2 := if s1.role != Leader && timeout && 1 < |s1.peers| then BecomeCandidate(s1) else s1;
    RoleOrdered(s, s1);
    RoleOrdered(s1, s2);
    ApplyCompacts(s2, cp);
    ApplyRoles(s, s2, cp);
  }

  lemma ApplyCompacts(s: Server, cp: nat -> int)
    requires Ordered(s)
    ensures var s3 := ApplyAll(s, cp);
            && s3.applied == s3.commit == s.commit && s3.logTarget == s.logTarget
            && Compact(s3) == s3.(log := Compact(s3).log, compacted := Compact(s3).log.front)
            && Compact(s3).log.front ==
               s.log.front + if s.log.front + 2 * s.logTarget < s3.logBase then s.logTarget else 0
  {
    ApplyAllOrdered(s, cp);
    ApplyAllFrame(s, cp);
    CompactsExactly(ApplyAll(s, cp));
  }

  /** Applying does not depend on the role. */
  lemma {:induction false} ApplyRoles(s: Server, s': Server, cp: nat -> int)
    requires s' == s.(term := s'.term, votedFor := s'.votedFor, role := s'.role, peers := s'.peers)
    ensures ApplyAll(s', cp).logBase == ApplyAll(s, cp).logBase
    decreases s.commit - s.applied
  {
    if s.applied < s.commit && s.log.Has(s.applied + 1) {
      var s1 := s.(applied := s.applied + 1, delivered := s.delivered + [s.log.At(s.applied + 1)]);
      var s1' := s'.(applied := s.applied + 1, delivered := s.delivered + [s.log.At(s.applied + 1)]);
      ApplyRoles(Checkpoint(s1, cp(s1.applied)), Checkpoint(s1', cp(s1.applied)), cp);
    }
  }

  /** Enough ticks leave no more than two targets of the log below the checkpoint base, and
      compact no further than they have to. */
  lemma {:induction false} TicksCompact(s: Server, timeouts: seq<bool>)
    requires Ordered(s) && 0 < s.logTarget && s.logBase <= s.log.front + 2 * s.logTarget + |timeouts| * s.logTarget
    ensures var s' := Ticks(s, timeouts);
            && Ordered(s') && s'.logBase == s.logBase <= s'.log.front + 2 * s.logTarget
            && (s'.log.front == s.log.front || s'.log.front + s.logTarget < s.logBase)
    decreases |timeouts|
  {
    if timeouts != [] {
      var s1 := Tick(s, timeouts[0], (_: nat) => -1);
      TickCompacts(s, timeouts[0], (_: nat) => -1);
      ApplyKeepsBase(s);
      OneLess(|timeouts|, s.logTarget);
      TicksCompact(s1, timeouts[1..]);
    }
  }

  lemma OneLess(n: nat, t: nat)
    requires 0 < n
    ensures n * t == (n - 1) * t + t && 0 <= (n - 1) * t
  {
  }
}
