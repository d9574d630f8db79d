/** A leader and one follower that alternate: the leader sends, the follower answers, the
    leader takes the answer. Whether the follower ends up with the leader's log is decided by
    where the leader's two indices for it stand when the exchange begins. */
module RaftCatchUp {
  import opened Common
  import opened LogModel
  import opened RaftTypes
  import opened RaftServer
  import opened RaftCluster
  import opened ServerOrder
  import opened RaftAnswers

  // ----- agreement of two logs -----

  /** The logs are the same up to a and have no term in common beyond. */
  ghost predicate Agrees(f: seq<Entry>, l: seq<Entry>, a: nat) {
    && a <= |f| && a <= |l|
    && (forall k {:trigger f[k]} :: 0 <= k < a ==> f[k] == l[k])
    && (forall k {:trigger f[k]} :: a <= k < |f| && k < |l| ==> f[k].term != l[k].term)
  }

  lemma AgreesShorter(f: seq<Entry>, l: seq<Entry>, a: nat, n: nat)
    requires Agrees(f, l, a) && a <= n <= |f|
    ensures Agrees(f[..n], l, a)
  {
  }

  lemma NotPrefix(f: seq<Entry>, l: seq<Entry>, a: nat)
    requires Agrees(f, l, a) && a < |l|
    ensures !(l <= f)
  {
    assert a < |f| ==> f[a] != l[a];
  }

  lemma AgreesPrefix(l: seq<Entry>, c: nat)
    requires c <= |l|
    ensures Agrees(l[..c], l, c)
  {
  }

  // ----- the follower -----

  /** The follower's log after it accepted the leader's entries from prev to c. */
  ghost function Taken(f: seq<Entry>, l: seq<Entry>, a: nat, prev: nat, c: nat): seq<Entry>
    requires Agrees(f, l, a) && prev <= a && prev <= c <= |l|
  {
    if a < c then l[..c]
    else if prev == c && 0 < prev && prev + 1 < |f| then f[..prev]
    else f
  }

  lemma AgreeingIs(log: Log<Entry>, l: seq<Entry>, a: nat, prev: nat, es: seq<Entry>)
    requires log.front == 0 && Agrees(log.entries, l, a) && prev <= a && prev + |es| <= |l|
    requires es == l[prev..prev + |es|]
    ensures Agreeing(log, prev, es) == if prev + |es| <= a then |es| else a - prev
  {
    assert forall k :: 0 <= k < |es| && prev + k < a ==> Same(log, prev, es, k);
    assert a < prev + |es| ==> !Same(log, prev, es, a - prev);
  }

  lemma MergeTakes(s: Server, l: seq<Entry>, a: nat, prev: nat, es: seq<Entry>)
    requires s.log.front == 0 && Agrees(s.log.entries, l, a) && prev <= a && prev + |es| <= |l| && s.commit <= a
    requires es == l[prev..prev + |es|]
    ensures Merge(s, prev, es) ==
            Done(s.(log := Log(0, if a < prev + |es| then l[..prev + |es|] else s.log.entries)), ())
  {
    AgreeingIs(s.log, l, a, prev, es);
    if a < prev + |es| {
      Replaced(s.log.entries, l, a, prev, es);
    }
  }

  lemma Replaced(f: seq<Entry>, l: seq<Entry>, a: nat, prev: nat, es: seq<Entry>)
    requires Agrees(f, l, a) && prev <= a < prev + |es| <= |l| && es == l[prev..prev + |es|]
    ensures f[..a] + es[a - prev..] == l[..prev + |es|]
    ensures a == |f| ==> f[..a] == f
  {
  }

  /** The message is what the leader of the term, with log l, sends from prev to c. */
  ghost predicate Carries(ae: AppendEntries, l: seq<Entry>, prev: nat, c: nat) {
    && prev <= c <= |l| && ae.prevIdx == prev && ae.entries == l[prev..c] && ae.leaderCommit <= |l|
    && (c == prev ==> prev == |l|)
    && ae.prevTerm == if prev == 0 then 0 else l[prev - 1].term
  }

  /** A server that will follow whoever leads term t. */
  ghost predicate Follows(s: Server, t: nat) {
    Ordered(s) && s.log.front == 0 && s.logBase == 0 && s.term <= t && (s.role == Leader ==> s.term < t)
  }

  ghost function Adopted(s: Server, t: nat): Server {
    s.(term := t, role := Follower, votedFor := if s.term < t then NOBODY else s.votedFor)
  }

  function Least(a: nat, b: nat): nat {
    if a < b then a else b
  }

  lemma Accepts(s: Server, ae: AppendEntries, l: seq<Entry>, a: nat, prev: nat, c: nat)
    requires Ordered(s) && s.log.front == 0 && s.commit <= a && Agrees(s.log.entries, l, a)
    requires Carries(ae, l, prev, c) && prev <= a
    ensures var log := Taken(s.log.entries, l, a, prev, c);
            Accept(s, ae) == Done(s.(log := Log(0, log), commit := Later(s.commit, Least(ae.leaderCommit, |log|))),
                                  AppendReply(s.term, true, c, prev + 1))
  {
    var log := Taken(s.log.entries, l, a, prev, c);
    var s2 := s.(log := Log(0, log));
    if c == prev {
      CutsToEnd(s, ae, l, a, prev);
      Advances(s2, ae.leaderCommit);
      AcceptIs(s, ae, s2, s2);
    } else {
      MergeTakes(s, l, a, prev, ae.entries);
      Advances(s2, ae.leaderCommit);
      AcceptIs(s, ae, s, s2);
    }
  }

  lemma AcceptIs(s: Server, ae: AppendEntries, s1: Server, s2: Server)
    requires CutAfter(s, ae) == Done(s1, ()) && Merge(s1, ae.prevIdx, ae.entries) == Done(s2, ())
    requires AdvanceCommit(s2, ae.leaderCommit).Done?
    ensures var s3 := AdvanceCommit(s2, ae.leaderCommit).server;
            Accept(s, ae) == Done(s3, AppendReply(s3.term, true, ae.prevIdx + |ae.entries|, ae.prevIdx + 1))
  {
  }

  lemma Advances(s: Server, leaderCommit: nat)
    requires s.log.front == 0 && s.commit <= |s.log.entries| && (0 < leaderCommit ==> s.log.entries != [])
    ensures AdvanceCommit(s, leaderCommit) ==
            Done(s.(commit := Later(s.commit, Least(leaderCommit, |s.log.entries|))), ())
  {
  }

  /** An empty message for the end of the leader's log. */
  lemma CutsToEnd(s: Server, ae: AppendEntries, l: seq<Entry>, a: nat, prev: nat)
    requires Ordered(s) && s.log.front == 0 && s.commit <= a && Agrees(s.log.entries, l, a)
    requires Carries(ae, l, prev, prev) && prev <= a
    ensures CutAfter(s, ae) == Done(s.(log := Log(0, Taken(s.log.entries, l, a, prev, prev))), ())
    ensures forall s1: Server :: Merge(s1, prev, ae.entries) == Done(s1, ())
  {
    assert ae.entries == [];
  }

  /** Up to where the logs agree, the follower accepts. */
  lemma FollowerAccepts(s: Server, ae: AppendEntries, l: seq<Entry>, a: nat, prev: nat, c: nat)
    requires Follows(s, ae.term) && s.commit <= a && Agrees(s.log.entries, l, a)
    requires Carries(ae, l, prev, c) && prev <= a
    ensures var log := Taken(s.log.entries, l, a, prev, c);
            RecvAppendEntries(s, ae) ==
            Done(Adopted(s, ae.term).(log := Log(0, log), commit := Later(s.commit, Least(ae.leaderCommit, |log|))),
                 AppendReply(ae.term, true, c, prev + 1))
  {
    var s1 := AdoptTerm(s, ae.term);
    assert s1 == Adopted(s, ae.term);
    RoleOrdered(s, s1);
    Accepts(s1, ae, l, a, prev, c);
  }

  /** Beyond, it refuses, names its last index below the one asked for, and ends there. */
  lemma FollowerRefuses(s: Server, ae: AppendEntries, l: seq<Entry>, a: nat, prev: nat, c: nat)
    requires Follows(s, ae.term) && s.commit <= a && Agrees(s.log.entries, l, a)
    requires Carries(ae, l, prev, c) && a < prev
    ensures var cur := Least(|s.log.entries|, prev - 1);
            RecvAppendEntries(s, ae) ==
            Done(Adopted(s, ae.term).(log := Log(0, s.log.entries[..cur])), AppendReply(ae.term, false, cur, 0))
  {
    var s1 := AdoptTerm(s, ae.term);
    assert s1 == Adopted(s, ae.term);
    if |s.log.entries| < prev {
      assert s.log.entries[..|s.log.entries|] == s.log.entries;
    } else {
      assert s.log.At(prev) == s.log.entries[prev - 1];
    }
  }

  // ----- the leader -----

  /** What the leader's indices for member j are, and that its message fits them. */
  ghost predicate Sends(s: Server, j: nat) {
    && Ordered(s) && s.role == Leader && s.log.front == 0 && j < |s.peers|
    && s.peers[j].matchIdx < s.peers[j].nextIdx <= |s.log.entries| + 1
  }

  /** As many entries as asked for, at least one and no more than there are. */
  function Size(s: Server, j: nat, n: nat): nat
    requires j < |s.peers| && s.peers[j].nextIdx <= |s.log.entries| + 1
  {
    var left := |s.log.entries| + 1 - s.peers[j].nextIdx;
    if left == 0 then 0 else if n == 0 then 1 else Least(n, left)
  }

  /** The message with that many entries. */
  ghost function MessageTo(s: Server, j: nat, n: nat): AppendEntries
    requires Sends(s, j)
  {
    BuildAppend(s, j, Size(s, j, n))
  }

  lemma MessageFits(s: Server, j: nat, n: nat)
    requires Sends(s, j)
    ensures var ae, prev := MessageTo(s, j, n), s.peers[j].nextIdx - 1;
            ae.term == s.term && Carries(ae, s.log.entries, prev, prev + Size(s, j, n)) && ae.leaderCommit == s.commit
  {
    var next, size := s.peers[j].nextIdx, Size(s, j, n);
    var ae := MessageTo(s, j, n);
    assert ae.entries == Outgoing(s.log, next, size);
    assert ae.entries == s.log.entries[next - 1..next - 1 + size];
  }

  /** A leader's view of the follower after a round: only its two indices may change, its
      commit index and what it has applied. */
  ghost predicate LeaderKept(s: Server, s': Server, j: nat) {
    && j < |s.peers| == |s'.peers| && s'.me == s.me && s'.log == s.log && s'.term == s.term && s'.role == s.role
    && s'.logBase == s.logBase && Ordered(s')
    && forall x :: 0 <= x < |s.peers| && x != j ==> s'.peers[x] == s.peers[x]
  }

  /** The leader after it sent and took a success for index c. */
  lemma LeaderNotes(s: Server, j: nat, sent: nat, c: nat, first: nat)
    requires Sends(s, j) && s.peers[j].nextIdx - 1 + sent <= c <= |s.log.entries|
    ensures var s1 := SendAppend(s, j, sent);
            var out := RecvAppendReply(s1, j, AppendReply(s.term, true, c, first), NoCheckpoint());
            && out.Done? && LeaderKept(s, out.server, j)
            && out.server.peers[j].nextIdx == c + 1 && out.server.peers[j].matchIdx == c
            && (out.server.commit == s.commit || out.server.commit == c)
            && (s.peers[j].matchIdx < c && |s.peers| < 2 * (1 + |Behind(out.server, c)|) ==>
                  c <= out.server.commit == out.server.applied)
  {
    var s1, r := SendAppend(s, j, sent), AppendReply(s.term, true, c, first);
    RoleOrdered(s, s1);
    if Fresh(s1, j, r) {
      CommitsExactly(s1, j, r, NoCheckpoint());
      ReplyFrame(s1, j, r);
    } else {
      OtherReplies(s1, j, r, NoCheckpoint());
    }
  }

  lemma ReplyFrame(s: Server, src: nat, r: AppendReply)
    requires Ordered(s) && s.role == Leader && Fresh(s, src, r) && r.success && r.term == s.term
    requires r.currentIdx <= s.log.Back()
    ensures var s' := RecvAppendReply(s, src, r, NoCheckpoint()).server;
            s'.me == s.me && s'.logBase == s.logBase
  {
    NotedApplied(s, src, r, NoCheckpoint());
    ApplyAllFrame(Noted(s, src, r.currentIdx), NoCheckpoint());
    ApplyKeepsBase(Noted(s, src, r.currentIdx));
  }

  /** The leader after it sent and took a refusal that names cur: it goes back there, unless it
      takes the answer for an old one. */
  lemma LeaderBacksUp(s: Server, j: nat, sent: nat, cur: nat)
    requires Sends(s, j) && cur + 1 < s.peers[j].nextIdx
    ensures var s1 := SendAppend(s, j, sent);
            var out := RecvAppendReply(s1, j, AppendReply(s.term, false, cur, 0), NoCheckpoint());
            && out.Done? && LeaderKept(s, out.server, j) && out.server.commit == s.commit
            && out.server.peers[j].matchIdx == s.peers[j].matchIdx
            && out.server.peers[j].nextIdx ==
               if s.peers[j].matchIdx != 0 && cur <= s.peers[j].matchIdx then s.peers[j].nextIdx + sent else cur + 1
  {
    var s1, r := SendAppend(s, j, sent), AppendReply(s.term, false, cur, 0);
    RoleOrdered(s, s1);
    if Fresh(s1, j, r) {
      BacksUpExactly(s1, j, r, NoCheckpoint());
      RoleOrdered(s1, RecvAppendReply(s1, j, r, NoCheckpoint()).server);
    } else {
      OtherReplies(s1, j, r, NoCheckpoint());
    }
  }

  // ----- one round -----

  datatype Pair = Pair(leader: Server, follower: Server)

  /** The leader sends n entries, of which the network takes at once at most `sent`; the
      follower answers and the leader takes the answer. None when a process stops. */
  ghost function Round(p: Pair, j: nat, n: nat, sent: nat): Option<Pair>
    requires Sends(p.leader, j)
  {
    match RecvAppendEntries(p.follower, MessageTo(p.leader, j, n))
    case Abort => None
    case Done(f, r) =>
      match RecvAppendReply(SendAppend(p.leader, j, Least(sent, Size(p.leader, j, n))), j, r, NoCheckpoint())
      case Abort => None
      case Done(s, _) => Some(Pair(s, f))
  }

  /** A leader and a follower that has committed nothing but what the leader has; their logs
      agree up to a. */
  ghost predicate Paired(p: Pair, j: nat, a: nat) {
    && Sends(p.leader, j) && p.leader.commit <= |p.leader.log.entries|
    && Follows(p.follower, p.leader.term) && p.follower.commit <= a
    && Agrees(p.follower.log.entries, p.leader.log.entries, a)
  }

  ghost function NextOf(p: Pair, j: nat): nat
    requires j < |p.leader.peers|
  {
    p.leader.peers[j].nextIdx
  }

  ghost function MatchOf(p: Pair, j: nat): nat
    requires j < |p.leader.peers|
  {
    p.leader.peers[j].matchIdx
  }

  /** The follower stays in the leader's term, with this log and commit index. */
  ghost predicate FollowerNow(f: Server, f': Server, t: nat, log: seq<Entry>, commit: nat) {
    f' == Adopted(f, t).(log := Log(0, log), commit := commit)
  }

  lemma FollowsOn(f: Server, f': Server, ae: AppendEntries)
    requires Follows(f, ae.term) && RecvAppendEntries(f, ae).Done? && f' == RecvAppendEntries(f, ae).server
    requires f'.term == ae.term && f'.role == Follower && f'.log.front == 0 && f'.logBase == 0
    ensures Follows(f', ae.term)
  {
    AppendOrdered(f, ae);
    BeyondCommitOrdered(f, f');
  }

  lemma RoundIs(p: Pair, j: nat, n: nat, sent: nat, f: Server, r: AppendReply, s: Server)
    requires Sends(p.leader, j)
    requires RecvAppendEntries(p.follower, MessageTo(p.leader, j, n)) == Done(f, r)
    requires RecvAppendReply(SendAppend(p.leader, j, Least(sent, Size(p.leader, j, n))), j, r, NoCheckpoint())
          == Done(s, ())
    ensures Round(p, j, n, sent) == Some(Pair(s, f))
  {
  }

  /** The follower has taken the leader's entries from prev to c, and the leader knows. */
  ghost predicate Moved(p: Pair, p': Pair, j: nat, a: nat, prev: nat, c: nat)
    requires Paired(p, j, a) && prev <= a && prev <= c <= |p.leader.log.entries|
  {
    var log := Taken(p.follower.log.entries, p.leader.log.entries, a, prev, c);
    && LeaderKept(p.leader, p'.leader, j) && Sends(p'.leader, j) && NextOf(p', j) == c + 1 && MatchOf(p', j) == c
    && (p'.leader.commit == p.leader.commit || p'.leader.commit == c)
    && (MatchOf(p, j) < c && |p.leader.peers| < 2 * (1 + |Behind(p'.leader, c)|) ==>
          c <= p'.leader.commit == p'.leader.applied)
    && Follows(p'.follower, p.leader.term)
    && FollowerNow(p.follower, p'.follower, p.leader.term, log,
                   Later(p.follower.commit, Least(p.leader.commit, |log|)))
  }

  /** A round that takes up where the logs still agree. */
  lemma RoundAccepted(p: Pair, j: nat, n: nat, sent: nat, a: nat) returns (p': Pair)
    requires Paired(p, j, a) && NextOf(p, j) - 1 <= a
    ensures Round(p, j, n, sent) == Some(p')
    ensures Moved(p, p', j, a, NextOf(p, j) - 1, NextOf(p, j) - 1 + Size(p.leader, j, n))
  {
    var l, f := p.leader.log.entries, p.follower.log.entries;
    var size := Size(p.leader, j, n);
    var prev, c := NextOf(p, j) - 1, NextOf(p, j) - 1 + size;
    var ae := MessageTo(p.leader, j, n);
    MessageFits(p.leader, j, n);
    FollowerAccepts(p.follower, ae, l, a, prev, c);
    LeaderNotes(p.leader, j, Least(sent, size), c, prev + 1);
    var f', r := RecvAppendEntries(p.follower, ae).server, RecvAppendEntries(p.follower, ae).reply;
    FollowsOn(p.follower, f', ae);
    p' := Pair(RecvAppendReply(SendAppend(p.leader, j, Least(sent, size)), j, r, NoCheckpoint()).server, f');
    RoundIs(p, j, n, sent, f', r, p'.leader);
  }

  /** The follower has dropped what it has from its last index below the one asked for on, and
      the leader goes back there unless it takes the answer for an old one. */
  ghost predicate BackedUp(p: Pair, p': Pair, j: nat, n: nat, sent: nat)
    requires Sends(p.leader, j) && 2 <= NextOf(p, j)
  {
    var f := p.follower.log.entries;
    var cur, m := Least(|f|, NextOf(p, j) - 2), MatchOf(p, j);
    && LeaderKept(p.leader, p'.leader, j) && Sends(p'.leader, j) && p'.leader.commit == p.leader.commit
    && MatchOf(p', j) == m
    && NextOf(p', j) == (if m != 0 && cur <= m
                         then NextOf(p, j) + Least(sent, Size(p.leader, j, n)) else cur + 1)
    && Follows(p'.follower, p.leader.term)
    && FollowerNow(p.follower, p'.follower, p.leader.term, f[..cur], p.follower.commit)
  }

  /** A round that takes up beyond. */
  lemma RoundRefused(p: Pair, j: nat, n: nat, sent: nat, a: nat) returns (p': Pair)
    requires Paired(p, j, a) && a < NextOf(p, j) - 1
    ensures Round(p, j, n, sent) == Some(p') && BackedUp(p, p', j, n, sent)
  {
    var l, f := p.leader.log.entries, p.follower.log.entries;
    var size := Size(p.leader, j, n);
    var prev, c := NextOf(p, j) - 1, NextOf(p, j) - 1 + size;
    var ae := MessageTo(p.leader, j, n);
    MessageFits(p.leader, j, n);
    FollowerRefuses(p.follower, ae, l, a, prev, c);
    LeaderBacksUp(p.leader, j, Least(sent, size), Least(|f|, prev - 1));
    var f', r := RecvAppendEntries(p.follower, ae).server, RecvAppendEntries(p.follower, ae).reply;
    FollowsOn(p.follower, f', ae);
    p' := Pair(RecvAppendReply(SendAppend(p.leader, j, Least(sent, size)), j, r, NoCheckpoint()).server, f');
    RoundIs(p, j, n, sent, f', r, p'.leader);
  }

  // ----- many rounds -----

  /** Rounds with these numbers of entries sent and taken. */
  ghost function Rounds(p: Pair, j: nat, plan: seq<(nat, nat)>): Option<Pair>
    decreases |plan|
  {
    if plan == [] then Some(p)
    else if !Sends(p.leader, j) then None
    else
      match Round(p, j, plan[0].0, plan[0].1)
      case None => None
      case Some(p') => Rounds(p', j, plan[1..])
  }

  /** The follower has what the leader has, and either one entry more or more while the leader
      has none: no message of the leader removes that. */
  ghost predicate Trails(f: seq<Entry>, l: seq<Entry>) {
    l <= f && |l| < |f| && (l == [] || |f| == |l| + 1)
  }

  ghost function Final(p: Pair): seq<Entry> {
    if Trails(p.follower.log.entries, p.leader.log.entries) then p.follower.log.entries else p.leader.log.entries
  }

  /** The leader can find the follower's place: it takes up where the logs agree, or it has no
      acknowledgement yet, or the logs agree beyond what is acknowledged. */
  ghost predicate Finds(p: Pair, j: nat, a: nat)
    requires j < |p.leader.peers|
  {
    NextOf(p, j) - 1 <= a || MatchOf(p, j) == 0 || MatchOf(p, j) < a
  }

  /** The follower would be told to commit entries the leader does not have. */
  ghost predicate Misled(p: Pair, j: nat, a: nat)
    requires j < |p.leader.peers|
  {
    NextOf(p, j) - 1 < a < Least(p.leader.commit, |p.follower.log.entries|)
  }

  /** How many rounds it takes at most. */
  ghost function Rank(p: Pair, j: nat, a: nat): int
    requires j < |p.leader.peers|
  {
    var l, x := |p.leader.log.entries|, NextOf(p, j) - 1;
    if a < x then x + l + 2 else l - x + 1
  }

  lemma AcceptedOn(p: Pair, p': Pair, j: nat, a: nat, prev: nat, c: nat) returns (a': nat)
    requires Paired(p, j, a) && prev == NextOf(p, j) - 1 <= a && prev <= c <= |p.leader.log.entries|
    requires Moved(p, p', j, a, prev, c) && !Misled(p, j, a) && (c == prev ==> prev == |p.leader.log.entries|)
    ensures Paired(p', j, a') && !Misled(p', j, a') && c <= a' && Final(p') == Final(p)
    ensures NextOf(p', j) == c + 1 && MatchOf(p', j) == c && LeaderKept(p.leader, p'.leader, j)
    ensures c == prev ==> p'.follower.log.entries == Final(p)
  {
    var l, f := p.leader.log.entries, p.follower.log.entries;
    a' := Later(a, c);
    if a < c {
      AgreesPrefix(l, c);
      NotPrefix(f, l, a);
    } else if c == prev {
      assert a == |l| && f[..a] == l;
      if 0 < prev && prev + 1 < |f| {
        assert f[..prev] == l;
        AgreesPrefix(l, |l|);
        assert l[..|l|] == l;
      }
    }
  }

  lemma RefusedOn(p: Pair, p': Pair, j: nat, n: nat, sent: nat, a: nat)
    requires Paired(p, j, a) && a < NextOf(p, j) - 1 && BackedUp(p, p', j, n, sent)
    ensures Paired(p', j, a) && Final(p') == Final(p) == p.leader.log.entries && LeaderKept(p.leader, p'.leader, j)
    ensures NextOf(p', j) - 1 >= a && !Misled(p', j, a)
  {
    var l, f := p.leader.log.entries, p.follower.log.entries;
    var cur := Least(|f|, NextOf(p, j) - 2);
    AgreesShorter(f, l, a, cur);
    NotPrefix(f, l, a);
    NotPrefix(f[..cur], l, a);
  }

  /** Nothing keeps the follower from ending up with its final log. */
  ghost predicate OnCourse(p: Pair, j: nat, a: nat) {
    Paired(p, j, a) && Finds(p, j, a) && !Misled(p, j, a)
  }

  /** The leader knows that the follower has all. */
  ghost predicate Settled(p: Pair, j: nat)
    requires j < |p.leader.peers|
  {
    NextOf(p, j) == |p.leader.log.entries| + 1 && MatchOf(p, j) == |p.leader.log.entries|
  }

  /** One round more brings the follower closer. */
  ghost predicate Closer(p: Pair, p': Pair, j: nat, a: nat, a': nat)
    requires OnCourse(p, j, a) && OnCourse(p', j, a')
  {
    && Final(p') == Final(p) && LeaderKept(p.leader, p'.leader, j)
    && if Rank(p, j, a) == 1
       then p'.follower.log.entries == Final(p) && Rank(p', j, a') == 1 && Settled(p', j)
       else 1 <= Rank(p', j, a') < Rank(p, j, a)
  }

  lemma CloserAccepted(p: Pair, j: nat, n: nat, sent: nat, a: nat) returns (p': Pair, a': nat)
    requires OnCourse(p, j, a) && NextOf(p, j) - 1 <= a
    ensures Round(p, j, n, sent) == Some(p')
    ensures OnCourse(p', j, a') && Closer(p, p', j, a, a')
  {
    p' := RoundAccepted(p, j, n, sent, a);
    a' := MovedCloser(p, p', j, n, a);
  }

  lemma MovedCloser(p: Pair, p': Pair, j: nat, n: nat, a: nat) returns (a': nat)
    requires OnCourse(p, j, a) && NextOf(p, j) - 1 <= a
    requires Moved(p, p', j, a, NextOf(p, j) - 1, NextOf(p, j) - 1 + Size(p.leader, j, n))
    ensures OnCourse(p', j, a') && Closer(p, p', j, a, a')
  {
    var prev, c := NextOf(p, j) - 1, NextOf(p, j) - 1 + Size(p.leader, j, n);
    a' := AcceptedOn(p, p', j, a, prev, c);
    CourseKept(p, p', j, a, a', c);
  }

  lemma CourseKept(p: Pair, p': Pair, j: nat, a: nat, a': nat, c: nat)
    requires OnCourse(p, j, a) && Paired(p', j, a') && !Misled(p', j, a') && c <= a' && Final(p') == Final(p)
    requires NextOf(p, j) - 1 <= a && NextOf(p', j) == c + 1 && MatchOf(p', j) == c
    requires LeaderKept(p.leader, p'.leader, j)
    requires NextOf(p, j) - 1 <= c <= |p.leader.log.entries|
    requires c == NextOf(p, j) - 1 ==> c == |p.leader.log.entries| && p'.follower.log.entries == Final(p)
    ensures OnCourse(p', j, a') && Closer(p, p', j, a, a')
  {
  }

  lemma CloserRefused(p: Pair, j: nat, n: nat, sent: nat, a: nat) returns (p': Pair)
    requires OnCourse(p, j, a) && a < NextOf(p, j) - 1
    ensures Round(p, j, n, sent) == Some(p')
    ensures OnCourse(p', j, a) && Closer(p, p', j, a, a)
  {
    p' := RoundRefused(p, j, n, sent, a);
    RefusedOn(p, p', j, n, sent, a);
  }

  lemma RoundCloser(p: Pair, j: nat, n: nat, sent: nat, a: nat) returns (p': Pair, a': nat)
    requires OnCourse(p, j, a)
    ensures Round(p, j, n, sent) == Some(p')
    ensures OnCourse(p', j, a') && Closer(p, p', j, a, a')
  {
    if NextOf(p, j) - 1 <= a {
      p', a' := CloserAccepted(p, j, n, sent, a);
    } else {
      p' := CloserRefused(p, j, n, sent, a);
      a' := a;
    }
  }

  /** Enough rounds, whatever they send, leave the follower with its final log. */
  lemma {:induction false} Settles(p: Pair, j: nat, plan: seq<(nat, nat)>, a: nat) returns (p': Pair, a': nat)
    requires OnCourse(p, j, a) && Rank(p, j, a) <= |plan|
    ensures Rounds(p, j, plan) == Some(p') && OnCourse(p', j, a')
    ensures p'.follower.log.entries == Final(p) && LeaderKept(p.leader, p'.leader, j) && Settled(p', j)
    decreases |plan|
  {
    p', a' := RoundCloser(p, j, plan[0].0, plan[0].1, a);
    if |plan| == 1 {
      assert Rounds(p', j, plan[1..]) == Some(p');
    } else if Rank(p', j, a') <= |plan| - 1 {
      var p1, a1 := Settles(p', j, plan[1..], a');
      KeptOn(p.leader, p'.leader, p1.leader, j);
      p', a' := p1, a1;
    }
  }

  lemma KeptOn(s: Server, s1: Server, s2: Server, j: nat)
    requires LeaderKept(s, s1, j) && LeaderKept(s1, s2, j)
    ensures LeaderKept(s, s2, j)
  {
  }

  // ----- when it does not -----

  /** Once the leader takes every answer for an old one, no round helps. */
  lemma {:induction false} NeverFinds(p: Pair, j: nat, plan: seq<(nat, nat)>, a: nat)
    requires Paired(p, j, a) && !Finds(p, j, a)
    ensures Rounds(p, j, plan).Some?
    ensures !(p.leader.log.entries <= Rounds(p, j, plan).value.follower.log.entries)
    decreases |plan|
  {
    if plan == [] {
      NotPrefix(p.follower.log.entries, p.leader.log.entries, a);
    } else {
      var p' := RoundRefused(p, j, plan[0].0, plan[0].1, a);
      RefusedOn(p, p', j, plan[0].0, plan[0].1, a);
      NeverFinds(p', j, plan[1..], a);
    }
  }

  /** A server whose committed entries are not the leader's. */
  ghost predicate Apart(p: Pair, a: nat) {
    && Ordered(p.follower) && p.follower.log.front == 0 && a < p.follower.commit <= |p.follower.log.entries|
    && a < |p.leader.log.entries| && p.follower.log.entries[a] != p.leader.log.entries[a]
  }

  lemma ApartStays(p: Pair, j: nat, n: nat, sent: nat, a: nat)
    requires Apart(p, a) && Sends(p.leader, j) && Round(p, j, n, sent).Some?
    ensures Apart(Round(p, j, n, sent).value, a)
  {
    var p' := Round(p, j, n, sent).value;
    AppendOrdered(p.follower, MessageTo(p.leader, j, n));
    BeyondCommitOrdered(p.follower, p'.follower);
    assert p'.follower.log.entries[a] == p.follower.log.entries[a];
    ReplyKeepsLog(p.leader, j, n, sent, p'.leader, RecvAppendEntries(p.follower, MessageTo(p.leader, j, n)).reply);
  }

  lemma ReplyKeepsLog(s: Server, j: nat, n: nat, sent: nat, s': Server, r: AppendReply)
    requires Sends(s, j)
    requires RecvAppendReply(SendAppend(s, j, Least(sent, Size(s, j, n))), j, r, NoCheckpoint()) == Done(s', ())
    ensures s'.log == s.log
  {
    var s1 := SendAppend(s, j, Least(sent, Size(s, j, n)));
    RoleOrdered(s, s1);
    if s1.role == Leader && Fresh(s1, j, r) && r.term == s1.term {
      if r.success {
        CommitsExactly(s1, j, r, NoCheckpoint());
      } else {
        BacksUpExactly(s1, j, r, NoCheckpoint());
      }
    } else {
      OtherReplies(s1, j, r, NoCheckpoint());
    }
  }

  lemma {:induction false} ApartForGood(p: Pair, j: nat, plan: seq<(nat, nat)>, a: nat)
    requires Apart(p, a)
    ensures Rounds(p, j, plan).None? || !(p.leader.log.entries <= Rounds(p, j, plan).value.follower.log.entries)
    decreases |plan|
  {
    if plan != [] && Sends(p.leader, j) && Round(p, j, plan[0].0, plan[0].1).Some? {
      var p' := Round(p, j, plan[0].0, plan[0].1).value;
      ApartStays(p, j, plan[0].0, plan[0].1, a);
      ReplyKeepsLog(p.leader, j, plan[0].0, plan[0].1, p'.leader,
                    RecvAppendEntries(p.follower, MessageTo(p.leader, j, plan[0].0)).reply);
      ApartForGood(p', j, plan[1..], a);
    }
  }

  /** Entries one at a time: the first of them makes the follower commit what the leader does
      not have. */
  lemma MisledApart(p: Pair, j: nat, plan: seq<(nat, nat)>, a: nat)
    requires Paired(p, j, a) && Misled(p, j, a) && plan != [] && plan[0].0 == 1
    ensures Rounds(p, j, plan).None? || !(p.leader.log.entries <= Rounds(p, j, plan).value.follower.log.entries)
  {
    var p' := RoundAccepted(p, j, 1, plan[0].1, a);
    assert Size(p.leader, j, 1) == 1;
    assert p'.follower.log.entries == p.follower.log.entries;
    assert Apart(p', a);
    ApartForGood(p', j, plan[1..], a);
  }

  // ----- exactly when -----

  /** However the leader goes about it, the follower ends up with its final log. */
  ghost predicate CatchesUp(p: Pair, j: nat) {
    forall plan: seq<(nat, nat)> {:trigger Rounds(p, j, plan)} :: 2 * |p.leader.log.entries| + 2 <= |plan| ==>
      Rounds(p, j, plan).Some? && Rounds(p, j, plan).value.follower.log.entries == Final(p)
  }

  /** A follower catches up exactly when the leader can find its place and does not mislead it. */
  lemma CatchesUpExactly(p: Pair, j: nat, a: nat)
    requires Paired(p, j, a)
    ensures CatchesUp(p, j) <==> Finds(p, j, a) && !Misled(p, j, a)
  {
    var enough := 2 * |p.leader.log.entries| + 2;
    if Finds(p, j, a) && !Misled(p, j, a) {
      forall plan: seq<(nat, nat)> {:trigger Rounds(p, j, plan)} | enough <= |plan|
        ensures Rounds(p, j, plan).Some? && Rounds(p, j, plan).value.follower.log.entries == Final(p)
      {
        var _, _ := Settles(p, j, plan, a);
      }
    } else {
      var plan := seq(enough, _ => (1, 1));
      if Finds(p, j, a) {
        MisledApart(p, j, plan, a);
      } else {
        NeverFinds(p, j, plan, a);
      }
      assert p.leader.log.entries <= Final(p);
      assert Rounds(p, j, plan).None? || Rounds(p, j, plan).value.follower.log.entries != Final(p);
    }
  }
}
