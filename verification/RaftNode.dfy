/** The server of raft_server.c as an object updated in place, over the two rings of its
    log. Every method is proved against the function of the same operation in RaftServer;
    `ok` is false exactly when the call stops the process. The calls that come from
    outside keep the order of the four positions, never take a delivery back, and leave a
    vote as it is while its term lasts. */
module RaftNode {
  import opened RaftTypes
  import opened ServerOrder
  import opened RaftAnswers
  import RL = RaftLog
  import RG = Rings
  import RS = RaftServer

  class RaftNode {
    const me: nat
    const logTarget: nat
    const ring: RL.RaftLog<Entry>
    var term: nat
    var votedFor: int
    var role: Role
    var commit: nat
    var applied: nat
    var logBase: nat
    var compacted: nat
    var peers: seq<Peer>
    var delivered: seq<Entry>

    /** The two rings of the log hold the same entries. */
    ghost predicate RingOk()
      reads ring, ring.entries, ring.plog, ring.plog.slots
    {
      ring.Valid() && ring.InStep()
    }

    ghost function View(): (s: Server)
      requires ring.Valid()
      reads this, ring, ring.entries
    {
      Server(me, term, votedFor, role, ring.Model(), commit, applied, logBase, compacted, logTarget, peers, delivered)
    }

    ghost predicate Valid()
      reads this, ring, ring.entries, ring.plog, ring.plog.slots
    {
      RingOk() && 0 < logTarget && Ordered(View())
    }

    /** The persistent ring can hold the log of s; one slot stays free. */
    ghost predicate Fits(s: Server) {
      |s.log.entries| < ring.plog.slots.Length
    }

    constructor (id: nat, nodes: nat, target: nat, places: nat)
      requires 0 < target && 0 < places
      ensures Valid() && View() == RS.InitServer(id, nodes, target)
      ensures fresh(ring) && fresh(ring.entries) && fresh(ring.plog) && fresh(ring.plog.slots)
    {
      me, logTarget := id, target;
      term, votedFor, role := 0, NOBODY, Follower;
      var persistent := new RG.CircularLog<Entry>(places);
      ring := new RL.RaftLog<Entry>(persistent);
      commit, applied, logBase, compacted := 0, 0, 0, 0;
      peers := seq(nodes, _ => Peer(1, 0, false));
      delivered := [];
    }

    // ----- terms and roles -----

    method SetCurrentTerm(t: nat)
      requires ring.Valid()
      modifies this
      ensures View() == RS.SetTerm(old(View()), t)
    {
      if term < t {
        term := t;
        votedFor := NOBODY;
      }
    }

    method BecomeCandidate()
      requires ring.Valid()
      modifies this
      ensures View() == RS.BecomeCandidate(old(View()))
    {
      SetCurrentTerm(term + 1);
      ghost var before := peers;
      for i := 0 to |peers|
        invariant |peers| == |before|
        invariant View() == RS.SetTerm(old(View()), old(term) + 1).(peers := peers)
        invariant forall j :: 0 <= j < |before| ==>
                    peers[j] == if j < i then before[j].(granted := false) else before[j]
      {
        peers := peers[i := peers[i].(granted := false)];
      }
      votedFor := me;
      role := Candidate;
      assert peers == RS.BecomeCandidate(old(View())).peers;
    }

    method BecomeLeader()
      requires ring.Valid()
      modifies this
      ensures View() == RS.BecomeLeader(old(View()))
    {
      role := Leader;
      ghost var before := peers;
      for i := 0 to |peers|
        invariant |peers| == |before|
        invariant View() == old(View()).(role := Leader, peers := peers)
        invariant forall j :: 0 <= j < |before| ==>
                    peers[j] == if j < i && j != me then before[j].(nextIdx := ring.back + 1, matchIdx := 0)
                                else before[j]
      {
        if i != me {
          peers := peers[i := peers[i].(nextIdx := ring.back + 1, matchIdx := 0)];
        }
      }
      assert peers == RS.BecomeLeader(old(View())).peers;
    }

    // ----- elections -----

    method AnswerVote(vr: VoteRequest) returns (ok: bool, r: VoteReply)
      requires ring.Valid()
      modifies this
      ensures ok == RS.RecvVoteRequest(old(View()), vr).Done?
      ensures ok ==> RS.RecvVoteRequest(old(View()), vr) == Done(View(), r)
    {
      if term < vr.term {
        SetCurrentTerm(vr.term);
        role := Follower;
      }
      r := VoteReply(term, false);
      if vr.term < term || votedFor != NOBODY {
        return true, r;
      }
      var up := true;
      if ring.back != 0 {
        var present, at := ring.GetAtIdx(ring.back);
        if !present {
          return false, r;
        }
        var e := ring.entries[at];
        up := e.term < vr.lastTerm || (vr.lastTerm == e.term && ring.back <= vr.lastIdx);
      }
      if up {
        if role != Follower {
          return false, r;
        }
        votedFor := vr.candidate;
        r := VoteReply(term, true);
      }
      return true, r;
    }

    method RecvRequestVote(vr: VoteRequest) returns (ok: bool, r: VoteReply)
      requires Valid()
      modifies this
      ensures ok == RS.RecvVoteRequest(old(View()), vr).Done?
      ensures ok ==> Valid() && RS.RecvVoteRequest(old(View()), vr) == Done(View(), r) && Kept(old(View()), View())
      ensures ok ==> r == VoteReply(Later(old(term), vr.term), MayVote(old(View()), vr))
      ensures ok && r.granted ==> votedFor == vr.candidate && term == vr.term && role == Follower
    {
      ServeKeeps(View(), VoteRequestIn(vr));
      VoteExactly(View(), vr);
      ok, r := AnswerVote(vr);
    }

    /** The vote flags of the other members, and the server's own vote. */
    method CountVotes() returns (votes: nat)
      requires ring.Valid()
      ensures votes == RS.VoteCount(View())
    {
      votes := 0;
      ghost var seen: set<nat> := {};
      for i := 0 to |peers|
        invariant seen == set j: nat | 0 <= j < i && j != me && peers[j].granted
        invariant votes == |seen|
      {
        if i != me && peers[i].granted {
          votes := votes + 1;
          seen := seen + {i};
        }
      }
      assert seen == RS.Granters(View());
      if votedFor == me {
        votes := votes + 1;
      }
    }

    method CountVote(src: nat, r: VoteReply)
      requires ring.Valid()
      modifies this
      ensures View() == RS.RecvVoteReply(old(View()), src, r)
    {
      if role != Candidate {
        return;
      } else if term < r.term {
        SetCurrentTerm(r.term);
        role := Follower;
        return;
      } else if term != r.term || !r.granted {
        return;
      }
      if src < |peers| {
        peers := peers[src := peers[src].(granted := true)];
      }
      var votes := CountVotes();
      if RS.IsMajority(|peers|, votes) {
        BecomeLeader();
      }
    }

    method RecvVoteResponse(src: nat, r: VoteReply)
      requires Valid()
      modifies this
      ensures Valid() && View() == RS.RecvVoteReply(old(View()), src, r) && Kept(old(View()), View())
      ensures old(role) == Candidate && me < |peers| ==>
                (role == Leader <==> old(term) == r.term && r.granted && |peers| < 2 * |Voters(old(View()), src)|)
    {
      ServeKeeps(View(), VoteReplyIn(src, r));
      if role == Candidate && me < |peers| {
        ElectedExactly(View(), src, r);
      }
      CountVote(src, r);
    }

    // ----- follower side -----

    /** Scans for the first entry that is missing or differs: `at` is its position among
        the new entries, `cut` says that the log holds another entry there. */
    method FindMissing(prev: nat, es: seq<Entry>) returns (at: nat, cut: bool)
      requires ring.Valid()
      ensures at == RS.Agreeing(ring.Model(), prev, es)
      ensures cut == (at < |es| && ring.Model().Has(prev + 1 + at))
    {
      at, cut := 0, false;
      while at < |es|
        invariant 0 <= at <= |es| && !cut
        invariant RS.Agreeing(ring.Model(), prev, es) == RS.Agreeing(ring.Model(), prev, es, at)
      {
        var present, slot := ring.GetAtIdx(prev + 1 + at);
        if !present {
          return;
        }
        if ring.entries[slot].term != es[at].term {
          return at, true;
        }
        at := at + 1;
      }
    }

    method AppendMissing(prev: nat, es: seq<Entry>) returns (ok: bool)
      requires RingOk()
      modifies ring, ring.entries, ring.plog, ring.plog.slots
      ensures ok <==> RS.Merge(old(View()), prev, es).Done? && Fits(RS.Merge(old(View()), prev, es).server)
      ensures ok ==> RingOk() && View() == RS.Merge(old(View()), prev, es).server
      ensures ring.entries == old(ring.entries) || fresh(ring.entries)
    {
      var i, cut := FindMissing(prev, es);
      if i == |es| {
        return true;
      }
      if cut {
        if prev + 1 + i <= commit {
          return false;
        }
        ring.Delete(prev + 1 + i);
      }
      ok := ring.AppendBatch(es[i..]);
    }

    method AdvanceCommit(leaderCommit: nat) returns (ok: bool)
      requires ring.Valid()
      modifies this
      ensures ok == RS.AdvanceCommit(old(View()), leaderCommit).Done?
      ensures ok ==> View() == RS.AdvanceCommit(old(View()), leaderCommit).server
    {
      if commit < leaderCommit {
        var last := if 1 < ring.back then ring.back else 1;
        var idx := if last < leaderCommit then last else leaderCommit;
        if !(commit <= idx <= ring.back) {
          return false;
        }
        commit := idx;
      }
      ok := true;
    }

    method CutLog(ae: AppendEntries) returns (ok: bool)
      requires RingOk()
      modifies ring, ring.plog
      ensures ok == RS.CutAfter(old(View()), ae).Done?
      ensures ok ==> RingOk() && View() == RS.CutAfter(old(View()), ae).server
      ensures ring.entries == old(ring.entries)
    {
      if ae.entries == [] && 0 < ae.prevIdx && ae.prevIdx + 1 < ring.back {
        if ae.prevIdx + 1 <= commit || ae.prevIdx < ring.front {
          return false;
        }
        ring.Delete(ae.prevIdx + 1);
      }
      ok := true;
    }

    method AcceptEntries(ae: AppendEntries) returns (ok: bool, r: AppendReply)
      requires RingOk()
      modifies this, ring, ring.entries, ring.plog, ring.plog.slots
      ensures ok <==> RS.Accept(old(View()), ae).Done? && Fits(RS.Accept(old(View()), ae).server)
      ensures ok ==> RingOk() && RS.Accept(old(View()), ae) == Done(View(), r)
      ensures ring.entries == old(ring.entries) || fresh(ring.entries)
    {
      AcceptParts(View(), ae);
      r := AppendReply(term, true, ae.prevIdx + |ae.entries|, ae.prevIdx + 1);
      ok := CutLog(ae);
      if ok {
        ok := MergeEntries(ae);
      }
    }

    method MergeEntries(ae: AppendEntries) returns (ok: bool)
      requires RingOk()
      modifies this, ring, ring.entries, ring.plog, ring.plog.slots
      ensures ok <==> Merged(old(View()), ae).Done? && Fits(Merged(old(View()), ae).server)
      ensures ok ==> RingOk() && View() == Merged(old(View()), ae).server
      ensures ring.entries == old(ring.entries) || fresh(ring.entries)
    {
      ok := AppendMissing(ae.prevIdx, ae.entries);
      if ok {
        ok := AdvanceCommit(ae.leaderCommit);
      }
    }

    method FollowTerm(t: nat)
      requires ring.Valid()
      modifies this
      ensures View() == RS.AdoptTerm(old(View()), t)
    {
      if role == Candidate && term == t {
        role := Follower;
      } else if term < t {
        SetCurrentTerm(t);
        role := Follower;
      }
    }

    /** The check of the previous entry, and what follows from it. */
    method AnswerAppend(ae: AppendEntries) returns (ok: bool, r: AppendReply)
      requires RingOk() && term <= ae.term && ae.prevTerm != -1 && RS.AdoptTerm(View(), ae.term) == View()
      modifies this, ring, ring.entries, ring.plog, ring.plog.slots
      ensures ok <==> RS.RecvAppendEntries(old(View()), ae).Done? && Fits(RS.RecvAppendEntries(old(View()), ae).server)
      ensures ok ==> RingOk() && RS.RecvAppendEntries(old(View()), ae) == Done(View(), r)
      ensures ring.entries == old(ring.entries) || fresh(ring.entries)
    {
      if 0 < ae.prevIdx && logBase <= ae.prevIdx {
        var present, at := ring.GetAtIdx(ae.prevIdx);
        if !present {
          return true, AppendReply(term, false, ring.back, 0);
        }
        if ring.entries[at].term != ae.prevTerm {
          r := AppendReply(term, false, ae.prevIdx - 1, 0);
          if ae.prevIdx <= commit {
            return false, r;
          }
          ring.Delete(ae.prevIdx);
          return true, r;
        }
      }
      ok, r := AcceptEntries(ae);
    }

    method RecvAppendEntries(ae: AppendEntries) returns (ok: bool, r: AppendReply)
      requires Valid()
      modifies this, ring, ring.entries, ring.plog, ring.plog.slots
      ensures ok <==> RS.RecvAppendEntries(old(View()), ae).Done? && Fits(RS.RecvAppendEntries(old(View()), ae).server)
      ensures ok ==> Valid() && RS.RecvAppendEntries(old(View()), ae) == Done(View(), r) && Kept(old(View()), View())
      ensures ok ==> (r.success <==> old(term) <= ae.term && Anchored(old(View()), ae))
      ensures ok && !r.success ==> r.currentIdx == View().log.Back()
      ensures ring.entries == old(ring.entries) || fresh(ring.entries)
    {
      ServeKeeps(View(), AppendIn(ae));
      AppendAnswers(View(), ae);
      r := AppendReply(term, false, ring.back, 0);
      if ae.prevTerm == -1 {
        return false, r;
      }
      if ae.term < term {
        return true, r;
      }
      ghost var s := View();
      FollowTerm(ae.term);
      AdoptedTwice(s, ae);
      ok, r := AnswerAppend(ae);
    }

    // ----- leader side -----

    /** Has member i acknowledged `point` with an entry of this term? */
    method HasAcked(ghost s: Server, i: nat, point: nat) returns (b: bool)
      requires ring.Valid() && i < |peers| && s == View()
      ensures b == RS.CountsFor(s, i, point)
    {
      var m := peers[i].matchIdx;
      var present, at := ring.GetAtIdx(m);
      b := 0 < m && present && ring.entries[at].term == term && point <= m;
    }

    /** Counts this server and the others that back `point`. */
    method CountAcks(point: nat) returns (votes: nat)
      requires ring.Valid()
      ensures votes == 1 + |RS.Acked(View(), point)|
    {
      votes := 1;
      ghost var s := View();
      for i := 0 to |peers|
        invariant votes == 1 + |AckedBelow(s, point, i)|
      {
        AckedNext(s, point, i);
        if i != me {
          var b := HasAcked(s, i, point);
          if b {
            votes := votes + 1;
          }
        }
      }
      assert AckedBelow(s, point, |peers|) == RS.Acked(s, point);
    }

    method TakeCheckpoint(idx: int)
      requires ring.Valid()
      modifies this
      ensures View() == RS.Checkpoint(old(View()), idx)
    {
      if 0 <= idx {
        logBase := if applied < idx + 1 then applied else idx + 1;
      }
    }

    method DeliverNext(at: nat)
      requires ring.Valid() && ring.Model().Has(applied + 1)
      requires at < ring.entries.Length && ring.entries[at] == ring.Model().At(applied + 1)
      modifies this`applied, this`delivered
      ensures View() == old(View()).(applied := old(applied) + 1,
                delivered := old(delivered) + [ring.Model().At(old(applied) + 1)])
    {
      delivered := delivered + [ring.entries[at]];
      applied := applied + 1;
    }

    /** Hands the next entry to the application, if the log holds it. */
    method ApplyOne(cp: nat -> int) returns (found: bool)
      requires ring.Valid()
      modifies this
      ensures found == old(ring.Model().Has(applied + 1))
      ensures View() == if found then Applied(old(View()), cp) else old(View())
    {
      var at;
      found, at := ring.GetAtIdx(applied + 1);
      if found {
        DeliverNext(at);
        TakeCheckpoint(cp(applied));
      }
    }

    /** Hands committed entries to the application, one by one. */
    method ApplyCommitted(cp: nat -> int)
      requires ring.Valid()
      modifies this
      ensures View() == RS.ApplyAll(old(View()), cp)
    {
      while applied < commit
        invariant RS.ApplyAll(View(), cp) == RS.ApplyAll(old(View()), cp)
        decreases commit - applied
      {
        ApplyNext(View(), cp);
        var found := ApplyOne(cp);
        if !found {
          return;
        }
      }
    }

    /** A positive acknowledgement: notes it, maybe commits, and applies. */
    method RecvSuccess(src: nat, cur: nat, cp: nat -> int) returns (ok: bool)
      requires ring.Valid() && src < |peers|
      modifies this
      ensures ok == RS.RecvSuccess(old(View()), src, cur, cp).Done?
      ensures ok ==> View() == RS.RecvSuccess(old(View()), src, cur, cp).server
    {
      if ring.back < cur {
        return false;
      }
      var p := peers[src];
      var next := if p.nextIdx < cur + 1 then cur + 1 else p.nextIdx;
      peers := peers[src := p.(nextIdx := next, matchIdx := cur)];
      var votes := CountAcks(cur);
      if |peers| / 2 < votes && commit < cur {
        commit := cur;
      }
      ApplyCommitted(cp);
      ok := true;
    }

    method HandleReply(src: nat, r: AppendReply, cp: nat -> int) returns (ok: bool)
      requires ring.Valid()
      modifies this
      ensures ok == RS.RecvAppendReply(old(View()), src, r, cp).Done?
      ensures ok ==> View() == RS.RecvAppendReply(old(View()), src, r, cp).server
    {
      if |peers| <= src {
        return true;
      }
      var p := peers[src];
      if (r.currentIdx <= p.matchIdx && p.matchIdx != 0) || role != Leader {
        return true;
      }
      if term < r.term {
        SetCurrentTerm(r.term);
        role := Follower;
        return true;
      } else if term != r.term {
        return true;
      }
      if !r.success {
        var wanted := if r.currentIdx + 1 < ring.back then r.currentIdx + 1 else ring.back;
        var next := RS.ClampNext(wanted);
        peers := peers[src := p.(nextIdx := next)];
        return p.matchIdx < next;
      }
      ok := RecvSuccess(src, r.currentIdx, cp);
    }

    method RecvAppendResponse(src: nat, r: AppendReply, cp: nat -> int) returns (ok: bool)
      requires Valid()
      modifies this
      ensures ok == RS.RecvAppendReply(old(View()), src, r, cp).Done?
      ensures ok ==>
                Valid() && View() == RS.RecvAppendReply(old(View()), src, r, cp).server && Kept(old(View()), View())
      ensures ok && old(role) == Leader && Fresh(old(View()), src, r) && r.success && r.term == old(term) ==>
                && commit == (if old(commit) < r.currentIdx && |peers| < 2 * (1 + |Behind(View(), r.currentIdx)|)
                              then r.currentIdx else old(commit))
                && applied == commit
    {
      ServeKeeps(View(), AppendReplyIn(src, r, cp));
      if role == Leader && Fresh(View(), src, r) && r.success && r.term == term {
        CommitsExactly(View(), src, r, cp);
      }
      ok := HandleReply(src, r, cp);
    }

    /** Client data stamped with a term. */
    method Stamp(t: nat, data: seq<int>) returns (es: seq<Entry>)
      ensures |es| == |data| && forall k :: 0 <= k < |data| ==> es[k] == Entry(t, data[k])
    {
      es := [];
      for i := 0 to |data|
        invariant |es| == i && forall k :: 0 <= k < i ==> es[k] == Entry(t, data[k])
      {
        es := es + [Entry(t, data[i])];
      }
    }

    method AppendData(data: seq<int>) returns (ok: bool)
      requires RingOk() && role == Leader
      modifies this, ring, ring.entries, ring.plog, ring.plog.slots
      ensures ok == old(ring.CanAppend(|data|))
      ensures ok ==> RingOk() && View() == RS.RecvEntries(old(View()), data)
      ensures ring.entries == old(ring.entries) || fresh(ring.entries)
    {
      var es := Stamp(term, data);
      ghost var t := term;
      assert es == seq(|data|, i requires 0 <= i < |data| => Entry(t, data[i]));
      ok := ring.AppendBatch(es);
      if ok && |peers| == 1 {
        commit := ring.back;
      }
    }

    /** Appends client data; a server that does not lead refuses it. */
    method RecvEntryBatch(data: seq<int>) returns (ok: bool, accepted: bool)
      requires Valid()
      modifies this, ring, ring.entries, ring.plog, ring.plog.slots
      ensures ok <==> (old(role) == Leader ==> old(ring.CanAppend(|data|)))
      ensures accepted == (old(role) == Leader)
      ensures ok ==> Valid() && View() == RS.RecvEntries(old(View()), data) && Kept(old(View()), View())
      ensures ok && accepted ==> Takes(old(View()), data, View())
      ensures ring.entries == old(ring.entries) || fresh(ring.entries)
    {
      ServeKeeps(View(), EntriesIn(data));
      TakenExactly(View(), data);
      accepted, ok := role == Leader, true;
      if accepted {
        ok := AppendData(data);
      }
    }

    /** The term of an entry, or -1 when the log does not hold it. */
    method TermAt(idx: nat) returns (t: int)
      requires ring.Valid()
      ensures t == if ring.Model().Has(idx) then ring.Model().At(idx).term else -1
    {
      var present, at := ring.GetAtIdx(idx);
      t := if present then ring.entries[at].term else -1;
    }

    method EntriesFrom(next: nat) returns (es: seq<Entry>, ghost n: nat)
      requires ring.Valid()
      ensures ring.Model().Has(next) ==> 0 < n && ring.Model().Has(next + n - 1)
      ensures es == RS.Outgoing(ring.Model(), next, n)
    {
      var at, cnt := ring.GetFromIdx(next);
      n := cnt;
      es := if cnt == 0 then [] else ring.entries[at..at + cnt];
      assert es == RS.Outgoing(ring.Model(), next, n);
    }

    /** The message for member j, with the n entries that are contiguous in memory. */
    method BuildAppendentries(j: nat) returns (ae: AppendEntries, ghost n: nat)
      requires ring.Valid() && j < |peers| && j != me
      ensures ring.Model().Has(peers[j].nextIdx) ==> 0 < n && ring.Model().Has(peers[j].nextIdx + n - 1)
      ensures ae == RS.BuildAppend(View(), j, n)
    {
      var next := peers[j].nextIdx;
      var es;
      es, n := EntriesFrom(next);
      if next <= 1 {
        return AppendEntries(term, 0, 0, commit, es), n;
      }
      var prevTerm := TermAt(next - 1);
      ae := AppendEntries(term, next - 1, prevTerm, commit, es);
    }

    /** Sends to member j and moves its next index past the `sent` entries that the network
        took (none unless several messages may be in flight). */
    method SendAppendentries(j: nat, sent: nat) returns (ae: AppendEntries, ghost n: nat)
      requires Valid() && j < |peers| && j != me
      modifies this
      ensures ring.Model().Has(old(peers)[j].nextIdx) ==> 0 < n && ring.Model().Has(old(peers)[j].nextIdx + n - 1)
      ensures ae == RS.BuildAppend(old(View()), j, n)
      ensures Valid() && View() == RS.SendAppend(old(View()), j, sent) && Kept(old(View()), View())
    {
      ServeKeeps(View(), SendOut(j, sent));
      ae, n := BuildAppendentries(j);
      MoveNext(j, sent);
    }

    method MoveNext(j: nat, sent: nat)
      requires ring.Valid() && j < |peers|
      modifies this`peers
      ensures View() == RS.SendAppend(old(View()), j, sent)
    {
      peers := peers[j := peers[j].(nextIdx := RS.ClampNext(peers[j].nextIdx + sent))];
    }

    // ----- compaction and the periodic tick -----

    method CompactLog()
      requires Valid()
      modifies this, ring, ring.plog
      ensures RingOk() && View() == RS.Compact(old(View())) && ring.entries == old(ring.entries)
    {
      if logBase <= compacted + 2 * logTarget {
        return;
      }
      var target := compacted + logTarget;
      var ok := ring.PollBatch(target - compacted);
      assert ok;
      compacted := target;
    }

    method ApplyAndCompact(cp: nat -> int)
      requires Valid()
      modifies this, ring, ring.plog
      ensures RingOk() && ring.entries == old(ring.entries)
      ensures var s := RS.ApplyAll(old(View()), cp); View() == if s.applied < s.commit then s else RS.Compact(s)
    {
      ApplyAllOrdered(View(), cp);
      ApplyCommitted(cp);
      if commit <= applied {
        CompactLog();
      }
    }

    method RunPeriod(timeout: bool, cp: nat -> int)
      requires Valid()
      modifies this, ring, ring.plog
      ensures RingOk() && View() == RS.Tick(old(View()), timeout, cp) && ring.entries == old(ring.entries)
    {
      if |peers| == 1 && role != Leader {
        BecomeLeader();
      }
      if role != Leader && timeout && 1 < |peers| {
        BecomeCandidate();
      }
      RoleOrdered(old(View()), View());
      ApplyAndCompact(cp);
    }

    method Periodic(timeout: bool, cp: nat -> int)
      requires Valid()
      modifies this, ring, ring.plog
      ensures Valid() && View() == RS.Tick(old(View()), timeout, cp) && Kept(old(View()), View())
      ensures applied == commit == old(commit)
      ensures compacted == old(compacted) + if old(compacted) + 2 * logTarget < logBase then logTarget else 0
      ensures ring.entries == old(ring.entries)
    {
      ServeKeeps(View(), Period(timeout, cp));
      TickCompacts(View(), timeout, cp);
      RunPeriod(timeout, cp);
    }
  }

  /** What follows the cut: the entries, then the commit index. */
  ghost function Merged(s: Server, ae: AppendEntries): Outcome<()> {
    match RS.Merge(s, ae.prevIdx, ae.entries)
    case Abort => Abort
    case Done(s1, _) => RS.AdvanceCommit(s1, ae.leaderCommit)
  }

  lemma AcceptParts(s: Server, ae: AppendEntries)
    ensures var cut := RS.CutAfter(s, ae);
            RS.Accept(s, ae).Done? <==> cut.Done? && Merged(cut.server, ae).Done?
    ensures RS.Accept(s, ae).Done? ==>
              RS.Accept(s, ae) == Done(Merged(RS.CutAfter(s, ae).server, ae).server,
                                       AppendReply(s.term, true, ae.prevIdx + |ae.entries|, ae.prevIdx + 1))
  {
  }

  /** One entry applied, and the checkpoint the callback then takes. */
  ghost function Applied(s: Server, cp: nat -> int): (r: Server)
    requires s.log.Has(s.applied + 1)
    ensures r.applied == s.applied + 1 && r.commit == s.commit
  {
    var s1 := s.(applied := s.applied + 1, delivered := s.delivered + [s.log.At(s.applied + 1)]);
    RS.Checkpoint(s1, cp(s1.applied))
  }

  /** One turn of the apply loop. */
  lemma ApplyNext(s: Server, cp: nat -> int)
    requires s.applied < s.commit
    ensures RS.ApplyAll(s, cp) == if s.log.Has(s.applied + 1) then RS.ApplyAll(Applied(s, cp), cp) else s
  {
  }

  /** The acknowledgements counted among the first n members. */
  ghost function AckedBelow(s: Server, point: nat, n: nat): set<nat>
    requires n <= |s.peers|
  {
    set j: nat | 0 <= j < n && j != s.me && RS.CountsFor(s, j, point)
  }

  lemma AckedNext(s: Server, point: nat, n: nat)
    requires n < |s.peers|
    ensures n !in AckedBelow(s, point, n)
    ensures AckedBelow(s, point, n + 1)
         == AckedBelow(s, point, n) + if n != s.me && RS.CountsFor(s, n, point) then {n} else {}
    ensures |AckedBelow(s, point, n + 1)|
         == |AckedBelow(s, point, n)| + if n != s.me && RS.CountsFor(s, n, point) then 1 else 0
  {
  }
}
