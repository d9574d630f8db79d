/** What becomes of an acknowledged prefix. A follower that has acknowledged the first c
    entries of its leader's log can lose them again in the same term: an empty message
    that was built before they were sent, and arrives after, cuts the log. */
module RaftAck {
  import opened RaftTypes
  import opened RaftServer
  import opened RaftCluster
  import opened RaftInvariant
  import opened RaftSafety
  import opened RaftTheorems
  import opened RaftMoves

  // ----- one message of the same term -----

  /** A follower that holds the first c entries of its leader's log keeps them through a
      message of the same term exactly when the message is not an empty one, for an
      earlier index, that finds at least two entries after that index. */
  lemma AcknowledgedPrefixKept(s: Server, ae: AppendEntries, c: nat, h: History)
    requires s.log.front == 0 && s.logBase == 0 && Justified(s.log.entries, h) && s.role != Leader
    requires ae.term == s.term && ae.term in h.logs && Justified(h.logs[ae.term], h)
    requires SliceOf(ae, h.logs[ae.term])
    requires c <= |s.log.entries| && c <= |h.logs[ae.term]| && s.log.entries[..c] == h.logs[ae.term][..c]
    requires RecvAppendEntries(s, ae).Done?
    ensures var log' := RecvAppendEntries(s, ae).server.log.entries;
            var ldr := h.logs[ae.term];
            (c <= |log'| && log'[..c] == ldr[..c])
            <==> !(ae.entries == [] && 0 < ae.prevIdx < c && ae.prevIdx + 1 < |s.log.entries|)
  {
    var s1 := AdoptTerm(s, ae.term);
    var log, ldr, prev := s.log.entries, h.logs[ae.term], ae.prevIdx;
    if 0 < prev && !(s1.log.Has(prev) && s1.log.At(prev).term == ae.prevTerm) {
      RejectedKeeps(s1, ae, c, ldr);
    } else {
      AcceptedKeeps(s1, ae, c, h);
    }
  }

  lemma AcceptedKeeps(s: Server, ae: AppendEntries, c: nat, h: History)
    requires s.log.front == 0 && s.logBase == 0 && Justified(s.log.entries, h) && s.role == Follower
    requires ae.term == s.term && ae.term in h.logs && Justified(h.logs[ae.term], h)
    requires SliceOf(ae, h.logs[ae.term])
    requires c <= |s.log.entries| && c <= |h.logs[ae.term]| && s.log.entries[..c] == h.logs[ae.term][..c]
    requires 0 < ae.prevIdx ==> s.log.Has(ae.prevIdx) && s.log.At(ae.prevIdx).term == ae.prevTerm
    requires Accept(s, ae).Done?
    ensures var log' := Accept(s, ae).server.log.entries;
            var ldr := h.logs[ae.term];
            (c <= |log'| && log'[..c] == ldr[..c])
            <==> !(ae.entries == [] && 0 < ae.prevIdx < c && ae.prevIdx + 1 < |s.log.entries|)
  {
    var log, ldr, prev := s.log.entries, h.logs[ae.term], ae.prevIdx;
    if 0 < prev {
      JustifiedAgree(log, ldr, prev - 1, h);
    }
    AcceptShape(s, ae);
    CutOk(s, ae, h);
    var cut := CutAfter(s, ae).server;
    assert cut.log.entries[..prev] == log[..prev];
    if c <= |cut.log.entries| {
      assert cut.log.entries[..c] == log[..c];
      MergeKeeps(cut, ae, c, h);
    }
  }

  lemma RejectedKeeps(s: Server, ae: AppendEntries, c: nat, ldr: seq<Entry>)
    requires s.log.front == 0 && s.logBase == 0 && s.role != Leader && s.role != Candidate
    requires ae.term == s.term && SliceOf(ae, ldr)
    requires c <= |s.log.entries| && c <= |ldr| && s.log.entries[..c] == ldr[..c]
    requires 0 < ae.prevIdx && !(s.log.Has(ae.prevIdx) && s.log.At(ae.prevIdx).term == ae.prevTerm)
    requires RecvAppendEntries(s, ae).Done?
    ensures c < ae.prevIdx
    ensures var log' := RecvAppendEntries(s, ae).server.log.entries; c <= |log'| && log'[..c] == ldr[..c]
  {
    assert forall k :: 0 <= k < c ==> s.log.entries[k] == s.log.entries[..c][k];
    var log' := RecvAppendEntries(s, ae).server.log.entries;
    assert log' == s.log.entries || log' == s.log.entries[..ae.prevIdx - 1];
    assert log'[..c] == s.log.entries[..c];
  }

  /** Merging the leader's entries never shortens agreement with the leader. */
  lemma MergeKeeps(s: Server, ae: AppendEntries, c: nat, h: History)
    requires s.log.front == 0 && Justified(s.log.entries, h)
    requires ae.term in h.logs && Justified(h.logs[ae.term], h) && SliceOf(ae, h.logs[ae.term])
    requires ae.prevIdx <= |s.log.entries| && s.log.entries[..ae.prevIdx] == h.logs[ae.term][..ae.prevIdx]
    requires c <= |s.log.entries| && c <= |h.logs[ae.term]| && s.log.entries[..c] == h.logs[ae.term][..c]
    requires Merge(s, ae.prevIdx, ae.entries).Done?
    ensures var log' := Merge(s, ae.prevIdx, ae.entries).server.log.entries;
            c <= |log'| && log'[..c] == h.logs[ae.term][..c]
  {
    MergeOk(s, ae, h);
    var log, ldr, es := s.log.entries, h.logs[ae.term], ae.entries;
    var k := Agreeing(s.log, ae.prevIdx, es);
    assert forall x :: 0 <= x < c ==> log[x] == log[..c][x];
  }

  // ----- one step of a run -----

  /** The step hands server i an empty message of term t for an index below c, and i
      holds at least two entries after that index. */
  predicate Cuts(s: Cluster, st: Step, i: nat, t: nat, c: nat) {
    && i < |s.servers| && st.Deliver? && st.m.AppendReq? && st.m.dst == i
    && st.m.ae.term == t && st.m.ae.entries == []
    && 0 < st.m.ae.prevIdx < c && st.m.ae.prevIdx + 1 < |s.servers[i].log.entries|
  }

  ghost predicate Holds(s: Cluster, i: nat, prefix: seq<Entry>) {
    i < |s.servers| && prefix <= s.servers[i].log.entries
  }

  /** Only an append-entries message changes the log of a server that does not lead. */
  lemma OthersKeepLog(c: Cluster, st: Step, c': Cluster, i: nat, h: History)
    requires Inv(c, h) && Next(c, st, c') && i < |c.servers| && c.servers[i].role != Leader
    requires !(st.Deliver? && st.m.AppendReq? && st.m.dst == i)
    ensures |c'.servers| == |c.servers| && c'.servers[i].log == c.servers[i].log
  {
    StepMoves(c, st, c', h);
    StepServes(c, st, c');
  }

  lemma StepKeeps(c: Cluster, st: Step, c': Cluster, i: nat, t: nat, n: nat, h: History)
    requires Inv(c, h) && Next(c, st, c') && i < |c.servers| == |c'.servers|
    requires c.servers[i].term == t && t in h.leader && h.leader[t] != i
    requires t in h.logs && n <= |h.logs[t]| && Holds(c, i, h.logs[t][..n])
    requires c'.servers[i].term == t
    ensures Holds(c', i, h.logs[t][..n]) <==> !Cuts(c, st, i, t, n)
  {
    var s := c.servers[i];
    assert ServerInv(i, |c.servers|, s, h);
    if st.Deliver? && st.m.AppendReq? && st.m.dst == i {
      assert MessageInv(|c.servers|, st.m, h);
      AppendKeeps(s, st.m.ae, n, t, h);
    } else {
      OthersKeepLog(c, st, c', i, h);
    }
  }

  lemma AppendKeeps(s: Server, ae: AppendEntries, n: nat, t: nat, h: History)
    requires s.log.front == 0 && s.logBase == 0 && Justified(s.log.entries, h) && s.role != Leader
    requires s.term == t && t in h.logs && Justified(h.logs[t], h)
    requires n <= |h.logs[t]| && h.logs[t][..n] <= s.log.entries
    requires ae.term in h.logs && SliceOf(ae, h.logs[ae.term]) && RecvAppendEntries(s, ae).Done?
    requires RecvAppendEntries(s, ae).server.term == t
    ensures h.logs[t][..n] <= RecvAppendEntries(s, ae).server.log.entries
            <==> !(ae.term == t && ae.entries == [] && 0 < ae.prevIdx < n && ae.prevIdx + 1 < |s.log.entries|)
  {
    var log' := RecvAppendEntries(s, ae).server.log.entries;
    if ae.term == t {
      assert s.log.entries[..n] == h.logs[t][..n];
      AcknowledgedPrefixKept(s, ae, n, h);
      assert h.logs[t][..n] <= log' <==> n <= |log'| && log'[..n] == h.logs[t][..n];
    } else {
      AppendEntriesShape(s, ae);
    }
  }

  // ----- whole runs -----

  lemma {:induction false} TermsGrowAlong(run: seq<Cluster>, steps: seq<Step>, p: nat, q: nat, i: nat)
    requires IsRun(run, steps) && p <= q < |run| && i < |run[p].servers|
    ensures |run[q].servers| == |run[p].servers| && run[p].servers[i].term <= run[q].servers[i].term
    decreases q - p
  {
    if p < q {
      TermsGrowAlong(run, steps, p, q - 1, i);
      var mover := MovesAt(run, steps, q - 1);
    }
  }

  /** Server i answers, at step a, that it holds the first entries of the leader's log. */
  ghost predicate Acknowledges(run: seq<Cluster>, steps: seq<Step>, a: nat, i: nat, dst: nat, r: AppendReply) {
    && IsRun(run, steps) && a < |steps| && r.success
    && EffectOf(run[a], steps[a]).Effect? && AppendRep(i, dst, r) in EffectOf(run[a], steps[a]).out
  }

  /** What is acknowledged in one step is the recorded log of the message's term. */
  lemma AckedStep(c: Cluster, st: Step, c': Cluster, i: nat, dst: nat, r: AppendReply, h: History)
    requires Inv(c, h) && Next(c, st, c') && r.success && AppendRep(i, dst, r) in EffectOf(c, st).out
    ensures i < |c'.servers| && c'.servers[i].term == r.term
    ensures r.currentIdx <= |c'.servers[i].log.entries|
    ensures LeaderLog(h, r.term, dst, c'.servers[i].log.entries[..r.currentIdx]) && dst != i
  {
    assert MessageInv(|c.servers|, st.m, h);
    assert ServerInv(i, |c.servers|, c.servers[i], h);
    AcceptedLog(c.servers[i], st.m.ae, h);
    AppendEntriesShape(c.servers[i], st.m.ae);
  }

  /** The leader of term t is dst, and its log begins with `prefix`. */
  ghost predicate LeaderLog(h: History, t: nat, dst: nat, prefix: seq<Entry>) {
    t in h.leader && h.leader[t] == dst && t in h.logs && prefix <= h.logs[t]
  }

  lemma AcknowledgedLog(run: seq<Cluster>, steps: seq<Step>, a: nat, i: nat, dst: nat, r: AppendReply, j: nat)
    requires Acknowledges(run, steps, a, i, dst, r) && a < j < |run|
    ensures i < |run[a + 1].servers| && run[a + 1].servers[i].term == r.term
    ensures r.currentIdx <= |run[a + 1].servers[i].log.entries|
    ensures LeaderLog(HistoryAt(run, steps, j), r.term, dst, run[a + 1].servers[i].log.entries[..r.currentIdx])
            && dst != i
  {
    InvAt(run, steps, a);
    assert Next(run[a], steps[a], run[a + 1]);
    AckedStep(run[a], steps[a], run[a + 1], i, dst, r, HistoryAt(run, steps, a));
    var hs := Record(run, steps);
    HistoryGrows(run, hs, a, j);
  }

  ghost predicate HeldThrough(run: seq<Cluster>, a: nat, k: nat, i: nat, prefix: seq<Entry>) {
    forall j {:trigger Holds(run[j], i, prefix)} :: a < j <= k < |run| ==> Holds(run[j], i, prefix)
  }

  ghost predicate CutBetween(run: seq<Cluster>, steps: seq<Step>, a: nat, k: nat, i: nat, t: nat, c: nat) {
    exists j {:trigger Cuts(run[j], steps[j], i, t, c)} ::
      a < j < k && j < |steps| && j < |run| && Cuts(run[j], steps[j], i, t, c)
  }

  /** One step loses the prefix exactly when it cuts. */
  ghost predicate LostByCut(s: Cluster, st: Step, s': Cluster, i: nat, t: nat, c: nat, prefix: seq<Entry>) {
    Holds(s, i, prefix) ==> (Holds(s', i, prefix) <==> !Cuts(s, st, i, t, c))
  }

  lemma {:induction false} HeldUntilCut(run: seq<Cluster>, steps: seq<Step>, a: nat, k: nat, i: nat, t: nat, c: nat,
                                        prefix: seq<Entry>)
    requires |run| == |steps| + 1 && a < k < |run| && Holds(run[a + 1], i, prefix)
    requires forall j :: a < j < k ==> LostByCut(run[j], steps[j], run[j + 1], i, t, c, prefix)
    ensures HeldThrough(run, a, k, i, prefix) <==> !CutBetween(run, steps, a, k, i, t, c)
  {
    if a + 1 < k {
      HeldUntilCut(run, steps, a, k - 1, i, t, c, prefix);
      assert LostByCut(run[k - 1], steps[k - 1], run[k - 1 + 1], i, t, c, prefix);
      if HeldThrough(run, a, k, i, prefix) {
        assert HeldThrough(run, a, k - 1, i, prefix) && Holds(run[k - 1], i, prefix) && Holds(run[k], i, prefix);
      } else if HeldThrough(run, a, k - 1, i, prefix) {
        assert Holds(run[k - 1], i, prefix) && !Holds(run[k], i, prefix);
      } else {
        var j :| a < j < k - 1 && Cuts(run[j], steps[j], i, t, c);
      }
    }
  }

  lemma TermStays(run: seq<Cluster>, steps: seq<Step>, p: nat, j: nat, k: nat, i: nat)
    requires IsRun(run, steps) && p <= j <= k < |run|
    requires i < |run[p].servers| && i < |run[k].servers| && run[p].servers[i].term == run[k].servers[i].term
    ensures |run[j].servers| == |run[p].servers| && run[j].servers[i].term == run[p].servers[i].term
  {
    TermsGrowAlong(run, steps, p, j, i);
    TermsGrowAlong(run, steps, j, k, i);
  }

  lemma StepLost(c: Cluster, st: Step, c': Cluster, i: nat, dst: nat, r: AppendReply, prefix: seq<Entry>, h: History)
    requires Inv(c, h) && Next(c, st, c') && i < |c.servers| == |c'.servers|
    requires c.servers[i].term == c'.servers[i].term == r.term
    requires LeaderLog(h, r.term, dst, prefix) && dst != i && |prefix| == r.currentIdx
    ensures LostByCut(c, st, c', i, r.term, r.currentIdx, prefix)
  {
    assert h.logs[r.term][..r.currentIdx] == prefix;
    if Holds(c, i, prefix) {
      StepKeeps(c, st, c', i, r.term, r.currentIdx, h);
    }
  }

  /** A step of the run, at a time when the term still lasts. */
  lemma LostOnlyByCut(run: seq<Cluster>, steps: seq<Step>, a: nat, i: nat, dst: nat, r: AppendReply, j: nat, k: nat)
    requires Acknowledges(run, steps, a, i, dst, r) && a < j < k < |run|
    requires i < |run[k].servers| && run[k].servers[i].term == r.term
    ensures i < |run[a + 1].servers| && r.currentIdx <= |run[a + 1].servers[i].log.entries|
    ensures LostByCut(run[j], steps[j], run[j + 1], i, r.term, r.currentIdx,
                      run[a + 1].servers[i].log.entries[..r.currentIdx])
  {
    AcknowledgedLog(run, steps, a, i, dst, r, j);
    TermStays(run, steps, a + 1, j, k, i);
    TermStays(run, steps, a + 1, j + 1, k, i);
    InvAt(run, steps, j);
    assert Next(run[j], steps[j], run[j + 1]);
    StepLost(run[j], steps[j], run[j + 1], i, dst, r, run[a + 1].servers[i].log.entries[..r.currentIdx],
             HistoryAt(run, steps, j));
  }

  /** While a follower stays in the term in which it acknowledged the first c entries of
      its leader's log, it holds them in every state exactly as long as no empty message
      of that term, for an index below c, finds two entries or more after that index. */
  lemma AcknowledgedUntilCut(run: seq<Cluster>, steps: seq<Step>, a: nat, i: nat, dst: nat, r: AppendReply, k: nat)
    requires Acknowledges(run, steps, a, i, dst, r) && a < k < |run|
    requires i < |run[k].servers| && run[k].servers[i].term == r.term
    ensures i < |run[a + 1].servers| && r.currentIdx <= |run[a + 1].servers[i].log.entries|
    ensures HeldThrough(run, a, k, i, run[a + 1].servers[i].log.entries[..r.currentIdx])
            <==> !CutBetween(run, steps, a, k, i, r.term, r.currentIdx)
  {
    AcknowledgedLog(run, steps, a, i, dst, r, k);
    var prefix := run[a + 1].servers[i].log.entries[..r.currentIdx];
    forall j | a < j < k
      ensures LostByCut(run[j], steps[j], run[j + 1], i, r.term, r.currentIdx, prefix)
    {
      LostOnlyByCut(run, steps, a, i, dst, r, j, k);
    }
    HeldUntilCut(run, steps, a, k, i, r.term, r.currentIdx, prefix);
  }
}
