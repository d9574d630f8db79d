/** What a cluster can always still do. From any state of a run without the two steps that
    break safety, a server whose log is not behind a majority's can be elected, bring that
    majority up to date, take a client's entry, and have all of them deliver it. */
module RaftProgress {
  import opened Common
  import opened RaftTypes
  import opened RaftServer
  import opened RaftCluster
  import opened RaftInvariant
  import opened RaftTheorems
  import opened RaftMoves
  import opened RaftAck
  import opened RaftPast
  import opened RaftComplete
  import opened RaftStateMachine
  import opened ServerOrder
  import opened RaftAnswers
  import opened RaftElect
  import opened RaftCatchUp

  // ----- a leader and its followers in a run -----

  /** The leader's match index for a member is below its next index. */
  ghost predicate MatchBelow(s: Server) {
    s.role == Leader ==> forall j :: 0 <= j < |s.peers| && j != s.me ==> s.peers[j].matchIdx < s.peers[j].nextIdx
  }

  lemma ReplyMatchBelow(s: Server, src: nat, r: AppendReply)
    requires Ordered(s) && MatchBelow(s) && RecvAppendReply(s, src, r, NoCheckpoint()).Done?
    ensures MatchBelow(RecvAppendReply(s, src, r, NoCheckpoint()).server)
  {
    if s.role == Leader && Fresh(s, src, r) && r.term == s.term {
      if r.success {
        CommitsExactly(s, src, r, NoCheckpoint());
        if r.currentIdx <= s.log.Back() {
          ReplyFrame(s, src, r);
        }
      } else {
        BacksUpExactly(s, src, r, NoCheckpoint());
      }
    } else {
      OtherReplies(s, src, r, NoCheckpoint());
    }
  }

  lemma VoteMatchBelow(s: Server, src: nat, r: VoteReply)
    requires MatchBelow(s) && s.me < |s.peers|
    ensures MatchBelow(RecvVoteReply(s, src, r))
  {
    if s.role == Candidate {
      ElectedExactly(s, src, r);
    }
  }

  lemma TickMatchBelow(s: Server, timeout: bool)
    requires MatchBelow(s) && 2 <= |s.peers| && s.logBase == 0
    ensures MatchBelow(Tick(s, timeout, NoCheckpoint()))
  {
    var s2 := if s.role != Leader && timeout then BecomeCandidate(s) else s;
    ApplyAllFrame(s2, NoCheckpoint());
    ApplyKeepsBase(s2);
  }

  lemma AppendMatchBelow(s: Server, ae: AppendEntries)
    requires MatchBelow(s) && RecvAppendEntries(s, ae).Done? && (s.role == Leader ==> ae.term != s.term)
    ensures MatchBelow(RecvAppendEntries(s, ae).server)
  {
    if s.role == Leader {
      LeaderIgnores(s, ae);
    } else {
      AnsweredExactly(s, ae);
    }
  }

  lemma ServeMatchBelow(c: Cluster, st: Step, h: History)
    requires Inv(c, h) && EffectOf(c, st).Effect? && EffectOf(c, st).i < |c.servers|
    requires var s := c.servers[EffectOf(c, st).i]; Ordered(s) && MatchBelow(s)
    ensures MatchBelow(EffectOf(c, st).server)
  {
    var i := EffectOf(c, st).i;
    var s := c.servers[i];
    assert ServerInv(i, |c.servers|, s, h);
    EffectServes(c, st);
    if st.Deliver? && st.m.AppendReq? {
      assert MessageInv(|c.servers|, st.m, h);
    }
    EventMatchBelow(s, EventOf(st), EffectOf(c, st).server);
  }

  lemma EventMatchBelow(s: Server, ev: Event, s': Server)
    requires Ordered(s) && MatchBelow(s) && s.me < |s.peers| && 2 <= |s.peers| && s.logBase == 0
    requires Serve(s, ev) == Running(s')
    requires ev.Period? ==> ev.cp == NoCheckpoint()
    requires ev.AppendReplyIn? ==> ev.cp == NoCheckpoint()
    requires ev.AppendIn? && s.role == Leader ==> ev.ae.term != s.term
    ensures MatchBelow(s')
  {
    match ev
    case Period(timeout, _) => TickMatchBelow(s, timeout);
    case EntriesIn(_) =>
    case SendOut(_, _) =>
    case VoteRequestIn(vr) =>
    case VoteReplyIn(src, r) => VoteMatchBelow(s, src, r);
    case AppendIn(ae) => AppendMatchBelow(s, ae);
    case AppendReplyIn(src, r, _) => ReplyMatchBelow(s, src, r);
  }

  lemma {:induction false} MatchBelowAt(run: seq<Cluster>, steps: seq<Step>, k: nat, i: nat)
    requires IsRun(run, steps) && k < |run| && i < |run[k].servers|
    ensures MatchBelow(run[k].servers[i])
  {
    if k == 0 {
      NoneAtFirst(run, steps, i);
    } else {
      var mover := MovesAt(run, steps, k - 1);
      MatchBelowAt(run, steps, k - 1, i);
      if i == mover {
        InvAt(run, steps, k - 1);
        OrderedAt(run, steps, k - 1, i);
        ServeMatchBelow(run[k - 1], steps[k - 1], HistoryAt(run, steps, k - 1));
      }
    }
  }

  /** Two logs of one run agree up to some point and have no term in common beyond. */
  lemma {:induction false} AgreeUpTo(f: seq<Entry>, l: seq<Entry>, h: History, n: nat) returns (a: nat)
    requires Justified(f, h) && Justified(l, h) && n <= |f|
    ensures Agrees(f[..n], l, a)
  {
    if n == 0 {
      a := 0;
    } else {
      a := AgreeUpTo(f, l, h, n - 1);
      assert f[..n][..n - 1] == f[..n - 1];
      if n <= |l| && f[n - 1].term == l[n - 1].term {
        JustifiedAgree(f, l, n - 1, h);
        a := n;
        assert forall k :: 0 <= k < n ==> f[..n][k] == f[..n - 1 + 1][k] == l[..n - 1 + 1][k];
      } else {
        assert forall k :: 0 <= k < n - 1 ==> f[..n][k] == f[..n - 1][k];
      }
    }
  }

  /** Server i leads term t, and no server is in a later one. */
  ghost predicate LeadsLatest(c: Cluster, i: nat, t: nat) {
    Leads(c, i, t) && forall x {:trigger c.servers[x]} :: 0 <= x < |c.servers| ==> c.servers[x].term <= t
  }

  /** What any server has committed, the leader of the latest term has. */
  lemma LeaderHasCommitted(run: seq<Cluster>, steps: seq<Step>, i: nat, t: nat, j: nat)
    requires IsRun(run, steps) && Careful(run, steps) && LeadsLatest(run[|steps|], i, t) && j < |run[|steps|].servers|
    ensures var f := run[|steps|].servers[j];
            f.commit <= |f.log.entries| && f.log.entries[..f.commit] <= run[|steps|].servers[i].log.entries
  {
    var k := |steps|;
    var f := run[k].servers[j];
    var hs := Tell(run, steps);
    SealedAlong(run, steps, hs, k);
    assert ServerSealed(run, hs, f);
    SealedInLeader(run, steps, hs, i, t, f.log.entries[..f.commit]);
  }

  lemma SealedInLeader(run: seq<Cluster>, steps: seq<Step>, hs: seq<History>, i: nat, t: nat, x: seq<Entry>)
    requires Told(run, steps, hs) && NothingDropped(run, steps) && Sealed(run, hs, x)
    requires LeadsLatest(run[|steps|], i, t)
    ensures x <= run[|steps|].servers[i].log.entries
  {
    if x != [] {
      var t0: nat, p, q :| Backed(run, hs, t0, p, q) && x <= p;
      NotLater(run, steps, hs, t0, p, q, t);
      BackedInLeader(run, steps, hs, t0, p, q, i, t);
    }
  }

  lemma BackedInLeader(run: seq<Cluster>, steps: seq<Step>, hs: seq<History>, t0: nat, p: seq<Entry>, q: set<nat>,
                       i: nat, t: nat)
    requires Told(run, steps, hs) && NothingDropped(run, steps) && Backed(run, hs, t0, p, q) && t0 <= t
    requires Leads(run[|steps|], i, t)
    ensures p <= run[|steps|].servers[i].log.entries
  {
    var k := |steps|;
    ToldInv(run, steps, hs, k);
    assert ServerInv(i, |run[k].servers|, run[k].servers[i], hs[k]);
    if t0 < t {
      LaterRecorded(run, steps, hs, t0, p, q, t);
    } else {
      BackedRecorded(run, steps, hs, t0, p, q);
    }
  }

  /** A majority has backed nothing in a term that nobody has reached. */
  lemma NotLater(run: seq<Cluster>, steps: seq<Step>, hs: seq<History>, t0: nat, p: seq<Entry>, q: set<nat>, t: nat)
    requires Told(run, steps, hs) && Backed(run, hs, t0, p, q)
    requires forall x {:trigger run[|steps|].servers[x]} ::
               0 <= x < |run[|steps|].servers| ==> run[|steps|].servers[x].term <= t
    ensures t0 <= t
  {
    assert q != {};
    var v :| v in q;
    var s0 :| HeldOnce(run, hs, v, t0, p, s0);
    TermsGrowAlong(run, steps, s0, |steps|, v);
  }

  /** In a run without the two steps that break safety, the leader of the latest term and any
      other server are a pair that can exchange messages. */
  lemma PairedInRun(run: seq<Cluster>, steps: seq<Step>, i: nat, t: nat, j: nat) returns (a: nat)
    requires IsRun(run, steps) && Careful(run, steps) && LeadsLatest(run[|steps|], i, t)
    requires j < |run[|steps|].servers| && j != i
    ensures Paired(Pair(run[|steps|].servers[i], run[|steps|].servers[j]), j, a)
  {
    var k := |steps|;
    var c := run[k];
    var h := HistoryAt(run, steps, k);
    InvAt(run, steps, k);
    assert ServerInv(i, |c.servers|, c.servers[i], h) && ServerInv(j, |c.servers|, c.servers[j], h);
    OrderedAt(run, steps, k, i);
    OrderedAt(run, steps, k, j);
    MatchBelowAt(run, steps, k, i);
    var f, l := c.servers[j].log.entries, c.servers[i].log.entries;
    a := AgreeUpTo(f, l, h, |f|);
    assert f[..|f|] == f;
    LeaderHasCommitted(run, steps, i, t, j);
    CommitWithin(f, l, a, c.servers[j].commit);
    if Leads(c, j, t) {
      ElectionSafety(run, steps, k, k, i, j, t);
    }
  }

  lemma CommitWithin(f: seq<Entry>, l: seq<Entry>, a: nat, n: nat)
    requires Agrees(f, l, a) && n <= |f| && f[..n] <= l
    ensures n <= a
  {
    assert forall k :: 0 <= k < n ==> f[k] == f[..n][k] == l[k];
    assert a < |f| && a < |l| ==> f[a] != l[a];
  }

  // ----- what a majority holds is committed -----

  /** In any run: when an acknowledgement of a leader's term arrives that is not an old one, and
      the leader with the members behind that index is a majority, then the index is committed;
      and all that is committed has been delivered. */
  lemma MajorityCommits(run: seq<Cluster>, steps: seq<Step>, k: nat, i: nat, j: nat, r: AppendReply)
    requires IsRun(run, steps) && k < |steps| && steps[k] == Deliver(AppendRep(j, i, r))
    requires Leads(run[k], i, r.term) && r.success && Fresh(run[k].servers[i], j, r)
    ensures i < |run[k + 1].servers|
    ensures var s' := run[k + 1].servers[i];
            && (|run[k].servers| < 2 * (1 + |Behind(s', r.currentIdx)|) ==> r.currentIdx <= s'.commit)
            && s'.commit <= |s'.log.entries| && s'.delivered == s'.log.entries[..s'.commit]
            && j < |s'.peers| && s'.peers[j].matchIdx == r.currentIdx
  {
    var c, s := run[k], run[k].servers[i];
    assert Next(c, steps[k], run[k + 1]);
    InvAt(run, steps, k);
    assert ServerInv(i, |c.servers|, s, HistoryAt(run, steps, k));
    OrderedAt(run, steps, k, i);
    CommitsExactly(s, j, r, NoCheckpoint());
    var s' := run[k + 1].servers[i];
    assert s'.log.front == 0 && s'.compacted == 0;
    DeliveredPrefix(s');
  }

  // ----- rounds in a run -----

  /** The run goes on, and only servers i and j change. */
  ghost predicate Exchanged(run: seq<Cluster>, steps: seq<Step>, run': seq<Cluster>, steps': seq<Step>, i: nat, j: nat,
                            p: Pair) {
    && IsRun(run, steps) && IsRun(run', steps') && run <= run' && steps <= steps'
    && var c, c' := run[|steps|], run'[|steps'|];
    && i < |c.servers| && j < |c.servers| && i != j
    && c'.servers == c.servers[i := p.leader][j := p.follower]
  }

  ghost function PairAt(c: Cluster, i: nat, j: nat): Pair
    requires i < |c.servers| && j < |c.servers|
  {
    Pair(c.servers[i], c.servers[j])
  }

  lemma SendsInRun(run: seq<Cluster>, steps: seq<Step>, i: nat, j: nat, n: nat, sent: nat)
    returns (run': seq<Cluster>, steps': seq<Step>)
    requires IsRun(run, steps) && i < |run[|steps|].servers| && j != i
    requires Sends(run[|steps|].servers[i], j) && run[|steps|].servers[i].me == i
    ensures IsRun(run', steps') && run <= run' && steps <= steps'
    ensures var c, c' := run[|steps|], run'[|steps'|];
            var size := Size(c.servers[i], j, n);
            && c'.servers == c.servers[i := SendAppend(c.servers[i], j, Least(sent, size))]
            && AppendReq(i, j, MessageTo(c.servers[i], j, n)) in c'.net
  {
    var c := run[|steps|];
    var s := c.servers[i];
    var size := Size(s, j, n);
    MessageFits(s, j, n);
    assert |MessageTo(s, j, n).entries| == size;
    run', steps' := StepOn(run, steps, Send(i, j, size, Least(sent, size)));
  }

  lemma AnswersInRun(run: seq<Cluster>, steps: seq<Step>, i: nat, j: nat, ae: AppendEntries)
    returns (run': seq<Cluster>, steps': seq<Step>)
    requires IsRun(run, steps) && j < |run[|steps|].servers| && AppendReq(i, j, ae) in run[|steps|].net
    requires RecvAppendEntries(run[|steps|].servers[j], ae).Done?
    ensures IsRun(run', steps') && run <= run' && steps <= steps'
    ensures var c, c' := run[|steps|], run'[|steps'|];
            var out := RecvAppendEntries(c.servers[j], ae);
            && c'.servers == c.servers[j := out.server] && AppendRep(j, i, out.reply) in c'.net
  {
    run', steps' := StepOn(run, steps, Deliver(AppendReq(i, j, ae)));
  }

  lemma LearnsInRun(run: seq<Cluster>, steps: seq<Step>, i: nat, j: nat, r: AppendReply)
    returns (run': seq<Cluster>, steps': seq<Step>)
    requires IsRun(run, steps) && i < |run[|steps|].servers| && AppendRep(j, i, r) in run[|steps|].net
    requires RecvAppendReply(run[|steps|].servers[i], j, r, NoCheckpoint()).Done?
    ensures IsRun(run', steps') && run <= run' && steps <= steps'
    ensures var c, c' := run[|steps|], run'[|steps'|];
            c'.servers == c.servers[i := RecvAppendReply(c.servers[i], j, r, NoCheckpoint()).server]
  {
    run', steps' := StepOn(run, steps, Deliver(AppendRep(j, i, r)));
  }

  /** A round of the pair is three steps of the cluster. */
  lemma RoundInRun(run: seq<Cluster>, steps: seq<Step>, i: nat, j: nat, n: nat, sent: nat, p': Pair)
    returns (run': seq<Cluster>, steps': seq<Step>)
    requires IsRun(run, steps) && i < |run[|steps|].servers| && j < |run[|steps|].servers| && i != j
    requires Sends(run[|steps|].servers[i], j) && run[|steps|].servers[i].me == i
    requires Round(PairAt(run[|steps|], i, j), j, n, sent) == Some(p')
    ensures Exchanged(run, steps, run', steps', i, j, p')
  {
    var c := run[|steps|];
    var ae := MessageTo(c.servers[i], j, n);
    var f, r := RecvAppendEntries(c.servers[j], ae).server, RecvAppendEntries(c.servers[j], ae).reply;
    var run1, steps1 := SendsInRun(run, steps, i, j, n, sent);
    var run2, steps2 := AnswersInRun(run1, steps1, i, j, ae);
    run', steps' := LearnsInRun(run2, steps2, i, j, r);
    assert run'[|steps'|].servers == c.servers[i := p'.leader][j := p'.follower];
  }

  lemma Placed(run: seq<Cluster>, steps: seq<Step>, i: nat)
    requires IsRun(run, steps) && i < |run[|steps|].servers|
    ensures var s := run[|steps|].servers[i];
            s.me == i && |s.peers| == |run[|steps|].servers| >= 2 && s.log.front == 0 && s.logBase == 0
  {
    InvAt(run, steps, |steps|);
    assert ServerInv(i, |run[|steps|].servers|, run[|steps|].servers[i], HistoryAt(run, steps, |steps|));
  }

  lemma {:induction false} RoundsInRun(run: seq<Cluster>, steps: seq<Step>, i: nat, j: nat, plan: seq<(nat, nat)>,
                                       p': Pair)
    returns (run': seq<Cluster>, steps': seq<Step>)
    requires IsRun(run, steps) && i < |run[|steps|].servers| && j < |run[|steps|].servers| && i != j
    requires Rounds(PairAt(run[|steps|], i, j), j, plan) == Some(p')
    ensures Exchanged(run, steps, run', steps', i, j, p')
    decreases |plan|
  {
    var c := run[|steps|];
    if plan == [] {
      run', steps' := run, steps;
    } else {
      Placed(run, steps, i);
      var p1 := Round(PairAt(c, i, j), j, plan[0].0, plan[0].1).value;
      var run1, steps1 := RoundInRun(run, steps, i, j, plan[0].0, plan[0].1, p1);
      run', steps' := RoundsInRun(run1, steps1, i, j, plan[1..], p');
      ExchangedOn(run, steps, run1, steps1, run', steps', i, j, p1, p');
    }
  }

  lemma ExchangedOn(run: seq<Cluster>, steps: seq<Step>, run1: seq<Cluster>, steps1: seq<Step>, run2: seq<Cluster>,
                    steps2: seq<Step>, i: nat, j: nat, p1: Pair, p2: Pair)
    requires Exchanged(run, steps, run1, steps1, i, j, p1) && Exchanged(run1, steps1, run2, steps2, i, j, p2)
    ensures Exchanged(run, steps, run2, steps2, i, j, p2)
  {
    assert run2[|steps2|].servers == run[|steps|].servers[i := p2.leader][j := p2.follower];
  }

  /** In a run without the two steps that break safety: a follower of the leader of the latest
      term catches up exactly when the leader finds its place and does not mislead it. */
  lemma CatchesUpInRun(run: seq<Cluster>, steps: seq<Step>, i: nat, t: nat, j: nat) returns (a: nat)
    requires IsRun(run, steps) && Careful(run, steps) && LeadsLatest(run[|steps|], i, t)
    requires j < |run[|steps|].servers| && j != i
    ensures var p := PairAt(run[|steps|], i, j);
            Paired(p, j, a) && (CatchesUp(p, j) <==> Finds(p, j, a) && !Misled(p, j, a))
  {
    a := PairedInRun(run, steps, i, t, j);
    CatchesUpExactly(PairAt(run[|steps|], i, j), j, a);
  }

  // ----- bringing followers up to date -----

  /** Nothing has passed between the two yet. */
  ghost predicate Untried(p: Pair, j: nat) {
    && (exists a :: Paired(p, j, a))
    && NextOf(p, j) == |p.leader.log.entries| + 1 && MatchOf(p, j) == 0
  }

  /** The follower has the whole log of the leader, who knows. */
  ghost predicate InStep(p: Pair, j: nat) {
    Paired(p, j, |p.leader.log.entries|) && Settled(p, j)
  }

  lemma OtherPairs(s: Server, s': Server, j: nat, f: Server, x: nat)
    requires LeaderKept(s, s', j) && x != j
    ensures Untried(Pair(s, f), x) ==> Untried(Pair(s', f), x)
    ensures InStep(Pair(s, f), x) ==> InStep(Pair(s', f), x)
  {
    if Untried(Pair(s, f), x) {
      var a :| Paired(Pair(s, f), x, a);
      assert Paired(Pair(s', f), x, a);
    }
  }

  lemma FinalInStep(p: Pair, p': Pair, j: nat, a: nat)
    requires OnCourse(p', j, a) && Settled(p', j) && p'.leader.log == p.leader.log
    requires p'.follower.log.entries == Final(p)
    ensures InStep(p', j)
  {
    var l := p.leader.log.entries;
    assert l <= Final(p);
    if a < |l| {
      NotPrefix(p'.follower.log.entries, l, a);
    }
  }

  lemma BringsUp(p: Pair, j: nat) returns (plan: seq<(nat, nat)>, p': Pair)
    requires Untried(p, j)
    ensures Rounds(p, j, plan) == Some(p') && InStep(p', j) && LeaderKept(p.leader, p'.leader, j)
  {
    var a: nat :| Paired(p, j, a);
    plan := seq(2 * |p.leader.log.entries| + 2, _ => (1, 1));
    var a';
    p', a' := Settles(p, j, plan, a);
    FinalInStep(p, p', j, a');
  }

  ghost predicate Stage(p: Pair, j: nat, untried: bool) {
    if untried then Untried(p, j) else InStep(p, j)
  }

  /** Server i leads with this log; of the members q it has those in `todo` untried and the
      others up to date. */
  ghost predicate Leading(c: Cluster, i: nat, l: seq<Entry>, q: set<nat>, todo: set<nat>) {
    && i < |c.servers| && c.servers[i].role == Leader && c.servers[i].log.entries == l && i !in q
    && forall j {:trigger j in q} :: j in q ==> j < |c.servers| && Stage(PairAt(c, i, j), j, j in todo)
  }

  lemma LeadingOn(c: Cluster, c': Cluster, i: nat, l: seq<Entry>, q: set<nat>, todo: set<nat>, j: nat, p': Pair)
    requires Leading(c, i, l, q, todo) && j in q && InStep(p', j)
    requires c'.servers == c.servers[i := p'.leader][j := p'.follower] && LeaderKept(c.servers[i], p'.leader, j)
    ensures Leading(c', i, l, q, todo - {j})
  {
    forall x {:trigger x in q} | x in q
      ensures x < |c'.servers| && Stage(PairAt(c', i, x), x, x in todo - {j})
    {
      if x != j {
        OtherPairs(c.servers[i], p'.leader, j, c.servers[x], x);
        assert PairAt(c', i, x) == Pair(p'.leader, c.servers[x]);
      }
    }
  }

  /** The run goes on, and server i leads the same term. */
  ghost predicate GoesOn(run: seq<Cluster>, steps: seq<Step>, run': seq<Cluster>, steps': seq<Step>, i: nat, t: nat) {
    IsRun(run', steps') && run <= run' && steps <= steps' && Leads(run'[|steps'|], i, t)
  }

  lemma GoesOnOn(run: seq<Cluster>, steps: seq<Step>, run1: seq<Cluster>, steps1: seq<Step>, run2: seq<Cluster>,
                 steps2: seq<Step>, i: nat, t: nat)
    requires GoesOn(run, steps, run1, steps1, i, t) && GoesOn(run1, steps1, run2, steps2, i, t)
    ensures GoesOn(run, steps, run2, steps2, i, t)
  {
  }

  lemma BringsOneUp(run: seq<Cluster>, steps: seq<Step>, i: nat, t: nat, l: seq<Entry>, q: set<nat>, todo: set<nat>,
                    j: nat)
    returns (run': seq<Cluster>, steps': seq<Step>)
    requires IsRun(run, steps) && Leads(run[|steps|], i, t) && Leading(run[|steps|], i, l, q, todo)
    requires j in todo && j in q
    ensures GoesOn(run, steps, run', steps', i, t) && Leading(run'[|steps'|], i, l, q, todo - {j})
  {
    var c := run[|steps|];
    var plan, p' := BringsUp(PairAt(c, i, j), j);
    run', steps' := RoundsInRun(run, steps, i, j, plan, p');
    LeadingOn(c, run'[|steps'|], i, l, q, todo, j, p');
  }

  lemma {:induction false} BringsAllUp(run: seq<Cluster>, steps: seq<Step>, i: nat, t: nat, l: seq<Entry>,
                                       q: set<nat>, todo: set<nat>)
    returns (run': seq<Cluster>, steps': seq<Step>)
    requires GoesOn(run, steps, run, steps, i, t) && Leading(run[|steps|], i, l, q, todo) && todo <= q
    ensures GoesOn(run, steps, run', steps', i, t) && Leading(run'[|steps'|], i, l, q, {})
    decreases |todo|
  {
    if todo == {} {
      run', steps' := run, steps;
    } else {
      var j :| j in todo;
      var run1, steps1 := BringsOneUp(run, steps, i, t, l, q, todo, j);
      run', steps' := BringsAllUp(run1, steps1, i, t, l, q, todo - {j});
      GoesOnOn(run, steps, run1, steps1, run', steps', i, t);
    }
  }
}
