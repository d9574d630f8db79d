/** Why a snapshot does not say that all returned leaders led at once: a run of two
    quorums in which the reader succeeds although there is no moment at which both
    servers lead. The first one steps down before it publishes again. */
module SnapshotLate {
  import opened LogModel
  import opened RaftTypes
  import opened RaftServer
  import opened ServerOrder
  import opened Snapshot

  ghost predicate NeverBoth(ws: seq<World>) {
    forall f {:trigger ws[f]} :: 0 <= f < |ws| ==> Apart(ws[f])
  }

  /** Two quorums, of which one has no leader. */
  ghost predicate Apart(w: World) {
    |w.quorums| == 2 && !(Leading(w.quorums[0].server) && Leading(w.quorums[1].server))
  }

  ghost predicate Reached(w: World) {
    exists ws, steps :: IsRun(ws, steps) && NeverBoth(ws) && ws[|steps|] == w
  }

  lemma Then(w: World, step: Step, w': World)
    requires Reached(w) && Enabled(w, step) && w' == Next(w, step) && TermsFit(w') && Apart(w')
    ensures Reached(w')
  {
    var ws, steps :| IsRun(ws, steps) && NeverBoth(ws) && ws[|steps|] == w;
    var ws', steps' := ws + [w'], steps + [step];
    forall i {:trigger steps'[i]} | 0 <= i < |steps'|
      ensures Enabled(ws'[i], steps'[i]) && ws'[i + 1] == Next(ws'[i], steps'[i])
    {
      if i < |steps| {
        assert steps'[i] == steps[i];
      }
    }
    forall i {:trigger ws'[i]} | 0 <= i < |ws'|
      ensures TermsFit(ws'[i]) && Apart(ws'[i])
    {
      if i < |ws| {
        assert ws'[i] == ws[i];
      }
    }
    assert IsRun(ws', steps') && NeverBoth(ws') && ws'[|steps'|] == w';
  }

  /** The first of two members, as the run needs it. */
  function Srv(term: nat, vote: int, role: Role, granted: bool): Server {
    Server(0, term, vote, role, Log(0, []), 0, 0, 0, 0, 10, [Peer(1, 0, false), Peer(1, 0, granted)], [])
  }

  function Two(a: Server, wa: nat, b: Server, wb: nat): World {
    World([Quorum(a, wa), Quorum(b, wb)], Copying([]), [])
  }

  const IDLE := Srv(0, NOBODY, Follower, false)
  const ASKING := Srv(1, 0, Candidate, false)
  const LEADING := Srv(1, 0, Leader, true)
  const BEHIND := Srv(2, NOBODY, Follower, true)
  const ASK := Period(true, (_: nat) => -1)
  const VOTE := VoteReplyIn(1, VoteReply(1, true))
  const NEWS := AppendIn(AppendEntries(2, 0, 0, 0, []))

  lemma Asks()
    ensures Serve(IDLE, ASK) == Running(ASKING)
  {
    var s := IDLE;
    assert BecomeCandidate(s).peers == s.peers;
    assert BecomeCandidate(s) == ASKING;
  }

  lemma Wins()
    ensures Serve(ASKING, VOTE) == Running(LEADING)
  {
    var s := ASKING.(peers := ASKING.peers[1 := ASKING.peers[1].(granted := true)]);
    assert Granters(s) == {1};
    assert BecomeLeader(s).peers == LEADING.peers;
  }

  lemma StepsDown()
    ensures Serve(LEADING, NEWS) == Running(BEHIND)
  {
    assert AdoptTerm(LEADING, 2) == BEHIND;
  }

  lemma Handled(a: Server, wa: nat, b: Server, wb: nat, ev: Event, a': Server)
    requires Reached(Two(a, wa, b, wb)) && Serve(a, ev) == Running(a')
    requires TermsFit(Two(a', wa, b, wb)) && Apart(Two(a', wa, b, wb))
    ensures Reached(Two(a', wa, b, wb))
  {
    var w := Two(a, wa, b, wb);
    assert w.quorums[0 := Quorum(a', wa)] == [Quorum(a', wa), Quorum(b, wb)];
    Then(w, Handle(0, ev), Two(a', wa, b, wb));
  }

  lemma HandledOther(a: Server, wa: nat, b: Server, wb: nat, ev: Event, b': Server)
    requires Reached(Two(a, wa, b, wb)) && Serve(b, ev) == Running(b')
    requires TermsFit(Two(a, wa, b', wb)) && Apart(Two(a, wa, b', wb))
    ensures Reached(Two(a, wa, b', wb))
  {
    var w := Two(a, wa, b, wb);
    assert w.quorums[1 := Quorum(b', wb)] == [Quorum(a, wa), Quorum(b', wb)];
    Then(w, Handle(1, ev), Two(a, wa, b', wb));
  }

  lemma Published(a: Server, wa: nat, b: Server, wb: nat)
    requires Reached(Two(a, wa, b, wb)) && a.term < 9 && b.term < 9 && Apart(Two(a, wa, b, wb))
    ensures Reached(Two(a, Word(a), b, wb))
  {
    var w := Two(a, wa, b, wb);
    assert w.quorums[0 := Quorum(a, Word(a))] == [Quorum(a, Word(a)), Quorum(b, wb)];
    Then(w, Publish(0), Two(a, Word(a), b, wb));
  }

  lemma PublishedOther(a: Server, wa: nat, b: Server, wb: nat)
    requires Reached(Two(a, wa, b, wb)) && a.term < 9 && b.term < 9 && Apart(Two(a, wa, b, wb))
    ensures Reached(Two(a, wa, b, Word(b)))
  {
    var w := Two(a, wa, b, wb);
    assert w.quorums[1 := Quorum(b, Word(b))] == [Quorum(a, wa), Quorum(b, Word(b))];
    Then(w, Publish(1), Two(a, wa, b, Word(b)));
  }

  lemma Begins()
    ensures Reached(Two(IDLE, UNPUBLISHED, IDLE, UNPUBLISHED))
  {
    var w := Two(IDLE, UNPUBLISHED, IDLE, UNPUBLISHED);
    var none: seq<Step> := [];
    assert IsRun([w], none) && NeverBoth([w]) && [w][|none|] == w;
  }

  lemma FirstLeads()
    ensures Reached(Two(LEADING, UNPUBLISHED, IDLE, UNPUBLISHED))
  {
    Begins();
    Asks();
    Handled(IDLE, UNPUBLISHED, IDLE, UNPUBLISHED, ASK, ASKING);
    Wins();
    Handled(ASKING, UNPUBLISHED, IDLE, UNPUBLISHED, VOTE, LEADING);
  }

  /** Quorum 0 has published the word of its leader of term 1 and moved on to term 2. */
  lemma FirstPublished()
    ensures Reached(Two(BEHIND, 3, IDLE, UNPUBLISHED))
  {
    FirstLeads();
    Published(LEADING, UNPUBLISHED, IDLE, UNPUBLISHED);
    StepsDown();
    Handled(LEADING, 3, IDLE, UNPUBLISHED, NEWS, BEHIND);
  }

  lemma BothPublished()
    ensures Reached(Two(BEHIND, 3, LEADING, 3))
  {
    FirstPublished();
    Asks();
    HandledOther(BEHIND, 3, IDLE, UNPUBLISHED, ASK, ASKING);
    Wins();
    HandledOther(BEHIND, 3, ASKING, UNPUBLISHED, VOTE, LEADING);
    PublishedOther(BEHIND, 3, LEADING, UNPUBLISHED);
  }

  lemma Copied(w: World)
    requires w == Two(BEHIND, 3, LEADING, 3)
    ensures Reached(w.(reader := Copying([3, 3])))
  {
    BothPublished();
    var w1 := w.(reader := Copying([3]));
    assert [] + [3] == [3] && [3] + [3] == [3, 3];
    Then(w, Read, w1);
    Then(w1, Read, w.(reader := Copying([3, 3])));
  }

  /** The reader succeeds, and in no state of the run do both servers lead. */
  lemma NoCommonMoment() returns (ws: seq<World>, steps: seq<Step>)
    ensures IsRun(ws, steps) && ws[|steps|].reader == Finished(true, [3, 3])
    ensures forall f {:trigger ws[f]} :: 0 <= f < |ws| ==>
              |ws[f].quorums| == 2 && !(Leading(ws[f].quorums[0].server) && Leading(ws[f].quorums[1].server))
  {
    var w := Two(BEHIND, 3, LEADING, 3);
    Copied(w);
    var w3 := w.(reader := Comparing([3, 3], 0), fenced := Words(w));
    Then(w.(reader := Copying([3, 3])), Fence, w3);
    var w4 := w3.(reader := Comparing([3, 3], 1));
    Then(w3, Compare, w4);
    var w5 := w3.(reader := Comparing([3, 3], 2));
    Then(w4, Compare, w5);
    var w6 := w3.(reader := Finished(true, [3, 3]));
    Then(w5, Compare, w6);
    ws, steps :| IsRun(ws, steps) && NeverBoth(ws) && ws[|steps|] == w6;
    assert forall f {:trigger ws[f]} :: 0 <= f < |ws| ==> Apart(ws[f]);
  }
}
