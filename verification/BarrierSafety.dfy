/** Barrier unanimity: what every step of leader and followers keeps, and what follows when
    the leader returns 1. */
module BarrierSafety {
  import opened Common
  import opened Barrier

  // ----- the invariant -----

  /** A round that the leader has not finished. */
  predicate Open(w: World, r: nat) {
    w.next <= r || (w.next == r + 1 && !w.leader.Idle?)
  }

  predicate Inside(pc: FollowerPc) {
    pc.Join? || pc.Held? || pc.ReadSuccess? || pc.Leave?
  }

  ghost predicate LeaderOk(w: World) {
    && (!w.leader.Idle? ==> w.leader.r + 1 == w.next)
    && (w.stable % 2 == 1 <==> Preparing(w.leader))
    && (if w.next == 0 then w.nonce == None else w.leader.Odd? || w.nonce == Some(w.next - 1))
  }

  ghost predicate FollowerOk(g: Config, w: World, f: nat)
    requires f < |w.followers| == |w.exec|
  {
    var pc := w.followers[f];
    !pc.Away? ==>
      && f != g.lead && f in g.rounds(pc.r).mask && w.exec[f] <= g.rounds(pc.r).bound(f)
      && (f, pc.r) in w.tried && (f, pc.r) !in w.returned && Open(w, pc.r)
      && (pc.Compare? || pc.Reread? ==> pc.stable % 2 == 0 && pc.stable <= w.stable)
      && (pc.Reread? && pc.stable == w.stable ==> w.nonce == Some(pc.r))
      && (Inside(pc) ==> Running(w.leader) && w.next == pc.r + 1)
      && (pc.Held? || pc.ReadSuccess? || pc.Leave? ==> (f, pc.r) in w.joins && f in w.joined)
      && (pc.Leave? && w.success ==> pc.success)
  }

  /** Once a round is over, each of its followers has been and gone, or has executed a
      term that keeps it from ever coming. */
  ghost predicate Gone(g: Config, w: World, r: nat, f: nat)
    requires f < |w.exec|
  {
    (f, r) in w.returned || w.exec[f] > g.rounds(r).bound(f)
  }

  ghost predicate ClosedOk(g: Config, w: World)
    requires |w.exec| == g.cores
  {
    && (forall r: nat, f: nat {:trigger Gone(g, w, r, f)} ::
          !Open(w, r) && f < g.cores && f in g.rounds(r).mask && f != g.lead ==> Gone(g, w, r, f))
    && (forall k {:trigger w.returned[k]} :: k in w.returned ==> k in w.tried)
  }

  /** While a round is set up nobody takes part, and words already written stay. */
  ghost predicate PrepOk(w: World)
    requires Preparing(w.leader)
  {
    var pc := w.leader;
    && w.joined == {} && w.left == {} && w.flagged == {}
    && (pc.Hopeful? || pc.Cleared0? || pc.Cleared1? ==> w.success)
    && (pc.Cleared0? || pc.Cleared1? ==> w.b0 == {})
    && (pc.Cleared1? ==> w.b1 == {})
  }

  ghost predicate WordsOk(g: Config, w: World)
    requires Running(w.leader)
  {
    var pc := w.leader;
    && w.b0 == (if pc.Even? then {} else {g.lead}) + w.joined + w.flagged
    && w.b1 == (if pc.Excuse? || pc.Last? then {g.lead} else {}) + w.left + (if pc.Last? then w.flagged else {})
    && (w.success <==> w.flagged == {} && !pc.Fail?)
  }

  ghost predicate FlagsOk(g: Config, w: World)
    requires Running(w.leader) && |w.exec| == g.cores
  {
    var pc, round := w.leader, g.rounds(w.leader.r);
    && (forall c {:trigger c in w.flagged} :: c in w.flagged ==>
        c in round.mask && c < g.cores && w.exec[c] > round.bound(c))
    && (pc.Even? ==> w.flagged == {})
    && (pc.Wait? || pc.Out? || pc.Excuse? || pc.Last? ==> pc.failed == w.flagged)
    && (pc.Check? ==> forall c {:trigger c in w.flagged} :: c in w.flagged && c < pc.i ==> c in pc.failed)
    && (pc.Check? || pc.Fail? ==> forall c {:trigger c in pc.failed} :: c in pc.failed ==>
        c < g.cores && w.exec[c] > round.bound(c))
    && (pc.Fail? ==> pc.failed != {} && w.flagged <= pc.failed && pc.failed <= round.mask)
    && (pc.Out? || pc.Excuse? || pc.Last? ==> w.b0 == round.mask)
  }

  ghost predicate PartOk(g: Config, w: World)
    requires Running(w.leader)
  {
    var r := w.leader.r;
    && (forall f {:trigger f in w.joined} :: f in w.joined ==>
        f in g.rounds(r).mask && f != g.lead && (f, r) in w.joins)
    && (forall f {:trigger f in w.left} :: f in w.left ==>
                                             && f in w.joined && (f, r) in w.returned
                                             && (w.success ==> w.returned[(f, r)]))
  }

  /** The promise about the finished rounds. */
  ghost predicate Unanimous(g: Config, w: World, r: nat) {
    forall f {:trigger f in g.rounds(r).mask} :: f in g.rounds(r).mask && f != g.lead ==>
                                                  (f, r) in w.joins && (f, r) in w.returned && w.returned[(f, r)]
  }

  ghost predicate ResultsOk(g: Config, w: World) {
    forall r {:trigger w.results[r]} :: r in w.results && w.results[r] ==> Unanimous(g, w, r)
  }

  ghost predicate RoundOk(g: Config, w: World)
    requires |w.exec| == g.cores
  {
    && (Preparing(w.leader) ==> PrepOk(w))
    && (Running(w.leader) ==> WordsOk(g, w) && FlagsOk(g, w) && PartOk(g, w))
  }

  ghost predicate FollowersOk(g: Config, w: World)
    requires |w.exec| == |w.followers| == g.cores
  {
    forall f {:trigger FollowerOk(g, w, f)} :: 0 <= f < g.cores ==> FollowerOk(g, w, f)
  }

  ghost predicate Inv(g: Config, w: World) {
    && |w.exec| == |w.followers| == g.cores
    && LeaderOk(w) && ClosedOk(g, w) && ResultsOk(g, w) && RoundOk(g, w) && FollowersOk(g, w)
  }

  // ----- the leader moves -----

  /** When the leader finishes a round, each of its followers is gone, and if nobody was
      flagged then all of them joined and returned 1. */
  lemma FinishGone(g: Config, w: World, f: nat)
    requires |w.exec| == g.cores && RoundOk(g, w) && w.leader.Last? && w.b1 == g.rounds(w.leader.r).mask
    requires f in g.rounds(w.leader.r).mask && f != g.lead && f < g.cores
    ensures Gone(g, w, w.leader.r, f)
    ensures w.leader.failed == {} ==> var k := (f, w.leader.r); k in w.joins && k in w.returned && w.returned[k]
  {
    assert f in w.b1;
    assert f in w.left || f in w.flagged;
  }

  lemma SetupMoves(g: Config, w: World, w': World)
    requires Proper(g) && |w.exec| == g.cores && LeaderOk(w) && RoundOk(g, w)
    requires !Running(w.leader) && w' == LeaderNext(g, w)
    ensures LeaderOk(w') && RoundOk(g, w')
  {
  }

  lemma CheckOne(g: Config, w: World, w': World)
    requires Proper(g) && |w.exec| == g.cores && RoundOk(g, w)
    requires w.leader.Check? && w.leader.i < g.cores && w' == LeaderNext(g, w)
    ensures RoundOk(g, w')
  {
  }

  lemma CheckEnd(g: Config, w: World, w': World)
    requires Proper(g) && |w.exec| == g.cores && RoundOk(g, w)
    requires w.leader.Check? && w.leader.i >= g.cores && w' == LeaderNext(g, w)
    ensures RoundOk(g, w')
  {
    var pc := w.leader;
    assert w.flagged <= pc.failed * g.rounds(pc.r).mask;
  }

  lemma FailMoves(g: Config, w: World, w': World)
    requires Proper(g) && |w.exec| == g.cores && RoundOk(g, w) && w.leader.Fail? && w' == LeaderNext(g, w)
    ensures RoundOk(g, w')
  {
    assert w.flagged + w.leader.failed == w.leader.failed;
  }

  lemma OtherMoves(g: Config, w: World, w': World)
    requires Proper(g) && |w.exec| == g.cores && RoundOk(g, w) && w' == LeaderNext(g, w)
    requires w.leader.Wait? || w.leader.Last?
    ensures RoundOk(g, w')
  {
  }

  lemma EvenMoves(g: Config, w: World, w': World)
    requires Proper(g) && |w.exec| == g.cores && RoundOk(g, w) && w' == LeaderNext(g, w) && w.leader.Even?
    ensures RoundOk(g, w')
  {
  }

  lemma OutMoves(g: Config, w: World, w': World)
    requires Proper(g) && |w.exec| == g.cores && RoundOk(g, w) && w' == LeaderNext(g, w)
    requires w.leader.Out? || w.leader.Excuse?
    ensures RoundOk(g, w')
  {
  }

  lemma LeaderStays(g: Config, w: World, w': World)
    requires |w.exec| == g.cores && LeaderOk(w) && Running(w.leader) && w' == LeaderNext(g, w)
    ensures LeaderOk(w')
  {
  }

  lemma LeaderMoves(g: Config, w: World, w': World)
    requires Proper(g) && |w.exec| == g.cores && LeaderOk(w) && RoundOk(g, w) && w' == LeaderNext(g, w)
    ensures LeaderOk(w') && RoundOk(g, w')
  {
    if !Running(w.leader) {
      SetupMoves(g, w, w');
    } else {
      LeaderStays(g, w, w');
      match w.leader
      case Even(_) => EvenMoves(g, w, w');
      case Fail(_, _) => FailMoves(g, w, w');
      case Out(_, _) => OutMoves(g, w, w');
      case Excuse(_, _) => OutMoves(g, w, w');
      case Check(_, i, _) =>
        if i < g.cores {
          CheckOne(g, w, w');
        } else {
          CheckEnd(g, w, w');
        }
      case _ => OtherMoves(g, w, w');
    }
  }

  /** What a follower sees of a step of the leader. */
  ghost predicate Seen(w: World, w': World) {
    && w'.followers == w.followers && w'.exec == w.exec && w'.tried == w.tried && w'.joins == w.joins
    && w'.returned == w.returned
    && w.stable <= w'.stable && (w'.stable == w.stable && w.stable % 2 == 0 ==> w'.nonce == w.nonce)
    && (Running(w.leader) && !w'.leader.Idle? ==>
        Running(w'.leader) && w'.next == w.next && (w'.success ==> w.success) && w'.joined == w.joined)
    && (forall r: nat {:trigger Open(w', r)} :: Open(w, r) ==>
        Open(w', r) || (w.leader.Last? && w.leader.r == r && w'.leader.Idle?))
  }

  lemma SetupSeen(g: Config, w: World, w': World)
    requires |w.exec| == g.cores && LeaderOk(w) && !Running(w.leader) && w' == LeaderNext(g, w)
    ensures Seen(w, w')
  {
  }

  lemma RoundSeen(g: Config, w: World, w': World)
    requires |w.exec| == g.cores && LeaderOk(w) && Running(w.leader) && w' == LeaderNext(g, w)
    ensures Seen(w, w')
  {
  }

  lemma LeaderSeen(g: Config, w: World, w': World)
    requires |w.exec| == g.cores && LeaderOk(w) && w' == LeaderNext(g, w)
    ensures Seen(w, w')
  {
    if Running(w.leader) {
      RoundSeen(g, w, w');
    } else {
      SetupSeen(g, w, w');
    }
  }

  lemma SeenFollower(g: Config, w: World, w': World, f: nat)
    requires |w.exec| == |w.followers| == g.cores && f < g.cores && FollowerOk(g, w, f) && Seen(w, w')
    requires !w.followers[f].Away? ==> Open(w', w.followers[f].r)
    requires Inside(w.followers[f]) ==> !w'.leader.Idle?
    ensures FollowerOk(g, w', f)
  {
  }

  lemma LeaderFollower(g: Config, w: World, w': World, f: nat)
    requires |w.exec| == |w.followers| == g.cores && f < g.cores
    requires LeaderOk(w) && RoundOk(g, w) && FollowerOk(g, w, f) && w' == LeaderNext(g, w)
    ensures FollowerOk(g, w', f)
  {
    LeaderSeen(g, w, w');
    var pc := w.followers[f];
    if !pc.Away? {
      assert Open(w, pc.r);
      if w.leader.Last? && pc.r == w.leader.r && w'.leader.Idle? {
        FinishGone(g, w, f);
      } else {
        assert Open(w', pc.r);
      }
      SeenFollower(g, w, w', f);
    }
  }

  lemma LeaderClosed(g: Config, w: World, w': World)
    requires Proper(g) && |w.exec| == g.cores && LeaderOk(w) && RoundOk(g, w) && ClosedOk(g, w) && ResultsOk(g, w)
    requires w' == LeaderNext(g, w)
    ensures ClosedOk(g, w') && ResultsOk(g, w')
  {
    LeaderSeen(g, w, w');
    forall r: nat, f: nat | !Open(w', r) && f < g.cores && f in g.rounds(r).mask && f != g.lead
      ensures Gone(g, w', r, f)
    {
      if Open(w, r) {
        FinishGone(g, w, f);
      } else {
        assert Gone(g, w, r, f);
      }
    }
    forall r | r in w'.results && w'.results[r]
      ensures Unanimous(g, w', r)
    {
      if r in w.results && w.results[r] {
        assert Unanimous(g, w, r);
      } else {
        forall f | f in g.rounds(r).mask && f != g.lead
          ensures (f, r) in w'.joins && (f, r) in w'.returned && w'.returned[(f, r)]
        {
          FinishGone(g, w, f);
        }
      }
    }
  }

  // ----- a follower moves -----

  lemma JoinIsRunning(g: Config, w: World, f: nat)
    requires |w.exec| == |w.followers| == g.cores && f < g.cores && LeaderOk(w) && FollowerOk(g, w, f)
    requires w.followers[f].Reread? && w.followers[f].stable == w.stable
    ensures Running(w.leader) && w.next == w.followers[f].r + 1
  {
  }

  lemma FollowerSelf(g: Config, w: World, f: nat, same: bool, w': World)
    requires Proper(g) && |w.exec| == |w.followers| == g.cores && f < g.cores && LeaderOk(w) && FollowerOk(g, w, f)
    requires Enabled(g, w, Follower(f, same)) && w' == FollowerNext(g, w, f, same)
    ensures FollowerOk(g, w', f)
  {
    var pc := w.followers[f];
    if pc.Reread? && pc.stable == w.stable {
      JoinIsRunning(g, w, f);
    }
  }

  lemma FollowerOther(g: Config, w: World, f: nat, same: bool, w': World, f2: nat)
    requires Proper(g) && |w.exec| == |w.followers| == g.cores && f < g.cores && f2 < g.cores && f2 != f
    requires FollowerOk(g, w, f2) && w' == FollowerNext(g, w, f, same)
    ensures FollowerOk(g, w', f2)
  {
    assert w'.followers[f2] == w.followers[f2];
  }

  lemma JoinRound(g: Config, w: World, f: nat, w': World)
    requires Proper(g) && |w.exec| == |w.followers| == g.cores && f < g.cores && LeaderOk(w) && RoundOk(g, w)
    requires FollowerOk(g, w, f) && w.followers[f].Join? && w' == FollowerNext(g, w, f, true)
    ensures RoundOk(g, w')
  {
    assert w.leader.Out? || w.leader.Excuse? || w.leader.Last? ==> w.b0 + {f} == g.rounds(w.leader.r).mask;
  }

  lemma LeaveRound(g: Config, w: World, f: nat, w': World)
    requires Proper(g) && |w.exec| == |w.followers| == g.cores && f < g.cores && LeaderOk(w) && RoundOk(g, w)
    requires FollowerOk(g, w, f) && w.followers[f].Leave? && w' == FollowerNext(g, w, f, true)
    ensures RoundOk(g, w')
  {
  }

  lemma TryRound(g: Config, w: World, f: nat, w': World)
    requires Proper(g) && |w.exec| == |w.followers| == g.cores && f < g.cores && LeaderOk(w) && RoundOk(g, w)
    requires FollowerOk(g, w, f) && w.followers[f].Try? && w' == FollowerNext(g, w, f, true)
    ensures RoundOk(g, w')
  {
  }

  lemma FollowerRound(g: Config, w: World, f: nat, same: bool, w': World)
    requires Proper(g) && |w.exec| == |w.followers| == g.cores && f < g.cores && LeaderOk(w) && RoundOk(g, w)
    requires FollowerOk(g, w, f) && w' == FollowerNext(g, w, f, same)
    ensures RoundOk(g, w')
  {
    match w.followers[f]
    case Join(_) => JoinRound(g, w, f, w');
    case Leave(_, _) => LeaveRound(g, w, f, w');
    case Try(_) => TryRound(g, w, f, w');
    case _ => QuietRound(g, w, w');
  }

  /** The round does not depend on where the followers are. */
  lemma QuietRound(g: Config, w: World, w': World)
    requires |w.exec| == g.cores && RoundOk(g, w) && w' == w.(followers := w'.followers)
    ensures RoundOk(g, w')
  {
  }

  lemma FollowerClosed(g: Config, w: World, f: nat, same: bool, w': World)
    requires Proper(g) && |w.exec| == |w.followers| == g.cores && f < g.cores
    requires FollowerOk(g, w, f) && ClosedOk(g, w) && ResultsOk(g, w) && w' == FollowerNext(g, w, f, same)
    ensures ClosedOk(g, w') && ResultsOk(g, w')
  {
    forall r: nat, f2: nat | !Open(w', r) && f2 < g.cores && f2 in g.rounds(r).mask && f2 != g.lead
      ensures Gone(g, w', r, f2)
    {
      assert Gone(g, w, r, f2);
    }
    forall r | r in w'.results && w'.results[r]
      ensures Unanimous(g, w', r)
    {
      assert Unanimous(g, w, r);
    }
  }

  // ----- coming, and moving on to a later term -----

  lemma EnterInv(g: Config, w: World, f: nat, r: nat)
    requires Proper(g) && Inv(g, w) && Enabled(g, w, Enter(f, r))
    ensures Inv(g, Next(g, w, Enter(f, r)))
  {
    var w' := Next(g, w, Enter(f, r));
    assert !Gone(g, w, r, f);
    assert Open(w, r);
    forall f2 | 0 <= f2 < g.cores
      ensures FollowerOk(g, w', f2)
    {
      assert FollowerOk(g, w, f2);
    }
    forall r2: nat, f2: nat | !Open(w', r2) && f2 < g.cores && f2 in g.rounds(r2).mask && f2 != g.lead
      ensures Gone(g, w', r2, f2)
    {
      assert Gone(g, w, r2, f2);
    }
    forall r2 | r2 in w'.results && w'.results[r2]
      ensures Unanimous(g, w', r2)
    {
      assert Unanimous(g, w, r2);
    }
  }

  lemma RaiseInv(g: Config, w: World, c: nat, term: nat)
    requires Proper(g) && Inv(g, w) && Enabled(g, w, Raise(c, term))
    ensures Inv(g, Next(g, w, Raise(c, term)))
  {
    var w' := Next(g, w, Raise(c, term));
    forall f | 0 <= f < g.cores
      ensures FollowerOk(g, w', f)
    {
      assert FollowerOk(g, w, f);
    }
    forall r: nat, f: nat | !Open(w', r) && f < g.cores && f in g.rounds(r).mask && f != g.lead
      ensures Gone(g, w', r, f)
    {
      assert Gone(g, w, r, f);
    }
    forall r | r in w'.results && w'.results[r]
      ensures Unanimous(g, w', r)
    {
      assert Unanimous(g, w, r);
    }
  }

  lemma StepInv(g: Config, w: World, step: Step)
    requires Proper(g) && Inv(g, w) && Enabled(g, w, step)
    ensures Inv(g, Next(g, w, step))
  {
    var w' := Next(g, w, step);
    match step
    case Enter(f, r) => EnterInv(g, w, f, r);
    case Raise(c, term) => RaiseInv(g, w, c, term);
    case Leader =>
      LeaderMoves(g, w, w');
      LeaderClosed(g, w, w');
      forall f | 0 <= f < g.cores
        ensures FollowerOk(g, w', f)
      {
        assert FollowerOk(g, w, f);
        LeaderFollower(g, w, w', f);
      }
    case Follower(f, same) =>
      assert FollowerOk(g, w, f);
      FollowerRound(g, w, f, same, w');
      FollowerClosed(g, w, f, same, w');
      forall f2 | 0 <= f2 < g.cores
        ensures FollowerOk(g, w', f2)
      {
        assert FollowerOk(g, w, f2);
        if f2 == f {
          FollowerSelf(g, w, f, same, w');
        } else {
          FollowerOther(g, w, f, same, w', f2);
        }
      }
  }

  lemma {:induction false} RunInv(g: Config, ws: seq<World>, steps: seq<Step>, i: nat)
    requires IsRun(g, ws, steps) && i < |ws|
    ensures Inv(g, ws[i])
  {
    if i > 0 {
      RunInv(g, ws, steps, i - 1);
      assert ws[i] == Next(g, ws[i - 1], steps[i - 1]);
      StepInv(g, ws[i - 1], steps[i - 1]);
    }
  }

  /** If the leader of a round returned 1, every other core in the mask joined that round
      itself and returned 1 from it. */
  lemma BarrierUnanimity(g: Config, ws: seq<World>, steps: seq<Step>, i: nat, r: nat, f: nat)
    requires IsRun(g, ws, steps) && i < |ws|
    requires r in ws[i].results && ws[i].results[r]
    requires f in g.rounds(r).mask && f != g.lead
    ensures (f, r) in ws[i].joins && (f, r) in ws[i].returned && ws[i].returned[(f, r)]
  {
    RunInv(g, ws, steps, i);
    assert Unanimous(g, ws[i], r);
  }

  /** The success word is written for a new round only when no core is still on its way
      from joining to leaving an earlier one. */
  lemma SuccessNotResetEarly(g: Config, ws: seq<World>, steps: seq<Step>, i: nat, f: nat)
    requires IsRun(g, ws, steps) && i < |ws| && f < g.cores
    requires ws[i].leader.Idle? || Preparing(ws[i].leader)
    ensures |ws[i].followers| == g.cores && !Inside(ws[i].followers[f])
  {
    RunInv(g, ws, steps, i);
    assert FollowerOk(g, ws[i], f);
  }
}
