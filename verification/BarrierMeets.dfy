/** What the rendezvous achieves: a round fails only because some core has executed beyond its
    bound, and while none has, the cores can always meet. */
module BarrierMeets {
  import opened Common
  import opened Barrier
  import opened BarrierSafety

  // ----- why a round fails -----

  /** Some core of the round has executed a term beyond its bound. */
  ghost predicate Late(g: Config, w: World, r: nat) {
    exists c: nat :: c in g.rounds(r).mask && c < |w.exec| && g.rounds(r).bound(c) < w.exec[c]
  }

  /** Whoever returned 0, or is about to, did so for that reason. */
  ghost predicate Caused(g: Config, w: World) {
    && (forall r {:trigger w.results[r]} :: r in w.results && !w.results[r] ==> Late(g, w, r))
    && (forall k {:trigger w.returned[k]} :: k in w.returned && !w.returned[k] ==> Late(g, w, k.1))
    && (forall f {:trigger w.followers[f]} ::
          0 <= f < |w.followers| && w.followers[f].Leave? && !w.followers[f].success ==>
            Late(g, w, w.followers[f].r))
  }

  lemma StillLate(g: Config, w: World, w': World, r: nat)
    requires Late(g, w, r) && |w'.exec| == |w.exec|
    requires forall c {:trigger w'.exec[c]} :: 0 <= c < |w.exec| ==> w.exec[c] <= w'.exec[c]
    ensures Late(g, w', r)
  {
    var c: nat :| c in g.rounds(r).mask && c < |w.exec| && g.rounds(r).bound(c) < w.exec[c];
    assert w.exec[c] <= w'.exec[c];
  }

  /** The success word is 0 only when a core of the round is late. */
  lemma UnsuccessfulLate(g: Config, w: World)
    requires |w.exec| == g.cores && RoundOk(g, w) && Running(w.leader) && !w.success
    ensures Late(g, w, w.leader.r)
  {
    if w.leader.Fail? {
      var c :| c in w.leader.failed;
      assert c in g.rounds(w.leader.r).mask && g.rounds(w.leader.r).bound(c) < w.exec[c];
    } else {
      var c :| c in w.flagged;
      assert c in g.rounds(w.leader.r).mask && g.rounds(w.leader.r).bound(c) < w.exec[c];
    }
  }

  /** Whoever returns 0 newly has a cause already. */
  ghost predicate NewlyCaused(g: Config, w: World, w': World) {
    && |w'.exec| == |w.exec| && (forall c {:trigger w'.exec[c]} :: 0 <= c < |w.exec| ==> w.exec[c] <= w'.exec[c])
    && (forall r {:trigger w'.results[r]} :: r in w'.results && !w'.results[r] ==>
          (r in w.results && !w.results[r]) || Late(g, w, r))
    && (forall k {:trigger w'.returned[k]} :: k in w'.returned && !w'.returned[k] ==>
          (k in w.returned && !w.returned[k]) || Late(g, w, k.1))
    && |w'.followers| == |w.followers|
    && (forall f {:trigger w'.followers[f]} :: 0 <= f < |w.followers| ==>
          w'.followers[f] == w.followers[f] || !w'.followers[f].Leave? || w'.followers[f].success
          || Late(g, w, w'.followers[f].r))
  }

  lemma CausedOn(g: Config, w: World, w': World)
    requires Caused(g, w) && NewlyCaused(g, w, w')
    ensures Caused(g, w')
  {
    forall r | Late(g, w, r)
      ensures Late(g, w', r)
    {
      StillLate(g, w, w', r);
    }
    forall f {:trigger w'.followers[f]} | 0 <= f < |w'.followers| && w'.followers[f].Leave? && !w'.followers[f].success
      ensures Late(g, w', w'.followers[f].r)
    {
      assert w'.followers[f] == w.followers[f] ==> Late(g, w, w.followers[f].r);
    }
  }

  lemma LeaderResults(g: Config, w: World)
    requires |w.exec| == g.cores
    ensures var w' := LeaderNext(g, w);
            && w'.returned == w.returned
            && (w'.results == w.results
                || (w.leader.Last? && w'.results == w.results[w.leader.r := w.leader.failed == {}]))
  {
  }

  lemma LeaderCaused(g: Config, w: World, w': World)
    requires |w.exec| == |w.followers| == g.cores && RoundOk(g, w)
    requires w'.exec == w.exec && w'.followers == w.followers && w'.returned == w.returned
    requires w'.results == w.results || (w.leader.Last? && w'.results == w.results[w.leader.r := w.leader.failed == {}])
    ensures NewlyCaused(g, w, w')
  {
    if w.leader.Last? && w.leader.failed != {} {
      UnsuccessfulLate(g, w);
    }
  }

  /** A follower's step that returns something, or learns what it will return. */
  ghost predicate Returns(g: Config, w: World, w': World, f: nat)
    requires f < |w.followers| && g.lead < |w.exec| && !w.followers[f].Away?
  {
    var pc := w.followers[f];
    && w'.exec == w.exec && w'.results == w.results && |w'.followers| == |w.followers|
    && (forall x {:trigger w'.followers[x]} :: 0 <= x < |w.followers| && x != f ==> w'.followers[x] == w.followers[x])
    && (|| w'.returned == w.returned
        || (pc.Try? && w.exec[g.lead] > g.rounds(pc.r).bound(g.lead) && w'.returned == w.returned[(f, pc.r) := false])
        || (pc.Leave? && w'.returned == w.returned[(f, pc.r) := pc.success]))
    && (w'.followers[f].Leave? ==> pc.ReadSuccess? && w'.followers[f] == Leave(pc.r, w.success))
  }

  lemma FollowerReturns(g: Config, w: World, f: nat, same: bool)
    requires f < |w.followers| == |w.exec| == g.cores && g.lead < g.cores && !w.followers[f].Away?
    ensures Returns(g, w, FollowerNext(g, w, f, same), f)
  {
  }

  lemma FollowerCaused(g: Config, w: World, w': World, f: nat)
    requires Proper(g) && |w.exec| == |w.followers| == g.cores && RoundOk(g, w) && f < g.cores && FollowerOk(g, w, f)
    requires !w.followers[f].Away? && Caused(g, w) && LeaderOk(w) && Returns(g, w, w', f)
    ensures NewlyCaused(g, w, w')
  {
    var pc := w.followers[f];
    if pc.Try? && w.exec[g.lead] > g.rounds(pc.r).bound(g.lead) {
      assert g.lead in g.rounds(pc.r).mask;
      assert Late(g, w, pc.r);
    } else if pc.ReadSuccess? && !w.success {
      UnsuccessfulLate(g, w);
    } else if pc.Leave? && !pc.success {
      assert Late(g, w, pc.r);
    }
  }

  lemma StepCaused(g: Config, w: World, step: Step)
    requires Proper(g) && Inv(g, w) && Caused(g, w) && Enabled(g, w, step)
    ensures Caused(g, Next(g, w, step))
  {
    match step {
      case Leader =>
        LeaderResults(g, w);
        LeaderCaused(g, w, LeaderNext(g, w));
      case Follower(f, same) =>
        assert FollowerOk(g, w, f);
        FollowerReturns(g, w, f, same);
        FollowerCaused(g, w, FollowerNext(g, w, f, same), f);
      case _ =>
    }
    CausedOn(g, w, Next(g, w, step));
  }

  lemma {:induction false} CausedAt(g: Config, ws: seq<World>, steps: seq<Step>, i: nat)
    requires IsRun(g, ws, steps) && i < |ws|
    ensures Caused(g, ws[i])
  {
    if i > 0 {
      CausedAt(g, ws, steps, i - 1);
      RunInv(g, ws, steps, i - 1);
      assert Enabled(g, ws[i - 1], steps[i - 1]);
      StepCaused(g, ws[i - 1], steps[i - 1]);
    }
  }

  /** In every interleaving, if the leader or a follower returns 0 from a round, then some core
      of the round has executed a term beyond its bound. */
  lemma FailsOnlyWhenLate(g: Config, ws: seq<World>, steps: seq<Step>, i: nat, r: nat, f: nat)
    requires IsRun(g, ws, steps) && i < |ws|
    requires (r in ws[i].results && !ws[i].results[r]) || ((f, r) in ws[i].returned && !ws[i].returned[(f, r)])
    ensures Late(g, ws[i], r)
  {
    CausedAt(g, ws, steps, i);
  }

  // ----- the cores can meet -----

  lemma StepOn(g: Config, ws: seq<World>, steps: seq<Step>, step: Step) returns (ws': seq<World>, steps': seq<Step>)
    requires IsRun(g, ws, steps) && Enabled(g, ws[|steps|], step)
    ensures IsRun(g, ws', steps') && ws <= ws' && steps' == steps + [step]
    ensures ws'[|steps'|] == Next(g, ws[|steps|], step)
  {
    ws', steps' := ws + [Next(g, ws[|steps|], step)], steps + [step];
    forall i {:trigger steps'[i]} | 0 <= i < |steps'|
      ensures Enabled(g, ws'[i], steps'[i]) && ws'[i + 1] == Next(g, ws'[i], steps'[i])
    {
      assert i < |steps| ==> steps'[i] == steps[i];
    }
  }

  /** The run goes on and ends in this world. */
  ghost predicate Leads(g: Config, ws: seq<World>, steps: seq<Step>, ws': seq<World>, steps': seq<Step>, w': World) {
    IsRun(g, ws', steps') && ws <= ws' && steps <= steps' && ws'[|steps'|] == w'
  }

  /** The followers of the round. */
  ghost function Party(g: Config, r: nat): set<nat> {
    g.rounds(r).mask - {g.lead}
  }

  /** No core of round r is late, and none of its followers in `todo` has come yet. */
  ghost predicate Prompt(g: Config, w: World, r: nat, todo: set<nat>) {
    && Proper(g) && |w.exec| == |w.followers| == g.cores && !Late(g, w, r) && todo <= Party(g, r)
    && forall f {:trigger f in todo} :: f in todo ==> f < g.cores && w.followers[f].Away? && (f, r) !in w.tried
  }

  /** Round r is on, those of its followers that are not in `todo` hold, nobody is late. */
  ghost predicate Gathering(g: Config, w: World, r: nat, todo: set<nat>) {
    && Prompt(g, w, r, todo) && w.leader == Wait(r, {}) && w.stable % 2 == 0 && w.nonce == Some(r) && w.success
    && w.b0 == g.rounds(r).mask - todo && w.b1 == {}
    && forall f {:trigger f in Party(g, r)} :: f in Party(g, r) && f !in todo ==>
         f < g.cores && w.followers[f] == Held(r)
  }

  lemma Within(g: Config, w: World, r: nat, c: nat)
    requires Proper(g) && |w.exec| == g.cores && !Late(g, w, r) && c in g.rounds(r).mask
    ensures c < g.cores && w.exec[c] <= g.rounds(r).bound(c)
  {
  }

  /** The leader opens the next round. */
  lemma Opens(g: Config, ws: seq<World>, steps: seq<Step>) returns (ws': seq<World>, steps': seq<Step>)
    requires IsRun(g, ws, steps) && ws[|steps|].leader.Idle? && ws[|steps|].stable % 2 == 0
    requires Prompt(g, ws[|steps|], ws[|steps|].next, Party(g, ws[|steps|].next))
    ensures IsRun(g, ws', steps') && ws <= ws' && steps <= steps'
    ensures var r := ws[|steps|].next; Gathering(g, ws'[|steps'|], r, Party(g, r))
  {
    var r := ws[|steps|].next;
    ws', steps' := StepOn(g, ws, steps, Leader);
    ws', steps' := StepOn(g, ws', steps', Leader);
    ws', steps' := StepOn(g, ws', steps', Leader);
    ws', steps' := StepOn(g, ws', steps', Leader);
    ws', steps' := StepOn(g, ws', steps', Leader);
    ws', steps' := StepOn(g, ws', steps', Leader);
    ws', steps' := StepOn(g, ws', steps', Leader);
    OpenedNow(g, ws[|steps|], ws'[|steps'|], r);
  }

  lemma OpenedNow(g: Config, w: World, w': World, r: nat)
    requires Prompt(g, w, r, Party(g, r)) && w.stable % 2 == 0
    requires w' == w.(leader := Wait(r, {}), next := r + 1, stable := w.stable + 2, nonce := Some(r), success := true,
                      b0 := {} + {g.lead}, b1 := {}, joined := {}, left := {}, flagged := {})
    ensures Gathering(g, w', r, Party(g, r))
  {
    assert g.lead in g.rounds(r).mask;
    assert {} + {g.lead} == g.rounds(r).mask - Party(g, r);
  }

  /** The world after follower f has come and joined. */
  ghost function Joined(w: World, f: nat, r: nat): World
    requires f < |w.followers|
  {
    w.(followers := w.followers[f := Held(r)], tried := w.tried + {(f, r)}, b0 := w.b0 + {f}, joined := w.joined + {f},
       joins := w.joins + {(f, r)})
  }

  lemma Comes(g: Config, ws: seq<World>, steps: seq<Step>, r: nat, f: nat) returns (ws': seq<World>, steps': seq<Step>)
    requires IsRun(g, ws, steps)
    requires var w := ws[|steps|];
             && |w.exec| == |w.followers| == g.cores && f < g.cores && f != g.lead && f in g.rounds(r).mask
             && w.followers[f].Away? && (f, r) !in w.tried && w.exec[f] <= g.rounds(r).bound(f)
             && w.exec[g.lead] <= g.rounds(r).bound(g.lead) && w.stable % 2 == 0 && w.nonce == Some(r)
    ensures Leads(g, ws, steps, ws', steps', Joined(ws[|steps|], f, r))
  {
    var w := ws[|steps|];
    ws', steps' := StepOn(g, ws, steps, Enter(f, r));
    ws', steps' := StepOn(g, ws', steps', Follower(f, true));
    ws', steps' := StepOn(g, ws', steps', Follower(f, true));
    ws', steps' := StepOn(g, ws', steps', Follower(f, true));
    ws', steps' := StepOn(g, ws', steps', Follower(f, true));
    ws', steps' := StepOn(g, ws', steps', Follower(f, true));
    assert ws'[|steps'|].followers == w.followers[f := Held(r)];
  }

  lemma JoinedOn(g: Config, w: World, r: nat, todo: set<nat>, f: nat)
    requires Gathering(g, w, r, todo) && f in todo
    ensures Gathering(g, Joined(w, f, r), r, todo - {f})
  {
    var w' := Joined(w, f, r);
    assert f in Party(g, r);
    assert w'.b0 == g.rounds(r).mask - (todo - {f});
    assert !Late(g, w', r) by {
      assert w'.exec == w.exec;
      if Late(g, w', r) {
        StillLate(g, w', w, r);
      }
    }
  }

  lemma {:induction false} AllCome(g: Config, ws: seq<World>, steps: seq<Step>, r: nat, todo: set<nat>)
    returns (ws': seq<World>, steps': seq<Step>)
    requires IsRun(g, ws, steps) && Gathering(g, ws[|steps|], r, todo)
    ensures IsRun(g, ws', steps') && ws <= ws' && steps <= steps' && Gathering(g, ws'[|steps'|], r, {})
    decreases |todo|
  {
    if todo == {} {
      ws', steps' := ws, steps;
    } else {
      var f :| f in todo;
      var w := ws[|steps|];
      assert f in Party(g, r) && g.lead in g.rounds(r).mask;
      Within(g, w, r, f);
      Within(g, w, r, g.lead);
      var ws1, steps1 := Comes(g, ws, steps, r, f);
      JoinedOn(g, w, r, todo, f);
      ws', steps' := AllCome(g, ws1, steps1, r, todo - {f});
    }
  }

  /** All have met; those in `todo` still hold, the others have returned 1. */
  ghost predicate Parting(g: Config, w: World, r: nat, todo: set<nat>) {
    && Proper(g) && |w.exec| == |w.followers| == g.cores && todo <= Party(g, r)
    && w.leader == Last(r, {}) && w.success && w.b0 == g.rounds(r).mask && w.b1 == g.rounds(r).mask - todo
    && (forall f {:trigger f in todo} :: f in todo ==> f < g.cores && w.followers[f] == Held(r))
    && (forall f {:trigger f in Party(g, r)} :: f in Party(g, r) && f !in todo ==>
          (f, r) in w.returned && w.returned[(f, r)])
  }

  lemma Meets(g: Config, ws: seq<World>, steps: seq<Step>, r: nat) returns (ws': seq<World>, steps': seq<Step>)
    requires IsRun(g, ws, steps) && Gathering(g, ws[|steps|], r, {})
    ensures IsRun(g, ws', steps') && ws <= ws' && steps <= steps' && Parting(g, ws'[|steps'|], r, Party(g, r))
  {
    var w := ws[|steps|];
    assert w.b0 == g.rounds(r).mask;
    ws', steps' := StepOn(g, ws, steps, Leader);
    ws', steps' := StepOn(g, ws', steps', Leader);
    ws', steps' := StepOn(g, ws', steps', Leader);
    var w' := ws'[|steps'|];
    assert w' == w.(leader := Last(r, {}), b1 := {} + {g.lead} + {});
    assert g.lead in g.rounds(r).mask;
    assert w'.b1 == g.rounds(r).mask - Party(g, r);
  }

  /** The world after follower f has learnt the result and returned it. */
  ghost function Parted(w: World, f: nat, r: nat): World
    requires f < |w.followers|
  {
    w.(followers := w.followers[f := Away], b1 := w.b1 + {f}, left := w.left + {f},
       returned := w.returned[(f, r) := w.success])
  }

  lemma Goes(g: Config, ws: seq<World>, steps: seq<Step>, r: nat, f: nat) returns (ws': seq<World>, steps': seq<Step>)
    requires IsRun(g, ws, steps)
    requires var w := ws[|steps|];
             && |w.exec| == |w.followers| == g.cores && f < g.cores && w.followers[f] == Held(r)
             && w.b0 == g.rounds(r).mask
    ensures Leads(g, ws, steps, ws', steps', Parted(ws[|steps|], f, r))
  {
    var w := ws[|steps|];
    ws', steps' := StepOn(g, ws, steps, Follower(f, true));
    ws', steps' := StepOn(g, ws', steps', Follower(f, true));
    ws', steps' := StepOn(g, ws', steps', Follower(f, true));
    assert ws'[|steps'|].followers == w.followers[f := Away];
  }

  lemma PartedOn(g: Config, w: World, r: nat, todo: set<nat>, f: nat)
    requires Parting(g, w, r, todo) && f in todo
    ensures Parting(g, Parted(w, f, r), r, todo - {f})
  {
    var w' := Parted(w, f, r);
    assert f in Party(g, r);
    assert w'.b1 == g.rounds(r).mask - (todo - {f});
  }

  lemma {:induction false} AllGo(g: Config, ws: seq<World>, steps: seq<Step>, r: nat, todo: set<nat>)
    returns (ws': seq<World>, steps': seq<Step>)
    requires IsRun(g, ws, steps) && Parting(g, ws[|steps|], r, todo)
    ensures IsRun(g, ws', steps') && ws <= ws' && steps <= steps' && Parting(g, ws'[|steps'|], r, {})
    decreases |todo|
  {
    if todo == {} {
      ws', steps' := ws, steps;
    } else {
      var f :| f in todo;
      var ws1, steps1 := Goes(g, ws, steps, r, f);
      PartedOn(g, ws[|steps|], r, todo, f);
      ws', steps' := AllGo(g, ws1, steps1, r, todo - {f});
    }
  }

  /** From every state of every run in which the leader is between rounds: if no core of the
      next round is late and its followers have not come yet, the run can go on so that the
      leader and all of them return 1 from it. */
  lemma CanMeet(g: Config, ws: seq<World>, steps: seq<Step>) returns (ws': seq<World>, steps': seq<Step>)
    requires IsRun(g, ws, steps) && ws[|steps|].leader.Idle?
    requires Prompt(g, ws[|steps|], ws[|steps|].next, Party(g, ws[|steps|].next))
    ensures IsRun(g, ws', steps') && ws <= ws' && steps <= steps'
    ensures var r, w' := ws[|steps|].next, ws'[|steps'|];
            && r in w'.results && w'.results[r]
            && forall f {:trigger f in Party(g, r)} :: f in Party(g, r) ==> (f, r) in w'.returned && w'.returned[(f, r)]
  {
    var r := ws[|steps|].next;
    RunInv(g, ws, steps, |steps|);
    var ws1, steps1 := Opens(g, ws, steps);
    var ws2, steps2 := AllCome(g, ws1, steps1, r, Party(g, r));
    var ws3, steps3 := Meets(g, ws2, steps2, r);
    var ws4, steps4 := AllGo(g, ws3, steps3, r, Party(g, r));
    assert ws4[|steps4|].b1 == g.rounds(r).mask;
    ws', steps' := StepOn(g, ws4, steps4, Leader);
  }
}
