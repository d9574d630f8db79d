/** Why a follower must come within its bound: a run in which one does not. The leader
    gives it up and goes on to the next round; it then joins late, and both cores take the
    next round, which the follower never came to, for a success. */
module BarrierLate {
  import opened Common
  import opened Barrier

  ghost predicate IsLooseRun(g: Config, ws: seq<World>, steps: seq<Step>) {
    && Proper(g) && |ws| == |steps| + 1 && ws[0] == Init(g)
    && forall i {:trigger steps[i]} :: 0 <= i < |steps| ==>
        Possible(g, ws[i], steps[i]) && ws[i + 1] == Next(g, ws[i], steps[i])
  }

  ghost predicate Reached(g: Config, w: World) {
    exists ws, steps :: IsLooseRun(g, ws, steps) && ws[|steps|] == w
  }

  lemma Then(g: Config, w: World, step: Step, w': World)
    requires Proper(g) && Reached(g, w) && Possible(g, w, step) && w' == Next(g, w, step)
    ensures Reached(g, w')
  {
    var ws, steps :| IsLooseRun(g, ws, steps) && ws[|steps|] == w;
    var ws', steps' := ws + [w'], steps + [step];
    forall i | 0 <= i < |steps'|
      ensures Possible(g, ws'[i], steps'[i]) && ws'[i + 1] == Next(g, ws'[i], steps'[i])
    {
      if i < |steps| {
        assert steps'[i] == steps[i];
      }
    }
    assert IsLooseRun(g, ws', steps') && ws'[|steps'|] == w';
  }

  /** Two cores, led by core 0; nobody may have executed a term in round 0. */
  function Pair(): Config {
    Config(2, 0, r => Round({0, 1}, c => if r == 0 then 0 else 9))
  }

  lemma PairProper()
    ensures Proper(Pair())
  {
  }

  lemma LeaderThen(g: Config, w: World, w': World)
    requires Proper(g) && Reached(g, w) && |w.exec| == |w.followers| == g.cores && w' == LeaderNext(g, w)
    ensures Reached(g, w')
  {
    Then(g, w, Leader, w');
  }

  function Begun(g: Config, w: World): World {
    w.(leader := Wait(w.next, {}), next := w.next + 1, stable := w.stable + 2, nonce := Some(w.next), success := true,
       b0 := {g.lead}, b1 := {}, joined := {}, left := {}, flagged := {})
  }

  lemma Begin(g: Config, w: World)
    requires Proper(g) && Reached(g, w) && |w.exec| == |w.followers| == g.cores && w.leader.Idle?
    ensures Reached(g, Begun(g, w))
  {
    var w1 := LeaderNext(g, w);
    LeaderThen(g, w, w1);
    var w2 := LeaderNext(g, w1);
    LeaderThen(g, w1, w2);
    var w3 := LeaderNext(g, w2);
    LeaderThen(g, w2, w3);
    var w4 := LeaderNext(g, w3);
    LeaderThen(g, w3, w4);
    var w5 := LeaderNext(g, w4);
    LeaderThen(g, w4, w5);
    var w6 := LeaderNext(g, w5);
    LeaderThen(g, w5, w6);
    LeaderThen(g, w6, LeaderNext(g, w6));
    assert {} + {g.lead} == {g.lead};
  }

  /** Round 0 has begun; core 1, one term ahead, is about to join. */
  function AboutToJoin(): World {
    World(2, Some(0), true, {0}, {}, [0, 1], Wait(0, {}), [Away, Join(0)], 1, {(1, 0)}, {}, map[], map[], {}, {}, {})
  }

  lemma Comes()
    ensures Reached(Pair(), AboutToJoin())
  {
    var g := Pair();
    PairProper();
    var w := Init(g);
    var none: seq<Step> := [];
    assert IsLooseRun(g, [w], none) && [w][|none|] == w;
    var w1 := w.(exec := [0, 1]);
    Then(g, w, Raise(1, 1), w1);
    var w2 := w1.(followers := [Away, Try(0)], tried := {(1, 0)});
    Then(g, w1, Enter(1, 0), w2);
    Begin(g, w2);
    var w3 := Begun(g, w2);
    Passes(w3);
  }

  lemma Passes(w: World)
    requires Reached(Pair(), w)
    requires w == World(2, Some(0), true, {0}, {}, [0, 1], Wait(0, {}), [Away, Try(0)], 1, {(1, 0)}, {}, map[],
                        map[], {}, {}, {})
    ensures Reached(Pair(), AboutToJoin())
  {
    var g := Pair();
    PairProper();
    var w1 := w.(followers := [Away, ReadStable(0)]);
    Then(g, w, Follower(1, true), w1);
    var w2 := w.(followers := [Away, Compare(0, 2)]);
    Then(g, w1, Follower(1, true), w2);
    var w3 := w.(followers := [Away, Reread(0, 2)]);
    Then(g, w2, Follower(1, true), w3);
    Then(g, w3, Follower(1, true), AboutToJoin());
  }

  /** The leader has given core 1 up and begun round 1; core 1 is still about to join. */
  function GivenUp(): World {
    World(4, Some(1), true, {0}, {}, [0, 1], Wait(1, {}), [Away, Join(0)], 2, {(1, 0)}, {}, map[], map[0 := false],
          {}, {}, {})
  }

  lemma GivesUp()
    ensures Reached(Pair(), GivenUp())
  {
    var g := Pair();
    PairProper();
    Comes();
    var w := AboutToJoin();
    var w1 := w.(leader := Check(0, 0, {}));
    LeaderThen(g, w, w1);
    var w2 := w.(leader := Check(0, 1, {}));
    LeaderThen(g, w1, w2);
    var w3 := w.(leader := Check(0, 2, {1}));
    assert {} + {1} == {1};
    LeaderThen(g, w2, w3);
    assert {1} * g.rounds(0).mask == {1};
    var w4 := w.(leader := Fail(0, {1}), success := false);
    LeaderThen(g, w3, w4);
    var w5 := w4.(leader := Wait(0, {1}), b0 := {0, 1}, flagged := {1});
    assert {0} + {1} == {0, 1};
    LeaderThen(g, w4, w5);
    Excused(w5);
  }

  lemma Excused(w: World)
    requires Reached(Pair(), w)
    requires w == World(2, Some(0), false, {0, 1}, {}, [0, 1], Wait(0, {1}), [Away, Join(0)], 1, {(1, 0)}, {},
                        map[], map[], {}, {}, {1})
    ensures Reached(Pair(), GivenUp())
  {
    var g := Pair();
    PairProper();
    var w1 := w.(leader := Out(0, {1}));
    LeaderThen(g, w, w1);
    var w2 := w.(leader := Excuse(0, {1}), b1 := {0});
    assert {} + {0} == {0} && {0} + {1} == {0, 1};
    LeaderThen(g, w1, w2);
    var w3 := w.(leader := Last(0, {1}), b1 := {0, 1});
    LeaderThen(g, w2, w3);
    var w4 := w3.(leader := Idle, results := map[0 := false]);
    LeaderThen(g, w3, w4);
    Begin(g, w4);
    assert Begun(g, w4) == GivenUp();
  }

  /** The end: round 0 failed for the leader and succeeded for core 1; round 1 succeeded
      for the leader though core 1 never came to it. */
  function Mixed(): World {
    World(4, Some(1), true, {0, 1}, {0, 1}, [0, 1], Idle, [Away, Away], 2, {(1, 0)}, {(1, 0)},
          map[(1, 0) := true], map[0 := false, 1 := true], {1}, {1}, {})
  }

  lemma LateJoin()
    ensures Reached(Pair(), Mixed())
    ensures Mixed().results[1] && (1, 1) !in Mixed().joins
    ensures !Mixed().results[0] && Mixed().returned[(1, 0)]
  {
    var g := Pair();
    PairProper();
    GivesUp();
    var w := GivenUp();
    var w1 := w.(followers := [Away, Held(0)], b0 := {0, 1}, joined := {1}, joins := {(1, 0)});
    assert {0} + {1} == {0, 1} && {} + {1} == {1} && {} + {(1, 0)} == {(1, 0)};
    Then(g, w, Follower(1, true), w1);
    var w2 := w1.(leader := Out(1, {}));
    LeaderThen(g, w1, w2);
    var w3 := w1.(leader := Excuse(1, {}), b1 := {0});
    assert {} + {0} == {0};
    LeaderThen(g, w2, w3);
    var w4 := w1.(leader := Last(1, {}), b1 := {0});
    assert {0} + {} == {0};
    LeaderThen(g, w3, w4);
    Leaves(w4);
  }

  lemma Leaves(w: World)
    requires Reached(Pair(), w)
    requires w == World(4, Some(1), true, {0, 1}, {0}, [0, 1], Last(1, {}), [Away, Held(0)], 2, {(1, 0)}, {(1, 0)},
                        map[], map[0 := false], {1}, {}, {})
    ensures Reached(Pair(), Mixed())
  {
    var g := Pair();
    PairProper();
    var w1 := w.(followers := [Away, ReadSuccess(0)]);
    Then(g, w, Follower(1, true), w1);
    var w2 := w.(followers := [Away, Leave(0, true)]);
    Then(g, w1, Follower(1, true), w2);
    Ends(w2);
  }

  lemma Ends(w: World)
    requires Reached(Pair(), w)
    requires w == World(4, Some(1), true, {0, 1}, {0}, [0, 1], Last(1, {}), [Away, Leave(0, true)], 2, {(1, 0)},
                        {(1, 0)}, map[], map[0 := false], {1}, {}, {})
    ensures Reached(Pair(), Mixed())
  {
    var g := Pair();
    PairProper();
    var w3 := w.(followers := [Away, Away], b1 := {0, 1}, left := {1}, returned := map[(1, 0) := true]);
    assert {0} + {1} == {0, 1} && {} + {1} == {1};
    Then(g, w, Follower(1, true), w3);
    LeaderThen(g, w3, Mixed());
  }
}
