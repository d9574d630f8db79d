/** Nothing gets stuck: from every state of every run, once replication has decided about all
    operations, the scheduler and the executors can run all of them. */
module ExecutorsDrain {
  import opened Common
  import opened Executors

  // ----- where unfinished operations are -----

  /** An operation on its way is in the ring or at hand of the core its phase names. */
  ghost predicate Found<S, O, R>(w: World<S, O, R>, id: nat)
    requires id < |w.phase|
  {
    match w.phase[id]
    case Queued(c, at) =>
      && c < |w.cores| && w.cores[c].taken <= at < w.cores[c].taken + |w.cores[c].ring|
      && w.cores[c].ring[at - w.cores[c].taken] == id
    case Running(c) => c < |w.cores| && w.cores[c].current == Some(id)
    case Executed(c) => c < |w.cores| && w.cores[c].current == Some(id)
    case _ => true
  }

  ghost predicate AllFound<S, O, R>(w: World<S, O, R>) {
    forall id: nat {:trigger Found(w, id)} :: id < |w.phase| ==> Found(w, id)
  }

  lemma FoundDequeued<S, O, R>(app: App<S, O, R>, w: World<S, O, R>, c: nat, id: nat)
    requires Enabled(w, Dequeue(c)) && Inv(app, w) && AllFound(w) && id < |w.phase|
    ensures Found(Next(app, w, Dequeue(c)), id)
  {
    assert RingOk(w, c) && Found(w, id);
  }

  lemma FoundCurrent<S, O, R>(app: App<S, O, R>, w: World<S, O, R>, step: Step<O>, id: nat)
    requires (step.Execute? || step.Finish?) && Enabled(w, step) && Inv(app, w) && AllFound(w) && id < |w.phase|
    ensures Found(Next(app, w, step), id)
  {
    assert CurrentOk(w, step.core) && Found(w, id);
  }

  lemma FoundStep<S, O, R>(app: App<S, O, R>, w: World<S, O, R>, step: Step<O>, id: nat)
    requires Enabled(w, step) && Inv(app, w) && AllFound(w) && id < |Next(app, w, step).phase|
    ensures Found(Next(app, w, step), id)
  {
    match step
    case Dequeue(c) => FoundDequeued(app, w, c, id);
    case Execute(c) => FoundCurrent(app, w, step, id);
    case Finish(c) => FoundCurrent(app, w, step, id);
    case _ =>
      if id < |w.phase| {
        assert Found(w, id);
      }
  }

  lemma AllFoundStep<S, O, R>(app: App<S, O, R>, w: World<S, O, R>, step: Step<O>, w': World<S, O, R>)
    requires Enabled(w, step) && Inv(app, w) && AllFound(w) && w' == Next(app, w, step)
    ensures AllFound(w') && |w'.cores| == |w.cores|
  {
    forall id: nat {:trigger Found(w', id)} | id < |w'.phase|
      ensures Found(w', id)
    {
      FoundStep(app, w, step, id);
    }
  }

  lemma {:induction false} FoundAt<S, O, R>(app: App<S, O, R>, threads: nat, ws: seq<World<S, O, R>>,
                                            steps: seq<Step<O>>, i: nat)
    requires IsRun(app, threads, ws, steps) && i < |ws|
    ensures AllFound(ws[i]) && |ws[i].cores| == threads
  {
    if i > 0 {
      FoundAt(app, threads, ws, steps, i - 1);
      RunInv(app, threads, ws, steps, i - 1);
      assert Enabled(ws[i - 1], steps[i - 1]);
      AllFoundStep(app, ws[i - 1], steps[i - 1], ws[i]);
    }
  }

  // ----- how much is left -----

  function Left(p: Phase): nat {
    match p
    case Waiting => 4
    case Queued(_, _) => 3
    case Running(_) => 2
    case Executed(_) => 1
    case Marked => 0
  }

  function AllLeft(ps: seq<Phase>): nat {
    if ps == [] then 0 else AllLeft(ps[..|ps| - 1]) + Left(ps[|ps| - 1])
  }

  lemma {:induction false} LeftLess(ps: seq<Phase>, id: nat, p: Phase)
    requires id < |ps|
    ensures AllLeft(ps[id := p]) == AllLeft(ps) - Left(ps[id]) + Left(p)
  {
    var n := |ps| - 1;
    if id < n {
      LeftLess(ps[..n], id, p);
      assert ps[id := p][..n] == ps[..n][id := p];
    } else {
      assert ps[id := p][..n] == ps[..n];
    }
  }

  // ----- going on -----

  /** The run goes on with the same operations and the same decisions. */
  ghost predicate Onward<S, O, R>(app: App<S, O, R>, threads: nat, ws: seq<World<S, O, R>>, steps: seq<Step<O>>,
                                  ws': seq<World<S, O, R>>, steps': seq<Step<O>>) {
    && IsRun(app, threads, ws', steps') && |ws| == |steps| + 1 && ws <= ws' && steps <= steps'
    && ws'[|steps'|].reqs == ws[|steps|].reqs && ws'[|steps'|].rep == ws[|steps|].rep
  }

  lemma StepOn<S, O, R>(app: App<S, O, R>, threads: nat, ws: seq<World<S, O, R>>, steps: seq<Step<O>>, step: Step<O>)
    returns (ws': seq<World<S, O, R>>, steps': seq<Step<O>>)
    requires IsRun(app, threads, ws, steps) && Enabled(ws[|steps|], step) && !step.Add? && !step.Resolve?
    ensures Onward(app, threads, ws, steps, ws', steps') && ws'[|steps'|] == Next(app, ws[|steps|], step)
  {
    ws', steps' := ws + [Next(app, ws[|steps|], step)], steps + [step];
    forall i {:trigger steps'[i]} | 0 <= i < |steps'|
      ensures Enabled(ws'[i], steps'[i]) && ws'[i + 1] == Next(app, ws'[i], steps'[i])
    {
      assert i < |steps| ==> steps'[i] == steps[i];
    }
  }

  ghost predicate AllDecided<S, O, R>(w: World<S, O, R>) {
    forall id: nat {:trigger Decided(w, id)} :: id < |w.reqs| ==> Decided(w, id)
  }

  /** A core that has something to do can do it. */
  lemma CoreMoves<S, O, R>(app: App<S, O, R>, w: World<S, O, R>, c: nat) returns (step: Step<O>)
    requires Inv(app, w) && AllFound(w) && AllDecided(w) && c < |w.cores|
    requires w.cores[c].current.Some? || w.cores[c].ring != []
    ensures Enabled(w, step) && !step.Add? && !step.Resolve? && AllLeft(Next(app, w, step).phase) < AllLeft(w.phase)
  {
    assert RingOk(w, c) && CurrentOk(w, c);
    if w.cores[c].current.Some? {
      var id := w.cores[c].current.value;
      if w.phase[id].Running? {
        step := Execute(c);
        assert Decided(w, id);
        LeftLess(w.phase, id, Executed(c));
      } else {
        step := Finish(c);
        LeftLess(w.phase, id, Marked);
      }
    } else {
      step := Dequeue(c);
      LeftLess(w.phase, w.cores[c].ring[0], Running(c));
    }
  }

  /** All operations issued so far are finished. */
  ghost predicate IssuedDone<S, O, R>(w: World<S, O, R>) {
    w.next <= |w.phase| && forall id {:trigger w.phase[id]} :: 0 <= id < w.next ==> w.phase[id].Marked?
  }

  /** As long as an issued operation is not finished, some core has something to do. */
  lemma BusyCore<S, O, R>(app: App<S, O, R>, w: World<S, O, R>) returns (c: nat)
    requires Inv(app, w) && AllFound(w) && !IssuedDone(w)
    ensures c < |w.cores| && (w.cores[c].current.Some? || w.cores[c].ring != [])
  {
    var id :| 0 <= id < w.next && !w.phase[id].Marked?;
    assert Found(w, id) && !w.phase[id].Waiting?;
    c := w.phase[id].core;
  }

  /** With everything older finished, the tests of the next operation all pass. */
  lemma {:induction false} TestsPass<S, O, R>(app: App<S, O, R>, threads: nat, ws: seq<World<S, O, R>>,
                                              steps: seq<Step<O>>)
    returns (ws': seq<World<S, O, R>>, steps': seq<Step<O>>)
    requires IsRun(app, threads, ws, steps)
    requires var w := ws[|steps|];
             IssuedDone(w) && w.scanned <= w.next < |w.reqs| == |w.phase|
    ensures Onward(app, threads, ws, steps, ws', steps')
    ensures var w, w' := ws[|steps|], ws'[|steps'|]; w' == w.(scanned := w.next)
    decreases ws[|steps|].next - ws[|steps|].scanned
  {
    var w := ws[|steps|];
    if w.scanned == w.next {
      ws', steps' := ws, steps;
    } else {
      assert w.phase[w.next - 1 - w.scanned].Marked?;
      var ws1, steps1 := StepOn(app, threads, ws, steps, Test);
      ws', steps' := TestsPass(app, threads, ws1, steps1);
    }
  }

  lemma Issues<S, O, R>(app: App<S, O, R>, threads: nat, ws: seq<World<S, O, R>>, steps: seq<Step<O>>)
    returns (ws': seq<World<S, O, R>>, steps': seq<Step<O>>)
    requires IsRun(app, threads, ws, steps) && 0 < threads
    requires IssuedDone(ws[|steps|]) && ws[|steps|].next < |ws[|steps|].reqs|
    ensures Onward(app, threads, ws, steps, ws', steps')
    ensures AllLeft(ws'[|steps'|].phase) < AllLeft(ws[|steps|].phase)
  {
    var w := ws[|steps|];
    RunInv(app, threads, ws, steps, |steps|);
    FoundAt(app, threads, ws, steps, |steps|);
    var ws1, steps1 := TestsPass(app, threads, ws, steps);
    ws', steps' := StepOn(app, threads, ws1, steps1, Enqueue);
    assert w.phase[w.next].Waiting?;
    var w' := ws'[|steps'|];
    LeftLess(w.phase, w.next, w'.phase[w.next]);
  }

  /** One move that leaves less to do. */
  lemma Moves<S, O, R>(app: App<S, O, R>, threads: nat, ws: seq<World<S, O, R>>, steps: seq<Step<O>>)
    returns (ws': seq<World<S, O, R>>, steps': seq<Step<O>>)
    requires IsRun(app, threads, ws, steps) && 0 < threads && AllDecided(ws[|steps|])
    requires !(IssuedDone(ws[|steps|]) && ws[|steps|].next == |ws[|steps|].reqs|)
    ensures Onward(app, threads, ws, steps, ws', steps')
    ensures AllLeft(ws'[|steps'|].phase) < AllLeft(ws[|steps|].phase)
  {
    var w := ws[|steps|];
    RunInv(app, threads, ws, steps, |steps|);
    FoundAt(app, threads, ws, steps, |steps|);
    if IssuedDone(w) {
      ws', steps' := Issues(app, threads, ws, steps);
    } else {
      var c := BusyCore(app, w);
      var step := CoreMoves(app, w, c);
      ws', steps' := StepOn(app, threads, ws, steps, step);
    }
  }

  /** From every state of every run in which replication has decided about all operations, the
      run can go on until all of them have run. */
  lemma {:induction false} Drains<S, O, R>(app: App<S, O, R>, threads: nat, ws: seq<World<S, O, R>>,
                                           steps: seq<Step<O>>)
    returns (ws': seq<World<S, O, R>>, steps': seq<Step<O>>)
    requires IsRun(app, threads, ws, steps) && 0 < threads && AllDecided(ws[|steps|])
    ensures Onward(app, threads, ws, steps, ws', steps') && AllRan(ws'[|steps'|])
    decreases AllLeft(ws[|steps|].phase)
  {
    var w := ws[|steps|];
    if IssuedDone(w) && w.next == |w.reqs| {
      RunInv(app, threads, ws, steps, |steps|);
      ws', steps' := ws, steps;
      forall id {:trigger w.phase[id]} | 0 <= id < |w.phase|
        ensures Ran(w.phase[id]) && Decided(w, id)
      {
        assert Decided(w, id);
      }
    } else {
      var ws1, steps1 := Moves(app, threads, ws, steps);
      DecidedOn(ws[|steps|], ws1[|steps1|]);
      ws', steps' := Drains(app, threads, ws1, steps1);
    }
  }

  lemma DecidedOn<S, O, R>(w: World<S, O, R>, w': World<S, O, R>)
    requires AllDecided(w) && w'.reqs == w.reqs && w'.rep == w.rep
    ensures AllDecided(w')
  {
    forall id: nat {:trigger Decided(w', id)} | id < |w'.reqs|
      ensures Decided(w', id)
    {
      assert Decided(w, id);
    }
  }
}
