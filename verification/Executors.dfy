/** The scheduler and its executor threads as one machine of small steps: operations
    arrive, are compared one pair at a time, are enqueued, executed and marked, while
    replication decides the fate of each. */
module Executors {
  import opened Common
  import opened Serial

  /** How far an operation has come. */
  datatype Phase = Waiting | Queued(core: nat, at: nat) | Running(core: nat) | Executed(core: nat) | Marked

  datatype Request<O> = Request(op: O, readOnly: bool)

  /** An executor: its ring, how many it has taken off it, and the one at hand. */
  datatype Core = Core(ring: seq<nat>, taken: nat, current: Option<nat>)

  datatype World<S, O, R> = World(
    reqs: seq<Request<O>>,
    phase: seq<Phase>,
    rep: map<nat, bool>,
    next: nat,
    scanned: nat,
    freed: set<nat>,
    cores: seq<Core>,
    log: seq<Item<O>>,
    outcome: Outcome<S, R>)

  datatype App<!S, !O, R> = App(init: S, apply: (O, S) -> (S, R), commute: (O, O) -> bool)

  datatype Step<O> =
    | Add(req: Request<O>)
    | Test
    | Enqueue
    | Collect(id: nat)
    | Resolve(id: nat, ok: bool)
    | Dequeue(core: nat)
    | Execute(core: nat)
    | Finish(core: nat)

  function Init<S, O, R>(app: App<S, O, R>, threads: nat): World<S, O, R> {
    World([], [], map[], 0, 0, {}, seq(threads, _ => Core([], 0, None)), [], Outcome(app.init, map[]))
  }

  /** A read-only operation runs at once; any other waits for its replication. */
  predicate Decided<S, O, R>(w: World<S, O, R>, id: nat)
    requires id < |w.reqs|
  {
    w.reqs[id].readOnly || id in w.rep
  }

  function ItemOf<S, O, R>(w: World<S, O, R>, id: nat): Item<O>
    requires id < |w.reqs| && Decided(w, id)
  {
    Item(id, w.reqs[id].op, w.reqs[id].readOnly || w.rep[id])
  }

  predicate Enabled<S, O, R>(w: World<S, O, R>, step: Step<O>) {
    match step
    case Add(_) => true
    case Test => w.next < |w.reqs| && w.scanned < w.next <= |w.phase|
    case Enqueue => w.next < |w.reqs| && w.scanned == w.next < |w.phase| && 0 < |w.cores|
    case Collect(id) => id < |w.phase| && w.phase[id].Marked? && w.scanned == 0
    case Resolve(id, _) => id < |w.reqs| && id !in w.rep
    case Dequeue(c) => c < |w.cores| && w.cores[c].current.None? && w.cores[c].ring != []
        && w.cores[c].ring[0] < |w.phase|
    case Execute(c) =>
      && c < |w.cores| && w.cores[c].current.Some?
      && var id := w.cores[c].current.value;
      id < |w.reqs| && id < |w.phase| && w.phase[id].Running? && Decided(w, id)
    case Finish(c) =>
      && c < |w.cores| && w.cores[c].current.Some?
      && var id := w.cores[c].current.value;
      id < |w.phase| && w.phase[id].Executed?
  }

  function Next<S, O, R>(app: App<S, O, R>, w: World<S, O, R>, step: Step<O>): World<S, O, R>
    requires Enabled(w, step)
  {
    match step
    case Add(req) => w.(reqs := w.reqs + [req], phase := w.phase + [Waiting])
    case Test =>
      var id := w.next - 1 - w.scanned;
      if id in w.freed || w.phase[id].Marked? || app.commute(w.reqs[w.next].op, w.reqs[id].op)
      then w.(scanned := w.scanned + 1)
      else w.(scanned := 0)
    case Enqueue =>
      var c := (w.next % 0x1_0000_0000) % |w.cores|;
      var core := w.cores[c];
      w.(next := w.next + 1, scanned := 0,
         phase := w.phase[w.next := Queued(c, core.taken + |core.ring|)],
         cores := w.cores[c := core.(ring := core.ring + [w.next])])
    case Collect(id) => w.(freed := w.freed + {id})
    case Resolve(id, ok) => w.(rep := w.rep[id := ok])
    case Dequeue(c) =>
      var core := w.cores[c];
      var id := core.ring[0];
      w.(phase := w.phase[id := Running(c)],
         cores := w.cores[c := Core(core.ring[1..], core.taken + 1, Some(id))])
    case Execute(c) =>
      var id := w.cores[c].current.value;
      var item := ItemOf(w, id);
      w.(phase := w.phase[id := Executed(c)],
         log := w.log + [item], outcome := Perform(app.apply, w.outcome, item))
    case Finish(c) =>
      var id := w.cores[c].current.value;
      w.(phase := w.phase[id := Marked], cores := w.cores[c := w.cores[c].(current := None)])
  }

  ghost predicate IsRun<S, O, R>(app: App<S, O, R>, threads: nat, ws: seq<World<S, O, R>>, steps: seq<Step<O>>) {
    && |ws| == |steps| + 1
    && ws[0] == Init(app, threads)
    && forall i {:trigger steps[i]} :: 0 <= i < |steps| ==>
        Enabled(ws[i], steps[i]) && ws[i + 1] == Next(app, ws[i], steps[i])
  }

  // ----- the invariant -----

  /** What keeps a newer operation away from an older one until that one is finished. */
  predicate Passes<S, O, R>(app: App<S, O, R>, w: World<S, O, R>, newer: nat, older: nat)
    requires newer < |w.reqs| && older < |w.reqs| && older < |w.phase|
  {
    w.phase[older].Marked? || app.commute(w.reqs[newer].op, w.reqs[older].op)
  }

  ghost predicate PhasesOk<S, O, R>(w: World<S, O, R>) {
    && w.scanned <= w.next <= |w.reqs| == |w.phase|
    && (w.next == |w.reqs| ==> w.scanned == 0)
    && (forall id {:trigger w.phase[id]} :: 0 <= id < |w.phase| ==> (w.phase[id].Waiting? <==> w.next <= id))
    && (forall id {:trigger id in w.freed} :: id in w.freed ==> id < |w.phase| && w.phase[id].Marked?)
  }

  ghost predicate RingOk<S, O, R>(w: World<S, O, R>, c: nat)
    requires c < |w.cores|
  {
    var core := w.cores[c];
    forall p {:trigger core.ring[p]} :: 0 <= p < |core.ring| ==>
                                          core.ring[p] < |w.phase| && w.phase[core.ring[p]] == Queued(c, core.taken + p)
  }

  ghost predicate CurrentOk<S, O, R>(w: World<S, O, R>, c: nat)
    requires c < |w.cores|
  {
    w.cores[c].current.Some? ==>
      && w.cores[c].current.value < |w.phase|
      && (w.phase[w.cores[c].current.value] == Running(c) || w.phase[w.cores[c].current.value] == Executed(c))
  }

  ghost predicate CoresOk<S, O, R>(w: World<S, O, R>) {
    && (forall c {:trigger RingOk(w, c)} :: 0 <= c < |w.cores| ==> RingOk(w, c))
    && (forall c {:trigger CurrentOk(w, c)} :: 0 <= c < |w.cores| ==> CurrentOk(w, c))
  }

  predicate Ran(p: Phase) {
    p.Executed? || p.Marked?
  }

  ghost predicate Logged<O>(log: seq<Item<O>>, id: nat) {
    exists k :: 0 <= k < |log| && log[k].id == id
  }

  ghost predicate LogOk<S, O, R>(w: World<S, O, R>) {
    && (forall k {:trigger w.log[k]} :: 0 <= k < |w.log| ==>
                                          var id := w.log[k].id;
                                          id < |w.phase| && id < |w.reqs| && Ran(w.phase[id]) && Decided(w, id)
                                              && w.log[k] == ItemOf(w, id))
    && (forall id {:trigger w.phase[id]} :: 0 <= id < |w.phase| && Ran(w.phase[id]) ==> Logged(w.log, id))
    && Distinct(w.log)
  }

  ghost predicate Tested<S, O, R>(app: App<S, O, R>, w: World<S, O, R>)
    requires PhasesOk(w)
  {
    && (forall i, j {:trigger Passes(app, w, j, i)} :: 0 <= i < j < w.next ==> Passes(app, w, j, i))
    && (w.next < |w.reqs| ==>
          forall i {:trigger Passes(app, w, w.next, i)} :: w.next - w.scanned <= i < w.next ==>
              Passes(app, w, w.next, i))
  }

  ghost predicate Inv<S, O, R>(app: App<S, O, R>, w: World<S, O, R>) {
    && PhasesOk(w) && CoresOk(w) && LogOk(w) && Tested(app, w)
    && OvertakesCommute(app.commute, w.log)
    && w.outcome == Run(app.apply, app.init, w.log)
  }

  lemma StepPhases<S, O, R>(app: App<S, O, R>, w: World<S, O, R>, step: Step<O>)
    requires Enabled(w, step) && PhasesOk(w) && CoresOk(w)
    ensures PhasesOk(Next(app, w, step))
  {
    match step
    case Dequeue(c) => assert RingOk(w, c);
    case Execute(c) => assert CurrentOk(w, c);
    case Finish(c) => assert CurrentOk(w, c);
    case _ =>
  }

  lemma StepRing<S, O, R>(app: App<S, O, R>, w: World<S, O, R>, step: Step<O>, c: nat)
    requires Enabled(w, step) && PhasesOk(w) && CoresOk(w) && c < |w.cores|
    ensures RingOk(Next(app, w, step), c)
  {
    assert RingOk(w, c);
    match step
    case Dequeue(d) => assert RingOk(w, d);
    case Execute(d) => assert CurrentOk(w, d);
    case Finish(d) => assert CurrentOk(w, d);
    case _ =>
  }

  lemma StepCurrent<S, O, R>(app: App<S, O, R>, w: World<S, O, R>, step: Step<O>, c: nat)
    requires Enabled(w, step) && PhasesOk(w) && CoresOk(w) && c < |w.cores|
    ensures CurrentOk(Next(app, w, step), c)
  {
    assert CurrentOk(w, c);
    match step
    case Dequeue(d) => assert RingOk(w, d);
    case Execute(d) => assert CurrentOk(w, d);
    case Finish(d) => assert CurrentOk(w, d);
    case _ =>
  }

  lemma LogExecute<S, O, R>(app: App<S, O, R>, w: World<S, O, R>, c: nat, w': World<S, O, R>)
    requires Enabled(w, Execute(c)) && PhasesOk(w) && CoresOk(w) && LogOk(w)
    requires w' == Next(app, w, Execute(c))
    ensures LogOk(w')
  {
    assert CurrentOk(w, c);
    forall id | 0 <= id < |w'.phase| && Ran(w'.phase[id])
      ensures Logged(w'.log, id)
    {
      if id != w.cores[c].current.value {
        assert Logged(w.log, id);
        var k :| 0 <= k < |w.log| && w.log[k].id == id;
        assert w'.log[k].id == id;
      } else {
        assert w'.log[|w.log|].id == id;
      }
    }
  }

  lemma StepLog<S, O, R>(app: App<S, O, R>, w: World<S, O, R>, step: Step<O>)
    requires Enabled(w, step) && PhasesOk(w) && CoresOk(w) && LogOk(w)
    ensures LogOk(Next(app, w, step))
  {
    match step
    case Dequeue(c) => assert RingOk(w, c);
    case Execute(c) => LogExecute(app, w, c, Next(app, w, step));
    case Finish(c) => assert CurrentOk(w, c);
    case _ =>
  }

  /** A finished operation stays finished, so what may pass an operation may pass it later. */
  lemma StepPasses<S, O, R>(app: App<S, O, R>, w: World<S, O, R>, step: Step<O>, j: nat, i: nat)
    requires Enabled(w, step) && PhasesOk(w) && CoresOk(w)
    requires i < j < |w.reqs| && Passes(app, w, j, i)
    ensures |w.reqs| <= |Next(app, w, step).reqs| == |Next(app, w, step).phase|
    ensures Passes(app, Next(app, w, step), j, i)
  {
    match step
    case Dequeue(c) => assert RingOk(w, c);
    case Execute(c) => assert CurrentOk(w, c);
    case _ =>
  }

  lemma StepTested<S, O, R>(app: App<S, O, R>, w: World<S, O, R>, step: Step<O>)
    requires Enabled(w, step) && PhasesOk(w) && CoresOk(w) && Tested(app, w)
    requires PhasesOk(Next(app, w, step))
    ensures Tested(app, Next(app, w, step))
  {
    var w' := Next(app, w, step);
    forall i, j | 0 <= i < j < w'.next
      ensures Passes(app, w', j, i)
    {
      assert Passes(app, w, j, i);
      StepPasses(app, w, step, j, i);
    }
    if w'.next < |w'.reqs| {
      forall i | w'.next - w'.scanned <= i < w'.next
        ensures Passes(app, w', w'.next, i)
      {
        if w'.next - w.scanned <= i {
          assert Passes(app, w, w'.next, i);
          StepPasses(app, w, step, w'.next, i);
        } else {
          assert step == Test && i == w.next - 1 - w.scanned;
        }
      }
    }
  }

  /** An operation that executes now was overtaken only by operations it commutes with. */
  lemma StepOvertakes<S, O, R>(app: App<S, O, R>, w: World<S, O, R>, step: Step<O>)
    requires Enabled(w, step) && Inv(app, w)
    ensures OvertakesCommute(app.commute, Next(app, w, step).log)
  {
    if step.Execute? {
      assert CurrentOk(w, step.core);
      var e := w.cores[step.core].current.value;
      forall k | 0 <= k < |w.log| && e < w.log[k].id
        ensures app.commute(w.log[k].op, w.reqs[e].op)
      {
        assert Passes(app, w, w.log[k].id, e);
      }
    }
  }

  lemma StepInv<S, O, R>(app: App<S, O, R>, w: World<S, O, R>, step: Step<O>)
    requires Enabled(w, step) && Inv(app, w)
    ensures Inv(app, Next(app, w, step))
  {
    var w' := Next(app, w, step);
    StepPhases(app, w, step);
    forall c | 0 <= c < |w.cores|
      ensures RingOk(w', c) && CurrentOk(w', c)
    {
      StepRing(app, w, step, c);
      StepCurrent(app, w, step, c);
    }
    StepLog(app, w, step);
    StepTested(app, w, step);
    StepOvertakes(app, w, step);
    if step.Execute? {
      RunSnoc(app.apply, app.init, w.log, ItemOf(w, w.cores[step.core].current.value));
    }
  }

  lemma {:induction false} RunInv<S, O, R>(app: App<S, O, R>, threads: nat, ws: seq<World<S, O, R>>,
                                           steps: seq<Step<O>>, i: nat)
    requires IsRun(app, threads, ws, steps) && i < |ws|
    ensures Inv(app, ws[i])
  {
    if i > 0 {
      RunInv(app, threads, ws, steps, i - 1);
      assert Enabled(ws[i - 1], steps[i - 1]);
      StepInv(app, ws[i - 1], steps[i - 1]);
    }
  }

  // ----- serializability -----

  ghost predicate RequestsProper<S, O, R>(w: World<S, O, R>, proper: O -> bool) {
    forall id :: 0 <= id < |w.reqs| ==> proper(w.reqs[id].op)
  }

  /** At every moment of every run, the state and all replies given so far are those of
      the executed operations performed one after another in the order of arrival. */
  lemma Serializable<S(!new), O(!new), R>(app: App<S, O, R>, proper: O -> bool, threads: nat,
                                          ws: seq<World<S, O, R>>, steps: seq<Step<O>>, i: nat)
    requires Sound(app.apply, app.commute, proper)
    requires IsRun(app, threads, ws, steps) && i < |ws| && RequestsProper(ws[i], proper)
    ensures ws[i].outcome == Run(app.apply, app.init, ByArrival(ws[i].log))
    ensures Ascending(ByArrival(ws[i].log)) && multiset(ByArrival(ws[i].log)) == multiset(ws[i].log)
  {
    RunInv(app, threads, ws, steps, i);
    SameAsArrival(app.apply, app.commute, proper, app.init, ws[i].log);
  }

  ghost predicate AllRan<S, O, R>(w: World<S, O, R>) {
    && |w.reqs| == |w.phase|
    && forall id {:trigger w.phase[id]} :: 0 <= id < |w.phase| ==> Ran(w.phase[id]) && Decided(w, id)
  }

  /** The operations in the order of arrival, those whose replication failed left out. */
  ghost function Arrivals<S, O, R>(w: World<S, O, R>): (r: seq<Item<O>>)
    requires AllRan(w)
  {
    seq(|w.reqs|, id requires 0 <= id < |w.reqs| => assert Ran(w.phase[id]); ItemOf(w, id))
  }

  lemma {:induction false} AtLeast<O>(items: seq<Item<O>>, k: nat)
    requires Ascending(items) && k < |items|
    ensures k <= items[k].id
  {
    if k > 0 {
      AtLeast(items, k - 1);
    }
  }

  /** An ascending run of ids below n in which each occurs is 0, 1, ..., n - 1. */
  lemma {:induction false} CountsUp<O>(items: seq<Item<O>>, n: nat, i: nat)
    requires Ascending(items) && i <= n
    requires forall id: nat :: id < n ==> Logged(items, id)
    ensures i <= |items| && forall k :: 0 <= k < i ==> items[k].id == k
  {
    if i > 0 {
      CountsUp(items, n, i - 1);
      assert Logged(items, i - 1);
      var p :| 0 <= p < |items| && items[p].id == i - 1;
      AtLeast(items, p);
    }
  }

  lemma SortedLogged<O>(log: seq<Item<O>>, id: nat)
    requires Logged(log, id)
    ensures Logged(ByArrival(log), id)
  {
    var k :| 0 <= k < |log| && log[k].id == id;
    SameMembers(log, ByArrival(log), log[k]);
    var j :| 0 <= j < |ByArrival(log)| && ByArrival(log)[j] == log[k];
    assert ByArrival(log)[j].id == id;
  }

  lemma LoggedItem<S, O, R>(w: World<S, O, R>, x: Item<O>)
    requires LogOk(w) && AllRan(w) && x in ByArrival(w.log)
    ensures x.id < |w.reqs| && x == Arrivals(w)[x.id]
  {
    SameMembers(ByArrival(w.log), w.log, x);
    assert Ran(w.phase[x.id]);
  }

  lemma SortedCounts<S, O, R>(w: World<S, O, R>)
    requires LogOk(w) && AllRan(w)
    ensures |ByArrival(w.log)| == |w.reqs|
    ensures forall k :: 0 <= k < |w.reqs| ==> ByArrival(w.log)[k].id == k
  {
    var n, sorted := |w.reqs|, ByArrival(w.log);
    ByArrivalAscends(w.log);
    forall id: nat | id < n
      ensures Logged(sorted, id)
    {
      assert Ran(w.phase[id]);
      SortedLogged(w.log, id);
    }
    CountsUp(sorted, n, n);
    if sorted != [] {
      LoggedItem(w, sorted[|sorted| - 1]);
      AtLeast(sorted, |sorted| - 1);
    }
  }

  lemma ArrivalsCover<S, O, R>(w: World<S, O, R>)
    requires LogOk(w) && AllRan(w)
    ensures ByArrival(w.log) == Arrivals(w)
  {
    SortedCounts(w);
    forall k | 0 <= k < |w.reqs|
      ensures ByArrival(w.log)[k] == Arrivals(w)[k]
    {
      LoggedItem(w, ByArrival(w.log)[k]);
    }
  }

  /** Once everything has run: the same state and the same replies as one thread taking
      the operations as they came. */
  lemma LikeOneThread<S(!new), O(!new), R>(app: App<S, O, R>, proper: O -> bool, threads: nat,
                                           ws: seq<World<S, O, R>>, steps: seq<Step<O>>, i: nat)
    requires Sound(app.apply, app.commute, proper)
    requires IsRun(app, threads, ws, steps) && i < |ws| && RequestsProper(ws[i], proper) && AllRan(ws[i])
    ensures ws[i].outcome == Run(app.apply, app.init, Arrivals(ws[i]))
  {
    Serializable(app, proper, threads, ws, steps, i);
    RunInv(app, threads, ws, steps, i);
    ArrivalsCover(ws[i]);
  }
}
