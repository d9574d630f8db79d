/** The linked-list scheduler takes only steps that the executor machine allows: as long as
    the list mirrors a world of the machine, adding, scheduling and freeing operations lead
    to a list that mirrors a world the machine can reach. What is proved about runs of the
    machine then holds of the list and its executors. */
module SchedulerMachine {
  import opened Common
  import SC = Scheduler
  import opened Executors
  import Serial

  // ----- reaching -----

  ghost predicate Path<S, O, R>(app: App<S, O, R>, ws: seq<World<S, O, R>>, steps: seq<Step<O>>) {
    && |ws| == |steps| + 1
    && forall i {:trigger steps[i]} :: 0 <= i < |steps| ==>
        Enabled(ws[i], steps[i]) && ws[i + 1] == Next(app, ws[i], steps[i])
  }

  ghost predicate Reaches<S(!new), O(!new), R(!new)>(app: App<S, O, R>, w: World<S, O, R>, w': World<S, O, R>) {
    exists ws, steps :: Path(app, ws, steps) && ws[0] == w && ws[|steps|] == w'
  }

  lemma ReachesSelf<S(!new), O(!new), R(!new)>(app: App<S, O, R>, w: World<S, O, R>)
    ensures Reaches(app, w, w)
  {
    var none: seq<Step<O>> := [];
    assert Path(app, [w], none) && [w][0] == w && [w][|none|] == w;
  }

  lemma ReachesOne<S(!new), O(!new), R(!new)>(app: App<S, O, R>, w: World<S, O, R>, v: World<S, O, R>, step: Step<O>,
                                              v': World<S, O, R>)
    requires Reaches(app, w, v) && Enabled(v, step) && v' == Next(app, v, step)
    ensures Reaches(app, w, v')
  {
    var ws, steps :| Path(app, ws, steps) && ws[0] == w && ws[|steps|] == v;
    var ws', steps' := ws + [v'], steps + [step];
    forall i {:trigger steps'[i]} | 0 <= i < |steps'|
      ensures Enabled(ws'[i], steps'[i]) && ws'[i + 1] == Next(app, ws'[i], steps'[i])
    {
      if i < |steps| {
        assert steps'[i] == steps[i];
      }
    }
    assert Path(app, ws', steps') && ws'[0] == w && ws'[|steps'|] == v';
  }

  lemma Join<S(!new), O(!new), R(!new)>(app: App<S, O, R>, w: World<S, O, R>, v: World<S, O, R>, w': World<S, O, R>)
    requires Reaches(app, w, v) && Reaches(app, v, w')
    ensures Reaches(app, w, w')
  {
    var ws, steps :| Path(app, ws, steps) && ws[0] == v && ws[|steps|] == w';
    for k := 0 to |steps|
      invariant Reaches(app, w, ws[k])
    {
      assert steps[k] == steps[k];
      ReachesOne(app, w, ws[k], steps[k], ws[k + 1]);
    }
  }

  // ----- the machine enqueues what commutes with everything unfinished -----

  /** Every older operation is freed, finished, or commutes with operation id. */
  ghost predicate MayIssue<S, O, R>(app: App<S, O, R>, w: World<S, O, R>, id: nat)
    requires id < |w.reqs| <= |w.phase|
  {
    forall i: nat :: i < id ==> i in w.freed || w.phase[i].Marked? || app.commute(w.reqs[id].op, w.reqs[i].op)
  }

  lemma {:induction false} ScanAll<S(!new), O(!new), R(!new)>(app: App<S, O, R>, w: World<S, O, R>, k: nat)
    requires w.scanned == 0 && k <= w.next < |w.reqs| == |w.phase| && MayIssue(app, w, w.next)
    ensures Reaches(app, w, w.(scanned := k))
  {
    if k == 0 {
      ReachesSelf(app, w);
    } else {
      ScanAll(app, w, k - 1);
      ReachesOne(app, w, w.(scanned := k - 1), Test, w.(scanned := k));
    }
  }

  /** The world after the next operation went to its executor. */
  ghost function IssueOne<S, O, R>(app: App<S, O, R>, w: World<S, O, R>): (w': World<S, O, R>)
    requires w.next < |w.reqs| == |w.phase| && 0 < |w.cores|
  {
    Next(app, w.(scanned := w.next), Enqueue)
  }

  lemma IssuesOne<S(!new), O(!new), R(!new)>(app: App<S, O, R>, w: World<S, O, R>)
    requires w.scanned == 0 && w.next < |w.reqs| == |w.phase| && 0 < |w.cores| && MayIssue(app, w, w.next)
    ensures Reaches(app, w, IssueOne(app, w))
  {
    ScanAll(app, w, w.next);
    ReachesOne(app, w, w.(scanned := w.next), Enqueue, IssueOne(app, w));
  }

  /** From w to w', the operations up to `upTo` went to executors in turn. */
  ghost predicate IssuedTo<S, O, R>(w: World<S, O, R>, w': World<S, O, R>, upTo: nat) {
    && w'.reqs == w.reqs && w'.freed == w.freed && w'.scanned == 0 && w'.next == upTo
    && |w'.phase| == |w.phase| && 0 < |w'.cores| == |w.cores|
    && (forall i: nat {:trigger w'.phase[i]} :: i < |w.phase| && !(w.next <= i < upTo) ==> w'.phase[i] == w.phase[i])
    && (forall i: nat {:trigger w'.phase[i]} :: w.next <= i < upTo && i < |w.phase| ==>
                                                  w'.phase[i].Queued? && w'.phase[i].core == ExecutorOf(i, |w.cores|))
  }

  lemma {:induction false} IssueMany<S(!new), O(!new), R(!new)>(app: App<S, O, R>, w: World<S, O, R>,
                                                                m: nat) returns (w': World<S, O, R>)
    requires w.scanned == 0 && w.next + m <= |w.reqs| == |w.phase| && 0 < |w.cores|
    requires forall id: nat {:trigger MayIssue(app, w, id)} :: w.next <= id < w.next + m ==> MayIssue(app, w, id)
    requires forall i {:trigger w.phase[i]} :: w.next <= i < |w.phase| ==> w.phase[i].Waiting?
    ensures Reaches(app, w, w') && IssuedTo(w, w', w.next + m)
  {
    if m == 0 {
      ReachesSelf(app, w);
      w' := w;
    } else {
      var v := IssueMany(app, w, m - 1);
      assert MayIssue(app, w, v.next);
      assert MayIssue(app, v, v.next) by {
        forall i: nat | i < v.next
          ensures i in v.freed || v.phase[i].Marked? || app.commute(v.reqs[v.next].op, v.reqs[i].op)
        {
          assert v.phase[i] == v.phase[i] && w.phase[i] == w.phase[i];
        }
      }
      w' := IssueOne(app, v);
      IssuesOne(app, v);
      Join(app, w, v, w');
    }
  }

  lemma {:induction false} CollectAll<S(!new), O(!new), R(!new)>(app: App<S, O, R>, w: World<S, O, R>, ids: seq<nat>)
    requires w.scanned == 0 && forall id <- ids :: id < |w.phase| && w.phase[id].Marked?
    ensures Reaches(app, w, w.(freed := w.freed + set id <- ids))
  {
    if ids == [] {
      assert w.freed + {} == w.freed;
      ReachesSelf(app, w);
    } else {
      var n := |ids| - 1;
      CollectAll(app, w, ids[..n]);
      assert ids == ids[..n] + [ids[n]];
      assert (set id <- ids) == (set id <- ids[..n]) + {ids[n]};
      var v := w.(freed := w.freed + set id <- ids[..n]);
      assert v.freed + {ids[n]} == w.freed + set id <- ids;
      ReachesOne(app, w, v, Collect(ids[n]), w.(freed := w.freed + set id <- ids));
    }
  }

  // ----- the list mirrors a world -----

  /** Newest first. */
  ghost predicate Descending(ids: seq<nat>) {
    forall i, j {:trigger ids[i], ids[j]} :: 0 <= i < j < |ids| ==> ids[j] < ids[i]
  }

  /** The issued cells, with their marks, are the operations `ids`; every other operation
      that was enqueued is freed. */
  ghost predicate Listed<S, O, R>(cells: seq<SC.Cell<O>>, marks: seq<bool>, ids: seq<nat>, w: World<S, O, R>) {
    && |cells| == |marks| == |ids| && w.next <= |w.reqs| == |w.phase| && Descending(ids)
    && (forall k {:trigger ids[k]} :: 0 <= k < |ids| ==>
          ids[k] < w.next && cells[k].op == Some(w.reqs[ids[k]].op) && (marks[k] <==> w.phase[ids[k]].Marked?))
    && (forall id: nat {:trigger id in ids} :: id < w.next ==> id in w.freed || id in ids)
  }

  /** The waiting cells are the operations that were not enqueued, newest first. */
  ghost predicate Queue<S, O, R>(cells: seq<SC.Cell<O>>, w: World<S, O, R>) {
    && |cells| == |w.reqs| - w.next
    && forall k {:trigger cells[k]} :: 0 <= k < |cells| ==> cells[k].op == Some(w.reqs[|w.reqs| - 1 - k].op)
  }

  /** Executors take turns. */
  function ExecutorOf(id: nat, threads: nat): nat {
    if threads == 0 then 0 else (id % 0x1_0000_0000) % threads
  }

  /** What was sent to executors, and where to. */
  ghost predicate SentAs<S, O, R>(sent: seq<(nat, O)>, added: seq<O>, w: World<S, O, R>) {
    && |w.reqs| == |added| == |w.phase| && w.next == |sent|
    && (forall id {:trigger w.reqs[id]} :: 0 <= id < |added| ==> w.reqs[id].op == added[id])
    && (forall id {:trigger w.phase[id]} :: 0 <= id < |w.phase| && w.phase[id].Queued? ==>
                                              w.phase[id].core == ExecutorOf(id, |w.cores|))
  }

  ghost predicate Mirrored<S, O, R>(issued: seq<SC.Cell<O>>, marks: seq<bool>, waiting: seq<SC.Cell<O>>,
                                    sent: seq<(nat, O)>, added: seq<O>, ids: seq<nat>, w: World<S, O, R>)
  {
    && PhasesOk(w)
    && Listed(issued, marks, ids, w) && Queue(waiting, w)
    && SentAs(sent, added, w)
  }

  /** No waiting operation is finished. */
  ghost predicate Open<O>(waiting: seq<SC.Cell<O>>)
    reads set c | c in waiting :: c.wal
  {
    forall c <- waiting :: !c.wal.marked
  }

  /** No two operations share a log record. */
  ghost predicate OwnRecords<O>(cells: seq<SC.Cell<O>>) {
    forall c <- cells, d <- cells :: c != d ==> c.wal != d.wal
  }

  /** The list stands for world w: same operations, same order, same marks. */
  ghost predicate Mirrors<S, O, R>(s: SC.Scheduler<O>, ids: seq<nat>, w: World<S, O, R>)
    reads s, set c | c in s.issued :: c.wal, set c | c in s.waiting :: c.wal
  {
    && 0 < |w.cores| == s.threads && Open(s.waiting) && OwnRecords(s.waiting + s.issued)
    && Mirrored(s.issued, SC.Marks(s.issued), s.waiting, s.sent, s.added, ids, w)
  }

  /** The list is intact and stands for a world that a run of the machine reaches. */
  ghost predicate InRun<S(!new), O(!new), R(!new)>(s: SC.Scheduler<O>, ids: seq<nat>, app: App<S, O, R>,
                                                   w: World<S, O, R>)
    reads s, s.cells, set c | c in s.issued :: c.wal, set c | c in s.waiting :: c.wal
  {
    s.Valid() && s.Conserved() && Mirrors(s, ids, w) && Reaches(app, Init(app, s.threads), w)
  }

  lemma ReachedInv<S(!new), O(!new), R(!new)>(app: App<S, O, R>, threads: nat, w: World<S, O, R>)
    requires Reaches(app, Init(app, threads), w)
    ensures Inv(app, w)
  {
    var ws, steps :| Path(app, ws, steps) && ws[0] == Init(app, threads) && ws[|steps|] == w;
    assert IsRun(app, threads, ws, steps);
    RunInv(app, threads, ws, steps, |steps|);
  }

  /** A new list, before any operation. */
  method Start<S(!new), O(!new), R(!new)>(threads: nat, maxLength: nat, ghost app: App<S, O, R>)
    returns (s: SC.Scheduler<O>)
    requires 0 < threads
    ensures fresh(s) && fresh(s.cells) && s.threads == threads && InRun(s, [], app, Init(app, threads))
  {
    s := new SC.Scheduler<O>(threads, maxLength);
    ReachesSelf(app, Init(app, threads));
  }

  // ----- adding -----

  lemma AddMirrored<S, O, R>(issued: seq<SC.Cell<O>>, marks: seq<bool>, waiting: seq<SC.Cell<O>>,
                             sent: seq<(nat, O)>, added: seq<O>, ids: seq<nat>, app: App<S, O, R>, w: World<S, O, R>,
                             newest: SC.Cell<O>, req: Request<O>)
    requires Mirrored(issued, marks, waiting, sent, added, ids, w) && newest.op == Some(req.op)
    ensures Mirrored(issued, marks, [newest] + waiting, sent, added + [req.op], ids,
                     Next(app, w, Executors.Add(req)))
  {
  }

  method AddWith<O>(s: SC.Scheduler<O>, op: O, wal: SC.Wal) returns (r: SC.Outcome)
    requires s.Valid() && s.Conserved() && !wal.marked && Open(s.waiting)
    modifies s, s.cells
    ensures s.Valid() && s.Conserved() && s.issued == old(s.issued) && s.sent == old(s.sent)
    ensures SC.Marks(s.issued) == old(SC.Marks(s.issued)) && Open(s.waiting) && fresh(s.cells - old(s.cells))
    ensures r == SC.Ok ==> s.added == old(s.added) + [op] && 0 < |s.waiting| && s.waiting[0].wal == wal
                           && s.waiting == [s.waiting[0]] + old(s.waiting) && s.waiting[0].op == Some(op)
    ensures r != SC.Ok ==> s.added == old(s.added) && s.waiting == old(s.waiting)
  {
    r := s.Add(op, wal);
    assert r == SC.Ok ==> s.waiting == [s.waiting[0]] + s.waiting[1..];
  }

  method NewWal<O>(ghost cells: seq<SC.Cell<O>>) returns (wal: SC.Wal)
    ensures fresh(wal) && !wal.marked && forall c <- cells :: c.wal != wal
  {
    wal := new SC.Wal();
  }

  method AddTo<O>(s: SC.Scheduler<O>, op: O, wal: SC.Wal) returns (r: SC.Outcome)
    requires s.Valid() && s.Conserved() && Open(s.waiting) && OwnRecords(s.waiting + s.issued)
    requires !wal.marked && forall c <- s.waiting + s.issued :: c.wal != wal
    modifies s, s.cells
    ensures s.Valid() && s.Conserved() && s.issued == old(s.issued) && s.sent == old(s.sent)
    ensures SC.Marks(s.issued) == old(SC.Marks(s.issued)) && Open(s.waiting) && OwnRecords(s.waiting + s.issued)
    ensures fresh(s.cells - old(s.cells))
    ensures r == SC.Ok ==> s.added == old(s.added) + [op] && 0 < |s.waiting|
                           && s.waiting == [s.waiting[0]] + old(s.waiting) && s.waiting[0].op == Some(op)
    ensures r != SC.Ok ==> s.added == old(s.added) && s.waiting == old(s.waiting)
  {
    r := AddWith(s, op, wal);
    if r == SC.Ok {
      NewRecord(s.waiting[0], old(s.waiting), s.issued);
    }
  }

  lemma NewRecord<O>(newest: SC.Cell<O>, waiting: seq<SC.Cell<O>>, issued: seq<SC.Cell<O>>)
    requires OwnRecords(waiting + issued) && forall c <- waiting + issued :: c.wal != newest.wal
    ensures OwnRecords([newest] + waiting + issued)
  {
    assert [newest] + waiting + issued == [newest] + (waiting + issued);
  }

  /** Add, with a record no other operation has, and the machine's step of the same name. */
  method AddRecord<S(!new), O(!new), R(!new)>(s: SC.Scheduler<O>, op: O, wal: SC.Wal, ghost readOnly: bool,
                                              ghost app: App<S, O, R>, ghost ids: seq<nat>, ghost w: World<S, O, R>)
    returns (r: SC.Outcome, ghost w': World<S, O, R>)
    requires InRun(s, ids, app, w) && !wal.marked && forall c <- s.waiting + s.issued :: c.wal != wal
    modifies s, s.cells
    ensures InRun(s, ids, app, w') && Reaches(app, w, w') && fresh(s.cells - old(s.cells))
    ensures w' == if r == SC.Ok then Next(app, w, Executors.Add(Request(op, readOnly))) else w
  {
    ghost var req := Request(op, readOnly);
    r := AddTo(s, op, wal);
    ReachesSelf(app, w);
    w' := w;
    if r == SC.Ok {
      w' := Next(app, w, Executors.Add(req));
      ReachesOne(app, w, w, Executors.Add(req), w');
      AddMirrored(s.issued, SC.Marks(s.issued), old(s.waiting), s.sent, old(s.added), ids,
                  app, w, s.waiting[0], req);
    }
    Join(app, Init(app, s.threads), w, w');
  }

  /** An operation arrives with a log record of its own. */
  method Add<S(!new), O(!new), R(!new)>(s: SC.Scheduler<O>, op: O, ghost readOnly: bool, ghost app: App<S, O, R>,
                                        ghost ids: seq<nat>, ghost w: World<S, O, R>)
    returns (r: SC.Outcome, ghost w': World<S, O, R>)
    requires InRun(s, ids, app, w)
    modifies s, s.cells
    ensures InRun(s, ids, app, w') && Reaches(app, w, w') && fresh(s.cells - old(s.cells))
    ensures w' == if r == SC.Ok then Next(app, w, Executors.Add(Request(op, readOnly))) else w
  {
    var wal := NewWal(s.waiting + s.issued);
    r, w' := AddRecord(s, op, wal, readOnly, app, ids, w);
  }

  // ----- scheduling -----

  lemma {:induction false} CompatibleAt<O>(cells: seq<SC.Cell<O>>, commute: (O, O) -> bool, p: nat, q: nat)
    requires SC.Compatible(cells, commute) && p < q < |cells| && !cells[q].wal.marked
    ensures cells[p].op.Some? && cells[q].op.Some? && commute(cells[p].op.value, cells[q].op.value)
  {
    if p == 0 {
      assert cells[1..][q - 1] == cells[q];
    } else {
      CompatibleAt(cells[1..], commute, p - 1, q - 1);
    }
  }

  /** The operation of a moved cell. */
  lemma MovedOp<S, O, R>(w: World<S, O, R>, waiting: seq<SC.Cell<O>>, moved: seq<SC.Cell<O>>, id: nat) returns (p: nat)
    requires Queue(waiting + moved, w) && w.next <= id < w.next + |moved|
    ensures id < |w.reqs| && p == w.next + |moved| - 1 - id && p < |moved| && moved[p].op == Some(w.reqs[id].op)
  {
    p := w.next + |moved| - 1 - id;
    assert (waiting + moved)[|waiting| + p] == moved[p];
  }

  lemma PassesIssued<S, O, R>(app: App<S, O, R>, w: World<S, O, R>, moved: seq<SC.Cell<O>>,
                              issued: seq<SC.Cell<O>>, ids: seq<nat>, id: nat, i: nat, p: nat)
    requires Listed(issued, SC.Marks(issued), ids, w) && SC.Compatible(moved + issued, app.commute)
    requires p < |moved| && id < |w.reqs| && moved[p].op == Some(w.reqs[id].op)
    requires i < w.next && i !in w.freed && !w.phase[i].Marked?
    ensures app.commute(w.reqs[id].op, w.reqs[i].op)
  {
    assert i in ids;
    var q :| 0 <= q < |ids| && ids[q] == i;
    assert (moved + issued)[|moved| + q] == issued[q] && !SC.Marks(issued)[q];
    CompatibleAt(moved + issued, app.commute, p, |moved| + q);
  }

  lemma PassesOlder<S, O, R>(app: App<S, O, R>, w: World<S, O, R>, waiting: seq<SC.Cell<O>>, moved: seq<SC.Cell<O>>,
                             issued: seq<SC.Cell<O>>, ids: seq<nat>, id: nat, i: nat)
    requires Listed(issued, SC.Marks(issued), ids, w) && Queue(waiting + moved, w) && Open(moved)
    requires SC.Compatible(moved + issued, app.commute) && w.next <= id < w.next + |moved| && i < id < |w.reqs|
    ensures i in w.freed || w.phase[i].Marked? || app.commute(w.reqs[id].op, w.reqs[i].op)
  {
    var p := MovedOp(w, waiting, moved, id);
    if i >= w.next {
      var q := MovedOp(w, waiting, moved, i);
      assert moved[q] in moved;
      CompatibleAt(moved + issued, app.commute, p, q);
    } else if i !in w.freed && !w.phase[i].Marked? {
      PassesIssued(app, w, moved, issued, ids, id, i, p);
    }
  }

  /** What the list moves to the executors, the machine may enqueue. */
  lemma MovedMayIssue<S, O, R>(app: App<S, O, R>, w: World<S, O, R>, waiting: seq<SC.Cell<O>>, moved: seq<SC.Cell<O>>,
                               issued: seq<SC.Cell<O>>, ids: seq<nat>, id: nat)
    requires Listed(issued, SC.Marks(issued), ids, w) && Queue(waiting + moved, w) && Open(moved)
    requires SC.Compatible(moved + issued, app.commute) && w.next <= id < w.next + |moved|
    ensures id < |w.reqs| && MayIssue(app, w, id)
  {
    forall i: nat | i < id
      ensures i in w.freed || w.phase[i].Marked? || app.commute(w.reqs[id].op, w.reqs[i].op)
    {
      PassesOlder(app, w, waiting, moved, issued, ids, id, i);
    }
  }

  lemma {:induction false} OldestLength<O>(cells: seq<SC.Cell<O>>)
    requires forall c <- cells :: c.op.Some?
    ensures |SC.OldestFirst(cells)| == |cells|
  {
    if cells != [] {
      OldestLength(cells[1..]);
    }
  }

  ghost function Down(top: nat, m: nat): (r: seq<nat>)
    requires m <= top
    ensures |r| == m && forall k {:trigger r[k]} :: 0 <= k < m ==> r[k] == top - 1 - k
  {
    seq(m, k requires 0 <= k < m => top - 1 - k)
  }

  lemma DownCovers(top: nat, m: nat, id: nat)
    requires m <= top && top - m <= id < top
    ensures id in Down(top, m)
  {
    assert Down(top, m)[top - 1 - id] == id;
  }

  lemma IssuedPhases<S, O, R>(w: World<S, O, R>, w': World<S, O, R>, m: nat)
    requires PhasesOk(w) && w.next + m <= |w.reqs| && IssuedTo(w, w', w.next + m)
    ensures PhasesOk(w')
  {
    forall id | id in w'.freed
      ensures id < |w'.phase| && w'.phase[id].Marked?
    {
      assert id in w.freed;
      assert w.phase[id] == w.phase[id];
    }
    forall id | 0 <= id < |w'.phase|
      ensures w'.phase[id].Waiting? <==> w'.next <= id
    {
      assert w.phase[id] == w.phase[id];
    }
  }

  lemma IssuedListed<S, O, R>(w: World<S, O, R>, w': World<S, O, R>, waiting: seq<SC.Cell<O>>, moved: seq<SC.Cell<O>>,
                              issued: seq<SC.Cell<O>>, marks: seq<bool>, open: seq<bool>, ids: seq<nat>)
    requires Listed(issued, marks, ids, w) && Queue(waiting + moved, w) && PhasesOk(w)
    requires |open| == |moved| && forall b <- open :: !b
    requires IssuedTo(w, w', w.next + |moved|)
    ensures Listed(moved + issued, open + marks, Down(w'.next, |moved|) + ids, w') && Queue(waiting, w')
  {
    var m, x := |moved|, |waiting|;
    var ids' := Down(w'.next, m) + ids;
    forall k {:trigger ids'[k]} | 0 <= k < |ids'|
      ensures ids'[k] < w'.next && (moved + issued)[k].op == Some(w'.reqs[ids'[k]].op)
      ensures (open + marks)[k] <==> w'.phase[ids'[k]].Marked?
    {
      if k < m {
        assert open[k] in open;
        assert (waiting + moved)[x + k] == moved[k];
      } else {
        assert ids'[k] == ids[k - m];
      }
    }
    forall i, j | 0 <= i < j < |ids'|
      ensures ids'[j] < ids'[i]
    {
      assert m <= i ==> ids'[i] == ids[i - m];
      assert m <= j ==> ids'[j] == ids[j - m];
    }
    forall id: nat {:trigger id in ids'} | id < w'.next
      ensures id in w'.freed || id in ids'
    {
      if w.next <= id {
        DownCovers(w'.next, m, id);
      } else {
        assert id in w.freed || id in ids;
      }
    }
    forall k {:trigger waiting[k]} | 0 <= k < x
      ensures waiting[k].op == Some(w'.reqs[|w'.reqs| - 1 - k].op)
    {
      assert (waiting + moved)[k] == waiting[k];
    }
  }

  lemma IssuedSentAs<S, O, R>(w: World<S, O, R>, w': World<S, O, R>, sent: seq<(nat, O)>, sent': seq<(nat, O)>,
                              added: seq<O>, m: nat)
    requires SentAs(sent, added, w) && IssuedTo(w, w', w.next + m) && |sent'| == w.next + m
    ensures SentAs(sent', added, w')
  {
    forall id {:trigger w'.phase[id]} | 0 <= id < |w'.phase| && w'.phase[id].Queued?
      ensures w'.phase[id].core == ExecutorOf(id, |w'.cores|)
    {
      assert w.phase[id] == w.phase[id];
    }
  }

  /** The steps of the machine behind a pass of the list that moved some cells. */
  lemma PassMirrored<S(!new), O(!new), R(!new)>(app: App<S, O, R>, w: World<S, O, R>, waiting: seq<SC.Cell<O>>,
                                                moved: seq<SC.Cell<O>>,
                                                issued: seq<SC.Cell<O>>, sent: seq<(nat, O)>, sent': seq<(nat, O)>,
                                                added: seq<O>, ids: seq<nat>)
    returns (w': World<S, O, R>)
    requires 0 < |w.cores| && w.scanned == 0
    requires Mirrored(issued, SC.Marks(issued), waiting + moved, sent, added, ids, w)
    requires Open(moved) && SC.Compatible(moved + issued, app.commute) && |sent'| == |sent| + |moved|
    ensures Reaches(app, w, w') && |w'.cores| == |w.cores| && w'.next == |sent'| && w'.scanned == 0
    ensures Mirrored(moved + issued, SC.Marks(moved + issued), waiting, sent', added, Down(w'.next, |moved|) + ids, w')
  {
    forall id: nat {:trigger MayIssue(app, w, id)} | w.next <= id < w.next + |moved|
      ensures MayIssue(app, w, id)
    {
      MovedMayIssue(app, w, waiting, moved, issued, ids, id);
    }
    w' := IssueMany(app, w, |moved|);
    IssuedPhases(w, w', |moved|);
    MarksConcat(moved, issued);
    IssuedListed(w, w', waiting, moved, issued, SC.Marks(issued), SC.Marks(moved), ids);
    IssuedSentAs(w, w', sent, sent', added, |moved|);
  }

  lemma MarksConcat<O>(a: seq<SC.Cell<O>>, b: seq<SC.Cell<O>>)
    ensures SC.Marks(a + b) == SC.Marks(a) + SC.Marks(b)
    ensures Open(a) ==> forall m <- SC.Marks(a) :: !m
  {
  }

  lemma Tail<O>(waiting: seq<SC.Cell<O>>, issued: seq<SC.Cell<O>>, waiting': seq<SC.Cell<O>>, issued': seq<SC.Cell<O>>)
    returns (moved: seq<SC.Cell<O>>)
    requires waiting' + issued' == waiting + issued && waiting' <= waiting
    ensures waiting == waiting' + moved && issued' == moved + issued
  {
    var n := |waiting'|;
    moved := waiting[n..];
    assert (waiting' + issued')[n..] == issued' && (waiting + issued)[n..] == moved + issued;
  }

  /** What is no longer waiting has been sent. */
  lemma MovedSent<O>(sent: seq<(nat, O)>, waiting: seq<SC.Cell<O>>, sent': seq<(nat, O)>, waiting': seq<SC.Cell<O>>,
                     added: seq<O>)
    requires forall c <- waiting + waiting' :: c.op.Some?
    requires SC.Ops(sent) + SC.OldestFirst(waiting) == added == SC.Ops(sent') + SC.OldestFirst(waiting')
    ensures |sent| + |waiting| == |sent'| + |waiting'|
  {
    OldestLength(waiting);
    OldestLength(waiting');
  }

  lemma OpenParts<O>(waiting: seq<SC.Cell<O>>, waiting': seq<SC.Cell<O>>, moved: seq<SC.Cell<O>>)
    requires waiting == waiting' + moved && Open(waiting)
    ensures Open(waiting') && Open(moved)
  {
  }

  /** Schedule moves the oldest waiting cells to the issued ones. */
  method Pass<O>(s: SC.Scheduler<O>, commute: (O, O) -> bool) returns (r: SC.Outcome, ghost moved: seq<SC.Cell<O>>)
    requires s.Valid() && s.Conserved() && SC.Compatible(s.issued, commute) && Open(s.waiting)
    modifies s
    ensures s.Valid() && s.Conserved() && SC.Compatible(s.issued, commute) && s.added == old(s.added)
    ensures s.cells == old(s.cells) && s.waiting + s.issued == old(s.waiting + s.issued)
    ensures SC.Marks(old(s.issued)) == old(SC.Marks(s.issued)) && Open(s.waiting) && Open(moved)
    ensures old(s.waiting) == s.waiting + moved && s.issued == moved + old(s.issued)
    ensures |s.sent| == |old(s.sent)| + |moved|
    ensures r == if s.waiting == [] then SC.Ok else SC.NonCommute
  {
    ghost var waiting, issued, sent := s.waiting, s.issued, s.sent;
    r := s.Schedule(commute);
    moved := Tail(waiting, issued, s.waiting, s.issued);
    MovedSent(sent, waiting, s.sent, s.waiting, s.added);
    OpenParts(waiting, s.waiting, moved);
  }

  /** In a tested world an issued operation commutes with an older one that is unfinished. */
  lemma TestedPair<S, O, R>(app: App<S, O, R>, w: World<S, O, R>, cells: seq<SC.Cell<O>>, marks: seq<bool>,
                            ids: seq<nat>, p: nat, q: nat)
    requires PhasesOk(w) && Tested(app, w) && Listed(cells, marks, ids, w) && p < q < |cells| && !marks[q]
    ensures cells[p].op.Some? && cells[q].op.Some? && app.commute(cells[p].op.value, cells[q].op.value)
  {
    assert ids[q] < ids[p];
    assert Passes(app, w, ids[p], ids[q]);
  }

  /** Issued cells that mirror a tested world commute with their older unfinished ones. */
  lemma {:induction false} TestedCompatible<S, O, R>(app: App<S, O, R>, w: World<S, O, R>, cells: seq<SC.Cell<O>>,
                                                     ids: seq<nat>, k: nat)
    requires PhasesOk(w) && Tested(app, w) && Listed(cells, SC.Marks(cells), ids, w) && k <= |cells|
    ensures SC.Compatible(cells[k..], app.commute)
    decreases |cells| - k
  {
    if k < |cells| {
      TestedCompatible(app, w, cells, ids, k + 1);
      var rest := cells[k + 1..];
      assert cells[k..][1..] == rest && cells[k..][0] == cells[k] && cells[k].op == Some(w.reqs[ids[k]].op);
      forall c | c in rest && !c.wal.marked
        ensures c.op.Some? && app.commute(cells[k].op.value, c.op.value)
      {
        var j :| 0 <= j < |rest| && rest[j] == c;
        TestedPair(app, w, cells, SC.Marks(cells), ids, k, k + 1 + j);
      }
    }
  }

  /** Schedule, and the tests and enqueuings of the machine that lead to the same world. */
  method Schedule<S(!new), O(!new), R(!new)>(s: SC.Scheduler<O>, app: App<S, O, R>, ghost ids: seq<nat>,
                                             ghost w: World<S, O, R>)
    returns (r: SC.Outcome, ghost ids': seq<nat>, ghost w': World<S, O, R>)
    requires InRun(s, ids, app, w) && w.scanned == 0
    modifies s
    ensures InRun(s, ids', app, w') && Reaches(app, w, w') && w'.scanned == 0 && s.cells == old(s.cells)
    ensures r == if w'.next == |w'.reqs| then SC.Ok else SC.NonCommute
  {
    ReachedInv(app, s.threads, w);
    TestedCompatible(app, w, s.issued, ids, 0);
    assert s.issued[0..] == s.issued;
    ghost var moved;
    r, moved := Pass(s, app.commute);
    w' := PassMirrored(app, w, s.waiting, moved, old(s.issued), old(s.sent), s.sent, s.added, ids);
    ids' := Down(w'.next, |moved|) + ids;
    Join(app, Init(app, s.threads), w, w');
  }

  // ----- freeing -----

  /** What is left of two sequences when the same positions are dropped. */
  lemma {:induction false} UnmarkedBoth<A, B>(a: seq<A>, b: seq<B>, marks: seq<bool>, k: nat) returns (q: nat)
    requires |a| == |b| == |marks| && k < |SC.Unmarked(a, marks)|
    ensures k < |SC.Unmarked(b, marks)| && q < |a| && !marks[q]
    ensures SC.Unmarked(a, marks)[k] == a[q] && SC.Unmarked(b, marks)[k] == b[q]
  {
    if marks[0] {
      q := UnmarkedBoth(a[1..], b[1..], marks[1..], k);
      q := q + 1;
    } else if k == 0 {
      q := 0;
    } else {
      q := UnmarkedBoth(a[1..], b[1..], marks[1..], k - 1);
      q := q + 1;
    }
  }

  lemma {:induction false} UnmarkedLength<A, B>(a: seq<A>, b: seq<B>, marks: seq<bool>)
    requires |a| == |b| == |marks|
    ensures |SC.Unmarked(a, marks)| == |SC.Unmarked(b, marks)|
  {
    if a != [] {
      UnmarkedLength(a[1..], b[1..], marks[1..]);
    }
  }

  lemma {:induction false} UnmarkedKeeps<A>(a: seq<A>, marks: seq<bool>, q: nat)
    requires q < |a| == |marks| && !marks[q]
    ensures a[q] in SC.Unmarked(a, marks)
  {
    if q > 0 {
      UnmarkedKeeps(a[1..], marks[1..], q - 1);
    }
  }

  lemma {:induction false} UnmarkedDescends(ids: seq<nat>, marks: seq<bool>)
    requires |ids| == |marks| && Descending(ids)
    ensures Descending(SC.Unmarked(ids, marks))
  {
    if ids != [] {
      UnmarkedDescends(ids[1..], marks[1..]);
      var rest := SC.Unmarked(ids[1..], marks[1..]);
      forall j | 0 <= j < |rest|
        ensures rest[j] < ids[0]
      {
        var q := UnmarkedBoth(ids[1..], ids[1..], marks[1..], j);
        assert ids[1..][q] == ids[q + 1];
      }
    }
  }

  ghost function Done(ids: seq<nat>, marks: seq<bool>): seq<nat>
    requires |ids| == |marks|
  {
    SC.Unmarked(ids, seq(|marks|, k requires 0 <= k < |marks| => !marks[k]))
  }

  lemma DoneMembers(ids: seq<nat>, marks: seq<bool>, id: nat)
    requires |ids| == |marks|
    ensures id in Done(ids, marks) <==> exists q :: 0 <= q < |ids| && ids[q] == id && marks[q]
  {
    var other := seq(|marks|, k requires 0 <= k < |marks| => !marks[k]);
    if id in Done(ids, marks) {
      var k :| 0 <= k < |Done(ids, marks)| && Done(ids, marks)[k] == id;
      var q := UnmarkedBoth(ids, ids, other, k);
      assert ids[q] == id && marks[q];
    }
    if q :| 0 <= q < |ids| && ids[q] == id && marks[q] {
      UnmarkedKeeps(ids, other, q);
    }
  }

  lemma DoneMarked<S, O, R>(issued: seq<SC.Cell<O>>, marks: seq<bool>, ids: seq<nat>, w: World<S, O, R>)
    requires Listed(issued, marks, ids, w)
    ensures forall id <- Done(ids, marks) :: id < |w.phase| && w.phase[id].Marked?
  {
    forall id <- Done(ids, marks)
      ensures id < |w.phase| && w.phase[id].Marked?
    {
      DoneMembers(ids, marks, id);
      var q :| 0 <= q < |ids| && ids[q] == id && marks[q];
    }
  }

  lemma GcListed<S, O, R>(issued: seq<SC.Cell<O>>, marks: seq<bool>, ids: seq<nat>, left: seq<bool>,
                          w: World<S, O, R>, w': World<S, O, R>)
    requires Listed(issued, marks, ids, w) && w' == w.(freed := w.freed + set id <- Done(ids, marks))
    requires |left| == |SC.Unmarked(issued, marks)| && forall b <- left :: !b
    ensures Listed(SC.Unmarked(issued, marks), left, SC.Unmarked(ids, marks), w')
  {
    UnmarkedLength(issued, ids, marks);
    UnmarkedDescends(ids, marks);
    var cells', ids' := SC.Unmarked(issued, marks), SC.Unmarked(ids, marks);
    forall k {:trigger ids'[k]} | 0 <= k < |ids'|
      ensures ids'[k] < w'.next && cells'[k].op == Some(w'.reqs[ids'[k]].op) && (left[k] <==> w'.phase[ids'[k]].Marked?)
    {
      var q := UnmarkedBoth(issued, ids, marks, k);
      assert ids[q] == ids'[k] && left[k] in left;
    }
    forall id: nat {:trigger id in ids'} | id < w'.next
      ensures id in w'.freed || id in ids'
    {
      assert id in w.freed || id in ids;
      if id !in w.freed {
        var q :| 0 <= q < |ids| && ids[q] == id;
        if marks[q] {
          DoneMembers(ids, marks, id);
        } else {
          UnmarkedKeeps(ids, marks, q);
        }
      }
    }
  }

  lemma GcMirrored<S(!new), O(!new), R(!new)>(app: App<S, O, R>, w: World<S, O, R>, issued: seq<SC.Cell<O>>,
                                              marks: seq<bool>, left: seq<bool>,
                                              waiting: seq<SC.Cell<O>>, sent: seq<(nat, O)>, added: seq<O>,
                                              ids: seq<nat>)
    returns (w': World<S, O, R>)
    requires Mirrored(issued, marks, waiting, sent, added, ids, w) && w.scanned == 0
    requires |left| == |SC.Unmarked(issued, marks)| && forall b <- left :: !b
    ensures Reaches(app, w, w') && |w'.cores| == |w.cores| && w'.scanned == 0
    ensures Mirrored(SC.Unmarked(issued, marks), left, waiting, sent, added, SC.Unmarked(ids, marks), w')
  {
    var done := Done(ids, marks);
    DoneMarked(issued, marks, ids, w);
    CollectAll(app, w, done);
    w' := w.(freed := w.freed + set id <- done);
    FreedMirrored(w, w', issued, marks, left, waiting, sent, added, ids);
  }

  lemma FreedMirrored<S, O, R>(w: World<S, O, R>, w': World<S, O, R>, issued: seq<SC.Cell<O>>, marks: seq<bool>,
                               left: seq<bool>, waiting: seq<SC.Cell<O>>, sent: seq<(nat, O)>, added: seq<O>,
                               ids: seq<nat>)
    requires Mirrored(issued, marks, waiting, sent, added, ids, w)
    requires |left| == |SC.Unmarked(issued, marks)| && forall b <- left :: !b
    requires w' == w.(freed := w.freed + set id <- Done(ids, marks))
    ensures Mirrored(SC.Unmarked(issued, marks), left, waiting, sent, added, SC.Unmarked(ids, marks), w')
  {
    DoneMarked(issued, marks, ids, w);
    GcListed(issued, marks, ids, left, w, w');
    FreedPhases(w, w', Done(ids, marks));
  }

  lemma FreedPhases<S, O, R>(w: World<S, O, R>, w': World<S, O, R>, done: seq<nat>)
    requires PhasesOk(w) && w' == w.(freed := w.freed + set id <- done)
    requires forall id <- done :: id < |w.phase| && w.phase[id].Marked?
    ensures PhasesOk(w')
  {
  }

  method Sweep<O>(s: SC.Scheduler<O>)
    requires s.Valid() && s.Conserved() && Open(s.waiting) && OwnRecords(s.waiting + s.issued)
    modifies s, s.cells
    ensures s.Valid() && s.Conserved() && Open(s.waiting) && OwnRecords(s.waiting + s.issued)
    ensures s.cells == old(s.cells)
    ensures s.waiting == old(s.waiting) && s.sent == old(s.sent) && s.added == old(s.added)
    ensures s.issued == SC.Unmarked(old(s.issued), old(SC.Marks(s.issued))) && forall b <- SC.Marks(s.issued) :: !b
  {
    ghost var issued := s.issued;
    s.Gc();
    assert SC.Marks(issued) == old(SC.Marks(s.issued));
    forall k | 0 <= k < |s.issued|
      ensures !s.issued[k].wal.marked && s.issued[k] in issued
    {
      SC.UnmarkedMembers(issued, s.issued[k]);
    }
    FewerRecords(s.waiting, issued, s.issued);
  }

  lemma FewerRecords<O>(waiting: seq<SC.Cell<O>>, issued: seq<SC.Cell<O>>, left: seq<SC.Cell<O>>)
    requires OwnRecords(waiting + issued) && forall c <- left :: c in issued
    ensures OwnRecords(waiting + left)
  {
    assert forall c <- waiting + left :: c in waiting + issued;
  }

  /** Freeing finished operations, and the machine's steps that collect them. */
  method Gc<S(!new), O(!new), R(!new)>(s: SC.Scheduler<O>, ghost app: App<S, O, R>, ghost ids: seq<nat>,
                                       ghost w: World<S, O, R>)
    returns (ghost ids': seq<nat>, ghost w': World<S, O, R>)
    requires InRun(s, ids, app, w) && w.scanned == 0
    modifies s, s.cells
    ensures InRun(s, ids', app, w') && Reaches(app, w, w') && w'.scanned == 0 && s.cells == old(s.cells)
  {
    Sweep(s);
    w' := GcMirrored(app, w, old(s.issued), old(SC.Marks(s.issued)), SC.Marks(s.issued), s.waiting, s.sent, s.added,
        ids);
    ids' := SC.Unmarked(ids, old(SC.Marks(s.issued)));
    Join(app, Init(app, s.threads), w, w');
  }

  /** What the main loop does in each turn. */
  method Turn<S(!new), O(!new), R(!new)>(s: SC.Scheduler<O>, app: App<S, O, R>, ghost ids: seq<nat>,
                                         ghost w: World<S, O, R>)
    returns (ghost ids': seq<nat>, ghost w': World<S, O, R>)
    requires InRun(s, ids, app, w) && w.scanned == 0
    modifies s, s.cells
    ensures InRun(s, ids', app, w') && Reaches(app, w, w') && w'.scanned == 0 && s.cells == old(s.cells)
  {
    var r;
    ghost var v;
    r, ids', v := Schedule(s, app, ids, w);
    ids', w' := Gc(s, app, ids', v);
    Join(app, w, v, w');
  }

  // ----- executors and replication -----

  /** Replication and the executors' steps up to the mark leave the list as it is. */
  lemma OthersMirror<S, O, R>(s: SC.Scheduler<O>, ids: seq<nat>, app: App<S, O, R>, w: World<S, O, R>, step: Step<O>)
    requires Mirrors(s, ids, w) && Inv(app, w) && Enabled(w, step) && (step.Resolve? || step.Dequeue? || step.Execute?)
    ensures Mirrors(s, ids, Next(app, w, step))
  {
    var w' := Next(app, w, step);
    if step.Dequeue? {
      assert RingOk(w, step.core);
      var id := w.cores[step.core].ring[0];
      assert w.phase[id].Queued?;
    }
    forall id | 0 <= id < |w.phase|
      ensures w'.phase[id].Marked? <==> w.phase[id].Marked?
      ensures w'.phase[id].Waiting? <==> w.phase[id].Waiting?
    {
    }
  }

  /** The list stays in its run through these steps. */
  lemma OthersInRun<S(!new), O(!new), R(!new)>(s: SC.Scheduler<O>, ids: seq<nat>, app: App<S, O, R>,
                                               w: World<S, O, R>, step: Step<O>)
    requires InRun(s, ids, app, w) && Enabled(w, step) && (step.Resolve? || step.Dequeue? || step.Execute?)
    ensures InRun(s, ids, app, Next(app, w, step))
  {
    ReachedInv(app, s.threads, w);
    OthersMirror(s, ids, app, w, step);
    ReachesOne(app, Init(app, s.threads), w, step, Next(app, w, step));
  }

  /** An executor marks the record of the operation at hand, which is issued. */
  method Finish<S(!new), O(!new), R(!new)>(s: SC.Scheduler<O>, cell: SC.Cell<O>, ghost k: nat, ghost ids: seq<nat>,
                                           ghost app: App<S, O, R>, ghost w: World<S, O, R>, ghost core: nat)
    requires InRun(s, ids, app, w) && Enabled(w, Executors.Finish(core))
    requires k < |ids| && k < |s.issued| && s.issued[k] == cell && w.cores[core].current == Some(ids[k])
    modifies cell.wal
    ensures InRun(s, ids, app, Next(app, w, Executors.Finish(core)))
  {
    Mark(s, cell, k);
    FinishMirrored(s.issued, old(SC.Marks(s.issued)), s.waiting, s.sent, s.added, ids, app, w, core, k);
    ReachesOne(app, Init(app, s.threads), w, Executors.Finish(core), Next(app, w, Executors.Finish(core)));
  }

  method Mark<O>(s: SC.Scheduler<O>, cell: SC.Cell<O>, ghost k: nat)
    requires s.Valid() && s.Conserved() && Open(s.waiting) && k < |s.issued| && s.issued[k] == cell
    requires OwnRecords(s.waiting + s.issued)
    modifies cell.wal
    ensures s.Valid() && s.Conserved() && Open(s.waiting) && SC.Marks(s.issued) == old(SC.Marks(s.issued))[k := true]
  {
    Apart(s, k);
    assert forall c <- s.waiting :: c in s.waiting + s.issued;
    assert forall c <- s.issued :: c in s.waiting + s.issued;
    cell.wal.marked := true;
  }

  /** The cell at one issued position is nowhere else in the list. */
  lemma Apart<O>(s: SC.Scheduler<O>, k: nat)
    requires s.Valid() && k < |s.issued|
    ensures forall j :: 0 <= j < |s.issued| && j != k ==> s.issued[j] != s.issued[k]
    ensures s.issued[k] !in s.waiting
  {
    var n := |s.waiting| + 1;
    forall j | 0 <= j < |s.issued|
      ensures s.list[n + j] == s.issued[j]
    {
    }
    forall j | 0 <= j < |s.waiting|
      ensures s.list[1 + j] == s.waiting[j]
    {
    }
  }

  lemma FinishMirrored<S, O, R>(issued: seq<SC.Cell<O>>, marks: seq<bool>, waiting: seq<SC.Cell<O>>,
                                sent: seq<(nat, O)>, added: seq<O>,
                                ids: seq<nat>, app: App<S, O, R>, w: World<S, O, R>, core: nat, k: nat)
    requires Mirrored(issued, marks, waiting, sent, added, ids, w) && Enabled(w, Executors.Finish(core))
    requires k < |ids| && w.cores[core].current == Some(ids[k])
    ensures Mirrored(issued, marks[k := true], waiting, sent, added, ids, Next(app, w, Executors.Finish(core)))
  {
  }

  // ----- what follows for the list -----

  /** Started from a new list, and with every call and every executor's step as above: once
      all operations have run, state and replies are those of one thread that takes the
      operations as the list accepted them. */
  lemma ListLikeOneThread<S(!new), O(!new), R(!new)>(s: SC.Scheduler<O>, ids: seq<nat>, app: App<S, O, R>,
                                                     proper: O -> bool, w: World<S, O, R>)
    requires InRun(s, ids, app, w)
    requires Serial.Sound(app.apply, app.commute, proper) && RequestsProper(w, proper) && AllRan(w)
    ensures w.outcome == Serial.Run(app.apply, app.init, Arrivals(w))
    ensures |Arrivals(w)| == |s.added| && forall i :: 0 <= i < |s.added| ==> Arrivals(w)[i].op == s.added[i]
  {
    var ws, steps :| Path(app, ws, steps) && ws[0] == Init(app, s.threads) && ws[|steps|] == w;
    assert IsRun(app, s.threads, ws, steps);
    LikeOneThread(app, proper, s.threads, ws, steps, |steps|);
  }
}
