/** The scheduler's two loops one list cell at a time. The executors may mark records between
    any two cells: each of their steps leaves the list in its run and the scan where it is. */
module SchedulerScan {
  import opened Common
  import SC = Scheduler
  import opened Executors
  import opened SchedulerMachine

  // ----- where the scan is -----

  /** The next operation has passed every operation newer than issued cell k. */
  ghost predicate ScanAt<S, O, R>(ids: seq<nat>, w: World<S, O, R>, k: nat) {
    && k <= |ids| && w.next < |w.reqs|
    && w.scanned == w.next - if k == |ids| then 0 else ids[k] + 1
  }

  /** Freed operations pass the machine's test. */
  lemma {:induction false} SkipFreed<S(!new), O(!new), R(!new)>(app: App<S, O, R>, w: World<S, O, R>, upTo: nat)
    requires w.scanned <= upTo <= w.next < |w.reqs| == |w.phase|
    requires forall i: nat :: w.next - upTo <= i < w.next - w.scanned ==> i in w.freed
    ensures Reaches(app, w, w.(scanned := upTo))
    decreases upTo
  {
    if upTo == w.scanned {
      ReachesSelf(app, w);
    } else {
      SkipFreed(app, w, upTo - 1);
      var v := w.(scanned := upTo - 1);
      assert w.next - upTo in w.freed;
      ReachesOne(app, w, v, Test, w.(scanned := upTo));
    }
  }

  lemma NoneBetween(ids: seq<nat>, k: nat, i: nat)
    requires Descending(ids) && k <= |ids| && (k < |ids| ==> ids[k] < i) && (0 < k ==> i < ids[k - 1])
    ensures i !in ids
  {
  }

  /** From above cell k down to it there are only freed operations. */
  lemma SkipTo<S(!new), O(!new), R(!new)>(app: App<S, O, R>, w: World<S, O, R>, cells: seq<SC.Cell<O>>,
                                          marks: seq<bool>, ids: seq<nat>, k: nat) returns (w': World<S, O, R>)
    requires PhasesOk(w) && Listed(cells, marks, ids, w) && k <= |ids| && w.next < |w.reqs|
    requires w.scanned == w.next - if k == 0 then w.next else ids[k - 1]
    ensures Reaches(app, w, w') && w' == w.(scanned := w'.scanned) && ScanAt(ids, w', k)
  {
    var upTo := w.next - if k == |ids| then 0 else ids[k] + 1;
    assert k < |ids| ==> ids[k] < w.next;
    assert 0 < k < |ids| ==> ids[k] < ids[k - 1];
    assert 0 < k ==> ids[k - 1] < w.next;
    forall i: nat | w.next - upTo <= i < w.next - w.scanned
      ensures i in w.freed
    {
      NoneBetween(ids, k, i);
    }
    SkipFreed(app, w, upTo);
    w' := w.(scanned := upTo);
  }

  /** Steps of executors and replication leave the scan where it is. */
  lemma ScanStays<S, O, R>(ids: seq<nat>, app: App<S, O, R>, w: World<S, O, R>, step: Step<O>, k: nat)
    requires ScanAt(ids, w, k) && Enabled(w, step)
    requires step.Resolve? || step.Dequeue? || step.Execute? || step.Finish?
    ensures ScanAt(ids, Next(app, w, step), k)
  {
  }

  /** Replication and executors go on during a scan. */
  lemma OthersDuringScan<S(!new), O(!new), R(!new)>(s: SC.Scheduler<O>, ids: seq<nat>, app: App<S, O, R>,
                                                    w: World<S, O, R>, step: Step<O>, k: nat)
    requires InRun(s, ids, app, w) && ScanAt(ids, w, k)
    requires Enabled(w, step) && (step.Resolve? || step.Dequeue? || step.Execute?)
    ensures InRun(s, ids, app, Next(app, w, step)) && ScanAt(ids, Next(app, w, step), k)
  {
    OthersInRun(s, ids, app, w, step);
    ScanStays(ids, app, w, step, k);
  }

  /** An executor marks a record during a scan that is at cell k. */
  method FinishDuringScan<S(!new), O(!new), R(!new)>(s: SC.Scheduler<O>, cell: SC.Cell<O>, ghost j: nat,
                                                     ghost ids: seq<nat>, ghost app: App<S, O, R>,
                                                     ghost w: World<S, O, R>, ghost core: nat, ghost k: nat)
    requires InRun(s, ids, app, w) && ScanAt(ids, w, k) && Enabled(w, Executors.Finish(core))
    requires j < |ids| && j < |s.issued| && s.issued[j] == cell && w.cores[core].current == Some(ids[j])
    modifies cell.wal
    ensures InRun(s, ids, app, Next(app, w, Executors.Finish(core)))
    ensures ScanAt(ids, Next(app, w, Executors.Finish(core)), k)
  {
    SchedulerMachine.Finish(s, cell, j, ids, app, w, core);
    ScanStays(ids, app, w, Executors.Finish(core), k);
  }

  // ----- the scan -----

  /** The machine's test of issued cell k, and what it says. */
  lemma TestCell<S, O, R>(app: App<S, O, R>, w: World<S, O, R>, cells: seq<SC.Cell<O>>, marks: seq<bool>,
                          ids: seq<nat>, k: nat)
    requires PhasesOk(w) && Listed(cells, marks, ids, w) && ScanAt(ids, w, k) && k < |ids|
    ensures Enabled(w, Test) && cells[k].op.Some?
    ensures Next(app, w, Test) == w.(scanned := if marks[k] || app.commute(w.reqs[w.next].op, cells[k].op.value)
                                                then w.scanned + 1 else 0)
  {
    assert ids[k] == w.next - 1 - w.scanned;
  }

  lemma RescannedMirrors<S, O, R>(s: SC.Scheduler<O>, ids: seq<nat>, w: World<S, O, R>, n: nat)
    requires Mirrors(s, ids, w) && n <= w.next && w.next < |w.reqs|
    ensures Mirrors(s, ids, w.(scanned := n))
  {
  }

  /** What the list knows of the operation that waits longest. */
  lemma NextOp<S, O, R>(s: SC.Scheduler<O>, ids: seq<nat>, w: World<S, O, R>)
    requires s.Valid() && Mirrors(s, ids, w) && s.waiting != []
    ensures w.next < |w.reqs| && s.nextSchedule.op == Some(w.reqs[w.next].op) && |s.issued| == |ids|
  {
    assert s.nextSchedule == s.waiting[|s.waiting| - 1];
  }

  /** The scan begins behind the operation that waits longest. */
  method BeginScan<S(!new), O(!new), R(!new)>(s: SC.Scheduler<O>, ghost app: App<S, O, R>, ghost ids: seq<nat>,
                                              ghost w: World<S, O, R>)
    returns (cell: SC.Cell<O>, ghost w': World<S, O, R>)
    requires InRun(s, ids, app, w) && s.waiting != [] && w.scanned == 0
    ensures InRun(s, ids, app, w') && Reaches(app, w, w') && ScanAt(ids, w', 0) && cell == (s.issued + [s.tail])[0]
  {
    NextOp(s, ids, w);
    w' := SkipTo(app, w, s.issued, SC.Marks(s.issued), ids, 0);
    RescannedMirrors(s, ids, w, w'.scanned);
    Join(app, Init(app, s.threads), w, w');
    s.Follows(0);
    assert s.list[|s.waiting|] == s.nextSchedule;
    cell := s.nextSchedule.next;
  }

  /** One comparison: the record is read now, whatever it was when the scan began. */
  method ScanOne<S(!new), O(!new), R(!new)>(s: SC.Scheduler<O>, app: App<S, O, R>, cell: SC.Cell<O>, ghost k: nat,
                                            ghost ids: seq<nat>, ghost w: World<S, O, R>)
    returns (pass: bool, behind: SC.Cell<O>, ghost w': World<S, O, R>)
    requires InRun(s, ids, app, w) && s.waiting != [] && ScanAt(ids, w, k) && k < |s.issued| && s.issued[k] == cell
    ensures InRun(s, ids, app, w') && Reaches(app, w, w')
    ensures pass ==> ScanAt(ids, w', k + 1) && behind == (s.issued + [s.tail])[k + 1]
    ensures !pass ==> w'.scanned == 0
    ensures Enabled(w, Test) && (pass <==> Next(app, w, Test).scanned == w.scanned + 1)
  {
    NextOp(s, ids, w);
    TestCell(app, w, s.issued, SC.Marks(s.issued), ids, k);
    pass := cell.wal.marked || app.commute(s.nextSchedule.op.value, cell.op.value);
    s.Follows(k);
    behind := cell;
    w' := Next(app, w, Test);
    ReachesSelf(app, w);
    ReachesOne(app, w, w, Test, w');
    if pass {
      behind := cell.next;
      ghost var v := w';
      w' := SkipTo(app, v, s.issued, SC.Marks(s.issued), ids, k + 1);
      Join(app, w, v, w');
    }
    RescannedMirrors(s, ids, w, w'.scanned);
    Join(app, Init(app, s.threads), w, w');
  }

  // ----- the enqueuing at the end of a scan -----

  lemma EnqueueMirrored<S, O, R>(app: App<S, O, R>, w: World<S, O, R>, waiting: seq<SC.Cell<O>>, cell: SC.Cell<O>,
                                 issued: seq<SC.Cell<O>>, marks: seq<bool>, sent: seq<(nat, O)>, sent': seq<(nat, O)>,
                                 added: seq<O>, ids: seq<nat>)
    requires Mirrored(issued, marks, waiting + [cell], sent, added, ids, w) && |sent'| == |sent| + 1
    requires 0 < |w.cores| && w.scanned == w.next < |w.reqs|
    ensures Enabled(w, Enqueue)
    ensures Mirrored([cell] + issued, [false] + marks, waiting, sent', added, [w.next] + ids, Next(app, w, Enqueue))
  {
    var w' := Next(app, w, Enqueue);
    assert IssuedTo(w, w', w.next + 1);
    IssuedPhases(w, w', 1);
    IssuedListed(w, w', waiting, [cell], issued, marks, [false], ids);
    assert Down(w'.next, 1) == [w.next];
    IssuedSentAs(w, w', sent, sent', added, 1);
  }

  method EnqueueIt<O>(s: SC.Scheduler<O>) returns (ghost cell: SC.Cell<O>)
    requires s.Valid() && s.Conserved() && s.waiting != [] && Open(s.waiting)
    modifies s
    ensures s.Valid() && s.Conserved() && s.added == old(s.added) && s.cells == old(s.cells)
    ensures old(s.waiting) == s.waiting + [cell] && s.issued == [cell] + old(s.issued)
    ensures |s.sent| == |old(s.sent)| + 1 && Open(s.waiting)
    ensures SC.Marks(s.issued) == [false] + old(SC.Marks(s.issued))
    ensures s.waiting + s.issued == old(s.waiting + s.issued)
  {
    ghost var waiting, issued := s.waiting, s.issued;
    cell := waiting[|waiting| - 1];
    s.Enqueue();
    assert waiting == s.waiting + [cell] && cell in waiting;
    assert waiting + issued == s.waiting + ([cell] + issued);
    MarksFirst(cell, issued);
  }

  lemma MarksFirst<O>(cell: SC.Cell<O>, cells: seq<SC.Cell<O>>)
    ensures SC.Marks([cell] + cells) == [cell.wal.marked] + SC.Marks(cells)
  {
    assert ([cell] + cells)[1..] == cells;
  }

  /** An operation that has passed every issued one goes to its executor. */
  method EnqueueScanned<S(!new), O(!new), R(!new)>(s: SC.Scheduler<O>, ghost app: App<S, O, R>, ghost ids: seq<nat>,
                                                   ghost w: World<S, O, R>)
    returns (ghost w': World<S, O, R>)
    requires InRun(s, ids, app, w) && s.waiting != [] && ScanAt(ids, w, |ids|)
    modifies s
    ensures InRun(s, [w.next] + ids, app, w') && Reaches(app, w, w') && w'.scanned == 0 && s.cells == old(s.cells)
    ensures Enabled(w, Enqueue) && w' == Next(app, w, Enqueue)
  {
    ghost var cell := EnqueueIt(s);
    EnqueueMirrored(app, w, s.waiting, cell, old(s.issued), old(SC.Marks(s.issued)), old(s.sent), s.sent, s.added, ids);
    w' := Next(app, w, Enqueue);
    ReachesSelf(app, w);
    ReachesOne(app, w, w, Enqueue, w');
    Join(app, Init(app, s.threads), w, w');
  }

  // ----- freeing, one cell at a time -----

  /** s' is s without position k. */
  ghost predicate Without<T>(s: seq<T>, k: nat, s': seq<T>) {
    && k < |s| && |s'| == |s| - 1
    && forall j {:trigger s'[j]} :: 0 <= j < |s'| ==> s'[j] == s[if j < k then j else j + 1]
  }

  lemma Cut<T>(s: seq<T>, k: nat)
    requires k < |s|
    ensures Without(s, k, s[..k] + s[k + 1..])
  {
  }

  lemma StillThere<T>(s: seq<T>, k: nat, s': seq<T>, x: T)
    requires Without(s, k, s') && x in s && x != s[k]
    ensures x in s'
  {
    var q :| 0 <= q < |s| && s[q] == x;
    assert s'[if q < k then q else q - 1] == x;
  }

  lemma DropListed<S, O, R>(w: World<S, O, R>, w': World<S, O, R>, issued: seq<SC.Cell<O>>, marks: seq<bool>,
                            ids: seq<nat>, k: nat, issued': seq<SC.Cell<O>>, marks': seq<bool>, ids': seq<nat>)
    requires Listed(issued, marks, ids, w)
    requires Without(issued, k, issued') && Without(marks, k, marks') && Without(ids, k, ids')
    requires w' == w.(freed := w.freed + {ids[k]})
    ensures Listed(issued', marks', ids', w')
  {
    forall id: nat {:trigger id in ids'} | id < w'.next
      ensures id in w'.freed || id in ids'
    {
      assert id in w.freed || id in ids;
      if id !in w'.freed {
        StillThere(ids, k, ids', id);
      }
    }
  }

  lemma DropMirrored<S, O, R>(app: App<S, O, R>, w: World<S, O, R>, issued: seq<SC.Cell<O>>, marks: seq<bool>,
                              waiting: seq<SC.Cell<O>>, sent: seq<(nat, O)>, added: seq<O>, ids: seq<nat>, k: nat,
                              issued': seq<SC.Cell<O>>, marks': seq<bool>, ids': seq<nat>)
    requires Mirrored(issued, marks, waiting, sent, added, ids, w) && w.scanned == 0
    requires Without(issued, k, issued') && Without(marks, k, marks') && Without(ids, k, ids') && marks[k]
    ensures Enabled(w, Collect(ids[k]))
    ensures Mirrored(issued', marks', waiting, sent, added, ids', Next(app, w, Collect(ids[k])))
  {
    DropListed(w, Next(app, w, Collect(ids[k])), issued, marks, ids, k, issued', marks', ids');
  }

  lemma MarksWithout<O>(cells: seq<SC.Cell<O>>, k: nat, cells': seq<SC.Cell<O>>)
    requires Without(cells, k, cells')
    ensures Without(SC.Marks(cells), k, SC.Marks(cells'))
  {
  }

  lemma RecordsWithout<O>(waiting: seq<SC.Cell<O>>, issued: seq<SC.Cell<O>>, k: nat, issued': seq<SC.Cell<O>>)
    requires OwnRecords(waiting + issued) && Without(issued, k, issued')
    ensures OwnRecords(waiting + issued')
  {
    FewerRecords(waiting, issued, issued');
  }

  method SweepCell<O>(s: SC.Scheduler<O>, cell: SC.Cell<O>, ghost k: nat) returns (behind: SC.Cell<O>)
    requires s.Valid() && s.Conserved() && Open(s.waiting) && k < |s.issued| && s.issued[k] == cell
    modifies s, s.cells
    ensures s.Valid() && s.Conserved() && Open(s.waiting) && s.cells == old(s.cells)
    ensures s.waiting == old(s.waiting) && s.sent == old(s.sent) && s.added == old(s.added)
    ensures cell.wal.marked == old(SC.Marks(s.issued))[k]
    ensures !cell.wal.marked ==> s.issued == old(s.issued) && SC.Marks(s.issued) == old(SC.Marks(s.issued))
    ensures cell.wal.marked ==>
              Without(old(s.issued), k, s.issued) && Without(old(SC.Marks(s.issued)), k, SC.Marks(s.issued))
    ensures behind == (s.issued + [s.tail])[if cell.wal.marked then k else k + 1]
  {
    ghost var issued, marks := s.issued, SC.Marks(s.issued);
    behind := s.Sweep(cell, k);
    assert SC.Marks(issued) == marks;
    if cell.wal.marked {
      Cut(issued, k);
      MarksWithout(issued, k, s.issued);
    }
  }

  /** One turn of the loop that frees: the record is read now. */
  method SweepOne<S(!new), O(!new), R(!new)>(s: SC.Scheduler<O>, cell: SC.Cell<O>, ghost k: nat,
                                             ghost app: App<S, O, R>, ghost ids: seq<nat>, ghost w: World<S, O, R>)
    returns (behind: SC.Cell<O>, ghost ids': seq<nat>, ghost w': World<S, O, R>)
    requires InRun(s, ids, app, w) && w.scanned == 0 && k < |s.issued| && s.issued[k] == cell
    modifies s, s.cells
    ensures InRun(s, ids', app, w') && Reaches(app, w, w') && w'.scanned == 0 && s.cells == old(s.cells)
    ensures if cell.wal.marked then Without(ids, k, ids') else ids' == ids
    ensures behind == (s.issued + [s.tail])[if cell.wal.marked then k else k + 1]
  {
    behind := SweepCell(s, cell, k);
    ids', w' := ids, w;
    ReachesSelf(app, w);
    if cell.wal.marked {
      ids' := ids[..k] + ids[k + 1..];
      Cut(ids, k);
      DropMirrored(app, w, old(s.issued), old(SC.Marks(s.issued)), s.waiting, s.sent, s.added, ids, k,
                   s.issued, SC.Marks(s.issued), ids');
      w' := Next(app, w, Collect(ids[k]));
      ReachesOne(app, w, w, Collect(ids[k]), w');
      RecordsWithout(s.waiting, old(s.issued), k, s.issued);
    }
    Join(app, Init(app, s.threads), w, w');
  }
}
