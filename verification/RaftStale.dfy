/** A run of one server in which a packet that arrives again after compaction is appended
    once more, hides the entry that belongs there and is delivered a second time. */
module RaftStale {
  import opened LogModel
  import opened RaftTypes
  import opened RaftServer
  import opened ServerOrder

  const FIRST := Entry(1, 1)
  const SECOND := Entry(1, 2)
  const THIRD := Entry(1, 3)
  const FOURTH := Entry(1, 4)

  const START := InitServer(0, 2, 1)
  const ARRIVED := START.(term := 1, log := Log(0, [FIRST, SECOND, THIRD]), commit := 3)
  const APPLIED := ARRIVED.(applied := 3, delivered := [FIRST, SECOND, THIRD], logBase := 3)
  const COMPACTED := APPLIED.(log := Log(1, [SECOND, THIRD]), compacted := 1)
  const AGAIN := COMPACTED.(log := Log(1, [SECOND, THIRD, FIRST]))
  const HIDDEN := AGAIN.(commit := 4)
  const TWICE := HIDDEN.(applied := 4, delivered := [FIRST, SECOND, THIRD, FIRST], logBase := 4)
  const END := TWICE.(log := Log(2, [THIRD, FIRST]), compacted := 2)

  /** Everything applied is covered by a checkpoint at once. */
  function AtOnce(): nat -> int {
    (i: nat) => i
  }

  lemma ThreeArrive()
    ensures Serve(START, Three()) == Running(ARRIVED)
  {
    var s, es := START.(term := 1), [FIRST, SECOND, THIRD];
    assert AdoptTerm(START, 1) == s;
    assert !Same(s.log, 0, es, 0);
    assert es[0..] == es && s.log.entries + es == es;
    assert Merge(s, 0, es) == Done(s.(log := Log(0, es)), ());
  }

  /** One entry is applied and checkpointed. */
  lemma AppliesOne(s: Server, e: Entry)
    requires s.applied < s.commit && s.log.Has(s.applied + 1) && s.log.At(s.applied + 1) == e
    ensures ApplyAll(s, AtOnce()) ==
            ApplyAll(s.(applied := s.applied + 1, delivered := s.delivered + [e], logBase := s.applied + 1), AtOnce())
  {
  }

  lemma ThreeApplied()
    ensures ApplyAll(ARRIVED, AtOnce()) == APPLIED
  {
    var a1 := ARRIVED.(applied := 1, delivered := [FIRST], logBase := 1);
    var a2 := ARRIVED.(applied := 2, delivered := [FIRST, SECOND], logBase := 2);
    AppliesOne(ARRIVED, FIRST);
    assert ARRIVED.delivered + [FIRST] == a1.delivered;
    AppliesOne(a1, SECOND);
    assert a1.delivered + [SECOND] == a2.delivered;
    AppliesOne(a2, THIRD);
    assert a2.delivered + [THIRD] == APPLIED.delivered;
  }

  lemma ThreeTicked()
    ensures Serve(ARRIVED, Beat()) == Running(COMPACTED)
  {
    ThreeApplied();
    assert [FIRST, SECOND, THIRD][1..] == [SECOND, THIRD];
    assert Compact(APPLIED) == COMPACTED;
  }

  lemma FirstAgain()
    ensures Serve(COMPACTED, First()) == Running(AGAIN)
  {
    assert !Same(COMPACTED.log, 0, [FIRST], 0);
    assert [FIRST][0..] == [FIRST] && [SECOND, THIRD] + [FIRST] == [SECOND, THIRD, FIRST];
    assert Merge(COMPACTED, 0, [FIRST]) == Done(AGAIN, ());
  }

  lemma FourthArrives()
    ensures Serve(AGAIN, Fourth()) == Running(HIDDEN)
  {
    assert Same(AGAIN.log, 3, [FOURTH], 0);
    assert Agreeing(AGAIN.log, 3, [FOURTH]) == 1;
    assert AGAIN.log.At(3) == THIRD;
    assert Accept(AGAIN, AppendEntries(1, 3, 1, 4, [FOURTH])).Done?;
  }

  lemma FourthTicked()
    ensures Serve(HIDDEN, Beat()) == Running(END)
  {
    AppliesOne(HIDDEN, FIRST);
    assert HIDDEN.delivered + [FIRST] == TWICE.delivered;
    assert [SECOND, THIRD, FIRST][1..] == [THIRD, FIRST];
    assert Compact(TWICE) == END;
  }

  /** A call more. */
  lemma CallOn(run: seq<Server>, evs: seq<Event>, ev: Event, s': Server)
    requires ServerRun(run, evs) && Serve(run[|evs|], ev) == Running(s')
    ensures ServerRun(run + [s'], evs + [ev])
  {
    var run', evs' := run + [s'], evs + [ev];
    assert run'[0] == run[0];
    forall k | 0 <= k < |evs'|
      ensures Serve(run'[k], evs'[k]) == Running(run'[k + 1])
    {
      assert k < |evs| ==> evs'[k] == evs[k] && run'[k + 1] == run[k + 1];
    }
  }

  /** Some run has made these calls and ended in this state. */
  ghost predicate Came(evs: seq<Event>, s: Server) {
    exists run :: ServerRun(run, evs) && run[|evs|] == s
  }

  lemma CameOn(evs: seq<Event>, s: Server, ev: Event, s': Server)
    requires Came(evs, s) && Serve(s, ev) == Running(s')
    ensures Came(evs + [ev], s')
  {
    var run :| ServerRun(run, evs) && run[|evs|] == s;
    CallOn(run, evs, ev, s');
    assert (run + [s'])[|evs + [ev]|] == s';
  }

  function Three(): Event {
    AppendIn(AppendEntries(1, 0, 0, 3, [FIRST, SECOND, THIRD]))
  }

  function First(): Event {
    AppendIn(AppendEntries(1, 0, 0, 3, [FIRST]))
  }

  function Fourth(): Event {
    AppendIn(AppendEntries(1, 3, 1, 4, [FOURTH]))
  }

  function Beat(): Event {
    Period(false, AtOnce())
  }

  lemma CameTwo()
    ensures Came([Three(), Beat()], COMPACTED)
  {
    assert ServerRun([START], []);
    ThreeArrive();
    CameOn([], START, Three(), ARRIVED);
    assert [] + [Three()] == [Three()];
    ThreeTicked();
    CameOn([Three()], ARRIVED, Beat(), COMPACTED);
    assert [Three()] + [Beat()] == [Three(), Beat()];
  }

  lemma CameThree()
    ensures Came([Three(), Beat(), First()], AGAIN)
  {
    CameTwo();
    FirstAgain();
    CameOn([Three(), Beat()], COMPACTED, First(), AGAIN);
    assert [Three(), Beat()] + [First()] == [Three(), Beat(), First()];
  }

  lemma CameFour()
    ensures Came([Three(), Beat(), First(), Fourth()], HIDDEN)
  {
    CameThree();
    FourthArrives();
    CameOn([Three(), Beat(), First()], AGAIN, Fourth(), HIDDEN);
    assert [Three(), Beat(), First()] + [Fourth()] == [Three(), Beat(), First(), Fourth()];
  }

  /** Three entries arrive and are applied, and the first is compacted away. Its packet arrives
      once more, then the fourth entry: the first is delivered twice and the fourth never. */
  lemma DeliveredTwice() returns (s: Server)
    ensures Came([Three(), Beat(), First(), Fourth(), Beat()], s)
    ensures s.delivered == [FIRST, SECOND, THIRD, FIRST]
  {
    CameFour();
    FourthTicked();
    CameOn([Three(), Beat(), First(), Fourth()], HIDDEN, Beat(), END);
    assert [Three(), Beat(), First(), Fourth()] + [Beat()] == [Three(), Beat(), First(), Fourth(), Beat()];
    s := END;
  }
}
