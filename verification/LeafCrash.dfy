/** Insert and erase on a leaf: the new contents, the free-slot discipline, and what is
    left when the machine stops after any store. */
module LeafCrash {
  import opened Common
  import opened LeafModel

  // ----- stores that leave what is durable alone -----

  lemma BackgroundStep(l: Leaf, st: Store)
    requires Durable(l) && Background(l, st)
    ensures Fits(l, st) && SameDurable(l, Apply(l, st))
  {
  }

  lemma SameDurableKeeps(l: Leaf, r: Leaf)
    requires Durable(l) && r.Shaped() && SameDurable(l, r)
    ensures Durable(r) && ContentsOf(r, r.pcid) == ContentsOf(l, l.pcid)
  {
    forall t, u | 0 <= t < u < |r.entries|
      ensures SlotAt(r, r.pcid, t) != SlotAt(r, r.pcid, u)
    {
      assert SlotAt(l, l.pcid, t) != SlotAt(l, l.pcid, u);
    }
    assert ContentsOf(r, r.pcid) == ContentsOf(l, l.pcid);
  }

  /** Any number of background stores, in any order, repeated or left out. */
  lemma {:induction false} BackgroundRun(l: Leaf, sts: seq<Store>)
    requires Durable(l) && forall i :: 0 <= i < |sts| ==> Background(l, sts[i])
    ensures AllFit(l, sts) && Durable(Run(l, sts)) && SameDurable(l, Run(l, sts))
    ensures ContentsOf(Run(l, sts), l.pcid) == ContentsOf(l, l.pcid)
    decreases |sts|
  {
    if sts != [] {
      var front, last := sts[..|sts| - 1], sts[|sts| - 1];
      BackgroundRun(l, front);
      var l1 := Run(l, front);
      assert Background(l1, last);
      BackgroundStep(l1, last);
      forall i | 0 <= i < |sts|
        ensures Fits(l, sts[i])
      {
        if i < |front| {
          assert Fits(l, front[i]);
        }
      }
      assert Run(l, sts) == Apply(l1, last);
      SameDurableKeeps(l, Run(l, sts));
    }
  }

  // ----- what a store sequence adds up to -----

  lemma {:induction false} RunConcat(l: Leaf, a: seq<Store>, b: seq<Store>)
    requires l.Shaped() && AllFit(l, a) && AllFit(l, b)
    ensures AllFit(l, a + b) && AllFit(Run(l, a), b) && Run(l, a + b) == Run(Run(l, a), b)
    decreases |b|
  {
    forall i | 0 <= i < |b|
      ensures Fits(Run(l, a), b[i])
    {
      assert Fits(l, b[i]);
    }
    if b == [] {
      assert a + b == a;
    } else {
      var front := b[..|b| - 1];
      assert AllFit(l, front) by {
        assert forall i :: 0 <= i < |front| ==> front[i] == b[i];
      }
      RunConcat(l, a, front);
      assert (a + b)[..|a + b| - 1] == a + front;
    }
  }

  ghost function WithIdxs(l: Leaf, c: nat, idxs: seq<nat>): Leaf
    requires l.Shaped() && c < 2 && |idxs| <= |l.entries|
  {
    l.(v := l.v[c := l.v[c].(idxs := idxs + l.v[c].idxs[|idxs|..])])
  }

  lemma {:induction false} RunIdxs(l: Leaf, c: nat, idxs: seq<nat>)
    requires l.Shaped() && c < 2 && |idxs| <= |l.entries|
    ensures AllFit(l, IdxStores(c, idxs)) && Run(l, IdxStores(c, idxs)) == WithIdxs(l, c, idxs)
    decreases |idxs|
  {
    var sts := IdxStores(c, idxs);
    if idxs == [] {
      assert WithIdxs(l, c, idxs) == l by {
        assert [] + l.v[c].idxs[0..] == l.v[c].idxs;
        assert l.v[c := l.v[c]] == l.v;
      }
    } else {
      var front, last := idxs[..|idxs| - 1], |idxs| - 1;
      RunIdxs(l, c, front);
      assert sts[..|sts| - 1] == IdxStores(c, front);
      assert (front + l.v[c].idxs[last..])[last := idxs[last]] == idxs + l.v[c].idxs[|idxs|..];
      var l1 := WithIdxs(l, c, front);
      assert l1.v[c := l1.v[c].(idxs := l1.v[c].idxs[last := idxs[last]])] == WithIdxs(l, c, idxs).v;
    }
  }

  // ----- insert -----

  function Published(l: Leaf, c: nat, idxs: seq<nat>, n: nat): Leaf
    requires l.Shaped() && c < 2 && |idxs| <= |l.entries|
  {
    l.(v := l.v[c := Index(idxs + l.v[c].idxs[|idxs|..], n)], cid := c, pcid := c)
  }

  function Inserted(l: Leaf, p: nat, e: Kv): Leaf
    requires l.Shaped() && p <= l.Size() < |l.entries| && SlotAt(l, l.cid, l.Size()) < |l.entries|
  {
    Published(l.(entries := l.entries[SlotAt(l, l.cid, l.Size()) := e]), 1 - l.cid, InsertIdxs(l, p), l.Size() + 1)
  }

  lemma {:induction false} RunSnoc(l: Leaf, sts: seq<Store>, st: Store)
    requires l.Shaped() && AllFit(l, sts) && Fits(l, st)
    ensures AllFit(l, sts + [st]) && Fits(Run(l, sts), st) && Run(l, sts + [st]) == Apply(Run(l, sts), st)
  {
    assert (sts + [st])[..|sts|] == sts;
  }

  /** The size and the two words, after other stores. */
  lemma {:induction false} TailRun(l: Leaf, sts: seq<Store>, w: nat, n: nat)
    requires l.Shaped() && AllFit(l, sts) && w < 2
    ensures var all := sts + [WriteSize(w, n), SetConsistent(w), SetPersistent(w)];
            var l1 := Run(l, sts);
            AllFit(l, all) && Run(l, all) == l1.(v := l1.v[w := l1.v[w].(size := n)], cid := w, pcid := w)
  {
    var a := sts + [WriteSize(w, n)];
    var b := a + [SetConsistent(w)];
    RunSnoc(l, sts, WriteSize(w, n));
    RunSnoc(l, a, SetConsistent(w));
    RunSnoc(l, b, SetPersistent(w));
    assert sts + [WriteSize(w, n), SetConsistent(w), SetPersistent(w)] == b + [SetPersistent(w)];
  }

  lemma {:induction false} PublishRun(l: Leaf, c: nat, idxs: seq<nat>, n: nat)
    requires l.Shaped() && c < 2 && |idxs| <= |l.entries|
    ensures AllFit(l, Publish(c, idxs, n)) && Run(l, Publish(c, idxs, n)) == Published(l, c, idxs, n)
  {
    RunIdxs(l, c, idxs);
    TailRun(l, IdxStores(c, idxs), c, n);
    var l1 := WithIdxs(l, c, idxs);
    assert l1.v[c := l1.v[c].(size := n)] == Published(l, c, idxs, n).v;
  }

  lemma {:induction false} InsertRun(l: Leaf, p: nat, e: Kv)
    requires l.Shaped() && p <= l.Size() < |l.entries| && SlotAt(l, l.cid, l.Size()) < |l.entries|
    ensures AllFit(l, InsertStores(l, p, e)) && Run(l, InsertStores(l, p, e)) == Inserted(l, p, e)
  {
    var st, sts := WriteEntry(l.v[l.cid].idxs[l.Size()], e), Publish(1 - l.cid, InsertIdxs(l, p), l.Size() + 1);
    RunSnoc(l, [], st);
    assert [] + [st] == [st];
    PublishRun(l, 1 - l.cid, InsertIdxs(l, p), l.Size() + 1);
    PublishRun(Apply(l, st), 1 - l.cid, InsertIdxs(l, p), l.Size() + 1);
    RunConcat(l, [st], sts);
  }

  function Put(s: seq<Kv>, e: Kv): seq<Kv> {
    var p := LowerBound(s, e.key);
    if p < |s| && s[p].key == e.key then s else s[..p] + [e] + s[p..]
  }

  /** After an insert at position p the slots are the old ones with the first free slot
      moved to p: the live ones shift, the remaining free ones stay put. */
  lemma {:induction false} InsertedSlots(l: Leaf, p: nat, e: Kv, t: nat)
    requires Valid(l) && p <= l.Size() < |l.entries| && t < |l.entries|
    ensures var l' := Inserted(l, p, e);
            SlotAt(l', l'.pcid, t) ==
              SlotAt(l, l.pcid, if t < p then t else if t == p then l.Size() else if t <= l.Size() then t - 1 else t)
  {
  }

  lemma {:induction false} InsertedSlotsOk(l: Leaf, p: nat, e: Kv)
    requires Valid(l) && p <= l.Size() < |l.entries|
    ensures SlotsOk(Inserted(l, p, e), 1 - l.cid)
  {
    var l' := Inserted(l, p, e);
    forall t | 0 <= t < |l.entries|
      ensures SlotAt(l', l'.pcid, t) ==
              SlotAt(l, l.pcid, if t < p then t else if t == p then l.Size() else if t <= l.Size() then t - 1 else t)
    {
      InsertedSlots(l, p, e, t);
    }
  }

  lemma {:induction false} InsertedContents(l: Leaf, p: nat, e: Kv)
    requires Valid(l) && p <= l.Size() < |l.entries|
    requires SlotsOk(Inserted(l, p, e), 1 - l.cid)
    ensures ContentsOf(Inserted(l, p, e), 1 - l.cid) == Contents(l)[..p] + [e] + Contents(l)[p..]
  {
    var s' := Contents(l)[..p] + [e] + Contents(l)[p..];
    forall t | 0 <= t < |s'|
      ensures ContentsOf(Inserted(l, p, e), 1 - l.cid)[t] == s'[t]
    {
      InsertedSlots(l, p, e, t);
      var u := if t < p then t else if t == p then l.Size() else t - 1;
      assert u < l.Size() ==> SlotAt(l, l.pcid, u) != SlotAt(l, l.pcid, l.Size());
    }
  }

  lemma {:induction false} InsertedValid(l: Leaf, e: Kv)
    requires Valid(l) && l.Size() < |l.entries|
    requires var p := LowerBound(Contents(l), e.key);
             p < l.Size() ==> Contents(l)[p].key != e.key
    ensures var l' := Inserted(l, LowerBound(Contents(l), e.key), e);
            Valid(l') && Contents(l') == Put(Contents(l), e) && |l'.entries| == |l.entries|
  {
    var p := LowerBound(Contents(l), e.key);
    InsertedSlotsOk(l, p, e);
    InsertedContents(l, p, e);
    PutSorted(Contents(l), e);
  }

  lemma {:induction false} PutSorted(s: seq<Kv>, e: Kv)
    requires Sorted(s)
    ensures Sorted(Put(s, e))
  {
  }

  // ----- erase -----

  function Erased(l: Leaf, p: nat): Leaf
    requires l.Shaped() && p < l.Size() <= |l.entries|
  {
    Published(l, 1 - l.cid, EraseIdxs(l, p), l.Size() - 1)
  }

  lemma {:induction false} EraseRun(l: Leaf, p: nat)
    requires l.Shaped() && p < l.Size() <= |l.entries|
    ensures AllFit(l, EraseStores(l, p)) && Run(l, EraseStores(l, p)) == Erased(l, p)
  {
    PublishRun(l, 1 - l.cid, EraseIdxs(l, p), l.Size() - 1);
  }

  function Del(s: seq<Kv>, key: int): seq<Kv> {
    var p := LowerBound(s, key);
    if p < |s| && s[p].key == key then s[..p] + s[p + 1..] else s
  }

  /** After an erase at position p the freed slot is the first free one. */
  lemma {:induction false} ErasedSlots(l: Leaf, p: nat, t: nat)
    requires Valid(l) && p < l.Size() && t < |l.entries|
    ensures var l' := Erased(l, p);
            SlotAt(l', l'.pcid, t) ==
              SlotAt(l, l.pcid,
                     if t < p then t else if t < l.Size() - 1 then t + 1 else if t == l.Size() - 1 then p else t)
  {
  }

  lemma {:induction false} ErasedSlotsOk(l: Leaf, p: nat)
    requires Valid(l) && p < l.Size()
    ensures SlotsOk(Erased(l, p), 1 - l.cid)
  {
    var l' := Erased(l, p);
    forall t | 0 <= t < |l.entries|
      ensures SlotAt(l', l'.pcid, t) ==
              SlotAt(l, l.pcid,
                     if t < p then t else if t < l.Size() - 1 then t + 1 else if t == l.Size() - 1 then p else t)
    {
      ErasedSlots(l, p, t);
    }
  }

  lemma {:induction false} ErasedContents(l: Leaf, p: nat)
    requires Valid(l) && p < l.Size() && SlotsOk(Erased(l, p), 1 - l.cid)
    ensures ContentsOf(Erased(l, p), 1 - l.cid) == Contents(l)[..p] + Contents(l)[p + 1..]
  {
    var s' := Contents(l)[..p] + Contents(l)[p + 1..];
    forall t | 0 <= t < |s'|
      ensures ContentsOf(Erased(l, p), 1 - l.cid)[t] == s'[t]
    {
      ErasedSlots(l, p, t);
    }
  }

  lemma {:induction false} DelSorted(s: seq<Kv>, key: int)
    requires Sorted(s)
    ensures Sorted(Del(s, key))
  {
  }

  lemma {:induction false} ErasedValid(l: Leaf, key: int)
    requires Valid(l)
    requires var p := LowerBound(Contents(l), key); p < l.Size() && Contents(l)[p].key == key
    ensures var l' := Erased(l, LowerBound(Contents(l), key));
            Valid(l') && Contents(l') == Del(Contents(l), key) && |l'.entries| == |l.entries|
  {
    var p := LowerBound(Contents(l), key);
    ErasedSlotsOk(l, p);
    ErasedContents(l, p);
    DelSorted(Contents(l), key);
  }

  // ----- calls and crashes -----

  datatype Op = Insert(e: Kv) | Erase(key: int)

  /** The call has something to do: a new key and room for it, or a key that is there. */
  ghost predicate Effective(l: Leaf, op: Op)
    requires Valid(l)
  {
    match op
    case Insert(e) => l.Size() < |l.entries| && !Present(Contents(l), e.key)
    case Erase(key) => Present(Contents(l), key)
  }

  predicate Present(s: seq<Kv>, key: int) {
    var p := LowerBound(s, key);
    p < |s| && s[p].key == key
  }

  ghost function StoresOf(l: Leaf, op: Op): seq<Store>
    requires Valid(l)
  {
    if !Effective(l, op) then []
    else match op
      case Insert(e) => InsertStores(l, LowerBound(Contents(l), e.key), e)
      case Erase(key) => EraseStores(l, LowerBound(Contents(l), key))
  }

  ghost function Outcome(s: seq<Kv>, op: Op, room: bool): seq<Kv> {
    match op
    case Insert(e) => if room then Put(s, e) else s
    case Erase(key) => Del(s, key)
  }

  /** A call that runs to its end. */
  lemma {:induction false} Completed(l: Leaf, op: Op)
    requires Valid(l)
    ensures AllFit(l, StoresOf(l, op))
    ensures var l' := Run(l, StoresOf(l, op));
            && Valid(l') && |l'.entries| == |l.entries|
            && Contents(l') == Outcome(Contents(l), op, l.Size() < |l.entries|)
  {
    if Effective(l, op) {
      match op
      case Insert(e) =>
        InsertRun(l, LowerBound(Contents(l), e.key), e);
        InsertedValid(l, e);
      case Erase(key) =>
        EraseRun(l, LowerBound(Contents(l), key));
        ErasedValid(l, key);
    }
  }

  lemma {:induction false} PublishPrepares(l: Leaf, idxs: seq<nat>, n: nat, i: nat)
    requires Valid(l) && |idxs| <= l.Size() + 1 && |idxs| <= |l.entries|
    requires i + 1 < |Publish(1 - l.cid, idxs, n)|
    ensures Background(l, Publish(1 - l.cid, idxs, n)[i])
  {
    var c := 1 - l.cid;
    if i < |idxs| {
      assert Publish(c, idxs, n)[i] == IdxStores(c, idxs)[i];
    } else if i == |idxs| {
      assert Publish(c, idxs, n)[i] == WriteSize(c, n);
    } else {
      assert Publish(c, idxs, n)[i] == SetConsistent(c);
    }
  }

  lemma {:induction false} EntryPrepares(l: Leaf, e: Kv)
    requires Valid(l) && l.Size() < |l.entries|
    ensures Background(l, WriteEntry(l.v[l.cid].idxs[l.Size()], e))
  {
    assert forall t :: 0 <= t < l.Size() ==> SlotAt(l, l.pcid, t) != SlotAt(l, l.pcid, l.Size());
  }

  /** Every store but the last is a background store. */
  lemma {:induction false} PreparingStores(l: Leaf, op: Op, i: nat)
    requires Valid(l) && Effective(l, op) && i + 1 < |StoresOf(l, op)|
    ensures Background(l, StoresOf(l, op)[i])
  {
    match op
    case Insert(e) =>
      var p := LowerBound(Contents(l), e.key);
      if i == 0 {
        EntryPrepares(l, e);
      } else {
        var sts := Publish(1 - l.cid, InsertIdxs(l, p), l.Size() + 1);
        assert StoresOf(l, op)[i] == sts[i - 1];
        PublishPrepares(l, InsertIdxs(l, p), l.Size() + 1, i - 1);
      }
    case Erase(key) =>
      PublishPrepares(l, EraseIdxs(l, LowerBound(Contents(l), key)), l.Size() - 1, i);
  }

  /** Stop before the last store: whichever of the earlier stores reached memory, in
      whatever order and however often, recovery finds the old contents and a leaf that
      later operations can use. */
  lemma {:induction false} CrashBeforeSwitch(l: Leaf, op: Op, sts: seq<Store>)
    requires Valid(l) && Effective(l, op)
    requires forall i :: 0 <= i < |sts| ==> sts[i] in StoresOf(l, op)[..|StoresOf(l, op)| - 1]
    ensures AllFit(l, sts)
    ensures var r := Recover(Run(l, sts));
            Valid(r) && Contents(r) == Contents(l) && |r.entries| == |l.entries|
  {
    forall i | 0 <= i < |sts|
      ensures Background(l, sts[i])
    {
      var all := StoresOf(l, op);
      var k :| 0 <= k < |all| - 1 && all[k] == sts[i];
      PreparingStores(l, op, k);
    }
    BackgroundRun(l, sts);
    RecoverDurable(Run(l, sts));
  }

  lemma {:induction false} RecoverDurable(l: Leaf)
    requires Durable(l)
    ensures Valid(Recover(l)) && Contents(Recover(l)) == ContentsOf(l, l.pcid)
  {
    var r := Recover(l);
    assert forall t :: 0 <= t < |l.entries| ==> SlotAt(r, r.pcid, t) == SlotAt(l, l.pcid, t);
    assert SameDurable(l, r);
    SameDurableKeeps(l, r);
  }

  /** One call, interrupted after `stop` stores when that is before its end. */
  datatype Call = Call(op: Op, stop: nat)

  ghost predicate Interrupted(l: Leaf, call: Call)
    requires Valid(l)
  {
    call.stop < |StoresOf(l, call.op)|
  }

  ghost function After(l: Leaf, call: Call): Leaf
    requires Valid(l) && AllFit(l, StoresOf(l, call.op))
  {
    var sts := StoresOf(l, call.op);
    if Interrupted(l, call) then
      assert forall i :: 0 <= i < call.stop ==> sts[..call.stop][i] == sts[i];
      Recover(Run(l, sts[..call.stop]))
    else Run(l, sts)
  }

  /** Crash atomicity: an interrupted call leaves exactly the old contents, a completed
      one exactly the new, and the leaf is valid either way. */
  lemma {:induction false} CrashAtomic(l: Leaf, call: Call)
    requires Valid(l)
    ensures AllFit(l, StoresOf(l, call.op))
    ensures var l' := After(l, call);
            && Valid(l') && |l'.entries| == |l.entries|
            && Contents(l') == if Interrupted(l, call) then Contents(l)
                               else Outcome(Contents(l), call.op, l.Size() < |l.entries|)
  {
    Completed(l, call.op);
    if Interrupted(l, call) {
      var sts := StoresOf(l, call.op);
      assert forall i :: 0 <= i < call.stop ==> sts[..call.stop][i] == sts[..|sts| - 1][i];
      CrashBeforeSwitch(l, call.op, sts[..call.stop]);
    }
  }

  ghost predicate Step(l: Leaf, call: Call, l': Leaf) {
    Valid(l) && AllFit(l, StoresOf(l, call.op)) ==> l' == After(l, call)
  }

  ghost predicate History(ls: seq<Leaf>, calls: seq<Call>) {
    && |ls| == |calls| + 1 && Valid(ls[0])
    && forall k :: 0 <= k < |calls| ==> Step(ls[k], calls[k], ls[k + 1])
  }

  /** One step of a history, as a fact about the leaf before and after. */
  lemma {:induction false} StepValid(l: Leaf, call: Call, l': Leaf)
    requires Valid(l) && Step(l, call, l')
    ensures Valid(l') && |l'.entries| == |l.entries|
  {
    CrashAtomic(l, call);
  }

  /** Over any history of calls, completed or cut short, the leaf stays valid. */
  lemma {:induction false} ValidForEver(ls: seq<Leaf>, calls: seq<Call>, k: nat)
    requires History(ls, calls) && k < |ls|
    ensures Valid(ls[k]) && |ls[k].entries| == |ls[0].entries|
  {
    if k > 0 {
      ValidForEver(ls, calls, k - 1);
      assert Step(ls[k - 1], calls[k - 1], ls[k - 1 + 1]);
      StepValid(ls[k - 1], calls[k - 1], ls[k]);
    }
  }

  // ----- the free list is exact -----

  ghost predicate Free(l: Leaf, x: nat)
    requires Valid(l)
  {
    forall t :: 0 <= t < l.Size() ==> SlotAt(l, l.pcid, t) != x
  }

  /** In a valid leaf the positions beyond the size hold exactly the free slots; the
      slot an insert takes is one of them, so it never overwrites a live entry. */
  lemma {:induction false} FreeSlotsExact(l: Leaf, x: nat)
    requires Valid(l) && x < |l.entries|
    ensures Free(l, x) <==> exists t :: l.Size() <= t < |l.entries| && SlotAt(l, l.pcid, t) == x
  {
    if Free(l, x) {
      var cap := |l.entries|;
      var slots := seq(cap, t requires 0 <= t < cap => SlotAt(l, l.pcid, t));
      var t := Onto(slots, x);
      assert SlotAt(l, l.pcid, t) == x;
    }
  }

  /** A sequence of distinct numbers below its length contains them all. */
  lemma {:induction false} Onto(s: seq<nat>, x: nat) returns (t: nat)
    requires forall i :: 0 <= i < |s| ==> s[i] < |s|
    requires forall i, j :: 0 <= i < j < |s| ==> s[i] != s[j]
    requires x < |s|
    ensures t < |s| && s[t] == x
  {
    if x !in s {
      var vals := set i | 0 <= i < |s| :: s[i];
      DistinctSize(s, |s|);
      BelowSize(vals + {x}, |s|);
      assert false;
    }
    t :| 0 <= t < |s| && s[t] == x;
  }

  lemma {:induction false} DistinctSize(s: seq<nat>, n: nat)
    requires n <= |s| && forall i, j :: 0 <= i < j < |s| ==> s[i] != s[j]
    ensures |set i | 0 <= i < n :: s[i]| == n
  {
    if n > 0 {
      DistinctSize(s, n - 1);
      assert (set i | 0 <= i < n :: s[i]) == (set i | 0 <= i < n - 1 :: s[i]) + {s[n - 1]};
    }
  }

  // ----- new leaves -----

  /** A leaf built from sorted entries: both index arrays count up, copy 0 is in force. */
  function Built(cap: nat, s: seq<Kv>, filler: Kv): Leaf
    requires |s| <= cap
  {
    var ids := seq(cap, i requires 0 <= i < cap => i);
    Leaf(s + seq(cap - |s|, _ => filler), [Index(ids, |s|), Index(ids, 0)], 0, 0)
  }

  lemma {:induction false} BuiltValid(cap: nat, s: seq<Kv>, filler: Kv)
    requires |s| <= cap && Sorted(s)
    ensures Valid(Built(cap, s, filler)) && Contents(Built(cap, s, filler)) == s
  {
    var l := Built(cap, s, filler);
    assert forall t :: 0 <= t < cap ==> SlotAt(l, 0, t) == t;
    assert ContentsOf(l, 0) == s;
  }
}
