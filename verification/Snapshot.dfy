/** Published leadership words and the double-read snapshot over all quorums. Each quorum
    has its own raft server and a published word; a reader copies all words, issues a
    fence, and compares them once more, while the quorums go on. */
module Snapshot {
  import opened RaftTypes
  import opened RaftServer
  import opened ServerOrder

  /** A server that counts as leader when it publishes; alone, it always does. */
  predicate Leading(s: Server) {
    |s.peers| == 1 || s.role == Leader
  }

  /** Twice the term, plus one for a leader. */
  function Word(s: Server): nat {
    2 * s.term + if Leading(s) then 1 else 0
  }

  // ----- the word of a server never goes back -----

  lemma TickWord(s: Server, timeout: bool, cp: nat -> int)
    ensures Word(s) <= Word(Tick(s, timeout, cp)) && |Tick(s, timeout, cp).peers| == |s.peers|
  {
    var s1 := if |s.peers| == 1 && s.role != Leader then BecomeLeader(s) else s;
    var s2 := if s1.role != Leader && timeout && 1 < |s1.peers| then BecomeCandidate(s1) else s1;
    ApplyAllFrame(s2, cp);
  }

  lemma AcceptWord(s: Server, ae: AppendEntries)
    requires Accept(s, ae).Done?
    ensures var s' := Accept(s, ae).server;
            s'.term == s.term && s'.role == s.role && s'.peers == s.peers
  {
    var s1 := CutAfter(s, ae).server;
    var s2 := Merge(s1, ae.prevIdx, ae.entries).server;
    assert s2.term == s.term && s2.role == s.role && s2.peers == s.peers;
  }

  lemma AppendWord(s: Server, ae: AppendEntries)
    requires RecvAppendEntries(s, ae).Done?
    ensures Word(s) <= Word(RecvAppendEntries(s, ae).server) && |RecvAppendEntries(s, ae).server.peers| == |s.peers|
  {
    var s1 := AdoptTerm(s, ae.term);
    assert Word(s) <= Word(s1) && s1.peers == s.peers;
    if Accept(s1, ae).Done? {
      AcceptWord(s1, ae);
    }
  }

  lemma AppendReplyWord(s: Server, src: nat, r: AppendReply, cp: nat -> int)
    requires RecvAppendReply(s, src, r, cp).Done?
    ensures Word(s) <= Word(RecvAppendReply(s, src, r, cp).server)
    ensures |RecvAppendReply(s, src, r, cp).server.peers| == |s.peers|
  {
    if src < |s.peers| {
      var p, cur := s.peers[src], r.currentIdx;
      var next := if p.nextIdx < cur + 1 then cur + 1 else p.nextIdx;
      var s1 := s.(peers := s.peers[src := p.(nextIdx := next, matchIdx := cur)]);
      ApplyAllFrame(s1, cp);
      ApplyAllFrame(s1.(commit := cur), cp);
    }
  }

  /** A leader gives up leadership only together with its term. */
  lemma WordForward(s: Server, ev: Event)
    requires Serve(s, ev).Running?
    ensures Word(s) <= Word(Serve(s, ev).server) && |Serve(s, ev).server.peers| == |s.peers|
  {
    match ev
    case Period(timeout, cp) => TickWord(s, timeout, cp);
    case AppendIn(ae) => AppendWord(s, ae);
    case AppendReplyIn(src, r, cp) => AppendReplyWord(s, src, r, cp);
    case _ =>
  }

  // ----- when a leader gives up its term -----

  /** The call tells the server of a later term, in a branch of its handler that listens. */
  predicate Overtakes(s: Server, ev: Event) {
    match ev
    case VoteRequestIn(vr) => s.term < vr.term
    case AppendIn(ae) => s.term < ae.term
    case VoteReplyIn(_, r) => s.role == Candidate && s.term < r.term
    case AppendReplyIn(src, r, _) =>
      && s.role == Leader && s.term < r.term && src < |s.peers|
      && !(r.currentIdx <= s.peers[src].matchIdx && s.peers[src].matchIdx != 0)
    case _ => false
  }

  lemma TickKeepsWord(s: Server, timeout: bool, cp: nat -> int)
    requires Leading(s)
    ensures Word(Tick(s, timeout, cp)) == Word(s)
  {
    var s1 := if |s.peers| == 1 && s.role != Leader then BecomeLeader(s) else s;
    ApplyAllFrame(s1, cp);
  }

  lemma AppendOvertakes(s: Server, ae: AppendEntries)
    requires Leading(s) && RecvAppendEntries(s, ae).Done?
    ensures Word(RecvAppendEntries(s, ae).server) != Word(s) <==> s.term < ae.term
  {
    var s1 := AdoptTerm(s, ae.term);
    if Accept(s1, ae).Done? {
      AcceptWord(s1, ae);
    }
  }

  lemma ReplyOvertakes(s: Server, src: nat, r: AppendReply, cp: nat -> int)
    requires Leading(s) && RecvAppendReply(s, src, r, cp).Done?
    ensures Word(RecvAppendReply(s, src, r, cp).server) != Word(s) <==> Overtakes(s, AppendReplyIn(src, r, cp))
  {
    if src < |s.peers| {
      var p, cur := s.peers[src], r.currentIdx;
      var next := if p.nextIdx < cur + 1 then cur + 1 else p.nextIdx;
      var s1 := s.(peers := s.peers[src := p.(nextIdx := next, matchIdx := cur)]);
      ApplyAllFrame(s1, cp);
      ApplyAllFrame(s1.(commit := cur), cp);
    }
  }

  /** A leader's word changes exactly when the call overtakes it. */
  lemma OvertakenExactly(s: Server, ev: Event)
    requires Leading(s) && Serve(s, ev).Running?
    ensures Word(Serve(s, ev).server) != Word(s) <==> Overtakes(s, ev)
  {
    match ev
    case Period(timeout, cp) => TickKeepsWord(s, timeout, cp);
    case AppendIn(ae) => AppendOvertakes(s, ae);
    case AppendReplyIn(src, r, cp) => ReplyOvertakes(s, src, r, cp);
    case _ =>
  }

  // ----- the machine -----

  const UNPUBLISHED: nat := 0xFFFF_FFFE

  datatype Quorum = Quorum(server: Server, word: nat)

  /** The reader copies words 0, 1, ..., then compares them again in the same order. */
  datatype Reader =
    | Copying(snap: seq<nat>)
    | Comparing(snap: seq<nat>, i: nat)
    | Finished(ok: bool, snap: seq<nat>)

  /** `fenced` records the words at the reader's last fence. */
  datatype World = World(quorums: seq<Quorum>, reader: Reader, fenced: seq<nat>)

  datatype Step = Handle(q: nat, ev: Event) | Publish(q: nat) | Read | Fence | Compare | Again

  ghost predicate Init(w: World) {
    && (forall q :: 0 <= q < |w.quorums| ==> w.quorums[q].word == UNPUBLISHED)
    && w.reader == Copying([]) && w.fenced == []
  }

  function Words(w: World): (r: seq<nat>)
    ensures |r| == |w.quorums| && forall q {:trigger r[q]} :: 0 <= q < |r| ==> r[q] == w.quorums[q].word
  {
    seq(|w.quorums|, q requires 0 <= q < |w.quorums| => w.quorums[q].word)
  }

  predicate Enabled(w: World, step: Step) {
    match step
    case Handle(q, ev) => q < |w.quorums| && Serve(w.quorums[q].server, ev).Running?
    case Publish(q) => q < |w.quorums|
    case Read => w.reader.Copying? && |w.reader.snap| < |w.quorums|
    case Fence => w.reader.Copying? && |w.reader.snap| == |w.quorums|
    case Compare => w.reader.Comparing? && w.reader.i <= |w.reader.snap| == |w.quorums|
    case Again => w.reader.Finished?
  }

  function Next(w: World, step: Step): World
    requires Enabled(w, step)
  {
    match step
    case Handle(q, ev) =>
      w.(quorums := w.quorums[q := w.quorums[q].(server := Serve(w.quorums[q].server, ev).server)])
    case Publish(q) =>
      w.(quorums := w.quorums[q := w.quorums[q].(word := Word(w.quorums[q].server) % 0x1_0000_0000)])
    case Read =>
      var word := w.quorums[|w.reader.snap|].word;
      if word % 2 == 0 then w.(reader := Finished(false, w.reader.snap + [word]))
      else w.(reader := Copying(w.reader.snap + [word]))
    case Fence => w.(reader := Comparing(w.reader.snap, 0), fenced := Words(w))
    case Compare =>
      var i := w.reader.i;
      if i == |w.reader.snap| then w.(reader := Finished(true, w.reader.snap))
      else if w.reader.snap[i] != w.quorums[i].word then w.(reader := Finished(false, w.reader.snap))
      else w.(reader := Comparing(w.reader.snap, i + 1))
    case Again => w.(reader := Copying([]))
  }

  /** Terms are C ints, short of the one whose word means unpublished. */
  ghost predicate TermsFit(w: World) {
    forall q :: 0 <= q < |w.quorums| ==> w.quorums[q].server.term < 0x8000_0000 - 1
  }

  ghost predicate IsRun(ws: seq<World>, steps: seq<Step>) {
    && |ws| == |steps| + 1 && Init(ws[0])
    && (forall i {:trigger ws[i]} :: 0 <= i < |ws| ==> TermsFit(ws[i]))
    && forall i {:trigger steps[i]} :: 0 <= i < |steps| ==>
        Enabled(ws[i], steps[i]) && ws[i + 1] == Next(ws[i], steps[i])
  }

  // ----- the invariant -----

  /** A word that was once published is not ahead of its server. */
  ghost predicate Past(q: Quorum) {
    q.word == UNPUBLISHED || q.word <= Word(q.server)
  }

  /** v was read from the quorum, and the quorum has not published anything less since. */
  ghost predicate Since(v: nat, word: nat) {
    v % 2 == 1 && v <= word && word != UNPUBLISHED
  }

  /** What is known of a word while the words are compared, before and after its turn. */
  ghost predicate Compared(v: nat, fenced: nat, word: nat, agreed: bool) {
    && Since(v, fenced) && fenced <= word && word != UNPUBLISHED
    && (agreed ==> v == fenced)
  }

  ghost predicate ReaderOk(w: World) {
    var n := |w.quorums|;
    match w.reader
    case Copying(snap) =>
      |snap| <= n && forall q {:trigger snap[q]} :: 0 <= q < |snap| ==> Since(snap[q], w.quorums[q].word)
    case Comparing(snap, i) =>
      && i <= n == |snap| == |w.fenced|
      && forall q {:trigger snap[q]} :: 0 <= q < n ==> Compared(snap[q], w.fenced[q], w.quorums[q].word, q < i)
    case Finished(ok, snap) =>
      ok ==> snap == w.fenced && |snap| == n && forall q {:trigger snap[q]} :: 0 <= q < n ==> snap[q] % 2 == 1
  }

  ghost predicate Inv(w: World) {
    && (forall q {:trigger w.quorums[q]} :: 0 <= q < |w.quorums| ==> Past(w.quorums[q]))
    && ReaderOk(w)
  }

  lemma StepPast(w: World, step: Step, q: nat)
    requires Inv(w) && Enabled(w, step) && TermsFit(w) && TermsFit(Next(w, step)) && q < |w.quorums|
    ensures var word, word' := w.quorums[q].word, Next(w, step).quorums[q].word;
            && |Next(w, step).quorums| == |w.quorums| && Past(Next(w, step).quorums[q])
            && (word != UNPUBLISHED ==> word <= word' && word' != UNPUBLISHED)
  {
    assert Past(w.quorums[q]);
    if step.Handle? && step.q == q {
      WordForward(w.quorums[q].server, step.ev);
    }
  }

  /** Words only move forward. */
  ghost predicate Onward(w: World, w': World) {
    && |w'.quorums| == |w.quorums|
    && forall q {:trigger w'.quorums[q]} :: 0 <= q < |w.quorums| && w.quorums[q].word != UNPUBLISHED ==>
                                              && w.quorums[q].word <= w'.quorums[q].word
                                              && w'.quorums[q].word != UNPUBLISHED
  }

  lemma OnwardReader(w: World, w': World)
    requires ReaderOk(w) && Onward(w, w') && w'.reader == w.reader && w'.fenced == w.fenced
    ensures ReaderOk(w')
  {
    if w.reader.Comparing? {
      var snap, i := w.reader.snap, w.reader.i;
      forall q | 0 <= q < |snap|
        ensures Compared(snap[q], w'.fenced[q], w'.quorums[q].word, q < i)
      {
        assert Compared(snap[q], w.fenced[q], w.quorums[q].word, q < i);
      }
    }
  }

  lemma CompareReader(w: World)
    requires ReaderOk(w) && Enabled(w, Compare)
    ensures ReaderOk(Next(w, Compare))
  {
    var snap, i := w.reader.snap, w.reader.i;
    if i == |snap| {
      assert snap == w.fenced;
    } else if snap[i] == w.quorums[i].word {
      forall q | 0 <= q < |snap|
        ensures Compared(snap[q], w.fenced[q], w.quorums[q].word, q < i + 1)
      {
        assert Compared(snap[q], w.fenced[q], w.quorums[q].word, q < i);
      }
    }
  }

  lemma StepReader(w: World, step: Step)
    requires Inv(w) && Enabled(w, step) && TermsFit(w) && TermsFit(Next(w, step))
    ensures ReaderOk(Next(w, step))
  {
    match step
    case Compare => CompareReader(w);
    case Fence =>
      forall q | 0 <= q < |w.reader.snap|
        ensures Compared(w.reader.snap[q], Words(w)[q], w.quorums[q].word, q < 0)
      {
        assert Since(w.reader.snap[q], w.quorums[q].word);
      }
    case Read =>
    case Again =>
    case _ =>
      var w' := Next(w, step);
      forall q | 0 <= q < |w.quorums|
        ensures w.quorums[q].word != UNPUBLISHED ==>
                  w.quorums[q].word <= w'.quorums[q].word && w'.quorums[q].word != UNPUBLISHED
      {
        StepPast(w, step, q);
      }
      OnwardReader(w, w');
  }

  lemma StepInv(w: World, step: Step)
    requires Inv(w) && Enabled(w, step) && TermsFit(w) && TermsFit(Next(w, step))
    ensures Inv(Next(w, step))
  {
    StepReader(w, step);
    forall q | 0 <= q < |w.quorums|
      ensures Past(Next(w, step).quorums[q])
    {
      StepPast(w, step, q);
    }
  }

  /** The fence recorded in a world lies in its past. */
  ghost predicate FencedAt(ws: seq<World>, i: nat, f: nat)
    requires i < |ws|
  {
    f < i && Words(ws[f]) == ws[i].fenced
  }

  lemma {:induction false} RunInv(ws: seq<World>, steps: seq<Step>, i: nat) returns (f: nat)
    requires IsRun(ws, steps) && i < |ws|
    ensures Inv(ws[i])
    ensures ws[i].reader.Comparing? || (ws[i].reader.Finished? && ws[i].reader.ok) ==> FencedAt(ws, i, f)
  {
    f := 0;
    if i > 0 {
      f := RunInv(ws, steps, i - 1);
      assert TermsFit(ws[i - 1]) && TermsFit(ws[i]);
      assert ws[i] == Next(ws[i - 1], steps[i - 1]);
      StepInv(ws[i - 1], steps[i - 1]);
      if steps[i - 1] == Fence {
        f := i - 1;
      }
    }
  }

  // ----- who led, and for how long -----

  /** Step p is the last before moment f that publishes the word of quorum q. */
  ghost predicate LastPublish(steps: seq<Step>, p: nat, f: nat, q: nat) {
    && p < f <= |steps| && steps[p] == Publish(q)
    && forall j {:trigger steps[j]} :: p < j < f ==> steps[j] != Publish(q)
  }

  /** A published word was the word of its server when it was last published. */
  lemma {:induction false} PublishedEarlier(ws: seq<World>, steps: seq<Step>, f: nat, q: nat) returns (p: nat)
    requires IsRun(ws, steps) && f < |ws| && q < |ws[f].quorums| && ws[f].quorums[q].word != UNPUBLISHED
    ensures LastPublish(steps, p, f, q) && q < |ws[p].quorums|
    ensures Word(ws[p].quorums[q].server) == ws[f].quorums[q].word
  {
    assert f > 0;
    var w := ws[f - 1];
    assert Enabled(w, steps[f - 1]) && ws[f] == Next(w, steps[f - 1]);
    if steps[f - 1] == Publish(q) {
      assert TermsFit(w);
      p := f - 1;
    } else {
      p := PublishedEarlier(ws, steps, f - 1, q);
    }
  }

  /** At moment g, quorum q's server led the term of word v. */
  ghost predicate LedAt(ws: seq<World>, g: nat, q: nat, v: nat) {
    && g < |ws| && q < |ws[g].quorums|
    && Leading(ws[g].quorums[q].server) && ws[g].quorums[q].server.term == v / 2
  }

  /** Step j hands quorum q's server a call that overtakes it. */
  ghost predicate OvertakenAt(ws: seq<World>, steps: seq<Step>, j: nat, q: nat) {
    && j < |ws| && j < |steps| && q < |ws[j].quorums|
    && steps[j].Handle? && steps[j].q == q && Overtakes(ws[j].quorums[q].server, steps[j].ev)
  }

  ghost predicate NotOvertaken(ws: seq<World>, steps: seq<Step>, p: nat, f: nat, q: nat) {
    forall j: nat {:trigger OvertakenAt(ws, steps, j, q)} :: p <= j < f ==> !OvertakenAt(ws, steps, j, q)
  }

  lemma StepWord(w: World, step: Step, q: nat)
    requires Enabled(w, step) && q < |w.quorums|
    ensures |Next(w, step).quorums| == |w.quorums|
    ensures Word(w.quorums[q].server) <= Word(Next(w, step).quorums[q].server)
    ensures Leading(w.quorums[q].server) ==>
              (Word(Next(w, step).quorums[q].server) != Word(w.quorums[q].server)
               <==> step.Handle? && step.q == q && Overtakes(w.quorums[q].server, step.ev))
  {
    var s := w.quorums[q].server;
    if step.Handle? && step.q == q {
      WordForward(s, step.ev);
      if Leading(s) {
        OvertakenExactly(s, step.ev);
      }
    }
  }

  lemma {:induction false} WordsGrow(ws: seq<World>, steps: seq<Step>, p: nat, f: nat, q: nat)
    requires IsRun(ws, steps) && p <= f < |ws| && q < |ws[p].quorums|
    ensures |ws[f].quorums| == |ws[p].quorums|
    ensures Word(ws[p].quorums[q].server) <= Word(ws[f].quorums[q].server)
    decreases f - p
  {
    if p < f {
      WordsGrow(ws, steps, p, f - 1, q);
      assert Enabled(ws[f - 1], steps[f - 1]);
      StepWord(ws[f - 1], steps[f - 1], q);
    }
  }

  /** One step of a run, as seen by a server that leads. */
  lemma OvertakenStep(ws: seq<World>, steps: seq<Step>, j: nat, q: nat)
    requires IsRun(ws, steps) && j < |steps| && q < |ws[j].quorums| && q < |ws[j + 1].quorums|
    requires Leading(ws[j].quorums[q].server)
    ensures OvertakenAt(ws, steps, j, q) <==> Word(ws[j + 1].quorums[q].server) != Word(ws[j].quorums[q].server)
  {
    assert Enabled(ws[j], steps[j]);
    StepWord(ws[j], steps[j], q);
  }

  lemma NotOvertakenSince(ws: seq<World>, steps: seq<Step>, p: nat, f: nat, q: nat)
    requires p <= f
    ensures NotOvertaken(ws, steps, p, f + 1, q) <==> NotOvertaken(ws, steps, p, f, q) && !OvertakenAt(ws, steps, f, q)
  {
  }

  /** A server that leads at moment p has the same word at f exactly when no call between
      overtakes it. */
  lemma {:induction false} SameWordExactly(ws: seq<World>, steps: seq<Step>, p: nat, f: nat, q: nat)
    requires IsRun(ws, steps) && p <= f < |ws| && q < |ws[p].quorums| && Leading(ws[p].quorums[q].server)
    ensures |ws[f].quorums| == |ws[p].quorums|
    ensures Word(ws[f].quorums[q].server) == Word(ws[p].quorums[q].server) <==> NotOvertaken(ws, steps, p, f, q)
    decreases f - p
  {
    if p < f {
      var g := f - 1;
      SameWordExactly(ws, steps, p, g, q);
      WordsGrow(ws, steps, p, g, q);
      WordsGrow(ws, steps, g, f, q);
      NotOvertakenSince(ws, steps, p, g, q);
      if NotOvertaken(ws, steps, p, g, q) {
        OvertakenStep(ws, steps, g, q);
      }
    }
  }

  lemma WordLeads(s: Server, v: nat)
    requires v % 2 == 1
    ensures Word(s) == v <==> Leading(s) && s.term == v / 2
  {
  }

  /** The word v of quorum q was last published by a server that led v's term, and that
      server still led it at moment f exactly when no call since has overtaken it. */
  ghost predicate LedBy(ws: seq<World>, steps: seq<Step>, f: nat, q: nat, v: nat) {
    exists p: nat :: LastPublish(steps, p, f, q) && LedSince(ws, steps, p, f, q, v)
  }

  ghost predicate LedSince(ws: seq<World>, steps: seq<Step>, p: nat, f: nat, q: nat, v: nat) {
    LedAt(ws, p, q, v) && (LedAt(ws, f, q, v) <==> NotOvertaken(ws, steps, p, f, q))
  }

  lemma LedExactly(ws: seq<World>, steps: seq<Step>, f: nat, q: nat)
    requires IsRun(ws, steps) && f < |ws| && q < |ws[f].quorums| && ws[f].quorums[q].word % 2 == 1
    ensures LedBy(ws, steps, f, q, ws[f].quorums[q].word)
  {
    var v := ws[f].quorums[q].word;
    var p := PublishedEarlier(ws, steps, f, q);
    WordLeads(ws[p].quorums[q].server, v);
    SameWordExactly(ws, steps, p, f, q);
    WordLeads(ws[f].quorums[q].server, v);
    assert LedSince(ws, steps, p, f, q, v);
  }

  /** A quorum that publishes after moment f, and publishes the word it had at f, led the
      word's term at f. */
  lemma RepublishedLed(ws: seq<World>, steps: seq<Step>, f: nat, j: nat, q: nat)
    requires IsRun(ws, steps) && f <= j < |steps| && q < |ws[f].quorums| && q < |ws[j + 1].quorums|
    requires steps[j] == Publish(q) && ws[j + 1].quorums[q].word == ws[f].quorums[q].word
    requires ws[f].quorums[q].word % 2 == 1
    ensures LedAt(ws, f, q, ws[f].quorums[q].word)
  {
    var _ := RunInv(ws, steps, f);
    assert Past(ws[f].quorums[q]);
    WordsGrow(ws, steps, f, j, q);
    assert TermsFit(ws[j]) && ws[j + 1] == Next(ws[j], steps[j]);
    WordLeads(ws[f].quorums[q].server, ws[f].quorums[q].word);
  }

  /** When the reader succeeds, there was one moment, before it finished, at which every
      quorum's published word was the one it returns, and each is the word of a leader. */
  lemma SnapshotIsOneMoment(ws: seq<World>, steps: seq<Step>, i: nat) returns (f: nat)
    requires IsRun(ws, steps) && i < |ws|
    requires ws[i].reader.Finished? && ws[i].reader.ok
    ensures f < i && Words(ws[f]) == ws[i].reader.snap
    ensures forall q: nat :: q < |ws[f].quorums| ==> LedBy(ws, steps, f, q, ws[i].reader.snap[q])
  {
    f := RunInv(ws, steps, i);
    var _ := RunInv(ws, steps, f);
    forall q: nat | q < |ws[f].quorums|
      ensures LedBy(ws, steps, f, q, ws[i].reader.snap[q])
    {
      assert Words(ws[f])[q] == ws[i].reader.snap[q];
      LedExactly(ws, steps, f, q);
    }
  }

  // ----- when the reader succeeds -----

  /** How far a reader has come that has met nothing but the words it began with. */
  ghost predicate Undisturbed(w: World, words: seq<nat>) {
    && Words(w) == words
    && match w.reader
       case Copying(snap) => snap <= words
       case Comparing(snap, i) => snap == words && i <= |words|
       case Finished(ok, snap) => ok && snap == words
  }

  /** Neither a word changes at the step, nor does the reader begin anew. */
  ghost predicate Quiet(w: World, step: Step, w': World) {
    Words(w') == Words(w) && step != Again
  }

  lemma StaysUndisturbed(w: World, step: Step, words: seq<nat>)
    requires Enabled(w, step) && Undisturbed(w, words) && Quiet(w, step, Next(w, step))
    requires forall v <- words :: v % 2 == 1
    ensures Undisturbed(Next(w, step), words)
  {
    if step == Read {
      var k := |w.reader.snap|;
      assert w.quorums[k].word == words[k] && words[k] in words;
      assert w.reader.snap + [words[k]] == words[..k + 1];
    } else if step == Compare && w.reader.i < |words| {
      assert w.reader.snap[w.reader.i] == words[w.reader.i] == w.quorums[w.reader.i].word;
    } else if step == Fence {
      assert w.reader.snap == words;
    }
  }

  /** If all words are those of leaders when the reader begins, and none changes until it ends,
      it succeeds with them. */
  lemma SucceedsUndisturbed(ws: seq<World>, steps: seq<Step>, i: nat, j: nat)
    requires IsRun(ws, steps) && i <= j < |ws| && ws[i].reader == Copying([]) && ws[j].reader.Finished?
    requires forall v <- Words(ws[i]) :: v % 2 == 1
    requires forall k {:trigger steps[k]} :: i <= k < j ==> Quiet(ws[k], steps[k], ws[k + 1])
    ensures ws[j].reader.ok && ws[j].reader.snap == Words(ws[i])
  {
    for k := i to j
      invariant Undisturbed(ws[k], Words(ws[i]))
    {
      assert steps[k] == steps[k];
      StaysUndisturbed(ws[k], steps[k], Words(ws[i]));
    }
  }
}
