/** What a client of the vote server sees, for any queue that keeps one priority per key: how
    many votes a title has, which changes are answered as done, and the rows of the top list. */
module VoteClient {
  import opened Common
  import opened Serial
  import opened Executors
  import opened VoteServer

  const WORD: nat := 0x1_0000_0000_0000_0000
  const HALF_WORD: nat := 0x1_0000_0000

  type Items = seq<Item<Op>>

  /** A queue that keeps a priority for each key: a new key gets the given one, and a change of
      a known key is made modulo 2^64 and reported, of an unknown one refused. */
  ghost predicate Tallies<Q(!new)>(pq: Queue<Q>, prio: Q -> map<nat, nat>) {
    && prio(pq.empty) == map[]
    && (forall k: nat, v: nat, q: Q {:trigger pq.insert(k, v, q)} :: k !in prio(q) ==>
          pq.insert(k, v, q).1 && prio(pq.insert(k, v, q).0) == prio(q)[k := v])
    && (forall k: nat, d: nat, q: Q {:trigger pq.increase(k, d, q)} ::
          && pq.increase(k, d, q).1 == (k in prio(q))
          && prio(pq.increase(k, d, q).0) == if k in prio(q) then prio(q)[k := (prio(q)[k] + d) % WORD] else prio(q))
    && (forall k: nat, d: nat, q: Q {:trigger pq.decrease(k, d, q)} ::
          && pq.decrease(k, d, q).1 == (k in prio(q))
          && prio(pq.decrease(k, d, q).0) == if k in prio(q) then prio(q)[k := (prio(q)[k] - d) % WORD] else prio(q))
  }

  // ----- requests that touch one key of one shard -----

  predicate OnQueue(item: Item<Op>, threads: nat, p: nat, kind: Kind)
    requires 0 < threads
  {
    && item.live && item.op.Update? && item.op.ds == Queues && item.op.kind == kind
    && item.op.key % threads == p
  }

  predicate Inserts(item: Item<Op>, threads: nat, p: nat, k: nat)
    requires 0 < threads
  {
    OnQueue(item, threads, p, INSERT) && item.op.key == k
  }

  /** Votes are for a key of 32 bits. */
  predicate Raises(item: Item<Op>, threads: nat, p: nat, k: nat)
    requires 0 < threads
  {
    OnQueue(item, threads, p, INCREASE_PRIO) && item.op.key % HALF_WORD == k
  }

  predicate Lowers(item: Item<Op>, threads: nat, p: nat, k: nat)
    requires 0 < threads
  {
    OnQueue(item, threads, p, DECREASE_PRIO) && item.op.key % HALF_WORD == k
  }

  /** What one request adds to the votes of the key. */
  function Vote(item: Item<Op>, threads: nat, p: nat, k: nat): int
    requires 0 < threads
  {
    if Raises(item, threads, p, k) then item.op.prio
    else if Lowers(item, threads, p, k) then 0 - item.op.prio
    else 0
  }

  /** The votes that arrived from place `from` on and before place j. */
  function Votes(items: Items, threads: nat, p: nat, k: nat, from: nat, j: nat): int
    requires 0 < threads && from <= j <= |items|
  {
    if from == j then 0 else Votes(items, threads, p, k, from, j - 1) + Vote(items[j - 1], threads, p, k)
  }

  predicate NoInsert(items: Items, threads: nat, p: nat, k: nat, j: nat)
    requires 0 < threads && j <= |items|
  {
    forall x :: 0 <= x < j ==> !Inserts(items[x], threads, p, k)
  }

  /** No key enters a queue twice, and priorities are 64-bit numbers. */
  ghost predicate Clean(items: Items, threads: nat)
    requires 0 < threads
  {
    && (forall x, y, p: nat, k: nat :: 0 <= x < y < |items| ==>
          !(Inserts(items[x], threads, p, k) && Inserts(items[y], threads, p, k)))
    && (forall x :: 0 <= x < |items| && items[x].op.Update? ==> items[x].op.prio < WORD)
  }

  // ----- the votes of a key -----

  ghost function After<Q>(pq: Queue<Q>, threads: nat, items: Items, j: nat): Store<Q>
    requires 0 < threads && j <= |items|
  {
    Run(Server(pq, threads).apply, map[], items[..j]).state
  }

  /** The state before and after the j-th request. */
  lemma AfterNext<Q>(pq: Queue<Q>, threads: nat, items: Items, j: nat)
    requires 0 < threads && j < |items|
    ensures After(pq, threads, items, j + 1) ==
            if items[j].live then Exec(pq, threads, items[j].op, After(pq, threads, items, j)).0
            else After(pq, threads, items, j)
  {
    assert items[..j + 1][..j] == items[..j];
  }

  lemma AfterNone<Q>(pq: Queue<Q>, threads: nat, items: Items)
    requires 0 < threads
    ensures After(pq, threads, items, 0) == map[]
  {
  }

  ghost function PrioAt<Q>(pq: Queue<Q>, prio: Q -> map<nat, nat>, m: Store<Q>, p: nat): map<nat, nat> {
    prio(At(pq, m, p).queue)
  }

  /** What one request does to the priority of a key in a shard. */
  ghost predicate PrioMoves(item: Item<Op>, threads: nat, p: nat, k: nat, was: map<nat, nat>, now: map<nat, nat>)
    requires 0 < threads
  {
    if Inserts(item, threads, p, k) then k in now && now[k] == item.op.prio
    else if k in was then k in now && (was[k] < WORD ==> now[k] == (was[k] + Vote(item, threads, p, k)) % WORD)
    else k !in now
  }

  lemma ExecPrio<Q(!new)>(pq: Queue<Q>, prio: Q -> map<nat, nat>, threads: nat, item: Item<Op>, m: Store<Q>, p: nat,
                          k: nat)
    requires 0 < threads && Tallies(pq, prio) && p < threads && item.live
    requires item.op.Update? && Inserts(item, threads, p, item.op.key) ==> item.op.key !in PrioAt(pq, prio, m, p)
    ensures PrioMoves(item, threads, p, k, PrioAt(pq, prio, m, p), PrioAt(pq, prio, Exec(pq, threads, item.op, m).0, p))
  {
    var m' := Exec(pq, threads, item.op, m).0;
    if item.op.Update? && item.op.key % threads == p {
      assert At(pq, m', p) == OnShard(pq, item.op, At(pq, m, p)).0;
    } else {
      assert At(pq, m', p) == At(pq, m, p);
    }
  }

  /** The key has, modulo 2^64, the priority it entered with and the votes since. */
  ghost predicate Tallied(items: Items, threads: nat, p: nat, k: nat, j: nat, now: map<nat, nat>)
    requires 0 < threads && j <= |items|
  {
    && (NoInsert(items, threads, p, k, j) ==> k !in now)
    && forall x {:trigger Inserts(items[x], threads, p, k)} :: 0 <= x < j && Inserts(items[x], threads, p, k) ==>
         k in now && now[k] == (items[x].op.prio + Votes(items, threads, p, k, x + 1, j)) % WORD
  }

  lemma AddModulo(a: int, b: int)
    ensures (a % WORD + b) % WORD == (a + b) % WORD
  {
    var q := a / WORD;
    assert a == q * WORD + a % WORD;
    assert a + b == q * WORD + (a % WORD + b);
    var r := (a % WORD + b) / WORD;
    assert (a % WORD + b) == r * WORD + (a % WORD + b) % WORD;
    assert a + b == (q + r) * WORD + (a % WORD + b) % WORD;
  }

  lemma TalliedStep(items: Items, threads: nat, p: nat, k: nat, j: nat, was: map<nat, nat>, now: map<nat, nat>)
    requires 0 < threads && j < |items| && Clean(items, threads) && Tallied(items, threads, p, k, j, was)
    requires if items[j].live then PrioMoves(items[j], threads, p, k, was, now) else now == was
    ensures Tallied(items, threads, p, k, j + 1, now)
  {
    forall x {:trigger Inserts(items[x], threads, p, k)} | 0 <= x < j + 1 && Inserts(items[x], threads, p, k)
      ensures k in now && now[k] == (items[x].op.prio + Votes(items, threads, p, k, x + 1, j + 1)) % WORD
    {
      if x < j {
        AddModulo(items[x].op.prio + Votes(items, threads, p, k, x + 1, j), Vote(items[j], threads, p, k));
      }
    }
  }

  lemma TalliedNext<Q(!new)>(pq: Queue<Q>, prio: Q -> map<nat, nat>, threads: nat, items: Items, p: nat, k: nat, j: nat)
    requires 0 < threads && Tallies(pq, prio) && p < threads && j < |items| && Clean(items, threads)
    requires var was, op := PrioAt(pq, prio, After(pq, threads, items, j), p), items[j].op;
             Tallied(items, threads, p, k, j, was)
             && (op.Update? && Inserts(items[j], threads, p, op.key) ==> op.key !in was)
    ensures Tallied(items, threads, p, k, j + 1, PrioAt(pq, prio, After(pq, threads, items, j + 1), p))
  {
    var m := After(pq, threads, items, j);
    AfterNext(pq, threads, items, j);
    if items[j].live {
      ExecPrio(pq, prio, threads, items[j], m, p, k);
    }
    TalliedStep(items, threads, p, k, j, PrioAt(pq, prio, m, p), PrioAt(pq, prio, After(pq, threads, items, j + 1), p));
  }

  /** At every place of the arrivals, every key of every shard has its tally. */
  lemma {:induction false} TalliedAt<Q(!new)>(pq: Queue<Q>, prio: Q -> map<nat, nat>, threads: nat, items: Items,
                                              p: nat, k: nat, j: nat)
    requires 0 < threads && Tallies(pq, prio) && p < threads && j <= |items| && Clean(items, threads)
    ensures Tallied(items, threads, p, k, j, PrioAt(pq, prio, After(pq, threads, items, j), p))
    decreases j
  {
    if j == 0 {
      AfterNone(pq, threads, items);
    } else {
      TalliedAt(pq, prio, threads, items, p, k, j - 1);
      var op := items[j - 1].op;
      if op.Update? && Inserts(items[j - 1], threads, p, op.key) {
        TalliedAt(pq, prio, threads, items, p, op.key, j - 1);
        assert NoInsert(items, threads, p, op.key, j - 1);
      }
      TalliedNext(pq, prio, threads, items, p, k, j - 1);
    }
  }

  // ----- titles -----

  predicate Titled(item: Item<Op>, k: nat) {
    item.live && item.op.Update? && item.op.ds == Titles && item.op.kind == PUT && item.op.key == k
  }

  predicate NoTitle(items: Items, k: nat, j: nat) {
    j <= |items| && forall x :: 0 <= x < j ==> !Titled(items[x], k)
  }

  predicate LastTitle(items: Items, k: nat, j: nat, x: nat) {
    x < j <= |items| && Titled(items[x], k) && forall y :: x < y < j ==> !Titled(items[y], k)
  }

  /** The title of a key is the last one it was given, and it is kept in the key's shard. */
  ghost predicate TitleKept(items: Items, threads: nat, p: nat, k: nat, j: nat, titles: map<nat, string>)
    requires 0 < threads
  {
    && (k % threads != p || NoTitle(items, k, j) ==> k !in titles)
    && forall x: nat :: k % threads == p && LastTitle(items, k, j, x) ==> k in titles && titles[k] == items[x].op.title
  }

  lemma NoTitleYet(items: Items, threads: nat, p: nat, k: nat)
    requires 0 < threads
    ensures TitleKept(items, threads, p, k, 0, map[])
  {
  }

  lemma TitleAt<Q>(pq: Queue<Q>, threads: nat, items: Items, p: nat, k: nat, j: nat)
    requires 0 < threads && j <= |items|
    ensures TitleKept(items, threads, p, k, j, At(pq, After(pq, threads, items, j), p).titles)
  {
    AfterNone(pq, threads, items);
    NoTitleYet(items, threads, p, k);
    for x := 0 to j
      invariant TitleKept(items, threads, p, k, x, At(pq, After(pq, threads, items, x), p).titles)
    {
      TitleNext(pq, threads, items, p, k, x);
    }
  }

  lemma TitleNext<Q>(pq: Queue<Q>, threads: nat, items: Items, p: nat, k: nat, j: nat)
    requires 0 < threads && j < |items|
    requires TitleKept(items, threads, p, k, j, At(pq, After(pq, threads, items, j), p).titles)
    ensures TitleKept(items, threads, p, k, j + 1, At(pq, After(pq, threads, items, j + 1), p).titles)
  {
    var m, m' := After(pq, threads, items, j), After(pq, threads, items, j + 1);
    AfterNext(pq, threads, items, j);
    ExecTitles(pq, threads, items[j].op, m, p);
    TitleStep(items, threads, p, k, j, At(pq, m, p).titles, At(pq, m', p).titles);
  }

  lemma TitleStep(items: Items, threads: nat, p: nat, k: nat, j: nat, was: map<nat, string>, now: map<nat, string>)
    requires 0 < threads && j < |items| && TitleKept(items, threads, p, k, j, was)
    requires var item := items[j];
             now == if item.live && item.op.Update? && item.op.ds == Titles && item.op.kind == PUT
                       && item.op.key % threads == p
                    then was[item.op.key := item.op.title] else was
    ensures TitleKept(items, threads, p, k, j + 1, now)
  {
    forall x: nat | k % threads == p && LastTitle(items, k, j + 1, x)
      ensures k in now && now[k] == items[x].op.title
    {
      if x < j {
        assert LastTitle(items, k, j, x);
      }
    }
  }

  lemma ExecTitles<Q>(pq: Queue<Q>, threads: nat, op: Op, m: Store<Q>, p: nat)
    requires 0 < threads
    ensures var was, now := At(pq, m, p).titles, At(pq, Exec(pq, threads, op, m).0, p).titles;
            now == if op.Update? && op.ds == Titles && op.kind == PUT && op.key % threads == p
                   then was[op.key := op.title] else was
  {
    var m' := Exec(pq, threads, op, m).0;
    if op.Update? && op.key % threads == p {
      assert At(pq, m', p) == OnShard(pq, op, At(pq, m, p)).0;
    } else {
      assert At(pq, m', p) == At(pq, m, p);
    }
  }

  // ----- the top list -----

  /** The keys on the lists of the shards from p on, shard by shard. */
  ghost function Listed<Q>(pq: Queue<Q>, m: Store<Q>, p: nat, threads: nat): seq<(nat, nat)>
    decreases threads - p
  {
    if threads <= p then [] else OfShard(p, pq.topK(At(pq, m, p).queue)) + Listed(pq, m, p + 1, threads)
  }

  ghost function OfShard(p: nat, keys: seq<nat>): seq<(nat, nat)> {
    seq(|keys|, r requires 0 <= r < |keys| => (p, keys[r]))
  }

  /** A key of a shard's list has a title there. */
  ghost predicate HasTitle<Q>(pq: Queue<Q>, m: Store<Q>, l: (nat, nat)) {
    l.1 in At(pq, m, l.0).titles
  }

  lemma {:induction false} RowsAre(keys: seq<nat>, titles: map<nat, string>)
    ensures Rows(keys, titles).Some? <==> forall k <- keys :: k in titles
    ensures Rows(keys, titles).Some? ==>
              var rows := Rows(keys, titles).value;
              && |rows| == |keys|
              && forall r :: 0 <= r < |keys| ==> keys[r] in titles && rows[r] == (keys[r], titles[keys[r]])
  {
    if keys != [] {
      RowsAre(keys[1..], titles);
      assert keys == [keys[0]] + keys[1..];
    }
  }

  /** The rows are the listed keys with their titles; there are none if one lacks its title. */
  ghost predicate RowsFit<Q>(pq: Queue<Q>, m: Store<Q>, listed: seq<(nat, nat)>, out: Option<seq<(nat, string)>>) {
    && (out.Some? <==> forall r {:trigger listed[r]} :: 0 <= r < |listed| ==> HasTitle(pq, m, listed[r]))
    && (out.Some? ==>
          && |out.value| == |listed|
          && forall r {:trigger listed[r]} :: 0 <= r < |listed| ==>
               && HasTitle(pq, m, listed[r])
               && out.value[r] == (listed[r].1, At(pq, m, listed[r].0).titles[listed[r].1]))
  }

  lemma ShardFits<Q>(pq: Queue<Q>, m: Store<Q>, p: nat)
    ensures var s := At(pq, m, p);
            RowsFit(pq, m, OfShard(p, pq.topK(s.queue)), Rows(pq.topK(s.queue), s.titles))
  {
    var s := At(pq, m, p);
    var keys := pq.topK(s.queue);
    var listed := OfShard(p, keys);
    RowsAre(keys, s.titles);
    assert forall r {:trigger listed[r]} :: 0 <= r < |listed| ==> listed[r] == (p, keys[r]) && keys[r] in keys;
    if forall r {:trigger listed[r]} :: 0 <= r < |listed| ==> HasTitle(pq, m, listed[r]) {
      forall k | k in keys
        ensures k in s.titles
      {
        var r :| 0 <= r < |keys| && keys[r] == k;
        assert listed[r] == (p, k);
      }
    }
  }

  lemma FitsConcat<Q>(pq: Queue<Q>, m: Store<Q>, a: seq<(nat, nat)>, b: seq<(nat, nat)>,
                      outA: Option<seq<(nat, string)>>, outB: Option<seq<(nat, string)>>)
    requires RowsFit(pq, m, a, outA) && RowsFit(pq, m, b, outB)
    ensures RowsFit(pq, m, a + b, if outA.Some? && outB.Some? then Some(outA.value + outB.value) else None)
  {
    var all := a + b;
    if outA.Some? && outB.Some? {
      assert forall r {:trigger all[r]} :: 0 <= r < |all| ==> all[r] == if r < |a| then a[r] else b[r - |a|];
    } else if outA.None? {
      var r :| 0 <= r < |a| && !HasTitle(pq, m, a[r]);
      assert all[r] == a[r];
    } else {
      var r :| 0 <= r < |b| && !HasTitle(pq, m, b[r]);
      assert all[|a| + r] == b[r];
    }
  }

  lemma {:induction false} AllRowsFit<Q>(pq: Queue<Q>, m: Store<Q>, p: nat, threads: nat)
    ensures RowsFit(pq, m, Listed(pq, m, p, threads), AllRows(pq, m, p, threads))
    decreases threads - p
  {
    if p < threads {
      AllRowsFit(pq, m, p + 1, threads);
      ShardFits(pq, m, p);
      var s := At(pq, m, p);
      FitsConcat(pq, m, OfShard(p, pq.topK(s.queue)), Listed(pq, m, p + 1, threads),
                 Rows(pq.topK(s.queue), s.titles), AllRows(pq, m, p + 1, threads));
    }
  }

  /** A key of the list is in its own shard and was given a title. */
  ghost predicate Known(items: Items, threads: nat, j: nat, l: (nat, nat))
    requires 0 < threads
  {
    l.1 % threads == l.0 && !NoTitle(items, l.1, j)
  }

  /** The rows show the listed keys with the titles they were last given; without a title for
      one of them there is no answer. */
  ghost predicate ShowsTop(items: Items, threads: nat, j: nat, listed: seq<(nat, nat)>, reply: Option<Reply>)
    requires 0 < threads
  {
    && (reply == Some(Nothing) <==> exists r :: 0 <= r < |listed| && !Known(items, threads, j, listed[r]))
    && (reply != Some(Nothing) ==>
          && reply.Some? && reply.value.Votes? && |reply.value.rows| == |listed|
          && forall r: nat, x: nat {:trigger LastTitle(items, listed[r].1, j, x)} ::
               r < |listed| && LastTitle(items, listed[r].1, j, x) ==>
                 reply.value.rows[r] == (listed[r].1, items[x].op.title))
  }

  lemma TopShown<Q>(pq: Queue<Q>, threads: nat, items: Items, j: nat)
    requires 0 < threads && j <= |items|
    ensures var m := After(pq, threads, items, j);
            var out := AllRows(pq, m, 0, threads);
            ShowsTop(items, threads, j, Listed(pq, m, 0, threads),
                     Some(if out.None? then Nothing else VoteServer.Votes(out.value)))
  {
    var m := After(pq, threads, items, j);
    var listed, out := Listed(pq, m, 0, threads), AllRows(pq, m, 0, threads);
    AllRowsFit(pq, m, 0, threads);
    forall r {:trigger listed[r]} | 0 <= r < |listed|
      ensures Known(items, threads, j, listed[r]) <==> HasTitle(pq, m, listed[r])
    {
      KnownTitle(pq, threads, items, j, listed[r]);
    }
    if out.Some? {
      forall r: nat, x: nat {:trigger LastTitle(items, listed[r].1, j, x)} |
        r < |listed| && LastTitle(items, listed[r].1, j, x)
        ensures out.value[r] == (listed[r].1, items[x].op.title)
      {
        assert HasTitle(pq, m, listed[r]);
        TitleAt(pq, threads, items, listed[r].0, listed[r].1, j);
      }
    }
  }

  lemma KnownTitle<Q>(pq: Queue<Q>, threads: nat, items: Items, j: nat, l: (nat, nat))
    requires 0 < threads && j <= |items|
    ensures Known(items, threads, j, l) <==> HasTitle(pq, After(pq, threads, items, j), l)
  {
    TitleAt(pq, threads, items, l.0, l.1, j);
    if !NoTitle(items, l.1, j) {
      var x := LastTitled(items, l.1, j);
    }
  }

  lemma {:induction false} LastTitled(items: Items, k: nat, j: nat) returns (x: nat)
    requires j <= |items| && !NoTitle(items, k, j)
    ensures LastTitle(items, k, j, x)
    decreases j
  {
    assert j > 0;
    if Titled(items[j - 1], k) {
      x := j - 1;
    } else {
      x := LastTitled(items, k, j - 1);
    }
  }

  // ----- what a client sees -----

  /** What the server tells a client about the j-th operation. */
  ghost predicate AnsweredRight<Q>(pq: Queue<Q>, threads: nat, items: Items, j: nat, reply: Option<Reply>)
    requires 0 < threads && j < |items|
  {
    if !items[j].live then reply == None else
    match items[j].op
    case TopK => ShowsTop(items, threads, j, Listed(pq, After(pq, threads, items, j), 0, threads), reply)
    case Other(_) => reply == Some(InvalidOp)
    case Update(kind, ds, key, _, _) =>
      if ds == Titles && kind == PUT then reply == Some(Done)
      else if ds == Queues && kind == INSERT then reply == Some(Changed(key))
      else if ds == Queues && (kind == INCREASE_PRIO || kind == DECREASE_PRIO) then
        var k := key % HALF_WORD;
        reply == Some(if NoInsert(items, threads, key % threads, k, j) then Failed(k) else Changed(k))
      else reply == Some(InvalidOp)
  }

  lemma UpdateAnswered<Q(!new)>(pq: Queue<Q>, prio: Q -> map<nat, nat>, threads: nat, items: Items, j: nat)
    requires 0 < threads && Tallies(pq, prio) && Clean(items, threads) && j < |items|
    requires items[j].live && items[j].op.Update?
    ensures AnsweredRight(pq, threads, items, j, Some(Exec(pq, threads, items[j].op, After(pq, threads, items, j)).1))
  {
    var op := items[j].op;
    var p := op.key % threads;
    TalliedAt(pq, prio, threads, items, p, op.key, j);
    TalliedAt(pq, prio, threads, items, p, op.key % HALF_WORD, j);
    if op.ds == Queues && op.kind == INSERT {
      assert Inserts(items[j], threads, p, op.key);
      assert NoInsert(items, threads, p, op.key, j);
    }
  }

  lemma RunAnswers<Q(!new)>(pq: Queue<Q>, prio: Q -> map<nat, nat>, threads: nat, items: Items, j: nat)
    requires 0 < threads && Tallies(pq, prio) && Clean(items, threads) && Distinct(items) && j < |items|
    ensures items[j].id in Run(Server(pq, threads).apply, map[], items).replies
    ensures AnsweredRight(pq, threads, items, j, Run(Server(pq, threads).apply, map[], items).replies[items[j].id])
  {
    ReplyOf(Server(pq, threads).apply, map[], items, j);
    if items[j].live && items[j].op.Update? {
      UpdateAnswered(pq, prio, threads, items, j);
    } else if items[j].live && items[j].op.TopK? {
      TopShown(pq, threads, items, j);
    }
  }

  /** However many threads there are: every request is answered as its predecessors in the order
      of arrival demand, and in the end each key has the priority it entered with plus the votes
      for it and minus those against it that took effect since. */
  lemma CountsVotes<Q(!new)>(pq: Queue<Q>, prio: Q -> map<nat, nat>, threads: nat, ws: seq<World<Store<Q>, Op, Reply>>,
                             steps: seq<Step<Op>>, i: nat, id: nat, p: nat, k: nat)
    requires 0 < threads && Tallies(pq, prio) && p < threads
    requires IsRun(Server(pq, threads), threads, ws, steps) && i < |ws| && AllRan(ws[i]) && id < |ws[i].reqs|
    requires Clean(Arrivals(ws[i]), threads)
    ensures id in ws[i].outcome.replies
    ensures AnsweredRight(pq, threads, Arrivals(ws[i]), id, ws[i].outcome.replies[id])
    ensures Tallied(Arrivals(ws[i]), threads, p, k, |Arrivals(ws[i])|, PrioAt(pq, prio, ws[i].outcome.state, p))
  {
    var items := Arrivals(ws[i]);
    VoteServer.Serializable(pq, threads, ws, steps, i);
    RunAnswers(pq, prio, threads, items, id);
    TalliedAt(pq, prio, threads, items, p, k, |items|);
    assert items[..|items|] == items;
  }

  type Prios = map<nat, nat>

  function PlainInsert(k: nat, v: nat, q: Prios): (Prios, bool) {
    (q[k := v], true)
  }

  function PlainIncrease(k: nat, d: nat, q: Prios): (Prios, bool) {
    if k in q then (q[k := (q[k] + d) % WORD], true) else (q, false)
  }

  function PlainDecrease(k: nat, d: nat, q: Prios): (Prios, bool) {
    if k in q then (q[k := (q[k] - d) % WORD], true) else (q, false)
  }

  /** Such queues exist: a map from keys to priorities is one. */
  lemma PlainTallies(top: Prios -> seq<nat>)
    ensures Tallies(Queue(map[], PlainInsert, PlainIncrease, PlainDecrease, top), (q: Prios) => q)
  {
  }
}
