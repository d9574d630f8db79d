/** The vote server: titles and vote counts in one shard per executor, and its test for
    requests that may run in parallel. The queue of a shard is a parameter. */
module VoteServer {
  import opened Common
  import opened Serial
  import opened Executors
  import opened RingMath

  datatype Kind = PUT | INSERT | INCREASE_PRIO | DECREASE_PRIO

  /** The structure a request names. */
  datatype Ds = Titles | Queues

  datatype Op = Update(kind: Kind, ds: Ds, key: nat, title: string, prio: nat) | TopK | Other(code: nat)

  datatype Reply = Done | Changed(key: nat) | Failed(key: nat) | InvalidOp | Votes(rows: seq<(nat, string)>) | Nothing

  /** What a shard's queue can do; each change says whether it took effect. */
  datatype Queue<!Q> = Queue(
    empty: Q,
    insert: (nat, nat, Q) -> (Q, bool),
    increase: (nat, nat, Q) -> (Q, bool),
    decrease: (nat, nat, Q) -> (Q, bool),
    topK: Q -> seq<nat>)

  datatype Shard<Q> = Shard(titles: map<nat, string>, queue: Q)

  /** The shards by number; one never used is empty. */
  type Store<Q> = map<nat, Shard<Q>>

  function At<Q>(pq: Queue<Q>, m: Store<Q>, p: nat): Shard<Q> {
    if p in m then m[p] else Shard(map[], pq.empty)
  }

  function Partition(threads: nat, key: nat): (p: nat)
    requires 0 < threads
    ensures p < threads
  {
    key % threads
  }

  function Answer(key: nat, ok: bool): Reply {
    if ok then Changed(key) else Failed(key)
  }

  /** A change of one shard. Priorities are raised and lowered under a 32-bit key. */
  function OnShard<Q>(pq: Queue<Q>, op: Op, s: Shard<Q>): (Shard<Q>, Reply)
    requires op.Update?
  {
    match (op.ds, op.kind)
    case (Titles, PUT) => (s.(titles := s.titles[op.key := op.title]), Done)
    case (Queues, INSERT) =>
      var (q, ok) := pq.insert(op.key, op.prio, s.queue);
      (s.(queue := q), Answer(op.key, ok))
    case (Queues, INCREASE_PRIO) =>
      var key := op.key % 0x1_0000_0000;
      var (q, ok) := pq.increase(key, op.prio, s.queue);
      (s.(queue := q), Answer(key, ok))
    case (Queues, DECREASE_PRIO) =>
      var key := op.key % 0x1_0000_0000;
      var (q, ok) := pq.decrease(key, op.prio, s.queue);
      (s.(queue := q), Answer(key, ok))
    case _ => (s, InvalidOp)
  }

  function Rows(keys: seq<nat>, titles: map<nat, string>): Option<seq<(nat, string)>> {
    if keys == [] then Some([])
    else if keys[0] !in titles then None
    else
      match Rows(keys[1..], titles)
      case None => None
      case Some(rows) => Some([(keys[0], titles[keys[0]])] + rows)
  }

  /** The rows of the shards from p on; none at all when a voted key has no title. */
  function AllRows<Q>(pq: Queue<Q>, m: Store<Q>, p: nat, threads: nat): Option<seq<(nat, string)>>
    decreases threads - p
  {
    if threads <= p then Some([])
    else
      var s := At(pq, m, p);
      match (Rows(pq.topK(s.queue), s.titles), AllRows(pq, m, p + 1, threads))
      case (Some(a), Some(b)) => Some(a + b)
      case _ => None
  }

  function Exec<Q>(pq: Queue<Q>, threads: nat, op: Op, m: Store<Q>): (Store<Q>, Reply)
    requires 0 < threads
  {
    match op
    case Update(_, _, key, _, _) =>
      var p := Partition(threads, key);
      var (s, r) := OnShard(pq, op, At(pq, m, p));
      (m[p := s], r)
    case TopK =>
      (m, match AllRows(pq, m, 0, threads) case None => Nothing case Some(rows) => Votes(rows))
    case Other(_) => (m, InvalidOp)
  }

  predicate Commute(threads: nat, a: Op, b: Op)
    requires 0 < threads
  {
    || (a.Update? && b.Update? && Partition(threads, a.key) != Partition(threads, b.key))
    || (a.TopK? && b.TopK?)
  }

  function Server<Q>(pq: Queue<Q>, threads: nat): App<Store<Q>, Op, Reply>
    requires 0 < threads
  {
    App(map[], (op: Op, m: Store<Q>) => Exec(pq, threads, op, m), (a, b) => Commute(threads, a, b))
  }

  /** Whatever the queues do: the test never lets two requests through whose order matters. */
  lemma CommuteSound<Q(!new)>(pq: Queue<Q>, threads: nat)
    requires 0 < threads
    ensures Sound(Server(pq, threads).apply, Server(pq, threads).commute, _ => true)
  {
    var app := Server(pq, threads);
    forall a: Op, b: Op, m: Store<Q> | app.commute(a, b)
      ensures Swaps(app.apply, a, b, m)
    {
      if a.Update? {
        var p, q := Partition(threads, a.key), Partition(threads, b.key);
        var sa, sb := OnShard(pq, a, At(pq, m, p)).0, OnShard(pq, b, At(pq, m, q)).0;
        assert m[p := sa][q := sb] == m[q := sb][p := sa];
      }
    }
  }

  /** The shards a request changes, and those it reads or changes. */
  function Changes(threads: nat, op: Op): set<nat>
    requires 0 < threads
  {
    if op.Update? then {op.key % threads} else {}
  }

  predicate IsShard(threads: nat, p: nat) {
    p < threads
  }

  function Touches(threads: nat, op: Op): set<nat>
    requires 0 < threads
  {
    if op.TopK? then set p: nat | p < threads && IsShard(threads, p) else Changes(threads, op)
  }

  lemma {:induction false} SameRows<Q>(pq: Queue<Q>, m: Store<Q>, m': Store<Q>, p: nat, threads: nat)
    requires forall x: nat :: x < threads ==> At(pq, m, x) == At(pq, m', x)
    ensures AllRows(pq, m, p, threads) == AllRows(pq, m', p, threads)
    decreases threads - p
  {
    if p < threads {
      SameRows(pq, m, m', p + 1, threads);
    }
  }

  /** A request leaves the shards it does not change alone, and what it answers and makes of
      the others depends only on the shards it touches. */
  lemma Footprint<Q>(pq: Queue<Q>, threads: nat, op: Op, m: Store<Q>, m': Store<Q>, p: nat)
    requires 0 < threads && forall x <- Touches(threads, op) :: At(pq, m, x) == At(pq, m', x)
    ensures Exec(pq, threads, op, m).1 == Exec(pq, threads, op, m').1
    ensures if p in Changes(threads, op)
            then At(pq, Exec(pq, threads, op, m).0, p) == At(pq, Exec(pq, threads, op, m').0, p)
            else At(pq, Exec(pq, threads, op, m).0, p) == At(pq, m, p)
  {
    if op.TopK? {
      assert forall x: nat :: x < threads ==> IsShard(threads, x) && x in Touches(threads, op);
      SameRows(pq, m, m', 0, threads);
    } else if op.Update? {
      assert op.key % threads in Touches(threads, op);
    }
  }

  /** The test says yes exactly when both requests are known and neither changes a shard that
      the other touches. */
  lemma CommuteExactly(threads: nat, a: Op, b: Op)
    requires 0 < threads
    ensures Commute(threads, a, b) <==>
              && !a.Other? && !b.Other?
              && Changes(threads, a) !! Touches(threads, b) && Changes(threads, b) !! Touches(threads, a)
  {
    if a.Update? && b.TopK? {
      assert IsShard(threads, a.key % threads);
      assert a.key % threads in Changes(threads, a) && a.key % threads in Touches(threads, b);
    } else if a.TopK? && b.Update? {
      assert IsShard(threads, b.key % threads);
      assert b.key % threads in Changes(threads, b) && b.key % threads in Touches(threads, a);
    } else if a.Update? && b.Update? {
      assert a.key % threads in Changes(threads, a) && b.key % threads in Touches(threads, b);
    }
  }

  /** A key cut to 32 bits stays in its shard, for any number of shards that divides 2^32. */
  lemma CutKeySameShard(key: nat, threads: nat, k: nat)
    requires 0 < threads && threads * k == 0x1_0000_0000
    ensures Partition(threads, key % 0x1_0000_0000) == Partition(threads, key)
  {
    var cut, high := key % 0x1_0000_0000, key / 0x1_0000_0000;
    var q, r := cut / threads, cut % threads;
    assert key == (high * k + q) * threads + r by {
      assert high * (threads * k) == (high * k) * threads;
      assert (high * k + q) * threads == (high * k) * threads + q * threads;
    }
    RemainderUnique(key, high * k + q, threads, r);
  }

  lemma Serializable<Q(!new)>(pq: Queue<Q>, threads: nat, ws: seq<World<Store<Q>, Op, Reply>>, steps: seq<Step<Op>>,
                              i: nat)
    requires 0 < threads
    requires IsRun(Server(pq, threads), threads, ws, steps) && i < |ws| && AllRan(ws[i])
    ensures ws[i].outcome == Run(Server(pq, threads).apply, map[], Arrivals(ws[i]))
  {
    CommuteSound(pq, threads);
    LikeOneThread(Server(pq, threads), _ => true, threads, ws, steps, i);
  }
}
