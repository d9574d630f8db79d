/** The hash map server: its requests, and its test for requests that may run in parallel. */
module HashmapServer {
  import opened Common
  import opened Serial
  import opened Executors

  datatype Op = Get(key: nat) | Put(key: nat, val: string) | Other(code: nat)

  datatype Reply = Done | Value(val: string) | NotFound | InvalidOp

  type Table = map<nat, string>

  /** A reply holds a string of at most 15 characters. */
  function Clip(s: string): string {
    if |s| <= 15 then s else s[..15]
  }

  function Exec(op: Op, t: Table): (Table, Reply) {
    match op
    case Get(k) => (t, if k in t then Value(Clip(t[k])) else NotFound)
    case Put(k, v) => (t[k := v], Done)
    case Other(_) => (t, InvalidOp)
  }

  predicate Commute(a: Op, b: Op) {
    !a.Other? && !b.Other? && a.key != b.key
  }

  /** The test never lets two requests through whose order matters. */
  lemma CommuteSound()
    ensures Sound(Exec, Commute, _ => true)
  {
    forall a: Op, b: Op, t: Table | Commute(a, b)
      ensures Swaps(Exec, a, b, t)
    {
      if a.Put? && b.Put? {
        assert t[a.key := a.val][b.key := b.val] == t[b.key := b.val][a.key := a.val];
      }
    }
  }

  /** Of the reads and writes whose order never matters, the test misses exactly those that
      read the same key twice or write the same twice. */
  lemma OrderMatters(a: Op, b: Op)
    requires !a.Other? && !b.Other?
    ensures (forall t :: Swaps(Exec, a, b, t)) <==> Commute(a, b) || (a.Get? && b.Get?) || a == b
  {
    if a.key != b.key {
      CommuteSound();
      assert Commute(a, b);
    } else if a.Put? && b.Put? {
      assert map[][a.key := a.val][b.key := b.val][a.key] == b.val;
      assert Exec(b, Exec(a, map[]).0).0[a.key] == b.val;
      assert Exec(a, Exec(b, map[]).0).0[a.key] == a.val;
      if a != b {
        assert !Swaps(Exec, a, b, map[]);
      }
    } else if !(a.Get? && b.Get?) {
      assert !Swaps(Exec, a, b, map[]);
    }
  }

  function Server(): App<Table, Op, Reply> {
    App(map[], Exec, Commute)
  }

  /** Four threads or one: a client of the server cannot tell. */
  lemma Serializable(threads: nat, ws: seq<World<Table, Op, Reply>>, steps: seq<Step<Op>>, i: nat)
    requires IsRun(Server(), threads, ws, steps) && i < |ws| && AllRan(ws[i])
    ensures ws[i].outcome == Run(Exec, map[], Arrivals(ws[i]))
  {
    CommuteSound();
    LikeOneThread(Server(), _ => true, threads, ws, steps, i);
  }

  // ----- what a client sees -----

  /** A write of the key that took effect. */
  predicate Writes(item: Item<Op>, k: nat) {
    item.live && item.op.Put? && item.op.key == k
  }

  /** Among the first j operations, the p-th is the last that wrote the key. */
  predicate LastWrite(items: seq<Item<Op>>, j: nat, k: nat, p: nat) {
    p < j <= |items| && Writes(items[p], k) && forall x :: p < x < j ==> !Writes(items[x], k)
  }

  predicate NoWrite(items: seq<Item<Op>>, j: nat, k: nat) {
    j <= |items| && forall x :: 0 <= x < j ==> !Writes(items[x], k)
  }

  /** After any operations the table holds, for each key, what was last written. */
  lemma {:induction false} HoldsLast(items: seq<Item<Op>>, j: nat, k: nat)
    requires j <= |items|
    ensures var t := Run(Exec, map[], items[..j]).state;
            && (NoWrite(items, j, k) ==> k !in t)
            && forall p: nat :: LastWrite(items, j, k, p) ==> k in t && t[k] == items[p].op.val
  {
    if j > 0 {
      HoldsLast(items, j - 1, k);
      assert items[..j][..j - 1] == items[..j - 1];
      if Writes(items[j - 1], k) {
        assert forall p: nat :: LastWrite(items, j, k, p) ==> p == j - 1;
      } else {
        assert forall p: nat :: LastWrite(items, j, k, p) ==> LastWrite(items, j - 1, k, p);
      }
    }
  }

  /** What the server tells a client about the j-th operation. */
  ghost predicate AnsweredRight(items: seq<Item<Op>>, j: nat, reply: Option<Reply>)
    requires j < |items|
  {
    if !items[j].live then reply == None else
    match items[j].op
    case Get(k) =>
      && (NoWrite(items, j, k) ==> reply == Some(NotFound))
      && forall p: nat :: LastWrite(items, j, k, p) ==>
           var v := items[p].op.val; reply == Some(Value(if |v| <= 15 then v else v[..15]))
    case Put(_, _) => reply == Some(Done)
    case Other(_) => reply == Some(InvalidOp)
  }

  lemma ReadAnswers(k: nat, t: Table)
    ensures var v := if k in t then t[k] else "";
            Exec(Get(k), t).1 == if k in t then Value(if |v| <= 15 then v else v[..15]) else NotFound
  {
  }

  lemma RunAnswers(items: seq<Item<Op>>, j: nat)
    requires Distinct(items) && j < |items|
    ensures items[j].id in Run(Exec, map[], items).replies
    ensures AnsweredRight(items, j, Run(Exec, map[], items).replies[items[j].id])
  {
    ReplyOf(Exec, map[], items, j);
    if items[j].live && items[j].op.Get? {
      HoldsLast(items, j, items[j].op.key);
      ReadAnswers(items[j].op.key, Run(Exec, map[], items[..j]).state);
    }
  }

  /** However many threads there are: a read is answered with the first 15 characters of the
      last write to its key among the operations that arrived before it and took effect, and
      not found if there is none. */
  lemma ReadsLastWrite(threads: nat, ws: seq<World<Table, Op, Reply>>, steps: seq<Step<Op>>, i: nat, id: nat)
    requires IsRun(Server(), threads, ws, steps) && i < |ws| && AllRan(ws[i]) && id < |ws[i].reqs|
    ensures id in ws[i].outcome.replies
    ensures AnsweredRight(Arrivals(ws[i]), id, ws[i].outcome.replies[id])
  {
    Serializable(threads, ws, steps, i);
    RunAnswers(Arrivals(ws[i]), id);
  }
}
