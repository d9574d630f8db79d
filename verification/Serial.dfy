/** Running operations out of order when those that overtake commute with those they
    overtake: the same final state and the same responses as in the order of arrival. */
module Serial {
  import opened Common

  /** One execution: the operation, its place in the order of arrival, and whether it
      ran (a replicated operation whose replication failed leaves no trace). */
  datatype Item<O> = Item(id: nat, op: O, live: bool)

  datatype Outcome<S, R> = Outcome(state: S, replies: map<nat, Option<R>>)

  /** Both orders lead to the same state and give the same two replies. */
  ghost predicate Swaps<S, O, R>(apply: (O, S) -> (S, R), a: O, b: O, s: S)
  {
    var (sa, ra) := apply(a, s);
    var (sb, rb) := apply(b, s);
    && apply(b, sa) == (apply(a, sb).0, rb)
    && apply(a, sb).1 == ra
  }

  /** On proper operations, the commutativity test only says yes to those that do commute. */
  ghost predicate Sound<S(!new), O(!new), R>(apply: (O, S) -> (S, R), commute: (O, O) -> bool, proper: O -> bool)
  {
    forall a, b, s :: proper(a) && proper(b) && commute(a, b) ==> Swaps(apply, a, b, s)
  }

  function Perform<S, O, R>(apply: (O, S) -> (S, R), o: Outcome<S, R>, item: Item<O>): (r: Outcome<S, R>)
  {
    if item.live then
      var (s, reply) := apply(item.op, o.state);
      Outcome(s, o.replies[item.id := Some(reply)])
    else
      Outcome(o.state, o.replies[item.id := None])
  }

  function Run<S, O, R>(apply: (O, S) -> (S, R), init: S, items: seq<Item<O>>): (r: Outcome<S, R>)
  {
    if items == [] then Outcome(init, map[])
    else Perform(apply, Run(apply, init, items[..|items| - 1]), items[|items| - 1])
  }

  ghost predicate Ascending<O>(items: seq<Item<O>>) {
    forall i, j :: 0 <= i < j < |items| ==> items[i].id < items[j].id
  }

  ghost predicate Distinct<O>(items: seq<Item<O>>) {
    forall i, j :: 0 <= i < j < |items| ==> items[i].id != items[j].id
  }

  /** Whenever an operation ran before an earlier one, the test said they commute. */
  ghost predicate OvertakesCommute<O>(commute: (O, O) -> bool, items: seq<Item<O>>)
  {
    forall i, j :: 0 <= i < j < |items| && items[j].id < items[i].id ==> commute(items[i].op, items[j].op)
  }

  /** Puts an item at its place by arrival. */
  function Insert<O>(items: seq<Item<O>>, item: Item<O>): (r: seq<Item<O>>)
    ensures multiset(r) == multiset(items) + multiset{item}
  {
    if items == [] || items[|items| - 1].id < item.id then items + [item]
    else
      var last := items[|items| - 1];
      assert items == items[..|items| - 1] + [last];
      Insert(items[..|items| - 1], item) + [last]
  }

  lemma {:induction false} InsertAscends<O>(items: seq<Item<O>>, item: Item<O>)
    requires Ascending(items) && forall x :: x in items ==> x.id != item.id
    ensures Ascending(Insert(items, item))
  {
    if items != [] && item.id <= items[|items| - 1].id {
      var front, last := items[..|items| - 1], items[|items| - 1];
      InsertAscends(front, item);
      assert last in items;
      forall i | 0 <= i < |Insert(front, item)|
        ensures Insert(front, item)[i].id < last.id
      {
        assert Insert(front, item)[i] in multiset(front) + multiset{item};
      }
    }
  }

  /** The same executions in the order of arrival. */
  function ByArrival<O>(items: seq<Item<O>>): (r: seq<Item<O>>)
    ensures multiset(r) == multiset(items)
  {
    if items == [] then []
    else
      assert items == items[..|items| - 1] + [items[|items| - 1]];
      Insert(ByArrival(items[..|items| - 1]), items[|items| - 1])
  }

  lemma RunSnoc<S, O, R>(apply: (O, S) -> (S, R), init: S, items: seq<Item<O>>, item: Item<O>)
    ensures Run(apply, init, items + [item]) == Perform(apply, Run(apply, init, items), item)
  {
    assert (items + [item])[..|items|] == items;
  }

  /** An operation that ran was answered from the state that those before it had left, and one
      whose replication failed was not answered. */
  lemma {:induction false} ReplyOf<S, O, R>(apply: (O, S) -> (S, R), init: S, items: seq<Item<O>>, j: nat)
    requires Distinct(items) && j < |items|
    ensures var replies, item := Run(apply, init, items).replies, items[j];
            && item.id in replies
            && replies[item.id] ==
               if item.live then Some(apply(item.op, Run(apply, init, items[..j]).state).1) else None
  {
    var n := |items| - 1;
    if j < n {
      ReplyOf(apply, init, items[..n], j);
      assert items[..n][..j] == items[..j];
    }
  }

  lemma SwapTwo<S, O, R>(apply: (O, S) -> (S, R), o: Outcome<S, R>, a: Item<O>, b: Item<O>)
    requires a.id != b.id && Swaps(apply, a.op, b.op, o.state)
    ensures Perform(apply, Perform(apply, o, a), b) == Perform(apply, Perform(apply, o, b), a)
  {
  }

  /** The item may be moved in front of every later one among the items. */
  ghost predicate CanPrecede<O>(commute: (O, O) -> bool, proper: O -> bool, items: seq<Item<O>>, item: Item<O>) {
    forall k {:trigger items[k]} :: 0 <= k < |items| ==>
                                      && items[k].id != item.id && proper(items[k].op)
                                      && (item.id < items[k].id ==> commute(items[k].op, item.op))
  }

  lemma {:induction false} InsertRuns<S(!new), O(!new), R>(apply: (O, S) -> (S, R), commute: (O, O) -> bool,
                                                           proper: O -> bool, init: S, items: seq<Item<O>>,
                                                           item: Item<O>)
    requires Sound(apply, commute, proper) && proper(item.op) && CanPrecede(commute, proper, items, item)
    ensures Run(apply, init, Insert(items, item)) == Run(apply, init, items + [item])
  {
    if items != [] && item.id <= items[|items| - 1].id {
      var front, last := items[..|items| - 1], items[|items| - 1];
      var o := Run(apply, init, front);
      InsertRuns(apply, commute, proper, init, front, item);
      RunSnoc(apply, init, front, item);
      RunSnoc(apply, init, Insert(front, item), last);
      RunSnoc(apply, init, items, item);
      SwapTwo(apply, o, last, item);
    }
  }

  lemma SameMembers<T>(a: seq<T>, b: seq<T>, x: T)
    requires multiset(a) == multiset(b) && x in a
    ensures x in b
  {
    assert x in multiset(a);
  }

  lemma {:induction false} ByArrivalAscends<O>(items: seq<Item<O>>)
    requires Distinct(items)
    ensures Ascending(ByArrival(items))
  {
    if items != [] {
      var front, last := items[..|items| - 1], items[|items| - 1];
      ByArrivalAscends(front);
      forall x | x in ByArrival(front)
        ensures x.id != last.id
      {
        SameMembers(ByArrival(front), front, x);
      }
      InsertAscends(ByArrival(front), last);
    }
  }

  ghost predicate AllProper<O>(items: seq<Item<O>>, proper: O -> bool) {
    forall k {:trigger items[k]} :: 0 <= k < |items| ==> proper(items[k].op)
  }

  lemma LastCanPrecede<O>(commute: (O, O) -> bool, proper: O -> bool, items: seq<Item<O>>, sorted: seq<Item<O>>)
    requires items != [] && Distinct(items) && OvertakesCommute(commute, items) && AllProper(items, proper)
    requires multiset(sorted) == multiset(items[..|items| - 1])
    ensures CanPrecede(commute, proper, sorted, items[|items| - 1])
  {
    var front, last := items[..|items| - 1], items[|items| - 1];
    forall k | 0 <= k < |sorted|
      ensures sorted[k].id != last.id && proper(sorted[k].op)
              && (last.id < sorted[k].id ==> commute(sorted[k].op, last.op))
    {
      SameMembers(sorted, front, sorted[k]);
      var j :| 0 <= j < |front| && front[j] == sorted[k];
      assert items[j] == sorted[k];
    }
  }

  /** The theorem: the run and its reordering by arrival cannot be told apart, neither by
      the final state nor by any reply. */
  lemma {:induction false} SameAsArrival<S(!new), O(!new), R>(apply: (O, S) -> (S, R), commute: (O, O) -> bool,
                                                              proper: O -> bool, init: S, items: seq<Item<O>>)
    requires Sound(apply, commute, proper) && AllProper(items, proper)
    requires Distinct(items) && OvertakesCommute(commute, items)
    ensures Run(apply, init, items) == Run(apply, init, ByArrival(items))
    ensures Ascending(ByArrival(items)) && multiset(ByArrival(items)) == multiset(items)
  {
    ByArrivalAscends(items);
    if items != [] {
      var front, last := items[..|items| - 1], items[|items| - 1];
      SameAsArrival(apply, commute, proper, init, front);
      var sorted := ByArrival(front);
      LastCanPrecede(commute, proper, items, sorted);
      InsertRuns(apply, commute, proper, init, sorted, last);
      RunSnoc(apply, init, sorted, last);
    }
  }
}
