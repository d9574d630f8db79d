/** The adjacency vector server: edges between numbered nodes, and its test for requests
    that may run in parallel. */
module GraphServer {
  import opened Common
  import opened Serial
  import opened Executors

  const MAX_NODES: nat := 15066954

  datatype Op = AddEdge(key: nat, to: nat) | Outdegree(key: nat) | AddNode(key: nat) | Other(code: nat)

  datatype Reply = Done | Degree(n: nat) | Failed | InvalidOp | Nothing

  /** The edges out of each node; a node is missing until it is first named. The process
      may have stopped. */
  datatype Graph = Graph(out: map<nat, seq<nat>>, up: bool)

  function Create(out: map<nat, seq<nat>>, node: nat): map<nat, seq<nat>> {
    if node in out then out else out[node := []]
  }

  function EdgesOf(out: map<nat, seq<nat>>, node: nat): seq<nat> {
    if node in out then out[node] else []
  }

  /** Adds an edge at the end of the first node's vector; both nodes exist afterwards. */
  function Link(out: map<nat, seq<nat>>, from: nat, to: nat): (r: map<nat, seq<nat>>)
    ensures r.Keys == out.Keys + {from, to}
    ensures forall n {:trigger EdgesOf(r, n)} :: EdgesOf(r, n) == EdgesOf(out, n) + if n == from then [to] else []
  {
    var both := Create(Create(out, from), to);
    both[from := both[from] + [to]]
  }

  lemma LinksSwap(out: map<nat, seq<nat>>, a: nat, ta: nat, b: nat, tb: nat)
    requires a != b
    ensures Link(Link(out, a, ta), b, tb) == Link(Link(out, b, tb), a, ta)
  {
    var ab, ba := Link(Link(out, a, ta), b, tb), Link(Link(out, b, tb), a, ta);
    assert ab.Keys == ba.Keys;
    forall n | n in ab
      ensures ab[n] == ba[n]
    {
      LinksAt(out, a, ta, b, tb, n);
    }
  }

  lemma LinksAt(out: map<nat, seq<nat>>, a: nat, ta: nat, b: nat, tb: nat, n: nat)
    requires a != b
    ensures EdgesOf(Link(Link(out, a, ta), b, tb), n) == EdgesOf(Link(Link(out, b, tb), a, ta), n)
  {
  }

  function Exec(op: Op, g: Graph): (Graph, Reply) {
    if !g.up then (g, Nothing) else
    match op
    case AddEdge(from, to) =>
      if from > MAX_NODES - 1 || to > MAX_NODES - 1 then (g, Failed)
      else (g.(out := Link(g.out, from, to)), Done)
    case Outdegree(node) =>
      if node > MAX_NODES - 1 then (g.(up := false), Nothing)
      else (g, Degree(if node in g.out then |g.out[node]| else 0))
    case AddNode(_) => (g, Done)
    case Other(_) => (g, InvalidOp)
  }

  predicate Commute(a: Op, b: Op) {
    || (a.Outdegree? && b.Outdegree?)
    || ((a.Outdegree? || a.AddEdge?) && (b.Outdegree? || b.AddEdge?) && a.key != b.key)
  }

  /** The requests that make the process exit. */
  predicate Stops(op: Op) {
    op.Outdegree? && op.key > MAX_NODES - 1
  }

  lemma CommutingSwap(a: Op, b: Op, g: Graph)
    requires Commute(a, b) && (Stops(a) <==> Stops(b))
    ensures Swaps(Exec, a, b, g)
  {
    if a.AddEdge? && b.AddEdge? {
      LinksSwap(g.out, a.key, a.to, b.key, b.to);
    }
  }

  /** The test lets two requests through whose order matters when exactly one of them
      stops the process: the other is answered or not. */
  lemma CommuteExactly(a: Op, b: Op)
    requires Commute(a, b)
    ensures (forall g :: Swaps(Exec, a, b, g)) <==> (Stops(a) <==> Stops(b))
  {
    if Stops(a) <==> Stops(b) {
      forall g
        ensures Swaps(Exec, a, b, g)
      {
        CommutingSwap(a, b, g);
      }
    } else {
      assert !Swaps(Exec, a, b, Graph(map[], true));
    }
  }

  /** Requests that neither change nor tell anything about a node's edges. */
  predicate Harmless(op: Op) {
    op.AddNode? || op.Other? || (op.AddEdge? && (op.key > MAX_NODES - 1 || op.to > MAX_NODES - 1))
  }

  /** Of the requests whose order never matters, the test misses exactly those beside which
      nothing can be seen, and the same edge twice. */
  lemma OrderMatters(a: Op, b: Op)
    requires Stops(a) <==> Stops(b)
    ensures (forall g :: Swaps(Exec, a, b, g)) <==> Commute(a, b) || Harmless(a) || Harmless(b) || a == b
  {
    if Commute(a, b) {
      CommuteExactly(a, b);
    } else if Harmless(a) || Harmless(b) || a == b {
    } else {
      var g := Graph(map[], true);
      assert Link(g.out, a.key, if a.AddEdge? then a.to else 0).Keys != {};
      if a.AddEdge? && b.AddEdge? {
        LinkedTwice(a.key, a.to, b.to);
      }
      assert !Swaps(Exec, a, b, g);
    }
  }

  lemma LinkedTwice(n: nat, x: nat, y: nat)
    requires x != y
    ensures Link(Link(map[], n, x), n, y) != Link(Link(map[], n, y), n, x)
  {
    assert EdgesOf(Link(Link(map[], n, x), n, y), n) == [x, y];
    assert EdgesOf(Link(Link(map[], n, y), n, x), n) == [y, x];
    assert [x, y][0] != [y, x][0];
  }

  /** Asking for the degree of a node beyond the last one, beside any proper request. */
  lemma ParallelStop()
    ensures var a, b := Outdegree(0), Outdegree(MAX_NODES);
            Commute(a, b) && !Swaps(Exec, a, b, Graph(map[], true))
  {
    CommuteExactly(Outdegree(0), Outdegree(MAX_NODES));
  }

  lemma CommuteSound()
    ensures Sound(Exec, Commute, op => !Stops(op))
  {
    forall a, b, g | !Stops(a) && !Stops(b) && Commute(a, b)
      ensures Swaps(Exec, a, b, g)
    {
      CommutingSwap(a, b, g);
    }
  }

  function Server(): App<Graph, Op, Reply> {
    App(Graph(map[], true), Exec, Commute)
  }

  /** As long as no request stops the process, a client cannot tell four threads from one. */
  lemma Serializable(threads: nat, ws: seq<World<Graph, Op, Reply>>, steps: seq<Step<Op>>, i: nat)
    requires IsRun(Server(), threads, ws, steps) && i < |ws| && AllRan(ws[i])
    requires RequestsProper(ws[i], op => !Stops(op))
    ensures ws[i].outcome == Run(Exec, Graph(map[], true), Arrivals(ws[i]))
  {
    CommuteSound();
    LikeOneThread(Server(), op => !Stops(op), threads, ws, steps, i);
  }

  // ----- what a client sees -----

  /** A new edge out of the node that took effect. */
  predicate Adds(item: Item<Op>, n: nat) {
    item.live && item.op.AddEdge? && item.op.key == n && n < MAX_NODES && item.op.to < MAX_NODES
  }

  /** The places of such requests among the first j. */
  function AddedTo(items: seq<Item<Op>>, j: nat, n: nat): set<nat>
    requires j <= |items|
  {
    set x: nat | x < j && Adds(items[x], n)
  }

  predicate NoneStops(items: seq<Item<Op>>) {
    forall x :: 0 <= x < |items| ==> !Stops(items[x].op)
  }

  lemma OneMoreEdge(o: Outcome<Graph, Reply>, item: Item<Op>, n: nat)
    requires o.state.up && !Stops(item.op)
    ensures var g := Perform(Exec, o, item).state;
            g.up && |EdgesOf(g.out, n)| == |EdgesOf(o.state.out, n)| + if Adds(item, n) then 1 else 0
  {
    if item.op.AddEdge? {
      assert EdgesOf(Link(o.state.out, item.op.key, item.op.to), n)
          == EdgesOf(o.state.out, n) + if n == item.op.key then [item.op.to] else [];
    }
  }

  /** After any operations each node has as many edges as were added to it. */
  lemma {:induction false} CountsEdges(items: seq<Item<Op>>, j: nat, n: nat)
    requires j <= |items| && NoneStops(items)
    ensures var g := Run(Exec, Graph(map[], true), items[..j]).state;
            g.up && |EdgesOf(g.out, n)| == |AddedTo(items, j, n)|
  {
    if j > 0 {
      CountsEdges(items, j - 1, n);
      assert items[..j][..j - 1] == items[..j - 1];
      var item, before := items[j - 1], AddedTo(items, j - 1, n);
      assert AddedTo(items, j, n) == before + if Adds(item, n) then {j - 1} else {};
      OneMoreEdge(Run(Exec, Graph(map[], true), items[..j - 1]), item, n);
    } else {
      assert AddedTo(items, 0, n) == {};
    }
  }

  /** What the server tells a client about the j-th operation. */
  ghost predicate AnsweredRight(items: seq<Item<Op>>, j: nat, reply: Option<Reply>)
    requires j < |items|
  {
    if !items[j].live then reply == None else
    match items[j].op
    case Outdegree(n) => reply == Some(Degree(|AddedTo(items, j, n)|))
    case AddEdge(n, m) => reply == Some(if n < MAX_NODES && m < MAX_NODES then Done else Failed)
    case AddNode(_) => reply == Some(Done)
    case Other(_) => reply == Some(InvalidOp)
  }

  lemma RunAnswers(items: seq<Item<Op>>, j: nat)
    requires Distinct(items) && j < |items| && NoneStops(items)
    ensures items[j].id in Run(Exec, Graph(map[], true), items).replies
    ensures AnsweredRight(items, j, Run(Exec, Graph(map[], true), items).replies[items[j].id])
  {
    ReplyOf(Exec, Graph(map[], true), items, j);
    if items[j].live {
      var n := if items[j].op.Outdegree? then items[j].op.key else 0;
      CountsEdges(items, j, n);
    }
  }

  /** However many threads there are, and as long as no request stops the process: the degree
      of a node is answered with the number of edges out of it that arrived before, within
      range, and took effect. */
  lemma DegreeCounts(threads: nat, ws: seq<World<Graph, Op, Reply>>, steps: seq<Step<Op>>, i: nat, id: nat)
    requires IsRun(Server(), threads, ws, steps) && i < |ws| && AllRan(ws[i]) && id < |ws[i].reqs|
    requires RequestsProper(ws[i], op => !Stops(op))
    ensures id in ws[i].outcome.replies
    ensures AnsweredRight(Arrivals(ws[i]), id, ws[i].outcome.replies[id])
  {
    Serializable(threads, ws, steps, i);
    RunAnswers(Arrivals(ws[i]), id);
  }
}
