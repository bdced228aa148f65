/**
 * Breadth-first traversal over an adjacency map, and the input/output
 * contract of the batch of traversal queries.
 */
module Bfs {
  import opened Common

  type Graph = map<int, seq<int>>

  /** The adjacency list of a node; a node missing from the map has none. */
  function Neighbours(graph: Graph, node: int): seq<int>
  {
    if node in graph then graph[node] else []
  }

  /** Every node the map mentions, as a key or in an adjacency list. */
  function Nodes(graph: Graph): set<int>
  {
    graph.Keys + set u, k | u in graph && 0 <= k < |graph[u]| :: graph[u][k]
  }

  // ---------------------------------------------------------------------------
  // Reachability

  /** Consecutive nodes of the path are joined by edges. */
  predicate IsPath(graph: Graph, path: seq<int>)
  {
    |path| > 0 && forall k :: 0 <= k < |path| - 1 ==> path[k + 1] in Neighbours(graph, path[k])
  }

  ghost predicate Reachable(graph: Graph, start: int, x: int)
  {
    exists path :: IsPath(graph, path) && path[0] == start && path[|path| - 1] == x
  }

  lemma ReachableStep(graph: Graph, start: int, x: int, y: int)
    requires Reachable(graph, start, x) && y in Neighbours(graph, x)
    ensures Reachable(graph, start, y)
  {
    var path :| IsPath(graph, path) && path[0] == start && path[|path| - 1] == x;
    var longer := path + [y];
    assert forall k :: 0 <= k < |path| ==> longer[k] == path[k];
    assert IsPath(graph, longer);
  }

  /** The nodes of o have all their neighbours in o. */
  predicate Closed(graph: Graph, o: seq<int>)
  {
    forall k, m :: 0 <= k < |o| && 0 <= m < |Neighbours(graph, o[k])| ==> Neighbours(graph, o[k])[m] in o
  }

  lemma {:induction false} PathStaysInside(graph: Graph, o: seq<int>, path: seq<int>)
    requires Closed(graph, o) && IsPath(graph, path) && path[0] in o
    ensures path[|path| - 1] in o
  {
    if |path| > 1 {
      var init := path[..|path| - 1];
      assert IsPath(graph, init) by {
        forall k | 0 <= k < |init| - 1 ensures init[k + 1] in Neighbours(graph, init[k]) {
          assert init[k] == path[k] && init[k + 1] == path[k + 1];
        }
      }
      PathStaysInside(graph, o, init);
      var prev := path[|path| - 2];
      assert prev == init[|init| - 1];
      var k :| 0 <= k < |o| && o[k] == prev;
      var ns := Neighbours(graph, prev);
      assert path[|path| - 1] in ns;
      var m :| 0 <= m < |ns| && ns[m] == path[|path| - 1];
      assert Neighbours(graph, o[k])[m] in o;
    }
  }

  // ---------------------------------------------------------------------------
  // Discovery order

  /** The members of ns not in seen, each once, in adjacency-list order. */
  function Fresh(ns: seq<int>, seen: seq<int>): seq<int>
  {
    if |ns| == 0 then []
    else
      var f := Fresh(ns[..|ns| - 1], seen);
      var x := ns[|ns| - 1];
      if x in seen || x in f then f else f + [x]
  }

  lemma {:induction false} FreshProps(ns: seq<int>, seen: seq<int>)
    ensures NoDup(Fresh(ns, seen))
    ensures forall x :: x in Fresh(ns, seen) <==> x in ns && x !in seen
  {
    if |ns| > 0 {
      FreshProps(ns[..|ns| - 1], seen);
      assert ns == ns[..|ns| - 1] + [ns[|ns| - 1]];
    }
  }

  /**
   * The nodes known after processing ps in turn: the start node, then for
   * each processed node its neighbours not known yet, in adjacency order.
   */
  function Discovered(graph: Graph, start: int, ps: seq<int>): seq<int>
  {
    if |ps| == 0 then [start]
    else
      var d := Discovered(graph, start, ps[..|ps| - 1]);
      d + Fresh(Neighbours(graph, ps[|ps| - 1]), d)
  }

  lemma NoDupAppend(a: seq<int>, b: seq<int>)
    requires NoDup(a) && NoDup(b) && forall x :: x in b ==> x !in a
    ensures NoDup(a + b)
  {
    forall p, q | 0 <= p < q < |a + b| ensures (a + b)[p] != (a + b)[q] {
      if q >= |a| && p < |a| {
        assert (a + b)[q] in b;
      }
    }
  }

  lemma {:induction false} DiscoveredNoDup(graph: Graph, start: int, ps: seq<int>)
    ensures NoDup(Discovered(graph, start, ps))
  {
    if |ps| > 0 {
      var d := Discovered(graph, start, ps[..|ps| - 1]);
      DiscoveredNoDup(graph, start, ps[..|ps| - 1]);
      FreshProps(Neighbours(graph, ps[|ps| - 1]), d);
      NoDupAppend(d, Fresh(Neighbours(graph, ps[|ps| - 1]), d));
    }
  }

  lemma {:induction false} DiscoveredHead(graph: Graph, start: int, ps: seq<int>)
    ensures |Discovered(graph, start, ps)| > 0 && Discovered(graph, start, ps)[0] == start
  {
    if |ps| > 0 {
      DiscoveredHead(graph, start, ps[..|ps| - 1]);
    }
  }

  /** Processing more nodes only appends to what is known. */
  lemma {:induction false} DiscoveredPrefix(graph: Graph, start: int, ps: seq<int>, n: int)
    requires 0 <= n <= |ps|
    ensures var d := Discovered(graph, start, ps[..n]);
            |d| <= |Discovered(graph, start, ps)| && Discovered(graph, start, ps)[..|d|] == d
    decreases |ps| - n
  {
    if n < |ps| {
      var init := ps[..|ps| - 1];
      assert init[..n] == ps[..n];
      DiscoveredPrefix(graph, start, init, n);
    } else {
      assert ps[..n] == ps;
    }
  }

  lemma DiscoveredGrows(graph: Graph, start: int, ps: seq<int>, n: int, x: int)
    requires 0 <= n <= |ps| && x in Discovered(graph, start, ps[..n])
    ensures x in Discovered(graph, start, ps)
  {
    DiscoveredPrefix(graph, start, ps, n);
    var d := Discovered(graph, start, ps[..n]);
    var j :| 0 <= j < |d| && d[j] == x;
    assert Discovered(graph, start, ps)[j] == x;
  }

  lemma DiscoveredUnfold(graph: Graph, start: int, ps: seq<int>, k: int)
    requires 0 <= k < |ps|
    ensures var d := Discovered(graph, start, ps[..k]);
            Discovered(graph, start, ps[..k + 1]) == d + Fresh(Neighbours(graph, ps[k]), d)
  {
    var pre := ps[..k + 1];
    assert pre[..k] == ps[..k] && pre[k] == ps[k];
  }

  /** The neighbours of a processed node are known once it has been processed. */
  lemma NeighboursDiscovered(graph: Graph, start: int, ps: seq<int>, k: int, y: int)
    requires 0 <= k < |ps| && y in Neighbours(graph, ps[k])
    ensures y in Discovered(graph, start, ps)
  {
    var d := Discovered(graph, start, ps[..k]);
    DiscoveredUnfold(graph, start, ps, k);
    FreshProps(Neighbours(graph, ps[k]), d);
    assert y in d || y in Fresh(Neighbours(graph, ps[k]), d);
    DiscoveredGrows(graph, start, ps, k + 1, y);
  }

  /** Every node is processed only after it was discovered. */
  predicate Causal(graph: Graph, start: int, ps: seq<int>)
  {
    forall k :: 0 <= k < |ps| ==> ps[k] in Discovered(graph, start, ps[..k])
  }

  lemma CausalExtend(graph: Graph, start: int, ps: seq<int>, node: int)
    requires Causal(graph, start, ps) && node in Discovered(graph, start, ps)
    ensures Causal(graph, start, ps + [node])
  {
    var ext := ps + [node];
    forall k | 0 <= k < |ext| ensures ext[k] in Discovered(graph, start, ext[..k]) {
      if k < |ps| {
        assert ext[..k] == ps[..k] && ext[k] == ps[k];
      } else {
        assert ext[..k] == ps;
      }
    }
  }

  lemma {:induction false} DiscoveredReachable(graph: Graph, start: int, ps: seq<int>, x: int)
    requires Causal(graph, start, ps) && x in Discovered(graph, start, ps)
    ensures Reachable(graph, start, x)
  {
    if |ps| == 0 {
      assert IsPath(graph, [start]);
    } else {
      var init := ps[..|ps| - 1];
      var last := ps[|ps| - 1];
      var d := Discovered(graph, start, init);
      assert Causal(graph, start, init) by {
        forall k | 0 <= k < |init| ensures init[k] in Discovered(graph, start, init[..k]) {
          assert init[..k] == ps[..k] && init[k] == ps[k];
        }
      }
      if x in d {
        DiscoveredReachable(graph, start, init, x);
      } else {
        FreshProps(Neighbours(graph, last), d);
        assert ps[..|ps| - 1] == init;
        DiscoveredReachable(graph, start, init, last);
        ReachableStep(graph, start, last, x);
      }
    }
  }

  /**
   * o is a breadth-first order from start: o lists exactly the discovered
   * nodes when its own nodes are processed in turn, and each node of o was
   * discovered before it is processed.
   */
  predicate IsBfsOrder(graph: Graph, start: int, o: seq<int>)
  {
    o == Discovered(graph, start, o) && Causal(graph, start, o)
  }

  /** A breadth-first order starts at start, repeats nothing, and holds exactly the reachable nodes. */
  lemma BfsOrderProperties(graph: Graph, start: int, o: seq<int>)
    requires IsBfsOrder(graph, start, o)
    ensures |o| > 0 && o[0] == start && NoDup(o)
    ensures forall x :: x in o <==> Reachable(graph, start, x)
  {
    DiscoveredHead(graph, start, o);
    DiscoveredNoDup(graph, start, o);
    forall x | x in o ensures Reachable(graph, start, x) {
      DiscoveredReachable(graph, start, o, x);
    }
    assert Closed(graph, o) by {
      forall k, m | 0 <= k < |o| && 0 <= m < |Neighbours(graph, o[k])| ensures Neighbours(graph, o[k])[m] in o {
        NeighboursDiscovered(graph, start, o, k, Neighbours(graph, o[k])[m]);
      }
    }
    forall x | Reachable(graph, start, x) ensures x in o {
      var path :| IsPath(graph, path) && path[0] == start && path[|path| - 1] == x;
      PathStaysInside(graph, o, path);
    }
  }

  /** The k-th node of a breadth-first order is the k-th node discovered by the nodes before it. */
  lemma CausalStep(graph: Graph, start: int, o: seq<int>, k: int)
    requires IsBfsOrder(graph, start, o) && 0 <= k <= |o|
    ensures var d := Discovered(graph, start, o[..k]);
            (k < |o| <==> k < |d|) && (k < |o| ==> d[k] == o[k])
  {
    var d := Discovered(graph, start, o[..k]);
    if k < |o| {
      DiscoveredPrefix(graph, start, o, k);
      DiscoveredNoDup(graph, start, o);
      assert o[..|d|] == d;
      assert o[k] in d;
      var j :| 0 <= j < |d| && d[j] == o[k];
      assert o[j] == o[k];
    } else {
      assert o[..k] == o;
    }
  }

  lemma PrefixExtend(s: seq<int>, t: seq<int>, k: int)
    requires 0 <= k < |s| && k < |t| && s[..k] == t[..k] && s[k] == t[k]
    ensures s[..k + 1] == t[..k + 1]
  {
    assert s[..k + 1] == s[..k] + [s[k]];
    assert t[..k + 1] == t[..k] + [t[k]];
  }

  lemma {:induction false} BfsAgree(graph: Graph, start: int, o1: seq<int>, o2: seq<int>, k: int)
    requires IsBfsOrder(graph, start, o1) && IsBfsOrder(graph, start, o2)
    requires 0 <= k <= |o1| && k <= |o2| && o1[..k] == o2[..k]
    ensures o1 == o2
    decreases |o1| - k
  {
    CausalStep(graph, start, o1, k);
    CausalStep(graph, start, o2, k);
    ghost var d := Discovered(graph, start, o1[..k]);
    assert Discovered(graph, start, o2[..k]) == d;
    if k < |o1| {
      assert o1[k] == d[k] == o2[k];
      PrefixExtend(o1, o2, k);
      BfsAgree(graph, start, o1, o2, k + 1);
    } else {
      assert o1 == o1[..k] && o2 == o2[..k];
    }
  }

  /** There is only one breadth-first order from a start node. */
  lemma BfsOrderUnique(graph: Graph, start: int, o1: seq<int>, o2: seq<int>)
    requires IsBfsOrder(graph, start, o1) && IsBfsOrder(graph, start, o2)
    ensures o1 == o2
  {
    BfsAgree(graph, start, o1, o2, 0);
  }

  /** In a graph with no edges the order from q is [q]. */
  lemma EmptyGraphOrder(graph: Graph, q: int)
    requires |graph| == 0
    ensures IsBfsOrder(graph, q, [q])
  {
    assert [q][..0] == [];
    assert Discovered(graph, q, [q]) == [q] + Fresh([], [q]);
  }

  // ---------------------------------------------------------------------------
  // travel

  /** A start node with the nodes visited from it, in visiting order. */
  datatype ReachableNode = ReachableNode(node: int, neigh: seq<int>)

  /** The fresh neighbours of node are appended to the queue and marked visited, one by one. */
  method Enqueue(graph: Graph, node: int, visited: set<int>, queue: seq<int>, ghost known: seq<int>, ghost universe: set<int>)
      returns (visited': set<int>, queue': seq<int>)
    requires forall x :: x in visited <==> x in known
    requires visited <= universe && forall m :: 0 <= m < |Neighbours(graph, node)| ==> Neighbours(graph, node)[m] in universe
    ensures queue' == queue + Fresh(Neighbours(graph, node), known)
    ensures forall x :: x in visited' <==> x in known || x in Fresh(Neighbours(graph, node), known)
    ensures visited' <= universe && |universe - visited'| + |queue'| == |universe - visited| + |queue|
  {
    var ns := Neighbours(graph, node);
    visited', queue' := visited, queue;
    var k := 0;
    while k < |ns|
      invariant 0 <= k <= |ns| && queue' == queue + Fresh(ns[..k], known)
      invariant forall x :: x in visited' <==> x in known || x in Fresh(ns[..k], known)
      invariant visited' <= universe && |universe - visited'| + |queue'| == |universe - visited| + |queue|
    {
      var neigh := ns[k];
      assert ns[..k + 1][..k] == ns[..k] && ns[..k + 1][k] == neigh;
      if neigh !in visited' {
        assert universe - (visited' + {neigh}) == (universe - visited') - {neigh};
        visited' := visited' + {neigh};
        queue' := queue' + [neigh];
      }
      k := k + 1;
    }
    assert ns[..k] == ns;
  }

  lemma NeighboursInNodes(graph: Graph, node: int)
    ensures forall m :: 0 <= m < |Neighbours(graph, node)| ==> Neighbours(graph, node)[m] in Nodes(graph)
  {
    forall m | 0 <= m < |Neighbours(graph, node)| ensures Neighbours(graph, node)[m] in Nodes(graph) {
      if node in graph {
        assert graph[node][m] in Nodes(graph);
      }
    }
  }

  /** Dequeuing the head and enqueuing its fresh neighbours keeps the queue equal to the undrained discoveries. */
  lemma TravelStep(graph: Graph, start: int, order: seq<int>, queue: seq<int>)
    requires |queue| > 0 && order + queue == Discovered(graph, start, order)
    ensures var node := queue[0];
            var order' := order + [node];
            var queue' := queue[1..] + Fresh(Neighbours(graph, node), order + queue);
            order' + queue' == Discovered(graph, start, order')
  {
    var node := queue[0];
    var order' := order + [node];
    assert order'[..|order'| - 1] == order;
    assert order + queue == order' + queue[1..];
  }

  /** Breadth-first traversal from startNode with a visited set and a FIFO queue. */
  method Travel(graph: Graph, startNode: int) returns (r: ReachableNode)
    ensures r.node == startNode && IsBfsOrder(graph, startNode, r.neigh)
  {
    var visited: set<int> := {startNode};
    var queue: seq<int> := [startNode];
    var order: seq<int> := [];
    ghost var universe := Nodes(graph) + {startNode};
    while |queue| > 0
      invariant order + queue == Discovered(graph, startNode, order)
      invariant Causal(graph, startNode, order)
      invariant forall x :: x in visited <==> x in order + queue
      invariant visited <= universe
      decreases |universe - visited| + |queue|
    {
      ghost var known := order + queue;
      var node := queue[0];
      CausalExtend(graph, startNode, order, node);
      TravelStep(graph, startNode, order, queue);
      NeighboursInNodes(graph, node);
      queue := queue[1..];
      order := order + [node];
      visited, queue := Enqueue(graph, node, visited, queue, known, universe);
      assert order + queue == known + Fresh(Neighbours(graph, node), known);
    }
    assert queue == [];
    assert order + queue == order;
    r := ReachableNode(startNode, order);
  }

  /**
   * The batch of queries, with its two early returns. The result holds the
   * traversal of every query; the worker goroutines that compute them in
   * parallel are not modelled.
   */
  method ConcurrentBfsQueries(graph: Graph, queries: seq<int>, numWorkers: int) returns (result: map<int, seq<int>>)
    requires numWorkers >= 0 || |queries| == 0 || |graph| == 0
    ensures numWorkers == 0 || |queries| == 0 ==> result == map[]
    ensures numWorkers != 0 && |queries| > 0 ==> result.Keys == set q | q in queries
    ensures forall q :: q in result ==> IsBfsOrder(graph, q, result[q])
    ensures |graph| == 0 ==> forall q :: q in result ==> result[q] == [q]
  {
    if numWorkers == 0 || |queries| == 0 {
      return map[];
    }
    if |graph| == 0 {
      result := map[];
      var k := 0;
      while k < |queries|
        invariant 0 <= k <= |queries| && result.Keys == set q | q in queries[..k]
        invariant forall q :: q in result ==> result[q] == [q] && IsBfsOrder(graph, q, [q])
      {
        assert queries[..k + 1] == queries[..k] + [queries[k]];
        EmptyGraphOrder(graph, queries[k]);
        result := result[queries[k] := [queries[k]]];
        k := k + 1;
      }
      assert queries[..k] == queries;
      return;
    }
    result := map[];
    var k := 0;
    while k < |queries|
      invariant 0 <= k <= |queries| && result.Keys == set q | q in queries[..k]
      invariant forall q :: q in result ==> IsBfsOrder(graph, q, result[q])
    {
      assert queries[..k + 1] == queries[..k] + [queries[k]];
      var reached := Travel(graph, queries[k]);
      result := result[reached.node := reached.neigh];
      k := k + 1;
    }
    assert queries[..k] == queries;
  }
}
