/** Walks in a directed graph given by its edges. */
module Walks {
  type Graph<!T(==)> = set<(T, T)>

  ghost predicate IsWalk<T>(graph: Graph<T>, walk: seq<T>) {
    walk != [] && forall k {:trigger walk[k]} :: 0 < k < |walk| ==> (walk[k - 1], walk[k]) in graph
  }

  ghost predicate Repeats<T>(walk: seq<T>) {
    exists a, b :: 0 <= a < b < |walk| && walk[a] == walk[b]
  }

  /** From `node` one can come back to a node passed before. */
  ghost predicate ReachesCycle<T(!new)>(graph: Graph<T>, node: T) {
    exists walk :: IsWalk(graph, walk) && walk[0] == node && Repeats(walk)
  }

  ghost predicate Distinct<T>(order: seq<T>) {
    forall a, b :: 0 <= a < b < |order| ==> order[a] != order[b]
  }

  /** Each node of the list comes after all its successors. */
  ghost predicate SuccessorsFirst<T(!new)>(graph: Graph<T>, order: seq<T>) {
    forall k, next :: 0 <= k < |order| && (order[k], next) in graph ==> next in order[..k]
  }

  /** A walk from the list stays in it and only goes down. */
  lemma {:induction false} WalkDescends<T(!new)>(graph: Graph<T>, order: seq<T>, walk: seq<T>, k: nat, m: nat)
    returns (p: nat)
    requires SuccessorsFirst(graph, order) && IsWalk(graph, walk)
    requires k < |order| && order[k] == walk[0] && m < |walk|
    ensures p < |order| && order[p] == walk[m] && p + m <= k
    decreases m
  {
    if m == 0 {
      p := k;
    } else {
      var q := WalkDescends(graph, order, walk, k, m - 1);
      assert (order[q], walk[m]) in graph;
      p :| 0 <= p < q && order[p] == walk[m];
    }
  }

  /** Nothing in a list with successors first can reach a cycle. */
  lemma {:induction false} ListedAreAcyclic<T(!new)>(graph: Graph<T>, order: seq<T>, k: nat)
    requires SuccessorsFirst(graph, order) && Distinct(order) && k < |order|
    ensures !ReachesCycle(graph, order[k])
  {
    forall walk | IsWalk(graph, walk) && walk[0] == order[k] ensures !Repeats(walk) {
      forall a, b | 0 <= a < b < |walk| ensures walk[a] != walk[b] {
        var p := WalkDescends(graph, order, walk, k, a);
        var rest := walk[a..];
        assert IsWalk(graph, rest) && rest[b - a] == walk[b];
        var q := WalkDescends(graph, order, rest, p, b - a);
      }
    }
  }

  ghost predicate SuccessorWithin<T(!new)>(graph: Graph<T>, nodes: set<T>, node: T) {
    exists next :: next in nodes && (node, next) in graph
  }

  /** Every node of the set has a successor in it. */
  ghost predicate Stuck<T(!new)>(graph: Graph<T>, nodes: set<T>) {
    forall node {:trigger SuccessorWithin(graph, nodes, node)} :: node in nodes ==> SuccessorWithin(graph, nodes, node)
  }

  lemma {:induction false} WalkWithin<T(!new)>(graph: Graph<T>, nodes: set<T>, node: T, length: nat)
    returns (walk: seq<T>)
    requires Stuck(graph, nodes) && node in nodes && length > 0
    ensures IsWalk(graph, walk) && |walk| == length && walk[0] == node
    ensures forall k :: 0 <= k < |walk| ==> walk[k] in nodes
    decreases length
  {
    if length == 1 {
      walk := [node];
    } else {
      var before := WalkWithin(graph, nodes, node, length - 1);
      var last := before[length - 2];
      assert SuccessorWithin(graph, nodes, last);
      var next :| next in nodes && (last, next) in graph;
      walk := before + [next];
    }
  }

  /** More steps than nodes: some node comes twice. */
  lemma {:induction false} Pigeonhole<T>(walk: seq<T>, nodes: set<T>)
    requires (forall k :: 0 <= k < |walk| ==> walk[k] in nodes) && |walk| > |nodes|
    ensures Repeats(walk)
    decreases |nodes|
  {
    var n := |walk| - 1;
    var last := walk[n];
    if last in walk[..n] {
      var a :| 0 <= a < n && walk[..n][a] == last;
      assert walk[a] == walk[n];
    } else {
      Pigeonhole(walk[..n], nodes - {last});
      var a, b :| 0 <= a < b < n && walk[..n][a] == walk[..n][b];
      assert walk[a] == walk[b];
    }
  }

  lemma {:induction false} StuckReachesCycle<T(!new)>(graph: Graph<T>, nodes: set<T>, node: T)
    requires Stuck(graph, nodes) && node in nodes
    ensures ReachesCycle(graph, node)
  {
    var walk := WalkWithin(graph, nodes, node, |nodes| + 1);
    Pigeonhole(walk, nodes);
  }

  lemma {:induction false} CycleHasStep<T(!new)>(graph: Graph<T>, node: T) returns (next: T)
    requires ReachesCycle(graph, node)
    ensures (node, next) in graph
  {
    var walk :| IsWalk(graph, walk) && walk[0] == node && Repeats(walk);
    var a, b :| 0 <= a < b < |walk| && walk[a] == walk[b];
    next := walk[1];
  }
}
