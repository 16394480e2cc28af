/** Depth-first search for a cycle, with visited and on-stack marks, over any order of nodes. */
module CycleSearch {
  import opened Shared

  type Graph = map<Gid, seq<Gid>>

  function Successors(graph: Graph, n: Gid): seq<Gid> {
    if n in graph then graph[n] else []
  }

  predicate Edge(graph: Graph, a: Gid, b: Gid) {
    b in Successors(graph, a)
  }

  ghost predicate Walk(graph: Graph, p: seq<Gid>) {
    forall i :: 0 <= i < |p| - 1 ==> Edge(graph, p[i], p[i + 1])
  }

  /** A walk along at least one edge that ends where it began. */
  ghost predicate ClosedWalk(graph: Graph, p: seq<Gid>) {
    |p| >= 2 && p[0] == p[|p| - 1] && Walk(graph, p)
  }

  ghost predicate Cyclic(graph: Graph) {
    exists p :: ClosedWalk(graph, p)
  }

  ghost predicate NoRepeats(p: seq<Gid>) {
    forall i, j :: 0 <= i < j < |p| ==> p[i] != p[j]
  }

  /** A closed walk that meets no other node twice. */
  ghost predicate SimpleCycle(graph: Graph, p: seq<Gid>) {
    ClosedWalk(graph, p) && NoRepeats(p[..|p| - 1])
  }

  ghost function Nodes(graph: Graph): set<Gid> {
    graph.Keys + set n, i | n in graph && 0 <= i < |graph[n]| :: graph[n][i]
  }

  /** Every successor of a finished node was finished before it. */
  ghost predicate Settled(graph: Graph, finished: seq<Gid>) {
    NoRepeats(finished) &&
    forall i, m :: 0 <= i < |finished| && Edge(graph, finished[i], m) ==> m in finished[..i]
  }

  class Search {
    const graph: Graph
    var visited: set<Gid>
    var onStack: set<Gid>
    var stack: seq<Gid>
    var cycle: seq<Gid>
    /** The nodes whose search returned, in that order. */
    ghost var finished: seq<Gid>

    ghost predicate Valid()
      reads this
    {
      && visited <= Nodes(graph)
      && (forall n :: n in onStack <==> n in stack)
      && (forall n :: n in visited <==> n in stack || n in finished)
      && (forall n :: n in stack ==> n !in finished)
      && NoRepeats(stack) && Walk(graph, stack)
      && Settled(graph, finished)
    }

    constructor (g: Graph)
      ensures Valid() && graph == g && visited == {} && stack == [] && finished == [] && cycle == []
    {
      graph := g;
      visited, onStack, stack, cycle, finished := {}, {}, [], [], [];
    }

    method Push(n: Gid)
      requires Valid() && n in Nodes(graph) && n !in visited
      requires stack != [] ==> Edge(graph, stack[|stack| - 1], n)
      modifies this`visited, this`onStack, this`stack
      ensures Valid() && stack == old(stack) + [n] && visited == old(visited) + {n}
    {
      visited := visited + {n};
      onStack := onStack + {n};
      stack := stack + [n];
    }

    method Pop(n: Gid)
      requires Valid() && stack != [] && stack[|stack| - 1] == n
      requires forall j :: 0 <= j < |Successors(graph, n)| ==> Successors(graph, n)[j] in finished
      modifies this`onStack, this`stack, this`finished
      ensures Valid() && stack == old(stack)[..|old(stack)| - 1] && finished == old(finished) + [n]
    {
      Finish(graph, finished, n);
      assert stack == stack[..|stack| - 1] + [n];
      stack := stack[..|stack| - 1];
      onStack := onStack - {n};
      finished := finished + [n];
    }

    /** Cuts the cycle out of the stack: from next, which is on it, back to next. */
    method CloseCycle(next: Gid)
      requires Valid() && next in onStack && Edge(graph, stack[|stack| - 1], next)
      modifies this`cycle
      ensures SimpleCycle(graph, cycle)
    {
      var idx := 0;
      var i := |stack| - 1;
      while i >= 0
        invariant -1 <= i < |stack|
        invariant idx == 0 && forall j :: i < j < |stack| ==> stack[j] != next
      {
        if stack[i] == next {
          idx := i;
          break;
        }
        i := i - 1;
      }
      assert stack[idx] == next;
      cycle := stack[idx..];
      cycle := cycle + [next];
    }

    /** Searches from n; on success the cycle is recorded, otherwise n and all it reaches are finished. */
    method Dfs(n: Gid) returns (found: bool)
      requires Valid() && cycle == [] && n in Nodes(graph) && n !in visited
      requires stack != [] ==> Edge(graph, stack[|stack| - 1], n)
      modifies this
      ensures found ==> SimpleCycle(graph, cycle)
      ensures !found ==> Valid() && cycle == [] && stack == old(stack)
      ensures !found ==> old(finished) <= finished && n in finished
      ensures !found ==> old(visited) < visited
      decreases Nodes(graph) - visited
    {
      Push(n);
      var nexts := Successors(graph, n);
      for i := 0 to |nexts|
        invariant Valid() && cycle == [] && stack == old(stack) + [n]
        invariant old(visited) + {n} <= visited && old(finished) <= finished
        invariant forall j :: 0 <= j < i ==> nexts[j] in finished
      {
        var next := nexts[i];
        if next !in visited {
          var deeper := Dfs(next);
          if deeper {
            return true;
          }
        } else if next in onStack {
          CloseCycle(next);
          return true;
        }
      }
      Pop(n);
      assert stack == old(stack);
      found := false;
    }
  }

  lemma Finish(graph: Graph, finished: seq<Gid>, n: Gid)
    requires Settled(graph, finished) && n !in finished
    requires forall j :: 0 <= j < |Successors(graph, n)| ==> Successors(graph, n)[j] in finished
    ensures Settled(graph, finished + [n])
  {
    var f := finished + [n];
    forall i, m | 0 <= i < |f| && Edge(graph, f[i], m) ensures m in f[..i] {
      assert f[..i] == finished[..i];
    }
  }

  /** Along a walk that starts in finished[i], every later node was finished before finished[i]. */
  lemma {:induction false} WalkDescends(graph: Graph, finished: seq<Gid>, p: seq<Gid>, i: nat, k: nat)
    requires Settled(graph, finished) && Walk(graph, p) && i < |finished| && 0 < k < |p| && p[0] == finished[i]
    ensures p[k] in finished[..i]
  {
    assert Edge(graph, p[k - 1], p[k]);
    if k > 1 {
      WalkDescends(graph, finished, p, i, k - 1);
      var j :| 0 <= j < i && finished[..i][j] == p[k - 1];
      assert finished[j] == p[k - 1];
      assert p[k] in finished[..j];
    }
  }

  /** A graph whose nodes are all finished has no cycle. */
  lemma SettledIsAcyclic(graph: Graph, finished: seq<Gid>)
    requires Settled(graph, finished) && forall n :: n in graph ==> n in finished
    ensures !Cyclic(graph)
  {
    forall p ensures !ClosedWalk(graph, p) {
      assert ClosedWalk(graph, p) ==> Edge(graph, p[0], p[1]);
      if |p| >= 2 && p[0] in finished {
        var i :| 0 <= i < |finished| && finished[i] == p[0];
        assert p[0] !in finished[..i];
        if Walk(graph, p) { WalkDescends(graph, finished, p, i, |p| - 1); }
      }
    }
  }

  /**
   Main result: whatever order the nodes are tried in, the search returns a
   non-empty list exactly when the graph has a cycle, and then a simple one.
   */
  method FindCycle(graph: Graph) returns (cycle: seq<Gid>)
    ensures cycle != [] <==> Cyclic(graph)
    ensures cycle != [] ==> SimpleCycle(graph, cycle)
  {
    var s := new Search(graph);
    var untried := graph.Keys;
    while untried != {}
      invariant s.Valid() && s.graph == graph && s.cycle == [] && s.stack == []
      invariant untried <= graph.Keys
      invariant forall n :: n in graph.Keys - untried ==> n in s.finished
    {
      var n :| n in untried;
      untried := untried - {n};
      if n !in s.visited {
        var found := s.Dfs(n);
        if found {
          assert ClosedWalk(graph, s.cycle);
          return s.cycle;
        }
      }
    }
    SettledIsAcyclic(graph, s.finished);
    return [];
  }
}
