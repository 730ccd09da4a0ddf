/** The import-cycle search (scripts/verify_architecture.py): depth-first search
    with three colours over a graph given as a list of neighbours per node. */
module ImportCycles {

  type Node = string

  type Graph = map<Node, seq<Node>>

  datatype Color = WHITE | GRAY | BLACK

  // An import between two modules of the graph; imports of others are skipped.
  ghost predicate Edge(g: Graph, u: Node, v: Node) {
    u in g && v in g && v in g[u]
  }

  ghost predicate IsPath(g: Graph, p: seq<Node>) {
    && (forall i | 0 <= i < |p| :: p[i] in g)
    && (forall i | 0 <= i < |p| - 1 :: Edge(g, p[i], p[i + 1]))
  }

  ghost predicate IsCycle(g: Graph, p: seq<Node>) {
    |p| >= 2 && IsPath(g, p) && p[0] == p[|p| - 1]
  }

  ghost predicate HasCycle(g: Graph) {
    exists p :: IsCycle(g, p)
  }

  // A path whose last node occurs earlier in it.
  ghost predicate ClosesOnItself(g: Graph, p: seq<Node>) {
    |p| >= 2 && IsPath(g, p) && p[|p| - 1] in p[..|p| - 1]
  }

  lemma ClosedPathHasCycle(g: Graph, p: seq<Node>)
    requires ClosesOnItself(g, p)
    ensures HasCycle(g)
  {
    var i :| 0 <= i < |p| - 1 && p[..|p| - 1][i] == p[|p| - 1];
    var c := p[i..];
    forall k | 0 <= k < |c| - 1 ensures Edge(g, c[k], c[k + 1]) {
      assert c[k] == p[i + k] && c[k + 1] == p[i + k + 1];
    }
    assert IsCycle(g, c);
  }

  // Nodes in the order they turned BLACK: every neighbour comes before its importer.
  ghost predicate Finished(g: Graph, done: seq<Node>) {
    forall i, v | 0 <= i < |done| && Edge(g, done[i], v) :: v in done[..i]
  }

  // From a finished node, every step goes to a node finished before it.
  lemma {:induction false} PathsDescend(g: Graph, done: seq<Node>, p: seq<Node>, i: nat)
    requires Finished(g, done) && IsPath(g, p) && |p| >= 2
    requires i < |done| && done[i] == p[0]
    ensures p[|p| - 1] in done[..i]
    decreases |p|
  {
    assert Edge(g, p[0], p[1]);
    var j :| 0 <= j < i && done[..i][j] == p[1];
    if |p| > 2 {
      forall k | 0 <= k < |p| - 2 ensures Edge(g, p[1..][k], p[1..][k + 1]) {
        assert p[1..][k] == p[k + 1] && p[1..][k + 1] == p[k + 2];
      }
      PathsDescend(g, done, p[1..], j);
      assert done[..j] <= done[..i];
    }
  }

  /** A graph all of whose nodes finished has no cycle. */
  lemma FinishedGraphHasNoCycle(g: Graph, done: seq<Node>)
    requires Finished(g, done) && forall v | v in g :: v in done
    ensures !HasCycle(g)
  {
    forall p | IsCycle(g, p) ensures false {
      var i := FirstIndex(done, p[0]);
      PathsDescend(g, done, p, i);
    }
  }

  ghost function FirstIndex(s: seq<Node>, v: Node): (i: nat)
    requires v in s
    ensures i < |s| && s[i] == v && v !in s[..i]
  {
    if s[0] == v then 0
    else
      assert s == [s[0]] + s[1..];
      var i := FirstIndex(s[1..], v) + 1;
      assert s[..i] == [s[0]] + s[1..][..i - 1];
      i
  }

  // While nothing is found: GRAY is exactly the stack, BLACK exactly what finished.
  ghost predicate Consistent(g: Graph, color: map<Node, Color>, stack: seq<Node>, done: seq<Node>) {
    && color.Keys == g.Keys
    && IsPath(g, stack)
    && (forall i, j | 0 <= i < j < |stack| :: stack[i] != stack[j])
    && (forall n | n in g :: color[n] == GRAY <==> n in stack)
    && (forall n | n in g :: color[n] == BLACK <==> n in done)
    && (forall n | n in done :: n in g)
    && Finished(g, done)
  }

  lemma PathExtends(g: Graph, p: seq<Node>, v: Node)
    requires IsPath(g, p) && v in g && (p != [] ==> Edge(g, p[|p| - 1], v))
    ensures IsPath(g, p + [v])
  {
  }

  lemma EnteringKeeps(g: Graph, color: map<Node, Color>, stack: seq<Node>, done: seq<Node>, v: Node)
    requires Consistent(g, color, stack, done) && v in g && color[v] == WHITE
    requires stack != [] ==> Edge(g, stack[|stack| - 1], v)
    ensures Consistent(g, color[v := GRAY], stack + [v], done)
  {
    PathExtends(g, stack, v);
  }

  lemma LeavingKeeps(g: Graph, color: map<Node, Color>, stack: seq<Node>, done: seq<Node>, v: Node)
    requires Consistent(g, color, stack + [v], done)
    requires forall w | Edge(g, v, w) :: w in done
    ensures Consistent(g, color[v := BLACK], stack, done + [v])
  {
    var full := stack + [v];
    assert full[|stack|] == v && v in full && v in g && color[v] == GRAY;
    assert forall n :: n in full <==> n in stack || n == v;
    forall i, j | 0 <= i < j < |stack| ensures stack[i] != stack[j] {
      assert full[i] == stack[i] && full[j] == stack[j];
    }
    forall i | 0 <= i < |stack| ensures stack[i] in g && stack[i] != v {
      assert full[i] == stack[i];
    }
    forall i | 0 <= i < |stack| - 1 ensures Edge(g, stack[i], stack[i + 1]) {
      assert full[i] == stack[i] && full[i + 1] == stack[i + 1];
    }
    var longer := done + [v];
    forall i, w | 0 <= i < |longer| && Edge(g, longer[i], w) ensures w in longer[..i] {
      if i < |done| {
        assert Edge(g, done[i], w);
        assert longer[..i] == done[..i];
      } else {
        assert longer[..i] == done;
      }
    }
  }

  class CycleSearch {
    const graph: Graph
    var color: map<Node, Color>
    var cyclePath: seq<Node>
    ghost var done: seq<Node>

    constructor (graph: Graph)
      ensures this.graph == graph && Valid()
      ensures cyclePath == [] && done == [] && White() == graph.Keys
    {
      this.graph := graph;
      color := map n | n in graph :: WHITE;
      cyclePath := [];
      done := [];
    }

    ghost function White(): set<Node>
      reads this
    {
      set n | n in color && color[n] == WHITE
    }

    ghost predicate Valid()
      reads this
    {
      Consistent(graph, color, cyclePath, done)
    }

    method Dfs(node: Node) returns (found: bool)
      requires Valid() && node in White()
      requires cyclePath != [] ==> Edge(graph, cyclePath[|cyclePath| - 1], node)
      modifies this
      ensures found ==> ClosesOnItself(graph, cyclePath)
      ensures !found ==>
                && Valid() && cyclePath == old(cyclePath) && node in done
                && old(done) <= done && White() <= old(White()) - {node}
      decreases White()
    {
      EnteringKeeps(graph, color, cyclePath, done, node);
      color := color[node := GRAY];
      cyclePath := cyclePath + [node];
      var neighbors := if node in graph then graph[node] else [];
      for i := 0 to |neighbors|
        invariant Valid() && cyclePath == old(cyclePath) + [node]
        invariant old(done) <= done && White() <= old(White()) - {node}
        invariant forall k | 0 <= k < i && neighbors[k] in graph :: neighbors[k] in done
      {
        var neighbor := neighbors[i];
        if neighbor !in color {
          continue;
        }
        assert Edge(graph, node, neighbor);
        if color[neighbor] == GRAY {
          PathExtends(graph, cyclePath, neighbor);
          cyclePath := cyclePath + [neighbor];
          return true;
        }
        if color[neighbor] == WHITE {
          var inner := Dfs(neighbor);
          if inner {
            return true;
          }
        }
      }
      cyclePath := cyclePath[..|cyclePath| - 1];
      LeavingKeeps(graph, color, cyclePath, done, node);
      color := color[node := BLACK];
      done := done + [node];
      found := false;
    }
  }

  /** The check reports a cycle exactly when the graph has one among its own
      nodes, and then shows a real path that runs into itself. */
  method CheckImportCycles(graph: Graph, order: seq<Node>) returns (passed: bool, cyclePath: seq<Node>)
    requires forall n :: n in order <==> n in graph
    ensures passed <==> !HasCycle(graph)
    ensures !passed ==> ClosesOnItself(graph, cyclePath)
  {
    var search := new CycleSearch(graph);
    for i := 0 to |order|
      invariant fresh(search) && search.graph == graph && search.Valid() && search.cyclePath == []
      invariant forall k | 0 <= k < i :: order[k] in search.done
    {
      if search.color[order[i]] == WHITE {
        ghost var before := search.done;
        var found := search.Dfs(order[i]);
        if found {
          ClosedPathHasCycle(graph, search.cyclePath);
          return false, search.cyclePath;
        }
        assert before <= search.done;
      }
    }
    FinishedGraphHasNoCycle(graph, search.done);
    return true, [];
  }
}
