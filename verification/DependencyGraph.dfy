/** The in-memory dependency graph (domain/dependencies.py): edges are added unless they would close a cycle. */
module DependencyGraphs {
  import opened Prelude
  import opened Sorting
  import opened Graph

  /** sorted(set_of_nodes). */
  method SortedNodes(s: set<Node>) returns (q: seq<Node>)
    ensures forall n :: n in q <==> n in s
    ensures |q| == |s| && Sorted(NodeLe, q) && q == InOrder(s)
  {
    NodeLeTotalPreorder();
    var rest := s;
    q := [];
    while rest != {}
      invariant rest <= s && multiset(q) + multiset(rest) == multiset(s) && Sorted(NodeLe, q)
    {
      var n :| n in rest;
      InsertPermutes(NodeLe, n, q);
      InsertSorts(NodeLe, n, q);
      assert multiset(rest) == multiset{n} + multiset(rest - {n});
      q, rest := Insert(NodeLe, n, q), rest - {n};
    }
    OrderIsUnique(s, q);
    InOrderMembers(s);
    assert |multiset(q)| == |q| && |multiset(s)| == |s|;
  }

  /** What a sequence of insertions leaves: each edge is kept unless it would close a cycle. */
  ghost function Inserted(g: Edges, edges: seq<(Node, Node)>): Edges
    decreases |edges|
  {
    if edges == [] then g
    else Inserted(if Reaches(g, edges[0].1, edges[0].0) then g else g + {edges[0]}, edges[1..])
  }

  /** Every sequence of insertions keeps the graph acyclic. */
  lemma {:induction false} InsertionsStayAcyclic(g: Edges, edges: seq<(Node, Node)>)
    requires Acyclic(g)
    ensures Acyclic(Inserted(g, edges))
    decreases |edges|
  {
    if edges != [] {
      EdgeKeepsAcyclicExactly(g, edges[0].0, edges[0].1);
      InsertionsStayAcyclic(if Reaches(g, edges[0].1, edges[0].0) then g else g + {edges[0]}, edges[1..]);
    }
  }

  class DependencyGraph {
    var outgoing: map<Node, set<Node>>

    function Edges(): Edges
      reads this
    {
      set s, t | s in outgoing && t in outgoing[s] :: (s, t)
    }

    constructor ()
      ensures Edges() == {} && Acyclic(Edges())
    {
      outgoing := map[];
    }

    function Outgoing(n: Node): (r: set<Node>)
      reads this
      ensures forall m :: m in r <==> (n, m) in Edges()
    {
      if n in outgoing then outgoing[n] else {}
    }

    /** Rejects exactly the edges that would close a cycle, adds any other, and leaves the graph acyclic. */
    method Add(source: Node, target: Node) returns (accepted: bool)
      requires Acyclic(Edges())
      modifies this
      ensures accepted <==> Acyclic(old(Edges()) + {(source, target)})
      ensures Edges() == if accepted then old(Edges()) + {(source, target)} else old(Edges())
      ensures Edges() == Inserted(old(Edges()), [(source, target)])
      ensures Acyclic(Edges())
    {
      EdgeKeepsAcyclicExactly(Edges(), source, target);
      var found := true;
      if source == target {
        ReachesItself(Edges(), source);
      } else {
        found := HasPath(target, source);
      }
      accepted := !found;
      if accepted {
        ghost var before := Edges();
        outgoing := outgoing[source := Outgoing(source) + {target}];
        forall s, t ensures (s, t) in Edges() <==> (s, t) in before + {(source, target)} {
        }
      }
    }

    method HasPath(source: Node, target: Node) returns (found: bool)
      ensures found <==> Reaches(Edges(), source, target)
    {
      var queue := [source];
      var visited: set<Node> := {};
      SearchStarts(Edges(), source);
      while queue != []
        invariant Searching(Edges(), source, visited, queue)
        invariant target !in visited
        decreases Nodes(Edges()) + {source} - visited, |queue|
      {
        var current := queue[0];
        if current in visited {
          SearchSkips(Edges(), source, visited, queue);
          queue := queue[1..];
          continue;
        }
        if current == target {
          return true;
        }
        var more := SortedNodes(Outgoing(current));
        SearchVisits(Edges(), source, visited, queue, more);
        visited, queue := visited + {current}, queue[1..] + more;
      }
      SearchEnds(Edges(), source, visited);
      return false;
    }

    /** All nodes reachable from the source other than itself, or a failure exactly when the source reaches more
        than maxNodes nodes, itself included. */
    method Affected(source: Node, maxNodes: nat) returns (r: Option<seq<Node>>)
      ensures r.None? <==> |ReachSet(Edges(), source)| > maxNodes
      ensures r.Some? ==> forall n :: n in r.value <==> Reaches(Edges(), source, n) && n != source
      ensures r.Some? ==> Sorted(NodeLe, r.value) && |r.value| == |ReachSet(Edges(), source)| - 1
    {
      var queue := [source];
      var visited: set<Node> := {};
      SearchStarts(Edges(), source);
      while queue != []
        invariant Searching(Edges(), source, visited, queue)
        invariant |visited| <= maxNodes
        decreases Nodes(Edges()) + {source} - visited, |queue|
      {
        var current := queue[0];
        if current in visited {
          SearchSkips(Edges(), source, visited, queue);
          queue := queue[1..];
          continue;
        }
        visited := visited + {current};
        if |visited| > maxNodes {
          SubsetIsSmaller(visited, ReachSet(Edges(), source));
          return None;
        }
        var more := SortedNodes(Outgoing(current));
        SearchVisits(Edges(), source, visited - {current}, queue, more);
        assert visited - {current} + {current} == visited;
        queue := queue[1..] + more;
      }
      SearchEnds(Edges(), source, visited);
      var affected := SortedNodes(visited - {source});
      return Some(affected);
    }
  }
}
