/** Nodes of the dependency graph and the theory of paths between them. */
module Graph {
  import opened Sorting
  import opened Text

  datatype Kind =
    | FactNode
    | FactProperty
    | RelationNode
    | RelationType
    | ContextPath
    | ApplicantPath
    | RuleNode
    | OntologyNode
    | RuleCatalog
    | Derived

  datatype Node = Node(kind: Kind, id: string)

  type Edges = set<(Node, Node)>

  /** The alphabetical position of the kind's name among all kinds. */
  function KindRank(kind: Kind): nat {
    match kind
    case ApplicantPath => 0
    case ContextPath => 1
    case Derived => 2
    case FactNode => 3
    case FactProperty => 4
    case OntologyNode => 5
    case RelationNode => 6
    case RelationType => 7
    case RuleNode => 8
    case RuleCatalog => 9
  }

  /** Nodes compare as (kind, id) pairs. */
  predicate NodeLe(a: Node, b: Node) {
    if a.kind == b.kind then StrLe(a.id, b.id) else KindRank(a.kind) < KindRank(b.kind)
  }

  lemma NodeLeTotalPreorder()
    ensures TotalPreorder(NodeLe)
  {
    forall x: Node, y: Node ensures NodeLe(x, y) || NodeLe(y, x) {
      StrLeTotal(x.id, y.id);
    }
    forall x: Node, y: Node, z: Node | NodeLe(x, y) && NodeLe(y, z) ensures NodeLe(x, z) {
      if x.kind == y.kind == z.kind {
        StrLeTransitive(x.id, y.id, z.id);
      }
    }
  }

  ghost predicate IsPath(g: Edges, p: seq<Node>) {
    p != [] && forall i :: 0 <= i < |p| - 1 ==> (p[i], p[i + 1]) in g
  }

  /** b can be reached from a along zero or more edges. */
  ghost predicate Reaches(g: Edges, a: Node, b: Node) {
    exists p :: IsPath(g, p) && p[0] == a && p[|p| - 1] == b
  }

  /** No edge closes a cycle. */
  ghost predicate Acyclic(g: Edges) {
    forall a, b :: (a, b) in g ==> !Reaches(g, b, a)
  }

  function Nodes(g: Edges): set<Node> {
    (set e | e in g :: e.0) + (set e | e in g :: e.1)
  }

  /** Everything reachable from a node, itself included. */
  ghost function ReachSet(g: Edges, a: Node): (r: set<Node>)
    ensures forall n :: n in r <==> Reaches(g, a, n)
  {
    ReachedAreNodes(g, a);
    set n | n in Nodes(g) + {a} && Reaches(g, a, n)
  }

  lemma ReachedAreNodes(g: Edges, a: Node)
    ensures forall n :: Reaches(g, a, n) ==> n in Nodes(g) + {a}
  {
    forall n | Reaches(g, a, n) ensures n in Nodes(g) + {a} {
      var p :| IsPath(g, p) && p[0] == a && p[|p| - 1] == n;
      if |p| > 1 {
        assert (p[|p| - 2], p[|p| - 2 + 1]) in g;
      }
    }
  }

  lemma ReachesItself(g: Edges, a: Node)
    ensures Reaches(g, a, a)
  {
    assert IsPath(g, [a]);
  }

  lemma ReachesTransitive(g: Edges, a: Node, b: Node, c: Node)
    requires Reaches(g, a, b) && Reaches(g, b, c)
    ensures Reaches(g, a, c)
  {
    var p :| IsPath(g, p) && p[0] == a && p[|p| - 1] == b;
    var q :| IsPath(g, q) && q[0] == b && q[|q| - 1] == c;
    var r := p + q[1..];
    forall i | 0 <= i < |r| - 1 ensures (r[i], r[i + 1]) in g {
      if i >= |p| - 1 {
        assert r[i] == q[i - (|p| - 1)] && r[i + 1] == q[i - (|p| - 1) + 1];
      }
    }
    assert IsPath(g, r);
  }

  lemma ReachesByEdge(g: Edges, a: Node, b: Node)
    requires (a, b) in g
    ensures Reaches(g, a, b)
  {
    assert IsPath(g, [a, b]);
  }

  lemma ReachesInLarger(g: Edges, h: Edges, a: Node, b: Node)
    requires Reaches(g, a, b) && g <= h
    ensures Reaches(h, a, b)
  {
    var p :| IsPath(g, p) && p[0] == a && p[|p| - 1] == b;
    assert IsPath(h, p);
  }

  /** A set that holds a and is closed under the edges holds everything reachable from a. */
  lemma ClosedHoldsReached(g: Edges, s: set<Node>, a: Node, b: Node)
    requires a in s && forall n, m :: n in s && (n, m) in g ==> m in s
    requires Reaches(g, a, b)
    ensures b in s
  {
    var p :| IsPath(g, p) && p[0] == a && p[|p| - 1] == b;
    PathStaysInside(g, s, p);
  }

  lemma PathTail(g: Edges, p: seq<Node>)
    requires IsPath(g, p) && |p| > 1
    ensures (p[0], p[1]) in g && IsPath(g, p[1..])
  {
    assert (p[0], p[0 + 1]) in g;
    forall i | 0 <= i < |p[1..]| - 1 ensures (p[1..][i], p[1..][i + 1]) in g {
      assert (p[i + 1], p[i + 1 + 1]) in g;
    }
  }

  lemma {:induction false} PathStaysInside(g: Edges, s: set<Node>, p: seq<Node>)
    requires IsPath(g, p) && p[0] in s && forall n, m :: n in s && (n, m) in g ==> m in s
    ensures p[|p| - 1] in s
  {
    if |p| > 1 {
      PathTail(g, p);
      PathStaysInside(g, s, p[1..]);
    }
  }

  /** A path in a graph with one more edge either avoids that edge or passes through it. */
  lemma {:induction false} PathWithNewEdge(g: Edges, s: Node, t: Node, p: seq<Node>)
    requires IsPath(g + {(s, t)}, p)
    ensures Reaches(g, p[0], p[|p| - 1]) || (Reaches(g, p[0], s) && Reaches(g, t, p[|p| - 1]))
  {
    if |p| == 1 {
      ReachesItself(g, p[0]);
    } else {
      PathTail(g + {(s, t)}, p);
      PathWithNewEdge(g, s, t, p[1..]);
      if (p[0], p[1]) in g {
        ReachesByEdge(g, p[0], p[1]);
        if Reaches(g, p[1], p[|p| - 1]) {
          ReachesTransitive(g, p[0], p[1], p[|p| - 1]);
        } else {
          ReachesTransitive(g, p[0], p[1], s);
        }
      } else {
        ReachesItself(g, s);
      }
    }
  }

  /** An edge keeps an acyclic graph acyclic exactly when its source is not reachable from its target. */
  lemma EdgeKeepsAcyclicExactly(g: Edges, s: Node, t: Node)
    requires Acyclic(g)
    ensures Acyclic(g + {(s, t)}) <==> !Reaches(g, t, s)
  {
    var h := g + {(s, t)};
    if Reaches(g, t, s) {
      ReachesInLarger(g, h, t, s);
      assert (s, t) in h;
    } else {
      forall a, b | (a, b) in h ensures !Reaches(h, b, a) {
        if Reaches(h, b, a) {
          var p :| IsPath(h, p) && p[0] == b && p[|p| - 1] == a;
          PathWithNewEdge(g, s, t, p);
          if (a, b) in g && !Reaches(g, b, a) {
            ReachesByEdge(g, a, b);
            ReachesTransitive(g, t, a, b);
            ReachesTransitive(g, t, b, s);
          }
          assert false;
        }
      }
    }
  }

  /** Breadth-first search from a source, half way: everything seen is reachable, and the edges of a visited node
      lead to nodes that are visited or queued. */
  ghost predicate Searching(g: Edges, source: Node, visited: set<Node>, queue: seq<Node>) {
    && (source in visited || source in queue)
    && (forall n, m :: n in visited && (n, m) in g ==> m in visited || m in queue)
    && (forall n :: n in visited || n in queue ==> Reaches(g, source, n))
  }

  lemma SearchStarts(g: Edges, source: Node)
    ensures Searching(g, source, {}, [source])
  {
    ReachesItself(g, source);
  }

  lemma SearchSkips(g: Edges, source: Node, visited: set<Node>, queue: seq<Node>)
    requires Searching(g, source, visited, queue) && queue != [] && queue[0] in visited
    ensures Searching(g, source, visited, queue[1..])
  {
    assert forall n :: n in queue <==> n == queue[0] || n in queue[1..];
  }

  /** Visiting the head of the queue and queueing its successors that are not visited yet continues the search. */
  lemma SearchVisits(g: Edges, source: Node, visited: set<Node>, queue: seq<Node>, more: seq<Node>)
    requires Searching(g, source, visited, queue) && queue != []
    requires forall m :: m in more ==> (queue[0], m) in g
    requires forall m :: (queue[0], m) in g ==> m in more || m in visited + {queue[0]}
    ensures Searching(g, source, visited + {queue[0]}, queue[1..] + more)
    ensures queue[0] in Nodes(g) + {source}
  {
    assert forall n :: n in queue <==> n == queue[0] || n in queue[1..];
    ReachedAreNodes(g, source);
    forall m | m in more ensures Reaches(g, source, m) {
      ReachesByEdge(g, queue[0], m);
      ReachesTransitive(g, source, queue[0], m);
    }
  }

  /** A search that has emptied its queue has visited exactly the reachable nodes. */
  lemma SearchEnds(g: Edges, source: Node, visited: set<Node>)
    requires Searching(g, source, visited, [])
    ensures visited == ReachSet(g, source)
  {
    forall n | Reaches(g, source, n) ensures n in visited {
      ClosedHoldsReached(g, visited, source, n);
    }
  }

  // ---- the order of the search ----

  function Successors(g: Edges, n: Node): set<Node> {
    set e | e in g && e.0 == n :: e.1
  }

  /** The nodes of a set in (kind, id) order. */
  ghost function InOrder(s: set<Node>): (q: seq<Node>)
    ensures multiset(q) == multiset(s) && Sorted(NodeLe, q)
  {
    if s == {} then []
    else
      var n :| n in s;
      var rest := InOrder(s - {n});
      NodeLeTotalPreorder();
      InsertPermutes(NodeLe, n, rest);
      InsertSorts(NodeLe, n, rest);
      assert multiset(s) == multiset{n} + multiset(s - {n});
      Insert(NodeLe, n, rest)
  }

  lemma NodeLeAntisymmetric(a: Node, b: Node)
    requires NodeLe(a, b) && NodeLe(b, a)
    ensures a == b
  {
    if a.kind == b.kind {
      StrLeAntisymmetric(a.id, b.id);
    }
  }

  /** There is one such order. */
  lemma OrderIsUnique(s: set<Node>, q: seq<Node>)
    requires multiset(q) == multiset(s) && Sorted(NodeLe, q)
    ensures q == InOrder(s)
  {
    forall a, b | a in q && b in q && NodeLe(a, b) && NodeLe(b, a) ensures a == b {
      NodeLeAntisymmetric(a, b);
    }
    SortedUnique(NodeLe, q, InOrder(s));
  }

  lemma InOrderMembers(s: set<Node>)
    ensures forall n :: n in InOrder(s) <==> n in s
  {
    forall n ensures n in InOrder(s) <==> n in s {
      assert n in InOrder(s) <==> n in multiset(InOrder(s));
    }
  }

  /** The nodes a breadth-first search from the source goes on to visit, in order, successors being queued in (kind, id)
      order. */
  ghost function VisitOrder(g: Edges, source: Node, visited: set<Node>, queue: seq<Node>): seq<Node>
    requires forall n :: n in queue ==> n in Nodes(g) + {source}
    decreases Nodes(g) + {source} - visited, |queue|
  {
    if queue == [] then []
    else if queue[0] in visited then VisitOrder(g, source, visited, queue[1..])
    else
      InOrderMembers(Successors(g, queue[0]));
      assert queue[0] in queue;
      [queue[0]] + VisitOrder(g, source, visited + {queue[0]}, queue[1..] + InOrder(Successors(g, queue[0])))
  }

  /** The search visits every reachable node once. */
  ghost predicate VisitsRest(g: Edges, source: Node, visited: set<Node>, order: seq<Node>) {
    && (forall n :: n in order <==> n in ReachSet(g, source) && n !in visited)
    && (forall i, j :: 0 <= i < j < |order| ==> order[i] != order[j])
  }

  lemma {:induction false} VisitsEachOnce(g: Edges, source: Node, visited: set<Node>, queue: seq<Node>)
    requires Searching(g, source, visited, queue) && forall n :: n in queue ==> n in Nodes(g) + {source}
    ensures VisitsRest(g, source, visited, VisitOrder(g, source, visited, queue))
    decreases Nodes(g) + {source} - visited, |queue|
  {
    if queue == [] {
      SearchEnds(g, source, visited);
    } else if queue[0] in visited {
      SearchSkips(g, source, visited, queue);
      VisitsEachOnce(g, source, visited, queue[1..]);
    } else {
      var more := InOrder(Successors(g, queue[0]));
      InOrderMembers(Successors(g, queue[0]));
      SearchVisits(g, source, visited, queue, more);
      assert queue[0] in queue;
      VisitsEachOnce(g, source, visited + {queue[0]}, queue[1..] + more);
      VisitedFirst(g, source, visited, queue[0],
                   VisitOrder(g, source, visited + {queue[0]}, queue[1..] + more));
    }
  }

  lemma VisitedFirst(g: Edges, source: Node, visited: set<Node>, n: Node, rest: seq<Node>)
    requires VisitsRest(g, source, visited + {n}, rest) && Reaches(g, source, n) && n !in visited
    ensures VisitsRest(g, source, visited, [n] + rest)
  {
    var all := [n] + rest;
    forall i, j | 0 <= i < j < |all| ensures all[i] != all[j] {
      assert all[j] == rest[j - 1] && rest[j - 1] in rest;
      if i > 0 {
        assert all[i] == rest[i - 1];
      }
    }
  }

  /** The names of the kinds, as edges store them. */
  function KindName(kind: Kind): string {
    match kind
    case ApplicantPath => "applicant"
    case ContextPath => "context"
    case Derived => "derived"
    case FactNode => "fact"
    case FactProperty => "fact_property"
    case OntologyNode => "ontology"
    case RelationNode => "relation"
    case RelationType => "relation_type"
    case RuleNode => "rule"
    case RuleCatalog => "rule_catalog"
  }

  function KindAt(rank: nat): Kind
    requires rank < 10
  {
    [ApplicantPath, ContextPath, Derived, FactNode, FactProperty, OntologyNode, RelationNode, RelationType, RuleNode,
     RuleCatalog][rank]
  }

  lemma NextNameIsLater(rank: nat)
    requires rank < 9
    ensures StrLe(KindName(KindAt(rank)), KindName(KindAt(rank + 1)))
  {
    var a, b := KindName(KindAt(rank)), KindName(KindAt(rank + 1));
    PrefixOrFirstLetter(a, b);
  }

  lemma PrefixOrFirstLetter(a: string, b: string)
    ensures a <= b ==> StrLe(a, b)
    ensures a != "" && b != "" && a[0] < b[0] ==> StrLe(a, b)
    ensures |a| > 1 && |b| > 1 && a[0] == b[0] && a[1] < b[1] ==> StrLe(a, b)
  {
    if a <= b && a != "" {
      assert a[1..] <= b[1..] && a[0] == b[0];
      PrefixOrFirstLetter(a[1..], b[1..]);
    }
  }

  lemma {:induction false} NamesAscend(i: nat, j: nat)
    requires i <= j < 10
    ensures StrLe(KindName(KindAt(i)), KindName(KindAt(j)))
    decreases j
  {
    if i < j {
      NamesAscend(i, j - 1);
      NextNameIsLater(j - 1);
      StrLeTransitive(KindName(KindAt(i)), KindName(KindAt(j - 1)), KindName(KindAt(j)));
    } else {
      StrLeTotal(KindName(KindAt(i)), KindName(KindAt(i)));
    }
  }

  /** Nodes are ordered as the pairs of their kind's name and their id, as text. */
  lemma NodesOrderedByName(a: Node, b: Node)
    ensures NodeLe(a, b) <==> if a.kind == b.kind then StrLe(a.id, b.id) else StrLe(KindName(a.kind), KindName(b.kind))
  {
    assert KindAt(KindRank(a.kind)) == a.kind && KindAt(KindRank(b.kind)) == b.kind;
    if KindRank(a.kind) < KindRank(b.kind) {
      NamesAscend(KindRank(a.kind), KindRank(b.kind));
    } else if KindRank(b.kind) < KindRank(a.kind) {
      NamesAscend(KindRank(b.kind), KindRank(a.kind));
      if StrLe(KindName(a.kind), KindName(b.kind)) {
        StrLeAntisymmetric(KindName(a.kind), KindName(b.kind));
        NamesDiffer(a.kind, b.kind);
      }
    }
  }

  lemma NamesDiffer(a: Kind, b: Kind)
    requires a != b
    ensures KindName(a) != KindName(b)
  {
    assert |KindName(a)| == |KindName(b)| ==> KindName(a)[0] != KindName(b)[0];
  }

  lemma SubsetIsSmaller<T>(a: set<T>, b: set<T>)
    requires a <= b
    ensures |a| <= |b|
  {
    if a != {} {
      var x :| x in a;
      SubsetIsSmaller(a - {x}, b - {x});
    }
  }
}
