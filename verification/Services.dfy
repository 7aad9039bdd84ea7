/** The services as they run: methods that change the repository's tables step by step inside a transaction, each proved
    to do what the state machine says. */
module Services {
  import opened Prelude
  import opened Json
  import opened Graph
  import opened Evaluator
  import opened Rules
  import opened Engine
  import opened FactStore
  import opened RuleStore
  import opened Core
  import opened CacheProofs
  import opened Reachable
  import opened DependencyGraphs

  /** The tables of one database session, and what was last committed. */
  class Repository {
    const ontology: string
    var facts: seq<FactRow>
    var relations: seq<Relation>
    var rules: seq<Rule>
    var derived: seq<DerivedRow>
    var edges: set<Edge>
    var committed: State

    constructor (ontology: string)
      ensures View() == Init(ontology) && committed == View()
    {
      this.ontology := ontology;
      facts, relations, rules, derived, edges := [], [], [], [], {};
      committed := Init(ontology);
    }

    function View(): State
      reads this
    {
      State(ontology, facts, relations, rules, derived, edges)
    }

    method Commit()
      modifies this`committed
      ensures committed == View()
    {
      committed := View();
    }

    /** Leaving a service by an exception drops what was not committed. */
    method Rollback()
      requires committed.ontology == ontology
      modifies this
      ensures View() == committed == old(committed)
    {
      facts, relations, rules, derived, edges :=
        committed.facts, committed.relations, committed.rules, committed.derived, committed.edges;
    }
  }

  /** What a service call did: everything was committed, or nothing happened. */
  twostate predicate Served(repo: Repository, outcome: Option<State>, ok: bool)
    reads repo
  {
    && ok == outcome.Some?
    && repo.View() == (if outcome.Some? then outcome.value else old(repo.View()))
    && repo.committed == repo.View()
  }

  // ---- dependency service ----

  /** The derived results among the nodes, other than the source. */
  ghost predicate CollectsResults(affected: set<string>, source: Node, nodes: set<Node>) {
    forall id :: id in affected <==> Node(Derived, id) in nodes && Node(Derived, id) != source
  }

  /** Queues the targets of a node's edges that were not visited and collects the results among them. */
  method QueueTargets(edges: set<Edge>, source: Node, visited: set<Node>, affected: set<string>, ghost seen: set<Node>)
    returns (more: seq<Node>, found: set<string>)
    requires source in visited && visited <= seen && CollectsResults(affected, source, seen)
    ensures forall m :: m in more ==> m !in visited && exists e :: e in edges && e.target == m
    ensures forall e :: e in edges ==> e.target in more || e.target in visited
    ensures CollectsResults(found, source, seen + set m | m in more)
  {
    var rest := edges;
    more, found := [], affected;
    while rest != {}
      invariant rest <= edges
      invariant forall m :: m in more ==> m !in visited && exists e :: e in edges && e.target == m
      invariant forall e :: e in edges - rest ==> e.target in more || e.target in visited
      invariant CollectsResults(found, source, seen + set m | m in more)
      decreases rest
    {
      var e :| e in rest;
      rest := rest - {e};
      if e.target in visited {
        continue;
      }
      if e.target.kind == Derived {
        found := found + {e.target.id};
      }
      more := more + [e.target];
    }
  }

  /** The traversal of invalidate: the results that hang on the node, or None exactly when it visits more nodes than the
      bound allows. */
  method Traverse(edges: set<Edge>, node: Node) returns (r: Option<set<string>>)
    ensures r.None? <==> Unbounded(edges, node)
    ensures r.Some? ==> r.value == AffectedIds(edges, node)
  {
    ghost var g := Pairs(edges);
    var queue := [node];
    var visited: set<Node> := {};
    var affected: set<string> := {};
    SearchStarts(g, node);
    while queue != []
      invariant Searching(g, node, visited, queue) && |visited| <= MAX_NODES
      invariant node in visited || (visited == {} && queue == [node])
      invariant CollectsResults(affected, node, Seen(visited, queue))
      decreases Nodes(g) + {node} - visited, |queue|
    {
      var current := queue[0];
      SeenHead(visited, queue);
      if current in visited {
        SearchSkips(g, node, visited, queue);
        queue := queue[1..];
        continue;
      }
      ghost var before := visited;
      visited := visited + {current};
      if |visited| > MAX_NODES {
        SubsetIsSmaller(visited, ReachSet(g, node));
        return None;
      }
      var successors := set e | e in edges && e.source == current;
      var more, found := QueueTargets(successors, node, visited, affected, Seen(before, queue));
      SuccessorsQueued(edges, current, visited, more);
      SearchVisits(g, node, before, queue, more);
      SeenMore(visited, queue[1..], more);
      queue, affected := queue[1..] + more, found;
    }
    SearchEnds(g, node, visited);
    return Some(affected);
  }

  ghost function Seen(visited: set<Node>, queue: seq<Node>): set<Node> {
    visited + set n | n in queue
  }

  lemma SeenHead(visited: set<Node>, queue: seq<Node>)
    requires queue != []
    ensures Seen(visited, queue) == Seen(visited + {queue[0]}, queue[1..])
  {
    assert forall n :: n in queue <==> n == queue[0] || n in queue[1..];
  }

  lemma SeenMore(visited: set<Node>, queue: seq<Node>, more: seq<Node>)
    ensures Seen(visited, queue + more) == Seen(visited, queue) + set m | m in more
  {
  }

  /** invalidate: marks exactly the VALID results that hang on the node, or raises exactly when the traversal exceeds
      its bound, changing nothing. */
  method Invalidate(repo: Repository, node: Node) returns (ok: bool)
    modifies repo`derived
    ensures ok == Invalidated(old(repo.View()), node).Some?
    ensures repo.View() == if ok then Invalidated(old(repo.View()), node).value else old(repo.View())
  {
    var affected := Traverse(repo.edges, node);
    ok := affected.Some?;
    if ok {
      repo.derived := InvalidateRows(repo.derived, affected.value);
    }
  }

  lemma SuccessorsQueued(edges: set<Edge>, n: Node, visited: set<Node>, more: seq<Node>)
    requires forall m :: m in more ==> exists e :: e in edges && e.source == n && e.target == m
    requires forall e :: e in edges && e.source == n ==> e.target in more || e.target in visited
    ensures forall m :: m in more ==> (n, m) in Pairs(edges)
    ensures forall m :: (n, m) in Pairs(edges) ==> m in more || m in visited
  {
  }

  datatype PathSearch = Found | NotFound | BoundExceeded

  /** The order in which a search from the node visits what it reaches. */
  ghost function SearchOrder(edges: set<Edge>, start: Node): seq<Node> {
    VisitOrder(Pairs(edges), start, {}, [start])
  }

  lemma SearchReaches(edges: set<Edge>, start: Node)
    ensures forall n :: n in SearchOrder(edges, start) <==> Reaches(Pairs(edges), start, n)
    ensures |SearchOrder(edges, start)| == |ReachSet(Pairs(edges), start)|
  {
    SearchStarts(Pairs(edges), start);
    VisitsEachOnce(Pairs(edges), start, {}, [start]);
    var order := SearchOrder(edges, start);
    DistinctCount(order);
    assert (set n | n in order) == ReachSet(Pairs(edges), start);
  }

  lemma {:induction false} DistinctCount(q: seq<Node>)
    requires forall i, j :: 0 <= i < j < |q| ==> q[i] != q[j]
    ensures |set n | n in q| == |q|
  {
    if q != [] {
      var rest := q[1..];
      DistinctCount(rest);
      assert q[0] !in rest;
      assert (set n | n in q) == (set n | n in rest) + {q[0]};
    }
  }

  /** What the search answers: the target is among the nodes it may look at, or there are more of them than the bound. */
  ghost function SearchAnswer(order: seq<Node>, target: Node): PathSearch {
    if exists k :: 0 <= k < |order| && k <= MAX_NODES && order[k] == target then Found
    else if |order| > MAX_NODES then BoundExceeded
    else NotFound
  }

  /** Half way through the search: the nodes seen, none of them the target, and those still to come. */
  ghost predicate Looking(edges: set<Edge>, start: Node, target: Node, seen: seq<Node>, visited: set<Node>, queue: seq<Node>) {
    && (forall n :: n in queue ==> n in Nodes(Pairs(edges)) + {start})
    && SearchOrder(edges, start) == seen + VisitOrder(Pairs(edges), start, visited, queue)
    && |seen| == |visited| && target !in seen
  }

  lemma LookingStarts(edges: set<Edge>, start: Node, target: Node)
    ensures Looking(edges, start, target, [], {}, [start])
  {
  }

  lemma LookingSkips(edges: set<Edge>, start: Node, target: Node, seen: seq<Node>, visited: set<Node>, queue: seq<Node>)
    requires Looking(edges, start, target, seen, visited, queue) && queue != [] && queue[0] in visited
    ensures Looking(edges, start, target, seen, visited, queue[1..])
  {
  }

  lemma LookingVisits(edges: set<Edge>, start: Node, target: Node, seen: seq<Node>, visited: set<Node>, queue: seq<Node>)
    requires Looking(edges, start, target, seen, visited, queue) && queue != [] && queue[0] !in visited && queue[0] != target
    ensures Looking(edges, start, target, seen + [queue[0]], visited + {queue[0]},
                    queue[1..] + InOrder(Successors(Pairs(edges), queue[0])))
  {
    var more := InOrder(Successors(Pairs(edges), queue[0]));
    InOrderMembers(Successors(Pairs(edges), queue[0]));
    assert queue[0] in queue;
    Regrouped(seen, queue[0], VisitOrder(Pairs(edges), start, visited + {queue[0]}, queue[1..] + more));
  }

  lemma Regrouped(seen: seq<Node>, n: Node, rest: seq<Node>)
    ensures seen + ([n] + rest) == (seen + [n]) + rest
  {
  }

  lemma TargetsAreSuccessors(edges: set<Edge>, n: Node)
    ensures (set e | e in edges && e.source == n :: e.target) == Successors(Pairs(edges), n)
  {
    forall e | e in edges && e.source == n ensures e.target in Successors(Pairs(edges), n) {
      assert (n, e.target) in Pairs(edges);
    }
    forall m | m in Successors(Pairs(edges), n) ensures exists e :: e in edges && e.source == n && e.target == m {
      assert (n, m) in Pairs(edges);
    }
  }

  lemma HeadIsNext(edges: set<Edge>, start: Node, target: Node, seen: seq<Node>, visited: set<Node>, queue: seq<Node>)
    requires Looking(edges, start, target, seen, visited, queue) && queue != [] && queue[0] !in visited
    ensures var order := SearchOrder(edges, start); |seen| < |order| && order[|seen|] == queue[0] && seen == order[..|seen|]
  {
  }

  lemma SearchAnswers(edges: set<Edge>, start: Node, target: Node)
    ensures var r := SearchAnswer(SearchOrder(edges, start), target);
            && (r == Found ==> Reaches(Pairs(edges), start, target))
            && (r == NotFound ==> !Reaches(Pairs(edges), start, target) && !Unbounded(edges, start))
            && (r == BoundExceeded ==> Unbounded(edges, start))
  {
    SearchReaches(edges, start);
  }

  lemma NotAmongSeen(order: seq<Node>, seen: nat, target: Node)
    requires seen <= |order| && target !in order[..seen]
    ensures seen == |order| <= MAX_NODES ==> SearchAnswer(order, target) == NotFound
    ensures MAX_NODES < seen ==> SearchAnswer(order, target) == BoundExceeded
  {
    forall k | 0 <= k < seen ensures order[k] != target {
      assert order[k] == order[..seen][k];
    }
  }

  lemma LookedTooLong(edges: set<Edge>, start: Node, target: Node, seen: seq<Node>, visited: set<Node>, queue: seq<Node>)
    requires Looking(edges, start, target, seen, visited, queue) && |visited| > MAX_NODES
    ensures SearchAnswer(SearchOrder(edges, start), target) == BoundExceeded
  {
    assert SearchOrder(edges, start)[..|seen|] == seen;
    NotAmongSeen(SearchOrder(edges, start), |seen|, target);
  }

  lemma LookedEverywhere(edges: set<Edge>, start: Node, target: Node, seen: seq<Node>, visited: set<Node>)
    requires Looking(edges, start, target, seen, visited, []) && |visited| <= MAX_NODES
    ensures SearchAnswer(SearchOrder(edges, start), target) == NotFound
  {
    assert SearchOrder(edges, start) == seen && seen[..|seen|] == seen;
    NotAmongSeen(seen, |seen|, target);
  }

  /** The traversal of _has_path, in its order: it finds the target exactly when that is among the nodes it looks at before
      the bound is exceeded. */
  method HasPath(edges: set<Edge>, start: Node, target: Node) returns (r: PathSearch)
    ensures r == SearchAnswer(SearchOrder(edges, start), target)
    ensures r == Found ==> Reaches(Pairs(edges), start, target)
    ensures r == NotFound ==> !Reaches(Pairs(edges), start, target) && !Unbounded(edges, start)
    ensures r == BoundExceeded ==> Unbounded(edges, start)
  {
    ghost var seen: seq<Node> := [];
    var queue := [start];
    var visited: set<Node> := {};
    LookingStarts(edges, start, target);
    SearchAnswers(edges, start, target);
    while queue != []
      invariant Looking(edges, start, target, seen, visited, queue) && |visited| <= MAX_NODES
      decreases Nodes(Pairs(edges)) + {start} - visited, |queue|
    {
      var current := queue[0];
      if current in visited {
        LookingSkips(edges, start, target, seen, visited, queue);
        queue := queue[1..];
        continue;
      }
      HeadIsNext(edges, start, target, seen, visited, queue);
      if current == target {
        return Found;
      }
      LookingVisits(edges, start, target, seen, visited, queue);
      TargetsAreSuccessors(edges, current);
      var more := SortedNodes(set e | e in edges && e.source == current :: e.target);
      assert current in queue;
      seen, visited, queue := seen + [current], visited + {current}, queue[1..] + more;
      if |visited| > MAX_NODES {
        LookedTooLong(edges, start, target, seen, visited, queue);
        return BoundExceeded;
      }
    }
    LookedEverywhere(edges, start, target, seen, visited);
    return NotFound;
  }

  /** register_edge: adds a new edge unless it would close a cycle or the search gives up; the graph stays acyclic. */
  method RegisterEdge(repo: Repository, edge: Edge) returns (ok: bool)
    modifies repo`edges
    ensures repo.edges == if ok then old(repo.edges) + {edge} else old(repo.edges)
    ensures ok <==> && edge !in old(repo.edges) && !Reaches(Pairs(old(repo.edges)), edge.target, edge.source)
                    && !Unbounded(old(repo.edges), edge.target)
    ensures Acyclic(Pairs(old(repo.edges))) ==> Acyclic(Pairs(repo.edges))
  {
    if edge.source == edge.target {
      ReachesItself(Pairs(repo.edges), edge.source);
      return false;
    }
    var search := HasPath(repo.edges, edge.target, edge.source);
    if search != NotFound || edge in repo.edges {
      return false;
    }
    if Acyclic(Pairs(repo.edges)) {
      EdgeKeepsAcyclicExactly(Pairs(repo.edges), edge.source, edge.target);
    }
    assert Pairs(repo.edges + {edge}) == Pairs(repo.edges) + {(edge.source, edge.target)};
    repo.edges := repo.edges + {edge};
    return true;
  }

  // ---- knowledge service ----

  lemma NothingInvalidated(s: State)
    ensures WithInvalidated(s, {}) == s
  {
    assert AllAffected(s.edges, {}) == {};
    assert InvalidateRows(s.derived, {}) == s.derived;
  }

  /** Invalidating from one more node after the others is invalidating from all of them. */
  lemma OneMoreInvalidated(s: State, nodes: set<Node>, n: Node)
    requires !Unbounded(s.edges, n)
    ensures Invalidated(WithInvalidated(s, nodes), n) == Some(WithInvalidated(s, nodes + {n}))
  {
    AffectedByMore(s.edges, nodes, n);
    InvalidateTwice(s.derived, AllAffected(s.edges, nodes), AffectedIds(s.edges, n));
  }

  lemma InvalidateTwice(derived: seq<DerivedRow>, a: set<string>, b: set<string>)
    ensures InvalidateRows(InvalidateRows(derived, a), b) == InvalidateRows(derived, a + b)
  {
  }

  lemma AffectedByMore(edges: set<Edge>, nodes: set<Node>, n: Node)
    ensures AllAffected(edges, nodes + {n}) == AllAffected(edges, nodes) + AffectedIds(edges, n)
  {
  }

  method InvalidateOneMore(repo: Repository, n: Node, ghost done: set<Node>, ghost before: State) returns (ok: bool)
    requires repo.View() == WithInvalidated(before, done)
    modifies repo`derived
    ensures ok <==> !Unbounded(before.edges, n)
    ensures repo.View() == WithInvalidated(before, if ok then done + {n} else done)
  {
    ok := Invalidate(repo, n);
    if ok {
      OneMoreInvalidated(before, done, n);
    }
  }

  /** Invalidates from each node in turn; stops at the first traversal that raises. */
  method InvalidateEach(repo: Repository, nodes: set<Node>, ghost done: set<Node>, ghost before: State) returns (ok: bool)
    requires AllBounded(before.edges, done) && repo.View() == WithInvalidated(before, done)
    modifies repo`derived
    ensures ok <==> AllBounded(before.edges, done + nodes)
    ensures ok ==> repo.View() == WithInvalidated(before, done + nodes)
  {
    var rest := nodes;
    ghost var processed := done;
    while rest != {}
      invariant rest <= nodes && processed + rest == done + nodes
      invariant AllBounded(before.edges, processed)
      invariant repo.View() == WithInvalidated(before, processed)
      decreases rest
    {
      var n :| n in rest;
      assert n in done + nodes;
      var bounded := InvalidateOneMore(repo, n, processed, before);
      if !bounded {
        return false;
      }
      rest, processed := rest - {n}, processed + {n};
    }
    assert processed == done + nodes;
    return true;
  }

  /** create_fact and accept_observation: an unknown value closes the open version of its slot, is inserted, and
      everything that reads the property is invalidated. */
  method WriteFact(repo: Repository, w: FactWrite, id: string, now: int) returns (ok: bool)
    requires repo.committed == repo.View()
    modifies repo
    ensures Served(repo, FactWritten(old(repo.View()), w, id, now), ok)
  {
    ghost var start := repo.View();
    if !Accepts(repo.facts, w, id) {
      return false;
    }
    ghost var nodes := WriteNodes(repo.facts, w);
    if IdentityKnown(repo.facts, w) {
      ok := true;
      NothingInvalidated(start);
      if w.fromObservation {
        ok := InvalidateEach(repo, SelectorNodes(w.property), {}, start);
        assert {} + SelectorNodes(w.property) == nodes;
      } else {
        assert nodes == {};
      }
    } else {
      ok := ReplaceFact(repo, w, id, now);
    }
    if ok {
      repo.Commit();
    } else {
      repo.Rollback();
    }
  }

  /** Closes the open version if there is one, inserts the new row and invalidates. */
  method ReplaceFact(repo: Repository, w: FactWrite, id: string, now: int) returns (ok: bool)
    requires !IdentityKnown(repo.facts, w)
    modifies repo`facts, repo`derived
    ensures var after := old(repo.View()).(facts := Recorded(old(repo.facts), w, id, now));
            var outcome := InvalidatedAll(after, WriteNodes(old(repo.facts), w));
            (ok <==> outcome.Some?) && (ok ==> repo.View() == outcome.value)
  {
    ghost var after := repo.View().(facts := Recorded(repo.facts, w, id, now));
    ghost var nodes := WriteNodes(repo.facts, w);
    ghost var done: set<Node> := {};
    var current := ListFacts(repo.facts, Str(w.subject), w.property, None, None);
    var before := FindReplaced(current, w.value, w.validFrom);
    NothingInvalidated(after);
    if before.Some? {
      repo.facts := Close(repo.facts, before.value.id, now);
      done := {Node(FactNode, before.value.id)};
      var bounded := Invalidate(repo, Node(FactNode, before.value.id));
      if !bounded {
        assert Node(FactNode, before.value.id) in nodes;
        return false;
      }
      OneMoreInvalidated(after, {}, Node(FactNode, before.value.id));
      assert {} + done == done;
    }
    repo.facts := repo.facts + [FactRow(NewFact(w, id, now), None)];
    assert done + SelectorNodes(w.property) == nodes;
    ok := InvalidateEach(repo, SelectorNodes(w.property), done, after);
  }

  method CreateRelation(repo: Repository, r: Relation, admissible: bool, now: int) returns (ok: bool)
    requires repo.committed == repo.View()
    modifies repo
    ensures Served(repo, RelationCreated(old(repo.View()), r, admissible, now), ok)
  {
    if !admissible {
      return false;
    }
    if RelationKnown(repo.relations, r) {
      return true;
    }
    if RelationIdUsed(repo.relations, r.id) {
      return false;
    }
    var node := Node(RelationType, r.relationType);
    ghost var after := repo.View().(relations := repo.relations + [r.(knownFrom := now)]);
    NothingInvalidated(after);
    if !Unbounded(repo.edges, node) {
      OneMoreInvalidated(after, {}, node);
      assert {} + {node} == {node};
    }
    repo.relations := repo.relations + [r.(knownFrom := now)];
    ok := Invalidate(repo, node);
    if ok {
      repo.Commit();
    } else {
      repo.Rollback();
    }
  }

  // ---- rule service ----

  method CreateRule(repo: Repository, draft: RuleDraft, id: string, now: int) returns (ok: bool)
    requires repo.committed == repo.View()
    modifies repo
    ensures Served(repo, WithRules(old(repo.View()), Created(old(repo.rules), draft, id, now)), ok)
  {
    if IsRepeat(repo.rules, draft) {
      return true;
    }
    if !draft.admissible || !RowFits(repo.rules, draft, id) {
      return false;
    }
    var version := NewVersion(repo.rules, draft);
    repo.rules := repo.rules + [NewRule(draft, id, version, now)];
    repo.Commit();
    return true;
  }

  /** update_rule: writes the row and advances its version, unless the caller expected another version. */
  method UpdateRule(repo: Repository, i: nat, row: Rule, expected: int) returns (ok: bool)
    requires i < |repo.rules|
    modifies repo`rules
    ensures ok <==> old(repo.rules[i]).rowVersion == expected
    ensures repo.rules == if ok then old(repo.rules)[i := row.(rowVersion := old(repo.rules[i]).rowVersion + 1)] else old(repo.rules)
  {
    ok := repo.rules[i].rowVersion == expected;
    if ok {
      repo.rules := repo.rules[i := row.(rowVersion := repo.rules[i].rowVersion + 1)];
    }
  }

  method ValidateRule(repo: Repository, id: string) returns (ok: bool)
    requires repo.committed == repo.View()
    modifies repo
    ensures Served(repo, WithRules(old(repo.View()), Validated(old(repo.rules), id)), ok)
  {
    var found := FindRule(repo.rules, id);
    if found.None? {
      return false;
    }
    var rule := repo.rules[found.value];
    var status := if ValidPayload(rule) then Review else Validating;
    ok := UpdateRule(repo, found.value, rule.(status := status), rule.rowVersion);
    repo.Commit();
  }

  method TestRule(repo: Repository, id: string) returns (ok: bool)
    requires repo.committed == repo.View()
    modifies repo
    ensures Served(repo, WithRules(old(repo.View()), Tested(old(repo.rules), id)), ok)
  {
    var found := FindRule(repo.rules, id);
    if found.None? {
      return false;
    }
    var i := found.value;
    var rule := repo.rules[i];
    if !ValidPayload(rule) {
      ok := UpdateRule(repo, i, rule.(status := Validating), rule.rowVersion);
      repo.Commit();
      return;
    }
    if rule.tests == [] {
      return false;
    }
    var outcomes := RunAllTests(rule);
    if outcomes.Err? {
      return false;
    }
    ok := RecordOutcomes(repo, i, outcomes.value);
    TestedRow(old(repo.rules), id, outcomes.value);
    repo.Commit();
  }

  /** Stores the outcomes and the status they lead to. */
  method RecordOutcomes(repo: Repository, i: nat, tests: seq<TestCase>) returns (ok: bool)
    requires i < |repo.rules|
    modifies repo`rules
    ensures ok && repo.rules
               == old(repo.rules)[i := WithStatus(old(repo.rules[i]).(tests := tests), if AllPassed(tests) then Review else Testing)]
  {
    var rule := repo.rules[i];
    var status := if AllPassed(tests) then Review else Testing;
    ok := UpdateRule(repo, i, rule.(tests := tests, status := status), rule.rowVersion);
  }

  lemma TestedRow(rules: seq<Rule>, id: string, tests: seq<TestCase>)
    requires FindRule(rules, id).Some?
    requires var rule := rules[FindRule(rules, id).value];
             ValidPayload(rule) && rule.tests != [] && RunTests(rule, rule.tests) == Ok(tests)
    ensures var i := FindRule(rules, id).value;
            Tested(rules, id) == Some(rules[i := WithStatus(rules[i].(tests := tests), if AllPassed(tests) then Review else Testing)])
  {
  }

  /** The test loop: stops at the first test that raises. */
  method RunAllTests(rule: Rule) returns (r: Result<seq<TestCase>>)
    ensures r.Ok? ==> r == RunTests(rule, rule.tests)
    ensures r.Err? ==> RunTests(rule, rule.tests).Err?
  {
    var outcomes: seq<TestCase> := [];
    for t := 0 to |rule.tests|
      invariant |outcomes| == t
      invariant forall u :: 0 <= u < t ==> && RunTest(rule, rule.tests[u]).Ok?
                                           && outcomes[u] == rule.tests[u].(passed := Some(RunTest(rule, rule.tests[u]).value))
    {
      var result := RunTest(rule, rule.tests[t]);
      if result.Err? {
        return Err(result.error);
      }
      outcomes := outcomes + [rule.tests[t].(passed := Some(result.value))];
    }
    assert RunTests(rule, rule.tests).Ok?;
    assert outcomes == RunTests(rule, rule.tests).value;
    return Ok(outcomes);
  }

  /** The checks activate makes before it changes anything. */
  method CheckActivation(rules: seq<Rule>, rule: Rule) returns (allowed: bool)
    ensures allowed == MayActivate(rules, rule)
  {
    if !ValidPayload(rule) || rule.provenance.None? || rule.provenance.value == "" || rule.tests == [] || !AllPassed(rule.tests) {
      return false;
    }
    var active := ActiveRules(rules, None, None);
    for j := 0 to |active|
      invariant forall l :: 0 <= l < j ==> !SameKeyBlocks(rule, active[l]) && !ConflictBlocks(rule, active[l])
    {
      if SameKeyBlocks(rule, active[j]) || ConflictBlocks(rule, active[j]) {
        assert active[j] in active;
        return false;
      }
    }
    return true;
  }

  /** The first update of a replacement: the predecessor, if there is one, is superseded. */
  method SupersedePredecessor(repo: Repository, predecessor: Option<string>, now: int) returns (ok: bool)
    modifies repo`rules
    ensures ok <==> Supersede(old(repo.rules), predecessor, now).Some?
    ensures ok ==> Supersede(old(repo.rules), predecessor, now) == Some(repo.rules)
  {
    if predecessor.None? {
      return true;
    }
    var previous := FindRule(repo.rules, predecessor.value);
    if previous.None? {
      return false;
    }
    var row := repo.rules[previous.value];
    ok := UpdateRule(repo, previous.value, row.(status := Superseded, knownTo := Some(now)), row.rowVersion);
  }

  lemma ActivatedAfter(rules: seq<Rule>, i: nat, expected: Option<int>, now: int)
    requires i < |rules| && FindRule(rules, rules[i].id) == Some(i) && MayActivate(rules, rules[i])
    ensures var superseded := Supersede(rules, rules[i].predecessor, now);
            Activated(rules, rules[i].id, expected, now)
            == if superseded.None? || superseded.value[i].rowVersion != ExpectedVersion(rules[i], expected) then None
               else Some(superseded.value[i := WithStatus(superseded.value[i], Active)])
  {
  }

  /** Supersedes the predecessor, then activates the row. */
  method ReplaceRule(repo: Repository, i: nat, expected: Option<int>, now: int) returns (ok: bool)
    requires i < |repo.rules| && FindRule(repo.rules, repo.rules[i].id) == Some(i) && MayActivate(repo.rules, repo.rules[i])
    modifies repo`rules
    ensures ok <==> Activated(old(repo.rules), old(repo.rules[i].id), expected, now).Some?
    ensures ok ==> Some(repo.rules) == Activated(old(repo.rules), old(repo.rules[i].id), expected, now)
  {
    var rule := repo.rules[i];
    ActivatedAfter(repo.rules, i, expected, now);
    ok := SupersedePredecessor(repo, rule.predecessor, now);
    if ok {
      ok := UpdateRule(repo, i, repo.rules[i].(status := Active), ExpectedVersion(rule, expected));
    }
  }

  /** activate: the guard, the replacement, the activation and the invalidation, all or nothing. */
  method ActivateRule(repo: Repository, id: string, expected: Option<int>, now: int) returns (ok: bool)
    requires repo.committed == repo.View()
    modifies repo
    ensures Served(repo, RuleActivated(old(repo.View()), id, expected, now), ok)
  {
    var found := FindRule(repo.rules, id);
    if found.None? {
      return false;
    }
    var rule := repo.rules[found.value];
    var allowed := CheckActivation(repo.rules, rule);
    if !allowed {
      return false;
    }
    ok := ReplaceRule(repo, found.value, expected, now);
    if ok {
      ok := Invalidate(repo, ActivationNode(rule));
    }
    if ok {
      repo.Commit();
    } else {
      repo.Rollback();
    }
  }

  // ---- computation service ----

  /** _add_dependency_if_missing into a result: never rejected while results have no outgoing edges. */
  method AddDependencyIfMissing(repo: Repository, edge: Edge) returns (ok: bool)
    requires ResultsAreSinks(repo.edges) && edge.target.kind == Derived && edge.source.kind != Derived
    modifies repo`edges
    ensures ok && repo.edges == old(repo.edges) + {edge} && ResultsAreSinks(repo.edges)
  {
    if edge in repo.edges {
      assert repo.edges + {edge} == repo.edges;
      return true;
    }
    SinkReachesOnlyItself(repo.edges, edge.target.id);
    assert edge.source !in ReachSet(Pairs(repo.edges), edge.target);
    ok := RegisterEdge(repo, edge);
  }

  method AddDependencies(repo: Repository, edges: set<Edge>)
    requires ResultsAreSinks(repo.edges) && forall e :: e in edges ==> e.target.kind == Derived && e.source.kind != Derived
    modifies repo`edges
    ensures repo.edges == old(repo.edges) + edges && ResultsAreSinks(repo.edges)
  {
    var rest := edges;
    while rest != {}
      invariant rest <= edges && repo.edges == old(repo.edges) + (edges - rest) && ResultsAreSinks(repo.edges)
      decreases rest
    {
      var e :| e in rest;
      var ok := AddDependencyIfMissing(repo, e);
      rest := rest - {e};
    }
  }

  /** Writes the result as a new row and registers its edges. */
  method Materialize(repo: Repository, row: DerivedRow)
    requires ResultsAreSinks(repo.edges) && forall n :: n in row.result.deps ==> n.kind != Derived
    modifies repo`derived, repo`edges
    ensures repo.derived == old(repo.derived) + [row]
    ensures repo.edges == old(repo.edges) + ResultEdges(row.result, repo.ontology, row.id)
    ensures ResultsAreSinks(repo.edges)
  {
    repo.derived := repo.derived + [row];
    AddDependencies(repo, ResultEdges(row.result, repo.ontology, row.id));
  }

  /** The part of evaluate after a cache miss. */
  method Recompute(repo: Repository, q: Query, persist: bool, newId: string, existing: Option<nat>) returns (r: Option<Answer>)
    requires ResultsAreSinks(repo.edges) && existing == FindDerived(repo.derived, KeyOf(repo.View(), q))
    requires existing.Some? && repo.derived[existing.value].status == VALID ==> !persist
    requires InstantsReadable(q.context)
    modifies repo`derived, repo`edges
    ensures match Evaluated(old(repo.View()), q, persist, newId)
            case None => r == None && repo.View() == old(repo.View())
            case Some(p) => r == Some(p.0) && repo.View() == p.1
    ensures ResultsAreSinks(repo.edges)
  {
    ghost var start := repo.View();
    var key := KeyOf(repo.View(), q);
    var data := DataFor(repo.facts, repo.relations, q.applicant, q.context);
    var outcome := RuleEngine.EvaluateRules(RulesFor(repo.View(), q.context), data);
    assert outcome == FreshRun(start, q);
    if outcome.Err? {
      return None;
    }
    if !persist {
      return Some(Computed(outcome.value));
    }
    // Updating a stored row always raises, and so does a taken id.
    if existing.Some? || DerivedIdUsed(repo.derived, newId) {
      return None;
    }
    RunRecordsNoResults(start, q);
    Materialize(repo, DerivedRow(newId, key, outcome.value, VALID));
    return Some(Computed(outcome.value));
  }

  /** evaluate: answers from a VALID row, or runs the engine and, when asked to, stores a new result with its edges. */
  method EvaluateQuery(repo: Repository, q: Query, persist: bool, newId: string) returns (r: Option<Answer>)
    requires repo.committed == repo.View() && ResultsAreSinks(repo.edges)
    modifies repo
    ensures match Evaluated(old(repo.View()), q, persist, newId)
            case None => r == None && repo.View() == old(repo.View())
            case Some(p) => r == Some(p.0) && repo.View() == p.1
    ensures repo.committed == repo.View() && ResultsAreSinks(repo.edges)
  {
    if !InstantsReadable(q.context) {
      return None;
    }
    var existing := FindDerived(repo.derived, KeyOf(repo.View(), q));
    if existing.Some? && repo.derived[existing.value].status == VALID && persist {
      return Some(Cached(repo.derived[existing.value].result));
    }
    r := Recompute(repo, q, persist, newId, existing);
    repo.Commit();
  }
}
