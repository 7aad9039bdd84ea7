/** Which results a write makes invalid: exactly those that recorded something the write touches, over every run of calls. */
module InvalidationLaws {
  import opened Prelude
  import opened Graph
  import opened Evaluator
  import opened Rules
  import opened Selectors
  import opened FactStore
  import opened RuleStore
  import opened RuleStoreProofs
  import opened Core
  import opened CacheProofs
  import opened StoreLaws
  import opened Reachable

  /** The result rests on the node: a recorded dependency, a rule it considered, or the ontology and its rule catalog. */
  predicate RestsOn(row: DerivedRow, n: Node) {
    || n in row.result.deps
    || (exists ref :: ref in row.result.versions && n == Node(RuleNode, ref.id))
    || n == Node(OntologyNode, row.key.ontology) || n == Node(RuleCatalog, row.key.ontology)
  }

  /** The edge leads from something the result rests on to the result. */
  predicate EdgeOf(row: DerivedRow, e: Edge) {
    && e.target == Node(Derived, row.id)
    && match e.role
       case Supports => e.source in row.result.deps
       case Executes => exists ref :: ref in row.result.versions && e.source == Node(RuleNode, ref.id)
       case Interprets => e.source == Node(OntologyNode, row.key.ontology)
       case EvaluatesCatalog => e.source == Node(RuleCatalog, row.key.ontology)
  }

  lemma EdgeOfExactly(row: DerivedRow, e: Edge)
    ensures e in ResultEdges(row.result, row.key.ontology, row.id) <==> EdgeOf(row, e)
  {
  }

  /** Some edge from the node to the result is the result's own. */
  lemma RestsByEdge(row: DerivedRow, n: Node) returns (e: Edge)
    requires RestsOn(row, n)
    ensures EdgeOf(row, e) && e.source == n
  {
    var target := Node(Derived, row.id);
    if n in row.result.deps {
      e := Edge(n, target, Supports);
    } else if exists ref :: ref in row.result.versions && n == Node(RuleNode, ref.id) {
      e := Edge(n, target, Executes);
    } else if n == Node(OntologyNode, row.key.ontology) {
      e := Edge(n, target, Interprets);
    } else {
      e := Edge(n, target, EvaluatesCatalog);
    }
  }

  predicate DifferentIds(derived: seq<DerivedRow>) {
    forall i, j :: 0 <= i < j < |derived| ==> derived[i].id != derived[j].id
  }

  predicate HasEdges(row: DerivedRow, edges: set<Edge>) {
    ResultEdges(row.result, row.key.ontology, row.id) <= edges
  }

  predicate RecordsReads(row: DerivedRow) {
    forall n :: n in row.result.deps ==> n.kind in RECORDED
  }

  /** Every edge belongs to a result, and results record selectors and rows only. */
  ghost predicate Wired(edges: set<Edge>, derived: seq<DerivedRow>) {
    DifferentIds(derived) && Owned(edges, derived) && AllRecordReads(derived)
  }

  ghost predicate Owned(edges: set<Edge>, derived: seq<DerivedRow>) {
    forall e :: e in edges ==> exists i :: 0 <= i < |derived| && EdgeOf(derived[i], e)
  }

  lemma EvaluationKeepsOwned(s: State, q: Query, persist: bool, newId: string)
    requires Owned(s.edges, s.derived) && Evaluated(s, q, persist, newId).Some?
    ensures var next := Evaluated(s, q, persist, newId).value.1; Owned(next.edges, next.derived)
  {
    var next := Evaluated(s, q, persist, newId).value.1;
    if next != s {
      var run := FreshRun(s, q).value;
      StoredIsOwned(s, DerivedRow(newId, KeyOf(s, q), run, VALID), ResultEdges(run, s.ontology, newId));
    }
  }

  lemma StoredIsOwned(s: State, row: DerivedRow, more: set<Edge>)
    requires Owned(s.edges, s.derived) && more == ResultEdges(row.result, row.key.ontology, row.id)
    ensures Owned(s.edges + more, s.derived + [row])
  {
    var derived := s.derived + [row];
    forall e | e in s.edges + more ensures exists i :: 0 <= i < |derived| && EdgeOf(derived[i], e) {
      if e in s.edges {
        var i :| 0 <= i < |s.derived| && EdgeOf(s.derived[i], e);
        assert EdgeOf(derived[i], e);
      } else {
        EdgeOfExactly(row, e);
        assert EdgeOf(derived[|s.derived|], e);
      }
    }
  }

  lemma OthersKeepOwned(edges: set<Edge>, before: seq<DerivedRow>, after: seq<DerivedRow>)
    requires Owned(edges, before) && |after| == |before| && RowsContinue(before, after)
    ensures Owned(edges, after)
  {
    forall e | e in edges ensures exists i :: 0 <= i < |after| && EdgeOf(after[i], e) {
      var i :| 0 <= i < |before| && EdgeOf(before[i], e);
      assert EdgeOf(after[i], e);
    }
  }

  /** Results record selectors and rows only. */
  predicate AllRecordReads(derived: seq<DerivedRow>) {
    forall i :: 0 <= i < |derived| ==> RecordsReads(derived[i])
  }

  lemma StepKeepsEdgesOfOthers(s: State, request: Request, now: int)
    requires !request.EvaluateQuery?
    ensures Step(s, request, now).edges == s.edges && |Step(s, request, now).derived| == |s.derived|
  {
  }

  lemma EvaluationKeepsReads(s: State, q: Query, persist: bool, newId: string)
    requires AllRecordReads(s.derived) && Evaluated(s, q, persist, newId).Some?
    ensures AllRecordReads(Evaluated(s, q, persist, newId).value.1.derived)
  {
    if Evaluated(s, q, persist, newId).value.1 != s {
      RunRecordsReads(s, q);
    }
  }

  lemma StepKeepsWiring(s: State, request: Request, now: int)
    requires Owned(s.edges, s.derived) && AllRecordReads(s.derived)
    ensures var next := Step(s, request, now); Owned(next.edges, next.derived) && AllRecordReads(next.derived)
  {
    if request.EvaluateQuery? {
      if Evaluated(s, request.q, request.persist, request.newId).Some? {
        EvaluationKeepsOwned(s, request.q, request.persist, request.newId);
        EvaluationKeepsReads(s, request.q, request.persist, request.newId);
      }
    } else {
      StepKeepsEdgesOfOthers(s, request, now);
      StepContinuesRows(s, request, now);
      OthersKeepOwned(s.edges, s.derived, Step(s, request, now).derived);
    }
  }

  lemma {:induction false} RunKeepsWiring(s: State, calls: seq<Call>)
    requires Owned(s.edges, s.derived) && AllRecordReads(s.derived)
    ensures var next := RunCalls(s, calls); Owned(next.edges, next.derived) && AllRecordReads(next.derived)
    decreases |calls|
  {
    if calls != [] {
      StepKeepsWiring(s, calls[0].request, calls[0].now);
      RunKeepsWiring(Step(s, calls[0].request, calls[0].now), calls[1..]);
    }
  }

  lemma InvariantHasEdges(s: State, i: nat)
    requires Invariant(s) && i < |s.derived|
    ensures HasEdges(s.derived[i], s.edges)
  {
    assert Coherent(s.derived[i], s.facts, s.relations, s.rules, s.edges);
  }

  lemma InvariantParts(s: State)
    requires Invariant(s)
    ensures DifferentIds(s.derived) && GoodTable(s.facts) && DistinctRuleIds(s.rules)
  {
  }

  /** Every reachable store is wired, and holds the edges of each result. */
  lemma ReachableIsWired(ontology: string, calls: seq<Call>, s: State, i: nat)
    requires s == RunCalls(Init(ontology), calls) && i < |s.derived|
    ensures Wired(s.edges, s.derived) && HasEdges(s.derived[i], s.edges)
    ensures GoodTable(s.facts) && DistinctRuleIds(s.rules)
  {
    ReachableKeepsInvariant(ontology, calls);
    RunKeepsWiring(Init(ontology), calls);
    InvariantParts(s);
    InvariantHasEdges(s, i);
  }

  lemma EndsAtResult(edges: set<Edge>, derived: seq<DerivedRow>, e: Edge)
    requires Wired(edges, derived) && e in edges
    ensures e.source.kind != Derived && e.target.kind == Derived
  {
    var i :| 0 <= i < |derived| && EdgeOf(derived[i], e);
    assert RecordsReads(derived[i]);
  }

  /** No edge starts at a result. */
  lemma WiredAreSinks(edges: set<Edge>, derived: seq<DerivedRow>)
    requires Wired(edges, derived)
    ensures forall n, m :: (n, m) in Pairs(edges) ==> n.kind != Derived && m.kind == Derived
  {
    forall e | e in edges ensures e.source.kind != Derived && e.target.kind == Derived {
      EndsAtResult(edges, derived, e);
    }
  }

  /** From a node that is no result, a path to a result is one edge. */
  lemma OneEdgeOnly(g: Edges, n: Node, target: Node)
    requires n.kind != Derived && target.kind == Derived
    requires forall a, b :: (a, b) in g ==> a.kind != Derived && b.kind == Derived
    ensures Reaches(g, n, target) <==> (n, target) in g
  {
    if (n, target) in g {
      ReachesByEdge(g, n, target);
    }
    if Reaches(g, n, target) {
      var p :| IsPath(g, p) && p[0] == n && p[|p| - 1] == target;
      assert |p| > 1;
      PathTail(g, p);
      if |p| > 2 {
        PathTail(g, p[1..]);
        assert false;
      }
    }
  }

  lemma OwnEdgeRests(row: DerivedRow, e: Edge)
    requires EdgeOf(row, e)
    ensures RestsOn(row, e.source)
  {
  }

  lemma RestingHasEdge(row: DerivedRow, edges: set<Edge>, n: Node)
    requires HasEdges(row, edges) && RestsOn(row, n)
    ensures (n, Node(Derived, row.id)) in Pairs(edges)
  {
    var e := RestsByEdge(row, n);
    EdgeOfExactly(row, e);
    assert e in edges && (e.source, e.target) in Pairs(edges);
  }

  lemma EdgeMeansResting(edges: set<Edge>, derived: seq<DerivedRow>, n: Node, i: nat)
    requires Wired(edges, derived) && i < |derived| && (n, Node(Derived, derived[i].id)) in Pairs(edges)
    ensures RestsOn(derived[i], n)
  {
    var e :| e in edges && e.source == n && e.target == Node(Derived, derived[i].id);
    var k :| 0 <= k < |derived| && EdgeOf(derived[k], e);
    assert derived[k].id == derived[i].id;
    assert k == i;
    OwnEdgeRests(derived[i], e);
  }

  /** A result hangs on a node exactly when it rests on it. */
  lemma AffectedExactly(edges: set<Edge>, derived: seq<DerivedRow>, n: Node, i: nat)
    requires Wired(edges, derived) && n.kind != Derived && i < |derived| && HasEdges(derived[i], edges)
    ensures derived[i].id in AffectedIds(edges, n) <==> RestsOn(derived[i], n)
  {
    var row := derived[i];
    WiredAreSinks(edges, derived);
    OneEdgeOnly(Pairs(edges), n, Node(Derived, row.id));
    if RestsOn(row, n) {
      RestingHasEdge(row, edges, n);
    }
    if (n, Node(Derived, row.id)) in Pairs(edges) {
      EdgeMeansResting(edges, derived, n, i);
    }
  }

  /** The row as an invalidation leaves it: INVALIDATED if it was or if it is hit, otherwise as it was. */
  predicate Hit(before: DerivedRow, after: DerivedRow, hit: bool) {
    after == if hit then before.(status := INVALIDATED) else before
  }

  lemma RowHit(derived: seq<DerivedRow>, ids: set<string>, i: nat)
    requires i < |derived|
    ensures Hit(derived[i], InvalidateRows(derived, ids)[i], derived[i].id in ids)
  {
  }

  lemma HangsOnSome(edges: set<Edge>, nodes: set<Node>, id: string)
    ensures id in AllAffected(edges, nodes) <==> exists n :: n in nodes && id in AffectedIds(edges, n)
  {
  }

  lemma HitsExactly(edges: set<Edge>, derived: seq<DerivedRow>, nodes: set<Node>, i: nat)
    requires Wired(edges, derived) && i < |derived| && HasEdges(derived[i], edges)
    requires forall n :: n in nodes ==> n.kind != Derived
    ensures Hit(derived[i], InvalidateRows(derived, AllAffected(edges, nodes))[i], exists n :: n in nodes && RestsOn(derived[i], n))
  {
    forall n | n in nodes ensures derived[i].id in AffectedIds(edges, n) <==> RestsOn(derived[i], n) {
      AffectedExactly(edges, derived, n, i);
    }
    HangsOnSome(edges, nodes, derived[i].id);
    RowHit(derived, AllAffected(edges, nodes), i);
  }

  /** An invalidation hits exactly the results that rest on the node. */
  lemma InvalidationExactly(ontology: string, calls: seq<Call>, n: Node, i: nat)
    requires var s := RunCalls(Init(ontology), calls); i < |s.derived| && n.kind != Derived && Invalidated(s, n).Some?
    ensures var s := RunCalls(Init(ontology), calls);
            var next := Invalidated(s, n).value;
            next == s.(derived := next.derived) && |next.derived| == |s.derived|
            && Hit(s.derived[i], next.derived[i], RestsOn(s.derived[i], n))
  {
    var s := RunCalls(Init(ontology), calls);
    ReachableIsWired(ontology, calls, s, i);
    AffectedExactly(s.edges, s.derived, n, i);
  }

  /** The ids of the results that rest on a node. */
  function Resting(derived: seq<DerivedRow>, n: Node): set<string> {
    set i | 0 <= i < |derived| && RestsOn(derived[i], n) :: derived[i].id
  }

  lemma ReachedExactly(edges: set<Edge>, derived: seq<DerivedRow>, n: Node)
    requires Wired(edges, derived) && n.kind != Derived
    requires forall i :: 0 <= i < |derived| && RestsOn(derived[i], n) ==> (n, Node(Derived, derived[i].id)) in Pairs(edges)
    ensures ReachSet(Pairs(edges), n) == {n} + set id | id in Resting(derived, n) :: Node(Derived, id)
  {
    var g := Pairs(edges);
    ReachesItself(g, n);
    WiredAreSinks(edges, derived);
    forall m | Reaches(g, n, m) && m != n ensures m.kind == Derived && m.id in Resting(derived, n) {
      LastStep(edges, n, m);
      OneEdgeOnly(g, n, m);
      RestingOfEdge(edges, derived, n, m);
    }
    forall id | id in Resting(derived, n) ensures Reaches(g, n, Node(Derived, id)) {
      var i :| 0 <= i < |derived| && RestsOn(derived[i], n) && derived[i].id == id;
      ReachesByEdge(g, n, Node(Derived, id));
    }
  }

  lemma LastStep(edges: set<Edge>, n: Node, m: Node)
    requires Reaches(Pairs(edges), n, m) && m != n && forall a, b :: (a, b) in Pairs(edges) ==> b.kind == Derived
    ensures m.kind == Derived
  {
    var p :| IsPath(Pairs(edges), p) && p[0] == n && p[|p| - 1] == m;
    assert (p[|p| - 2], p[|p| - 2 + 1]) in Pairs(edges);
  }

  lemma RestingOfEdge(edges: set<Edge>, derived: seq<DerivedRow>, n: Node, m: Node)
    requires Wired(edges, derived) && (n, m) in Pairs(edges) && m.kind == Derived
    ensures m.id in Resting(derived, n)
  {
    var e :| e in edges && e.source == n && e.target == m;
    var i :| 0 <= i < |derived| && EdgeOf(derived[i], e);
    OwnEdgeRests(derived[i], e);
  }

  lemma {:induction false} NodesOfIds(ids: set<string>)
    ensures |set id | id in ids :: Node(Derived, id)| == |ids|
  {
    var nodes := set id | id in ids :: Node(Derived, id);
    if ids != {} {
      var id :| id in ids;
      NodesOfIds(ids - {id});
      assert nodes == (set other | other in ids - {id} :: Node(Derived, other)) + {Node(Derived, id)};
    }
  }

  lemma EdgesOfResting(s: State, n: Node)
    requires Invariant(s)
    ensures forall i :: 0 <= i < |s.derived| && RestsOn(s.derived[i], n) ==> (n, Node(Derived, s.derived[i].id)) in Pairs(s.edges)
  {
    forall i | 0 <= i < |s.derived| && RestsOn(s.derived[i], n) ensures (n, Node(Derived, s.derived[i].id)) in Pairs(s.edges) {
      InvariantHasEdges(s, i);
      RestingHasEdge(s.derived[i], s.edges, n);
    }
  }

  lemma BoundExactly(edges: set<Edge>, derived: seq<DerivedRow>, n: Node)
    requires n.kind != Derived
    requires ReachSet(Pairs(edges), n) == {n} + set id | id in Resting(derived, n) :: Node(Derived, id)
    ensures Unbounded(edges, n) <==> |Resting(derived, n)| >= 10_000
  {
    NodesOfIds(Resting(derived, n));
    var nodes := set id | id in Resting(derived, n) :: Node(Derived, id);
    assert n !in nodes && |{n} + nodes| == 1 + |nodes|;
  }

  /** In every reachable store an invalidation raises exactly when ten thousand results or more rest on the node. */
  lemma InvalidationRaisesExactly(ontology: string, calls: seq<Call>, n: Node)
    requires n.kind != Derived
    ensures var s := RunCalls(Init(ontology), calls); Invalidated(s, n) == None <==> |Resting(s.derived, n)| >= 10_000
  {
    var s := RunCalls(Init(ontology), calls);
    ReachableKeepsInvariant(ontology, calls);
    RunKeepsWiring(Init(ontology), calls);
    InvariantParts(s);
    EdgesOfResting(s, n);
    ReachedExactly(s.edges, s.derived, n);
    BoundExactly(s.edges, s.derived, n);
  }

  /** What a fact write touches of a result: a selector it recorded reads the property, or it recorded the replaced row. */
  predicate Reads(row: DerivedRow, rows: seq<FactRow>, w: FactWrite) {
    || (exists d :: d in row.result.deps && d.kind == FactProperty && MatchesPattern(w.property, d.id))
    || (exists i :: 0 <= i < |rows| && Yields(rows[i], w) && Node(FactNode, rows[i].fact.id) in row.result.deps)
  }

  predicate ReadsProperty(row: DerivedRow, property: string) {
    exists d :: d in row.result.deps && d.kind == FactProperty && MatchesPattern(property, d.id)
  }

  lemma SelectorsHit(row: DerivedRow, property: string)
    ensures (exists n :: n in SelectorNodes(property) && RestsOn(row, n)) <==> ReadsProperty(row, property)
  {
    if n :| n in SelectorNodes(property) && RestsOn(row, n) {
      SelectorsAreExactlyThePatterns(property, n.id);
      assert n in row.result.deps && MatchesPattern(property, n.id);
    }
    if ReadsProperty(row, property) {
      var d :| d in row.result.deps && d.kind == FactProperty && MatchesPattern(property, d.id);
      SelectorsAreExactlyThePatterns(property, d.id);
      assert d == Node(FactProperty, d.id) && d in SelectorNodes(property);
    }
  }

  lemma ReplacedHit(row: DerivedRow, rows: seq<FactRow>, w: FactWrite)
    requires GoodTable(rows) && w.subject != "" && w.property != "" && !Holds(rows, w)
    ensures (Replaced(rows, w).Some? && RestsOn(row, Node(FactNode, Replaced(rows, w).value.id)))
            <==> exists i :: 0 <= i < |rows| && Yields(rows[i], w) && Node(FactNode, rows[i].fact.id) in row.result.deps
  {
    assert !IdentityKnown(rows, w);
    ReplacedIsTheOpenRow(rows, w);
    if Replaced(rows, w).Some? && RestsOn(row, Node(FactNode, Replaced(rows, w).value.id)) {
      var i :| 0 <= i < |rows| && IsOpen(rows[i]) && rows[i].fact == Replaced(rows, w).value
               && SameSlot(rows[i].fact, NewFact(w, "", 0));
      assert Yields(rows[i], w);
    }
    if i :| 0 <= i < |rows| && Yields(rows[i], w) && Node(FactNode, rows[i].fact.id) in row.result.deps {
      assert IsOpen(rows[i]) && SameSlot(rows[i].fact, NewFact(w, "", 0));
    }
  }

  /** What the nodes of a write hit: nothing for a known value asserted directly, the property's readers for a known value
      observed again, and for a new value also the results that recorded the row it supersedes. */
  lemma WriteHits(row: DerivedRow, rows: seq<FactRow>, w: FactWrite)
    requires GoodTable(rows) && w.subject != "" && w.property != ""
    ensures (exists n :: n in WriteNodes(rows, w) && RestsOn(row, n))
            <==> if Holds(rows, w) then w.fromObservation && ReadsProperty(row, w.property) else Reads(row, rows, w)
  {
    assert IdentityKnown(rows, w) == Holds(rows, w);
    SelectorsHit(row, w.property);
    if !Holds(rows, w) {
      ReplacedHit(row, rows, w);
      var selectors := SelectorNodes(w.property);
      if Replaced(rows, w).Some? {
        assert WriteNodes(rows, w) == {Node(FactNode, Replaced(rows, w).value.id)} + selectors;
      } else {
        assert WriteNodes(rows, w) == selectors;
      }
    }
  }

  lemma WrittenTo(s: State, w: FactWrite, id: string, now: int, next: State)
    requires FactWritten(s, w, id, now) == Some(next)
    ensures next == s.(facts := Recorded(s.facts, w, id, now), derived := InvalidateRows(s.derived, AllAffected(s.edges, WriteNodes(s.facts, w))))
    ensures w.subject != "" && w.property != ""
  {
  }

  lemma WriteInvalidates(s: State, w: FactWrite, id: string, now: int, next: State, i: nat)
    requires i < |s.derived| && Wired(s.edges, s.derived) && HasEdges(s.derived[i], s.edges) && GoodTable(s.facts)
    requires FactWritten(s, w, id, now) == Some(next)
    ensures next == s.(facts := Recorded(s.facts, w, id, now), derived := next.derived) && |next.derived| == |s.derived|
    ensures Hit(s.derived[i], next.derived[i],
                if Holds(s.facts, w) then w.fromObservation && ReadsProperty(s.derived[i], w.property)
                else Reads(s.derived[i], s.facts, w))
  {
    WrittenTo(s, w, id, now, next);
    WriteHits(s.derived[i], s.facts, w);
    WriteNodesAreNoResults(s.facts, w);
    HitsExactly(s.edges, s.derived, WriteNodes(s.facts, w), i);
  }

  lemma WriteNodesAreNoResults(rows: seq<FactRow>, w: FactWrite)
    ensures forall n :: n in WriteNodes(rows, w) ==> n.kind != Derived
  {
  }

  /** In every reachable store an accepted fact write invalidates exactly the results that read what it touches. */
  lemma FactWriteInvalidatesExactly(ontology: string, calls: seq<Call>, w: FactWrite, id: string, now: int, i: nat)
    requires var s := RunCalls(Init(ontology), calls); i < |s.derived| && FactWritten(s, w, id, now).Some?
    ensures var s := RunCalls(Init(ontology), calls);
            var next := FactWritten(s, w, id, now).value;
            && next == s.(facts := Recorded(s.facts, w, id, now), derived := next.derived) && |next.derived| == |s.derived|
            && Hit(s.derived[i], next.derived[i],
                   if Holds(s.facts, w) then w.fromObservation && ReadsProperty(s.derived[i], w.property)
                   else Reads(s.derived[i], s.facts, w))
  {
    var s := RunCalls(Init(ontology), calls);
    ReachableIsWired(ontology, calls, s, i);
    WriteInvalidates(s, w, id, now, FactWritten(s, w, id, now).value, i);
  }

  lemma CreatedTo(s: State, r: Relation, now: int, next: State)
    requires RelationCreated(s, r, true, now) == Some(next) && !Duplicate(s.relations, r)
    ensures next.derived == InvalidateRows(s.derived, AffectedIds(s.edges, Node(RelationType, r.relationType)))
  {
    RelationCreatedExactly(s, r, now);
    var n := Node(RelationType, r.relationType);
    assert AllAffected(s.edges, {n}) == AffectedIds(s.edges, n);
  }

  lemma CreationInvalidates(s: State, r: Relation, now: int, next: State, i: nat)
    requires i < |s.derived| && Wired(s.edges, s.derived) && HasEdges(s.derived[i], s.edges)
    requires RelationCreated(s, r, true, now) == Some(next)
    ensures |next.derived| == |s.derived|
    ensures Hit(s.derived[i], next.derived[i],
                !Duplicate(s.relations, r) && Node(RelationType, r.relationType) in s.derived[i].result.deps)
  {
    var n := Node(RelationType, r.relationType);
    if Duplicate(s.relations, r) {
      RelationCreatedExactly(s, r, now);
    } else {
      CreatedTo(s, r, now, next);
      AffectedExactly(s.edges, s.derived, n, i);
      RowHit(s.derived, AffectedIds(s.edges, n), i);
    }
  }

  /** A new relation invalidates exactly the results that recorded its type. */
  lemma RelationInvalidatesExactly(ontology: string, calls: seq<Call>, r: Relation, now: int, i: nat)
    requires var s := RunCalls(Init(ontology), calls); i < |s.derived| && RelationCreated(s, r, true, now).Some?
    ensures var s := RunCalls(Init(ontology), calls);
            var next := RelationCreated(s, r, true, now).value;
            |next.derived| == |s.derived|
            && Hit(s.derived[i], next.derived[i],
                   !Duplicate(s.relations, r) && Node(RelationType, r.relationType) in s.derived[i].result.deps)
  {
    var s := RunCalls(Init(ontology), calls);
    ReachableIsWired(ontology, calls, s, i);
    CreationInvalidates(s, r, now, RelationCreated(s, r, true, now).value, i);
  }

  /** The result considered the predecessor or, without one, was computed under the rule's ontology. */
  predicate Considers(row: DerivedRow, rule: Rule) {
    if rule.predecessor.Some? then exists ref :: ref in row.result.versions && ref.id == rule.predecessor.value
    else row.key.ontology == rule.ontology
  }

  lemma ConsidersExactly(row: DerivedRow, rule: Rule)
    requires RecordsReads(row)
    ensures RestsOn(row, ActivationNode(rule)) <==> Considers(row, rule)
  {
    assert ActivationNode(rule) !in row.result.deps;
  }

  lemma ActivatedTo(s: State, k: nat, expected: Option<int>, now: int, next: State)
    requires k < |s.rules| && DistinctRuleIds(s.rules) && RuleActivated(s, s.rules[k].id, expected, now) == Some(next)
    ensures next.derived == InvalidateRows(s.derived, AffectedIds(s.edges, ActivationNode(s.rules[k])))
  {
    assert FindRule(s.rules, s.rules[k].id) == Some(k);
  }

  lemma ActivationInvalidates(s: State, k: nat, expected: Option<int>, now: int, next: State, i: nat)
    requires i < |s.derived| && Wired(s.edges, s.derived) && HasEdges(s.derived[i], s.edges)
    requires k < |s.rules| && DistinctRuleIds(s.rules) && RuleActivated(s, s.rules[k].id, expected, now) == Some(next)
    ensures |next.derived| == |s.derived| && Hit(s.derived[i], next.derived[i], Considers(s.derived[i], s.rules[k]))
  {
    var n := ActivationNode(s.rules[k]);
    ActivatedTo(s, k, expected, now, next);
    ConsidersExactly(s.derived[i], s.rules[k]);
    AffectedExactly(s.edges, s.derived, n, i);
    RowHit(s.derived, AffectedIds(s.edges, n), i);
  }

  /** In every reachable store an activation invalidates exactly the results that considered the predecessor or, without one,
      those computed under the rule's ontology. */
  lemma ActivationInvalidatesExactly(ontology: string, calls: seq<Call>, k: nat, expected: Option<int>, now: int, i: nat)
    requires var s := RunCalls(Init(ontology), calls);
             && i < |s.derived| && k < |s.rules| && RuleActivated(s, s.rules[k].id, expected, now).Some?
    ensures var s := RunCalls(Init(ontology), calls);
            var next := RuleActivated(s, s.rules[k].id, expected, now).value;
            |next.derived| == |s.derived| && Hit(s.derived[i], next.derived[i], Considers(s.derived[i], s.rules[k]))
  {
    var s := RunCalls(Init(ontology), calls);
    ReachableIsWired(ontology, calls, s, i);
    ActivationInvalidates(s, k, expected, now, RuleActivated(s, s.rules[k].id, expected, now).value, i);
  }
}
