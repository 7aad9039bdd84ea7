/** The whole store as one state machine: facts, relations, rules, materialised results and dependency edges, and
    what every service call does to them. A call that raises leaves the store as it was. */
module Core {
  import opened Prelude
  import opened Text
  import opened Json
  import opened Graph
  import opened Evaluator
  import opened Rules
  import opened Sorting
  import opened Engine
  import opened Selectors
  import opened FactStore
  import opened RuleStore

  const ENGINE_VERSION := "engine-0.1.0"
  const MAX_NODES: nat := 10_000

  datatype EdgeRole = Supports | Executes | Interprets | EvaluatesCatalog

  datatype Edge = Edge(source: Node, target: Node, role: EdgeRole)

  datatype DerivedStatus = VALID | INVALIDATED

  /** The injective stand-in for the canonical hash a result is stored under. */
  datatype ResultKey = ResultKey(
    derivedType: string, applicant: Document, context: Document, ontology: string, rules: seq<(string, nat)>, engine: string)

  datatype DerivedRow = DerivedRow(id: string, key: ResultKey, result: Run, status: DerivedStatus)

  datatype State = State(
    ontology: string, facts: seq<FactRow>, relations: seq<Relation>, rules: seq<Rule>, derived: seq<DerivedRow>,
    edges: set<Edge>)

  function Pairs(edges: set<Edge>): Edges {
    set e | e in edges :: (e.source, e.target)
  }

  // ---- invalidation ----

  /** The traversal from the node exceeds its safety bound. */
  ghost predicate Unbounded(edges: set<Edge>, node: Node) {
    |ReachSet(Pairs(edges), node)| > MAX_NODES
  }

  /** The derived row hangs on the node: an edge path leads to it, and it is not the node itself. */
  ghost predicate Affected(edges: set<Edge>, node: Node, id: string) {
    Node(Derived, id) != node && Reaches(Pairs(edges), node, Node(Derived, id))
  }

  ghost function AffectedIds(edges: set<Edge>, node: Node): (ids: set<string>)
    ensures forall id :: id in ids <==> Affected(edges, node, id)
  {
    var ids := set n | n in ReachSet(Pairs(edges), node) && n.kind == Derived && n != node :: n.id;
    assert forall id :: Affected(edges, node, id) ==> Node(Derived, id) in ReachSet(Pairs(edges), node);
    ids
  }

  /** invalidate_derived: the VALID rows among the ids become INVALIDATED. */
  function InvalidateRows(derived: seq<DerivedRow>, ids: set<string>): (r: seq<DerivedRow>)
    ensures |r| == |derived|
    ensures forall i :: 0 <= i < |r| ==>
                          r[i] == if derived[i].id in ids && derived[i].status == VALID
                                  then derived[i].(status := INVALIDATED) else derived[i]
  {
    if derived == [] then []
    else [if derived[0].id in ids && derived[0].status == VALID then derived[0].(status := INVALIDATED) else derived[0]]
         + InvalidateRows(derived[1..], ids)
  }

  ghost function Invalidated(s: State, node: Node): Option<State> {
    if Unbounded(s.edges, node) then None else Some(s.(derived := InvalidateRows(s.derived, AffectedIds(s.edges, node))))
  }

  // ---- facts and relations ----

  function SelectorNodes(property: string): set<Node> {
    set selector | selector in FactPropertySelectors(property) :: Node(FactProperty, selector)
  }

  ghost predicate AllBounded(edges: set<Edge>, nodes: set<Node>) {
    forall n :: n in nodes ==> !Unbounded(edges, n)
  }

  ghost function AllAffected(edges: set<Edge>, nodes: set<Node>): set<string> {
    set n, id | n in nodes && id in AffectedIds(edges, n) :: id
  }

  /** The store once the results that hang on any of the nodes are invalidated. */
  ghost function WithInvalidated(s: State, nodes: set<Node>): State {
    s.(derived := InvalidateRows(s.derived, AllAffected(s.edges, nodes)))
  }

  ghost function InvalidatedAll(s: State, nodes: set<Node>): Option<State> {
    if AllBounded(s.edges, nodes) then Some(WithInvalidated(s, nodes)) else None
  }

  /** The nodes an accepted write invalidates: the replaced fact and every pattern that can read the property. */
  function WriteNodes(facts: seq<FactRow>, w: FactWrite): set<Node> {
    (if !IdentityKnown(facts, w) && Replaced(facts, w).Some? then {Node(FactNode, Replaced(facts, w).value.id)} else {})
    + (if !IdentityKnown(facts, w) || w.fromObservation then SelectorNodes(w.property) else {})
  }

  /** create_fact and accept_observation: None where the service raises. */
  ghost function FactWritten(s: State, w: FactWrite, id: string, now: int): Option<State> {
    if !Accepts(s.facts, w, id) then None
    else InvalidatedAll(s.(facts := Recorded(s.facts, w, id, now)), WriteNodes(s.facts, w))
  }

  predicate RelationKnown(relations: seq<Relation>, r: Relation) {
    exists i :: 0 <= i < |relations| && relations[i].subject == r.subject && relations[i].target == r.target
                && relations[i].relationType == r.relationType && relations[i].validFrom == r.validFrom
  }

  predicate RelationIdUsed(relations: seq<Relation>, id: string) {
    exists i :: 0 <= i < |relations| && relations[i].id == id
  }

  /** create_relation. */
  ghost function RelationCreated(s: State, r: Relation, admissible: bool, now: int): Option<State> {
    if !admissible then None
    else if RelationKnown(s.relations, r) then Some(s)
    else if RelationIdUsed(s.relations, r.id) then None
    else InvalidatedAll(s.(relations := s.relations + [r.(knownFrom := now)]), {Node(RelationType, r.relationType)})
  }

  predicate RelationLe(a: Relation, b: Relation) {
    StrLe(a.id, b.id)
  }

  function RelationPicker(subject: Json, validAt: Option<int>, knownAt: Option<int>): Relation -> bool {
    (r: Relation) => Selected(subject, r.subject) && HoldsAt(r.validFrom, r.validTo, validAt) && KnownAt(r.knownFrom, None, knownAt)
  }

  function ListRelations(relations: seq<Relation>, subject: Json, validAt: Option<int>, knownAt: Option<int>): seq<Relation> {
    Sort(RelationLe, Filter(RelationPicker(subject, validAt, knownAt), relations))
  }

  // ---- rules ----

  /** What a lifecycle call that changed the rule table invalidates afterwards. */
  function ActivationNode(rule: Rule): Node {
    if rule.predecessor.Some? then Node(RuleNode, rule.predecessor.value) else Node(RuleCatalog, rule.ontology)
  }

  ghost function RuleActivated(s: State, id: string, expected: Option<int>, now: int): Option<State> {
    match Activated(s.rules, id, expected, now)
    case None => None
    case Some(rules) => Invalidated(s.(rules := rules), ActivationNode(s.rules[FindRule(s.rules, id).value]))
  }

  function WithRules(s: State, rules: Option<seq<Rule>>): Option<State> {
    match rules
    case None => None
    case Some(next) => Some(s.(rules := next))
  }

  // ---- evaluation ----

  datatype Query = Query(derivedType: string, applicant: Document, context: Document)

  function ValidAtOf(context: Document): Option<int> {
    ParseInstant(Get(context, "valid_at"))
  }

  function KnownAtOf(context: Document): Option<int> {
    ParseInstant(Get(context, "known_at"))
  }

  predicate InstantsReadable(context: Document) {
    !IsMalformedInstant(Get(context, "valid_at")) && !IsMalformedInstant(Get(context, "known_at"))
  }

  function RulesFor(s: State, context: Document): seq<Rule> {
    ActiveRules(s.rules, ValidAtOf(context), KnownAtOf(context))
  }

  /** The snapshot an evaluation reads. */
  function DataFor(facts: seq<FactRow>, relations: seq<Relation>, applicant: Document, context: Document): Data {
    Data(ListFacts(facts, Get(context, "subject_id"), "", ValidAtOf(context), KnownAtOf(context)),
         ListRelations(relations, Get(context, "subject_id"), ValidAtOf(context), KnownAtOf(context)),
         context, applicant)
  }

  function VersionOf(rule: Rule): (string, nat) {
    (rule.id, rule.version)
  }

  function KeyOf(s: State, q: Query): ResultKey {
    ResultKey(q.derivedType, q.applicant, q.context, s.ontology, Map(VersionOf, RulesFor(s, q.context)), ENGINE_VERSION)
  }

  function FindDerived(derived: seq<DerivedRow>, key: ResultKey): (r: Option<nat>)
    ensures r.Some? ==> r.value < |derived| && derived[r.value].key == key
    ensures r.None? ==> forall i :: 0 <= i < |derived| ==> derived[i].key != key
  {
    if derived == [] then None
    else if derived[0].key == key then Some(0)
    else
      match FindDerived(derived[1..], key)
      case Some(i) => Some(i + 1)
      case None => None
  }

  predicate DerivedIdUsed(derived: seq<DerivedRow>, id: string) {
    exists i :: 0 <= i < |derived| && derived[i].id == id
  }

  /** What the engine computes afresh for a query on the current store. */
  function FreshRun(s: State, q: Query): Result<Run> {
    if !InstantsReadable(q.context) then Err(Stuck)
    else RunEngine(RulesFor(s, q.context), DataFor(s.facts, s.relations, q.applicant, q.context))
  }

  /** The edges that must lead to a materialised result. */
  function ResultEdges(run: Run, ontology: string, id: string): set<Edge> {
    (set n | n in run.deps :: Edge(n, Node(Derived, id), Supports))
    + (set ref | ref in run.versions :: Edge(Node(RuleNode, ref.id), Node(Derived, id), Executes))
    + {Edge(Node(OntologyNode, ontology), Node(Derived, id), Interprets),
       Edge(Node(RuleCatalog, ontology), Node(Derived, id), EvaluatesCatalog)}
  }

  datatype Answer = Cached(result: Run) | Computed(result: Run)

  /** evaluate: the answer and the store afterwards; None where the service raises. Storing over a row that is no longer
      VALID raises: update_derived passes two columns of the row twice. */
  function Evaluated(s: State, q: Query, persist: bool, newId: string): Option<(Answer, State)> {
    var key := KeyOf(s, q);
    var existing := FindDerived(s.derived, key);
    if !InstantsReadable(q.context) then None
    else if existing.Some? && s.derived[existing.value].status == VALID && persist then
      Some((Cached(s.derived[existing.value].result), s))
    else
      match FreshRun(s, q)
      case Err(_) => None
      case Ok(run) =>
        if !persist then Some((Computed(run), s))
        else if existing.Some? || DerivedIdUsed(s.derived, newId) then None
        else Some((Computed(run), Stored(s, q, run, newId)))
  }

  /** The store with a new result and its edges. */
  function Stored(s: State, q: Query, run: Run, id: string): State {
    s.(derived := s.derived + [DerivedRow(id, KeyOf(s, q), run, VALID)], edges := s.edges + ResultEdges(run, s.ontology, id))
  }

  /** What the service is written to do for a result that is no longer VALID: recompute it over its row. */
  function IntendedRewrite(s: State, q: Query): Option<(Answer, State)> {
    match (FindDerived(s.derived, KeyOf(s, q)), FreshRun(s, q))
    case (Some(i), Ok(run)) =>
      Some((Computed(run),
            s.(derived := s.derived[i := DerivedRow(s.derived[i].id, KeyOf(s, q), run, VALID)],
               edges := s.edges + ResultEdges(run, s.ontology, s.derived[i].id))))
    case _ => None
  }

  // ---- the state machine ----

  datatype Request =
    | WriteFact(w: FactWrite, id: string)
    | CreateRelation(r: Relation, admissible: bool)
    | CreateRule(draft: RuleDraft, id: string)
    | ValidateRule(id: string)
    | TestRule(id: string)
    | ActivateRule(id: string, expected: Option<int>)
    | EvaluateQuery(q: Query, persist: bool, newId: string)
    | InvalidateNode(node: Node)

  ghost function Outcome(s: State, request: Request, now: int): Option<State> {
    match request
    case WriteFact(w, id) => FactWritten(s, w, id, now)
    case CreateRelation(r, admissible) => RelationCreated(s, r, admissible, now)
    case CreateRule(draft, id) => WithRules(s, Created(s.rules, draft, id, now))
    case ValidateRule(id) => WithRules(s, Validated(s.rules, id))
    case TestRule(id) => WithRules(s, Tested(s.rules, id))
    case ActivateRule(id, expected) => RuleActivated(s, id, expected, now)
    case EvaluateQuery(q, persist, newId) =>
      (match Evaluated(s, q, persist, newId) case None => None case Some(p) => Some(p.1))
    case InvalidateNode(node) => Invalidated(s, node)
  }

  /** One service call: its effect, or none when it raises. */
  ghost function Step(s: State, request: Request, now: int): State {
    match Outcome(s, request, now)
    case None => s
    case Some(next) => next
  }

  datatype Call = Call(now: int, request: Request)

  function Init(ontology: string): State {
    State(ontology, [], [], [], [], {})
  }

  /** The store after a run of calls. */
  ghost function RunCalls(s: State, calls: seq<Call>): State
    decreases |calls|
  {
    if calls == [] then s else RunCalls(Step(s, calls[0].request, calls[0].now), calls[1..])
  }
}
