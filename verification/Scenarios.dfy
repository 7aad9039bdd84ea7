/** Small runs of service calls from the empty store, for the results that say where a promise ends. */
module Scenarios {
  import opened Prelude
  import opened Json
  import opened Graph
  import opened Evaluator
  import opened Rules
  import opened Sorting
  import opened Engine
  import opened RuleStore
  import opened RuleStoreProofs
  import opened Core
  import opened CacheHits
  import opened Reachable

  /** A rule to be launched: it fires in every context of its scope, and its one test runs outside of it. */
  datatype Spec = Spec(
    id: string, key: string, scope: Document, effects: seq<Json>, predecessor: Option<string>, elsewhere: Document)

  function TestOf(spec: Spec, passed: Option<bool>): TestCase {
    TestCase("outside", [], [], spec.elsewhere, map[], [], true, passed)
  }

  function DraftOf(spec: Spec): RuleDraft {
    RuleDraft(spec.key, None, spec.scope, Bool(true), spec.effects, [], 0, None, None, "o", Some("source"),
              spec.predecessor, None, [TestOf(spec, None)], true)
  }

  /** The rule's row after a number of lifecycle steps. */
  function RowOf(spec: Spec, created: int, status: Status, rowVersion: int, passed: Option<bool>): Rule {
    Rule(spec.id, spec.key, 1, spec.scope, Bool(true), spec.effects, [], 0, None, None, "o", Some("source"),
         spec.predecessor, None, created, None, status, rowVersion, [TestOf(spec, passed)])
  }

  function LaunchedRow(spec: Spec, created: int): Rule {
    RowOf(spec, created, Active, 3, Some(true))
  }

  predicate WellMade(spec: Spec) {
    && spec.id != "" && spec.predecessor != Some(spec.id) && ValidPayload(RowOf(spec, 0, Draft, 1, None))
    && !ScopeMatches(spec.scope, spec.elsewhere)
  }

  predicate StartsWithLetter(s: string) {
    s != "" && 'a' <= s[0] <= 'z'
  }

  lemma LetterNotBlank(s: string)
    requires StartsWithLetter(s)
    ensures NotBlank(s)
  {
    assert s[0] !in WHITESPACE;
  }

  lemma SpecWellMade(spec: Spec)
    requires spec.id != "" && spec.predecessor != Some(spec.id) && StartsWithLetter(spec.key)
    requires spec.effects != [] && forall i :: 0 <= i < |spec.effects| ==> EffectProblems(spec.effects[i]) == []
    requires !ScopeMatches(spec.scope, spec.elsewhere)
    ensures WellMade(spec)
  {
    LetterNotBlank(spec.key);
  }

  /** Neither the id nor the logical key is taken, and the predecessor exists. */
  predicate CanCreate(rules: seq<Rule>, spec: Spec) {
    && FindRule(rules, spec.id).None? && (forall r :: r in rules ==> r.logicalKey != spec.key)
    && (spec.predecessor.Some? ==> FindRule(rules, spec.predecessor.value).Some?)
  }

  lemma {:induction false} FindAppended(rules: seq<Rule>, row: Rule, id: string)
    ensures FindRule(rules + [row], id)
         == if FindRule(rules, id).Some? then FindRule(rules, id) else if row.id == id then Some(|rules|) else None
  {
    if rules == [] {
      assert rules + [row] == [row];
      assert FindRule([row][1..], id) == None;
    } else {
      assert (rules + [row])[1..] == rules[1..] + [row];
      FindAppended(rules[1..], row, id);
    }
  }

  lemma SortOne(rule: Rule)
    ensures OrderedRules([rule]) == [rule]
  {
    SortPermutes(RuleLe, [rule]);
    var sorted := OrderedRules([rule]);
    assert |multiset(sorted)| == |sorted| && sorted[0] in multiset(sorted);
  }

  /** Outside its scope a rule only leaves a mismatch in the trace. */
  lemma OutOfScope(rule: Rule, data: Data)
    requires rule.status == Active && !ScopeMatches(rule.scope, data.context)
    ensures RunEngine([rule], data) == Ok(Run(NOTHING, {}, [ScopeMismatch(RefOf(rule))], [], []))
  {
    SortOne(rule);
    assert [rule][1..] == [];
    var next := RunRule(START, rule, data).value;
    assert next == START.(traces := [ScopeMismatch(RefOf(rule))]);
    assert RunRules(START, [rule], data) == RunRules(next, [], data);
  }

  lemma Creates(s: State, spec: Spec, now: int)
    requires WellMade(spec) && CanCreate(s.rules, spec)
    ensures Step(s, CreateRule(DraftOf(spec), spec.id), now) == s.(rules := s.rules + [RowOf(spec, now, Draft, 1, None)])
  {
    var draft := DraftOf(spec);
    assert forall i :: 0 <= i < |s.rules| ==> s.rules[i] in s.rules;
    assert NewVersion(s.rules, draft) == 1;
    assert Map(Untested, draft.tests) == draft.tests;
    assert NewRule(draft, spec.id, 1, now) == RowOf(spec, now, Draft, 1, None);
  }

  lemma TestPasses(spec: Spec, created: int)
    requires WellMade(spec)
    ensures var row := RowOf(spec, created, Draft, 1, None); RunTests(row, row.tests) == Ok([TestOf(spec, Some(true))])
  {
    var row := RowOf(spec, created, Draft, 1, None);
    OutOfScope(row.(status := Active), Data([], [], spec.elsewhere, map[]));
    var mismatch := ScopeMismatch(RefOf(row));
    assert [mismatch][1..] == [];
    assert MatchedEffects([mismatch]) == [];
    assert RunTest(row, TestOf(spec, None)) == Ok(true);
    assert RunTests(row, row.tests[1..]) == Ok([]);
    assert [TestOf(spec, Some(true))] + [] == [TestOf(spec, Some(true))];
  }

  lemma TestsToReview(s: State, before: seq<Rule>, spec: Spec, created: int, now: int)
    requires WellMade(spec) && FindRule(before, spec.id).None?
    requires s.rules == before + [RowOf(spec, created, Draft, 1, None)]
    ensures Step(s, TestRule(spec.id), now) == s.(rules := before + [RowOf(spec, created, Review, 2, Some(true))])
  {
    TestedTo(s.rules, before, spec, created);
    TestOutcome(s, TestRule(spec.id), now, before + [RowOf(spec, created, Review, 2, Some(true))]);
  }

  lemma TestOutcome(s: State, request: Request, now: int, rules: seq<Rule>)
    requires request.TestRule? && Tested(s.rules, request.id) == Some(rules)
    ensures Step(s, request, now) == s.(rules := rules)
  {
  }

  lemma TestedTo(rules: seq<Rule>, before: seq<Rule>, spec: Spec, created: int)
    requires WellMade(spec) && FindRule(before, spec.id).None?
    requires rules == before + [RowOf(spec, created, Draft, 1, None)]
    ensures Tested(rules, spec.id) == Some(before + [RowOf(spec, created, Review, 2, Some(true))])
  {
    var row := RowOf(spec, created, Draft, 1, None);
    FindAppended(before, row, spec.id);
    TestPasses(spec, created);
    assert ValidPayload(row);
    var tests := [TestOf(spec, Some(true))];
    assert AllPassed(tests);
    assert WithStatus(row.(tests := tests), Review) == RowOf(spec, created, Review, 2, Some(true));
    assert (before + [row])[|before| := RowOf(spec, created, Review, 2, Some(true))]
        == before + [RowOf(spec, created, Review, 2, Some(true))];
  }

  predicate NoEdgesFrom(edges: set<Edge>, n: Node) {
    forall e :: e in edges ==> e.source != n
  }

  /** A traversal from a node without edges finds nothing. */
  lemma FindsNothing(edges: set<Edge>, n: Node)
    requires NoEdgesFrom(edges, n)
    ensures !Unbounded(edges, n) && AffectedIds(edges, n) == {}
  {
    var g := Pairs(edges);
    forall m | Reaches(g, n, m) ensures m == n {
      ClosedHoldsReached(g, {n}, n, m);
    }
    ReachesItself(g, n);
    assert ReachSet(g, n) == {n};
  }

  lemma InvalidatesNothing(s: State, n: Node)
    requires NoEdgesFrom(s.edges, n)
    ensures Invalidated(s, n) == Some(s)
  {
    FindsNothing(s.edges, n);
    assert InvalidateRows(s.derived, {}) == s.derived;
  }

  /** Nothing in force blocks the rule. */
  predicate Unblocked(before: seq<Rule>, spec: Spec) {
    forall item :: item in before && InForce(item) && spec.predecessor != Some(item.id) ==>
                     item.logicalKey != spec.key && !EffectConflicts(RowOf(spec, 0, Draft, 1, None), item)
  }

  function NodeOf(spec: Spec): Node {
    if spec.predecessor.Some? then Node(RuleNode, spec.predecessor.value) else Node(RuleCatalog, "o")
  }

  lemma MayActivateUnblocked(before: seq<Rule>, spec: Spec, created: int)
    requires WellMade(spec) && Unblocked(before, spec)
    ensures var row := RowOf(spec, created, Review, 2, Some(true)); MayActivate(before + [row], row)
  {
    var row := RowOf(spec, created, Review, 2, Some(true));
    assert ValidPayload(row) && AllPassed(row.tests);
    ActiveRulesExactly(before + [row], None, None);
    forall item | item in ActiveRules(before + [row], None, None) ensures !SameKeyBlocks(row, item) && !ConflictBlocks(row, item) {
      assert item in before && InForce(item);
      assert EffectConflicts(row, item) <==> EffectConflicts(RowOf(spec, 0, Draft, 1, None), item);
    }
  }

  lemma SupersedeAppended(before: seq<Rule>, row: Rule, predecessor: Option<string>, now: int)
    requires predecessor.Some? ==> FindRule(before, predecessor.value).Some?
    ensures Supersede(before, predecessor, now).Some?
    ensures Supersede(before + [row], predecessor, now) == Some(Supersede(before, predecessor, now).value + [row])
  {
    if predecessor.Some? {
      FindAppended(before, row, predecessor.value);
      var j := FindRule(before, predecessor.value).value;
      assert (before + [row])[j := SupersededRow(before[j], now)] == before[j := SupersededRow(before[j], now)] + [row];
    }
  }

  lemma ActivatedRows(before: seq<Rule>, spec: Spec, created: int, now: int)
    requires WellMade(spec) && CanCreate(before, spec) && Unblocked(before, spec)
    ensures Supersede(before, spec.predecessor, now).Some?
    ensures Activated(before + [RowOf(spec, created, Review, 2, Some(true))], spec.id, None, now)
         == Some(Supersede(before, spec.predecessor, now).value + [LaunchedRow(spec, created)])
  {
    var row := RowOf(spec, created, Review, 2, Some(true));
    FindAppended(before, row, spec.id);
    MayActivateUnblocked(before, spec, created);
    SupersedeAppended(before, row, spec.predecessor, now);
    var superseded := Supersede(before, spec.predecessor, now).value;
    assert WithStatus(row, Active) == LaunchedRow(spec, created);
    assert (superseded + [row])[|before| := LaunchedRow(spec, created)] == superseded + [LaunchedRow(spec, created)];
  }

  /** An activation whose traversal finds nothing changes the rules only. */
  lemma QuietActivation(s: State, i: nat, row: Rule, now: int, rules: seq<Rule>)
    requires FindRule(s.rules, row.id) == Some(i) && s.rules[i] == row && Activated(s.rules, row.id, None, now) == Some(rules)
    requires NoEdgesFrom(s.edges, ActivationNode(row))
    ensures RuleActivated(s, row.id, None, now) == Some(s.(rules := rules))
  {
    InvalidatesNothing(s.(rules := rules), ActivationNode(row));
    assert RuleActivated(s, row.id, None, now) == Invalidated(s.(rules := rules), ActivationNode(row));
  }

  lemma ActivationOutcome(s: State, id: string, expected: Option<int>, now: int)
    ensures Outcome(s, ActivateRule(id, expected), now) == RuleActivated(s, id, expected, now)
  {
    var request := ActivateRule(id, expected);
    assert request.ActivateRule? && request.id == id && request.expected == expected;
  }

  lemma OutcomeIsStep(s: State, request: Request, now: int, outcome: Option<State>)
    requires Outcome(s, request, now) == outcome && outcome.Some?
    ensures Step(s, request, now) == outcome.value
  {
  }

  lemma Activates(s: State, before: seq<Rule>, spec: Spec, created: int, now: int)
    requires WellMade(spec) && CanCreate(before, spec) && Unblocked(before, spec) && NoEdgesFrom(s.edges, NodeOf(spec))
    requires s.rules == before + [RowOf(spec, created, Review, 2, Some(true))]
    ensures Supersede(before, spec.predecessor, now).Some?
    ensures Step(s, ActivateRule(spec.id, None), now)
         == s.(rules := Supersede(before, spec.predecessor, now).value + [LaunchedRow(spec, created)])
  {
    var row := RowOf(spec, created, Review, 2, Some(true));
    ActivatedRows(before, spec, created, now);
    FindAppended(before, row, spec.id);
    assert ActivationNode(row) == NodeOf(spec);
    var rules := Supersede(before, spec.predecessor, now).value + [LaunchedRow(spec, created)];
    QuietActivation(s, |before|, row, now, rules);
    ActivationOutcome(s, spec.id, None, now);
    OutcomeIsStep(s, ActivateRule(spec.id, None), now, Some(s.(rules := rules)));
  }

  /** create, test and activate. */
  function LaunchCalls(spec: Spec, created: int, activated: int): seq<Call> {
    [Call(created, CreateRule(DraftOf(spec), spec.id)), Call(created, TestRule(spec.id)),
     Call(activated, ActivateRule(spec.id, None))]
  }

  /** The three calls put the rule in force and supersede its predecessor. */
  lemma Launches(s: State, spec: Spec, created: int, activated: int)
    requires WellMade(spec) && CanCreate(s.rules, spec) && Unblocked(s.rules, spec) && NoEdgesFrom(s.edges, NodeOf(spec))
    ensures Supersede(s.rules, spec.predecessor, activated).Some?
    ensures RunCalls(s, LaunchCalls(spec, created, activated))
         == s.(rules := Supersede(s.rules, spec.predecessor, activated).value + [LaunchedRow(spec, created)])
  {
    var calls := LaunchCalls(spec, created, activated);
    Creates(s, spec, created);
    var s1 := Step(s, calls[0].request, created);
    TestsToReview(s1, s.rules, spec, created, created);
    var s2 := Step(s1, calls[1].request, created);
    Activates(s2, s.rules, spec, created, activated);
    var s3 := Step(s2, calls[2].request, activated);
    assert calls[1..][1..] == calls[2..] && calls[2..][1..] == [];
    assert RunCalls(s, calls) == RunCalls(s1, calls[1..]) == RunCalls(s2, calls[2..]) == RunCalls(s3, []) == s3;
  }

  /** The same with the resulting store given. */
  lemma LaunchesTo(s: State, spec: Spec, created: int, activated: int, before: seq<Rule>, superseded: seq<Rule>, next: State)
    requires s.rules == before && WellMade(spec) && CanCreate(before, spec) && Unblocked(before, spec)
    requires NoEdgesFrom(s.edges, NodeOf(spec))
    requires Supersede(before, spec.predecessor, activated) == Some(superseded)
    requires next == s.(rules := superseded + [LaunchedRow(spec, created)])
    ensures RunCalls(s, LaunchCalls(spec, created, activated)) == next
  {
    Launches(s, spec, created, activated);
  }

  /** A stored result that recorded no rows, selectors or rules hangs on the ontology and the rule catalog only. */
  lemma HangsOnCatalog(run: Run, ontology: string, id: string, edges: set<Edge>, n: Node)
    requires run.deps == {} && run.versions == [] && n.kind !in {OntologyNode, RuleCatalog}
    requires edges == {} + ResultEdges(run, ontology, id)
    ensures NoEdgesFrom(edges, n)
  {
  }

  /** A persisted query for a key that is not stored yet. */
  lemma Stores(s: State, q: Query, id: string, now: int)
    requires FreshRun(s, q).Ok? && FindDerived(s.derived, KeyOf(s, q)).None? && !DerivedIdUsed(s.derived, id)
    ensures Step(s, EvaluateQuery(q, true, id), now) == Stored(s, q, FreshRun(s, q).value, id)
  {
  }

  lemma OneCall(s: State, next: State, call: Call)
    requires Step(s, call.request, call.now) == next
    ensures RunCalls(s, [call]) == next
  {
    assert [call][1..] == [];
    assert RunCalls(s, [call]) == RunCalls(next, []);
  }

  lemma TwoCalls(s: State, middle: State, last: State, first: Call, second: Call)
    requires Step(s, first.request, first.now) == middle && Step(middle, second.request, second.now) == last
    ensures RunCalls(s, [first, second]) == last
  {
    assert [first, second][1..] == [second];
    OneCall(middle, last, second);
  }

  lemma Composed(s: State, a: seq<Call>, middle: State, b: seq<Call>, last: State)
    requires RunCalls(s, a) == middle && RunCalls(middle, b) == last
    ensures RunCalls(s, a + b) == last
  {
    RunCallsAppend(s, a, b);
  }

  lemma EmptySnapshot(s: State, q: Query)
    requires s.facts == [] && s.relations == []
    ensures Snapshot(s, q) == Data([], [], q.context, q.applicant)
  {
  }

  /** A query whose key is stored in the only, valid, row. */
  lemma HitsOnlyRow(s: State, q: Query, newId: string)
    requires |s.derived| == 1 && s.derived[0].key == KeyOf(s, q) && s.derived[0].status == VALID && InstantsReadable(q.context)
    ensures Hits(s, q, newId) && Hit(s, q, newId) == s.derived[0].result
  {
  }
}
