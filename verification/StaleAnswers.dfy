/** Runs of service calls from the empty store after which a cached answer is not what the engine would compute. */
module StaleAnswers {
  import opened Prelude
  import opened Text
  import opened Json
  import opened Evaluator
  import opened Rules
  import opened Engine
  import opened RuleStore
  import opened RuleStoreProofs
  import opened Core
  import opened CacheHits
  import opened Scenarios

  const MARK := Obj(map["type" := Str("MARK_ELIGIBLE"), "target" := Str("t")])

  /** A rule that marks the applicants of contexts naming "a" as eligible. */
  function Marking(id: string, predecessor: Option<string>): Spec {
    Spec(id, id, map["x" := Str("a")], [MARK], predecessor, map[])
  }

  lemma MarkingWellMade(id: string, predecessor: Option<string>)
    requires StartsWithLetter(id) && predecessor != Some(id)
    ensures WellMade(Marking(id, predecessor))
  {
    assert TypeOf(MARK.fields) == MarkEligible;
    assert EffectProblems(MARK) == [];
    assert !ValueMatches(Str("a"), Get(map[], "x"));
    SpecWellMade(Marking(id, predecessor));
  }

  lemma SameMarksAgree(a: Rule, b: Rule)
    requires a.effects == b.effects
    ensures !EffectConflicts(a, b)
  {
  }

  function AsOfFive(context: Document): Document {
    context["known_at" := Str("5")]
  }

  lemma KnownAtFive(context: Document)
    requires "valid_at" !in context
    ensures KnownAtOf(AsOfFive(context)) == Some(5) && ValidAtOf(AsOfFive(context)) == None
    ensures InstantsReadable(AsOfFive(context))
  {
    assert DigitsValue("5"[..0]) == 0;
    assert DigitsValue("5") == 5;
  }

  // ---- a superseded rule: the trace ----

  const TRACE_QUERY := Query("benefits", map[], AsOfFive(map[]))

  function Old(): Spec {
    Marking("b", None)
  }

  function New(): Spec {
    Marking("c", Some("b"))
  }

  function TraceCalls(): seq<Call> {
    LaunchCalls(Old(), 2, 2) + [Call(3, EvaluateQuery(TRACE_QUERY, true, "d"))] + LaunchCalls(New(), 7, 7)
  }

  const MISMATCH := Run(NOTHING, {}, [ScopeMismatch(RuleRef("b", "b", 1))], [], [])

  lemma ListsOnly(rule: Rule, rest: seq<Rule>)
    requires RulePicked(rule, None, Some(5)) && (rest == [] || (|rest| == 1 && !RulePicked(rest[0], None, Some(5))))
    ensures ActiveRules([rule] + rest, None, Some(5)) == [rule]
  {
    var p := RulePicker(None, Some(5));
    assert ([rule] + rest)[1..] == rest;
    assert rest != [] ==> rest[1..] == [];
    assert Filter(p, rest) == [];
    SortOne(rule);
  }

  lemma OldMismatches(rule: Rule, data: Data)
    requires rule == LaunchedRow(Old(), 2) && data.context == AsOfFive(map[])
    ensures RunEngine([rule], data) == Ok(MISMATCH)
  {
    assert !ValueMatches(rule.scope["x"], Get(data.context, "x"));
    OutOfScope(rule, data);
  }

  lemma InactiveRunsNothing(rule: Rule, data: Data)
    requires rule.status != Active
    ensures RunEngine([rule], data) == Ok(START)
  {
    SortOne(rule);
    assert [rule][1..] == [];
    assert RunRules(START, [rule], data) == RunRules(START, [], data);
  }

  function TraceBefore(): State {
    Init("o").(rules := [LaunchedRow(Old(), 2)])
  }

  lemma TraceLaunched()
    ensures RunCalls(Init("o"), LaunchCalls(Old(), 2, 2)) == TraceBefore()
  {
    MarkingWellMade("b", None);
    assert [] + [LaunchedRow(Old(), 2)] == [LaunchedRow(Old(), 2)];
    LaunchesTo(Init("o"), Old(), 2, 2, [], [], TraceBefore());
  }

  lemma TraceComputed()
    ensures FreshRun(TraceBefore(), TRACE_QUERY) == Ok(MISMATCH)
    ensures KeyOf(TraceBefore(), TRACE_QUERY).rules == [("b", 1)]
  {
    KnownAtFive(map[]);
    ListsOnly(LaunchedRow(Old(), 2), []);
    assert [LaunchedRow(Old(), 2)] + [] == [LaunchedRow(Old(), 2)];
    EmptySnapshot(TraceBefore(), TRACE_QUERY);
    OldMismatches(LaunchedRow(Old(), 2), Snapshot(TraceBefore(), TRACE_QUERY));
  }

  function TraceMiddle(): State {
    Stored(TraceBefore(), TRACE_QUERY, MISMATCH, "d")
  }

  const OLD_GONE := SupersededRow(LaunchedRow(Old(), 2), 7)

  function TraceAfter(): State {
    TraceMiddle().(rules := [OLD_GONE, LaunchedRow(New(), 7)])
  }

  lemma OldSuperseded()
    ensures CanCreate([LaunchedRow(Old(), 2)], New()) && Unblocked([LaunchedRow(Old(), 2)], New())
    ensures Supersede([LaunchedRow(Old(), 2)], Some("b"), 7) == Some([OLD_GONE])
  {
    var rules := [LaunchedRow(Old(), 2)];
    assert FindRule(rules, "b") == Some(0);
    assert FindRule(rules[1..], "c") == None;
    assert rules[0 := OLD_GONE] == [OLD_GONE];
  }

  lemma NewFits()
    ensures WellMade(New()) && NoEdgesFrom(TraceMiddle().edges, NodeOf(New()))
    ensures [OLD_GONE] + [LaunchedRow(New(), 7)] == TraceAfter().rules
  {
    MarkingWellMade("c", Some("b"));
    HangsOnCatalog(MISMATCH, "o", "d", TraceMiddle().edges, NodeOf(New()));
  }

  lemma TraceSucceeded()
    ensures RunCalls(TraceMiddle(), LaunchCalls(New(), 7, 7)) == TraceAfter()
  {
    NewFits();
    OldSuperseded();
    LaunchesTo(TraceMiddle(), New(), 7, 7, [LaunchedRow(Old(), 2)], [OLD_GONE], TraceAfter());
  }

  lemma TraceCallsRun()
    ensures RunCalls(Init("o"), TraceCalls()) == TraceAfter()
  {
    TraceLaunched();
    TraceComputed();
    var store := [Call(3, EvaluateQuery(TRACE_QUERY, true, "d"))];
    Stores(TraceBefore(), TRACE_QUERY, "d", 3);
    OneCall(TraceBefore(), TraceMiddle(), store[0]);
    TraceSucceeded();
    Composed(Init("o"), LaunchCalls(Old(), 2, 2), TraceBefore(), store, TraceMiddle());
    Composed(Init("o"), LaunchCalls(Old(), 2, 2) + store, TraceMiddle(), LaunchCalls(New(), 7, 7), TraceAfter());
  }

  lemma TraceListed()
    ensures RulesFor(TraceAfter(), TRACE_QUERY.context) == [OLD_GONE]
    ensures KeyOf(TraceAfter(), TRACE_QUERY) == KeyOf(TraceBefore(), TRACE_QUERY)
  {
    KnownAtFive(map[]);
    ListsOnly(OLD_GONE, [LaunchedRow(New(), 7)]);
    assert TraceAfter().rules == [OLD_GONE] + [LaunchedRow(New(), 7)];
    TraceComputed();
    assert Map(VersionOf, [OLD_GONE]) == [("b", 1)];
  }

  lemma TraceAnswers()
    ensures Hits(TraceAfter(), TRACE_QUERY, "e") && Hit(TraceAfter(), TRACE_QUERY, "e") == MISMATCH
    ensures FreshRun(TraceAfter(), TRACE_QUERY) == Ok(START)
  {
    TraceListed();
    KnownAtFive(map[]);
    HitsOnlyRow(TraceAfter(), TRACE_QUERY, "e");
    InactiveRunsNothing(OLD_GONE, Snapshot(TraceAfter(), TRACE_QUERY));
  }

  lemma TraceNotReactivated()
    ensures NoneReactivated(TraceAfter(), TRACE_QUERY)
  {
    TraceListed();
  }

  /** A stale trace: a rule out of scope was listed when the answer was stored and superseded later; the cached answer keeps
      its trace, a fresh run has none. */
  lemma SupersededRuleLeavesStaleTrace()
    ensures var s := RunCalls(Init("o"), TraceCalls());
            && Hits(s, TRACE_QUERY, "e") && NoneReactivated(s, TRACE_QUERY)
            && Hit(s, TRACE_QUERY, "e").traces == [ScopeMismatch(RuleRef("b", "b", 1))]
            && FreshRun(s, TRACE_QUERY) == Ok(START)
  {
    TraceCallsRun();
    TraceAnswers();
    TraceNotReactivated();
  }

  // ---- a reactivated rule: the values ----

  const VALUE_QUERY := Query("benefits", map[], AsOfFive(map["x" := Str("a")]))

  function First(): Spec {
    Marking("a", None)
  }

  function Second(): Spec {
    Marking("b", Some("a"))
  }

  function Third(): Spec {
    Marking("c", Some("b"))
  }

  /** The second rule replaces the first and is replaced by the third; the query is stored; then the second is activated
      again. */
  function ValueCalls(): seq<Call> {
    [Call(1, CreateRule(DraftOf(First()), "a"))] + LaunchCalls(Second(), 2, 6) + LaunchCalls(Third(), 7, 7)
    + [Call(8, EvaluateQuery(VALUE_QUERY, true, "d")), Call(9, ActivateRule("b", None))]
  }

  const A0 := RowOf(First(), 1, Draft, 1, None)
  const A1 := SupersededRow(A0, 6)
  const A2 := SupersededRow(A1, 9)
  const B1 := LaunchedRow(Second(), 2)
  const B2 := SupersededRow(B1, 7)
  const B3 := WithStatus(B2, Active)
  const C1 := LaunchedRow(Third(), 7)

  function ValueState(rules: seq<Rule>): State {
    Init("o").(rules := rules)
  }

  lemma FirstCreated()
    ensures Step(Init("o"), CreateRule(DraftOf(First()), "a"), 1) == ValueState([A0])
  {
    MarkingWellMade("a", None);
    Creates(Init("o"), First(), 1);
    assert [] + [A0] == [A0];
  }

  lemma FindSecond(a: Rule, b: Rule, rest: seq<Rule>)
    requires a.id == "a" && b.id == "b"
    ensures FindRule([a, b] + rest, "a") == Some(0) && FindRule([a, b] + rest, "b") == Some(1)
  {
    assert ([a, b] + rest)[1..][0] == b;
    assert FindRule(([a, b] + rest)[1..], "b") == Some(0);
  }

  lemma SecondCanLaunch()
    ensures CanCreate([A0], Second()) && Unblocked([A0], Second())
    ensures Supersede([A0], Some("a"), 6) == Some([A1])
  {
    assert FindRule([A0], "a") == Some(0);
    assert FindRule([A0][1..], "b") == None;
    assert [A0][0 := A1] == [A1];
  }

  lemma SecondLaunched()
    ensures RunCalls(ValueState([A0]), LaunchCalls(Second(), 2, 6)) == ValueState([A1, B1])
  {
    MarkingWellMade("b", Some("a"));
    SecondCanLaunch();
    assert [A1] + [B1] == [A1, B1];
    LaunchesTo(ValueState([A0]), Second(), 2, 6, [A0], [A1], ValueState([A1, B1]));
  }

  lemma ThirdCanLaunch()
    ensures CanCreate([A1, B1], Third()) && Unblocked([A1, B1], Third())
    ensures Supersede([A1, B1], Some("b"), 7) == Some([A1, B2])
  {
    FindSecond(A1, B1, []);
    assert [A1, B1] + [] == [A1, B1];
    assert FindRule([A1, B1][1..][1..], "c") == None && FindRule([A1, B1][1..], "c") == None;
    assert [A1, B1][1 := B2] == [A1, B2];
  }

  lemma ThirdLaunched()
    ensures RunCalls(ValueState([A1, B1]), LaunchCalls(Third(), 7, 7)) == ValueState([A1, B2, C1])
  {
    MarkingWellMade("c", Some("b"));
    ThirdCanLaunch();
    assert [A1, B2] + [C1] == [A1, B2, C1];
    LaunchesTo(ValueState([A1, B1]), Third(), 7, 7, [A1, B1], [A1, B2], ValueState([A1, B2, C1]));
  }

  /** The query lists the first two rules, whatever became of them, and not the third. */
  lemma ListsTwo(a: Rule, b: Rule)
    requires a.priority == b.priority == 0 && a.logicalKey == "a" && b.logicalKey == "b"
    requires RulePicked(a, None, Some(5)) && RulePicked(b, None, Some(5))
    ensures ActiveRules([a, b, C1], None, Some(5)) == [a, b] && OrderedRules([a, b]) == [a, b]
  {
    var p := RulePicker(None, Some(5));
    assert [a, b, C1][1..] == [b, C1] && [b, C1][1..] == [C1] && [C1][1..] == [];
    assert Filter(p, [C1]) == [] && Filter(p, [b, C1]) == [b] && Filter(p, [a, b, C1]) == [a, b];
    assert [a, b][1..] == [b];
    SortOne(b);
    assert StrLe("a", "b");
    assert RuleLe(a, b);
    assert [a] + [b] == [a, b];
  }

  lemma InactiveSkipped(run: Run, rule: Rule, rest: seq<Rule>, data: Data)
    requires rule.status != Active
    ensures RunRules(run, [rule] + rest, data) == RunRules(run, rest, data)
  {
    assert ([rule] + rest)[1..] == rest;
  }

  function ValueKey(): ResultKey {
    ResultKey("benefits", map[], VALUE_QUERY.context, "o", [("a", 1), ("b", 1)], ENGINE_VERSION)
  }

  lemma KeyOfTwo(s: State, a: Rule, b: Rule)
    requires s.ontology == "o" && s.rules == [a, b, C1]
    requires a.id == a.logicalKey == "a" && b.id == b.logicalKey == "b" && a.version == b.version == 1
    requires a.priority == b.priority == 0 && RulePicked(a, None, Some(5)) && RulePicked(b, None, Some(5))
    ensures RulesFor(s, VALUE_QUERY.context) == [a, b] && KeyOf(s, VALUE_QUERY) == ValueKey()
  {
    KnownAtFive(map["x" := Str("a")]);
    ListsTwo(a, b);
    assert Map(VersionOf, [a, b]) == [("a", 1), ("b", 1)];
  }

  lemma ValueStored()
    ensures FreshRun(ValueState([A1, B2, C1]), VALUE_QUERY) == Ok(START)
    ensures KeyOf(ValueState([A1, B2, C1]), VALUE_QUERY) == ValueKey()
  {
    var s := ValueState([A1, B2, C1]);
    KnownAtFive(map["x" := Str("a")]);
    KeyOfTwo(s, A1, B2);
    ListsTwo(A1, B2);
    var data := Snapshot(s, VALUE_QUERY);
    InactiveSkipped(START, A1, [B2], data);
    InactiveSkipped(START, B2, [], data);
    assert [A1] + [B2] == [A1, B2] && [B2] + [] == [B2];
  }

  function ValueMiddle(): State {
    Stored(ValueState([A1, B2, C1]), VALUE_QUERY, START, "d")
  }

  function ValueAfter(): State {
    ValueMiddle().(rules := [A2, B3, C1])
  }

  lemma SecondMayReturn()
    ensures MayActivate([A1, B2, C1], B2)
  {
    MarkingWellMade("b", Some("a"));
    assert ValidPayload(B2) && AllPassed(B2.tests);
    ActiveRulesExactly([A1, B2, C1], None, None);
    forall item | item in ActiveRules([A1, B2, C1], None, None) ensures !SameKeyBlocks(B2, item) && !ConflictBlocks(B2, item) {
      assert item == C1;
      SameMarksAgree(B2, C1);
    }
  }

  lemma SecondReturns()
    ensures Activated([A1, B2, C1], "b", None, 9) == Some([A2, B3, C1])
    ensures FindRule([A1, B2, C1], "b") == Some(1)
  {
    SecondMayReturn();
    FindSecond(A1, B2, [C1]);
    assert [A1, B2] + [C1] == [A1, B2, C1];
    assert [A1, B2, C1][0 := A2] == [A2, B2, C1];
    assert [A2, B2, C1][1 := B3] == [A2, B3, C1];
  }

  lemma ReturnStep()
    ensures Step(ValueMiddle(), ActivateRule("b", None), 9) == ValueAfter()
  {
    SecondReturns();
    HangsOnCatalog(START, "o", "d", ValueMiddle().edges, ActivationNode(B2));
    QuietActivation(ValueMiddle(), 1, B2, 9, [A2, B3, C1]);
    ActivationOutcome(ValueMiddle(), "b", None, 9);
    OutcomeIsStep(ValueMiddle(), ActivateRule("b", None), 9, Some(ValueAfter()));
  }

  lemma LastCallsRun()
    ensures RunCalls(ValueState([A1, B2, C1]), [Call(8, EvaluateQuery(VALUE_QUERY, true, "d")), Call(9, ActivateRule("b", None))])
         == ValueAfter()
  {
    ValueStored();
    Stores(ValueState([A1, B2, C1]), VALUE_QUERY, "d", 8);
    ReturnStep();
    TwoCalls(ValueState([A1, B2, C1]), ValueMiddle(), ValueAfter(), Call(8, EvaluateQuery(VALUE_QUERY, true, "d")),
             Call(9, ActivateRule("b", None)));
  }

  lemma ValueCallsRun()
    ensures RunCalls(Init("o"), ValueCalls()) == ValueAfter()
  {
    var create := [Call(1, CreateRule(DraftOf(First()), "a"))];
    FirstCreated();
    OneCall(Init("o"), ValueState([A0]), create[0]);
    SecondLaunched();
    Composed(Init("o"), create, ValueState([A0]), LaunchCalls(Second(), 2, 6), ValueState([A1, B1]));
    ThirdLaunched();
    Composed(Init("o"), create + LaunchCalls(Second(), 2, 6), ValueState([A1, B1]), LaunchCalls(Third(), 7, 7),
             ValueState([A1, B2, C1]));
    LastCallsRun();
    Composed(Init("o"), create + LaunchCalls(Second(), 2, 6) + LaunchCalls(Third(), 7, 7), ValueState([A1, B2, C1]),
             [Call(8, EvaluateQuery(VALUE_QUERY, true, "d")), Call(9, ActivateRule("b", None))], ValueAfter());
  }

  lemma MarkingFires(run: Run, rule: Rule, data: Data)
    requires rule.status == Active && rule.condition == Bool(true) && rule.exceptions == [] && rule.effects == [MARK]
    requires ScopeMatches(rule.scope, data.context)
    ensures RunRule(run, rule, data).Ok? && RunRule(run, rule, data).value.acc == run.acc.(eligible := Some(true))
  {
    assert TypeOf(MARK.fields) == MarkEligible && TargetOf(MARK.fields) == Ok("t");
    var applied := ApplyEffect(run.acc, MARK, rule.priority, data);
    assert applied == Ok(Applied(run.acc.(eligible := Some(true)), Entry("MARK_ELIGIBLE", "t", Bool(true))));
    assert rule.effects[1..] == [];
    assert ApplyEffects(applied.value.result, [] + [applied.value.trace], rule.effects[1..], rule.priority, data).Ok?;
    assert Evaluate(rule.condition, data) == Ok(Trace(Bool(true), {}, []));
    assert CheckExceptions({}, [], rule.exceptions, data) == Ok(Trace(Bool(false), {}, []));
  }

  /** The first rule is passed over and the second fires. */
  lemma SecondFires(data: Data)
    requires data.context == VALUE_QUERY.context
    ensures RunEngine([A2, B3], data).Ok? && RunEngine([A2, B3], data).value.acc.eligible == Some(true)
  {
    KnownAtFive(map["x" := Str("a")]);
    ListsTwo(A2, B3);
    assert ValueMatches(Str("a"), Get(data.context, "x"));
    assert ScopeMatches(B3.scope, data.context);
    InactiveSkipped(START, A2, [B3], data);
    assert [A2] + [B3] == [A2, B3] && [B3][1..] == [];
    MarkingFires(START, B3, data);
    assert RunRules(START, [B3], data) == RunRules(RunRule(START, B3, data).value, [], data);
  }

  lemma ValueListed()
    ensures KeyOf(ValueAfter(), VALUE_QUERY) == ValueKey() && RulesFor(ValueAfter(), VALUE_QUERY.context) == [A2, B3]
  {
    KnownAtFive(map["x" := Str("a")]);
    KeyOfTwo(ValueAfter(), A2, B3);
  }

  lemma ValueFresh()
    ensures FreshRun(ValueAfter(), VALUE_QUERY).Ok? && FreshRun(ValueAfter(), VALUE_QUERY).value.acc.eligible == Some(true)
  {
    ValueListed();
    KnownAtFive(map["x" := Str("a")]);
    SecondFires(Snapshot(ValueAfter(), VALUE_QUERY));
  }

  lemma SecondReactivated()
    ensures !NoneReactivated(ValueAfter(), VALUE_QUERY)
  {
    ValueListed();
    assert B3 in RulesFor(ValueAfter(), VALUE_QUERY.context);
    assert B3.status == Active && B3.knownTo == Some(7);
  }

  lemma ValueHit()
    ensures Hits(ValueAfter(), VALUE_QUERY, "e") && Hit(ValueAfter(), VALUE_QUERY, "e") == START
    ensures !NoneReactivated(ValueAfter(), VALUE_QUERY)
  {
    ValueStored();
    ValueListed();
    KnownAtFive(map["x" := Str("a")]);
    HitsOnlyRow(ValueAfter(), VALUE_QUERY, "e");
    SecondReactivated();
  }

  /** A stale value: a superseded rule that is activated again, with a predecessor, makes the historical answer stored in
      between differ from a fresh run in its eligibility. */
  lemma ReactivationLeavesStaleValue()
    ensures var s := RunCalls(Init("o"), ValueCalls());
            && Hits(s, VALUE_QUERY, "e") && !NoneReactivated(s, VALUE_QUERY)
            && Hit(s, VALUE_QUERY, "e").acc.eligible == None
            && FreshRun(s, VALUE_QUERY).Ok? && FreshRun(s, VALUE_QUERY).value.acc.eligible == Some(true)
  {
    ValueCallsRun();
    ValueHit();
    ValueFresh();
  }
}
