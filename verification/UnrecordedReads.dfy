/** A run of service calls after which a cached answer misses a fact, because an effect value read it. */
module UnrecordedReads {
  import opened Prelude
  import opened Json
  import opened Dsl
  import opened Graph
  import opened Evaluator
  import opened Rules
  import opened Sorting
  import opened Engine
  import opened FactStore
  import opened RuleStore
  import opened Core
  import opened CacheHits
  import opened Scenarios
  import opened Limits

  const READ_QUERY := Query("benefits", map[], map["x" := Str("a")])

  function Copier(property: string): Spec {
    Spec("r", "r", map["x" := Str("a")], [SetTo("t", FactReader(property))], None, map[])
  }

  function FactOfValue(property: string, value: Json): FactWrite {
    FactWrite("s", property, value, None, None, false, true)
  }

  /** The rule is launched, the query is stored, then the fact is written. */
  function ReadCalls(property: string, value: Json): seq<Call> {
    LaunchCalls(Copier(property), 1, 1)
    + [Call(2, EvaluateQuery(READ_QUERY, true, "d")), Call(3, WriteFact(FactOfValue(property, value), "f"))]
  }

  lemma CopierWellMade(property: string)
    ensures WellMade(Copier(property))
  {
    var reader, effect := FactReader(property), SetTo("t", FactReader(property));
    assert FormOf(reader.fields) == FactForm && Problems(reader, 0, MAX_DEPTH) == [];
    assert TypeOf(effect.fields) == SetEffect && Get(effect.fields, "value") == reader;
    assert EffectProblems(effect) == [];
    assert !ValueMatches(Str("a"), Get(map[], "x"));
    SpecWellMade(Copier(property));
  }

  function CopierRow(property: string): Rule {
    LaunchedRow(Copier(property), 1)
  }

  lemma CopierCopies(property: string)
    ensures Copies(CopierRow(property), property, READ_QUERY.context)
  {
    assert ValueMatches(Str("a"), Get(READ_QUERY.context, "x"));
  }

  function ReadBefore(property: string): State {
    Init("o").(rules := [CopierRow(property)])
  }

  lemma CopierLaunched(property: string)
    ensures RunCalls(Init("o"), LaunchCalls(Copier(property), 1, 1)) == ReadBefore(property)
  {
    CopierWellMade(property);
    assert [] + [CopierRow(property)] == [CopierRow(property)];
    LaunchesTo(Init("o"), Copier(property), 1, 1, [], [], ReadBefore(property));
  }

  /** While the rule is the only one, the query lists it and runs it on the current facts. */
  lemma CopierListed(s: State, property: string)
    requires s.rules == [CopierRow(property)]
    ensures RulesFor(s, READ_QUERY.context) == [CopierRow(property)] && InstantsReadable(READ_QUERY.context)
    ensures FreshRun(s, READ_QUERY).Ok? && FreshRun(s, READ_QUERY).value.deps == {}
    ensures FreshRun(s, READ_QUERY).value.acc.scalars == map["t" := FirstValue(Snapshot(s, READ_QUERY), property)]
  {
    var rule := CopierRow(property);
    assert RulePicked(rule, None, None);
    assert Filter(RulePicker(None, None), [rule]) == [rule] by {
      assert [rule][1..] == [];
    }
    SortOne(rule);
    CopierCopies(property);
    CopyingRuleRuns(rule, property, Snapshot(s, READ_QUERY));
  }

  function ReadRun(property: string): Run
    requires FreshRun(ReadBefore(property), READ_QUERY).Ok?
  {
    FreshRun(ReadBefore(property), READ_QUERY).value
  }

  function ReadMiddle(property: string): State
    requires FreshRun(ReadBefore(property), READ_QUERY).Ok?
  {
    Stored(ReadBefore(property), READ_QUERY, ReadRun(property), "d")
  }

  function ReadAfter(property: string, value: Json): State
    requires FreshRun(ReadBefore(property), READ_QUERY).Ok?
  {
    ReadMiddle(property).(facts := [FactRow(NewFact(FactOfValue(property, value), "f", 3), None)])
  }

  lemma NothingHangs(s: State, nodes: set<Node>)
    requires forall n :: n in nodes ==> NoEdgesFrom(s.edges, n)
    ensures InvalidatedAll(s, nodes) == Some(s)
  {
    forall n | n in nodes ensures !Unbounded(s.edges, n) && AffectedIds(s.edges, n) == {} {
      FindsNothing(s.edges, n);
    }
    assert AllAffected(s.edges, nodes) == {};
    assert InvalidateRows(s.derived, {}) == s.derived;
  }

  /** The first fact of an empty table replaces nothing. */
  lemma FirstFact(w: FactWrite, id: string, now: int)
    requires w.admissible && !w.fromObservation && w.subject != "" && w.property != ""
    ensures Accepts([], w, id) && Recorded([], w, id, now) == [FactRow(NewFact(w, id, now), None)]
    ensures WriteNodes([], w) == SelectorNodes(w.property)
  {
    assert ListFacts([], Str(w.subject), w.property, None, None) == [];
    assert [] + [FactRow(NewFact(w, id, now), None)] == [FactRow(NewFact(w, id, now), None)];
  }

  lemma SelectorsHaveNoEdges(property: string)
    requires FreshRun(ReadBefore(property), READ_QUERY).Ok? && ReadRun(property).deps == {}
    ensures forall n :: n in SelectorNodes(property) ==> NoEdgesFrom(ReadMiddle(property).edges, n)
  {
  }

  lemma FactWrittenAfter(property: string, value: Json)
    requires property != "" && FreshRun(ReadBefore(property), READ_QUERY).Ok? && ReadRun(property).deps == {}
    ensures FactWritten(ReadMiddle(property), FactOfValue(property, value), "f", 3) == Some(ReadAfter(property, value))
  {
    FirstFact(FactOfValue(property, value), "f", 3);
    SelectorsHaveNoEdges(property);
    NothingHangs(ReadAfter(property, value), SelectorNodes(property));
  }

  lemma WriteStep(property: string, value: Json)
    requires property != "" && FreshRun(ReadBefore(property), READ_QUERY).Ok? && ReadRun(property).deps == {}
    ensures Step(ReadMiddle(property), WriteFact(FactOfValue(property, value), "f"), 3) == ReadAfter(property, value)
  {
    FactWrittenAfter(property, value);
    WriteOutcome(ReadMiddle(property), FactOfValue(property, value), "f", 3);
    OutcomeIsStep(ReadMiddle(property), WriteFact(FactOfValue(property, value), "f"), 3, Some(ReadAfter(property, value)));
  }

  lemma WriteOutcome(s: State, w: FactWrite, id: string, now: int)
    ensures Outcome(s, WriteFact(w, id), now) == FactWritten(s, w, id, now)
  {
    var request := WriteFact(w, id);
    assert request.WriteFact? && request.w == w && request.id == id;
  }

  lemma ReadCallsRun(property: string, value: Json)
    requires property != ""
    ensures FreshRun(ReadBefore(property), READ_QUERY).Ok? && ReadRun(property).acc.scalars == map["t" := Null]
    ensures RunCalls(Init("o"), ReadCalls(property, value)) == ReadAfter(property, value)
  {
    CopierLaunched(property);
    CopierListed(ReadBefore(property), property);
    EmptySnapshot(ReadBefore(property), READ_QUERY);
    Stores(ReadBefore(property), READ_QUERY, "d", 2);
    WriteStep(property, value);
    var store, write := Call(2, EvaluateQuery(READ_QUERY, true, "d")), Call(3, WriteFact(FactOfValue(property, value), "f"));
    TwoCalls(ReadBefore(property), ReadMiddle(property), ReadAfter(property, value), store, write);
    Composed(Init("o"), LaunchCalls(Copier(property), 1, 1), ReadBefore(property), [store, write], ReadAfter(property, value));
  }

  lemma FactIsFirst(s: State, w: FactWrite)
    requires s.facts == [FactRow(NewFact(w, "f", 3), None)] && w.validFrom.None? && w.validTo.None?
    ensures FirstValue(Snapshot(s, READ_QUERY), w.property) == w.value
  {
    var row := s.facts[0];
    assert Get(READ_QUERY.context, "subject_id") == Null;
    assert FactPicked(row, Null, "", None) && KnownAt(row.fact.knownFrom, row.knownTo, None);
    assert s.facts[1..] == [];
    assert Filter(Picker(Null, "", None, None), s.facts) == [row];
    assert Map(FactOf, [row]) == [row.fact];
    assert [row.fact][1..] == [];
    assert Sort(FactLe, [row.fact][1..]) == [] && Sort(FactLe, [row.fact]) == [row.fact];
    assert Get(READ_QUERY.context, "valid_at") == Null && Get(READ_QUERY.context, "known_at") == Null;
    assert Snapshot(s, READ_QUERY).facts == [row.fact];
    assert MatchesPattern(row.fact.property, w.property);
  }

  lemma ReadHit(property: string, value: Json)
    requires FreshRun(ReadBefore(property), READ_QUERY).Ok?
    ensures var s := ReadAfter(property, value); Hits(s, READ_QUERY, "e") && Hit(s, READ_QUERY, "e") == ReadRun(property)
  {
    CopierListed(ReadBefore(property), property);
    CopierListed(ReadAfter(property, value), property);
    HitsOnlyRow(ReadAfter(property, value), READ_QUERY, "e");
  }

  /** An unrecorded read: a fact written after the answer was stored is invisible to the cache. The cached answer differs
      from a fresh run exactly when the value is not null. */
  lemma UnrecordedReadLeavesStaleValue(property: string, value: Json)
    requires property != ""
    ensures var s := RunCalls(Init("o"), ReadCalls(property, value));
            && Hits(s, READ_QUERY, "e") && FreshRun(s, READ_QUERY).Ok?
            && Hit(s, READ_QUERY, "e").acc.scalars == map["t" := Null]
            && FreshRun(s, READ_QUERY).value.acc.scalars == map["t" := value]
            && (Hit(s, READ_QUERY, "e").acc.scalars == FreshRun(s, READ_QUERY).value.acc.scalars <==> value == Null)
  {
    ReadCallsRun(property, value);
    ReadHit(property, value);
    CopierListed(ReadAfter(property, value), property);
    FactIsFirst(ReadAfter(property, value), FactOfValue(property, value));
    assert map["t" := Null]["t"] == Null && map["t" := value]["t"] == value;
  }
}
