/** What holds in every store the services can reach from the empty one, over whole runs of calls. */
module Reachable {
  import opened Prelude
  import opened Json
  import opened Graph
  import opened Evaluator
  import opened EvaluatorProofs
  import opened Rules
  import opened Sorting
  import opened Engine
  import opened EngineProofs
  import opened ClosedForm
  import opened Ties
  import opened FactStore
  import opened RuleStore
  import opened RuleStoreProofs
  import opened Core
  import opened CacheProofs

  lemma ReachableKeepsInvariant(ontology: string, calls: seq<Call>)
    ensures Invariant(RunCalls(Init(ontology), calls))
  {
    RunsKeepInvariant(Init(ontology), calls);
  }

  lemma {:induction false} RunCallsAppend(s: State, a: seq<Call>, b: seq<Call>)
    ensures RunCalls(s, a + b) == RunCalls(RunCalls(s, a), b)
    decreases |a|
  {
    if a == [] {
      assert a + b == b;
    } else {
      assert (a + b)[1..] == a[1..] + b;
      RunCallsAppend(Step(s, a[0].request, a[0].now), a[1..], b);
    }
  }

  lemma RunSplits(s: State, calls: seq<Call>, k: nat)
    requires k <= |calls|
    ensures RunCalls(s, calls) == RunCalls(RunCalls(s, calls[..k]), calls[k..])
  {
    assert calls == calls[..k] + calls[k..];
    RunCallsAppend(s, calls[..k], calls[k..]);
  }

  // ---- rules ----

  /** In every reachable store the order of tied rules in force never decides what a target is left with, whichever of them
      take part, exactly when no two of them clash on the target unseen by the activation guard. */
  lemma ReachableTiesExactly(ontology: string, calls: seq<Call>, validAt: Option<int>, target: string, data: Data)
    ensures var active := ActiveRules(RunCalls(Init(ontology), calls).rules, validAt, None);
            OrderFree(active, target, data) <==> NoHiddenClash(active, target, data)
  {
    ReachableKeepsInvariant(ontology, calls);
    TiesHarmlessExactly(RunCalls(Init(ontology), calls).rules, validAt, target, data);
  }

  /** Then any order of the rules in force that descends in priority gives the same scalars, for any query. */
  lemma ReachableTiesHarmless(ontology: string, calls: seq<Call>, validAt: Option<int>, order: seq<Rule>, data: Data)
    requires var active := ActiveRules(RunCalls(Init(ontology), calls).rules, validAt, None);
             && multiset(order) == multiset(active) && Sorted(PriorityLe, order)
             && forall t: string :: NoHiddenClash(active, t, data)
    ensures var active := ActiveRules(RunCalls(Init(ontology), calls).rules, validAt, None);
            && (RunRules(START, order, data).Ok? <==> RunEngine(active, data).Ok?)
            && (RunEngine(active, data).Ok? ==>
                  RunRules(START, order, data).value.acc.scalars == RunEngine(active, data).value.acc.scalars)
  {
    var rules := RunCalls(Init(ontology), calls).rules;
    var active := ActiveRules(rules, validAt, None);
    ReachableKeepsInvariant(ontology, calls);
    SortPermutes(RuleLe, active);
    SortKeeps(RuleLe, active);
    OrderedRulesDescend(active);
    forall t: string ensures TiesCommute(OrderedRules(active), t, data) {
      CommuteUnlessHidden(rules, validAt, t, data);
    }
    TiesHarmless(OrderedRules(active), order, data);
  }

  /** Validated rules do not get stuck: on the rules any query of any reachable store lists, historical or not, the engine
      answers or reports a type mismatch, whatever the facts, relations, context and applicant. */
  lemma ReachableEngineNeverStuck(ontology: string, calls: seq<Call>, validAt: Option<int>, knownAt: Option<int>, data: Data)
    ensures Unstuck(RunEngine(ActiveRules(RunCalls(Init(ontology), calls).rules, validAt, knownAt), data))
  {
    var rules := RunCalls(Init(ontology), calls).rules;
    ReachableKeepsInvariant(ontology, calls);
    ActiveRulesExactly(rules, validAt, knownAt);
    forall r | r in ActiveRules(rules, validAt, knownAt) ensures ValidIfActive(r) {
      var i :| 0 <= i < |rules| && rules[i] == r;
      assert Qualified(rules[i]);
    }
    ValidEngineNeverStuck(ActiveRules(rules, validAt, knownAt), data);
  }

  lemma {:induction false} RunKeepsRuleHistory(s: State, calls: seq<Call>)
    ensures RuleHistory(s.rules, RunCalls(s, calls).rules)
    decreases |calls|
  {
    if calls != [] {
      var next := Step(s, calls[0].request, calls[0].now);
      RequestIsRuleStep(s, calls[0].request, calls[0].now);
      StepKeepsHistory(s.rules, next.rules);
      RunKeepsRuleHistory(next, calls[1..]);
      HistoryTransitive(s.rules, next.rules, RunCalls(next, calls[1..]).rules);
    }
  }

  /** Rule-store safety over whole runs: at most one rule per logical key is in force, a superseded rule is never in
      force again, and nothing but lifecycle columns and test outcomes changes after creation. */
  lemma RuleStoreSafety(ontology: string, calls: seq<Call>, k: nat)
    requires k <= |calls|
    ensures var earlier := RunCalls(Init(ontology), calls[..k]).rules;
            var later := RunCalls(Init(ontology), calls).rules;
            && |earlier| <= |later|
            && (forall i :: 0 <= i < |earlier| ==> Content(later[i]) == Content(earlier[i]))
            && (forall i :: 0 <= i < |earlier| && earlier[i].knownTo.Some? ==> !InForce(later[i]))
            && (forall i, j :: 0 <= i < |later| && 0 <= j < |later| && InForce(later[i]) && InForce(later[j])
                               && later[i].logicalKey == later[j].logicalKey
                               ==> i == j)
  {
    RunSplits(Init(ontology), calls, k);
    RunKeepsRuleHistory(RunCalls(Init(ontology), calls[..k]), calls[k..]);
    ReachableKeepsInvariant(ontology, calls);
    var later := RunCalls(Init(ontology), calls).rules;
    forall i, j | 0 <= i < |later| && 0 <= j < |later| && InForce(later[i]) && InForce(later[j])
                  && later[i].logicalKey == later[j].logicalKey
      ensures i == j
    {
      assert i != j ==> Coexist(later[i], later[j]);
    }
  }

  /** Every rule in force passes each of its persisted tests, of which it has at least one, when they are run now. */
  lemma RulesInForcePassTheirTests(ontology: string, calls: seq<Call>, i: nat)
    requires i < |RunCalls(Init(ontology), calls).rules| && InForce(RunCalls(Init(ontology), calls).rules[i])
    ensures var rule := RunCalls(Init(ontology), calls).rules[i];
            rule.tests != [] && forall t :: 0 <= t < |rule.tests| ==> RunTest(rule, rule.tests[t]) == Ok(true)
  {
    ReachableKeepsInvariant(ontology, calls);
    var rule := RunCalls(Init(ontology), calls).rules[i];
    assert Qualified(rule) && TestsTruthful(rule);
  }

  // ---- derived results ----

  /** Rows are only appended, keep their content, and change status at most once, from VALID to INVALIDATED. */
  predicate RowsContinue(earlier: seq<DerivedRow>, later: seq<DerivedRow>) {
    && |earlier| <= |later|
    && forall i :: 0 <= i < |earlier| ==> later[i] == earlier[i] || later[i] == earlier[i].(status := INVALIDATED)
  }

  lemma StepContinuesRows(s: State, request: Request, now: int)
    ensures RowsContinue(s.derived, Step(s, request, now).derived)
  {
  }

  lemma {:induction false} RunContinuesRows(s: State, calls: seq<Call>)
    ensures RowsContinue(s.derived, RunCalls(s, calls).derived)
    decreases |calls|
  {
    if calls != [] {
      var next := Step(s, calls[0].request, calls[0].now);
      StepContinuesRows(s, calls[0].request, calls[0].now);
      RunContinuesRows(next, calls[1..]);
    }
  }

  lemma RaisesByRows(s: State, q: Query, newId: string)
    requires FreshRun(s, q).Ok? && DistinctRows(s.derived)
    ensures Evaluated(s, q, true, newId) == None
            <==> || (exists row :: row in s.derived && row.key == KeyOf(s, q) && row.status != VALID)
                 || ((forall row :: row in s.derived ==> row.key != KeyOf(s, q)) && exists row :: row in s.derived && row.id == newId)
  {
    var found := FindDerived(s.derived, KeyOf(s, q));
    if found.Some? {
      assert s.derived[found.value] in s.derived;
      forall row | row in s.derived && row.key == KeyOf(s, q) ensures row == s.derived[found.value] {
        var i :| 0 <= i < |s.derived| && s.derived[i] == row;
        assert i == found.value;
      }
    } else {
      forall row | row in s.derived ensures row.key != KeyOf(s, q) {
        var i :| 0 <= i < |s.derived| && s.derived[i] == row;
      }
      IdUsedExactly(s.derived, newId);
    }
  }

  /** In every reachable store a persisted query raises, once the engine has answered, exactly when its key has a row that is
      not VALID or, for a new key, some row has the new id. */
  lemma PersistingRaisesExactly(ontology: string, calls: seq<Call>, q: Query, newId: string)
    requires FreshRun(RunCalls(Init(ontology), calls), q).Ok?
    ensures var s := RunCalls(Init(ontology), calls);
            Evaluated(s, q, true, newId) == None
            <==> || (exists row :: row in s.derived && row.key == KeyOf(s, q) && row.status != VALID)
                 || ((forall row :: row in s.derived ==> row.key != KeyOf(s, q)) && exists row :: row in s.derived && row.id == newId)
  {
    ReachableKeepsInvariant(ontology, calls);
    RaisesByRows(RunCalls(Init(ontology), calls), q, newId);
  }

  lemma IdUsedExactly(derived: seq<DerivedRow>, id: string)
    ensures DerivedIdUsed(derived, id) <==> exists row :: row in derived && row.id == id
  {
    if DerivedIdUsed(derived, id) {
      var i :| 0 <= i < |derived| && derived[i].id == id;
      assert derived[i] in derived;
    }
    if row :| row in derived && row.id == id {
      var i :| 0 <= i < |derived| && derived[i] == row;
    }
  }

  /** Once invalidated a result stays so: over every run the row never changes again, and no later persisted query with
      its key is answered. */
  lemma InvalidatedForGood(ontology: string, calls: seq<Call>, k: nat, i: nat, q: Query, newId: string)
    requires k <= |calls| && i < |RunCalls(Init(ontology), calls[..k]).derived|
    requires RunCalls(Init(ontology), calls[..k]).derived[i].status == INVALIDATED
    ensures var earlier, later := RunCalls(Init(ontology), calls[..k]), RunCalls(Init(ontology), calls);
            && i < |later.derived| && later.derived[i] == earlier.derived[i]
            && (KeyOf(later, q) == earlier.derived[i].key ==> Evaluated(later, q, true, newId) == None)
  {
    RunSplits(Init(ontology), calls, k);
    RunContinuesRows(RunCalls(Init(ontology), calls[..k]), calls[k..]);
    ReachableKeepsInvariant(ontology, calls);
  }

  // ---- facts ----

  /** The clock never runs backwards. */
  predicate Nondecreasing(calls: seq<Call>) {
    forall i, j :: 0 <= i <= j < |calls| ==> calls[i].now <= calls[j].now
  }

  /** How many calls happened at or before the instant. */
  function CallsUntil(calls: seq<Call>, t: int): (k: nat)
    ensures k <= |calls|
    ensures forall i :: 0 <= i < k ==> calls[i].now <= t
    ensures k < |calls| ==> t < calls[k].now
  {
    if calls == [] || t < calls[0].now then 0 else 1 + CallsUntil(calls[1..], t)
  }

  lemma StepIsFactStep(s: State, request: Request, now: int)
    ensures FactStep(s.facts, Step(s, request, now).facts, now)
  {
    if request.WriteFact? && FactWritten(s, request.w, request.id, now).Some? {
      assert Accepts(s.facts, request.w, request.id);
    }
  }

  lemma {:induction false} RunStaysSettled(s: State, calls: seq<Call>, t: int)
    requires Settled(s.facts, t) && forall i :: 0 <= i < |calls| ==> calls[i].now <= t
    ensures Settled(RunCalls(s, calls).facts, t)
    decreases |calls|
  {
    if calls != [] {
      var next := Step(s, calls[0].request, calls[0].now);
      StepIsFactStep(s, calls[0].request, calls[0].now);
      StepStaysSettled(s.facts, next.facts, calls[0].now, t);
      RunStaysSettled(next, calls[1..], t);
    }
  }

  lemma {:induction false} RunContinues(earlier: seq<FactRow>, s: State, calls: seq<Call>, t: int)
    requires ContinuedAfter(earlier, s.facts, t) && forall i :: 0 <= i < |calls| ==> t < calls[i].now
    ensures ContinuedAfter(earlier, RunCalls(s, calls).facts, t)
    decreases |calls|
  {
    if calls != [] {
      var next := Step(s, calls[0].request, calls[0].now);
      StepIsFactStep(s, calls[0].request, calls[0].now);
      StepContinues(earlier, s.facts, next.facts, calls[0].now, t);
      RunContinues(earlier, next, calls[1..], t);
    }
  }

  /** The table after the last call at or before the instant, and how the final table continues it. */
  lemma HistoryAt(ontology: string, calls: seq<Call>, t: int)
    requires Nondecreasing(calls)
    ensures var past := RunCalls(Init(ontology), calls[..CallsUntil(calls, t)]).facts;
            Settled(past, t) && ContinuedAfter(past, RunCalls(Init(ontology), calls).facts, t)
  {
    var k := CallsUntil(calls, t);
    var middle := RunCalls(Init(ontology), calls[..k]);
    RunSplits(Init(ontology), calls, k);
    RunStaysSettled(Init(ontology), calls[..k], t);
    RunContinues(middle.facts, middle, calls[k..], t);
  }

  /** Time travel: for every run under a clock that never goes back, the query as known at an instant equals the
      current query on the store after the last call at or before that instant. */
  lemma TimeTravel(ontology: string, calls: seq<Call>, t: int, subject: Json, property: string, validAt: Option<int>)
    requires Nondecreasing(calls)
    ensures ListFacts(RunCalls(Init(ontology), calls).facts, subject, property, validAt, Some(t))
         == ListFacts(RunCalls(Init(ontology), calls[..CallsUntil(calls, t)]).facts, subject, property, validAt, None)
  {
    HistoryAt(ontology, calls, t);
    QueryAsKnownAt(RunCalls(Init(ontology), calls[..CallsUntil(calls, t)]).facts, RunCalls(Init(ontology), calls).facts, t,
                   subject, property, validAt);
  }

  /** Single open version: in every reachable table at most one row per subject, property and valid start is open, and
      at any instant at most one is visible. */
  lemma SingleVersion(ontology: string, calls: seq<Call>, knownAt: Option<int>, i: nat, j: nat)
    requires knownAt.Some? ==> Nondecreasing(calls)
    requires var rows := RunCalls(Init(ontology), calls).facts;
             && i < |rows| && j < |rows| && SameSlot(rows[i].fact, rows[j].fact)
             && KnownAt(rows[i].fact.knownFrom, rows[i].knownTo, knownAt)
             && KnownAt(rows[j].fact.knownFrom, rows[j].knownTo, knownAt)
    ensures i == j
  {
    ReachableKeepsInvariant(ontology, calls);
    if knownAt.Some? {
      var k := CallsUntil(calls, knownAt.value);
      ReachableKeepsInvariant(ontology, calls[..k]);
      HistoryAt(ontology, calls, knownAt.value);
      OneVersionVisible(RunCalls(Init(ontology), calls[..k]).facts, RunCalls(Init(ontology), calls).facts, knownAt.value, i, j);
    }
  }

  // ---- relations ----

  predicate RelationsKnownBy(relations: seq<Relation>, t: int) {
    forall i :: 0 <= i < |relations| ==> relations[i].knownFrom <= t
  }

  /** later is earlier with relations appended after the instant. */
  predicate RelationsAppended(earlier: seq<Relation>, later: seq<Relation>, t: int) {
    && |earlier| <= |later| && later[..|earlier|] == earlier
    && forall i :: |earlier| <= i < |later| ==> t < later[i].knownFrom
  }

  lemma StepAppendsRelations(s: State, request: Request, now: int)
    ensures var next := Step(s, request, now).relations;
            next == s.relations || exists r: Relation :: r.knownFrom == now && next == s.relations + [r]
  {
    if request.CreateRelation? && Step(s, request, now).relations != s.relations {
      assert Step(s, request, now).relations == s.relations + [request.r.(knownFrom := now)];
    }
  }

  lemma {:induction false} RunKnowsRelations(s: State, calls: seq<Call>, t: int)
    requires RelationsKnownBy(s.relations, t) && forall i :: 0 <= i < |calls| ==> calls[i].now <= t
    ensures RelationsKnownBy(RunCalls(s, calls).relations, t)
    decreases |calls|
  {
    if calls != [] {
      StepAppendsRelations(s, calls[0].request, calls[0].now);
      RunKnowsRelations(Step(s, calls[0].request, calls[0].now), calls[1..], t);
    }
  }

  lemma {:induction false} RunAppendsRelations(earlier: seq<Relation>, s: State, calls: seq<Call>, t: int)
    requires RelationsAppended(earlier, s.relations, t) && forall i :: 0 <= i < |calls| ==> t < calls[i].now
    ensures RelationsAppended(earlier, RunCalls(s, calls).relations, t)
    decreases |calls|
  {
    if calls != [] {
      StepAppendsRelations(s, calls[0].request, calls[0].now);
      RunAppendsRelations(earlier, Step(s, calls[0].request, calls[0].now), calls[1..], t);
    }
  }

  lemma {:induction false} SameRelations(earlier: seq<Relation>, later: seq<Relation>, t: int, subject: Json, validAt: Option<int>)
    requires RelationsKnownBy(earlier, t) && RelationsAppended(earlier, later, t)
    ensures Filter(RelationPicker(subject, validAt, Some(t)), later) == Filter(RelationPicker(subject, validAt, None), earlier)
    decreases |later|
  {
    if earlier != [] {
      assert later[0] == earlier[0] && later[1..][..|earlier[1..]|] == earlier[1..];
      SameRelations(earlier[1..], later[1..], t, subject, validAt);
    } else if later != [] {
      SameRelations(earlier, later[1..], t, subject, validAt);
    }
  }

  /** Time travel holds for relations too. */
  lemma RelationTimeTravel(ontology: string, calls: seq<Call>, t: int, subject: Json, validAt: Option<int>)
    requires Nondecreasing(calls)
    ensures ListRelations(RunCalls(Init(ontology), calls).relations, subject, validAt, Some(t))
         == ListRelations(RunCalls(Init(ontology), calls[..CallsUntil(calls, t)]).relations, subject, validAt, None)
  {
    var k := CallsUntil(calls, t);
    var past := RunCalls(Init(ontology), calls[..k]);
    RunSplits(Init(ontology), calls, k);
    RunKnowsRelations(Init(ontology), calls[..k], t);
    RunAppendsRelations(past.relations, past, calls[k..], t);
    SameRelations(past.relations, RunCalls(Init(ontology), calls).relations, t, subject, validAt);
  }

  // ---- dependency edges ----

  lemma SinkReachesOnlyItself(edges: set<Edge>, id: string)
    requires ResultsAreSinks(edges)
    ensures ReachSet(Pairs(edges), Node(Derived, id)) == {Node(Derived, id)}
  {
    var n := Node(Derived, id);
    ReachesItself(Pairs(edges), n);
    forall m | Reaches(Pairs(edges), n, m) ensures m == n {
      ClosedHoldsReached(Pairs(edges), {n}, n, m);
    }
  }

  lemma SinkAffectsNothing(edges: set<Edge>, id: string)
    requires ResultsAreSinks(edges)
    ensures !Unbounded(edges, Node(Derived, id)) && AffectedIds(edges, Node(Derived, id)) == {}
  {
    SinkReachesOnlyItself(edges, id);
    forall other ensures !Affected(edges, Node(Derived, id), other) {
      assert Reaches(Pairs(edges), Node(Derived, id), Node(Derived, other)) ==>
          Node(Derived, other) in ReachSet(Pairs(edges), Node(Derived, id));
    }
  }

  /** Invalidating a result by its own id changes nothing in any reachable store: no edge leaves a result, and the
      traversal never marks its source. */
  lemma InvalidatingAResultChangesNothing(ontology: string, calls: seq<Call>, id: string)
    ensures var s := RunCalls(Init(ontology), calls); Invalidated(s, Node(Derived, id)) == Some(s)
  {
    ReachableKeepsInvariant(ontology, calls);
    var s := RunCalls(Init(ontology), calls);
    SinkAffectsNothing(s.edges, id);
    assert InvalidateRows(s.derived, {}) == s.derived;
  }
}
