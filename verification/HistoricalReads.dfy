/** What an evaluation reads, and that a historical one reads the past: later writes do not change its answer. */
module HistoricalReads {
  import opened Prelude
  import opened Json
  import opened Evaluator
  import opened Engine
  import opened FactStore
  import opened RuleStore
  import opened Core
  import opened Readings
  import opened StoreLaws
  import opened Reachable

  /** The data holds exactly the facts and relations of the query's subject whose interval covers its valid instant and that
      were known at its known instant, together with its own documents. */
  ghost predicate ReadBy(data: Data, s: State, q: Query, validAt: Option<int>, knownAt: Option<int>) {
    var subject := if "subject_id" in q.context then q.context["subject_id"] else Null;
    && data.context == q.context && data.applicant == q.applicant
    && (forall f :: f in data.facts <==> exists row :: row in s.facts && row.fact == f && Shows(row, subject, "", validAt, knownAt))
    && (forall r :: r in data.relations <==> r in s.relations && ShowsRelation(r, subject, validAt, knownAt))
  }

  /** A fresh run is the engine's run on the rules listed and the data read at the instants the context carries. */
  lemma FreshRunReads(s: State, q: Query, validAt: Option<nat>, knownAt: Option<nat>) returns (data: Data)
    requires Carries(q.context, "valid_at", validAt) && Carries(q.context, "known_at", knownAt)
    ensures ReadBy(data, s, q, validAt, knownAt)
    ensures FreshRun(s, q) == RunEngine(ActiveRules(s.rules, validAt, knownAt), data)
  {
    InstantReads(q.context, "valid_at", validAt);
    InstantReads(q.context, "known_at", knownAt);
    data := DataFor(s.facts, s.relations, q.applicant, q.context);
    var subject := Get(q.context, "subject_id");
    forall f ensures f in data.facts <==> exists row :: row in s.facts && row.fact == f && Shows(row, subject, "", validAt, knownAt) {
      FactsListed(s.facts, subject, "", validAt, knownAt, f);
    }
    forall r ensures r in data.relations <==> r in s.relations && ShowsRelation(r, subject, validAt, knownAt) {
      RelationsListed(s.relations, subject, validAt, knownAt, r);
    }
  }

  /** A query that gives an instant as any other text raises. */
  lemma MalformedInstantRaises(s: State, q: Query, key: string)
    requires key in {"valid_at", "known_at"} && key in q.context && q.context[key].Str?
    requires q.context[key].s == "" || !IsDigits(q.context[key].s)
    ensures FreshRun(s, q) == Err(Stuck)
  {
  }

  function SubjectOf(q: Query): Json {
    Get(q.context, "subject_id")
  }

  /** The facts and relations that were current at the end of a run of calls. */
  ghost function CurrentThen(s: State, q: Query, validAt: Option<int>): Data {
    Data(ListFacts(s.facts, SubjectOf(q), "", validAt, None), ListRelations(s.relations, SubjectOf(q), validAt, None), q.context,
         q.applicant)
  }

  /** Time travel of evaluation: after any run under a clock that never goes back, a query with known_at t is computed on the
      facts and relations that were current after the last call at or before t. */
  lemma EvaluationTimeTravel(ontology: string, calls: seq<Call>, q: Query, t: nat, validAt: Option<nat>)
    requires Nondecreasing(calls) && Carries(q.context, "known_at", Some(t)) && Carries(q.context, "valid_at", validAt)
    ensures var s, past := RunCalls(Init(ontology), calls), RunCalls(Init(ontology), calls[..CallsUntil(calls, t)]);
            FreshRun(s, q) == RunEngine(ActiveRules(s.rules, validAt, Some(t)), CurrentThen(past, q, validAt))
  {
    InstantReads(q.context, "valid_at", validAt);
    InstantReads(q.context, "known_at", Some(t));
    TimeTravel(ontology, calls, t, SubjectOf(q), "", validAt);
    RelationTimeTravel(ontology, calls, t, SubjectOf(q), validAt);
  }

  /** The call is none of the rule lifecycle. */
  predicate LeavesRules(request: Request) {
    request.WriteFact? || request.CreateRelation? || request.EvaluateQuery? || request.InvalidateNode?
  }

  lemma StepLeavesRules(s: State, request: Request, now: int)
    requires LeavesRules(request)
    ensures Step(s, request, now).rules == s.rules
  {
  }

  lemma {:induction false} RunLeavesRules(s: State, calls: seq<Call>)
    requires forall i :: 0 <= i < |calls| ==> LeavesRules(calls[i].request)
    ensures RunCalls(s, calls).rules == s.rules
    decreases |calls|
  {
    if calls != [] {
      StepLeavesRules(s, calls[0].request, calls[0].now);
      RunLeavesRules(Step(s, calls[0].request, calls[0].now), calls[1..]);
    }
  }

  lemma {:induction false} CallsUntilIgnoresLater(calls: seq<Call>, more: seq<Call>, t: int)
    requires forall i :: 0 <= i < |more| ==> t < more[i].now
    ensures CallsUntil(calls + more, t) == CallsUntil(calls, t)
  {
    if calls == [] {
      assert calls + more == more;
    } else {
      assert (calls + more)[1..] == calls[1..] + more;
      CallsUntilIgnoresLater(calls[1..], more, t);
    }
  }

  /** What a query as known at an instant answers does not change by anything written later. */
  lemma LaterWritesInvisible(ontology: string, calls: seq<Call>, more: seq<Call>, q: Query, t: nat, validAt: Option<nat>)
    requires Nondecreasing(calls + more) && Carries(q.context, "known_at", Some(t)) && Carries(q.context, "valid_at", validAt)
    requires forall i :: 0 <= i < |more| ==> t < more[i].now && LeavesRules(more[i].request)
    ensures FreshRun(RunCalls(Init(ontology), calls + more), q) == FreshRun(RunCalls(Init(ontology), calls), q)
  {
    var k := CallsUntil(calls, t);
    CallsUntilIgnoresLater(calls, more, t);
    assert (calls + more)[..k] == calls[..k];
    assert Nondecreasing(calls) by {
      assert forall i :: 0 <= i < |calls| ==> calls[i] == (calls + more)[i];
    }
    EvaluationTimeTravel(ontology, calls, q, t, validAt);
    EvaluationTimeTravel(ontology, calls + more, q, t, validAt);
    RunCallsAppend(Init(ontology), calls, more);
    RunLeavesRules(RunCalls(Init(ontology), calls), more);
  }
}
