/** What the rule table holds after each lifecycle call, column by column, and which rules a listing shows in which order. */
module RuleLaws {
  import opened Prelude
  import opened Json
  import opened Dsl
  import opened Evaluator
  import opened Rules
  import opened Sorting
  import opened Engine
  import opened EngineProofs
  import opened RuleStore
  import opened RuleStoreProofs
  import opened Core
  import opened CacheProofs
  import opened Comparisons
  import opened StoreLaws
  import opened EffectLaws
  import opened Reachable

  // ---- creation ----

  /** Everything the request said about the rule, and the instant it was asked. */
  predicate AsAsked(row: Rule, draft: RuleDraft, id: string, now: int) {
    && row.id == id && row.logicalKey == draft.logicalKey && row.scope == draft.scope && row.condition == draft.condition
    && row.effects == draft.effects && row.exceptions == draft.exceptions && row.priority == draft.priority
    && row.validFrom == draft.validFrom && row.validTo == draft.validTo && row.ontology == draft.ontology
    && row.provenance == draft.provenance && row.predecessor == draft.predecessor
    && row.idempotencyKey == draft.idempotencyKey && row.knownFrom == now
    && |row.tests| == |draft.tests| && forall t :: 0 <= t < |draft.tests| ==> SameTest(row.tests[t], draft.tests[t])
  }

  predicate SameTest(a: TestCase, b: TestCase) {
    && a.name == b.name && a.facts == b.facts && a.relations == b.relations && a.context == b.context
    && a.applicant == b.applicant && a.expected == b.expected && a.explained == b.explained
  }

  /** A row as creation leaves it: a draft, open, never written again, none of its tests run. */
  predicate Fresh(row: Rule) {
    row.status == Draft && row.knownTo.None? && row.rowVersion == 1 && forall t :: t in row.tests ==> t.passed.None?
  }

  /** A rule was created under the same idempotency key before; an empty key does not count. */
  predicate AskedBefore(rules: seq<Rule>, draft: RuleDraft) {
    exists r :: r in rules && r.idempotencyKey.Some? && r.idempotencyKey == draft.idempotencyKey && r.idempotencyKey != Some("")
  }

  /** The version asked for, unless that is none or zero; then one more than the highest version of the key, or one. */
  predicate VersionFor(rules: seq<Rule>, draft: RuleDraft, version: nat) {
    if draft.version.Some? && draft.version.value != 0 then version == draft.version.value
    else
      && version > 0 && (forall r :: r in rules && r.logicalKey == draft.logicalKey ==> r.version < version)
      && (version > 1 ==> exists r :: r in rules && r.logicalKey == draft.logicalKey && r.version == version - 1)
  }

  /** The table can take the row: its id, its version of the key and its idempotency key are new, its predecessor exists. */
  predicate Admits(rules: seq<Rule>, draft: RuleDraft, id: string, version: nat) {
    && draft.admissible && id != ""
    && (forall r :: r in rules ==> r.id != id && !(r.logicalKey == draft.logicalKey && r.version == version))
    && (draft.idempotencyKey.Some? ==> forall r :: r in rules ==> r.idempotencyKey != draft.idempotencyKey)
    && (draft.predecessor.Some? ==> exists r :: r in rules && Some(r.id) == draft.predecessor)
  }

  lemma VersionChosen(rules: seq<Rule>, draft: RuleDraft) returns (version: nat)
    ensures VersionFor(rules, draft, version) && version == NewVersion(rules, draft)
  {
    version := NewVersion(rules, draft);
    if !(draft.version.Some? && draft.version.value != 0) {
      forall r | r in rules && r.logicalKey == draft.logicalKey ensures r.version < version {
        var i :| 0 <= i < |rules| && rules[i] == r;
      }
      if version > 1 {
        var i :| 0 <= i < |rules| && rules[i].logicalKey == draft.logicalKey && rules[i].version == version - 1;
        assert rules[i] in rules;
      }
    }
  }

  lemma AskedBeforeExactly(rules: seq<Rule>, draft: RuleDraft)
    ensures AskedBefore(rules, draft) <==> IsRepeat(rules, draft)
  {
    if AskedBefore(rules, draft) {
      var r :| r in rules && r.idempotencyKey.Some? && r.idempotencyKey == draft.idempotencyKey && r.idempotencyKey != Some("");
      var i :| 0 <= i < |rules| && rules[i] == r;
    }
    if IsRepeat(rules, draft) {
      var i := FindIdempotent(rules, draft.idempotencyKey.value).value;
      assert rules[i] in rules;
    }
  }

  lemma FoundExactly(rules: seq<Rule>, id: string)
    ensures FindRule(rules, id).Some? <==> exists r :: r in rules && r.id == id
  {
    if r :| r in rules && r.id == id {
      var i :| 0 <= i < |rules| && rules[i] == r;
    }
    if FindRule(rules, id).Some? {
      assert rules[FindRule(rules, id).value] in rules;
    }
  }

  lemma AdmitsExactly(rules: seq<Rule>, draft: RuleDraft, id: string, version: nat)
    requires version == NewVersion(rules, draft)
    ensures Admits(rules, draft, id, version) <==> draft.admissible && RowFits(rules, draft, id)
  {
    FoundExactly(rules, id);
    if draft.predecessor.Some? {
      FoundExactly(rules, draft.predecessor.value);
    }
    if draft.idempotencyKey.Some? && FindIdempotent(rules, draft.idempotencyKey.value).Some? {
      assert rules[FindIdempotent(rules, draft.idempotencyKey.value).value] in rules;
    }
    forall i | 0 <= i < |rules| ensures rules[i] in rules {
    }
    if RowFits(rules, draft, id) {
      forall r | r in rules ensures !(r.logicalKey == draft.logicalKey && r.version == version) {
        var i :| 0 <= i < |rules| && rules[i] == r;
      }
    }
  }

  /** Creating a rule that was asked for before changes nothing. Any other request is refused unless the table can take the
      row, and then appends exactly one: what was asked for, fresh. */
  lemma CreatedExactly(rules: seq<Rule>, draft: RuleDraft, id: string, now: int) returns (version: nat)
    ensures VersionFor(rules, draft, version)
    ensures AskedBefore(rules, draft) ==> Created(rules, draft, id, now) == Some(rules)
    ensures !AskedBefore(rules, draft) ==> (Created(rules, draft, id, now).Some? <==> Admits(rules, draft, id, version))
    ensures !AskedBefore(rules, draft) && Admits(rules, draft, id, version) ==>
              var next := Created(rules, draft, id, now).value;
              && |next| == |rules| + 1 && next[..|rules|] == rules
              && next[|rules|].version == version && AsAsked(next[|rules|], draft, id, now) && Fresh(next[|rules|])
  {
    version := VersionChosen(rules, draft);
    AskedBeforeExactly(rules, draft);
    AdmitsExactly(rules, draft, id, version);
  }

  /** The rule came from the call. */
  predicate CameFrom(row: Rule, call: Call) {
    call.request.CreateRule? && AsAsked(row, call.request.draft, call.request.id, call.now)
  }

  lemma SameContentAsAsked(before: Rule, after: Rule, call: Call)
    requires CameFrom(before, call) && Content(after) == Content(before)
    ensures CameFrom(after, call)
  {
    assert after.id == Content(after).id == before.id;
    forall t | 0 <= t < |after.tests| ensures |after.tests| == |before.tests| && SameTest(after.tests[t], before.tests[t]) {
      assert Content(after).tests[t] == Content(before).tests[t];
    }
    assert |Content(after).tests| == |after.tests| && |Content(before).tests| == |before.tests|;
  }

  /** A row that a call appended came from that call. */
  lemma NewRowCameFrom(s: State, call: Call, i: nat)
    requires |s.rules| <= i < |Step(s, call.request, call.now).rules|
    requires RuleHistory(s.rules, Step(s, call.request, call.now).rules)
    ensures CameFrom(Step(s, call.request, call.now).rules[i], call)
  {
    var next := Step(s, call.request, call.now).rules;
    if call.request.CreateRule? {
      var version := CreatedExactly(s.rules, call.request.draft, call.request.id, call.now);
    } else {
      OnlyCreationAppends(s, call);
    }
  }

  lemma OnlyCreationAppends(s: State, call: Call)
    requires !call.request.CreateRule?
    ensures |Step(s, call.request, call.now).rules| == |s.rules|
  {
    if call.request.ActivateRule? {
      ActivationAppendsNothing(s, call.request.id, call.request.expected, call.now);
    }
  }

  lemma ActivationAppendsNothing(s: State, id: string, expected: Option<int>, now: int)
    ensures RuleActivated(s, id, expected, now).Some? ==> |RuleActivated(s, id, expected, now).value.rules| == |s.rules|
  {
    if Activated(s.rules, id, expected, now).Some? {
      ActivatedKeepsHistory(s.rules, id, expected, now);
    }
  }

  /** Over every run, each rule of the table carries what some call asked for. */
  lemma {:induction false} RulesAsAsked(ontology: string, calls: seq<Call>, i: nat)
    requires i < |RunCalls(Init(ontology), calls).rules|
    ensures exists c :: 0 <= c < |calls| && CameFrom(RunCalls(Init(ontology), calls).rules[i], calls[c])
    decreases |calls|
  {
    if calls != [] {
      var n := |calls| - 1;
      var s, call := RunCalls(Init(ontology), calls[..n]), calls[n];
      RunSplits(Init(ontology), calls, n);
      OneCall(s, call);
      assert calls[n..] == [call];
      var next := Step(s, call.request, call.now);
      RequestIsRuleStep(s, call.request, call.now);
      StepKeepsHistory(s.rules, next.rules);
      if i < |s.rules| {
        RulesAsAsked(ontology, calls[..n], i);
        var c :| 0 <= c < n && CameFrom(s.rules[i], calls[..n][c]);
        assert RowContinues(s.rules[i], next.rules[i]);
        SameContentAsAsked(s.rules[i], next.rules[i], calls[c]);
      } else {
        NewRowCameFrom(s, call, i);
      }
    }
  }

  lemma OneCall(s: State, call: Call)
    ensures RunCalls(s, [call]) == Step(s, call.request, call.now)
  {
    assert [call][1..] == [];
  }

  // ---- validation, tests and activation ----

  /** Validating changes the status and the row version of the one rule: REVIEW for a valid payload, VALIDATING otherwise. */
  lemma ValidatedExactly(rules: seq<Rule>, i: nat)
    requires DistinctRuleIds(rules) && i < |rules|
    ensures Validated(rules, rules[i].id)
         == Some(rules[i := rules[i].(status := if ValidPayload(rules[i]) then Review else Validating,
                                      rowVersion := rules[i].rowVersion + 1)])
  {
  }

  /** The test with the outcome of running it. */
  predicate HasRun(rule: Rule, test: TestCase, after: TestCase) {
    RunTest(rule, test).Ok? && after == test.(passed := Some(RunTest(rule, test).value))
  }

  /** The row of a valid rule after its tests: every outcome recorded, REVIEW if all passed and TESTING if not. */
  predicate TestedRow(rule: Rule, after: Rule) {
    && |after.tests| == |rule.tests| && (forall t :: 0 <= t < |rule.tests| ==> HasRun(rule, rule.tests[t], after.tests[t]))
    && after == rule.(tests := after.tests, rowVersion := rule.rowVersion + 1,
                      status := if forall t :: t in rule.tests ==> RunTest(rule, t) == Ok(true) then Review else Testing)
  }

  /** Testing an invalid rule sends it to VALIDATING. A valid one needs tests, all of which run; then its row has been tested.
      No other row changes. */
  lemma TestedExactly(rules: seq<Rule>, i: nat)
    requires DistinctRuleIds(rules) && i < |rules|
    ensures var rule, next := rules[i], Tested(rules, rules[i].id);
            if !ValidPayload(rule) then
              next == Some(rules[i := rule.(status := Validating, rowVersion := rule.rowVersion + 1)])
            else
              && (next.Some? <==> rule.tests != [] && forall t :: t in rule.tests ==> RunTest(rule, t).Ok?)
              && (next.Some? ==> |next.value| == |rules| && TestedRow(rule, next.value[i]) && next.value == rules[i := next.value[i]])
  {
    var rule := rules[i];
    assert FindRule(rules, rule.id) == Some(i);
    if ValidPayload(rule) && rule.tests != [] {
      TestsRunExactly(rule, rule.tests);
      if RunTests(rule, rule.tests).Ok? {
        OutcomesRecorded(rule, RunTests(rule, rule.tests).value);
      }
    }
  }

  lemma OutcomesRecorded(rule: Rule, tests: seq<TestCase>)
    requires |tests| == |rule.tests| && forall t :: 0 <= t < |rule.tests| ==> HasRun(rule, rule.tests[t], tests[t])
    requires AllPassed(tests) <==> forall t :: t in rule.tests ==> RunTest(rule, t) == Ok(true)
    ensures TestedRow(rule, WithStatus(rule.(tests := tests), if AllPassed(tests) then Review else Testing))
  {
  }

  lemma TestsRunExactly(rule: Rule, tests: seq<TestCase>)
    ensures RunTests(rule, tests).Ok? <==> forall t :: t in tests ==> RunTest(rule, t).Ok?
    ensures RunTests(rule, tests).Ok? ==>
              && (forall t :: 0 <= t < |tests| ==> HasRun(rule, tests[t], RunTests(rule, tests).value[t]))
              && (AllPassed(RunTests(rule, tests).value) <==> forall t :: t in tests ==> RunTest(rule, t) == Ok(true))
  {
    var r := RunTests(rule, tests);
    if r.Ok? {
      forall t | t in tests ensures RunTest(rule, t).Ok? {
        var j :| 0 <= j < |tests| && tests[j] == t;
      }
      if AllPassed(r.value) {
        forall t | t in tests ensures RunTest(rule, t) == Ok(true) {
          var j :| 0 <= j < |tests| && tests[j] == t;
          assert r.value[j].passed == Some(true);
        }
      }
      if forall t :: t in tests ==> RunTest(rule, t) == Ok(true) {
        forall j | 0 <= j < |r.value| ensures r.value[j].passed == Some(true) {
          assert tests[j] in tests;
        }
      }
    } else {
      var j :| 0 <= j < |tests| && RunTest(rule, tests[j]).Err?;
      assert tests[j] in tests;
    }
  }

  const COMPARED := {"type", "target", "value"}

  /** Two effect lists agree on type, target and value of every effect, in order. */
  predicate AgreeOnEffects(actual: seq<Json>, expected: seq<Json>) {
    |actual| == |expected| && forall i :: 0 <= i < |actual| ==> AgreeOnEffect(actual[i], expected[i])
  }

  predicate AgreeOnEffect(a: Json, b: Json) {
    && a.Obj? && b.Obj?
    && forall key :: key in COMPARED ==>
                       (key in a.fields <==> key in b.fields) && (key in a.fields ==> a.fields[key] == b.fields[key])
  }

  lemma ProjectExactly(a: Json, b: Json)
    ensures Project(a).Ok? <==> a.Obj?
    ensures Project(a).Ok? && Project(b).Ok? ==> (Project(a) == Project(b) <==> AgreeOnEffect(a, b))
  {
    if a.Obj? && b.Obj? {
      var p, q := Project(a).value.fields, Project(b).value.fields;
      if AgreeOnEffect(a, b) {
        assert forall key :: key in p <==> key in q;
        assert p == q;
      }
      if p == q {
        forall key | key in COMPARED
          ensures (key in a.fields <==> key in b.fields) && (key in a.fields ==> a.fields[key] == b.fields[key])
        {
          assert key in p <==> key in a.fields;
          assert key in q <==> key in b.fields;
        }
      }
    }
  }

  lemma {:induction false} ProjectAllExactly(a: seq<Json>, b: seq<Json>)
    ensures ProjectAll(a).Ok? <==> forall i :: 0 <= i < |a| ==> a[i].Obj?
    ensures ProjectAll(a).Ok? ==> |ProjectAll(a).value| == |a|
    ensures ProjectAll(a).Ok? && ProjectAll(b).Ok? ==> (ProjectAll(a) == ProjectAll(b) <==> AgreeOnEffects(a, b))
    decreases |a| + |b|
  {
    ProjectAllOfObjects(a);
    ProjectAllOfObjects(b);
    if ProjectAll(a).Ok? && ProjectAll(b).Ok? {
      var p, q := ProjectAll(a).value, ProjectAll(b).value;
      if AgreeOnEffects(a, b) {
        forall i | 0 <= i < |p| ensures p[i] == q[i] {
          assert AgreeOnEffect(a[i], b[i]);
          ProjectExactly(a[i], b[i]);
        }
        assert p == q;
      }
      if p == q {
        forall i | 0 <= i < |a| ensures AgreeOnEffect(a[i], b[i]) {
          ProjectExactly(a[i], b[i]);
        }
      }
    }
  }

  lemma {:induction false} ProjectAllOfObjects(a: seq<Json>)
    ensures ProjectAll(a).Ok? <==> forall i :: 0 <= i < |a| ==> a[i].Obj?
    ensures ProjectAll(a).Ok? ==> |ProjectAll(a).value| == |a| && forall i :: 0 <= i < |a| ==> Ok(ProjectAll(a).value[i]) == Project(a[i])
  {
    if a != [] {
      ProjectAllOfObjects(a[1..]);
      assert forall i :: 1 <= i < |a| ==> a[i] == a[1..][i - 1];
    }
  }

  /** The rule as a test runs it. */
  function UnderTest(rule: Rule): Rule {
    rule.(status := Active)
  }

  /** The effects a run of one rule reports: those of its trace if it matched. */
  function ReportedEffects(run: Run): seq<Json> {
    if run.traces != [] && run.traces[0].Matched? then run.traces[0].effects else []
  }

  /** A test passes exactly when the engine runs the one rule, as if it were active, on the test's own data, its reported
      effects agree with the expected ones on type, target and value, and its explanation is the expected one. */
  lemma TestPassesExactly(rule: Rule, test: TestCase)
    ensures var run := RunEngine([UnderTest(rule)], Data(test.facts, test.relations, test.context, test.applicant));
            RunTest(rule, test) == Ok(true)
            <==> run.Ok? && test.explained && AgreeOnEffects(ReportedEffects(run.value), test.expected)
  {
    var data := Data(test.facts, test.relations, test.context, test.applicant);
    var run := RunEngine([UnderTest(rule)], data);
    if run.Ok? {
      OneTrace(UnderTest(rule), data);
      assert MatchedEffects(run.value.traces) == ReportedEffects(run.value) by {
        assert run.value.traces[1..] == [];
      }
      ProjectAllExactly(ReportedEffects(run.value), test.expected);
      ProjectAllOfObjects(test.expected);
    }
  }

  lemma OneTrace(rule: Rule, data: Data)
    requires rule.status == Active && RunEngine([rule], data).Ok?
    ensures |RunEngine([rule], data).value.traces| == 1
  {
    assert [rule][1..] == [] && Sort(RuleLe, [rule][1..]) == [];
    assert OrderedRules([rule]) == Insert(RuleLe, rule, []) == [rule];
    var next := RunRule(START, rule, data);
    assert next.Ok?;
    assert RunRules(next.value, [], data) == next;
    assert RunRules(START, [rule], data) == RunRules(next.value, [rule][1..], data);
  }

  /** Activation makes the rule active, and its predecessor superseded from now on; no other row and no other column changes
      but the row versions of the two. */
  lemma ActivatedExactly(rules: seq<Rule>, i: nat, expected: Option<int>, now: int, k: nat)
    requires DistinctRuleIds(rules) && i < |rules| && k < |rules| && Activated(rules, rules[i].id, expected, now).Some?
    requires rules[i].predecessor != Some(rules[i].id)
    ensures var next, rule := Activated(rules, rules[i].id, expected, now).value, rules[k];
            && |next| == |rules|
            && next[k] == if k == i then rule.(status := Active, rowVersion := rule.rowVersion + 1)
                          else if rules[i].predecessor == Some(rule.id) then
                            rule.(status := Superseded, knownTo := Some(now), rowVersion := rule.rowVersion + 1)
                          else rule
  {
  }

  /** An activation is accepted exactly when the guard lets the rule through, its predecessor exists, and the caller expects no
      row version (or zero) or the one the row has. */
  lemma ActivationAcceptedExactly(rules: seq<Rule>, i: nat, expected: Option<int>, now: int)
    requires DistinctRuleIds(rules) && i < |rules| && rules[i].predecessor != Some(rules[i].id)
    ensures Activated(rules, rules[i].id, expected, now).Some?
            <==> && MayActivate(rules, rules[i])
                 && (rules[i].predecessor.Some? ==> exists r :: r in rules && r.id == rules[i].predecessor.value)
                 && (expected.None? || expected == Some(0) || expected == Some(rules[i].rowVersion))
  {
    if rules[i].predecessor.Some? {
      FoundExactly(rules, rules[i].predecessor.value);
    }
    assert FindRule(rules, rules[i].id) == Some(i);
  }

  /** The guard lets a rule through exactly when its payload is valid, it has provenance and tests which all passed, and
      nothing in force but its predecessor has its key or, at its priority and with an overlapping scope, other effects. */
  lemma GuardExactly(rules: seq<Rule>, rule: Rule)
    ensures MayActivate(rules, rule)
            <==> && ValidPayload(rule) && rule.provenance.Some? && rule.provenance != Some("")
                 && rule.tests != [] && (forall t :: t in rule.tests ==> t.passed == Some(true))
                 && forall r :: r in rules && r.status == Active && r.knownTo.None? && r.id != rule.id
                                && rule.predecessor != Some(r.id)
                                ==> && r.logicalKey != rule.logicalKey
                                    && !(r.priority == rule.priority && ScopesOverlap(rule.scope, r.scope)
                                         && EffectsDisagree(rule.effects, r.effects))
  {
    ActiveRulesExactly(rules, None, None);
    assert AllPassed(rule.tests) <==> forall t :: t in rule.tests ==> t.passed == Some(true) by {
      if forall t :: t in rule.tests ==> t.passed == Some(true) {
        forall j | 0 <= j < |rule.tests| ensures rule.tests[j].passed == Some(true) {
          assert rule.tests[j] in rule.tests;
        }
      }
    }
  }

  // ---- listings ----

  /** A rule is listed exactly when it is active (or, at a past instant, since superseded), its valid interval covers the one
      instant and it had been created and not yet superseded at the other (without it: is not superseded). */
  lemma RulesListed(rules: seq<Rule>, validAt: Option<int>, knownAt: Option<int>, r: Rule)
    ensures r in ActiveRules(rules, validAt, knownAt)
            <==> && r in rules && (r.status == Active || (knownAt.Some? && r.status == Superseded && r.knownTo.Some?))
                 && Covers(r.validFrom, r.validTo, validAt)
                 && (knownAt.Some? ==> r.knownFrom <= knownAt.value)
                 && (r.knownTo.Some? ==> knownAt.Some? && knownAt.value < r.knownTo.value)
  {
    ActiveRulesExactly(rules, validAt, knownAt);
  }

  /** The engine goes by descending priority, then by logical key, then by version. */
  lemma EngineOrder(rules: seq<Rule>, i: nat, j: nat)
    requires i < j < |OrderedRules(rules)|
    ensures var a, b := OrderedRules(rules)[i], OrderedRules(rules)[j];
            || a.priority > b.priority
            || (a.priority == b.priority
                && (Precedes(a.logicalKey, b.logicalKey) || (a.logicalKey == b.logicalKey && a.version <= b.version)))
  {
    RuleLeTotalPreorder();
    SortSorts(RuleLe, rules);
    var a, b := OrderedRules(rules)[i], OrderedRules(rules)[j];
    assert RuleLe(a, b);
    OrderIsPrecedence(a.logicalKey, b.logicalKey);
  }

  // ---- payloads and scopes ----

  /** An effect is valid exactly when it is an object of a known type with a target text, a value unless it is a mark, and a
      valid expression where the value is one. */
  lemma EffectValidExactly(effect: Json)
    ensures EffectProblems(effect) == []
            <==> && effect.Obj? && (exists text :: text in EFFECT_TEXTS && Get(effect.fields, "type") == Str(text))
                 && Get(effect.fields, "target").Str? && Get(effect.fields, "target") != Str("")
                 && ("value" in effect.fields || Get(effect.fields, "type") in {Str("MARK_ELIGIBLE"), Str("MARK_INELIGIBLE")})
                 && (Get(effect.fields, "value").Obj? && "kind" in Get(effect.fields, "value").fields
                     ==> Problems(Get(effect.fields, "value"), 0, 30) == [])
  {
    if effect.Obj? {
      TypeKnownExactly(effect.fields);
    }
  }

  /** White space, by code point. */
  predicate IsSpace(c: char) {
    var n := c as int;
    || 9 <= n <= 13 || 28 <= n <= 32 || n == 0x85 || n == 0xA0 || n == 0x1680 || 0x2000 <= n <= 0x200A
    || n in {0x2028, 0x2029, 0x202F, 0x205F, 0x3000}
  }

  lemma SpacesExactly(c: char)
    ensures c in WHITESPACE <==> IsSpace(c)
  {
  }

  /** A payload is valid exactly when its condition and exceptions are valid expressions, it has effects, all valid, and its
      key holds a character that is no white space. */
  lemma PayloadValidExactly(rule: Rule)
    ensures ValidPayload(rule)
            <==> && Problems(rule.condition, 0, 30) == [] && (forall e :: e in rule.exceptions ==> Problems(e, 0, 30) == [])
                 && rule.effects != [] && (forall e :: e in rule.effects ==> EffectProblems(e) == [])
                 && exists c :: c in rule.logicalKey && !IsSpace(c)
  {
    forall c: char ensures c in WHITESPACE <==> IsSpace(c) {
      SpacesExactly(c);
    }
    NotBlankExactly(rule.logicalKey);
    if ValidPayload(rule) {
      forall e | e in rule.exceptions ensures Problems(e, 0, 30) == [] {
        var i :| 0 <= i < |rule.exceptions| && rule.exceptions[i] == e;
        assert Valid(rule.exceptions[i]);
      }
      forall e | e in rule.effects ensures EffectProblems(e) == [] {
        var i :| 0 <= i < |rule.effects| && rule.effects[i] == e;
      }
    }
    if (forall e :: e in rule.exceptions ==> Problems(e, 0, 30) == []) {
      assert forall i :: 0 <= i < |rule.exceptions| ==> rule.exceptions[i] in rule.exceptions;
      assert forall i :: 0 <= i < |rule.exceptions| ==> Valid(rule.exceptions[i]);
    }
    assert forall i :: 0 <= i < |rule.effects| ==> rule.effects[i] in rule.effects;
    assert Valid(rule.condition) <==> Problems(rule.condition, 0, 30) == [];
  }

  lemma NotBlankExactly(key: string)
    requires forall c: char :: c in WHITESPACE <==> IsSpace(c)
    ensures NotBlank(key) <==> exists c :: c in key && !IsSpace(c)
  {
    if c :| c in key && !IsSpace(c) {
      var i :| 0 <= i < |key| && key[i] == c;
    }
    if NotBlank(key) {
      var i :| 0 <= i < |key| && key[i] !in WHITESPACE;
      assert key[i] in key;
    }
  }

  lemma TypeKnownExactly(effect: Document)
    ensures TypeOf(effect) != UnknownEffect <==> exists text :: text in EFFECT_TEXTS && Get(effect, "type") == Str(text)
    ensures TypeOf(effect) in {MarkEligible, MarkIneligible}
            <==> Get(effect, "type") in {Str("MARK_ELIGIBLE"), Str("MARK_INELIGIBLE")}
  {
    if TypeOf(effect) != UnknownEffect {
      assert Get(effect, "type").s in EFFECT_TEXTS && Get(effect, "type") == Str(Get(effect, "type").s);
    }
  }

  /** Two scopes overlap for the guard exactly when on every key both name, two lists share a value and anything else is the
      same value. */
  lemma ScopesOverlapExactly(left: Document, right: Document)
    ensures ScopesOverlap(left, right)
            <==> forall key :: key in left && key in right ==>
                                 if left[key].Arr? && right[key].Arr? then exists v :: v in left[key].items && v in right[key].items
                                 else left[key] == right[key]
  {
  }

  /** A scope applies exactly when every key it names does: a list names the values it admits, an object applies to an object
      key by key, anything else names the one value. */
  lemma ScopeAppliesExactly(scope: Document, context: Document)
    ensures ScopeMatches(scope, context)
            <==> forall key :: key in scope ==>
                                 var expected, actual := scope[key], Get(context, key);
                                 if expected.Arr? then actual in expected.items
                                 else if expected.Obj? && actual.Obj? then ScopeMatches(expected.fields, actual.fields)
                                 else actual == expected
  {
    assert ScopeMatches(scope, context) <==> forall key :: key in scope ==> ValueMatches(scope[key], Get(context, key));
    forall key | key in scope && scope[key].Obj? && Get(context, key).Obj?
      ensures ValueMatches(scope[key], Get(context, key)) == ScopeMatches(scope[key].fields, Get(context, key).fields)
    {
      assert scope[key] == Obj(scope[key].fields) && Get(context, key) == Obj(Get(context, key).fields);
    }
  }
}
