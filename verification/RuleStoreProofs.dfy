/** Safety of the rule lifecycle over whole runs, and what its activation guard gives the engine. */
module RuleStoreProofs {
  import opened Prelude
  import opened Json
  import opened Evaluator
  import opened Rules
  import opened ScopeProofs
  import opened Sorting
  import opened Engine
  import opened EngineProofs
  import opened Ties
  import opened RuleStore

  /** What never changes after creation: everything but the lifecycle columns and the test outcomes. */
  function Content(rule: Rule): Rule {
    rule.(status := Draft, knownTo := None, rowVersion := 0, tests := Map(Untested, rule.tests))
  }

  /** The part of a rule the engine sees, with the rule counted as active or not. */
  function Shown(rule: Rule, live: bool): Rule {
    rule.(status := if live then Active else Superseded, knownTo := None, rowVersion := 0, tests := [])
  }

  function EngineView(rule: Rule): Rule {
    Shown(rule, rule.status == Active)
  }

  lemma SameContentSameShown(a: Rule, b: Rule, live: bool)
    requires Content(a) == Content(b)
    ensures Shown(a, live) == Shown(b, live)
  {
    assert Shown(Content(a), live) == Shown(a, live) && Shown(Content(b), live) == Shown(b, live);
  }

  predicate DistinctRuleIds(rules: seq<Rule>) {
    forall i, j :: 0 <= i < |rules| && 0 <= j < |rules| && rules[i].id == rules[j].id ==> i == j
  }

  predicate DistinctRuleVersions(rules: seq<Rule>) {
    forall i, j :: 0 <= i < |rules| && 0 <= j < |rules|
                   && rules[i].logicalKey == rules[j].logicalKey && rules[i].version == rules[j].version
                   ==> i == j
  }

  /** A rule marked active, in force or not, passed validation and every one of at least one test. */
  predicate Qualified(rule: Rule) {
    rule.status == Active ==> ValidPayload(rule) && rule.tests != [] && AllPassed(rule.tests)
  }

  /** A recorded pass is what running the test gives. */
  predicate TestsTruthful(rule: Rule) {
    forall i :: 0 <= i < |rule.tests| && rule.tests[i].passed == Some(true) ==> RunTest(rule, rule.tests[i]) == Ok(true)
  }

  /** Two rules that may be in force together. */
  predicate Coexist(a: Rule, b: Rule) {
    InForce(a) && InForce(b) ==> a.logicalKey != b.logicalKey && !EffectConflicts(a, b)
  }

  predicate GoodRules(rules: seq<Rule>) {
    && DistinctRuleIds(rules) && DistinctRuleVersions(rules)
    && (forall i :: 0 <= i < |rules| ==> Qualified(rules[i]) && TestsTruthful(rules[i]))
    && (forall i, j :: 0 <= i < |rules| && 0 <= j < |rules| && i != j ==> Coexist(rules[i], rules[j]))
  }

  /** A row after some calls: its content is immutable, a closed row stays closed, and every write advances the row
      version. */
  predicate RowContinues(earlier: Rule, later: Rule) {
    && Content(later) == Content(earlier) && (earlier.knownTo.Some? ==> later.knownTo.Some?)
    && (later == earlier || earlier.rowVersion < later.rowVersion)
  }

  /** Rows are only appended. */
  predicate RuleHistory(earlier: seq<Rule>, next: seq<Rule>) {
    && |earlier| <= |next|
    && forall i :: 0 <= i < |earlier| ==> RowContinues(earlier[i], next[i])
  }

  lemma SameUntested(a: seq<TestCase>, b: seq<TestCase>)
    requires |a| == |b| && forall i :: 0 <= i < |a| ==> Untested(a[i]) == Untested(b[i])
    ensures Map(Untested, a) == Map(Untested, b)
  {
  }

  lemma OutcomesAreNotContent(rule: Rule, tests: seq<TestCase>)
    requires RunTests(rule, rule.tests) == Ok(tests)
    ensures Content(rule.(tests := tests)) == Content(rule)
  {
    forall i | 0 <= i < |tests| ensures Untested(tests[i]) == Untested(rule.tests[i]) {
      assert tests[i] == rule.tests[i].(passed := Some(RunTest(rule, rule.tests[i]).value));
    }
    SameUntested(tests, rule.tests);
  }

  lemma SupersedeKeepsHistory(rules: seq<Rule>, predecessor: Option<string>, now: int)
    requires Supersede(rules, predecessor, now).Some?
    ensures RuleHistory(rules, Supersede(rules, predecessor, now).value)
  {
    if predecessor.Some? {
      var j := FindRule(rules, predecessor.value).value;
      assert Content(SupersededRow(rules[j], now)) == Content(rules[j]);
    }
  }

  lemma ActivatedKeepsHistory(rules: seq<Rule>, id: string, expected: Option<int>, now: int)
    requires Activated(rules, id, expected, now).Some?
    ensures RuleHistory(rules, Activated(rules, id, expected, now).value)
  {
    var i := FindRule(rules, id).value;
    var superseded := Supersede(rules, rules[i].predecessor, now).value;
    SupersedeKeepsHistory(rules, rules[i].predecessor, now);
    assert Content(WithStatus(superseded[i], Active)) == Content(superseded[i]);
    assert RuleHistory(superseded, superseded[i := WithStatus(superseded[i], Active)]);
  }

  lemma TestedKeepsHistory(rules: seq<Rule>, id: string)
    requires Tested(rules, id).Some?
    ensures RuleHistory(rules, Tested(rules, id).value)
  {
    var i := FindRule(rules, id).value;
    if ValidPayload(rules[i]) {
      OutcomesAreNotContent(rules[i], RunTests(rules[i], rules[i].tests).value);
    }
    assert Content(Tested(rules, id).value[i]) == Content(rules[i]);
  }

  lemma ValidatedKeepsHistory(rules: seq<Rule>, id: string)
    requires Validated(rules, id).Some?
    ensures RuleHistory(rules, Validated(rules, id).value)
  {
    var i := FindRule(rules, id).value;
    assert RowContinues(rules[i], Validated(rules, id).value[i]);
  }

  lemma CreatedKeepsHistory(rules: seq<Rule>, draft: RuleDraft, id: string, now: int)
    requires Created(rules, draft, id, now).Some?
    ensures RuleHistory(rules, Created(rules, draft, id, now).value)
  {
  }

  /** Every call only appends rows, never changes a rule's content, never reopens a superseded row and advances the
      version of every row it writes. */
  lemma StepKeepsHistory(rules: seq<Rule>, next: seq<Rule>)
    requires RuleStep(rules, next)
    ensures RuleHistory(rules, next)
  {
    if next != rules {
      if draft, id, now :| Created(rules, draft, id, now) == Some(next) {
        CreatedKeepsHistory(rules, draft, id, now);
      } else if id :| Validated(rules, id) == Some(next) {
        ValidatedKeepsHistory(rules, id);
      } else if id :| Tested(rules, id) == Some(next) {
        TestedKeepsHistory(rules, id);
      } else {
        var id, expected, now :| Activated(rules, id, expected, now) == Some(next);
        ActivatedKeepsHistory(rules, id, expected, now);
      }
    }
  }

  lemma HistoryTransitive(a: seq<Rule>, b: seq<Rule>, c: seq<Rule>)
    requires RuleHistory(a, b) && RuleHistory(b, c)
    ensures RuleHistory(a, c)
  {
  }

  /** The engine sees only its view of a rule. */
  lemma RunRuleSeesView(run: Run, rule: Rule, data: Data)
    ensures RunRule(run, rule, data) == RunRule(run, EngineView(rule), data)
  {
  }

  lemma {:induction false} RunRulesSeeViews(run: Run, rules: seq<Rule>, data: Data)
    ensures RunRules(run, rules, data) == RunRules(run, Map(EngineView, rules), data)
    decreases |rules|
  {
    if rules != [] {
      RunRuleSeesView(run, rules[0], data);
      var next := RunRule(run, rules[0], data);
      if next.Ok? {
        RunRulesSeeViews(next.value, rules[1..], data);
      }
    }
  }

  /** The engine's answer is a function of its views of the rules. */
  lemma EngineSeesViews(rules: seq<Rule>, data: Data)
    ensures RunEngine(rules, data) == RunEngine(Map(EngineView, rules), data)
  {
    SortMap(RuleLe, EngineView, rules);
    RunRulesSeeViews(START, OrderedRules(rules), data);
  }

  lemma TestSeesView(a: Rule, b: Rule, test: TestCase)
    requires Content(a) == Content(b)
    ensures RunTest(a, test) == RunTest(b, test)
  {
    SameContentSameShown(a, b, true);
    var data := Data(test.facts, test.relations, test.context, test.applicant);
    EngineSeesViews([a.(status := Active)], data);
    EngineSeesViews([b.(status := Active)], data);
    assert Map(EngineView, [a.(status := Active)]) == [Shown(a, true)];
    assert Map(EngineView, [b.(status := Active)]) == [Shown(b, true)];
  }

  lemma TruthfulnessIsContent(a: Rule, b: Rule)
    requires Content(a) == Content(b) && a.tests == b.tests && TestsTruthful(a)
    ensures TestsTruthful(b)
  {
    forall i | 0 <= i < |b.tests| && b.tests[i].passed == Some(true) ensures RunTest(b, b.tests[i]) == Ok(true) {
      TestSeesView(a, b, b.tests[i]);
    }
  }

  lemma TestIgnoresOutcome(rule: Rule, test: TestCase, passed: Option<bool>)
    ensures RunTest(rule, test.(passed := passed)) == RunTest(rule, test)
  {
  }

  lemma FreshOutcomesTruthful(rule: Rule, tests: seq<TestCase>, status: Status)
    requires RunTests(rule, rule.tests) == Ok(tests)
    ensures TestsTruthful(WithStatus(rule.(tests := tests), status))
  {
    var next := WithStatus(rule.(tests := tests), status);
    OutcomesAreNotContent(rule, tests);
    assert Content(next) == Content(rule);
    forall i | 0 <= i < |next.tests| && next.tests[i].passed == Some(true) ensures RunTest(next, next.tests[i]) == Ok(true) {
      TestSeesView(rule, next, tests[i]);
      TestIgnoresOutcome(rule, rule.tests[i], tests[i].passed);
      assert tests[i] == rule.tests[i].(passed := Some(RunTest(rule, rule.tests[i]).value));
    }
  }

  lemma ConflictsSymmetric(a: Rule, b: Rule)
    ensures EffectConflicts(a, b) <==> EffectConflicts(b, a)
  {
    if EffectConflicts(a, b) {
      ConflictOneWay(a, b);
    }
    if EffectConflicts(b, a) {
      ConflictOneWay(b, a);
    }
  }

  lemma ConflictOneWay(a: Rule, b: Rule)
    requires EffectConflicts(a, b)
    ensures EffectConflicts(b, a)
  {
    forall key | key in b.scope && key in a.scope
      ensures if b.scope[key].Arr? && a.scope[key].Arr? then Intersects(b.scope[key].items, a.scope[key].items)
              else b.scope[key] == a.scope[key]
    {
      if b.scope[key].Arr? && a.scope[key].Arr? {
        var x :| x in a.scope[key].items && x in b.scope[key].items;
      }
    }
  }

  lemma ActiveRulesExactly(rules: seq<Rule>, validAt: Option<int>, knownAt: Option<int>)
    ensures forall r :: r in ActiveRules(rules, validAt, knownAt) <==> r in rules && RulePicked(r, validAt, knownAt)
  {
    FilterMembers(RulePicker(validAt, knownAt), rules);
    SortKeeps(RuleLe, Filter(RulePicker(validAt, knownAt), rules));
  }

  /** Changing one row keeps the table good when the new row is truthful and fits beside the others. */
  lemma UpdateKeepsGood(rules: seq<Rule>, i: nat, rule: Rule)
    requires GoodRules(rules) && i < |rules| && Content(rule) == Content(rules[i])
    requires Qualified(rule) && TestsTruthful(rule)
    requires forall j :: 0 <= j < |rules| && j != i ==> Coexist(rule, rules[j])
    ensures GoodRules(rules[i := rule])
  {
    var next := rules[i := rule];
    assert rule.id == Content(rule).id == rules[i].id;
    assert rule.logicalKey == Content(rule).logicalKey == rules[i].logicalKey;
    assert rule.version == Content(rule).version == rules[i].version;
    forall j | 0 <= j < |rules| && j != i ensures Coexist(next[j], rule) {
      ConflictsSymmetric(rule, rules[j]);
    }
  }

  lemma NewRowKeepsGood(rules: seq<Rule>, rule: Rule)
    requires GoodRules(rules) && rule.status != Active && TestsTruthful(rule)
    requires FindRule(rules, rule.id).None? && !VersionUsed(rules, rule.logicalKey, rule.version)
    ensures GoodRules(rules + [rule])
  {
    NewRowIsDistinct(rules, rule);
    assert forall other :: Coexist(rule, other) && Coexist(other, rule);
  }

  lemma NewRowIsDistinct(rules: seq<Rule>, rule: Rule)
    requires DistinctRuleIds(rules) && DistinctRuleVersions(rules)
    requires FindRule(rules, rule.id).None? && !VersionUsed(rules, rule.logicalKey, rule.version)
    ensures DistinctRuleIds(rules + [rule]) && DistinctRuleVersions(rules + [rule])
  {
    forall j | 0 <= j < |rules| ensures !(rules[j].logicalKey == rule.logicalKey && rules[j].version == rule.version) {
    }
  }

  lemma CreatedKeepsGood(rules: seq<Rule>, draft: RuleDraft, id: string, now: int)
    requires GoodRules(rules) && Created(rules, draft, id, now).Some?
    ensures GoodRules(Created(rules, draft, id, now).value)
  {
    if !IsRepeat(rules, draft) {
      NewRowKeepsGood(rules, NewRule(draft, id, NewVersion(rules, draft), now));
    }
  }

  lemma SupersedeKeepsGood(rules: seq<Rule>, predecessor: Option<string>, now: int)
    requires GoodRules(rules) && Supersede(rules, predecessor, now).Some?
    ensures GoodRules(Supersede(rules, predecessor, now).value)
  {
    if predecessor.Some? {
      var j := FindRule(rules, predecessor.value).value;
      var row := SupersededRow(rules[j], now);
      TruthfulnessIsContent(rules[j], row);
      UpdateKeepsGood(rules, j, row);
    }
  }

  /** A rule in force after the replacement was in force before it, and was not the predecessor. */
  lemma StaysInForce(rules: seq<Rule>, predecessor: Option<string>, now: int, j: nat)
    requires Supersede(rules, predecessor, now).Some? && j < |rules|
    requires InForce(Supersede(rules, predecessor, now).value[j]) && DistinctRuleIds(rules)
    ensures Supersede(rules, predecessor, now).value[j] == rules[j] && predecessor != Some(rules[j].id)
  {
  }

  /** The guard leaves nothing in force that the activated rule could not stand beside. */
  lemma GuardedRulesCoexist(rules: seq<Rule>, rule: Rule, item: Rule)
    requires MayActivate(rules, rule) && item in rules && InForce(item) && item.id != rule.id && rule.predecessor != Some(item.id)
    ensures rule.logicalKey != item.logicalKey && !EffectConflicts(rule, item)
  {
    ActiveRulesExactly(rules, None, None);
    assert !SameKeyBlocks(rule, item) && !ConflictBlocks(rule, item);
  }

  lemma ActivatedKeepsGood(rules: seq<Rule>, id: string, expected: Option<int>, now: int)
    requires GoodRules(rules) && Activated(rules, id, expected, now).Some?
    ensures GoodRules(Activated(rules, id, expected, now).value)
  {
    var i := FindRule(rules, id).value;
    var rule := rules[i];
    var superseded := Supersede(rules, rule.predecessor, now).value;
    SupersedeKeepsGood(rules, rule.predecessor, now);
    var row := WithStatus(superseded[i], Active);
    TruthfulnessIsContent(superseded[i], row);
    forall j | 0 <= j < |rules| && j != i ensures Coexist(row, superseded[j]) {
      ActivatedCoexists(rules, i, row, superseded, now, j);
    }
    UpdateKeepsGood(superseded, i, row);
  }

  lemma ActivatedCoexists(rules: seq<Rule>, i: nat, row: Rule, superseded: seq<Rule>, now: int, j: nat)
    requires GoodRules(rules) && i < |rules| && MayActivate(rules, rules[i])
    requires Supersede(rules, rules[i].predecessor, now) == Some(superseded) && row == WithStatus(superseded[i], Active)
    requires j < |rules| && j != i
    ensures Coexist(row, superseded[j])
  {
    if InForce(row) && InForce(superseded[j]) {
      StaysInForce(rules, rules[i].predecessor, now, j);
      GuardedRulesCoexist(rules, rules[i], rules[j]);
    }
  }

  /** Every call keeps the table good: at most one rule in force per logical key, no two rules in force in conflict,
      active rules valid and passing, recorded passes true. */
  lemma StepKeepsGood(rules: seq<Rule>, next: seq<Rule>)
    requires GoodRules(rules) && RuleStep(rules, next)
    ensures GoodRules(next)
  {
    if next != rules {
      if draft, id, now :| Created(rules, draft, id, now) == Some(next) {
        CreatedKeepsGood(rules, draft, id, now);
      } else if id :| Validated(rules, id) == Some(next) {
        var i := FindRule(rules, id).value;
        TruthfulnessIsContent(rules[i], next[i]);
        UpdateKeepsGood(rules, i, next[i]);
      } else if id :| Tested(rules, id) == Some(next) {
        var i := FindRule(rules, id).value;
        if !ValidPayload(rules[i]) {
          TruthfulnessIsContent(rules[i], next[i]);
        } else {
          FreshOutcomesTruthful(rules[i], RunTests(rules[i], rules[i].tests).value, next[i].status);
          OutcomesAreNotContent(rules[i], RunTests(rules[i], rules[i].tests).value);
        }
        UpdateKeepsGood(rules, i, next[i]);
      } else {
        var id, expected, now :| Activated(rules, id, expected, now) == Some(next);
        ActivatedKeepsGood(rules, id, expected, now);
      }
    }
  }

  /** What the activation guard cannot see: effect maps that agree, or a shared scope key compared by plain inequality. */
  ghost predicate BlindSpot(x: Rule, y: Rule) {
    !EffectsDisagree(x.effects, y.effects) || exists key :: ComparedByInequality(x.scope, y.scope, key)
  }

  /** A tie the guard does not see: two rules of equal priority whose scopes can match together contest a target. */
  ghost predicate HiddenTie(x: Rule, y: Rule) {
    x.priority == y.priority && Clash(x, y) && CanBothMatch(Obj(x.scope), Obj(y.scope)) && BlindSpot(x, y)
  }

  /** The same on given data: the order of the two rules decides what the target is left with. */
  ghost predicate HiddenClash(x: Rule, y: Rule, target: string, data: Data) {
    x.priority == y.priority && !Commute(x, y, target, data) && BlindSpot(x, y)
  }

  ghost predicate NoHiddenTies(rules: seq<Rule>) {
    forall x, y :: x in rules && y in rules ==> !HiddenTie(x, y)
  }

  ghost predicate NoHiddenClash(rules: seq<Rule>, target: string, data: Data) {
    forall x, y :: x in rules && y in rules ==> !HiddenClash(x, y, target, data)
  }

  /** Two different rules in force that tie and apply together escaped the guard through a blind spot, if they disagree. */
  lemma TogetherInForce(rules: seq<Rule>, x: Rule, y: Rule, context: Document)
    requires GoodRules(rules) && x in rules && y in rules && InForce(x) && InForce(y) && x != y
    requires x.priority == y.priority && ScopeMatches(x.scope, context) && ScopeMatches(y.scope, context)
    ensures BlindSpot(x, y)
  {
    var i :| 0 <= i < |rules| && rules[i] == x;
    var j :| 0 <= j < |rules| && rules[j] == y;
    assert Coexist(rules[i], rules[j]);
    CanBothMatchDecides(x.scope, y.scope);
    OverlapMissesExactly(x.scope, y.scope);
  }

  /** In a good table, two rules in force tie, contest a target and apply to some common context exactly when their tie is
      hidden from the guard. */
  lemma TieInForceIsHidden(rules: seq<Rule>, x: Rule, y: Rule)
    requires GoodRules(rules) && x in rules && y in rules && InForce(x) && InForce(y)
    ensures HiddenTie(x, y)
            <==> x.priority == y.priority && Clash(x, y)
                 && exists context :: ScopeMatches(x.scope, context) && ScopeMatches(y.scope, context)
  {
    CanBothMatchDecides(x.scope, y.scope);
    if x != y && x.priority == y.priority {
      if context :| ScopeMatches(x.scope, context) && ScopeMatches(y.scope, context) {
        TogetherInForce(rules, x, y, context);
      }
    }
  }

  /** In a good table, the order of two tied rules in force matters exactly when their clash is hidden from the guard. */
  lemma ClashInForceIsHidden(rules: seq<Rule>, x: Rule, y: Rule, target: string, data: Data)
    requires GoodRules(rules) && x in rules && y in rules && InForce(x) && InForce(y)
    ensures HiddenClash(x, y, target, data) <==> x.priority == y.priority && !Commute(x, y, target, data)
  {
    if x.priority == y.priority && !Commute(x, y, target, data) {
      OrderMattersByContest(x, y, target, data);
      TogetherInForce(rules, x, y, data.context);
    }
  }

  lemma ListedInForce(rules: seq<Rule>, validAt: Option<int>)
    ensures forall r :: r in ActiveRules(rules, validAt, None) ==> r in rules && InForce(r)
  {
    ActiveRulesExactly(rules, validAt, None);
  }

  /** Ties among the rules in force commute on a target exactly when none of them is hidden from the guard. */
  lemma CommuteUnlessHidden(rules: seq<Rule>, validAt: Option<int>, target: string, data: Data)
    requires GoodRules(rules)
    ensures TiesCommute(ActiveRules(rules, validAt, None), target, data)
            <==> NoHiddenClash(ActiveRules(rules, validAt, None), target, data)
  {
    var active := ActiveRules(rules, validAt, None);
    ListedInForce(rules, validAt);
    forall x, y | x in active && y in active
      ensures HiddenClash(x, y, target, data) <==> x.priority == y.priority && !Commute(x, y, target, data)
    {
      ClashInForceIsHidden(rules, x, y, target, data);
    }
  }

  /** Ties are harmless exactly when none is hidden: the order of tied rules never decides what a target is left with,
      whichever of the rules in force take part, exactly when no two of them clash unseen by the guard. */
  lemma TiesHarmlessExactly(rules: seq<Rule>, validAt: Option<int>, target: string, data: Data)
    requires GoodRules(rules)
    ensures OrderFree(ActiveRules(rules, validAt, None), target, data)
            <==> NoHiddenClash(ActiveRules(rules, validAt, None), target, data)
  {
    OrderFreeExactly(ActiveRules(rules, validAt, None), target, data);
    CommuteUnlessHidden(rules, validAt, target, data);
  }

  lemma ClashIsTie(x: Rule, y: Rule, target: string, data: Data)
    requires HiddenClash(x, y, target, data)
    ensures HiddenTie(x, y)
  {
    OrderMattersByContest(x, y, target, data);
    CanBothMatchDecides(x.scope, y.scope);
  }

  /** Rules without a hidden tie have no hidden clash on any data: the check needs the effects and scopes only. */
  lemma NoTieNoClash(rules: seq<Rule>, target: string, data: Data)
    requires NoHiddenTies(rules)
    ensures NoHiddenClash(rules, target, data)
  {
    forall x, y | x in rules && y in rules ensures !HiddenClash(x, y, target, data) {
      if HiddenClash(x, y, target, data) {
        ClashIsTie(x, y, target, data);
      }
    }
  }

  /** A test call ends in REVIEW exactly when the payload is valid and the engine gives every persisted test the
      effects it expects. */
  lemma TestsDecideReview(rules: seq<Rule>, id: string)
    requires Tested(rules, id).Some?
    ensures var i := FindRule(rules, id).value;
            Tested(rules, id).value[i].status == Review
            <==> ValidPayload(rules[i]) && forall t :: 0 <= t < |rules[i].tests| ==> RunTest(rules[i], rules[i].tests[t]) == Ok(true)
  {
    var i := FindRule(rules, id).value;
    if ValidPayload(rules[i]) {
      var outcomes := RunTests(rules[i], rules[i].tests).value;
      forall t | 0 <= t < |outcomes|
        ensures outcomes[t].passed == Some(true) <==> RunTest(rules[i], rules[i].tests[t]) == Ok(true)
      {
      }
      assert AllPassed(outcomes) <==> forall t :: 0 <= t < |rules[i].tests| ==> RunTest(rules[i], rules[i].tests[t]) == Ok(true);
    }
  }

  /** A rule created without a version number becomes the newest version of its key. */
  lemma CreatedIsNewest(rules: seq<Rule>, draft: RuleDraft, id: string, now: int)
    requires Created(rules, draft, id, now).Some? && !IsRepeat(rules, draft) && draft.version.None?
    ensures var next := Created(rules, draft, id, now).value;
            forall i :: 0 <= i < |rules| && rules[i].logicalKey == draft.logicalKey ==> rules[i].version < next[|rules|].version
  {
    assert NewVersion(rules, draft) == MaxVersion(rules, draft.logicalKey) + 1;
  }

  /** Activation puts a rule in force exactly when it was never superseded and does not replace itself; a rule that was
      superseded is only marked active. The rule it replaces is out of force. */
  lemma ActivationTakesForceExactly(rules: seq<Rule>, id: string, expected: Option<int>, now: int)
    requires Activated(rules, id, expected, now).Some?
    ensures var i, next := FindRule(rules, id).value, Activated(rules, id, expected, now).value;
            && (InForce(next[i]) <==> rules[i].knownTo.None? && rules[i].predecessor != Some(id))
            && (rules[i].predecessor.Some? ==>
                  var p := FindRule(rules, rules[i].predecessor.value);
                  p.Some? && p.value < |next| && !InForce(next[p.value]))
  {
    var i := FindRule(rules, id).value;
    var superseded := Supersede(rules, rules[i].predecessor, now).value;
    assert Activated(rules, id, expected, now) == Some(superseded[i := WithStatus(superseded[i], Active)]);
  }

  /** Asking to create a rule again under the same idempotency key changes nothing, however much happened since. */
  lemma CreateIsIdempotent(rules: seq<Rule>, draft: RuleDraft, id: string, now: int, later: seq<Rule>,
                           again: RuleDraft, otherId: string, otherNow: int)
    requires draft.idempotencyKey.Some? && draft.idempotencyKey.value != "" && again.idempotencyKey == draft.idempotencyKey
    requires Created(rules, draft, id, now).Some? && RuleHistory(Created(rules, draft, id, now).value, later)
    ensures Created(later, again, otherId, otherNow) == Some(later)
  {
    var next, key := Created(rules, draft, id, now).value, draft.idempotencyKey.value;
    assert exists i :: 0 <= i < |next| && next[i].idempotencyKey == Some(key) by {
      if IsRepeat(rules, draft) {
        assert next[FindIdempotent(rules, key).value].idempotencyKey == Some(key);
      } else {
        assert next[|rules|].idempotencyKey == Some(key);
      }
    }
    var i :| 0 <= i < |next| && next[i].idempotencyKey == Some(key);
    assert later[i].idempotencyKey == Content(later[i]).idempotencyKey == Content(next[i]).idempotencyKey == Some(key);
  }

  /** An activation that expects a version of the row from before another call wrote it is refused. */
  lemma StaleActivationRefused(rules: seq<Rule>, later: seq<Rule>, id: string, now: int)
    requires RuleHistory(rules, later) && FindRule(rules, id).Some? && FindRule(later, id) == FindRule(rules, id)
    requires rules[FindRule(rules, id).value].rowVersion != 0
    requires later[FindRule(rules, id).value] != rules[FindRule(rules, id).value]
    ensures Activated(later, id, Some(rules[FindRule(rules, id).value].rowVersion), now) == None
  {
    var i := FindRule(rules, id).value;
    assert RowContinues(rules[i], later[i]);
    assert ExpectedVersion(later[i], Some(rules[i].rowVersion)) == rules[i].rowVersion;
    VersionNeverFalls(later, later[i].predecessor, now, i);
    OtherVersionRefused(later, id, i, Some(rules[i].rowVersion), now);
  }

  /** Superseding the predecessor advances its version, and no other. */
  lemma VersionNeverFalls(rules: seq<Rule>, predecessor: Option<string>, now: int, i: nat)
    requires i < |rules|
    ensures Supersede(rules, predecessor, now).Some? ==>
              rules[i].rowVersion <= Supersede(rules, predecessor, now).value[i].rowVersion
  {
  }

  lemma OtherVersionRefused(rules: seq<Rule>, id: string, i: nat, expected: Option<int>, now: int)
    requires FindRule(rules, id) == Some(i) && ExpectedVersion(rules[i], expected) < rules[i].rowVersion
    requires var superseded := Supersede(rules, rules[i].predecessor, now);
             superseded.Some? ==> rules[i].rowVersion <= superseded.value[i].rowVersion
    ensures Activated(rules, id, expected, now) == None
  {
  }

  /** Validating a rule withdraws it from every listing, whatever its status and payload were, and no other rule. */
  lemma ValidatingWithdraws(rules: seq<Rule>, id: string, validAt: Option<int>, knownAt: Option<int>)
    requires DistinctRuleIds(rules) && Validated(rules, id).Some?
    ensures ActiveRules(Validated(rules, id).value, validAt, knownAt)
         == Filter((r: Rule) => r.id != id, ActiveRules(rules, validAt, knownAt))
  {
    var i := FindRule(rules, id).value;
    var next := Validated(rules, id).value;
    RuleLeTotalPreorder();
    FilterSort(RuleLe, (r: Rule) => r.id != id, Filter(RulePicker(validAt, knownAt), rules));
    WithdrawnRow(rules, i, next[i], validAt, knownAt);
  }

  lemma {:induction false} WithdrawnRow(rules: seq<Rule>, i: nat, row: Rule, validAt: Option<int>, knownAt: Option<int>)
    requires i < |rules| && row.status in {Review, Validating}
    requires forall j :: 0 <= j < |rules| ==> (rules[j].id == rules[i].id <==> j == i)
    ensures Filter(RulePicker(validAt, knownAt), rules[i := row])
         == Filter((r: Rule) => r.id != rules[i].id, Filter(RulePicker(validAt, knownAt), rules))
  {
    var picker, others := RulePicker(validAt, knownAt), (r: Rule) => r.id != rules[i].id;
    var before, after := rules[..i], rules[i + 1..];
    assert rules == before + ([rules[i]] + after) && rules[i := row] == before + ([row] + after);
    FilterAppend(picker, before, [rules[i]] + after);
    FilterAppend(picker, before, [row] + after);
    FilterAppend(others, Filter(picker, before), Filter(picker, [rules[i]] + after));
    assert ([row] + after)[1..] == after && ([rules[i]] + after)[1..] == after;
    AllKept(others, picker, before);
    AllKept(others, picker, after);
    assert ([rules[i]] + Filter(picker, after))[1..] == Filter(picker, after);
  }

  lemma AllKept(p: Rule -> bool, picker: Rule -> bool, rules: seq<Rule>)
    requires forall r :: r in rules ==> p(r)
    ensures Filter(p, Filter(picker, rules)) == Filter(picker, rules)
  {
    FilterMembers(picker, rules);
    KeepsEach(p, Filter(picker, rules));
  }

  lemma {:induction false} KeepsEach<T>(p: T -> bool, s: seq<T>)
    requires forall x :: x in s ==> p(x)
    ensures Filter(p, s) == s
  {
    if s != [] {
      assert s[0] in s;
      KeepsEach(p, s[1..]);
    }
  }
}
