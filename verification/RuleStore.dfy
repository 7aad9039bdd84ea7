/** The rule lifecycle (rule_service.py) as functions of the rule table. */
module RuleStore {
  import opened Prelude
  import opened Json
  import opened Evaluator
  import opened Rules
  import opened Sorting
  import opened Engine
  import opened FactStore

  /** Returned by active_rules() without instants. */
  predicate InForce(rule: Rule) {
    rule.status == Active && rule.knownTo.None?
  }

  predicate RulePicked(rule: Rule, validAt: Option<int>, knownAt: Option<int>) {
    && (rule.status == Active || (knownAt.Some? && rule.status == Superseded && rule.knownTo.Some?))
    && HoldsAt(rule.validFrom, rule.validTo, validAt)
    && KnownAt(rule.knownFrom, rule.knownTo, knownAt)
  }

  function RulePicker(validAt: Option<int>, knownAt: Option<int>): Rule -> bool {
    rule => RulePicked(rule, validAt, knownAt)
  }

  function ActiveRules(rules: seq<Rule>, validAt: Option<int>, knownAt: Option<int>): seq<Rule> {
    Sort(RuleLe, Filter(RulePicker(validAt, knownAt), rules))
  }

  function FindRule(rules: seq<Rule>, id: string): (r: Option<nat>)
    ensures r.Some? ==> r.value < |rules| && rules[r.value].id == id
    ensures r.None? ==> forall i :: 0 <= i < |rules| ==> rules[i].id != id
  {
    if rules == [] then None
    else if rules[0].id == id then Some(0)
    else
      match FindRule(rules[1..], id)
      case Some(i) => Some(i + 1)
      case None => None
  }

  function FindIdempotent(rules: seq<Rule>, key: string): (r: Option<nat>)
    ensures r.Some? ==> r.value < |rules| && rules[r.value].idempotencyKey == Some(key)
    ensures r.None? ==> forall i :: 0 <= i < |rules| ==> rules[i].idempotencyKey != Some(key)
  {
    if rules == [] then None
    else if rules[0].idempotencyKey == Some(key) then Some(0)
    else
      match FindIdempotent(rules[1..], key)
      case Some(i) => Some(i + 1)
      case None => None
  }

  /** The highest version of a logical key, or zero when the key is new. */
  function MaxVersion(rules: seq<Rule>, logicalKey: string): (v: nat)
    ensures forall i :: 0 <= i < |rules| && rules[i].logicalKey == logicalKey ==> rules[i].version <= v
    ensures v == 0 || exists i :: 0 <= i < |rules| && rules[i].logicalKey == logicalKey && rules[i].version == v
  {
    if rules == [] then 0
    else
      var rest := MaxVersion(rules[1..], logicalKey);
      if rules[0].logicalKey == logicalKey && rules[0].version > rest then rules[0].version else rest
  }

  /** The flag says that the interval, ontology and relationship checks of create accepted the draft. */
  datatype RuleDraft = RuleDraft(
    logicalKey: string, version: Option<nat>, scope: Document, condition: Json, effects: seq<Json>, exceptions: seq<Json>,
    priority: int, validFrom: Option<int>, validTo: Option<int>, ontology: string, provenance: Option<string>,
    predecessor: Option<string>, idempotencyKey: Option<string>, tests: seq<TestCase>, admissible: bool)

  function Untested(test: TestCase): TestCase {
    test.(passed := None)
  }

  function NewRule(draft: RuleDraft, id: string, version: nat, now: int): Rule {
    Rule(id, draft.logicalKey, version, draft.scope, draft.condition, draft.effects, draft.exceptions, draft.priority,
         draft.validFrom, draft.validTo, draft.ontology, draft.provenance, draft.predecessor, draft.idempotencyKey, now,
         None, Draft, 1, Map(Untested, draft.tests))
  }

  function NewVersion(rules: seq<Rule>, draft: RuleDraft): nat {
    if draft.version.Some? && draft.version.value != 0 then draft.version.value
    else MaxVersion(rules, draft.logicalKey) + 1
  }

  predicate VersionUsed(rules: seq<Rule>, logicalKey: string, version: nat) {
    exists i :: 0 <= i < |rules| && rules[i].logicalKey == logicalKey && rules[i].version == version
  }

  /** create was asked for before under the same idempotency key. */
  predicate IsRepeat(rules: seq<Rule>, draft: RuleDraft) {
    draft.idempotencyKey.Some? && draft.idempotencyKey.value != "" && FindIdempotent(rules, draft.idempotencyKey.value).Some?
  }

  /** The table's uniqueness and foreign-key constraints admit the new row. */
  predicate RowFits(rules: seq<Rule>, draft: RuleDraft, id: string) {
    && id != "" && FindRule(rules, id).None?
    && (draft.predecessor.Some? ==> FindRule(rules, draft.predecessor.value).Some?)
    && !VersionUsed(rules, draft.logicalKey, NewVersion(rules, draft))
    && (draft.idempotencyKey.Some? ==> FindIdempotent(rules, draft.idempotencyKey.value).None?)
  }

  /** create: None where the service raises. */
  function Created(rules: seq<Rule>, draft: RuleDraft, id: string, now: int): Option<seq<Rule>> {
    if IsRepeat(rules, draft) then Some(rules)
    else if !draft.admissible || !RowFits(rules, draft, id) then None
    else Some(rules + [NewRule(draft, id, NewVersion(rules, draft), now)])
  }

  function WithStatus(rule: Rule, status: Status): Rule {
    rule.(status := status, rowVersion := rule.rowVersion + 1)
  }

  /** validate: looks at the payload only, whatever the current status. */
  function Validated(rules: seq<Rule>, id: string): Option<seq<Rule>> {
    match FindRule(rules, id)
    case None => None
    case Some(i) => Some(rules[i := WithStatus(rules[i], if ValidPayload(rules[i]) then Review else Validating)])
  }

  function Project(effect: Json): Result<Json> {
    if !effect.Obj? then Err(Stuck)
    else Ok(Obj(map key | key in effect.fields && key in {"type", "target", "value"} :: effect.fields[key]))
  }

  function ProjectAll(effects: seq<Json>): Result<seq<Json>> {
    if effects == [] then Ok([])
    else
      var first :- Project(effects[0]);
      var rest :- ProjectAll(effects[1..]);
      Ok([first] + rest)
  }

  /** The effect traces of the first matched rule. */
  function MatchedEffects(traces: seq<RuleTrace>): seq<Json> {
    if traces == [] then [] else if traces[0].Matched? then traces[0].effects else MatchedEffects(traces[1..])
  }

  /** Runs one test: the engine on this rule alone, as if it were active; its effects and explanation must be the expected
      ones. */
  function RunTest(rule: Rule, test: TestCase): Result<bool> {
    var run :- RunEngine([rule.(status := Active)], Data(test.facts, test.relations, test.context, test.applicant));
    var actual :- ProjectAll(MatchedEffects(run.traces));
    var expected :- ProjectAll(test.expected);
    Ok(actual == expected && test.explained)
  }

  function RunTests(rule: Rule, tests: seq<TestCase>): (r: Result<seq<TestCase>>)
    ensures r.Ok? ==> |r.value| == |tests|
    ensures r.Ok? ==> forall i :: 0 <= i < |tests| ==>
                                    && RunTest(rule, tests[i]).Ok?
                                    && r.value[i] == tests[i].(passed := Some(RunTest(rule, tests[i]).value))
    ensures r.Err? ==> exists i :: 0 <= i < |tests| && RunTest(rule, tests[i]).Err?
  {
    if tests == [] then Ok([])
    else
      var passed :- RunTest(rule, tests[0]);
      var rest :- RunTests(rule, tests[1..]);
      Ok([tests[0].(passed := Some(passed))] + rest)
  }

  predicate AllPassed(tests: seq<TestCase>) {
    forall i :: 0 <= i < |tests| ==> tests[i].passed == Some(true)
  }

  /** test: records every outcome; a test that raises aborts the call. */
  function Tested(rules: seq<Rule>, id: string): Option<seq<Rule>> {
    match FindRule(rules, id)
    case None => None
    case Some(i) =>
      var rule := rules[i];
      if !ValidPayload(rule) then Some(rules[i := WithStatus(rule, Validating)])
      else if rule.tests == [] then None
      else
        match RunTests(rule, rule.tests)
        case Err(_) => None
        case Ok(tests) =>
          Some(rules[i := WithStatus(rule.(tests := tests), if AllPassed(tests) then Review else Testing)])
  }

  /** The items of the active list that block activation: another version in force, or a conflicting rule. */
  predicate SameKeyBlocks(rule: Rule, item: Rule) {
    item.id != rule.id && item.logicalKey == rule.logicalKey && rule.predecessor != Some(item.id)
  }

  predicate ConflictBlocks(rule: Rule, item: Rule) {
    item.id != rule.id && rule.predecessor != Some(item.id) && item.logicalKey != rule.logicalKey && EffectConflicts(rule, item)
  }

  /** The activation guard. */
  predicate MayActivate(rules: seq<Rule>, rule: Rule) {
    && ValidPayload(rule)
    && rule.provenance.Some? && rule.provenance.value != ""
    && rule.tests != [] && AllPassed(rule.tests)
    && forall item :: item in ActiveRules(rules, None, None) ==> !SameKeyBlocks(rule, item) && !ConflictBlocks(rule, item)
  }

  /** The row version the update must find: the caller's, or the one read at the start. */
  function ExpectedVersion(rule: Rule, expected: Option<int>): int {
    if expected.Some? && expected.value != 0 then expected.value else rule.rowVersion
  }

  function SupersededRow(rule: Rule, now: int): Rule {
    WithStatus(rule.(knownTo := Some(now)), Superseded)
  }

  function Supersede(rules: seq<Rule>, predecessor: Option<string>, now: int): (r: Option<seq<Rule>>)
    ensures r.Some? ==> |r.value| == |rules|
  {
    if predecessor.None? then Some(rules)
    else
      match FindRule(rules, predecessor.value)
      case None => None
      case Some(j) => Some(rules[j := SupersededRow(rules[j], now)])
  }

  /** activate: None where the service raises; the current status is not looked at. */
  function Activated(rules: seq<Rule>, id: string, expected: Option<int>, now: int): Option<seq<Rule>> {
    match FindRule(rules, id)
    case None => None
    case Some(i) =>
      var rule := rules[i];
      if !MayActivate(rules, rule) then None
      else
        match Supersede(rules, rule.predecessor, now)
        case None => None
        case Some(superseded) =>
          if superseded[i].rowVersion != ExpectedVersion(rule, expected) then None
          else Some(superseded[i := WithStatus(superseded[i], Active)])
  }

  /** What a service call does to the rule table. */
  ghost predicate RuleStep(rules: seq<Rule>, next: seq<Rule>) {
    || next == rules
    || (exists draft, id, now :: Created(rules, draft, id, now) == Some(next))
    || (exists id :: Validated(rules, id) == Some(next))
    || (exists id :: Tested(rules, id) == Some(next))
    || (exists id, expected, now :: Activated(rules, id, expected, now) == Some(next))
  }
}
