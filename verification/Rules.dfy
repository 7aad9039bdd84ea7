/** Rule records, payload validation, scope matching and the conflict policy (domain/rules.py). */
module Rules {
  import opened Prelude
  import opened Json
  import opened Dsl
  import opened Evaluator

  datatype Status = Draft | Validating | Testing | Review | Active | Superseded | Revoked

  datatype Rule = Rule(
    id: string, logicalKey: string, version: nat,
    scope: Document, condition: Json, effects: seq<Json>, exceptions: seq<Json>, priority: int,
    validFrom: Option<int>, validTo: Option<int>,
    ontology: string, provenance: Option<string>, predecessor: Option<string>,
    idempotencyKey: Option<string>, knownFrom: int,
    knownTo: Option<int>, status: Status, rowVersion: int, tests: seq<TestCase>)

  /** A persisted test of a rule; passed records the outcome of its last run. The explanation text is not modelled:
      explained says whether the text the test expects occurs in the explanation of its run, which the rule's immutable
      content and the test's own data determine. */
  datatype TestCase = TestCase(
    name: string, facts: seq<Fact>, relations: seq<Relation>, context: Document, applicant: Document,
    expected: seq<Json>, explained: bool, passed: Option<bool>)

  datatype EffectType =
    | SetEffect
    | AddEffect
    | SubtractEffect
    | GrantEffect
    | DenyEffect
    | MarkEligible
    | MarkIneligible
    | EmitDerived
    | UnknownEffect

  function TypeOf(effect: Document): EffectType {
    TypeNamed(Get(effect, "type"))
  }

  function TypeNamed(t: Json): EffectType {
    if t == Str("SET") then SetEffect
    else if t == Str("ADD") then AddEffect
    else if t == Str("SUBTRACT") then SubtractEffect
    else if t == Str("GRANT") then GrantEffect
    else if t == Str("DENY") then DenyEffect
    else if t == Str("MARK_ELIGIBLE") then MarkEligible
    else if t == Str("MARK_INELIGIBLE") then MarkIneligible
    else if t == Str("EMIT_DERIVED") then EmitDerived
    else UnknownEffect
  }

  /** An effect value written as a DSL node rather than as a plain value. */
  predicate IsExpression(value: Json) {
    value.Obj? && "kind" in value.fields
  }

  datatype EffectProblem =
    | NotAnObject
    | UnknownType
    | MissingTarget
    | MissingValue
    | InValue(problem: Problem)

  function EffectProblems(effect: Json): seq<EffectProblem> {
    if !effect.Obj? then [NotAnObject]
    else
      var fields, target, value := effect.fields, Get(effect.fields, "target"), Get(effect.fields, "value");
      (if TypeOf(fields) == UnknownEffect then [UnknownType] else [])
      + (if !target.Str? || target.s == "" then [MissingTarget] else [])
      + (if TypeOf(fields) !in {MarkEligible, MarkIneligible} && "value" !in fields then [MissingValue] else [])
      + (if IsExpression(value) then Map((p: Problem) => InValue(p), Problems(value, 0, MAX_DEPTH)) else [])
  }

  /** The characters str.strip removes. */
  const WHITESPACE := " \t\n\r\U{000B}\U{000C}\U{001C}\U{001D}\U{001E}\U{001F}\U{0085}\U{00A0}\U{1680}\U{2000}\U{2001}"
    + "\U{2002}\U{2003}\U{2004}\U{2005}\U{2006}\U{2007}\U{2008}\U{2009}\U{200A}\U{2028}\U{2029}\U{202F}\U{205F}\U{3000}"

  predicate NotBlank(s: string) {
    exists i :: 0 <= i < |s| && s[i] !in WHITESPACE
  }

  /** validate_rule_payload reports no error. */
  predicate ValidPayload(rule: Rule) {
    && Valid(rule.condition)
    && (forall i :: 0 <= i < |rule.exceptions| ==> Valid(rule.exceptions[i]))
    && rule.effects != []
    && (forall i :: 0 <= i < |rule.effects| ==> EffectProblems(rule.effects[i]) == [])
    && NotBlank(rule.logicalKey)
  }

  /** One scope expectation against the context's value: membership for a list, recursion when both sides are
      objects, equality otherwise. */
  predicate ValueMatches(expected: Json, actual: Json)
    decreases expected
  {
    if expected.Arr? then actual in expected.items
    else if expected.Obj? && actual.Obj? then
      forall key :: key in expected.fields ==> ValueMatches(expected.fields[key], Get(actual.fields, key))
    else actual == expected
  }

  predicate ScopeMatches(scope: Document, context: Document) {
    ValueMatches(Obj(scope), Obj(context))
  }

  predicate Intersects(a: seq<Json>, b: seq<Json>) {
    exists x :: x in a && x in b
  }

  /** The activation guard's overlap test: lists by intersection, everything else by equality. */
  predicate ScopesOverlap(left: Document, right: Document) {
    forall key :: key in left && key in right ==>
                    if left[key].Arr? && right[key].Arr? then Intersects(left[key].items, right[key].items)
                    else left[key] == right[key]
  }

  /** What a rule does to each target, the last effect on a target winning. */
  function EffectMap(effects: seq<Json>): map<string, (Json, Json)>
  {
    if effects == [] then map[]
    else
      var last := effects[|effects| - 1];
      var before := EffectMap(effects[..|effects| - 1]);
      if last.Obj? && Get(last.fields, "target").Str? then
        before[last.fields["target"].s := (Get(last.fields, "type"), Get(last.fields, "value"))]
      else before
  }

  predicate EffectsDisagree(left: seq<Json>, right: seq<Json>) {
    exists target :: target in EffectMap(left) && target in EffectMap(right)
                     && EffectMap(left)[target] != EffectMap(right)[target]
  }

  predicate EffectConflicts(left: Rule, right: Rule) {
    left.priority == right.priority && ScopesOverlap(left.scope, right.scope) && EffectsDisagree(left.effects, right.effects)
  }
}
