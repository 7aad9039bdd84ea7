/** The deterministic rule engine (domain/engine.py): rules are ordered, filtered by scope, gated by their
    condition and exceptions, and their effects are folded into an accumulator. */
module Engine {
  import opened Prelude
  import opened Text
  import opened Json
  import opened Graph
  import opened Evaluator
  import opened Rules
  import opened Sorting

  datatype Accumulated = Accumulated(
    scalars: Document, grants: seq<Json>, denials: seq<Json>, eligible: Option<bool>, emitted: seq<Json>,
    claimed: map<string, int>)

  const NOTHING := Accumulated(map[], [], [], None, [], map[])

  datatype Applied = Applied(result: Accumulated, trace: Json)

  datatype RuleRef = RuleRef(id: string, logicalKey: string, version: int)

  datatype RuleTrace =
    | ScopeMismatch(rule: RuleRef)
    | NotMatched(rule: RuleRef, condition: Json, conditionSteps: seq<Json>)
    | Excepted(rule: RuleRef, condition: Json, conditionSteps: seq<Json>, exceptionSteps: seq<Json>)
    | Matched(rule: RuleRef, condition: Json, conditionSteps: seq<Json>, exceptionSteps: seq<Json>, effects: seq<Json>)

  /** The engine's working state; after the last rule, its result. */
  datatype Run = Run(
    acc: Accumulated, deps: set<Node>, traces: seq<RuleTrace>, matched: seq<RuleRef>, versions: seq<RuleRef>)

  const START := Run(NOTHING, {}, [], [], [])

  /** resolve_value: an expression is interpreted, anything else is the value itself. */
  function Resolve(value: Json, data: Data): Result<Json> {
    if IsExpression(value) then
      var trace :- Eval(value, data);
      Ok(trace.value)
    else Ok(value)
  }

  function EffectValue(effect: Document, data: Data): Result<Json> {
    Resolve(Get(effect, "value"), data)
  }

  function TargetOf(effect: Document): Result<string> {
    if Get(effect, "target").Str? then Ok(effect["target"].s) else Err(Stuck)
  }

  /** The value an arithmetic effect starts from: computed so far, else the query context, else zero. */
  function InitialValue(scalars: Document, context: Document, target: string): Json {
    if target in scalars then scalars[target] else if target in context then context[target] else Num(0.0)
  }

  function Entry(kind: string, target: string, value: Json): Json {
    Obj(map["type" := Str(kind), "target" := Str(target), "value" := value])
  }

  /** One call of a registered effect handler. */
  function Handle(acc: Accumulated, effect: Document, data: Data): Result<Applied> {
    match TypeOf(effect)
    case UnknownEffect => Err(InvalidEffect)
    case MarkEligible =>
      var target :- TargetOf(effect);
      Ok(Applied(acc.(eligible := Some(true)), Entry("MARK_ELIGIBLE", target, Bool(true))))
    case MarkIneligible =>
      var target :- TargetOf(effect);
      Ok(Applied(acc.(eligible := Some(false)), Entry("MARK_INELIGIBLE", target, Bool(false))))
    case SetEffect =>
      var value :- EffectValue(effect, data);
      var target :- TargetOf(effect);
      Ok(Applied(acc.(scalars := acc.scalars[target := value]), Entry("SET", target, value)))
    case AddEffect => Arithmetic(acc, effect, data, "ADD", true)
    case SubtractEffect => Arithmetic(acc, effect, data, "SUBTRACT", false)
    case GrantEffect =>
      var value :- EffectValue(effect, data);
      var target :- TargetOf(effect);
      Ok(Applied(acc.(grants := acc.grants + [Obj(map["target" := Str(target), "value" := value])]),
                 Entry("GRANT", target, value)))
    case DenyEffect =>
      var value :- EffectValue(effect, data);
      var target :- TargetOf(effect);
      Ok(Applied(acc.(denials := acc.denials + [Obj(map["target" := Str(target), "value" := value])]),
                 Entry("DENY", target, value)))
    case EmitDerived =>
      var target :- TargetOf(effect);
      var value :- EffectValue(effect, data);
      Ok(Applied(acc.(emitted := acc.emitted + [Obj(map["type" := Str(target), "value" := value])]),
                 Entry("EMIT_DERIVED", target, value)))
  }

  function Arithmetic(acc: Accumulated, effect: Document, data: Data, kind: string, adds: bool): Result<Applied> {
    var value :- EffectValue(effect, data);
    var target :- TargetOf(effect);
    var start :- Numeric(InitialValue(acc.scalars, data.context, target));
    var amount :- Numeric(value);
    var result := Num(if adds then start + amount else start - amount);
    Ok(Applied(acc.(scalars := acc.scalars[target := result]),
               Obj(map["type" := Str(kind), "target" := Str(target), "value" := value, "result" := result])))
  }

  /** The target an earlier SET claimed, when this effect is a SET on it. */
  predicate IsOverridden(claimed: map<string, int>, effect: Document) {
    TypeOf(effect) == SetEffect && Get(effect, "target").Str? && effect["target"].s in claimed
  }

  function OverriddenEntry(effect: Document, priority: int): Json {
    Obj(map["type" := Str("SET"), "target" := Get(effect, "target"),
            "status" := Str("OVERRIDDEN_BY_HIGHER_PRIORITY"), "priority" := Num(priority as real)])
  }

  function ApplyEffect(acc: Accumulated, effect: Json, priority: int, data: Data): Result<Applied> {
    if !effect.Obj? then Err(Stuck)
    else if IsOverridden(acc.claimed, effect.fields) then Ok(Applied(acc, OverriddenEntry(effect.fields, priority)))
    else
      var applied :- Handle(acc, effect.fields, data);
      if TypeOf(effect.fields) == SetEffect then
        var target :- TargetOf(effect.fields);
        Ok(applied.(result := applied.result.(claimed := acc.claimed[target := priority])))
      else Ok(applied)
  }

  /** The effect loop of a matched rule, continuing after the traces already written. */
  function ApplyEffects(acc: Accumulated, traces: seq<Json>, effects: seq<Json>, priority: int, data: Data)
    : Result<(Accumulated, seq<Json>)>
    decreases |effects|
  {
    if effects == [] then Ok((acc, traces))
    else
      var first :- ApplyEffect(acc, effects[0], priority, data);
      ApplyEffects(first.result, traces + [first.trace], effects[1..], priority, data)
  }

  /** The exception loop, continuing after what was already read; it stops at the first exception that holds. */
  function CheckExceptions(deps: set<Node>, steps: seq<Json>, exceptions: seq<Json>, data: Data): Result<Trace>
    decreases |exceptions|
  {
    if exceptions == [] then Ok(Trace(Bool(false), deps, steps))
    else
      var first :- Evaluate(exceptions[0], data);
      if Truthy(first.value) then Ok(Trace(Bool(true), deps + first.deps, steps + first.steps))
      else CheckExceptions(deps + first.deps, steps + first.steps, exceptions[1..], data)
  }

  function RefOf(rule: Rule): RuleRef {
    RuleRef(rule.id, rule.logicalKey, rule.version)
  }

  /** One iteration of the engine's rule loop. */
  function RunRule(run: Run, rule: Rule, data: Data): Result<Run> {
    if rule.status != Active then Ok(run)
    else if !ScopeMatches(rule.scope, data.context) then
      Ok(run.(traces := run.traces + [ScopeMismatch(RefOf(rule))]))
    else
      var ref := RefOf(rule);
      var condition :- Evaluate(rule.condition, data);
      var scoped := run.(versions := run.versions + [ref], deps := run.deps + condition.deps);
      if !Truthy(condition.value) then
        Ok(scoped.(traces := run.traces + [NotMatched(ref, condition.value, condition.steps)]))
      else
        var exception :- CheckExceptions({}, [], rule.exceptions, data);
        var checked := scoped.(deps := scoped.deps + exception.deps);
        if Truthy(exception.value) then
          Ok(checked.(traces := run.traces + [Excepted(ref, condition.value, condition.steps, exception.steps)]))
        else
          var applied :- ApplyEffects(run.acc, [], rule.effects, rule.priority, data);
          Ok(checked.(acc := applied.0,
                      traces := run.traces + [Matched(ref, condition.value, condition.steps, exception.steps, applied.1)],
                      matched := run.matched + [ref]))
  }

  /** The rule reaches its effects. */
  predicate Fires(rule: Rule, data: Data) {
    && rule.status == Active && ScopeMatches(rule.scope, data.context)
    && Evaluate(rule.condition, data).Ok? && Truthy(Evaluate(rule.condition, data).value.value)
    && CheckExceptions({}, [], rule.exceptions, data).Ok?
    && !Truthy(CheckExceptions({}, [], rule.exceptions, data).value.value)
  }

  function RunRules(run: Run, rules: seq<Rule>, data: Data): Result<Run>
    decreases |rules|
  {
    if rules == [] then Ok(run)
    else
      var next :- RunRule(run, rules[0], data);
      RunRules(next, rules[1..], data)
  }

  /** Descending priority, then logical key, then version. */
  predicate RuleLe(a: Rule, b: Rule) {
    a.priority > b.priority
    || (a.priority == b.priority
        && (if a.logicalKey == b.logicalKey then a.version <= b.version else StrLe(a.logicalKey, b.logicalKey)))
  }

  function OrderedRules(rules: seq<Rule>): seq<Rule> {
    Sort(RuleLe, rules)
  }

  /** What the engine answers for a set of rules on a data snapshot. */
  function RunEngine(rules: seq<Rule>, data: Data): Result<Run> {
    RunRules(START, OrderedRules(rules), data)
  }

  /** The mutable accumulator the effect handlers update. */
  class EffectAccumulator {
    const context: Document
    var scalars: Document
    var grants: seq<Json>
    var denials: seq<Json>
    var eligible: Option<bool>
    var emitted: seq<Json>
    var setPriorities: map<string, int>

    constructor (context: Document)
      ensures this.context == context && View() == NOTHING
    {
      this.context := context;
      scalars, grants, denials, eligible, emitted, setPriorities := map[], [], [], None, [], map[];
    }

    function View(): Accumulated
      reads this
    {
      Accumulated(scalars, grants, denials, eligible, emitted, setPriorities)
    }

    method HandleSet(effect: Document, data: Data) returns (r: Result<Json>)
      requires TypeOf(effect) == SetEffect && context == data.context
      modifies this`scalars
      ensures Reports(old(View()), effect, data, r)
    {
      var value :- EffectValue(effect, data);
      var target :- TargetOf(effect);
      scalars := scalars[target := value];
      return Ok(Entry("SET", target, value));
    }

    method HandleAdd(effect: Document, data: Data) returns (r: Result<Json>)
      requires TypeOf(effect) == AddEffect && context == data.context
      modifies this`scalars
      ensures Reports(old(View()), effect, data, r)
    {
      assert Handle(View(), effect, data) == Arithmetic(View(), effect, data, "ADD", true);
      var value :- EffectValue(effect, data);
      var target :- TargetOf(effect);
      var start :- Numeric(InitialValue(scalars, context, target));
      var amount :- Numeric(value);
      var result := Num(start + amount);
      scalars := scalars[target := result];
      return Ok(Obj(map["type" := Str("ADD"), "target" := Str(target), "value" := value, "result" := result]));
    }

    method HandleSubtract(effect: Document, data: Data) returns (r: Result<Json>)
      requires TypeOf(effect) == SubtractEffect && context == data.context
      modifies this`scalars
      ensures Reports(old(View()), effect, data, r)
    {
      assert Handle(View(), effect, data) == Arithmetic(View(), effect, data, "SUBTRACT", false);
      var value :- EffectValue(effect, data);
      var target :- TargetOf(effect);
      var start :- Numeric(InitialValue(scalars, context, target));
      var amount :- Numeric(value);
      var result := Num(start - amount);
      scalars := scalars[target := result];
      return Ok(Obj(map["type" := Str("SUBTRACT"), "target" := Str(target), "value" := value, "result" := result]));
    }

    method HandleGrant(effect: Document, data: Data) returns (r: Result<Json>)
      requires TypeOf(effect) == GrantEffect
      modifies this`grants
      ensures Reports(old(View()), effect, data, r)
    {
      var value :- EffectValue(effect, data);
      var target :- TargetOf(effect);
      grants := grants + [Obj(map["target" := Str(target), "value" := value])];
      return Ok(Entry("GRANT", target, value));
    }

    method HandleDeny(effect: Document, data: Data) returns (r: Result<Json>)
      requires TypeOf(effect) == DenyEffect
      modifies this`denials
      ensures Reports(old(View()), effect, data, r)
    {
      var value :- EffectValue(effect, data);
      var target :- TargetOf(effect);
      denials := denials + [Obj(map["target" := Str(target), "value" := value])];
      return Ok(Entry("DENY", target, value));
    }

    method HandleMark(effect: Document, data: Data) returns (r: Result<Json>)
      requires TypeOf(effect) in {MarkEligible, MarkIneligible}
      modifies this`eligible
      ensures Reports(old(View()), effect, data, r)
    {
      eligible := Some(TypeOf(effect) == MarkEligible);
      var target :- TargetOf(effect);
      return Ok(Entry(if TypeOf(effect) == MarkEligible then "MARK_ELIGIBLE" else "MARK_INELIGIBLE", target,
                      Bool(TypeOf(effect) == MarkEligible)));
    }

    method HandleEmitDerived(effect: Document, data: Data) returns (r: Result<Json>)
      requires TypeOf(effect) == EmitDerived
      modifies this`emitted
      ensures Reports(old(View()), effect, data, r)
    {
      var target :- TargetOf(effect);
      var value :- EffectValue(effect, data);
      emitted := emitted + [Obj(map["type" := Str(target), "value" := value])];
      return Ok(Entry("EMIT_DERIVED", target, value));
    }

    /** What a failing handler leaves: a mark is set before its missing target is noticed, nothing else changes. */
    ghost function AfterFailure(before: Accumulated, effect: Document): Accumulated {
      if TypeOf(effect) in {MarkEligible, MarkIneligible} then before.(eligible := Some(TypeOf(effect) == MarkEligible))
      else before
    }

    /** A handler call changed the accumulator as Handle says, or reported the same error. */
    ghost predicate Reports(before: Accumulated, effect: Document, data: Data, r: Result<Json>)
      reads this
    {
      match Handle(before, effect, data)
      case Ok(applied) => r == Ok(applied.trace) && View() == applied.result
      case Err(e) => r == Err(e) && View() == AfterFailure(before, effect)
    }
  }

  class RuleEngine {

    /** Looks up the handler registered for the effect's type and calls it. */
    static method CallHandler(accumulator: EffectAccumulator, effect: Document, data: Data) returns (r: Result<Json>)
      requires accumulator.context == data.context
      modifies accumulator
      ensures accumulator.Reports(old(accumulator.View()), effect, data, r)
    {
      match TypeOf(effect)
      case SetEffect => r := accumulator.HandleSet(effect, data);
      case AddEffect => r := accumulator.HandleAdd(effect, data);
      case SubtractEffect => r := accumulator.HandleSubtract(effect, data);
      case GrantEffect => r := accumulator.HandleGrant(effect, data);
      case DenyEffect => r := accumulator.HandleDeny(effect, data);
      case MarkEligible => r := accumulator.HandleMark(effect, data);
      case MarkIneligible => r := accumulator.HandleMark(effect, data);
      case EmitDerived => r := accumulator.HandleEmitDerived(effect, data);
      case UnknownEffect => r := Err(InvalidEffect);
    }

    /** The effect loop of one matched rule. */
    static method ApplyAll(accumulator: EffectAccumulator, effects: seq<Json>, priority: int, data: Data)
      returns (r: Result<seq<Json>>)
      requires accumulator.context == data.context
      modifies accumulator
      ensures match ApplyEffects(old(accumulator.View()), [], effects, priority, data)
              case Ok(applied) => r == Ok(applied.1) && accumulator.View() == applied.0
              case Err(e) => r == Err(e)
    {
      var traces: seq<Json> := [];
      for i := 0 to |effects|
        invariant ApplyEffects(old(accumulator.View()), [], effects, priority, data)
                  == ApplyEffects(accumulator.View(), traces, effects[i..], priority, data)
      {
        var effect := effects[i];
        assert effects[i..][0] == effect && effects[i..][1..] == effects[i + 1..];
        if !effect.Obj? {
          return Err(Stuck);
        }
        if IsOverridden(accumulator.setPriorities, effect.fields) {
          traces := traces + [OverriddenEntry(effect.fields, priority)];
          continue;
        }
        var trace :- CallHandler(accumulator, effect.fields, data);
        traces := traces + [trace];
        if TypeOf(effect.fields) == SetEffect {
          accumulator.setPriorities := accumulator.setPriorities[effect.fields["target"].s := priority];
        }
      }
      return Ok(traces);
    }

    static method EvaluateExceptions(exceptions: seq<Json>, data: Data) returns (r: Result<Trace>)
      ensures r == CheckExceptions({}, [], exceptions, data)
    {
      var deps: set<Node>, steps: seq<Json> := {}, [];
      for i := 0 to |exceptions|
        invariant CheckExceptions({}, [], exceptions, data) == CheckExceptions(deps, steps, exceptions[i..], data)
      {
        assert exceptions[i..][0] == exceptions[i] && exceptions[i..][1..] == exceptions[i + 1..];
        var result :- Evaluate(exceptions[i], data);
        deps, steps := deps + result.deps, steps + result.steps;
        if Truthy(result.value) {
          return Ok(Trace(Bool(true), deps, steps));
        }
      }
      return Ok(Trace(Bool(false), deps, steps));
    }

    /** The engine's entry point: one pass over the ordered rules. */
    static method EvaluateRules(rules: seq<Rule>, data: Data) returns (r: Result<Run>)
      ensures r == RunEngine(rules, data)
    {
      var accumulator := new EffectAccumulator(data.context);
      var deps: set<Node>, traces: seq<RuleTrace> := {}, [];
      var matched: seq<RuleRef>, versions: seq<RuleRef> := [], [];
      var ordered := OrderedRules(rules);
      for i := 0 to |ordered|
        invariant accumulator.context == data.context && fresh(accumulator)
        invariant RunRules(START, ordered, data)
                  == RunRules(Run(accumulator.View(), deps, traces, matched, versions), ordered[i..], data)
      {
        var rule := ordered[i];
        assert ordered[i..][0] == rule && ordered[i..][1..] == ordered[i + 1..];
        if rule.status != Active {
          continue;
        }
        var ref := RefOf(rule);
        if !ScopeMatches(rule.scope, data.context) {
          traces := traces + [ScopeMismatch(ref)];
          continue;
        }
        versions := versions + [ref];
        var condition :- Evaluate(rule.condition, data);
        deps := deps + condition.deps;
        if !Truthy(condition.value) {
          traces := traces + [NotMatched(ref, condition.value, condition.steps)];
          continue;
        }
        var exception :- EvaluateExceptions(rule.exceptions, data);
        deps := deps + exception.deps;
        if Truthy(exception.value) {
          traces := traces + [Excepted(ref, condition.value, condition.steps, exception.steps)];
          continue;
        }
        var effects :- ApplyAll(accumulator, rule.effects, rule.priority, data);
        traces := traces + [Matched(ref, condition.value, condition.steps, exception.steps, effects)];
        matched := matched + [ref];
      }
      return Ok(Run(accumulator.View(), deps, traces, matched, versions));
    }
  }
}
