/** The engine's scalar effects, target by target: what the fold over rules and effects amounts to. */
module EffectFold {
  import opened Prelude
  import opened Json
  import opened Evaluator
  import opened Rules
  import opened Engine

  /** One effect of a rule together with the rule's priority. */
  datatype Step = Step(priority: int, effect: Json)

  function StepsOf(effects: seq<Json>, priority: int): (r: seq<Step>)
  {
    if effects == [] then [] else [Step(priority, effects[0])] + StepsOf(effects[1..], priority)
  }

  /** The rule's condition and exceptions evaluate without an error, as far as the engine asks for them. */
  predicate Checks(rule: Rule, data: Data) {
    rule.status == Active && ScopeMatches(rule.scope, data.context) ==>
      && Evaluate(rule.condition, data).Ok?
      && (Truthy(Evaluate(rule.condition, data).value.value) ==> CheckExceptions({}, [], rule.exceptions, data).Ok?)
  }

  function RuleSteps(rule: Rule, data: Data): seq<Step> {
    if Fires(rule, data) then StepsOf(rule.effects, rule.priority) else []
  }

  /** The effects the engine goes through, in order. */
  function Executed(rules: seq<Rule>, data: Data): seq<Step>
  {
    if rules == [] then [] else RuleSteps(rules[0], data) + Executed(rules[1..], data)
  }

  function Fold(acc: Accumulated, steps: seq<Step>, data: Data): Result<Accumulated>
    decreases |steps|
  {
    if steps == [] then Ok(acc)
    else
      var first :- ApplyEffect(acc, steps[0].effect, steps[0].priority, data);
      Fold(first.result, steps[1..], data)
  }

  predicate SameAccumulated(applied: Result<(Accumulated, seq<Json>)>, folded: Result<Accumulated>) {
    if applied.Ok? then folded == Ok(applied.value.0) else folded == Err(applied.error)
  }

  lemma {:induction false} EffectLoopIsFold(acc: Accumulated, traces: seq<Json>, effects: seq<Json>, priority: int, data: Data)
    ensures SameAccumulated(ApplyEffects(acc, traces, effects, priority, data), Fold(acc, StepsOf(effects, priority), data))
    decreases |effects|
  {
    if effects != [] {
      assert StepsOf(effects, priority)[1..] == StepsOf(effects[1..], priority);
      var first := ApplyEffect(acc, effects[0], priority, data);
      if first.Ok? {
        EffectLoopIsFold(first.value.result, traces + [first.value.trace], effects[1..], priority, data);
      }
    }
  }

  lemma {:induction false} FoldAppend(acc: Accumulated, a: seq<Step>, b: seq<Step>, data: Data)
    ensures Fold(acc, a + b, data) == (match Fold(acc, a, data) case Ok(mid) => Fold(mid, b, data) case Err(e) => Err(e))
    decreases |a|
  {
    if a == [] {
      assert a + b == b;
    } else {
      assert (a + b)[1..] == a[1..] + b;
      var first := ApplyEffect(acc, a[0].effect, a[0].priority, data);
      if first.Ok? {
        FoldAppend(first.value.result, a[1..], b, data);
      }
    }
  }

  lemma RuleIsFold(run: Run, rule: Rule, data: Data)
    ensures RunRule(run, rule, data).Ok? <==> Checks(rule, data) && Fold(run.acc, RuleSteps(rule, data), data).Ok?
    ensures RunRule(run, rule, data).Ok? ==>
              Fold(run.acc, RuleSteps(rule, data), data) == Ok(RunRule(run, rule, data).value.acc)
  {
    EffectLoopIsFold(run.acc, [], rule.effects, rule.priority, data);
  }

  /** The rule loop succeeds exactly when every check does and the executed effects fold; its accumulator is
      that fold. */
  lemma {:induction false} RunIsFold(run: Run, rules: seq<Rule>, data: Data)
    ensures RunRules(run, rules, data).Ok?
            <==> (forall r :: r in rules ==> Checks(r, data)) && Fold(run.acc, Executed(rules, data), data).Ok?
    ensures RunRules(run, rules, data).Ok? ==>
              Fold(run.acc, Executed(rules, data), data) == Ok(RunRules(run, rules, data).value.acc)
    decreases |rules|
  {
    if rules != [] {
      RuleIsFold(run, rules[0], data);
      FoldAppend(run.acc, RuleSteps(rules[0], data), Executed(rules[1..], data), data);
      var next := RunRule(run, rules[0], data);
      if next.Ok? {
        RunIsFold(next.value, rules[1..], data);
      }
      assert rules == [rules[0]] + rules[1..];
    }
  }

  /** A scalar operation on one target. */
  datatype Op = Op(priority: int, kind: EffectType, value: Json)

  /** What the accumulator knows about one target: its scalar and the priority of the SET that claimed it. */
  datatype Slot = Slot(scalar: Option<Json>, claimedBy: Option<int>)

  const EMPTY := Slot(None, None)

  function SlotOf(acc: Accumulated, target: string): Slot {
    Slot(if target in acc.scalars then Some(acc.scalars[target]) else None,
         if target in acc.claimed then Some(acc.claimed[target]) else None)
  }

  predicate IsScalarEffect(effect: Document) {
    TypeOf(effect) in {SetEffect, AddEffect, SubtractEffect}
  }

  predicate Touches(step: Step, target: string) {
    step.effect.Obj? && IsScalarEffect(step.effect.fields) && Get(step.effect.fields, "target") == Str(target)
  }

  function OpOf(step: Step): Op
    requires step.effect.Obj?
  {
    Op(step.priority, TypeOf(step.effect.fields), Get(step.effect.fields, "value"))
  }

  /** The scalar operations on a target, in order. */
  function OpsOn(steps: seq<Step>, target: string): seq<Op>
  {
    if steps == [] then []
    else if Touches(steps[0], target) then [OpOf(steps[0])] + OpsOn(steps[1..], target)
    else OpsOn(steps[1..], target)
  }

  /** What an amount is added to: the scalar so far, else the context value, else zero. */
  function StartOf(slot: Slot, target: string, context: Document): Json {
    if slot.scalar.Some? then slot.scalar.value else if target in context then context[target] else Num(0.0)
  }

  function SlotStep(slot: Slot, op: Op, target: string, data: Data): Result<Slot> {
    if op.kind == SetEffect then
      if slot.claimedBy.Some? then Ok(slot)
      else
        var value :- Resolve(op.value, data);
        Ok(Slot(Some(value), Some(op.priority)))
    else
      var value :- Resolve(op.value, data);
      var start :- Numeric(StartOf(slot, target, data.context));
      var amount :- Numeric(value);
      Ok(slot.(scalar := Some(Num(if op.kind == AddEffect then start + amount else start - amount))))
  }

  function SlotFold(slot: Slot, ops: seq<Op>, target: string, data: Data): Result<Slot>
    decreases |ops|
  {
    if ops == [] then Ok(slot)
    else
      var next :- SlotStep(slot, ops[0], target, data);
      SlotFold(next, ops[1..], target, data)
  }

  /** An effect the engine can handle whatever the scalars are. */
  predicate Wellformed(effect: Json, data: Data) {
    && effect.Obj? && TypeOf(effect.fields) != UnknownEffect && Get(effect.fields, "target").Str?
    && (TypeOf(effect.fields) in {GrantEffect, DenyEffect, EmitDerived} ==> EffectValue(effect.fields, data).Ok?)
  }

  /** What one effect does to slots: its own target's slot takes the step, the others stay. */
  ghost predicate ActsOnSlots(acc: Accumulated, step: Step, data: Data, target: string)
    requires step.effect.Obj?
  {
    var applied := ApplyEffect(acc, step.effect, step.priority, data);
    && (applied.Ok? <==> && Wellformed(step.effect, data)
                         && (Touches(step, target) ==> SlotStep(SlotOf(acc, target), OpOf(step), target, data).Ok?))
    && (applied.Ok? ==> forall t ::
          SlotOf(applied.value.result, t)
          == if Touches(step, t) then SlotStep(SlotOf(acc, t), OpOf(step), t, data).value else SlotOf(acc, t))
  }

  lemma ArithmeticResult(acc: Accumulated, effect: Document, data: Data, target: string, kind: string, adds: bool, start: Json)
    requires Get(effect, "target") == Str(target) && start == InitialValue(acc.scalars, data.context, target)
    ensures var r, value := Arithmetic(acc, effect, data, kind, adds), Resolve(Get(effect, "value"), data);
            && (r.Ok? <==> value.Ok? && Numeric(start).Ok? && Numeric(value.value).Ok?)
            && (r.Ok? ==>
                  var x, y := Numeric(start).value, Numeric(value.value).value;
                  r.value.result == acc.(scalars := acc.scalars[target := Num(if adds then x + y else x - y)]))
  {
    assert TargetOf(effect) == Ok(target);
  }

  lemma SlotResult(slot: Slot, op: Op, target: string, data: Data, start: Json)
    requires op.kind in {AddEffect, SubtractEffect} && start == StartOf(slot, target, data.context)
    ensures var r, value := SlotStep(slot, op, target, data), Resolve(op.value, data);
            && (r.Ok? <==> value.Ok? && Numeric(start).Ok? && Numeric(value.value).Ok?)
            && (r.Ok? ==>
                  var x, y := Numeric(start).value, Numeric(value.value).value;
                  r.value == slot.(scalar := Some(Num(if op.kind == AddEffect then x + y else x - y))))
  {
  }

  /** An arithmetic handler call is the slot step of its operation. */
  lemma ArithmeticStep(acc: Accumulated, effect: Document, data: Data, target: string, kind: string, adds: bool, op: Op)
    requires Get(effect, "target") == Str(target) && op.value == Get(effect, "value")
    requires op.kind == if adds then AddEffect else SubtractEffect
    ensures var r, slot := Arithmetic(acc, effect, data, kind, adds), SlotStep(SlotOf(acc, target), op, target, data);
            && (r.Ok? <==> slot.Ok?)
            && (r.Ok? ==> slot.value.claimedBy == SlotOf(acc, target).claimedBy && slot.value.scalar.Some?
                          && r.value.result == acc.(scalars := acc.scalars[target := slot.value.scalar.value]))
  {
    var start := InitialValue(acc.scalars, data.context, target);
    ArithmeticResult(acc, effect, data, target, kind, adds, start);
    SlotResult(SlotOf(acc, target), op, target, data, start);
  }

  lemma AddOnSlots(acc: Accumulated, step: Step, data: Data, target: string)
    requires step.effect.Obj? && Get(step.effect.fields, "target") == Str(target) && TypeOf(step.effect.fields) == AddEffect
    ensures ActsOnSlots(acc, step, data, target)
  {
    assert Handle(acc, step.effect.fields, data) == Arithmetic(acc, step.effect.fields, data, "ADD", true);
    ArithmeticStep(acc, step.effect.fields, data, target, "ADD", true, OpOf(step));
  }

  lemma SubtractOnSlots(acc: Accumulated, step: Step, data: Data, target: string)
    requires step.effect.Obj? && Get(step.effect.fields, "target") == Str(target) && TypeOf(step.effect.fields) == SubtractEffect
    ensures ActsOnSlots(acc, step, data, target)
  {
    assert Handle(acc, step.effect.fields, data) == Arithmetic(acc, step.effect.fields, data, "SUBTRACT", false);
    ArithmeticStep(acc, step.effect.fields, data, target, "SUBTRACT", false, OpOf(step));
  }

  lemma SetOnSlots(acc: Accumulated, step: Step, data: Data, target: string)
    requires step.effect.Obj? && Get(step.effect.fields, "target") == Str(target) && TypeOf(step.effect.fields) == SetEffect
    ensures ActsOnSlots(acc, step, data, target)
  {
  }

  lemma OthersOnSlots(acc: Accumulated, step: Step, data: Data, target: string)
    requires step.effect.Obj? && Get(step.effect.fields, "target") == Str(target) && !IsScalarEffect(step.effect.fields)
    ensures ActsOnSlots(acc, step, data, target)
  {
    assert forall t :: !Touches(step, t);
  }

  /** One effect acts on its own target's slot and on no other. */
  lemma EffectOnSlots(acc: Accumulated, step: Step, data: Data, target: string)
    requires step.effect.Obj? && Get(step.effect.fields, "target") == Str(target)
    ensures ActsOnSlots(acc, step, data, target)
  {
    match TypeOf(step.effect.fields)
    case SetEffect => SetOnSlots(acc, step, data, target);
    case AddEffect => AddOnSlots(acc, step, data, target);
    case SubtractEffect => SubtractOnSlots(acc, step, data, target);
    case _ => OthersOnSlots(acc, step, data, target);
  }

  lemma UntargetedEffectFails(acc: Accumulated, step: Step, data: Data)
    requires !step.effect.Obj? || !Get(step.effect.fields, "target").Str?
    ensures ApplyEffect(acc, step.effect, step.priority, data).Err?
  {
  }

  /** The fold of all effects succeeds exactly when every effect is well formed and every target's own fold
      succeeds; it leaves every target with the slot of its own fold. */
  lemma {:induction false} FoldByTarget(acc: Accumulated, steps: seq<Step>, data: Data)
    ensures Fold(acc, steps, data).Ok?
            <==> && (forall s :: s in steps ==> Wellformed(s.effect, data))
                 && (forall t: string :: SlotFold(SlotOf(acc, t), OpsOn(steps, t), t, data).Ok?)
    ensures Fold(acc, steps, data).Ok? ==>
              forall t: string :: SlotFold(SlotOf(acc, t), OpsOn(steps, t), t, data) == Ok(SlotOf(Fold(acc, steps, data).value, t))
    decreases |steps|
  {
    if steps != [] {
      var s := steps[0];
      assert steps == [s] + steps[1..];
      if !s.effect.Obj? || !Get(s.effect.fields, "target").Str? {
        UntargetedEffectFails(acc, s, data);
      } else {
        var target := s.effect.fields["target"].s;
        EffectOnSlots(acc, s, data, target);
        var first := ApplyEffect(acc, s.effect, s.priority, data);
        assert forall t :: Touches(s, t) ==> t == target;
        forall t: string ensures Touches(s, t) ==> OpsOn(steps, t)[0] == OpOf(s) && OpsOn(steps, t)[1..] == OpsOn(steps[1..], t) {
        }
        if first.Ok? {
          FoldByTarget(first.value.result, steps[1..], data);
          forall t: string
            ensures SlotFold(SlotOf(acc, t), OpsOn(steps, t), t, data)
                 == SlotFold(SlotOf(first.value.result, t), OpsOn(steps[1..], t), t, data)
          {
          }
        } else if Wellformed(s.effect, data) {
          assert SlotFold(SlotOf(acc, target), OpsOn(steps, target), target, data).Err?;
        }
      }
    }
  }
}
