/** What each effect does to an answer, told by the text of its type: one effect at a time, and in whole engine runs. */
module EffectLaws {
  import opened Prelude
  import opened Json
  import opened Evaluator
  import opened Rules
  import opened Engine
  import opened EffectFold
  import opened ClosedForm
  import opened Report

  const EFFECT_TEXTS := {"SET", "ADD", "SUBTRACT", "GRANT", "DENY", "MARK_ELIGIBLE", "MARK_INELIGIBLE", "EMIT_DERIVED"}

  /** The effect is an object of the type and target. */
  predicate IsEffect(effect: Json, text: string, target: string) {
    effect.Obj? && Get(effect.fields, "type") == Str(text) && Get(effect.fields, "target") == Str(target)
  }

  /** The effect's value as data resolves it. */
  predicate Gives(effect: Json, data: Data, value: Json) {
    effect.Obj? && Resolve(Get(effect.fields, "value"), data) == Ok(value)
  }

  /** The effect changed the accumulator to after and left the trace entry. */
  predicate Did(acc: Accumulated, effect: Json, priority: int, data: Data, after: Accumulated, entry: Json) {
    ApplyEffect(acc, effect, priority, data) == Ok(Applied(after, entry))
  }

  /** A SET of an unclaimed target gives it the value and claims it; on a claimed target it changes nothing. */
  lemma SetLaw(acc: Accumulated, effect: Json, target: string, priority: int, data: Data, value: Json)
    requires IsEffect(effect, "SET", target)
    ensures target !in acc.claimed && Gives(effect, data, value) ==>
              Did(acc, effect, priority, data, acc.(scalars := acc.scalars[target := value], claimed := acc.claimed[target := priority]),
                  Obj(map["type" := Str("SET"), "target" := Str(target), "value" := value]))
    ensures target in acc.claimed ==>
              Did(acc, effect, priority, data, acc,
                  Obj(map["type" := Str("SET"), "target" := Str(target), "status" := Str("OVERRIDDEN_BY_HIGHER_PRIORITY"),
                          "priority" := Num(priority as real)]))
  {
  }

  /** What an amount is added to: the scalar, else the context's value of that name, else zero. */
  predicate StartsFrom(acc: Accumulated, data: Data, target: string, start: Json) {
    || (target in acc.scalars && start == acc.scalars[target])
    || (target !in acc.scalars && target in data.context && start == data.context[target])
    || (target !in acc.scalars && target !in data.context && start == Num(0.0))
  }

  /** ADD adds its number to the target. */
  lemma AddLaw(acc: Accumulated, effect: Json, target: string, priority: int, data: Data, value: Json, start: Json, x: real, y: real)
    requires IsEffect(effect, "ADD", target) && Gives(effect, data, value) && StartsFrom(acc, data, target, start)
    requires Numeric(start) == Ok(x) && Numeric(value) == Ok(y)
    ensures Did(acc, effect, priority, data, acc.(scalars := acc.scalars[target := Num(x + y)]),
                Obj(map["type" := Str("ADD"), "target" := Str(target), "value" := value, "result" := Num(x + y)]))
  {
    assert Handle(acc, effect.fields, data) == Arithmetic(acc, effect.fields, data, "ADD", true);
    assert start == InitialValue(acc.scalars, data.context, target);
  }

  /** SUBTRACT subtracts it. */
  lemma SubtractLaw(acc: Accumulated, effect: Json, target: string, priority: int, data: Data, value: Json, start: Json, x: real, y: real)
    requires IsEffect(effect, "SUBTRACT", target) && Gives(effect, data, value) && StartsFrom(acc, data, target, start)
    requires Numeric(start) == Ok(x) && Numeric(value) == Ok(y)
    ensures Did(acc, effect, priority, data, acc.(scalars := acc.scalars[target := Num(x - y)]),
                Obj(map["type" := Str("SUBTRACT"), "target" := Str(target), "value" := value, "result" := Num(x - y)]))
  {
    assert Handle(acc, effect.fields, data) == Arithmetic(acc, effect.fields, data, "SUBTRACT", false);
    assert start == InitialValue(acc.scalars, data.context, target);
  }

  /** The number an amount is read as: null and booleans are zero, numbers are themselves, lists and objects are no amounts. */
  lemma AmountsRead(v: Json, x: real)
    ensures v == Null || v.Bool? ==> Numeric(v) == Ok(0.0)
    ensures Numeric(Num(x)) == Ok(x)
    ensures v.Arr? || v.Obj? ==> Numeric(v) == Err(TypeMismatch)
  {
  }

  lemma GrantLaw(acc: Accumulated, effect: Json, target: string, priority: int, data: Data, value: Json)
    requires IsEffect(effect, "GRANT", target) && Gives(effect, data, value)
    ensures Did(acc, effect, priority, data,
                acc.(grants := acc.grants + [Obj(map["target" := Str(target), "value" := value])]),
                Obj(map["type" := Str("GRANT"), "target" := Str(target), "value" := value]))
  {
  }

  lemma DenyLaw(acc: Accumulated, effect: Json, target: string, priority: int, data: Data, value: Json)
    requires IsEffect(effect, "DENY", target) && Gives(effect, data, value)
    ensures Did(acc, effect, priority, data,
                acc.(denials := acc.denials + [Obj(map["target" := Str(target), "value" := value])]),
                Obj(map["type" := Str("DENY"), "target" := Str(target), "value" := value]))
  {
  }

  lemma EmitLaw(acc: Accumulated, effect: Json, target: string, priority: int, data: Data, value: Json)
    requires IsEffect(effect, "EMIT_DERIVED", target) && Gives(effect, data, value)
    ensures Did(acc, effect, priority, data,
                acc.(emitted := acc.emitted + [Obj(map["type" := Str(target), "value" := value])]),
                Obj(map["type" := Str("EMIT_DERIVED"), "target" := Str(target), "value" := value]))
  {
  }

  lemma MarkLaw(acc: Accumulated, effect: Json, target: string, priority: int, data: Data, eligible: bool)
    requires IsEffect(effect, if eligible then "MARK_ELIGIBLE" else "MARK_INELIGIBLE", target)
    ensures Did(acc, effect, priority, data, acc.(eligible := Some(eligible)),
                Obj(map["type" := Str(if eligible then "MARK_ELIGIBLE" else "MARK_INELIGIBLE"), "target" := Str(target),
                        "value" := Bool(eligible)]))
  {
  }

  /** Any other type is refused. */
  lemma OtherTypesRefused(acc: Accumulated, effect: Json, priority: int, data: Data)
    requires effect.Obj? && forall text :: text in EFFECT_TEXTS ==> Get(effect.fields, "type") != Str(text)
    ensures ApplyEffect(acc, effect, priority, data) == Err(InvalidEffect)
  {
  }

  // ---- whole runs ----

  /** The executed effect has the type text. */
  predicate TypeIs(step: Step, text: string) {
    step.effect.Obj? && Get(step.effect.fields, "type") == Str(text)
  }

  /** The entries of the executed effects of one type, in order. */
  function Entries(steps: seq<Step>, text: string, name: string, data: Data): seq<Json> {
    if steps == [] then []
    else (if TypeIs(steps[0], text) then
            [Obj(map[name := Get(steps[0].effect.fields, "target"),
                     "value" := ResolvedOr(Get(steps[0].effect.fields, "value"), data)])]
          else [])
         + Entries(steps[1..], text, name, data)
  }

  lemma OneListedByText(step: Step)
    ensures HasType(step, GrantEffect) == TypeIs(step, "GRANT") && HasType(step, DenyEffect) == TypeIs(step, "DENY")
    ensures HasType(step, EmitDerived) == TypeIs(step, "EMIT_DERIVED")
  {
  }

  lemma {:induction false} ListedByText(steps: seq<Step>, kind: EffectType, text: string, name: string, data: Data)
    requires (kind == GrantEffect && text == "GRANT") || (kind == DenyEffect && text == "DENY")
             || (kind == EmitDerived && text == "EMIT_DERIVED")
    ensures Listed(steps, kind, name, data) == Entries(steps, text, name, data)
  {
    if steps != [] {
      OneListedByText(steps[0]);
      ListedByText(steps[1..], kind, text, name, data);
    }
  }

  /** The last executed mark is at k: the effects after it mark nothing. */
  predicate LastMarkAt(steps: seq<Step>, k: int) {
    && 0 <= k < |steps| && (TypeIs(steps[k], "MARK_ELIGIBLE") || TypeIs(steps[k], "MARK_INELIGIBLE"))
    && forall i :: k < i < |steps| ==> !TypeIs(steps[i], "MARK_ELIGIBLE") && !TypeIs(steps[i], "MARK_INELIGIBLE")
  }

  lemma {:induction false} EligibilityByText(steps: seq<Step>, k: int)
    requires LastMarkAt(steps, k)
    ensures Eligibility(steps, None) == Some(TypeIs(steps[k], "MARK_ELIGIBLE"))
    decreases |steps|
  {
    var n := |steps| - 1;
    if k < n {
      assert !TypeIs(steps[n], "MARK_ELIGIBLE") && !TypeIs(steps[n], "MARK_INELIGIBLE");
      EligibilityByText(steps[..n], k);
    }
  }

  lemma {:induction false} NoMarkNoEligibility(steps: seq<Step>)
    requires forall i :: 0 <= i < |steps| ==> !TypeIs(steps[i], "MARK_ELIGIBLE") && !TypeIs(steps[i], "MARK_INELIGIBLE")
    ensures Eligibility(steps, None) == None
  {
    if steps != [] {
      assert !TypeIs(steps[|steps| - 1], "MARK_ELIGIBLE") && !TypeIs(steps[|steps| - 1], "MARK_INELIGIBLE");
      NoMarkNoEligibility(steps[..|steps| - 1]);
    }
  }

  /** What an answer lists: the GRANT, DENY and EMIT_DERIVED effects the run executed, in engine order. */
  lemma RunListsByText(rules: seq<Rule>, data: Data)
    requires RunEngine(rules, data).Ok?
    ensures var acc, steps := RunEngine(rules, data).value.acc, Executed(OrderedRules(rules), data);
            && acc.grants == Entries(steps, "GRANT", "target", data)
            && acc.denials == Entries(steps, "DENY", "target", data)
            && acc.emitted == Entries(steps, "EMIT_DERIVED", "type", data)
  {
    ListsAreExecutedEffects(rules, data);
    var steps := Executed(OrderedRules(rules), data);
    ListedByText(steps, GrantEffect, "GRANT", "target", data);
    ListedByText(steps, DenyEffect, "DENY", "target", data);
    ListedByText(steps, EmitDerived, "EMIT_DERIVED", "type", data);
  }

  /** The last executed MARK_ELIGIBLE or MARK_INELIGIBLE decides eligibility; without one it stays open. */
  lemma RunMarksByText(rules: seq<Rule>, data: Data)
    requires RunEngine(rules, data).Ok?
    ensures var eligible, steps := RunEngine(rules, data).value.acc.eligible, Executed(OrderedRules(rules), data);
            && (forall k :: LastMarkAt(steps, k) ==> eligible == Some(TypeIs(steps[k], "MARK_ELIGIBLE")))
            && ((forall i :: 0 <= i < |steps| ==> !TypeIs(steps[i], "MARK_ELIGIBLE") && !TypeIs(steps[i], "MARK_INELIGIBLE"))
                ==> eligible == None)
  {
    var steps := Executed(OrderedRules(rules), data);
    ListsAreExecutedEffects(rules, data);
    forall k | LastMarkAt(steps, k) ensures Eligibility(steps, None) == Some(TypeIs(steps[k], "MARK_ELIGIBLE")) {
      EligibilityByText(steps, k);
    }
    if forall i :: 0 <= i < |steps| ==> !TypeIs(steps[i], "MARK_ELIGIBLE") && !TypeIs(steps[i], "MARK_INELIGIBLE") {
      NoMarkNoEligibility(steps);
    }
  }

  /** A target as the executed effects leave it: its scalar, and whether a SET has claimed it. */
  datatype Held = Held(scalar: Option<Json>, set_: bool)

  /** What a target holds after the effects, by their texts: the first SET sticks, later amounts change it. */
  function HeldAfter(held: Held, steps: seq<Step>, target: string, data: Data): Held
    decreases |steps|
  {
    if steps == [] then held
    else
      var effect, rest := steps[0].effect, steps[1..];
      if !effect.Obj? || Get(effect.fields, "target") != Str(target) then HeldAfter(held, rest, target, data)
      else
        var value := ResolvedOr(Get(effect.fields, "value"), data);
        var start := if held.scalar.Some? then held.scalar.value
                     else if target in data.context then data.context[target] else Num(0.0);
        if TypeIs(steps[0], "SET") then HeldAfter(if held.set_ then held else Held(Some(value), true), rest, target, data)
        else if TypeIs(steps[0], "ADD") then
          HeldAfter(held.(scalar := Some(Num(NumberOr(start) + NumberOr(value)))), rest, target, data)
        else if TypeIs(steps[0], "SUBTRACT") then
          HeldAfter(held.(scalar := Some(Num(NumberOr(start) - NumberOr(value)))), rest, target, data)
        else HeldAfter(held, rest, target, data)
  }

  lemma {:induction false} SlotHolds(slot: Slot, steps: seq<Step>, target: string, data: Data)
    requires SlotFold(slot, OpsOn(steps, target), target, data).Ok?
    ensures HeldAfter(Held(slot.scalar, slot.claimedBy.Some?), steps, target, data).scalar
         == SlotFold(slot, OpsOn(steps, target), target, data).value.scalar
    decreases |steps|
  {
    if steps != [] {
      if Touches(steps[0], target) {
        var ops := OpsOn(steps, target);
        assert ops[0] == OpOf(steps[0]) && ops[1..] == OpsOn(steps[1..], target);
        SlotHolds(SlotStep(slot, ops[0], target, data).value, steps[1..], target, data);
        OneStepHolds(slot, steps[0], target, data);
      } else {
        SlotHolds(slot, steps[1..], target, data);
      }
    }
  }

  lemma OneStepHolds(slot: Slot, step: Step, target: string, data: Data)
    requires Touches(step, target) && SlotStep(slot, OpOf(step), target, data).Ok?
    ensures var next := SlotStep(slot, OpOf(step), target, data).value;
            HeldAfter(Held(slot.scalar, slot.claimedBy.Some?), [step], target, data) == Held(next.scalar, next.claimedBy.Some?)
  {
    assert [step][1..] == [];
  }

  /** The scalars of an answer are what the executed SET, ADD and SUBTRACT effects leave, in engine order. */
  lemma RunScalarsByText(rules: seq<Rule>, data: Data, target: string)
    requires RunEngine(rules, data).Ok?
    ensures var scalars := RunEngine(rules, data).value.acc.scalars;
            HeldAfter(Held(None, false), Executed(OrderedRules(rules), data), target, data).scalar
            == if target in scalars then Some(scalars[target]) else None
  {
    EngineSlot(rules, data, target);
    SlotHolds(EMPTY, Executed(OrderedRules(rules), data), target, data);
  }

  /** A run that executes an effect of any other type raises. */
  lemma RunRefusesOtherTypes(rules: seq<Rule>, data: Data, step: Step)
    requires step in Executed(OrderedRules(rules), data) && step.effect.Obj?
    requires forall text :: text in EFFECT_TEXTS ==> Get(step.effect.fields, "type") != Str(text)
    ensures RunEngine(rules, data).Err?
  {
    RunIsFold(START, OrderedRules(rules), data);
    FoldByTarget(NOTHING, Executed(OrderedRules(rules), data), data);
    assert !Wellformed(step.effect, data);
  }
}
