/** What-if simulation (semantic_service.py): overrides are written into a copy of the applicant document and the two
    engine answers are compared. */
module WhatIf {
  import opened Prelude
  import opened Text
  import opened Json
  import opened Graph
  import opened Evaluator
  import opened EvaluatorProofs
  import opened Rules
  import opened Engine
  import opened EngineProofs
  import opened Core

  datatype Override = Override(property: string, value: Json)

  predicate SafeParts(parts: seq<string>) {
    |parts| <= 4 && forall i :: 0 <= i < |parts| ==> parts[i] != "" && parts[i][0] != '_'
  }

  /** Writes a value under a path of keys, creating missing objects; a path may not cross another value. */
  function SetParts(doc: Document, parts: seq<string>, value: Json): Result<Document>
    requires parts != []
    decreases |parts|
  {
    if |parts| == 1 then Ok(doc[parts[0] := value])
    else
      var child := if Get(doc, parts[0]) == Null then Obj(map[]) else Get(doc, parts[0]);
      if !child.Obj? then Err(InvalidOverlay)
      else
        var inner :- SetParts(child.fields, parts[1..], value);
        Ok(doc[parts[0] := Obj(inner)])
  }

  function SetSafePath(doc: Document, path: string, value: Json): Result<Document> {
    var parts := Split(path, '.');
    if SafeParts(parts) then SetParts(doc, parts, value) else Err(InvalidOverlay)
  }

  /** Neither path leads through the other. */
  predicate Incomparable(a: seq<string>, b: seq<string>) {
    !(a <= b) && !(b <= a)
  }

  lemma {:induction false} ReadBackParts(doc: Document, parts: seq<string>, value: Json)
    requires parts != [] && SetParts(doc, parts, value).Ok?
    ensures Walk(Obj(SetParts(doc, parts, value).value), parts) == value
    decreases |parts|
  {
    if |parts| > 1 {
      var child := if Get(doc, parts[0]) == Null then Obj(map[]) else Get(doc, parts[0]);
      ReadBackParts(child.fields, parts[1..], value);
    }
  }

  lemma {:induction false} WalkNull(segments: seq<string>)
    ensures Walk(Null, segments) == Null
  {
  }

  lemma {:induction false} OthersKeptParts(doc: Document, parts: seq<string>, value: Json, other: seq<string>)
    requires parts != [] && SetParts(doc, parts, value).Ok? && Incomparable(parts, other)
    ensures Walk(Obj(SetParts(doc, parts, value).value), other) == Walk(Obj(doc), other)
    decreases |parts|
  {
    assert other != [] by {
      assert other == [] ==> other <= parts;
    }
    if other[0] == parts[0] {
      assert |parts| > 1 by {
        assert |parts| == 1 ==> parts <= other;
      }
      assert parts == [parts[0]] + parts[1..] && other == [other[0]] + other[1..];
      var child := if Get(doc, parts[0]) == Null then Obj(map[]) else Get(doc, parts[0]);
      OthersKeptParts(child.fields, parts[1..], value, other[1..]);
      if Get(doc, parts[0]) == Null {
        assert other[1..] != [] by {
          assert other[1..] == [] ==> other <= parts;
        }
        WalkNull(other[1..]);
        WalkNull(other[1..][1..]);
      }
    }
  }

  /** After an overlay its path reads the new value, and every incomparable path reads what it read before. */
  lemma OverlayReadsBack(doc: Document, path: string, value: Json, other: string)
    requires SetSafePath(doc, path, value).Ok?
    ensures GetPath(SetSafePath(doc, path, value).value, path) == value
    ensures Incomparable(Split(path, '.'), Split(other, '.')) ==>
              GetPath(SetSafePath(doc, path, value).value, other) == GetPath(doc, other)
  {
    ReadBackParts(doc, Split(path, '.'), value);
    if Incomparable(Split(path, '.'), Split(other, '.')) {
      OthersKeptParts(doc, Split(path, '.'), value, Split(other, '.'));
    }
  }

  /** Some proper prefix of the path holds a value that is neither an object nor null. */
  predicate Crosses(doc: Document, parts: seq<string>) {
    exists n :: 1 <= n < |parts| && Blocks(Walk(Obj(doc), parts[..n]))
  }

  predicate Blocks(v: Json) {
    v != Null && !v.Obj?
  }

  lemma CrossesStep(doc: Document, parts: seq<string>)
    requires |parts| > 1
    ensures var child := Get(doc, parts[0]);
            Crosses(doc, parts) <==> Blocks(child) || (child.Obj? && Crosses(child.fields, parts[1..]))
  {
    var child := Get(doc, parts[0]);
    forall n | 1 <= n < |parts| ensures Walk(Obj(doc), parts[..n]) == Walk(child, parts[1..][..n - 1]) {
      assert parts[..n][1..] == parts[1..][..n - 1];
    }
    if child.Obj? && Crosses(child.fields, parts[1..]) {
      var n :| 1 <= n < |parts[1..]| && Blocks(Walk(child, parts[1..][..n]));
      assert Walk(Obj(doc), parts[..n + 1]) == Walk(child, parts[1..][..n + 1 - 1]);
    }
    if Crosses(doc, parts) && !Blocks(child) {
      var n :| 1 <= n < |parts| && Blocks(Walk(Obj(doc), parts[..n]));
      assert n > 1;
      if child == Null {
        WalkNull(parts[1..][..n - 1]);
      }
    }
    if Blocks(child) {
      assert Walk(Obj(doc), parts[..1]) == Walk(child, parts[1..][..0]) == child;
    }
  }

  lemma {:induction false} SetPartsFailsExactly(doc: Document, parts: seq<string>, value: Json)
    requires parts != []
    ensures SetParts(doc, parts, value).Ok? <==> !Crosses(doc, parts)
    decreases |parts|
  {
    if |parts| > 1 {
      var child := Get(doc, parts[0]);
      CrossesStep(doc, parts);
      SetPartsFailsExactly(if child.Obj? then child.fields else map[], parts[1..], value);
      if child == Null {
        forall n | 1 <= n < |parts[1..]| ensures Walk(Obj(map[]), parts[1..][..n]) == Null {
          WalkNull(parts[1..][..n][1..]);
        }
      }
    }
  }

  /** An overlay is rejected exactly when its path has more than four parts, has an empty part or one that starts with an
      underscore, or leads through a value that is not an object. */
  lemma OverlayRejectsExactly(doc: Document, path: string, value: Json)
    ensures var parts := Split(path, '.');
            SetSafePath(doc, path, value).Err?
            <==> |parts| > 4 || "" in parts || (exists i :: 0 <= i < |parts| && "_" <= parts[i]) || Crosses(doc, parts)
  {
    var parts := Split(path, '.');
    if "" in parts {
      var i :| 0 <= i < |parts| && parts[i] == "";
    }
    if i :| 0 <= i < |parts| && "_" <= parts[i] {
      assert parts[i][0] == '_';
    }
    SetPartsFailsExactly(doc, Split(path, '.'), value);
  }

  function ApplyOverrides(applicant: Document, overrides: seq<Override>): Result<Document>
    decreases |overrides|
  {
    if overrides == [] then Ok(applicant)
    else
      var next :- SetSafePath(applicant, overrides[0].property, overrides[0].value);
      ApplyOverrides(next, overrides[1..])
  }

  /** No override leads through the path, nor the path through it. */
  predicate Untouched(path: string, overrides: seq<Override>) {
    forall i :: 0 <= i < |overrides| ==> Incomparable(Split(overrides[i].property, '.'), Split(path, '.'))
  }

  lemma {:induction false} OverridesKeepOthers(applicant: Document, overrides: seq<Override>, path: string)
    requires ApplyOverrides(applicant, overrides).Ok? && Untouched(path, overrides)
    ensures GetPath(ApplyOverrides(applicant, overrides).value, path) == GetPath(applicant, path)
    decreases |overrides|
  {
    if overrides != [] {
      OverlayReadsBack(applicant, overrides[0].property, overrides[0].value, path);
      OverridesKeepOthers(SetSafePath(applicant, overrides[0].property, overrides[0].value).value, overrides[1..], path);
    }
  }

  /** The value document of an answer. */
  function ValueOf(run: Run): Document {
    map["scalars" := Obj(run.acc.scalars), "grants" := Arr(run.acc.grants), "denials" := Arr(run.acc.denials),
        "eligible" := if run.acc.eligible.Some? then Bool(run.acc.eligible.value) else Null,
        "emitted" := Arr(run.acc.emitted)]
  }

  function Difference(before: Json, after: Json): Json {
    Obj(map["before" := before, "after" := after])
  }

  /** Fills the delta key by key: exactly the keys whose values differ, with both values. */
  method Delta(before: Document, after: Document) returns (result: Document)
    ensures forall key :: key in result <==> Get(before, key) != Get(after, key)
    ensures forall key :: key in result ==> result[key] == Difference(Get(before, key), Get(after, key))
  {
    result := map[];
    var keys := before.Keys + after.Keys;
    while keys != {}
      invariant keys <= before.Keys + after.Keys
      invariant forall key :: key in result <==> key in before.Keys + after.Keys - keys && Get(before, key) != Get(after, key)
      invariant forall key :: key in result ==> result[key] == Difference(Get(before, key), Get(after, key))
      decreases keys
    {
      var key :| key in keys;
      if Get(before, key) != Get(after, key) {
        result := result[key := Difference(Get(before, key), Get(after, key))];
      }
      keys := keys - {key};
    }
  }

  datatype Simulation = Simulation(before: Run, after: Run, delta: Document)

  /** The delta shows a changed value with both states, and nothing for an unchanged one. */
  predicate ShowsChange(delta: Document, name: string, before: Json, after: Json) {
    if before == after then name !in delta
    else name in delta && delta[name] == Obj(map["before" := before, "after" := after])
  }

  /** The delta shows the changes of the five parts of an answer and nothing else. */
  predicate ShowsChanges(delta: Document, before: Accumulated, after: Accumulated) {
    && delta.Keys <= {"scalars", "grants", "denials", "eligible", "emitted"}
    && ShowsChange(delta, "scalars", Obj(before.scalars), Obj(after.scalars))
    && ShowsChange(delta, "grants", Arr(before.grants), Arr(after.grants))
    && ShowsChange(delta, "denials", Arr(before.denials), Arr(after.denials))
    && ShowsChange(delta, "eligible", Mark(before.eligible), Mark(after.eligible))
    && ShowsChange(delta, "emitted", Arr(before.emitted), Arr(after.emitted))
  }

  function Mark(eligible: Option<bool>): Json {
    match eligible
    case None => Null
    case Some(b) => Bool(b)
  }

  lemma DeltaShowsChanges(delta: Document, before: Run, after: Run)
    requires forall key :: key in delta <==> Get(ValueOf(before), key) != Get(ValueOf(after), key)
    requires forall key :: key in delta ==> delta[key] == Difference(Get(ValueOf(before), key), Get(ValueOf(after), key))
    ensures ShowsChanges(delta, before.acc, after.acc)
  {
    PartsOf(before);
    PartsOf(after);
    PartShown(delta, before, after, "scalars");
    PartShown(delta, before, after, "grants");
    PartShown(delta, before, after, "denials");
    PartShown(delta, before, after, "eligible");
    PartShown(delta, before, after, "emitted");
    forall key | key in delta ensures key in {"scalars", "grants", "denials", "eligible", "emitted"} {
    }
  }

  lemma PartsOf(run: Run)
    ensures ValueOf(run).Keys == {"scalars", "grants", "denials", "eligible", "emitted"}
    ensures Get(ValueOf(run), "scalars") == Obj(run.acc.scalars) && Get(ValueOf(run), "grants") == Arr(run.acc.grants)
    ensures Get(ValueOf(run), "denials") == Arr(run.acc.denials) && Get(ValueOf(run), "eligible") == Mark(run.acc.eligible)
    ensures Get(ValueOf(run), "emitted") == Arr(run.acc.emitted)
  {
  }

  lemma PartShown(delta: Document, before: Run, after: Run, name: string)
    requires name in delta <==> Get(ValueOf(before), name) != Get(ValueOf(after), name)
    requires name in delta ==> delta[name] == Difference(Get(ValueOf(before), name), Get(ValueOf(after), name))
    ensures ShowsChange(delta, name, Get(ValueOf(before), name), Get(ValueOf(after), name))
  {
  }

  /** simulate: two engine runs on the same store, nothing persisted. */
  method Simulate(s: State, base: Query, overrides: seq<Override>) returns (r: Result<Simulation>)
    ensures r.Ok? <==> && FreshRun(s, base).Ok? && ApplyOverrides(base.applicant, overrides).Ok?
                       && FreshRun(s, base.(applicant := ApplyOverrides(base.applicant, overrides).value)).Ok?
    ensures r.Ok? ==>
              && FreshRun(s, base) == Ok(r.value.before)
              && FreshRun(s, base.(applicant := ApplyOverrides(base.applicant, overrides).value)) == Ok(r.value.after)
              && ShowsChanges(r.value.delta, r.value.before.acc, r.value.after.acc)
  {
    var before :- FreshRun(s, base);
    var applicant := base.applicant;
    for i := 0 to |overrides|
      invariant ApplyOverrides(base.applicant, overrides) == ApplyOverrides(applicant, overrides[i..])
    {
      assert overrides[i..][0] == overrides[i] && overrides[i..][1..] == overrides[i + 1..];
      applicant :- SetSafePath(applicant, overrides[i].property, overrides[i].value);
    }
    var after :- FreshRun(s, base.(applicant := applicant));
    var delta := Delta(ValueOf(before), ValueOf(after));
    DeltaShowsChanges(delta, before, after);
    return Ok(Simulation(before, after, delta));
  }

  /** The overrides touch no applicant path that an effect value of a firing rule reads. */
  predicate EffectsUntouched(rules: seq<Rule>, data: Data, overrides: seq<Override>) {
    forall r, e, n :: r in rules && Fires(r, data) && e in r.effects && n in ValueReferences(e) && n.kind == ApplicantPath ==>
                        Untouched(n.id, overrides)
  }

  /** What-if irrelevance: overrides on paths incomparable with every applicant path the first run recorded, or an effect
      value of a rule that fired read, give the same answer, so the delta is empty. */
  lemma IrrelevantOverridesChangeNothing(s: State, base: Query, overrides: seq<Override>)
    requires FreshRun(s, base).Ok? && ApplyOverrides(base.applicant, overrides).Ok?
    requires EffectsUntouched(RulesFor(s, base.context), DataFor(s.facts, s.relations, base.applicant, base.context), overrides)
    requires forall n :: n in FreshRun(s, base).value.deps && n.kind == ApplicantPath ==> Untouched(n.id, overrides)
    ensures FreshRun(s, base.(applicant := ApplyOverrides(base.applicant, overrides).value)) == FreshRun(s, base)
  {
    var applicant := ApplyOverrides(base.applicant, overrides).value;
    var rules := RulesFor(s, base.context);
    var a := DataFor(s.facts, s.relations, base.applicant, base.context);
    var b := DataFor(s.facts, s.relations, applicant, base.context);
    forall n | n in RunEngine(rules, a).value.deps ensures AgreesOn(n, a, b) {
      if n.kind == ApplicantPath {
        OverridesKeepOthers(base.applicant, overrides, n.id);
      }
    }
    forall r | r in rules && Fires(r, a) ensures EffectsAgree(r.effects, a, b) {
      forall e, n | e in r.effects && n in ValueReferences(e) ensures AgreesOn(n, a, b) {
        if n.kind == ApplicantPath {
          OverridesKeepOthers(base.applicant, overrides, n.id);
        }
      }
    }
    EngineFrame(rules, a, b);
  }
}
