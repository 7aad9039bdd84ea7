# Andromeda core: a verified model

Andromeda keeps facts and relations in a bi-temporal store, evaluates declarative rules over them, and keeps every
evaluation as a materialised result that later writes invalidate through recorded dependencies. This project models that
core in Dafny and proves what it guarantees over all inputs, all data snapshots and all runs of service calls.
`dafny verify dfyconfig.toml` checks every file.

How the parts fit together:

- **DSL** (`Dsl`, `Validation`, `Evaluator`, `Expressions`, `JsonOrder`, `EvaluatorProofs`). `Expressions` reads a JSON node
  as a typed tree with its own meaning. The validator accepts exactly the trees of bounded height and the interpreter
  computes exactly their meaning. The dependencies an evaluation records are exactly what it can see.
- **Rules and engine** (`Rules`, `ScopeProofs`, `Engine`, `EngineProofs`, `EffectFold`, `ClosedForm`, `Report`, `Ties`,
  `MarkTies`, `Coverage`). The imperative engine is proved against a fold, the fold against a closed form per target, and it is
  shown exactly when the order of equal-priority rules matters to a scalar or to eligibility.
- **Stores as one state machine** (`FactStore`, `RuleStore`, `RuleStoreProofs`, `Selectors`, `Core`, `Outlines`,
  `CacheProofs`, `CacheHits`, `Reachable`). `Core.Step` is one service call. One invariant is kept by every call, and from it
  follow what a cached answer is worth, time travel, single open versions and rule-store safety for every reachable store.
- **Where the promises end** (`Limits`, `Scenarios`, `StaleAnswers`, `UnrecordedReads`, `HiddenTies`). Runs of calls from
  the empty store for each property that fails, next to the exact condition under which it holds.
- **Services** (`Services`, `Graph`, `DependencyGraphs`, `WhatIf`). The calls as they change the tables step by step inside
  a transaction, each proved to do what the state machine says: all of it, or nothing.
- **Ingestion** (`Pipeline`, `PipelineProofs`). Fetch, extract and publish with a failure possible at every stage, over any
  number of runs.
- **Ground laws** (`Readings`, `Comparisons`, `Grammar`, `Explanations`, `ReadRows`, `EffectLaws`, `StoreLaws`, `RuleLaws`,
  `HistoricalReads`, `InvalidationLaws`, `PipelineRuns`). What every operation does in terms of the texts in a node, real
  numbers, characters, instants and the columns of a row, so that the theorems above rest on nothing that only the model says.
- `Prelude`, `Text`, `Json`, `Decimals` and `Sorting` hold the vocabulary.

## What the code does that its documentation does not say

- `docs/dependency-graph.md` says re-evaluation reconstructs an invalidated result. Storing over its row passes
  `updated_at` and `row_version` twice (`src/andromeda_core/application/computation_service.py:98-100`,
  `src/andromeda_core/infrastructure/db/repositories.py:500`), which Python refuses: the persisted query raises exactly then
  (`Reachable.PersistingRaisesExactly`), so an invalidated result stays invalidated for good (`Reachable.InvalidatedForGood`).
- `docs/rule-dsl.md` says equal-priority contradictory effects are blocked. The guard has two blind spots: it compares a list
  with a scalar, and nested objects, by plain inequality (`src/andromeda_core/domain/rules.py:119-127`), and its effect map
  keeps the last effect per target only (`src/andromeda_core/domain/rules.py:115-116`). The order of tied rules in force never
  decides what a target is left with exactly when no two of them clash on it through a blind spot
  (`RuleStoreProofs.TiesHarmlessExactly`, `Reachable.ReachableTiesExactly`); amounts commute, so two of them never clash.
  `HiddenTies` puts a clash through either blind spot in force.
- Marks on different targets are never compared by the guard although the last one decides eligibility; the order of tied rules
  is irrelevant to it exactly when the last marks agree in the lowest priority group that marks
  (`MarkTies.EligibilityTiesExactly`).
- `docs/dependency-graph.md` treats the recorded dependencies as what a result rests on. An effect value is evaluated but its
  dependencies are dropped (`src/andromeda_core/domain/engine.py:227-228`). Such a read is safe when the run recorded a selector
  that covers it, and only then is what it reads determined by the record (`Coverage.CoveredExactly`). A cached answer whose
  effect reads are covered is fresh (`CacheHits.CacheIsCoherent`); an uncovered one can be stale
  (`UnrecordedReads.UnrecordedReadLeavesStaleValue`), in its effects and nowhere else (`CacheHits.OutlinesStayFresh`).
- `docs/temporal-model.md` says a result key includes the exact rule snapshot. The key holds rule ids and versions, not
  whether a rule was superseded. A query with `known_at` lists superseded rules, which the engine skips. A cached answer is
  fresh exactly when its traces name the rules active now (`CacheHits.HitIsFreshExactly`). After a succession its values still
  are (`CacheHits.HitKeepsValues`) though its traces may not be; after a superseded rule is activated again its values may be
  stale too (`StaleAnswers`).
- `docs/rule-dsl.md` draws a lifecycle. `validate`, `test` and `activate` do not look at the current status, so a rule in
  force can be validated out of force, and a superseded rule can be marked active again without being in force
  (`RuleStoreProofs.ActivationTakesForceExactly`). What holds over every run is `Reachable.RuleStoreSafety`.
- Re-asserting a value that was corrected earlier finds its old identity and changes nothing
  (`FactStore.WrittenValueCurrentExactly` says exactly when the written value is current).
- `failed_stage` names the stage at which the run entered the attempt, not the one that failed
  (`PipelineProofs.RunResumes`).
- Invalidating a derived result by its own id changes nothing (`Reachable.InvalidatingAResultChangesNothing`).

## Model

| member | source | states |
|---|---|---|
| Expressions.ValidatorExact | src/andromeda_core/domain/dsl/ast.py:69-168 | the validator reports no problem exactly for nodes that read as a typed expression fitting below the depth bound |
| Expressions.InterpreterExact | src/andromeda_core/domain/dsl/evaluator.py:42-85 | the interpreter answers the independent meaning of every well-formed node, and reports a type mismatch exactly where that meaning is undefined |
| Expressions.EvaluateExact | src/andromeda_core/domain/dsl/evaluator.py:29-33 | evaluate answers the meaning of bounded well-formed nodes and rejects every other node as invalid |
| Expressions.LeafExact | src/andromeda_core/domain/dsl/evaluator.py:88-116 | fact, relation, context and applicant references pick the rows and paths their meaning names |
| Expressions.LogicalFold | src/andromeda_core/domain/dsl/evaluator.py:119-127 | and, or and not hold exactly when all, some or not the one operand holds |
| Expressions.QuantifierFold | src/andromeda_core/domain/dsl/evaluator.py:178-188 | any, all, none and at_least speak about the set of items that hold, at_least about its size |
| Expressions.ComparatorExact | src/andromeda_core/domain/dsl/evaluator.py:145-158 | every comparison operator is equality, its negation, or a statement about one strict order; null is never ordered |
| Expressions.MembershipExact | src/andromeda_core/domain/dsl/evaluator.py:64-71 | in and not_in test membership in the list, or equality with a single value |
| Expressions.PresentExact | src/andromeda_core/domain/dsl/evaluator.py:60-63 | exists and not_exists test for a value that is neither null nor the empty list |
| Expressions.AggregatorExact | src/andromeda_core/domain/dsl/evaluator.py:161-175 | each aggregation operator computes its aggregate or reports incompatible values, never anything else |
| Grammar.ParseExactly | src/andromeda_core/domain/dsl/ast.py:89-145 | a node reads as an expression exactly when it is written as that expression, kind by kind and operator by operator, in the texts of the DSL |
| Grammar.FormsAreNamed | src/andromeda_core/domain/dsl/evaluator.py:42-85 | the form of a node is told by the text of its kind, or of its op when it has no kind |
| Comparisons.NumbersCompare | src/andromeda_core/domain/dsl/evaluator.py:145-158 | numbers, and booleans as one and zero, compare as the reals do, operator by operator |
| Comparisons.TextsCompare | src/andromeda_core/domain/dsl/evaluator.py:145-158 | texts compare by code point at the first place where they differ, a text that has ended coming first |
| Comparisons.ListsCompareAtFirstDifference | src/andromeda_core/domain/dsl/evaluator.py:145-158 | lists compare as the first pair of items that is not level, and raise where that pair has no order |
| Comparisons.LevelListsCompareByLength | src/andromeda_core/domain/dsl/evaluator.py:145-158 | when one list is level with the beginning of the other, the lengths decide |
| Comparisons.SortsDoNotMix | src/andromeda_core/domain/dsl/evaluator.py:145-158 | values of different sorts have no order: false with null, a type mismatch otherwise |
| Comparisons.EqualityCompares | src/andromeda_core/domain/dsl/evaluator.py:145-158 | == and != are equality of JSON values and its negation, null included |
| Comparisons.AggregatesOfNumbers | src/andromeda_core/domain/dsl/evaluator.py:161-175 | count, sum, min and max of a list of numbers are its length, its real sum and the elements that bound it; the empty list has only a count |
| Comparisons.NumberConditions | src/andromeda_core/domain/dsl/evaluator.py:29-33 | a comparison node over two numbers evaluates to what the reals say |
| Readings.FalsyExactly | src/andromeda_core/domain/dsl/evaluator.py:119-127 | a value counts as false exactly when it is null, false, zero or empty |
| Readings.FiltersExactly | src/andromeda_core/domain/dsl/evaluator.py:88-93 | a subject or object filter that is empty admits every row, any other the rows of that text only |
| Readings.KeyReads | src/andromeda_core/domain/dsl/evaluator.py:199-205 | a path without a dot reads that field, null if it is absent |
| Readings.PathReads | src/andromeda_core/domain/dsl/evaluator.py:199-205 | a longer path goes on in the object its first key holds and reads null where that is no object |
| Explanations.CombineAddsRecord | src/andromeda_core/domain/dsl/evaluator.py:119-142 | every inner node adds one record with its operator and value after the steps of its operands; existence tests add none |
| Explanations.FactReferenceCounts | src/andromeda_core/domain/dsl/evaluator.py:88-101 | the step of a fact reference names the property and counts the rows it selects |
| Explanations.RelationReferenceCounts | src/andromeda_core/domain/dsl/evaluator.py:104-116 | the step of a relation reference names the type and counts the rows it selects |
| JsonOrder.OrderAntisymmetric | src/andromeda_core/domain/dsl/evaluator.py:145-158 | swapping the operands of an ordering reverses it, and unordered pairs are unordered both ways |
| JsonOrder.OrderTransitive | src/andromeda_core/domain/dsl/evaluator.py:145-158 | the ordering of numbers, texts and lists is transitive, strict as soon as one step is |
| JsonOrder.ExtremeIsBound | src/andromeda_core/domain/dsl/evaluator.py:161-175 | min and max answer one of the values, and no other value lies beyond it |
| JsonOrder.TotalIgnoresOrder | src/andromeda_core/domain/dsl/evaluator.py:161-175 | sum, and whether it fails, does not depend on the order of the rows |
| Validation.ValidateNode | src/andromeda_core/domain/dsl/ast.py:69-145 | the traversal appends exactly the node's problems to the shared list, in order |
| Validation.ValidateAll | src/andromeda_core/domain/dsl/ast.py:81-84 | the loop over children appends the problems of each child in turn |
| Validation.ValidateObject | src/andromeda_core/domain/dsl/ast.py:89-145 | an object node is dispatched on its kind and gets exactly its problems appended |
| Expressions.LeafValidatorExact | src/andromeda_core/domain/dsl/ast.py:97-100 | a literal or reference has no problem exactly when it reads as one, with nothing below it |
| Expressions.AllValidatorExact | src/andromeda_core/domain/dsl/ast.py:81-84 | a list of children has no problem exactly when every child reads as an expression that fits one level deeper |
| Expressions.LogicalValidatorExact | src/andromeda_core/domain/dsl/ast.py:101-112 | a logical node has no problem exactly when it reads as and, or or not over operands that fit |
| Expressions.ComparisonValidatorExact | src/andromeda_core/domain/dsl/ast.py:113-118 | a comparison has no problem exactly when it reads as a known comparator over two sides that fit |
| Expressions.MembershipValidatorExact | src/andromeda_core/domain/dsl/ast.py:122-127 | a membership node has no problem exactly when it reads as in or not_in over two sides that fit |
| Expressions.AggregationValidatorExact | src/andromeda_core/domain/dsl/ast.py:128-132 | an aggregation has no problem exactly when it reads as a known aggregate of a target that fits |
| Expressions.QuantifierValidatorExact | src/andromeda_core/domain/dsl/ast.py:133-144 | a quantifier has no problem exactly when it reads as a known quantifier over at least one item, all of which fit |
| Expressions.ChildValidatorExact | src/andromeda_core/domain/dsl/ast.py:148-159 | a required child has no problem exactly when it is present and reads as an expression that fits one level deeper |
| Validation.IsValid | src/andromeda_core/domain/dsl/ast.py:55-60 | a node is valid exactly when the traversal leaves the list empty |
| Validation.ValidateRulePayload | src/andromeda_core/domain/rules.py:42-59 | a payload is valid exactly when condition, exceptions, effects and logical key all are |
| EvaluatorProofs.EvalFrame | src/andromeda_core/domain/dsl/evaluator.py:42-127 | data that agrees on the selectors a node mentions gives the same value, dependencies, steps or error |
| EvaluatorProofs.DependenciesExact | src/andromeda_core/domain/dsl/evaluator.py:88-127 | a successful evaluation records exactly the selectors its node mentions, and only rows those selectors pick |
| ReadRows.RowsExactly | src/andromeda_core/domain/dsl/evaluator.py:88-116 | a successful evaluation records exactly the facts and relations that its references select, by pattern, type and filters |
| EvaluatorProofs.RecordedDependenciesSuffice | src/andromeda_core/domain/dsl/evaluator.py:42-127 | data that agrees on everything a successful evaluation recorded reproduces it |
| EvaluatorProofs.CombineKeepsDependencies | src/andromeda_core/domain/dsl/evaluator.py:191-196 | an inner node records the union of what its operands recorded |
| EvaluatorProofs.ValidNeverStuck | src/andromeda_core/domain/dsl/evaluator.py:42-85 | a validated node evaluates or reports a type mismatch, never an unknown node or missing field |
| EvaluatorProofs.RecursionBounded | src/andromeda_core/domain/dsl/ast.py:69-78 | a validated node nests at most 31 interpreter calls |
| Selectors.SelectorsAreExactlyThePatterns | src/andromeda_core/application/knowledge_service.py:393-395 | for all strings, a pattern reads a property exactly when it is one of the selectors a write invalidates |
| EffectFold.EffectOnSlots | src/andromeda_core/domain/engine.py:231-248 | a SET, ADD or SUBTRACT takes one step on its own target and leaves every other target and claim alone; no other effect touches a scalar |
| Report.OneEffectLists | src/andromeda_core/domain/engine.py:251-278 | GRANT, DENY and EMIT_DERIVED each extend exactly their own list by one entry, a mark decides eligibility, and no other effect does either |
| EffectLaws.SetLaw | src/andromeda_core/domain/engine.py:149-169 | an effect whose type is the text SET gives an unclaimed target its value and claims it, and changes nothing on a claimed one |
| EffectLaws.AddLaw | src/andromeda_core/domain/engine.py:236-241 | ADD adds its number to the scalar, else to the context value of that name, else to zero, and changes nothing else |
| EffectLaws.SubtractLaw | src/andromeda_core/domain/engine.py:244-248 | SUBTRACT subtracts it from the same start and changes nothing else |
| EffectLaws.AmountsRead | src/andromeda_core/domain/engine.py:281-287 | an amount of null or a boolean is zero, a number is itself, a list or object is a type mismatch |
| EffectLaws.GrantLaw | src/andromeda_core/domain/engine.py:251-255 | GRANT appends target and value to the grants and changes nothing else |
| EffectLaws.DenyLaw | src/andromeda_core/domain/engine.py:258-262 | DENY appends target and value to the denials and changes nothing else |
| EffectLaws.EmitLaw | src/andromeda_core/domain/engine.py:275-278 | EMIT_DERIVED appends type and value to the emitted values and changes nothing else |
| EffectLaws.MarkLaw | src/andromeda_core/domain/engine.py:265-272 | MARK_ELIGIBLE and MARK_INELIGIBLE set eligibility and change nothing else |
| EffectLaws.OtherTypesRefused | src/andromeda_core/domain/engine.py:162-164 | an effect of any other type is an invalid effect |
| EffectLaws.RunListsByText | src/andromeda_core/domain/engine.py:177-183 | grants, denials and emitted values of an answer are those of the executed GRANT, DENY and EMIT_DERIVED effects in engine order |
| EffectLaws.RunMarksByText | src/andromeda_core/domain/engine.py:177-183 | the last executed mark decides eligibility, which stays open without one |
| EffectLaws.RunScalarsByText | src/andromeda_core/domain/engine.py:121-172 | every scalar of an answer is what the executed SET, ADD and SUBTRACT effects on it leave, and only those targets have one |
| EffectLaws.RunRefusesOtherTypes | src/andromeda_core/domain/engine.py:162-164 | a run that executes an effect of any other type raises |
| EngineProofs.ValidEffectNeverStuck | src/andromeda_core/domain/engine.py:162-164 | a validated effect has a registered handler that answers or reports a type mismatch |
| Engine.RuleEngine.ApplyAll | src/andromeda_core/domain/engine.py:149-169 | the effect loop skips a SET on a claimed target, applies every other effect and claims targets under the rule's priority |
| Engine.RuleEngine.EvaluateExceptions | src/andromeda_core/domain/engine.py:214-224 | exceptions are evaluated in order up to the first that holds, with everything read recorded |
| Engine.RuleEngine.EvaluateRules | src/andromeda_core/domain/engine.py:107-207 | one pass over the ordered rules computes accumulator, dependencies, traces, matched rules and rule versions |
| EngineProofs.EngineFrame | src/andromeda_core/domain/engine.py:121-148 | the whole engine run is reproduced by any data that agrees with its recorded dependencies and with what the effect values of its firing rules read |
| Coverage.CoveredExactly | src/andromeda_core/domain/engine.py:227-228 | recorded dependencies determine what an unrecorded selector reads, on all data, exactly when a recorded pattern covers it (for a relation type, when it is recorded itself) |
| Outlines.EngineOutline | src/andromeda_core/domain/engine.py:121-172 | what a run matches, considers, reads and traces does not depend on the effects: the rules without their effects run to the same outline |
| Outlines.OutlineFrame | src/andromeda_core/domain/engine.py:121-148 | data that agrees with the recorded dependencies alone gives the same outline, whatever the effect values read |
| EngineProofs.InputOrderIrrelevant | src/andromeda_core/domain/engine.py:210-211 | any permutation of rules with distinct key and version gives the same result, traces and dependencies |
| EngineProofs.ValidEngineNeverStuck | src/andromeda_core/domain/engine.py:121-172 | when its active rules are valid the engine answers or fails with a type mismatch, whatever the data |
| EffectFold.RunIsFold | src/andromeda_core/domain/engine.py:121-172 | the rule loop succeeds exactly when every check does and the executed effects fold; its accumulator is that fold |
| EffectFold.FoldByTarget | src/andromeda_core/domain/engine.py:149-168 | effects act on targets independently: the fold succeeds exactly when every target's own fold does, and leaves its slot |
| ClosedForm.SlotClosedForm | src/andromeda_core/domain/engine.py:52-57 | one target ends at its first SET plus later amounts, or at the context value or zero plus all amounts |
| ClosedForm.EngineClosedForm | src/andromeda_core/domain/engine.py:121-172 | every reported scalar has that closed form, and the SET that decides it has the highest priority among matched SETs |
| Decimals.DecimalTextReads | src/andromeda_core/domain/engine.py:281-287 | decimal text in an ADD or SUBTRACT reads as the number its digits form, scaled by the fraction's length and signed |
| Decimals.WholeTextReads | src/andromeda_core/domain/engine.py:281-287 | whole-number text reads as its value, with either sign |
| Readings.NumeralsAreAmounts | src/andromeda_core/domain/engine.py:281-287 | the base-ten numeral of every number reads back as that number, with either sign |
| Readings.PointShifts | src/andromeda_core/domain/engine.py:281-287 | a numeral with its last k digits behind a point reads as that many 10^-k |
| Report.ListsAreExecutedEffects | src/andromeda_core/domain/engine.py:177-183 | grants, denials and emitted values are exactly those of the executed effects in order; the last mark decides eligibility |
| Report.ReportExact | src/andromeda_core/domain/engine.py:121-172 | matched rules are those that fire, rule versions those in scope, and each rule in force has one trace that says which |
| Report.ReportNames | src/andromeda_core/domain/engine.py:121-172 | an answer names as matched exactly the rules that fire and as considered exactly those in scope, by id, key and version |
| Ties.OrderFreeExactly | src/andromeda_core/domain/engine.py:150-168 | the order of tied rules never matters to a target, whichever of the rules take part, exactly when it matters for no two tied rules by themselves |
| Ties.TiesHarmless | src/andromeda_core/domain/engine.py:150-168 | where no two tied rules differ by order, two orders of the rules that both descend in priority succeed together with equal scalars |
| Ties.TwoEffectsExactly | src/andromeda_core/domain/engine.py:150-168 | the order of two effects on a target is indifferent exactly when both are amounts, both set the same value, or one sets a number, the other adds zero and there is a number to add to (or both orders raise) |
| Ties.LiteralsExactly | src/andromeda_core/domain/engine.py:150-168 | for literal effects the order never matters, whatever the data, exactly when both are amounts, both are the same, or an amount is no number and always raises |
| MarkTies.EligibilityTiesExactly | src/andromeda_core/domain/engine.py:265-272 | every order that descends in priority ends with the same eligibility exactly when the rules of the lowest priority group that marks end with the same mark |
| MarkTies.ListsIgnoreOrder | src/andromeda_core/domain/engine.py:251-278 | grants, denials and emitted values of two orders of the rules are the same up to their own order |
| Ties.EffectMapRecords | src/andromeda_core/domain/rules.py:115-116 | the effect map holds type and value of the last effect on a target, and nothing for a target without effects |
| Ties.DisagreeExactly | src/andromeda_core/domain/rules.py:104-112 | effect maps disagree exactly when the last effects of both rules on some target differ in type or value |
| Ties.SingleContestShows | src/andromeda_core/domain/rules.py:104-116 | rules with one effect each on a target cannot do different things to it, one of them a SET, without their effect maps disagreeing |
| ScopeProofs.CanBothMatchDecides | src/andromeda_core/domain/rules.py:88-101 | a procedure on two scopes alone decides whether some context matches both |
| ScopeProofs.OverlapMissesExactly | src/andromeda_core/domain/rules.py:119-127 | the overlap test misses a common context exactly when the scopes can match together and a shared key is compared by inequality |
| ScopeProofs.SameShapeScopesOverlap | src/andromeda_core/domain/rules.py:119-127 | for scopes whose shared keys are both lists or both scalars the test never misses |
| RuleLaws.ScopeAppliesExactly | src/andromeda_core/domain/rules.py:88-101 | a scope applies exactly when every key does: a list admits its values, an object applies key by key, anything else is the one value |
| RuleLaws.ScopesOverlapExactly | src/andromeda_core/domain/rules.py:119-127 | two scopes overlap exactly when on every shared key two lists share a value and anything else is equal |
| RuleLaws.EffectValidExactly | src/andromeda_core/domain/rules.py:70-85 | an effect is valid exactly when it is an object of one of the eight types with a target, a value unless it is a mark, and a valid expression where the value is one |
| RuleLaws.PayloadValidExactly | src/andromeda_core/domain/rules.py:42-59 | a payload is valid exactly when condition, exceptions and effects are, there is an effect, and the key is not white space |
| RuleStoreProofs.ConflictsSymmetric | src/andromeda_core/domain/rules.py:104-112 | the conflict test does not depend on which rule is asked first |
| HiddenTies.GuardMissesListAgainstScalar | src/andromeda_core/domain/rules.py:119-127 | for every key and value, a run of calls puts two rules in force whose hidden tie decides the scalar by its order |
| HiddenTies.GuardMissesEarlierEffects | src/andromeda_core/domain/rules.py:115-116 | a run of calls puts two rules in force whose tie is hidden because the effect map calls them equal; their order decides the scalar exactly when the amount is not zero |
| Limits.EffectReadsAreNotRecorded | src/andromeda_core/domain/engine.py:227-228 | data sets that agree on everything recorded give equal answers exactly when the unrecorded fact agrees |
| Graph.EdgeKeepsAcyclicExactly | src/andromeda_core/domain/dependencies.py:26-31 | an edge keeps an acyclic graph acyclic exactly when its source is not reachable from its target |
| DependencyGraphs.InsertionsStayAcyclic | src/andromeda_core/domain/dependencies.py:26-31 | every sequence of insertions leaves the graph acyclic |
| DependencyGraphs.SortedNodes | src/andromeda_core/domain/dependencies.py:43-43 | sorted lists each node of a set once, in the one order that is sorted |
| Graph.NodesOrderedByName | src/andromeda_core/domain/dependencies.py:43-43 | nodes are ordered as pairs of their kind's name and their id |
| DependencyGraphs.DependencyGraph.Add | src/andromeda_core/domain/dependencies.py:26-31 | rejects exactly the edges that would close a cycle, adds every other, changes nothing else |
| DependencyGraphs.DependencyGraph.HasPath | src/andromeda_core/domain/dependencies.py:33-44 | answers true exactly when a path exists |
| DependencyGraphs.DependencyGraph.Affected | src/andromeda_core/domain/dependencies.py:46-57 | lists exactly the reachable nodes other than the source, sorted, and fails exactly beyond the bound |
| FactStore.ListedExactly | src/andromeda_core/infrastructure/db/repositories.py:301-324 | a fact is listed exactly when a row picked by the filters and known at the instant holds it |
| StoreLaws.FactsListed | src/andromeda_core/infrastructure/db/repositories.py:301-324 | a fact is listed exactly when a row holds it whose subject and property pass, whose interval covers the valid instant with its end excluded, and that was recorded and not yet superseded at the known instant |
| StoreLaws.FactsListedInOrder | src/andromeda_core/infrastructure/db/repositories.py:323-323 | facts are listed by property, then by id, by code point |
| StoreLaws.FactsListedOnce | src/andromeda_core/infrastructure/db/repositories.py:323-324 | no fact is listed twice |
| StoreLaws.AcceptedExactly | src/andromeda_core/application/knowledge_service.py:324-356 | a write is accepted exactly when its checks admit it, subject and property are given, and the id is new |
| StoreLaws.RecordedExactly | src/andromeda_core/application/knowledge_service.py:356-363 | an accepted write of a held value changes nothing; any other appends one row with every column it gave and ends exactly the open row of its subject, property and valid start |
| StoreLaws.WrittenFactListed | src/andromeda_core/application/knowledge_service.py:356-363 | a written fact is listed at a valid instant exactly when the filters admit it and its interval covers the instant, with subject, property, value, interval and instant as written |
| StoreLaws.RelationsListed | src/andromeda_core/infrastructure/db/repositories.py:340-362 | a relation is listed exactly when it is in the table, its subject passes, its interval covers the valid instant and it was recorded by the known instant |
| StoreLaws.RelationsListedInOrder | src/andromeda_core/infrastructure/db/repositories.py:361-361 | relations are listed by id |
| StoreLaws.RelationCreatedExactly | src/andromeda_core/application/knowledge_service.py:279-305 | a relation with the same ends, type and valid start is a duplicate and adds nothing; any other is added as given, known from now on, unless its id is taken |
| StoreLaws.RelationShows | src/andromeda_core/domain/dsl/evaluator.py:104-116 | what a rule sees of a relation |
| FactStore.Close | src/andromeda_core/infrastructure/db/repositories.py:290-297 | closing ends only open rows with the id and changes no fact |
| FactStore.ReplacedClosesExactlyOne | src/andromeda_core/infrastructure/db/repositories.py:298-299 | the row a correction closes is the one open row with its id, so closing never reports a conflict |
| FactStore.ReplacedIsTheOpenRow | src/andromeda_core/application/knowledge_service.py:419-430 | the row a new value replaces is the open row of its subject, property and valid start, if there is one |
| FactStore.RecordedKeepsGood | src/andromeda_core/application/knowledge_service.py:185-213 | an accepted write keeps at most one open row per slot and keeps identities unique |
| FactStore.WrittenValueCurrentExactly | src/andromeda_core/application/knowledge_service.py:353-363 | after a write its value is current exactly when no closed row already holds that identity |
| FactStore.QueryAsKnownAt | src/andromeda_core/infrastructure/db/repositories.py:317-320 | the listing as known at an instant equals the current listing of the table at that instant |
| FactStore.OneVersionVisible | src/andromeda_core/infrastructure/db/repositories.py:317-320 | at a past instant at most one version of a slot is visible |
| RuleStore.MaxVersion | src/andromeda_core/application/rule_service.py:64-64 | the greatest version of a key, zero when the key is new |
| RuleLaws.CreatedExactly | src/andromeda_core/application/rule_service.py:39-104 | a repeated request changes nothing; any other is refused unless the table can take it, and then appends one row: a fresh draft with every column as asked, in the version asked for or the next one |
| RuleLaws.RulesAsAsked | src/andromeda_core/application/rule_service.py:64-104 | over every run each rule of the table carries the columns and tests of the call that created it |
| RuleLaws.ValidatedExactly | src/andromeda_core/application/rule_service.py:124-131 | validating sets the one rule to REVIEW or VALIDATING by its payload and advances its version, and changes nothing else |
| RuleLaws.TestedExactly | src/andromeda_core/application/rule_service.py:133-153 | testing sends an invalid rule to VALIDATING; otherwise it records every outcome and sets REVIEW if all passed and TESTING if not; it raises exactly without tests or where one raises |
| RuleLaws.TestPassesExactly | src/andromeda_core/application/rule_service.py:241-262 | a test passes exactly when the one rule, run as active on the test's data, reports the expected type, target and value of every effect in order, and the expected explanation |
| RuleLaws.ActivationAcceptedExactly | src/andromeda_core/application/rule_service.py:155-215 | an activation is accepted exactly when the guard allows it, the predecessor exists and the expected row version is none, zero or the row's |
| RuleLaws.ActivatedExactly | src/andromeda_core/application/rule_service.py:207-215 | activation makes the rule ACTIVE and its predecessor SUPERSEDED from now on, advances both versions and changes nothing else |
| RuleLaws.GuardExactly | src/andromeda_core/application/rule_service.py:155-206 | the guard allows exactly valid rules with provenance and passed tests beside which nothing in force but the predecessor has the key or, at the priority and with an overlapping scope, other effects |
| RuleLaws.RulesListed | src/andromeda_core/infrastructure/db/repositories.py:393-413 | a rule is listed exactly when it is ACTIVE (or, at a known instant, SUPERSEDED later), its interval covers the valid instant, and it was created and not yet superseded at the known one |
| RuleLaws.EngineOrder | src/andromeda_core/domain/engine.py:210-211 | the engine goes by descending priority, then logical key by code point, then version |
| RuleStore.RunTests | src/andromeda_core/application/rule_service.py:143-147 | every test's outcome is recorded, and the call fails exactly when a test raises |
| RuleStoreProofs.CreatedIsNewest | src/andromeda_core/application/rule_service.py:63-64 | a rule created without a version becomes the newest of its key |
| RuleStoreProofs.TestsDecideReview | src/andromeda_core/application/rule_service.py:133-150 | a test call ends in REVIEW exactly when the payload is valid and every test passes: expected effects and explanation |
| RuleStoreProofs.FreshOutcomesTruthful | src/andromeda_core/application/rule_service.py:143-147 | a recorded pass is what running that test on the stored rule gives |
| RuleStoreProofs.ActiveRulesExactly | src/andromeda_core/infrastructure/db/repositories.py:393-417 | active_rules lists exactly the picked rows, with superseded rows only in historical queries |
| RuleStoreProofs.GuardedRulesCoexist | src/andromeda_core/application/rule_service.py:168-180 | the guard leaves no other version of the key and no conflicting rule in force beside the activated one |
| RuleStoreProofs.ActivatedKeepsGood | src/andromeda_core/application/rule_service.py:155-215 | activation keeps one rule in force per key, no conflicts in force, and only valid fully passing rules in force |
| RuleStoreProofs.ActivationTakesForceExactly | src/andromeda_core/application/rule_service.py:207-215 | activation puts a rule in force exactly when it was never superseded and does not replace itself; the rule it replaces is out of force |
| RuleStoreProofs.StepKeepsHistory | src/andromeda_core/application/rule_service.py:39-215 | create, validate, test and activate only append rows, never change content, never reopen a closed row, and advance the version of every row they write |
| RuleStoreProofs.StepKeepsGood | src/andromeda_core/application/rule_service.py:39-215 | every rule call keeps the rule-table invariant |
| RuleStoreProofs.EngineSeesViews | src/andromeda_core/domain/engine.py:121-172 | the engine's answer depends on active rules only through id, key, version, scope, condition, effects, exceptions and priority |
| RuleStoreProofs.TieInForceIsHidden | src/andromeda_core/application/rule_service.py:166-206 | two rules in force tie, contest a target and apply to a common context exactly when the guard cannot see it: the scopes can match together, and the effect maps agree or a shared key is compared by inequality |
| RuleStoreProofs.TiesHarmlessExactly | src/andromeda_core/application/rule_service.py:166-206 | on given data, the order of tied rules never decides what a target is left with, whichever rules in force take part, exactly when no two of them clash unseen by the guard |
| RuleStoreProofs.NoTieNoClash | src/andromeda_core/domain/rules.py:104-127 | rules whose effects and scopes show no hidden tie have no hidden clash on any data |
| Core.AffectedIds | src/andromeda_core/application/dependency_service.py:21-43 | a result is affected exactly when an edge path leads to it from another node |
| Core.InvalidateRows | src/andromeda_core/infrastructure/db/repositories.py:521-529 | exactly the VALID rows among the ids become INVALIDATED, in place |
| InvalidationLaws.FactWriteInvalidatesExactly | src/andromeda_core/application/knowledge_service.py:356-390 | in every reachable store a fact write invalidates exactly the results that recorded a selector of its property or the row it supersedes, and none when it changes nothing and is no observation |
| InvalidationLaws.RelationInvalidatesExactly | src/andromeda_core/application/knowledge_service.py:310-316 | a new relation invalidates exactly the results that recorded its type |
| InvalidationLaws.ActivationInvalidatesExactly | src/andromeda_core/application/rule_service.py:216-236 | an activation invalidates exactly the results that considered the predecessor or, without one, those under the rule's ontology |
| InvalidationLaws.InvalidationExactly | src/andromeda_core/application/dependency_service.py:21-44 | an invalidation hits exactly the results that rest on the node: by a recorded dependency, a considered rule, or the ontology |
| InvalidationLaws.InvalidationRaisesExactly | src/andromeda_core/application/dependency_service.py:27-35 | in every reachable store an invalidation raises exactly when ten thousand results or more rest on the node |
| CacheProofs.WriteInvisible | src/andromeda_core/infrastructure/db/repositories.py:301-324 | a write to a property is invisible to every pattern that cannot read it, in any listing |
| CacheProofs.RelationInvisible | src/andromeda_core/infrastructure/db/repositories.py:340-362 | a new relation is invisible to every other relation type, in any listing |
| CacheProofs.FactWriteKeepsCoherent | src/andromeda_core/application/knowledge_service.py:185-229 | every result that stays VALID through a fact write still has the outline of what the engine computes, and all of it when a recorded selector covers everything the effect values of its matched rules read |
| CacheProofs.RelationWriteKeepsCoherent | src/andromeda_core/application/knowledge_service.py:279-319 | the same of every result that stays VALID through a relation write |
| CacheProofs.EvaluationKeepsInvariant | src/andromeda_core/application/computation_service.py:57-113 | storing a new result with its edges keeps the store invariant |
| CacheProofs.IntendedRewriteKeepsInvariant | src/andromeda_core/application/computation_service.py:102-103 | recomputing an invalidated result over its row, which the code intends and cannot do, would keep the invariant |
| CacheProofs.StepKeepsInvariant | src/andromeda_core/application/computation_service.py:25-121 | every service call keeps the store invariant |
| CacheProofs.RunsKeepInvariant | src/andromeda_core/application/computation_service.py:25-121 | every run of service calls keeps the store invariant |
| CacheProofs.UnaffectedDidNotRecord | src/andromeda_core/application/computation_service.py:106-111 | a result that no traversal from a node reaches recorded neither that dependency nor that rule |
| CacheProofs.ActivationKeepsInvariant | src/andromeda_core/application/rule_service.py:207-236 | a result that stays VALID through an activation did not use the rule it superseded, so the invariant is kept |
| CacheHits.CurrentListsInForce | src/andromeda_core/infrastructure/db/repositories.py:405-412 | a query without known_at lists only rules in force |
| CacheHits.KeysAgreeExactly | src/andromeda_core/application/computation_service.py:44-53 | two queries share a stored result exactly when they agree on type, applicant and context and list the same rules in the same versions under one ontology |
| HistoricalReads.FreshRunReads | src/andromeda_core/application/computation_service.py:36-40 | an evaluation reads exactly the facts and relations of its subject that its valid and known instants show, and the rules listed at them |
| HistoricalReads.MalformedInstantRaises | src/andromeda_core/application/computation_service.py:36-37 | an instant given as any other text raises |
| HistoricalReads.EvaluationTimeTravel | src/andromeda_core/application/computation_service.py:36-74 | after every run under a nondecreasing clock a query with known_at t is computed on the facts and relations current after the last call at or before t |
| HistoricalReads.LaterWritesInvisible | src/andromeda_core/application/computation_service.py:36-74 | facts, relations and results written later do not change what such a query computes |
| CacheHits.HitIsFreshExactly | src/andromeda_core/application/computation_service.py:54-56 | a cached answer whose matched rules' effect values read only what recorded selectors cover equals a fresh run exactly when its traces name the listed rules that are active now |
| CacheHits.HitKeepsValues | src/andromeda_core/application/computation_service.py:54-56 | unless a superseded rule was activated again, such a cached answer has the values, dependencies, matched rules and versions of a fresh run, and its traces add only scope mismatches of superseded rules |
| CacheHits.CacheIsCoherent | src/andromeda_core/application/computation_service.py:25-121 | after any run of calls from the empty store such a cached answer to a query without known_at equals a fresh run: values, traces, matched rules, versions, dependencies |
| CacheHits.HistoricalHits | src/andromeda_core/application/computation_service.py:25-121 | after any run of calls, for every query, both statements about hits above hold |
| CacheHits.OutlineIsFreshExactly | src/andromeda_core/application/computation_service.py:54-56 | whatever effect values read, a cached answer has the matched rules, versions, dependencies and traces up to their effects of a fresh run that answers exactly when its traces name the listed rules that are active now |
| CacheHits.OutlinesStayFresh | src/andromeda_core/application/computation_service.py:25-121 | after any run of calls, when a fresh run answers at all, only the effects of a cached answer to a query without known_at can be out of date; of a historical one also scope mismatches, unless a superseded rule was activated again |
| Reachable.PersistingRaisesExactly | src/andromeda_core/infrastructure/db/repositories.py:494-501 | in every reachable store, once the engine has answered, a persisted query raises exactly when its key has a row that is not VALID or, for a new key, some row has the new id |
| Reachable.InvalidatedForGood | src/andromeda_core/infrastructure/db/repositories.py:494-501 | over every run an invalidated row never changes again, and no later persisted query with its key is answered |
| StaleAnswers.SupersededRuleLeavesStaleTrace | src/andromeda_core/infrastructure/db/repositories.py:393-404 | a run of calls from the empty store after which a cached historical answer keeps the trace of a superseded rule that a fresh run skips |
| StaleAnswers.ReactivationLeavesStaleValue | src/andromeda_core/application/rule_service.py:207-218 | a run of calls from the empty store after which a cached historical answer and a fresh run differ in eligibility, because a superseded rule was activated again |
| UnrecordedReads.UnrecordedReadLeavesStaleValue | src/andromeda_core/domain/engine.py:227-228 | for every property and value, a run of calls after which a cached answer misses a fact an effect value reads; it differs from a fresh run exactly when the value is not null |
| Reachable.ReachableTiesExactly | src/andromeda_core/application/rule_service.py:165-215 | in every reachable store the order of tied rules in force decides nothing on a target exactly when no two of them clash on it unseen by the guard |
| Reachable.ReachableTiesHarmless | src/andromeda_core/application/rule_service.py:165-215 | then any order of the rules in force that descends in priority succeeds together with the engine's and gives the same scalars |
| Reachable.ReachableEngineNeverStuck | src/andromeda_core/application/rule_service.py:155-164 | on the rules any query of any reachable store lists, historical or not, the engine answers or reports a type mismatch |
| Reachable.RulesInForcePassTheirTests | src/andromeda_core/application/rule_service.py:160-164 | every rule in force has a test and passes each one when it is run now |
| Reachable.RuleStoreSafety | src/andromeda_core/application/rule_service.py:124-215 | over every run: one rule in force per key, superseded rules never in force again, content immutable |
| Reachable.TimeTravel | src/andromeda_core/infrastructure/db/repositories.py:301-324 | for every run under a nondecreasing clock, the query as known at t equals the current query after the last call at or before t |
| Reachable.RelationTimeTravel | src/andromeda_core/infrastructure/db/repositories.py:340-362 | for every run under a nondecreasing clock, relations as known at t are the relations listed after the last call at or before t |
| Reachable.SingleVersion | src/andromeda_core/application/knowledge_service.py:185-213 | in every reachable table at most one version of a slot is open, and at any instant at most one is visible |
| Reachable.InvalidatingAResultChangesNothing | src/andromeda_core/application/dependency_service.py:21-44 | in every reachable store, invalidating a derived result by its own id changes nothing |
| Services.Repository.Rollback | src/andromeda_core/infrastructure/db/repositories.py:74-75 | leaving by an exception restores what was last committed |
| Services.QueueTargets | src/andromeda_core/application/dependency_service.py:36-43 | queues each unvisited target and collects the results among them |
| Services.Traverse | src/andromeda_core/application/dependency_service.py:21-43 | the traversal returns exactly the affected results, and fails exactly when more nodes are reachable than the bound |
| Services.Invalidate | src/andromeda_core/application/dependency_service.py:21-44 | marks exactly the VALID results reachable from the source, or raises exactly beyond the bound, changing nothing else |
| Graph.VisitsEachOnce | src/andromeda_core/application/dependency_service.py:72-86 | the search order lists every reachable node once |
| Services.HasPath | src/andromeda_core/application/dependency_service.py:72-86 | finds the target exactly when it is among the first 10001 nodes of the search order, else gives up exactly when there are more than 10000, else no path exists |
| Services.RegisterEdge | src/andromeda_core/application/dependency_service.py:65-70 | adds an edge exactly when it is new, closes no cycle and the bound is not exceeded, and keeps the edges acyclic |
| Services.InvalidateEach | src/andromeda_core/application/knowledge_service.py:383-390 | invalidating selector by selector equals invalidating everything that hangs on any of them |
| Services.WriteFact | src/andromeda_core/application/knowledge_service.py:324-368 | does all of the fact write the state machine describes, or nothing |
| Services.ReplaceFact | src/andromeda_core/application/knowledge_service.py:187-213 | closes the open version, inserts the new row and invalidates both the old fact and the property's selectors |
| Services.CreateRelation | src/andromeda_core/application/knowledge_service.py:264-322 | inserts an unknown relation and invalidates its type, or does nothing |
| RuleStoreProofs.CreateIsIdempotent | src/andromeda_core/application/rule_service.py:40-44 | asking to create a rule again under the same idempotency key changes nothing, however much happened since |
| RuleStoreProofs.StaleActivationRefused | src/andromeda_core/infrastructure/db/repositories.py:419-432 | an activation that expects the version of a row from before another call wrote it is refused |
| RuleStoreProofs.ValidatingWithdraws | src/andromeda_core/application/rule_service.py:124-131 | validating a rule takes it, and no other rule, out of every listing, whatever its status and payload were |
| Services.TestRule | src/andromeda_core/application/rule_service.py:133-153 | records every outcome and moves the rule, or does nothing when a test raises |
| Services.RunAllTests | src/andromeda_core/application/rule_service.py:143-147 | the loop computes every outcome, or stops where one raises |
| Services.CheckActivation | src/andromeda_core/application/rule_service.py:155-206 | the sequence of checks allows activation exactly when the guard holds |
| Services.ReplaceRule | src/andromeda_core/application/rule_service.py:207-215 | supersedes the predecessor and activates the row, exactly when both updates are admitted |
| Services.ActivateRule | src/andromeda_core/application/rule_service.py:155-239 | guard, replacement, activation and invalidation happen together or not at all |
| Services.AddDependencyIfMissing | src/andromeda_core/application/computation_service.py:123-133 | an edge into a result is present afterwards and never rejected, while results have no outgoing edges |
| Services.AddDependencies | src/andromeda_core/application/computation_service.py:106-111 | all the edges of a result are present afterwards and no other edge changes |
| Services.Materialize | src/andromeda_core/application/computation_service.py:104-111 | writes the result as a new row with all its edges |
| Services.Recompute | src/andromeda_core/application/computation_service.py:57-113 | after a miss answers the engine's run, stores it under a new key when asked to, and raises over a row that is not VALID |
| Services.EvaluateQuery | src/andromeda_core/application/computation_service.py:25-121 | answers from a VALID row with the query's key, recomputes, or raises with nothing changed |
| WhatIf.OverlayReadsBack | src/andromeda_core/application/semantic_service.py:41-54 | after an overlay its path reads the new value and every incomparable path reads what it read before |
| WhatIf.OverlayRejectsExactly | src/andromeda_core/application/semantic_service.py:41-54 | an overlay is rejected exactly when its path has more than four parts, has an empty part or one that starts with an underscore, or leads through a value that is not an object |
| WhatIf.OverridesKeepOthers | src/andromeda_core/application/semantic_service.py:29-30 | a list of overrides leaves every path they do not touch unchanged |
| WhatIf.Delta | src/andromeda_core/application/semantic_service.py:57-63 | the delta holds exactly the keys whose values differ, with both values |
| WhatIf.Simulate | src/andromeda_core/application/semantic_service.py:24-38 | both runs are fresh engine runs on the same store, and the delta shows exactly the changed ones of scalars, grants, denials, eligible and emitted with their values before and after |
| WhatIf.IrrelevantOverridesChangeNothing | src/andromeda_core/application/semantic_service.py:24-38 | overrides incomparable with every applicant path recorded, or read by an effect value of a firing rule, leave the whole answer unchanged |
| Pipeline.ProposalRoundTrip | src/andromeda_core/application/ingestion_pipeline.py:61-90 | a stored proposal reads back as the proposal, evidence included |
| Pipeline.ProposalsRoundTrip | src/andromeda_core/application/ingestion_pipeline.py:264-276 | a stored extraction reads back as what was extracted |
| Pipeline.IngestionPipeline.Run | src/andromeda_core/application/ingestion_pipeline.py:140-155 | one run changes the attempts and calls the ports exactly as the run function says |
| Pipeline.IngestionPipeline.RefreshPublished | src/andromeda_core/application/ingestion_pipeline.py:157-217 | a terminal stream is re-fetched: unchanged, seen before, or a new attempt |
| Pipeline.IngestionPipeline.Continue | src/andromeda_core/application/ingestion_pipeline.py:219-224 | an attempt resumes at its first missing payload |
| Pipeline.IngestionPipeline.Fetch | src/andromeda_core/application/ingestion_pipeline.py:226-248 | bytes and checksum are stored before the attempt continues; a failure is marked |
| Pipeline.IngestionPipeline.Extract | src/andromeda_core/application/ingestion_pipeline.py:250-273 | the extraction is stored before it is published; a failure is marked |
| PipelineProofs.PublishKeeps | src/andromeda_core/application/ingestion_pipeline.py:275-298 | publishing a stored extraction, whether it succeeds or fails, keeps the stream invariant |
| PipelineProofs.FailedRowKeeps | src/andromeda_core/application/ingestion_pipeline.py:300-305 | marking a failure after any other call keeps the stream invariant: payloads, checksums and the record of publications |
| PipelineProofs.RunKeeps | src/andromeda_core/application/ingestion_pipeline.py:140-305 | every run, whatever fails, keeps the stream invariant |
| PipelineProofs.History | src/andromeda_core/application/ingestion_pipeline.py:140-305 | any sequence of runs leaves a readable stream that keeps the invariant |
| PipelineProofs.PublishedAtMostOnce | src/andromeda_core/application/ingestion_pipeline.py:140-217 | over any runs attempts have distinct checksums, only the newest is unfinished, and no checksum is published twice |
| PipelineProofs.SkippedOnlyAfterPublished | src/andromeda_core/application/ingestion_pipeline.py:175-201 | an attempt is marked unchanged only after it was published, and every publish call carries proposals and checksum of the same bytes |
| PipelineProofs.RefreshCases | src/andromeda_core/application/ingestion_pipeline.py:165-217 | a re-fetched document whose checksum the stream has is only marked unchanged; any other becomes a new attempt that is worked on |
| PipelineProofs.RunSucceeds | src/andromeda_core/application/ingestion_pipeline.py:140-298 | when every port answers, the run succeeds and the newest attempt is published or unchanged |
| PipelineProofs.EachPortCalledOnce | src/andromeda_core/application/ingestion_pipeline.py:219-304 | a run makes at most one fetch, one extract and one publish call |
| PipelineProofs.ResumeCalls | src/andromeda_core/application/ingestion_pipeline.py:219-304 | resuming calls no port whose result is stored and keeps stored bytes |
| PipelineProofs.RunResumes | src/andromeda_core/application/ingestion_pipeline.py:219-304 | the next run after a failure reuses stored bytes and extraction, and a failure names the stage entered at |
| PipelineProofs.RunContinues | src/andromeda_core/application/ingestion_pipeline.py:140-305 | terminal attempts stay terminal and stored payloads survive every run |
| PipelineRuns.FirstRunSucceeds | src/andromeda_core/application/ingestion_pipeline.py:226-298 | a first run whose ports answer leaves one published attempt with every payload stored, after one call of each port |
| PipelineRuns.FirstFetchFails | src/andromeda_core/application/ingestion_pipeline.py:226-234 | a failed first fetch leaves a failed attempt without payloads |
| PipelineRuns.FirstExtractionFails | src/andromeda_core/application/ingestion_pipeline.py:226-262 | a failed extraction keeps the bytes and records the stage entered at |
| PipelineRuns.FirstPublishFails | src/andromeda_core/application/ingestion_pipeline.py:226-298 | a failed publish keeps bytes and extraction and records the stage entered at |
| PipelineRuns.UnchangedRun | src/andromeda_core/application/ingestion_pipeline.py:165-190 | a later run that fetches the newest bytes again marks the newest attempt unchanged and makes no other call |
| PipelineRuns.ChangedRun | src/andromeda_core/application/ingestion_pipeline.py:190-217 | a later run that fetches new bytes publishes them as a new attempt |
| PipelineRuns.RefetchFails | src/andromeda_core/application/ingestion_pipeline.py:157-170 | a failed re-fetch changes no attempt |

## Left out

- CacheHits.CacheIsCoherent: not claimed when an effect value of a matched rule reads a fact property or relation type that no recorded selector covers; the answer can then be stale (`UnrecordedReads.UnrecordedReadLeavesStaleValue`), though only in its effects (`CacheHits.OutlinesStayFresh`). Historical queries are the subject of `CacheHits.HistoricalHits`.
- Reachable.ReachableTiesHarmless: covers the scalars; eligibility and the lists are the subject of `MarkTies`, and the order within a list follows the order of the rules.
- FactStore.Close: the conflict the original reports unless exactly one open row has the id is not a result here; `FactStore.ReplacedClosesExactlyOne` shows that it does not arise.
- WhatIf.OverlayReadsBack: the overlay is modelled on values; the original changes nested dictionaries of a private deep copy in place.
- Dsl.Problems: an `args` or `items` field that is neither a list nor absent is reported as one problem; the original also walks its keys or characters, or raises when it cannot.
- Numbers are exact reals: float rounding, the Decimal context, NaN, infinities, and exponents, underscores or surrounding blanks in decimal text are not modelled, and a float with an integral value counts as an integer.
- A boolean and a number are distinct under equality, so Python's `1 == True` is not modelled; in ordering and sums booleans count as numbers, as in Python.
- Values Python cannot hash (a list or object as an operator, a kind or an effect target, or inside the lists the overlap test turns into sets) raise in Python; here they are invalid, stuck or compared by value. An effect whose target is not text fails here; validated rules have text targets.
- Instants are decimal counts; parsing ISO text is not modelled, except that text which is no instant makes the call raise.
- SHA-256, canonical JSON text and result keys are injective constructors; digests and text encoding are not modelled. The identity of a fact is its subject, property, value and valid start.
- The check that ontology definitions, value types, provenance, intervals and confidence accept a write is one `admissible` flag; the active ontology is fixed and present; subjects, property codes and ids are not empty.
- Facts and relations carry only the columns the interpreter, the filters and the identities read; a relation as a value shows id, type, subject, object and properties.
- Explanation text, durations, audit events, change events, review items, rule relations and validation reports are not modelled (whether a test's expected explanation occurs in its run's explanation is a fixed flag of the test); a refused activation that records its conflict changes none of the modelled tables.
- The counts of listed facts and relations in a stored trace are not part of an answer here.
- Two sessions writing at once: calls are serial, so lost updates and write skew between rows are not covered.
- As-of queries for rules: a rule's transaction start is its creation, so the time-travel theorem is about facts.
- The pipeline is one stream whose rows are in creation order and whose store writes succeed; merging fetch metadata into the publish context, and error text, are not modelled.
- HTTP routes, schemas, roles, middleware, metrics, migrations, session handling, source adapters, AI adapters, ontology and review services: no property that needs them.
