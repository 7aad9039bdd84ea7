/** The steps an evaluation leaves behind: what each node adds to those of its operands. */
module Explanations {
  import opened Prelude
  import opened Json
  import opened Dsl
  import opened Evaluator
  import opened Expressions

  function Truths(traces: seq<Trace>): seq<Json> {
    if traces == [] then [] else [Bool(Truthy(traces[0].value))] + Truths(traces[1..])
  }

  lemma {:induction false} TruthsAreItems(traces: seq<Trace>)
    ensures BoolItems(TruthValues(traces)) == Arr(Truths(traces))
  {
    if traces != [] {
      TruthsAreItems(traces[1..]);
      assert TruthValues(traces)[1..] == TruthValues(traces[1..]);
    }
  }

  /** The record an inner node adds after the steps of its operands: its operator, the value, and for lists the truth values.
      Tests for existence add none. */
  ghost predicate AddsRecord(fields: Document, traces: seq<Trace>, result: Trace) {
    var operator := Get(fields, "operator");
    match FormOf(fields)
    case ExistsForm => |traces| == 1 && result.steps == traces[0].steps
    case ComparisonForm => result.steps == Steps(traces) + [Obj(map["operation" := Str("comparison"), "operator" := operator, "value" := result.value])]
    case MembershipForm => result.steps == Steps(traces) + [Obj(map["operation" := Str("membership"), "operator" := operator, "value" := result.value])]
    case AggregationForm => |traces| == 1 && result.steps == traces[0].steps + [Obj(map["operation" := operator, "value" := result.value])]
    case _ => result.steps == Steps(traces) + [Obj(map["operation" := operator, "values" := Arr(Truths(traces)), "value" := result.value])]
  }

  lemma CombineAddsRecord(fields: Document, traces: seq<Trace>)
    requires !IsLeaf(fields)
    requires FormOf(fields) in {ComparisonForm, MembershipForm} ==> |traces| == 2
    requires FormOf(fields) in {ExistsForm, AggregationForm} ==> |traces| == 1
    requires Combine(fields, traces).Ok?
    ensures AddsRecord(fields, traces, Combine(fields, traces).value)
  {
    TruthsAreItems(traces);
    match FormOf(fields)
    case LogicalForm => LogicalAddsRecord(fields, traces);
    case QuantifierForm =>
    case MembershipForm => assert [traces[0], traces[1]] == traces;
    case _ =>
  }

  lemma LogicalAddsRecord(fields: Document, traces: seq<Trace>)
    requires FormOf(fields) == LogicalForm && Combine(fields, traces).Ok?
    ensures AddsRecord(fields, traces, Combine(fields, traces).value)
  {
    TruthsAreItems(traces);
  }

  /** The record of a reference counts the rows it selected. */
  lemma FactReferenceCounts(fields: Document, facts: seq<Fact>)
    requires FactReference(fields, facts).Ok?
    ensures var p := fields["property"].s;
            FactReference(fields, facts).value.steps
            == [Obj(map["reference" := Str("fact"), "property" := Str(p),
                        "count" := Num(|FactRows(facts, p, Get(fields, "subject_id"))| as real)])]
  {
    var p, subject := fields["property"].s, Get(fields, "subject_id");
    FilterTwice((f: Fact) => Selected(subject, f.subject), (f: Fact) => MatchesPattern(f.property, p),
                (f: Fact) => MatchesPattern(f.property, p) && Selected(subject, f.subject), facts);
  }

  lemma RelationReferenceCounts(fields: Document, relations: seq<Relation>)
    requires RelationReference(fields, relations).Ok?
    ensures var t := fields["relation_type"].s;
            RelationReference(fields, relations).value.steps
            == [Obj(map["reference" := Str("relation"), "type" := Str(t),
                        "count" := Num(|RelationRows(relations, t, Get(fields, "subject_id"), Get(fields, "object_id"))| as real)])]
  {
    var t, subject, target := fields["relation_type"].s, Get(fields, "subject_id"), Get(fields, "object_id");
    FilterTwice((r: Relation) => Selected(subject, r.subject) && Selected(target, r.target),
                (r: Relation) => r.relationType == t,
                (r: Relation) => r.relationType == t && Selected(subject, r.subject) && Selected(target, r.target), relations);
  }
}
