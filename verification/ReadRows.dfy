/** The rows a condition reads: an evaluation records exactly the facts and relations its references select. */
module ReadRows {
  import opened Prelude
  import opened Json
  import opened Dsl
  import opened Graph
  import opened Evaluator
  import opened EvaluatorProofs
  import opened Readings

  /** A reference without a value, or an empty one, in a filter field admits all. */
  predicate Passes(fields: Document, name: string, actual: string) {
    name !in fields || fields[name] in FALSY || fields[name] == Str(actual)
  }

  /** The rows one reference selects. */
  function SelectedRows(fields: Document, data: Data): set<Node> {
    match FormOf(fields)
    case FactForm =>
      if !Get(fields, "property").Str? then {}
      else set f | f in data.facts && MatchesPattern(f.property, fields["property"].s) && Passes(fields, "subject_id", f.subject)
                   && f.id != "" :: Node(FactNode, f.id)
    case RelationForm =>
      if !Get(fields, "relation_type").Str? then {}
      else set r | r in data.relations && r.relationType == fields["relation_type"].s && Passes(fields, "subject_id", r.subject)
                   && Passes(fields, "object_id", r.target) && r.id != "" :: Node(RelationNode, r.id)
    case _ => {}
  }

  /** The rows all references of a node select. */
  function RowsRead(node: Json, data: Data): set<Node>
    decreases node, 1
  {
    if !node.Obj? then {}
    else if IsLeaf(node.fields) then SelectedRows(node.fields, data)
    else RowsReadInAll(Operands(node), node, data)
  }

  function RowsReadInAll(operands: seq<Option<Json>>, ghost parent: Json, data: Data): set<Node>
    requires forall i :: 0 <= i < |operands| && operands[i].Some? ==> operands[i].value < parent
    decreases parent, 0, |operands|
  {
    if operands == [] then {}
    else (if operands[0].Some? then RowsRead(operands[0].value, data) else {}) + RowsReadInAll(operands[1..], parent, data)
  }

  function Rows(deps: set<Node>): set<Node> {
    set n | n in deps && !IsSelector(n)
  }

  lemma PassesExactly(fields: Document, name: string, actual: string)
    ensures Passes(fields, name, actual) <==> Selected(Get(fields, name), actual)
  {
    FiltersExactly(Get(fields, name), actual);
  }

  lemma FactRowsExactly(fields: Document, data: Data)
    requires FormOf(fields) == FactForm && Leaf(fields, data).Ok?
    ensures Rows(Leaf(fields, data).value.deps) == SelectedRows(fields, data)
  {
    var p, subject := fields["property"].s, Get(fields, "subject_id");
    var keep := (f: Fact) => Selected(subject, f.subject);
    FilterMembers((f: Fact) => MatchesPattern(f.property, p), data.facts);
    FilterMembers(keep, FactsMatching(data.facts, p));
    forall f: Fact ensures Passes(fields, "subject_id", f.subject) <==> keep(f) {
      PassesExactly(fields, "subject_id", f.subject);
    }
    var rows := Filter(keep, FactsMatching(data.facts, p));
    assert forall f :: f in rows <==> f in data.facts && MatchesPattern(f.property, p) && keep(f);
  }

  lemma RelationRowsExactly(fields: Document, data: Data)
    requires FormOf(fields) == RelationForm && Leaf(fields, data).Ok?
    ensures Rows(Leaf(fields, data).value.deps) == SelectedRows(fields, data)
  {
    var t := fields["relation_type"].s;
    var keep := (r: Relation) => Selected(Get(fields, "subject_id"), r.subject) && Selected(Get(fields, "object_id"), r.target);
    FilterMembers((r: Relation) => r.relationType == t, data.relations);
    FilterMembers(keep, RelationsOfType(data.relations, t));
    forall r: Relation
      ensures Passes(fields, "subject_id", r.subject) && Passes(fields, "object_id", r.target) <==> keep(r)
    {
      PassesExactly(fields, "subject_id", r.subject);
      PassesExactly(fields, "object_id", r.target);
    }
    var rows := Filter(keep, RelationsOfType(data.relations, t));
    assert forall r :: r in rows <==> r in data.relations && r.relationType == t && keep(r);
  }

  /** A successful evaluation records exactly the rows its references select. */
  lemma {:induction false} RowsExactly(node: Json, data: Data)
    requires Eval(node, data).Ok?
    ensures Rows(Eval(node, data).value.deps) == RowsRead(node, data)
    decreases node, 1
  {
    if node.Obj? {
      if !IsLeaf(node.fields) {
        AllRowsExactly(Operands(node), node, data);
        CombineKeepsDependencies(node.fields, EvalAll(Operands(node), node, data).value);
      } else if FormOf(node.fields) == FactForm {
        FactRowsExactly(node.fields, data);
      } else if FormOf(node.fields) == RelationForm {
        RelationRowsExactly(node.fields, data);
      }
    }
  }

  lemma {:induction false} AllRowsExactly(operands: seq<Option<Json>>, parent: Json, data: Data)
    requires forall i :: 0 <= i < |operands| && operands[i].Some? ==> operands[i].value < parent
    requires EvalAll(operands, parent, data).Ok?
    ensures Rows(Dependencies(EvalAll(operands, parent, data).value)) == RowsReadInAll(operands, parent, data)
    decreases parent, 0, |operands|
  {
    if operands != [] {
      var first, rest := Eval(operands[0].value, data).value, EvalAll(operands[1..], parent, data).value;
      RowsExactly(operands[0].value, data);
      AllRowsExactly(operands[1..], parent, data);
      assert ([first] + rest)[1..] == rest;
      assert Rows(first.deps + Dependencies(rest)) == Rows(first.deps) + Rows(Dependencies(rest));
    }
  }
}
