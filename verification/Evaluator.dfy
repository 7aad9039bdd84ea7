/** The pure interpreter of the rule DSL (domain/dsl/evaluator.py): a node is evaluated to a value together with
    the dependencies it read and the steps it took. */
module Evaluator {
  import opened Prelude
  import opened Text
  import opened Json
  import opened Dsl
  import opened Graph

  datatype Fact = Fact(
    id: string, subject: string, property: string, value: Json,
    validFrom: Option<int>, validTo: Option<int>, knownFrom: int)

  datatype Relation = Relation(
    id: string, relationType: string, subject: string, target: string, properties: Json,
    validFrom: Option<int>, validTo: Option<int>, knownFrom: int)

  datatype Data = Data(facts: seq<Fact>, relations: seq<Relation>, context: Document, applicant: Document)

  datatype Trace = Trace(value: Json, deps: set<Node>, steps: seq<Json>)

  /** A property code matches a pattern literally or, for a pattern ending in ".*", by prefix. */
  predicate MatchesPattern(value: string, pattern: string) {
    value == pattern || (EndsWith(pattern, ".*") && StartsWith(value, pattern[..|pattern| - 1]))
  }

  function FactsMatching(facts: seq<Fact>, pattern: string): seq<Fact> {
    Filter((f: Fact) => MatchesPattern(f.property, pattern), facts)
  }

  function RelationsOfType(relations: seq<Relation>, relationType: string): seq<Relation> {
    Filter((r: Relation) => r.relationType == relationType, relations)
  }

  /** A filter field that is absent or falsy does not filter. */
  predicate Selected(wanted: Json, actual: string) {
    !Truthy(wanted) || wanted == Str(actual)
  }

  function RelationRow(r: Relation): Json {
    Obj(map["id" := Str(r.id), "relation_type_code" := Str(r.relationType), "subject_id" := Str(r.subject),
            "object_id" := Str(r.target), "properties_json" := r.properties])
  }

  function FactReference(fields: Document, facts: seq<Fact>): Result<Trace> {
    if "property" !in fields || !fields["property"].Str? then Err(Stuck)
    else
      var property := fields["property"].s;
      var rows := Filter((f: Fact) => Selected(Get(fields, "subject_id"), f.subject), FactsMatching(facts, property));
      var values := Map((f: Fact) => f.value, rows);
      var value := if Get(fields, "kind") != Str("fact") then Arr(values) else if values != [] then values[0] else Null;
      var deps := (set f | f in rows && f.id != "" :: Node(FactNode, f.id)) + {Node(FactProperty, property)};
      Ok(Trace(value, deps, [Obj(map["reference" := Str("fact"), "property" := Str(property),
                                     "count" := Num(|rows| as real)])]))
  }

  function RelationReference(fields: Document, relations: seq<Relation>): Result<Trace> {
    if "relation_type" !in fields || !fields["relation_type"].Str? then Err(Stuck)
    else
      var relationType := fields["relation_type"].s;
      var rows := Filter((r: Relation) => Selected(Get(fields, "subject_id"), r.subject)
                                          && Selected(Get(fields, "object_id"), r.target),
                         RelationsOfType(relations, relationType));
      var value := if Get(fields, "kind") == Str("relation") && rows != [] then RelationRow(rows[0])
                   else Arr(Map(RelationRow, rows));
      var deps := (set r | r in rows && r.id != "" :: Node(RelationNode, r.id)) + {Node(RelationType, relationType)};
      Ok(Trace(value, deps, [Obj(map["reference" := Str("relation"), "type" := Str(relationType),
                                     "count" := Num(|rows| as real)])]))
  }

  function PathReference(fields: Document, root: Document, kind: Kind): Result<Trace> {
    if "path" !in fields || !fields["path"].Str? then Err(Stuck)
    else Ok(Trace(GetPath(root, fields["path"].s), {Node(kind, fields["path"].s)}, []))
  }

  predicate IsLeaf(fields: Document) {
    FormOf(fields) in {LiteralForm, FactForm, RelationForm, ContextForm, ApplicantForm, UnknownForm}
  }

  function Leaf(fields: Document, data: Data): Result<Trace>
    requires IsLeaf(fields)
  {
    match FormOf(fields)
    case LiteralForm => Ok(Trace(Get(fields, "value"), {}, []))
    case FactForm => FactReference(fields, data.facts)
    case RelationForm => RelationReference(fields, data.relations)
    case ContextForm => PathReference(fields, data.context, ContextPath)
    case ApplicantForm => PathReference(fields, data.applicant, ApplicantPath)
    case UnknownForm => if KindOf(fields).Arr? || KindOf(fields).Obj? then Err(Stuck) else Err(InvalidDsl)
  }

  /** The operands of an inner node in evaluation order; None where the node lacks the operand. */
  function Operands(node: Json): (r: seq<Option<Json>>)
    requires node.Obj?
    ensures forall i :: 0 <= i < |r| && r[i].Some? ==> r[i].value < node
  {
    match FormOf(node.fields)
    case LogicalForm => OperandList(node, "args")
    case QuantifierForm => OperandList(node, "items")
    case ComparisonForm => [Operand(node, "left"), Operand(node, "right")]
    case MembershipForm => [Operand(node, "left"), Operand(node, "right")]
    case ExistsForm => [Operand(node, "target")]
    case AggregationForm => [Operand(node, "target")]
    case _ => []
  }

  function Operand(node: Json, name: string): (r: Option<Json>)
    requires node.Obj?
    ensures r.Some? ==> r.value < node
  {
    if name in node.fields then Some(node.fields[name]) else None
  }

  function OperandList(node: Json, name: string): (r: seq<Option<Json>>)
    requires node.Obj?
    ensures forall i :: 0 <= i < |r| && r[i].Some? ==> r[i].value < node
  {
    if name in node.fields && node.fields[name].Arr? then
      var items := node.fields[name].items;
      seq(|items|, i requires 0 <= i < |items| => Some(items[i]))
    else [None]
  }

  function Dependencies(traces: seq<Trace>): set<Node> {
    if traces == [] then {} else traces[0].deps + Dependencies(traces[1..])
  }

  function Steps(traces: seq<Trace>): seq<Json> {
    if traces == [] then [] else traces[0].steps + Steps(traces[1..])
  }

  function TruthValues(traces: seq<Trace>): (r: seq<bool>)
    ensures |r| == |traces|
  {
    Map((t: Trace) => Truthy(t.value), traces)
  }

  function CountTrue(values: seq<bool>): nat {
    if values == [] then 0 else (if values[0] then 1 else 0) + CountTrue(values[1..])
  }

  function Compare(left: Json, right: Json, operator: Json): Result<bool> {
    if left == Null || right == Null then
      Ok((operator == Str("==") && left == right) || (operator == Str("!=") && left != right))
    else if operator == Str("==") then Ok(left == right)
    else if operator == Str("!=") then Ok(left != right)
    else if !IsOneOf(operator, [">", ">=", "<", "<="]) then Err(Stuck)
    else
      match Order(left, right)
      case None => Err(TypeMismatch)
      case Some(c) =>
        Ok(match operator.s
           case ">" => c > 0
           case ">=" => c >= 0
           case "<" => c < 0
           case _ => c <= 0)
  }

  function Total(values: seq<Json>): Result<real> {
    if values == [] then Ok(0.0)
    else if AsNumber(values[0]).None? then Err(TypeMismatch)
    else
      var rest :- Total(values[1..]);
      Ok(AsNumber(values[0]).value + rest)
  }

  /** min (sign -1) or max (sign 1): a later value replaces the best one when it compares strictly beyond it. */
  function Extreme(best: Json, values: seq<Json>, sign: int): Result<Json>
    decreases |values|
  {
    if values == [] then Ok(best)
    else
      match Order(values[0], best)
      case None => Err(TypeMismatch)
      case Some(c) => Extreme(if c * sign > 0 then values[0] else best, values[1..], sign)
  }

  function Aggregate(operator: Json, values: seq<Json>): Result<Json> {
    if operator == Str("count") then Ok(Num(|values| as real))
    else if values == [] then Ok(Null)
    else if operator == Str("sum") then
      var total :- Total(values);
      Ok(Num(total))
    else if operator == Str("min") then Extreme(values[0], values[1..], -1)
    else if operator == Str("max") then Extreme(values[0], values[1..], 1)
    else Err(InvalidDsl)
  }

  function Quantify(operator: Json, values: seq<bool>, count: Json): Result<bool> {
    if operator == Str("any") then Ok(true in values)
    else if operator == Str("all") then Ok(false !in values)
    else if operator == Str("none") then Ok(true !in values)
    else if operator == Str("at_least") then
      if !Truthy(count) then Ok(true)
      else
        match AsNumber(count)
        case None => Err(Stuck)
        case Some(n) => Ok(CountTrue(values) as real >= n)
    else Err(InvalidDsl)
  }

  function BoolItems(values: seq<bool>): Json {
    Arr(Map((b: bool) => Bool(b), values))
  }

  function MergeTrace(value: Json, traces: seq<Trace>, operation: string, operator: Json): Trace {
    Trace(value, Dependencies(traces),
          Steps(traces) + [Obj(map["operation" := Str(operation), "operator" := operator, "value" := value])])
  }

  function ListTrace(value: Json, traces: seq<Trace>, operator: Json): Trace {
    Trace(value, Dependencies(traces),
          Steps(traces) + [Obj(map["operation" := operator, "values" := BoolItems(TruthValues(traces)), "value" := value])])
  }

  function Logical(operator: Json, traces: seq<Trace>): Result<Trace> {
    var values := TruthValues(traces);
    if operator == Str("and") then Ok(ListTrace(Bool(false !in values), traces, operator))
    else if operator == Str("or") then Ok(ListTrace(Bool(true in values), traces, operator))
    else if values == [] then Err(Stuck)
    else Ok(ListTrace(Bool(!values[0]), traces, operator))
  }

  function Exists(negated: bool, target: Trace): Trace {
    var found := target.value != Null && target.value != Arr([]);
    Trace(Bool(found != negated), target.deps, target.steps)
  }

  function Membership(operator: Json, left: Trace, right: Trace): Trace {
    var values := if right.value.Arr? then right.value.items else [right.value];
    var member := left.value in values;
    MergeTrace(Bool(if operator == Str("not_in") then !member else member), [left, right], "membership", operator)
  }

  function AggregateTrace(operator: Json, target: Trace): Result<Trace> {
    var values := if target.value.Arr? then target.value.items else if target.value == Null then [] else [target.value];
    var value :- Aggregate(operator, values);
    Ok(Trace(value, target.deps, target.steps + [Obj(map["operation" := operator, "value" := value])]))
  }

  /** The trace of an inner node from the traces of its operands. */
  function Combine(fields: Document, traces: seq<Trace>): Result<Trace>
    requires !IsLeaf(fields)
    requires FormOf(fields) in {ComparisonForm, MembershipForm} ==> |traces| == 2
    requires FormOf(fields) in {ExistsForm, AggregationForm} ==> |traces| == 1
  {
    if FormOf(fields) == ExistsForm then Ok(Exists(KindOf(fields) != Str("exists"), traces[0]))
    else if "operator" !in fields then Err(Stuck)
    else
      var operator := fields["operator"];
      match FormOf(fields)
      case LogicalForm => Logical(operator, traces)
      case ComparisonForm =>
        var value :- Compare(traces[0].value, traces[1].value, operator);
        Ok(MergeTrace(Bool(value), traces, "comparison", operator))
      case MembershipForm => Ok(Membership(operator, traces[0], traces[1]))
      case AggregationForm => AggregateTrace(operator, traces[0])
      case QuantifierForm =>
        var value :- Quantify(operator, TruthValues(traces), Get(fields, "count"));
        Ok(ListTrace(Bool(value), traces, operator))
  }

  /** Interprets a node without validating it. A node that is not an object is its own value. */
  function Eval(node: Json, data: Data): Result<Trace>
    decreases node, 1
  {
    if !node.Obj? then Ok(Trace(node, {}, []))
    else if IsLeaf(node.fields) then Leaf(node.fields, data)
    else
      var traces :- EvalAll(Operands(node), node, data);
      Combine(node.fields, traces)
  }

  function EvalAll(operands: seq<Option<Json>>, ghost parent: Json, data: Data): (r: Result<seq<Trace>>)
    requires forall i :: 0 <= i < |operands| && operands[i].Some? ==> operands[i].value < parent
    ensures r.Ok? ==> |r.value| == |operands|
    decreases parent, 0, |operands|
  {
    if operands == [] then Ok([])
    else if operands[0].None? then Err(Stuck)
    else
      var first :- Eval(operands[0].value, data);
      var rest :- EvalAll(operands[1..], parent, data);
      Ok([first] + rest)
  }

  /** Validates, then interprets. */
  function Evaluate(node: Json, data: Data): Result<Trace> {
    if Valid(node) then Eval(node, data) else Err(InvalidDsl)
  }
}
