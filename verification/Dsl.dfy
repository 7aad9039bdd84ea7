/** The closed rule DSL: node forms and the structural validator (domain/dsl/ast.py). */
module Dsl {
  import opened Json

  const MAX_DEPTH: nat := 30

  datatype Form =
    | LiteralForm
    | FactForm
    | RelationForm
    | ContextForm
    | ApplicantForm
    | LogicalForm
    | ComparisonForm
    | ExistsForm
    | MembershipForm
    | AggregationForm
    | QuantifierForm
    | UnknownForm

  /** node.get("kind", node.get("op")). */
  function KindOf(fields: Document): Json {
    if "kind" in fields then fields["kind"] else Get(fields, "op")
  }

  function FormOf(fields: Document): Form {
    var kind := KindOf(fields);
    if !kind.Str? then UnknownForm
    else if kind.s == "literal" then LiteralForm
    else if kind.s in ["fact", "facts", "collection"] then FactForm
    else if kind.s in ["relation", "relations"] then RelationForm
    else if kind.s == "context" then ContextForm
    else if kind.s == "applicant" then ApplicantForm
    else if kind.s == "logical" then LogicalForm
    else if kind.s == "comparison" then ComparisonForm
    else if kind.s in ["exists", "not_exists"] then ExistsForm
    else if kind.s == "membership" then MembershipForm
    else if kind.s == "aggregation" then AggregationForm
    else if kind.s == "quantifier" then QuantifierForm
    else UnknownForm
  }

  datatype Problem =
    | TooDeep
    | KindNotText
    | UnknownKind
    | MissingLiteralValue
    | BadOperator
    | BadArity
    | MissingChild(name: string)
    | BadItems
    | BadCount
    | BadReference

  predicate IsOneOf(v: Json, texts: seq<string>) {
    v.Str? && v.s in texts
  }

  /** A JSON number that Python would hold as int; booleans are ints too. */
  predicate IsInteger(v: Json) {
    v.Bool? || (v.Num? && v.n == v.n.Floor as real)
  }

  function When(condition: bool, problem: Problem): seq<Problem> {
    if condition then [problem] else []
  }

  /** The problems the validator reports for a node at a nesting depth, in the order it appends them. */
  function Problems(node: Json, depth: nat, maxDepth: nat): seq<Problem>
    decreases node, 3
  {
    if depth > maxDepth then [TooDeep]
    else if node.Arr? then ProblemsInAll(node.items, depth + 1, maxDepth)
    else if !node.Obj? then []
    else if !KindOf(node.fields).Str? then [KindNotText]
    else
      match FormOf(node.fields)
      case LogicalForm => LogicalProblems(node, depth, maxDepth)
      case ComparisonForm => BinaryProblems(node, ["==", "!=", ">", ">=", "<", "<="], depth, maxDepth)
      case MembershipForm => BinaryProblems(node, ["in", "not_in"], depth, maxDepth)
      case ExistsForm => ProblemsInChild(node, "target", depth, maxDepth)
      case AggregationForm =>
        When(!IsOneOf(Get(node.fields, "operator"), ["count", "sum", "min", "max"]), BadOperator)
        + ProblemsInChild(node, "target", depth, maxDepth)
      case QuantifierForm => QuantifierProblems(node, depth, maxDepth)
      case _ => LeafProblems(node.fields)
  }

  function LeafProblems(fields: Document): seq<Problem> {
    match FormOf(fields)
    case UnknownForm => [UnknownKind]
    case LiteralForm => When("value" !in fields, MissingLiteralValue)
    case FactForm => When(!Get(fields, "property").Str?, BadReference)
    case RelationForm => When(!Get(fields, "relation_type").Str?, BadReference)
    case _ => When(!Get(fields, "path").Str?, BadReference)
  }

  predicate BadLogicalArity(operator: Json, args: Json) {
    !args.Arr? || (operator == Str("not") && |args.items| != 1) || (IsOneOf(operator, ["and", "or"]) && |args.items| < 1)
  }

  function LogicalProblems(node: Json, depth: nat, maxDepth: nat): seq<Problem>
    requires node.Obj?
    decreases node, 2
  {
    var operator := Get(node.fields, "operator");
    When(!IsOneOf(operator, ["and", "or", "not"]), BadOperator)
    + When(BadLogicalArity(operator, Get(node.fields, "args")), BadArity)
    + ProblemsInList(node, "args", depth, maxDepth)
  }

  function BinaryProblems(node: Json, operators: seq<string>, depth: nat, maxDepth: nat): seq<Problem>
    requires node.Obj?
    decreases node, 2
  {
    When(!IsOneOf(Get(node.fields, "operator"), operators), BadOperator)
    + ProblemsInChild(node, "left", depth, maxDepth) + ProblemsInChild(node, "right", depth, maxDepth)
  }

  function QuantifierProblems(node: Json, depth: nat, maxDepth: nat): seq<Problem>
    requires node.Obj?
    decreases node, 2
  {
    var operator, items, count := Get(node.fields, "operator"), Get(node.fields, "items"), Get(node.fields, "count");
    When(!IsOneOf(operator, ["any", "all", "none", "at_least"]), BadOperator)
    + When(!items.Arr? || items.items == [], BadItems)
    + When(operator == Str("at_least") && (!IsInteger(count) || (count.Num? && count.n < 0.0)), BadCount)
    + ProblemsInList(node, "items", depth, maxDepth)
  }

  function ProblemsInChild(node: Json, name: string, depth: nat, maxDepth: nat): seq<Problem>
    requires node.Obj?
    decreases node, 1
  {
    if name !in node.fields then [MissingChild(name)] else Problems(node.fields[name], depth + 1, maxDepth)
  }

  function ProblemsInList(node: Json, name: string, depth: nat, maxDepth: nat): seq<Problem>
    requires node.Obj?
    decreases node, 1
  {
    if name in node.fields && node.fields[name].Arr? then
      ProblemsInAll(node.fields[name].items, depth + 1, maxDepth)
    else []
  }

  function ProblemsInAll(nodes: seq<Json>, depth: nat, maxDepth: nat): seq<Problem>
    decreases nodes, 0
  {
    if nodes == [] then [] else Problems(nodes[0], depth, maxDepth) + ProblemsInAll(nodes[1..], depth, maxDepth)
  }

  predicate ValidAt(node: Json, depth: nat) {
    Problems(node, depth, MAX_DEPTH) == []
  }

  predicate Valid(node: Json) {
    ValidAt(node, 0)
  }

  lemma {:induction false} ProblemsInAllAbsent(nodes: seq<Json>, depth: nat, maxDepth: nat)
    ensures ProblemsInAll(nodes, depth, maxDepth) == []
            <==> forall i :: 0 <= i < |nodes| ==> Problems(nodes[i], depth, maxDepth) == []
  {
    if nodes != [] {
      ProblemsInAllAbsent(nodes[1..], depth, maxDepth);
      assert forall i :: 1 <= i < |nodes| ==> nodes[i] == nodes[1..][i - 1];
    }
  }
}
