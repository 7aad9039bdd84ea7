/** A typed reading of the DSL: well-formed nodes as a syntax tree, and what each tree means on a data snapshot.
    The validator accepts exactly the nodes that read as a tree of bounded height, and the interpreter computes
    exactly the meaning of that tree. */
module Expressions {
  import opened Prelude
  import opened Json
  import opened Dsl
  import opened Evaluator
  import opened EvaluatorProofs
  import opened JsonOrder

  datatype Comparator = Equal | Different | Above | AtLeast | Below | AtMost

  datatype Aggregator = Count | Sum | Least | Greatest

  datatype Quantifier = AnyOf | AllOf | NoneOf | AtLeastOf(wanted: real)

  datatype Expr =
    | Constant(value: Json)
    | ListConstant(value: Json, items: seq<Expr>)
    | FactsOf(pattern: string, subject: Json, first: bool)
    | RelationsOf(relationType: string, subject: Json, target: Json, first: bool)
    | ContextAt(path: string)
    | ApplicantAt(path: string)
    | And(items: seq<Expr>)
    | Or(items: seq<Expr>)
    | Not(operand: Expr)
    | Comparison(comparator: Comparator, left: Expr, right: Expr)
    | Present(operand: Expr, negated: bool)
    | Among(left: Expr, right: Expr, negated: bool)
    | Aggregation(aggregator: Aggregator, operand: Expr)
    | Quantified(quantifier: Quantifier, items: seq<Expr>)

  function Parse(node: Json): Option<Expr>
    decreases node, 3
  {
    if node.Arr? then
      match ParseAll(node.items)
      case None => None
      case Some(items) => Some(ListConstant(node, items))
    else if !node.Obj? then Some(Constant(node))
    else
      match FormOf(node.fields)
      case LogicalForm => ParseLogical(node)
      case ComparisonForm => ParseComparison(node)
      case MembershipForm => ParseMembership(node)
      case ExistsForm =>
        (match ParseChild(node, "target")
         case None => None
         case Some(operand) => Some(Present(operand, KindOf(node.fields) != Str("exists"))))
      case AggregationForm => ParseAggregation(node)
      case QuantifierForm => ParseQuantifier(node)
      case _ => ParseLeaf(node.fields)
  }

  function ParseLeaf(fields: Document): Option<Expr>
    requires IsLeaf(fields)
  {
    match FormOf(fields)
    case UnknownForm => None
    case LiteralForm => if "value" in fields then Some(Constant(fields["value"])) else None
    case FactForm =>
      if !Get(fields, "property").Str? then None
      else Some(FactsOf(fields["property"].s, Get(fields, "subject_id"), Get(fields, "kind") == Str("fact")))
    case RelationForm =>
      if !Get(fields, "relation_type").Str? then None
      else Some(RelationsOf(fields["relation_type"].s, Get(fields, "subject_id"), Get(fields, "object_id"),
                            Get(fields, "kind") == Str("relation")))
    case ContextForm => if Get(fields, "path").Str? then Some(ContextAt(fields["path"].s)) else None
    case ApplicantForm => if Get(fields, "path").Str? then Some(ApplicantAt(fields["path"].s)) else None
  }

  function ParseChild(node: Json, name: string): Option<Expr>
    requires node.Obj?
    decreases node, 1
  {
    if name in node.fields then Parse(node.fields[name]) else None
  }

  function ParseChildren(node: Json, name: string): Option<seq<Expr>>
    requires node.Obj?
    decreases node, 1
  {
    if name in node.fields && node.fields[name].Arr? then ParseAll(node.fields[name].items) else None
  }

  function ParseAll(nodes: seq<Json>): (r: Option<seq<Expr>>)
    ensures r.Some? ==> |r.value| == |nodes|
    decreases nodes, 0
  {
    if nodes == [] then Some([])
    else
      match (Parse(nodes[0]), ParseAll(nodes[1..]))
      case (Some(first), Some(rest)) => Some([first] + rest)
      case _ => None
  }

  function LogicalOf(operator: Json, items: seq<Expr>): Option<Expr> {
    if operator == Str("and") && items != [] then Some(And(items))
    else if operator == Str("or") && items != [] then Some(Or(items))
    else if operator == Str("not") && |items| == 1 then Some(Not(items[0]))
    else None
  }

  function ParseLogical(node: Json): Option<Expr>
    requires node.Obj?
    decreases node, 2
  {
    match ParseChildren(node, "args")
    case None => None
    case Some(items) => LogicalOf(Get(node.fields, "operator"), items)
  }

  function ComparatorNamed(operator: Json): Option<Comparator> {
    if operator == Str("==") then Some(Equal)
    else if operator == Str("!=") then Some(Different)
    else if operator == Str(">") then Some(Above)
    else if operator == Str(">=") then Some(AtLeast)
    else if operator == Str("<") then Some(Below)
    else if operator == Str("<=") then Some(AtMost)
    else None
  }

  function ParseComparison(node: Json): Option<Expr>
    requires node.Obj?
    decreases node, 2
  {
    match (ComparatorNamed(Get(node.fields, "operator")), ParseChild(node, "left"), ParseChild(node, "right"))
    case (Some(comparator), Some(left), Some(right)) => Some(Comparison(comparator, left, right))
    case _ => None
  }

  function ParseMembership(node: Json): Option<Expr>
    requires node.Obj?
    decreases node, 2
  {
    var operator := Get(node.fields, "operator");
    match (ParseChild(node, "left"), ParseChild(node, "right"))
    case (Some(left), Some(right)) =>
      if operator == Str("in") then Some(Among(left, right, false))
      else if operator == Str("not_in") then Some(Among(left, right, true))
      else None
    case _ => None
  }

  function AggregatorNamed(operator: Json): Option<Aggregator> {
    if operator == Str("count") then Some(Count)
    else if operator == Str("sum") then Some(Sum)
    else if operator == Str("min") then Some(Least)
    else if operator == Str("max") then Some(Greatest)
    else None
  }

  function ParseAggregation(node: Json): Option<Expr>
    requires node.Obj?
    decreases node, 2
  {
    match (AggregatorNamed(Get(node.fields, "operator")), ParseChild(node, "target"))
    case (Some(aggregator), Some(operand)) => Some(Aggregation(aggregator, operand))
    case _ => None
  }

  function QuantifierNamed(operator: Json, count: Json): Option<Quantifier> {
    if operator == Str("any") then Some(AnyOf)
    else if operator == Str("all") then Some(AllOf)
    else if operator == Str("none") then Some(NoneOf)
    else if operator == Str("at_least") && IsInteger(count) && AsNumber(count).value >= 0.0 then
      Some(AtLeastOf(AsNumber(count).value))
    else None
  }

  function ParseQuantifier(node: Json): Option<Expr>
    requires node.Obj?
    decreases node, 2
  {
    match (QuantifierNamed(Get(node.fields, "operator"), Get(node.fields, "count")), ParseChildren(node, "items"))
    case (Some(quantifier), Some(items)) => if items == [] then None else Some(Quantified(quantifier, items))
    case _ => None
  }

  /** How many levels lie below the root. */
  function Height(e: Expr): nat
    decreases e, 1
  {
    match e
    case ListConstant(_, items) => HeightOfAll(items)
    case And(items) => HeightOfAll(items)
    case Or(items) => HeightOfAll(items)
    case Quantified(_, items) => HeightOfAll(items)
    case Not(operand) => 1 + Height(operand)
    case Present(operand, _) => 1 + Height(operand)
    case Aggregation(_, operand) => 1 + Height(operand)
    case Comparison(_, left, right) => 1 + Max(Height(left), Height(right))
    case Among(left, right, _) => 1 + Max(Height(left), Height(right))
    case _ => 0
  }

  function HeightOfAll(items: seq<Expr>): nat
    decreases items, 0
  {
    if items == [] then 0 else Max(1 + Height(items[0]), HeightOfAll(items[1..]))
  }

  /** A node without problems at a depth: it reads as a tree that fits below that depth. */
  predicate Fits(e: Option<Expr>, depth: nat, maxDepth: nat) {
    e.Some? && depth + Height(e.value) <= maxDepth
  }

  predicate AllFit(items: Option<seq<Expr>>, depth: nat, maxDepth: nat) {
    items.Some? && (items.value == [] || depth + HeightOfAll(items.value) <= maxDepth)
  }

  /** The validator is sound and complete for the typed reading and its depth bound. */
  lemma {:induction false} ValidatorExact(node: Json, depth: nat, maxDepth: nat)
    ensures Problems(node, depth, maxDepth) == [] <==> Fits(Parse(node), depth, maxDepth)
    decreases node, 3
  {
    if depth <= maxDepth {
      if node.Arr? {
        AllValidatorExact(node.items, depth, maxDepth);
      } else if node.Obj? && KindOf(node.fields).Str? {
        match FormOf(node.fields)
        case LogicalForm => LogicalValidatorExact(node, depth, maxDepth);
        case ComparisonForm => ComparisonValidatorExact(node, depth, maxDepth);
        case MembershipForm => MembershipValidatorExact(node, depth, maxDepth);
        case ExistsForm => ChildValidatorExact(node, "target", depth, maxDepth);
        case AggregationForm => AggregationValidatorExact(node, depth, maxDepth);
        case QuantifierForm => QuantifierValidatorExact(node, depth, maxDepth);
        case _ => LeafValidatorExact(node.fields);
      }
    }
  }

  lemma LeafValidatorExact(fields: Document)
    requires IsLeaf(fields)
    ensures LeafProblems(fields) == [] <==> ParseLeaf(fields).Some?
    ensures ParseLeaf(fields).Some? ==> Height(ParseLeaf(fields).value) == 0
  {
  }

  lemma ChildValidatorExact(node: Json, name: string, depth: nat, maxDepth: nat)
    requires node.Obj? && depth <= maxDepth
    ensures ProblemsInChild(node, name, depth, maxDepth) == [] <==> Fits(ParseChild(node, name), depth + 1, maxDepth)
    decreases node, 1
  {
    if name in node.fields {
      ValidatorExact(node.fields[name], depth + 1, maxDepth);
    }
  }

  lemma {:induction false} AllValidatorExact(nodes: seq<Json>, depth: nat, maxDepth: nat)
    requires depth <= maxDepth
    ensures ProblemsInAll(nodes, depth + 1, maxDepth) == [] <==> AllFit(ParseAll(nodes), depth, maxDepth)
    decreases nodes, 0
  {
    if nodes != [] {
      ValidatorExact(nodes[0], depth + 1, maxDepth);
      AllValidatorExact(nodes[1..], depth, maxDepth);
      var first, rest := Parse(nodes[0]), ParseAll(nodes[1..]);
      if first.Some? && rest.Some? {
        assert ParseAll(nodes) == Some([first.value] + rest.value);
        assert ([first.value] + rest.value)[1..] == rest.value;
        assert HeightOfAll([first.value] + rest.value) == Max(1 + Height(first.value), HeightOfAll(rest.value));
      }
    }
  }

  lemma ComparisonValidatorExact(node: Json, depth: nat, maxDepth: nat)
    requires node.Obj? && depth <= maxDepth
    ensures BinaryProblems(node, ["==", "!=", ">", ">=", "<", "<="], depth, maxDepth) == []
            <==> Fits(ParseComparison(node), depth, maxDepth)
    decreases node, 2
  {
    ChildValidatorExact(node, "left", depth, maxDepth);
    ChildValidatorExact(node, "right", depth, maxDepth);
  }

  lemma MembershipValidatorExact(node: Json, depth: nat, maxDepth: nat)
    requires node.Obj? && depth <= maxDepth
    ensures BinaryProblems(node, ["in", "not_in"], depth, maxDepth) == [] <==> Fits(ParseMembership(node), depth, maxDepth)
    decreases node, 2
  {
    ChildValidatorExact(node, "left", depth, maxDepth);
    ChildValidatorExact(node, "right", depth, maxDepth);
  }

  lemma AggregationValidatorExact(node: Json, depth: nat, maxDepth: nat)
    requires node.Obj? && depth <= maxDepth
    ensures When(!IsOneOf(Get(node.fields, "operator"), ["count", "sum", "min", "max"]), BadOperator)
            + ProblemsInChild(node, "target", depth, maxDepth) == []
            <==> Fits(ParseAggregation(node), depth, maxDepth)
    decreases node, 2
  {
    ChildValidatorExact(node, "target", depth, maxDepth);
  }

  lemma LogicalValidatorExact(node: Json, depth: nat, maxDepth: nat)
    requires node.Obj? && depth <= maxDepth
    ensures LogicalProblems(node, depth, maxDepth) == [] <==> Fits(ParseLogical(node), depth, maxDepth)
    decreases node, 2
  {
    var args := Get(node.fields, "args");
    if args.Arr? {
      var parsed := ParseAll(args.items);
      assert ParseChildren(node, "args") == parsed;
      assert ProblemsInList(node, "args", depth, maxDepth) == ProblemsInAll(args.items, depth + 1, maxDepth);
      AllValidatorExact(args.items, depth, maxDepth);
      if parsed.Some? && |parsed.value| == 1 {
        HeightOfOne(parsed.value);
      }
    }
  }

  lemma HeightOfOne(items: seq<Expr>)
    requires |items| == 1
    ensures HeightOfAll(items) == 1 + Height(items[0])
  {
    assert HeightOfAll(items[1..]) == 0;
  }

  lemma QuantifierValidatorExact(node: Json, depth: nat, maxDepth: nat)
    requires node.Obj? && depth <= maxDepth
    ensures QuantifierProblems(node, depth, maxDepth) == [] <==> Fits(ParseQuantifier(node), depth, maxDepth)
    decreases node, 2
  {
    var items := Get(node.fields, "items");
    if items.Arr? {
      assert ParseChildren(node, "items") == ParseAll(items.items);
      assert ProblemsInList(node, "items", depth, maxDepth) == ProblemsInAll(items.items, depth + 1, maxDepth);
      AllValidatorExact(items.items, depth, maxDepth);
    }
  }

  /** A selection reference picks the rows that pass every filter, in their order. */
  function FactRows(facts: seq<Fact>, pattern: string, subject: Json): seq<Fact> {
    Filter((f: Fact) => MatchesPattern(f.property, pattern) && Selected(subject, f.subject), facts)
  }

  function RelationRows(relations: seq<Relation>, relationType: string, subject: Json, target: Json): seq<Relation> {
    Filter((r: Relation) => r.relationType == relationType && Selected(subject, r.subject) && Selected(target, r.target),
           relations)
  }

  predicate Less(a: Json, b: Json) {
    Order(a, b).Some? && Order(a, b).value < 0
  }

  /** What a comparator says of two values; None for values Python cannot order. A comparison with null is never an
      ordering. */
  function Compared(comparator: Comparator, left: Json, right: Json): Option<bool> {
    if comparator == Equal then Some(left == right)
    else if comparator == Different then Some(left != right)
    else if left == Null || right == Null then Some(false)
    else if Order(left, right).None? then None
    else if comparator == Above then Some(Less(right, left))
    else if comparator == AtLeast then Some(!Less(left, right))
    else if comparator == Below then Some(Less(left, right))
    else Some(!Less(right, left))
  }

  /** The values an aggregation ranges over. */
  function Collected(v: Json): seq<Json> {
    if v.Arr? then v.items else if v == Null then [] else [v]
  }

  predicate AllNumbers(values: seq<Json>) {
    forall i :: 0 <= i < |values| ==> AsNumber(values[i]).Some?
  }

  /** The sum of numbers, taken from the left. */
  function SumOf(values: seq<Json>): real
    requires AllNumbers(values)
  {
    if values == [] then 0.0
    else SumOf(values[..|values| - 1]) + AsNumber(values[|values| - 1]).value
  }

  /** The leftmost value that no other one precedes (or, for a maximum, follows); None when some value cannot be ordered
      with the best one before it. */
  function Best(values: seq<Json>, least: bool): Option<Json>
    requires values != []
  {
    var last, n := values[|values| - 1], |values| - 1;
    if n == 0 then Some(last)
    else
      match Best(values[..n], least)
      case None => None
      case Some(best) =>
        if Order(last, best).None? then None
        else Some(if (if least then Less(last, best) else Less(best, last)) then last else best)
  }

  function Aggregated(aggregator: Aggregator, values: seq<Json>): Option<Json> {
    match aggregator
    case Count => Some(Num(|values| as real))
    case Sum => if values == [] then Some(Null) else if AllNumbers(values) then Some(Num(SumOf(values))) else None
    case Least => if values == [] then Some(Null) else Best(values, true)
    case Greatest => if values == [] then Some(Null) else Best(values, false)
  }

  predicate AllDefined(items: seq<Expr>, data: Data)
    decreases items, 0
  {
    forall i :: 0 <= i < |items| ==> Meaning(items[i], data).Some?
  }

  /** The items that hold, by position. */
  function Holding(items: seq<Expr>, data: Data): set<int>
    requires AllDefined(items, data)
    decreases items, 1
  {
    set i | 0 <= i < |items| && Truthy(Meaning(items[i], data).value)
  }

  predicate Covers(holding: set<int>, count: nat) {
    forall i :: 0 <= i < count ==> i in holding
  }

  predicate QuantifierHolds(quantifier: Quantifier, holding: set<int>, count: nat) {
    match quantifier
    case AnyOf => holding != {}
    case AllOf => Covers(holding, count)
    case NoneOf => holding == {}
    case AtLeastOf(wanted) => |holding| as real >= wanted
  }

  /** The value of an expression; None where some part of it cannot be compared or aggregated. */
  function Meaning(e: Expr, data: Data): Option<Json>
    decreases e, 1
  {
    match e
    case Constant(value) => Some(value)
    case ListConstant(value, _) => Some(value)
    case FactsOf(pattern, subject, first) =>
      var values := Map((f: Fact) => f.value, FactRows(data.facts, pattern, subject));
      Some(if !first then Arr(values) else if values == [] then Null else values[0])
    case RelationsOf(relationType, subject, target, first) =>
      var rows := Map(RelationRow, RelationRows(data.relations, relationType, subject, target));
      Some(if first && rows != [] then rows[0] else Arr(rows))
    case ContextAt(path) => Some(GetPath(data.context, path))
    case ApplicantAt(path) => Some(GetPath(data.applicant, path))
    case And(items) => if AllDefined(items, data) then Some(Bool(Covers(Holding(items, data), |items|))) else None
    case Or(items) => if AllDefined(items, data) then Some(Bool(Holding(items, data) != {})) else None
    case Not(operand) =>
      (match Meaning(operand, data) case None => None case Some(v) => Some(Bool(!Truthy(v))))
    case Comparison(comparator, left, right) =>
      (match (Meaning(left, data), Meaning(right, data))
       case (Some(l), Some(r)) =>
         (match Compared(comparator, l, r) case None => None case Some(b) => Some(Bool(b)))
       case _ => None)
    case Present(operand, negated) =>
      (match Meaning(operand, data)
       case None => None
       case Some(v) => Some(Bool((v == Null || v == Arr([])) == negated)))
    case Among(left, right, negated) =>
      (match (Meaning(left, data), Meaning(right, data))
       case (Some(l), Some(r)) => Some(Bool((if r.Arr? then l in r.items else l == r) != negated))
       case _ => None)
    case Aggregation(aggregator, operand) =>
      (match Meaning(operand, data) case None => None case Some(v) => Aggregated(aggregator, Collected(v)))
    case Quantified(quantifier, items) =>
      if AllDefined(items, data) then Some(Bool(QuantifierHolds(quantifier, Holding(items, data), |items|)))
      else None
  }

  /** An outcome of the interpreter that says the same as a meaning. */
  predicate Computes(r: Result<Trace>, m: Option<Json>) {
    match r
    case Ok(trace) => m == Some(trace.value)
    case Err(e) => m == None && e == TypeMismatch
  }

  predicate ComputesAll(r: Result<seq<Trace>>, items: seq<Expr>, data: Data) {
    match r
    case Ok(traces) =>
      |traces| == |items| && forall i :: 0 <= i < |items| ==> Meaning(items[i], data) == Some(traces[i].value)
    case Err(e) => !AllDefined(items, data) && e == TypeMismatch
  }

  /** The interpreter computes the meaning of every node that reads as an expression. */
  lemma {:induction false} InterpreterExact(node: Json, data: Data)
    requires Parse(node).Some?
    ensures Computes(Eval(node, data), Meaning(Parse(node).value, data))
    decreases node, 3
  {
    if node.Obj? {
      match FormOf(node.fields)
      case LogicalForm => LogicalExact(node, data);
      case ComparisonForm => ComparisonExact(node, data);
      case MembershipForm => MembershipExact(node, data);
      case ExistsForm => PresentExact(node, data);
      case AggregationForm => AggregationExact(node, data);
      case QuantifierForm => QuantifierExact(node, data);
      case _ => LeafExact(node.fields, data);
    }
  }

  lemma LeafExact(fields: Document, data: Data)
    requires IsLeaf(fields) && ParseLeaf(fields).Some?
    ensures Computes(Leaf(fields, data), Meaning(ParseLeaf(fields).value, data))
  {
    var subject, target := Get(fields, "subject_id"), Get(fields, "object_id");
    if FormOf(fields) == FactForm {
      var p := fields["property"].s;
      FilterTwice((f: Fact) => Selected(subject, f.subject), (f: Fact) => MatchesPattern(f.property, p),
                  (f: Fact) => MatchesPattern(f.property, p) && Selected(subject, f.subject), data.facts);
      assert Filter((f: Fact) => Selected(subject, f.subject), FactsMatching(data.facts, p)) == FactRows(data.facts, p, subject);
    } else if FormOf(fields) == RelationForm {
      var t := fields["relation_type"].s;
      FilterTwice((r: Relation) => Selected(subject, r.subject) && Selected(target, r.target),
                  (r: Relation) => r.relationType == t,
                  (r: Relation) => r.relationType == t && Selected(subject, r.subject) && Selected(target, r.target),
                  data.relations);
      assert Filter((r: Relation) => Selected(subject, r.subject) && Selected(target, r.target),
                    RelationsOfType(data.relations, t)) == RelationRows(data.relations, t, subject, target);
    }
  }

  /** Evaluating operands one by one computes the meanings of the expressions they read as. */
  lemma {:induction false} AllExact(nodes: seq<Json>, parent: Json, data: Data)
    requires forall i :: 0 <= i < |nodes| ==> nodes[i] < parent
    requires ParseAll(nodes).Some?
    ensures ComputesAll(EvalAll(AsOperands(nodes), parent, data), ParseAll(nodes).value, data)
    decreases parent, 0, |nodes|
  {
    if nodes != [] {
      var items, operands := ParseAll(nodes).value, AsOperands(nodes);
      InterpreterExact(nodes[0], data);
      AllExact(nodes[1..], parent, data);
      assert operands[1..] == AsOperands(nodes[1..]);
      assert items == [Parse(nodes[0]).value] + ParseAll(nodes[1..]).value;
      Prepended(Eval(nodes[0], data), EvalAll(operands[1..], parent, data), Parse(nodes[0]).value, ParseAll(nodes[1..]).value, data);
    }
  }

  /** One result, then the results of the others, unless one of them fails. */
  function Prepend(first: Result<Trace>, rest: Result<seq<Trace>>): Result<seq<Trace>> {
    if first.Err? then Err(first.error) else if rest.Err? then rest else Ok([first.value] + rest.value)
  }

  lemma Prepended(first: Result<Trace>, rest: Result<seq<Trace>>, item: Expr, items: seq<Expr>, data: Data)
    requires Computes(first, Meaning(item, data)) && ComputesAll(rest, items, data)
    ensures ComputesAll(Prepend(first, rest), [item] + items, data)
  {
    var all := [item] + items;
    if first.Err? {
      assert all[0] == item;
    } else if rest.Err? {
      var i :| 0 <= i < |items| && Meaning(items[i], data).None?;
      assert all[i + 1] == items[i];
    }
  }

  function AsOperands(nodes: seq<Json>): (r: seq<Option<Json>>)
    ensures |r| == |nodes| && forall i :: 0 <= i < |nodes| ==> r[i] == Some(nodes[i])
  {
    seq(|nodes|, i requires 0 <= i < |nodes| => Some(nodes[i]))
  }

  /** The truth values a list node folds say which items hold. */
  lemma TruthsAreHolding(traces: seq<Trace>, items: seq<Expr>, data: Data)
    requires ComputesAll(Ok(traces), items, data)
    ensures AllDefined(items, data)
    ensures (true in TruthValues(traces)) == (Holding(items, data) != {})
    ensures (false in TruthValues(traces)) != Covers(Holding(items, data), |items|)
    ensures CountTrue(TruthValues(traces)) == |Holding(items, data)|
  {
    var truths, holding := TruthValues(traces), Holding(items, data);
    assert forall i :: 0 <= i < |items| ==> (truths[i] <==> i in holding);
    assert true in truths <==> exists i :: i in holding;
    CountTrueIsSize(truths, holding);
  }

  lemma {:induction false} CountTrueIsSize(truths: seq<bool>, holding: set<int>)
    requires holding == set i | 0 <= i < |truths| && truths[i]
    ensures CountTrue(truths) == |holding|
  {
    if truths != [] {
      var last := |truths| - 1;
      var before := set i | 0 <= i < last && truths[i];
      assert before == set i | 0 <= i < |truths[..last]| && truths[..last][i];
      CountTrueIsSize(truths[..last], before);
      CountTrueAppend(truths[..last], truths[last]);
      assert truths == truths[..last] + [truths[last]];
      assert holding == if truths[last] then before + {last} else before;
    }
  }

  lemma {:induction false} CountTrueAppend(truths: seq<bool>, last: bool)
    ensures CountTrue(truths + [last]) == CountTrue(truths) + if last then 1 else 0
  {
    if truths == [] {
      assert truths + [last] == [last];
      assert CountTrue([last][1..]) == 0;
    } else {
      assert (truths + [last])[1..] == truths[1..] + [last];
      CountTrueAppend(truths[1..], last);
    }
  }

  lemma LogicalExact(node: Json, data: Data)
    requires node.Obj? && FormOf(node.fields) == LogicalForm && ParseLogical(node).Some?
    ensures Computes(Eval(node, data), Meaning(ParseLogical(node).value, data))
    decreases node, 1
  {
    var nodes := node.fields["args"].items;
    var items := ParseAll(nodes).value;
    assert ParseChildren(node, "args") == ParseAll(nodes);
    assert Operands(node) == AsOperands(nodes);
    AllExact(nodes, node, data);
    var all := EvalAll(AsOperands(nodes), node, data);
    LogicalFold(Get(node.fields, "operator"), all, items, data);
  }

  lemma AndFold(traces: seq<Trace>, items: seq<Expr>, data: Data)
    requires ComputesAll(Ok(traces), items, data)
    ensures Computes(Logical(Str("and"), traces), Meaning(And(items), data))
  {
    TruthsAreHolding(traces, items, data);
  }

  lemma OrFold(traces: seq<Trace>, items: seq<Expr>, data: Data)
    requires ComputesAll(Ok(traces), items, data)
    ensures Computes(Logical(Str("or"), traces), Meaning(Or(items), data))
  {
    TruthsAreHolding(traces, items, data);
  }

  lemma NotFold(traces: seq<Trace>, items: seq<Expr>, data: Data)
    requires ComputesAll(Ok(traces), items, data) && |items| == 1
    ensures Computes(Logical(Str("not"), traces), Meaning(Not(items[0]), data))
  {
    assert TruthValues(traces)[0] == Truthy(traces[0].value);
  }

  /** An operand without a meaning leaves the fold without one. */
  lemma LogicalUndefined(operator: Json, items: seq<Expr>, data: Data)
    requires LogicalOf(operator, items).Some? && !AllDefined(items, data)
    ensures Meaning(LogicalOf(operator, items).value, data) == None
  {
  }

  lemma LogicalFold(operator: Json, all: Result<seq<Trace>>, items: seq<Expr>, data: Data)
    requires LogicalOf(operator, items).Some? && ComputesAll(all, items, data)
    ensures Computes(if all.Ok? then Logical(operator, all.value) else Err(all.error),
                     Meaning(LogicalOf(operator, items).value, data))
  {
    if all.Err? {
      LogicalUndefined(operator, items, data);
    } else if operator == Str("and") {
      AndFold(all.value, items, data);
    } else if operator == Str("or") {
      OrFold(all.value, items, data);
    } else {
      NotFold(all.value, items, data);
    }
  }

  lemma QuantifierExact(node: Json, data: Data)
    requires node.Obj? && FormOf(node.fields) == QuantifierForm && ParseQuantifier(node).Some?
    ensures Computes(Eval(node, data), Meaning(ParseQuantifier(node).value, data))
    decreases node, 1
  {
    var nodes := node.fields["items"].items;
    var items := ParseAll(nodes).value;
    assert ParseChildren(node, "items") == ParseAll(nodes);
    assert Operands(node) == AsOperands(nodes);
    AllExact(nodes, node, data);
    var all := EvalAll(AsOperands(nodes), node, data);
    if all.Ok? {
      QuantifierFold(Get(node.fields, "operator"), Get(node.fields, "count"), all.value, items, data);
    }
  }

  lemma QuantifierFold(operator: Json, count: Json, traces: seq<Trace>, items: seq<Expr>, data: Data)
    requires QuantifierNamed(operator, count).Some? && ComputesAll(Ok(traces), items, data)
    ensures AllDefined(items, data)
    ensures Quantify(operator, TruthValues(traces), count)
         == Ok(QuantifierHolds(QuantifierNamed(operator, count).value, Holding(items, data), |items|))
  {
    TruthsAreHolding(traces, items, data);
  }

  lemma ParseOne(node: Json)
    requires Parse(node).Some?
    ensures ParseAll([node]) == Some([Parse(node).value])
  {
    assert ParseAll([node][1..]) == Some([]);
    assert [Parse(node).value] + [] == [Parse(node).value];
  }

  lemma BinaryExact(node: Json, data: Data)
    requires node.Obj? && FormOf(node.fields) in {ComparisonForm, MembershipForm}
    requires ParseChild(node, "left").Some? && ParseChild(node, "right").Some?
    ensures ComputesAll(EvalAll(Operands(node), node, data),
                        [ParseChild(node, "left").value, ParseChild(node, "right").value], data)
    decreases node, 1
  {
    var left, right := node.fields["left"], node.fields["right"];
    assert Operands(node) == AsOperands([left, right]);
    assert ParseChild(node, "left") == Parse(left) && ParseChild(node, "right") == Parse(right);
    ParseOne(right);
    assert [left, right][1..] == [right];
    assert [Parse(left).value] + [Parse(right).value] == [Parse(left).value, Parse(right).value];
    assert ParseAll([left, right]) == Some([Parse(left).value, Parse(right).value]);
    AllExact([left, right], node, data);
  }

  lemma UnaryExact(node: Json, data: Data)
    requires node.Obj? && FormOf(node.fields) in {ExistsForm, AggregationForm}
    requires ParseChild(node, "target").Some?
    ensures ComputesAll(EvalAll(Operands(node), node, data), [ParseChild(node, "target").value], data)
    decreases node, 1
  {
    var target := node.fields["target"];
    assert Operands(node) == AsOperands([target]);
    assert ParseChild(node, "target") == Parse(target);
    ParseOne(target);
    AllExact([target], node, data);
  }

  lemma ComparisonExact(node: Json, data: Data)
    requires node.Obj? && FormOf(node.fields) == ComparisonForm && ParseComparison(node).Some?
    ensures Computes(Eval(node, data), Meaning(ParseComparison(node).value, data))
    decreases node, 2
  {
    BinaryExact(node, data);
    var all, sides := EvalAll(Operands(node), node, data), [ParseChild(node, "left").value, ParseChild(node, "right").value];
    if all.Ok? {
      assert Meaning(sides[0], data) == Some(all.value[0].value) && Meaning(sides[1], data) == Some(all.value[1].value);
      ComparedTraces(node, all.value, data);
    } else {
      assert sides[0] == ParseChild(node, "left").value && sides[1] == ParseChild(node, "right").value;
    }
  }

  lemma ComparedTraces(node: Json, traces: seq<Trace>, data: Data)
    requires node.Obj? && FormOf(node.fields) == ComparisonForm && ParseComparison(node).Some? && |traces| == 2
    requires Meaning(ParseChild(node, "left").value, data) == Some(traces[0].value)
    requires Meaning(ParseChild(node, "right").value, data) == Some(traces[1].value)
    ensures Computes(Combine(node.fields, traces), Meaning(ParseComparison(node).value, data))
  {
    ComparatorExact(node.fields["operator"], traces[0].value, traces[1].value);
  }

  lemma EqualityExact(operator: Json, left: Json, right: Json)
    requires operator == Str("==") || operator == Str("!=")
    ensures Compare(left, right, operator) == Ok((left == right) == (operator == Str("==")))
  {
  }

  lemma NullNeverOrdered(operator: Json, left: Json, right: Json)
    requires IsOneOf(operator, [">", ">=", "<", "<="]) && (left == Null || right == Null)
    ensures Compare(left, right, operator) == Ok(false)
  {
  }

  lemma OrderingExact(operator: Json, left: Json, right: Json)
    requires IsOneOf(operator, [">", ">=", "<", "<="]) && left != Null && right != Null
    ensures match Order(left, right)
            case None => Compare(left, right, operator) == Err(TypeMismatch)
            case Some(c) =>
              Compare(left, right, operator) == Ok(if operator == Str(">") then c > 0 else if operator == Str(">=") then c >= 0
                                                   else if operator == Str("<") then c < 0 else c <= 0)
  {
  }

  /** Every comparison operator is equality, its negation, or a statement about one strict order. */
  lemma ComparatorExact(operator: Json, left: Json, right: Json)
    requires ComparatorNamed(operator).Some?
    ensures match Compared(ComparatorNamed(operator).value, left, right)
            case Some(b) => Compare(left, right, operator) == Ok(b)
            case None => Compare(left, right, operator) == Err(TypeMismatch)
  {
    if operator == Str("==") || operator == Str("!=") {
      EqualityExact(operator, left, right);
    } else if left == Null || right == Null {
      NullNeverOrdered(operator, left, right);
    } else {
      OrderingExact(operator, left, right);
      OrderAntisymmetric(left, right);
    }
  }

  lemma MembershipExact(node: Json, data: Data)
    requires node.Obj? && FormOf(node.fields) == MembershipForm && ParseMembership(node).Some?
    ensures Computes(Eval(node, data), Meaning(ParseMembership(node).value, data))
    decreases node, 2
  {
    BinaryExact(node, data);
  }

  lemma PresentExact(node: Json, data: Data)
    requires node.Obj? && FormOf(node.fields) == ExistsForm && ParseChild(node, "target").Some?
    ensures Computes(Eval(node, data),
                     Meaning(Present(ParseChild(node, "target").value, KindOf(node.fields) != Str("exists")), data))
    decreases node, 2
  {
    UnaryExact(node, data);
  }

  lemma AggregationExact(node: Json, data: Data)
    requires node.Obj? && FormOf(node.fields) == AggregationForm && ParseAggregation(node).Some?
    ensures Computes(Eval(node, data), Meaning(ParseAggregation(node).value, data))
    decreases node, 2
  {
    UnaryExact(node, data);
    var all := EvalAll(Operands(node), node, data);
    if all.Ok? {
      AggregatorExact(node.fields["operator"], Collected(all.value[0].value));
    }
  }

  lemma {:induction false} TotalIsSum(values: seq<Json>)
    ensures Total(values) == if AllNumbers(values) then Ok(SumOf(values)) else Err(TypeMismatch)
  {
    if values != [] {
      var front, last := values[..|values| - 1], values[|values| - 1];
      TotalIsSum(front);
      TotalWithout(values, |values| - 1);
      assert front + values[|values|..] == front;
      assert AllNumbers(values) <==> AllNumbers(front) && AsNumber(last).Some?;
    }
  }

  /** A scan continued by one value. */
  lemma {:induction false} ExtremeAppend(best: Json, values: seq<Json>, last: Json, sign: int)
    ensures Extreme(best, values + [last], sign)
         == match Extreme(best, values, sign)
            case Err(e) => Err(e)
            case Ok(v) => Extreme(v, [last], sign)
    decreases |values|
  {
    if values == [] {
      assert values + [last] == [last];
    } else {
      assert (values + [last])[1..] == values[1..] + [last];
      if Order(values[0], best).Some? {
        ExtremeAppend(if Order(values[0], best).value * sign > 0 then values[0] else best, values[1..], last, sign);
      }
    }
  }

  lemma ExtremeOfOne(best: Json, last: Json, least: bool)
    ensures Extreme(best, [last], if least then -1 else 1)
         == if Order(last, best).None? then Err(TypeMismatch)
            else Ok(if (if least then Less(last, best) else Less(best, last)) then last else best)
  {
    OrderAntisymmetric(last, best);
    assert [last][1..] == [];
  }

  lemma {:induction false} ExtremeIsBest(values: seq<Json>, least: bool)
    requires values != []
    ensures Extreme(values[0], values[1..], if least then -1 else 1)
         == match Best(values, least) case Some(v) => Ok(v) case None => Err(TypeMismatch)
    decreases |values|
  {
    var n := |values| - 1;
    if n > 0 {
      var front, last := values[..n], values[n];
      ExtremeIsBest(front, least);
      assert values[1..] == front[1..] + [last];
      ExtremeAppend(front[0], front[1..], last, if least then -1 else 1);
      if Best(front, least).Some? {
        ExtremeOfOne(Best(front, least).value, last, least);
      }
    }
  }

  /** Each aggregation operator computes its aggregate or reports incompatible values. */
  lemma AggregatorExact(operator: Json, values: seq<Json>)
    requires AggregatorNamed(operator).Some?
    ensures match Aggregated(AggregatorNamed(operator).value, values)
            case Some(v) => Aggregate(operator, values) == Ok(v)
            case None => Aggregate(operator, values) == Err(TypeMismatch)
  {
    TotalIsSum(values);
    if values != [] {
      ExtremeIsBest(values, true);
      ExtremeIsBest(values, false);
    }
  }

  /** Evaluating a node answers its meaning when it reads as an expression no deeper than the bound, and rejects it
      otherwise. */
  lemma EvaluateExact(node: Json, data: Data)
    ensures if Parse(node).Some? && Height(Parse(node).value) <= MAX_DEPTH
            then Computes(Evaluate(node, data), Meaning(Parse(node).value, data))
            else Evaluate(node, data) == Err(InvalidDsl)
  {
    ValidatorExact(node, 0, MAX_DEPTH);
    if Parse(node).Some? {
      InterpreterExact(node, data);
    }
  }
}
