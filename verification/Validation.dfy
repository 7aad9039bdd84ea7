/** The validators as they run: one traversal that appends every problem it meets to a shared list. */
module Validation {
  import opened Json
  import opened Dsl
  import opened Rules

  /** The list of problems a validation shares among its calls. */
  class ErrorList {
    var problems: seq<Problem>

    constructor ()
      ensures problems == []
    {
      problems := [];
    }

    method AppendIf(condition: bool, problem: Problem)
      modifies this
      ensures problems == old(problems) + When(condition, problem)
    {
      if condition {
        problems := problems + [problem];
      }
    }
  }

  /** _validate_node: appends exactly the problems of the node, in order. */
  method ValidateNode(node: Json, depth: nat, maxDepth: nat, errors: ErrorList)
    modifies errors
    ensures errors.problems == old(errors.problems) + Problems(node, depth, maxDepth)
    decreases node, 3
  {
    if depth > maxDepth {
      errors.AppendIf(true, TooDeep);
    } else if node.Arr? {
      ValidateAll(node.items, depth + 1, maxDepth, errors);
    } else if node.Obj? {
      ValidateObject(node, depth, maxDepth, errors);
    }
  }

  method ValidateAll(nodes: seq<Json>, depth: nat, maxDepth: nat, errors: ErrorList)
    modifies errors
    ensures errors.problems == old(errors.problems) + ProblemsInAll(nodes, depth, maxDepth)
    decreases nodes, 4
  {
    for i := 0 to |nodes|
      invariant errors.problems + ProblemsInAll(nodes[i..], depth, maxDepth)
             == old(errors.problems) + ProblemsInAll(nodes, depth, maxDepth)
    {
      ghost var before := errors.problems;
      ValidateNode(nodes[i], depth, maxDepth, errors);
      assert nodes[i..][0] == nodes[i] && nodes[i..][1..] == nodes[i + 1..];
      assert before + (Problems(nodes[i], depth, maxDepth) + ProblemsInAll(nodes[i + 1..], depth, maxDepth))
          == errors.problems + ProblemsInAll(nodes[i + 1..], depth, maxDepth);
    }
    assert nodes[|nodes|..] == [];
  }

  method ValidateObject(node: Json, depth: nat, maxDepth: nat, errors: ErrorList)
    requires node.Obj? && depth <= maxDepth
    modifies errors
    ensures errors.problems == old(errors.problems) + Problems(node, depth, maxDepth)
    decreases node, 2
  {
    if !KindOf(node.fields).Str? {
      errors.AppendIf(true, KindNotText);
      return;
    }
    match FormOf(node.fields)
    case LogicalForm => ValidateLogical(node, depth, maxDepth, errors);
    case ComparisonForm => ValidateBinary(node, ["==", "!=", ">", ">=", "<", "<="], depth, maxDepth, errors);
    case MembershipForm => ValidateBinary(node, ["in", "not_in"], depth, maxDepth, errors);
    case ExistsForm => ValidateRequiredChild(node, "target", depth, maxDepth, errors);
    case AggregationForm =>
      errors.AppendIf(!IsOneOf(Get(node.fields, "operator"), ["count", "sum", "min", "max"]), BadOperator);
      ValidateRequiredChild(node, "target", depth, maxDepth, errors);
    case QuantifierForm => ValidateQuantifier(node, depth, maxDepth, errors);
    case _ => ValidateLeaf(node.fields, errors);
  }

  method ValidateLeaf(fields: Document, errors: ErrorList)
    modifies errors
    ensures errors.problems == old(errors.problems) + LeafProblems(fields)
  {
    match FormOf(fields)
    case UnknownForm => errors.AppendIf(true, UnknownKind);
    case LiteralForm => errors.AppendIf("value" !in fields, MissingLiteralValue);
    case FactForm => errors.AppendIf(!Get(fields, "property").Str?, BadReference);
    case RelationForm => errors.AppendIf(!Get(fields, "relation_type").Str?, BadReference);
    case _ => errors.AppendIf(!Get(fields, "path").Str?, BadReference);
  }

  method ValidateLogical(node: Json, depth: nat, maxDepth: nat, errors: ErrorList)
    requires node.Obj?
    modifies errors
    ensures errors.problems == old(errors.problems) + LogicalProblems(node, depth, maxDepth)
    decreases node, 1
  {
    var operator := Get(node.fields, "operator");
    errors.AppendIf(!IsOneOf(operator, ["and", "or", "not"]), BadOperator);
    errors.AppendIf(BadLogicalArity(operator, Get(node.fields, "args")), BadArity);
    ValidateList(node, "args", depth, maxDepth, errors);
  }

  method ValidateBinary(node: Json, operators: seq<string>, depth: nat, maxDepth: nat, errors: ErrorList)
    requires node.Obj?
    modifies errors
    ensures errors.problems == old(errors.problems) + BinaryProblems(node, operators, depth, maxDepth)
    decreases node, 1
  {
    errors.AppendIf(!IsOneOf(Get(node.fields, "operator"), operators), BadOperator);
    ValidateRequiredChild(node, "left", depth, maxDepth, errors);
    ValidateRequiredChild(node, "right", depth, maxDepth, errors);
  }

  method ValidateQuantifier(node: Json, depth: nat, maxDepth: nat, errors: ErrorList)
    requires node.Obj?
    modifies errors
    ensures errors.problems == old(errors.problems) + QuantifierProblems(node, depth, maxDepth)
    decreases node, 1
  {
    var operator, items, count := Get(node.fields, "operator"), Get(node.fields, "items"), Get(node.fields, "count");
    var unknown, empty := !IsOneOf(operator, ["any", "all", "none", "at_least"]), !items.Arr? || items.items == [];
    var uncounted := operator == Str("at_least") && (!IsInteger(count) || (count.Num? && count.n < 0.0));
    errors.AppendIf(unknown, BadOperator);
    errors.AppendIf(empty, BadItems);
    errors.AppendIf(uncounted, BadCount);
    ValidateList(node, "items", depth, maxDepth, errors);
    FourParts(old(errors.problems), When(unknown, BadOperator), When(empty, BadItems), When(uncounted, BadCount),
              ProblemsInList(node, "items", depth, maxDepth));
  }

  lemma FourParts(before: seq<Problem>, a: seq<Problem>, b: seq<Problem>, c: seq<Problem>, d: seq<Problem>)
    ensures before + a + b + c + d == before + (a + b + c + d)
  {
  }

  method ValidateRequiredChild(node: Json, name: string, depth: nat, maxDepth: nat, errors: ErrorList)
    requires node.Obj?
    modifies errors
    ensures errors.problems == old(errors.problems) + ProblemsInChild(node, name, depth, maxDepth)
    decreases node, 0
  {
    if name !in node.fields {
      errors.AppendIf(true, MissingChild(name));
    } else {
      ValidateNode(node.fields[name], depth + 1, maxDepth, errors);
    }
  }

  method ValidateList(node: Json, name: string, depth: nat, maxDepth: nat, errors: ErrorList)
    requires node.Obj?
    modifies errors
    ensures errors.problems == old(errors.problems) + ProblemsInList(node, name, depth, maxDepth)
    decreases node, 0
  {
    if name in node.fields && node.fields[name].Arr? {
      ValidateAll(node.fields[name].items, depth + 1, maxDepth, errors);
    }
  }

  method IsValid(node: Json) returns (valid: bool)
    ensures valid == Valid(node)
  {
    var errors := new ErrorList();
    ValidateNode(node, 0, MAX_DEPTH, errors);
    valid := errors.problems == [];
  }

  /** validate_rule_payload: condition, exceptions, effects and logical key, in turn. */
  method ValidateRulePayload(rule: Rule) returns (valid: bool)
    ensures valid == ValidPayload(rule)
  {
    valid := IsValid(rule.condition);
    for i := 0 to |rule.exceptions|
      invariant valid == (Valid(rule.condition) && forall j :: 0 <= j < i ==> Valid(rule.exceptions[j]))
    {
      var ok := IsValid(rule.exceptions[i]);
      valid := valid && ok;
    }
    valid := valid && rule.effects != [];
    ghost var soFar := valid;
    for i := 0 to |rule.effects|
      invariant valid == (soFar && forall j :: 0 <= j < i ==> EffectProblems(rule.effects[j]) == [])
    {
      valid := valid && EffectProblems(rule.effects[i]) == [];
    }
    valid := valid && NotBlank(rule.logicalKey);
  }
}
