/** The concrete syntax of the rule DSL: which JSON nodes are read as which expression, text by text. */
module Grammar {
  import opened Prelude
  import opened Json
  import opened Dsl
  import opened Evaluator
  import opened Expressions

  function Field(node: Json, name: string): Json {
    if node.Obj? && name in node.fields then node.fields[name] else Null
  }

  predicate Has(node: Json, name: string) {
    node.Obj? && name in node.fields
  }

  /** The node's kind, or its op when it has no kind, is one of the texts. */
  predicate Named(node: Json, texts: set<string>) {
    var name := if Has(node, "kind") then Field(node, "kind") else Field(node, "op");
    node.Obj? && name.Str? && name.s in texts
  }

  predicate Operates(node: Json, operator: string) {
    Field(node, "operator") == Str(operator)
  }

  function ComparatorText(c: Comparator): string {
    match c
    case Equal => "=="
    case Different => "!="
    case Above => ">"
    case AtLeast => ">="
    case Below => "<"
    case AtMost => "<="
  }

  function AggregatorText(a: Aggregator): string {
    match a
    case Count => "count"
    case Sum => "sum"
    case Least => "min"
    case Greatest => "max"
  }

  function QuantifierText(q: Quantifier): string {
    match q
    case AnyOf => "any"
    case AllOf => "all"
    case NoneOf => "none"
    case AtLeastOf(_) => "at_least"
  }

  /** A count is a whole number that is not negative; true and false count as one and zero. */
  predicate Counts(v: Json, wanted: real) {
    || (v == Num(wanted) && wanted >= 0.0 && wanted == wanted.Floor as real)
    || (v == Bool(true) && wanted == 1.0) || (v == Bool(false) && wanted == 0.0)
  }

  /** The node is written as the expression. */
  predicate Writes(node: Json, e: Expr)
    decreases node, 1
  {
    match e
    case Constant(value) =>
      (!node.Arr? && !node.Obj? && value == node) || (Named(node, {"literal"}) && Has(node, "value") && value == Field(node, "value"))
    case ListConstant(value, items) => node.Arr? && value == node && WritesAll(node.items, items)
    case FactsOf(pattern, subject, first) =>
      && Named(node, {"fact", "facts", "collection"}) && Field(node, "property") == Str(pattern)
      && subject == Field(node, "subject_id") && first == (Field(node, "kind") == Str("fact"))
    case RelationsOf(relationType, subject, target, first) =>
      && Named(node, {"relation", "relations"}) && Field(node, "relation_type") == Str(relationType)
      && subject == Field(node, "subject_id") && target == Field(node, "object_id")
      && first == (Field(node, "kind") == Str("relation"))
    case ContextAt(path) => Named(node, {"context"}) && Field(node, "path") == Str(path)
    case ApplicantAt(path) => Named(node, {"applicant"}) && Field(node, "path") == Str(path)
    case And(items) => Named(node, {"logical"}) && Operates(node, "and") && items != [] && WritesList(node, "args", items)
    case Or(items) => Named(node, {"logical"}) && Operates(node, "or") && items != [] && WritesList(node, "args", items)
    case Not(operand) => Named(node, {"logical"}) && Operates(node, "not") && WritesList(node, "args", [operand])
    case Comparison(comparator, left, right) =>
      && Named(node, {"comparison"}) && Operates(node, ComparatorText(comparator))
      && WritesChild(node, "left", left) && WritesChild(node, "right", right)
    case Present(operand, negated) =>
      && Named(node, {"exists", "not_exists"}) && negated == Named(node, {"not_exists"}) && WritesChild(node, "target", operand)
    case Among(left, right, negated) =>
      && Named(node, {"membership"}) && Operates(node, if negated then "not_in" else "in")
      && WritesChild(node, "left", left) && WritesChild(node, "right", right)
    case Aggregation(aggregator, operand) =>
      Named(node, {"aggregation"}) && Operates(node, AggregatorText(aggregator)) && WritesChild(node, "target", operand)
    case Quantified(quantifier, items) =>
      && Named(node, {"quantifier"}) && Operates(node, QuantifierText(quantifier)) && items != []
      && (quantifier.AtLeastOf? ==> Counts(Field(node, "count"), quantifier.wanted)) && WritesList(node, "items", items)
  }

  predicate WritesChild(node: Json, name: string, e: Expr)
    decreases node, 0
  {
    Has(node, name) && Writes(node.fields[name], e)
  }

  predicate WritesList(node: Json, name: string, items: seq<Expr>)
    decreases node, 0
  {
    Has(node, name) && node.fields[name].Arr? && WritesAll(node.fields[name].items, items)
  }

  predicate WritesAll(nodes: seq<Json>, items: seq<Expr>)
    decreases nodes, 0
  {
    |nodes| == |items| && forall i :: 0 <= i < |nodes| ==> Writes(nodes[i], items[i])
  }

  /** The forms of a node are told by its kind, text by text. */
  lemma FormsAreNamed(node: Json)
    requires node.Obj?
    ensures match FormOf(node.fields)
            case LiteralForm => Named(node, {"literal"})
            case FactForm => Named(node, {"fact", "facts", "collection"})
            case RelationForm => Named(node, {"relation", "relations"})
            case ContextForm => Named(node, {"context"})
            case ApplicantForm => Named(node, {"applicant"})
            case LogicalForm => Named(node, {"logical"})
            case ComparisonForm => Named(node, {"comparison"})
            case ExistsForm => Named(node, {"exists", "not_exists"})
            case MembershipForm => Named(node, {"membership"})
            case AggregationForm => Named(node, {"aggregation"})
            case QuantifierForm => Named(node, {"quantifier"})
            case UnknownForm =>
              !Named(node, {"literal", "fact", "facts", "collection", "relation", "relations", "context", "applicant", "logical",
                            "comparison", "exists", "not_exists", "membership", "aggregation", "quantifier"})
  {
  }

  /** A node reads as an expression exactly when it is written as that expression. */
  lemma {:induction false} ParseExactly(node: Json, e: Expr)
    ensures Parse(node) == Some(e) <==> Writes(node, e)
    decreases node, 2
  {
    if node.Arr? {
      if e.ListConstant? {
        ParseAllExactly(node.items, e.items);
      }
    } else if node.Obj? {
      FormsAreNamed(node);
      match FormOf(node.fields)
      case LogicalForm => LogicalExactly(node, e);
      case ComparisonForm => ComparisonExactly(node, e);
      case MembershipForm => MembershipExactly(node, e);
      case ExistsForm => PresentExactly(node, e);
      case AggregationForm => AggregationExactly(node, e);
      case QuantifierForm => QuantifierExactly(node, e);
      case _ => LeafExactly(node, e);
    }
  }

  lemma LeafExactly(node: Json, e: Expr)
    requires node.Obj? && IsLeaf(node.fields)
    ensures Parse(node) == Some(e) <==> Writes(node, e)
  {
    FormsAreNamed(node);
    match FormOf(node.fields)
    case FactForm => FactExactly(node, e);
    case RelationForm => RelationExactly(node, e);
    case _ => PlainLeafExactly(node, e);
  }

  lemma FactExactly(node: Json, e: Expr)
    requires node.Obj? && FormOf(node.fields) == FactForm && Named(node, {"fact", "facts", "collection"})
    ensures ParseLeaf(node.fields) == Some(e) <==> Writes(node, e)
  {
  }

  lemma RelationExactly(node: Json, e: Expr)
    requires node.Obj? && FormOf(node.fields) == RelationForm && Named(node, {"relation", "relations"})
    ensures ParseLeaf(node.fields) == Some(e) <==> Writes(node, e)
  {
  }

  lemma PlainLeafExactly(node: Json, e: Expr)
    requires node.Obj? && IsLeaf(node.fields) && FormOf(node.fields) !in {FactForm, RelationForm}
    ensures ParseLeaf(node.fields) == Some(e) <==> Writes(node, e)
  {
    FormsAreNamed(node);
  }

  lemma {:induction false} ParseAllExactly(nodes: seq<Json>, items: seq<Expr>)
    ensures ParseAll(nodes) == Some(items) <==> WritesAll(nodes, items)
    decreases nodes, 0
  {
    if nodes == [] {
    } else if items != [] {
      ParseExactly(nodes[0], items[0]);
      ParseAllExactly(nodes[1..], items[1..]);
      SplitsFirst(nodes, items);
      assert items == [items[0]] + items[1..];
    }
  }

  lemma SplitsFirst(nodes: seq<Json>, items: seq<Expr>)
    requires nodes != [] && items != []
    ensures WritesAll(nodes, items) <==> Writes(nodes[0], items[0]) && WritesAll(nodes[1..], items[1..])
  {
    if Writes(nodes[0], items[0]) && WritesAll(nodes[1..], items[1..]) {
      forall i | 0 <= i < |nodes| ensures Writes(nodes[i], items[i]) {
        assert i > 0 ==> Writes(nodes[1..][i - 1], items[1..][i - 1]);
      }
    }
    if WritesAll(nodes, items) {
      forall i | 0 <= i < |nodes[1..]| ensures Writes(nodes[1..][i], items[1..][i]) {
        assert Writes(nodes[i + 1], items[i + 1]);
      }
    }
  }

  lemma ChildExactly(node: Json, name: string, e: Expr)
    requires node.Obj?
    ensures ParseChild(node, name) == Some(e) <==> WritesChild(node, name, e)
    decreases node, 0
  {
    if name in node.fields {
      ParseExactly(node.fields[name], e);
    }
  }

  lemma ListExactly(node: Json, name: string, items: seq<Expr>)
    requires node.Obj?
    ensures ParseChildren(node, name) == Some(items) <==> WritesList(node, name, items)
    decreases node, 0
  {
    if name in node.fields && node.fields[name].Arr? {
      ParseAllExactly(node.fields[name].items, items);
    }
  }

  lemma LogicalExactly(node: Json, e: Expr)
    requires node.Obj? && FormOf(node.fields) == LogicalForm
    ensures Parse(node) == Some(e) <==> Writes(node, e)
    decreases node, 1
  {
    FormsAreNamed(node);
    var parsed := ParseChildren(node, "args");
    if parsed.Some? {
      ListExactly(node, "args", parsed.value);
    }
    if e.And? || e.Or? {
      ListExactly(node, "args", e.items);
    } else if e.Not? {
      ListExactly(node, "args", [e.operand]);
      assert parsed.Some? && |parsed.value| == 1 ==> parsed.value == [parsed.value[0]];
    }
  }

  lemma ComparisonExactly(node: Json, e: Expr)
    requires node.Obj? && FormOf(node.fields) == ComparisonForm
    ensures Parse(node) == Some(e) <==> Writes(node, e)
    decreases node, 1
  {
    FormsAreNamed(node);
    if e.Comparison? {
      ChildExactly(node, "left", e.left);
      ChildExactly(node, "right", e.right);
    }
  }

  lemma MembershipExactly(node: Json, e: Expr)
    requires node.Obj? && FormOf(node.fields) == MembershipForm
    ensures Parse(node) == Some(e) <==> Writes(node, e)
    decreases node, 1
  {
    FormsAreNamed(node);
    if e.Among? {
      ChildExactly(node, "left", e.left);
      ChildExactly(node, "right", e.right);
    }
  }

  lemma PresentExactly(node: Json, e: Expr)
    requires node.Obj? && FormOf(node.fields) == ExistsForm
    ensures Parse(node) == Some(e) <==> Writes(node, e)
    decreases node, 1
  {
    FormsAreNamed(node);
    if e.Present? {
      ChildExactly(node, "target", e.operand);
    }
  }

  lemma AggregationExactly(node: Json, e: Expr)
    requires node.Obj? && FormOf(node.fields) == AggregationForm
    ensures Parse(node) == Some(e) <==> Writes(node, e)
    decreases node, 1
  {
    FormsAreNamed(node);
    if e.Aggregation? {
      ChildExactly(node, "target", e.operand);
    }
  }

  lemma CountExactly(v: Json, wanted: real)
    ensures IsInteger(v) && AsNumber(v) == Some(wanted) && wanted >= 0.0 <==> Counts(v, wanted)
  {
  }

  lemma QuantifierExactly(node: Json, e: Expr)
    requires node.Obj? && FormOf(node.fields) == QuantifierForm
    ensures Parse(node) == Some(e) <==> Writes(node, e)
    decreases node, 1
  {
    FormsAreNamed(node);
    if e.Quantified? {
      ListExactly(node, "items", e.items);
      if e.quantifier.AtLeastOf? {
        CountExactly(Get(node.fields, "count"), e.quantifier.wanted);
      }
    }
  }
}
