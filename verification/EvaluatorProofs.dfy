/** What the interpreter guarantees: its recorded selectors are exactly what it reads, any data that agrees on
    them gives the same outcome, and a validated node never gets stuck. */
module EvaluatorProofs {
  import opened Prelude
  import opened Json
  import opened Dsl
  import opened Graph
  import opened Evaluator

  /** The selectors a node mentions anywhere in an evaluated position. */
  function References(node: Json): set<Node>
    decreases node, 1
  {
    if !node.Obj? then {}
    else if IsLeaf(node.fields) then
      match FormOf(node.fields)
      case FactForm => TextReference(node.fields, "property", FactProperty)
      case RelationForm => TextReference(node.fields, "relation_type", RelationType)
      case ContextForm => TextReference(node.fields, "path", ContextPath)
      case ApplicantForm => TextReference(node.fields, "path", ApplicantPath)
      case _ => {}
    else ReferencesInAll(Operands(node), node)
  }

  function TextReference(fields: Document, name: string, kind: Kind): set<Node> {
    if name in fields && fields[name].Str? then {Node(kind, fields[name].s)} else {}
  }

  function ReferencesInAll(operands: seq<Option<Json>>, ghost parent: Json): set<Node>
    requires forall i :: 0 <= i < |operands| && operands[i].Some? ==> operands[i].value < parent
    decreases parent, 0, |operands|
  {
    if operands == [] then {}
    else (if operands[0].Some? then References(operands[0].value) else {}) + ReferencesInAll(operands[1..], parent)
  }

  /** Two data sets give the same answer to one selector. */
  predicate AgreesOn(n: Node, a: Data, b: Data) {
    match n.kind
    case FactProperty => FactsMatching(a.facts, n.id) == FactsMatching(b.facts, n.id)
    case RelationType => RelationsOfType(a.relations, n.id) == RelationsOfType(b.relations, n.id)
    case ContextPath => GetPath(a.context, n.id) == GetPath(b.context, n.id)
    case ApplicantPath => GetPath(a.applicant, n.id) == GetPath(b.applicant, n.id)
    case _ => true
  }

  predicate Agrees(selectors: set<Node>, a: Data, b: Data) {
    forall n :: n in selectors ==> AgreesOn(n, a, b)
  }

  /** Frame: data that agrees on the selectors a node mentions gives the same outcome, errors included. */
  lemma {:induction false} EvalFrame(node: Json, a: Data, b: Data)
    requires Agrees(References(node), a, b)
    ensures Eval(node, a) == Eval(node, b)
    decreases node, 1
  {
    if node.Obj? {
      var f := node.fields;
      if !IsLeaf(f) {
        EvalAllFrame(Operands(node), node, a, b);
      } else if FormOf(f) == FactForm && "property" in f && f["property"].Str? {
        assert AgreesOn(Node(FactProperty, f["property"].s), a, b);
      } else if FormOf(f) == RelationForm && "relation_type" in f && f["relation_type"].Str? {
        assert AgreesOn(Node(RelationType, f["relation_type"].s), a, b);
      } else if FormOf(f) == ContextForm && "path" in f && f["path"].Str? {
        assert AgreesOn(Node(ContextPath, f["path"].s), a, b);
      } else if FormOf(f) == ApplicantForm && "path" in f && f["path"].Str? {
        assert AgreesOn(Node(ApplicantPath, f["path"].s), a, b);
      }
    }
  }

  lemma {:induction false} EvalAllFrame(operands: seq<Option<Json>>, parent: Json, a: Data, b: Data)
    requires forall i :: 0 <= i < |operands| && operands[i].Some? ==> operands[i].value < parent
    requires Agrees(ReferencesInAll(operands, parent), a, b)
    ensures EvalAll(operands, parent, a) == EvalAll(operands, parent, b)
    decreases parent, 0, |operands|
  {
    if operands != [] && operands[0].Some? {
      EvalFrame(operands[0].value, a, b);
      EvalAllFrame(operands[1..], parent, a, b);
    }
  }

  predicate IsSelector(n: Node) {
    n.kind != FactNode && n.kind != RelationNode
  }

  function Selectors(deps: set<Node>): set<Node> {
    set n | n in deps && IsSelector(n)
  }

  /** A recorded row is a row of the data that one of the recorded selectors picks. */
  predicate RowIsSelected(n: Node, deps: set<Node>, data: Data) {
    && (n.kind == FactNode ==>
          exists f, p :: f in data.facts && f.id == n.id && p in deps && p.kind == FactProperty
                         && MatchesPattern(f.property, p.id))
    && (n.kind == RelationNode ==>
          exists r :: r in data.relations && r.id == n.id && Node(RelationType, r.relationType) in deps)
  }

  /** A successful evaluation records exactly the selectors its node mentions, and rows they pick. */
  lemma {:induction false} DependenciesExact(node: Json, data: Data)
    requires Eval(node, data).Ok?
    ensures Selectors(Eval(node, data).value.deps) == References(node)
    ensures forall n :: n in Eval(node, data).value.deps ==> RowIsSelected(n, Eval(node, data).value.deps, data)
    decreases node, 1
  {
    if node.Obj? {
      if IsLeaf(node.fields) {
        LeafDependencies(node.fields, data);
      } else {
        EvalAllDependencies(Operands(node), node, data);
        CombineKeepsDependencies(node.fields, EvalAll(Operands(node), node, data).value);
      }
    }
  }

  lemma LeafDependencies(fields: Document, data: Data)
    requires IsLeaf(fields) && Leaf(fields, data).Ok?
    ensures Selectors(Leaf(fields, data).value.deps) == References(Obj(fields))
    ensures forall n :: n in Leaf(fields, data).value.deps ==> RowIsSelected(n, Leaf(fields, data).value.deps, data)
  {
    var deps := Leaf(fields, data).value.deps;
    if FormOf(fields) == FactForm {
      var p := fields["property"].s;
      var keep := (f: Fact) => Selected(Get(fields, "subject_id"), f.subject);
      FilterMembers((f: Fact) => MatchesPattern(f.property, p), data.facts);
      FilterMembers(keep, FactsMatching(data.facts, p));
      assert Node(FactProperty, p) in deps;
    } else if FormOf(fields) == RelationForm {
      var t := fields["relation_type"].s;
      var keep := (r: Relation) => Selected(Get(fields, "subject_id"), r.subject)
                                   && Selected(Get(fields, "object_id"), r.target);
      FilterMembers((r: Relation) => r.relationType == t, data.relations);
      FilterMembers(keep, RelationsOfType(data.relations, t));
      assert Node(RelationType, t) in deps;
    }
  }

  lemma {:induction false} EvalAllDependencies(operands: seq<Option<Json>>, parent: Json, data: Data)
    requires forall i :: 0 <= i < |operands| && operands[i].Some? ==> operands[i].value < parent
    requires EvalAll(operands, parent, data).Ok?
    ensures var deps := Dependencies(EvalAll(operands, parent, data).value);
            && Selectors(deps) == ReferencesInAll(operands, parent)
            && forall n :: n in deps ==> RowIsSelected(n, deps, data)
    decreases parent, 0, |operands|
  {
    if operands != [] {
      var first := Eval(operands[0].value, data).value;
      var rest := EvalAll(operands[1..], parent, data).value;
      DependenciesExact(operands[0].value, data);
      EvalAllDependencies(operands[1..], parent, data);
      assert ([first] + rest)[1..] == rest;
      var deps := first.deps + Dependencies(rest);
      forall n | n in deps ensures RowIsSelected(n, deps, data) {
        if n in first.deps {
          RowStaysSelected(n, first.deps, deps, data);
        } else {
          RowStaysSelected(n, Dependencies(rest), deps, data);
        }
      }
    }
  }

  lemma RowStaysSelected(n: Node, deps: set<Node>, more: set<Node>, data: Data)
    requires RowIsSelected(n, deps, data) && deps <= more
    ensures RowIsSelected(n, more, data)
  {
    if n.kind == FactNode {
      var f, p :| f in data.facts && f.id == n.id && p in deps && p.kind == FactProperty && MatchesPattern(f.property, p.id);
      assert p in more;
    }
  }

  lemma CombineKeepsDependencies(fields: Document, traces: seq<Trace>)
    requires !IsLeaf(fields)
    requires FormOf(fields) in {ComparisonForm, MembershipForm} ==> |traces| == 2
    requires FormOf(fields) in {ExistsForm, AggregationForm} ==> |traces| == 1
    requires Combine(fields, traces).Ok?
    ensures Combine(fields, traces).value.deps == Dependencies(traces)
  {
    match FormOf(fields)
    case ExistsForm => DependenciesOfOne(traces);
    case LogicalForm => LogicalKeepsDependencies(fields["operator"], traces);
    case AggregationForm => AggregateKeepsDependencies(fields["operator"], traces);
    case MembershipForm => MembershipKeepsDependencies(fields["operator"], traces);
    case ComparisonForm => ComparisonKeepsDependencies(fields, traces);
    case QuantifierForm => QuantifierKeepsDependencies(fields, traces);
  }

  lemma MembershipKeepsDependencies(operator: Json, traces: seq<Trace>)
    requires |traces| == 2
    ensures Membership(operator, traces[0], traces[1]).deps == Dependencies(traces)
  {
    assert [traces[0], traces[1]] == traces;
  }

  lemma ComparisonKeepsDependencies(fields: Document, traces: seq<Trace>)
    requires FormOf(fields) == ComparisonForm && |traces| == 2 && Combine(fields, traces).Ok?
    ensures Combine(fields, traces).value.deps == Dependencies(traces)
  {
  }

  lemma QuantifierKeepsDependencies(fields: Document, traces: seq<Trace>)
    requires FormOf(fields) == QuantifierForm && Combine(fields, traces).Ok?
    ensures Combine(fields, traces).value.deps == Dependencies(traces)
  {
  }

  lemma LogicalKeepsDependencies(operator: Json, traces: seq<Trace>)
    requires Logical(operator, traces).Ok?
    ensures Logical(operator, traces).value.deps == Dependencies(traces)
  {
  }

  lemma AggregateKeepsDependencies(operator: Json, traces: seq<Trace>)
    requires |traces| == 1 && AggregateTrace(operator, traces[0]).Ok?
    ensures AggregateTrace(operator, traces[0]).value.deps == Dependencies(traces)
  {
    DependenciesOfOne(traces);
  }

  lemma DependenciesOfOne(traces: seq<Trace>)
    requires |traces| == 1
    ensures Dependencies(traces) == traces[0].deps
  {
    assert Dependencies(traces[1..]) == {};
  }

  /** Dependency soundness: data that agrees on everything a successful run recorded reproduces the run. */
  lemma RecordedDependenciesSuffice(node: Json, a: Data, b: Data)
    requires Eval(node, a).Ok? && Agrees(Eval(node, a).value.deps, a, b)
    ensures Eval(node, b) == Eval(node, a)
  {
    DependenciesExact(node, a);
    assert References(node) <= Eval(node, a).value.deps;
    EvalFrame(node, a, b);
  }

  predicate Unstuck<T>(r: Result<T>) {
    r.Ok? || r.error == TypeMismatch
  }

  /** A validated node evaluates or reports a type mismatch, never an unknown node or a missing field. */
  lemma {:induction false} ValidNeverStuck(node: Json, depth: nat, data: Data)
    requires ValidAt(node, depth)
    ensures Unstuck(Eval(node, data))
    decreases node, 1
  {
    if node.Obj? && !IsLeaf(node.fields) {
      var operands := Operands(node);
      OperandsValid(node, depth);
      AllValidNeverStuck(operands, node, depth + 1, data);
      if EvalAll(operands, node, data).Ok? {
        CombineUnstuck(node, depth, EvalAll(operands, node, data).value);
      }
    }
  }

  lemma {:induction false} AllValidNeverStuck(operands: seq<Option<Json>>, parent: Json, depth: nat, data: Data)
    requires forall i :: 0 <= i < |operands| && operands[i].Some? ==> operands[i].value < parent
    requires forall i :: 0 <= i < |operands| ==> operands[i].Some? && ValidAt(operands[i].value, depth)
    ensures Unstuck(EvalAll(operands, parent, data))
    decreases parent, 0, |operands|
  {
    if operands != [] {
      ValidNeverStuck(operands[0].value, depth, data);
      AllValidNeverStuck(operands[1..], parent, depth, data);
    }
  }

  /** A valid inner node has all its operands, each valid one level deeper. */
  lemma OperandsValid(node: Json, depth: nat)
    requires node.Obj? && !IsLeaf(node.fields) && ValidAt(node, depth)
    ensures forall i :: 0 <= i < |Operands(node)| ==>
                          Operands(node)[i].Some? && ValidAt(Operands(node)[i].value, depth + 1)
    ensures depth <= MAX_DEPTH
  {
    var form := FormOf(node.fields);
    if form == LogicalForm {
      assert LogicalProblems(node, depth, MAX_DEPTH) == [];
      ListValid(node, "args", depth);
    } else if form == QuantifierForm {
      assert QuantifierProblems(node, depth, MAX_DEPTH) == [];
      ListValid(node, "items", depth);
    } else if form == ComparisonForm || form == MembershipForm {
      assert BinaryProblems(node, if form == ComparisonForm then ["==", "!=", ">", ">=", "<", "<="] else ["in", "not_in"],
                            depth, MAX_DEPTH) == [];
      assert ProblemsInChild(node, "left", depth, MAX_DEPTH) == [];
      assert ProblemsInChild(node, "right", depth, MAX_DEPTH) == [];
    } else {
      assert ProblemsInChild(node, "target", depth, MAX_DEPTH) == [];
    }
  }

  lemma ListValid(node: Json, name: string, depth: nat)
    requires node.Obj? && name in node.fields && node.fields[name].Arr?
    requires ProblemsInList(node, name, depth, MAX_DEPTH) == []
    ensures forall i :: 0 <= i < |OperandList(node, name)| ==>
                          OperandList(node, name)[i].Some? && ValidAt(OperandList(node, name)[i].value, depth + 1)
  {
    ProblemsInAllAbsent(node.fields[name].items, depth + 1, MAX_DEPTH);
  }

  lemma CombineUnstuck(node: Json, depth: nat, traces: seq<Trace>)
    requires node.Obj? && !IsLeaf(node.fields) && ValidAt(node, depth) && |traces| == |Operands(node)|
    ensures Unstuck(Combine(node.fields, traces))
  {
    var fields := node.fields;
    var form := FormOf(fields);
    if form == ComparisonForm || form == MembershipForm {
      assert BinaryProblems(node, if form == ComparisonForm then ["==", "!=", ">", ">=", "<", "<="] else ["in", "not_in"],
                            depth, MAX_DEPTH) == [];
    } else if form == AggregationForm {
      AggregateUnstuck(Get(fields, "operator"), if traces[0].value.Arr? then traces[0].value.items else [traces[0].value]);
      AggregateUnstuck(Get(fields, "operator"), []);
    } else if form == QuantifierForm {
      assert QuantifierProblems(node, depth, MAX_DEPTH) == [];
    } else if form == LogicalForm {
      assert LogicalProblems(node, depth, MAX_DEPTH) == [];
      assert |traces| == |fields["args"].items|;
    }
  }

  lemma AggregateUnstuck(operator: Json, values: seq<Json>)
    requires IsOneOf(operator, ["count", "sum", "min", "max"])
    ensures Unstuck(Aggregate(operator, values))
  {
    TotalUnstuck(values);
    if values != [] {
      ExtremeUnstuck(values[0], values[1..], -1);
      ExtremeUnstuck(values[0], values[1..], 1);
    }
  }

  lemma {:induction false} TotalUnstuck(values: seq<Json>)
    ensures Unstuck(Total(values))
  {
    if values != [] {
      TotalUnstuck(values[1..]);
    }
  }

  lemma {:induction false} ExtremeUnstuck(best: Json, values: seq<Json>, sign: int)
    ensures Unstuck(Extreme(best, values, sign))
    decreases |values|
  {
    if values != [] {
      ExtremeUnstuck(best, values[1..], sign);
      ExtremeUnstuck(values[0], values[1..], sign);
    }
  }

  function Max(a: nat, b: nat): nat {
    if a < b then b else a
  }

  /** How many interpreter calls are nested at the deepest point of evaluating a node. */
  function CallDepth(node: Json): nat
    decreases node, 1
  {
    if !node.Obj? || IsLeaf(node.fields) then 1 else 1 + CallDepthOfAll(Operands(node), node)
  }

  function CallDepthOfAll(operands: seq<Option<Json>>, ghost parent: Json): nat
    requires forall i :: 0 <= i < |operands| && operands[i].Some? ==> operands[i].value < parent
    decreases parent, 0, |operands|
  {
    if operands == [] then 0
    else Max(if operands[0].Some? then CallDepth(operands[0].value) else 0, CallDepthOfAll(operands[1..], parent))
  }

  /** The validated depth bounds the interpreter's recursion: at most 31 nested calls from the root. */
  lemma {:induction false} RecursionBounded(node: Json, depth: nat)
    requires ValidAt(node, depth)
    ensures depth + CallDepth(node) <= MAX_DEPTH + 1
    decreases node, 1
  {
    if node.Obj? && !IsLeaf(node.fields) {
      OperandsValid(node, depth);
      AllBounded(Operands(node), node, depth + 1);
    }
  }

  lemma {:induction false} AllBounded(operands: seq<Option<Json>>, parent: Json, depth: nat)
    requires forall i :: 0 <= i < |operands| && operands[i].Some? ==> operands[i].value < parent
    requires forall i :: 0 <= i < |operands| ==> operands[i].Some? && ValidAt(operands[i].value, depth)
    requires depth <= MAX_DEPTH + 1
    ensures depth + CallDepthOfAll(operands, parent) <= MAX_DEPTH + 1
    decreases parent, 0, |operands|
  {
    if operands != [] {
      RecursionBounded(operands[0].value, depth);
      AllBounded(operands[1..], parent, depth);
    }
  }
}
