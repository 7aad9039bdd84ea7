/** Cache coherence: in every reachable store a cached answer is what the engine would compute afresh. */
module CacheProofs {
  import opened Prelude
  import opened Json
  import opened Graph
  import opened Evaluator
  import opened EvaluatorProofs
  import opened Coverage
  import opened Rules
  import opened Sorting
  import opened Text
  import opened Engine
  import opened EngineProofs
  import opened Outlines
  import opened Report
  import opened Selectors
  import opened FactStore
  import opened RuleStore
  import opened RuleStoreProofs
  import opened Core

  /** Whatever an effect value of a matched rule reads is covered by a recorded dependency; the engine does not record the
      read itself. */
  predicate ReadsCovered(rules: seq<Rule>, result: Run) {
    forall r, e, n :: r in rules && RefOf(r) in result.matched && e in r.effects && n in ValueReferences(e) ==>
                        Covered(n, result.deps)
  }

  predicate VersionsKnown(rules: seq<Rule>, versions: seq<(string, nat)>) {
    forall i :: 0 <= i < |versions| ==> FindRule(rules, versions[i].0).Some?
  }

  /** The rules a result key names. */
  function Named(rules: seq<Rule>, versions: seq<(string, nat)>): (r: seq<Rule>)
    requires VersionsKnown(rules, versions)
    ensures |r| == |versions|
    ensures forall i :: 0 <= i < |r| ==> r[i] == rules[FindRule(rules, versions[i].0).value]
  {
    seq(|versions|, i requires 0 <= i < |versions| => rules[FindRule(rules, versions[i].0).value])
  }

  function ShownAs(live: set<string>): Rule -> Rule {
    (r: Rule) => Shown(r, r.id in live)
  }

  /** The named rules as the engine saw them while exactly the live ones were active. */
  function KeyRules(rules: seq<Rule>, versions: seq<(string, nat)>, live: set<string>): seq<Rule>
    requires VersionsKnown(rules, versions)
  {
    Map(ShownAs(live), Named(rules, versions))
  }

  /** What has become of a named rule since a result was computed: a rule that was not active then has been closed, and
      one that was active and is superseded now does not apply to the result's context. */
  predicate Since(rule: Rule, live: set<string>, context: Document) {
    && (rule.id !in live ==> rule.knownTo.Some?)
    && (rule.id in live && rule.status == Superseded ==> !ScopeMatches(rule.scope, context))
  }

  /** The row holds what the engine computes on the current data from its rules as they stood: its outline always, and all
      of it when the effect values of the matched rules keep to covered reads. */
  ghost predicate ComputedFrom(row: DerivedRow, live: set<string>, facts: seq<FactRow>, relations: seq<Relation>, rules: seq<Rule>)
    requires VersionsKnown(rules, row.key.rules)
  {
    var keyRules, data := KeyRules(rules, row.key.rules, live), DataFor(facts, relations, row.key.applicant, row.key.context);
    && RunEngine(Map(WithoutEffects, keyRules), data) == Ok(Outline(row.result))
    && (ReadsCovered(Named(rules, row.key.rules), row.result) ==> RunEngine(keyRules, data) == Ok(row.result))
    && forall r :: r in Named(rules, row.key.rules) ==> Since(r, live, row.key.context)
  }

  /** Every row has its edges, and a valid row holds what the engine computes now. */
  ghost predicate Coherent(row: DerivedRow, facts: seq<FactRow>, relations: seq<Relation>, rules: seq<Rule>, edges: set<Edge>) {
    && VersionsKnown(rules, row.key.rules)
    && ResultEdges(row.result, row.key.ontology, row.id) <= edges
    && (row.status == VALID ==> exists live :: ComputedFrom(row, live, facts, relations, rules))
  }

  predicate DistinctRows(derived: seq<DerivedRow>) {
    forall i, j :: 0 <= i < |derived| && 0 <= j < |derived|
                   && (derived[i].id == derived[j].id || derived[i].key == derived[j].key)
                   ==> i == j
  }

  /** Results have no outgoing edges: nothing the services register starts at one. */
  predicate ResultsAreSinks(edges: set<Edge>) {
    forall e :: e in edges ==> e.source.kind != Derived
  }

  ghost predicate Invariant(s: State) {
    && GoodTable(s.facts) && GoodRules(s.rules) && DistinctRows(s.derived) && ResultsAreSinks(s.edges)
    && forall i :: 0 <= i < |s.derived| ==> Coherent(s.derived[i], s.facts, s.relations, s.rules, s.edges)
  }

  // ---- writes ----

  /** later is earlier with changes only to rows of one property. */
  predicate ChangedOnly(earlier: seq<FactRow>, later: seq<FactRow>, property: string) {
    && |earlier| <= |later|
    && (forall i :: 0 <= i < |earlier| ==>
          later[i].fact == earlier[i].fact && (later[i] == earlier[i] || earlier[i].fact.property == property))
    && (forall i :: |earlier| <= i < |later| ==> later[i].fact.property == property)
  }

  lemma RecordedChangesOnly(rows: seq<FactRow>, w: FactWrite, id: string, now: int)
    requires GoodTable(rows) && Accepts(rows, w, id)
    ensures ChangedOnly(rows, Recorded(rows, w, id, now), w.property)
  {
    if !IdentityKnown(rows, w) {
      ReplacedIsTheOpenRow(rows, w);
    }
  }

  lemma {:induction false} UnreadRowsDoNotShow(earlier: seq<FactRow>, later: seq<FactRow>, property: string, pattern: string, p: FactRow -> bool)
    requires ChangedOnly(earlier, later, property) && !MatchesPattern(property, pattern)
    ensures FactsMatching(Map(FactOf, Filter(p, later)), pattern) == FactsMatching(Map(FactOf, Filter(p, earlier)), pattern)
    decreases |later|
  {
    if earlier != [] {
      assert ChangedOnly(earlier[1..], later[1..], property);
      UnreadRowsDoNotShow(earlier[1..], later[1..], property, pattern, p);
      HeadRow(p, later, pattern);
      HeadRow(p, earlier, pattern);
    } else if later != [] {
      assert ChangedOnly(earlier, later[1..], property);
      UnreadRowsDoNotShow(earlier, later[1..], property, pattern, p);
      HeadRow(p, later, pattern);
    }
  }

  lemma HeadRow(p: FactRow -> bool, rows: seq<FactRow>, pattern: string)
    requires rows != []
    ensures FactsMatching(Map(FactOf, Filter(p, rows)), pattern)
         == (if p(rows[0]) && MatchesPattern(rows[0].fact.property, pattern) then [rows[0].fact] else [])
            + FactsMatching(Map(FactOf, Filter(p, rows[1..])), pattern)
  {
    var rest := Filter(p, rows[1..]);
    if p(rows[0]) {
      assert ([rows[0]] + rest)[1..] == rest;
      assert Map(FactOf, [rows[0]] + rest) == [rows[0].fact] + Map(FactOf, rest);
      assert ([rows[0].fact] + Map(FactOf, rest))[1..] == Map(FactOf, rest);
    }
  }

  lemma FactLeTotalPreorder()
    ensures TotalPreorder(FactLe)
  {
    forall x: Fact, y: Fact ensures FactLe(x, y) || FactLe(y, x) {
      StrLeTotal(x.id, y.id);
      StrLeTotal(x.property, y.property);
    }
    forall x: Fact, y: Fact, z: Fact | FactLe(x, y) && FactLe(y, z) ensures FactLe(x, z) {
      FactLeTransitive(x, y, z);
    }
  }

  lemma FactLeTransitive(x: Fact, y: Fact, z: Fact)
    requires FactLe(x, y) && FactLe(y, z)
    ensures FactLe(x, z)
  {
    if x.property == y.property == z.property {
      StrLeTransitive(x.id, y.id, z.id);
    } else if x.property != y.property && y.property != z.property {
      StrLeTransitive(x.property, y.property, z.property);
      if x.property == z.property {
        StrLeAntisymmetric(x.property, y.property);
      }
    }
  }

  /** A pattern that cannot read the written property lists the same facts before and after. */
  lemma WriteInvisible(earlier: seq<FactRow>, later: seq<FactRow>, property: string, pattern: string, subject: Json, validAt: Option<int>, knownAt: Option<int>)
    requires ChangedOnly(earlier, later, property) && !MatchesPattern(property, pattern)
    ensures FactsMatching(ListFacts(later, subject, "", validAt, knownAt), pattern)
         == FactsMatching(ListFacts(earlier, subject, "", validAt, knownAt), pattern)
  {
    var p := Picker(subject, "", validAt, knownAt);
    FactLeTotalPreorder();
    SortThenMatch(Map(FactOf, Filter(p, later)), pattern);
    SortThenMatch(Map(FactOf, Filter(p, earlier)), pattern);
    UnreadRowsDoNotShow(earlier, later, property, pattern, p);
  }

  lemma SortThenMatch(facts: seq<Fact>, pattern: string)
    requires TotalPreorder(FactLe)
    ensures FactsMatching(Sort(FactLe, facts), pattern) == Sort(FactLe, FactsMatching(facts, pattern))
  {
    FilterSort(FactLe, (f: Fact) => MatchesPattern(f.property, pattern), facts);
  }

  lemma RelationLeTotalPreorder()
    ensures TotalPreorder(RelationLe)
  {
    forall x: Relation, y: Relation ensures RelationLe(x, y) || RelationLe(y, x) {
      StrLeTotal(x.id, y.id);
    }
    forall x: Relation, y: Relation, z: Relation | RelationLe(x, y) && RelationLe(y, z) ensures RelationLe(x, z) {
      StrLeTransitive(x.id, y.id, z.id);
    }
  }

  /** Another relation type lists the same relations before and after an insertion. */
  lemma RelationInvisible(relations: seq<Relation>, r: Relation, relationType: string, subject: Json, validAt: Option<int>, knownAt: Option<int>)
    requires r.relationType != relationType
    ensures RelationsOfType(ListRelations(relations + [r], subject, validAt, knownAt), relationType)
         == RelationsOfType(ListRelations(relations, subject, validAt, knownAt), relationType)
  {
    var p := RelationPicker(subject, validAt, knownAt);
    RelationLeTotalPreorder();
    SortThenType(Filter(p, relations + [r]), relationType);
    SortThenType(Filter(p, relations), relationType);
    FilterAppend(p, relations, [r]);
    var added := Filter(p, [r]);
    AppendOtherType(Filter(p, relations), added, relationType);
  }

  lemma AppendOtherType(relations: seq<Relation>, added: seq<Relation>, relationType: string)
    requires added == [] || (|added| == 1 && added[0].relationType != relationType)
    ensures RelationsOfType(relations + added, relationType) == RelationsOfType(relations, relationType)
  {
    FilterAppend((r: Relation) => r.relationType == relationType, relations, added);
    assert RelationsOfType(relations + added, relationType)
        == RelationsOfType(relations, relationType) + RelationsOfType(added, relationType);
    assert RelationsOfType(added, relationType) == [];
  }

  lemma SortThenType(relations: seq<Relation>, relationType: string)
    requires TotalPreorder(RelationLe)
    ensures RelationsOfType(Sort(RelationLe, relations), relationType) == Sort(RelationLe, RelationsOfType(relations, relationType))
  {
    FilterSort(RelationLe, (r: Relation) => r.relationType == relationType, relations);
  }

  lemma {:induction false} MatchedIfFires(rules: seq<Rule>, data: Data, rule: Rule)
    requires rule in rules && Fires(rule, data)
    ensures RefOf(rule) in MatchedRefs(rules, data)
  {
    if rules[0] != rule {
      MatchedIfFires(rules[1..], data, rule);
    }
  }

  lemma FiringIsMatched(rules: seq<Rule>, data: Data, rule: Rule)
    requires RunEngine(rules, data).Ok? && rule in rules && Fires(rule, data)
    ensures RefOf(rule) in RunEngine(rules, data).value.matched
  {
    SortKeeps(RuleLe, rules);
    MatchedIfFires(OrderedRules(rules), data, rule);
    ReportExact(rules, data);
  }

  lemma ShownReadsNothingMore(rules: seq<Rule>, live: set<string>, a: Data, b: Data, result: Run)
    requires ReadsCovered(rules, result) && RunEngine(Map(ShownAs(live), rules), a) == Ok(result)
    requires a.context == b.context && a.applicant == b.applicant && Agrees(result.deps, a, b)
    ensures forall r :: r in Map(ShownAs(live), rules) && Fires(r, a) ==> EffectsAgree(r.effects, a, b)
  {
    var shown := Map(ShownAs(live), rules);
    forall r, e, n | r in shown && Fires(r, a) && e in r.effects && n in ValueReferences(e) ensures AgreesOn(n, a, b) {
      var i :| 0 <= i < |shown| && shown[i] == r;
      FiringIsMatched(shown, a, r);
      assert RefOf(r) == RefOf(rules[i]) && rules[i] in rules && e in rules[i].effects;
      CoveredAgrees(n, result.deps, a, b);
    }
  }

  /** Data on which every recorded selector agrees, under the same context and applicant, keeps the row coherent. */
  lemma AgreementKeepsCoherent(row: DerivedRow, s: State, facts: seq<FactRow>, relations: seq<Relation>)
    requires Coherent(row, s.facts, s.relations, s.rules, s.edges) && row.status == VALID
    requires Agrees(row.result.deps, DataFor(s.facts, s.relations, row.key.applicant, row.key.context),
                    DataFor(facts, relations, row.key.applicant, row.key.context))
    ensures Coherent(row, facts, relations, s.rules, s.edges)
  {
    var live :| ComputedFrom(row, live, s.facts, s.relations, s.rules);
    var a := DataFor(s.facts, s.relations, row.key.applicant, row.key.context);
    var b := DataFor(facts, relations, row.key.applicant, row.key.context);
    OutlineFrame(KeyRules(s.rules, row.key.rules, live), Outline(row.result), a, b);
    if ReadsCovered(Named(s.rules, row.key.rules), row.result) {
      ShownReadsNothingMore(Named(s.rules, row.key.rules), live, a, b, row.result);
      EngineFrame(KeyRules(s.rules, row.key.rules, live), a, b);
    }
    assert ComputedFrom(row, live, facts, relations, s.rules);
  }

  lemma EdgeAffects(edges: set<Edge>, e: Edge, id: string)
    requires e in edges && e.target == Node(Derived, id) && e.source.kind != Derived
    ensures Affected(edges, e.source, id) && id in AffectedIds(edges, e.source)
  {
    assert (e.source, e.target) in Pairs(edges);
    ReachesByEdge(Pairs(edges), e.source, e.target);
  }

  /** A result that no traversal from the node reaches did not record the node. */
  lemma UnaffectedDidNotRecord(row: DerivedRow, edges: set<Edge>, n: Node)
    requires ResultEdges(row.result, row.key.ontology, row.id) <= edges
    requires n.kind != Derived && row.id !in AffectedIds(edges, n)
    ensures n !in row.result.deps && (n.kind == RuleNode ==> forall ref :: ref in row.result.versions ==> ref.id != n.id)
  {
    var target := Node(Derived, row.id);
    if n in row.result.deps {
      EdgeAffects(edges, Edge(n, target, Supports), row.id);
    }
    forall ref | ref in row.result.versions && n == Node(RuleNode, ref.id) ensures false {
      EdgeAffects(edges, Edge(n, target, Executes), row.id);
    }
  }

  /** A row that is VALID after its store was invalidated for some nodes is unchanged and hangs on none of them. */
  lemma StillValid(s: State, nodes: set<Node>, i: nat)
    requires i < |s.derived| && InvalidatedAll(s, nodes).Some? && InvalidatedAll(s, nodes).value.derived[i].status == VALID
    ensures s.derived[i] == InvalidatedAll(s, nodes).value.derived[i] && s.derived[i].id !in AllAffected(s.edges, nodes)
  {
  }

  /** A result that did not record the written property reads the same data before and after the write. */
  lemma FactWriteAgrees(row: DerivedRow, s: State, w: FactWrite, facts: seq<FactRow>)
    requires ResultEdges(row.result, row.key.ontology, row.id) <= s.edges && ChangedOnly(s.facts, facts, w.property)
    requires !IdentityKnown(s.facts, w) && row.id !in AllAffected(s.edges, WriteNodes(s.facts, w))
    ensures Agrees(row.result.deps, DataFor(s.facts, s.relations, row.key.applicant, row.key.context),
                   DataFor(facts, s.relations, row.key.applicant, row.key.context))
  {
    var a := DataFor(s.facts, s.relations, row.key.applicant, row.key.context);
    var b := DataFor(facts, s.relations, row.key.applicant, row.key.context);
    forall n | n in row.result.deps ensures AgreesOn(n, a, b) {
      if n.kind == FactProperty {
        SelectorsAreExactlyThePatterns(w.property, n.id);
        if MatchesPattern(w.property, n.id) {
          assert n in WriteNodes(s.facts, w);
          UnaffectedDidNotRecord(row, s.edges, n);
          assert false;
        }
        WriteInvisible(s.facts, facts, w.property, n.id, Get(row.key.context, "subject_id"),
                       ValidAtOf(row.key.context), KnownAtOf(row.key.context));
      }
    }
  }

  /** Rows that stay VALID through an accepted fact write do not read the written property. */
  lemma FactWriteKeepsCoherent(s: State, w: FactWrite, id: string, now: int, i: nat)
    requires Invariant(s) && i < |s.derived| && FactWritten(s, w, id, now).Some?
    ensures var next := FactWritten(s, w, id, now).value;
            Coherent(next.derived[i], next.facts, next.relations, next.rules, next.edges)
  {
    var next := FactWritten(s, w, id, now).value;
    var row := s.derived[i];
    if next.derived[i].status == VALID && next.facts != s.facts {
      StillValid(s.(facts := next.facts), WriteNodes(s.facts, w), i);
      RecordedChangesOnly(s.facts, w, id, now);
      FactWriteAgrees(row, s, w, next.facts);
      AgreementKeepsCoherent(row, s, next.facts, s.relations);
    }
  }

  lemma RelationWriteAgrees(row: DerivedRow, s: State, r: Relation)
    requires ResultEdges(row.result, row.key.ontology, row.id) <= s.edges
    requires row.id !in AffectedIds(s.edges, Node(RelationType, r.relationType))
    ensures Agrees(row.result.deps, DataFor(s.facts, s.relations, row.key.applicant, row.key.context),
                   DataFor(s.facts, s.relations + [r], row.key.applicant, row.key.context))
  {
    var a := DataFor(s.facts, s.relations, row.key.applicant, row.key.context);
    var b := DataFor(s.facts, s.relations + [r], row.key.applicant, row.key.context);
    forall n | n in row.result.deps ensures AgreesOn(n, a, b) {
      if n.kind == RelationType {
        if n.id == r.relationType {
          UnaffectedDidNotRecord(row, s.edges, n);
          assert false;
        }
        RelationInvisible(s.relations, r, n.id, Get(row.key.context, "subject_id"),
                          ValidAtOf(row.key.context), KnownAtOf(row.key.context));
      }
    }
  }

  lemma AddedRelationKeepsCoherent(s: State, r: Relation, next: State, i: nat)
    requires Invariant(s) && i < |s.derived|
    requires InvalidatedAll(s.(relations := s.relations + [r]), {Node(RelationType, r.relationType)}) == Some(next)
    ensures Coherent(next.derived[i], next.facts, next.relations, next.rules, next.edges)
  {
    var row, node := s.derived[i], Node(RelationType, r.relationType);
    assert Coherent(row, s.facts, s.relations, s.rules, s.edges);
    if next.derived[i].status == VALID {
      StillValid(s.(relations := s.relations + [r]), {node}, i);
      assert row.id !in AffectedIds(s.edges, node);
      RelationWriteAgrees(row, s, r);
      AgreementKeepsCoherent(row, s, s.facts, next.relations);
    }
  }

  lemma RelationWriteKeepsCoherent(s: State, r: Relation, admissible: bool, now: int, i: nat)
    requires Invariant(s) && i < |s.derived| && RelationCreated(s, r, admissible, now).Some?
    ensures var next := RelationCreated(s, r, admissible, now).value;
            Coherent(next.derived[i], next.facts, next.relations, next.rules, next.edges)
  {
    if !RelationKnown(s.relations, r) {
      AddedRelationKeepsCoherent(s, r.(knownFrom := now), RelationCreated(s, r, admissible, now).value, i);
    }
  }

  // ---- rules ----

  /** The named rules stay the same rules, at the same places, whatever happens to their lifecycle columns. */
  lemma HistoryKeepsNamed(rules: seq<Rule>, next: seq<Rule>, versions: seq<(string, nat)>)
    requires RuleHistory(rules, next) && DistinctRuleIds(next) && VersionsKnown(rules, versions)
    ensures VersionsKnown(next, versions)
    ensures forall i :: 0 <= i < |versions| ==> FindRule(next, versions[i].0) == FindRule(rules, versions[i].0)
  {
    forall i | 0 <= i < |versions| ensures FindRule(next, versions[i].0) == FindRule(rules, versions[i].0) {
      var j := FindRule(rules, versions[i].0).value;
      assert next[j].id == Content(next[j]).id == rules[j].id;
    }
  }

  lemma HistoryKeepsKeyRules(rules: seq<Rule>, next: seq<Rule>, versions: seq<(string, nat)>, live: set<string>)
    requires RuleHistory(rules, next) && DistinctRuleIds(next) && VersionsKnown(rules, versions)
    ensures VersionsKnown(next, versions) && KeyRules(next, versions, live) == KeyRules(rules, versions, live)
  {
    HistoryKeepsNamed(rules, next, versions);
    forall i | 0 <= i < |versions| ensures KeyRules(next, versions, live)[i] == KeyRules(rules, versions, live)[i] {
      var j := FindRule(rules, versions[i].0).value;
      assert Content(next[j]) == Content(rules[j]);
      assert next[j].id == Content(next[j]).id == rules[j].id;
      SameContentSameShown(next[j], rules[j], rules[j].id in live);
    }
  }

  lemma HistoryKeepsCovered(rules: seq<Rule>, next: seq<Rule>, versions: seq<(string, nat)>, result: Run)
    requires RuleHistory(rules, next) && DistinctRuleIds(next) && VersionsKnown(rules, versions)
    ensures VersionsKnown(next, versions)
    ensures ReadsCovered(Named(next, versions), result) ==> ReadsCovered(Named(rules, versions), result)
  {
    HistoryKeepsNamed(rules, next, versions);
    if ReadsCovered(Named(next, versions), result) {
      var named := Named(rules, versions);
      forall r, e, n | r in named && RefOf(r) in result.matched && e in r.effects && n in ValueReferences(e)
        ensures Covered(n, result.deps)
      {
        var i :| 0 <= i < |named| && named[i] == r;
        var j := FindRule(rules, versions[i].0).value;
        assert next[j].effects == Content(next[j]).effects == rules[j].effects;
        assert RefOf(next[j]) == RefOf(Content(next[j])) == RefOf(rules[j]);
        assert Named(next, versions)[i] in Named(next, versions);
      }
    }
  }

  /** A rule that is superseded by the change did not take part in the result. */
  predicate UnseenIfSuperseded(before: Rule, after: Rule, result: Run) {
    after.status == Superseded && before.status != Superseded ==> forall ref :: ref in result.versions ==> ref.id != before.id
  }

  /** A live rule that applies to the context is among the versions of the run. */
  lemma {:induction false} ConsideredIfInScope(rules: seq<Rule>, context: Document, rule: Rule)
    requires rule in rules && InScope(rule, context)
    ensures RefOf(rule) in ConsideredRefs(rules, context)
  {
    if rules[0] != rule {
      ConsideredIfInScope(rules[1..], context, rule);
    }
  }

  lemma LiveInScopeIsRecorded(row: DerivedRow, live: set<string>, facts: seq<FactRow>, relations: seq<Relation>, rules: seq<Rule>, rule: Rule)
    requires VersionsKnown(rules, row.key.rules) && ComputedFrom(row, live, facts, relations, rules)
    requires rule in Named(rules, row.key.rules) && rule.id in live && ScopeMatches(rule.scope, row.key.context)
    ensures RefOf(rule) in row.result.versions
  {
    var keyRules := KeyRules(rules, row.key.rules, live);
    var outlined := Map(WithoutEffects, keyRules);
    var i :| 0 <= i < |Named(rules, row.key.rules)| && Named(rules, row.key.rules)[i] == rule;
    assert keyRules[i] == Shown(rule, true) && outlined[i] == WithoutEffects(Shown(rule, true)) && outlined[i] in outlined;
    SortKeeps(RuleLe, outlined);
    ConsideredIfInScope(OrderedRules(outlined), row.key.context, outlined[i]);
    ReportExact(outlined, DataFor(facts, relations, row.key.applicant, row.key.context));
  }

  lemma SinceContinues(row: DerivedRow, live: set<string>, s: State, next: seq<Rule>, i: nat)
    requires VersionsKnown(s.rules, row.key.rules) && ComputedFrom(row, live, s.facts, s.relations, s.rules)
    requires RuleHistory(s.rules, next) && DistinctRuleIds(next) && VersionsKnown(next, row.key.rules)
    requires i < |row.key.rules|
    requires UnseenIfSuperseded(Named(s.rules, row.key.rules)[i], Named(next, row.key.rules)[i], row.result)
    ensures Since(Named(next, row.key.rules)[i], live, row.key.context)
  {
    HistoryKeepsNamed(s.rules, next, row.key.rules);
    var j := FindRule(s.rules, row.key.rules[i].0).value;
    var before, after := s.rules[j], next[j];
    assert Named(s.rules, row.key.rules)[i] == before && before in Named(s.rules, row.key.rules);
    assert Since(before, live, row.key.context);
    assert after.id == Content(after).id == before.id && after.scope == Content(after).scope == before.scope;
    if after.id in live && after.status == Superseded && ScopeMatches(after.scope, row.key.context) {
      LiveInScopeIsRecorded(row, live, s.facts, s.relations, s.rules, before);
      assert false;
    }
  }

  lemma AllSinceContinue(row: DerivedRow, live: set<string>, s: State, next: seq<Rule>)
    requires VersionsKnown(s.rules, row.key.rules) && ComputedFrom(row, live, s.facts, s.relations, s.rules)
    requires RuleHistory(s.rules, next) && DistinctRuleIds(next) && VersionsKnown(next, row.key.rules)
    requires forall i :: 0 <= i < |s.rules| ==> UnseenIfSuperseded(s.rules[i], next[i], row.result)
    ensures forall r :: r in Named(next, row.key.rules) ==> Since(r, live, row.key.context)
  {
    HistoryKeepsNamed(s.rules, next, row.key.rules);
    forall r | r in Named(next, row.key.rules) ensures Since(r, live, row.key.context) {
      var i :| 0 <= i < |row.key.rules| && Named(next, row.key.rules)[i] == r;
      var j := FindRule(s.rules, row.key.rules[i].0).value;
      assert UnseenIfSuperseded(s.rules[j], next[j], row.result);
      SinceContinues(row, live, s, next, i);
    }
  }

  lemma RuleStepKeepsComputed(s: State, rules: seq<Rule>, row: DerivedRow, live: set<string>)
    requires VersionsKnown(s.rules, row.key.rules) && ComputedFrom(row, live, s.facts, s.relations, s.rules)
    requires RuleHistory(s.rules, rules) && DistinctRuleIds(rules)
    requires forall i :: 0 <= i < |s.rules| ==> UnseenIfSuperseded(s.rules[i], rules[i], row.result)
    ensures VersionsKnown(rules, row.key.rules) && ComputedFrom(row, live, s.facts, s.relations, rules)
  {
    HistoryKeepsKeyRules(s.rules, rules, row.key.rules, live);
    HistoryKeepsCovered(s.rules, rules, row.key.rules, row.result);
    AllSinceContinue(row, live, s, rules);
  }

  /** Rule calls and invalidations only turn VALID rows INVALIDATED; a row that stays VALID saw no rule superseded. */
  lemma RuleStepKeepsCoherent(s: State, rules: seq<Rule>, row: DerivedRow, next: DerivedRow)
    requires Coherent(row, s.facts, s.relations, s.rules, s.edges)
    requires RuleHistory(s.rules, rules) && DistinctRuleIds(rules)
    requires next == row || next == row.(status := INVALIDATED)
    requires next.status == VALID ==>
               forall i :: 0 <= i < |s.rules| ==> UnseenIfSuperseded(s.rules[i], rules[i], row.result)
    ensures Coherent(next, s.facts, s.relations, rules, s.edges)
  {
    HistoryKeepsNamed(s.rules, rules, row.key.rules);
    if next.status == VALID {
      assert next == row;
      var live :| ComputedFrom(row, live, s.facts, s.relations, s.rules);
      RuleStepKeepsComputed(s, rules, row, live);
    }
  }

  // ---- evaluation ----

  /** The key of a query names exactly the rules it lists. */
  lemma KeyNamesListed(s: State, q: Query)
    requires GoodRules(s.rules)
    ensures VersionsKnown(s.rules, KeyOf(s, q).rules) && Named(s.rules, KeyOf(s, q).rules) == RulesFor(s, q.context)
    ensures forall r :: r in RulesFor(s, q.context) ==> r in s.rules && RulePicked(r, ValidAtOf(q.context), KnownAtOf(q.context))
  {
    var active := RulesFor(s, q.context);
    ActiveRulesExactly(s.rules, ValidAtOf(q.context), KnownAtOf(q.context));
    forall i | 0 <= i < |active|
      ensures FindRule(s.rules, active[i].id).Some? && s.rules[FindRule(s.rules, active[i].id).value] == active[i]
    {
      assert active[i] in active;
      var j :| 0 <= j < |s.rules| && s.rules[j] == active[i];
    }
  }

  /** The listed rules that are active now. */
  function LiveNow(s: State, q: Query): (ids: set<string>)
    ensures forall r :: r in RulesFor(s, q.context) && r.status == Active ==> r.id in ids
  {
    var listed := RulesFor(s, q.context);
    set i | 0 <= i < |listed| && listed[i].status == Active :: listed[i].id
  }

  lemma LiveNowExactly(s: State, q: Query, r: Rule)
    requires GoodRules(s.rules) && r in RulesFor(s, q.context)
    ensures r.id in LiveNow(s, q) <==> r.status == Active
  {
    KeyNamesListed(s, q);
    var listed := RulesFor(s, q.context);
    if r.id in LiveNow(s, q) {
      var i :| 0 <= i < |listed| && listed[i].status == Active && listed[i].id == r.id;
      assert listed[i] in listed;
      var j :| 0 <= j < |s.rules| && s.rules[j] == listed[i];
      var k :| 0 <= k < |s.rules| && s.rules[k] == r;
    }
  }

  /** A fresh run is the run of the key's rules with those live that are active now. */
  lemma FreshRunUsesKeyRules(s: State, q: Query)
    requires GoodRules(s.rules) && InstantsReadable(q.context)
    ensures VersionsKnown(s.rules, KeyOf(s, q).rules)
    ensures FreshRun(s, q) == RunEngine(KeyRules(s.rules, KeyOf(s, q).rules, LiveNow(s, q)),
                                        DataFor(s.facts, s.relations, q.applicant, q.context))
  {
    var listed := RulesFor(s, q.context);
    KeyNamesListed(s, q);
    forall i | 0 <= i < |listed| ensures Map(EngineView, listed)[i] == Map(ShownAs(LiveNow(s, q)), listed)[i] {
      LiveNowExactly(s, q, listed[i]);
    }
    assert Map(EngineView, listed) == Map(ShownAs(LiveNow(s, q)), listed);
    EngineSeesViews(listed, DataFor(s.facts, s.relations, q.applicant, q.context));
  }

  lemma NewRowCoherent(s: State, q: Query, id: string)
    requires Invariant(s) && FreshRun(s, q).Ok?
    ensures var run := FreshRun(s, q).value;
            Coherent(DerivedRow(id, KeyOf(s, q), run, VALID), s.facts, s.relations, s.rules,
                     s.edges + ResultEdges(run, s.ontology, id))
  {
    var row := DerivedRow(id, KeyOf(s, q), FreshRun(s, q).value, VALID);
    KeyNamesListed(s, q);
    FreshRunUsesKeyRules(s, q);
    forall r | r in Named(s.rules, row.key.rules) ensures Since(r, LiveNow(s, q), q.context) {
      LiveNowExactly(s, q, r);
    }
    EngineOutline(KeyRules(s.rules, row.key.rules, LiveNow(s, q)), DataFor(s.facts, s.relations, q.applicant, q.context));
    assert ComputedFrom(row, LiveNow(s, q), s.facts, s.relations, s.rules);
  }

  lemma MoreEdgesKeepCoherent(row: DerivedRow, s: State, edges: set<Edge>)
    requires Coherent(row, s.facts, s.relations, s.rules, s.edges) && s.edges <= edges
    ensures Coherent(row, s.facts, s.relations, s.rules, edges)
  {
  }

  lemma ResultEdgesStartElsewhere(run: Run, ontology: string, id: string)
    requires forall n :: n in run.deps ==> n.kind != Derived
    ensures ResultsAreSinks(ResultEdges(run, ontology, id))
  {
  }

  /** Storing a coherent row, in place of the row with its key or as a new one, keeps the invariant. */
  lemma StoredRowKeepsInvariant(s: State, k: nat, row: DerivedRow, more: set<Edge>)
    requires Invariant(s) && ResultsAreSinks(more) && k <= |s.derived|
    requires Coherent(row, s.facts, s.relations, s.rules, s.edges + more)
    requires forall i :: 0 <= i < |s.derived| && i != k ==> s.derived[i].id != row.id && s.derived[i].key != row.key
    ensures k < |s.derived| ==> Invariant(s.(derived := s.derived[k := row], edges := s.edges + more))
    ensures k == |s.derived| ==> Invariant(s.(derived := s.derived + [row], edges := s.edges + more))
  {
    forall i | 0 <= i < |s.derived| ensures Coherent(s.derived[i], s.facts, s.relations, s.rules, s.edges + more) {
      MoreEdgesKeepCoherent(s.derived[i], s, s.edges + more);
    }
  }

  lemma EvaluationKeepsInvariant(s: State, q: Query, persist: bool, newId: string)
    requires Invariant(s) && Evaluated(s, q, persist, newId).Some?
    ensures Invariant(Evaluated(s, q, persist, newId).value.1)
  {
    if Evaluated(s, q, persist, newId).value.1 != s {
      var run := FreshRun(s, q).value;
      NewRowCoherent(s, q, newId);
      RunRecordsNoResults(s, q);
      ResultEdgesStartElsewhere(run, s.ontology, newId);
      StoredRowKeepsInvariant(s, |s.derived|, DerivedRow(newId, KeyOf(s, q), run, VALID), ResultEdges(run, s.ontology, newId));
    }
  }

  /** The rewrite the service intends would keep the invariant as well. */
  lemma IntendedRewriteKeepsInvariant(s: State, q: Query)
    requires Invariant(s) && IntendedRewrite(s, q).Some?
    ensures Invariant(IntendedRewrite(s, q).value.1)
  {
    var i, run := FindDerived(s.derived, KeyOf(s, q)).value, FreshRun(s, q).value;
    var id := s.derived[i].id;
    NewRowCoherent(s, q, id);
    RunRecordsNoResults(s, q);
    ResultEdgesStartElsewhere(run, s.ontology, id);
    StoredRowKeepsInvariant(s, i, DerivedRow(id, KeyOf(s, q), run, VALID), ResultEdges(run, s.ontology, id));
  }

  /** What the interpreter records: selectors and rows, never a rule or a result. */
  const RECORDED := {FactNode, FactProperty, RelationNode, RelationType, ContextPath, ApplicantPath}

  lemma {:induction false} EvalRecordsNoResults(node: Json, data: Data)
    requires Eval(node, data).Ok?
    ensures forall n :: n in Eval(node, data).value.deps ==> n.kind in RECORDED
    decreases node, 1
  {
    if node.Obj? && !IsLeaf(node.fields) {
      EvalAllRecordsNoResults(Operands(node), node, data);
      CombineKeepsDependencies(node.fields, EvalAll(Operands(node), node, data).value);
    }
  }

  lemma {:induction false} EvalAllRecordsNoResults(operands: seq<Option<Json>>, parent: Json, data: Data)
    requires forall i :: 0 <= i < |operands| && operands[i].Some? ==> operands[i].value < parent
    requires EvalAll(operands, parent, data).Ok?
    ensures forall n :: n in Dependencies(EvalAll(operands, parent, data).value) ==> n.kind in RECORDED
    decreases parent, 0, |operands|
  {
    if operands != [] {
      EvalRecordsNoResults(operands[0].value, data);
      EvalAllRecordsNoResults(operands[1..], parent, data);
      var first, rest := Eval(operands[0].value, data).value, EvalAll(operands[1..], parent, data).value;
      assert ([first] + rest)[1..] == rest;
    }
  }

  lemma {:induction false} ExceptionsRecordNoResults(deps: set<Node>, steps: seq<Json>, exceptions: seq<Json>, data: Data)
    requires CheckExceptions(deps, steps, exceptions, data).Ok? && forall n :: n in deps ==> n.kind in RECORDED
    ensures forall n :: n in CheckExceptions(deps, steps, exceptions, data).value.deps ==> n.kind in RECORDED
    decreases |exceptions|
  {
    if exceptions != [] {
      EvalRecordsNoResults(exceptions[0], data);
      var first := Evaluate(exceptions[0], data).value;
      if !Truthy(first.value) {
        ExceptionsRecordNoResults(deps + first.deps, steps + first.steps, exceptions[1..], data);
      }
    }
  }

  lemma {:induction false} RulesRecordNoResults(run: Run, rules: seq<Rule>, data: Data)
    requires RunRules(run, rules, data).Ok? && forall n :: n in run.deps ==> n.kind in RECORDED
    ensures forall n :: n in RunRules(run, rules, data).value.deps ==> n.kind in RECORDED
    decreases |rules|
  {
    if rules != [] {
      var rule := rules[0];
      if rule.status == Active && ScopeMatches(rule.scope, data.context) {
        EvalRecordsNoResults(rule.condition, data);
        if Truthy(Evaluate(rule.condition, data).value.value) {
          ExceptionsRecordNoResults({}, [], rule.exceptions, data);
        }
      }
      RulesRecordNoResults(RunRule(run, rule, data).value, rules[1..], data);
    }
  }

  lemma RunRecordsReads(s: State, q: Query)
    requires FreshRun(s, q).Ok?
    ensures forall n :: n in FreshRun(s, q).value.deps ==> n.kind in RECORDED
  {
    RulesRecordNoResults(START, OrderedRules(RulesFor(s, q.context)), DataFor(s.facts, s.relations, q.applicant, q.context));
  }

  lemma RunRecordsNoResults(s: State, q: Query)
    requires FreshRun(s, q).Ok?
    ensures forall n :: n in FreshRun(s, q).value.deps ==> n.kind != Derived
  {
    RunRecordsReads(s, q);
  }

  // ---- the whole machine ----

  lemma RuleCallKeepsInvariant(s: State, next: State)
    requires Invariant(s) && RuleStep(s.rules, next.rules)
    requires next == s.(rules := next.rules, derived := next.derived) && OnlyInvalidates(s.derived, next.derived)
    requires |s.rules| <= |next.rules|
    requires forall k, i :: 0 <= k < |s.derived| && 0 <= i < |s.rules| && next.derived[k].status == VALID ==>
                              UnseenIfSuperseded(s.rules[i], next.rules[i], s.derived[k].result)
    ensures Invariant(next)
  {
    StepKeepsGood(s.rules, next.rules);
    StepKeepsHistory(s.rules, next.rules);
    forall i | 0 <= i < |s.derived| ensures Coherent(next.derived[i], next.facts, next.relations, next.rules, next.edges) {
      RuleStepKeepsCoherent(s, next.rules, s.derived[i], next.derived[i]);
    }
  }

  predicate OnlyInvalidates(before: seq<DerivedRow>, after: seq<DerivedRow>) {
    && |after| == |before|
    && forall i :: 0 <= i < |before| ==> after[i] == before[i] || after[i] == before[i].(status := INVALIDATED)
  }

  /** A write that leaves rules and edges alone and only invalidates results keeps the invariant once its results are
      coherent. */
  lemma WriteKeepsInvariant(s: State, next: State)
    requires Invariant(s) && GoodTable(next.facts) && next.rules == s.rules && next.edges == s.edges
    requires OnlyInvalidates(s.derived, next.derived)
    requires forall i :: 0 <= i < |next.derived| ==> Coherent(next.derived[i], next.facts, next.relations, next.rules, next.edges)
    ensures Invariant(next)
  {
  }

  lemma FactWriteKeepsInvariant(s: State, w: FactWrite, id: string, now: int)
    requires Invariant(s) && FactWritten(s, w, id, now).Some?
    ensures Invariant(FactWritten(s, w, id, now).value)
  {
    var next := FactWritten(s, w, id, now).value;
    RecordedKeepsGood(s.facts, w, id, now);
    forall i | 0 <= i < |next.derived| ensures Coherent(next.derived[i], next.facts, next.relations, next.rules, next.edges) {
      FactWriteKeepsCoherent(s, w, id, now, i);
    }
    WriteKeepsInvariant(s, next);
  }

  lemma RelationWriteKeepsInvariant(s: State, r: Relation, admissible: bool, now: int)
    requires Invariant(s) && RelationCreated(s, r, admissible, now).Some?
    ensures Invariant(RelationCreated(s, r, admissible, now).value)
  {
    var next := RelationCreated(s, r, admissible, now).value;
    forall i | 0 <= i < |next.derived| ensures Coherent(next.derived[i], next.facts, next.relations, next.rules, next.edges) {
      RelationWriteKeepsCoherent(s, r, admissible, now, i);
    }
    WriteKeepsInvariant(s, next);
  }

  /** No rule becomes superseded. */
  predicate NoneSuperseded(rules: seq<Rule>, next: seq<Rule>) {
    && |rules| <= |next|
    && forall i :: 0 <= i < |rules| ==> next[i].status == Superseded ==> rules[i].status == Superseded
  }

  lemma LifecycleSupersedesNone(rules: seq<Rule>, request: Request, now: int, next: seq<Rule>)
    requires || (request.CreateRule? && Created(rules, request.draft, request.id, now) == Some(next))
             || (request.ValidateRule? && Validated(rules, request.id) == Some(next))
             || (request.TestRule? && Tested(rules, request.id) == Some(next))
    ensures NoneSuperseded(rules, next)
  {
    match request
    case CreateRule(draft, id) =>
    case ValidateRule(id) =>
    case TestRule(id) => assert next[FindRule(rules, id).value].status in {Validating, Testing, Review};
  }

  lemma LifecycleKeepsInvariant(s: State, next: State)
    requires Invariant(s) && RuleStep(s.rules, next.rules) && NoneSuperseded(s.rules, next.rules)
    requires next == s.(rules := next.rules, derived := next.derived) && OnlyInvalidates(s.derived, next.derived)
    ensures Invariant(next)
  {
    RuleCallKeepsInvariant(s, next);
  }

  /** Activation makes at most the predecessor superseded. */
  lemma ActivationSupersedes(rules: seq<Rule>, id: string, expected: Option<int>, now: int, i: nat)
    requires Activated(rules, id, expected, now).Some? && i < |rules|
    ensures var next, rule := Activated(rules, id, expected, now).value, rules[FindRule(rules, id).value];
            |next| == |rules|
            && (next[i].status == Superseded && rules[i].status != Superseded ==> rule.predecessor == Some(rules[i].id))
  {
  }

  /** A result that stays VALID through an activation did not use the rule that was superseded. */
  lemma ActivationUnseen(s: State, id: string, expected: Option<int>, now: int, k: nat, i: nat)
    requires Invariant(s) && RuleActivated(s, id, expected, now).Some? && k < |s.derived| && i < |s.rules|
    requires RuleActivated(s, id, expected, now).value.derived[k].status == VALID
    ensures var next := RuleActivated(s, id, expected, now).value.rules;
            |next| == |s.rules| && UnseenIfSuperseded(s.rules[i], next[i], s.derived[k].result)
  {
    var node := ActivationNode(s.rules[FindRule(s.rules, id).value]);
    ActivationSupersedes(s.rules, id, expected, now, i);
    assert s.derived[k].id !in AffectedIds(s.edges, node);
    assert Coherent(s.derived[k], s.facts, s.relations, s.rules, s.edges);
    UnaffectedDidNotRecord(s.derived[k], s.edges, node);
  }

  lemma ActivationOnlyInvalidates(s: State, id: string, expected: Option<int>, now: int)
    requires RuleActivated(s, id, expected, now).Some?
    ensures var next := RuleActivated(s, id, expected, now).value;
            next == s.(rules := next.rules, derived := next.derived) && OnlyInvalidates(s.derived, next.derived)
    ensures |RuleActivated(s, id, expected, now).value.rules| == |s.rules|
  {
    ActivatedKeepsHistory(s.rules, id, expected, now);
  }

  lemma ActivationKeepsInvariant(s: State, id: string, expected: Option<int>, now: int, next: State)
    requires Invariant(s) && RuleActivated(s, id, expected, now) == Some(next) && RuleStep(s.rules, next.rules)
    ensures Invariant(next)
  {
    ActivationOnlyInvalidates(s, id, expected, now);
    forall k, i | 0 <= k < |s.derived| && 0 <= i < |s.rules| && next.derived[k].status == VALID
      ensures UnseenIfSuperseded(s.rules[i], next.rules[i], s.derived[k].result)
    {
      ActivationUnseen(s, id, expected, now, k, i);
    }
    RuleCallKeepsInvariant(s, next);
  }

  lemma RequestIsRuleStep(s: State, request: Request, now: int)
    ensures RuleStep(s.rules, Step(s, request, now).rules)
  {
    var next := Step(s, request, now).rules;
    match request
    case CreateRule(draft, id) => assert next == s.rules || Created(s.rules, draft, id, now) == Some(next);
    case ValidateRule(id) => assert next == s.rules || Validated(s.rules, id) == Some(next);
    case TestRule(id) => assert next == s.rules || Tested(s.rules, id) == Some(next);
    case ActivateRule(id, expected) => assert next == s.rules || Activated(s.rules, id, expected, now) == Some(next);
    case _ => assert next == s.rules;
  }

  lemma RuleRequestKeepsInvariant(s: State, request: Request, now: int)
    requires Invariant(s) && Outcome(s, request, now).Some?
    requires request.CreateRule? || request.ValidateRule? || request.TestRule?
    ensures Invariant(Outcome(s, request, now).value)
  {
    var next := Outcome(s, request, now).value;
    assert next == Step(s, request, now);
    RequestIsRuleStep(s, request, now);
    LifecycleSupersedesNone(s.rules, request, now, next.rules);
    LifecycleKeepsInvariant(s, next);
  }

  lemma InvalidationKeepsInvariant(s: State, node: Node)
    requires Invariant(s) && Invalidated(s, node).Some?
    ensures Invariant(Invalidated(s, node).value)
  {
    LifecycleKeepsInvariant(s, Invalidated(s, node).value);
  }

  /** A call that is carried out keeps the invariant. */
  lemma OutcomeKeepsInvariant(s: State, request: Request, now: int)
    requires Invariant(s) && Outcome(s, request, now).Some?
    ensures Invariant(Outcome(s, request, now).value)
  {
    match request
    case WriteFact(w, id) => FactWriteKeepsInvariant(s, w, id, now);
    case CreateRelation(r, admissible) => RelationWriteKeepsInvariant(s, r, admissible, now);
    case EvaluateQuery(q, persist, newId) => EvaluationKeepsInvariant(s, q, persist, newId);
    case ActivateRule(id, expected) => ActivationRequestKeepsInvariant(s, id, expected, now);
    case InvalidateNode(node) => InvalidationKeepsInvariant(s, node);
    case _ => RuleRequestKeepsInvariant(s, request, now);
  }

  lemma ActivationIsRuleStep(s: State, id: string, expected: Option<int>, now: int, next: State)
    requires RuleActivated(s, id, expected, now) == Some(next)
    ensures RuleStep(s.rules, next.rules)
  {
    assert Activated(s.rules, id, expected, now) == Some(next.rules);
  }

  lemma ActivationRequestKeepsInvariant(s: State, id: string, expected: Option<int>, now: int)
    requires Invariant(s) && RuleActivated(s, id, expected, now).Some?
    ensures Invariant(RuleActivated(s, id, expected, now).value)
  {
    var next := RuleActivated(s, id, expected, now).value;
    ActivationIsRuleStep(s, id, expected, now, next);
    ActivationKeepsInvariant(s, id, expected, now, next);
  }

  /** Every service call keeps the invariant. */
  lemma StepKeepsInvariant(s: State, request: Request, now: int)
    requires Invariant(s)
    ensures Invariant(Step(s, request, now))
  {
    if Outcome(s, request, now).Some? {
      OutcomeKeepsInvariant(s, request, now);
    }
  }

  lemma {:induction false} RunsKeepInvariant(s: State, calls: seq<Call>)
    requires Invariant(s)
    ensures Invariant(RunCalls(s, calls))
    decreases |calls|
  {
    if calls != [] {
      StepKeepsInvariant(s, calls[0].request, calls[0].now);
      RunsKeepInvariant(Step(s, calls[0].request, calls[0].now), calls[1..]);
    }
  }

}
