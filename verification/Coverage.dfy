/** Which reads a set of recorded dependencies accounts for. An effect value is evaluated without recording what it reads;
    such a read is safe exactly when a recorded selector covers it. */
module Coverage {
  import opened Prelude
  import opened Json
  import opened Graph
  import opened Evaluator
  import opened EvaluatorProofs

  /** A recorded selector reads at least what this one reads. Context and applicant are part of the query. */
  predicate Covered(n: Node, deps: set<Node>) {
    match n.kind
    case FactProperty => exists d :: d in deps && d.kind == FactProperty && MatchesPattern(n.id, d.id)
    case RelationType => n in deps
    case _ => true
  }

  /** A pattern covered by another reads only what the other reads. */
  lemma MatchesTransitive(value: string, pattern: string, wider: string)
    requires MatchesPattern(value, pattern) && MatchesPattern(pattern, wider)
    ensures MatchesPattern(value, wider)
  {
    if value != pattern && pattern != wider {
      var k := |wider| - 1;
      assert wider[k - 1] == '.' && pattern[..k] == wider[..k] && pattern[|pattern| - 1] == '*';
      assert pattern[k - 1] == pattern[..k][k - 1] == '.';
      assert k < |pattern|;
      assert pattern[..|pattern| - 1][..k] == pattern[..k];
      assert value[..|pattern| - 1] == pattern[..|pattern| - 1];
      assert value[..|pattern| - 1][..k] == value[..k];
    }
  }

  lemma WiderListsMore(facts: seq<Fact>, pattern: string, wider: string)
    requires MatchesPattern(pattern, wider)
    ensures FactsMatching(FactsMatching(facts, wider), pattern) == FactsMatching(facts, pattern)
  {
    var narrow, wide := (f: Fact) => MatchesPattern(f.property, pattern), (f: Fact) => MatchesPattern(f.property, wider);
    forall f | f in facts ensures narrow(f) == (narrow(f) && wide(f)) {
      if narrow(f) {
        MatchesTransitive(f.property, pattern, wider);
      }
    }
    FilterTwice(narrow, wide, narrow, facts);
  }

  lemma CoveredAgrees(n: Node, deps: set<Node>, a: Data, b: Data)
    requires Covered(n, deps) && Agrees(deps, a, b) && a.context == b.context && a.applicant == b.applicant
    ensures AgreesOn(n, a, b)
  {
    if n.kind == FactProperty {
      var d :| d in deps && d.kind == FactProperty && MatchesPattern(n.id, d.id);
      assert AgreesOn(d, a, b);
      WiderListsMore(a.facts, n.id, d.id);
      WiderListsMore(b.facts, n.id, d.id);
    }
  }

  function OneFact(property: string): Data {
    EMPTY_DATA.(facts := [Fact("f", "s", property, Null, None, None, 0)])
  }

  function OneRelation(relationType: string): Data {
    EMPTY_DATA.(relations := [Relation("r", relationType, "s", "o", Null, None, None, 0)])
  }

  const EMPTY_DATA := Data([], [], map[], map[])

  lemma ReadsOneFact(property: string, pattern: string)
    ensures (FactsMatching(OneFact(property).facts, pattern) == []) <==> !MatchesPattern(property, pattern)
  {
    var facts := OneFact(property).facts;
    var read := FactsMatching(facts, pattern);
    FilterMembers((f: Fact) => MatchesPattern(f.property, pattern), facts);
    assert facts[0] in facts && (read != [] ==> read[0] in read);
  }

  lemma ReadsOneRelation(relationType: string, wanted: string)
    ensures (RelationsOfType(OneRelation(relationType).relations, wanted) == []) <==> relationType != wanted
  {
    var relations := OneRelation(relationType).relations;
    var read := RelationsOfType(relations, wanted);
    FilterMembers((r: Relation) => r.relationType == wanted, relations);
    assert relations[0] in relations && (read != [] ==> read[0] in read);
  }

  /** A selector that nothing recorded covers tells two data sets apart that agree on everything recorded. */
  lemma UncoveredTellsApart(n: Node, deps: set<Node>) returns (a: Data)
    requires !Covered(n, deps)
    ensures a.context == EMPTY_DATA.context && a.applicant == EMPTY_DATA.applicant
    ensures Agrees(deps, a, EMPTY_DATA) && !AgreesOn(n, a, EMPTY_DATA)
  {
    if n.kind == FactProperty {
      a := OneFact(n.id);
      ReadsOneFact(n.id, n.id);
      forall d | d in deps ensures AgreesOn(d, a, EMPTY_DATA) {
        ReadsOneFact(n.id, d.id);
      }
    } else {
      a := OneRelation(n.id);
      ReadsOneRelation(n.id, n.id);
      forall d | d in deps ensures AgreesOn(d, a, EMPTY_DATA) {
        ReadsOneRelation(n.id, d.id);
      }
    }
  }

  /** Recorded dependencies determine what a selector reads, on any two data sets with the same context and applicant,
      exactly when one of them covers it. */
  lemma CoveredExactly(n: Node, deps: set<Node>)
    ensures Covered(n, deps)
            <==> forall a: Data, b: Data :: Agrees(deps, a, b) && a.context == b.context && a.applicant == b.applicant
                                            ==> AgreesOn(n, a, b)
  {
    if Covered(n, deps) {
      forall a: Data, b: Data | Agrees(deps, a, b) && a.context == b.context && a.applicant == b.applicant
        ensures AgreesOn(n, a, b)
      {
        CoveredAgrees(n, deps, a, b);
      }
    } else {
      var a := UncoveredTellsApart(n, deps);
      assert !AgreesOn(n, a, EMPTY_DATA);
    }
  }
}
