/** What the fact and relation tables hold after a write and what a listing of them shows, column by column. */
module StoreLaws {
  import opened Prelude
  import opened Json
  import opened Evaluator
  import opened Sorting
  import opened EngineProofs
  import opened FactStore
  import opened Core
  import opened CacheProofs
  import opened Comparisons
  import opened Readings

  /** The instant lies in the interval, whose end is excluded; a missing bound is open, no instant asks for nothing. */
  predicate Covers(validFrom: Option<int>, validTo: Option<int>, moment: Option<int>) {
    moment.None? || ((validFrom.None? || validFrom.value <= moment.value) && (validTo.None? || moment.value < validTo.value))
  }

  /** A subject filter that is empty or names the subject. */
  predicate Admits(filter: Json, subject: string) {
    filter in FALSY || filter == Str(subject)
  }

  /** The row passes the filters, its valid interval covers the one instant, and it had been recorded and not yet superseded
      at the other (without it: is not superseded). */
  predicate Shows(row: FactRow, subject: Json, property: string, validAt: Option<int>, knownAt: Option<int>) {
    && Admits(subject, row.fact.subject) && (property == "" || property == row.fact.property)
    && Covers(row.fact.validFrom, row.fact.validTo, validAt)
    && (knownAt.Some? ==> row.fact.knownFrom <= knownAt.value)
    && (row.knownTo.Some? ==> knownAt.Some? && knownAt.value < row.knownTo.value)
  }

  lemma ShowsExactly(row: FactRow, subject: Json, property: string, validAt: Option<int>, knownAt: Option<int>)
    ensures Shows(row, subject, property, validAt, knownAt)
            <==> FactPicked(row, subject, property, validAt) && KnownAt(row.fact.knownFrom, row.knownTo, knownAt)
  {
  }

  /** A fact is listed exactly when a row that shows holds it. */
  lemma FactsListed(rows: seq<FactRow>, subject: Json, property: string, validAt: Option<int>, knownAt: Option<int>, f: Fact)
    ensures f in ListFacts(rows, subject, property, validAt, knownAt)
            <==> exists row :: row in rows && row.fact == f && Shows(row, subject, property, validAt, knownAt)
  {
    ListedExactly(rows, subject, property, validAt, knownAt);
    forall row | row in rows
      ensures Shows(row, subject, property, validAt, knownAt)
              <==> FactPicked(row, subject, property, validAt) && KnownAt(row.fact.knownFrom, row.knownTo, knownAt)
    {
      ShowsExactly(row, subject, property, validAt, knownAt);
    }
  }

  /** Facts are listed by property, then by id. */
  lemma FactsListedInOrder(rows: seq<FactRow>, subject: Json, property: string, validAt: Option<int>, knownAt: Option<int>)
    ensures var listed := ListFacts(rows, subject, property, validAt, knownAt);
            forall i, j :: 0 <= i < j < |listed| ==>
                             || Precedes(listed[i].property, listed[j].property)
                             || (listed[i].property == listed[j].property
                                 && (listed[i].id == listed[j].id || Precedes(listed[i].id, listed[j].id)))
  {
    var listed := ListFacts(rows, subject, property, validAt, knownAt);
    FactLeTotalPreorder();
    SortSorts(FactLe, Map(FactOf, Filter(Picker(subject, property, validAt, knownAt), rows)));
    forall i, j | 0 <= i < j < |listed|
      ensures || Precedes(listed[i].property, listed[j].property)
              || (listed[i].property == listed[j].property
                  && (listed[i].id == listed[j].id || Precedes(listed[i].id, listed[j].id)))
    {
      assert FactLe(listed[i], listed[j]);
      OrderIsPrecedence(listed[i].property, listed[j].property);
      OrderIsPrecedence(listed[i].id, listed[j].id);
    }
  }

  predicate DifferentIds(facts: seq<Fact>) {
    forall i, j :: 0 <= i < j < |facts| ==> facts[i].id != facts[j].id
  }

  lemma {:induction false} FilteredIdsDiffer(p: FactRow -> bool, rows: seq<FactRow>)
    requires DistinctIds(rows)
    ensures DifferentIds(Map(FactOf, Filter(p, rows)))
  {
    if rows != [] {
      var rest := Filter(p, rows[1..]);
      assert DistinctIds(rows[1..]) by {
        assert forall i :: 0 <= i < |rows[1..]| ==> rows[1..][i] == rows[i + 1];
      }
      FilteredIdsDiffer(p, rows[1..]);
      FilterMembers(p, rows[1..]);
      if p(rows[0]) {
        forall j | 0 <= j < |rest| ensures rest[j].fact.id != rows[0].fact.id {
          assert rest[j] in rest && rest[j] in rows[1..];
          var k :| 0 <= k < |rows[1..]| && rows[1..][k] == rest[j];
          assert rows[k + 1] == rest[j];
        }
      }
    }
  }

  lemma SortedIdsDiffer(facts: seq<Fact>, sorted: seq<Fact>)
    requires DifferentIds(facts) && multiset(facts) == multiset(sorted)
    ensures DifferentIds(sorted)
  {
    forall i, j | 0 <= i < j < |sorted| ensures sorted[i].id != sorted[j].id {
      assert sorted == sorted[..i] + [sorted[i]] + sorted[i + 1..j] + [sorted[j]] + sorted[j + 1..];
      if sorted[i] == sorted[j] {
        assert multiset(sorted)[sorted[i]] >= 2;
        OneOfEach(facts, sorted[i]);
      } else {
        assert sorted[i] in multiset(facts) && sorted[j] in multiset(facts);
        var a :| 0 <= a < |facts| && facts[a] == sorted[i];
        var b :| 0 <= b < |facts| && facts[b] == sorted[j];
        assert a != b;
      }
    }
  }

  lemma {:induction false} OneOfEach(facts: seq<Fact>, f: Fact)
    requires DifferentIds(facts)
    ensures multiset(facts)[f] <= 1
  {
    if facts != [] {
      assert facts == [facts[0]] + facts[1..];
      OneOfEach(facts[1..], f);
      assert f == facts[0] ==> f !in facts[1..];
    }
  }

  /** No fact is listed twice. */
  lemma FactsListedOnce(rows: seq<FactRow>, subject: Json, property: string, validAt: Option<int>, knownAt: Option<int>)
    requires DistinctIds(rows)
    ensures DifferentIds(ListFacts(rows, subject, property, validAt, knownAt))
  {
    var unsorted := Map(FactOf, Filter(Picker(subject, property, validAt, knownAt), rows));
    FilteredIdsDiffer(Picker(subject, property, validAt, knownAt), rows);
    SortPermutes(FactLe, unsorted);
    SortedIdsDiffer(unsorted, Sort(FactLe, unsorted));
  }

  /** A write is accepted exactly when its checks admit it, it names a subject and a property, its id is new, and an observed
      value comes without a valid interval. */
  lemma AcceptedExactly(rows: seq<FactRow>, w: FactWrite, id: string)
    ensures Accepts(rows, w, id)
            <==> && w.admissible && w.subject != "" && w.property != "" && (forall row :: row in rows ==> row.fact.id != id)
                 && (w.fromObservation ==> w.validFrom.None? && w.validTo.None?)
  {
    if IdUsed(rows, id) {
      var i :| 0 <= i < |rows| && rows[i].fact.id == id;
      assert rows[i] in rows;
    }
    if row :| row in rows && row.fact.id == id {
      var i :| 0 <= i < |rows| && rows[i] == row;
    }
  }

  /** Some row holds the value for the subject, property and valid start. */
  predicate Holds(rows: seq<FactRow>, w: FactWrite) {
    exists i :: 0 <= i < |rows| && rows[i].fact.subject == w.subject && rows[i].fact.property == w.property
                && rows[i].fact.value == w.value && rows[i].fact.validFrom == w.validFrom
  }

  /** The row is superseded by the write: not superseded before, and of its subject, property and valid start. */
  predicate Yields(row: FactRow, w: FactWrite) {
    row.knownTo.None? && row.fact.subject == w.subject && row.fact.property == w.property && row.fact.validFrom == w.validFrom
  }

  /** An accepted write of a value the table holds changes nothing. Any other appends one row with everything the write
      says, known from now on, and ends the row it supersedes now; no other row changes. */
  lemma RecordedExactly(rows: seq<FactRow>, w: FactWrite, id: string, now: int)
    requires GoodTable(rows) && Accepts(rows, w, id)
    ensures Holds(rows, w) ==> Recorded(rows, w, id, now) == rows
    ensures var next := Recorded(rows, w, id, now);
            !Holds(rows, w) ==>
              && |next| == |rows| + 1
              && next[|rows|] == FactRow(Fact(id, w.subject, w.property, w.value, w.validFrom, w.validTo, now), None)
              && forall i :: 0 <= i < |rows| ==>
                               next[i] == if Yields(rows[i], w) then FactRow(rows[i].fact, Some(now)) else rows[i]
  {
    assert IdentityKnown(rows, w) == Holds(rows, w);
    if !Holds(rows, w) {
      ReplacedIsTheOpenRow(rows, w);
      var next := Recorded(rows, w, id, now);
      forall i | 0 <= i < |rows|
        ensures next[i] == if Yields(rows[i], w) then FactRow(rows[i].fact, Some(now)) else rows[i]
      {
        if Yields(rows[i], w) {
          assert IsOpen(rows[i]) && SameSlot(rows[i].fact, NewFact(w, "", 0));
        }
      }
    }
  }

  /** After the write of a new value, a current listing at a valid instant holds the new fact exactly when the filters admit
      it and its interval covers the instant, and then with everything the write said. */
  lemma WrittenFactListed(rows: seq<FactRow>, w: FactWrite, id: string, now: int, subject: Json, property: string, t: int)
    requires GoodTable(rows) && Accepts(rows, w, id) && !Holds(rows, w)
    ensures var listed := ListFacts(Recorded(rows, w, id, now), subject, property, Some(t), None);
            && ((exists f :: f in listed && f.id == id)
                <==> && (subject in FALSY || subject == Str(w.subject)) && (property == "" || property == w.property)
                     && (w.validFrom.None? || w.validFrom.value <= t) && (w.validTo.None? || t < w.validTo.value))
            && forall f :: f in listed && f.id == id ==>
                             f == Fact(id, w.subject, w.property, w.value, w.validFrom, w.validTo, now)
  {
    var next := Recorded(rows, w, id, now);
    var written := Fact(id, w.subject, w.property, w.value, w.validFrom, w.validTo, now);
    RecordedExactly(rows, w, id, now);
    FactsListed(next, subject, property, Some(t), None, written);
    forall f | f in ListFacts(next, subject, property, Some(t), None) && f.id == id ensures f == written {
      FactsListed(next, subject, property, Some(t), None, f);
      var row :| row in next && row.fact == f && Shows(row, subject, property, Some(t), None);
      var i :| 0 <= i < |next| && next[i] == row;
      assert i < |rows| ==> rows[i].fact.id == id;
    }
    assert next[|rows|] in next && next[|rows|].fact == written;
    forall row | row in next && row.fact == written ensures row.knownTo.None? {
      var i :| 0 <= i < |next| && next[i] == row;
      assert i < |rows| ==> rows[i].fact.id == id;
    }
  }

  // ---- relations ----

  /** The relation passes the filters and had been recorded. */
  predicate ShowsRelation(r: Relation, subject: Json, validAt: Option<int>, knownAt: Option<int>) {
    && Admits(subject, r.subject) && Covers(r.validFrom, r.validTo, validAt) && (knownAt.Some? ==> r.knownFrom <= knownAt.value)
  }

  lemma ShowsRelationExactly(r: Relation, subject: Json, validAt: Option<int>, knownAt: Option<int>)
    ensures ShowsRelation(r, subject, validAt, knownAt) <==> RelationPicker(subject, validAt, knownAt)(r)
  {
  }

  /** A relation is listed exactly when the table has it and it shows. */
  lemma RelationsListed(relations: seq<Relation>, subject: Json, validAt: Option<int>, knownAt: Option<int>, r: Relation)
    ensures r in ListRelations(relations, subject, validAt, knownAt)
            <==> r in relations && ShowsRelation(r, subject, validAt, knownAt)
  {
    var p := RelationPicker(subject, validAt, knownAt);
    FilterMembers(p, relations);
    SortKeeps(RelationLe, Filter(p, relations));
    ShowsRelationExactly(r, subject, validAt, knownAt);
  }

  /** Relations are listed by id. */
  lemma RelationsListedInOrder(relations: seq<Relation>, subject: Json, validAt: Option<int>, knownAt: Option<int>)
    ensures var listed := ListRelations(relations, subject, validAt, knownAt);
            forall i, j :: 0 <= i < j < |listed| ==> listed[i].id == listed[j].id || Precedes(listed[i].id, listed[j].id)
  {
    var listed := ListRelations(relations, subject, validAt, knownAt);
    RelationLeTotalPreorder();
    SortSorts(RelationLe, Filter(RelationPicker(subject, validAt, knownAt), relations));
    forall i, j | 0 <= i < j < |listed| ensures listed[i].id == listed[j].id || Precedes(listed[i].id, listed[j].id) {
      assert RelationLe(listed[i], listed[j]);
      OrderIsPrecedence(listed[i].id, listed[j].id);
    }
  }

  /** A relation with the same ends, type and valid start is in the table. */
  predicate Duplicate(relations: seq<Relation>, r: Relation) {
    exists old_ :: old_ in relations && old_.subject == r.subject && old_.target == r.target
                   && old_.relationType == r.relationType && old_.validFrom == r.validFrom
  }

  /** Creating a relation adds nothing for a duplicate, and otherwise the relation as asked for, known from now on. */
  lemma RelationCreatedExactly(s: State, r: Relation, now: int)
    ensures Duplicate(s.relations, r) ==> RelationCreated(s, r, true, now) == Some(s)
    ensures !Duplicate(s.relations, r) && RelationCreated(s, r, true, now).Some? ==>
              var next := RelationCreated(s, r, true, now).value;
              && next.relations == s.relations
                                   + [Relation(r.id, r.relationType, r.subject, r.target, r.properties, r.validFrom, r.validTo, now)]
              && next.facts == s.facts && next.rules == s.rules && next.edges == s.edges
    ensures RelationCreated(s, r, false, now) == None
    ensures !Duplicate(s.relations, r) && (exists old_ :: old_ in s.relations && old_.id == r.id) ==>
              RelationCreated(s, r, true, now) == None
  {
    if old_ :| old_ in s.relations && old_.id == r.id {
      var i :| 0 <= i < |s.relations| && s.relations[i] == old_;
    }
    assert RelationKnown(s.relations, r) == Duplicate(s.relations, r) by {
      if Duplicate(s.relations, r) {
        var old_ :| old_ in s.relations && old_.subject == r.subject && old_.target == r.target
                    && old_.relationType == r.relationType && old_.validFrom == r.validFrom;
        var i :| 0 <= i < |s.relations| && s.relations[i] == old_;
      }
      if RelationKnown(s.relations, r) {
        var i :| 0 <= i < |s.relations| && s.relations[i].subject == r.subject && s.relations[i].target == r.target
                 && s.relations[i].relationType == r.relationType && s.relations[i].validFrom == r.validFrom;
        assert s.relations[i] in s.relations;
      }
    }
  }

  /** What a rule sees of a relation. */
  lemma RelationShows(r: Relation)
    ensures RelationRow(r).Obj?
    ensures RelationRow(r).fields == map["id" := Str(r.id), "relation_type_code" := Str(r.relationType),
                                         "subject_id" := Str(r.subject), "object_id" := Str(r.target),
                                         "properties_json" := r.properties]
  {
  }
}
