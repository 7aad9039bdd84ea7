/** The bi-temporal fact table (knowledge_service.py, repositories.py): a correction closes the open row at its
    transaction time and appends a new one; queries filter by valid time and by transaction time. */
module FactStore {
  import opened Prelude
  import opened Text
  import opened Json
  import opened Evaluator
  import opened Sorting

  /** A row: the fact with its first known instant, and the instant it was superseded, if it was. */
  datatype FactRow = FactRow(fact: Fact, knownTo: Option<int>)

  /** A request to assert a value. An accepted observation has no valid time. The flag says that the ontology,
      type, provenance and interval checks accepted the request. */
  datatype FactWrite = FactWrite(
    subject: string, property: string, value: Json, validFrom: Option<int>, validTo: Option<int>,
    fromObservation: bool, admissible: bool)

  predicate HoldsAt(validFrom: Option<int>, validTo: Option<int>, moment: Option<int>) {
    moment.Some? ==>
      && (validFrom.Some? ==> validFrom.value <= moment.value)
      && (validTo.Some? ==> moment.value < validTo.value)
  }

  /** With an instant: known then, and not yet superseded. Without: not superseded. */
  predicate KnownAt(knownFrom: int, knownTo: Option<int>, moment: Option<int>) {
    if moment.Some? then knownFrom <= moment.value && (knownTo.Some? ==> moment.value < knownTo.value)
    else knownTo.None?
  }

  predicate FactPicked(row: FactRow, subject: Json, property: string, validAt: Option<int>) {
    && Selected(subject, row.fact.subject) && Selected(Str(property), row.fact.property)
    && HoldsAt(row.fact.validFrom, row.fact.validTo, validAt)
  }

  predicate FactLe(a: Fact, b: Fact) {
    if a.property == b.property then StrLe(a.id, b.id) else StrLe(a.property, b.property)
  }

  function FactOf(row: FactRow): Fact {
    row.fact
  }

  /** The where clause of list_facts. */
  function Picker(subject: Json, property: string, validAt: Option<int>, knownAt: Option<int>): FactRow -> bool {
    row => FactPicked(row, subject, property, validAt) && KnownAt(row.fact.knownFrom, row.knownTo, knownAt)
  }

  /** list_facts: the picked rows known at the instant, ordered by property and id. */
  function ListFacts(rows: seq<FactRow>, subject: Json, property: string, validAt: Option<int>, knownAt: Option<int>): seq<Fact> {
    Sort(FactLe, Map(FactOf, Filter(Picker(subject, property, validAt, knownAt), rows)))
  }

  predicate HasIdentity(fact: Fact, w: FactWrite) {
    fact.subject == w.subject && fact.property == w.property && fact.value == w.value && fact.validFrom == w.validFrom
  }

  /** The rows a write can replace: same subject, property and valid start. */
  predicate SameSlot(a: Fact, b: Fact) {
    a.subject == b.subject && a.property == b.property && a.validFrom == b.validFrom
  }

  /** The first listed fact with the same valid start and another value. */
  function FindReplaced(current: seq<Fact>, value: Json, validFrom: Option<int>): (r: Option<Fact>)
    ensures r.Some? ==> r.value in current && r.value.validFrom == validFrom && r.value.value != value
    ensures r.None? ==> forall f :: f in current ==> f.validFrom != validFrom || f.value == value
  {
    if current == [] then None
    else if current[0].validFrom == validFrom && current[0].value != value then Some(current[0])
    else FindReplaced(current[1..], value, validFrom)
  }

  /** close_fact_transaction. */
  function Close(rows: seq<FactRow>, id: string, now: int): (r: seq<FactRow>)
    ensures |r| == |rows|
    ensures forall i :: 0 <= i < |r| ==> r[i].fact == rows[i].fact
    ensures forall i :: 0 <= i < |r| ==>
                          r[i].knownTo == if rows[i].fact.id == id && rows[i].knownTo.None? then Some(now) else rows[i].knownTo
  {
    if rows == [] then []
    else [if rows[0].fact.id == id && rows[0].knownTo.None? then rows[0].(knownTo := Some(now)) else rows[0]]
         + Close(rows[1..], id, now)
  }

  predicate IdentityKnown(rows: seq<FactRow>, w: FactWrite) {
    exists i :: 0 <= i < |rows| && HasIdentity(rows[i].fact, w)
  }

  predicate IdUsed(rows: seq<FactRow>, id: string) {
    exists i :: 0 <= i < |rows| && rows[i].fact.id == id
  }

  /** The guards on a write; subjects and property codes are non-empty identifiers. */
  predicate Accepts(rows: seq<FactRow>, w: FactWrite, id: string) {
    && w.admissible && w.subject != "" && w.property != "" && !IdUsed(rows, id)
    && (w.fromObservation ==> w.validFrom.None? && w.validTo.None?)
  }

  function Replaced(rows: seq<FactRow>, w: FactWrite): Option<Fact> {
    FindReplaced(ListFacts(rows, Str(w.subject), w.property, None, None), w.value, w.validFrom)
  }

  function NewFact(w: FactWrite, id: string, now: int): Fact {
    Fact(id, w.subject, w.property, w.value, w.validFrom, w.validTo, now)
  }

  /** The table after an accepted write: unchanged for a known identity, otherwise the replaced row is closed and the
      new one appended. */
  function Recorded(rows: seq<FactRow>, w: FactWrite, id: string, now: int): seq<FactRow> {
    if IdentityKnown(rows, w) then rows
    else
      var before := Replaced(rows, w);
      (if before.Some? then Close(rows, before.value.id, now) else rows) + [FactRow(NewFact(w, id, now), None)]
  }

  /** What a service call at an instant does to the table: nothing, or one accepted write. */
  ghost predicate FactStep(rows: seq<FactRow>, next: seq<FactRow>, now: int) {
    next == rows || exists w, id :: Accepts(rows, w, id) && next == Recorded(rows, w, id, now)
  }

  lemma {:induction false} MapMembers<T, U>(f: T -> U, s: seq<T>)
    ensures forall u :: u in Map(f, s) <==> exists x :: x in s && u == f(x)
  {
    forall u ensures u in Map(f, s) <==> exists x :: x in s && u == f(x) {
      if u in Map(f, s) {
        var i :| 0 <= i < |Map(f, s)| && Map(f, s)[i] == u;
        assert s[i] in s && u == f(s[i]);
      }
      if x :| x in s && u == f(x) {
        var i :| 0 <= i < |s| && s[i] == x;
        assert Map(f, s)[i] == u;
      }
    }
  }

  /** A fact is listed exactly when a picked row known at the instant holds it. */
  lemma ListedExactly(rows: seq<FactRow>, subject: Json, property: string, validAt: Option<int>, knownAt: Option<int>)
    ensures forall f :: f in ListFacts(rows, subject, property, validAt, knownAt)
                        <==> exists row :: row in rows && row.fact == f && FactPicked(row, subject, property, validAt)
                                           && KnownAt(f.knownFrom, row.knownTo, knownAt)
  {
    var p := Picker(subject, property, validAt, knownAt);
    FilterMembers(p, rows);
    MapMembers(FactOf, Filter(p, rows));
    var unsorted := Map(FactOf, Filter(p, rows));
    SortPermutes(FactLe, unsorted);
    forall f ensures f in Sort(FactLe, unsorted) <==> f in unsorted {
      assert f in Sort(FactLe, unsorted) <==> f in multiset(Sort(FactLe, unsorted));
      assert f in unsorted <==> f in multiset(unsorted);
    }
  }

  predicate IsOpen(row: FactRow) {
    row.knownTo.None?
  }

  /** At most one open row per subject, property and valid start. */
  predicate SingleOpen(rows: seq<FactRow>) {
    forall i, j :: 0 <= i < |rows| && 0 <= j < |rows| && IsOpen(rows[i]) && IsOpen(rows[j])
                   && SameSlot(rows[i].fact, rows[j].fact)
                   ==> i == j
  }

  predicate DistinctIds(rows: seq<FactRow>) {
    forall i, j :: 0 <= i < |rows| && 0 <= j < |rows| && rows[i].fact.id == rows[j].fact.id ==> i == j
  }

  /** No two rows assert the same value of the same slot. */
  predicate DistinctIdentities(rows: seq<FactRow>) {
    forall i, j :: 0 <= i < |rows| && 0 <= j < |rows| && SameSlot(rows[i].fact, rows[j].fact)
                   && rows[i].fact.value == rows[j].fact.value
                   ==> i == j
  }

  predicate GoodTable(rows: seq<FactRow>) {
    SingleOpen(rows) && DistinctIds(rows) && DistinctIdentities(rows)
  }

  /** The row a write of a new value replaces is the open row of its slot, if there is one. */
  lemma ReplacedIsTheOpenRow(rows: seq<FactRow>, w: FactWrite)
    requires GoodTable(rows) && w.subject != "" && w.property != "" && !IdentityKnown(rows, w)
    ensures Replaced(rows, w).Some? ==>
              exists i :: 0 <= i < |rows| && IsOpen(rows[i]) && rows[i].fact == Replaced(rows, w).value
                          && SameSlot(rows[i].fact, NewFact(w, "", 0))
    ensures forall i :: 0 <= i < |rows| && IsOpen(rows[i]) && SameSlot(rows[i].fact, NewFact(w, "", 0)) ==>
                          Replaced(rows, w) == Some(rows[i].fact)
  {
    ListedExactly(rows, Str(w.subject), w.property, None, None);
    var listed := ListFacts(rows, Str(w.subject), w.property, None, None);
    var before := Replaced(rows, w);
    if before.Some? {
      var row :| row in rows && row.fact == before.value && FactPicked(row, Str(w.subject), w.property, None) && row.knownTo.None?;
      var i :| 0 <= i < |rows| && rows[i] == row;
      assert SameSlot(rows[i].fact, NewFact(w, "", 0));
    }
    forall i | 0 <= i < |rows| && IsOpen(rows[i]) && SameSlot(rows[i].fact, NewFact(w, "", 0))
      ensures before == Some(rows[i].fact)
    {
      assert rows[i] in rows && FactPicked(rows[i], Str(w.subject), w.property, None);
      assert rows[i].fact in listed;
      assert !HasIdentity(rows[i].fact, w);
    }
  }

  /** The update that closes a replaced fact meets exactly one open row, so it never reports a conflict. */
  lemma ReplacedClosesExactlyOne(rows: seq<FactRow>, w: FactWrite)
    requires GoodTable(rows) && w.subject != "" && w.property != "" && !IdentityKnown(rows, w) && Replaced(rows, w).Some?
    ensures exists i :: 0 <= i < |rows| && IsOpen(rows[i]) && rows[i].fact.id == Replaced(rows, w).value.id
                        && forall j :: 0 <= j < |rows| && rows[j].fact.id == rows[i].fact.id ==> j == i
  {
    ReplacedIsTheOpenRow(rows, w);
    var i :| 0 <= i < |rows| && IsOpen(rows[i]) && rows[i].fact == Replaced(rows, w).value;
  }

  /** An accepted write keeps one open version per slot. */
  lemma RecordedKeepsGood(rows: seq<FactRow>, w: FactWrite, id: string, now: int)
    requires GoodTable(rows) && Accepts(rows, w, id)
    ensures GoodTable(Recorded(rows, w, id, now))
  {
    if !IdentityKnown(rows, w) {
      ReplacedIsTheOpenRow(rows, w);
      var next, n := Recorded(rows, w, id, now), |rows|;
      assert forall i :: 0 <= i < n ==> next[i].fact == rows[i].fact && (IsOpen(next[i]) ==> IsOpen(rows[i]));
      forall i | 0 <= i < n && IsOpen(next[i]) ensures !SameSlot(next[i].fact, next[n].fact) {
        assert IsOpen(rows[i]);
      }
      forall i | 0 <= i < n ensures next[i].fact.id != id && !HasIdentity(next[i].fact, w) {
        assert rows[i].fact.id != id;
      }
    }
  }

  /** The value just written is its slot's open version exactly when no closed row already holds that identity:
      re-asserting a superseded value changes nothing. */
  lemma WrittenValueCurrentExactly(rows: seq<FactRow>, w: FactWrite, id: string, now: int)
    requires GoodTable(rows) && Accepts(rows, w, id)
    ensures (exists i :: 0 <= i < |Recorded(rows, w, id, now)| && IsOpen(Recorded(rows, w, id, now)[i])
                         && HasIdentity(Recorded(rows, w, id, now)[i].fact, w))
            <==> !(exists i :: 0 <= i < |rows| && !IsOpen(rows[i]) && HasIdentity(rows[i].fact, w))
  {
    var next := Recorded(rows, w, id, now);
    if IdentityKnown(rows, w) {
      var i :| 0 <= i < |rows| && HasIdentity(rows[i].fact, w);
      forall j | 0 <= j < |rows| && HasIdentity(rows[j].fact, w) ensures j == i {
        assert SameSlot(rows[i].fact, rows[j].fact);
      }
    } else {
      var last := |next| - 1;
      assert IsOpen(next[last]) && HasIdentity(next[last].fact, w);
    }
  }

  /** Everything in the table happened at or before the instant. */
  predicate Settled(rows: seq<FactRow>, t: int) {
    forall i :: 0 <= i < |rows| ==> rows[i].fact.knownFrom <= t && (rows[i].knownTo.Some? ==> rows[i].knownTo.value <= t)
  }

  /** later grew out of earlier by changes after the instant only. */
  predicate ContinuedAfter(earlier: seq<FactRow>, later: seq<FactRow>, t: int) {
    && |earlier| <= |later|
    && (forall i :: 0 <= i < |earlier| ==>
          && later[i].fact == earlier[i].fact
          && (later[i].knownTo == earlier[i].knownTo
              || (earlier[i].knownTo.None? && later[i].knownTo.Some? && t < later[i].knownTo.value)))
    && (forall i :: |earlier| <= i < |later| ==> t < later[i].fact.knownFrom)
  }

  lemma StepStaysSettled(rows: seq<FactRow>, next: seq<FactRow>, now: int, t: int)
    requires Settled(rows, t) && FactStep(rows, next, now) && now <= t
    ensures Settled(next, t)
  {
  }

  lemma StepContinues(earlier: seq<FactRow>, rows: seq<FactRow>, next: seq<FactRow>, now: int, t: int)
    requires ContinuedAfter(earlier, rows, t) && FactStep(rows, next, now) && t < now
    ensures ContinuedAfter(earlier, next, t)
  {
  }

  /** The rows visible at the instant are the rows that were open then. */
  lemma {:induction false} SameListing(earlier: seq<FactRow>, later: seq<FactRow>, t: int, subject: Json, property: string, validAt: Option<int>)
    requires Settled(earlier, t) && ContinuedAfter(earlier, later, t)
    ensures Map(FactOf, Filter(Picker(subject, property, validAt, Some(t)), later))
         == Map(FactOf, Filter(Picker(subject, property, validAt, None), earlier))
    decreases |later|
  {
    var open, known := Picker(subject, property, validAt, None), Picker(subject, property, validAt, Some(t));
    if earlier != [] {
      assert ContinuedAfter(earlier[1..], later[1..], t);
      SameListing(earlier[1..], later[1..], t, subject, property, validAt);
      assert known(later[0]) == open(earlier[0]);
    } else if later != [] {
      assert ContinuedAfter(earlier, later[1..], t);
      SameListing(earlier, later[1..], t, subject, property, validAt);
      assert !known(later[0]);
    }
  }

  /** The query as known at an instant, asked later, is the current query asked at that instant. */
  lemma QueryAsKnownAt(earlier: seq<FactRow>, later: seq<FactRow>, t: int, subject: Json, property: string, validAt: Option<int>)
    requires Settled(earlier, t) && ContinuedAfter(earlier, later, t)
    ensures ListFacts(later, subject, property, validAt, Some(t)) == ListFacts(earlier, subject, property, validAt, None)
  {
    SameListing(earlier, later, t, subject, property, validAt);
  }

  /** At any past instant at most one version of a slot is visible. */
  lemma OneVersionVisible(earlier: seq<FactRow>, later: seq<FactRow>, t: int, i: nat, j: nat)
    requires Settled(earlier, t) && ContinuedAfter(earlier, later, t) && SingleOpen(earlier)
    requires i < |later| && j < |later| && SameSlot(later[i].fact, later[j].fact)
    requires KnownAt(later[i].fact.knownFrom, later[i].knownTo, Some(t))
    requires KnownAt(later[j].fact.knownFrom, later[j].knownTo, Some(t))
    ensures i == j
  {
    assert i < |earlier| && j < |earlier|;
    assert IsOpen(earlier[i]) && IsOpen(earlier[j]);
  }
}
