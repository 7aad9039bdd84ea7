/** When the overlap test of the activation guard sees every pair of scopes that can apply together. */
module ScopeProofs {
  import opened Json
  import opened Rules

  /** Some value meets the expectation. */
  predicate Satisfiable(v: Json)
    decreases v
  {
    match v
    case Arr(items) => items != []
    case Obj(fields) => forall key :: key in fields ==> Satisfiable(fields[key])
    case _ => true
  }

  /** Decides, from the two expectations alone, whether one value can meet both. */
  predicate CanBothMatch(l: Json, r: Json)
    decreases l
  {
    if l.Arr? && r.Arr? then Intersects(l.items, r.items)
    else if l.Arr? then exists x :: x in l.items && ValueMatches(r, x)
    else if r.Arr? then exists x :: x in r.items && ValueMatches(l, x)
    else if l.Obj? && r.Obj? then
      && (forall key :: key in l.fields ==>
            if key in r.fields then CanBothMatch(l.fields[key], r.fields[key]) else Satisfiable(l.fields[key]))
      && (forall key :: key in r.fields && key !in l.fields ==> Satisfiable(r.fields[key]))
    else l == r
  }

  /** A value that meets a satisfiable expectation. */
  ghost function Example(v: Json): (a: Json)
    requires Satisfiable(v)
    ensures ValueMatches(v, a)
    decreases v
  {
    match v
    case Arr(items) => items[0]
    case Obj(fields) => Obj(map key | key in fields :: Example(fields[key]))
    case _ => v
  }

  /** A value that meets both expectations when they can be met together. */
  ghost function JointExample(l: Json, r: Json): (a: Json)
    requires CanBothMatch(l, r)
    ensures ValueMatches(l, a) && ValueMatches(r, a)
    decreases l
  {
    if l.Arr? && r.Arr? then
      var x :| x in l.items && x in r.items;
      x
    else if l.Arr? then
      var x :| x in l.items && ValueMatches(r, x);
      x
    else if r.Arr? then
      var x :| x in r.items && ValueMatches(l, x);
      x
    else if l.Obj? && r.Obj? then
      Obj(map key | key in l.fields.Keys + r.fields.Keys ::
            if key !in l.fields then Example(r.fields[key])
            else if key !in r.fields then Example(l.fields[key])
            else JointExample(l.fields[key], r.fields[key]))
    else l
  }

  lemma {:induction false} MatchedIsSatisfiable(v: Json, a: Json)
    requires ValueMatches(v, a)
    ensures Satisfiable(v)
    decreases v
  {
    if v.Obj? {
      forall key | key in v.fields ensures Satisfiable(v.fields[key]) {
        if a.Obj? {
          MatchedIsSatisfiable(v.fields[key], Get(a.fields, key));
        } else {
          assert false;
        }
      }
    }
  }

  lemma {:induction false} MatchedTogether(l: Json, r: Json, a: Json)
    requires ValueMatches(l, a) && ValueMatches(r, a)
    ensures CanBothMatch(l, r)
    decreases l
  {
    if l.Obj? && r.Obj? && a.Obj? {
      forall key | key in l.fields
        ensures if key in r.fields then CanBothMatch(l.fields[key], r.fields[key]) else Satisfiable(l.fields[key])
      {
        if key in r.fields {
          MatchedTogether(l.fields[key], r.fields[key], Get(a.fields, key));
        } else {
          MatchedIsSatisfiable(l.fields[key], Get(a.fields, key));
        }
      }
      forall key | key in r.fields && key !in l.fields ensures Satisfiable(r.fields[key]) {
        MatchedIsSatisfiable(r.fields[key], Get(a.fields, key));
      }
    }
  }

  /** Two scopes apply to a common context exactly when the decision procedure says so. */
  lemma CanBothMatchDecides(l: Document, r: Document)
    ensures CanBothMatch(Obj(l), Obj(r)) <==> exists context :: ScopeMatches(l, context) && ScopeMatches(r, context)
  {
    if CanBothMatch(Obj(l), Obj(r)) {
      var a := JointExample(Obj(l), Obj(r));
      assert a.Obj?;
      assert ScopeMatches(l, a.fields) && ScopeMatches(r, a.fields);
    }
    if context :| ScopeMatches(l, context) && ScopeMatches(r, context) {
      MatchedTogether(Obj(l), Obj(r), Obj(context));
    }
  }

  /** A shared key on which the two scopes differ without both holding lists: the overlap test answers "disjoint"
      from plain inequality there. */
  predicate ComparedByInequality(l: Document, r: Document, key: string) {
    key in l && key in r && !(l[key].Arr? && r[key].Arr?) && l[key] != r[key]
  }

  /** The overlap test misses a pair of scopes that share a context exactly when the scopes can match together and
      some shared key is compared by plain inequality. */
  lemma OverlapMissesExactly(l: Document, r: Document)
    ensures (exists context :: ScopeMatches(l, context) && ScopeMatches(r, context) && !ScopesOverlap(l, r))
            <==> CanBothMatch(Obj(l), Obj(r)) && exists key :: ComparedByInequality(l, r, key)
  {
    CanBothMatchDecides(l, r);
    if CanBothMatch(Obj(l), Obj(r)) {
      if key :| ComparedByInequality(l, r, key) {
        assert !ScopesOverlap(l, r);
      }
      if !ScopesOverlap(l, r) {
        var key :| key in l && key in r && !(if l[key].Arr? && r[key].Arr? then Intersects(l[key].items, r[key].items)
                                             else l[key] == r[key]);
        assert CanBothMatch(l[key], r[key]);
        assert ComparedByInequality(l, r, key);
      }
    }
  }

  predicate IsScalar(v: Json) {
    !v.Arr? && !v.Obj?
  }

  /** Shared keys hold lists on both sides or scalars on both sides. */
  predicate SameShape(l: Document, r: Document) {
    forall key :: key in l && key in r ==> (l[key].Arr? && r[key].Arr?) || (IsScalar(l[key]) && IsScalar(r[key]))
  }

  /** For same-shape scopes the guard never misses: scopes that match one context overlap. */
  lemma SameShapeScopesOverlap(l: Document, r: Document, context: Document)
    requires SameShape(l, r) && ScopeMatches(l, context) && ScopeMatches(r, context)
    ensures ScopesOverlap(l, r)
  {
    forall key | key in l && key in r
      ensures if l[key].Arr? && r[key].Arr? then Intersects(l[key].items, r[key].items) else l[key] == r[key]
    {
      assert ValueMatches(l[key], Get(context, key)) && ValueMatches(r[key], Get(context, key));
    }
  }
}
