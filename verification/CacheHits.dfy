/** What a cached answer is worth, for every reachable store and every query: exactly when it equals a fresh run, and
    what it still guarantees when a rule it lists was superseded. */
module CacheHits {
  import opened Prelude
  import opened Json
  import opened Evaluator
  import opened Rules
  import opened Sorting
  import opened Engine
  import opened EngineProofs
  import opened Outlines
  import opened Report
  import opened RuleStore
  import opened RuleStoreProofs
  import opened Core
  import opened CacheProofs

  function TracedRule(t: RuleTrace): RuleRef {
    t.rule
  }

  /** The rules an answer has a trace for. */
  function Traced(run: Run): seq<RuleRef> {
    Map(TracedRule, run.traces)
  }

  function ActiveRefs(rules: seq<Rule>): seq<RuleRef> {
    if rules == [] then []
    else (if rules[0].status == Active then [RefOf(rules[0])] else []) + ActiveRefs(rules[1..])
  }

  /** The rules a fresh run would trace: the listed rules that are active now, in engine order. */
  function ActiveNow(s: State, q: Query): seq<RuleRef> {
    ActiveRefs(OrderedRules(RulesFor(s, q.context)))
  }

  lemma {:induction false} TracesNameActive(traces: seq<RuleTrace>, rules: seq<Rule>, data: Data)
    requires TracesFit(traces, rules, data)
    ensures Map(TracedRule, traces) == ActiveRefs(rules)
  {
    if rules != [] {
      if rules[0].status == Active {
        TracesNameActive(traces[1..], rules[1..], data);
      } else {
        TracesNameActive(traces, rules[1..], data);
      }
    }
  }

  /** A run has one trace for each active rule. */
  lemma RunTracesActive(rules: seq<Rule>, data: Data)
    requires RunEngine(rules, data).Ok?
    ensures Traced(RunEngine(rules, data).value) == ActiveRefs(OrderedRules(rules))
  {
    ReportExact(rules, data);
    TracesNameActive(RunEngine(rules, data).value.traces, OrderedRules(rules), data);
  }

  lemma {:induction false} ActiveRefsOfShown(rules: seq<Rule>, live: set<string>)
    ensures forall r :: r in rules && r.id in live ==> RefOf(r) in ActiveRefs(Map(ShownAs(live), rules))
    ensures forall ref :: ref in ActiveRefs(Map(ShownAs(live), rules)) ==> ref.id in live
  {
    if rules != [] {
      assert Map(ShownAs(live), rules)[1..] == Map(ShownAs(live), rules[1..]);
      ActiveRefsOfShown(rules[1..], live);
      assert RefOf(Shown(rules[0], true)) == RefOf(rules[0]);
    }
  }

  lemma ShownOrdered(rules: seq<Rule>, live: set<string>)
    ensures OrderedRules(Map(ShownAs(live), rules)) == Map(ShownAs(live), OrderedRules(rules))
  {
    SortMap(RuleLe, ShownAs(live), rules);
  }

  lemma SameLiveSameRules(rules: seq<Rule>, a: set<string>, b: set<string>)
    requires forall r :: r in rules ==> (r.id in a <==> r.id in b)
    ensures Map(ShownAs(a), rules) == Map(ShownAs(b), rules)
  {
    forall i | 0 <= i < |rules| ensures Map(ShownAs(a), rules)[i] == Map(ShownAs(b), rules)[i] {
      assert rules[i] in rules;
    }
  }

  /** Equal traces mean that the same rules were live. */
  lemma SameTracesSameLive(rules: seq<Rule>, a: set<string>, b: set<string>, r: Rule)
    requires ActiveRefs(Map(ShownAs(a), rules)) == ActiveRefs(Map(ShownAs(b), rules)) && r in rules
    ensures r.id in a <==> r.id in b
  {
    ActiveRefsOfShown(rules, a);
    ActiveRefsOfShown(rules, b);
    assert RefOf(r).id == r.id;
  }

  lemma SameActiveSameRules(rules: seq<Rule>, live: set<string>, now: set<string>)
    requires ActiveRefs(Map(ShownAs(live), OrderedRules(rules))) == ActiveRefs(Map(ShownAs(now), OrderedRules(rules)))
    ensures Map(ShownAs(live), rules) == Map(ShownAs(now), rules)
  {
    SortKeeps(RuleLe, rules);
    forall r | r in rules ensures r.id in live <==> r.id in now {
      SameTracesSameLive(OrderedRules(rules), live, now, r);
    }
    SameLiveSameRules(rules, live, now);
  }

  lemma TracesShown(rules: seq<Rule>, live: set<string>, data: Data)
    requires RunEngine(Map(ShownAs(live), rules), data).Ok?
    ensures Traced(RunEngine(Map(ShownAs(live), rules), data).value) == ActiveRefs(Map(ShownAs(live), OrderedRules(rules)))
  {
    RunTracesActive(Map(ShownAs(live), rules), data);
    ShownOrdered(rules, live);
  }

  /** The same rules with other live ones run to the same result exactly when the traces name those others. */
  lemma SameRunExactly(rules: seq<Rule>, live: set<string>, now: set<string>, data: Data, kept: Run)
    requires RunEngine(Map(ShownAs(live), rules), data) == Ok(kept)
    ensures RunEngine(Map(ShownAs(now), rules), data) == Ok(kept)
            <==> Traced(kept) == ActiveRefs(Map(ShownAs(now), OrderedRules(rules)))
  {
    TracesShown(rules, live, data);
    if RunEngine(Map(ShownAs(now), rules), data) == Ok(kept) {
      TracesShown(rules, now, data);
    }
    if Traced(kept) == ActiveRefs(Map(ShownAs(now), OrderedRules(rules))) {
      SameActiveSameRules(rules, live, now);
    }
  }

  predicate Hits(s: State, q: Query, newId: string) {
    Evaluated(s, q, true, newId).Some? && Evaluated(s, q, true, newId).value.0.Cached?
  }

  function Hit(s: State, q: Query, newId: string): Run
    requires Hits(s, q, newId)
  {
    Evaluated(s, q, true, newId).value.0.result
  }

  /** Every selector an effect value of a matched rule reads is covered by one the hit recorded. */
  predicate CoveredHit(s: State, q: Query, newId: string)
    requires Hits(s, q, newId)
  {
    ReadsCovered(RulesFor(s, q.context), Hit(s, q, newId))
  }

  /** Two queries share a stored result exactly when they agree on type, applicant and context and list the same rules in the
      same versions, under one ontology. */
  lemma KeysAgreeExactly(s: State, q: Query, t: State, p: Query)
    ensures KeyOf(s, q).engine == "engine-0.1.0"
    ensures KeyOf(s, q) == KeyOf(t, p)
            <==> && q == p && s.ontology == t.ontology
                 && |RulesFor(s, q.context)| == |RulesFor(t, p.context)|
                 && forall i :: 0 <= i < |RulesFor(s, q.context)| ==>
                                  && RulesFor(s, q.context)[i].id == RulesFor(t, p.context)[i].id
                                  && RulesFor(s, q.context)[i].version == RulesFor(t, p.context)[i].version
  {
    var a, b := Map(VersionOf, RulesFor(s, q.context)), Map(VersionOf, RulesFor(t, p.context));
    if |a| == |b| && forall i :: 0 <= i < |a| ==> a[i].0 == b[i].0 && a[i].1 == b[i].1 {
      assert a == b;
    }
    if a == b {
      forall i | 0 <= i < |a| ensures a[i].0 == b[i].0 && a[i].1 == b[i].1 {
      }
    }
  }

  /** The data a query reads. */
  function Snapshot(s: State, q: Query): Data {
    DataFor(s.facts, s.relations, q.applicant, q.context)
  }

  lemma WithoutEffectsShown(rules: seq<Rule>, live: set<string>)
    ensures Map(WithoutEffects, Map(ShownAs(live), rules)) == Map(ShownAs(live), Map(WithoutEffects, rules))
  {
  }

  /** A hit is the run of the listed rules as they stood when it was stored, on the current data: its outline always, and
      all of it when its reads are covered. */
  lemma HitComesFrom(s: State, q: Query, newId: string) returns (live: set<string>)
    requires Invariant(s) && Hits(s, q, newId)
    ensures RunEngine(Map(ShownAs(live), Map(WithoutEffects, RulesFor(s, q.context))), Snapshot(s, q))
         == Ok(Outline(Hit(s, q, newId)))
    ensures CoveredHit(s, q, newId) ==>
              RunEngine(Map(ShownAs(live), RulesFor(s, q.context)), Snapshot(s, q)) == Ok(Hit(s, q, newId))
    ensures forall r :: r in RulesFor(s, q.context) ==> Since(r, live, q.context)
  {
    var row := s.derived[FindDerived(s.derived, KeyOf(s, q)).value];
    KeyNamesListed(s, q);
    assert Coherent(row, s.facts, s.relations, s.rules, s.edges);
    live :| ComputedFrom(row, live, s.facts, s.relations, s.rules);
    WithoutEffectsShown(RulesFor(s, q.context), live);
  }

  /** The fresh run is the run of the listed rules as they stand now, and so is its outline. */
  lemma FreshComesFrom(s: State, q: Query)
    requires GoodRules(s.rules) && InstantsReadable(q.context)
    ensures FreshRun(s, q) == RunEngine(Map(ShownAs(LiveNow(s, q)), RulesFor(s, q.context)), Snapshot(s, q))
    ensures FreshRun(s, q).Ok? ==>
              RunEngine(Map(ShownAs(LiveNow(s, q)), Map(WithoutEffects, RulesFor(s, q.context))), Snapshot(s, q))
              == Ok(Outline(FreshRun(s, q).value))
  {
    KeyNamesListed(s, q);
    FreshRunUsesKeyRules(s, q);
    if FreshRun(s, q).Ok? {
      EngineOutline(Map(ShownAs(LiveNow(s, q)), RulesFor(s, q.context)), Snapshot(s, q));
      WithoutEffectsShown(RulesFor(s, q.context), LiveNow(s, q));
    }
  }

  lemma {:induction false} ActiveRefsOfView(rules: seq<Rule>, live: set<string>)
    requires forall r :: r in rules ==> (r.id in live <==> r.status == Active)
    ensures ActiveRefs(Map(ShownAs(live), rules)) == ActiveRefs(rules)
  {
    if rules != [] {
      assert rules[0] in rules;
      assert Map(ShownAs(live), rules)[1..] == Map(ShownAs(live), rules[1..]);
      ActiveRefsOfView(rules[1..], live);
    }
  }

  lemma ActiveNowIsShown(s: State, q: Query)
    requires GoodRules(s.rules)
    ensures ActiveNow(s, q) == ActiveRefs(Map(ShownAs(LiveNow(s, q)), OrderedRules(RulesFor(s, q.context))))
  {
    SortKeeps(RuleLe, RulesFor(s, q.context));
    forall r | r in OrderedRules(RulesFor(s, q.context)) ensures r.id in LiveNow(s, q) <==> r.status == Active {
      LiveNowExactly(s, q, r);
    }
    ActiveRefsOfView(OrderedRules(RulesFor(s, q.context)), LiveNow(s, q));
  }

  /** A covered hit equals a fresh run exactly when its traces name the rules that are active now. */
  lemma HitIsFreshExactly(s: State, q: Query, newId: string)
    requires Invariant(s) && Hits(s, q, newId) && CoveredHit(s, q, newId)
    ensures FreshRun(s, q) == Ok(Hit(s, q, newId)) <==> Traced(Hit(s, q, newId)) == ActiveNow(s, q)
  {
    var live := HitComesFrom(s, q, newId);
    FreshComesFrom(s, q);
    ActiveNowIsShown(s, q);
    SameRunExactly(RulesFor(s, q.context), live, LiveNow(s, q), Snapshot(s, q), Hit(s, q, newId));
  }

  lemma {:induction false} ActiveRefsWithoutEffects(rules: seq<Rule>)
    ensures ActiveRefs(Map(WithoutEffects, rules)) == ActiveRefs(rules)
  {
    if rules != [] {
      assert Map(WithoutEffects, rules)[1..] == Map(WithoutEffects, rules[1..]);
      ActiveRefsWithoutEffects(rules[1..]);
    }
  }

  lemma OrderedWithoutEffects(rules: seq<Rule>, now: set<string>)
    ensures ActiveRefs(Map(ShownAs(now), OrderedRules(Map(WithoutEffects, rules))))
         == ActiveRefs(Map(ShownAs(now), OrderedRules(rules)))
  {
    SortMap(RuleLe, WithoutEffects, rules);
    WithoutEffectsShown(OrderedRules(rules), now);
    ActiveRefsWithoutEffects(Map(ShownAs(now), OrderedRules(rules)));
  }

  lemma OutlineTraces(run: Run)
    ensures Traced(Outline(run)) == Traced(run)
  {
  }

  /** For every hit, whatever its effect values read: it has the outline of a fresh run (the rules matched and considered,
      the traces up to their effects, the dependencies) exactly when its traces name the rules that are active now. */
  lemma OutlineIsFreshExactly(s: State, q: Query, newId: string)
    requires Invariant(s) && Hits(s, q, newId) && FreshRun(s, q).Ok?
    ensures Outline(FreshRun(s, q).value) == Outline(Hit(s, q, newId)) <==> Traced(Hit(s, q, newId)) == ActiveNow(s, q)
  {
    var live := HitComesFrom(s, q, newId);
    FreshComesFrom(s, q);
    ActiveNowIsShown(s, q);
    var outlined := Map(WithoutEffects, RulesFor(s, q.context));
    SameRunExactly(outlined, live, LiveNow(s, q), Snapshot(s, q), Outline(Hit(s, q, newId)));
    OrderedWithoutEffects(RulesFor(s, q.context), LiveNow(s, q));
    OutlineTraces(Hit(s, q, newId));
  }

  /** No listed rule is both active and closed: a rule that was superseded was not activated again. */
  predicate NoneReactivated(s: State, q: Query) {
    forall r :: r in RulesFor(s, q.context) && r.status == Active ==> r.knownTo.None?
  }

  /** The listed rules that are not active. */
  function Gone(s: State, q: Query): set<RuleRef> {
    set r | r in RulesFor(s, q.context) && r.status != Active :: RefOf(r)
  }

  function NotOf(gone: set<RuleRef>): RuleTrace -> bool {
    (t: RuleTrace) => t.rule !in gone
  }

  /** Two runs with the same effects, dependencies and versions, whose traces differ by scope mismatches of some rules. */
  predicate DifferByMismatches(kept: Run, anew: Run, gone: set<RuleRef>) {
    && anew == kept.(traces := anew.traces)
    && anew.traces == Filter(NotOf(gone), kept.traces)
    && forall t :: t in kept.traces && t.rule in gone ==> t.ScopeMismatch?
  }

  /** A rule that was live then and is not now does not apply; the others kept their standing. */
  predicate StandsAlike(r: Rule, live: set<string>, now: set<string>, gone: set<RuleRef>, context: Document) {
    && (r.id in now ==> r.id in live && RefOf(r) !in gone)
    && (r.id in live && r.id !in now ==> RefOf(r) in gone && !ScopeMatches(r.scope, context))
  }

  lemma RuleRunsAlike(a: Run, b: Run, rule: Rule, live: set<string>, now: set<string>, gone: set<RuleRef>, data: Data)
    requires DifferByMismatches(a, b, gone) && StandsAlike(rule, live, now, gone, data.context)
    requires RunRule(a, Shown(rule, rule.id in live), data).Ok?
    ensures RunRule(b, Shown(rule, rule.id in now), data).Ok?
    ensures DifferByMismatches(RunRule(a, Shown(rule, rule.id in live), data).value,
                               RunRule(b, Shown(rule, rule.id in now), data).value, gone)
  {
    var nextA, nextB := RunRule(a, Shown(rule, rule.id in live), data).value, RunRule(b, Shown(rule, rule.id in now), data);
    assert RefOf(Shown(rule, true)) == RefOf(rule);
    if rule.id in live {
      var t := nextA.traces[|a.traces|];
      assert nextA.traces == a.traces + [t] && t.rule == RefOf(rule);
      FilterAppend(NotOf(gone), a.traces, [t]);
      assert [t][1..] == [];
      assert Filter(NotOf(gone), [t]) == if t.rule in gone then [] else [t];
    }
  }

  lemma {:induction false} RulesRunAlike(a: Run, b: Run, rules: seq<Rule>, live: set<string>, now: set<string>, gone: set<RuleRef>, data: Data)
    requires DifferByMismatches(a, b, gone)
    requires forall r :: r in rules ==> StandsAlike(r, live, now, gone, data.context)
    requires RunRules(a, Map(ShownAs(live), rules), data).Ok?
    ensures RunRules(b, Map(ShownAs(now), rules), data).Ok?
    ensures DifferByMismatches(RunRules(a, Map(ShownAs(live), rules), data).value,
                               RunRules(b, Map(ShownAs(now), rules), data).value, gone)
    decreases |rules|
  {
    if rules != [] {
      assert rules[0] in rules;
      assert Map(ShownAs(live), rules)[1..] == Map(ShownAs(live), rules[1..]);
      assert Map(ShownAs(now), rules)[1..] == Map(ShownAs(now), rules[1..]);
      RuleRunsAlike(a, b, rules[0], live, now, gone, data);
      RulesRunAlike(RunRule(a, Shown(rules[0], rules[0].id in live), data).value,
                    RunRule(b, Shown(rules[0], rules[0].id in now), data).value, rules[1..], live, now, gone, data);
    }
  }

  lemma ListedStandAlike(s: State, q: Query, live: set<string>, r: Rule)
    requires GoodRules(s.rules) && NoneReactivated(s, q) && r in RulesFor(s, q.context) && Since(r, live, q.context)
    ensures StandsAlike(r, live, LiveNow(s, q), Gone(s, q), q.context)
  {
    LiveNowExactly(s, q, r);
    KeyNamesListed(s, q);
  }

  lemma AllStandAlike(s: State, q: Query, live: set<string>)
    requires GoodRules(s.rules) && NoneReactivated(s, q)
    requires forall r :: r in RulesFor(s, q.context) ==> Since(r, live, q.context)
    ensures forall r :: r in RulesFor(s, q.context) ==> StandsAlike(r, live, LiveNow(s, q), Gone(s, q), q.context)
  {
    forall r | r in RulesFor(s, q.context) ensures StandsAlike(r, live, LiveNow(s, q), Gone(s, q), q.context) {
      ListedStandAlike(s, q, live, r);
    }
  }

  lemma RunsStandAlike(rules: seq<Rule>, live: set<string>, now: set<string>, gone: set<RuleRef>, data: Data, kept: Run)
    requires RunEngine(Map(ShownAs(live), rules), data) == Ok(kept)
    requires forall r :: r in rules ==> StandsAlike(r, live, now, gone, data.context)
    ensures RunEngine(Map(ShownAs(now), rules), data).Ok?
    ensures DifferByMismatches(kept, RunEngine(Map(ShownAs(now), rules), data).value, gone)
  {
    ShownOrdered(rules, live);
    ShownOrdered(rules, now);
    SortKeeps(RuleLe, rules);
    RulesRunAlike(START, START, OrderedRules(rules), live, now, gone, data);
  }

  /** Unless a superseded rule was activated again, a covered hit has the effects, dependencies, matched rules and
      versions of a fresh run, and its traces add only scope mismatches of listed rules that were superseded since. */
  lemma HitKeepsValues(s: State, q: Query, newId: string)
    requires Invariant(s) && Hits(s, q, newId) && CoveredHit(s, q, newId) && NoneReactivated(s, q)
    ensures FreshRun(s, q).Ok? && DifferByMismatches(Hit(s, q, newId), FreshRun(s, q).value, Gone(s, q))
  {
    var live := HitComesFrom(s, q, newId);
    FreshComesFrom(s, q);
    AllStandAlike(s, q, live);
    RunsStandAlike(RulesFor(s, q.context), live, LiveNow(s, q), Gone(s, q), Snapshot(s, q), Hit(s, q, newId));
  }

  lemma OutlinedStandAlike(rules: seq<Rule>, live: set<string>, now: set<string>, gone: set<RuleRef>, context: Document)
    requires forall r :: r in rules ==> StandsAlike(r, live, now, gone, context)
    ensures forall r :: r in Map(WithoutEffects, rules) ==> StandsAlike(r, live, now, gone, context)
  {
    var outlined := Map(WithoutEffects, rules);
    forall r | r in outlined ensures StandsAlike(r, live, now, gone, context) {
      var i :| 0 <= i < |outlined| && outlined[i] == r;
      assert rules[i] in rules && RefOf(r) == RefOf(rules[i]) && r.scope == rules[i].scope && r.id == rules[i].id;
    }
  }

  /** The same of the outline of every hit. */
  lemma HitKeepsOutline(s: State, q: Query, newId: string)
    requires Invariant(s) && Hits(s, q, newId) && NoneReactivated(s, q) && FreshRun(s, q).Ok?
    ensures DifferByMismatches(Outline(Hit(s, q, newId)), Outline(FreshRun(s, q).value), Gone(s, q))
  {
    var live := HitComesFrom(s, q, newId);
    FreshComesFrom(s, q);
    AllStandAlike(s, q, live);
    OutlinedStandAlike(RulesFor(s, q.context), live, LiveNow(s, q), Gone(s, q), q.context);
    RunsStandAlike(Map(WithoutEffects, RulesFor(s, q.context)), live, LiveNow(s, q), Gone(s, q), Snapshot(s, q),
                   Outline(Hit(s, q, newId)));
  }

  // ---- every reachable store ----

  /** A query without known_at lists only rules in force. */
  lemma CurrentListsInForce(s: State, q: Query)
    requires KnownAtOf(q.context).None?
    ensures forall r :: r in RulesFor(s, q.context) ==> InForce(r)
    ensures NoneReactivated(s, q) && Gone(s, q) == {}
  {
    ActiveRulesExactly(s.rules, ValidAtOf(q.context), None);
  }

  lemma {:induction false} NothingGone(traces: seq<RuleTrace>)
    ensures Filter(NotOf({}), traces) == traces
  {
    if traces != [] {
      NothingGone(traces[1..]);
    }
  }

  /** Cache coherence: after any run of service calls from the empty store, a cached answer to a query without known_at,
      whose matched rules' effect values read nothing that is not covered, is the engine's answer on the current facts,
      relations and rules: values, traces, matched rules, versions and dependencies. */
  lemma CacheIsCoherent(ontology: string, calls: seq<Call>, q: Query, newId: string)
    requires var s := RunCalls(Init(ontology), calls);
             KnownAtOf(q.context).None? && Hits(s, q, newId) && CoveredHit(s, q, newId)
    ensures var s := RunCalls(Init(ontology), calls); FreshRun(s, q) == Ok(Hit(s, q, newId))
  {
    RunsKeepInvariant(Init(ontology), calls);
    var s := RunCalls(Init(ontology), calls);
    CurrentListsInForce(s, q);
    HitKeepsValues(s, q, newId);
    NothingGone(Hit(s, q, newId).traces);
  }

  /** Historical queries: a cached answer equals a fresh run exactly when its traces name the rules active now; and unless
      a superseded rule was activated again the two differ at most by scope mismatches of superseded rules. */
  lemma HistoricalHits(ontology: string, calls: seq<Call>, q: Query, newId: string)
    requires var s := RunCalls(Init(ontology), calls); Hits(s, q, newId) && CoveredHit(s, q, newId)
    ensures var s := RunCalls(Init(ontology), calls);
            && (FreshRun(s, q) == Ok(Hit(s, q, newId)) <==> Traced(Hit(s, q, newId)) == ActiveNow(s, q))
            && (NoneReactivated(s, q) ==>
                  FreshRun(s, q).Ok? && DifferByMismatches(Hit(s, q, newId), FreshRun(s, q).value, Gone(s, q)))
  {
    RunsKeepInvariant(Init(ontology), calls);
    var s := RunCalls(Init(ontology), calls);
    HitIsFreshExactly(s, q, newId);
    if NoneReactivated(s, q) {
      HitKeepsValues(s, q, newId);
    }
  }

  /** Every hit in every reachable store, whatever its effect values read: without known_at only the effects can be out of
      date; with it the outline is fresh exactly when the traces name the rules active now, and otherwise, unless a
      superseded rule was activated again, differs by scope mismatches of superseded rules. */
  lemma OutlinesStayFresh(ontology: string, calls: seq<Call>, q: Query, newId: string)
    requires var s := RunCalls(Init(ontology), calls); Hits(s, q, newId) && FreshRun(s, q).Ok?
    ensures var s := RunCalls(Init(ontology), calls);
            var kept, anew := Outline(Hit(s, q, newId)), Outline(FreshRun(s, q).value);
            && (KnownAtOf(q.context).None? ==> anew == kept)
            && (anew == kept <==> Traced(Hit(s, q, newId)) == ActiveNow(s, q))
            && (NoneReactivated(s, q) ==> DifferByMismatches(kept, anew, Gone(s, q)))
  {
    RunsKeepInvariant(Init(ontology), calls);
    var s := RunCalls(Init(ontology), calls);
    OutlineIsFreshExactly(s, q, newId);
    if NoneReactivated(s, q) {
      HitKeepsOutline(s, q, newId);
    }
    if KnownAtOf(q.context).None? {
      CurrentListsInForce(s, q);
      HitKeepsOutline(s, q, newId);
      NothingGone(Outline(Hit(s, q, newId)).traces);
    }
  }
}
