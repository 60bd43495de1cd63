/** A failure domain that an evaluation binds and no constraint names: its later notices do not reach the path. */
module UnnamedDomain {
  import opened Base
  import opened Model
  import opened Evidence
  import opened Views
  import opened Findings
  import opened RuntimeState
  import opened RuntimeRuns
  import opened RuntimeIndexes
  import opened Watermarks
  import opened Legality
  import opened Resolution
  import opened Reads
  import opened Publication
  import opened Evaluation
  import opened Currentness
  import opened Scenarios
  import PathShape
  import Rules

  // ---- every domain of a hop is bound -----------------------------------------------------------------

  lemma {:induction false} RefsMember(hops: seq<PathElement>, h: PathElement)
    requires h in hops
    ensures h.Ref() in RefsOf(hops)
  {
    if h != hops[0] { RefsMember(hops[1..], h); }
  }

  /** The first of the elements that are asked for under one key is read. */
  lemma {:induction false} FirstAskedMember(es: seq<ElementRef>, cached: set<string>, e: ElementRef)
    requires e in es && ElementKey(e) !in cached
    ensures e in FirstAsked(es, cached)
  {
    hide ElementKey;
    if ElementKey(es[0]) == ElementKey(e) {
      PathShape.ElementKeyInjective(es[0], e);
    } else {
      FirstAskedMember(es[1..], cached + {ElementKey(es[0])}, e);
    }
  }

  lemma DomainIsRead(i: Inputs, h: PathElement, d: string)
    requires DomainStageNeeded(i) && h in i.path.hops && d in i.MembersOf(h.Ref())
    ensures EvidenceEntry(FailureDomain, DomainSubject(d), DomainGeneration(i.views, d)) in AllReads(i)
  {
    hide RefsOf, CapabilityPairs, Rules.CombineRules, ElementKey, Each, ScalarReads, UnderlyingReads, MembershipReads,
      FirstAsked, DomainGeneration;
    var e := EvidenceEntry(FailureDomain, DomainSubject(d), DomainGeneration(i.views, d));
    RefsMember(i.path.hops, h);
    FirstAskedMember(Asked(i), {}, h.Ref());
    MembershipHolds(i, h.Ref(), d);
    EachMember(FirstAsked(Asked(i), {}), r => MembershipReads(i, r), e);
  }

  lemma MembershipHolds(i: Inputs, r: ElementRef, d: string)
    requires d in i.MembersOf(r)
    ensures EvidenceEntry(FailureDomain, DomainSubject(d), DomainGeneration(i.views, d)) in MembershipReads(i, r)
  {
    hide DomainGeneration, MembershipGeneration;
    var e := EvidenceEntry(FailureDomain, DomainSubject(d), DomainGeneration(i.views, d));
    EachMember(i.MembersOf(r), x => DomainReads(i.views, x), e);
    assert e in DomainReads(i.views, d);
  }

  lemma DomainIsBound(i: Inputs, h: PathElement, d: string)
    requires !Overflows(i) && DomainStageNeeded(i) && h in i.path.hops && d in i.MembersOf(h.Ref())
    ensures exists e :: e in EvidenceOf(i) && KeyOf(e) == (FailureDomain, DomainSubject(d))
  {
    hide AllReads, SetAll, LastSet, PutAll, DomainStageNeeded, KeySet;
    var k := (FailureDomain, DomainSubject(d));
    var e := EvidenceEntry(FailureDomain, DomainSubject(d), DomainGeneration(i.views, d));
    DomainIsRead(i, h, d);
    KeySetHolds(AllReads(i), e);
    LastSetIsKeySet(AllReads(i), k);
    SetAllWithoutOverflow([], AllReads(i), i.limits);
    EmptyCanonical();
    PutAllFind([], AllReads(i), k);
    FindSome(EvidenceOf(i), k);
  }

  lemma KeySetHolds(es: seq<EvidenceEntry>, e: EvidenceEntry)
    requires e in es
    ensures KeyOf(e) in KeySet(es)
  {
  }

  // ---- which notices reach the path ---------------------------------------------------------------------

  predicate Names(s: ConstraintSet, d: string) { exists c :: c in s.failureDomains && c.domain == d }

  lemma {:induction false} NamedDomainsAre(cs: seq<DomainConstraint>, d: string)
    requires d != ""
    ensures d in NamedDomains(cs) <==> exists c :: c in cs && c.domain == d
  {
    if cs != [] {
      NamedDomainsAre(cs[1..], d);
      assert forall c :: c in cs <==> c == cs[0] || c in cs[1..];
    }
  }

  lemma FiledDomains(i: Inputs, sets: map<string, ConstraintSet>, d: string)
    requires i.path.constraintSet in sets && sets[i.path.constraintSet] == i.constraints && d != ""
    ensures d in DependenciesOf(i.path, sets, i.policy, i.limits).domains <==> Names(i.constraints, d)
  {
    hide Rules.CombineRules, RefsOf, CapabilityPairs, NamedDomains, MembershipSubjects;
    var rules := Rules.CombineRules(i.constraints, i.policy, i.limits);
    Rules.RulesKeepEveryRequirement(i.constraints, i.policy, i.limits, rules);
    NamedDomainsAre(rules.failureDomains, d);
  }

  /**
   * An evaluation has just left its path authorized, and one of its hops is a member of a domain. A notice that
   * gives the domain another generation than the path binds withdraws the authority exactly when a constraint of the
   * set names the domain.
   */
  lemma DomainNoticeReachesNamedDomains(rt: Runtime, c: Config, w: World, p: PathDefinition, request: EvaluationRequest,
      h: PathElement, d: string, generation: u64)
    requires Usable(rt, w) && IndexesAgree(rt) && Evaluate(rt, c, w, p, request).1.committed
    requires p.constraintSet in rt.sets && ResolveUnderlying(rt, p, c.limits).Some?
    requires var i := InputsFor(rt, c.limits, w, p, ResolveUnderlying(rt, p, c.limits).value);
             !Overflows(i) && DomainStageNeeded(i) && h in p.hops && d in i.MembersOf(h.Ref()) && d != ""
    requires var rt' := Evaluate(rt, c, w, p, request).0;
             && p.id in rt'.records && AuthorizingState(rt'.records[p.id].state)
             && rt'.records[p.id].generation < U64_MAX
             && Find(rt'.records[p.id].evidence, (FailureDomain, DomainSubject(d))) != Some(generation)
    ensures var rt' := Evaluate(rt, c, w, p, request).0;
            var noticed := Invalidate(rt', OfDomain(d, generation));
            && p.id in noticed.records
            && (AuthorizingState(noticed.records[p.id].state) <==> !Names(rt.sets[p.constraintSet], d))
            && (AuthorizingState(noticed.records[p.id].state) ==> noticed.records[p.id] == rt'.records[p.id])
  {
    hide Evaluate, EvidenceOf, Overflows, DomainStageNeeded, ResolveUnderlying, InputsFor, Usable, IndexesAgree,
      DependenciesOf, Covered, Names, Canonical, Find, Invalidate;
    var i := InputsFor(rt, c.limits, w, p, ResolveUnderlying(rt, p, c.limits).value);
    var rt' := Evaluate(rt, c, w, p, request).0;
    var r := rt'.records[p.id];
    InputsAre(rt, c.limits, w, p, ResolveUnderlying(rt, p, c.limits).value);
    CommittedRecord(rt, c, w, p, request);
    EvaluateAgrees(rt, c, w, p, request);
    EvidenceCanonical(i);
    DomainIsBound(i, h, d);
    var e :| e in EvidenceOf(i) && KeyOf(e) == (FailureDomain, DomainSubject(d));
    FindEntry(r.evidence, e);
    CoverageDecidesMarking(rt', OfDomain(d, generation), p.id, e);
    UnnamedDomainIsNotFiled(r.dependencies, d);
    FiledDomains(i, rt.sets, d);
    NoticeMarksOrKeeps(rt', OfDomain(d, generation), p.id);
  }

  lemma InputsAre(rt: Runtime, limits: Limits, w: World, p: PathDefinition, chain: Chain)
    requires p.constraintSet in rt.sets
    ensures var i := InputsFor(rt, limits, w, p, chain);
            i.path == p && i.limits == limits && i.policy == w.policy && i.constraints == rt.sets[p.constraintSet]
  {
    hide ResolvePeers;
  }

  lemma EvaluateAgrees(rt: Runtime, c: Config, w: World, p: PathDefinition, request: EvaluationRequest)
    requires Usable(rt, w) && IndexesAgree(rt)
    ensures IndexesAgree(Evaluate(rt, c, w, p, request).0)
  {
    hide PrepareEvaluate, Commit, IndexesAgree, Usable;
    if PrepareEvaluate(rt, c, w, p, request).Ready? {
      CommitAgrees(rt, c, PrepareEvaluate(rt, c, w, p, request).request);
    }
  }

  lemma NoticeMarksOrKeeps(rt: Runtime, i: Invalidation, p: string)
    requires p in rt.records
    ensures p in Invalidate(rt, i).records
    ensures Invalidate(rt, i).records[p] == rt.records[p] || !AuthorizingState(Invalidate(rt, i).records[p].state)
  {
    hide Candidates, SubjectOf, TargetOf, AuthorityDigestOf, Bound;
  }

  // ---- a concrete evaluation ---------------------------------------------------------------------------------

  function Coverage(): DomainConstraint {
    DomainConstraint(RequireCoverageCompleteness, "", UnknownClass, 0, "", 0, [])
  }

  /** Every hop has to have its domains covered; no domain is named. */
  function CoverageSet(): ConstraintSet { SomeSet().(failureDomains := [Coverage()]) }

  function WithCoverage(): Runtime { EmptyRuntime().(sets := map["c" := CoverageSet()]) }

  function EndA(): ElementRef { ElementRef(Endpoint, "a") }
  function EndB(): ElementRef { ElementRef(Endpoint, "b") }

  /** One end is a member of the domain "d", which has generation one. */
  function DomainWorld(): World {
    World(Views(1, map[EndA() := StructuralRecord(1, false, false), EndB() := StructuralRecord(1, false, false)],
        {(SomeHops()[0], SomeHops()[1])}, map[], map[], map[], map["d" := DomainRecord(Power, 1)], map[EndA() := ["d"]],
        {EndA(), EndB()}, map[]),
      SomePolicy(), 1)
  }

  function DomainInputs(limits: Limits): Inputs {
    InputsFor(WithCoverage(), limits, DomainWorld(), SomePath("p", ""), NO_CHAIN)
  }

  lemma RefsAre()
    ensures RefsOf(SomeHops()) == [EndA(), EndB()] && EndA() != EndB() && ElementKey(EndA()) != ElementKey(EndB())
  {
    var hops := SomeHops();
    assert hops[1..] == [hops[1]] && hops[1..][1..] == [];
    assert RefsOf(hops[1..]) == [EndB()];
    assert EndA().id[0] != EndB().id[0];
    if ElementKey(EndA()) == ElementKey(EndB()) { PathShape.ElementKeyInjective(EndA(), EndB()); }
  }

  lemma RulesAre(limits: Limits)
    requires limits == SomeLimits()
    ensures var i := DomainInputs(limits);
            var rules := i.Effective();
            && rules.capabilities == [] && rules.failureDomains == [Coverage()] && rules.forbiddenClasses == []
            && !rules.allowLoops && rules.maxHops == 64 && i.limits == limits && i.path == SomePath("p", "")
            && i.constraints == CoverageSet() && i.policy == SomePolicy() && i.views == DomainWorld().views
  {
    hide ResolvePeers, Rules.CombineRules;
    var i := DomainInputs(limits);
    var rules := i.Effective();
    Rules.RulesKeepEveryRequirement(i.constraints, i.policy, limits, rules);
    NothingOfNothing(rules.forbiddenClasses, []);
    NothingOfNothing(rules.capabilities, []);
    Combined();
  }

  lemma Combined()
    ensures var rules := Rules.CombineRules(CoverageSet(), SomePolicy(), SomeLimits());
            rules.failureDomains == [Coverage()] && !rules.allowLoops && rules.maxHops == 64
  {
    assert [Coverage()][1..] == [];
    assert Rules.StableSort([Coverage()], Rules.DomainLess) == Rules.InsertSorted(Coverage(), [], Rules.DomainLess);
  }

  lemma EachOne<T, U>(x: T, f: T -> seq<U>)
    ensures Each([x], f) == f(x)
  {
    assert [x][1..] == [] && Each([], f) == [];
  }

  lemma EachTwo<T, U>(x: T, y: T, f: T -> seq<U>)
    ensures Each([x, y], f) == f(x) + f(y)
  {
    assert [x, y][1..] == [y];
    EachOne(y, f);
  }

  /** The set calls of the evaluation: four scalars, the two ends, and the memberships of the two ends. */
  lemma DomainCallsAre(limits: Limits)
    requires limits == SomeLimits()
    ensures var i := DomainInputs(limits);
            && i.views == DomainWorld().views
            && AllReads(i) == ScalarReads(i) + (ElementReads(i.views, EndA()) + ElementReads(i.views, EndB()))
                              + (MembershipReads(i, EndA()) + MembershipReads(i, EndB()))
  {
    hide Rules.CombineRules, RefsOf, CapabilityPairs, ElementKey, DomainInputs, MembershipReads, Asked, FirstAsked,
      ScalarReads, ElementReads;
    var i := DomainInputs(limits);
    RulesAre(limits);
    RefsAre();
    assert CapabilityPairs([]) == [] by { NoPairs(); }
    EachTwo(EndA(), EndB(), (e: ElementRef) => ElementReads(i.views, e));
    EachTwo(EndA(), EndB(), (e: ElementRef) => PortReads(i.views, e));
    EachTwo(EndA(), EndB(), (e: ElementRef) => LinkReads(i.views, e));
    AskedAre(i);
    EachTwo(EndA(), EndB(), (e: ElementRef) => MembershipReads(i, e));
  }

  /** Every subject that the evaluation binds is short, and there are nine set calls. */
  lemma DomainReadsAre(limits: Limits)
    requires limits == SomeLimits()
    ensures |AllReads(DomainInputs(limits))| == 9 && SubjectsFit(AllReads(DomainInputs(limits)), limits)
    ensures forall e :: e in AllReads(DomainInputs(limits)) && KeyOf(e) == (FailureDomain, DomainSubject("d")) ==>
              e.generation == 1
  {
    hide AllReads, DomainInputs, ElementKey, MembershipReads, MembershipSubject, DomainSubject, DomainWorld;
    var i := DomainInputs(limits);
    DomainCallsAre(limits);
    KeysAreShort();
    MembershipsAre(i);
  }

  lemma NoPairs()
    ensures CapabilityPairs([]) == []
  {
  }

  lemma KeysAreShort()
    ensures |ElementKey(EndA())| < 20 && |ElementKey(EndB())| < 20 && |SELF| < 20
    ensures |MembershipSubject(EndA())| < 40 && |MembershipSubject(EndB())| < 40 && |DomainSubject("d")| < 40
    ensures MembershipSubject(EndA()) != DomainSubject("d") && MembershipSubject(EndB()) != DomainSubject("d")
  {
    assert MembershipSubject(EndA())[0] == 'm' && MembershipSubject(EndB())[0] == 'm' && DomainSubject("d")[0] == 'd';
  }

  lemma AskedAre(i: Inputs)
    requires RefsOf(i.path.hops) == [EndA(), EndB()] && i.Effective().failureDomains == [Coverage()]
    requires i.Effective().forbiddenClasses == [] && i.constraints.failureDomains != []
    ensures FirstAsked(Asked(i), {}) == [EndA(), EndB()]
  {
    hide RefsOf, Rules.CombineRules, ElementKey;
    RefsAre();
    EachOne(Coverage(), (c: DomainConstraint) => AskedBy(i, c));
    var twice := [EndA(), EndB(), EndA(), EndB()];
    assert Asked(i) == twice;
    assert twice[1..] == [EndB(), EndA(), EndB()] && twice[1..][1..] == [EndA(), EndB()]
      && twice[1..][1..][1..] == [EndB()];
    var seen := {ElementKey(EndA())} + {ElementKey(EndB())};
    assert FirstAsked([EndB()], seen + {ElementKey(EndA())}) == [];
    assert FirstAsked([EndA(), EndB()], seen) == [];
    assert FirstAsked([EndB(), EndA(), EndB()], {ElementKey(EndA())}) == [EndB()];
    assert {} + {ElementKey(EndA())} == {ElementKey(EndA())};
  }

  lemma MembershipsAre(i: Inputs)
    requires i.views == DomainWorld().views
    ensures MembershipReads(i, EndA()) ==
            [EvidenceEntry(FailureDomain, MembershipSubject(EndA()), 0),
              EvidenceEntry(FailureDomain, DomainSubject("d"), 1)]
    ensures MembershipReads(i, EndB()) == [EvidenceEntry(FailureDomain, MembershipSubject(EndB()), 0)]
  {
    hide MembershipSubject, DomainSubject;
    RefsAre();
    EachOne("d", (d: string) => DomainReads(i.views, d));
    assert Each([], (d: string) => DomainReads(i.views, d)) == [];
  }

  lemma DomainDoesNotOverflow(limits: Limits)
    requires limits == SomeLimits()
    ensures !Overflows(DomainInputs(limits))
  {
    hide AllReads, DomainInputs, SetAll;
    DomainReadsAre(limits);
    FewCallsFit(AllReads(DomainInputs(limits)), limits);
    assert DomainInputs(limits).limits == limits by { RulesAre(limits); }
  }

  lemma FewCallsFit(calls: seq<EvidenceEntry>, limits: Limits)
    requires SubjectsFit(calls, limits) && |calls| <= limits.maxDependenciesPerPath
    ensures !SetAll([], calls, limits).1
  {
    hide SetAll, KeySet, SubjectsFit, Canonical;
    KeySetSize(calls);
    KeySetEmpty();
    EmptyCanonical();
    assert KeySet([]) + KeySet(calls) == KeySet(calls);
    OverflowMeaning([], calls, limits);
  }

  lemma {:induction false} KeySetSize(es: seq<EvidenceEntry>)
    ensures |KeySet(es)| <= |es|
    decreases |es|
  {
    if es == [] {
      KeySetEmpty();
    } else {
      KeySetSize(es[1..]);
      assert es == [es[0]] + es[1..];
      KeySetPrepend(es[0], es[1..]);
    }
  }

  lemma DomainPathIsLegal(limits: Limits)
    requires limits == SomeLimits()
    ensures Evaluable(DomainInputs(limits)) && Legal(DomainInputs(limits)) && Unconditional(DomainInputs(limits))
    ensures Rules.PermittedLayer(DomainInputs(limits).constraints, DomainInputs(limits).policy, Physical)
  {
    hide Rules.CombineRules, DomainInputs;
    var i := DomainInputs(limits);
    var hops := SomeHops();
    RulesAre(limits);
    RefsAre();
    assert forall h :: h in hops <==> h == hops[0] || h == hops[1];
    assert hops[0].Ref() == EndA() && hops[1].Ref() == EndB();
  }

  lemma DomainIsPrepared(c: Config)
    requires c.limits == SomeLimits() && Usable(WithCoverage(), DomainWorld())
    ensures ResolveUnderlying(WithCoverage(), SomePath("p", ""), c.limits) == Some(NO_CHAIN)
    ensures var prepared := PrepareEvaluate(WithCoverage(), c, DomainWorld(), SomePath("p", ""), AnyRequest());
            prepared.Ready? && prepared.request.expected.None? && prepared.request.path == SomePath("p", "")
  {
    hide PathShape.Shape, DecisionOf, ResolvePeers, InputDigestOf, PathDigestOf, ConstraintDigestOf, Usable,
      DomainWorld;
    SomePathIsShaped("p", "", c.limits);
  }

  lemma DomainCommits(c: Config)
    requires c.limits == SomeLimits() && Usable(WithCoverage(), DomainWorld())
    ensures var (rt, answer) := Evaluate(WithCoverage(), c, DomainWorld(), SomePath("p", ""), AnyRequest());
            answer.committed && "p" in rt.records && rt.records["p"].generation == 1
  {
    hide PrepareEvaluate, Commit, DependenciesOf, Usable, DomainWorld;
    DomainIsPrepared(c);
    var q := PrepareEvaluate(WithCoverage(), c, DomainWorld(), SomePath("p", ""), AnyRequest()).request;
    CommitOutcomes(WithCoverage(), c, q);
    CommitRecords(WithCoverage(), c, q);
  }

  /** The evaluation commits the path as authorized; when its domain changes the authority stands. */
  lemma DomainChangesUnnoticed(c: Config)
    requires c.limits == SomeLimits()
    ensures Register(EmptyRuntime(), CoverageSet().(generation := 0), c.limits).0 == WithCoverage()
    ensures Usable(WithCoverage(), DomainWorld())
    ensures var (rt, answer) := Evaluate(WithCoverage(), c, DomainWorld(), SomePath("p", ""), AnyRequest());
            var noticed := Invalidate(rt, OfDomain("d", 2));
            && answer.committed && "p" in rt.records && AuthorizingState(rt.records["p"].state)
            && Find(rt.records["p"].evidence, (FailureDomain, DomainSubject("d"))) == Some(1)
            && "p" in noticed.records && noticed.records["p"] == rt.records["p"]
            && (FailureDomain, DomainSubject("d")) in noticed.watermarks
            && noticed.watermarks[(FailureDomain, DomainSubject("d"))] == 2
  {
    hide Evaluate, DomainInputs, Overflows, Legal, Unconditional, Rules.PermittedLayer, ResolveUnderlying,
      IndexesAgree, Invalidate, Find, DomainStageNeeded, Names, EvidenceOf, DomainWorld, Usable, Register;
    var p := SomePath("p", "");
    CoverageIsUsable();
    DomainIsPrepared(c);
    DomainCommits(c);
    InputsAreThese(c.limits);
    DomainDoesNotOverflow(c.limits);
    DomainPathIsLegal(c.limits);
    CommittedEvaluationIsLegal(WithCoverage(), c, DomainWorld(), p, AnyRequest());
    CommittedRecord(WithCoverage(), c, DomainWorld(), p, AnyRequest());
    BoundAtOne(c.limits);
    DomainNoticeReachesNamedDomains(WithCoverage(), c, DomainWorld(), p, AnyRequest(), SomeHops()[0], "d", 2);
    WatermarkRises(c);
    CoverageIsRegistered(c);
  }

  lemma CoverageIsRegistered(c: Config)
    requires c.limits == SomeLimits()
    ensures Register(EmptyRuntime(), CoverageSet().(generation := 0), c.limits).0 == WithCoverage()
  {
    var r := Register(EmptyRuntime(), CoverageSet().(generation := 0), c.limits).0;
    assert r.records == map[];
  }

  lemma InputsAreThese(limits: Limits)
    requires limits == SomeLimits()
    ensures InputsFor(WithCoverage(), limits, DomainWorld(), SomePath("p", ""), NO_CHAIN) == DomainInputs(limits)
    ensures DomainStageNeeded(DomainInputs(limits)) && "d" in DomainInputs(limits).MembersOf(SomeHops()[0].Ref())
    ensures SomeHops()[0] in SomePath("p", "").hops && "p" == SomePath("p", "").id
            && SomePath("p", "").constraintSet == "c"
    ensures "c" in WithCoverage().sets && WithCoverage().sets["c"] == CoverageSet()
            && limits.maxHops - 2 < limits.maxExplanationEntries
  {
    hide ResolvePeers, Rules.CombineRules;
    RulesAre(limits);
  }

  lemma BoundAtOne(limits: Limits)
    requires limits == SomeLimits()
    ensures Find(EvidenceOf(DomainInputs(limits)), (FailureDomain, DomainSubject("d"))) == Some(1)
  {
    hide AllReads, SetAll, DomainInputs, DomainStageNeeded, Overflows;
    var i := DomainInputs(limits);
    InputsAreThese(limits);
    DomainDoesNotOverflow(limits);
    DomainReadsAre(limits);
    RulesAre(limits);
    DomainIsBound(i, SomeHops()[0], "d");
    EvidenceCanonical(i);
    var e :| e in EvidenceOf(i) && KeyOf(e) == (FailureDomain, DomainSubject("d"));
    SetAllMembers([], AllReads(i), i.limits, e);
    FindEntry(EvidenceOf(i), e);
  }

  lemma WatermarkRises(c: Config)
    requires c.limits == SomeLimits() && Usable(WithCoverage(), DomainWorld())
    ensures var rt := Evaluate(WithCoverage(), c, DomainWorld(), SomePath("p", ""), AnyRequest()).0;
            var noticed := Invalidate(rt, OfDomain("d", 2));
            && (FailureDomain, DomainSubject("d")) in noticed.watermarks
            && noticed.watermarks[(FailureDomain, DomainSubject("d"))] == 2
  {
    hide PrepareEvaluate, Commit, DependenciesOf, Usable, DomainWorld, TouchAll, Candidates;
    DomainIsPrepared(c);
    CommitRecords(WithCoverage(), c,
      PrepareEvaluate(WithCoverage(), c, DomainWorld(), SomePath("p", ""), AnyRequest()).request);
  }

  lemma CoverageIsUsable()
    ensures Usable(WithCoverage(), DomainWorld()) && IndexesAgree(WithCoverage()) && !Names(CoverageSet(), "d")
  {
  }
}
