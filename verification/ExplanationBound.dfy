/** When the bound on explanations decides the outcome: exactly when it hides the first condition. */
module ExplanationBound {
  import opened Base
  import opened Model
  import opened Requirements
  import opened Views
  import opened Findings
  import opened Legality
  import opened Resolution
  import opened RuntimeState
  import opened Scenarios
  import PathCodec
  import Rules

  // ---- for any findings ----------------------------------------------------------------------------

  /** There is no condition, or one of the first findings is a condition. */
  ghost predicate ConditionShown(vs: seq<Violation>, bound: nat) {
    Every(vs, NotCondition) || exists k :: 0 <= k < bound && k < |vs| && vs[k].severity == Condition
  }

  /** A condition among the first findings is found there. */
  lemma {:induction false} FirstOfTake(vs: seq<Violation>, bound: nat, k: nat)
    requires k < bound && k < |vs| && vs[k].severity == Condition
    ensures First(Take(vs, bound), Condition) == First(vs, Condition) && First(vs, Condition).Some?
  {
    if |vs| > bound {
      assert vs[..bound][1..] == vs[1..][..bound - 1];
      if k > 0 { FirstOfTake(vs[1..], bound - 1, k - 1); }
    } else {
      FirstMeaning(vs, Condition);
      assert vs[k] in vs;
    }
  }

  lemma TakeWithoutConditions(vs: seq<Violation>, bound: nat)
    requires forall k :: 0 <= k < bound && k < |vs| ==> vs[k].severity != Condition
    ensures First(Take(vs, bound), Condition).None?
  {
    FirstMeaning(Take(vs, bound), Condition);
    forall v | v in Take(vs, bound) ensures v.severity != Condition {
      var k :| 0 <= k < |Take(vs, bound)| && Take(vs, bound)[k] == v;
      assert vs[k] == v;
    }
  }

  /** The outcome under a bound is the one without it exactly when there is a hard finding or the condition is shown. */
  lemma BoundDecides(vs: seq<Violation>, bound: nat, allowConditional: bool)
    requires Every(vs, Plain)
    ensures Resolve(vs, bound, allowConditional).primary == Resolve(vs, |vs|, allowConditional).primary
            <==> !Every(vs, NotHard) || ConditionShown(vs, bound)
  {
    hide First;
    FirstMeaning(vs, Hard);
    FirstMeaning(vs, Condition);
    assert Take(vs, |vs|) == vs;
    if Every(vs, NotHard) {
      if Every(vs, NotCondition) {
        TakeWithoutConditions(vs, bound);
      } else if k :| 0 <= k < bound && k < |vs| && vs[k].severity == Condition {
        FirstOfTake(vs, bound, k);
      } else {
        TakeWithoutConditions(vs, bound);
      }
    }
  }

  // ---- for an evaluation ------------------------------------------------------------------------------

  lemma FindingsArePlain(i: Inputs)
    requires Evaluable(i)
    ensures Every(All(i), Plain)
  {
    hide All, Front, DomainStage, PolicyStage, HardList, Every, Rules.CombineRules;
    AllIs(i);
    FrontDecides(i);
    DomainStageDecides(i);
    PolicyStageIsHard(i);
    HardListEmpty(DomainStage(i));
    HardListEmpty(PolicyStage(i));
    EveryPlus(Front(i), DomainStage(i), Plain);
    EveryPlus(Front(i) + DomainStage(i), PolicyStage(i), Plain);
  }

  /**
   * The outcome of an evaluation under an explanation bound is its outcome without a bound exactly when some check
   * fails, nothing rests on a condition, or a condition is among the findings that the bound keeps.
   */
  lemma VerdictUnderBound(i: Inputs, bound: nat)
    requires Evaluable(i)
    ensures VerdictOf(i, bound).primary == VerdictOf(i, |All(i)|).primary
            <==> !Every(All(i), NotHard) || ConditionShown(All(i), bound)
  {
    hide All, Resolve, ConditionShown;
    FindingsArePlain(i);
    BoundDecides(All(i), bound, i.policy.allowConditionalAuthorization);
  }

  // ---- a concrete evaluation -----------------------------------------------------------------------------

  function Asked(): CapabilityRequirement { CapabilityRequirement("a", "k", Requirement(Supports, "k", [], []), false) }

  function Tolerant(): LinkAcceptance { LinkAcceptance(false, false, true, false) }

  /** A link of unknown state, which the rules accept, between two endpoints. */
  function LinkedHops(): seq<PathElement> {
    [PathElement(Endpoint, "a", 1, Physical, NoRelation), PathElement(Link, "l", 1, Physical, NoRelation),
     PathElement(Endpoint, "b", 1, Physical, NoRelation)]
  }

  function LinkedViews(): Views {
    var hops := LinkedHops();
    Views(1, map[hops[0].Ref() := StructuralRecord(1, false, false), hops[1].Ref() := StructuralRecord(1, false, false),
                 hops[2].Ref() := StructuralRecord(1, false, false)],
      {(hops[0], hops[1]), (hops[1], hops[2])}, map[], map[], map[], map[], map[], {}, map[])
  }

  /** The capability is unknown, which the requirement accepts on a condition; the policy accepts no conditions. */
  function HiddenCondition(): Inputs {
    Inputs(SomePath("p", "").(hops := LinkedHops()), LinkedViews(), SomeLimits(),
      SomeSet().(capabilities := [Asked()], linkState := Tolerant()),
      SomePolicy().(linkState := Tolerant(), allowUnknownLinkState := true), 1, Chain(false, 0, MalformedPath), map[],
        false)
  }

  lemma NothingReported(vs: seq<Violation>)
    ensures Every(vs, NotHard) && Every(vs, NotCondition) && Every(vs, NotInformational) && Every(vs, Plain)
            <==> vs == []
  {
    if vs != [] { assert vs[0] in vs; }
  }

  lemma AskedIsShaped()
    ensures Shaped(Asked().expression) && Evaluable(HiddenCondition())
  {
    assert PathCodec.IdentityText("k", CAPABILITY_KEY_LENGTH);
  }

  lemma EffectiveRules()
    ensures var rules := HiddenCondition().Effective();
            && rules.capabilities == [Asked()] && rules.failureDomains == [] && rules.forbiddenClasses == []
            && rules.linkState == Tolerant() && !rules.allowLoops && rules.maxHops == 64
  {
    var both := SomePolicy().requiredCapabilities + [Asked()];
    assert both == [Asked()] && both[1..] == [];
    assert Rules.StableSort([Asked()], Rules.CapabilityLess) == Rules.InsertSorted(Asked(), [], Rules.CapabilityLess);
    NoClasses(Rules.ALL_CLASSES);
  }

  lemma {:induction false} NoClasses(candidates: seq<DomainClass>)
    ensures Rules.SortedDistinct([], candidates) == []
  {
    if candidates != [] { NoClasses(candidates[1..]); }
  }

  lemma HopsInOrder()
    ensures forall h :: h in LinkedHops() <==> h == LinkedHops()[0] || h == LinkedHops()[1] || h == LinkedHops()[2]
    ensures LinkedHops()[0].Ref() != LinkedHops()[1].Ref() && LinkedHops()[1].Ref() != LinkedHops()[2].Ref()
    ensures LinkedHops()[0].Ref() != LinkedHops()[2].Ref()
  {
    assert LinkedHops()[0].id[0] != LinkedHops()[2].id[0];
  }

  lemma FirstStagesAreSilent()
    ensures var i := HiddenCondition(); StructureStage(i) == [] && UnderlyingFindings(i) == [] && PortStage(i) == []
  {
    hide StructureStage, UnderlyingFindings, Every, Rules.CombineRules;
    var i := HiddenCondition();
    HopsInOrder();
    StructureDecides(i);
    UnderlyingDecides(i);
    assert StructureStage(i) == [] by {
      NothingReported(StructureStage(i));
    }
    NothingReported(UnderlyingFindings(i));
    PortsOf(i, i.path.hops);
  }

  lemma {:induction false} PortsOf(i: Inputs, hops: seq<PathElement>)
    requires forall h :: h in hops ==> h.kind != Port
    ensures Each(hops, h => PortFindings(i, h)) == []
  {
    hide Rules.CombineRules;
    if hops != [] {
      assert hops[0] in hops && forall h :: h in hops[1..] ==> h in hops;
      PortsOf(i, hops[1..]);
    }
  }

  lemma LastStagesAreSilent()
    ensures var i := HiddenCondition(); DomainStage(i) == [] && PolicyStage(i) == []
  {
    hide PolicyStage, Rules.CombineRules;
    var i := HiddenCondition();
    EffectiveRules();
    HopsInOrder();
    assert Rules.PermittedLayer(i.constraints, i.policy, Physical);
    PolicyStageDecides(i);
  }

  lemma LinkIsInformational()
    ensures LinkStage(HiddenCondition()) == [Violation(LinkStateUnknown, Informational, HopKey(LinkedHops()[1]))]
  {
    hide HopKey, Rules.CombineRules;
    var i := HiddenCondition();
    var f: PathElement -> seq<Violation> := h => LinkFindings(i, h);
    var hops := LinkedHops();
    EffectiveRules();
    assert hops[1..] == [hops[1], hops[2]] && hops[1..][1..] == [hops[2]] && hops[1..][1..][1..] == [];
    assert Each(hops[1..][1..], f) == f(hops[2]) + Each([], f);
    assert Each(hops[1..], f) == f(hops[1]) + Each(hops[1..][1..], f);
    assert Each(hops, f) == f(hops[0]) + Each(hops[1..], f);
    assert f(hops[0]) == [] && f(hops[2]) == [];
    assert f(hops[1]) == [Violation(LinkStateUnknown, Informational, HopKey(hops[1]))];
  }

  lemma CapabilityIsCondition()
    requires Evaluable(HiddenCondition())
    ensures Shaped(Asked().expression)
    ensures CapabilityStage(HiddenCondition(), [Asked()]) ==
              [Violation(CapabilityUnknown, Condition, CapabilityKey("a", "k"))]
  {
    hide CapabilityKey;
    AskedIsShaped();
    assert [Asked()][1..] == [];
    assert CapabilityStage(HiddenCondition(), []) == [];
  }

  /** One explanation hides the condition and authorizes in full; two report it. */
  lemma SmallBoundHidesACondition()
    ensures Evaluable(HiddenCondition())
    ensures VerdictOf(HiddenCondition(), 1).primary == AuthorizedOutcome
    ensures VerdictOf(HiddenCondition(), 2).primary == CapabilityUnknown
  {
    hide All, Front, StructureStage, UnderlyingFindings, PortStage, LinkStage, CapabilityStage, DomainStage,
      PolicyStage, HopKey, CapabilityKey, HiddenCondition, Rules.CombineRules, Shaped;
    var i := HiddenCondition();
    AskedIsShaped();
    var link := Violation(LinkStateUnknown, Informational, HopKey(LinkedHops()[1]));
    var capability := Violation(CapabilityUnknown, Condition, CapabilityKey("a", "k"));
    FirstStagesAreSilent();
    LinkIsInformational();
    CapabilityIsCondition();
    LastStagesAreSilent();
    AllAre(i, link, capability);
    TwoFindings(link, capability);
    assert !i.policy.allowConditionalAuthorization by { NoConditional(); }
  }

  lemma NoConditional()
    ensures !HiddenCondition().policy.allowConditionalAuthorization
            && HiddenCondition().Effective().capabilities == [Asked()]
  {
    EffectiveRules();
  }

  lemma AllAre(i: Inputs, link: Violation, capability: Violation)
    requires i == HiddenCondition() && Evaluable(i) && Shaped(Asked().expression)
    requires StructureStage(i) == [] && UnderlyingFindings(i) == [] && PortStage(i) == [] && LinkStage(i) == [link]
    requires CapabilityStage(i, [Asked()]) == [capability] && DomainStage(i) == [] && PolicyStage(i) == []
    ensures All(i) == [link, capability]
  {
    hide StructureStage, UnderlyingFindings, PortStage, LinkStage, CapabilityStage, DomainStage, PolicyStage,
      HiddenCondition, Rules.CombineRules, Shaped;
    NoConditional();
    assert [] + [] + [] + [link] + [capability] + [] + [] == [link, capability];
  }

  lemma TwoFindings(link: Violation, capability: Violation)
    requires link.severity == Informational && capability.severity == Condition && capability.code == CapabilityUnknown
    ensures Resolve([link, capability], 1, false).primary == AuthorizedOutcome
    ensures Resolve([link, capability], 2, false).primary == CapabilityUnknown
  {
    var vs := [link, capability];
    assert vs[..1] == [link] && vs[..1][1..] == [] && vs[1..] == [capability] && vs[1..][1..] == [];
    assert First(vs[1..], Hard) == None && First(vs, Hard) == First(vs[1..], Hard);
    assert First(vs, Condition) == First(vs[1..], Condition) == Some(capability);
    assert First(vs[..1], Condition) == First([], Condition) == None;
  }
}
