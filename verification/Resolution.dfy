/** How the collected findings become an outcome, and what that outcome says about the path. */
module Resolution {
  import opened Base
  import opened Model
  import opened Requirements
  import opened Views
  import opened Findings
  import opened Legality
  import PathShape
  import Rules

  /** The fields of a computation that the findings determine. */
  datatype Verdict = Verdict(primary: Outcome, hardFailure: bool, primaryViolation: Option<Violation>,
      violations: seq<Violation>)

  function Take<T>(xs: seq<T>, n: nat): seq<T> { if |xs| <= n then xs else xs[..n] }

  function First(vs: seq<Violation>, s: Severity): Option<Violation> {
    if vs == [] then None else if vs[0].severity == s then Some(vs[0]) else First(vs[1..], s)
  }

  /** The first condition becomes a hard violation in place. */
  function HardenFirst(vs: seq<Violation>): seq<Violation> {
    if vs == [] then []
    else if vs[0].severity == Condition then [vs[0].(severity := Hard)] + vs[1..]
    else [vs[0]] + HardenFirst(vs[1..])
  }

  /** What the collector holds after all its calls, and the resolution of conditional authorization. */
  function Resolve(vs: seq<Violation>, bound: nat, allowConditional: bool): Verdict {
    var shown := Take(vs, bound);
    match First(vs, Hard)
    case Some(v) => Verdict(v.code, true, Some(v.(severity := Primary)), shown)
    case None =>
      match First(shown, Condition)
      case None => Verdict(AuthorizedOutcome, false, None, shown)
      case Some(v) =>
        if allowConditional then Verdict(ConditionallyAuthorizedOutcome, false, None, shown)
        else Verdict(v.code, true, None, HardenFirst(shown))
  }

  /** The overflow of the evidence vector is one more hard call, after the resolution. */
  function WithOverflow(d: Verdict, overflow: bool, path: string, bound: nat): Verdict {
    if !overflow then d
    else
      var v := Violation(ResourceLimit, Hard, path);
      d.(primary := if d.hardFailure then d.primary else ResourceLimit,
        hardFailure := true,
        primaryViolation := if d.hardFailure then d.primaryViolation else Some(v.(severity := Primary)),
        violations := if |d.violations| >= bound then d.violations else d.violations + [v])
  }

  // ---- the first finding of a severity -------------------------------------------------------

  lemma {:induction false} FirstMeaning(vs: seq<Violation>, s: Severity)
    ensures First(vs, s).None? <==> forall v :: v in vs ==> v.severity != s
    ensures First(vs, s).Some? ==> First(vs, s).value in vs && First(vs, s).value.severity == s
  {
    if vs != [] {
      FirstMeaning(vs[1..], s);
      assert forall v :: v in vs <==> v == vs[0] || v in vs[1..];
    }
  }

  predicate IsLink(h: PathElement) { h.kind == Link }

  predicate IsInformational(v: Violation) { v.severity == Informational }

  function LinkHops(hops: seq<PathElement>): nat { Counting(hops, IsLink) }

  function Informationals(vs: seq<Violation>): nat { Counting(vs, IsInformational) }

  /** Without hard findings, only informational ones come before the first condition. */
  lemma {:induction false} FirstConditionIsEarly(vs: seq<Violation>, bound: nat)
    requires Every(vs, NotHard) && Every(vs, Plain) && Informationals(vs) < bound
    ensures First(Take(vs, bound), Condition) == First(vs, Condition)
  {
    if |vs| > bound && vs[0].severity != Condition {
      assert vs[0] in vs && vs[0].severity == Informational;
      assert forall v :: v in vs[1..] ==> v in vs;
      FirstConditionIsEarly(vs[1..], bound - 1);
      assert vs[..bound][1..] == vs[1..][..bound - 1];
      assert Take(vs[1..], bound - 1) == vs[1..][..bound - 1];
    }
  }

  lemma {:induction false} CountingPlus<T>(a: seq<T>, b: seq<T>, p: T -> bool)
    ensures Counting(a + b, p) == Counting(a, p) + Counting(b, p)
  {
    if a == [] {
      assert a + b == b;
    } else {
      assert (a + b)[0] == a[0] && (a + b)[1..] == a[1..] + b;
      CountingPlus(a[1..], b, p);
    }
  }

  lemma {:induction false} NoneCounted(vs: seq<Violation>)
    requires Every(vs, NotInformational)
    ensures Informationals(vs) == 0
  {
    if vs != [] {
      assert vs[0] in vs;
      NoneCounted(vs[1..]);
    }
  }

  lemma {:induction false} LinksReportOnce(i: Inputs, hops: seq<PathElement>)
    ensures Informationals(Each(hops, h => LinkFindings(i, h))) <= LinkHops(hops)
  {
    hide LinkFindings, Rules.CombineRules;
    if hops != [] {
      LinksReportOnce(i, hops[1..]);
      LinkDecides(i, hops[0]);
      CountingPlus(LinkFindings(i, hops[0]), Each(hops[1..], h => LinkFindings(i, h)), IsInformational);
      CountAtMost(LinkFindings(i, hops[0]));
    }
  }

  lemma {:induction false} CountAtMost(vs: seq<Violation>)
    ensures Informationals(vs) <= |vs|
  {
    if vs != [] { CountAtMost(vs[1..]); }
  }

  // ---- all stages together ---------------------------------------------------------------------

  /** The stages before the failure domains, and the two after. */
  function Front(i: Inputs): seq<Violation>
    requires Evaluable(i)
  {
    EffectiveShaped(i);
    StructureStage(i) + UnderlyingFindings(i) + PortStage(i) + LinkStage(i)
      + CapabilityStage(i, i.Effective().capabilities)
  }

  lemma AllIs(i: Inputs)
    requires Evaluable(i)
    ensures All(i) == Front(i) + DomainStage(i) + PolicyStage(i)
  {
    hide StructureStage, UnderlyingFindings, PortStage, LinkStage, CapabilityStage, DomainStage, PolicyStage,
      Rules.CombineRules;
  }

  lemma FrontIs(i: Inputs, p: Violation -> bool)
    requires Evaluable(i)
    ensures (forall c :: c in i.Effective().capabilities ==> Shaped(c.expression)) &&
            (Every(Front(i), p) <==>
             Every(StructureStage(i), p) && Every(UnderlyingFindings(i), p) && Every(PortStage(i), p)
               && Every(LinkStage(i), p)
             && Every(CapabilityStage(i, i.Effective().capabilities), p))
  {
    hide StructureStage, UnderlyingFindings, PortStage, LinkStage, CapabilityStage, Rules.CombineRules, Every, Shaped;
    EffectiveShaped(i);
    var a := StructureStage(i);
    var b := a + UnderlyingFindings(i);
    var c := b + PortStage(i);
    var d := c + LinkStage(i);
    EveryPlus(a, UnderlyingFindings(i), p);
    EveryPlus(b, PortStage(i), p);
    EveryPlus(c, LinkStage(i), p);
    EveryPlus(d, CapabilityStage(i, i.Effective().capabilities), p);
  }

  predicate FrontLegal(i: Inputs)
    requires Evaluable(i)
  {
    && (forall h :: h in i.path.hops ==> ElementLegal(i, h) && PortLegal(i, h) && LinkLegal(i, h))
    && HopsAdjacent(i) && UnderlyingLegal(i)
    && (forall c :: c in i.constraints.capabilities ==> CapabilityLegal(i, c))
    && (forall c :: c in i.policy.requiredCapabilities ==> CapabilityLegal(i, c))
  }

  lemma FrontDecides(i: Inputs)
    requires Evaluable(i)
    ensures Every(Front(i), NotHard) <==> FrontLegal(i)
    ensures Every(Front(i), NotHard) ==> (Every(Front(i), NotCondition) <==> Unconditional(i))
    ensures Every(Front(i), Plain)
  {
    hide StructureStage, UnderlyingFindings, PortStage, LinkStage, CapabilityStage, Rules.CombineRules, Every, Shaped,
      Front, ElementLegal, PortLegal, LinkLegal, HopUnconditional, HopsAdjacent, UnderlyingLegal, CapabilityLegal;
    FrontIs(i, NotHard);
    FrontIs(i, NotCondition);
    FrontIs(i, Plain);
    StructureDecides(i);
    UnderlyingDecides(i);
    HopsDecide(i);
    CapabilitiesDecide(i, i.Effective().capabilities);
    Rules.RulesKeepEveryRequirement(i.constraints, i.policy, i.limits, i.Effective());
    RequiredEverywhere(i);
  }

  /** Asking every effective capability requirement is asking those of the set and those of the policy. */
  lemma RequiredEverywhere(i: Inputs)
    requires Evaluable(i)
    ensures forall c :: c in i.Effective().capabilities ==> Shaped(c.expression)
    ensures (forall c :: c in i.Effective().capabilities ==> CapabilityLegal(i, c)) <==>
            (forall c :: c in i.constraints.capabilities ==> CapabilityLegal(i, c))
            && (forall c :: c in i.policy.requiredCapabilities ==> CapabilityLegal(i, c))
    ensures (forall c :: c in i.Effective().capabilities ==> i.Lookup(c).known) <==>
            (forall c :: c in i.constraints.capabilities ==> i.Lookup(c).known)
            && (forall c :: c in i.policy.requiredCapabilities ==> i.Lookup(c).known)
  {
    hide Rules.CombineRules, Shaped, CapabilityLegal;
    EffectiveShaped(i);
    Rules.RulesKeepEveryRequirement(i.constraints, i.policy, i.limits, i.Effective());
  }

  lemma InformationalsAreLinks(i: Inputs)
    requires Evaluable(i)
    ensures Informationals(Front(i)) <= LinkHops(i.path.hops)
  {
    hide StructureStage, UnderlyingFindings, PortStage, CapabilityStage, Rules.CombineRules, Every, Shaped,
      LinkFindings, LinkHops;
    EffectiveShaped(i);
    var p := IsInformational;
    var a := StructureStage(i);
    var b := a + UnderlyingFindings(i);
    var c := b + PortStage(i);
    var d := c + LinkStage(i);
    StructureDecides(i);
    UnderlyingDecides(i);
    HopsDecide(i);
    CapabilitiesDecide(i, i.Effective().capabilities);
    NoneCounted(a);
    NoneCounted(UnderlyingFindings(i));
    NoneCounted(PortStage(i));
    NoneCounted(CapabilityStage(i, i.Effective().capabilities));
    LinksReportOnce(i, i.path.hops);
    CountingPlus(a, UnderlyingFindings(i), p);
    CountingPlus(b, PortStage(i), p);
    CountingPlus(c, LinkStage(i), p);
    CountingPlus(d, CapabilityStage(i, i.Effective().capabilities), p);
  }

  lemma HardListEmpty(vs: seq<Violation>)
    requires HardList(vs)
    ensures Every(vs, NotHard) <==> vs == []
    ensures Every(vs, Plain)
  {
    HardListMeaning(vs);
  }

  /** No hard finding is the same as legality; on a legal path the findings are those of the front stages. */
  lemma FindingsDecide(i: Inputs)
    requires Evaluable(i) && exists l :: Rules.PermittedLayer(i.constraints, i.policy, l)
    ensures Every(All(i), NotHard) <==> Legal(i)
    ensures Every(All(i), Plain)
    ensures Legal(i) ==> All(i) == Front(i) && (Every(All(i), NotCondition) <==> Unconditional(i))
  {
    hide All, Front, DomainStage, PolicyStage, Every, HardList, Rules.CombineRules, ElementLegal, PortLegal,
      LinkLegal, HopsAdjacent, UnderlyingLegal, CapabilityLegal, DomainLegal, PolicyLegal, Unconditional,
      Rules.PermittedLayer, Shaped;
    AllIs(i);
    FrontDecides(i);
    DomainStageDecides(i);
    PolicyStageDecides(i);
    HardListEmpty(DomainStage(i));
    HardListEmpty(PolicyStage(i));
    Rules.RulesKeepEveryRequirement(i.constraints, i.policy, i.limits, i.Effective());
    assert (forall c :: c in i.Effective().failureDomains ==> DomainLegal(i, c))
           <==> forall c :: c in i.constraints.failureDomains ==> DomainLegal(i, c);
    EveryPlus(Front(i), DomainStage(i), NotHard);
    EveryPlus(Front(i) + DomainStage(i), PolicyStage(i), NotHard);
    EveryPlus(Front(i), DomainStage(i), Plain);
    EveryPlus(Front(i) + DomainStage(i), PolicyStage(i), Plain);
    if Legal(i) { assert Front(i) + [] + [] == Front(i); }
  }

  /** The declared verdict. */
  function VerdictOf(i: Inputs, bound: nat): Verdict
    requires Evaluable(i)
  {
    Resolve(All(i), bound, i.policy.allowConditionalAuthorization)
  }

  /**
   * The evaluation authorizes exactly the legal paths: unconditionally when nothing rests on a condition,
   * conditionally when something does and the policy allows it. Otherwise it reports the first hard finding in
   * stage order, or the first condition that the policy does not allow. The explanation bound has to exceed
   * the number of link hops, and some layer has to be permitted.
   */
  lemma EvaluationDecidesLegality(i: Inputs, bound: nat)
    requires Evaluable(i) && LinkHops(i.path.hops) < bound
    requires exists l :: Rules.PermittedLayer(i.constraints, i.policy, l)
    ensures VerdictOf(i, bound).primary == AuthorizedOutcome <==> Legal(i) && Unconditional(i)
    ensures VerdictOf(i, bound).primary == ConditionallyAuthorizedOutcome
            <==> Legal(i) && !Unconditional(i) && i.policy.allowConditionalAuthorization
    ensures VerdictOf(i, bound).hardFailure <==> !AuthorizingOutcome(VerdictOf(i, bound).primary)
    ensures !Legal(i) ==> First(All(i), Hard).Some? && VerdictOf(i, bound).primary == First(All(i), Hard).value.code
    ensures Legal(i) && !Unconditional(i) && !i.policy.allowConditionalAuthorization ==>
              First(All(i), Condition).Some? && VerdictOf(i, bound).primary == First(All(i), Condition).value.code
  {
    hide All, Front, Legal, Unconditional, Rules.CombineRules, Rules.PermittedLayer, First, LinkHops, Informationals;
    var vs := All(i);
    FindingsDecide(i);
    FirstMeaning(vs, Hard);
    FirstMeaning(vs, Condition);
    if Legal(i) {
      InformationalsAreLinks(i);
      FirstConditionIsEarly(vs, bound);
    }
  }

  /** Every explanation bound above the number of link hops gives the same outcome and primary violation. */
  lemma BoundIsImmaterial(i: Inputs, m: nat, n: nat)
    requires Evaluable(i) && LinkHops(i.path.hops) < m && LinkHops(i.path.hops) < n
    requires exists l :: Rules.PermittedLayer(i.constraints, i.policy, l)
    ensures VerdictOf(i, m).(violations := []) == VerdictOf(i, n).(violations := [])
  {
    hide All, Front, Legal, Unconditional, Rules.CombineRules, Rules.PermittedLayer, First, LinkHops, Informationals;
    FindingsDecide(i);
    FirstMeaning(All(i), Hard);
    if Legal(i) {
      InformationalsAreLinks(i);
      FirstConditionIsEarly(All(i), m);
      FirstConditionIsEarly(All(i), n);
    }
  }

  // ---- the shape rules keep the number of link hops below the default bound ----------------------

  lemma {:induction false} CountBelowLength(hops: seq<PathElement>)
    ensures LinkHops(hops) <= |hops|
  {
    if hops != [] { CountBelowLength(hops[1..]); }
  }

  /** Both ends of a well-shaped path are terminal elements, which are not links. */
  lemma ShapeBoundsLinkHops(p: PathDefinition, limits: Limits, bindIdentity: bool)
    requires PathShape.WellShaped(p, limits, bindIdentity)
    ensures LinkHops(p.hops) <= limits.maxHops - 2
  {
    hide PathShape.ValidLimits, PathShape.HopsWellFormed, PathShape.LoopFree, PathShape.UnderlyingWellFormed;
    var n := |p.hops|;
    assert p.hops == ([p.hops[0]] + p.hops[1..n - 1]) + [p.hops[n - 1]];
    CountingPlus([p.hops[0]] + p.hops[1..n - 1], [p.hops[n - 1]], IsLink);
    CountingPlus([p.hops[0]], p.hops[1..n - 1], IsLink);
    CountBelowLength(p.hops[1..n - 1]);
    EndsAreNotLinks(p.hops[0]);
    EndsAreNotLinks(p.hops[n - 1]);
  }

  lemma EndsAreNotLinks(h: PathElement)
    requires PathShape.Terminal(h.kind)
    ensures Counting([h], IsLink) == 0
  {
    assert [h][1..] == [];
  }
}
