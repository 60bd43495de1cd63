/** What each stage of compute_evaluation reports, in the order in which it reports it. */
module Findings {
  import opened Base
  import opened Model
  import opened Requirements
  import opened Views
  import Rules

  // ---- loops that append ----------------------------------------------------------------

  function Each<T, U>(xs: seq<T>, f: T -> seq<U>): seq<U> {
    if xs == [] then [] else f(xs[0]) + Each(xs[1..], f)
  }

  lemma {:induction false} EachAppend<T, U>(xs: seq<T>, ys: seq<T>, f: T -> seq<U>)
    ensures Each(xs + ys, f) == Each(xs, f) + Each(ys, f)
  {
    if xs == [] {
      assert xs + ys == ys;
    } else {
      assert (xs + ys)[0] == xs[0] && (xs + ys)[1..] == xs[1..] + ys;
      EachAppend(xs[1..], ys, f);
    }
  }

  lemma EachSnoc<T, U>(xs: seq<T>, k: nat, f: T -> seq<U>)
    requires k < |xs|
    ensures Each(xs[..k + 1], f) == Each(xs[..k], f) + f(xs[k])
  {
    assert xs[..k + 1] == xs[..k] + [xs[k]];
    EachAppend(xs[..k], [xs[k]], f);
    assert Each([xs[k]], f) == f(xs[k]) + Each([], f);
  }

  /** One more round of an appending loop. */
  lemma Round<T, U>(start: seq<U>, xs: seq<T>, k: nat, f: T -> seq<U>)
    requires k < |xs|
    ensures start + Each(xs[..k], f) + f(xs[k]) == start + Each(xs[..k + 1], f)
  {
    hide Each;
    EachSnoc(xs, k, f);
  }

  lemma NoRounds<T, U>(start: seq<U>, xs: seq<T>, f: T -> seq<U>)
    ensures start == start + Each(xs[..0], f) && xs[..|xs|] == xs
  {
    assert xs[..0] == [];
  }

  lemma {:induction false} EachMember<T, U>(xs: seq<T>, f: T -> seq<U>, u: U)
    ensures u in Each(xs, f) <==> exists x :: x in xs && u in f(x)
  {
    if xs != [] {
      EachMember(xs[1..], f, u);
      assert forall x :: x in xs <==> x == xs[0] || x in xs[1..];
    }
  }

  // ---- findings ----------------------------------------------------------------------------

  function HardFinding(code: Outcome, subject: string): seq<Violation> { [Violation(code, Hard, subject)] }

  function SoftFinding(code: Outcome, conditional: bool, subject: string): seq<Violation> {
    [Violation(code, if conditional then Condition else Informational, subject)]
  }

  function HopKey(h: PathElement): string { ElementKey(h.Ref()) }

  function ElementFindings(i: Inputs, h: PathElement): seq<Violation> {
    if h.Ref() !in i.views.elements then HardFinding(StructurallyInvalid, HopKey(h))
    else
      var r := i.views.elements[h.Ref()];
      if r.retired || r.superseded then HardFinding(StructurallyInvalid, HopKey(h))
      else if r.generation != h.generation then HardFinding(StaleTopology, HopKey(h))
      else []
  }

  function Pairs(hops: seq<PathElement>): seq<(PathElement, PathElement)> {
    if |hops| < 2 then [] else [(hops[0], hops[1])] + Pairs(hops[1..])
  }

  function HopFindings(i: Inputs, p: (PathElement, PathElement)): seq<Violation> {
    if p in i.views.legalHops then [] else HardFinding(StructurallyInvalid, HopKey(p.0) + " -> " + HopKey(p.1))
  }

  function UnderlyingFindings(i: Inputs): seq<Violation> {
    match i.path.underlying
    case None => []
    case Some(u) =>
      if !i.chain.found || i.chain.generation != u.authorityGeneration || !AuthorizingOutcome(i.chain.outcome) then
        HardFinding(RevalidationRequiredOutcome, u.path)
      else []
  }

  /** Whether the effective rules let an authorization that exists outlive this administrative state. */
  predicate Tolerated(i: Inputs, admin: PortAdmin) {
    i.existingAuthorized
    && ((admin.Maintenance? && i.Effective().portAdmin.allowMaintenanceExisting)
        || (admin.Draining? && i.Effective().portAdmin.allowDrainingExisting))
  }

  function PortFindings(i: Inputs, h: PathElement): seq<Violation> {
    if h.kind != Port then []
    else if h.id !in i.views.ports then HardFinding(PortRevalidationRequired, HopKey(h))
    else
      var admin := i.views.ports[h.id].admin;
      if admin.Active? then []
      else if admin.PortRevalidation? || admin.PortUnknown? then HardFinding(PortRevalidationRequired, HopKey(h))
      else if Tolerated(i, admin) then SoftFinding(PortAdminDisabled, true, HopKey(h))
      else HardFinding(PortAdminDisabled, HopKey(h))
  }

  function LinkFindings(i: Inputs, h: PathElement): seq<Violation> {
    if h.kind != Link then []
    else
      var rules := i.Effective().linkState;
      var state := if h.id in i.views.links then i.views.links[h.id].state else LinkUnknown;
      match state
      case Up => []
      case Down => HardFinding(Outcome.LinkDown, HopKey(h))
      case Faulted => HardFinding(Outcome.LinkDown, HopKey(h))
      case LinkRetired => HardFinding(Outcome.LinkDown, HopKey(h))
      case LinkRevalidation => HardFinding(RevalidationRequiredOutcome, HopKey(h))
      case Degraded =>
        if !rules.allowDegraded then HardFinding(Outcome.LinkDegraded, HopKey(h))
        else SoftFinding(Outcome.LinkDegraded, rules.degradedIsConditional, HopKey(h))
      case LinkUnknown =>
        if !rules.allowUnknown then HardFinding(LinkStateUnknown, HopKey(h))
        else SoftFinding(LinkStateUnknown, rules.unknownIsConditional, HopKey(h))
  }

  function CapabilityFindings(i: Inputs, c: CapabilityRequirement): seq<Violation>
    requires Shaped(c.expression)
  {
    match Evaluate(c.expression, i.Lookup(c))
    case Satisfied => []
    case Unsatisfied => HardFinding(CapabilityMissing, CapabilityKey(c.entity, c.key))
    case Unknown =>
      if c.failClosedOnUnknown then HardFinding(CapabilityUnknown, CapabilityKey(c.entity, c.key))
      else SoftFinding(CapabilityUnknown, true, CapabilityKey(c.entity, c.key))
  }

  function CapabilityStage(i: Inputs, cs: seq<CapabilityRequirement>): seq<Violation>
    requires forall c :: c in cs ==> Shaped(c.expression)
  {
    if cs == [] then [] else CapabilityFindings(i, cs[0]) + CapabilityStage(i, cs[1..])
  }

  // ---- failure domains --------------------------------------------------------------------

  predicate Covers(i: Inputs, h: PathElement) { h.Ref() in i.views.covered }

  predicate AllCovered(i: Inputs) { forall h :: h in i.path.hops ==> Covers(i, h) }

  predicate InDomain(i: Inputs, h: PathElement, domain: string) { domain in i.MembersOf(h.Ref()) }

  predicate InClass(i: Inputs, h: PathElement, k: DomainClass) {
    exists d :: d in i.MembersOf(h.Ref()) && i.ClassOf(d) == k
  }

  function Counting<T>(xs: seq<T>, p: T -> bool): nat {
    if xs == [] then 0 else (if p(xs[0]) then 1 else 0) + Counting(xs[1..], p)
  }

  function ForbiddenFindings(i: Inputs, c: DomainConstraint, h: PathElement): seq<Violation> {
    if !Covers(i, h) then HardFinding(FailureDomainCoverageUnknown, HopKey(h))
    else if InDomain(i, h, c.domain) then HardFinding(FailureDomainViolation, HopKey(h))
    else []
  }

  function CountFindings(i: Inputs, c: DomainConstraint, subject: string,
      counted: PathElement -> bool): seq<Violation> {
    if !AllCovered(i) then HardFinding(FailureDomainCoverageUnknown, subject)
    else if Counting(i.path.hops, counted) > c.maxMembers then HardFinding(FailureDomainViolation, subject)
    else []
  }

  function ExcludedMember(i: Inputs, k: DomainClass, code: Outcome, subject: string, d: string): seq<Violation> {
    if i.ClassOf(d) == k then HardFinding(code, subject) else []
  }

  /** The same loop serves the excluded class of a constraint and the forbidden class of the policy. */
  function ExcludedFindings(i: Inputs, k: DomainClass, code: Outcome, h: PathElement): seq<Violation> {
    if !Covers(i, h) then HardFinding(FailureDomainCoverageUnknown, HopKey(h))
    else Each(i.MembersOf(h.Ref()), d => ExcludedMember(i, k, code, HopKey(h), d))
  }

  function CoverageFindings(i: Inputs, h: PathElement): seq<Violation> {
    if !Covers(i, h) then HardFinding(FailureDomainCoverageUnknown, HopKey(h)) else []
  }

  function SharedElementFindings(peer: seq<ElementRef>, h: PathElement): seq<Violation> {
    if h.Ref() in peer then HardFinding(FailureDomainViolation, HopKey(h)) else []
  }

  function SharedDomain(i: Inputs, k: DomainClass, subject: string, d: string, d': string): seq<Violation> {
    if i.ClassOf(d') == k && d' == d then HardFinding(FailureDomainViolation, subject) else []
  }

  function SharedDomainFindings(i: Inputs, peer: seq<ElementRef>, k: DomainClass, h: PathElement,
      d: string): seq<Violation> {
    if i.ClassOf(d) != k then []
    else Each(peer, e => Each(i.MembersOf(e), d' => SharedDomain(i, k, HopKey(h), d, d')))
  }

  function SharedClassFindings(i: Inputs, peer: seq<ElementRef>, k: DomainClass): seq<Violation> {
    Each(i.path.hops, (h: PathElement) => Each(i.MembersOf(h.Ref()), d => SharedDomainFindings(i, peer, k, h, d)))
  }

  predicate PeerCovered(i: Inputs, peer: seq<ElementRef>) { forall e :: e in peer ==> e in i.views.covered }

  function DiversityFindings(i: Inputs, c: DomainConstraint): seq<Violation> {
    if !i.PeerEstablished(c) then HardFinding(FailureDomainCoverageUnknown, c.peerPath)
    else
      var peer := i.PeerElements(c);
      if !PeerCovered(i, peer) || !AllCovered(i) then HardFinding(FailureDomainCoverageUnknown, c.peerPath)
      else Each(i.path.hops, h => SharedElementFindings(peer, h))
           + Each(DiversityClasses(c), k => SharedClassFindings(i, peer, k))
  }

  function DomainFindings(i: Inputs, c: DomainConstraint): seq<Violation> {
    match c.kind
    case ForbiddenDomain => Each(i.path.hops, h => ForbiddenFindings(i, c, h))
    case MaxMembersFromDomain => CountFindings(i, c, c.domain, h => InDomain(i, h, c.domain))
    case MaxMembersFromClass => CountFindings(i, c, Rules.ClassName(c.domainClass), h => InClass(i, h, c.domainClass))
    case ExcludeDomainClass => Each(i.path.hops, h => ExcludedFindings(i, c.domainClass, FailureDomainViolation, h))
    case RequireCoverageCompleteness => Each(i.path.hops, h => CoverageFindings(i, h))
    case DiverseFromPeerPath => DiversityFindings(i, c)
  }

  // ---- policy -------------------------------------------------------------------------------

  function LayerFindings(i: Inputs, h: PathElement): seq<Violation> {
    if Rules.LayerAllowed(i.Effective().allowedLayers, h.layer) then [] else HardFinding(PolicyRejected, HopKey(h))
  }

  /** One finding for every hop whose key was seen before. */
  function RepeatFindings(hops: seq<PathElement>, seen: set<string>): seq<Violation> {
    if hops == [] then []
    else (if HopKey(hops[0]) in seen then HardFinding(PolicyRejected, HopKey(hops[0])) else [])
         + RepeatFindings(hops[1..], seen + {HopKey(hops[0])})
  }

  function LoopFindings(i: Inputs): seq<Violation> {
    if i.Effective().allowLoops then [] else RepeatFindings(i.path.hops, {})
  }

  function LengthFindings(i: Inputs): seq<Violation> {
    if |i.path.hops| > i.Effective().maxHops then HardFinding(PolicyRejected, i.path.id) else []
  }

  function ForbiddenClassFindings(i: Inputs, k: DomainClass): seq<Violation> {
    Each(i.path.hops, h => ExcludedFindings(i, k, PolicyRejected, h))
  }

  // ---- the stages in order --------------------------------------------------------------------

  function StructureStage(i: Inputs): seq<Violation> {
    Each(i.path.hops, h => ElementFindings(i, h)) + Each(Pairs(i.path.hops), p => HopFindings(i, p))
  }

  function PortStage(i: Inputs): seq<Violation> { Each(i.path.hops, h => PortFindings(i, h)) }

  function LinkStage(i: Inputs): seq<Violation> { Each(i.path.hops, h => LinkFindings(i, h)) }

  function DomainStage(i: Inputs): seq<Violation> { Each(i.Effective().failureDomains, c => DomainFindings(i, c)) }

  function PolicyStage(i: Inputs): seq<Violation> {
    Each(i.path.hops, h => LayerFindings(i, h)) + LoopFindings(i) + LengthFindings(i)
    + Each(i.Effective().forbiddenClasses, k => ForbiddenClassFindings(i, k))
  }

  lemma EffectiveShaped(i: Inputs)
    requires Evaluable(i)
    ensures forall c :: c in i.Effective().capabilities ==> Shaped(c.expression)
  {
    hide Shaped, Rules.CombineRules;
    Rules.RulesKeepEveryRequirement(i.constraints, i.policy, i.limits, i.Effective());
  }

  /** Every call of the stage collector that the evaluation makes. */
  function All(i: Inputs): seq<Violation>
    requires Evaluable(i)
  {
    EffectiveShaped(i);
    StructureStage(i) + UnderlyingFindings(i) + PortStage(i) + LinkStage(i)
    + CapabilityStage(i, i.Effective().capabilities) + DomainStage(i) + PolicyStage(i)
  }
}
