/** The checks of an evaluation in order, and the grounds on which each refuses a path or attaches a condition to it. */
module Grounds {
  import opened Base
  import opened Model
  import opened Views
  import Flattening = Findings
  import Requirements
  import Rules

  datatype Check =
    | ElementCheck(h: PathElement)
    | PairCheck(a: PathElement, b: PathElement)
    | UnderlyingCheck
    | PortCheck(h: PathElement)
    | LinkCheck(h: PathElement)
    | CapabilityCheck(r: CapabilityRequirement)
    | ForbiddenCheck(c: DomainConstraint, h: PathElement)
    | CountCheck(c: DomainConstraint)
    | ExcludeCheck(c: DomainConstraint, h: PathElement)
    | CoverageCheck(h: PathElement)
    | PeerCheck(c: DomainConstraint)
    | SharedElementCheck(c: DomainConstraint, h: PathElement)
    | SharedDomainCheck(c: DomainConstraint, k: DomainClass, h: PathElement)
    | LayerCheck(h: PathElement)
    | RepeatCheck(n: nat)
    | LengthCheck
    | ForbiddenClassCheck(k: DomainClass, h: PathElement)

  // ---- the order --------------------------------------------------------------------------

  function On<T>(xs: seq<T>, check: T -> Check): seq<Check> { seq(|xs|, n requires 0 <= n < |xs| => check(xs[n])) }

  function OnPairs(hops: seq<PathElement>): seq<Check> {
    seq(if hops == [] then 0 else |hops| - 1, n requires 0 <= n < |hops| - 1 => PairCheck(hops[n], hops[n + 1]))
  }

  /** Without a choice of its own, a diversity constraint compares every class but the unknown one. */
  function ComparedClasses(c: DomainConstraint): seq<DomainClass> {
    if c.diversityClasses == [] then Rules.ALL_CLASSES[1..] else c.diversityClasses
  }

  function DomainChecks(c: DomainConstraint, hops: seq<PathElement>): seq<Check> {
    match c.kind
    case ForbiddenDomain => On(hops, h => ForbiddenCheck(c, h))
    case MaxMembersFromDomain => [CountCheck(c)]
    case MaxMembersFromClass => [CountCheck(c)]
    case ExcludeDomainClass => On(hops, h => ExcludeCheck(c, h))
    case RequireCoverageCompleteness => On(hops, h => CoverageCheck(h))
    case DiverseFromPeerPath =>
      [PeerCheck(c)] + On(hops, h => SharedElementCheck(c, h))
      + Flattening.Each(ComparedClasses(c), k => On(hops, h => SharedDomainCheck(c, k, h)))
  }

  function StructureChecks(i: Inputs): seq<Check> { On(i.path.hops, h => ElementCheck(h)) + OnPairs(i.path.hops) }

  function PolicyChecks(i: Inputs): seq<Check> {
    var hops := i.path.hops;
    On(hops, h => LayerCheck(h)) + seq(|hops|, n requires 0 <= n => RepeatCheck(n)) + [LengthCheck]
    + Flattening.Each(i.Effective().forbiddenClasses, k => On(hops, h => ForbiddenClassCheck(k, h)))
  }

  /** Stage by stage, and along the path within a stage. */
  function Checks(i: Inputs): seq<Check> {
    var hops := i.path.hops;
    StructureChecks(i) + [UnderlyingCheck] + On(hops, h => PortCheck(h)) + On(hops, h => LinkCheck(h))
    + On(i.Effective().capabilities, r => CapabilityCheck(r))
    + Flattening.Each(i.Effective().failureDomains, c => DomainChecks(c, hops))
    + PolicyChecks(i)
  }

  // ---- what the views say ----------------------------------------------------------------------

  /** An absent record is an unknown state. */
  function StateOf(i: Inputs, link: string): LinkState {
    if link in i.views.links then i.views.links[link].state else LinkUnknown
  }

  /** An authorization that exists outlives draining and maintenance where the set and the policy both say so. */
  predicate Outlives(i: Inputs, admin: PortAdmin) {
    i.existingAuthorized
    && ((admin.Draining? && Rules.KeepsDraining(i.constraints, i.policy))
        || (admin.Maintenance? && Rules.KeepsMaintenance(i.constraints, i.policy)))
  }

  predicate Known(i: Inputs, r: CapabilityRequirement) {
    (r.entity, r.key) in i.views.capabilities && i.views.capabilities[(r.entity, r.key)].known
  }

  predicate Offers(i: Inputs, r: CapabilityRequirement)
    requires Known(i, r) && Requirements.Shaped(r.expression)
  {
    Requirements.Holds(r.expression, i.views.capabilities[(r.entity, r.key)].value)
  }

  predicate Belongs(i: Inputs, e: ElementRef, domain: string) {
    e in i.views.memberships && domain in i.views.memberships[e]
  }

  /** An unregistered domain is of the unknown class. */
  predicate OfClass(i: Inputs, domain: string, k: DomainClass) {
    if domain in i.views.domains then i.views.domains[domain].domainClass == k else k == UnknownClass
  }

  ghost predicate TouchesClass(i: Inputs, e: ElementRef, k: DomainClass) {
    exists d :: Belongs(i, e, d) && OfClass(i, d, k)
  }

  predicate Charted(i: Inputs, e: ElementRef) { e in i.views.covered }

  predicate PathCharted(i: Inputs) { forall h :: h in i.path.hops ==> Charted(i, h.Ref()) }

  /** The places on the path that a counting constraint counts. */
  ghost function Counted(i: Inputs, c: DomainConstraint): set<nat> {
    set n: nat | n < |i.path.hops| &&
      if c.kind.MaxMembersFromDomain? then Belongs(i, i.path.hops[n].Ref(), c.domain)
      else TouchesClass(i, i.path.hops[n].Ref(), c.domainClass)
  }

  predicate HasPeer(i: Inputs, c: DomainConstraint) {
    c.peerPath in i.peers && i.peers[c.peerPath].found && AuthorizingOutcome(i.peers[c.peerPath].outcome)
  }

  /** Diversity is judged over an established peer with both paths charted. */
  predicate Comparable(i: Inputs, c: DomainConstraint) {
    HasPeer(i, c) && PathCharted(i) && forall e :: e in i.peers[c.peerPath].elements ==> Charted(i, e)
  }

  ghost predicate SharesDomain(i: Inputs, c: DomainConstraint, k: DomainClass, h: PathElement)
    requires HasPeer(i, c)
  {
    exists d, e :: Belongs(i, h.Ref(), d) && OfClass(i, d, k) && e in i.peers[c.peerPath].elements && Belongs(i, e, d)
  }

  function Name(h: PathElement): string { ElementKey(h.Ref()) }

  // ---- grounds ------------------------------------------------------------------------------------

  /** The check refuses the path with this code, about this subject. */
  ghost predicate Refuses(i: Inputs, s: Check, code: Outcome, subject: string) {
    match s
    case ElementCheck(h) => subject == Name(h) && ElementRefuses(i, h, code)
    case PairCheck(a, b) =>
      subject == Name(a) + " -> " + Name(b) && code == StructurallyInvalid && (a, b) !in i.views.legalHops
    case UnderlyingCheck =>
      i.path.underlying.Some? && subject == i.path.underlying.value.path && code == RevalidationRequiredOutcome
      && !(i.chain.found && i.chain.generation == i.path.underlying.value.authorityGeneration
           && AuthorizingOutcome(i.chain.outcome))
    case PortCheck(h) => h.kind == Port && subject == Name(h) && PortRefuses(i, h.id, code)
    case LinkCheck(h) => h.kind == Link && subject == Name(h) && LinkRefuses(i, StateOf(i, h.id), code)
    case CapabilityCheck(r) =>
      Requirements.Shaped(r.expression) && subject == r.entity + "|" + r.key
      && ((code == CapabilityMissing && Known(i, r) && !Offers(i, r))
          || (code == CapabilityUnknown && !Known(i, r) && r.failClosedOnUnknown))
    case LayerCheck(h) =>
      subject == Name(h) && code == PolicyRejected
      && !Rules.PermittedLayer(i.constraints, i.policy, h.layer)
      && exists l :: Rules.PermittedLayer(i.constraints, i.policy, l)
    case RepeatCheck(n) =>
      n < |i.path.hops| && subject == Name(i.path.hops[n]) && code == PolicyRejected
      && !Rules.AcceptsLoops(i.constraints, i.policy)
      && exists m :: 0 <= m < n && i.path.hops[m].Ref() == i.path.hops[n].Ref()
    case LengthCheck =>
      subject == i.path.id && code == PolicyRejected
      && !Rules.AcceptsLength(i.constraints, i.policy, i.limits, |i.path.hops|)
    case _ => DomainRefuses(i, s, code, subject)
  }

  predicate ElementRefuses(i: Inputs, h: PathElement, code: Outcome) {
    var present := h.Ref() in i.views.elements;
    var live := present && !i.views.elements[h.Ref()].retired && !i.views.elements[h.Ref()].superseded;
    (code == StructurallyInvalid && !live)
    || (code == StaleTopology && live && i.views.elements[h.Ref()].generation != h.generation)
  }

  predicate PortRefuses(i: Inputs, port: string, code: Outcome) {
    if port !in i.views.ports || i.views.ports[port].admin in {PortRevalidation, PortUnknown} then
      code == PortRevalidationRequired
    else
      code == PortAdminDisabled && i.views.ports[port].admin != Active && !Outlives(i, i.views.ports[port].admin)
  }

  predicate LinkRefuses(i: Inputs, state: LinkState, code: Outcome) {
    || (code == Outcome.LinkDown && state in {Down, Faulted, LinkRetired})
    || (code == RevalidationRequiredOutcome && state == LinkRevalidation)
    || (code == Outcome.LinkDegraded && state == Degraded && !Rules.AcceptsDegraded(i.constraints, i.policy))
    || (code == LinkStateUnknown && state == LinkUnknown && !Rules.AcceptsUnknown(i.constraints, i.policy))
  }

  /** Missing coverage refuses before membership does. */
  ghost predicate MemberRefuses(i: Inputs, h: PathElement, member: bool, violation: Outcome, code: Outcome) {
    if Charted(i, h.Ref()) then member && code == violation else code == FailureDomainCoverageUnknown
  }

  ghost predicate DomainRefuses(i: Inputs, s: Check, code: Outcome, subject: string) {
    match s
    case ForbiddenCheck(c, h) =>
      subject == Name(h) && MemberRefuses(i, h, Belongs(i, h.Ref(), c.domain), FailureDomainViolation, code)
    case CountCheck(c) =>
      subject == (if c.kind.MaxMembersFromDomain? then c.domain else Rules.ClassName(c.domainClass))
      && if PathCharted(i) then |Counted(i, c)| > c.maxMembers && code == FailureDomainViolation
         else code == FailureDomainCoverageUnknown
    case ExcludeCheck(c, h) =>
      subject == Name(h)
      && MemberRefuses(i, h, TouchesClass(i, h.Ref(), c.domainClass), FailureDomainViolation, code)
    case CoverageCheck(h) => subject == Name(h) && MemberRefuses(i, h, false, FailureDomainViolation, code)
    case PeerCheck(c) => subject == c.peerPath && !Comparable(i, c) && code == FailureDomainCoverageUnknown
    case SharedElementCheck(c, h) =>
      Comparable(i, c) && subject == Name(h) && h.Ref() in i.peers[c.peerPath].elements
      && code == FailureDomainViolation
    case SharedDomainCheck(c, k, h) =>
      Comparable(i, c) && subject == Name(h) && SharesDomain(i, c, k, h) && code == FailureDomainViolation
    case ForbiddenClassCheck(k, h) =>
      subject == Name(h) && MemberRefuses(i, h, TouchesClass(i, h.Ref(), k), PolicyRejected, code)
    case _ => false
  }

  /** The check lets the path pass under a condition with this code, about this subject. */
  ghost predicate Conditions(i: Inputs, s: Check, code: Outcome, subject: string) {
    match s
    case PortCheck(h) =>
      h.kind == Port && subject == Name(h) && code == PortAdminDisabled
      && h.id in i.views.ports && Outlives(i, i.views.ports[h.id].admin)
    case LinkCheck(h) =>
      h.kind == Link && subject == Name(h) && LinkAccepted(i, StateOf(i, h.id), code)
      && if code == LinkStateUnknown then Rules.UnknownIsConditional(i.constraints, i.policy)
         else Rules.DegradedIsConditional(i.constraints, i.policy)
    case CapabilityCheck(r) =>
      Requirements.Shaped(r.expression) && subject == r.entity + "|" + r.key
      && code == CapabilityUnknown && !Known(i, r) && !r.failClosedOnUnknown
    case _ => false
  }

  /** The check only notes something about the path. */
  ghost predicate Notes(i: Inputs, s: Check, code: Outcome, subject: string) {
    s.LinkCheck? && s.h.kind == Link && subject == Name(s.h) && LinkAccepted(i, StateOf(i, s.h.id), code)
    && if code == LinkStateUnknown then !Rules.UnknownIsConditional(i.constraints, i.policy)
       else !Rules.DegradedIsConditional(i.constraints, i.policy)
  }

  predicate LinkAccepted(i: Inputs, state: LinkState, code: Outcome) {
    || (code == Outcome.LinkDegraded && state == Degraded && Rules.AcceptsDegraded(i.constraints, i.policy))
    || (code == LinkStateUnknown && state == LinkUnknown && Rules.AcceptsUnknown(i.constraints, i.policy))
  }

  ghost predicate Says(i: Inputs, s: Check, v: Violation) {
    match v.severity
    case Hard => Refuses(i, s, v.code, v.subject)
    case Condition => Conditions(i, s, v.code, v.subject)
    case Informational => Notes(i, s, v.code, v.subject)
    case Primary => false
  }

  lemma HopRefusesOnce(i: Inputs, h: PathElement, code: Outcome, code': Outcome)
    ensures ElementRefuses(i, h, code) && ElementRefuses(i, h, code') ==> code == code'
    ensures PortRefuses(i, h.id, code) && PortRefuses(i, h.id, code') ==> code == code'
    ensures LinkRefuses(i, StateOf(i, h.id), code) && LinkRefuses(i, StateOf(i, h.id), code') ==> code == code'
  {
    hide Outlives, StateOf, Rules.AcceptsDegraded, Rules.AcceptsUnknown;
  }

  lemma RefusesOnce(i: Inputs, s: Check, code: Outcome, subject: string, code': Outcome, subject': string)
    requires Refuses(i, s, code, subject) && Refuses(i, s, code', subject')
    ensures code == code' && subject == subject'
  {
    hide Requirements.Shaped, Requirements.Holds, Name, Rules.PermittedLayer, Rules.AcceptsLength, DomainRefuses,
      Rules.AcceptsLoops, StateOf, ElementRefuses, PortRefuses, LinkRefuses, Known, Offers, LayerCode;
    match s
    case ElementCheck(h) => HopRefusesOnce(i, h, code, code');
    case PortCheck(h) => HopRefusesOnce(i, h, code, code');
    case LinkCheck(h) => HopRefusesOnce(i, h, code, code');
    case PairCheck(_, _) =>
    case UnderlyingCheck =>
    case CapabilityCheck(_) =>
    case LayerCheck(_) =>
    case RepeatCheck(_) =>
    case LengthCheck =>
    case _ => DomainRefusesOnce(i, s, code, subject, code', subject');
  }

  lemma DomainRefusesOnce(i: Inputs, s: Check, code: Outcome, subject: string, code': Outcome, subject': string)
    requires DomainRefuses(i, s, code, subject) && DomainRefuses(i, s, code', subject')
    ensures code == code' && subject == subject'
  {
    hide Name, Rules.ClassName, Counted, TouchesClass, SharesDomain, PathCharted, Belongs, Charted, Comparable,
      HasPeer;
    match s
    case CountCheck(_) =>
    case PeerCheck(_) =>
    case SharedElementCheck(_, _) =>
    case SharedDomainCheck(_, _, _) =>
    case _ =>
  }

  lemma ConditionsOnce(i: Inputs, s: Check, code: Outcome, subject: string, code': Outcome, subject': string)
    requires Conditions(i, s, code, subject) || Notes(i, s, code, subject)
    requires Conditions(i, s, code', subject') || Notes(i, s, code', subject')
    ensures code == code' && subject == subject' && !(Conditions(i, s, code, subject) && Notes(i, s, code, subject))
  {
    hide Requirements.Shaped, Name;
  }

  lemma RefusesAlone(i: Inputs, s: Check, code: Outcome, subject: string, code': Outcome, subject': string)
    requires Refuses(i, s, code, subject)
    ensures !Conditions(i, s, code', subject') && !Notes(i, s, code', subject')
  {
    hide Requirements.Holds, Requirements.Shaped, Name, Rules.PermittedLayer, Rules.AcceptsLength;
  }

  /** A check says at most one thing. */
  lemma SaysOnce(i: Inputs, s: Check, v: Violation, v': Violation)
    requires Says(i, s, v) && Says(i, s, v')
    ensures v == v'
  {
    hide Refuses, Conditions, Notes;
    if v.severity.Hard? && v'.severity.Hard? {
      RefusesOnce(i, s, v.code, v.subject, v'.code, v'.subject);
    } else if v.severity.Hard? {
      RefusesAlone(i, s, v.code, v.subject, v'.code, v'.subject);
    } else if v'.severity.Hard? {
      RefusesAlone(i, s, v'.code, v'.subject, v.code, v.subject);
    } else {
      ConditionsOnce(i, s, v.code, v.subject, v'.code, v'.subject);
    }
  }

  ghost predicate Unrefused(i: Inputs, s: Check) {
    forall code: Outcome, subject: string :: !Refuses(i, s, code, subject)
  }

  ghost predicate Unconditioned(i: Inputs, s: Check) {
    forall code: Outcome, subject: string :: !Conditions(i, s, code, subject)
  }
}
