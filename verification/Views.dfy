/** The evidence views, read at one instant, and the inputs of one evaluation. */
module Views {
  import opened Base
  import opened Model
  import opened Requirements
  import Rules

  datatype StructuralRecord = StructuralRecord(generation: u64, retired: bool, superseded: bool)

  datatype LinkState = LinkUnknown | Up | Down | Degraded | Faulted | LinkRetired | LinkRevalidation
  datatype LinkRecord = LinkRecord(state: LinkState, generation: u64)

  datatype PortAdmin =
    | PortUnknown | Active | AdminDisabled | PortRetired | Superseded | Maintenance | PortRevalidation | Draining
  datatype PortRecord = PortRecord(admin: PortAdmin, generation: u64)

  datatype DomainRecord = DomainRecord(domainClass: DomainClass, generation: u64)

  /** check_hop is an arbitrary relation on adjacent hops. */
  datatype Views = Views(
    topologyGeneration: u64,
    elements: map<ElementRef, StructuralRecord>, legalHops: set<(PathElement, PathElement)>,
    ports: map<string, PortRecord>, links: map<string, LinkRecord>,
    capabilities: map<(string, string), CapabilityRecord>,
    domains: map<string, DomainRecord>, memberships: map<ElementRef, seq<string>>,
    covered: set<ElementRef>, membershipGenerations: map<ElementRef, u64>)

  /** The fields that mean something when there is an underlying path. */
  datatype Chain = Chain(found: bool, generation: u64, outcome: Outcome)

  datatype Peer = Peer(found: bool, outcome: Outcome, elements: seq<ElementRef>)

  datatype Inputs = Inputs(
    path: PathDefinition, views: Views, limits: Limits, constraints: ConstraintSet, policy: PolicySet, epoch: u64,
    chain: Chain, peers: map<string, Peer>, existingAuthorized: bool)
  {
    function Effective(): Rules.EffectiveRules { Rules.CombineRules(constraints, policy, limits) }

    function Lookup(c: CapabilityRequirement): CapabilityRecord {
      if (c.entity, c.key) in views.capabilities then views.capabilities[(c.entity, c.key)]
      else CapabilityRecord(false, Unsigned(0), 0)
    }

    function MembersOf(e: ElementRef): seq<string> { if e in views.memberships then views.memberships[e] else [] }

    function ClassOf(domain: string): DomainClass {
      if domain in views.domains then views.domains[domain].domainClass else UnknownClass
    }

    /** The peer record of a diversity constraint, when its authority is established. */
    predicate PeerEstablished(c: DomainConstraint) {
      c.peerPath in peers && peers[c.peerPath].found && AuthorizingOutcome(peers[c.peerPath].outcome)
    }

    function PeerElements(c: DomainConstraint): seq<ElementRef>
      requires PeerEstablished(c)
    {
      peers[c.peerPath].elements
    }
  }

  /** The evaluator dereferences the operands of every requirement, so each tree has to have its shape. */
  predicate Evaluable(i: Inputs) {
    (forall c :: c in i.constraints.capabilities ==> Shaped(c.expression))
    && forall c :: c in i.policy.requiredCapabilities ==> Shaped(c.expression)
  }

  function DiversityClasses(c: DomainConstraint): seq<DomainClass> {
    if c.diversityClasses != [] then c.diversityClasses
    else [Power, Cooling, Rack, LineCard, SharedRiskLinkGroup, Site, Region, Shelf, Channel]
  }
}
