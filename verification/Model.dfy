/** The value types of Path Authority: limits, paths, constraints, policy, evidence entries and outcomes. */
module Model {
  import opened Base

  datatype Limits = Limits(
    maxHops: u32, maxIdLength: u32, maxMetadataBytes: u32,
    maxConstraints: u32, maxCapabilityValues: u32, maxRequirementNodes: u32, maxRequirementDepth: u32,
    maxFailureDomainRefs: u32, maxNestingDepth: u32,
    maxPaths: u32, maxExplanationEntries: u32, maxDependenciesPerPath: u32,
    maxOutstandingAttempts: u32, maxPublishers: u32,
    maxHistory: u32, maxFrameBytes: u32, maxStoreBytes: u32, maxStoreRecords: u32)

  // ---- paths ---------------------------------------------------------------

  datatype ElementKind =
    | Endpoint | Port | Link | Switch | Router | LogicalHop | PhysicalHop | Tunnel | FabricBoundary | SiteBoundary

  datatype Layer = Physical | Logical | Overlay | Control

  function LayerCode(l: Layer): nat { match l case Physical => 1 case Logical => 2 case Overlay => 3 case Control => 4 }

  datatype Relation = NoRelation | FanOut | Containment | Dependency | TunnelUnderlay

  datatype PathType = PhysicalPath | LogicalPath

  datatype ElementRef = ElementRef(kind: ElementKind, id: string)

  datatype PathElement = PathElement(kind: ElementKind, id: string, generation: u64, layer: Layer, relation: Relation) {
    function Ref(): ElementRef { ElementRef(kind, id) }
  }

  datatype UnderlyingRef = UnderlyingRef(path: string, authorityGeneration: u64, nestingDepth: u16)

  datatype PathDefinition = PathDefinition(
    id: string, generation: u64, pathType: PathType, scope: string,
    constraintSet: string, constraintGeneration: u64,
    hops: seq<PathElement>, underlying: Option<UnderlyingRef>)

  function KindName(kind: ElementKind): string {
    match kind
    case Endpoint => "ENDPOINT"
    case Port => "PORT"
    case Link => "LINK"
    case Switch => "SWITCH"
    case Router => "ROUTER"
    case LogicalHop => "LOGICAL_HOP"
    case PhysicalHop => "PHYSICAL_HOP"
    case Tunnel => "TUNNEL"
    case FabricBoundary => "FABRIC_BOUNDARY"
    case SiteBoundary => "SITE_BOUNDARY"
  }

  /** ElementRef::render and element_key: both produce "KIND:id". */
  function ElementKey(ref: ElementRef): string {
    KindName(ref.kind) + ":" + ref.id
  }

  // ---- capabilities --------------------------------------------------------

  datatype CapabilityValue =
    | Unsigned(u: u64)
    | Signed(i: i64)
    | Boolean(b: bool)
    | Text(t: string)
    | Version(major: u32, minor: u32, patch: u32)

  type i64 = x: int | -0x8000_0000_0000_0000 <= x <= 0x7FFF_FFFF_FFFF_FFFF

  datatype RequirementOp =
    | Supports | Minimum | Maximum | InSet | VersionAtLeast | RangeContains | AllOf | AnyOf | Not

  datatype Requirement = Requirement(
    op: RequirementOp, key: string, values: seq<CapabilityValue>, children: seq<Requirement>)

  predicate IsLeaf(op: RequirementOp) {
    op != AllOf && op != AnyOf && op != Not
  }

  datatype CapabilityRequirement = CapabilityRequirement(
    entity: string, key: string, expression: Requirement, failClosedOnUnknown: bool)

  function CapabilityKey(entity: string, key: string): string {
    entity + "|" + key
  }

  // ---- constraint sets and policy ------------------------------------------

  datatype DomainClass =
    | UnknownClass | Power | Cooling | Rack | LineCard | SharedRiskLinkGroup | Site | Region | Shelf | Channel

  datatype DomainConstraintKind =
    | ForbiddenDomain | MaxMembersFromDomain | MaxMembersFromClass | ExcludeDomainClass
    | RequireCoverageCompleteness | DiverseFromPeerPath

  /** peer.path is "" when the constraint names no peer. */
  datatype DomainConstraint = DomainConstraint(
    kind: DomainConstraintKind, domain: string, domainClass: DomainClass, maxMembers: u32,
    peerPath: string, peerGeneration: u64, diversityClasses: seq<DomainClass>)

  datatype LinkAcceptance = LinkAcceptance(
    allowDegraded: bool, degradedIsConditional: bool, allowUnknown: bool, unknownIsConditional: bool)

  datatype PortAcceptance = PortAcceptance(allowDrainingExisting: bool, allowMaintenanceExisting: bool)

  datatype ConstraintSet = ConstraintSet(
    id: string, generation: u64, scope: string,
    capabilities: seq<CapabilityRequirement>, failureDomains: seq<DomainConstraint>,
    linkState: LinkAcceptance, portAdmin: PortAcceptance,
    allowedLayers: seq<Layer>, allowLoops: bool, maxHops: u32)

  datatype PolicySet = PolicySet(
    generation: u64, scope: string, linkState: LinkAcceptance, portAdmin: PortAcceptance,
    requiredCapabilities: seq<CapabilityRequirement>, forbiddenDomainClasses: seq<DomainClass>,
    forbiddenLayers: seq<Layer>, allowLoops: bool, maxHops: u32,
    allowConditionalAuthorization: bool, allowUnknownLinkState: bool)

  // ---- evidence ------------------------------------------------------------

  datatype EvidenceKind =
    | Topology | StructuralElement | LinkStateKind | PortConfig | Capability
    | FailureDomain | Policy | Epoch | Constraints | UnderlyingAuthority

  function EvidenceCode(kind: EvidenceKind): nat {
    match kind
    case Topology => 1
    case StructuralElement => 2
    case LinkStateKind => 3
    case PortConfig => 4
    case Capability => 5
    case FailureDomain => 6
    case Policy => 7
    case Epoch => 8
    case Constraints => 9
    case UnderlyingAuthority => 10
  }

  datatype EvidenceEntry = EvidenceEntry(kind: EvidenceKind, subject: string, generation: u64)

  /** EvidenceVector::kScalarSubject. */
  const SELF: string := "self"

  // ---- outcomes ------------------------------------------------------------

  datatype AuthorityState =
    | UnknownState | Authorized | ConditionallyAuthorized | RevalidationRequired | Rejected | Revoked | Stale | Retired

  datatype Outcome =
    | AuthorizedOutcome | Idempotent | ConditionallyAuthorizedOutcome
    | MalformedPath | ResourceLimit | StructurallyInvalid | StaleTopology | ConstraintSetUnknown
    | PathRetired | PathUnknown
    | PortAdminDisabled | PortRevalidationRequired
    | LinkDown | LinkDegraded | LinkStateUnknown
    | CapabilityMissing | CapabilityUnknown
    | FailureDomainViolation | FailureDomainCoverageUnknown
    | StaleEpoch | StaleAuthority | RevalidationRequiredOutcome
    | PolicyRejected | RevokedOutcome | EvaluationAttemptConflict

  /** state_for_outcome. */
  function StateForOutcome(outcome: Outcome): AuthorityState {
    match outcome
    case AuthorizedOutcome => Authorized
    case ConditionallyAuthorizedOutcome => ConditionallyAuthorized
    case RevalidationRequiredOutcome => RevalidationRequired
    case PathRetired => Retired
    case RevokedOutcome => Revoked
    case StaleEpoch => Stale
    case StaleAuthority => Stale
    case Idempotent => UnknownState
    case _ => Rejected
  }

  /** is_authorizing_outcome. */
  predicate AuthorizingOutcome(outcome: Outcome) {
    outcome.AuthorizedOutcome? || outcome.ConditionallyAuthorizedOutcome? || outcome.Idempotent?
  }

  predicate AuthorizingState(state: AuthorityState) {
    state.Authorized? || state.ConditionallyAuthorized?
  }

  datatype Severity = Primary | Hard | Condition | Informational

  /** A violation without its free-text detail. */
  datatype Violation = Violation(code: Outcome, severity: Severity, subject: string)

  // ---- revocation ------------------------------------------------------------

  /** RevocationReason::ADMINISTRATIVE; reasons are 1 to 9. */
  const ADMINISTRATIVE: nat := 1

  datatype Revocation = Revocation(
    reason: nat, explanation: string, generation: u64, epoch: u64, authority: string, attempt: string, durable: bool)
}
