/** combine_rules: the effective rules of one evaluation, from a constraint set and the live policy. */
module Rules {
  import opened Base
  import opened Model

  datatype EffectiveRules = EffectiveRules(
    linkState: LinkAcceptance, portAdmin: PortAcceptance,
    allowedLayers: seq<Layer>, allowLoops: bool, maxHops: u32, allowConditional: bool,
    capabilities: seq<CapabilityRequirement>, failureDomains: seq<DomainConstraint>,
    forbiddenClasses: seq<DomainClass>)

  // ---- rendering, as far as the comparators need it ------------------------

  function Decimal(n: nat): string {
    if n < 10 then ["0123456789"[n]] else Decimal(n / 10) + ["0123456789"[n % 10]]
  }

  function RenderInt(n: int): string { if n < 0 then "-" + Decimal(-n) else Decimal(n) }

  function RenderValue(v: CapabilityValue): string {
    match v
    case Unsigned(u) => Decimal(u)
    case Signed(i) => RenderInt(i)
    case Boolean(b) => if b then "true" else "false"
    case Text(t) => t
    case Version(major, minor, patch) => Decimal(major) + "." + Decimal(minor) + "." + Decimal(patch)
  }

  function OpName(op: RequirementOp): string {
    match op
    case Supports => "SUPPORTS"
    case Minimum => "MINIMUM"
    case Maximum => "MAXIMUM"
    case InSet => "IN_SET"
    case VersionAtLeast => "VERSION_AT_LEAST"
    case RangeContains => "RANGE_CONTAINS"
    case AllOf => "ALL_OF"
    case AnyOf => "ANY_OF"
    case Not => "NOT"
  }

  function RenderValues(vs: seq<CapabilityValue>): string {
    if vs == [] then "" else "," + RenderValue(vs[0]) + RenderValues(vs[1..])
  }

  function RenderRequirement(r: Requirement): string
    decreases r, 1
  {
    OpName(r.op) + "(" + (if IsLeaf(r.op) then r.key + RenderValues(r.values) else RenderChildren(r, 0)) + ")"
  }

  function RenderChildren(r: Requirement, i: nat): string
    requires i <= |r.children|
    decreases r, 0, |r.children| - i
  {
    if i == |r.children| then ""
    else (if i == 0 then "" else ",") + RenderRequirement(r.children[i]) + RenderChildren(r, i + 1)
  }

  function ClassCode(c: DomainClass): nat {
    match c
    case UnknownClass => 0 case Power => 1 case Cooling => 2 case Rack => 3 case LineCard => 4
    case SharedRiskLinkGroup => 5 case Site => 6 case Region => 7 case Shelf => 8 case Channel => 9
  }

  function ClassName(c: DomainClass): string {
    match c
    case UnknownClass => "UNKNOWN" case Power => "POWER" case Cooling => "COOLING" case Rack => "RACK"
    case LineCard => "LINE_CARD" case SharedRiskLinkGroup => "SHARED_RISK_LINK_GROUP" case Site => "SITE"
    case Region => "REGION" case Shelf => "SHELF" case Channel => "CHANNEL"
  }

  function ConstraintCode(k: DomainConstraintKind): nat {
    match k
    case ForbiddenDomain => 1 case MaxMembersFromDomain => 2 case MaxMembersFromClass => 3
    case ExcludeDomainClass => 4 case RequireCoverageCompleteness => 5 case DiverseFromPeerPath => 6
  }

  function ConstraintName(k: DomainConstraintKind): string {
    match k
    case ForbiddenDomain => "FORBIDDEN_DOMAIN" case MaxMembersFromDomain => "MAX_MEMBERS_FROM_DOMAIN"
    case MaxMembersFromClass => "MAX_MEMBERS_FROM_CLASS" case ExcludeDomainClass => "EXCLUDE_DOMAIN_CLASS"
    case RequireCoverageCompleteness => "REQUIRE_COVERAGE_COMPLETENESS"
    case DiverseFromPeerPath => "DIVERSE_FROM_PEER_PATH"
  }

  function RenderClasses(cs: seq<DomainClass>): string {
    if cs == [] then "" else ",class=" + ClassName(cs[0]) + RenderClasses(cs[1..])
  }

  function RenderConstraint(c: DomainConstraint): string {
    ConstraintName(c.kind) + "(" + c.domain
    + (if c.domainClass == UnknownClass then "" else (if c.domain != "" then "," else "") + ClassName(c.domainClass))
    + (if c.kind.MaxMembersFromDomain? || c.kind.MaxMembersFromClass? then ",max=" + Decimal(c.maxMembers) else "")
    + (if c.peerPath != "" then ",peer=" + c.peerPath else "")
    + RenderClasses(c.diversityClasses) + ")"
  }

  // ---- comparators and the stable sort --------------------------------------

  predicate CapabilityLess(a: CapabilityRequirement, b: CapabilityRequirement) {
    if a.entity != b.entity then StringLess(a.entity, b.entity)
    else if a.key != b.key then StringLess(a.key, b.key)
    else StringLess(RenderRequirement(a.expression), RenderRequirement(b.expression))
  }

  predicate DomainLess(a: DomainConstraint, b: DomainConstraint) {
    if a.kind != b.kind then ConstraintCode(a.kind) < ConstraintCode(b.kind)
    else if a.domain != b.domain then StringLess(a.domain, b.domain)
    else if a.domainClass != b.domainClass then ClassCode(a.domainClass) < ClassCode(b.domainClass)
    else StringLess(RenderConstraint(a), RenderConstraint(b))
  }


  predicate LayerLess(a: Layer, b: Layer) { LayerCode(a) < LayerCode(b) }

  /** std::stable_sort: an element goes before the ones that do not come before it. */
  function StableSort<T>(xs: seq<T>, less: (T, T) -> bool): seq<T> {
    if xs == [] then [] else InsertSorted(xs[0], StableSort(xs[1..], less), less)
  }

  function InsertSorted<T>(x: T, ys: seq<T>, less: (T, T) -> bool): seq<T> {
    if ys == [] || !less(ys[0], x) then [x] + ys else [ys[0]] + InsertSorted(x, ys[1..], less)
  }

  lemma {:induction false} SortKeepsMembers<T>(xs: seq<T>, less: (T, T) -> bool)
    ensures multiset(StableSort(xs, less)) == multiset(xs)
    ensures forall x :: x in StableSort(xs, less) <==> x in xs
  {
    if xs != [] {
      SortKeepsMembers(xs[1..], less);
      InsertKeepsMembers(xs[0], StableSort(xs[1..], less), less);
      assert xs == [xs[0]] + xs[1..];
    }
    assert forall x :: x in StableSort(xs, less) <==> x in multiset(StableSort(xs, less));
  }

  lemma {:induction false} InsertKeepsMembers<T>(x: T, ys: seq<T>, less: (T, T) -> bool)
    ensures multiset(InsertSorted(x, ys, less)) == multiset{x} + multiset(ys)
  {
    if ys != [] && less(ys[0], x) {
      InsertKeepsMembers(x, ys[1..], less);
      assert ys == [ys[0]] + ys[1..];
    }
  }

  // ---- what the sort does ------------------------------------------------------

  /** A strict weak order: what std::stable_sort asks of its comparator. */
  ghost predicate WeakOrder<T(!new)>(less: (T, T) -> bool) {
    && (forall x, y :: less(x, y) ==> !less(y, x))
    && forall x, y, z :: less(x, z) ==> less(x, y) || less(y, z)
  }

  ghost predicate Sorted<T>(xs: seq<T>, less: (T, T) -> bool) {
    forall a, b :: 0 <= a < b < |xs| ==> !less(xs[b], xs[a])
  }

  lemma {:induction false} InsertSorts<T(!new)>(x: T, ys: seq<T>, less: (T, T) -> bool)
    requires WeakOrder(less) && Sorted(ys, less)
    ensures Sorted(InsertSorted(x, ys, less), less)
  {
    var r := InsertSorted(x, ys, less);
    if ys == [] || !less(ys[0], x) {
      forall a, b | 0 <= a < b < |r| ensures !less(r[b], r[a]) {
        if a == 0 { assert r[b] == ys[b - 1] && (b == 1 || !less(ys[b - 1], ys[0])); }
      }
    } else {
      var rest := InsertSorted(x, ys[1..], less);
      assert Sorted(ys[1..], less);
      InsertSorts(x, ys[1..], less);
      InsertKeepsMembers(x, ys[1..], less);
      forall a, b | 0 <= a < b < |r| ensures !less(r[b], r[a]) {
        if a == 0 {
          assert r[b] in multiset(rest);
          if r[b] != x {
            var k :| 0 <= k < |ys[1..]| && ys[1..][k] == r[b];
            assert ys[k + 1] == r[b];
          }
        } else {
          assert r[a] == rest[a - 1] && r[b] == rest[b - 1];
        }
      }
    }
  }

  lemma {:induction false} SortSorts<T(!new)>(xs: seq<T>, less: (T, T) -> bool)
    requires WeakOrder(less)
    ensures Sorted(StableSort(xs, less), less)
  {
    if xs != [] {
      SortSorts(xs[1..], less);
      InsertSorts(xs[0], StableSort(xs[1..], less), less);
    }
  }

  function Alike<T>(xs: seq<T>, e: T, less: (T, T) -> bool): seq<T> {
    if xs == [] then []
    else (if less(xs[0], e) || less(e, xs[0]) then [] else [xs[0]]) + Alike(xs[1..], e, less)
  }

  lemma {:induction false} InsertIsStable<T(!new)>(x: T, ys: seq<T>, e: T, less: (T, T) -> bool)
    requires WeakOrder(less)
    ensures Alike(InsertSorted(x, ys, less), e, less) == Alike([x] + ys, e, less)
  {
    assert ([x] + ys)[1..] == ys;
    if ys != [] && less(ys[0], x) {
      InsertIsStable(x, ys[1..], e, less);
      assert ([x] + ys[1..])[1..] == ys[1..];
      var r := InsertSorted(x, ys, less);
      assert r == [ys[0]] + InsertSorted(x, ys[1..], less) && r[1..] == InsertSorted(x, ys[1..], less);
    } else {
      assert InsertSorted(x, ys, less) == [x] + ys;
    }
  }

  /** Elements that the order does not tell apart keep their places among each other. */
  lemma {:induction false} SortIsStable<T(!new)>(xs: seq<T>, e: T, less: (T, T) -> bool)
    requires WeakOrder(less)
    ensures Alike(StableSort(xs, less), e, less) == Alike(xs, e, less)
  {
    if xs != [] {
      SortIsStable(xs[1..], e, less);
      InsertIsStable(xs[0], StableSort(xs[1..], less), e, less);
      var rest := StableSort(xs[1..], less);
      assert ([xs[0]] + rest)[1..] == rest;
    }
  }

  /** The order tells any two different members apart. */
  ghost predicate Separates<T>(xs: seq<T>, less: (T, T) -> bool) {
    forall x, y :: x in xs && y in xs && x != y ==> less(x, y) || less(y, x)
  }

  lemma SortedHeads<T(!new)>(a: seq<T>, b: seq<T>, less: (T, T) -> bool)
    requires Sorted(a, less) && Sorted(b, less) && multiset(a) == multiset(b) && Separates(a, less) && a != []
    ensures b != [] && a[0] == b[0]
  {
    assert a[0] in multiset(b);
    assert b[0] in multiset(a);
    var j :| 0 <= j < |b| && b[j] == a[0];
    var k :| 0 <= k < |a| && a[k] == b[0];
  }

  lemma SameRest<T>(a: seq<T>, b: seq<T>)
    requires a != [] && b != [] && a[0] == b[0] && multiset(a) == multiset(b)
    ensures multiset(a[1..]) == multiset(b[1..])
  {
    assert a == [a[0]] + a[1..] && b == [b[0]] + b[1..];
    assert multiset(a[1..]) == multiset(a) - multiset{a[0]} && multiset(b[1..]) == multiset(b) - multiset{b[0]};
  }

  lemma SortedRest<T(!new)>(a: seq<T>, less: (T, T) -> bool)
    requires Sorted(a, less) && a != []
    ensures Sorted(a[1..], less)
    ensures Separates(a, less) ==> Separates(a[1..], less)
  {
    assert forall k :: 0 <= k < |a[1..]| ==> a[1..][k] == a[k + 1];
  }

  lemma {:induction false} SortedIsUnique<T(!new)>(a: seq<T>, b: seq<T>, less: (T, T) -> bool)
    requires Sorted(a, less) && Sorted(b, less) && multiset(a) == multiset(b) && Separates(a, less)
    ensures a == b
  {
    hide Sorted, Separates;
    if a == [] {
      assert |multiset(b)| == 0;
    } else {
      SortedHeads(a, b, less);
      SameRest(a, b);
      SortedRest(a, less);
      SortedRest(b, less);
      SortedIsUnique(a[1..], b[1..], less);
      assert a == [a[0]] + a[1..] && b == [b[0]] + b[1..];
    }
  }

  /** Where the order tells members apart, the sort forgets the order in which they were given. */
  lemma SortIsCanonical<T(!new)>(xs: seq<T>, ys: seq<T>, less: (T, T) -> bool)
    requires WeakOrder(less) && multiset(xs) == multiset(ys) && Separates(xs, less)
    ensures StableSort(xs, less) == StableSort(ys, less)
  {
    SortSorts(xs, less);
    SortSorts(ys, less);
    SortKeepsMembers(xs, less);
    SortKeepsMembers(ys, less);
    SortedIsUnique(StableSort(xs, less), StableSort(ys, less), less);
  }

  lemma SameSortSameMembers<T>(xs: seq<T>, ys: seq<T>, less: (T, T) -> bool)
    requires StableSort(xs, less) == StableSort(ys, less)
    ensures multiset(xs) == multiset(ys)
  {
    SortKeepsMembers(xs, less);
    SortKeepsMembers(ys, less);
  }

  // ---- the comparators are orders --------------------------------------------

  lemma StringsBetween(x: string, y: string, z: string)
    ensures StringLess(x, y) ==> !StringLess(y, x)
    ensures StringLess(x, z) ==> StringLess(x, y) || StringLess(y, z)
    ensures !StringLess(x, y) && !StringLess(y, x) ==> x == y
  {
    hide StringLess;
    StringLessTotal(x, y);
    if StringLess(x, z) && StringLess(y, x) { StringLessTransitive(y, x, z); }
  }

  lemma CapabilityOrder()
    ensures WeakOrder(CapabilityLess)
  {
    hide StringLess, RenderRequirement;
    forall x, y, z ensures (CapabilityLess(x, y) ==> !CapabilityLess(y, x))
      && (CapabilityLess(x, z) ==> CapabilityLess(x, y) || CapabilityLess(y, z)) {
      StringsBetween(x.entity, y.entity, z.entity);
      StringsBetween(x.key, y.key, z.key);
      StringsBetween(RenderRequirement(x.expression), RenderRequirement(y.expression), RenderRequirement(z.expression));
    }
  }

  lemma DomainOrder()
    ensures WeakOrder(DomainLess)
  {
    hide StringLess, RenderConstraint;
    forall x, y, z ensures (DomainLess(x, y) ==> !DomainLess(y, x))
      && (DomainLess(x, z) ==> DomainLess(x, y) || DomainLess(y, z)) {
      StringsBetween(x.domain, y.domain, z.domain);
      StringsBetween(RenderConstraint(x), RenderConstraint(y), RenderConstraint(z));
    }
  }

  lemma LayerOrder(xs: seq<Layer>)
    ensures WeakOrder(LayerLess) && Separates(xs, LayerLess)
  {
  }

  // ---- combine_rules ---------------------------------------------------------

  const ALL_LAYERS: seq<Layer> := [Physical, Logical, Overlay, Control]
  const ALL_CLASSES: seq<DomainClass> :=
    [UnknownClass, Power, Cooling, Rack, LineCard, SharedRiskLinkGroup, Site, Region, Shelf, Channel]

  function Filter<T(==)>(xs: seq<T>, drop: seq<T>): seq<T> {
    if xs == [] then [] else (if xs[0] in drop then [] else [xs[0]]) + Filter(xs[1..], drop)
  }

  /** std::sort followed by std::unique. */
  function SortedDistinct(cs: seq<DomainClass>, candidates: seq<DomainClass>): seq<DomainClass> {
    if candidates == [] then []
    else (if candidates[0] in cs then [candidates[0]] else []) + SortedDistinct(cs, candidates[1..])
  }

  function Min(a: u32, b: u32): u32 { if b < a then b else a }

  function EffectiveLayers(constraints: ConstraintSet, policy: PolicySet): seq<Layer> {
    Filter(if constraints.allowedLayers == [] then ALL_LAYERS else constraints.allowedLayers, policy.forbiddenLayers)
  }

  function EffectiveMaxHops(constraints: ConstraintSet, policy: PolicySet, limits: Limits): u32 {
    var byConstraint := if constraints.maxHops != 0 then Min(limits.maxHops, constraints.maxHops) else limits.maxHops;
    if policy.maxHops != 0 then Min(byConstraint, policy.maxHops) else byConstraint
  }

  function CombineRules(constraints: ConstraintSet, policy: PolicySet, limits: Limits): EffectiveRules {
    EffectiveRules(
      LinkAcceptance(
        constraints.linkState.allowDegraded && policy.linkState.allowDegraded,
        constraints.linkState.degradedIsConditional || policy.linkState.degradedIsConditional,
        constraints.linkState.allowUnknown && policy.linkState.allowUnknown && policy.allowUnknownLinkState,
        constraints.linkState.unknownIsConditional || policy.linkState.unknownIsConditional),
      PortAcceptance(
        constraints.portAdmin.allowDrainingExisting && policy.portAdmin.allowDrainingExisting,
        constraints.portAdmin.allowMaintenanceExisting && policy.portAdmin.allowMaintenanceExisting),
      EffectiveLayers(constraints, policy),
      constraints.allowLoops && policy.allowLoops,
      EffectiveMaxHops(constraints, policy, limits),
      policy.allowConditionalAuthorization,
      StableSort(policy.requiredCapabilities + constraints.capabilities, CapabilityLess),
      StableSort(constraints.failureDomains, DomainLess),
      SortedDistinct(policy.forbiddenDomainClasses, ALL_CLASSES))
  }

  // ---- what the effective rules say about either side -------------------------

  predicate AcceptsDegraded(c: ConstraintSet, p: PolicySet) {
    c.linkState.allowDegraded && p.linkState.allowDegraded
  }

  /** The policy has two switches for unknown links. */
  predicate AcceptsUnknown(c: ConstraintSet, p: PolicySet) {
    c.linkState.allowUnknown && p.linkState.allowUnknown && p.allowUnknownLinkState
  }

  predicate DegradedIsConditional(c: ConstraintSet, p: PolicySet) {
    c.linkState.degradedIsConditional || p.linkState.degradedIsConditional
  }

  predicate UnknownIsConditional(c: ConstraintSet, p: PolicySet) {
    c.linkState.unknownIsConditional || p.linkState.unknownIsConditional
  }

  predicate KeepsDraining(c: ConstraintSet, p: PolicySet) {
    c.portAdmin.allowDrainingExisting && p.portAdmin.allowDrainingExisting
  }

  predicate KeepsMaintenance(c: ConstraintSet, p: PolicySet) {
    c.portAdmin.allowMaintenanceExisting && p.portAdmin.allowMaintenanceExisting
  }

  predicate AcceptsLoops(c: ConstraintSet, p: PolicySet) { c.allowLoops && p.allowLoops }

  /** Zero is no maximum; the limits always have one. */
  predicate AcceptsLength(c: ConstraintSet, p: PolicySet, limits: Limits, n: nat) {
    n <= limits.maxHops && (c.maxHops != 0 ==> n <= c.maxHops) && (p.maxHops != 0 ==> n <= p.maxHops)
  }

  /**
   * The effective rules accept what both sides accept, attach a condition where either side does, and stay within
   * every maximum.
   */
  lemma RulesMeaning(constraints: ConstraintSet, policy: PolicySet, limits: Limits)
    ensures var r := CombineRules(constraints, policy, limits);
            && (r.linkState.allowDegraded <==> AcceptsDegraded(constraints, policy))
            && (r.linkState.allowUnknown <==> AcceptsUnknown(constraints, policy))
            && (r.linkState.degradedIsConditional <==> DegradedIsConditional(constraints, policy))
            && (r.linkState.unknownIsConditional <==> UnknownIsConditional(constraints, policy))
            && (r.portAdmin.allowDrainingExisting <==> KeepsDraining(constraints, policy))
            && (r.portAdmin.allowMaintenanceExisting <==> KeepsMaintenance(constraints, policy))
            && (r.allowLoops <==> AcceptsLoops(constraints, policy))
            && (r.allowConditional <==> policy.allowConditionalAuthorization)
            && forall n: nat :: n <= r.maxHops <==> AcceptsLength(constraints, policy, limits, n)
  {
    hide StableSort, SortedDistinct, EffectiveLayers;
  }

  /** Ascending by entity, then by key, then by what the expression renders to. */
  predicate CapabilitiesOrdered(a: CapabilityRequirement, b: CapabilityRequirement) {
    || StringLess(a.entity, b.entity)
    || (a.entity == b.entity && StringLess(a.key, b.key))
    || (a.entity == b.entity && a.key == b.key
        && !StringLess(RenderRequirement(b.expression), RenderRequirement(a.expression)))
  }

  /** Ascending by kind, then by domain, then by class, then by what the constraint renders to. */
  predicate ConstraintsOrdered(a: DomainConstraint, b: DomainConstraint) {
    || ConstraintCode(a.kind) < ConstraintCode(b.kind)
    || (a.kind == b.kind && StringLess(a.domain, b.domain))
    || (a.kind == b.kind && a.domain == b.domain && ClassCode(a.domainClass) < ClassCode(b.domainClass))
    || (a.kind == b.kind && a.domain == b.domain && a.domainClass == b.domainClass
        && !StringLess(RenderConstraint(b), RenderConstraint(a)))
  }

  /** The lists that are checked are in canonical order; requirements that tie keep the policy's before the set's. */
  lemma RulesAreOrdered(constraints: ConstraintSet, policy: PolicySet, limits: Limits)
    ensures var r := CombineRules(constraints, policy, limits);
            && (forall j, k :: 0 <= j < k < |r.capabilities| ==>
                 CapabilitiesOrdered(r.capabilities[j], r.capabilities[k]))
            && (forall j, k :: 0 <= j < k < |r.failureDomains| ==>
                  ConstraintsOrdered(r.failureDomains[j], r.failureDomains[k]))
            && Ascends(r.forbiddenClasses)
            && (forall e :: Alike(r.capabilities, e, CapabilityLess) ==
                            Alike(policy.requiredCapabilities + constraints.capabilities, e, CapabilityLess))
            && (forall e :: Alike(r.failureDomains, e, DomainLess) == Alike(constraints.failureDomains, e, DomainLess))
  {
    hide StableSort, SortedDistinct, EffectiveLayers, EffectiveMaxHops, Alike, StringLess, RenderRequirement,
      RenderConstraint, ConstraintCode, ClassCode, CapabilityLess, DomainLess, CapabilitiesOrdered,
      ConstraintsOrdered, Ascends;
    var r := CombineRules(constraints, policy, limits);
    var required := policy.requiredCapabilities + constraints.capabilities;
    CapabilityOrder();
    DomainOrder();
    SortSorts(required, CapabilityLess);
    SortSorts(constraints.failureDomains, DomainLess);
    forall e
      ensures Alike(r.capabilities, e, CapabilityLess) == Alike(required, e, CapabilityLess)
    {
      SortIsStable(required, e, CapabilityLess);
    }
    forall e
      ensures Alike(r.failureDomains, e, DomainLess) == Alike(constraints.failureDomains, e, DomainLess)
    {
      SortIsStable(constraints.failureDomains, e, DomainLess);
    }
    assert r.capabilities == StableSort(required, CapabilityLess)
      && r.failureDomains == StableSort(constraints.failureDomains, DomainLess);
    forall j, k | 0 <= j < k < |r.capabilities| ensures CapabilitiesOrdered(r.capabilities[j], r.capabilities[k]) {
      NotAfter(r.capabilities[j], r.capabilities[k]);
    }
    forall j, k | 0 <= j < k < |r.failureDomains|
      ensures ConstraintsOrdered(r.failureDomains[j], r.failureDomains[k])
    {
      NotAfterConstraint(r.failureDomains[j], r.failureDomains[k]);
    }
    DistinctAscend(policy.forbiddenDomainClasses);
  }

  lemma NotAfter(a: CapabilityRequirement, b: CapabilityRequirement)
    requires !CapabilityLess(b, a)
    ensures CapabilitiesOrdered(a, b)
  {
    hide StringLess, RenderRequirement;
    StringLessTotal(a.entity, b.entity);
    StringLessTotal(a.key, b.key);
  }

  lemma NotAfterConstraint(a: DomainConstraint, b: DomainConstraint)
    requires !DomainLess(b, a)
    ensures ConstraintsOrdered(a, b)
  {
    hide StringLess, RenderConstraint;
    StringLessTotal(a.domain, b.domain);
  }

  lemma DistinctAscend(cs: seq<DomainClass>)
    ensures Ascends(SortedDistinct(cs, ALL_CLASSES))
  {
    hide ClassCode;
    forall j, k | 0 <= j < k < |ALL_CLASSES| ensures ClassCode(ALL_CLASSES[j]) < ClassCode(ALL_CLASSES[k]) {
      ClassCodesAre(j);
      ClassCodesAre(k);
    }
    DistinctKeepsOrder(cs, ALL_CLASSES);
  }

  lemma ClassCodesAre(k: nat)
    requires k < |ALL_CLASSES|
    ensures ClassCode(ALL_CLASSES[k]) == k
  {
  }

  ghost predicate Ascends(cs: seq<DomainClass>) {
    forall j, k :: 0 <= j < k < |cs| ==> ClassCode(cs[j]) < ClassCode(cs[k])
  }

  lemma AscendsCons(c: DomainClass, cs: seq<DomainClass>)
    requires Ascends(cs) && forall x :: x in cs ==> ClassCode(c) < ClassCode(x)
    ensures Ascends([c] + cs)
  {
    hide ClassCode;
    var r := [c] + cs;
    forall j, k | 0 <= j < k < |r| ensures ClassCode(r[j]) < ClassCode(r[k]) {
      assert r[k] == cs[k - 1];
      if j > 0 { assert r[j] == cs[j - 1] && ClassCode(cs[j - 1]) < ClassCode(cs[k - 1]); }
    }
  }

  lemma {:induction false} DistinctKeepsOrder(cs: seq<DomainClass>, candidates: seq<DomainClass>)
    requires Ascends(candidates)
    ensures Ascends(SortedDistinct(cs, candidates))
  {
    hide ClassCode;
    if candidates != [] {
      var rest := candidates[1..];
      assert forall j :: 0 <= j < |rest| ==> rest[j] == candidates[j + 1];
      DistinctKeepsOrder(cs, rest);
      SortedDistinctMembers(cs, rest);
      if candidates[0] in cs {
        AscendsCons(candidates[0], SortedDistinct(cs, rest));
      } else {
        assert [] + SortedDistinct(cs, rest) == SortedDistinct(cs, rest);
      }
    }
  }

  /** PathLayerPolicy::allows: an empty list allows every layer. */
  predicate LayerAllowed(layers: seq<Layer>, layer: Layer) { layers == [] || layer in layers }

  lemma {:induction false} FilterMembers<T>(xs: seq<T>, drop: seq<T>)
    ensures forall x :: x in Filter(xs, drop) <==> x in xs && x !in drop
  {
    if xs != [] {
      FilterMembers(xs[1..], drop);
      assert xs == [xs[0]] + xs[1..];
    }
  }

  lemma {:induction false} SortedDistinctMembers(cs: seq<DomainClass>, candidates: seq<DomainClass>)
    ensures forall c :: c in SortedDistinct(cs, candidates) <==> c in cs && c in candidates
  {
    if candidates != [] {
      SortedDistinctMembers(cs, candidates[1..]);
      assert candidates == [candidates[0]] + candidates[1..];
    }
  }

  predicate PermittedLayer(constraints: ConstraintSet, policy: PolicySet, layer: Layer) {
    LayerAllowed(constraints.allowedLayers, layer) && layer !in policy.forbiddenLayers
  }

  /** A layer passes exactly when it is permitted, or when no layer is. */
  lemma LayerRuleMeaning(constraints: ConstraintSet, policy: PolicySet, limits: Limits, layer: Layer)
    ensures LayerAllowed(CombineRules(constraints, policy, limits).allowedLayers, layer) <==>
            PermittedLayer(constraints, policy, layer) || forall l :: !PermittedLayer(constraints, policy, l)
  {
    hide StableSort, SortedDistinct, EffectiveMaxHops;
    var base := if constraints.allowedLayers == [] then ALL_LAYERS else constraints.allowedLayers;
    var eff := EffectiveLayers(constraints, policy);
    FilterMembers(base, policy.forbiddenLayers);
    forall l: Layer ensures l in ALL_LAYERS { assert ALL_LAYERS[LayerCode(l) - 1] == l; }
    assert forall l :: l in eff <==> PermittedLayer(constraints, policy, l);
    assert eff != [] ==> eff[0] in eff;
  }

  /**
   * The layer rule is the intersection of the two permissions, as the documentation promises, exactly when
   * that intersection is not empty; when it is empty the code permits every layer.
   */
  lemma LayerRuleIsIntersection(constraints: ConstraintSet, policy: PolicySet, limits: Limits)
    ensures (forall l :: LayerAllowed(CombineRules(constraints, policy, limits).allowedLayers, l)
                         <==> PermittedLayer(constraints, policy, l))
            <==> exists l :: PermittedLayer(constraints, policy, l)
  {
    hide StableSort, SortedDistinct, EffectiveMaxHops, EffectiveLayers, LayerAllowed, PermittedLayer;
    forall l: Layer
      ensures LayerAllowed(CombineRules(constraints, policy, limits).allowedLayers, l) <==>
              PermittedLayer(constraints, policy, l) || forall p :: !PermittedLayer(constraints, policy, p)
    {
      LayerRuleMeaning(constraints, policy, limits, l);
    }
    assert LayerAllowed(CombineRules(constraints, policy, limits).allowedLayers, Physical) <==>
           PermittedLayer(constraints, policy, Physical) || forall p :: !PermittedLayer(constraints, policy, p);
  }

  /** The effective lists hold every requirement and prohibition of both sides and nothing else. */
  lemma RulesKeepEveryRequirement(constraints: ConstraintSet, policy: PolicySet, limits: Limits, rules: EffectiveRules)
    requires rules == CombineRules(constraints, policy, limits)
    ensures forall c :: c in rules.capabilities <==> c in policy.requiredCapabilities || c in constraints.capabilities
    ensures forall c :: c in rules.failureDomains <==> c in constraints.failureDomains
    ensures forall c :: c in rules.forbiddenClasses <==> c in policy.forbiddenDomainClasses
  {
    SortKeepsMembers(policy.requiredCapabilities + constraints.capabilities, CapabilityLess);
    SortKeepsMembers(constraints.failureDomains, DomainLess);
    SortedDistinctMembers(policy.forbiddenDomainClasses, ALL_CLASSES);
    forall c: DomainClass ensures c in ALL_CLASSES { assert ALL_CLASSES[ClassCode(c)] == c; }
  }

  method FilterLayers(layers: seq<Layer>, drop: seq<Layer>) returns (filtered: seq<Layer>)
    ensures filtered == Filter(layers, drop)
  {
    filtered := [];
    for i := 0 to |layers|
      invariant filtered + Filter(layers[i..], drop) == Filter(layers, drop)
    {
      assert layers[i..][0] == layers[i] && layers[i..][1..] == layers[i + 1..];
      ghost var rest := Filter(layers[i + 1..], drop);
      if layers[i] !in drop {
        assert filtered + ([layers[i]] + rest) == (filtered + [layers[i]]) + rest;
        filtered := filtered + [layers[i]];
      } else {
        assert [] + rest == rest;
      }
    }
    assert filtered + [] == filtered;
  }

  /** The step-by-step construction of the rules. */
  method Combine(constraints: ConstraintSet, policy: PolicySet, limits: Limits) returns (rules: EffectiveRules)
    ensures rules == CombineRules(constraints, policy, limits)
  {
    var layers := constraints.allowedLayers;
    if layers == [] { layers := ALL_LAYERS; }
    FilterNothing(layers);
    if policy.forbiddenLayers != [] {
      layers := FilterLayers(layers, policy.forbiddenLayers);
    }
    var maxHops := limits.maxHops;
    if constraints.maxHops != 0 { maxHops := Min(maxHops, constraints.maxHops); }
    if policy.maxHops != 0 { maxHops := Min(maxHops, policy.maxHops); }
    var linkState := LinkAcceptance(
      constraints.linkState.allowDegraded && policy.linkState.allowDegraded,
      constraints.linkState.degradedIsConditional || policy.linkState.degradedIsConditional,
      constraints.linkState.allowUnknown && policy.linkState.allowUnknown && policy.allowUnknownLinkState,
      constraints.linkState.unknownIsConditional || policy.linkState.unknownIsConditional);
    var portAdmin := PortAcceptance(
      constraints.portAdmin.allowDrainingExisting && policy.portAdmin.allowDrainingExisting,
      constraints.portAdmin.allowMaintenanceExisting && policy.portAdmin.allowMaintenanceExisting);
    var capabilities := policy.requiredCapabilities + constraints.capabilities;
    rules := EffectiveRules(
      linkState, portAdmin, layers, constraints.allowLoops && policy.allowLoops, maxHops,
      policy.allowConditionalAuthorization,
      StableSort(capabilities, CapabilityLess), StableSort(constraints.failureDomains, DomainLess),
      SortedDistinct(policy.forbiddenDomainClasses, ALL_CLASSES));
  }

  lemma {:induction false} FilterNothing<T>(xs: seq<T>)
    ensures Filter(xs, []) == xs
  {
    if xs != [] {
      FilterNothing(xs[1..]);
      assert xs == [xs[0]] + xs[1..];
    }
  }
}
