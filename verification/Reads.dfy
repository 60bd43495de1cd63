/** The evidence that an evaluation binds: every view it consults, with the generation it saw. */
module Reads {
  import opened Base
  import opened Model
  import opened Evidence
  import opened Views
  import opened Findings
  import opened RuntimeState
  import opened Watermarks
  import Rules

  // ---- bounded set calls -----------------------------------------------------------------

  /** A run of set calls under the limits: the vector, and whether some call was refused. */
  function SetAll(es: seq<EvidenceEntry>, updates: seq<EvidenceEntry>, limits: Limits): (seq<EvidenceEntry>, bool)
    decreases |updates|
  {
    if updates == [] then (es, false)
    else if Fits(es, updates[0], limits) then SetAll(Put(es, updates[0]), updates[1..], limits)
    else (SetAll(es, updates[1..], limits).0, true)
  }

  lemma {:induction false} SetAllAppend(es: seq<EvidenceEntry>, a: seq<EvidenceEntry>, b: seq<EvidenceEntry>,
      limits: Limits)
    ensures SetAll(es, a + b, limits) ==
            (SetAll(SetAll(es, a, limits).0, b, limits).0, SetAll(es, a, limits).1
              || SetAll(SetAll(es, a, limits).0, b, limits).1)
    decreases |a|
  {
    hide Fits, Put;
    if a == [] {
      assert a + b == b;
    } else {
      assert (a + b)[0] == a[0] && (a + b)[1..] == a[1..] + b;
      SetAllAppend(if Fits(es, a[0], limits) then Put(es, a[0]) else es, a[1..], b, limits);
    }
  }

  lemma {:induction false} PutMembers(es: seq<EvidenceEntry>, e: EvidenceEntry, x: EvidenceEntry)
    ensures x in Put(es, e) ==> x == e || x in es
  {
    hide Less;
    if es != [] { PutMembers(es[1..], e, x); }
  }

  lemma {:induction false} SetAllMembers(es: seq<EvidenceEntry>, updates: seq<EvidenceEntry>, limits: Limits,
      x: EvidenceEntry)
    requires x in SetAll(es, updates, limits).0
    ensures x in es || x in updates
    decreases |updates|
  {
    hide Fits, Put;
    if updates != [] {
      PutMembers(es, updates[0], x);
      SetAllMembers(if Fits(es, updates[0], limits) then Put(es, updates[0]) else es, updates[1..], limits, x);
    }
  }

  lemma {:induction false} SetAllCanonical(es: seq<EvidenceEntry>, updates: seq<EvidenceEntry>, limits: Limits)
    requires Canonical(es)
    ensures Canonical(SetAll(es, updates, limits).0)
    decreases |updates|
  {
    hide Fits, Put, Canonical;
    if updates != [] {
      PutCanonical(es, updates[0]);
      SetAllCanonical(if Fits(es, updates[0], limits) then Put(es, updates[0]) else es, updates[1..], limits);
    }
  }

  /** Without overflow the limits play no part. */
  lemma {:induction false} SetAllWithoutOverflow(es: seq<EvidenceEntry>, updates: seq<EvidenceEntry>, limits: Limits)
    requires !SetAll(es, updates, limits).1
    ensures SetAll(es, updates, limits).0 == PutAll(es, updates)
    decreases |updates|
  {
    hide Fits, Put;
    if updates != [] { SetAllWithoutOverflow(Put(es, updates[0]), updates[1..], limits); }
  }

  // ---- what is read ---------------------------------------------------------------------------

  function Entry(kind: EvidenceKind, subject: string, generation: u64): seq<EvidenceEntry> {
    [EvidenceEntry(kind, subject, generation)]
  }

  function ScalarReads(i: Inputs): seq<EvidenceEntry> {
    [EvidenceEntry(Epoch, SELF, i.epoch), EvidenceEntry(Policy, SELF, i.policy.generation),
     EvidenceEntry(Constraints, SELF, i.constraints.generation),
       EvidenceEntry(Topology, SELF, i.views.topologyGeneration)]
  }

  /** Absent subjects are bound at generation zero. */
  function ElementGeneration(v: Views, e: ElementRef): u64 { if e in v.elements then v.elements[e].generation else 0 }
  function PortGeneration(v: Views, id: string): u64 { if id in v.ports then v.ports[id].generation else 0 }
  function LinkGeneration(v: Views, id: string): u64 { if id in v.links then v.links[id].generation else 0 }
  function DomainGeneration(v: Views, d: string): u64 { if d in v.domains then v.domains[d].generation else 0 }
  function MembershipGeneration(v: Views, e: ElementRef): u64 {
    if e in v.membershipGenerations then v.membershipGenerations[e] else 0
  }

  function ElementReads(v: Views, e: ElementRef): seq<EvidenceEntry> {
    Entry(StructuralElement, ElementKey(e), ElementGeneration(v, e))
  }

  function PortReads(v: Views, e: ElementRef): seq<EvidenceEntry> {
    if e.kind == Port then Entry(PortConfig, ElementKey(e), PortGeneration(v, e.id)) else []
  }

  function LinkReads(v: Views, e: ElementRef): seq<EvidenceEntry> {
    if e.kind == Link then Entry(LinkStateKind, ElementKey(e), LinkGeneration(v, e.id)) else []
  }

  function UnderlyingReads(i: Inputs): seq<EvidenceEntry> {
    if i.path.underlying.Some? && i.chain.found then
      Entry(UnderlyingAuthority, UnderlyingSubject(i.path.underlying.value.path), i.chain.generation)
    else []
  }

  function CapabilityGeneration(v: Views, c: (string, string)): u64 {
    if c in v.capabilities && v.capabilities[c].known then v.capabilities[c].generation else 0
  }

  function CapabilityReads(v: Views, c: (string, string)): seq<EvidenceEntry> {
    Entry(Capability, CapabilityKey(c.0, c.1), CapabilityGeneration(v, c))
  }

  function DomainReads(v: Views, d: string): seq<EvidenceEntry> {
    Entry(FailureDomain, DomainSubject(d), DomainGeneration(v, d))
  }

  /** The membership of one element and the record of every domain it belongs to. */
  function MembershipReads(i: Inputs, e: ElementRef): seq<EvidenceEntry> {
    Entry(FailureDomain, MembershipSubject(e), MembershipGeneration(i.views, e))
    + Each(i.MembersOf(e), d => DomainReads(i.views, d))
  }

  /** The elements whose membership one failure-domain constraint asks for. */
  function AskedBy(i: Inputs, c: DomainConstraint): seq<ElementRef> {
    if c.kind != DiverseFromPeerPath then RefsOf(i.path.hops)
    else if i.PeerEstablished(c) then i.PeerElements(c) + RefsOf(i.path.hops)
    else []
  }

  predicate DomainStageNeeded(i: Inputs) {
    i.constraints.failureDomains != [] || i.Effective().forbiddenClasses != []
  }

  function Asked(i: Inputs): seq<ElementRef> {
    (if DomainStageNeeded(i) then RefsOf(i.path.hops) else [])
    + Each(i.Effective().failureDomains, c => AskedBy(i, c))
    + Each(i.Effective().forbiddenClasses, k => RefsOf(i.path.hops))
  }

  /** Each element is read the first time it is asked for. */
  function FirstAsked(es: seq<ElementRef>, cached: set<string>): seq<ElementRef> {
    if es == [] then []
    else (if ElementKey(es[0]) in cached then [] else [es[0]]) + FirstAsked(es[1..], cached + {ElementKey(es[0])})
  }

  /** Every set call of the evaluation, in order. */
  function AllReads(i: Inputs): seq<EvidenceEntry> {
    ScalarReads(i)
    + Each(RefsOf(i.path.hops), e => ElementReads(i.views, e))
    + UnderlyingReads(i)
    + Each(RefsOf(i.path.hops), e => PortReads(i.views, e))
    + Each(RefsOf(i.path.hops), e => LinkReads(i.views, e))
    + Each(CapabilityPairs(i.Effective().capabilities), c => CapabilityReads(i.views, c))
    + Each(FirstAsked(Asked(i), {}), e => MembershipReads(i, e))
  }

  /** The bound evidence vector. */
  function EvidenceOf(i: Inputs): seq<EvidenceEntry> { SetAll([], AllReads(i), i.limits).0 }

  predicate Overflows(i: Inputs) { SetAll([], AllReads(i), i.limits).1 }

  // ---- where the bound evidence is filed --------------------------------------------------------

  predicate IsScalarRead(e: EvidenceEntry) {
    (e.kind == Topology || e.kind == Epoch || e.kind == Policy || e.kind == Constraints) && e.subject == SELF
  }

  predicate IsHopRead(i: Inputs, e: EvidenceEntry) {
    (e.kind == StructuralElement || e.kind == PortConfig || e.kind == LinkStateKind)
    && exists r :: r in RefsOf(i.path.hops) && e.subject == ElementKey(r)
  }

  predicate IsUnderlyingRead(i: Inputs, e: EvidenceEntry) {
    e.kind == UnderlyingAuthority && i.path.underlying.Some?
      && e.subject == UnderlyingSubject(i.path.underlying.value.path)
  }

  predicate IsCapabilityRead(i: Inputs, e: EvidenceEntry) {
    e.kind == Capability
    && exists c :: c in CapabilityPairs(i.Effective().capabilities) && e.subject == CapabilityKey(c.0, c.1)
  }

  /** A read about one of the path's elements. */
  lemma HopReads(i: Inputs, r: ElementRef, e: EvidenceEntry)
    requires r in RefsOf(i.path.hops)
    requires e in ElementReads(i.views, r) || e in PortReads(i.views, r) || e in LinkReads(i.views, r)
    ensures IsHopRead(i, e)
  {
    hide ElementKey, RefsOf;
  }

  lemma MembershipReadsAreDomains(i: Inputs, r: ElementRef, e: EvidenceEntry)
    requires e in MembershipReads(i, r)
    ensures e.kind == FailureDomain
  {
    hide MembershipSubject, DomainSubject, Each;
    EachMember(i.MembersOf(r), d => DomainReads(i.views, d), e);
  }

  lemma OtherReads(i: Inputs, e: EvidenceEntry)
    ensures e in ScalarReads(i) ==> IsScalarRead(e)
    ensures e in UnderlyingReads(i) ==> IsUnderlyingRead(i, e)
    ensures forall c :: c in CapabilityPairs(i.Effective().capabilities) && e in CapabilityReads(i.views, c) ==>
              IsCapabilityRead(i, e)
  {
    hide CapabilityKey, Rules.CombineRules, CapabilityPairs;
  }

  /** What an entry of the bound evidence can be about. */
  lemma ReadsAreOfKind(i: Inputs, e: EvidenceEntry)
    requires e in AllReads(i)
    ensures IsScalarRead(e) || IsHopRead(i, e) || IsUnderlyingRead(i, e) || IsCapabilityRead(i, e)
            || e.kind == FailureDomain
  {
    hide ElementReads, PortReads, LinkReads, CapabilityReads, ScalarReads, UnderlyingReads, MembershipReads,
      Rules.CombineRules, RefsOf, CapabilityPairs, Asked, FirstAsked, Each, IsScalarRead, IsHopRead, IsUnderlyingRead,
      IsCapabilityRead;
    var refs := RefsOf(i.path.hops);
    var caps := CapabilityPairs(i.Effective().capabilities);
    OtherReads(i, e);
    EachMember(refs, r => ElementReads(i.views, r), e);
    EachMember(refs, r => PortReads(i.views, r), e);
    EachMember(refs, r => LinkReads(i.views, r), e);
    EachMember(caps, c => CapabilityReads(i.views, c), e);
    EachMember(FirstAsked(Asked(i), {}), r => MembershipReads(i, r), e);
    if r :| r in refs && (e in ElementReads(i.views, r) || e in PortReads(i.views, r) || e in LinkReads(i.views, r)) {
      HopReads(i, r, e);
    } else if r :| r in FirstAsked(Asked(i), {}) && e in MembershipReads(i, r) {
      MembershipReadsAreDomains(i, r, e);
    }
  }

  lemma EvidenceIsOfKind(i: Inputs, e: EvidenceEntry)
    requires e in EvidenceOf(i)
    ensures IsScalarRead(e) || IsHopRead(i, e) || IsUnderlyingRead(i, e) || IsCapabilityRead(i, e)
            || e.kind == FailureDomain
  {
    hide AllReads, IsScalarRead, IsHopRead, IsUnderlyingRead, IsCapabilityRead, SetAll;
    SetAllMembers([], AllReads(i), i.limits, e);
    ReadsAreOfKind(i, e);
  }

  /** The element and underlying lists of a record that was built for this path, whatever set was registered then. */
  predicate StructureFiled(d: Dependencies, p: PathDefinition) {
    d.elements == RefsOf(p.hops) && (p.underlying.Some? ==> p.underlying.value.path in d.underlying)
  }

  predicate CapabilitiesFiled(d: Dependencies, i: Inputs) {
    d.capabilities == CapabilityPairs(i.Effective().capabilities)
  }

  lemma DependenciesFileStructure(p: PathDefinition, sets: map<string, ConstraintSet>, policy: PolicySet,
      limits: Limits)
    ensures StructureFiled(DependenciesOf(p, sets, policy, limits), p)
  {
    hide Rules.CombineRules, RefsOf;
  }

  lemma ElementKeyNotEmpty(e: ElementRef)
    ensures ElementKey(e) != ""
  {
  }

  /**
   * Evidence about the scalars, the path's own elements, ports and links, and its underlying path is filed for
   * invalidation under any constraint set that is registered when the decision commits. Capability evidence is
   * when the record lists the requirements that the evaluation read.
   */
  lemma ComputedEvidenceIsCovered(i: Inputs, d: Dependencies, e: EvidenceEntry)
    requires e in EvidenceOf(i) && e.kind != FailureDomain
    requires StructureFiled(d, i.path) && (i.path.underlying.Some? ==> i.path.underlying.value.path != "")
    requires e.kind == Capability ==> CapabilitiesFiled(d, i)
    ensures Covered(d, KeyOf(e))
  {
    hide EvidenceOf, RefsOf, CapabilityPairs, Rules.CombineRules, ElementKey, CapabilityKey;
    EvidenceIsOfKind(i, e);
    if IsHopRead(i, e) {
      var r :| r in RefsOf(i.path.hops) && e.subject == ElementKey(r);
      ElementKeyNotEmpty(r);
      assert IndexKey(ElementIndex, e.subject) in IndexKeys(d);
    } else if IsUnderlyingRead(i, e) {
      var path := i.path.underlying.value.path;
      assert UnderlyingSubject(path)[..11] == "underlying:" && UnderlyingSubject(path)[11..] == path;
      assert IndexKey(UnderlyingIndex, path) in IndexKeys(d);
    } else if IsCapabilityRead(i, e) {
      var c :| c in CapabilityPairs(i.Effective().capabilities) && e.subject == CapabilityKey(c.0, c.1);
      CapabilityKeyNotEmpty(c.0, c.1);
      assert IndexKey(CapabilityIndex, e.subject) in IndexKeys(d);
    }
  }

  lemma CapabilityKeyNotEmpty(entity: string, key: string)
    ensures CapabilityKey(entity, key) != ""
  {
  }

  /** Membership evidence about the path's own elements is filed under the elements themselves. */
  lemma OwnMembershipIsCovered(i: Inputs, d: Dependencies, r: ElementRef)
    requires StructureFiled(d, i.path) && r in RefsOf(i.path.hops)
    ensures Covered(d, (FailureDomain, MembershipSubject(r)))
  {
    hide RefsOf, ElementKey;
    ElementKeyNotEmpty(r);
    assert MembershipSubject(r)[..7] == "member:" && MembershipSubject(r)[7..] == ElementKey(r);
    assert MembershipSubject(r)[0] == 'm';
    assert IndexKey(ElementIndex, ElementKey(r)) in IndexKeys(d);
  }

  lemma EvidenceCanonical(i: Inputs)
    ensures Canonical(EvidenceOf(i))
  {
    hide AllReads, SetAll;
    SetAllCanonical([], AllReads(i), i.limits);
  }
}
