/** An evaluation binds what it consults: every subject, at the generation the views show, and nothing else. */
module Bindings {
  import opened Base
  import opened Model
  import opened Evidence
  import opened RuntimeState
  import opened Views
  import opened Findings
  import opened Reads
  import opened Evaluation
  import Currentness
  import Grounds
  import PathShape
  import Rules

  /** An element whose memberships are consulted: one of the path's where domains matter, or one of a peer's. */
  ghost predicate Charts(i: Inputs, e: ElementRef) {
    || ((i.constraints.failureDomains != [] || i.policy.forbiddenDomainClasses != [])
        && exists h :: h in i.path.hops && h.Ref() == e)
    || exists c :: c in i.constraints.failureDomains && c.kind == DiverseFromPeerPath && Grounds.HasPeer(i, c)
                   && e in i.peers[c.peerPath].elements
  }

  predicate ScalarConsulted(i: Inputs, x: EvidenceEntry) {
    x.subject == SELF
    && match x.kind
       case Epoch => x.generation == i.epoch
       case Policy => x.generation == i.policy.generation
       case Constraints => x.generation == i.constraints.generation
       case Topology => x.generation == i.views.topologyGeneration
       case _ => false
  }

  /** A subject that the view does not have is at generation zero. */
  predicate HopConsulted(i: Inputs, h: PathElement, x: EvidenceEntry) {
    x.subject == ElementKey(h.Ref())
    && match x.kind
       case StructuralElement =>
         x.generation == if h.Ref() in i.views.elements then i.views.elements[h.Ref()].generation else 0
       case PortConfig =>
         h.kind == Port && x.generation == if h.id in i.views.ports then i.views.ports[h.id].generation else 0
       case LinkStateKind =>
         h.kind == Link && x.generation == if h.id in i.views.links then i.views.links[h.id].generation else 0
       case _ => false
  }

  predicate UnderlyingConsulted(i: Inputs, x: EvidenceEntry) {
    i.path.underlying.Some? && i.chain.found && x.kind == UnderlyingAuthority
    && x.subject == "underlying:" + i.path.underlying.value.path && x.generation == i.chain.generation
  }

  predicate CapabilityConsulted(i: Inputs, r: CapabilityRequirement, x: EvidenceEntry) {
    x.kind == Capability && x.subject == r.entity + "|" + r.key
    && x.generation == if Grounds.Known(i, r) then i.views.capabilities[(r.entity, r.key)].generation else 0
  }

  predicate MembershipConsulted(i: Inputs, e: ElementRef, x: EvidenceEntry) {
    x.kind == FailureDomain && x.subject == "member:" + ElementKey(e)
    && x.generation == if e in i.views.membershipGenerations then i.views.membershipGenerations[e] else 0
  }

  predicate DomainConsulted(i: Inputs, d: string, x: EvidenceEntry) {
    x.kind == FailureDomain && x.subject == "domain:" + d
    && x.generation == if d in i.views.domains then i.views.domains[d].generation else 0
  }

  ghost predicate Consulted(i: Inputs, x: EvidenceEntry) {
    || ScalarConsulted(i, x)
    || (exists h :: h in i.path.hops && HopConsulted(i, h, x))
    || UnderlyingConsulted(i, x)
    || (exists r :: r in i.policy.requiredCapabilities && CapabilityConsulted(i, r, x))
    || (exists r :: r in i.constraints.capabilities && CapabilityConsulted(i, r, x))
    || (exists e :: Charts(i, e) && MembershipConsulted(i, e, x))
    || exists e, d :: Charts(i, e) && Grounds.Belongs(i, e, d) && DomainConsulted(i, d, x)
  }

  // ---- the reads, stage by stage ------------------------------------------------------------------------

  lemma {:induction false} RefsMembers(hops: seq<PathElement>, e: ElementRef)
    ensures e in RefsOf(hops) <==> exists h :: h in hops && h.Ref() == e
  {
    if hops != [] {
      RefsMembers(hops[1..], e);
      assert forall h :: h in hops <==> h == hops[0] || h in hops[1..];
    }
  }

  lemma {:induction false} PairsMembers(cs: seq<CapabilityRequirement>, c: (string, string))
    ensures c in CapabilityPairs(cs) <==> exists r :: r in cs && (r.entity, r.key) == c
  {
    if cs != [] {
      PairsMembers(cs[1..], c);
      assert forall r :: r in cs <==> r == cs[0] || r in cs[1..];
    }
  }

  lemma ScalarsRead(i: Inputs, x: EvidenceEntry)
    ensures x in ScalarReads(i) <==> ScalarConsulted(i, x)
  {
  }

  lemma HopRead(i: Inputs, h: PathElement, x: EvidenceEntry)
    ensures x in ElementReads(i.views, h.Ref()) || x in PortReads(i.views, h.Ref()) || x in LinkReads(i.views, h.Ref())
            <==> HopConsulted(i, h, x)
  {
    hide ElementKey;
  }

  ghost predicate ReadOfHop(i: Inputs, e: ElementRef, x: EvidenceEntry) {
    x in ElementReads(i.views, e) || x in PortReads(i.views, e) || x in LinkReads(i.views, e)
  }

  lemma HopsRead(i: Inputs, x: EvidenceEntry)
    ensures x in Each(RefsOf(i.path.hops), e => ElementReads(i.views, e))
            || x in Each(RefsOf(i.path.hops), e => PortReads(i.views, e))
            || x in Each(RefsOf(i.path.hops), e => LinkReads(i.views, e))
            <==> exists h :: h in i.path.hops && HopConsulted(i, h, x)
  {
    hide ElementReads, PortReads, LinkReads, RefsOf, HopConsulted, Each;
    var refs := RefsOf(i.path.hops);
    EachMember(refs, e => ElementReads(i.views, e), x);
    EachMember(refs, e => PortReads(i.views, e), x);
    EachMember(refs, e => LinkReads(i.views, e), x);
    forall e ensures e in refs <==> exists h :: h in i.path.hops && h.Ref() == e { RefsMembers(i.path.hops, e); }
    if e :| e in refs && ReadOfHop(i, e, x) {
      var h :| h in i.path.hops && h.Ref() == e;
      HopRead(i, h, x);
    }
    if h :| h in i.path.hops && HopConsulted(i, h, x) {
      HopRead(i, h, x);
      assert h.Ref() in refs && ReadOfHop(i, h.Ref(), x);
    }
  }

  lemma UnderlyingRead(i: Inputs, x: EvidenceEntry)
    ensures x in UnderlyingReads(i) <==> UnderlyingConsulted(i, x)
  {
  }

  lemma CapabilityRead(i: Inputs, r: CapabilityRequirement, x: EvidenceEntry)
    ensures x in CapabilityReads(i.views, (r.entity, r.key)) <==> CapabilityConsulted(i, r, x)
  {
  }

  lemma CapabilitiesRead(i: Inputs, x: EvidenceEntry)
    ensures x in Each(CapabilityPairs(i.Effective().capabilities), c => CapabilityReads(i.views, c)) <==>
            (exists r :: r in i.policy.requiredCapabilities && CapabilityConsulted(i, r, x))
            || (exists r :: r in i.constraints.capabilities && CapabilityConsulted(i, r, x))
  {
    hide CapabilityReads, CapabilityPairs, CapabilityConsulted, Rules.CombineRules, Each;
    var rules := i.Effective();
    var pairs := CapabilityPairs(rules.capabilities);
    Rules.RulesKeepEveryRequirement(i.constraints, i.policy, i.limits, rules);
    EachMember(pairs, c => CapabilityReads(i.views, c), x);
    if c :| c in pairs && x in CapabilityReads(i.views, c) {
      PairsMembers(rules.capabilities, c);
      var r :| r in rules.capabilities && (r.entity, r.key) == c;
      CapabilityRead(i, r, x);
    }
    if r :| r in rules.capabilities && CapabilityConsulted(i, r, x) {
      PairsMembers(rules.capabilities, (r.entity, r.key));
      CapabilityRead(i, r, x);
      assert (r.entity, r.key) in pairs;
    }
  }

  lemma {:induction false} FirstAskedMembers(es: seq<ElementRef>, cached: set<string>, e: ElementRef)
    ensures e in FirstAsked(es, cached) <==> e in es && ElementKey(e) !in cached
  {
    hide ElementKey;
    if es != [] {
      FirstAskedMembers(es[1..], cached + {ElementKey(es[0])}, e);
      if ElementKey(e) == ElementKey(es[0]) { PathShape.ElementKeyInjective(e, es[0]); }
      assert e in es <==> e == es[0] || e in es[1..];
    }
  }

  lemma AskedByMembers(i: Inputs, c: DomainConstraint, e: ElementRef)
    ensures e in AskedBy(i, c) <==>
            || (c.kind != DiverseFromPeerPath && e in RefsOf(i.path.hops))
            || (c.kind == DiverseFromPeerPath && Grounds.HasPeer(i, c)
                && (e in i.peers[c.peerPath].elements || e in RefsOf(i.path.hops)))
  {
  }

  lemma AskedIsCharted(i: Inputs, e: ElementRef)
    ensures e in Asked(i) <==> Charts(i, e)
  {
    hide RefsOf, AskedBy, Rules.CombineRules, Each, AuthorizingOutcome;
    var rules, refs := i.Effective(), RefsOf(i.path.hops);
    Rules.RulesKeepEveryRequirement(i.constraints, i.policy, i.limits, rules);
    EachMember(rules.failureDomains, c => AskedBy(i, c), e);
    EachMember(rules.forbiddenClasses, k => refs, e);
    RefsMembers(i.path.hops, e);
    forall c
      ensures e in AskedBy(i, c) <==>
              || (c.kind != DiverseFromPeerPath && e in refs)
              || (c.kind == DiverseFromPeerPath && Grounds.HasPeer(i, c)
                  && (e in i.peers[c.peerPath].elements || e in refs))
    {
      AskedByMembers(i, c, e);
    }
    ForbiddenKept(rules.forbiddenClasses, i.policy.forbiddenDomainClasses);
    if i.constraints.failureDomains != [] {
      assert i.constraints.failureDomains[0] in rules.failureDomains;
    }
  }

  lemma ForbiddenKept(a: seq<DomainClass>, b: seq<DomainClass>)
    requires forall k :: k in a <==> k in b
    ensures a == [] <==> b == []
  {
    if a != [] { assert a[0] in b; }
    if b != [] { assert b[0] in a; }
  }

  lemma ElementMemberships(i: Inputs, e: ElementRef, x: EvidenceEntry)
    ensures x in MembershipReads(i, e) <==>
            MembershipConsulted(i, e, x) || exists d :: Grounds.Belongs(i, e, d) && DomainConsulted(i, d, x)
  {
    hide ElementKey, Each;
    EachMember(i.MembersOf(e), d => DomainReads(i.views, d), x);
    assert forall d :: x in DomainReads(i.views, d) <==> DomainConsulted(i, d, x);
    assert forall d :: d in i.MembersOf(e) <==> Grounds.Belongs(i, e, d);
  }

  lemma MembershipsRead(i: Inputs, x: EvidenceEntry)
    ensures x in Each(FirstAsked(Asked(i), {}), e => MembershipReads(i, e)) <==>
            (exists e :: Charts(i, e) && MembershipConsulted(i, e, x))
            || exists e, d :: Charts(i, e) && Grounds.Belongs(i, e, d) && DomainConsulted(i, d, x)
  {
    hide MembershipReads, FirstAsked, Asked, Charts, MembershipConsulted, Grounds.Belongs, DomainConsulted, Each;
    EachMember(FirstAsked(Asked(i), {}), e => MembershipReads(i, e), x);
    forall e ensures e in FirstAsked(Asked(i), {}) <==> Charts(i, e) {
      FirstAskedMembers(Asked(i), {}, e);
      AskedIsCharted(i, e);
    }
    forall e
      ensures x in MembershipReads(i, e) <==>
              MembershipConsulted(i, e, x) || exists d :: Grounds.Belongs(i, e, d) && DomainConsulted(i, d, x)
    {
      ElementMemberships(i, e, x);
    }
  }

  /** The reads of an evaluation are the subjects it consults. */
  lemma ReadsAreConsulted(i: Inputs, x: EvidenceEntry)
    ensures x in AllReads(i) <==> Consulted(i, x)
  {
    hide ScalarReads, ElementReads, UnderlyingReads, PortReads, LinkReads, CapabilityReads, MembershipReads, Each,
      ScalarConsulted, HopConsulted, UnderlyingConsulted, CapabilityConsulted, MembershipConsulted, DomainConsulted,
      Charts, Rules.CombineRules, RefsOf, CapabilityPairs, FirstAsked, Asked, Grounds.Belongs;
    ScalarsRead(i, x);
    HopsRead(i, x);
    UnderlyingRead(i, x);
    CapabilitiesRead(i, x);
    MembershipsRead(i, x);
  }

  /** Without overflow, everything that is consulted is bound, and everything that is bound was consulted. */
  lemma EvidenceIsWhatWasConsulted(i: Inputs, x: EvidenceEntry)
    requires !Overflows(i)
    ensures x in EvidenceOf(i) ==> Consulted(i, x)
    ensures Consulted(i, x) ==> Find(EvidenceOf(i), KeyOf(x)).Some?
    ensures Consulted(i, x) && (forall y :: Consulted(i, y) && KeyOf(y) == KeyOf(x) ==> y == x) ==> x in EvidenceOf(i)
  {
    hide AllReads, Consulted, SetAll, PutAll, Canonical;
    var calls := AllReads(i);
    ReadsAreConsulted(i, x);
    if x in EvidenceOf(i) { SetAllMembers([], calls, i.limits, x); }
    if Consulted(i, x) {
      SetAllWithoutOverflow([], calls, i.limits);
      Currentness.EmptyCanonical();
      PutAllFind([], calls, KeyOf(x));
      LastSetSome(calls, x);
      var g := Find(EvidenceOf(i), KeyOf(x)).value;
      var y := EvidenceEntry(x.kind, x.subject, g);
      FindSome(EvidenceOf(i), KeyOf(x));
      SetAllMembers([], calls, i.limits, y);
      ReadsAreConsulted(i, y);
    }
  }

  lemma {:induction false} LastSetSome(calls: seq<EvidenceEntry>, x: EvidenceEntry)
    requires x in calls
    ensures LastSet(calls, KeyOf(x)).Some?
  {
    if x in calls[1..] { LastSetSome(calls[1..], x); }
  }

  /**
   * The generation that is bound is the one that the views show: a subject has only one, unless two capabilities
   * render to one key.
   */
  lemma SubjectsHaveOneGeneration(i: Inputs, x: EvidenceEntry, y: EvidenceEntry)
    requires Consulted(i, x) && Consulted(i, y) && KeyOf(x) == KeyOf(y) && x.kind != Capability
    ensures x == y
  {
    hide ElementKey, Charts, Grounds.Belongs, Grounds.Known;
    match x.kind
    case FailureDomain => OneDomainGeneration(i, x, y);
    case StructuralElement => OneHopGeneration(i, x, y);
    case PortConfig => OneHopGeneration(i, x, y);
    case LinkStateKind => OneHopGeneration(i, x, y);
    case _ =>
  }

  lemma OneHopGeneration(i: Inputs, x: EvidenceEntry, y: EvidenceEntry)
    requires KeyOf(x) == KeyOf(y)
    requires exists h :: h in i.path.hops && HopConsulted(i, h, x)
    requires exists h :: h in i.path.hops && HopConsulted(i, h, y)
    ensures x == y
  {
    hide ElementKey;
    var h :| h in i.path.hops && HopConsulted(i, h, x);
    var g :| g in i.path.hops && HopConsulted(i, g, y);
    PathShape.ElementKeyInjective(h.Ref(), g.Ref());
  }

  ghost predicate DomainSubjectConsulted(i: Inputs, x: EvidenceEntry) {
    (exists e :: MembershipConsulted(i, e, x)) || exists d :: DomainConsulted(i, d, x)
  }

  lemma DomainKindConsulted(i: Inputs, x: EvidenceEntry)
    requires Consulted(i, x) && x.kind == FailureDomain
    ensures DomainSubjectConsulted(i, x)
  {
    hide ElementKey, Charts, Grounds.Belongs, Grounds.Known;
  }

  lemma OneDomainGeneration(i: Inputs, x: EvidenceEntry, y: EvidenceEntry)
    requires Consulted(i, x) && Consulted(i, y) && KeyOf(x) == KeyOf(y) && x.kind == FailureDomain
    ensures x == y
  {
    hide ElementKey, Consulted, MembershipConsulted, DomainConsulted;
    DomainKindConsulted(i, x);
    DomainKindConsulted(i, y);
    if e :| MembershipConsulted(i, e, x) {
      SubjectOfMembership(i, e, x);
      if d :| DomainConsulted(i, d, y) { SubjectOfDomain(i, d, y); }
      var f :| MembershipConsulted(i, f, y);
      SubjectOfMembership(i, f, y);
      PathShape.ElementKeyInjective(e, f);
      SameMembership(i, e, x, y);
    } else {
      var d :| DomainConsulted(i, d, x);
      SubjectOfDomain(i, d, x);
      if e :| MembershipConsulted(i, e, y) { SubjectOfMembership(i, e, y); }
      var b :| DomainConsulted(i, b, y);
      SubjectOfDomain(i, b, y);
      SameDomain(i, d, x, y);
    }
  }

  lemma SubjectOfMembership(i: Inputs, e: ElementRef, x: EvidenceEntry)
    requires MembershipConsulted(i, e, x)
    ensures |x.subject| >= 7 && x.subject[0] == 'm' && x.subject[7..] == ElementKey(e)
  {
    hide ElementKey;
  }

  lemma SubjectOfDomain(i: Inputs, d: string, x: EvidenceEntry)
    requires DomainConsulted(i, d, x)
    ensures |x.subject| >= 7 && x.subject[0] == 'd' && x.subject[7..] == d
  {
  }

  lemma SameMembership(i: Inputs, e: ElementRef, x: EvidenceEntry, y: EvidenceEntry)
    requires MembershipConsulted(i, e, x) && MembershipConsulted(i, e, y)
    ensures x == y
  {
  }

  lemma SameDomain(i: Inputs, d: string, x: EvidenceEntry, y: EvidenceEntry)
    requires DomainConsulted(i, d, x) && DomainConsulted(i, d, y)
    ensures x == y
  {
  }

  /** So a subject other than a capability is bound at the generation at which it was consulted. */
  lemma ConsultedIsBound(i: Inputs, x: EvidenceEntry)
    requires !Overflows(i) && Consulted(i, x) && x.kind != Capability
    ensures Find(EvidenceOf(i), KeyOf(x)) == Some(x.generation)
  {
    hide Overflows, EvidenceOf, Consulted, Find, Canonical;
    forall y | Consulted(i, y) && KeyOf(y) == KeyOf(x) ensures y == x { SubjectsHaveOneGeneration(i, y, x); }
    EvidenceIsWhatWasConsulted(i, x);
    EvidenceCanonical(i);
    FindEntry(EvidenceOf(i), x);
  }

  // ---- what an evaluation sees of the other paths ------------------------------------------------------------

  lemma {:induction false} RefsInOrder(hops: seq<PathElement>)
    ensures |RefsOf(hops)| == |hops| && forall n :: 0 <= n < |hops| ==> RefsOf(hops)[n] == hops[n].Ref()
  {
    if hops != [] { RefsInOrder(hops[1..]); }
  }

  /**
   * A diversity constraint finds its peer exactly when the peer is named and its record authorizes, with the elements
   * of the peer's path in path order; the path counts as authorized already exactly when its own record authorizes.
   */
  lemma PeersAreRecords(rt: Runtime, limits: Limits, w: World, p: PathDefinition, chain: Chain, c: DomainConstraint)
    requires p.constraintSet in rt.sets && c in rt.sets[p.constraintSet].failureDomains
    requires c.kind == DiverseFromPeerPath
    ensures var i := InputsFor(rt, limits, w, p, chain);
            && (Grounds.HasPeer(i, c) <==> c.peerPath != "" && c.peerPath in rt.records
                                           && AuthorizingOutcome(rt.records[c.peerPath].outcome))
            && (Grounds.HasPeer(i, c) ==>
                  var hops := rt.records[c.peerPath].definition.hops;
                  |i.peers[c.peerPath].elements| == |hops|
                  && forall n :: 0 <= n < |hops| ==> i.peers[c.peerPath].elements[n] == hops[n].Ref())
            && (i.existingAuthorized <==> p.id in rt.records && AuthorizingOutcome(rt.records[p.id].outcome))
  {
    hide RefsOf, AuthorizingOutcome;
    if c.peerPath in rt.records { RefsInOrder(rt.records[c.peerPath].definition.hops); }
    var constraints := rt.sets[p.constraintSet];
    if c.peerPath != "" { assert NamesPeer(c) && c.peerPath in ResolvePeers(rt, constraints); }
    if c.peerPath in ResolvePeers(rt, constraints) {
      assert exists d :: d in constraints.failureDomains && NamesPeer(d) && d.peerPath == c.peerPath;
    }
  }
}
