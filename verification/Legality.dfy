/** The staged evaluation decides a declarative legality predicate. */
module Legality {
  import opened Base
  import opened Model
  import opened Requirements
  import opened Views
  import opened Findings
  import opened Grounds
  import PathShape
  import Rules

  // ---- what is legal, without stages --------------------------------------------------------

  predicate ElementLegal(i: Inputs, h: PathElement) {
    h.Ref() in i.views.elements
    && !i.views.elements[h.Ref()].retired && !i.views.elements[h.Ref()].superseded
    && i.views.elements[h.Ref()].generation == h.generation
  }

  predicate HopsAdjacent(i: Inputs) {
    forall k :: 0 < k < |i.path.hops| ==> (i.path.hops[k - 1], i.path.hops[k]) in i.views.legalHops
  }

  predicate UnderlyingLegal(i: Inputs) {
    i.path.underlying.Some? ==>
      i.chain.found && i.chain.generation == i.path.underlying.value.authorityGeneration
        && AuthorizingOutcome(i.chain.outcome)
  }

  predicate PortLegal(i: Inputs, h: PathElement) {
    h.kind == Port ==>
      h.id in i.views.ports && (i.views.ports[h.id].admin.Active? || Outlives(i, i.views.ports[h.id].admin))
  }

  predicate LinkLegal(i: Inputs, h: PathElement) {
    h.kind == Link ==>
      || StateOf(i, h.id).Up?
      || (StateOf(i, h.id).Degraded? && Rules.AcceptsDegraded(i.constraints, i.policy))
      || (StateOf(i, h.id).LinkUnknown? && Rules.AcceptsUnknown(i.constraints, i.policy))
  }

  predicate CapabilityLegal(i: Inputs, c: CapabilityRequirement)
    requires Shaped(c.expression)
  {
    if i.Lookup(c).known then Holds(c.expression, i.Lookup(c).value) else !c.failClosedOnUnknown
  }

  predicate AvoidsClass(i: Inputs, h: PathElement, k: DomainClass) { Covers(i, h) && !InClass(i, h, k) }

  /** No element and no domain of one of the classes is shared with the peer path. */
  predicate Diverse(i: Inputs, c: DomainConstraint, peer: seq<ElementRef>) {
    && (forall h :: h in i.path.hops ==> h.Ref() !in peer)
    && forall k, h, d, e ::
         k in DiversityClasses(c) && h in i.path.hops && d in i.MembersOf(h.Ref()) && i.ClassOf(d) == k && e in peer ==>
           d !in i.MembersOf(e)
  }

  predicate DomainLegal(i: Inputs, c: DomainConstraint) {
    match c.kind
    case ForbiddenDomain => forall h :: h in i.path.hops ==> Covers(i, h) && !InDomain(i, h, c.domain)
    case MaxMembersFromDomain => AllCovered(i) && Counting(i.path.hops, h => InDomain(i, h, c.domain)) <= c.maxMembers
    case MaxMembersFromClass =>
      AllCovered(i) && Counting(i.path.hops, h => InClass(i, h, c.domainClass)) <= c.maxMembers
    case ExcludeDomainClass => forall h :: h in i.path.hops ==> AvoidsClass(i, h, c.domainClass)
    case RequireCoverageCompleteness => AllCovered(i)
    case DiverseFromPeerPath =>
      i.PeerEstablished(c) && PeerCovered(i, i.PeerElements(c)) && AllCovered(i) && Diverse(i, c, i.PeerElements(c))
  }

  predicate NoRepeat(hops: seq<PathElement>) {
    forall a, b :: 0 <= a < b < |hops| ==> hops[a].Ref() != hops[b].Ref()
  }

  predicate PolicyLegal(i: Inputs) {
    && (forall h :: h in i.path.hops ==> Rules.PermittedLayer(i.constraints, i.policy, h.layer))
    && (Rules.AcceptsLoops(i.constraints, i.policy) || NoRepeat(i.path.hops))
    && Rules.AcceptsLength(i.constraints, i.policy, i.limits, |i.path.hops|)
    && forall k, h :: k in i.policy.forbiddenDomainClasses && h in i.path.hops ==> AvoidsClass(i, h, k)
  }

  /** The path may be authorized, fully or conditionally. */
  predicate Legal(i: Inputs)
    requires Evaluable(i)
  {
    && (forall h :: h in i.path.hops ==> ElementLegal(i, h) && PortLegal(i, h) && LinkLegal(i, h))
    && HopsAdjacent(i) && UnderlyingLegal(i)
    && (forall c :: c in i.constraints.capabilities ==> CapabilityLegal(i, c))
    && (forall c :: c in i.policy.requiredCapabilities ==> CapabilityLegal(i, c))
    && (forall c :: c in i.constraints.failureDomains ==> DomainLegal(i, c))
    && PolicyLegal(i)
  }

  predicate HopUnconditional(i: Inputs, h: PathElement) {
    && (h.kind == Port && h.id in i.views.ports ==> i.views.ports[h.id].admin.Active?)
    && (h.kind == Link ==>
          || StateOf(i, h.id).Up?
          || (StateOf(i, h.id).Degraded? && !Rules.DegradedIsConditional(i.constraints, i.policy))
          || (StateOf(i, h.id).LinkUnknown? && !Rules.UnknownIsConditional(i.constraints, i.policy)))
  }

  /** Nothing about a legal path rests on a condition. */
  predicate Unconditional(i: Inputs) {
    && (forall h :: h in i.path.hops ==> HopUnconditional(i, h))
    && (forall c :: c in i.constraints.capabilities ==> i.Lookup(c).known)
    && (forall c :: c in i.policy.requiredCapabilities ==> i.Lookup(c).known)
  }

  // ---- sequences of findings -----------------------------------------------------------------

  ghost predicate Every<T>(xs: seq<T>, p: T -> bool) { forall x :: x in xs ==> p(x) }

  predicate NotHard(v: Violation) { v.severity != Hard }
  predicate NotCondition(v: Violation) { v.severity != Condition }
  predicate NotInformational(v: Violation) { v.severity != Informational }

  /** A finding never reports an authorizing code, and is never the primary violation itself. */
  predicate Plain(v: Violation) { v.severity != Primary && !AuthorizingOutcome(v.code) }

  lemma {:induction false} EveryEach<T, U>(xs: seq<T>, f: T -> seq<U>, p: U -> bool)
    ensures Every(Each(xs, f), p) <==> forall x :: x in xs ==> Every(f(x), p)
  {
    if xs != [] {
      EveryEach(xs[1..], f, p);
      assert forall x :: x in xs <==> x == xs[0] || x in xs[1..];
    }
  }

  lemma EveryPlus<T>(a: seq<T>, b: seq<T>, p: T -> bool)
    ensures Every(a + b, p) <==> Every(a, p) && Every(b, p)
  {
  }

  // ---- structure ------------------------------------------------------------------------------

  lemma {:induction false} PairsMembers(hops: seq<PathElement>, p: (PathElement, PathElement))
    ensures p in Pairs(hops) <==> exists k :: 0 < k < |hops| && p == (hops[k - 1], hops[k])
  {
    if |hops| >= 2 {
      PairsMembers(hops[1..], p);
      if k :| 0 < k < |hops[1..]| && p == (hops[1..][k - 1], hops[1..][k]) {
        assert p == (hops[k + 1 - 1], hops[k + 1]);
      }
      if k :| 1 < k < |hops| && p == (hops[k - 1], hops[k]) {
        assert p == (hops[1..][k - 2], hops[1..][k - 1]);
      }
    }
  }

  lemma StructureDecides(i: Inputs)
    ensures Every(StructureStage(i), NotHard)
            <==> (forall h :: h in i.path.hops ==> ElementLegal(i, h)) && HopsAdjacent(i)
    ensures Every(StructureStage(i), NotCondition) && Every(StructureStage(i), NotInformational)
            && Every(StructureStage(i), Plain)
  {
    var hops := i.path.hops;
    StructureStageIs(i, NotHard);
    StructureStageIs(i, NotCondition);
    StructureStageIs(i, NotInformational);
    StructureStageIs(i, Plain);
    forall h ensures Every(ElementFindings(i, h), NotHard) <==> ElementLegal(i, h) { ElementDecides(i, h); }
    forall p ensures Every(HopFindings(i, p), NotHard) <==> p in i.views.legalHops { HopDecides(i, p); }
    forall h ensures Every(ElementFindings(i, h), NotCondition) && Every(ElementFindings(i, h), NotInformational)
                     && Every(ElementFindings(i, h), Plain) { ElementDecides(i, h); }
    forall p ensures Every(HopFindings(i, p), NotCondition) && Every(HopFindings(i, p), NotInformational)
                     && Every(HopFindings(i, p), Plain) { HopDecides(i, p); }
    forall p ensures p in Pairs(hops) <==> exists k :: 0 < k < |hops| && p == (hops[k - 1], hops[k]) {
      PairsMembers(hops, p);
    }
    AdjacentPairs(i);
  }

  lemma AdjacentPairs(i: Inputs)
    ensures (forall p :: p in Pairs(i.path.hops) ==> p in i.views.legalHops) <==> HopsAdjacent(i)
  {
    hide Pairs;
    var hops := i.path.hops;
    forall k | 0 < k < |hops| ensures (hops[k - 1], hops[k]) in Pairs(hops) {
      PairsMembers(hops, (hops[k - 1], hops[k]));
    }
    forall p | p in Pairs(hops) && HopsAdjacent(i) ensures p in i.views.legalHops { PairsMembers(hops, p); }
  }

  lemma StructureStageIs(i: Inputs, p: Violation -> bool)
    ensures Every(StructureStage(i), p) <==>
            (forall h :: h in i.path.hops ==> Every(ElementFindings(i, h), p))
            && (forall q :: q in Pairs(i.path.hops) ==> Every(HopFindings(i, q), p))
  {
    hide Every, ElementFindings, HopFindings;
    EveryEach(i.path.hops, h => ElementFindings(i, h), p);
    EveryEach(Pairs(i.path.hops), q => HopFindings(i, q), p);
    EveryPlus(Each(i.path.hops, h => ElementFindings(i, h)), Each(Pairs(i.path.hops), q => HopFindings(i, q)), p);
  }

  lemma ElementDecides(i: Inputs, h: PathElement)
    ensures Every(ElementFindings(i, h), NotHard) <==> ElementLegal(i, h)
    ensures Every(ElementFindings(i, h), NotCondition) && Every(ElementFindings(i, h), NotInformational)
    ensures Every(ElementFindings(i, h), Plain)
  {
    hide HopKey;
    if ElementFindings(i, h) != [] { assert ElementFindings(i, h)[0] in ElementFindings(i, h); }
  }

  lemma HopDecides(i: Inputs, p: (PathElement, PathElement))
    ensures Every(HopFindings(i, p), NotHard) <==> p in i.views.legalHops
    ensures Every(HopFindings(i, p), NotCondition) && Every(HopFindings(i, p), NotInformational)
    ensures Every(HopFindings(i, p), Plain)
  {
    hide HopKey;
    if HopFindings(i, p) != [] { assert HopFindings(i, p)[0] in HopFindings(i, p); }
  }

  lemma UnderlyingDecides(i: Inputs)
    ensures Every(UnderlyingFindings(i), NotHard) <==> UnderlyingLegal(i)
    ensures Every(UnderlyingFindings(i), NotCondition) && Every(UnderlyingFindings(i), NotInformational)
    ensures Every(UnderlyingFindings(i), Plain)
  {
    if UnderlyingFindings(i) != [] { assert UnderlyingFindings(i)[0] in UnderlyingFindings(i); }
  }

  // ---- ports and links -----------------------------------------------------------------------------

  lemma PortDecides(i: Inputs, h: PathElement)
    ensures Every(PortFindings(i, h), NotHard) <==> PortLegal(i, h)
    ensures PortLegal(i, h) ==>
              (Every(PortFindings(i, h), NotCondition) <==> (h.kind == Port ==> i.views.ports[h.id].admin.Active?))
    ensures Every(PortFindings(i, h), NotInformational) && Every(PortFindings(i, h), Plain)
  {
    hide HopKey, Rules.CombineRules;
    Rules.RulesMeaning(i.constraints, i.policy, i.limits);
    if PortFindings(i, h) != [] { assert PortFindings(i, h)[0] in PortFindings(i, h); }
  }

  lemma LinkDecides(i: Inputs, h: PathElement)
    ensures Every(LinkFindings(i, h), NotHard) <==> LinkLegal(i, h)
    ensures LinkLegal(i, h) && h.kind == Link ==>
              (Every(LinkFindings(i, h), NotCondition) <==>
                 || StateOf(i, h.id).Up?
                 || (StateOf(i, h.id).Degraded? && !Rules.DegradedIsConditional(i.constraints, i.policy))
                 || (StateOf(i, h.id).LinkUnknown? && !Rules.UnknownIsConditional(i.constraints, i.policy)))
    ensures h.kind != Link ==> LinkFindings(i, h) == []
    ensures |LinkFindings(i, h)| <= 1 && Every(LinkFindings(i, h), Plain)
  {
    hide HopKey, Rules.CombineRules;
    Rules.RulesMeaning(i.constraints, i.policy, i.limits);
    if LinkFindings(i, h) != [] { assert LinkFindings(i, h)[0] in LinkFindings(i, h); }
  }

  lemma HopsDecide(i: Inputs)
    ensures Every(PortStage(i), NotHard) && Every(LinkStage(i), NotHard)
            <==> forall h :: h in i.path.hops ==> PortLegal(i, h) && LinkLegal(i, h)
    ensures Every(PortStage(i), NotHard) && Every(LinkStage(i), NotHard) ==>
              (Every(PortStage(i), NotCondition) && Every(LinkStage(i), NotCondition)
               <==> forall h :: h in i.path.hops ==> HopUnconditional(i, h))
    ensures Every(PortStage(i), NotInformational) && Every(PortStage(i), Plain) && Every(LinkStage(i), Plain)
  {
    hide Every, PortFindings, LinkFindings, PortLegal, LinkLegal, Rules.CombineRules;
    var ports: PathElement -> seq<Violation> := h => PortFindings(i, h);
    var links: PathElement -> seq<Violation> := h => LinkFindings(i, h);
    EveryEach(i.path.hops, ports, NotHard);
    EveryEach(i.path.hops, links, NotHard);
    EveryEach(i.path.hops, ports, NotCondition);
    EveryEach(i.path.hops, links, NotCondition);
    EveryEach(i.path.hops, ports, NotInformational);
    EveryEach(i.path.hops, ports, Plain);
    EveryEach(i.path.hops, links, Plain);
    forall h
      ensures Every(ports(h), NotHard) && Every(links(h), NotHard) <==> PortLegal(i, h) && LinkLegal(i, h)
      ensures PortLegal(i, h) && LinkLegal(i, h) ==>
                (Every(ports(h), NotCondition) && Every(links(h), NotCondition) <==> HopUnconditional(i, h))
      ensures Every(ports(h), NotInformational) && Every(ports(h), Plain) && Every(links(h), Plain)
    {
      PortDecides(i, h);
      LinkDecides(i, h);
      if PortLegal(i, h) && LinkLegal(i, h) { HopVerdict(i, h); }
    }
  }

  lemma HopVerdict(i: Inputs, h: PathElement)
    requires PortLegal(i, h) && LinkLegal(i, h)
    ensures Every(PortFindings(i, h), NotCondition) && Every(LinkFindings(i, h), NotCondition)
            <==> HopUnconditional(i, h)
  {
    hide Every, PortFindings, LinkFindings, Rules.CombineRules;
    PortDecides(i, h);
    LinkDecides(i, h);
    if h.kind != Link { assert Every([], NotCondition) by { EmptyEvery(NotCondition); } }
  }

  lemma EmptyEvery<T>(p: T -> bool)
    ensures Every([], p)
  {
  }

  // ---- capabilities -----------------------------------------------------------------------------------

  lemma CapabilityDecides(i: Inputs, c: CapabilityRequirement)
    requires Shaped(c.expression)
    ensures Every(CapabilityFindings(i, c), NotHard) <==> CapabilityLegal(i, c)
    ensures CapabilityLegal(i, c) ==> (Every(CapabilityFindings(i, c), NotCondition) <==> i.Lookup(c).known)
    ensures Every(CapabilityFindings(i, c), NotInformational) && Every(CapabilityFindings(i, c), Plain)
  {
    hide Shaped, Holds, Evaluate, CapabilityKey;
    var record := i.Lookup(c);
    if record.known {
      KnownRecordDecides(c.expression, record);
    } else {
      UnknownRecordDecidesNothing(c.expression, record);
    }
    if CapabilityFindings(i, c) != [] { assert CapabilityFindings(i, c)[0] in CapabilityFindings(i, c); }
  }

  lemma {:induction false} CapabilitiesDecide(i: Inputs, cs: seq<CapabilityRequirement>)
    requires forall c :: c in cs ==> Shaped(c.expression)
    ensures Every(CapabilityStage(i, cs), NotHard) <==> forall c :: c in cs ==> CapabilityLegal(i, c)
    ensures Every(CapabilityStage(i, cs), NotHard) ==>
              (Every(CapabilityStage(i, cs), NotCondition) <==> forall c :: c in cs ==> i.Lookup(c).known)
    ensures Every(CapabilityStage(i, cs), NotInformational) && Every(CapabilityStage(i, cs), Plain)
  {
    hide Shaped, Every, CapabilityFindings, CapabilityLegal;
    if cs == [] {
      EmptyEvery(NotHard);
      EmptyEvery(NotCondition);
      EmptyEvery(NotInformational);
      EmptyEvery(Plain);
    } else {
      CapabilityDecides(i, cs[0]);
      CapabilitiesDecide(i, cs[1..]);
      EveryPlus(CapabilityFindings(i, cs[0]), CapabilityStage(i, cs[1..]), NotHard);
      EveryPlus(CapabilityFindings(i, cs[0]), CapabilityStage(i, cs[1..]), NotCondition);
      EveryPlus(CapabilityFindings(i, cs[0]), CapabilityStage(i, cs[1..]), NotInformational);
      EveryPlus(CapabilityFindings(i, cs[0]), CapabilityStage(i, cs[1..]), Plain);
      assert forall c :: c in cs <==> c == cs[0] || c in cs[1..];
    }
  }

  // ---- failure domains -----------------------------------------------------------------------------------

  /** Findings of the domain and policy stages are all hard. */
  predicate HardOnly(v: Violation) { v.severity == Hard && !AuthorizingOutcome(v.code) }

  ghost predicate HardList(vs: seq<Violation>) { Every(vs, HardOnly) }

  lemma HardListMeaning(vs: seq<Violation>)
    requires HardList(vs)
    ensures Every(vs, NotHard) <==> vs == []
    ensures Every(vs, NotCondition) && Every(vs, NotInformational) && Every(vs, Plain)
  {
    if vs != [] { assert vs[0] in vs; }
  }

  /** A loop whose body reports hard findings is silent exactly when its body is silent everywhere. */
  lemma {:induction false} EachHard<T>(xs: seq<T>, f: T -> seq<Violation>)
    requires forall x :: x in xs ==> HardList(f(x))
    ensures HardList(Each(xs, f))
    ensures Each(xs, f) == [] <==> forall x :: x in xs ==> f(x) == []
  {
    hide HardOnly;
    if xs != [] {
      EachHard(xs[1..], f);
      assert forall x :: x in xs <==> x == xs[0] || x in xs[1..];
    }
  }

  lemma ForbiddenDecides(i: Inputs, c: DomainConstraint)
    ensures HardList(Each(i.path.hops, h => ForbiddenFindings(i, c, h)))
    ensures Each(i.path.hops, h => ForbiddenFindings(i, c, h)) == []
            <==> forall h :: h in i.path.hops ==> Covers(i, h) && !InDomain(i, h, c.domain)
  {
    hide HopKey, Covers, InDomain;
    EachHard(i.path.hops, h => ForbiddenFindings(i, c, h));
  }

  lemma ExcludedDecides(i: Inputs, k: DomainClass, code: Outcome, h: PathElement)
    requires !AuthorizingOutcome(code)
    ensures HardList(ExcludedFindings(i, k, code, h))
    ensures ExcludedFindings(i, k, code, h) == [] <==> AvoidsClass(i, h, k)
  {
    hide HopKey, Covers;
    EachHard(i.MembersOf(h.Ref()), d => ExcludedMember(i, k, code, HopKey(h), d));
  }

  lemma ExcludedAlongPath(i: Inputs, k: DomainClass, code: Outcome)
    requires !AuthorizingOutcome(code)
    ensures HardList(Each(i.path.hops, h => ExcludedFindings(i, k, code, h)))
    ensures Each(i.path.hops, h => ExcludedFindings(i, k, code, h)) == []
            <==> forall h :: h in i.path.hops ==> AvoidsClass(i, h, k)
  {
    hide ExcludedFindings, AvoidsClass, HardList;
    forall h ensures HardList(ExcludedFindings(i, k, code, h))
      && (ExcludedFindings(i, k, code, h) == [] <==> AvoidsClass(i, h, k)) {
      ExcludedDecides(i, k, code, h);
    }
    EachHard(i.path.hops, h => ExcludedFindings(i, k, code, h));
  }

  lemma SharedDomainDecides(i: Inputs, peer: seq<ElementRef>, k: DomainClass, h: PathElement, d: string)
    ensures HardList(SharedDomainFindings(i, peer, k, h, d))
    ensures SharedDomainFindings(i, peer, k, h, d) == []
            <==> (i.ClassOf(d) == k ==> forall e :: e in peer ==> d !in i.MembersOf(e))
  {
    hide HopKey;
    forall e
      ensures HardList(Each(i.MembersOf(e), d' => SharedDomain(i, k, HopKey(h), d, d')))
      ensures i.ClassOf(d) == k ==>
                (Each(i.MembersOf(e), d' => SharedDomain(i, k, HopKey(h), d, d')) == [] <==> d !in i.MembersOf(e))
    {
      EachHard(i.MembersOf(e), d' => SharedDomain(i, k, HopKey(h), d, d'));
    }
    EachHard(peer, e => Each(i.MembersOf(e), d' => SharedDomain(i, k, HopKey(h), d, d')));
  }

  lemma SharedClassDecides(i: Inputs, peer: seq<ElementRef>, k: DomainClass)
    ensures HardList(SharedClassFindings(i, peer, k))
    ensures SharedClassFindings(i, peer, k) == [] <==>
            forall h, d, e :: h in i.path.hops && d in i.MembersOf(h.Ref()) && i.ClassOf(d) == k && e in peer ==>
              d !in i.MembersOf(e)
  {
    hide SharedDomainFindings, HardList;
    var inner: PathElement -> seq<Violation> := (h: PathElement) =>
      Each(i.MembersOf(h.Ref()), d => SharedDomainFindings(i, peer, k, h, d));
    forall h: PathElement
      ensures HardList(inner(h))
      ensures inner(h) == []
              <==> forall d, e :: d in i.MembersOf(h.Ref()) && i.ClassOf(d) == k && e in peer ==> d !in i.MembersOf(e)
    {
      forall d
        ensures HardList(SharedDomainFindings(i, peer, k, h, d))
        ensures SharedDomainFindings(i, peer, k, h, d) == []
                <==> (i.ClassOf(d) == k ==> forall e :: e in peer ==> d !in i.MembersOf(e))
      {
        SharedDomainDecides(i, peer, k, h, d);
      }
      EachHard(i.MembersOf(h.Ref()), d => SharedDomainFindings(i, peer, k, h, d));
    }
    EachHard(i.path.hops, inner);
    assert SharedClassFindings(i, peer, k) == Each(i.path.hops, inner);
  }

  lemma DiversityDecides(i: Inputs, c: DomainConstraint)
    requires c.kind == DiverseFromPeerPath
    ensures HardList(DiversityFindings(i, c))
    ensures DiversityFindings(i, c) == [] <==> DomainLegal(i, c)
  {
    hide SharedClassFindings, AllCovered, PeerCovered, DiversityClasses, HardList, HopKey;
    if i.PeerEstablished(c) {
      var peer := i.PeerElements(c);
      SharedElementsDecide(i, peer);
      forall k
        ensures HardList(SharedClassFindings(i, peer, k))
        ensures SharedClassFindings(i, peer, k) == [] <==>
                forall h, d, e :: h in i.path.hops && d in i.MembersOf(h.Ref()) && i.ClassOf(d) == k && e in peer ==>
                  d !in i.MembersOf(e)
      {
        SharedClassDecides(i, peer, k);
      }
      EachHard(DiversityClasses(c), k => SharedClassFindings(i, peer, k));
      HardListPlus(Each(i.path.hops, h => SharedElementFindings(peer, h)),
        Each(DiversityClasses(c), k => SharedClassFindings(i, peer, k)));
    }
    SingleHard(FailureDomainCoverageUnknown, c.peerPath);
  }

  lemma SharedElementsDecide(i: Inputs, peer: seq<ElementRef>)
    ensures HardList(Each(i.path.hops, h => SharedElementFindings(peer, h)))
    ensures Each(i.path.hops, h => SharedElementFindings(peer, h)) == []
            <==> forall h :: h in i.path.hops ==> h.Ref() !in peer
  {
    hide HopKey;
    EachHard(i.path.hops, h => SharedElementFindings(peer, h));
  }

  lemma HardListPlus(a: seq<Violation>, b: seq<Violation>)
    ensures HardList(a) && HardList(b) ==> HardList(a + b)
  {
  }

  lemma SingleHard(code: Outcome, subject: string)
    requires !AuthorizingOutcome(code)
    ensures HardList(HardFinding(code, subject)) && HardFinding(code, subject) != []
  {
  }

  lemma CountDecides(i: Inputs, c: DomainConstraint, subject: string, counted: PathElement -> bool)
    ensures HardList(CountFindings(i, c, subject, counted))
    ensures CountFindings(i, c, subject, counted) == []
            <==> AllCovered(i) && Counting(i.path.hops, counted) <= c.maxMembers
  {
    hide AllCovered;
  }

  lemma CoverageDecides(i: Inputs)
    ensures HardList(Each(i.path.hops, h => CoverageFindings(i, h)))
    ensures Each(i.path.hops, h => CoverageFindings(i, h)) == [] <==> AllCovered(i)
  {
    hide HopKey, Covers;
    EachHard(i.path.hops, h => CoverageFindings(i, h));
  }

  lemma DomainDecides(i: Inputs, c: DomainConstraint)
    ensures HardList(DomainFindings(i, c))
    ensures DomainFindings(i, c) == [] <==> DomainLegal(i, c)
  {
    hide HardList, ForbiddenFindings, ExcludedFindings, CoverageFindings, CountFindings, DiversityFindings,
      AvoidsClass, AllCovered, Covers, InDomain, InClass, Diverse, Rules.ClassName;
    match c.kind
    case ForbiddenDomain => ForbiddenDecides(i, c);
    case MaxMembersFromDomain => CountDecides(i, c, c.domain, h => InDomain(i, h, c.domain));
    case MaxMembersFromClass => CountDecides(i, c, Rules.ClassName(c.domainClass), h => InClass(i, h, c.domainClass));
    case ExcludeDomainClass => ExcludedAlongPath(i, c.domainClass, FailureDomainViolation);
    case RequireCoverageCompleteness => CoverageDecides(i);
    case DiverseFromPeerPath => DiversityDecides(i, c);
  }

  lemma DomainStageDecides(i: Inputs)
    ensures HardList(DomainStage(i))
    ensures DomainStage(i) == [] <==> forall c :: c in i.Effective().failureDomains ==> DomainLegal(i, c)
  {
    hide DomainFindings, DomainLegal, HardList, Rules.CombineRules;
    forall c ensures HardList(DomainFindings(i, c)) && (DomainFindings(i, c) == [] <==> DomainLegal(i, c)) {
      DomainDecides(i, c);
    }
    EachHard(i.Effective().failureDomains, c => DomainFindings(i, c));
  }

  // ---- policy ---------------------------------------------------------------------------------------------

  predicate KeysDistinct(hops: seq<PathElement>) { forall a,
      b :: 0 <= a < b < |hops| ==> HopKey(hops[a]) != HopKey(hops[b]) }

  lemma KeysDistinctSplit(hops: seq<PathElement>)
    requires hops != []
    ensures KeysDistinct(hops)
            <==> KeysDistinct(hops[1..]) && forall h :: h in hops[1..] ==> HopKey(h) != HopKey(hops[0])
  {
    hide HopKey;
    var t := hops[1..];
    assert forall k :: 0 <= k < |t| ==> t[k] == hops[k + 1];
    if KeysDistinct(hops) {
      forall h | h in t ensures HopKey(h) != HopKey(hops[0]) { var b :| 0 <= b < |t| && t[b] == h; }
    }
    if KeysDistinct(t) && forall h :: h in t ==> HopKey(h) != HopKey(hops[0]) {
      forall a, b | 0 <= a < b < |hops| ensures HopKey(hops[a]) != HopKey(hops[b]) {
        assert hops[b] == t[b - 1];
        if a > 0 { assert hops[a] == t[a - 1]; }
      }
    }
  }

  lemma {:induction false} RepeatDecides(hops: seq<PathElement>, seen: set<string>)
    ensures HardList(RepeatFindings(hops, seen))
    ensures RepeatFindings(hops, seen) == [] <==> (forall h :: h in hops ==> HopKey(h) !in seen) && KeysDistinct(hops)
  {
    hide HopKey, KeysDistinct;
    if hops == [] {
      assert KeysDistinct([]) by { NoKeys(); }
    } else {
      RepeatDecides(hops[1..], seen + {HopKey(hops[0])});
      KeysDistinctSplit(hops);
      assert forall h :: h in hops <==> h == hops[0] || h in hops[1..];
    }
  }

  lemma NoKeys()
    ensures KeysDistinct([])
  {
  }

  lemma LoopsDecide(i: Inputs)
    ensures HardList(LoopFindings(i))
    ensures LoopFindings(i) == [] <==> Rules.AcceptsLoops(i.constraints, i.policy) || NoRepeat(i.path.hops)
  {
    hide ElementKey, Rules.CombineRules, HardOnly;
    Rules.RulesMeaning(i.constraints, i.policy, i.limits);
    RepeatDecides(i.path.hops, {});
    forall a: PathElement, b: PathElement ensures HopKey(a) == HopKey(b) <==> a.Ref() == b.Ref() {
      if HopKey(a) == HopKey(b) { PathShape.ElementKeyInjective(a.Ref(), b.Ref()); }
    }
  }

  lemma LayersAreHard(i: Inputs)
    ensures HardList(Each(i.path.hops, h => LayerFindings(i, h)))
    ensures Each(i.path.hops, h => LayerFindings(i, h)) == []
            <==> forall h :: h in i.path.hops ==> Rules.LayerAllowed(i.Effective().allowedLayers, h.layer)
  {
    hide HopKey, Rules.CombineRules, Rules.LayerAllowed;
    EachHard(i.path.hops, h => LayerFindings(i, h));
  }

  lemma LayersDecide(i: Inputs)
    requires exists l :: Rules.PermittedLayer(i.constraints, i.policy, l)
    ensures Each(i.path.hops, h => LayerFindings(i, h)) == []
            <==> forall h :: h in i.path.hops ==> Rules.PermittedLayer(i.constraints, i.policy, h.layer)
  {
    hide HopKey, Rules.CombineRules, Rules.LayerAllowed, Rules.PermittedLayer;
    Rules.LayerRuleIsIntersection(i.constraints, i.policy, i.limits);
    LayersAreHard(i);
  }

  lemma ForbiddenClassesDecide(i: Inputs)
    ensures HardList(Each(i.Effective().forbiddenClasses, k => ForbiddenClassFindings(i, k)))
    ensures Each(i.Effective().forbiddenClasses, k => ForbiddenClassFindings(i, k)) == []
            <==> forall k, h :: k in i.policy.forbiddenDomainClasses && h in i.path.hops ==> AvoidsClass(i, h, k)
  {
    hide Rules.CombineRules, HardList, ExcludedFindings, AvoidsClass;
    forall k
      ensures HardList(ForbiddenClassFindings(i, k))
      ensures ForbiddenClassFindings(i, k) == [] <==> forall h :: h in i.path.hops ==> AvoidsClass(i, h, k)
    {
      ExcludedAlongPath(i, k, PolicyRejected);
    }
    EachHard(i.Effective().forbiddenClasses, k => ForbiddenClassFindings(i, k));
    Rules.RulesKeepEveryRequirement(i.constraints, i.policy, i.limits, i.Effective());
  }

  lemma PolicyStageIsHard(i: Inputs)
    ensures HardList(PolicyStage(i))
  {
    hide Rules.CombineRules, HardList, LayerFindings, LoopFindings, ForbiddenClassFindings, NoRepeat, AvoidsClass;
    LayersAreHard(i);
    LoopsDecide(i);
    ForbiddenClassesDecide(i);
    var layers := Each(i.path.hops, h => LayerFindings(i, h));
    var classes := Each(i.Effective().forbiddenClasses, k => ForbiddenClassFindings(i, k));
    SingleHard(PolicyRejected, i.path.id);
    HardListPlus(layers, LoopFindings(i));
    assert HardList(LengthFindings(i)) by { EmptyHard(); }
    HardListPlus(layers + LoopFindings(i), LengthFindings(i));
    HardListPlus(layers + LoopFindings(i) + LengthFindings(i), classes);
  }

  lemma PolicyStageDecides(i: Inputs)
    requires exists l :: Rules.PermittedLayer(i.constraints, i.policy, l)
    ensures HardList(PolicyStage(i))
    ensures PolicyStage(i) == [] <==> PolicyLegal(i)
  {
    hide Rules.CombineRules, HardList, LayerFindings, LoopFindings, ForbiddenClassFindings, NoRepeat, AvoidsClass,
      Rules.PermittedLayer;
    PolicyStageIsHard(i);
    LayersDecide(i);
    LoopsDecide(i);
    ForbiddenClassesDecide(i);
    SingleHard(PolicyRejected, i.path.id);
    Rules.RulesMeaning(i.constraints, i.policy, i.limits);
  }

  lemma EmptyHard()
    ensures HardList([])
  {
  }
}
