/** Constraint sets, policy sets and evidence vectors on the wire. */
module ConstraintCodec {
  import opened Base
  import opened Model
  import opened Bytes
  import opened PathCodec
  import opened Requirements
  import opened RequirementCodec
  import Rules
  import Evidence

  const DOMAIN_ID_LENGTH: nat := 128
  const MAX_LAYERS: nat := 8
  const MAX_CLASSES: nat := 16

  // ---- small fixed records ------------------------------------------------------

  function PutLinkAcceptance(a: LinkAcceptance, rest: seq<byte>): seq<byte> {
    PutBool(a.allowDegraded,
      PutBool(a.degradedIsConditional, PutBool(a.allowUnknown, PutBool(a.unknownIsConditional, rest))))
  }

  function ReadLinkAcceptance(s: seq<byte>): Parse<LinkAcceptance> {
    var (a, s1) :- ReadBool(s);
    var (b, s2) :- ReadBool(s1);
    var (c, s3) :- ReadBool(s2);
    var (d, s4) :- ReadBool(s3);
    Some((LinkAcceptance(a, b, c, d), s4))
  }

  lemma ReadPutLinkAcceptance(a: LinkAcceptance, rest: seq<byte>)
    ensures ReadLinkAcceptance(PutLinkAcceptance(a, rest)) == Some((a, rest))
  {
    hide PutBool, ReadBool;
    var s3 := PutBool(a.unknownIsConditional, rest);
    var s2 := PutBool(a.allowUnknown, s3);
    var s1 := PutBool(a.degradedIsConditional, s2);
    ReadPutBool(a.allowDegraded, s1);
    ReadPutBool(a.degradedIsConditional, s2);
    ReadPutBool(a.allowUnknown, s3);
    ReadPutBool(a.unknownIsConditional, rest);
  }

  lemma PutReadLinkAcceptance(s: seq<byte>)
    ensures var r := ReadLinkAcceptance(s); r.Some? ==> s == PutLinkAcceptance(r.value.0, r.value.1)
  {
    hide PutBool, ReadBool;
    if ReadLinkAcceptance(s).Some? {
      PutReadBool(s);
      var s1 := ReadBool(s).value.1;
      PutReadBool(s1);
      var s2 := ReadBool(s1).value.1;
      PutReadBool(s2);
      PutReadBool(ReadBool(s2).value.1);
    }
  }

  function PutPortAcceptance(a: PortAcceptance, rest: seq<byte>): seq<byte> {
    PutBool(a.allowDrainingExisting, PutBool(a.allowMaintenanceExisting, rest))
  }

  function ReadPortAcceptance(s: seq<byte>): Parse<PortAcceptance> {
    var (a, s1) :- ReadBool(s);
    var (b, s2) :- ReadBool(s1);
    Some((PortAcceptance(a, b), s2))
  }

  lemma ReadPutPortAcceptance(a: PortAcceptance, rest: seq<byte>)
    ensures ReadPortAcceptance(PutPortAcceptance(a, rest)) == Some((a, rest))
  {
    hide PutBool, ReadBool;
    ReadPutBool(a.allowDrainingExisting, PutBool(a.allowMaintenanceExisting, rest));
    ReadPutBool(a.allowMaintenanceExisting, rest);
  }

  lemma PutReadPortAcceptance(s: seq<byte>)
    ensures var r := ReadPortAcceptance(s); r.Some? ==> s == PutPortAcceptance(r.value.0, r.value.1)
  {
    hide PutBool, ReadBool;
    if ReadPortAcceptance(s).Some? {
      PutReadBool(s);
      PutReadBool(ReadBool(s).value.1);
    }
  }

  // ---- counted lists of enumerations ----------------------------------------------

  function PutLayer(l: Layer, rest: seq<byte>): seq<byte> { PutUint(LayerCode(l), 1, rest) }

  function ReadLayer(s: seq<byte>): Parse<Layer> {
    var (n, rest) :- ReadUint(s, 1);
    var l :- LayerOf(n);
    Some((l, rest))
  }

  function PutClass(c: DomainClass, rest: seq<byte>): seq<byte> { PutUint(Rules.ClassCode(c), 1, rest) }

  function ClassOf(n: nat): Option<DomainClass> {
    if n < |Rules.ALL_CLASSES| then Some(Rules.ALL_CLASSES[n]) else None
  }

  function ReadClass(s: seq<byte>): Parse<DomainClass> {
    var (n, rest) :- ReadUint(s, 1);
    var c :- ClassOf(n);
    Some((c, rest))
  }

  lemma LayerCodec()
    ensures forall l, r :: ReadLayer(PutLayer(l, r)) == Some((l, r))
    ensures forall t :: ReadLayer(t).Some? ==> t == PutLayer(ReadLayer(t).value.0, ReadLayer(t).value.1)
  {
    hide PutUint, ReadUint;
    Widths();
    forall l, r ensures ReadLayer(PutLayer(l, r)) == Some((l, r)) { ReadPutUint(LayerCode(l), 1, r); }
    forall t | ReadLayer(t).Some? ensures t == PutLayer(ReadLayer(t).value.0, ReadLayer(t).value.1) {
      PutReadUint(t, 1);
    }
  }

  lemma ClassCodec()
    ensures forall c, r :: ReadClass(PutClass(c, r)) == Some((c, r))
    ensures forall t :: ReadClass(t).Some? ==> t == PutClass(ReadClass(t).value.0, ReadClass(t).value.1)
  {
    hide PutUint, ReadUint;
    Widths();
    forall c, r ensures ReadClass(PutClass(c, r)) == Some((c, r)) {
      ReadPutUint(Rules.ClassCode(c), 1, r);
      assert Rules.ALL_CLASSES[Rules.ClassCode(c)] == c;
    }
    forall t | ReadClass(t).Some? ensures t == PutClass(ReadClass(t).value.0, ReadClass(t).value.1) {
      PutReadUint(t, 1);
    }
  }

  /** A 32-bit count, then the elements; a count above the bound is refused before any element is read. */
  function PutCounted<T>(xs: seq<T>, put: (T, seq<byte>) -> seq<byte>, rest: seq<byte>): seq<byte> {
    PutUint(|xs| % (U32_MAX + 1), 4, PutList(xs, put, rest))
  }

  function ReadCounted<T>(s: seq<byte>, bound: nat, read: seq<byte> -> Parse<T>): Parse<seq<T>> {
    var (n, s1) :- ReadUint(s, 4);
    if n > bound then None else ReadList(s1, n, read)
  }

  lemma ReadPutCollected<T(!new)>(
      xs: seq<T>, bound: nat, put: (T, seq<byte>) -> seq<byte>, read: seq<byte> -> Parse<T>, out: T -> Option<T>,
      rest: seq<byte>)
    requires |xs| <= U32_MAX
    requires forall x, r :: x in xs ==> read(put(x, r)) == Placed(out(x), r)
    ensures ReadCounted(PutCounted(xs, put, rest), bound, read) ==
            if |xs| <= bound then Placed(Collect(xs, out), rest) else None
  {
    hide PutUint, ReadUint, PutList, ReadList, Collect, Placed;
    Widths();
    ReadPutUint(|xs|, 4, PutList(xs, put, rest));
    ReadPutList(xs, put, read, out, rest);
  }

  lemma ReadPutCounted<T(!new)>(
      xs: seq<T>, bound: nat, put: (T, seq<byte>) -> seq<byte>, read: seq<byte> -> Parse<T>, ok: T -> bool,
      rest: seq<byte>)
    requires |xs| <= U32_MAX
    requires forall x, r :: x in xs ==> read(put(x, r)) == Placed(When(ok(x), x), r)
    ensures ReadCounted(PutCounted(xs, put, rest), bound, read) ==
            Placed(When(|xs| <= bound && forall x :: x in xs ==> ok(x), xs), rest)
  {
    hide PutUint, ReadUint, PutList, ReadList;
    Widths();
    ReadPutUint(|xs|, 4, PutList(xs, put, rest));
    ReadPutSame(xs, put, read, ok, rest);
  }

  lemma PutReadCounted<T(!new)>(
      s: seq<byte>, bound: nat, put: (T, seq<byte>) -> seq<byte>, read: seq<byte> -> Parse<T>, ok: T -> bool)
    requires bound <= U32_MAX
    requires forall t :: read(t).Some? ==> ok(read(t).value.0) && t == put(read(t).value.0, read(t).value.1)
    ensures var r := ReadCounted(s, bound, read);
            r.Some? ==> |r.value.0| <= bound && (forall x :: x in r.value.0 ==> ok(x))
                        && s == PutCounted(r.value.0, put, r.value.1)
  {
    hide PutUint, ReadUint;
    if ReadCounted(s, bound, read).Some? {
      PutReadUint(s, 4);
      var (n, s1) := ReadUint(s, 4).value;
      PutReadList(s1, n, put, read, ok);
    }
  }

  // ---- capability requirements ------------------------------------------------------

  function PutCapability(c: CapabilityRequirement, rest: seq<byte>): seq<byte> {
    PutText(c.entity, PutText(c.key, PutBool(c.failClosedOnUnknown, PutRequirement(c.expression, rest))))
  }

  function ReadCapability(s: seq<byte>, limits: Limits): Parse<CapabilityRequirement> {
    var (entity, s1) :- ReadText(s, limits.maxMetadataBytes);
    var (key, s2) :- ReadIdentity(s1, limits.maxIdLength, CAPABILITY_KEY_LENGTH);
    var (failClosed, s3) :- ReadBool(s2);
    var Spent(expression, _, s4) :- ReadRequirement(s3, limits, 1, limits.maxRequirementNodes);
    if !ValidRequirement(expression, limits) then None
    else Some((CapabilityRequirement(entity, key, expression, failClosed), s4))
  }

  predicate WellFormedCapability(c: CapabilityRequirement, limits: Limits) {
    && IsBytes(c.entity) && |c.entity| <= limits.maxMetadataBytes
    && IdentityText(c.key, CAPABILITY_KEY_LENGTH) && |c.key| <= limits.maxIdLength
    && ValidRequirement(c.expression, limits) && Encodable(c.expression, limits)
  }

  predicate PlainCapability(c: CapabilityRequirement) {
    PlainText(c.entity) && PlainText(c.key) && PlainRequirement(c.expression)
  }

  lemma ReadPutCapability(c: CapabilityRequirement, limits: Limits, rest: seq<byte>)
    requires PlainCapability(c)
    ensures ReadCapability(PutCapability(c, rest), limits) == Placed(When(WellFormedCapability(c, limits), c), rest)
  {
    hide PutText, ReadText, ReadIdentity, PutBool, ReadBool, PutRequirement, ReadRequirement, Encodable, IsBytes,
      IdentityText, NodeShape, PlainRequirement;
    var s3 := PutRequirement(c.expression, rest);
    var s2 := PutBool(c.failClosedOnUnknown, s3);
    var s1 := PutText(c.key, s2);
    ReadPutText(c.entity, limits.maxMetadataBytes, s1);
    ReadPutIdentity(c.key, limits.maxIdLength, CAPABILITY_KEY_LENGTH, s2);
    ReadPutBool(c.failClosedOnUnknown, s3);
    ReadPutRequirement(c.expression, limits, 1, limits.maxRequirementNodes, rest);
  }

  lemma PutReadCapability(s: seq<byte>, limits: Limits)
    ensures var r := ReadCapability(s, limits);
            r.Some? ==> WellFormedCapability(r.value.0, limits) && s == PutCapability(r.value.0, r.value.1)
  {
    hide PutText, ReadText, ReadIdentity, PutBool, ReadBool, PutRequirement, ReadRequirement, Encodable, IsBytes,
      IdentityText, ValidRequirement;
    if ReadCapability(s, limits).Some? {
      PutReadText(s, limits.maxMetadataBytes);
      var s1 := ReadText(s, limits.maxMetadataBytes).value.1;
      PutReadIdentity(s1, limits.maxIdLength, CAPABILITY_KEY_LENGTH);
      var s2 := ReadIdentity(s1, limits.maxIdLength, CAPABILITY_KEY_LENGTH).value.1;
      PutReadBool(s2);
      PutReadRequirement(ReadBool(s2).value.1, limits, 1, limits.maxRequirementNodes);
    }
  }

  function CapabilityReader(limits: Limits): seq<byte> -> Parse<CapabilityRequirement> {
    s => ReadCapability(s, limits)
  }

  lemma ReadPutCapabilities(cs: seq<CapabilityRequirement>, limits: Limits, rest: seq<byte>)
    requires |cs| <= U32_MAX && forall c :: c in cs ==> PlainCapability(c)
    ensures ReadCounted(PutCounted(cs, PutCapability, rest), limits.maxConstraints, CapabilityReader(limits)) ==
            Placed(When(|cs| <= limits.maxConstraints && forall c :: c in cs ==> WellFormedCapability(c, limits), cs),
              rest)
  {
    hide PutCapability, ReadCapability, WellFormedCapability, PlainCapability;
    forall c, r | c in cs
      ensures CapabilityReader(limits)(PutCapability(c, r)) == Placed(When(WellFormedCapability(c, limits), c), r)
    {
      ReadPutCapability(c, limits, r);
    }
    ReadPutCounted(cs, limits.maxConstraints, PutCapability, CapabilityReader(limits),
      (c: CapabilityRequirement) => WellFormedCapability(c, limits), rest);
  }

  lemma PutReadCapabilities(s: seq<byte>, limits: Limits)
    ensures var r := ReadCounted(s, limits.maxConstraints, CapabilityReader(limits));
            r.Some? ==> |r.value.0| <= limits.maxConstraints
                        && (forall c :: c in r.value.0 ==> WellFormedCapability(c, limits))
                        && s == PutCounted(r.value.0, PutCapability, r.value.1)
  {
    hide PutCapability, ReadCapability, WellFormedCapability;
    forall t | CapabilityReader(limits)(t).Some?
      ensures WellFormedCapability(ReadCapability(t, limits).value.0, limits)
              && t == PutCapability(ReadCapability(t, limits).value.0, ReadCapability(t, limits).value.1)
    {
      PutReadCapability(t, limits);
    }
    PutReadCounted(s, limits.maxConstraints, PutCapability, CapabilityReader(limits),
      (c: CapabilityRequirement) => WellFormedCapability(c, limits));
  }

  // ---- failure-domain constraints ------------------------------------------------------

  function ConstraintKindOf(n: nat): Option<DomainConstraintKind> {
    match n
    case 1 => Some(ForbiddenDomain) case 2 => Some(MaxMembersFromDomain) case 3 => Some(MaxMembersFromClass)
    case 4 => Some(ExcludeDomainClass) case 5 => Some(RequireCoverageCompleteness) case 6 => Some(DiverseFromPeerPath)
    case _ => None
  }

  function PutPeer(path: string, generation: u64, rest: seq<byte>): seq<byte> {
    if path == "" then PutBool(false, rest) else PutBool(true, PutText(path, PutGeneration(generation, rest)))
  }

  function ReadPeer(s: seq<byte>, limits: Limits): Parse<(string, u64)> {
    var (present, s1) :- ReadBool(s);
    if !present then Some((("", 0), s1))
    else
      var (path, s2) :- ReadIdentity(s1, limits.maxMetadataBytes, PATH_ID_LENGTH);
      var (generation, s3) :- ReadGeneration(s2);
      Some(((path, generation), s3))
  }

  predicate WellFormedPeer(path: string, generation: u64, limits: Limits) {
    if path == "" then generation == 0
    else IdentityText(path, PATH_ID_LENGTH) && |path| <= limits.maxMetadataBytes && generation != 0
  }

  lemma ReadPutPeer(path: string, generation: u64, limits: Limits, rest: seq<byte>)
    requires PlainText(path) && (path == "" ==> generation == 0)
    ensures ReadPeer(PutPeer(path, generation, rest), limits) ==
            Placed(When(WellFormedPeer(path, generation, limits), (path, generation)), rest)
  {
    hide PutBool, ReadBool, PutText, ReadIdentity, PutGeneration, ReadGeneration, IdentityText;
    if path == "" {
      ReadPutBool(false, rest);
    } else {
      ReadPutBool(true, PutText(path, PutGeneration(generation, rest)));
      ReadPutIdentity(path, limits.maxMetadataBytes, PATH_ID_LENGTH, PutGeneration(generation, rest));
      ReadPutGeneration(generation, rest);
    }
  }

  lemma PutReadPeer(s: seq<byte>, limits: Limits)
    ensures var r := ReadPeer(s, limits);
            r.Some? ==>
              && WellFormedPeer(r.value.0.0, r.value.0.1, limits)
              && s == PutPeer(r.value.0.0, r.value.0.1, r.value.1)
  {
    hide PutBool, ReadBool, PutText, ReadIdentity, PutGeneration, ReadGeneration;
    PutReadBool(s);
    if ReadPeer(s, limits).Some? && ReadBool(s).value.0 {
      var s1 := ReadBool(s).value.1;
      PutReadIdentity(s1, limits.maxMetadataBytes, PATH_ID_LENGTH);
      PutReadGeneration(ReadIdentity(s1, limits.maxMetadataBytes, PATH_ID_LENGTH).value.1);
    }
  }

  function PutDomain(c: DomainConstraint, rest: seq<byte>): seq<byte> {
    PutUint(Rules.ConstraintCode(c.kind), 1, PutText(c.domain, PutClass(c.domainClass, PutUint(c.maxMembers, 4,
      PutPeer(c.peerPath, c.peerGeneration, PutCounted(c.diversityClasses, PutClass, rest))))))
  }

  function ReadDomain(s: seq<byte>, limits: Limits): Parse<DomainConstraint> {
    var (k, s1) :- ReadUint(s, 1);
    var kind :- ConstraintKindOf(k);
    var (domain, s2) :- ReadIdentity(s1, limits.maxIdLength, DOMAIN_ID_LENGTH);
    var (domainClass, s3) :- ReadClass(s2);
    var (maxMembers, s4) :- ReadUint(s3, 4);
    var ((peer, peerGeneration), s5) :- ReadPeer(s4, limits);
    var (classes, s6) :- ReadCounted(s5, MAX_CLASSES, ReadClass);
    if maxMembers > U32_MAX then None
    else Some((DomainConstraint(kind, domain, domainClass, maxMembers, peer, peerGeneration, classes), s6))
  }

  predicate NamesDomain(c: DomainConstraint, limits: Limits) {
    IdentityText(c.domain, DOMAIN_ID_LENGTH) && |c.domain| <= limits.maxIdLength
  }

  /** Everything the codec needs of a constraint except a domain name. */
  predicate OtherwiseWellFormed(c: DomainConstraint, limits: Limits) {
    WellFormedPeer(c.peerPath, c.peerGeneration, limits) && |c.diversityClasses| <= MAX_CLASSES
  }

  predicate WellFormedDomain(c: DomainConstraint, limits: Limits) { NamesDomain(c, limits) && OtherwiseWellFormed(c,
      limits) }

  /** The generation of a peer belongs to its path. */
  predicate PlainDomain(c: DomainConstraint) {
    && PlainText(c.domain) && PlainText(c.peerPath) && (c.peerPath == "" ==> c.peerGeneration == 0)
    && |c.diversityClasses| <= U32_MAX
  }

  lemma ReadPutDomain(c: DomainConstraint, limits: Limits, rest: seq<byte>)
    requires PlainDomain(c)
    ensures ReadDomain(PutDomain(c, rest), limits) == Placed(When(WellFormedDomain(c, limits), c), rest)
  {
    hide PutUint, ReadUint, PutText, ReadIdentity, PutClass, ReadClass, PutPeer, ReadPeer, PutCounted, ReadCounted,
      IdentityText, WellFormedPeer, PlainText;
    var s5 := PutCounted(c.diversityClasses, PutClass, rest);
    var s4 := PutPeer(c.peerPath, c.peerGeneration, s5);
    var s3 := PutUint(c.maxMembers, 4, s4);
    var s2 := PutClass(c.domainClass, s3);
    var s1 := PutText(c.domain, s2);
    Widths();
    ReadPutUint(Rules.ConstraintCode(c.kind), 1, s1);
    ReadPutIdentity(c.domain, limits.maxIdLength, DOMAIN_ID_LENGTH, s2);
    ClassCodec();
    ReadPutUint(c.maxMembers, 4, s4);
    ReadPutPeer(c.peerPath, c.peerGeneration, limits, s5);
    ReadPutClasses(c.diversityClasses, rest);
  }

  lemma ReadPutClasses(cs: seq<DomainClass>, rest: seq<byte>)
    requires |cs| <= U32_MAX
    ensures ReadCounted(PutCounted(cs, PutClass, rest), MAX_CLASSES, ReadClass) ==
            Placed(When(|cs| <= MAX_CLASSES, cs), rest)
  {
    hide PutClass, ReadClass, PutCounted, ReadCounted;
    ClassCodec();
    ReadPutCounted(cs, MAX_CLASSES, PutClass, ReadClass, _ => true, rest);
  }

  lemma ReadPutLayers(ls: seq<Layer>, rest: seq<byte>)
    requires |ls| <= U32_MAX
    ensures ReadCounted(PutCounted(ls, PutLayer, rest), MAX_LAYERS, ReadLayer) ==
            Placed(When(|ls| <= MAX_LAYERS, ls), rest)
  {
    hide PutLayer, ReadLayer, PutCounted, ReadCounted;
    LayerCodec();
    ReadPutCounted(ls, MAX_LAYERS, PutLayer, ReadLayer, _ => true, rest);
  }

  lemma PutReadDomain(s: seq<byte>, limits: Limits)
    ensures var r := ReadDomain(s, limits);
            r.Some? ==> WellFormedDomain(r.value.0, limits) && s == PutDomain(r.value.0, r.value.1)
  {
    hide PutUint, ReadUint, PutText, ReadIdentity, PutClass, ReadClass, PutPeer, ReadPeer, PutCounted, ReadCounted,
      IdentityText, WellFormedPeer;
    if ReadDomain(s, limits).Some? {
      PutReadUint(s, 1);
      var s1 := ReadUint(s, 1).value.1;
      PutReadIdentity(s1, limits.maxIdLength, DOMAIN_ID_LENGTH);
      var s2 := ReadIdentity(s1, limits.maxIdLength, DOMAIN_ID_LENGTH).value.1;
      ClassCodec();
      var s3 := ReadClass(s2).value.1;
      PutReadUint(s3, 4);
      var s4 := ReadUint(s3, 4).value.1;
      PutReadPeer(s4, limits);
      PutReadCounted(ReadPeer(s4, limits).value.1, MAX_CLASSES, PutClass, ReadClass, _ => true);
    }
  }

  function DomainReader(limits: Limits): seq<byte> -> Parse<DomainConstraint> { s => ReadDomain(s, limits) }

  lemma ReadPutDomains(cs: seq<DomainConstraint>, limits: Limits, rest: seq<byte>)
    requires |cs| <= U32_MAX && forall c :: c in cs ==> PlainDomain(c)
    ensures ReadCounted(PutCounted(cs, PutDomain, rest), limits.maxFailureDomainRefs, DomainReader(limits)) ==
            Placed(When(|cs| <= limits.maxFailureDomainRefs && forall c :: c in cs ==> WellFormedDomain(c, limits), cs),
              rest)
  {
    hide PutDomain, ReadDomain, WellFormedDomain, PlainDomain;
    forall c, r | c in cs
      ensures DomainReader(limits)(PutDomain(c, r)) == Placed(When(WellFormedDomain(c, limits), c), r)
    {
      ReadPutDomain(c, limits, r);
    }
    ReadPutCounted(cs, limits.maxFailureDomainRefs, PutDomain, DomainReader(limits),
      (c: DomainConstraint) => WellFormedDomain(c, limits), rest);
  }

  lemma PutReadDomains(s: seq<byte>, limits: Limits)
    ensures var r := ReadCounted(s, limits.maxFailureDomainRefs, DomainReader(limits));
            r.Some? ==> |r.value.0| <= limits.maxFailureDomainRefs
                        && (forall c :: c in r.value.0 ==> WellFormedDomain(c, limits))
                        && s == PutCounted(r.value.0, PutDomain, r.value.1)
  {
    hide PutDomain, ReadDomain, WellFormedDomain;
    forall t | DomainReader(limits)(t).Some?
      ensures WellFormedDomain(ReadDomain(t, limits).value.0, limits)
              && t == PutDomain(ReadDomain(t, limits).value.0, ReadDomain(t, limits).value.1)
    {
      PutReadDomain(t, limits);
    }
    PutReadCounted(s, limits.maxFailureDomainRefs, PutDomain, DomainReader(limits),
      (c: DomainConstraint) => WellFormedDomain(c, limits));
  }

  // ---- constraint sets ------------------------------------------------------------------

  function PutConstraintSet(c: ConstraintSet, rest: seq<byte>): seq<byte> {
    PutVersion(PutText(c.id, PutGeneration(c.generation, PutText(c.scope,
      PutCounted(c.capabilities, PutCapability, PutCounted(c.failureDomains, PutDomain,
      PutLinkAcceptance(c.linkState, PutPortAcceptance(c.portAdmin, PutCounted(c.allowedLayers, PutLayer,
      PutBool(c.allowLoops, PutUint(c.maxHops, 4, rest)))))))))))
  }

  function EncodeConstraintSet(c: ConstraintSet): seq<byte> { PutConstraintSet(c, []) }

  function ReadConstraintSet(s: seq<byte>, limits: Limits): Parse<ConstraintSet> {
    var (_, s1) :- ReadVersion(s);
    var (id, s2) :- ReadIdentity(s1, limits.maxIdLength, CONSTRAINT_SET_ID_LENGTH);
    var (generation, s3) :- ReadGeneration(s2);
    var (scope, s4) :- ReadIdentity(s3, limits.maxIdLength, SCOPE_LENGTH);
    var (capabilities, s5) :- ReadCounted(s4, limits.maxConstraints, CapabilityReader(limits));
    var (domains, s6) :- ReadCounted(s5, limits.maxFailureDomainRefs, DomainReader(limits));
    var (linkState, s7) :- ReadLinkAcceptance(s6);
    var (portAdmin, s8) :- ReadPortAcceptance(s7);
    var (layers, s9) :- ReadCounted(s8, MAX_LAYERS, ReadLayer);
    var (loops, s10) :- ReadBool(s9);
    var (maxHops, s11) :- ReadUint(s10, 4);
    if maxHops > U32_MAX then None
    else Some((ConstraintSet(id, generation, scope, capabilities, domains, linkState, portAdmin, layers, loops,
      maxHops), s11))
  }

  function DecodeConstraintSet(s: seq<byte>, limits: Limits): Option<ConstraintSet> {
    var (c, rest) :- ReadConstraintSet(s, limits);
    if rest != [] then None else Some(c)
  }

  predicate SetHeaderFits(c: ConstraintSet, limits: Limits) {
    && IdentityText(c.id, CONSTRAINT_SET_ID_LENGTH) && |c.id| <= limits.maxIdLength
    && c.generation != 0
    && IdentityText(c.scope, SCOPE_LENGTH) && |c.scope| <= limits.maxIdLength
    && |c.capabilities| <= limits.maxConstraints
    && |c.failureDomains| <= limits.maxFailureDomainRefs
    && |c.allowedLayers| <= MAX_LAYERS
  }

  predicate WellFormedSet(c: ConstraintSet, limits: Limits) {
    && SetHeaderFits(c, limits)
    && (forall x :: x in c.capabilities ==> WellFormedCapability(x, limits))
    && (forall x :: x in c.failureDomains ==> WellFormedDomain(x, limits))
  }

  /** Every text and list of the set fits its length prefix. */
  predicate PlainSet(c: ConstraintSet) {
    && PlainText(c.id) && PlainText(c.scope)
    && |c.capabilities| <= U32_MAX && (forall x :: x in c.capabilities ==> PlainCapability(x))
    && |c.failureDomains| <= U32_MAX && (forall x :: x in c.failureDomains ==> PlainDomain(x))
    && |c.allowedLayers| <= U32_MAX
  }

  lemma ReadPutConstraintSet(c: ConstraintSet, limits: Limits, rest: seq<byte>)
    requires PlainSet(c)
    ensures ReadConstraintSet(PutConstraintSet(c, rest), limits) == Placed(When(WellFormedSet(c, limits), c), rest)
  {
    hide PutUint, ReadUint, PutText, ReadIdentity, PutGeneration, ReadGeneration, PutVersion, ReadVersion, PutBool,
      ReadBool, PutCounted, ReadCounted, PutLinkAcceptance, ReadLinkAcceptance, PutPortAcceptance, ReadPortAcceptance,
      WellFormedCapability, WellFormedDomain, IdentityText, CapabilityReader, DomainReader, ReadLayer, PutLayer,
      PlainText, PlainCapability, PlainDomain;
    var s10 := PutUint(c.maxHops, 4, rest);
    var s9 := PutBool(c.allowLoops, s10);
    var s8 := PutCounted(c.allowedLayers, PutLayer, s9);
    var s7 := PutPortAcceptance(c.portAdmin, s8);
    var s6 := PutLinkAcceptance(c.linkState, s7);
    var s5 := PutCounted(c.failureDomains, PutDomain, s6);
    var s4 := PutCounted(c.capabilities, PutCapability, s5);
    var s3 := PutText(c.scope, s4);
    var s2 := PutGeneration(c.generation, s3);
    var s1 := PutText(c.id, s2);
    ReadPutVersion(s1);
    ReadPutIdentity(c.id, limits.maxIdLength, CONSTRAINT_SET_ID_LENGTH, s2);
    ReadPutGeneration(c.generation, s3);
    ReadPutIdentity(c.scope, limits.maxIdLength, SCOPE_LENGTH, s4);
    ReadPutCapabilities(c.capabilities, limits, s5);
    ReadPutDomains(c.failureDomains, limits, s6);
    ReadPutLinkAcceptance(c.linkState, s7);
    ReadPutPortAcceptance(c.portAdmin, s8);
    ReadPutLayers(c.allowedLayers, s9);
    ReadPutBool(c.allowLoops, s10);
    Widths();
    ReadPutUint(c.maxHops, 4, rest);
  }

  lemma PutReadConstraintSet(s: seq<byte>, limits: Limits)
    ensures var r := ReadConstraintSet(s, limits);
            r.Some? ==> WellFormedSet(r.value.0, limits) && s == PutConstraintSet(r.value.0, r.value.1)
  {
    hide PutUint, ReadUint, PutText, ReadIdentity, PutGeneration, ReadGeneration, PutVersion, ReadVersion, PutBool,
      ReadBool, PutCounted, ReadCounted, PutLinkAcceptance, ReadLinkAcceptance, PutPortAcceptance, ReadPortAcceptance,
      WellFormedCapability, WellFormedDomain, IdentityText, CapabilityReader, DomainReader, ReadLayer, PutLayer;
    if ReadConstraintSet(s, limits).Some? {
      PutReadVersion(s);
      var s1 := ReadVersion(s).value.1;
      PutReadIdentity(s1, limits.maxIdLength, CONSTRAINT_SET_ID_LENGTH);
      var s2 := ReadIdentity(s1, limits.maxIdLength, CONSTRAINT_SET_ID_LENGTH).value.1;
      PutReadGeneration(s2);
      var s3 := ReadGeneration(s2).value.1;
      PutReadIdentity(s3, limits.maxIdLength, SCOPE_LENGTH);
      var s4 := ReadIdentity(s3, limits.maxIdLength, SCOPE_LENGTH).value.1;
      PutReadCapabilities(s4, limits);
      var s5 := ReadCounted(s4, limits.maxConstraints, CapabilityReader(limits)).value.1;
      PutReadDomains(s5, limits);
      var s6 := ReadCounted(s5, limits.maxFailureDomainRefs, DomainReader(limits)).value.1;
      PutReadLinkAcceptance(s6);
      var s7 := ReadLinkAcceptance(s6).value.1;
      PutReadPortAcceptance(s7);
      var s8 := ReadPortAcceptance(s7).value.1;
      LayerCodec();
      PutReadCounted(s8, MAX_LAYERS, PutLayer, ReadLayer, _ => true);
      var s9 := ReadCounted(s8, MAX_LAYERS, ReadLayer).value.1;
      PutReadBool(s9);
      PutReadUint(ReadBool(s9).value.1, 4);
    }
  }

  /** Accepted bytes are the canonical encoding of a set within every limit. */
  lemma EncodeInvertsDecodeSet(s: seq<byte>, limits: Limits)
    ensures var c := DecodeConstraintSet(s, limits);
            c.Some? ==> WellFormedSet(c.value, limits) && EncodeConstraintSet(c.value) == s
  {
    hide PutConstraintSet, ReadConstraintSet, WellFormedSet;
    PutReadConstraintSet(s, limits);
  }

  /** A set decodes back to itself if it is within every bound of the decoder, and not at all otherwise. */
  lemma SetDecodes(c: ConstraintSet, limits: Limits)
    requires PlainSet(c)
    ensures DecodeConstraintSet(EncodeConstraintSet(c), limits) == When(WellFormedSet(c, limits), c)
  {
    hide PutConstraintSet, ReadConstraintSet, WellFormedSet, PlainSet;
    ReadPutConstraintSet(c, limits, []);
  }

  /**
   * A set whose header, requirements and peers fit decodes back to itself exactly when every failure-domain
   * constraint names a domain, although only two of the six kinds use the name.
   */
  lemma ConstraintSetRoundTrip(c: ConstraintSet, limits: Limits)
    requires SetHeaderFits(c, limits)
    requires forall x :: x in c.capabilities ==> WellFormedCapability(x, limits)
    requires forall x :: x in c.failureDomains ==> OtherwiseWellFormed(x, limits)
    ensures DecodeConstraintSet(EncodeConstraintSet(c), limits) == Some(c)
            <==> forall x :: x in c.failureDomains ==> NamesDomain(x, limits)
  {
    hide PutConstraintSet, ReadConstraintSet, SetHeaderFits, WellFormedCapability, NamesDomain, OtherwiseWellFormed;
    if WellFormedSet(c, limits) {
      WellFormedSetIsPlain(c, limits);
      ReadPutConstraintSet(c, limits, []);
    }
    EncodeInvertsDecodeSet(EncodeConstraintSet(c), limits);
  }

  lemma WellFormedSetIsPlain(c: ConstraintSet, limits: Limits)
    requires WellFormedSet(c, limits)
    ensures PlainSet(c)
  {
    hide IdentityText, PlainText, WellFormedCapability, PlainCapability, WellFormedDomain, PlainDomain;
    IdentityIsPlain(c.id, CONSTRAINT_SET_ID_LENGTH);
    IdentityIsPlain(c.scope, SCOPE_LENGTH);
    forall x | x in c.capabilities ensures PlainCapability(x) { CapabilityIsPlain(x, limits); }
    forall x | x in c.failureDomains ensures PlainDomain(x) { DomainIsPlain(x, limits); }
  }

  lemma CapabilityIsPlain(c: CapabilityRequirement, limits: Limits)
    requires WellFormedCapability(c, limits)
    ensures PlainCapability(c)
  {
    hide IdentityText, NodeShape, Encodable;
    IdentityIsPlain(c.key, CAPABILITY_KEY_LENGTH);
    EncodableIsPlain(c.expression, limits);
  }

  lemma DomainIsPlain(c: DomainConstraint, limits: Limits)
    requires WellFormedDomain(c, limits)
    ensures PlainDomain(c)
  {
    hide IdentityText;
    IdentityIsPlain(c.domain, DOMAIN_ID_LENGTH);
    if c.peerPath != "" { IdentityIsPlain(c.peerPath, PATH_ID_LENGTH); }
  }

  // ---- policy sets -------------------------------------------------------------------------

  function PutPolicy(p: PolicySet, rest: seq<byte>): seq<byte> {
    PutVersion(PutGeneration(p.generation,
      PutText(p.scope, PutLinkAcceptance(p.linkState, PutPortAcceptance(p.portAdmin,
      PutCounted(p.requiredCapabilities, PutCapability, PutCounted(p.forbiddenDomainClasses, PutClass,
      PutCounted(p.forbiddenLayers, PutLayer, PutBool(p.allowLoops, PutUint(p.maxHops, 4,
      PutBool(p.allowConditionalAuthorization, PutBool(p.allowUnknownLinkState, rest))))))))))))
  }

  function EncodePolicy(p: PolicySet): seq<byte> { PutPolicy(p, []) }

  function ReadPolicy(s: seq<byte>, limits: Limits): Parse<PolicySet> {
    var (_, s1) :- ReadVersion(s);
    var (generation, s2) :- ReadGeneration(s1);
    var (scope, s3) :- ReadIdentity(s2, limits.maxIdLength, SCOPE_LENGTH);
    var (linkState, s4) :- ReadLinkAcceptance(s3);
    var (portAdmin, s5) :- ReadPortAcceptance(s4);
    var (capabilities, s6) :- ReadCounted(s5, limits.maxConstraints, CapabilityReader(limits));
    var (classes, s7) :- ReadCounted(s6, MAX_CLASSES, ReadClass);
    var (layers, s8) :- ReadCounted(s7, MAX_LAYERS, ReadLayer);
    var (loops, s9) :- ReadBool(s8);
    var (maxHops, s10) :- ReadUint(s9, 4);
    var (conditional, s11) :- ReadBool(s10);
    var (unknown, s12) :- ReadBool(s11);
    if maxHops > U32_MAX then None
    else Some((PolicySet(generation, scope, linkState, portAdmin, capabilities, classes, layers, loops, maxHops,
      conditional, unknown), s12))
  }

  function DecodePolicy(s: seq<byte>, limits: Limits): Option<PolicySet> {
    var (p, rest) :- ReadPolicy(s, limits);
    if rest != [] then None else Some(p)
  }

  predicate WellFormedPolicy(p: PolicySet, limits: Limits) {
    && p.generation != 0
    && IdentityText(p.scope, SCOPE_LENGTH) && |p.scope| <= limits.maxIdLength
    && |p.requiredCapabilities| <= limits.maxConstraints
    && (forall x :: x in p.requiredCapabilities ==> WellFormedCapability(x, limits))
    && |p.forbiddenDomainClasses| <= MAX_CLASSES && |p.forbiddenLayers| <= MAX_LAYERS
  }

  predicate PlainPolicy(p: PolicySet) {
    && PlainText(p.scope)
    && |p.requiredCapabilities| <= U32_MAX && (forall x :: x in p.requiredCapabilities ==> PlainCapability(x))
    && |p.forbiddenDomainClasses| <= U32_MAX && |p.forbiddenLayers| <= U32_MAX
  }

  /** A policy decodes back to itself if it is within every bound of the decoder, and not at all otherwise. */
  lemma PolicyRoundTrip(p: PolicySet, limits: Limits)
    requires PlainPolicy(p)
    ensures DecodePolicy(EncodePolicy(p), limits) == When(WellFormedPolicy(p, limits), p)
  {
    hide PutUint, ReadUint, PutText, ReadIdentity, PutGeneration, ReadGeneration, PutVersion, ReadVersion, PutBool,
      ReadBool, PutCounted, ReadCounted, PutLinkAcceptance, ReadLinkAcceptance, PutPortAcceptance, ReadPortAcceptance,
      WellFormedCapability, IdentityText, CapabilityReader, ReadLayer, PutLayer, ReadClass, PutClass, PlainText,
      PlainCapability;
    var rest: seq<byte> := [];
    var s11 := PutBool(p.allowUnknownLinkState, rest);
    var s10 := PutBool(p.allowConditionalAuthorization, s11);
    var s9 := PutUint(p.maxHops, 4, s10);
    var s8 := PutBool(p.allowLoops, s9);
    var s7 := PutCounted(p.forbiddenLayers, PutLayer, s8);
    var s6 := PutCounted(p.forbiddenDomainClasses, PutClass, s7);
    var s5 := PutCounted(p.requiredCapabilities, PutCapability, s6);
    var s4 := PutPortAcceptance(p.portAdmin, s5);
    var s3 := PutLinkAcceptance(p.linkState, s4);
    var s2 := PutText(p.scope, s3);
    var s1 := PutGeneration(p.generation, s2);
    ReadPutVersion(s1);
    ReadPutGeneration(p.generation, s2);
    ReadPutIdentity(p.scope, limits.maxIdLength, SCOPE_LENGTH, s3);
    ReadPutLinkAcceptance(p.linkState, s4);
    ReadPutPortAcceptance(p.portAdmin, s5);
    ReadPutCapabilities(p.requiredCapabilities, limits, s6);
    ReadPutClasses(p.forbiddenDomainClasses, s7);
    ReadPutLayers(p.forbiddenLayers, s8);
    ReadPutBool(p.allowLoops, s9);
    Widths();
    ReadPutUint(p.maxHops, 4, s10);
    ReadPutBool(p.allowConditionalAuthorization, s11);
    ReadPutBool(p.allowUnknownLinkState, rest);
  }

  // ---- evidence vectors ----------------------------------------------------------------------

  function EvidenceKindOf(n: nat): Option<EvidenceKind> {
    match n
    case 1 => Some(Topology) case 2 => Some(StructuralElement) case 3 => Some(LinkStateKind) case 4 => Some(PortConfig)
    case 5 => Some(Capability) case 6 => Some(FailureDomain) case 7 => Some(Policy) case 8 => Some(Epoch)
    case 9 => Some(Constraints) case 10 => Some(UnderlyingAuthority)
    case _ => None
  }

  function PutEntry(e: EvidenceEntry, rest: seq<byte>): seq<byte> {
    PutUint(EvidenceCode(e.kind), 1, PutText(e.subject, PutUint(e.generation, 8, rest)))
  }

  function ReadEntry(s: seq<byte>, limits: Limits): Parse<EvidenceEntry> {
    var (k, s1) :- ReadUint(s, 1);
    var kind :- EvidenceKindOf(k);
    var (subject, s2) :- ReadText(s1, limits.maxMetadataBytes);
    var (generation, s3) :- ReadUint(s2, 8);
    if |subject| > limits.maxIdLength + 32 || generation > U64_MAX then None
    else Some((EvidenceEntry(kind, subject, generation), s3))
  }

  predicate EntryFits(e: EvidenceEntry, limits: Limits) {
    IsBytes(e.subject) && |e.subject| <= limits.maxMetadataBytes && |e.subject| <= limits.maxIdLength + 32
  }

  lemma ReadPutEntry(e: EvidenceEntry, limits: Limits, rest: seq<byte>)
    requires PlainText(e.subject)
    ensures ReadEntry(PutEntry(e, rest), limits) == Placed(When(EntryFits(e, limits), e), rest)
  {
    hide PutUint, ReadUint, PutText, ReadText;
    Widths();
    ReadPutUint(EvidenceCode(e.kind), 1, PutText(e.subject, PutUint(e.generation, 8, rest)));
    ReadPutText(e.subject, limits.maxMetadataBytes, PutUint(e.generation, 8, rest));
    ReadPutUint(e.generation, 8, rest);
  }

  lemma PutReadEntry(s: seq<byte>, limits: Limits)
    ensures var r := ReadEntry(s, limits); r.Some? ==>
              EntryFits(r.value.0, limits) && s == PutEntry(r.value.0, r.value.1)
  {
    hide PutUint, ReadUint, PutText, ReadText;
    if ReadEntry(s, limits).Some? {
      PutReadUint(s, 1);
      var s1 := ReadUint(s, 1).value.1;
      PutReadText(s1, limits.maxMetadataBytes);
      PutReadUint(ReadText(s1, limits.maxMetadataBytes).value.1, 8);
    }
  }

  function EntryReader(limits: Limits): seq<byte> -> Parse<EvidenceEntry> { s => ReadEntry(s, limits) }

  function EncodeEvidence(es: seq<EvidenceEntry>): seq<byte> { PutVersion(PutCounted(es, PutEntry, [])) }

  /** decode_evidence_vector: entries out of canonical order are refused. */
  function DecodeEvidence(s: seq<byte>, limits: Limits): Option<seq<EvidenceEntry>> {
    var (_, s1) :- ReadVersion(s);
    var (es, rest) :- ReadCounted(s1, limits.maxDependenciesPerPath, EntryReader(limits));
    if Evidence.Canonical(es) && rest == [] then Some(es) else None
  }

  predicate WellFormedEvidence(es: seq<EvidenceEntry>, limits: Limits) {
    |es| <= limits.maxDependenciesPerPath && Evidence.Canonical(es) && forall e :: e in es ==> EntryFits(e, limits)
  }

  predicate PlainEvidence(es: seq<EvidenceEntry>) {
    |es| <= U32_MAX && forall e :: e in es ==> PlainText(e.subject)
  }

  /** A vector decodes back to itself if it is canonical and within every bound, and not at all otherwise. */
  lemma EvidenceDecodes(es: seq<EvidenceEntry>, limits: Limits)
    requires PlainEvidence(es)
    ensures DecodeEvidence(EncodeEvidence(es), limits) == When(WellFormedEvidence(es, limits), es)
  {
    hide PutEntry, ReadEntry, PutVersion, ReadVersion, PutCounted, ReadCounted, EntryFits, Evidence.Canonical,
      PlainText;
    ReadPutVersion(PutCounted(es, PutEntry, []));
    forall e, r | e in es ensures EntryReader(limits)(PutEntry(e, r)) == Placed(When(EntryFits(e, limits), e), r) {
      ReadPutEntry(e, limits, r);
    }
    ReadPutCounted(es, limits.maxDependenciesPerPath, PutEntry, EntryReader(limits),
      (e: EvidenceEntry) => EntryFits(e, limits), []);
  }

  /** The evidence codec is a two-sided inverse between canonical vectors within the limits and accepted bytes. */
  lemma EvidenceRoundTrip(es: seq<EvidenceEntry>, s: seq<byte>, limits: Limits)
    ensures WellFormedEvidence(es, limits) && EncodeEvidence(es) == s <==> DecodeEvidence(s, limits) == Some(es)
  {
    hide PutEntry, ReadEntry, PutVersion, ReadVersion, PutCounted, ReadCounted, EntryFits, Evidence.Canonical;
    if WellFormedEvidence(es, limits) && EncodeEvidence(es) == s {
      forall e | e in es ensures PlainText(e.subject) { EntryIsPlain(e, limits); }
      EvidenceDecodes(es, limits);
    }
    if DecodeEvidence(s, limits) == Some(es) {
      PutReadVersion(s);
      forall t | EntryReader(limits)(t).Some?
        ensures EntryFits(ReadEntry(t, limits).value.0, limits)
                && t == PutEntry(ReadEntry(t, limits).value.0, ReadEntry(t, limits).value.1)
      {
        PutReadEntry(t, limits);
      }
      PutReadCounted(ReadVersion(s).value.1, limits.maxDependenciesPerPath, PutEntry, EntryReader(limits),
        (e: EvidenceEntry) => EntryFits(e, limits));
    }
  }

  lemma EntryIsPlain(e: EvidenceEntry, limits: Limits)
    requires EntryFits(e, limits)
    ensures PlainText(e.subject)
  {
  }
}
