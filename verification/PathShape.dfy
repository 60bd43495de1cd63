/** validate_path_shape: the structural rules a path meets before any evidence is read. */
module PathShape {
  import opened Base
  import opened Model
  import PathCodec

  datatype ShapeStatus =
    | Valid | TooFewHops | TooManyHops | InvalidIdentity | UnknownGeneration | MalformedElement
    | EndpointPairing | AccidentalLoop | NestingDepthExceeded | IdentityMismatch

  /** Limits::valid, for the limits the model carries. */
  predicate ValidLimits(limits: Limits) {
    && limits.maxHops > 1 && limits.maxIdLength > 0 && limits.maxMetadataBytes > 0 && limits.maxConstraints > 0
    && limits.maxCapabilityValues > 0 && limits.maxRequirementNodes > 0 && limits.maxRequirementDepth > 0
    && limits.maxFailureDomainRefs > 0 && limits.maxNestingDepth > 0 && limits.maxPaths > 0
    && limits.maxHistory > 0 && limits.maxExplanationEntries > 0 && limits.maxDependenciesPerPath > 0
    && limits.maxOutstandingAttempts > 0 && limits.maxPublishers > 0 && limits.maxFrameBytes > 0
    && limits.maxStoreBytes > 0 && limits.maxStoreRecords > 0
  }

  predicate Terminal(k: ElementKind) {
    k == Endpoint || k == LogicalHop || k == FabricBoundary || k == SiteBoundary
  }

  predicate LoopExempt(k: ElementKind) { k == Tunnel || k == SiteBoundary || k == FabricBoundary }

  /** Whether a hop takes part in the repetition check of its path type. */
  predicate Counted(t: PathType, h: PathElement) { t == PhysicalPath || !LoopExempt(h.kind) }

  // ---- what a well-shaped path is ------------------------------------------------

  predicate HopsWellFormed(hops: seq<PathElement>, limits: Limits) {
    forall h :: h in hops ==> PathCodec.IdentityText(h.id, limits.maxIdLength) && h.generation != 0
  }

  predicate EndsPaired(hops: seq<PathElement>) {
    && hops != [] && Terminal(hops[0].kind) && Terminal(hops[|hops| - 1].kind)
    && forall i :: 0 < i < |hops| - 1 ==> hops[i].kind != Endpoint
  }

  predicate LoopFree(t: PathType, hops: seq<PathElement>) {
    forall i, j :: 0 <= i < j < |hops| && Counted(t, hops[i]) && Counted(t, hops[j]) ==> hops[i].Ref() != hops[j].Ref()
  }

  predicate UnderlyingWellFormed(p: PathDefinition, limits: Limits) {
    p.underlying.Some? ==>
      && p.underlying.value.path != "" && p.underlying.value.authorityGeneration != 0
      && 0 < p.underlying.value.nestingDepth <= limits.maxNestingDepth
      && p.underlying.value.path != p.id && p.pathType == LogicalPath
  }

  predicate WellShaped(p: PathDefinition, limits: Limits, bindIdentity: bool) {
    && ValidLimits(limits)
    && p.id != "" && p.scope != "" && p.constraintSet != "" && p.generation != 0 && p.constraintGeneration != 0
    && 2 <= |p.hops| <= limits.maxHops
    && HopsWellFormed(p.hops, limits) && EndsPaired(p.hops) && LoopFree(p.pathType, p.hops)
    && UnderlyingWellFormed(p, limits)
    && (bindIdentity ==> PathCodec.IdentityBinds(p))
  }

  // ---- which failure is reported --------------------------------------------------

  function HopStatus(h: PathElement, limits: Limits): ShapeStatus {
    if !PathCodec.IdentityText(h.id, limits.maxIdLength) then MalformedElement
    else if h.generation == 0 then UnknownGeneration
    else Valid
  }

  function HopsStatus(hops: seq<PathElement>, limits: Limits): ShapeStatus {
    if hops == [] then Valid
    else if HopStatus(hops[0], limits) != Valid then HopStatus(hops[0], limits)
    else HopsStatus(hops[1..], limits)
  }

  function UnderlyingStatus(p: PathDefinition, limits: Limits): ShapeStatus {
    match p.underlying
    case None => Valid
    case Some(u) =>
      if u.path == "" || u.authorityGeneration == 0 then MalformedElement
      else if u.nestingDepth == 0 || u.nestingDepth > limits.maxNestingDepth then NestingDepthExceeded
      else if u.path == p.id || p.pathType != LogicalPath then MalformedElement
      else Valid
  }

  /** The first failing check in source order. */
  function Shape(p: PathDefinition, limits: Limits, bindIdentity: bool): ShapeStatus {
    if !ValidLimits(limits) || p.id == "" || p.scope == "" || p.constraintSet == "" then InvalidIdentity
    else if p.generation == 0 || p.constraintGeneration == 0 then UnknownGeneration
    else if |p.hops| < 2 then TooFewHops
    else if |p.hops| > limits.maxHops then TooManyHops
    else if HopsStatus(p.hops, limits) != Valid then HopsStatus(p.hops, limits)
    else if !EndsPaired(p.hops) then EndpointPairing
    else if !LoopFree(p.pathType, p.hops) then AccidentalLoop
    else if UnderlyingStatus(p, limits) != Valid then UnderlyingStatus(p, limits)
    else if bindIdentity && !PathCodec.IdentityBinds(p) then IdentityMismatch
    else Valid
  }

  lemma {:induction false} HopsStatusMeaning(hops: seq<PathElement>, limits: Limits)
    ensures HopsStatus(hops, limits) == Valid <==> HopsWellFormed(hops, limits)
  {
    hide PathCodec.IdentityText;
    if hops != [] {
      HopsStatusMeaning(hops[1..], limits);
      assert forall h :: h in hops <==> h == hops[0] || h in hops[1..];
    }
  }

  /** A path is accepted exactly when it is well shaped. */
  lemma ShapeMeaning(p: PathDefinition, limits: Limits, bindIdentity: bool)
    ensures Shape(p, limits, bindIdentity) == Valid <==> WellShaped(p, limits, bindIdentity)
  {
    hide ValidLimits, HopsStatus, HopsWellFormed, EndsPaired, LoopFree, PathCodec.IdentityBinds;
    HopsStatusMeaning(p.hops, limits);
  }

  lemma KindNameShape(k: ElementKind)
    ensures |KindName(k)| >= 2
  {
  }

  /** Two characters tell the kind names apart. */
  lemma KindNamesDiffer(a: ElementKind, b: ElementKind)
    requires KindName(a)[..2] == KindName(b)[..2]
    ensures a == b
  {
    assert KindName(a)[0] == KindName(a)[..2][0] && KindName(a)[1] == KindName(a)[..2][1];
    assert KindName(b)[0] == KindName(b)[..2][0] && KindName(b)[1] == KindName(b)[..2][1];
  }

  /** The rendered key of an element determines the element. */
  lemma ElementKeyInjective(a: ElementRef, b: ElementRef)
    requires ElementKey(a) == ElementKey(b)
    ensures a == b
  {
    hide KindName;
    KindNameShape(a.kind);
    KindNameShape(b.kind);
    assert ElementKey(a)[..2] == KindName(a.kind)[..2] && ElementKey(b)[..2] == KindName(b.kind)[..2];
    KindNamesDiffer(a.kind, b.kind);
    var n := |KindName(a.kind)| + 1;
    assert ElementKey(a)[n..] == a.id && ElementKey(b)[n..] == b.id;
  }

  // ---- the loops ----------------------------------------------------------------------

  method CheckHops(hops: seq<PathElement>, limits: Limits) returns (status: ShapeStatus)
    ensures status == HopsStatus(hops, limits)
  {
    hide PathCodec.IdentityText;
    for i := 0 to |hops|
      invariant HopsStatus(hops, limits) == HopsStatus(hops[i..], limits)
    {
      assert hops[i..][0] == hops[i] && hops[i..][1..] == hops[i + 1..];
      if !PathCodec.IdentityText(hops[i].id, limits.maxIdLength) { return MalformedElement; }
      if hops[i].generation == 0 { return UnknownGeneration; }
    }
    return Valid;
  }

  method CheckEnds(hops: seq<PathElement>) returns (ok: bool)
    requires |hops| >= 2
    ensures ok <==> EndsPaired(hops)
  {
    if !Terminal(hops[0].kind) || !Terminal(hops[|hops| - 1].kind) { return false; }
    for i := 1 to |hops| - 1
      invariant forall j :: 0 < j < i ==> hops[j].kind != Endpoint
    {
      if hops[i].kind == Endpoint { return false; }
    }
    return true;
  }

  /** The rendered keys of the hops that were inserted so far decide the repetition check. */
  method CheckLoops(t: PathType, hops: seq<PathElement>) returns (ok: bool)
    ensures ok <==> LoopFree(t, hops)
  {
    hide ElementKey;
    var seen: set<string> := {};
    for i := 0 to |hops|
      invariant forall k ::
                  k in seen <==> exists j :: 0 <= j < i && Counted(t, hops[j]) && k == ElementKey(hops[j].Ref())
      invariant LoopFree(t, hops[..i])
    {
      var h := hops[i];
      var key := ElementKey(h.Ref());
      if Counted(t, h) {
        if key in seen {
          var j :| 0 <= j < i && Counted(t, hops[j]) && key == ElementKey(hops[j].Ref());
          ElementKeyInjective(h.Ref(), hops[j].Ref());
          return false;
        }
        seen := seen + {key};
      }
      assert hops[..i + 1] == hops[..i] + [h];
    }
    assert hops[..|hops|] == hops;
    return true;
  }

  method ValidatePathShape(p: PathDefinition, limits: Limits, bindIdentity: bool) returns (status: ShapeStatus)
    ensures status == Shape(p, limits, bindIdentity)
    ensures status == Valid <==> WellShaped(p, limits, bindIdentity)
  {
    hide ValidLimits, HopsStatus, HopsWellFormed, EndsPaired, LoopFree, PathCodec.IdentityBinds, WellShaped;
    ShapeMeaning(p, limits, bindIdentity);
    if !ValidLimits(limits) || p.id == "" || p.scope == "" || p.constraintSet == "" { return InvalidIdentity; }
    if p.generation == 0 || p.constraintGeneration == 0 { return UnknownGeneration; }
    if |p.hops| < 2 { return TooFewHops; }
    if |p.hops| > limits.maxHops { return TooManyHops; }
    var hops := CheckHops(p.hops, limits);
    if hops != Valid { return hops; }
    var ends := CheckEnds(p.hops);
    if !ends { return EndpointPairing; }
    var loops := CheckLoops(p.pathType, p.hops);
    if !loops { return AccidentalLoop; }
    if p.underlying.Some? {
      var u := p.underlying.value;
      if u.path == "" || u.authorityGeneration == 0 { return MalformedElement; }
      if u.nestingDepth == 0 || u.nestingDepth > limits.maxNestingDepth { return NestingDepthExceeded; }
      if u.path == p.id { return MalformedElement; }
      if p.pathType != LogicalPath { return MalformedElement; }
    }
    if bindIdentity && !PathCodec.IdentityBinds(p) { return IdentityMismatch; }
    return Valid;
  }
}
