/** Concrete inputs for the results that show where a guarantee ends. */
module Scenarios {
  import opened Base
  import opened Model
  import opened Evidence
  import opened RuntimeState
  import opened RuntimeRuns
  import opened Publication
  import PathCodec
  import PathShape
  import Recovery

  /** The default limits. */
  function SomeLimits(): Limits {
    Limits(64, 128, 4096, 256, 64, 128, 8, 128, 4, 1000000, 64, 4096, 1048576, 4096, 32, 1048576, 1073741824, 1000000)
  }

  function SomeLink(): LinkAcceptance { LinkAcceptance(false, false, false, false) }

  function SomeSet(): ConstraintSet {
    ConstraintSet("c", 1, "s", [], [], SomeLink(), PortAcceptance(false, false), [], false, 0)
  }

  function SomePolicy(): PolicySet {
    PolicySet(1, "s", SomeLink(), PortAcceptance(false, false), [], [], [], false, 0, false, false)
  }

  function SomeHops(): seq<PathElement> {
    [PathElement(Endpoint, "a", 1, Physical, NoRelation), PathElement(Endpoint, "b", 1, Physical, NoRelation)]
  }

  /** Two endpoints, over an underlying path if one is given. */
  function SomePath(id: string, under: string): PathDefinition {
    if under == "" then PathDefinition(id, 1, PhysicalPath, "s", "c", 1, SomeHops(), None)
    else PathDefinition(id, 1, LogicalPath, "s", "c", 1, SomeHops(), Some(UnderlyingRef(under, 1, 1)))
  }

  /** The same path under the id that its content determines. */
  function NamedPath(under: string): PathDefinition {
    SomePath(PathCodec.DerivedId(SomePath("", under)), under)
  }

  function SomeEvidence(): seq<EvidenceEntry> { [EvidenceEntry(Policy, SELF, 1), EvidenceEntry(Epoch, SELF, 1)] }

  /** A decision of the given outcome whose digests are right. */
  function DecisionFor(p: PathDefinition, outcome: Outcome): Decision {
    var path, constraint, state := PathDigestOf(p), ConstraintDigestOf(SomeSet()), StateForOutcome(outcome);
    Decision(state, outcome, None, SomeEvidence(), path,
      AuthorityDigestOf(p, path, constraint, SomeEvidence(), state, outcome, []), constraint, [])
  }

  function AnyRequest(): EvaluationRequest { EvaluationRequest("", None, None, "", "", false) }

  /** The request that publish_decision makes of the decision in policy and epoch one. */
  function CommitFor(p: PathDefinition, outcome: Outcome, request: EvaluationRequest): CommitRequest {
    RequestFor(p, DecisionFor(p, outcome), request, SomeSet(), SomePolicy(), 1)
  }

  // ---- they pass every check ---------------------------------------------------------------------

  lemma HopsAreWellFormed(limits: Limits)
    requires limits.maxIdLength > 0
    ensures PathShape.HopsWellFormed(SomeHops(), limits) && PathShape.EndsPaired(SomeHops())
    ensures forall t :: PathShape.LoopFree(t, SomeHops())
  {
    var h := SomeHops();
    assert PathCodec.IdentityText("a", limits.maxIdLength) && PathCodec.IdentityText("b", limits.maxIdLength);
    assert h[0].Ref() == ElementRef(Endpoint, "a") && h[1].Ref() == ElementRef(Endpoint, "b");
    assert "a"[0] != "b"[0];
  }

  lemma SomePathIsShaped(id: string, under: string, limits: Limits)
    requires id != "" && under != id && PathShape.ValidLimits(limits)
    ensures PathShape.Shape(SomePath(id, under), limits, false) == PathShape.Valid
  {
    hide PathShape.HopsWellFormed, PathShape.EndsPaired, PathShape.LoopFree, PathShape.HopsStatus,
      PathCodec.IdentityBinds;
    HopsAreWellFormed(limits);
    PathShape.HopsStatusMeaning(SomeHops(), limits);
  }

  /** A path under its derived id passes the identity check as well. */
  lemma NamedPathIsShaped(under: string, limits: Limits)
    requires |under| < 5 && PathShape.ValidLimits(limits)
    ensures PathShape.Shape(NamedPath(under), limits, true) == PathShape.Valid && NamedPath(under).id != ""
  {
    hide PathShape.HopsWellFormed, PathShape.EndsPaired, PathShape.LoopFree, PathShape.HopsStatus,
      PathCodec.EncodePath, PathCodec.DerivedId;
    var base := SomePath("", under);
    PathCodec.DerivedIdIsLong(base);
    HopsAreWellFormed(limits);
    PathShape.HopsStatusMeaning(SomeHops(), limits);
    PathCodec.DerivedIdIgnoresId(base, PathCodec.DerivedId(base));
    assert base.(id := PathCodec.DerivedId(base)) == NamedPath(under);
  }

  lemma SomeEvidenceIsValid()
    ensures Recovery.ValidEvidence(SomeEvidence()) && Scalar(SomeEvidence(), Epoch) == 1
            && Scalar(SomeEvidence(), Policy) == 1
  {
    assert SomeEvidence()[1..] == [EvidenceEntry(Epoch, SELF, 1)];
    assert Find(SomeEvidence()[1..], (Epoch, SELF)) == Some(1);
  }

  /** A state in which nothing stands in the way of the path. */
  predicate Clear(rt: Runtime, p: PathDefinition) {
    && "c" in rt.sets && rt.sets["c"] == SomeSet() && p.constraintSet == "c" && p.constraintGeneration == 1
    && (p.id in rt.records ==> !rt.records[p.id].retired && rt.records[p.id].revocation.None?)
  }

  /** The decision passes every check of publish_decision. */
  lemma DecisionIsReady(rt: Runtime, c: Config, p: PathDefinition, outcome: Outcome, request: EvaluationRequest)
    requires Clear(rt, p) && (request.bindingEpoch.Some? ==> request.bindingEpoch.value == 1)
    requires !AttemptConflicts(rt, request.attempt, InputDigestOf(p, SomeSet(), SomePolicy(), 1))
    requires PathShape.Shape(p, c.limits, request.requireIdentityBinding) == PathShape.Valid
    ensures PreparePublish(rt, c, p, DecisionFor(p, outcome), request, SomePolicy(), 1) ==
              Ready(CommitFor(p, outcome, request))
    ensures ProperRequest(CommitFor(p, outcome, request)) && Checked(rt, CommitFor(p, outcome, request))
  {
    hide PathShape.Shape, Recovery.ValidEvidence, Scalar, SomeEvidence, ConstraintDigestOf, PathDigestOf,
      InputDigestOf, Codes, StateForOutcome, SomeSet, ProperRequest, Checked;
    SomeEvidenceIsValid();
    ReadyOnceSeen(rt, c, p, outcome, request);
    PublishIsChecked(rt, c, p, DecisionFor(p, outcome), request, SomePolicy(), 1);
  }

  lemma ReadyOnceSeen(rt: Runtime, c: Config, p: PathDefinition, outcome: Outcome, request: EvaluationRequest)
    requires Clear(rt, p) && (request.bindingEpoch.Some? ==> request.bindingEpoch.value == 1)
    requires !AttemptConflicts(rt, request.attempt, InputDigestOf(p, SomeSet(), SomePolicy(), 1))
    requires PathShape.Shape(p, c.limits, request.requireIdentityBinding) == PathShape.Valid
    requires Recovery.ValidEvidence(SomeEvidence()) && Scalar(SomeEvidence(), Epoch) == 1
             && Scalar(SomeEvidence(), Policy) == 1
    ensures PreparePublish(rt, c, p, DecisionFor(p, outcome), request, SomePolicy(), 1) ==
              Ready(CommitFor(p, outcome, request))
  {
    hide PathShape.Shape, Recovery.ValidEvidence, Scalar, SomeEvidence, ConstraintDigestOf, PathDigestOf,
      InputDigestOf, Codes, StateForOutcome;
    assert SomeSet().generation == 1;
  }

  predicate Written(r: Record, p: PathDefinition, outcome: Outcome, request: EvaluationRequest, generation: nat) {
    && r.definition == p && r.generation == generation && r.state == StateForOutcome(outcome) && r.outcome == outcome
    && r.evidence == SomeEvidence() && r.authorityDigest == DecisionFor(p, outcome).authorityDigest
    && r.publisher == request.publisher && r.workerBoot == request.workerBoot
  }

  /** No watermark stands above the scalars that the decision binds. */
  predicate NoScalarWatermark(rt: Runtime) { (Policy, SELF) !in rt.watermarks && (Epoch, SELF) !in rt.watermarks }

  lemma NotStale(rt: Runtime)
    requires NoScalarWatermark(rt)
    ensures !StaleEvidence(rt.watermarks, SomeEvidence())
  {
    forall e | e in SomeEvidence() ensures !BelowWatermark(rt.watermarks, e) {
      assert e == SomeEvidence()[0] || e == SomeEvidence()[1];
    }
  }

  /** It commits at the next generation, unless it replays the digest on record. */
  lemma DecisionCommits(rt: Runtime, c: Config, p: PathDefinition, outcome: Outcome, request: EvaluationRequest)
    requires NoScalarWatermark(rt) && request.expected.None? && CurrentGeneration(rt, p.id) < U64_MAX
    requires p.id in rt.records || |rt.records| < c.limits.maxPaths
    requires p.id in rt.records ==>
      !c.idempotentReplay || rt.records[p.id].authorityDigest != DecisionFor(p, outcome).authorityDigest
    ensures var (rt', result) := Commit(rt, c, CommitFor(p, outcome, request));
            && result == Committed(CurrentGeneration(rt, p.id) + 1) && rt'.sets == rt.sets
            && rt'.watermarks == rt.watermarks
            && rt'.records.Keys == rt.records.Keys + {p.id}
            && (forall x :: x in rt.records && x != p.id ==> rt'.records[x] == rt.records[x])
            && Written(rt'.records[p.id], p, outcome, request, CurrentGeneration(rt, p.id) + 1)
            && rt'.records[p.id].revocation == (if p.id in rt.records then rt.records[p.id].revocation else None)
            && rt'.records[p.id].retired == (p.id in rt.records && rt.records[p.id].retired)
  {
    hide Commit, StaleEvidence, DependenciesOf, ConstraintDigestOf, PathDigestOf, InputDigestOf, Scalar, SomeEvidence,
      SomeSet, StateForOutcome, AuthorityDigestOf;
    NotStale(rt);
    CommitOutcomes(rt, c, CommitFor(p, outcome, request));
    CommitRecords(rt, c, CommitFor(p, outcome, request));
  }

  /** An empty runtime that has registered the set. */
  function WithSet(): Runtime { EmptyRuntime().(sets := map["c" := SomeSet()]) }

  lemma WithSetIsRegistered(c: Config)
    requires c.limits == SomeLimits()
    ensures Register(EmptyRuntime(), SomeSet().(generation := 0), c.limits).0 == WithSet()
  {
    var r := Register(EmptyRuntime(), SomeSet().(generation := 0), c.limits).0;
    assert r.records == map[];
  }
}
