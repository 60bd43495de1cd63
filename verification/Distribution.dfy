/** Evaluating at an evaluator and publishing is evaluating at the coordinator. */
module Distribution {
  import opened Base
  import opened Model
  import opened Evidence
  import opened RuntimeState
  import opened RuntimeRuns
  import opened Publication
  import opened Views
  import opened Findings
  import opened Reads
  import opened Evaluation
  import PathShape
  import Recovery
  import Currentness
  import Rules

  /** The outcomes that an evaluator keeps to itself. */
  predicate LocalOnly(o: Outcome) {
    o == MalformedPath || o == ResourceLimit || o == ConstraintSetUnknown || o == EvaluationAttemptConflict
      || o == PathUnknown
    || o == PathRetired || o == RevokedOutcome || o == StaleEpoch
  }

  /** The decision that the evaluator sends after it committed locally; none when the outcome stays local. */
  function Published(rt: Runtime, c: Config, w: World, p: PathDefinition, request: EvaluationRequest): Option<Decision>
    requires Usable(rt, w) && Evaluate(rt, c, w, p, request).1.committed
    requires p.constraintSet in rt.sets && ResolveUnderlying(rt, p, c.limits).Some?
  {
    if LocalOnly(Evaluate(rt, c, w, p, request).1.primary) then None
    else Some(DecisionOf(InputsFor(rt, c.limits, w, p, ResolveUnderlying(rt, p, c.limits).value)))
  }

  // ---- the scalars of computed evidence ---------------------------------------------------------

  /** The set calls after the epoch and the policy. */
  function LaterReads(i: Inputs): seq<EvidenceEntry> {
    [EvidenceEntry(Constraints, SELF, i.constraints.generation),
      EvidenceEntry(Topology, SELF, i.views.topologyGeneration)]
    + Each(RefsOf(i.path.hops), e => ElementReads(i.views, e))
    + UnderlyingReads(i)
    + Each(RefsOf(i.path.hops), e => PortReads(i.views, e))
    + Each(RefsOf(i.path.hops), e => LinkReads(i.views, e))
    + Each(CapabilityPairs(i.Effective().capabilities), c => CapabilityReads(i.views, c))
    + Each(FirstAsked(Asked(i), {}), e => MembershipReads(i, e))
  }

  lemma LaterReadsAreOther(i: Inputs, kind: EvidenceKind)
    requires kind == Epoch || kind == Policy
    ensures Currentness.NoneOfKind(LaterReads(i), kind)
  {
    hide RefsOf, CapabilityPairs, Rules.CombineRules, Asked, FirstAsked, ElementKey, CapabilityKey, Each,
      MembershipReads;
    forall e ensures Currentness.NoneOfKind(MembershipReads(i, e), kind) { MembershipsAreOther(i, e, kind); }
    Currentness.EachOther(RefsOf(i.path.hops), e => ElementReads(i.views, e), kind);
    Currentness.EachOther(RefsOf(i.path.hops), e => PortReads(i.views, e), kind);
    Currentness.EachOther(RefsOf(i.path.hops), e => LinkReads(i.views, e), kind);
    Currentness.EachOther(CapabilityPairs(i.Effective().capabilities), c => CapabilityReads(i.views, c), kind);
    Currentness.EachOther(FirstAsked(Asked(i), {}), e => MembershipReads(i, e), kind);
  }

  lemma MembershipsAreOther(i: Inputs, e: ElementRef, kind: EvidenceKind)
    requires kind == Epoch || kind == Policy
    ensures Currentness.NoneOfKind(MembershipReads(i, e), kind)
  {
    hide MembershipReads;
    forall x | x in MembershipReads(i, e) ensures x.kind != kind { MembershipReadsAreDomains(i, e, x); }
  }

  lemma {:induction false} OtherSetsKeep(es: seq<EvidenceEntry>, updates: seq<EvidenceEntry>, limits: Limits, k: Key)
    requires Canonical(es) && Currentness.NoneOfKind(updates, k.0)
    ensures Find(SetAll(es, updates, limits).0, k) == Find(es, k)
    decreases |updates|
  {
    hide Fits, Put, Canonical, Find;
    if updates != [] {
      assert updates[0] in updates;
      PutFind(es, updates[0], k);
      PutCanonical(es, updates[0]);
      OtherSetsKeep(if Fits(es, updates[0], limits) then Put(es, updates[0]) else es, updates[1..], limits, k);
    }
  }

  function FirstTwo(i: Inputs): seq<EvidenceEntry> {
    [EvidenceEntry(Epoch, SELF, i.epoch), EvidenceEntry(Policy, SELF, i.policy.generation)]
  }

  lemma ReadsSplit(i: Inputs)
    ensures AllReads(i) == FirstTwo(i) + LaterReads(i)
  {
    hide RefsOf, CapabilityPairs, Rules.CombineRules, Asked, FirstAsked, UnderlyingReads, Each;
  }

  lemma FirstTwoFit(i: Inputs)
    requires i.limits.maxDependenciesPerPath >= 2
    ensures SetAll([], FirstTwo(i), i.limits).0 ==
              [EvidenceEntry(Policy, SELF, i.policy.generation), EvidenceEntry(Epoch, SELF, i.epoch)]
  {
    var e, p := EvidenceEntry(Epoch, SELF, i.epoch), EvidenceEntry(Policy, SELF, i.policy.generation);
    assert FirstTwo(i)[1..] == [p] && [p][1..] == [];
    assert Put([], e) == [e] && Put([e], p) == [p, e];
    assert Fits([], e, i.limits) && Fits([e], p, i.limits);
    assert SetAll([e], [p], i.limits) == SetAll([p, e], [], i.limits);
  }

  /** With room for two entries the evidence is valid and bound to the epoch and the policy that were read. */
  lemma ComputedScalars(i: Inputs)
    requires i.limits.maxDependenciesPerPath >= 2
    ensures Recovery.ValidEvidence(EvidenceOf(i)) && Scalar(EvidenceOf(i), Epoch) == i.epoch
    ensures Scalar(EvidenceOf(i), Policy) == i.policy.generation
  {
    hide LaterReads, AllReads, SetAll, FirstTwo, Canonical;
    var first := SetAll([], FirstTwo(i), i.limits).0;
    ReadsSplit(i);
    FirstTwoFit(i);
    SetAllAppend([], FirstTwo(i), LaterReads(i), i.limits);
    LaterReadsAreOther(i, Epoch);
    LaterReadsAreOther(i, Policy);
    Currentness.EmptyCanonical();
    SetAllCanonical([], FirstTwo(i), i.limits);
    OtherSetsKeep(first, LaterReads(i), i.limits, (Epoch, SELF));
    OtherSetsKeep(first, LaterReads(i), i.limits, (Policy, SELF));
    EvidenceCanonical(i);
    assert first[1..][0] == EvidenceEntry(Epoch, SELF, i.epoch);
  }

  // ---- the two routes ----------------------------------------------------------------------------------

  /** The path is new to the runtime, has no underlying path, and the runtime holds this constraint set. */
  predicate NewHere(rt: Runtime, p: PathDefinition, constraints: ConstraintSet) {
    p.id !in rt.records && p.underlying.None? && p.constraintSet in rt.sets && rt.sets[p.constraintSet] == constraints
  }

  lemma SameInputs(here: Runtime, there: Runtime, limits: Limits, w: World, p: PathDefinition,
      constraints: ConstraintSet)
    requires NewHere(here, p, constraints) && NewHere(there, p, constraints)
             && ResolvePeers(here, constraints) == ResolvePeers(there, constraints)
    ensures ResolveUnderlying(here, p, limits) == Some(NO_CHAIN)
            && ResolveUnderlying(there, p, limits) == Some(NO_CHAIN)
    ensures InputsFor(here, limits, w, p, NO_CHAIN) == InputsFor(there, limits, w, p, NO_CHAIN)
  {
    hide ResolvePeers;
  }

  /** Nothing in a computed decision is refused by the checks of a publication in the same world. */
  lemma ComputedDecisionPasses(i: Inputs, request: EvaluationRequest)
    requires Evaluable(i) && i.limits.maxDependenciesPerPath >= 2
    requires request.bindingEpoch.Some? ==> request.bindingEpoch.value == i.epoch
    ensures DecisionRefusal(i.path, DecisionOf(i), request, i.constraints, i.policy, i.epoch) == None
    ensures DecisionOf(i).state == StateForOutcome(DecisionOf(i).primary)
            && Recovery.ValidEvidence(DecisionOf(i).evidence)
  {
    hide DecisionOf, EvidenceOf, AuthorityDigestOf, ConstraintDigestOf, PathDigestOf, StateForOutcome, Scalar,
      Recovery.ValidEvidence;
    DecisionParts(i);
    ComputedScalars(i);
  }

  lemma SameRequest(there: Runtime, c: Config, w: World, p: PathDefinition, constraints: ConstraintSet,
      request: EvaluationRequest)
    requires Usable(there, w) && NewHere(there, p, constraints) && c.limits.maxDependenciesPerPath >= 2
    requires request.bindingEpoch.Some? ==> request.bindingEpoch.value == w.epoch
    requires ResolveUnderlying(there, p, c.limits) == Some(NO_CHAIN)
    requires PathShape.Shape(p, c.limits, request.requireIdentityBinding) == PathShape.Valid
             && constraints.generation == p.constraintGeneration
    ensures Evaluable(InputsFor(there, c.limits, w, p, NO_CHAIN))
    ensures PreparePublish(there, c, p, DecisionOf(InputsFor(there, c.limits, w, p, NO_CHAIN)), request, w.policy,
              w.epoch)
            == PrepareEvaluate(there, c, w, p, request)
  {
    hide DecisionOf, DecisionRefusal, ResolveUnderlying, ResolvePeers, InputDigestOf, StateForOutcome,
      Recovery.ValidEvidence, PathShape.Shape, ConstraintDigestOf, PathDigestOf;
    var i := InputsFor(there, c.limits, w, p, NO_CHAIN);
    ComputedDecisionPasses(i, request);
  }

  /**
   * For a path that is new on both sides and has no underlying path, under the same views, policy, epoch,
   * constraint set and peers: when the evaluator's own commit succeeds with an outcome that it does not keep to
   * itself, the publication of its decision takes the coordinator to the state, and gives the answer, that an
   * evaluation at the coordinator under the same request would have.
   */
  lemma PublishedEvaluationIsLocalEvaluation(
      evaluator: Runtime, coordinator: Runtime, c: Config, w: World, p: PathDefinition, constraints: ConstraintSet,
      local: EvaluationRequest, request: EvaluationRequest)
    requires Usable(evaluator, w) && Usable(coordinator, w) && c.limits.maxDependenciesPerPath >= 2
    requires NewHere(evaluator, p, constraints) && NewHere(coordinator, p, constraints)
    requires ResolvePeers(evaluator, constraints) == ResolvePeers(coordinator, constraints)
    requires request.bindingEpoch.Some? ==> request.bindingEpoch.value == w.epoch
    requires local.requireIdentityBinding == request.requireIdentityBinding
    requires Evaluate(evaluator, c, w, p, local).1.committed
             && !LocalOnly(Evaluate(evaluator, c, w, p, local).1.primary)
    ensures ResolveUnderlying(evaluator, p, c.limits).Some? && Published(evaluator, c, w, p, local).Some?
    ensures Publish(coordinator, c, p, Published(evaluator, c, w, p, local).value, request, w.policy, w.epoch)
            == Evaluate(coordinator, c, w, p, request)
  {
    hide DecisionOf, ResolveUnderlying, ResolvePeers, PathShape.Shape, EvaluateRefusal, Commit, PreparePublish,
      InputsFor, Usable;
    SameInputs(evaluator, coordinator, c.limits, w, p, constraints);
    ShapeOfCommitted(evaluator, c, w, p, local);
    SameRequest(coordinator, c, w, p, constraints, request);
  }

  lemma ShapeOfCommitted(rt: Runtime, c: Config, w: World, p: PathDefinition, request: EvaluationRequest)
    requires Usable(rt, w) && Evaluate(rt, c, w, p, request).1.committed
    ensures PathShape.Shape(p, c.limits, request.requireIdentityBinding) == PathShape.Valid
    ensures p.constraintSet in rt.sets && rt.sets[p.constraintSet].generation == p.constraintGeneration
  {
    hide DecisionOf, ResolveUnderlying, ResolvePeers, PathShape.Shape, EvaluateRefusal, Commit, ShapeOutcome;
  }

  /** When it commits, the record at the coordinator has generation one and the evaluator's decision in every field. */
  lemma PublishedRecord(
      evaluator: Runtime, coordinator: Runtime, c: Config, w: World, p: PathDefinition, constraints: ConstraintSet,
      local: EvaluationRequest, request: EvaluationRequest)
    requires Usable(evaluator, w) && Usable(coordinator, w) && c.limits.maxDependenciesPerPath >= 2
    requires NewHere(evaluator, p, constraints) && NewHere(coordinator, p, constraints)
    requires ResolvePeers(evaluator, constraints) == ResolvePeers(coordinator, constraints)
    requires request.bindingEpoch.Some? ==> request.bindingEpoch.value == w.epoch
    requires local.requireIdentityBinding == request.requireIdentityBinding
    requires Evaluate(evaluator, c, w, p, local).1.committed
             && !LocalOnly(Evaluate(evaluator, c, w, p, local).1.primary)
    requires Evaluate(coordinator, c, w, p, request).1.committed
    ensures var mine := Evaluate(evaluator, c, w, p, local).0.records;
            var theirs := Evaluate(coordinator, c, w, p, request).0.records;
            && p.id in mine && p.id in theirs && mine[p.id].generation == 1
            && theirs[p.id] == mine[p.id].(publisher := request.publisher, workerBoot := request.workerBoot)
  {
    hide DecisionOf, ResolveUnderlying, ResolvePeers, PathShape.Shape, EvaluateRefusal, Commit, DependenciesOf,
      InputDigestOf, ConstraintDigestOf, PathDigestOf, Usable;
    SameInputs(evaluator, coordinator, c.limits, w, p, constraints);
    EvaluateIsChecked(evaluator, c, w, p, local);
    EvaluateIsChecked(coordinator, c, w, p, request);
    CommitRecords(evaluator, c, PrepareEvaluate(evaluator, c, w, p, local).request);
    CommitRecords(coordinator, c, PrepareEvaluate(coordinator, c, w, p, request).request);
    SameDependencies(evaluator.sets, coordinator.sets, p, w.policy, c.limits);
  }

  lemma SameDependencies(a: map<string, ConstraintSet>, b: map<string, ConstraintSet>, p: PathDefinition,
      policy: PolicySet, limits: Limits)
    requires p.constraintSet in a && p.constraintSet in b && a[p.constraintSet] == b[p.constraintSet]
    ensures DependenciesOf(p, a, policy, limits) == DependenciesOf(p, b, policy, limits)
  {
    hide Rules.CombineRules, RefsOf;
  }

  // ---- evaluations that the evaluator did not commit ---------------------------------------------------

  /** What early_result reports. */
  function EarlyDecision(p: PathDefinition, o: Outcome, constraints: ConstraintSet): Decision {
    Decision(StateForOutcome(o), o, Some(Violation(o, Primary, p.constraintSet)), [], NoDigest, NoDigest,
      ConstraintDigestOf(constraints), [Violation(o, Hard, p.constraintSet)])
  }

  function DecisionIn(q: CommitRequest): Decision {
    Decision(q.state, q.primary, q.primaryViolation, q.evidence, q.pathDigest, q.authorityDigest, q.constraintDigest,
      q.secondary)
  }

  /**
   * What the evaluator sends after any local evaluation: a replay is sent as idempotent with the state, evidence and
   * digest on record, and a refusal of commit with its own outcome and one more violation.
   */
  function Sent(rt: Runtime, c: Config, w: World, p: PathDefinition, request: EvaluationRequest): Option<Decision>
    requires Usable(rt, w)
  {
    if LocalOnly(Evaluate(rt, c, w, p, request).1.primary) || p.constraintSet !in rt.sets then None
    else
      match PrepareEvaluate(rt, c, w, p, request)
      case Early(o) => Some(EarlyDecision(p, o, rt.sets[p.constraintSet]))
      case Ready(q) =>
        var d := DecisionIn(q);
        match Commit(rt, c, q).1
        case Committed(_) => Some(d)
        case Refused(o) =>
          Some(d.(state := StateForOutcome(o), primary := o, secondary := [Violation(o, Hard, p.id)] + d.secondary))
        case Replayed(_) =>
          if q.path.id !in rt.records then Some(d)
          else
            var r := rt.records[q.path.id];
            Some(d.(state := r.state, primary := Idempotent, evidence := r.evidence,
              authorityDigest := r.authorityDigest))
  }

  lemma SentUnlessLocal(rt: Runtime, c: Config, w: World, p: PathDefinition, request: EvaluationRequest)
    requires Usable(rt, w)
    ensures Sent(rt, c, w, p, request).Some? <==>
            !LocalOnly(Evaluate(rt, c, w, p, request).1.primary) && p.constraintSet in rt.sets
    ensures !LocalOnly(Idempotent)
  {
    hide PrepareEvaluate, Commit, Evaluate, Usable, EarlyDecision, DecisionIn;
  }

  lemma ReadyDecision(rt: Runtime, c: Config, w: World, p: PathDefinition, request: EvaluationRequest)
    requires Usable(rt, w) && PrepareEvaluate(rt, c, w, p, request).Ready?
    ensures p.constraintSet in rt.sets && ResolveUnderlying(rt, p, c.limits).Some?
    ensures var i := InputsFor(rt, c.limits, w, p, ResolveUnderlying(rt, p, c.limits).value);
            Evaluable(i) && DecisionIn(PrepareEvaluate(rt, c, w, p, request).request) == DecisionOf(i)
  {
    hide PathShape.Shape, PathShape.WellShaped, Evaluation.Decide, EvidenceOf, AuthorityDigestOf, ConstraintDigestOf,
      InputDigestOf, PathDigestOf, StateForOutcome, ResolveUnderlying, ResolvePeers, EvaluateRefusal;
    ReadyMeans(rt, c, w, p, request);
    DecisionParts(InputsFor(rt, c.limits, w, p, ResolveUnderlying(rt, p, c.limits).value));
  }

  /** After a local commit the decision that is sent is the computed one. */
  lemma SentAfterCommit(rt: Runtime, c: Config, w: World, p: PathDefinition, request: EvaluationRequest)
    requires Usable(rt, w) && Evaluate(rt, c, w, p, request).1.committed
    requires p.constraintSet in rt.sets && ResolveUnderlying(rt, p, c.limits).Some?
    ensures Sent(rt, c, w, p, request) == Published(rt, c, w, p, request)
  {
    hide PrepareEvaluate, DecisionOf, InputsFor, ResolveUnderlying, Commit, Usable, LocalOnly, EarlyDecision;
    ReadyDecision(rt, c, w, p, request);
  }

  lemma CodesSize(vs: seq<Violation>)
    ensures |Codes(vs)| == |vs|
  {
    if vs != [] { CodesSize(vs[1..]); }
  }

  /** A decision whose digest was taken before a violation was added passes nowhere. */
  lemma AddedViolationIsNoticed(rt: Runtime, c: Config, path: PathDefinition, q: CommitRequest, o: Outcome,
      v: Violation, request: EvaluationRequest, policy: PolicySet, epoch: u64)
    requires ProperRequest(q)
    ensures var d := DecisionIn(q).(state := StateForOutcome(o), primary := o, secondary := [v] + q.secondary);
            PreparePublish(rt, c, path, d, request, policy, epoch).Early?
  {
    hide PathShape.Shape, ConstraintDigestOf, PathDigestOf, InputDigestOf, Scalar, Codes, Canonical, StateForOutcome,
      Recovery.ValidEvidence;
    CodesSize([v] + q.secondary);
    CodesSize(q.secondary);
    assert |[v] + q.secondary| == |q.secondary| + 1;
  }

  /** Only a decision that the evaluator itself committed is ever accepted, in whatever coordinator and world. */
  lemma UncommittedIsNeverAccepted(evaluator: Runtime, c: Config, w: World, p: PathDefinition, local: EvaluationRequest,
      coordinator: Runtime, c': Config, request: EvaluationRequest, policy: PolicySet, epoch: u64)
    requires Usable(evaluator, w) && !Evaluate(evaluator, c, w, p, local).1.committed
    requires Sent(evaluator, c, w, p, local).Some?
    requires Evaluate(evaluator, c, w, p, local).1.idempotent ==>
               p.id in evaluator.records && evaluator.records[p.id].state != UnknownState
    ensures var (after, answer) :=
              Publish(coordinator, c', p, Sent(evaluator, c, w, p, local).value, request, policy, epoch);
            && after == coordinator && !Accepted(answer)
            && (Evaluate(evaluator, c, w, p, local).1.idempotent
                && PathShape.Shape(p, c'.limits, request.requireIdentityBinding) == PathShape.Valid ==>
                  answer.primary == MalformedPath)
  {
    hide PathShape.Shape, PrepareEvaluate, Commit, Usable, ConstraintDigestOf, PathDigestOf, InputDigestOf, Codes,
      Canonical, ProperRequest, ShapeOutcome, LocalOnly, AuthorityDigestOf, ConstraintRefusal, RevokedOrRetired,
      AttemptConflicts;
    match PrepareEvaluate(evaluator, c, w, p, local)
    case Early(o) =>
    case Ready(q) =>
      EvaluateIsChecked(evaluator, c, w, p, local);
      match Commit(evaluator, c, q).1
      case Committed(_) =>
      case Replayed(_) =>
      case Refused(o) =>
        AddedViolationIsNoticed(coordinator, c', p, q, o, Violation(o, Hard, p.id), request, policy, epoch);
  }
}
