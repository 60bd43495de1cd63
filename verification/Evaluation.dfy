/** evaluate: the checks before the evidence stages, the decision they lead to, and the request to commit it. */
module Evaluation {
  import opened Base
  import opened Model
  import opened Evidence
  import opened RuntimeState
  import opened RuntimeRuns
  import opened Publication
  import opened Views
  import opened Findings
  import opened Resolution
  import opened Reads
  import Legality
  import PathShape
  import Requirements
  import Rules

  // ---- underlying chains and peers ------------------------------------------------------------

  /** The generation and outcome of the last record reached; none means that the chain is cyclic or too deep. */
  function Follow(records: map<string, Record>, visited: set<string>, cursor: string, depth: nat, max: nat,
      last: Chain): Option<Chain>
    decreases max + 1 - depth
  {
    if depth > max || cursor in visited then None
    else if cursor !in records then Some(last)
    else
      var r := records[cursor];
      var here := Chain(true, r.generation, r.outcome);
      if r.definition.underlying.None? then Some(here)
      else Follow(records, visited + {cursor}, r.definition.underlying.value.path, depth + 1, max, here)
  }

  const NO_CHAIN: Chain := Chain(false, 0, MalformedPath)

  function ResolveUnderlying(rt: Runtime, p: PathDefinition, limits: Limits): Option<Chain> {
    if p.underlying.None? then Some(NO_CHAIN)
    else Follow(rt.records, {p.id}, p.underlying.value.path, 1, limits.maxNestingDepth, NO_CHAIN)
  }

  method FollowChain(rt: Runtime, p: PathDefinition, limits: Limits) returns (chain: Option<Chain>)
    ensures chain == ResolveUnderlying(rt, p, limits)
  {
    if p.underlying.None? { return Some(NO_CHAIN); }
    var visited, cursor, last, depth := {p.id}, p.underlying.value.path, NO_CHAIN, 1;
    while depth <= limits.maxNestingDepth
      invariant 1 <= depth <= limits.maxNestingDepth + 1
      invariant ResolveUnderlying(rt, p, limits) ==
                  Follow(rt.records, visited, cursor, depth, limits.maxNestingDepth, last)
    {
      if cursor in visited { return None; }
      visited := visited + {cursor};
      if cursor !in rt.records { return Some(last); }
      var r := rt.records[cursor];
      last := Chain(true, r.generation, r.outcome);
      if r.definition.underlying.None? { return Some(last); }
      cursor := r.definition.underlying.value.path;
      depth := depth + 1;
    }
    return None;
  }

  /** For an underlying path that is itself a leaf the chain is that path's own record. */
  lemma LeafUnderlyingIsItsOwnRecord(rt: Runtime, p: PathDefinition, limits: Limits)
    requires p.underlying.Some? && limits.maxNestingDepth > 0 && p.underlying.value.path != p.id
    requires p.underlying.value.path in rt.records && rt.records[p.underlying.value.path].definition.underlying.None?
    ensures var r := rt.records[p.underlying.value.path];
            ResolveUnderlying(rt, p, limits) == Some(Chain(true, r.generation, r.outcome))
  {
  }

  predicate NamesPeer(c: DomainConstraint) { c.kind == DiverseFromPeerPath && c.peerPath != "" }

  function PeerOf(rt: Runtime, path: string): Peer {
    if path in rt.records then Peer(true, rt.records[path].outcome, RefsOf(rt.records[path].definition.hops))
    else Peer(false, MalformedPath, [])
  }

  function ResolvePeers(rt: Runtime, constraints: ConstraintSet): map<string, Peer> {
    map p | p in (set c | c in constraints.failureDomains && NamesPeer(c) :: c.peerPath) :: PeerOf(rt, p)
  }

  // ---- evaluate -------------------------------------------------------------------------------------

  datatype World = World(views: Views, policy: PolicySet, epoch: u64)

  predicate SetShaped(s: ConstraintSet) { forall c :: c in s.capabilities ==> Requirements.Shaped(c.expression) }

  /** Registration validates every requirement tree; the policy's trees are the policy store's to validate. */
  predicate Usable(rt: Runtime, w: World) {
    (forall s :: s in rt.sets ==> SetShaped(rt.sets[s]))
    && forall c :: c in w.policy.requiredCapabilities ==> Requirements.Shaped(c.expression)
  }

  function InputsFor(rt: Runtime, limits: Limits, w: World, p: PathDefinition, chain: Chain): Inputs
    requires p.constraintSet in rt.sets
  {
    Inputs(p, w.views, limits, rt.sets[p.constraintSet], w.policy, w.epoch, chain,
      ResolvePeers(rt, rt.sets[p.constraintSet]),
      p.id in rt.records && AuthorizingOutcome(rt.records[p.id].outcome))
  }

  /** compute_evaluation: the outcome, including an overflow of the evidence vector. */
  function Decide(i: Inputs): Verdict
    requires Evaluable(i)
  {
    WithOverflow(VerdictOf(i, i.limits.maxExplanationEntries), Overflows(i), i.path.id, i.limits.maxExplanationEntries)
  }

  /** The violations beside the primary one: the hard violation that gave the outcome is dropped once. */
  function DropPrimary(vs: seq<Violation>, code: Outcome): seq<Violation> {
    if vs == [] then []
    else if vs[0].severity == Hard && vs[0].code == code then vs[1..]
    else [vs[0]] + DropPrimary(vs[1..], code)
  }

  function Secondary(d: Verdict): seq<Violation> { if d.hardFailure then DropPrimary(d.violations,
      d.primary) else d.violations }

  predicate IsPrimary(v: Violation, code: Outcome) { v.severity == Hard && v.code == code }

  function FirstPrimary(vs: seq<Violation>, code: Outcome): Option<Violation> {
    if vs == [] then None else if IsPrimary(vs[0], code) then Some(vs[0]) else FirstPrimary(vs[1..], code)
  }

  /** Dropping the primary takes away one hard violation of its code, if the explanation holds one, and nothing else. */
  lemma {:induction false} DropPrimaryMeaning(vs: seq<Violation>, code: Outcome)
    ensures FirstPrimary(vs, code).None? ==> DropPrimary(vs, code) == vs && forall v :: v in vs ==> !IsPrimary(v, code)
    ensures FirstPrimary(vs, code).Some? ==>
              && IsPrimary(FirstPrimary(vs, code).value, code)
              && multiset(vs) == multiset(DropPrimary(vs, code)) + multiset{FirstPrimary(vs, code).value}
  {
    if vs != [] {
      assert vs == [vs[0]] + vs[1..];
      if !IsPrimary(vs[0], code) {
        DropPrimaryMeaning(vs[1..], code);
        assert multiset([vs[0]] + DropPrimary(vs[1..], code)) == multiset{vs[0]} + multiset(DropPrimary(vs[1..], code));
      }
    }
  }

  /** The decision as it is committed here, or published elsewhere. */
  function DecisionOf(i: Inputs): Decision
    requires Evaluable(i)
  {
    var d := Decide(i);
    var state := StateForOutcome(d.primary);
    Decision(state, d.primary, d.primaryViolation, EvidenceOf(i), PathDigestOf(i.path),
      AuthorityDigestOf(i.path, PathDigestOf(i.path), ConstraintDigestOf(i.constraints), EvidenceOf(i), state,
        d.primary, Secondary(d)),
      ConstraintDigestOf(i.constraints), Secondary(d))
  }

  /** The refusals between the constraint check and the evidence stages, in source order. */
  function EvaluateRefusal(rt: Runtime, w: World, p: PathDefinition, request: EvaluationRequest): Option<Outcome>
    requires p.constraintSet in rt.sets
  {
    if AttemptConflicts(rt, request.attempt, InputDigestOf(p, rt.sets[p.constraintSet], w.policy, w.epoch)) then
      Some(EvaluationAttemptConflict)
    else if p.id in rt.records && rt.records[p.id].retired then Some(PathRetired)
    else if request.bindingEpoch.Some? && request.bindingEpoch.value != w.epoch then Some(StaleEpoch)
    else if p.id in rt.records && rt.records[p.id].revocation.Some? then Some(RevokedOutcome)
    else None
  }

  /** Everything evaluate does before it takes the lock to commit. */
  function PrepareEvaluate(rt: Runtime, c: Config, w: World, p: PathDefinition, request: EvaluationRequest): Prepared
    requires Usable(rt, w)
  {
    var shape := PathShape.Shape(p, c.limits, request.requireIdentityBinding);
    if shape != PathShape.Valid then Early(ShapeOutcome(shape))
    else if ConstraintRefusal(rt, p).Some? then Early(ConstraintRefusal(rt, p).value)
    else if EvaluateRefusal(rt, w, p, request).Some? then Early(EvaluateRefusal(rt, w, p, request).value)
    else
      match ResolveUnderlying(rt, p, c.limits)
      case None => Early(MalformedPath)
      case Some(chain) =>
        var i := InputsFor(rt, c.limits, w, p, chain);
        Ready(RequestFor(p, DecisionOf(i), request, i.constraints, w.policy, w.epoch))
  }

  function Evaluate(rt: Runtime, c: Config, w: World, p: PathDefinition, request: EvaluationRequest): (Runtime, Answer)
    requires Usable(rt, w)
  {
    Finish(rt, c, PrepareEvaluate(rt, c, w, p, request))
  }

  /** revalidate: evaluates the definition on record, under its own identity rule. */
  function Revalidate(rt: Runtime, c: Config, w: World, path: string, request: EvaluationRequest): (Runtime, Answer)
    requires Usable(rt, w)
  {
    if path !in rt.records then (rt, Answer(PathUnknown, false, false, 0))
    else
      var r := rt.records[path];
      Evaluate(rt, c, w, r.definition, request.(bindingEpoch := None, requireIdentityBinding := r.identityBound))
  }

  lemma DecisionIsProper(i: Inputs, request: EvaluationRequest)
    requires Evaluable(i)
    ensures ProperRequest(RequestFor(i.path, DecisionOf(i), request, i.constraints, i.policy, i.epoch))
  {
    hide Decide, EvidenceOf, AuthorityDigestOf, ConstraintDigestOf, InputDigestOf, Canonical, Secondary,
      StateForOutcome, PathDigestOf;
    EvidenceCanonical(i);
  }

  /** A decision that evaluate is ready to commit is proper, was checked, and binds what it read. */
  lemma EvaluateIsChecked(rt: Runtime, c: Config, w: World, p: PathDefinition, request: EvaluationRequest)
    requires Usable(rt, w) && PrepareEvaluate(rt, c, w, p, request).Ready?
    ensures var q := PrepareEvaluate(rt, c, w, p, request).request;
            && ProperRequest(q) && Checked(rt, q)
            && q.path == p && q.expected == request.expected && q.publisher == request.publisher
            && q.workerBoot == request.workerBoot
            && ResolveUnderlying(rt, p, c.limits).Some? && p.constraintSet in rt.sets
            && q.evidence == EvidenceOf(InputsFor(rt, c.limits, w, p, ResolveUnderlying(rt, p, c.limits).value))
  {
    hide PathShape.Shape, DecisionOf, EvidenceOf, AuthorityDigestOf, PathDigestOf, ConstraintDigestOf, InputDigestOf,
      Canonical, StateForOutcome, ProperRequest, ResolveUnderlying, ResolvePeers, ShapeOutcome;
    var i := InputsFor(rt, c.limits, w, p, ResolveUnderlying(rt, p, c.limits).value);
    DecisionIsProper(i, request);
    DecisionParts(i);
  }

  lemma DecisionParts(i: Inputs)
    requires Evaluable(i)
    ensures DecisionOf(i).evidence == EvidenceOf(i) && DecisionOf(i).pathDigest == PathDigestOf(i.path)
    ensures DecisionOf(i).constraintDigest == ConstraintDigestOf(i.constraints)
    ensures DecisionOf(i).state == StateForOutcome(DecisionOf(i).primary) && DecisionOf(i).primary == Decide(i).primary
    ensures DecisionOf(i).authorityDigest ==
            AuthorityDigestOf(i.path, PathDigestOf(i.path), ConstraintDigestOf(i.constraints), EvidenceOf(i),
              DecisionOf(i).state,
              DecisionOf(i).primary, DecisionOf(i).secondary)
  {
    hide Decide, EvidenceOf, AuthorityDigestOf, ConstraintDigestOf, PathDigestOf;
  }

  // ---- what a decision means ------------------------------------------------------------------------

  /** A path that binds more evidence than the limits hold is never authorized. */
  lemma OverflowNeverAuthorizes(i: Inputs)
    requires Evaluable(i) && Overflows(i)
    requires exists l :: Rules.PermittedLayer(i.constraints, i.policy, l)
    ensures Decide(i).hardFailure && !AuthorizingOutcome(Decide(i).primary)
  {
    hide All, Front, Overflows, Rules.CombineRules, Rules.PermittedLayer, First, Legality.Legal;
    FindingsDecide(i);
    FirstMeaning(All(i), Hard);
    var shown := Take(All(i), i.limits.maxExplanationEntries);
    FirstMeaning(shown, Condition);
    assert forall v :: v in shown ==> v in All(i);
    assert Legality.Every(All(i), Legality.Plain);
  }

  /**
   * For a well-shaped path whose hop limit leaves room in the explanation, as the default limits do: evaluation
   * authorizes exactly the legal paths, conditionally exactly when something about them rests on a condition that
   * the policy accepts, and in every other case reports the first failing check in stage order, or the first
   * condition.
   */
  lemma DecisionIsLegality(i: Inputs, bindIdentity: bool)
    requires Evaluable(i) && !Overflows(i) && PathShape.WellShaped(i.path, i.limits, bindIdentity)
    requires i.limits.maxHops - 2 < i.limits.maxExplanationEntries
    requires exists l :: Rules.PermittedLayer(i.constraints, i.policy, l)
    ensures Decide(i).primary == AuthorizedOutcome <==> Legality.Legal(i) && Legality.Unconditional(i)
    ensures Decide(i).primary == ConditionallyAuthorizedOutcome
            <==> Legality.Legal(i) && !Legality.Unconditional(i) && i.policy.allowConditionalAuthorization
    ensures AuthorizingState(StateForOutcome(Decide(i).primary)) <==>
            Legality.Legal(i) && (Legality.Unconditional(i) || i.policy.allowConditionalAuthorization)
    ensures !Legality.Legal(i) ==> First(All(i), Hard).Some? && Decide(i).primary == First(All(i), Hard).value.code
    ensures Legality.Legal(i) && !Legality.Unconditional(i) && !i.policy.allowConditionalAuthorization ==>
              First(All(i), Condition).Some? && Decide(i).primary == First(All(i), Condition).value.code
  {
    hide All, Legality.Legal, Legality.Unconditional, Rules.PermittedLayer, First, LinkHops, Overflows,
      PathShape.WellShaped, VerdictOf;
    ShapeBoundsLinkHops(i.path, i.limits, bindIdentity);
    EvaluationDecidesLegality(i, i.limits.maxExplanationEntries);
  }

  /** Over an underlying path that is a leaf, legality asks for that path's own authority at the bound generation. */
  lemma LeafUnderlyingLegality(rt: Runtime, limits: Limits, w: World, p: PathDefinition)
    requires p.constraintSet in rt.sets && limits.maxNestingDepth > 0
    requires p.underlying.Some? && p.underlying.value.path != p.id && p.underlying.value.path in rt.records
    requires rt.records[p.underlying.value.path].definition.underlying.None?
    ensures ResolveUnderlying(rt, p, limits).Some?
    ensures var r := rt.records[p.underlying.value.path];
            Legality.UnderlyingLegal(InputsFor(rt, limits, w, p, ResolveUnderlying(rt, p, limits).value))
            <==> r.generation == p.underlying.value.authorityGeneration && AuthorizingOutcome(r.outcome)
  {
    hide ResolvePeers, ResolveUnderlying;
    LeafUnderlyingIsItsOwnRecord(rt, p, limits);
  }

  /** A committed evaluation leaves its path authorized exactly when it is legal in the state and views it read. */
  lemma CommittedEvaluationIsLegal(rt: Runtime, c: Config, w: World, p: PathDefinition, request: EvaluationRequest)
    requires Usable(rt, w) && Evaluate(rt, c, w, p, request).1.committed
    requires p.constraintSet in rt.sets && ResolveUnderlying(rt, p, c.limits).Some?
    requires var i := InputsFor(rt, c.limits, w, p, ResolveUnderlying(rt, p, c.limits).value);
             !Overflows(i) && exists l :: Rules.PermittedLayer(i.constraints, i.policy, l)
    requires c.limits.maxHops - 2 < c.limits.maxExplanationEntries
    ensures p.id in Evaluate(rt, c, w, p, request).0.records
    ensures var i := InputsFor(rt, c.limits, w, p, ResolveUnderlying(rt, p, c.limits).value);
            AuthorizingState(Evaluate(rt, c, w, p, request).0.records[p.id].state)
            <==> Legality.Legal(i) && (Legality.Unconditional(i) || w.policy.allowConditionalAuthorization)
  {
    hide PrepareEvaluate, Commit, ProperRequest, Checked, EvidenceOf, ResolveUnderlying, Usable, Overflows,
      DependenciesOf, Decide, Legality.Legal, Legality.Unconditional, Rules.PermittedLayer, PathShape.WellShaped,
      ResolvePeers, All;
    var i := InputsFor(rt, c.limits, w, p, ResolveUnderlying(rt, p, c.limits).value);
    EvaluateIsChecked(rt, c, w, p, request);
    ReadyMeans(rt, c, w, p, request);
    CommitRecords(rt, c, PrepareEvaluate(rt, c, w, p, request).request);
    DecisionIsLegality(i, request.requireIdentityBinding);
  }

  lemma ReadyMeans(rt: Runtime, c: Config, w: World, p: PathDefinition, request: EvaluationRequest)
    requires Usable(rt, w) && PrepareEvaluate(rt, c, w, p, request).Ready?
    ensures p.constraintSet in rt.sets && ResolveUnderlying(rt, p, c.limits).Some?
    ensures PathShape.WellShaped(p, c.limits, request.requireIdentityBinding)
    ensures var i := InputsFor(rt, c.limits, w, p, ResolveUnderlying(rt, p, c.limits).value);
            Evaluable(i) && PrepareEvaluate(rt, c, w, p, request).request.state == StateForOutcome(Decide(i).primary)
  {
    hide PathShape.Shape, PathShape.WellShaped, Decide, EvidenceOf, AuthorityDigestOf, ConstraintDigestOf,
      InputDigestOf, PathDigestOf, StateForOutcome, ResolveUnderlying, ResolvePeers, EvaluateRefusal;
    PathShape.ShapeMeaning(p, c.limits, request.requireIdentityBinding);
  }
}
