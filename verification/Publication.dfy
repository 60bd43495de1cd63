/** publish_decision: the checks on a decision that was computed elsewhere, then the commit. */
module Publication {
  import opened Base
  import opened Model
  import opened Evidence
  import opened RuntimeState
  import opened RuntimeRuns
  import PathShape
  import Recovery

  datatype EvaluationRequest = EvaluationRequest(
    attempt: string, expected: Option<u64>, bindingEpoch: Option<u64>, publisher: string, workerBoot: string,
    requireIdentityBinding: bool)

  datatype Decision = Decision(
    state: AuthorityState, primary: Outcome, primaryViolation: Option<Violation>, evidence: seq<EvidenceEntry>,
    pathDigest: Digest, authorityDigest: Digest, constraintDigest: Digest, secondary: seq<Violation>)

  /** What the first half of an operation hands to the second: an answer, or a request to commit. */
  datatype Prepared = Early(outcome: Outcome) | Ready(request: CommitRequest)

  datatype Answer = Answer(primary: Outcome, committed: bool, idempotent: bool, generation: u64)

  function Finish(rt: Runtime, c: Config, p: Prepared): (Runtime, Answer) {
    match p
    case Early(outcome) => (rt, Answer(outcome, false, false, 0))
    case Ready(q) =>
      var (rt', result) := Commit(rt, c, q);
      (rt', match result
        case Committed(g) => Answer(q.primary, true, false, g)
        case Replayed(g) => Answer(Idempotent, false, true, g)
        case Refused(outcome) => Answer(outcome, false, false, 0))
  }

  predicate Accepted(a: Answer) { a.committed || a.idempotent }

  /** The outcome of a path that fails shape validation. */
  function ShapeOutcome(s: PathShape.ShapeStatus): Outcome {
    if s == PathShape.TooManyHops then ResourceLimit else MalformedPath
  }

  function RevokedOrRetired(rt: Runtime, path: string): Option<Outcome> {
    if path !in rt.records then None
    else if rt.records[path].retired then Some(PathRetired)
    else if rt.records[path].revocation.Some? then Some(RevokedOutcome)
    else None
  }

  /** The bound constraint set, or why it does not apply. */
  function ConstraintRefusal(rt: Runtime, path: PathDefinition): Option<Outcome> {
    if path.constraintSet !in rt.sets then Some(ConstraintSetUnknown)
    else if rt.sets[path.constraintSet].generation != path.constraintGeneration then Some(RevalidationRequiredOutcome)
    else None
  }

  predicate AttemptConflicts(rt: Runtime, attempt: string, digest: Digest) {
    attempt != "" && attempt in rt.attempts && rt.attempts[attempt].inputDigest != digest
  }

  /** The checks against the epoch, the policy and the recomputed digests, in source order. */
  function DecisionRefusal(path: PathDefinition, d: Decision, request: EvaluationRequest, constraints: ConstraintSet,
                           policy: PolicySet, epoch: u64): Option<Outcome> {
    if request.bindingEpoch.Some? && request.bindingEpoch.value != epoch then Some(StaleEpoch)
    else if Scalar(d.evidence, Epoch) != epoch then Some(StaleEpoch)
    else if Scalar(d.evidence, Policy) != policy.generation then Some(StaleAuthority)
    else if d.pathDigest != PathDigestOf(path) then Some(MalformedPath)
    else if d.constraintDigest != ConstraintDigestOf(constraints) then Some(MalformedPath)
    else if d.authorityDigest !=
            AuthorityDigestOf(path, PathDigestOf(path), ConstraintDigestOf(constraints), d.evidence, d.state, d.primary,
              d.secondary)
      then Some(MalformedPath)
    else None
  }

  function RequestFor(path: PathDefinition, d: Decision, request: EvaluationRequest, constraints: ConstraintSet,
                      policy: PolicySet, epoch: u64): CommitRequest {
    CommitRequest(path, d.state, d.primary, d.primaryViolation, d.evidence, PathDigestOf(path),
      ConstraintDigestOf(constraints), d.authorityDigest, d.secondary, InputDigestOf(path, constraints, policy, epoch),
      request.requireIdentityBinding, request.publisher, request.workerBoot, request.expected, request.attempt, policy)
  }

  /** Everything publish_decision does before it takes the lock to commit. */
  function PreparePublish(rt: Runtime, c: Config, path: PathDefinition, d: Decision, request: EvaluationRequest,
                          policy: PolicySet, epoch: u64): Prepared {
    var shape := PathShape.Shape(path, c.limits, request.requireIdentityBinding);
    if shape != PathShape.Valid then Early(ShapeOutcome(shape))
    else if d.state != StateForOutcome(d.primary) || !Recovery.ValidEvidence(d.evidence) then Early(MalformedPath)
    else if ConstraintRefusal(rt, path).Some? then Early(ConstraintRefusal(rt, path).value)
    else
      var constraints := rt.sets[path.constraintSet];
      var refusal := DecisionRefusal(path, d, request, constraints, policy, epoch);
      if refusal.Some? then Early(refusal.value)
      else if RevokedOrRetired(rt, path.id).Some? then Early(RevokedOrRetired(rt, path.id).value)
      else if AttemptConflicts(rt, request.attempt, InputDigestOf(path, constraints, policy, epoch)) then
        Early(EvaluationAttemptConflict)
      else Ready(RequestFor(path, d, request, constraints, policy, epoch))
  }

  function Publish(rt: Runtime, c: Config, path: PathDefinition, d: Decision, request: EvaluationRequest,
                   policy: PolicySet, epoch: u64): (Runtime, Answer) {
    Finish(rt, c, PreparePublish(rt, c, path, d, request, policy, epoch))
  }

  /** The facts about a request that hold in the state it was prepared in. */
  predicate Checked(rt: Runtime, q: CommitRequest) {
    && RevokedOrRetired(rt, q.path.id).None?
    && ConstraintRefusal(rt, q.path).None?
    && q.constraintDigest == ConstraintDigestOf(rt.sets[q.path.constraintSet])
  }

  /** A published decision that is ready to commit is proper, was checked, and carries its publisher's identity. */
  lemma PublishIsChecked(rt: Runtime, c: Config, path: PathDefinition, d: Decision, request: EvaluationRequest,
                         policy: PolicySet, epoch: u64)
    requires PreparePublish(rt, c, path, d, request, policy, epoch).Ready?
    ensures var q := PreparePublish(rt, c, path, d, request, policy, epoch).request;
            && ProperRequest(q) && Checked(rt, q)
            && q.path == path && q.evidence == d.evidence && q.state == d.state && q.primary == d.primary
            && q.publisher == request.publisher && q.workerBoot == request.workerBoot && q.expected == request.expected
            && Scalar(q.evidence, Epoch) == epoch && Scalar(q.evidence, Policy) == policy.generation
  {
    hide PathShape.Shape, AuthorityDigestOf, PathDigestOf, ConstraintDigestOf, InputDigestOf, Canonical, Scalar,
      StateForOutcome;
  }
}
