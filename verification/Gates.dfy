/**
 * The checks that an operation makes before it changes anything, in order, each with the outcome that its failure
 * gives: the first one that fails decides the outcome, and an operation goes on exactly when none fails.
 */
module Gates {
  import opened Base
  import opened Model
  import opened Evidence
  import opened RuntimeState
  import opened Publication
  import Evaluation
  import PathCodec
  import PathShape
  import Recovery
  import RuntimeRuns

  datatype Gate<T> = Gate(passes: bool, refusal: T)

  ghost predicate Passed<T>(gates: seq<Gate<T>>) { forall n :: 0 <= n < |gates| ==> gates[n].passes }

  ghost predicate FirstFails<T>(gates: seq<Gate<T>>, n: nat, refusal: T) {
    n < |gates| && !gates[n].passes && gates[n].refusal == refusal && forall m :: 0 <= m < n ==> gates[m].passes
  }

  /** The refusal of the first gate that fails. */
  ghost predicate Refuses<T(!new)>(gates: seq<Gate<T>>, refusal: T) { exists n: nat :: FirstFails(gates, n, refusal) }

  function First<T>(gates: seq<Gate<T>>): Option<T> {
    if gates == [] then None else if !gates[0].passes then Some(gates[0].refusal) else First(gates[1..])
  }

  lemma {:induction false} FirstMeaning<T(!new)>(gates: seq<Gate<T>>, refusal: T)
    ensures First(gates).None? <==> Passed(gates)
    ensures First(gates) == Some(refusal) <==> Refuses(gates, refusal)
  {
    if gates != [] {
      var rest := gates[1..];
      assert forall n :: 0 < n < |gates| ==> gates[n] == rest[n - 1];
      assert forall n :: 0 <= n < |rest| ==> rest[n] == gates[n + 1];
      if gates[0].passes {
        FirstMeaning(rest, refusal);
        if n: nat :| FirstFails(rest, n, refusal) { assert FirstFails(gates, n + 1, refusal); }
        if n: nat :| FirstFails(gates, n, refusal) { assert n > 0 && FirstFails(rest, n - 1, refusal); }
      } else {
        if gates[0].refusal == refusal { assert FirstFails(gates, 0, refusal); }
      }
    }
  }

  lemma {:induction false} FirstPlus<T>(a: seq<Gate<T>>, b: seq<Gate<T>>)
    ensures First(a + b) == if First(a).Some? then First(a) else First(b)
  {
    if a == [] {
      assert a + b == b;
    } else {
      assert (a + b)[1..] == a[1..] + b;
      FirstPlus(a[1..], b);
    }
  }

  lemma FirstOfTwo<T>(a: Gate<T>, b: Gate<T>)
    ensures First([a]) == if a.passes then None else Some(a.refusal)
    ensures First([a, b]) == if a.passes then First([b]) else Some(a.refusal)
    ensures First([b]) == if b.passes then None else Some(b.refusal)
  {
    assert [a][1..] == [] && [b][1..] == [] && [a, b][1..] == [b] && First<T>([]) == None;
  }

  lemma FirstOfThree<T>(a: Gate<T>, b: Gate<T>, c: Gate<T>)
    ensures First([a, b, c]) == if !a.passes then Some(a.refusal) else if !b.passes then Some(b.refusal)
                                else if !c.passes then Some(c.refusal) else None
  {
    FirstOfTwo(b, c);
    assert [a, b, c][1..] == [b, c];
  }

  lemma FirstOfFour<T>(a: Gate<T>, b: Gate<T>, c: Gate<T>, d: Gate<T>)
    ensures First([a, b, c, d]) == if !a.passes then Some(a.refusal) else if !b.passes then Some(b.refusal)
                                   else if !c.passes then Some(c.refusal) else if !d.passes then Some(d.refusal)
                                   else None
  {
    FirstOfThree(b, c, d);
    assert [a, b, c, d][1..] == [b, c, d];
  }

  // ---- the shape of a path ------------------------------------------------------------------------

  function HopGates(hops: seq<PathElement>, limits: Limits): seq<Gate<PathShape.ShapeStatus>> {
    if hops == [] then []
    else
      [Gate(PathCodec.IdentityText(hops[0].id, limits.maxIdLength), PathShape.MalformedElement),
       Gate(hops[0].generation != 0, PathShape.UnknownGeneration)] + HopGates(hops[1..], limits)
  }

  function HeadGates(p: PathDefinition, limits: Limits): seq<Gate<PathShape.ShapeStatus>> {
    [Gate(PathShape.ValidLimits(limits) && p.id != "" && p.scope != "" && p.constraintSet != "",
       PathShape.InvalidIdentity),
     Gate(p.generation != 0 && p.constraintGeneration != 0, PathShape.UnknownGeneration),
     Gate(|p.hops| >= 2, PathShape.TooFewHops),
     Gate(|p.hops| <= limits.maxHops, PathShape.TooManyHops)]
  }

  predicate Over(p: PathDefinition, holds: UnderlyingRef -> bool) { p.underlying.Some? ==> holds(p.underlying.value) }

  function UnderlyingGates(p: PathDefinition, limits: Limits): seq<Gate<PathShape.ShapeStatus>> {
    [Gate(Over(p, (u: UnderlyingRef) => u.path != "" && u.authorityGeneration != 0), PathShape.MalformedElement),
     Gate(Over(p, (u: UnderlyingRef) => 0 < u.nestingDepth <= limits.maxNestingDepth), PathShape.NestingDepthExceeded),
     Gate(Over(p, (u: UnderlyingRef) => u.path != p.id && p.pathType == LogicalPath), PathShape.MalformedElement)]
  }

  function ShapeGates(p: PathDefinition, limits: Limits, bindIdentity: bool): seq<Gate<PathShape.ShapeStatus>> {
    HeadGates(p, limits) + HopGates(p.hops, limits)
    + [Gate(PathShape.EndsPaired(p.hops), PathShape.EndpointPairing),
       Gate(PathShape.LoopFree(p.pathType, p.hops), PathShape.AccidentalLoop)]
    + UnderlyingGates(p, limits)
    + [Gate(bindIdentity ==> PathCodec.IdentityBinds(p), PathShape.IdentityMismatch)]
  }

  function OrValid(first: Option<PathShape.ShapeStatus>): PathShape.ShapeStatus {
    if first.Some? then first.value else PathShape.Valid
  }

  lemma {:induction false} HopsFirst(hops: seq<PathElement>, limits: Limits)
    ensures PathShape.HopsStatus(hops, limits) == OrValid(First(HopGates(hops, limits)))
  {
    hide PathCodec.IdentityText;
    if hops != [] {
      HopsFirst(hops[1..], limits);
      var a: Gate<PathShape.ShapeStatus> :=
        Gate(PathCodec.IdentityText(hops[0].id, limits.maxIdLength), PathShape.MalformedElement);
      var b: Gate<PathShape.ShapeStatus> := Gate(hops[0].generation != 0, PathShape.UnknownGeneration);
      FirstOfTwo(a, b);
      FirstPlus([a, b], HopGates(hops[1..], limits));
    }
  }

  lemma ShapeIsFirst(p: PathDefinition, limits: Limits, bindIdentity: bool)
    ensures PathShape.Shape(p, limits, bindIdentity) == OrValid(First(ShapeGates(p, limits, bindIdentity)))
    ensures First(ShapeGates(p, limits, bindIdentity)) != Some(PathShape.Valid)
  {
    hide PathShape.ValidLimits, PathShape.HopsStatus, PathShape.EndsPaired, PathShape.LoopFree,
      PathCodec.IdentityBinds, First;
    var head, hops, under := HeadGates(p, limits), HopGates(p.hops, limits), UnderlyingGates(p, limits);
    var a: Gate<PathShape.ShapeStatus> := Gate(PathShape.EndsPaired(p.hops), PathShape.EndpointPairing);
    var b: Gate<PathShape.ShapeStatus> := Gate(PathShape.LoopFree(p.pathType, p.hops), PathShape.AccidentalLoop);
    var c: Gate<PathShape.ShapeStatus> := Gate(bindIdentity ==> PathCodec.IdentityBinds(p), PathShape.IdentityMismatch);
    FirstOfFour(head[0], head[1], head[2], head[3]);
    HopsFirst(p.hops, limits);
    HopsNeverValid(p.hops, limits);
    FirstOfTwo(a, b);
    FirstOfThree(under[0], under[1], under[2]);
    FirstOfTwo(c, c);
    FirstPlus(head, hops);
    FirstPlus(head + hops, [a, b]);
    FirstPlus(head + hops + [a, b], under);
    FirstPlus(head + hops + [a, b] + under, [c]);
  }

  lemma {:induction false} HopsNeverValid(hops: seq<PathElement>, limits: Limits)
    ensures First(HopGates(hops, limits)) != Some(PathShape.Valid)
  {
    hide PathCodec.IdentityText;
    if hops != [] {
      HopsNeverValid(hops[1..], limits);
      var a: Gate<PathShape.ShapeStatus> :=
        Gate(PathCodec.IdentityText(hops[0].id, limits.maxIdLength), PathShape.MalformedElement);
      var b: Gate<PathShape.ShapeStatus> := Gate(hops[0].generation != 0, PathShape.UnknownGeneration);
      FirstOfTwo(a, b);
      FirstPlus([a, b], HopGates(hops[1..], limits));
    }
  }

  /** The reported shape status is the one of the first rule that the path breaks. */
  lemma ShapeByGates(p: PathDefinition, limits: Limits, bindIdentity: bool, status: PathShape.ShapeStatus)
    ensures PathShape.Shape(p, limits, bindIdentity) == PathShape.Valid <==> Passed(ShapeGates(p, limits, bindIdentity))
    ensures status != PathShape.Valid ==>
              (PathShape.Shape(p, limits, bindIdentity) == status
               <==> Refuses(ShapeGates(p, limits, bindIdentity), status))
  {
    hide PathShape.Shape, ShapeGates;
    ShapeIsFirst(p, limits, bindIdentity);
    FirstMeaning(ShapeGates(p, limits, bindIdentity), status);
  }

  /** A path of too many hops is over a limit; every other broken rule makes it malformed. */
  function Reported(gates: seq<Gate<PathShape.ShapeStatus>>): seq<Gate<Outcome>> {
    seq(|gates|, n requires 0 <= n < |gates| =>
      Gate(gates[n].passes, if gates[n].refusal == PathShape.TooManyHops then ResourceLimit else MalformedPath))
  }

  lemma {:induction false} ReportedFirst(gates: seq<Gate<PathShape.ShapeStatus>>)
    ensures First(Reported(gates)) == match First(gates) case None => None case Some(s) => Some(ShapeOutcome(s))
  {
    if gates != [] {
      ReportedFirst(gates[1..]);
      assert Reported(gates)[1..] == Reported(gates[1..]);
    }
  }

  // ---- publish_decision -----------------------------------------------------------------------------

  /** The set that the path binds is registered at the generation that it binds. */
  function SetGates(rt: Runtime, path: PathDefinition): seq<Gate<Outcome>> {
    [Gate(path.constraintSet in rt.sets, ConstraintSetUnknown),
     Gate(path.constraintSet in rt.sets && rt.sets[path.constraintSet].generation == path.constraintGeneration,
       RevalidationRequiredOutcome)]
  }

  predicate AssertsCurrentEpoch(request: EvaluationRequest, epoch: u64) {
    request.bindingEpoch.None? || request.bindingEpoch == Some(epoch)
  }

  /** The vector binds this generation for a scalar subject; one that it does not bind counts as generation zero. */
  predicate BindsScalar(evidence: seq<EvidenceEntry>, kind: EvidenceKind, generation: u64) {
    Find(evidence, (kind, SELF)) == Some(generation) || (generation == 0 && Find(evidence, (kind, SELF)) == None)
  }

  predicate NotRetired(rt: Runtime, path: string) { path in rt.records ==> !rt.records[path].retired }

  predicate NotRevoked(rt: Runtime, path: string) { path in rt.records ==> rt.records[path].revocation.None? }

  /** An attempt id that is on file was used for the same input. */
  predicate AttemptAgrees(rt: Runtime, request: EvaluationRequest, input: Digest) {
    request.attempt != "" && request.attempt in rt.attempts ==> rt.attempts[request.attempt].inputDigest == input
  }

  function DigestGates(path: PathDefinition, d: Decision, constraints: ConstraintSet): seq<Gate<Outcome>> {
    [Gate(d.pathDigest == PathDigestOf(path), MalformedPath),
     Gate(d.constraintDigest == ConstraintDigestOf(constraints), MalformedPath),
     Gate(d.authorityDigest ==
          AuthorityDigestOf(path, PathDigestOf(path), ConstraintDigestOf(constraints), d.evidence, d.state, d.primary,
            d.secondary), MalformedPath)]
  }

  function CurrencyGates(d: Decision, request: EvaluationRequest, policy: PolicySet, epoch: u64): seq<Gate<Outcome>> {
    [Gate(AssertsCurrentEpoch(request, epoch), StaleEpoch),
     Gate(BindsScalar(d.evidence, Epoch, epoch), StaleEpoch),
     Gate(BindsScalar(d.evidence, Policy, policy.generation), StaleAuthority)]
  }

  function StandingGates(rt: Runtime, path: PathDefinition, request: EvaluationRequest, constraints: ConstraintSet,
      policy: PolicySet, epoch: u64): seq<Gate<Outcome>> {
    [Gate(NotRetired(rt, path.id), PathRetired),
     Gate(NotRevoked(rt, path.id), RevokedOutcome),
     Gate(AttemptAgrees(rt, request, InputDigestOf(path, constraints, policy, epoch)), EvaluationAttemptConflict)]
  }

  function PublishGates(rt: Runtime, c: Config, path: PathDefinition, d: Decision, request: EvaluationRequest,
      policy: PolicySet, epoch: u64): seq<Gate<Outcome>> {
    Reported(ShapeGates(path, c.limits, request.requireIdentityBinding))
    + [Gate(d.state == StateForOutcome(d.primary), MalformedPath),
       Gate(Recovery.ValidEvidence(d.evidence), MalformedPath)]
    + SetGates(rt, path)
    + if path.constraintSet !in rt.sets then []
      else
        CurrencyGates(d, request, policy, epoch) + DigestGates(path, d, rt.sets[path.constraintSet])
        + StandingGates(rt, path, request, rt.sets[path.constraintSet], policy, epoch)
  }

  lemma ScalarBinds(evidence: seq<EvidenceEntry>, kind: EvidenceKind, generation: u64)
    ensures Scalar(evidence, kind) == generation <==> BindsScalar(evidence, kind, generation)
  {
    hide Find;
  }

  lemma SetRefusal(rt: Runtime, path: PathDefinition)
    ensures ConstraintRefusal(rt, path) == First(SetGates(rt, path))
  {
    hide First;
    FirstOfTwo(SetGates(rt, path)[0], SetGates(rt, path)[1]);
  }

  lemma DecisionFirst(path: PathDefinition, d: Decision, request: EvaluationRequest, constraints: ConstraintSet,
      policy: PolicySet, epoch: u64)
    ensures DecisionRefusal(path, d, request, constraints, policy, epoch)
            == First(CurrencyGates(d, request, policy, epoch) + DigestGates(path, d, constraints))
  {
    hide First, Scalar, BindsScalar, PathDigestOf, ConstraintDigestOf, AuthorityDigestOf;
    var a, b := CurrencyGates(d, request, policy, epoch), DigestGates(path, d, constraints);
    ScalarBinds(d.evidence, Epoch, epoch);
    ScalarBinds(d.evidence, Policy, policy.generation);
    FirstOfThree(a[0], a[1], a[2]);
    FirstOfThree(b[0], b[1], b[2]);
    FirstPlus(a, b);
  }

  lemma StandingFirst(rt: Runtime, path: PathDefinition, request: EvaluationRequest, constraints: ConstraintSet,
      policy: PolicySet, epoch: u64)
    ensures First(StandingGates(rt, path, request, constraints, policy, epoch)) ==
            if RevokedOrRetired(rt, path.id).Some? then RevokedOrRetired(rt, path.id)
            else if AttemptConflicts(rt, request.attempt, InputDigestOf(path, constraints, policy, epoch)) then
              Some(EvaluationAttemptConflict)
            else None
  {
    hide First, InputDigestOf;
    var g := StandingGates(rt, path, request, constraints, policy, epoch);
    FirstOfThree(g[0], g[1], g[2]);
  }

  lemma PublishFirst(rt: Runtime, c: Config, path: PathDefinition, d: Decision, request: EvaluationRequest,
      policy: PolicySet, epoch: u64)
    ensures var first := First(PublishGates(rt, c, path, d, request, policy, epoch));
            var prepared := PreparePublish(rt, c, path, d, request, policy, epoch);
            && (prepared.Ready? <==> first.None?)
            && (prepared.Early? ==> first == Some(prepared.outcome))
  {
    hide First, ShapeGates, Reported, PathShape.Shape, StateForOutcome, Recovery.ValidEvidence, SetGates,
      CurrencyGates, DigestGates, StandingGates, ConstraintRefusal, DecisionRefusal, RevokedOrRetired,
      AttemptConflicts, InputDigestOf, ShapeOutcome, RequestFor;
    var shape := ShapeGates(path, c.limits, request.requireIdentityBinding);
    var a: Gate<Outcome> := Gate(d.state == StateForOutcome(d.primary), MalformedPath);
    var b: Gate<Outcome> := Gate(Recovery.ValidEvidence(d.evidence), MalformedPath);
    ShapeIsFirst(path, c.limits, request.requireIdentityBinding);
    ReportedFirst(shape);
    FirstOfTwo(a, b);
    SetRefusal(rt, path);
    FirstPlus(Reported(shape), [a, b]);
    FirstPlus(Reported(shape) + [a, b], SetGates(rt, path));
    var front := Reported(shape) + [a, b] + SetGates(rt, path);
    if path.constraintSet in rt.sets {
      var constraints := rt.sets[path.constraintSet];
      var decision := CurrencyGates(d, request, policy, epoch) + DigestGates(path, d, constraints);
      var standing := StandingGates(rt, path, request, constraints, policy, epoch);
      DecisionFirst(path, d, request, constraints, policy, epoch);
      StandingFirst(rt, path, request, constraints, policy, epoch);
      FirstPlus(decision, standing);
      FirstPlus(front, decision + standing);
    } else {
      UnknownSet(rt, path);
      assert front + [] == front;
    }
  }

  lemma UnknownSet(rt: Runtime, path: PathDefinition)
    ensures ConstraintRefusal(rt, path).None? ==> path.constraintSet in rt.sets
    ensures path.constraintSet !in rt.sets ==> ConstraintRefusal(rt, path) == Some(ConstraintSetUnknown)
  {
  }

  /**
   * A decision goes on to be committed exactly when it passes every check, with the request that its fields make up;
   * otherwise it is answered with the outcome of the first check that fails.
   */
  lemma PublishByGates(rt: Runtime, c: Config, path: PathDefinition, d: Decision, request: EvaluationRequest,
      policy: PolicySet, epoch: u64, outcome: Outcome)
    ensures var gates := PublishGates(rt, c, path, d, request, policy, epoch);
            var prepared := PreparePublish(rt, c, path, d, request, policy, epoch);
            && (prepared.Ready? <==> Passed(gates))
            && (prepared == Early(outcome) <==> Refuses(gates, outcome))
  {
    hide PublishGates, PreparePublish;
    PublishFirst(rt, c, path, d, request, policy, epoch);
    FirstMeaning(PublishGates(rt, c, path, d, request, policy, epoch), outcome);
  }

  /** What is handed to the commit: the decision as it was sent, under the recomputed digests of path, set and input. */
  lemma ReadyRequest(rt: Runtime, c: Config, path: PathDefinition, d: Decision, request: EvaluationRequest,
      policy: PolicySet, epoch: u64)
    requires PreparePublish(rt, c, path, d, request, policy, epoch).Ready?
    ensures path.constraintSet in rt.sets
    ensures var q := PreparePublish(rt, c, path, d, request, policy, epoch).request;
            && q.path == path && q.state == d.state && q.primary == d.primary && q.evidence == d.evidence
            && q.primaryViolation == d.primaryViolation && q.secondary == d.secondary
            && q.pathDigest == d.pathDigest && q.constraintDigest == d.constraintDigest
            && q.authorityDigest == d.authorityDigest
            && q.inputDigest == InputDigestOf(path, rt.sets[path.constraintSet], policy, epoch)
            && q.identityBound == request.requireIdentityBinding && q.publisher == request.publisher
            && q.workerBoot == request.workerBoot && q.expected == request.expected && q.attempt == request.attempt
            && q.policy == policy
  {
    hide PathShape.Shape, AuthorityDigestOf, PathDigestOf, ConstraintDigestOf, InputDigestOf, StateForOutcome,
      Recovery.ValidEvidence, RevokedOrRetired, AttemptConflicts, Scalar;
    PublishByGates(rt, c, path, d, request, policy, epoch, MalformedPath);
  }

  // ---- commit -------------------------------------------------------------------------------------------

  /** No announcement for a bound subject went beyond what the vector binds. */
  predicate NotOvertaken(rt: Runtime, evidence: seq<EvidenceEntry>) {
    forall e :: e in evidence && (e.kind, e.subject) in rt.watermarks ==>
      rt.watermarks[(e.kind, e.subject)] <= e.generation
  }

  predicate ExpectsCurrent(rt: Runtime, path: string, expected: Option<u64>) {
    expected == None || expected == Some(if path in rt.records then rt.records[path].generation else 0)
  }

  /** The record on file already is this decision. */
  predicate OnFile(rt: Runtime, c: Config, path: string, digest: Digest) {
    c.idempotentReplay && path in rt.records && rt.records[path].authorityDigest == digest
  }

  function CommitGates(rt: Runtime, c: Config, path: string, evidence: seq<EvidenceEntry>, expected: Option<u64>,
      digest: Digest): seq<Gate<Outcome>> {
    [Gate(path in rt.records || |rt.records| < c.limits.maxPaths, ResourceLimit),
     Gate(NotOvertaken(rt, evidence), RevalidationRequiredOutcome),
     Gate(ExpectsCurrent(rt, path, expected), StaleAuthority),
     Gate(OnFile(rt, c, path, digest) || (path in rt.records ==> rt.records[path].generation < U64_MAX),
       ResourceLimit)]
  }

  lemma OvertakenIsStale(rt: Runtime, evidence: seq<EvidenceEntry>)
    ensures NotOvertaken(rt, evidence) <==> !StaleEvidence(rt.watermarks, evidence)
  {
    if e :| e in evidence && (e.kind, e.subject) in rt.watermarks
            && rt.watermarks[(e.kind, e.subject)] > e.generation {
      assert BelowWatermark(rt.watermarks, e);
    }
  }

  /** A commit writes, replays or refuses as its checks say. */
  lemma CommitByGates(rt: Runtime, c: Config, q: CommitRequest, outcome: Outcome)
    ensures var gates := CommitGates(rt, c, q.path.id, q.evidence, q.expected, q.authorityDigest);
            var result := Commit(rt, c, q).1;
            && (!result.Refused? <==> Passed(gates))
            && (result.Replayed? <==> Passed(gates) && OnFile(rt, c, q.path.id, q.authorityDigest))
            && (result == Refused(outcome) <==> Refuses(gates, outcome))
  {
    hide First, StaleEvidence, NotOvertaken, Store, NewRecord, Unfile, RememberAttempt, Passed, Refuses;
    var g := CommitGates(rt, c, q.path.id, q.evidence, q.expected, q.authorityDigest);
    OvertakenIsStale(rt, q.evidence);
    FirstOfFour(g[0], g[1], g[2], g[3]);
    FirstMeaning(g, outcome);
  }

  /** A published decision is accepted exactly when it passes every check, and answered with the first that fails. */
  lemma PublishAnswers(rt: Runtime, c: Config, path: PathDefinition, d: Decision, request: EvaluationRequest,
      policy: PolicySet, epoch: u64, outcome: Outcome)
    ensures var gates := PublishGates(rt, c, path, d, request, policy, epoch)
                         + CommitGates(rt, c, path.id, d.evidence, request.expected, d.authorityDigest);
            var answer := Publish(rt, c, path, d, request, policy, epoch).1;
            && (Accepted(answer) <==> Passed(gates))
            && (answer.idempotent <==> Passed(gates) && OnFile(rt, c, path.id, d.authorityDigest))
            && (answer == Answer(outcome, false, false, 0) <==> Refuses(gates, outcome))
  {
    hide First, PublishGates, PreparePublish, CommitGates, Commit, OnFile, Passed, Refuses;
    var a := PublishGates(rt, c, path, d, request, policy, epoch);
    var b := CommitGates(rt, c, path.id, d.evidence, request.expected, d.authorityDigest);
    var prepared := PreparePublish(rt, c, path, d, request, policy, epoch);
    PublishFirst(rt, c, path, d, request, policy, epoch);
    FirstPlus(a, b);
    FirstMeaning(a + b, outcome);
    FirstMeaning(b, outcome);
    if prepared.Ready? {
      ReadyRequest(rt, c, path, d, request, policy, epoch);
      CommitByGates(rt, c, prepared.request, outcome);
    }
  }

  // ---- evaluate ---------------------------------------------------------------------------------------

  function RequestGates(rt: Runtime, p: PathDefinition, request: EvaluationRequest, constraints: ConstraintSet,
      policy: PolicySet, epoch: u64): seq<Gate<Outcome>> {
    [Gate(AttemptAgrees(rt, request, InputDigestOf(p, constraints, policy, epoch)), EvaluationAttemptConflict),
     Gate(NotRetired(rt, p.id), PathRetired),
     Gate(AssertsCurrentEpoch(request, epoch), StaleEpoch),
     Gate(NotRevoked(rt, p.id), RevokedOutcome)]
  }

  /** The last check is that the underlying chain ends within the allowed depth. */
  function EvaluateGates(rt: Runtime, c: Config, w: Evaluation.World, p: PathDefinition,
      request: EvaluationRequest): seq<Gate<Outcome>> {
    Reported(ShapeGates(p, c.limits, request.requireIdentityBinding)) + SetGates(rt, p)
    + if p.constraintSet !in rt.sets then []
      else
        RequestGates(rt, p, request, rt.sets[p.constraintSet], w.policy, w.epoch)
        + [Gate(Evaluation.ResolveUnderlying(rt, p, c.limits).Some?, MalformedPath)]
  }

  lemma RequestFirst(rt: Runtime, w: Evaluation.World, p: PathDefinition, request: EvaluationRequest)
    requires p.constraintSet in rt.sets
    ensures Evaluation.EvaluateRefusal(rt, w, p, request)
            == First(RequestGates(rt, p, request, rt.sets[p.constraintSet], w.policy, w.epoch))
  {
    hide First, InputDigestOf;
    var g := RequestGates(rt, p, request, rt.sets[p.constraintSet], w.policy, w.epoch);
    FirstOfFour(g[0], g[1], g[2], g[3]);
  }

  lemma EvaluateFirst(rt: Runtime, c: Config, w: Evaluation.World, p: PathDefinition, request: EvaluationRequest)
    requires Evaluation.Usable(rt, w)
    ensures var first := First(EvaluateGates(rt, c, w, p, request));
            var prepared := Evaluation.PrepareEvaluate(rt, c, w, p, request);
            && (prepared.Ready? <==> first.None?)
            && (prepared.Early? ==> first == Some(prepared.outcome))
  {
    hide First, ShapeGates, Reported, PathShape.Shape, SetGates, RequestGates, ConstraintRefusal, ShapeOutcome,
      RequestFor, Evaluation.EvaluateRefusal, Evaluation.ResolveUnderlying, Evaluation.DecisionOf,
      Evaluation.InputsFor;
    var shape := ShapeGates(p, c.limits, request.requireIdentityBinding);
    ShapeIsFirst(p, c.limits, request.requireIdentityBinding);
    ReportedFirst(shape);
    SetRefusal(rt, p);
    FirstPlus(Reported(shape), SetGates(rt, p));
    var front := Reported(shape) + SetGates(rt, p);
    UnknownSet(rt, p);
    if p.constraintSet in rt.sets {
      var chain: Gate<Outcome> := Gate(Evaluation.ResolveUnderlying(rt, p, c.limits).Some?, MalformedPath);
      var asked := RequestGates(rt, p, request, rt.sets[p.constraintSet], w.policy, w.epoch);
      RequestFirst(rt, w, p, request);
      FirstOfTwo(chain, chain);
      FirstPlus(asked, [chain]);
      FirstPlus(front, asked + [chain]);
    } else {
      assert front + [] == front;
    }
  }

  /** An evaluation reads evidence exactly when it passes every check, and otherwise answers with the first failure. */
  lemma EvaluateByGates(rt: Runtime, c: Config, w: Evaluation.World, p: PathDefinition, request: EvaluationRequest,
      outcome: Outcome)
    requires Evaluation.Usable(rt, w)
    ensures var gates := EvaluateGates(rt, c, w, p, request);
            var prepared := Evaluation.PrepareEvaluate(rt, c, w, p, request);
            && (prepared.Ready? <==> Passed(gates))
            && (prepared == Early(outcome) <==> Refuses(gates, outcome))
  {
    hide EvaluateGates, Evaluation.PrepareEvaluate, Evaluation.Usable;
    EvaluateFirst(rt, c, w, p, request);
    FirstMeaning(EvaluateGates(rt, c, w, p, request), outcome);
  }

  /** What a re-evaluation asks: the definition on record, under its identity rule, with no epoch asserted. */
  function RevalidationGates(rt: Runtime, c: Config, w: Evaluation.World, path: string,
      request: EvaluationRequest): seq<Gate<Outcome>> {
    if path !in rt.records then [Gate(false, PathUnknown)]
    else
      var r := rt.records[path];
      EvaluateGates(rt, c, w, r.definition,
        EvaluationRequest(request.attempt, request.expected, None, request.publisher, request.workerBoot,
          r.identityBound))
  }

  /** A re-evaluation that fails a check changes nothing and answers with the first one that fails. */
  lemma RevalidateByGates(rt: Runtime, c: Config, w: Evaluation.World, path: string, request: EvaluationRequest,
      outcome: Outcome)
    requires Evaluation.Usable(rt, w)
    requires Refuses(RevalidationGates(rt, c, w, path, request), outcome)
    ensures Evaluation.Revalidate(rt, c, w, path, request) == (rt, Answer(outcome, false, false, 0))
  {
    hide First, EvaluateGates, Evaluation.PrepareEvaluate, Evaluation.Usable, Refuses, Passed;
    if path in rt.records {
      var r := rt.records[path];
      EvaluateByGates(rt, c, w, r.definition, request.(bindingEpoch := None, requireIdentityBinding := r.identityBound),
        outcome);
    } else {
      var g: Gate<Outcome> := Gate(false, PathUnknown);
      FirstOfTwo(g, g);
      FirstMeaning([g], outcome);
    }
  }

  // ---- revoke and retire ------------------------------------------------------------------------------------

  /** The revocation on file has the same reason, explanation and authority. */
  predicate AlreadyRevoked(rt: Runtime, path: string, q: RevokeRequest) {
    && path in rt.records && rt.records[path].revocation.Some?
    && rt.records[path].revocation.value.reason == q.reason
    && rt.records[path].revocation.value.explanation == q.explanation
    && rt.records[path].revocation.value.authority == q.authority
  }

  predicate GenerationLeft(rt: Runtime, path: string) { path in rt.records && rt.records[path].generation < U64_MAX }

  function RevokeGates(rt: Runtime, path: string, q: RevokeRequest, limits: Limits): seq<Gate<MutationResult>> {
    [Gate((q.reason == ADMINISTRATIVE ==> q.authority != "") && |q.explanation| <= limits.maxMetadataBytes, BadRequest),
     Gate(path in rt.records, NoRecord),
     Gate(ExpectsCurrent(rt, path, q.expected), Conflict),
     Gate(AlreadyRevoked(rt, path, q) || GenerationLeft(rt, path), GenerationsExhausted)]
  }

  predicate Done(result: MutationResult) { result.Applied? || result.Repeated? }

  /** Everything but the standing of a record. */
  predicate SameBasis(r: Record, r': Record) {
    && r'.definition == r.definition && r'.evidence == r.evidence && r'.pathDigest == r.pathDigest
    && r'.constraintDigest == r.constraintDigest && r'.inputDigest == r.inputDigest
    && r'.primaryViolation == r.primaryViolation && r'.violations == r.violations
    && r'.identityBound == r.identityBound && r'.publisher == r.publisher && r'.workerBoot == r.workerBoot
    && r'.dependencies == r.dependencies
  }

  /** A revocation takes effect or was in effect exactly when it passes every check. */
  lemma RevokeByGates(rt: Runtime, path: string, q: RevokeRequest, epoch: u64, limits: Limits, result: MutationResult)
    ensures var gates := RevokeGates(rt, path, q, limits);
            var answer := Revoke(rt, path, q, epoch, limits).1;
            && (Done(answer) <==> Passed(gates))
            && (answer.Repeated? <==> Passed(gates) && AlreadyRevoked(rt, path, q))
            && (!Done(result) ==> (answer == result <==> Refuses(gates, result)))
  {
    hide First, RevokedRecord, Passed, Refuses;
    var g := RevokeGates(rt, path, q, limits);
    FirstOfFour(g[0], g[1], g[2], g[3]);
    FirstMeaning(g, result);
  }

  /** Only a revocation that is applied changes anything, and that is the standing of its one record. */
  lemma RevokeWrites(rt: Runtime, path: string, q: RevokeRequest, epoch: u64, limits: Limits)
    ensures !Revoke(rt, path, q, epoch, limits).1.Applied? ==> Revoke(rt, path, q, epoch, limits).0 == rt
    ensures Revoke(rt, path, q, epoch, limits).1.Applied? ==>
              var rt' := Revoke(rt, path, q, epoch, limits).0;
              && path in rt.records && path in rt'.records
              && rt' == rt.(records := rt.records[path := rt'.records[path]])
              && SameBasis(rt.records[path], rt'.records[path])
              && rt'.records[path].state == AuthorityState.Revoked && rt'.records[path].outcome == RevokedOutcome
              && rt'.records[path].retired == rt.records[path].retired
              && rt'.records[path].generation == rt.records[path].generation + 1
              && Revoke(rt, path, q, epoch, limits).1.generation == rt'.records[path].generation
              && rt'.records[path].revocation ==
                 Some(Revocation(q.reason, q.explanation, rt'.records[path].generation, epoch, q.authority, q.attempt,
                   q.durable))
  {
    hide AuthorityDigestOf;
  }

  function RetireGates(rt: Runtime, path: string): seq<Gate<MutationResult>> {
    [Gate(path in rt.records, NoRecord),
     Gate((path in rt.records && rt.records[path].retired) || GenerationLeft(rt, path), GenerationsExhausted)]
  }

  /** A retirement takes effect, or was in effect, exactly when it passes every check. */
  lemma RetireByGates(rt: Runtime, path: string, result: MutationResult)
    ensures var gates := RetireGates(rt, path);
            var (rt', answer) := Retire(rt, path);
            && (Done(answer) <==> Passed(gates))
            && (!Done(result) ==> (answer == result <==> Refuses(gates, result)))
            && (answer.Repeated? <==> path in rt.records && rt.records[path].retired)
            && (!answer.Applied? ==> rt' == rt)
            && (answer.Applied? ==>
                  && path in rt'.records && rt' == rt.(records := rt.records[path := rt'.records[path]])
                  && SameBasis(rt.records[path], rt'.records[path]) && rt'.records[path].retired
                  && rt'.records[path].state == AuthorityState.Retired && rt'.records[path].outcome == PathRetired
                  && rt'.records[path].revocation == rt.records[path].revocation
                  && rt'.records[path].generation == rt.records[path].generation + 1)
  {
    hide First, AuthorityDigestOf, Passed, Refuses;
    var g := RetireGates(rt, path);
    FirstOfTwo(g[0], g[1]);
    FirstMeaning(g, result);
  }
}
