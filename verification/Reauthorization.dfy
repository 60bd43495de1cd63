/**
 * What it takes to authorize a recovered path again. Import keeps the digest of the authority that it withdraws, so
 * a decision with the same content is taken for a replay.
 */
module Reauthorization {
  import opened Base
  import opened Model
  import opened Evidence
  import opened RuntimeState
  import opened RuntimeRuns
  import opened Publication
  import opened Recovery
  import opened Evaluation
  import opened Reads
  import opened Scenarios
  import opened UnnamedDomain
  import Distribution
  import PathShape
  import Requirements
  import Views

  /** Everything that the authority digest covers is the same. */
  predicate SameDecision(q: CommitRequest, r: Record) {
    && q.path == r.definition && q.constraintDigest == r.constraintDigest && q.evidence == r.evidence
    && q.state == r.state && q.primary == r.outcome && Codes(q.secondary) == Codes(r.violations)
  }

  lemma SameDigestMeaning(q: CommitRequest, r: Record)
    requires ProperRequest(q) && DigestsMatch(r) && q.path.id == r.definition.id
    ensures q.authorityDigest == r.authorityDigest <==> SameDecision(q, r)
  {
    hide Scalar, Codes, Canonical;
  }

  /** The refusals of commit for a path on record. */
  predicate CommitAdmits(rt: Runtime, q: CommitRequest)
    requires q.path.id in rt.records
  {
    && !StaleEvidence(rt.watermarks, q.evidence)
    && (q.expected.Some? ==> q.expected.value == rt.records[q.path.id].generation)
    && rt.records[q.path.id].generation < U64_MAX
  }

  /**
   * Export, import, and an authorizing decision about the path: it is authorized again if and only if commit admits
   * the decision and the decision is not, under idempotent replay, the one that was on record before the export. A
   * replay leaves the recovered record as it is.
   */
  lemma ReauthorizationAfterRestart(rt: Runtime, into: Runtime, epoch: u64, policy: PolicySet, livePolicy: PolicySet,
      c: Config, q: CommitRequest)
    requires Restart(rt, into, epoch, policy, livePolicy, c.limits).Some?
    requires ProperRequest(q) && AuthorizingState(q.state)
    requires q.path.id in rt.records && Sound(rt.records[q.path.id]) && rt.records[q.path.id].definition.id == q.path.id
    ensures q.path.id in Restart(rt, into, epoch, policy, livePolicy, c.limits).value.records
    ensures var p := q.path.id;
            var back := Restart(rt, into, epoch, policy, livePolicy, c.limits).value;
            var (next, result) := Commit(back, c, q);
            && p in next.records
            && (AuthorizingState(next.records[p].state) <==>
                  CommitAdmits(back, q) && !(c.idempotentReplay && SameDecision(q, rt.records[p])))
            && (!AuthorizingState(next.records[p].state) ==> next.records[p] == back.records[p])
            && (result.Replayed? <==>
                  && !StaleEvidence(back.watermarks, q.evidence)
                  && (q.expected.Some? ==> q.expected.value == back.records[p].generation)
                  && c.idempotentReplay && SameDecision(q, rt.records[p]))
  {
    hide Restart, Commit, StaleEvidence, Canonical, SameDecision, DependenciesOf, StateForOutcome, AuthorityDigestOf;
    var p := q.path.id;
    var back := Restart(rt, into, epoch, policy, livePolicy, c.limits).value;
    RestartKeys(rt, into, epoch, policy, livePolicy, c.limits);
    ExportImportKeeps(rt, into, epoch, policy, livePolicy, c.limits, p);
    NotAuthorizing(rt, into, epoch, policy, livePolicy, c.limits, p);
    SameDigestMeaning(q, rt.records[p]);
    CommitOutcomes(back, c, q);
    CommitRecords(back, c, q);
  }

  lemma NotAuthorizing(rt: Runtime, into: Runtime, epoch: u64, policy: PolicySet, livePolicy: PolicySet,
      limits: Limits, p: string)
    requires Restart(rt, into, epoch, policy, livePolicy, limits).Some? && p in rt.records
    ensures p in Restart(rt, into, epoch, policy, livePolicy, limits).value.records
    ensures !AuthorizingState(Restart(rt, into, epoch, policy, livePolicy, limits).value.records[p].state)
  {
    hide Import, Export;
    ExportKeys(rt, epoch, policy);
    RecoveryAuthorizesNothing(into, Export(rt, epoch, policy), livePolicy, limits, p);
  }

  lemma ExportKeys(rt: Runtime, epoch: u64, policy: PolicySet)
    ensures Export(rt, epoch, policy).records.Keys == rt.records.Keys
  {
  }

  // ---- the same evaluation again -----------------------------------------------------------------------

  /** The path rests on no other path and its set names no peer. */
  predicate StandsAlone(rt: Runtime, p: PathDefinition) {
    p.underlying.None? && p.constraintSet in rt.sets
    && forall c :: c in rt.sets[p.constraintSet].failureDomains ==> !NamesPeer(c)
  }

  lemma NoPeers(rt: Runtime, rt': Runtime, s: ConstraintSet)
    requires forall c :: c in s.failureDomains ==> !NamesPeer(c)
    ensures ResolvePeers(rt, s) == ResolvePeers(rt', s) == map[]
  {
  }

  /** What an evaluation prepares does not depend on a record without authority, revocation or retirement. */
  lemma SameRequestAgain(rt: Runtime, back: Runtime, c: Config, w: World, p: PathDefinition, request: EvaluationRequest)
    requires Usable(rt, w) && back.sets == rt.sets && StandsAlone(rt, p)
    requires PrepareEvaluate(rt, c, w, p, request).Ready?
    requires p.id in rt.records ==> !AuthorizingOutcome(rt.records[p.id].outcome)
    requires p.id in back.records ==>
               var r := back.records[p.id];
               !AuthorizingOutcome(r.outcome) && !r.retired && r.revocation.None?
    requires back.attempts == map[]
    ensures Usable(back, w) && PrepareEvaluate(back, c, w, p, request) == PrepareEvaluate(rt, c, w, p, request)
  {
    hide PathShape.Shape, DecisionOf, ResolvePeers, InputDigestOf, Requirements.Shaped, NamesPeer;
    NoPeers(rt, back, rt.sets[p.constraintSet]);
  }

  predicate IsReplay(a: Answer) { a.primary == Idempotent && a.idempotent && !a.committed }

  /** A committed evaluation leaves the decision it prepared on record, neither revoked nor retired. */
  lemma EvaluationWrote(rt: Runtime, c: Config, w: World, p: PathDefinition, request: EvaluationRequest)
    requires Usable(rt, w) && Evaluate(rt, c, w, p, request).1.committed
    requires RecordsConsistent(rt) && RecordsDigested(rt)
    ensures PrepareEvaluate(rt, c, w, p, request).Ready?
    ensures var q := PrepareEvaluate(rt, c, w, p, request).request;
            var rt1 := Evaluate(rt, c, w, p, request).0;
            && ProperRequest(q) && q.path == p && q.expected == request.expected
            && RecordsConsistent(rt1) && rt1.sets == rt.sets
            && p.id in rt1.records && Sound(rt1.records[p.id]) && SameDecision(q, rt1.records[p.id])
            && rt1.records[p.id].definition == p
            && !rt1.records[p.id].retired && rt1.records[p.id].revocation.None?
  {
    hide PrepareEvaluate, Commit, ProperRequest, DependenciesOf, Usable, RecordsConsistent, RecordsDigested, Sound,
      Codes, InputsFor, EvidenceOf, ResolveUnderlying, ConstraintRefusal;
    EvaluateIsChecked(rt, c, w, p, request);
    var q := PrepareEvaluate(rt, c, w, p, request).request;
    CommitRecords(rt, c, q);
    CommitSound(rt, c, q);
    RecordIsSound(Commit(rt, c, q).0, p.id);
  }

  lemma RecordIsSound(rt: Runtime, p: string)
    requires RecordsConsistent(rt) && RecordsDigested(rt) && p in rt.records
    ensures Sound(rt.records[p]) && rt.records[p].definition.id == p
  {
    hide Consistent, DigestsMatch;
  }

  lemma RecoveredPlain(rt: Runtime, into: Runtime, epoch: u64, policy: PolicySet, livePolicy: PolicySet,
      limits: Limits, p: string)
    requires Restart(rt, into, epoch, policy, livePolicy, limits).Some? && p in rt.records && RecordsConsistent(rt)
    ensures var back := Restart(rt, into, epoch, policy, livePolicy, limits).value;
            && back.sets == rt.sets && back.watermarks == into.watermarks && back.attempts == map[]
            && p in back.records && !Authorizing(back.records[p])
            && back.records[p].retired == rt.records[p].retired
            && back.records[p].revocation == rt.records[p].revocation
  {
    hide Restart, RecordsConsistent, Authorizing;
    ExportImportKeeps(rt, into, epoch, policy, livePolicy, limits, p);
    RestartConsistent(rt, into, epoch, policy, livePolicy, limits);
    NothingAttempted(rt, into, epoch, policy, livePolicy, limits);
  }

  lemma NothingAttempted(rt: Runtime, into: Runtime, epoch: u64, policy: PolicySet, livePolicy: PolicySet,
      limits: Limits)
    requires Restart(rt, into, epoch, policy, livePolicy, limits).Some?
    ensures Restart(rt, into, epoch, policy, livePolicy, limits).value.attempts == map[]
  {
    hide Importable, Recovered, IndexesOf;
  }

  lemma AnswersAre(rt: Runtime, c: Config, w: World, p: PathDefinition, request: EvaluationRequest, q: CommitRequest)
    requires Usable(rt, w) && PrepareEvaluate(rt, c, w, p, request) == Ready(q)
    ensures Evaluate(rt, c, w, p, request).0 == Commit(rt, c, q).0
    ensures Commit(rt, c, q).1.Replayed? ==> IsReplay(Evaluate(rt, c, w, p, request).1)
  {
    hide PrepareEvaluate, Commit, Usable;
  }

  /**
   * A path that stands alone is evaluated, exported, imported, and evaluated again in the same world: it is
   * authorized again if and only if it was, replays are off, and no watermark or exhausted generation is in the way.
   */
  lemma SameEvaluationAfterRestart(rt: Runtime, c: Config, w: World, p: PathDefinition, request: EvaluationRequest,
      into: Runtime, epoch: u64, policy: PolicySet)
    requires Usable(rt, w) && Evaluate(rt, c, w, p, request).1.committed && request.expected.None?
    requires RecordsConsistent(rt) && RecordsDigested(rt) && StandsAlone(rt, p)
    requires p.id in rt.records ==> !AuthorizingOutcome(rt.records[p.id].outcome)
    requires Restart(Evaluate(rt, c, w, p, request).0, into, epoch, policy, w.policy, c.limits).Some?
    ensures var rt1 := Evaluate(rt, c, w, p, request).0;
            var back := Restart(rt1, into, epoch, policy, w.policy, c.limits).value;
            && p.id in rt1.records && p.id in back.records && Usable(back, w)
            && var (again, answer) := Evaluate(back, c, w, p, request);
            && p.id in again.records
            && (AuthorizingState(rt1.records[p.id].state) ==>
                  && (AuthorizingState(again.records[p.id].state) <==>
                        !c.idempotentReplay && !StaleEvidence(into.watermarks, rt1.records[p.id].evidence)
                        && back.records[p.id].generation < U64_MAX)
                  && (c.idempotentReplay && !StaleEvidence(into.watermarks, rt1.records[p.id].evidence) ==>
                        IsReplay(answer) && again.records[p.id] == back.records[p.id]))
  {
    hide Evaluate, Restart, PrepareEvaluate, Commit, StaleEvidence, SameDecision, Usable, Sound, ProperRequest,
      Checked, RecordsConsistent, RecordsDigested, DependenciesOf, StandsAlone;
    var rt1 := Evaluate(rt, c, w, p, request).0;
    EvaluationWrote(rt, c, w, p, request);
    var q := PrepareEvaluate(rt, c, w, p, request).request;
    RecoveredPlain(rt1, into, epoch, policy, w.policy, c.limits, p.id);
    var back := Restart(rt1, into, epoch, policy, w.policy, c.limits).value;
    SameRequestAgain(rt, back, c, w, p, request);
    AnswersAre(back, c, w, p, request, q);
    CommitRecords(back, c, q);
    SameParts(q, rt1.records[p.id]);
    if AuthorizingState(rt1.records[p.id].state) {
      ReauthorizationAfterRestart(rt1, into, epoch, policy, w.policy, c, q);
    }
  }

  lemma SameParts(q: CommitRequest, r: Record)
    requires SameDecision(q, r)
    ensures q.evidence == r.evidence && q.state == r.state
  {
  }

  // ---- a concrete evaluation -------------------------------------------------------------------------------

  /**
   * With idempotent replay: the evaluation commits the path as authorized; the runtime is exported and imported;
   * the same evaluation in the same world answers that it was a replay, and the path stays withdrawn.
   */
  lemma RecoveredPathStaysWithdrawn(c: Config)
    requires c.limits == SomeLimits() && c.idempotentReplay
    ensures Usable(WithCoverage(), DomainWorld())
    ensures var p := SomePath("p", "");
            var (rt, answer) := Evaluate(WithCoverage(), c, DomainWorld(), p, AnyRequest());
            var back := Restart(rt, EmptyRuntime(), 1, SomePolicy(), SomePolicy(), c.limits);
            && answer.committed && "p" in rt.records && AuthorizingState(rt.records["p"].state)
            && back.Some? && Usable(back.value, DomainWorld())
            && "p" in back.value.records && back.value.sets == WithCoverage().sets
            && var (again, answer') := Evaluate(back.value, c, DomainWorld(), p, AnyRequest());
               "p" in again.records && again.records["p"].state == RevalidationRequired && IsReplay(answer')
               && again.records["p"] == back.value.records["p"]
  {
    hide Evaluate, Restart, Usable, DomainWorld, StaleEvidence, WithCoverage, RecordsConsistent, RecordsDigested,
      StandsAlone;
    var p := SomePath("p", "");
    DomainChangesUnnoticed(c);
    var rt := Evaluate(WithCoverage(), c, DomainWorld(), p, AnyRequest()).0;
    CoverageStandsAlone(c);
    EvaluationWrote(WithCoverage(), c, DomainWorld(), p, AnyRequest());
    EvaluatedIsImportable(c);
    assert DomainWorld().policy == SomePolicy() by { DomainPolicy(); }
    SameEvaluationAfterRestart(WithCoverage(), c, DomainWorld(), p, AnyRequest(), EmptyRuntime(), 1, SomePolicy());
    NothingStale(rt.records["p"].evidence);
    ExportImportKeeps(rt, EmptyRuntime(), 1, SomePolicy(), SomePolicy(), c.limits, "p");
  }

  /** The runtime of which the evaluation was exported and imported. */
  function Reimported(c: Config): Option<Runtime>
    requires Usable(WithCoverage(), DomainWorld())
  {
    Restart(Evaluate(WithCoverage(), c, DomainWorld(), SomePath("p", ""), AnyRequest()).0, EmptyRuntime(), 1,
      SomePolicy(), SomePolicy(), c.limits)
  }

  /** An evaluator that replays sends what every coordinator refuses, whatever that coordinator holds. */
  lemma ReplayIsRefusedEverywhere(c: Config, coordinator: Runtime, request: EvaluationRequest, policy: PolicySet,
      epoch: u64)
    requires c.limits == SomeLimits() && c.idempotentReplay && !request.requireIdentityBinding
    ensures Usable(WithCoverage(), DomainWorld()) && Reimported(c).Some? && Usable(Reimported(c).value, DomainWorld())
    ensures var p := SomePath("p", "");
            var sent := Distribution.Sent(Reimported(c).value, c, DomainWorld(), p, AnyRequest());
            && IsReplay(Evaluate(Reimported(c).value, c, DomainWorld(), p, AnyRequest()).1) && sent.Some?
            && var (after, answer) := Publish(coordinator, c, p, sent.value, request, policy, epoch);
               after == coordinator && answer.primary == MalformedPath && !Accepted(answer)
  {
    hide Evaluate, Restart, Usable, DomainWorld, WithCoverage, PathShape.Shape, Distribution.Sent, Publish;
    RecoveredPathStaysWithdrawn(c);
    SomePathIsShaped("p", "", c.limits);
    var back := Reimported(c).value;
    CoverageStandsAlone(c);
    Distribution.SentUnlessLocal(back, c, DomainWorld(), SomePath("p", ""), AnyRequest());
    Distribution.UncommittedIsNeverAccepted(back, c, DomainWorld(), SomePath("p", ""), AnyRequest(), coordinator, c,
      request, policy, epoch);
  }

  lemma DomainPolicy()
    ensures DomainWorld().policy == SomePolicy()
  {
  }

  lemma NothingStale(evidence: seq<EvidenceEntry>)
    ensures !StaleEvidence(EmptyRuntime().watermarks, evidence)
  {
  }

  lemma CoverageStandsAlone(c: Config)
    ensures StandsAlone(WithCoverage(), SomePath("p", "")) && RecordsConsistent(WithCoverage())
            && RecordsDigested(WithCoverage()) && WithCoverage().records == map[] && SomePath("p", "").id == "p"
            && AnyRequest().expected.None?
  {
  }

  lemma EvaluatedIsImportable(c: Config)
    requires c.limits == SomeLimits() && Usable(WithCoverage(), DomainWorld())
    requires Evaluate(WithCoverage(), c, DomainWorld(), SomePath("p", ""), AnyRequest()).1.committed
    ensures Restart(Evaluate(WithCoverage(), c, DomainWorld(), SomePath("p", ""), AnyRequest()).0, EmptyRuntime(), 1,
              SomePolicy(), SomePolicy(), c.limits).Some?
  {
    hide PrepareEvaluate, Commit, Usable, DomainWorld, PathShape.Shape, EvidenceOf, ValidEvidence, Recovered,
      IndexesOf, DependenciesOf, ResolveUnderlying, InputsFor, ProperRequest, Checked, StateForOutcome;
    var p := SomePath("p", "");
    DomainIsPrepared(c);
    var q := PrepareEvaluate(WithCoverage(), c, DomainWorld(), p, AnyRequest()).request;
    EvaluateIsChecked(WithCoverage(), c, DomainWorld(), p, AnyRequest());
    CommitOutcomes(WithCoverage(), c, q);
    CommitRecords(WithCoverage(), c, q);
    SomePathIsShaped("p", "", c.limits);
    var i := InputsFor(WithCoverage(), c.limits, DomainWorld(), p,
      ResolveUnderlying(WithCoverage(), p, c.limits).value);
    assert i.limits == c.limits by { LimitsAre(WithCoverage(), c.limits, DomainWorld(), p,
      ResolveUnderlying(WithCoverage(), p, c.limits).value); }
    Distribution.ComputedScalars(i);
    var rt := Commit(WithCoverage(), c, q).0;
    assert Evaluate(WithCoverage(), c, DomainWorld(), p, AnyRequest()).0 == rt;
    assert rt.records.Keys == {"p"} && rt.records["p"].generation == 1;
    OneIsImportable(rt, c.limits);
  }

  lemma OneIsImportable(rt: Runtime, limits: Limits)
    requires limits == SomeLimits() && rt.records.Keys == {"p"} && rt.sets == map["c" := CoverageSet()]
    requires var r := rt.records["p"];
             r.generation == 1 && r.definition == SomePath("p", "") && ValidEvidence(r.evidence)
    requires PathShape.Shape(SomePath("p", ""), limits, false) == PathShape.Valid
    ensures Restart(rt, EmptyRuntime(), 1, SomePolicy(), SomePolicy(), limits).Some?
  {
    hide PathShape.Shape, ValidEvidence, Recovered, IndexesOf;
    var d := Export(rt, 1, SomePolicy());
    assert d.records.Keys == {"p"} && |d.records.Keys| == 1 && |d.records| == |d.records.Keys|;
    assert ImportableSet(CoverageSet(), limits);
  }

  lemma LimitsAre(rt: Runtime, limits: Limits, w: World, p: PathDefinition, chain: Views.Chain)
    requires p.constraintSet in rt.sets
    ensures InputsFor(rt, limits, w, p, chain).limits == limits
  {
  }
}
