/**
 * The documentation says that a generation advances exactly when the authority digest changes. This is when it
 * does, for every step, and the three ways in which it does not.
 */
module GenerationDigests {
  import opened Base
  import opened Model
  import opened Evidence
  import opened RuntimeState
  import opened RuntimeRuns
  import opened Publication
  import opened Scenarios

  /** The guards that a revocation passes before it writes. */
  predicate RevocationWrites(r: Record, q: RevokeRequest, limits: Limits) {
    && !(q.reason == ADMINISTRATIVE && q.authority == "") && |q.explanation| <= limits.maxMetadataBytes
    && (q.expected.Some? ==> q.expected.value == r.generation)
    && !SameRevocation(r, q) && r.generation < U64_MAX
  }

  predicate RetirementWrites(r: Record) { !r.retired && r.generation < U64_MAX }

  /** The guards that a decision about a path on record passes before it writes. */
  predicate DecisionWrites(rt: Runtime, c: Config, q: CommitRequest)
    requires q.path.id in rt.records
  {
    && !StaleEvidence(rt.watermarks, q.evidence)
    && (q.expected.Some? ==> q.expected.value == rt.records[q.path.id].generation)
    && !(c.idempotentReplay && rt.records[q.path.id].authorityDigest == q.authorityDigest)
    && rt.records[q.path.id].generation < U64_MAX
  }

  /** The step takes the next generation of the path under the digest it already has. */
  predicate SilentAdvance(rt: Runtime, c: Config, s: Step, p: string)
    requires p in rt.records
  {
    var r := rt.records[p];
    match s
    case RevokePath(path, q, _) => path == p && RevocationWrites(r, q, c.limits) && r.state.Revoked?
    case RetirePath(path) => path == p && RetirementWrites(r) && r.state.Retired?
    case Decide(q) => q.path.id == p && DecisionWrites(rt, c, q) && q.authorityDigest == r.authorityDigest
    case _ => false
  }

  predicate Moves(r: Record, r': Record) { r'.generation > r.generation }

  predicate Rehashed(r: Record, r': Record) { r'.authorityDigest != r.authorityDigest }

  lemma StateIsInTheDigest(r: Record)
    requires Sound(r)
    ensures r.authorityDigest.AuthorityDigest? && r.authorityDigest.state == r.state
  {
    hide Scalar, Codes, Canonical, PathDigestOf;
  }

  lemma MarkRehashes(r: Record)
    requires Sound(r)
    ensures Moves(r, Mark(r)) <==> Rehashed(r, Mark(r))
  {
    hide Scalar, Codes, Canonical, PathDigestOf;
    StateIsInTheDigest(r);
  }

  lemma RevokeRehashes(r: Record, q: RevokeRequest, epoch: u64)
    requires Sound(r) && r.generation < U64_MAX
    ensures Moves(r, RevokedRecord(r, q, epoch))
    ensures !Rehashed(r, RevokedRecord(r, q, epoch)) <==> r.state.Revoked?
  {
    hide Scalar, Codes, Canonical, PathDigestOf;
    StateIsInTheDigest(r);
    assert r.state.Revoked? ==> r.outcome == RevokedOutcome;
  }

  lemma RetireRehashes(r: Record)
    requires Sound(r) && r.generation < U64_MAX
    ensures Moves(r, RetiredRecord(r))
    ensures !Rehashed(r, RetiredRecord(r)) <==> r.state.Retired?
  {
    hide Scalar, Codes, Canonical, PathDigestOf;
    StateIsInTheDigest(r);
    assert r.state.Retired? ==> r.outcome == PathRetired;
  }

  lemma DecisionAdvances(rt: Runtime, c: Config, q: CommitRequest, p: string)
    requires p in rt.records
    ensures p in Commit(rt, c, q).0.records
    ensures var r' := Commit(rt, c, q).0.records[p];
            if q.path.id == p && DecisionWrites(rt, c, q) then
              Moves(rt.records[p], r') && r'.authorityDigest == q.authorityDigest
            else r' == rt.records[p]
  {
    hide Commit, StaleEvidence, DependenciesOf;
    CommitOutcomes(rt, c, q);
    CommitRecords(rt, c, q);
  }

  lemma RevokeAdvances(rt: Runtime, path: string, q: RevokeRequest, epoch: u64, limits: Limits, p: string)
    requires p in rt.records
    ensures p in Revoke(rt, path, q, epoch, limits).0.records
    ensures Revoke(rt, path, q, epoch, limits).0.records[p] ==
            if path == p && RevocationWrites(rt.records[p], q, limits) then RevokedRecord(rt.records[p], q, epoch)
            else rt.records[p]
  {
    hide RevokedRecord, SameRevocation;
  }

  lemma StepMarks(rt: Runtime, c: Config, s: Step, p: string)
    requires p in rt.records && !s.Decide? && !s.RevokePath? && !s.RetirePath?
    ensures p in Apply(rt, c, s).records
    ensures Apply(rt, c, s).records[p] == rt.records[p] || Apply(rt, c, s).records[p] == Mark(rt.records[p])
  {
    hide Mark, Candidates, Bound, PublishedBy;
  }

  /**
   * For every step and every sound record: the generation advances if and only if the digest changes, exactly unless
   * the step revokes a revoked record anew, retires a record in the retired state that is not marked retired, or
   * writes a decision with the digest on record.
   */
  lemma GenerationFollowsDigest(rt: Runtime, c: Config, s: Step, p: string)
    requires p in rt.records && Sound(rt.records[p])
    ensures p in Apply(rt, c, s).records
    ensures var r, r' := rt.records[p], Apply(rt, c, s).records[p];
            && (SilentAdvance(rt, c, s, p) <==> Moves(r, r') && !Rehashed(r, r'))
            && (SilentAdvance(rt, c, s, p) <==> !(Moves(r, r') <==> Rehashed(r, r')))
  {
    hide Commit, Revoke, Invalidate, LosePublisher, Mark, RevokedRecord, RetiredRecord, DecisionWrites,
      RevocationWrites, Sound;
    var r := rt.records[p];
    match s
    case Decide(q) => DecisionAdvances(rt, c, q, p);
    case RevokePath(path, q, epoch) =>
      RevokeAdvances(rt, path, q, epoch, c.limits, p);
      if RevocationWrites(r, q, c.limits) { WritesBelowTheEnd(r, q, c.limits); RevokeRehashes(r, q, epoch); }
    case RetirePath(path) => if RetirementWrites(r) { RetireRehashes(r); }
    case _ =>
      StepMarks(rt, c, s, p);
      MarkRehashes(r);
  }

  lemma WritesBelowTheEnd(r: Record, q: RevokeRequest, limits: Limits)
    requires RevocationWrites(r, q, limits)
    ensures r.generation < U64_MAX
  {
  }

  // ---- concrete inputs -------------------------------------------------------------------------------

  /** The state after a decision of the given outcome about path "p" was published. */
  function Published(c: Config, outcome: Outcome): Runtime {
    Publish(WithSet(), c, SomePath("p", ""), DecisionFor(SomePath("p", ""), outcome), AnyRequest(), SomePolicy(), 1).0
  }

  function Republish(outcome: Outcome): CommitRequest { CommitFor(SomePath("p", ""), outcome, AnyRequest()) }

  lemma FirstPublication(c: Config, outcome: Outcome)
    requires c.limits == SomeLimits()
    ensures Published(c, outcome) == Apply(WithSet(), c, Decide(Republish(outcome)))
    ensures var rt := Published(c, outcome);
            && "p" in rt.records && Sound(rt.records["p"])
            && Written(rt.records["p"], SomePath("p", ""), outcome, AnyRequest(), 1)
            && rt.records["p"].revocation.None? && !rt.records["p"].retired && NoScalarWatermark(rt)
            && rt.sets == WithSet().sets
  {
    hide Commit, PreparePublish, DecisionFor, CommitFor, ProperRequest, Checked, SomeSet, SomePolicy, Sound,
      RecordsConsistent, RecordsDigested;
    var p := SomePath("p", "");
    SomePathIsShaped("p", "", c.limits);
    DecisionIsReady(WithSet(), c, p, outcome, AnyRequest());
    DecisionCommits(WithSet(), c, p, outcome, AnyRequest());
    NothingYet();
    CommitSound(WithSet(), c, Republish(outcome));
    RecordSound(Published(c, outcome), "p");
  }

  lemma NothingYet()
    ensures RecordsConsistent(WithSet()) && RecordsDigested(WithSet())
  {
  }

  lemma RecordSound(rt: Runtime, p: string)
    requires RecordsConsistent(rt) && RecordsDigested(rt) && p in rt.records
    ensures Sound(rt.records[p])
  {
    hide Consistent, DigestsMatch;
  }

  /** A path that is published as retired and retired afterwards: generation two under the first digest. */
  lemma RetiringAPublishedRetirement(c: Config)
    requires c.limits == SomeLimits()
    ensures "p" in Published(c, PathRetired).records
            && SilentAdvance(Published(c, PathRetired), c, RetirePath("p"), "p")
  {
    hide Published, DecisionFor, Sound, Written;
    FirstPublication(c, PathRetired);
    WrittenAsRetired(Published(c, PathRetired).records["p"]);
  }

  lemma WrittenAsRetired(r: Record)
    requires Written(r, SomePath("p", ""), PathRetired, AnyRequest(), 1)
    ensures r.state == AuthorityState.Retired && r.generation == 1
  {
    hide DecisionFor;
  }

  /** Without idempotent replay the same publication takes a generation every time. */
  lemma RepeatingAPublication(c: Config)
    requires c.limits == SomeLimits() && !c.idempotentReplay
    ensures var rt := Published(c, AuthorizedOutcome);
            && "p" in rt.records && SilentAdvance(rt, c, Decide(Republish(AuthorizedOutcome)), "p")
            && PreparePublish(rt, c, SomePath("p", ""), DecisionFor(SomePath("p", ""), AuthorizedOutcome), AnyRequest(),
                 SomePolicy(), 1)
               == Ready(Republish(AuthorizedOutcome))
  {
    hide Published, DecisionFor, CommitFor, StaleEvidence, PreparePublish, ProperRequest, Checked, Written, SomeSet,
      SomePolicy, SilentAdvance;
    var rt := Published(c, AuthorizedOutcome);
    FirstPublication(c, AuthorizedOutcome);
    SomePathIsShaped("p", "", c.limits);
    DecisionIsReady(rt, c, SomePath("p", ""), AuthorizedOutcome, AnyRequest());
    RepublicationIsSilent(rt, c);
  }

  lemma RepublicationIsSilent(rt: Runtime, c: Config)
    requires c.limits == SomeLimits() && !c.idempotentReplay && "p" in rt.records && NoScalarWatermark(rt)
    requires Written(rt.records["p"], SomePath("p", ""), AuthorizedOutcome, AnyRequest(), 1)
    ensures SilentAdvance(rt, c, Decide(Republish(AuthorizedOutcome)), "p")
  {
    hide DecisionFor, CommitFor, StaleEvidence, Written, NoScalarWatermark;
    NotStale(rt);
    WrittenDigest(rt.records["p"], AuthorizedOutcome);
  }

  lemma WrittenDigest(r: Record, outcome: Outcome)
    requires Written(r, SomePath("p", ""), outcome, AnyRequest(), 1)
    ensures r.generation == 1 && r.authorityDigest == DecisionFor(SomePath("p", ""), outcome).authorityDigest
    ensures Republish(outcome).evidence == SomeEvidence() && Republish(outcome).path.id == "p"
            && Republish(outcome).expected.None?
    ensures Republish(outcome).authorityDigest == DecisionFor(SomePath("p", ""), outcome).authorityDigest
  {
    hide AuthorityDigestOf, PathDigestOf, ConstraintDigestOf, InputDigestOf;
  }

  /** Two revocations for different reasons: the second keeps the digest of the first. */
  lemma RevokingTwice(c: Config)
    requires c.limits == SomeLimits()
    ensures var published := Published(c, AuthorizedOutcome);
            var revoked := Apply(published, c, RevokePath("p", RevokeRequest("", 2, "", "", None, true), 1));
            && "p" in revoked.records && Sound(revoked.records["p"])
            && SilentAdvance(revoked, c, RevokePath("p", RevokeRequest("", 3, "", "", None, true), 1), "p")
  {
    hide Published, Apply, RevokedRecord, Sound, Written, RevocationWrites, SilentAdvance;
    var rt := Published(c, AuthorizedOutcome);
    var q := RevokeRequest("", 2, "", "", None, true);
    FirstPublication(c, AuthorizedOutcome);
    WrittenGeneration(rt.records["p"]);
    RevokedOnce(rt.records["p"], q, c.limits);
    RevokedRun(rt, c, q);
  }

  lemma RevokedRun(rt: Runtime, c: Config, q: RevokeRequest)
    requires "p" in rt.records && RevocationWrites(rt.records["p"], q, c.limits) && rt.records["p"].generation < U64_MAX
    requires RevokedRecord(rt.records["p"], q, 1).state.Revoked?
    requires RevocationWrites(RevokedRecord(rt.records["p"], q, 1), q.(reason := 3), c.limits)
    ensures var revoked := Apply(rt, c, RevokePath("p", q, 1));
            && "p" in revoked.records && revoked.records["p"] == RevokedRecord(rt.records["p"], q, 1)
            && SilentAdvance(revoked, c, RevokePath("p", q.(reason := 3), 1), "p")
  {
    hide Revoke, RevokedRecord, RevocationWrites;
    RevokeAdvances(rt, "p", q, 1, c.limits, "p");
  }

  lemma WrittenGeneration(r: Record)
    requires Written(r, SomePath("p", ""), AuthorizedOutcome, AnyRequest(), 1)
    ensures r.generation == 1
  {
    hide DecisionFor;
  }

  lemma RevokedOnce(r: Record, q: RevokeRequest, limits: Limits)
    requires Sound(r) && r.generation == 1 && r.revocation.None? && limits == SomeLimits()
    requires q == RevokeRequest("", 2, "", "", None, true)
    ensures RevocationWrites(r, q, limits)
    ensures Sound(RevokedRecord(r, q, 1)) && RevokedRecord(r, q, 1).state.Revoked?
    ensures RevocationWrites(RevokedRecord(r, q, 1), q.(reason := 3), limits)
  {
    hide AuthorityDigestOf, PathDigestOf, Canonical;
  }
}
