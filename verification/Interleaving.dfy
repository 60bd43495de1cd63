/** Evaluation as two steps, a read and a commit, with any other steps in between. */
module Interleaving {
  import opened Base
  import opened Model
  import opened Evidence
  import opened RuntimeState
  import opened RuntimeRuns
  import opened RuntimeIndexes
  import opened Watermarks
  import opened Publication
  import opened Views
  import opened Reads
  import opened Evaluation
  import opened Authority
  import opened Scenarios

  // ---- the expected generation -----------------------------------------------------------------

  function RecordAt(rt: Runtime, path: string): Option<Record> {
    if path in rt.records then Some(rt.records[path]) else None
  }

  /** A path without a record stays without a generation until its first commit. */
  lemma {:induction false} NewPathsHaveAGeneration(rt: Runtime, c: Config, steps: seq<Step>, path: string)
    requires path !in rt.records
    ensures path in Run(rt, c, steps).records ==> Run(rt, c, steps).records[path].generation != 0
    decreases |steps|
  {
    hide Apply;
    if steps != [] {
      StepAdvances(rt, c, steps[0]);
      var next := Apply(rt, c, steps[0]);
      if path in next.records {
        GenerationsIdentifyRecords(next, c, steps[1..], path);
      } else {
        NewPathsHaveAGeneration(next, c, steps[1..], path);
      }
    }
  }

  /** Seeing the same generation again, after any steps, means that the record is the same. */
  lemma SameGenerationSameRecord(rt: Runtime, c: Config, steps: seq<Step>, path: string)
    requires forall p :: p in rt.records ==> rt.records[p].generation != 0
    requires CurrentGeneration(Run(rt, c, steps), path) == CurrentGeneration(rt, path)
    ensures RecordAt(Run(rt, c, steps), path) == RecordAt(rt, path)
  {
    hide Run;
    if path in rt.records {
      GenerationsIdentifyRecords(rt, c, steps, path);
    } else {
      NewPathsHaveAGeneration(rt, c, steps, path);
    }
  }

  /**
   * A generation is read, later an evaluation or publication that expects it passes its checks, later still it
   * commits, with any steps around. Then nothing happened to the record from the read to the commit, and what is
   * committed is neither revoked nor retired.
   */
  lemma ExpectedGenerationProtects(read: Runtime, c: Config, before: seq<Step>, between: seq<Step>, q: CommitRequest)
    requires forall p :: p in read.records ==> read.records[p].generation != 0
    requires q.expected == Some(CurrentGeneration(read, q.path.id))
    requires Checked(Run(read, c, before), q)
    requires Commit(Run(Run(read, c, before), c, between), c, q).1.Committed?
    ensures RecordAt(Run(Run(read, c, before), c, between), q.path.id) == RecordAt(read, q.path.id)
    ensures RecordAt(Run(read, c, before), q.path.id) == RecordAt(read, q.path.id)
    ensures var r := Commit(Run(Run(read, c, before), c, between), c, q).0.records;
            q.path.id in r && r[q.path.id].revocation.None? && !r[q.path.id].retired
  {
    hide Run, Commit, DependenciesOf, ConstraintRefusal, ConstraintDigestOf;
    var checked := Run(read, c, before);
    var last := Run(checked, c, between);
    RunAppend(read, c, before, between);
    CommittedNotStale(last, c, q);
    SameGenerationSameRecord(read, c, before + between, q.path.id);
    SameAllAlong(read, c, before, between, q.path.id);
    CommitRecords(last, c, q);
  }

  /** For evaluate: the checks run in one state, the commit in another. */
  lemma ExpectedEvaluationProtects(
      read: Runtime, c: Config, before: seq<Step>, between: seq<Step>, w: World, p: PathDefinition,
        request: EvaluationRequest)
    requires forall x :: x in read.records ==> read.records[x].generation != 0
    requires Usable(Run(read, c, before), w) && request.expected == Some(CurrentGeneration(read, p.id))
    requires var prepared := PrepareEvaluate(Run(read, c, before), c, w, p, request);
             prepared.Ready? && Finish(Run(Run(read, c, before), c, between), c, prepared).1.committed
    ensures var last := Run(Run(read, c, before), c, between);
            RecordAt(last, p.id) == RecordAt(Run(read, c, before), p.id) == RecordAt(read, p.id)
    ensures var prepared := PrepareEvaluate(Run(read, c, before), c, w, p, request);
            var r := Finish(Run(Run(read, c, before), c, between), c, prepared).0.records;
            p.id in r && r[p.id].revocation.None? && !r[p.id].retired
  {
    hide Run, Commit, PrepareEvaluate, ProperRequest, Checked, EvidenceOf, ResolveUnderlying, InputsFor, Usable;
    EvaluateIsChecked(Run(read, c, before), c, w, p, request);
    ExpectedGenerationProtects(read, c, before, between,
      PrepareEvaluate(Run(read, c, before), c, w, p, request).request);
  }

  /** If a record is the same at the end it was the same in the middle. */
  lemma SameAllAlong(rt: Runtime, c: Config, a: seq<Step>, b: seq<Step>, path: string)
    requires forall p :: p in rt.records ==> rt.records[p].generation != 0
    requires RecordAt(Run(Run(rt, c, a), c, b), path) == RecordAt(rt, path)
    ensures RecordAt(Run(rt, c, a), path) == RecordAt(rt, path)
  {
    hide Run;
    if path in rt.records {
      GenerationsIdentifyRecords(rt, c, a, path);
      GenerationsIdentifyRecords(Run(rt, c, a), c, b, path);
    } else if path in Run(rt, c, a).records {
      GenerationsIdentifyRecords(Run(rt, c, a), c, b, path);
    }
  }

  /** An expectation that no longer holds is refused and changes nothing. */
  lemma StaleExpectationIsRefused(rt: Runtime, c: Config, q: CommitRequest)
    requires q.expected.Some? && q.expected.value != CurrentGeneration(rt, q.path.id)
    ensures Commit(rt, c, q).0 == rt && Commit(rt, c, q).1.Refused?
  {
    hide StaleEvidence, Replays, Unfile, Store, NewRecord, RememberAttempt;
  }

  // ---- without it ----------------------------------------------------------------------------------

  /** The guards of commit, in the state it runs in. */
  predicate CommitWrites(rt: Runtime, c: Config, q: CommitRequest) {
    var found := q.path.id in rt.records;
    && (found || |rt.records| < c.limits.maxPaths) && !StaleEvidence(rt.watermarks, q.evidence)
    && (q.expected.Some? ==> q.expected.value == CurrentGeneration(rt, q.path.id))
    && !(found && c.idempotentReplay && rt.records[q.path.id].authorityDigest == q.authorityDigest)
    && CurrentGeneration(rt, q.path.id) < U64_MAX
  }

  /**
   * Commit looks at neither revocations nor retirements: an authorizing decision overwrites a revocation that
   * slipped in after its checks exactly when the guards of commit let it write. An expected generation is one of
   * them, and the digest of a revoked record never makes it a replay.
   */
  lemma UnexpectedCommitOverwritesRevocation(rt: Runtime, c: Config, q: CommitRequest, revocation: RevokeRequest,
      epoch: u64)
    requires ProperRequest(q) && AuthorizingState(q.state)
    requires q.path.id in rt.records && Revoke(rt, q.path.id, revocation, epoch, c.limits).1.Applied?
    ensures var revoked := Revoke(rt, q.path.id, revocation, epoch, c.limits).0;
            var r := Commit(revoked, c, q).0.records;
            && q.path.id in r && r[q.path.id].revocation.Some?
            && (AuthorizingState(r[q.path.id].state) <==>
                  && !StaleEvidence(rt.watermarks, q.evidence) && rt.records[q.path.id].generation + 1 < U64_MAX
                  && (q.expected.Some? ==> q.expected.value == rt.records[q.path.id].generation + 1))
            && (AuthorizingState(r[q.path.id].state) <==> CommitWrites(revoked, c, q))
  {
    hide StaleEvidence, DependenciesOf, Codes, Scalar, SameRevocation, PathDigestOf, Canonical, Commit;
    var revoked := Revoke(rt, q.path.id, revocation, epoch, c.limits).0;
    assert revoked.records[q.path.id].authorityDigest.state == AuthorityState.Revoked;
    assert q.authorityDigest.state == q.state;
    CommitOutcomes(revoked, c, q);
    CommitRecords(revoked, c, q);
  }

  /** The request that the two publications of the race commit. */
  function Racer(): CommitRequest { CommitFor(SomePath("p", ""), AuthorizedOutcome, AnyRequest()) }

  function SomeRevocation(): RevokeRequest { RevokeRequest("", 2, "", "", None, true) }

  /**
   * The race with concrete inputs: a publication commits; the same publication passes its checks again; the path is
   * revoked; the second publication commits, and the revoked path is authorized.
   */
  lemma RevokedAuthorityIsReachable(c: Config)
    requires c.limits == SomeLimits()
    ensures var p, d := SomePath("p", ""), DecisionFor(SomePath("p", ""), AuthorizedOutcome);
            var first := Commit(WithSet(), c, Racer()).0;
            var revoked := Revoke(first, "p", SomeRevocation(), 1, c.limits).0;
            var last := Commit(revoked, c, Racer()).0;
            && PreparePublish(WithSet(), c, p, d, AnyRequest(), SomePolicy(), 1) == Ready(Racer())
            && PreparePublish(first, c, p, d, AnyRequest(), SomePolicy(), 1) == Ready(Racer())
            && "p" in last.records && AuthorizingState(last.records["p"].state) && last.records["p"].revocation.Some?
  {
    hide Commit, Revoke, DependenciesOf, PreparePublish, DecisionFor, CommitFor, ProperRequest, Checked, SomeSet,
      SomePolicy;
    var p := SomePath("p", "");
    var first := Commit(WithSet(), c, Racer()).0;
    SomePathIsShaped("p", "", c.limits);
    DecisionIsReady(WithSet(), c, p, AuthorizedOutcome, AnyRequest());
    DecisionCommits(WithSet(), c, p, AuthorizedOutcome, AnyRequest());
    DecisionIsReady(first, c, p, AuthorizedOutcome, AnyRequest());
    RacerFacts();
    SecondRevoke(first, c);
    NotStale(first);
    UnexpectedCommitOverwritesRevocation(first, c, Racer(), SomeRevocation(), 1);
  }

  lemma RacerFacts()
    ensures Racer().path == SomePath("p", "") && Racer().state == Authorized && Racer().expected == None
    ensures Racer().evidence == SomeEvidence()
  {
    hide ConstraintDigestOf, PathDigestOf, InputDigestOf, AuthorityDigestOf;
  }

  lemma SecondRevoke(rt: Runtime, c: Config)
    requires c.limits == SomeLimits() && "p" in rt.records && rt.records["p"].generation == 1
             && rt.records["p"].revocation.None?
    ensures Revoke(rt, "p", SomeRevocation(), 1, c.limits).1.Applied?
  {
    hide RevokedRecord;
  }

  // ---- a registration in between --------------------------------------------------------------------

  /** The path authorizes under a generation of its set that is not the registered one. */
  predicate AuthorizesOutdated(rt: Runtime, p: string) {
    p in rt.records && AuthorizingState(rt.records[p].state) && !BindsCurrentSet(rt.sets, rt.records[p].definition)
  }

  /**
   * An authorizing decision is checked, another generation of its set is registered, and the decision commits. The
   * path then authorizes under the previous generation exactly when the guards of commit let it write; none of them
   * looks at the set. The path's own generation must not have been exhausted before.
   */
  lemma LateCommitBindsTheOldSet(rt: Runtime, c: Config, q: CommitRequest, s: ConstraintSet)
    requires AllClean(rt) && Checked(rt, q) && AuthorizingState(q.state)
    requires s.id == q.path.constraintSet && s.generation != q.path.constraintGeneration
    requires CurrentGeneration(rt, q.path.id) < U64_MAX
    ensures AuthorizesOutdated(Commit(StoreSet(rt, s), c, q).0, q.path.id) <==> CommitWrites(StoreSet(rt, s), c, q)
  {
    hide Commit, DependenciesOf, StoreSet, StaleEvidence, Checked, ConstraintDigestOf;
    var stored := StoreSet(rt, s);
    StoredSets(rt, s);
    CommitOutcomes(stored, c, q);
    CommitRecords(stored, c, q);
    if q.path.id in rt.records { RegisteredSetIsBound(rt, s, q.path.id); }
  }

  lemma StoredSets(rt: Runtime, s: ConstraintSet)
    ensures StoreSet(rt, s).sets == rt.sets[s.id := s] && StoreSet(rt, s).records.Keys == rt.records.Keys
  {
    hide Mark;
  }

  /** Right after a registration nothing that was clean authorizes outdated. */
  lemma RegisteredSetIsBound(rt: Runtime, s: ConstraintSet, p: string)
    requires AllClean(rt) && p in rt.records && rt.records[p].generation < U64_MAX
    ensures !AuthorizesOutdated(StoreSet(rt, s), p)
  {
    hide Mark, Consistent;
    MarkedQuiet(rt.records[p]);
  }

  /** With concrete inputs: the set is registered anew between the checks and the commit. */
  lemma OutdatedAuthorityIsReachable(c: Config)
    requires c.limits == SomeLimits()
    ensures var p, d := SomePath("p", ""), DecisionFor(SomePath("p", ""), AuthorizedOutcome);
            var registered := StoreSet(WithSet(), SomeSet().(generation := 2, maxHops := 5));
            && PreparePublish(WithSet(), c, p, d, AnyRequest(), SomePolicy(), 1) == Ready(Racer())
            && Register(WithSet(), SomeSet().(maxHops := 5), c.limits).0 == registered
            && AuthorizesOutdated(Commit(registered, c, Racer()).0, "p")
  {
    hide Commit, DependenciesOf, PreparePublish, DecisionFor, CommitFor, ProperRequest, Checked, SomePolicy, StoreSet,
      Register;
    var p := SomePath("p", "");
    var s := SomeSet().(generation := 2, maxHops := 5);
    SomePathIsShaped("p", "", c.limits);
    DecisionIsReady(WithSet(), c, p, AuthorizedOutcome, AnyRequest());
    RacerFacts();
    StoredSets(WithSet(), s);
    SecondRegistration(c);
    StoredWatermarks(WithSet(), s);
    NotStale(StoreSet(WithSet(), s));
    WithSetIsClean();
    LateCommitBindsTheOldSet(WithSet(), c, Racer(), s);
  }

  lemma StoredWatermarks(rt: Runtime, s: ConstraintSet)
    ensures StoreSet(rt, s).watermarks == rt.watermarks
  {
    hide MarkWhere, AffectedBy;
  }

  lemma WithSetIsClean()
    ensures AllClean(WithSet())
  {
  }

  lemma SecondRegistration(c: Config)
    requires c.limits == SomeLimits()
    ensures Register(WithSet(), SomeSet().(maxHops := 5), c.limits).0 ==
              StoreSet(WithSet(), SomeSet().(generation := 2, maxHops := 5))
  {
    hide StoreSet, AffectedBy;
    var before := WithSet().sets["c"];
    assert CanonicalSet(before).maxHops == 0 && CanonicalSet(SomeSet().(maxHops := 5)).maxHops == 5;
  }

  // ---- computed evidence in any interleaving ---------------------------------------------------------

  predicate RecordsFiled(rt: Runtime) {
    forall p :: p in rt.records ==> StructureFiled(rt.records[p].dependencies, rt.records[p].definition)
  }

  lemma StepFiled(rt: Runtime, c: Config, s: Step)
    requires RecordsFiled(rt)
    ensures RecordsFiled(Apply(rt, c, s))
  {
    hide Commit, Invalidate, LosePublisher, Revoke, Retire, StructureFiled, DependenciesOf, Authorizing;
    if s.Decide? {
      CommitRecords(rt, c, s.request);
      DependenciesFileStructure(s.request.path, rt.sets, s.request.policy, c.limits);
    } else {
      StepFrames(rt, c, s);
    }
  }

  lemma {:induction false} RunFiled(rt: Runtime, c: Config, steps: seq<Step>)
    requires RecordsFiled(rt)
    ensures RecordsFiled(Run(rt, c, steps))
    decreases |steps|
  {
    hide Apply, RecordsFiled;
    if steps != [] {
      StepFiled(rt, c, steps[0]);
      RunFiled(Apply(rt, c, steps[0]), c, steps[1..]);
    }
  }

  /** The computed evidence that every commit files: all but domain entries and re-registered capabilities. */
  predicate Protected(i: Inputs, d: Dependencies, e: EvidenceEntry) {
    && (e.kind == FailureDomain ==> exists r :: r in RefsOf(i.path.hops) && e.subject == MembershipSubject(r))
    && (e.kind == Capability ==> CapabilitiesFiled(d, i))
  }

  /**
   * Evaluations read and commit in separate steps, interleaved in any way with each other, with publications and
   * with every other operation. A record that still authorizes, and whose evidence an evaluation computed for its
   * definition, binds for each protected entry a generation no lower than any announced for that subject in the
   * whole run.
   */
  lemma ComputedAuthorityIsNeverOutdated(c: Config, steps: seq<Step>, p: string, i: Inputs, e: EvidenceEntry,
      announcement: Step)
    requires forall s :: s in steps ==> ProperStep(s)
    requires var rt := Run(EmptyRuntime(), c, steps);
             && p in rt.records && Authorizing(rt.records[p]) && rt.records[p].generation < U64_MAX
             && rt.records[p].definition == i.path && rt.records[p].evidence == EvidenceOf(i)
             && e in EvidenceOf(i) && Protected(i, rt.records[p].dependencies, e)
    requires i.path.underlying.Some? ==> i.path.underlying.value.path != ""
    requires announcement in steps && announcement.Notice? && SubjectOf(announcement.invalidation) == KeyOf(e)
    ensures e.generation >= announcement.invalidation.generation
  {
    hide Run, ProperStep, Covered, SubjectOf, Authorizing, EvidenceOf, StructureFiled, CapabilitiesFiled, RefsOf;
    var rt := Run(EmptyRuntime(), c, steps);
    RunFiled(EmptyRuntime(), c, steps);
    var d := rt.records[p].dependencies;
    if e.kind == FailureDomain {
      var r :| r in RefsOf(i.path.hops) && e.subject == MembershipSubject(r);
      OwnMembershipIsCovered(i, d, r);
    } else {
      ComputedEvidenceIsCovered(i, d, e);
    }
    AuthorityIsNeverOutdated(c, steps, p, e, announcement);
  }

  /** Committing under the set and policy that were read files the capabilities; re-registration in between may not. */
  lemma CapabilitiesFiledUnderTheSameSet(i: Inputs, sets: map<string, ConstraintSet>)
    requires i.path.constraintSet in sets && sets[i.path.constraintSet] == i.constraints
    ensures CapabilitiesFiled(DependenciesOf(i.path, sets, i.policy, i.limits), i)
  {
    hide CapabilityPairs, RefsOf;
  }
}
