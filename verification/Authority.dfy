/** What an authorizing record guarantees when operations run one at a time, restarts included. */
module Authority {
  import opened Base
  import opened Model
  import opened Evidence
  import opened RuntimeState
  import opened RuntimeRuns
  import opened Publication
  import opened Recovery
  import opened Evaluation

  /** A whole operation; a decision is prepared and committed in one state. */
  datatype Operation =
    | Decision(request: CommitRequest)
    | Notice(invalidation: Invalidation)
    | Lose(publisher: string, boot: string)
    | Registration(constraints: ConstraintSet)
    | Revocation(path: string, revocation: RevokeRequest, epoch: u64)
    | Retirement(path: string)
    | Restart(exportEpoch: u64, exportPolicy: PolicySet, livePolicy: PolicySet, newProcess: bool)

  /** A decision that was not prepared in this state, and an image that does not import, change nothing. */
  function Perform(rt: Runtime, c: Config, o: Operation): Runtime {
    match o
    case Decision(q) => if ProperRequest(q) && Checked(rt, q) then Commit(rt, c, q).0 else rt
    case Notice(i) => Invalidate(rt, i)
    case Lose(publisher, boot) => LosePublisher(rt, publisher, boot)
    case Registration(s) => Register(rt, s, c.limits).0
    case Revocation(path, q, epoch) => Revoke(rt, path, q, epoch, c.limits).0
    case Retirement(path) => Retire(rt, path).0
    case Restart(epoch, policy, livePolicy, newProcess) =>
      var r := Recovery.Restart(rt, if newProcess then EmptyRuntime() else rt, epoch, policy, livePolicy, c.limits);
      if r.Some? then r.value else rt
  }

  function PerformAll(rt: Runtime, c: Config, os: seq<Operation>): Runtime
    decreases |os|
  {
    if os == [] then rt else PerformAll(Perform(rt, c, os[0]), c, os[1..])
  }

  predicate BindsCurrentSet(sets: map<string, ConstraintSet>, d: PathDefinition) {
    d.constraintSet in sets && sets[d.constraintSet].generation == d.constraintGeneration
  }

  /** An authorizing record is not revoked, not retired, and bound to the registered generation of its set. */
  predicate Clean(rt: Runtime, r: Record) {
    Authorizing(r) ==>
      && r.revocation.None? && !r.retired
      && (r.generation < U64_MAX ==> BindsCurrentSet(rt.sets, r.definition))
  }

  predicate AllClean(rt: Runtime) {
    RecordsConsistent(rt) && forall p :: p in rt.records ==> Clean(rt, rt.records[p])
  }

  lemma FramedClean(rt: Runtime, rt': Runtime)
    requires AllClean(rt) && rt'.sets == rt.sets && RecordsConsistent(rt') && rt'.records.Keys == rt.records.Keys
    requires forall p :: p in rt.records ==> Rewritten(rt.records[p], rt'.records[p])
    ensures AllClean(rt')
  {
    hide Rewritten, Authorizing, Consistent, BindsCurrentSet;
    forall p | p in rt.records ensures Clean(rt', rt'.records[p]) { RewrittenFrames(rt.records[p], rt'.records[p]); }
  }

  lemma DecisionClean(rt: Runtime, c: Config, q: CommitRequest)
    requires AllClean(rt) && ProperRequest(q) && Checked(rt, q)
    ensures AllClean(Commit(rt, c, q).0)
  {
    hide Commit, Consistent, ProperRequest, Authorizing, DependenciesOf, ConstraintDigestOf;
    CommitSound(rt, c, q);
    CommitRecords(rt, c, q);
  }

  /** Every record of the set that does not bind the new generation is marked with the registration. */
  lemma StoreSetClean(rt: Runtime, s: ConstraintSet)
    requires AllClean(rt)
    ensures AllClean(StoreSet(rt, s))
  {
    hide Mark, Authorizing, Consistent;
    forall p | p in rt.records
      ensures StoreSet(rt, s).records[p].definition == rt.records[p].definition
      ensures Consistent(StoreSet(rt, s).records[p]) && Clean(StoreSet(rt, s), StoreSet(rt, s).records[p])
    {
      var r := rt.records[p];
      MarkSound(r);
      RewrittenFrames(r, Mark(r));
      MarkedQuiet(r);
    }
  }

  lemma MarkedQuiet(r: Record)
    requires Consistent(r)
    ensures r.generation < U64_MAX ==> !Authorizing(Mark(r))
    ensures r.generation == U64_MAX ==> Mark(r) == r
  {
    hide AuthorityDigestOf, Canonical;
  }

  lemma RegistrationClean(rt: Runtime, s: ConstraintSet, limits: Limits)
    requires AllClean(rt)
    ensures AllClean(Register(rt, s, limits).0)
  {
    hide AllClean, RegistrableSet, ConstraintDigestOf, StoreSet, AffectedBy;
    if NextSetGeneration(rt, s.id) <= U64_MAX { StoreSetClean(rt, s.(generation := NextSetGeneration(rt, s.id))); }
  }

  lemma RestartClean(rt: Runtime, into: Runtime, epoch: u64, policy: PolicySet, livePolicy: PolicySet, limits: Limits)
    requires AllClean(rt) && Recovery.Restart(rt, into, epoch, policy, livePolicy, limits).Some?
    ensures AllClean(Recovery.Restart(rt, into, epoch, policy, livePolicy, limits).value)
  {
    hide Recovery.Restart, Authorizing, Consistent;
    RestartConsistent(rt, into, epoch, policy, livePolicy, limits);
    RestartKeys(rt, into, epoch, policy, livePolicy, limits);
  }

  lemma StepClean(rt: Runtime, c: Config, s: Step)
    requires AllClean(rt) && !s.Decide? && !s.PutSet?
    ensures AllClean(Apply(rt, c, s))
  {
    hide Rewritten, Clean, Consistent, Mark, Candidates, Bound, SameRevocation, RevokedRecord, RetiredRecord,
      PublishedBy;
    StepRewrites(rt, c, s);
    StepSound(rt, c, s);
    FramedClean(rt, Apply(rt, c, s));
  }

  lemma OperationClean(rt: Runtime, c: Config, o: Operation)
    requires AllClean(rt)
    ensures AllClean(Perform(rt, c, o))
  {
    hide AllClean, Commit, Checked, ProperRequest, Register, Recovery.Restart, Invalidate, LosePublisher, Revoke,
      Retire;
    match o
    case Decision(q) => if ProperRequest(q) && Checked(rt, q) { DecisionClean(rt, c, q); }
    case Notice(i) => StepClean(rt, c, Step.Notice(i));
    case Lose(publisher, boot) => StepClean(rt, c, Step.Lose(publisher, boot));
    case Registration(s) => RegistrationClean(rt, s, c.limits);
    case Revocation(path, q, epoch) => StepClean(rt, c, RevokePath(path, q, epoch));
    case Retirement(path) => StepClean(rt, c, RetirePath(path));
    case Restart(epoch, policy, livePolicy, newProcess) =>
      var into := if newProcess then EmptyRuntime() else rt;
      if Recovery.Restart(rt, into, epoch, policy, livePolicy, c.limits).Some? {
        RestartClean(rt, into, epoch, policy, livePolicy, c.limits);
      }
  }

  /**
   * In every state that whole operations reach from an empty runtime: an authorizing record has no revocation,
   * is not retired, is in the state of its outcome, and binds the registered generation of its constraint set
   * (the last while its own generation can still advance).
   */
  lemma {:induction false} OperationsKeepAuthorityClean(rt: Runtime, c: Config, os: seq<Operation>)
    requires AllClean(rt)
    ensures AllClean(PerformAll(rt, c, os))
    ensures var rt' := PerformAll(rt, c, os);
            forall p :: p in rt'.records && AuthorizingState(rt'.records[p].state) ==>
              var r := rt'.records[p];
              r.state == StateForOutcome(r.outcome) && AuthorizingOutcome(r.outcome)
              && r.revocation.None? && !r.retired
              && (r.generation < U64_MAX ==> BindsCurrentSet(rt'.sets, r.definition))
    decreases |os|
  {
    hide Perform, BindsCurrentSet, Canonical;
    if os != [] {
      OperationClean(rt, c, os[0]);
      OperationsKeepAuthorityClean(Perform(rt, c, os[0]), c, os[1..]);
    }
  }

  lemma EmptyClean()
    ensures AllClean(EmptyRuntime())
  {
  }

  // ---- revocation and retirement are final ------------------------------------------------------

  /** A revocation or a retirement is on record. */
  predicate Barred(rt: Runtime, p: string) {
    p in rt.records && (rt.records[p].revocation.Some? || rt.records[p].retired)
  }

  lemma StepKeepsBarred(rt: Runtime, c: Config, s: Step, p: string)
    requires Barred(rt, p)
    ensures Barred(Apply(rt, c, s), p)
  {
    hide Apply, DependenciesOf, Authorizing;
    if s.Decide? { CommitBars(rt, c, s.request, p); } else { StepFrames(rt, c, s); }
  }

  lemma CommitBars(rt: Runtime, c: Config, q: CommitRequest, p: string)
    requires Barred(rt, p)
    ensures Barred(Commit(rt, c, q).0, p) && Apply(rt, c, Step.Decide(q)) == Commit(rt, c, q).0
  {
    hide Commit, DependenciesOf;
    CommitRecords(rt, c, q);
  }

  lemma RegistrationKeepsBarred(rt: Runtime, s: ConstraintSet, limits: Limits, p: string)
    requires Barred(rt, p)
    ensures Barred(Register(rt, s, limits).0, p)
  {
    hide RegistrableSet, ConstraintDigestOf, Mark, AffectedBy;
    RewrittenFrames(rt.records[p], Mark(rt.records[p]));
  }

  lemma RestartKeepsBarred(rt: Runtime, into: Runtime, epoch: u64, policy: PolicySet, livePolicy: PolicySet,
      limits: Limits, p: string)
    requires Barred(rt, p) && Recovery.Restart(rt, into, epoch, policy, livePolicy, limits).Some?
    ensures Barred(Recovery.Restart(rt, into, epoch, policy, livePolicy, limits).value, p)
  {
    hide Recovery.Restart, Recover;
    RestartRecord(rt, into, epoch, policy, livePolicy, limits, p);
    RestartKeys(rt, into, epoch, policy, livePolicy, limits);
    RecoverRecord(ExportRecord(rt.records[p]), rt.sets, livePolicy, limits);
  }

  lemma OperationKeepsBarred(rt: Runtime, c: Config, o: Operation, p: string)
    requires Barred(rt, p)
    ensures Barred(Perform(rt, c, o), p)
  {
    hide Barred, Commit, Checked, ProperRequest, Register, Recovery.Restart, Invalidate, LosePublisher, Revoke,
      Retire;
    match o
    case Decision(q) => CommitBars(rt, c, q, p);
    case Notice(i) => StepKeepsBarred(rt, c, Step.Notice(i), p);
    case Lose(publisher, boot) => StepKeepsBarred(rt, c, Step.Lose(publisher, boot), p);
    case Registration(s) => RegistrationKeepsBarred(rt, s, c.limits, p);
    case Revocation(path, q, epoch) => StepKeepsBarred(rt, c, RevokePath(path, q, epoch), p);
    case Retirement(path) => StepKeepsBarred(rt, c, RetirePath(path), p);
    case Restart(epoch, policy, livePolicy, newProcess) =>
      var into := if newProcess then EmptyRuntime() else rt;
      if Recovery.Restart(rt, into, epoch, policy, livePolicy, c.limits).Some? {
        RestartKeepsBarred(rt, into, epoch, policy, livePolicy, c.limits, p);
      }
  }

  /**
   * Whatever operations follow a revocation or a retirement, restarts included, the path keeps its mark and never
   * authorizes again; its state may become REVALIDATION_REQUIRED.
   */
  lemma {:induction false} BarredNeverAuthorizesAgain(rt: Runtime, c: Config, os: seq<Operation>, p: string)
    requires AllClean(rt) && Barred(rt, p)
    ensures Barred(PerformAll(rt, c, os), p) && !Authorizing(PerformAll(rt, c, os).records[p])
    decreases |os|
  {
    hide Perform, Consistent, BindsCurrentSet;
    if os != [] {
      OperationKeepsBarred(rt, c, os[0], p);
      OperationClean(rt, c, os[0]);
      BarredNeverAuthorizesAgain(Perform(rt, c, os[0]), c, os[1..], p);
    }
  }

  // ---- the operations are decisions, and the exception ------------------------------------------

  /** Evaluated or published, a whole operation is a checked decision or changes nothing. */
  lemma EvaluateIsAnOperation(rt: Runtime, c: Config, w: World, p: PathDefinition, request: EvaluationRequest)
    requires Usable(rt, w)
    ensures Evaluate(rt, c, w, p, request).0 == rt
            || exists q :: Evaluate(rt, c, w, p, request).0 == Perform(rt, c, Operation.Decision(q))
  {
    hide PrepareEvaluate, Commit, ProperRequest, Checked, Usable;
    if PrepareEvaluate(rt, c, w, p, request).Ready? {
      EvaluateIsChecked(rt, c, w, p, request);
      assert Evaluate(rt, c, w, p, request).0 ==
        Perform(rt, c, Operation.Decision(PrepareEvaluate(rt, c, w, p, request).request));
    }
  }

  lemma PublishIsAnOperation(rt: Runtime, c: Config, p: PathDefinition, d: Publication.Decision,
      request: EvaluationRequest, policy: PolicySet, epoch: u64)
    ensures Publish(rt, c, p, d, request, policy, epoch).0 == rt
            || exists q :: Publish(rt, c, p, d, request, policy, epoch).0 == Perform(rt, c, Operation.Decision(q))
  {
    hide PreparePublish, Commit, ProperRequest, Checked;
    if PreparePublish(rt, c, p, d, request, policy, epoch).Ready? {
      PublishIsChecked(rt, c, p, d, request, policy, epoch);
      assert Publish(rt, c, p, d, request, policy, epoch).0
             == Perform(rt, c, Operation.Decision(PreparePublish(rt, c, p, d, request, policy, epoch).request));
    }
  }

  /**
   * An authorizing record outlives the registration of another generation of its set exactly when its own
   * generation is the last, where marking does nothing.
   */
  lemma ExhaustedAuthorityOutlivesItsSet(rt: Runtime, s: ConstraintSet, limits: Limits, p: string)
    requires RecordsConsistent(rt) && p in rt.records && Authorizing(rt.records[p])
    requires rt.records[p].definition.constraintSet == s.id && BindsCurrentSet(rt.sets, rt.records[p].definition)
    requires Register(rt, s, limits).1.Created?
    ensures var rt' := Register(rt, s, limits).0;
            && p in rt'.records
            && (Authorizing(rt'.records[p]) <==> rt.records[p].generation == U64_MAX)
            && (Authorizing(rt'.records[p]) ==>
                  rt'.records[p] == rt.records[p] && !BindsCurrentSet(rt'.sets, rt'.records[p].definition))
  {
    hide RegistrableSet, ConstraintDigestOf, Mark, Consistent, Authorizing;
    MarkedQuiet(rt.records[p]);
  }
}
