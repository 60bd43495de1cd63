/** What every stored image satisfies, and so exactly when a coordinator cannot start again. */
module CoordinatorImages {
  import opened Base
  import opened Model
  import opened Evidence
  import opened RuntimeState
  import opened RuntimeRuns
  import opened Publication
  import opened Recovery
  import opened Evaluation
  import opened Coordinator
  import opened StoreImages
  import opened Reads
  import DurableCodec
  import PathCodec
  import Distribution
  import PathShape
  import Requirements
  import Views

  // ---- the invariant -----------------------------------------------------------------------------

  /**
   * The path is well shaped and its constraint set registered, and its evidence names epoch and policy if the limits
   * leave room for both.
   */
  predicate WellKept(d: PathDefinition, evidence: seq<EvidenceEntry>, sets: map<string, ConstraintSet>,
      limits: Limits) {
    && PathShape.Shape(d, limits, false) == PathShape.Valid && d.constraintSet in sets
    && (limits.maxDependenciesPerPath >= 2 ==> ValidEvidence(evidence))
  }

  predicate SetsStorable(sets: map<string, ConstraintSet>, limits: Limits) {
    forall s :: s in sets ==> sets[s].id == s && ImportableSet(sets[s], limits)
  }

  predicate Storable(rt: Runtime, limits: Limits) {
    && SetsStorable(rt.sets, limits) && RecordsConsistent(rt)
    && forall p :: p in rt.records ==> WellKept(rt.records[p].definition, rt.records[p].evidence, rt.sets, limits)
  }

  predicate StorableRecord(d: Durable, p: string, limits: Limits)
    requires p in d.records
  {
    var r := d.records[p];
    && r.definition.id == p && r.generation != 0 && r.state == StateForOutcome(r.outcome) && Canonical(r.evidence)
    && WellKept(r.definition, r.evidence, d.sets, limits)
  }

  predicate BootIds(boots: set<string>) {
    forall b :: b in boots ==> PathCodec.IdentityText(b, DurableCodec.BOOT_LENGTH)
  }

  predicate ImageStorable(d: Durable, limits: Limits) {
    && d.epoch != 0 && |d.records| <= limits.maxStoreRecords && BootIds(d.fenced)
    && SetsStorable(d.sets, limits) && forall p :: p in d.records ==> StorableRecord(d, p, limits)
  }

  predicate AllStorable(k: Coordinator, limits: Limits) {
    && Storable(k.rt, limits) && BootIds(k.fenced) && BootIds(k.workers.Keys)
    && (k.image.Some? ==> ImageStorable(k.image.value.state, limits))
  }

  // ---- the operations write nothing else -----------------------------------------------------------

  lemma ShapeWithoutBinding(p: PathDefinition, limits: Limits, bindIdentity: bool)
    requires PathShape.Shape(p, limits, bindIdentity) == PathShape.Valid
    ensures PathShape.Shape(p, limits, false) == PathShape.Valid
  {
    hide PathShape.HopsStatus, PathShape.EndsPaired, PathShape.LoopFree, PathShape.UnderlyingStatus,
      PathShape.ValidLimits, PathShape.PathCodec.IdentityBinds;
  }

  lemma EvaluateIsVetted(rt: Runtime, c: Config, w: World, p: PathDefinition, request: EvaluationRequest)
    requires Usable(rt, w) && PrepareEvaluate(rt, c, w, p, request).Ready?
    ensures Vetted(rt, c.limits, Step.Decide(PrepareEvaluate(rt, c, w, p, request).request))
  {
    hide DecisionOf, EvidenceOf, ResolveUnderlying, ResolvePeers, PathShape.Shape, PathShape.WellShaped,
      ProperRequest, Checked, ValidEvidence, Usable, PrepareEvaluate, InputsFor;
    EvaluateIsChecked(rt, c, w, p, request);
    ReadyMeans(rt, c, w, p, request);
    PathShape.ShapeMeaning(p, c.limits, request.requireIdentityBinding);
    ShapeWithoutBinding(p, c.limits, request.requireIdentityBinding);
    var i := InputsFor(rt, c.limits, w, p, ResolveUnderlying(rt, p, c.limits).value);
    InputsLimits(rt, c.limits, w, p, ResolveUnderlying(rt, p, c.limits).value);
    if c.limits.maxDependenciesPerPath >= 2 { Distribution.ComputedScalars(i); }
  }

  lemma InputsLimits(rt: Runtime, limits: Limits, w: World, p: PathDefinition, chain: Views.Chain)
    requires p.constraintSet in rt.sets
    ensures InputsFor(rt, limits, w, p, chain).limits == limits
  {
  }

  lemma PublishIsVetted(rt: Runtime, c: Config, path: PathDefinition, d: Decision, request: EvaluationRequest,
      policy: PolicySet, epoch: u64)
    requires PreparePublish(rt, c, path, d, request, policy, epoch).Ready?
    ensures Vetted(rt, c.limits, Step.Decide(PreparePublish(rt, c, path, d, request, policy, epoch).request))
  {
    hide PathShape.Shape, ProperRequest, Checked, ValidEvidence, AuthorityDigestOf, PathDigestOf, ConstraintDigestOf,
      InputDigestOf, StateForOutcome, Scalar;
    PublishIsChecked(rt, c, path, d, request, policy, epoch);
    ShapeWithoutBinding(path, c.limits, request.requireIdentityBinding);
  }

  lemma RegisterIsVetted(rt: Runtime, s: ConstraintSet, limits: Limits)
    requires Register(rt, s, limits).1.Created?
    ensures Vetted(rt, limits, Step.PutSet(s.(generation := Register(rt, s, limits).1.generation)))
  {
    hide ConstraintDigestOf, StoreSet, AffectedBy;
  }

  /** The publication of a decision is the commit of a vetted request under the sender's identity, or nothing. */
  lemma PublishIsStep(rt: Runtime, c: Config, path: PathDefinition, d: Decision, request: EvaluationRequest,
      policy: PolicySet, epoch: u64)
    ensures var rt' := Publish(rt, c, path, d, request, policy, epoch).0;
            rt' == rt || exists q :: Vetted(rt, c.limits, Step.Decide(q)) && q.workerBoot == request.workerBoot
                                     && q.publisher == request.publisher && rt' == Apply(rt, c, Step.Decide(q))
  {
    hide PreparePublish, Commit, ProperRequest, Checked, Vetted;
    var prepared := PreparePublish(rt, c, path, d, request, policy, epoch);
    if prepared.Ready? {
      PublishIsChecked(rt, c, path, d, request, policy, epoch);
      PublishIsVetted(rt, c, path, d, request, policy, epoch);
      assert Publish(rt, c, path, d, request, policy, epoch).0 == Apply(rt, c, Step.Decide(prepared.request));
    }
  }

  lemma RevokeIsStep(rt: Runtime, c: Config, path: string, q: RevokeRequest, epoch: u64)
    ensures Revoke(rt, path, q, epoch, c.limits).0 == Apply(rt, c, Step.RevokePath(path, q, epoch))
  {
    hide Revoke;
  }

  // ---- every message keeps the invariant --------------------------------------------------------------

  lemma StepStorable(rt: Runtime, c: Config, step: Step)
    requires Storable(rt, c.limits) && Vetted(rt, c.limits, step)
    ensures Storable(Apply(rt, c, step), c.limits)
  {
    hide WellKept, SetsStorable, RecordsConsistent, Apply;
    SetsAfter(rt, c, step);
    RecordsConsistentAfter(rt, c, step);
    RecordsKeptAfter(rt, c, step);
  }

  lemma RecordsConsistentAfter(rt: Runtime, c: Config, step: Step)
    requires RecordsConsistent(rt) && Vetted(rt, c.limits, step)
    ensures RecordsConsistent(Apply(rt, c, step))
  {
    hide Apply, RecordsConsistent, PathShape.Shape, ValidEvidence, ProperRequest, RegistrableSet;
    StepSound(rt, c, step);
  }

  lemma SetsAfter(rt: Runtime, c: Config, step: Step)
    requires SetsStorable(rt.sets, c.limits) && Vetted(rt, c.limits, step)
    ensures SetsStorable(Apply(rt, c, step).sets, c.limits)
  {
    hide Commit, Mark, Requirements.ValidRequirement, PathShape.Shape, ProperRequest, ValidEvidence, RevokedRecord,
      RetiredRecord;
    if step.Decide? { CommitRecords(rt, c, step.request); }
  }

  lemma RecordsKeptAfter(rt: Runtime, c: Config, step: Step)
    requires forall p :: p in rt.records ==>
               WellKept(rt.records[p].definition, rt.records[p].evidence, rt.sets, c.limits)
    requires Vetted(rt, c.limits, step)
    ensures var rt' := Apply(rt, c, step);
            forall p :: p in rt'.records ==>
              WellKept(rt'.records[p].definition, rt'.records[p].evidence, rt'.sets, c.limits)
  {
    hide Commit, Invalidate, LosePublisher, Revoke, Retire, DependenciesOf, Authorizing, PathShape.Shape,
      ValidEvidence, ProperRequest, RegistrableSet;
    if step.Decide? {
      CommitRecords(rt, c, step.request);
    } else {
      StepFrames(rt, c, step);
      SetsGrow(rt, c, step);
    }
  }

  /** No step removes a constraint set. */
  lemma SetsGrow(rt: Runtime, c: Config, step: Step)
    ensures rt.sets.Keys <= Apply(rt, c, step).sets.Keys
  {
    hide Commit, Mark, RevokedRecord, RetiredRecord;
    if step.Decide? { CommitRecords(rt, c, step.request); }
  }

  lemma PersistStorable(k: Coordinator, limits: Limits)
    requires AllStorable(k, limits)
    ensures AllStorable(Persist(k, limits), limits)
  {
    hide WellKept, SetsStorable, StateForOutcome, Canonical, PathCodec.IdentityText, ImageSize;
    var d := ImageOf(k).state;
    if Writable(ImageOf(k), limits) {
      forall p | p in d.records ensures StorableRecord(d, p, limits) {
        assert d.records[p] == ExportRecord(k.rt.records[p]);
      }
    }
  }

  lemma PublishStorable(k: Coordinator, s: Settings, connection: nat, m: PublishMessage)
    requires AllStorable(k, s.runtime.limits)
    ensures AllStorable(HandlePublish(k, s, connection, m).0, s.runtime.limits)
  {
    hide Publish, Persist, Storable, ImageStorable, Vetted, Apply;
    var request := RequestOf(m.envelope, m.expected);
    var rt' := Publish(k.rt, s.runtime, m.path, m.decision, request, k.policy, k.epoch).0;
    PublishIsStep(k.rt, s.runtime, m.path, m.decision, request, k.policy, k.epoch);
    if rt' != k.rt {
      var q :| Vetted(k.rt, s.runtime.limits, Step.Decide(q)) && q.workerBoot == request.workerBoot
               && q.publisher == request.publisher && rt' == Apply(k.rt, s.runtime, Step.Decide(q));
      StepStorable(k.rt, s.runtime, Step.Decide(q));
    }
    PersistStorable(k.(rt := rt', acked := k.acked + {m.envelope.boot}), s.runtime.limits);
  }

  lemma RevokeStorable(k: Coordinator, s: Settings, connection: nat, m: RevokeMessage)
    requires AllStorable(k, s.runtime.limits)
    ensures AllStorable(HandleRevoke(k, s, connection, m).0, s.runtime.limits)
  {
    hide Revoke, Persist, Storable, ImageStorable, Apply;
    var q := RevokeRequest(m.envelope.attempt, m.reason, m.explanation, m.authority, m.expected, true);
    RevokeIsStep(k.rt, s.runtime, m.path, q, k.epoch);
    StepStorable(k.rt, s.runtime, Step.RevokePath(m.path, q, k.epoch));
    var rt' := Revoke(k.rt, m.path, q, k.epoch, s.runtime.limits).0;
    PersistStorable(k.(rt := rt', ackedRevocations := k.ackedRevocations + {m.path}), s.runtime.limits);
  }

  lemma {:induction false} LoseAllStorable(rt: Runtime, workers: map<string, Worker>, lost: seq<string>, c: Config)
    requires Storable(rt, c.limits) && forall b :: b in lost ==> b in workers
    ensures Storable(LoseAll(rt, workers, lost), c.limits)
    decreases |lost|
  {
    hide Storable, LosePublisher;
    if lost != [] {
      StepStorable(rt, c, Step.Lose(workers[lost[0]].publisher, lost[0]));
      LoseAllStorable(LosePublisher(rt, workers[lost[0]].publisher, lost[0]), workers, lost[1..], c);
    }
  }

  lemma DisconnectStorable(k: Coordinator, s: Settings, connection: nat, order: seq<string>)
    requires AllStorable(k, s.runtime.limits)
    ensures AllStorable(HandleDisconnect(k, s, connection, order), s.runtime.limits)
  {
    hide LoseAll, Lost, Fence, Persist, Storable, ImageStorable, PathCodec.IdentityText;
    LostMembers(k.workers, order);
    var lost := Lost(k.workers, order);
    LoseAllStorable(k.rt, k.workers, lost, s.runtime);
    FenceGrows(k.fenced, lost, s.runtime.limits.maxPublishers);
    if k != HandleDisconnect(k, s, connection, order) {
      PersistStorable(Drop(k, s, connection, lost), s.runtime.limits);
    }
  }

  /** A recovery of a storable image is storable, and none of its records authorizes in state or in outcome. */
  lemma StartStorable(k: Coordinator, s: Settings, control: u64, pinned: u64, livePolicy: PolicySet)
    requires AllStorable(k, s.runtime.limits) && Start(k, s, control, pinned, livePolicy).Some?
    ensures AllStorable(Start(k, s, control, pinned, livePolicy).value, s.runtime.limits)
    ensures forall p :: p in Start(k, s, control, pinned, livePolicy).value.rt.records ==>
              !Authorizing(Start(k, s, control, pinned, livePolicy).value.rt.records[p])
  {
    hide Import, StartEpoch, Storable, ImageStorable, Authorizing, ReadImage, PathCodec.IdentityText;
    if k.image.Some? {
      var i := k.image.value;
      var read := ReadImage(i, s.runtime.limits).value;
      assert BootIds(read.state.fenced) && ReadImage(i, s.runtime.limits) == Some(Back(i)) && Apart(i.state) by {
        ReadIsBack(i, s.runtime.limits);
      }
      BackStorable(i, livePolicy, s.runtime.limits);
      ImportStorable(read.state, livePolicy, s.runtime.limits);
    } else {
      EmptyStorable(s.runtime.limits);
    }
  }

  lemma ReadIsBack(i: Image, limits: Limits)
    requires ReadImage(i, limits).Some?
    ensures Apart(i.state) && ReadImage(i, limits) == Some(Back(i))
    ensures Back(i).state == i.state.(records := Back(i).state.records)
    ensures BootIds(Back(i).state.fenced)
  {
    BackFrame(i);
    hide Back, Apart, DurableCodec.PolicyReads, SetsRead, RecordsRead, PathCodec.IdentityText;
    forall b | b in i.state.fenced ensures PathCodec.IdentityText(b, DurableCodec.BOOT_LENGTH) {
      assert DurableCodec.BootReads(b, limits);
    }
  }

  /** An image that is read back and imported was storable under its new ids as well. */
  lemma BackStorable(i: Image, policy: PolicySet, limits: Limits)
    requires ImageStorable(i.state, limits) && Apart(i.state)
    requires Import(EmptyRuntime(), Back(i).state, policy, limits).Some?
    ensures ImageStorable(Back(i).state, limits)
  {
    hide StorableRecord, BootIds, SetsStorable, ImportableRecord, ImportableSet, Recovered, IndexesOf, Back, Apart,
      NewId;
    BackFrame(i);
    BackSize(i);
    var b := Back(i).state;
    forall id | id in b.records ensures StorableRecord(b, id, limits) {
      OldIdOf(i, id);
      var p :| p in i.state.records && NewId(i.state, p) == id;
      BackStorableAt(i, p, limits);
    }
  }

  lemma BackSize(i: Image)
    requires Apart(i.state)
    ensures |Back(i).state.records| <= |i.state.records|
  {
    hide Apart, BackRecord, NewId;
    BackIds(i);
    FewerIds(i.state);
    assert |Back(i).state.records| == |Back(i).state.records.Keys|;
  }

  lemma BackStorableAt(i: Image, p: string, limits: Limits)
    requires Apart(i.state) && p in i.state.records && StorableRecord(i.state, p, limits)
    requires NewId(i.state, p) in Back(i).state.records
    requires ImportableRecord(Back(i).state, NewId(i.state, p), limits)
    ensures StorableRecord(Back(i).state, NewId(i.state, p), limits)
  {
    hide NewId, PathShape.Shape, ValidEvidence, StateForOutcome, Canonical, PathCodec.DerivedId,
      DurableCodec.TidyRevocation, DurableCodec.Tidied, CanAdvance;
    assert NewId(i.state, p) in NewIds(i.state) && OldId(i.state, NewId(i.state, p)) == p;
  }

  lemma EmptyStorable(limits: Limits)
    ensures Storable(EmptyRuntime(), limits)
  {
  }

  lemma ImportStorable(d: Durable, policy: PolicySet, limits: Limits)
    requires ImageStorable(d, limits) && Import(EmptyRuntime(), d, policy, limits).Some?
    ensures var rt := Import(EmptyRuntime(), d, policy, limits).value;
            Storable(rt, limits) && forall p :: p in rt.records ==> !Authorizing(rt.records[p])
  {
    hide IndexesOf, Recover, WellKept, SetsStorable, StateForOutcome, Canonical, Importable, Authorizing;
    var rt := Import(EmptyRuntime(), d, policy, limits).value;
    forall p | p in d.records
      ensures rt.records[p].definition.id == p && Consistent(rt.records[p]) && !Authorizing(rt.records[p])
      ensures WellKept(rt.records[p].definition, rt.records[p].evidence, d.sets, limits)
    {
      ImportableParts(d, limits, p);
      RecoverRecord(d.records[p], d.sets, policy, limits);
      assert StorableRecord(d, p, limits);
    }
  }

  lemma MessageStorable(k: Coordinator, s: Settings, m: Message)
    requires AllStorable(k, s.runtime.limits) && Handle(k, s, m).Some?
    ensures AllStorable(Handle(k, s, m).value, s.runtime.limits)
  {
    hide HandlePublish, HandleRevoke, HandleDisconnect, Start, Apply, Storable, ImageStorable, Vetted;
    match m
    case Connect =>
    case RegisterWorker(connection, e) =>
    case PublishPath(connection, p) => PublishStorable(k, s, connection, p);
    case RevokePath(connection, r) => RevokeStorable(k, s, connection, r);
    case Disconnect(connection, order) => DisconnectStorable(k, s, connection, order);
    case Internal(step) => if InternalStep(k.rt, s.runtime.limits, step) { StepStorable(k.rt, s.runtime, step); }
    case Log(path, entries) =>
    case ChangeEpoch(epoch) =>
    case ChangePolicy(policy) =>
    case Crash(control, pinned, livePolicy) => StartStorable(k, s, control, pinned, livePolicy);
  }

  lemma {:induction false} RunStorable(k: Coordinator, s: Settings, ms: seq<Message>)
    requires AllStorable(k, s.runtime.limits) && RunMessages(k, s, ms).Some?
    ensures AllStorable(RunMessages(k, s, ms).value, s.runtime.limits)
    decreases |ms|
  {
    hide Handle, AllStorable;
    if ms != [] {
      MessageStorable(k, s, ms[0]);
      RunStorable(Handle(k, s, ms[0]).value, s, ms[1..]);
    }
  }

  lemma FreshStorable(policy: PolicySet, epoch: u64, limits: Limits)
    ensures AllStorable(Fresh(policy, epoch), limits)
  {
  }

  // ---- when a restart fails ---------------------------------------------------------------------------

  /** The path rests on one that no stored path comes back as. */
  predicate RestsOnAbsent(d: Durable, p: string) {
    p in d.records && d.records[p].definition.underlying.Some?
      && d.records[p].definition.underlying.value.path !in NewIds(d)
  }

  /** The path comes back as the one that it rests on. */
  predicate RestsOnItself(d: Durable, p: string) {
    p in d.records && d.records[p].definition.underlying.Some?
      && d.records[p].definition.underlying.value.path == NewId(d, p)
  }

  /** Two stored paths have the same content, so they come back under one id. */
  predicate SameContent(d: Durable, p: string, q: string) {
    p != q && p in d.records && q in d.records && NewId(d, p) == NewId(d, q)
  }

  predicate Spent(d: Durable, p: string) {
    p in d.records && HadLiveAuthority(d.records[p].state) && d.records[p].generation == U64_MAX
  }

  predicate SetIsUnreadable(d: Durable, s: string, limits: Limits) {
    s in d.sets && !DurableCodec.SetReads(d.sets[s], limits)
  }

  predicate RecordIsUnreadable(i: Image, p: string, limits: Limits) {
    p in i.state.records && !RecordIsReadable(i, p, limits)
  }

  predicate FenceIsUnreadable(d: Durable, b: string, limits: Limits) { b in d.fenced && |b| > limits.maxIdLength }

  /** The images that the decoder refuses. */
  ghost predicate Undecodable(i: Image, limits: Limits) {
    || !DurableCodec.PolicyReads(i.state.policy, limits)
    || |i.state.sets| > limits.maxConstraints || (exists s :: SetIsUnreadable(i.state, s, limits))
    || (exists p :: RecordIsUnreadable(i, p, limits))
    || |i.state.fenced| > limits.maxPublishers || (exists b :: FenceIsUnreadable(i.state, b, limits))
    || (exists p, q :: SameContent(i.state, p, q))
    || (exists p :: RestsOnAbsent(i.state, p))
  }

  /** The images that a start refuses. */
  ghost predicate Unstartable(i: Image, limits: Limits, pinned: u64) {
    || Undecodable(i, limits)
    || (exists p :: RestsOnItself(i.state, p))
    || (exists p :: Spent(i.state, p))
    || i.state.epoch == U64_MAX || (pinned != 0 && pinned <= i.state.epoch)
  }

  lemma DecodesExactly(i: Image, limits: Limits)
    requires ImageStorable(i.state, limits)
    ensures ReadImage(i, limits).None? <==> Undecodable(i, limits)
  {
    hide Back, DurableCodec.PolicyReads, SetsRead, RecordsRead, FencesRead, Apart, RecordIsReadable, NewId,
      StorableRecord, SetIsUnreadable, RecordIsUnreadable, FenceIsUnreadable, RestsOnAbsent, SameContent;
    SetsReadExactly(i.state, limits);
    RecordsReadExactly(i, limits);
    FencesReadExactly(i.state, limits);
    ApartExactly(i.state, limits);
  }

  lemma SetsReadExactly(d: Durable, limits: Limits)
    ensures SetsRead(d, limits) <==> |d.sets| <= limits.maxConstraints && forall s :: !SetIsUnreadable(d, s, limits)
  {
    hide DurableCodec.SetReads;
    forall s | s in d.sets ensures SetIsUnreadable(d, s, limits) <==> !DurableCodec.SetReads(d.sets[s], limits) {
    }
  }

  lemma RecordsReadExactly(i: Image, limits: Limits)
    requires ImageStorable(i.state, limits)
    ensures RecordsRead(i, limits) <==>
            (forall p :: !RecordIsUnreadable(i, p, limits)) && forall p :: !RestsOnAbsent(i.state, p)
  {
    hide RecordIsReadable, NewId, PathShape.Shape, ValidEvidence, StateForOutcome, Canonical, ImportableSet;
    var d := i.state;
    forall p | p in d.records ensures SetHolds(d, d.records[p].definition.constraintSet) {
      assert StorableRecord(d, p, limits) && d.sets[d.records[p].definition.constraintSet].id
        == d.records[p].definition.constraintSet;
    }
    forall p | p in d.records ensures UnderlyingHolds(d, d.records[p].definition.underlying) <==> !RestsOnAbsent(d, p) {
    }
    forall p | p in d.records ensures RecordIsUnreadable(i, p, limits) <==> !RecordIsReadable(i, p, limits) {
    }
  }

  lemma FencesReadExactly(d: Durable, limits: Limits)
    requires BootIds(d.fenced)
    ensures FencesRead(d, limits) <==>
            |d.fenced| <= limits.maxPublishers && forall b :: !FenceIsUnreadable(d, b, limits)
  {
    hide PathCodec.IdentityText;
    forall b | b in d.fenced ensures FenceIsUnreadable(d, b, limits) <==> !DurableCodec.BootReads(b, limits) {
    }
  }

  lemma ApartExactly(d: Durable, limits: Limits)
    requires SetsStorable(d.sets, limits)
    ensures Apart(d) <==> forall p, q :: !SameContent(d, p, q)
  {
    hide NewId, ImportableSet;
    forall p, q | p in d.records && q in d.records
      ensures SameContent(d, p, q) <==> p != q && NewId(d, p) == NewId(d, q)
    {
    }
  }

  /** Under another id the shape of a path is what it was, unless the path rests on that id. */
  lemma RenamedShape(d: PathDefinition, id: string, limits: Limits)
    requires id != "" && PathShape.Shape(d, limits, false) == PathShape.Valid
    ensures PathShape.Shape(d.(id := id), limits, false) == PathShape.Valid
            <==> !(d.underlying.Some? && d.underlying.value.path == id)
  {
    hide PathShape.HopsStatus, PathShape.EndsPaired, PathShape.LoopFree, PathShape.ValidLimits;
  }

  lemma ImportableAt(i: Image, p: string, limits: Limits)
    requires limits.maxDependenciesPerPath >= 2 && Apart(i.state) && p in i.state.records
    requires StorableRecord(i.state, p, limits) && ReferencesHold(i.state, p)
    ensures NewId(i.state, p) in Back(i).state.records
    ensures ImportableRecord(Back(i).state, NewId(i.state, p), limits)
            <==> !RestsOnItself(i.state, p) && !Spent(i.state, p)
  {
    hide PathShape.Shape, ValidEvidence, StateForOutcome, Canonical, PathCodec.DerivedId, DurableCodec.TidyRevocation,
      DurableCodec.Tidied;
    var d := i.state;
    var id := NewId(d, p);
    assert id in NewIds(d) && OldId(d, id) == p;
    PathCodec.DerivedIdIsLong(d.records[p].definition);
    RenamedShape(d.records[p].definition, id, limits);
    BackIds(i);
    var u := d.records[p].definition.underlying;
    if u.Some? {
      var q :| q in d.records && NewId(d, q) == u.value.path;
      assert u.value.path in NewIds(d);
    }
  }

  lemma ImportsExactly(i: Image, policy: PolicySet, limits: Limits)
    requires limits.maxDependenciesPerPath >= 2 && ImageStorable(i.state, limits) && ReadImage(i, limits).Some?
    ensures Import(EmptyRuntime(), ReadImage(i, limits).value.state, policy, limits).None?
            <==> (exists p :: RestsOnItself(i.state, p)) || exists p :: Spent(i.state, p)
  {
    hide ImageStorable, ImportableRecord, ImageReads, Back, NewIds, RestsOnItself, Spent, Recovered, IndexesOf, NewId;
    ReadIsBack(i, limits);
    var d, b := i.state, Back(i).state;
    ImportChecks(i, policy, limits);
    forall p | p in d.records { ImportsAt(i, p, limits); }
    forall p | p !in d.records ensures !RestsOnItself(d, p) && !Spent(d, p) { NothingStored(d, p); }
    forall id | id in b.records ensures exists p :: p in d.records && NewId(d, p) == id { OldIdOf(i, id); }
  }

  lemma OldIdOf(i: Image, id: string)
    requires Apart(i.state) && id in Back(i).state.records
    ensures exists p :: p in i.state.records && NewId(i.state, p) == id
  {
    hide NewId, BackRecord;
    assert OldId(i.state, id) in i.state.records;
  }

  lemma ImportsAt(i: Image, p: string, limits: Limits)
    requires limits.maxDependenciesPerPath >= 2 && ImageStorable(i.state, limits) && ReadImage(i, limits).Some?
    requires p in i.state.records && Apart(i.state)
    ensures NewId(i.state, p) in Back(i).state.records
    ensures ImportableRecord(Back(i).state, NewId(i.state, p), limits)
            <==> !RestsOnItself(i.state, p) && !Spent(i.state, p)
  {
    hide ImportableRecord, Back, RestsOnItself, Spent, NewId, RecordIsReadable, ReferencesHold, StorableRecord;
    ImportableAt(i, p, limits);
  }

  /** The checks of an import that are left to the records. */
  lemma ImportChecks(i: Image, policy: PolicySet, limits: Limits)
    requires ImageStorable(i.state, limits) && Apart(i.state)
    ensures var b := Back(i).state;
            Import(EmptyRuntime(), b, policy, limits).Some? <==>
            forall id :: id in b.records ==> ImportableRecord(b, id, limits)
  {
    hide ImportableSet, ImportableRecord, StorableRecord, Recovered, IndexesOf, Back, Apart, BootIds;
    BackFrame(i);
    BackSize(i);
  }

  lemma NothingStored(d: Durable, p: string)
    requires p !in d.records
    ensures !RestsOnItself(d, p) && !Spent(d, p)
  {
  }

  lemma StartFails(k: Coordinator, s: Settings, control: u64, pinned: u64, livePolicy: PolicySet)
    requires AllStorable(k, s.runtime.limits) && s.runtime.limits.maxDependenciesPerPath >= 2
    ensures Start(k, s, control, pinned, livePolicy).None?
            <==> k.image.Some? && Unstartable(k.image.value, s.runtime.limits, pinned)
  {
    hide ImageStorable, Storable, BootIds, RestsOnItself, Spent, Import, Undecodable, ImageReads, Back;
    if k.image.Some? {
      var i := k.image.value;
      DecodesExactly(i, s.runtime.limits);
      if ReadImage(i, s.runtime.limits).Some? {
        ImportsExactly(i, livePolicy, s.runtime.limits);
        assert ReadImage(i, s.runtime.limits).value.state.epoch == i.state.epoch by { ReadIsBack(i, s.runtime.limits); }
      }
    }
  }

  /**
   * Whatever a coordinator has done since it was fresh, through any number of crashes: it fails to start from its
   * last image exactly when the decoder refuses the image, a path comes back as the one that it rests on, a live
   * record is at its last generation, or the epoch cannot be passed. The decoder refuses it exactly when the policy,
   * a set, a record or a fence is outside its bounds, there are more sets or fences than the limits allow, two stored
   * paths have the same content, or one rests on a path that is not stored.
   */
  lemma RestartFailsExactly(s: Settings, ms: seq<Message>, policy: PolicySet, epoch: u64, control: u64, pinned: u64,
      livePolicy: PolicySet)
    requires s.runtime.limits.maxDependenciesPerPath >= 2 && RunMessages(Fresh(policy, epoch), s, ms).Some?
    ensures var k := RunMessages(Fresh(policy, epoch), s, ms).value;
            Start(k, s, control, pinned, livePolicy).None? <==>
            k.image.Some? && Unstartable(k.image.value, s.runtime.limits, pinned)
  {
    hide RunMessages, AllStorable, Start, Unstartable;
    FreshStorable(policy, epoch, s.runtime.limits);
    RunStorable(Fresh(policy, epoch), s, ms);
    StartFails(RunMessages(Fresh(policy, epoch), s, ms).value, s, control, pinned, livePolicy);
  }
}
