/** What the coordinator keeps in every state it reaches, crashes and restarts included. */
module CoordinatorSafety {
  import opened Base
  import opened Model
  import opened Evidence
  import opened RuntimeState
  import opened RuntimeRuns
  import opened Publication
  import opened Recovery
  import opened Coordinator
  import opened CoordinatorImages
  import opened StoreImages
  import DurableCodec
  import PathCodec

  // ---- fences accumulate ---------------------------------------------------------------------------

  predicate InImage(k: Coordinator, b: string) { k.image.Some? && b in k.image.value.state.fenced }

  /** The image holds every fence, unless a write was refused. */
  predicate FencesStored(k: Coordinator) { !k.refused ==> forall b :: b in k.fenced ==> InImage(k, b) }

  lemma DisconnectFences(k: Coordinator, s: Settings, connection: nat, order: seq<string>)
    requires FencesStored(k)
    ensures var k' := HandleDisconnect(k, s, connection, order);
            k.fenced <= k'.fenced && FencesStored(k') && (k.refused ==> k'.refused)
  {
    hide Export, LoseAll, Writable;
    FenceGrows(k.fenced, Lost(k.workers, order), s.runtime.limits.maxPublishers);
  }

  /** A crash keeps the fences that the image holds, and forgets the others. */
  lemma StartFences(k: Coordinator, s: Settings, control: u64, pinned: u64, livePolicy: PolicySet)
    requires Start(k, s, control, pinned, livePolicy).Some?
    ensures var k' := Start(k, s, control, pinned, livePolicy).value;
            && k'.refused == k.refused
            && forall b :: (b in k'.fenced <==> InImage(k, b)) && (InImage(k', b) <==> InImage(k, b))
  {
    hide Import, StartEpoch, ReadImage;
    if k.image.Some? { ReadIsBack(k.image.value, s.runtime.limits); }
  }

  lemma FencesAccumulate(k: Coordinator, s: Settings, m: Message)
    requires FencesStored(k) && Handle(k, s, m).Some?
    ensures var k' := Handle(k, s, m).value;
            FencesStored(k') && (k.refused ==> k'.refused) && (!k'.refused ==> k.fenced <= k'.fenced)
  {
    hide HandleDisconnect, Export, Publish, Revoke, Start, Apply, Writable;
    match m
    case Disconnect(connection, order) => DisconnectFences(k, s, connection, order);
    case Crash(control, pinned, livePolicy) => StartFences(k, s, control, pinned, livePolicy);
    case _ =>
  }

  /** Over any run in which no write is refused, through any number of crashes, a fenced boot stays fenced. */
  lemma {:induction false} FencedForever(k: Coordinator, s: Settings, ms: seq<Message>)
    requires FencesStored(k) && RunMessages(k, s, ms).Some?
    ensures FencesStored(RunMessages(k, s, ms).value) && (k.refused ==> RunMessages(k, s, ms).value.refused)
    ensures !RunMessages(k, s, ms).value.refused ==> k.fenced <= RunMessages(k, s, ms).value.fenced
    decreases |ms|
  {
    hide Handle, FencesStored;
    if ms != [] {
      FencesAccumulate(k, s, ms[0]);
      FencedForever(Handle(k, s, ms[0]).value, s, ms[1..]);
    }
  }

  // ---- workers and connections ------------------------------------------------------------------------

  predicate WorkersSound(k: Coordinator) {
    && (forall b :: b in k.workers ==> b !in k.fenced)
    && (forall b :: b in k.workers ==>
         k.workers[b].connection in k.connections && b in k.connections[k.workers[b].connection])
    && (forall c :: c in k.connections ==> c < k.nextConnection)
  }

  predicate Room(k: Coordinator, s: Settings) { |k.fenced| + |k.workers| <= s.runtime.limits.maxPublishers }

  /** The boots of a closed connection, as far as they are still registered. */
  predicate LostOn(k: Coordinator, connection: nat, lost: seq<string>) {
    && connection in k.connections
    && (forall b :: b in lost ==> b in k.workers)
    && (forall b :: b in k.workers && b in k.connections[connection] ==> b in lost)
    && |lost| <= |k.workers|
  }

  lemma DropWorkers(k: Coordinator, s: Settings, connection: nat, lost: seq<string>)
    requires WorkersSound(k) && LostOn(k, connection, lost)
    ensures WorkersSound(Drop(k, s, connection, lost))
    ensures Room(k, s) ==> forall b :: b in k.fenced || b in k.workers ==>
                             b in Drop(k, s, connection, lost).fenced || b in Drop(k, s, connection, lost).workers
  {
    hide LoseAll, Fence;
    FenceGrows(k.fenced, lost, s.runtime.limits.maxPublishers);
  }

  lemma DisconnectIsDrop(k: Coordinator, s: Settings, connection: nat, order: seq<string>)
    ensures var k' := HandleDisconnect(k, s, connection, order);
            k' == k || var lost := Lost(k.workers, order);
                       LostOn(k, connection, lost)
                       && k' == if lost != [] then Persist(Drop(k, s, connection, lost), s.runtime.limits)
                            else Drop(k, s, connection, lost)
  {
    hide Drop, Persist, Lost;
    LostMembers(k.workers, order);
  }

  lemma DisconnectWorkers(k: Coordinator, s: Settings, connection: nat, order: seq<string>)
    requires WorkersSound(k)
    ensures WorkersSound(HandleDisconnect(k, s, connection, order))
  {
    hide Export, LoseAll, Lost, Fence, HandleDisconnect, Drop, Writable;
    DisconnectIsDrop(k, s, connection, order);
    if HandleDisconnect(k, s, connection, order) != k { DropWorkers(k, s, connection, Lost(k.workers, order)); }
  }

  predicate SameWorkers(k: Coordinator, k': Coordinator) {
    && k'.workers == k.workers && k'.fenced == k.fenced && k'.connections == k.connections
    && k'.nextConnection == k.nextConnection
  }

  lemma PublishKeepsWorkers(k: Coordinator, s: Settings, connection: nat, m: PublishMessage)
    ensures SameWorkers(k, HandlePublish(k, s, connection, m).0)
  {
    hide Publish, Export, Writable, WellFormedEnvelope;
  }

  lemma RevokeKeepsWorkers(k: Coordinator, s: Settings, connection: nat, m: RevokeMessage)
    ensures SameWorkers(k, HandleRevoke(k, s, connection, m).0)
  {
    hide Revoke, Export, Writable, WellFormedEnvelope;
  }

  lemma RegisterWorkers(k: Coordinator, s: Settings, connection: nat, e: Envelope)
    requires WorkersSound(k)
    ensures WorkersSound(HandleRegister(k, s, connection, e).0)
  {
    hide WellFormedEnvelope;
  }

  lemma WorkersStaySound(k: Coordinator, s: Settings, m: Message)
    requires WorkersSound(k) && Handle(k, s, m).Some?
    ensures WorkersSound(Handle(k, s, m).value)
  {
    hide HandleRegister, HandlePublish, HandleRevoke, HandleDisconnect, Start, Apply, Vetted;
    match m
    case RegisterWorker(connection, e) => RegisterWorkers(k, s, connection, e);
    case PublishPath(connection, p) => PublishKeepsWorkers(k, s, connection, p);
    case RevokePath(connection, r) => RevokeKeepsWorkers(k, s, connection, r);
    case Disconnect(connection, order) => DisconnectWorkers(k, s, connection, order);
    case Crash(control, pinned, livePolicy) => StartIs(k, s, control, pinned, livePolicy);
    case _ =>
  }

  // ---- authority is backed by a registered worker ------------------------------------------------------

  /** Published authority that can still be marked. */
  predicate PublishedAuthority(r: Record) { AuthorizingState(r.state) && r.generation < U64_MAX && r.workerBoot != "" }

  predicate RecordBacked(workers: map<string, Worker>, r: Record, names: string -> string) {
    PublishedAuthority(r) ==> r.workerBoot in workers && r.publisher == names(r.workerBoot)
  }

  /** Every boot registers and publishes under one publisher name. */
  ghost predicate Backed(k: Coordinator, names: string -> string) {
    && (forall b :: b in k.workers ==> k.workers[b].publisher == names(b))
    && (forall p :: p in k.rt.records ==> RecordBacked(k.workers, k.rt.records[p], names))
  }

  predicate Honest(m: Message, names: string -> string) {
    match m
    case RegisterWorker(_, e) => e.publisher == names(e.boot)
    case PublishPath(_, p) => p.envelope.publisher == names(p.envelope.boot)
    case _ => true
  }

  lemma StepBacked(k: Coordinator, s: Settings, step: Step, names: string -> string)
    requires Backed(k, names)
    requires step.Decide? ==> (step.request.workerBoot == "" ||
                               (step.request.workerBoot in k.workers
                                 && step.request.publisher == names(step.request.workerBoot)))
    ensures Backed(k.(rt := Apply(k.rt, s.runtime, step)), names)
  {
    hide Commit, Invalidate, LosePublisher, Revoke, Retire, DependenciesOf;
    if step.Decide? {
      CommitRecords(k.rt, s.runtime, step.request);
    } else {
      StepFrames(k.rt, s.runtime, step);
    }
  }

  lemma PublishBacked(k: Coordinator, s: Settings, connection: nat, m: PublishMessage, names: string -> string)
    requires Backed(k, names) && m.envelope.publisher == names(m.envelope.boot)
    ensures Backed(HandlePublish(k, s, connection, m).0, names)
  {
    hide Publish, Export, Apply, Vetted, Writable;
    var e := m.envelope;
    if RegisteredOn(k, e.boot, connection) {
      var request := RequestOf(e, m.expected);
      PublishIsStep(k.rt, s.runtime, m.path, m.decision, request, k.policy, k.epoch);
      var rt' := Publish(k.rt, s.runtime, m.path, m.decision, request, k.policy, k.epoch).0;
      if rt' != k.rt {
        var q :| Vetted(k.rt, s.runtime.limits, Step.Decide(q)) && q.workerBoot == e.boot && q.publisher == e.publisher
               && rt' == Apply(k.rt, s.runtime, Step.Decide(q));
        StepBacked(k, s, Step.Decide(q), names);
      }
    }
  }

  lemma RevokeBacked(k: Coordinator, s: Settings, connection: nat, m: RevokeMessage, names: string -> string)
    requires Backed(k, names)
    ensures Backed(HandleRevoke(k, s, connection, m).0, names)
  {
    hide Revoke, Export, Apply, Writable;
    var q := RevokeRequest(m.envelope.attempt, m.reason, m.explanation, m.authority, m.expected, true);
    RevokeIsStep(k.rt, s.runtime, m.path, q, k.epoch);
    StepBacked(k, s, Step.RevokePath(m.path, q, k.epoch), names);
  }

  /** Losing boots leaves no authority that one of them published under its registered name. */
  lemma {:induction false} LoseAllMarks(rt: Runtime, workers: map<string, Worker>, lost: seq<string>)
    requires forall b :: b in lost ==> b in workers
    ensures var rt' := LoseAll(rt, workers, lost);
            && rt'.records.Keys == rt.records.Keys
            && forall p :: p in rt.records ==>
                 && (rt'.records[p] == rt.records[p] || !AuthorizingState(rt'.records[p].state))
                 && (rt'.records[p] == rt.records[p] && PublishedAuthority(rt.records[p]) ==>
                       rt.records[p].workerBoot in lost ==>
                         rt.records[p].publisher != workers[rt.records[p].workerBoot].publisher)
    decreases |lost|
  {
    hide Mark, AuthorizingState;
    if lost != [] {
      var rt1 := LosePublisher(rt, workers[lost[0]].publisher, lost[0]);
      LoseAllMarks(rt1, workers, lost[1..]);
      forall p | p in rt.records { LostRecord(rt.records[p]); }
      assert forall b :: b in lost <==> b == lost[0] || b in lost[1..];
    }
  }

  lemma LostRecord(r: Record)
    ensures PublishedAuthority(r) ==> Mark(r) != r
    ensures Mark(r) == r || !AuthorizingState(Mark(r).state)
  {
    hide AuthorityDigestOf;
  }

  lemma DisconnectBacked(k: Coordinator, s: Settings, connection: nat, order: seq<string>, names: string -> string)
    requires Backed(k, names)
    ensures Backed(HandleDisconnect(k, s, connection, order), names)
  {
    hide Export, LoseAll, Lost, Fence, Writable;
    LostMembers(k.workers, order);
    LoseAllMarks(k.rt, k.workers, Lost(k.workers, order));
  }

  lemma StartBacked(k: Coordinator, s: Settings, control: u64, pinned: u64, livePolicy: PolicySet,
      names: string -> string)
    requires Start(k, s, control, pinned, livePolicy).Some?
    ensures Backed(Start(k, s, control, pinned, livePolicy).value, names)
    ensures forall p :: p in Start(k, s, control, pinned, livePolicy).value.rt.records ==>
              !AuthorizingState(Start(k, s, control, pinned, livePolicy).value.rt.records[p].state)
  {
    hide Import, StartEpoch, Importable, ReadImage;
    if k.image.Some? {
      var d := ReadImage(k.image.value, s.runtime.limits).value.state;
      forall p | p in d.records { RecoveryAuthorizesNothing(EmptyRuntime(), d, livePolicy, s.runtime.limits, p); }
      ImportKeys(EmptyRuntime(), d, livePolicy, s.runtime.limits);
    }
  }

  lemma ImportKeys(rt: Runtime, d: Durable, policy: PolicySet, limits: Limits)
    requires Import(rt, d, policy, limits).Some?
    ensures Import(rt, d, policy, limits).value.records.Keys == d.records.Keys
  {
    hide Importable, Recover, IndexesOf;
  }

  lemma MessageBacked(k: Coordinator, s: Settings, m: Message, names: string -> string)
    requires Backed(k, names) && Honest(m, names) && Handle(k, s, m).Some?
    ensures Backed(Handle(k, s, m).value, names)
  {
    hide HandlePublish, HandleRevoke, HandleDisconnect, Start, Apply, Vetted;
    match m
    case Connect =>
    case RegisterWorker(connection, e) =>
    case PublishPath(connection, p) => PublishBacked(k, s, connection, p, names);
    case RevokePath(connection, r) => RevokeBacked(k, s, connection, r, names);
    case Disconnect(connection, order) => DisconnectBacked(k, s, connection, order, names);
    case Internal(step) => if InternalStep(k.rt, s.runtime.limits, step) { StepBacked(k, s, step, names); }
    case Log(path, entries) =>
    case ChangeEpoch(epoch) =>
    case ChangePolicy(policy) =>
    case Crash(control, pinned, livePolicy) => StartBacked(k, s, control, pinned, livePolicy, names);
  }

  /**
   * In every reachable state, crashes included, each authorizing record that a publish committed carries a boot
   * that is registered now, on a connection that is open, and not fenced.
   */
  lemma {:induction false} PublishedAuthorityHasAWorker(k: Coordinator, s: Settings, ms: seq<Message>,
      names: string -> string)
    requires WorkersSound(k) && Backed(k, names) && forall m :: m in ms ==> Honest(m, names)
    requires RunMessages(k, s, ms).Some?
    ensures var k' := RunMessages(k, s, ms).value;
            && WorkersSound(k') && Backed(k', names)
            && forall p :: p in k'.rt.records && PublishedAuthority(k'.rt.records[p]) ==>
                 var boot := k'.rt.records[p].workerBoot;
                 boot in k'.workers && boot !in k'.fenced && k'.workers[boot].publisher == k'.rt.records[p].publisher
                 && k'.workers[boot].connection in k'.connections
    decreases |ms|
  {
    hide Handle, Honest, PublishedAuthority;
    if ms != [] {
      assert ms[0] in ms;
      WorkersStaySound(k, s, ms[0]);
      MessageBacked(k, s, ms[0], names);
      PublishedAuthorityHasAWorker(Handle(k, s, ms[0]).value, s, ms[1..], names);
    }
  }

  // ---- durability -------------------------------------------------------------------------------------------

  predicate RevocationStored(records: map<string, Record>, p: string) { p in records && records[p].revocation.Some? }

  predicate RevocationInImage(d: Durable, p: string) { p in d.records && d.records[p].revocation.Some? }

  /** What was acknowledged is on record now and in the image. */
  predicate AllStored(k: Coordinator) {
    && k.acked <= k.fenced + k.workers.Keys && (forall b :: b in k.acked ==> InImage(k, b))
    && (forall p :: p in k.ackedRevocations ==>
          RevocationStored(k.rt.records, p) && k.image.Some? && RevocationInImage(k.image.value.state, p))
  }

  /**
   * Unless a write was refused, acknowledged boots are fenced or registered and fenced in the image, and
   * acknowledged revocations are stored.
   */
  predicate Acknowledged(k: Coordinator) { !k.refused ==> AllStored(k) }

  /** Storing the state that holds every acknowledgement keeps them in the image. */
  lemma PersistAcknowledges(k: Coordinator, limits: Limits)
    requires !k.refused ==> k.acked <= k.fenced + k.workers.Keys
    requires !k.refused ==> forall p :: p in k.ackedRevocations ==> RevocationStored(k.rt.records, p)
    ensures Acknowledged(Persist(k, limits))
  {
    hide Writable;
  }

  /** No step removes a record or its revocation. */
  lemma StepKeepsRevocations(rt: Runtime, c: Config, step: Step, p: string)
    requires RevocationStored(rt.records, p)
    ensures RevocationStored(Apply(rt, c, step).records, p)
  {
    hide Commit, Invalidate, LosePublisher, Revoke, Retire, DependenciesOf, Authorizing;
    if step.Decide? { CommitRecords(rt, c, step.request); } else { StepFrames(rt, c, step); }
  }

  lemma PublishKeepsRevocations(rt: Runtime, c: Config, path: PathDefinition, d: Decision,
      request: EvaluationRequest, policy: PolicySet,
                                epoch: u64, p: string)
    requires RevocationStored(rt.records, p)
    ensures RevocationStored(Publish(rt, c, path, d, request, policy, epoch).0.records, p)
  {
    hide Publish, Apply, RevocationStored, Vetted;
    PublishIsStep(rt, c, path, d, request, policy, epoch);
    var rt' := Publish(rt, c, path, d, request, policy, epoch).0;
    if rt' != rt {
      var q :| Vetted(rt, c.limits, Step.Decide(q)) && q.workerBoot == request.workerBoot
        && q.publisher == request.publisher
               && rt' == Apply(rt, c, Step.Decide(q));
      StepKeepsRevocations(rt, c, Step.Decide(q), p);
    }
  }

  lemma PublishAcknowledges(k: Coordinator, s: Settings, connection: nat, m: PublishMessage)
    requires Acknowledged(k)
    ensures Acknowledged(HandlePublish(k, s, connection, m).0)
  {
    hide Publish, Persist, RevocationStored, RevocationInImage;
    var e := m.envelope;
    var rt' := Publish(k.rt, s.runtime, m.path, m.decision, RequestOf(e, m.expected), k.policy, k.epoch).0;
    forall p | !k.refused && p in k.ackedRevocations ensures RevocationStored(rt'.records, p) {
      PublishKeepsRevocations(k.rt, s.runtime, m.path, m.decision, RequestOf(e, m.expected), k.policy, k.epoch, p);
    }
    if RegisteredOn(k, e.boot, connection) {
      PersistAcknowledges(k.(rt := rt', acked := k.acked + {e.boot}), s.runtime.limits);
    }
  }

  lemma RevokedIsStored(rt: Runtime, path: string, q: RevokeRequest, epoch: u64, limits: Limits)
    requires Revoke(rt, path, q, epoch, limits).1.Applied? || Revoke(rt, path, q, epoch, limits).1.Repeated?
    ensures RevocationStored(Revoke(rt, path, q, epoch, limits).0.records, path)
  {
    hide AuthorityDigestOf;
  }

  lemma RevokeAcknowledges(k: Coordinator, s: Settings, connection: nat, m: RevokeMessage)
    requires Acknowledged(k)
    ensures Acknowledged(HandleRevoke(k, s, connection, m).0)
  {
    hide Revoke, Persist, RevocationStored, RevocationInImage, Apply;
    var q := RevokeRequest(m.envelope.attempt, m.reason, m.explanation, m.authority, m.expected, true);
    var (rt', result) := Revoke(k.rt, m.path, q, k.epoch, s.runtime.limits);
    RevokeIsStep(k.rt, s.runtime, m.path, q, k.epoch);
    forall p | !k.refused && p in k.ackedRevocations ensures RevocationStored(rt'.records, p) {
      StepKeepsRevocations(k.rt, s.runtime, Step.RevokePath(m.path, q, k.epoch), p);
    }
    if AcceptedRevocation(Ran(result)) {
      RevokedIsStored(k.rt, m.path, q, k.epoch, s.runtime.limits);
      PersistAcknowledges(k.(rt := rt', ackedRevocations := k.ackedRevocations + {m.path}), s.runtime.limits);
    }
  }

  lemma {:induction false} LoseAllKeepsRevocations(rt: Runtime, workers: map<string, Worker>, lost: seq<string>,
      c: Config, p: string)
    requires RevocationStored(rt.records, p) && forall b :: b in lost ==> b in workers
    ensures RevocationStored(LoseAll(rt, workers, lost).records, p)
    decreases |lost|
  {
    hide RevocationStored, LosePublisher;
    if lost != [] {
      var rt' := LosePublisher(rt, workers[lost[0]].publisher, lost[0]);
      StepKeepsRevocations(rt, c, Step.Lose(workers[lost[0]].publisher, lost[0]), p);
      LoseAllKeepsRevocations(rt', workers, lost[1..], c, p);
    }
  }

  lemma DisconnectAcknowledges(k: Coordinator, s: Settings, connection: nat, order: seq<string>)
    requires Acknowledged(k) && WorkersSound(k) && Room(k, s)
    ensures Acknowledged(HandleDisconnect(k, s, connection, order))
  {
    hide Persist, RevocationStored, RevocationInImage, Lost, Drop, HandleDisconnect, WorkersSound, Room;
    DisconnectIsDrop(k, s, connection, order);
    if HandleDisconnect(k, s, connection, order) != k {
      DropAcknowledges(k, s, connection, Lost(k.workers, order));
    }
  }

  lemma DropAcknowledges(k: Coordinator, s: Settings, connection: nat, lost: seq<string>)
    requires Acknowledged(k) && WorkersSound(k) && Room(k, s) && LostOn(k, connection, lost)
    ensures Acknowledged(Drop(k, s, connection, lost))
    ensures Acknowledged(Persist(Drop(k, s, connection, lost), s.runtime.limits))
  {
    hide Persist, RevocationStored, RevocationInImage, WorkersSound, Room, LoseAll, Fence;
    var k' := Drop(k, s, connection, lost);
    DropWorkers(k, s, connection, lost);
    forall p | !k.refused && p in k.ackedRevocations ensures RevocationStored(k'.rt.records, p) {
      LoseAllKeepsRevocations(k.rt, k.workers, lost, s.runtime, p);
    }
    PersistAcknowledges(k', s.runtime.limits);
  }

  /** What a successful start makes of a stored path: it comes back under the id that its content determines. */
  lemma RestartKeeps(k: Coordinator, s: Settings, control: u64, pinned: u64, livePolicy: PolicySet, p: string)
    requires Start(k, s, control, pinned, livePolicy).Some?
    requires k.image.Some? && p in k.image.value.state.records
    ensures var d := k.image.value.state;
            var k' := Start(k, s, control, pinned, livePolicy).value;
            && NewId(d, p) in k'.rt.records && k'.rt.records[NewId(d, p)].retired == d.records[p].retired
            && k'.rt.records[NewId(d, p)].revocation == DurableCodec.TidyRevocation(d.records[p].revocation)
            && k'.image.Some? && NewId(d, p) in k'.image.value.state.records
            && k'.image.value.state.records[NewId(d, p)].revocation ==
                 DurableCodec.TidyRevocation(d.records[p].revocation)
            && (DurableCodec.TidyRevocation(d.records[p].revocation).Some? <==> d.records[p].revocation.Some?)
  {
    hide Import, StartEpoch, ReadImage, NewId, BackRecord, DurableCodec.TidyRevocation;
    var i := k.image.value;
    ReadIsBack(i, s.runtime.limits);
    assert NewId(i.state, p) in NewIds(i.state);
    assert OldId(i.state, NewId(i.state, p)) == p;
    BackRecordKeeps(i.state.records[p]);
    TidyRevocationKeeps(i.state.records[p].revocation);
    RecoveryAuthorizesNothing(EmptyRuntime(), Back(i).state, livePolicy, s.runtime.limits, NewId(i.state, p));
  }

  lemma BackRecordKeeps(r: DurableRecord)
    ensures BackRecord(r).retired == r.retired && BackRecord(r).revocation == DurableCodec.TidyRevocation(r.revocation)
  {
  }

  lemma TidyRevocationKeeps(r: Option<Revocation>)
    ensures DurableCodec.TidyRevocation(r).Some? <==> r.Some?
  {
  }

  lemma StartAcknowledges(k: Coordinator, s: Settings, control: u64, pinned: u64, livePolicy: PolicySet)
    requires Acknowledged(k) && Start(k, s, control, pinned, livePolicy).Some?
    ensures var k' := Start(k, s, control, pinned, livePolicy).value;
            Acknowledged(k') && k'.acked == k.acked && (!k.refused ==> k'.acked <= k'.fenced)
  {
    hide Start, DurableCodec.TidyRevocation, NewId;
    StartFences(k, s, control, pinned, livePolicy);
    StartIs(k, s, control, pinned, livePolicy);
    if k.image.Some? {
      forall p | p in k.image.value.state.records { RestartKeeps(k, s, control, pinned, livePolicy, p); }
    }
  }

  lemma StartIs(k: Coordinator, s: Settings, control: u64, pinned: u64, livePolicy: PolicySet)
    requires Start(k, s, control, pinned, livePolicy).Some?
    ensures var k' := Start(k, s, control, pinned, livePolicy).value;
            && k'.workers == map[] && k'.connections == map[] && k'.acked == k.acked
            && k'.ackedRevocations ==
                 (if k.image.Some? then Renamed(k.ackedRevocations, k.image.value.state) else k.ackedRevocations)
            && (k.image.None? ==> k'.image.None?)
  {
    hide Import, StartEpoch, ReadImage, Renamed;
  }

  lemma InternalAcknowledges(k: Coordinator, s: Settings, step: Step)
    requires Acknowledged(k)
    ensures Acknowledged(k.(rt := Apply(k.rt, s.runtime, step)))
  {
    hide Apply, RevocationStored, RevocationInImage;
    forall p | !k.refused && p in k.ackedRevocations { StepKeepsRevocations(k.rt, s.runtime, step, p); }
  }

  /** Only what was acknowledged, where it is stored, and who is registered matters. */
  lemma AcknowledgedFrame(k: Coordinator, k': Coordinator)
    requires Acknowledged(k) && k.workers.Keys <= k'.workers.Keys
    requires k'.rt == k.rt && k'.fenced == k.fenced && k'.image == k.image && k'.acked == k.acked
    requires k'.ackedRevocations == k.ackedRevocations && k'.refused == k.refused
    ensures Acknowledged(k')
  {
    hide RevocationStored, RevocationInImage;
  }

  lemma MessageAcknowledges(k: Coordinator, s: Settings, m: Message)
    requires Acknowledged(k) && WorkersSound(k) && Room(k, s) && Handle(k, s, m).Some?
    ensures Acknowledged(Handle(k, s, m).value)
  {
    hide HandlePublish, HandleRevoke, HandleDisconnect, Start, Apply, Acknowledged, Vetted, WorkersSound, Room,
      WellFormedEnvelope;
    match m
    case PublishPath(connection, p) => PublishAcknowledges(k, s, connection, p);
    case RevokePath(connection, r) => RevokeAcknowledges(k, s, connection, r);
    case Disconnect(connection, order) => DisconnectAcknowledges(k, s, connection, order);
    case Internal(step) =>
      if InternalStep(k.rt, s.runtime.limits, step) { InternalAcknowledges(k, s, step); }
    case Crash(control, pinned, livePolicy) => StartAcknowledges(k, s, control, pinned, livePolicy);
    case _ => AcknowledgedFrame(k, Handle(k, s, m).value);
  }

  /** Fences and workers stay within the bound all along the run. */
  predicate RoomAlong(k: Coordinator, s: Settings, ms: seq<Message>)
    decreases |ms|
  {
    Room(k, s) && (ms != [] && Handle(k, s, ms[0]).Some? ==> RoomAlong(Handle(k, s, ms[0]).value, s, ms[1..]))
  }

  /** The name of a path after the message: a start may rename it. */
  function NameAfter(k: Coordinator, m: Message, p: string): string {
    if m.Crash? && k.image.Some? && p in k.image.value.state.records then NewId(k.image.value.state, p) else p
  }

  function NameAlong(k: Coordinator, s: Settings, ms: seq<Message>, p: string): string
    decreases |ms|
  {
    if ms == [] || Handle(k, s, ms[0]).None? then p
    else NameAlong(Handle(k, s, ms[0]).value, s, ms[1..], NameAfter(k, ms[0], p))
  }

  lemma {:induction false} RunAcknowledges(k: Coordinator, s: Settings, ms: seq<Message>)
    requires Acknowledged(k) && WorkersSound(k) && RoomAlong(k, s, ms) && RunMessages(k, s, ms).Some?
    ensures Acknowledged(RunMessages(k, s, ms).value) && WorkersSound(RunMessages(k, s, ms).value)
    ensures k.acked <= RunMessages(k, s, ms).value.acked && (k.refused ==> RunMessages(k, s, ms).value.refused)
    ensures !RunMessages(k, s, ms).value.refused ==>
              forall p :: p in k.ackedRevocations ==>
                NameAlong(k, s, ms, p) in RunMessages(k, s, ms).value.ackedRevocations
    decreases |ms|
  {
    hide Handle, Acknowledged, WorkersSound, Room, NameAfter;
    if ms != [] {
      WorkersStaySound(k, s, ms[0]);
      MessageAcknowledges(k, s, ms[0]);
      AcknowledgementsGrow(k, s, ms[0]);
      RunAcknowledges(Handle(k, s, ms[0]).value, s, ms[1..]);
    }
  }

  lemma AcknowledgementsGrow(k: Coordinator, s: Settings, m: Message)
    requires Acknowledged(k) && Handle(k, s, m).Some?
    ensures k.acked <= Handle(k, s, m).value.acked && (k.refused ==> Handle(k, s, m).value.refused)
    ensures !k.refused ==>
              forall p :: p in k.ackedRevocations ==> NameAfter(k, m, p) in Handle(k, s, m).value.ackedRevocations
  {
    hide Publish, Revoke, Export, Start, Apply, Lost, Fence, LoseAll, Writable, NewId;
    if m.Crash? {
      StartFences(k, s, m.controlEpoch, m.pinned, m.livePolicy);
      StartIs(k, s, m.controlEpoch, m.pinned, m.livePolicy);
    }
  }

  /** A path keeps its name over a restart exactly when the name is the one that its content determines. */
  lemma NameIsKept(k: Coordinator, s: Settings, control: u64, pinned: u64, livePolicy: PolicySet, p: string)
    requires AllStorable(k, s.runtime.limits) && Start(k, s, control, pinned, livePolicy).Some?
    requires k.image.Some? && p in k.image.value.state.records
    ensures NameAfter(k, Crash(control, pinned, livePolicy), p) == p
            <==> PathCodec.IdentityBinds(k.image.value.state.records[p].definition)
  {
    hide Start, PathCodec.DerivedId, WellKept, StateForOutcome, Canonical;
    assert StorableRecord(k.image.value.state, p, s.runtime.limits);
    PathCodec.DerivedIdIsLong(k.image.value.state.records[p].definition);
  }

  /**
   * Crash after any run from a fresh coordinator, itself through any number of crashes, and restart from the last
   * image: the new epoch exceeds the image's, nothing recovered authorizes in state or in outcome, and stored
   * revocations and retirements come back with their paths. Unless a write was ever refused, every boot whose publish
   * was ever acknowledged is fenced and every acknowledged revocation is on record.
   */
  lemma RestartIsSafe(s: Settings, ms: seq<Message>, policy: PolicySet, epoch: u64, control: u64, pinned: u64,
      livePolicy: PolicySet)
    requires RoomAlong(Fresh(policy, epoch), s, ms) && RunMessages(Fresh(policy, epoch), s, ms).Some?
    requires Start(RunMessages(Fresh(policy, epoch), s, ms).value, s, control, pinned, livePolicy).Some?
    ensures var k := RunMessages(Fresh(policy, epoch), s, ms).value;
            var k' := Start(k, s, control, pinned, livePolicy).value;
            && k'.workers == map[]
            && (k.image.Some? ==> k'.epoch > k.image.value.state.epoch)
            && (forall p :: p in k'.rt.records ==> !Authorizing(k'.rt.records[p]))
            && (k.image.Some? ==> forall p :: p in k.image.value.state.records ==>
                  var r, id := k.image.value.state.records[p], NewId(k.image.value.state, p);
                  id in k'.rt.records && k'.rt.records[id].retired == r.retired
                  && k'.rt.records[id].revocation == DurableCodec.TidyRevocation(r.revocation))
            && (!k.refused ==>
                  && k.acked <= k'.fenced
                  && forall p :: p in k.ackedRevocations ==>
                       && k.image.Some? && p in k.image.value.state.records
                       && RevocationStored(k'.rt.records, NewId(k.image.value.state, p)))
  {
    hide RunMessages, RoomAlong, Start, AllStorable, Authorizing, NewId, DurableCodec.TidyRevocation;
    var k := RunMessages(Fresh(policy, epoch), s, ms).value;
    FreshIsAcknowledged(policy, epoch);
    RunAcknowledges(Fresh(policy, epoch), s, ms);
    StartAcknowledges(k, s, control, pinned, livePolicy);
    FreshStorable(policy, epoch, s.runtime.limits);
    RunStorable(Fresh(policy, epoch), s, ms);
    StartStorable(k, s, control, pinned, livePolicy);
    StartIs(k, s, control, pinned, livePolicy);
    if k.image.Some? {
      EpochPasses(k, s, control, pinned, livePolicy);
      forall p | p in k.image.value.state.records { RestartKeeps(k, s, control, pinned, livePolicy, p); }
    }
  }

  lemma EpochPasses(k: Coordinator, s: Settings, control: u64, pinned: u64, livePolicy: PolicySet)
    requires Start(k, s, control, pinned, livePolicy).Some? && k.image.Some?
    ensures Start(k, s, control, pinned, livePolicy).value.epoch > k.image.value.state.epoch
  {
    hide Import, ReadImage;
    ReadIsBack(k.image.value, s.runtime.limits);
  }

  /** The start epoch is set, exceeds the recovered one, and is the pinned epoch or no lower than the control's. */
  lemma StartEpochMeaning(control: u64, pinned: u64, recovered: Option<u64>)
    ensures var e := StartEpoch(control, pinned, recovered);
            && (e.None? <==>
                  recovered.Some? && (recovered.value == U64_MAX || (pinned != 0 && pinned <= recovered.value)))
            && (e.Some? ==>
                  && e.value != 0
                  && (recovered.Some? ==> e.value > recovered.value)
                  && (pinned != 0 ==> e.value == pinned)
                  && (pinned == 0 ==> e.value >= control)
                  && (pinned == 0 && control != 0 && (recovered.Some? ==> control > recovered.value) ==>
                       e.value == control))
  {
  }

  lemma FreshIsAcknowledged(policy: PolicySet, epoch: u64)
    ensures Acknowledged(Fresh(policy, epoch)) && WorkersSound(Fresh(policy, epoch))
            && FencesStored(Fresh(policy, epoch))
    ensures forall names: string -> string :: Backed(Fresh(policy, epoch), names)
  {
  }
}
