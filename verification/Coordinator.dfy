/** The coordinator as messages over the runtime: workers, fences, the stored image, and restarts from it. */
module Coordinator {
  import opened Base
  import opened Model
  import opened Evidence
  import opened RuntimeState
  import opened RuntimeRuns
  import opened Publication
  import opened Recovery
  import opened StoreImages
  import DurableCodec
  import PathCodec
  import PathShape

  datatype Worker = Worker(publisher: string, connection: nat)

  /**
   * Three fields are history: the boots whose publish was ever acknowledged as accepted, the paths whose revocation
   * was, and whether the store ever refused a write.
   */
  datatype Coordinator = Coordinator(
    rt: Runtime, workers: map<string, Worker>, fenced: set<string>, connections: map<nat, set<string>>,
    nextConnection: nat, epoch: u64, policy: PolicySet, image: Option<Image>, acked: set<string>,
    ackedRevocations: set<string>, histories: map<string, seq<DurableCodec.HistoryEntry>>, refused: bool)

  datatype Settings = Settings(runtime: Config, maxWorkers: nat)

  datatype Envelope = Envelope(boot: string, publisher: string, epoch: u64, attempt: string)

  datatype PublishMessage = PublishMessage(
    envelope: Envelope, path: PathDefinition, decision: Decision, expected: Option<u64>)

  datatype RevokeMessage = RevokeMessage(
    envelope: Envelope, path: string, reason: nat, explanation: string, authority: string, expected: Option<u64>)

  datatype Message =
    | Connect
    | RegisterWorker(connection: nat, envelope: Envelope)
    | PublishPath(connection: nat, publish: PublishMessage)
    | RevokePath(connection: nat, revoke: RevokeMessage)
    | Disconnect(connection: nat, order: seq<string>)
    | Internal(step: Step)
    | Log(path: string, entries: seq<DurableCodec.HistoryEntry>)
    | ChangeEpoch(epoch: u64)
    | ChangePolicy(policy: PolicySet)
    | Crash(controlEpoch: u64, pinned: u64, livePolicy: PolicySet)

  /** decode_envelope accepts it. */
  predicate WellFormedEnvelope(e: Envelope) {
    && e.epoch != 0 && PathCodec.IdentityText(e.publisher, DurableCodec.PUBLISHER_LENGTH)
    && PathCodec.IdentityText(e.boot, DurableCodec.BOOT_LENGTH)
    && (e.attempt != "" ==> PathCodec.IdentityText(e.attempt, DurableCodec.ATTEMPT_LENGTH))
  }

  // ---- the store ---------------------------------------------------------------------------------

  /** Every registered boot is fenced for the next incarnation. */
  function ImageOf(k: Coordinator): Image {
    Image(Export(k.rt, k.epoch, k.policy).(fenced := k.fenced + k.workers.Keys), k.histories)
  }

  /** persist: what the encoder refuses is not written, and the image that was there stays. */
  function Persist(k: Coordinator, limits: Limits): Coordinator {
    if Writable(ImageOf(k), limits) then k.(image := Some(ImageOf(k))) else k.(refused := true)
  }

  // ---- messages -------------------------------------------------------------------------------------

  predicate Live(k: Coordinator, connection: nat) { connection in k.connections }

  /** handle_register. */
  function HandleRegister(k: Coordinator, s: Settings, connection: nat, e: Envelope): (Coordinator, bool) {
    if !Live(k, connection) || !WellFormedEnvelope(e) || e.boot in k.fenced || |k.workers| >= s.maxWorkers then
      (k, false)
    else
      (k.(workers := k.workers[e.boot := Worker(e.publisher, connection)],
          connections := k.connections[connection := k.connections[connection] + {e.boot}]), true)
  }

  predicate RegisteredOn(k: Coordinator, boot: string, connection: nat) {
    boot in k.workers && k.workers[boot].connection == connection
  }

  function RequestOf(e: Envelope, expected: Option<u64>): EvaluationRequest {
    EvaluationRequest(e.attempt, expected, Some(e.epoch), e.publisher, e.boot, true)
  }

  /** handle_publish. */
  function HandlePublish(k: Coordinator, s: Settings, connection: nat, m: PublishMessage): (Coordinator, Answer) {
    var e := m.envelope;
    if !Live(k, connection) || !WellFormedEnvelope(e) then (k, Answer(MalformedPath, false, false, 0))
    else if e.boot in k.fenced || !RegisteredOn(k, e.boot, connection) then (k, Answer(StaleAuthority, false, false, 0))
    else
      var (rt', answer) := Publish(k.rt, s.runtime, m.path, m.decision, RequestOf(e, m.expected), k.policy, k.epoch);
      var k' := k.(rt := rt');
      (if Accepted(answer) then Persist(k'.(acked := k.acked + {e.boot}), s.runtime.limits) else k', answer)
  }

  datatype RevokeAnswer = RefusedRevocation(outcome: Outcome) | Ran(result: MutationResult)

  predicate AcceptedRevocation(a: RevokeAnswer) { a.Ran? && (a.result.Applied? || a.result.Repeated?) }

  /** handle_revoke; the durable flag keeps its default. */
  function HandleRevoke(k: Coordinator, s: Settings, connection: nat, m: RevokeMessage): (Coordinator, RevokeAnswer) {
    var e := m.envelope;
    if !Live(k, connection) || !WellFormedEnvelope(e) then (k, RefusedRevocation(MalformedPath))
    else if e.boot in k.fenced || !RegisteredOn(k, e.boot, connection) then (k, RefusedRevocation(StaleAuthority))
    else if e.epoch != k.epoch then (k, RefusedRevocation(StaleEpoch))
    else
      var q := RevokeRequest(e.attempt, m.reason, m.explanation, m.authority, m.expected, true);
      var (rt', result) := Revoke(k.rt, m.path, q, k.epoch, s.runtime.limits);
      var k' := k.(rt := rt');
      var stored := Persist(k'.(ackedRevocations := k.ackedRevocations + {m.path}), s.runtime.limits);
      (if AcceptedRevocation(Ran(result)) then stored else k', Ran(result))
  }

  // ---- a lost connection -------------------------------------------------------------------------------

  /** The boots of the connection that are still registered. */
  function Lost(workers: map<string, Worker>, order: seq<string>): seq<string> {
    if order == [] then []
    else if order[0] in workers then [order[0]] + Lost(workers - {order[0]}, order[1..])
    else Lost(workers, order[1..])
  }

  /** A lost boot is fenced while there is room for the fence. */
  function Fence(fenced: set<string>, lost: seq<string>, max: nat): set<string>
    decreases |lost|
  {
    if lost == [] then fenced else Fence(if |fenced| < max then fenced + {lost[0]} else fenced, lost[1..], max)
  }

  function LoseAll(rt: Runtime, workers: map<string, Worker>, lost: seq<string>): Runtime
    requires forall b :: b in lost ==> b in workers
    decreases |lost|
  {
    if lost == [] then rt else LoseAll(LosePublisher(rt, workers[lost[0]].publisher, lost[0]), workers, lost[1..])
  }

  lemma {:induction false} LostMembers(workers: map<string, Worker>, order: seq<string>)
    ensures forall b :: b in Lost(workers, order) <==> b in order && b in workers
    ensures forall i, j :: 0 <= i < j < |Lost(workers, order)| ==> Lost(workers, order)[i] != Lost(workers, order)[j]
    ensures |Lost(workers, order)| <= |workers|
    decreases |order|
  {
    if order != [] {
      var rest := if order[0] in workers then workers - {order[0]} else workers;
      LostMembers(rest, order[1..]);
      assert forall b :: b in order <==> b == order[0] || b in order[1..];
      assert forall b :: b in Lost(rest, order[1..]) ==> b in rest;
    }
  }

  /** The lost boots are fenced and unregistered, and what they published is marked. */
  function Drop(k: Coordinator, s: Settings, connection: nat, lost: seq<string>): Coordinator
    requires forall b :: b in lost ==> b in k.workers
  {
    k.(fenced := Fence(k.fenced, lost, s.runtime.limits.maxPublishers),
      workers := k.workers - (set b | b in lost),
      connections := k.connections - {connection},
      rt := LoseAll(k.rt, k.workers, lost))
  }

  /** fence_connection_workers, for a set that is walked in the given order. */
  function HandleDisconnect(k: Coordinator, s: Settings, connection: nat, order: seq<string>): Coordinator {
    if !Live(k, connection) || (set b | b in order) != k.connections[connection] then k
    else
      var lost := Lost(k.workers, order);
      LostMembers(k.workers, order);
      var k' := Drop(k, s, connection, lost);
      if lost != [] then Persist(k', s.runtime.limits) else k'
  }

  // ---- start ---------------------------------------------------------------------------------------------

  /** The epoch a coordinator starts in; zero is unset. */
  function StartEpoch(control: u64, pinned: u64, recovered: Option<u64>): Option<u64> {
    if recovered.Some? && recovered.value == U64_MAX then None
    else
      var next := if recovered.Some? then recovered.value + 1 else 0;
      if pinned != 0 then (if pinned < next then None else Some(pinned))
      else if control < next then Some(next)
      else if control == 0 then Some(1) else Some(control)
  }

  /** The ids under which stored paths come back. */
  function Renamed(paths: set<string>, d: Durable): set<string> {
    set p | p in paths && p in d.records :: NewId(d, p)
  }

  /**
   * start after the loss of everything but the store; none when the start fails. The store stays as it is; the
   * image is from then on known under the ids that it is read back with.
   */
  function Start(k: Coordinator, s: Settings, control: u64, pinned: u64, livePolicy: PolicySet): Option<Coordinator> {
    if k.image.None? then
      var epoch :- StartEpoch(control, pinned, None);
      Some(Coordinator(EmptyRuntime(), map[], {}, map[], 0, epoch, livePolicy, None, k.acked, k.ackedRevocations,
        map[], k.refused))
    else
      var read :- ReadImage(k.image.value, s.runtime.limits);
      var rt :- Import(EmptyRuntime(), read.state, livePolicy, s.runtime.limits);
      var epoch :- StartEpoch(control, pinned, Some(read.state.epoch));
      Some(Coordinator(rt, map[], read.state.fenced, map[], 0, epoch, livePolicy, Some(read), k.acked,
        Renamed(k.ackedRevocations, k.image.value.state), read.histories, k.refused))
  }

  /** What evaluate, publish_decision and register_constraint_set make sure of before they write. */
  predicate Vetted(rt: Runtime, limits: Limits, step: Step) {
    match step
    case Decide(q) =>
      && ProperRequest(q) && PathShape.Shape(q.path, limits, false) == PathShape.Valid
      && q.path.constraintSet in rt.sets
      && (limits.maxDependenciesPerPath >= 2 ==> ValidEvidence(q.evidence))
    case PutSet(c) => RegistrableSet(c, limits) && c.generation == NextSetGeneration(rt, c.id)
    case _ => true
  }

  /** What the process does besides messages: its own evaluations carry no boot. */
  predicate InternalStep(rt: Runtime, limits: Limits, step: Step) {
    Vetted(rt, limits, step) && (step.Decide? ==> step.request.workerBoot == "")
  }

  /**
   * One message. What the runtime appends to the history lists is left open: a list may be set to anything at any
   * time, also ahead of the message that appends to it.
   */
  function Handle(k: Coordinator, s: Settings, m: Message): Option<Coordinator> {
    match m
    case Connect =>
      Some(k.(connections := k.connections[k.nextConnection := {}], nextConnection := k.nextConnection + 1))
    case RegisterWorker(connection, e) => Some(HandleRegister(k, s, connection, e).0)
    case PublishPath(connection, p) => Some(HandlePublish(k, s, connection, p).0)
    case RevokePath(connection, r) => Some(HandleRevoke(k, s, connection, r).0)
    case Disconnect(connection, order) => Some(HandleDisconnect(k, s, connection, order))
    case Internal(step) =>
      Some(if InternalStep(k.rt, s.runtime.limits, step) then k.(rt := Apply(k.rt, s.runtime, step)) else k)
    case Log(path, entries) => Some(k.(histories := k.histories[path := entries]))
    case ChangeEpoch(epoch) => Some(k.(epoch := epoch))
    case ChangePolicy(policy) => Some(k.(policy := policy))
    case Crash(control, pinned, livePolicy) => Start(k, s, control, pinned, livePolicy)
  }

  function RunMessages(k: Coordinator, s: Settings, ms: seq<Message>): Option<Coordinator>
    decreases |ms|
  {
    if ms == [] then Some(k)
    else
      var next :- Handle(k, s, ms[0]);
      RunMessages(next, s, ms[1..])
  }

  function Fresh(policy: PolicySet, epoch: u64): Coordinator {
    Coordinator(EmptyRuntime(), map[], {}, map[], 0, epoch, policy, None, {}, {}, map[], false)
  }

  // ---- fenced boots -----------------------------------------------------------------------------------------

  /** Nothing that a fenced boot sends is accepted, and none of it changes anything. */
  lemma FencedIsRefused(k: Coordinator, s: Settings, connection: nat, e: Envelope, p: PublishMessage, r: RevokeMessage)
    requires e.boot in k.fenced && p.envelope == e && r.envelope == e
    ensures HandleRegister(k, s, connection, e) == (k, false)
    ensures HandlePublish(k, s, connection, p).0 == k && !Accepted(HandlePublish(k, s, connection, p).1)
    ensures HandleRevoke(k, s, connection, r).0 == k && !AcceptedRevocation(HandleRevoke(k, s, connection, r).1)
  {
    hide Publish, Revoke, Persist;
  }

  /** An accepted publish comes from a boot that is registered on its connection and not fenced. */
  lemma AcceptedIsRegistered(k: Coordinator, s: Settings, connection: nat, p: PublishMessage)
    requires Accepted(HandlePublish(k, s, connection, p).1)
    ensures p.envelope.boot in k.workers && k.workers[p.envelope.boot].connection == connection
            && p.envelope.boot !in k.fenced
  {
    hide Publish, Persist;
  }

  function Members(boots: seq<string>): set<string> { set b | b in boots }

  /** How many of the lost boots find room. */
  function FenceRoom(fenced: set<string>, lost: seq<string>, max: nat): nat {
    if |fenced| >= max then 0 else if |fenced| + |lost| <= max then |lost| else max - |fenced|
  }

  /** Of lost boots that are distinct and not fenced yet, as many as there is room for are fenced, in their order. */
  lemma {:induction false} FenceMeaning(fenced: set<string>, lost: seq<string>, max: nat)
    requires Distinct(lost) && forall b :: b in lost ==> b !in fenced
    ensures Fence(fenced, lost, max) == fenced + Members(lost[..FenceRoom(fenced, lost, max)])
    decreases |lost|
  {
    hide Distinct;
    if lost != [] {
      OthersDiffer(lost);
      assert forall b :: b in lost <==> b == lost[0] || b in lost[1..];
      if |fenced| < max {
        var n := FenceRoom(fenced, lost, max);
        FenceMeaning(fenced + {lost[0]}, lost[1..], max);
        FirstOfPrefix(lost, n);
      } else {
        FenceMeaning(fenced, lost[1..], max);
      }
    }
  }

  lemma FirstOfPrefix(lost: seq<string>, n: nat)
    requires 0 < n <= |lost|
    ensures Members(lost[..n]) == {lost[0]} + Members(lost[1..][..n - 1])
  {
    assert lost[..n] == [lost[0]] + lost[1..][..n - 1];
  }

  lemma OthersDiffer(lost: seq<string>)
    requires lost != [] && Distinct(lost)
    ensures Distinct(lost[1..]) && lost[0] !in lost[1..]
  {
    assert forall i :: 0 <= i < |lost| - 1 ==> lost[1..][i] == lost[i + 1];
  }

  /** So all of them are fenced exactly when there is room for all. */
  lemma FencedWithRoom(fenced: set<string>, lost: seq<string>, max: nat)
    requires Distinct(lost) && forall b :: b in lost ==> b !in fenced
    ensures (forall b :: b in lost ==> b in Fence(fenced, lost, max)) <==> lost == [] || |fenced| + |lost| <= max
  {
    hide Fence;
    FenceMeaning(fenced, lost, max);
    var n := FenceRoom(fenced, lost, max);
    if n < |lost| { assert lost[n] in lost && lost[n] !in lost[..n]; }
  }

  lemma {:induction false} FenceGrows(fenced: set<string>, lost: seq<string>, max: nat)
    ensures fenced <= Fence(fenced, lost, max)
    ensures forall b :: b in Fence(fenced, lost, max) ==> b in fenced || b in lost
    ensures |fenced| + |lost| <= max ==> forall b :: b in lost ==> b in Fence(fenced, lost, max)
    ensures |fenced| <= max ==> |Fence(fenced, lost, max)| <= max
    decreases |lost|
  {
    if lost != [] {
      var next := if |fenced| < max then fenced + {lost[0]} else fenced;
      FenceGrows(next, lost[1..], max);
      assert |fenced + {lost[0]}| <= |fenced| + 1;
      assert forall b :: b in lost <==> b == lost[0] || b in lost[1..];
    }
  }
}
