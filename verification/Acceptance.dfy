/** When the coordinator accepts a registration, a publication or a revocation, and what it answers when it does not. */
module Acceptance {
  import opened Base
  import opened Model
  import opened RuntimeState
  import opened Publication
  import opened Coordinator
  import opened Gates
  import RuntimeRuns
  import Recovery
  import StoreImages

  /** What a message has to be before anything in it is looked at, and who may send it. */
  function SenderGates(k: Coordinator, connection: nat, e: Envelope): seq<Gate<Outcome>> {
    [Gate(connection in k.connections && WellFormedEnvelope(e), MalformedPath),
     Gate(e.boot !in k.fenced, StaleAuthority),
     Gate(e.boot in k.workers && k.workers[e.boot].connection == connection, StaleAuthority)]
  }

  function PublishMessageGates(k: Coordinator, s: Settings, connection: nat, m: PublishMessage): seq<Gate<Outcome>> {
    var e := m.envelope;
    var request := EvaluationRequest(e.attempt, m.expected, Some(e.epoch), e.publisher, e.boot, true);
    SenderGates(k, connection, e)
    + (PublishGates(k.rt, s.runtime, m.path, m.decision, request, k.policy, k.epoch)
       + CommitGates(k.rt, s.runtime, m.path.id, m.decision.evidence, m.expected, m.decision.authorityDigest))
  }

  lemma SenderFirst(k: Coordinator, connection: nat, e: Envelope)
    ensures First(SenderGates(k, connection, e)) ==
            if !Live(k, connection) || !WellFormedEnvelope(e) then Some(MalformedPath)
            else if e.boot in k.fenced || !RegisteredOn(k, e.boot, connection) then Some(StaleAuthority)
            else None
  {
    hide First, WellFormedEnvelope;
    var g := SenderGates(k, connection, e);
    FirstOfThree(g[0], g[1], g[2]);
  }

  lemma PublishFirstFailure(k: Coordinator, s: Settings, connection: nat, m: PublishMessage)
    ensures var first := First(PublishMessageGates(k, s, connection, m));
            var answer := HandlePublish(k, s, connection, m).1;
            && (Accepted(answer) <==> first.None?)
            && (first.Some? ==> answer == Answer(first.value, false, false, 0))
  {
    hide First, PublishGates, CommitGates, SenderGates, Publish, Persist, WellFormedEnvelope, Passed, Gates.Refuses;
    var e := m.envelope;
    var request := EvaluationRequest(e.attempt, m.expected, Some(e.epoch), e.publisher, e.boot, true);
    var sent := SenderGates(k, connection, e);
    var checked := PublishGates(k.rt, s.runtime, m.path, m.decision, request, k.policy, k.epoch)
                   + CommitGates(k.rt, s.runtime, m.path.id, m.decision.evidence, m.expected,
                     m.decision.authorityDigest);
    SenderFirst(k, connection, e);
    FirstPlus(sent, checked);
    var outcome := if First(checked).Some? then First(checked).value else MalformedPath;
    PublishAnswers(k.rt, s.runtime, m.path, m.decision, request, k.policy, k.epoch, outcome);
    FirstMeaning(checked, outcome);
  }

  /**
   * A publication is accepted exactly when its sender, its decision and the commit pass every check; otherwise it is
   * answered with the outcome of the first check that fails.
   */
  lemma PublishIsAcceptedExactly(k: Coordinator, s: Settings, connection: nat, m: PublishMessage, outcome: Outcome)
    ensures var gates := PublishMessageGates(k, s, connection, m);
            var answer := HandlePublish(k, s, connection, m).1;
            && (Accepted(answer) <==> Passed(gates))
            && (answer == Answer(outcome, false, false, 0) <==> Gates.Refuses(gates, outcome))
  {
    hide First, PublishMessageGates, HandlePublish, Passed, Gates.Refuses;
    PublishFirstFailure(k, s, connection, m);
    FirstMeaning(PublishMessageGates(k, s, connection, m), outcome);
  }

  lemma GateOf<T>(a: seq<Gate<T>>, b: seq<Gate<T>>, c: seq<Gate<T>>, g: Gate<T>)
    requires Passed(a + b + c) && g in b
    ensures g.passes
  {
    var n :| 0 <= n < |b| && b[n] == g;
    assert (a + b + c)[|a| + n] == g;
  }

  /** An accepted publication asserted the coordinator's epoch, and so did its evidence, which binds the live policy. */
  lemma AcceptedIsCurrent(k: Coordinator, s: Settings, connection: nat, m: PublishMessage)
    requires Accepted(HandlePublish(k, s, connection, m).1)
    ensures m.envelope.epoch == k.epoch
    ensures BindsScalar(m.decision.evidence, Epoch, k.epoch)
    ensures BindsScalar(m.decision.evidence, Policy, k.policy.generation)
    ensures NotRevoked(k.rt, m.path.id) && NotRetired(k.rt, m.path.id)
  {
    hide PublishGates, PreparePublish, Commit, BindsScalar, WellFormedEnvelope, Persist, Passed;
    var e := m.envelope;
    var request := EvaluationRequest(e.attempt, m.expected, Some(e.epoch), e.publisher, e.boot, true);
    var prepared := PreparePublish(k.rt, s.runtime, m.path, m.decision, request, k.policy, k.epoch);
    assert prepared.Ready?;
    PublishByGates(k.rt, s.runtime, m.path, m.decision, request, k.policy, k.epoch, MalformedPath);
    PassedMeansCurrent(k, s, m, request);
  }

  lemma PassedMeansCurrent(k: Coordinator, s: Settings, m: PublishMessage, request: EvaluationRequest)
    requires Passed(PublishGates(k.rt, s.runtime, m.path, m.decision, request, k.policy, k.epoch))
    ensures AssertsCurrentEpoch(request, k.epoch)
    ensures BindsScalar(m.decision.evidence, Epoch, k.epoch)
    ensures BindsScalar(m.decision.evidence, Policy, k.policy.generation)
    ensures NotRevoked(k.rt, m.path.id) && NotRetired(k.rt, m.path.id)
  {
    hide ShapeGates, Reported, BindsScalar, StateForOutcome, Recovery.ValidEvidence, InputDigestOf, PathDigestOf,
      ConstraintDigestOf, AuthorityDigestOf, AttemptAgrees, AssertsCurrentEpoch, NotRevoked, NotRetired, Passed;
    var d := m.decision;
    var shape := Reported(ShapeGates(m.path, s.runtime.limits, request.requireIdentityBinding));
    var own: seq<Gate<Outcome>> := [Gate(d.state == StateForOutcome(d.primary), MalformedPath),
                                    Gate(Recovery.ValidEvidence(d.evidence), MalformedPath)];
    var sets := SetGates(k.rt, m.path);
    if m.path.constraintSet in k.rt.sets {
      var constraints := k.rt.sets[m.path.constraintSet];
      var current := CurrencyGates(d, request, k.policy, k.epoch);
      var digests := DigestGates(m.path, d, constraints);
      var standing := StandingGates(k.rt, m.path, request, constraints, k.policy, k.epoch);
      var front := shape + own + sets;
      var gates := PublishGates(k.rt, s.runtime, m.path, d, request, k.policy, k.epoch);
      assert gates == front + (current + digests + standing);
      assert gates == front + current + (digests + standing);
      assert gates == (front + current + digests) + standing + [];
      GateOf(front, current, digests + standing, current[0]);
      GateOf(front, current, digests + standing, current[1]);
      GateOf(front, current, digests + standing, current[2]);
      GateOf(front + current + digests, standing, [], standing[0]);
      GateOf(front + current + digests, standing, [], standing[1]);
    } else {
      assert PublishGates(k.rt, s.runtime, m.path, d, request, k.policy, k.epoch) == (shape + own) + sets + [];
      GateOf(shape + own, sets, [], sets[0]);
    }
  }

  // ---- revocations -----------------------------------------------------------------------------------------

  function Refusing(gates: seq<Gate<Outcome>>): seq<Gate<RevokeAnswer>> {
    seq(|gates|, n requires 0 <= n < |gates| => Gate(gates[n].passes, RefusedRevocation(gates[n].refusal)))
  }

  function Running(gates: seq<Gate<MutationResult>>): seq<Gate<RevokeAnswer>> {
    seq(|gates|, n requires 0 <= n < |gates| => Gate(gates[n].passes, Ran(gates[n].refusal)))
  }

  /** A revocation is durable. */
  function RevocationOf(m: RevokeMessage): RevokeRequest {
    RevokeRequest(m.envelope.attempt, m.reason, m.explanation, m.authority, m.expected, true)
  }

  function RevokeMessageGates(k: Coordinator, s: Settings, connection: nat,
      m: RevokeMessage): seq<Gate<RevokeAnswer>> {
    Refusing(SenderGates(k, connection, m.envelope) + [Gate(m.envelope.epoch == k.epoch, StaleEpoch)])
    + Running(RevokeGates(k.rt, m.path, RevocationOf(m), s.runtime.limits))
  }

  lemma {:induction false} RefusingFirst(gates: seq<Gate<Outcome>>)
    ensures First(Refusing(gates)) == match First(gates) case None => None case Some(o) => Some(RefusedRevocation(o))
  {
    if gates != [] {
      RefusingFirst(gates[1..]);
      assert Refusing(gates)[1..] == Refusing(gates[1..]);
    }
  }

  lemma {:induction false} RunningFirst(gates: seq<Gate<MutationResult>>)
    ensures First(Running(gates)) == match First(gates) case None => None case Some(r) => Some(Ran(r))
  {
    if gates != [] {
      RunningFirst(gates[1..]);
      assert Running(gates)[1..] == Running(gates[1..]);
    }
  }

  lemma RevokeFirstFailure(k: Coordinator, s: Settings, connection: nat, m: RevokeMessage)
    ensures var first := First(RevokeMessageGates(k, s, connection, m));
            var answer := HandleRevoke(k, s, connection, m).1;
            && (AcceptedRevocation(answer) <==> first.None?)
            && (first.Some? ==> answer == first.value)
  {
    hide First, SenderGates, RevokeGates, Revoke, Persist, WellFormedEnvelope, Refusing, Running, Passed,
      Gates.Refuses;
    var current: Gate<Outcome> := Gate(m.envelope.epoch == k.epoch, StaleEpoch);
    var sent, run :=
      SenderGates(k, connection, m.envelope), RevokeGates(k.rt, m.path, RevocationOf(m), s.runtime.limits);
    SenderFirst(k, connection, m.envelope);
    FirstOfTwo(current, current);
    FirstPlus(sent, [current]);
    RefusingFirst(sent + [current]);
    RunningFirst(run);
    FirstPlus(Refusing(sent + [current]), Running(run));
    var result := if First(run).Some? then First(run).value else NoRecord;
    RevokeByGates(k.rt, m.path, RevocationOf(m), k.epoch, s.runtime.limits, result);
    FirstMeaning(run, result);
    NeverDone(k.rt, m.path, RevocationOf(m), s.runtime.limits);
  }

  lemma NeverDone(rt: Runtime, path: string, q: RevokeRequest, limits: Limits)
    ensures First(RevokeGates(rt, path, q, limits)).Some? ==> !Done(First(RevokeGates(rt, path, q, limits)).value)
  {
    hide First, ExpectsCurrent, AlreadyRevoked, GenerationLeft;
    var g := RevokeGates(rt, path, q, limits);
    FirstOfFour(g[0], g[1], g[2], g[3]);
  }

  /**
   * A revocation is accepted exactly when its sender passes every check, its epoch is the coordinator's and the
   * runtime accepts it; otherwise it is answered with the first check that fails.
   */
  lemma RevocationIsAcceptedExactly(k: Coordinator, s: Settings, connection: nat, m: RevokeMessage,
      answer: RevokeAnswer)
    ensures var gates := RevokeMessageGates(k, s, connection, m);
            && (AcceptedRevocation(HandleRevoke(k, s, connection, m).1) <==> Passed(gates))
            && (!AcceptedRevocation(answer) ==>
                  (HandleRevoke(k, s, connection, m).1 == answer <==> Gates.Refuses(gates, answer)))
  {
    hide First, RevokeMessageGates, HandleRevoke, Passed, Gates.Refuses;
    RevokeFirstFailure(k, s, connection, m);
    FirstMeaning(RevokeMessageGates(k, s, connection, m), answer);
  }

  // ---- registrations ------------------------------------------------------------------------------------------

  /** A boot is known for one connection alone, and every other boot stays as it was. */
  ghost predicate KnownOn(k: Coordinator, k': Coordinator, connection: nat, e: Envelope) {
    && k'.workers.Keys == k.workers.Keys + {e.boot}
    && k'.workers[e.boot].publisher == e.publisher && k'.workers[e.boot].connection == connection
    && forall b :: b in k.workers && b != e.boot ==> k'.workers[b] == k.workers[b]
  }

  /** The connection holds the boot besides the boots it held; no other connection changes. */
  ghost predicate HeldBy(k: Coordinator, k': Coordinator, connection: nat, boot: string) {
    && k'.connections.Keys == k.connections.Keys
    && forall n :: n in k.connections ==>
         k'.connections[n] == if n == connection then k.connections[n] + {boot} else k.connections[n]
  }

  /** A boot is registered exactly on a live connection, with a well-formed envelope, not fenced, and with room left. */
  lemma RegistrationIsAcceptedExactly(k: Coordinator, s: Settings, connection: nat, e: Envelope)
    ensures HandleRegister(k, s, connection, e).1 <==>
            connection in k.connections && WellFormedEnvelope(e) && e.boot !in k.fenced && |k.workers| < s.maxWorkers
    ensures !HandleRegister(k, s, connection, e).1 ==> HandleRegister(k, s, connection, e).0 == k
  {
    hide WellFormedEnvelope;
  }

  /** It is then known for that connection, and nothing else changes. */
  lemma RegistrationWrites(k: Coordinator, s: Settings, connection: nat, e: Envelope)
    requires HandleRegister(k, s, connection, e).1
    ensures var k' := HandleRegister(k, s, connection, e).0;
            k' == k.(workers := k'.workers, connections := k'.connections)
    ensures KnownOn(k, HandleRegister(k, s, connection, e).0, connection, e)
    ensures HeldBy(k, HandleRegister(k, s, connection, e).0, connection, e.boot)
  {
    hide WellFormedEnvelope, HeldBy, KnownOn;
    var k' := HandleRegister(k, s, connection, e).0;
    Known(k, k', connection, e);
    Held(k, k', connection, e.boot);
  }

  lemma Known(k: Coordinator, k': Coordinator, connection: nat, e: Envelope)
    requires k'.workers == k.workers[e.boot := Worker(e.publisher, connection)]
    ensures KnownOn(k, k', connection, e)
  {
  }

  lemma Held(k: Coordinator, k': Coordinator, connection: nat, boot: string)
    requires connection in k.connections
    requires k'.connections == k.connections[connection := k.connections[connection] + {boot}]
    ensures HeldBy(k, k', connection, boot)
  {
  }
}
