/**
 * The attempt log. The documentation says that an attempt id which is used again with other input is a conflict; this
 * is when it is, and when the bounded log has forgotten the id.
 */
module Attempts {
  import opened Base
  import opened Model
  import opened RuntimeState
  import opened RuntimeRuns
  import opened Publication
  import opened Scenarios
  import PathShape
  import Recovery

  /** The step gives the log an id that it does not hold. */
  predicate Enters(rt: Runtime, c: Config, s: Step) {
    s.Decide? && s.request.attempt != "" && s.request.attempt !in rt.attempts && !Commit(rt, c, s.request).1.Refused?
  }

  /** How many ids enter the log along the run. */
  function Entries(rt: Runtime, c: Config, steps: seq<Step>): nat
    decreases |steps|
  {
    if steps == [] then 0
    else (if Enters(rt, c, steps[0]) then 1 else 0) + Entries(Apply(rt, c, steps[0]), c, steps[1..])
  }

  predicate Uses(s: Step, attempt: string) { s.Decide? && s.request.attempt == attempt }

  lemma FullLog(attempts: map<string, Attempt>, order: seq<string>, max: nat)
    requires 0 < max && |order| <= max + 1
    ensures Trim(attempts, order, max) ==
            if |order| <= max then (attempts, order) else (attempts - {order[0]}, order[1..])
  {
  }

  /** A new id goes to the end, and a full log drops its oldest one; an id that is there is updated in place. */
  lemma RememberLog(rt: Runtime, attempt: string, path: string, digest: Digest, limits: Limits)
    requires AttemptsTracked(rt, limits) && limits.maxOutstandingAttempts > 0 && attempt != ""
    ensures var rt' := RememberAttempt(rt, attempt, path, digest, limits);
            && rt'.attemptOrder == (if attempt in rt.attempts then rt.attemptOrder
                                    else Kept(rt.attemptOrder, limits.maxOutstandingAttempts) + [attempt])
            && (forall a :: a != attempt && a in rt'.attempts ==> a in rt.attempts && rt'.attempts[a] == rt.attempts[a])
  {
    hide Trim;
    if attempt !in rt.attempts {
      FullLog(rt.attempts[attempt := Attempt(path, digest)], rt.attemptOrder + [attempt],
        limits.maxOutstandingAttempts);
    }
  }

  /** What is left of the log when another id comes in. */
  function Kept(order: seq<string>, max: nat): seq<string> {
    if |order| < max || order == [] then order else order[1..]
  }

  /** What Commit does to the log. */
  function Logged(rt: Runtime, c: Config, s: Step): Runtime {
    if s.Decide? && !Commit(rt, c, s.request).1.Refused? then
      RememberAttempt(rt, s.request.attempt, s.request.path.id, s.request.inputDigest, c.limits)
    else rt
  }

  lemma OnlyCommitsAreLogged(rt: Runtime, c: Config, s: Step)
    ensures Apply(rt, c, s).attempts == Logged(rt, c, s).attempts
    ensures Apply(rt, c, s).attemptOrder == Logged(rt, c, s).attemptOrder
  {
    hide Commit, RememberAttempt, TouchAll, Mark, RevokedRecord, RetiredRecord, SameRevocation, MarkWhere;
    if s.Decide? { CommitIsLogged(rt, c, s.request); }
  }

  lemma CommitIsLogged(rt: Runtime, c: Config, q: CommitRequest)
    ensures Commit(rt, c, q).0.attempts == Logged(rt, c, Decide(q)).attempts
    ensures Commit(rt, c, q).0.attemptOrder == Logged(rt, c, Decide(q)).attemptOrder
  {
    hide Refusal, Replays, Unfile, NewRecord, RememberAttempt, Filed, IndexKeys;
    var g := CurrentGeneration(rt, q.path.id);
    var next := NewRecord(rt, q, if g < U64_MAX then g + 1 else g, c.limits);
    SameLog(rt, Store(rt, next), q.attempt, q.path.id, q.inputDigest, c.limits);
  }

  /** The log that comes of remembering an id depends on the log alone. */
  lemma SameLog(rt: Runtime, rt': Runtime, attempt: string, path: string, digest: Digest, limits: Limits)
    requires rt'.attempts == rt.attempts && rt'.attemptOrder == rt.attemptOrder
    ensures RememberAttempt(rt', attempt, path, digest, limits).attempts ==
            RememberAttempt(rt, attempt, path, digest, limits).attempts
    ensures RememberAttempt(rt', attempt, path, digest, limits).attemptOrder ==
            RememberAttempt(rt, attempt, path, digest, limits).attemptOrder
  {
    hide RememberAttempt;
    LogOf(rt, attempt, path, digest, limits);
    LogOf(rt', attempt, path, digest, limits);
  }

  lemma LogOf(rt: Runtime, attempt: string, path: string, digest: Digest, limits: Limits)
    ensures var rt' := RememberAttempt(rt, attempt, path, digest, limits);
            (rt'.attempts, rt'.attemptOrder) ==
            if attempt == "" then (rt.attempts, rt.attemptOrder)
            else if attempt in rt.attempts then (rt.attempts[attempt := Attempt(path, digest)], rt.attemptOrder)
            else Trim(rt.attempts[attempt := Attempt(path, digest)], rt.attemptOrder + [attempt],
              limits.maxOutstandingAttempts)
  {
    hide Trim;
  }

  /** Along a step the log loses its oldest id exactly when another one enters a full log. */
  lemma StepLog(rt: Runtime, c: Config, s: Step)
    requires AttemptsTracked(rt, c.limits) && c.limits.maxOutstandingAttempts > 0
    ensures var rt' := Apply(rt, c, s);
            && AttemptsTracked(rt', c.limits)
            && rt'.attemptOrder == (if Enters(rt, c, s) then
                                      Kept(rt.attemptOrder, c.limits.maxOutstandingAttempts) + [s.request.attempt]
                                    else rt.attemptOrder)
            && (forall a :: a in rt'.attempts && !Uses(s, a) ==> a in rt.attempts && rt'.attempts[a] == rt.attempts[a])
  {
    hide Commit, Apply, RememberAttempt, Trim, Distinct;
    OnlyCommitsAreLogged(rt, c, s);
    if s.Decide? && !Commit(rt, c, s.request).1.Refused? {
      var q := s.request;
      if q.attempt != "" { RememberLog(rt, q.attempt, q.path.id, q.inputDigest, c.limits); }
      RememberTracks(rt, q.attempt, q.path.id, q.inputDigest, c.limits);
      assert q.attempt == "" ==> Logged(rt, c, s) == rt by { NothingToRemember(rt, q, c.limits); }
    }
  }

  lemma NothingToRemember(rt: Runtime, q: CommitRequest, limits: Limits)
    ensures q.attempt == "" ==> RememberAttempt(rt, q.attempt, q.path.id, q.inputDigest, limits) == rt
  {
  }

  lemma {:induction false} NeverReturns(rt: Runtime, c: Config, attempt: string, steps: seq<Step>)
    requires AttemptsTracked(rt, c.limits) && c.limits.maxOutstandingAttempts > 0 && attempt !in rt.attempts
    requires forall s :: s in steps ==> !Uses(s, attempt)
    ensures attempt !in Run(rt, c, steps).attempts
    decreases |steps|
  {
    hide Apply, AttemptsTracked, Uses;
    if steps != [] {
      StepLog(rt, c, steps[0]);
      NeverReturns(Apply(rt, c, steps[0]), c, attempt, steps[1..]);
    }
  }

  lemma OldestGoes(rt: Runtime, rt1: Runtime, limits: Limits, attempt: string)
    requires AttemptsTracked(rt, limits) && AttemptsTracked(rt1, limits) && rt.attemptOrder != []
    requires attempt != rt.attemptOrder[0] && rt1.attemptOrder == rt.attemptOrder[1..] + [attempt]
    ensures rt.attemptOrder[0] !in rt1.attempts
  {
    assert forall j :: 0 <= j < |rt.attemptOrder| - 1 ==> rt.attemptOrder[1..][j] == rt.attemptOrder[j + 1];
    assert rt.attemptOrder[0] !in rt.attemptOrder[1..];
  }

  /**
   * An id that stands at some place of the log, over any run that does not use it: it is still there, with the input
   * it was remembered with, exactly when the ids that entered since do not push it out.
   */
  lemma {:induction false} RememberedExactly(rt: Runtime, c: Config, place: nat, steps: seq<Step>)
    requires AttemptsTracked(rt, c.limits) && c.limits.maxOutstandingAttempts > 0 && place < |rt.attemptOrder|
    requires forall s :: s in steps ==> !Uses(s, rt.attemptOrder[place])
    ensures rt.attemptOrder[place] in rt.attempts
    ensures var a := rt.attemptOrder[place];
            var rt' := Run(rt, c, steps);
            && (a in rt'.attempts <==>
                  |rt.attemptOrder| + Entries(rt, c, steps) <= place + c.limits.maxOutstandingAttempts)
            && (a in rt'.attempts ==> rt'.attempts[a] == rt.attempts[a])
    decreases |steps|
  {
    hide Apply, Commit, Distinct;
    var a := rt.attemptOrder[place];
    assert a in rt.attemptOrder;
    if steps != [] {
      var rt1 := Apply(rt, c, steps[0]);
      StepLog(rt, c, steps[0]);
      if Enters(rt, c, steps[0]) && |rt.attemptOrder| == c.limits.maxOutstandingAttempts {
        if place == 0 {
          OldestGoes(rt, rt1, c.limits, steps[0].request.attempt);
          NeverReturns(rt1, c, a, steps[1..]);
        } else {
          assert rt1.attemptOrder[place - 1] == a;
          RememberedExactly(rt1, c, place - 1, steps[1..]);
        }
      } else {
        assert rt1.attemptOrder[place] == a;
        RememberedExactly(rt1, c, place, steps[1..]);
      }
    }
  }

  /**
   * A commit enters an id, and other steps follow. Using the id again with some input is a conflict exactly when the
   * input is another one and fewer ids than the log can hold have entered since.
   */
  lemma ReuseConflictsExactly(rt: Runtime, c: Config, q: CommitRequest, steps: seq<Step>, input: Digest)
    requires AttemptsTracked(rt, c.limits) && c.limits.maxOutstandingAttempts > 0 && Enters(rt, c, Decide(q))
    requires forall s :: s in steps ==> !Uses(s, q.attempt)
    ensures var rt1 := Apply(rt, c, Decide(q));
            AttemptConflicts(Run(rt1, c, steps), q.attempt, input) <==>
            input != q.inputDigest && Entries(rt1, c, steps) < c.limits.maxOutstandingAttempts
  {
    hide Apply, Uses, Distinct, RememberAttempt;
    var rt1 := Apply(rt, c, Decide(q));
    StepLog(rt, c, Decide(q));
    var place := |rt1.attemptOrder| - 1;
    assert rt1.attemptOrder[place] == q.attempt;
    RememberedExactly(rt1, c, place, steps);
    EnteredInput(rt, c, q);
  }

  lemma EnteredInput(rt: Runtime, c: Config, q: CommitRequest)
    requires AttemptsTracked(rt, c.limits) && c.limits.maxOutstandingAttempts > 0 && Enters(rt, c, Decide(q))
    ensures q.attempt in Apply(rt, c, Decide(q)).attempts
            && Apply(rt, c, Decide(q)).attempts[q.attempt] == Attempt(q.path.id, q.inputDigest)
  {
    hide Apply, Commit, RememberAttempt, AttemptsTracked;
    OnlyCommitsAreLogged(rt, c, Decide(q));
    RememberTracks(rt, q.attempt, q.path.id, q.inputDigest, c.limits);
  }

  // ---- concrete inputs ----------------------------------------------------------------------------------

  function Under(attempt: string): EvaluationRequest { AnyRequest().(attempt := attempt) }

  /** Publication of a path over the given underlying path under an attempt id. */
  function PublishUnder(rt: Runtime, c: Config, id: string, under: string, attempt: string): (Runtime, Answer) {
    Publish(rt, c, SomePath(id, under), DecisionFor(SomePath(id, under), AuthorizedOutcome), Under(attempt),
      SomePolicy(), 1)
  }

  function ShortLog(): Config { Config(SomeLimits().(maxOutstandingAttempts := 1), true) }

  /** A publication that nothing stands in the way of. */
  lemma PublishedUnder(rt: Runtime, c: Config, id: string, under: string, attempt: string)
    requires c == ShortLog() && id != "" && under != id && Clear(rt, SomePath(id, under)) && NoScalarWatermark(rt)
    requires CurrentGeneration(rt, id) < 5 && |rt.records| < 5 && AttemptsTracked(rt, c.limits)
    requires id in rt.records ==>
               rt.records[id].authorityDigest != DecisionFor(SomePath(id, under), AuthorizedOutcome).authorityDigest
    requires attempt !in rt.attempts && attempt != ""
    ensures var (rt', answer) := PublishUnder(rt, c, id, under, attempt);
            && answer.committed && rt'.sets == rt.sets && rt'.watermarks == rt.watermarks
            && rt'.records.Keys == rt.records.Keys + {id}
            && (forall x :: x in rt.records && x != id ==> rt'.records[x] == rt.records[x])
            && AttemptsTracked(rt', c.limits) && rt'.attemptOrder == [attempt] && attempt in rt'.attempts
            && rt'.attempts[attempt].inputDigest == InputDigestOf(SomePath(id, under), SomeSet(), SomePolicy(), 1)
  {
    hide PathShape.Shape, PreparePublish, Commit, DecisionFor, SomeSet, SomePolicy, InputDigestOf, ProperRequest,
      Checked, RememberAttempt, Distinct, Clear, SomePath;
    var p := SomePath(id, under);
    var q := CommitFor(p, AuthorizedOutcome, Under(attempt));
    assert p.id == id && q.attempt == attempt && q.path == p
      && q.inputDigest == InputDigestOf(p, SomeSet(), SomePolicy(), 1) by { UnderIs(id, under, attempt); }
    SomePathIsShaped(id, under, c.limits);
    DecisionIsReady(rt, c, p, AuthorizedOutcome, Under(attempt));
    DecisionCommits(rt, c, p, AuthorizedOutcome, Under(attempt));
    StepLog(rt, c, Decide(q));
    EnteredInput(rt, c, q);
  }

  lemma UnderIs(id: string, under: string, attempt: string)
    ensures SomePath(id, under).id == id
    ensures var q := CommitFor(SomePath(id, under), AuthorizedOutcome, Under(attempt));
            && q.attempt == attempt && q.path == SomePath(id, under)
            && q.inputDigest == InputDigestOf(SomePath(id, under), SomeSet(), SomePolicy(), 1)
  {
    hide DecisionFor, InputDigestOf, PathDigestOf, ConstraintDigestOf;
  }

  lemma InputsDiffer()
    ensures InputDigestOf(SomePath("p", ""), SomeSet(), SomePolicy(), 1) !=
            InputDigestOf(SomePath("q", "u"), SomeSet(), SomePolicy(), 1)
  {
    hide ConstraintDigestOf;
  }

  lemma NothingLogged(c: Config)
    ensures AttemptsTracked(WithSet(), c.limits) && WithSet().attempts == map[] && WithSet().records == map[]
            && NoScalarWatermark(WithSet()) && WithSet().sets == map["c" := SomeSet()]
  {
  }

  lemma ClearWithoutRecord(rt: Runtime, id: string, under: string)
    requires rt.sets == map["c" := SomeSet()] && id !in rt.records
    ensures Clear(rt, SomePath(id, under))
  {
  }

  /** A conflict answers the publication and changes nothing. */
  lemma ConflictIsRefused(rt: Runtime, c: Config, id: string, under: string, attempt: string)
    requires c == ShortLog() && id != "" && under != id && Clear(rt, SomePath(id, under))
    requires AttemptConflicts(rt, attempt, InputDigestOf(SomePath(id, under), SomeSet(), SomePolicy(), 1))
    ensures var (rt', answer) := PublishUnder(rt, c, id, under, attempt);
            rt' == rt && answer == Answer(EvaluationAttemptConflict, false, false, 0)
  {
    hide PathShape.Shape, SomeEvidence, ConstraintDigestOf, PathDigestOf, InputDigestOf, Codes, Scalar,
      Recovery.ValidEvidence, SomeSet;
    SomePathIsShaped(id, under, c.limits);
    SomeEvidenceIsValid();
    assert SomeSet().generation == 1 by { SetGeneration(); }
  }

  lemma SetGeneration()
    ensures SomeSet().generation == 1
  {
  }

  /**
   * With room for one id: a second publication under the id "x" is a conflict right after the first, and is accepted
   * when another id has been used in between.
   */
  lemma ForgottenAttemptIsAccepted()
    ensures var c := ShortLog();
            var first := PublishUnder(WithSet(), c, "p", "", "x");
            var between := PublishUnder(first.0, c, "r", "", "y");
            && PathShape.ValidLimits(c.limits) && first.1.committed && between.1.committed
            && PublishUnder(first.0, c, "q", "u", "x") == (first.0, Answer(EvaluationAttemptConflict, false, false, 0))
            && PublishUnder(between.0, c, "q", "u", "x").1.committed
  {
    hide PublishUnder, Clear, NoScalarWatermark, AttemptsTracked, SomeSet, SomePolicy, InputDigestOf, DecisionFor,
      WithSet, SomePath;
    var c := ShortLog();
    NothingLogged(c);
    ClearWithoutRecord(WithSet(), "p", "");
    PublishedUnder(WithSet(), c, "p", "", "x");
    var first := PublishUnder(WithSet(), c, "p", "", "x").0;
    InputsDiffer();
    ClearWithoutRecord(first, "q", "u");
    ConflictIsRefused(first, c, "q", "u", "x");
    ClearWithoutRecord(first, "r", "");
    SameWatermarks(WithSet(), first);
    assert "y" !in first.attempts by { OnlyOne(first, c.limits, "x", "y"); }
    PublishedUnder(first, c, "r", "", "y");
    var between := PublishUnder(first, c, "r", "", "y").0;
    ClearWithoutRecord(between, "q", "u");
    SameWatermarks(first, between);
    assert "x" !in between.attempts by { OnlyOne(between, c.limits, "y", "x"); }
    PublishedUnder(between, c, "q", "u", "x");
  }

  lemma SameWatermarks(rt: Runtime, rt': Runtime)
    requires NoScalarWatermark(rt) && rt'.watermarks == rt.watermarks
    ensures NoScalarWatermark(rt')
  {
  }

  lemma OnlyOne(rt: Runtime, limits: Limits, attempt: string, other: string)
    requires AttemptsTracked(rt, limits) && rt.attemptOrder == [attempt] && other != attempt
    ensures other !in rt.attempts
  {
  }
}
