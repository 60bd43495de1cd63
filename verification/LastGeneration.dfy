/** A run of whole operations that wears out the generations of a path, and what the last generation then survives. */
module LastGeneration {
  import opened Base
  import opened Model
  import opened Evidence
  import opened RuntimeState
  import opened RuntimeRuns
  import opened Publication
  import opened Recovery
  import opened Authority
  import opened Scenarios

  function Request(): CommitRequest { CommitFor(SomePath("p", ""), AuthorizedOutcome, AnyRequest()) }

  /** A topology notice marks the path, and its evaluator publishes it again. */
  function Wear(rounds: nat): seq<Operation> {
    if rounds == 0 then [] else Wear(rounds - 1) + [Operation.Notice(OfTopology(1)), Operation.Decision(Request())]
  }

  function FirstTwo(): seq<Operation> { [Registration(SomeSet().(generation := 0)), Operation.Decision(Request())] }

  /** The path authorizes at this generation and nothing else has happened to it. */
  predicate Standing(rt: Runtime, generation: nat) {
    && rt.records.Keys == {"p"}
    && Written(rt.records["p"], SomePath("p", ""), AuthorizedOutcome, AnyRequest(), generation)
    && rt.records["p"].revocation.None? && !rt.records["p"].retired
    && rt.sets == WithSet().sets && NoScalarWatermark(rt)
  }

  lemma {:induction false} PerformAllAppend(rt: Runtime, c: Config, a: seq<Operation>, b: seq<Operation>)
    ensures PerformAll(rt, c, a + b) == PerformAll(PerformAll(rt, c, a), c, b)
    decreases |a|
  {
    hide Perform;
    if a == [] {
      assert a + b == b;
    } else {
      assert (a + b)[0] == a[0] && (a + b)[1..] == a[1..] + b;
      PerformAllAppend(Perform(rt, c, a[0]), c, a[1..], b);
    }
  }

  lemma PerformTwo(rt: Runtime, c: Config, a: Operation, b: Operation)
    ensures PerformAll(rt, c, [a, b]) == Perform(Perform(rt, c, a), c, b)
  {
    hide Perform;
    assert [a, b][1..] == [b] && [b][1..] == [];
    assert PerformAll(Perform(rt, c, a), c, [b]) == PerformAll(Perform(Perform(rt, c, a), c, b), c, []);
  }

  lemma RequestPerforms(rt: Runtime, c: Config)
    requires c.limits == SomeLimits() && Clear(rt, SomePath("p", ""))
    ensures Perform(rt, c, Operation.Decision(Request())) == Commit(rt, c, Request()).0
  {
    hide Commit, ProperRequest, Checked, PreparePublish, DecisionFor, CommitFor, Clear, SomePath;
    SomePathIsShaped("p", "", c.limits);
    PathIdIs();
    DecisionIsReady(rt, c, SomePath("p", ""), AuthorizedOutcome, AnyRequest());
  }

  lemma PathIdIs()
    ensures SomePath("p", "").id == "p"
  {
  }

  lemma FirstDecision(c: Config)
    requires c.limits == SomeLimits()
    ensures Standing(PerformAll(EmptyRuntime(), c, FirstTwo()), 1)
  {
    hide Register, Commit, DecisionFor, CommitFor, SomeSet, Perform, PerformAll;
    PerformTwo(EmptyRuntime(), c, FirstTwo()[0], FirstTwo()[1]);
    WithSetIsRegistered(c);
    assert Perform(EmptyRuntime(), c, FirstTwo()[0]) == WithSet() by { RegistrationIs(c); }
    RequestPerforms(WithSet(), c);
    DecisionCommits(WithSet(), c, SomePath("p", ""), AuthorizedOutcome, AnyRequest());
  }

  lemma RegistrationIs(c: Config)
    requires c.limits == SomeLimits()
    ensures Perform(EmptyRuntime(), c, Registration(SomeSet().(generation := 0))) == WithSet()
  {
    hide Register;
    WithSetIsRegistered(c);
  }

  /** The notice takes one generation and leaves another digest, so the publication takes the next. */
  lemma NoticeMarks(rt: Runtime, c: Config, generation: nat)
    requires Standing(rt, generation) && generation < U64_MAX
    ensures var marked := Perform(rt, c, Operation.Notice(OfTopology(1)));
            && marked.records.Keys == {"p"} && marked.records["p"].generation == generation + 1
            && marked.records["p"].authorityDigest != DecisionFor(SomePath("p", ""), AuthorizedOutcome).authorityDigest
            && marked.records["p"].revocation.None? && !marked.records["p"].retired
            && marked.sets == WithSet().sets && NoScalarWatermark(marked)
  {
    hide WithSet, Mark, PathDigestOf, ConstraintDigestOf, Codes, Scalar;
    var r := rt.records["p"];
    FindSome(r.evidence, (Topology, SELF));
    MarkIsNotTheDecision(r);
  }

  lemma MarkIsNotTheDecision(r: Record)
    requires r.state == Authorized && r.generation < U64_MAX
    ensures Mark(r).generation == r.generation + 1 && Mark(r).revocation == r.revocation && Mark(r).retired == r.retired
    ensures Mark(r).authorityDigest != DecisionFor(SomePath("p", ""), AuthorizedOutcome).authorityDigest
  {
    hide PathDigestOf, ConstraintDigestOf, Codes, Scalar;
    assert Mark(r).authorityDigest.state == RevalidationRequired;
    assert DecisionFor(SomePath("p", ""), AuthorizedOutcome).authorityDigest.state == Authorized;
  }

  lemma OneRound(rt: Runtime, c: Config, generation: nat)
    requires c.limits == SomeLimits() && Standing(rt, generation) && generation + 2 <= U64_MAX
    ensures var round := [Operation.Notice(OfTopology(1)), Operation.Decision(Request())];
            Standing(PerformAll(rt, c, round), generation + 2)
  {
    hide Commit, DecisionFor, CommitFor, Perform, PerformAll, Written;
    var marked := Perform(rt, c, Operation.Notice(OfTopology(1)));
    PerformTwo(rt, c, Operation.Notice(OfTopology(1)), Operation.Decision(Request()));
    NoticeMarks(rt, c, generation);
    RequestPerforms(marked, c);
    DecisionCommits(marked, c, SomePath("p", ""), AuthorizedOutcome, AnyRequest());
  }

  lemma {:induction false} WearsOut(c: Config, rounds: nat)
    requires c.limits == SomeLimits() && 2 * rounds + 1 <= U64_MAX
    ensures Standing(PerformAll(EmptyRuntime(), c, FirstTwo() + Wear(rounds)), 2 * rounds + 1)
  {
    hide Perform, Standing, PerformAll;
    if rounds == 0 {
      assert FirstTwo() + Wear(0) == FirstTwo();
      FirstDecision(c);
    } else {
      var round := [Operation.Notice(OfTopology(1)), Operation.Decision(Request())];
      WearsOut(c, rounds - 1);
      assert FirstTwo() + Wear(rounds) == FirstTwo() + Wear(rounds - 1) + round;
      PerformAllAppend(EmptyRuntime(), c, FirstTwo() + Wear(rounds - 1), round);
      OneRound(PerformAll(EmptyRuntime(), c, FirstTwo() + Wear(rounds - 1)), c, 2 * rounds - 1);
    }
  }

  /** Half of the generations, less one. */
  const ROUNDS: nat := 0x7FFF_FFFF_FFFF_FFFF

  /**
   * Whole operations from an empty runtime reach an authority at the last generation; registering its set anew
   * leaves it authorizing under a generation that is no longer registered.
   */
  lemma ExhaustedAuthorityIsReachable(c: Config)
    requires c.limits == SomeLimits()
    ensures var rt := PerformAll(EmptyRuntime(), c, FirstTwo() + Wear(ROUNDS));
            var rt' := Perform(rt, c, Registration(SomeSet().(maxHops := 5)));
            && "p" in rt.records && Authorizing(rt.records["p"]) && BindsCurrentSet(rt.sets, rt.records["p"].definition)
            && "p" in rt'.records && rt'.records["p"] == rt.records["p"]
            && !BindsCurrentSet(rt'.sets, rt'.records["p"].definition)
  {
    hide PerformAll, Wear, FirstTwo;
    WearsOut(c, ROUNDS);
    EmptyClean();
    OperationsKeepAuthorityClean(EmptyRuntime(), c, FirstTwo() + Wear(ROUNDS));
    OutlivesRegistration(PerformAll(EmptyRuntime(), c, FirstTwo() + Wear(ROUNDS)), c);
  }

  lemma OutlivesRegistration(rt: Runtime, c: Config)
    requires c.limits == SomeLimits() && Standing(rt, U64_MAX) && AllClean(rt)
    ensures var rt' := Perform(rt, c, Registration(SomeSet().(maxHops := 5)));
            && Authorizing(rt.records["p"]) && BindsCurrentSet(rt.sets, rt.records["p"].definition)
            && "p" in rt'.records && rt'.records["p"] == rt.records["p"]
            && !BindsCurrentSet(rt'.sets, rt'.records["p"].definition)
  {
    hide Register, Consistent, DecisionFor;
    Reregistered(rt, c);
    ExhaustedAuthorityOutlivesItsSet(rt, SomeSet().(maxHops := 5), c.limits, "p");
  }

  lemma Reregistered(rt: Runtime, c: Config)
    requires c.limits == SomeLimits() && rt.sets == WithSet().sets
    ensures Register(rt, SomeSet().(maxHops := 5), c.limits).1.Created?
  {
    hide StoreSet, AffectedBy;
    var registered := rt.sets["c"];
    assert registered.id == "c" && CanonicalSet(registered).maxHops == 0
      && CanonicalSet(SomeSet().(maxHops := 5)).maxHops == 5;
  }
}
