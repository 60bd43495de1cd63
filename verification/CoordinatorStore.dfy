/** Runs whose image cannot be read back, is not written, or comes back under other names. */
module CoordinatorStore {
  import opened Base
  import opened Model
  import opened RuntimeState
  import opened RuntimeRuns
  import opened Publication
  import opened Recovery
  import opened Scenarios
  import opened Coordinator
  import opened CoordinatorImages
  import opened CoordinatorSafety
  import opened CoordinatorEdges
  import opened StoreImages
  import opened StoreScenarios
  import ConstraintCodec
  import DurableCodec
  import PathCodec
  import PathShape
  import UnnamedDomain

  // ---- images that cannot be started from ------------------------------------------------------------------

  /**
   * With room for one fence: the first boot takes it, the second publishes and the publication is accepted. The image
   * fences both, and every start from it fails.
   */
  lemma TooManyFencesBlockTheRestart(control: u64, pinned: u64, livePolicy: PolicySet)
    ensures var s := SomeSettings(1);
            var run := RunMessages(Fresh(SomePolicy(), 1), s,
                         TwoWorkers() + [Disconnect(0, ["b1"]), Authorization(1, "b2", "B", NamedPath(""))]);
            && run.Some? && run.value.acked == {"b2"}
            && run.value.image.Some? && run.value.image.value.state.fenced == {"b1", "b2"}
            && Start(run.value, s, control, pinned, livePolicy).None?
  {
    hide RunMessages, Fresh, NamedPath, Start, TwoWorkers, Authorization, SomePolicy, FenceFull, Undecodable;
    var s := SomeSettings(1);
    var ms := [Disconnect(0, ["b1"]), Authorization(1, "b2", "B", NamedPath(""))];
    SecondWorkerPublishes();
    var k := RunMessages(Fresh(SomePolicy(), 1), s, TwoWorkers() + ms).value;
    RestartFailsExactly(s, TwoWorkers() + ms, SomePolicy(), 1, control, pinned, livePolicy);
    BlockedByFences(k.image.value, s.runtime.limits);
  }

  lemma BlockedByFences(i: Image, limits: Limits)
    requires i.state.fenced == {"b1", "b2"} && limits.maxPublishers == 1
    ensures Undecodable(i, limits)
  {
    hide SetIsUnreadable, RecordIsUnreadable, FenceIsUnreadable, SameContent, RestsOnAbsent, DurableCodec.PolicyReads;
    assert "b1"[1] != "b2"[1];
    assert |i.state.fenced| == 2;
  }

  lemma SecondWorkerPublishes()
    ensures var s := SomeSettings(1);
            var run := RunMessages(Fresh(SomePolicy(), 1), s,
                         TwoWorkers() + [Disconnect(0, ["b1"]), Authorization(1, "b2", "B", NamedPath(""))]);
            && run.Some? && run.value.acked == {"b2"} && run.value.image.Some?
            && run.value.image.value.state.fenced == {"b1", "b2"}
  {
    hide RunMessages, Handle, Fresh, NamedPath, DecisionFor, CommitFor, Commit, SomeSet, SomePolicy, WithSet, Export,
      FenceFull, Writable, WellFormedEnvelope, Persist, AfterPublication, Authorization;
    var s := SomeSettings(1);
    var loss, publication := Disconnect(0, ["b1"]), Authorization(1, "b2", "B", NamedPath(""));
    TwoWorkersRun(s);
    RunMessagesAppend(Fresh(SomePolicy(), 1), s, TwoWorkers(), [loss, publication]);
    FirstLossFills(s);
    SendersAreKnown();
    WaitingAtFullFence(s);
    FirstPublicationIsAccepted(FenceFull(s), s, 1, "b2", "B", "");
    RunTwo(TwoWorkersState(), s, loss, publication);
    assert FenceFull(s).acked + {"b2"} == {"b2"};
    PublicationIsStored(FenceFull(s).(rt := AfterPublication(s, "b2", "B", NamedPath("")), acked := {"b2"}), s, "b2",
      "B", "");
  }

  /** A set without a name for its failure domain is registered, and a connection lost. */
  function CoverageRun(): seq<Message> {
    [Connect, Internal(Step.PutSet(UnnamedDomain.CoverageSet())), RegisterWorker(0, Sender("b", "A")),
      Disconnect(0, ["b"])]
  }

  function CoverageState(): Coordinator {
    var k := Fresh(SomePolicy(), 1).(rt := UnnamedDomain.WithCoverage(), fenced := {"b"}, nextConnection := 1);
    k.(image := Some(ImageOf(k)))
  }

  lemma CoverageRuns()
    ensures RunMessages(Fresh(SomePolicy(), 1), SomeSettings(64), CoverageRun()) == Some(CoverageState())
  {
    hide SomePolicy, Handle, RunMessages, WellFormedEnvelope, UnnamedDomain.WithCoverage, UnnamedDomain.CoverageSet;
    var s := SomeSettings(64);
    var ms := CoverageRun();
    var k := Fresh(SomePolicy(), 1);
    var k1 := k.(connections := map[0 := {}], nextConnection := 1);
    var k2 := k1.(rt := UnnamedDomain.WithCoverage());
    var k3 := k2.(workers := map["b" := Worker("A", 0)], connections := map[0 := {"b"}]);
    SendersAreKnown();
    Connected(k);
    assert k.connections[0 := {}] == map[0 := {}];
    RegistersCoverage(k1, s);
    Registered(k2, s, 0, "b", "A");
    assert k2.connections[0 := k2.connections[0] + {"b"}] == k3.connections;
    assert k2.workers["b" := Worker("A", 0)] == k3.workers;
    CoverageLoss(k3, s);
    assert ms == [ms[0]] + ([ms[1]] + [ms[2], ms[3]]);
    RunCons(k, s, ms[0], [ms[1]] + [ms[2], ms[3]]);
    RunCons(k1, s, ms[1], [ms[2], ms[3]]);
    RunTwo(k2, s, ms[2], ms[3]);
  }

  lemma RegistersCoverage(k: Coordinator, s: Settings)
    requires k.rt == EmptyRuntime() && s == SomeSettings(64)
    ensures Handle(k, s, Internal(Step.PutSet(UnnamedDomain.CoverageSet()))) ==
            Some(k.(rt := UnnamedDomain.WithCoverage()))
  {
    assert StoreSetOnly(EmptyRuntime(), UnnamedDomain.CoverageSet()) == UnnamedDomain.WithCoverage();
  }

  lemma CoverageLoss(k: Coordinator, s: Settings)
    requires s == SomeSettings(64)
    requires k == Fresh(SomePolicy(), 1).(rt := UnnamedDomain.WithCoverage(), workers := map["b" := Worker("A", 0)],
                    connections := map[0 := {"b"}], nextConnection := 1)
    ensures Handle(k, s, Disconnect(0, ["b"])) == Some(CoverageState())
  {
    hide Handle, Writable, SomePolicy, UnnamedDomain.CoverageSet, HandleDisconnect;
    DisconnectIs(k, s, 0, ["b"]);
    LoseOne(k, s, 0, "b");
    assert k.workers - {"b"} == map[] && k.connections - {0} == map[] && {} + {"b"} == {"b"};
    var next := Fresh(SomePolicy(), 1).(rt := UnnamedDomain.WithCoverage(), fenced := {"b"}, nextConnection := 1);
    assert ImageOf(next).state.records == map[] && ImageOf(next).state.fenced == {"b"};
    SmallIsWritable(ImageOf(next), s.runtime.limits);
  }

  /** A registered set that does not survive its encoding is enough: every start from the image fails. */
  lemma UnnamedDomainBlocksTheRestart(control: u64, pinned: u64, livePolicy: PolicySet)
    ensures var s := SomeSettings(64);
            var run := RunMessages(Fresh(SomePolicy(), 1), s, CoverageRun());
            run.Some? && Start(run.value, s, control, pinned, livePolicy).None?
  {
    hide RunMessages, Fresh, Start, CoverageRun, SomePolicy, Undecodable;
    CoverageRuns();
    RestartFailsExactly(SomeSettings(64), CoverageRun(), SomePolicy(), 1, control, pinned, livePolicy);
    BlockedBySet(CoverageState().image.value, SomeSettings(64).runtime.limits);
  }

  lemma BlockedBySet(i: Image, limits: Limits)
    requires i.state.sets == map["c" := UnnamedDomain.CoverageSet()]
    ensures Undecodable(i, limits)
  {
    hide RecordIsUnreadable, FenceIsUnreadable, SameContent, RestsOnAbsent, DurableCodec.PolicyReads,
      ConstraintCodec.EncodeConstraintSet;
    assert UnnamedDomain.Coverage() in UnnamedDomain.CoverageSet().failureDomains;
    assert !ConstraintCodec.WellFormedDomain(UnnamedDomain.Coverage(), limits);
    assert SetIsUnreadable(i.state, "c", limits);
  }

  // ---- writes that are refused -----------------------------------------------------------------------------

  /**
   * A boot that was fenced when its connection was lost is still fenced after a crash exactly when the encoder
   * accepted the image that was written then, or an earlier image holds the fence.
   */
  lemma LostFenceSurvives(k: Coordinator, s: Settings, connection: nat, order: seq<string>, boot: string, control: u64,
      pinned: u64, livePolicy: PolicySet)
    requires Closes(k, connection, order) && boot in LostBoots(k, connection)
    requires var k' := HandleDisconnect(k, s, connection, order);
             boot in k'.fenced && Start(k', s, control, pinned, livePolicy).Some?
    ensures var k' := HandleDisconnect(k, s, connection, order);
            boot in Start(k', s, control, pinned, livePolicy).value.fenced
            <==> Writable(ImageOf(k'), s.runtime.limits) || InImage(k, boot)
  {
    hide Start, Lost, LoseAll, Fence, Export, Writable;
    LostMembers(k.workers, order);
    StartFences(HandleDisconnect(k, s, connection, order), s, control, pinned, livePolicy);
    assert boot in Lost(k.workers, order);
  }

  /** The same for a boot whose publication was accepted: it is fenced after a crash exactly when the write was made. */
  lemma AcknowledgedBootSurvives(k: Coordinator, s: Settings, connection: nat, m: PublishMessage, control: u64,
      pinned: u64, livePolicy: PolicySet)
    requires Accepted(HandlePublish(k, s, connection, m).1)
    requires Start(HandlePublish(k, s, connection, m).0, s, control, pinned, livePolicy).Some?
    ensures var k' := HandlePublish(k, s, connection, m).0;
            m.envelope.boot in Start(k', s, control, pinned, livePolicy).value.fenced
            <==> Writable(ImageOf(k'), s.runtime.limits) || InImage(k, m.envelope.boot)
  {
    hide Start, Publish, Export, Writable, WellFormedEnvelope;
    StartFences(HandlePublish(k, s, connection, m).0, s, control, pinned, livePolicy);
  }

  /** Settings under which no image is written. */
  function NoStore(): Settings {
    Settings(Config(SomeLimits().(maxStoreBytes := 1), true), 8)
  }

  /** No image fits: a boot is fenced, the coordinator starts again, and the boot registers as if new. */
  lemma RefusedWriteForgetsTheFence()
    ensures var ms := [Connect, RegisterWorker(0, Sender("b", "A")), Disconnect(0, ["b"])];
            var run := RunMessages(Fresh(SomePolicy(), 1), NoStore(), ms);
            && run.Some? && "b" in run.value.fenced && PathShape.ValidLimits(NoStore().runtime.limits)
            && var again := RunMessages(run.value, NoStore(),
                 [Crash(1, 0, SomePolicy()), Connect, RegisterWorker(0, Sender("b", "A"))]);
               again.Some? && again.value.fenced == {} && again.value.workers == map["b" := Worker("A", 0)]
  {
    hide SomePolicy, Handle, RunMessages, WellFormedEnvelope, Writable;
    var s := NoStore();
    var k := Fresh(SomePolicy(), 1);
    var k1 := k.(connections := map[0 := {}], nextConnection := 1);
    var k2 := k1.(workers := map["b" := Worker("A", 0)], connections := map[0 := {"b"}]);
    var k3 := k.(fenced := {"b"}, nextConnection := 1, refused := true);
    SendersAreKnown();
    Connected(k);
    assert k.connections[0 := {}] == map[0 := {}];
    Registered(k1, s, 0, "b", "A");
    assert k1.connections[0 := k1.connections[0] + {"b"}] == k2.connections;
    assert k1.workers["b" := Worker("A", 0)] == k2.workers;
    assert Handle(k2, s, Disconnect(0, ["b"])) == Some(k3) by { NothingIsWritten(k2, s); }
    assert [Connect, RegisterWorker(0, Sender("b", "A")), Disconnect(0, ["b"])]
        == [Connect] + [RegisterWorker(0, Sender("b", "A")), Disconnect(0, ["b"])];
    RunCons(k, s, Connect, [RegisterWorker(0, Sender("b", "A")), Disconnect(0, ["b"])]);
    RunTwo(k1, s, RegisterWorker(0, Sender("b", "A")), Disconnect(0, ["b"]));
    var r := k.(refused := true);
    assert Handle(k3, s, Crash(1, 0, SomePolicy())) == Some(r) by { StartsFresh(k3, s); }
    var r1 := k1.(refused := true);
    Connected(r);
    assert r.connections[0 := {}] == map[0 := {}];
    Registered(r1, s, 0, "b", "A");
    assert r1.workers["b" := Worker("A", 0)] == map["b" := Worker("A", 0)];
    assert [Crash(1, 0, SomePolicy()), Connect, RegisterWorker(0, Sender("b", "A"))]
        == [Crash(1, 0, SomePolicy())] + [Connect, RegisterWorker(0, Sender("b", "A"))];
    RunCons(k3, s, Crash(1, 0, SomePolicy()), [Connect, RegisterWorker(0, Sender("b", "A"))]);
    RunTwo(r, s, Connect, RegisterWorker(0, Sender("b", "A")));
  }

  lemma StartsFresh(k: Coordinator, s: Settings)
    requires k == Fresh(SomePolicy(), 1).(fenced := {"b"}, nextConnection := 1, refused := true)
    ensures Handle(k, s, Crash(1, 0, SomePolicy())) == Some(Fresh(SomePolicy(), 1).(refused := true))
  {
    hide SomePolicy;
  }

  lemma NothingIsWritten(k: Coordinator, s: Settings)
    requires s == NoStore() && k == Fresh(SomePolicy(), 1).(workers := map["b" := Worker("A", 0)],
                                     connections := map[0 := {"b"}], nextConnection := 1)
    ensures Handle(k, s, Disconnect(0, ["b"])) ==
            Some(Fresh(SomePolicy(), 1).(fenced := {"b"}, nextConnection := 1, refused := true))
  {
    hide Handle, SomePolicy, HandleDisconnect, DurableCodec.Body;
    DisconnectIs(k, s, 0, ["b"]);
    LoseOne(k, s, 0, "b");
    assert k.workers - {"b"} == map[] && k.connections - {0} == map[] && {} + {"b"} == {"b"};
  }

  // ---- another name ------------------------------------------------------------------------------------------

  /** The process evaluates a path under a name of its own choosing, and a connection is lost. */
  function NamingRun(): seq<Message> {
    OneWorker() + [Internal(Step.Decide(Naming())), Disconnect(0, ["b"])]
  }

  function Naming(): CommitRequest { CommitFor(SomePath("p", ""), AuthorizedOutcome, AnyRequest()) }

  function Named(): Runtime { Commit(WithSet(), SomeSettings(64).runtime, Naming()).0 }

  function NamedState(): Coordinator {
    var k := Fresh(SomePolicy(), 1).(rt := Named(), fenced := {"b"}, nextConnection := 1);
    k.(image := Some(ImageOf(k)))
  }

  lemma NamingCommits()
    ensures Vetted(WithSet(), SomeSettings(64).runtime.limits, Step.Decide(Naming())) && Naming().workerBoot == ""
    ensures var rt := Named();
            && rt.records.Keys == {"p"} && rt.sets == WithSet().sets && rt.records["p"].revocation.None?
            && Written(rt.records["p"], SomePath("p", ""), AuthorizedOutcome, AnyRequest(), 1)
  {
    hide DecisionFor, Commit, PathShape.Shape, SomeSet, SomePolicy, PreparePublish, ProperRequest, Checked,
      SomeEvidence, ValidEvidence;
    var s := SomeSettings(64);
    var p := SomePath("p", "");
    SomePathIsShaped("p", "", s.runtime.limits);
    SomeEvidenceIsValid();
    assert Naming().evidence == SomeEvidence() by { NamingIs(); }
    DecisionIsReady(WithSet(), s.runtime, p, AuthorizedOutcome, AnyRequest());
    DecisionCommits(WithSet(), s.runtime, p, AuthorizedOutcome, AnyRequest());
  }

  lemma NamingIs()
    ensures Naming().evidence == SomeEvidence() && Naming().path == SomePath("p", "")
  {
    hide SomeEvidence, SomePath;
  }

  lemma NamingRuns()
    ensures RunMessages(Fresh(SomePolicy(), 1), SomeSettings(64), NamingRun()) == Some(NamedState())
  {
    hide RunMessages, Handle, SomePolicy, WithSet, Named, OneWorker, Naming, Vetted, Fresh;
    var s := SomeSettings(64);
    var k := OneWorkerState().(rt := Named());
    OneWorkerRuns(s);
    RunMessagesAppend(Fresh(SomePolicy(), 1), s, OneWorker(), [Internal(Step.Decide(Naming())), Disconnect(0, ["b"])]);
    assert Handle(OneWorkerState(), s, Internal(Step.Decide(Naming()))) == Some(k) by { NamingHandled(s); }
    RunTwo(OneWorkerState(), s, Internal(Step.Decide(Naming())), Disconnect(0, ["b"]));
    NamingLoss(s);
  }

  lemma NamingHandled(s: Settings)
    requires s == SomeSettings(64)
    ensures Handle(OneWorkerState(), s, Internal(Step.Decide(Naming()))) == Some(OneWorkerState().(rt := Named()))
  {
    hide SomePolicy, WithSet, Naming, Vetted, Commit;
    NamingCommits();
  }

  lemma NamingLoss(s: Settings)
    requires s == SomeSettings(64)
    ensures Handle(OneWorkerState().(rt := Named()), s, Disconnect(0, ["b"])) == Some(NamedState())
  {
    hide Handle, Writable, SomePolicy, HandleDisconnect, Named, SomeSet, SomePath, SomeEvidence, DecisionFor, Export,
      SmallImage, SmallRecord, WithSet, RunMessages;
    var k := OneWorkerState().(rt := Named());
    NamingCommits();
    DisconnectIs(k, s, 0, ["b"]);
    LoseOne(k, s, 0, "b");
    assert k.workers - {"b"} == map[] && k.connections - {0} == map[] && {} + {"b"} == {"b"};
    var next := Fresh(SomePolicy(), 1).(rt := Named(), fenced := {"b"}, nextConnection := 1);
    NamedIsSmall(next);
    SmallIsWritable(ImageOf(next), s.runtime.limits);
  }

  lemma NamedIsSmall(k: Coordinator)
    requires k == Fresh(SomePolicy(), 1).(rt := Named(), fenced := {"b"}, nextConnection := 1)
    ensures SmallImage(ImageOf(k)) && SmallRecord(ImageOf(k), "p") && ImageOf(k).state.records.Keys == {"p"}
    ensures ImageOf(k).state.records["p"].definition == SomePath("p", "")
    ensures ImageOf(k).state.records["p"].generation == 1 && ImageOf(k).state.sets == map["c" := SomeSet()]
    ensures ImageOf(k).state.fenced == {"b"} && ImageOf(k).state.policy == SomePolicy() && ImageOf(k).state.epoch == 1
  {
    hide SomePolicy, Named, SomeSet, SomePath, SomeEvidence, DecisionFor, Vetted, Naming;
    NamingCommits();
    var i := ImageOf(k);
    assert i.state.records["p"] == ExportRecord(Named().records["p"]);
    assert SmallRecord(i, "p");
  }

  lemma NamedIsDecodable()
    ensures !Undecodable(NamedState().image.value, SomeSettings(64).runtime.limits)
  {
    hide SomePolicy, Named, SomeSet, SomePath, SmallRecord, SmallImage, RecordIsReadable, DurableCodec.SetReads,
      DurableCodec.PolicyReads, NewId;
    var i := NamedState().image.value;
    NamedIsSmall(Fresh(SomePolicy(), 1).(rt := Named(), fenced := {"b"}, nextConnection := 1));
    SmallIsReadable(i, "p", SomeSettings(64).runtime.limits);
    RestsOnNothing();
    assert |i.state.sets| == 1 && |i.state.fenced| == 1;
  }

  /** The image of the run is one that a start accepts. */
  lemma NamedIsStartable()
    ensures !Unstartable(NamedState().image.value, SomeSettings(64).runtime.limits, 0)
  {
    hide SomePolicy, Named, SomeSet, SomePath, SmallRecord, SmallImage, NewId, Undecodable;
    NamedIsDecodable();
    NamedIsSmall(Fresh(SomePolicy(), 1).(rt := Named(), fenced := {"b"}, nextConnection := 1));
    RestsOnNothing();
  }

  lemma RestsOnNothing()
    ensures SomePath("p", "").underlying.None?
  {
  }

  /** After a restart the path is on record under the id that its content determines, and not under its own. */
  lemma RestartRenamesThePath()
    ensures var s := SomeSettings(64);
            var run := RunMessages(Fresh(SomePolicy(), 1), s, NamingRun());
            && run.Some? && run.value.rt.records.Keys == {"p"}
            && var again := Start(run.value, s, 1, 0, SomePolicy());
               again.Some? && again.value.rt.records.Keys == {NamedPath("").id} && NamedPath("").id != "p"
  {
    hide RunMessages, Handle, Start, SomePolicy, Named, Unstartable, AllStorable, OneWorker, NamingRun, Fresh,
      SomePath;
    var s := SomeSettings(64);
    NamingRuns();
    NamingCommits();
    NamedIsStartable();
    RestartFailsExactly(s, NamingRun(), SomePolicy(), 1, 1, 0, SomePolicy());
    RestartKeys(NamedState(), s, 1, 0, SomePolicy());
    NamedIds();
  }

  /** What is on record after a start are the stored paths under their new ids. */
  lemma RestartKeys(k: Coordinator, s: Settings, control: u64, pinned: u64, livePolicy: PolicySet)
    requires Start(k, s, control, pinned, livePolicy).Some? && k.image.Some?
    ensures Start(k, s, control, pinned, livePolicy).value.rt.records.Keys == NewIds(k.image.value.state)
  {
    hide Import, ReadImage, StartEpoch, NewIds, Back;
    var i := k.image.value;
    ReadIsBack(i, s.runtime.limits);
    BackIds(i);
    ImportKeys(EmptyRuntime(), Back(i).state, livePolicy, s.runtime.limits);
  }

  lemma NamedIds()
    ensures NewIds(NamedState().image.value.state) == {NamedPath("").id} && NamedPath("").id != "p"
  {
    hide PathCodec.DerivedId, Named, SomePolicy;
    var d := NamedState().image.value.state;
    NamedIsSmall(Fresh(SomePolicy(), 1).(rt := Named(), fenced := {"b"}, nextConnection := 1));
    PathCodec.DerivedIdIgnoresId(SomePath("", ""), "p");
    PathCodec.DerivedIdIsLong(SomePath("", ""));
    assert SomePath("", "").(id := "p") == SomePath("p", "");
    assert NewId(d, "p") == NamedPath("").id;
    assert NewIds(d) == {NewId(d, "p")};
  }
}
