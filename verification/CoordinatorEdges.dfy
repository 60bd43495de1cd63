/** Where the coordinator's guarantees end: for every disconnection, and by runs from a fresh coordinator. */
module CoordinatorEdges {
  import opened Base
  import opened Model
  import opened RuntimeState
  import opened RuntimeRuns
  import opened Publication
  import opened Recovery
  import opened Scenarios
  import opened Coordinator
  import opened CoordinatorImages
  import opened CoordinatorSafety
  import opened StoreImages
  import opened StoreScenarios
  import PathCodec
  import PathShape

  // ---- a second publisher name -----------------------------------------------------------------------

  lemma LosingAnother(rt: Runtime, publisher: string, boot: string, p: string)
    requires p in rt.records && !PublishedBy(rt.records[p], publisher, boot)
    ensures LosePublisher(rt, publisher, boot).records.Keys == rt.records.Keys
    ensures LosePublisher(rt, publisher, boot).records[p] == rt.records[p]
  {
    hide Mark;
  }

  lemma {:induction false} LoseAllSpares(rt: Runtime, workers: map<string, Worker>, lost: seq<string>, p: string)
    requires forall b :: b in lost ==> b in workers
    requires p in rt.records && forall b :: b in lost ==> !PublishedBy(rt.records[p], workers[b].publisher, b)
    ensures p in LoseAll(rt, workers, lost).records && LoseAll(rt, workers, lost).records[p] == rt.records[p]
    decreases |lost|
  {
    hide LosePublisher, PublishedBy;
    if lost != [] {
      assert lost[0] in lost;
      LosingAnother(rt, workers[lost[0]].publisher, lost[0], p);
      LoseAllSpares(LosePublisher(rt, workers[lost[0]].publisher, lost[0]), workers, lost[1..], p);
    }
  }

  /** The connection is open, and the boots it registered are walked in this order. */
  predicate Closes(k: Coordinator, connection: nat, order: seq<string>) {
    Live(k, connection) && (set b | b in order) == k.connections[connection]
  }

  /**
   * The authority that a lost boot published outlives the connection exactly when it was published under another
   * name than the one the boot registered.
   */
  lemma AuthorityOutlivesTheConnection(k: Coordinator, s: Settings, connection: nat, order: seq<string>, p: string)
    requires Closes(k, connection, order) && p in k.rt.records && PublishedAuthority(k.rt.records[p])
    requires var boot := k.rt.records[p].workerBoot; boot in k.connections[connection] && boot in k.workers
    ensures var r := k.rt.records[p];
            var k' := HandleDisconnect(k, s, connection, order);
            && r.workerBoot !in k'.workers && p in k'.rt.records
            && (AuthorizingState(k'.rt.records[p].state) <==> r.publisher != k.workers[r.workerBoot].publisher)
            && (AuthorizingState(k'.rt.records[p].state) ==> k'.rt.records[p] == r)
  {
    hide LoseAll, Lost, Fence, Export, AuthorizingState, Writable;
    var lost := Lost(k.workers, order);
    var r := k.rt.records[p];
    LostMembers(k.workers, order);
    assert r.workerBoot in order && r.workerBoot in lost;
    LoseAllMarks(k.rt, k.workers, lost);
    if r.publisher != k.workers[r.workerBoot].publisher { LoseAllSpares(k.rt, k.workers, lost, p); }
  }

  // ---- a full fence ----------------------------------------------------------------------------------------

  lemma {:induction false} DistinctSize(order: seq<string>)
    requires Distinct(order)
    ensures |set b | b in order| == |order|
    decreases |order|
  {
    if order == [] {
      assert (set b | b in order) == {};
    } else {
      OthersDiffer(order);
      DistinctSize(order[1..]);
      assert order == [order[0]] + order[1..];
      assert (set b | b in order) == {order[0]} + set b | b in order[1..];
    }
  }

  /** The boots that go with the connection. */
  function LostBoots(k: Coordinator, connection: nat): set<string>
    requires Live(k, connection)
  {
    k.connections[connection] * k.workers.Keys
  }

  /** The boots of a closed connection are all fenced exactly when the fence has room for all of them. */
  lemma LostBootsAreFenced(k: Coordinator, s: Settings, connection: nat, order: seq<string>)
    requires WorkersSound(k) && Closes(k, connection, order)
    ensures var k' := HandleDisconnect(k, s, connection, order);
            var lost := LostBoots(k, connection);
            && k'.workers.Keys == k.workers.Keys - lost && k'.acked == k.acked
            && (lost <= k'.fenced <==> lost == {} || |k.fenced| + |lost| <= s.runtime.limits.maxPublishers)
  {
    hide LoseAll, Lost, Fence, Export, Writable;
    var lost := Lost(k.workers, order);
    LostMembers(k.workers, order);
    assert (set b | b in lost) == LostBoots(k, connection);
    DistinctSize(lost);
    FencedWithRoom(k.fenced, lost, s.runtime.limits.maxPublishers);
    assert LostBoots(k, connection) == {} <==> lost == [] by {
      if lost != [] { assert lost[0] in LostBoots(k, connection); }
    }
  }

  // ---- runs from a fresh coordinator -----------------------------------------------------------------------

  lemma {:induction false} RunMessagesAppend(k: Coordinator, s: Settings, a: seq<Message>, b: seq<Message>)
    requires RunMessages(k, s, a).Some?
    ensures RunMessages(k, s, a + b) == RunMessages(RunMessages(k, s, a).value, s, b)
    decreases |a|
  {
    hide Handle;
    if a == [] {
      assert a + b == b;
    } else {
      assert (a + b)[0] == a[0] && (a + b)[1..] == a[1..] + b;
      RunMessagesAppend(Handle(k, s, a[0]).value, s, a[1..], b);
    }
  }

  function SomeSettings(maxPublishers: u32): Settings {
    Settings(Config(SomeLimits().(maxPublishers := maxPublishers), true), 8)
  }

  function Sender(boot: string, publisher: string): Envelope { Envelope(boot, publisher, 1, "") }

  function RequestBy(boot: string, publisher: string): EvaluationRequest { RequestOf(Sender(boot, publisher), None) }

  function Authorization(connection: nat, boot: string, publisher: string, p: PathDefinition): Message {
    PublishPath(connection, PublishMessage(Sender(boot, publisher), p, DecisionFor(p, AuthorizedOutcome), None))
  }

  /** The set is registered, nothing is on record, and the coordinator is in policy and epoch one. */
  predicate Waiting(k: Coordinator) { k.rt == WithSet() && k.policy == SomePolicy() && k.epoch == 1 }

  lemma WaitingWithSet(k: Coordinator, s: Settings)
    requires k.rt == EmptyRuntime()
             && s.runtime.limits == SomeLimits().(maxPublishers := s.runtime.limits.maxPublishers)
    ensures Handle(k, s, Internal(Step.PutSet(SomeSet()))) == Some(k.(rt := WithSet()))
  {
    assert StoreSetOnly(EmptyRuntime(), SomeSet()) == WithSet();
  }

  function AfterPublication(s: Settings, boot: string, publisher: string, p: PathDefinition): Runtime {
    Commit(WithSet(), s.runtime, CommitFor(p, AuthorizedOutcome, RequestBy(boot, publisher))).0
  }

  /** A first publication of a registered boot is accepted and stored, whatever its path rests on. */
  lemma FirstPublicationIsAccepted(k: Coordinator, s: Settings, connection: nat, boot: string, publisher: string,
      under: string)
    requires Waiting(k) && s == SomeSettings(s.runtime.limits.maxPublishers) && s.runtime.limits.maxPublishers > 0
             && |under| < 5
    requires WellFormedEnvelope(Sender(boot, publisher)) && boot !in k.fenced && Live(k, connection)
             && RegisteredOn(k, boot, connection)
    ensures var p := NamedPath(under);
            var rt := AfterPublication(s, boot, publisher, p);
            && Handle(k, s, Authorization(connection, boot, publisher, p)) ==
                 Some(Persist(k.(rt := rt, acked := k.acked + {boot}), s.runtime.limits))
            && p.id in rt.records && rt.records.Keys == {p.id} && rt.sets == WithSet().sets
            && rt.records[p.id].revocation.None?
            && Written(rt.records[p.id], p, AuthorizedOutcome, RequestBy(boot, publisher), 1)
  {
    hide NamedPath, CommitFor, DecisionFor, Commit, PathShape.Shape, SomeSet, SomePolicy, Persist, PreparePublish,
      ProperRequest, Checked, WellFormedEnvelope;
    var p := NamedPath(under);
    var request := RequestBy(boot, publisher);
    NamedPathIsShaped(under, s.runtime.limits);
    NamedPathIsClear(under);
    DecisionIsReady(WithSet(), s.runtime, p, AuthorizedOutcome, request);
    DecisionCommits(WithSet(), s.runtime, p, AuthorizedOutcome, request);
  }

  lemma NamedPathIsClear(under: string)
    ensures Clear(WithSet(), NamedPath(under))
  {
    hide PathCodec.DerivedId;
  }

  /** One boot registers as "A" on the first connection. */
  function OneWorker(): seq<Message> {
    [Connect, Internal(Step.PutSet(SomeSet())), RegisterWorker(0, Sender("b", "A"))]
  }

  function OneWorkerState(): Coordinator {
    Fresh(SomePolicy(), 1).(rt := WithSet(), workers := map["b" := Worker("A", 0)], connections := map[0 := {"b"}],
      nextConnection := 1)
  }

  lemma OneWorkerRuns(s: Settings)
    requires s == SomeSettings(s.runtime.limits.maxPublishers)
    ensures RunMessages(Fresh(SomePolicy(), 1), s, OneWorker()) == Some(OneWorkerState())
  {
    hide SomeSet, SomePolicy, WithSet, Apply, InternalStep, WellFormedEnvelope;
    var k := Fresh(SomePolicy(), 1);
    var k1 := k.(connections := map[0 := {}], nextConnection := 1);
    assert k.connections[0 := {}] == map[0 := {}];
    assert Handle(k, s, Connect) == Some(k1);
    WaitingWithSet(k1, s);
    var k2 := k1.(rt := WithSet());
    SendersAreKnown();
    Registered(k2, s, 0, "b", "A");
    assert OneWorker()[1..] == [Internal(Step.PutSet(SomeSet())), RegisterWorker(0, Sender("b", "A"))];
    assert OneWorker()[1..][1..] == [RegisterWorker(0, Sender("b", "A"))];
    assert k2.connections[0 := {"b"}] == map[0 := {"b"}];
    assert RunMessages(k2, s, OneWorker()[1..][1..]) == Some(OneWorkerState());
  }

  lemma Registered(k: Coordinator, s: Settings, connection: nat, boot: string, publisher: string)
    requires Live(k, connection) && WellFormedEnvelope(Sender(boot, publisher)) && boot !in k.fenced
             && |k.workers| < s.maxWorkers
    ensures Handle(k, s, RegisterWorker(connection, Sender(boot, publisher))) ==
            Some(k.(workers := k.workers[boot := Worker(publisher, connection)],
                    connections := k.connections[connection := k.connections[connection] + {boot}]))
  {
    hide WellFormedEnvelope;
  }

  lemma SendersAreKnown()
    ensures WellFormedEnvelope(Sender("b", "A")) && WellFormedEnvelope(Sender("b", "B"))
    ensures WellFormedEnvelope(Sender("b1", "A")) && WellFormedEnvelope(Sender("b2", "B"))
  {
  }

  /**
   * A coordinator that cannot be started again: a registered worker publishes a path over an underlying path that
   * is not on record. The publication is accepted, and every start from the stored image fails.
   */
  lemma AbsentUnderlyingBlocksTheRestart(control: u64, pinned: u64, livePolicy: PolicySet)
    ensures var s := SomeSettings(64);
            var run := RunMessages(Fresh(SomePolicy(), 1), s, OneWorker()
              + [Authorization(0, "b", "A", NamedPath("u"))]);
            run.Some? && run.value.acked == {"b"} && Start(run.value, s, control, pinned, livePolicy).None?
  {
    hide RunMessages, Fresh, NamedPath, Start, Unstartable, OneWorker, Authorization, PublishedState, SomePolicy,
      RestsOnAbsent;
    var s := SomeSettings(64);
    var ms := OneWorker() + [Authorization(0, "b", "A", NamedPath("u"))];
    OneWorkerPublishes("u");
    NamedPathRests("u");
    ImageRests(PublishedState("u"), NamedPath("u"));
    RestartFailsExactly(s, ms, SomePolicy(), 1, control, pinned, livePolicy);
    BlockedByAbsence(PublishedState("u").image.value, NamedPath("u").id, s.runtime.limits, pinned);
  }

  /** One worker has published its path, and the store holds what the coordinator holds. */
  function PublishedState(under: string): Coordinator {
    var k := OneWorkerState().(rt := AfterPublication(SomeSettings(64), "b", "A", NamedPath(under)), acked := {"b"});
    k.(image := Some(ImageOf(k)))
  }

  lemma OneWorkerPublishes(under: string)
    requires |under| < 5
    ensures var p := NamedPath(under);
            var k := PublishedState(under);
            && RunMessages(Fresh(SomePolicy(), 1), SomeSettings(64), OneWorker() + [Authorization(0, "b", "A", p)]) ==
                 Some(k)
            && k.acked == {"b"} && k.image.Some? && k.image.value.state.records.Keys == {p.id}
            && k.image.value.state.records[p.id].definition == p
  {
    hide RunMessages, Handle, Fresh, NamedPath, DecisionFor, CommitFor, Commit, SomeSet, SomePolicy, WithSet, Persist,
      WellFormedEnvelope, OneWorker, AfterPublication, Authorization;
    var s := SomeSettings(64);
    var m := Authorization(0, "b", "A", NamedPath(under));
    OneWorkerRuns(s);
    WaitingWorker();
    SendersAreKnown();
    RunMessagesAppend(Fresh(SomePolicy(), 1), s, OneWorker(), [m]);
    FirstPublicationIsAccepted(OneWorkerState(), s, 0, "b", "A", under);
    RunOne(OneWorkerState(), s, m);
    assert OneWorkerState().acked + {"b"} == {"b"};
    PublicationIsStored(OneWorkerState().(rt := AfterPublication(s, "b", "A", NamedPath(under)), acked := {"b"}), s,
      "b", "A", under);
  }

  /** After the first publication the store holds what the coordinator holds. */
  lemma PublicationIsStored(k: Coordinator, s: Settings, boot: string, publisher: string, under: string)
    requires s == SomeSettings(s.runtime.limits.maxPublishers) && |under| < 5 && |boot| <= 8 && |publisher| <= 8
    requires var p := NamedPath(under);
             k.rt.records.Keys == {p.id} && k.rt.sets == WithSet().sets && k.rt.records[p.id].revocation.None?
             && Written(k.rt.records[p.id], p, AuthorizedOutcome, RequestBy(boot, publisher), 1)
    requires k.epoch == 1 && k.policy == SomePolicy() && k.histories == map[]
    requires |k.fenced + k.workers.Keys| <= 8 && forall b :: b in k.fenced || b in k.workers ==> |b| <= 8
    ensures Persist(k, s.runtime.limits) == k.(image := Some(ImageOf(k)))
    ensures ImageOf(k).state.records.Keys == {NamedPath(under).id}
    ensures ImageOf(k).state.records[NamedPath(under).id] == ExportRecord(k.rt.records[NamedPath(under).id])
  {
    hide Writable, NamedPath, SomePolicy, SomeSet, DecisionFor, SomeEvidence;
    var i := ImageOf(k);
    var p := NamedPath(under);
    assert p == SomePath(p.id, under) by { NamedPathIs(under); }
    assert i.state.records[p.id].definition == SomePath(p.id, under);
    assert SmallRecord(i, p.id);
    SmallIsWritable(i, s.runtime.limits);
  }

  lemma NamedPathIs(under: string)
    ensures NamedPath(under) == SomePath(NamedPath(under).id, under)
  {
    hide PathCodec.DerivedId;
  }

  lemma RunOne(k: Coordinator, s: Settings, m: Message)
    ensures RunMessages(k, s, [m]) == Handle(k, s, m)
  {
    hide Handle;
    assert [m][1..] == [];
    if Handle(k, s, m).Some? { assert RunMessages(Handle(k, s, m).value, s, []) == Handle(k, s, m); }
  }

  lemma WaitingWorker()
    ensures Waiting(OneWorkerState()) && Live(OneWorkerState(), 0) && RegisteredOn(OneWorkerState(), "b", 0)
    ensures OneWorkerState().fenced == {} && OneWorkerState().acked == {}
    ensures OneWorkerState().workers.Keys == {"b"} && OneWorkerState().histories == map[]
  {
    hide WithSet, SomePolicy;
  }

  lemma NamedPathRests(under: string)
    requires 0 < |under| < 5
    ensures NamedPath(under).underlying == Some(UnderlyingRef(under, 1, 1)) && NamedPath(under).id != under
  {
    hide PathCodec.DerivedId;
    PathCodec.DerivedIdIsLong(SomePath("", under));
  }

  lemma ImageRests(k: Coordinator, p: PathDefinition)
    requires k.image.Some? && k.image.value.state.records.Keys == {p.id}
             && k.image.value.state.records[p.id].definition == p
    requires p.underlying.Some? && |p.underlying.value.path| < 5
    ensures RestsOnAbsent(k.image.value.state, p.id)
  {
    hide PathCodec.DerivedId;
    PathCodec.DerivedIdIsLong(p);
  }

  lemma BlockedByAbsence(i: Image, p: string, limits: Limits, pinned: u64)
    requires RestsOnAbsent(i.state, p)
    ensures Unstartable(i, limits, pinned)
  {
    hide RestsOnAbsent, Spent;
  }

  /**
   * A boot that registers as "A" and publishes as "B": after its connection is lost the path still authorizes, for
   * a boot that is fenced and not registered.
   */
  lemma SecondNameEscapesTheLoss()
    ensures var s := SomeSettings(64);
            var p := NamedPath("");
            var run := RunMessages(Fresh(SomePolicy(), 1), s,
                         OneWorker() + [Authorization(0, "b", "B", p), Disconnect(0, ["b"])]);
            && run.Some? && p.id in run.value.rt.records && PublishedAuthority(run.value.rt.records[p.id])
            && run.value.rt.records[p.id].workerBoot == "b" && "b" in run.value.fenced && "b" !in run.value.workers
  {
    hide RunMessages, Handle, Fresh, NamedPath, DecisionFor, CommitFor, Commit, SomeSet, SomePolicy, WithSet, Persist,
      HandleDisconnect, WellFormedEnvelope;
    var s := SomeSettings(64);
    SendersAreKnown();
    var p := NamedPath("");
    var publication, loss := Authorization(0, "b", "B", p), Disconnect(0, ["b"]);
    OneWorkerRuns(s);
    WaitingWorker();
    RunMessagesAppend(Fresh(SomePolicy(), 1), s, OneWorker(), [publication, loss]);
    FirstPublicationIsAccepted(OneWorkerState(), s, 0, "b", "B", "");
    RunTwo(OneWorkerState(), s, publication, loss);
    assert OneWorkerState().acked + {"b"} == {"b"};
    PublishedUnderSecondName(s);
  }

  lemma RunTwo(k: Coordinator, s: Settings, m: Message, n: Message)
    requires Handle(k, s, m).Some?
    ensures RunMessages(k, s, [m, n]) == Handle(Handle(k, s, m).value, s, n)
  {
    hide Handle;
    assert [m, n][1..] == [n];
    RunOne(Handle(k, s, m).value, s, n);
  }

  lemma OneLostBoot(k: Coordinator, connection: nat, boot: string)
    requires k.workers.Keys == {boot} && k.workers[boot].connection == connection && boot !in k.fenced
    requires k.connections == map[connection := {boot}] && connection < k.nextConnection
    ensures WorkersSound(k) && Closes(k, connection, [boot]) && LostBoots(k, connection) == {boot}
  {
    assert (set b | b in [boot]) == {boot};
  }

  lemma PublishedUnderSecondName(s: Settings)
    requires s == SomeSettings(64)
    requires var rt := AfterPublication(s, "b", "B", NamedPath(""));
             NamedPath("").id in rt.records
             && Written(rt.records[NamedPath("").id], NamedPath(""), AuthorizedOutcome, RequestBy("b", "B"), 1)
    ensures var p := NamedPath("");
            var k := Persist(OneWorkerState().(rt := AfterPublication(s, "b", "B", p), acked := {"b"}),
              s.runtime.limits);
            var k' := HandleDisconnect(k, s, 0, ["b"]);
            && p.id in k'.rt.records && PublishedAuthority(k'.rt.records[p.id]) && k'.rt.records[p.id].workerBoot == "b"
            && "b" in k'.fenced && "b" !in k'.workers && Handle(k, s, Disconnect(0, ["b"])) == Some(k')
  {
    hide NamedPath, DecisionFor, CommitFor, Commit, SomeSet, SomePolicy, WithSet, HandleDisconnect, Export,
      AfterPublication, LoseAll, Lost, WorkersSound, LostBoots, Writable, Handle;
    var k := Persist(OneWorkerState().(rt := AfterPublication(s, "b", "B", NamedPath("")), acked := {"b"}),
      s.runtime.limits);
    OneLostBoot(k, 0, "b");
    AuthorityOutlivesTheConnection(k, s, 0, ["b"], NamedPath("").id);
    LostBootsAreFenced(k, s, 0, ["b"]);
    DisconnectIs(k, s, 0, ["b"]);
  }

  /** Two boots register on two connections. */
  function TwoWorkers(): seq<Message> {
    [Connect, Connect, Internal(Step.PutSet(SomeSet())), RegisterWorker(0, Sender("b1", "A")),
     RegisterWorker(1, Sender("b2", "B"))]
  }

  function TwoWorkersState(): Coordinator {
    Fresh(SomePolicy(), 1).(rt := WithSet(), workers := map["b1" := Worker("A", 0), "b2" := Worker("B", 1)],
      connections := map[0 := {"b1"}, 1 := {"b2"}], nextConnection := 2)
  }

  lemma RunCons(k: Coordinator, s: Settings, m: Message, rest: seq<Message>)
    requires Handle(k, s, m).Some?
    ensures RunMessages(k, s, [m] + rest) == RunMessages(Handle(k, s, m).value, s, rest)
  {
    hide Handle;
    assert ([m] + rest)[1..] == rest;
  }

  lemma TwoWorkersRun(s: Settings)
    requires s == SomeSettings(s.runtime.limits.maxPublishers)
    ensures RunMessages(Fresh(SomePolicy(), 1), s, TwoWorkers()) == Some(TwoWorkersState())
  {
    hide SomeSet, SomePolicy, WithSet, Handle, RunMessages, WellFormedEnvelope;
    var ms := TwoWorkers();
    SendersAreKnown();
    var k := Fresh(SomePolicy(), 1);
    var k1 := k.(connections := map[0 := {}], nextConnection := 1);
    var k2 := k.(connections := map[0 := {}, 1 := {}], nextConnection := 2);
    var k3 := k2.(rt := WithSet());
    var k4 := k3.(workers := map["b1" := Worker("A", 0)], connections := map[0 := {"b1"}, 1 := {}]);
    Connected(k);
    assert k.connections[0 := {}] == map[0 := {}];
    Connected(k1);
    assert k1.connections[1 := {}] == k2.connections;
    WaitingWithSet(k2, s);
    Registered(k3, s, 0, "b1", "A");
    assert k3.connections[0 := k3.connections[0] + {"b1"}] == k4.connections
      && k3.workers["b1" := Worker("A", 0)] == k4.workers;
    Registered(k4, s, 1, "b2", "B");
    assert k4.connections[1 := k4.connections[1] + {"b2"}] == TwoWorkersState().connections;
    assert k4.workers["b2" := Worker("B", 1)] == TwoWorkersState().workers;
    assert ms == [ms[0]] + ([ms[1]] + ([ms[2]] + ([ms[3]] + ([ms[4]] + []))));
    RunCons(k, s, ms[0], [ms[1]] + ([ms[2]] + ([ms[3]] + ([ms[4]] + []))));
    RunCons(k1, s, ms[1], [ms[2]] + ([ms[3]] + ([ms[4]] + [])));
    RunCons(k2, s, ms[2], [ms[3]] + ([ms[4]] + []));
    RunCons(k3, s, ms[3], [ms[4]] + []);
    RunCons(k4, s, ms[4], []);
    RunNone(TwoWorkersState(), s);
  }

  lemma RunNone(k: Coordinator, s: Settings)
    ensures RunMessages(k, s, []) == Some(k)
  {
  }

  lemma Connected(k: Coordinator)
    ensures forall s :: Handle(k, s, Connect) ==
                        Some(k.(connections := k.connections[k.nextConnection := {}], nextConnection := k.nextConnection
                          + 1))
  {
  }

  /** After the first boot has taken the only fence. */
  function FenceFull(s: Settings): Coordinator {
    Persist(TwoWorkersState().(workers := map["b2" := Worker("B", 1)], connections := map[1 := {"b2"}],
      fenced := {"b1"}), s.runtime.limits)
  }

  /** One boot that has published nothing goes, and there is room for its fence. */
  lemma LoseOne(k: Coordinator, s: Settings, connection: nat, boot: string)
    requires Live(k, connection) && k.connections[connection] == {boot} && boot in k.workers
    requires forall p :: p in k.rt.records ==> k.rt.records[p].workerBoot != boot
    requires |k.fenced| < s.runtime.limits.maxPublishers
    ensures HandleDisconnect(k, s, connection, [boot]) ==
            Persist(k.(fenced := k.fenced + {boot}, workers := k.workers - {boot},
                       connections := k.connections - {connection}), s.runtime.limits)
  {
    hide Persist;
    assert (set b | b in [boot]) == {boot};
    assert [boot][1..] == [];
    assert Lost(k.workers, [boot]) == [boot];
    assert Fence(k.fenced, [boot], s.runtime.limits.maxPublishers) == k.fenced + {boot};
    assert LosePublisher(k.rt, k.workers[boot].publisher, boot).records == k.rt.records;
    assert LoseAll(k.rt, k.workers, [boot]) == k.rt;
    assert k.workers - (set b | b in [boot]) == k.workers - {boot};
  }

  lemma FirstLossFills(s: Settings)
    requires s == SomeSettings(1)
    ensures Handle(TwoWorkersState(), s, Disconnect(0, ["b1"])) == Some(FenceFull(s))
  {
    hide Persist, SomeSet, SomePolicy, HandleDisconnect;
    var k := TwoWorkersState();
    LoseOne(k, s, 0, "b1");
    assert k.workers - {"b1"} == map["b2" := Worker("B", 1)];
    assert k.connections - {0} == map[1 := {"b2"}];
    assert {} + {"b1"} == {"b1"};
  }

  /**
   * With room for one fence: the first boot is fenced when its connection is lost. The second publishes, the
   * publication is accepted, and when its connection is lost it is neither fenced nor registered.
   */
  lemma AcknowledgedBootIsNotFenced()
    ensures var s := SomeSettings(1);
            var run := RunMessages(Fresh(SomePolicy(), 1), s,
                         TwoWorkers() + [Disconnect(0, ["b1"]), Authorization(1, "b2", "B", NamedPath("")),
                           Disconnect(1, ["b2"])]);
            && run.Some? && "b2" in run.value.acked && "b2" !in run.value.fenced && "b2" !in run.value.workers
  {
    hide RunMessages, Handle, Fresh, NamedPath, DecisionFor, CommitFor, Commit, SomeSet, SomePolicy, WithSet, Export,
      FenceFull, Writable, WellFormedEnvelope;
    var s := SomeSettings(1);
    var loss, publication, last :=
      Disconnect(0, ["b1"]), Authorization(1, "b2", "B", NamedPath("")), Disconnect(1, ["b2"]);
    TwoWorkersRun(s);
    RunMessagesAppend(Fresh(SomePolicy(), 1), s, TwoWorkers(), [loss, publication, last]);
    FirstLossFills(s);
    SendersAreKnown();
    WaitingAtFullFence(s);
    assert [loss, publication, last] == [loss] + [publication, last];
    RunCons(TwoWorkersState(), s, loss, [publication, last]);
    FirstPublicationIsAccepted(FenceFull(s), s, 1, "b2", "B", "");
    RunTwo(FenceFull(s), s, publication, last);
    assert {} + {"b2"} == {"b2"};
    SecondLossFindsNoRoom(s, Handle(FenceFull(s), s, publication).value);
  }

  lemma WaitingAtFullFence(s: Settings)
    ensures Waiting(FenceFull(s)) && Live(FenceFull(s), 1) && RegisteredOn(FenceFull(s), "b2", 1)
            && "b2" !in FenceFull(s).fenced
    ensures FenceFull(s).workers == map["b2" := Worker("B", 1)] && FenceFull(s).fenced == {"b1"}
    ensures FenceFull(s).connections == map[1 := {"b2"}] && FenceFull(s).nextConnection == 2 && FenceFull(s).acked == {}
            && FenceFull(s).histories == map[]
  {
    hide WithSet, SomePolicy, Export, Writable;
  }

  lemma DisconnectIs(k: Coordinator, s: Settings, connection: nat, order: seq<string>)
    ensures Handle(k, s, Disconnect(connection, order)) == Some(HandleDisconnect(k, s, connection, order))
  {
    hide HandleDisconnect;
  }

  lemma SecondLossFindsNoRoom(s: Settings, k: Coordinator)
    requires s == SomeSettings(1) && k.workers == map["b2" := Worker("B", 1)] && k.fenced == {"b1"} && k.acked == {"b2"}
    requires k.connections == map[1 := {"b2"}] && k.nextConnection == 2
    ensures var next := Handle(k, s, Disconnect(1, ["b2"]));
            next.Some? && next.value.acked == {"b2"} && "b2" !in next.value.fenced && "b2" !in next.value.workers
  {
    hide Handle, HandleDisconnect, WorkersSound, LostBoots;
    OneLostBoot(k, 1, "b2");
    DisconnectIs(k, s, 1, ["b2"]);
    LostBootsAreFenced(k, s, 1, ["b2"]);
  }
}
