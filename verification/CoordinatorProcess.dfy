/** The coordinator process: handlers that change its tables and its runtime in place. */
module CoordinatorProcess {
  import opened Base
  import opened Model
  import opened RuntimeState
  import opened Publication
  import opened Coordinator
  import opened StoreImages
  import AuthorityRuntime
  import DurableCodec
  import Recovery

  lemma LostSnoc(workers: map<string, Worker>, order: seq<string>, b: string)
    ensures Lost(workers, order + [b]) ==
            Lost(workers, order) + if b in workers && b !in Lost(workers, order) then [b] else []
    decreases |order|
  {
    if order == [] {
      assert order + [b] == [b] && [b][1..] == [];
    } else {
      assert (order + [b])[0] == order[0] && (order + [b])[1..] == order[1..] + [b];
      var rest := if order[0] in workers then workers - {order[0]} else workers;
      LostSnoc(rest, order[1..], b);
      LostMembers(rest, order[1..]);
    }
  }

  lemma FenceSnoc(fenced: set<string>, lost: seq<string>, b: string, max: nat)
    ensures Fence(fenced, lost + [b], max) ==
            var f := Fence(fenced, lost, max); if |f| < max then f + {b} else f
    decreases |lost|
  {
    if lost == [] {
      assert lost + [b] == [b] && [b][1..] == [];
    } else {
      assert (lost + [b])[0] == lost[0] && (lost + [b])[1..] == lost[1..] + [b];
      FenceSnoc(if |fenced| < max then fenced + {lost[0]} else fenced, lost[1..], b, max);
    }
  }

  lemma LoseSnoc(rt: Runtime, workers: map<string, Worker>, lost: seq<string>, b: string)
    requires (forall x :: x in lost ==> x in workers) && b in workers
    ensures forall x :: x in lost + [b] ==> x in workers
    ensures LoseAll(rt, workers, lost + [b]) == LosePublisher(LoseAll(rt, workers, lost), workers[b].publisher, b)
    decreases |lost|
  {
    hide LosePublisher;
    if lost == [] {
      assert lost + [b] == [b] && [b][1..] == [];
    } else {
      assert (lost + [b])[0] == lost[0] && (lost + [b])[1..] == lost[1..] + [b];
      LoseSnoc(LosePublisher(rt, workers[lost[0]].publisher, lost[0]), workers, lost[1..], b);
    }
  }

  lemma ClosingIsDropping(k: Coordinator, s: Settings, connection: nat, order: seq<string>)
    requires Live(k, connection) && (set b | b in order) == k.connections[connection]
    ensures var lost := Lost(k.workers, order);
            && (forall b :: b in lost ==> b in k.workers)
            && HandleDisconnect(k, s, connection, order) ==
                 if lost != [] then Persist(Drop(k, s, connection, lost), s.runtime.limits)
                 else Drop(k, s, connection, lost)
  {
    hide Lost, Drop, Persist;
    LostMembers(k.workers, order);
  }

  class PathAuthorityCoordinator {
    const settings: Settings
    const runtime: AuthorityRuntime.PathAuthorityRuntime
    var workers: map<string, Worker>
    var fenced: set<string>
    var connections: map<nat, set<string>>
    var nextConnection: nat
    var epoch: u64
    var policy: PolicySet
    /** The history lists of the runtime's records. */
    var histories: map<string, seq<DurableCodec.HistoryEntry>>
    /** What the store holds. */
    var image: Option<Image>
    ghost var acked: set<string>
    ghost var ackedRevocations: set<string>
    ghost var refused: bool

    ghost function State(): Coordinator
      reads this, runtime
    {
      Coordinator(runtime.State(), workers, fenced, connections, nextConnection, epoch, policy, image, acked,
        ackedRevocations, histories, refused)
    }

    ghost predicate Valid()
      reads this, runtime
    {
      runtime.config == settings.runtime && runtime.BucketsInUse()
    }

    /** A process that has loaded nothing yet, beside a store that may hold an image. */
    constructor (settings: Settings, policy: PolicySet, image: Option<Image>, ghost acked: set<string>,
                 ghost ackedRevocations: set<string>, ghost refused: bool)
      ensures Valid() && this.settings == settings && fresh(runtime)
      ensures State() ==
              Coordinator(EmptyRuntime(), map[], {}, map[], 0, 0, policy, image, acked, ackedRevocations, map[],
                refused)
    {
      this.settings, this.policy, this.image, this.acked, this.ackedRevocations, this.refused :=
        settings, policy, image, acked, ackedRevocations, refused;
      runtime := new AuthorityRuntime.PathAuthorityRuntime(settings.runtime);
      workers, fenced, connections, nextConnection, epoch, histories := map[], {}, map[], 0, 0, map[];
    }

    /** A process that has not started. */
    ghost predicate Idle()
      reads this, runtime
    {
      runtime.State() == EmptyRuntime() && workers == map[] && fenced == {} && connections == map[]
        && nextConnection == 0 && histories == map[]
    }

    /**
     * start: decoding the store, recovery from the image and the choice of the epoch. When the decoder refuses,
     * nothing is loaded; a start that fails later has loaded the stored fences and as much of the records as could
     * be imported in the order of the file.
     */
    method StartUp(control: u64, pinned: u64, order: seq<string>) returns (ok: bool)
      requires Valid() && Idle()
      requires image.Some? && ReadImage(image.value, settings.runtime.limits).Some? ==>
                 Recovery.Lists(order, ReadImage(image.value, settings.runtime.limits).value.state)
      modifies this, runtime
      ensures Valid() && ok == Start(old(State()), settings, control, pinned, old(policy)).Some?
      ensures ok ==> State() == Start(old(State()), settings, control, pinned, old(policy)).value
      ensures !ok ==> image == old(image) && image.Some?
      ensures !ok && ReadImage(image.value, settings.runtime.limits).None? ==> State() == old(State())
      ensures !ok && ReadImage(image.value, settings.runtime.limits).Some? ==>
                var read := ReadImage(image.value, settings.runtime.limits).value.state;
                && State() == old(State()).(rt := runtime.State(), fenced := read.fenced)
                && (if Recovery.Readable(read, settings.runtime.limits) then
                      Recovery.PartOf(runtime.State(), EmptyRuntime(), read, order, policy, settings.runtime.limits)
                    else runtime.State() == EmptyRuntime())
    {
      hide Recovery.Import, Recovery.Readable, Recovery.PartOf, Recovery.Lists, ReadImage;
      var recovered: Option<u64> := None;
      var loaded: Option<Image> := None;
      if image.Some? {
        loaded := ReadImage(image.value, settings.runtime.limits);
        if loaded.None? { return false; }
        recovered := Some(loaded.value.state.epoch);
        fenced := loaded.value.state.fenced;
        ok := runtime.ImportState(loaded.value.state, order, policy);
        if !ok { return false; }
      }
      if recovered.Some? && recovered.value == U64_MAX { return false; }
      var next := if recovered.Some? then recovered.value + 1 else 0;
      var chosen := control;
      if next > chosen { chosen := next; }
      if pinned != 0 {
        if pinned < next { return false; }
        chosen := pinned;
      }
      if chosen == 0 { chosen := 1; }
      epoch := chosen;
      if image.Some? {
        ackedRevocations := Renamed(ackedRevocations, image.value.state);
        histories, image := loaded.value.histories, loaded;
      }
      return true;
    }

    method PersistNow()
      requires Valid()
      modifies this`image, this`refused
      ensures Valid() && State() == Persist(old(State()), settings.runtime.limits)
    {
      hide Writable;
      var d := runtime.ExportState(epoch, policy);
      var all := fenced;
      var todo := workers.Keys;
      while todo != {}
        invariant all + todo == fenced + workers.Keys && todo <= workers.Keys
        decreases todo
      {
        var b :| b in todo;
        all, todo := all + {b}, todo - {b};
      }
      assert all == fenced + workers.Keys;
      var next := Image(d.(fenced := all), histories);
      if Writable(next, settings.runtime.limits) { image := Some(next); } else { refused := true; }
    }

    method RegisterWorkerBoot(connection: nat, e: Envelope) returns (accepted: bool)
      requires Valid()
      modifies this`workers, this`connections
      ensures Valid() && (State(), accepted) == HandleRegister(old(State()), settings, connection, e)
    {
      if connection !in connections || !WellFormedEnvelope(e) { return false; }
      if e.boot in fenced { return false; }
      if |workers| >= settings.maxWorkers { return false; }
      workers := workers[e.boot := Worker(e.publisher, connection)];
      connections := connections[connection := connections[connection] + {e.boot}];
      return true;
    }

    method PublishFrom(connection: nat, m: PublishMessage) returns (answer: Answer)
      requires Valid()
      modifies this`image, this`refused, this`acked, runtime
      ensures Valid() && (State(), answer) == HandlePublish(old(State()), settings, connection, m)
    {
      hide Publish, Persist, WellFormedEnvelope;
      var e := m.envelope;
      if connection !in connections || !WellFormedEnvelope(e) {
        return Answer(MalformedPath, false, false, 0);
      }
      if e.boot in fenced { return Answer(StaleAuthority, false, false, 0); }
      if e.boot !in workers || workers[e.boot].connection != connection {
        return Answer(StaleAuthority, false, false, 0);
      }
      answer := runtime.PublishDecision(m.path, m.decision, RequestOf(e, m.expected), policy, epoch);
      if answer.committed || answer.idempotent {
        acked := acked + {e.boot};
        PersistNow();
      }
    }

    method RevokeFrom(connection: nat, m: RevokeMessage) returns (answer: RevokeAnswer)
      requires Valid()
      modifies this`image, this`refused, this`ackedRevocations, runtime
      ensures Valid() && (State(), answer) == HandleRevoke(old(State()), settings, connection, m)
    {
      hide Revoke, Persist, WellFormedEnvelope;
      var e := m.envelope;
      if connection !in connections || !WellFormedEnvelope(e) { return RefusedRevocation(MalformedPath); }
      if e.boot in fenced { return RefusedRevocation(StaleAuthority); }
      if e.boot !in workers || workers[e.boot].connection != connection { return RefusedRevocation(StaleAuthority); }
      if e.epoch != epoch { return RefusedRevocation(StaleEpoch); }
      var request := RevokeRequest(e.attempt, m.reason, m.explanation, m.authority, m.expected, true);
      var result := runtime.RevokePath(m.path, request, epoch);
      if result.Applied? || result.Repeated? {
        ackedRevocations := ackedRevocations + {m.path};
        PersistNow();
      }
      return Ran(result);
    }

    /** The pass over the boots of a connection: the ones still registered are fenced and unregistered. */
    method UnregisterBoots(order: seq<string>) returns (lost: seq<string>, publishers: seq<string>)
      modifies this`workers, this`fenced
      ensures lost == Lost(old(workers), order)
              && fenced == Fence(old(fenced), lost, settings.runtime.limits.maxPublishers)
      ensures workers == old(workers) - (set b | b in lost)
      ensures |publishers| == |lost|
      ensures forall j :: 0 <= j < |lost| ==>
                lost[j] in old(workers) && publishers[j] == old(workers)[lost[j]].publisher
    {
      hide Lost, Fence;
      ghost var max := settings.runtime.limits.maxPublishers;
      lost, publishers := [], [];
      NothingLost(old(workers), old(fenced), order, max);
      for k := 0 to |order|
        invariant lost == Lost(old(workers), order[..k]) && fenced == Fence(old(fenced), lost, max)
        invariant forall b :: b in workers <==> b in old(workers) && b !in lost
        invariant forall b :: b in workers ==> workers[b] == old(workers)[b]
        invariant |publishers| == |lost|
        invariant forall j :: 0 <= j < |lost| ==>
                    lost[j] in old(workers) && publishers[j] == old(workers)[lost[j]].publisher
      {
        var b := order[k];
        assert order[..k + 1] == order[..k] + [b];
        LostSnoc(old(workers), order[..k], b);
        if b in workers {
          FenceSnoc(old(fenced), lost, b, max);
          lost, publishers := lost + [b], publishers + [workers[b].publisher];
          if |fenced| < settings.runtime.limits.maxPublishers { fenced := fenced + {b}; }
          workers := workers - {b};
        }
      }
      assert order[..|order|] == order;
      assert workers == old(workers) - (set b | b in lost);
    }

    /** fence_connection_workers: one pass over the connection's boots, one over the lost ones. */
    method FenceConnectionWorkers(connection: nat, order: seq<string>)
      requires Valid() && connection in connections && (set b | b in order) == connections[connection]
      modifies this`workers, this`fenced, this`connections, this`image, this`refused, runtime
      ensures Valid() && State() == HandleDisconnect(old(State()), settings, connection, order)
    {
      hide Lost, Fence, LoseAll, Persist, HandleDisconnect;
      ghost var registered := workers;
      ClosingIsDropping(State(), settings, connection, order);
      var lost, publishers := UnregisterBoots(order);
      connections := connections - {connection};
      MarkLost(lost, publishers, registered);
      assert State() == Drop(old(State()), settings, connection, lost);
      if lost != [] { PersistNow(); }
    }

    method MarkLost(lost: seq<string>, publishers: seq<string>, ghost registered: map<string, Worker>)
      requires Valid() && |publishers| == |lost|
      requires forall j :: 0 <= j < |lost| ==> lost[j] in registered && publishers[j] == registered[lost[j]].publisher
      modifies runtime
      ensures Valid() && (forall b :: b in lost ==> b in registered)
              && runtime.State() == LoseAll(old(runtime.State()), registered, lost)
    {
      hide LosePublisher, LoseAll;
      ghost var rt := runtime.State();
      assert LoseAll(rt, registered, lost[..0]) == rt by { LoseNothing(rt, registered, lost); }
      for k := 0 to |lost|
        invariant Valid() && (forall b :: b in lost[..k] ==> b in registered)
                  && runtime.State() == LoseAll(rt, registered, lost[..k])
      {
        LoseSnoc(rt, registered, lost[..k], lost[k]);
        assert lost[..k + 1] == lost[..k] + [lost[k]];
        runtime.InvalidatePublisher(publishers[k], lost[k]);
      }
      assert lost[..|lost|] == lost;
    }
  }

  lemma NothingLost(workers: map<string, Worker>, fenced: set<string>, order: seq<string>, max: nat)
    ensures Lost(workers, order[..0]) == [] && Fence(fenced, [], max) == fenced
  {
  }

  lemma LoseNothing(rt: Runtime, workers: map<string, Worker>, lost: seq<string>)
    ensures LoseAll(rt, workers, lost[..0]) == rt
  {
  }
}
