/** The concrete images are small enough to be written, and some of them can be read back. */
module StoreScenarios {
  import opened Base
  import opened Model
  import opened Ordering
  import opened RuntimeState
  import opened Recovery
  import opened Bytes
  import opened PathCodec
  import opened RequirementCodec
  import opened ConstraintCodec
  import opened DurableCodec
  import opened StoreImages
  import opened Scenarios
  import UnnamedDomain

  // ---- sizes ---------------------------------------------------------------------------------------

  lemma PutOne<T>(x: T, put: (T, seq<byte>) -> seq<byte>, rest: seq<byte>)
    ensures PutList([x], put, rest) == put(x, rest)
  {
    assert [x][1..] == [] && PutList([], put, rest) == rest;
  }

  lemma PutTwo<T>(x: T, y: T, put: (T, seq<byte>) -> seq<byte>, rest: seq<byte>)
    ensures PutList([x, y], put, rest) == put(x, put(y, rest))
  {
    assert [x, y][1..] == [y];
    PutOne(y, put, rest);
  }

  lemma PolicySize()
    ensures |EncodePolicy(SomePolicy())| <= 100
  {
    hide LittleEndian;
  }

  lemma SetSize()
    ensures |EncodeConstraintSet(SomeSet())| <= 100
  {
    hide LittleEndian;
  }

  lemma CoverageSetSize()
    ensures |EncodeConstraintSet(UnnamedDomain.CoverageSet())| <= 200
  {
    hide LittleEndian, PutDomain;
    var c := UnnamedDomain.CoverageSet();
    var rest := PutLinkAcceptance(c.linkState, PutPortAcceptance(c.portAdmin, PutCounted(c.allowedLayers, PutLayer,
      PutBool(c.allowLoops, PutUint(c.maxHops, 4, [])))));
    PutOne(UnnamedDomain.Coverage(), PutDomain, rest);
    CoverageSize(rest);
  }

  lemma CoverageSize(rest: seq<byte>)
    ensures |PutDomain(UnnamedDomain.Coverage(), rest)| <= 50 + |rest|
  {
    hide LittleEndian;
  }

  lemma HopSize(h: PathElement, rest: seq<byte>)
    requires |h.id| <= 8
    ensures |PutHop(h, rest)| <= 40 + |rest|
  {
    hide LittleEndian;
  }

  lemma PathSize(id: string, under: string)
    requires |under| < 5
    ensures |EncodePath(SomePath(id, under))| <= 300
  {
    hide LittleEndian, PutHop;
    var p := SomePath(id, under);
    var hops := SomeHops();
    var end := PutUnderlying(p.underlying, []);
    HopSize(hops[1], end);
    HopSize(hops[0], PutHop(hops[1], end));
    PutTwo(hops[0], hops[1], PutHop, end);
  }

  lemma EntrySize(e: EvidenceEntry, rest: seq<byte>)
    requires |e.subject| <= 8
    ensures |PutEntry(e, rest)| <= 40 + |rest|
  {
    hide LittleEndian;
  }

  lemma EvidenceSize()
    ensures |EncodeEvidence(SomeEvidence())| <= 100
  {
    hide LittleEndian, PutEntry;
    var es := SomeEvidence();
    EntrySize(es[1], []);
    EntrySize(es[0], PutEntry(es[1], []));
    PutTwo(es[0], es[1], PutEntry, []);
  }

  lemma {:induction false} BootsSize(boots: seq<string>)
    requires forall b :: b in boots ==> |b| <= 8
    ensures |PutList(boots, PutBoot, [])| <= 12 * |boots|
  {
    hide LittleEndian;
    if boots != [] {
      assert forall b :: b in boots[1..] ==> b in boots;
      BootsSize(boots[1..]);
    }
  }

  /** A record of the concrete path with nothing else of size. */
  ghost predicate SmallRecord(i: Image, p: string) {
    && p in i.state.records && p !in i.histories
    && (var r := i.state.records[p];
        && (exists id, under :: |under| < 5 && r.definition == SomePath(id, under))
        && r.evidence == SomeEvidence() && r.revocation.None? && |r.publisher| <= 8 && |r.workerBoot| <= 8)
  }

  lemma RecordSize(i: Image, p: string, rest: seq<byte>)
    requires SmallRecord(i, p)
    ensures |PutRecord(RecordAt(i, p, _ => BLANK), rest)| <= 600 + |rest|
  {
    hide LittleEndian, EncodePath, EncodeEvidence, ToBytes, SomePath, SomeEvidence;
    var r := i.state.records[p];
    var id, under :| |under| < 5 && r.definition == SomePath(id, under);
    PathSize(id, under);
    EvidenceSize();
    TextSize(r.workerBoot, rest);
    TextSize(r.publisher, PutText(r.workerBoot, rest));
  }

  lemma TextSize(t: string, rest: seq<byte>)
    ensures |PutText(t, rest)| == 4 + |t| + |rest|
  {
  }

  /** One small set and at most one small record, in policy one. */
  ghost predicate SmallImage(i: Image) {
    && i.state.epoch != 0 && i.state.policy == SomePolicy()
    && (i.state.sets == map["c" := SomeSet()] || i.state.sets == map["c" := UnnamedDomain.CoverageSet()])
    && (i.state.records == map[] || exists p :: i.state.records.Keys == {p} && SmallRecord(i, p))
    && |i.state.fenced| <= 8 && forall b :: b in i.state.fenced ==> |b| <= 8
  }

  lemma OneKey(s: set<string>, x: string)
    requires s == {x}
    ensures Ascending(s) == [x]
  {
    hide Ascending;
    assert Ascending(s)[0] in Ascending(s);
  }

  lemma OneSetSize(d: Durable, rest: seq<byte>)
    requires d.sets == map["c" := SomeSet()] || d.sets == map["c" := UnnamedDomain.CoverageSet()]
    ensures |PutCounted(SetsAt(d, Ascending(d.sets.Keys)), DurableCodec.PutSet, rest)| <= 300 + |rest|
  {
    hide LittleEndian, EncodeConstraintSet, Ascending, SetsAt, SomeSet, UnnamedDomain.CoverageSet;
    assert d.sets.Keys == {"c"};
    OneKey(d.sets.Keys, "c");
    var cs := SetsAt(d, ["c"]);
    assert cs == [d.sets["c"]];
    PutOne(d.sets["c"], DurableCodec.PutSet, rest);
    SetSize();
    CoverageSetSize();
  }

  lemma RecordsSize(i: Image, rest: seq<byte>)
    requires i.state.records == map[] || exists p :: i.state.records.Keys == {p} && SmallRecord(i, p)
    ensures |PutCounted(RecordsAt(i, Ascending(i.state.records.Keys), _ => BLANK), PutRecord, rest)| <= 700 + |rest|
  {
    hide LittleEndian, PutRecord, Ascending, RecordsAt, SmallRecord, RecordAt;
    var keys := Ascending(i.state.records.Keys);
    if i.state.records == map[] {
      assert keys == [] && RecordsAt(i, keys, _ => BLANK) == [];
    } else {
      var p :| i.state.records.Keys == {p} && SmallRecord(i, p);
      OneKey(i.state.records.Keys, p);
      var rs := RecordsAt(i, [p], _ => BLANK);
      assert rs == [RecordAt(i, p, _ => BLANK)];
      PutOne(rs[0], PutRecord, rest);
      RecordSize(i, p, rest);
    }
  }

  /** A small image is written. */
  lemma SmallIsWritable(i: Image, limits: Limits)
    requires SmallImage(i) && limits.maxStoreRecords >= 1 && limits.maxStoreBytes >= 2000
    ensures Writable(i, limits)
  {
    hide LittleEndian, EncodePolicy, PutCounted, Ascending, SetsAt, RecordsAt, SomePolicy, SomeSet, SmallRecord,
      UnnamedDomain.CoverageSet;
    var st := Rendered(i, _ => BLANK);
    var boots := PutCounted(st.fenced, PutBoot, []);
    FencesSize(i.state);
    RecordsSize(i, boots);
    var records := PutCounted(st.records, PutRecord, boots);
    OneSetSize(i.state, records);
    PolicySize();
    assert |i.state.records| <= 1 by {
      if i.state.records != map[] {
        var p :| i.state.records.Keys == {p} && SmallRecord(i, p);
        assert |i.state.records.Keys| == 1;
      }
    }
  }

  lemma FencesSize(d: Durable)
    requires |d.fenced| <= 8 && forall b :: b in d.fenced ==> |b| <= 8
    ensures |PutCounted(Ascending(d.fenced), PutBoot, [])| <= 100
  {
    hide LittleEndian, PutList, Ascending;
    BootsSize(Ascending(d.fenced));
  }

  // ---- what can be read back -----------------------------------------------------------------------------

  lemma ShortIdentities(limits: Limits)
    ensures IdentityText("s", SCOPE_LENGTH) && IdentityText("c", CONSTRAINT_SET_ID_LENGTH)
    ensures limits.maxIdLength > 0 ==> IdentityText("a", limits.maxIdLength) && IdentityText("b", limits.maxIdLength)
  {
  }

  lemma PolicyIsReadable(limits: Limits)
    requires limits.maxIdLength > 0 && limits.maxFrameBytes >= 300
    ensures PolicyReads(SomePolicy(), limits)
  {
    hide EncodePolicy, IdentityText;
    PolicySize();
    ShortIdentities(limits);
  }

  lemma SetIsReadable(limits: Limits)
    requires limits.maxIdLength > 0 && limits.maxFrameBytes >= 300
    ensures SetReads(SomeSet(), limits)
  {
    hide EncodeConstraintSet, IdentityText;
    SetSize();
    ShortIdentities(limits);
  }

  lemma PathIsReadable(id: string, limits: Limits)
    requires limits.maxIdLength > 0 && limits.maxMetadataBytes > 0 && limits.maxFrameBytes >= 300 && limits.maxHops >= 2
    ensures PathReads(SomePath(id, ""), limits)
  {
    hide EncodePath, IdentityText;
    PathSize(id, "");
    ShortIdentities(limits);
  }

  lemma EvidenceIsReadable(limits: Limits)
    requires limits.maxIdLength > 0 && limits.maxMetadataBytes >= 4 && limits.maxFrameBytes >= 300
    requires limits.maxDependenciesPerPath >= 2
    ensures EvidenceReads(SomeEvidence(), limits)
  {
    hide EncodeEvidence;
    EvidenceSize();
    SomeEvidenceIsValid();
  }

  /** A small image of a path that rests on nothing holds nothing that the decoder refuses. */
  lemma SmallIsReadable(i: Image, p: string, limits: Limits)
    requires SmallImage(i) && SmallRecord(i, p) && i.state.records[p].definition == SomePath(p, "")
    requires i.state.records[p].generation != 0 && i.state.sets == map["c" := SomeSet()]
    requires limits.maxIdLength >= 8 && limits.maxMetadataBytes >= 4 && limits.maxFrameBytes >= 300
             && limits.maxHops >= 2 && limits.maxDependenciesPerPath >= 2
    ensures PolicyReads(i.state.policy, limits) && SetReads(SomeSet(), limits) && RecordIsReadable(i, p, limits)
  {
    hide PathReads, EvidenceReads, SetReads, PolicyReads, SomePath, SomeEvidence, SomeSet, SomePolicy;
    PolicyIsReadable(limits);
    SetIsReadable(limits);
    PathIsReadable(p, limits);
    EvidenceIsReadable(limits);
  }
}
