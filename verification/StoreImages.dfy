/** The store: what is written for a durable state, when writing is refused, and what is read back. */
module StoreImages {
  import opened Base
  import opened Model
  import opened Ordering
  import opened RuntimeState
  import opened Recovery
  import opened Bytes
  import opened PathCodec
  import opened ConstraintCodec
  import opened DurableCodec
  import Sha256

  // ---- what is stored ------------------------------------------------------------------------------

  /** The durable state and the history lists beside its records, whose contents the runtime model leaves open. */
  datatype Image = Image(state: Durable, histories: map<string, seq<HistoryEntry>>)

  function HistoryOf(i: Image, p: string): seq<HistoryEntry> { if p in i.histories then i.histories[p] else [] }

  function StoredOf(r: DurableRecord, history: seq<HistoryEntry>, digest: seq<byte>): StoredRecord {
    StoredRecord(r.definition, r.generation, r.state, r.outcome, r.evidence, digest, r.revocation, history, r.retired,
      r.publisher, r.workerBoot)
  }

  function SetsAt(d: Durable, keys: seq<string>): (r: seq<ConstraintSet>)
    requires forall k :: k in keys ==> k in d.sets
    ensures |r| == |keys| && forall j :: 0 <= j < |keys| ==> r[j] == d.sets[keys[j]]
  {
    if keys == [] then [] else [d.sets[keys[0]]] + SetsAt(d, keys[1..])
  }

  function RecordAt(i: Image, p: string, digests: Digest -> seq<byte>): StoredRecord
    requires p in i.state.records
  {
    StoredOf(i.state.records[p], HistoryOf(i, p), digests(i.state.records[p].authorityDigest))
  }

  function RecordsAt(i: Image, keys: seq<string>, digests: Digest -> seq<byte>): (r: seq<StoredRecord>)
    requires forall k :: k in keys ==> k in i.state.records
    ensures |r| == |keys| && forall j :: 0 <= j < |keys| ==> r[j] == RecordAt(i, keys[j], digests)
  {
    if keys == [] then [] else [RecordAt(i, keys[0], digests)] + RecordsAt(i, keys[1..], digests)
  }

  /** What encode_durable_state is given, for some bytes of each digest. */
  function Rendered(i: Image, digests: Digest -> seq<byte>): StoredState {
    StoredState(i.state.epoch, i.state.policy, SetsAt(i.state, Ascending(i.state.sets.Keys)),
      RecordsAt(i, Ascending(i.state.records.Keys), digests), Ascending(i.state.fenced))
  }

  const BLANK: seq<byte> :=
    [0, 0, 0, 0, 0, 0, 0, 0, 0, 0, 0, 0, 0, 0, 0, 0, 0, 0, 0, 0, 0, 0, 0, 0, 0, 0, 0, 0, 0, 0, 0, 0]

  function ImageSize(i: Image): nat { |Body(Rendered(i, _ => BLANK))| + DIGEST_BYTES }

  /** encode_durable_state does not throw. */
  predicate Writable(i: Image, limits: Limits) {
    i.state.epoch != 0 && |i.state.records| <= limits.maxStoreRecords && ImageSize(i) <= limits.maxStoreBytes
  }

  // ---- what is read back -----------------------------------------------------------------------------

  /** The id under which a stored path comes back: ids are not stored. */
  function NewId(d: Durable, p: string): string
    requires p in d.records
  {
    DerivedId(d.records[p].definition)
  }

  predicate RecordIsReadable(i: Image, p: string, limits: Limits)
    requires p in i.state.records
  {
    RecordReads(StoredOf(i.state.records[p], HistoryOf(i, p), BLANK), limits)
  }

  /** No two stored paths have the same content, and no two sets the same id. */
  predicate Apart(d: Durable) {
    && (forall p, q :: p in d.records && q in d.records && NewId(d, p) == NewId(d, q) ==> p == q)
    && (forall s, t :: s in d.sets && t in d.sets && d.sets[s].id == d.sets[t].id ==> s == t)
  }

  predicate ReferencesHold(d: Durable, p: string)
    requires p in d.records
  {
    UnderlyingHolds(d, d.records[p].definition.underlying) && SetHolds(d, d.records[p].definition.constraintSet)
  }

  predicate UnderlyingHolds(d: Durable, u: Option<UnderlyingRef>) {
    u.Some? ==> exists q :: q in d.records && NewId(d, q) == u.value.path
  }

  predicate SetHolds(d: Durable, id: string) { exists s :: s in d.sets && d.sets[s].id == id }

  predicate SetsRead(d: Durable, limits: Limits) {
    |d.sets| <= limits.maxConstraints && forall s :: s in d.sets ==> SetReads(d.sets[s], limits)
  }

  predicate RecordsRead(i: Image, limits: Limits) {
    && |i.state.records| <= limits.maxStoreRecords
    && (forall p :: p in i.state.records ==> RecordIsReadable(i, p, limits) && ReferencesHold(i.state, p))
  }

  predicate FencesRead(d: Durable, limits: Limits) {
    |d.fenced| <= limits.maxPublishers && forall b :: b in d.fenced ==> BootReads(b, limits)
  }

  /** decode_durable_state does not throw. */
  predicate ImageReads(i: Image, limits: Limits) {
    && i.state.epoch != 0 && PolicyReads(i.state.policy, limits)
    && SetsRead(i.state, limits) && RecordsRead(i, limits) && FencesRead(i.state, limits) && Apart(i.state)
  }

  function BackRecord(r: DurableRecord): DurableRecord {
    r.(definition := r.definition.(id := DerivedId(r.definition)), revocation := TidyRevocation(r.revocation),
       publisher := Tidied(r.publisher, PUBLISHER_LENGTH), workerBoot := Tidied(r.workerBoot, BOOT_LENGTH))
  }

  function NewIds(d: Durable): set<string> { set p | p in d.records :: NewId(d, p) }

  /** The path that comes back under an id. */
  function OldId(d: Durable, id: string): (p: string)
    requires Apart(d) && id in NewIds(d)
    ensures p in d.records && NewId(d, p) == id
  {
    var p :| p in d.records && NewId(d, p) == id;
    p
  }

  function BackRecords(d: Durable): map<string, DurableRecord>
    requires Apart(d)
  {
    map id | id in NewIds(d) :: BackRecord(d.records[OldId(d, id)])
  }

  function BackHistories(i: Image): map<string, seq<HistoryEntry>>
    requires Apart(i.state)
  {
    map id | id in NewIds(i.state) :: HistoryOf(i, OldId(i.state, id))
  }

  function Back(i: Image): Image
    requires Apart(i.state)
  {
    Image(i.state.(records := BackRecords(i.state)), BackHistories(i))
  }

  /** read_store; an image that is refused throws in the original. */
  function ReadImage(i: Image, limits: Limits): Option<Image> { if ImageReads(i, limits) then Some(Back(i)) else None }

  // ---- the size does not depend on the digests ---------------------------------------------------------

  ghost predicate DigestBytes(digests: Digest -> seq<byte>) { forall d :: |digests(d)| == DIGEST_BYTES }

  lemma {:induction false} HistorySize(hs: seq<HistoryEntry>, a: seq<byte>, b: seq<byte>)
    requires |a| == |b|
    ensures |PutList(hs, PutHistory, a)| == |PutList(hs, PutHistory, b)|
  {
    if hs != [] { HistorySize(hs[1..], a, b); }
  }

  lemma RecordSize(r: StoredRecord, digest: seq<byte>, a: seq<byte>, b: seq<byte>)
    requires |a| == |b| && |digest| == |r.authorityDigest|
    ensures |PutRecord(r, a)| == |PutRecord(r.(authorityDigest := digest), b)|
  {
    hide EncodePath, EncodeEvidence, ToBytes, LittleEndian, PutList, StateCode, OutcomeCode;
    var texts := PutText(r.publisher, PutText(r.workerBoot, a));
    var texts' := PutText(r.publisher, PutText(r.workerBoot, b));
    HistorySize(r.history, PutBool(r.retired, texts), PutBool(r.retired, texts'));
  }

  lemma {:induction false} RecordsSize(i: Image, keys: seq<string>, digests: Digest -> seq<byte>, a: seq<byte>,
      b: seq<byte>)
    requires DigestBytes(digests) && |a| == |b| && forall k :: k in keys ==> k in i.state.records
    ensures |PutList(RecordsAt(i, keys, digests), PutRecord, a)| ==
              |PutList(RecordsAt(i, keys, _ => BLANK), PutRecord, b)|
    decreases |keys|
  {
    hide PutRecord;
    if keys != [] {
      var rs, rs' := RecordsAt(i, keys, digests), RecordsAt(i, keys, _ => BLANK);
      RecordsSize(i, keys[1..], digests, a, b);
      assert rs[1..] == RecordsAt(i, keys[1..], digests) && rs'[1..] == RecordsAt(i, keys[1..], _ => BLANK);
      RecordSize(rs[0], BLANK, PutList(rs[1..], PutRecord, a), PutList(rs'[1..], PutRecord, b));
      assert rs'[0] == rs[0].(authorityDigest := BLANK);
    }
  }

  lemma PayloadSize(i: Image, digests: Digest -> seq<byte>)
    requires DigestBytes(digests)
    ensures |Body(Rendered(i, digests))| == |Body(Rendered(i, _ => BLANK))|
  {
    hide EncodePolicy, PutRecord, RecordsAt, SetsAt, Ascending, LittleEndian;
    var keys := Ascending(i.state.records.Keys);
    var boots := PutCounted(Ascending(i.state.fenced), PutBoot, []);
    RecordsSize(i, keys, digests, boots, boots);
    var a, b := Rendered(i, digests), Rendered(i, _ => BLANK);
    var ra, rb := PutCounted(a.records, PutRecord, boots), PutCounted(b.records, PutRecord, boots);
    SetsSize(a.constraintSets, ra, rb);
  }

  lemma {:induction false} SetsSize(cs: seq<ConstraintSet>, a: seq<byte>, b: seq<byte>)
    requires |a| == |b|
    ensures |PutList(cs, PutSet, a)| == |PutList(cs, PutSet, b)|
  {
    hide EncodeConstraintSet;
    if cs != [] { SetsSize(cs[1..], a, b); }
  }

  /** Writing is refused exactly when the encoder refuses, whatever the bytes of the digests are. */
  lemma WritableMeaning(i: Image, limits: Limits, digests: Digest -> seq<byte>)
    requires DigestBytes(digests)
    ensures Writable(i, limits) <==> EncodeState(Rendered(i, digests), limits).Some?
  {
    hide Body, Sha256.Sha256Of, Ascending, SetsAt;
    PayloadSize(i, digests);
  }

  // ---- reading is decoding what was encoded ---------------------------------------------------------------

  /** The stored form holds this image, in some order. */
  ghost predicate Holds(st: StoredState, i: Image, digests: Digest -> seq<byte>) {
    && st.epoch == i.state.epoch && st.policy == i.state.policy
    && (forall c :: c in st.constraintSets <==> exists s :: s in i.state.sets && i.state.sets[s] == c)
    && (forall r :: r in st.records <==> exists p :: p in i.state.records && RecordAt(i, p, digests) == r)
    && (forall b :: b in st.fenced <==> b in i.state.fenced)
  }

  lemma SetsHeld(d: Durable, keys: seq<string>)
    requires forall k :: k in keys ==> k in d.sets
    ensures forall c :: c in SetsAt(d, keys) <==> exists s :: s in keys && d.sets[s] == c
  {
    hide SetsAt;
    var r := SetsAt(d, keys);
    forall s | s in keys ensures d.sets[s] in r {
      var j :| 0 <= j < |keys| && keys[j] == s;
      assert r[j] == d.sets[s];
    }
    forall c | c in r ensures exists s :: s in keys && d.sets[s] == c {
      var j :| 0 <= j < |r| && r[j] == c;
      assert keys[j] in keys;
    }
  }

  lemma RecordsHeld(i: Image, keys: seq<string>, digests: Digest -> seq<byte>)
    requires forall k :: k in keys ==> k in i.state.records
    ensures forall r :: r in RecordsAt(i, keys, digests) <==> exists p :: p in keys && RecordAt(i, p, digests) == r
  {
    hide RecordsAt, RecordAt;
    var rs := RecordsAt(i, keys, digests);
    forall p | p in keys ensures RecordAt(i, p, digests) in rs {
      var j :| 0 <= j < |keys| && keys[j] == p;
      assert rs[j] == RecordAt(i, p, digests);
    }
    forall r | r in rs ensures exists p :: p in keys && RecordAt(i, p, digests) == r {
      var j :| 0 <= j < |rs| && rs[j] == r;
      assert keys[j] in keys;
    }
  }

  lemma RenderedHolds(i: Image, digests: Digest -> seq<byte>)
    ensures Holds(Rendered(i, digests), i, digests)
  {
    hide Ascending, RecordAt, SetsAt, RecordsAt;
    SetsHeld(i.state, Ascending(i.state.sets.Keys));
    RecordsHeld(i, Ascending(i.state.records.Keys), digests);
  }

  /** The bounds on single records do not look at the digest. */
  lemma DigestIsNotChecked(i: Image, p: string, digests: Digest -> seq<byte>, limits: Limits)
    requires p in i.state.records
    ensures RecordReads(RecordAt(i, p, digests), limits) <==> RecordIsReadable(i, p, limits)
  {
    hide PathReads, EvidenceReads, RevocationReads, HistoryReads;
  }

  lemma BackFields(i: Image, p: string, digests: Digest -> seq<byte>)
    requires p in i.state.records
    ensures var r := ReadBack(RecordAt(i, p, digests)).definition;
            && r.id == NewId(i.state, p) && r.underlying == i.state.records[p].definition.underlying
            && r.constraintSet == i.state.records[p].definition.constraintSet
  {
    hide DerivedId, TidyRevocation, Tidied;
  }

  lemma PayloadReadsImage(i: Image, digests: Digest -> seq<byte>, limits: Limits)
    ensures var d := i.state;
            PayloadReads(Rendered(i, digests), limits) <==>
              && d.epoch != 0 && PolicyReads(d.policy, limits) && SetsRead(d, limits) && FencesRead(d, limits)
              && |d.records| <= limits.maxStoreRecords
              && forall p :: p in d.records ==> RecordIsReadable(i, p, limits)
  {
    hide Ascending, RecordAt, SetsAt, RecordsAt, RecordReads, RecordIsReadable, SetReads, BootReads, PolicyReads;
    RenderedHolds(i, digests);
    var st := Rendered(i, digests);
    forall p | p in i.state.records { DigestIsNotChecked(i, p, digests, limits); }
    assert (forall c :: c in st.constraintSets ==> SetReads(c, limits))
           <==> forall s :: s in i.state.sets ==> SetReads(i.state.sets[s], limits);
    assert (forall r :: r in st.records ==> RecordReads(r, limits))
           <==> forall p :: p in i.state.records ==> RecordReads(RecordAt(i, p, digests), limits);
  }

  lemma ApartMeaning(i: Image, digests: Digest -> seq<byte>)
    ensures var st := Rendered(i, digests);
            Apart(i.state) <==> DistinctSets(st.constraintSets) && DistinctPaths(ReadBackAll(st.records))
  {
    hide Ascending, RecordAt, SetsAt, RecordsAt, ReadBack, NewId;
    SetsApart(i.state);
    PathsApart(i, digests);
  }

  lemma SetsApart(d: Durable)
    ensures DistinctSets(SetsAt(d, Ascending(d.sets.Keys))) <==>
            forall s, t :: s in d.sets && t in d.sets && d.sets[s].id == d.sets[t].id ==> s == t
  {
    hide Ascending, SetsAt;
    var keys := Ascending(d.sets.Keys);
    var cs := SetsAt(d, keys);
    AscendingDistinct(d.sets.Keys);
    if DistinctSets(cs) {
      forall s, t | s in d.sets && t in d.sets && d.sets[s].id == d.sets[t].id ensures s == t {
        var j :| 0 <= j < |keys| && keys[j] == s;
        var k :| 0 <= k < |keys| && keys[k] == t;
        assert cs[j].id == cs[k].id;
      }
    }
    if forall s, t :: s in d.sets && t in d.sets && d.sets[s].id == d.sets[t].id ==> s == t {
      forall j, k | 0 <= j < k < |cs| ensures cs[j].id != cs[k].id { assert keys[j] in keys && keys[k] in keys; }
    }
  }

  lemma PathsApart(i: Image, digests: Digest -> seq<byte>)
    ensures var d := i.state;
            DistinctPaths(ReadBackAll(RecordsAt(i, Ascending(d.records.Keys), digests))) <==>
            forall p, q :: p in d.records && q in d.records && NewId(d, p) == NewId(d, q) ==> p == q
  {
    hide Ascending, RecordsAt, RecordAt, ReadBack, NewId, DistinctPaths;
    var keys := Ascending(i.state.records.Keys);
    AscendingDistinct(i.state.records.Keys);
    forall j | 0 <= j < |keys| { BackAt(i, keys, digests, j); }
    IdsApart(i.state, keys, ReadBackAll(RecordsAt(i, keys, digests)));
  }

  lemma IdsApart(d: Durable, keys: seq<string>, rs: seq<StoredRecord>)
    requires (forall k :: k in keys <==> k in d.records) && |rs| == |keys|
    requires forall j, k :: 0 <= j < k < |keys| ==> keys[j] != keys[k]
    requires forall j :: 0 <= j < |keys| ==> keys[j] in keys && rs[j].definition.id == NewId(d, keys[j])
    ensures DistinctPaths(rs) <==>
            forall p, q :: p in d.records && q in d.records && NewId(d, p) == NewId(d, q) ==> p == q
  {
    hide NewId;
    if DistinctPaths(rs) {
      forall p, q | p in d.records && q in d.records && NewId(d, p) == NewId(d, q) ensures p == q {
        assert p in keys && q in keys;
        var j :| 0 <= j < |keys| && keys[j] == p;
        var k :| 0 <= k < |keys| && keys[k] == q;
        assert rs[j].definition.id == rs[k].definition.id;
      }
    }
    if forall p, q :: p in d.records && q in d.records && NewId(d, p) == NewId(d, q) ==> p == q {
      forall j, k | 0 <= j < k < |rs| ensures rs[j].definition.id != rs[k].definition.id {
        assert keys[j] in d.records && keys[k] in d.records;
      }
    }
  }

  lemma BackAt(i: Image, keys: seq<string>, digests: Digest -> seq<byte>, j: nat)
    requires j < |keys| && forall k :: k in keys ==> k in i.state.records
    ensures keys[j] in i.state.records
    ensures var r := ReadBackAll(RecordsAt(i, keys, digests))[j];
            && r == ReadBack(RecordAt(i, keys[j], digests)) && r.definition.id == NewId(i.state, keys[j])
  {
    hide RecordsAt, RecordAt, ReadBack, NewId, RecordReads, RecordIsReadable;
    BackFields(i, keys[j], digests);
  }

  lemma BackMembers(i: Image, digests: Digest -> seq<byte>)
    ensures var rs := ReadBackAll(Rendered(i, digests).records);
            forall r :: r in rs <==> exists p :: p in i.state.records && ReadBack(RecordAt(i, p, digests)) == r
  {
    hide Ascending, RecordsAt, RecordAt, ReadBack, SetsAt;
    RenderedHolds(i, digests);
    var rs := Rendered(i, digests).records;
    forall p | p in i.state.records ensures ReadBack(RecordAt(i, p, digests)) in ReadBackAll(rs) {
      var j :| 0 <= j < |rs| && rs[j] == RecordAt(i, p, digests);
      assert ReadBackAll(rs)[j] == ReadBack(rs[j]);
    }
    forall r | r in ReadBackAll(rs) ensures exists p :: p in i.state.records && ReadBack(RecordAt(i, p, digests)) == r {
      var j :| 0 <= j < |rs| && ReadBackAll(rs)[j] == r;
      assert rs[j] in rs;
    }
  }

  lemma ClosedMeaning(i: Image, digests: Digest -> seq<byte>)
    ensures Closed(ReadBackState(Rendered(i, digests)))
            <==> forall p :: p in i.state.records ==> ReferencesHold(i.state, p)
  {
    hide Ascending, RecordsAt, RecordAt, ReadBack, NewId, ReadBackAll, SetsAt;
    var st := ReadBackState(Rendered(i, digests));
    BackMembers(i, digests);
    RenderedHolds(i, digests);
    forall p | p in i.state.records { BackFields(i, p, digests); }
    forall p | p in i.state.records
      ensures var u := i.state.records[p].definition.underlying;
              u.Some? ==> (UnderlyingHolds(i.state, u)
                <==> exists r :: r in st.records && r.definition.id == u.value.path)
    {
      var u := i.state.records[p].definition.underlying;
      if u.Some? && UnderlyingHolds(i.state, u) {
        var q :| q in i.state.records && NewId(i.state, q) == u.value.path;
        assert ReadBack(RecordAt(i, q, digests)) in st.records;
      }
    }
    forall id ensures SetHolds(i.state, id) <==> exists c :: c in st.constraintSets && c.id == id {
      if SetHolds(i.state, id) {
        var s :| s in i.state.sets && i.state.sets[s].id == id;
        assert i.state.sets[s] in st.constraintSets;
      }
    }
  }

  lemma StateReadsImage(i: Image, digests: Digest -> seq<byte>, limits: Limits)
    ensures StateReads(Rendered(i, digests), limits) <==> ImageReads(i, limits)
  {
    hide Rendered, PayloadReads, Closed, DistinctSets, DistinctPaths, ReadBackAll, ReadBackState, PolicyReads,
      SetsRead, FencesRead, RecordIsReadable, ReferencesHold, Apart;
    PayloadReadsImage(i, digests, limits);
    ApartMeaning(i, digests);
    ClosedMeaning(i, digests);
    assert ReadBackState(Rendered(i, digests)) ==
      Rendered(i, digests).(records := ReadBackAll(Rendered(i, digests).records))
      by { ReadBackStateIs(Rendered(i, digests)); }
  }

  lemma ReadBackStateIs(st: StoredState)
    ensures ReadBackState(st) == st.(records := ReadBackAll(st.records))
  {
  }

  lemma BackRecordAt(i: Image, p: string, digests: Digest -> seq<byte>)
    requires p in i.state.records && Apart(i.state)
    ensures NewId(i.state, p) in Back(i).state.records
    ensures RecordAt(Back(i), NewId(i.state, p), digests) == ReadBack(RecordAt(i, p, digests))
  {
    hide DerivedId, TidyRevocation, Tidied, NewId;
    assert NewId(i.state, p) in NewIds(i.state);
    assert OldId(i.state, NewId(i.state, p)) == p;
    assert DerivedId(i.state.records[p].definition) == NewId(i.state, p) by { NewIdIs(i.state, p); }
  }

  lemma NewIdIs(d: Durable, p: string)
    requires p in d.records
    ensures NewId(d, p) == DerivedId(d.records[p].definition)
  {
  }

  /**
   * Reading an image is decoding what was encoded for it, whatever the bytes of the digests are: both are refused
   * together, and what comes out holds the same records, sets and fences.
   */
  lemma ReadIsDecode(i: Image, limits: Limits, digests: Digest -> seq<byte>)
    requires DigestBytes(digests) && PlainState(Rendered(i, digests)) && Writable(i, limits)
    ensures EncodeState(Rendered(i, digests), limits).Some?
    ensures var decoded := DecodeState(EncodeState(Rendered(i, digests), limits).value, limits);
            && (decoded.Some? <==> ReadImage(i, limits).Some?)
            && (decoded.Some? ==> Holds(decoded.value, ReadImage(i, limits).value, digests))
  {
    hide Rendered, StateReads, EncodeState, DecodeState, PlainState, Writable, Holds, Back, Apart, PolicyReads,
      SetsRead, RecordsRead, FencesRead;
    WritableMeaning(i, limits, digests);
    StateDecodes(Rendered(i, digests), limits);
    StateReadsImage(i, digests, limits);
    if ImageReads(i, limits) { BackHolds(i, digests); }
  }

  lemma BackHolds(i: Image, digests: Digest -> seq<byte>)
    requires Apart(i.state)
    ensures Holds(ReadBackState(Rendered(i, digests)), Back(i), digests)
  {
    hide Apart, Rendered, Back, ReadBackState, ReadBackAll, RecordAt;
    RenderedHolds(i, digests);
    BackFrame(i);
    ReadBackStateIs(Rendered(i, digests));
    BackRecordsHeld(i, digests);
  }

  lemma BackFrame(i: Image)
    requires Apart(i.state)
    ensures Back(i).state == i.state.(records := Back(i).state.records)
  {
    hide Apart, BackRecords;
  }

  lemma BackRecordsHeld(i: Image, digests: Digest -> seq<byte>)
    requires Apart(i.state)
    ensures forall r :: r in ReadBackAll(Rendered(i, digests).records) <==>
                        exists id :: id in Back(i).state.records && RecordAt(Back(i), id, digests) == r
  {
    hide Apart, Rendered, ReadBackAll, ReadBack, RecordAt, NewId, BackRecord;
    BackMembers(i, digests);
    forall p | p in i.state.records { BackRecordAt(i, p, digests); }
    forall id | id in Back(i).state.records ensures exists p :: p in i.state.records && NewId(i.state, p) == id {
      assert id in NewIds(i.state);
    }
  }

  // ---- reading twice ---------------------------------------------------------------------------------------

  /** Neither ids nor identities change a second time. */
  lemma BackRecordTwice(r: DurableRecord)
    ensures BackRecord(BackRecord(r)) == BackRecord(r)
    ensures DerivedId(BackRecord(r).definition) == BackRecord(r).definition.id == DerivedId(r.definition)
  {
    hide DerivedId, IdentityText;
    DerivedIdIgnoresId(r.definition, DerivedId(r.definition));
    NothingIsNoIdentity();
  }

  lemma NothingIsNoIdentity()
    ensures forall n :: !IdentityText("", n)
  {
  }

  lemma ReadableTwice(r: DurableRecord, history: seq<HistoryEntry>, limits: Limits)
    requires RecordReads(StoredOf(r, history, BLANK), limits)
    ensures RecordReads(StoredOf(BackRecord(r), history, BLANK), limits)
  {
    hide DerivedId, EncodePath, IdentityText, EvidenceReads, HistoryReads;
    IdIsNotEncoded(r.definition, DerivedId(r.definition));
  }

  lemma BackIds(i: Image)
    requires Apart(i.state)
    ensures Back(i).state.records.Keys == NewIds(i.state) == NewIds(Back(i).state)
    ensures forall id :: id in NewIds(i.state) ==> NewId(Back(i).state, id) == id
    ensures Apart(Back(i).state)
  {
    hide DerivedId, BackRecord;
    var d, b := i.state, Back(i).state;
    forall id | id in NewIds(d) ensures NewId(b, id) == id {
      BackRecordTwice(d.records[OldId(d, id)]);
      assert NewId(d, OldId(d, id)) == id;
    }
    forall id ensures id in NewIds(d) <==> id in NewIds(b) {
      if id in NewIds(d) { assert NewId(b, id) == id; }
    }
  }

  lemma BackTwice(i: Image)
    requires Apart(i.state)
    ensures Apart(Back(i).state) && Back(Back(i)) == Back(i)
  {
    hide NewId, BackRecord, NewIds;
    BackIds(i);
    var b := Back(i);
    forall id | id in NewIds(i.state)
      ensures BackRecord(b.state.records[id]) == b.state.records[id] && OldId(b.state, id) == id
    {
      BackRecordTwice(i.state.records[OldId(i.state, id)]);
    }
    assert BackRecords(b.state) == b.state.records;
    assert BackHistories(b) == b.histories;
  }

  /** Starting again from an image that was read gives what it gave the first time. */
  lemma ReadTwice(i: Image, limits: Limits)
    requires ReadImage(i, limits).Some?
    ensures ReadImage(ReadImage(i, limits).value, limits) == ReadImage(i, limits)
  {
    hide PolicyReads, SetsRead, FencesRead, Back, Apart, RecordsRead;
    BackTwice(i);
    BackReads(i, limits);
    BackKeeps(i, limits);
  }

  lemma BackKeeps(i: Image, limits: Limits)
    requires Apart(i.state)
    ensures Back(i).state == i.state.(records := Back(i).state.records)
    ensures SetsRead(Back(i).state, limits) == SetsRead(i.state, limits)
    ensures FencesRead(Back(i).state, limits) == FencesRead(i.state, limits)
  {
    hide Apart, BackRecords, SetReads, BootReads;
  }

  lemma BackReads(i: Image, limits: Limits)
    requires RecordsRead(i, limits) && Apart(i.state)
    ensures RecordsRead(Back(i), limits)
  {
    hide RecordIsReadable, ReferencesHold, BackRecord, NewId;
    var b := Back(i);
    BackIds(i);
    FewerIds(i.state);
    forall id | id in b.state.records ensures RecordIsReadable(b, id, limits) && ReferencesHold(b.state, id) {
      BackReadsAt(i, OldId(i.state, id), limits);
    }
  }

  lemma BackReadsAt(i: Image, p: string, limits: Limits)
    requires Apart(i.state) && p in i.state.records && RecordIsReadable(i, p, limits) && ReferencesHold(i.state, p)
    ensures var id := NewId(i.state, p);
            id in Back(i).state.records && RecordIsReadable(Back(i), id, limits) && ReferencesHold(Back(i).state, id)
  {
    hide RecordReads, NewId, DerivedId, TidyRevocation, Tidied;
    BackIds(i);
    var d, b := i.state, Back(i);
    var id := NewId(d, p);
    assert id in NewIds(d) && OldId(d, id) == p;
    ReadableTwice(d.records[p], HistoryOf(i, p), limits);
    var u := d.records[p].definition.underlying;
    assert b.state.records[id].definition.underlying == u;
    if u.Some? {
      var q :| q in d.records && NewId(d, q) == u.value.path;
      assert u.value.path in NewIds(d) && NewId(b.state, u.value.path) == u.value.path;
    }
  }

  /** Renaming makes no records. */
  lemma FewerIds(d: Durable)
    ensures |NewIds(d)| <= |d.records|
  {
    hide NewId;
    ImageSizeOf(d, d.records.Keys);
    assert NewIds(d) == set p | p in d.records.Keys && p in d.records :: NewId(d, p);
  }

  lemma {:induction false} ImageSizeOf(d: Durable, ps: set<string>)
    requires ps <= d.records.Keys
    ensures |set p | p in ps && p in d.records :: NewId(d, p)| <= |ps|
    decreases |ps|
  {
    hide NewId;
    var ids := set p | p in ps && p in d.records :: NewId(d, p);
    if ps == {} {
      assert ids == {};
    } else {
      var q :| q in ps;
      ImageSizeOf(d, ps - {q});
      assert ids == (set p | p in ps - {q} && p in d.records :: NewId(d, p)) + {NewId(d, q)};
    }
  }
}
