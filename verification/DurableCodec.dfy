/** The durable image: header, payload and checksum, and the checks that close its references. */
module DurableCodec {
  import opened Base
  import opened Model
  import opened Bytes
  import opened PathCodec
  import opened ConstraintCodec
  import Sha256

  const FORMAT_VERSION: nat := 1
  const BOOT_LENGTH: nat := 64
  const PUBLISHER_LENGTH: nat := 64
  const ATTEMPT_LENGTH: nat := 96
  const DIGEST_BYTES: nat := 32
  const HEADER_BYTES: nat := 20

  datatype HistoryEntry = HistoryEntry(generation: u64, state: AuthorityState, outcome: Outcome, cause: string,
      epoch: u64)

  datatype StoredRecord = StoredRecord(
    definition: PathDefinition, authorityGeneration: u64, state: AuthorityState, outcome: Outcome,
    evidence: seq<EvidenceEntry>, authorityDigest: seq<byte>, revocation: Option<Revocation>,
    history: seq<HistoryEntry>, retired: bool, publisher: string, workerBoot: string)

  datatype StoredState = StoredState(
    epoch: u64, policy: PolicySet, constraintSets: seq<ConstraintSet>, records: seq<StoredRecord>, fenced: seq<string>)

  // ---- enumerations -----------------------------------------------------------------

  function StateCode(s: AuthorityState): nat {
    match s
    case UnknownState => 0 case Authorized => 1 case ConditionallyAuthorized => 2 case RevalidationRequired => 3
    case Rejected => 4 case Revoked => 5 case Stale => 6 case Retired => 7
  }

  function StateOf(n: nat): Option<AuthorityState> {
    match n
    case 0 => Some(UnknownState) case 1 => Some(Authorized) case 2 => Some(ConditionallyAuthorized)
    case 3 => Some(RevalidationRequired) case 4 => Some(Rejected) case 5 => Some(Revoked) case 6 => Some(Stale)
    case 7 => Some(Retired)
    case _ => None
  }

  function OutcomeCode(o: Outcome): nat {
    match o
    case AuthorizedOutcome => 1 case Idempotent => 2 case ConditionallyAuthorizedOutcome => 3
    case MalformedPath => 10 case ResourceLimit => 11 case StructurallyInvalid => 12 case StaleTopology => 13
    case ConstraintSetUnknown => 14 case PathRetired => 15 case PathUnknown => 16
    case PortAdminDisabled => 20 case PortRevalidationRequired => 21
    case LinkDown => 30 case LinkDegraded => 31 case LinkStateUnknown => 32
    case CapabilityMissing => 40 case CapabilityUnknown => 41
    case FailureDomainViolation => 50 case FailureDomainCoverageUnknown => 51
    case StaleEpoch => 60 case StaleAuthority => 61 case RevalidationRequiredOutcome => 62
    case PolicyRejected => 70 case RevokedOutcome => 80 case EvaluationAttemptConflict => 90
  }

  function OutcomeOf(n: nat): Option<Outcome> {
    match n
    case 1 => Some(AuthorizedOutcome) case 2 => Some(Idempotent) case 3 => Some(ConditionallyAuthorizedOutcome)
    case 10 => Some(MalformedPath) case 11 => Some(ResourceLimit) case 12 => Some(StructurallyInvalid)
    case 13 => Some(StaleTopology) case 14 => Some(ConstraintSetUnknown) case 15 => Some(PathRetired)
    case 16 => Some(PathUnknown) case 20 => Some(PortAdminDisabled) case 21 => Some(PortRevalidationRequired)
    case 30 => Some(LinkDown) case 31 => Some(LinkDegraded) case 32 => Some(LinkStateUnknown)
    case 40 => Some(CapabilityMissing) case 41 => Some(CapabilityUnknown)
    case 50 => Some(FailureDomainViolation) case 51 => Some(FailureDomainCoverageUnknown)
    case 60 => Some(StaleEpoch) case 61 => Some(StaleAuthority) case 62 => Some(RevalidationRequiredOutcome)
    case 70 => Some(PolicyRejected) case 80 => Some(RevokedOutcome) case 90 => Some(EvaluationAttemptConflict)
    case _ => None
  }

  function PutState(s: AuthorityState, rest: seq<byte>): seq<byte> { PutUint(StateCode(s), 1, rest) }

  function ReadState(s: seq<byte>): Parse<AuthorityState> {
    var (n, rest) :- ReadUint(s, 1);
    var st :- StateOf(n);
    Some((st, rest))
  }

  function PutOutcome(o: Outcome, rest: seq<byte>): seq<byte> { PutUint(OutcomeCode(o), 2, rest) }

  function ReadOutcome(s: seq<byte>): Parse<Outcome> {
    var (n, rest) :- ReadUint(s, 2);
    var o :- OutcomeOf(n);
    Some((o, rest))
  }

  lemma ReadPutState(st: AuthorityState, rest: seq<byte>)
    ensures ReadState(PutState(st, rest)) == Some((st, rest))
  {
    hide PutUint, ReadUint;
    Widths();
    ReadPutUint(StateCode(st), 1, rest);
  }

  lemma ReadPutOutcome(o: Outcome, rest: seq<byte>)
    ensures ReadOutcome(PutOutcome(o, rest)) == Some((o, rest))
  {
    hide PutUint, ReadUint;
    Widths();
    ReadPutUint(OutcomeCode(o), 2, rest);
  }

  // ---- fields ------------------------------------------------------------------------

  /** An embedded encoding, length-prefixed like a text. */
  function PutBlob(b: seq<byte>, rest: seq<byte>): seq<byte> { PutUint(|b| % (U32_MAX + 1), 4, b + rest) }

  function ReadBlob(s: seq<byte>, bound: u32): Parse<seq<byte>> {
    var (n, rest) :- ReadUint(s, 4);
    if n > bound || |rest| < n then None else Some((rest[..n], rest[n..]))
  }

  lemma ReadPutBlob(b: seq<byte>, bound: u32, rest: seq<byte>)
    requires |b| <= U32_MAX
    ensures ReadBlob(PutBlob(b, rest), bound) == Placed(When(|b| <= bound, b), rest)
  {
    hide PutUint, ReadUint;
    Widths();
    ReadPutUint(|b|, 4, b + rest);
  }

  /** An identity that decodes to "unset" when it is malformed. */
  function ReadOptionalIdentity(s: seq<byte>, bound: u32, maxLength: nat): Parse<string> {
    var (t, rest) :- ReadText(s, bound);
    Some((if IdentityText(t, maxLength) then t else "", rest))
  }

  function Tidied(t: string, maxLength: nat): string { if IdentityText(t, maxLength) then t else "" }

  lemma ReadPutOptionalIdentity(t: string, bound: u32, maxLength: nat, rest: seq<byte>)
    requires PlainText(t)
    ensures ReadOptionalIdentity(PutText(t, rest), bound, maxLength) ==
            Placed(When(|t| <= bound, Tidied(t, maxLength)), rest)
  {
    hide PutText, ReadText, IdentityText;
    ReadPutText(t, bound, rest);
  }

  function PutRevocation(r: Option<Revocation>, rest: seq<byte>): seq<byte> {
    match r
    case None => PutBool(false, rest)
    case Some(v) =>
      PutBool(true, PutUint(v.reason, 1, PutText(v.explanation, PutGeneration(v.generation, PutGeneration(v.epoch,
        PutText(v.authority, PutText(v.attempt, PutBool(v.durable, rest))))))))
  }

  function ReadRevocation(s: seq<byte>, limits: Limits): Parse<Option<Revocation>> {
    var (present, s1) :- ReadBool(s);
    if !present then Some((None, s1))
    else
      var (reason, s2) :- ReadUint(s1, 1);
      if reason < 1 || reason > 9 then None
      else
        var (explanation, s3) :- ReadText(s2, limits.maxMetadataBytes);
        var (generation, s4) :- ReadGeneration(s3);
        var (epoch, s5) :- ReadGeneration(s4);
        var (authority, s6) :- ReadText(s5, limits.maxMetadataBytes);
        var (attempt, s7) :- ReadOptionalIdentity(s6, limits.maxIdLength, ATTEMPT_LENGTH);
        var (durable, s8) :- ReadBool(s7);
        Some((Some(Revocation(reason, explanation, generation, epoch, authority, attempt, durable)), s8))
  }

  predicate PlainRevocation(r: Option<Revocation>) {
    r.Some? ==>
      r.value.reason < 256 && PlainText(r.value.explanation) && PlainText(r.value.authority)
        && PlainText(r.value.attempt)
  }

  predicate RevocationReads(r: Option<Revocation>, limits: Limits) {
    r.Some? ==>
      && 1 <= r.value.reason <= 9 && r.value.generation != 0 && r.value.epoch != 0
      && |r.value.explanation| <= limits.maxMetadataBytes && |r.value.authority| <= limits.maxMetadataBytes
      && |r.value.attempt| <= limits.maxIdLength
  }

  function TidyRevocation(r: Option<Revocation>): Option<Revocation> {
    if r.None? then None else Some(r.value.(attempt := Tidied(r.value.attempt, ATTEMPT_LENGTH)))
  }

  lemma ReadPutRevocation(r: Option<Revocation>, limits: Limits, rest: seq<byte>)
    requires PlainRevocation(r)
    ensures ReadRevocation(PutRevocation(r, rest), limits) ==
            Placed(When(RevocationReads(r, limits), TidyRevocation(r)), rest)
  {
    hide PutUint, ReadUint, PutText, ReadText, PutBool, ReadBool, PutGeneration, ReadGeneration, ReadOptionalIdentity,
      PlainText, Tidied;
    match r
    case None => ReadPutBool(false, rest);
    case Some(v) =>
      var s7 := PutBool(v.durable, rest);
      var s6 := PutText(v.attempt, s7);
      var s5 := PutText(v.authority, s6);
      var s4 := PutGeneration(v.epoch, s5);
      var s3 := PutGeneration(v.generation, s4);
      var s2 := PutText(v.explanation, s3);
      var s1 := PutUint(v.reason, 1, s2);
      ReadPutBool(true, s1);
      Widths();
      ReadPutUint(v.reason, 1, s2);
      ReadPutText(v.explanation, limits.maxMetadataBytes, s3);
      ReadPutGeneration(v.generation, s4);
      ReadPutGeneration(v.epoch, s5);
      ReadPutText(v.authority, limits.maxMetadataBytes, s6);
      ReadPutOptionalIdentity(v.attempt, limits.maxIdLength, ATTEMPT_LENGTH, s7);
      ReadPutBool(v.durable, rest);
  }

  function PutHistory(h: HistoryEntry, rest: seq<byte>): seq<byte> {
    PutGeneration(h.generation,
      PutState(h.state, PutOutcome(h.outcome, PutText(h.cause, PutGeneration(h.epoch, rest)))))
  }

  function ReadHistory(s: seq<byte>, limits: Limits): Parse<HistoryEntry> {
    var (generation, s1) :- ReadGeneration(s);
    var (state, s2) :- ReadState(s1);
    var (outcome, s3) :- ReadOutcome(s2);
    var (cause, s4) :- ReadText(s3, limits.maxMetadataBytes);
    var (epoch, s5) :- ReadGeneration(s4);
    Some((HistoryEntry(generation, state, outcome, cause, epoch), s5))
  }

  function HistoryReader(limits: Limits): seq<byte> -> Parse<HistoryEntry> { s => ReadHistory(s, limits) }

  predicate WellFormedHistory(h: HistoryEntry, limits: Limits) {
    h.generation != 0 && h.epoch != 0 && |h.cause| <= limits.maxMetadataBytes
  }

  lemma ReadPutHistory(h: HistoryEntry, limits: Limits, rest: seq<byte>)
    requires PlainText(h.cause)
    ensures ReadHistory(PutHistory(h, rest), limits) == Placed(When(WellFormedHistory(h, limits), h), rest)
  {
    hide PutText, ReadText, PutGeneration, ReadGeneration, PutState, ReadState, PutOutcome, ReadOutcome, PlainText;
    var s4 := PutGeneration(h.epoch, rest);
    var s3 := PutText(h.cause, s4);
    var s2 := PutOutcome(h.outcome, s3);
    var s1 := PutState(h.state, s2);
    ReadPutGeneration(h.generation, s1);
    ReadPutState(h.state, s2);
    ReadPutOutcome(h.outcome, s3);
    ReadPutText(h.cause, limits.maxMetadataBytes, s4);
    ReadPutGeneration(h.epoch, rest);
  }

  // ---- records --------------------------------------------------------------------------

  function PutFixed(b: seq<byte>, rest: seq<byte>): seq<byte> { b + rest }

  function ReadFixed(s: seq<byte>, n: nat): Parse<seq<byte>> { if |s| < n then None else Some((s[..n], s[n..])) }

  /** write_record. */
  function PutRecord(r: StoredRecord, rest: seq<byte>): seq<byte> {
    PutBlob(EncodePath(r.definition), PutGeneration(r.authorityGeneration, PutState(r.state, PutOutcome(r.outcome,
      PutBlob(EncodeEvidence(r.evidence), PutFixed(r.authorityDigest, PutRevocation(r.revocation,
      PutCounted(r.history, PutHistory, PutBool(r.retired, PutText(r.publisher, PutText(r.workerBoot, rest)))))))))))
  }

  /** read_record. */
  function ReadRecord(s: seq<byte>, limits: Limits): Parse<StoredRecord> {
    var (pathBytes, s1) :- ReadBlob(s, limits.maxFrameBytes);
    var definition :- DecodePath(pathBytes, limits);
    var (generation, s2) :- ReadGeneration(s1);
    var (state, s3) :- ReadState(s2);
    var (outcome, s4) :- ReadOutcome(s3);
    var (evidenceBytes, s5) :- ReadBlob(s4, limits.maxFrameBytes);
    var evidence :- DecodeEvidence(evidenceBytes, limits);
    var (digest, s6) :- ReadFixed(s5, DIGEST_BYTES);
    var (revocation, s7) :- ReadRevocation(s6, limits);
    var (history, s8) :- ReadCounted(s7, limits.maxHistory, HistoryReader(limits));
    var (retired, s9) :- ReadBool(s8);
    var (publisher, s10) :- ReadOptionalIdentity(s9, limits.maxIdLength, PUBLISHER_LENGTH);
    var (boot, s11) :- ReadOptionalIdentity(s10, limits.maxIdLength, BOOT_LENGTH);
    Some((StoredRecord(definition, generation, state, outcome, evidence, digest, revocation, history, retired,
      publisher, boot), s11))
  }

  /** Every text and list of the record fits its length prefix. */
  predicate PlainRecord(r: StoredRecord) {
    && PlainPath(r.definition) && |EncodePath(r.definition)| <= U32_MAX
    && PlainEvidence(r.evidence) && |EncodeEvidence(r.evidence)| <= U32_MAX
    && |r.authorityDigest| == DIGEST_BYTES && PlainRevocation(r.revocation)
    && |r.history| <= U32_MAX && (forall h :: h in r.history ==> PlainText(h.cause))
    && PlainText(r.publisher) && PlainText(r.workerBoot)
  }

  predicate PathReads(p: PathDefinition, limits: Limits) {
    WellFormedPath(p, limits) && |EncodePath(p)| <= limits.maxFrameBytes
  }

  predicate EvidenceReads(es: seq<EvidenceEntry>, limits: Limits) {
    WellFormedEvidence(es, limits) && |EncodeEvidence(es)| <= limits.maxFrameBytes
  }

  predicate HistoryReads(hs: seq<HistoryEntry>, limits: Limits) {
    |hs| <= limits.maxHistory && forall h :: h in hs ==> WellFormedHistory(h, limits)
  }

  /** Everything read_record asks of a record. */
  predicate RecordReads(r: StoredRecord, limits: Limits) {
    && PathReads(r.definition, limits) && r.authorityGeneration != 0 && EvidenceReads(r.evidence, limits)
    && RevocationReads(r.revocation, limits) && HistoryReads(r.history, limits)
    && |r.publisher| <= limits.maxIdLength && |r.workerBoot| <= limits.maxIdLength
  }

  /** The id is derived from the content; an optional identity that is none becomes unset. */
  function ReadBack(r: StoredRecord): StoredRecord {
    r.(definition := r.definition.(id := DerivedId(r.definition)), revocation := TidyRevocation(r.revocation),
       publisher := Tidied(r.publisher, PUBLISHER_LENGTH), workerBoot := Tidied(r.workerBoot, BOOT_LENGTH))
  }

  lemma ReadPutRecord(r: StoredRecord, limits: Limits, rest: seq<byte>)
    requires PlainRecord(r)
    ensures ReadRecord(PutRecord(r, rest), limits) == Placed(When(RecordReads(r, limits), ReadBack(r)), rest)
  {
    hide PutBlob, ReadBlob, PutText, ReadText, PutBool, ReadBool, PutGeneration, ReadGeneration, PutState, ReadState,
      PutOutcome, ReadOutcome, PutCounted, ReadCounted, PutRevocation, ReadRevocation, ReadOptionalIdentity,
      EncodePath, DecodePath, DerivedId, EncodeEvidence, DecodeEvidence, WellFormedPath, WellFormedEvidence,
      RevocationReads, TidyRevocation, PlainRevocation, WellFormedHistory, HistoryReader, PlainPath, PlainEvidence,
      PlainText, Tidied;
    var s10 := PutText(r.workerBoot, rest);
    var s9 := PutText(r.publisher, s10);
    var s8 := PutBool(r.retired, s9);
    var s7 := PutCounted(r.history, PutHistory, s8);
    var s6 := PutRevocation(r.revocation, s7);
    var s5 := PutFixed(r.authorityDigest, s6);
    var s4 := PutBlob(EncodeEvidence(r.evidence), s5);
    var s3 := PutOutcome(r.outcome, s4);
    var s2 := PutState(r.state, s3);
    var s1 := PutGeneration(r.authorityGeneration, s2);
    ReadPutBlob(EncodePath(r.definition), limits.maxFrameBytes, s1);
    DecodeInvertsEncode(r.definition, limits);
    ReadPutGeneration(r.authorityGeneration, s2);
    ReadPutState(r.state, s3);
    ReadPutOutcome(r.outcome, s4);
    ReadPutBlob(EncodeEvidence(r.evidence), limits.maxFrameBytes, s5);
    EvidenceDecodes(r.evidence, limits);
    assert s5[..DIGEST_BYTES] == r.authorityDigest && s5[DIGEST_BYTES..] == s6;
    ReadPutRevocation(r.revocation, limits, s7);
    ReadPutHistories(r.history, limits, s8);
    ReadPutBool(r.retired, s9);
    ReadPutOptionalIdentity(r.publisher, limits.maxIdLength, PUBLISHER_LENGTH, s10);
    ReadPutOptionalIdentity(r.workerBoot, limits.maxIdLength, BOOT_LENGTH, rest);
  }

  lemma ReadPutHistories(hs: seq<HistoryEntry>, limits: Limits, rest: seq<byte>)
    requires |hs| <= U32_MAX && forall h :: h in hs ==> PlainText(h.cause)
    ensures ReadCounted(PutCounted(hs, PutHistory, rest), limits.maxHistory, HistoryReader(limits)) ==
            Placed(When(HistoryReads(hs, limits), hs), rest)
  {
    hide PutHistory, ReadHistory, WellFormedHistory, PlainText;
    forall h, r | h in hs
      ensures HistoryReader(limits)(PutHistory(h, r)) == Placed(When(WellFormedHistory(h, limits), h), r)
    {
      ReadPutHistory(h, limits, r);
    }
    ReadPutCounted(hs, limits.maxHistory, PutHistory, HistoryReader(limits),
      (h: HistoryEntry) => WellFormedHistory(h, limits), rest);
  }

  // ---- the payload --------------------------------------------------------------------------

  function PutSet(c: ConstraintSet, rest: seq<byte>): seq<byte> { PutBlob(EncodeConstraintSet(c), rest) }

  function ReadSet(s: seq<byte>, limits: Limits): Parse<ConstraintSet> {
    var (b, rest) :- ReadBlob(s, limits.maxFrameBytes);
    var c :- DecodeConstraintSet(b, limits);
    Some((c, rest))
  }

  function SetReader(limits: Limits): seq<byte> -> Parse<ConstraintSet> { s => ReadSet(s, limits) }

  function RecordReader(limits: Limits): seq<byte> -> Parse<StoredRecord> { s => ReadRecord(s, limits) }

  function PutBoot(b: string, rest: seq<byte>): seq<byte> { PutText(b, rest) }

  function BootReader(limits: Limits): seq<byte> -> Parse<string> {
    s => ReadIdentity(s, limits.maxIdLength, BOOT_LENGTH)
  }

  function PutPayloadOf(st: StoredState, rest: seq<byte>): seq<byte> {
    PutUint(FORMAT_VERSION, 4, PutGeneration(st.epoch, PutBlob(EncodePolicy(st.policy),
      PutCounted(st.constraintSets, PutSet, PutCounted(st.records, PutRecord, PutCounted(st.fenced, PutBoot, rest))))))
  }

  function ReadPayloadOf(s: seq<byte>, limits: Limits): Parse<StoredState> {
    var (version, s1) :- ReadUint(s, 4);
    if version != FORMAT_VERSION then None
    else
      var (epoch, s2) :- ReadGeneration(s1);
      var (policyBytes, s3) :- ReadBlob(s2, limits.maxFrameBytes);
      var policy :- DecodePolicy(policyBytes, limits);
      var (sets, s4) :- ReadCounted(s3, limits.maxConstraints, SetReader(limits));
      var (records, s5) :- ReadCounted(s4, limits.maxStoreRecords, RecordReader(limits));
      var (fenced, s6) :- ReadCounted(s5, limits.maxPublishers, BootReader(limits));
      Some((StoredState(epoch, policy, sets, records, fenced), s6))
  }

  predicate DistinctSets(sets: seq<ConstraintSet>) { forall i, j :: 0 <= i < j < |sets| ==> sets[i].id != sets[j].id }

  predicate DistinctPaths(rs: seq<StoredRecord>) {
    forall i, j :: 0 <= i < j < |rs| ==> rs[i].definition.id != rs[j].definition.id
  }

  /** No record may point at a path or a constraint set that the image does not hold. */
  predicate Closed(st: StoredState) {
    forall r :: r in st.records ==>
      && (r.definition.underlying.Some? ==>
           exists u :: u in st.records && u.definition.id == r.definition.underlying.value.path)
      && (exists c :: c in st.constraintSets && c.id == r.definition.constraintSet)
  }

  predicate PolicyReads(p: PolicySet, limits: Limits) {
    WellFormedPolicy(p, limits) && |EncodePolicy(p)| <= limits.maxFrameBytes
  }

  predicate SetReads(c: ConstraintSet, limits: Limits) {
    WellFormedSet(c, limits) && |EncodeConstraintSet(c)| <= limits.maxFrameBytes
  }

  predicate BootReads(b: string, limits: Limits) { IdentityText(b, BOOT_LENGTH) && |b| <= limits.maxIdLength }

  /** Everything that the payload's fields have to satisfy one by one. */
  predicate PayloadReads(st: StoredState, limits: Limits) {
    && st.epoch != 0 && PolicyReads(st.policy, limits)
    && |st.constraintSets| <= limits.maxConstraints && (forall c :: c in st.constraintSets ==> SetReads(c, limits))
    && |st.records| <= limits.maxStoreRecords && (forall r :: r in st.records ==> RecordReads(r, limits))
    && |st.fenced| <= limits.maxPublishers && (forall b :: b in st.fenced ==> BootReads(b, limits))
  }

  function ReadBackAll(rs: seq<StoredRecord>): seq<StoredRecord> {
    seq(|rs|, i requires 0 <= i < |rs| => ReadBack(rs[i]))
  }

  function ReadBackState(st: StoredState): StoredState { st.(records := ReadBackAll(st.records)) }

  /** And what they have to satisfy together. */
  predicate StateReads(st: StoredState, limits: Limits) {
    && PayloadReads(st, limits) && DistinctSets(st.constraintSets)
    && DistinctPaths(ReadBackAll(st.records)) && Closed(ReadBackState(st))
  }

  /** Every text and list of the state fits its length prefix. */
  predicate PlainState(st: StoredState) {
    && PlainPolicy(st.policy) && |EncodePolicy(st.policy)| <= U32_MAX
    && |st.constraintSets| <= U32_MAX
    && (forall c :: c in st.constraintSets ==> PlainSet(c) && |EncodeConstraintSet(c)| <= U32_MAX)
    && |st.records| <= U32_MAX && (forall r :: r in st.records ==> PlainRecord(r))
    && |st.fenced| <= U32_MAX && (forall b :: b in st.fenced ==> PlainText(b))
  }

  lemma ReadPutSets(cs: seq<ConstraintSet>, limits: Limits, rest: seq<byte>)
    requires |cs| <= U32_MAX && forall c :: c in cs ==> PlainSet(c) && |EncodeConstraintSet(c)| <= U32_MAX
    ensures ReadCounted(PutCounted(cs, PutSet, rest), limits.maxConstraints, SetReader(limits)) ==
            Placed(When(|cs| <= limits.maxConstraints && forall c :: c in cs ==> SetReads(c, limits), cs), rest)
  {
    hide PutBlob, ReadBlob, EncodeConstraintSet, DecodeConstraintSet, WellFormedSet, PlainSet;
    forall c, r | c in cs ensures SetReader(limits)(PutSet(c, r)) == Placed(When(SetReads(c, limits), c), r) {
      ReadPutBlob(EncodeConstraintSet(c), limits.maxFrameBytes, r);
      SetDecodes(c, limits);
    }
    ReadPutCounted(cs, limits.maxConstraints, PutSet, SetReader(limits), (c: ConstraintSet) => SetReads(c, limits),
      rest);
  }

  lemma ReadPutRecords(rs: seq<StoredRecord>, limits: Limits, rest: seq<byte>)
    requires |rs| <= U32_MAX && forall r :: r in rs ==> PlainRecord(r)
    ensures ReadCounted(PutCounted(rs, PutRecord, rest), limits.maxStoreRecords, RecordReader(limits)) ==
            Placed(When(|rs| <= limits.maxStoreRecords && forall r :: r in rs ==> RecordReads(r, limits),
                ReadBackAll(rs)), rest)
  {
    hide PutRecord, ReadRecord, PlainRecord, RecordReads, ReadBack, PutCounted, ReadCounted, Collect;
    var out := (x: StoredRecord) => When(RecordReads(x, limits), ReadBack(x));
    forall x, r | x in rs ensures RecordReader(limits)(PutRecord(x, r)) == Placed(out(x), r) {
      ReadPutRecord(x, limits, r);
    }
    ReadPutCollected(rs, limits.maxStoreRecords, PutRecord, RecordReader(limits), out, rest);
    CollectMeaning(rs, out);
    if Collect(rs, out).Some? { assert Collect(rs, out).value == ReadBackAll(rs); }
  }

  lemma ReadPutBoots(bs: seq<string>, limits: Limits, rest: seq<byte>)
    requires |bs| <= U32_MAX && forall b :: b in bs ==> PlainText(b)
    ensures ReadCounted(PutCounted(bs, PutBoot, rest), limits.maxPublishers, BootReader(limits)) ==
            Placed(When(|bs| <= limits.maxPublishers && forall b :: b in bs ==> BootReads(b, limits), bs), rest)
  {
    hide PutText, ReadIdentity, IdentityText, PlainText;
    forall b, r | b in bs ensures BootReader(limits)(PutBoot(b, r)) == Placed(When(BootReads(b, limits), b), r) {
      ReadPutIdentity(b, limits.maxIdLength, BOOT_LENGTH, r);
    }
    ReadPutCounted(bs, limits.maxPublishers, PutBoot, BootReader(limits), (b: string) => BootReads(b, limits), rest);
  }

  lemma ReadPutPayloadOf(st: StoredState, limits: Limits, rest: seq<byte>)
    requires PlainState(st)
    ensures ReadPayloadOf(PutPayloadOf(st, rest), limits) ==
            Placed(When(PayloadReads(st, limits), ReadBackState(st)), rest)
  {
    hide PutUint, ReadUint, PutGeneration, ReadGeneration, PutBlob, ReadBlob, PutCounted, ReadCounted, EncodePolicy,
      DecodePolicy, WellFormedPolicy, EncodeConstraintSet, SetReader, RecordReader, BootReader, SetReads, RecordReads,
      BootReads, ReadBackAll, PlainPolicy, PlainSet, PlainRecord, PlainText;
    var s5 := PutCounted(st.fenced, PutBoot, rest);
    var s4 := PutCounted(st.records, PutRecord, s5);
    var s3 := PutCounted(st.constraintSets, PutSet, s4);
    var s2 := PutBlob(EncodePolicy(st.policy), s3);
    var s1 := PutGeneration(st.epoch, s2);
    Widths();
    ReadPutUint(FORMAT_VERSION, 4, s1);
    ReadPutGeneration(st.epoch, s2);
    ReadPutBlob(EncodePolicy(st.policy), limits.maxFrameBytes, s3);
    PolicyRoundTrip(st.policy, limits);
    ReadPutSets(st.constraintSets, limits, s4);
    ReadPutRecords(st.records, limits, s5);
    ReadPutBoots(st.fenced, limits, rest);
  }

  // ---- the image ------------------------------------------------------------------------------

  function Magic(): seq<byte> { ToBytes("PATHAUTH") }

  function Header(payload: seq<byte>): seq<byte> {
    PutFixed(Magic(), PutUint(FORMAT_VERSION, 4, PutUint(|payload|, 8, [])))
  }

  function Body(st: StoredState): seq<byte> {
    var payload := PutPayloadOf(st, []);
    Header(payload) + payload
  }

  /** encode_durable_state: the checksum covers everything before it. */
  function EncodeState(st: StoredState, limits: Limits): Option<seq<byte>> {
    var image := Body(st) + Sha256.Sha256Of(Body(st));
    if st.epoch == 0 || |st.records| > limits.maxStoreRecords || |image| > limits.maxStoreBytes then None
    else Some(image)
  }

  /** decode_durable_state: size, header, checksum, payload, then duplicates and references. */
  function DecodeState(image: seq<byte>, limits: Limits): Option<StoredState> {
    if |image| < HEADER_BYTES + DIGEST_BYTES || |image| > limits.maxStoreBytes || image[..8] != Magic() then None
    else
      var (version, s1) :- ReadUint(image[8..HEADER_BYTES], 4);
      var (length, _) :- ReadUint(s1, 8);
      var body := image[..|image| - DIGEST_BYTES];
      if version != FORMAT_VERSION || HEADER_BYTES + length + DIGEST_BYTES != |image| then None
      else if Sha256.Sha256Of(body) != image[|image| - DIGEST_BYTES..] then None
      else
        var (st, rest) :- ReadPayloadOf(body[HEADER_BYTES..], limits);
        if rest == [] && DistinctSets(st.constraintSets) && DistinctPaths(st.records) && Closed(st) then Some(st)
        else None
  }

  /** Where the parts of an image lie. */
  lemma ImageParts(header: seq<byte>, payload: seq<byte>, sum: seq<byte>, image: seq<byte>)
    requires |header| == HEADER_BYTES && |sum| == DIGEST_BYTES && image == header + payload + sum
    ensures image[..|image| - DIGEST_BYTES] == header + payload && image[|image| - DIGEST_BYTES..] == sum
    ensures image[..8] == header[..8] && image[8..HEADER_BYTES] == header[8..]
    ensures (header + payload)[HEADER_BYTES..] == payload
  {
  }

  /**
   * The decoder accepts a stored state exactly when every field is within its bounds, no set and no derived path id
   * occurs twice, and every reference is to something in the image. It gives the state back with each path under
   * the id that its content determines.
   */
  lemma StateDecodes(st: StoredState, limits: Limits)
    requires PlainState(st) && EncodeState(st, limits).Some?
    ensures DecodeState(EncodeState(st, limits).value, limits) == When(StateReads(st, limits), ReadBackState(st))
  {
    hide PutUint, ReadUint, PutPayloadOf, ReadPayloadOf, PayloadReads, PlainState, ReadBackAll, Closed, DistinctSets,
      DistinctPaths, Header, Magic, Sha256.Sha256Of;
    var payload := PutPayloadOf(st, []);
    var image := EncodeState(st, limits).value;
    HeaderParses(payload);
    ImageParts(Header(payload), payload, Sha256.Sha256Of(Body(st)), image);
    ReadPutPayloadOf(st, limits, []);
  }

  lemma HeaderParses(payload: seq<byte>)
    requires |payload| <= U64_MAX
    ensures |Header(payload)| == HEADER_BYTES && Header(payload)[..8] == Magic()
    ensures ReadUint(Header(payload)[8..], 4) == Some((FORMAT_VERSION, PutUint(|payload|, 8, [])))
    ensures ReadUint(PutUint(|payload|, 8, []), 8) == Some((|payload|, []))
  {
    hide ReadUint, LittleEndian;
    Widths();
    ReadPutUint(FORMAT_VERSION, 4, PutUint(|payload|, 8, []));
    ReadPutUint(|payload|, 8, []);
    assert Header(payload)[8..] == PutUint(FORMAT_VERSION, 4, PutUint(|payload|, 8, []));
  }
}
