/** export_state and import_state: what survives a restart, and that no live authority does. */
module Recovery {
  import opened Base
  import opened Model
  import opened Evidence
  import opened RuntimeState
  import opened RuntimeRuns
  import opened RuntimeIndexes
  import PathShape
  import Requirements

  datatype DurableRecord = DurableRecord(
    definition: PathDefinition, generation: u64, state: AuthorityState, outcome: Outcome,
    evidence: seq<EvidenceEntry>, authorityDigest: Digest, revocation: Option<Revocation>, retired: bool,
    publisher: string, workerBoot: string)

  datatype Durable = Durable(
    epoch: u64, policy: PolicySet, sets: map<string, ConstraintSet>, records: map<string, DurableRecord>,
    fenced: set<string>)

  function ExportRecord(r: Record): DurableRecord {
    DurableRecord(r.definition, r.generation, r.state, r.outcome, r.evidence, r.authorityDigest, r.revocation,
      r.retired, r.publisher, r.workerBoot)
  }

  /** export_state; the fenced boots are the coordinator's to fill in. */
  function Export(rt: Runtime, epoch: u64, policy: PolicySet): Durable {
    Durable(epoch, policy, rt.sets, map p | p in rt.records :: ExportRecord(rt.records[p]), {})
  }

  /** The states whose authority was, or might have been, live. */
  predicate HadLiveAuthority(s: AuthorityState) {
    s.Authorized? || s.ConditionallyAuthorized? || s.RevalidationRequired? || s.Stale? || s.UnknownState?
  }

  predicate ImportableSet(s: ConstraintSet, limits: Limits) {
    && s.id != "" && s.generation != 0
    && forall c :: c in s.capabilities ==> Requirements.ValidRequirement(c.expression, limits)
  }

  /** EvidenceVector::valid. */
  predicate ValidEvidence(evidence: seq<EvidenceEntry>) {
    Canonical(evidence) && Find(evidence, (Epoch, SELF)).Some? && Find(evidence, (Policy, SELF)).Some?
  }

  /** A live record can take the generation that its recovery needs. */
  predicate CanAdvance(r: DurableRecord) { HadLiveAuthority(r.state) ==> r.generation < U64_MAX }

  predicate ReadableRecord(d: Durable, p: string, limits: Limits)
    requires p in d.records
  {
    var r := d.records[p];
    && r.definition.id == p && r.generation != 0
    && PathShape.Shape(r.definition, limits, false) == PathShape.Valid
    && ValidEvidence(r.evidence)
    && (r.definition.underlying.Some? ==> r.definition.underlying.value.path in d.records)
  }

  /** The checks that come before anything is replaced. */
  predicate Readable(d: Durable, limits: Limits) {
    && d.epoch != 0 && |d.records| <= limits.maxStoreRecords
    && (forall s :: s in d.sets ==> d.sets[s].id == s && ImportableSet(d.sets[s], limits))
    && (forall p :: p in d.records ==> ReadableRecord(d, p, limits))
  }

  predicate ImportableRecord(d: Durable, p: string, limits: Limits)
    requires p in d.records
  {
    ReadableRecord(d, p, limits) && CanAdvance(d.records[p])
  }

  predicate Importable(d: Durable, limits: Limits) {
    && d.epoch != 0 && |d.records| <= limits.maxStoreRecords
    && (forall s :: s in d.sets ==> d.sets[s].id == s && ImportableSet(d.sets[s], limits))
    && (forall p :: p in d.records ==> ImportableRecord(d, p, limits))
  }

  lemma ImportableMeaning(d: Durable, limits: Limits)
    ensures Importable(d, limits) <==> Readable(d, limits) && forall p :: p in d.records ==> CanAdvance(d.records[p])
  {
    hide ReadableRecord, ImportableSet, CanAdvance;
  }

  /** The digest is the stored one, the violations are gone and the identity counts as bound. */
  function Recover(r: DurableRecord, sets: map<string, ConstraintSet>, policy: PolicySet, limits: Limits): Record
    requires CanAdvance(r)
  {
    var live := HadLiveAuthority(r.state);
    Record(r.definition, if live then r.generation + 1 else r.generation,
      if live then RevalidationRequired else r.state, if live then RevalidationRequiredOutcome else r.outcome,
      r.evidence, PathDigestOf(r.definition),
      if r.definition.constraintSet in sets then ConstraintDigestOf(sets[r.definition.constraintSet]) else NoDigest,
      r.authorityDigest, NoDigest, None, [], r.revocation, r.retired, true, r.publisher, r.workerBoot,
      DependenciesOf(r.definition, sets, policy, limits))
  }

  /** Every key of every record, with the paths that depend on it. */
  function IndexesOf(records: map<string, Record>): Indexes {
    map k | k in (set p, k | p in records && k in IndexKeys(records[p].dependencies) :: k) ::
      Dependents(records, Some(k))
  }

  function Recovered(d: Durable, policy: PolicySet, limits: Limits): map<string, Record>
    requires Importable(d, limits)
  {
    map p | p in d.records :: Recover(d.records[p], d.sets, policy, limits)
  }

  /** The order lists the image's records. */
  ghost predicate Lists(order: seq<string>, d: Durable) {
    Distinct(order) && forall p :: p in order <==> p in d.records
  }

  /** How many records are loaded before one that cannot advance. */
  function Loaded(d: Durable, order: seq<string>): (n: nat)
    requires forall p :: p in order ==> p in d.records
    ensures n <= |order| && (forall k :: 0 <= k < n ==> CanAdvance(d.records[order[k]]))
    ensures n < |order| ==> !CanAdvance(d.records[order[n]])
  {
    if order == [] || !CanAdvance(d.records[order[0]]) then 0 else 1 + Loaded(d, order[1..])
  }

  /** The state is the recovery of the image's records up to the first that cannot advance. */
  ghost predicate PartOf(rt: Runtime, before: Runtime, d: Durable, order: seq<string>, policy: PolicySet,
      limits: Limits) {
    && (forall p :: p in order ==> p in d.records)
    && rt == Runtime(rt.records, IndexesOf(rt.records), d.sets, map[], [], before.watermarks)
    && (forall p :: p in rt.records <==> p in order[..Loaded(d, order)])
    && forall p :: p in rt.records ==>
         CanAdvance(d.records[p]) && rt.records[p] == Recover(d.records[p], d.sets, policy, limits)
  }

  /** import_state; an image that fails a check throws in the original. Watermarks are not reset. */
  function Import(rt: Runtime, d: Durable, policy: PolicySet, limits: Limits): Option<Runtime> {
    if !Importable(d, limits) then None
    else
      var records := Recovered(d, policy, limits);
      Some(Runtime(records, IndexesOf(records), d.sets, map[], [], rt.watermarks))
  }

  // ---- when an import fails -------------------------------------------------------------------

  predicate BadSet(id: string, s: ConstraintSet, limits: Limits) {
    s.id != id || s.id == "" || s.generation == 0
    || exists c :: c in s.capabilities && !Requirements.ValidRequirement(c.expression, limits)
  }

  predicate BadEvidence(evidence: seq<EvidenceEntry>) {
    || (exists n :: 0 < n < |evidence| && !Less(evidence[n - 1], evidence[n]))
    || (forall e :: e in evidence ==> KeyOf(e) != (Epoch, SELF))
    || (forall e :: e in evidence ==> KeyOf(e) != (Policy, SELF))
  }

  /** A state other than rejected, revoked and retired cannot be withdrawn at the last generation. */
  predicate BadRecord(d: Durable, p: string, limits: Limits)
    requires p in d.records
  {
    var r := d.records[p];
    || r.definition.id != p || r.generation == 0 || BadEvidence(r.evidence)
    || !PathShape.WellShaped(r.definition, limits, false)
    || (r.definition.underlying.Some? && r.definition.underlying.value.path !in d.records)
    || (r.state !in {Rejected, AuthorityState.Revoked, AuthorityState.Retired} && r.generation == U64_MAX)
  }

  lemma EvidenceIsBad(evidence: seq<EvidenceEntry>)
    ensures BadEvidence(evidence) <==> !ValidEvidence(evidence)
  {
    hide Less, Find;
    FindSome(evidence, (Epoch, SELF));
    FindSome(evidence, (Policy, SELF));
  }

  lemma RecordIsBad(d: Durable, p: string, limits: Limits)
    requires p in d.records
    ensures BadRecord(d, p, limits) <==> !ImportableRecord(d, p, limits)
  {
    hide BadEvidence, ValidEvidence, PathShape.WellShaped, PathShape.Shape;
    EvidenceIsBad(d.records[p].evidence);
    PathShape.ShapeMeaning(d.records[p].definition, limits, false);
  }

  /** An import fails exactly when the image has no epoch, too many records, or a bad set or record. */
  lemma ImportFailsExactly(rt: Runtime, d: Durable, policy: PolicySet, limits: Limits)
    ensures Import(rt, d, policy, limits).None? <==>
            || d.epoch == 0 || |d.records| > limits.maxStoreRecords
            || (exists s :: s in d.sets && BadSet(s, d.sets[s], limits))
            || exists p :: p in d.records && BadRecord(d, p, limits)
  {
    hide BadRecord, ImportableRecord, BadSet, ImportableSet, IndexesOf;
    forall p | p in d.records ensures BadRecord(d, p, limits) <==> !ImportableRecord(d, p, limits) {
      RecordIsBad(d, p, limits);
    }
    forall s | s in d.sets
      ensures BadSet(s, d.sets[s], limits) <==> !(d.sets[s].id == s && ImportableSet(d.sets[s], limits))
    {
      SetIsBad(s, d.sets[s], limits);
    }
  }

  lemma SetIsBad(id: string, s: ConstraintSet, limits: Limits)
    ensures BadSet(id, s, limits) <==> !(s.id == id && ImportableSet(s, limits))
  {
    hide Requirements.ValidRequirement;
  }

  // ---- what a recovery establishes -----------------------------------------------------------

  lemma RecoverRecord(r: DurableRecord, sets: map<string, ConstraintSet>, policy: PolicySet, limits: Limits)
    requires CanAdvance(r)
    ensures HadLiveAuthority(r.state) <==> r.state !in {Rejected, AuthorityState.Revoked, AuthorityState.Retired}
    ensures var r' := Recover(r, sets, policy, limits);
            && !AuthorizingState(r'.state)
            && r'.violations == [] && r'.primaryViolation == None && r'.authorityDigest == r.authorityDigest
            && r'.pathDigest == PathDigestOf(r.definition)
            && (r.definition.constraintSet in sets ==>
                  r'.constraintDigest == ConstraintDigestOf(sets[r.definition.constraintSet]))
            && r'.dependencies == DependenciesOf(r.definition, sets, policy, limits)
            && r'.revocation == r.revocation && r'.retired == r.retired && r'.evidence == r.evidence
            && r'.definition == r.definition && r'.publisher == r.publisher && r'.workerBoot == r.workerBoot
            && r.generation <= r'.generation <= r.generation + 1
            && (r.state == StateForOutcome(r.outcome) ==> r'.state == StateForOutcome(r'.outcome) && !Authorizing(r'))
            && (!HadLiveAuthority(r.state) ==>
                 r'.generation == r.generation && r'.state == r.state && r'.outcome == r.outcome)
            && (HadLiveAuthority(r.state) ==>
                  r'.state == RevalidationRequired && r'.outcome == RevalidationRequiredOutcome
                  && r'.generation == r.generation + 1)
  {
    hide DependenciesOf, ConstraintDigestOf, PathDigestOf;
  }

  /** The indexes are rebuilt as the exact inverse of the dependency lists. */
  lemma ImportAgrees(rt: Runtime, d: Durable, policy: PolicySet, limits: Limits)
    requires Import(rt, d, policy, limits).Some?
    ensures IndexesAgree(Import(rt, d, policy, limits).value)
  {
    hide IndexKeys, Recovered, Importable;
    var records := Recovered(d, policy, limits);
    forall p | p in records { IndexKeysHaveText(records[p].dependencies); }
    IndexesOfInverse(records);
  }

  lemma IndexesOfInverse(records: map<string, Record>)
    requires forall p :: p in records ==> forall k :: k in IndexKeys(records[p].dependencies) ==> k.text != ""
    ensures NoEmptyBucket(IndexesOf(records))
    ensures forall k, p :: InBucket(IndexesOf(records), k, p) <==> DependsOn(records, p, k)
  {
    hide IndexKeys;
    forall k, p ensures InBucket(IndexesOf(records), k, p) <==> DependsOn(records, p, k) {
    }
    forall k | k in IndexesOf(records) ensures IndexesOf(records)[k] != {} && k.text != "" {
      var p :| p in records && k in IndexKeys(records[p].dependencies);
      assert p in Dependents(records, Some(k));
    }
  }

  /** A recovery of any image authorizes nothing, and keeps every revocation and retirement. */
  lemma RecoveryAuthorizesNothing(rt: Runtime, d: Durable, policy: PolicySet, limits: Limits, p: string)
    requires Import(rt, d, policy, limits).Some? && p in d.records
    ensures var rt' := Import(rt, d, policy, limits).value;
            && rt'.records.Keys == d.records.Keys && rt'.sets == d.sets && rt'.watermarks == rt.watermarks
            && !AuthorizingState(rt'.records[p].state)
            && rt'.records[p].revocation == d.records[p].revocation && rt'.records[p].retired == d.records[p].retired
            && rt'.records[p].generation >= d.records[p].generation
  {
    hide Importable, Recover, IndexesOf;
    assert HadLiveAuthority(d.records[p].state) ==>
      d.records[p].generation < U64_MAX by { ImportableParts(d, limits, p); }
    RecoverRecord(d.records[p], d.sets, policy, limits);
  }

  lemma ImportableParts(d: Durable, limits: Limits, p: string)
    requires Importable(d, limits) && p in d.records
    ensures HadLiveAuthority(d.records[p].state) ==> d.records[p].generation < U64_MAX
    ensures d.records[p].definition.id == p && d.records[p].generation != 0 && Canonical(d.records[p].evidence)
  {
    hide ImportableSet, PathShape.Shape, Canonical, Find;
  }

  // ---- export followed by import ---------------------------------------------------------------

  function Restart(rt: Runtime, into: Runtime, epoch: u64, policy: PolicySet, livePolicy: PolicySet,
      limits: Limits): Option<Runtime> {
    Import(into, Export(rt, epoch, policy), livePolicy, limits)
  }

  lemma RestartRecord(rt: Runtime, into: Runtime, epoch: u64, policy: PolicySet, livePolicy: PolicySet,
      limits: Limits, p: string)
    requires Restart(rt, into, epoch, policy, livePolicy, limits).Some? && p in rt.records
    ensures var rt' := Restart(rt, into, epoch, policy, livePolicy, limits).value;
            && rt'.records.Keys == rt.records.Keys && rt'.sets == rt.sets
            && (HadLiveAuthority(rt.records[p].state) ==> rt.records[p].generation < U64_MAX)
            && rt'.records[p] == Recover(ExportRecord(rt.records[p]), rt.sets, livePolicy, limits)
  {
    hide Importable, Recover, IndexesOf;
    ImportableParts(Export(rt, epoch, policy), limits, p);
  }

  /**
   * Every record comes back, and nothing else: with its definition, evidence, digest, revocation, retirement and
   * publisher, and in its own state at its own generation unless its authority was live.
   */
  lemma ExportImportKeeps(rt: Runtime, into: Runtime, epoch: u64, policy: PolicySet, livePolicy: PolicySet,
      limits: Limits, p: string)
    requires Restart(rt, into, epoch, policy, livePolicy, limits).Some?
    ensures var rt' := Restart(rt, into, epoch, policy, livePolicy, limits).value;
            && (p in rt'.records <==> p in rt.records)
            && rt'.sets == rt.sets && rt'.watermarks == into.watermarks
            && (p in rt.records ==>
                  var r, r' := rt.records[p], rt'.records[p];
                  && r'.definition == r.definition && r'.evidence == r.evidence
                  && r'.authorityDigest == r.authorityDigest
                  && r'.revocation == r.revocation && r'.retired == r.retired
                  && r'.publisher == r.publisher && r'.workerBoot == r.workerBoot
                  && (HadLiveAuthority(r.state) ==>
                       r'.generation == r.generation + 1 && r'.state == RevalidationRequired)
                  && (!HadLiveAuthority(r.state) ==>
                        r'.generation == r.generation && r'.state == r.state && r'.outcome == r.outcome))
  {
    hide Importable, DependenciesOf, ConstraintDigestOf, PathDigestOf, IndexesOf, HadLiveAuthority;
    RestartKeys(rt, into, epoch, policy, livePolicy, limits);
    if p in rt.records { RestartRecord(rt, into, epoch, policy, livePolicy, limits, p); }
  }

  /** From a consistent runtime the result is consistent, and no record of it authorizes in state or in outcome. */
  lemma RestartConsistent(rt: Runtime, into: Runtime, epoch: u64, policy: PolicySet, livePolicy: PolicySet,
      limits: Limits)
    requires RecordsConsistent(rt) && Restart(rt, into, epoch, policy, livePolicy, limits).Some?
    ensures RecordsConsistent(Restart(rt, into, epoch, policy, livePolicy, limits).value)
    ensures forall p :: p in rt.records ==>
              !Authorizing(Restart(rt, into, epoch, policy, livePolicy, limits).value.records[p])
  {
    hide Restart, Recover, Canonical, StateForOutcome, Authorizing;
    var rt' := Restart(rt, into, epoch, policy, livePolicy, limits).value;
    forall p | p in rt.records
      ensures p in rt'.records && rt'.records[p].definition.id == p && Consistent(rt'.records[p])
              && !Authorizing(rt'.records[p])
    {
      RestartRecord(rt, into, epoch, policy, livePolicy, limits, p);
      RecoverRecord(ExportRecord(rt.records[p]), rt.sets, livePolicy, limits);
    }
    if rt'.records != map[] {
      var p :| p in rt'.records;
      RestartKeys(rt, into, epoch, policy, livePolicy, limits);
    }
  }

  lemma RestartKeys(rt: Runtime, into: Runtime, epoch: u64, policy: PolicySet, livePolicy: PolicySet, limits: Limits)
    requires Restart(rt, into, epoch, policy, livePolicy, limits).Some?
    ensures Restart(rt, into, epoch, policy, livePolicy, limits).value.records.Keys == rt.records.Keys
  {
    hide Importable, Recover, IndexesOf;
  }

  /**
   * Import keeps the stored digest. It is the recomputation for a record exactly when recovery left the state
   * alone, there were no secondary violations to drop, and the set's content is still the one that was digested.
   */
  lemma RecoveredDigestMatches(rt: Runtime, into: Runtime, epoch: u64, policy: PolicySet, livePolicy: PolicySet,
      limits: Limits, p: string)
    requires Restart(rt, into, epoch, policy, livePolicy, limits).Some?
    requires p in rt.records && Sound(rt.records[p])
    ensures var r := rt.records[p];
            DigestsMatch(Restart(rt, into, epoch, policy, livePolicy, limits).value.records[p])
            <==> && (HadLiveAuthority(r.state) ==> r.state == RevalidationRequired)
                 && r.violations == []
                 && r.constraintDigest ==
                    (if r.definition.constraintSet in rt.sets then
                       ConstraintDigestOf(rt.sets[r.definition.constraintSet])
                     else NoDigest)
  {
    hide Restart, Scalar, DependenciesOf, ConstraintDigestOf, PathDigestOf, Canonical;
    var r := rt.records[p];
    RestartRecord(rt, into, epoch, policy, livePolicy, limits, p);
    CodesEmpty(r.violations);
    assert r.state == RevalidationRequired <==> r.outcome == RevalidationRequiredOutcome;
  }

  lemma CodesEmpty(vs: seq<Violation>)
    ensures Codes(vs) == Codes([]) <==> vs == []
  {
    if vs != [] { assert vs[0].code in Codes(vs); }
  }

  /** An authorized path exported and imported again carries a digest that its own fields do not give. */
  lemma LiveAuthorityLosesItsDigest(rt: Runtime, into: Runtime, epoch: u64, policy: PolicySet, livePolicy: PolicySet,
      limits: Limits, p: string)
    requires Restart(rt, into, epoch, policy, livePolicy, limits).Some?
    requires p in rt.records && Sound(rt.records[p]) && Authorizing(rt.records[p])
    ensures !DigestsMatch(Restart(rt, into, epoch, policy, livePolicy, limits).value.records[p])
  {
    hide Restart, DigestsMatch, Canonical;
    RecoveredDigestMatches(rt, into, epoch, policy, livePolicy, limits, p);
  }
}
