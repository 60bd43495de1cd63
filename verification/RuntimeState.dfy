/**
 * The authority state and what every public operation does to it, as functions on values.
 * A digest is a free constructor over the fields that the original writes into the hash.
 */
module RuntimeState {
  import opened Base
  import opened Model
  import opened Evidence
  import PathCodec
  import Requirements
  import Rules

  // ---- digests -----------------------------------------------------------------------

  datatype Digest =
    | NoDigest
    | PathDigest(path: PathDefinition)
    | ConstraintDigest(content: ConstraintSet)
    | PolicyDigest(policyContent: PolicySet)
    | InputDigest(pathPart: Digest, pathGeneration: u64, constraintPart: Digest, constraintGeneration: u64,
                  policyPart: Digest, policyGeneration: u64, epoch: u64)
    | AuthorityDigest(pathPart: Digest, pathGeneration: u64, constraintPart: Digest, constraintGeneration: u64,
                      evidence: seq<EvidenceEntry>, policyGeneration: u64, epoch: u64,
                      state: AuthorityState, primary: Outcome, codes: multiset<Outcome>)

  /** The path id is not part of the encoded content. */
  function PathDigestOf(p: PathDefinition): Digest { PathDigest(p.(id := "")) }

  function CanonicalSet(c: ConstraintSet): ConstraintSet {
    c.(generation := 0,
      capabilities := Rules.StableSort(c.capabilities, Rules.CapabilityLess),
      failureDomains := Rules.StableSort(c.failureDomains, Rules.DomainLess),
      allowedLayers := Rules.StableSort(c.allowedLayers, Rules.LayerLess))
  }

  function ConstraintDigestOf(c: ConstraintSet): Digest { ConstraintDigest(CanonicalSet(c)) }

  predicate ClassLess(a: DomainClass, b: DomainClass) { Rules.ClassCode(a) < Rules.ClassCode(b) }

  function PolicyDigestOf(p: PolicySet): Digest {
    PolicyDigest(p.(generation := 0,
      requiredCapabilities := Rules.StableSort(p.requiredCapabilities, Rules.CapabilityLess),
      forbiddenDomainClasses := Rules.StableSort(p.forbiddenDomainClasses, ClassLess),
      forbiddenLayers := Rules.StableSort(p.forbiddenLayers, Rules.LayerLess)))
  }

  /** compute_input_digest. */
  function InputDigestOf(p: PathDefinition, constraints: ConstraintSet, policy: PolicySet, epoch: u64): Digest {
    InputDigest(PathDigestOf(p), p.generation, ConstraintDigestOf(constraints), p.constraintGeneration,
      PolicyDigestOf(policy), policy.generation, epoch)
  }

  function Codes(vs: seq<Violation>): multiset<Outcome> {
    if vs == [] then multiset{} else multiset{vs[0].code} + Codes(vs[1..])
  }

  function Scalar(evidence: seq<EvidenceEntry>, kind: EvidenceKind): u64 {
    match Find(evidence, (kind, SELF)) case Some(g) => g case None => 0
  }

  /** digest_input_for followed by AuthorityDigestInput::compute, which sorts the codes. */
  function AuthorityDigestOf(
    d: PathDefinition, pathDigest: Digest, constraintDigest: Digest, evidence: seq<EvidenceEntry>,
    state: AuthorityState, outcome: Outcome, violations: seq<Violation>): Digest
  {
    AuthorityDigest(pathDigest, d.generation, constraintDigest, d.constraintGeneration, evidence,
      Scalar(evidence, Policy), Scalar(evidence, Epoch), state, outcome, Codes(violations))
  }

  // ---- records ------------------------------------------------------------------------

  datatype Dependencies = Dependencies(
    elements: seq<ElementRef>, capabilities: seq<(string, string)>, domains: seq<string>,
    memberships: seq<string>, underlying: seq<string>)

  datatype Record = Record(
    definition: PathDefinition, generation: u64, state: AuthorityState, outcome: Outcome,
    evidence: seq<EvidenceEntry>,
    pathDigest: Digest, constraintDigest: Digest, authorityDigest: Digest, inputDigest: Digest,
    primaryViolation: Option<Violation>, violations: seq<Violation>,
    revocation: Option<Revocation>, retired: bool, identityBound: bool,
    publisher: string, workerBoot: string, dependencies: Dependencies)

  predicate Authorizing(r: Record) { AuthorizingState(r.state) || AuthorizingOutcome(r.outcome) }

  datatype Which = ElementIndex | CapabilityIndex | DomainIndex | UnderlyingIndex

  /** A key of one of the four reverse indexes. */
  datatype IndexKey = IndexKey(which: Which, text: string)

  type Indexes = map<IndexKey, set<string>>

  datatype Attempt = Attempt(path: string, inputDigest: Digest)

  datatype Runtime = Runtime(
    records: map<string, Record>, indexes: Indexes, sets: map<string, ConstraintSet>,
    attempts: map<string, Attempt>, attemptOrder: seq<string>, watermarks: map<Key, u64>)

  datatype Config = Config(limits: Limits, idempotentReplay: bool)

  function EmptyRuntime(): Runtime { Runtime(map[], map[], map[], map[], [], map[]) }

  // ---- dependencies and indexes --------------------------------------------------------

  function DomainSubject(domain: string): string { "domain:" + domain }
  function MembershipSubject(e: ElementRef): string { "member:" + ElementKey(e) }
  function UnderlyingSubject(path: string): string { "underlying:" + path }

  function RefsOf(hops: seq<PathElement>): seq<ElementRef> {
    if hops == [] then [] else [hops[0].Ref()] + RefsOf(hops[1..])
  }

  function CapabilityPairs(cs: seq<CapabilityRequirement>): seq<(string, string)> {
    if cs == [] then [] else [(cs[0].entity, cs[0].key)] + CapabilityPairs(cs[1..])
  }

  function NamedDomains(ds: seq<DomainConstraint>): seq<string> {
    if ds == [] then [] else (if ds[0].domain != "" then [ds[0].domain] else []) + NamedDomains(ds[1..])
  }

  function MembershipSubjects(refs: seq<ElementRef>): seq<string> {
    if refs == [] then [] else [MembershipSubject(refs[0])] + MembershipSubjects(refs[1..])
  }

  /** rebuild_record_dependencies. */
  function DependenciesOf(d: PathDefinition, sets: map<string, ConstraintSet>, policy: PolicySet,
      limits: Limits): Dependencies {
    var refs := RefsOf(d.hops);
    var underlying := if d.underlying.Some? then [d.underlying.value.path] else [];
    if d.constraintSet !in sets then Dependencies(refs, [], [], [], underlying)
    else
      var rules := Rules.CombineRules(sets[d.constraintSet], policy, limits);
      Dependencies(refs, CapabilityPairs(rules.capabilities), NamedDomains(rules.failureDomains),
        if rules.failureDomains != [] || rules.forbiddenClasses != [] then MembershipSubjects(refs) else [], underlying)
  }

  /** The keys under which index_record files a path; empty keys are skipped. */
  function IndexKeys(d: Dependencies): set<IndexKey> {
    set k | k in
      (set e | e in d.elements :: IndexKey(ElementIndex, ElementKey(e)))
      + (set m | m in d.memberships :: IndexKey(ElementIndex, m))
      + (set c | c in d.capabilities :: IndexKey(CapabilityIndex, CapabilityKey(c.0, c.1)))
      + (set n | n in d.domains :: IndexKey(DomainIndex, n))
      + (set u | u in d.underlying :: IndexKey(UnderlyingIndex, u)) && k.text != ""
  }

  function Bucket(ix: Indexes, k: IndexKey): set<string> { if k in ix then ix[k] else {} }

  function Filed(ix: Indexes, keys: set<IndexKey>, path: string): Indexes {
    map k | k in ix.Keys + keys :: if k in keys then Bucket(ix, k) + {path} else ix[k]
  }

  /** Buckets that become empty are removed. */
  function Unfiled(ix: Indexes, keys: set<IndexKey>, path: string): Indexes {
    map k | k in ix && !(k in keys && ix[k] <= {path}) :: if k in keys then ix[k] - {path} else ix[k]
  }

  // ---- marking -----------------------------------------------------------------------

  function Redigest(r: Record): Record {
    r.(authorityDigest :=
      AuthorityDigestOf(r.definition, r.pathDigest, r.constraintDigest, r.evidence, r.state, r.outcome, r.violations))
  }

  /** mark_revalidation_required: nothing at an exhausted generation. */
  function Mark(r: Record): Record {
    if r.state == RevalidationRequired || r.generation == U64_MAX then r
    else
      Redigest(
        r.(generation := r.generation + 1, state := RevalidationRequired, outcome := RevalidationRequiredOutcome))
  }

  // ---- invalidation -------------------------------------------------------------------

  datatype Invalidation =
    | OfLink(id: string, generation: u64)
    | OfPort(id: string, generation: u64)
    | OfElement(element: ElementRef, generation: u64)
    | OfTopology(generation: u64)
    | OfCapability(entity: string, key: string, generation: u64)
    | OfDomain(domain: string, generation: u64)
    | OfMembership(element: ElementRef, generation: u64)
    | OfEpoch(generation: u64)
    | OfPolicy(generation: u64)
    | OfConstraints(id: string, generation: u64)
    | OfUnderlying(path: string, generation: u64)

  /** The evidence subject whose watermark the operation raises. */
  function SubjectOf(i: Invalidation): Key {
    match i
    case OfLink(id, _) => (LinkStateKind, ElementKey(ElementRef(Link, id)))
    case OfPort(id, _) => (PortConfig, ElementKey(ElementRef(Port, id)))
    case OfElement(e, _) => (StructuralElement, ElementKey(e))
    case OfTopology(_) => (Topology, SELF)
    case OfCapability(entity, key, _) => (Capability, CapabilityKey(entity, key))
    case OfDomain(domain, _) => (FailureDomain, DomainSubject(domain))
    case OfMembership(e, _) => (FailureDomain, MembershipSubject(e))
    case OfEpoch(_) => (Epoch, SELF)
    case OfPolicy(_) => (Policy, SELF)
    case OfConstraints(id, _) => (Constraints, id)
    case OfUnderlying(path, _) => (UnderlyingAuthority, UnderlyingSubject(path))
  }

  /** The index bucket whose paths are candidates; none means every record. */
  function TargetOf(i: Invalidation): Option<IndexKey> {
    match i
    case OfLink(id, _) => Some(IndexKey(ElementIndex, ElementKey(ElementRef(Link, id))))
    case OfPort(id, _) => Some(IndexKey(ElementIndex, ElementKey(ElementRef(Port, id))))
    case OfElement(e, _) => Some(IndexKey(ElementIndex, ElementKey(e)))
    case OfCapability(entity, key, _) => Some(IndexKey(CapabilityIndex, CapabilityKey(entity, key)))
    case OfDomain(domain, _) => Some(IndexKey(DomainIndex, domain))
    case OfMembership(e, _) => Some(IndexKey(ElementIndex, ElementKey(e)))
    case OfUnderlying(path, _) => Some(IndexKey(UnderlyingIndex, path))
    case _ => None
  }

  /** A record that already binds exactly the new generation is left alone. */
  predicate Bound(r: Record, key: Key, generation: u64) { Find(r.evidence, key) == Some(generation) }

  function Touch(r: Record, key: Key, generation: u64): Record { if Bound(r, key, generation) then r else Mark(r) }

  function Raise(w: map<Key, u64>, key: Key, generation: u64): map<Key, u64> {
    w[key := if key in w && generation <= w[key] then w[key] else generation]
  }

  function Candidates(rt: Runtime, target: Option<IndexKey>): set<string> {
    if target.None? then rt.records.Keys else Bucket(rt.indexes, target.value) * rt.records.Keys
  }

  function TouchAll(records: map<string, Record>, paths: set<string>, key: Key, generation: u64): map<string, Record> {
    map p | p in records :: if p in paths then Touch(records[p], key, generation) else records[p]
  }

  function Invalidate(rt: Runtime, i: Invalidation): Runtime {
    rt.(watermarks := Raise(rt.watermarks, SubjectOf(i), i.generation),
      records := TouchAll(rt.records, Candidates(rt, TargetOf(i)), SubjectOf(i), i.generation))
  }

  /** The two lists of an invalidation report, as sets. */
  datatype Report = Report(revalidationRequired: set<string>, alreadyCurrent: set<string>)

  predicate Settled(r: Record, key: Key, generation: u64) {
    Bound(r, key, generation) || r.state == RevalidationRequired
  }

  function ReportOn(records: map<string, Record>, paths: set<string>, key: Key, generation: u64): Report {
    Report(set p | p in paths && p in records && !Settled(records[p], key, generation),
      set p | p in paths && p in records && Settled(records[p], key, generation))
  }

  predicate PublishedBy(r: Record, publisher: string, boot: string) { r.publisher == publisher && r.workerBoot == boot }

  function MarkWhere(records: map<string, Record>, paths: set<string>): map<string, Record> {
    map p | p in records :: if p in paths then Mark(records[p]) else records[p]
  }

  /** invalidate_publisher. */
  function LosePublisher(rt: Runtime, publisher: string, boot: string): Runtime {
    rt.(records := MarkWhere(rt.records, set p | p in rt.records && PublishedBy(rt.records[p], publisher, boot)))
  }

  // ---- constraint sets ------------------------------------------------------------------

  predicate RegistrableSet(s: ConstraintSet, limits: Limits) {
    && s.id != "" && s.scope != ""
    && |s.capabilities| <= limits.maxConstraints && |s.failureDomains| <= limits.maxFailureDomainRefs
    && forall c :: c in s.capabilities ==>
         Requirements.ValidRequirement(c.expression, limits)
           && PathCodec.IdentityText(c.key, Requirements.CAPABILITY_KEY_LENGTH)
  }

  datatype Registration =
    | Malformed
    | Exhausted
    | Unchanged(generation: u64)
    | Created(generation: u64, invalidated: nat)

  function AffectedBy(rt: Runtime, s: ConstraintSet): set<string> {
    set p | p in rt.records && rt.records[p].definition.constraintSet == s.id
            && rt.records[p].definition.constraintGeneration != s.generation
  }

  function StoreSet(rt: Runtime, s: ConstraintSet): Runtime {
    rt.(sets := rt.sets[s.id := s], records := MarkWhere(rt.records, AffectedBy(rt, s)))
  }

  function NextSetGeneration(rt: Runtime, id: string): nat { if id in rt.sets then rt.sets[id].generation + 1 else 1 }

  /** register_constraint_set; malformed sets and an exhausted generation throw in the original and change nothing. */
  function Register(rt: Runtime, s: ConstraintSet, limits: Limits): (Runtime, Registration) {
    if !RegistrableSet(s, limits) then (rt, Malformed)
    else if s.id in rt.sets && ConstraintDigestOf(rt.sets[s.id]) == ConstraintDigestOf(s) then
      (rt, Unchanged(rt.sets[s.id].generation))
    else
      var next := NextSetGeneration(rt, s.id);
      if next > U64_MAX then (rt, Exhausted)
      else
        var stored := s.(generation := next);
        (StoreSet(rt, stored),
          Created(next, |set p | p in AffectedBy(rt, stored) && rt.records[p].state != RevalidationRequired|))
  }

  // ---- commit ---------------------------------------------------------------------------

  datatype CommitRequest = CommitRequest(
    path: PathDefinition, state: AuthorityState, primary: Outcome, primaryViolation: Option<Violation>,
    evidence: seq<EvidenceEntry>, pathDigest: Digest, constraintDigest: Digest, authorityDigest: Digest,
    secondary: seq<Violation>, inputDigest: Digest, identityBound: bool, publisher: string, workerBoot: string,
    expected: Option<u64>, attempt: string, policy: PolicySet)

  datatype CommitResult = Committed(generation: u64) | Replayed(generation: u64) | Refused(outcome: Outcome)

  predicate BelowWatermark(w: map<Key, u64>, e: EvidenceEntry) { KeyOf(e) in w && e.generation < w[KeyOf(e)] }

  predicate StaleEvidence(w: map<Key, u64>,
      evidence: seq<EvidenceEntry>) { exists e :: e in evidence && BelowWatermark(w, e) }

  function CurrentGeneration(rt: Runtime,
      path: string): u64 { if path in rt.records then rt.records[path].generation else 0 }

  /** The attempt log forgets its oldest ids beyond the limit. */
  function Trim(attempts: map<string, Attempt>, order: seq<string>, max: nat): (map<string, Attempt>, seq<string>)
    decreases |order|
  {
    if |order| <= max then (attempts, order) else Trim(attempts - {order[0]}, order[1..], max)
  }

  function RememberAttempt(rt: Runtime, attempt: string, path: string, digest: Digest, limits: Limits): Runtime {
    if attempt == "" then rt
    else if attempt in rt.attempts then rt.(attempts := rt.attempts[attempt := Attempt(path, digest)])
    else
      var (attempts, order) :=
        Trim(rt.attempts[attempt := Attempt(path, digest)], rt.attemptOrder + [attempt], limits.maxOutstandingAttempts);
      rt.(attempts := attempts, attemptOrder := order)
  }

  /** The record that a commit writes; a revocation or retirement already on file is not looked at. */
  function NewRecord(rt: Runtime, q: CommitRequest, generation: u64, limits: Limits): Record {
    var found := q.path.id in rt.records;
    Record(q.path, generation, q.state, q.primary, q.evidence, q.pathDigest, q.constraintDigest, q.authorityDigest,
      q.inputDigest, q.primaryViolation, q.secondary,
      if found then rt.records[q.path.id].revocation else None, found && rt.records[q.path.id].retired,
      q.identityBound, q.publisher, q.workerBoot, DependenciesOf(q.path, rt.sets, q.policy, limits))
  }

  function Unfile(rt: Runtime, path: string): Indexes {
    if path in rt.records then Unfiled(rt.indexes, IndexKeys(rt.records[path].dependencies), path) else rt.indexes
  }

  function Store(rt: Runtime, r: Record): Runtime {
    rt.(records := rt.records[r.definition.id := r],
      indexes := Filed(Unfile(rt, r.definition.id), IndexKeys(r.dependencies), r.definition.id))
  }

  /** The refusals that leave the state untouched, in source order. */
  function Refusal(rt: Runtime, c: Config, q: CommitRequest): Option<Outcome> {
    if q.path.id !in rt.records && |rt.records| >= c.limits.maxPaths then Some(ResourceLimit)
    else if StaleEvidence(rt.watermarks, q.evidence) then Some(RevalidationRequiredOutcome)
    else if q.expected.Some? && q.expected.value != CurrentGeneration(rt, q.path.id) then Some(StaleAuthority)
    else None
  }

  predicate Replays(rt: Runtime, c: Config, q: CommitRequest) {
    q.path.id in rt.records && c.idempotentReplay && rt.records[q.path.id].authorityDigest == q.authorityDigest
  }

  /** Impl::commit, the single mutation point for decisions. */
  function Commit(rt: Runtime, c: Config, q: CommitRequest): (Runtime, CommitResult) {
    var refusal := Refusal(rt, c, q);
    if refusal.Some? then (rt, Refused(refusal.value))
    else if Replays(rt, c, q) then
      (RememberAttempt(rt, q.attempt, q.path.id, q.inputDigest, c.limits), Replayed(CurrentGeneration(rt, q.path.id)))
    else if CurrentGeneration(rt, q.path.id) == U64_MAX then
      (rt.(indexes := Unfile(rt, q.path.id)), Refused(ResourceLimit))
    else
      var next := CurrentGeneration(rt, q.path.id) + 1;
      (RememberAttempt(Store(rt, NewRecord(rt, q, next, c.limits)), q.attempt, q.path.id, q.inputDigest, c.limits),
        Committed(next))
  }

  // ---- revoke and retire --------------------------------------------------------------------

  datatype RevokeRequest = RevokeRequest(
    attempt: string, reason: nat, explanation: string, authority: string, expected: Option<u64>, durable: bool)

  datatype MutationResult =
    | BadRequest
    | NoRecord
    | Conflict
    | Repeated(generation: u64)
    | GenerationsExhausted
    | Applied(generation: u64)

  predicate SameRevocation(r: Record, q: RevokeRequest) {
    r.revocation.Some? && r.revocation.value.reason == q.reason && r.revocation.value.explanation == q.explanation
    && r.revocation.value.authority == q.authority
  }

  function RevokedRecord(r: Record, q: RevokeRequest, epoch: u64): Record
    requires r.generation < U64_MAX
  {
    var revocation := Revocation(q.reason, q.explanation, r.generation + 1, epoch, q.authority, q.attempt, q.durable);
    Redigest(r.(generation := r.generation + 1, state := AuthorityState.Revoked, outcome := RevokedOutcome,
      revocation := Some(revocation)))
  }

  /** revoke; the first result is an exception in the original. */
  function Revoke(rt: Runtime, path: string, q: RevokeRequest, epoch: u64, limits: Limits): (Runtime, MutationResult) {
    if (q.reason == ADMINISTRATIVE && q.authority == "") || |q.explanation| > limits.maxMetadataBytes then
      (rt, BadRequest)
    else if path !in rt.records then (rt, NoRecord)
    else
      var r := rt.records[path];
      if q.expected.Some? && q.expected.value != r.generation then (rt, Conflict)
      else if SameRevocation(r, q) then (rt, Repeated(r.generation))
      else if r.generation == U64_MAX then (rt, GenerationsExhausted)
      else (rt.(records := rt.records[path := RevokedRecord(r, q, epoch)]), Applied(r.generation + 1))
  }

  function RetiredRecord(r: Record): Record
    requires r.generation < U64_MAX
  {
    Redigest(
      r.(generation := r.generation + 1, retired := true, state := AuthorityState.Retired, outcome := PathRetired))
  }

  function Retire(rt: Runtime, path: string): (Runtime, MutationResult) {
    if path !in rt.records then (rt, NoRecord)
    else
      var r := rt.records[path];
      if r.retired then (rt, Repeated(r.generation))
      else if r.generation == U64_MAX then (rt, GenerationsExhausted)
      else (rt.(records := rt.records[path := RetiredRecord(r)]), Applied(r.generation + 1))
  }
}
