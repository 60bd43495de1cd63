/** A query notices every change of a view that the record depends on. */
module ViewChanges {
  import opened Base
  import opened Model
  import opened Evidence
  import opened RuntimeState
  import opened Views
  import opened Findings
  import opened Reads
  import opened Evaluation
  import opened Currentness
  import PathShape

  /** The record depends on the subject, and the view has it at this generation; absent subjects are at zero. */
  predicate Shows(w: World, r: Record, i: Invalidation) {
    match i
    case OfLink(id, g) => ElementRef(Link, id) in r.dependencies.elements && g == LinkGeneration(w.views, id)
    case OfPort(id, g) => ElementRef(Port, id) in r.dependencies.elements && g == PortGeneration(w.views, id)
    case OfElement(e, g) => e in r.dependencies.elements && g == ElementGeneration(w.views, e)
    case OfTopology(g) => g == w.views.topologyGeneration
    case OfCapability(entity, key, g) =>
      (entity, key) in r.dependencies.capabilities && g == CapabilityGeneration(w.views, (entity, key))
    case OfDomain(domain, g) => domain in r.dependencies.domains && g == DomainGeneration(w.views, domain)
    case OfEpoch(g) => g == w.epoch
    case OfPolicy(g) => g == w.policy.generation
    case _ => false
  }

  /** No two of the record's capabilities render to one key. */
  predicate CapabilityKeysDiffer(r: Record) {
    var cs := r.dependencies.capabilities;
    forall c, d :: c in cs && d in cs && CapabilityKey(c.0, c.1) == CapabilityKey(d.0, d.1) ==> c == d
  }

  function EntryOf(i: Invalidation): EvidenceEntry { EvidenceEntry(SubjectOf(i).0, SubjectOf(i).1, i.generation) }

  // ---- what a query reads about a subject --------------------------------------------------------------

  lemma {:induction false} LastSetIs(updates: seq<EvidenceEntry>, e: EvidenceEntry)
    requires e in updates && forall x :: x in updates && KeyOf(x) == KeyOf(e) ==> x == e
    ensures LastSet(updates, KeyOf(e)) == Some(e.generation)
  {
    LastSetIsKeySet(updates[1..], KeyOf(e));
    if e in updates[1..] { LastSetIs(updates[1..], e); }
  }

  lemma ReadsAre(rt: Runtime, w: World, r: Record, x: EvidenceEntry)
    ensures x in CurrentReads(rt, w, r) <==>
            || x in CurrentScalars(rt, w, r.definition.constraintSet)
            || (exists e :: e in r.dependencies.elements && x in CurrentElementReads(w.views, e))
            || (exists c :: c in r.dependencies.capabilities && x in CapabilityReads(w.views, c))
            || (exists d :: d in r.dependencies.domains && x in DomainReads(w.views, d))
  {
    hide CurrentScalars, CurrentElementReads, CapabilityReads, DomainReads, Each;
    EachMember(r.dependencies.elements, e => CurrentElementReads(w.views, e), x);
    EachMember(r.dependencies.capabilities, c => CapabilityReads(w.views, c), x);
    EachMember(r.dependencies.domains, d => DomainReads(w.views, d), x);
  }

  lemma ElementRead(v: Views, e: ElementRef, x: EvidenceEntry)
    ensures x in CurrentElementReads(v, e) <==>
            || x == EvidenceEntry(StructuralElement, ElementKey(e), ElementGeneration(v, e))
            || (e.kind == Link && x == EvidenceEntry(LinkStateKind, ElementKey(e), LinkGeneration(v, e.id)))
            || (e.kind == Port && x == EvidenceEntry(PortConfig, ElementKey(e), PortGeneration(v, e.id)))
  {
    hide ElementKey, ElementGeneration, LinkGeneration, PortGeneration;
  }

  lemma SubjectIsRead(rt: Runtime, w: World, r: Record, i: Invalidation)
    requires Shows(w, r, i)
    ensures EntryOf(i) in CurrentReads(rt, w, r)
  {
    hide CurrentReads, ElementKey, CapabilityKey, DomainSubject, CurrentElementReads, ElementGeneration,
      LinkGeneration, PortGeneration, CapabilityGeneration, DomainGeneration;
    ReadsAre(rt, w, r, EntryOf(i));
    var scalars := CurrentScalars(rt, w, r.definition.constraintSet);
    match i
    case OfLink(id, g) => ElementRead(w.views, ElementRef(Link, id), EntryOf(i));
    case OfPort(id, g) => ElementRead(w.views, ElementRef(Port, id), EntryOf(i));
    case OfElement(e, g) => ElementRead(w.views, e, EntryOf(i));
    case OfTopology(g) => assert EntryOf(i) == scalars[2];
    case OfCapability(entity, key, g) => assert EntryOf(i) in CapabilityReads(w.views, (entity, key));
    case OfDomain(domain, g) => assert EntryOf(i) in DomainReads(w.views, domain);
    case OfEpoch(g) => assert EntryOf(i) == scalars[0];
    case OfPolicy(g) => assert EntryOf(i) == scalars[1];
  }

  lemma SubjectIsReadOnce(rt: Runtime, w: World, r: Record, i: Invalidation, x: EvidenceEntry)
    requires Shows(w, r, i) && CapabilityKeysDiffer(r) && x in CurrentReads(rt, w, r) && KeyOf(x) == SubjectOf(i)
    ensures x == EntryOf(i)
  {
    hide CurrentReads, ElementKey, CapabilityKey, DomainSubject, CurrentElementReads, ElementGeneration,
      LinkGeneration, PortGeneration, CapabilityGeneration, DomainGeneration;
    ReadsAre(rt, w, r, x);
    if e :| e in r.dependencies.elements && x in CurrentElementReads(w.views, e) {
      ElementRead(w.views, e, x);
      match i
      case OfLink(id, g) => PathShape.ElementKeyInjective(e, ElementRef(Link, id));
      case OfPort(id, g) => PathShape.ElementKeyInjective(e, ElementRef(Port, id));
      case OfElement(e', g) => PathShape.ElementKeyInjective(e, e');
      case _ =>
    } else if d :| d in r.dependencies.domains && x in DomainReads(w.views, d) {
      if i.OfDomain? { SameDomain(d, i.domain); }
    }
  }

  lemma SameDomain(a: string, b: string)
    requires DomainSubject(a) == DomainSubject(b)
    ensures a == b
  {
    assert DomainSubject(a)[7..] == a && DomainSubject(b)[7..] == b;
  }

  lemma ShownIsFound(rt: Runtime, w: World, r: Record, limits: Limits, i: Invalidation)
    requires Shows(w, r, i) && CapabilityKeysDiffer(r) && !SetAll([], CurrentReads(rt, w, r), limits).1
    ensures Find(CurrentEvidence(rt, w, r, limits), SubjectOf(i)) == Some(i.generation)
  {
    hide CurrentReads, SetAll, LastSet, SubjectOf, Shows, PutAll;
    var calls := CurrentReads(rt, w, r);
    SubjectIsRead(rt, w, r, i);
    forall x | x in calls && KeyOf(x) == SubjectOf(i) ensures x == EntryOf(i) { SubjectIsReadOnce(rt, w, r, i, x); }
    LastSetIs(calls, EntryOf(i));
    SetAllWithoutOverflow([], calls, limits);
    EmptyCanonical();
    PutAllFind([], calls, SubjectOf(i));
  }

  /**
   * For a subject that the record depends on and binds: the query lists it as stale exactly when the view has it at
   * another generation than the record binds, and with one such subject the record is not current.
   */
  lemma ChangeIsNoticed(rt: Runtime, w: World, r: Record, limits: Limits, i: Invalidation, bound: u64)
    requires Canonical(r.evidence) && Find(r.evidence, SubjectOf(i)) == Some(bound)
    requires Shows(w, r, i) && CapabilityKeysDiffer(r) && !SetAll([], CurrentReads(rt, w, r), limits).1
    ensures (exists d :: d in StaleDependencies(rt, w, r, limits) && d.key == SubjectOf(i)) <==> i.generation != bound
    ensures i.generation != bound ==>
              && !IsCurrent(rt, w, r, limits)
              && Delta(SubjectOf(i), Some(bound), Some(i.generation)) in StaleDependencies(rt, w, r, limits)
  {
    hide CurrentReads, SetAll, MergeDiff, Canonical, Find, SubjectOf, Shows, CapabilityKeysDiffer;
    ShownIsFound(rt, w, r, limits, i);
    SetAllCanonical([], CurrentReads(rt, w, r), limits) by { EmptyCanonical(); }
    DiffMeaning(r.evidence, CurrentEvidence(rt, w, r, limits));
    if i.generation != bound {
      var d := Delta(SubjectOf(i), Some(bound), Some(i.generation));
      assert d in StaleDependencies(rt, w, r, limits);
      assert d !in [];
    }
  }
}
