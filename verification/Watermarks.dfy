/** No authority outlives an invalidation of the evidence it is bound to, whatever the interleaving. */
module Watermarks {
  import opened Base
  import opened Model
  import opened Evidence
  import opened RuntimeState
  import opened RuntimeRuns
  import opened RuntimeIndexes

  /** How an invalidation of a subject finds the records: all of them, one bucket, or no operation names it. */
  datatype Reach = Everywhere | Via(key: IndexKey) | Unreachable

  predicate HasPrefix(prefix: string, s: string) { |s| >= |prefix| && s[..|prefix|] == prefix }

  function ReachOf(key: Key): Reach {
    match key.0
    case Topology => Everywhere
    case Epoch => Everywhere
    case Policy => Everywhere
    case Constraints => Everywhere
    case StructuralElement => Via(IndexKey(ElementIndex, key.1))
    case LinkStateKind => Via(IndexKey(ElementIndex, key.1))
    case PortConfig => Via(IndexKey(ElementIndex, key.1))
    case Capability => Via(IndexKey(CapabilityIndex, key.1))
    case FailureDomain =>
      if HasPrefix("domain:", key.1) then Via(IndexKey(DomainIndex, key.1[7..]))
      else if HasPrefix("member:", key.1) then Via(IndexKey(ElementIndex, key.1[7..]))
      else Unreachable
    case UnderlyingAuthority =>
      if HasPrefix("underlying:", key.1) then Via(IndexKey(UnderlyingIndex, key.1[11..])) else Unreachable
  }

  /** An evidence subject fixes the bucket that every invalidation of that subject consults. */
  lemma SubjectFixesTarget(i: Invalidation)
    ensures ReachOf(SubjectOf(i)) == if TargetOf(i).Some? then Via(TargetOf(i).value) else Everywhere
  {
    hide ElementKey, CapabilityKey;
    match i
    case OfDomain(domain, _) => assert DomainSubject(domain)[..7] == "domain:" && DomainSubject(domain)[7..] == domain;
    case OfMembership(e, _) =>
      assert MembershipSubject(e)[..7] == "member:" && MembershipSubject(e)[7..] == ElementKey(e);
      assert MembershipSubject(e)[0] == 'm';
    case OfUnderlying(path, _) =>
      assert UnderlyingSubject(path)[..11] == "underlying:" && UnderlyingSubject(path)[11..] == path;
    case _ =>
  }

  /** The record is filed where an invalidation of the subject looks. */
  predicate Covered(d: Dependencies, key: Key) {
    match ReachOf(key) case Everywhere => true case Via(k) => k in IndexKeys(d) case Unreachable => false
  }

  predicate Current(w: map<Key, u64>, r: Record) {
    forall e :: e in r.evidence && Covered(r.dependencies, KeyOf(e)) ==> !BelowWatermark(w, e)
  }

  ghost predicate WatermarksHold(rt: Runtime) {
    forall p :: p in rt.records && Authorizing(rt.records[p]) && rt.records[p].generation < U64_MAX
                ==> Current(rt.watermarks, rt.records[p])
  }

  ghost predicate Guarded(rt: Runtime) { RecordsConsistent(rt) && IndexesAgree(rt) && WatermarksHold(rt) }

  lemma MarkedNotAuthorizing(r: Record)
    requires Consistent(r) && r.generation < U64_MAX
    ensures !Authorizing(Mark(r))
  {
    hide AuthorityDigestOf, PathDigestOf;
  }

  /** A record that binds the announced generation stays current when the watermark rises to it. */
  lemma BoundStaysCurrent(w: map<Key, u64>, r: Record, key: Key, generation: u64)
    requires Canonical(r.evidence) && Current(w, r) && (Bound(r, key, generation) || !Covered(r.dependencies, key))
    ensures Current(Raise(w, key, generation), r)
  {
    hide Covered, Canonical, Find;
    forall e | e in r.evidence
      && Covered(r.dependencies, KeyOf(e)) ensures !BelowWatermark(Raise(w, key, generation), e) {
      assert !BelowWatermark(w, e);
      if KeyOf(e) == key { FindEntry(r.evidence, e); }
    }
  }

  lemma NoticeHolds(rt: Runtime, i: Invalidation, p: string)
    requires Guarded(rt) && p in rt.records
    requires var r' := Invalidate(rt, i).records[p]; Authorizing(r') && r'.generation < U64_MAX
    ensures Current(Invalidate(rt, i).watermarks, Invalidate(rt, i).records[p])
  {
    hide IndexesAgree, Authorizing, Current, Mark, SubjectOf, TargetOf, IndexKeys, Raise, Bound, Candidates,
      DigestsMatch;
    var r := rt.records[p];
    var r' := Invalidate(rt, i).records[p];
    RewrittenFrames(r, r');
    assert r' == r;
    CandidatesCover(rt, TargetOf(i), p);
    SubjectFixesTarget(i);
    if p in Candidates(rt, TargetOf(i)) && !Bound(r, SubjectOf(i), i.generation) { MarkedNotAuthorizing(r); }
    BoundStaysCurrent(rt.watermarks, r, SubjectOf(i), i.generation);
  }

  /** The evidence of a decision that commits is not below any watermark. */
  lemma CommitHolds(rt: Runtime, c: Config, q: CommitRequest)
    requires Guarded(rt)
    ensures WatermarksHold(Commit(rt, c, q).0)
  {
    hide Commit, IndexesAgree, RecordsConsistent, DependenciesOf, Covered, BelowWatermark, Authorizing;
    CommitRecords(rt, c, q);
    if Commit(rt, c, q).1.Committed? { CommittedNotStale(rt, c, q); }
  }

  lemma CommittedNotStale(rt: Runtime, c: Config, q: CommitRequest)
    requires Commit(rt, c, q).1.Committed?
    ensures !StaleEvidence(rt.watermarks, q.evidence)
    ensures q.expected.Some? ==> q.expected.value == CurrentGeneration(rt, q.path.id)
  {
    hide Replays, StaleEvidence, Unfile, Store, NewRecord, RememberAttempt;
  }

  lemma FramedHolds(rt: Runtime, rt': Runtime)
    requires WatermarksHold(rt) && Framed(rt, rt') && rt'.watermarks == rt.watermarks
    ensures WatermarksHold(rt')
  {
    hide Authorizing, Current;
  }

  lemma StepKeepsWatermarks(rt: Runtime, c: Config, s: Step)
    requires !s.Notice?
    ensures Apply(rt, c, s).watermarks == rt.watermarks
  {
    hide RevokedRecord, RetiredRecord, Mark, SameRevocation, Commit, MarkWhere, PublishedBy;
    if s.Decide? { CommitRecords(rt, c, s.request); }
  }

  lemma StepGuarded(rt: Runtime, c: Config, s: Step)
    requires Guarded(rt) && ProperStep(s)
    ensures Guarded(Apply(rt, c, s))
  {
    hide Apply, RecordsConsistent, IndexesAgree, ProperRequest, Framed, Authorizing, Current;
    StepSound(rt, c, s);
    StepAgrees(rt, c, s);
    StepHolds(rt, c, s);
  }

  lemma StepHolds(rt: Runtime, c: Config, s: Step)
    requires Guarded(rt) && ProperStep(s)
    ensures WatermarksHold(Apply(rt, c, s))
  {
    hide Invalidate, Commit, LosePublisher, Revoke, Retire, RecordsConsistent, IndexesAgree, ProperRequest, Framed,
      Current, Authorizing;
    if s.Decide? {
      CommitHolds(rt, c, s.request);
    } else {
      StepFrames(rt, c, s);
      assert Apply(rt, c, s).records.Keys ==
        rt.records.Keys by { assert Framed(rt, Apply(rt, c, s)); FramedKeys(rt, Apply(rt, c, s)); }
      if s.Notice? {
        forall p | p in rt.records && Authorizing(Apply(rt, c, s).records[p])
          && Apply(rt, c, s).records[p].generation < U64_MAX
          ensures Current(Apply(rt, c, s).watermarks, Apply(rt, c, s).records[p]) {
          NoticeHolds(rt, s.invalidation, p);
        }
      } else {
        StepKeepsWatermarks(rt, c, s);
        FramedHolds(rt, Apply(rt, c, s));
      }
    }
  }

  lemma FramedKeys(rt: Runtime, rt': Runtime)
    requires Framed(rt, rt')
    ensures rt'.records.Keys == rt.records.Keys
  {
  }

  lemma {:induction false} RunGuarded(rt: Runtime, c: Config, steps: seq<Step>)
    requires Guarded(rt) && forall s :: s in steps ==> ProperStep(s)
    ensures Guarded(Run(rt, c, steps))
    decreases |steps|
  {
    hide Apply, ProperStep, Guarded;
    if steps != [] {
      assert steps[0] in steps;
      StepGuarded(rt, c, steps[0]);
      RunGuarded(Apply(rt, c, steps[0]), c, steps[1..]);
    }
  }

  lemma EmptyGuarded()
    ensures Guarded(EmptyRuntime())
  {
  }

  // ---- watermarks are the highest announcements ------------------------------------------

  function Announced(steps: seq<Step>, key: Key): Option<u64> {
    if steps == [] then None
    else
      var rest := Announced(steps[1..], key);
      if !steps[0].Notice? || SubjectOf(steps[0].invalidation) != key then rest
      else if rest.Some? && rest.value > steps[0].invalidation.generation then rest
      else Some(steps[0].invalidation.generation)
  }

  function Higher(a: Option<u64>, b: Option<u64>): Option<u64> {
    if a.None? then b else if b.None? || b.value <= a.value then a else b
  }

  function At(w: map<Key, u64>, key: Key): Option<u64> { if key in w then Some(w[key]) else None }

  lemma {:induction false} WatermarkIsHighestAnnouncement(rt: Runtime, c: Config, steps: seq<Step>, key: Key)
    ensures At(Run(rt, c, steps).watermarks, key) == Higher(At(rt.watermarks, key), Announced(steps, key))
    decreases |steps|
  {
    hide Apply, SubjectOf;
    if steps != [] {
      var s := steps[0];
      WatermarkIsHighestAnnouncement(Apply(rt, c, s), c, steps[1..], key);
      if s.Notice? { NoticeRaises(rt, c, s.invalidation); } else { StepKeepsWatermarks(rt, c, s); }
    }
  }

  lemma NoticeRaises(rt: Runtime, c: Config, i: Invalidation)
    ensures Apply(rt, c, Notice(i)).watermarks == Raise(rt.watermarks, SubjectOf(i), i.generation)
  {
    hide TouchAll, Candidates, SubjectOf, TargetOf, Raise;
  }

  lemma {:induction false} AnnouncedIsHighest(steps: seq<Step>, s: Step)
    requires s in steps && s.Notice?
    ensures Announced(steps, SubjectOf(s.invalidation)).Some?
    ensures Announced(steps, SubjectOf(s.invalidation)).value >= s.invalidation.generation
  {
    hide SubjectOf;
    if s != steps[0] { AnnouncedIsHighest(steps[1..], s); }
  }

  /**
   * From an empty runtime, after any interleaving of decisions, invalidations, registrations, revocations and
   * retirements: a record that still authorizes binds, for every evidence subject under which it is filed, a
   * generation no lower than any that was ever announced for that subject.
   */
  lemma AuthorityIsNeverOutdated(c: Config, steps: seq<Step>, p: string, e: EvidenceEntry, announcement: Step)
    requires forall s :: s in steps ==> ProperStep(s)
    requires var rt := Run(EmptyRuntime(), c, steps);
             && p in rt.records && Authorizing(rt.records[p]) && rt.records[p].generation < U64_MAX
             && e in rt.records[p].evidence && Covered(rt.records[p].dependencies, KeyOf(e))
    requires announcement in steps && announcement.Notice? && SubjectOf(announcement.invalidation) == KeyOf(e)
    ensures e.generation >= announcement.invalidation.generation
  {
    hide Run, ProperStep, Covered, SubjectOf, Authorizing, RecordsConsistent;
    var rt := Run(EmptyRuntime(), c, steps);
    EmptyGuarded();
    RunGuarded(EmptyRuntime(), c, steps);
    assert Current(rt.watermarks, rt.records[p]);
    assert !BelowWatermark(rt.watermarks, e);
    WatermarkIsHighestAnnouncement(EmptyRuntime(), c, steps, KeyOf(e));
    AnnouncedIsHighest(steps, announcement);
  }

  // ---- being filed is exactly what protects ------------------------------------------------------

  /**
   * An announcement of another generation for a bound subject marks the record exactly when the record is filed
   * where the announcement looks.
   */
  lemma CoverageDecidesMarking(rt: Runtime, i: Invalidation, p: string, e: EvidenceEntry)
    requires IndexesAgree(rt) && p in rt.records && rt.records[p].generation < U64_MAX
             && Canonical(rt.records[p].evidence)
    requires rt.records[p].state != RevalidationRequired
    requires e in rt.records[p].evidence && KeyOf(e) == SubjectOf(i) && e.generation != i.generation
    ensures Invalidate(rt, i).records[p] != rt.records[p] <==> Covered(rt.records[p].dependencies, KeyOf(e))
  {
    hide IndexesAgree, SubjectOf, TargetOf, IndexKeys, Candidates, Canonical, Find, AuthorityDigestOf;
    FindEntry(rt.records[p].evidence, e);
    CandidatesCover(rt, TargetOf(i), p);
    SubjectFixesTarget(i);
  }

  /** Unfiled evidence: the watermark rises past it and the authority stands. */
  lemma UnfiledEvidenceIsNotProtected(rt: Runtime, i: Invalidation, p: string, e: EvidenceEntry)
    requires IndexesAgree(rt) && p in rt.records && rt.records[p].generation < U64_MAX
             && Canonical(rt.records[p].evidence)
    requires Authorizing(rt.records[p]) && rt.records[p].state != RevalidationRequired
    requires e in rt.records[p].evidence && KeyOf(e) == SubjectOf(i) && e.generation < i.generation
    requires !Covered(rt.records[p].dependencies, KeyOf(e))
    ensures Authorizing(Invalidate(rt, i).records[p]) && BelowWatermark(Invalidate(rt, i).watermarks, e)
  {
    hide IndexesAgree, SubjectOf, TargetOf, IndexKeys, Candidates, Canonical, Covered, TouchAll;
    CoverageDecidesMarking(rt, i, p, e);
  }

  /** A domain that no constraint names is not filed, although its generation is bound through a membership. */
  lemma UnnamedDomainIsNotFiled(d: Dependencies, domain: string)
    ensures Covered(d, (FailureDomain, DomainSubject(domain))) <==> domain in d.domains && domain != ""
  {
    assert DomainSubject(domain)[..7] == "domain:" && DomainSubject(domain)[7..] == domain;
    assert domain in d.domains && domain != "" ==> IndexKey(DomainIndex, domain) in IndexKeys(d);
  }

  /**
   * Constraint evidence is bound under "self" and announced under the set's id: the announcement spares a record
   * exactly when the id is "self" itself and the record binds that generation. It marks all the others, those with
   * the announced generation and those of other sets included.
   */
  lemma ConstraintNoticeMarksEverything(rt: Runtime, id: string, generation: u64, p: string)
    requires p in rt.records && forall e :: e in rt.records[p].evidence && e.kind == Constraints ==> e.subject == SELF
    requires rt.records[p].generation < U64_MAX && rt.records[p].state != RevalidationRequired
    ensures Invalidate(rt, OfConstraints(id, generation)).records[p] == rt.records[p]
            <==> id == SELF && Bound(rt.records[p], (Constraints, SELF), generation)
    ensures Invalidate(rt, OfConstraints(id, generation)).records[p] in {rt.records[p], Mark(rt.records[p])}
  {
    hide AuthorityDigestOf;
    FindSome(rt.records[p].evidence, (Constraints, id));
  }
}
