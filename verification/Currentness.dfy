/** query: the evidence as it is now, against the evidence a record is bound to. */
module Currentness {
  import opened Base
  import opened Model
  import opened Evidence
  import opened RuntimeState
  import opened RuntimeRuns
  import opened Views
  import opened Findings
  import opened Reads
  import opened Publication
  import opened Evaluation
  import Rules

  // ---- vectors are determined by the last value of every key ------------------------------------

  function KeySet(es: seq<EvidenceEntry>): set<Key> { set e | e in es :: KeyOf(e) }

  predicate SubjectsFit(es: seq<EvidenceEntry>, limits: Limits) {
    forall e :: e in es ==> |e.subject| <= limits.maxIdLength + 32
  }

  lemma {:induction false} PutSize(es: seq<EvidenceEntry>, e: EvidenceEntry)
    requires Canonical(es)
    ensures |Put(es, e)| == |es| + if Find(es, KeyOf(e)).Some? then 0 else 1
    ensures KeySet(Put(es, e)) == KeySet(es) + {KeyOf(e)}
  {
    if es != [] {
      CanonicalTail(es);
      KeyLessTotal(KeyOf(es[0]), KeyOf(e));
      assert KeySet(es) == {KeyOf(es[0])} + KeySet(es[1..]) by { assert es == [es[0]] + es[1..]; }
      if Less(es[0], e) {
        PutSize(es[1..], e);
        KeySetPrepend(es[0], Put(es[1..], e));
      } else if KeyOf(es[0]) == KeyOf(e) {
        KeySetPrepend(e, es[1..]);
      } else {
        AbsentBelow(es, KeyOf(e));
        KeySetPrepend(e, es);
      }
    }
  }

  lemma KeySetPrepend(e: EvidenceEntry, es: seq<EvidenceEntry>)
    ensures KeySet([e] + es) == {KeyOf(e)} + KeySet(es)
  {
  }

  lemma FindIsKeySet(es: seq<EvidenceEntry>, k: Key)
    ensures Find(es, k).Some? <==> k in KeySet(es)
  {
    FindSome(es, k);
  }

  /** A run of set calls overflows exactly when a subject is too long or there are too many distinct subjects. */
  lemma {:induction false} OverflowMeaning(es: seq<EvidenceEntry>, updates: seq<EvidenceEntry>, limits: Limits)
    requires Canonical(es) && |es| == |KeySet(es)| && |es| <= limits.maxDependenciesPerPath
    ensures !SetAll(es, updates, limits).1
            <==> SubjectsFit(updates, limits) && |KeySet(es) + KeySet(updates)| <= limits.maxDependenciesPerPath
    decreases |updates|
  {
    hide Canonical, Put, Find, KeySet;
    if updates == [] {
      assert KeySet(es) + KeySet([]) == KeySet(es) by { KeySetEmpty(); }
    } else {
      var e := updates[0];
      FindIsKeySet(es, KeyOf(e));
      PutSize(es, e);
      PutCanonical(es, e);
      assert updates == [e] + updates[1..];
      KeySetPrepend(e, updates[1..]);
      assert KeySet(es) + KeySet(updates) == KeySet(es) + {KeyOf(e)} + KeySet(updates[1..]);
      if Fits(es, e, limits) {
        OverflowMeaning(Put(es, e), updates[1..], limits);
      } else if |e.subject| <= limits.maxIdLength + 32 {
        Larger(KeySet(es) + {KeyOf(e)}, KeySet(es) + KeySet(updates));
      }
    }
  }

  lemma KeySetEmpty()
    ensures KeySet([]) == {}
  {
  }

  lemma Larger(a: set<Key>, b: set<Key>)
    requires a <= b
    ensures |a| <= |b|
  {
    assert b == a + (b - a);
  }

  lemma {:induction false} LastSetIsKeySet(updates: seq<EvidenceEntry>, k: Key)
    ensures LastSet(updates, k).Some? <==> k in KeySet(updates)
  {
    if updates != [] {
      LastSetIsKeySet(updates[1..], k);
      assert updates == [updates[0]] + updates[1..];
      KeySetPrepend(updates[0], updates[1..]);
    }
  }

  lemma SubjectsFitIsKeySet(updates: seq<EvidenceEntry>, limits: Limits)
    ensures SubjectsFit(updates, limits) <==> forall k :: k in KeySet(updates) ==> |k.1| <= limits.maxIdLength + 32
  {
    forall e | e in updates ensures KeyOf(e) in KeySet(updates) {}
  }

  /** Runs of set calls that leave the same map overflow together, and without overflow leave the same vector. */
  lemma SameMapSameVector(a: seq<EvidenceEntry>, b: seq<EvidenceEntry>, limits: Limits)
    requires forall k :: LastSet(a, k) == LastSet(b, k)
    ensures SetAll([], a, limits).1 == SetAll([], b, limits).1
    ensures !SetAll([], a, limits).1 ==> SetAll([], a, limits).0 == SetAll([], b, limits).0
  {
    hide KeySet, SubjectsFit, LastSet;
    forall k ensures k in KeySet(a) <==> k in KeySet(b) {
      LastSetIsKeySet(a, k);
      LastSetIsKeySet(b, k);
      assert LastSet(a, k) == LastSet(b, k);
    }
    assert KeySet(a) == KeySet(b);
    SubjectsFitIsKeySet(a, limits);
    SubjectsFitIsKeySet(b, limits);
    KeySetEmpty();
    OverflowMeaning([], a, limits);
    OverflowMeaning([], b, limits);
    if !SetAll([], a, limits).1 {
      SetAllWithoutOverflow([], a, limits);
      SetAllWithoutOverflow([], b, limits);
      SetOrderIrrelevant(a, b);
    }
  }

  lemma {:induction false} LastSetAppend(a: seq<EvidenceEntry>, b: seq<EvidenceEntry>, k: Key)
    ensures LastSet(a + b, k) == if LastSet(b, k).Some? then LastSet(b, k) else LastSet(a, k)
  {
    if a == [] {
      assert a + b == b;
    } else {
      assert (a + b)[0] == a[0] && (a + b)[1..] == a[1..] + b;
      LastSetAppend(a[1..], b, k);
    }
  }

  predicate NoneOfKind(es: seq<EvidenceEntry>, kind: EvidenceKind) { forall e :: e in es ==> e.kind != kind }

  lemma LastSetOther(es: seq<EvidenceEntry>, k: Key)
    requires NoneOfKind(es, k.0)
    ensures LastSet(es, k) == None
  {
    LastSetIsKeySet(es, k);
  }

  lemma {:induction false} EachOther<T>(xs: seq<T>, f: T -> seq<EvidenceEntry>, kind: EvidenceKind)
    requires forall x :: x in xs ==> NoneOfKind(f(x), kind)
    ensures NoneOfKind(Each(xs, f), kind)
  {
    if xs != [] { EachOther(xs[1..], f, kind); }
  }

  /** Parts of a loop body that are of other kinds do not matter to a key. */
  lemma {:induction false} EachLastSet<T>(xs: seq<T>, f: T -> seq<EvidenceEntry>, g: T -> seq<EvidenceEntry>, k: Key)
    requires forall x :: x in xs ==> LastSet(f(x), k) == LastSet(g(x), k)
    ensures LastSet(Each(xs, f), k) == LastSet(Each(xs, g), k)
  {
    hide LastSet;
    if xs != [] {
      EachLastSet(xs[1..], f, g, k);
      LastSetAppend(f(xs[0]), Each(xs[1..], f), k);
      LastSetAppend(g(xs[0]), Each(xs[1..], g), k);
    }
  }

  // ---- current_evidence ------------------------------------------------------------------------------

  function CurrentScalars(rt: Runtime, w: World, setId: string): seq<EvidenceEntry> {
    [EvidenceEntry(Epoch, SELF, w.epoch), EvidenceEntry(Policy, SELF, w.policy.generation),
     EvidenceEntry(Topology, SELF, w.views.topologyGeneration),
     EvidenceEntry(Constraints, SELF, if setId in rt.sets then rt.sets[setId].generation else 0)]
  }

  function CurrentElementReads(v: Views, e: ElementRef): seq<EvidenceEntry> {
    ElementReads(v, e) + LinkReads(v, e) + PortReads(v, e)
  }

  /**
   * The set calls of current_evidence. Membership keys start with "member", which is no element kind, so that
   * loop skips every one of them; underlying paths are not looked at.
   */
  function CurrentReads(rt: Runtime, w: World, r: Record): seq<EvidenceEntry> {
    CurrentScalars(rt, w, r.definition.constraintSet)
    + Each(r.dependencies.elements, e => CurrentElementReads(w.views, e))
    + Each(r.dependencies.capabilities, c => CapabilityReads(w.views, c))
    + Each(r.dependencies.domains, d => DomainReads(w.views, d))
  }

  function CurrentEvidence(rt: Runtime, w: World, r: Record, limits: Limits): seq<EvidenceEntry> {
    SetAll([], CurrentReads(rt, w, r), limits).0
  }

  predicate SettledState(s: AuthorityState) {
    s.Authorized? || s.ConditionallyAuthorized? || s.Rejected? || s.Revoked? || s.Retired?
  }

  /** The stale dependencies and the current flag of a snapshot. */
  function StaleDependencies(rt: Runtime, w: World, r: Record, limits: Limits): seq<Delta> {
    MergeDiff(r.evidence, CurrentEvidence(rt, w, r, limits))
  }

  predicate IsCurrent(rt: Runtime, w: World, r: Record, limits: Limits) {
    StaleDependencies(rt, w, r, limits) == [] && SettledState(r.state)
  }

  /** One set call whose refusal is ignored. */
  method SetIgnoring(v: EvidenceVector, ghost calls: seq<EvidenceEntry>, e: EvidenceEntry, limits: Limits)
    requires v.entries == SetAll([], calls, limits).0 && Canonical(v.entries)
    modifies v
    ensures v.entries == SetAll([], calls + [e], limits).0 && Canonical(v.entries)
  {
    hide Fits, Put, Canonical;
    SetAllAppend([], calls, [e], limits);
    assert [e][1..] == [];
    var _ := v.Set(e.kind, e.subject, e.generation, limits);
  }

  method SetElement(v: EvidenceVector, ghost calls: seq<EvidenceEntry>, views: Views, e: ElementRef, limits: Limits)
    requires v.entries == SetAll([], calls, limits).0 && Canonical(v.entries)
    modifies v
    ensures v.entries == SetAll([], calls + CurrentElementReads(views, e), limits).0 && Canonical(v.entries)
  {
    hide SetAll, Canonical, ElementKey, ElementGeneration, LinkGeneration, PortGeneration;
    ghost var sofar := calls + ElementReads(views, e);
    SetIgnoring(v, calls, EvidenceEntry(StructuralElement, ElementKey(e), ElementGeneration(views, e)), limits);
    if e.kind == Link {
      SetIgnoring(v, sofar, EvidenceEntry(LinkStateKind, ElementKey(e), LinkGeneration(views, e.id)), limits);
      sofar := sofar + LinkReads(views, e);
    }
    if e.kind == Port {
      SetIgnoring(v, sofar, EvidenceEntry(PortConfig, ElementKey(e), PortGeneration(views, e.id)), limits);
      sofar := sofar + PortReads(views, e);
    }
    assert sofar == calls + CurrentElementReads(views, e);
  }

  /** current_evidence: scalars, then elements, capabilities and named domains of the record. */
  method ReadCurrentEvidence(rt: Runtime, w: World, r: Record, limits: Limits) returns (evidence: seq<EvidenceEntry>)
    ensures evidence == CurrentEvidence(rt, w, r, limits)
  {
    hide SetAll, Canonical, Each, CurrentElementReads, CapabilityReads, DomainReads;
    var v := new EvidenceVector();
    assert v.entries == SetAll([], [], limits).0 && Canonical(v.entries) by { NothingSet(limits); }
    var scalars := CurrentScalars(rt, w, r.definition.constraintSet);
    SetIgnoring(v, [], scalars[0], limits);
    SetIgnoring(v, [] + [scalars[0]], scalars[1], limits);
    SetIgnoring(v, [] + [scalars[0]] + [scalars[1]], scalars[2], limits);
    SetIgnoring(v, [] + [scalars[0]] + [scalars[1]] + [scalars[2]], scalars[3], limits);
    assert [] + [scalars[0]] + [scalars[1]] + [scalars[2]] + [scalars[3]] == scalars;
    ghost var f: ElementRef -> seq<EvidenceEntry> := e => CurrentElementReads(w.views, e);
    ghost var g: ((string, string)) -> seq<EvidenceEntry> := c => CapabilityReads(w.views, c);
    ghost var h: string -> seq<EvidenceEntry> := d => DomainReads(w.views, d);
    ghost var start := scalars;
    NoRounds(start, r.dependencies.elements, f);
    for k := 0 to |r.dependencies.elements|
      invariant v.entries == SetAll([], start + Each(r.dependencies.elements[..k], f), limits).0 && Canonical(v.entries)
    {
      SetElement(v, start + Each(r.dependencies.elements[..k], f), w.views, r.dependencies.elements[k], limits);
      Round(start, r.dependencies.elements, k, f);
    }
    start := start + Each(r.dependencies.elements, f);
    NoRounds(start, r.dependencies.capabilities, g);
    for k := 0 to |r.dependencies.capabilities|
      invariant v.entries == SetAll([], start + Each(r.dependencies.capabilities[..k], g), limits).0
                && Canonical(v.entries)
    {
      var c := r.dependencies.capabilities[k];
      Round(start, r.dependencies.capabilities, k, g);
      OneCapability(w.views, c);
      SetIgnoring(v, start + Each(r.dependencies.capabilities[..k], g),
        EvidenceEntry(Capability, CapabilityKey(c.0, c.1), CapabilityGeneration(w.views, c)), limits);
    }
    start := start + Each(r.dependencies.capabilities, g);
    NoRounds(start, r.dependencies.domains, h);
    for k := 0 to |r.dependencies.domains|
      invariant v.entries == SetAll([], start + Each(r.dependencies.domains[..k], h), limits).0 && Canonical(v.entries)
    {
      var d := r.dependencies.domains[k];
      Round(start, r.dependencies.domains, k, h);
      OneDomain(w.views, d);
      SetIgnoring(v, start + Each(r.dependencies.domains[..k], h),
        EvidenceEntry(FailureDomain, DomainSubject(d), DomainGeneration(w.views, d)), limits);
    }
    evidence := v.entries;
  }

  lemma NothingSet(limits: Limits)
    ensures SetAll([], [], limits).0 == [] && Canonical([])
  {
  }

  lemma OneCapability(v: Views, c: (string, string))
    ensures CapabilityReads(v, c) == [EvidenceEntry(Capability, CapabilityKey(c.0, c.1), CapabilityGeneration(v, c))]
  {
  }

  lemma OneDomain(v: Views, d: string)
    ensures DomainReads(v, d) == [EvidenceEntry(FailureDomain, DomainSubject(d), DomainGeneration(v, d))]
  {
  }

  /** query: the stale dependencies of a record, and whether it is current. */
  method Query(rt: Runtime, w: World, r: Record, limits: Limits) returns (deltas: seq<Delta>, current: bool)
    ensures deltas == StaleDependencies(rt, w, r, limits) && current == IsCurrent(rt, w, r, limits)
  {
    hide CurrentEvidence, MergeDiff;
    var now := ReadCurrentEvidence(rt, w, r, limits);
    deltas := DiffEvidence(r.evidence, now);
    current := deltas == [] && SettledState(r.state);
  }

  // ---- evaluation and query agree ------------------------------------------------------------------------

  /** No underlying path and no failure-domain rule of the set or the policy. */
  predicate PlainPath(i: Inputs) {
    i.path.underlying.None? && i.constraints.failureDomains == [] && i.policy.forbiddenDomainClasses == []
  }

  predicate SameView(i: Inputs, rt: Runtime, w: World) {
    && i.views == w.views && i.policy == w.policy && i.epoch == w.epoch
    && i.path.constraintSet in rt.sets && rt.sets[i.path.constraintSet] == i.constraints
  }

  lemma NothingOfNothing<T>(xs: seq<T>, ys: seq<T>)
    requires forall x :: x in xs ==> x in ys
    ensures ys == [] ==> xs == []
  {
    if xs != [] { assert xs[0] in xs; }
  }

  lemma PlainRules(i: Inputs)
    requires PlainPath(i)
    ensures i.Effective().failureDomains == [] && i.Effective().forbiddenClasses == []
    ensures UnderlyingReads(i) == [] && Asked(i) == []
  {
    hide Rules.CombineRules, RefsOf;
    var rules := i.Effective();
    Rules.RulesKeepEveryRequirement(i.constraints, i.policy, i.limits, rules);
    NothingOfNothing(rules.failureDomains, i.constraints.failureDomains);
    NothingOfNothing(rules.forbiddenClasses, i.policy.forbiddenDomainClasses);
  }

  lemma PlainDependencies(i: Inputs, sets: map<string, ConstraintSet>)
    requires PlainPath(i) && i.path.constraintSet in sets && sets[i.path.constraintSet] == i.constraints
    ensures var d := DependenciesOf(i.path, sets, i.policy, i.limits);
            d.elements == RefsOf(i.path.hops) && d.capabilities == CapabilityPairs(i.Effective().capabilities)
              && d.domains == []
  {
    hide Rules.CombineRules, RefsOf, CapabilityPairs;
    PlainRules(i);
  }

  /** The reads of a plain evaluation. */
  function PlainReads(i: Inputs): seq<EvidenceEntry> {
    ScalarReads(i)
    + Each(RefsOf(i.path.hops), e => ElementReads(i.views, e))
    + Each(RefsOf(i.path.hops), e => PortReads(i.views, e))
    + Each(RefsOf(i.path.hops), e => LinkReads(i.views, e))
    + Each(CapabilityPairs(i.Effective().capabilities), c => CapabilityReads(i.views, c))
  }

  lemma PlainReadsAreAll(i: Inputs)
    requires PlainPath(i)
    ensures AllReads(i) == PlainReads(i)
  {
    hide Rules.CombineRules, RefsOf, CapabilityPairs, ScalarReads, UnderlyingReads, Asked;
    PlainRules(i);
    assert FirstAsked(Asked(i), {}) == [];
    assert Each([], e => MembershipReads(i, e)) == [];
  }

  lemma OneElement(v: Views, e: ElementRef, k: Key)
    ensures NoneOfKind(ElementReads(v, e), PortConfig) && NoneOfKind(ElementReads(v, e), LinkStateKind)
    ensures NoneOfKind(PortReads(v, e), StructuralElement) && NoneOfKind(PortReads(v, e), LinkStateKind)
    ensures NoneOfKind(LinkReads(v, e), StructuralElement) && NoneOfKind(LinkReads(v, e), PortConfig)
    ensures k.0 == StructuralElement ==> LastSet(CurrentElementReads(v, e), k) == LastSet(ElementReads(v, e), k)
    ensures k.0 == PortConfig ==> LastSet(CurrentElementReads(v, e), k) == LastSet(PortReads(v, e), k)
    ensures k.0 == LinkStateKind ==> LastSet(CurrentElementReads(v, e), k) == LastSet(LinkReads(v, e), k)
    ensures forall kind :: kind != StructuralElement && kind != PortConfig && kind != LinkStateKind
                           ==> NoneOfKind(CurrentElementReads(v, e), kind)
    ensures forall kind :: kind != StructuralElement ==> NoneOfKind(ElementReads(v, e), kind)
    ensures forall kind :: kind != PortConfig ==> NoneOfKind(PortReads(v, e), kind)
    ensures forall kind :: kind != LinkStateKind ==> NoneOfKind(LinkReads(v, e), kind)
  {
    hide LastSet, ElementKey, ElementGeneration, PortGeneration, LinkGeneration;
    var a, b, c := ElementReads(v, e), LinkReads(v, e), PortReads(v, e);
    LastSetAppend(a + b, c, k);
    LastSetAppend(a, b, k);
    if k.0 != StructuralElement { LastSetOther(a, k); }
    if k.0 != LinkStateKind { LastSetOther(b, k); }
    if k.0 != PortConfig { LastSetOther(c, k); }
  }

  /** Reading element by element, or the elements, then the ports, then the links, leaves the same map. */
  lemma ElementOrder(v: Views, refs: seq<ElementRef>, k: Key)
    ensures LastSet(Each(refs, e => CurrentElementReads(v, e)), k) ==
            LastSet(Each(refs, e => ElementReads(v, e)) + Each(refs, e => PortReads(v, e))
              + Each(refs, e => LinkReads(v, e)), k)
  {
    hide LastSet, Each, ElementReads, PortReads, LinkReads, CurrentElementReads, NoneOfKind;
    var es: ElementRef -> seq<EvidenceEntry> := e => ElementReads(v, e);
    var ps: ElementRef -> seq<EvidenceEntry> := e => PortReads(v, e);
    var ls: ElementRef -> seq<EvidenceEntry> := e => LinkReads(v, e);
    var cs: ElementRef -> seq<EvidenceEntry> := e => CurrentElementReads(v, e);
    LastSetAppend(Each(refs, es) + Each(refs, ps), Each(refs, ls), k);
    LastSetAppend(Each(refs, es), Each(refs, ps), k);
    forall e
      ensures k.0 == StructuralElement ==> LastSet(cs(e), k) == LastSet(es(e), k)
      ensures k.0 == PortConfig ==> LastSet(cs(e), k) == LastSet(ps(e), k)
      ensures k.0 == LinkStateKind ==> LastSet(cs(e), k) == LastSet(ls(e), k)
      ensures k.0 != StructuralElement ==> NoneOfKind(es(e), k.0)
      ensures k.0 != PortConfig ==> NoneOfKind(ps(e), k.0)
      ensures k.0 != LinkStateKind ==> NoneOfKind(ls(e), k.0)
      ensures k.0 != StructuralElement && k.0 != PortConfig && k.0 != LinkStateKind ==> NoneOfKind(cs(e), k.0)
    {
      OneElement(v, e, k);
    }
    if k.0 == StructuralElement {
      EachLastSet(refs, cs, es, k);
    } else {
      EachOther(refs, es, k.0);
      LastSetOther(Each(refs, es), k);
    }
    if k.0 == PortConfig {
      EachLastSet(refs, cs, ps, k);
    } else {
      EachOther(refs, ps, k.0);
      LastSetOther(Each(refs, ps), k);
    }
    if k.0 == LinkStateKind {
      EachLastSet(refs, cs, ls, k);
    } else {
      EachOther(refs, ls, k.0);
      LastSetOther(Each(refs, ls), k);
    }
    if k.0 != StructuralElement && k.0 != PortConfig && k.0 != LinkStateKind {
      EachOther(refs, cs, k.0);
      LastSetOther(Each(refs, cs), k);
    }
  }

  lemma ScalarOrder(i: Inputs, rt: Runtime, w: World, k: Key)
    requires SameView(i, rt, w)
    ensures LastSet(CurrentScalars(rt, w, i.path.constraintSet), k) == LastSet(ScalarReads(i), k)
  {
    var a, b := CurrentScalars(rt, w, i.path.constraintSet), ScalarReads(i);
    var t, p := EvidenceEntry(Topology, SELF, w.views.topologyGeneration),
      EvidenceEntry(Constraints, SELF, i.constraints.generation);
    assert a == a[..2] + [t, p] && b == a[..2] + [p, t];
    LastSetAppend(a[..2], [t, p], k);
    LastSetAppend(a[..2], [p, t], k);
    assert [t, p][1..] == [p] && [p][1..] == [] && [p, t][1..] == [t] && [t][1..] == [];
  }

  /** The reads of the evaluation and of the query leave the same map. */
  lemma SameReads(i: Inputs, rt: Runtime, w: World, r: Record, k: Key)
    requires PlainPath(i) && SameView(i, rt, w) && r.definition == i.path
    requires r.dependencies.elements == RefsOf(i.path.hops) && r.dependencies.domains == []
    requires r.dependencies.capabilities == CapabilityPairs(i.Effective().capabilities)
    ensures LastSet(CurrentReads(rt, w, r), k) == LastSet(PlainReads(i), k)
  {
    hide LastSet, Each, Rules.CombineRules, RefsOf, CapabilityPairs, ScalarReads, CurrentScalars, ElementReads,
      PortReads, LinkReads, CurrentElementReads, CapabilityReads, DomainReads;
    var refs := RefsOf(i.path.hops);
    var caps := Each(CapabilityPairs(i.Effective().capabilities), c => CapabilityReads(i.views, c));
    var es := Each(refs, e => ElementReads(i.views, e));
    var ps := Each(refs, e => PortReads(i.views, e));
    var ls := Each(refs, e => LinkReads(i.views, e));
    var mixed := Each(refs, e => CurrentElementReads(w.views, e));
    var scalars, now := ScalarReads(i), CurrentScalars(rt, w, i.path.constraintSet);
    assert Each([], d => DomainReads(w.views, d)) == [] by { NothingRead(w.views); }
    assert CurrentReads(rt, w, r) == now + mixed + caps;
    assert PlainReads(i) == scalars + (es + ps + ls) + caps;
    LastSetAppend(now + mixed, caps, k);
    LastSetAppend(now, mixed, k);
    LastSetAppend(scalars + (es + ps + ls), caps, k);
    LastSetAppend(scalars, es + ps + ls, k);
    ScalarOrder(i, rt, w, k);
    ElementOrder(i.views, refs, k);
  }

  lemma NothingRead(v: Views)
    ensures Each([], d => DomainReads(v, d)) == []
  {
  }

  /** A query rebuilds exactly the evidence that the evaluation of a plain path bound. */
  lemma QueryRebuildsEvidence(i: Inputs, rt: Runtime, w: World, r: Record)
    requires PlainPath(i) && SameView(i, rt, w) && !Overflows(i)
    requires r.definition == i.path && r.dependencies == DependenciesOf(i.path, rt.sets, i.policy, i.limits)
    ensures CurrentEvidence(rt, w, r, i.limits) == EvidenceOf(i)
  {
    hide SetAll, LastSet, CurrentReads, PlainReads, AllReads, DependenciesOf, Rules.CombineRules, RefsOf,
      CapabilityPairs;
    PlainReadsAreAll(i);
    PlainDependencies(i, rt.sets);
    forall k ensures LastSet(CurrentReads(rt, w, r), k) == LastSet(PlainReads(i), k) { SameReads(i, rt, w, r, k); }
    SameMapSameVector(CurrentReads(rt, w, r), PlainReads(i), i.limits);
  }

  /** What evaluate leaves on record when it commits. */
  lemma CommittedRecord(rt: Runtime, c: Config, w: World, p: PathDefinition, request: EvaluationRequest)
    requires Usable(rt, w) && Evaluate(rt, c, w, p, request).1.committed
    ensures p.constraintSet in rt.sets && ResolveUnderlying(rt, p, c.limits).Some?
    ensures var rt' := Evaluate(rt, c, w, p, request).0;
            && rt'.sets == rt.sets && p.id in rt'.records && rt'.records[p.id].definition == p
            && rt'.records[p.id].evidence ==
                 EvidenceOf(InputsFor(rt, c.limits, w, p, ResolveUnderlying(rt, p, c.limits).value))
            && rt'.records[p.id].dependencies == DependenciesOf(p, rt.sets, w.policy, c.limits)
  {
    hide PrepareEvaluate, Commit, DependenciesOf, EvidenceOf, ProperRequest, ResolveUnderlying, InputsFor, Usable,
      Checked;
    EvaluateIsChecked(rt, c, w, p, request);
    QueryPolicy(rt, c, w, p, request);
    CommitRecords(rt, c, PrepareEvaluate(rt, c, w, p, request).request);
  }

  /**
   * Right after evaluate commits a plain path as authorized, conditionally authorized or rejected, a query of it
   * is current and has no stale dependency.
   */
  lemma CommittedIsCurrent(rt: Runtime, c: Config, w: World, p: PathDefinition, request: EvaluationRequest)
    requires Usable(rt, w) && Evaluate(rt, c, w, p, request).1.committed
    requires p.constraintSet in rt.sets && ResolveUnderlying(rt, p, c.limits).Some?
    requires var i := InputsFor(rt, c.limits, w, p, ResolveUnderlying(rt, p, c.limits).value);
             PlainPath(i) && !Overflows(i)
    requires p.id in Evaluate(rt, c, w, p, request).0.records
    requires SettledState(Evaluate(rt, c, w, p, request).0.records[p.id].state)
    ensures var rt' := Evaluate(rt, c, w, p, request).0;
            StaleDependencies(rt', w, rt'.records[p.id], c.limits) == []
              && IsCurrent(rt', w, rt'.records[p.id], c.limits)
  {
    hide Evaluate, DependenciesOf, EvidenceOf, Overflows, CurrentEvidence, MergeDiff, ResolvePeers, ResolveUnderlying,
      SettledState, Canonical, Usable, PlainPath;
    CommittedRecord(rt, c, w, p, request);
    var i := InputsFor(rt, c.limits, w, p, ResolveUnderlying(rt, p, c.limits).value);
    var rt' := Evaluate(rt, c, w, p, request).0;
    QueryRebuildsEvidence(i, rt', w, rt'.records[p.id]);
    EvidenceCanonical(i);
    DiffIsExact(EvidenceOf(i), EvidenceOf(i));
  }

  lemma QueryPolicy(rt: Runtime, c: Config, w: World, p: PathDefinition, request: EvaluationRequest)
    requires Usable(rt, w) && PrepareEvaluate(rt, c, w, p, request).Ready?
    ensures PrepareEvaluate(rt, c, w, p, request).request.policy == w.policy
  {
    hide DecisionOf, ResolveUnderlying, ResolvePeers, EvaluateRefusal, InputDigestOf, ConstraintDigestOf,
      PathDigestOf;
  }

  /** At any later time a plain record is current exactly when an evaluation then would bind the very same evidence. */
  lemma CurrentMeansSameEvidence(i: Inputs, rt: Runtime, w: World, r: Record)
    requires PlainPath(i) && SameView(i, rt, w) && !Overflows(i) && Canonical(r.evidence)
    requires r.definition == i.path && r.dependencies == DependenciesOf(i.path, rt.sets, i.policy, i.limits)
    ensures IsCurrent(rt, w, r, i.limits) <==> SettledState(r.state) && r.evidence == EvidenceOf(i)
  {
    hide DependenciesOf, EvidenceOf, Overflows, CurrentEvidence, MergeDiff, SettledState, Canonical, PlainPath;
    QueryRebuildsEvidence(i, rt, w, r);
    EvidenceCanonical(i);
    DiffIsExact(r.evidence, EvidenceOf(i));
  }

  lemma EmptyCanonical()
    ensures Canonical([])
  {
  }
}
