/** What each content digest covers: when two sets, policies, paths, inputs or decisions have the same digest. */
module Digests {
  import opened Base
  import opened Model
  import opened Evidence
  import opened RuntimeState
  import Rules
  import Requirements

  // ---- lists up to the order that a digest does not see ---------------------------------------------

  /** The same members, those that the order does not tell apart in the same order. */
  ghost predicate SameList<T(!new)>(xs: seq<T>, ys: seq<T>, less: (T, T) -> bool) {
    forall e :: Rules.Alike(xs, e, less) == Rules.Alike(ys, e, less)
  }

  lemma {:induction false} AlikeMembers<T(!new)>(xs: seq<T>, e: T, less: (T, T) -> bool)
    ensures forall x :: x in Rules.Alike(xs, e, less) <==> x in xs && !less(x, e) && !less(e, x)
  {
    if xs != [] {
      AlikeMembers(xs[1..], e, less);
      assert forall x :: x in xs <==> x == xs[0] || x in xs[1..];
    }
  }

  lemma AlikeCons<T(!new)>(xs: seq<T>, e: T, less: (T, T) -> bool)
    requires xs != [] && !less(xs[0], e) && !less(e, xs[0])
    ensures Rules.Alike(xs, e, less) == [xs[0]] + Rules.Alike(xs[1..], e, less)
  {
  }

  /** A sorted list starts with a member that nothing in a list of the same members comes before. */
  lemma SameHead<T(!new)>(a: seq<T>, b: seq<T>, less: (T, T) -> bool)
    requires Rules.WeakOrder(less) && Rules.Sorted(a, less) && Rules.Sorted(b, less) && SameList(a, b, less)
    requires a != []
    ensures b != [] && a[0] == b[0]
  {
    hide Rules.Alike;
    AlikeMembers(a, a[0], less);
    AlikeMembers(b, a[0], less);
    assert Rules.Alike(a, a[0], less) == Rules.Alike(b, a[0], less);
    assert a[0] in Rules.Alike(b, a[0], less);
    AlikeMembers(a, b[0], less);
    AlikeMembers(b, b[0], less);
    assert Rules.Alike(a, b[0], less) == Rules.Alike(b, b[0], less);
    assert b[0] in Rules.Alike(a, b[0], less);
    var j :| 0 <= j < |b| && b[j] == a[0];
    var k :| 0 <= k < |a| && a[k] == b[0];
    assert !less(a[0], b[0]) && !less(b[0], a[0]);
    AlikeCons(a, a[0], less);
    AlikeCons(b, a[0], less);
    assert Rules.Alike(a, a[0], less)[0] == a[0] && Rules.Alike(b, a[0], less)[0] == b[0];
  }

  lemma SameTails<T(!new)>(a: seq<T>, b: seq<T>, less: (T, T) -> bool)
    requires a != [] && b != [] && a[0] == b[0] && SameList(a, b, less)
    ensures SameList(a[1..], b[1..], less)
  {
    forall e ensures Rules.Alike(a[1..], e, less) == Rules.Alike(b[1..], e, less) {
      assert Rules.Alike(a, e, less) == Rules.Alike(b, e, less);
      if !less(a[0], e) && !less(e, a[0]) {
        AlikeCons(a, e, less);
        AlikeCons(b, e, less);
        assert Rules.Alike(a[1..], e, less) == Rules.Alike(a, e, less)[1..];
        assert Rules.Alike(b[1..], e, less) == Rules.Alike(b, e, less)[1..];
      } else {
        assert [] + Rules.Alike(a[1..], e, less) == Rules.Alike(a[1..], e, less);
        assert [] + Rules.Alike(b[1..], e, less) == Rules.Alike(b[1..], e, less);
      }
    }
  }

  lemma {:induction false} SortedIsFixed<T(!new)>(a: seq<T>, b: seq<T>, less: (T, T) -> bool)
    requires Rules.WeakOrder(less) && Rules.Sorted(a, less) && Rules.Sorted(b, less) && SameList(a, b, less)
    ensures a == b
  {
    hide Rules.Alike, Rules.WeakOrder, Rules.Sorted, SameList;
    if a != [] {
      SameHead(a, b, less);
      SameTails(a, b, less);
      Rules.SortedRest(a, less);
      Rules.SortedRest(b, less);
      SortedIsFixed(a[1..], b[1..], less);
      assert a == [a[0]] + a[1..] && b == [b[0]] + b[1..];
    } else if b != [] {
      SameListTurns(a, b, less);
      SameHead(b, a, less);
    }
  }

  lemma SameListTurns<T(!new)>(a: seq<T>, b: seq<T>, less: (T, T) -> bool)
    requires SameList(a, b, less)
    ensures SameList(b, a, less)
  {
    hide Rules.Alike;
  }

  /** The stable sort of two lists is the same exactly when they are the same up to the order it sorts by. */
  lemma SortsAgreeExactly<T(!new)>(xs: seq<T>, ys: seq<T>, less: (T, T) -> bool)
    requires Rules.WeakOrder(less)
    ensures Rules.StableSort(xs, less) == Rules.StableSort(ys, less) <==> SameList(xs, ys, less)
  {
    hide Rules.Alike, Rules.StableSort, Rules.WeakOrder, Rules.Sorted;
    forall e
      ensures Rules.Alike(Rules.StableSort(xs, less), e, less) == Rules.Alike(xs, e, less)
      ensures Rules.Alike(Rules.StableSort(ys, less), e, less) == Rules.Alike(ys, e, less)
    {
      Rules.SortIsStable(xs, e, less);
      Rules.SortIsStable(ys, e, less);
    }
    if SameList(xs, ys, less) {
      Rules.SortSorts(xs, less);
      Rules.SortSorts(ys, less);
      assert SameList(Rules.StableSort(xs, less), Rules.StableSort(ys, less), less);
      SortedIsFixed(Rules.StableSort(xs, less), Rules.StableSort(ys, less), less);
    }
  }

  /** Such lists have the same members; and where the order tells members apart, that is enough. */
  lemma SameListMembers<T(!new)>(xs: seq<T>, ys: seq<T>, less: (T, T) -> bool)
    requires Rules.WeakOrder(less)
    ensures SameList(xs, ys, less) ==> multiset(xs) == multiset(ys)
    ensures multiset(xs) == multiset(ys) && Rules.Separates(xs, less) ==> SameList(xs, ys, less)
  {
    hide Rules.StableSort, Rules.WeakOrder, Rules.Separates, SameList;
    SortsAgreeExactly(xs, ys, less);
    if SameList(xs, ys, less) { Rules.SameSortSameMembers(xs, ys, less); }
    if multiset(xs) == multiset(ys) && Rules.Separates(xs, less) { Rules.SortIsCanonical(xs, ys, less); }
  }

  lemma ClassOrder(xs: seq<DomainClass>)
    ensures Rules.WeakOrder(ClassLess) && Rules.Separates(xs, ClassLess)
  {
  }

  lemma LayersAgree(xs: seq<Layer>, ys: seq<Layer>)
    ensures Rules.StableSort(xs, Rules.LayerLess) == Rules.StableSort(ys, Rules.LayerLess)
            <==> multiset(xs) == multiset(ys)
  {
    hide Rules.StableSort, SameList, Rules.LayerLess;
    Rules.LayerOrder(xs);
    SortsAgreeExactly(xs, ys, Rules.LayerLess);
    SameListMembers(xs, ys, Rules.LayerLess);
  }

  lemma ClassesAgree(xs: seq<DomainClass>, ys: seq<DomainClass>)
    ensures Rules.StableSort(xs, ClassLess) == Rules.StableSort(ys, ClassLess) <==> multiset(xs) == multiset(ys)
  {
    hide Rules.StableSort, SameList, ClassLess;
    ClassOrder(xs);
    SortsAgreeExactly(xs, ys, ClassLess);
    SameListMembers(xs, ys, ClassLess);
  }

  // ---- constraint sets ----------------------------------------------------------------------------------

  /** The same content: everything but the generation, the lists up to their canonical order. */
  ghost predicate SameSet(a: ConstraintSet, b: ConstraintSet) {
    && a.id == b.id && a.scope == b.scope && a.linkState == b.linkState && a.portAdmin == b.portAdmin
    && a.allowLoops == b.allowLoops && a.maxHops == b.maxHops
    && SameList(a.capabilities, b.capabilities, Rules.CapabilityLess)
    && SameList(a.failureDomains, b.failureDomains, Rules.DomainLess)
    && multiset(a.allowedLayers) == multiset(b.allowedLayers)
  }

  /** A constraint digest stands for the content of a set, for all of it, and for nothing else. */
  lemma ConstraintDigestIsContent(a: ConstraintSet, b: ConstraintSet)
    ensures ConstraintDigestOf(a) == ConstraintDigestOf(b) <==> SameSet(a, b)
  {
    hide Rules.StableSort, SameList, Rules.CapabilityLess, Rules.DomainLess, Rules.LayerLess, Rules.WeakOrder;
    Rules.CapabilityOrder();
    Rules.DomainOrder();
    SortsAgreeExactly(a.capabilities, b.capabilities, Rules.CapabilityLess);
    SortsAgreeExactly(a.failureDomains, b.failureDomains, Rules.DomainLess);
    LayersAgree(a.allowedLayers, b.allowedLayers);
  }

  /** Equal digests mean equal members; and construction order is immaterial where the order tells members apart. */
  lemma ConstraintDigestMembers(a: ConstraintSet, b: ConstraintSet)
    ensures SameSet(a, b) ==>
              multiset(a.capabilities) == multiset(b.capabilities)
              && multiset(a.failureDomains) == multiset(b.failureDomains)
    ensures Rules.Separates(a.capabilities, Rules.CapabilityLess)
            && Rules.Separates(a.failureDomains, Rules.DomainLess) ==>
              (SameSet(a, b) <==>
               b == a.(generation := b.generation, capabilities := b.capabilities, failureDomains := b.failureDomains,
                 allowedLayers := b.allowedLayers)
               && multiset(a.capabilities) == multiset(b.capabilities)
               && multiset(a.failureDomains) == multiset(b.failureDomains)
               && multiset(a.allowedLayers) == multiset(b.allowedLayers))
  {
    hide SameList, Rules.CapabilityLess, Rules.DomainLess, Rules.WeakOrder, Rules.Separates;
    Rules.CapabilityOrder();
    Rules.DomainOrder();
    SameListMembers(a.capabilities, b.capabilities, Rules.CapabilityLess);
    SameListMembers(a.failureDomains, b.failureDomains, Rules.DomainLess);
  }

  /** Two requirements that differ only in what an unknown value means render alike. */
  function Strict(): CapabilityRequirement {
    CapabilityRequirement("port-1", "speed", Requirement(Supports, "speed", [], []), true)
  }

  function Lenient(): CapabilityRequirement { Strict().(failClosedOnUnknown := false) }

  function SetOf(cs: seq<CapabilityRequirement>): ConstraintSet {
    ConstraintSet("set", 1, "site", cs, [], LinkAcceptance(false, false, false, false), PortAcceptance(false, false),
      [],
      false, 0)
  }

  /**
   * The source's comment promises that sets which differ only in construction order are identical. Two requirements
   * that the order does not tell apart break the promise.
   */
  lemma ConstructionOrderCanShow()
    ensures multiset([Strict(), Lenient()]) == multiset([Lenient(), Strict()])
    ensures ConstraintDigestOf(SetOf([Strict(), Lenient()])) != ConstraintDigestOf(SetOf([Lenient(), Strict()]))
  {
    hide Rules.Alike, Rules.CapabilityLess, Rules.StableSort, Rules.RenderRequirement, ConstraintDigestOf;
    var xs, ys := [Strict(), Lenient()], [Lenient(), Strict()];
    ConstraintDigestIsContent(SetOf(xs), SetOf(ys));
    AreAlike(Strict(), Lenient());
    AreAlike(Lenient(), Strict());
    assert Rules.Alike(xs, Strict(), Rules.CapabilityLess) == xs != ys;
    assert Rules.Alike(ys, Strict(), Rules.CapabilityLess) == ys;
    assert !SameList(xs, ys, Rules.CapabilityLess);
  }

  lemma AreAlike(a: CapabilityRequirement, b: CapabilityRequirement)
    requires a.entity == b.entity && a.key == b.key && a.expression == b.expression
    ensures Rules.Alike([a, b], a, Rules.CapabilityLess) == [a, b]
    ensures Rules.Alike([a, b], b, Rules.CapabilityLess) == [a, b]
  {
    hide Rules.RenderRequirement, StringLess;
    StringLessTotal(Rules.RenderRequirement(a.expression), Rules.RenderRequirement(b.expression));
    forall e | e == a || e == b ensures Rules.Alike([a, b], e, Rules.CapabilityLess) == [a, b] {
      assert Rules.Alike([], e, Rules.CapabilityLess) == [];
      AlikeCons([b], e, Rules.CapabilityLess);
      AlikeCons([a, b], e, Rules.CapabilityLess);
      assert [a, b][1..] == [b] && [b][1..] == [];
    }
  }

  // ---- policies, paths, inputs and decisions ---------------------------------------------------------------

  ghost predicate SamePolicy(a: PolicySet, b: PolicySet) {
    && a.scope == b.scope && a.linkState == b.linkState && a.portAdmin == b.portAdmin
    && a.allowLoops == b.allowLoops && a.maxHops == b.maxHops
    && a.allowConditionalAuthorization == b.allowConditionalAuthorization
    && a.allowUnknownLinkState == b.allowUnknownLinkState
    && SameList(a.requiredCapabilities, b.requiredCapabilities, Rules.CapabilityLess)
    && multiset(a.forbiddenDomainClasses) == multiset(b.forbiddenDomainClasses)
    && multiset(a.forbiddenLayers) == multiset(b.forbiddenLayers)
  }

  lemma PolicyDigestIsContent(a: PolicySet, b: PolicySet)
    ensures PolicyDigestOf(a) == PolicyDigestOf(b) <==> SamePolicy(a, b)
  {
    hide Rules.StableSort, SameList, Rules.CapabilityLess, ClassLess, Rules.LayerLess, Rules.WeakOrder;
    Rules.CapabilityOrder();
    SortsAgreeExactly(a.requiredCapabilities, b.requiredCapabilities, Rules.CapabilityLess);
    ClassesAgree(a.forbiddenDomainClasses, b.forbiddenDomainClasses);
    LayersAgree(a.forbiddenLayers, b.forbiddenLayers);
  }

  /** Everything but the id, the hops in their order. */
  ghost predicate SamePath(a: PathDefinition, b: PathDefinition) {
    && a.generation == b.generation && a.pathType == b.pathType && a.scope == b.scope
    && a.constraintSet == b.constraintSet && a.constraintGeneration == b.constraintGeneration
    && |a.hops| == |b.hops| && (forall n :: 0 <= n < |a.hops| ==> a.hops[n] == b.hops[n])
    && a.underlying == b.underlying
  }

  lemma PathDigestIsContent(a: PathDefinition, b: PathDefinition)
    ensures PathDigestOf(a) == PathDigestOf(b) <==> SamePath(a, b)
  {
    if SamePath(a, b) { assert a.hops == b.hops; }
  }

  /** An input digest stands for the content and the generations of path, set and policy, and for the epoch. */
  lemma InputDigestIsContent(p: PathDefinition, s: ConstraintSet, policy: PolicySet, epoch: u64,
      p': PathDefinition, s': ConstraintSet, policy': PolicySet, epoch': u64)
    ensures InputDigestOf(p, s, policy, epoch) == InputDigestOf(p', s', policy', epoch') <==>
            SamePath(p, p') && SameSet(s, s') && SamePolicy(policy, policy')
            && policy.generation == policy'.generation && epoch == epoch'
  {
    hide SameSet, SamePolicy, PathDigestOf, ConstraintDigestOf, PolicyDigestOf;
    PathDigestIsContent(p, p');
    ConstraintDigestIsContent(s, s');
    PolicyDigestIsContent(policy, policy');
  }

  lemma {:induction false} CodesMeaning(vs: seq<Violation>)
    ensures Codes(vs) == multiset(seq(|vs|, n requires 0 <= n < |vs| => vs[n].code))
  {
    var codes := seq(|vs|, n requires 0 <= n < |vs| => vs[n].code);
    if vs != [] {
      var rest := seq(|vs[1..]|, n requires 0 <= n < |vs[1..]| => vs[1..][n].code);
      CodesMeaning(vs[1..]);
      assert codes == [vs[0].code] + rest;
    }
  }

  function CodesOf(vs: seq<Violation>): seq<Outcome> { seq(|vs|, n requires 0 <= n < |vs| => vs[n].code) }

  /**
   * An authority digest stands for path, set, evidence, state, outcome and the codes of the violations in any order;
   * neither the subjects nor the severities of the violations are in it.
   */
  lemma AuthorityDigestIsContent(d: PathDefinition, s: ConstraintSet, evidence: seq<EvidenceEntry>,
      state: AuthorityState, outcome: Outcome, violations: seq<Violation>,
      d': PathDefinition, s': ConstraintSet, evidence': seq<EvidenceEntry>, state': AuthorityState, outcome': Outcome,
      violations': seq<Violation>)
    ensures AuthorityDigestOf(d, PathDigestOf(d), ConstraintDigestOf(s), evidence, state, outcome, violations)
            == AuthorityDigestOf(d', PathDigestOf(d'), ConstraintDigestOf(s'), evidence', state', outcome', violations')
            <==>
            SamePath(d, d') && SameSet(s, s') && evidence == evidence' && state == state' && outcome == outcome'
            && multiset(CodesOf(violations)) == multiset(CodesOf(violations'))
  {
    hide SameSet, PathDigestOf, ConstraintDigestOf, Scalar, Codes;
    PathDigestIsContent(d, d');
    ConstraintDigestIsContent(s, s');
    CodesMeaning(violations);
    CodesMeaning(violations');
  }

  // ---- registration ---------------------------------------------------------------------------------------

  /** The set is registered with this content. */
  ghost predicate HasContent(rt: Runtime, s: ConstraintSet) { s.id in rt.sets && SameSet(rt.sets[s.id], s) }

  predicate SetGenerationLeft(rt: Runtime, id: string) { id in rt.sets ==> rt.sets[id].generation < U64_MAX }

  /**
   * A registration is answered as unchanged exactly for the content that is registered, and creates a generation
   * exactly for other content while there is a generation left.
   */
  lemma RegistrationByContent(rt: Runtime, s: ConstraintSet, limits: Limits)
    ensures var r := Register(rt, s, limits).1;
            && (r.Malformed? <==> !RegistrableSet(s, limits))
            && (r.Unchanged? <==> RegistrableSet(s, limits) && HasContent(rt, s))
            && (r.Created? <==> RegistrableSet(s, limits) && !HasContent(rt, s) && SetGenerationLeft(rt, s.id))
            && (r.Exhausted? <==> RegistrableSet(s, limits) && !HasContent(rt, s) && !SetGenerationLeft(rt, s.id))
            && (r.Unchanged? ==> r.generation == rt.sets[s.id].generation)
            && (r.Created? ==> r.generation == 1 + if s.id in rt.sets then rt.sets[s.id].generation else 0)
            && (!r.Created? ==> Register(rt, s, limits).0 == rt)
  {
    hide RegistrableSet, SameSet, StoreSet, AffectedBy, ConstraintDigestOf;
    if s.id in rt.sets { ConstraintDigestIsContent(rt.sets[s.id], s); }
  }

  /** The path binds the set at another generation. */
  predicate Outdated(r: Record, id: string, generation: u64) {
    r.definition.constraintSet == id && r.definition.constraintGeneration != generation
  }

  /**
   * A created set is stored as it was given, at its generation; the paths that bind another generation of it are
   * marked, the number of those that were not marked before is reported, and nothing else changes.
   */
  lemma RegistrationStores(rt: Runtime, s: ConstraintSet, limits: Limits)
    requires Register(rt, s, limits).1.Created?
    ensures var (rt', r) := Register(rt, s, limits);
            && rt' == rt.(sets := rt.sets[s.id := s.(generation := r.generation)], records := rt'.records)
            && rt'.records.Keys == rt.records.Keys
            && (forall p :: p in rt.records ==>
                  rt'.records[p] == if Outdated(rt.records[p], s.id, r.generation) then Mark(rt.records[p])
                                    else rt.records[p])
            && r.invalidated == |set p | p in rt.records && Outdated(rt.records[p], s.id, r.generation)
                                         && rt.records[p].state != RevalidationRequired|
  {
    hide RegistrableSet, ConstraintDigestOf, Mark;
    var (rt', r) := Register(rt, s, limits);
    var stored := s.(generation := r.generation);
    assert (set p | p in AffectedBy(rt, stored) && rt.records[p].state != RevalidationRequired)
        == set p | p in rt.records && Outdated(rt.records[p], s.id, r.generation)
                   && rt.records[p].state != RevalidationRequired;
  }
}
