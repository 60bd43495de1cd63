/** The findings are what the checks say, in the order of the checks; the first refusal gives the primary code. */
module FirstRefusal {
  import opened Base
  import opened Model
  import opened Requirements
  import opened Views
  import opened Findings
  import opened Grounds
  import opened Publication
  import opened Resolution
  import RuntimeRuns
  import opened RuntimeState
  import opened Evaluation
  import Legality
  import PathShape
  import Reads
  import Rules

  // ---- what each check contributes --------------------------------------------------------------

  predicate DiversityGate(i: Inputs, c: DomainConstraint) {
    i.PeerEstablished(c) && PeerCovered(i, i.PeerElements(c)) && AllCovered(i)
  }

  /** The findings of one check. */
  ghost function Report(i: Inputs, s: Check): seq<Violation> {
    match s
    case ElementCheck(h) => ElementFindings(i, h)
    case PairCheck(a, b) => HopFindings(i, (a, b))
    case UnderlyingCheck => UnderlyingFindings(i)
    case PortCheck(h) => PortFindings(i, h)
    case LinkCheck(h) => LinkFindings(i, h)
    case CapabilityCheck(r) => if Shaped(r.expression) then CapabilityFindings(i, r) else []
    case ForbiddenCheck(c, h) => ForbiddenFindings(i, c, h)
    case CountCheck(c) =>
      if c.kind.MaxMembersFromDomain? then CountFindings(i, c, c.domain, h => InDomain(i, h, c.domain))
      else CountFindings(i, c, Rules.ClassName(c.domainClass), h => InClass(i, h, c.domainClass))
    case ExcludeCheck(c, h) => ExcludedFindings(i, c.domainClass, FailureDomainViolation, h)
    case CoverageCheck(h) => CoverageFindings(i, h)
    case PeerCheck(c) => if DiversityGate(i, c) then [] else HardFinding(FailureDomainCoverageUnknown, c.peerPath)
    case SharedElementCheck(c, h) => if DiversityGate(i, c) then SharedElementFindings(i.PeerElements(c), h) else []
    case SharedDomainCheck(c, k, h) => if DiversityGate(i, c) then SharedAt(i, i.PeerElements(c), k, h) else []
    case LayerCheck(h) => LayerFindings(i, h)
    case RepeatCheck(n) => if i.Effective().allowLoops then [] else RepeatAt(i.path.hops, n)
    case LengthCheck => LengthFindings(i)
    case ForbiddenClassCheck(k, h) => ExcludedFindings(i, k, PolicyRejected, h)
  }

  function SharedAt(i: Inputs, peer: seq<ElementRef>, k: DomainClass, h: PathElement): seq<Violation> {
    Each(i.MembersOf(h.Ref()), d => SharedDomainFindings(i, peer, k, h, d))
  }

  function RepeatAt(hops: seq<PathElement>, n: nat): seq<Violation> {
    if n < |hops| && exists m :: 0 <= m < n && HopKey(hops[m]) == HopKey(hops[n]) then
      HardFinding(PolicyRejected, HopKey(hops[n]))
    else []
  }

  ghost function Reports(i: Inputs): Check -> seq<Violation> { s => Report(i, s) }

  // ---- loops over checks --------------------------------------------------------------------------

  lemma {:induction false} EachOn<T>(xs: seq<T>, check: T -> Check, f: T -> seq<Violation>, g: Check -> seq<Violation>)
    requires forall x :: x in xs ==> f(x) == g(check(x))
    ensures Each(On(xs, check), g) == Each(xs, f)
  {
    if xs != [] {
      EachOn(xs[1..], check, f, g);
      assert On(xs, check)[1..] == On(xs[1..], check);
    }
  }

  lemma {:induction false} EachFlat<T>(xs: seq<T>, inner: T -> seq<Check>, f: T -> seq<Violation>,
      g: Check -> seq<Violation>)
    requires forall x :: x in xs ==> f(x) == Each(inner(x), g)
    ensures Each(Each(xs, inner), g) == Each(xs, f)
  {
    if xs != [] {
      EachFlat(xs[1..], inner, f, g);
      EachAppend(inner(xs[0]), Each(xs[1..], inner), g);
    }
  }

  lemma {:induction false} EachOnPairs(hops: seq<PathElement>, f: ((PathElement, PathElement)) -> seq<Violation>,
      g: Check -> seq<Violation>)
    requires forall a, b :: f((a, b)) == g(PairCheck(a, b))
    ensures Each(OnPairs(hops), g) == Each(Pairs(hops), f)
  {
    if |hops| >= 2 {
      EachOnPairs(hops[1..], f, g);
      assert OnPairs(hops)[1..] == OnPairs(hops[1..]);
      assert Pairs(hops)[1..] == Pairs(hops[1..]);
    }
  }

  lemma EachOne(s: Check, g: Check -> seq<Violation>)
    ensures Each([s], g) == g(s)
  {
    assert [s][1..] == [] && Each([], g) == [];
  }

  lemma {:induction false} EachSilent(ss: seq<Check>, g: Check -> seq<Violation>)
    requires forall s :: s in ss ==> g(s) == []
    ensures Each(ss, g) == []
  {
    if ss != [] { EachSilent(ss[1..], g); }
  }

  // ---- the stages as checks -------------------------------------------------------------------------

  lemma StructureIs(i: Inputs)
    ensures StructureStage(i) == Each(StructureChecks(i), Reports(i))
  {
    hide ElementFindings, HopFindings, Each, OnPairs, Pairs;
    var hops := i.path.hops;
    EachOn(hops, h => ElementCheck(h), h => ElementFindings(i, h), Reports(i));
    EachOnPairs(hops, p => HopFindings(i, p), Reports(i));
    EachAppend(On(hops, h => ElementCheck(h)), OnPairs(hops), Reports(i));
  }

  lemma HopsAre(i: Inputs)
    ensures PortStage(i) == Each(On(i.path.hops, h => PortCheck(h)), Reports(i))
    ensures LinkStage(i) == Each(On(i.path.hops, h => LinkCheck(h)), Reports(i))
  {
    hide PortFindings, LinkFindings, Each, Rules.CombineRules;
    EachOn(i.path.hops, h => PortCheck(h), h => PortFindings(i, h), Reports(i));
    EachOn(i.path.hops, h => LinkCheck(h), h => LinkFindings(i, h), Reports(i));
  }

  lemma {:induction false} CapabilitiesAre(i: Inputs, cs: seq<CapabilityRequirement>)
    requires forall c :: c in cs ==> Shaped(c.expression)
    ensures CapabilityStage(i, cs) == Each(On(cs, r => CapabilityCheck(r)), Reports(i))
  {
    hide CapabilityFindings, Shaped;
    if cs != [] {
      CapabilitiesAre(i, cs[1..]);
      assert On(cs, r => CapabilityCheck(r))[1..] == On(cs[1..], r => CapabilityCheck(r));
    }
  }

  lemma PerHop(i: Inputs, check: PathElement -> Check, f: PathElement -> seq<Violation>)
    requires forall h :: f(h) == Report(i, check(h))
    ensures Each(On(i.path.hops, check), Reports(i)) == Each(i.path.hops, f)
  {
    hide Report, Each, On;
    forall h ensures f(h) == Reports(i)(check(h)) { assert Reports(i)(check(h)) == Report(i, check(h)); }
    EachOn(i.path.hops, check, f, Reports(i));
  }

  lemma DomainIs(i: Inputs, c: DomainConstraint)
    ensures DomainFindings(i, c) == Each(DomainChecks(c, i.path.hops), Reports(i))
  {
    hide Each, On, ForbiddenFindings, CountFindings, ExcludedFindings, CoverageFindings, DiversityFindings,
      Rules.ClassName, InDomain, InClass;
    match c.kind
    case ForbiddenDomain => PerHop(i, h => ForbiddenCheck(c, h), h => ForbiddenFindings(i, c, h));
    case MaxMembersFromDomain => EachOne(CountCheck(c), Reports(i));
    case MaxMembersFromClass => EachOne(CountCheck(c), Reports(i));
    case ExcludeDomainClass =>
      PerHop(i, h => ExcludeCheck(c, h), h => ExcludedFindings(i, c.domainClass, FailureDomainViolation, h));
    case RequireCoverageCompleteness => PerHop(i, h => CoverageCheck(h), h => CoverageFindings(i, h));
    case DiverseFromPeerPath => DiversityIs(i, c);
  }

  lemma Compared(c: DomainConstraint)
    ensures ComparedClasses(c) == DiversityClasses(c)
  {
  }

  function ElementChecks(c: DomainConstraint, hops: seq<PathElement>): seq<Check> {
    On(hops, h => SharedElementCheck(c, h))
  }

  function ClassChecks(c: DomainConstraint, hops: seq<PathElement>): seq<Check> {
    Each(ComparedClasses(c), k => On(hops, h => SharedDomainCheck(c, k, h)))
  }

  lemma DiversityIs(i: Inputs, c: DomainConstraint)
    requires c.kind == DiverseFromPeerPath
    ensures DiversityFindings(i, c) == Each(DomainChecks(c, i.path.hops), Reports(i))
  {
    hide Each, On, SharedElementFindings, SharedClassFindings, PeerCovered, AllCovered, ComparedClasses,
      DiversityClasses, SharedAt, ElementChecks, ClassChecks;
    var hops, g := i.path.hops, Reports(i);
    var shared, classes := ElementChecks(c, hops), ClassChecks(c, hops);
    assert DomainChecks(c, hops) == [PeerCheck(c)] + shared + classes by { ChecksAre(c, hops); }
    EachAppend([PeerCheck(c)] + shared, classes, g);
    EachAppend([PeerCheck(c)], shared, g);
    EachOne(PeerCheck(c), g);
    if DiversityGate(i, c) {
      SharedElementsAre(i, c);
      SharedClassesAre(i, c);
      Compared(c);
    } else {
      NothingShared(i, c);
    }
  }

  lemma ChecksAre(c: DomainConstraint, hops: seq<PathElement>)
    requires c.kind == DiverseFromPeerPath
    ensures DomainChecks(c, hops) == [PeerCheck(c)] + ElementChecks(c, hops) + ClassChecks(c, hops)
  {
    hide Each, On, ComparedClasses;
  }

  lemma SharedElementsAre(i: Inputs, c: DomainConstraint)
    requires DiversityGate(i, c)
    ensures Each(ElementChecks(c, i.path.hops), Reports(i))
            == Each(i.path.hops, h => SharedElementFindings(i.PeerElements(c), h))
  {
    hide Each, On, SharedElementFindings, PeerCovered, AllCovered;
    PerHop(i, h => SharedElementCheck(c, h), h => SharedElementFindings(i.PeerElements(c), h));
  }

  lemma SharedClassesAre(i: Inputs, c: DomainConstraint)
    requires DiversityGate(i, c)
    ensures Each(ClassChecks(c, i.path.hops), Reports(i))
            == Each(ComparedClasses(c), k => SharedClassFindings(i, i.PeerElements(c), k))
  {
    hide Each, On, SharedDomainFindings, PeerCovered, AllCovered, ComparedClasses;
    var hops, peer := i.path.hops, i.PeerElements(c);
    forall k
      ensures SharedClassFindings(i, peer, k) == Each(On(hops, h => SharedDomainCheck(c, k, h)), Reports(i))
    {
      PerHop(i, h => SharedDomainCheck(c, k, h), h => SharedAt(i, peer, k, h));
      SharedClassIs(i, peer, k);
    }
    EachFlat(ComparedClasses(c), k => On(hops, h => SharedDomainCheck(c, k, h)),
      k => SharedClassFindings(i, peer, k), Reports(i));
  }

  lemma SharedClassIs(i: Inputs, peer: seq<ElementRef>, k: DomainClass)
    ensures SharedClassFindings(i, peer, k) == Each(i.path.hops, h => SharedAt(i, peer, k, h))
  {
    hide SharedDomainFindings;
    EachSame(i.path.hops, (h: PathElement) => Each(i.MembersOf(h.Ref()), d => SharedDomainFindings(i, peer, k, h, d)),
      h => SharedAt(i, peer, k, h));
  }

  lemma {:induction false} EachSame<T, U>(xs: seq<T>, f: T -> seq<U>, g: T -> seq<U>)
    requires forall x :: x in xs ==> f(x) == g(x)
    ensures Each(xs, f) == Each(xs, g)
  {
    if xs != [] { EachSame(xs[1..], f, g); }
  }

  lemma NothingShared(i: Inputs, c: DomainConstraint)
    requires !DiversityGate(i, c)
    ensures Each(ElementChecks(c, i.path.hops), Reports(i)) == []
    ensures Each(ClassChecks(c, i.path.hops), Reports(i)) == []
  {
    hide Each, PeerCovered, AllCovered, ComparedClasses;
    var hops, g := i.path.hops, Reports(i);
    EachSilent(ElementChecks(c, hops), g);
    var inner: DomainClass -> seq<Check> := k => On(hops, h => SharedDomainCheck(c, k, h));
    forall k ensures Each(inner(k), g) == [] { EachSilent(inner(k), g); }
    EachFlatSilent(ComparedClasses(c), inner, g);
  }

  lemma {:induction false} EachFlatSilent<T>(xs: seq<T>, inner: T -> seq<Check>, g: Check -> seq<Violation>)
    requires forall x :: x in xs ==> Each(inner(x), g) == []
    ensures Each(Each(xs, inner), g) == []
  {
    if xs != [] {
      EachFlatSilent(xs[1..], inner, g);
      EachAppend(inner(xs[0]), Each(xs[1..], inner), g);
    }
  }

  lemma DomainsAre(i: Inputs)
    ensures DomainStage(i) ==
            Each(Each(i.Effective().failureDomains, c => DomainChecks(c, i.path.hops)), Reports(i))
  {
    hide DomainFindings, DomainChecks, Rules.CombineRules, Reports;
    forall c ensures DomainFindings(i, c) == Each(DomainChecks(c, i.path.hops), Reports(i)) { DomainIs(i, c); }
    EachFlat(i.Effective().failureDomains, c => DomainChecks(c, i.path.hops), c => DomainFindings(i, c), Reports(i));
  }

  // ---- policy ---------------------------------------------------------------------------------------------

  function KeysOf(hops: seq<PathElement>): set<string> { set h | h in hops :: HopKey(h) }

  lemma RepeatStep(hops: seq<PathElement>, n: nat)
    requires n < |hops|
    ensures RepeatFindings(hops[n..], KeysOf(hops[..n])) ==
            RepeatAt(hops, n) + RepeatFindings(hops[n + 1..], KeysOf(hops[..n + 1]))
  {
    hide HopKey;
    assert hops[n..][0] == hops[n] && hops[n..][1..] == hops[n + 1..];
    assert hops[..n + 1] == hops[..n] + [hops[n]];
    assert KeysOf(hops[..n + 1]) == KeysOf(hops[..n]) + {HopKey(hops[n])};
    assert HopKey(hops[n]) in KeysOf(hops[..n]) <==> exists m :: 0 <= m < n && HopKey(hops[m]) == HopKey(hops[n]);
  }

  function RepeatChecks(from: nat, count: nat): seq<Check> { seq(count, m requires 0 <= m => RepeatCheck(from + m)) }

  lemma MoreChecks(from: nat, count: nat)
    ensures count == 0 ==> RepeatChecks(from, count) == []
    ensures count > 0 ==>
              RepeatChecks(from, count) != [] && RepeatChecks(from, count)[0] == RepeatCheck(from)
              && RepeatChecks(from, count)[1..] == RepeatChecks(from + 1, count - 1)
  {
  }

  lemma EachFirst(ss: seq<Check>, g: Check -> seq<Violation>)
    requires ss != []
    ensures Each(ss, g) == g(ss[0]) + Each(ss[1..], g)
  {
  }

  lemma NoRepeats(seen: set<string>, g: Check -> seq<Violation>)
    ensures RepeatFindings([], seen) == [] == Each([], g)
  {
  }

  lemma {:induction false} RepeatsFrom(hops: seq<PathElement>, n: nat, g: Check -> seq<Violation>)
    requires n <= |hops| && forall m :: g(RepeatCheck(m)) == RepeatAt(hops, m)
    ensures RepeatFindings(hops[n..], KeysOf(hops[..n])) == Each(RepeatChecks(n, |hops| - n), g)
    decreases |hops| - n
  {
    hide KeysOf, RepeatAt, RepeatFindings, Each, RepeatChecks;
    var checks := RepeatChecks(n, |hops| - n);
    MoreChecks(n, |hops| - n);
    if n < |hops| {
      RepeatsFrom(hops, n + 1, g);
      RepeatStep(hops, n);
      EachFirst(checks, g);
    } else {
      assert hops[n..] == [];
      NoRepeats(KeysOf(hops[..n]), g);
    }
  }

  lemma LoopsAre(i: Inputs)
    ensures LoopFindings(i) == Each(seq(|i.path.hops|, n requires 0 <= n => RepeatCheck(n)), Reports(i))
  {
    hide HopKey, Rules.CombineRules, RepeatFindings;
    var ss := seq(|i.path.hops|, n requires 0 <= n => RepeatCheck(n));
    if i.Effective().allowLoops {
      EachSilent(ss, Reports(i));
    } else {
      RepeatsFrom(i.path.hops, 0, Reports(i));
      assert i.path.hops[0..] == i.path.hops && KeysOf(i.path.hops[..0]) == {};
      assert ss == RepeatChecks(0, |i.path.hops| - 0);
    }
  }

  lemma ForbiddenClassesAre(i: Inputs)
    ensures Each(i.Effective().forbiddenClasses, k => ForbiddenClassFindings(i, k)) ==
            Each(Each(i.Effective().forbiddenClasses, k => On(i.path.hops, h => ForbiddenClassCheck(k, h))), Reports(i))
  {
    hide Each, On, Rules.CombineRules, ExcludedFindings;
    forall k
      ensures ForbiddenClassFindings(i, k) == Each(On(i.path.hops, h => ForbiddenClassCheck(k, h)), Reports(i))
    {
      PerHop(i, h => ForbiddenClassCheck(k, h), h => ExcludedFindings(i, k, PolicyRejected, h));
    }
    EachFlat(i.Effective().forbiddenClasses, k => On(i.path.hops, h => ForbiddenClassCheck(k, h)),
      k => ForbiddenClassFindings(i, k), Reports(i));
  }

  lemma PolicyIs(i: Inputs)
    ensures PolicyStage(i) == Each(PolicyChecks(i), Reports(i))
  {
    hide Each, On, Rules.CombineRules, LayerFindings, LoopFindings, LengthFindings, ForbiddenClassFindings;
    var hops, g := i.path.hops, Reports(i);
    var a := On(hops, h => LayerCheck(h));
    var b := seq(|hops|, n requires 0 <= n => RepeatCheck(n));
    var d := Each(i.Effective().forbiddenClasses, k => On(hops, h => ForbiddenClassCheck(k, h)));
    PerHop(i, h => LayerCheck(h), h => LayerFindings(i, h));
    LoopsAre(i);
    EachOne(LengthCheck, g);
    ForbiddenClassesAre(i);
    EachAppend(a, b, g);
    EachAppend(a + b, [LengthCheck], g);
    EachAppend(a + b + [LengthCheck], d, g);
  }

  /** The findings are those of the checks, one check after the other. */
  lemma AllByCheck(i: Inputs)
    requires Evaluable(i)
    ensures All(i) == Each(Checks(i), Reports(i))
  {
    hide Each, On, Rules.CombineRules, StructureStage, UnderlyingFindings, PortStage, LinkStage, CapabilityStage,
      DomainStage, PolicyStage, StructureChecks, PolicyChecks, Shaped;
    EffectiveShaped(i);
    var hops, g := i.path.hops, Reports(i);
    var a := StructureChecks(i);
    var b := On(hops, h => PortCheck(h));
    var c := On(hops, h => LinkCheck(h));
    var d := On(i.Effective().capabilities, r => CapabilityCheck(r));
    var e := Each(i.Effective().failureDomains, c => DomainChecks(c, hops));
    StructureIs(i);
    EachOne(UnderlyingCheck, g);
    HopsAre(i);
    CapabilitiesAre(i, i.Effective().capabilities);
    DomainsAre(i);
    PolicyIs(i);
    EachAppend(a, [UnderlyingCheck], g);
    EachAppend(a + [UnderlyingCheck], b, g);
    EachAppend(a + [UnderlyingCheck] + b, c, g);
    EachAppend(a + [UnderlyingCheck] + b + c, d, g);
    EachAppend(a + [UnderlyingCheck] + b + c + d, e, g);
    EachAppend(a + [UnderlyingCheck] + b + c + d + e, PolicyChecks(i), g);
  }

  // ---- each check reports what it says ------------------------------------------------------------------

  lemma ExcludedSays(i: Inputs, k: DomainClass, violation: Outcome, h: PathElement, v: Violation)
    ensures v in ExcludedFindings(i, k, violation, h) <==>
            v.severity == Hard && v.subject == Name(h)
            && MemberRefuses(i, h, TouchesClass(i, h.Ref(), k), violation, v.code)
  {
    hide HopKey, Name, Each, InClass, TouchesClass;
    SameName(h);
    ClassMembership(i, h, k);
    if Covers(i, h) { MembersSay(i, k, violation, h, v); }
  }

  lemma MembersSay(i: Inputs, k: DomainClass, violation: Outcome, h: PathElement, v: Violation)
    ensures v in Each(i.MembersOf(h.Ref()), d => ExcludedMember(i, k, violation, HopKey(h), d))
            <==> v == Violation(violation, Hard, HopKey(h)) && InClass(i, h, k)
  {
    hide HopKey, Each;
    EachMember(i.MembersOf(h.Ref()), d => ExcludedMember(i, k, violation, HopKey(h), d), v);
  }

  lemma SameName(h: PathElement)
    ensures HopKey(h) == Name(h)
  {
  }

  lemma {:induction false} CountingIsCardinality<T>(xs: seq<T>, p: T -> bool, places: set<nat>)
    requires forall n: nat :: n in places <==> n < |xs| && p(xs[n])
    ensures |places| == Counting(xs, p)
  {
    if xs == [] {
      assert places == {};
    } else {
      var last := |xs| - 1;
      assert xs == xs[..last] + [xs[last]] && [xs[last]][1..] == [];
      CountingPlus(xs[..last], [xs[last]], p);
      CountingIsCardinality(xs[..last], p, places - {last});
    }
  }

  lemma CountSays(i: Inputs, c: DomainConstraint, v: Violation)
    ensures v in Report(i, CountCheck(c)) <==> Says(i, CountCheck(c), v)
  {
    hide Belongs, TouchesClass, Charted, Counting, Rules.ClassName;
    assert AllCovered(i) <==> PathCharted(i) by { CoveredIsCharted(i); }
    var hops := i.path.hops;
    if c.kind.MaxMembersFromDomain? {
      forall h ensures InDomain(i, h, c.domain) <==> Belongs(i, h.Ref(), c.domain) { Membership(i, h.Ref(), c.domain); }
      CountingIsCardinality(hops, h => InDomain(i, h, c.domain), Counted(i, c));
    } else {
      forall h ensures InClass(i, h, c.domainClass) <==> TouchesClass(i, h.Ref(), c.domainClass) {
        ClassMembership(i, h, c.domainClass);
      }
      CountingIsCardinality(hops, h => InClass(i, h, c.domainClass), Counted(i, c));
    }
  }

  lemma CoveredIsCharted(i: Inputs)
    ensures AllCovered(i) <==> PathCharted(i)
  {
  }

  lemma Membership(i: Inputs, e: ElementRef, domain: string)
    ensures domain in i.MembersOf(e) <==> Belongs(i, e, domain)
  {
  }

  lemma ClassMembership(i: Inputs, h: PathElement, k: DomainClass)
    ensures InClass(i, h, k) <==> TouchesClass(i, h.Ref(), k)
  {
    if d :| d in i.MembersOf(h.Ref()) && i.ClassOf(d) == k { assert Belongs(i, h.Ref(), d) && OfClass(i, d, k); }
    if d :| Belongs(i, h.Ref(), d) && OfClass(i, d, k) { assert d in i.MembersOf(h.Ref()) && i.ClassOf(d) == k; }
  }

  lemma GateIsComparable(i: Inputs, c: DomainConstraint)
    ensures DiversityGate(i, c) <==> Comparable(i, c)
    ensures Comparable(i, c) ==> i.PeerElements(c) == i.peers[c.peerPath].elements
  {
    CoveredIsCharted(i);
  }

  lemma SharedSays(i: Inputs, c: DomainConstraint, k: DomainClass, h: PathElement, v: Violation)
    requires Comparable(i, c)
    ensures DiversityGate(i, c)
    ensures v in SharedAt(i, i.PeerElements(c), k, h) <==>
            v == Violation(FailureDomainViolation, Hard, Name(h)) && SharesDomain(i, c, k, h)
  {
    hide HopKey, Name, PeerCovered, AllCovered, PathCharted, SharedDomainFindings;
    GateIsComparable(i, c);
    SameName(h);
    var peer := i.PeerElements(c);
    EachMember(i.MembersOf(h.Ref()), d => SharedDomainFindings(i, peer, k, h, d), v);
    forall d
      ensures v in SharedDomainFindings(i, peer, k, h, d) <==>
              v == Violation(FailureDomainViolation, Hard, Name(h)) && OfClass(i, d, k)
              && exists e :: e in peer && Belongs(i, e, d)
    {
      SharedWith(i, peer, k, h, d, v);
    }
    forall d ensures d in i.MembersOf(h.Ref()) <==> Belongs(i, h.Ref(), d) { Membership(i, h.Ref(), d); }
  }

  lemma SharedWith(i: Inputs, peer: seq<ElementRef>, k: DomainClass, h: PathElement, d: string, v: Violation)
    ensures v in SharedDomainFindings(i, peer, k, h, d) <==>
            v == Violation(FailureDomainViolation, Hard, Name(h)) && OfClass(i, d, k)
            && exists e :: e in peer && Belongs(i, e, d)
  {
    hide HopKey, Name, Each;
    SameName(h);
    if i.ClassOf(d) == k {
      EachMember(peer, e => Each(i.MembersOf(e), d' => SharedDomain(i, k, HopKey(h), d, d')), v);
      forall e
        ensures v in Each(i.MembersOf(e), d' => SharedDomain(i, k, HopKey(h), d, d')) <==>
                v == Violation(FailureDomainViolation, Hard, Name(h)) && Belongs(i, e, d)
      {
        EachMember(i.MembersOf(e), d' => SharedDomain(i, k, HopKey(h), d, d'), v);
      }
    }
  }

  lemma RepeatSays(i: Inputs, n: nat, v: Violation)
    ensures v in Report(i, RepeatCheck(n)) <==> Says(i, RepeatCheck(n), v)
  {
    hide HopKey, Name, Rules.CombineRules, Rules.AcceptsLoops;
    Rules.RulesMeaning(i.constraints, i.policy, i.limits);
    var hops := i.path.hops;
    forall a: PathElement, b: PathElement ensures HopKey(a) == HopKey(b) <==> a.Ref() == b.Ref() {
      SameKeySameRef(a, b);
    }
    if n < |hops| { SameName(hops[n]); }
  }

  lemma SameKeySameRef(a: PathElement, b: PathElement)
    ensures HopKey(a) == HopKey(b) <==> a.Ref() == b.Ref()
  {
    hide ElementKey;
    if HopKey(a) == HopKey(b) { PathShape.ElementKeyInjective(a.Ref(), b.Ref()); }
  }

  lemma LayerSays(i: Inputs, h: PathElement, v: Violation)
    ensures v in Report(i, LayerCheck(h)) <==> Says(i, LayerCheck(h), v)
  {
    hide HopKey, Name, Rules.CombineRules, Rules.PermittedLayer, Rules.LayerAllowed;
    Rules.LayerRuleMeaning(i.constraints, i.policy, i.limits, h.layer);
    SameName(h);
  }

  lemma LinkSays(i: Inputs, h: PathElement, v: Violation)
    ensures v in Report(i, LinkCheck(h)) <==> Says(i, LinkCheck(h), v)
  {
    hide HopKey, Name, Rules.CombineRules, Rules.AcceptsDegraded, Rules.AcceptsUnknown, Rules.DegradedIsConditional,
      Rules.UnknownIsConditional;
    Rules.RulesMeaning(i.constraints, i.policy, i.limits);
    SameName(h);
  }

  lemma PortSays(i: Inputs, h: PathElement, v: Violation)
    ensures v in Report(i, PortCheck(h)) <==> Says(i, PortCheck(h), v)
  {
    hide HopKey, Name, Rules.CombineRules;
    Rules.RulesMeaning(i.constraints, i.policy, i.limits);
    SameName(h);
  }

  lemma CapabilitySays(i: Inputs, r: CapabilityRequirement, v: Violation)
    ensures v in Report(i, CapabilityCheck(r)) <==> Says(i, CapabilityCheck(r), v)
  {
    hide Shaped, Holds, Requirements.Evaluate;
    if Shaped(r.expression) {
      if Known(i, r) {
        KnownRecordDecides(r.expression, i.Lookup(r));
      } else {
        UnknownRecordDecidesNothing(r.expression, i.Lookup(r));
      }
    }
  }

  lemma LengthSays(i: Inputs, v: Violation)
    ensures v in Report(i, LengthCheck) <==> Says(i, LengthCheck, v)
  {
    hide Rules.CombineRules, Rules.AcceptsLength;
    Rules.RulesMeaning(i.constraints, i.policy, i.limits);
  }

  lemma StructureSays(i: Inputs, s: Check, v: Violation)
    requires s.ElementCheck? || s.PairCheck? || s.UnderlyingCheck?
    ensures v in Report(i, s) <==> Says(i, s, v)
  {
    hide HopKey, Name;
    match s
    case ElementCheck(h) => SameName(h);
    case PairCheck(a, b) => SameName(a); SameName(b);
    case _ =>
  }

  lemma DomainSays(i: Inputs, s: Check, v: Violation)
    requires s.ForbiddenCheck? || s.ExcludeCheck? || s.CoverageCheck? || s.ForbiddenClassCheck? || s.PeerCheck?
             || s.SharedElementCheck? || s.SharedDomainCheck?
    ensures v in Report(i, s) <==> Says(i, s, v)
  {
    hide HopKey, Name, DiversityGate, Comparable, SharedAt, SharesDomain, ExcludedFindings, TouchesClass, Each;
    match s
    case ForbiddenCheck(c, h) => SameName(h); Membership(i, h.Ref(), c.domain);
    case ExcludeCheck(c, h) => ExcludedSays(i, c.domainClass, FailureDomainViolation, h, v);
    case CoverageCheck(h) => SameName(h);
    case ForbiddenClassCheck(k, h) => ExcludedSays(i, k, PolicyRejected, h, v);
    case PeerCheck(c) => GateIsComparable(i, c);
    case SharedElementCheck(c, h) => SameName(h); GateIsComparable(i, c);
    case SharedDomainCheck(c, k, h) =>
      GateIsComparable(i, c);
      if Comparable(i, c) { SharedSays(i, c, k, h, v); }
  }

  /** A check reports exactly what it says. */
  lemma ReportsWhatItSays(i: Inputs, s: Check, v: Violation)
    ensures v in Report(i, s) <==> Says(i, s, v)
  {
    hide Report, Says;
    match s
    case CountCheck(c) => CountSays(i, c, v);
    case RepeatCheck(n) => RepeatSays(i, n, v);
    case LayerCheck(h) => LayerSays(i, h, v);
    case LinkCheck(h) => LinkSays(i, h, v);
    case PortCheck(h) => PortSays(i, h, v);
    case CapabilityCheck(r) => CapabilitySays(i, r, v);
    case LengthCheck => LengthSays(i, v);
    case ElementCheck(_) => StructureSays(i, s, v);
    case PairCheck(_, _) => StructureSays(i, s, v);
    case UnderlyingCheck => StructureSays(i, s, v);
    case _ => DomainSays(i, s, v);
  }

  /** The evaluation finds exactly what its checks say. */
  lemma FindingsAreGrounds(i: Inputs, v: Violation)
    requires Evaluable(i)
    ensures v in All(i) <==> exists s :: s in Checks(i) && Says(i, s, v)
  {
    hide All, Checks, Report, Says, Each;
    AllByCheck(i);
    EachMember(Checks(i), Reports(i), v);
    forall s ensures v in Reports(i)(s) <==> Says(i, s, v) {
      ReportsWhatItSays(i, s, v);
      assert Reports(i)(s) == Report(i, s);
    }
  }

  // ---- the first refusal ------------------------------------------------------------------------------------

  lemma {:induction false} FirstOf(vs: seq<Violation>, rest: seq<Violation>, severity: Severity, v: Violation)
    ensures (forall w :: w in vs ==> w.severity != severity) ==> First(vs + rest, severity) == First(rest, severity)
    ensures v in vs && v.severity == severity && (forall w :: w in vs && w.severity == severity ==> w == v) ==>
              First(vs + rest, severity) == Some(v)
  {
    if vs == [] {
      assert vs + rest == rest;
    } else {
      FirstOf(vs[1..], rest, severity, v);
      assert (vs + rest)[1..] == vs[1..] + rest;
      assert forall w :: w in vs <==> w == vs[0] || w in vs[1..];
    }
  }

  /** The first check that says something of a severity gives the first finding of that severity. */
  lemma {:induction false} FirstSaid(i: Inputs, ss: seq<Check>, n: nat, v: Violation)
    requires n < |ss| && Says(i, ss[n], v)
    requires forall m, w :: 0 <= m < n && Says(i, ss[m], w) ==> w.severity != v.severity
    ensures First(Each(ss, Reports(i)), v.severity) == Some(v)
  {
    hide Says, Report, First;
    var s, rest := ss[0], Each(ss[1..], Reports(i));
    assert Reports(i)(s) == Report(i, s);
    forall w ensures w in Report(i, s) <==> Says(i, s, w) { ReportsWhatItSays(i, s, w); }
    FirstOf(Report(i, s), rest, v.severity, v);
    if n == 0 {
      forall w | Says(i, s, w) ensures w == v { SaysOnce(i, s, w, v); }
    } else {
      forall m, w | 0 <= m < n - 1 && Says(i, ss[1..][m], w) ensures w.severity != v.severity {
        assert ss[1..][m] == ss[m + 1];
      }
      FirstSaid(i, ss[1..], n - 1, v);
    }
  }

  ghost predicate FirstRefuses(i: Inputs, n: nat, code: Outcome, subject: string) {
    n < |Checks(i)| && Refuses(i, Checks(i)[n], code, subject) && forall m :: 0 <= m < n ==> Unrefused(i, Checks(i)[m])
  }

  ghost predicate FirstConditions(i: Inputs, n: nat, code: Outcome, subject: string) {
    n < |Checks(i)| && Conditions(i, Checks(i)[n], code, subject)
    && forall m :: 0 <= m < n ==> Unconditioned(i, Checks(i)[m])
  }

  ghost predicate NothingRefuses(i: Inputs) { forall s :: s in Checks(i) ==> Unrefused(i, s) }

  ghost predicate NothingConditions(i: Inputs) { forall s :: s in Checks(i) ==> Unconditioned(i, s) }

  /**
   * A path that some check refuses is rejected with the code and the subject of the first such check, whatever the
   * explanation bound, and whether or not the evidence fits.
   */
  lemma FirstRefusalIsPrimary(i: Inputs, n: nat, code: Outcome, subject: string)
    requires Evaluable(i) && FirstRefuses(i, n, code, subject)
    ensures Decide(i).primary == code && Decide(i).hardFailure
    ensures Decide(i).primaryViolation == Some(Violation(code, Primary, subject))
  {
    hide All, Checks, Each, First, Refuses, Conditions, Notes, Reads.Overflows;
    var v := Violation(code, Hard, subject);
    AllByCheck(i);
    forall m, w | 0 <= m < n && Says(i, Checks(i)[m], w) ensures w.severity != Hard {
      assert Unrefused(i, Checks(i)[m]);
    }
    FirstSaid(i, Checks(i), n, v);
  }

  /** A check that refuses is preceded by, or is, the first one that does. */
  lemma {:induction false} SomeRefusesFirst(i: Inputs, n: nat)
    requires n <= |Checks(i)| && exists m :: 0 <= m < n && !Unrefused(i, Checks(i)[m])
    ensures exists m, code, subject :: 0 <= m < n && FirstRefuses(i, m, code, subject)
  {
    hide Checks, Refuses;
    if exists m :: 0 <= m < n - 1 && !Unrefused(i, Checks(i)[m]) {
      SomeRefusesFirst(i, n - 1);
    } else {
      var code: Outcome, subject: string :| Refuses(i, Checks(i)[n - 1], code, subject);
      assert FirstRefuses(i, n - 1, code, subject);
    }
  }

  lemma {:induction false} SomeConditionsFirst(i: Inputs, n: nat)
    requires n <= |Checks(i)| && exists m :: 0 <= m < n && !Unconditioned(i, Checks(i)[m])
    ensures exists m, code, subject :: 0 <= m < n && FirstConditions(i, m, code, subject)
  {
    hide Checks, Conditions;
    if exists m :: 0 <= m < n - 1 && !Unconditioned(i, Checks(i)[m]) {
      SomeConditionsFirst(i, n - 1);
    } else {
      var code: Outcome, subject: string :| Conditions(i, Checks(i)[n - 1], code, subject);
      assert FirstConditions(i, n - 1, code, subject);
    }
  }

  /** Either no check refuses, or one of them is the first to; and so for conditions. */
  lemma SomethingIsFirst(i: Inputs)
    ensures !NothingRefuses(i) <==> exists n: nat, code, subject :: FirstRefuses(i, n, code, subject)
    ensures !NothingConditions(i) <==> exists n: nat, code, subject :: FirstConditions(i, n, code, subject)
  {
    hide Checks, Refuses, Conditions;
    if !NothingRefuses(i) {
      var s :| s in Checks(i) && !Unrefused(i, s);
      var n :| 0 <= n < |Checks(i)| && Checks(i)[n] == s;
      SomeRefusesFirst(i, |Checks(i)|);
    }
    if !NothingConditions(i) {
      var s :| s in Checks(i) && !Unconditioned(i, s);
      var n :| 0 <= n < |Checks(i)| && Checks(i)[n] == s;
      SomeConditionsFirst(i, |Checks(i)|);
    }
    if n: nat, code, subject :| FirstRefuses(i, n, code, subject) { assert !Unrefused(i, Checks(i)[n]); }
    if n: nat, code, subject :| FirstConditions(i, n, code, subject) { assert !Unconditioned(i, Checks(i)[n]); }
  }

  lemma NothingFound(i: Inputs)
    requires Evaluable(i)
    ensures NothingRefuses(i) <==> Legality.Every(All(i), Legality.NotHard)
    ensures NothingConditions(i) <==> Legality.Every(All(i), Legality.NotCondition)
  {
    hide All, Checks, Says, Unrefused, Unconditioned;
    if NothingRefuses(i) {
      forall v | v in All(i) ensures Legality.NotHard(v) { FoundIsSaid(i, v); }
    }
    if NothingConditions(i) {
      forall v | v in All(i) ensures Legality.NotCondition(v) { FoundIsSaid(i, v); }
    }
    if Legality.Every(All(i), Legality.NotHard) {
      forall s | s in Checks(i) ensures Unrefused(i, s) { SilentIsUnrefused(i, s); }
    }
    if Legality.Every(All(i), Legality.NotCondition) {
      forall s | s in Checks(i) ensures Unconditioned(i, s) { SilentIsUnrefused(i, s); }
    }
  }

  lemma FoundIsSaid(i: Inputs, v: Violation)
    requires Evaluable(i) && v in All(i)
    ensures v.severity == Hard ==> exists s :: s in Checks(i) && !Unrefused(i, s)
    ensures v.severity == Condition ==> exists s :: s in Checks(i) && !Unconditioned(i, s)
  {
    hide All, Checks, Refuses, Conditions, Notes;
    FindingsAreGrounds(i, v);
    var s :| s in Checks(i) && Says(i, s, v);
    if v.severity == Hard { assert Refuses(i, s, v.code, v.subject); }
    if v.severity == Condition { assert Conditions(i, s, v.code, v.subject); }
  }

  lemma SilentIsUnrefused(i: Inputs, s: Check)
    requires Evaluable(i) && s in Checks(i)
    ensures Legality.Every(All(i), Legality.NotHard) ==> Unrefused(i, s)
    ensures Legality.Every(All(i), Legality.NotCondition) ==> Unconditioned(i, s)
  {
    hide All, Checks, Refuses, Conditions, Notes;
    forall code, subject | Refuses(i, s, code, subject) ensures Violation(code, Hard, subject) in All(i) {
      assert Says(i, s, Violation(code, Hard, subject));
      FindingsAreGrounds(i, Violation(code, Hard, subject));
    }
    forall code, subject | Conditions(i, s, code, subject) ensures Violation(code, Condition, subject) in All(i) {
      assert Says(i, s, Violation(code, Condition, subject));
      FindingsAreGrounds(i, Violation(code, Condition, subject));
    }
  }

  /** Where some layer is permitted, a path is legal when no check refuses it, unconditional when none conditions it. */
  lemma LegalIsUnrefused(i: Inputs)
    requires Evaluable(i) && exists l :: Rules.PermittedLayer(i.constraints, i.policy, l)
    ensures Legality.Legal(i) <==> NothingRefuses(i)
    ensures Legality.Legal(i) ==> (Legality.Unconditional(i) <==> NothingConditions(i))
  {
    hide All, Legality.Legal, Legality.Unconditional, NothingRefuses, NothingConditions, Rules.PermittedLayer, Front;
    NothingFound(i);
    FindingsDecide(i);
  }

  /** Without refusals, everything found is in the stages before the failure domains. */
  lemma UnrefusedIsFront(i: Inputs)
    requires Evaluable(i) && Legality.Every(All(i), Legality.NotHard)
    ensures Informationals(All(i)) <= LinkHops(i.path.hops) && Legality.Every(All(i), Legality.Plain)
  {
    hide All, Front, DomainStage, PolicyStage, Legality.Every, Legality.HardList, FrontLegal, Legality.Unconditional,
      Informationals, LinkHops;
    AllIs(i);
    FrontDecides(i);
    Legality.DomainStageDecides(i);
    Legality.PolicyStageIsHard(i);
    HardListEmpty(DomainStage(i));
    HardListEmpty(PolicyStage(i));
    Legality.EveryPlus(Front(i), DomainStage(i), Legality.NotHard);
    Legality.EveryPlus(Front(i) + DomainStage(i), PolicyStage(i), Legality.NotHard);
    assert All(i) == Front(i) + [] + [] == Front(i);
    InformationalsAreLinks(i);
  }

  predicate RoomForConditions(i: Inputs) { LinkHops(i.path.hops) < i.limits.maxExplanationEntries }

  /**
   * A path that no check refuses is rejected, where the policy authorizes nothing conditionally, with the code of the
   * first check that attaches a condition.
   */
  lemma FirstConditionIsPrimary(i: Inputs, n: nat, code: Outcome, subject: string)
    requires Evaluable(i) && NothingRefuses(i) && RoomForConditions(i)
    requires !i.policy.allowConditionalAuthorization && FirstConditions(i, n, code, subject)
    ensures Decide(i).primary == code && Decide(i).hardFailure && Decide(i).primaryViolation == None
  {
    hide All, Checks, Each, First, Refuses, Conditions, Notes, Reads.Overflows, NothingRefuses, LinkHops,
      Informationals;
    var v := Violation(code, Condition, subject);
    AllByCheck(i);
    forall m, w | 0 <= m < n && Says(i, Checks(i)[m], w) ensures w.severity != Condition {
      assert Unconditioned(i, Checks(i)[m]);
    }
    FirstSaid(i, Checks(i), n, v);
    NothingFound(i);
    UnrefusedIsFront(i);
    FirstMeaning(All(i), Hard);
    FirstConditionIsEarly(All(i), i.limits.maxExplanationEntries);
  }

  /** What becomes of a path that neither a refusal nor a disallowed condition rejects. */
  lemma UnrefusedIsAuthorized(i: Inputs)
    requires Evaluable(i) && NothingRefuses(i) && RoomForConditions(i)
    requires NothingConditions(i) || i.policy.allowConditionalAuthorization
    ensures !Reads.Overflows(i) ==>
              && Decide(i).primary ==
                 (if NothingConditions(i) then AuthorizedOutcome else ConditionallyAuthorizedOutcome)
              && !Decide(i).hardFailure && Decide(i).primaryViolation == None
    ensures Reads.Overflows(i) ==>
              && Decide(i).primary == ResourceLimit && Decide(i).hardFailure
              && Decide(i).primaryViolation == Some(Violation(ResourceLimit, Primary, i.path.id))
  {
    hide All, Checks, First, Reads.Overflows, NothingRefuses, NothingConditions, LinkHops, Informationals;
    NothingFound(i);
    UnrefusedIsFront(i);
    FirstMeaning(All(i), Hard);
    FirstMeaning(All(i), Condition);
    FirstConditionIsEarly(All(i), i.limits.maxExplanationEntries);
  }

  /** What a committed evaluation writes and answers when some check refuses the path. */
  lemma RefusedPathIsRecorded(rt: Runtime, c: Config, w: World, p: PathDefinition, request: EvaluationRequest, n: nat,
      code: Outcome, subject: string)
    requires Usable(rt, w) && Evaluation.Evaluate(rt, c, w, p, request).1.committed
    requires p.constraintSet in rt.sets && ResolveUnderlying(rt, p, c.limits).Some?
    requires FirstRefuses(InputsFor(rt, c.limits, w, p, ResolveUnderlying(rt, p, c.limits).value), n, code, subject)
    ensures var (rt', answer) := Evaluation.Evaluate(rt, c, w, p, request);
            && answer.primary == code && p.id in rt'.records
            && rt'.records[p.id].outcome == code && rt'.records[p.id].state == StateForOutcome(code)
            && rt'.records[p.id].primaryViolation == Some(Violation(code, Primary, subject))
  {
    hide Commit, PrepareEvaluate, ResolveUnderlying, ResolvePeers, Decide, FirstRefuses, StateForOutcome, NewRecord,
      Usable, RuntimeRuns.ProperRequest, Checked, Reads.EvidenceOf, AuthorizingOutcome;
    var i := InputsFor(rt, c.limits, w, p, ResolveUnderlying(rt, p, c.limits).value);
    EvaluateIsChecked(rt, c, w, p, request);
    ReadyMeans(rt, c, w, p, request);
    ReadyCarries(rt, c, w, p, request);
    FirstRefusalIsPrimary(i, n, code, subject);
    var q := PrepareEvaluate(rt, c, w, p, request).request;
    RuntimeRuns.CommitRecords(rt, c, q);
    WrittenRecord(rt, q, Commit(rt, c, q).1.generation, c.limits);
  }

  lemma ReadyCarries(rt: Runtime, c: Config, w: World, p: PathDefinition, request: EvaluationRequest)
    requires Usable(rt, w) && PrepareEvaluate(rt, c, w, p, request).Ready?
    ensures p.constraintSet in rt.sets && ResolveUnderlying(rt, p, c.limits).Some?
    ensures var i := InputsFor(rt, c.limits, w, p, ResolveUnderlying(rt, p, c.limits).value);
            var q := PrepareEvaluate(rt, c, w, p, request).request;
            Evaluable(i) && q.path == p && q.primary == Decide(i).primary && q.state == StateForOutcome(q.primary)
            && q.primaryViolation == Decide(i).primaryViolation
  {
    hide PathShape.Shape, Decide, Reads.EvidenceOf, AuthorityDigestOf, ConstraintDigestOf, InputDigestOf,
      PathDigestOf, StateForOutcome, ResolveUnderlying, ResolvePeers, EvaluateRefusal;
  }

  lemma WrittenRecord(rt: Runtime, q: CommitRequest, generation: u64, limits: Limits)
    ensures var r := NewRecord(rt, q, generation, limits);
            r.outcome == q.primary && r.state == q.state && r.primaryViolation == q.primaryViolation
  {
    hide DependenciesOf;
  }
}
