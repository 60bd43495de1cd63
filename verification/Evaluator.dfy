/** compute_evaluation as it runs: stages that fill a collector and an evidence vector, then the resolution. */
module Evaluator {
  import opened Base
  import opened Model
  import opened Evidence
  import opened Requirements
  import opened RuntimeState
  import opened Views
  import opened Findings
  import opened Resolution
  import opened Reads
  import opened Collectors
  import Evaluation
  import Rules

  lemma {:induction false} RefsOfAt(hops: seq<PathElement>)
    ensures |RefsOf(hops)| == |hops| && forall k :: 0 <= k < |hops| ==> RefsOf(hops)[k] == hops[k].Ref()
  {
    if hops != [] { RefsOfAt(hops[1..]); }
  }

  lemma Regroup<T>(a: seq<T>, b: seq<T>, c: seq<T>)
    ensures a + b + c == a + (b + c)
  {
  }

  // ---- structure ---------------------------------------------------------------------------------

  method CheckElement(i: Inputs, h: PathElement, stage: StageCollector, rec: EvidenceRecorder)
    requires stage.Valid() && rec.Valid() && rec.inputs == i && rec.asked == []
    modifies stage, rec`overflow, rec`calls, rec`before, rec.vector
    ensures stage.Valid() && rec.Valid()
    ensures stage.log == old(stage.log) + ElementFindings(i, h)
    ensures rec.before == old(rec.before) + ElementReads(i.views, h.Ref())
  {
    hide StageCollector.Valid, EvidenceRecorder.Valid, ElementKey, HardFinding, Entry;
    var subject := ElementKey(h.Ref());
    if h.Ref() !in i.views.elements {
      rec.Remember(StructuralElement, subject, 0);
      stage.HardCall(StructurallyInvalid, subject);
      return;
    }
    var record := i.views.elements[h.Ref()];
    rec.Remember(StructuralElement, subject, record.generation);
    if record.retired {
      stage.HardCall(StructurallyInvalid, subject);
    } else if record.superseded {
      stage.HardCall(StructurallyInvalid, subject);
    } else if record.generation != h.generation {
      stage.HardCall(StaleTopology, subject);
    } else {
      assert stage.log + [] == stage.log;
    }
  }

  method CheckStructure(i: Inputs, stage: StageCollector, rec: EvidenceRecorder)
    requires stage.Valid() && rec.Valid() && rec.inputs == i && rec.asked == []
    modifies stage, rec`overflow, rec`calls, rec`before, rec.vector
    ensures stage.Valid() && rec.Valid()
    ensures stage.log == old(stage.log) + Each(i.path.hops, h => ElementFindings(i, h))
    ensures rec.before == old(rec.before) + Each(RefsOf(i.path.hops), e => ElementReads(i.views, e))
  {
    hide StageCollector.Valid, EvidenceRecorder.Valid, ElementFindings, ElementReads, RefsOf, Each;
    var hops := i.path.hops;
    ghost var refs := RefsOf(hops);
    ghost var f: PathElement -> seq<Violation> := h => ElementFindings(i, h);
    ghost var g: ElementRef -> seq<EvidenceEntry> := e => ElementReads(i.views, e);
    RefsOfAt(hops);
    NoRounds(stage.log, hops, f);
    NoRounds(rec.before, refs, g);
    for k := 0 to |hops|
      invariant stage.Valid() && rec.Valid()
      invariant stage.log == old(stage.log) + Each(hops[..k], f)
      invariant rec.before == old(rec.before) + Each(refs[..k], g)
    {
      CheckElement(i, hops[k], stage, rec);
      Round(old(stage.log), hops, k, f);
      Round(old(rec.before), refs, k, g);
    }
  }

  lemma {:induction false} PairsAt(hops: seq<PathElement>)
    ensures |Pairs(hops)| == (if hops == [] then 0 else |hops| - 1)
    ensures forall k :: 0 <= k < |Pairs(hops)| ==> Pairs(hops)[k] == (hops[k], hops[k + 1])
  {
    if |hops| >= 2 { PairsAt(hops[1..]); }
  }

  method CheckAdjacency(i: Inputs, stage: StageCollector)
    requires stage.Valid()
    modifies stage
    ensures stage.Valid()
    ensures stage.log == old(stage.log) + Each(Pairs(i.path.hops), p => HopFindings(i, p))
  {
    hide StageCollector.Valid, Each, Pairs, HopKey;
    var hops := i.path.hops;
    ghost var pairs := Pairs(hops);
    ghost var f: ((PathElement, PathElement)) -> seq<Violation> := p => HopFindings(i, p);
    PairsAt(hops);
    NoRounds(stage.log, pairs, f);
    var k := 1;
    while k < |hops|
      invariant 1 <= k <= |pairs| + 1
      invariant stage.Valid()
      invariant stage.log == old(stage.log) + Each(pairs[..k - 1], f)
    {
      if (hops[k - 1], hops[k]) !in i.views.legalHops {
        stage.HardCall(StructurallyInvalid, HopKey(hops[k - 1]) + " -> " + HopKey(hops[k]));
      } else {
        assert stage.log + [] == stage.log;
      }
      Round(old(stage.log), pairs, k - 1, f);
      k := k + 1;
    }
  }

  method CheckUnderlying(i: Inputs, stage: StageCollector, rec: EvidenceRecorder)
    requires stage.Valid() && rec.Valid() && rec.inputs == i && rec.asked == []
    modifies stage, rec`overflow, rec`calls, rec`before, rec.vector
    ensures stage.Valid() && rec.Valid()
    ensures stage.log == old(stage.log) + UnderlyingFindings(i)
    ensures rec.before == old(rec.before) + UnderlyingReads(i)
  {
    hide StageCollector.Valid, EvidenceRecorder.Valid, UnderlyingSubject;
    assert stage.log + [] == stage.log && rec.before + [] == rec.before;
    if i.path.underlying.Some? {
      var u := i.path.underlying.value;
      if !i.chain.found {
        stage.HardCall(RevalidationRequiredOutcome, u.path);
      } else {
        rec.Remember(UnderlyingAuthority, UnderlyingSubject(u.path), i.chain.generation);
        if i.chain.generation != u.authorityGeneration {
          stage.HardCall(RevalidationRequiredOutcome, u.path);
        } else if !AuthorizingOutcome(i.chain.outcome) {
          stage.HardCall(RevalidationRequiredOutcome, u.path);
        }
      }
    }
  }

  // ---- ports and links -------------------------------------------------------------------------------

  method CheckPort(i: Inputs, rules: Rules.EffectiveRules, h: PathElement, stage: StageCollector, rec: EvidenceRecorder)
    requires stage.Valid() && rec.Valid() && rec.inputs == i && rec.asked == [] && rules == i.Effective()
    modifies stage, rec`overflow, rec`calls, rec`before, rec.vector
    ensures stage.Valid() && rec.Valid()
    ensures stage.log == old(stage.log) + PortFindings(i, h)
    ensures rec.before == old(rec.before) + PortReads(i.views, h.Ref())
  {
    hide StageCollector.Valid, EvidenceRecorder.Valid, ElementKey, Rules.CombineRules, HardFinding, SoftFinding,
      Entry;
    assert stage.log + [] == stage.log && rec.before + [] == rec.before;
    if h.kind != Port { return; }
    var subject := ElementKey(h.Ref());
    if h.id !in i.views.ports {
      rec.Remember(PortConfig, subject, 0);
      stage.HardCall(PortRevalidationRequired, subject);
      return;
    }
    var port := i.views.ports[h.id];
    rec.Remember(PortConfig, subject, port.generation);
    match port.admin {
      case Active =>
      case AdminDisabled => stage.HardCall(PortAdminDisabled, subject);
      case PortRetired => stage.HardCall(PortAdminDisabled, subject);
      case Superseded => stage.HardCall(PortAdminDisabled, subject);
      case Maintenance =>
        if i.existingAuthorized && rules.portAdmin.allowMaintenanceExisting {
          stage.SoftCall(PortAdminDisabled, true, subject);
        } else {
          stage.HardCall(PortAdminDisabled, subject);
        }
      case Draining =>
        if i.existingAuthorized && rules.portAdmin.allowDrainingExisting {
          stage.SoftCall(PortAdminDisabled, true, subject);
        } else {
          stage.HardCall(PortAdminDisabled, subject);
        }
      case PortRevalidation => stage.HardCall(PortRevalidationRequired, subject);
      case PortUnknown => stage.HardCall(PortRevalidationRequired, subject);
    }
  }

  method CheckPorts(i: Inputs, rules: Rules.EffectiveRules, stage: StageCollector, rec: EvidenceRecorder)
    requires stage.Valid() && rec.Valid() && rec.inputs == i && rec.asked == [] && rules == i.Effective()
    modifies stage, rec`overflow, rec`calls, rec`before, rec.vector
    ensures stage.Valid() && rec.Valid()
    ensures stage.log == old(stage.log) + PortStage(i)
    ensures rec.before == old(rec.before) + Each(RefsOf(i.path.hops), e => PortReads(i.views, e))
  {
    hide StageCollector.Valid, EvidenceRecorder.Valid, PortFindings, PortReads, RefsOf, Each, Rules.CombineRules;
    var hops := i.path.hops;
    ghost var refs := RefsOf(hops);
    ghost var f: PathElement -> seq<Violation> := h => PortFindings(i, h);
    ghost var g: ElementRef -> seq<EvidenceEntry> := e => PortReads(i.views, e);
    RefsOfAt(hops);
    NoRounds(stage.log, hops, f);
    NoRounds(rec.before, refs, g);
    for k := 0 to |hops|
      invariant stage.Valid() && rec.Valid()
      invariant stage.log == old(stage.log) + Each(hops[..k], f)
      invariant rec.before == old(rec.before) + Each(refs[..k], g)
    {
      CheckPort(i, rules, hops[k], stage, rec);
      Round(old(stage.log), hops, k, f);
      Round(old(rec.before), refs, k, g);
    }
  }

  method CheckLink(i: Inputs, rules: Rules.EffectiveRules, h: PathElement, stage: StageCollector, rec: EvidenceRecorder)
    requires stage.Valid() && rec.Valid() && rec.inputs == i && rec.asked == [] && rules == i.Effective()
    modifies stage, rec`overflow, rec`calls, rec`before, rec.vector
    ensures stage.Valid() && rec.Valid()
    ensures stage.log == old(stage.log) + LinkFindings(i, h)
    ensures rec.before == old(rec.before) + LinkReads(i.views, h.Ref())
  {
    hide StageCollector.Valid, EvidenceRecorder.Valid, ElementKey, Rules.CombineRules, HardFinding, SoftFinding,
      Entry;
    assert stage.log + [] == stage.log && rec.before + [] == rec.before;
    if h.kind != Link { return; }
    var subject := ElementKey(h.Ref());
    if h.id !in i.views.links {
      rec.Remember(LinkStateKind, subject, 0);
      if !rules.linkState.allowUnknown {
        stage.HardCall(LinkStateUnknown, subject);
      } else {
        stage.SoftCall(LinkStateUnknown, rules.linkState.unknownIsConditional, subject);
      }
      return;
    }
    var link := i.views.links[h.id];
    rec.Remember(LinkStateKind, subject, link.generation);
    match link.state {
      case Up =>
      case Down => stage.HardCall(Outcome.LinkDown, subject);
      case Faulted => stage.HardCall(Outcome.LinkDown, subject);
      case LinkRetired => stage.HardCall(Outcome.LinkDown, subject);
      case LinkRevalidation => stage.HardCall(RevalidationRequiredOutcome, subject);
      case Degraded =>
        if !rules.linkState.allowDegraded {
          stage.HardCall(Outcome.LinkDegraded, subject);
        } else {
          stage.SoftCall(Outcome.LinkDegraded, rules.linkState.degradedIsConditional, subject);
        }
      case LinkUnknown =>
        if !rules.linkState.allowUnknown {
          stage.HardCall(LinkStateUnknown, subject);
        } else {
          stage.SoftCall(LinkStateUnknown, rules.linkState.unknownIsConditional, subject);
        }
    }
  }

  method CheckLinks(i: Inputs, rules: Rules.EffectiveRules, stage: StageCollector, rec: EvidenceRecorder)
    requires stage.Valid() && rec.Valid() && rec.inputs == i && rec.asked == [] && rules == i.Effective()
    modifies stage, rec`overflow, rec`calls, rec`before, rec.vector
    ensures stage.Valid() && rec.Valid()
    ensures stage.log == old(stage.log) + LinkStage(i)
    ensures rec.before == old(rec.before) + Each(RefsOf(i.path.hops), e => LinkReads(i.views, e))
  {
    hide StageCollector.Valid, EvidenceRecorder.Valid, LinkFindings, LinkReads, RefsOf, Each, Rules.CombineRules;
    var hops := i.path.hops;
    ghost var refs := RefsOf(hops);
    ghost var f: PathElement -> seq<Violation> := h => LinkFindings(i, h);
    ghost var g: ElementRef -> seq<EvidenceEntry> := e => LinkReads(i.views, e);
    RefsOfAt(hops);
    NoRounds(stage.log, hops, f);
    NoRounds(rec.before, refs, g);
    for k := 0 to |hops|
      invariant stage.Valid() && rec.Valid()
      invariant stage.log == old(stage.log) + Each(hops[..k], f)
      invariant rec.before == old(rec.before) + Each(refs[..k], g)
    {
      CheckLink(i, rules, hops[k], stage, rec);
      Round(old(stage.log), hops, k, f);
      Round(old(rec.before), refs, k, g);
    }
  }

  // ---- capabilities ----------------------------------------------------------------------------------

  method CheckCapability(i: Inputs, c: CapabilityRequirement, stage: StageCollector, rec: EvidenceRecorder)
    requires stage.Valid() && rec.Valid() && rec.inputs == i && rec.asked == [] && Shaped(c.expression)
    modifies stage, rec`overflow, rec`calls, rec`before, rec.vector
    ensures stage.Valid() && rec.Valid()
    ensures stage.log == old(stage.log) + CapabilityFindings(i, c)
    ensures rec.before == old(rec.before) + CapabilityReads(i.views, (c.entity, c.key))
  {
    hide StageCollector.Valid, EvidenceRecorder.Valid, CapabilityKey, Shaped, Evaluate;
    var subject := CapabilityKey(c.entity, c.key);
    var record := i.Lookup(c);
    rec.Remember(Capability, subject, if record.known then record.generation else 0);
    var status := EvaluateNode(c.expression, record);
    if status == Unsatisfied {
      stage.HardCall(CapabilityMissing, subject);
    } else if status == Unknown {
      if c.failClosedOnUnknown {
        stage.HardCall(CapabilityUnknown, subject);
      } else {
        stage.SoftCall(CapabilityUnknown, true, subject);
      }
    } else {
      assert stage.log + [] == stage.log;
    }
  }

  lemma {:induction false} CapabilityStageSnoc(i: Inputs, cs: seq<CapabilityRequirement>, c: CapabilityRequirement)
    requires (forall x :: x in cs ==> Shaped(x.expression)) && Shaped(c.expression)
    ensures forall x :: x in cs + [c] ==> Shaped(x.expression)
    ensures CapabilityStage(i, cs + [c]) == CapabilityStage(i, cs) + CapabilityFindings(i, c)
  {
    hide Shaped, CapabilityFindings;
    if cs == [] {
      assert cs + [c] == [c] && [c][1..] == [];
    } else {
      assert (cs + [c])[0] == cs[0] && (cs + [c])[1..] == cs[1..] + [c];
      CapabilityStageSnoc(i, cs[1..], c);
    }
  }

  lemma {:induction false} CapabilityPairsAt(cs: seq<CapabilityRequirement>)
    ensures |CapabilityPairs(cs)| == |cs|
    ensures forall k :: 0 <= k < |cs| ==> CapabilityPairs(cs)[k] == (cs[k].entity, cs[k].key)
  {
    if cs != [] { CapabilityPairsAt(cs[1..]); }
  }

  method CheckCapabilities(i: Inputs, cs: seq<CapabilityRequirement>, stage: StageCollector, rec: EvidenceRecorder)
    requires stage.Valid() && rec.Valid() && rec.inputs == i && rec.asked == []
    requires forall c :: c in cs ==> Shaped(c.expression)
    modifies stage, rec`overflow, rec`calls, rec`before, rec.vector
    ensures stage.Valid() && rec.Valid()
    ensures stage.log == old(stage.log) + CapabilityStage(i, cs)
    ensures rec.before == old(rec.before) + Each(CapabilityPairs(cs), c => CapabilityReads(i.views, c))
  {
    hide StageCollector.Valid, EvidenceRecorder.Valid, Shaped, CapabilityReads, CapabilityFindings, CapabilityStage,
      Each, CapabilityPairs;
    ghost var pairs := CapabilityPairs(cs);
    ghost var g: ((string, string)) -> seq<EvidenceEntry> := c => CapabilityReads(i.views, c);
    CapabilityPairsAt(cs);
    NoRounds(rec.before, pairs, g);
    NoCapabilities(i, cs);
    for k := 0 to |cs|
      invariant stage.Valid() && rec.Valid()
      invariant (forall c :: c in cs[..k] ==> Shaped(c.expression))
                && stage.log == old(stage.log) + CapabilityStage(i, cs[..k])
      invariant rec.before == old(rec.before) + Each(pairs[..k], g)
    {
      CheckCapability(i, cs[k], stage, rec);
      assert cs[..k + 1] == cs[..k] + [cs[k]];
      CapabilityStageSnoc(i, cs[..k], cs[k]);
      Round(old(rec.before), pairs, k, g);
    }
    assert cs[..|cs|] == cs;
  }

  lemma NoCapabilities(i: Inputs, cs: seq<CapabilityRequirement>)
    ensures CapabilityStage(i, cs[..0]) == []
  {
  }

  // ---- failure domains ---------------------------------------------------------------------------------

  method CheckForbidden(i: Inputs, c: DomainConstraint, stage: StageCollector, rec: EvidenceRecorder)
    requires stage.Valid() && rec.Valid() && rec.inputs == i
    modifies stage, rec`overflow, rec`calls, rec`cache, rec`asked, rec.vector
    ensures stage.Valid() && rec.Valid()
    ensures stage.log == old(stage.log) + Each(i.path.hops, h => ForbiddenFindings(i, c, h))
    ensures rec.asked == old(rec.asked) + RefsOf(i.path.hops)
  {
    hide StageCollector.Valid, EvidenceRecorder.Valid, ElementKey, RefsOf, Each, HardFinding, ClassesOf;
    var hops := i.path.hops;
    ghost var refs := RefsOf(hops);
    ghost var f: PathElement -> seq<Violation> := h => ForbiddenFindings(i, c, h);
    RefsOfAt(hops);
    NoRounds(stage.log, hops, f);
    for k := 0 to |hops|
      invariant stage.Valid() && rec.Valid()
      invariant stage.log == old(stage.log) + Each(hops[..k], f)
      invariant rec.asked == old(rec.asked) + refs[..k]
    {
      var key := ElementKey(hops[k].Ref());
      var m := rec.EnsureMembership(hops[k].Ref());
      if !m.covered {
        stage.HardCall(FailureDomainCoverageUnknown, key);
      } else if c.domain in m.list {
        stage.HardCall(FailureDomainViolation, key);
      } else {
        assert stage.log + [] == stage.log;
      }
      Round(old(stage.log), hops, k, f);
      assert refs[..k + 1] == refs[..k] + [hops[k].Ref()];
    }
    assert refs[..|hops|] == refs;
  }

  lemma CountSnoc(hops: seq<PathElement>, k: nat, p: PathElement -> bool)
    requires k < |hops|
    ensures Counting(hops[..k + 1], p) == Counting(hops[..k], p) + if p(hops[k]) then 1 else 0
  {
    assert hops[..k + 1] == hops[..k] + [hops[k]];
    CountingPlus(hops[..k], [hops[k]], p);
    assert [hops[k]][1..] == [];
  }

  lemma ClassListed(i: Inputs, h: PathElement, k: DomainClass)
    ensures k in ClassesOf(i, i.MembersOf(h.Ref())) <==> InClass(i, h, k)
  {
    var list := i.MembersOf(h.Ref());
    var classes := ClassesOf(i, list);
    if InClass(i, h, k) {
      var d :| d in list && i.ClassOf(d) == k;
      var j :| 0 <= j < |list| && list[j] == d;
      assert classes[j] == k;
    }
  }

  /**
   * The two counting constraints. Every hop is asked for; uncovered hops are not counted, and one of them is
   * enough to give up the count.
   */
  method CheckCount(i: Inputs, c: DomainConstraint, byClass: bool, subject: string, ghost counted: PathElement -> bool,
                    stage: StageCollector, rec: EvidenceRecorder)
    requires stage.Valid() && rec.Valid() && rec.inputs == i
    requires forall h :: counted(h) == if byClass then InClass(i, h, c.domainClass) else InDomain(i, h, c.domain)
    modifies stage, rec`overflow, rec`calls, rec`cache, rec`asked, rec.vector
    ensures stage.Valid() && rec.Valid()
    ensures stage.log == old(stage.log) + CountFindings(i, c, subject, counted)
    ensures rec.asked == old(rec.asked) + RefsOf(i.path.hops)
  {
    hide StageCollector.Valid, EvidenceRecorder.Valid, ElementKey, RefsOf, Counting, HardFinding, ClassesOf, InClass;
    var hops := i.path.hops;
    ghost var refs := RefsOf(hops);
    RefsOfAt(hops);
    var count, incomplete := 0, false;
    assert Counting(hops[..0], counted) == 0 by { NothingCounted(hops, counted); }
    for k := 0 to |hops|
      invariant stage.Valid() && rec.Valid() && stage.log == old(stage.log)
      invariant incomplete <==> exists h :: h in hops[..k] && !Covers(i, h)
      invariant !incomplete ==> count == Counting(hops[..k], counted)
      invariant rec.asked == old(rec.asked) + refs[..k]
    {
      var m := rec.EnsureMembership(hops[k].Ref());
      ClassListed(i, hops[k], c.domainClass);
      CountSnoc(hops, k, counted);
      assert hops[..k + 1] == hops[..k] + [hops[k]];
      assert refs[..k + 1] == refs[..k] + [hops[k].Ref()];
      if !m.covered {
        incomplete := true;
        assert !Covers(i, hops[k]) && hops[k] in hops[..k + 1];
      } else if if byClass then c.domainClass in m.classes else c.domain in m.list {
        count := count + 1;
      }
    }
    assert refs[..|hops|] == refs && hops[..|hops|] == hops;
    if incomplete {
      stage.HardCall(FailureDomainCoverageUnknown, subject);
    } else if count > c.maxMembers {
      stage.HardCall(FailureDomainViolation, subject);
    } else {
      assert stage.log + [] == stage.log;
    }
  }

  lemma NothingCounted(hops: seq<PathElement>, p: PathElement -> bool)
    ensures Counting(hops[..0], p) == 0
  {
  }

  /** One finding for every domain of the class among the members of one hop. */
  method ReportClass(i: Inputs, k: DomainClass, code: Outcome, subject: string, m: Membership, ghost e: ElementRef,
      stage: StageCollector)
    requires stage.Valid() && m == MembershipOf(i, e)
    modifies stage
    ensures stage.Valid()
    ensures stage.log == old(stage.log) + Each(i.MembersOf(e), d => ExcludedMember(i, k, code, subject, d))
  {
    hide StageCollector.Valid, HardFinding, Each;
    ghost var f: string -> seq<Violation> := d => ExcludedMember(i, k, code, subject, d);
    NoRounds(stage.log, m.list, f);
    for j := 0 to |m.list|
      invariant stage.Valid()
      invariant stage.log == old(stage.log) + Each(m.list[..j], f)
    {
      if m.classes[j] == k {
        stage.HardCall(code, subject);
      } else {
        assert stage.log + [] == stage.log;
      }
      Round(old(stage.log), m.list, j, f);
    }
  }

  method CheckExcluded(i: Inputs, k: DomainClass, code: Outcome, stage: StageCollector, rec: EvidenceRecorder)
    requires stage.Valid() && rec.Valid() && rec.inputs == i
    modifies stage, rec`overflow, rec`calls, rec`cache, rec`asked, rec.vector
    ensures stage.Valid() && rec.Valid()
    ensures stage.log == old(stage.log) + Each(i.path.hops, h => ExcludedFindings(i, k, code, h))
    ensures rec.asked == old(rec.asked) + RefsOf(i.path.hops)
  {
    hide StageCollector.Valid, EvidenceRecorder.Valid, ElementKey, RefsOf, Each, HardFinding, ClassesOf,
      ExcludedMember;
    var hops := i.path.hops;
    ghost var refs := RefsOf(hops);
    ghost var f: PathElement -> seq<Violation> := h => ExcludedFindings(i, k, code, h);
    RefsOfAt(hops);
    NoRounds(stage.log, hops, f);
    for n := 0 to |hops|
      invariant stage.Valid() && rec.Valid()
      invariant stage.log == old(stage.log) + Each(hops[..n], f)
      invariant rec.asked == old(rec.asked) + refs[..n]
    {
      var key := ElementKey(hops[n].Ref());
      var m := rec.EnsureMembership(hops[n].Ref());
      if !m.covered {
        stage.HardCall(FailureDomainCoverageUnknown, key);
      } else {
        ReportClass(i, k, code, key, m, hops[n].Ref(), stage);
      }
      Round(old(stage.log), hops, n, f);
      assert refs[..n + 1] == refs[..n] + [hops[n].Ref()];
    }
    assert refs[..|hops|] == refs;
  }

  method CheckCoverage(i: Inputs, stage: StageCollector, rec: EvidenceRecorder)
    requires stage.Valid() && rec.Valid() && rec.inputs == i
    modifies stage, rec`overflow, rec`calls, rec`cache, rec`asked, rec.vector
    ensures stage.Valid() && rec.Valid()
    ensures stage.log == old(stage.log) + Each(i.path.hops, h => CoverageFindings(i, h))
    ensures rec.asked == old(rec.asked) + RefsOf(i.path.hops)
  {
    hide StageCollector.Valid, EvidenceRecorder.Valid, ElementKey, RefsOf, Each, HardFinding, ClassesOf;
    var hops := i.path.hops;
    ghost var refs := RefsOf(hops);
    ghost var f: PathElement -> seq<Violation> := h => CoverageFindings(i, h);
    RefsOfAt(hops);
    NoRounds(stage.log, hops, f);
    for k := 0 to |hops|
      invariant stage.Valid() && rec.Valid()
      invariant stage.log == old(stage.log) + Each(hops[..k], f)
      invariant rec.asked == old(rec.asked) + refs[..k]
    {
      var m := rec.EnsureMembership(hops[k].Ref());
      if !m.covered {
        stage.HardCall(FailureDomainCoverageUnknown, ElementKey(hops[k].Ref()));
      } else {
        assert stage.log + [] == stage.log;
      }
      Round(old(stage.log), hops, k, f);
      assert refs[..k + 1] == refs[..k] + [hops[k].Ref()];
    }
    assert refs[..|hops|] == refs;
  }

  // ---- diversity ------------------------------------------------------------------------------------------

  /** Asks for every element of a list and notes whether one is not covered. */
  method AskAll(i: Inputs, es: seq<ElementRef>, rec: EvidenceRecorder) returns (complete: bool)
    requires rec.Valid() && rec.inputs == i
    modifies rec`overflow, rec`calls, rec`cache, rec`asked, rec.vector
    ensures rec.Valid() && rec.asked == old(rec.asked) + es
    ensures complete <==> forall e :: e in es ==> e in i.views.covered
  {
    hide EvidenceRecorder.Valid, ElementKey, ClassesOf;
    complete := true;
    for k := 0 to |es|
      invariant rec.Valid() && rec.asked == old(rec.asked) + es[..k]
      invariant complete <==> forall e :: e in es[..k] ==> e in i.views.covered
    {
      var m := rec.EnsureMembership(es[k]);
      assert es[..k + 1] == es[..k] + [es[k]];
      if !m.covered {
        complete := false;
        assert es[k] in es[..k + 1];
      }
    }
    assert es[..|es|] == es;
  }

  /** The innermost loop: the peer element's members that are the same domain in the same class. */
  method ReportShared(i: Inputs, k: DomainClass, subject: string, d: string, m: Membership, ghost e: ElementRef,
      stage: StageCollector)
    requires stage.Valid() && m == MembershipOf(i, e)
    modifies stage
    ensures stage.Valid()
    ensures stage.log == old(stage.log) + Each(i.MembersOf(e), d' => SharedDomain(i, k, subject, d, d'))
  {
    hide StageCollector.Valid, HardFinding, Each;
    ghost var f: string -> seq<Violation> := d' => SharedDomain(i, k, subject, d, d');
    NoRounds(stage.log, m.list, f);
    for j := 0 to |m.list|
      invariant stage.Valid()
      invariant stage.log == old(stage.log) + Each(m.list[..j], f)
    {
      if m.classes[j] == k && m.list[j] == d {
        stage.HardCall(FailureDomainViolation, subject);
      } else {
        assert stage.log + [] == stage.log;
      }
      Round(old(stage.log), m.list, j, f);
    }
  }

  ghost predicate Cached(i: Inputs, cache: map<string, Membership>, es: seq<ElementRef>) {
    forall e :: e in es ==> ElementKey(e) in cache && cache[ElementKey(e)] == MembershipOf(i, e)
  }

  method ReportPeer(i: Inputs, peer: seq<ElementRef>, k: DomainClass, h: PathElement, d: string, cache: map<string,
      Membership>,
                    stage: StageCollector)
    requires stage.Valid() && Cached(i, cache, peer)
    modifies stage
    ensures stage.Valid()
    ensures stage.log == old(stage.log) + SharedDomainFindings(i, peer, k, h, d)
  {
    hide StageCollector.Valid, Each, SharedDomain, ElementKey, MembershipOf;
    if i.ClassOf(d) != k {
      assert stage.log + [] == stage.log;
      return;
    }
    var subject := HopKey(h);
    ghost var f: ElementRef -> seq<Violation> := e => Each(i.MembersOf(e), d' => SharedDomain(i, k, subject, d, d'));
    NoRounds(stage.log, peer, f);
    for n := 0 to |peer|
      invariant stage.Valid()
      invariant stage.log == old(stage.log) + Each(peer[..n], f)
    {
      ReportShared(i, k, subject, d, cache[ElementKey(peer[n])], peer[n], stage);
      Round(old(stage.log), peer, n, f);
    }
  }

  method ReportHop(i: Inputs, peer: seq<ElementRef>, k: DomainClass, h: PathElement, cache: map<string, Membership>,
      stage: StageCollector)
    requires stage.Valid() && Cached(i, cache, peer) && Cached(i, cache, RefsOf(i.path.hops))
             && h.Ref() in RefsOf(i.path.hops)
    modifies stage
    ensures stage.Valid()
    ensures stage.log == old(stage.log) + Each(i.MembersOf(h.Ref()), d => SharedDomainFindings(i, peer, k, h, d))
  {
    hide StageCollector.Valid, Each, SharedDomainFindings, ElementKey, RefsOf, ClassesOf;
    var list := cache[ElementKey(h.Ref())].list;
    ghost var f: string -> seq<Violation> := d => SharedDomainFindings(i, peer, k, h, d);
    NoRounds(stage.log, list, f);
    for n := 0 to |list|
      invariant stage.Valid()
      invariant stage.log == old(stage.log) + Each(list[..n], f)
    {
      ReportPeer(i, peer, k, h, list[n], cache, stage);
      Round(old(stage.log), list, n, f);
    }
  }

  method ReportSharedClass(i: Inputs, peer: seq<ElementRef>, k: DomainClass, cache: map<string, Membership>,
      stage: StageCollector)
    requires stage.Valid() && Cached(i, cache, peer) && Cached(i, cache, RefsOf(i.path.hops))
    modifies stage
    ensures stage.Valid()
    ensures stage.log == old(stage.log) + SharedClassFindings(i, peer, k)
  {
    hide StageCollector.Valid, Each, SharedDomainFindings, RefsOf, Cached;
    var hops := i.path.hops;
    ghost var f: PathElement -> seq<Violation> := (h: PathElement) =>
        Each(i.MembersOf(h.Ref()), d => SharedDomainFindings(i, peer, k, h, d));
    RefsOfAt(hops);
    NoRounds(stage.log, hops, f);
    for n := 0 to |hops|
      invariant stage.Valid()
      invariant stage.log == old(stage.log) + Each(hops[..n], f)
    {
      assert RefsOf(hops)[n] == hops[n].Ref();
      ReportHop(i, peer, k, hops[n], cache, stage);
      Round(old(stage.log), hops, n, f);
    }
  }

  method ReportSharedElements(i: Inputs, peer: seq<ElementRef>, stage: StageCollector)
    requires stage.Valid()
    modifies stage
    ensures stage.Valid()
    ensures stage.log == old(stage.log) + Each(i.path.hops, h => SharedElementFindings(peer, h))
  {
    hide StageCollector.Valid, Each, HopKey, HardFinding;
    var hops := i.path.hops;
    ghost var f: PathElement -> seq<Violation> := h => SharedElementFindings(peer, h);
    NoRounds(stage.log, hops, f);
    for n := 0 to |hops|
      invariant stage.Valid()
      invariant stage.log == old(stage.log) + Each(hops[..n], f)
    {
      if hops[n].Ref() in peer {
        stage.HardCall(FailureDomainViolation, HopKey(hops[n]));
      } else {
        assert stage.log + [] == stage.log;
      }
      Round(old(stage.log), hops, n, f);
    }
  }

  lemma AskedIsCached(rec: EvidenceRecorder, es: seq<ElementRef>)
    requires rec.Valid() && forall e :: e in es ==> e in rec.asked
    ensures Cached(rec.inputs, rec.cache, es)
  {
    hide ElementKey, MembershipOf;
    forall e | e in es ensures ElementKey(e) in rec.cache { assert ElementKey(e) in KeysOf(rec.asked); }
  }

  lemma CoveredHops(i: Inputs)
    ensures (forall e :: e in RefsOf(i.path.hops) ==> e in i.views.covered) <==> AllCovered(i)
  {
    hide RefsOf;
    var refs := RefsOf(i.path.hops);
    RefsOfAt(i.path.hops);
    if forall e :: e in refs ==> e in i.views.covered {
      forall h | h in i.path.hops ensures Covers(i, h) {
        var k :| 0 <= k < |i.path.hops| && i.path.hops[k] == h;
        assert refs[k] in refs;
      }
    }
    if AllCovered(i) {
      forall e | e in refs ensures e in i.views.covered {
        var k :| 0 <= k < |refs| && refs[k] == e;
        assert Covers(i, i.path.hops[k]);
      }
    }
  }

  method CheckDiversity(i: Inputs, c: DomainConstraint, stage: StageCollector, rec: EvidenceRecorder)
    requires stage.Valid() && rec.Valid() && rec.inputs == i && c.kind == DiverseFromPeerPath
    modifies stage, rec`overflow, rec`calls, rec`cache, rec`asked, rec.vector
    ensures stage.Valid() && rec.Valid()
    ensures stage.log == old(stage.log) + DiversityFindings(i, c)
    ensures rec.asked == old(rec.asked) + AskedBy(i, c)
  {
    hide StageCollector.Valid, EvidenceRecorder.Valid, RefsOf, Each, HardFinding, SharedElementFindings,
      SharedClassFindings, DiversityClasses, AllCovered, Cached;
    if c.peerPath !in i.peers || !i.peers[c.peerPath].found || !AuthorizingOutcome(i.peers[c.peerPath].outcome) {
      assert rec.asked + [] == rec.asked;
      stage.HardCall(FailureDomainCoverageUnknown, c.peerPath);
      return;
    }
    var peer := i.peers[c.peerPath].elements;
    var refs := RefsOf(i.path.hops);
    var peerComplete := AskAll(i, peer, rec);
    var selfComplete := AskAll(i, refs, rec);
    Regroup(old(rec.asked), peer, refs);
    CoveredHops(i);
    if !peerComplete || !selfComplete {
      stage.HardCall(FailureDomainCoverageUnknown, c.peerPath);
      return;
    }
    AskedIsCached(rec, peer);
    AskedIsCached(rec, refs);
    ReportSharedElements(i, peer, stage);
    ghost var start := stage.log;
    var cache := rec.cache;
    var classes := DiversityClasses(c);
    ghost var f: DomainClass -> seq<Violation> := k => SharedClassFindings(i, peer, k);
    NoRounds(start, classes, f);
    for n := 0 to |classes|
      invariant stage.Valid() && rec.Valid() && rec.asked == old(rec.asked) + (peer + refs)
      invariant stage.log == start + Each(classes[..n], f)
    {
      ReportSharedClass(i, peer, classes[n], cache, stage);
      Round(start, classes, n, f);
    }
    Regroup(old(stage.log), Each(i.path.hops, h => SharedElementFindings(peer, h)), Each(classes, f));
  }

  method CheckDomain(i: Inputs, c: DomainConstraint, stage: StageCollector, rec: EvidenceRecorder)
    requires stage.Valid() && rec.Valid() && rec.inputs == i
    modifies stage, rec`overflow, rec`calls, rec`cache, rec`asked, rec.vector
    ensures stage.Valid() && rec.Valid()
    ensures stage.log == old(stage.log) + DomainFindings(i, c)
    ensures rec.asked == old(rec.asked) + AskedBy(i, c)
  {
    hide StageCollector.Valid, EvidenceRecorder.Valid, RefsOf, Each, InClass, InDomain, CountFindings,
      DiversityFindings, Rules.ClassName;
    match c.kind {
      case ForbiddenDomain => CheckForbidden(i, c, stage, rec);
      case MaxMembersFromDomain => CheckCount(i, c, false, c.domain, h => InDomain(i, h, c.domain), stage, rec);
      case MaxMembersFromClass =>
        CheckCount(i, c, true, Rules.ClassName(c.domainClass), h => InClass(i, h, c.domainClass), stage, rec);
      case ExcludeDomainClass => CheckExcluded(i, c.domainClass, FailureDomainViolation, stage, rec);
      case RequireCoverageCompleteness => CheckCoverage(i, stage, rec);
      case DiverseFromPeerPath => CheckDiversity(i, c, stage, rec);
    }
  }

  method CheckDomains(i: Inputs, rules: Rules.EffectiveRules, stage: StageCollector, rec: EvidenceRecorder)
    requires stage.Valid() && rec.Valid() && rec.inputs == i && rules == i.Effective()
    modifies stage, rec`overflow, rec`calls, rec`cache, rec`asked, rec.vector
    ensures stage.Valid() && rec.Valid()
    ensures stage.log == old(stage.log) + DomainStage(i)
    ensures rec.asked == old(rec.asked) + (if DomainStageNeeded(i) then RefsOf(i.path.hops) else [])
                         + Each(rules.failureDomains, c => AskedBy(i, c))
  {
    hide StageCollector.Valid, EvidenceRecorder.Valid, RefsOf, Each, DomainFindings, AskedBy, Rules.CombineRules;
    if i.constraints.failureDomains != [] || rules.forbiddenClasses != [] {
      var _ := AskAll(i, RefsOf(i.path.hops), rec);
    } else {
      assert rec.asked + [] == rec.asked;
    }
    ghost var start := rec.asked;
    var cs := rules.failureDomains;
    ghost var f: DomainConstraint -> seq<Violation> := c => DomainFindings(i, c);
    ghost var g: DomainConstraint -> seq<ElementRef> := c => AskedBy(i, c);
    NoRounds(stage.log, cs, f);
    NoRounds(start, cs, g);
    for n := 0 to |cs|
      invariant stage.Valid() && rec.Valid()
      invariant stage.log == old(stage.log) + Each(cs[..n], f)
      invariant rec.asked == start + Each(cs[..n], g)
    {
      CheckDomain(i, cs[n], stage, rec);
      Round(old(stage.log), cs, n, f);
      Round(start, cs, n, g);
    }
  }

  // ---- policy --------------------------------------------------------------------------------------------

  method CheckLayers(i: Inputs, rules: Rules.EffectiveRules, stage: StageCollector)
    requires stage.Valid() && rules == i.Effective()
    modifies stage
    ensures stage.Valid()
    ensures stage.log == old(stage.log) + Each(i.path.hops, h => LayerFindings(i, h))
  {
    hide StageCollector.Valid, Each, HopKey, HardFinding, Rules.CombineRules, Rules.LayerAllowed;
    var hops := i.path.hops;
    ghost var f: PathElement -> seq<Violation> := h => LayerFindings(i, h);
    NoRounds(stage.log, hops, f);
    for n := 0 to |hops|
      invariant stage.Valid()
      invariant stage.log == old(stage.log) + Each(hops[..n], f)
    {
      if !Rules.LayerAllowed(rules.allowedLayers, hops[n].layer) {
        stage.HardCall(PolicyRejected, HopKey(hops[n]));
      } else {
        assert stage.log + [] == stage.log;
      }
      Round(old(stage.log), hops, n, f);
    }
  }

  method CheckRepeats(i: Inputs, rules: Rules.EffectiveRules, stage: StageCollector)
    requires stage.Valid() && rules == i.Effective()
    modifies stage
    ensures stage.Valid()
    ensures stage.log == old(stage.log) + LoopFindings(i)
  {
    hide StageCollector.Valid, HopKey, HardFinding, Rules.CombineRules;
    if rules.allowLoops {
      assert stage.log + [] == stage.log;
      return;
    }
    var hops := i.path.hops;
    var seen: set<string> := {};
    assert hops[0..] == hops;
    for n := 0 to |hops|
      invariant stage.Valid()
      invariant stage.log + RepeatFindings(hops[n..], seen) == old(stage.log) + RepeatFindings(hops, {})
    {
      ghost var rest := RepeatFindings(hops[n + 1..], seen + {HopKey(hops[n])});
      assert hops[n..][0] == hops[n] && hops[n..][1..] == hops[n + 1..];
      if HopKey(hops[n]) in seen {
        Regroup(stage.log, HardFinding(PolicyRejected, HopKey(hops[n])), rest);
        stage.HardCall(PolicyRejected, HopKey(hops[n]));
      } else {
        assert [] + rest == rest;
      }
      seen := seen + {HopKey(hops[n])};
    }
    assert stage.log + [] == stage.log;
  }

  method CheckPolicy(i: Inputs, rules: Rules.EffectiveRules, stage: StageCollector, rec: EvidenceRecorder)
    requires stage.Valid() && rec.Valid() && rec.inputs == i && rules == i.Effective()
    modifies stage, rec`overflow, rec`calls, rec`cache, rec`asked, rec.vector
    ensures stage.Valid() && rec.Valid()
    ensures stage.log == old(stage.log) + PolicyStage(i)
    ensures rec.asked == old(rec.asked) + Each(rules.forbiddenClasses, k => RefsOf(i.path.hops))
  {
    hide StageCollector.Valid, EvidenceRecorder.Valid, RefsOf, Each, LayerFindings, LoopFindings, ExcludedFindings,
      HardFinding, Rules.CombineRules;
    CheckLayers(i, rules, stage);
    CheckRepeats(i, rules, stage);
    if |i.path.hops| > rules.maxHops {
      stage.HardCall(PolicyRejected, i.path.id);
    } else {
      assert stage.log + [] == stage.log;
    }
    ghost var start := stage.log;
    ghost var front := Each(i.path.hops, h => LayerFindings(i, h)) + LoopFindings(i) + LengthFindings(i);
    assert start == old(stage.log) + front;
    var ks := rules.forbiddenClasses;
    ghost var f: DomainClass -> seq<Violation> := k => ForbiddenClassFindings(i, k);
    ghost var g: DomainClass -> seq<ElementRef> := k => RefsOf(i.path.hops);
    NoRounds(start, ks, f);
    NoRounds(rec.asked, ks, g);
    for n := 0 to |ks|
      invariant stage.Valid() && rec.Valid()
      invariant stage.log == start + Each(ks[..n], f)
      invariant rec.asked == old(rec.asked) + Each(ks[..n], g)
    {
      CheckExcluded(i, ks[n], PolicyRejected, stage, rec);
      Round(start, ks, n, f);
      Round(old(rec.asked), ks, n, g);
    }
    Regroup(old(stage.log), front, Each(ks, f));
  }

  // ---- the whole evaluation --------------------------------------------------------------------------------

  lemma HardenSplit(vs: seq<Violation>, k: nat)
    requires k < |vs| && vs[k].severity == Condition && forall j :: 0 <= j < k ==> vs[j].severity != Condition
    ensures First(vs, Condition) == Some(vs[k]) && HardenFirst(vs) == vs[k := vs[k].(severity := Hard)]
  {
    if k > 0 {
      HardenSplit(vs[1..], k - 1);
      assert vs == [vs[0]] + vs[1..];
    } else {
      assert [vs[0].(severity := Hard)] + vs[1..] == vs[0 := vs[0].(severity := Hard)];
    }
  }

  /** Without a hard failure: conditional authorization, or the first condition made hard. */
  method ResolveConditions(stage: StageCollector, allowConditional: bool)
    requires stage.Valid()
    modifies stage
    ensures stage.log == old(stage.log)
    ensures Verdict(stage.primary, stage.hardFailure, stage.primaryViolation, stage.violations)
            == Resolve(stage.log, stage.bound, allowConditional)
  {
    hide HardenFirst, First;
    if stage.hardFailure { return; }
    var conditional := false;
    FirstMeaning(stage.violations, Condition);
    for k := 0 to |stage.violations|
      invariant stage.Valid() && stage.log == old(stage.log) && stage.violations == old(stage.violations)
      invariant !stage.hardFailure
      invariant conditional <==> exists j :: 0 <= j < k && stage.violations[j].severity == Condition
      invariant conditional ==> allowConditional
    {
      if stage.violations[k].severity == Condition {
        if allowConditional {
          conditional := true;
        } else {
          HardenSplit(stage.violations, k);
          stage.primary := stage.violations[k].code;
          stage.violations := stage.violations[k := stage.violations[k].(severity := Hard)];
          stage.hardFailure := true;
          return;
        }
      }
    }
    stage.primary := if conditional then ConditionallyAuthorizedOutcome else AuthorizedOutcome;
  }

  method RememberScalars(i: Inputs, rec: EvidenceRecorder)
    requires rec.Valid() && rec.inputs == i && rec.asked == [] && rec.before == []
    modifies rec`overflow, rec`calls, rec`before, rec.vector
    ensures rec.Valid() && rec.before == ScalarReads(i)
  {
    hide EvidenceRecorder.Valid;
    rec.Remember(Epoch, SELF, i.epoch);
    rec.Remember(Policy, SELF, i.policy.generation);
    rec.Remember(Constraints, SELF, i.constraints.generation);
    rec.Remember(Topology, SELF, i.views.topologyGeneration);
  }

  /** The stages that come before the failure domains. */
  method RunFront(i: Inputs, rules: Rules.EffectiveRules, stage: StageCollector, rec: EvidenceRecorder)
    requires Evaluable(i) && stage.Valid() && rec.Valid() && rec.inputs == i && rec.asked == [] && rec.before == []
    requires stage.log == [] && rules == i.Effective()
    modifies stage, rec`overflow, rec`calls, rec`before, rec.vector
    ensures stage.Valid() && rec.Valid() && stage.log == Front(i)
    ensures rec.before == ScalarReads(i)
      + Each(RefsOf(i.path.hops), e => ElementReads(i.views, e))
      + UnderlyingReads(i)
      + Each(RefsOf(i.path.hops), e => PortReads(i.views, e))
      + Each(RefsOf(i.path.hops), e => LinkReads(i.views, e))
      + Each(CapabilityPairs(rules.capabilities), c => CapabilityReads(i.views, c))
  {
    hide StageCollector.Valid, EvidenceRecorder.Valid, RefsOf, Each, Rules.CombineRules, UnderlyingFindings,
      PortStage, LinkStage, CapabilityStage, CapabilityPairs, Shaped, ScalarReads, UnderlyingReads;
    EffectiveShaped(i);
    RememberScalars(i, rec);
    CheckStructure(i, stage, rec);
    CheckAdjacency(i, stage);
    assert stage.log == StructureStage(i);
    CheckUnderlying(i, stage, rec);
    CheckPorts(i, rules, stage, rec);
    CheckLinks(i, rules, stage, rec);
    CheckCapabilities(i, rules.capabilities, stage, rec);
  }

  /** The whole of compute_evaluation computes the declared decision and binds the declared evidence. */
  method Compute(i: Inputs) returns (d: Verdict, evidence: seq<EvidenceEntry>, overflow: bool)
    requires Evaluable(i)
    ensures d == Evaluation.Decide(i) && evidence == EvidenceOf(i) && overflow == Overflows(i)
  {
    hide StageCollector.Valid, EvidenceRecorder.Valid, RefsOf, Each, Rules.CombineRules, Front, DomainStage,
      PolicyStage, CapabilityPairs, Shaped, ScalarReads, UnderlyingReads, FirstAsked, MembershipReads, Resolve, All,
      AllReads, SetAll;
    var rules := Rules.Combine(i.constraints, i.policy, i.limits);
    var stage := new StageCollector(i.limits.maxExplanationEntries);
    var rec := new EvidenceRecorder(i);
    RunFront(i, rules, stage, rec);
    CheckDomains(i, rules, stage, rec);
    CheckPolicy(i, rules, stage, rec);
    AllIs(i);
    assert rec.asked == Asked(i);
    RecordedAll(i, rec);
    ConditionalRule(i);
    ResolveConditions(stage, rules.allowConditional);
    d := Verdict(stage.primary, stage.hardFailure, stage.primaryViolation, stage.violations);
    evidence, overflow := rec.vector.entries, rec.overflow;
    if overflow {
      var v := Violation(ResourceLimit, Hard, i.path.id);
      d := Verdict(
        if d.hardFailure then d.primary else ResourceLimit, true,
        if d.hardFailure then d.primaryViolation else Some(v.(severity := Primary)),
        if |d.violations| >= stage.bound then d.violations else d.violations + [v]);
    }
  }

  lemma ConditionalRule(i: Inputs)
    ensures i.Effective().allowConditional == i.policy.allowConditionalAuthorization
  {
  }

  /** What the recorder holds when every stage has run. */
  lemma RecordedAll(i: Inputs, rec: EvidenceRecorder)
    requires rec.Valid() && rec.inputs == i && rec.asked == Asked(i)
    requires rec.before == ScalarReads(i)
      + Each(RefsOf(i.path.hops), e => ElementReads(i.views, e))
      + UnderlyingReads(i)
      + Each(RefsOf(i.path.hops), e => PortReads(i.views, e))
      + Each(RefsOf(i.path.hops), e => LinkReads(i.views, e))
      + Each(CapabilityPairs(i.Effective().capabilities), c => CapabilityReads(i.views, c))
    ensures rec.vector.entries == EvidenceOf(i) && rec.overflow == Overflows(i)
  {
    hide RefsOf, Rules.CombineRules, CapabilityPairs, ScalarReads, UnderlyingReads, Asked, SetAll, Canonical, KeysOf;
    EachAgrees(FirstAsked(Asked(i), {}), MembershipReader(i), e => MembershipReads(i, e));
  }

  lemma {:induction false} EachAgrees<T(!new), U>(xs: seq<T>, f: T -> seq<U>, g: T -> seq<U>)
    requires forall x :: f(x) == g(x)
    ensures Each(xs, f) == Each(xs, g)
  {
    if xs != [] { EachAgrees(xs[1..], f, g); }
  }
}
