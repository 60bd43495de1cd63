/** The two mutable helpers of compute_evaluation: the stage collector and the evidence under construction. */
module Collectors {
  import opened Base
  import opened Model
  import opened Evidence
  import opened Views
  import opened Findings
  import opened Resolution
  import opened Reads
  import opened RuntimeState
  import PathShape

  /** Collects violations in stage order; the first hard one becomes the primary outcome. */
  class StageCollector {
    const bound: nat
    var violations: seq<Violation>
    var hardFailure: bool
    var primary: Outcome
    var primaryViolation: Option<Violation>
    /** Every call so far, kept or not. */
    ghost var log: seq<Violation>

    ghost predicate Valid()
      reads this
    {
      && violations == Take(log, bound)
      && hardFailure == First(log, Hard).Some?
      && (hardFailure ==> primary == First(log, Hard).value.code
                          && primaryViolation == Some(First(log, Hard).value.(severity := Primary)))
      && (!hardFailure ==> primaryViolation == None)
    }

    constructor (bound: nat)
      ensures Valid() && this.bound == bound && log == []
    {
      this.bound := bound;
      violations, hardFailure, primary, primaryViolation := [], false, AuthorizedOutcome, None;
      log := [];
    }

    method Push(v: Violation)
      requires violations == Take(log, bound)
      modifies this`violations, this`log
      ensures violations == Take(log, bound) && log == old(log) + [v]
    {
      log := log + [v];
      if |violations| >= bound { return; }
      violations := violations + [v];
    }

    method HardCall(code: Outcome, subject: string)
      requires Valid()
      modifies this
      ensures Valid() && log == old(log) + HardFinding(code, subject)
    {
      var v := Violation(code, Hard, subject);
      FirstSnoc(log, v, Hard);
      if !hardFailure {
        hardFailure := true;
        primary := code;
        primaryViolation := Some(Violation(code, Primary, subject));
      }
      Push(v);
    }

    /** condition and informational. */
    method SoftCall(code: Outcome, conditional: bool, subject: string)
      requires Valid()
      modifies this
      ensures Valid() && log == old(log) + SoftFinding(code, conditional, subject)
    {
      var v := Violation(code, if conditional then Condition else Informational, subject);
      FirstSnoc(log, v, Hard);
      Push(v);
    }
  }

  lemma {:induction false} FirstSnoc(vs: seq<Violation>, v: Violation, s: Severity)
    ensures First(vs + [v], s) == if First(vs, s).Some? then First(vs, s) else if v.severity == s then Some(v) else None
  {
    if vs == [] {
      assert vs + [v] == [v] && [v][1..] == [];
    } else {
      assert (vs + [v])[0] == vs[0] && (vs + [v])[1..] == vs[1..] + [v];
      FirstSnoc(vs[1..], v, s);
    }
  }

  // ---- evidence and cached memberships ---------------------------------------------------------

  datatype Membership = Membership(list: seq<string>, covered: bool, classes: seq<DomainClass>)

  function ClassesOf(i: Inputs, ds: seq<string>): (cs: seq<DomainClass>)
    ensures |cs| == |ds| && forall k :: 0 <= k < |ds| ==> cs[k] == i.ClassOf(ds[k])
  {
    if ds == [] then [] else [i.ClassOf(ds[0])] + ClassesOf(i, ds[1..])
  }

  function MembershipOf(i: Inputs, e: ElementRef): Membership {
    Membership(i.MembersOf(e), e in i.views.covered, ClassesOf(i, i.MembersOf(e)))
  }

  function KeysOf(es: seq<ElementRef>): set<string> { set e | e in es :: ElementKey(e) }

  function MembershipReader(i: Inputs): ElementRef -> seq<EvidenceEntry> { e => MembershipReads(i, e) }

  lemma {:induction false} FirstAskedAppend(a: seq<ElementRef>, b: seq<ElementRef>, cached: set<string>)
    ensures FirstAsked(a + b, cached) == FirstAsked(a, cached) + FirstAsked(b, cached + KeysOf(a))
  {
    hide ElementKey;
    if a == [] {
      assert a + b == b && cached + KeysOf(a) == cached;
    } else {
      assert (a + b)[0] == a[0] && (a + b)[1..] == a[1..] + b;
      FirstAskedAppend(a[1..], b, cached + {ElementKey(a[0])});
      assert KeysOf(a) == {ElementKey(a[0])} + KeysOf(a[1..]) by { assert a == [a[0]] + a[1..]; }
      assert cached + {ElementKey(a[0])} + KeysOf(a[1..]) == cached + KeysOf(a);
    }
  }

  lemma FirstAskedSnoc(asked: seq<ElementRef>, e: ElementRef)
    ensures FirstAsked(asked + [e], {}) == FirstAsked(asked, {}) + (if ElementKey(e) in KeysOf(asked) then [] else [e])
    ensures KeysOf(asked + [e]) == KeysOf(asked) + {ElementKey(e)}
  {
    hide ElementKey;
    FirstAskedAppend(asked, [e], {});
    assert {} + KeysOf(asked) == KeysOf(asked);
    assert [e][1..] == [];
  }

  /** Asking for an element reads its membership exactly when its key is new. */
  lemma CallsGrow(i: Inputs, before: seq<EvidenceEntry>, asked: seq<ElementRef>, e: ElementRef)
    ensures KeysOf(asked + [e]) == KeysOf(asked) + {ElementKey(e)}
    ensures before + Each(FirstAsked(asked + [e], {}), MembershipReader(i)) ==
            before + Each(FirstAsked(asked, {}), MembershipReader(i))
            + if ElementKey(e) in KeysOf(asked) then [] else MembershipReads(i, e)
  {
    hide KeysOf, ElementKey, FirstAsked, MembershipReader, MembershipReads;
    FirstAskedSnoc(asked, e);
    if ElementKey(e) in KeysOf(asked) {
      assert FirstAsked(asked, {}) + [] == FirstAsked(asked, {});
    } else {
      EachAppend(FirstAsked(asked, {}), [e], MembershipReader(i));
      ReaderOnOne(i, e);
    }
  }

  lemma CacheGrows(i: Inputs, cache: map<string, Membership>, e: ElementRef)
    requires forall x :: ElementKey(x) in cache ==> cache[ElementKey(x)] == MembershipOf(i, x)
    ensures var cache' := cache[ElementKey(e) := MembershipOf(i, e)];
            forall x :: ElementKey(x) in cache' ==> cache'[ElementKey(x)] == MembershipOf(i, x)
  {
    hide ElementKey, MembershipOf;
    var cache' := cache[ElementKey(e) := MembershipOf(i, e)];
    forall x | ElementKey(x) in cache' ensures cache'[ElementKey(x)] == MembershipOf(i, x) {
      if ElementKey(x) == ElementKey(e) { PathShape.ElementKeyInjective(x, e); }
    }
  }

  class EvidenceRecorder {
    const inputs: Inputs
    const vector: EvidenceVector
    var overflow: bool
    var cache: map<string, Membership>
    /** Every set call so far. */
    ghost var calls: seq<EvidenceEntry>
    /** The set calls before the first membership, and the elements asked for since. */
    ghost var before: seq<EvidenceEntry>
    ghost var asked: seq<ElementRef>

    ghost predicate Valid()
      reads this, vector
    {
      && SetAll([], calls, inputs.limits) == (vector.entries, overflow) && Canonical(vector.entries)
      && calls == before + Each(FirstAsked(asked, {}), MembershipReader(inputs))
      && cache.Keys == KeysOf(asked)
      && forall e :: ElementKey(e) in cache ==> cache[ElementKey(e)] == MembershipOf(inputs, e)
    }

    constructor (inputs: Inputs)
      ensures Valid() && this.inputs == inputs && fresh(vector) && before == [] && asked == []
    {
      this.inputs := inputs;
      vector := new EvidenceVector();
      overflow, cache := false, map[];
      calls, before, asked := [], [], [];
    }

    /** A refused entry is only noted. */
    method SetOne(kind: EvidenceKind, subject: string, generation: u64)
      requires SetAll([], calls, inputs.limits) == (vector.entries, overflow) && Canonical(vector.entries)
      modifies this`overflow, this`calls, vector
      ensures SetAll([], calls, inputs.limits) == (vector.entries, overflow) && Canonical(vector.entries)
      ensures calls == old(calls) + Entry(kind, subject, generation)
    {
      hide Fits, Put, Canonical, SetAll;
      var e := EvidenceEntry(kind, subject, generation);
      SetAllAppend([], calls, [e], inputs.limits);
      SetAllOne(vector.entries, e, inputs.limits);
      calls := calls + [e];
      var ok := vector.Set(kind, subject, generation, inputs.limits);
      if !ok { overflow := true; }
    }

    method Remember(kind: EvidenceKind, subject: string, generation: u64)
      requires Valid() && asked == []
      modifies this`overflow, this`calls, this`before, vector
      ensures Valid() && before == old(before) + Entry(kind, subject, generation)
    {
      hide SetAll, Canonical, KeysOf, ElementKey, MembershipOf, MembershipReader;
      assert FirstAsked(asked, {}) == [] && Each(FirstAsked(asked, {}), MembershipReader(inputs)) == [];
      SetOne(kind, subject, generation);
      before := calls;
    }

    /** ensure_membership: calls the membership of an element once and caches it under the rendered key. */
    method EnsureMembership(e: ElementRef) returns (m: Membership)
      requires Valid()
      modifies this`overflow, this`calls, this`cache, this`asked, vector
      ensures Valid() && before == old(before) && asked == old(asked) + [e]
      ensures m == MembershipOf(inputs, e) && ElementKey(e) in cache && cache[ElementKey(e)] == m
    {
      hide SetAll, Canonical, KeysOf, ElementKey, MembershipOf, FirstAsked, MembershipReader, MembershipReads, Each;
      var key := ElementKey(e);
      CallsGrow(inputs, before, asked, e);
      if key in cache {
        m := cache[key];
      } else {
        m := ReadMembership(e);
        CacheGrows(inputs, cache, e);
        cache := cache[key := m];
      }
      asked := asked + [e];
    }

    method ReadMembership(e: ElementRef) returns (m: Membership)
      requires SetAll([], calls, inputs.limits) == (vector.entries, overflow) && Canonical(vector.entries)
      modifies this`overflow, this`calls, vector
      ensures SetAll([], calls, inputs.limits) == (vector.entries, overflow) && Canonical(vector.entries)
      ensures calls == old(calls) + MembershipReads(inputs, e) && m == MembershipOf(inputs, e)
    {
      hide SetAll, Canonical, ElementKey, DomainSubject, MembershipSubject;
      var v := inputs.views;
      var list := inputs.MembersOf(e);
      SetOne(FailureDomain, MembershipSubject(e), MembershipGeneration(v, e));
      ghost var start := calls;
      ghost var f: string -> seq<EvidenceEntry> := d => DomainReads(v, d);
      var classes: seq<DomainClass> := [];
      for k := 0 to |list|
        invariant SetAll([], calls, inputs.limits) == (vector.entries, overflow) && Canonical(vector.entries)
        invariant calls == start + Each(list[..k], f)
        invariant |classes| == k && forall j :: 0 <= j < k ==> classes[j] == inputs.ClassOf(list[j])
      {
        EachSnoc(list, k, f);
        SetOne(FailureDomain, DomainSubject(list[k]), DomainGeneration(v, list[k]));
        assert start + Each(list[..k], f) + f(list[k]) == start + (Each(list[..k], f) + f(list[k]));
        classes := classes + [if list[k] in v.domains then v.domains[list[k]].domainClass else UnknownClass];
      }
      assert list[..|list|] == list;
      assert classes == ClassesOf(inputs, list);
      m := Membership(list, e in v.covered, classes);
    }
  }

  lemma SetAllOne(es: seq<EvidenceEntry>, e: EvidenceEntry, limits: Limits)
    ensures SetAll(es, [e], limits) == if Fits(es, e, limits) then (Put(es, e), false) else (es, true)
  {
    hide Fits, Put;
    assert [e][1..] == [];
  }

  lemma ReaderOnOne(i: Inputs, e: ElementRef)
    ensures Each([e], MembershipReader(i)) == MembershipReads(i, e)
  {
    hide MembershipReads;
    assert [e][1..] == [];
    assert Each([], MembershipReader(i)) == [];
  }
}
