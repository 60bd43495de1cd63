/** The runtime object: its maps are updated in place, and every operation has the effect of its specification. */
module AuthorityRuntime {
  import opened Base
  import opened Model
  import opened Evidence
  import opened Ordering
  import opened RuntimeState
  import opened RuntimeIndexes
  import opened Publication
  import Evaluation
  import Evaluator
  import PathShape
  import Recovery
  import Rules
  import Reads
  import RuntimeRuns
  import Views

  // ---- filing key by key ----------------------------------------------------------------------

  lemma FiledTwice(ix: Indexes, a: set<IndexKey>, b: set<IndexKey>, path: string)
    ensures Filed(Filed(ix, a, path), b, path) == Filed(ix, a + b, path)
  {
    var l, r := Filed(Filed(ix, a, path), b, path), Filed(ix, a + b, path);
    assert l.Keys == r.Keys;
    forall k | k in l ensures l[k] == r[k] {}
  }

  lemma UnfiledTwice(ix: Indexes, a: set<IndexKey>, b: set<IndexKey>, path: string)
    requires forall k :: k in ix ==> ix[k] != {}
    ensures Unfiled(Unfiled(ix, a, path), b, path) == Unfiled(ix, a + b, path)
    ensures forall k :: k in Unfiled(ix, a, path) ==> Unfiled(ix, a, path)[k] != {}
  {
    var l, r := Unfiled(Unfiled(ix, a, path), b, path), Unfiled(ix, a + b, path);
    forall k ensures k in l <==> k in r {}
    assert l.Keys == r.Keys;
    forall k | k in l ensures l[k] == r[k] {}
  }

  lemma FiledNone(ix: Indexes, path: string)
    ensures Filed(ix, {}, path) == ix
  {
  }

  lemma UnfiledNone(ix: Indexes, path: string)
    ensures Unfiled(ix, {}, path) == ix
  {
  }

  function TextKeys(which: Which, texts: seq<string>): set<IndexKey> {
    set t | t in texts && t != "" :: IndexKey(which, t)
  }

  function OneKey(which: Which, text: string): set<IndexKey> { if text == "" then {} else {IndexKey(which, text)} }

  lemma TextKeysSnoc(which: Which, texts: seq<string>, k: nat)
    requires k < |texts|
    ensures TextKeys(which, texts[..k + 1]) == TextKeys(which, texts[..k]) + OneKey(which, texts[k])
  {
    assert texts[..k + 1] == texts[..k] + [texts[k]];
  }

  function ElementTexts(es: seq<ElementRef>): seq<string> {
    if es == [] then [] else [ElementKey(es[0])] + ElementTexts(es[1..])
  }

  function CapabilityTexts(cs: seq<(string, string)>): seq<string> {
    if cs == [] then [] else [CapabilityKey(cs[0].0, cs[0].1)] + CapabilityTexts(cs[1..])
  }

  lemma {:induction false} ElementTextsAt(es: seq<ElementRef>)
    ensures |ElementTexts(es)| == |es| && forall k :: 0 <= k < |es| ==> ElementTexts(es)[k] == ElementKey(es[k])
  {
    hide ElementKey;
    if es != [] { ElementTextsAt(es[1..]); }
  }

  lemma {:induction false} CapabilityTextsAt(cs: seq<(string, string)>)
    ensures |CapabilityTexts(cs)| == |cs| && forall k :: 0 <= k < |cs| ==>
              CapabilityTexts(cs)[k] == CapabilityKey(cs[k].0, cs[k].1)
  {
    hide CapabilityKey;
    if cs != [] { CapabilityTextsAt(cs[1..]); }
  }

  /** The keys of a record, list by list. */
  function ListedKeys(d: Dependencies): set<IndexKey> {
    TextKeys(ElementIndex, ElementTexts(d.elements)) + TextKeys(ElementIndex, d.memberships)
    + TextKeys(CapabilityIndex, CapabilityTexts(d.capabilities)) + TextKeys(DomainIndex, d.domains)
    + TextKeys(UnderlyingIndex, d.underlying)
  }

  lemma ListedKeysAreIndexKeys(d: Dependencies)
    ensures ListedKeys(d) == IndexKeys(d)
  {
    hide ElementKey, CapabilityKey;
    ElementTextsAt(d.elements);
    CapabilityTextsAt(d.capabilities);
    forall t ensures t in ElementTexts(d.elements) <==> exists e :: e in d.elements && t == ElementKey(e) {
      if t in ElementTexts(d.elements) {
        var k :| 0 <= k < |d.elements| && ElementTexts(d.elements)[k] == t;
        assert d.elements[k] in d.elements;
      }
      if e :| e in d.elements && t == ElementKey(e) {
        var k :| 0 <= k < |d.elements| && d.elements[k] == e;
        assert ElementTexts(d.elements)[k] == t;
      }
    }
    forall t ensures t in CapabilityTexts(d.capabilities)
      <==> exists c :: c in d.capabilities && t == CapabilityKey(c.0, c.1) {
      if t in CapabilityTexts(d.capabilities) {
        var k :| 0 <= k < |d.capabilities| && CapabilityTexts(d.capabilities)[k] == t;
        assert d.capabilities[k] in d.capabilities;
      }
      if c :| c in d.capabilities && t == CapabilityKey(c.0, c.1) {
        var k :| 0 <= k < |d.capabilities| && d.capabilities[k] == c;
        assert CapabilityTexts(d.capabilities)[k] == t;
      }
    }
    KeysAgree(d);
  }

  lemma KeysAgree(d: Dependencies)
    requires forall t :: t in ElementTexts(d.elements) <==> exists e :: e in d.elements && t == ElementKey(e)
    requires forall t ::
               t in CapabilityTexts(d.capabilities) <==> exists c :: c in d.capabilities && t == CapabilityKey(c.0, c.1)
    ensures ListedKeys(d) == IndexKeys(d)
  {
    hide ElementKey, CapabilityKey, ElementTexts, CapabilityTexts;
    forall k ensures k in ListedKeys(d) <==> k in IndexKeys(d) {
      if k in ListedKeys(d) {
        assert k.text != "";
      }
    }
  }

  // ---- marking record by record ------------------------------------------------------------------

  lemma TouchNone(records: map<string, Record>, key: Key, generation: u64)
    ensures TouchAll(records, {}, key, generation) == records
    ensures ReportOn(records, {}, key, generation) == Report({}, {})
  {
    hide Touch;
  }

  lemma TouchOneMore(records: map<string, Record>, done: set<string>, p: string, key: Key, generation: u64)
    requires p in records && p !in done
    ensures TouchAll(records, done, key, generation)[p := Touch(records[p], key, generation)]
            == TouchAll(records, done + {p}, key, generation)
    ensures TouchAll(records, done, key, generation)[p] == records[p]
  {
    hide Touch;
  }

  lemma ReportOneMore(records: map<string, Record>, done: set<string>, p: string, key: Key, generation: u64)
    requires p in records && p !in done
    ensures var r := ReportOn(records, done, key, generation);
            ReportOn(records, done + {p}, key, generation) ==
            if Settled(records[p], key, generation) then r.(alreadyCurrent := r.alreadyCurrent + {p})
            else r.(revalidationRequired := r.revalidationRequired + {p})
  {
    hide Settled;
  }

  lemma ListOneMore(records: map<string, Record>, done: set<string>, p: string, key: Key, generation: u64)
    requires p in records && p !in done && forall y :: y in done ==> StringLess(y, p)
    ensures var r, r' := ReportOn(records, done, key, generation), ReportOn(records, done + {p}, key, generation);
            if Settled(records[p], key, generation) then
              Ascending(r'.alreadyCurrent) == Ascending(r.alreadyCurrent) + [p]
              && r'.revalidationRequired == r.revalidationRequired
            else
              Ascending(r'.revalidationRequired) == Ascending(r.revalidationRequired) + [p]
              && r'.alreadyCurrent == r.alreadyCurrent
  {
    hide Settled, Ascending, StringLess;
    var r := ReportOn(records, done, key, generation);
    ReportOneMore(records, done, p, key, generation);
    if Settled(records[p], key, generation) {
      AscendingSnoc(r.alreadyCurrent, p);
    } else {
      AscendingSnoc(r.revalidationRequired, p);
    }
  }

  lemma ReportNone(records: map<string, Record>, key: Key, generation: u64)
    ensures ReportOn(records, {}, key, generation) == Report({}, {}) && Ascending({}) == []
  {
  }

  lemma SettledMeans(r: Record, key: Key, generation: u64)
    ensures Settled(r, key, generation)
            <==> Find(r.evidence, key) == Some(generation) || r.state == RevalidationRequired
  {
  }

  lemma SettledTouch(r: Record, key: Key, generation: u64)
    ensures Settled(r, key, generation) ==> Touch(r, key, generation) == r
    ensures !Settled(r, key, generation) ==> Touch(r, key, generation) == Mark(r)
  {
  }

  class PathAuthorityRuntime {
    const config: Config
    var records: map<string, Record>
    /** The element, capability, domain and underlying indexes, told apart by the first part of the key. */
    var indexes: Indexes
    var sets: map<string, ConstraintSet>
    var attempts: map<string, Attempt>
    var attemptOrder: seq<string>
    var watermarks: map<Key, u64>

    function State(): Runtime
      reads this
    {
      Runtime(records, indexes, sets, attempts, attemptOrder, watermarks)
    }

    ghost predicate BucketsInUse()
      reads this`indexes
    {
      forall k :: k in indexes ==> indexes[k] != {}
    }

    constructor (config: Config)
      ensures State() == EmptyRuntime() && this.config == config && BucketsInUse()
    {
      this.config := config;
      records, indexes, sets, attempts, attemptOrder, watermarks := map[], map[], map[], map[], [], map[];
    }

    lemma AllInUse()
      requires forall k :: k in indexes ==> indexes[k] != {}
      ensures BucketsInUse()
    {
    }

    // ---- index maintenance ----------------------------------------------------------------------

    method IndexInsert(which: Which, text: string, path: string)
      requires BucketsInUse()
      modifies this`indexes
      ensures indexes == Filed(old(indexes), OneKey(which, text), path) && BucketsInUse()
    {
      FiledNone(indexes, path);
      if text == "" { return; }
      var key := IndexKey(which, text);
      if key !in indexes { indexes := indexes[key := {}]; }
      indexes := indexes[key := indexes[key] + {path}];
      assert indexes.Keys == Filed(old(indexes), {key}, path).Keys;
    }

    method IndexErase(which: Which, text: string, path: string)
      requires BucketsInUse()
      modifies this`indexes
      ensures indexes == Unfiled(old(indexes), OneKey(which, text), path) && BucketsInUse()
    {
      UnfiledNone(indexes, path);
      var key := IndexKey(which, text);
      if text == "" || key !in indexes {
        assert indexes == Unfiled(indexes, OneKey(which, text), path);
        return;
      }
      var bucket := indexes[key] - {path};
      if bucket == {} {
        indexes := indexes - {key};
      } else {
        indexes := indexes[key := bucket];
      }
      assert indexes.Keys == Unfiled(old(indexes), {key}, path).Keys;
    }

    method InsertAll(which: Which, texts: seq<string>, path: string)
      requires BucketsInUse()
      modifies this`indexes
      ensures indexes == Filed(old(indexes), TextKeys(which, texts), path) && BucketsInUse()
    {
      hide Filed, OneKey, TextKeys, BucketsInUse;
      FiledNone(indexes, path);
      assert TextKeys(which, texts[..0]) == {} by { NoTexts(which, texts); }
      for k := 0 to |texts|
        invariant indexes == Filed(old(indexes), TextKeys(which, texts[..k]), path) && BucketsInUse()
      {
        IndexInsert(which, texts[k], path);
        FiledTwice(old(indexes), TextKeys(which, texts[..k]), OneKey(which, texts[k]), path);
        TextKeysSnoc(which, texts, k);
      }
      assert texts[..|texts|] == texts;
    }

    method EraseAll(which: Which, texts: seq<string>, path: string)
      requires BucketsInUse()
      modifies this`indexes
      ensures indexes == Unfiled(old(indexes), TextKeys(which, texts), path) && BucketsInUse()
    {
      hide Unfiled, OneKey, TextKeys;
      UnfiledNone(indexes, path);
      assert TextKeys(which, texts[..0]) == {} by { NoTexts(which, texts); }
      for k := 0 to |texts|
        invariant indexes == Unfiled(old(indexes), TextKeys(which, texts[..k]), path) && BucketsInUse()
      {
        IndexErase(which, texts[k], path);
        UnfiledTwice(old(indexes), TextKeys(which, texts[..k]), OneKey(which, texts[k]), path);
        TextKeysSnoc(which, texts, k);
      }
      assert texts[..|texts|] == texts;
    }

    /** index_record: five loops over the five lists. */
    method IndexRecord(d: Dependencies, path: string)
      requires BucketsInUse()
      modifies this`indexes
      ensures indexes == Filed(old(indexes), IndexKeys(d), path) && BucketsInUse()
    {
      hide Filed, TextKeys, IndexKeys, BucketsInUse, ElementTexts, CapabilityTexts;
      var es, cs := ElementTexts(d.elements), CapabilityTexts(d.capabilities);
      ghost var a := TextKeys(ElementIndex, es);
      ghost var b := a + TextKeys(ElementIndex, d.memberships);
      ghost var c := b + TextKeys(CapabilityIndex, cs);
      ghost var e := c + TextKeys(DomainIndex, d.domains);
      InsertAll(ElementIndex, es, path);
      InsertAll(ElementIndex, d.memberships, path);
      FiledTwice(old(indexes), a, TextKeys(ElementIndex, d.memberships), path);
      InsertAll(CapabilityIndex, cs, path);
      FiledTwice(old(indexes), b, TextKeys(CapabilityIndex, cs), path);
      InsertAll(DomainIndex, d.domains, path);
      FiledTwice(old(indexes), c, TextKeys(DomainIndex, d.domains), path);
      InsertAll(UnderlyingIndex, d.underlying, path);
      FiledTwice(old(indexes), e, TextKeys(UnderlyingIndex, d.underlying), path);
      ListedKeysAreIndexKeys(d);
    }

    /** unindex_record. */
    method UnindexRecord(d: Dependencies, path: string)
      requires BucketsInUse()
      modifies this`indexes
      ensures indexes == Unfiled(old(indexes), IndexKeys(d), path) && BucketsInUse()
    {
      hide Unfiled, TextKeys, IndexKeys, ElementTexts, CapabilityTexts;
      var es, cs := ElementTexts(d.elements), CapabilityTexts(d.capabilities);
      ghost var a := TextKeys(ElementIndex, es);
      ghost var b := a + TextKeys(ElementIndex, d.memberships);
      ghost var c := b + TextKeys(CapabilityIndex, cs);
      ghost var e := c + TextKeys(DomainIndex, d.domains);
      EraseAll(ElementIndex, es, path);
      EraseAll(ElementIndex, d.memberships, path);
      UnfiledTwice(old(indexes), a, TextKeys(ElementIndex, d.memberships), path);
      EraseAll(CapabilityIndex, cs, path);
      UnfiledTwice(old(indexes), b, TextKeys(CapabilityIndex, cs), path);
      EraseAll(DomainIndex, d.domains, path);
      UnfiledTwice(old(indexes), c, TextKeys(DomainIndex, d.domains), path);
      EraseAll(UnderlyingIndex, d.underlying, path);
      UnfiledTwice(old(indexes), e, TextKeys(UnderlyingIndex, d.underlying), path);
      ListedKeysAreIndexKeys(d);
    }

    // ---- watermarks and marking -----------------------------------------------------------------

    method RaiseWatermark(key: Key, generation: u64)
      modifies this`watermarks
      ensures watermarks == Raise(old(watermarks), key, generation)
    {
      if key !in watermarks { watermarks := watermarks[key := 0]; }
      if generation > watermarks[key] { watermarks := watermarks[key := generation]; }
    }

    method HasStaleEvidence(evidence: seq<EvidenceEntry>) returns (stale: bool)
      ensures stale == StaleEvidence(watermarks, evidence)
    {
      for k := 0 to |evidence|
        invariant forall j :: 0 <= j < k ==> !BelowWatermark(watermarks, evidence[j])
      {
        var e := evidence[k];
        if (e.kind, e.subject) in watermarks && e.generation < watermarks[(e.kind, e.subject)] {
          assert e in evidence && BelowWatermark(watermarks, e);
          return true;
        }
      }
      return false;
    }

    method MarkRevalidationRequired(path: string)
      requires path in records
      modifies this`records
      ensures records == old(records)[path := Mark(old(records)[path])]
    {
      hide AuthorityDigestOf;
      var r := records[path];
      if r.state == RevalidationRequired {
        assert records == records[path := r];
        return;
      }
      if r.generation == U64_MAX {
        assert records == records[path := r];
        return;
      }
      r := r.(generation := r.generation + 1, state := RevalidationRequired, outcome := RevalidationRequiredOutcome);
      r := r.(authorityDigest :=
        AuthorityDigestOf(r.definition, r.pathDigest, r.constraintDigest, r.evidence, r.state, r.outcome,
          r.violations));
      records := records[path := r];
    }

    /** The loop that invalidate and invalidate_indexed share: the candidates in order, into the two report lists. */
    method MarkCandidates(candidates: set<string>, key: Key, generation: u64)
      returns (required: seq<string>, current: seq<string>)
      requires candidates <= records.Keys
      modifies this`records
      ensures records == TouchAll(old(records), candidates, key, generation)
      ensures required == Ascending(ReportOn(old(records), candidates, key, generation).revalidationRequired)
      ensures current == Ascending(ReportOn(old(records), candidates, key, generation).alreadyCurrent)
    {
      hide TouchAll, Mark, Find, Touch, Settled, Ascending, StringLess, ReportOn;
      required, current := [], [];
      TouchNone(records, key, generation);
      ReportNone(records, key, generation);
      var keys := Ascending(candidates);
      ghost var done: set<string> := {};
      for k := 0 to |keys|
        invariant forall p :: p in done <==> p in keys[..k]
        invariant candidates <= old(records).Keys && records.Keys == old(records).Keys
        invariant records == TouchAll(old(records), done, key, generation)
        invariant required == Ascending(ReportOn(old(records), done, key, generation).revalidationRequired)
        invariant current == Ascending(ReportOn(old(records), done, key, generation).alreadyCurrent)
      {
        var p := keys[k];
        var r := records[p];
        assert p in candidates && keys[..k + 1] == keys[..k] + [p];
        assert p !in done by { StringLessTotal(p, p); }
        TouchOneMore(old(records), done, p, key, generation);
        ListOneMore(old(records), done, p, key, generation);
        SettledTouch(r, key, generation);
        SettledMeans(r, key, generation);
        if Find(r.evidence, key) == Some(generation) || r.state == RevalidationRequired {
          current := current + [p];
          assert records == records[p := r];
        } else {
          MarkRevalidationRequired(p);
          required := required + [p];
        }
        done := done + {p};
      }
      assert keys[..|keys|] == keys;
      assert done == candidates;
    }

    /** invalidate for scalar evidence, invalidate_indexed for the rest. */
    method InvalidateEvidence(i: Invalidation) returns (required: seq<string>, current: seq<string>)
      modifies this`records, this`watermarks
      ensures State() == Invalidate(old(State()), i)
      ensures var report := ReportOn(old(records), Candidates(old(State()), TargetOf(i)), SubjectOf(i), i.generation);
              required == Ascending(report.revalidationRequired) && current == Ascending(report.alreadyCurrent)
    {
      hide TouchAll, ReportOn, SubjectOf, TargetOf, Ascending;
      RaiseWatermark(SubjectOf(i), i.generation);
      var target := TargetOf(i);
      if target.None? {
        required, current := MarkCandidates(records.Keys, SubjectOf(i), i.generation);
      } else if target.value !in indexes {
        TouchNone(records, SubjectOf(i), i.generation);
        assert Candidates(old(State()), target) == {};
        ReportNone(records, SubjectOf(i), i.generation);
        required, current := [], [];
      } else {
        required, current := MarkCandidates(indexes[target.value] * records.Keys, SubjectOf(i), i.generation);
      }
    }

    method MarkPaths(paths: set<string>)
      requires paths <= records.Keys
      modifies this`records
      ensures records == MarkWhere(old(records), paths)
    {
      hide MarkWhere, Mark;
      RuntimeRuns.MarkNone(records);
      var todo := paths;
      ghost var done: set<string> := {};
      while todo != {}
        invariant done + todo == paths && done !! todo
        invariant paths <= old(records).Keys && records.Keys == old(records).Keys
        invariant records == MarkWhere(old(records), done)
        decreases todo
      {
        var p :| p in todo;
        RuntimeRuns.MarkOneMore(old(records), p, done);
        MarkRevalidationRequired(p);
        todo, done := todo - {p}, done + {p};
      }
      assert done == paths;
    }

    method InvalidatePublisher(publisher: string, boot: string)
      modifies this`records
      ensures State() == LosePublisher(old(State()), publisher, boot)
    {
      hide MarkWhere;
      MarkPaths(set p | p in records && PublishedBy(records[p], publisher, boot));
    }

    // ---- constraint sets ----------------------------------------------------------------------------

    /** register_constraint_set: stores the set, then marks the records that bind another generation of it. */
    method RegisterConstraintSet(s: ConstraintSet) returns (result: Registration)
      modifies this`sets, this`records
      ensures State() == Register(old(State()), s, config.limits).0
      ensures result == Register(old(State()), s, config.limits).1
    {
      hide RegistrableSet, ConstraintDigestOf, MarkWhere;
      if !RegistrableSet(s, config.limits) { return Malformed; }
      if s.id in sets && ConstraintDigestOf(sets[s.id]) == ConstraintDigestOf(s) {
        return Unchanged(sets[s.id].generation);
      }
      var previous := if s.id in sets then sets[s.id].generation else 0;
      if previous == U64_MAX { return Exhausted; }
      var stored := s.(generation := previous + 1);
      sets := sets[s.id := stored];
      var affected := set p | p in records && records[p].definition.constraintSet == s.id
                                           && records[p].definition.constraintGeneration != stored.generation;
      ghost var before := old(State());
      assert affected == AffectedBy(before, stored);
      var invalidated := |set p | p in affected && records[p].state != RevalidationRequired|;
      assert (set p | p in affected && records[p].state != RevalidationRequired)
             == set p | p in AffectedBy(before, stored) && before.records[p].state != RevalidationRequired;
      MarkPaths(affected);
      return Created(stored.generation, invalidated);
    }

    // ---- the attempt log ------------------------------------------------------------------------------

    method Remember(attempt: string, path: string, digest: Digest)
      modifies this`attempts, this`attemptOrder
      ensures State() == RememberAttempt(old(State()), attempt, path, digest, config.limits)
    {
      if attempt == "" { return; }
      if attempt in attempts {
        attempts := attempts[attempt := Attempt(path, digest)];
        return;
      }
      attempts := attempts[attempt := Attempt(path, digest)];
      attemptOrder := attemptOrder + [attempt];
      ghost var target := Trim(attempts, attemptOrder, config.limits.maxOutstandingAttempts);
      while |attemptOrder| > config.limits.maxOutstandingAttempts
        invariant Trim(attempts, attemptOrder, config.limits.maxOutstandingAttempts) == target
      {
        attempts := attempts - {attemptOrder[0]};
        attemptOrder := attemptOrder[1..];
      }
    }

    // ---- commit -----------------------------------------------------------------------------------------

    /** The dependency lists are rebuilt from the definition and the set that is registered now. */
    method RebuildDependencies(d: PathDefinition, policy: PolicySet) returns (deps: Dependencies)
      ensures deps == DependenciesOf(d, sets, policy, config.limits)
    {
      hide Rules.CombineRules, RefsOf, CapabilityPairs, NamedDomains, MembershipSubjects;
      var elements := ListElements(d.hops);
      var underlying: seq<string> := [];
      if d.underlying.Some? { underlying := [d.underlying.value.path]; }
      if d.constraintSet !in sets { return Dependencies(elements, [], [], [], underlying); }
      var rules := Rules.Combine(sets[d.constraintSet], policy, config.limits);
      var capabilities := ListCapabilities(rules.capabilities);
      var domains := ListDomains(rules.failureDomains);
      var memberships: seq<string> := [];
      if rules.failureDomains != [] || rules.forbiddenClasses != [] { memberships := ListMemberships(elements); }
      deps := Dependencies(elements, capabilities, domains, memberships, underlying);
    }

    /** Everything commit does once it has decided to write. */
    method Write(q: CommitRequest, next: u64)
      requires BucketsInUse()
      modifies this`records, this`indexes
      ensures State() == Store(old(State()), NewRecord(old(State()), q, next, config.limits)) && BucketsInUse()
    {
      hide Filed, Unfiled, IndexKeys, DependenciesOf, BucketsInUse;
      var path := q.path.id;
      var revocation, retired := None, false;
      if path in records {
        revocation, retired := records[path].revocation, records[path].retired;
        UnindexRecord(records[path].dependencies, path);
      }
      var deps := RebuildDependencies(q.path, q.policy);
      IndexRecord(deps, path);
      records := records[path := Record(q.path, next, q.state, q.primary, q.evidence, q.pathDigest, q.constraintDigest,
        q.authorityDigest, q.inputDigest, q.primaryViolation, q.secondary, revocation, retired, q.identityBound,
          q.publisher,
        q.workerBoot, deps)];
    }

    /** Impl::commit. */
    method CommitDecision(q: CommitRequest) returns (result: CommitResult)
      requires BucketsInUse()
      modifies this
      ensures State() == Commit(old(State()), config, q).0 && result == Commit(old(State()), config, q).1
      ensures BucketsInUse()
    {
      hide StaleEvidence, Store, NewRecord, RememberAttempt, Unfiled, IndexKeys, BucketsInUse;
      var path := q.path.id;
      if path !in records && |records| >= config.limits.maxPaths { return Refused(ResourceLimit); }
      var stale := HasStaleEvidence(q.evidence);
      if stale { return Refused(RevalidationRequiredOutcome); }
      var current := if path in records then records[path].generation else 0;
      if q.expected.Some? && q.expected.value != current { return Refused(StaleAuthority); }
      if path in records && config.idempotentReplay && records[path].authorityDigest == q.authorityDigest {
        Remember(q.attempt, path, q.inputDigest);
        return Replayed(current);
      }
      if current == U64_MAX {
        UnindexRecord(records[path].dependencies, path);
        return Refused(ResourceLimit);
      }
      Write(q, current + 1);
      Remember(q.attempt, path, q.inputDigest);
      return Committed(current + 1);
    }

    // ---- revoke and retire ----------------------------------------------------------------------------------

    method RevokePath(path: string, q: RevokeRequest, epoch: u64) returns (result: MutationResult)
      modifies this`records
      ensures State() == Revoke(old(State()), path, q, epoch, config.limits).0
      ensures result == Revoke(old(State()), path, q, epoch, config.limits).1
    {
      hide AuthorityDigestOf;
      if q.reason == ADMINISTRATIVE && q.authority == "" { return BadRequest; }
      if |q.explanation| > config.limits.maxMetadataBytes { return BadRequest; }
      if path !in records { return NoRecord; }
      var r := records[path];
      if q.expected.Some? && q.expected.value != r.generation { return Conflict; }
      if r.revocation.Some? && r.revocation.value.reason == q.reason && r.revocation.value.explanation == q.explanation
         && r.revocation.value.authority == q.authority {
        return Repeated(r.generation);
      }
      if r.generation == U64_MAX { return GenerationsExhausted; }
      r := r.(generation := r.generation + 1);
      r := r.(revocation := Some(Revocation(q.reason, q.explanation, r.generation, epoch, q.authority, q.attempt,
        q.durable)));
      r := r.(state := AuthorityState.Revoked, outcome := RevokedOutcome);
      r := r.(authorityDigest :=
        AuthorityDigestOf(r.definition, r.pathDigest, r.constraintDigest, r.evidence, r.state, r.outcome,
          r.violations));
      records := records[path := r];
      return Applied(r.generation);
    }

    method RetirePath(path: string) returns (result: MutationResult)
      modifies this`records
      ensures State() == Retire(old(State()), path).0 && result == Retire(old(State()), path).1
    {
      hide AuthorityDigestOf;
      if path !in records { return NoRecord; }
      var r := records[path];
      if r.retired { return Repeated(r.generation); }
      if r.generation == U64_MAX { return GenerationsExhausted; }
      r := r.(generation := r.generation + 1, retired := true, state := AuthorityState.Retired, outcome := PathRetired);
      r := r.(authorityDigest :=
        AuthorityDigestOf(r.definition, r.pathDigest, r.constraintDigest, r.evidence, r.state, r.outcome,
          r.violations));
      records := records[path := r];
      return Applied(r.generation);
    }

    // ---- publish_decision and evaluate -------------------------------------------------------------------------

    /** The second half of a publication or an evaluation. */
    method FinishDecision(q: CommitRequest) returns (a: Answer)
      requires BucketsInUse()
      modifies this
      ensures BucketsInUse() && State() == Finish(old(State()), config, Ready(q)).0
              && a == Finish(old(State()), config, Ready(q)).1
    {
      hide Commit, BucketsInUse;
      var result := CommitDecision(q);
      match result {
        case Committed(g) => return Answer(q.primary, true, false, g);
        case Replayed(g) => return Answer(Idempotent, false, true, g);
        case Refused(outcome) => return Answer(outcome, false, false, 0);
      }
    }

    method PublishDecision(p: PathDefinition, d: Decision, request: EvaluationRequest, policy: PolicySet,
        epoch: u64) returns (a: Answer)
      requires BucketsInUse()
      modifies this
      ensures BucketsInUse() && State() == Publish(old(State()), config, p, d, request, policy, epoch).0
      ensures a == Publish(old(State()), config, p, d, request, policy, epoch).1
    {
      hide Commit, PathShape.Shape, PathShape.WellShaped, StateForOutcome, Recovery.ValidEvidence, InputDigestOf,
        ConstraintDigestOf, PathDigestOf, AuthorityDigestOf, Scalar, BucketsInUse;
      var shape := PathShape.ValidatePathShape(p, config.limits, request.requireIdentityBinding);
      if shape != PathShape.Valid { return Answer(ShapeOutcome(shape), false, false, 0); }
      if d.state != StateForOutcome(d.primary) { return Answer(MalformedPath, false, false, 0); }
      if !Recovery.ValidEvidence(d.evidence) { return Answer(MalformedPath, false, false, 0); }
      if p.constraintSet !in sets { return Answer(ConstraintSetUnknown, false, false, 0); }
      var constraints := sets[p.constraintSet];
      if constraints.generation != p.constraintGeneration {
        return Answer(RevalidationRequiredOutcome, false, false, 0);
      }
      var refusal := DecisionRefusal(p, d, request, constraints, policy, epoch);
      if refusal.Some? { return Answer(refusal.value, false, false, 0); }
      if p.id in records && records[p.id].retired { return Answer(PathRetired, false, false, 0); }
      if p.id in records && records[p.id].revocation.Some? { return Answer(RevokedOutcome, false, false, 0); }
      var digest := InputDigestOf(p, constraints, policy, epoch);
      if request.attempt != "" && request.attempt in attempts && attempts[request.attempt].inputDigest != digest {
        return Answer(EvaluationAttemptConflict, false, false, 0);
      }
      a := FinishDecision(RequestFor(p, d, request, constraints, policy, epoch));
    }

    method EvaluatePath(p: PathDefinition, request: EvaluationRequest, w: Evaluation.World) returns (a: Answer)
      requires BucketsInUse() && Evaluation.Usable(State(), w)
      modifies this
      ensures BucketsInUse() && State() == Evaluation.Evaluate(old(State()), config, w, p, request).0
      ensures a == Evaluation.Evaluate(old(State()), config, w, p, request).1
    {
      hide Commit, PathShape.Shape, PathShape.WellShaped, Evaluation.DecisionOf, Evaluation.ResolveUnderlying,
        Evaluation.ResolvePeers, InputDigestOf, ConstraintDigestOf, PathDigestOf, RequestFor, BucketsInUse;
      var shape := PathShape.ValidatePathShape(p, config.limits, request.requireIdentityBinding);
      if shape != PathShape.Valid { return Answer(ShapeOutcome(shape), false, false, 0); }
      if p.constraintSet !in sets { return Answer(ConstraintSetUnknown, false, false, 0); }
      var constraints := sets[p.constraintSet];
      if constraints.generation != p.constraintGeneration {
        return Answer(RevalidationRequiredOutcome, false, false, 0);
      }
      var digest := InputDigestOf(p, constraints, w.policy, w.epoch);
      if request.attempt != "" && request.attempt in attempts && attempts[request.attempt].inputDigest != digest {
        return Answer(EvaluationAttemptConflict, false, false, 0);
      }
      if p.id in records && records[p.id].retired { return Answer(PathRetired, false, false, 0); }
      if request.bindingEpoch.Some? && request.bindingEpoch.value != w.epoch {
        return Answer(StaleEpoch, false, false, 0);
      }
      if p.id in records && records[p.id].revocation.Some? { return Answer(RevokedOutcome, false, false, 0); }
      var chain := Evaluation.FollowChain(State(), p, config.limits);
      if chain.None? { return Answer(MalformedPath, false, false, 0); }
      var peers := ListPeers(State(), constraints);
      var existing := p.id in records && AuthorizingOutcome(records[p.id].outcome);
      var i := Views.Inputs(p, w.views, config.limits, constraints, w.policy, w.epoch, chain.value, peers, existing);
      var d := DecideInputs(i);
      a := FinishDecision(RequestFor(p, d, request, constraints, w.policy, w.epoch));
    }

    /** revalidate: the definition on record, under the identity rule it was committed with. */
    method RevalidatePath(path: string, request: EvaluationRequest, w: Evaluation.World) returns (a: Answer)
      requires BucketsInUse() && Evaluation.Usable(State(), w)
      modifies this
      ensures BucketsInUse() && State() == Evaluation.Revalidate(old(State()), config, w, path, request).0
      ensures a == Evaluation.Revalidate(old(State()), config, w, path, request).1
    {
      hide Evaluation.Evaluate, Evaluation.Usable, BucketsInUse;
      if path !in records { return Answer(PathUnknown, false, false, 0); }
      var r := records[path];
      a := EvaluatePath(r.definition, request.(bindingEpoch := None, requireIdentityBinding := r.identityBound), w);
    }

    // ---- export and import -----------------------------------------------------------------------------------------

    method ExportState(epoch: u64, policy: PolicySet) returns (d: Recovery.Durable)
      ensures d == Recovery.Export(State(), epoch, policy)
    {
      hide Recovery.ExportRecord;
      var stored: map<string, Recovery.DurableRecord> := map[];
      var todo := records.Keys;
      while todo != {}
        invariant todo <= records.Keys && stored.Keys == records.Keys - todo
        invariant forall p :: p in stored ==> stored[p] == Recovery.ExportRecord(records[p])
        decreases todo
      {
        var p :| p in todo;
        stored := stored[p := Recovery.ExportRecord(records[p])];
        todo := todo - {p};
      }
      d := Recovery.Durable(epoch, policy, sets, stored, {});
    }

    /**
     * import_state: everything but the watermarks is replaced, record by record in the order of the image. An image
     * that fails a check before that changes nothing; a live record at its last generation stops the import half-way.
     */
    method ImportState(d: Recovery.Durable, order: seq<string>, policy: PolicySet) returns (ok: bool)
      requires BucketsInUse() && Recovery.Lists(order, d)
      modifies this
      ensures BucketsInUse()
      ensures ok <==> Recovery.Import(old(State()), d, policy, config.limits).Some?
      ensures ok ==> State() == Recovery.Import(old(State()), d, policy, config.limits).value
      ensures !Recovery.Readable(d, config.limits) ==> State() == old(State())
      ensures Recovery.Readable(d, config.limits) ==>
                Recovery.PartOf(State(), old(State()), d, order, policy, config.limits)
    {
      hide Recovery.Readable, Recovery.Importable, Recovery.IndexesOf, BucketsInUse, Recovery.Lists, Recovery.PartOf,
        Recovery.Import, Recovery.Loaded;
      ImportMeaning(State(), d, order, policy, config.limits);
      if !Recovery.Readable(d, config.limits) { return false; }
      records, indexes, sets, attempts, attemptOrder := map[], map[], d.sets, map[], [];
      assert BucketsInUse() by { AllInUse(); }
      IndexesOfNothing();
      ghost var cleared := State();
      ok := LoadRecords(d, order, policy);
      OnlyWatermarksCount(State(), old(State()), cleared, d, order, policy, config.limits);
    }

    /** The loop over the records of the image, into empty tables. */
    method LoadRecords(d: Recovery.Durable, order: seq<string>, policy: PolicySet) returns (ok: bool)
      requires BucketsInUse() && Recovery.Lists(order, d)
      requires records == map[] && indexes == Recovery.IndexesOf(map[]) && sets == d.sets && attempts == map[]
               && attemptOrder == []
      modifies this`records, this`indexes
      ensures BucketsInUse() && ok == (Recovery.Loaded(d, order) == |order|)
      ensures Recovery.PartOf(State(), old(State()), d, order, policy, config.limits)
    {
      hide Recovery.Recover, Recovery.IndexesOf, Filed, IndexKeys, BucketsInUse, Recovery.CanAdvance, Recovery.Lists,
        Recovery.PartOf, Recovery.Loaded, Loading;
      ghost var before := State();
      NothingLoaded(d, order, policy, config.limits);
      for k := 0 to |order|
        invariant Loading(records, d, order, k, policy, config.limits)
        invariant indexes == Recovery.IndexesOf(records) && BucketsInUse()
      {
        var p := order[k];
        assert p in d.records && p !in records by { NotBefore(records, d, order, k, policy, config.limits); }
        if !Recovery.CanAdvance(d.records[p]) {
          PartIs(State(), before, d, order, k, policy, config.limits);
          return false;
        }
        var r := Recovery.Recover(d.records[p], d.sets, policy, config.limits);
        OneMoreLoaded(records, d, order, k, policy, config.limits);
        IndexesOfOneMore(records, p, r);
        IndexRecord(r.dependencies, p);
        records := records[p := r];
      }
      PartIs(State(), before, d, order, |order|, policy, config.limits);
      return true;
    }
  }

  /** The records are the recovery of the first ones in the order, all of which can advance. */
  ghost predicate Loading(records: map<string, Record>, d: Recovery.Durable, order: seq<string>, k: nat,
      policy: PolicySet, limits: Limits)
  {
    && k <= |order| && (forall p :: p in records <==> p in order[..k])
    && (forall j :: 0 <= j < k ==> order[j] in d.records && Recovery.CanAdvance(d.records[order[j]]))
    && (forall p :: p in records ==>
          p in d.records && Recovery.CanAdvance(d.records[p])
          && records[p] == Recovery.Recover(d.records[p], d.sets, policy, limits))
  }

  lemma NothingLoaded(d: Recovery.Durable, order: seq<string>, policy: PolicySet, limits: Limits)
    ensures Loading(map[], d, order, 0, policy, limits)
  {
  }

  lemma NotBefore(records: map<string, Record>, d: Recovery.Durable, order: seq<string>, k: nat, policy: PolicySet,
      limits: Limits)
    requires Recovery.Lists(order, d) && Loading(records, d, order, k, policy, limits) && k < |order|
    ensures order[k] in d.records && order[k] !in records
  {
    hide Recovery.Recover;
    assert order[k] in order;
  }

  lemma OneMoreLoaded(records: map<string, Record>, d: Recovery.Durable, order: seq<string>, k: nat, policy: PolicySet,
      limits: Limits)
    requires Recovery.Lists(order, d) && Loading(records, d, order, k, policy, limits) && k < |order|
    requires order[k] in d.records && Recovery.CanAdvance(d.records[order[k]])
    ensures var r := Recovery.Recover(d.records[order[k]], d.sets, policy, limits);
            Loading(records[order[k] := r], d, order, k + 1, policy, limits)
  {
    hide Recovery.Recover, Recovery.CanAdvance, Recovery.Lists;
    assert order[..k + 1] == order[..k] + [order[k]];
  }

  lemma OnlyWatermarksCount(rt: Runtime, before: Runtime, cleared: Runtime, d: Recovery.Durable, order: seq<string>,
      policy: PolicySet, limits: Limits)
    requires cleared.watermarks == before.watermarks && Recovery.PartOf(rt, cleared, d, order, policy, limits)
    ensures Recovery.PartOf(rt, before, d, order, policy, limits)
  {
  }

  /** An import is refused by its first checks or by the first record in the order that cannot advance. */
  lemma ImportMeaning(rt: Runtime, d: Recovery.Durable, order: seq<string>, policy: PolicySet, limits: Limits)
    requires Recovery.Lists(order, d)
    ensures Recovery.Import(rt, d, policy, limits).Some? <==>
            Recovery.Readable(d, limits) && Recovery.Loaded(d, order) == |order|
    ensures forall rt' :: Recovery.Loaded(d, order) == |order| && Recovery.Readable(d, limits)
                          && Recovery.PartOf(rt', rt, d, order, policy, limits) ==>
                            Recovery.Import(rt, d, policy, limits) == Some(rt')
  {
    hide Recovery.Readable, Recovery.Importable, Recovery.Recover, Recovery.IndexesOf, Recovery.CanAdvance,
      RuntimeRuns.Distinct, Recovery.Loaded;
    Recovery.ImportableMeaning(d, limits);
    var n := Recovery.Loaded(d, order);
    if n < |order| {
      assert order[n] in order;
    } else {
      assert order[..n] == order;
      forall p | p in d.records ensures Recovery.CanAdvance(d.records[p]) {
        var j :| 0 <= j < |order| && order[j] == p;
      }
      forall rt' | Recovery.PartOf(rt', rt, d, order, policy, limits) && Recovery.Readable(d, limits)
        ensures Recovery.Import(rt, d, policy, limits) == Some(rt')
      {
        assert rt'.records == Recovery.Recovered(d, policy, limits);
      }
    }
  }

  lemma PartIs(rt: Runtime, before: Runtime, d: Recovery.Durable, order: seq<string>, k: nat, policy: PolicySet,
      limits: Limits)
    requires Recovery.Lists(order, d) && Loading(rt.records, d, order, k, policy, limits)
    requires k < |order| ==> order[k] in d.records && !Recovery.CanAdvance(d.records[order[k]])
    requires rt == Runtime(rt.records, Recovery.IndexesOf(rt.records), d.sets, map[], [], before.watermarks)
    ensures Recovery.Loaded(d, order) == k && Recovery.PartOf(rt, before, d, order, policy, limits)
  {
    hide Recovery.Recover, Recovery.IndexesOf, Recovery.CanAdvance, Recovery.Loaded, RuntimeRuns.Distinct;
  }

  // ---- the loops that build dependency lists and peers ----------------------------------------------

  lemma Shift<T>(done: seq<T>, step: seq<T>, rest: seq<T>)
    ensures done + (step + rest) == (done + step) + rest && done + ([] + rest) == done + rest && done + [] == done
  {
  }

  method ListElements(hops: seq<PathElement>) returns (refs: seq<ElementRef>)
    ensures refs == RefsOf(hops)
  {
    refs := [];
    assert hops[0..] == hops;
    for k := 0 to |hops|
      invariant refs + RefsOf(hops[k..]) == RefsOf(hops)
    {
      assert hops[k..][0] == hops[k] && hops[k..][1..] == hops[k + 1..];
      Shift(refs, [hops[k].Ref()], RefsOf(hops[k + 1..]));
      refs := refs + [hops[k].Ref()];
    }
    Shift(refs, [], []);
  }

  method ListCapabilities(cs: seq<CapabilityRequirement>) returns (pairs: seq<(string, string)>)
    ensures pairs == CapabilityPairs(cs)
  {
    pairs := [];
    assert cs[0..] == cs;
    for k := 0 to |cs|
      invariant pairs + CapabilityPairs(cs[k..]) == CapabilityPairs(cs)
    {
      assert cs[k..][0] == cs[k] && cs[k..][1..] == cs[k + 1..];
      Shift(pairs, [(cs[k].entity, cs[k].key)], CapabilityPairs(cs[k + 1..]));
      pairs := pairs + [(cs[k].entity, cs[k].key)];
    }
    Shift(pairs, [], []);
  }

  /** Only constraints that name a domain are listed. */
  method ListDomains(ds: seq<DomainConstraint>) returns (domains: seq<string>)
    ensures domains == NamedDomains(ds)
  {
    domains := [];
    assert ds[0..] == ds;
    for k := 0 to |ds|
      invariant domains + NamedDomains(ds[k..]) == NamedDomains(ds)
    {
      assert ds[k..][0] == ds[k] && ds[k..][1..] == ds[k + 1..];
      Shift(domains, [ds[k].domain], NamedDomains(ds[k + 1..]));
      if ds[k].domain != "" { domains := domains + [ds[k].domain]; }
    }
    Shift(domains, [], []);
  }

  method ListMemberships(refs: seq<ElementRef>) returns (subjects: seq<string>)
    ensures subjects == MembershipSubjects(refs)
  {
    hide MembershipSubject;
    subjects := [];
    assert refs[0..] == refs;
    for k := 0 to |refs|
      invariant subjects + MembershipSubjects(refs[k..]) == MembershipSubjects(refs)
    {
      assert refs[k..][0] == refs[k] && refs[k..][1..] == refs[k + 1..];
      Shift(subjects, [MembershipSubject(refs[k])], MembershipSubjects(refs[k + 1..]));
      subjects := subjects + [MembershipSubject(refs[k])];
    }
    Shift(subjects, [], []);
  }

  /** resolve_peers: each named peer once, in the order in which the constraints name them. */
  method ListPeers(rt: Runtime, constraints: ConstraintSet) returns (peers: map<string, Views.Peer>)
    ensures peers == Evaluation.ResolvePeers(rt, constraints)
  {
    hide Evaluation.PeerOf;
    peers := map[];
    var cs := constraints.failureDomains;
    for k := 0 to |cs|
      invariant peers.Keys == set c | c in cs[..k] && Evaluation.NamesPeer(c) :: c.peerPath
      invariant forall p :: p in peers ==> peers[p] == Evaluation.PeerOf(rt, p)
    {
      assert cs[..k + 1] == cs[..k] + [cs[k]];
      if Evaluation.NamesPeer(cs[k]) && cs[k].peerPath !in peers {
        peers := peers[cs[k].peerPath := Evaluation.PeerOf(rt, cs[k].peerPath)];
      }
    }
    assert cs[..|cs|] == cs;
  }

  /** compute_evaluation and what evaluate makes of it. */
  method DecideInputs(i: Views.Inputs) returns (d: Decision)
    requires Views.Evaluable(i)
    ensures d == Evaluation.DecisionOf(i)
  {
    hide Evaluation.Decide, Reads.EvidenceOf, AuthorityDigestOf, ConstraintDigestOf, PathDigestOf, StateForOutcome,
      Views.Evaluable;
    var v, evidence, overflow := Evaluator.Compute(i);
    var secondary := Evaluation.Secondary(v);
    var state := StateForOutcome(v.primary);
    var path, constraint := PathDigestOf(i.path), ConstraintDigestOf(i.constraints);
    d := Decision(state, v.primary, v.primaryViolation, evidence, path,
      AuthorityDigestOf(i.path, path, constraint, evidence, state, v.primary, secondary), constraint, secondary);
  }

  lemma IndexesOfNothing()
    ensures Recovery.IndexesOf(map[]) == map[]
  {
  }

  lemma IndexesOfAt(records: map<string, Record>, k: IndexKey)
    ensures k in Recovery.IndexesOf(records) <==> Dependents(records, Some(k)) != {}
    ensures k in Recovery.IndexesOf(records) ==> Recovery.IndexesOf(records)[k] == Dependents(records, Some(k))
  {
    hide IndexKeys;
    if k in Recovery.IndexesOf(records) {
      var q :| q in records && k in IndexKeys(records[q].dependencies);
      assert q in Dependents(records, Some(k));
    }
    if Dependents(records, Some(k)) != {} {
      var q :| q in Dependents(records, Some(k));
      assert q in records && k in IndexKeys(records[q].dependencies);
    }
  }

  lemma DependentsGrow(records: map<string, Record>, p: string, r: Record, k: IndexKey)
    requires p !in records
    ensures Dependents(records[p := r], Some(k)) ==
            Dependents(records, Some(k)) + if k in IndexKeys(r.dependencies) then {p} else {}
  {
    hide IndexKeys;
  }

  lemma IndexesOfOneMore(records: map<string, Record>, p: string, r: Record)
    requires p !in records
    ensures Recovery.IndexesOf(records[p := r]) == Filed(Recovery.IndexesOf(records), IndexKeys(r.dependencies), p)
  {
    hide IndexKeys, Recovery.IndexesOf, Dependents;
    var l, f := Recovery.IndexesOf(records[p := r]), Filed(Recovery.IndexesOf(records), IndexKeys(r.dependencies), p);
    forall k ensures (k in l <==> k in f) && (k in l ==> l[k] == f[k]) {
      IndexesOfAt(records, k);
      IndexesOfAt(records[p := r], k);
      DependentsGrow(records, p, r, k);
    }
    assert l.Keys == f.Keys;
  }

  lemma NoTexts(which: Which, texts: seq<string>)
    ensures TextKeys(which, texts[..0]) == {}
  {
  }
}
