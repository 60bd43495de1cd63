/** Runs of the runtime without import: how generations, records and digests evolve under any interleaving of steps. */
module RuntimeRuns {
  import opened Base
  import opened Model
  import opened Evidence
  import opened RuntimeState

  /**
   * One critical section. Registration takes the lock once to store the set and once more for each affected
   * record, so its two halves are steps of their own.
   */
  datatype Step =
    | Decide(request: CommitRequest)
    | Notice(invalidation: Invalidation)
    | Lose(publisher: string, boot: string)
    | PutSet(constraints: ConstraintSet)
    | MarkAffected(path: string, generation: u64)
    | RevokePath(path: string, revocation: RevokeRequest, epoch: u64)
    | RetirePath(path: string)

  function StoreSetOnly(rt: Runtime, s: ConstraintSet): Runtime { rt.(sets := rt.sets[s.id := s]) }

  function MarkIfBehind(rt: Runtime, path: string, generation: u64): Runtime {
    if path in rt.records && rt.records[path].definition.constraintGeneration != generation then
      rt.(records := rt.records[path := Mark(rt.records[path])])
    else rt
  }

  function Apply(rt: Runtime, c: Config, s: Step): Runtime {
    match s
    case Decide(q) => Commit(rt, c, q).0
    case Notice(i) => Invalidate(rt, i)
    case Lose(publisher, boot) => LosePublisher(rt, publisher, boot)
    case PutSet(constraints) => StoreSetOnly(rt, constraints)
    case MarkAffected(path, generation) => MarkIfBehind(rt, path, generation)
    case RevokePath(path, q, epoch) => Revoke(rt, path, q, epoch, c.limits).0
    case RetirePath(path) => Retire(rt, path).0
  }

  function Run(rt: Runtime, c: Config, steps: seq<Step>): Runtime
    decreases |steps|
  {
    if steps == [] then rt else Run(Apply(rt, c, steps[0]), c, steps[1..])
  }

  /** Uninterrupted, the halves of a registration make up StoreSet. */
  function RegistrationSteps(s: ConstraintSet, affected: seq<string>): seq<Step> {
    if affected == [] then [] else [MarkAffected(affected[0], s.generation)] + RegistrationSteps(s, affected[1..])
  }

  lemma {:induction false} MarkingOneByOne(rt: Runtime, c: Config, s: ConstraintSet, affected: seq<string>)
    requires forall i, j :: 0 <= i < j < |affected| ==> affected[i] != affected[j]
    requires forall p :: p in affected ==>
               p in rt.records && rt.records[p].definition.constraintGeneration != s.generation
    ensures Run(rt, c, RegistrationSteps(s, affected)) ==
            rt.(records := MarkWhere(rt.records, set p | p in affected))
    decreases |affected|
  {
    hide Mark, MarkWhere, DependenciesOf, Commit, Invalidate, LosePublisher, Revoke, Retire;
    if affected == [] {
      MarkNone(rt.records);
      assert (set p | p in affected) == {};
    } else {
      var p := affected[0];
      var rt' := MarkIfBehind(rt, p, s.generation);
      var steps := RegistrationSteps(s, affected);
      assert steps[0] == MarkAffected(p, s.generation) && steps[1..] == RegistrationSteps(s, affected[1..]);
      assert forall q :: q in affected[1..] ==> q != p && q in affected;
      MarkingOneByOne(rt', c, s, affected[1..]);
      var rest := set q | q in affected[1..];
      assert (set q | q in affected) == rest + {p} by { assert affected == [p] + affected[1..]; }
      MarkOneMore(rt.records, p, rest);
    }
  }

  lemma MarkNone(records: map<string, Record>)
    ensures MarkWhere(records, {}) == records
  {
    hide Mark;
  }

  lemma MarkOneMore(records: map<string, Record>, p: string, rest: set<string>)
    requires p in records && p !in rest
    ensures MarkWhere(records, rest)[p] == records[p]
    ensures MarkWhere(records, rest)[p := Mark(records[p])] == MarkWhere(records, rest + {p})
    ensures MarkWhere(records[p := Mark(records[p])], rest) == MarkWhere(records, rest + {p})
  {
    hide Mark;
  }

  lemma RegistrationIsStoreSet(rt: Runtime, c: Config, s: ConstraintSet, affected: seq<string>)
    requires forall i, j :: 0 <= i < j < |affected| ==> affected[i] != affected[j]
    requires (set p | p in affected) == AffectedBy(rt, s)
    ensures Run(rt, c, [PutSet(s)] + RegistrationSteps(s, affected)) == StoreSet(rt, s)
  {
    hide Mark;
    var steps := [PutSet(s)] + RegistrationSteps(s, affected);
    assert steps[0] == PutSet(s) && steps[1..] == RegistrationSteps(s, affected);
    assert forall p :: p in affected ==> p in AffectedBy(rt, s);
    MarkingOneByOne(StoreSetOnly(rt, s), c, s, affected);
  }

  lemma {:induction false} RunAppend(rt: Runtime, c: Config, a: seq<Step>, b: seq<Step>)
    ensures Run(rt, c, a + b) == Run(Run(rt, c, a), c, b)
    decreases |a|
  {
    hide Apply;
    if a == [] {
      assert a + b == b;
    } else {
      assert (a + b)[0] == a[0] && (a + b)[1..] == a[1..] + b;
      RunAppend(Apply(rt, c, a[0]), c, a[1..], b);
    }
  }

  // ---- what every record keeps --------------------------------------------------------------

  /** The digests on a record are the ones its own fields give. */
  predicate DigestsMatch(r: Record) {
    && r.pathDigest == PathDigestOf(r.definition)
    && r.authorityDigest ==
       AuthorityDigestOf(r.definition, r.pathDigest, r.constraintDigest, r.evidence, r.state, r.outcome, r.violations)
  }

  predicate Consistent(r: Record) {
    && r.state == StateForOutcome(r.outcome)
    && r.generation != 0
    && Canonical(r.evidence)
  }

  predicate Sound(r: Record) { Consistent(r) && DigestsMatch(r) }

  /** What evaluate and publish_decision establish about a request before they commit it. */
  predicate ProperRequest(q: CommitRequest) {
    && q.pathDigest == PathDigestOf(q.path)
    && q.state == StateForOutcome(q.primary)
    && Canonical(q.evidence)
    && q.authorityDigest ==
       AuthorityDigestOf(q.path, q.pathDigest, q.constraintDigest, q.evidence, q.state, q.primary, q.secondary)
  }

  predicate ProperStep(s: Step) { s.Decide? ==> ProperRequest(s.request) }

  predicate RecordsConsistent(rt: Runtime) {
    forall p :: p in rt.records ==> rt.records[p].definition.id == p && Consistent(rt.records[p])
  }

  predicate RecordsDigested(rt: Runtime) { forall p :: p in rt.records ==> DigestsMatch(rt.records[p]) }

  lemma MarkSound(r: Record)
    ensures Consistent(r) ==> Consistent(Mark(r))
    ensures DigestsMatch(r) ==> DigestsMatch(Mark(r))
    ensures Mark(r).definition == r.definition
  {
    hide AuthorityDigestOf;
  }

  /** A commit leaves the records alone or writes the one new record at the next generation. */
  lemma CommitRecords(rt: Runtime, c: Config, q: CommitRequest)
    ensures var (rt', result) := Commit(rt, c, q);
            && rt'.sets == rt.sets && rt'.watermarks == rt.watermarks
            && (result.Committed? ==> result.generation == CurrentGeneration(rt, q.path.id) + 1)
            && rt'.records ==
               if result.Committed? then rt.records[q.path.id := NewRecord(rt, q, result.generation, c.limits)]
               else rt.records
  {
    hide Refusal, Replays, Unfile, Filed, IndexKeys, DependenciesOf, Trim;
  }

  /** Exactly when a commit writes, replays or refuses, and that a refusal or a replay decides nothing. */
  lemma CommitOutcomes(rt: Runtime, c: Config, q: CommitRequest)
    ensures var (rt', result) := Commit(rt, c, q);
            var found := q.path.id in rt.records;
            var accepted := (found || |rt.records| < c.limits.maxPaths) && !StaleEvidence(rt.watermarks, q.evidence)
                            && (q.expected.Some? ==> q.expected.value == CurrentGeneration(rt, q.path.id));
            var same := found && c.idempotentReplay && rt.records[q.path.id].authorityDigest == q.authorityDigest;
            && (result.Committed? <==> accepted && !same && CurrentGeneration(rt, q.path.id) < U64_MAX)
            && (result.Replayed? <==> accepted && same)
            && (result.Refused? && result.outcome == StaleAuthority ==>
                  q.expected.Some? && q.expected.value != CurrentGeneration(rt, q.path.id))
            && (result.Refused? && result.outcome == RevalidationRequiredOutcome ==>
                 StaleEvidence(rt.watermarks, q.evidence))
            && (result.Refused? && CurrentGeneration(rt, q.path.id) < U64_MAX ==> rt' == rt)
            && (result.Refused? ==> rt'.(indexes := rt.indexes) == rt)
            && (result.Replayed? ==> rt'.(attempts := rt.attempts, attemptOrder := rt.attemptOrder) == rt)
  {
    hide StaleEvidence, Unfile, Store, NewRecord, Trim;
  }

  lemma CommitSound(rt: Runtime, c: Config, q: CommitRequest)
    requires ProperRequest(q)
    ensures RecordsConsistent(rt) ==> RecordsConsistent(Commit(rt, c, q).0)
    ensures RecordsDigested(rt) ==> RecordsDigested(Commit(rt, c, q).0)
  {
    hide Commit, DependenciesOf, AuthorityDigestOf, PathDigestOf, Canonical, StateForOutcome;
    CommitRecords(rt, c, q);
  }

  lemma TerminalRecordsSound(r: Record, q: RevokeRequest, epoch: u64)
    requires r.generation < U64_MAX
    ensures Consistent(r) ==> Consistent(RevokedRecord(r, q, epoch)) && Consistent(RetiredRecord(r))
    ensures DigestsMatch(r) ==> DigestsMatch(RevokedRecord(r, q, epoch)) && DigestsMatch(RetiredRecord(r))
    ensures RevokedRecord(r, q, epoch).definition == r.definition && RetiredRecord(r).definition == r.definition
  {
    hide AuthorityDigestOf, PathDigestOf;
  }

  /** The ways a step other than a decision may change one record. */
  ghost predicate Rewritten(r: Record, r': Record) {
    || r' == r || r' == Mark(r)
    || (r.generation < U64_MAX && (r' == RetiredRecord(r) || exists q, epoch :: r' == RevokedRecord(r, q, epoch)))
  }

  lemma RewrittenSound(r: Record, r': Record)
    requires Rewritten(r, r')
    ensures Consistent(r) ==> Consistent(r')
    ensures DigestsMatch(r) ==> DigestsMatch(r')
    ensures r'.definition == r.definition
  {
    hide Mark, RevokedRecord, RetiredRecord, Consistent, DigestsMatch;
    MarkSound(r);
    if r.generation < U64_MAX {
      TerminalRecordsSound(r, RevokeRequest("", 0, "", "", None, false), 0);
      if q, epoch :| r' == RevokedRecord(r, q, epoch) { TerminalRecordsSound(r, q, epoch); }
    }
  }

  lemma StepRewrites(rt: Runtime, c: Config, s: Step)
    requires !s.Decide?
    ensures Apply(rt, c, s).records.Keys == rt.records.Keys && Apply(rt, c, s).indexes == rt.indexes
    ensures forall p :: p in rt.records ==> Rewritten(rt.records[p], Apply(rt, c, s).records[p])
  {
    hide Mark, Candidates, Bound, SameRevocation, RevokedRecord, RetiredRecord, PublishedBy;
    match s
    case Notice(i) =>
    case Lose(publisher, boot) =>
    case PutSet(constraints) =>
    case MarkAffected(path, generation) =>
    case RevokePath(path, q, epoch) =>
    case RetirePath(path) =>
  }

  lemma StepSound(rt: Runtime, c: Config, s: Step)
    requires ProperStep(s)
    ensures RecordsConsistent(rt) ==> RecordsConsistent(Apply(rt, c, s))
    ensures RecordsDigested(rt) ==> RecordsDigested(Apply(rt, c, s))
  {
    hide Commit, Invalidate, LosePublisher, Revoke, Retire, Rewritten, Consistent, DigestsMatch, ProperRequest;
    if s.Decide? {
      CommitSound(rt, c, s.request);
    } else {
      StepRewrites(rt, c, s);
      forall p | p in rt.records { RewrittenSound(rt.records[p], Apply(rt, c, s).records[p]); }
    }
  }

  /** Each record's digest is its recomputation, and its state the one of its outcome, after every step of every run. */
  lemma {:induction false} RunSound(rt: Runtime, c: Config, steps: seq<Step>)
    requires RecordsConsistent(rt) && RecordsDigested(rt) && forall s :: s in steps ==> ProperStep(s)
    ensures forall p :: p in Run(rt, c, steps).records ==> Sound(Run(rt, c, steps).records[p])
    decreases |steps|
  {
    hide Apply, ProperStep, Consistent, DigestsMatch;
    if steps != [] {
      assert steps[0] in steps;
      StepSound(rt, c, steps[0]);
      RunSound(Apply(rt, c, steps[0]), c, steps[1..]);
    }
  }

  // ---- generations ----------------------------------------------------------------------

  predicate SameOrNext(r: Record, r': Record) { r' == r || r'.generation == r.generation + 1 }

  /** No record disappears, and a record that changes at all moves to exactly the next generation. */
  predicate Advances(rt: Runtime, rt': Runtime) {
    && (forall p :: p in rt.records ==> p in rt'.records && SameOrNext(rt.records[p], rt'.records[p]))
    && (forall p :: p in rt'.records && p !in rt.records ==> rt'.records[p].generation == 1)
  }

  lemma RewrittenAdvances(r: Record, r': Record)
    requires Rewritten(r, r')
    ensures SameOrNext(r, r')
  {
    hide AuthorityDigestOf;
  }

  lemma {:induction false} StepAdvances(rt: Runtime, c: Config, s: Step)
    ensures Advances(rt, Apply(rt, c, s))
  {
    hide Commit, Invalidate, LosePublisher, Revoke, Retire, Rewritten, DependenciesOf;
    if s.Decide? {
      CommitRecords(rt, c, s.request);
    } else {
      StepRewrites(rt, c, s);
      forall p | p in rt.records { RewrittenAdvances(rt.records[p], Apply(rt, c, s).records[p]); }
    }
  }

  /** Over any run a generation never falls, and a record seen twice at one generation is the same record. */
  lemma {:induction false} GenerationsIdentifyRecords(rt: Runtime, c: Config, steps: seq<Step>, path: string)
    requires path in rt.records
    ensures path in Run(rt, c, steps).records
    ensures Run(rt, c, steps).records[path].generation >= rt.records[path].generation
    ensures Run(rt, c, steps).records[path].generation == rt.records[path].generation
            ==> Run(rt, c, steps).records[path] == rt.records[path]
    ensures Run(rt, c, steps).records[path].generation - rt.records[path].generation <= |steps|
    decreases |steps|
  {
    hide Apply;
    if steps != [] {
      StepAdvances(rt, c, steps[0]);
      GenerationsIdentifyRecords(Apply(rt, c, steps[0]), c, steps[1..], path);
    }
  }

  // ---- what only a decision changes ------------------------------------------------------------

  /** What every step but a decision leaves alone on a record. */
  predicate Frame(r: Record, r': Record) {
    && r'.definition == r.definition && r'.evidence == r.evidence && r'.dependencies == r.dependencies
    && r'.publisher == r.publisher && r'.workerBoot == r.workerBoot
    && r'.generation >= r.generation
    && (r.revocation.Some? ==> r'.revocation.Some?) && (r.retired ==> r'.retired)
    && (r' == r || (!Authorizing(r') && r.generation < U64_MAX))
  }

  lemma RewrittenFrames(r: Record, r': Record)
    requires Rewritten(r, r')
    ensures Frame(r, r')
  {
    hide Mark, RevokedRecord, RetiredRecord, Frame;
    MarkFrames(r);
    if r.generation < U64_MAX {
      TerminalFrames(r, RevokeRequest("", 0, "", "", None, false), 0);
      if q, epoch :| r' == RevokedRecord(r, q, epoch) { TerminalFrames(r, q, epoch); }
    }
  }

  lemma MarkFrames(r: Record)
    ensures Frame(r, Mark(r)) && Frame(r, r)
  {
    hide AuthorityDigestOf;
  }

  lemma TerminalFrames(r: Record, q: RevokeRequest, epoch: u64)
    requires r.generation < U64_MAX
    ensures Frame(r, RevokedRecord(r, q, epoch)) && Frame(r, RetiredRecord(r))
  {
    hide AuthorityDigestOf;
  }

  predicate Framed(rt: Runtime, rt': Runtime) {
    && rt'.indexes == rt.indexes && rt'.records.Keys == rt.records.Keys
    && forall p :: p in rt.records ==> Frame(rt.records[p], rt'.records[p])
  }

  lemma StepFrames(rt: Runtime, c: Config, s: Step)
    requires !s.Decide?
    ensures Framed(rt, Apply(rt, c, s))
  {
    hide Apply, Rewritten, Frame;
    StepRewrites(rt, c, s);
    forall p | p in rt.records { RewrittenFrames(rt.records[p], Apply(rt, c, s).records[p]); }
  }

  // ---- the attempt log ----------------------------------------------------------------------

  predicate Distinct(order: seq<string>) { forall i, j :: 0 <= i < j < |order| ==> order[i] != order[j] }

  predicate AttemptsTracked(rt: Runtime, limits: Limits) {
    && |rt.attemptOrder| <= limits.maxOutstandingAttempts && Distinct(rt.attemptOrder)
    && rt.attempts.Keys == set a | a in rt.attemptOrder
  }

  lemma DropOldest(attempts: map<string, Attempt>, order: seq<string>)
    requires order != [] && Distinct(order) && attempts.Keys == set a | a in order
    ensures Distinct(order[1..]) && (attempts - {order[0]}).Keys == set a | a in order[1..]
    ensures |order| > 1 ==> order[|order| - 1] in attempts - {order[0]}
  {
    assert order == [order[0]] + order[1..];
    assert forall i :: 0 <= i < |order| - 1 ==> order[1..][i] == order[i + 1];
    assert order[0] !in order[1..];
    assert order[|order| - 1] in order;
  }

  lemma {:induction false} TrimTracks(attempts: map<string, Attempt>, order: seq<string>, max: nat)
    requires Distinct(order) && attempts.Keys == set a | a in order
    ensures var (kept, rest) := Trim(attempts, order, max);
            && |rest| <= max && Distinct(rest)
            && kept.Keys == (set a | a in rest)
            && (|order| <= max + 1 && order != [] && max > 0 ==>
                  order[|order| - 1] in kept && kept[order[|order| - 1]] == attempts[order[|order| - 1]])
    decreases |order|
  {
    hide Distinct;
    if |order| > max {
      DropOldest(attempts, order);
      TrimTracks(attempts - {order[0]}, order[1..], max);
    }
  }

  /** The log never outgrows its bound, holds each id once, and remembers the id it was just given. */
  lemma RememberTracks(rt: Runtime, attempt: string, path: string, digest: Digest, limits: Limits)
    requires AttemptsTracked(rt, limits) && limits.maxOutstandingAttempts > 0
    ensures var rt' := RememberAttempt(rt, attempt, path, digest, limits);
            && AttemptsTracked(rt', limits)
            && (attempt != "" ==> attempt in rt'.attempts && rt'.attempts[attempt] == Attempt(path, digest))
  {
    hide Trim;
    if attempt != "" && attempt !in rt.attempts {
      var order := rt.attemptOrder + [attempt];
      assert forall i :: 0 <= i < |rt.attemptOrder| ==> rt.attemptOrder[i] in rt.attempts;
      TrimTracks(rt.attempts[attempt := Attempt(path, digest)], order, limits.maxOutstandingAttempts);
    }
  }
}
