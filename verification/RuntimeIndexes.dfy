/** The four reverse indexes are the inverse of the dependency lists, so an indexed invalidation is a full scan. */
module RuntimeIndexes {
  import opened Base
  import opened Model
  import opened Evidence
  import opened RuntimeState
  import opened RuntimeRuns

  predicate InBucket(ix: Indexes, k: IndexKey, p: string) { k in ix && p in ix[k] }

  predicate NoEmptyBucket(ix: Indexes) { forall k :: k in ix ==> ix[k] != {} && k.text != "" }

  predicate DependsOn(records: map<string, Record>, p: string, k: IndexKey) {
    p in records && k in IndexKeys(records[p].dependencies)
  }

  /** Every filed path depends on its key, and every dependency of a record that can still advance is filed. */
  ghost predicate IndexesAgree(rt: Runtime) {
    && NoEmptyBucket(rt.indexes)
    && (forall k, p :: InBucket(rt.indexes, k, p) ==> DependsOn(rt.records, p, k))
    && (forall k, p :: DependsOn(rt.records, p, k) && rt.records[p].generation < U64_MAX ==> InBucket(rt.indexes, k, p))
  }

  // ---- filing ------------------------------------------------------------------------

  lemma FiledBuckets(ix: Indexes, keys: set<IndexKey>, path: string)
    requires NoEmptyBucket(ix) && forall k :: k in keys ==> k.text != ""
    ensures NoEmptyBucket(Filed(ix, keys, path))
    ensures forall k, p :: InBucket(Filed(ix, keys, path), k, p) <==> InBucket(ix, k, p) || (k in keys && p == path)
  {
  }

  lemma UnfiledBuckets(ix: Indexes, keys: set<IndexKey>, path: string)
    requires NoEmptyBucket(ix)
    ensures NoEmptyBucket(Unfiled(ix, keys, path))
    ensures forall k, p :: InBucket(Unfiled(ix, keys, path), k, p) <==> InBucket(ix, k, p) && !(k in keys && p == path)
  {
  }

  lemma IndexKeysHaveText(d: Dependencies)
    ensures forall k :: k in IndexKeys(d) ==> k.text != ""
  {
  }

  /** Taking a path out of the indexes leaves exactly the other paths' entries. */
  lemma UnfileAgrees(rt: Runtime, path: string)
    requires IndexesAgree(rt)
    ensures NoEmptyBucket(Unfile(rt, path))
    ensures forall k, p :: InBucket(Unfile(rt, path), k, p) ==> p != path && DependsOn(rt.records, p, k)
    ensures forall k, p :: p != path && DependsOn(rt.records, p, k) && rt.records[p].generation < U64_MAX
                           ==> InBucket(Unfile(rt, path), k, p)
  {
    hide IndexKeys, Unfiled;
    if path in rt.records { UnfiledBuckets(rt.indexes, IndexKeys(rt.records[path].dependencies), path); }
  }

  lemma StoreAgrees(rt: Runtime, r: Record)
    requires IndexesAgree(rt)
    ensures IndexesAgree(Store(rt, r))
  {
    hide IndexKeys, Filed, Unfile;
    var path := r.definition.id;
    UnfileAgrees(rt, path);
    IndexKeysHaveText(r.dependencies);
    FiledBuckets(Unfile(rt, path), IndexKeys(r.dependencies), path);
  }

  lemma RememberKeepsRecords(rt: Runtime, attempt: string, path: string, digest: Digest, limits: Limits)
    ensures var rt' := RememberAttempt(rt, attempt, path, digest, limits);
            rt'.records == rt.records && rt'.indexes == rt.indexes && rt'.sets == rt.sets
              && rt'.watermarks == rt.watermarks
  {
  }

  lemma CommitAgrees(rt: Runtime, c: Config, q: CommitRequest)
    requires IndexesAgree(rt)
    ensures IndexesAgree(Commit(rt, c, q).0)
  {
    hide Refusal, Replays, Unfile, Store, NewRecord, DependsOn, InBucket, RememberAttempt, IndexKeys;
    var current := CurrentGeneration(rt, q.path.id);
    var (rt', result) := Commit(rt, c, q);
    if result.Committed? {
      var stored := Store(rt, NewRecord(rt, q, current + 1, c.limits));
      StoreAgrees(rt, NewRecord(rt, q, current + 1, c.limits));
      RememberKeepsRecords(stored, q.attempt, q.path.id, q.inputDigest, c.limits);
    } else if result.Replayed? {
      RememberKeepsRecords(rt, q.attempt, q.path.id, q.inputDigest, c.limits);
    } else if rt'.indexes != rt.indexes {
      ExhaustedAgrees(rt, q.path.id);
    }
  }

  /** The refusal at the last generation takes the path out of the indexes; nothing else changes. */
  lemma ExhaustedAgrees(rt: Runtime, path: string)
    requires IndexesAgree(rt) && CurrentGeneration(rt, path) == U64_MAX
    ensures IndexesAgree(rt.(indexes := Unfile(rt, path)))
  {
    hide IndexKeys, Unfile;
    UnfileAgrees(rt, path);
  }

  /**
   * Of a path on record: the refusal for lack of resources comes exactly at the last generation, from a decision
   * that no other guard refuses and that is no replay. It takes the path out of every bucket and changes nothing
   * else; every other refusal changes nothing at all.
   */
  lemma RefusalAtTheEndUnfiles(rt: Runtime, c: Config, q: CommitRequest)
    requires IndexesAgree(rt) && q.path.id in rt.records
    ensures var (rt', result) := Commit(rt, c, q);
            && (result == Refused(ResourceLimit) <==>
                  && rt.records[q.path.id].generation == U64_MAX && !StaleEvidence(rt.watermarks, q.evidence)
                  && (q.expected.Some? ==> q.expected.value == U64_MAX)
                  && !(c.idempotentReplay && rt.records[q.path.id].authorityDigest == q.authorityDigest))
            && (result == Refused(ResourceLimit) ==>
                  && rt' == rt.(indexes := rt'.indexes)
                  && forall k, p {:trigger InBucket(rt'.indexes, k, p)} ::
                       InBucket(rt'.indexes, k, p) <==> p != q.path.id && InBucket(rt.indexes, k, p))
            && (result.Refused? && result != Refused(ResourceLimit) ==> rt' == rt)
  {
    hide StaleEvidence, Unfile, Store, NewRecord, RememberAttempt, InBucket, DependsOn, IndexesAgree;
    UnfiledExactly(rt, q.path.id);
  }

  lemma UnfiledExactly(rt: Runtime, path: string)
    requires IndexesAgree(rt)
    ensures forall k, p :: InBucket(Unfile(rt, path), k, p) <==> p != path && InBucket(rt.indexes, k, p)
  {
    hide IndexKeys, Unfiled;
    if path in rt.records {
      UnfiledBuckets(rt.indexes, IndexKeys(rt.records[path].dependencies), path);
    }
  }

  /** Steps that keep every dependency list and never lower a generation keep the agreement. */
  lemma FramedAgree(rt: Runtime, rt': Runtime)
    requires IndexesAgree(rt) && Framed(rt, rt')
    ensures IndexesAgree(rt')
  {
    hide IndexKeys, Authorizing;
  }

  lemma StepAgrees(rt: Runtime, c: Config, s: Step)
    requires IndexesAgree(rt)
    ensures IndexesAgree(Apply(rt, c, s))
  {
    hide Commit, Invalidate, LosePublisher, Revoke, Retire, IndexesAgree, Framed;
    if s.Decide? {
      CommitAgrees(rt, c, s.request);
    } else {
      StepFrames(rt, c, s);
      FramedAgree(rt, Apply(rt, c, s));
    }
  }

  lemma {:induction false} RunAgrees(rt: Runtime, c: Config, steps: seq<Step>)
    requires IndexesAgree(rt)
    ensures IndexesAgree(Run(rt, c, steps))
    decreases |steps|
  {
    hide Apply, IndexesAgree;
    if steps != [] {
      StepAgrees(rt, c, steps[0]);
      RunAgrees(Apply(rt, c, steps[0]), c, steps[1..]);
    }
  }

  // ---- indexed invalidation is a scan ------------------------------------------------------

  ghost predicate NoneExhausted(rt: Runtime) { forall p :: p in rt.records ==> rt.records[p].generation < U64_MAX }

  /** The paths a scan of all records would pick. */
  function Dependents(records: map<string, Record>, target: Option<IndexKey>): set<string> {
    set p | p in records && (target.None? || DependsOn(records, p, target.value))
  }

  /** The indexes are the exact inverse of the dependency lists. */
  lemma IndexesAreInverse(rt: Runtime, k: IndexKey)
    requires IndexesAgree(rt) && NoneExhausted(rt)
    ensures Bucket(rt.indexes, k) == Dependents(rt.records, Some(k))
    ensures k in rt.indexes <==> Dependents(rt.records, Some(k)) != {}
  {
    hide IndexKeys;
    forall p ensures p in Bucket(rt.indexes, k) <==> p in Dependents(rt.records, Some(k)) {
      assert InBucket(rt.indexes, k, p) <==> p in Bucket(rt.indexes, k);
    }
    if k in rt.indexes { assert rt.indexes[k] == Bucket(rt.indexes, k); }
  }

  /** Candidates never miss a record that marking could change. */
  lemma CandidatesCover(rt: Runtime, target: Option<IndexKey>, p: string)
    requires IndexesAgree(rt) && p in rt.records
    ensures p in Candidates(rt, target) ==> p in Dependents(rt.records, target)
    ensures rt.records[p].generation < U64_MAX && p in Dependents(rt.records, target) ==> p in Candidates(rt, target)
  {
    hide IndexKeys;
    if target.Some? { assert InBucket(rt.indexes, target.value, p) <==> p in Bucket(rt.indexes, target.value); }
  }

  /**
   * In every reachable state an invalidation has the effect of a scan of all records, and it reports what the
   * scan would report about every record whose generation is not exhausted.
   */
  lemma InvalidationIsScan(rt: Runtime, i: Invalidation)
    requires IndexesAgree(rt)
    ensures Invalidate(rt, i).records ==
              TouchAll(rt.records, Dependents(rt.records, TargetOf(i)), SubjectOf(i), i.generation)
    ensures forall p :: p in rt.records && p !in Dependents(rt.records, TargetOf(i)) ==>
              Invalidate(rt, i).records[p] == rt.records[p]
    ensures NoneExhausted(rt) ==>
              ReportOn(rt.records, Candidates(rt, TargetOf(i)), SubjectOf(i), i.generation)
              == ReportOn(rt.records, Dependents(rt.records, TargetOf(i)), SubjectOf(i), i.generation)
  {
    hide IndexKeys, Candidates, Dependents, Bound, Settled, Touch, SubjectOf, TargetOf, IndexesAgree;
    var records := TouchAll(rt.records, Dependents(rt.records, TargetOf(i)), SubjectOf(i), i.generation);
    forall p | p in rt.records
      ensures Invalidate(rt, i).records[p] == records[p]
      ensures p !in Dependents(rt.records, TargetOf(i)) ==> Invalidate(rt, i).records[p] == rt.records[p]
      ensures NoneExhausted(rt) ==> (p in Candidates(rt, TargetOf(i)) <==> p in Dependents(rt.records, TargetOf(i)))
    {
      CandidatesCover(rt, TargetOf(i), p);
      ExhaustedUntouched(rt.records[p], SubjectOf(i), i.generation);
    }
    assert Invalidate(rt, i).records == records;
  }

  lemma ExhaustedUntouched(r: Record, key: Key, generation: u64)
    ensures r.generation == U64_MAX ==> Touch(r, key, generation) == r
  {
  }
}
