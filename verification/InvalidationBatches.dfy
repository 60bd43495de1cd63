/** A batch of invalidations has one effect, whatever its order and however often its members are repeated. */
module InvalidationBatches {
  import opened Base
  import opened Model
  import opened Evidence
  import opened RuntimeState

  function InvalidateAll(rt: Runtime, batch: seq<Invalidation>): Runtime
    decreases |batch|
  {
    if batch == [] then rt else InvalidateAll(Invalidate(rt, batch[0]), batch[1..])
  }

  /** The invalidation finds the record and the record does not already bind the new generation. */
  predicate Hits(rt: Runtime, i: Invalidation, p: string) {
    p in rt.records && p in Candidates(rt, TargetOf(i)) && !Bound(rt.records[p], SubjectOf(i), i.generation)
  }

  /** One invalidation decides neither which records another one finds nor what they bind. */
  lemma InvalidateKeepsHits(rt: Runtime, i: Invalidation, j: Invalidation, p: string)
    ensures Hits(Invalidate(rt, i), j, p) <==> Hits(rt, j, p)
  {
    hide SubjectOf, TargetOf, AuthorityDigestOf;
  }

  lemma MarkTwice(r: Record)
    ensures Mark(Mark(r)) == Mark(r)
  {
    hide AuthorityDigestOf;
  }

  lemma InvalidateRecord(rt: Runtime, i: Invalidation, p: string)
    requires p in rt.records
    ensures p in Invalidate(rt, i).records
    ensures Invalidate(rt, i).records[p] == if Hits(rt, i, p) then Mark(rt.records[p]) else rt.records[p]
  {
    hide SubjectOf, TargetOf, Mark, Bound, Candidates;
  }

  /** A record ends up marked once exactly when some member of the batch hits it. */
  lemma {:induction false} BatchOnRecord(rt: Runtime, batch: seq<Invalidation>, p: string)
    requires p in rt.records
    ensures p in InvalidateAll(rt, batch).records
    ensures InvalidateAll(rt, batch).records[p] ==
            if exists i :: i in batch && Hits(rt, i, p) then Mark(rt.records[p]) else rt.records[p]
    decreases |batch|
  {
    hide Invalidate, Hits, Mark;
    if batch != [] {
      var rt' := Invalidate(rt, batch[0]);
      InvalidateRecord(rt, batch[0], p);
      BatchOnRecord(rt', batch[1..], p);
      forall i ensures Hits(rt', i, p) <==> Hits(rt, i, p) { InvalidateKeepsHits(rt, batch[0], i, p); }
      assert forall i :: i in batch <==> i == batch[0] || i in batch[1..];
      MarkTwice(rt.records[p]);
      if exists i :: i in batch[1..] && Hits(rt', i, p) {
        var i :| i in batch[1..] && Hits(rt', i, p);
        assert i in batch && Hits(rt, i, p);
      }
    }
  }

  lemma {:induction false} BatchFrame(rt: Runtime, batch: seq<Invalidation>)
    ensures var rt' := InvalidateAll(rt, batch);
            && rt'.records.Keys == rt.records.Keys
            && rt' == rt.(records := rt'.records, watermarks := rt'.watermarks)
    decreases |batch|
  {
    hide SubjectOf, TargetOf, Mark, Bound, Candidates, Raise;
    if batch != [] { BatchFrame(Invalidate(rt, batch[0]), batch[1..]); }
  }

  /** The watermark of a key is the least bound on its old value and on every announced generation. */
  lemma {:induction false} BatchWatermark(rt: Runtime, batch: seq<Invalidation>, key: Key)
    ensures var w := InvalidateAll(rt, batch).watermarks;
            && (key in rt.watermarks ==> key in w && rt.watermarks[key] <= w[key])
            && (forall i :: i in batch && SubjectOf(i) == key ==> key in w && i.generation <= w[key])
            && (key in w ==> (key in rt.watermarks && w[key] == rt.watermarks[key])
                             || exists i :: i in batch && SubjectOf(i) == key && w[key] == i.generation)
    decreases |batch|
  {
    hide SubjectOf, TouchAll, Candidates;
    if batch != [] {
      BatchWatermark(Invalidate(rt, batch[0]), batch[1..], key);
      assert forall i :: i in batch <==> i == batch[0] || i in batch[1..];
      var w := InvalidateAll(rt, batch).watermarks;
      if exists i :: i in batch[1..] && SubjectOf(i) == key && w[key] == i.generation {
        var i :| i in batch[1..] && SubjectOf(i) == key && w[key] == i.generation;
        assert i in batch;
      } else {
        assert batch[0] in batch;
      }
    }
  }

  predicate SameMembers(a: seq<Invalidation>, b: seq<Invalidation>) {
    (forall i :: i in a ==> i in b) && (forall i :: i in b ==> i in a)
  }

  lemma SameWatermarks(rt: Runtime, a: seq<Invalidation>, b: seq<Invalidation>)
    requires SameMembers(a, b)
    ensures InvalidateAll(rt, a).watermarks == InvalidateAll(rt, b).watermarks
  {
    hide SubjectOf, InvalidateAll;
    var v, w := InvalidateAll(rt, a).watermarks, InvalidateAll(rt, b).watermarks;
    forall key ensures (key in v <==> key in w) && (key in v ==> v[key] == w[key]) {
      BatchWatermark(rt, a, key);
      BatchWatermark(rt, b, key);
    }
    assert v.Keys == w.Keys;
  }

  /** Order and repetition are immaterial: batches with the same members leave the same runtime. */
  lemma BatchIsASet(rt: Runtime, a: seq<Invalidation>, b: seq<Invalidation>)
    requires SameMembers(a, b)
    ensures InvalidateAll(rt, a) == InvalidateAll(rt, b)
  {
    hide InvalidateAll, Hits, Mark;
    SameWatermarks(rt, a, b);
    BatchFrame(rt, a);
    BatchFrame(rt, b);
    forall p | p in rt.records ensures InvalidateAll(rt, a).records[p] == InvalidateAll(rt, b).records[p] {
      BatchOnRecord(rt, a, p);
      BatchOnRecord(rt, b, p);
    }
    assert InvalidateAll(rt, a).records == InvalidateAll(rt, b).records;
  }

  lemma {:induction false} BatchAppend(rt: Runtime, a: seq<Invalidation>, b: seq<Invalidation>)
    ensures InvalidateAll(rt, a + b) == InvalidateAll(InvalidateAll(rt, a), b)
    decreases |a|
  {
    hide Invalidate;
    if a == [] {
      assert a + b == b;
    } else {
      assert (a + b)[0] == a[0] && (a + b)[1..] == a[1..] + b;
      BatchAppend(Invalidate(rt, a[0]), a[1..], b);
    }
  }

  /** Repeating a batch, in any order, changes nothing. */
  lemma BatchIsIdempotent(rt: Runtime, a: seq<Invalidation>, b: seq<Invalidation>)
    requires SameMembers(a, b)
    ensures InvalidateAll(InvalidateAll(rt, a), b) == InvalidateAll(rt, a)
  {
    hide InvalidateAll;
    BatchAppend(rt, a, b);
    BatchIsASet(rt, a + b, a);
  }
}
