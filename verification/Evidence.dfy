/** The evidence vector: a strictly sorted vector that behaves as a map, and the merge diff of two of them. */
module Evidence {
  import opened Base
  import opened Model

  type Key = (EvidenceKind, string)

  function KeyOf(e: EvidenceEntry): Key { (e.kind, e.subject) }

  predicate KeyLess(a: Key, b: Key) {
    EvidenceCode(a.0) < EvidenceCode(b.0) || (a.0 == b.0 && StringLess(a.1, b.1))
  }

  /** operator<=> of EvidenceEntry: the kind, then the subject. */
  predicate Less(a: EvidenceEntry, b: EvidenceEntry) { KeyLess(KeyOf(a), KeyOf(b)) }

  lemma KeyLessTotal(a: Key, b: Key)
    ensures KeyLess(a, b) || KeyLess(b, a) || a == b
    ensures !(KeyLess(a, b) && KeyLess(b, a))
    ensures !KeyLess(a, a)
  {
    StringLessTotal(a.1, b.1);
    StringLessTotal(a.1, a.1);
  }

  lemma KeyLessTransitive(a: Key, b: Key, c: Key)
    requires KeyLess(a, b) && KeyLess(b, c)
    ensures KeyLess(a, c)
  {
    if a.0 == b.0 && b.0 == c.0 { StringLessTransitive(a.1, b.1, c.1); }
  }

  /** The order part of EvidenceVector::valid: adjacent entries strictly increase. */
  predicate Canonical(es: seq<EvidenceEntry>) {
    forall i :: 0 < i < |es| ==> Less(es[i - 1], es[i])
  }

  lemma {:induction false} CanonicalOrder(es: seq<EvidenceEntry>, i: nat, j: nat)
    requires Canonical(es) && i < j < |es|
    ensures Less(es[i], es[j])
  {
    if i + 1 < j {
      CanonicalOrder(es, i, j - 1);
      KeyLessTransitive(KeyOf(es[i]), KeyOf(es[j - 1]), KeyOf(es[j]));
    }
  }

  lemma CanonicalTail(es: seq<EvidenceEntry>)
    requires Canonical(es) && es != []
    ensures Canonical(es[1..])
    ensures forall e :: e in es[1..] ==> Less(es[0], e)
  {
    forall e | e in es[1..] ensures Less(es[0], e) {
      var j :| 0 <= j < |es[1..]| && es[1..][j] == e;
      CanonicalOrder(es, 0, j + 1);
    }
  }

  // ---- the vector as a map -------------------------------------------------

  /** EvidenceVector::find. */
  function Find(es: seq<EvidenceEntry>, key: Key): Option<u64> {
    if es == [] then None
    else if KeyOf(es[0]) == key then Some(es[0].generation)
    else Find(es[1..], key)
  }

  lemma {:induction false} FindSome(es: seq<EvidenceEntry>, key: Key)
    ensures Find(es, key).Some? ==> EvidenceEntry(key.0, key.1, Find(es, key).value) in es
    ensures Find(es, key).None? ==> forall e :: e in es ==> KeyOf(e) != key
  {
    if es != [] && KeyOf(es[0]) != key {
      FindSome(es[1..], key);
      assert forall e :: e in es <==> e == es[0] || e in es[1..];
    }
  }

  /** In a canonical vector every entry is the one that a lookup of its key finds. */
  lemma {:induction false} FindEntry(es: seq<EvidenceEntry>, e: EvidenceEntry)
    requires Canonical(es) && e in es
    ensures Find(es, KeyOf(e)) == Some(e.generation)
  {
    CanonicalTail(es);
    KeyLessTotal(KeyOf(e), KeyOf(e));
    if e != es[0] {
      assert e in es[1..];
      FindEntry(es[1..], e);
    }
  }

  lemma {:induction false} AbsentBelow(es: seq<EvidenceEntry>, k: Key)
    requires Canonical(es) && (es != [] ==> KeyLess(k, KeyOf(es[0])))
    ensures Find(es, k) == None
  {
    if es != [] {
      KeyLessTotal(k, k);
      if |es| > 1 {
        assert Less(es[0], es[1]);
        KeyLessTransitive(k, KeyOf(es[0]), KeyOf(es[1]));
      }
      CanonicalTail(es);
      AbsentBelow(es[1..], k);
    }
  }

  /** Taking the least entry off removes exactly its key from the map. */
  lemma DropLeast(es: seq<EvidenceEntry>)
    requires Canonical(es) && es != []
    ensures Canonical(es[1..])
    ensures Find(es[1..], KeyOf(es[0])) == None
    ensures forall k :: k != KeyOf(es[0]) ==> Find(es[1..], k) == Find(es, k)
  {
    CanonicalTail(es);
    if es[1..] != [] { assert es[1..][0] in es[1..]; }
    AbsentBelow(es[1..], KeyOf(es[0]));
  }

  /** Canonical vectors are determined by the map they denote. */
  lemma {:induction false} CanonicalUnique(a: seq<EvidenceEntry>, b: seq<EvidenceEntry>)
    requires Canonical(a) && Canonical(b)
    requires forall k :: Find(a, k) == Find(b, k)
    ensures a == b
  {
    if a != [] || b != [] {
      var k := if a == [] || (b != [] && Less(b[0], a[0])) then KeyOf(b[0]) else KeyOf(a[0]);
      assert Find(a, k) == Find(b, k);
      if a != [] && b != [] {
        KeyLessTotal(KeyOf(a[0]), KeyOf(b[0]));
        if Less(b[0], a[0]) { AbsentBelow(a, k); }
        if Less(a[0], b[0]) { AbsentBelow(b, k); }
        DropLeast(a);
        DropLeast(b);
        CanonicalUnique(a[1..], b[1..]);
        assert a == [a[0]] + a[1..] && b == [b[0]] + b[1..];
      }
    }
  }

  // ---- EvidenceVector::set -------------------------------------------------

  /** Sorted insertion, or replacement of the generation of an entry that is already there. */
  function Put(es: seq<EvidenceEntry>, e: EvidenceEntry): seq<EvidenceEntry> {
    if es == [] then [e]
    else if Less(es[0], e) then [es[0]] + Put(es[1..], e)
    else if KeyOf(es[0]) == KeyOf(e) then [e] + es[1..]
    else [e] + es
  }

  predicate Fits(es: seq<EvidenceEntry>, e: EvidenceEntry, limits: Limits) {
    && |e.subject| <= limits.maxIdLength + 32
    && (Find(es, KeyOf(e)).Some? || |es| < limits.maxDependenciesPerPath)
  }

  lemma {:induction false} PutCanonical(es: seq<EvidenceEntry>, e: EvidenceEntry)
    requires Canonical(es)
    ensures Canonical(Put(es, e))
    ensures Put(es, e) != [] && (Put(es, e)[0] == e || (es != [] && Put(es, e)[0] == es[0]))
  {
    if es != [] {
      CanonicalTail(es);
      KeyLessTotal(KeyOf(es[0]), KeyOf(e));
      if Less(es[0], e) {
        PutCanonical(es[1..], e);
        assert es[1..] != [] ==> es[1..][0] in es[1..];
        PrependCanonical(es[0], Put(es[1..], e));
      } else if KeyOf(es[0]) == KeyOf(e) {
        assert es[1..] != [] ==> es[1..][0] in es[1..];
        PrependCanonical(e, es[1..]);
      } else {
        PrependCanonical(e, es);
      }
    }
  }

  lemma PrependCanonical(e: EvidenceEntry, es: seq<EvidenceEntry>)
    requires Canonical(es) && (es != [] ==> Less(e, es[0]))
    ensures Canonical([e] + es)
  {
    var r := [e] + es;
    forall i | 0 < i < |r| ensures Less(r[i - 1], r[i]) {
      if i > 1 { assert Less(es[i - 2], es[i - 1]); }
    }
  }

  /** A set call updates the map at its own key and nowhere else. */
  lemma {:induction false} PutFind(es: seq<EvidenceEntry>, e: EvidenceEntry, k: Key)
    requires Canonical(es)
    ensures Find(Put(es, e), k) == if k == KeyOf(e) then Some(e.generation) else Find(es, k)
  {
    if es != [] {
      CanonicalTail(es);
      KeyLessTotal(KeyOf(es[0]), KeyOf(e));
      if Less(es[0], e) {
        PutFind(es[1..], e, k);
        assert ([es[0]] + Put(es[1..], e))[1..] == Put(es[1..], e);
      } else if KeyOf(es[0]) == KeyOf(e) {
        assert ([e] + es[1..])[1..] == es[1..];
      } else {
        assert ([e] + es)[1..] == es;
      }
    }
  }

  function PutAll(es: seq<EvidenceEntry>, updates: seq<EvidenceEntry>): seq<EvidenceEntry>
    decreases |updates|
  {
    if updates == [] then es else PutAll(Put(es, updates[0]), updates[1..])
  }

  /** The generation that the last of the set calls for this key gave it. */
  function LastSet(updates: seq<EvidenceEntry>, key: Key): Option<u64> {
    if updates == [] then None
    else if LastSet(updates[1..], key).Some? then LastSet(updates[1..], key)
    else if KeyOf(updates[0]) == key then Some(updates[0].generation)
    else None
  }

  lemma {:induction false} PutAllFind(es: seq<EvidenceEntry>, updates: seq<EvidenceEntry>, k: Key)
    requires Canonical(es)
    ensures Canonical(PutAll(es, updates))
    ensures Find(PutAll(es, updates), k) ==
            if LastSet(updates, k).Some? then LastSet(updates, k) else Find(es, k)
    decreases |updates|
  {
    if updates != [] {
      PutCanonical(es, updates[0]);
      PutFind(es, updates[0], k);
      PutAllFind(Put(es, updates[0]), updates[1..], k);
    }
  }

  lemma {:induction false} PutAllAppend(es: seq<EvidenceEntry>, a: seq<EvidenceEntry>, b: seq<EvidenceEntry>)
    ensures PutAll(es, a + b) == PutAll(PutAll(es, a), b)
    decreases |a|
  {
    if a == [] {
      assert a + b == b;
    } else {
      assert (a + b)[1..] == a[1..] + b;
      PutAllAppend(Put(es, a[0]), a[1..], b);
    }
  }

  /** Call order does not matter: two runs of set calls that leave the same final map leave the same vector. */
  lemma SetOrderIrrelevant(a: seq<EvidenceEntry>, b: seq<EvidenceEntry>)
    requires forall k :: LastSet(a, k) == LastSet(b, k)
    ensures PutAll([], a) == PutAll([], b)
  {
    PutAllFind([], a, (Topology, ""));
    PutAllFind([], b, (Topology, ""));
    forall k ensures Find(PutAll([], a), k) == Find(PutAll([], b), k) {
      PutAllFind([], a, k);
      PutAllFind([], b, k);
      assert LastSet(a, k) == LastSet(b, k);
    }
    CanonicalUnique(PutAll([], a), PutAll([], b));
  }

  predicate SplitsAt(es: seq<EvidenceEntry>, e: EvidenceEntry, p: nat) {
    && p <= |es|
    && (forall i :: 0 <= i < p ==> Less(es[i], e))
    && (p < |es| ==> !Less(es[p], e))
  }

  /** What insertion at the position found by lower_bound comes to. */
  lemma {:induction false} PutAtSplit(es: seq<EvidenceEntry>, e: EvidenceEntry, p: nat)
    requires SplitsAt(es, e, p)
    ensures p < |es| && KeyOf(es[p]) == KeyOf(e) ==> Put(es, e) == es[p := e]
    ensures !(p < |es| && KeyOf(es[p]) == KeyOf(e)) ==> Put(es, e) == es[..p] + [e] + es[p..]
  {
    if p > 0 {
      var t := es[1..];
      assert Less(es[0], e) && forall i :: 0 <= i < |t| ==> t[i] == es[i + 1];
      PutAtSplit(t, e, p - 1);
      assert Put(es, e) == [es[0]] + Put(t, e);
    } else if p < |es| && KeyOf(es[0]) == KeyOf(e) {
      assert [e] + es[1..] == es[0 := e];
    } else {
      assert es[..0] + [e] + es[0..] == [e] + es;
    }
  }

  lemma {:induction false} FindAtSplit(es: seq<EvidenceEntry>, e: EvidenceEntry, p: nat)
    requires Canonical(es) && SplitsAt(es, e, p)
    ensures Find(es, KeyOf(e)) == if p < |es| && KeyOf(es[p]) == KeyOf(e) then Some(es[p].generation) else None
  {
    if es != [] {
      KeyLessTotal(KeyOf(es[0]), KeyOf(e));
      if p > 0 {
        assert Less(es[0], e);
        CanonicalTail(es);
        FindAtSplit(es[1..], e, p - 1);
      } else if KeyOf(es[0]) != KeyOf(e) {
        AbsentBelow(es, KeyOf(e));
      }
    }
  }

  class EvidenceVector {
    var entries: seq<EvidenceEntry>

    constructor ()
      ensures entries == []
    {
      entries := [];
    }

    /** std::lower_bound: the first position whose entry is not below the probe. */
    method LowerBound(probe: EvidenceEntry) returns (p: nat)
      requires Canonical(entries)
      ensures p <= |entries|
      ensures forall i :: 0 <= i < p ==> Less(entries[i], probe)
      ensures forall i :: p <= i < |entries| ==> !Less(entries[i], probe)
    {
      var lo, hi := 0, |entries|;
      while lo < hi
        invariant 0 <= lo <= hi <= |entries|
        invariant forall i :: 0 <= i < lo ==> Less(entries[i], probe)
        invariant forall i :: hi <= i < |entries| ==> !Less(entries[i], probe)
      {
        var mid := (lo + hi) / 2;
        if Less(entries[mid], probe) {
          forall i | 0 <= i < mid ensures Less(entries[i], probe) {
            CanonicalOrder(entries, i, mid);
            KeyLessTransitive(KeyOf(entries[i]), KeyOf(entries[mid]), KeyOf(probe));
          }
          lo := mid + 1;
        } else {
          forall i | mid < i < |entries| ensures !Less(entries[i], probe) {
            CanonicalOrder(entries, mid, i);
            if Less(entries[i], probe) {
              KeyLessTransitive(KeyOf(entries[mid]), KeyOf(entries[i]), KeyOf(probe));
            }
          }
          hi := mid;
        }
      }
      p := lo;
    }

    method Set(kind: EvidenceKind, subject: string, generation: u64, limits: Limits) returns (ok: bool)
      requires Canonical(entries)
      modifies this
      ensures Canonical(entries)
      ensures ok <==> Fits(old(entries), EvidenceEntry(kind, subject, generation), limits)
      ensures entries == if ok then Put(old(entries), EvidenceEntry(kind, subject, generation)) else old(entries)
    {
      if |subject| > limits.maxIdLength + 32 { return false; }
      var entry := EvidenceEntry(kind, subject, generation);
      var p := LowerBound(entry);
      PutAtSplit(entries, entry, p);
      FindAtSplit(entries, entry, p);
      PutCanonical(entries, entry);
      if p < |entries| && entries[p].kind == kind && entries[p].subject == subject {
        entries := entries[p := entry];
        return true;
      }
      if |entries| >= limits.maxDependenciesPerPath { return false; }
      entries := entries[..p] + [entry] + entries[p..];
      return true;
    }

    method Lookup(kind: EvidenceKind, subject: string) returns (r: Option<u64>)
      requires Canonical(entries)
      ensures r == Find(entries, (kind, subject))
    {
      var probe := EvidenceEntry(kind, subject, 0);
      var p := LowerBound(probe);
      FindAtSplit(entries, probe, p);
      if p == |entries| || entries[p].kind != kind || entries[p].subject != subject { return None; }
      return Some(entries[p].generation);
    }
  }

  // ---- diff_evidence -------------------------------------------------------

  datatype Delta = Delta(key: Key, before: Option<u64>, after: Option<u64>)

  /** The deltas of the first entries still to be merged, and how many entries of each side they consume. */
  function MergeStep(b: seq<EvidenceEntry>, a: seq<EvidenceEntry>): (seq<Delta>, nat, nat)
    requires b != [] || a != []
  {
    if b != [] && a != [] && KeyOf(b[0]) == KeyOf(a[0]) then
      if b[0].generation == a[0].generation then ([], 1, 1)
      else ([Delta(KeyOf(b[0]), Some(b[0].generation), Some(a[0].generation))], 1, 1)
    else if a == [] || (b != [] && Less(b[0], a[0])) then
      ([Delta(KeyOf(b[0]), Some(b[0].generation), None)], 1, 0)
    else
      ([Delta(KeyOf(a[0]), None, Some(a[0].generation))], 0, 1)
  }

  function MergeDiff(b: seq<EvidenceEntry>, a: seq<EvidenceEntry>): seq<Delta>
    decreases |b| + |a|
  {
    if b == [] && a == [] then []
    else
      var (ds, i, j) := MergeStep(b, a);
      ds + MergeDiff(b[i..], a[j..])
  }

  lemma MergeAt(before: seq<EvidenceEntry>, after: seq<EvidenceEntry>, i: nat, j: nat, done: seq<Delta>)
    requires i <= |before| && j <= |after| && (i < |before| || j < |after|)
    ensures var (ds, di, dj) := MergeStep(before[i..], after[j..]);
            && i + di <= |before| && j + dj <= |after|
            && done + MergeDiff(before[i..], after[j..]) == (done + ds) + MergeDiff(before[i + di..], after[j + dj..])
  {
    var (ds, di, dj) := MergeStep(before[i..], after[j..]);
    assert before[i..][di..] == before[i + di..] && after[j..][dj..] == after[j + dj..];
    var rest := MergeDiff(before[i + di..], after[j + dj..]);
    assert done + (ds + rest) == (done + ds) + rest;
  }

  lemma MergeEnd()
    ensures MergeDiff([], []) == []
  {
  }

  method DiffEvidence(before: seq<EvidenceEntry>, after: seq<EvidenceEntry>) returns (deltas: seq<Delta>)
    ensures deltas == MergeDiff(before, after)
  {
    hide MergeDiff, Less;
    assert MergeDiff([], []) == [] by { MergeEnd(); }
    deltas := [];
    var i, j := 0, 0;
    assert before[0..] == before && after[0..] == after;
    while i < |before| || j < |after|
      invariant 0 <= i <= |before| && 0 <= j <= |after|
      invariant deltas + MergeDiff(before[i..], after[j..]) == MergeDiff(before, after)
      decreases |before| - i + |after| - j
    {
      MergeAt(before, after, i, j, deltas);
      if i < |before| && j < |after| && before[i].kind == after[j].kind && before[i].subject == after[j].subject {
        if before[i].generation != after[j].generation {
          deltas := deltas + [Delta(KeyOf(before[i]), Some(before[i].generation), Some(after[j].generation))];
        } else {
          assert deltas + [] == deltas;
        }
        i, j := i + 1, j + 1;
      } else if j >= |after| || (i < |before| && Less(before[i], after[j])) {
        deltas := deltas + [Delta(KeyOf(before[i]), Some(before[i].generation), None)];
        i := i + 1;
      } else {
        deltas := deltas + [Delta(KeyOf(after[j]), None, Some(after[j].generation))];
        j := j + 1;
      }
    }
  }

  predicate DeltasSorted(ds: seq<Delta>) {
    forall i, j :: 0 <= i < j < |ds| ==> KeyLess(ds[i].key, ds[j].key)
  }

  predicate Above(es: seq<EvidenceEntry>, k: Key) {
    forall e :: e in es ==> KeyLess(k, KeyOf(e))
  }

  /** One merge step settles its key: both lookups are on the table, and everything left lies above it. */
  lemma MergeStepSettles(b: seq<EvidenceEntry>, a: seq<EvidenceEntry>, key: Key)
    requires Canonical(b) && Canonical(a) && (b != [] || a != [])
    requires var first := b != [] && (a == [] || KeyOf(b[0]) == KeyOf(a[0]) || Less(b[0], a[0]));
             key == if first then KeyOf(b[0]) else KeyOf(a[0])
    ensures var (ds, i, j) := MergeStep(b, a);
            && Canonical(b[i..]) && Canonical(a[j..])
            && Above(b[i..], key) && Above(a[j..], key)
            && Find(b[i..], key) == None && Find(a[j..], key) == None
            && (forall k :: k != key ==> Find(b[i..], k) == Find(b, k) && Find(a[j..], k) == Find(a, k))
            && ds == if Find(b, key) == Find(a, key) then [] else [Delta(key, Find(b, key), Find(a, key))]
  {
    if b != [] { DropLeast(b); CanonicalTail(b); }
    if a != [] { DropLeast(a); CanonicalTail(a); }
    if b != [] && a != [] { KeyLessTotal(KeyOf(b[0]), KeyOf(a[0])); }
    var (_, i, j) := MergeStep(b, a);
    if i == 0 {
      AbsentBelow(b, key);
      AboveHead(b, key);
    }
    if j == 0 {
      AbsentBelow(a, key);
      AboveHead(a, key);
    }
  }

  lemma AboveHead(es: seq<EvidenceEntry>, k: Key)
    requires Canonical(es) && (es != [] ==> KeyLess(k, KeyOf(es[0])))
    ensures Above(es, k)
  {
    if es != [] {
      CanonicalTail(es);
      forall e | e in es ensures KeyLess(k, KeyOf(e)) {
        if e != es[0] {
          assert e in es[1..];
          KeyLessTransitive(k, KeyOf(es[0]), KeyOf(e));
        }
      }
    }
  }

  /** A delta is reported exactly for the keys whose generation differs, with both generations, in key order. */
  lemma {:induction false} DiffMeaning(b: seq<EvidenceEntry>, a: seq<EvidenceEntry>)
    requires Canonical(b) && Canonical(a)
    ensures DeltasSorted(MergeDiff(b, a))
    ensures forall d :: d in MergeDiff(b, a) <==>
              d.before == Find(b, d.key) && d.after == Find(a, d.key) && d.before != d.after
    ensures forall k, d :: Above(b, k) && Above(a, k) && d in MergeDiff(b, a) ==> KeyLess(k, d.key)
    decreases |b| + |a|
  {
    if b != [] || a != [] {
      var (ds, i, j) := MergeStep(b, a);
      var first := b != [] && (a == [] || KeyOf(b[0]) == KeyOf(a[0]) || Less(b[0], a[0]));
      var key := if first then KeyOf(b[0]) else KeyOf(a[0]);
      MergeStepSettles(b, a, key);
      DiffMeaning(b[i..], a[j..]);
      var rest := MergeDiff(b[i..], a[j..]);
      assert forall d :: d in rest ==> KeyLess(key, d.key);
      KeyLessTotal(key, key);
      assert MergeDiff(b, a) == ds + rest;
      forall d ensures d in ds + rest
        <==> d.before == Find(b, d.key) && d.after == Find(a, d.key) && d.before != d.after {
        if d.key != key {
          assert d in ds + rest <==> d in rest;
        }
      }
      forall k, d | Above(b, k) && Above(a, k) && d in ds + rest ensures KeyLess(k, d.key) {
        FindSome(b, d.key);
        FindSome(a, d.key);
      }
    }
  }

  /** What a reader of the deltas does with them: set the keys that have a new generation, drop the others. */
  function ApplyDeltas(es: seq<EvidenceEntry>, ds: seq<Delta>): seq<EvidenceEntry>
    decreases |ds|
  {
    if ds == [] then es
    else
      var k := ds[0].key;
      var es' := if ds[0].after.Some? then Put(es, EvidenceEntry(k.0, k.1, ds[0].after.value)) else Remove(es, k);
      ApplyDeltas(es', ds[1..])
  }

  function Remove(es: seq<EvidenceEntry>, key: Key): seq<EvidenceEntry> {
    if es == [] then [] else if KeyOf(es[0]) == key then es[1..] else [es[0]] + Remove(es[1..], key)
  }

  lemma {:induction false} RemoveFind(es: seq<EvidenceEntry>, key: Key, k: Key)
    requires Canonical(es)
    ensures Canonical(Remove(es, key))
    ensures Find(Remove(es, key), k) == if k == key then None else Find(es, k)
    ensures forall e :: e in Remove(es, key) ==> e in es
  {
    if es != [] {
      DropLeast(es);
      CanonicalTail(es);
      RemoveFind(es[1..], key, k);
      if KeyOf(es[0]) != key {
        var r := Remove(es[1..], key);
        assert r != [] ==> r[0] in r;
        PrependCanonical(es[0], r);
        assert ([es[0]] + r)[1..] == r;
      }
    }
  }

  function DeltaFor(ds: seq<Delta>, k: Key): Option<Delta> {
    if ds == [] then None else if ds[0].key == k then Some(ds[0]) else DeltaFor(ds[1..], k)
  }

  lemma {:induction false} ApplyDeltasFind(es: seq<EvidenceEntry>, ds: seq<Delta>, k: Key)
    requires Canonical(es) && DeltasSorted(ds)
    ensures Canonical(ApplyDeltas(es, ds))
    ensures Find(ApplyDeltas(es, ds), k) == if DeltaFor(ds, k).Some? then DeltaFor(ds, k).value.after else Find(es, k)
    decreases |ds|
  {
    if ds != [] {
      var d := ds[0];
      var es' := if d.after.Some? then Put(es, EvidenceEntry(d.key.0, d.key.1, d.after.value)) else Remove(es, d.key);
      if d.after.Some? {
        PutCanonical(es, EvidenceEntry(d.key.0, d.key.1, d.after.value));
        PutFind(es, EvidenceEntry(d.key.0, d.key.1, d.after.value), k);
      } else {
        RemoveFind(es, d.key, k);
      }
      ApplyDeltasFind(es', ds[1..], k);
      if d.key == k && DeltaFor(ds[1..], k).Some? {
        DeltaForIn(ds[1..], k);
        var j :| 0 <= j < |ds[1..]| && ds[1..][j] == DeltaFor(ds[1..], k).value;
        assert KeyLess(ds[0].key, ds[j + 1].key);
        KeyLessTotal(k, k);
      }
    }
  }

  lemma {:induction false} DeltaForIn(ds: seq<Delta>, k: Key)
    ensures DeltaFor(ds, k).Some? ==> DeltaFor(ds, k).value in ds && DeltaFor(ds, k).value.key == k
    ensures DeltaFor(ds, k).None? ==> forall d :: d in ds ==> d.key != k
  {
    if ds != [] {
      DeltaForIn(ds[1..], k);
      assert ds == [ds[0]] + ds[1..];
    }
  }

  /** The diff is empty exactly for equal vectors, and applying it to the first vector gives the second. */
  lemma DiffIsExact(b: seq<EvidenceEntry>, a: seq<EvidenceEntry>)
    requires Canonical(b) && Canonical(a)
    ensures MergeDiff(b, a) == [] <==> b == a
    ensures ApplyDeltas(b, MergeDiff(b, a)) == a
  {
    var ds := MergeDiff(b, a);
    DiffMeaning(b, a);
    ApplyDeltasFind(b, ds, (Topology, ""));
    forall k ensures Find(ApplyDeltas(b, ds), k) == Find(a, k) {
      ApplyDeltasFind(b, ds, k);
      DeltaForIn(ds, k);
      if Find(b, k) != Find(a, k) {
        assert Delta(k, Find(b, k), Find(a, k)) in ds;
      }
    }
    CanonicalUnique(ApplyDeltas(b, ds), a);
    assert ds != [] ==> ds[0] in ds;
  }
}
