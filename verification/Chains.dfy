/** What the chain of underlying paths resolves to, for every chain. */
module Chains {
  import opened Base
  import opened Model
  import opened RuntimeState
  import opened Views
  import opened Evaluation
  import opened Publication
  import opened Scenarios

  /** The underlying path of a path; none for a leaf and for a path without a record. */
  function Next(records: map<string, Record>, x: string): Option<string> {
    if x in records && records[x].definition.underlying.Some? then Some(records[x].definition.underlying.value.path)
    else None
  }

  /** The first paths of the chain, at most so many. */
  function Trail(records: map<string, Record>, x: string, max: nat): seq<string>
    decreases max
  {
    if max == 0 then []
    else [x] + match Next(records, x) case None => [] case Some(y) => Trail(records, y, max - 1)
  }

  /** The trail holds the whole chain. */
  predicate Ends(records: map<string, Record>, trail: seq<string>) {
    trail != [] && Next(records, trail[|trail| - 1]).None?
  }

  predicate NoRepeat(trail: seq<string>) { forall i, j :: 0 <= i < j < |trail| ==> trail[i] != trail[j] }

  predicate Revisits(id: string, trail: seq<string>) { id in trail || !NoRepeat(trail) }

  /** The last path of the trail that is on record; only the last of all can be absent. */
  function LastOnRecord(records: map<string, Record>, trail: seq<string>): Option<string> {
    if trail == [] then None
    else if trail[|trail| - 1] in records then Some(trail[|trail| - 1])
    else if |trail| >= 2 then Some(trail[|trail| - 2])
    else None
  }

  function ChainOf(records: map<string, Record>, x: Option<string>, otherwise: Chain): Chain {
    if x.Some? && x.value in records then Chain(true, records[x.value].generation, records[x.value].outcome)
    else otherwise
  }

  lemma {:induction false} TrailOnRecord(records: map<string, Record>, x: string, max: nat)
    ensures var t := Trail(records, x, max);
            && |t| <= max && (max > 0 ==> t != [] && t[0] == x)
            && (forall i :: 0 <= i < |t| - 1 ==> t[i] in records && Next(records, t[i]) == Some(t[i + 1]))
            && (!Ends(records, t) ==> |t| == max)
    decreases max
  {
    if max > 0 && Next(records, x).Some? { TrailOnRecord(records, Next(records, x).value, max - 1); }
  }

  lemma {:induction false} FollowMeaning(
      records: map<string, Record>, visited: set<string>, cursor: string, depth: nat, max: nat, last: Chain)
    requires depth <= max + 1
    ensures var t := Trail(records, cursor, max + 1 - depth);
            var r := Follow(records, visited, cursor, depth, max, last);
            && (r.Some? <==> Ends(records, t) && NoRepeat(t) && forall x :: x in t ==> x !in visited)
            && (r.Some? ==> r.value == ChainOf(records, LastOnRecord(records, t), last))
    decreases max + 1 - depth
  {
    hide NoRepeat, LastOnRecord, Ends;
    var t := Trail(records, cursor, max + 1 - depth);
    TrailOnRecord(records, cursor, max + 1 - depth);
    if depth > max {
      Empty(records);
    } else if cursor in visited {
    } else if Next(records, cursor).None? {
      assert t == [cursor];
      Singleton(records, cursor);
    } else {
      var y := Next(records, cursor).value;
      var here := Chain(true, records[cursor].generation, records[cursor].outcome);
      var rest := Trail(records, y, max - depth);
      FollowMeaning(records, visited + {cursor}, y, depth + 1, max, here);
      TrailOnRecord(records, y, max - depth);
      LastIsOnRecord(records, y, max - depth);
      if depth < max {
        PrependedTrail(records, cursor, rest, visited);
      } else {
        assert t == [cursor];
        Singleton(records, cursor);
      }
    }
  }

  lemma Empty(records: map<string, Record>)
    ensures !Ends(records, [])
  {
  }

  lemma LastIsOnRecord(records: map<string, Record>, x: string, max: nat)
    ensures var last := LastOnRecord(records, Trail(records, x, max)); last.Some? ==> last.value in records
  {
    TrailOnRecord(records, x, max);
  }

  lemma Singleton(records: map<string, Record>, x: string)
    ensures NoRepeat([x]) && (Ends(records, [x]) <==> Next(records, x).None?)
    ensures LastOnRecord(records, [x]) == if x in records then Some(x) else None
  {
  }

  lemma PrependedRepeat(cursor: string, rest: seq<string>)
    ensures NoRepeat([cursor] + rest) <==> NoRepeat(rest) && cursor !in rest
  {
    var t := [cursor] + rest;
    if NoRepeat(t) {
      forall i, j | 0 <= i < j < |rest| ensures rest[i] != rest[j] { assert t[i + 1] != t[j + 1]; }
      forall x | x in rest ensures x != cursor {
        var i :| 0 <= i < |rest| && rest[i] == x;
        assert t[0] != t[i + 1];
      }
    }
    if NoRepeat(rest) && cursor !in rest {
      forall i, j | 0 <= i < j < |t| ensures t[i] != t[j] {
        assert t[j] == rest[j - 1] && (i > 0 ==> t[i] == rest[i - 1]);
      }
    }
  }

  lemma PrependedTrail(records: map<string, Record>, cursor: string, rest: seq<string>, visited: set<string>)
    requires cursor !in visited && rest != []
    ensures var t := [cursor] + rest;
            && (Ends(records, t) <==> Ends(records, rest))
            && (NoRepeat(t) && (forall x :: x in t ==> x !in visited)
                <==> NoRepeat(rest) && forall x :: x in rest ==> x !in visited + {cursor})
            && (LastOnRecord(records, rest).Some? ==> LastOnRecord(records, t) == LastOnRecord(records, rest))
            && (LastOnRecord(records, rest).None? ==> LastOnRecord(records, t) == Some(cursor))
  {
    hide Next, NoRepeat;
    var t := [cursor] + rest;
    PrependedRepeat(cursor, rest);
    assert forall x :: x in t <==> x == cursor || x in rest;
  }

  /**
   * Resolution fails exactly when the chain comes back to the path or to itself, or is longer than the nesting limit.
   * Otherwise it reports the last record of the chain; that is the record the path names exactly when that one is
   * on record and is a leaf or rests on an absent path.
   */
  lemma ChainResolvesToItsLastRecord(rt: Runtime, p: PathDefinition, limits: Limits)
    requires p.underlying.Some?
    ensures var named := p.underlying.value.path;
            var trail := Trail(rt.records, named, limits.maxNestingDepth);
            var r := ResolveUnderlying(rt, p, limits);
            && (r.None? <==> Revisits(p.id, trail) || !Ends(rt.records, trail))
            && (!Ends(rt.records, trail) ==> |trail| == limits.maxNestingDepth)
            && (r.Some? ==> r.value == ChainOf(rt.records, LastOnRecord(rt.records, trail), NO_CHAIN))
            && (r.Some? ==>
                  (LastOnRecord(rt.records, trail) == Some(named) <==>
                   named in rt.records
                     && (Next(rt.records, named).None? || Next(rt.records, named).value !in rt.records)))
  {
    hide Follow;
    var named := p.underlying.value.path;
    var trail := Trail(rt.records, named, limits.maxNestingDepth);
    FollowMeaning(rt.records, {p.id}, named, 1, limits.maxNestingDepth, NO_CHAIN);
    TrailOnRecord(rt.records, named, limits.maxNestingDepth);
    if ResolveUnderlying(rt, p, limits).Some? { NamedIsLast(rt.records, named, limits.maxNestingDepth); }
  }

  lemma NamedIsLast(records: map<string, Record>, named: string, max: nat)
    requires Ends(records, Trail(records, named, max)) && NoRepeat(Trail(records, named, max))
    ensures LastOnRecord(records, Trail(records, named, max)) == Some(named) <==>
            named in records && (Next(records, named).None? || Next(records, named).value !in records)
  {
    var t := Trail(records, named, max);
    TrailOnRecord(records, named, max);
    if Next(records, named).Some? {
      var y := Next(records, named).value;
      TrailOnRecord(records, y, max - 1);
      assert t[1] == y;
      if y !in records { assert Trail(records, y, max - 1) == [y]; }
    }
  }

  // ---- a concrete chain ----------------------------------------------------------------------------

  /** "v" is published as rejected and "u", which rests on it, as authorized. */
  function TwoLevels(c: Config): Runtime {
    var lower := Commit(WithSet(), c, CommitFor(SomePath("v", ""), LinkDown, AnyRequest())).0;
    Commit(lower, c, CommitFor(SomePath("u", "v"), AuthorizedOutcome, AnyRequest())).0
  }

  /** A path over "u" is judged by the outcome of "v". */
  lemma DeeperChainIsReported(c: Config, p: PathDefinition)
    requires c.limits == SomeLimits() && p == SomePath("p", "u")
    ensures var rt := TwoLevels(c);
            && "u" in rt.records && rt.records["u"].outcome == AuthorizedOutcome && rt.records["u"].generation == 1
            && ResolveUnderlying(rt, p, c.limits) == Some(Chain(true, 1, LinkDown))
  {
    hide Commit, DecisionFor, CommitFor, SomeSet, StateForOutcome, SomePath, ResolveUnderlying, NoScalarWatermark;
    var lower := Commit(WithSet(), c, CommitFor(SomePath("v", ""), LinkDown, AnyRequest())).0;
    PathFields();
    LowerLevel(c);
    DecisionCommits(lower, c, SomePath("u", "v"), AuthorizedOutcome, AnyRequest());
    TwoLevelChain(TwoLevels(c), p, c.limits);
  }

  lemma LowerLevel(c: Config)
    requires c.limits == SomeLimits()
    ensures var lower := Commit(WithSet(), c, CommitFor(SomePath("v", ""), LinkDown, AnyRequest())).0;
            && lower.records.Keys == {"v"} && NoScalarWatermark(lower)
            && Written(lower.records["v"], SomePath("v", ""), LinkDown, AnyRequest(), 1)
  {
    hide Commit, DecisionFor, CommitFor, SomeSet, StateForOutcome, SomePath, Written;
    PathFields();
    DecisionCommits(WithSet(), c, SomePath("v", ""), LinkDown, AnyRequest());
  }

  lemma PathFields()
    ensures SomePath("v", "").id == "v" && SomePath("u", "v").id == "u" && SomePath("p", "u").id == "p"
    ensures SomePath("v", "").underlying.None? && SomePath("u", "v").underlying == Some(UnderlyingRef("v", 1, 1))
    ensures SomePath("p", "u").underlying == Some(UnderlyingRef("u", 1, 1))
  {
  }

  lemma TwoLevelChain(rt: Runtime, p: PathDefinition, limits: Limits)
    requires limits == SomeLimits() && p == SomePath("p", "u") && "u" in rt.records && "v" in rt.records
    requires rt.records["u"].definition == SomePath("u", "v") && rt.records["v"].definition == SomePath("v", "")
    ensures var v := rt.records["v"]; ResolveUnderlying(rt, p, limits) == Some(Chain(true, v.generation, v.outcome))
  {
    var here := Chain(true, rt.records["u"].generation, rt.records["u"].outcome);
    assert Follow(rt.records, {"p", "u"}, "v", 2, 4, here) ==
      Some(Chain(true, rt.records["v"].generation, rt.records["v"].outcome));
    assert {"p"} + {"u"} == {"p", "u"};
  }
}
