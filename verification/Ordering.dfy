/** The order in which the keys of a std::map and the members of a std::set are walked. */
module Ordering {
  import opened Base

  predicate IsLeast(m: string, s: set<string>) { m in s && forall x :: x in s ==> x == m || StringLess(m, x) }

  lemma {:induction false} LeastExists(s: set<string>)
    requires s != {}
    ensures exists m :: IsLeast(m, s)
    decreases |s|
  {
    hide StringLess;
    var x :| x in s;
    if s == {x} {
      assert IsLeast(x, s);
    } else {
      var rest := s - {x};
      assert s == rest + {x};
      LeastExists(rest);
      var m :| IsLeast(m, rest);
      StringLessTotal(m, x);
      if StringLess(m, x) {
        assert IsLeast(m, s);
      } else {
        forall y | y in s && y != x ensures StringLess(x, y) {
          if y != m { StringLessTransitive(x, m, y); }
        }
        assert IsLeast(x, s);
      }
    }
  }

  lemma LeastIsUnique(s: set<string>)
    ensures forall m, n :: IsLeast(m, s) && IsLeast(n, s) ==> m == n
  {
    hide StringLess;
    forall m, n | IsLeast(m, s) && IsLeast(n, s) ensures m == n { StringLessTotal(m, n); }
  }

  function Least(s: set<string>): (m: string)
    requires s != {}
    ensures IsLeast(m, s)
  {
    LeastExists(s);
    LeastIsUnique(s);
    var m :| IsLeast(m, s);
    m
  }

  /** The members in ascending order. */
  function Ascending(s: set<string>): (r: seq<string>)
    ensures |r| == |s| && forall x :: x in r <==> x in s
    ensures forall i, j :: 0 <= i < j < |r| ==> StringLess(r[i], r[j])
    decreases |s|
  {
    if s == {} then [] else [Least(s)] + Ascending(s - {Least(s)})
  }

  lemma AscendingDistinct(s: set<string>)
    ensures forall i, j :: 0 <= i < j < |Ascending(s)| ==> Ascending(s)[i] != Ascending(s)[j]
  {
    hide Ascending, StringLess;
    forall i, j | 0 <= i < j < |Ascending(s)| ensures Ascending(s)[i] != Ascending(s)[j] {
      StringLessTotal(Ascending(s)[i], Ascending(s)[j]);
    }
  }

  lemma AscendingFrom(s: set<string>, m: string)
    requires IsLeast(m, s)
    ensures Ascending(s) == [m] + Ascending(s - {m})
  {
    hide StringLess;
    LeastIsUnique(s);
  }

  lemma AscendingOne(x: string)
    ensures Ascending({x}) == [x]
  {
    AscendingFrom({x}, x);
    assert {x} - {x} == {};
  }

  lemma LeastOfMore(s: set<string>, m: string, x: string)
    requires IsLeast(m, s) && forall y :: y in s ==> StringLess(y, x)
    ensures m in s && m != x && IsLeast(m, s + {x})
  {
    hide StringLess;
    StringLessTotal(m, x);
  }

  lemma Joined(whole: seq<string>, part: seq<string>, rest: seq<string>, m: string, x: string)
    requires part == [m] + rest && whole == [m] + (rest + [x])
    ensures whole == part + [x]
  {
  }

  /** A member above all the others comes last. */
  lemma {:induction false} AscendingSnoc(s: set<string>, x: string)
    requires forall y :: y in s ==> StringLess(y, x)
    ensures Ascending(s + {x}) == Ascending(s) + [x]
    decreases |s|
  {
    hide StringLess, Ascending, IsLeast;
    if s == {} {
      assert s + {x} == {x} && Ascending(s) == [];
      AscendingOne(x);
    } else {
      var m := Least(s);
      LeastOfMore(s, m, x);
      AscendingFrom(s, m);
      AscendingFrom(s + {x}, m);
      assert s + {x} - {m} == (s - {m}) + {x};
      AscendingSnoc(s - {m}, x);
      Joined(Ascending(s + {x}), Ascending(s), Ascending(s - {m}), m, x);
    }
  }
}
