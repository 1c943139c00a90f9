/**
 * Python's ordering of `str` values (lexicographic by code point; a proper
 * prefix comes first) and `sorted()` of a set of strings, which is the one
 * strictly increasing sequence of its elements.
 */
module StrOrder {

  /** Python's `a < b` on strings. */
  predicate Less(a: string, b: string)
    decreases |a|
  {
    if a == [] then b != []
    else if b == [] then false
    else if a[0] != b[0] then a[0] < b[0]
    else Less(a[1..], b[1..])
  }

  lemma {:induction false} LessIrreflexive(a: string)
    ensures !Less(a, a)
    decreases |a|
  {
    if a != [] {
      LessIrreflexive(a[1..]);
    }
  }

  lemma {:induction false} LessTransitive(a: string, b: string, c: string)
    requires Less(a, b) && Less(b, c)
    ensures Less(a, c)
    decreases |a|
  {
    if a != [] && b != [] && c != [] && a[0] == b[0] && b[0] == c[0] {
      LessTransitive(a[1..], b[1..], c[1..]);
    }
  }

  lemma {:induction false} LessTotal(a: string, b: string)
    ensures a == b || Less(a, b) || Less(b, a)
    decreases |a|
  {
    if a != [] && b != [] && a[0] == b[0] {
      LessTotal(a[1..], b[1..]);
      if a[1..] == b[1..] {
        assert a == [a[0]] + a[1..] && b == [b[0]] + b[1..];
      }
    }
  }

  lemma LessAsymmetric(a: string, b: string)
    requires Less(a, b)
    ensures !Less(b, a)
  {
    if Less(b, a) {
      LessTransitive(a, b, a);
      LessIrreflexive(a);
    }
  }

  predicate IsLeast(m: string, s: set<string>) {
    m in s && forall y :: y in s && y != m ==> Less(m, y)
  }

  lemma {:induction false} LeastExists(s: set<string>)
    requires s != {}
    ensures exists m :: IsLeast(m, s)
    decreases |s|
  {
    var x :| x in s;
    if s - {x} == {} {
      assert s == {x};
      assert IsLeast(x, s);
    } else {
      LeastExists(s - {x});
      var m :| IsLeast(m, s - {x});
      LessTotal(x, m);
      if Less(x, m) {
        forall y | y in s && y != x
          ensures Less(x, y)
        {
          if y != m {
            LessTransitive(x, m, y);
          }
        }
        assert IsLeast(x, s);
      } else {
        assert IsLeast(m, s);
      }
    }
  }

  lemma LeastUnique(m: string, n: string, s: set<string>)
    requires IsLeast(m, s) && IsLeast(n, s)
    ensures m == n
  {
    if m != n {
      LessAsymmetric(m, n);
    }
  }

  /** The smallest string of a non-empty set. */
  ghost function Least(s: set<string>): (m: string)
    requires s != {}
    ensures IsLeast(m, s)
  {
    LeastExists(s);
    var m :| IsLeast(m, s);
    m
  }

  predicate StrictlySorted(r: seq<string>) {
    forall i, j :: 0 <= i < j < |r| ==> Less(r[i], r[j])
  }

  /** `sorted(s)` for a set `s` of strings. */
  ghost function SortedOf(s: set<string>): (r: seq<string>)
    ensures StrictlySorted(r)
    ensures |r| == |s|
    ensures forall x :: x in r <==> x in s
    decreases |s|
  {
    if s == {} then []
    else
      var m := Least(s);
      var t := SortedOf(s - {m});
      assert forall j :: 0 <= j < |t| ==> t[j] in s - {m};
      [m] + t
  }

  /** A strictly increasing sequence holding exactly the elements of `s` is `sorted(s)`. */
  lemma {:induction false} SortedOfUnique(r: seq<string>, s: set<string>)
    requires StrictlySorted(r)
    requires forall x :: x in r <==> x in s
    ensures r == SortedOf(s)
    decreases |r|
  {
    if r == [] {
      assert s == {};
    } else {
      var m := r[0];
      assert m in s;
      forall y | y in s && y != m
        ensures Less(m, y)
      {
        var j :| 0 <= j < |r| && r[j] == y;
        assert j != 0;
      }
      LeastUnique(m, Least(s), s);
      var t := r[1..];
      forall x
        ensures x in t <==> x in s - {m}
      {
        if x in t {
          var j :| 0 <= j < |t| && t[j] == x;
          assert r[j + 1] == x;
          LessIrreflexive(m);
        }
        if x in s - {m} {
          var j :| 0 <= j < |r| && r[j] == x;
          assert j != 0;
          assert t[j - 1] == x;
        }
      }
      SortedOfUnique(t, s - {m});
    }
  }

  /** Taking out the least element `m` of `rest` moves it to the end of the sorted prefix `done`. */
  lemma SortedOfStep(done: seq<string>, rest: set<string>, m: string, s: set<string>)
    requires IsLeast(m, rest)
    requires done + SortedOf(rest) == SortedOf(s)
    ensures (done + [m]) + SortedOf(rest - {m}) == SortedOf(s)
    ensures |rest - {m}| < |rest|
  {
    LeastUnique(m, Least(rest), rest);
    assert SortedOf(rest) == [m] + SortedOf(rest - {m});
  }

  /** `sorted(s)`, computed by repeatedly taking the least remaining element. */
  method SortSet(s: set<string>) returns (r: seq<string>)
    ensures r == SortedOf(s)
  {
    var rest := s;
    r := [];
    while rest != {}
      invariant rest <= s
      invariant r + SortedOf(rest) == SortedOf(s)
      decreases |rest|
    {
      LeastExists(rest);
      var m :| IsLeast(m, rest);
      SortedOfStep(r, rest, m, s);
      r := r + [m];
      rest := rest - {m};
    }
  }
}
