/** Facts about sequences that the induction proofs on "the last element" share. */
module Seqs {
  import opened Wrappers

  /** Some element of `s` satisfies `P` iff one of `init`, all but the last, does, or the last does. */
  lemma ExistsSnoc<T>(s: seq<T>, init: seq<T>, P: T -> bool)
    requires |s| > 0 && init == s[..|s| - 1]
    ensures (exists k :: 0 <= k < |s| && P(s[k]))
        <==> (exists k :: 0 <= k < |init| && P(init[k])) || P(s[|s| - 1])
  {
    if exists k :: 0 <= k < |init| && P(init[k]) {
      var k :| 0 <= k < |init| && P(init[k]);
      assert s[k] == init[k];
    }
    if exists k :: 0 <= k < |s| && P(s[k]) {
      var k :| 0 <= k < |s| && P(s[k]);
      if k < |init| {
        assert init[k] == s[k];
      }
    }
  }

  lemma ConcatAssoc<T>(a: seq<T>, b: seq<T>, c: seq<T>)
    ensures a + b + c == a + (b + c)
  {
  }

  /** Dropping past all of `a` and `j` more elements of `b` leaves the rest of `b`. */
  lemma DropConcat<T>(a: seq<T>, b: seq<T>, j: nat)
    requires j <= |b|
    ensures (a + b)[|a| + j..] == b[j..]
  {
    assert forall k :: 0 <= k < |b| - j ==> (a + b)[|a| + j..][k] == b[j..][k];
  }

  /** What one element contributes when mapped by a partial function: the value, or nothing. */
  function Kept<A, B>(f: A -> Option<B>, x: A): seq<B> {
    match f(x)
    case Some(y) => [y]
    case None => []
  }

  /** The values of the elements `f` maps to something, in order. */
  function Collect<A, B>(f: A -> Option<B>, s: seq<A>): seq<B> {
    if s == [] then [] else Collect(f, s[..|s| - 1]) + Kept(f, s[|s| - 1])
  }

  lemma CollectSnoc<A, B>(f: A -> Option<B>, s: seq<A>, x: A)
    ensures Collect(f, s + [x]) == Collect(f, s) + Kept(f, x)
  {
    var t := s + [x];
    assert t[..|t| - 1] == s;
  }

  lemma {:induction false} CollectAppend<A, B>(f: A -> Option<B>, a: seq<A>, b: seq<A>)
    ensures Collect(f, a + b) == Collect(f, a) + Collect(f, b)
    decreases |b|
  {
    if b == [] {
      assert a + b == a;
    } else {
      var b', last := b[..|b| - 1], b[|b| - 1];
      CollectAppend(f, a, b');
      assert b == b' + [last];
      assert a + b == (a + b') + [last];
      CollectSnoc(f, a + b', last);
      CollectSnoc(f, b', last);
      ConcatAssoc(Collect(f, a), Collect(f, b'), Kept(f, last));
    }
  }

  lemma {:induction false} CollectMembers<A, B>(f: A -> Option<B>, s: seq<A>, y: B)
    ensures |Collect(f, s)| <= |s|
    ensures y in Collect(f, s) <==> exists i :: 0 <= i < |s| && f(s[i]) == Some(y)
    decreases |s|
  {
    if s != [] {
      var init := s[..|s| - 1];
      CollectMembers(f, init, y);
      ExistsSnoc(s, init, x => f(x) == Some(y));
    }
  }

  /** A slice that lies inside the left operand of a concatenation. */
  lemma SliceLeft<T>(a: seq<T>, b: seq<T>, lo: nat, hi: nat)
    requires lo <= hi <= |a|
    ensures (a + b)[lo..hi] == a[lo..hi]
  {
  }

  /** The right operand of a concatenation, sliced back out. */
  lemma SliceRight<T>(a: seq<T>, b: seq<T>)
    ensures (a + b)[|a|..|a| + |b|] == b
  {
  }
}
