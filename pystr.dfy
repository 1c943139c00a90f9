/**
 * The Python `str` operations that the server code relies on, each with
 * Python's own semantics: `startswith`, `endswith` (also with a tuple of
 * suffixes), `in`, `strip()` and `split()` over Python's whitespace set,
 * `split(c)` / `'c'.join(...)` on one character, `split(sep)` and
 * `replace(sep, '')` on a separator string, and `c * n`.
 */
module PyStr {
  import opened Seqs

  /** `s.startswith(p)` */
  predicate StartsWith(s: string, p: string) {
    |p| <= |s| && s[..|p|] == p
  }

  /** `s.endswith(p)` */
  predicate EndsWith(s: string, p: string) {
    |p| <= |s| && s[|s| - |p|..] == p
  }

  /** `s.endswith((p0, p1, ...))`: some suffix of the tuple matches. */
  predicate EndsWithAny(s: string, ps: seq<string>) {
    |ps| > 0 && (EndsWith(s, ps[0]) || EndsWithAny(s, ps[1..]))
  }

  /** A tuple of suffixes matches exactly when one of its members does. */
  lemma {:induction false} EndsWithAnyIff(s: string, ps: seq<string>)
    ensures EndsWithAny(s, ps) <==> exists i :: 0 <= i < |ps| && EndsWith(s, ps[i])
    decreases |ps|
  {
    if |ps| > 0 {
      EndsWithAnyIff(s, ps[1..]);
      if exists i :: 0 <= i < |ps| && EndsWith(s, ps[i]) {
        var i :| 0 <= i < |ps| && EndsWith(s, ps[i]);
        if i > 0 {
          assert ps[1..][i - 1] == ps[i];
        }
      }
      if exists i :: 0 <= i < |ps| - 1 && EndsWith(s, ps[1..][i]) {
        var i :| 0 <= i < |ps| - 1 && EndsWith(s, ps[1..][i]);
        assert ps[i + 1] == ps[1..][i];
      }
    }
  }

  /** `p in s` */
  predicate Contains(s: string, p: string)
    decreases |s|
  {
    StartsWith(s, p) || (|s| > 0 && Contains(s[1..], p))
  }

  /** `p in s` holds as soon as `p` begins at some index of `s`. */
  lemma {:induction false} ContainsAt(s: string, p: string, k: nat)
    requires k <= |s| && StartsWith(s[k..], p)
    ensures Contains(s, p)
    decreases k
  {
    if k > 0 {
      assert s[1..][k - 1..] == s[k..];
      ContainsAt(s[1..], p, k - 1);
    }
  }

  /** `c.isspace()`: the characters that `str.strip()` and `str.split()` treat as whitespace. */
  predicate IsSpace(c: char) {
    var n := c as int;
    (9 <= n <= 13) || (28 <= n <= 32) || n == 0x85 || n == 0xA0 || n == 0x1680
    || (0x2000 <= n <= 0x200A) || n == 0x2028 || n == 0x2029 || n == 0x202F
    || n == 0x205F || n == 0x3000
  }

  /** `c * n` for a one-character string `c`. */
  function Repeat(c: char, n: nat): (r: string)
    ensures |r| == n
    ensures forall k :: 0 <= k < n ==> r[k] == c
  {
    if n == 0 then "" else [c] + Repeat(c, n - 1)
  }

  /** The number of whitespace characters `strip()` removes from the front. */
  function LeadCount(s: string): (n: nat)
    ensures n <= |s|
    ensures forall k :: 0 <= k < n ==> IsSpace(s[k])
    ensures n < |s| ==> !IsSpace(s[n])
  {
    if s == [] || !IsSpace(s[0]) then 0 else 1 + LeadCount(s[1..])
  }

  /** The number of whitespace characters `strip()` removes from the back. */
  function TrailCount(s: string): (n: nat)
    ensures n <= |s|
    ensures forall k :: |s| - n <= k < |s| ==> IsSpace(s[k])
    ensures n < |s| ==> !IsSpace(s[|s| - 1 - n])
  {
    if s == [] || !IsSpace(s[|s| - 1]) then 0 else 1 + TrailCount(s[..|s| - 1])
  }

  /** `s.strip()`: the middle of `s` between its leading and its trailing whitespace. */
  function Strip(s: string): (r: string)
    ensures r == [] || (!IsSpace(r[0]) && !IsSpace(r[|r| - 1]))
    ensures LeadCount(s) + |r| <= |s| && r == s[LeadCount(s)..LeadCount(s) + |r|]
    ensures forall k :: LeadCount(s) + |r| <= k < |s| ==> IsSpace(s[k])
  {
    var a := LeadCount(s);
    if a == |s| then [] else s[a..|s| - TrailCount(s)]
  }

  /** Stripping twice is stripping once. */
  lemma StripIdempotent(s: string)
    ensures Strip(Strip(s)) == Strip(s)
  {
    var r := Strip(s);
    if r != [] {
      assert LeadCount(r) == 0;
      assert TrailCount(r) == 0;
    }
  }

  /** The length of the run of non-whitespace characters at the front of `s`. */
  function SpanNonSpace(s: string): (n: nat)
    ensures n <= |s|
    ensures forall k :: 0 <= k < n ==> !IsSpace(s[k])
    ensures n < |s| ==> IsSpace(s[n])
  {
    if s == [] || IsSpace(s[0]) then 0 else 1 + SpanNonSpace(s[1..])
  }

  predicate NoSpace(w: string) {
    forall k :: 0 <= k < |w| ==> !IsSpace(w[k])
  }

  /** `s.split()`: the maximal runs of non-whitespace characters, in order. */
  function Words(s: string): (ws: seq<string>)
    ensures forall i :: 0 <= i < |ws| ==> |ws[i]| > 0 && NoSpace(ws[i])
    decreases |s|
  {
    var n := LeadCount(s);
    if n == |s| then []
    else
      var t := s[n..];
      var w := SpanNonSpace(t);
      [t[..w]] + Words(t[w..])
  }

  /** A string has no words exactly when it is all whitespace. */
  lemma WordsEmptyIff(s: string)
    ensures Words(s) == [] <==> forall k :: 0 <= k < |s| ==> IsSpace(s[k])
  {
    var n := LeadCount(s);
    if n < |s| {
      assert !IsSpace(s[n]);
    }
  }

  /** A leading whitespace character does not change the words. */
  lemma WordsSkipSpace(c: char, x: string)
    requires IsSpace(c)
    ensures Words([c] + x) == Words(x)
  {
    var s := [c] + x;
    assert s[1..] == x;
    assert LeadCount(s) == 1 + LeadCount(x);
    assert s[LeadCount(s)..] == x[LeadCount(x)..];
  }

  /** A word followed by whitespace is the first word: `(kw + ' ' + x).split() == [kw] + x.split()`. */
  lemma WordsAfterKeyword(kw: string, c: char, x: string)
    requires |kw| > 0 && NoSpace(kw) && IsSpace(c)
    ensures Words(kw + [c] + x) == [kw] + Words(x)
  {
    var s := kw + [c] + x;
    assert !IsSpace(s[0]);
    assert LeadCount(s) == 0;
    assert s[0..] == s;
    var w := SpanNonSpace(s);
    assert s[|kw|] == c;
    assert w == |kw|;
    assert s[..w] == kw;
    assert s[w..] == [c] + x;
    WordsSkipSpace(c, x);
  }

  /** `s.split(c)` for a one-character separator: never empty, no piece holds `c`. */
  function Split(s: string, c: char): (r: seq<string>)
    ensures |r| > 0
    ensures forall i :: 0 <= i < |r| ==> c !in r[i]
    decreases |s|
  {
    if s == [] then [""]
    else if s[0] == c then [""] + Split(s[1..], c)
    else
      var t := Split(s[1..], c);
      [[s[0]] + t[0]] + t[1..]
  }

  /** `c.join(parts)` */
  function Join(parts: seq<string>, c: char): string {
    if |parts| == 0 then ""
    else if |parts| == 1 then parts[0]
    else parts[0] + [c] + Join(parts[1..], c)
  }

  /** Joining the pieces of a split gives back the string. */
  lemma {:induction false} JoinSplit(s: string, c: char)
    ensures Join(Split(s, c), c) == s
    decreases |s|
  {
    if s == [] {
    } else if s[0] == c {
      JoinSplit(s[1..], c);
      assert s == [c] + s[1..];
    } else {
      var t := Split(s[1..], c);
      JoinSplit(s[1..], c);
      if |t| == 1 {
        assert s == [s[0]] + s[1..];
      } else {
        assert Join(t, c) == t[0] + [c] + Join(t[1..], c);
        assert s == [s[0]] + s[1..];
      }
    }
  }

  /** The first piece of a split is a prefix of the string. */
  lemma {:induction false} SplitFirstIsPrefix(s: string, c: char)
    ensures StartsWith(s, Split(s, c)[0])
    decreases |s|
  {
    if s != [] && s[0] != c {
      SplitFirstIsPrefix(s[1..], c);
      var t := Split(s[1..], c);
      assert s[..|t[0]| + 1] == [s[0]] + s[1..][..|t[0]|];
    }
  }

  /** Splitting `p + x` where `p` holds no separator glues `p` to the first piece of `x`. */
  lemma {:induction false} SplitPrefix(p: string, x: string, c: char)
    requires c !in p
    ensures Split(p + x, c) == [p + Split(x, c)[0]] + Split(x, c)[1..]
    decreases |p|
  {
    if p == [] {
      var t := Split(x, c);
      assert p + x == x;
      assert p + t[0] == t[0];
      assert [t[0]] + t[1..] == t;
    } else {
      assert p[0] != c;
      assert (p + x)[1..] == p[1..] + x;
      assert (p + x)[0] == p[0];
      SplitPrefix(p[1..], x, c);
      assert [p[0]] + (p[1..] + Split(x, c)[0]) == p + Split(x, c)[0];
    }
  }

  /** Splitting a join of separator-free pieces gives back the pieces. */
  lemma {:induction false} SplitJoin(parts: seq<string>, c: char)
    requires |parts| > 0
    requires forall i :: 0 <= i < |parts| ==> c !in parts[i]
    ensures Split(Join(parts, c), c) == parts
  {
    if |parts| == 1 {
      SplitPrefix(parts[0], "", c);
      assert parts[0] + "" == parts[0];
    } else {
      var rest := Join(parts[1..], c);
      SplitJoin(parts[1..], c);
      SplitPrefix(parts[0], [c] + rest, c);
      assert parts[0] + [c] + rest == parts[0] + ([c] + rest);
      assert ([c] + rest)[1..] == rest;
      assert Split([c] + rest, c) == [""] + parts[1..];
      assert parts[0] + "" == parts[0];
    }
  }

  /** `s.split(sep)` for a separator string: leftmost, non-overlapping occurrences. */
  function SplitStr(s: string, sep: string): (r: seq<string>)
    requires |sep| > 0
    ensures |r| > 0
    decreases |s|
  {
    if StartsWith(s, sep) then [""] + SplitStr(s[|sep|..], sep)
    else if s == [] then [""]
    else
      var t := SplitStr(s[1..], sep);
      [[s[0]] + t[0]] + t[1..]
  }

  /** `''.join(parts)` */
  function Concat(parts: seq<string>): string {
    if parts == [] then "" else parts[0] + Concat(parts[1..])
  }

  /** `s.replace(pat, '')`: every leftmost, non-overlapping occurrence of `pat` removed. */
  function RemoveAll(s: string, pat: string): string
    requires |pat| > 0
    decreases |s|
  {
    if StartsWith(s, pat) then RemoveAll(s[|pat|..], pat)
    else if s == [] then ""
    else [s[0]] + RemoveAll(s[1..], pat)
  }

  lemma ConcatCons(x: string, t: seq<string>)
    ensures Concat([x] + t) == x + Concat(t)
  {
    assert ([x] + t)[1..] == t;
  }

  /** Python's identity `s.replace(p, '') == ''.join(s.split(p))`. */
  lemma {:induction false} RemoveAllIsConcatOfSplit(s: string, pat: string)
    requires |pat| > 0
    ensures RemoveAll(s, pat) == Concat(SplitStr(s, pat))
    decreases |s|
  {
    if StartsWith(s, pat) {
      RemoveAllIsConcatOfSplit(s[|pat|..], pat);
      ConcatCons("", SplitStr(s[|pat|..], pat));
    } else if s != [] {
      var t := SplitStr(s[1..], pat);
      RemoveAllIsConcatOfSplit(s[1..], pat);
      assert t == [t[0]] + t[1..];
      ConcatCons(t[0], t[1..]);
      ConcatCons([s[0]] + t[0], t[1..]);
      ConcatAssoc([s[0]], t[0], Concat(t[1..]));
    }
  }

  /** Without an occurrence of the separator, `split` gives one piece and `replace` changes nothing. */
  lemma {:induction false} NoOccurrence(s: string, pat: string)
    requires |pat| > 0 && !Contains(s, pat)
    ensures SplitStr(s, pat) == [s]
    ensures RemoveAll(s, pat) == s
    decreases |s|
  {
    if s != [] {
      NoOccurrence(s[1..], pat);
      assert s == [s[0]] + s[1..];
    }
  }

  /** After a leading separator, the second piece is the first piece of the remainder. */
  lemma SplitStrAfterSeparator(sep: string, x: string)
    requires |sep| > 0
    ensures |SplitStr(sep + x, sep)| >= 2
    ensures SplitStr(sep + x, sep)[1] == SplitStr(x, sep)[0]
  {
    var s := sep + x;
    assert s[..|sep|] == sep;
    assert s[|sep|..] == x;
  }

  /** `p` runs from the start of `s` up to the first occurrence of `sep`, or to the end. */
  predicate FirstPiece(s: string, sep: string, p: string) {
    && StartsWith(s, p)
    && (forall k :: 0 <= k < |p| ==> !StartsWith(s[k..], sep))
    && (|p| < |s| ==> StartsWith(s[|p|..], sep))
  }

  /** A string that does not start with `sep` extends the first piece of its tail by its first character. */
  lemma FirstPieceCons(s: string, sep: string, q: string)
    requires s != [] && !StartsWith(s, sep) && FirstPiece(s[1..], sep, q)
    ensures FirstPiece(s, sep, [s[0]] + q)
  {
    var p := [s[0]] + q;
    forall k | 0 <= k < |p|
      ensures !StartsWith(s[k..], sep)
    {
      if k > 0 {
        assert s[k..] == s[1..][k - 1..];
      } else {
        assert s[0..] == s;
      }
    }
    assert s[..|p|] == [s[0]] + s[1..][..|q|];
    if |p| < |s| {
      assert s[|p|..] == s[1..][|q|..];
    }
  }

  /** The first piece of `s.split(sep)` runs up to the first occurrence of `sep`, or to the end. */
  lemma {:induction false} SplitStrFirst(s: string, sep: string)
    requires |sep| > 0
    ensures FirstPiece(s, sep, SplitStr(s, sep)[0])
    decreases |s|
  {
    if StartsWith(s, sep) {
      assert s[0..] == s;
    } else if s != [] {
      SplitStrFirst(s[1..], sep);
      FirstPieceCons(s, sep, SplitStr(s[1..], sep)[0]);
    }
  }
}
