/**
 * The order of the Markdown files in the report:
 * `sorted(markdown_files, key=lambda x: (0 if x['path'] == 'README.md' else 1, x['path']))`.
 *
 * Python's `sorted` is stable, so `SortMarkdown` is defined as a stable
 * insertion sort on that key and proved sorted, a permutation of its input
 * and stable (files with the same path keep their relative order).
 */
module MarkdownOrder {
  import opened StrOrder
  import opened Digest
  import opened Seqs

  /** The first component of the sort key. */
  function Rank(path: string): nat {
    if path == "README.md" then 0 else 1
  }

  /** The sort key of `p` is smaller than that of `q`. The key depends on the path alone. */
  predicate Before(p: string, q: string) {
    Rank(p) < Rank(q) || (Rank(p) == Rank(q) && Less(p, q))
  }

  lemma BeforeIrreflexive(p: string)
    ensures !Before(p, p)
  {
    LessIrreflexive(p);
  }

  lemma BeforeTransitive(p: string, q: string, r: string)
    requires Before(p, q) && Before(q, r)
    ensures Before(p, r)
  {
    if Rank(p) == Rank(q) && Rank(q) == Rank(r) {
      LessTransitive(p, q, r);
    }
  }

  lemma BeforeTotal(p: string, q: string)
    ensures p == q || Before(p, q) || Before(q, p)
  {
    LessTotal(p, q);
  }

  /** Ordered by key: no file has a strictly smaller key than one before it. */
  predicate SortedByKey(s: seq<FileInfo>) {
    forall i, j :: 0 <= i < j < |s| ==> !Before(s[j].path, s[i].path)
  }

  /** What `x` contributes to the files whose path is `p`: itself or nothing. */
  function PathPart(x: FileInfo, p: string): seq<FileInfo> {
    if x.path == p then [x] else []
  }

  /** The files of `s` whose path is `p`, in order. */
  function WithPath(s: seq<FileInfo>, p: string): seq<FileInfo> {
    if s == [] then []
    else WithPath(s[..|s| - 1], p) + PathPart(s[|s| - 1], p)
  }

  /** Insert `x` into `s` after every element whose key is not greater than its key. */
  function Insert(s: seq<FileInfo>, x: FileInfo): (r: seq<FileInfo>)
    ensures multiset(r) == multiset(s) + multiset{x}
    ensures |r| == |s| + 1
  {
    if s == [] then [x]
    else if Before(x.path, s[|s| - 1].path) then
      assert s == s[..|s| - 1] + [s[|s| - 1]];
      Insert(s[..|s| - 1], x) + [s[|s| - 1]]
    else s + [x]
  }

  /** `sorted(...)` of the Markdown files with the key above. */
  function SortMarkdown(s: seq<FileInfo>): (r: seq<FileInfo>)
    ensures multiset(r) == multiset(s)
    ensures |r| == |s|
  {
    if s == [] then []
    else
      assert s == s[..|s| - 1] + [s[|s| - 1]];
      Insert(SortMarkdown(s[..|s| - 1]), s[|s| - 1])
  }

  /** A sorted sequence stays sorted when an element no smaller than every one of its elements is appended. */
  lemma SortedSnoc(t: seq<FileInfo>, y: FileInfo)
    requires SortedByKey(t)
    requires forall i :: 0 <= i < |t| ==> !Before(y.path, t[i].path)
    ensures SortedByKey(t + [y])
  {
    var r := t + [y];
    assert forall i :: 0 <= i < |t| ==> r[i] == t[i];
  }

  /** Before anything is appended after it, `x` lands no later than the last element of the sorted `s`. */
  lemma InsertBeforeLast(s: seq<FileInfo>, x: FileInfo)
    requires s != [] && SortedByKey(s)
    requires Before(x.path, s[|s| - 1].path)
    requires SortedByKey(Insert(s[..|s| - 1], x))
    ensures SortedByKey(Insert(s, x))
  {
    var init, last := s[..|s| - 1], s[|s| - 1];
    var t := Insert(init, x);
    forall i | 0 <= i < |t|
      ensures !Before(last.path, t[i].path)
    {
      assert t[i] in multiset(t);
      if t[i] == x {
        if Before(last.path, x.path) {
          BeforeTransitive(x.path, last.path, x.path);
          BeforeIrreflexive(x.path);
        }
      } else {
        assert t[i] in multiset(init);
        var k :| 0 <= k < |init| && init[k] == t[i];
        assert s[k] == init[k];
      }
    }
    SortedSnoc(t, last);
  }

  /** `x`, not smaller than the last element of the sorted `s`, is not smaller than any. */
  lemma AppendAfterLast(s: seq<FileInfo>, x: FileInfo)
    requires s != [] && SortedByKey(s)
    requires !Before(x.path, s[|s| - 1].path)
    ensures SortedByKey(Insert(s, x))
  {
    var last := s[|s| - 1];
    forall i | 0 <= i < |s|
      ensures !Before(x.path, s[i].path)
    {
      if Before(x.path, s[i].path) && i < |s| - 1 {
        BeforeTotal(s[i].path, last.path);
        if Before(s[i].path, last.path) {
          BeforeTransitive(x.path, s[i].path, last.path);
        }
      }
    }
    SortedSnoc(s, x);
  }

  lemma {:induction false} InsertSorted(s: seq<FileInfo>, x: FileInfo)
    requires SortedByKey(s)
    ensures SortedByKey(Insert(s, x))
    decreases |s|
  {
    if s != [] {
      if Before(x.path, s[|s| - 1].path) {
        InsertSorted(s[..|s| - 1], x);
        InsertBeforeLast(s, x);
      } else {
        AppendAfterLast(s, x);
      }
    }
  }

  /** The Markdown files come out ordered by key. */
  lemma {:induction false} SortMarkdownSorted(s: seq<FileInfo>)
    ensures SortedByKey(SortMarkdown(s))
    decreases |s|
  {
    if s != [] {
      SortMarkdownSorted(s[..|s| - 1]);
      InsertSorted(SortMarkdown(s[..|s| - 1]), s[|s| - 1]);
    }
  }

  lemma WithPathSnoc(t: seq<FileInfo>, y: FileInfo, p: string)
    ensures WithPath(t + [y], p) == WithPath(t, p) + PathPart(y, p)
  {
    var r := t + [y];
    assert r[..|r| - 1] == t;
  }

  lemma {:induction false} InsertWithPath(s: seq<FileInfo>, x: FileInfo, p: string)
    ensures WithPath(Insert(s, x), p) == WithPath(s, p) + PathPart(x, p)
    decreases |s|
  {
    if s != [] {
      var init, last := s[..|s| - 1], s[|s| - 1];
      assert s == init + [last];
      WithPathSnoc(init, last, p);
      if Before(x.path, last.path) {
        InsertWithPath(init, x, p);
        WithPathSnoc(Insert(init, x), last, p);
        if x.path == p && last.path == p {
          BeforeIrreflexive(p);
        }
        assert PathPart(x, p) + PathPart(last, p) == PathPart(last, p) + PathPart(x, p);
        ConcatAssoc(WithPath(init, p), PathPart(x, p), PathPart(last, p));
        ConcatAssoc(WithPath(init, p), PathPart(last, p), PathPart(x, p));
      } else {
        WithPathSnoc(s, x, p);
      }
    }
  }

  /** Stability: the files sharing a path keep their input order. */
  lemma {:induction false} SortMarkdownStable(s: seq<FileInfo>, p: string)
    ensures WithPath(SortMarkdown(s), p) == WithPath(s, p)
    decreases |s|
  {
    if s != [] {
      SortMarkdownStable(s[..|s| - 1], p);
      InsertWithPath(SortMarkdown(s[..|s| - 1]), s[|s| - 1], p);
    }
  }

  /** In a sequence ordered by key, a `README.md` anywhere means one at the front. */
  lemma ReadmeFirstOfSorted(r: seq<FileInfo>, j: nat)
    requires SortedByKey(r)
    requires j < |r| && r[j].path == "README.md"
    ensures r[0].path == "README.md"
  {
    if j > 0 {
      assert !Before(r[j].path, r[0].path);
    }
  }

  /** When there is a file whose path is exactly `README.md`, the block starts with one. */
  lemma ReadmeFirst(s: seq<FileInfo>, i: nat)
    requires i < |s| && s[i].path == "README.md"
    ensures SortMarkdown(s)[0].path == "README.md"
  {
    var r := SortMarkdown(s);
    assert s[i] in multiset(r);
    var j :| 0 <= j < |r| && r[j] == s[i];
    SortMarkdownSorted(s);
    ReadmeFirstOfSorted(r, j);
  }

  /** After the README files every later file is in ascending path order. */
  lemma AscendingAfterReadme(s: seq<FileInfo>, i: nat, j: nat)
    requires i < j < |s|
    ensures var r := SortMarkdown(s);
            r[i].path != "README.md" ==> r[j].path != "README.md" && (r[i].path == r[j].path || Less(r[i].path, r[j].path))
  {
    var r := SortMarkdown(s);
    SortMarkdownSorted(s);
    assert !Before(r[j].path, r[i].path);
    BeforeTotal(r[i].path, r[j].path);
  }
}
