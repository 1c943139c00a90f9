/**
 * The first phase of `generate_detailed_summary`: cutting the digest text
 * that gitingest produces into file sections.
 *
 * A digest line that starts with 40 `=` is a separator and is dropped; a line
 * that starts with `FILE: ` opens a new section, whose path is the line with
 * every `FILE: ` removed and then stripped; every other line belongs to the
 * open section. A section is recorded only when its path is non-empty (the
 * source tests `if current_file:`), so lines before the first header and
 * lines under a header whose path is empty are lost.
 *
 * `Sections` is a reference definition that reads the lines header by
 * header; `ParseDigest` is the source's loop, proved to compute it.
 */
module Digest {
  import opened Seqs
  import opened PyStr

  /** `'=' * 40` */
  const SeparatorPrefix: string := Repeat('=', 40)
  const HeaderPrefix: string := "FILE: "

  predicate IsSeparator(line: string) {
    StartsWith(line, SeparatorPrefix)
  }

  /** A header line; the separator test comes first in the source's `if`/`elif`. */
  predicate IsHeader(line: string) {
    !IsSeparator(line) && StartsWith(line, HeaderPrefix)
  }

  /** `line.replace('FILE: ', '').strip()` */
  function HeaderPath(line: string): string {
    Strip(RemoveAll(line, HeaderPrefix))
  }

  /** One entry of `files_info`: the dictionary `{'path', 'content', 'lines'}`. */
  datatype FileInfo = FileInfo(path: string, content: string, lines: nat)

  /** The entry for a section: its lines joined with `'\n'`, and their number. */
  function MakeFile(path: string, body: seq<string>): FileInfo {
    FileInfo(path, Join(body, '\n'), |body|)
  }

  /** What closing a section appends to `files_info`: nothing when its path is empty. */
  function Emit(path: string, body: seq<string>): seq<FileInfo> {
    if path != "" then [MakeFile(path, body)] else []
  }

  /** The index of the first header line, or `|ls|` when there is none. */
  function NextHeader(ls: seq<string>): (j: nat)
    ensures j <= |ls|
    ensures forall k :: 0 <= k < j ==> !IsHeader(ls[k])
    ensures j < |ls| ==> IsHeader(ls[j])
  {
    if ls == [] || IsHeader(ls[0]) then 0 else 1 + NextHeader(ls[1..])
  }

  /** The lines that are not separators, in order. */
  function NonSeparators(ls: seq<string>): (r: seq<string>)
    ensures |r| <= |ls|
    ensures forall k :: 0 <= k < |r| ==> !IsSeparator(r[k])
  {
    if ls == [] then []
    else (if IsSeparator(ls[0]) then [] else [ls[0]]) + NonSeparators(ls[1..])
  }

  /** Sections of lines that start at a header (or are empty), header by header. */
  function SectionsFrom(ls: seq<string>): seq<FileInfo>
    requires ls == [] || IsHeader(ls[0])
    decreases |ls|
  {
    if ls == [] then []
    else
      var j := 1 + NextHeader(ls[1..]);
      Emit(HeaderPath(ls[0]), NonSeparators(ls[1..j])) + SectionsFrom(ls[j..])
  }

  /**
   * Reference definition of `files_info`: the lines before the first header
   * are skipped; each header then owns the non-separator lines up to the
   * next header or the end.
   */
  function Sections(lines: seq<string>): seq<FileInfo> {
    SectionsFrom(lines[NextHeader(lines)..])
  }

  /**
   * What the remaining lines `ls` contribute to `files_info` when the section
   * `current` is open and has collected `body` so far.
   */
  function Pending(current: string, body: seq<string>, ls: seq<string>): seq<FileInfo> {
    var j := NextHeader(ls);
    Emit(current, body + NonSeparators(ls[..j])) + SectionsFrom(ls[j..])
  }

  lemma PendingStart(lines: seq<string>)
    ensures Pending("", [], lines) == Sections(lines)
  {
  }

  lemma PendingEnd(current: string, body: seq<string>)
    ensures Pending(current, body, []) == Emit(current, body)
  {
    assert body + [] == body;
  }

  lemma PendingSeparator(current: string, body: seq<string>, ls: seq<string>)
    requires ls != [] && IsSeparator(ls[0])
    ensures Pending(current, body, ls) == Pending(current, body, ls[1..])
  {
    var j, j1 := NextHeader(ls), NextHeader(ls[1..]);
    assert j == 1 + j1;
    var a, a1 := ls[..j], ls[1..][..j1];
    assert a[0] == ls[0] && a[1..] == a1;
    assert NonSeparators(a) == NonSeparators(a1);
    assert ls[j..] == ls[1..][j1..];
  }

  lemma PendingOther(current: string, body: seq<string>, ls: seq<string>)
    requires ls != [] && !IsSeparator(ls[0]) && !IsHeader(ls[0])
    ensures Pending(current, body, ls) == Pending(current, body + [ls[0]], ls[1..])
  {
    var j := NextHeader(ls);
    assert j == 1 + NextHeader(ls[1..]);
    assert ls[..j][1..] == ls[1..][..j - 1];
    assert ls[..j][0] == ls[0];
    assert NonSeparators(ls[..j]) == [ls[0]] + NonSeparators(ls[1..][..j - 1]);
    assert body + ([ls[0]] + NonSeparators(ls[1..][..j - 1]))
        == (body + [ls[0]]) + NonSeparators(ls[1..][..j - 1]);
    assert ls[j..] == ls[1..][j - 1..];
  }

  lemma PendingHeader(current: string, body: seq<string>, ls: seq<string>)
    requires ls != [] && IsHeader(ls[0])
    ensures Pending(current, body, ls) == Emit(current, body) + Pending(HeaderPath(ls[0]), [], ls[1..])
  {
    assert NextHeader(ls) == 0;
    assert ls[..0] == [] && ls[0..] == ls;
    assert body + [] == body;
    var j := 1 + NextHeader(ls[1..]);
    assert ls[1..j] == ls[1..][..j - 1];
    assert ls[j..] == ls[1..][j - 1..];
    assert [] + NonSeparators(ls[1..j]) == NonSeparators(ls[1..j]);
  }

  /** One iteration of the parsing loop keeps `files + Pending(...)` fixed (separator line). */
  lemma SeparatorStep(files: seq<FileInfo>, current: string, body: seq<string>, lines: seq<string>, i: nat)
    requires i < |lines| && IsSeparator(lines[i])
    ensures files + Pending(current, body, lines[i..]) == files + Pending(current, body, lines[i + 1..])
  {
    assert lines[i..][0] == lines[i] && lines[i..][1..] == lines[i + 1..];
    PendingSeparator(current, body, lines[i..]);
  }

  /** One iteration of the parsing loop keeps `files + Pending(...)` fixed (header line). */
  lemma HeaderStep(files: seq<FileInfo>, current: string, body: seq<string>, lines: seq<string>, i: nat)
    requires i < |lines| && IsHeader(lines[i])
    ensures files + Pending(current, body, lines[i..])
            == (if current != "" then files + [MakeFile(current, body)] else files)
               + Pending(Strip(RemoveAll(lines[i], HeaderPrefix)), [], lines[i + 1..])
  {
    assert lines[i..][0] == lines[i] && lines[i..][1..] == lines[i + 1..];
    PendingHeader(current, body, lines[i..]);
    var next := Pending(HeaderPath(lines[i]), [], lines[i + 1..]);
    assert files + Pending(current, body, lines[i..]) == files + (Emit(current, body) + next);
    ConcatAssoc(files, Emit(current, body), next);
    if current == "" {
      assert files + Emit(current, body) == files;
    }
  }

  /** One iteration of the parsing loop keeps `files + Pending(...)` fixed (any other line). */
  lemma OtherStep(files: seq<FileInfo>, current: string, body: seq<string>, lines: seq<string>, i: nat)
    requires i < |lines| && !IsSeparator(lines[i]) && !IsHeader(lines[i])
    ensures files + Pending(current, body, lines[i..]) == files + Pending(current, body + [lines[i]], lines[i + 1..])
  {
    assert lines[i..][0] == lines[i] && lines[i..][1..] == lines[i + 1..];
    PendingOther(current, body, lines[i..]);
  }

  /** The source's parsing loop over the lines of the digest. */
  method ParseDigest(lines: seq<string>) returns (files: seq<FileInfo>)
    ensures files == Sections(lines)
  {
    files := [];
    var currentFile := "";
    var currentContent: seq<string> := [];
    PendingStart(lines);
    for i := 0 to |lines|
      invariant files + Pending(currentFile, currentContent, lines[i..]) == Sections(lines)
    {
      var line := lines[i];
      if StartsWith(line, SeparatorPrefix) {
        SeparatorStep(files, currentFile, currentContent, lines, i);
      } else if StartsWith(line, HeaderPrefix) {
        HeaderStep(files, currentFile, currentContent, lines, i);
        if currentFile != "" {
          files := files + [MakeFile(currentFile, currentContent)];
        }
        currentFile := Strip(RemoveAll(line, HeaderPrefix));
        currentContent := [];
      } else {
        OtherStep(files, currentFile, currentContent, lines, i);
        currentContent := currentContent + [line];
      }
    }
    assert lines[|lines|..] == [];
    PendingEnd(currentFile, currentContent);
    if currentFile != "" {
      files := files + [MakeFile(currentFile, currentContent)];
    }
  }

  // ---------------------------------------------------------------------
  // Properties of the parse
  // ---------------------------------------------------------------------

  lemma {:induction false} PendingIgnoresSeparator(current: string, body: seq<string>, a: seq<string>, sep: string, b: seq<string>)
    requires IsSeparator(sep)
    ensures Pending(current, body, a + [sep] + b) == Pending(current, body, a + b)
    decreases |a|
  {
    if a == [] {
      assert a + [sep] + b == [sep] + b && ([sep] + b)[1..] == b && a + b == b;
      PendingSeparator(current, body, [sep] + b);
    } else {
      var x := a[0];
      var l1, l2 := a + [sep] + b, a + b;
      assert l1[0] == x && l2[0] == x;
      assert l1[1..] == a[1..] + [sep] + b;
      assert l2[1..] == a[1..] + b;
      if IsSeparator(x) {
        PendingSeparator(current, body, l1);
        PendingSeparator(current, body, l2);
        PendingIgnoresSeparator(current, body, a[1..], sep, b);
      } else if IsHeader(x) {
        PendingHeader(current, body, l1);
        PendingHeader(current, body, l2);
        PendingIgnoresSeparator(HeaderPath(x), [], a[1..], sep, b);
      } else {
        PendingOther(current, body, l1);
        PendingOther(current, body, l2);
        PendingIgnoresSeparator(current, body + [x], a[1..], sep, b);
      }
    }
  }

  /** Separator lines never count toward any file: removing one changes nothing. */
  lemma SeparatorsNeverCount(a: seq<string>, sep: string, b: seq<string>)
    requires IsSeparator(sep)
    ensures Sections(a + [sep] + b) == Sections(a + b)
  {
    PendingStart(a + [sep] + b);
    PendingStart(a + b);
    PendingIgnoresSeparator("", [], a, sep, b);
  }

  lemma {:induction false} NextHeaderAppend(pre: seq<string>, rest: seq<string>)
    requires forall k :: 0 <= k < |pre| ==> !IsHeader(pre[k])
    ensures NextHeader(pre + rest) == |pre| + NextHeader(rest)
    decreases |pre|
  {
    if pre == [] {
      assert pre + rest == rest;
    } else {
      assert (pre + rest)[1..] == pre[1..] + rest;
      NextHeaderAppend(pre[1..], rest);
    }
  }

  /** Two line sequences with the same lines from their first header on have the same sections. */
  lemma SectionsSameStart(a: seq<string>, b: seq<string>)
    requires a[NextHeader(a)..] == b[NextHeader(b)..]
    ensures Sections(a) == Sections(b)
  {
  }

  /** Lines before the first `FILE: ` header are discarded. */
  lemma PreambleDiscarded(pre: seq<string>, rest: seq<string>)
    requires forall k :: 0 <= k < |pre| ==> !IsHeader(pre[k])
    ensures Sections(pre + rest) == Sections(rest)
  {
    NextHeaderAppend(pre, rest);
    DropConcat(pre, rest, NextHeader(rest));
    SectionsSameStart(pre + rest, rest);
  }

  /** A header whose stripped path is empty yields no section, and the lines under it are lost. */
  lemma EmptyHeaderYieldsNothing(h: string, rest: seq<string>)
    requires IsHeader(h) && HeaderPath(h) == ""
    ensures Sections([h] + rest) == Sections(rest)
  {
    var ls := [h] + rest;
    assert NextHeader(ls) == 0 && ls[0..] == ls && ls[1..] == rest;
    var j := 1 + NextHeader(rest);
    assert ls[j..] == rest[j - 1..];
  }

  /**
   * A header with a non-empty path opens a section whose `lines` is the number
   * of non-separator lines up to the next header (or the end), and whose
   * `content` is those lines joined.
   */
  lemma NamedHeaderSection(h: string, rest: seq<string>)
    requires IsHeader(h) && HeaderPath(h) != ""
    ensures var body := NonSeparators(rest[..NextHeader(rest)]);
            Sections([h] + rest)
            == [FileInfo(HeaderPath(h), Join(body, '\n'), |body|)] + Sections(rest)
  {
    var ls := [h] + rest;
    assert NextHeader(ls) == 0 && ls[0..] == ls && ls[1..] == rest;
    var j := 1 + NextHeader(rest);
    assert ls[1..j] == rest[..j - 1];
    assert ls[j..] == rest[j - 1..];
  }

  /** The number of header lines whose path is non-empty. */
  function NamedHeaders(ls: seq<string>): nat {
    if ls == [] then 0
    else (if IsHeader(ls[0]) && HeaderPath(ls[0]) != "" then 1 else 0) + NamedHeaders(ls[1..])
  }

  /** The number of lines that are neither separators nor headers. */
  function BodyLines(ls: seq<string>): nat {
    if ls == [] then 0
    else (if !IsSeparator(ls[0]) && !IsHeader(ls[0]) then 1 else 0) + BodyLines(ls[1..])
  }

  /** `total_lines`: `sum(f['lines'] for f in files_info)` */
  function TotalLines(files: seq<FileInfo>): nat {
    if files == [] then 0 else files[0].lines + TotalLines(files[1..])
  }

  lemma {:induction false} TotalLinesAppend(a: seq<FileInfo>, b: seq<FileInfo>)
    ensures TotalLines(a + b) == TotalLines(a) + TotalLines(b)
    decreases |a|
  {
    if a == [] {
      assert a + b == b;
    } else {
      assert (a + b)[1..] == a[1..] + b;
      TotalLinesAppend(a[1..], b);
    }
  }

  lemma {:induction false} CountsAppend(a: seq<string>, b: seq<string>)
    ensures NamedHeaders(a + b) == NamedHeaders(a) + NamedHeaders(b)
    ensures BodyLines(a + b) == BodyLines(a) + BodyLines(b)
    decreases |a|
  {
    if a == [] {
      assert a + b == b;
    } else {
      assert (a + b)[0] == a[0];
      assert (a + b)[1..] == a[1..] + b;
      CountsAppend(a[1..], b);
    }
  }

  lemma {:induction false} HeaderFreeCounts(ls: seq<string>)
    requires forall k :: 0 <= k < |ls| ==> !IsHeader(ls[k])
    ensures NamedHeaders(ls) == 0
    ensures BodyLines(ls) == |NonSeparators(ls)|
  {
    if ls != [] {
      HeaderFreeCounts(ls[1..]);
    }
  }

  /** Every header line has a non-empty path. */
  predicate AllNamed(ls: seq<string>) {
    forall k :: 0 <= k < |ls| && IsHeader(ls[k]) ==> HeaderPath(ls[k]) != ""
  }

  lemma AllNamedSuffix(ls: seq<string>, j: nat)
    requires j <= |ls| && AllNamed(ls)
    ensures AllNamed(ls[j..])
  {
    forall k | 0 <= k < |ls[j..]| && IsHeader(ls[j..][k])
      ensures HeaderPath(ls[j..][k]) != ""
    {
      assert ls[j..][k] == ls[j + k];
    }
  }

  /** Nothing before the first header counts as a named header; the non-separator lines there add to the body count. */
  lemma PreambleCounts(lines: seq<string>, k: nat)
    requires k == NextHeader(lines)
    ensures NamedHeaders(lines) == NamedHeaders(lines[k..])
    ensures BodyLines(lines) == |NonSeparators(lines[..k])| + BodyLines(lines[k..])
  {
    assert lines == lines[..k] + lines[k..];
    CountsAppend(lines[..k], lines[k..]);
    HeaderFreeCounts(lines[..k]);
  }

  /** The counts of a header-led sequence: its first section, then the rest from the next header on. */
  lemma FirstSectionCounts(ls: seq<string>, j: nat)
    requires ls != [] && IsHeader(ls[0]) && j == 1 + NextHeader(ls[1..])
    ensures NamedHeaders(ls) == (if HeaderPath(ls[0]) != "" then 1 else 0) + NamedHeaders(ls[j..])
    ensures BodyLines(ls) == |NonSeparators(ls[1..j])| + BodyLines(ls[j..])
  {
    var tail := ls[1..];
    PreambleCounts(tail, j - 1);
    assert tail[..j - 1] == ls[1..j] && tail[j - 1..] == ls[j..];
  }

  lemma EmitLines(path: string, body: seq<string>)
    ensures TotalLines(Emit(path, body)) == if path != "" then |body| else 0
  {
    if path != "" {
      assert Emit(path, body)[1..] == [];
    }
  }

  lemma {:induction false} SectionsFromCounts(ls: seq<string>)
    requires ls == [] || IsHeader(ls[0])
    ensures |SectionsFrom(ls)| == NamedHeaders(ls)
    ensures TotalLines(SectionsFrom(ls)) <= BodyLines(ls)
    ensures AllNamed(ls) ==> TotalLines(SectionsFrom(ls)) == BodyLines(ls)
    decreases |ls|
  {
    if ls != [] {
      var j := 1 + NextHeader(ls[1..]);
      var e := Emit(HeaderPath(ls[0]), NonSeparators(ls[1..j]));
      FirstSectionCounts(ls, j);
      EmitLines(HeaderPath(ls[0]), NonSeparators(ls[1..j]));
      SectionsFromCounts(ls[j..]);
      TotalLinesAppend(e, SectionsFrom(ls[j..]));
      if AllNamed(ls) {
        assert HeaderPath(ls[0]) != "";
        AllNamedSuffix(ls, j);
      }
    }
  }

  /** `total_files` is the number of headers with a non-empty path. */
  lemma SectionCount(lines: seq<string>)
    ensures |Sections(lines)| == NamedHeaders(lines)
  {
    var k := NextHeader(lines);
    PreambleCounts(lines, k);
    SectionsFromCounts(lines[k..]);
  }

  /**
   * `total_lines` never exceeds the digest's non-separator, non-header lines,
   * and equals their number when the digest starts with a header and no
   * header has an empty path.
   */
  lemma TotalLinesCount(lines: seq<string>)
    ensures TotalLines(Sections(lines)) <= BodyLines(lines)
    ensures (lines == [] || IsHeader(lines[0])) && AllNamed(lines) ==> TotalLines(Sections(lines)) == BodyLines(lines)
  {
    var k := NextHeader(lines);
    PreambleCounts(lines, k);
    SectionsFromCounts(lines[k..]);
    if lines == [] || IsHeader(lines[0]) {
      assert k == 0 && lines[k..] == lines;
    }
  }

  /**
   * The path of a header line `FILE: x` is `x` with every `FILE: ` removed,
   * that is the concatenation of `x.split('FILE: ')`, then stripped; a path
   * with no `FILE: ` inside it is only stripped.
   */
  lemma HeaderPathOf(x: string)
    ensures HeaderPath(HeaderPrefix + x) == Strip(RemoveAll(x, HeaderPrefix))
    ensures HeaderPath(HeaderPrefix + x) == Strip(Concat(SplitStr(x, HeaderPrefix)))
    ensures !Contains(x, HeaderPrefix) ==> HeaderPath(HeaderPrefix + x) == Strip(x)
  {
    assert StartsWith(HeaderPrefix + x, HeaderPrefix);
    assert (HeaderPrefix + x)[|HeaderPrefix|..] == x;
    RemoveAllIsConcatOfSplit(x, HeaderPrefix);
    if !Contains(x, HeaderPrefix) {
      NoOccurrence(x, HeaderPrefix);
    }
  }

  /** For example, `line.replace('FILE: ', '')` removes an occurrence inside the path as well as the leading one. */
  lemma HeaderPathRemovesEveryOccurrence()
    ensures HeaderPath("FILE: a/FILE: b") == "a/b"
  {
    var s := "FILE: a/FILE: b";
    assert StartsWith(s, HeaderPrefix);
    assert s[6..] == "a/FILE: b";
    assert "a/FILE: b"[..6][0] == 'a';
    assert !StartsWith("a/FILE: b", HeaderPrefix);
    assert "a/FILE: b"[1..] == "/FILE: b";
    assert "/FILE: b"[..6][0] == '/';
    assert !StartsWith("/FILE: b", HeaderPrefix);
    assert "/FILE: b"[1..] == "FILE: b";
    assert StartsWith("FILE: b", HeaderPrefix);
    assert "FILE: b"[6..] == "b";
    assert !StartsWith("b", HeaderPrefix);
    assert "b"[1..] == "";
    assert RemoveAll(s, HeaderPrefix) == "a/b";
    assert LeadCount("a/b") == 0;
    assert TrailCount("a/b") == 0;
  }
}
