/**
 * The report `generate_detailed_summary` builds: a list of lines
 * (`detailed_summary`) joined with `'\n'`. `DetailedSummary` is the
 * specification over the three input strings; `GenerateDetailedSummary`
 * is the source's implementation (parse loop, analysis loop, then one
 * append after another), proved equal to it.
 */
module Report {
  import opened Seqs
  import opened Wrappers
  import opened PyStr
  import opened Format
  import opened StrOrder
  import opened Digest
  import opened Analysis
  import opened MarkdownOrder

  /** The width of the report's rules. */
  const RuleWidth: nat := 80
  /** `"=" * 80` */
  const Rule: string := Repeat('=', RuleWidth)
  /** `"-" * 80` */
  const Dash: string := Repeat('-', RuleWidth)
  const OverflowPrefix: string := "  ... and "

  /** `f"  • {s}"` */
  function Bullet(s: string): string {
    "  \U{2022} " + s
  }

  /** `s[:n]` */
  function Take<T>(s: seq<T>, n: nat): (r: seq<T>)
    ensures |r| == if |s| <= n then |s| else n
    ensures r == s[..|r|]
  {
    if |s| <= n then s else s[..n]
  }

  /** One bullet line per item, in order. */
  function Bullets(xs: seq<string>): (r: seq<string>)
    ensures |r| == |xs|
    ensures forall i :: 0 <= i < |xs| ==> r[i] == Bullet(xs[i])
  {
    if xs == [] then [] else Bullets(xs[..|xs| - 1]) + [Bullet(xs[|xs| - 1])]
  }

  function CategoryHeading(c: Category, n: nat): string {
    "\n" + CategoryName(c) + " (" + Decimal(n) + " files):"
  }

  function OverflowLine(n: nat): string {
    OverflowPrefix + Decimal(n) + " more"
  }

  /** The lines one entry of `file_categories` contributes to the listing. */
  function CategoryBlock(c: Category, paths: seq<string>): seq<string> {
    if paths == [] then []
    else
      [CategoryHeading(c, |paths|)] + Bullets(Take(paths, 10))
      + (if |paths| > 10 then [OverflowLine(|paths| - 10)] else [])
  }

  /** The listing of the categories of `files`, in the order given. */
  function Listing(files: seq<FileInfo>, order: seq<Category>): seq<string> {
    if order == [] then []
    else
      var c := order[|order| - 1];
      Listing(files, order[..|order| - 1]) + CategoryBlock(c, CategoryPaths(files, c))
  }

  /** The bullets under TECHNOLOGIES DETECTED: `sorted(technologies)[:20]`. */
  ghost function TechLines(techs: set<string>): seq<string> {
    Bullets(Take(SortedOf(techs), 20))
  }

  /** The main language: strictly more Python files than JavaScript/TypeScript files, else JavaScript/TypeScript. */
  function MainLanguage(files: seq<FileInfo>): (r: string)
    ensures r == "Python" || r == "JavaScript/TypeScript"
    ensures r == "Python" <==> |CategoryPaths(files, PythonCode)| > |CategoryPaths(files, Scripts)|
  {
    if |CategoryPaths(files, PythonCode)| > |CategoryPaths(files, Scripts)| then "Python"
    else "JavaScript/TypeScript"
  }

  function DockerSupport(files: seq<FileInfo>): string {
    if CategoryPaths(files, Docker) != [] then "Yes" else "No"
  }

  /** The four bullets under KEY INSIGHTS. */
  function Insights(files: seq<FileInfo>): seq<string> {
    [ Bullet("Repository contains " + Decimal(|files|) + " files with " + Grouped(TotalLines(files)) + " lines"),
      Bullet("Main language: " + MainLanguage(files)),
      Bullet("Has Docker support: " + DockerSupport(files)),
      Bullet("Documentation files: " + Decimal(|CategoryPaths(files, Documentation)|)) ]
  }

  /** The lines for one Markdown file in the documentation block. */
  function MarkdownEntry(f: FileInfo): seq<string> {
    ["", Dash, "FILE: " + f.path + " (" + Decimal(f.lines) + " lines)", Dash, f.content, ""]
  }

  function MarkdownEntries(ms: seq<FileInfo>): seq<string> {
    if ms == [] then [] else MarkdownEntries(ms[..|ms| - 1]) + MarkdownEntry(ms[|ms| - 1])
  }

  const MarkdownTitle: string := "DOCUMENTATION CONTENT (ALL MARKDOWN FILES)"

  /** A blank line and a title between two rules, as before each part of the report. */
  function Heading(title: string): seq<string> {
    ["", Rule, title, Rule]
  }

  function MarkdownHeader(n: nat): seq<string> {
    Heading(MarkdownTitle) + ["Found " + Decimal(n) + " markdown files with documentation", ""]
  }

  function MarkdownFooter(): seq<string> {
    [Rule, "END OF DOCUMENTATION CONTENT", Rule]
  }

  /** The documentation block, present only when there are Markdown files. */
  function MarkdownBlock(md: seq<FileInfo>): seq<string> {
    if md == [] then []
    else MarkdownHeader(|md|) + MarkdownEntries(SortMarkdown(md)) + MarkdownFooter()
  }

  function Preamble(summary: string, files: seq<FileInfo>): seq<string> {
    [Rule, "DETAILED REPOSITORY SUMMARY", Rule, "", summary, "",
     Rule, "FILE ANALYSIS", Rule,
     "Total Files: " + Decimal(|files|), "Total Lines of Code: " + Grouped(TotalLines(files)), ""]
  }

  /** The lines of the report for the sections `files` and the import names `techs`. */
  ghost function ReportLines(summary: string, tree: string, files: seq<FileInfo>, techs: set<string>): seq<string> {
    Preamble(summary, files)
    + Listing(files, CategoryOrder)
    + Heading("TECHNOLOGIES DETECTED") + TechLines(techs)
    + Heading("PROJECT STRUCTURE") + [tree]
    + Heading("KEY INSIGHTS") + Insights(files) + [Rule]
    + MarkdownBlock(MarkdownFiles(files))
  }

  /** Specification of `generate_detailed_summary(content, tree, summary)`. */
  ghost function DetailedSummary(content: string, tree: string, summary: string): Result<string, PyError> {
    var files := Sections(Split(content, '\n'));
    match TechnologiesOf(files)
    case Err(e) => Err(e)
    case Ok(techs) => Ok(Join(ReportLines(summary, tree, files, techs), '\n'))
  }

  // ---------------------------------------------------------------------
  // The implementation
  // ---------------------------------------------------------------------

  lemma BulletsStep(xs: seq<string>, j: nat)
    requires j < |xs|
    ensures Bullets(xs[..j + 1]) == Bullets(xs[..j]) + [Bullet(xs[j])]
  {
    assert xs[..j + 1][..j] == xs[..j];
  }

  /** A loop `for x in xs: detailed_summary.append(f"  • {x}")`. */
  method AppendBullets(detailed: seq<string>, xs: seq<string>) returns (r: seq<string>)
    ensures r == detailed + Bullets(xs)
  {
    r := detailed;
    for j := 0 to |xs|
      invariant r == detailed + Bullets(xs[..j])
    {
      BulletsStep(xs, j);
      r := r + [Bullet(xs[j])];
    }
    assert xs[..|xs|] == xs;
  }

  /** The lines of one category: heading, the first ten paths, and the overflow line. */
  method AppendCategory(detailed: seq<string>, c: Category, paths: seq<string>) returns (r: seq<string>)
    ensures r == detailed + CategoryBlock(c, paths)
  {
    r := detailed;
    if |paths| > 0 {
      var heading := CategoryHeading(c, |paths|);
      var shown := Take(paths, 10);
      r := r + [heading];
      r := AppendBullets(r, shown);
      if |paths| > 10 {
        var overflow := OverflowLine(|paths| - 10);
        r := r + [overflow];
        AppendAssoc(detailed, [heading], Bullets(shown), [overflow]);
      } else {
        AppendAssoc(detailed, [heading], Bullets(shown), []);
      }
    }
  }

  lemma ListingStep(files: seq<FileInfo>, order: seq<Category>, k: nat)
    requires k < |order|
    ensures Listing(files, order[..k + 1]) == Listing(files, order[..k]) + CategoryBlock(order[k], CategoryPaths(files, order[k]))
  {
    assert order[..k + 1][..k] == order[..k];
  }

  /** The loop over `file_categories.items()`, in the dictionary's order. */
  method AppendListing(detailed: seq<string>, files: seq<FileInfo>, cats: map<Category, seq<string>>)
    returns (r: seq<string>)
    requires cats == Categories(files)
    ensures r == detailed + Listing(files, CategoryOrder)
  {
    r := detailed;
    for k := 0 to |CategoryOrder|
      invariant r == detailed + Listing(files, CategoryOrder[..k])
    {
      var c := CategoryOrder[k];
      ListingStep(files, CategoryOrder, k);
      CategoriesAt(files, c);
      ConcatAssoc(detailed, Listing(files, CategoryOrder[..k]), CategoryBlock(c, CategoryPaths(files, c)));
      r := AppendCategory(r, c, cats[c]);
    }
    assert CategoryOrder[..|CategoryOrder|] == CategoryOrder;
  }

  /** The loop over `sorted(technologies)[:20]`. */
  method AppendTechnologies(detailed: seq<string>, techs: set<string>) returns (r: seq<string>)
    ensures r == detailed + TechLines(techs)
  {
    var sorted := SortSet(techs);
    r := AppendBullets(detailed, Take(sorted, 20));
  }

  lemma MarkdownEntriesStep(ms: seq<FileInfo>, j: nat)
    requires j < |ms|
    ensures MarkdownEntries(ms[..j + 1]) == MarkdownEntries(ms[..j]) + MarkdownEntry(ms[j])
  {
    assert ms[..j + 1][..j] == ms[..j];
  }

  /** The loop over `markdown_files_sorted`. */
  method AppendEntries(detailed: seq<string>, ordered: seq<FileInfo>) returns (r: seq<string>)
    ensures r == detailed + MarkdownEntries(ordered)
  {
    r := detailed;
    for j := 0 to |ordered|
      invariant r == detailed + MarkdownEntries(ordered[..j])
    {
      MarkdownEntriesStep(ordered, j);
      ConcatAssoc(detailed, MarkdownEntries(ordered[..j]), MarkdownEntry(ordered[j]));
      r := r + MarkdownEntry(ordered[j]);
    }
    assert ordered[..|ordered|] == ordered;
  }

  lemma AppendAssoc(a: seq<string>, b: seq<string>, c: seq<string>, d: seq<string>)
    ensures a + b + c + d == a + (b + c + d)
  {
  }

  /** The documentation block: `if markdown_files:`, the sort, and the loop over the sorted files. */
  method AppendMarkdown(detailed: seq<string>, markdown: seq<FileInfo>) returns (r: seq<string>)
    ensures r == detailed + MarkdownBlock(markdown)
  {
    r := detailed;
    if markdown != [] {
      var header := MarkdownHeader(|markdown|);
      var ordered := SortMarkdown(markdown);
      r := r + header;
      r := AppendEntries(r, ordered);
      r := r + MarkdownFooter();
      AppendAssoc(detailed, header, MarkdownEntries(ordered), MarkdownFooter());
    }
  }

  /** `generate_detailed_summary(content, tree, summary)` */
  method GenerateDetailedSummary(content: string, tree: string, summary: string) returns (r: Result<string, PyError>)
    ensures r == DetailedSummary(content, tree, summary)
  {
    var lines := Split(content, '\n');
    var files := ParseDigest(lines);
    var analysis := AnalyzeFiles(files);
    if analysis.Err? {
      assert TechnologiesOf(files).Err?;
      assert TechnologiesOf(files).error == IndexError;
      return Err(IndexError);
    }
    var a := analysis.value;
    var detailed := Preamble(summary, files);
    detailed := AppendListing(detailed, files, a.categories);
    detailed := detailed + Heading("TECHNOLOGIES DETECTED");
    detailed := AppendTechnologies(detailed, a.technologies);
    detailed := detailed + Heading("PROJECT STRUCTURE") + [tree];
    detailed := detailed + Heading("KEY INSIGHTS") + Insights(files) + [Rule];
    detailed := AppendMarkdown(detailed, a.markdown);
    assert detailed == ReportLines(summary, tree, files, a.technologies);
    r := Ok(Join(detailed, '\n'));
  }

  // ---------------------------------------------------------------------
  // Properties of the report
  // ---------------------------------------------------------------------

  /** An empty category is omitted; otherwise a heading, at most ten bullets and an overflow line. */
  lemma CategoryBlockShape(c: Category, paths: seq<string>)
    ensures paths == [] <==> CategoryBlock(c, paths) == []
    ensures paths != [] ==>
      var r := CategoryBlock(c, paths);
      var shown := if |paths| <= 10 then |paths| else 10;
      && |r| == 1 + shown + (if |paths| > 10 then 1 else 0)
      && r[0] == CategoryHeading(c, |paths|)
      && (forall i :: 0 <= i < shown ==> r[1 + i] == Bullet(paths[i]))
  {
  }

  /** A bullet line is never taken for the overflow line. */
  lemma BulletIsNotOverflow(s: string)
    ensures !StartsWith(Bullet(s), OverflowPrefix)
  {
    assert Bullet(s)[2] == '\U{2022}';
    assert OverflowPrefix[2] == '.';
  }

  lemma HeadingIsNotOverflow(c: Category, n: nat)
    ensures !StartsWith(CategoryHeading(c, n), OverflowPrefix)
  {
    assert CategoryHeading(c, n)[0] == '\n';
    assert OverflowPrefix[0] == ' ';
  }

  /** The `... and k-10 more` line appears exactly when the category has more than ten files. */
  lemma OverflowIff(c: Category, paths: seq<string>)
    ensures (exists i :: 0 <= i < |CategoryBlock(c, paths)| && StartsWith(CategoryBlock(c, paths)[i], OverflowPrefix))
            <==> |paths| > 10
  {
    var r := CategoryBlock(c, paths);
    CategoryBlockShape(c, paths);
    HeadingIsNotOverflow(c, |paths|);
    if |paths| > 10 {
      var k := |r| - 1;
      assert r[k] == OverflowLine(|paths| - 10);
      assert r[k][..|OverflowPrefix|] == OverflowPrefix;
    } else if exists i :: 0 <= i < |r| && StartsWith(r[i], OverflowPrefix) {
      var i :| 0 <= i < |r| && StartsWith(r[i], OverflowPrefix);
      if i > 0 {
        assert r[1 + (i - 1)] == Bullet(paths[i - 1]);
        BulletIsNotOverflow(paths[i - 1]);
      }
    }
  }

  /** The technologies listed are at most twenty names of `technologies`, in ascending order. */
  lemma TechnologiesListed(techs: set<string>)
    ensures |Take(SortedOf(techs), 20)| == if |techs| <= 20 then |techs| else 20
    ensures StrictlySorted(Take(SortedOf(techs), 20))
    ensures forall x :: x in Take(SortedOf(techs), 20) ==> x in techs
  {
    var s := SortedOf(techs);
    var top := Take(s, 20);
    PrefixSorted(s, |top|);
    PrefixMembers(s, |top|);
  }

  lemma PrefixMembers(s: seq<string>, n: nat)
    requires n <= |s|
    ensures forall x :: x in s[..n] ==> x in s
  {
    forall x | x in s[..n]
      ensures x in s
    {
      var i :| 0 <= i < n && s[..n][i] == x;
      assert s[i] == x;
    }
  }

  lemma PrefixSorted(s: seq<string>, n: nat)
    requires StrictlySorted(s) && n <= |s|
    ensures StrictlySorted(s[..n])
  {
    assert forall i :: 0 <= i < n ==> s[..n][i] == s[i];
  }

  /** A name left out of the listing is greater than every name shown: the listing holds the smallest ones. */
  lemma TechnologiesSmallestShown(techs: set<string>, x: string, y: string)
    requires x in techs && x !in Take(SortedOf(techs), 20) && y in Take(SortedOf(techs), 20)
    ensures Less(y, x)
  {
    var s := SortedOf(techs);
    var top := Take(s, 20);
    var k :| 0 <= k < |s| && s[k] == x;
    var j :| 0 <= j < |top| && top[j] == y;
    assert s[j] == y;
    assert k >= |top|;
  }

  /** "Has Docker support: Yes" exactly when some Configuration path contains `Dockerfile`. */
  lemma DockerSupportIff(files: seq<FileInfo>)
    ensures DockerSupport(files) == "Yes" <==>
      exists i :: 0 <= i < |files| && InCategory(files[i].path, Docker)
  {
    var d := CategoryPaths(files, Docker);
    if d != [] {
      CategoryPathsMembers(files, Docker, d[0]);
    }
    if exists i :: 0 <= i < |files| && InCategory(files[i].path, Docker) {
      var i :| 0 <= i < |files| && InCategory(files[i].path, Docker);
      CategoryPathsMembers(files, Docker, files[i].path);
    }
  }

  /** The Markdown block is in the report exactly when some section's path ends in `.md`. */
  lemma MarkdownBlockIff(files: seq<FileInfo>)
    ensures MarkdownBlock(MarkdownFiles(files)) != [] <==>
      exists i :: 0 <= i < |files| && EndsWith(files[i].path, ".md")
  {
    MarkdownPresentIff(files);
  }

  lemma {:induction false} MarkdownEntriesLength(ms: seq<FileInfo>)
    ensures |MarkdownEntries(ms)| == 6 * |ms|
    decreases |ms|
  {
    if ms != [] {
      MarkdownEntriesLength(ms[..|ms| - 1]);
    }
  }

  /** The documentation entries follow the order `MarkdownOrder`: the six lines from `6 * i` on are the entry of file `i`. */
  lemma {:induction false} MarkdownEntriesLayout(ms: seq<FileInfo>, i: nat)
    requires i < |ms|
    ensures |MarkdownEntries(ms)| == 6 * |ms|
    ensures MarkdownEntries(ms)[6 * i..6 * i + 6] == MarkdownEntry(ms[i])
    decreases |ms|
  {
    MarkdownEntriesLength(ms);
    var init := ms[..|ms| - 1];
    var a, b := MarkdownEntries(init), MarkdownEntry(ms[|ms| - 1]);
    MarkdownEntriesLength(init);
    assert MarkdownEntries(ms) == a + b;
    if i < |init| {
      MarkdownEntriesLayout(init, i);
      SliceLeft(a, b, 6 * i, 6 * i + 6);
      assert init[i] == ms[i];
      assert MarkdownEntries(ms)[6 * i..6 * i + 6] == a[6 * i..6 * i + 6];
    } else {
      assert i == |init| && |a| == 6 * i && |b| == 6;
      SliceRight(a, b);
      assert MarkdownEntries(ms)[6 * i..6 * i + 6] == b;
    }
  }

  /** `generate_detailed_summary` raises exactly when some Python file has a scanned import line with no second word. */
  lemma SummaryFailsIff(content: string, tree: string, summary: string)
    ensures var files := Sections(Split(content, '\n'));
      DetailedSummary(content, tree, summary).Err? <==>
      exists i, k :: 0 <= i < |files| && Classify(files[i].path) == PythonCode
        && 0 <= k < |ScannedLines(files[i])| && ImportFails(ScannedLines(files[i])[k])
  {
    var files := Sections(Split(content, '\n'));
    TechnologiesErrIff(files);
    forall i | 0 <= i < |files|
      ensures PythonFails(files[i]) <==> (Classify(files[i].path) == PythonCode
        && exists k :: 0 <= k < |ScannedLines(files[i])| && ImportFails(ScannedLines(files[i])[k]))
    {
      ImportsErrIff(ScannedLines(files[i]));
    }
  }
}
