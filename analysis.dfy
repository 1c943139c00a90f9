/**
 * The second phase of `generate_detailed_summary`: the loop over
 * `files_info` that sorts each path into `file_categories` by its suffix,
 * collects the Python import names into the set `technologies`, and keeps
 * the Markdown files for the report.
 *
 * `Analyze` is the specification; `AnalyzeFiles` is the source's loop,
 * proved to compute it. A line `import ` or `from ` with no second word
 * makes `line.split()[1]` raise `IndexError`, which the model returns as
 * `Err(IndexError)`.
 */
module Analysis {
  import opened Seqs
  import opened Wrappers
  import opened PyStr
  import opened Digest

  /** The keys of `file_categories`. */
  datatype Category = Documentation | Configuration | PythonCode | Scripts | Markup | Docker | Other

  /** The keys of `file_categories` in the dictionary's insertion (and iteration) order. */
  const CategoryOrder: seq<Category> :=
    [Documentation, Configuration, PythonCode, Scripts, Markup, Docker, Other]

  function CategoryName(c: Category): string {
    match c
    case Documentation => "Documentation"
    case Configuration => "Configuration"
    case PythonCode => "Python Code"
    case Scripts => "JavaScript/TypeScript"
    case Markup => "HTML/CSS"
    case Docker => "Docker"
    case Other => "Other"
  }

  const DocSuffixes: seq<string> := [".md", ".txt", ".rst"]
  const ConfigSuffixes: seq<string> :=
    [".json", ".yaml", ".yml", ".toml", ".ini", ".cfg", ".env", "Dockerfile", "docker-compose.yml"]
  const PythonSuffix: string := ".py"
  const ScriptSuffixes: seq<string> := [".js", ".jsx", ".ts", ".tsx"]
  const MarkupSuffixes: seq<string> := [".html", ".css", ".scss"]

  /** The branch of the source's `if`/`elif` chain a path takes: the first suffix test that matches. */
  function Classify(path: string): Category {
    if EndsWithAny(path, DocSuffixes) then Documentation
    else if EndsWithAny(path, ConfigSuffixes) then Configuration
    else if EndsWith(path, PythonSuffix) then PythonCode
    else if EndsWithAny(path, ScriptSuffixes) then Scripts
    else if EndsWithAny(path, MarkupSuffixes) then Markup
    else Other
  }

  /** Whether a path is appended to `file_categories[c]`; Docker is tested inside the Configuration branch. */
  predicate InCategory(path: string, c: Category) {
    if c == Docker then Classify(path) == Configuration && Contains(path, "Dockerfile")
    else Classify(path) == c
  }

  /** `file_categories[c]` after the loop over `files`. */
  function CategoryPaths(files: seq<FileInfo>, c: Category): (r: seq<string>)
    ensures |r| <= |files|
    decreases |files|
  {
    if files == [] then []
    else
      var last := files[|files| - 1];
      CategoryPaths(files[..|files| - 1], c) + (if InCategory(last.path, c) then [last.path] else [])
  }

  /** `markdown_files` after the loop over `files`. */
  function MarkdownFiles(files: seq<FileInfo>): seq<FileInfo>
    decreases |files|
  {
    if files == [] then []
    else
      var last := files[|files| - 1];
      MarkdownFiles(files[..|files| - 1])
      + (if Classify(last.path) == Documentation && EndsWith(last.path, ".md") then [last] else [])
  }

  /** The exception `line.split()[1]` raises. */
  datatype PyError = IndexError

  /** Python's text for the exception, `str(e)`. */
  function ErrorText(e: PyError): string {
    "list index out of range"
  }

  predicate IsImportLine(line: string) {
    StartsWith(line, "import ") || StartsWith(line, "from ")
  }

  /** `line.split()[1].split('.')[0]`, or the `IndexError` of a line with one word. */
  function ImportName(line: string): (r: Result<string, PyError>)
    ensures r.Err? <==> |Words(line)| < 2
    ensures r.Ok? ==> '.' !in r.value && NoSpace(r.value)
    ensures r.Ok? ==> StartsWith(Words(line)[1], r.value)
  {
    var ws := Words(line);
    if |ws| < 2 then Err(IndexError)
    else
      SplitFirstIsPrefix(ws[1], '.');
      Ok(Split(ws[1], '.')[0])
  }

  /** `content.split('\n')[:50]`: the lines of a Python file that are scanned for imports. */
  function ScannedLines(f: FileInfo): (r: seq<string>)
    ensures |r| <= 50
  {
    var all := Split(f.content, '\n');
    if |all| <= 50 then all else all[..50]
  }

  /** The names the import lines among `lines` add to `technologies`. */
  function ImportsIn(lines: seq<string>): Result<set<string>, PyError>
    decreases |lines|
  {
    if lines == [] then Ok({})
    else
      match ImportsIn(lines[..|lines| - 1])
      case Err(e) => Err(e)
      case Ok(t) =>
        var l := lines[|lines| - 1];
        if !IsImportLine(l) then Ok(t)
        else match ImportName(l)
          case Err(e) => Err(e)
          case Ok(n) => Ok(t + {n})
  }

  /** `technologies` after the loop over `files`, or the `IndexError` that ends it. */
  function TechnologiesOf(files: seq<FileInfo>): Result<set<string>, PyError>
    decreases |files|
  {
    if files == [] then Ok({})
    else
      match TechnologiesOf(files[..|files| - 1])
      case Err(e) => Err(e)
      case Ok(t) =>
        var last := files[|files| - 1];
        if Classify(last.path) != PythonCode then Ok(t)
        else match ImportsIn(ScannedLines(last))
          case Err(e) => Err(e)
          case Ok(u) => Ok(t + u)
  }

  /** What the analysis loop leaves behind. */
  datatype Analysis = Analysis(
    categories: map<Category, seq<string>>,
    technologies: set<string>,
    markdown: seq<FileInfo>)

  /** The dictionary `file_categories` after the loop over `files`. */
  function Categories(files: seq<FileInfo>): map<Category, seq<string>> {
    map c | c in CategoryOrder :: CategoryPaths(files, c)
  }

  /** Each key of `file_categories` holds the paths of its category. */
  lemma CategoriesAt(files: seq<FileInfo>, c: Category)
    ensures c in Categories(files) && Categories(files)[c] == CategoryPaths(files, c)
  {
    assert c in CategoryOrder by {
      match c
      case Documentation => assert CategoryOrder[0] == c;
      case Configuration => assert CategoryOrder[1] == c;
      case PythonCode => assert CategoryOrder[2] == c;
      case Scripts => assert CategoryOrder[3] == c;
      case Markup => assert CategoryOrder[4] == c;
      case Docker => assert CategoryOrder[5] == c;
      case Other => assert CategoryOrder[6] == c;
    }
  }

  /** Specification of the analysis loop. */
  function Analyze(files: seq<FileInfo>): Result<Analysis, PyError> {
    match TechnologiesOf(files)
    case Err(e) => Err(e)
    case Ok(t) => Ok(Analysis(Categories(files), t, MarkdownFiles(files)))
  }

  lemma {:induction false} ImportsErrPersists(lines: seq<string>, k: nat)
    requires k <= |lines| && ImportsIn(lines[..k]).Err?
    ensures ImportsIn(lines).Err?
    decreases |lines| - k
  {
    if k < |lines| {
      assert lines[..k + 1][..k] == lines[..k];
      ImportsErrPersists(lines, k + 1);
    } else {
      assert lines[..k] == lines;
    }
  }

  lemma {:induction false} TechnologiesErrPersists(files: seq<FileInfo>, k: nat)
    requires k <= |files| && TechnologiesOf(files[..k]).Err?
    ensures TechnologiesOf(files).Err?
    decreases |files| - k
  {
    if k < |files| {
      assert files[..k + 1][..k] == files[..k];
      TechnologiesErrPersists(files, k + 1);
    } else {
      assert files[..k] == files;
    }
  }

  /** The import scan of one Python file, accumulating into `technologies`. */
  method ScanImports(lines: seq<string>, before: set<string>) returns (r: Result<set<string>, PyError>)
    ensures ImportsIn(lines).Err? ==> r == Err(IndexError)
    ensures ImportsIn(lines).Ok? ==> r == Ok(before + ImportsIn(lines).value)
  {
    var technologies := before;
    for k := 0 to |lines|
      invariant ImportsIn(lines[..k]).Ok?
      invariant technologies == before + ImportsIn(lines[..k]).value
    {
      var line := lines[k];
      assert lines[..k + 1][..k] == lines[..k];
      if StartsWith(line, "import ") || StartsWith(line, "from ") {
        var ws := Words(line);
        if |ws| < 2 {
          ImportsErrPersists(lines, k + 1);
          return Err(IndexError);
        }
        technologies := technologies + {Split(ws[1], '.')[0]};
      }
    }
    assert lines[..|lines|] == lines;
    r := Ok(technologies);
  }

  /** `cats` holds exactly the seven keys, each with the paths of its category among `files`. */
  predicate CategoriesMatch(cats: map<Category, seq<string>>, files: seq<FileInfo>) {
    (forall c :: c in cats <==> c in CategoryOrder)
    && forall c :: c in CategoryOrder ==> cats[c] == CategoryPaths(files, c)
  }

  lemma CategoriesOfMatch(cats: map<Category, seq<string>>, files: seq<FileInfo>)
    requires CategoriesMatch(cats, files)
    ensures cats == Categories(files)
  {
    var m := Categories(files);
    assert cats.Keys == m.Keys;
    assert forall c :: c in cats ==> cats[c] == m[c];
  }

  /** One file of the loop: appended to its branch's list, and to Docker as well when it qualifies. */
  lemma AddPathStep(cats: map<Category, seq<string>>, files: seq<FileInfo>, f: FileInfo)
    requires CategoriesMatch(cats, files)
    ensures var k := Classify(f.path);
            var once := cats[k := cats[k] + [f.path]];
            CategoriesMatch(if InCategory(f.path, Docker) then once[Docker := once[Docker] + [f.path]] else once,
                            files + [f])
  {
    var files' := files + [f];
    assert files'[..|files'| - 1] == files;
  }

  /** What one more file adds to the Markdown list and to the technologies. */
  lemma SnocStep(done: seq<FileInfo>, f: FileInfo)
    ensures MarkdownFiles(done + [f])
      == MarkdownFiles(done) + (if Classify(f.path) == Documentation && EndsWith(f.path, ".md") then [f] else [])
    ensures TechnologiesOf(done + [f])
      == match TechnologiesOf(done)
         case Err(e) => Err(e)
         case Ok(t) =>
           if Classify(f.path) != PythonCode then Ok(t)
           else match ImportsIn(ScannedLines(f))
             case Err(e) => Err(e)
             case Ok(u) => Ok(t + u)
  {
    var s := done + [f];
    assert s[..|s| - 1] == done;
  }

  /**
   * One pass of the loop over `files_info`, for the file `f` after the files
   * `done`: its path is filed under the first matching branch (and under
   * Docker too for a configuration file whose path contains `Dockerfile`), a
   * `.md` documentation file is kept, and a Python file's imports are scanned.
   */
  method AnalyzeFile(done: seq<FileInfo>, f: FileInfo, sofar: Analysis) returns (r: Result<Analysis, PyError>)
    requires CategoriesMatch(sofar.categories, done)
    requires TechnologiesOf(done) == Ok(sofar.technologies)
    requires sofar.markdown == MarkdownFiles(done)
    ensures r.Err? ==> TechnologiesOf(done + [f]) == Err(r.error)
    ensures r.Ok? ==> && CategoriesMatch(r.value.categories, done + [f])
                      && TechnologiesOf(done + [f]) == Ok(r.value.technologies)
                      && r.value.markdown == MarkdownFiles(done + [f])
  {
    var path := f.path;
    SnocStep(done, f);
    AddPathStep(sofar.categories, done, f);
    var cats, technologies, markdown := sofar.categories, sofar.technologies, sofar.markdown;
    if EndsWithAny(path, DocSuffixes) {
      assert Classify(path) == Documentation;
      cats := cats[Documentation := cats[Documentation] + [path]];
      if EndsWith(path, ".md") {
        markdown := markdown + [f];
      }
    } else if EndsWithAny(path, ConfigSuffixes) {
      assert Classify(path) == Configuration;
      cats := cats[Configuration := cats[Configuration] + [path]];
      if Contains(path, "Dockerfile") {
        cats := cats[Docker := cats[Docker] + [path]];
      }
    } else if EndsWith(path, PythonSuffix) {
      assert Classify(path) == PythonCode && !InCategory(path, Docker);
      cats := cats[PythonCode := cats[PythonCode] + [path]];
      var lines := ScannedLines(f);
      var scanned := ScanImports(lines, technologies);
      if scanned.Err? {
        assert ImportsIn(lines).Err?;
        var e := ImportsIn(lines).error;
        assert e == IndexError;
        assert TechnologiesOf(done + [f]) == Err(e);
        return Err(IndexError);
      }
      technologies := scanned.value;
    } else if EndsWithAny(path, ScriptSuffixes) {
      assert Classify(path) == Scripts && !InCategory(path, Docker);
      cats := cats[Scripts := cats[Scripts] + [path]];
    } else if EndsWithAny(path, MarkupSuffixes) {
      assert Classify(path) == Markup && !InCategory(path, Docker);
      cats := cats[Markup := cats[Markup] + [path]];
    } else {
      assert Classify(path) == Other && !InCategory(path, Docker);
      cats := cats[Other := cats[Other] + [path]];
    }
    r := Ok(Analysis(cats, technologies, markdown));
  }

  /** The source's loop over `files_info`. */
  method AnalyzeFiles(files: seq<FileInfo>) returns (r: Result<Analysis, PyError>)
    ensures r == Analyze(files)
  {
    var cats: map<Category, seq<string>> := map[
      Documentation := [], Configuration := [], PythonCode := [], Scripts := [],
      Markup := [], Docker := [], Other := []];
    var technologies: set<string> := {};
    var markdown: seq<FileInfo> := [];
    for i := 0 to |files|
      invariant CategoriesMatch(cats, files[..i])
      invariant TechnologiesOf(files[..i]) == Ok(technologies)
      invariant markdown == MarkdownFiles(files[..i])
    {
      assert files[..i + 1] == files[..i] + [files[i]];
      var step := AnalyzeFile(files[..i], files[i], Analysis(cats, technologies, markdown));
      if step.Err? {
        TechnologiesErrPersists(files, i + 1);
        assert Analyze(files) == Err(IndexError) by {
          var e := TechnologiesOf(files).error;
          assert e == IndexError;
        }
        return Err(IndexError);
      }
      cats, technologies, markdown := step.value.categories, step.value.technologies, step.value.markdown;
    }
    assert files[..|files|] == files;
    CategoriesOfMatch(cats, files);
    r := Ok(Analysis(cats, technologies, markdown));
  }

  // ---------------------------------------------------------------------
  // Properties of the analysis
  // ---------------------------------------------------------------------

  /** The six categories other than Docker, which together take every file once. */
  function PrimaryCount(files: seq<FileInfo>): nat {
    |CategoryPaths(files, Documentation)| + |CategoryPaths(files, Configuration)|
    + |CategoryPaths(files, PythonCode)| + |CategoryPaths(files, Scripts)|
    + |CategoryPaths(files, Markup)| + |CategoryPaths(files, Other)|
  }

  /** Every file lands in exactly one of the six primary categories, so their sizes add up to `total_files`. */
  lemma {:induction false} CategoriesPartition(files: seq<FileInfo>)
    ensures PrimaryCount(files) == |files|
    decreases |files|
  {
    if files != [] {
      CategoriesPartition(files[..|files| - 1]);
    }
  }

  /** The paths of a list that contain `Dockerfile`, in order. */
  function WithDockerfile(paths: seq<string>): seq<string> {
    if paths == [] then []
    else
      WithDockerfile(paths[..|paths| - 1])
      + (if Contains(paths[|paths| - 1], "Dockerfile") then [paths[|paths| - 1]] else [])
  }

  /** Docker is exactly the Configuration paths that contain `Dockerfile`, in the same order. */
  lemma {:induction false} DockerWithinConfiguration(files: seq<FileInfo>)
    ensures CategoryPaths(files, Docker) == WithDockerfile(CategoryPaths(files, Configuration))
    decreases |files|
  {
    if files != [] {
      var init, last := files[..|files| - 1], files[|files| - 1];
      DockerWithinConfiguration(init);
      var conf := CategoryPaths(init, Configuration);
      if Classify(last.path) == Configuration {
        var conf' := conf + [last.path];
        assert CategoryPaths(files, Configuration) == conf';
        assert conf'[..|conf'| - 1] == conf;
        assert conf'[|conf'| - 1] == last.path;
        assert WithDockerfile(conf') == WithDockerfile(conf)
          + (if Contains(last.path, "Dockerfile") then [last.path] else []);
      } else {
        assert CategoryPaths(files, Configuration) == conf;
        assert CategoryPaths(files, Docker) == CategoryPaths(init, Docker);
      }
    }
  }

  /** Each category lists its paths in input order: the paths of the files that fall into it. */
  lemma {:induction false} CategoryPathsMembers(files: seq<FileInfo>, c: Category, p: string)
    ensures p in CategoryPaths(files, c) <==> exists i :: 0 <= i < |files| && files[i].path == p && InCategory(p, c)
    decreases |files|
  {
    if files != [] {
      var init, last := files[..|files| - 1], files[|files| - 1];
      CategoryPathsMembers(init, c, p);
      assert CategoryPaths(files, c) == CategoryPaths(init, c) + (if InCategory(last.path, c) then [last.path] else []);
      ExistsSnoc(files, init, (f: FileInfo) => f.path == p && InCategory(p, c));
    }
  }

  /** A `.md` file is always Documentation, whatever else its name contains. */
  lemma MarkdownIsDocumentation(path: string)
    requires EndsWith(path, ".md")
    ensures Classify(path) == Documentation
  {
  }

  /** A path ending in `Dockerfile` is Configuration (and so Docker). */
  lemma DockerfileIsConfiguration(path: string)
    requires EndsWith(path, "Dockerfile")
    ensures Classify(path) == Configuration
    ensures InCategory(path, Docker)
  {
    var n := |path|;
    assert path[n - 1] == 'e';
    forall i | 0 <= i < |DocSuffixes|
      ensures !EndsWith(path, DocSuffixes[i])
    {
      var p := DocSuffixes[i];
      assert p[|p| - 1] != 'e';
    }
    EndsWithAnyIff(path, DocSuffixes);
    EndsWithAnyIff(path, ConfigSuffixes);
    assert EndsWith(path, ConfigSuffixes[7]);
    SuffixContained(path, "Dockerfile");
  }

  lemma {:induction false} SuffixContained(s: string, p: string)
    requires EndsWith(s, p)
    ensures Contains(s, p)
    decreases |s|
  {
    if |s| > |p| {
      assert s[1..][|s| - 1 - |p|..] == s[|s| - |p|..];
      SuffixContained(s[1..], p);
    } else {
      assert s[..|p|] == s[|s| - |p|..];
    }
  }

  /** The Markdown block of the report has something to show exactly when some path ends in `.md`. */
  lemma {:induction false} MarkdownPresentIff(files: seq<FileInfo>)
    ensures MarkdownFiles(files) != [] <==> exists i :: 0 <= i < |files| && EndsWith(files[i].path, ".md")
    decreases |files|
  {
    if files != [] {
      var init, last := files[..|files| - 1], files[|files| - 1];
      MarkdownPresentIff(init);
      if EndsWith(last.path, ".md") {
        MarkdownIsDocumentation(last.path);
      }
      ExistsSnoc(files, init, (f: FileInfo) => EndsWith(f.path, ".md"));
    }
  }

  /**
   * An import line raises `IndexError` exactly when nothing but whitespace
   * follows its `import ` or `from `.
   */
  lemma ImportLineFails(line: string)
    requires IsImportLine(line)
    ensures var rest := if StartsWith(line, "import ") then line[7..] else line[5..];
            ImportName(line).Err? <==> forall k :: 0 <= k < |rest| ==> IsSpace(rest[k])
  {
    if StartsWith(line, "import ") {
      assert line == "import" + [' '] + line[7..];
      WordsAfterKeyword("import", ' ', line[7..]);
      WordsEmptyIff(line[7..]);
    } else {
      assert line == "from" + [' '] + line[5..];
      WordsAfterKeyword("from", ' ', line[5..]);
      WordsEmptyIff(line[5..]);
    }
  }

  /** The name taken from an import line is the part of its second word before the first `.`. */
  lemma ImportNameOfModule(kw: string, x: string)
    requires kw == "import" || kw == "from"
    requires Words(x) != []
    ensures ImportName(kw + " " + x) == Ok(Split(Words(x)[0], '.')[0])
  {
    var line := kw + [' '] + x;
    assert kw + " " + x == line;
    KeywordsHaveNoSpace();
    WordsAfterKeyword(kw, ' ', x);
    var ws := Words(line);
    assert |ws| >= 2 && ws[1] == Words(x)[0];
  }

  lemma KeywordsHaveNoSpace()
    ensures NoSpace("import") && NoSpace("from")
  {
    assert forall k :: 0 <= k < 6 ==> 'a' <= "import"[k] <= 'z';
    assert forall k :: 0 <= k < 4 ==> 'a' <= "from"[k] <= 'z';
  }

  /** An import line whose second word cannot be found. */
  predicate ImportFails(line: string) {
    IsImportLine(line) && ImportName(line).Err?
  }

  /** An import line that contributes the name `x`. */
  predicate ImportYields(line: string, x: string) {
    IsImportLine(line) && ImportName(line) == Ok(x)
  }

  /** The import scan of a file fails exactly when one of the scanned lines is an import line with no second word. */
  lemma {:induction false} ImportsErrIff(lines: seq<string>)
    ensures ImportsIn(lines).Err? <==> exists k :: 0 <= k < |lines| && ImportFails(lines[k])
    decreases |lines|
  {
    if lines != [] {
      var init, l := lines[..|lines| - 1], lines[|lines| - 1];
      ImportsErrIff(init);
      assert ImportsIn(lines).Err? <==> ImportsIn(init).Err? || ImportFails(l);
      ExistsSnoc(lines, init, ImportFails);
    }
  }

  /** A successful scan yields exactly the names of the file's import lines. */
  lemma {:induction false} ImportsValue(lines: seq<string>)
    requires ImportsIn(lines).Ok?
    ensures forall x :: x in ImportsIn(lines).value <==> exists k :: 0 <= k < |lines| && ImportYields(lines[k], x)
    decreases |lines|
  {
    if lines != [] {
      var init, l := lines[..|lines| - 1], lines[|lines| - 1];
      assert ImportsIn(init).Ok?;
      ImportsValue(init);
      var before := ImportsIn(init).value;
      assert ImportsIn(lines).value == before + (if IsImportLine(l) then {ImportName(l).value} else {});
      forall x
        ensures x in ImportsIn(lines).value <==> exists k :: 0 <= k < |lines| && ImportYields(lines[k], x)
      {
        ExistsSnoc(lines, init, line => ImportYields(line, x));
      }
    }
  }

  /** For a section of the digest, the scanned lines are the first 50 of its own lines. */
  lemma ScannedLinesOfSection(path: string, body: seq<string>)
    requires |body| > 0
    requires forall i :: 0 <= i < |body| ==> '\n' !in body[i]
    ensures ScannedLines(MakeFile(path, body)) == if |body| <= 50 then body else body[..50]
  {
    SplitJoin(body, '\n');
  }

  /** A Python file whose import scan raises. */
  predicate PythonFails(f: FileInfo) {
    Classify(f.path) == PythonCode && ImportsIn(ScannedLines(f)).Err?
  }

  /** A Python file whose import scan succeeds and finds the name `x`. */
  predicate PythonYields(f: FileInfo, x: string) {
    Classify(f.path) == PythonCode && ImportsIn(ScannedLines(f)).Ok? && x in ImportsIn(ScannedLines(f)).value
  }

  /** The analysis raises exactly when the import scan of some Python file raises. */
  lemma {:induction false} TechnologiesErrIff(files: seq<FileInfo>)
    ensures TechnologiesOf(files).Err? <==> exists i :: 0 <= i < |files| && PythonFails(files[i])
    decreases |files|
  {
    if files != [] {
      var init, last := files[..|files| - 1], files[|files| - 1];
      TechnologiesErrIff(init);
      assert TechnologiesOf(files).Err? <==> TechnologiesOf(init).Err? || PythonFails(last);
      ExistsSnoc(files, init, PythonFails);
    }
  }

  /** Without an error, `technologies` is exactly the union of the names found in the Python files. */
  lemma {:induction false} TechnologiesValue(files: seq<FileInfo>)
    requires TechnologiesOf(files).Ok?
    ensures forall x :: x in TechnologiesOf(files).value <==> exists i :: 0 <= i < |files| && PythonYields(files[i], x)
    decreases |files|
  {
    if files != [] {
      var init, last := files[..|files| - 1], files[|files| - 1];
      assert TechnologiesOf(init).Ok?;
      TechnologiesValue(init);
      var before := TechnologiesOf(init).value;
      forall x
        ensures x in TechnologiesOf(files).value <==> exists i :: 0 <= i < |files| && PythonYields(files[i], x)
      {
        assert x in TechnologiesOf(files).value <==> x in before || PythonYields(last, x);
        ExistsSnoc(files, init, f => PythonYields(f, x));
      }
    }
  }
}
