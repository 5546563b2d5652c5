/**
 * The file filter of `src/ignore_handler.rs`: which paths are kept
 * (`should_include_file`) and which count as text (`is_text_file`).
 * The glob library is a parameter: `Glob(pattern)` is `glob::Pattern::new`
 * (None when the pattern does not compile) and the matcher it returns is
 * `Pattern::matches` on the path's display string.
 */
module IgnoreHandler {
  import opened Wrappers
  import opened Text
  import opened Paths

  type Matcher = string -> bool
  type Glob = string -> Option<Matcher>

  /** The handler holds its two pattern lists and never changes them. */
  datatype IgnoreHandler = IgnoreHandler(includePatterns: seq<string>, excludePatterns: seq<string>)

  const TextExtensions: seq<string> := [
    "rs", "go", "js", "ts", "py", "java", "cpp", "c", "h", "hpp", "cs", "php", "rb",
    "swift", "kt", "scala", "clj", "hs", "ml", "fs", "dart", "nim", "zig", "v", "odin",
    "txt", "md", "rst", "toml", "yaml", "yml", "json", "xml", "html", "css", "scss",
    "sass", "less", "sql", "sh", "bash", "zsh", "fish", "ps1", "psm1", "bat", "cmd",
    "dockerfile", "gitignore", "gitattributes", "editorconfig"
  ]

  const TextFilenames: seq<string> := [
    "dockerfile", "makefile", "rakefile", "gemfile", "procfile", "justfile", "taskfile"
  ]

  /** The name of the tool's own default output file. */
  const FlattenMd: string := "flatten.md"

  /** One pattern against a path string; a pattern that does not compile matches nothing. */
  function PatternMatches(glob: Glob, pattern: string, s: string): bool {
    match glob(pattern)
    case Some(m) => m(s)
    case None => false
  }

  /** `patterns.iter().any(..)`, and the early-return loop over the exclude patterns. */
  function AnyMatches(glob: Glob, patterns: seq<string>, s: string): (r: bool)
    ensures r <==> exists i :: 0 <= i < |patterns| && PatternMatches(glob, patterns[i], s)
    decreases |patterns|
  {
    if |patterns| == 0 then false
    else if PatternMatches(glob, patterns[0], s) then true
    else
      var r := AnyMatches(glob, patterns[1..], s);
      assert forall i :: 1 <= i < |patterns| ==> patterns[i] == patterns[1..][i - 1];
      r
  }

  /** `is_flatten_md_file`: the file name is exactly `flatten.md`, case-sensitively. */
  function IsFlattenMd(p: Path): (r: bool)
    ensures r <==> |p| > 0 && p[|p| - 1] == FlattenMd
  {
    FileName(p) == Some(FlattenMd)
  }

  /** `should_include_file`. */
  function ShouldInclude(h: IgnoreHandler, glob: Glob, p: Path): (r: bool)
    ensures r <==>
      && (|h.includePatterns| == 0 ||
          exists i :: 0 <= i < |h.includePatterns| && PatternMatches(glob, h.includePatterns[i], Display(p)))
      && !(exists i :: 0 <= i < |h.excludePatterns| && PatternMatches(glob, h.excludePatterns[i], Display(p)))
      && FileName(p) != Some(FlattenMd)
  {
    var s := Display(p);
    if |h.includePatterns| > 0 && !AnyMatches(glob, h.includePatterns, s) then false
    else if AnyMatches(glob, h.excludePatterns, s) then false
    else if IsFlattenMd(p) then false
    else true
  }

  /** `is_text_file`: the extension decides when there is one, the file name otherwise. */
  function IsTextFile(p: Path): (r: bool)
    ensures FileName(p).None? ==> !r
    ensures PathExtension(p).Some? ==> (r <==> Lower(PathExtension(p).value) in TextExtensions)
    ensures PathExtension(p).None? && FileName(p).Some? ==> (r <==> Lower(FileName(p).value) in TextFilenames)
  {
    match PathExtension(p)
    case Some(ext) => Lower(ext) in TextExtensions
    case None =>
      match FileName(p)
      case Some(name) => Lower(name) in TextFilenames
      case None => false
  }

  /** With no include patterns the include test is skipped entirely. */
  lemma EmptyIncludeSkipped(h: IgnoreHandler, glob: Glob, p: Path)
    requires |h.includePatterns| == 0
    ensures ShouldInclude(h, glob, p) <==>
      !AnyMatches(glob, h.excludePatterns, Display(p)) && !IsFlattenMd(p)
  {
  }

  /** A path no include pattern matches is rejected, whatever the exclude list holds. */
  lemma IncludeMissRejects(h: IgnoreHandler, glob: Glob, p: Path)
    requires |h.includePatterns| > 0
    requires forall i :: 0 <= i < |h.includePatterns| ==> !PatternMatches(glob, h.includePatterns[i], Display(p))
    ensures !ShouldInclude(h, glob, p)
  {
  }

  /** Exclude wins: an exclude match rejects the path even when an include pattern matched. */
  lemma ExcludeWins(h: IgnoreHandler, glob: Glob, p: Path, i: nat)
    requires i < |h.excludePatterns|
    requires PatternMatches(glob, h.excludePatterns[i], Display(p))
    ensures !ShouldInclude(h, glob, p)
  {
  }

  /** `flatten.md` is always rejected; a different letter case is not caught by this rule. */
  lemma FlattenMdRejected(h: IgnoreHandler, glob: Glob, dir: Path)
    ensures !ShouldInclude(h, glob, dir + [FlattenMd])
    ensures !IsFlattenMd(dir + ["FLATTEN.md"])
  {
    assert FileName(dir + [FlattenMd]) == Some(FlattenMd);
  }

  /** A pattern that does not compile changes nothing: it may be added to either list without effect. */
  lemma {:induction false} BadPatternIgnored(h: IgnoreHandler, glob: Glob, p: Path, bad: string, k: nat)
    requires glob(bad).None?
    requires k <= |h.excludePatterns|
    ensures var excl := h.excludePatterns[..k] + [bad] + h.excludePatterns[k..];
            ShouldInclude(h.(excludePatterns := excl), glob, p) == ShouldInclude(h, glob, p)
    ensures |h.includePatterns| > 0 ==>
            ShouldInclude(h.(includePatterns := h.includePatterns + [bad]), glob, p) == ShouldInclude(h, glob, p)
  {
    var s := Display(p);
    var excl := h.excludePatterns[..k] + [bad] + h.excludePatterns[k..];
    assert AnyMatches(glob, excl, s) == AnyMatches(glob, h.excludePatterns, s) by {
      if AnyMatches(glob, excl, s) {
        var i :| 0 <= i < |excl| && PatternMatches(glob, excl[i], s);
        var j := if i < k then i else i - 1;
        assert excl[i] == h.excludePatterns[j];
      }
      if AnyMatches(glob, h.excludePatterns, s) {
        var i :| 0 <= i < |h.excludePatterns| && PatternMatches(glob, h.excludePatterns[i], s);
        var j := if i < k then i else i + 1;
        assert excl[j] == h.excludePatterns[i];
      }
    }
    var incl := h.includePatterns + [bad];
    assert AnyMatches(glob, incl, s) == AnyMatches(glob, h.includePatterns, s) by {
      if AnyMatches(glob, incl, s) {
        var i :| 0 <= i < |incl| && PatternMatches(glob, incl[i], s);
        assert i < |h.includePatterns| && incl[i] == h.includePatterns[i];
      }
      if AnyMatches(glob, h.includePatterns, s) {
        var i :| 0 <= i < |h.includePatterns| && PatternMatches(glob, h.includePatterns[i], s);
        assert incl[i] == h.includePatterns[i];
      }
    }
  }

  lemma {:induction false} LastDotLower(s: string)
    ensures LastDot(Lower(s)) == LastDot(s)
    decreases |s|
  {
    if |s| > 0 {
      assert Lower(s)[..|s| - 1] == Lower(s[..|s| - 1]);
      LastDotLower(s[..|s| - 1]);
    }
  }

  /** Lowercasing commutes with taking the extension. */
  lemma ExtensionLower(name: string)
    ensures Extension(Lower(name)).Some? == Extension(name).Some?
    ensures Extension(name).Some? ==> Extension(Lower(name)).value == Lower(Extension(name).value)
  {
    LastDotLower(name);
    match LastDot(name)
    case None =>
    case Some(i) =>
      assert Lower(name)[i + 1..] == Lower(name[i + 1..]);
  }

  /**
   * `is_text_file` is case-insensitive: two paths whose file names differ only
   * in letter case (`Makefile`, `MAKEFILE`, `makefile`; `README.MD`,
   * `readme.md`) are classified alike.
   */
  lemma IsTextFileCaseInsensitive(p: Path, q: Path)
    requires FileName(p).Some? && FileName(q).Some?
    requires Lower(FileName(p).value) == Lower(FileName(q).value)
    ensures IsTextFile(p) == IsTextFile(q)
  {
    var a, b := FileName(p).value, FileName(q).value;
    ExtensionLower(a);
    ExtensionLower(b);
    if Extension(a).Some? {
      LowerIdempotent(Extension(a).value);
      LowerIdempotent(Extension(b).value);
    } else {
      LowerIdempotent(a);
      LowerIdempotent(b);
    }
  }

  /** When there is an extension the file-name list is not consulted: only the extension's case-folded text matters. */
  lemma ExtensionDecides(p: Path, q: Path)
    requires PathExtension(p).Some? && PathExtension(q).Some?
    requires Lower(PathExtension(p).value) == Lower(PathExtension(q).value)
    ensures IsTextFile(p) == IsTextFile(q)
  {
  }

  /** `Makefile` has no extension and its lowercased name is on the file-name list. */
  lemma MakefileIsText()
    ensures PathExtension(["Makefile"]).None? && IsTextFile(["Makefile"])
  {
    assert LastDot("Makefile").None?;
    assert Lower("Makefile") == "makefile" == TextFilenames[1];
  }

  /** `.gitignore` has no extension and its name is not on the file-name list, so it is not text. */
  lemma GitignoreIsNotText()
    ensures PathExtension([".gitignore"]).None? && !IsTextFile([".gitignore"])
  {
    assert LastDot(".gitignore") == Some(0);
  }

  /** A path that is text has a file name, so `file_name().unwrap()` cannot fail on it. */
  lemma TextFileHasName(p: Path)
    requires IsTextFile(p)
    ensures FileName(p).Some?
  {
  }
}
