/**
 * The accessors of `Cli` in `src/cli.rs`. The argument parsing that fills
 * the record is not modelled: a `Cli` value is given.
 */
module Cli {
  import opened Wrappers
  import opened Text
  import opened Paths
  import opened IgnoreHandler

  /** The parsed command line; `outputFormat` is `"full"` when the option is not given. */
  datatype Cli = Cli(
    inputs: seq<string>,
    outputFormat: string,
    file: Option<string>,
    printToStdout: bool,
    includeOption: Option<string>,
    excludeOption: Option<string>)

  /** `get_inputs`: the inputs as given, or the current directory when there are none. */
  function GetInputs(c: Cli): (r: seq<string>)
    ensures |r| > 0
    ensures |c.inputs| > 0 ==> r == c.inputs
    ensures |c.inputs| == 0 ==> r == [CurDir]
  {
    if |c.inputs| == 0 then [CurDir] else c.inputs
  }

  /** `get_output_file`: the name given with `--file`, or `flatten.md`. */
  function GetOutputFile(c: Cli): (r: string)
    ensures c.file.Some? ==> r == c.file.value
    ensures c.file.None? ==> r == FlattenMd
  {
    match c.file
    case Some(name) => name
    case None => FlattenMd
  }

  /** The default output file is never picked up as an input file, in whatever directory it lies. */
  lemma DefaultOutputNotCollected(c: Cli, h: IgnoreHandler, glob: Glob, dir: Path)
    requires c.file.None?
    ensures !ShouldInclude(h, glob, dir + [GetOutputFile(c)])
  {
    var p := dir + [GetOutputFile(c)];
    assert p[|p| - 1] == FlattenMd;
  }

  /**
   * `s.split(',').map(|s| s.trim())`: one pattern per comma-separated piece,
   * which is that piece with its surrounding whitespace cut off.
   */
  function SplitPatterns(s: string): (r: seq<string>)
    ensures |r| == CountChar(s, ',') + 1
    ensures forall i :: 0 <= i < |r| ==> Trimmed(r[i]) && ',' !in r[i]
    ensures forall i :: 0 <= i < |r| ==> StripsTo(Split(s, ',')[i], r[i])
  {
    var parts := Split(s, ',');
    var r := seq(|parts|, i requires 0 <= i < |parts| => Trim(parts[i]));
    forall i | 0 <= i < |r| ensures ',' !in r[i] {
      TrimNoNewChars(parts[i], ',');
    }
    r
  }

  /** When no piece has surrounding whitespace, joining the patterns with `,` gives back the option's text. */
  lemma PatternsJoin(s: string)
    requires forall i :: 0 <= i < |Split(s, ',')| ==> Trimmed(Split(s, ',')[i])
    ensures Join(SplitPatterns(s), ',') == s
  {
    var parts := Split(s, ',');
    forall i | 0 <= i < |parts| ensures SplitPatterns(s)[i] == parts[i] {
      TrimOfTrimmed(parts[i]);
    }
    assert SplitPatterns(s) == parts;
    JoinSplit(s, ',');
  }

  /** Trimmed, comma-free patterns written out with `,` are read back as they were. */
  lemma PatternsSplit(patterns: seq<string>)
    requires |patterns| > 0
    requires forall i :: 0 <= i < |patterns| ==> Trimmed(patterns[i]) && ',' !in patterns[i]
    ensures SplitPatterns(Join(patterns, ',')) == patterns
  {
    SplitJoin(patterns, ',');
    var s := Join(patterns, ',');
    forall i | 0 <= i < |patterns| ensures SplitPatterns(s)[i] == patterns[i] {
      TrimOfTrimmed(patterns[i]);
    }
  }

  /** `get_include_patterns`: empty exactly when `--include` is absent; a present but empty option is one empty pattern. */
  function GetIncludePatterns(c: Cli): (r: seq<string>)
    ensures |r| == 0 <==> c.includeOption.None?
    ensures c.includeOption.Some? ==> |r| == CountChar(c.includeOption.value, ',') + 1
    ensures c.includeOption.Some? ==> r == SplitPatterns(c.includeOption.value)
    ensures forall i :: 0 <= i < |r| ==> Trimmed(r[i]) && ',' !in r[i]
  {
    match c.includeOption
    case Some(patterns) => SplitPatterns(patterns)
    case None => []
  }

  /** `get_exclude_patterns`: the same reading of `--exclude`. */
  function GetExcludePatterns(c: Cli): (r: seq<string>)
    ensures |r| == 0 <==> c.excludeOption.None?
    ensures c.excludeOption.Some? ==> |r| == CountChar(c.excludeOption.value, ',') + 1
    ensures c.excludeOption.Some? ==> r == SplitPatterns(c.excludeOption.value)
    ensures forall i :: 0 <= i < |r| ==> Trimmed(r[i]) && ',' !in r[i]
  {
    match c.excludeOption
    case Some(patterns) => SplitPatterns(patterns)
    case None => []
  }

  /**
   * Pieces written out with `,` are read back as the patterns they hold,
   * whatever whitespace surrounds them: `" *.rs , *.go"` gives `*.rs` and `*.go`.
   */
  lemma PatternsStripped(pieces: seq<string>, patterns: seq<string>)
    requires |pieces| == |patterns| > 0
    requires forall i :: 0 <= i < |pieces| ==> ',' !in pieces[i]
    requires forall i :: 0 <= i < |pieces| ==> StripsTo(pieces[i], patterns[i]) && Trimmed(patterns[i])
    ensures SplitPatterns(Join(pieces, ',')) == patterns
  {
    SplitJoin(pieces, ',');
    var s := Join(pieces, ',');
    forall i | 0 <= i < |pieces| ensures SplitPatterns(s)[i] == patterns[i] {
      StripsToTrim(pieces[i], patterns[i]);
    }
  }

  /** `--include ""` is one empty pattern, and `"a,,b"` three. */
  lemma PatternCounts()
    ensures SplitPatterns("") == [""]
    ensures |SplitPatterns("a,,b")| == 3
  {
    assert CountChar("a,,b", ',') == 2;
  }
}
