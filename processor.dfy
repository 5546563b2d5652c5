/**
 * `FileProcessor` of `src/processor.rs`: it builds the ignore handler and
 * the formatter from the command line, gathers the files named by the
 * inputs, and renders them. The file system is given as data: what each
 * path is (a file, a directory with the entries the walker yields, or
 * neither) and what reading each file gives.
 */
module Processor {
  import opened Wrappers
  import opened Text
  import opened Ordering
  import opened Paths
  import opened Errors
  import opened IgnoreHandler
  import opened Output
  import opened Cli
  import opened Seqs

  /** One entry yielded by the directory walker, with the answer of `is_file` for it. */
  datatype WalkEntry = WalkEntry(path: Path, isFile: bool)

  /** What `is_file` and `is_dir` say of an input, with the walk of a directory. */
  datatype Kind = RegularFile | Directory(entries: seq<WalkEntry>) | Neither

  /**
   * The file system as the program sees it. `probe` answers `is_file`/`is_dir`
   * for an input exactly as typed, so `a.rs/` may be `Neither` while `a.rs`
   * is a file; `read` answers `fs::read_to_string` for a collected file.
   */
  datatype FileSystem = FileSystem(probe: string -> Kind, read: Path -> ReadResult)

  datatype FileProcessor = FileProcessor(cli: Cli, handler: IgnoreHandler, formatter: OutputFormatter)

  /** How a run of `process` ends: an error, nothing to output, or the rendered document. */
  datatype Outcome =
    | Failed(message: string)
    | NoFiles(warnings: seq<string>)
    | Rendered(warnings: seq<string>, output: string)

  const NoInputs: string := "No input files or directories specified"

  /** `FileProcessor::new`: the only failure is an unknown output format. */
  function NewProcessor(cli: Cli): (r: Result<FileProcessor, FlattenError>)
    ensures r.Ok? <==> Lower(cli.outputFormat) == "full" || Lower(cli.outputFormat) == "tree"
    ensures r.Ok? ==> r.value.cli == cli
                      && r.value.handler == IgnoreHandler(GetIncludePatterns(cli), GetExcludePatterns(cli))
                      && (r.value.formatter.formatType == Full <==> Lower(cli.outputFormat) == "full")
    ensures r.Err? ==> r.error == Processing(UnknownFormat(cli.outputFormat))
  {
    var handler := IgnoreHandler(GetIncludePatterns(cli), GetExcludePatterns(cli));
    match NewFormatter(cli.outputFormat)
    case Ok(formatter) => Ok(FileProcessor(cli, handler, formatter))
    case Err(e) => Err(e)
  }

  /** The warning for an input that is neither a file nor a directory; it quotes the input at offset 10. */
  function Warning(input: string): (w: string)
    ensures |w| > 10 + |input| && w[10..10 + |input|] == input
  {
    var w := "Warning: '" + input + "' is not a valid file or directory";
    assert w == "Warning: '" + (input + "' is not a valid file or directory");
    w
  }

  /** Both filters a file must pass to be collected. */
  predicate Admits(proc: FileProcessor, glob: Glob, p: Path) {
    ShouldInclude(proc.handler, glob, p) && IsTextFile(p)
  }

  /** What one walker entry contributes: its path, when it is a file both filters admit. */
  function EntryFiles(proc: FileProcessor, glob: Glob): WalkEntry -> seq<Path> {
    (e: WalkEntry) => if e.isFile && Admits(proc, glob, e.path) then [e.path] else []
  }

  /** The walker entries that are files and pass both filters, in walk order. */
  function Picked(proc: FileProcessor, glob: Glob, entries: seq<WalkEntry>): seq<Path> {
    ConcatMap(EntryFiles(proc, glob), entries)
  }

  /** What `collect_files_from_directory` returns: the picked files, sorted. */
  function Collected(proc: FileProcessor, glob: Glob, entries: seq<WalkEntry>): seq<Path> {
    Sort(Picked(proc, glob, entries), PathLt)
  }

  /** `collect_files_from_directory`: keep the file entries both filters admit, then sort them. */
  method CollectFromDirectory(proc: FileProcessor, glob: Glob, entries: seq<WalkEntry>) returns (files: seq<Path>)
    ensures files == Collected(proc, glob, entries)
  {
    files := [];
    for i := 0 to |entries|
      invariant files == Picked(proc, glob, entries[..i])
    {
      ConcatMapSnoc(EntryFiles(proc, glob), entries, i);
      var path := entries[i].path;
      if entries[i].isFile && ShouldInclude(proc.handler, glob, path) && IsTextFile(path) {
        files := files + [path];
      }
    }
    assert entries[..|entries|] == entries;
    files := Sort(files, PathLt);
  }

  /** A path is picked exactly when some walker entry is a file at that path and both filters admit it. */
  lemma PickedMembers(proc: FileProcessor, glob: Glob, entries: seq<WalkEntry>, p: Path)
    ensures p in Picked(proc, glob, entries) <==>
            exists i :: 0 <= i < |entries| && entries[i].path == p && entries[i].isFile && Admits(proc, glob, p)
  {
    ConcatMapMembers(EntryFiles(proc, glob), entries, p);
  }

  /**
   * The files of one directory: exactly the admitted file entries, each as
   * often as the walker yields it, in ascending path order.
   */
  lemma CollectedSpec(proc: FileProcessor, glob: Glob, entries: seq<WalkEntry>, p: Path)
    ensures Sorted(Collected(proc, glob, entries), PathLt)
    ensures multiset(Collected(proc, glob, entries)) == multiset(Picked(proc, glob, entries))
    ensures p in Collected(proc, glob, entries) <==>
            exists i :: 0 <= i < |entries| && entries[i].path == p && entries[i].isFile && Admits(proc, glob, p)
  {
    PathLtOrder();
    SortSorted(Picked(proc, glob, entries), PathLt);
    PickedMembers(proc, glob, entries, p);
    assert p in Collected(proc, glob, entries) <==> p in multiset(Collected(proc, glob, entries));
  }

  /** The order in which the walker yields the entries does not change the result. */
  lemma WalkOrderIrrelevant(proc: FileProcessor, glob: Glob, a: seq<WalkEntry>, b: seq<WalkEntry>)
    requires multiset(a) == multiset(b)
    ensures Collected(proc, glob, a) == Collected(proc, glob, b)
  {
    PathLtOrder();
    ConcatMapPermutation(EntryFiles(proc, glob), a, b);
    SortUnique(Picked(proc, glob, a), Picked(proc, glob, b), PathLt);
  }

  /** What one input contributes to the list of files. */
  function InputFiles(proc: FileProcessor, glob: Glob, fs: FileSystem, input: string): (r: seq<Path>)
    ensures forall f :: f in r ==> Admits(proc, glob, f)
    ensures fs.probe(input).RegularFile? ==> (r == [ParsePath(input)] <==> Admits(proc, glob, ParsePath(input)))
    ensures fs.probe(input).RegularFile? && !Admits(proc, glob, ParsePath(input)) ==> r == []
    ensures fs.probe(input).Directory? ==> r == Collected(proc, glob, fs.probe(input).entries)
    ensures fs.probe(input).Neither? ==> r == []
  {
    var path := ParsePath(input);
    match fs.probe(input)
    case RegularFile => if Admits(proc, glob, path) then [path] else []
    case Directory(entries) =>
      var r := Collected(proc, glob, entries);
      assert forall f :: f in r ==> Admits(proc, glob, f) by {
        forall f | f in r ensures Admits(proc, glob, f) {
          CollectedSpec(proc, glob, entries, f);
        }
      }
      r
    case Neither => []
  }

  /** What one input contributes to the warnings. */
  function InputWarnings(fs: FileSystem, input: string): seq<string> {
    if fs.probe(input).Neither? then [Warning(input)] else []
  }

  function FilesOf(proc: FileProcessor, glob: Glob, fs: FileSystem): string -> seq<Path> {
    (input: string) => InputFiles(proc, glob, fs, input)
  }

  function WarningsOf(fs: FileSystem): string -> seq<string> {
    (input: string) => InputWarnings(fs, input)
  }

  /** The files of all inputs, one input after the other. */
  function AllFiles(proc: FileProcessor, glob: Glob, fs: FileSystem, inputs: seq<string>): seq<Path> {
    ConcatMap(FilesOf(proc, glob, fs), inputs)
  }

  function AllWarnings(fs: FileSystem, inputs: seq<string>): seq<string> {
    ConcatMap(WarningsOf(fs), inputs)
  }

  /** Every collected file passed both filters, so it has a file name and can be rendered. */
  lemma AllFilesAdmitted(proc: FileProcessor, glob: Glob, fs: FileSystem, inputs: seq<string>)
    ensures forall f :: f in AllFiles(proc, glob, fs, inputs) ==> Admits(proc, glob, f) && FileName(f).Some?
  {
    forall f | f in AllFiles(proc, glob, fs, inputs) ensures Admits(proc, glob, f) && FileName(f).Some? {
      ConcatMapMembers(FilesOf(proc, glob, fs), inputs, f);
      TextFileHasName(f);
    }
  }

  /** Inputs are handled one after another: the files of a concatenation are the files of each part, nothing merged. */
  lemma AllFilesAppend(proc: FileProcessor, glob: Glob, fs: FileSystem, a: seq<string>, b: seq<string>)
    ensures AllFiles(proc, glob, fs, a + b) == AllFiles(proc, glob, fs, a) + AllFiles(proc, glob, fs, b)
  {
    ConcatMapAppend(FilesOf(proc, glob, fs), a, b);
  }

  /** Naming the same input twice yields its files twice. */
  lemma RepeatedInputRepeats(proc: FileProcessor, glob: Glob, fs: FileSystem, input: string)
    ensures AllFiles(proc, glob, fs, [input, input]) == InputFiles(proc, glob, fs, input) + InputFiles(proc, glob, fs, input)
  {
    var f := FilesOf(proc, glob, fs);
    ConcatMapAppend(f, [input], [input]);
    assert [input] + [input] == [input, input];
    assert [input][..0] == [];
    assert ConcatMap(f, [input]) == f(input);
  }

  /** A warning is issued for exactly the inputs that are neither a file nor a directory. */
  lemma WarningsFromMissing(fs: FileSystem, inputs: seq<string>, w: string)
    ensures w in AllWarnings(fs, inputs) <==>
            exists i :: 0 <= i < |inputs| && fs.probe(inputs[i]).Neither? && w == Warning(inputs[i])
  {
    ConcatMapMembers(WarningsOf(fs), inputs, w);
  }

  /** What reading each file gives, in list order. */
  function ReadAll(fs: FileSystem, files: seq<Path>): (r: seq<ReadResult>)
    ensures |r| == |files|
  {
    seq(|files|, i requires 0 <= i < |files| => fs.read(files[i]))
  }

  /** What `format_files` renders for the collected files. */
  function Document(proc: FileProcessor, glob: Glob, fs: FileSystem, inputs: seq<string>): string {
    var files := AllFiles(proc, glob, fs, inputs);
    AllFilesAdmitted(proc, glob, fs, inputs);
    if proc.formatter.formatType == Tree then TreeDoc(files) else FullDoc(files, ReadAll(fs, files))
  }

  /** The outcome of `process`. */
  function ProcessResult(proc: FileProcessor, glob: Glob, fs: FileSystem): Outcome {
    var inputs := proc.cli.inputs;
    if |inputs| == 0 then Failed(NoInputs)
    else if |AllFiles(proc, glob, fs, inputs)| == 0 then NoFiles(AllWarnings(fs, inputs))
    else Rendered(AllWarnings(fs, inputs), Document(proc, glob, fs, inputs))
  }

  /** `process` up to the point where the output is handed on. */
  method Process(proc: FileProcessor, glob: Glob, fs: FileSystem) returns (outcome: Outcome)
    ensures outcome == ProcessResult(proc, glob, fs)
  {
    var inputs := proc.cli.inputs;
    if |inputs| == 0 {
      return Failed(NoInputs);
    }
    var allFiles: seq<Path> := [];
    var warnings: seq<string> := [];
    for k := 0 to |inputs|
      invariant allFiles == AllFiles(proc, glob, fs, inputs[..k])
      invariant warnings == AllWarnings(fs, inputs[..k])
    {
      ConcatMapSnoc(FilesOf(proc, glob, fs), inputs, k);
      ConcatMapSnoc(WarningsOf(fs), inputs, k);
      var input := inputs[k];
      var path := ParsePath(input);
      match fs.probe(input) {
        case RegularFile =>
          if ShouldInclude(proc.handler, glob, path) && IsTextFile(path) {
            allFiles := allFiles + [path];
          }
        case Directory(entries) =>
          var files := CollectFromDirectory(proc, glob, entries);
          allFiles := allFiles + files;
        case Neither =>
          warnings := warnings + [Warning(input)];
      }
    }
    assert inputs[..|inputs|] == inputs;
    if |allFiles| == 0 {
      return NoFiles(warnings);
    }
    AllFilesAdmitted(proc, glob, fs, inputs);
    forall i | 0 <= i < |allFiles| ensures Renderable(allFiles[i]) {
      assert allFiles[i] in allFiles;
    }
    var contents := ReadAll(fs, allFiles);
    var r := FormatFiles(proc.formatter, allFiles, contents);
    outcome := Rendered(warnings, r.value);
  }

  /** Nothing is rendered exactly when no input contributes a file; with at least one input, `process` does not fail. */
  lemma NothingFound(proc: FileProcessor, glob: Glob, fs: FileSystem)
    ensures ProcessResult(proc, glob, fs).Failed? <==> |proc.cli.inputs| == 0
    ensures ProcessResult(proc, glob, fs).NoFiles? <==>
            |proc.cli.inputs| > 0 && forall i :: 0 <= i < |proc.cli.inputs| ==> InputFiles(proc, glob, fs, proc.cli.inputs[i]) == []
  {
    var inputs := proc.cli.inputs;
    var all := AllFiles(proc, glob, fs, inputs);
    if |all| > 0 {
      ConcatMapMembers(FilesOf(proc, glob, fs), inputs, all[0]);
    }
    if exists i :: 0 <= i < |inputs| && InputFiles(proc, glob, fs, inputs[i]) != [] {
      var i :| 0 <= i < |inputs| && InputFiles(proc, glob, fs, inputs[i]) != [];
      var f := InputFiles(proc, glob, fs, inputs[i])[0];
      ConcatMapMembers(FilesOf(proc, glob, fs), inputs, f);
    }
  }
}
