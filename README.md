# flatten, modelled in Dafny

`flatten` turns a codebase into one Markdown document for a language model.
It takes a list of files and directories from the command line. It walks
each directory with a `.gitignore`-aware walker. It keeps the files that
pass the include/exclude glob patterns and a list of known text extensions
and file names. Then it renders them in one of two formats:

- `tree`: the file names grouped under their parent directories;
- `full`: a table of contents followed by every file's contents in a fenced
  code block.

This project models the core of that pipeline and proves what it promises.

- `ignore_handler.dfy` (`IgnoreHandler`) is the filter. It covers
  `should_include_file`, `is_text_file`, `is_flatten_md_file` and the two
  tables. Glob compilation and matching are a parameter
  `Glob = string -> Option<string -> bool>`: `None` is a pattern that fails to
  compile.
- `output.dfy` (`Output`) is the formatter.
  - `new` is a function, and `format_files` is a method that dispatches on
    the format.
  - `format_tree` and `format_full` are methods. They append to a string
    buffer in the source's loops, and each is proved equal to a document
    function (`TreeDoc`, `FullDoc`).
  - The properties of the output are lemmas about those functions.
  - The `BTreeMap` is an association list kept in ascending key order and
    updated by `Upsert`.
- `processor.dfy` (`Processor`) holds `FileProcessor::new`, the input loop of
  `process` and `collect_files_from_directory`, all as methods and
  functions. The file system is a value:
  - `probe` says whether an input, as typed, names a file, a directory (with
    the entries the walker yields for it) or neither;
  - `read` gives what `fs::read_to_string` returns for each file.
- `cli.dfy` (`Cli`) holds the accessors of the parsed command line.
- Supporting modules:
  - `paths.dfy` models Rust's `Path` as a sequence of components:
    `file_name`, `parent`, `extension`, `display`, `PathBuf::from`, and the
    component-wise order used by `sort` and `BTreeMap`.
  - `text.dfy` has ASCII lowercasing and trimming, `split`/`join`, and the
    decimal rendering of numbers.
  - `ordering.dfy` has strict total orders, lexicographic order, and sorting
    as a sorted permutation.
  - `seqs.dfy` has `ConcatMap`, the shape of "extend the list with each
    item's results".
  - `errors.dfy` has `FlattenError` and its message text. The message text
    is context only: no operation of the core depends on it.
  - `wrappers.dfy` has `Option` and `Result`.

Where the code and its description differ, the model follows the code:

- `process` reads `cli.inputs` directly, not `get_inputs()`. So an empty
  input list is the error "No input files or directories specified"; it does
  not fall back to `.`.
- The only file name always ignored is `flatten.md`, compared
  case-sensitively. No lock files are on that list.
- The include test comes first, then the exclude patterns, then the
  `flatten.md` rule.
- Only the files found under one directory input are sorted
  (src/processor.rs:77). The combined list keeps the inputs in command-line
  order, so it is not sorted as a whole (`AllFilesAppend`).

## Model

| member | source | states |
|---|---|---|
| IgnoreHandler.AnyMatches | src/ignore_handler.rs:101-119 | true exactly when some pattern of the list compiles and matches the path string |
| IgnoreHandler.ShouldInclude | src/ignore_handler.rs:97-127 | a path is included iff (the include list is empty or some include pattern matches) and no exclude pattern matches and its file name is not exactly `flatten.md` |
| IgnoreHandler.EmptyIncludeSkipped | src/ignore_handler.rs:101 | with no include patterns only the exclude patterns and the `flatten.md` rule decide |
| IgnoreHandler.IncludeMissRejects | src/ignore_handler.rs:101-110 | with a non-empty include list that nothing matches, the path is rejected whatever the exclude list holds |
| IgnoreHandler.ExcludeWins | src/ignore_handler.rs:113-119 | any matching exclude pattern rejects the path, even when an include pattern matched |
| IgnoreHandler.BadPatternIgnored | src/ignore_handler.rs:103-115 | a pattern that fails to compile, inserted anywhere in the exclude list or added to a non-empty include list, changes no decision |
| IgnoreHandler.FlattenMdRejected | src/ignore_handler.rs:141-145 | a path whose file name is `flatten.md` is never included, in any directory; `FLATTEN.md` is not caught by this rule |
| IgnoreHandler.IsFlattenMd | src/ignore_handler.rs:141-145 | true exactly when the last component is `flatten.md`, compared case-sensitively |
| IgnoreHandler.IsTextFile | src/ignore_handler.rs:129-139 | with an extension, text iff the lowercased extension is in `TEXT_EXTENSIONS`; without one, text iff the lowercased file name is in `TEXT_FILENAMES`; no file name, not text |
| IgnoreHandler.ExtensionLower | src/ignore_handler.rs:130-131 | lowercasing a name and taking its extension commute |
| IgnoreHandler.IsTextFileCaseInsensitive | src/ignore_handler.rs:130-135 | two paths whose file names differ only in letter case are classified alike |
| IgnoreHandler.ExtensionDecides | src/ignore_handler.rs:130-132 | when both paths have an extension, only the lowercased extension matters; the file-name list is not consulted |
| IgnoreHandler.MakefileIsText | src/ignore_handler.rs:64-72 | `Makefile` has no extension and is text through the file-name list |
| IgnoreHandler.GitignoreIsNotText | src/ignore_handler.rs:129-139 | `.gitignore` has no extension (a leading dot does not start one) and is not text |
| IgnoreHandler.TextFileHasName | src/ignore_handler.rs:136-138 | a path that is text has a file name |
| Output.UnknownFormat | src/output.rs:21-23 | the unknown-format message quotes the input as given, at a fixed offset |
| Output.NewFormatter | src/output.rs:16-28 | succeeds iff the lowercased format is `full` or `tree`, choosing Full iff it is `full`; otherwise a Processing error quoting the original input |
| Output.NewFormatterExamples | src/output.rs:17-24 | `TREE` and `Full` are accepted, `Xml` is rejected with its original spelling |
| Output.Upsert | src/output.rs:46-48 | `entry(dir).or_insert_with(Vec::new).push(name)`: the map grows by at most one entry and afterwards has an entry for `dir` (its ordering and contents are stated by `UpsertKeys` and `UpsertNames`) |
| Output.UpsertKeys | src/output.rs:46-47 | inserting into the ordered map keeps keys strictly ascending, adds the directory as a key and no other |
| Output.UpsertNames | src/output.rs:46-48 | the pushed name is appended to its directory's names only; every other key's names are unchanged |
| Output.GroupsKeys | src/output.rs:42-50 | the keys are exactly the distinct parents of the files, strictly ascending in path order |
| Output.GroupsNames | src/output.rs:44-50 | the names under a key are the names of the files with that parent, in input order, duplicates kept |
| Output.GroupsTotal | src/output.rs:44-49 | the map holds one name per file that has a parent: nothing merged, nothing dropped |
| Output.BlockNamesSorted | src/output.rs:53 | each directory's names are listed as a sorted permutation of those stored for it |
| Output.TreeDocFrame | src/output.rs:38-62 | tree output starts with `# File Tree`, a blank line and an opening fence, and ends with a closing fence line |
| Output.GroupByParent | src/output.rs:42-50 | the first loop builds exactly the map of `GroupsKeys`/`GroupsNames` |
| Output.AppendNameLines | src/output.rs:55-57 | appends one `  name` line per name, in order |
| Output.AppendBlock | src/output.rs:52-59 | appends `dir:`, the sorted name lines and a blank line |
| Output.AppendBlocks | src/output.rs:52-59 | appends the blocks of all directories in key order |
| Output.FormatTree | src/output.rs:37-63 | the buffer ends equal to the tree document of the files |
| Output.WithNewline | src/output.rs:92-95 | the body keeps the content as a prefix and ends in a newline; a newline is added exactly when the content did not end in one |
| Output.FullDocCount | src/output.rs:68-69 | full output opens with the heading and `Total files: N`, and N reads back as the number of files |
| Output.TocLineNewlines | src/output.rs:74-79 | when the path contains no newline, each table-of-contents line is exactly one line |
| Output.TocLineCount | src/output.rs:72-80 | when no path contains a newline, the table of contents has one line per file, `i. [path](#file-i)` for i from 1 |
| Output.ReadErrorIsLocal | src/output.rs:98-100 | a failed read turns its own section into `Error reading file: msg`, and every other section is unchanged |
| Output.TocTextIsConcat | src/output.rs:73-80 | building the table of contents line by line gives the concatenation of its lines |
| Output.SectionsTextIsConcat | src/output.rs:84-102 | building the sections file by file gives the concatenation of the sections |
| Output.AppendToc | src/output.rs:73-80 | the first loop appends the table of contents |
| Output.AppendSection | src/output.rs:85-101 | appends `## File i: path`, then a fence tagged with the extension around the content (with a final newline), or the error line |
| Output.AppendSections | src/output.rs:84-102 | the second loop appends the section of every file in order |
| Output.FormatFull | src/output.rs:65-105 | the buffer ends equal to the full document of the files and their read results |
| Output.FormatFiles | src/output.rs:30-35 | renders with the format fixed at construction, and always returns `Ok` |
| Processor.NewProcessor | src/processor.rs:14-26 | builds the handler from the include/exclude options and succeeds iff the format is known; otherwise it is the formatter's error, before any input is examined |
| Processor.Warning | src/processor.rs:48 | the warning quotes the input as given |
| Processor.CollectFromDirectory | src/processor.rs:63-79 | returns the walker entries that are files and pass both filters, sorted |
| Processor.PickedMembers | src/processor.rs:66-75 | a path is picked iff some walker entry is a file at that path and both filters admit it |
| Processor.CollectedSpec | src/processor.rs:63-79 | a directory's result is sorted, a permutation of the picked entries (each kept as often as the walker yields it), and holds exactly the admitted file entries |
| Processor.WalkOrderIrrelevant | src/processor.rs:77 | any reordering of the walker's entries gives the same result |
| Processor.InputFiles | src/processor.rs:36-49 | a file input is kept iff it passes both filters; a directory contributes exactly what `collect_files_from_directory` returns for its entries; anything else contributes nothing; every contributed file passes both filters |
| Processor.AllFilesAdmitted | src/processor.rs:38-46 | every collected file passes both filters and has a file name, so the tree renderer can name it |
| Processor.AllFilesAppend | src/processor.rs:33-50 | the files of a list of inputs are the files of each input concatenated in input order |
| Processor.RepeatedInputRepeats | src/processor.rs:35-50 | naming an input twice yields its files twice: no deduplication |
| Processor.WarningsFromMissing | src/processor.rs:47-49 | a warning is issued exactly for the inputs that are neither a file nor a directory |
| Processor.Process | src/processor.rs:28-61 | the outcome is the error for no inputs, the no-files outcome, or the rendered document of the collected files with the warnings issued |
| Processor.NothingFound | src/processor.rs:29-55 | `process` fails iff there are no inputs; nothing is rendered iff there are inputs and none contributes a file |
| Cli.GetInputs | src/cli.rs:32-38 | never empty: the inputs unchanged, or `["."]` when there are none |
| Cli.GetOutputFile | src/cli.rs:40-42 | the `--file` name, or `flatten.md` |
| Cli.DefaultOutputNotCollected | src/cli.rs:40-42 | the default output file is never included as an input, in any directory |
| Cli.SplitPatterns | src/cli.rs:47 | one entry per comma-separated piece (commas plus one); each entry is its piece with the surrounding whitespace cut off, so it is trimmed and comma-free |
| Cli.PatternsStripped | src/cli.rs:47 | pieces joined with `,` read back as the patterns they hold, whatever whitespace surrounds each piece (`" *.rs , *.go"` gives `*.rs`, `*.go`) |
| Cli.PatternsJoin | src/cli.rs:47 | when no piece has surrounding whitespace, joining the patterns with `,` gives back the option's text |
| Cli.PatternsSplit | src/cli.rs:47 | trimmed comma-free patterns joined with `,` are read back unchanged |
| Cli.PatternCounts | src/cli.rs:47 | `""` gives one empty pattern and `"a,,b"` gives three |
| Cli.GetIncludePatterns | src/cli.rs:44-49 | empty iff `--include` is absent; otherwise the split, trimmed option text, commas plus one entries |
| Cli.GetExcludePatterns | src/cli.rs:51-56 | the same for `--exclude` |
| Errors.Message | src/error.rs:10-18 | the display text ends with the carried message (context only) |
| Paths.FileName | src/ignore_handler.rs:133 | the last component, present iff there is one and it is not `.` or `..` |
| Paths.Display | src/output.rs:54 | `display()`: the components joined with `/` (its round trips are `ParseDisplay` and `DisplayParse`) |
| Paths.Parent | src/output.rs:45 | all but the last component, present iff the path is not empty |
| Paths.Extension | src/ignore_handler.rs:130 | present iff there is a dot after the first character; it is the dot-free text after the last dot |
| Paths.ParsePath | src/processor.rs:36 | the components of a path string are well formed |
| Paths.ParseDisplay | src/processor.rs:36 | parsing the display of a well-formed path gives the path back |
| Paths.DisplayParse | src/ignore_handler.rs:98 | a path string in normal form is displayed exactly as written |
| Paths.PathLtOrder | src/processor.rs:77 | the path order used by `sort` and `BTreeMap` is a strict total order |
| Paths.ComponentWiseNotBytewise | src/output.rs:42 | paths are ordered component by component, not as byte strings |
| Ordering.Insert | src/processor.rs:77 | inserting one element adds exactly that element to the multiset |
| Ordering.Sort | src/processor.rs:77 | `slice::sort` (also src/output.rs:53): the result is a permutation of the input; `SortSorted` shows it is sorted |
| Ordering.SortSorted | src/processor.rs:77 | sorting yields a sorted sequence |
| Ordering.SortedUnique | src/processor.rs:77 | two sorted sequences with the same elements are equal |
| Ordering.SortUnique | src/processor.rs:77 | the sorted result depends only on the elements, not their order |
| Text.Lower | src/ignore_handler.rs:131 | `to_lowercase` on ASCII: same length, each character lowercased in place |
| Text.LowerIdempotent | src/ignore_handler.rs:131 | lowercasing twice is lowercasing once |
| Text.Trim | src/cli.rs:47 | the string with whitespace cut off both ends: leading whitespace, then the result, then trailing whitespace make up the input, and the result neither starts nor ends with whitespace |
| Text.StripsToTrim | src/cli.rs:47 | the trim is the only whitespace-free-ended string the input is made of with whitespace around it |
| Text.TrimNoNewChars | src/cli.rs:47 | trimming only removes characters |
| Text.Split | src/cli.rs:47 | `str::split(',')`: one piece more than there are separators, and no piece holds the separator |
| Text.JoinSplit | src/cli.rs:47 | joining the pieces of a split gives back the string |
| Text.SplitJoin | src/cli.rs:47 | splitting a join of separator-free pieces gives back the pieces |
| Text.NatToString | src/output.rs:69 | `{}` of a `usize`: a non-empty string of digits with no leading zero |
| Text.DecimalRoundTrip | src/output.rs:69 | the decimal rendering of a count reads back as the count |
| Seqs.ConcatMapAppend | src/processor.rs:45-46 | extending a list input by input distributes over concatenation of the inputs |
| Seqs.ConcatMapPermutation | src/processor.rs:66-77 | reordering the inputs of an extend loop only reorders its result |
| Seqs.ConcatMapMembers | src/processor.rs:42-46 | an element of the result comes from some input's contribution, and every contributed element is there |

## Left out

- `walk_files` is not modelled: it only configures an external `.gitignore`-aware walker. Its output is given as the `entries` of a directory. Walker errors are dropped by the source and never reach the model.
- Glob compilation and matching are not modelled: they belong to an external library. The `Glob` parameter stands for them.
- `handle_output` is not modelled. It writes to a file, to stdout or to the clipboard. As written it also matches `Some(..)` against the `String` that `get_output_file` returns. `Process` ends by returning the rendered document.
- `is_file`, `is_dir` and `fs::read_to_string` are not modelled as calls. They are the values `probe` and `read` of a `FileSystem`. `probe` is keyed on the input string as typed, so `a.rs/` can be neither a file nor a directory while `a.rs` is a file, as the operating system decides. The tree format never reads files, so its output does not depend on `read`.
- The `eprintln!`/`println!` messages are not printed. They appear as the `warnings` of the outcome and as the `NoFiles` outcome.
- `main` and the clap derive of `Cli` are not modelled: they are argument parsing and wiring. A `Cli` value is given.
- Unicode is not modelled. `to_lowercase`, `trim` and `is_whitespace` are modelled on ASCII, and `to_string_lossy` is the identity on `string`.
- Paths are modelled as normalised relative component lists. `Display` joins the components with `/`. So an input string with a doubled or trailing `/`, or a `.` inside it, shows in its normalised form where Rust shows it as typed (`DisplayParse` states when the two agree). Absolute paths and Windows prefixes are left out.
- `slice::sort` and `BTreeMap` are not modelled as in-place structures. They are specified by what they produce: `Sort` (a sorted permutation) and `Upsert` (an association list in ascending key order).
- Output.FormatTree: requires every file to have a file name or no parent. Otherwise the source's `file_name().unwrap()` panics. `AllFilesAdmitted` shows that every file `process` collects meets this.
- Processor.Process: does not model the `?` on `format_files`, because `format_files` never returns an error.
- Processor.CollectFromDirectory: returns the file list without a `Result`, because the source never returns its error case.
