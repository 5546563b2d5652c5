/**
 * `OutputFormatter` of `src/output.rs`: a format chosen once at
 * construction and the two renderers, each of which builds one string by
 * appending to it. `fs::read_to_string` is not called here: the result of
 * reading each file is given, in the order of the file list.
 */
module Output {
  import opened Wrappers
  import opened Text
  import opened Ordering
  import opened Paths
  import opened Errors

  datatype FormatType = Full | Tree

  datatype OutputFormatter = OutputFormatter(formatType: FormatType)

  /** What reading one file gave: its text, or the message of the I/O error. */
  type ReadResult = Result<string, string>

  /** The message of the unknown-format error: the input is quoted as given, at offset 16. */
  function UnknownFormat(format: string): (m: string)
    ensures |m| > 16 + |format| && m[16..16 + |format|] == format
  {
    var m := "Unknown format: " + format + ". Use 'full' or 'tree'";
    assert m == "Unknown format: " + (format + ". Use 'full' or 'tree'");
    m
  }

  /** `OutputFormatter::new`: `full` and `tree` in any letter case; anything else is a Processing error quoting the input as given. */
  function NewFormatter(format: string): (r: Result<OutputFormatter, FlattenError>)
    ensures r.Ok? <==> Lower(format) == "full" || Lower(format) == "tree"
    ensures r.Ok? ==> (r.value.formatType == Full <==> Lower(format) == "full")
    ensures r.Err? ==> r.error == Processing(UnknownFormat(format))
  {
    match Lower(format)
    case "full" => Ok(OutputFormatter(Full))
    case "tree" => Ok(OutputFormatter(Tree))
    case _ => Err(Processing(UnknownFormat(format)))
  }

  lemma NewFormatterExamples()
    ensures NewFormatter("TREE") == Ok(OutputFormatter(Tree))
    ensures NewFormatter("Full") == Ok(OutputFormatter(Full))
    ensures NewFormatter("Xml") == Err(Processing(UnknownFormat("Xml")))
  {
    assert Lower("TREE") == "tree";
    assert Lower("Full") == "full";
    assert Lower("Xml") == "xml";
  }

  // ---------------------------------------------------------------- tree

  /** A path the tree renderer can name: `file_name().unwrap()` is reached only when there is a parent. */
  predicate Renderable(p: Path) {
    Parent(p).None? || FileName(p).Some?
  }

  /** One entry of the `BTreeMap` from a parent directory to the names pushed under it. */
  datatype DirGroup = DirGroup(dir: Path, names: seq<string>)

  function Dirs(tree: seq<DirGroup>): (ds: seq<Path>)
    ensures |ds| == |tree|
  {
    seq(|tree|, i requires 0 <= i < |tree| => tree[i].dir)
  }

  /** The names stored under `d`, or none. */
  function NamesOf(tree: seq<DirGroup>, d: Path): seq<string>
    decreases |tree|
  {
    if |tree| == 0 then [] else if tree[0].dir == d then tree[0].names else NamesOf(tree[1..], d)
  }

  /**
   * `tree.entry(dir).or_insert_with(Vec::new).push(name)` on a `BTreeMap`,
   * whose entries are kept in ascending key order.
   */
  function Upsert(tree: seq<DirGroup>, dir: Path, name: string): (r: seq<DirGroup>)
    ensures |tree| <= |r| <= |tree| + 1
    ensures exists i :: 0 <= i < |r| && r[i].dir == dir
    decreases |tree|
  {
    if |tree| == 0 then
      var r := [DirGroup(dir, [name])];
      assert r[0].dir == dir;
      r
    else if tree[0].dir == dir then
      var r := [tree[0].(names := tree[0].names + [name])] + tree[1..];
      assert r[0].dir == dir;
      r
    else if PathLt(dir, tree[0].dir) then
      var r := [DirGroup(dir, [name])] + tree;
      assert r[0].dir == dir;
      r
    else
      var rest := Upsert(tree[1..], dir, name);
      var r := [tree[0]] + rest;
      assert forall i :: 0 <= i < |rest| ==> r[i + 1] == rest[i];
      r
  }

  lemma {:induction false} NamesOfAbsent(tree: seq<DirGroup>, d: Path)
    requires d !in Dirs(tree)
    ensures NamesOf(tree, d) == []
    decreases |tree|
  {
    if |tree| > 0 {
      assert Dirs(tree[1..]) == Dirs(tree)[1..];
      assert tree[0].dir == Dirs(tree)[0];
      NamesOfAbsent(tree[1..], d);
    }
  }

  /** Every key of a strictly sorted map that is not its first is above the first. */
  lemma FirstKeyLeast(tree: seq<DirGroup>, d: Path)
    requires StrictTotalOrder(PathLt)
    requires StrictlySorted(Dirs(tree), PathLt)
    requires |tree| > 0 && d in Dirs(tree[1..])
    ensures PathLt(tree[0].dir, d)
  {
    assert Dirs(tree[1..]) == Dirs(tree)[1..];
    var k :| 0 <= k < |Dirs(tree[1..])| && Dirs(tree[1..])[k] == d;
    assert PathLt(Dirs(tree)[0], Dirs(tree)[k + 1]);
  }

  /** A key below the first key of a strictly sorted map can go in front. */
  lemma PrependKeySorted(tree: seq<DirGroup>, g: DirGroup)
    requires StrictTotalOrder(PathLt)
    requires StrictlySorted(Dirs(tree), PathLt)
    requires |tree| > 0 && PathLt(g.dir, tree[0].dir)
    ensures StrictlySorted(Dirs([g] + tree), PathLt)
  {
    assert Dirs([g] + tree) == [g.dir] + Dirs(tree);
    forall i | 0 <= i < |tree| ensures PathLt(g.dir, Dirs(tree)[i]) {
      if i > 0 {
        assert PathLt(Dirs(tree)[0], Dirs(tree)[i]);
      }
    }
  }

  /** A first entry whose key is below every key of a strictly sorted map keeps it strictly sorted. */
  lemma ConsKeySorted(first: DirGroup, rest: seq<DirGroup>)
    requires StrictlySorted(Dirs(rest), PathLt)
    requires forall d :: d in Dirs(rest) ==> PathLt(first.dir, d)
    ensures StrictlySorted(Dirs([first] + rest), PathLt)
  {
    assert Dirs([first] + rest) == [first.dir] + Dirs(rest);
    forall j | 0 <= j < |rest| ensures PathLt(first.dir, Dirs(rest)[j]) {
      assert Dirs(rest)[j] in Dirs(rest);
    }
  }

  /** Upsert keeps the keys strictly ascending and adds `dir` as a key, and nothing else. */
  lemma {:induction false} UpsertKeys(tree: seq<DirGroup>, dir: Path, name: string)
    requires StrictTotalOrder(PathLt)
    requires StrictlySorted(Dirs(tree), PathLt)
    ensures StrictlySorted(Dirs(Upsert(tree, dir, name)), PathLt)
    ensures forall d :: d in Dirs(Upsert(tree, dir, name)) <==> d in Dirs(tree) || d == dir
    ensures |Upsert(tree, dir, name)| <= |tree| + 1
    decreases |tree|
  {
    var r := Upsert(tree, dir, name);
    if |tree| == 0 {
      assert Dirs(r) == [dir];
    } else if tree[0].dir == dir {
      assert Dirs(r) == Dirs(tree) && Dirs(tree)[0] == dir;
    } else if PathLt(dir, tree[0].dir) {
      PrependKeySorted(tree, DirGroup(dir, [name]));
      assert Dirs(r) == [dir] + Dirs(tree);
    } else {
      var rest := Upsert(tree[1..], dir, name);
      assert Dirs(tree[1..]) == Dirs(tree)[1..];
      UpsertKeys(tree[1..], dir, name);
      assert Dirs(tree) == [tree[0].dir] + Dirs(tree[1..]);
      forall d | d in Dirs(rest) ensures PathLt(tree[0].dir, d) {
        if d != dir {
          FirstKeyLeast(tree, d);
        }
      }
      ConsKeySorted(tree[0], rest);
      assert r == [tree[0]] + rest;
      assert Dirs(r) == [tree[0].dir] + Dirs(rest);
    }
  }

  /** Upsert appends `name` to the names under `dir` and leaves every other key's names as they were. */
  lemma {:induction false} UpsertNames(tree: seq<DirGroup>, dir: Path, name: string)
    requires StrictTotalOrder(PathLt)
    requires StrictlySorted(Dirs(tree), PathLt)
    ensures forall d :: NamesOf(Upsert(tree, dir, name), d) == NamesOf(tree, d) + (if d == dir then [name] else [])
    decreases |tree|
  {
    var r := Upsert(tree, dir, name);
    if |tree| == 0 {
    } else if tree[0].dir == dir {
      assert r[1..] == tree[1..];
    } else if PathLt(dir, tree[0].dir) {
      assert r[1..] == tree;
      forall i | 0 <= i < |tree| ensures Dirs(tree)[i] != dir {
        if i > 0 {
          assert PathLt(Dirs(tree)[0], Dirs(tree)[i]);
        }
      }
      NamesOfAbsent(tree, dir);
    } else {
      assert Dirs(tree[1..]) == Dirs(tree)[1..];
      UpsertNames(tree[1..], dir, name);
      assert r[1..] == Upsert(tree[1..], dir, name);
    }
  }

  /** The map after pushing every file of `files` under its parent, in input order. */
  function Groups(files: seq<Path>): seq<DirGroup>
    requires forall i :: 0 <= i < |files| ==> Renderable(files[i])
    decreases |files|
  {
    if |files| == 0 then []
    else
      var last := files[|files| - 1];
      assert Renderable(last);
      var tree := Groups(files[..|files| - 1]);
      match Parent(last)
      case Some(dir) => Upsert(tree, dir, FileName(last).value)
      case None => tree
  }

  /** Names of the files whose parent is `d`, in input order, duplicates kept. */
  function NamesUnder(files: seq<Path>, d: Path): seq<string>
    requires forall i :: 0 <= i < |files| ==> Renderable(files[i])
    decreases |files|
  {
    if |files| == 0 then []
    else
      var last := files[|files| - 1];
      assert Renderable(last);
      NamesUnder(files[..|files| - 1], d) + (if Parent(last) == Some(d) then [FileName(last).value] else [])
  }

  /**
   * The keys of the tree renderer's map: every distinct parent directory is
   * a key exactly once, and keys ascend in path order.
   */
  lemma {:induction false} GroupsKeys(files: seq<Path>)
    requires forall i :: 0 <= i < |files| ==> Renderable(files[i])
    ensures StrictlySorted(Dirs(Groups(files)), PathLt)
    ensures forall d :: d in Dirs(Groups(files)) <==> exists i :: 0 <= i < |files| && Parent(files[i]) == Some(d)
    decreases |files|
  {
    PathLtOrder();
    if |files| > 0 {
      var init := files[..|files| - 1];
      var last := files[|files| - 1];
      GroupsKeys(init);
      match Parent(last) {
        case Some(dir) =>
          UpsertKeys(Groups(init), dir, FileName(last).value);
        case None =>
      }
      forall d ensures d in Dirs(Groups(files)) <==> exists i :: 0 <= i < |files| && Parent(files[i]) == Some(d) {
        if exists i :: 0 <= i < |init| && Parent(init[i]) == Some(d) {
          var i :| 0 <= i < |init| && Parent(init[i]) == Some(d);
          assert files[i] == init[i];
        }
        if exists i :: 0 <= i < |files| && Parent(files[i]) == Some(d) {
          var i :| 0 <= i < |files| && Parent(files[i]) == Some(d);
          if i < |init| {
            assert init[i] == files[i];
          }
        }
      }
    }
  }

  /** The names under each key are those of the files with that parent, in input order, duplicates kept. */
  lemma {:induction false} GroupsNames(files: seq<Path>)
    requires forall i :: 0 <= i < |files| ==> Renderable(files[i])
    ensures forall d :: NamesOf(Groups(files), d) == NamesUnder(files, d)
    decreases |files|
  {
    PathLtOrder();
    if |files| > 0 {
      var init := files[..|files| - 1];
      var last := files[|files| - 1];
      GroupsNames(init);
      GroupsKeys(init);
      match Parent(last) {
        case Some(dir) =>
          UpsertNames(Groups(init), dir, FileName(last).value);
        case None =>
      }
    }
  }

  /** Each name line: two spaces, the name, a newline. */
  function NameLineList(names: seq<string>): seq<string> {
    seq(|names|, i requires 0 <= i < |names| => "  " + names[i] + "\n")
  }

  function NameLines(names: seq<string>): string {
    Concat(NameLineList(names))
  }

  /** One directory block: `dir:` then its names sorted, then a blank line. */
  function Block(g: DirGroup): string {
    Display(g.dir) + ":\n" + NameLines(Sort(g.names, StrLt)) + "\n"
  }

  /** The blocks of all directories, in key order. */
  function Blocks(tree: seq<DirGroup>): string
    decreases |tree|
  {
    if |tree| == 0 then "" else Blocks(tree[..|tree| - 1]) + Block(tree[|tree| - 1])
  }

  lemma BlocksSnoc(tree: seq<DirGroup>, k: nat)
    requires k < |tree|
    ensures Blocks(tree[..k + 1]) == Blocks(tree[..k]) + Block(tree[k])
  {
    assert tree[..k + 1][..k] == tree[..k];
  }

  const TreeHeader: string := "# File Tree\n\n" + "```\n"
  const Fence: string := "```\n"

  /** The whole document `format_tree` returns. */
  function TreeDoc(files: seq<Path>): string
    requires forall i :: 0 <= i < |files| ==> Renderable(files[i])
  {
    TreeHeader + Blocks(Groups(files)) + Fence
  }

  /** Tree output opens with its heading and a fence and closes with a fence line. */
  lemma TreeDocFrame(files: seq<Path>)
    requires forall i :: 0 <= i < |files| ==> Renderable(files[i])
    ensures TreeDoc(files)[..|TreeHeader|] == TreeHeader
    ensures TreeDoc(files)[|TreeDoc(files)| - |Fence|..] == Fence
  {
  }

  /** Within a block the names are a sorted permutation of those stored under the directory. */
  lemma BlockNamesSorted(g: DirGroup)
    ensures Sorted(Sort(g.names, StrLt), StrLt)
    ensures multiset(Sort(g.names, StrLt)) == multiset(g.names)
  {
    StrLtOrder();
    SortSorted(g.names, StrLt);
  }

  function TotalNames(tree: seq<DirGroup>): nat
    decreases |tree|
  {
    if |tree| == 0 then 0 else |tree[0].names| + TotalNames(tree[1..])
  }

  function CountWithParent(files: seq<Path>): nat
    decreases |files|
  {
    if |files| == 0 then 0
    else CountWithParent(files[..|files| - 1]) + (if Parent(files[|files| - 1]).Some? then 1 else 0)
  }

  lemma {:induction false} UpsertTotal(tree: seq<DirGroup>, dir: Path, name: string)
    ensures TotalNames(Upsert(tree, dir, name)) == TotalNames(tree) + 1
    decreases |tree|
  {
    if |tree| > 0 {
      var r := Upsert(tree, dir, name);
      if tree[0].dir == dir {
        assert r[1..] == tree[1..];
      } else if PathLt(dir, tree[0].dir) {
        assert r[1..] == tree;
      } else {
        UpsertTotal(tree[1..], dir, name);
        assert r[1..] == Upsert(tree[1..], dir, name);
      }
    }
  }

  /** Every file with a parent gives exactly one name line: nothing is merged or dropped. */
  lemma {:induction false} GroupsTotal(files: seq<Path>)
    requires forall i :: 0 <= i < |files| ==> Renderable(files[i])
    ensures TotalNames(Groups(files)) == CountWithParent(files)
    decreases |files|
  {
    if |files| > 0 {
      var init := files[..|files| - 1];
      var last := files[|files| - 1];
      GroupsTotal(init);
      if Parent(last).Some? {
        UpsertTotal(Groups(init), Parent(last).value, FileName(last).value);
      }
    }
  }

  /** The first loop of `format_tree`: push every file's name under its parent in the ordered map. */
  method GroupByParent(files: seq<Path>) returns (tree: seq<DirGroup>)
    requires forall i :: 0 <= i < |files| ==> Renderable(files[i])
    ensures tree == Groups(files)
  {
    tree := [];
    for i := 0 to |files|
      invariant tree == Groups(files[..i])
    {
      assert files[..i + 1][..i] == files[..i];
      var file := files[i];
      match Parent(file) {
        case Some(parent) =>
          tree := Upsert(tree, parent, FileName(file).value);
        case None =>
      }
    }
    assert files[..|files|] == files;
  }

  /** The inner loop of `format_tree`: one indented line per name. */
  method AppendNameLines(output: string, names: seq<string>) returns (out: string)
    ensures out == output + NameLines(names)
  {
    var lines := NameLineList(names);
    out := output;
    for j := 0 to |names|
      invariant out == output + Concat(lines[..j])
    {
      ConcatSnoc(lines, j);
      var line := "  " + names[j] + "\n";
      out := out + line;
    }
    assert lines[..|names|] == lines;
  }

  /** One iteration of the second loop of `format_tree`: sort the names of one directory and list them under it. */
  method AppendBlock(output: string, g: DirGroup) returns (out: string)
    ensures out == output + Block(g)
  {
    var filesInDir := Sort(g.names, StrLt);
    var dirLine := Display(g.dir) + ":\n";
    out := AppendNameLines(output + dirLine, filesInDir);
    out := out + "\n";
  }

  /** The second loop of `format_tree`: one block per directory, in key order. */
  method AppendBlocks(output: string, tree: seq<DirGroup>) returns (out: string)
    ensures out == output + Blocks(tree)
  {
    out := output;
    for k := 0 to |tree|
      invariant out == output + Blocks(tree[..k])
    {
      BlocksSnoc(tree, k);
      out := AppendBlock(out, tree[k]);
    }
    assert tree[..|tree|] == tree;
  }

  /** `format_tree`. */
  method FormatTree(files: seq<Path>) returns (output: string)
    requires forall i :: 0 <= i < |files| ==> Renderable(files[i])
    ensures output == TreeDoc(files)
  {
    output := "# File Tree\n\n";
    output := output + "```\n";
    var tree := GroupByParent(files);
    output := AppendBlocks(output, tree);
    output := output + "```\n";
  }

  // ---------------------------------------------------------------- full

  /** The heading and the `Total files: n` line. */
  function CountLines(n: nat): string {
    "# Flattened Codebase\n\n" + ("Total files: " + NatToString(n) + "\n\n")
  }

  function FullHeader(n: nat): string {
    CountLines(n) + "## Table of Contents\n\n"
  }

  /** Table-of-contents line `i. [path](#file-i)`. */
  function TocLine(i: nat, f: Path): string {
    NatToString(i) + ". [" + Display(f) + "](#file-" + NatToString(i) + ")\n"
  }

  function TocLines(files: seq<Path>): seq<string> {
    seq(|files|, i requires 0 <= i < |files| => TocLine(i + 1, files[i]))
  }

  /** `content` with a newline added only when it does not already end in one. */
  function WithNewline(content: string): (r: string)
    ensures |r| > 0 && r[|r| - 1] == '\n'
    ensures |content| <= |r| <= |content| + 1 && r[..|content|] == content
    ensures |r| == |content| <==> |content| > 0 && content[|content| - 1] == '\n'
  {
    if |content| > 0 && content[|content| - 1] == '\n' then content else content + "\n"
  }

  /** The fence tag: the extension as written, or empty. */
  function ExtensionTag(f: Path): string {
    match PathExtension(f)
    case Some(e) => e
    case None => ""
  }

  /** What follows the heading of one file: a fenced block, or the inline error line. */
  function SectionBody(f: Path, read: ReadResult): string {
    match read
    case Ok(content) => "```" + ExtensionTag(f) + "\n" + WithNewline(content) + "```\n\n"
    case Err(e) => "Error reading file: " + e + "\n\n"
  }

  function Section(i: nat, f: Path, read: ReadResult): string {
    "## File " + NatToString(i) + ": " + Display(f) + "\n\n" + SectionBody(f, read)
  }

  function Sections(files: seq<Path>, contents: seq<ReadResult>): seq<string>
    requires |contents| == |files|
  {
    seq(|files|, i requires 0 <= i < |files| => Section(i + 1, files[i], contents[i]))
  }

  /** The table of contents as the loop builds it, one line at a time. */
  function TocText(files: seq<Path>): string
    decreases |files|
  {
    if |files| == 0 then "" else TocText(files[..|files| - 1]) + TocLine(|files|, files[|files| - 1])
  }

  /** The sections as the loop builds them, one file at a time. */
  function SectionsText(files: seq<Path>, contents: seq<ReadResult>): string
    requires |contents| == |files|
    decreases |files|
  {
    if |files| == 0 then ""
    else SectionsText(files[..|files| - 1], contents[..|files| - 1]) + Section(|files|, files[|files| - 1], contents[|files| - 1])
  }

  lemma TocTextSnoc(files: seq<Path>, k: nat)
    requires k < |files|
    ensures TocText(files[..k + 1]) == TocText(files[..k]) + TocLine(k + 1, files[k])
  {
    assert files[..k + 1][..k] == files[..k];
  }

  /** Appending section `k + 1` to the text of the first `k` sections gives the text of the first `k + 1`. */
  lemma SectionsTextSnoc(output: string, done: string, files: seq<Path>, contents: seq<ReadResult>, k: nat)
    requires |contents| == |files| && k < |files|
    requires done == output + SectionsText(files[..k], contents[..k])
    ensures done + Section(k + 1, files[k], contents[k]) == output + SectionsText(files[..k + 1], contents[..k + 1])
  {
    assert files[..k + 1][..k] == files[..k];
    assert contents[..k + 1][..k] == contents[..k];
    AppendAssoc(output, SectionsText(files[..k], contents[..k]), Section(k + 1, files[k], contents[k]));
  }

  /** Building the table of contents line by line gives the concatenation of its lines. */
  lemma {:induction false} TocTextIsConcat(files: seq<Path>)
    ensures TocText(files) == Concat(TocLines(files))
    decreases |files|
  {
    if |files| > 0 {
      var n := |files|;
      TocTextIsConcat(files[..n - 1]);
      assert TocLines(files)[..n - 1] == TocLines(files[..n - 1]);
    }
  }

  /** Building the sections file by file gives the concatenation of the sections. */
  lemma {:induction false} SectionsTextIsConcat(files: seq<Path>, contents: seq<ReadResult>)
    requires |contents| == |files|
    ensures SectionsText(files, contents) == Concat(Sections(files, contents))
    decreases |files|
  {
    if |files| > 0 {
      var n := |files|;
      SectionsTextIsConcat(files[..n - 1], contents[..n - 1]);
      assert Sections(files, contents)[..n - 1] == Sections(files[..n - 1], contents[..n - 1]);
    }
  }

  /** The whole document `format_full` returns. */
  function FullDoc(files: seq<Path>, contents: seq<ReadResult>): string
    requires |contents| == |files|
  {
    FullHeader(|files|) + Concat(TocLines(files)) + "\n" + Concat(Sections(files, contents))
  }

  /** Full output opens by stating the number of files, and that number reads back as the input length. */
  lemma FullDocCount(files: seq<Path>, contents: seq<ReadResult>)
    requires |contents| == |files|
    ensures var head := CountLines(|files|);
            FullDoc(files, contents)[..|head|] == head
    ensures DecimalValue(NatToString(|files|)) == |files|
  {
    DecimalRoundTrip(|files|);
    var head := CountLines(|files|);
    var rest := "## Table of Contents\n\n" + Concat(TocLines(files)) + "\n" + Concat(Sections(files, contents));
    assert FullDoc(files, contents) == head + rest;
  }

  lemma TocLineNewlines(i: nat, f: Path)
    requires '\n' !in Display(f)
    ensures CountChar(TocLine(i, f), '\n') == 1
  {
    var n := NatToString(i);
    assert '\n' !in n by {
      forall k | 0 <= k < |n| ensures n[k] != '\n' { }
    }
    CountCharAbsent(n, '\n');
    CountCharAbsent(Display(f), '\n');
    CountCharAppend(n, ". [", '\n');
    CountCharAppend(n + ". [", Display(f), '\n');
    CountCharAppend(n + ". [" + Display(f), "](#file-", '\n');
    CountCharAppend(n + ". [" + Display(f) + "](#file-", n, '\n');
    CountCharAppend(n + ". [" + Display(f) + "](#file-" + n, ")\n", '\n');
  }

  /** The table of contents has exactly one line per file (when no path contains a newline). */
  lemma TocLineCount(files: seq<Path>)
    requires forall i :: 0 <= i < |files| ==> '\n' !in Display(files[i])
    ensures |TocLines(files)| == |files|
    ensures CountChar(Concat(TocLines(files)), '\n') == |files|
  {
    forall i | 0 <= i < |files| ensures CountChar(TocLines(files)[i], '\n') == 1 {
      TocLineNewlines(i + 1, files[i]);
    }
    CountCharConcat(TocLines(files), '\n', 1);
  }

  /**
   * A failed read only changes its own section, which becomes the inline
   * error line; every other file's section is rendered as before.
   */
  lemma ReadErrorIsLocal(files: seq<Path>, contents: seq<ReadResult>, j: nat, msg: string)
    requires |contents| == |files| && j < |files|
    ensures var failed := contents[j := Err(msg)];
            && Sections(files, failed)[j] ==
               "## File " + NatToString(j + 1) + ": " + Display(files[j]) + "\n\n" + "Error reading file: " + msg + "\n\n"
            && forall i :: 0 <= i < |files| && i != j ==> Sections(files, failed)[i] == Sections(files, contents)[i]
  {
  }

  /** One iteration of the second loop of `format_full`: the heading of file `i`, then its block or its error line. */
  method AppendSection(output: string, i: nat, file: Path, read: ReadResult) returns (out: string)
    ensures out == output + Section(i, file, read)
  {
    var heading := "## File " + NatToString(i) + ": " + Display(file) + "\n\n";
    out := output + heading;
    match read {
      case Ok(content) =>
        var extension := ExtensionTag(file);
        var fenceOpen := "```" + extension + "\n";
        out := out + fenceOpen;
        out := out + content;
        if !(|content| > 0 && content[|content| - 1] == '\n') {
          out := out + "\n";
        }
        out := out + "```\n\n";
        assert out == output + heading + (fenceOpen + WithNewline(content) + "```\n\n");
      case Err(e) =>
        out := out + ("Error reading file: " + e + "\n\n");
    }
  }

  /** The first loop of `format_full`: one numbered link per file. */
  method AppendToc(output: string, files: seq<Path>) returns (out: string)
    ensures out == output + TocText(files)
  {
    out := output;
    for index := 0 to |files|
      invariant out == output + TocText(files[..index])
    {
      TocTextSnoc(files, index);
      var line := NatToString(index + 1) + ". [" + Display(files[index]) + "](#file-" + NatToString(index + 1) + ")\n";
      out := out + line;
    }
    assert files[..|files|] == files;
  }

  /** The second loop of `format_full`: one section per file, numbered from 1. */
  method AppendSections(output: string, files: seq<Path>, contents: seq<ReadResult>) returns (out: string)
    requires |contents| == |files|
    ensures out == output + SectionsText(files, contents)
  {
    out := output;
    for index := 0 to |files|
      invariant out == output + SectionsText(files[..index], contents[..index])
    {
      SectionsTextSnoc(output, out, files, contents, index);
      out := AppendSection(out, index + 1, files[index], contents[index]);
    }
    assert files[..|files|] == files && contents[..|files|] == contents;
  }

  /** `format_full`. */
  method FormatFull(files: seq<Path>, contents: seq<ReadResult>) returns (output: string)
    requires |contents| == |files|
    ensures output == FullDoc(files, contents)
  {
    output := "# Flattened Codebase\n\n";
    var countLine := "Total files: " + NatToString(|files|) + "\n\n";
    output := output + countLine;
    output := output + "## Table of Contents\n\n";
    output := AppendToc(output, files);
    output := output + "\n";
    output := AppendSections(output, files, contents);
    TocTextIsConcat(files);
    SectionsTextIsConcat(files, contents);
  }

  /** `format_files`: renders with the mode fixed at construction; it always succeeds. */
  method FormatFiles(f: OutputFormatter, files: seq<Path>, contents: seq<ReadResult>)
    returns (r: Result<string, FlattenError>)
    requires |contents| == |files|
    requires f.formatType == Tree ==> forall i :: 0 <= i < |files| ==> Renderable(files[i])
    ensures r == Ok(if f.formatType == Tree then TreeDoc(files) else FullDoc(files, contents))
  {
    match f.formatType {
      case Tree =>
        var s := FormatTree(files);
        r := Ok(s);
      case Full =>
        var s := FormatFull(files, contents);
        r := Ok(s);
    }
  }
}
