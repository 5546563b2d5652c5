/**
 * Rust's `Path`/`PathBuf` as the model sees it: a relative path is the
 * sequence of its components (what `Path::components` yields), so `src/a.rs`
 * is `["src", "a.rs"]` and `./a.rs` is `[".", "a.rs"]`.
 */
module Paths {
  import opened Wrappers
  import opened Text
  import opened Ordering

  type Path = seq<string>

  const CurDir: string := "."
  const ParentDir: string := ".."

  /** Components as `Path::components` normalises them: never empty, no separator, `.` only first. */
  predicate WellFormed(p: Path) {
    forall i :: 0 <= i < |p| ==> p[i] != "" && '/' !in p[i] && (p[i] == CurDir ==> i == 0)
  }

  /** `Path::file_name`: the last component, unless it is `.` or `..` or there is none. */
  function FileName(p: Path): (r: Option<string>)
    ensures r.Some? <==> |p| > 0 && p[|p| - 1] != CurDir && p[|p| - 1] != ParentDir
    ensures r.Some? ==> r.value == p[|p| - 1]
  {
    if |p| > 0 && p[|p| - 1] != CurDir && p[|p| - 1] != ParentDir then Some(p[|p| - 1]) else None
  }

  /** `Path::parent`: all but the last component; a one-component path has the empty parent. */
  function Parent(p: Path): (r: Option<Path>)
    ensures r.Some? <==> |p| > 0
    ensures r.Some? ==> p == r.value + [p[|p| - 1]]
  {
    if |p| == 0 then None else Some(p[..|p| - 1])
  }

  /** Index of the last `.` in `s`. */
  function LastDot(s: string): (r: Option<nat>)
    ensures r.Some? ==> r.value < |s| && s[r.value] == '.' && '.' !in s[r.value + 1..]
    ensures r.None? ==> '.' !in s
    decreases |s|
  {
    if |s| == 0 then None
    else if s[|s| - 1] == '.' then Some(|s| - 1)
    else
      var r := LastDot(s[..|s| - 1]);
      assert r.Some? ==> s[r.value + 1..] == s[..|s| - 1][r.value + 1..] + [s[|s| - 1]];
      r
  }

  /**
   * The extension of a file name as `Path::extension` computes it: the text
   * after the last `.`, absent when there is no `.` or when the only `.` is
   * the leading one of a dot-file such as `.gitignore`.
   */
  function Extension(name: string): (r: Option<string>)
    ensures r.Some? <==> exists i :: 0 < i < |name| && name[i] == '.'
    ensures r.Some? ==> |r.value| + 1 < |name| && '.' !in r.value
                        && name[|name| - |r.value| - 1] == '.' && r.value == name[|name| - |r.value|..]
  {
    match LastDot(name)
    case None => None
    case Some(i) =>
      if i == 0 then
        assert forall k :: 0 < k < |name| ==> name[k] in name[1..];
        None
      else
        Some(name[i + 1..])
  }

  /** `Path::extension` of a whole path. */
  function PathExtension(p: Path): Option<string> {
    match FileName(p)
    case None => None
    case Some(name) => Extension(name)
  }

  /** What `Path::display` and `to_string_lossy` show: the components joined by `/`. */
  function Display(p: Path): string {
    Join(p, '/')
  }

  /** Keeps the pieces `Path::components` keeps: no empty pieces, `.` only as the first. */
  function Normalize(pieces: seq<string>, first: bool): (p: Path)
    ensures forall i :: 0 <= i < |p| ==> p[i] != ""
    decreases |pieces|
  {
    if |pieces| == 0 then []
    else if pieces[0] == "" || (pieces[0] == CurDir && !first) then Normalize(pieces[1..], false)
    else [pieces[0]] + Normalize(pieces[1..], false)
  }

  /** `PathBuf::from(s)`: the components of a relative path string. */
  function ParsePath(s: string): (p: Path)
    ensures WellFormed(p)
  {
    var p := Normalize(Split(s, '/'), true);
    NormalizeWellFormed(Split(s, '/'), true);
    p
  }

  lemma {:induction false} NormalizeWellFormed(pieces: seq<string>, first: bool)
    requires forall i :: 0 <= i < |pieces| ==> '/' !in pieces[i]
    ensures WellFormed(Normalize(pieces, first))
    ensures !first ==> CurDir !in Normalize(pieces, first)
    decreases |pieces|
  {
    if |pieces| > 0 {
      NormalizeWellFormed(pieces[1..], false);
    }
  }

  lemma {:induction false} NormalizeKeepsWellFormed(p: Path, first: bool)
    requires WellFormed(p)
    requires !first ==> CurDir !in p
    ensures Normalize(p, first) == p
    decreases |p|
  {
    if |p| > 0 {
      assert CurDir !in p[1..] by {
        forall i | 0 <= i < |p[1..]| ensures p[1..][i] != CurDir {
          assert p[i + 1] == p[1..][i];
        }
      }
      NormalizeKeepsWellFormed(p[1..], false);
    }
  }

  /** Parsing the display of a well-formed path gives the path back. */
  lemma ParseDisplay(p: Path)
    requires WellFormed(p)
    ensures ParsePath(Display(p)) == p
  {
    if |p| > 0 {
      SplitJoin(p, '/');
    }
    NormalizeKeepsWellFormed(p, true);
  }

  /**
   * A path string in normal form (no doubled or trailing `/`, no `.` after
   * the start) is displayed exactly as written, so patterns see the same text.
   */
  lemma DisplayParse(s: string)
    requires WellFormed(Split(s, '/'))
    ensures Display(ParsePath(s)) == s
  {
    NormalizeKeepsWellFormed(Split(s, '/'), true);
    JoinSplit(s, '/');
  }

  function CharLt(x: char, y: char): bool {
    x < y
  }

  /** `Ord` for `String`/`OsStr`: lexicographic by character. */
  function StrLt(a: string, b: string): bool {
    LexLt(a, b, CharLt)
  }

  /** Rank of a component kind in `Component`'s derived order: `CurDir < ParentDir < Normal`. */
  function ComponentRank(c: string): nat {
    if c == CurDir then 0 else if c == ParentDir then 1 else 2
  }

  function ComponentLt(a: string, b: string): bool {
    ComponentRank(a) < ComponentRank(b) || (ComponentRank(a) == ComponentRank(b) == 2 && StrLt(a, b))
  }

  /** `Ord` for `Path`: component-wise lexicographic, not byte-wise. */
  function PathLt(a: Path, b: Path): bool {
    LexLt(a, b, ComponentLt)
  }

  lemma StrLtOrder()
    ensures StrictTotalOrder(StrLt)
  {
    assert StrictTotalOrder(CharLt);
    LexStrictTotalOrder(CharLt);
    var lex := (a: string, b: string) => LexLt(a, b, CharLt);
    assert forall a, b :: StrLt(a, b) == lex(a, b);
  }

  lemma ComponentLtOrder()
    ensures StrictTotalOrder(ComponentLt)
  {
    StrLtOrder();
  }

  /** The order `files.sort()` and `BTreeMap` use on paths is a strict total order. */
  lemma PathLtOrder()
    ensures StrictTotalOrder(PathLt)
  {
    ComponentLtOrder();
    LexStrictTotalOrder(ComponentLt);
    var lex := (a: Path, b: Path) => LexLt(a, b, ComponentLt);
    assert forall a, b :: PathLt(a, b) == lex(a, b);
  }

  /** Component-wise order is not byte order: `a/b` sorts before `a-b` although `-` is below `/`. */
  lemma ComponentWiseNotBytewise()
    ensures PathLt(["a", "b"], ["a-b"])
    ensures StrLt("a-b", "a/b")
  {
  }
}
