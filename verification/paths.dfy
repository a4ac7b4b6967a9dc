/**
 Relative pathlib paths and the two helpers of `mudi/utils.py`.

 A path is the sequence of its parts: `Path("a/b.md")` is `["a", "b.md"]` and
 `Path(".")` is `[]`. Joining two relative paths (`a / b`) concatenates them.
 */
module Paths {
  import opened Base

  /** One part of a path: never empty and never containing the separator. */
  type Segment = s: string | s != "" && '/' !in s witness "a"

  type Path = seq<Segment>

  /** `a in p.parents`: `a` is a proper leading part of `p`. `Path(".")` is a
      parent of every nonempty relative path, and no path is its own parent. */
  predicate IsStrictAncestor(a: Path, p: Path) {
    |a| < |p| && p[..|a|] == a
  }

  /** `p.name`: the last part, or `""` for `Path(".")`. */
  function Name(p: Path): string {
    if |p| == 0 then "" else p[|p| - 1]
  }

  /** Index of the last `.` in `s`, if any. */
  function LastDot(s: string): (r: Option<nat>)
    ensures r.Some? ==> r.value < |s| && s[r.value] == '.'
    ensures r.Some? ==> forall j :: r.value < j < |s| ==> s[j] != '.'
    ensures r.None? ==> forall j :: 0 <= j < |s| ==> s[j] != '.'
  {
    if |s| == 0 then None
    else if s[|s| - 1] == '.' then Some(|s| - 1)
    else LastDot(s[..|s| - 1])
  }

  /** Where pathlib's suffix of a name starts: at the last `.`, provided that
      dot is neither the first nor the last character. */
  function SuffixStart(name: string): (r: Option<nat>)
    ensures r.Some? ==> 0 < r.value < |name| - 1 && name[r.value] == '.'
    ensures r.Some? ==> forall j :: r.value < j < |name| ==> name[j] != '.'
  {
    match LastDot(name)
    case Some(i) => if 0 < i < |name| - 1 then Some(i) else None
    case None => None
  }

  /** `PurePath(name).suffix` */
  function NameSuffix(name: string): string {
    match SuffixStart(name)
    case Some(i) => name[i..]
    case None => ""
  }

  /** `name` with its suffix removed (pathlib's `stem`). */
  function Stem(name: string): string {
    match SuffixStart(name)
    case Some(i) => name[..i]
    case None => name
  }

  /** `p.suffix` */
  function Suffix(p: Path): string {
    NameSuffix(Name(p))
  }

  /** A name splits into its stem followed by its suffix; the suffix is either
      empty or a dot followed by at least one non-dot character, and the stem
      of a nonempty name is nonempty. */
  lemma StemSuffixSplit(name: string)
    ensures Stem(name) + NameSuffix(name) == name
    ensures NameSuffix(name) == "" || (|NameSuffix(name)| >= 2 && NameSuffix(name)[0] == '.')
    ensures forall j :: 0 < j < |NameSuffix(name)| ==> NameSuffix(name)[j] != '.'
    ensures name != "" ==> Stem(name) != ""
  {
    match SuffixStart(name)
    case Some(i) =>
      assert name[..i] + name[i..] == name;
    case None =>
  }

  /** `p.with_suffix(suffix)`: replaces the suffix of the last part (or appends
      `suffix` when there is none). pathlib raises ValueError for a suffix that
      contains a separator, is `"."`, or is nonempty without a leading dot, and
      for a path with an empty name. */
  function WithSuffix(p: Path, suffix: string): (r: Result<Path>)
    ensures r.Ok? <==> |p| > 0 && '/' !in suffix && suffix != "." && (suffix == "" || suffix[0] == '.')
    ensures r.Err? ==> r.error == ValueError
    ensures r.Ok? ==> |r.value| == |p| && r.value[..|p| - 1] == p[..|p| - 1]
    ensures r.Ok? ==> r.value[|p| - 1] == Stem(p[|p| - 1]) + suffix
  {
    if '/' in suffix then Err(ValueError)
    else if (suffix != "" && suffix[0] != '.') || suffix == "." then Err(ValueError)
    else if |p| == 0 then Err(ValueError)
    else
      var name := p[|p| - 1];
      StemSuffixSplit(name);
      assert forall j :: 0 <= j < |Stem(name)| ==> Stem(name)[j] == name[j];
      var last: Segment := Stem(name) + suffix;
      Ok(p[..|p| - 1] + [last])
  }

  /** `p.relative_to(base)`: the parts after `base`, which must lead `p`. */
  function RelativeTo(p: Path, base: Path): (r: Result<Path>)
    ensures r.Ok? <==> |base| <= |p| && p[..|base|] == base
    ensures r.Err? ==> r.error == ValueError
    ensures r.Ok? ==> base + r.value == p
  {
    if |base| <= |p| && p[..|base|] == base then
      assert p[..|base|] + p[|base|..] == p;
      Ok(p[|base|..])
    else Err(ValueError)
  }

  /** `rel_name` (mudi/utils.py:4-5): `filename` relative to `relPath`, with the
      suffix of its last part removed. Only the last part loses its suffix;
      `with_suffix("")` rejects the empty relative path, so a path is never
      its own `rel_name`. */
  function RelName(filename: Path, relPath: Path): (r: Result<Path>)
    ensures r.Ok? <==> IsStrictAncestor(relPath, filename)
    ensures r.Err? ==> r.error == ValueError
    ensures r.Ok? ==> |r.value| == |filename| - |relPath|
    ensures r.Ok? ==> r.value[..|r.value| - 1] == filename[|relPath|..|filename| - 1]
    ensures r.Ok? ==> r.value[|r.value| - 1] == Stem(filename[|filename| - 1])
  {
    var rel :- RelativeTo(filename, relPath);
    assert |relPath| < |filename| ==> rel == filename[|relPath|..];
    WithSuffix(rel, "")
  }

  /** Concrete instances of the suffix rule on the last part. */
  lemma StemExamples()
    ensures Stem("a") == "a"
    ensures Stem(".hidden") == ".hidden"
    ensures Stem("a.") == "a."
    ensures Stem("a.tar.gz") == "a.tar"
    ensures Stem("index.md") == "index"
  {
    assert LastDot("a.tar.gz") == Some(5) by {
      assert "a.tar.gz"[..7] == "a.tar.g";
      assert "a.tar.g"[..6] == "a.tar.";
    }
    assert LastDot("index.md") == Some(5) by {
      assert "index.md"[..7] == "index.m";
      assert "index.m"[..6] == "index.";
    }
    assert LastDot(".hidden") == Some(0) by {
      var s := ".hidden";
      assert s[0] == '.' && forall j :: 0 < j < |s| ==> s[j] != '.';
      var k := LastDot(s);
      assert k.Some? && k.value == 0;
    }
  }

  /** `path_swap` as written (mudi/utils.py:8-10): its body reads `rel_path`,
      which is bound nowhere, so every call raises NameError before anything
      is computed. */
  function PathSwapAsWritten(filename: Path, originalPath: Path, newPath: Path): (r: Result<Path>)
    ensures r.Err? && r.error == NameError
  {
    Err(NameError)
  }

  /** `path_swap` as evidently intended: the `originalPath` prefix of
      `filename` is replaced by `newPath` and the extension is dropped. */
  function PathSwap(filename: Path, originalPath: Path, newPath: Path): (r: Result<Path>)
    ensures r.Ok? <==> IsStrictAncestor(originalPath, filename)
    ensures r.Ok? ==> RelativeTo(r.value, newPath) == RelName(filename, originalPath)
    ensures r.Ok? ==> |r.value| == |newPath| + |filename| - |originalPath|
  {
    var base :- RelName(filename, originalPath);
    assert (newPath + base)[..|newPath|] == newPath;
    assert (newPath + base)[|newPath|..] == base;
    Ok(newPath + base)
  }

  /** Whenever the intended `path_swap` has an answer, the written one raises
      instead. */
  lemma PathSwapAsWrittenDiffers(filename: Path, originalPath: Path, newPath: Path)
    requires IsStrictAncestor(originalPath, filename)
    ensures PathSwapAsWritten(filename, originalPath, newPath) == Err(NameError)
    ensures PathSwap(filename, originalPath, newPath).Ok?
  {
  }
}
