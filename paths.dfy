/**
 * Paths as `std::path::PathBuf` stores and reads them.
 *
 * A `PathBuf` keeps the text it was built from; everything that compares
 * paths looks at its components instead.  `Path` below is that component
 * view: whether the path starts at the root, and its names in order.
 * Separators that repeat or trail, and `.` segments, leave no component.
 * `Display` is the text of a component list, such as the relative
 * `PathBuf` that `diff_paths` builds; `ParseDisplay` shows that `Parse`
 * reads that text back unchanged.
 */
module Paths {

  const Separator: char := '/'

  datatype Path = Path(rooted: bool, names: seq<string>)

  /** A segment that survives as a component. */
  predicate IsName(n: string) {
    n != "" && n != "." && Separator !in n
  }

  predicate IsCanonical(p: Path) {
    forall k :: 0 <= k < |p.names| ==> IsName(p.names[k])
  }

  /** The text between separators, including the empty pieces. */
  function Split(s: string): (parts: seq<string>)
    ensures |parts| >= 1
    ensures forall k :: 0 <= k < |parts| ==> Separator !in parts[k]
  {
    if s == [] then [[]]
    else
      var rest := Split(s[1..]);
      if s[0] == Separator then [[]] + rest
      else [[s[0]] + rest[0]] + rest[1..]
  }

  /** The pieces put back together with one separator between neighbours. */
  function JoinParts(parts: seq<string>): string {
    if |parts| == 0 then []
    else if |parts| == 1 then parts[0]
    else parts[0] + [Separator] + JoinParts(parts[1..])
  }

  /** The pieces that are names, in order. */
  function Names(parts: seq<string>): (names: seq<string>)
    ensures |names| <= |parts|
    ensures forall k :: 0 <= k < |names| ==> IsName(names[k])
  {
    if parts == [] then []
    else (if IsName(parts[0]) then [parts[0]] else []) + Names(parts[1..])
  }

  /** `Path::components` of the text `s`. */
  function Parse(s: string): (p: Path)
    ensures IsCanonical(p)
    ensures p.rooted <==> |s| > 0 && s[0] == Separator
  {
    Path(|s| > 0 && s[0] == Separator, Names(Split(s)))
  }

  /** The text of a path: a leading separator when rooted, then the names. */
  function Display(p: Path): string {
    (if p.rooted then [Separator] else []) + JoinParts(p.names)
  }

  /** `PathBuf::join`: a rooted argument replaces the base, any other extends it. */
  function JoinPath(base: Path, rel: Path): Path {
    if rel.rooted then rel else Path(base.rooted, base.names + rel.names)
  }

  /** `base` is `path` itself or a directory above it. */
  predicate IsAncestor(base: Path, path: Path) {
    base.rooted == path.rooted && base.names <= path.names
  }

  /**
   * `pathdiff::diff_paths(path, base)` when `base` is an ancestor of `path`:
   * the components of `path` after those of `base`, as a relative path.
   */
  function DiffPaths(path: Path, base: Path): (rel: Path)
    requires IsAncestor(base, path)
    ensures !rel.rooted
    ensures JoinPath(base, rel) == path
    ensures |rel.names| == |path.names| - |base.names|
    ensures IsCanonical(path) ==> IsCanonical(rel)
  {
    Path(false, path.names[|base.names|..])
  }

  /** The relative path `DiffPaths` returns is the only one that joins back to `path`. */
  lemma DiffPathsUnique(path: Path, base: Path, rel: Path)
    requires !rel.rooted && JoinPath(base, rel) == path
    ensures IsAncestor(base, path)
    ensures rel == DiffPaths(path, base)
  {
    assert path.names[|base.names|..] == rel.names;
  }

  /** Splitting the text `x + t` when `x` holds no separator extends the first piece of `t`. */
  lemma {:induction false} SplitPrefix(x: string, t: string)
    requires Separator !in x
    ensures Split(x + t) == [x + Split(t)[0]] + Split(t)[1..]
  {
    var st := Split(t);
    if x != [] {
      var xt := x + t;
      assert xt[1..] == x[1..] + t;
      assert xt[0] == x[0] && xt[0] != Separator;
      SplitPrefix(x[1..], t);
      var r := Split(x[1..] + t);
      assert r == [x[1..] + st[0]] + st[1..];
      assert Split(xt) == [[x[0]] + r[0]] + r[1..];
      assert r[0] == x[1..] + st[0] && r[1..] == st[1..];
      assert [x[0]] + (x[1..] + st[0]) == x + st[0];
    } else {
      assert x + t == t;
      assert st == [st[0]] + st[1..];
      assert x + st[0] == st[0];
    }
  }

  /** Splitting undoes joining, for pieces without separators. */
  lemma {:induction false} SplitJoin(parts: seq<string>)
    requires |parts| >= 1
    requires forall k :: 0 <= k < |parts| ==> Separator !in parts[k]
    ensures Split(JoinParts(parts)) == parts
  {
    if |parts| == 1 {
      SplitPrefix(parts[0], []);
      assert parts[0] + [] == parts[0];
    } else {
      var x, rest := parts[0], parts[1..];
      SplitJoin(rest);
      var t := [Separator] + JoinParts(rest);
      assert JoinParts(parts) == x + t;
      SplitPrefix(x, t);
      assert t[0] == Separator && t[1..] == JoinParts(rest);
      assert Split(t) == [[]] + rest;
      assert x + [] == x;
    }
  }

  /** Keeping the names of pieces that are all names keeps everything. */
  lemma {:induction false} NamesOfNames(parts: seq<string>)
    requires forall k :: 0 <= k < |parts| ==> IsName(parts[k])
    ensures Names(parts) == parts
  {
    if parts != [] {
      NamesOfNames(parts[1..]);
    }
  }

  /** The text of a non-empty list of names parses back to those names, unrooted. */
  lemma {:induction false} ParseJoined(names: seq<string>)
    requires names != []
    requires forall k :: 0 <= k < |names| ==> IsName(names[k])
    ensures Parse(JoinParts(names)) == Path(false, names)
  {
    var j := JoinParts(names);
    SplitJoin(names);
    NamesOfNames(names);
    if |names| > 1 {
      assert j == names[0] + ([Separator] + JoinParts(names[1..]));
    }
    assert names[0] != [] && names[0][0] != Separator;
    assert j[0] == names[0][0];
  }

  /** The same text behind one separator parses to the same names, rooted. */
  lemma {:induction false} ParseRootedJoined(names: seq<string>)
    requires forall k :: 0 <= k < |names| ==> IsName(names[k])
    ensures Parse([Separator] + JoinParts(names)) == Path(true, names)
  {
    var d := [Separator] + JoinParts(names);
    assert d[0] == Separator && d[1..] == JoinParts(names);
    assert Split(d) == [[]] + Split(JoinParts(names));
    NamesOfNames(names);
    if names == [] {
      assert Split(JoinParts(names)) == [[]];
      assert Split(d) == [[], []];
      assert Names([[]]) == [] + Names([]);
      assert Names([[], []]) == [] + Names([[]]);
    } else {
      SplitJoin(names);
    }
  }

  /** Reading back the text of a component view gives the same view. */
  lemma ParseDisplay(p: Path)
    requires IsCanonical(p)
    ensures Parse(Display(p)) == p
  {
    if p.rooted {
      ParseRootedJoined(p.names);
    } else if p.names == [] {
      assert Display(p) == [];
    } else {
      assert Display(p) == JoinParts(p.names);
      ParseJoined(p.names);
    }
  }

  /** Printing a parsed path and parsing it again changes nothing: `Parse` normalises. */
  lemma ParseIdempotent(s: string)
    ensures Parse(Display(Parse(s))) == Parse(s)
  {
    ParseDisplay(Parse(s));
  }
}
