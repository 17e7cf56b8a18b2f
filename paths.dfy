/**
 * `pathlib` on POSIX, as far as the service uses it: a path is its list of
 * components, `p / name` adds one, `str(p)` joins them with `/`, and the
 * name, suffix and suffixes of a path are taken from its last component.
 */
module Paths {
  import opened Text

  /** A path as its components; `["", "data"]` is `/data`. */
  type Path = seq<string>

  /** `p / name` for a name that is one component. */
  function Child(p: Path, name: string): (r: Path)
    ensures |r| == |p| + 1 && r[..|p|] == p && r[|p|] == name
  {
    p + [name]
  }

  /** `str(p)`. */
  function Str(p: Path): string {
    Join(p, "/")
  }

  /** `p.name`: the last component, or the empty name. */
  function Name(p: Path): string {
    if p == [] then "" else p[|p| - 1]
  }

  /** `Path(s).parts` for a relative string: empty and `.` components vanish. */
  function Components(s: string): (r: seq<string>)
    ensures forall i :: 0 <= i < |r| ==> r[i] != "" && r[i] != "." && '/' !in r[i]
  {
    KeepProper(Split(s, '/'))
  }

  function KeepProper(pieces: seq<string>): (r: seq<string>)
    requires forall i :: 0 <= i < |pieces| ==> '/' !in pieces[i]
    ensures forall i :: 0 <= i < |r| ==> r[i] != "" && r[i] != "." && '/' !in r[i]
  {
    if pieces == [] then []
    else (if pieces[0] == "" || pieces[0] == "." then [] else [pieces[0]]) + KeepProper(pieces[1..])
  }

  /** `Path(s).name`. */
  function NameOf(s: string): (r: string)
    ensures '/' !in r
  {
    var parts := Components(s);
    if parts == [] then "" else parts[|parts| - 1]
  }

  /** `name.rfind(c)`: the last index of `c`, or -1. */
  function RFind(name: string, c: char): (i: int)
    ensures -1 <= i < |name|
    ensures i >= 0 ==> name[i] == c
    ensures forall k :: i < k < |name| ==> name[k] != c
  {
    if name == [] then -1
    else if name[|name| - 1] == c then |name| - 1
    else RFind(name[..|name| - 1], c)
  }

  /**
   * `PurePath.suffix` of a name: from its last dot on, provided that dot is
   * neither the first nor the last character; otherwise empty.
   */
  function Suffix(name: string): string {
    var i := RFind(name, '.');
    if 0 < i < |name| - 1 then name[i..] else ""
  }

  /** A name without a dot has no suffix. */
  lemma SuffixNoDot(name: string)
    requires '.' !in name
    ensures Suffix(name) == ""
  {
  }

  /** A non-empty suffix is a dot followed by at least one dot-free character, ending the name. */
  lemma SuffixShape(name: string)
    ensures var x := Suffix(name);
      x == "" || (|x| >= 2 && x[0] == '.' && '.' !in x[1..] && |x| < |name| && EndsWith(name, x))
  {
    var i := RFind(name, '.');
    if 0 < i < |name| - 1 {
      var x := name[i..];
      assert forall k :: 0 <= k < |x| - 1 ==> x[1..][k] == name[i + 1 + k];
    }
  }

  /** `str.lstrip(".")`. */
  function LStripDots(s: string): (r: string)
    ensures |r| <= |s| && r == s[|s| - |r|..]
    ensures r == [] || r[0] != '.'
  {
    if s != [] && s[0] == '.' then LStripDots(s[1..]) else s
  }

  /**
   * `PurePath.suffixes` of a name: none when it ends with a dot; otherwise
   * one per dot after the leading dots, each with its dot.
   */
  function Suffixes(name: string): seq<string> {
    if EndsWith(name, ".") then []
    else DotEach(Split(LStripDots(name), '.')[1..])
  }

  function DotEach(xs: seq<string>): (r: seq<string>)
    ensures |r| == |xs|
    ensures forall i :: 0 <= i < |xs| ==> r[i] == "." + xs[i]
  {
    if xs == [] then [] else ["." + xs[0]] + DotEach(xs[1..])
  }

  /** `PurePath.with_suffix("")` of a name: the name without its suffix. */
  function WithoutSuffix(name: string): (r: string)
    ensures r + Suffix(name) == name
  {
    SuffixShape(name);
    name[..|name| - |Suffix(name)|]
  }
}
