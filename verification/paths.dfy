/** The two `pathlib` accessors the ingest code uses, for POSIX paths:
    `Path(p).name` and `Path(p).suffix`. */
module Paths {

  /** Index of the last `c` in `s`, or -1 (`str.rfind`). */
  function LastIndexOf(s: string, c: char): (r: int)
    ensures -1 <= r < |s|
    ensures r >= 0 ==> s[r] == c
    ensures forall k :: r < k < |s| ==> s[k] != c
    decreases |s|
  {
    if |s| == 0 then -1
    else if s[|s| - 1] == c then |s| - 1
    else LastIndexOf(s[..|s| - 1], c)
  }

  /** `Path(p).name`: the final component, the text after the last '/'. */
  function FileName(path: string): string {
    path[LastIndexOf(path, '/') + 1..]
  }

  /** The name is the part of the path after its last '/': a suffix of the
      path holding no '/', preceded by one when it is not the whole path. */
  lemma FileNameIsLastComponent(path: string)
    ensures var r := FileName(path);
      && '/' !in r
      && |r| <= |path| && r == path[|path| - |r|..]
      && (|r| < |path| ==> path[|path| - |r| - 1] == '/')
  {
    var i := LastIndexOf(path, '/');
    var r := FileName(path);
    forall k | 0 <= k < |r| ensures r[k] != '/' {
      assert r[k] == path[i + 1 + k];
    }
  }

  /** `Path(p).suffix` for a file name: from its last '.' on, provided that dot is
      neither the first nor the last character; otherwise empty. */
  function Suffix(name: string): string {
    var i := LastIndexOf(name, '.');
    if 0 < i < |name| - 1 then name[i..] else []
  }

  /** A suffix is empty, or a proper tail of the name that starts with its only
      dot and has a character after it. */
  lemma SuffixIsLastDotPart(name: string)
    ensures var r := Suffix(name);
      r == [] || (2 <= |r| < |name| && r == name[|name| - |r|..] && r[0] == '.' && '.' !in r[1..])
    ensures var i := LastIndexOf(name, '.');
      0 < i < |name| - 1 ==> Suffix(name) == name[i..]
    ensures Suffix(name) == [] <==>
      forall k :: 0 < k < |name| - 1 && name[k] == '.' ==> exists j :: k < j < |name| && name[j] == '.'
  {
    var i := LastIndexOf(name, '.');
    var r := Suffix(name);
    if r != [] {
      forall k | 1 <= k < |r| ensures r[k] != '.' {
        assert r[k] == name[i + k];
      }
    }
  }
}
