/** Paths as `pathlib` sees them: a sequence of name components. */
module Paths {
  import opened Common
  import opened Text

  /** A path is its list of components; `/` never occurs inside a component. */
  type Path = seq<string>

  /** `Path.name`: the final component, or "" for the empty path. */
  function Name(p: Path): string {
    if p == [] then "" else p[|p| - 1]
  }

  /**
   * `Path.suffix` of a final component: from its last `.` to the end, unless
   * that dot is the first or the last character (or there is no dot).
   */
  function Suffix(name: string): (r: string)
    ensures r == "" <==> ('.' !in name || name[|name| - 1] == '.' || (name[0] == '.' && '.' !in name[1..]))
    ensures r != "" ==> 2 <= |r| < |name| && r == name[|name| - |r|..] && r[0] == '.' && '.' !in r[1..]
  {
    match LastIndexOf(name, '.')
    case None => ""
    case Some(i) =>
      if 0 < i < |name| - 1 then
        assert name[i..][1..] == name[i + 1..];
        name[i..]
      else
        assert i == 0 ==> name[1..] == name[i + 1..];
        ""
  }

  /** The key `process_file` looks up: the lower-cased suffix of the final component. */
  function ExtensionKey(p: Path): (ext: string)
    ensures ext == "" || (ext[0] == '.' && |ext| >= 2)
  {
    Lower(Suffix(Name(p)))
  }

  /** A double extension dispatches on its last part only. */
  lemma TarGzUsesLastSuffix()
    ensures ExtensionKey(["backup", "x.tar.gz"]) == ".gz"
  {
    var n := "x.tar.gz";
    assert LastIndexOf(n, '.') == Some(5) by {
      assert n[7] != '.' && n[6] != '.' && n[5] == '.';
      assert n[..7][..6] == n[..6];
    }
    assert Suffix(n) == ".gz";
  }

  /** An upper-case suffix is lower-cased before the lookup. */
  lemma UpperCaseSuffixIsLowered()
    ensures ExtensionKey(["X.TXT"]) == ".txt"
  {
    var n := "X.TXT";
    assert LastIndexOf(n, '.') == Some(1) by {
      assert n[4] != '.' && n[3] != '.' && n[2] != '.' && n[1] == '.';
    }
    assert Suffix(n) == ".TXT";
    assert Lower(".TXT") == ['.', LowerChar('T'), LowerChar('X'), LowerChar('T')];
  }
}
