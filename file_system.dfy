/**
 * File paths as Node's path module builds them, and the disk as the set of
 * files that exist. A path is kept structured: the segments of its (absolute,
 * normalised) directory and its base name, so that path.join, path.dirname,
 * path.basename and path.parse(...).name are field accesses or small functions.
 */
module FileSystem {
  import opened Wrappers

  datatype Path = Path(dir: seq<string>, base: string)

  /** path.join(dir, name) for a single segment name. */
  function Join(dir: seq<string>, name: string): (p: Path)
    ensures p.dir == dir && p.base == name
  {
    Path(dir, name)
  }

  /** The index of the last '.' in s, if any. */
  function LastDot(s: string): (r: Option<nat>)
    ensures r.Some? ==> r.value < |s| && s[r.value] == '.' && '.' !in s[r.value + 1..]
    ensures r.None? ==> '.' !in s
  {
    if s == [] then None
    else if s[|s| - 1] == '.' then Some(|s| - 1)
    else
      var r := LastDot(s[..|s| - 1]);
      assert s == s[..|s| - 1] + [s[|s| - 1]];
      r
  }

  /**
   * path.parse(base).name: the base name without its last extension. A name
   * whose only dot is its first character (".bashrc") and the name ".." keep
   * every character.
   */
  function ParsedName(base: string): (name: string)
    ensures |name| <= |base| && name == base[..|name|]
    ensures name == base || (0 < |name| && base[|name|] == '.')
  {
    match LastDot(base)
    case None => base
    case Some(i) => if i == 0 || base == ".." then base else base[..i]
  }

  /** The files that exist, as far as the services create, copy and remove them. */
  class Disk {
    var files: set<Path>

    constructor (initial: set<Path>)
      ensures files == initial
    {
      files := initial;
    }
  }
}
