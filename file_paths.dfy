/**
 * The directory of a model file: Model::loadModel keeps the part of the path
 * before its last '/' or '\', using std::string::find_last_of and substr.
 */
module FilePaths {

  import opened Wrappers

  predicate IsSeparator(c: char) {
    c == '/' || c == '\\'
  }

  predicate NoSeparator(s: string) {
    forall i :: 0 <= i < |s| ==> !IsSeparator(s[i])
  }

  /** find_last_of("/\\"): the position of the last separator, None for npos. */
  function FindLastSeparator(s: string): (r: Option<nat>)
    ensures r.None? <==> NoSeparator(s)
    ensures r.Some? ==> r.value < |s| && IsSeparator(s[r.value]) && NoSeparator(s[r.value + 1..])
    decreases |s|
  {
    if s == [] then None
    else if IsSeparator(s[|s| - 1]) then Some(|s| - 1)
    else
      var r := FindLastSeparator(s[..|s| - 1]);
      assert r.Some? ==> s[r.value + 1..] == s[..|s| - 1][r.value + 1..] + [s[|s| - 1]];
      r
  }

  /**
   * path.substr(0, path.find_last_of("/\\")): the prefix before the last
   * separator, separator excluded; the whole path when there is none
   * (substr with npos takes everything).
   */
  function Directory(path: string): (d: string)
    ensures d <= path
    ensures NoSeparator(path) ==> d == path
    ensures !NoSeparator(path) ==>
      |d| < |path| && IsSeparator(path[|d|]) && NoSeparator(path[|d| + 1..])
  {
    match FindLastSeparator(path)
    case None => path
    case Some(k) => path[..k]
  }

  /** NoSeparator of a suffix, read back as positions of the whole string. */
  lemma NoSeparatorAfter(s: string, a: nat)
    requires a < |s| && NoSeparator(s[a + 1..])
    ensures forall b :: a < b < |s| ==> !IsSeparator(s[b])
  {
    forall b | a < b < |s|
      ensures !IsSeparator(s[b])
    {
      assert s[a + 1..][b - a - 1] == s[b];
    }
  }

  /** A separator with none after it is the last one: the directory stops there. */
  lemma DirectoryAtLastSeparator(path: string, j: nat)
    requires j < |path| && IsSeparator(path[j]) && NoSeparator(path[j + 1..])
    ensures Directory(path) == path[..j]
  {
    var d := Directory(path);
    NoSeparatorAfter(path, j);
    NoSeparatorAfter(path, |d|);
    assert |d| == j;
  }

  /**
   * A texture file is opened as directory + "/" + name. The directory of that
   * joined path is the directory again when the name holds no separator, and
   * the directory followed by the name's own directory when it holds one.
   */
  lemma DirectoryOfJoin(dir: string, name: string)
    ensures Directory(dir + "/" + name) ==
      if NoSeparator(name) then dir else dir + "/" + Directory(name)
  {
    var p := dir + "/" + name;
    if NoSeparator(name) {
      assert p[|dir| + 1..] == name;
      DirectoryAtLastSeparator(p, |dir|);
      assert p[..|dir|] == dir;
    } else {
      var d := Directory(name);
      var j := |dir| + 1 + |d|;
      assert p[j + 1..] == name[|d| + 1..];
      DirectoryAtLastSeparator(p, j);
      assert p[..j] == dir + "/" + d;
    }
  }

}
