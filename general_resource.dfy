/**
 * The string handling of a resource path: the path inside a jar is what
 * follows the last '!' of a path, without a leading '/', and a class path
 * uses '/' wherever the platform's file separator stood.
 */
module Resources {

  /** `String.lastIndexOf(c)`: the index of the last `c` in `s`, or -1 when there is none. */
  function LastIndexOf(s: string, c: char): (i: int)
    ensures -1 <= i < |s|
    ensures i >= 0 ==> s[i] == c
    ensures forall k :: i < k < |s| ==> s[k] != c
  {
    if s == [] then -1
    else if s[|s| - 1] == c then |s| - 1
    else LastIndexOf(s[..|s| - 1], c)
  }

  /** A character that does not occur has no last index. */
  lemma LastIndexOfAbsent(s: string, c: char)
    requires c !in s
    ensures LastIndexOf(s, c) == -1
  {
  }

  /** `stripJarPath`: the path after its last '!' (all of it when there is none), less one leading '/'. */
  function StripJarPath(path: string): (r: string)
    ensures '!' !in r
    ensures |r| <= |path| && r == path[|path| - |r|..]
  {
    var ret := path[LastIndexOf(path, '!') + 1..];
    if |ret| > 0 && ret[0] == '/' then ret[1..] else ret
  }

  /** Whether `r` is `s` with at most one leading '/' removed. */
  predicate LessOneSlash(s: string, r: string)
  {
    r == s || (s == "/" + r)
  }

  /** The part after the last '!' keeps everything but one leading '/'. */
  lemma StripJarPathAfterBang(jar: string, inner: string)
    requires '!' !in inner
    ensures LessOneSlash(inner, StripJarPath(jar + "!" + inner))
    ensures inner != [] && inner[0] == '/' <==> StripJarPath(jar + "!" + inner) != inner
  {
    var path := jar + "!" + inner;
    var i := LastIndexOf(path, '!');
    assert path[|jar|] == '!';
    assert i == |jar|;
    assert path[i + 1..] == inner;
    if inner != [] && inner[0] == '/' {
      assert inner == "/" + inner[1..];
      assert |inner[1..]| < |inner|;
    }
  }

  /** A path without a '!' is stripped of one leading '/' only. */
  lemma StripJarPathWithoutBang(path: string)
    requires '!' !in path
    ensures LessOneSlash(path, StripJarPath(path))
    ensures path != [] && path[0] == '/' <==> StripJarPath(path) != path
  {
    LastIndexOfAbsent(path, '!');
    assert path[0..] == path;
    if path != [] && path[0] == '/' {
      assert path == "/" + path[1..];
      assert |path[1..]| < |path|;
    }
  }

  /** The example of the documentation: the jar file's path, its '!' and the slash after it go. */
  lemma StripJarPathExample(jar: string, inner: string)
    requires jar == "file:/home/user/BraillePlot.jar" && inner == "config/example.properties"
    ensures StripJarPath(jar + "!/" + inner) == inner
  {
    assert jar + "!/" + inner == jar + "!" + ("/" + inner);
    StripJarPathAfterBang(jar, "/" + inner);
  }

  /** `s.replace(separator, "/")` for a one-character separator. */
  function ReplaceSeparator(s: string, separator: char): (r: string)
    ensures |r| == |s|
    ensures forall i :: 0 <= i < |s| ==> r[i] == (if s[i] == separator then '/' else s[i])
  {
    if s == [] then []
    else ReplaceSeparator(s[..|s| - 1], separator) + [if s[|s| - 1] == separator then '/' else s[|s| - 1]]
  }

  /** After the replacement no separator is left, and replacing again changes nothing. */
  lemma ReplaceSeparatorClears(s: string, separator: char)
    ensures separator != '/' ==> separator !in ReplaceSeparator(s, separator)
    ensures ReplaceSeparator(ReplaceSeparator(s, separator), separator) == ReplaceSeparator(s, separator)
  {
  }

  /**
   * The class path a resource path is looked up under: the jar path
   * stripped and the platform's separator turned into '/'. It holds no '!'
   * and, for a separator other than '/', no separator.
   */
  function ClassPath(resourcePath: string, separator: char): (r: string)
    ensures '!' !in r
    ensures separator != '/' ==> separator !in r
    ensures |r| <= |resourcePath|
  {
    var stripped := StripJarPath(resourcePath);
    ReplaceSeparatorClears(stripped, separator);
    ReplaceSeparator(stripped, separator)
  }
}
