// `lastPathSegment`: the ID at the end of an authorization URL's path.
// `lastPathSegment` deletes the match of the regular expression `^.*/`; since `.`
// does not match a newline, the match ends at the last slash before the
// first newline.
module UrlPaths {
  import opened Strings

  // Length of the match of `^.*/` in `path`, 0 when there is none.
  function PrefixMatchLength(path: string): (n: nat)
    ensures n <= |path|
    ensures n > 0 ==> path[n - 1] == '/'
    ensures forall k :: 0 <= k < n ==> path[k] != '\n'
    ensures forall k :: n <= k < IndexOf(path, '\n') ==> path[k] != '/'
  {
    var line := path[..IndexOf(path, '\n')];
    LastIndexOf(line, '/') + 1
  }

  function LastPathSegment(path: string): (segment: string) {
    path[PrefixMatchLength(path)..]
  }

  /**
   * The segment is a suffix of the path; without a newline it holds no
   * slash and is either the whole path or preceded by a slash.
   */
  lemma LastPathSegmentIsLastSegment(path: string)
    ensures var segment := LastPathSegment(path);
      && |segment| <= |path| && path[|path| - |segment|..] == segment
      && ('\n' !in path ==> '/' !in segment)
      && ('\n' !in path && |segment| < |path| ==> path[|path| - |segment| - 1] == '/')
  {
    var n := PrefixMatchLength(path);
    if '\n' !in path {
      assert IndexOf(path, '\n') == |path|;
      assert path[..|path|] == path;
      assert forall k :: n <= k < |path| ==> path[k] != '/';
    }
  }

  /**
   * Building a path from a prefix that ends in a slash and an ID without
   * slashes, then taking its last segment, gives the ID back.
   */
  lemma SegmentOfBuiltPath(prefix: string, id: string)
    requires |prefix| > 0 && prefix[|prefix| - 1] == '/'
    requires '\n' !in prefix && '/' !in id
    ensures LastPathSegment(prefix + id) == id
  {
    var path := prefix + id;
    var nl := IndexOf(path, '\n');
    assert forall k :: 0 <= k < |prefix| ==> path[k] == prefix[k];
    assert nl >= |prefix|;
    var line := path[..nl];
    assert line[|prefix| - 1] == '/';
    assert forall k :: |prefix| <= k < |line| ==> line[k] == id[k - |prefix|];
    assert LastIndexOf(line, '/') == |prefix| - 1;
    assert path[|prefix|..] == id;
  }

  /** Without a newline, the segment is exactly what follows the last slash. */
  lemma SegmentFollowsLastSlash(path: string)
    requires '\n' !in path
    ensures LastPathSegment(path) == path[LastIndexOf(path, '/') + 1..]
  {
    assert IndexOf(path, '\n') == |path|;
    assert path[..|path|] == path;
  }

  /** Characters after a newline never shorten the segment: "a/b\nc/d" gives "b\nc/d". */
  lemma NewlineStopsTheMatch()
    ensures LastPathSegment("a/b\nc/d") == "b\nc/d"
  {
    var path := "a/b\nc/d";
    assert IndexOf(path, '\n') == 3;
    assert path[..3] == "a/b";
    assert LastIndexOf("a/b", '/') == 1;
  }
}
