/**
 * The name of the cache file for a URL (`getFilePath`): the URL's last path
 * component, placed in one fixed cache directory. The directory is the same
 * for every URL, so a cache file is identified by that name alone.
 */
module FilePaths {

  /** Characters that end the path of a URL: the query and fragment delimiters. */
  predicate EndsPath(c: char)
  {
    c == '?' || c == '#'
  }

  /** The part of a URL string before its query or fragment. */
  function PathPart(url: string): string
  {
    if url == [] || EndsPath(url[0]) then []
    else [url[0]] + PathPart(url[1..])
  }

  /** The text after the last `/` of `s` (all of `s` when it has none). */
  function AfterLastSlash(s: string): string
  {
    if s == [] || s[|s| - 1] == '/' then []
    else AfterLastSlash(s[..|s| - 1]) + [s[|s| - 1]]
  }

  /**
   * `url.lastPathComponent`, and with it the cache file name for `url`. It
   * is a single segment: no slash, no query, no fragment, so every cache
   * file lies directly in the one cache directory. For a URL that is only a
   * scheme and host, or whose path is `/` or ends in a slash, it is not
   * Foundation's `lastPathComponent`: `http://h` gives `h`, and `http://h/`
   * gives the empty name.
   */
  function FilePath(url: string): (name: string)
    ensures IsSegment(name)
  {
    PathPartIsPlainPrefix(url);
    AfterLastSlashIsFinalSegment(PathPart(url));
    AfterLastSlash(PathPart(url))
  }

  /** The path part is the longest prefix free of `?` and `#`. */
  lemma {:induction false} PathPartIsPlainPrefix(url: string)
    ensures var p := PathPart(url);
      && |p| <= |url| && p == url[..|p|]
      && IsPlain(p)
      && (|p| < |url| ==> EndsPath(url[|p|]))
  {
    if url != [] && !EndsPath(url[0]) {
      PathPartIsPlainPrefix(url[1..]);
    }
  }

  /** The text after the last slash is a slash-free suffix preceded by a slash or the start. */
  lemma {:induction false} AfterLastSlashIsFinalSegment(s: string)
    ensures var name := AfterLastSlash(s);
      && |name| <= |s| && name == s[|s| - |name|..]
      && '/' !in name
      && (|name| < |s| ==> s[|s| - |name| - 1] == '/')
  {
    if s != [] && s[|s| - 1] != '/' {
      AfterLastSlashIsFinalSegment(s[..|s| - 1]);
    }
  }

  /** A string free of query and fragment delimiters. */
  predicate IsPlain(s: string)
  {
    '?' !in s && '#' !in s
  }

  /** A string free of path separators, query and fragment delimiters. */
  predicate IsSegment(n: string)
  {
    '/' !in n && IsPlain(n)
  }

  /** Without a query or fragment, the path part is the whole URL. */
  lemma {:induction false} PathPartOfPlainUrl(url: string)
    requires IsPlain(url)
    ensures PathPart(url) == url
  {
    if url != [] {
      PathPartOfPlainUrl(url[1..]);
      assert [url[0]] + url[1..] == url;
    }
  }

  /** The text after the last slash of `dir + "/" + n` is `n` when `n` has no slash. */
  lemma {:induction false} AfterLastSlashOfSegment(dir: string, n: string)
    requires '/' !in n
    ensures AfterLastSlash(dir + "/" + n) == n
  {
    var s := dir + "/" + n;
    if n == [] {
      assert s[|s| - 1] == '/';
    } else {
      assert s[..|s| - 1] == dir + "/" + n[..|n| - 1];
      AfterLastSlashOfSegment(dir, n[..|n| - 1]);
      assert n[..|n| - 1] + [n[|n| - 1]] == n;
    }
  }

  /**
   * The cache file name depends on the final segment only: any two URLs
   * without query or fragment that end in the same segment share one file,
   * whatever their hosts and directories. (A URL that is only a scheme and
   * host, or ends in a slash, is where `FilePath` departs from
   * `lastPathComponent`; see `FilePath`.)
   */
  lemma SameFinalSegmentSameFile(dir1: string, dir2: string, n: string)
    requires IsPlain(dir1)
    requires IsPlain(dir2)
    requires IsSegment(n)
    ensures FilePath(dir1 + "/" + n) == n
    ensures FilePath(dir1 + "/" + n) == FilePath(dir2 + "/" + n)
  {
    PathPartOfPlainUrl(dir1 + "/" + n);
    PathPartOfPlainUrl(dir2 + "/" + n);
    AfterLastSlashOfSegment(dir1, n);
    AfterLastSlashOfSegment(dir2, n);
  }

  /** Query and fragment are not part of the file name. */
  lemma QueryIsNotPartOfName(dir: string, n: string, query: string)
    requires IsPlain(dir)
    requires IsSegment(n)
    ensures FilePath(dir + "/" + n + "?" + query) == n
  {
    var u := dir + "/" + n;
    PathPartOfPlainUrl(u);
    PathPartPrefix(u, "?" + query);
    assert dir + "/" + n + "?" + query == u + ("?" + query);
    AfterLastSlashOfSegment(dir, n);
  }

  /** The path part of a plain prefix followed by a delimiter is that prefix. */
  lemma {:induction false} PathPartPrefix(u: string, rest: string)
    requires IsPlain(u)
    requires rest != [] && EndsPath(rest[0])
    ensures PathPart(u + rest) == u
  {
    if u != [] {
      assert (u + rest)[1..] == u[1..] + rest;
      PathPartPrefix(u[1..], rest);
      assert [u[0]] + u[1..] == u;
    } else {
      assert u + rest == rest;
    }
  }

  /** Two URLs on different hosts and in different directories get one file name. */
  lemma CollidingFileNames()
    ensures FilePath("http://h1/x/r.png") == FilePath("http://h2/y/r.png") == "r.png"
  {
    SameFinalSegmentSameFile("http://h1/x", "http://h2/y", "r.png");
    assert "http://h1/x" + "/" + "r.png" == "http://h1/x/r.png";
    assert "http://h2/y" + "/" + "r.png" == "http://h2/y/r.png";
  }
}
