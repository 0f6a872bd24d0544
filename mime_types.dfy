/** MIME type resolution by file-name suffix (`CustomSchemeHandler.getMimeType`). */
module MimeTypes {

  const JavaScript := "application/javascript"
  const Css := "text/css"
  const Html := "text/html"
  const Png := "image/png"
  const Jpeg := "image/jpeg"
  const OctetStream := "application/octet-stream"

  /** The six content types the resolver can answer with. */
  const KnownTypes: set<string> := {JavaScript, Css, Html, Png, Jpeg, OctetStream}

  /** `s.hasSuffix(suffix)`, compared character by character. */
  predicate HasSuffix(s: string, suffix: string)
  {
    |suffix| <= |s| && s[|s| - |suffix|..] == suffix
  }

  /** Whether `url` ends with one of the recognised extensions. */
  predicate HasKnownExtension(url: string)
  {
    HasSuffix(url, ".js") || HasSuffix(url, ".css") || HasSuffix(url, ".html")
    || HasSuffix(url, ".png") || HasSuffix(url, ".jpg") || HasSuffix(url, ".jpeg")
  }

  /**
   * The last two characters of the six extensions differ pairwise (except
   * for the two JPEG spellings), so a string ends with at most one of
   * them: the priority order of the resolver never decides anything.
   */
  lemma ExtensionsExclusive(url: string)
    ensures HasSuffix(url, ".js") ==>
      (!HasSuffix(url, ".css") && !HasSuffix(url, ".html") && !HasSuffix(url, ".png")
       && !HasSuffix(url, ".jpg") && !HasSuffix(url, ".jpeg"))
    ensures HasSuffix(url, ".css") ==>
      (!HasSuffix(url, ".html") && !HasSuffix(url, ".png") && !HasSuffix(url, ".jpg")
       && !HasSuffix(url, ".jpeg"))
    ensures HasSuffix(url, ".html") ==>
      (!HasSuffix(url, ".png") && !HasSuffix(url, ".jpg") && !HasSuffix(url, ".jpeg"))
    ensures HasSuffix(url, ".png") ==> !HasSuffix(url, ".jpg") && !HasSuffix(url, ".jpeg")
  {
    var n := |url|;
    if HasSuffix(url, ".js") {
      assert url[n - 2] == ".js"[1];
    }
    if HasSuffix(url, ".css") {
      assert url[n - 2] == ".css"[2];
    }
    if HasSuffix(url, ".html") {
      assert url[n - 2] == ".html"[3];
    }
    if HasSuffix(url, ".png") {
      assert url[n - 2] == ".png"[2];
    }
    if HasSuffix(url, ".jpg") {
      assert url[n - 2] == ".jpg"[2];
    }
    if HasSuffix(url, ".jpeg") {
      assert url[n - 2] == ".jpeg"[3];
    }
  }

  /**
   * The content type for `url`, chosen by its extension; anything else,
   * a trailing query string included, is an opaque byte stream.
   */
  function GetMimeType(url: string): (mime: string)
    ensures mime in KnownTypes
    ensures HasSuffix(url, ".js") ==> mime == JavaScript
    ensures HasSuffix(url, ".css") ==> mime == Css
    ensures HasSuffix(url, ".html") ==> mime == Html
    ensures HasSuffix(url, ".png") ==> mime == Png
    ensures HasSuffix(url, ".jpg") || HasSuffix(url, ".jpeg") ==> mime == Jpeg
    ensures mime == OctetStream <==> !HasKnownExtension(url)
  {
    ExtensionsExclusive(url);
    if HasSuffix(url, ".js") then JavaScript
    else if HasSuffix(url, ".css") then Css
    else if HasSuffix(url, ".html") then Html
    else if HasSuffix(url, ".png") then Png
    else if HasSuffix(url, ".jpg") || HasSuffix(url, ".jpeg") then Jpeg
    else OctetStream
  }

  /** Suffix matching is exact: a query string after the extension hides it. */
  lemma QueryStringHidesExtension()
    ensures GetMimeType("a/b.js") == JavaScript
    ensures GetMimeType("a.js?v=1") == OctetStream
    ensures GetMimeType("x.unknown") == OctetStream
  {
  }
}
