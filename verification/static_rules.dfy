/** What the two ways of serving the web front end have in common: how the
    request path is turned into a file path, which files may be cached for a
    year, and the shape of the responses. The MIME type guessed from a file
    name is a parameter (`mime`), since the guessing table is a library's. */
module StaticRules {
  import opened Strings

  /** `trim_start_matches('/')`: every leading '/' removed. */
  function TrimLeadingSlashes(s: string): (r: string)
    ensures !StartsWith(r, "/")
    ensures EndsWith(s, r)
    ensures forall i :: 0 <= i < |s| - |r| ==> s[i] == '/'
    decreases |s|
  {
    if s != [] && s[0] == '/' then TrimLeadingSlashes(s[1..]) else s
  }

  /** A path without a leading '/' is left alone. */
  lemma TrimUnslashed(s: string)
    requires s == [] || s[0] != '/'
    ensures TrimLeadingSlashes(s) == s
  {
  }

  /** Any number of extra leading slashes makes no difference. */
  lemma {:induction false} TrimAbsorbsSlashes(s: string, k: nat)
    ensures TrimLeadingSlashes(seq(k, _ => '/') + s) == TrimLeadingSlashes(s)
  {
    if k > 0 {
      assert (seq(k, _ => '/') + s)[1..] == seq(k - 1, _ => '/') + s;
      TrimAbsorbsSlashes(s, k - 1);
    } else {
      assert seq(k, _ => '/') + s == s;
    }
  }

  const IndexHtml: string := "index.html"

  /** The index page's name is relative, holds no separator and is not long-lived. */
  lemma IndexHtmlShape()
    ensures IndexHtml != [] && !StartsWith(IndexHtml, "/") && '/' !in IndexHtml
    ensures !LongLived(IndexHtml)
  {
    assert IndexHtml[..1] == "i";
    assert forall i :: 0 <= i < |IndexHtml| ==> IndexHtml[i] != '/';
    assert '/' !in IndexHtml;
    NoSeparatorNoAssets(IndexHtml);
  }

  /** `/assets/` needs a '/' seven characters after its start, so text with no '/' from
      its eighth character on cannot contain it. */
  lemma {:induction false} NoSeparatorNoAssets(s: string)
    requires forall j :: 7 <= j < |s| ==> s[j] != '/'
    ensures !Contains(s, "/assets/")
    decreases |s|
  {
    if |s| >= 8 {
      assert s[..8][7] == s[7];
    }
    if s != [] {
      assert forall j :: 7 <= j < |s[1..]| ==> s[1..][j] == s[j + 1];
      NoSeparatorNoAssets(s[1..]);
    }
  }

  /** The path a request names: its URI path without leading slashes, and the index page
      when nothing is left. */
  function RequestPath(uriPath: string): (p: string)
    ensures p != [] && !StartsWith(p, "/")
    ensures p == IndexHtml <==> TrimLeadingSlashes(uriPath) in {[], IndexHtml}
    ensures p != IndexHtml ==> p == TrimLeadingSlashes(uriPath)
  {
    var trimmed := TrimLeadingSlashes(uriPath);
    IndexHtmlShape();
    if trimmed == [] then IndexHtml else trimmed
  }

  /** A route without a leading '/', requested as `/route`, names itself. */
  lemma RequestPathOfRoute(route: string)
    requires route != [] && route[0] != '/'
    ensures RequestPath("/" + route) == route
  {
    var uri := "/" + route;
    assert uri[1..] == route;
    TrimUnslashed(route);
    assert TrimLeadingSlashes(uri) == route;
  }

  /** The routes the front end must not shadow. */
  predicate IsApiPath(p: string) {
    StartsWith(p, "api/")
  }

  const Immutable: string := "public, max-age=31536000, immutable"
  const OneHour: string := "public, max-age=3600"
  const NoCache: string := "no-cache"
  const HtmlUtf8: string := "text/html; charset=utf-8"

  /** Build output whose name changes with its content: anything under an `assets`
      directory and every script, stylesheet and WebAssembly module. */
  predicate LongLived(path: string) {
    Contains(path, "/assets/") || EndsWith(path, ".js") || EndsWith(path, ".css") || EndsWith(path, ".wasm")
  }

  /** The cache-control header of a served file: a year and immutable for long-lived
      files, one hour for all others. */
  function CacheControl(path: string): (h: string)
    ensures h == Immutable <==> LongLived(path)
    ensures h == OneHour <==> !LongLived(path)
  {
    if LongLived(path) then Immutable else OneHour
  }

  datatype Body = Contents(bytes: seq<bv8>) | Message(text: string)

  datatype Response = Response(status: nat, contentType: string, cacheControl: string, body: Body)

  /** `not_found_response`: 404 with a fixed message and no headers. */
  function NotFound(): (r: Response)
    ensures r.status == 404 && r.body == Message("File not found")
    ensures r.contentType == [] && r.cacheControl == []
  {
    Response(404, [], [], Message("File not found"))
  }

  /** A file served as itself: 200, its guessed type, the cache rule applied to `cachePath`. */
  function ServeAs(mime: string -> string, typePath: string, cachePath: string, bytes: seq<bv8>): (r: Response)
    ensures r.status == 200 && r.body == Contents(bytes)
    ensures r.contentType == mime(typePath)
    ensures r.cacheControl == Immutable <==> LongLived(cachePath)
  {
    Response(200, mime(typePath), CacheControl(cachePath), Contents(bytes))
  }

  /** The single-page-application fallback of the disk service: the index page as HTML,
      never cached. */
  function IndexFallback(bytes: seq<bv8>): (r: Response)
    ensures r.status == 200 && r.body == Contents(bytes)
    ensures r.contentType == HtmlUtf8 && r.cacheControl == NoCache
  {
    Response(200, HtmlUtf8, NoCache, Contents(bytes))
  }
}
