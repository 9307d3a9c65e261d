/** Serving the front end from files compiled into the binary
    (src/server/embedded_static.rs). The embedded directory is a map from
    relative path to contents. */
module EmbeddedStatic {
  import opened Strings
  import opened StaticRules

  /** The single-page-application fallback as this service answers it: the header map
      with the HTML type and `no-cache` is built but never attached to the response, so
      the index bytes go out with neither a Content-Type nor a Cache-Control header. */
  function BareIndex(bytes: seq<bv8>): (r: Response)
    ensures r.status == 200 && r.body == Contents(bytes)
    ensures r.contentType == [] && r.cacheControl == []
  {
    Response(200, [], [], Contents(bytes))
  }

  /** `serve_embedded_file`: an embedded file is served as itself; a miss outside the API
      falls back to the index page, without headers, when it is embedded; everything else
      is 404. */
  function ServeEmbedded(uriPath: string, embedded: map<string, seq<bv8>>, mime: string -> string): (r: Response)
    ensures r.status == 200 || r.status == 404
    ensures var p := RequestPath(uriPath);
      && (p in embedded ==> r == ServeAs(mime, p, p, embedded[p]))
      && (p !in embedded && !IsApiPath(p) && IndexHtml in embedded ==> r == BareIndex(embedded[IndexHtml]))
      && (r.status == 404 <==> p !in embedded && (IsApiPath(p) || IndexHtml !in embedded))
  {
    var p := RequestPath(uriPath);
    if p in embedded then ServeAs(mime, p, p, embedded[p])
    else if !IsApiPath(p) && IndexHtml in embedded then BareIndex(embedded[IndexHtml])
    else NotFound()
  }

  /** Whatever is served is embedded content: the requested file or the index page. */
  lemma ServesOnlyEmbedded(uriPath: string, embedded: map<string, seq<bv8>>, mime: string -> string)
    ensures var r := ServeEmbedded(uriPath, embedded, mime);
      r.status == 200 ==>
        exists k :: k in embedded && r.body == Contents(embedded[k]) && (k == RequestPath(uriPath) || k == IndexHtml)
  {
    var p := RequestPath(uriPath);
    var r := ServeEmbedded(uriPath, embedded, mime);
    if p in embedded {
      assert r.body == Contents(embedded[p]);
    } else if r.status == 200 {
      assert r.body == Contents(embedded[IndexHtml]);
    }
  }

  /** A missing API path is never answered with the front end. */
  lemma MissingApiPathNotFound(uriPath: string, embedded: map<string, seq<bv8>>, mime: string -> string)
    requires IsApiPath(RequestPath(uriPath)) && RequestPath(uriPath) !in embedded
    ensures ServeEmbedded(uriPath, embedded, mime) == NotFound()
  {
  }

  /** The site root serves the index page with its guessed type and the one-hour rule,
      whereas the fallback for an unknown route serves the same bytes with no type and no
      cache header at all. */
  lemma RootAndFallbackDiffer(embedded: map<string, seq<bv8>>, mime: string -> string, route: string)
    requires IndexHtml in embedded
    requires route !in embedded && route != [] && route[0] != '/' && !IsApiPath(route)
    ensures ServeEmbedded("/", embedded, mime).cacheControl == OneHour
    ensures ServeEmbedded("/", embedded, mime).contentType == mime(IndexHtml)
    ensures ServeEmbedded("/" + route, embedded, mime).contentType == []
    ensures ServeEmbedded("/" + route, embedded, mime).cacheControl == []
    ensures ServeEmbedded("/", embedded, mime).body == ServeEmbedded("/" + route, embedded, mime).body
  {
    RootServesIndex(embedded, mime);
    UnknownRouteFallsBack(embedded, mime, route);
  }

  /** The site root names the index page. */
  lemma RootServesIndex(embedded: map<string, seq<bv8>>, mime: string -> string)
    requires IndexHtml in embedded
    ensures ServeEmbedded("/", embedded, mime) == ServeAs(mime, IndexHtml, IndexHtml, embedded[IndexHtml])
    ensures ServeEmbedded("/", embedded, mime).cacheControl == OneHour
  {
    assert "/"[1..] == [];
    assert TrimLeadingSlashes("/") == [];
    assert RequestPath("/") == IndexHtml;
    IndexHtmlShape();
  }

  /** A route that is neither embedded nor under the API gets the index page fallback. */
  lemma UnknownRouteFallsBack(embedded: map<string, seq<bv8>>, mime: string -> string, route: string)
    requires IndexHtml in embedded
    requires route !in embedded && route != [] && route[0] != '/' && !IsApiPath(route)
    ensures ServeEmbedded("/" + route, embedded, mime) == BareIndex(embedded[IndexHtml])
  {
    RequestPathOfRoute(route);
  }

  /** The `/assets/` test looks at the path after its leading '/' is gone, so a file
      directly in the top-level `assets` directory is long-lived only by its extension:
      an image there is cached for an hour, not a year. */
  lemma TopLevelAssetsByExtensionOnly(embedded: map<string, seq<bv8>>, mime: string -> string, name: string)
    requires "assets/" + name in embedded && '/' !in name
    ensures var p := "assets/" + name;
      ServeEmbedded("/" + p, embedded, mime).cacheControl == Immutable <==>
        EndsWith(p, ".js") || EndsWith(p, ".css") || EndsWith(p, ".wasm")
  {
    var p := "assets/" + name;
    assert ("/" + p)[1..] == p;
    TrimUnslashed(p);
    forall j | 7 <= j < |p| ensures p[j] != '/' {
      assert p[j] == name[j - 7] && name[j - 7] in name;
    }
    NoSeparatorNoAssets(p);
  }
}
