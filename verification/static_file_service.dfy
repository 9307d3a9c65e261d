/** Serving the front end from a directory on disk
    (src/server/static_file_service.rs). The filesystem is the set of existing
    paths and a map from the paths that can be read to their bytes. */
module StaticFileService {
  import opened Wrappers
  import opened Strings
  import opened StaticRules
  import opened EmbeddedStatic

  /** The service: the directory served and its index page. */
  datatype Service = Service(root: string, indexFile: string)

  /** `StaticFileService::new`: the index page is `index.html` in the root. */
  function NewService(root: string): (s: Service)
    ensures s.root == root && s.indexFile == JoinPath(root, IndexHtml)
    ensures StartsWith(s.indexFile, root) && BaseName(s.indexFile) == IndexHtml
  {
    IndexHtmlShape();
    JoinPathExtends(root, IndexHtml);
    BaseNameOfJoin(root, IndexHtml);
    Service(root, JoinPath(root, IndexHtml))
  }

  /** `serve_file`: a readable file is served with the type guessed from its full path
      and the cache rule applied to its full path; an unreadable one is an error. */
  function ServeFile(filePath: string, readable: map<string, seq<bv8>>, mime: string -> string): (r: Option<Response>)
    ensures r.Some? <==> filePath in readable
    ensures r.Some? ==> r.value == ServeAs(mime, filePath, filePath, readable[filePath])
  {
    if filePath in readable then Some(ServeAs(mime, filePath, filePath, readable[filePath])) else None
  }

  /** `StaticFileService::call`: join the request path to the root, refuse it when it
      leaves the root, serve it when readable, otherwise fall back to the index page for
      non-API paths when the index exists and is readable, and answer 404 in all other
      cases. The result is always a response, never an error. */
  function Call(svc: Service, uriPath: string, existing: set<string>, readable: map<string, seq<bv8>>,
                mime: string -> string): (r: Response)
    ensures r.status == 200 || r.status == 404
    ensures var p := RequestPath(uriPath);
      var filePath := JoinPath(svc.root, p);
      && (filePath in readable ==> r == ServeAs(mime, filePath, filePath, readable[filePath]))
      && (filePath !in readable && !IsApiPath(p) && svc.indexFile in existing && svc.indexFile in readable
          ==> r == IndexFallback(readable[svc.indexFile]))
      && (r.status == 404 <==>
          filePath !in readable && (IsApiPath(p) || svc.indexFile !in existing || svc.indexFile !in readable))
  {
    var p := RequestPath(uriPath);
    var filePath := JoinPath(svc.root, p);
    JoinPathExtends(svc.root, p);
    if !StartsWith(filePath, svc.root) then NotFound()
    else match ServeFile(filePath, readable, mime)
      case Some(response) => response
      case None =>
        if !IsApiPath(p) && svc.indexFile in existing then
          match ServeFile(svc.indexFile, readable, mime)
          case Some(response) => response.(contentType := HtmlUtf8, cacheControl := NoCache)
          case None => NotFound()
        else NotFound()
  }

  /** The containment check never refuses a request: the trimmed path is relative, so
      joining it to the root always yields a path under the root, `..` segments
      included. */
  lemma ContainmentNeverRefuses(root: string, uriPath: string)
    ensures StartsWith(JoinPath(root, RequestPath(uriPath)), root)
  {
    JoinPathExtends(root, RequestPath(uriPath));
  }

  /** A `..` segment passes the containment check: the joined path still starts with the
      root although it names a file outside it. */
  lemma DotDotNotFiltered(root: string)
    requires root != [] && root[|root| - 1] != '/'
    ensures JoinPath(root, RequestPath("/../secret")) == root + "/../secret"
    ensures StartsWith(JoinPath(root, RequestPath("/../secret")), root)
  {
    var rel := "../secret";
    assert "/../secret"[1..] == rel && rel[0] == '.';
    TrimUnslashed(rel);
    assert RequestPath("/../secret") == rel;
    assert JoinPath(root, rel) == root + "/" + rel;
    assert root + "/" + rel == root + "/../secret";
    JoinPathExtends(root, rel);
  }

  /** The cache rule looks at the full path on disk, so a root whose own path contains
      `/assets/` makes every file it serves long-lived. */
  lemma CacheRuleSeesRoot(root: string, uriPath: string, existing: set<string>, readable: map<string, seq<bv8>>,
                          mime: string -> string)
    requires Contains(root, "/assets/")
    requires JoinPath(root, RequestPath(uriPath)) in readable
    ensures Call(NewService(root), uriPath, existing, readable, mime).cacheControl == Immutable
  {
    var p := RequestPath(uriPath);
    var filePath := JoinPath(root, p);
    JoinPathExtends(root, p);
    var i := ContainsWitness(root, "/assets/");
    assert filePath[i..i + 8] == root[i..i + 8];
    ContainsAt(filePath, "/assets/", i);
  }

  /** The same request for a file in the top-level `assets` directory is long-lived on
      disk and short-lived when embedded: on disk the root's separator precedes `assets/`. */
  lemma TopLevelAssetsLongLivedOnDisk(root: string, name: string)
    requires root != [] && root[|root| - 1] != '/' && name != [] && name[0] != '/'
    ensures LongLived(JoinPath(root, RequestPath("/assets/" + name)))
  {
    var p := "assets/" + name;
    assert p[0] == 'a' && "/assets/" + name == "/" + p;
    RequestPathOfRoute(p);
    JoinedAssetsMarked(root, p);
  }

  /** Joining a path that starts `assets/` to a root without a trailing separator puts
      `/assets/` into the result. */
  lemma JoinedAssetsMarked(root: string, p: string)
    requires root != [] && root[|root| - 1] != '/' && |p| >= 7 && p[..7] == "assets/"
    ensures Contains(JoinPath(root, p), "/assets/")
  {
    assert p[..1] == "a";
    var filePath := JoinPath(root, p);
    var tail := "/" + p;
    assert filePath == root + tail;
    assert tail[..8] == "/assets/";
    assert filePath[|root|..|root| + 8] == tail[..8];
    ContainsAt(filePath, "/assets/", |root|);
  }

  /** Whatever is served with status 200 is the bytes of a readable file: the requested
      one or the index page. */
  lemma ServesOnlyReadable(svc: Service, uriPath: string, existing: set<string>, readable: map<string, seq<bv8>>,
                           mime: string -> string)
    ensures var r := Call(svc, uriPath, existing, readable, mime);
      r.status == 200 ==>
        exists k :: k in readable && r.body == Contents(readable[k])
          && (k == JoinPath(svc.root, RequestPath(uriPath)) || k == svc.indexFile)
  {
    var filePath := JoinPath(svc.root, RequestPath(uriPath));
    var r := Call(svc, uriPath, existing, readable, mime);
    if filePath in readable {
      assert r.body == Contents(readable[filePath]);
    } else if r.status == 200 {
      assert r.body == Contents(readable[svc.indexFile]);
    }
  }

  /** The two services answer the same unknown front-end route with the same index bytes
      but different headers: from disk as HTML and `no-cache`, embedded with neither a
      Content-Type nor a Cache-Control header. */
  lemma UnknownRouteHeadersDiffer(root: string, route: string, existing: set<string>,
                                  readable: map<string, seq<bv8>>, embedded: map<string, seq<bv8>>,
                                  mime: string -> string)
    requires route != [] && route[0] != '/' && !IsApiPath(route)
    requires JoinPath(root, route) !in readable && route !in embedded
    requires NewService(root).indexFile in existing && NewService(root).indexFile in readable
    requires IndexHtml in embedded && embedded[IndexHtml] == readable[NewService(root).indexFile]
    ensures var onDisk := Call(NewService(root), "/" + route, existing, readable, mime);
      var inBinary := ServeEmbedded("/" + route, embedded, mime);
      && onDisk.status == inBinary.status == 200
      && onDisk.body == inBinary.body
      && onDisk.contentType == HtmlUtf8 && onDisk.cacheControl == NoCache
      && inBinary.contentType == [] && inBinary.cacheControl == []
  {
    RequestPathOfRoute(route);
  }
}
