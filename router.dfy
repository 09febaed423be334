/** The routing half of the upload request handler (ufs-server.js, lines
    75-153 and 188-193): the prefix test, the path extraction, the
    two-segment matcher, the CORS headers and the choice of what happens to
    the request. The store registry, the file collection and the token check
    are oracles in `Env`; every question put to them is recorded in the
    decision, so that the order of the checks can be stated. */
module Router {
  import opened Options
  import opened JsString

  /** One segment of the upload route: what `([^\/\?]+)` captures. */
  predicate Segment(s: string) {
    |s| > 0 && forall i :: 0 <= i < |s| ==> s[i] != '/' && s[i] != '?'
  }

  /** `path` is the upload route "/<store>/<fileId>". */
  predicate UploadPath(path: string, store: string, fileId: string) {
    path == "/" + store + "/" + fileId && Segment(store) && Segment(fileId)
  }

  /** The index of the first '/' in `s`, or |s| when there is none. */
  function SlashIndex(s: string): (k: nat)
    ensures k <= |s|
    ensures k < |s| ==> s[k] == '/'
    ensures forall i :: 0 <= i < k ==> s[i] != '/'
  {
    if s == [] || s[0] == '/' then 0 else 1 + SlashIndex(s[1..])
  }

  /** The regular expression ^\/([^\/\?]+)\/([^\/\?]+)$ applied to `path`:
      its two capture groups, or None when it does not match. */
  function MatchPath(path: string): (m: Option<(string, string)>)
    ensures m.Some? ==> UploadPath(path, m.value.0, m.value.1)
  {
    if |path| == 0 || path[0] != '/' then None
    else
      var rest := path[1..];
      var k := SlashIndex(rest);
      if k < |rest| && Segment(rest[..k]) && Segment(rest[k + 1..]) then
        assert path == "/" + rest[..k] + "/" + rest[k + 1..];
        Some((rest[..k], rest[k + 1..]))
      else None
  }

  /** Every upload route is matched, and its capture groups are its segments. */
  lemma {:induction false} MatchPathComplete(path: string, store: string, fileId: string)
    requires UploadPath(path, store, fileId)
    ensures MatchPath(path) == Some((store, fileId))
  {
    var rest := path[1..];
    assert rest == store + "/" + fileId;
    assert forall i :: 0 <= i < |store| ==> rest[i] == store[i];
    assert rest[|store|] == '/';
    var k := SlashIndex(rest);
    assert k == |store|;
    assert rest[..k] == store;
    assert rest[k + 1..] == fileId;
  }

  /** The matcher accepts exactly the upload routes, and parsing
      "/" + a + "/" + b gives back (a, b). */
  lemma MatchPathIff(path: string, store: string, fileId: string)
    ensures MatchPath(path) == Some((store, fileId)) <==> UploadPath(path, store, fileId)
  {
    if UploadPath(path, store, fileId) {
      MatchPathComplete(path, store, fileId);
    }
  }

  /** The matcher fails exactly on the paths that are no upload route. */
  lemma MatchPathFails(path: string)
    ensures MatchPath(path).None? <==> forall a, b :: !UploadPath(path, a, b)
  {
    if MatchPath(path).None? {
      forall a, b | UploadPath(path, a, b) ensures false {
        MatchPathComplete(path, a, b);
      }
    }
  }

  /** What the handler reads of a request. `verb` is the HTTP method;
      `pathname` is what URL.parse gives for `url`; `token` is the `token` query parameter; `progress` is
      parseFloat of the `progress` query parameter, None when it is NaN. */
  datatype Request = Request(url: string, pathname: string, verb: string,
                             token: Option<string>, progress: Option<real>)

  /** The external collaborators: does a store of that name exist, does its
      collection hold a record with that id, and does the store accept the
      token for that file. */
  datatype Env = Env(storeExists: string -> bool,
                     fileExists: (string, string) -> bool,
                     tokenValid: (string, Option<string>, string) -> bool)

  /** A question put to one of the collaborators. */
  datatype Query =
    | StoreLookup(store: string)
    | FileLookup(store: string, fileId: string)
    | TokenCheck(store: string, token: Option<string>, fileId: string)

  /** What becomes of the request: handed to the next middleware, answered
      with a status and an empty body, or its body streamed to the temp file. */
  datatype Outcome = PassOn | Reply(status: int) | StartUpload(store: string, fileId: string)

  /** The headers the handler set, the questions it asked, and the outcome. */
  datatype Decision = Decision(headers: map<string, string>, queries: seq<Query>, outcome: Outcome)

  /** The headers `allowCORS` sets. */
  const CorsHeaders: map<string, string> :=
    map["Access-Control-Allow-Methods" := "POST",
        "Access-Control-Allow-Origin" := "*",
        "Access-Control-Allow-Headers" := "Content-Type"]

  /** The path routed on: the pathname without its first |storesPath| + 1
      characters, wherever in the url the prefix was found. */
  function ExtractPath(storesPath: string, pathname: string): (path: string)
    ensures |path| == if |storesPath| + 1 < |pathname| then |pathname| - |storesPath| - 1 else 0
    ensures forall i :: 0 <= i < |path| ==> path[i] == pathname[|storesPath| + 1 + i]
  {
    Substr(pathname, |storesPath| + 1)
  }

  /** The request goes on to the next middleware with nothing set. */
  const Untouched := Decision(map[], [], PassOn)

  /** The decision the handler takes for `req` under the configured `storesPath`. */
  function Handle(storesPath: string, req: Request, env: Env): (d: Decision)
    ensures (forall i :: !OccursAt(req.url, storesPath, i)) ==> d == Untouched
    ensures d.headers == map[] ||
            (d.headers == CorsHeaders &&
             |d.queries| > 0 && d.queries[0].StoreLookup? && env.storeExists(d.queries[0].store))
    ensures d.outcome.Reply? ==> d.outcome.status in {400, 403, 404}
    ensures d.outcome.StartUpload? ==>
              req.verb == "POST" && d.headers == CorsHeaders &&
              UploadPath(ExtractPath(storesPath, req.pathname), d.outcome.store, d.outcome.fileId) &&
              env.storeExists(d.outcome.store) &&
              env.fileExists(d.outcome.store, d.outcome.fileId) &&
              env.tokenValid(d.outcome.store, req.token, d.outcome.fileId)
  {
    if IndexOf(req.url, storesPath) == -1 then Untouched
    else Dispatch(ExtractPath(storesPath, req.pathname), req.verb, req.token, env)
  }

  /** Lines 93-193: the choice made by method, once the prefix was found. */
  function Dispatch(path: string, verb: string, token: Option<string>, env: Env): Decision {
    if verb == "OPTIONS" || verb == "POST" then
      match MatchPath(path)
      case None => Decision(map[], [], Reply(400))
      case Some((store, fileId)) => Authorize(verb, store, fileId, token, env)
    else if verb == "GET" then Decision(map[], [], Reply(404))
    else Untouched
  }

  /** Lines 104-153: the store, file and token checks for a matched route. */
  function Authorize(verb: string, store: string, fileId: string, token: Option<string>, env: Env): Decision {
    if !env.storeExists(store) then
      Decision(map[], [StoreLookup(store)], Reply(404))
    else if verb == "OPTIONS" then
      Decision(CorsHeaders, [StoreLookup(store)], PassOn)
    else if !env.fileExists(store, fileId) then
      Decision(CorsHeaders, [StoreLookup(store), FileLookup(store, fileId)], Reply(404))
    else if !env.tokenValid(store, token, fileId) then
      Decision(CorsHeaders, [StoreLookup(store), FileLookup(store, fileId), TokenCheck(store, token, fileId)], Reply(403))
    else
      Decision(CorsHeaders, [StoreLookup(store), FileLookup(store, fileId), TokenCheck(store, token, fileId)],
               StartUpload(store, fileId))
  }

  /** The url contains the configured prefix somewhere (query string included). */
  ghost predicate UnderPrefix(storesPath: string, url: string) {
    exists i :: OccursAt(url, storesPath, i)
  }

  /** Lines 94-102, 119-127: a malformed path under the prefix is refused
      with 400 before any store lookup and without CORS headers. */
  lemma MalformedPathRefused(storesPath: string, req: Request, env: Env)
    requires UnderPrefix(storesPath, req.url)
    requires req.verb == "OPTIONS" || req.verb == "POST"
    requires forall a, b :: !UploadPath(ExtractPath(storesPath, req.pathname), a, b)
    ensures Handle(storesPath, req, env) == Decision(map[], [], Reply(400))
  {
    MatchPathFails(ExtractPath(storesPath, req.pathname));
  }

  /** Lines 104-110, 129-135: an unknown store is answered 404 after one
      store lookup and without CORS headers. */
  lemma UnknownStoreRefused(storesPath: string, req: Request, env: Env, store: string, fileId: string)
    requires UnderPrefix(storesPath, req.url)
    requires req.verb == "OPTIONS" || req.verb == "POST"
    requires UploadPath(ExtractPath(storesPath, req.pathname), store, fileId)
    requires !env.storeExists(store)
    ensures Handle(storesPath, req, env) == Decision(map[], [StoreLookup(store)], Reply(404))
  {
    MatchPathComplete(ExtractPath(storesPath, req.pathname), store, fileId);
  }

  /** Lines 112-115: for a known store an OPTIONS request gets exactly the
      three CORS headers and is handed on without a status. */
  lemma PreflightAllowed(storesPath: string, req: Request, env: Env, store: string, fileId: string)
    requires UnderPrefix(storesPath, req.url)
    requires req.verb == "OPTIONS"
    requires UploadPath(ExtractPath(storesPath, req.pathname), store, fileId)
    requires env.storeExists(store)
    ensures Handle(storesPath, req, env) == Decision(CorsHeaders, [StoreLookup(store)], PassOn)
  {
    MatchPathComplete(ExtractPath(storesPath, req.pathname), store, fileId);
  }

  /** Lines 137-156: a POST to a known store gets the CORS headers, then the
      file record is looked up (404 when missing), then the token is checked
      (403 when refused), and only then is the upload started. */
  lemma PostChecksInOrder(storesPath: string, req: Request, env: Env, store: string, fileId: string)
    requires UnderPrefix(storesPath, req.url)
    requires req.verb == "POST"
    requires UploadPath(ExtractPath(storesPath, req.pathname), store, fileId)
    requires env.storeExists(store)
    ensures var d := Handle(storesPath, req, env);
            var asked := [StoreLookup(store), FileLookup(store, fileId)];
            var checked := asked + [TokenCheck(store, req.token, fileId)];
            d.headers == CorsHeaders &&
            (!env.fileExists(store, fileId) ==> d.queries == asked && d.outcome == Reply(404)) &&
            (env.fileExists(store, fileId) && !env.tokenValid(store, req.token, fileId) ==>
               d.queries == checked && d.outcome == Reply(403)) &&
            (env.fileExists(store, fileId) && env.tokenValid(store, req.token, fileId) ==>
               d.queries == checked && d.outcome == StartUpload(store, fileId))
  {
    MatchPathComplete(ExtractPath(storesPath, req.pathname), store, fileId);
  }

  /** Lines 188-193: under the prefix a GET is always answered 404, and any
      method other than OPTIONS, POST and GET is handed on untouched. */
  lemma OtherMethods(storesPath: string, req: Request, env: Env)
    requires UnderPrefix(storesPath, req.url)
    requires req.verb != "OPTIONS" && req.verb != "POST"
    ensures req.verb == "GET" ==> Handle(storesPath, req, env) == Decision(map[], [], Reply(404))
    ensures req.verb != "GET" ==> Handle(storesPath, req, env) == Untouched
  {
  }

  /** Lines 77 and 84: only the pathname is routed on; where the prefix was
      found in the url does not matter. */
  lemma PathnameDecides(storesPath: string, req1: Request, req2: Request, env: Env)
    requires UnderPrefix(storesPath, req1.url) && UnderPrefix(storesPath, req2.url)
    requires req1.pathname == req2.pathname && req1.verb == req2.verb && req1.token == req2.token
    ensures Handle(storesPath, req1, env) == Handle(storesPath, req2, env)
  {
  }

  /** The stores used by the example requests: store "avatars" holds file
      "f123", whose upload token is "T". */
  const AvatarsEnv := Env(s => s == "avatars",
                          (s, f) => s == "avatars" && f == "f123",
                          (s, t, f) => s == "avatars" && t == Some("T") && f == "f123")

  /** The example pathname /ufs/avatars/f123 leaves "/avatars/f123" to
      route on, the upload route of file "f123" in store "avatars". */
  lemma AvatarsRoute()
    ensures ExtractPath("ufs", "/ufs/avatars/f123") == "/avatars/f123"
    ensures UploadPath("/avatars/f123", "avatars", "f123")
  {
  }

  /** OPTIONS /ufs/avatars/f123 for an existing store carries the CORS headers. */
  lemma PreflightExample()
    ensures Handle("ufs", Request("/ufs/avatars/f123", "/ufs/avatars/f123", "OPTIONS", None, None), AvatarsEnv)
            == Decision(CorsHeaders, [StoreLookup("avatars")], PassOn)
  {
    assert OccursAt("/ufs/avatars/f123", "ufs", 1);
    AvatarsRoute();
    PreflightAllowed("ufs", Request("/ufs/avatars/f123", "/ufs/avatars/f123", "OPTIONS", None, None),
                     AvatarsEnv, "avatars", "f123");
  }

  /** "avatars/" holds its only '/' at its end, so "/avatars/" has no second segment. */
  lemma NoSecondSegment()
    ensures MatchPath("/avatars/") == None
  {
    assert SlashIndex("avatars/") == 7;
  }

  /** POST /ufs/avatars/ (no second segment) is refused with 400, without a
      store lookup and without CORS headers. */
  lemma MissingSegmentExample()
    ensures Handle("ufs", Request("/ufs/avatars/", "/ufs/avatars/", "POST", None, None), AvatarsEnv)
            == Decision(map[], [], Reply(400))
  {
    assert OccursAt("/ufs/avatars/", "ufs", 1);
    assert ExtractPath("ufs", "/ufs/avatars/") == "/avatars/";
    NoSecondSegment();
  }

  /** The url /abc/avatars/f123?x=ufs holds the prefix only in its query string. */
  lemma PrefixInQuery()
    ensures OccursAt("/abc/avatars/f123?x=ufs", "ufs", 20)
    ensures ExtractPath("ufs", "/abc/avatars/f123") == "/avatars/f123"
  {
  }

  /** A url whose prefix is only in its query string is routed all the same:
      POST /abc/avatars/f123?x=ufs reaches the file checks of store "avatars". */
  lemma PrefixInQueryExample()
    ensures Handle("ufs", Request("/abc/avatars/f123?x=ufs", "/abc/avatars/f123", "POST", Some("T"), None), AvatarsEnv)
            == Decision(CorsHeaders,
                        [StoreLookup("avatars"), FileLookup("avatars", "f123"), TokenCheck("avatars", Some("T"), "f123")],
                        StartUpload("avatars", "f123"))
  {
    PrefixInQuery();
    AvatarsRoute();
    PostChecksInOrder("ufs", Request("/abc/avatars/f123?x=ufs", "/abc/avatars/f123", "POST", Some("T"), None),
                      AvatarsEnv, "avatars", "f123");
  }
}
